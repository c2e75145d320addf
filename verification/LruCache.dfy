/**
 * The LRU cache of packages/cache/src/lru.ts: a map plus an intrusive doubly
 * linked list, updated in place, with an expiry time on each entry.  The ghost
 * fields hold the list the heap stands for: `nodes` are its entries and
 * `items` their contents, most recently used first.
 */
module LruCache {
  import opened Common
  import R = Recency

  class Entry<V> {
    const key: string
    var value: V
    var expiresAt: int
    var prev: Entry?<V>
    var next: Entry?<V>

    constructor (key: string, value: V, expiresAt: int, next: Entry?<V>)
      ensures this.key == key && this.value == value && this.expiresAt == expiresAt
      ensures this.prev == null && this.next == next
    {
      this.key, this.value, this.expiresAt, this.prev, this.next := key, value, expiresAt, null, next;
    }
  }

  /** The map holds exactly the listed nodes, each under its own key. */
  ghost predicate Mapped<V>(entries: map<string, Entry<V>>, nodes: seq<Entry<V>>, items: seq<R.Item<V>>) {
    && |nodes| == |items| && R.Distinct(items) && entries.Keys == R.KeySet(items)
    && forall i :: 0 <= i < |nodes| ==>
         nodes[i].key == items[i].key && nodes[i].key in entries && entries[nodes[i].key] == nodes[i]
  }

  /** The nodes, all in `cells`, store the values and expiry times of `items`. */
  ghost predicate Stored<V>(cells: set<Entry<V>>, nodes: seq<Entry<V>>, items: seq<R.Item<V>>)
    reads cells`value, cells`expiresAt
  {
    && |nodes| == |items|
    && forall i :: 0 <= i < |nodes| ==>
         nodes[i] in cells && nodes[i].value == items[i].value && nodes[i].expiresAt == items[i].expiresAt
  }

  lemma MappedWithout<V>(entries: map<string, Entry<V>>, nodes: seq<Entry<V>>, items: seq<R.Item<V>>, i: nat)
    requires Mapped(entries, nodes, items) && i < |nodes|
    ensures R.Without(items, i) == R.Sans(items, items[i].key)
    ensures R.IndexOf(items, items[i].key) == i
    ensures Mapped(entries - {items[i].key}, R.Without(nodes, i), R.Without(items, i))
  {
    var k := items[i].key;
    R.SansAt(items, i);
    R.SansKeys(items, k);
    R.SansDistinct(items, k);
    var ns, its := R.Without(nodes, i), R.Without(items, i);
    forall j | 0 <= j < |ns|
      ensures ns[j].key == its[j].key && ns[j].key in entries - {k} && entries[ns[j].key] == ns[j]
    {
      var o := if j < i then j else j + 1;
      assert ns[j] == nodes[o] && its[j] == items[o];
      R.KeyAt(its, j);
    }
  }

  /** Putting a fresh key, or the removed one, back at the front. */
  lemma MappedFront<V>(entries: map<string, Entry<V>>, nodes: seq<Entry<V>>, items: seq<R.Item<V>>,
                       e: Entry<V>, it: R.Item<V>)
    requires Mapped(entries, nodes, items) && e.key == it.key && it.key !in entries
    ensures Mapped(entries[it.key := e], [e] + nodes, [it] + items)
  {
    assert ([it] + items)[1..] == items;
  }

  /** Position `i`, now storing `it`, moves to the front; every key keeps its node. */
  lemma MappedRefresh<V>(entries: map<string, Entry<V>>, nodes: seq<Entry<V>>, items: seq<R.Item<V>>,
                         i: nat, it: R.Item<V>)
    requires Mapped(entries, nodes, items) && i < |nodes| && it.key == items[i].key
    ensures Mapped(entries, [nodes[i]] + R.Without(nodes, i), [it] + R.Sans(items, it.key))
    ensures R.Without(items, i) == R.Sans(items, it.key)
    ensures nodes[i] !in R.Without(nodes, i)
  {
    MappedWithout(entries, nodes, items, i);
    MappedFront(entries - {it.key}, R.Without(nodes, i), R.Without(items, i), nodes[i], it);
    assert (entries - {it.key})[it.key := nodes[i]] == entries;
  }

  lemma StoredWithout<V>(cells: set<Entry<V>>, nodes: seq<Entry<V>>, items: seq<R.Item<V>>, i: nat)
    requires i < |nodes| && Stored(cells, nodes, items)
    ensures Stored(cells, R.Without(nodes, i), R.Without(items, i))
    ensures nodes[i] !in R.Without(nodes, i) ==> Stored(cells - {nodes[i]}, R.Without(nodes, i), R.Without(items, i))
  {
    var ns, its := R.Without(nodes, i), R.Without(items, i);
    forall j | 0 <= j < |ns| ensures ns[j] in cells && ns[j].value == its[j].value && ns[j].expiresAt == its[j].expiresAt {
      var o := if j < i then j else j + 1;
      assert ns[j] == nodes[o] && its[j] == items[o];
    }
  }

  lemma StoredMore<V>(cells: set<Entry<V>>, more: set<Entry<V>>, nodes: seq<Entry<V>>, items: seq<R.Item<V>>)
    requires Stored(cells, nodes, items)
    ensures Stored(cells + more, nodes, items)
  {
  }

  lemma StoredFront<V>(cells: set<Entry<V>>, e: Entry<V>, nodes: seq<Entry<V>>, it: R.Item<V>, items: seq<R.Item<V>>)
    requires e in cells && Stored(cells, nodes, items) && e.value == it.value && e.expiresAt == it.expiresAt
    ensures Stored(cells, [e] + nodes, [it] + items)
  {
  }

  class LruCache<V> {
    const maxEntries: nat
    const ttlMs: int
    var entries: map<string, Entry<V>>
    var head: Entry?<V>  // most recently used
    var tail: Entry?<V>  // least recently used
    ghost var nodes: seq<Entry<V>>
    ghost var items: seq<R.Item<V>>
    ghost var cells: set<Entry<V>>  // every entry ever linked

    /** The pointers form one list: acyclic, `prev` and `next` mutually inverse, ends in place. */
    ghost predicate Linked()
      reads `head, `tail, `nodes, `cells, cells`prev, cells`next
    {
      && (forall i :: 0 <= i < |nodes| ==> nodes[i] in cells)
      && (forall i, j :: 0 <= i < j < |nodes| ==> nodes[i] != nodes[j])
      && (nodes == [] ==> head == null && tail == null)
      && (nodes != [] ==> head == nodes[0] && tail == nodes[|nodes| - 1] && head.prev == null && tail.next == null)
      && (forall i :: 0 <= i < |nodes| - 1 ==> nodes[i].next == nodes[i + 1])
      && (forall i :: 0 < i < |nodes| ==> nodes[i].prev == nodes[i - 1])
    }

    ghost predicate Valid()
      reads this, cells
    {
      && 1 <= maxEntries && |nodes| <= maxEntries
      && Linked() && Mapped(entries, nodes, items) && Stored(cells, nodes, items)
    }

    constructor (maxEntries: nat, ttlMs: int)
      requires 1 <= maxEntries
      ensures Valid() && items == [] && cells == {}
      ensures this.maxEntries == maxEntries && this.ttlMs == ttlMs
    {
      this.maxEntries, this.ttlMs := maxEntries, ttlMs;
      entries, head, tail, nodes, items, cells := map[], null, null, [], [], {};
    }

    /** Splice position `i` out of the list, leaving the map alone. */
    method Detach(entry: Entry<V>, ghost i: nat)
      requires Linked() && i < |nodes| && nodes[i] == entry
      modifies this`head, this`tail, this`nodes, cells`prev, cells`next
      ensures Linked() && nodes == old(R.Without(nodes, i))
      ensures entry.prev == null && entry.next == null
    {
      assert entry.prev == if i == 0 then null else nodes[i - 1];
      assert entry.next == if i == |nodes| - 1 then null else nodes[i + 1];
      if entry.prev != null {
        entry.prev.next := entry.next;
      } else {
        head := entry.next;
      }
      if entry.next != null {
        entry.next.prev := entry.prev;
      } else {
        tail := entry.prev;
      }
      entry.prev := null;
      entry.next := null;
      nodes := R.Without(nodes, i);
    }

    /** Bring a stored entry to the front. */
    method MoveToHead(entry: Entry<V>, ghost i: nat)
      requires Linked() && i < |nodes| && nodes[i] == entry
      modifies this`head, this`tail, this`nodes, cells`prev, cells`next
      ensures Linked() && nodes == [entry] + old(R.Without(nodes, i))
    {
      if entry == head {
        assert i == 0;
        return;
      }
      Detach(entry, i);
      entry.next := head;
      entry.prev := null;
      if head != null {
        head.prev := entry;
      }
      head := entry;
      tail := if tail == null then entry else tail;
      nodes := [entry] + nodes;
    }

    method Remove(entry: Entry<V>, ghost i: nat)
      requires Linked() && Mapped(entries, nodes, items) && i < |nodes| && nodes[i] == entry
      requires |items| == |nodes| && items[i].key == entry.key
      modifies `head, `tail, `nodes, `entries, `items, cells`prev, cells`next
      ensures Linked() && Mapped(entries, nodes, items)
      ensures nodes == old(R.Without(nodes, i)) && items == old(R.Without(items, i)) == R.Sans(old(items), entry.key)
    {
      hide *;
      MappedWithout(entries, nodes, items, i);
      Detach(entry, i);
      entries := entries - {entry.key};
      items := R.Without(items, i);
    }

    method EvictTail()
      requires Linked() && Mapped(entries, nodes, items) && nodes != []
      modifies `head, `tail, `nodes, `entries, `items, cells`prev, cells`next
      ensures Linked() && Mapped(entries, nodes, items)
      ensures nodes == old(R.Without(nodes, |nodes| - 1)) && items == old(R.Without(items, |items| - 1))
    {
      if tail != null {
        Remove(tail, |nodes| - 1);
      }
    }

    /** Move position `i`, which now stores `it`, to the front. */
    method Refresh(entry: Entry<V>, ghost i: nat, ghost it: R.Item<V>)
      requires Linked() && Mapped(entries, nodes, items) && i < |nodes| && nodes[i] == entry
      requires Stored(cells - {entry}, R.Without(nodes, i), R.Without(items, i))
      requires entry.key == it.key && entry.value == it.value && entry.expiresAt == it.expiresAt
      requires entry in cells && |items| == |nodes| && items[i].key == it.key
      modifies `head, `tail, `nodes, `items, cells`prev, cells`next
      ensures Linked() && Mapped(entries, nodes, items) && Stored(cells, nodes, items)
      ensures nodes == [entry] + old(R.Without(nodes, i)) && items == [it] + R.Sans(old(items), it.key)
    {
      hide *;
      MappedRefresh(entries, nodes, items, i, it);
      StoredMore(cells - {entry}, {entry}, R.Without(nodes, i), R.Without(items, i));
      assert cells - {entry} + {entry} == cells;
      StoredFront(cells, entry, R.Without(nodes, i), it, R.Without(items, i));
      items := [it] + R.Without(items, i);
      MoveToHead(entry, i);
    }

    /** `Remove` from a valid cache. */
    method Purge(entry: Entry<V>, ghost i: nat)
      requires Valid() && i < |nodes| && nodes[i] == entry
      modifies this, cells
      ensures Valid() && cells == old(cells)
      ensures nodes == old(R.Without(nodes, i)) && items == R.Sans(old(items), entry.key)
    {
      StoredWithout(cells, nodes, items, i);
      Remove(entry, i);
    }

    /** A live value, moved to the front; an expired entry is purged and reported missing. */
    method Get(key: string, now: int) returns (r: Option<V>)
      requires Valid()
      modifies this, cells
      ensures Valid() && cells == old(cells)
      ensures (items, r) == R.Get(old(items), key, now)
    {
      hide Linked, Mapped, Stored;
      Find(key);
      if key !in entries {
        return None;
      }
      var entry := entries[key];
      ghost var i := R.IndexOf(items, key);
      if now > entry.expiresAt {
        Purge(entry, i);
        return None;
      }
      MappedRefresh(entries, nodes, items, i, items[i]);
      StoredWithout(cells, nodes, items, i);
      Refresh(entry, i, items[i]);
      return Some(entry.value);
    }

    method Set(key: string, value: V, now: int)
      requires Valid()
      modifies this, cells
      ensures Valid() && fresh(cells - old(cells))
      ensures items == R.Set(old(items), key, value, now + ttlMs, maxEntries)
    {
      hide Linked, Mapped, Stored;
      Find(key);
      if key in entries {
        var existing := entries[key];
        ghost var i := R.IndexOf(items, key);
        MappedRefresh(entries, nodes, items, i, items[i]);
        StoredWithout(cells, nodes, items, i);
        existing.value := value;
        existing.expiresAt := now + ttlMs;
        Refresh(existing, i, R.Item(key, value, now + ttlMs));
        return;
      }
      R.SansAbsent(items, key);
      Insert(key, value, now + ttlMs);
      SizeIs();
      if |entries| > maxEntries {
        StoredWithout(cells, nodes, items, |nodes| - 1);
        EvictTail();
      }
    }

    /** The insertion half of `Set`: a fresh entry at the head. */
    method Insert(key: string, value: V, expiresAt: int)
      requires Linked() && Mapped(entries, nodes, items) && Stored(cells, nodes, items) && key !in entries
      modifies this, cells
      ensures Linked() && Mapped(entries, nodes, items) && Stored(cells, nodes, items)
      ensures |nodes| == old(|nodes|) + 1 && fresh(cells - old(cells))
      ensures items == [R.Item(key, value, expiresAt)] + old(items)
    {
      hide *;
      ghost var it := R.Item(key, value, expiresAt);
      var entry := new Entry(key, value, expiresAt, head);
      MappedFront(entries, nodes, items, entry, it);
      StoredMore(cells, {entry}, nodes, items);
      StoredFront(cells + {entry}, entry, nodes, it, items);
      Push(entry);
      entries := entries[key := entry];
      items := [it] + items;
    }

    /** Link a fresh entry in at the head. */
    method Push(entry: Entry<V>)
      requires Linked() && entry !in cells && entry.prev == null && entry.next == head
      modifies `head, `tail, `nodes, `cells, cells`prev
      ensures Linked() && nodes == [entry] + old(nodes) && cells == old(cells) + {entry}
    {
      if head != null {
        head.prev := entry;
      }
      head := entry;
      if tail == null {
        tail := entry;
      }
      nodes := [entry] + nodes;
      cells := cells + {entry};
    }

    /** Looking a key up in the map is looking it up in the list. */
    lemma Find(key: string)
      requires Mapped(entries, nodes, items) && Stored(cells, nodes, items)
      ensures key in entries <==> key in R.KeySet(items)
      ensures key in entries ==>
                var i := R.IndexOf(items, key);
                && i < |items| == |nodes| && nodes[i] == entries[key] && nodes[i] in cells
                && items[i] == R.Item(key, nodes[i].value, nodes[i].expiresAt) && nodes[i].key == key
    {
    }

    lemma SizeIs()
      requires Mapped(entries, nodes, items)
      ensures |entries| == |nodes| == |items|
    {
      R.KeySetSize(items);
    }

    method Delete(key: string) returns (present: bool)
      requires Valid()
      modifies this, cells
      ensures Valid() && cells == old(cells)
      ensures present == (key in R.KeySet(old(items)))
      ensures items == R.Sans(old(items), key)
    {
      hide Linked, Mapped, Stored;
      Find(key);
      if key !in entries {
        R.SansAbsent(items, key);
        return false;
      }
      Purge(entries[key], R.IndexOf(items, key));
      return true;
    }

    /** Is a live entry stored?  Purges an expired one, and does not touch recency. */
    method Has(key: string, now: int) returns (live: bool)
      requires Valid()
      modifies this, cells
      ensures Valid() && cells == old(cells)
      ensures (items, live) == R.Has(old(items), key, now)
    {
      hide Linked, Mapped, Stored;
      Find(key);
      if key !in entries {
        return false;
      }
      var entry := entries[key];
      if now > entry.expiresAt {
        Purge(entry, R.IndexOf(items, key));
        return false;
      }
      return true;
    }

    method Clear()
      requires Valid()
      modifies this
      ensures Valid() && nodes == [] && items == []
    {
      entries, head, tail, nodes, items, cells := map[], null, null, [], [], {};
    }

    method Size() returns (n: nat)
      requires Valid()
      ensures n == |items|
    {
      SizeIs();
      n := |entries|;
    }

    /** Purge every expired entry, visiting the map in any order. */
    method SweepExpired(now: int)
      requires Valid()
      modifies this, cells
      ensures Valid() && cells == old(cells)
      ensures items == R.Live(old(items), now)
    {
      ghost var was := items;
      var pending := entries.Keys;
      R.KeepAll(was, pending, now);
      while pending != {}
        invariant Valid() && cells == old(cells)
        invariant pending <= entries.Keys && pending <= R.KeySet(was)
        invariant R.Distinct(was) && items == R.Keep(was, pending, now)
        decreases |pending|
      {
        var k :| k in pending;
        R.KeepStep(was, pending, k, now);
        R.SansKeys(items, k);
        ghost var i := R.IndexOf(items, k);
        var entry := entries[k];
        assert entry == nodes[i];
        if now > entry.expiresAt {
          Purge(entry, i);
        }
        assert items == R.Keep(was, pending - {k}, now);
        pending := pending - {k};
      }
      R.KeepNone(was, now);
    }
  }

  /** The public constructor: a capacity below one is refused. */
  method Create<V>(maxEntries: int, ttlMs: int) returns (r: Result<LruCache<V>, string>)
    ensures r.Ok? <==> 1 <= maxEntries
    ensures r.Ok? ==> fresh(r.value) && r.value.Valid() && r.value.items == [] && r.value.cells == {}
    ensures r.Ok? ==> r.value.maxEntries == maxEntries && r.value.ttlMs == ttlMs
  {
    if maxEntries < 1 {
      return Err("maxEntries must be >= 1");
    }
    var cache := new LruCache<V>(maxEntries, ttlMs);
    return Ok(cache);
  }
}
