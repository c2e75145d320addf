/**
 * Provenance by dotted path, packages/config/src/loader.ts:160-180.  Several lists of keys
 * can have one dotted name, unless no key is empty or holds a dot.
 */
module ConfigProvenance {
  import opened Common
  import opened Text
  import opened ConfigTree

  datatype SourceRef = SourceRef(provider: string, location: Option<string>)

  function RefFor(provider: string, path: string): SourceRef {
    SourceRef(provider, if provider == "env" then Some(path) else None)
  }

  function Dot(prefix: string, key: string): string {
    if prefix == "" then key else prefix + (['.'] + key)
  }

  /** Every path a source defines, leaf or not, below a prefix. */
  function Paths(s: Fields, prefix: string): set<string>
    decreases Node(s), 0
  {
    set key, p | key in s && p in PathsOf(s[key], Dot(prefix, key)) :: p
  }

  function PathsOf(v: Value, path: string): set<string>
    decreases v, 1
  {
    {path} + if v.Node? then Paths(v.fields, path) else {}
  }

  function Mark(prov: map<string, SourceRef>, paths: set<string>, provider: string): map<string, SourceRef> {
    map p | p in prov.Keys + paths :: if p in paths then RefFor(provider, p) else prov[p]
  }

  /** `provenance.get(path) ?? null`. */
  function Source(prov: map<string, SourceRef>, path: string): Option<SourceRef> {
    if path in prov then Some(prov[path]) else None
  }

  lemma MarkAt(prov: map<string, SourceRef>, paths: set<string>, provider: string, p: string)
    ensures Source(Mark(prov, paths, provider), p) ==
            if p in paths then Some(RefFor(provider, p)) else Source(prov, p)
  {
  }

  function Provenance(ps: seq<Provider>): map<string, SourceRef> {
    if |ps| == 0 then map[]
    else
      var last := ps[|ps| - 1];
      Mark(Provenance(ps[..|ps| - 1]), Paths(last.data, ""), last.name)
  }

  // ---- the dotted name of a list of keys ----

  /** The name `deepAssign` gives to a list of keys below a prefix. */
  function Dots(prefix: string, keys: seq<string>): string
    decreases |keys|
  {
    if |keys| == 0 then prefix else Dots(Dot(prefix, keys[0]), keys[1..])
  }

  /** The source defines some list of keys with this dotted name. */
  ghost predicate DefinesNamed(data: Fields, p: string) {
    exists keys :: Named(data, "", keys, p)
  }

  ghost predicate Named(data: Fields, prefix: string, keys: seq<string>, p: string) {
    |keys| > 0 && Defines(data, keys) && Dots(prefix, keys) == p
  }

  lemma NavigateCons(s: Fields, key: string, deeper: seq<string>)
    requires key in s
    ensures Navigate(Node(s), [key] + deeper) == Navigate(s[key], deeper)
  {
    assert ([key] + deeper)[1..] == deeper;
  }

  lemma DotsCons(prefix: string, key: string, deeper: seq<string>)
    ensures Dots(prefix, [key] + deeper) == Dots(Dot(prefix, key), deeper)
  {
    assert ([key] + deeper)[1..] == deeper;
  }

  lemma {:induction false} MarkedHasKeys(s: Fields, prefix: string, p: string) returns (keys: seq<string>)
    requires p in Paths(s, prefix)
    ensures Named(s, prefix, keys, p)
    decreases Node(s)
  {
    hide Dot, Navigate;
    var key :| key in s && p in PathsOf(s[key], Dot(prefix, key));
    var deeper := [];
    NavigateNothing(s[key]);
    if p != Dot(prefix, key) {
      deeper := MarkedHasKeys(s[key].fields, Dot(prefix, key), p);
    }
    keys := [key] + deeper;
    NavigateCons(s, key, deeper);
    DotsCons(prefix, key, deeper);
  }

  lemma NavigateNothing(v: Value)
    ensures Navigate(v, []) == Some(v)
  {
  }

  lemma {:induction false} KeysAreMarked(s: Fields, prefix: string, keys: seq<string>)
    requires |keys| > 0 && Defines(s, keys)
    ensures Dots(prefix, keys) in Paths(s, prefix)
    decreases |keys|
  {
    var key := keys[0];
    assert Navigate(s[key], keys[1..]).Some?;
    if |keys| > 1 { KeysAreMarked(s[key].fields, Dot(prefix, key), keys[1..]); }
    assert Dots(prefix, keys) in PathsOf(s[key], Dot(prefix, key));
  }

  /** A dotted path is recorded exactly when the source defines some keys of that name, whatever the keys are. */
  lemma MarkedIffNamed(s: Fields, p: string)
    ensures p in Paths(s, "") <==> DefinesNamed(s, p)
  {
    hide Paths, Dots;
    if p in Paths(s, "") { var keys := MarkedHasKeys(s, "", p); }
    if keys :| Named(s, "", keys, p) { KeysAreMarked(s, "", keys); }
  }

  /** One past the last provider that records the name, zero if none does. */
  function LastNamer(ps: seq<Provider>, p: string): (n: nat)
    ensures n <= |ps| && (n > 0 ==> p in Paths(ps[n - 1].data, ""))
    ensures forall i :: n <= i < |ps| ==> p !in Paths(ps[i].data, "")
  {
    if |ps| == 0 then 0
    else if p in Paths(ps[|ps| - 1].data, "") then |ps|
    else LastNamer(ps[..|ps| - 1], p)
  }

  /** The recorded source of a dotted path is the last provider to define any keys of that name. */
  lemma {:induction false} ProvenanceIsLastNamer(ps: seq<Provider>, p: string)
    ensures Source(Provenance(ps), p) ==
            if LastNamer(ps, p) == 0 then None else Some(RefFor(ps[LastNamer(ps, p) - 1].name, p))
  {
    hide Paths, Mark, Source, RefFor;
    if |ps| > 0 {
      var before, last := ps[..|ps| - 1], ps[|ps| - 1];
      ProvenanceIsLastNamer(before, p);
      MarkAt(Provenance(before), Paths(last.data, ""), last.name, p);
    } else {
      NoSource(p);
    }
  }

  lemma NoSource(path: string)
    ensures Source(map[], path) == None
  {
  }

  /** From provider `n` on, none defines keys with the dotted name of these. */
  ghost predicate NoneNamedLater(ps: seq<Provider>, n: nat, keys: seq<string>) {
    forall i :: n <= i < |ps| ==> !DefinesNamed(ps[i].data, Dots("", keys))
  }

  /**
   * The recorded source of a path is the last definer of its keys exactly when no later
   * provider defines other keys with the same dotted name.
   */
  lemma SourceIsLastDefinerIff(ps: seq<Provider>, keys: seq<string>)
    requires |keys| > 0 && LastDefiner(ps, keys) > 0
    ensures LastNamer(ps, Dots("", keys)) == LastDefiner(ps, keys) <==> NoneNamedLater(ps, LastDefiner(ps, keys), keys)
  {
    var n, p := LastDefiner(ps, keys), Dots("", keys);
    hide Paths, Dots, LastDefiner, LastNamer, DefinesNamed, Defines;
    KeysAreMarked(ps[n - 1].data, "", keys);
    forall i | n <= i < |ps| ensures p in Paths(ps[i].data, "") <==> DefinesNamed(ps[i].data, p) {
      MarkedIffNamed(ps[i].data, p);
    }
  }

  /** Provider `i` is the last to define the path, and defines it as the leaf `x`. */
  ghost predicate GivenBy(ps: seq<Provider>, keys: seq<string>, x: int, i: nat) {
    && i < |ps| && Navigate(Node(ps[i].data), keys) == Some(Leaf(x))
    && forall j :: i < j < |ps| ==> !Defines(ps[j].data, keys)
  }

  /**
   * A leaf of the result has its value from its last definer; it has its recorded source
   * from there too, unless a later provider defines other keys of the same name.
   */
  lemma LeafAndSourceAgree(ps: seq<Provider>, keys: seq<string>, x: int)
    requires |keys| > 0 && Navigate(Node(Merged(ps)), keys) == Some(Leaf(x))
    ensures exists i: nat :: GivenBy(ps, keys, x, i) && SourcedFrom(ps, keys, i)
  {
    hide *;
    LastWins(ps, keys, x);
    GivesDefines(ps, keys, x);
    SourceIsLastDefinerIff(ps, keys);
    ProvenanceIsLastNamer(ps, Dots("", keys));
    LeafGiven(ps, keys, x);
  }

  /** The recorded source of the path is provider `i`, unless a later one defines other keys of the same name. */
  ghost predicate SourcedFrom(ps: seq<Provider>, keys: seq<string>, i: nat) {
    i < |ps| && (NoneNamedLater(ps, i + 1, keys) ==>
                   Source(Provenance(ps), Dots("", keys)) == Some(RefFor(ps[i].name, Dots("", keys))))
  }

  lemma GivesDefines(ps: seq<Provider>, keys: seq<string>, x: int)
    requires LastGives(ps, keys, x)
    ensures LastDefiner(ps, keys) > 0
  {
    hide LastDefiner, Navigate;
  }

  lemma LeafGiven(ps: seq<Provider>, keys: seq<string>, x: int)
    requires Present(ps, keys) && LastGives(ps, keys, x)
    requires LastNamer(ps, Dots("", keys)) == LastDefiner(ps, keys) <==> NoneNamedLater(ps, LastDefiner(ps, keys), keys)
    requires Source(Provenance(ps), Dots("", keys)) ==
             if LastNamer(ps, Dots("", keys)) == 0 then None
             else Some(RefFor(ps[LastNamer(ps, Dots("", keys)) - 1].name, Dots("", keys)))
    ensures exists i: nat :: GivenBy(ps, keys, x, i) && SourcedFrom(ps, keys, i)
  {
    hide Provenance, Source, RefFor, Dots, LastDefiner, LastNamer, NoneNamedLater, Navigate, Defines, BlockedAfter;
    var i: nat := LastDefiner(ps, keys) - 1;
    assert GivenBy(ps, keys, x, i) && SourcedFrom(ps, keys, i);
  }

  // ---- keys without dots ----

  predicate GoodKey(key: string) {
    key != "" && '.' !in key
  }

  ghost predicate GoodKeys(keys: seq<string>) {
    forall i :: 0 <= i < |keys| ==> GoodKey(keys[i])
  }

  ghost predicate Clean(v: Value) {
    v.Node? ==> forall key :: key in v.fields ==> GoodKey(key) && Clean(v.fields[key])
  }

  lemma {:induction false} JoinSnoc(keys: seq<string>, key: string)
    requires GoodKeys(keys) && GoodKey(key)
    ensures Join(keys + [key], '.') == Dot(Join(keys, '.'), key)
    ensures |keys| > 0 ==> Join(keys, '.') != ""
  {
    if |keys| > 0 {
      assert GoodKey(keys[0]);
      JoinSnoc(keys[1..], key);
      assert (keys + [key])[1..] == keys[1..] + [key];
    } else {
      assert keys + [key] == [key];
    }
  }

  lemma GoodSnoc(keys: seq<string>, key: string)
    requires GoodKeys(keys) && GoodKey(key)
    ensures GoodKeys(keys + [key])
  {
  }

  /** The dotted name of dot-free keys is their joining. */
  lemma {:induction false} DotsIsJoin(above: seq<string>, keys: seq<string>)
    requires GoodKeys(above) && GoodKeys(keys)
    ensures Dots(Join(above, '.'), keys) == Join(above + keys, '.')
    decreases |keys|
  {
    if |keys| > 0 {
      assert GoodKey(keys[0]);
      JoinSnoc(above, keys[0]);
      GoodSnoc(above, keys[0]);
      hide Join, Dot, GoodKey;
      DotsIsJoin(above + [keys[0]], keys[1..]);
      assert above + [keys[0]] + keys[1..] == above + keys;
    } else {
      assert above + keys == above;
    }
  }

  lemma JoinInjective(a: seq<string>, b: seq<string>)
    requires GoodKeys(a) && GoodKeys(b) && |a| > 0 && |b| > 0 && Join(a, '.') == Join(b, '.')
    ensures a == b
  {
    forall p | p in a ensures '.' !in p { assert GoodKey(p); }
    forall p | p in b ensures '.' !in p { assert GoodKey(p); }
    SplitJoin(a, '.');
    SplitJoin(b, '.');
  }

  lemma {:induction false} DefinedKeysAreGood(v: Value, keys: seq<string>)
    requires Clean(v) && Navigate(v, keys).Some?
    ensures GoodKeys(keys)
    decreases |keys|
  {
    hide GoodKey;
    if |keys| > 0 { DefinedKeysAreGood(v.fields[keys[0]], keys[1..]); }
  }

  /** Among dot-free keys the name tells which keys they are. */
  lemma MarkedIff(s: Fields, keys: seq<string>)
    requires Clean(Node(s)) && GoodKeys(keys) && |keys| > 0
    ensures Dots("", keys) == Join(keys, '.')
    ensures Join(keys, '.') in Paths(s, "") <==> Defines(s, keys)
  {
    DotsIsJoin([], keys);
    assert [] + keys == keys && Join([], '.') == "";
    hide Paths, Join, Dots, Clean, GoodKeys, Navigate;
    MarkedIffNamed(s, Join(keys, '.'));
    if Defines(s, keys) { KeysAreMarked(s, "", keys); }
    if found :| Named(s, "", found, Join(keys, '.')) {
      DefinedKeysAreGood(Node(s), found);
      DotsIsJoin([], found);
      assert [] + found == found;
      JoinInjective(found, keys);
    }
  }

  ghost predicate AllClean(ps: seq<Provider>) {
    forall i :: 0 <= i < |ps| ==> Clean(Node(ps[i].data))
  }

  /** So when no provider's keys hold a dot, the recorded source of a path is its last definer. */
  lemma ProvenanceIsLastDefiner(ps: seq<Provider>, keys: seq<string>)
    requires AllClean(ps) && GoodKeys(keys) && |keys| > 0
    ensures Source(Provenance(ps), Join(keys, '.')) ==
            if LastDefiner(ps, keys) == 0 then None
            else Some(RefFor(ps[LastDefiner(ps, keys) - 1].name, Join(keys, '.')))
  {
    hide Paths, Join, Clean, GoodKeys, Defines, LastDefiner, LastNamer, Provenance, Source, RefFor;
    ProvenanceIsLastNamer(ps, Join(keys, '.'));
    forall i | 0 <= i < |ps| ensures Join(keys, '.') in Paths(ps[i].data, "") <==> Defines(ps[i].data, keys) {
      MarkedIff(ps[i].data, keys);
    }
  }

  /**
   * With a dot they may part: whatever a nested key `a`, `b` meant, a later provider with
   * the single key `a.b` is recorded as its source without defining it.
   */
  lemma DottedKeyMisleads(first: Provider, second: Provider, a: string, b: string, x: int, y: int)
    requires GoodKey(a) && GoodKey(b)
    requires first.data == map[a := Node(map[b := Leaf(x)])] && second.data == map[a + (['.'] + b) := Leaf(y)]
    ensures LastDefiner([first, second], [a, b]) == 1
    ensures Source(Provenance([first, second]), Join([a, b], '.')) == Some(RefFor(second.name, Join([a, b], '.')))
  {
    DottedKeyPaths(first.data, second.data, a, b, x, y);
    var ps := [first, second];
    hide *;
    assert ps[0] == first && ps[1] == second;
    ProvenanceIsLastNamer(ps, Join([a, b], '.'));
  }

  lemma DottedKeyPaths(s: Fields, t: Fields, a: string, b: string, x: int, y: int)
    requires GoodKey(a) && GoodKey(b)
    requires s == map[a := Node(map[b := Leaf(x)])] && t == map[a + (['.'] + b) := Leaf(y)]
    ensures Defines(s, [a, b]) && !Defines(t, [a, b]) && Join([a, b], '.') in Paths(t, "")
  {
    assert [a, b][1..] == [b] && [b][1..] == [];
    assert Navigate(Node(map[b := Leaf(x)]), [b]) == Some(Leaf(x));
    var key := a + (['.'] + b);
    assert Join([b], '.') == b && Join([a, b], '.') == key;
    assert t[key] == Leaf(y) && key in PathsOf(t[key], Dot("", key));
    assert key[|a|] == '.';
  }
}
