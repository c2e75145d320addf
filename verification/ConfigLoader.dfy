/**
 * The in-place merge, packages/config/src/loader.ts:150-180, on objects that are
 * updated where they stand.
 */
module ConfigLoader {
  import opened Common
  import opened ConfigTree
  import opened ConfigProvenance

  datatype Cell = Scalar(x: int) | Child(obj: Obj)

  class Obj {
    var fields: map<string, Cell>
    ghost var repr: set<Obj>
    ghost var tree: Fields  // the value this object stands for

    /** A tree: no object is shared or contains itself. */
    ghost predicate Valid()
      reads this, repr
      decreases repr
    {
      && this in repr && fields.Keys == tree.Keys
      && (forall k :: k in fields && fields[k].Scalar? ==> tree[k] == Leaf(fields[k].x))
      && (forall k :: k in fields && fields[k].Child? ==>
            && fields[k].obj in repr && fields[k].obj.repr <= repr && this !in fields[k].obj.repr
            && fields[k].obj.Valid() && tree[k] == Node(fields[k].obj.tree))
      && (forall j, k :: j in fields && k in fields && j != k && fields[j].Child? && fields[k].Child? ==>
            fields[j].obj.repr !! fields[k].obj.repr)
    }

    /** Valid, but for the ghost fields not yet knowing what became of the child at `key`. */
    ghost predicate OpenAt(key: string, child: Obj)
      reads this, repr, child, child.repr
    {
      && this in repr && fields.Keys == tree.Keys + {key} && fields[key] == Child(child)
      && child in child.repr && this !in child.repr && child.Valid()
      && (forall k :: k in fields && k != key && fields[k].Scalar? ==> tree[k] == Leaf(fields[k].x))
      && (forall k :: k in fields && k != key && fields[k].Child? ==>
            && fields[k].obj in repr && fields[k].obj.repr <= repr && this !in fields[k].obj.repr
            && fields[k].obj.Valid() && tree[k] == Node(fields[k].obj.tree)
            && fields[k].obj.repr !! child.repr)
      && (forall j, k ::
            (j in fields && k in fields && j != k && j != key && k != key && fields[j].Child? && fields[k].Child?) ==>
            fields[j].obj.repr !! fields[k].obj.repr)
    }

    /** The object found under `key`, or a fresh empty one put there. */
    method OpenChild(key: string) returns (child: Obj)
      requires Valid()
      modifies this`fields
      ensures OpenAt(key, child) && child.tree == ChildFields(tree, key)
      ensures fresh(child.repr - repr)
    {
      hide ChildFields;
      ChildIs(key);
      if key in fields && fields[key].Child? {
        child := fields[key].obj;
        assert fields == fields[key := Child(child)];
      } else {
        child := new Obj();
        PutChild(key, child);
      }
    }

    method PutChild(key: string, child: Obj)
      requires Valid() && child.Valid() && child.repr !! repr
      requires key in fields ==> fields[key].Scalar?
      modifies this`fields
      ensures OpenAt(key, child)
    {
      fields := fields[key := Child(child)];
    }

    lemma ChildIs(key: string)
      requires Valid()
      ensures ChildFields(tree, key) == if key in fields && fields[key].Child? then fields[key].obj.tree else map[]
    {
    }

    method CloseChild(key: string, child: Obj)
      requires OpenAt(key, child)
      modifies this`repr, this`tree
      ensures Valid() && repr == old(repr) + child.repr && tree == old(tree)[key := Node(child.tree)]
    {
      repr := repr + child.repr;
      tree := tree[key := Node(child.tree)];
    }

    constructor ()
      ensures Valid() && fresh(repr) && tree == map[]
    {
      fields, tree := map[], map[];
      repr := {this};
    }

    method PutScalar(key: string, x: int)
      requires Valid()
      modifies this
      ensures Valid() && repr == old(repr) && tree == old(tree)[key := Leaf(x)]
    {
      fields := fields[key := Scalar(x)];
      tree := tree[key := Leaf(x)];
    }
  }

  class Loader {
    var provenance: map<string, SourceRef>

    constructor ()
      ensures provenance == map[]
    {
      provenance := map[];
    }

    /** Merge `source` into `target` where it stands, recording every path it defines. */
    method DeepAssign(target: Obj, source: Fields, prefix: string, provider: string)
      requires target.Valid()
      modifies this, target.repr
      ensures target.Valid() && fresh(target.repr - old(target.repr))
      ensures target.tree == Overlay(old(target.tree), source)
      ensures provenance == Mark(old(provenance), Paths(source, prefix), provider)
      decreases Node(source), 1
    {
      hide Overlay, Mark, Paths, Without, ChildFields, Dot, RefFor, PathsOf;
      var rest := source.Keys;
      NothingYet(target.tree, source, prefix, provenance, provider);
      while rest != {}
        invariant rest <= source.Keys
        invariant target.Valid() && fresh(target.repr - old(target.repr))
        invariant target.tree == Overlay(old(target.tree), Without(source, rest))
        invariant provenance == Mark(old(provenance), Paths(Without(source, rest), prefix), provider)
        decreases |rest|
      {
        var key :| key in rest;
        var path := Dot(prefix, key);
        OverlayOne(old(target.tree), source, rest, key);
        MarkOne(old(provenance), source, rest, key, prefix, provider);
        provenance := provenance[path := RefFor(provider, path)];
        if source[key].Node? {
          AssignChild(target, key, source[key].fields, path, provider);
        } else {
          target.PutScalar(key, source[key].scalar);
        }
        rest := rest - {key};
      }
      assert Without(source, rest) == source by { AllDone(source); }
    }

    /** The branch for a nested object: reuse the one in place, or start an empty one. */
    method AssignChild(target: Obj, key: string, source: Fields, path: string, provider: string)
      requires target.Valid()
      modifies this, target.repr
      ensures target.Valid() && fresh(target.repr - old(target.repr))
      ensures target.tree == old(target.tree)[key := Node(Overlay(ChildFields(old(target.tree), key), source))]
      ensures provenance == Mark(old(provenance), Paths(source, path), provider)
      decreases Node(source), 3
    {
      hide Overlay, Mark, Paths, ChildFields;
      var child := target.OpenChild(key);
      GrowChild(target, key, child, source, path, provider);
      target.CloseChild(key, child);
    }

    method GrowChild(target: Obj, key: string, child: Obj, source: Fields, path: string, provider: string)
      requires target.OpenAt(key, child)
      modifies this, child.repr
      ensures target.OpenAt(key, child) && fresh(child.repr - old(child.repr))
      ensures child.tree == Overlay(old(child.tree), source)
      ensures provenance == Mark(old(provenance), Paths(source, path), provider)
      ensures target.tree == old(target.tree) && target.repr == old(target.repr)
      decreases Node(source), 2
    {
      hide Overlay, Mark, Paths, ChildFields;
      DeepAssign(child, source, path, provider);
    }
  }

  /** The entries not left to do. */
  function Without(source: Fields, rest: set<string>): Fields {
    map k | k in source && k !in rest :: source[k]
  }

  lemma AllDone(source: Fields)
    ensures Without(source, {}) == source
  {
  }

  lemma NothingYet(t: Fields, source: Fields, prefix: string, prov: map<string, SourceRef>, provider: string)
    ensures Overlay(t, Without(source, source.Keys)) == t
    ensures Mark(prov, Paths(Without(source, source.Keys), prefix), provider) == prov
  {
    assert Without(source, source.Keys) == map[];
    assert Paths(map[], prefix) == {};
  }

  lemma OverlayOne(t: Fields, source: Fields, rest: set<string>, key: string)
    requires key in rest && rest <= source.Keys
    ensures ChildFields(Overlay(t, Without(source, rest)), key) == ChildFields(t, key)
    ensures Overlay(t, Without(source, rest - {key})) == Overlay(t, Without(source, rest))[key :=
              if source[key].Node? then Node(Overlay(ChildFields(t, key), source[key].fields)) else source[key]]
  {
    var a, b := Overlay(t, Without(source, rest - {key})), Overlay(t, Without(source, rest));
    var v := if source[key].Node? then Node(Overlay(ChildFields(t, key), source[key].fields)) else source[key];
    assert a.Keys == b[key := v].Keys;
    forall k | k in a ensures a[k] == b[key := v][k] {}
  }

  lemma MarkOne(prov: map<string, SourceRef>, source: Fields, rest: set<string>, key: string,
                prefix: string, provider: string)
    requires key in rest && rest <= source.Keys
    ensures var path := Dot(prefix, key);
            var marked := Mark(prov, Paths(Without(source, rest), prefix), provider)[path := RefFor(provider, path)];
            Mark(prov, Paths(Without(source, rest - {key}), prefix), provider) ==
            if source[key].Node? then Mark(marked, Paths(source[key].fields, path), provider) else marked
  {
    var path := Dot(prefix, key);
    hide Paths, Without, RefFor, Dot, Mark;
    PathsOne(source, rest, key, prefix);
    var done := Paths(Without(source, rest), prefix);
    var more := if source[key].Node? then Paths(source[key].fields, path) else {};
    assert PathsOf(source[key], path) == {path} + more;
    MarkMore(prov, done, path, more, provider);
    MarkNone(Mark(prov, done, provider)[path := RefFor(provider, path)], provider);
  }

  lemma MarkMore(prov: map<string, SourceRef>, done: set<string>, path: string, more: set<string>, provider: string)
    ensures Mark(prov, done + ({path} + more), provider) ==
            Mark(Mark(prov, done, provider)[path := RefFor(provider, path)], more, provider)
  {
    hide RefFor;
  }

  lemma MarkNone(prov: map<string, SourceRef>, provider: string)
    ensures Mark(prov, {}, provider) == prov
  {
  }

  lemma PathsOne(source: Fields, rest: set<string>, key: string, prefix: string)
    requires key in rest && rest <= source.Keys
    ensures Paths(Without(source, rest - {key}), prefix) ==
            Paths(Without(source, rest), prefix) + PathsOf(source[key], Dot(prefix, key))
  {
    hide PathsOf, Dot;
    var a, b := Paths(Without(source, rest - {key}), prefix), Paths(Without(source, rest), prefix);
    forall p ensures p in a <==> p in b || p in PathsOf(source[key], Dot(prefix, key)) {
      if p in a {
        var k :| k in Without(source, rest - {key}) && p in PathsOf(source[k], Dot(prefix, k));
        if k != key { assert k in Without(source, rest); }
      }
      if p in b {
        var k :| k in Without(source, rest) && p in PathsOf(source[k], Dot(prefix, k));
        assert k in Without(source, rest - {key});
      }
      if p in PathsOf(source[key], Dot(prefix, key)) { assert key in Without(source, rest - {key}); }
    }
  }

  /** Load and merge every provider, in the order given. */
  method MergeProviders(ps: seq<Provider>) returns (merged: Obj, loader: Loader)
    ensures merged.Valid() && merged.tree == Merged(ps) && loader.provenance == Provenance(ps)
  {
    hide Overlay, Mark, Paths;
    merged := new Obj();
    loader := new Loader();
    for i := 0 to |ps|
      invariant merged.Valid() && fresh(merged.repr) && fresh(loader)
      invariant merged.tree == Merged(ps[..i]) && loader.provenance == Provenance(ps[..i])
    {
      loader.DeepAssign(merged, ps[i].data, "", ps[i].name);
      assert ps[..i + 1][..i] == ps[..i];
    }
    assert ps[..|ps|] == ps;
  }

  /** `navigate` on the objects themselves. */
  method NavigateObj(root: Obj, path: seq<string>) returns (found: bool, cell: Cell)
    requires root.Valid()
    ensures found <==> Navigate(Node(root.tree), path).Some?
    ensures found ==> cell.Child? ==> cell.obj.Valid()
    ensures found ==> Navigate(Node(root.tree), path).value ==
                      if cell.Child? then Node(cell.obj.tree) else Leaf(cell.x)
  {
    cell := Child(root);
    for i := 0 to |path|
      invariant cell.Child? ==> cell.obj.Valid()
      invariant Navigate(Node(root.tree), path) ==
                Navigate(if cell.Child? then Node(cell.obj.tree) else Leaf(cell.x), path[i..])
    {
      assert path[i..][1..] == path[i + 1..] && path[i..][0] == path[i];
      if cell.Child? && path[i] in cell.obj.fields {
        cell := cell.obj.fields[path[i]];
      } else {
        return false, cell;
      }
    }
    found := true;
  }
}
