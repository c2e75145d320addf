/**
 * Configuration trees and their overlay, packages/config/src/loader.ts: what merging
 * a list of providers means for a single path.
 */
module ConfigTree {
  import opened Common

  /** A scalar, array or null is a leaf; a plain object is a node. */
  datatype Value = Leaf(scalar: int) | Node(fields: Fields)

  type Fields = map<string, Value>

  datatype Provider = Provider(name: string, data: Fields)

  /** `navigate`, over the segments of the dotted path. */
  function Navigate(v: Value, path: seq<string>): Option<Value> {
    if |path| == 0 then Some(v)
    else if v.Node? && path[0] in v.fields then Navigate(v.fields[path[0]], path[1..])
    else None
  }

  predicate Defines(data: Fields, path: seq<string>) {
    Navigate(Node(data), path).Some?
  }

  function ChildFields(t: Fields, key: string): Fields {
    if key in t && t[key].Node? then t[key].fields else map[]
  }

  /** The later tree wins at every leaf; objects merge. */
  function Overlay(t: Fields, s: Fields): (r: Fields)
    ensures r.Keys == t.Keys + s.Keys
    decreases Node(s)
  {
    map key | key in t.Keys + s.Keys ::
      if key !in s then t[key]
      else if s[key].Node? then Node(Overlay(ChildFields(t, key), s[key].fields))
      else s[key]
  }

  /** A proper prefix of the path is something other than an object. */
  predicate Blocks(v: Value, path: seq<string>) {
    |path| > 0 && (v.Leaf? || (path[0] in v.fields && Blocks(v.fields[path[0]], path[1..])))
  }

  function FieldsOf(v: Option<Value>): Fields {
    if v.Some? && v.value.Node? then v.value.fields else map[]
  }

  /** What one more provider does to one path. */
  function After(before: Option<Value>, data: Fields, path: seq<string>): Option<Value> {
    match Navigate(Node(data), path)
    case Some(Leaf(scalar)) => Some(Leaf(scalar))
    case Some(Node(fields)) => Some(Node(Overlay(FieldsOf(before), fields)))
    case None => if Blocks(Node(data), path) then None else before
  }

  lemma {:induction false} OverlayAt(t: Fields, s: Fields, path: seq<string>)
    requires |path| > 0
    ensures Navigate(Node(Overlay(t, s)), path) == After(Navigate(Node(t), path), s, path)
    decreases |path|
  {
    var key, rest := path[0], path[1..];
    if |rest| == 0 {
      assert Navigate(Node(t), path) == if key in t then Some(t[key]) else None;
      assert Navigate(Node(s), path) == if key in s then Some(s[key]) else None;
    } else if key in s && s[key].Node? {
      OverlayAt(ChildFields(t, key), s[key].fields, rest);
      NothingAt(rest);
      assert Navigate(Node(ChildFields(t, key)), rest) == Navigate(Node(t), path);
      assert Navigate(Node(Overlay(t, s)), path) == Navigate(Node(Overlay(ChildFields(t, key), s[key].fields)), rest);
    } else if key in s {
      assert Overlay(t, s)[key] == s[key] && Navigate(s[key], rest) == None;
      assert Blocks(Node(s), path);
    } else {
      assert !Blocks(Node(s), path) && Navigate(Node(s), path) == None;
      if key in t { assert Overlay(t, s)[key] == t[key]; }
    }
  }

  lemma NothingAt(path: seq<string>)
    requires |path| > 0
    ensures Navigate(Node(map[]), path) == None
  {
  }

  // ---- the whole list of providers ----

  /** Providers merge from the left: the overlay is not associative. */
  function Merged(ps: seq<Provider>): Fields {
    if |ps| == 0 then map[] else Overlay(Merged(ps[..|ps| - 1]), ps[|ps| - 1].data)
  }

  /** One past the last provider that defines the path, zero if none does. */
  function LastDefiner(ps: seq<Provider>, path: seq<string>): (n: nat)
    ensures n <= |ps| && (n > 0 ==> Defines(ps[n - 1].data, path))
    ensures forall i :: n <= i < |ps| ==> !Defines(ps[i].data, path)
  {
    if |ps| == 0 then 0
    else if Defines(ps[|ps| - 1].data, path) then |ps|
    else LastDefiner(ps[..|ps| - 1], path)
  }

  ghost predicate BlockedAfter(ps: seq<Provider>, n: nat, path: seq<string>) {
    exists i :: n <= i < |ps| && Blocks(Node(ps[i].data), path)
  }

  lemma BlockedAfterSnoc(ps: seq<Provider>, p: Provider, n: nat, path: seq<string>)
    requires n <= |ps|
    ensures BlockedAfter(ps + [p], n, path) <==> BlockedAfter(ps, n, path) || Blocks(Node(p.data), path)
  {
    var all := ps + [p];
    assert all[|ps|] == p;
    if BlockedAfter(ps, n, path) {
      var i :| n <= i < |ps| && Blocks(Node(ps[i].data), path);
      assert all[i] == ps[i];
    }
  }

  /** What the declarative reading gives. */
  ghost predicate Present(ps: seq<Provider>, path: seq<string>) {
    var n := LastDefiner(ps, path);
    n > 0 && !BlockedAfter(ps, n, path)
  }

  ghost predicate LastGives(ps: seq<Provider>, path: seq<string>, x: int) {
    var n := LastDefiner(ps, path);
    n > 0 && Navigate(Node(ps[n - 1].data), path) == Some(Leaf(x))
  }

  /**
   * A path is present exactly when some provider defines it and no later one replaced a
   * proper prefix by a non-object; a leaf has the value its last definer gave it.
   */
  lemma {:induction false} LastWins(ps: seq<Provider>, path: seq<string>, x: int)
    requires |path| > 0
    ensures Defines(Merged(ps), path) <==> Present(ps, path)
    ensures Navigate(Node(Merged(ps)), path) == Some(Leaf(x)) <==> Present(ps, path) && LastGives(ps, path, x)
  {
    hide Overlay, Navigate, Blocks, BlockedAfter;
    if |ps| > 0 {
      var before, last := ps[..|ps| - 1], ps[|ps| - 1];
      LastWins(before, path, x);
      assert ps == before + [last];
      OverlayAt(Merged(before), last.data, path);
      BlockedAfterSnoc(before, last, LastDefiner(before, path), path);
      if Defines(last.data, path) { NoneAfterLast(ps, path); }
    } else {
      NothingAt(path);
    }
  }

  lemma NoneAfterLast(ps: seq<Provider>, path: seq<string>)
    ensures !BlockedAfter(ps, |ps|, path)
  {
  }

  /** Everything `t` holds is overwritten by `s`. */
  ghost predicate Covered(t: Fields, s: Fields)
    decreases Node(s)
  {
    forall key :: key in t ==> key in s && (t[key].Node? && s[key].Node? ==> Covered(t[key].fields, s[key].fields))
  }

  lemma {:induction false} OverlayNothing(s: Fields)
    ensures Overlay(map[], s) == s
    decreases Node(s)
  {
    forall key | key in s ensures Overlay(map[], s)[key] == s[key] {
      if s[key].Node? { OverlayNothing(s[key].fields); }
    }
    assert Overlay(map[], s).Keys == s.Keys;
  }

  lemma {:induction false} OverlayAbsorbsIff(t: Fields, s: Fields)
    ensures Overlay(t, s) == s <==> Covered(t, s)
    decreases Node(s)
  {
    forall key | key in s && s[key].Node?
      ensures Overlay(ChildFields(t, key), s[key].fields) == s[key].fields <==> Covered(ChildFields(t, key), s[key].fields)
    {
      OverlayAbsorbsIff(ChildFields(t, key), s[key].fields);
    }
    if Covered(t, s) {
      assert t.Keys + s.Keys == s.Keys;
      forall key | key in s ensures Overlay(t, s)[key] == s[key] {
        if s[key].Node? { assert Covered(ChildFields(t, key), s[key].fields); }
      }
    }
    if Overlay(t, s) == s {
      forall key | key in t
        ensures key in s && (t[key].Node? && s[key].Node? ==> Covered(t[key].fields, s[key].fields))
      {
        assert key in Overlay(t, s);
        assert Overlay(t, s)[key] == s[key];
      }
    }
  }

  /**
   * The three trees merge alike either way: wherever the middle one puts a non-object
   * under an object of the last, the last overwrites all the first had there.
   */
  ghost predicate Regroups(a: Fields, b: Fields, c: Fields)
    decreases Node(c)
  {
    forall key :: key in b && key in c && c[key].Node? ==>
      if b[key].Node? then Regroups(ChildFields(a, key), b[key].fields, c[key].fields)
      else Covered(ChildFields(a, key), c[key].fields)
  }

  /** When merging may be regrouped, exactly. */
  lemma {:induction false} AssociativeIff(a: Fields, b: Fields, c: Fields)
    ensures Overlay(Overlay(a, b), c) == Overlay(a, Overlay(b, c)) <==> Regroups(a, b, c)
    decreases Node(c)
  {
    var left, right := Overlay(Overlay(a, b), c), Overlay(a, Overlay(b, c));
    assert left.Keys == right.Keys;
    forall key | key in left ensures left[key] == right[key] <==> RegroupsAt(a, b, c, key) {
      RegroupsAtKey(a, b, c, key);
    }
    if Regroups(a, b, c) {
      forall key | key in left ensures left[key] == right[key] {}
    }
    if left == right {
      forall key | key in b && key in c && c[key].Node?
        ensures if b[key].Node? then Regroups(ChildFields(a, key), b[key].fields, c[key].fields)
                else Covered(ChildFields(a, key), c[key].fields)
      {
        assert key in left && left[key] == right[key] && RegroupsAt(a, b, c, key);
      }
    }
  }

  ghost predicate RegroupsAt(a: Fields, b: Fields, c: Fields, key: string) {
    key in b && key in c && c[key].Node? ==>
      if b[key].Node? then Regroups(ChildFields(a, key), b[key].fields, c[key].fields)
      else Covered(ChildFields(a, key), c[key].fields)
  }

  lemma {:induction false} RegroupsAtKey(a: Fields, b: Fields, c: Fields, key: string)
    requires key in a.Keys + b.Keys + c.Keys
    ensures Overlay(Overlay(a, b), c)[key] == Overlay(a, Overlay(b, c))[key] <==> RegroupsAt(a, b, c, key)
    decreases Node(c), 0
  {
    var left, right := Overlay(Overlay(a, b), c)[key], Overlay(a, Overlay(b, c))[key];
    if key in c && c[key].Node? {
      var s := c[key].fields;
      if key in b && b[key].Node? {
        AssociativeIff(ChildFields(a, key), b[key].fields, s);
      } else {
        OverlayNothing(s);
        OverlayAbsorbsIff(ChildFields(a, key), s);
      }
    }
  }

  /** With a scalar between two objects the grouping can matter. */
  lemma NotAssociative()
    ensures exists a: Fields, b: Fields, c: Fields :: Overlay(Overlay(a, b), c) != Overlay(a, Overlay(b, c))
  {
    var a, b, c := map["k" := Node(map["x" := Leaf(1)])], map["k" := Leaf(0)], map["k" := Node(map[])];
    hide Overlay;
    AssociativeIff(a, b, c);
    assert ChildFields(a, "k") == map["x" := Leaf(1)];
    assert "k" in b && c["k"].Node? && "x" in ChildFields(a, "k") && !Covered(ChildFields(a, "k"), map[]);
    assert !Regroups(a, b, c);
  }
}
