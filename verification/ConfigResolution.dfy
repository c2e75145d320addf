/**
 * What the schema walk delivers: navigating to a field of the schema in the result
 * finds its transformed value, and there are issues exactly when some field fails.
 */
module ConfigResolution {
  import opened Common
  import opened Text
  import opened ConfigTree
  import opened ConfigProvenance
  import opened ConfigSchema

  /** A field with its dotted path. */
  datatype Placed = Placed(path: string, field: Field)

  /** The fields of a schema in the order of the walk. */
  function FieldsIn(shape: Shape, prefix: string): seq<Placed>
    decreases shape
  {
    match shape
    case End => []
    case Item(key, entry, rest) => EntryFields(entry, Dot(prefix, key)) + FieldsIn(rest, prefix)
  }

  function EntryFields(entry: Entry, path: string): seq<Placed>
    decreases entry
  {
    match entry
    case Single(field) => [Placed(path, field)]
    case Group(inner) => FieldsIn(inner, path)
  }

  /** What `navigate` and `setPath` walk along. */
  function Segments(p: Placed): (segments: seq<string>)
    ensures |segments| > 0
  {
    Split(p.path, '.')
  }

  function KeysOf(shape: Shape): set<string> {
    match shape
    case End => {}
    case Item(key, _, rest) => {key} + KeysOf(rest)
  }

  /** Distinct keys in every object, none empty or dotted. */
  ghost predicate WellFormed(shape: Shape) {
    match shape
    case End => true
    case Item(key, entry, rest) =>
      GoodKey(key) && key !in KeysOf(rest) && WellFormed(rest) && (entry.Group? ==> WellFormed(entry.shape))
  }

  /** The two paths part at some key. */
  ghost predicate Diverge(a: seq<string>, b: seq<string>) {
    exists i :: 0 <= i < |a| && i < |b| && a[i] != b[i]
  }

  // ---- one path ----

  lemma {:induction false} SetThenGet(root: Fields, path: seq<string>, x: Value)
    requires |path| > 0
    ensures Navigate(Node(SetAt(root, path, x)), path) == Some(x)
    decreases |path|
  {
    if |path| > 1 { SetThenGet(ChildFields(root, path[0]), path[1..], x); }
  }

  lemma {:induction false} SetElsewhere(root: Fields, path: seq<string>, x: Value, other: seq<string>)
    requires |path| > 0 && Diverge(path, other)
    ensures Navigate(Node(SetAt(root, path, x)), other) == Navigate(Node(root), other)
    decreases |path|
  {
    var i :| 0 <= i < |path| && i < |other| && path[i] != other[i];
    if path[0] == other[0] {
      assert path[1..][i - 1] != other[1..][i - 1];
      SetElsewhere(ChildFields(root, path[0]), path[1..], x, other[1..]);
      NothingAt(other[1..]);
    }
  }

  /** Along a path that goes on from the one set, what the value set holds there. */
  lemma {:induction false} SetBelow(root: Fields, path: seq<string>, x: Value, other: seq<string>)
    requires |path| > 0 && path <= other
    ensures Navigate(Node(SetAt(root, path, x)), other) == Navigate(x, other[|path|..])
    decreases |path|
  {
    if |path| > 1 {
      assert other[1..][|path| - 1..] == other[|path|..];
      SetBelow(ChildFields(root, path[0]), path[1..], x, other[1..]);
    } else {
      assert other[1..] == other[|path|..];
    }
  }

  /** The fields found along a path, none where no object is found. */
  function FieldsAt(root: Fields, path: seq<string>): Fields {
    match Navigate(Node(root), path)
    case Some(Node(fields)) => fields
    case _ => map[]
  }

  /** On the way to the path set there is an object, with the value set in it. */
  lemma {:induction false} SetAbove(root: Fields, path: seq<string>, x: Value, other: seq<string>)
    requires 0 < |other| < |path| && other <= path
    ensures Navigate(Node(SetAt(root, path, x)), other) ==
              Some(Node(SetAt(FieldsAt(root, other), path[|other|..], x)))
    decreases |path|
  {
    var child := ChildFields(root, path[0]);
    if |other| > 1 {
      assert path[1..][|other| - 1..] == path[|other|..];
      SetAbove(child, path[1..], x, other[1..]);
    } else {
      assert other[1..] == [];
    }
    FieldsInChild(root, other);
    assert path[0] == other[0];
  }

  lemma FieldsInChild(root: Fields, path: seq<string>)
    requires |path| > 0
    ensures var child := ChildFields(root, path[0]);
            FieldsAt(root, path) == if |path| == 1 then child else FieldsAt(child, path[1..])
  {
    var key, rest := path[0], path[1..];
    assert Navigate(Node(root), path) == if key in root then Navigate(root[key], rest) else None;
    if |rest| > 0 { NothingAt(rest); }
    if key in root && root[key].Node? { assert root[key] == Node(ChildFields(root, key)); }
  }

  // ---- fields of a well-formed schema never stand in each other's way ----

  ghost predicate Under(segments: seq<string>, above: seq<string>, heads: set<string>) {
    |above| < |segments| && above <= segments && segments[|above|] in heads
  }

  ghost predicate AllUnder(fields: seq<Placed>, above: seq<string>, heads: set<string>) {
    forall i :: 0 <= i < |fields| ==> Under(Segments(fields[i]), above, heads)
  }

  lemma SplitsBack(keys: seq<string>)
    requires GoodKeys(keys) && |keys| > 0
    ensures Split(Join(keys, '.'), '.') == keys
  {
    forall p | p in keys ensures '.' !in p { assert GoodKey(p); }
    SplitJoin(keys, '.');
  }

  lemma {:induction false} FieldsUnder(shape: Shape, above: seq<string>)
    requires WellFormed(shape) && GoodKeys(above)
    ensures AllUnder(FieldsIn(shape, Join(above, '.')), above, KeysOf(shape))
    decreases shape
  {
    if shape.Item? {
      FieldsUnder(shape.rest, above);
      EntryUnder(shape.key, shape.entry, above);
      JoinSnoc(above, shape.key);
      hide GoodKeys, WellFormed, Segments, Join, Dot;
    }
  }

  lemma {:induction false} EntryUnder(key: string, entry: Entry, above: seq<string>)
    requires GoodKey(key) && GoodKeys(above) && (entry.Group? ==> WellFormed(entry.shape))
    ensures AllUnder(EntryFields(entry, Join(above + [key], '.')), above, {key})
    decreases entry
  {
    GoodSnoc(above, key);
    SplitsBack(above + [key]);
    assert (above + [key])[|above|] == key;
    hide Join, Split, GoodKey, GoodKeys;
    if entry.Group? {
      FieldsUnder(entry.shape, above + [key]);
      var inner := FieldsIn(entry.shape, Join(above + [key], '.'));
      forall i | 0 <= i < |inner| ensures Under(Segments(inner[i]), above, {key}) {
        assert Under(Segments(inner[i]), above + [key], KeysOf(entry.shape));
      }
    }
  }

  ghost predicate Apart(fields: seq<Placed>) {
    forall i, j :: 0 <= i < j < |fields| ==> Diverge(Segments(fields[i]), Segments(fields[j]))
  }

  lemma ApartConcat(a: seq<Placed>, b: seq<Placed>, above: seq<string>, h: set<string>, k: set<string>)
    requires Apart(a) && Apart(b) && AllUnder(a, above, h) && AllUnder(b, above, k) && h !! k
    ensures Apart(a + b)
  {
    hide Segments;
    forall i, j | 0 <= i < j < |a + b| ensures Diverge(Segments((a + b)[i]), Segments((a + b)[j])) {
      if i < |a| <= j {
        var x, y := Segments(a[i]), Segments(b[j - |a|]);
        assert Under(x, above, h) && Under(y, above, k);
        assert x[|above|] != y[|above|];
      }
    }
  }

  /** No field's path runs through another's. */
  lemma {:induction false} FieldsApart(shape: Shape, above: seq<string>)
    requires WellFormed(shape) && GoodKeys(above)
    ensures Apart(FieldsIn(shape, Join(above, '.')))
    decreases shape
  {
    if shape.Item? {
      FieldsApart(shape.rest, above);
      FieldsUnder(shape.rest, above);
      EntryUnder(shape.key, shape.entry, above);
      GoodSnoc(above, shape.key);
      JoinSnoc(above, shape.key);
      if shape.entry.Group? { FieldsApart(shape.entry.shape, above + [shape.key]); }
      hide GoodKeys, AllUnder, GoodKey, Segments, Join, Dot, Diverge;
      ApartConcat(EntryFields(shape.entry, Join(above + [shape.key], '.')), FieldsIn(shape.rest, Join(above, '.')), above,
                  {shape.key}, KeysOf(shape.rest));
    }
  }

  // ---- the walk as a list of fields ----

  function Fold(merged: Fields, prov: map<string, SourceRef>, r: Report, fields: seq<Placed>): Report
    decreases |fields|
  {
    if |fields| == 0 then r
    else Fold(merged, prov, Resolved(merged, prov, r, fields[0].field, fields[0].path), fields[1..])
  }

  lemma {:induction false} FoldConcat(merged: Fields, prov: map<string, SourceRef>, r: Report,
                                      a: seq<Placed>, b: seq<Placed>)
    ensures Fold(merged, prov, r, a + b) == Fold(merged, prov, Fold(merged, prov, r, a), b)
    decreases |a|
  {
    hide Resolved;
    if |a| > 0 {
      FoldConcat(merged, prov, Resolved(merged, prov, r, a[0].field, a[0].path), a[1..], b);
      assert (a + b)[1..] == a[1..] + b;
    } else {
      assert a + b == b;
    }
  }

  lemma {:induction false} WalkIsFold(merged: Fields, prov: map<string, SourceRef>, r: Report,
                                      shape: Shape, prefix: string)
    ensures Walked(merged, prov, r, shape, prefix) == Fold(merged, prov, r, FieldsIn(shape, prefix))
    decreases shape
  {
    hide Resolved, Fold, Dot;
    if shape.Item? {
      var here := Dot(prefix, shape.key);
      EntryIsFold(merged, prov, r, shape.entry, here);
      WalkIsFold(merged, prov, WalkedEntry(merged, prov, r, shape.entry, here), shape.rest, prefix);
      FoldConcat(merged, prov, r, EntryFields(shape.entry, here), FieldsIn(shape.rest, prefix));
    } else {
      FoldNone(merged, prov, r);
    }
  }

  lemma {:induction false} EntryIsFold(merged: Fields, prov: map<string, SourceRef>, r: Report,
                                       entry: Entry, path: string)
    ensures WalkedEntry(merged, prov, r, entry, path) == Fold(merged, prov, r, EntryFields(entry, path))
    decreases entry
  {
    hide Resolved;
    match entry {
      case Single(field) => assert [Placed(path, field)][1..] == [];
      case Group(inner) => WalkIsFold(merged, prov, r, inner, path);
    }
  }

  lemma FoldNone(merged: Fields, prov: map<string, SourceRef>, r: Report)
    ensures Fold(merged, prov, r, []) == r
  {
  }

  // ---- what the walk delivers ----

  /** What a field is to hold: the value the providers give it, or else its default, once checked. */
  function OutcomeIn(merged: Fields, p: Placed): Option<Value> {
    match Navigate(Node(merged), Segments(p))
    case Some(given) => p.field.check(given)
    case None => if p.field.default.Some? then p.field.check(p.field.default.value) else None
  }

  /** It has a valid value, or needs none. */
  predicate FineIn(merged: Fields, p: Placed) {
    match Navigate(Node(merged), Segments(p))
    case Some(given) => p.field.check(given).Some?
    case None => if p.field.default.Some? then p.field.check(p.field.default.value).Some? else !p.field.required
  }

  lemma OutcomeInIs(merged: Fields, p: Placed)
    ensures OutcomeIn(merged, p) == Outcome(p.field, Navigate(Node(merged), Segments(p)))
    ensures FineIn(merged, p) <==> Fine(p.field, Navigate(Node(merged), Segments(p)))
  {
    hide Navigate, Segments;
  }

  /** One field's turn sets its own path, if it has a value, and leaves those that diverge from it. */
  lemma ResolvedValues(merged: Fields, prov: map<string, SourceRef>, r: Report, p: Placed, other: seq<string>)
    ensures var t := Resolved(merged, prov, r, p.field, p.path);
            && (OutcomeIn(merged, p).None? || Diverge(Segments(p), other) ==>
                  Navigate(Node(t.values), other) == Navigate(Node(r.values), other))
            && (OutcomeIn(merged, p).Some? ==> Navigate(Node(t.values), Segments(p)) == OutcomeIn(merged, p))
            && (t.issues == [] <==> r.issues == [] && FineIn(merged, p))
  {
    var out := OutcomeIn(merged, p);
    OutcomeInIs(merged, p);
    hide OutcomeIn, FineIn;
    hide Split, SetAt, Navigate, Diverge, Outcome;
    if out.Some? {
      SetThenGet(r.values, Segments(p), out.value);
      if Diverge(Segments(p), other) { SetElsewhere(r.values, Segments(p), out.value, other); }
    }
  }

  /** None of the fields that have a value reaches the path. */
  ghost predicate Clear(merged: Fields, fields: seq<Placed>, path: seq<string>) {
    forall i :: 0 <= i < |fields| && OutcomeIn(merged, fields[i]).Some? ==> Diverge(Segments(fields[i]), path)
  }

  lemma {:induction false} FoldKeeps(merged: Fields, prov: map<string, SourceRef>, r: Report, fields: seq<Placed>,
                                     path: seq<string>)
    requires Clear(merged, fields, path)
    ensures Navigate(Node(Fold(merged, prov, r, fields).values), path) == Navigate(Node(r.values), path)
    decreases |fields|
  {
    hide Resolved, Navigate, Diverge, Segments, OutcomeIn;
    if |fields| > 0 {
      ResolvedValues(merged, prov, r, fields[0], path);
      FoldKeeps(merged, prov, Resolved(merged, prov, r, fields[0].field, fields[0].path), fields[1..], path);
    }
  }

  /**
   * No later field with a value crosses the path of field `j` - nor, when `j` has none
   * itself, any field at all.
   */
  ghost predicate Undisturbed(merged: Fields, fields: seq<Placed>, j: nat)
    requires j < |fields|
  {
    && Clear(merged, fields[j + 1..], Segments(fields[j]))
    && (OutcomeIn(merged, fields[j]).None? ==> Clear(merged, fields[..j], Segments(fields[j])))
  }

  lemma FoldFinds(merged: Fields, prov: map<string, SourceRef>, r: Report, fields: seq<Placed>, j: nat)
    requires j < |fields| && Undisturbed(merged, fields, j)
    requires Navigate(Node(r.values), Segments(fields[j])) == None
    ensures Navigate(Node(Fold(merged, prov, r, fields).values), Segments(fields[j])) == OutcomeIn(merged, fields[j])
  {
    hide Resolved, Navigate, Segments, OutcomeIn, Clear;
    var p := fields[j];
    var before := Fold(merged, prov, r, fields[..j]);
    assert fields == fields[..j] + ([p] + fields[j + 1..]);
    FoldConcat(merged, prov, r, fields[..j], [p] + fields[j + 1..]);
    assert ([p] + fields[j + 1..])[1..] == fields[j + 1..];
    ResolvedValues(merged, prov, before, p, Segments(p));
    FoldKeeps(merged, prov, Resolved(merged, prov, before, p.field, p.path), fields[j + 1..], Segments(p));
    if OutcomeIn(merged, p).None? { FoldKeeps(merged, prov, r, fields[..j], Segments(p)); }
  }

  // ---- where fields do cross ----

  /** The last field with a value whose path does not part from `path`. */
  ghost predicate LastToCross(merged: Fields, fields: seq<Placed>, path: seq<string>, i: nat) {
    && i < |fields| && OutcomeIn(merged, fields[i]).Some? && !Diverge(Segments(fields[i]), path)
    && Clear(merged, fields[i + 1..], path)
  }

  lemma OneGoesOn(a: seq<string>, b: seq<string>)
    requires !Diverge(a, b)
    ensures if |a| <= |b| then a <= b else b <= a
  {
    var n := if |a| <= |b| then |a| else |b|;
    forall k | 0 <= k < n ensures a[k] == b[k] {
    }
    assert a[..n] == b[..n];
  }

  lemma {:induction false} SomeCrosses(merged: Fields, fields: seq<Placed>, path: seq<string>) returns (i: nat)
    requires !Clear(merged, fields, path)
    ensures LastToCross(merged, fields, path, i)
    decreases |fields|
  {
    hide OutcomeIn, Diverge, Segments;
    var n := |fields| - 1;
    if OutcomeIn(merged, fields[n]).Some? && !Diverge(Segments(fields[n]), path) {
      i := n;
    } else {
      i := SomeCrosses(merged, fields[..n], path);
      var later, most := fields[i + 1..], fields[..n][i + 1..];
      forall k | 0 <= k < |later| && OutcomeIn(merged, later[k]).Some? ensures Diverge(Segments(later[k]), path) {
        assert later[k] == if k < |most| then most[k] else fields[n];
      }
    }
  }

  /**
   * What is found at any path: nothing where no field with a value crosses it; what the last
   * one that does holds at the rest of the path, if the path goes through it or ends there;
   * and if the path ends short of it, an object that holds its value.
   */
  lemma FoundIs(ps: seq<Provider>, shape: Shape, path: seq<string>)
    requires |path| > 0
    ensures var merged, fields := Merged(ps), FieldsIn(shape, "");
            var found := Navigate(Node(Walked(merged, Provenance(ps), EMPTY, shape, "").values), path);
            && (Clear(merged, fields, path) ==> found == None)
            && (!Clear(merged, fields, path) ==> exists i: nat :: LastToCross(merged, fields, path, i))
            && forall i: nat :: LastToCross(merged, fields, path, i) ==> FoundThrough(merged, fields, i, path, found)
  {
    var merged, fields, prov := Merged(ps), FieldsIn(shape, ""), Provenance(ps);
    hide *;
    WalkIsFold(merged, prov, EMPTY, shape, "");
    EmptyHolds(path);
    if Clear(merged, fields, path) {
      FoldKeeps(merged, prov, EMPTY, fields, path);
    } else {
      var i := SomeCrosses(merged, fields, path);
    }
    forall i: nat | LastToCross(merged, fields, path, i)
      ensures FoundThrough(merged, fields, i, path, Navigate(Node(Fold(merged, prov, EMPTY, fields).values), path))
    {
      LastDecides(merged, prov, EMPTY, fields, path, i);
    }
  }

  lemma EmptyHolds(path: seq<string>)
    requires |path| > 0
    ensures Navigate(Node(EMPTY.values), path) == None
  {
    NothingAt(path);
  }

  /** What field `i` leaves at a path it does not part from. */
  ghost predicate FoundThrough(merged: Fields, fields: seq<Placed>, i: nat, path: seq<string>, found: Option<Value>) {
    && i < |fields| && OutcomeIn(merged, fields[i]).Some?
    && var at, out := Segments(fields[i]), OutcomeIn(merged, fields[i]).value;
       if |at| <= |path| then at <= path && found == Navigate(out, path[|at|..])
       else
         && path <= at && found.Some? && found.value.Node?
         && Navigate(found.value, at[|path|..]) == Some(out)
  }

  lemma LastDecides(merged: Fields, prov: map<string, SourceRef>, r: Report, fields: seq<Placed>, path: seq<string>,
                    i: nat)
    requires |path| > 0 && LastToCross(merged, fields, path, i)
    ensures FoundThrough(merged, fields, i, path, Navigate(Node(Fold(merged, prov, r, fields).values), path))
  {
    hide Resolved, Navigate, Segments, OutcomeIn, Clear, Diverge, FoundThrough;
    var p := fields[i];
    var before := Fold(merged, prov, r, fields[..i]);
    assert fields == fields[..i] + ([p] + fields[i + 1..]);
    FoldConcat(merged, prov, r, fields[..i], [p] + fields[i + 1..]);
    assert ([p] + fields[i + 1..])[1..] == fields[i + 1..];
    var after := Resolved(merged, prov, before, p.field, p.path);
    FoldKeeps(merged, prov, after, fields[i + 1..], path);
    OneSets(merged, prov, before, fields, i, path);
  }

  lemma OneSets(merged: Fields, prov: map<string, SourceRef>, r: Report, fields: seq<Placed>, i: nat, path: seq<string>)
    requires |path| > 0 && i < |fields|
    requires OutcomeIn(merged, fields[i]).Some? && !Diverge(Segments(fields[i]), path)
    ensures var p := fields[i];
            FoundThrough(merged, fields, i, path, Navigate(Node(Resolved(merged, prov, r, p.field, p.path).values), path))
  {
    var p := fields[i];
    var at, out := Segments(p), OutcomeIn(merged, p).value;
    assert Resolved(merged, prov, r, p.field, p.path).values == SetAt(r.values, at, out);
    hide Resolved, Navigate, Segments, OutcomeIn, SetAt, Diverge, FieldsAt;
    OneGoesOn(at, path);
    if |at| <= |path| {
      SetBelow(r.values, at, out, path);
    } else {
      SetAbove(r.values, at, out, path);
      SetThenGet(FieldsAt(r.values, path), at[|path|..], out);
    }
  }

  /**
   * So a field whose value is no object is delivered exactly when the last field with a value
   * that crosses its path - itself, if no later one does - stands on it or above it and holds
   * that value there.
   */
  lemma LeafDeliveredIff(ps: seq<Provider>, shape: Shape, j: nat, i: nat)
    requires j < |FieldsIn(shape, "")|
    requires var merged, fields := Merged(ps), FieldsIn(shape, "");
             && OutcomeIn(merged, fields[j]).Some? && !OutcomeIn(merged, fields[j]).value.Node?
             && LastToCross(merged, fields, Segments(fields[j]), i)
    ensures var merged, fields := Merged(ps), FieldsIn(shape, "");
            var path, at := Segments(fields[j]), Segments(fields[i]);
            var found := Navigate(Node(Walked(merged, Provenance(ps), EMPTY, shape, "").values), path);
            found == OutcomeIn(merged, fields[j]) <==>
              at <= path && Navigate(OutcomeIn(merged, fields[i]).value, path[|at|..]) == OutcomeIn(merged, fields[j])
  {
    hide Merged, FieldsIn, Walked, Navigate, OutcomeIn, LastToCross;
    FoundIs(ps, shape, Segments(FieldsIn(shape, "")[j]));
    assert FoundThrough(Merged(ps), FieldsIn(shape, ""), i, Segments(FieldsIn(shape, "")[j]),
      Navigate(Node(Walked(Merged(ps), Provenance(ps), EMPTY, shape, "").values), Segments(FieldsIn(shape, "")[j])));
  }

  /** Every field has a valid value, or needs none. */
  ghost predicate AllFine(merged: Fields, fields: seq<Placed>) {
    forall j :: 0 <= j < |fields| ==> FineIn(merged, fields[j])
  }

  lemma {:induction false} FoldIssues(merged: Fields, prov: map<string, SourceRef>, r: Report, fields: seq<Placed>)
    ensures Fold(merged, prov, r, fields).issues == [] <==> r.issues == [] && AllFine(merged, fields)
    decreases |fields|
  {
    hide Resolved, FineIn;
    if |fields| > 0 {
      ResolvedValues(merged, prov, r, fields[0], []);
      FoldIssues(merged, prov, Resolved(merged, prov, r, fields[0].field, fields[0].path), fields[1..]);
      assert AllFine(merged, fields) <==> FineIn(merged, fields[0]) && AllFine(merged, fields[1..]) by {
        if AllFine(merged, fields[1..]) {
          forall j | 1 <= j < |fields| ensures FineIn(merged, fields[j]) { assert fields[1..][j - 1] == fields[j]; }
        }
      }
    }
  }

  /** `found` is what `p` is to hold: a value given by a provider goes before any default. */
  ghost predicate Delivers(merged: Fields, p: Placed, found: Option<Value>) {
    var given := Navigate(Node(merged), Segments(p));
    && (given.Some? ==> found == p.field.check(given.value))
    && (given.None? && p.field.default.Some? ==> found == p.field.check(p.field.default.value))
    && (given.None? && p.field.default.None? ==> found == None)
  }

  /**
   * For every field of the schema whose path no later valued field crosses: the result
   * holds there the checked value of what the providers merged to, whatever the default; or
   * that of its default, when they give none; or nothing.
   */
  lemma EveryFieldIsDelivered(ps: seq<Provider>, shape: Shape, j: nat)
    requires j < |FieldsIn(shape, "")| && Undisturbed(Merged(ps), FieldsIn(shape, ""), j)
    ensures var p := FieldsIn(shape, "")[j];
            var result := Walked(Merged(ps), Provenance(ps), EMPTY, shape, "");
            Delivers(Merged(ps), p, Navigate(Node(result.values), Segments(p)))
  {
    hide *;
    var p := FieldsIn(shape, "")[j];
    NothingYet(p);
    WalkIsFold(Merged(ps), Provenance(ps), EMPTY, shape, "");
    FoldFinds(Merged(ps), Provenance(ps), EMPTY, FieldsIn(shape, ""), j);
    OutcomeIsDelivered(Merged(ps), p);
  }

  lemma OutcomeIsDelivered(merged: Fields, p: Placed)
    ensures Delivers(merged, p, OutcomeIn(merged, p))
  {
    hide Navigate, Segments;
  }

  /** In a well-formed schema that is so of every field. */
  lemma WellFormedDelivers(ps: seq<Provider>, shape: Shape, j: nat)
    requires WellFormed(shape) && j < |FieldsIn(shape, "")|
    ensures var p := FieldsIn(shape, "")[j];
            var result := Walked(Merged(ps), Provenance(ps), EMPTY, shape, "");
            Delivers(Merged(ps), p, Navigate(Node(result.values), Segments(p)))
  {
    hide *;
    WellFormedIsUndisturbed(ps, shape, j);
    EveryFieldIsDelivered(ps, shape, j);
  }

  // ---- the records of the walk ----

  /** The metadata of a field that met no problem. */
  predicate Recorded(merged: Fields, prov: map<string, SourceRef>, p: Placed, m: Metadata) {
    m.path == p.path &&
    match Navigate(Node(merged), Segments(p))
    case Some(given) => p.field.check(given).Some? && m.present && !m.defaulted && m.source == Source(prov, p.path)
    case None =>
      && !m.present && m.source == None
      && if p.field.default.Some? then p.field.check(p.field.default.value).Some? && m.defaulted
         else !p.field.required && !m.defaulted
  }

  /** The issue of a field that met one: only a value that was given has a source. */
  predicate Reported(merged: Fields, prov: map<string, SourceRef>, p: Placed, x: Issue) {
    x.path == p.path &&
    match Navigate(Node(merged), Segments(p))
    case Some(given) => p.field.check(given).None? && x.problem == Invalid && x.source == Source(prov, p.path)
    case None =>
      && x.source == None
      && if p.field.default.Some? then p.field.check(p.field.default.value).None? && x.problem == BadDefault
         else p.field.required && x.problem == Missing
  }

  /** One field adds one record, its metadata or its issue, and its path if it is secret. */
  lemma OneRecord(merged: Fields, prov: map<string, SourceRef>, r: Report, p: Placed)
    ensures var t := Resolved(merged, prov, r, p.field, p.path);
            && |t.metadata| + |t.issues| == |r.metadata| + |r.issues| + 1
            && (forall m :: m in t.metadata <==> m in r.metadata || Recorded(merged, prov, p, m))
            && (forall x :: x in t.issues <==> x in r.issues || Reported(merged, prov, p, x))
            && (forall path :: path in t.secretPaths <==> path in r.secretPaths || (p.field.secret && p.path == path))
  {
    hide SetAt, Navigate, Split, Source;
  }

  lemma NothingYet(p: Placed)
    ensures Navigate(Node(EMPTY.values), Segments(p)) == None
  {
    NothingAt(Segments(p));
  }

  /** In a schema whose keys are distinct, non-empty and without dots, no field is ever disturbed. */
  lemma WellFormedIsUndisturbed(ps: seq<Provider>, shape: Shape, j: nat)
    requires WellFormed(shape) && j < |FieldsIn(shape, "")|
    ensures Undisturbed(Merged(ps), FieldsIn(shape, ""), j)
  {
    FieldsApart(shape, []);
    assert Join([], '.') == "";
    hide FieldsIn, Merged, OutcomeIn, Segments, WellFormed, Join;
    var fields := FieldsIn(shape, "");
    var later := fields[j + 1..];
    forall i | 0 <= i < |later| ensures Diverge(Segments(later[i]), Segments(fields[j])) {
      DivergeSym(Segments(fields[j]), Segments(fields[j + 1 + i]));
    }
  }

  lemma DivergeSym(a: seq<string>, b: seq<string>)
    requires Diverge(a, b)
    ensures Diverge(b, a)
  {
    var i :| 0 <= i < |a| && i < |b| && a[i] != b[i];
    assert b[i] != a[i];
  }

  /** Loading succeeds exactly when every field has a valid value or needs none, whatever the keys. */
  lemma NoIssuesIff(ps: seq<Provider>, shape: Shape)
    ensures Walked(Merged(ps), Provenance(ps), EMPTY, shape, "").issues == [] <==>
              AllFine(Merged(ps), FieldsIn(shape, ""))
  {
    hide Fold, FieldsIn, Walked, AllFine, Merged, Provenance;
    WalkIsFold(Merged(ps), Provenance(ps), EMPTY, shape, "");
    FoldIssues(Merged(ps), Provenance(ps), EMPTY, FieldsIn(shape, ""));
  }

  ghost predicate SomeRecorded(merged: Fields, prov: map<string, SourceRef>, fields: seq<Placed>, m: Metadata) {
    exists j :: 0 <= j < |fields| && Recorded(merged, prov, fields[j], m)
  }

  ghost predicate SomeReported(merged: Fields, prov: map<string, SourceRef>, fields: seq<Placed>, x: Issue) {
    exists j :: 0 <= j < |fields| && Reported(merged, prov, fields[j], x)
  }

  ghost predicate SomeSecret(fields: seq<Placed>, path: string) {
    exists j :: 0 <= j < |fields| && fields[j].field.secret && fields[j].path == path
  }

  lemma FirstOrLater(merged: Fields, prov: map<string, SourceRef>, fields: seq<Placed>)
    requires |fields| > 0
    ensures forall m :: SomeRecorded(merged, prov, fields, m) <==>
                          Recorded(merged, prov, fields[0], m) || SomeRecorded(merged, prov, fields[1..], m)
    ensures forall x :: SomeReported(merged, prov, fields, x) <==>
                          Reported(merged, prov, fields[0], x) || SomeReported(merged, prov, fields[1..], x)
    ensures forall path :: SomeSecret(fields, path) <==>
                          (fields[0].field.secret && fields[0].path == path) || SomeSecret(fields[1..], path)
  {
    hide Recorded, Reported;
    var more := fields[1..];
    assert forall j :: 0 <= j < |more| ==> more[j] == fields[j + 1];
    assert forall j :: 1 <= j < |fields| ==> fields[j] == more[j - 1];
  }

  lemma {:induction false} FoldRecords(merged: Fields, prov: map<string, SourceRef>, r: Report, fields: seq<Placed>)
    ensures var t := Fold(merged, prov, r, fields);
            && |t.metadata| + |t.issues| == |r.metadata| + |r.issues| + |fields|
            && (forall m :: m in t.metadata <==> m in r.metadata || SomeRecorded(merged, prov, fields, m))
            && (forall x :: x in t.issues <==> x in r.issues || SomeReported(merged, prov, fields, x))
            && (forall path :: path in t.secretPaths <==> path in r.secretPaths || SomeSecret(fields, path))
    decreases |fields|
  {
    if |fields| > 0 {
      var next := Resolved(merged, prov, r, fields[0].field, fields[0].path);
      assert Fold(merged, prov, r, fields) == Fold(merged, prov, next, fields[1..]);
      hide *;
      OneRecord(merged, prov, r, fields[0]);
      FoldRecords(merged, prov, next, fields[1..]);
      FirstOrLater(merged, prov, fields);
    }
  }

  /**
   * The metadata, the issues and the secret paths of a load are exactly those of its fields,
   * one record each: a given value that checks is present and names its source, a default is
   * neither present nor sourced, a field without either is an issue exactly when required.
   */
  lemma RecordsAre(ps: seq<Provider>, shape: Shape)
    ensures var merged, prov, fields := Merged(ps), Provenance(ps), FieldsIn(shape, "");
            var t := Walked(merged, prov, EMPTY, shape, "");
            && |t.metadata| + |t.issues| == |fields|
            && (forall m :: m in t.metadata <==> SomeRecorded(merged, prov, fields, m))
            && (forall x :: x in t.issues <==> SomeReported(merged, prov, fields, x))
            && (forall path :: path in t.secretPaths <==> SomeSecret(fields, path))
  {
    hide *;
    WalkIsFold(Merged(ps), Provenance(ps), EMPTY, shape, "");
    FoldRecords(Merged(ps), Provenance(ps), EMPTY, FieldsIn(shape, ""));
    NothingRecorded();
  }

  lemma NothingRecorded()
    ensures EMPTY.metadata == [] && EMPTY.issues == [] && EMPTY.secretPaths == {}
  {
  }
}
