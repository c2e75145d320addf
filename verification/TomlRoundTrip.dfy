/**
 * Which values can be written down at all, and the round trip: writing such a value and
 * reading the text gives the value back, with exactly the text that followed it.
 */
module TomlRoundTrip {
  import opened Common
  import opened Toml
  import opened TomlForms
  import opened TomlKeys
  import opened TomlPaths
  import opened Whitespace

  // ---- what can be written ----

  predicate Distinct(entries: seq<Entry>) {
    forall i, j :: 0 <= i < j < |entries| ==> entries[i].key != entries[j].key
  }

  /**
   * In a table the keys are distinct, the first, if it cannot be quoted, does not look like
   * a closing brace, and every path to a value that is no further table can be written.
   */
  predicate Writable(v: Value)
    decreases v, 0
  {
    match v
    case Arr(items) => forall i :: 0 <= i < |items| ==> Writable(items[i])
    case Table(entries) =>
      && (|entries| > 0 ==> Quotable(entries[0].key) || !StartsWith(entries[0].key, '}'))
      && Reached([], entries)
    case _ => true
  }

  predicate Reached(path: seq<string>, entries: seq<Entry>)
    decreases entries, 1
  {
    Distinct(entries) && forall i :: 0 <= i < |entries| ==> Reach(path + [entries[i].key], entries[i].value)
  }

  /** The value `v` can be written at the end of `path`. */
  predicate Reach(path: seq<string>, v: Value)
    decreases v, 1
  {
    if v.Table? && |v.entries| > 0 then Reached(path, v.entries) else Nameable(path) && Writable(v)
  }

  // ---- the way it is written ----

  function PieceOf(c: char): Piece {
    if c == '\n' then Escaped('n')
    else if c == '\t' then Escaped('t')
    else if c == '\r' then Escaped('r')
    else if c == '\0' then Escaped('0')
    else if c == '"' || c == '\\' then Escaped(c)
    else Plain(c)
  }

  function PiecesOf(s: string): seq<Piece> {
    if |s| == 0 then [] else [PieceOf(s[0])] + PiecesOf(s[1..])
  }

  /** The text between the quotes of a basic string. */
  function Escape(s: string): string {
    PiecesText(PiecesOf(s))
  }

  function Digits(n: nat): (s: string)
    ensures |s| > 0 && AllDigits(s) && DigitValue(s) == n
  {
    var d := ['0' + (n % 10) as char];
    if n < 10 then
      assert d[..0] == "";
      assert DigitValue(d) == DigitValue(d[..0]) * 10 + n;
      d
    else
      var s := Digits(n / 10) + d;
      assert s[..|s| - 1] == Digits(n / 10);
      s
  }

  function Solid(doc: Doc): Item {
    Item("", doc, "")
  }

  function DocOf(v: Value): Doc
    decreases v, 0
  {
    match v
    case Bool(b) => DBool(b)
    case Int(n) => DInt(if n < 0 then "-" + Digits(-n) else Digits(n))
    case Str(s) => DString('"', PiecesOf(s))
    case Arr(items) => DArray(ItemsOf(items), false, "")
    case Table(entries) => DTable(FirstPair(entries) + PairsUnder([], entries), "")
  }

  function ItemsOf(items: seq<Value>): seq<Item>
    decreases items, 1
  {
    if |items| == 0 then [] else [Solid(DocOf(items[0]))] + ItemsOf(items[1..])
  }

  /** A first key that looks like a closing brace is written in quotes first, to be overwritten. */
  function FirstPair(entries: seq<Entry>): seq<Pair> {
    if |entries| > 0 && StartsWith(entries[0].key, '}') then
      [Pair("", [Quoted(entries[0].key, if '"' in entries[0].key then '\'' else '"', "")], "", Solid(DTable([], "")))]
    else []
  }

  /** One pair for each path to a value that is no further table. */
  function PairsUnder(path: seq<string>, entries: seq<Entry>): seq<Pair>
    decreases entries, 2
  {
    if |entries| == 0 then [] else PairsAt(path + [entries[0].key], entries[0].value) + PairsUnder(path, entries[1..])
  }

  function PairsAt(path: seq<string>, v: Value): seq<Pair>
    decreases v, 3
  {
    if v.Table? && |v.entries| > 0 then PairsUnder(path, v.entries)
    else if PathFor(path).None? then []
    else [Pair("", PathFor(path).value, "", Solid(DocOf(v)))]
  }

  /** Every quoted key is closed. */
  predicate AllClosed(doc: Doc)
    decreases doc, 0
  {
    match doc
    case DArray(items, _, _) => forall i :: 0 <= i < |items| ==> AllClosed(items[i].doc)
    case DTable(pairs, _) => forall i :: 0 <= i < |pairs| ==> ClosedPair(pairs[i])
    case _ => true
  }

  predicate ClosedPair(p: Pair)
    decreases p, 1
  {
    Closed(p.keys) && AllClosed(p.item.doc)
  }

  // ---- assignments along paths ----

  datatype Step = Step(path: seq<string>, value: Value)

  function AssignAll(obj: seq<Entry>, steps: seq<Step>): Result<seq<Entry>, Failure>
    decreases |steps|
  {
    if |steps| == 0 then Ok(obj)
    else if |steps[0].path| == 0 then Err(EmptyKey)
    else
      match Assign(obj, steps[0].path, steps[0].value)
      case Ok(obj') => AssignAll(obj', steps[1..])
      case Err(e) => Err(e)
  }

  /** The paths to the values that are no further table, in order. */
  function Leaves(path: seq<string>, entries: seq<Entry>): seq<Step>
    decreases entries, 0
  {
    if |entries| == 0 then [] else LeavesAt(path + [entries[0].key], entries[0].value) + Leaves(path, entries[1..])
  }

  function LeavesAt(path: seq<string>, v: Value): seq<Step>
    decreases v, 1
  {
    if v.Table? && |v.entries| > 0 then Leaves(path, v.entries) else [Step(path, v)]
  }

  function Lift(k: string, steps: seq<Step>): seq<Step> {
    if |steps| == 0 then [] else [Step([k] + steps[0].path, steps[0].value)] + Lift(k, steps[1..])
  }

  predicate HavePaths(steps: seq<Step>) {
    |steps| > 0 ==> |steps[0].path| > 0 && HavePaths(steps[1..])
  }

  lemma {:induction false} IndexIs(obj: seq<Entry>, k: string, i: nat)
    requires i <= |obj| && (i < |obj| ==> obj[i].key == k) && forall j :: 0 <= j < i ==> obj[j].key != k
    ensures KeyIndex(obj, k) == i
  {
    if i > 0 {
      assert obj[0].key != k && forall j :: 0 <= j < i - 1 ==> obj[1..][j] == obj[j + 1];
      IndexIs(obj[1..], k, i - 1);
    }
  }

  lemma {:induction false} NotBefore(obj: seq<Entry>, k: string)
    ensures forall j :: 0 <= j < KeyIndex(obj, k) ==> obj[j].key != k
  {
    if |obj| > 0 && obj[0].key != k {
      NotBefore(obj[1..], k);
      assert forall j :: 1 <= j < |obj| ==> obj[j] == obj[1..][j - 1];
    }
  }

  lemma SetTwice(obj: seq<Entry>, k: string, a: Value, b: Value)
    ensures SetKey(SetKey(obj, k, a), k, b) == SetKey(obj, k, b)
    ensures KeyIndex(SetKey(obj, k, a), k) == KeyIndex(obj, k) < |SetKey(obj, k, a)|
    ensures SetKey(obj, k, a)[KeyIndex(obj, k)] == Entry(k, a)
  {
    var i, once := KeyIndex(obj, k), SetKey(obj, k, a);
    NotBefore(obj, k);
    assert once[..i] == obj[..i] && once[i] == Entry(k, a) && forall j :: 0 <= j < i ==> once[j] == obj[j];
    IndexIs(once, k, i);
    hide KeyIndex;
    assert i < |obj| ==> once[i + 1..] == obj[i + 1..];
    assert i == |obj| ==> once[i + 1..] == [] && obj[..i] == obj;
  }

  /** The table at `k`, or an empty one. */
  function TableAt(obj: seq<Entry>, k: string): seq<Entry> {
    var i := KeyIndex(obj, k);
    if i < |obj| && obj[i].value.Table? then obj[i].value.entries else []
  }

  predicate Passes(obj: seq<Entry>, k: string) {
    var i := KeyIndex(obj, k);
    i < |obj| ==> obj[i].value.Table?
  }

  lemma AssignThrough(obj: seq<Entry>, k: string, path: seq<string>, v: Value)
    requires |path| > 0 && Passes(obj, k)
    ensures var r := Assign(TableAt(obj, k), path, v);
            Assign(obj, [k] + path, v) == if r.Ok? then Ok(SetKey(obj, k, Table(r.value))) else Err(r.error)
  {
    assert ([k] + path)[1..] == path && |[k] + path| > 1;
    hide KeyIndex, SetKey;
  }

  /** Assignments inside the table at `k` are the same assignments to that table. */
  lemma {:induction false} AssignInside(obj: seq<Entry>, k: string, steps: seq<Step>)
    requires HavePaths(steps) && |steps| > 0 && Passes(obj, k) && AssignAll(TableAt(obj, k), steps).Ok?
    ensures AssignAll(obj, Lift(k, steps)) == Ok(SetKey(obj, k, Table(AssignAll(TableAt(obj, k), steps).value)))
    decreases |steps|
  {
    var first, more := steps[0], steps[1..];
    var lifted := Lift(k, steps);
    LiftIs(k, steps);
    var sub := Assign(TableAt(obj, k), first.path, first.value).value;
    hide *;
    AssignsOn(TableAt(obj, k), steps);
    AssignsOn(obj, lifted);
    AssignThrough(obj, k, first.path, first.value);
    var obj' := SetKey(obj, k, Table(sub));
    InsideOnce(obj, k, sub);
    if |more| > 0 {
      AssignInside(obj', k, more);
      SetTwice(obj, k, Table(sub), Table(AssignAll(sub, more).value));
    } else {
      NothingToDo(sub);
      NothingToDo(obj');
    }
  }

  lemma LiftIs(k: string, steps: seq<Step>)
    ensures |steps| > 0 ==>
              var lifted := Lift(k, steps);
              |lifted| > 0 && lifted[0] == Step([k] + steps[0].path, steps[0].value) && lifted[1..] == Lift(k, steps[1..])
              && (HavePaths(steps) ==> |steps[0].path| > 0 && HavePaths(steps[1..]))
    ensures |steps| == 0 ==> Lift(k, steps) == []
  {
  }

  lemma AssignsOn(obj: seq<Entry>, steps: seq<Step>)
    requires |steps| > 0 && |steps[0].path| > 0
    ensures var r := Assign(obj, steps[0].path, steps[0].value);
            AssignAll(obj, steps) == if r.Ok? then AssignAll(r.value, steps[1..]) else Err(r.error)
  {
    hide Assign;
  }

  lemma NothingToDo(obj: seq<Entry>)
    ensures AssignAll(obj, []) == Ok(obj) && HavePaths([])
  {
  }

  lemma InsideOnce(obj: seq<Entry>, k: string, sub: seq<Entry>)
    ensures var obj' := SetKey(obj, k, Table(sub)); Passes(obj', k) && TableAt(obj', k) == sub
  {
    SetTwice(obj, k, Table(sub), Table(sub));
    hide SetKey, KeyIndex;
  }

  lemma {:induction false} AssignInTurn(obj: seq<Entry>, a: seq<Step>, b: seq<Step>)
    requires AssignAll(obj, a).Ok?
    ensures AssignAll(obj, a + b) == AssignAll(AssignAll(obj, a).value, b)
    decreases |a|
  {
    hide Assign;
    if |a| > 0 {
      assert (a + b)[1..] == a[1..] + b && (a + b)[0] == a[0];
      AssignInTurn(Assign(obj, a[0].path, a[0].value).value, a[1..], b);
    } else {
      assert a + b == b;
    }
  }

  // ---- the leaves of a table, assigned in order, give it back ----

  lemma {:induction false} LeavesLift(k: string, path: seq<string>, entries: seq<Entry>)
    ensures Leaves([k] + path, entries) == Lift(k, Leaves(path, entries))
    decreases entries, 0
  {
    if |entries| > 0 {
      var e := entries[0];
      assert [k] + path + [e.key] == [k] + (path + [e.key]);
      LeavesAtLift(k, path + [e.key], e.value);
      LeavesLift(k, path, entries[1..]);
      LiftTogether(k, LeavesAt(path + [e.key], e.value), Leaves(path, entries[1..]));
    }
  }

  lemma {:induction false} LeavesAtLift(k: string, path: seq<string>, v: Value)
    ensures LeavesAt([k] + path, v) == Lift(k, LeavesAt(path, v))
    decreases v, 1
  {
    if v.Table? && |v.entries| > 0 {
      LeavesLift(k, path, v.entries);
    } else {
      LiftIs(k, [Step(path, v)]);
      LiftIs(k, []);
    }
  }

  lemma {:induction false} LiftTogether(k: string, a: seq<Step>, b: seq<Step>)
    ensures Lift(k, a + b) == Lift(k, a) + Lift(k, b)
    decreases |a|
  {
    hide *;
    LiftIs(k, a);
    LiftIs(k, a + b);
    if |a| > 0 {
      assert (a + b)[1..] == a[1..] + b;
      LiftTogether(k, a[1..], b);
      assert Lift(k, a) == [Lift(k, a)[0]] + Lift(k, a)[1..];
      assert Lift(k, a + b) == [Lift(k, a + b)[0]] + Lift(k, a + b)[1..];
    } else {
      assert a + b == b;
    }
  }

  lemma {:induction false} LeavesHavePaths(path: seq<string>, entries: seq<Entry>)
    ensures HavePaths(Leaves(path, entries)) && (|entries| > 0 ==> |Leaves(path, entries)| > 0)
    decreases entries, 0
  {
    if |entries| > 0 {
      LeavesAtHavePaths(path + [entries[0].key], entries[0].value);
      LeavesHavePaths(path, entries[1..]);
      PathsTogether(LeavesAt(path + [entries[0].key], entries[0].value), Leaves(path, entries[1..]));
    }
  }

  lemma {:induction false} LeavesAtHavePaths(path: seq<string>, v: Value)
    requires |path| > 0
    ensures HavePaths(LeavesAt(path, v)) && |LeavesAt(path, v)| > 0
    decreases v, 1
  {
    if v.Table? && |v.entries| > 0 { LeavesHavePaths(path, v.entries); }
  }

  lemma {:induction false} PathsTogether(a: seq<Step>, b: seq<Step>)
    requires HavePaths(a) && HavePaths(b)
    ensures HavePaths(a + b)
    decreases |a|
  {
    if |a| > 0 {
      assert (a + b)[1..] == a[1..] + b && (a + b)[0] == a[0];
      PathsTogether(a[1..], b);
    } else {
      assert a + b == b;
    }
  }

  /** `k` is not yet there, or holds an empty table. */
  predicate Free(obj: seq<Entry>, k: string) {
    var i := KeyIndex(obj, k);
    i < |obj| ==> obj[i].value == Table([])
  }

  /** Keys are distinct, in every table. */
  predicate Apart(entries: seq<Entry>)
    decreases entries
  {
    Distinct(entries) && forall i :: 0 <= i < |entries| ==> ApartIn(entries[i].value)
  }

  predicate ApartIn(v: Value)
    decreases v
  {
    v.Table? ==> Apart(v.entries)
  }

  lemma {:induction false} LeavesAtFill(obj: seq<Entry>, k: string, v: Value)
    requires Free(obj, k) && ApartIn(v)
    ensures AssignAll(obj, LeavesAt([k], v)) == Ok(SetKey(obj, k, v))
    decreases v, 1
  {
    if v.Table? && |v.entries| > 0 {
      TableFill(v.entries);
      FreePasses(obj, k);
      LeavesAtTable(k, v.entries);
      hide *;
      LeavesHavePaths([], v.entries);
      AssignInside(obj, k, Leaves([], v.entries));
    } else {
      LeafFill(obj, k, v);
    }
  }

  lemma FreePasses(obj: seq<Entry>, k: string)
    requires Free(obj, k)
    ensures Passes(obj, k) && TableAt(obj, k) == []
  {
  }

  lemma LeavesAtTable(k: string, entries: seq<Entry>)
    requires |entries| > 0
    ensures LeavesAt([k], Table(entries)) == Lift(k, Leaves([], entries))
  {
    LeavesLift(k, [], entries);
    assert [k] + [] == [k];
    hide Leaves, Lift;
  }

  lemma LeafFill(obj: seq<Entry>, k: string, v: Value)
    requires !(v.Table? && |v.entries| > 0)
    ensures AssignAll(obj, LeavesAt([k], v)) == Ok(SetKey(obj, k, v))
  {
    hide SetKey;
    assert LeavesAt([k], v)[1..] == [];
  }

  lemma {:induction false} TableFill(entries: seq<Entry>)
    requires Apart(entries)
    ensures AssignAll([], Leaves([], entries)) == Ok(entries)
    decreases entries, 2
  {
    assert [] + entries == entries;
    EntriesFill([], entries, []);
  }

  /** Onto the entries `before`, or onto a start that holds the first of the others as an empty table. */
  lemma {:induction false} EntriesFill(before: seq<Entry>, entries: seq<Entry>, start: seq<Entry>)
    requires Distinct(before + entries) && forall i :: 0 <= i < |entries| ==> ApartIn(entries[i].value)
    requires start == before || (|entries| > 0 && start == before + [Entry(entries[0].key, Table([]))])
    ensures AssignAll(start, Leaves([], entries)) == Ok(before + entries)
    decreases entries, 0
  {
    if |entries| > 0 {
      var e, more := entries[0], entries[1..];
      FirstIsFree(before, entries, start);
      LeavesAtFill(start, e.key, e.value);
      assert before + entries == (before + [e]) + more;
      assert forall i :: 0 <= i < |more| ==> more[i] == entries[i + 1];
      EntriesFill(before + [e], more, before + [e]);
      hide *;
      LeavesOf(entries);
      AssignInTurn(start, LeavesAt([e.key], e.value), Leaves([], more));
    } else {
      assert before + entries == before;
    }
  }

  lemma LeavesOf(entries: seq<Entry>)
    requires |entries| > 0
    ensures Leaves([], entries) == LeavesAt([entries[0].key], entries[0].value) + Leaves([], entries[1..])
  {
    assert [] + [entries[0].key] == [entries[0].key];
    hide LeavesAt;
  }

  lemma FirstIsFree(before: seq<Entry>, entries: seq<Entry>, start: seq<Entry>)
    requires |entries| > 0 && Distinct(before + entries)
    requires start == before || start == before + [Entry(entries[0].key, Table([]))]
    ensures Free(start, entries[0].key) && SetKey(start, entries[0].key, entries[0].value) == before + [entries[0]]
  {
    var all, n := before + entries, |before|;
    assert all[n] == entries[0] && forall i :: 0 <= i < n ==> all[i] == before[i];
    forall i | 0 <= i < n ensures start[i].key != entries[0].key { assert all[i].key != all[n].key; }
    IndexIs(start, entries[0].key, n);
    hide KeyIndex;
    assert start[..n] == before;
  }

  // ---- the rendering is a way of writing, and means the value ----

  function StepsOf(pairs: seq<Pair>): (steps: seq<Step>)
    ensures |steps| == |pairs|
  {
    if |pairs| == 0 then [] else [Step(Names(pairs[0].keys), PairMeaning(pairs[0]))] + StepsOf(pairs[1..])
  }

  lemma {:induction false} EntriesAre(pairs: seq<Pair>, obj: seq<Entry>)
    ensures Entries(pairs, obj) == AssignAll(obj, StepsOf(pairs))
    decreases |pairs|
  {
    if |pairs| > 0 && |pairs[0].keys| > 0 {
      var added := Assign(obj, Names(pairs[0].keys), PairMeaning(pairs[0]));
      hide Assign, PairMeaning, Names;
      if added.Ok? { EntriesAre(pairs[1..], added.value); }
    }
  }

  lemma {:induction false} StepsTogether(a: seq<Pair>, b: seq<Pair>)
    ensures StepsOf(a + b) == StepsOf(a) + StepsOf(b)
    ensures GoodPairs(a) && GoodPairs(b) ==> GoodPairs(a + b)
    decreases |a|
  {
    hide PairMeaning, GoodPair;
    if |a| > 0 {
      assert (a + b)[1..] == a[1..] + b && (a + b)[0] == a[0];
      StepsTogether(a[1..], b);
    } else {
      assert a + b == b;
    }
  }

  /** What `PairsUnder` and `PairsAt` give. */
  predicate Renders(pairs: seq<Pair>, steps: seq<Step>) {
    GoodPairs(pairs) && StepsOf(pairs) == steps && forall i :: 0 <= i < |pairs| ==> ClosedPair(pairs[i])
  }

  lemma RenderTogether(a: seq<Pair>, b: seq<Pair>, s: seq<Step>, t: seq<Step>)
    requires Renders(a, s) && Renders(b, t)
    ensures Renders(a + b, s + t)
  {
    StepsTogether(a, b);
    hide GoodPairs, StepsOf, ClosedPair;
  }

  lemma {:induction false} DocMeans(v: Value)
    requires Writable(v)
    ensures Good(DocOf(v)) && Meaning(DocOf(v)) == v && AllClosed(DocOf(v))
    decreases v, 2
  {
    match v {
      case Bool(_) =>
      case Int(n) => IntMeans(n);
      case Str(s) => PiecesMean(s);
      case Arr(items) => ItemsMean(items);
      case Table(entries) => TableMeans(entries);
    }
  }

  lemma IntMeans(n: int)
    ensures Good(DocOf(Int(n))) && Meaning(DocOf(Int(n))) == Int(n)
  {
    var m: nat := if n < 0 then -n else n;
    var d := Digits(m);
    var t := if n < 0 then "-" + d else d;
    assert DocOf(Int(n)) == DInt(t) && DigitValue(d) == m;
    hide *;
    NumberIs(t, d, n < 0);
    IntegerIs(t, n);
  }

  lemma NumberIs(t: string, d: string, negative: bool)
    requires |d| > 0 && AllDigits(d) && t == if negative then "-" + d else d
    ensures Without(t, '_') == t && Unsigned(t) == d && (StartsWith(t, '-') <==> negative)
  {
    assert IsDigit(d[0]) && ("-" + d)[1..] == d;
    forall i | 0 <= i < |t| ensures t[i] != '_' {
      assert t[i] == '-' || IsDigit(t[i]);
    }
    NoUnderscore(t);
    hide Without, AllDigits;
  }

  lemma IntegerIs(t: string, n: int)
    requires Without(t, '_') == t && |Unsigned(t)| > 0 && AllDigits(Unsigned(t))
    requires n == if StartsWith(t, '-') then -(DigitValue(Unsigned(t)) as int) else DigitValue(Unsigned(t))
    ensures Good(DInt(t)) && Meaning(DInt(t)) == Int(n)
  {
    hide Without, AllDigits, DigitValue, Unsigned;
  }

  lemma {:induction false} NoUnderscore(s: string)
    requires '_' !in s
    ensures Without(s, '_') == s
  {
    if |s| > 0 {
      assert s == [s[0]] + s[1..];
      assert forall c :: c in s[1..] ==> c in s;
      NoUnderscore(s[1..]);
    }
  }

  lemma {:induction false} PiecesMean(s: string)
    ensures GoodPieces(PiecesOf(s), '"') && PiecesValue(PiecesOf(s)) == s
  {
    if |s| > 0 {
      PiecesMean(s[1..]);
      PieceMeans(s[0]);
      hide PieceOf, GoodPiece, PieceValue;
      assert PiecesOf(s)[1..] == PiecesOf(s[1..]) && s == [s[0]] + s[1..];
    }
  }

  lemma PieceMeans(c: char)
    ensures forall next :: GoodPiece(PieceOf(c), '"', next)
    ensures PieceValue(PieceOf(c)) == c
  {
  }

  lemma {:induction false} ItemsMean(items: seq<Value>)
    requires forall i :: 0 <= i < |items| ==> Writable(items[i])
    ensures var docs := ItemsOf(items);
            GoodItems(docs) && Meanings(docs) == items && forall i :: 0 <= i < |docs| ==> AllClosed(docs[i].doc)
    decreases items, 3
  {
    if |items| > 0 {
      DocMeans(items[0]);
      assert forall i :: 0 <= i < |items[1..]| ==> items[1..][i] == items[i + 1];
      ItemsMean(items[1..]);
      hide *;
      ItemMeans(items);
    }
  }

  lemma ItemMeans(items: seq<Value>)
    requires |items| > 0 && Good(DocOf(items[0])) && Meaning(DocOf(items[0])) == items[0] && AllClosed(DocOf(items[0]))
    requires var docs := ItemsOf(items[1..]);
             && GoodItems(docs) && Meanings(docs) == items[1..]
             && forall i :: 0 <= i < |docs| ==> AllClosed(docs[i].doc)
    ensures var docs := ItemsOf(items);
            GoodItems(docs) && Meanings(docs) == items && forall i :: 0 <= i < |docs| ==> AllClosed(docs[i].doc)
  {
    var docs := ItemsOf(items);
    assert docs[1..] == ItemsOf(items[1..]) && docs[0] == Solid(DocOf(items[0])) && AllSpace("");
    GoodItemIs(docs[0]);
    hide Good, GoodItem, Meaning, DocOf, AllClosed, ItemMeaning, AllSpace;
    assert items == [items[0]] + items[1..];
    assert forall i :: 1 <= i < |docs| ==> docs[i] == docs[1..][i - 1];
  }

  lemma {:induction false} PairsMean(path: seq<string>, entries: seq<Entry>)
    requires forall i :: 0 <= i < |entries| ==> Reach(path + [entries[i].key], entries[i].value)
    ensures Renders(PairsUnder(path, entries), Leaves(path, entries))
    decreases entries, 3
  {
    if |entries| > 0 {
      var e, more := entries[0], entries[1..];
      assert Reach(path + [e.key], e.value);
      assert forall i :: 0 <= i < |more| ==> more[i] == entries[i + 1];
      PairsAtMean(path + [e.key], e.value);
      PairsMean(path, more);
      hide Renders, PairsAt, LeavesAt, Reach;
      RenderTogether(PairsAt(path + [e.key], e.value), PairsUnder(path, more),
                     LeavesAt(path + [e.key], e.value), Leaves(path, more));
    }
  }

  lemma {:induction false} PairsAtMean(path: seq<string>, v: Value)
    requires Reach(path, v)
    ensures Renders(PairsAt(path, v), LeavesAt(path, v))
    decreases v, 3
  {
    if v.Table? && |v.entries| > 0 {
      PairsMean(path, v.entries);
    } else {
      DocMeans(v);
      WrittenIsGood(path, false);
      LeafRenders(path, v);
    }
  }

  lemma LeafRenders(path: seq<string>, v: Value)
    requires !(v.Table? && |v.entries| > 0) && PathFor(path).Some?
    requires Good(DocOf(v)) && Meaning(DocOf(v)) == v && AllClosed(DocOf(v))
    requires var keys := PathFor(path).value; GoodPath(keys) && Names(keys) == path && Closed(keys)
    ensures Renders(PairsAt(path, v), LeavesAt(path, v))
  {
    var p := Pair("", PathFor(path).value, "", Solid(DocOf(v)));
    assert PairsAt(path, v) == [p] && LeavesAt(path, v) == [Step(path, v)];
    hide *;
    LonePair(p, path, v);
  }

  lemma LonePair(p: Pair, path: seq<string>, v: Value)
    requires GoodPath(p.keys) && Closed(p.keys) && Names(p.keys) == path && p.lead == p.gap == ""
    requires p.item == Solid(p.item.doc) && Good(p.item.doc) && AllClosed(p.item.doc) && Meaning(p.item.doc) == v
    ensures Renders([p], [Step(path, v)])
  {
    assert AllSpace("") && [p][1..] == [];
    PairIs(p, "");
    GoodItemIs(p.item);
    assert ClosedPair(p) && GoodPair(p) && PairMeaning(p) == v;
    hide Good, Meaning, AllClosed, GoodPath, Names, Closed, PairMeaning, GoodPair, ClosedPair;
    assert GoodPairs([]) && StepsOf([]) == [] && [Step(path, v)] + [] == [Step(path, v)];
    assert GoodPairs([p]) && StepsOf([p]) == [Step(path, v)];
  }

  lemma {:induction false} TableMeans(entries: seq<Entry>)
    requires Writable(Table(entries))
    ensures var doc := DocOf(Table(entries)); Good(doc) && Meaning(doc) == Table(entries) && AllClosed(doc)
    decreases entries, 4
  {
    var first, pairs := FirstPair(entries), PairsUnder([], entries);
    assert DocOf(Table(entries)) == DTable(first + pairs, "");
    PairsMean([], entries);
    ReachedApart([], entries);
    hide DocOf, PairsUnder, Renders, Reached;
    FirstMeans(entries);
    var start := if first == [] then [] else [Entry(entries[0].key, Table([]))];
    var steps := if first == [] then [] else [Step([entries[0].key], Table([]))];
    RenderTogether(first, pairs, steps, Leaves([], entries));
    StartFills(entries, start, steps);
    FirstOpens(entries, first, pairs);
    hide Writable, FirstPair;
    TableGood(first + pairs, steps + Leaves([], entries), entries);
  }

  lemma TableGood(pairs: seq<Pair>, steps: seq<Step>, entries: seq<Entry>)
    requires Renders(pairs, steps) && AssignAll([], steps) == Ok(entries)
    requires |pairs| > 0 ==> !StartsWith(PathText(pairs[0].keys), '}')
    ensures var doc := DTable(pairs, ""); Good(doc) && Meaning(doc) == Table(entries) && AllClosed(doc)
  {
    EntriesAre(pairs, []);
    TableIs(pairs, "");
    assert AllSpace("");
    hide AssignAll, StepsOf, GoodPairs, PathText, Good, Meaning, ClosedPair, Entries;
  }

  lemma FirstMeans(entries: seq<Entry>)
    requires |entries| > 0 ==> Quotable(entries[0].key) || !StartsWith(entries[0].key, '}')
    ensures var first := FirstPair(entries);
            && Renders(first, if first == [] then [] else [Step([entries[0].key], Table([]))])
            && (first != [] ==> |entries| > 0 && !StartsWith(PathText(first[0].keys), '}'))
            && (first == [] ==> |entries| == 0 || !StartsWith(entries[0].key, '}'))
  {
    if FirstPair(entries) != [] {
      var p := FirstPair(entries)[0];
      QuotedAlone(entries[0].key, p.keys[0].quote, p);
    }
  }

  lemma QuotedAlone(name: string, q: char, p: Pair)
    requires IsQuote(q) && q !in name && p == Pair("", [Quoted(name, q, "")], "", Solid(DTable([], "")))
    ensures Renders([p], [Step([name], Table([]))]) && PathText(p.keys)[0] == q
  {
    var k := Quoted(name, q, "");
    QuotedScan(name, q, "");
    var t := [q] + (name + ([q] + ""));
    assert [q] + "" == [q] && t[0] == t[|t| - 1] == q;
    hide ScanText;
    assert PathText([k]) == KeyText(k) + "" == t;
    assert SkipDots("") == "" && [k][1..] == [] && PathText([]) == "";
    assert Splits([]) && Splits([k]) && !IsSpace(q);
    assert Names([k]) == [name];
    EmptyTable();
    assert GoodPath([k]) && Closed([k]);
    hide *;
    LonePair(p, [name], Table([]));
  }

  lemma EmptyTable()
    ensures Good(DTable([], "")) && Meaning(DTable([], "")) == Table([]) && AllClosed(DTable([], ""))
  {
  }

  lemma StartFills(entries: seq<Entry>, start: seq<Entry>, steps: seq<Step>)
    requires Apart(entries)
    requires (start == [] && steps == []) ||
             (|entries| > 0 && start == [Entry(entries[0].key, Table([]))] && steps == [Step([entries[0].key], Table([]))])
    ensures AssignAll([], steps + Leaves([], entries)) == Ok(entries)
  {
    assert [] + entries == entries && [] + start == start;
    assert Distinct(entries) && forall i :: 0 <= i < |entries| ==> ApartIn(entries[i].value);
    hide *;
    EntriesFill([], entries, start);
    if steps == [] {
      assert steps + Leaves([], entries) == Leaves([], entries);
    } else {
      StartStep(entries[0].key);
      AssignInTurn([], steps, Leaves([], entries));
    }
  }

  lemma StartStep(k: string)
    ensures AssignAll([], [Step([k], Table([]))]) == Ok([Entry(k, Table([]))])
  {
    assert KeyIndex([], k) == 0 && SetKey([], k, Table([])) == [Entry(k, Table([]))];
    assert [Step([k], Table([]))][1..] == [];
    hide SetKey;
    AssignsOn([], [Step([k], Table([]))]);
  }

  lemma {:induction false} ReachedApart(path: seq<string>, entries: seq<Entry>)
    requires Reached(path, entries)
    ensures Apart(entries)
    decreases entries
  {
    forall i | 0 <= i < |entries| ensures ApartIn(entries[i].value) {
      var v := entries[i].value;
      assert Reach(path + [entries[i].key], v);
      if v.Table? {
        if |v.entries| > 0 { ReachedApart(path + [entries[i].key], v.entries); } else { assert Apart(v.entries); }
      }
    }
  }

  /** The first leaf lies under the first key. */
  lemma {:induction false} FirstLeaf(path: seq<string>, entries: seq<Entry>)
    requires |entries| > 0
    ensures var leaves := Leaves(path, entries);
            |leaves| > 0 && |leaves[0].path| > |path| && leaves[0].path[..|path| + 1] == path + [entries[0].key]
    decreases entries
  {
    var e := entries[0];
    if e.value.Table? && |e.value.entries| > 0 {
      FirstLeaf(path + [e.key], e.value.entries);
      var p := LeavesAt(path + [e.key], e.value)[0].path;
      assert p[..|path| + 2][..|path| + 1] == p[..|path| + 1];
    }
  }

  /** Only a bare key can make a path open with a brace. */
  lemma PathOpening(keys: seq<Key>)
    requires GoodPath(keys)
    ensures |keys| > 0 && (keys[0].Bare? || Quotable(keys[0].name))
    ensures StartsWith(PathText(keys), '}') <==> keys[0].Bare? && StartsWith(keys[0].name, '}')
  {
    var k := keys[0];
    FirstAndMore(keys);
    hide IsSpace, ScanText, Splits;
    if k.Bare? { NoLead(k); }
  }

  lemma {:induction false} FirstOpens(entries: seq<Entry>, first: seq<Pair>, pairs: seq<Pair>)
    requires first == [] || !StartsWith(PathText(first[0].keys), '}')
    requires first == [] && |entries| > 0 ==> !StartsWith(entries[0].key, '}')
    requires Renders(pairs, Leaves([], entries))
    ensures |first + pairs| > 0 ==> !StartsWith(PathText((first + pairs)[0].keys), '}')
  {
    if first == [] && |entries| > 0 {
      FirstLeaf([], entries);
      assert [] + [entries[0].key] == [entries[0].key];
      hide Leaves;
      var keys := pairs[0].keys;
      assert Names(keys) == Leaves([], entries)[0].path;
      assert GoodPath(keys) by { assert GoodPair(pairs[0]); }
      PathOpening(keys);
      assert Names(keys)[..1][0] == keys[0].name;
    } else if first == [] {
      assert Leaves([], entries) == [];
    }
  }

  /**
   * For every writable value, reading its rendering, followed by nothing or by a
   * delimiter, returns that value and exactly that remainder.
   */
  lemma RoundTrip(v: Value, rest: string)
    requires Writable(v) && Ends(rest)
    ensures ParseValue(Text(DocOf(v)) + rest) == Ok((v, rest))
  {
    hide *;
    DocMeans(v);
    NoSpace();
    ReadBack(DocOf(v), "", rest);
    assert "" + rest == rest;
  }

  // ---- and nothing else can be read while every quoted key is closed ----

  lemma {:induction false} SetReached(path: seq<string>, obj: seq<Entry>, k: string, v: Value)
    requires Reached(path, obj) && Reach(path + [k], v)
    ensures var after := SetKey(obj, k, v);
            Reached(path, after) && |after| > 0 && after[0].key == if |obj| > 0 then obj[0].key else k
  {
    var i, after := KeyIndex(obj, k), SetKey(obj, k, v);
    NotBefore(obj, k);
    assert forall j :: 0 <= j < |after| ==> after[j] == if j == i then Entry(k, v) else obj[j];
    assert i < |obj| ==> obj[i].key == k;
    hide KeyIndex, SetKey, Reach;
  }

  /** What can be written at `q` can be written at `q` behind a path. */
  lemma {:induction false} Deeper(path: seq<string>, q: seq<string>, v: Value)
    requires Nameable(path) && Reach(q, v)
    ensures Reach(path + q, v)
    decreases v
  {
    hide Nameable;
    if v.Table? && |v.entries| > 0 {
      forall i | 0 <= i < |v.entries| ensures Reach((path + q) + [v.entries[i].key], v.entries[i].value) {
        Deeper(path, q + [v.entries[i].key], v.entries[i].value);
        assert path + (q + [v.entries[i].key]) == (path + q) + [v.entries[i].key];
      }
    } else {
      NameableTogether(path, q);
    }
  }

  lemma {:induction false} WritableReach(path: seq<string>, v: Value)
    requires Nameable(path) && Writable(v)
    ensures Reach(path, v)
  {
    hide Nameable;
    if v.Table? && |v.entries| > 0 {
      forall i | 0 <= i < |v.entries| ensures Reach(path + [v.entries[i].key], v.entries[i].value) {
        assert [] + [v.entries[i].key] == [v.entries[i].key];
        Deeper(path, [v.entries[i].key], v.entries[i].value);
      }
    }
  }

  /** An assignment keeps every path one that can be written. */
  lemma {:induction false} AssignReached(path: seq<string>, obj: seq<Entry>, q: seq<string>, v: Value)
    requires Reached(path, obj) && |q| > 0 && Nameable(path + q) && Writable(v) && Assign(obj, q, v).Ok?
    ensures var added := Assign(obj, q, v).value;
            Reached(path, added) && |added| > 0 && added[0].key == if |obj| > 0 then obj[0].key else q[0]
    decreases |q|
  {
    var k := q[0];
    if |q| == 1 {
      assert q == [k];
      hide Assign, Reached, Reach, Writable, Nameable;
      WritableReach(path + [k], v);
      SetReached(path, obj, k, v);
      AssignHere(obj, k, v);
    } else {
      var sub := TableAt(obj, k);
      assert [k] + q[1..] == q && (path + [k]) + q[1..] == path + q;
      PassesOn(obj, q, v);
      hide Assign, Writable, Nameable, TableAt;
      AssignThrough(obj, k, q[1..], v);
      SubReached(path, obj, k);
      AssignReached(path + [k], sub, q[1..], v);
      var child := Assign(sub, q[1..], v).value;
      assert Reach(path + [k], Table(child));
      SetReached(path, obj, k, Table(child));
    }
  }

  lemma AssignHere(obj: seq<Entry>, k: string, v: Value)
    ensures Assign(obj, [k], v) == Ok(SetKey(obj, k, v))
  {
    hide SetKey;
  }

  lemma PassesOn(obj: seq<Entry>, q: seq<string>, v: Value)
    requires |q| > 1 && Assign(obj, q, v).Ok?
    ensures Passes(obj, q[0])
  {
  }

  lemma {:induction false} SubReached(path: seq<string>, obj: seq<Entry>, k: string)
    requires Reached(path, obj)
    ensures Reached(path + [k], TableAt(obj, k))
  {
    var i := KeyIndex(obj, k);
    hide KeyIndex;
    assert i < |obj| ==> Reach(path + [obj[i].key], obj[i].value);
  }

  lemma {:induction false} MeaningIsWritable(doc: Doc)
    requires Good(doc) && AllClosed(doc)
    ensures Writable(Meaning(doc))
    decreases doc, 0
  {
    match doc {
      case DArray(items, _, _) => MeaningsAreWritable(items);
      case DTable(pairs, pad) =>
        TableIs(pairs, pad);
        hide Good, Meaning, GoodPair, Entries, ClosedPair, Nameable;
        assert Distinct([]) && Reached([], []);
        PairsReached(pairs, []);
        if |pairs| > 0 {
          assert GoodPath(pairs[0].keys) by { PairIs(pairs[0], ""); assert GoodPair(pairs[0]); }
          PathOpening(pairs[0].keys);
        }
      case _ =>
    }
  }

  lemma {:induction false} MeaningsAreWritable(items: seq<Item>)
    requires GoodItems(items) && forall i :: 0 <= i < |items| ==> AllClosed(items[i].doc)
    ensures forall i :: 0 <= i < |Meanings(items)| ==> Writable(Meanings(items)[i])
    decreases items, 1
  {
    if |items| > 0 {
      GoodItemIs(items[0]);
      MeaningIsWritable(items[0].doc);
      assert forall i :: 0 <= i < |items[1..]| ==> items[1..][i] == items[i + 1];
      MeaningsAreWritable(items[1..]);
      hide Writable, GoodItem, Meaning, ItemMeaning;
      var all := Meanings(items);
      assert forall i :: 1 <= i < |all| ==> all[i] == Meanings(items[1..])[i - 1];
    }
  }

  lemma {:induction false} PairsReached(pairs: seq<Pair>, obj: seq<Entry>)
    requires GoodPairs(pairs) && (forall i :: 0 <= i < |pairs| ==> ClosedPair(pairs[i]))
    requires Reached([], obj) && Entries(pairs, obj).Ok?
    ensures var all := Entries(pairs, obj).value;
            && Reached([], all)
            && (|obj| > 0 ==> |all| > 0 && all[0].key == obj[0].key)
            && (|obj| == 0 && |pairs| > 0 ==>
                  |pairs[0].keys| > 0 && |all| > 0 && all[0].key == pairs[0].keys[0].name)
    decreases pairs, 1
  {
    if |pairs| > 0 {
      var p, more := pairs[0], pairs[1..];
      assert ClosedPair(p) && forall i :: 0 <= i < |more| ==> more[i] == pairs[i + 1];
      PairFacts(p);
      hide Reached, Meaning, PairMeaning, Assign, Nameable, GoodPair, ClosedPair, Names, Writable;
      var names := Names(p.keys);
      var added := Assign(obj, names, PairMeaning(p));
      assert [] + names == names;
      AssignReached([], obj, names, PairMeaning(p));
      PairsReached(more, added.value);
    }
  }

  lemma {:induction false} PairFacts(p: Pair)
    requires GoodPair(p) && ClosedPair(p)
    ensures |p.keys| > 0 && Nameable(Names(p.keys)) && Writable(PairMeaning(p)) && Names(p.keys)[0] == p.keys[0].name
    decreases p, 2
  {
    PairIs(p, "");
    GoodItemIs(p.item);
    MeaningIsWritable(p.item.doc);
    GoodIsWritten(p.keys, false);
    PathStarts(p.keys);
  }

  /**
   * The values that can be read from a text in which every quoted key is closed are the
   * writable ones.
   */
  lemma ReadableIff(v: Value)
    ensures (exists doc :: Good(doc) && AllClosed(doc) && Meaning(doc) == v) <==> Writable(v)
  {
    hide *;
    if Writable(v) { DocMeans(v); }
    if doc :| Good(doc) && AllClosed(doc) && Meaning(doc) == v { MeaningIsWritable(doc); }
  }

  /** One key, however written, and `true`. */
  lemma LoneKeyReads(keys: seq<Key>)
    requires GoodPath(keys) && !StartsWith(PathText(keys), '}')
    ensures |Names(keys)| > 0 && Assign([], Names(keys), Bool(true)).Ok?
    ensures ParseValue("{" + (PathText(keys) + "=true}")) ==
              Ok((Table(Assign([], Names(keys), Bool(true)).value), ""))
  {
    var p := Pair("", keys, "", Solid(DBool(true)));
    var doc := DTable([p], "");
    PathStarts(keys);
    AssignAnew(Names(keys), Bool(true));
    assert Text(doc) == "{" + (PathText(keys) + "=true}") by { TrueText(p); }
    assert Text(doc) + "" == Text(doc);
    TableIs([p], "");
    PairIs(p, "");
    GoodItemIs(p.item);
    assert AllSpace("") && PairMeaning(p) == Bool(true) && [p][1..] == [];
    assert GoodPair(p) && GoodPairs([]);
    EntriesStep([p], [], "");
    hide *;
    TableReadBack([p], "", "");
  }

  lemma TrueText(p: Pair)
    requires p == Pair("", p.keys, "", Solid(DBool(true)))
    ensures Text(DTable([p], "")) == "{" + (PathText(p.keys) + "=true}")
  {
    assert ItemText(p.item) == "true";
    hide PathText;
    assert PairText(p) == PathText(p.keys) + ("=" + "true") && PairsText([p]) == PairText(p) + "}";
    assert TableBody([p], "") == PairsText([p]);
  }

  lemma {:induction false} AssignAnew(path: seq<string>, v: Value)
    requires |path| > 0
    ensures Assign([], path, v).Ok?
    decreases |path|
  {
    if |path| > 1 { AssignAnew(path[1..], v); }
  }

  lemma TwoNames(a: string, b: string)
    ensures Assign([], [a, b], Bool(true)) == Ok([Entry(a, Table([Entry(b, Bool(true))]))])
  {
    assert [a, b][1..] == [b] && Passes([], a) && TableAt([], a) == [];
    AssignHere([], b, Bool(true));
    assert SetKey([], b, Bool(true)) == [Entry(b, Bool(true))];
    assert SetKey([], a, Table([Entry(b, Bool(true))])) == [Entry(a, Table([Entry(b, Bool(true))]))];
    assert [a] + [b] == [a, b];
    AssignThrough([], a, [b], Bool(true));
  }

  /** A table is read through a quote that opens in one key and closes in the next. */
  lemma SpanningQuoteReads()
    ensures var v := Table([Entry("a\"b'c", Table([Entry("d\"", Bool(true))]))]);
            Writable(v) && ParseValue("{" + ("a\"b'c.d\"" + "=true}")) == Ok((v, ""))
  {
    var keys := SpanningQuote();
    hide *;
    assert !StartsWith("a\"b'c.d\"", '}') by { NoBrace("a\"b'c.d\""); }
    LoneKeyReads(keys);
    TwoNames("a\"b'c", "d\"");
    assert Writable(Bool(true)) by { Simple(); }
    TwoReached("a\"b'c", "d\"", Bool(true));
    NoBrace("a\"b'c");
  }

  lemma NoBrace(t: string)
    requires |t| > 0 && t[0] == 'a'
    ensures !StartsWith(t, '}')
  {
  }

  lemma Simple()
    ensures Writable(Bool(true))
  {
  }

  lemma {:induction false} TwoReached(a: string, b: string, v: Value)
    requires Writable(v) && !(v.Table? && |v.entries| > 0)
    ensures Writable(Table([Entry(a, Table([Entry(b, v)]))])) <==>
              Nameable([a, b]) && (Quotable(a) || !StartsWith(a, '}'))
  {
    hide Nameable, Quotable;
    var inner := [Entry(b, v)];
    var outer := [Entry(a, Table(inner))];
    assert [] + [a] == [a] && [a] + [b] == [a, b];
    assert Reach([a, b], v) <==> Nameable([a, b]);
    assert Reached([a], inner) <==> Reach([a] + [inner[0].key], inner[0].value);
    assert Reached([], outer) <==> Reach([] + [outer[0].key], outer[0].value);
  }

  /** And a table that is not writable is read where a closing quote is missing. */
  lemma MissingQuoteReads()
    ensures var v := Table([Entry("a\"x'y", Table([Entry("abc", Bool(true))]))]);
            !Writable(v) && ParseValue("{" + ("a\"x'y.\"abc" + "=true}")) == Ok((v, ""))
  {
    var keys := MissingQuote();
    hide *;
    NoBrace("a\"x'y.\"abc");
    LoneKeyReads(keys);
    TwoNames("a\"x'y", "abc");
    assert Writable(Bool(true)) by { Simple(); }
    TwoReached("a\"x'y", "abc", Bool(true));
  }

  // ---- keys with escapes ----

  /**
   * A key written as the standard's basic string, with escapes, splits back into
   * itself exactly when it needs no escapes: quoted keys are read without them.
   */
  lemma EscapedKeyReadsIff(name: string)
    ensures SplitKey("\"" + (Escape(name) + "\"")) == Ok([name]) <==> Escape(name) == name
  {
    var t := "\"" + (Escape(name) + "\"");
    assert t[1..] == Escape(name) + "\"";
    if Escape(name) == name {
      EscapedIsPlain(name);
      QuotedSplits(name, '"', "\"");
      assert ['"'] + (name + "\"") == t && "\""[1..] == "" && SkipDots("") == "";
      assert SplitParts("") == Ok([]) && [name] + [] == [name];
    } else {
      var j := IndexOf(t[1..], '"');
      var part := t[1..][..j];
      BeforeFirst(t[1..], '"');
      if '"' !in name {
        EscapeHasNoQuote(name);
        IndexOfAt(Escape(name), '"', "\"");
        assert part == Escape(name);
      }
      assert part != name;
      if SplitKey(t).Ok? { assert SplitKey(t).value[0] == part; }
    }
  }

  lemma {:induction false} EscapeHasNoQuote(s: string)
    requires '"' !in s
    ensures '"' !in Escape(s)
  {
    if |s| > 0 {
      assert s == [s[0]] + s[1..];
      EscapeHasNoQuote(s[1..]);
      EscapeStep(s);
      NoQuoteAdded(s[0]);
      hide Escape, PieceOf;
    }
  }

  lemma EscapeStep(s: string)
    requires |s| > 0
    ensures Escape(s) == PieceText(PieceOf(s[0])) + Escape(s[1..])
  {
    assert PiecesOf(s)[1..] == PiecesOf(s[1..]);
    hide PieceOf, PieceText;
  }

  lemma NoQuoteAdded(c: char)
    requires c != '"'
    ensures '"' !in PieceText(PieceOf(c))
  {
  }

  lemma {:induction false} EscapeLength(s: string)
    ensures |Escape(s)| >= |s| && (|Escape(s)| == |s| ==> Escape(s) == s)
  {
    if |s| > 0 {
      EscapeLength(s[1..]);
      EscapeStep(s);
      assert PieceOf(s[0]).Plain? ==> PieceText(PieceOf(s[0])) == [s[0]];
      assert s == [s[0]] + s[1..];
    }
  }

  lemma {:induction false} EscapedIsPlain(s: string)
    requires Escape(s) == s
    ensures '"' !in s
  {
    if |s| > 0 {
      EscapeLength(s[1..]);
      EscapeStep(s);
      assert |PieceText(PieceOf(s[0]))| == 1;
      assert Escape(s)[1..] == Escape(s[1..]);
      EscapedIsPlain(s[1..]);
    }
  }

  // ---- comments ----

  lemma {:induction false} NothingFound(t: string, st: Scan, stop: char)
    requires st != Found
    ensures FindOutside(t, stop, OpenQuote(st)) == |t| <==> ScanText(t, st, stop) != Found
  {
    if |t| > 0 {
      StaysFound(t[1..], stop);
      if ScanChar(st, t[0], stop) != Found { NothingFound(t[1..], ScanChar(st, t[0], stop), stop); }
    }
  }

  /**
   * Stripping comments leaves a line alone exactly when no `#` stands outside quotes, every
   * quote character counting, escaped or not.
   */
  lemma SurvivesIff(t: string)
    ensures StripComment(t) == t <==> ScanText(t, Outside, '#') != Found
  {
    NothingFound(t, Outside, '#');
    hide FindOutside, ScanText;
  }

  /** And it takes off just the comment behind `t` exactly when those quotes are closed again. */
  lemma CommentStrippedIff(t: string, comment: string)
    ensures StripComment(t + ("#" + comment)) == t <==> ScanText(t, Outside, '#') == Outside
  {
    var line := t + ("#" + comment);
    assert OpenQuote(Outside) == None;
    assert line[..|t|] == t;
    if ScanText(t, Outside, '#') == Outside {
      SearchAfter(t, Outside, '#', "#" + comment);
      assert FindOutside("#" + comment, '#', None) == 0;
    }
    var i := FindOutside(line, '#', None);
    hide FindOutside, ScanText;
    if line[..i] == t {
      assert i == |t|;
      BeforeFound(line, Outside, '#');
    }
  }

  /** Escapes do not show in the scan: they add no quote and no `#`. */
  lemma {:induction false} EscapeScans(s: string, st: Scan)
    requires AtRest(st)
    ensures ScanText(Escape(s), st, '#') == ScanText(s, st, '#')
  {
    if |s| > 0 {
      EscapeStep(s);
      CharScans(s[0], st);
      hide Escape, PieceOf, PieceText;
      ScanConcat(PieceText(PieceOf(s[0])), Escape(s[1..]), st, '#');
      EscapeScans(s[1..], ScanChar(st, s[0], '#'));
    }
  }

  lemma CharScans(c: char, st: Scan)
    requires AtRest(st)
    ensures ScanText(PieceText(PieceOf(c)), st, '#') == ScanChar(st, c, '#') && AtRest(ScanChar(st, c, '#'))
  {
    var t := PieceText(PieceOf(c));
    if |t| == 2 {
      assert t[1..] == [t[1]] && t[1..][1..] == "";
    } else {
      assert t[1..] == "";
    }
  }

  /**
   * So the text of a string survives exactly when, read behind an opening quote, the string
   * itself shows no `#` outside quotes; and a comment behind it is taken off exactly when it
   * leaves that quote open.
   */
  lemma StringSurvivesIff(s: string, comment: string)
    ensures var t := Text(DocOf(Str(s)));
            && (StripComment(t) == t <==> ScanText(s, Inside('"'), '#') != Found)
            && (StripComment(t + ("#" + comment)) == t <==> ScanText(s, Inside('"'), '#') == Inside('"'))
  {
    var t := Text(DocOf(Str(s)));
    assert t == ['"'] + (Escape(s) + ['"']);
    SurvivesIff(t);
    CommentStrippedIff(t, comment);
    var st := ScanText(s, Inside('"'), '#');
    assert t[1..] == Escape(s) + ['"'] && ScanChar(Outside, '"', '#') == Inside('"');
    EscapeScans(s, Inside('"'));
    ScanConcat(Escape(s), ['"'], Inside('"'), '#');
    StaysAtRest(s, Inside('"'), '#');
    assert ScanText(['"'], st, '#') == ScanChar(st, '"', '#') by { assert ['"'][1..] == []; }
    hide StripComment, Escape;
  }
}
