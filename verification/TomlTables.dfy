/**
 * What adding one value to a table does to every path of it, and what a written integer
 * is worth, apart from the readers that use them.
 */
module TomlTables {
  import opened Common
  import opened Toml
  import opened TomlKeys
  import opened TomlForms
  import opened TomlRoundTrip

  // ---- tables, path by path ----

  /** What a value holds at a path. */
  function Seek(v: Value, path: seq<string>): Option<Value>
    decreases |path|
  {
    if |path| == 0 then Some(v)
    else if v.Table? && KeyIndex(v.entries, path[0]) < |v.entries| then
      Seek(v.entries[KeyIndex(v.entries, path[0])].value, path[1..])
    else None
  }

  /** Something that is no table stands on the way to the end of the path. */
  ghost predicate Blocked(obj: seq<Entry>, path: seq<string>) {
    exists n :: 0 < n < |path| && Stops(Table(obj), path, n)
  }

  predicate Stops(v: Value, path: seq<string>, n: nat)
    requires n <= |path|
  {
    Seek(v, path[..n]).Some? && !Seek(v, path[..n]).value.Table?
  }

  /** The two paths part at some key. */
  ghost predicate Part(a: seq<string>, b: seq<string>) {
    exists i :: 0 <= i < |a| && i < |b| && a[i] != b[i]
  }

  lemma SeekSet(obj: seq<Entry>, k: string, v: Value, path: seq<string>)
    requires |path| > 0
    ensures Seek(Table(SetKey(obj, k, v)), path) ==
              if path[0] == k then Seek(v, path[1..]) else Seek(Table(obj), path)
  {
    SetTwice(obj, k, v, v);
    if path[0] != k { SameIndex(obj, k, v, path[0]); }
    hide SetKey, KeyIndex;
  }

  lemma SameIndex(obj: seq<Entry>, k: string, v: Value, x: string)
    requires x != k
    ensures var i, j := KeyIndex(obj, x), KeyIndex(SetKey(obj, k, v), x);
            (i < |obj| <==> j < |SetKey(obj, k, v)|) && (i < |obj| ==> SetKey(obj, k, v)[j] == obj[i])
  {
    var i, at, after := KeyIndex(obj, x), KeyIndex(obj, k), SetKey(obj, k, v);
    NotBefore(obj, x);
    assert forall j :: 0 <= j < |after| ==> after[j] == if j == at then Entry(k, v) else obj[j];
    hide SetKey;
    IndexIs(after, x, if i < |obj| then i else |after|);
    hide KeyIndex;
  }

  lemma {:induction false} SeekNothing(path: seq<string>)
    requires |path| > 0
    ensures Seek(Table([]), path) == None
  {
  }

  /** Below its first key a path finds what it finds in the table there. */
  lemma SeekIn(obj: seq<Entry>, path: seq<string>)
    requires |path| > 1 && Passes(obj, path[0])
    ensures Seek(Table(obj), path) == Seek(Table(TableAt(obj, path[0])), path[1..])
  {
    if KeyIndex(obj, path[0]) >= |obj| { SeekNothing(path[1..]); }
  }

  lemma BlockedIn(obj: seq<Entry>, path: seq<string>)
    requires |path| > 1
    ensures Blocked(obj, path) <==> !Passes(obj, path[0]) || Blocked(TableAt(obj, path[0]), path[1..])
  {
    var k, rest := path[0], path[1..];
    if !Passes(obj, k) {
      assert path[..1] == [k] && [k][1..] == [];
      assert Seek(Table(obj), [k]) == Seek(obj[KeyIndex(obj, k)].value, [k][1..]) == Some(obj[KeyIndex(obj, k)].value);
      assert Stops(Table(obj), path, 1);
    } else {
      var sub := TableAt(obj, k);
      hide Passes, TableAt;
      if Blocked(obj, path) {
        var n :| 0 < n < |path| && Stops(Table(obj), path, n);
        if n == 1 {
          assert path[..1] == [k] && [k][1..] == [];
          FirstPasses(obj, k);
        } else {
          assert path[..n][0] == k && path[..n][1..] == rest[..n - 1];
          SeekIn(obj, path[..n]);
          assert Stops(Table(sub), rest, n - 1);
        }
      }
      if Blocked(sub, rest) {
        var n :| 0 < n < |rest| && Stops(Table(sub), rest, n);
        assert path[..n + 1][0] == k && path[..n + 1][1..] == rest[..n];
        SeekIn(obj, path[..n + 1]);
        assert Stops(Table(obj), path, n + 1);
      }
    }
  }

  lemma FirstPasses(obj: seq<Entry>, k: string)
    requires Passes(obj, k)
    ensures Seek(Table(obj), [k]).Some? ==> Seek(Table(obj), [k]).value.Table?
  {
    assert [k][1..] == [];
  }

  /**
   * Adding `v` at a path fails exactly when something on the way is no table.  Otherwise the
   * path holds `v` afterwards, every path that parts from it holds what it held, and its first
   * key stands where it stood, or last if it is new.
   */
  lemma {:induction false} AssignIs(obj: seq<Entry>, path: seq<string>, v: Value, other: seq<string>)
    requires |path| > 0
    ensures Assign(obj, path, v).Err? <==> Blocked(obj, path)
    ensures Assign(obj, path, v).Ok? ==>
              var t := Assign(obj, path, v).value;
              && Seek(Table(t), path) == Some(v)
              && (Part(path, other) ==> Seek(Table(t), other) == Seek(Table(obj), other))
              && |t| == (if KeyIndex(obj, path[0]) < |obj| then |obj| else |obj| + 1)
              && forall i :: 0 <= i < |t| ==> t[i].key == if i < |obj| then obj[i].key else path[0]
    decreases |path|
  {
    var k, rest := path[0], path[1..];
    if |path| == 1 {
      assert path == [k];
      AssignHere(obj, k, v);
      SeekSet(obj, k, v, path);
      if Part(path, other) { SeekSet(obj, k, v, other); }
      SetKeeps(obj, k, v);
      hide SetKey, KeyIndex;
    } else {
      BlockedIn(obj, path);
      assert [k] + rest == path;
      if Passes(obj, k) {
        var sub := TableAt(obj, k);
        AssignThrough(obj, k, rest, v);
        var below := if |other| > 0 then other[1..] else [];
        AssignIs(sub, rest, v, below);
        if Assign(sub, rest, v).Ok? {
          AssignUp(obj, path, v, other, Assign(sub, rest, v).value);
        }
      } else {
        PassesNot(obj, path, v);
      }
      hide Assign, Blocked;
    }
  }

  lemma PassesNot(obj: seq<Entry>, path: seq<string>, v: Value)
    requires |path| > 1 && !Passes(obj, path[0])
    ensures Assign(obj, path, v).Err?
  {
  }

  lemma SetKeeps(obj: seq<Entry>, k: string, v: Value)
    ensures var t := SetKey(obj, k, v);
            && |t| == (if KeyIndex(obj, k) < |obj| then |obj| else |obj| + 1)
            && forall i :: 0 <= i < |t| ==> t[i].key == if i < |obj| then obj[i].key else k
  {
  }

  /** From the table at the first key to the whole. */
  lemma AssignUp(obj: seq<Entry>, path: seq<string>, v: Value, other: seq<string>, child: seq<Entry>)
    requires |path| > 1 && Passes(obj, path[0]) && Seek(Table(child), path[1..]) == Some(v)
    requires |other| > 0 && Part(path[1..], other[1..]) ==>
               Seek(Table(child), other[1..]) == Seek(Table(TableAt(obj, path[0])), other[1..])
    ensures var t := SetKey(obj, path[0], Table(child));
            && Seek(Table(t), path) == Some(v)
            && (Part(path, other) ==> Seek(Table(t), other) == Seek(Table(obj), other))
            && |t| == (if KeyIndex(obj, path[0]) < |obj| then |obj| else |obj| + 1)
            && forall i :: 0 <= i < |t| ==> t[i].key == if i < |obj| then obj[i].key else path[0]
  {
    var k := path[0];
    SeekSet(obj, k, Table(child), path);
    SetKeeps(obj, k, Table(child));
    if Part(path, other) {
      SeekSet(obj, k, Table(child), other);
      if other[0] == k {
        PartBelow(path, other);
        SeekIn(obj, other);
      }
    }
    hide SetKey, KeyIndex, Seek, TableAt, Passes;
  }

  lemma PartBelow(a: seq<string>, b: seq<string>)
    requires Part(a, b) && |b| > 0 && a[0] == b[0]
    ensures |b| > 1 && Part(a[1..], b[1..])
  {
    var i :| 0 <= i < |a| && i < |b| && a[i] != b[i];
    assert a[1..][i - 1] != b[1..][i - 1];
  }

  // ---- integers, as written ----

  lemma {:induction false} WithoutSplits(a: string, b: string, c: char)
    ensures Without(a + b, c) == Without(a, c) + Without(b, c)
  {
    if |a| > 0 {
      assert (a + b)[1..] == a[1..] + b;
      WithoutSplits(a[1..], b, c);
    } else {
      assert a + b == b;
    }
  }

  /** An underscore may stand anywhere in an integer and does not count. */
  lemma UnderscoreIsNothing(a: string, b: string)
    ensures IsInteger(a + ("_" + b)) <==> IsInteger(a + b)
    ensures IsInteger(a + b) ==> IntegerValue(a + ("_" + b)) == IntegerValue(a + b)
  {
    WithoutSplits(a, "_" + b, '_');
    WithoutSplits("_", b, '_');
    WithoutSplits(a, b, '_');
    assert Without("_", '_') == "" by { assert "_"[1..] == ""; }
    hide Without, DigitValue, AllDigits;
    assert "" + Without(b, '_') == Without(b, '_');
  }

  /** The digits of `n` are worth `n`, bare or behind a plus, and `-n` behind a minus. */
  lemma SignsAre(n: nat)
    ensures IsInteger(Digits(n)) && IntegerValue(Digits(n)) == n
    ensures IsInteger("+" + Digits(n)) && IntegerValue("+" + Digits(n)) == n
    ensures IsInteger("-" + Digits(n)) && IntegerValue("-" + Digits(n)) == -(n as int)
  {
    var d := Digits(n);
    assert AllDigits(d) && |d| > 0 && DigitValue(d) == n;
    hide Digits;
    NumberIs(d, d, false);
    NumberIs("-" + d, d, true);
    assert '_' !in d by { assert forall i :: 0 <= i < |d| ==> IsDigit(d[i]); }
    NoUnderscore(d);
    WithoutSplits("+", d, '_');
    assert Without("+", '_') == "+" by { assert "+"[1..] == "" && ['+'] + "" == "+"; }
    assert ("+" + d)[1..] == d;
    hide Without, DigitValue, AllDigits;
  }
}
