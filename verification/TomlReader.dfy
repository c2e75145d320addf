/**
 * The readers of packages/config/src/provider.ts as they run: loops over an index
 * or a shrinking remainder, each computing the function of `Toml` it is named after.
 */
module TomlReader {
  import opened Common
  import opened Toml
  import opened Whitespace

  method ReadTomlString(s: string) returns (r: Parsed<string>)
    requires |s| > 0
    ensures r == ReadRest(s[1..], s[0])
  {
    var quote := s[0];
    var i := 1;
    var out := "";
    PrependNothing(ReadRest(s[1..], quote));
    while i < |s|
      invariant 1 <= i <= |s|
      invariant ReadRest(s[1..], quote) == Prepend(out, ReadRest(s[i..], quote))
    {
      var c := s[i];
      assert s[i..][1..] == s[i + 1..];
      assert i + 1 < |s| ==> s[i..][2..] == s[i + 2..];
      if c == quote {
        assert out + "" == out;
        return Ok((out, s[i + 1..]));
      }
      if quote != '\'' && c == '\\' {
        var next := if i + 1 < |s| then Some(s[i + 1]) else None;
        if next == Some('u') {
          return Err(NotModelled);
        }
        if next.Some? && Unescape(next.value).Some? {
          PrependTwice(out, [Unescape(next.value).value], ReadRest(s[i + 2..], quote));
          out := out + [Unescape(next.value).value];
          i := i + 2;
          continue;
        }
      }
      PrependTwice(out, [c], ReadRest(s[i + 1..], quote));
      out := out + [c];
      i := i + 1;
    }
    return Err(Unterminated);
  }

  lemma PrependNothing(r: Parsed<string>)
    ensures Prepend("", r) == r
  {
    if r.Ok? { assert "" + r.value.0 == r.value.0; }
  }

  lemma PrependTwice(a: string, b: string, r: Parsed<string>)
    ensures Prepend(a, Prepend(b, r)) == Prepend(a + b, r)
  {
    if r.Ok? { assert a + (b + r.value.0) == a + b + r.value.0; }
  }

  method ReadScalarEnd(s: string) returns (i: nat)
    ensures i == ScalarEnd(s)
  {
    i := 0;
    while i < |s| && !IsDelimiter(s[i])
      invariant i <= |s| && ScalarEnd(s) == i + ScalarEnd(s[i..])
    {
      assert s[i..][1..] == s[i + 1..];
      i := i + 1;
    }
  }

  method FindTopLevelEquals(line: string) returns (at: int)
    ensures at == if FindOutside(line, '=', None) == |line| then -1 else FindOutside(line, '=', None)
  {
    var inStr: Option<char> := None;
    for i := 0 to |line|
      invariant FindOutside(line, '=', None) == i + FindOutside(line[i..], '=', inStr)
    {
      var c := line[i];
      assert line[i..][1..] == line[i + 1..];
      if inStr.Some? {
        if c == inStr.value {
          inStr := None;
        }
      } else if c == '"' || c == '\'' {
        inStr := Some(c);
      } else if c == '=' {
        return i;
      }
    }
    return -1;
  }

  method CutComment(line: string) returns (cut: string)
    ensures cut == StripComment(line)
  {
    var inStr: Option<char> := None;
    for i := 0 to |line|
      invariant FindOutside(line, '#', None) == i + FindOutside(line[i..], '#', inStr)
    {
      var c := line[i];
      assert line[i..][1..] == line[i + 1..];
      if inStr.Some? {
        if c == inStr.value {
          inStr := None;
        }
      } else if c == '"' || c == '\'' {
        inStr := Some(c);
      } else if c == '#' {
        return line[..i];
      }
    }
    return line;
  }

  /** The first position of `c` from `start` on, or the length. */
  method ReadUntil(s: string, start: nat, c: char) returns (j: nat)
    requires start <= |s|
    ensures j == start + IndexOf(s[start..], c) && j <= |s|
  {
    j := start;
    while j < |s| && s[j] != c
      invariant start <= j <= |s| && IndexOf(s[start..], c) == j - start + IndexOf(s[j..], c)
    {
      assert s[j..][1..] == s[j + 1..];
      j := j + 1;
    }
  }

  /** The part of `s` from `i` on; nothing when `i` is past the end. */
  function From(s: string, i: nat): string {
    if i <= |s| then s[i..] else ""
  }

  method SkipSeparators(key: string, start: nat) returns (i: nat)
    ensures From(key, i) == SkipDots(From(key, start))
  {
    i := start;
    while i < |key| && (key[i] == ' ' || key[i] == '.')
      invariant SkipDots(From(key, i)) == SkipDots(From(key, start))
    {
      assert key[i..][1..] == key[i + 1..];
      i := i + 1;
    }
  }

  method SplitDottedKey(key: string) returns (r: Result<seq<string>, Failure>)
    ensures r == SplitKey(key)
  {
    hide SplitParts, SkipDots, IndexOf, Trim;
    var parts: seq<string> := [];
    var i: nat := 0;
    JoinedNothing(SplitParts(key));
    assert From(key, 0) == key;
    while i < |key|
      invariant SplitParts(key) == Joined(parts, SplitParts(From(key, i)))
      decreases |From(key, i)|
    {
      if key[i] == '"' || key[i] == '\'' {
        var j := ReadUntil(key, i + 1, key[i]);
        SplitQuoted(key, i, j);
        JoinedMore(parts, key[i + 1..j], SplitParts(SkipDots(From(key, j + 1))));
        parts := parts + [key[i + 1..j]];
        i := SkipSeparators(key, j + 1);
      } else {
        var j := ReadUntil(key, i, '.');
        SplitBare(key, i, j);
        var segment := Trim(key[i..j]);
        if segment == "" {
          return Err(EmptyKey);
        }
        JoinedMore(parts, segment, SplitParts(From(key, j + 1)));
        parts := parts + [segment];
        i := j + 1;
      }
    }
    SplitEnd(key, i, parts);
    if |parts| == 0 {
      return Err(EmptyKey);
    }
    return Ok(parts);
  }

  /** One segment of the key `k`. */
  lemma SplitFirst(k: string)
    requires |k| > 0
    ensures k[0] == '"' || k[0] == '\'' ==>
              var j := IndexOf(k[1..], k[0]);
              && SplitParts(k) == Joined([k[1..][..j]], SplitParts(SkipDots(After(k[1..], j))))
              && |SkipDots(After(k[1..], j))| < |k|
    ensures k[0] != '"' && k[0] != '\'' ==>
              var j := IndexOf(k, '.');
              SplitParts(k) == if Trim(k[..j]) == "" then Err(EmptyKey)
                               else Joined([Trim(k[..j])], SplitParts(After(k, j)))
  {
    hide IndexOf, Trim, SkipDots;
  }

  lemma Positions(key: string, i: nat, n: nat)
    requires i <= |key| && n <= |key| - i
    ensures key[i..][..n] == key[i..i + n]
    ensures After(key[i..], n) == From(key, i + n + 1)
    ensures i < |key| ==> key[i..][1..] == key[i + 1..]
  {
  }

  /** One quoted segment of the key, ending at `j`, in terms of positions. */
  lemma SplitQuoted(key: string, i: nat, j: nat)
    requires i < |key| && (key[i] == '"' || key[i] == '\'') && j == i + 1 + IndexOf(key[i + 1..], key[i])
    ensures SplitParts(From(key, i)) == Joined([key[i + 1..j]], SplitParts(SkipDots(From(key, j + 1))))
    ensures |SkipDots(From(key, j + 1))| < |From(key, i)|
  {
    hide IndexOf, Trim, SkipDots, SplitParts, After;
    var k := key[i..];
    SplitFirst(k);
    assert k[1..] == key[i + 1..];
    Positions(key, i + 1, j - i - 1);
  }

  lemma SplitBare(key: string, i: nat, j: nat)
    requires i < |key| && key[i] != '"' && key[i] != '\'' && j == i + IndexOf(key[i..], '.')
    ensures SplitParts(From(key, i)) ==
            if Trim(key[i..j]) == "" then Err(EmptyKey) else Joined([Trim(key[i..j])], SplitParts(From(key, j + 1)))
  {
    hide IndexOf, Trim, SkipDots, SplitParts, After;
    SplitFirst(key[i..]);
    Positions(key, i, j - i);
  }

  lemma SplitEnd(key: string, i: nat, parts: seq<string>)
    requires i >= |key| && SplitParts(key) == Joined(parts, SplitParts(From(key, i)))
    ensures SplitParts(key) == Ok(parts)
  {
    assert From(key, i) == "" && parts + [] == parts;
  }

  lemma JoinedNothing(r: Result<seq<string>, Failure>)
    ensures Joined([], r) == r
  {
    if r.Ok? { assert [] + r.value == r.value; }
  }

  function Joined(parts: seq<string>, r: Result<seq<string>, Failure>): Result<seq<string>, Failure> {
    match r
    case Ok(more) => Ok(parts + more)
    case Err(e) => Err(e)
  }

  lemma JoinedMore(parts: seq<string>, p: string, r: Result<seq<string>, Failure>)
    ensures Joined(parts, Joined([p], r)) == Joined(parts + [p], r)
  {
    if r.Ok? { assert parts + ([p] + r.value) == parts + [p] + r.value; }
  }

  /** `parseTomlValue`: dispatch on the first character. */
  method ReadValue(str: string) returns (r: Parsed<Value>)
    ensures r == ParseValue(str)
    decreases |str|, 2
  {
    var s := TrimStart(str);
    if s == "" {
      return Err(MissingValue);
    }
    var c := s[0];
    if c == '"' || c == '\'' {
      var t := ReadTomlString(s);
      return if t.Ok? then Ok((Str(t.value.0), t.value.1)) else Err(t.error);
    }
    if c == '[' {
      var t := ReadArray(s);
      return if t.Ok? then Ok((Arr(t.value.0), t.value.1)) else Err(t.error);
    }
    if c == '{' {
      var t := ReadInlineTable(s);
      return if t.Ok? then Ok((Table(t.value.0), t.value.1)) else Err(t.error);
    }
    var i := ReadScalarEnd(s);
    var v := ParseScalar(Trim(s[..i]));
    return if v.Ok? then Ok((v.value, s[i..])) else Err(v.error);
  }

  function PrependItems(items: seq<Value>, r: Parsed<seq<Value>>): Parsed<seq<Value>> {
    match r
    case Ok((vs, rest)) => Ok((items + vs, rest))
    case Err(e) => Err(e)
  }

  lemma PrependItemsTwice(a: seq<Value>, v: Value, r: Parsed<seq<Value>>)
    ensures PrependItems(a, PrependItems([v], r)) == PrependItems(a + [v], r)
    ensures PrependItems([], r) == r
  {
    if r.Ok? {
      assert a + ([v] + r.value.0) == a + [v] + r.value.0;
      assert [] + r.value.0 == r.value.0;
    }
  }

  method ReadArray(s: string) returns (r: Parsed<seq<Value>>)
    requires |s| > 0
    ensures r == ParseArray(s)
    decreases |s|, 1
  {
    var rest := TrimStart(s[1..]);
    var arr: seq<Value> := [];
    if StartsWith(rest, ']') {
      return Ok((arr, rest[1..]));
    }
    PrependItemsTwice([], Bool(true), ParseItems(rest));
    while true
      invariant |rest| < |s| && ParseArray(s) == PrependItems(arr, ParseItems(rest))
      decreases |rest|
    {
      var v := ReadValue(rest);
      if v.Err? {
        return Err(v.error);
      }
      ghost var was := arr;
      arr := arr + [v.value.0];
      rest := TrimStart(v.value.1);
      if StartsWith(rest, ',') {
        rest := TrimStart(rest[1..]);
        if StartsWith(rest, ']') {
          return Ok((arr, rest[1..]));
        }
        PrependItemsTwice(was, v.value.0, ParseItems(rest));
      } else if StartsWith(rest, ']') {
        return Ok((arr, rest[1..]));
      } else {
        return Err(MalformedArray);
      }
    }
  }

  method ReadInlineTable(s: string) returns (r: Parsed<seq<Entry>>)
    requires |s| > 0
    ensures r == ParseTable(s)
    decreases |s|, 1
  {
    var rest := TrimStart(s[1..]);
    var obj: seq<Entry> := [];
    if StartsWith(rest, '}') {
      return Ok((obj, rest[1..]));
    }
    while true
      invariant |rest| < |s| && ParseTable(s) == ParseEntries(rest, obj)
      decreases |rest|
    {
      var eq := FindTopLevelEquals(rest);
      if eq == -1 {
        return Err(MalformedTable);
      }
      var key := SplitDottedKey(Trim(rest[..eq]));
      if key.Err? {
        return Err(key.error);
      }
      var v := ReadValue(rest[eq + 1..]);
      if v.Err? {
        return Err(v.error);
      }
      var next := Assign(obj, key.value, v.value.0);
      if next.Err? {
        return Err(next.error);
      }
      obj := next.value;
      rest := TrimStart(v.value.1);
      if StartsWith(rest, ',') {
        rest := TrimStart(rest[1..]);
      } else if StartsWith(rest, '}') {
        return Ok((obj, rest[1..]));
      } else {
        return Err(MalformedTable);
      }
    }
  }
}
