/**
 * Which texts are read as which dotted keys (packages/config/src/provider.ts:246-283).
 * A `Key` is one segment as written, with the white space and the dot that belong to it.
 */
module TomlKeys {
  import opened Common
  import opened Toml
  import opened Whitespace

  datatype Key =
    | Bare(lead: string, name: string, trail: string, dot: bool)
    | Quoted(name: string, quote: char, gap: string)
    | Unclosed(name: string, quote: char)  // the closing quote is missing

  function KeyText(k: Key): string {
    match k
    case Bare(lead, name, trail, dot) => lead + (name + (trail + if dot then "." else ""))
    case Quoted(name, q, gap) => [q] + (name + ([q] + gap))
    case Unclosed(name, q) => [q] + name
  }

  function PathText(keys: seq<Key>): string {
    if |keys| == 0 then "" else KeyText(keys[0]) + PathText(keys[1..])
  }

  function Names(keys: seq<Key>): (names: seq<string>)
    ensures |names| == |keys|
  {
    if |keys| == 0 then [] else [keys[0].name] + Names(keys[1..])
  }

  predicate AllSpace(s: string) {
    forall i :: 0 <= i < |s| ==> IsSpace(s[i])
  }

  predicate IsQuote(c: char) {
    c == '"' || c == '\''
  }

  /** What can stand without quotes: trimmed, not empty and without a dot. */
  predicate Segment(name: string) {
    |name| > 0 && !IsSpace(name[0]) && !IsSpace(name[|name| - 1]) && '.' !in name
  }

  predicate IsGap(s: string) {
    forall i :: 0 <= i < |s| ==> s[i] == ' ' || s[i] == '.'
  }

  /** A bare segment may open with a quote only behind white space. */
  predicate GoodKey(k: Key) {
    match k
    case Bare(lead, name, trail, _) =>
      AllSpace(lead) && AllSpace(trail) && Segment(name) && (lead == "" ==> !IsQuote(name[0]))
    case Quoted(name, q, gap) => IsQuote(q) && q !in name && IsGap(gap)
    case Unclosed(name, q) => IsQuote(q) && q !in name
  }

  /** `more` may follow `k`. */
  predicate Precedes(k: Key, more: seq<Key>) {
    match k
    case Bare(_, _, _, dot) => dot || more == []
    case Quoted(_, _, _) => SkipDots(PathText(more)) == PathText(more)
    case Unclosed(_, _) => more == []
  }

  predicate Splits(keys: seq<Key>) {
    |keys| > 0 ==> GoodKey(keys[0]) && Precedes(keys[0], keys[1..]) && Splits(keys[1..])
  }

  // ---- white space ----

  lemma {:induction false} TrimPad(pad: string, s: string)
    requires AllSpace(pad)
    ensures TrimStart(pad + s) == TrimStart(s)
  {
    if |pad| > 0 {
      assert (pad + s)[1..] == pad[1..] + s;
      TrimPad(pad[1..], s);
    } else {
      assert pad + s == s;
    }
  }

  lemma {:induction false} TrimEndPad(s: string, pad: string)
    requires AllSpace(pad) && |s| > 0 && !IsSpace(s[|s| - 1])
    ensures TrimEnd(s + pad) == s
  {
    if |pad| > 0 {
      assert (s + pad)[..|s + pad| - 1] == s + pad[..|pad| - 1];
      TrimEndPad(s, pad[..|pad| - 1]);
    } else {
      assert s + pad == s;
    }
  }

  predicate Trimmed(s: string) {
    |s| > 0 && !IsSpace(s[0]) && !IsSpace(s[|s| - 1])
  }

  lemma TrimPadded(lead: string, s: string, trail: string)
    requires AllSpace(lead) && AllSpace(trail) && Trimmed(s)
    ensures Trim(lead + (s + trail)) == s
  {
    TrimPad(lead, s + trail);
    TrimEndPad(s, trail);
    assert TrimStart(s + trail) == s + trail;
  }

  lemma {:induction false} TrimStartSplits(s: string) returns (lead: string)
    ensures s == lead + TrimStart(s) && AllSpace(lead) && (|s| > 0 && !IsSpace(s[0]) ==> lead == "")
  {
    hide IsSpace;
    if |s| > 0 && IsSpace(s[0]) {
      var more := TrimStartSplits(s[1..]);
      lead := [s[0]] + more;
      assert s == [s[0]] + s[1..];
    } else {
      lead := "";
    }
  }

  lemma {:induction false} TrimEndSplits(s: string) returns (trail: string)
    ensures s == TrimEnd(s) + trail && AllSpace(trail)
    ensures |TrimEnd(s)| > 0 ==> !IsSpace(TrimEnd(s)[|TrimEnd(s)| - 1])
  {
    hide IsSpace;
    if |s| > 0 && IsSpace(s[|s| - 1]) {
      var more := TrimEndSplits(s[..|s| - 1]);
      trail := more + [s[|s| - 1]];
      assert s == s[..|s| - 1] + [s[|s| - 1]];
    } else {
      trail := "";
    }
  }

  /** Trimming takes white space off both ends and leaves none there. */
  lemma TrimSplits(s: string) returns (lead: string, trail: string)
    ensures s == lead + (Trim(s) + trail) && AllSpace(lead) && AllSpace(trail)
    ensures Trim(s) != "" ==> Trimmed(Trim(s))
    ensures |s| > 0 && !IsSpace(s[0]) ==> lead == ""
  {
    hide IsSpace, TrimStart, TrimEnd, AllSpace;
    lead := TrimStartSplits(s);
    trail := TrimEndSplits(TrimStart(s));
    assert |Trim(s)| > 0 ==> Trim(s)[0] == TrimStart(s)[0];
  }

  // ---- splitting: the texts that split are the written paths ----

  lemma {:induction false} IndexOfAt(name: string, c: char, rest: string)
    requires c !in name && (rest == "" || rest[0] == c)
    ensures IndexOf(name + rest, c) == |name|
  {
    if |name| > 0 {
      assert (name + rest)[1..] == name[1..] + rest;
      assert forall x :: x in name[1..] ==> x in name;
      IndexOfAt(name[1..], c, rest);
    } else {
      assert name + rest == rest;
    }
  }

  lemma {:induction false} BeforeFirst(s: string, c: char)
    ensures c !in s[..IndexOf(s, c)]
  {
    if |s| > 0 && s[0] != c {
      BeforeFirst(s[1..], c);
      assert s[..IndexOf(s, c)] == [s[0]] + s[1..][..IndexOf(s[1..], c)];
    }
  }

  lemma {:induction false} SkipsGap(gap: string, rest: string)
    requires IsGap(gap) && SkipDots(rest) == rest
    ensures SkipDots(gap + rest) == rest
  {
    if |gap| > 0 {
      assert (gap + rest)[1..] == gap[1..] + rest;
      SkipsGap(gap[1..], rest);
    } else {
      assert gap + rest == rest;
    }
  }

  lemma {:induction false} GapSkipped(s: string) returns (gap: string)
    ensures IsGap(gap) && s == gap + SkipDots(s) && SkipDots(SkipDots(s)) == SkipDots(s)
  {
    gap := "";
    if |s| > 0 && (s[0] == ' ' || s[0] == '.') {
      var more := GapSkipped(s[1..]);
      gap := [s[0]] + more;
      assert s == [s[0]] + s[1..];
    }
  }

  lemma SpaceHasNoDot(s: string)
    requires AllSpace(s)
    ensures '.' !in s
  {
    assert !IsSpace('.');
  }

  lemma BareSplits(lead: string, name: string, trail: string, tail: string, rest: string)
    requires AllSpace(lead) && AllSpace(trail) && Segment(name) && (lead == "" ==> !IsQuote(name[0]))
    requires SplitParts(rest).Ok? && (tail == rest == "" || tail == "." + rest)
    ensures SplitParts((lead + (name + trail)) + tail) == Ok([name] + SplitParts(rest).value)
  {
    var raw := lead + (name + trail);
    var t := raw + tail;
    hide *;
    SpaceHasNoDot(lead);
    SpaceHasNoDot(trail);
    SegmentIs(name);
    IndexOfAt(raw, '.', tail);
    TrimPadded(lead, name, trail);
    RawOpens(lead, name, trail);
    assert t[..|raw|] == raw && t[0] == raw[0];
    assert After(t, |raw|) == rest by { Behind(raw, tail, rest); }
    BareTurn(t);
  }

  lemma SegmentIs(name: string)
    ensures Segment(name) <==> Trimmed(name) && '.' !in name
    ensures Segment(name) ==> |name| > 0
  {
  }

  lemma RawOpens(lead: string, name: string, trail: string)
    requires AllSpace(lead) && |name| > 0 && (lead == "" ==> !IsQuote(name[0]))
    ensures |lead + (name + trail)| > 0 && !IsQuote((lead + (name + trail))[0])
  {
    SpaceIsInert(lead);
  }

  lemma Behind(raw: string, tail: string, rest: string)
    requires tail == rest == "" || tail == "." + rest
    ensures After(raw + tail, |raw|) == rest
  {
  }

  lemma QuotedSplits(name: string, q: char, tail: string)
    requires IsQuote(q) && q !in name && (tail == "" || tail[0] == q)
    ensures var rest := SplitParts(SkipDots(tail[if tail == "" then 0 else 1..]));
            rest.Ok? ==> SplitParts([q] + (name + tail)) == Ok([name] + rest.value)
  {
    var t := [q] + (name + tail);
    assert t[1..] == name + tail;
    IndexOfAt(name, q, tail);
    assert t[1..][..|name|] == name;
    assert After(t[1..], |name|) == tail[if tail == "" then 0 else 1..];
    hide SkipDots, IndexOf, Trim;
  }

  lemma KeySplits(k: Key, more: seq<Key>)
    requires GoodKey(k) && Precedes(k, more) && SplitParts(PathText(more)).Ok?
    ensures SplitParts(KeyText(k) + PathText(more)) == Ok([k.name] + SplitParts(PathText(more)).value)
  {
    var rest := PathText(more);
    hide SplitParts, SkipDots, PathText;
    match k {
      case Bare(lead, name, trail, dot) =>
        var tail := (if dot then "." else "") + rest;
        assert KeyText(k) + rest == (lead + (name + trail)) + tail;
        NoKeys(more);
        BareSplits(lead, name, trail, tail, rest);
      case Quoted(name, q, gap) =>
        assert KeyText(k) + rest == [q] + (name + ([q] + (gap + rest)));
        assert ([q] + (gap + rest))[1..] == gap + rest;
        SkipsGap(gap, rest);
        QuotedSplits(name, q, [q] + (gap + rest));
      case Unclosed(name, q) =>
        NoKeys(more);
        assert KeyText(k) + rest == [q] + (name + "");
        QuotedSplits(name, q, "");
    }
  }

  lemma NoKeys(keys: seq<Key>)
    ensures keys == [] ==> PathText(keys) == "" && SkipDots("") == "" && SplitParts("") == Ok([])
  {
  }

  lemma {:induction false} PathSplits(keys: seq<Key>)
    requires Splits(keys)
    ensures SplitParts(PathText(keys)) == Ok(Names(keys))
  {
    if |keys| > 0 {
      PathSplits(keys[1..]);
      KeySplits(keys[0], keys[1..]);
    }
  }

  /** The first segment of a text that splits, as it is written. */
  lemma FirstKey(t: string) returns (k: Key, rest: string)
    requires SplitParts(t).Ok? && t != ""
    ensures GoodKey(k) && t == KeyText(k) + rest
    ensures SplitParts(rest).Ok? && SplitParts(t) == Ok([k.name] + SplitParts(rest).value)
    ensures match k
            case Bare(_, _, _, dot) => dot || rest == ""
            case Quoted(_, _, _) => SkipDots(rest) == rest
            case Unclosed(_, _) => rest == ""
  {
    hide *;
    QuoteOrNot(t);
    if t[0] == '"' || t[0] == '\'' {
      k, rest := FirstQuoted(t);
    } else {
      k, rest := FirstBare(t);
    }
  }

  lemma QuoteOrNot(t: string)
    requires t != ""
    ensures IsQuote(t[0]) <==> t[0] == '"' || t[0] == '\''
  {
  }

  lemma FirstQuoted(t: string) returns (k: Key, rest: string)
    requires SplitParts(t).Ok? && t != "" && IsQuote(t[0])
    ensures !k.Bare? && GoodKey(k) && t == KeyText(k) + rest
    ensures SplitParts(rest).Ok? && SplitParts(t) == Ok([k.name] + SplitParts(rest).value)
    ensures if k.Quoted? then SkipDots(rest) == rest else rest == ""
  {
    var j := IndexOf(t[1..], t[0]);
    var name, after := t[1..][..j], After(t[1..], j);
    rest := SkipDots(after);
    hide *;
    QuotedTurn(t);
    BeforeFirst(t[1..], t[0]);
    var gap := GapSkipped(after);
    k := QuotedAs(t, j, gap, rest);
  }

  lemma QuotedAs(t: string, j: nat, gap: string, rest: string) returns (k: Key)
    requires t != "" && j < |t| && IsQuote(t[0]) && t[0] !in t[1..][..j] && (j < |t| - 1 ==> t[1..][j] == t[0])
    requires IsGap(gap) && After(t[1..], j) == gap + rest && rest == SkipDots(gap + rest) == SkipDots(rest)
    ensures !k.Bare? && GoodKey(k) && k.name == t[1..][..j] && t == KeyText(k) + rest
    ensures k.Unclosed? ==> rest == ""
  {
    var name := t[1..][..j];
    k := if j < |t| - 1 then Quoted(name, t[0], gap) else Unclosed(name, t[0]);
    assert k.Quoted? ==> t == [t[0]] + (name + ([t[0]] + After(t[1..], j)));
    assert k.Unclosed? ==> After(t[1..], j) == "" && t == [t[0]] + name;
    hide After, SkipDots, IsQuote, IsGap;
  }

  /** One turn of the loop at a quote. */
  lemma QuotedTurn(t: string)
    requires t != "" && IsQuote(t[0])
    ensures var j := IndexOf(t[1..], t[0]); var rest := SkipDots(After(t[1..], j));
            SplitParts(t) ==
              if SplitParts(rest).Ok? then Ok([t[1..][..j]] + SplitParts(rest).value) else SplitParts(rest)
  {
    hide IndexOf, After, SkipDots;
  }

  /** One turn of the loop elsewhere. */
  lemma BareTurn(t: string)
    requires t != "" && !IsQuote(t[0])
    ensures var j := IndexOf(t, '.'); var rest := After(t, j);
            SplitParts(t) ==
              if Trim(t[..j]) == "" then Err(EmptyKey)
              else if SplitParts(rest).Ok? then Ok([Trim(t[..j])] + SplitParts(rest).value)
              else SplitParts(rest)
  {
    hide IndexOf, After, Trim;
  }

  lemma FirstBare(t: string) returns (k: Key, rest: string)
    requires SplitParts(t).Ok? && t != "" && !IsQuote(t[0])
    ensures k.Bare? && GoodKey(k) && t == KeyText(k) + rest && (k.dot || rest == "")
    ensures SplitParts(rest).Ok? && SplitParts(t) == Ok([k.name] + SplitParts(rest).value)
  {
    var j := IndexOf(t, '.');
    var raw := t[..j];
    rest := After(t, j);
    hide *;
    BareTurn(t);
    BeforeFirst(t, '.');
    var lead, trail := TrimSplits(raw);
    k := Bare(lead, Trim(raw), trail, j < |t|);
    PartKeeps(lead, Trim(raw), trail, '.');
    AfterDot(t, j);
    BareShape(k, t, raw, rest);
  }

  lemma AfterDot(t: string, j: nat)
    requires j <= |t| && (j < |t| ==> t[j] == '.')
    ensures t == t[..j] + ((if j < |t| then "." else "") + After(t, j)) && (j < |t| || After(t, j) == "")
  {
  }

  lemma BareShape(k: Key, t: string, raw: string, rest: string)
    requires k.Bare? && AllSpace(k.lead) && AllSpace(k.trail) && Trimmed(k.name) && '.' !in k.name
    requires raw == k.lead + (k.name + k.trail) && t == raw + ((if k.dot then "." else "") + rest)
    requires t != "" && !IsQuote(t[0])
    ensures GoodKey(k) && t == KeyText(k) + rest
  {
    hide IsSpace;
    assert k.lead == "" ==> t[0] == k.name[0];
  }

  lemma PartKeeps(a: string, b: string, c: string, x: char)
    ensures x in b ==> x in a + (b + c)
  {
    if i :| 0 <= i < |b| && b[i] == x { assert (a + (b + c))[|a| + i] == x; }
  }

  lemma {:induction false} WrittenAs(t: string) returns (keys: seq<Key>)
    requires SplitParts(t).Ok?
    ensures Splits(keys) && PathText(keys) == t && SplitParts(t) == Ok(Names(keys))
    decreases |t|
  {
    keys := [];
    if t != "" {
      var k, rest := FirstKey(t);
      KeyNotEmpty(k);
      var more := WrittenAs(rest);
      keys := [k] + more;
      assert keys[1..] == more;
      NothingWritten(more);
    }
  }

  lemma KeyNotEmpty(k: Key)
    requires GoodKey(k)
    ensures |KeyText(k)| > 0
  {
  }

  lemma NothingWritten(keys: seq<Key>)
    requires Splits(keys)
    ensures PathText(keys) == "" <==> keys == []
  {
    if keys != [] { KeyNotEmpty(keys[0]); }
  }

  /** A text splits into `names` exactly when it is one of the ways of writing them. */
  lemma SplitIff(t: string, names: seq<string>)
    ensures SplitParts(t) == Ok(names) <==> exists keys :: Splits(keys) && PathText(keys) == t && Names(keys) == names
  {
    if SplitParts(t) == Ok(names) { var keys := WrittenAs(t); }
    if keys :| Splits(keys) && PathText(keys) == t && Names(keys) == names { PathSplits(keys); }
  }

  // ---- scanning: the path must close its quotes and keep every `=` inside them ----

  /** Where a scan for a character outside quotes stands; `Found` when it has met one. */
  datatype Scan = Outside | Inside(quote: char) | Found

  function ScanChar(st: Scan, c: char, stop: char): Scan {
    match st
    case Found => Found
    case Inside(q) => if c == q then Outside else st
    case Outside => if IsQuote(c) then Inside(c) else if c == stop then Found else Outside
  }

  function ScanText(s: string, st: Scan, stop: char): Scan {
    if |s| == 0 then st else ScanText(s[1..], ScanChar(st, s[0], stop), stop)
  }

  lemma {:induction false} ScanConcat(a: string, b: string, st: Scan, stop: char)
    ensures ScanText(a + b, st, stop) == ScanText(b, ScanText(a, st, stop), stop)
  {
    if |a| > 0 {
      assert (a + b)[1..] == a[1..] + b;
      ScanConcat(a[1..], b, ScanChar(st, a[0], stop), stop);
    } else {
      assert a + b == b;
    }
  }

  /** Characters that neither quote nor equal anything leave the scan as it is. */
  predicate Inert(w: string) {
    forall i :: 0 <= i < |w| ==> w[i] != '=' && !IsQuote(w[i])
  }

  predicate AtRest(st: Scan) {
    st.Inside? ==> IsQuote(st.quote)
  }

  lemma {:induction false} InertScan(w: string, st: Scan)
    requires Inert(w) && AtRest(st)
    ensures ScanText(w, st, '=') == st
  {
    if |w| > 0 { InertScan(w[1..], st); }
  }

  lemma {:induction false} StaysAtRest(s: string, st: Scan, stop: char)
    requires AtRest(st)
    ensures AtRest(ScanText(s, st, stop))
  {
    if |s| > 0 { StaysAtRest(s[1..], ScanChar(st, s[0], stop), stop); }
  }

  lemma SpaceIsInert(pad: string)
    requires AllSpace(pad)
    ensures Inert(pad)
  {
    forall i | 0 <= i < |pad| ensures pad[i] != '=' && !IsQuote(pad[i]) { assert IsSpace(pad[i]); }
  }

  function OpenQuote(st: Scan): Option<char> {
    if st.Inside? then Some(st.quote) else None
  }

  /** Past a text whose scan comes to rest outside quotes, the search starts afresh. */
  lemma {:induction false} SearchAfter(t: string, st: Scan, stop: char, rest: string)
    requires ScanText(t, st, stop) == Outside
    ensures FindOutside(t + rest, stop, OpenQuote(st)) == |t| + FindOutside(rest, stop, None)
  {
    if |t| > 0 {
      assert (t + rest)[1..] == t[1..] + rest;
      StaysFound(t[1..], stop);
      SearchAfter(t[1..], ScanChar(st, t[0], stop), stop, rest);
    } else {
      assert t + rest == rest;
    }
  }

  lemma {:induction false} StaysFound(t: string, stop: char)
    ensures ScanText(t, Found, stop) == Found
  {
    if |t| > 0 { StaysFound(t[1..], stop); }
  }

  /** What stands before the character that is found comes to rest outside quotes. */
  lemma {:induction false} BeforeFound(s: string, st: Scan, stop: char)
    requires st != Found && FindOutside(s, stop, OpenQuote(st)) < |s|
    ensures ScanText(s[..FindOutside(s, stop, OpenQuote(st))], st, stop) == Outside
    ensures s[FindOutside(s, stop, OpenQuote(st))] == stop
  {
    var i := FindOutside(s, stop, OpenQuote(st));
    if i > 0 {
      BeforeFound(s[1..], ScanChar(st, s[0], stop), stop);
      assert s[..i][1..] == s[1..][..i - 1];
    }
  }

  /** A key text that the table reader finds before its `=` and splits, trimmed. */
  predicate GoodPath(keys: seq<Key>) {
    && |keys| > 0 && Splits(keys) && Trimmed(PathText(keys)) && ScanText(PathText(keys), Outside, '=') == Outside
  }

  /** The key, its padding and the `=` sign are found and split again. */
  lemma KeyRead(keys: seq<Key>, gap: string, rest: string)
    requires GoodPath(keys) && AllSpace(gap)
    ensures var key := PathText(keys) + gap; var t := key + ("=" + rest);
            && FindOutside(t, '=', None) == |key| < |t| && t[..|key|] == key && t[|key| + 1..] == rest
            && SplitKey(Trim(key)) == Ok(Names(keys))
  {
    var p := PathText(keys);
    hide *;
    KeyScanned(keys, gap);
    SearchAfter(p + gap, Outside, '=', "=" + rest);
    EqualsHere(rest);
    var key := p + gap;
    assert (key + ("=" + rest))[..|key|] == key && (key + ("=" + rest))[|key| + 1..] == rest;
    PathIsKey(keys);
    TrimPadded("", p, gap);
    assert "" + (p + gap) == p + gap;
  }

  lemma KeyScanned(keys: seq<Key>, gap: string)
    requires GoodPath(keys) && AllSpace(gap)
    ensures ScanText(PathText(keys) + gap, Outside, '=') == Outside && OpenQuote(Outside) == None
    ensures Trimmed(PathText(keys)) && AllSpace("")
  {
    SpaceIsInert(gap);
    ScanConcat(PathText(keys), gap, Outside, '=');
    InertScan(gap, Outside);
  }

  lemma EqualsHere(rest: string)
    ensures FindOutside("=" + rest, '=', None) == 0
  {
  }

  lemma PathIsKey(keys: seq<Key>)
    requires GoodPath(keys)
    ensures SplitKey(PathText(keys)) == Ok(Names(keys))
  {
    PathSplits(keys);
    assert Names(keys) != [];
  }

  /** And every key that is found and split is such a path, with white space around it. */
  lemma KeyIsPath(s: string) returns (lead: string, keys: seq<Key>, gap: string)
    requires var eq := FindOutside(s, '=', None); eq < |s| && SplitKey(Trim(s[..eq])).Ok?
    ensures AllSpace(lead) && GoodPath(keys) && AllSpace(gap)
    ensures var eq := FindOutside(s, '=', None);
            s[..eq] == lead + (PathText(keys) + gap) && SplitKey(Trim(s[..eq])) == Ok(Names(keys)) && s[eq] == '='
    ensures |s| > 0 && !IsSpace(s[0]) ==> lead == ""
  {
    var eq := FindOutside(s, '=', None);
    hide FindOutside, Trim, IsSpace, ScanText;
    assert OpenQuote(Outside) == None;
    BeforeFound(s, Outside, '=');
    var before := s[..eq];
    lead, gap := TrimSplits(before);
    var p := Trim(before);
    keys := WrittenAs(p);
    NothingWritten(keys);
    assert p != "";
    assert before[0] == s[0];
    Unpadded(lead, p, gap);
  }

  lemma Unpadded(lead: string, p: string, gap: string)
    requires AllSpace(lead) && AllSpace(gap) && ScanText(lead + (p + gap), Outside, '=') == Outside
    ensures ScanText(p, Outside, '=') == Outside
  {
    SpaceIsInert(lead);
    SpaceIsInert(gap);
    ScanConcat(lead, p + gap, Outside, '=');
    ScanConcat(p, gap, Outside, '=');
    InertScan(lead, Outside);
    StaysAtRest(p, Outside, '=');
    InertScan(gap, ScanText(p, Outside, '='));
  }
}
