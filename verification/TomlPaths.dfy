/**
 * Which lists of names some text is read as.  `Write` looks for a way of writing them, and
 * finds one exactly when there is one.
 */
module TomlPaths {
  import opened Common
  import opened Toml
  import opened TomlKeys
  import opened Whitespace

  /** The ways worth trying for one name: quoted, bare, and at the end with its closing quote left out. */
  function Ways(name: string, first: bool, last: bool, unclosed: bool): seq<Key> {
    var gap := if last then "" else ".";
    var lead := if !first && |name| > 0 && IsQuote(name[0]) then "\t" else "";
    [Quoted(name, '"', gap), Quoted(name, '\'', gap), Bare(lead, name, "", !last)] +
    if unclosed && last && (name == "" || !IsSpace(name[|name| - 1]))
    then [Unclosed(name, '"'), Unclosed(name, '\'')] else []
  }

  /**
   * The names written so that a scan in state `st` ends outside quotes.  `first` says that
   * the text begins here, `unclosed` that the last closing quote may be missing.
   */
  function Write(names: seq<string>, first: bool, st: Scan, unclosed: bool): Option<seq<Key>>
    decreases |names|, 0
  {
    if |names| > 0 then WriteOneOf(Ways(names[0], first, |names| == 1, unclosed), names[1..], st, unclosed)
    else if st == Outside then Some([])
    else None
  }

  /** The first way that is a key and lets `names` follow. */
  function WriteOneOf(ways: seq<Key>, names: seq<string>, st: Scan, unclosed: bool): Option<seq<Key>>
    decreases |names|, 1 + |ways|
  {
    if |ways| == 0 then None
    else
      var more := Write(names, false, ScanText(KeyText(ways[0]), st, '='), unclosed);
      if GoodKey(ways[0]) && more.Some? then Some([ways[0]] + more.value)
      else WriteOneOf(ways[1..], names, st, unclosed)
  }

  predicate Closed(keys: seq<Key>) {
    forall i :: 0 <= i < |keys| ==> !keys[i].Unclosed?
  }

  lemma {:induction false} OneWasFound(ways: seq<Key>, names: seq<string>, st: Scan, unclosed: bool)
    requires WriteOneOf(ways, names, st, unclosed).Some?
    ensures var keys := WriteOneOf(ways, names, st, unclosed).value;
            && |keys| > 0 && keys[0] in ways && GoodKey(keys[0])
            && Write(names, false, ScanText(KeyText(keys[0]), st, '='), unclosed) == Some(keys[1..])
  {
    hide GoodKey, ScanText, Write;
    var more := Write(names, false, ScanText(KeyText(ways[0]), st, '='), unclosed);
    if GoodKey(ways[0]) && more.Some? {
      assert ([ways[0]] + more.value)[1..] == more.value;
    } else {
      OneWasFound(ways[1..], names, st, unclosed);
      assert forall k :: k in ways[1..] ==> k in ways;
    }
  }

  lemma {:induction false} OneIsFound(ways: seq<Key>, i: nat, names: seq<string>, st: Scan, unclosed: bool)
    requires i < |ways| && GoodKey(ways[i])
    requires Write(names, false, ScanText(KeyText(ways[i]), st, '='), unclosed).Some?
    ensures WriteOneOf(ways, names, st, unclosed).Some?
  {
    hide GoodKey, ScanText, Write;
    if i > 0 { OneIsFound(ways[1..], i - 1, names, st, unclosed); }
  }

  /** What is true of the text of a path. */
  predicate Edges(t: string, first: bool) {
    && |t| > 0 && t[0] != ' ' && t[0] != '.' && (first ==> !IsSpace(t[0])) && !IsSpace(t[|t| - 1])
  }

  lemma WayEdges(name: string, first: bool, last: bool, unclosed: bool, k: Key, more: string)
    requires k in Ways(name, first, last, unclosed) && GoodKey(k)
    requires if last then more == "" else Edges(more, false)
    ensures k.name == name && Edges(KeyText(k) + more, first)
    ensures (k.Unclosed? ==> unclosed && last) && (k.Bare? ==> k.dot == !last)
  {
    hide *;
    WayIs(name, first, last, unclosed, k);
    NoEdges(more);
    WayEnds(name, first, last, unclosed, k);
    EdgesTogether(KeyText(k), more, first);
  }

  lemma NoEdges(t: string)
    ensures Edges(t, false) ==> t != ""
  {
  }

  lemma WayIs(name: string, first: bool, last: bool, unclosed: bool, k: Key)
    requires k in Ways(name, first, last, unclosed)
    ensures k.name == name && (k.Unclosed? ==> unclosed && last) && (k.Bare? ==> k.dot == !last)
  {
  }

  lemma WayEnds(name: string, first: bool, last: bool, unclosed: bool, k: Key)
    requires k in Ways(name, first, last, unclosed) && GoodKey(k)
    ensures var t := KeyText(k);
            |t| > 0 && t[0] != ' ' && t[0] != '.' && (first ==> !IsSpace(t[0])) && (last ==> !IsSpace(t[|t| - 1]))
  {
    var t := KeyText(k);
    match k {
      case Bare(lead, _, _, dot) =>
        assert t[0] == if lead == "" then name[0] else '\t';
        assert last ==> t == lead + name;
        NoDotInside(name);
      case Quoted(_, q, _) => assert !IsSpace(q); assert last ==> t == [q] + name + [q];
      case Unclosed(_, q) => assert !IsSpace(q);
    }
  }

  lemma EdgesTogether(t: string, more: string, first: bool)
    requires |t| > 0 && t[0] != ' ' && t[0] != '.' && (first ==> !IsSpace(t[0]))
    requires if more == "" then !IsSpace(t[|t| - 1]) else Edges(more, false)
    ensures Edges(t + more, first)
  {
    hide IsSpace;
    assert more == "" ==> t + more == t;
    assert more != "" ==> (t + more)[|t + more| - 1] == more[|more| - 1];
  }

  lemma NoDotInside(name: string)
    requires Segment(name)
    ensures name[0] != '.' && name[0] != ' '
  {
    assert name[0] in name;
  }

  lemma SkipsNothing(t: string)
    requires t == "" || Edges(t, false)
    ensures SkipDots(t) == t
  {
  }

  /** `keys` is a way of writing `names` from the state `st`. */
  predicate Writes(keys: seq<Key>, names: seq<string>, first: bool, st: Scan, unclosed: bool) {
    && Names(keys) == names && Splits(keys) && ScanText(PathText(keys), st, '=') == Outside
    && (if |names| == 0 then PathText(keys) == "" else Edges(PathText(keys), first))
    && (!unclosed ==> Closed(keys))
  }

  lemma {:induction false} WriteIsGood(names: seq<string>, first: bool, st: Scan, unclosed: bool)
    requires Write(names, first, st, unclosed).Some?
    ensures Writes(Write(names, first, st, unclosed).value, names, first, st, unclosed)
    decreases |names|
  {
    var keys := Write(names, first, st, unclosed).value;
    if |names| > 0 {
      OneWasFound(Ways(names[0], first, |names| == 1, unclosed), names[1..], st, unclosed);
      hide *;
      WriteIsGood(names[1..], false, ScanText(KeyText(keys[0]), st, '='), unclosed);
      OneMore(keys, names, first, st, unclosed);
    }
  }

  lemma OneMore(keys: seq<Key>, names: seq<string>, first: bool, st: Scan, unclosed: bool)
    requires |keys| > 0 && |names| > 0 && GoodKey(keys[0])
    requires keys[0] in Ways(names[0], first, |names| == 1, unclosed)
    requires Writes(keys[1..], names[1..], false, ScanText(KeyText(keys[0]), st, '='), unclosed)
    ensures Writes(keys, names, first, st, unclosed)
  {
    var k, more := keys[0], PathText(keys[1..]);
    var last := |names| == 1;
    hide *;
    WritesIs(keys[1..], names[1..], false, ScanText(KeyText(k), st, '='), unclosed);
    WritesIs(keys, names, first, st, unclosed);
    WayEdges(names[0], first, last, unclosed, k, more);
    SkipsNothing(more);
    ScanConcat(KeyText(k), more, st, '=');
    KeyAndMore(keys, last);
    ClosedMore(keys);
    FirstOf(names);
  }

  lemma FirstOf(names: seq<string>)
    requires |names| > 0
    ensures names == [names[0]] + names[1..] && (|names| == 1 <==> names[1..] == [])
  {
  }

  lemma WritesIs(keys: seq<Key>, names: seq<string>, first: bool, st: Scan, unclosed: bool)
    ensures Writes(keys, names, first, st, unclosed) <==>
              && Names(keys) == names && Splits(keys) && ScanText(PathText(keys), st, '=') == Outside
              && (if |names| == 0 then PathText(keys) == "" else Edges(PathText(keys), first))
              && (!unclosed ==> Closed(keys))
  {
  }

  lemma ClosedMore(keys: seq<Key>)
    requires |keys| > 0
    ensures Closed(keys) <==> !keys[0].Unclosed? && Closed(keys[1..])
  {
  }

  lemma KeyAndMore(keys: seq<Key>, last: bool)
    requires |keys| > 0 && GoodKey(keys[0]) && Splits(keys[1..]) && SkipDots(PathText(keys[1..])) == PathText(keys[1..])
    requires (keys[0].Unclosed? ==> last) && (keys[0].Bare? ==> keys[0].dot == !last) && (last <==> Names(keys[1..]) == [])
    ensures Splits(keys) && Names(keys) == [keys[0].name] + Names(keys[1..])
    ensures PathText(keys) == KeyText(keys[0]) + PathText(keys[1..])
  {
    hide GoodKey, SkipDots;
  }

  /** White space, dots and gaps do not move the scan. */
  lemma KeyScan(k: Key, st: Scan)
    requires GoodKey(k) && AtRest(st)
    ensures k.Bare? ==> ScanText(KeyText(k), st, '=') == ScanText(k.name, st, '=')
    ensures k.Quoted? ==> ScanText(KeyText(k), st, '=') == ScanText([k.quote] + (k.name + [k.quote]), st, '=')
  {
    hide ScanText, IsSpace;
    match k {
      case Bare(lead, name, trail, dot) =>
        SpaceIsInert(lead);
        SpaceIsInert(trail);
        ScanBetween(lead, name, trail + if dot then "." else "", st);
      case Quoted(name, q, gap) =>
        assert KeyText(k) == "" + (([q] + (name + [q])) + gap);
        ScanBetween("", [q] + (name + [q]), gap, st);
      case Unclosed(_, _) =>
    }
  }

  lemma ScanBetween(before: string, t: string, after: string, st: Scan)
    requires Inert(before) && Inert(after) && AtRest(st)
    ensures ScanText(before + (t + after), st, '=') == ScanText(t, st, '=')
  {
    hide ScanText;
    ScanConcat(before, t + after, st, '=');
    InertScan(before, st);
    ScanConcat(t, after, st, '=');
    StaysAtRest(t, st, '=');
    InertScan(after, ScanText(t, st, '='));
  }

  /** Every key as written has a way among those tried that scans alike. */
  lemma HasWay(k: Key, first: bool, last: bool, unclosed: bool, st: Scan) returns (i: nat)
    requires GoodKey(k) && AtRest(st) && (k.Unclosed? ==> unclosed && last)
    requires first ==> !IsSpace(KeyText(k)[0])
    requires last && k.Unclosed? ==> !IsSpace(KeyText(k)[|KeyText(k)| - 1])
    ensures var ways := Ways(k.name, first, last, unclosed);
            i < |ways| && GoodKey(ways[i]) && ScanText(KeyText(ways[i]), st, '=') == ScanText(KeyText(k), st, '=')
  {
    var ways := Ways(k.name, first, last, unclosed);
    hide ScanText;
    match k {
      case Bare(lead, name, _, _) =>
        i := 2;
        assert lead != "" ==> KeyText(k)[0] == lead[0];
        assert GoodKey(ways[2]);
      case Quoted(_, q, _) => i := if q == '"' then 0 else 1;
      case Unclosed(name, q) =>
        assert name != "" ==> KeyText(k)[|KeyText(k)| - 1] == name[|name| - 1];
        i := if q == '"' then 3 else 4;
    }
    KeyScan(k, st);
    KeyScan(ways[i], st);
  }

  /** `keys` takes the scan from `st` to rest, outside quotes. */
  predicate Settles(keys: seq<Key>, first: bool, st: Scan, closed: bool) {
    && Splits(keys) && AtRest(st) && ScanText(PathText(keys), st, '=') == Outside
    && (closed ==> Closed(keys)) && (first ==> |keys| > 0)
    && (|keys| > 0 ==> var t := PathText(keys); |t| > 0 && !IsSpace(t[|t| - 1]) && (first ==> !IsSpace(t[0])))
  }

  /** A path, and names that can be written behind it, can be written together. */
  lemma {:induction false} WriteFinds(keys: seq<Key>, names: seq<string>, first: bool, st: Scan, unclosed: bool)
    requires Settles(keys, first, st, !unclosed || names != [])
    requires Write(names, false, Outside, unclosed).Some?
    ensures Write(Names(keys) + names, first, st, unclosed).Some?
  {
    hide *;
    var closed := !unclosed || names != [];
    if |keys| > 0 {
      var k, more := keys[0], keys[1..];
      var last := |more| + |names| == 0;
      SettlesOn(keys, first, st, closed);
      WriteFinds(more, names, false, ScanText(KeyText(k), st, '='), unclosed);
      var i := HasWay(k, first, last, unclosed, st);
      OneIsFound(Ways(k.name, first, last, unclosed), i, Names(more) + names, st, unclosed);
      WriteNext(k.name, Names(more) + names, first, st, unclosed);
      assert ([k.name] + Names(more)) + names == [k.name] + (Names(more) + names);
    } else {
      SettledIs(st, closed, first);
      assert [] + names == names;
    }
  }

  lemma SettledIs(st: Scan, closed: bool, first: bool)
    ensures Settles([], first, st, closed) ==> st == Outside && !first && Names([]) == []
  {
  }

  lemma SettlesOn(keys: seq<Key>, first: bool, st: Scan, closed: bool)
    requires |keys| > 0 && Settles(keys, first, st, closed)
    ensures var k, more := keys[0], keys[1..];
            && GoodKey(k) && AtRest(st) && (k.Unclosed? ==> !closed && more == []) && |KeyText(k)| > 0
            && (first ==> !IsSpace(KeyText(k)[0])) && (k.Unclosed? ==> !IsSpace(KeyText(k)[|KeyText(k)| - 1]))
            && Names(keys) == [k.name] + Names(more) && Settles(more, false, ScanText(KeyText(k), st, '='), closed)
  {
    hide ScanText, Splits, IsSpace, KeyText, PathText, GoodKey, Names, AtRest;
    FirstAndMore(keys);
    ScanConcat(KeyText(keys[0]), PathText(keys[1..]), st, '=');
    StaysAtRest(KeyText(keys[0]), st, '=');
    ClosedMore(keys);
    hide Closed;
  }

  lemma FirstAndMore(keys: seq<Key>)
    requires |keys| > 0 && Splits(keys)
    ensures var t, k, more := PathText(keys), keys[0], PathText(keys[1..]);
            && GoodKey(k) && Splits(keys[1..]) && |KeyText(k)| > 0 && t == KeyText(k) + more && t[0] == KeyText(k)[0]
            && (keys[1..] != [] ==> |more| > 0 && t[|t| - 1] == more[|more| - 1])
            && (keys[1..] == [] ==> t == KeyText(k)) && (k.Unclosed? ==> keys[1..] == [])
            && Names(keys) == [k.name] + Names(keys[1..])
  {
    KeyNotEmpty(keys[0]);
    NothingWritten(keys[1..]);
    hide GoodKey, KeyText, SkipDots;
  }

  lemma WriteNext(name: string, names: seq<string>, first: bool, st: Scan, unclosed: bool)
    ensures Write([name] + names, first, st, unclosed) ==
              WriteOneOf(Ways(name, first, names == [], unclosed), names, st, unclosed)
  {
    assert ([name] + names)[1..] == names;
    hide Ways, WriteOneOf;
  }

  // ---- the names a key text can have ----

  /** The table reader takes `k`, with the white space around it, for the dotted key `names`. */
  ghost predicate KeyReads(k: string, names: seq<string>) {
    FindOutside(k + "=", '=', None) == |k| && SplitKey(Trim(k)) == Ok(names)
  }

  /** The path that is written for `names`. */
  function PathFor(names: seq<string>): Option<seq<Key>> {
    Write(names, true, Outside, false)
  }

  /** Some path that closes its quotes has these names. */
  predicate Nameable(names: seq<string>) {
    |names| > 0 && PathFor(names).Some?
  }

  lemma WrittenIsGood(names: seq<string>, unclosed: bool)
    requires |names| > 0 && Write(names, true, Outside, unclosed).Some?
    ensures var keys := Write(names, true, Outside, unclosed).value;
            GoodPath(keys) && Names(keys) == names && (unclosed || Closed(keys))
  {
    hide Write, ScanText, Splits;
    WriteIsGood(names, true, Outside, unclosed);
  }

  lemma GoodIsWritten(keys: seq<Key>, unclosed: bool)
    requires GoodPath(keys) && (unclosed || Closed(keys))
    ensures |Names(keys)| > 0 && Write(Names(keys), true, Outside, unclosed).Some?
  {
    hide ScanText, Splits, Closed;
    assert Settles(keys, true, Outside, !unclosed);
    WriteFinds(keys, [], true, Outside, unclosed);
    assert Names(keys) + [] == Names(keys);
  }

  /**
   * Some text is read as the dotted key `names` exactly when `Write` finds a way, the last
   * closing quote being optional.
   */
  lemma KeyTextIff(names: seq<string>)
    ensures (exists k :: KeyReads(k, names)) <==> |names| > 0 && Write(names, true, Outside, true).Some?
  {
    if |names| > 0 && Write(names, true, Outside, true).Some? {
      WrittenIsGood(names, true);
      PathReads(Write(names, true, Outside, true).value);
    }
    if k :| KeyReads(k, names) { ReadsPath(k, names); }
  }

  lemma PathReads(keys: seq<Key>)
    requires GoodPath(keys)
    ensures KeyReads(PathText(keys), Names(keys))
  {
    hide *;
    assert AllSpace("") by { NoSpace(); }
    KeyRead(keys, "", "");
    var t := PathText(keys);
    assert t + "" == t && "=" + "" == "=";
    KeyReadsIs(t, Names(keys));
  }

  lemma NoSpace()
    ensures AllSpace("")
  {
  }

  lemma KeyReadsIs(k: string, names: seq<string>)
    ensures KeyReads(k, names) <==> FindOutside(k + "=", '=', None) == |k| && SplitKey(Trim(k)) == Ok(names)
  {
  }

  lemma ReadsPath(k: string, names: seq<string>)
    requires KeyReads(k, names)
    ensures |names| > 0 && Write(names, true, Outside, true).Some?
  {
    assert (k + "=")[..|k|] == k;
    var _, keys, _ := KeyIsPath(k + "=");
    GoodIsWritten(keys, true);
  }

  /** With every quote closed, the names are those `PathFor` writes. */
  lemma NameableIff(names: seq<string>)
    ensures (exists keys :: GoodPath(keys) && Closed(keys) && Names(keys) == names) <==> Nameable(names)
  {
    hide GoodPath, Closed, Write;
    if Nameable(names) { WrittenIsGood(names, false); }
    if keys :| GoodPath(keys) && Closed(keys) && Names(keys) == names { GoodIsWritten(keys, false); }
  }

  /** Paths that close their quotes can be put one behind the other. */
  lemma NameableTogether(a: seq<string>, b: seq<string>)
    requires Nameable(a) && Nameable(b)
    ensures Nameable(a + b)
  {
    hide Write, ScanText, Splits, Closed;
    WrittenIsGood(a, false);
    WrittenIsGood(b, false);
    WriteNothing(Outside, false);
    var front, back := PathFor(a).value, PathFor(b).value;
    assert Settles(back, false, Outside, true) && Settles(front, true, Outside, true);
    WriteFinds(back, [], false, Outside, false);
    assert b + [] == b;
    WriteFinds(front, b, true, Outside, false);
  }

  // ---- single names ----

  predicate Quotable(name: string) {
    '"' !in name || '\'' !in name
  }

  predicate StandsBare(name: string) {
    Segment(name) && !IsQuote(name[0]) && ScanText(name, Outside, '=') == Outside
  }

  lemma QuotedScan(name: string, q: char, tail: string)
    requires IsQuote(q) && q !in name
    ensures ScanText([q] + name, Outside, '=') == Inside(q)
    ensures ScanText([q] + (name + [q]), Outside, '=') == Outside
  {
    assert ([q] + name)[1..] == name;
    ScanInside(name, q);
    ScanConcat([q] + name, [q], Outside, '=');
    assert [q] + (name + [q]) == ([q] + name) + [q];
    assert [q][1..] == "";
  }

  lemma {:induction false} ScanInside(name: string, q: char)
    requires q !in name
    ensures ScanText(name, Inside(q), '=') == Inside(q)
  {
    if |name| > 0 {
      assert forall c :: c in name[1..] ==> c in name;
      ScanInside(name[1..], q);
    }
  }

  lemma WriteNothing(st: Scan, unclosed: bool)
    ensures Write([], false, st, unclosed).Some? <==> st == Outside
  {
  }

  /** A single name can be written when it lacks one of the quotes or can stand bare. */
  lemma OneName(name: string, unclosed: bool)
    ensures Write([name], true, Outside, unclosed).Some? <==> Quotable(name) || StandsBare(name)
  {
    var ways := Ways(name, true, true, unclosed);
    hide *;
    WriteNext(name, [], true, Outside, unclosed);
    assert [name] + [] == [name];
    if WriteOneOf(ways, [], Outside, unclosed).Some? {
      OneWasFound(ways, [], Outside, unclosed);
      var k := WriteOneOf(ways, [], Outside, unclosed).value[0];
      WayIs(name, true, true, unclosed, k);
      WriteNothing(ScanText(KeyText(k), Outside, '='), unclosed);
      WayEnds(name, true, true, unclosed, k);
      WayNeeds(k);
    }
    if Quotable(name) || StandsBare(name) {
      var i := WayFor(name, unclosed);
      WriteNothing(ScanText(KeyText(ways[i]), Outside, '='), unclosed);
      OneIsFound(ways, i, [], Outside, unclosed);
    }
  }

  lemma WayNeeds(k: Key)
    requires GoodKey(k) && !IsSpace(KeyText(k)[0]) && ScanText(KeyText(k), Outside, '=') == Outside
    ensures Quotable(k.name) || (k.Bare? && k.lead == "" && StandsBare(k.name))
  {
    hide ScanText, IsSpace;
    KeyScan(k, Outside);
    if k.Bare? { NoLead(k); }
  }

  lemma NoLead(k: Key)
    requires k.Bare? && GoodKey(k) && |KeyText(k)| > 0 && !IsSpace(KeyText(k)[0])
    ensures k.lead == "" && KeyText(k)[0] == k.name[0]
  {
    assert KeyText(k)[0] == (k.lead + [k.name[0]])[0];
  }

  lemma WayFor(name: string, unclosed: bool) returns (i: nat)
    requires Quotable(name) || StandsBare(name)
    ensures var ways := Ways(name, true, true, unclosed);
            i < |ways| && GoodKey(ways[i]) && ScanText(KeyText(ways[i]), Outside, '=') == Outside
            && (ways[i].Bare? ==> !Quotable(name))
  {
    var ways := Ways(name, true, true, unclosed);
    hide ScanText;
    if !Quotable(name) {
      i := 2;
    } else {
      i := if '"' !in name then 0 else 1;
      QuotedScan(name, ways[i].quote, "");
    }
    KeyScan(ways[i], Outside);
  }

  /**
   * Some text is read as the key `name` exactly when `name` lacks one of the two quotes, or
   * can stand bare: trimmed, without a dot, opening with no quote and closing those it opens.
   */
  lemma KeyWritableIff(name: string)
    ensures (exists k :: KeyReads(k, [name])) <==> Quotable(name) || StandsBare(name)
  {
    KeyTextIff([name]);
    OneName(name, true);
  }

  /**
   * As the first key of a table it must not look like the closing brace either: the reader
   * would take the table for an empty one.
   */
  lemma FirstKeyWritableIff(name: string)
    ensures (exists k :: KeyReads(k, [name]) && !StartsWith(TrimStart(k), '}')) <==>
              Quotable(name) || (StandsBare(name) && name[0] != '}')
  {
    if Quotable(name) || (StandsBare(name) && name[0] != '}') {
      var k := FirstKeyText(name);
      assert KeyReads(k, [name]) && !StartsWith(TrimStart(k), '}');
    }
    if k :| KeyReads(k, [name]) && !StartsWith(TrimStart(k), '}') {
      hide *;
      KeyWritableIff(name);
      if !Quotable(name) { BareOpens(k, name); }
    }
  }

  lemma FirstKeyText(name: string) returns (t: string)
    requires Quotable(name) || (StandsBare(name) && name[0] != '}')
    ensures KeyReads(t, [name]) && !StartsWith(TrimStart(t), '}')
  {
    var i := WayFor(name, false);
    var k := Ways(name, true, true, false)[i];
    hide *;
    WayEnds(name, true, true, false, k);
    WayIs(name, true, true, false, k);
    assert Trimmed(KeyText(k)) by { TrimmedIs(KeyText(k)); }
    WayReads(k);
    KeyOpens(k);
    t := KeyText(k);
  }

  lemma TrimmedIs(s: string)
    ensures Trimmed(s) <==> |s| > 0 && !IsSpace(s[0]) && !IsSpace(s[|s| - 1])
  {
  }

  lemma KeyOpens(k: Key)
    requires GoodKey(k) && !IsSpace(KeyText(k)[0])
    ensures TrimStart(KeyText(k)) == KeyText(k)
    ensures StartsWith(KeyText(k), '}') ==> k.Bare? && k.name[0] == '}'
  {
    if k.Bare? { NoLead(k); }
  }

  lemma WayReads(k: Key)
    requires GoodKey(k) && ScanText(KeyText(k), Outside, '=') == Outside && Trimmed(KeyText(k))
    ensures KeyReads(KeyText(k), [k.name])
  {
    hide ScanText, Trimmed, KeyText, IsSpace;
    assert PathText([k]) == KeyText(k) + "" == KeyText(k) && SkipDots("") == "";
    assert Splits([k]);
    PathReads([k]);
    assert Names([k]) == [k.name];
  }

  lemma BareOpens(k: string, name: string)
    requires KeyReads(k, [name]) && !Quotable(name)
    ensures |name| > 0 && StartsWith(TrimStart(k), name[0])
  {
    assert (k + "=")[..|k|] == k;
    hide IsSpace, ScanText, SplitKey, Trim, TrimStart, FindOutside;
    var lead, keys, gap := KeyIsPath(k + "=");
    assert k == lead + (PathText(keys) + gap) && Names(keys) == [name];
    PathOpens(keys, name);
    TrimPad(lead, PathText(keys) + gap);
    TrimmedStart(PathText(keys), gap);
  }

  lemma TrimmedStart(t: string, gap: string)
    requires Trimmed(t)
    ensures TrimStart(t + gap) == t + gap && StartsWith(t + gap, t[0])
  {
  }

  lemma PathOpens(keys: seq<Key>, name: string)
    requires GoodPath(keys) && Names(keys)[0] == name && !Quotable(name)
    ensures |name| > 0 && Trimmed(PathText(keys)) && PathText(keys)[0] == name[0]
  {
    var k := keys[0];
    FirstAndMore(keys);
    hide IsSpace, ScanText, Splits;
    assert k.Bare?;
    NoLead(k);
  }

  /** A name that cannot be written alone, but before another: the quote it opens closes there. */
  lemma SpanningQuote() returns (keys: seq<Key>)
    ensures Names(keys) == ["a\"b'c", "d\""] && PathText(keys) == "a\"b'c.d\"" && GoodPath(keys) && Closed(keys)
    ensures !Nameable(["a\"b'c"]) && Nameable(["a\"b'c", "d\""])
  {
    var a, b := "a\"b'c", "d\"";
    hide *;
    SpanningText(a, b);
    OpensQuote("b'c");
    ClosesQuote("b'c.d");
    NotAlone(a);
    Plain(a);
    Plain(b);
    keys := TwoBare(a, b);
    GoodIsWritten(keys, false);
    NameableIs(Names(keys));
  }

  lemma NameableIs(names: seq<string>)
    ensures Nameable(names) <==> |names| > 0 && Write(names, true, Outside, false).Some?
  {
  }

  lemma SpanningText(a: string, b: string)
    requires a == "a\"b'c" && b == "d\""
    ensures a == "a" + (['"'] + "b'c") && a + ("." + b) == "a" + (['"'] + ("b'c.d" + ['"'])) == "a\"b'c.d\""
    ensures '"' in a && '\'' in a && '.' !in a && '.' !in b
    ensures a[0] == 'a' && a[|a| - 1] == 'c' && b[0] == 'd' && b[|b| - 1] == '"' && '"' !in "b'c" && '"' !in "b'c.d"
  {
    assert a[1] == '"' && a[3] == '\'';
  }

  lemma NotAlone(name: string)
    requires '"' in name && '\'' in name && ScanText(name, Outside, '=') != Outside
    ensures !Nameable([name])
  {
    OneName(name, false);
  }

  lemma Plain(name: string)
    requires |name| > 0 && '.' !in name && (name[0] == 'a' || name[0] == 'd')
    requires name[|name| - 1] == 'c' || name[|name| - 1] == '"'
    ensures Segment(name) && !IsQuote(name[0])
  {
  }

  lemma TwoBare(a: string, b: string) returns (keys: seq<Key>)
    requires Segment(a) && Segment(b) && !IsQuote(a[0]) && !IsQuote(b[0])
    requires ScanText(a + ("." + b), Outside, '=') == Outside
    ensures Names(keys) == [a, b] && PathText(keys) == a + ("." + b) && GoodPath(keys) && Closed(keys)
  {
    keys := [Bare("", a, "", true), Bare("", b, "", false)];
    BareKeys(keys, a, b);
    hide *;
    TwoKeys(keys);
    SegmentIs(a);
    SegmentIs(b);
    BareTrimmed(a, b);
    GoodPathIs(keys);
  }

  lemma BareKeys(keys: seq<Key>, a: string, b: string)
    requires Segment(a) && Segment(b) && !IsQuote(a[0]) && !IsQuote(b[0])
    requires keys == [Bare("", a, "", true), Bare("", b, "", false)]
    ensures KeyText(keys[0]) + KeyText(keys[1]) == a + ("." + b) && Closed(keys)
    ensures GoodKey(keys[0]) && GoodKey(keys[1]) && Precedes(keys[0], keys[1..]) && Precedes(keys[1], [])
  {
    assert KeyText(keys[0]) == a + "." && KeyText(keys[1]) == b;
    hide KeyText, IsSpace, Segment;
    assert (a + ".") + b == a + ("." + b);
  }

  lemma BareTrimmed(a: string, b: string)
    requires Trimmed(a) && Trimmed(b)
    ensures Trimmed(a + ("." + b))
  {
    hide IsSpace;
  }

  lemma TwoKeys(keys: seq<Key>)
    requires |keys| == 2
    ensures PathText(keys) == KeyText(keys[0]) + KeyText(keys[1]) && Names(keys) == [keys[0].name, keys[1].name]
    ensures Splits(keys) <==> GoodKey(keys[0]) && Precedes(keys[0], keys[1..]) && GoodKey(keys[1]) && Precedes(keys[1], [])
  {
    var one := keys[1..];
    assert one == [keys[1]] && one[1..] == [];
    hide *;
    KeysStep(keys);
    KeysStep(one);
    KeysStep([]);
    assert KeyText(keys[1]) + "" == KeyText(keys[1]);
  }

  lemma KeysStep(keys: seq<Key>)
    ensures if |keys| == 0 then PathText(keys) == "" && Names(keys) == [] && Splits(keys)
            else
              && PathText(keys) == KeyText(keys[0]) + PathText(keys[1..])
              && Names(keys) == [keys[0].name] + Names(keys[1..])
              && (Splits(keys) <==> GoodKey(keys[0]) && Precedes(keys[0], keys[1..]) && Splits(keys[1..]))
  {
    hide KeyText, GoodKey, Precedes;
  }

  lemma OpensQuote(name: string)
    requires '"' !in name
    ensures ScanText("a" + (['"'] + name), Outside, '=') == Inside('"')
  {
    ScanConcat("a", ['"'] + name, Outside, '=');
    QuotedScan(name, '"', "");
    assert "a"[1..] == "";
  }

  lemma ClosesQuote(name: string)
    requires '"' !in name
    ensures ScanText("a" + (['"'] + (name + ['"'])), Outside, '=') == Outside
  {
    ScanConcat("a", ['"'] + (name + ['"']), Outside, '=');
    QuotedScan(name, '"', "");
    assert "a"[1..] == "";
  }

  /** Names that are read only because the last closing quote may be missing. */
  lemma MissingQuote() returns (keys: seq<Key>)
    ensures Names(keys) == ["a\"x'y", "abc"] && PathText(keys) == "a\"x'y.\"abc" && GoodPath(keys)
    ensures !Nameable(["a\"x'y", "abc"])
  {
    var a, b := "a\"x'y", "abc";
    hide *;
    MissingText(a, b);
    OpensQuote("x'y");
    ClosesQuote("x'y.");
    keys := UnclosedPath(a, b, "a" + (['"'] + ("x'y." + ['"'])));
    NameableIs([a, b]);
    if Nameable([a, b]) {
      WrittenIsGood([a, b], false);
      var closed := Write([a, b], true, Outside, false).value;
      PathIs(closed);
      StaysInside(closed, a, b);
    }
  }

  lemma PathIs(keys: seq<Key>)
    requires GoodPath(keys)
    ensures Splits(keys) && ScanText(PathText(keys), Outside, '=') == Outside
  {
  }

  lemma MissingText(a: string, b: string)
    requires a == "a\"x'y" && b == "abc"
    ensures a == "a" + (['"'] + "x'y") && !Quotable(a) && Segment(a) && !IsQuote(a[0])
    ensures '"' !in b && '\'' !in b && Inert(b) && Segment(b) && '"' !in "x'y" && '"' !in "x'y."
    ensures a + ("." + (['"'] + b)) == ("a" + (['"'] + ("x'y." + ['"']))) + b == "a\"x'y.\"abc"
  {
    assert a[1] == '"' && a[3] == '\'' && a[0] == 'a' && a[|a| - 1] == 'y' && b[0] == 'a' && b[2] == 'c';
  }

  lemma UnclosedPath(a: string, b: string, s: string) returns (keys: seq<Key>)
    requires Segment(a) && !IsQuote(a[0]) && '"' !in b && Inert(b) && Segment(b)
    requires a + ("." + (['"'] + b)) == s + b && ScanText(s, Outside, '=') == Outside
    ensures Names(keys) == [a, b] && PathText(keys) == a + ("." + (['"'] + b)) && GoodPath(keys)
  {
    keys := [Bare("", a, "", true), Unclosed(b, '"')];
    UnclosedKeys(keys, a, b);
    hide *;
    TwoKeys(keys);
    ScanConcat(s, b, Outside, '=');
    InertScan(b, Outside);
    SegmentIs(a);
    SegmentIs(b);
    UnclosedTrimmed(a, b);
    GoodPathIs(keys);
  }

  lemma GoodPathIs(keys: seq<Key>)
    ensures GoodPath(keys) <==>
              && |keys| > 0 && Splits(keys) && Trimmed(PathText(keys)) && ScanText(PathText(keys), Outside, '=') == Outside
  {
  }

  lemma UnclosedKeys(keys: seq<Key>, a: string, b: string)
    requires Segment(a) && !IsQuote(a[0]) && '"' !in b
    requires keys == [Bare("", a, "", true), Unclosed(b, '"')]
    ensures KeyText(keys[0]) + KeyText(keys[1]) == a + ("." + (['"'] + b))
    ensures GoodKey(keys[0]) && GoodKey(keys[1]) && Precedes(keys[0], keys[1..]) && Precedes(keys[1], [])
  {
    assert KeyText(keys[0]) == a + "." && KeyText(keys[1]) == ['"'] + b;
    hide KeyText, IsSpace, Segment;
    assert (a + ".") + (['"'] + b) == a + ("." + (['"'] + b));
  }

  lemma UnclosedTrimmed(a: string, b: string)
    requires Trimmed(a) && Trimmed(b)
    ensures Trimmed(a + ("." + (['"'] + b)))
  {
    hide IsSpace;
  }

  /** With both keys closed, the quote that `a` opens stays open. */
  lemma StaysInside(keys: seq<Key>, a: string, b: string)
    requires Splits(keys) && Closed(keys) && Names(keys) == [a, b] && !Quotable(a)
    requires ScanText(a, Outside, '=') == Inside('"') && '"' !in b && '\'' !in b && Inert(b)
    ensures ScanText(PathText(keys), Outside, '=') == Inside('"')
  {
    TwoNamed(keys, a, b);
    hide ScanText, IsSpace, KeyText, Names;
    TwoKeys(keys);
    ScanConcat(KeyText(keys[0]), KeyText(keys[1]), Outside, '=');
    KeyScan(keys[0], Outside);
    KeyScan(keys[1], Inside('"'));
    assert keys[0].Bare?;
    ScanInside(b, '"');
    if keys[1].Quoted? { Reopens(b, keys[1].quote); }
  }

  lemma TwoNamed(keys: seq<Key>, a: string, b: string)
    requires Names(keys) == [a, b]
    ensures |keys| == 2 && keys[0].name == a && keys[1].name == b
  {
    assert Names(keys)[0] == keys[0].name && Names(keys)[1..] == Names(keys[1..]);
    assert Names(keys[1..])[0] == keys[1..][0].name;
  }

  lemma Reopens(b: string, q: char)
    requires IsQuote(q) && '"' !in b && Inert(b)
    ensures ScanText([q] + (b + [q]), Inside('"'), '=') == Inside('"')
  {
    if q == '"' {
      assert ([q] + (b + [q]))[1..] == b + [q];
      ScanConcat(b, [q], Outside, '=');
      InertScan(b, Outside);
      assert [q][1..] == [];
    } else {
      ScanInside([q] + (b + [q]), '"');
    }
  }
}
