/**
 * What a server writes as `data:` lines comes back as it was, up to the trimming of
 * each line; with the exact condition under which nothing is lost.
 */
module SseRoundTrip {
  import opened Common
  import opened Text
  import opened Whitespace
  import opened Sse

  function Prefixed(lines: seq<string>): seq<string> {
    if |lines| == 0 then [] else ["data: " + lines[0]] + Prefixed(lines[1..])
  }

  function TrimAll(lines: seq<string>): seq<string> {
    if |lines| == 0 then [] else [Trim(lines[0])] + TrimAll(lines[1..])
  }

  /** An event on the wire: one `data:` line per line of text, then a blank line. */
  function Frame(event: string): string {
    Join(Prefixed(Split(event, '\n')), '\n') + "\n\n"
  }

  function Frames(events: seq<string>): string {
    if |events| == 0 then "" else Frame(events[0]) + Frames(events[1..])
  }

  /** What arrives of one event. */
  function Arrives(event: string): seq<string> {
    var text := Join(TrimAll(Split(event, '\n')), '\n');
    if text == "" then [] else [text]
  }

  function ArriveAll(events: seq<string>): seq<string> {
    if |events| == 0 then [] else Arrives(events[0]) + ArriveAll(events[1..])
  }

  ghost predicate OneLine(s: string) {
    '\n' !in s
  }

  /** No blank line inside, and none begun at the end. */
  ghost predicate Solid(s: string) {
    |s| > 0 && s[0] != '\n' && s[|s| - 1] != '\n' && forall j :: 0 <= j < |s| ==> !BlankAt(s, j)
  }

  lemma {:induction false} PrefixedSolid(lines: seq<string>)
    requires |lines| > 0 && forall i :: 0 <= i < |lines| ==> OneLine(lines[i])
    ensures Solid(Join(Prefixed(lines), '\n'))
  {
    var first := "data: " + lines[0];
    assert OneLine(lines[0]);
    forall j | 0 <= j < |first| ensures first[j] != '\n' {
      if j >= 6 { assert first[j] == lines[0][j - 6]; }
    }
    if |lines| > 1 {
      PrefixedSolid(lines[1..]);
      assert Prefixed(lines)[1..] == Prefixed(lines[1..]);
      SolidJoin(first, Join(Prefixed(lines[1..]), '\n'));
    }
  }

  lemma SolidJoin(first: string, rest: string)
    requires |first| > 0 && Solid(rest)
    requires forall j :: 0 <= j < |first| ==> first[j] != '\n'
    ensures Solid(first + (['\n'] + rest))
  {
    var s := first + (['\n'] + rest);
    forall j | 0 <= j < |s| ensures !BlankAt(s, j) {
      if j > |first| { assert !BlankAt(rest, j - |first| - 1); }
    }
  }

  lemma FindsEnd(block: string, tail: string)
    requires Solid(block)
    ensures FindBlank(block + "\n\n" + tail, 0) == Some(|block|)
  {
    var s := block + "\n\n" + tail;
    forall j | 0 <= j < |block| ensures !BlankAt(s, j) { assert !BlankAt(block, j); }
    FindBlankFirst(s, 0, |block|);
  }

  lemma {:induction false} PrefixedLines(lines: seq<string>)
    requires forall i :: 0 <= i < |lines| ==> OneLine(lines[i])
    ensures |Prefixed(lines)| == |lines| && forall p :: p in Prefixed(lines) ==> '\n' !in p
    ensures DataLines(Prefixed(lines)) == TrimAll(lines)
  {
    if |lines| > 0 {
      PrefixedLines(lines[1..]);
      assert OneLine(lines[0]);
      var first := "data: " + lines[0];
      assert first[..5] == "data:" && first[5..] == " " + lines[0];
      assert (" " + lines[0])[1..] == lines[0];
      assert Prefixed(lines)[1..] == Prefixed(lines[1..]);
    }
  }

  lemma FrameBlock(event: string)
    ensures Solid(Join(Prefixed(Split(event, '\n')), '\n'))
    ensures EventsOf(Join(Prefixed(Split(event, '\n')), '\n')) == Arrives(event)
  {
    var lines := Split(event, '\n');
    PartsLackSeparator(event, '\n');
    forall i | 0 <= i < |lines| ensures OneLine(lines[i]) { assert lines[i] in lines; }
    hide Split, Join, DataLines, Prefixed, TrimAll, Solid;
    PrefixedSolid(lines);
    PrefixedLines(lines);
    SplitJoin(Prefixed(lines), '\n');
  }

  lemma FrameArrives(event: string, rest: string)
    ensures Parse(Frame(event) + rest) == Parsed(Arrives(event) + Parse(rest).events, Parse(rest).rest)
  {
    var block := Join(Prefixed(Split(event, '\n')), '\n');
    var s := block + "\n\n" + rest;
    FrameBlock(event);
    assert Frame(event) + rest == s;
    hide *;
    FindsEnd(block, rest);
    ParseAt(s, |block|);
    assert s[..|block|] == block && s[|block| + 2..] == rest;
  }

  /** Framed events followed by anything: the events arrive first, then whatever follows. */
  lemma {:induction false} FramesArrive(events: seq<string>, tail: string)
    ensures Parse(Frames(events) + tail) == Parsed(ArriveAll(events) + Parse(tail).events, Parse(tail).rest)
  {
    hide Parse, Frame, Arrives;
    if |events| > 0 {
      FramesArrive(events[1..], tail);
      FrameArrives(events[0], Frames(events[1..]) + tail);
      assert Frames(events) + tail == Frame(events[0]) + (Frames(events[1..]) + tail);
    } else {
      assert Frames(events) + tail == tail;
    }
  }

  // ---- blocks with other lines ----

  /** A line of a block: data, or anything else, which is passed over. */
  datatype Field = Data(text: string) | Other(line: string)

  predicate GoodField(f: Field) {
    match f
    case Data(text) => '\n' !in text
    case Other(line) => line != "" && '\n' !in line && !("data:" <= line)
  }

  function LineOf(f: Field): string {
    match f
    case Data(text) => "data:" + text
    case Other(line) => line
  }

  function LinesOf(fields: seq<Field>): (lines: seq<string>)
    ensures |lines| == |fields|
  {
    if |fields| == 0 then [] else [LineOf(fields[0])] + LinesOf(fields[1..])
  }

  function Texts(fields: seq<Field>): seq<string> {
    if |fields| == 0 then []
    else (if fields[0].Data? then [fields[0].text] else []) + Texts(fields[1..])
  }

  lemma LineIsSolid(f: Field)
    requires GoodField(f)
    ensures Solid(LineOf(f)) && OneLine(LineOf(f))
  {
    var line := LineOf(f);
    forall j | 0 <= j < |line| ensures line[j] != '\n' {
      if f.Data? && j >= 5 { assert line[j] == f.text[j - 5]; }
    }
  }

  lemma {:induction false} FieldsSolid(fields: seq<Field>)
    requires |fields| > 0 && forall i :: 0 <= i < |fields| ==> GoodField(fields[i])
    ensures Solid(Join(LinesOf(fields), '\n'))
  {
    LineIsSolid(fields[0]);
    if |fields| > 1 {
      assert forall i :: 0 <= i < |fields| - 1 ==> fields[1..][i] == fields[i + 1];
      FieldsSolid(fields[1..]);
      assert LinesOf(fields)[1..] == LinesOf(fields[1..]);
      hide GoodField, LineOf, BlankAt;
      SolidJoin(LineOf(fields[0]), Join(LinesOf(fields[1..]), '\n'));
    } else {
      assert LinesOf(fields) == [LineOf(fields[0])];
    }
  }

  lemma {:induction false} FieldLines(fields: seq<Field>)
    requires forall i :: 0 <= i < |fields| ==> GoodField(fields[i])
    ensures forall p :: p in LinesOf(fields) ==> '\n' !in p
    ensures DataLines(LinesOf(fields)) == TrimAll(Texts(fields))
  {
    if |fields| > 0 {
      assert forall i :: 0 <= i < |fields| - 1 ==> fields[1..][i] == fields[i + 1];
      FieldLines(fields[1..]);
      LineIsSolid(fields[0]);
      OneField(fields[0], Texts(fields[1..]));
      assert LinesOf(fields)[1..] == LinesOf(fields[1..]);
      hide Trim, GoodField, LineOf;
    }
  }

  lemma OneField(f: Field, more: seq<string>)
    requires GoodField(f)
    ensures "data:" <= LineOf(f) <==> f.Data?
    ensures f.Data? ==> LineOf(f)[5..] == f.text && TrimAll([f.text] + more) == [Trim(f.text)] + TrimAll(more)
    ensures [] + more == more
  {
    if f.Data? {
      assert LineOf(f)[..5] == "data:";
      assert ([f.text] + more)[1..] == more;
    }
    hide Trim;
  }

  /**
   * Of any block the data lines make up the event, each trimmed, in order; every other line
   * is passed over, and a block whose data is empty is no event.
   */
  lemma BlockArrives(fields: seq<Field>, rest: string)
    requires |fields| > 0 && forall i :: 0 <= i < |fields| ==> GoodField(fields[i])
    ensures var text := Join(TrimAll(Texts(fields)), '\n');
            Parse(Join(LinesOf(fields), '\n') + "\n\n" + rest) ==
              Parsed((if text == "" then [] else [text]) + Parse(rest).events, Parse(rest).rest)
  {
    var block := Join(LinesOf(fields), '\n');
    FieldsSolid(fields);
    FieldLines(fields);
    SplitJoin(LinesOf(fields), '\n');
    var text := Join(TrimAll(Texts(fields)), '\n');
    assert EventsOf(block) == if text == "" then [] else [text];
    hide *;
    var s := block + "\n\n" + rest;
    FindsEnd(block, rest);
    ParseAt(s, |block|);
    assert s[..|block|] == block && s[|block| + 2..] == rest;
  }

  ghost predicate Trimmed(lines: seq<string>) {
    forall i :: 0 <= i < |lines| ==> Trim(lines[i]) == lines[i]
  }

  /** An event comes back as it was exactly when it is not empty and has no line to trim. */
  lemma RoundTripIff(event: string)
    ensures Parse(Frame(event)) == Parsed([event], "") <==> event != "" && Trimmed(Split(event, '\n'))
  {
    hide *;
    Single(event);
    ArrivesWhole(event);
  }

  lemma Single(event: string)
    ensures Parse(Frame(event)) == Parsed(Arrives(event), "")
  {
    hide Parse, Frame, Arrives;
    FramesArrive([event], "");
    ParseNone("");
    assert Frames([event]) + "" == Frame(event);
    assert ArriveAll([event]) + [] == Arrives(event);
  }

  lemma ArrivesWhole(event: string)
    ensures Arrives(event) == [event] <==> event != "" && Trimmed(Split(event, '\n'))
  {
    var lines := Split(event, '\n');
    PartsLackSeparator(event, '\n');
    JoinSplit(event, '\n');
    TrimAllFacts(lines);
    hide Split, Join, Trim;
    if Arrives(event) == [event] {
      SplitJoin(TrimAll(lines), '\n');
      assert TrimAll(lines) == lines;
    }
  }

  lemma {:induction false} TrimAllFacts(lines: seq<string>)
    requires forall p :: p in lines ==> '\n' !in p
    ensures |TrimAll(lines)| == |lines| && (forall p :: p in TrimAll(lines) ==> '\n' !in p)
    ensures TrimAll(lines) == lines <==> Trimmed(lines)
  {
    if |lines| > 0 {
      assert lines == [lines[0]] + lines[1..];
      TrimAllFacts(lines[1..]);
      TrimLacks(lines[0]);
      hide Trim;
      assert Trimmed(lines) <==> Trim(lines[0]) == lines[0] && Trimmed(lines[1..]) by {
        if Trim(lines[0]) == lines[0] && Trimmed(lines[1..]) {
          forall i | 0 <= i < |lines| ensures Trim(lines[i]) == lines[i] {
            if i > 0 { assert lines[i] == lines[1..][i - 1]; }
          }
        }
      }
      assert TrimAll(lines)[1..] == TrimAll(lines[1..]);
    }
  }

  lemma TrimLacks(s: string)
    requires '\n' !in s
    ensures '\n' !in Trim(s)
  {
    TrimStartLacks(s);
    TrimEndLacks(TrimStart(s));
  }

  lemma {:induction false} TrimStartLacks(s: string)
    requires '\n' !in s
    ensures '\n' !in TrimStart(s)
  {
    if |s| > 0 { TrimStartLacks(s[1..]); }
  }

  lemma {:induction false} TrimEndLacks(s: string)
    requires '\n' !in s
    ensures '\n' !in TrimEnd(s)
  {
    if |s| > 0 { TrimEndLacks(s[..|s| - 1]); }
  }
}
