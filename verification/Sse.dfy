/**
 * The streaming parser for server-sent events, packages/client/src/ai.ts: an LF-only
 * subset of section 9.2 of the HTML Standard, whose data lines are trimmed.
 */
module Sse {
  import opened Common
  import opened Text
  import opened Whitespace

  const DONE := "[DONE]"

  datatype Parsed = Parsed(events: seq<string>, rest: string)

  // ---- one block ----

  /** The trimmed payloads of the `data:` lines. */
  function DataLines(lines: seq<string>): seq<string> {
    if |lines| == 0 then []
    else if "data:" <= lines[0] then [Trim(lines[0][5..])] + DataLines(lines[1..])
    else DataLines(lines[1..])
  }

  function DataOf(block: string): string {
    Join(DataLines(Split(block, '\n')), '\n')
  }

  function EventsOf(block: string): seq<string> {
    if DataOf(block) == "" then [] else [DataOf(block)]
  }

  // ---- a buffer ----

  predicate BlankAt(s: string, i: nat) {
    i + 1 < |s| && s[i] == '\n' && s[i + 1] == '\n'
  }

  /** The first blank line at or after `from`. */
  function FindBlank(s: string, from: nat): (r: Option<nat>)
    ensures r.Some? ==> from <= r.value && BlankAt(s, r.value)
    decreases |s| - from
  {
    if from + 1 >= |s| then None
    else if BlankAt(s, from) then Some(from)
    else FindBlank(s, from + 1)
  }

  function Parse(s: string): Parsed {
    match FindBlank(s, 0)
    case None => Parsed([], s)
    case Some(i) =>
      var p := Parse(s[i + 2..]);
      Parsed(EventsOf(s[..i]) + p.events, p.rest)
  }

  method ParseSseChunk(buffer: string) returns (events: seq<string>, rest: string)
    ensures Parsed(events, rest) == Parse(buffer)
  {
    hide Parse, DataOf, FindBlank;
    events, rest := [], buffer;
    var idx := FindBlank(rest, 0);
    while idx.Some?
      invariant idx == FindBlank(rest, 0)
      invariant Parse(buffer) == Parsed(events + Parse(rest).events, Parse(rest).rest)
      decreases |rest|
    {
      ParseAt(rest, idx.value);
      var block := rest[..idx.value];
      rest := rest[idx.value + 2..];
      var data := DataOf(block);
      if data != "" {
        events := events + [data];
      }
      idx := FindBlank(rest, 0);
    }
    ParseNone(rest);
  }

  // ---- chunking ----

  function Concat(chunks: seq<string>): string {
    if |chunks| == 0 then "" else Concat(chunks[..|chunks| - 1]) + chunks[|chunks| - 1]
  }

  /** Chunks fed one by one with the carried remainder. */
  function Feed(chunks: seq<string>): Parsed {
    if |chunks| == 0 then Parsed([], "")
    else
      var before := Feed(chunks[..|chunks| - 1]);
      var now := Parse(before.rest + chunks[|chunks| - 1]);
      Parsed(before.events + now.events, now.rest)
  }

  lemma {:induction false} FindBlankFirst(s: string, from: nat, i: nat)
    requires from <= i && BlankAt(s, i) && forall j :: from <= j < i ==> !BlankAt(s, j)
    ensures FindBlank(s, from) == Some(i)
    decreases i - from
  {
    if from < i { FindBlankFirst(s, from + 1, i); }
  }

  lemma {:induction false} FindBlankSkips(s: string, from: nat)
    ensures FindBlank(s, from).Some? ==> forall j :: from <= j < FindBlank(s, from).value ==> !BlankAt(s, j)
    decreases |s| - from
  {
    if from + 1 < |s| && !BlankAt(s, from) { FindBlankSkips(s, from + 1); }
  }

  /** What a blank line ends stays ended when more text arrives. */
  lemma FindBlankPrefix(a: string, b: string)
    requires FindBlank(a, 0).Some?
    ensures FindBlank(a + b, 0) == FindBlank(a, 0)
  {
    var i := FindBlank(a, 0).value;
    FindBlankSkips(a, 0);
    forall j | 0 <= j < i ensures !BlankAt(a + b, j) { assert !BlankAt(a, j); }
    FindBlankFirst(a + b, 0, i);
  }

  /** Parsing may be interrupted anywhere and resumed from the remainder. */
  lemma {:induction false} ParseResumes(a: string, b: string)
    ensures Parse(a + b) ==
            Parsed(Parse(a).events + Parse(Parse(a).rest + b).events, Parse(Parse(a).rest + b).rest)
    decreases |a|
  {
    hide Parse, EventsOf, FindBlank;
    match FindBlank(a, 0) {
      case None => ParseNone(a);
      case Some(i) =>
        FindBlankPrefix(a, b);
        ParseAt(a, i);
        ParseAt(a + b, i);
        ParseResumes(a[i + 2..], b);
        assert (a + b)[i + 2..] == a[i + 2..] + b && (a + b)[..i] == a[..i];
    }
  }

  /** The first complete block, then the others. */
  lemma ParseAt(s: string, i: nat)
    requires FindBlank(s, 0) == Some(i)
    ensures Parse(s) == Parsed(EventsOf(s[..i]) + Parse(s[i + 2..]).events, Parse(s[i + 2..]).rest)
  {
  }

  lemma ParseNone(s: string)
    requires FindBlank(s, 0) == None
    ensures Parse(s) == Parsed([], s)
  {
  }

  /** However the stream is cut, the events and the remainder are those of the whole. */
  lemma {:induction false} ChunkInvariant(chunks: seq<string>)
    ensures Feed(chunks) == Parse(Concat(chunks))
  {
    if |chunks| > 0 {
      ChunkInvariant(chunks[..|chunks| - 1]);
      ParseResumes(Concat(chunks[..|chunks| - 1]), chunks[|chunks| - 1]);
    }
  }

  /** What is yielded: the events before the first `[DONE]`. */
  function UntilDone(events: seq<string>): seq<string> {
    if |events| == 0 || events[0] == DONE then [] else [events[0]] + UntilDone(events[1..])
  }

  lemma {:induction false} UntilDoneStops(before: seq<string>, after: seq<string>)
    requires DONE !in before
    ensures UntilDone(before + after) == before + UntilDone(after)
  {
    if |before| > 0 {
      UntilDoneStops(before[1..], after);
      assert before[0] in before && (before + after)[1..] == before[1..] + after;
      assert before == [before[0]] + before[1..];
    } else {
      assert before + after == after;
    }
  }

  /** The tokens do not depend on how the response body was cut into chunks. */
  method StreamChat(chunks: seq<string>) returns (tokens: seq<string>)
    ensures tokens == UntilDone(Parse(Concat(chunks)).events)
  {
    hide Parse, UntilDone, Concat;
    tokens := [];
    var buffer := "";
    ParseNothing();
    for i := 0 to |chunks|
      invariant tokens == Parse(Concat(chunks[..i])).events && buffer == Parse(Concat(chunks[..i])).rest
      invariant DONE !in tokens
    {
      ConcatNext(chunks, i);
      ParseResumes(Concat(chunks[..i]), chunks[i]);
      ghost var yielded := tokens;
      var events, rest := ParseSseChunk(buffer + chunks[i]);
      buffer := rest;
      for j := 0 to |events|
        invariant tokens == yielded + events[..j] && DONE !in tokens
      {
        if events[j] == DONE {
          StopsHere(chunks, i, tokens, events[j + 1..]);
          return;
        }
        tokens := tokens + [events[j]];
      }
      assert events[..|events|] == events;
    }
    assert chunks[..|chunks|] == chunks;
    NoneStops(tokens);
  }

  lemma ConcatNext(chunks: seq<string>, i: nat)
    requires i < |chunks|
    ensures Concat(chunks[..i + 1]) == Concat(chunks[..i]) + chunks[i]
  {
    assert chunks[..i + 1][..i] == chunks[..i];
  }

  lemma ParseNothing()
    ensures Parse(Concat([])) == Parsed([], "")
  {
  }

  lemma NoneStops(events: seq<string>)
    requires DONE !in events
    ensures UntilDone(events) == events
  {
    UntilDoneStops(events, []);
    assert events + [] == events;
  }

  /** Nothing that arrives after `[DONE]` changes what was yielded. */
  lemma StopsHere(chunks: seq<string>, i: nat, tokens: seq<string>, others: seq<string>)
    requires i < |chunks| && DONE !in tokens
    requires Parse(Concat(chunks[..i + 1])).events == tokens + [DONE] + others
    ensures UntilDone(Parse(Concat(chunks)).events) == tokens
  {
    hide *;
    ParsePrefix(chunks, i + 1);
    var later :| Parse(Concat(chunks)).events == Parse(Concat(chunks[..i + 1])).events + later;
    UntilDoneCuts(tokens, others, later);
  }

  lemma UntilDoneCuts(tokens: seq<string>, others: seq<string>, later: seq<string>)
    requires DONE !in tokens
    ensures UntilDone(tokens + [DONE] + others + later) == tokens
  {
    hide UntilDone;
    UntilDoneStops(tokens, [DONE] + (others + later));
    StopsAtOnce(others + later);
    assert tokens + [DONE] + others + later == tokens + ([DONE] + (others + later));
  }

  lemma StopsAtOnce(events: seq<string>)
    ensures UntilDone([DONE] + events) == []
  {
  }

  lemma {:induction false} ParsePrefix(chunks: seq<string>, n: nat)
    requires n <= |chunks|
    ensures exists later :: Parse(Concat(chunks)).events == Parse(Concat(chunks[..n])).events + later
    decreases |chunks| - n
  {
    hide Parse;
    if n < |chunks| {
      ParsePrefix(chunks, n + 1);
      var later :| Parse(Concat(chunks)).events == Parse(Concat(chunks[..n + 1])).events + later;
      ConcatNext(chunks, n);
      ParseResumes(Concat(chunks[..n]), chunks[n]);
      var more := Parse(Parse(Concat(chunks[..n])).rest + chunks[n]).events;
      assert Parse(Concat(chunks)).events == Parse(Concat(chunks[..n])).events + (more + later);
    } else {
      assert chunks[..n] == chunks;
      assert Parse(Concat(chunks)).events == Parse(Concat(chunks[..n])).events + [];
    }
  }
}
