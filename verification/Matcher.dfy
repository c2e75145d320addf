/**
 * Wildcard matching of event names, packages/events/src/matcher.ts: `*` stands for
 * one dot-separated segment and `**` for one or more.
 */
module Matcher {
  import opened Text

  predicate IsWildcard(pattern: string) {
    '*' in pattern
  }

  predicate MatchesPattern(name: string, pattern: string) {
    if !IsWildcard(pattern) then name == pattern else MatchSegments(Split(pattern, '.'), Split(name, '.'))
  }

  predicate MatchSegments(pat: seq<string>, name: seq<string>)
    decreases |pat|, 0
  {
    if |pat| == 0 then |name| == 0
    else if pat[0] == "**" then |name| > 0 && SomeTake(pat[1..], name, 1)
    else |name| > 0 && (pat[0] == "*" || pat[0] == name[0]) && MatchSegments(pat[1..], name[1..])
  }

  /** Does leaving `take` or more segments to the `**` before `rest` work out? */
  predicate SomeTake(rest: seq<string>, name: seq<string>, take: nat)
    decreases |rest|, 1, |name| - take
  {
    take <= |name| && (MatchSegments(rest, name[take..]) || SomeTake(rest, name, take + 1))
  }

  // ---- the meaning: one block of segments per pattern segment ----

  predicate Fits(p: string, block: seq<string>) {
    if p == "**" then |block| >= 1
    else if p == "*" then |block| == 1
    else block == [p]
  }

  function Flatten(blocks: seq<seq<string>>): seq<string> {
    if |blocks| == 0 then [] else blocks[0] + Flatten(blocks[1..])
  }

  ghost predicate Blocks(pat: seq<string>, name: seq<string>, blocks: seq<seq<string>>) {
    && |blocks| == |pat| && Flatten(blocks) == name
    && forall i :: 0 <= i < |pat| ==> Fits(pat[i], blocks[i])
  }

  /** The segments of the name divide into one fitting block per pattern segment. */
  ghost predicate Divides(pat: seq<string>, name: seq<string>) {
    exists blocks :: Blocks(pat, name, blocks)
  }

  lemma BlocksCons(p: string, pat: seq<string>, block: seq<string>, name: seq<string>, blocks: seq<seq<string>>)
    requires Fits(p, block) && Blocks(pat, name, blocks)
    ensures Blocks([p] + pat, block + name, [block] + blocks)
  {
    assert ([block] + blocks)[1..] == blocks;
  }

  lemma {:induction false} MatchHasBlocks(pat: seq<string>, name: seq<string>) returns (blocks: seq<seq<string>>)
    requires MatchSegments(pat, name)
    ensures Blocks(pat, name, blocks)
    decreases |pat|, 0
  {
    if |pat| == 0 {
      blocks := [];
    } else {
      assert pat == [pat[0]] + pat[1..];
      if pat[0] == "**" {
        var take;
        take, blocks := TakeHasBlocks(pat[1..], name, 1);
        BlocksCons(pat[0], pat[1..], name[..take], name[take..], blocks);
        blocks := [name[..take]] + blocks;
        assert name == name[..take] + name[take..];
      } else {
        blocks := MatchHasBlocks(pat[1..], name[1..]);
        BlocksCons(pat[0], pat[1..], [name[0]], name[1..], blocks);
        blocks := [[name[0]]] + blocks;
        assert name == [name[0]] + name[1..];
      }
    }
  }

  lemma {:induction false} TakeHasBlocks(rest: seq<string>, name: seq<string>, from: nat)
      returns (take: nat, blocks: seq<seq<string>>)
    requires SomeTake(rest, name, from)
    ensures from <= take <= |name| && Blocks(rest, name[take..], blocks)
    decreases |rest|, 1, |name| - from
  {
    if MatchSegments(rest, name[from..]) {
      take := from;
      blocks := MatchHasBlocks(rest, name[from..]);
    } else {
      take, blocks := TakeHasBlocks(rest, name, from + 1);
    }
  }

  lemma {:induction false} BlocksMatch(pat: seq<string>, name: seq<string>, blocks: seq<seq<string>>)
    requires Blocks(pat, name, blocks)
    ensures MatchSegments(pat, name)
    decreases |pat|
  {
    if |pat| > 0 {
      var n := |blocks[0]|;
      assert name == blocks[0] + Flatten(blocks[1..]);
      assert name[n..] == Flatten(blocks[1..]);
      assert Fits(pat[0], blocks[0]);
      BlocksMatch(pat[1..], name[n..], blocks[1..]);
      if pat[0] == "**" { TakeFound(pat[1..], name, 1, n); }
    }
  }

  lemma {:induction false} TakeFound(rest: seq<string>, name: seq<string>, from: nat, take: nat)
    requires from <= take <= |name| && MatchSegments(rest, name[take..])
    ensures SomeTake(rest, name, from)
    decreases take - from
  {
    if from < take { TakeFound(rest, name, from + 1, take); }
  }

  /** The backtracking search succeeds exactly when a division into fitting blocks exists. */
  lemma MatchIffBlocks(pat: seq<string>, name: seq<string>)
    ensures MatchSegments(pat, name) <==> Divides(pat, name)
  {
    if MatchSegments(pat, name) { var blocks := MatchHasBlocks(pat, name); }
    if blocks :| Blocks(pat, name, blocks) { BlocksMatch(pat, name, blocks); }
  }

  lemma {:induction false} LiteralMatch(pat: seq<string>, name: seq<string>)
    requires forall i :: 0 <= i < |pat| ==> pat[i] != "*" && pat[i] != "**"
    ensures MatchSegments(pat, name) <==> pat == name
    decreases |pat|
  {
    if |pat| > 0 && |name| > 0 {
      LiteralMatch(pat[1..], name[1..]);
      assert pat == [pat[0]] + pat[1..] && name == [name[0]] + name[1..];
    }
  }

  lemma {:induction false} SegmentsLackStar(s: string)
    requires '*' !in s
    ensures forall p :: p in Split(s, '.') ==> '*' !in p
  {
    if |s| > 0 {
      assert forall x :: x in s[1..] ==> x in s;
      SegmentsLackStar(s[1..]);
      assert s[0] in s;
    }
  }

  /** The string-equality fast path agrees with the segment matcher. */
  lemma FastPathAgrees(name: string, pattern: string)
    requires !IsWildcard(pattern)
    ensures MatchesPattern(name, pattern) <==> MatchSegments(Split(pattern, '.'), Split(name, '.'))
  {
    SegmentsLackStar(pattern);
    var pat := Split(pattern, '.');
    forall i | 0 <= i < |pat| ensures pat[i] != "*" && pat[i] != "**" {
      assert pat[i] in pat && "*"[0] == '*' && "**"[0] == '*';
    }
    LiteralMatch(pat, Split(name, '.'));
    if Split(pattern, '.') == Split(name, '.') { SplitInjective(pattern, name, '.'); }
  }

  /**
   * A name matches a pattern exactly when its segments divide into one block per
   * pattern segment: one segment for `*`, one or more for `**`, itself for a literal.
   */
  lemma MatchesIff(name: string, pattern: string)
    ensures MatchesPattern(name, pattern) <==> Divides(Split(pattern, '.'), Split(name, '.'))
  {
    if !IsWildcard(pattern) { FastPathAgrees(name, pattern); }
    MatchIffBlocks(Split(pattern, '.'), Split(name, '.'));
  }

  /**
   * The empty name has one segment, the empty one: of all wildcard patterns exactly `*` and
   * `**` match it.
   */
  lemma EmptyNameMatchesIff(pattern: string)
    requires IsWildcard(pattern)
    ensures MatchesPattern("", pattern) <==> pattern == "*" || pattern == "**"
  {
    var pat := Split(pattern, '.');
    JoinSplit(pattern, '.');
    assert Split("", '.') == [""] && [""][1..] == [];
    if pattern == "*" || pattern == "**" {
      SplitHead(pattern, '.', "");
      assert pat == [pattern] && pat[1..] == [];
      OneSegment(pat);
    }
    if MatchSegments(pat, [""]) {
      OneSegment(pat);
      assert Join(pat, '.') == pat[0];
    }
  }

  lemma OneSegment(pat: seq<string>)
    requires |pat| > 0
    ensures MatchSegments(pat, [""]) <==> |pat| == 1 && (pat[0] == "*" || pat[0] == "**" || pat[0] == "")
  {
    assert [""][1..] == [];
    NothingMatches(pat[1..]);
    assert SomeTake(pat[1..], [""], 1) <==> MatchSegments(pat[1..], [""][1..]);
  }

  lemma NothingMatches(pat: seq<string>)
    ensures MatchSegments(pat, []) <==> pat == []
  {
  }
}
