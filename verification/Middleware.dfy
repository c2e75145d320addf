/**
 * The middleware onion, packages/events/src/middleware.ts.  A middleware may call its
 * `next` any number of times, at any moment, and middleware may be registered while an
 * event is under way; a call is therefore an index and the chain's length at that
 * moment.
 */
module Middleware {

  datatype Call = Call(index: nat, length: nat)

  /** What an accepted call did: enter the middleware at `index`, or deliver. */
  datatype Entry = Entered(index: nat) | Delivered(index: nat)

  /** One run of the composed pipeline. */
  class Runner {
    var lastIndex: int
    ghost var calls: seq<Call>

    ghost predicate Valid()
      reads this
    {
      lastIndex == Last(calls)
    }

    constructor ()
      ensures Valid() && calls == []
    {
      lastIndex, calls := -1, [];
    }

    /** `None` is the rejection of a repeated `next()`. */
    method Invoke(index: nat, length: nat) returns (accepted: bool, entry: Entry)
      requires Valid()
      modifies this
      ensures Valid() && calls == old(calls) + [Call(index, length)]
      ensures Trace(calls) == if accepted then Trace(old(calls)) + [entry] else Trace(old(calls))
    {
      ghost var before := calls;
      calls := calls + [Call(index, length)];
      assert calls[..|calls| - 1] == before;
      accepted, entry := false, Delivered(index);
      if index <= lastIndex {
        return;
      }
      lastIndex := index;
      accepted := true;
      if index < length {
        entry := Entered(index);
      }
    }
  }

  function Last(calls: seq<Call>): int {
    if |calls| == 0 then -1
    else
      var last := Last(calls[..|calls| - 1]);
      var index := calls[|calls| - 1].index;
      if index <= last then last else index
  }

  function Trace(calls: seq<Call>): seq<Entry> {
    if |calls| == 0 then []
    else
      var before := Trace(calls[..|calls| - 1]);
      var call := calls[|calls| - 1];
      if call.index <= Last(calls[..|calls| - 1]) then before
      else before + [if call.index < call.length then Entered(call.index) else Delivered(call.index)]
  }

  /**
   * The calls that can happen: the runner makes the first, `next` of middleware `i`
   * the call of `i + 1` once that middleware was entered; the chain never shrinks.
   */
  ghost predicate Possible(calls: seq<Call>) {
    |calls| == 0 ||
    var before, call := calls[..|calls| - 1], calls[|calls| - 1];
    && Possible(before)
    && (if |before| == 0 then call.index == 0
        else call.index > 0 && Entered(call.index - 1) in Trace(before) && before[|before| - 1].length <= call.length)
  }

  /** The k-th entry has index k; only the last can be the delivery, which is past the chain. */
  ghost predicate Onion(trace: seq<Entry>, length: nat) {
    && (forall k :: 0 <= k < |trace| ==> trace[k].index == k)
    && (forall k :: 0 <= k < |trace| && trace[k].Delivered? ==> k == |trace| - 1)
    && (|trace| > 0 && trace[|trace| - 1].Entered? ==> |trace| <= length)
  }

  function Length(calls: seq<Call>): nat {
    if |calls| == 0 then 0 else calls[|calls| - 1].length
  }

  /**
   * Whatever the middleware do, the entered ones are a prefix of the chain, each entered
   * once and in order, and delivery happens at most once, after the last of them.
   */
  lemma {:induction false} EntersAPrefix(calls: seq<Call>)
    requires Possible(calls)
    ensures Last(calls) == |Trace(calls)| - 1 && Onion(Trace(calls), Length(calls))
    ensures |calls| > 0 ==> |Trace(calls)| > 0
  {
    if |calls| > 0 {
      var before, call := calls[..|calls| - 1], calls[|calls| - 1];
      EntersAPrefix(before);
      var trace := Trace(before);
      if |before| > 0 {
        var k :| 0 <= k < |trace| && trace[k] == Entered(call.index - 1);
        assert trace[k].index == k;
      }
    }
  }

  /** Delivery comes after every middleware the chain holds at that moment was entered. */
  lemma {:induction false} DeliveryIsLast(calls: seq<Call>, call: Call)
    requires Possible(calls + [call]) && Trace(calls + [call]) == Trace(calls) + [Delivered(call.index)]
    ensures forall i :: 0 <= i < call.length ==> Entered(i) in Trace(calls)
    ensures forall k :: 0 <= k < |Trace(calls)| ==> Trace(calls)[k].Entered?
  {
    var all := calls + [call];
    assert all[..|calls|] == calls;
    EntersAPrefix(all);
    EntersAPrefix(calls);
    var trace := Trace(all);
    assert trace[|trace| - 1] == Delivered(call.index);
    forall k | 0 <= k < |Trace(calls)| ensures Trace(calls)[k] == Entered(k) {
      assert trace[k] == Trace(calls)[k];
    }
    forall i | 0 <= i < call.length ensures Entered(i) in Trace(calls) {
      assert Trace(calls)[i] == Entered(i);
    }
  }

  /** A call is rejected exactly when the same `next` was called before. */
  lemma RejectedIffRepeated(calls: seq<Call>, call: Call)
    requires Possible(calls + [call])
    ensures Trace(calls + [call]) == Trace(calls) <==> exists k :: 0 <= k < |calls| && calls[k].index == call.index
  {
    var all := calls + [call];
    assert all[..|calls|] == calls;
    EntersAPrefix(calls);
    EntersAPrefix(all);
    CallsBelow(calls);
    if call.index <= Last(calls) {
      var k := WhoEntered(calls, call.index);
    }
  }

  lemma {:induction false} CallsBelow(calls: seq<Call>)
    ensures forall k :: 0 <= k < |calls| ==> calls[k].index <= Last(calls)
  {
    if |calls| > 0 { CallsBelow(calls[..|calls| - 1]); }
  }

  lemma {:induction false} WhoEntered(calls: seq<Call>, index: nat) returns (k: nat)
    requires Possible(calls) && index <= Last(calls)
    ensures k < |calls| && calls[k].index == index
  {
    var before := calls[..|calls| - 1];
    EntersAPrefix(calls);
    EntersAPrefix(before);
    if index <= Last(before) {
      k := WhoEntered(before, index);
    } else {
      k := |calls| - 1;
    }
  }
}
