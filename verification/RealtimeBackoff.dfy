/**
 * How long the realtime client waits before it tries again,
 * packages/client/src/realtime.ts:117-150: which attempt number every scheduled timer
 * uses, over every run, and how the delays of a row of failures go.
 */
module RealtimeBackoff {
  import opened Common
  import opened Realtime
  import opened RealtimeSafety

  // ---- delays ----

  lemma {:induction false} Pow2Positive(n: nat)
    ensures Pow2(n) >= 1
  {
    if n > 0 { Pow2Positive(n - 1); }
  }

  function Base(o: Options): int {
    Max(0, o.reconnectDelayMs)
  }

  function Cap(o: Options): int {
    Max(Base(o), o.maxReconnectDelayMs)
  }

  lemma TimesGrows(base: int, factor: int)
    requires base >= 0 && factor >= 1
    ensures base * factor >= base && base * (2 * factor) == 2 * (base * factor)
  {
  }

  /** The first delay is the initial one; each next is twice as long, up to the maximum. */
  lemma DelayDoubles(o: Options, n: nat)
    ensures Delay(o, 0) == Base(o)
    ensures Delay(o, n + 1) == Min(Cap(o), 2 * Delay(o, n))
    ensures Base(o) <= Delay(o, n) <= Cap(o)
  {
    Pow2Positive(n);
    TimesGrows(Base(o), Pow2(n));
    assert Pow2(n + 1) == 2 * Pow2(n);
    assert Pow2(0) == 1 && Base(o) * 1 == Base(o);
  }

  /** So it grows with every attempt, strictly until the maximum is reached. */
  lemma DelayGrows(o: Options, n: nat)
    requires Base(o) > 0
    ensures Delay(o, n) < Delay(o, n + 1) || Delay(o, n) == Delay(o, n + 1) == Cap(o)
  {
    DelayDoubles(o, n);
    hide Delay;
  }

  /** Every timer of every run waits between the initial and the maximal delay. */
  lemma {:induction false} TimersWithinBounds(o: Options, events: seq<Event>)
    ensures var c := Run(o, events).client;
            c.reconnectTimer.Some? ==> Base(o) <= c.reconnectTimer.value <= Cap(o)
  {
    if |events| > 0 {
      var w := Run(o, events[..|events| - 1]);
      TimersWithinBounds(o, events[..|events| - 1]);
      DelayDoubles(o, w.client.reconnectAttempt);
      DelayDoubles(o, 0);
      TimerStep(w, o, events[|events| - 1]);
      hide Next, Delay, Run;
    }
  }

  /** A step leaves the timer, clears it, or sets it for the attempt reached or for the first. */
  lemma TimerStep(w: World, o: Options, e: Event)
    ensures var t := Next(w, o, e).client.reconnectTimer;
            || t == w.client.reconnectTimer || t == None
            || t == Some(Delay(o, w.client.reconnectAttempt)) || t == Some(Delay(o, 0))
  {
    hide Delay, Find, Delete, Greetings, Flushed;
  }

  // ---- which attempt a timer uses ----

  /** The event takes the current socket down, or closes the client. */
  predicate Closes(c: Client, e: Event) {
    e == Event.Close || (e.Drop? && c.ws == Some(e.socket))
  }

  ghost predicate EverClosed(o: Options, events: seq<Event>) {
    |events| > 0 &&
    (EverClosed(o, events[..|events| - 1]) || Closes(Run(o, events[..|events| - 1]).client, events[|events| - 1]))
  }

  function TimeOf(e: Event): int {
    match e
    case Connect(_, now) => now
    case Open(_, now) => now
    case Drop(_, now) => now
    case Fire(_, now) => now
    case _ => 0
  }

  /** When the connection that is up came up. */
  ghost function OpenedTime(o: Options, events: seq<Event>): int {
    if |events| == 0 then -1
    else
      var before := Run(o, events[..|events| - 1]).client;
      if before.state != Connected && Run(o, events).client.state == Connected then TimeOf(events[|events| - 1])
      else OpenedTime(o, events[..|events| - 1])
  }

  /**
   * The opening time the client keeps: that of the connection while it is up; without one,
   * zero once anything was closed, and minus one before.
   */
  lemma {:induction false} OpenedAtIs(o: Options, events: seq<Event>)
    ensures var c := Run(o, events).client;
            c.openedAt == if c.state == Connected then OpenedTime(o, events)
                          else if EverClosed(o, events) then 0 else -1
  {
    if |events| > 0 {
      var before, e := events[..|events| - 1], events[|events| - 1];
      OpenedAtIs(o, before);
      Invariant(o, before);
      OpenedAtStep(Run(o, before), o, e);
      hide Next, Inv;
    }
  }

  lemma OpenedAtStep(w: World, o: Options, e: Event)
    requires Inv(w)
    ensures var c, d := w.client, Next(w, o, e).client;
            d.openedAt ==
              if Closes(c, e) then 0
              else if c.state != Connected && d.state == Connected then TimeOf(e)
              else c.openedAt
    ensures var c, d := w.client, Next(w, o, e).client;
            (Closes(c, e) ==> d.state != Connected) && (c.state == Connected && !Closes(c, e) ==> d.state == Connected)
  {
    hide Delay, Find, Delete, Greetings, Flushed, Conserved, Synchronised, Unsent;
  }

  /** A drop that starts the attempts over: of a connection up for a second, or before opening once anything was closed. */
  ghost predicate StartsOver(o: Options, events: seq<Event>, e: Event) {
    e.Drop? &&
    if Run(o, events).client.state == Connected then
      OpenedTime(o, events) >= 0 && e.now - OpenedTime(o, events) >= STABLE_CONNECTION_MS
    else EverClosed(o, events) && e.now >= STABLE_CONNECTION_MS
  }

  /** The step sets a timer. */
  predicate Schedules(o: Options, before: World, e: Event) {
    Next(before, o, e).client.reconnectTimer.Some? && (before.client.reconnectTimer.None? || e.Fire?)
  }

  /**
   * Whatever makes the client schedule a reconnect - a socket whose construction throws,
   * one that drops before it opens, or one that drops after - the timer uses the number of
   * attempts made so far, or starts over after the drops above.
   */
  lemma EveryTimerUses(o: Options, events: seq<Event>, e: Event)
    requires Schedules(o, Run(o, events), e)
    ensures var c, d := Run(o, events).client, Run(o, events + [e]).client;
            var used := if StartsOver(o, events, e) then 0 else c.reconnectAttempt;
            && d.reconnectTimer == Some(Delay(o, used)) && d.reconnectAttempt == used + 1
            && (e.Drop? || ((e.Connect? || e.Fire?) && e.opening == Throws))
  {
    Invariant(o, events);
    OpenedAtIs(o, events);
    RunSnoc(o, events, e);
    ScheduleStep(Run(o, events), o, e);
    hide Next, Inv, Run, EverClosed, OpenedTime, Schedules, Delay;
  }

  lemma ScheduleStep(w: World, o: Options, e: Event)
    requires Inv(w) && Schedules(o, w, e)
    ensures var c, d := w.client, Next(w, o, e).client;
            var used := if e.Drop? && c.openedAt >= 0 && e.now - c.openedAt >= STABLE_CONNECTION_MS then 0
                        else c.reconnectAttempt;
            && d.reconnectTimer == Some(Delay(o, used)) && d.reconnectAttempt == used + 1
            && (e.Drop? || ((e.Connect? || e.Fire?) && e.opening == Throws))
  {
    hide Delay, Find, Delete, Greetings, Flushed, Conserved, Synchronised, Unsent;
  }

  // ---- a row of failures ----

  /** How a reconnect fails: the construction throws, the socket drops unopened, or it opens and drops. */
  datatype Failure =
    | Thrown(now: int)
    | Unopened(fired: int, dropped: int)
    | CutShort(fired: int, up: int, dropped: int)

  /** The timer fires and the reconnect fails. */
  function Fails(w: World, o: Options, f: Failure): World {
    var socket := w.client.sockets;
    match f
    case Thrown(now) => Next(w, o, Fire(Throws, now))
    case Unopened(fired, dropped) => Next(Next(w, o, Fire(OpensLater, fired)), o, Drop(socket, dropped))
    case CutShort(fired, up, dropped) =>
      Next(Next(Next(w, o, Fire(OpensLater, fired)), o, Open(socket, up)), o, Drop(socket, dropped))
  }

  function AllFail(w: World, o: Options, fs: seq<Failure>): World {
    if |fs| == 0 then w else Fails(AllFail(w, o, fs[..|fs| - 1]), o, fs[|fs| - 1])
  }

  /** Waiting to reconnect, with `closed` whether a socket has gone down before. */
  ghost predicate Waiting(c: Client, closed: bool) {
    && c.reconnectTimer.Some? && c.ws == None && !c.manuallyClosed && c.state != Connected
    && c.openedAt == if closed then 0 else -1
  }

  /** The failure starts the attempts over. */
  predicate Resets(closed: bool, f: Failure) {
    match f
    case Thrown(_) => false
    case Unopened(_, dropped) => closed && dropped >= STABLE_CONNECTION_MS
    case CutShort(_, up, dropped) => up >= 0 && dropped - up >= STABLE_CONNECTION_MS
  }

  predicate ClosedAfter(closed: bool, fs: seq<Failure>) {
    closed || exists i :: 0 <= i < |fs| && !fs[i].Thrown?
  }

  /** Attempts counted after a row of failures: those since the last that started over, itself included. */
  function Attempts(attempt: nat, closed: bool, fs: seq<Failure>): nat {
    if |fs| == 0 then attempt
    else
      var before := fs[..|fs| - 1];
      1 + if Resets(ClosedAfter(closed, before), fs[|fs| - 1]) then 0 else Attempts(attempt, closed, before)
  }

  lemma FailureStep(w: World, o: Options, f: Failure, closed: bool)
    requires o.reconnect && Waiting(w.client, closed)
    ensures var c, d := w.client, Fails(w, o, f).client;
            && d.reconnectAttempt == 1 + (if Resets(closed, f) then 0 else c.reconnectAttempt)
            && d.reconnectTimer == Some(Delay(o, if Resets(closed, f) then 0 else c.reconnectAttempt))
            && Waiting(d, closed || !f.Thrown?)
  {
    hide Delay, Greetings, Flushed;
  }

  /** After any row of failures the timer waits for the attempts since the last that started over. */
  lemma {:induction false} BackoffOfFailures(w: World, o: Options, fs: seq<Failure>, closed: bool)
    requires o.reconnect && Waiting(w.client, closed)
    ensures var d := AllFail(w, o, fs).client;
            && Waiting(d, ClosedAfter(closed, fs)) && d.reconnectAttempt == Attempts(w.client.reconnectAttempt, closed, fs)
            && (|fs| > 0 ==> d.reconnectAttempt > 0 && d.reconnectTimer == Some(Delay(o, d.reconnectAttempt - 1)))
  {
    if |fs| > 0 {
      var before, f := fs[..|fs| - 1], fs[|fs| - 1];
      BackoffOfFailures(w, o, before, closed);
      FailureStep(AllFail(w, o, before), o, f, ClosedAfter(closed, before));
      ClosedSnoc(closed, before, f);
      assert fs == before + [f];
      hide Fails, Waiting, Delay, Resets, ClosedAfter;
    }
  }

  lemma ClosedSnoc(closed: bool, before: seq<Failure>, f: Failure)
    ensures ClosedAfter(closed, before + [f]) <==> ClosedAfter(closed, before) || !f.Thrown?
  {
    var fs := before + [f];
    assert fs[|before|] == f;
    if ClosedAfter(closed, before) && !closed {
      var i :| 0 <= i < |before| && !before[i].Thrown?;
      assert fs[i] == before[i];
    }
  }

  /** No failure of the row starts over. */
  ghost predicate NoneResets(closed: bool, fs: seq<Failure>) {
    forall i :: 0 <= i < |fs| ==> !Resets(ClosedAfter(closed, fs[..i]), fs[i])
  }

  /**
   * The delays of a row of failures keep growing - each twice the one before, up to the
   * maximum - exactly as long as none of them starts over.
   */
  lemma {:induction false} GrowsIffNoneResets(attempt: nat, closed: bool, fs: seq<Failure>)
    requires attempt > 0
    ensures Attempts(attempt, closed, fs) == attempt + |fs| <==> NoneResets(closed, fs)
    ensures Attempts(attempt, closed, fs) <= attempt + |fs|
  {
    hide Resets, ClosedAfter;
    if |fs| > 0 {
      var before := fs[..|fs| - 1];
      GrowsIffNoneResets(attempt, closed, before);
      forall i | 0 <= i < |before| ensures before[..i] == fs[..i] {}
      if NoneResets(closed, before) && !Resets(ClosedAfter(closed, before), fs[|fs| - 1]) {
        forall i | 0 <= i < |fs| ensures !Resets(ClosedAfter(closed, fs[..i]), fs[i]) {
          if i < |before| { assert before[i] == fs[i]; }
        }
      }
      if NoneResets(closed, fs) {
        forall i | 0 <= i < |before| ensures !Resets(ClosedAfter(closed, before[..i]), before[i]) {
          assert before[i] == fs[i];
        }
      }
    }
  }

  /** The delay stays at the initial one exactly when every failure starts over. */
  lemma StaysAtBaseIff(w: World, o: Options, fs: seq<Failure>, closed: bool)
    requires o.reconnect && Waiting(w.client, closed) && w.client.reconnectAttempt > 0
    ensures (forall n: nat :: 0 < n <= |fs| ==> AllFail(w, o, fs[..n]).client.reconnectAttempt == 1) <==>
              forall i: nat :: i < |fs| ==> Resets(ClosedAfter(closed, fs[..i]), fs[i])
  {
    hide Resets, ClosedAfter, Waiting, AllFail;
    var a := w.client.reconnectAttempt;
    forall n: nat | 0 < n <= |fs|
      ensures AllFail(w, o, fs[..n]).client.reconnectAttempt == 1 <==> Resets(ClosedAfter(closed, fs[..n - 1]), fs[n - 1])
    {
      BackoffOfFailures(w, o, fs[..n], closed);
      AttemptsAt(a, closed, fs, n);
    }
    if forall n: nat :: 0 < n <= |fs| ==> AllFail(w, o, fs[..n]).client.reconnectAttempt == 1 {
      forall i: nat | i < |fs| ensures Resets(ClosedAfter(closed, fs[..i]), fs[i]) {
        assert AllFail(w, o, fs[..i + 1]).client.reconnectAttempt == 1;
      }
    }
    if forall i: nat :: i < |fs| ==> Resets(ClosedAfter(closed, fs[..i]), fs[i]) {
      forall n: nat | 0 < n <= |fs| ensures AllFail(w, o, fs[..n]).client.reconnectAttempt == 1 {
        var i: nat := n - 1;
        assert Resets(ClosedAfter(closed, fs[..i]), fs[i]);
      }
    }
  }

  lemma AttemptsAt(attempt: nat, closed: bool, fs: seq<Failure>, n: nat)
    requires attempt > 0 && 0 < n <= |fs|
    ensures Attempts(attempt, closed, fs[..n]) == 1 <==> Resets(ClosedAfter(closed, fs[..n - 1]), fs[n - 1])
  {
    hide Resets, ClosedAfter;
    assert fs[..n][..n - 1] == fs[..n - 1];
    AttemptsPositive(attempt, closed, fs[..n - 1]);
  }

  lemma AttemptsPositive(attempt: nat, closed: bool, fs: seq<Failure>)
    requires attempt > 0
    ensures Attempts(attempt, closed, fs) > 0
  {
    hide Resets, ClosedAfter;
  }
}
