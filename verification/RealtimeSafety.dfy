/**
 * What every run of connects, opens, closes, timers, publications and subscriptions
 * keeps.  `accepted` lists the publications accepted since the last close, `mark` is how
 * far the wire had come at that close.
 */
module RealtimeSafety {
  import opened Common
  import opened Realtime

  datatype World = World(client: Client, accepted: seq<string>, mark: nat)

  datatype Event =
    | Connect(opening: Opening, now: int)
    | Open(socket: nat, now: int)
    | Drop(socket: nat, now: int)
    | Fire(opening: Opening, now: int)
    | Subscribe(channel: string, handler: nat)
    | Unsubscribe(channel: string, group: nat, handler: nat)
    | Publish(text: string)
    | Close

  const START := World(FRESH, [], 0)

  function Next(w: World, o: Options, e: Event): World {
    var c := w.client;
    match e
    case Connect(opening, now) => w.(client := ConnectCalled(c, o, opening, now))
    case Open(socket, now) => w.(client := Opened(c, socket, now))
    case Drop(socket, now) => w.(client := ClosedBy(c, o, socket, now))
    case Fire(opening, now) => w.(client := Fired(c, o, opening, now))
    case Subscribe(channel, handler) => w.(client := Subscribed(c, channel, handler))
    case Unsubscribe(channel, group, handler) => w.(client := Unsubscribed(c, channel, group, handler))
    case Publish(text) =>
      World(Published(c, text), if Accepts(c) then w.accepted + [text] else w.accepted, w.mark)
    case Close => World(CloseCalled(c), [], |c.wire|)
  }

  function Run(o: Options, events: seq<Event>): World {
    if |events| == 0 then START else Next(Run(o, events[..|events| - 1]), o, events[|events| - 1])
  }

  // ---- reading the wire ----

  /** The publications handed to sockets from position `from` on. */
  function Publications(wire: seq<Sent>, from: nat): seq<string> {
    if |wire| <= from then []
    else
      var before, last := Publications(wire[..|wire| - 1], from), wire[|wire| - 1];
      if last.frame.Publication? then before + [last.frame.text] else before
  }

  /** The channels the server has subscribed for a socket. */
  function Channels(wire: seq<Sent>, socket: nat): set<string> {
    if |wire| == 0 then {}
    else
      var before, last := Channels(wire[..|wire| - 1], socket), wire[|wire| - 1];
      if last.socket != socket then before
      else match last.frame
        case SubscribeTo(channel) => before + {channel}
        case UnsubscribeFrom(channel) => before - {channel}
        case Publication(_) => before
  }

  function Keys(handlers: seq<Handler>): set<string> {
    set i | 0 <= i < |handlers| :: handlers[i].channel
  }

  lemma WireSnoc(wire: seq<Sent>, sent: Sent, from: nat, socket: nat)
    requires from <= |wire|
    ensures Publications(wire + [sent], from) ==
            if sent.frame.Publication? then Publications(wire, from) + [sent.frame.text] else Publications(wire, from)
    ensures Channels(wire + [sent], socket) ==
            if sent.socket != socket || sent.frame.Publication? then Channels(wire, socket)
            else if sent.frame.SubscribeTo? then Channels(wire, socket) + {sent.frame.channel}
            else Channels(wire, socket) - {sent.frame.channel}
  {
    assert (wire + [sent])[..|wire|] == wire;
  }

  lemma {:induction false} WireGreetings(wire: seq<Sent>, handlers: seq<Handler>, from: nat, socket: nat)
    requires from <= |wire|
    ensures Publications(wire + Greetings(handlers, socket), from) == Publications(wire, from)
    ensures Channels(wire + Greetings(handlers, socket), socket) == Channels(wire, socket) + Keys(handlers)
  {
    if |handlers| > 0 {
      var n := |handlers| - 1;
      WireGreetings(wire, handlers[..n], from, socket);
      var sent := Sent(socket, SubscribeTo(handlers[n].channel));
      WireSnoc(wire + Greetings(handlers[..n], socket), sent, from, socket);
      assert wire + Greetings(handlers, socket) == wire + Greetings(handlers[..n], socket) + [sent];
      KeysSnoc(handlers[..n], handlers[n]);
      assert handlers == handlers[..n] + [handlers[n]];
    } else {
      assert wire + Greetings(handlers, socket) == wire;
    }
  }

  lemma KeysSnoc(handlers: seq<Handler>, h: Handler)
    ensures Keys(handlers + [h]) == Keys(handlers) + {h.channel}
  {
    var all := handlers + [h];
    forall k | k in Keys(handlers) ensures k in Keys(all) {
      var i :| 0 <= i < |handlers| && handlers[i].channel == k;
      assert all[i].channel == k;
    }
    assert all[|handlers|].channel == h.channel;
  }

  lemma {:induction false} WireFlushed(wire: seq<Sent>, pending: seq<string>, from: nat, socket: nat)
    requires from <= |wire|
    ensures Publications(wire + Flushed(pending, socket), from) == Publications(wire, from) + pending
    ensures Channels(wire + Flushed(pending, socket), socket) == Channels(wire, socket)
  {
    if |pending| > 0 {
      var n := |pending| - 1;
      WireFlushed(wire, pending[..n], from, socket);
      var sent := Sent(socket, Publication(pending[n]));
      WireSnoc(wire + Flushed(pending[..n], socket), sent, from, socket);
      assert wire + Flushed(pending, socket) == wire + Flushed(pending[..n], socket) + [sent];
      assert pending == pending[..n] + [pending[n]];
    } else {
      assert wire + Flushed(pending, socket) == wire;
      assert Publications(wire, from) + pending == Publications(wire, from);
    }
  }

  lemma {:induction false} UnusedSocket(wire: seq<Sent>, socket: nat)
    requires forall k :: 0 <= k < |wire| ==> wire[k].socket != socket
    ensures Channels(wire, socket) == {}
  {
    if |wire| > 0 { UnusedSocket(wire[..|wire| - 1], socket); }
  }

  // ---- invariant ----

  ghost predicate Unsent(c: Client, socket: nat) {
    forall k :: 0 <= k < |c.wire| ==> c.wire[k].socket < socket
  }

  /** A socket or a timer, never both; connected means a socket and nothing left to send. */
  ghost predicate Lifecycle(c: Client) {
    && !(c.ws.Some? && c.reconnectTimer.Some?)
    && (c.state == Connected ==> c.ws.Some? && c.pending == [])
    && (c.state == Connecting || c.state == Reconnecting ==> c.ws.Some?)
    && (c.manuallyClosed ==> c.ws.None? && c.reconnectTimer.None? && c.state == Closed && c.pending == [])
    && (c.state != Connected ==> c.openedAt <= 0)
    && (c.ws.Some? ==> c.ws.value < c.sockets && (c.state == Connected || Unsent(c, c.ws.value)))
    && Unsent(c, c.sockets)
  }

  ghost predicate Conserved(w: World) {
    w.mark <= |w.client.wire| && Publications(w.client.wire, w.mark) + w.client.pending == w.accepted
  }

  /** While connected the server has exactly the channels handled here. */
  ghost predicate Synchronised(c: Client) {
    c.state == Connected && c.ws.Some? ==> Channels(c.wire, c.ws.value) == Keys(c.handlers)
  }

  /** Every channel handled here has its set object. */
  ghost predicate Grouped(c: Client) {
    GroupsBelow(c.handlers, |c.groups|)
  }

  ghost predicate Inv(w: World) {
    Lifecycle(w.client) && Grouped(w.client) && Conserved(w) && Synchronised(w.client)
  }

  lemma {:induction false} GreetingsSockets(handlers: seq<Handler>, pending: seq<string>, socket: nat)
    ensures forall k :: 0 <= k < |Greetings(handlers, socket)| ==> Greetings(handlers, socket)[k].socket == socket
    ensures forall k :: 0 <= k < |Flushed(pending, socket)| ==> Flushed(pending, socket)[k].socket == socket
    decreases |handlers| + |pending|
  {
    if |handlers| > 0 { GreetingsSockets(handlers[..|handlers| - 1], pending, socket); }
    if |pending| > 0 { GreetingsSockets(handlers, pending[..|pending| - 1], socket); }
  }

  /** Opening: the greetings synchronise the channels, the flush empties the backlog in order. */
  lemma OpenedKeeps(w: World, socket: nat, now: int)
    requires Inv(w)
    ensures Inv(w.(client := Opened(w.client, socket, now)))
  {
    var c := w.client;
    var t := Opened(c, socket, now);
    if t != c {
      var greeted := c.wire + Greetings(c.handlers, socket);
      WireGreetings(c.wire, c.handlers, w.mark, socket);
      WireFlushed(greeted, c.pending, w.mark, socket);
      UnusedSocket(c.wire, socket);
      GreetingsSockets(c.handlers, c.pending, socket);
      assert t.wire == greeted + Flushed(c.pending, socket);
      assert {} + Keys(c.handlers) == Keys(c.handlers);
      hide Greetings, Flushed, Keys, Channels, Publications;
    }
  }

  lemma ScheduledKeeps(w: World, o: Options)
    requires Inv(w) && w.client.ws.None?
    ensures Inv(w.(client := Scheduled(w.client, o)))
  {
    hide Publications, Channels, Keys, Delay;
  }

  lemma SocketOpenedKeeps(w: World, o: Options, reconnecting: bool, opening: Opening, now: int)
    requires Inv(w) && w.client.ws.None? && w.client.reconnectTimer.None? && !w.client.manuallyClosed
    ensures Inv(w.(client := SocketOpened(w.client, o, reconnecting, opening, now)))
  {
    hide Publications, Channels, Keys, Delay, Opened;
    var trying := w.client.(state := if reconnecting then Reconnecting else Connecting);
    match opening {
      case Throws => ScheduledKeeps(w.(client := trying.(ws := None, state := Idle)), o);
      case _ =>
        var up := w.(client := trying.(ws := Some(w.client.sockets), sockets := w.client.sockets + 1));
        assert Inv(up);
        if opening == OpensAtOnce { OpenedKeeps(up, w.client.sockets, now); }
    }
  }

  lemma ClosedKeeps(w: World, o: Options, socket: nat, now: int)
    requires Inv(w)
    ensures Inv(w.(client := ClosedBy(w.client, o, socket, now)))
  {
    hide Publications, Channels, Keys, Delay, Scheduled;
    var c := w.client;
    if c.ws == Some(socket) {
      var stable := c.openedAt >= 0 && now - c.openedAt >= STABLE_CONNECTION_MS;
      var down := c.(ws := None, openedAt := 0, reconnectAttempt := if stable then 0 else c.reconnectAttempt,
                     state := Idle);
      assert Inv(w.(client := down));
      ScheduledKeeps(w.(client := down), o);
    }
  }

  lemma {:induction false} DeleteKeys(handlers: seq<Handler>, channel: string)
    ensures Keys(Delete(handlers, channel)) == Keys(handlers) - {channel}
  {
    if |handlers| > 0 {
      DeleteKeys(handlers[1..], channel);
      KeysCons(handlers[0], handlers[1..]);
      KeysCons(handlers[0], Delete(handlers[1..], channel));
      assert handlers == [handlers[0]] + handlers[1..];
    }
  }

  predicate GroupsBelow(handlers: seq<Handler>, n: nat) {
    forall i :: 0 <= i < |handlers| ==> handlers[i].group < n
  }

  lemma {:induction false} DeleteGroups(handlers: seq<Handler>, channel: string, n: nat)
    requires GroupsBelow(handlers, n)
    ensures GroupsBelow(Delete(handlers, channel), n)
  {
    if |handlers| > 0 {
      var more := handlers[1..];
      assert GroupsBelow(more, n) by { assert forall i :: 0 <= i < |more| ==> more[i] == handlers[i + 1]; }
      DeleteGroups(more, channel, n);
      GroupsCons(handlers[0], Delete(more, channel), n);
    }
  }

  lemma GroupsCons(h: Handler, handlers: seq<Handler>, n: nat)
    requires GroupsBelow(handlers, n) && h.group < n
    ensures GroupsBelow([h] + handlers, n)
  {
  }

  lemma KeysCons(h: Handler, handlers: seq<Handler>)
    ensures Keys([h] + handlers) == {h.channel} + Keys(handlers)
  {
    var all := [h] + handlers;
    forall k | k in Keys(handlers) ensures k in Keys(all) {
      var i :| 0 <= i < |handlers| && handlers[i].channel == k;
      assert all[i + 1].channel == k;
    }
    assert all[0].channel == h.channel;
  }

  lemma {:induction false} FindIsKey(handlers: seq<Handler>, channel: string)
    ensures Find(handlers, channel).Some? <==> channel in Keys(handlers)
  {
    if |handlers| > 0 {
      FindIsKey(handlers[1..], channel);
      KeysCons(handlers[0], handlers[1..]);
      assert handlers == [handlers[0]] + handlers[1..];
    }
  }

  lemma SubscribedKeeps(w: World, channel: string, handler: nat)
    requires Inv(w)
    ensures Inv(w.(client := Subscribed(w.client, channel, handler)))
  {
    var c := w.client;
    hide Publications, Channels, Keys, Find;
    FindIsKey(c.handlers, channel);
    KeysSnoc(c.handlers, Handler(channel, |c.groups|));
    if c.ws.Some? { WireSnoc(c.wire, Sent(c.ws.value, SubscribeTo(channel)), w.mark, c.ws.value); }
  }

  lemma UnsubscribedKeeps(w: World, channel: string, group: nat, handler: nat)
    requires Inv(w)
    ensures Inv(w.(client := Unsubscribed(w.client, channel, group, handler)))
  {
    var c := w.client;
    hide Publications, Channels, Keys, Delete;
    DeleteKeys(c.handlers, channel);
    DeleteGroups(c.handlers, channel, |c.groups|);
    if c.ws.Some? { WireSnoc(c.wire, Sent(c.ws.value, UnsubscribeFrom(channel)), w.mark, c.ws.value); }
  }

  lemma PublishedKeeps(w: World, text: string)
    requires Inv(w)
    ensures Inv(Next(w, Options(true, 0, 0), Publish(text)))
  {
    var c := w.client;
    hide Publications, Channels, Keys;
    if c.ws.Some? { WireSnoc(c.wire, Sent(c.ws.value, Publication(text)), w.mark, c.ws.value); }
    assert Publications(c.wire, w.mark) + (c.pending + [text]) == Publications(c.wire, w.mark) + c.pending + [text];
    assert Publications(c.wire, w.mark) + [] == Publications(c.wire, w.mark);
    assert Publications(c.wire, w.mark) + [text] + [] == Publications(c.wire, w.mark) + [text];
  }

  lemma CloseKeeps(w: World)
    requires Inv(w)
    ensures Inv(Next(w, Options(true, 0, 0), Close))
  {
    assert Publications(w.client.wire, |w.client.wire|) == [];
  }

  lemma NextKeeps(w: World, o: Options, e: Event)
    requires Inv(w)
    ensures Inv(Next(w, o, e))
  {
    hide Opened, SocketOpened, ClosedBy, Scheduled, Subscribed, Unsubscribed, Published, CloseCalled;
    hide Conserved, Synchronised, Unsent;
    match e {
      case Connect(opening, now) =>
        if w.client.ws.None? && w.client.reconnectTimer.None? {
          Unmark(w, false);
          SocketOpenedKeeps(w.(client := w.client.(manuallyClosed := false)), o, false, opening, now);
        }
      case Open(socket, now) => OpenedKeeps(w, socket, now);
      case Drop(socket, now) => ClosedKeeps(w, o, socket, now);
      case Fire(opening, now) =>
        if w.client.reconnectTimer.Some? {
          Quiet(w);
          SocketOpenedKeeps(w.(client := w.client.(reconnectTimer := None)), o, true, opening, now);
        }
      case Subscribe(channel, handler) => SubscribedKeeps(w, channel, handler);
      case Unsubscribe(channel, group, handler) => UnsubscribedKeeps(w, channel, group, handler);
      case Publish(text) => PublishedKeeps(w, text);
      case Close => CloseKeeps(w);
    }
  }

  lemma Unmark(w: World, flag: bool)
    requires Inv(w) && !flag
    ensures Inv(w.(client := w.client.(manuallyClosed := flag)))
  {
    hide Publications, Channels, Keys;
  }

  lemma Quiet(w: World)
    requires Inv(w) && w.client.reconnectTimer.Some?
    ensures Inv(w.(client := w.client.(reconnectTimer := None)))
  {
    hide Publications, Channels, Keys;
  }

  lemma {:induction false} Invariant(o: Options, events: seq<Event>)
    ensures Inv(Run(o, events))
  {
    hide Inv, Next;
    if |events| > 0 {
      Invariant(o, events[..|events| - 1]);
      NextKeeps(Run(o, events[..|events| - 1]), o, events[|events| - 1]);
    } else {
      StartOk();
    }
  }

  lemma StartOk()
    ensures Inv(START)
  {
  }

  /** A live socket and a reconnect timer never coexist. */
  lemma SocketOrTimer(o: Options, events: seq<Event>)
    ensures var c := Run(o, events).client;
            !(c.ws.Some? && c.reconnectTimer.Some?) && (c.state == Connected ==> c.ws.Some?)
  {
    Invariant(o, events);
  }

  /**
   * Nothing accepted is lost, doubled or reordered: what was handed to sockets since the
   * last close followed by what is pending is what was accepted since then.
   */
  lemma NothingLost(o: Options, events: seq<Event>)
    ensures var w := Run(o, events);
            w.mark <= |w.client.wire| && Publications(w.client.wire, w.mark) + w.client.pending == w.accepted
    ensures Run(o, events).client.state == Connected ==> Run(o, events).client.pending == []
  {
    Invariant(o, events);
  }

  /** While connected, the channels subscribed on the wire are the channels handled here. */
  lemma ChannelsAgree(o: Options, events: seq<Event>)
    requires Run(o, events).client.state == Connected
    ensures Run(o, events).client.ws.Some?
    ensures Channels(Run(o, events).client.wire, Run(o, events).client.ws.value) == Keys(Run(o, events).client.handlers)
  {
    Invariant(o, events);
  }

  /**
   * What `subscribe` finds for a channel is one of the set objects, and the set object a
   * subscription was given remains one of them whatever happens later.
   */
  lemma {:induction false} GroupsExist(o: Options, events: seq<Event>, more: seq<Event>, channel: string)
    ensures var c := Run(o, events).client; Find(c.handlers, channel).Some? ==> Find(c.handlers, channel).value < |c.groups|
    ensures |Run(o, events).client.groups| <= |Run(o, events + more).client.groups|
    decreases |more|
  {
    Invariant(o, events);
    FindsGroup(Run(o, events).client.handlers, channel, |Run(o, events).client.groups|);
    hide Run, Find, Inv;
    if |more| > 0 {
      var n := |more| - 1;
      GroupsExist(o, events, more[..n], channel);
      assert events + more == (events + more[..n]) + [more[n]];
      RunSnoc(o, events + more[..n], more[n]);
      GroupsStay(Run(o, events + more[..n]), o, more[n]);
    } else {
      assert events + more == events;
    }
  }

  lemma {:induction false} FindsGroup(handlers: seq<Handler>, channel: string, n: nat)
    requires GroupsBelow(handlers, n)
    ensures Find(handlers, channel).Some? ==> Find(handlers, channel).value < n
  {
    if |handlers| > 0 {
      assert forall i :: 0 <= i < |handlers| - 1 ==> handlers[1..][i] == handlers[i + 1];
      FindsGroup(handlers[1..], channel, n);
    }
  }

  lemma GroupsStay(w: World, o: Options, e: Event)
    ensures |w.client.groups| <= |Next(w, o, e).client.groups|
  {
    hide Find, Delete, Greetings, Flushed, Delay;
  }

  lemma RunSnoc(o: Options, events: seq<Event>, e: Event)
    ensures Run(o, events + [e]) == Next(Run(o, events), o, e)
  {
    assert (events + [e])[..|events|] == events;
    hide Next;
  }

  // ---- stale unsubscribe closures ----

  /** The handlers a message on the channel reaches. */
  function Reached(c: Client, channel: string): set<nat> {
    match Find(c.handlers, channel)
    case None => {}
    case Some(g) => if g < |c.groups| then c.groups[g] else {}
  }

  lemma {:induction false} DeleteThenFind(handlers: seq<Handler>, channel: string)
    ensures Find(Delete(handlers, channel), channel) == None
  {
    if |handlers| > 0 { DeleteThenFind(handlers[1..], channel); }
  }

  /**
   * An unsubscribe closure removes just its own handler exactly when it does not empty a
   * set object that has since been replaced by another with handlers in it.
   */
  lemma UnsubscribeRemovesOneIff(c: Client, channel: string, group: nat, handler: nat)
    requires group < |c.groups|
    ensures var own := Find(c.handlers, channel) == Some(group);
            Reached(Unsubscribed(c, channel, group, handler), channel) ==
              Reached(c, channel) - (if own then {handler} else {})
            <==> own || c.groups[group] - {handler} != {} || Reached(c, channel) == {}
  {
    DeleteThenFind(c.handlers, channel);
    hide Find, Delete;
  }

  /** Calling the same unsubscribe closure twice can silence a handler registered in between. */
  lemma SecondUnsubscribeSilencesAnother(o: Options, channel: string, first: nat, second: nat)
    ensures var before := Run(o, [Subscribe(channel, first), Unsubscribe(channel, 0, first), Subscribe(channel, second)]);
            Reached(before.client, channel) == {second}
            && Reached(Next(before, o, Unsubscribe(channel, 0, first)).client, channel) == {}
  {
    var a := [Subscribe(channel, first)];
    var b := a + [Unsubscribe(channel, 0, first)];
    RunSnoc(o, [], Subscribe(channel, first));
    RunSnoc(o, a, Unsubscribe(channel, 0, first));
    RunSnoc(o, b, Subscribe(channel, second));
    assert [] + a == a;
    assert b + [Subscribe(channel, second)] ==
      [Subscribe(channel, first), Unsubscribe(channel, 0, first), Subscribe(channel, second)];
    assert [Handler(channel, 0)][1..] == [] && [Handler(channel, 1)][1..] == [];
    var none: set<nat> := {};
    assert {first} - {first} == none && none - {first} == none;
    assert [{first}][0 := none] == [none] && [none, {second}][0 := none] == [none, {second}];
    assert Delete([Handler(channel, 0)], channel) == [];
    assert Run(o, a).client == FRESH.(handlers := [Handler(channel, 0)], groups := [{first}]);
    assert Run(o, b).client == FRESH.(groups := [none]);
    assert [none] + [{second}] == [none, {second}];
    assert Run(o, b + [Subscribe(channel, second)]).client ==
      FRESH.(handlers := [Handler(channel, 1)], groups := [none, {second}]);
  }
}
