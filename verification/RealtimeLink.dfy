/**
 * The realtime client told from its events alone: a connection that is off, waiting for
 * its timer, trying a socket or up decides what becomes of every publication, and a
 * subscription reaches the handlers it was given.
 */
module RealtimeLink {
  import opened Common
  import opened Realtime
  import opened RealtimeSafety

  // ---- the connection ----

  datatype Link = Off | Waiting | Trying(socket: nat) | Up(socket: nat)

  /** The connection, and how many sockets there have been. */
  datatype Net = Net(link: Link, sockets: nat)

  /** Constructing a socket: it throws, it will open later, or it is open at once. */
  function Dialled(n: Net, o: Options, opening: Opening): Net {
    match opening
    case Throws => n.(link := if o.reconnect then Waiting else Off)
    case OpensLater => Net(Trying(n.sockets), n.sockets + 1)
    case OpensAtOnce => Net(Up(n.sockets), n.sockets + 1)
  }

  function LinkNext(n: Net, o: Options, e: Event): Net {
    match e
    case Connect(opening, _) => if n.link == Off then Dialled(n, o, opening) else n
    case Open(socket, _) => if n.link == Trying(socket) then n.(link := Up(socket)) else n
    case Drop(socket, _) =>
      if n.link == Trying(socket) || n.link == Up(socket) then n.(link := if o.reconnect then Waiting else Off) else n
    case Fire(opening, _) => if n.link == Waiting then Dialled(n, o, opening) else n
    case Close => n.(link := Off)
    case _ => n
  }

  function LinkRun(o: Options, events: seq<Event>): Net {
    if |events| == 0 then Net(Off, 0) else LinkNext(LinkRun(o, events[..|events| - 1]), o, events[|events| - 1])
  }

  /** What the client's fields say of it. */
  function LinkOf(c: Client): Link {
    match c.ws
    case Some(socket) => if c.state == Connected then Up(socket) else Trying(socket)
    case None => if c.reconnectTimer.Some? then Waiting else Off
  }

  lemma LinkMoves(w: World, o: Options, e: Event)
    requires Inv(w)
    ensures var t := Next(w, o, e).client;
            Net(LinkOf(t), t.sockets) == LinkNext(Net(LinkOf(w.client), w.client.sockets), o, e)
  {
    hide Publications, Channels, Keys, Delay, Greetings, Flushed, Find, Delete, Unsent, Conserved, Synchronised, Grouped;
  }

  /** The client is connected, trying or waiting exactly as those few transitions say. */
  lemma {:induction false} LinkRefines(o: Options, events: seq<Event>)
    ensures var c := Run(o, events).client; Net(LinkOf(c), c.sockets) == LinkRun(o, events)
  {
    if |events| > 0 {
      LinkRefines(o, events[..|events| - 1]);
      Invariant(o, events[..|events| - 1]);
      LinkMoves(Run(o, events[..|events| - 1]), o, events[|events| - 1]);
    }
    hide Next, LinkNext, Inv;
  }

  /** The last of the calls `connect` and `close` was `connect`. */
  predicate Wanted(events: seq<Event>) {
    |events| > 0 &&
    (events[|events| - 1].Connect? || (!events[|events| - 1].Close? && Wanted(events[..|events| - 1])))
  }

  /** With reconnecting enabled it never gives up: it is off exactly before a connect or after a close. */
  lemma {:induction false} NeverGivesUp(o: Options, events: seq<Event>)
    requires o.reconnect
    ensures LinkRun(o, events).link != Off <==> Wanted(events)
  {
    if |events| > 0 { NeverGivesUp(o, events[..|events| - 1]); }
  }

  // ---- publications ----

  /** The publications made since the last close while the connection was not off. */
  function Offered(o: Options, events: seq<Event>): seq<string> {
    if |events| == 0 then []
    else
      var before, e := events[..|events| - 1], events[|events| - 1];
      if e.Close? then []
      else if e.Publish? && LinkRun(o, before).link != Off then Offered(o, before) + [e.text]
      else Offered(o, before)
  }

  /** A publication is accepted exactly when the connection is not off. */
  lemma AcceptsIff(w: World)
    requires Inv(w)
    ensures Accepts(w.client) <==> LinkOf(w.client) != Off
  {
    hide Publications, Channels, Keys, Unsent, Grouped;
  }

  lemma {:induction false} AcceptedAreOffered(o: Options, events: seq<Event>)
    ensures Run(o, events).accepted == Offered(o, events)
  {
    if |events| > 0 {
      var before := events[..|events| - 1];
      AcceptedAreOffered(o, before);
      LinkRefines(o, before);
      Invariant(o, before);
      AcceptsIff(Run(o, before));
      AcceptedMoves(Run(o, before), o, events[|events| - 1]);
      hide Next, Inv, LinkRun;
    }
  }

  lemma AcceptedMoves(w: World, o: Options, e: Event)
    ensures Next(w, o, e).accepted ==
              if e.Close? then [] else if e.Publish? && Accepts(w.client) then w.accepted + [e.text] else w.accepted
  {
    hide ConnectCalled, Opened, ClosedBy, Fired, Subscribed, Unsubscribed, Published, CloseCalled;
  }

  /**
   * What was handed to sockets since the last close, and then what is pending, is what was
   * published in that time while the connection was not off, in order; and while it is up
   * nothing is pending.
   */
  lemma PublicationsAre(o: Options, events: seq<Event>)
    ensures var w := Run(o, events);
            && w.mark <= |w.client.wire|
            && Publications(w.client.wire, w.mark) + w.client.pending == Offered(o, events)
            && (LinkRun(o, events).link.Up? ==> Publications(w.client.wire, w.mark) == Offered(o, events))
  {
    NothingLost(o, events);
    AcceptedAreOffered(o, events);
    LinkRefines(o, events);
    hide Run, LinkRun, Offered, Publications;
    var w := Run(o, events);
    assert Publications(w.client.wire, w.mark) + [] == Publications(w.client.wire, w.mark);
  }

  lemma {:induction false} FramesFor(handlers: seq<Handler>, pending: seq<string>, socket: nat)
    ensures forall sent :: sent in Greetings(handlers, socket) || sent in Flushed(pending, socket) ==> sent.socket == socket
  {
    GreetingsSockets(handlers, pending, socket);
    forall sent | sent in Greetings(handlers, socket) ensures sent.socket == socket {
      var k :| 0 <= k < |Greetings(handlers, socket)| && Greetings(handlers, socket)[k] == sent;
    }
    forall sent | sent in Flushed(pending, socket) ensures sent.socket == socket {
      var k :| 0 <= k < |Flushed(pending, socket)| && Flushed(pending, socket)[k] == sent;
    }
  }

  /** What was added to the wire went to the socket that is up afterwards. */
  ghost predicate GoesUp(c: Client, t: Client) {
    c.wire <= t.wire && forall k :: |c.wire| <= k < |t.wire| ==> LinkOf(t) == Up(t.wire[k].socket)
  }

  lemma OpenedGoesUp(c: Client, socket: nat, now: int)
    ensures GoesUp(c, Opened(c, socket, now))
  {
    var t := Opened(c, socket, now);
    FramesFor(c.handlers, c.pending, socket);
    hide Greetings, Flushed;
    if t != c {
      var more := Greetings(c.handlers, socket) + Flushed(c.pending, socket);
      assert t.wire == c.wire + more;
      forall k | |c.wire| <= k < |t.wire| ensures LinkOf(t) == Up(t.wire[k].socket) {
        assert t.wire[k] == more[k - |c.wire|] && more[k - |c.wire|] in more;
      }
    }
  }

  lemma DialledGoesUp(c: Client, o: Options, reconnecting: bool, opening: Opening, now: int)
    ensures GoesUp(c, SocketOpened(c, o, reconnecting, opening, now))
  {
    var trying := c.(state := if reconnecting then Reconnecting else Connecting);
    OpenedGoesUp(trying.(ws := Some(c.sockets), sockets := c.sockets + 1), c.sockets, now);
    hide Opened, Delay;
  }

  /** Every frame goes to the socket that is up when it is handed over. */
  lemma FramesGoUp(w: World, o: Options, e: Event)
    requires Inv(w)
    ensures GoesUp(w.client, Next(w, o, e).client)
  {
    var c := w.client;
    hide Inv, Opened, SocketOpened, Delay, Find, Delete;
    match e {
      case Connect(opening, now) => DialledGoesUp(c.(manuallyClosed := false), o, false, opening, now);
      case Fire(opening, now) => DialledGoesUp(c.(reconnectTimer := None), o, true, opening, now);
      case Open(socket, now) => OpenedGoesUp(c, socket, now);
      case _ =>
    }
  }

  // ---- subscriptions ----

  /** No two channels share a set object. */
  ghost predicate OwnGroups(handlers: seq<Handler>) {
    forall i, j :: 0 <= i < j < |handlers| ==> handlers[i].group != handlers[j].group
  }

  lemma {:induction false} DeleteOwn(handlers: seq<Handler>, channel: string)
    requires OwnGroups(handlers)
    ensures OwnGroups(Delete(handlers, channel))
    ensures forall h :: h in Delete(handlers, channel) ==> h in handlers
  {
    if |handlers| > 0 {
      var more := handlers[1..];
      assert forall i :: 0 <= i < |more| ==> more[i] == handlers[i + 1];
      DeleteOwn(more, channel);
      assert handlers == [handlers[0]] + more;
      forall h | h in Delete(more, channel) ensures h.group != handlers[0].group {
        var i :| 0 <= i < |more| && more[i] == h;
        assert handlers[i + 1] == h;
      }
    }
  }

  lemma OwnMoves(w: World, o: Options, e: Event)
    requires Inv(w) && OwnGroups(w.client.handlers)
    ensures OwnGroups(Next(w, o, e).client.handlers)
  {
    if e.Unsubscribe? { DeleteOwn(w.client.handlers, e.channel); }
    assert forall i :: 0 <= i < |w.client.handlers| ==> w.client.handlers[i].group < |w.client.groups|;
    hide Publications, Channels, Keys, Delay, Greetings, Flushed, Find, Delete, Unsent, Conserved, Synchronised, Lifecycle;
  }

  lemma {:induction false} GroupsAreOwn(o: Options, events: seq<Event>)
    ensures OwnGroups(Run(o, events).client.handlers)
  {
    if |events| > 0 {
      GroupsAreOwn(o, events[..|events| - 1]);
      Invariant(o, events[..|events| - 1]);
      OwnMoves(Run(o, events[..|events| - 1]), o, events[|events| - 1]);
    }
    hide Next, Inv;
  }

  lemma {:induction false} FindIs(handlers: seq<Handler>, channel: string)
    ensures Find(handlers, channel).Some? ==> Handler(channel, Find(handlers, channel).value) in handlers
  {
    if |handlers| > 0 { FindIs(handlers[1..], channel); }
  }

  lemma FindOwn(handlers: seq<Handler>, a: string, b: string)
    requires OwnGroups(handlers) && a != b && Find(handlers, a).Some? && Find(handlers, b).Some?
    ensures Find(handlers, a).value != Find(handlers, b).value
  {
    FindIs(handlers, a);
    FindIs(handlers, b);
    var i :| 0 <= i < |handlers| && handlers[i] == Handler(a, Find(handlers, a).value);
    var j :| 0 <= j < |handlers| && handlers[j] == Handler(b, Find(handlers, b).value);
    hide Find;
  }

  lemma {:induction false} FindBehind(handlers: seq<Handler>, h: Handler, channel: string)
    ensures Find(handlers + [h], channel) ==
              if Find(handlers, channel).Some? then Find(handlers, channel)
              else if h.channel == channel then Some(h.group) else None
  {
    if |handlers| > 0 {
      assert (handlers + [h])[1..] == handlers[1..] + [h];
      FindBehind(handlers[1..], h, channel);
    } else {
      assert handlers + [h] == [h] && [h][1..] == [];
    }
  }

  /** A subscription adds its handler to those its channel reaches, and no other channel notices. */
  lemma SubscribeAddsOne(o: Options, events: seq<Event>, channel: string, handler: nat, other: string)
    ensures var c := Run(o, events).client; var d := Subscribed(c, channel, handler);
            && Reached(d, channel) == Reached(c, channel) + {handler}
            && (other != channel ==> Reached(d, other) == Reached(c, other))
  {
    var c := Run(o, events).client;
    Invariant(o, events);
    GroupsAreOwn(o, events);
    GroupsExist(o, events, [], channel);
    GroupsExist(o, events, [], other);
    hide Run, Inv;
    SubscribeReaches(c, channel, handler, other);
  }

  lemma SubscribeReaches(c: Client, channel: string, handler: nat, other: string)
    requires OwnGroups(c.handlers)
    requires Find(c.handlers, channel).Some? ==> Find(c.handlers, channel).value < |c.groups|
    requires Find(c.handlers, other).Some? ==> Find(c.handlers, other).value < |c.groups|
    ensures var d := Subscribed(c, channel, handler);
            && Reached(d, channel) == Reached(c, channel) + {handler}
            && (other != channel ==> Reached(d, other) == Reached(c, other))
  {
    var h := Handler(channel, |c.groups|);
    FindBehind(c.handlers, h, channel);
    FindBehind(c.handlers, h, other);
    if Find(c.handlers, channel).Some? && Find(c.handlers, other).Some? && other != channel {
      FindOwn(c.handlers, channel, other);
    }
    hide Find;
  }

  lemma {:induction false} FindElsewhere(handlers: seq<Handler>, channel: string, other: string)
    requires other != channel
    ensures Find(Delete(handlers, channel), other) == Find(handlers, other)
  {
    if |handlers| > 0 { FindElsewhere(handlers[1..], channel, other); }
  }

  /** The set object `group` is no other channel's. */
  ghost predicate OnlyFor(c: Client, group: nat, channel: string) {
    forall h :: h in c.handlers && h.group == group ==> h.channel == channel
  }

  lemma LeavesOthers(c: Client, channel: string, group: nat, handler: nat, other: string)
    requires other != channel && OnlyFor(c, group, channel)
    ensures Reached(Unsubscribed(c, channel, group, handler), other) == Reached(c, other)
  {
    FindElsewhere(c.handlers, channel, other);
    FindIs(c.handlers, other);
    hide Find, Delete;
  }

  lemma OnlyForMoves(w: World, o: Options, e: Event, group: nat, channel: string)
    requires group < |w.client.groups| && OnlyFor(w.client, group, channel) && OwnGroups(w.client.handlers)
    ensures group < |Next(w, o, e).client.groups| && OnlyFor(Next(w, o, e).client, group, channel)
  {
    if e.Unsubscribe? { DeleteOwn(w.client.handlers, e.channel); }
    GroupsStay(w, o, e);
    hide Publications, Delay, Greetings, Flushed, Find, Delete;
  }

  lemma {:induction false} OnlyForStays(o: Options, before: seq<Event>, after: seq<Event>, group: nat, channel: string)
    requires var c := Run(o, before).client; group < |c.groups| && OnlyFor(c, group, channel)
    ensures var c := Run(o, before + after).client; group < |c.groups| && OnlyFor(c, group, channel)
    decreases |after|
  {
    hide Run, Next, OnlyFor;
    if |after| > 0 {
      var n := |after| - 1;
      OnlyForStays(o, before, after[..n], group, channel);
      assert before + after == (before + after[..n]) + [after[n]];
      RunSnoc(o, before + after[..n], after[n]);
      GroupsAreOwn(o, before + after[..n]);
      OnlyForMoves(Run(o, before + after[..n]), o, after[n], group, channel);
    } else {
      assert before + after == before;
    }
  }

  /**
   * The function a subscription returned, whenever it is called and however often, leaves the
   * handlers of every other channel alone.
   */
  lemma UnsubscribeLeavesOthers(o: Options, before: seq<Event>, after: seq<Event>, channel: string, handler: nat,
                                other: string)
    requires other != channel
    ensures var group := Find(Run(o, before).client.handlers, channel);
            group.Some? ==>
              var c := Run(o, before + after).client;
              Reached(Unsubscribed(c, channel, group.value, handler), other) == Reached(c, other)
  {
    var c := Run(o, before).client;
    if Find(c.handlers, channel).Some? {
      var group := Find(c.handlers, channel).value;
      GroupsAreOwn(o, before);
      GroupsExist(o, before, [], channel);
      FindIs(c.handlers, channel);
      hide Run, Find;
      FoundIsOwn(c, channel, group);
      OnlyForStays(o, before, after, group, channel);
      LeavesOthers(Run(o, before + after).client, channel, group, handler, other);
    }
  }

  lemma FoundIsOwn(c: Client, channel: string, group: nat)
    requires OwnGroups(c.handlers) && Handler(channel, group) in c.handlers
    ensures OnlyFor(c, group, channel)
  {
    forall h | h in c.handlers && h.group == group ensures h.channel == channel {
      var i :| 0 <= i < |c.handlers| && c.handlers[i] == h;
      var j :| 0 <= j < |c.handlers| && c.handlers[j] == Handler(channel, group);
    }
  }
}
