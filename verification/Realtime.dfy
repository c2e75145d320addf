/**
 * The reconnecting realtime client, packages/client/src/realtime.ts.  Sockets, timers
 * and the clock come in as events and parameters; user handlers are not re-entrant.
 */
module Realtime {
  import opened Common

  datatype State = Idle | Connecting | Connected | Reconnecting | Closed

  datatype Frame = SubscribeTo(channel: string) | UnsubscribeFrom(channel: string) | Publication(text: string)

  datatype Sent = Sent(socket: nat, frame: Frame)

  /** How constructing a socket turns out. */
  datatype Opening = Throws | OpensLater | OpensAtOnce

  /** A channel and the handler set object registered for it, by identity. */
  datatype Handler = Handler(channel: string, group: nat)

  datatype Options = Options(reconnect: bool, reconnectDelayMs: int, maxReconnectDelayMs: int)

  const STABLE_CONNECTION_MS := 1000

  /** `wire` lists every frame handed to a socket, in order. */
  datatype Client = Client(
    ws: Option<nat>,
    handlers: seq<Handler>,
    groups: seq<set<nat>>,
    pending: seq<string>,
    reconnectTimer: Option<int>,
    reconnectAttempt: nat,
    openedAt: int,
    manuallyClosed: bool,
    state: State,
    sockets: nat,
    wire: seq<Sent>)

  const FRESH := Client(None, [], [], [], None, 0, -1, false, Idle, 0, [])

  // ---- the handler map ----

  function Find(handlers: seq<Handler>, channel: string): Option<nat> {
    if |handlers| == 0 then None
    else if handlers[0].channel == channel then Some(handlers[0].group)
    else Find(handlers[1..], channel)
  }

  function Delete(handlers: seq<Handler>, channel: string): seq<Handler> {
    if |handlers| == 0 then []
    else if handlers[0].channel == channel then Delete(handlers[1..], channel)
    else [handlers[0]] + Delete(handlers[1..], channel)
  }

  // ---- what each operation does ----

  function Greetings(handlers: seq<Handler>, socket: nat): seq<Sent> {
    if |handlers| == 0 then []
    else Greetings(handlers[..|handlers| - 1], socket) + [Sent(socket, SubscribeTo(handlers[|handlers| - 1].channel))]
  }

  function Flushed(pending: seq<string>, socket: nat): seq<Sent> {
    if |pending| == 0 then []
    else Flushed(pending[..|pending| - 1], socket) + [Sent(socket, Publication(pending[|pending| - 1]))]
  }

  function Opened(c: Client, socket: nat, now: int): Client {
    if c.ws != Some(socket) || c.manuallyClosed || c.state == Connected then c
    else
      c.(openedAt := now, state := Connected, pending := [],
         wire := c.wire + Greetings(c.handlers, socket) + Flushed(c.pending, socket))
  }

  function Pow2(n: nat): nat {
    if n == 0 then 1 else 2 * Pow2(n - 1)
  }

  function Max(a: int, b: int): int {
    if a < b then b else a
  }

  function Min(a: int, b: int): int {
    if a < b then a else b
  }

  function Delay(o: Options, attempt: nat): int {
    var base := Max(0, o.reconnectDelayMs);
    Min(Max(base, o.maxReconnectDelayMs), base * Pow2(attempt))
  }

  function Scheduled(c: Client, o: Options): Client {
    if c.manuallyClosed || !o.reconnect || c.reconnectTimer.Some? then c
    else
      c.(reconnectAttempt := c.reconnectAttempt + 1, reconnectTimer := Some(Delay(o, c.reconnectAttempt)))
  }

  function SocketOpened(c: Client, o: Options, reconnecting: bool, opening: Opening, now: int): Client {
    var trying := c.(state := if reconnecting then Reconnecting else Connecting);
    match opening
    case Throws => Scheduled(trying.(ws := None, state := Idle), o)
    case OpensLater => trying.(ws := Some(c.sockets), sockets := c.sockets + 1)
    case OpensAtOnce => Opened(trying.(ws := Some(c.sockets), sockets := c.sockets + 1), c.sockets, now)
  }

  function ClosedBy(c: Client, o: Options, socket: nat, now: int): Client {
    if c.ws != Some(socket) then c
    else
      var stable := c.openedAt >= 0 && now - c.openedAt >= STABLE_CONNECTION_MS;
      var down := c.(ws := None, openedAt := 0, reconnectAttempt := if stable then 0 else c.reconnectAttempt);
      if c.manuallyClosed then down.(state := Closed) else Scheduled(down.(state := Idle), o)
  }

  function Fired(c: Client, o: Options, opening: Opening, now: int): Client {
    var quiet := c.(reconnectTimer := None);
    if c.reconnectTimer.None? then c
    else if c.manuallyClosed then quiet
    else SocketOpened(quiet, o, true, opening, now)
  }

  function ConnectCalled(c: Client, o: Options, opening: Opening, now: int): Client {
    if c.ws.Some? || c.reconnectTimer.Some? then c
    else SocketOpened(c.(manuallyClosed := false), o, false, opening, now)
  }

  function OnWire(c: Client, frame: Frame): Client {
    if c.ws.Some? && c.state == Connected then c.(wire := c.wire + [Sent(c.ws.value, frame)]) else c
  }

  function Subscribed(c: Client, channel: string, handler: nat): Client {
    match Find(c.handlers, channel)
    case Some(g) =>
      if g < |c.groups| then c.(groups := c.groups[g := c.groups[g] + {handler}]) else c
    case None =>
      OnWire(c.(handlers := c.handlers + [Handler(channel, |c.groups|)], groups := c.groups + [{handler}]),
             SubscribeTo(channel))
  }

  /** The returned closure keeps the set object it was made for. */
  function Unsubscribed(c: Client, channel: string, group: nat, handler: nat): Client {
    if group >= |c.groups| then c
    else
      var left := c.groups[group] - {handler};
      var d := c.(groups := c.groups[group := left]);
      if left != {} then d
      else OnWire(d.(handlers := Delete(c.handlers, channel)), UnsubscribeFrom(channel))
  }

  predicate Accepts(c: Client) {
    c.ws.Some? || c.reconnectTimer.Some? || c.state == Connecting || c.state == Reconnecting
  }

  function Published(c: Client, text: string): Client {
    if !Accepts(c) then c
    else if c.ws.Some? && c.state == Connected then c.(wire := c.wire + [Sent(c.ws.value, Publication(text))])
    else c.(pending := c.pending + [text])
  }

  function CloseCalled(c: Client): Client {
    c.(manuallyClosed := true, reconnectTimer := None, ws := None, openedAt := 0, pending := [], handlers := [],
       state := Closed)
  }

  // ---- the client itself ----

  class RealtimeClient {
    const options: Options
    var ws: Option<nat>
    var handlers: seq<Handler>
    var groups: seq<set<nat>>
    var pending: seq<string>
    var reconnectTimer: Option<int>
    var reconnectAttempt: nat
    var openedAt: int
    var manuallyClosed: bool
    var currentState: State
    var sockets: nat
    var wire: seq<Sent>

    constructor (options: Options)
      ensures this.options == options && Now() == FRESH
    {
      this.options := options;
      ws, handlers, groups, pending, reconnectTimer, reconnectAttempt := None, [], [], [], None, 0;
      openedAt, manuallyClosed, currentState, sockets, wire := -1, false, Idle, 0, [];
    }

    function Now(): Client
      reads this
    {
      Client(ws, handlers, groups, pending, reconnectTimer, reconnectAttempt, openedAt, manuallyClosed, currentState,
             sockets, wire)
    }

    method Connect(opening: Opening, now: int)
      modifies this
      ensures Now() == ConnectCalled(old(Now()), options, opening, now)
      ensures old(ws).Some? || old(reconnectTimer).Some? ==> Now() == old(Now())
      ensures ws.Some? || reconnectTimer.Some? || (opening == Throws && !options.reconnect && currentState == Idle)
    {
      if ws.Some? || reconnectTimer.Some? {
        return;
      }
      manuallyClosed := false;
      OpenSocket(false, opening, now);
    }

    method OpenSocket(reconnecting: bool, opening: Opening, now: int)
      modifies this
      ensures Now() == SocketOpened(old(Now()), options, reconnecting, opening, now)
    {
      currentState := if reconnecting then Reconnecting else Connecting;
      if opening == Throws {
        ws := None;
        currentState := Idle;
        ScheduleReconnect();
        return;
      }
      ws := Some(sockets);
      sockets := sockets + 1;
      if opening == OpensAtOnce {
        HandleOpen(sockets - 1, now);
      }
    }

    method HandleOpen(socket: nat, now: int)
      modifies this
      ensures Now() == Opened(old(Now()), socket, now)
    {
      if ws != Some(socket) || manuallyClosed || currentState == Connected {
        return;
      }
      openedAt := now;
      currentState := Connected;
      var channels := handlers;
      for i := 0 to |channels|
        invariant Now() == old(Now()).(openedAt := now, state := Connected,
                                       wire := old(wire) + Greetings(channels[..i], socket))
      {
        assert channels[..i + 1][..i] == channels[..i];
        wire := wire + [Sent(socket, SubscribeTo(channels[i].channel))];
      }
      assert channels[..|channels|] == channels;
      var frames := pending;
      pending := [];
      for i := 0 to |frames|
        invariant Now() == old(Now()).(openedAt := now, state := Connected, pending := [],
                                       wire := old(wire) + Greetings(channels, socket) + Flushed(frames[..i], socket))
      {
        assert frames[..i + 1][..i] == frames[..i];
        wire := wire + [Sent(socket, Publication(frames[i]))];
      }
      assert frames[..|frames|] == frames;
    }

    method HandleClose(socket: nat, now: int)
      modifies this
      ensures Now() == ClosedBy(old(Now()), options, socket, now)
    {
      if ws != Some(socket) {
        return;
      }
      ws := None;
      if openedAt >= 0 && now - openedAt >= STABLE_CONNECTION_MS {
        reconnectAttempt := 0;
      }
      openedAt := 0;
      if manuallyClosed {
        currentState := Closed;
        return;
      }
      currentState := Idle;
      ScheduleReconnect();
    }

    method ScheduleReconnect()
      modifies this
      ensures Now() == Scheduled(old(Now()), options)
    {
      if manuallyClosed || !options.reconnect || reconnectTimer.Some? {
        return;
      }
      var base := Max(0, options.reconnectDelayMs);
      var max := Max(base, options.maxReconnectDelayMs);
      var delay := Min(max, base * Pow2(reconnectAttempt));
      reconnectAttempt := reconnectAttempt + 1;
      reconnectTimer := Some(delay);
    }

    method TimerFires(opening: Opening, now: int)
      modifies this
      ensures Now() == Fired(old(Now()), options, opening, now)
      ensures old(reconnectTimer).Some? && !old(manuallyClosed) && opening != Throws ==>
                reconnectTimer.None? && ws == Some(old(sockets)) && old(wire) <= wire
    {
      if reconnectTimer.None? {
        return;
      }
      reconnectTimer := None;
      if !manuallyClosed {
        OpenSocket(true, opening, now);
      }
    }

    method Send(frame: Frame)
      modifies this
      ensures Now() == if old(ws).Some? then old(Now()).(wire := old(wire) + [Sent(old(ws).value, frame)]) else old(Now())
    {
      if ws.Some? {
        wire := wire + [Sent(ws.value, frame)];
      }
    }

    /** The set object the returned closure will remove the handler from. */
    method Subscribe(channel: string, handler: nat) returns (group: nat)
      requires Find(handlers, channel).Some? ==> Find(handlers, channel).value < |groups|
      modifies this
      ensures Now() == Subscribed(old(Now()), channel, handler)
      ensures Some(group) == Find(handlers, channel)
    {
      var found := Find(handlers, channel);
      if found.None? {
        group := |groups|;
        FindLast(handlers, channel, group);
        handlers := handlers + [Handler(channel, group)];
        groups := groups + [{handler}];
      } else {
        group := found.value;
        groups := groups[group := groups[group] + {handler}];
      }
      if found.None? && ws.Some? && currentState == Connected {
        Send(SubscribeTo(channel));
      }
    }

    method Unsubscribe(channel: string, group: nat, handler: nat)
      requires group < |groups|
      modifies this
      ensures Now() == Unsubscribed(old(Now()), channel, group, handler)
    {
      groups := groups[group := groups[group] - {handler}];
      if groups[group] == {} {
        handlers := Delete(handlers, channel);
        if ws.Some? && currentState == Connected {
          Send(UnsubscribeFrom(channel));
        }
      }
    }

    /** False is the error for a client that is neither connected nor about to be. */
    method Publish(text: string) returns (accepted: bool)
      modifies this
      ensures accepted == Accepts(old(Now())) && Now() == Published(old(Now()), text)
    {
      accepted := true;
      if ws.None? {
        var reconnecting := reconnectTimer.Some? || currentState == Connecting || currentState == Reconnecting;
        if !reconnecting {
          return false;
        }
        pending := pending + [text];
        return;
      }
      if currentState == Connected {
        Send(Publication(text));
      } else {
        pending := pending + [text];
      }
    }

    method Close()
      modifies this
      ensures Now() == CloseCalled(old(Now()))
      ensures ws.None? && reconnectTimer.None? && pending == [] && handlers == [] && currentState == Closed
      ensures !Accepts(Now()) && wire == old(wire)
    {
      manuallyClosed := true;
      reconnectTimer := None;
      ws := None;
      openedAt := 0;
      pending := [];
      handlers := [];
      currentState := Closed;
    }
  }

  lemma {:induction false} FindLast(handlers: seq<Handler>, channel: string, group: nat)
    requires Find(handlers, channel) == None
    ensures Find(handlers + [Handler(channel, group)], channel) == Some(group)
  {
    if |handlers| > 0 {
      FindLast(handlers[1..], channel, group);
      assert (handlers + [Handler(channel, group)])[1..] == handlers[1..] + [Handler(channel, group)];
    }
  }
}
