/** One mounted effect of `useWebSocket`: its socket, its timers, the check that tells a rejected
    handshake from a lost connection, and the status it writes to the store. An event is one callback.
    Browsers deliver `open` only while a socket is connecting, messages only while it is open, and
    `close` once. Delays are milliseconds. */
module Reconnect {
  import opened Wrappers

  const INITIAL_BACKOFF_MS := 1000.0
  const MAX_BACKOFF_MS := 30000.0
  const BACKOFF_MULTIPLIER := 1.5

  datatype Status = Connecting | Connected | Reconnecting | Disconnected

  datatype ReadyState = CONNECTING | OPEN | CLOSING | CLOSED

  datatype Socket = Socket(
    ready: ReadyState,
    hasOpened: bool,          // `openedThisAttempt`
    handshakeTimer: bool,  // armed
    completed: bool)       // history: it got the "connected" message

  datatype Hook = Hook(
    unmounted: bool,
    status: Status,
    hasConnected: bool,
    backoff: real,
    sockets: seq<Socket>,  // of all attempts; `wsRef` is the last one
    reconnectTimer: bool,  // armed
    authChecks: nat,       // in flight
    redirected: bool,      // navigated to the login page
    delays: seq<real>)     // history: reconnect delays since the last completed handshake

  /** The effect runs: `connect()` on a store with this status. */
  function Mounted(status: Status): Hook {
    Connect(Hook(false, status, false, INITIAL_BACKOFF_MS, [], false, 0, false, []))
  }

  datatype Event =
    | Open(socket: nat)
    | ConnectedMessage(socket: nat)
    | HandshakeTimeout(socket: nat)
    | Error(socket: nat)
    | Close(socket: nat)
    | AuthCheckEnds(unauthorized: bool)  // any other end, its own timeout included, is not a 401
    | ReconnectTimerFires
    | Unmount

  predicate Enabled(h: Hook, e: Event) {
    match e
    case Open(i) => i < |h.sockets| && h.sockets[i].ready == CONNECTING
    case ConnectedMessage(i) => i < |h.sockets| && h.sockets[i].ready == OPEN
    case HandshakeTimeout(i) => i < |h.sockets| && h.sockets[i].handshakeTimer
    case Error(i) => i < |h.sockets| && h.sockets[i].ready != CLOSED
    case Close(i) => i < |h.sockets| && h.sockets[i].ready != CLOSED
    case AuthCheckEnds(_) => h.authChecks > 0
    case ReconnectTimerFires => h.reconnectTimer
    case Unmount => !h.unmounted
  }

  function CloseLast(sockets: seq<Socket>): seq<Socket> {
    if sockets == [] then [] else sockets[|sockets| - 1 := CloseSocket(sockets[|sockets| - 1])]
  }

  function Connect(h: Hook): Hook {
    if h.unmounted then h
    else
      h.(status := if !h.hasConnected && h.status == Disconnected then Connecting else h.status,
         sockets := h.sockets + [Socket(CONNECTING, false, false, false)])
  }

  function CloseSocket(s: Socket): Socket {
    if s.ready == CONNECTING || s.ready == OPEN then s.(ready := CLOSING) else s
  }

  function ScheduleReconnect(h: Hook): Hook {
    var delay := if h.backoff < MAX_BACKOFF_MS then h.backoff else MAX_BACKOFF_MS;
    h.(backoff := delay * BACKOFF_MULTIPLIER, reconnectTimer := true, delays := h.delays + [delay])
  }

  function Next(h: Hook, e: Event): Hook
    requires Enabled(h, e)
  {
    match e
    case Open(i) =>
      h.(sockets := h.sockets[i := h.sockets[i].(ready := OPEN, hasOpened := true, handshakeTimer := true)])
    case ConnectedMessage(i) =>
      h.(backoff := INITIAL_BACKOFF_MS,
         status := Connected,
         hasConnected := true,
         sockets := h.sockets[i := h.sockets[i].(handshakeTimer := false, completed := true)],
         delays := [])
    case HandshakeTimeout(i) =>
      var s := h.sockets[i].(handshakeTimer := false);
      h.(sockets := h.sockets[i := if !h.hasConnected || h.status != Connected then CloseSocket(s) else s])
    case Error(i) => h.(sockets := h.sockets[i := CloseSocket(h.sockets[i])])
    case Close(i) =>
      var s := h.sockets[i];
      OnClose(h.(sockets := h.sockets[i := s.(ready := CLOSED, handshakeTimer := false)]), s.hasOpened)
    case AuthCheckEnds(unauthorized) =>
      var h' := h.(authChecks := h.authChecks - 1);
      if h.unmounted then h'
      else if unauthorized then h'.(redirected := true)
      else ScheduleReconnect(h')
    case ReconnectTimerFires => Connect(h.(reconnectTimer := false))
    case Unmount =>
      h.(unmounted := true,
         reconnectTimer := false,
         sockets := CloseLast(h.sockets),
         status := Disconnected)
  }

  function OnClose(h: Hook, hasOpened: bool): Hook {
    if h.unmounted then h
    else
      var h' := h.(status := if h.hasConnected then Reconnecting else Disconnected);
      if hasOpened then ScheduleReconnect(h') else h'.(authChecks := h.authChecks + 1)
  }

  predicate ValidRun(h: Hook, events: seq<Event>)
    decreases |events|
  {
    events != [] ==> Enabled(h, events[0]) && ValidRun(Next(h, events[0]), events[1..])
  }

  function After(h: Hook, events: seq<Event>): Hook
    requires ValidRun(h, events)
    decreases |events|
  {
    if events == [] then h else After(Next(h, events[0]), events[1..])
  }

  // ----- The hook's variables -----

  class UseWebSocket {
    var unmounted: bool
    var status: Status
    var hasConnectedRef: bool
    var backoffRef: real
    var sockets: seq<Socket>
    var reconnectTimer: bool
    var authChecks: nat
    var redirected: bool
    ghost var delays: seq<real>

    ghost function State(): Hook
      reads this
    {
      Hook(unmounted, status, hasConnectedRef, backoffRef, sockets, reconnectTimer, authChecks, redirected, delays)
    }

    constructor (status: Status)
      ensures State() == Mounted(status)
    {
      unmounted, this.status, hasConnectedRef, backoffRef := false, status, false, INITIAL_BACKOFF_MS;
      sockets, reconnectTimer, authChecks, redirected, delays := [], false, 0, false, [];
      new;
      DoConnect();
    }

    method DoConnect()
      modifies this
      ensures State() == Connect(old(State()))
    {
      if unmounted {
        return;
      }
      if !hasConnectedRef && status == Disconnected {
        status := Connecting;
      }
      sockets := sockets + [Socket(CONNECTING, false, false, false)];
    }

    method DoScheduleReconnect()
      modifies this
      ensures State() == ScheduleReconnect(old(State()))
    {
      var delay := if backoffRef < MAX_BACKOFF_MS then backoffRef else MAX_BACKOFF_MS;
      backoffRef := delay * BACKOFF_MULTIPLIER;
      reconnectTimer := true;
      delays := delays + [delay];
    }

    method OnOpen(i: nat)
      requires Enabled(State(), Open(i))
      modifies this
      ensures State() == Next(old(State()), Open(i))
    {
      sockets := sockets[i := sockets[i].(ready := OPEN, hasOpened := true, handshakeTimer := true)];
    }

    method OnConnected(i: nat)
      requires Enabled(State(), ConnectedMessage(i))
      modifies this
      ensures State() == Next(old(State()), ConnectedMessage(i))
    {
      sockets := sockets[i := sockets[i].(handshakeTimer := false, completed := true)];
      backoffRef := INITIAL_BACKOFF_MS;
      delays := [];
      status := Connected;
      if !hasConnectedRef {
        hasConnectedRef := true;
      }
    }

    method OnHandshakeTimeout(i: nat)
      requires Enabled(State(), HandshakeTimeout(i))
      modifies this
      ensures State() == Next(old(State()), HandshakeTimeout(i))
    {
      sockets := sockets[i := sockets[i].(handshakeTimer := false)];
      if !hasConnectedRef || status != Connected {
        sockets := sockets[i := CloseSocket(sockets[i])];
      }
    }

    method OnError(i: nat)
      requires Enabled(State(), Error(i))
      modifies this
      ensures State() == Next(old(State()), Error(i))
    {
      sockets := sockets[i := CloseSocket(sockets[i])];
    }

    method OnCloseEvent(i: nat)
      requires Enabled(State(), Close(i))
      modifies this
      ensures State() == Next(old(State()), Close(i))
    {
      var hasOpened := sockets[i].hasOpened;
      sockets := sockets[i := sockets[i].(ready := CLOSED, handshakeTimer := false)];
      if unmounted {
        return;
      }
      status := if hasConnectedRef then Reconnecting else Disconnected;
      if !hasOpened {
        authChecks := authChecks + 1;
        return;
      }
      DoScheduleReconnect();
    }

    method OnAuthCheckEnd(unauthorized: bool)
      requires Enabled(State(), AuthCheckEnds(unauthorized))
      modifies this
      ensures State() == Next(old(State()), AuthCheckEnds(unauthorized))
    {
      authChecks := authChecks - 1;
      if unauthorized {
        if !unmounted {
          redirected := true;
        }
        return;
      }
      if !unmounted {
        DoScheduleReconnect();
      }
    }

    method OnReconnectTimer()
      requires Enabled(State(), ReconnectTimerFires)
      modifies this
      ensures State() == Next(old(State()), ReconnectTimerFires)
    {
      reconnectTimer := false;
      DoConnect();
    }

    method Cleanup()
      requires Enabled(State(), Unmount)
      modifies this
      ensures State() == Next(old(State()), Unmount)
    {
      unmounted := true;
      reconnectTimer := false;
      if sockets != [] {
        sockets := sockets[|sockets| - 1 := CloseSocket(sockets[|sockets| - 1])];
      }
      status := Disconnected;
    }
  }

  // ----- The invariant -----

  /** The socket of the last attempt has not closed. */
  ghost predicate Live(h: Hook) {
    h.sockets != [] && h.sockets[|h.sockets| - 1].ready != CLOSED
  }

  ghost predicate SocketsOk(h: Hook) {
    && h.sockets != []
    && (forall i | 0 <= i < |h.sockets| - 1 :: h.sockets[i].ready == CLOSED && !h.sockets[i].handshakeTimer)
    && (var last := h.sockets[|h.sockets| - 1];
        && (last.handshakeTimer ==> last.hasOpened && last.ready != CLOSED)
        && (last.ready == CONNECTING ==> !last.hasOpened)
        && (last.ready == OPEN ==> last.hasOpened)
        && (last.completed ==> last.hasOpened)
        && (h.unmounted ==> last.ready == CLOSING || last.ready == CLOSED))
  }

  /** While mounted exactly one thing is going on. */
  ghost predicate OneThing(h: Hook) {
    && (!h.unmounted ==> Flag(Live(h)) + h.authChecks + Flag(h.reconnectTimer) + Flag(h.redirected) == 1)
    && (h.unmounted ==> !h.reconnectTimer)
  }

  /** Once there was a connection, the status tells the truth. */
  ghost predicate StatusOk(h: Hook) {
    h.status == Connected && h.hasConnected ==> !h.unmounted && Live(h) && h.sockets[|h.sockets| - 1].completed
  }

  /** The status that the effect found was not "connected". */
  ghost predicate StatusFromHere(h: Hook) { h.status == Connected ==> h.hasConnected }

  ghost function Power(k: nat): real {
    if k == 0 then 1.0 else BACKOFF_MULTIPLIER * Power(k - 1)
  }

  ghost function Capped(k: nat): real {
    var d := INITIAL_BACKOFF_MS * Power(k);
    if d < MAX_BACKOFF_MS then d else MAX_BACKOFF_MS
  }

  ghost predicate BackoffOk(h: Hook) {
    && (forall k | 0 <= k < |h.delays| :: h.delays[k] == Capped(k))
    && h.backoff == if h.delays == [] then INITIAL_BACKOFF_MS else BACKOFF_MULTIPLIER * h.delays[|h.delays| - 1]
  }

  ghost predicate Inv(h: Hook) {
    SocketsOk(h) && OneThing(h) && BackoffOk(h)
  }

  lemma NextDelay(k: nat)
    requires k > 0
    ensures var longer := BACKOFF_MULTIPLIER * Capped(k - 1);
            Capped(k) == if longer < MAX_BACKOFF_MS then longer else MAX_BACKOFF_MS
  {
    assert INITIAL_BACKOFF_MS * Power(k) == BACKOFF_MULTIPLIER * (INITIAL_BACKOFF_MS * Power(k - 1));
  }

  lemma ScheduleKeepsBackoff(h: Hook)
    requires BackoffOk(h)
    ensures BackoffOk(ScheduleReconnect(h))
  {
    var n := |h.delays|;
    if n > 0 {
      NextDelay(n);
      assert h.delays[n - 1] == Capped(n - 1);
    }
  }

  lemma CloseInv(h: Hook, i: nat)
    requires Inv(h) && Enabled(h, Close(i))
    ensures Inv(Next(h, Close(i)))
  {
    var h1 := h.(sockets := h.sockets[i := h.sockets[i].(ready := CLOSED, handshakeTimer := false)]);
    ScheduleKeepsBackoff(h1.(status := if h1.hasConnected then Reconnecting else Disconnected));
  }

  lemma AuthCheckInv(h: Hook, unauthorized: bool)
    requires Inv(h) && Enabled(h, AuthCheckEnds(unauthorized))
    ensures Inv(Next(h, AuthCheckEnds(unauthorized)))
  {
    ScheduleKeepsBackoff(h.(authChecks := h.authChecks - 1));
  }

  lemma NextInv(h: Hook, e: Event)
    requires Inv(h) && Enabled(h, e)
    ensures Inv(Next(h, e))
  {
    match e
    case Close(i) => CloseInv(h, i);
    case AuthCheckEnds(unauthorized) => AuthCheckInv(h, unauthorized);
    case _ =>
  }

  lemma {:induction false} RunInv(h: Hook, events: seq<Event>)
    requires Inv(h) && ValidRun(h, events)
    ensures Inv(After(h, events))
    decreases |events|
  {
    if events != [] {
      NextInv(h, events[0]);
      RunInv(Next(h, events[0]), events[1..]);
    }
  }

  lemma NextStatus(h: Hook, e: Event)
    requires Inv(h) && StatusOk(h) && Enabled(h, e)
    ensures StatusOk(Next(h, e))
    ensures StatusFromHere(h) ==> StatusFromHere(Next(h, e))
  {
  }

  lemma {:induction false} RunStatus(h: Hook, events: seq<Event>)
    requires Inv(h) && StatusOk(h) && ValidRun(h, events)
    ensures StatusOk(After(h, events))
    ensures StatusFromHere(h) ==> StatusFromHere(After(h, events))
    decreases |events|
  {
    if events != [] {
      NextInv(h, events[0]);
      NextStatus(h, events[0]);
      RunStatus(Next(h, events[0]), events[1..]);
    }
  }

  lemma MountedInv(status: Status)
    ensures Inv(Mounted(status))
  {
    assert Power(0) == 1.0;
  }

  // ----- Whole runs -----

  /** In every state of a mounted effect exactly one of these holds: the last socket lives, an auth check
      is in flight, the reconnect timer is armed, the user was sent to the login page. No older socket is
      left. After unmounting no socket is left that could still open. */
  lemma NeverLeaksNeverSticks(status: Status, events: seq<Event>)
    requires ValidRun(Mounted(status), events)
    ensures var h := After(Mounted(status), events);
            && (!h.unmounted ==> Flag(Live(h)) + h.authChecks + Flag(h.reconnectTimer) + Flag(h.redirected) == 1)
            && h.sockets != []
            && (forall i | 0 <= i < |h.sockets| - 1 :: h.sockets[i].ready == CLOSED)
            && (h.unmounted ==> !h.reconnectTimer && (h.sockets[|h.sockets| - 1].ready == CLOSING || !Live(h)))
  {
    MountedInv(status);
    RunInv(Mounted(status), events);
  }

  /** An open socket that has not completed its handshake has the handshake timer armed. */
  ghost predicate Watched(h: Hook) {
    forall i | 0 <= i < |h.sockets| && h.sockets[i].ready == OPEN && !h.sockets[i].completed ::
      h.sockets[i].handshakeTimer
  }

  lemma NextWatched(h: Hook, e: Event)
    requires Inv(h) && StatusOk(h) && Watched(h) && Enabled(h, e)
    ensures Watched(Next(h, e))
  {
  }

  lemma {:induction false} RunWatched(h: Hook, events: seq<Event>)
    requires Inv(h) && StatusOk(h) && Watched(h) && ValidRun(h, events)
    ensures Watched(After(h, events))
    decreases |events|
  {
    if events != [] {
      NextInv(h, events[0]);
      NextStatus(h, events[0]);
      NextWatched(h, events[0]);
      RunWatched(Next(h, events[0]), events[1..]);
    }
  }

  /** A socket that is open and never gets its "connected" message does not stay so: in every state its
      handshake timer is armed, and when that fires it closes the socket, unless the hook was unmounted,
      which closed it. After the close the hook goes on as after any other. */
  lemma HandshakeIsBounded(status: Status, events: seq<Event>, i: nat)
    requires ValidRun(Mounted(status), events)
    requires i < |After(Mounted(status), events).sockets|
    ensures var h := After(Mounted(status), events);
            h.sockets[i].ready == OPEN && !h.sockets[i].completed ==>
              && !h.unmounted
              && Enabled(h, HandshakeTimeout(i))
              && Next(h, HandshakeTimeout(i)).sockets[i].ready == CLOSING
  {
    MountedInv(status);
    RunInv(Mounted(status), events);
    RunStatus(Mounted(status), events);
    RunWatched(Mounted(status), events);
  }

  ghost predicate HasConnection(h: Hook) {
    !h.unmounted && h.sockets != [] && h.sockets[|h.sockets| - 1].ready == OPEN && h.sockets[|h.sockets| - 1].completed
  }

  /** How many steps there can still be before the hook is connected, redirected or at its next attempt. */
  ghost function Stage(h: Hook): nat {
    if h.unmounted || h.redirected || h.sockets == [] then 0
    else if h.reconnectTimer then 1
    else if h.authChecks > 0 then 2
    else
      var last := h.sockets[|h.sockets| - 1];
      match last.ready
      case CLOSED => 0
      case CLOSING => 3
      case OPEN => if last.completed then 0 else 4
      case CONNECTING => 5
  }

  /** What comes if nothing else does: a timer of the hook, the bounded request, or the close that a browser
      delivers for a socket that does not connect or was told to close. */
  ghost function Due(h: Hook): Event {
    match Stage(h)
    case 1 => ReconnectTimerFires
    case 2 => AuthCheckEnds(false)
    case 4 => HandshakeTimeout(|h.sockets| - 1)
    case _ => if h.sockets == [] then Unmount else Close(|h.sockets| - 1)
  }

  lemma StageFalls(h: Hook, e: Event)
    requires Inv(h) && StatusOk(h) && Watched(h) && Stage(h) > 0 && Enabled(h, e)
    ensures var h' := Next(h, e);
            |h'.sockets| > |h.sockets| || Stage(h') < Stage(h) || (Stage(h') == Stage(h) && e != Due(h))
  {
  }

  /** A mounted hook that has not redirected is connected or on its way: what is due can come, and no event
      whatever takes the attempt a step back. After at most five of the due ones it is connected or
      redirected, or has begun the next attempt. */
  lemma SomethingIsPending(status: Status, events: seq<Event>, e: Event)
    requires ValidRun(Mounted(status), events) && Enabled(After(Mounted(status), events), e)
    ensures var h := After(Mounted(status), events);
            && Stage(h) <= 5
            && (!h.unmounted && !h.redirected ==> (Stage(h) == 0 <==> HasConnection(h)))
            && (Stage(h) > 0 ==>
                  && Enabled(h, Due(h))
                  && (Stage(Next(h, e)) <= Stage(h) || |Next(h, e).sockets| > |h.sockets|)
                  && (Stage(Next(h, Due(h))) < Stage(h) || |Next(h, Due(h)).sockets| > |h.sockets|))
  {
    MountedInv(status);
    RunInv(Mounted(status), events);
    RunStatus(Mounted(status), events);
    RunWatched(Mounted(status), events);
    var h := After(Mounted(status), events);
    if Stage(h) > 0 {
      StageFalls(h, e);
      StageFalls(h, Due(h));
    }
  }

  /** The store says "connected" only while the current socket has completed its handshake and has not
      closed, if it did not say so before the effect ran. The store starts out "connecting", and an effect
      that was cleaned up has left "disconnected". */
  lemma ConnectedIsTrue(status: Status, events: seq<Event>)
    requires status != Connected && ValidRun(Mounted(status), events)
    ensures var h := After(Mounted(status), events);
            h.status == Connected ==> !h.unmounted && Live(h) && h.sockets[|h.sockets| - 1].completed
  {
    MountedInv(status);
    RunStatus(Mounted(status), events);
  }

  /** The `k`-th delay since the last completed handshake is 1000 ms times 1.5 to the `k`, up to 30 s. */
  lemma DelaysGrowToTheCap(status: Status, events: seq<Event>, k: nat)
    requires ValidRun(Mounted(status), events)
    requires k < |After(Mounted(status), events).delays|
    ensures After(Mounted(status), events).delays[k] == Capped(k)
  {
    MountedInv(status);
    RunInv(Mounted(status), events);
  }

  /** After unmounting no socket is ever created and nobody is sent to the login page. */
  lemma {:induction false} SilentAfterUnmount(h: Hook, events: seq<Event>)
    requires h.unmounted && ValidRun(h, events)
    ensures var h' := After(h, events);
            && h'.unmounted
            && |h'.sockets| == |h.sockets|
            && h'.redirected == h.redirected
            && (!h.reconnectTimer ==> !h'.reconnectTimer)
    decreases |events|
  {
    if events != [] {
      SilentAfterUnmount(Next(h, events[0]), events[1..]);
    }
  }
}
