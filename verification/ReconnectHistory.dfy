/** What the WebSocket hook does, in terms of the callbacks that came: the events of the run decide who is
    sent to the login page, what the status says, when an auth check is made and how long the next delay is. */
module ReconnectHistory {
  import opened Reconnect

  // ----- What the events say -----

  /** A 401 came back while the hook was mounted. */
  ghost predicate Rejected(past: seq<Event>) {
    exists k :: 0 <= k < |past| && past[k] == AuthCheckEnds(true) && Unmount !in past[..k]
  }

  ghost predicate EverConnected(past: seq<Event>) { exists i :: ConnectedMessage(i) in past }

  /** How many reconnects were scheduled since the last "connected" message: one for each close of a socket
      that had opened and for each auth check that did not end with a 401. */
  ghost function Retries(past: seq<Event>): nat {
    if past == [] then 0
    else
      var earlier, last := past[..|past| - 1], past[|past| - 1];
      match last
      case ConnectedMessage(_) => 0
      case Close(i) => Retries(earlier) + if Unmount !in earlier && Open(i) in earlier then 1 else 0
      case AuthCheckEnds(unauthorized) => Retries(earlier) + if Unmount !in earlier && !unauthorized then 1 else 0
      case _ => Retries(earlier)
  }

  /** 1000 ms, half as much again each time, and never more than 30 s. */
  ghost function Delay(n: nat): real {
    var d := 1000.0 * OneAndAHalfTo(n);
    if d < 30000.0 then d else 30000.0
  }

  ghost function OneAndAHalfTo(n: nat): real { if n == 0 then 1.0 else 1.5 * OneAndAHalfTo(n - 1) }

  predicate IsOfSocket(e: Event) { !e.AuthCheckEnds? && !e.ReconnectTimerFires? && !e.Unmount? }

  // ----- The state follows from them -----

  ghost predicate SocketTold(s: Socket, past: seq<Event>, i: nat) {
    && (s.hasOpened <==> Open(i) in past)
    && (s.completed <==> ConnectedMessage(i) in past)
    && (s.ready == CLOSED <==> Close(i) in past)
  }

  ghost predicate SocketsTold(h: Hook, past: seq<Event>) {
    && (forall i | 0 <= i < |h.sockets| :: SocketTold(h.sockets[i], past, i))
    && (forall e | e in past && IsOfSocket(e) :: e.socket < |h.sockets|)
  }

  ghost predicate FlagsTold(h: Hook, past: seq<Event>) {
    && (h.unmounted <==> Unmount in past)
    && (h.redirected <==> Rejected(past))
    && (h.hasConnected <==> EverConnected(past))
    && |h.delays| == Retries(past)
  }

  lemma RejectedMore(past: seq<Event>, e: Event)
    ensures Rejected(past + [e]) <==> Rejected(past) || (e == AuthCheckEnds(true) && Unmount !in past)
  {
    var all := past + [e];
    if k :| 0 <= k < |past| && past[k] == AuthCheckEnds(true) && Unmount !in past[..k] {
      assert all[k] == past[k] && all[..k] == past[..k];
    }
    if k :| 0 <= k < |all| && all[k] == AuthCheckEnds(true) && Unmount !in all[..k] {
      if k < |past| {
        assert all[k] == past[k] && all[..k] == past[..k];
      } else {
        assert all[..k] == past;
      }
    }
    if e == AuthCheckEnds(true) && Unmount !in past {
      assert all[|past|] == e && all[..|past|] == past;
    }
  }

  lemma ConnectedMore(past: seq<Event>, e: Event)
    ensures EverConnected(past + [e]) <==> EverConnected(past) || e.ConnectedMessage?
  {
    if i :| ConnectedMessage(i) in past {
      assert ConnectedMessage(i) in past + [e];
    }
    if e.ConnectedMessage? {
      assert ConnectedMessage(e.socket) in past + [e];
    }
  }

  /** What an event does to a socket there is. */
  lemma SocketAfter(h: Hook, e: Event, i: nat)
    requires Enabled(h, e) && i < |h.sockets|
    ensures i < |Next(h, e).sockets|
    ensures var s, s' := h.sockets[i], Next(h, e).sockets[i];
            && (s'.hasOpened <==> s.hasOpened || e == Open(i))
            && (s'.completed <==> s.completed || e == ConnectedMessage(i))
            && (s'.ready == CLOSED <==> s.ready == CLOSED || e == Close(i))
  {
    match e
    case Close(k) =>
      assert Next(h, e).sockets == h.sockets[k := h.sockets[k].(ready := CLOSED, handshakeTimer := false)];
    case Unmount => assert Next(h, e).sockets == CloseLast(h.sockets);
    case AuthCheckEnds(_) => assert Next(h, e).sockets == h.sockets;
    case ReconnectTimerFires => assert h.sockets <= Next(h, e).sockets;
    case _ =>
  }

  lemma NewSocket(h: Hook, e: Event, i: nat)
    requires Enabled(h, e) && |h.sockets| <= i < |Next(h, e).sockets|
    ensures i == |h.sockets| && e.ReconnectTimerFires?
    ensures Next(h, e).sockets[i] == Socket(CONNECTING, false, false, false)
  {
  }

  lemma NextSocket(h: Hook, past: seq<Event>, e: Event, i: nat)
    requires SocketsTold(h, past) && Enabled(h, e) && i < |Next(h, e).sockets|
    ensures SocketTold(Next(h, e).sockets[i], past + [e], i)
  {
    InMore(past, e, Open(i));
    InMore(past, e, ConnectedMessage(i));
    InMore(past, e, Close(i));
    if i < |h.sockets| {
      assert SocketTold(h.sockets[i], past, i);
      SocketAfter(h, e, i);
    } else {
      NewSocket(h, e, i);
    }
  }

  lemma InMore(past: seq<Event>, e: Event, x: Event)
    ensures x in past + [e] <==> x in past || x == e
  {
  }

  lemma NextSockets(h: Hook, past: seq<Event>, e: Event)
    requires SocketsTold(h, past) && Enabled(h, e) && SocketsOk(h)
    ensures SocketsTold(Next(h, e), past + [e])
  {
    var h' := Next(h, e);
    forall i | 0 <= i < |h'.sockets|
      ensures SocketTold(h'.sockets[i], past + [e], i)
    {
      NextSocket(h, past, e, i);
    }
    assert |h.sockets| <= |h'.sockets|;
  }

  lemma NextFlags(h: Hook, past: seq<Event>, e: Event)
    requires Inv(h) && SocketsTold(h, past) && FlagsTold(h, past) && Enabled(h, e)
    ensures FlagsTold(Next(h, e), past + [e])
  {
    RejectedMore(past, e);
    ConnectedMore(past, e);
    assert (past + [e])[..|past|] == past;
    if e.Close? {
      assert SocketTold(h.sockets[e.socket], past, e.socket);
    }
  }

  ghost predicate Told(h: Hook, past: seq<Event>) {
    Inv(h) && SocketsTold(h, past) && FlagsTold(h, past)
  }

  lemma NextTold(h: Hook, past: seq<Event>, e: Event)
    requires Told(h, past) && Enabled(h, e)
    ensures Told(Next(h, e), past + [e])
  {
    assert Inv(Next(h, e)) by { NextInv(h, e); }
    assert SocketsTold(Next(h, e), past + [e]) by { NextSockets(h, past, e); }
    assert FlagsTold(Next(h, e), past + [e]) by { NextFlags(h, past, e); }
  }

  /** The last event of a run happens in the state after the others. */
  lemma {:induction false} LastStep(h: Hook, events: seq<Event>)
    requires events != [] && ValidRun(h, events)
    ensures var init, last := events[..|events| - 1], events[|events| - 1];
            ValidRun(h, init) && Enabled(After(h, init), last) && After(h, events) == Next(After(h, init), last)
    decreases |events|
  {
    if |events| > 1 {
      LastStep(Next(h, events[0]), events[1..]);
      assert events[1..][..|events| - 2] == events[..|events| - 1][1..];
    }
  }

  /** In every run, the state is as the events tell. */
  lemma {:induction false} StateIsTold(status: Status, events: seq<Event>)
    requires ValidRun(Mounted(status), events)
    ensures Told(After(Mounted(status), events), events)
    decreases |events|
  {
    if events == [] {
      MountedInv(status);
    } else {
      var init, last := events[..|events| - 1], events[|events| - 1];
      LastStep(Mounted(status), events);
      StateIsTold(status, init);
      NextTold(After(Mounted(status), init), init, last);
      assert init + [last] == events;
    }
  }

  // ----- The login page -----

  /** The user is sent to the login page exactly if an auth check ended with a 401 while mounted. */
  lemma RedirectedExactly(status: Status, events: seq<Event>)
    requires ValidRun(Mounted(status), events)
    ensures After(Mounted(status), events).redirected <==> Rejected(events)
  {
    StateIsTold(status, events);
  }

  /** Any other end of an auth check of a mounted hook arms the reconnect timer and redirects nobody. */
  lemma OtherEndsRetry(status: Status, events: seq<Event>)
    requires ValidRun(Mounted(status), events) && Unmount !in events
    requires Enabled(After(Mounted(status), events), AuthCheckEnds(false))
    ensures var h' := Next(After(Mounted(status), events), AuthCheckEnds(false));
            h'.reconnectTimer && !h'.redirected && h'.authChecks == 0
  {
    StateIsTold(status, events);
  }

  /** When a socket of a mounted hook closes, the hook asks whether it is logged in if the socket never
      opened, and schedules a reconnect if it did. */
  lemma CloseIsClassified(status: Status, events: seq<Event>, i: nat)
    requires ValidRun(Mounted(status), events) && Unmount !in events
    requires Enabled(After(Mounted(status), events), Close(i))
    ensures var h' := Next(After(Mounted(status), events), Close(i));
            && h'.reconnectTimer == (Open(i) in events)
            && h'.authChecks == (if Open(i) in events then 0 else 1)
            && !h'.redirected
  {
    StateIsTold(status, events);
    assert SocketTold(After(Mounted(status), events).sockets[i], events, i);
  }

  /** An error closes a socket that is connecting or open; its close event is still to come. */
  lemma ErrorCloses(h: Hook, i: nat)
    requires Enabled(h, Error(i))
    ensures var h' := Next(h, Error(i)); h'.sockets[i].ready == CLOSING && Enabled(h', Close(i))
  {
  }

  // ----- Delays -----

  lemma {:induction false} SameDelay(n: nat)
    ensures OneAndAHalfTo(n) == Power(n) && Delay(n) == Capped(n)
  {
    if n > 0 {
      SameDelay(n - 1);
    }
  }

  /** The timer is armed with 1000 ms times 1.5 to the number of reconnects scheduled since the last
      completed handshake, at most 30 s. */
  lemma TimerIsArmedWith(status: Status, events: seq<Event>, e: Event)
    requires ValidRun(Mounted(status), events)
    requires var h := After(Mounted(status), events);
             Enabled(h, e) && !h.reconnectTimer && Next(h, e).reconnectTimer
    ensures var delays := Next(After(Mounted(status), events), e).delays;
            delays != [] && delays[|delays| - 1] == Delay(Retries(events))
  {
    StateIsTold(status, events);
    ArmedWith(After(Mounted(status), events), e);
    SameDelay(Retries(events));
  }

  lemma ArmedWith(h: Hook, e: Event)
    requires Inv(h) && Enabled(h, e) && !h.reconnectTimer && Next(h, e).reconnectTimer
    ensures |Next(h, e).delays| == |h.delays| + 1 && Next(h, e).delays[|h.delays|] == Capped(|h.delays|)
  {
    NextInv(h, e);
  }

  // ----- Status -----

  /** What the store should say. */
  ghost function StatusTold(h: Hook, past: seq<Event>): Status
    requires h.sockets != []
  {
    var last := |h.sockets| - 1;
    if Unmount in past then Disconnected
    else if ConnectedMessage(last) in past && Close(last) !in past then Connected
    else if EverConnected(past) then Reconnecting
    else if Close(last) !in past then Connecting
    else Disconnected
  }

  ghost function StatusNow(h: Hook): Status
    requires h.sockets != []
  {
    var last := h.sockets[|h.sockets| - 1];
    if h.unmounted then Disconnected
    else if last.completed && last.ready != CLOSED then Connected
    else if h.hasConnected then Reconnecting
    else if last.ready != CLOSED then Connecting
    else Disconnected
  }

  ghost predicate CompletedMeansConnected(h: Hook) {
    forall i | 0 <= i < |h.sockets| && h.sockets[i].completed :: h.hasConnected
  }

  lemma NextStatusNow(h: Hook, e: Event)
    requires Inv(h) && CompletedMeansConnected(h) && h.status == StatusNow(h) && Enabled(h, e)
    ensures CompletedMeansConnected(Next(h, e)) && Next(h, e).status == StatusNow(Next(h, e))
  {
  }

  lemma {:induction false} RunStatusNow(h: Hook, events: seq<Event>)
    requires Inv(h) && CompletedMeansConnected(h) && h.status == StatusNow(h) && ValidRun(h, events)
    ensures After(h, events).sockets != [] && After(h, events).status == StatusNow(After(h, events))
    decreases |events|
  {
    if events != [] {
      NextInv(h, events[0]);
      NextStatusNow(h, events[0]);
      RunStatusNow(Next(h, events[0]), events[1..]);
    }
  }

  /** The status says what the events amount to, at every moment, if it was "connecting" or "disconnected"
      before the effect ran: a new store starts out as the one, and an effect that was cleaned up has left
      the other. */
  lemma StatusIsTrue(status: Status, events: seq<Event>)
    requires status == Connecting || status == Disconnected
    requires ValidRun(Mounted(status), events)
    ensures var h := After(Mounted(status), events);
            h.sockets != [] && h.status == StatusTold(h, events)
  {
    StateIsTold(status, events);
    MountedInv(status);
    RunStatusNow(Mounted(status), events);
    var h := After(Mounted(status), events);
    assert SocketTold(h.sockets[|h.sockets| - 1], events, |h.sockets| - 1);
  }

  ghost predicate NoTimerLeft(h: Hook) {
    forall i | 0 <= i < |h.sockets| && h.sockets[i].completed :: !h.sockets[i].handshakeTimer
  }

  lemma NextNoTimerLeft(h: Hook, e: Event)
    requires Inv(h) && NoTimerLeft(h) && Enabled(h, e)
    ensures NoTimerLeft(Next(h, e))
  {
  }

  lemma {:induction false} RunNoTimerLeft(h: Hook, events: seq<Event>)
    requires Inv(h) && NoTimerLeft(h) && ValidRun(h, events)
    ensures NoTimerLeft(After(h, events))
    decreases |events|
  {
    if events != [] {
      NextInv(h, events[0]);
      NextNoTimerLeft(h, events[0]);
      RunNoTimerLeft(Next(h, events[0]), events[1..]);
    }
  }

  lemma OnlyLastLives(h: Hook, e: Event)
    requires Inv(h) && NoTimerLeft(h) && HasConnection(h) && Enabled(h, e)
    requires !e.Close? && !e.Error? && !e.Unmount?
    ensures HasConnection(Next(h, e))
  {
  }

  /** The hook never gives up a connection: only its close, an error or unmounting ends it. */
  lemma ConnectionIsKept(status: Status, events: seq<Event>, e: Event)
    requires ValidRun(Mounted(status), events) && Enabled(After(Mounted(status), events), e)
    requires !e.Close? && !e.Error? && !e.Unmount?
    requires HasConnection(After(Mounted(status), events))
    ensures HasConnection(Next(After(Mounted(status), events), e))
  {
    MountedInv(status);
    RunInv(Mounted(status), events);
    RunNoTimerLeft(Mounted(status), events);
    OnlyLastLives(After(Mounted(status), events), e);
  }
}
