/**
 * Properties of the dock handler's lifecycle that relate several events, or that pick out single
 * transitions the handler is built around.
 */
module DockProperties {
  import opened Options
  import opened Messages
  import opened DockModel
  import IrCodes

  // Inbound messages as the dock sends them.
  const AuthRequiredJson := InboundJson(Some(AuthRequiredType), None, None, None, None, 0)
  const AuthOkJson := InboundJson(Some(AuthOkType), None, None, None, None, 0)
  const PongJson := InboundJson(Some(DockType), Some(PongMessage), None, None, None, 0)

  lemma {:induction false} RunAppend(s: DockState, a: seq<Event>, b: seq<Event>)
    requires AllWellFormed(a) && AllWellFormed(b)
    ensures AllWellFormed(a + b)
    ensures Run(s, a + b) == Run(Run(s, a), b)
    decreases |a|
  {
    assert forall i :: 0 <= i < |a + b| ==> (a + b)[i] == if i < |a| then a[i] else b[i - |a|];
    if a != [] {
      assert (a + b)[0] == a[0];
      assert (a + b)[1..] == a[1..] + b;
      assert AllWellFormed(a[1..]);
      RunAppend(Step(s, a[0]), a[1..], b);
    } else {
      assert a + b == b;
    }
  }

  /** Running `e` and then `es` is running `es` from the state after `e`. */
  lemma RunCons(s: DockState, e: Event, es: seq<Event>)
    requires WellFormed(e) && AllWellFormed(es)
    ensures AllWellFormed([e] + es)
    ensures Run(s, [e] + es) == Run(Step(s, e), es)
  {
    assert forall i :: 0 <= i < |[e] + es| ==> ([e] + es)[i] == if i == 0 then e else es[i - 1];
    assert ([e] + es)[1..] == es;
  }

  /** One event off the front of a run. */
  lemma RunHead(s: DockState, es: seq<Event>)
    requires AllWellFormed(es) && |es| > 0
    ensures WellFormed(es[0]) && AllWellFormed(es[1..])
    ensures Run(s, es) == Run(Step(s, es[0]), es[1..])
  {
    assert forall i :: 0 <= i < |es[1..]| ==> es[1..][i] == es[i + 1];
  }

  /** A run of two events. */
  lemma RunTwo(s: DockState, e1: Event, e2: Event)
    requires WellFormed(e1) && WellFormed(e2)
    ensures AllWellFormed([e1, e2])
    ensures Run(s, [e1, e2]) == Step(Step(s, e1), e2)
  {
    RunCons(Step(s, e1), e2, []);
    RunCons(s, e1, [e2]);
    assert [e1] + [e2] == [e1, e2] && [e2] + [] == [e2];
  }

  /** Over any run the access token is kept and nothing sent is taken back. */
  lemma {:induction false} RunFollows(s: DockState, es: seq<Event>)
    requires AllWellFormed(es)
    ensures Follows(s, Run(s, es))
    decreases |es|
  {
    if es != [] {
      RunHead(s, es);
      RunFollows(Step(s, es[0]), es[1..]);
    }
  }

  /** Consistency depends only on the access token, the outbox and the received code. */
  lemma ConsistentFrame(s: DockState, t: DockState)
    requires t.accessToken == s.accessToken && t.outbox == s.outbox && t.receivedCode == s.receivedCode
    ensures Consistent(s) == Consistent(t)
  {
  }

  /** Sending a well-formed message keeps the handler consistent. */
  lemma SendKeepsConsistent(s: DockState, msg: OutMsg)
    requires Consistent(s)
    requires msg.IrSend? ==> IrCodes.IsIrCode(msg.code)
    requires msg.Authenticate? ==> msg.token == s.accessToken
    ensures Consistent(s.(outbox := s.outbox + [msg]))
  {
    var o := s.outbox + [msg];
    assert forall i :: 0 <= i < |o| ==> o[i] == if i < |s.outbox| then s.outbox[i] else msg;
  }

  lemma ReceivedKeepsConsistent(s: DockState, m: InboundJson)
    requires Consistent(s) && Decodable(m)
    ensures Consistent(Received(s, m))
  {
    if Size(m) > 0 {
      var d := Classify(m);
      var u := Decoded(s, d);
      assert Consistent(u) by {
        ConsistentFrame(s, u.(receivedCode := s.receivedCode));
      }
      var t := Received(s, m);
      if !d.Unrecognized? && u.status == ConnectionEstablished {
        assert t == u.(status := AuthenticationProcess).(outbox := u.outbox + [Authenticate(u.accessToken)]);
        ConsistentFrame(u, u.(status := AuthenticationProcess));
        SendKeepsConsistent(u.(status := AuthenticationProcess), Authenticate(u.accessToken));
      } else {
        assert t.outbox == u.outbox && t.accessToken == u.accessToken && t.receivedCode == u.receivedCode;
        ConsistentFrame(u, t);
      }
    }
  }

  lemma PolledKeepsConsistent(s: DockState)
    requires Consistent(s)
    ensures Consistent(Polled(s))
  {
    var t := Polled(s);
    if s.status == AuthenticationComplete || s.status == SendPing {
      var u := s.(status := CheckPong, heartBeat := false);
      ConsistentFrame(s, u);
      SendKeepsConsistent(u, Heartbeat);
    } else {
      ConsistentFrame(s, t);
    }
  }

  lemma IrCodeSentKeepsConsistent(s: DockState, code: Option<string>)
    requires Consistent(s)
    ensures Consistent(IrCodeSent(s, code))
  {
    if code.Some? && s.status == AuthenticationComplete && IrCodes.IsIrCode(code.value) {
      SendKeepsConsistent(s, IrSend(code.value));
    }
  }

  lemma CommandHandledKeepsConsistent(s: DockState, receiverSwitch: bool, command: Command)
    requires Consistent(s)
    ensures Consistent(CommandHandled(s, receiverSwitch, command))
  {
    if receiverSwitch && s.status == AuthenticationComplete {
      SendKeepsConsistent(s, IrReceiverOn);
      SendKeepsConsistent(s, IrReceiverOff);
    }
  }

  /** Every event keeps the handler consistent. */
  lemma StepKeepsConsistent(s: DockState, e: Event)
    requires Consistent(s) && WellFormed(e)
    ensures Consistent(Step(s, e))
  {
    match e
    case Message(m) => ReceivedKeepsConsistent(s, m);
    case PollingTick => PolledKeepsConsistent(s);
    case SendIr(code) => IrCodeSentKeepsConsistent(s, code);
    case HandleCommand(receiverSwitch, command) => CommandHandledKeepsConsistent(s, receiverSwitch, command);
    case _ => ConsistentFrame(s, Step(s, e));
  }

  lemma {:induction false} RunKeepsConsistent(s: DockState, es: seq<Event>)
    requires Consistent(s) && AllWellFormed(es)
    ensures Consistent(Run(s, es))
    decreases |es|
  {
    if es != [] {
      RunHead(s, es);
      StepKeepsConsistent(s, es[0]);
      RunKeepsConsistent(Step(s, es[0]), es[1..]);
    }
  }

  /** A handler that starts consistent never sends a malformed IR code or a foreign token, whatever happens. */
  lemma NeverSendsMalformedCode(s: DockState, es: seq<Event>, i: nat)
    requires Consistent(s) && AllWellFormed(es)
    requires i < |Run(s, es).outbox|
    ensures Run(s, es).outbox[i].IrSend? ==> IrCodes.IsIrCode(Run(s, es).outbox[i].code)
    ensures Run(s, es).outbox[i].Authenticate? ==> Run(s, es).outbox[i].token == s.accessToken
  {
    RunFollows(s, es);
    RunKeepsConsistent(s, es);
  }

  /**
   * What decoding does with `heartBeat`: set for a pong, a failed IR send and an `ir_receive`;
   * untouched for `auth_required`, `auth_ok` and a successful IR send; cleared when nothing matched.
   */
  lemma DecodeOutcomes(s: DockState, m: InboundJson)
    requires Decodable(m)
    ensures var d := Classify(m); var t := Decoded(s, d);
      && (FieldIs(m.msgType, DockType) && FieldIs(m.message, PongMessage) ==> !d.Unrecognized? && t.heartBeat)
      && (FieldIs(m.msgType, DockType) && FieldIs(m.message, IrSendMessage) && !EqualsIgnoreCase(m.success.value, TrueText) ==>
            !d.Unrecognized? && t.heartBeat)
      && (d.IrReceive? ==> t.heartBeat)
      && (FieldIs(m.msgType, AuthRequiredType) || FieldIs(m.msgType, AuthOkType) ==> !d.Unrecognized? && t.heartBeat == s.heartBeat)
      && (FieldIs(m.msgType, DockType) && FieldIs(m.message, IrSendMessage) && EqualsIgnoreCase(m.success.value, TrueText) ==>
            !d.Unrecognized? && t.heartBeat == s.heartBeat)
      && (d.Unrecognized? ==> !t.heartBeat)
  {
  }

  /** A message without a `type` member is never decoded, even an `ir_receive` command. */
  lemma NoTypeNeverDecodes(s: DockState, m: InboundJson)
    requires Decodable(m) && m.msgType.None?
    ensures Classify(m).Unrecognized?
    ensures Received(s, m) == if Size(m) == 0 then s else s.(heartBeat := false)
  {
  }

  /** `authenticationOk` is raised only by decoding `auth_ok` and lowered only by `dispose`. */
  lemma AuthenticationOkChanges(s: DockState, e: Event)
    requires WellFormed(e)
    ensures var t := Step(s, e);
      && (!s.authenticationOk && t.authenticationOk ==> e.Message? && Classify(e.json) == AuthOk)
      && (s.authenticationOk && !t.authenticationOk ==> e.Dispose? && s.reconnectArmed)
  {
  }

  /** The code kept from `ir_receive` is the unquoted code if it matches the pattern, otherwise empty. */
  lemma IrReceiveKeepsCode(s: DockState, m: InboundJson)
    requires Decodable(m) && Classify(m).IrReceive?
    ensures var raw := m.code.value; var t := Received(s, m);
      && t.receivedStatus == StripQuotes(raw)
      && t.receivedCode == (if IrCodes.IsIrCode(StripQuotes(raw)) then StripQuotes(raw) else "")
      && t.heartBeat
  {
    var d := Classify(m);
    assert d == IrReceive(m.code.value);
    assert Size(m) > 0;
    var u := Decoded(s, d);
    var t := Received(s, m);
    assert t.receivedStatus == u.receivedStatus && t.receivedCode == u.receivedCode && t.heartBeat == u.heartBeat;
  }

  /** How a non-empty inbound message moves the lifecycle on. */
  lemma MessageDrivesAuthentication(s: DockState, m: InboundJson)
    requires Decodable(m) && Size(m) > 0
    ensures var d := Classify(m); var u := Decoded(s, d); var t := Received(s, m);
      && (d.Unrecognized? ==> t == s.(heartBeat := false))
      && (!d.Unrecognized? && s.status == ConnectionEstablished ==>
            OnlySent(u.(status := AuthenticationProcess), t, [Authenticate(s.accessToken)]))
      && (!d.Unrecognized? && s.status == AuthenticationProcess && u.authenticationOk ==>
            t == u.(status := AuthenticationComplete, pollingArmed := true))
      && (!d.Unrecognized? && s.status == AuthenticationProcess && !u.authenticationOk ==>
            t == u.(status := AuthenticationFailed))
      && (!d.Unrecognized? && s.status == CommunicationError ==> t == u.(reconnectArmed := true))
      && (!d.Unrecognized? && s.status !in {ConnectionEstablished, AuthenticationProcess, CommunicationError} ==> t == u)
  {
  }

  /** Arming the reconnection timer twice is arming it once. */
  lemma ReconnectIdempotent(s: DockState)
    ensures ReconnectArmed(ReconnectArmed(s)) == ReconnectArmed(s)
  {
  }

  /** A second `dispose` changes nothing, and after one both timers are disarmed. */
  lemma DisposeIdempotent(s: DockState)
    ensures Disposed(Disposed(s)) == Disposed(s)
    ensures !Disposed(s).pollingArmed && !Disposed(s).reconnectArmed
  {
  }

  /** One heartbeat round: a tick that sends the ping, the dock's pong, and the tick that checks it. */
  function Rounds(n: nat): (es: seq<Event>)
    ensures AllWellFormed(es) && |es| == 3 * n
  {
    if n == 0 then [] else [PollingTick, Message(PongJson), PollingTick] + Rounds(n - 1)
  }

  /** The tick that sends a ping. */
  lemma PingTick(s: DockState)
    requires s.status == AuthenticationComplete || s.status == SendPing
    ensures Step(s, PollingTick) == s.(status := CheckPong, heartBeat := false, outbox := s.outbox + [Heartbeat])
  {
  }

  /** The dock's pong while a ping is pending. */
  lemma PongReceived(s: DockState)
    requires s.status == CheckPong
    ensures Step(s, Message(PongJson)) == s.(heartBeat := true, receivedStatus := "Heart beat received")
  {
    assert Classify(PongJson) == Pong;
  }

  lemma OneRound(s: DockState)
    requires s.status == AuthenticationComplete || s.status == SendPing
    ensures Run(s, Rounds(1)) ==
      s.(status := SendPing, heartBeat := true, receivedStatus := "Heart beat received", outbox := s.outbox + [Heartbeat])
  {
    var s1 := s.(status := CheckPong, heartBeat := false, outbox := s.outbox + [Heartbeat]);
    var s2 := s1.(heartBeat := true, receivedStatus := "Heart beat received");
    var s3 := s2.(status := SendPing);
    var tail2: seq<Event> := [PollingTick] + [];
    var tail1 := [Message(PongJson)] + tail2;
    var es := [PollingTick] + tail1;
    assert Run(s, es) == s3 by {
      PingTick(s);
      PongReceived(s1);
      assert Step(s2, PollingTick) == s3;
      RunCons(s2, PollingTick, []);
      RunCons(s1, Message(PongJson), tail2);
      RunCons(s, PollingTick, tail1);
    }
    assert Rounds(1) == es by {
      assert Rounds(0) == [];
    }
  }

  /**
   * While every ping is answered by a pong before the next tick, the heartbeat never fails: after
   * `n` rounds from `AUTHENTICATION_COMPLETE` or `SEND_PING` the handler is in `SEND_PING`, has sent
   * exactly `n` heartbeats, and its timers are as they were.
   */
  lemma {:induction false} HeartbeatRounds(s: DockState, n: nat)
    requires s.status == AuthenticationComplete || s.status == SendPing
    requires n >= 1
    decreases n
    ensures var t := Run(s, Rounds(n));
      && t.status == SendPing && t.heartBeat
      && t.outbox == s.outbox + seq(n, _ => Heartbeat)
      && t.pollingArmed == s.pollingArmed && t.reconnectArmed == s.reconnectArmed
      && t.authenticationOk == s.authenticationOk
  {
    OneRound(s);
    var s1 := Run(s, Rounds(1));
    if n == 1 {
      assert seq(1, _ => Heartbeat) == [Heartbeat];
    } else {
      RoundsSplit(n);
      RunAppend(s, Rounds(1), Rounds(n - 1));
      HeartbeatRounds(s1, n - 1);
      HeartbeatsSplit(s.outbox, n);
    }
  }

  lemma RoundsSplit(n: nat)
    requires n >= 1
    ensures Rounds(n) == Rounds(1) + Rounds(n - 1)
  {
    assert Rounds(1) == [PollingTick, Message(PongJson), PollingTick] + Rounds(0);
    assert Rounds(0) == [];
  }

  lemma HeartbeatsSplit(o: seq<OutMsg>, n: nat)
    requires n >= 1
    ensures o + [Heartbeat] + seq(n - 1, _ => Heartbeat) == o + seq(n, _ => Heartbeat)
  {
    assert [Heartbeat] + seq(n - 1, _ => Heartbeat) == seq(n, _ => Heartbeat);
  }

  /** A ping left unanswered until the next tick ends the heartbeat and starts reconnection. */
  lemma MissedPong(s: DockState)
    requires s.status == AuthenticationComplete || s.status == SendPing
    ensures var t := Run(s, [PollingTick, PollingTick]);
      && t.status == CommunicationError && !t.pollingArmed && t.reconnectArmed
      && t.outbox == s.outbox + [Heartbeat] && t.authenticationOk == s.authenticationOk
  {
    RunTwo(s, PollingTick, PollingTick);
    PingTick(s);
  }

  /**
   * A message that is not understood clears the heartbeat flag, so it cancels a pong that came
   * before it: the check tick then fails exactly as if no pong had arrived.
   */
  lemma UnknownMessageCountsAsNoPong(s: DockState, m: InboundJson)
    requires s.status == AuthenticationComplete || s.status == SendPing
    requires Decodable(m) && Size(m) > 0 && Classify(m).Unrecognized?
    ensures Run(s, [PollingTick, Message(PongJson), PollingTick]).status == SendPing
    ensures Run(s, [PollingTick, Message(PongJson), Message(m), PollingTick]).status == CommunicationError
  {
    var s1 := Polled(s);
    PingTick(s);
    PongReceived(s1);
    var s2 := Received(s1, PongJson);
    assert s2.heartBeat && s2.status == CheckPong;
    RunTwo(s1, Message(PongJson), PollingTick);
    RunCons(s, PollingTick, [Message(PongJson), PollingTick]);
    assert [PollingTick] + [Message(PongJson), PollingTick] == [PollingTick, Message(PongJson), PollingTick];
    var s3 := Received(s2, m);
    assert !s3.heartBeat && s3.status == CheckPong;
    RunTwo(s2, Message(m), PollingTick);
    RunCons(s1, Message(PongJson), [Message(m), PollingTick]);
    assert [Message(PongJson)] + [Message(m), PollingTick] == [Message(PongJson), Message(m), PollingTick];
    RunCons(s, PollingTick, [Message(PongJson), Message(m), PollingTick]);
    assert [PollingTick] + [Message(PongJson), Message(m), PollingTick] == [PollingTick, Message(PongJson), Message(m), PollingTick];
  }

  /** Reconnection ticks with the address valid, as it always is once the handler got connected. */
  function Reconnects(n: nat, teardownOk: bool): (es: seq<Event>)
    ensures AllWellFormed(es) && |es| == n
  {
    if n == 0 then [] else [ReconnectTick(teardownOk, true)] + Reconnects(n - 1, teardownOk)
  }

  /**
   * With a valid address a reconnection tick always restarts authentication, whatever the teardown
   * did; if the new session then reports an error, the handler is back in `COMMUNICATION_ERROR`
   * with the reconnection timer as it was, so the next tick tries again.
   */
  lemma ReconnectThenError(s: DockState, teardownOk: bool)
    requires s.status == CommunicationError
    ensures ReconnectPolled(s, teardownOk, true) == s.(pollingArmed := false, status := AuthenticationProcess)
    ensures var t := Run(s, [ReconnectTick(teardownOk, true), Error]);
      && t == s.(pollingArmed := false)
      && Step(t, ReconnectTick(teardownOk, true)).status == AuthenticationProcess
  {
    RunTwo(s, ReconnectTick(teardownOk, true), Error);
  }

  /** In a state other than `COMMUNICATION_ERROR` and `AUTHENTICATION_COMPLETE`, reconnection ticks do nothing. */
  lemma {:induction false} ReconnectsIgnored(s: DockState, n: nat, teardownOk: bool)
    requires s.status != CommunicationError && s.status != AuthenticationComplete
    ensures Run(s, Reconnects(n, teardownOk)) == s
    decreases n
  {
    if n > 0 {
      assert Reconnects(n, teardownOk)[1..] == Reconnects(n - 1, teardownOk);
      ReconnectsIgnored(s, n - 1, teardownOk);
    }
  }

  /**
   * If the session opened by a reconnection tick fails to connect, the handler is stuck in
   * `CONNECTION_FAILED`: the reconnection timer stays armed, but however often it ticks, nothing
   * changes.
   */
  lemma ReconnectThenConnectFailed(s: DockState, teardownOk: bool, n: nat)
    requires s.status == CommunicationError
    ensures var t := Run(s, [ReconnectTick(teardownOk, true), Connect(false)]);
      && t == s.(pollingArmed := false, status := ConnectionFailed)
      && Run(t, Reconnects(n, teardownOk)) == t
  {
    RunTwo(s, ReconnectTick(teardownOk, true), Connect(false));
    ReconnectsIgnored(s.(pollingArmed := false, status := ConnectionFailed), n, teardownOk);
  }

  /** The handshake: `auth_required` triggers exactly one authentication, `auth_ok` completes it. */
  lemma Handshake(s: DockState)
    requires s.status == ConnectionEstablished
    ensures var t := Run(s, [Message(AuthRequiredJson), Message(AuthOkJson)]);
      && t.status == AuthenticationComplete && t.pollingArmed && t.authenticationOk
      && t.reconnectArmed == s.reconnectArmed && t.accessToken == s.accessToken
      && t.outbox == s.outbox + [Authenticate(s.accessToken)]
  {
    assert Classify(AuthRequiredJson) == AuthRequired;
    assert Classify(AuthOkJson) == AuthOk;
    var s1 := Received(s, AuthRequiredJson);
    assert s1.status == AuthenticationProcess && s1.outbox == s.outbox + [Authenticate(s.accessToken)];
    var s2 := Received(s1, AuthOkJson);
    assert s2.status == AuthenticationComplete;
    RunTwo(s, Message(AuthRequiredJson), Message(AuthOkJson));
  }

  /** `auth_ok` arriving first after the connection only sends the authentication; it does not complete it. */
  lemma AuthOkRightAfterConnect(s: DockState)
    requires s.status == ConnectionEstablished
    ensures var t := Received(s, AuthOkJson);
      && t.status == AuthenticationProcess && t.authenticationOk && t.pollingArmed == s.pollingArmed
      && t.outbox == s.outbox + [Authenticate(s.accessToken)]
  {
    assert Classify(AuthOkJson) == AuthOk;
  }

  // A first connection, a lost heartbeat, a reconnection and a second handshake.
  const FirstSession: seq<Event> := [
    Initialize(true), Connect(true), Message(AuthRequiredJson), Message(AuthOkJson), PollingTick, PollingTick]
  const Reconnection: seq<Event> := [ReconnectTick(true, true), Connect(true)]
  const Handshaking: seq<Event> := [Message(AuthRequiredJson), Message(AuthOkJson)]
  const PingThenReconnect: seq<Event> := [PollingTick, ReconnectTick(true, true)]
  const SecondSession: seq<Event> := Reconnection + Handshaking + PingThenReconnect

  /** The first session: the handshake completes, then a ping goes unanswered. */
  lemma FirstSessionLost(token: string)
    ensures AllWellFormed(FirstSession)
    ensures var t := Run(Initial(token), FirstSession);
      && t.status == CommunicationError && t.reconnectArmed && !t.pollingArmed
      && t.accessToken == token && t.outbox == [Authenticate(token), Heartbeat]
  {
    var a := [Initialize(true), Connect(true)];
    var b := [Message(AuthRequiredJson), Message(AuthOkJson)];
    var c := [PollingTick, PollingTick];
    var s0 := Initial(token);
    var s1 := Run(s0, a);
    assert s1.status == ConnectionEstablished && s1.outbox == [] && s1.accessToken == token by {
      RunTwo(s0, Initialize(true), Connect(true));
    }
    var s2 := Run(s1, b);
    assert s2.status == AuthenticationComplete && s2.outbox == [Authenticate(token)] && s2.accessToken == token by {
      Handshake(s1);
    }
    MissedPong(s2);
    assert FirstSession == a + b + c;
    RunAppend(s0, a, b);
    RunAppend(s0, a + b, c);
  }

  /**
   * An error reported while the session is up arms nothing: if no reconnection timer is armed, the
   * next heartbeat tick disarms the heartbeat too, and no timer is left to leave
   * `COMMUNICATION_ERROR`.
   */
  lemma ErrorThenTickDisarmsAll(s: DockState)
    requires s.status == AuthenticationComplete && s.pollingArmed && !s.reconnectArmed
    ensures var t := Run(s, [Error, PollingTick]);
      && t == s.(status := CommunicationError, pollingArmed := false)
      && !t.pollingArmed && !t.reconnectArmed
  {
    RunTwo(s, Error, PollingTick);
  }

  /** With a valid address, a reconnection tick followed by a successful connection re-establishes the session. */
  lemma ReconnectAndConnect(s: DockState, teardownOk: bool)
    requires s.status == CommunicationError
    ensures Run(s, [ReconnectTick(teardownOk, true), Connect(true)]) ==
      s.(pollingArmed := false, status := ConnectionEstablished)
  {
    RunTwo(s, ReconnectTick(teardownOk, true), Connect(true));
  }

  /** The heartbeat tick leaves `AUTHENTICATION_COMPLETE` first, so the reconnection tick after it does nothing. */
  lemma PingThenReconnectTick(s: DockState, teardownOk: bool)
    requires s.status == AuthenticationComplete
    ensures Run(s, [PollingTick, ReconnectTick(teardownOk, true)]) ==
      s.(status := CheckPong, heartBeat := false, outbox := s.outbox + [Heartbeat])
  {
    RunTwo(s, PollingTick, ReconnectTick(teardownOk, true));
    PingTick(s);
  }

  /** The second session: reconnection, a second handshake, one heartbeat tick and one reconnection tick. */
  lemma SecondSessionArmsBoth(s: DockState)
    requires s.status == CommunicationError && s.reconnectArmed
    ensures AllWellFormed(SecondSession)
    ensures var t := Run(s, SecondSession);
      && t.status == CheckPong && t.pollingArmed && t.reconnectArmed
      && t.outbox == s.outbox + [Authenticate(s.accessToken), Heartbeat]
  {
    var s4 := Run(s, Reconnection);
    assert s4.status == ConnectionEstablished && s4.reconnectArmed && s4.outbox == s.outbox && s4.accessToken == s.accessToken by {
      ReconnectAndConnect(s, true);
    }
    var s5 := Run(s4, Handshaking);
    assert s5.status == AuthenticationComplete && s5.pollingArmed && s5.reconnectArmed
      && s5.outbox == s.outbox + [Authenticate(s.accessToken)] by {
      Handshake(s4);
    }
    assert Run(s5, PingThenReconnect) == s5.(status := CheckPong, heartBeat := false, outbox := s5.outbox + [Heartbeat]) by {
      PingThenReconnectTick(s5, true);
    }
    RunAppend(s, Reconnection, Handshaking);
    RunAppend(s, Reconnection + Handshaking, PingThenReconnect);
  }

  /**
   * The heartbeat timer and the reconnection timer can be armed together, and stay so: after
   * recovering, the first heartbeat tick leaves `AUTHENTICATION_COMPLETE` before the reconnection
   * timer looks, and that timer cancels itself only in `AUTHENTICATION_COMPLETE`.
   */
  lemma BothTimersStayArmed(token: string)
    ensures AllWellFormed(FirstSession + SecondSession)
    ensures var t := Run(Initial(token), FirstSession + SecondSession);
      && t.status == CheckPong && t.pollingArmed && t.reconnectArmed
      && t.outbox == [Authenticate(token), Heartbeat, Authenticate(token), Heartbeat]
  {
    FirstSessionLost(token);
    var s := Run(Initial(token), FirstSession);
    SecondSessionArmsBoth(s);
    RunAppend(Initial(token), FirstSession, SecondSession);
  }
}
