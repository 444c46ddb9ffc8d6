/**
 * The connection lifecycle of the YIO dock handler as values: the handler's fields as one
 * `DockState`, and one function per event giving the state after it.  The class in module
 * `DockHandler` is proved to follow these functions.
 */
module DockModel {
  import opened Options
  import opened Messages
  import IrCodes

  /** `YioRemoteDockHandleStatus` */
  datatype Status =
    | Uninitialized
    | AuthenticationProcess
    | ConnectionEstablished
    | ConnectionFailed
    | AuthenticationComplete
    | AuthenticationFailed
    | SendPing
    | CheckPong
    | CommunicationError
    | ReconnectionProcess

  /**
   * The handler's fields.  `pollingArmed` and `reconnectArmed` say whether `webSocketPollingJob`
   * and `webSocketReconnectionPollingJob` are non-null; `receivedCode` is the code held by
   * `irCodeReceivedHandler`; `outbox` lists every message handed to `sendMessage`, oldest first.
   */
  datatype DockState = DockState(
    accessToken: string,
    status: Status,
    heartBeat: bool,
    authenticationOk: bool,
    receivedStatus: string,
    receivedCode: string,
    pollingArmed: bool,
    reconnectArmed: bool,
    outbox: seq<OutMsg>)

  /**
   * What the handler never breaks: every IR code it sent is well formed, every authentication it
   * sent carries its access token, and the code it kept from the dock is empty or well formed.
   */
  ghost predicate Consistent(s: DockState) {
    && (forall i :: 0 <= i < |s.outbox| && s.outbox[i].IrSend? ==> IrCodes.IsIrCode(s.outbox[i].code))
    && (forall i :: 0 <= i < |s.outbox| && s.outbox[i].Authenticate? ==> s.outbox[i].token == s.accessToken)
    && (s.receivedCode == "" || IrCodes.IsIrCode(s.receivedCode))
  }

  /** `t` can follow `s`: same access token, and nothing sent is taken back. */
  predicate Follows(s: DockState, t: DockState) {
    t.accessToken == s.accessToken && s.outbox <= t.outbox
  }

  /** Nothing but the outbox differs, and it grew by `sent`. */
  predicate OnlySent(s: DockState, t: DockState, sent: seq<OutMsg>) {
    t == s.(outbox := s.outbox + sent)
  }

  /** A freshly constructed handler. */
  function Initial(accessToken: string): (s: DockState)
    ensures Consistent(s) && s.outbox == []
    ensures s.status == Uninitialized && !s.pollingArmed && !s.reconnectArmed
  {
    DockState(accessToken, Uninitialized, false, false, "", "", false, false, [])
  }

  /** `initialize`: the websocket address is built (or not) from the configured host. */
  function Initialized(s: DockState, addressValid: bool): (t: DockState)
    ensures Follows(s, t)
    ensures t.status == (if addressValid then AuthenticationProcess else s.status)
    ensures t.(status := s.status) == s
  {
    if addressValid then s.(status := AuthenticationProcess) else s
  }

  /** `onConnect` */
  function Connected(s: DockState, connected: bool): (t: DockState)
    ensures Follows(s, t)
    ensures t.status == (if connected then ConnectionEstablished else ConnectionFailed)
    ensures t.(status := s.status) == s
  {
    s.(status := if connected then ConnectionEstablished else ConnectionFailed)
  }

  /** `onError`: the timers are left as they are. */
  function Errored(s: DockState): (t: DockState)
    ensures Follows(s, t)
    ensures t.status == CommunicationError
    ensures t.pollingArmed == s.pollingArmed && t.reconnectArmed == s.reconnectArmed
    ensures t.(status := s.status) == s
  {
    s.(status := CommunicationError)
  }

  /** `reconnectWebsocket`: arms the reconnection timer unless it is already armed. */
  function ReconnectArmed(s: DockState): (t: DockState)
    ensures Follows(s, t)
    ensures t.reconnectArmed
    ensures t.(reconnectArmed := s.reconnectArmed) == s
  {
    if s.reconnectArmed then s else s.(reconnectArmed := true)
  }

  /** `onClose`: only arms reconnection. */
  function Closed(s: DockState): (t: DockState)
    ensures Follows(s, t)
    ensures t.reconnectArmed
    ensures t.(reconnectArmed := s.reconnectArmed) == s
  {
    ReconnectArmed(s)
  }

  /** `disposeWebsocketPollingJob` */
  function PollingDisposed(s: DockState): (t: DockState)
    ensures Follows(s, t)
    ensures !t.pollingArmed
    ensures t.(pollingArmed := s.pollingArmed) == s
  {
    if s.pollingArmed then s.(pollingArmed := false) else s
  }

  /** The effect on the handler's fields of `decodeReceivedMessage` having classified a message as `d`. */
  function Decoded(s: DockState, d: Inbound): (t: DockState)
    ensures Follows(s, t)
    ensures t.status == s.status && t.outbox == s.outbox
    ensures t.pollingArmed == s.pollingArmed && t.reconnectArmed == s.reconnectArmed
    ensures t.heartBeat == (if d.Pong? || d.IrReceive? || d == IrSendAck(false) then true
                            else if d.Unrecognized? then false
                            else s.heartBeat)
    ensures t.authenticationOk == (s.authenticationOk || d.AuthOk?)
    ensures t.receivedCode == (if d.IrReceive? then ReceivedCode(d.rawCode) else s.receivedCode)
    ensures d == AuthRequired ==> t.receivedStatus == "Authentication required"
    ensures d == AuthOk ==> t.receivedStatus == "Authentication ok"
    ensures d == Pong ==> t.receivedStatus == "Heart beat received"
    ensures d == IrSendAck(true) ==> t.receivedStatus == "Send IR Code successfully"
    ensures d == IrSendAck(false) ==> t.receivedStatus == "Send IR Code failure"
    ensures d.IrReceive? ==> t.receivedStatus == StripQuotes(d.rawCode)
    ensures d.Unrecognized? ==> t.receivedStatus == s.receivedStatus
  {
    match d
    case AuthRequired => s.(receivedStatus := "Authentication required")
    case AuthOk => s.(authenticationOk := true, receivedStatus := "Authentication ok")
    case Pong => s.(heartBeat := true, receivedStatus := "Heart beat received")
    case IrSendAck(succeeded) =>
      if succeeded then s.(receivedStatus := "Send IR Code successfully")
      else s.(receivedStatus := "Send IR Code failure", heartBeat := true)
    case IrReceive(raw) =>
      s.(receivedStatus := StripQuotes(raw), receivedCode := ReceivedCode(raw), heartBeat := true)
    case Unrecognized => s.(heartBeat := false)
  }

  /** `authenticateWebsocket` */
  function Authenticated(s: DockState): (t: DockState)
    ensures Follows(s, t)
    ensures s.status == ConnectionEstablished ==>
      OnlySent(s.(status := AuthenticationProcess), t, [Authenticate(s.accessToken)])
    ensures s.status == AuthenticationProcess && s.authenticationOk ==>
      t == s.(status := AuthenticationComplete, pollingArmed := true)
    ensures s.status == AuthenticationProcess && !s.authenticationOk ==>
      t == s.(status := AuthenticationFailed)
    ensures s.status != ConnectionEstablished && s.status != AuthenticationProcess ==>
      t == s.(status := CommunicationError, pollingArmed := false)
  {
    match s.status
    case ConnectionEstablished =>
      s.(outbox := s.outbox + [Authenticate(s.accessToken)], status := AuthenticationProcess)
    case AuthenticationProcess =>
      if s.authenticationOk then s.(status := AuthenticationComplete, pollingArmed := true)
      else s.(status := AuthenticationFailed)
    case _ =>
      PollingDisposed(s).(status := CommunicationError)
  }

  /** `onMessage`: an empty object is ignored; a decoded message drives authentication or reconnection. */
  function Received(s: DockState, m: InboundJson): (t: DockState)
    requires Decodable(m)
    ensures Follows(s, t)
  {
    if Size(m) == 0 then s
    else
      var d := Classify(m);
      var u := Decoded(s, d);
      if d.Unrecognized? then u
      else
        match u.status
        case ConnectionEstablished | AuthenticationProcess => Authenticated(u)
        case CommunicationError => ReconnectArmed(u)
        case _ => u
  }

  /** `pollingWebsocketJob`: one tick of the heartbeat timer. */
  function Polled(s: DockState): (t: DockState)
    ensures Follows(s, t)
    ensures s.status == AuthenticationComplete || s.status == SendPing ==>
      OnlySent(s.(status := CheckPong, heartBeat := false), t, [Heartbeat])
    ensures s.status == CheckPong && s.heartBeat ==> t == s.(status := SendPing)
    ensures s.status == CheckPong && !s.heartBeat ==>
      t == s.(status := CommunicationError, pollingArmed := false, reconnectArmed := true)
    ensures s.status !in {AuthenticationComplete, SendPing, CheckPong} ==>
      t == s.(status := CommunicationError, pollingArmed := false)
  {
    match s.status
    case AuthenticationComplete | SendPing =>
      s.(heartBeat := false, outbox := s.outbox + [Heartbeat], status := CheckPong)
    case CheckPong =>
      if s.heartBeat then s.(status := SendPing)
      else ReconnectArmed(PollingDisposed(s.(status := CommunicationError)))
    case _ =>
      PollingDisposed(s).(status := CommunicationError)
  }

  /**
   * `reconnectWebsocketJob`: one tick of the reconnection timer.  `teardownOk` says that closing the
   * old session and stopping the client returned normally; `addressValid` that the address was built.
   */
  function ReconnectPolled(s: DockState, teardownOk: bool, addressValid: bool): (t: DockState)
    ensures Follows(s, t)
    ensures s.status == CommunicationError ==>
      t == s.(pollingArmed := false,
               status := if addressValid then AuthenticationProcess
                         else if teardownOk then ReconnectionProcess
                         else CommunicationError)
    ensures s.status == AuthenticationComplete ==> t == s.(reconnectArmed := false)
    ensures s.status != CommunicationError && s.status != AuthenticationComplete ==> t == s
  {
    match s.status
    case CommunicationError =>
      var u := PollingDisposed(s);
      var v := if teardownOk then u.(status := ReconnectionProcess) else u;
      if addressValid then v.(status := AuthenticationProcess) else v
    case AuthenticationComplete =>
      if s.reconnectArmed then s.(reconnectArmed := false) else s
    case _ => s
  }

  /** `dispose`: both timers are cancelled; the flags are cleared only when a reconnection timer was armed. */
  function Disposed(s: DockState): (t: DockState)
    ensures Follows(s, t)
    ensures !t.pollingArmed && !t.reconnectArmed
    ensures t == s.(pollingArmed := false, reconnectArmed := false,
                    authenticationOk := s.authenticationOk && !s.reconnectArmed,
                    heartBeat := s.heartBeat && !s.reconnectArmed)
  {
    var u := PollingDisposed(s);
    if u.reconnectArmed then u.(authenticationOk := false, heartBeat := false, reconnectArmed := false)
    else u
  }

  /** `sendIRCode`; `None` is a null code. */
  function IrCodeSent(s: DockState, code: Option<string>): (t: DockState)
    ensures Follows(s, t)
    ensures code.Some? && s.status == AuthenticationComplete && IrCodes.IsIrCode(code.value) ==>
      OnlySent(s, t, [IrSend(code.value)])
    ensures !(code.Some? && s.status == AuthenticationComplete && IrCodes.IsIrCode(code.value)) ==> t == s
  {
    if code.Some? && s.status == AuthenticationComplete && IrCodes.IsIrCode(code.value) then
      s.(outbox := s.outbox + [IrSend(code.value)])
    else s
  }

  /** `handleCommand`; `receiverSwitch` says the command came on the IR receiver switch channel. */
  function CommandHandled(s: DockState, receiverSwitch: bool, command: Command): (t: DockState)
    ensures Follows(s, t)
    ensures receiverSwitch && s.status == AuthenticationComplete && command == On ==> OnlySent(s, t, [IrReceiverOn])
    ensures receiverSwitch && s.status == AuthenticationComplete && command == Off ==> OnlySent(s, t, [IrReceiverOff])
    ensures !(receiverSwitch && s.status == AuthenticationComplete && command != OtherCommand) ==> t == s
  {
    if receiverSwitch && s.status == AuthenticationComplete then
      match command
      case On => s.(outbox := s.outbox + [IrReceiverOn])
      case Off => s.(outbox := s.outbox + [IrReceiverOff])
      case OtherCommand => s
    else s
  }

  /** The events that reach the handler, one at a time. */
  datatype Event =
    | Initialize(addressValid: bool)
    | Connect(connected: bool)
    | Message(json: InboundJson)
    | Close
    | Error
    | PollingTick
    | ReconnectTick(teardownOk: bool, addressValid: bool)
    | SendIr(code: Option<string>)
    | HandleCommand(receiverSwitch: bool, command: Command)
    | Dispose

  predicate WellFormed(e: Event) {
    e.Message? ==> Decodable(e.json)
  }

  predicate AllWellFormed(es: seq<Event>) {
    forall i :: 0 <= i < |es| ==> WellFormed(es[i])
  }

  function Step(s: DockState, e: Event): (t: DockState)
    requires WellFormed(e)
    ensures Follows(s, t)
  {
    match e
    case Initialize(ok) => Initialized(s, ok)
    case Connect(ok) => Connected(s, ok)
    case Message(m) => Received(s, m)
    case Close => Closed(s)
    case Error => Errored(s)
    case PollingTick => Polled(s)
    case ReconnectTick(teardownOk, addressValid) => ReconnectPolled(s, teardownOk, addressValid)
    case SendIr(code) => IrCodeSent(s, code)
    case HandleCommand(receiverSwitch, command) => CommandHandled(s, receiverSwitch, command)
    case Dispose => Disposed(s)
  }

  /** The state after the events `es`, in order. */
  function Run(s: DockState, es: seq<Event>): DockState
    requires AllWellFormed(es)
    decreases |es|
  {
    if es == [] then s else Run(Step(s, es[0]), es[1..])
  }
}
