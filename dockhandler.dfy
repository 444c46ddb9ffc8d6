/**
 * `YIOremoteDockHandler` as a class whose fields the methods update in place, each method proved
 * to leave the object in the state the matching function of `DockModel` gives.  Websocket calls
 * (`start`, `stop`, `connect`, `closeWebsocketSession`) and host-framework calls (`updateStatus`,
 * `triggerChannel`, `updateState`, logging) have no counterpart here; the outcomes they decide
 * arrive as method arguments.
 */
module DockHandler {
  import opened Options
  import opened Messages
  import opened DockModel
  import IrCodes

  class Dock {
    const accessToken: string
    var status: Status
    var heartBeat: bool
    var authenticationOk: bool
    var receivedStatus: string
    var receivedCode: string
    var pollingArmed: bool
    var reconnectArmed: bool
    var outbox: seq<OutMsg>

    /** The handler's fields as one value. */
    function State(): DockState
      reads this
    {
      DockState(accessToken, status, heartBeat, authenticationOk, receivedStatus, receivedCode,
                pollingArmed, reconnectArmed, outbox)
    }

    ghost predicate Valid()
      reads this
    {
      Consistent(State())
    }

    constructor (accessToken: string)
      ensures Valid()
      ensures State() == Initial(accessToken)
    {
      this.accessToken := accessToken;
      status := Uninitialized;
      heartBeat, authenticationOk := false, false;
      receivedStatus, receivedCode := "", "";
      pollingArmed, reconnectArmed := false, false;
      outbox := [];
    }

    /** `initialize`: `addressValid` says that `new URI("ws://" + host + ":946")` succeeded. */
    method Initialize(addressValid: bool)
      requires Valid()
      modifies this
      ensures Valid()
      ensures State() == Initialized(old(State()), addressValid)
    {
      if addressValid {
        status := AuthenticationProcess;
      }
    }

    /** `sendMessage`: the message is handed to the websocket. */
    method SendMessage(msg: OutMsg)
      modifies this`outbox
      ensures outbox == old(outbox) + [msg]
    {
      outbox := outbox + [msg];
    }

    method OnConnect(connected: bool)
      requires Valid()
      modifies this
      ensures Valid()
      ensures State() == Connected(old(State()), connected)
    {
      if connected {
        status := ConnectionEstablished;
      } else {
        status := ConnectionFailed;
      }
    }

    method OnMessage(m: InboundJson)
      requires Valid()
      requires Decodable(m)
      modifies this
      ensures Valid()
      ensures State() == Received(old(State()), m)
    {
      if Size(m) > 0 {
        var decoded := DecodeReceivedMessage(m);
        if decoded {
          match status
          case ConnectionEstablished | AuthenticationProcess =>
            AuthenticateWebsocket();
          case CommunicationError =>
            ReconnectWebsocket();
          case _ =>
        }
      }
    }

    method OnClose()
      requires Valid()
      modifies this
      ensures Valid()
      ensures State() == Closed(old(State()))
    {
      ReconnectWebsocket();
    }

    method OnError()
      requires Valid()
      modifies this
      ensures Valid()
      ensures State() == Errored(old(State()))
    {
      status := CommunicationError;
    }

    /** `decodeReceivedMessage`: updates the flags and texts and says whether the message was understood. */
    method DecodeReceivedMessage(m: InboundJson) returns (success: bool)
      requires Valid()
      requires Decodable(m)
      modifies this
      ensures Valid()
      ensures State() == Decoded(old(State()), Classify(m))
      ensures success <==> !Classify(m).Unrecognized?
    {
      success := false;
      if m.msgType.Some? {
        var kind := m.msgType.value;
        if EqualsIgnoreCase(kind, AuthRequiredType) {
          success := true;
          receivedStatus := "Authentication required";
        } else if EqualsIgnoreCase(kind, AuthOkType) {
          authenticationOk := true;
          success := true;
          receivedStatus := "Authentication ok";
        } else if EqualsIgnoreCase(kind, DockType) && m.message.Some? {
          if EqualsIgnoreCase(m.message.value, PongMessage) {
            heartBeat := true;
            success := true;
            receivedStatus := "Heart beat received";
          } else if EqualsIgnoreCase(m.message.value, IrSendMessage) {
            if EqualsIgnoreCase(m.success.value, TrueText) {
              receivedStatus := "Send IR Code successfully";
              success := true;
            } else {
              receivedStatus := "Send IR Code failure";
              heartBeat := true;
              success := true;
            }
          } else {
            heartBeat := false;
            success := false;
          }
        } else if EqualsIgnoreCase(m.command.value, IrReceiveCommand) {
          receivedStatus := StripQuotes(m.code.value);
          if IrCodes.IsIrCode(receivedStatus) {
            receivedCode := StripQuotes(m.code.value);
          } else {
            receivedCode := "";
          }
          heartBeat := true;
          success := true;
        } else {
          heartBeat := false;
          success := false;
        }
      } else {
        heartBeat := false;
        success := false;
      }
    }

    /** `authenticateWebsocket` */
    method AuthenticateWebsocket()
      requires Valid()
      modifies this
      ensures Valid()
      ensures State() == Authenticated(old(State()))
    {
      match status
      case ConnectionEstablished =>
        SendMessage(Authenticate(accessToken));
        status := AuthenticationProcess;
      case AuthenticationProcess =>
        if authenticationOk {
          status := AuthenticationComplete;
          pollingArmed := true;
        } else {
          status := AuthenticationFailed;
        }
      case _ =>
        DisposeWebsocketPollingJob();
        status := CommunicationError;
    }

    /** `disposeWebsocketPollingJob`: cancels the heartbeat timer and drops its handle. */
    method DisposeWebsocketPollingJob()
      requires Valid()
      modifies this
      ensures Valid()
      ensures State() == PollingDisposed(old(State()))
    {
      if pollingArmed {
        pollingArmed := false;
      }
    }

    /** `resetHeartbeat` */
    method ResetHeartbeat() returns (r: bool)
      modifies this`heartBeat
      ensures r && !heartBeat
    {
      heartBeat := false;
      r := true;
    }

    /** `pollingWebsocketJob` */
    method PollingWebsocketJob()
      requires Valid()
      modifies this
      ensures Valid()
      ensures State() == Polled(old(State()))
    {
      match status
      case AuthenticationComplete | SendPing =>
        var _ := ResetHeartbeat();
        SendMessage(Heartbeat);
        status := CheckPong;
      case CheckPong =>
        if heartBeat {
          status := SendPing;
        } else {
          status := CommunicationError;
          DisposeWebsocketPollingJob();
          ReconnectWebsocket();
        }
      case _ =>
        DisposeWebsocketPollingJob();
        status := CommunicationError;
    }

    /** `reconnectWebsocket`: arms the reconnection timer if it has no handle. */
    method ReconnectWebsocket()
      requires Valid()
      modifies this
      ensures Valid()
      ensures State() == ReconnectArmed(old(State()))
    {
      if !reconnectArmed {
        reconnectArmed := true;
      }
    }

    /**
     * `reconnectWebsocketJob`.  `teardownOk` says that `closeWebsocketSession` and `stop` returned
     * normally, `addressValid` that the websocket address was built.
     */
    method ReconnectWebsocketJob(teardownOk: bool, addressValid: bool)
      requires Valid()
      modifies this
      ensures Valid()
      ensures State() == ReconnectPolled(old(State()), teardownOk, addressValid)
    {
      match status
      case CommunicationError =>
        DisposeWebsocketPollingJob();
        if teardownOk {
          status := ReconnectionProcess;
        }
        if addressValid {
          status := AuthenticationProcess;
        }
      case AuthenticationComplete =>
        if reconnectArmed {
          reconnectArmed := false;
        }
      case _ =>
    }

    /** `dispose` */
    method Dispose()
      requires Valid()
      modifies this
      ensures Valid()
      ensures State() == Disposed(old(State()))
    {
      DisposeWebsocketPollingJob();
      if reconnectArmed {
        authenticationOk := false;
        heartBeat := false;
        reconnectArmed := false;
      }
    }

    /** `sendIRCode`; `None` stands for a null code. */
    method SendIrCode(irCode: Option<string>)
      requires Valid()
      modifies this
      ensures Valid()
      ensures State() == IrCodeSent(old(State()), irCode)
    {
      if irCode.Some? && status == AuthenticationComplete {
        if IrCodes.IsIrCode(irCode.value) {
          SendMessage(IrSend(irCode.value));
        }
      }
    }

    /** `handleCommand`; `receiverSwitch` says the channel is the IR receiver switch. */
    method HandleCommand(receiverSwitch: bool, command: Command)
      requires Valid()
      modifies this
      ensures Valid()
      ensures State() == CommandHandled(old(State()), receiverSwitch, command)
    {
      if receiverSwitch {
        match status
        case AuthenticationComplete =>
          if command == On {
            SendMessage(IrReceiverOn);
          } else if command == Off {
            SendMessage(IrReceiverOff);
          }
        case _ =>
      }
    }
  }
}
