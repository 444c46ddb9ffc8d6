# YIO remote dock handler: connection lifecycle

This project models the connection lifecycle of the openHAB YIO remote binding's dock handler
(`YIOremoteDockHandler`). The handler holds one websocket session to a YIO dock, an IR hub. Its
parts are:

- the authentication handshake: the dock asks with `auth_required`, the handler answers with its
  access token, and the dock confirms with `auth_ok`;
- the heartbeat: a 60 s timer alternates between sending a ping (`SEND_PING`) and checking for the
  reply (`CHECK_PONG`);
- reconnection: a 30 s timer tears the session down and opens it again. It is armed when a
  decoded message arrives in `COMMUNICATION_ERROR` (line 128), when the session closes (line 142)
  and when a pong is missed (line 359). A reported error (`onError`) arms nothing;
- the inbound message classifier;
- the IR-code format check used both on received and on sent codes.

The model has three layers:

- `IrCodes` (`ircodes.dfy`) and `Messages` (`messages.dfy`) are the pure pieces:
  - the whole-string match of `[0-9]?[0-9][;]0[xX][0-9a-fA-F]+[;][0-9]+[;][0-9]`, written as a
    parser/formatter pair proved inverse;
  - Java's `equalsIgnoreCase` against the protocol's ASCII literals;
  - the classification that `decodeReceivedMessage` performs.
- `DockModel` (`dockmodel.dfy`) gathers the handler's fields into one `DockState` value. It has one
  transition function per event (`Received`, `Polled`, `ReconnectPolled`, `Disposed`, …), plus
  `Step`/`Run` over a serialized stream of events.
- `DockHandler` (`dockhandler.dfy`) is the imperative class `Dock`:
  - its fields are those of the Java class;
  - its methods mirror the Java methods and update the fields step by step;
  - each method is proved to leave `State()` equal to the matching `DockModel` function of the old
    state, and to keep the object invariant `Valid()`.
- `DockProperties` (`properties.dfy`) proves properties that span several events. These include
  invariants over every run, the heartbeat loop, missed pongs, reconnection, the handshake, and a
  run that ends with both timers armed.

Modelling choices:

- The two `Future` handles become the booleans `pollingArmed` and `reconnectArmed`. `isCancelled()`
  is never true for a handle the class still holds, because every `cancel` is followed by
  `= null`. So the inner `!isCancelled()` tests are always taken.
- `sendMessage` appends the kind and payload of the message to `outbox`.
- A parsed inbound JSON object is an `InboundJson`. It records the JSON text of the `type`,
  `message`, `success`, `command` and `code` members, each present or absent, and a count of other
  members.
- Each outcome decided by the environment becomes a `bool` argument:
  - whether `new URI(...)` succeeded (`addressValid`);
  - whether `closeWebsocketSession`/`stop` returned normally (`teardownOk`);
  - `onConnect`'s flag;
  - whether a command came on the receiver-switch channel.

Where the code behaves otherwise than one would expect of such a handler, the model follows the code:

- One would expect the heartbeat timer and the reconnection timer never to be armed together.
  In the code they can be, and they stay armed together. After a reconnection, `auth_ok` arms the
  heartbeat while the reconnection timer is still armed. The first heartbeat tick then moves the
  state away from `AUTHENTICATION_COMPLETE`, and the reconnection timer disarms itself only in that
  state (`DockProperties.BothTimersStayArmed`).
- One would expect `auth_ok` right after the connection to complete authentication. In the
  code it only triggers the authentication request and moves to `AUTHENTICATION_PROCESS`; a second
  decoded message completes it (`DockProperties.AuthOkRightAfterConnect`, `DockProperties.Handshake`).
- One would expect an `ir_receive` command to be recognised on its own. In the code the
  `command` test is nested inside the `type` test, so a message without `type` is never decoded
  (`DockProperties.NoTypeNeverDecodes`).
- One would expect dispose to close the transport. The code's `dispose` only cancels the two
  timers. It clears `authenticationOk` and `heartBeat` only when a reconnection timer was armed.
- One would expect a message that is not understood to be only discarded. In the code it also
  clears `heartBeat`, so it cancels a pong received before it, and the next check counts a missed
  pong (`DockProperties.UnknownMessageCountsAsNoPong`).
- A ping goes out only on every second heartbeat tick. The tick in `CHECK_PONG` only moves back to
  `SEND_PING`, so a pong is awaited for one tick and pings are two ticks apart
  (`DockProperties.HeartbeatRounds`).
- A failed connection after a reconnection is a dead end. A reconnection tick with the (always
  valid, once connected) address moves to `AUTHENTICATION_PROCESS`, whatever the teardown did. If
  the new session then reports an error, the handler is back in `COMMUNICATION_ERROR` and the next
  tick retries (`DockProperties.ReconnectThenError`). If it reports `onConnect(false)`, the handler
  stays in `CONNECTION_FAILED`: the reconnection timer keeps running, but its job does nothing in
  that state (`DockProperties.ReconnectThenConnectFailed`).
- An error reported while the session is up is a dead end too. `onError` only sets
  `COMMUNICATION_ERROR` and arms no reconnection. If no reconnection timer is armed, the next
  heartbeat tick disarms the heartbeat as well, and no timer is left
  (`DockProperties.ErrorThenTickDisarmsAll`). Only a later close or decoded message arms
  reconnection.
- `authenticationOk` is never cleared by a reconnection. After the first handshake, any decoded
  message in `AUTHENTICATION_PROCESS` completes authentication.

## Model

| member | source | states |
|---|---|---|
| `IrCodes.Split` | bundles/org.openhab.binding.yioremote/src/main/java/org/openhab/binding/yioremote/internal/YIOremoteDockHandler.java:197 | the fields of a string at `;`: at least one, none containing `;`, and joined with `;` they give the string back |
| `IrCodes.SplitJoin` | bundles/org.openhab.binding.yioremote/src/main/java/org/openhab/binding/yioremote/internal/YIOremoteDockHandler.java:197 | splitting undoes joining when no field contains the separator |
| `IrCodes.Parse` | bundles/org.openhab.binding.yioremote/src/main/java/org/openhab/binding/yioremote/internal/YIOremoteDockHandler.java:284 | text accepted by the pattern yields a well-formed IR code whose text is exactly the input |
| `IrCodes.IsIrCode` | bundles/org.openhab.binding.yioremote/src/main/java/org/openhab/binding/yioremote/internal/YIOremoteDockHandler.java:197 | a text the pattern matches has at least nine characters, begins with a digit and ends with `;` followed by a digit |
| `IrCodes.FormatText` | bundles/org.openhab.binding.yioremote/src/main/java/org/openhab/binding/yioremote/internal/YIOremoteDockHandler.java:197 | the text of a well-formed code, class by class as the pattern reads it, with exactly three `;` |
| `IrCodes.ParseFormat` | bundles/org.openhab.binding.yioremote/src/main/java/org/openhab/binding/yioremote/internal/YIOremoteDockHandler.java:197 | every well-formed IR code (1-2 digits; `0x`/`0X` and hex digits; digits; one digit) reads back as itself |
| `IrCodes.IsIrCodeExactly` | bundles/org.openhab.binding.yioremote/src/main/java/org/openhab/binding/yioremote/internal/YIOremoteDockHandler.java:284 | the IR-code match holds exactly for the text of well-formed IR codes: both directions |
| `Messages.Size` | bundles/org.openhab.binding.yioremote/src/main/java/org/openhab/binding/yioremote/internal/YIOremoteDockHandler.java:118 | the object is empty exactly when no member at all is present |
| `Messages.Classify` | bundles/org.openhab.binding.yioremote/src/main/java/org/openhab/binding/yioremote/internal/YIOremoteDockHandler.java:165-215 | the decoding rules as if-and-only-ifs: no `type` means unrecognised; `auth_required`/`auth_ok` by `type`; pong and ir_send only for `type` dock with a `message`; ir_send succeeded iff `success` is `true` ignoring case; `ir_receive` by `command` only when `type` is present and is neither of the above, with the raw `code` |
| `Messages.EqualsIgnoreCase` | bundles/org.openhab.binding.yioremote/src/main/java/org/openhab/binding/yioremote/internal/YIOremoteDockHandler.java:169-195 | `equalsIgnoreCase` against an ASCII literal: reflexive, only texts of the literal's length match |
| `Messages.EqualsIgnoreCaseExactly` | bundles/org.openhab.binding.yioremote/src/main/java/org/openhab/binding/yioremote/internal/YIOremoteDockHandler.java:169-195 | against an ASCII literal, a text matches iff it has the literal's length and each character is the literal's, or the literal's letter in the other ASCII case, or a character whose case mapping reaches that letter (U+0130/U+0131 for `i`, U+212A for `k`, U+017F for `s`); both directions |
| `Messages.UpperCaseAuthOkMatches` | bundles/org.openhab.binding.yioremote/src/main/java/org/openhab/binding/yioremote/internal/YIOremoteDockHandler.java:172 | `"AUTH_OK"` in upper case is taken as `auth_ok`, while `"AUTH-OK"` is not |
| `Messages.EqualsIgnoreCaseKeepsNonLetters` | bundles/org.openhab.binding.yioremote/src/main/java/org/openhab/binding/yioremote/internal/YIOremoteDockHandler.java:169-195 | where an ASCII literal has a character other than a letter (quote, underscore), a matching text has that very character |
| `Messages.StripQuotes` | bundles/org.openhab.binding.yioremote/src/main/java/org/openhab/binding/yioremote/internal/YIOremoteDockHandler.java:196 | the result holds no `"`, is no longer than the input, contains the same non-quote characters, and is the input when it had no `"` |
| `Messages.StripQuotesCounts` | bundles/org.openhab.binding.yioremote/src/main/java/org/openhab/binding/yioremote/internal/YIOremoteDockHandler.java:196 | every quote is removed and every other character occurs in the result exactly as often as in the input |
| `Messages.StripQuotesAppend` | bundles/org.openhab.binding.yioremote/src/main/java/org/openhab/binding/yioremote/internal/YIOremoteDockHandler.java:196 | removing quotes from a concatenation is the concatenation of the pieces with quotes removed, and a single character is dropped iff it is a quote, so the order of the kept characters is preserved |
| `Messages.ReceivedCode` | bundles/org.openhab.binding.yioremote/src/main/java/org/openhab/binding/yioremote/internal/YIOremoteDockHandler.java:196-201 | the kept code is empty or a well-formed IR code; it is the unquoted raw code whenever that matches, and empty otherwise |
| `DockModel.Initial` | bundles/org.openhab.binding.yioremote/src/main/java/org/openhab/binding/yioremote/internal/YIOremoteDockHandler.java:71-78 | a new handler is `UNINITIALIZED_STATE`, with no timer armed and nothing sent, and is consistent |
| `DockModel.Initialized` | bundles/org.openhab.binding.yioremote/src/main/java/org/openhab/binding/yioremote/internal/YIOremoteDockHandler.java:93-100 | a valid address moves to `AUTHENTICATION_PROCESS`; an invalid one changes nothing |
| `DockModel.Connected` | bundles/org.openhab.binding.yioremote/src/main/java/org/openhab/binding/yioremote/internal/YIOremoteDockHandler.java:105-111 | `onConnect(true)` gives `CONNECTION_ESTABLISHED`, `onConnect(false)` `CONNECTION_FAILED`; nothing else changes |
| `DockModel.Errored` | bundles/org.openhab.binding.yioremote/src/main/java/org/openhab/binding/yioremote/internal/YIOremoteDockHandler.java:146-150 | `onError` gives `COMMUNICATION_ERROR` and leaves both timer handles and everything else unchanged |
| `DockModel.ReconnectArmed` | bundles/org.openhab.binding.yioremote/src/main/java/org/openhab/binding/yioremote/internal/YIOremoteDockHandler.java:381-386 | afterwards the reconnection timer is armed and nothing else has changed |
| `DockModel.Closed` | bundles/org.openhab.binding.yioremote/src/main/java/org/openhab/binding/yioremote/internal/YIOremoteDockHandler.java:141-143 | `onClose` only arms reconnection |
| `DockModel.PollingDisposed` | bundles/org.openhab.binding.yioremote/src/main/java/org/openhab/binding/yioremote/internal/YIOremoteDockHandler.java:328-335 | afterwards the heartbeat timer is disarmed and nothing else has changed |
| `DockModel.Decoded` | bundles/org.openhab.binding.yioremote/src/main/java/org/openhab/binding/yioremote/internal/YIOremoteDockHandler.java:165-215 | decoding leaves state, outbox and timers alone; sets `heartBeat` for pong, failed ir_send and ir_receive, clears it when unrecognised, else keeps it; `authenticationOk` is raised only by auth_ok; the status text of each outcome ("Authentication required", "Authentication ok", "Heart beat received", "Send IR Code successfully", "Send IR Code failure", the unquoted code for ir_receive, unchanged when unrecognised); the received code for ir_receive |
| `DockModel.Authenticated` | bundles/org.openhab.binding.yioremote/src/main/java/org/openhab/binding/yioremote/internal/YIOremoteDockHandler.java:301-326 | in `CONNECTION_ESTABLISHED`: exactly one Authenticate with the token is sent, and the state moves to `AUTHENTICATION_PROCESS`; in `AUTHENTICATION_PROCESS`: `AUTHENTICATION_COMPLETE` with polling armed iff `authenticationOk`, else `AUTHENTICATION_FAILED`; otherwise polling is disarmed and the state is `COMMUNICATION_ERROR` |
| `DockModel.Received` | bundles/org.openhab.binding.yioremote/src/main/java/org/openhab/binding/yioremote/internal/YIOremoteDockHandler.java:114-138 | `onMessage` keeps the token and never takes back what was sent (its transitions are stated by `DockProperties.MessageDrivesAuthentication`) |
| `DockModel.Polled` | bundles/org.openhab.binding.yioremote/src/main/java/org/openhab/binding/yioremote/internal/YIOremoteDockHandler.java:337-370 | in `AUTHENTICATION_COMPLETE`/`SEND_PING`: only `heartBeat` is cleared, exactly one Heartbeat is sent, and the state moves to `CHECK_PONG`; in `CHECK_PONG` with the flag: `SEND_PING`; in `CHECK_PONG` without it: `COMMUNICATION_ERROR` with polling disarmed and reconnection armed; in any other state: polling disarmed and `COMMUNICATION_ERROR` |
| `DockModel.ReconnectPolled` | bundles/org.openhab.binding.yioremote/src/main/java/org/openhab/binding/yioremote/internal/YIOremoteDockHandler.java:388-428 | in `COMMUNICATION_ERROR`: polling is disarmed, and the state becomes `AUTHENTICATION_PROCESS` if the address is valid, else `RECONNECTION_PROCESS` after a clean teardown, else stays; in `AUTHENTICATION_COMPLETE`: only the reconnection timer is disarmed; in other states: nothing |
| `DockModel.Disposed` | bundles/org.openhab.binding.yioremote/src/main/java/org/openhab/binding/yioremote/internal/YIOremoteDockHandler.java:249-259 | both timers are disarmed; `authenticationOk` and `heartBeat` are cleared exactly when a reconnection timer was armed; every other field is unchanged |
| `DockModel.IrCodeSent` | bundles/org.openhab.binding.yioremote/src/main/java/org/openhab/binding/yioremote/internal/YIOremoteDockHandler.java:282-290 | exactly one IR send with that code is sent, and nothing else changes, iff the code is non-null, the state is `AUTHENTICATION_COMPLETE` and the code matches; otherwise nothing changes |
| `DockModel.CommandHandled` | bundles/org.openhab.binding.yioremote/src/main/java/org/openhab/binding/yioremote/internal/YIOremoteDockHandler.java:262-280 | on the receiver switch in `AUTHENTICATION_COMPLETE`, ON sends exactly one receiver-on and OFF exactly one receiver-off; in every other case nothing changes |
| `DockModel.Step` | bundles/org.openhab.binding.yioremote/src/main/java/org/openhab/binding/yioremote/internal/YIOremoteDockHandler.java:102-151 | every event keeps the access token and only appends to what was sent |
| `DockHandler.Dock.constructor` | bundles/org.openhab.binding.yioremote/src/main/java/org/openhab/binding/yioremote/internal/YIOremoteDockHandler.java:71-88 | the fields start as the Java initialisers set them, and the object is valid |
| `DockHandler.Dock.Initialize` | bundles/org.openhab.binding.yioremote/src/main/java/org/openhab/binding/yioremote/internal/YIOremoteDockHandler.java:91-100 | the new state is `Initialized` of the old one |
| `DockHandler.Dock.SendMessage` | bundles/org.openhab.binding.yioremote/src/main/java/org/openhab/binding/yioremote/internal/YIOremoteDockHandler.java:430-459 | the message is appended to the outbox; nothing else changes |
| `DockHandler.Dock.OnConnect` | bundles/org.openhab.binding.yioremote/src/main/java/org/openhab/binding/yioremote/internal/YIOremoteDockHandler.java:105-111 | the new state is `Connected` of the old one |
| `DockHandler.Dock.OnMessage` | bundles/org.openhab.binding.yioremote/src/main/java/org/openhab/binding/yioremote/internal/YIOremoteDockHandler.java:114-138 | the new state is `Received` of the old one |
| `DockHandler.Dock.OnClose` | bundles/org.openhab.binding.yioremote/src/main/java/org/openhab/binding/yioremote/internal/YIOremoteDockHandler.java:141-143 | the new state is `Closed` of the old one |
| `DockHandler.Dock.OnError` | bundles/org.openhab.binding.yioremote/src/main/java/org/openhab/binding/yioremote/internal/YIOremoteDockHandler.java:146-150 | the new state is `Errored` of the old one |
| `DockHandler.Dock.DecodeReceivedMessage` | bundles/org.openhab.binding.yioremote/src/main/java/org/openhab/binding/yioremote/internal/YIOremoteDockHandler.java:165-216 | the new fields are `Decoded` by `Classify` of the message; the result is true iff the message was recognised |
| `DockHandler.Dock.AuthenticateWebsocket` | bundles/org.openhab.binding.yioremote/src/main/java/org/openhab/binding/yioremote/internal/YIOremoteDockHandler.java:301-326 | the new state is `Authenticated` of the old one |
| `DockHandler.Dock.DisposeWebsocketPollingJob` | bundles/org.openhab.binding.yioremote/src/main/java/org/openhab/binding/yioremote/internal/YIOremoteDockHandler.java:328-335 | the new state is `PollingDisposed` of the old one |
| `DockHandler.Dock.ResetHeartbeat` | bundles/org.openhab.binding.yioremote/src/main/java/org/openhab/binding/yioremote/internal/YIOremoteDockHandler.java:372-375 | clears `heartBeat` and returns true |
| `DockHandler.Dock.PollingWebsocketJob` | bundles/org.openhab.binding.yioremote/src/main/java/org/openhab/binding/yioremote/internal/YIOremoteDockHandler.java:337-370 | the new state is `Polled` of the old one |
| `DockHandler.Dock.ReconnectWebsocket` | bundles/org.openhab.binding.yioremote/src/main/java/org/openhab/binding/yioremote/internal/YIOremoteDockHandler.java:381-386 | the new state is `ReconnectArmed` of the old one |
| `DockHandler.Dock.ReconnectWebsocketJob` | bundles/org.openhab.binding.yioremote/src/main/java/org/openhab/binding/yioremote/internal/YIOremoteDockHandler.java:388-428 | the new state is `ReconnectPolled` of the old one |
| `DockHandler.Dock.Dispose` | bundles/org.openhab.binding.yioremote/src/main/java/org/openhab/binding/yioremote/internal/YIOremoteDockHandler.java:249-259 | the new state is `Disposed` of the old one |
| `DockHandler.Dock.SendIrCode` | bundles/org.openhab.binding.yioremote/src/main/java/org/openhab/binding/yioremote/internal/YIOremoteDockHandler.java:282-290 | the new state is `IrCodeSent` of the old one |
| `DockHandler.Dock.HandleCommand` | bundles/org.openhab.binding.yioremote/src/main/java/org/openhab/binding/yioremote/internal/YIOremoteDockHandler.java:262-280 | the new state is `CommandHandled` of the old one |
| `DockProperties.RunFollows` | bundles/org.openhab.binding.yioremote/src/main/java/org/openhab/binding/yioremote/internal/YIOremoteDockHandler.java:430-459 | over any run of events the token is kept and the outbox only grows |
| `DockProperties.StepKeepsConsistent` | bundles/org.openhab.binding.yioremote/src/main/java/org/openhab/binding/yioremote/internal/YIOremoteDockHandler.java:196-201 | every event keeps the handler consistent: every IR code sent matches the pattern, every authentication carries the token, and the received code is empty or well formed |
| `DockProperties.RunKeepsConsistent` | bundles/org.openhab.binding.yioremote/src/main/java/org/openhab/binding/yioremote/internal/YIOremoteDockHandler.java:282-290 | consistency holds after any run of events from a consistent state |
| `DockProperties.NeverSendsMalformedCode` | bundles/org.openhab.binding.yioremote/src/main/java/org/openhab/binding/yioremote/internal/YIOremoteDockHandler.java:283-285 | whatever the events, every IR code ever sent matches the pattern and every authentication carries the configured token |
| `DockProperties.DecodeOutcomes` | bundles/org.openhab.binding.yioremote/src/main/java/org/openhab/binding/yioremote/internal/YIOremoteDockHandler.java:165-215 | recognised and `heartBeat` set for pong, failed ir_send and ir_receive; recognised with `heartBeat` untouched for auth_required, auth_ok and successful ir_send; `heartBeat` cleared when unrecognised |
| `DockProperties.NoTypeNeverDecodes` | bundles/org.openhab.binding.yioremote/src/main/java/org/openhab/binding/yioremote/internal/YIOremoteDockHandler.java:168-213 | a message without `type`, even an `ir_receive` command, is unrecognised; its only effect is clearing `heartBeat` (none at all if the object is empty) |
| `DockProperties.AuthenticationOkChanges` | bundles/org.openhab.binding.yioremote/src/main/java/org/openhab/binding/yioremote/internal/YIOremoteDockHandler.java:172-175 | `authenticationOk` is raised only by decoding auth_ok and lowered only by dispose with a reconnection timer armed |
| `DockProperties.IrReceiveKeepsCode` | bundles/org.openhab.binding.yioremote/src/main/java/org/openhab/binding/yioremote/internal/YIOremoteDockHandler.java:195-204 | after `ir_receive` the status text is the quote-stripped raw code, the kept code is that text if it matches and empty otherwise, and `heartBeat` is set |
| `DockProperties.MessageDrivesAuthentication` | bundles/org.openhab.binding.yioremote/src/main/java/org/openhab/binding/yioremote/internal/YIOremoteDockHandler.java:118-136 | an unrecognised message only clears `heartBeat`; after a recognised one: in `CONNECTION_ESTABLISHED` exactly one Authenticate is sent and the state moves to `AUTHENTICATION_PROCESS`; in `AUTHENTICATION_PROCESS` the state moves to `AUTHENTICATION_COMPLETE` with polling armed iff authenticated, else to `AUTHENTICATION_FAILED`; in `COMMUNICATION_ERROR` reconnection is only armed; otherwise nothing but decoding |
| `DockProperties.ReconnectIdempotent` | bundles/org.openhab.binding.yioremote/src/main/java/org/openhab/binding/yioremote/internal/YIOremoteDockHandler.java:381-386 | arming reconnection twice equals arming it once |
| `DockProperties.DisposeIdempotent` | bundles/org.openhab.binding.yioremote/src/main/java/org/openhab/binding/yioremote/internal/YIOremoteDockHandler.java:249-259 | a second dispose changes nothing, and after dispose both handles are null |
| `DockProperties.HeartbeatRounds` | bundles/org.openhab.binding.yioremote/src/main/java/org/openhab/binding/yioremote/internal/YIOremoteDockHandler.java:337-353 | each round is a ping tick, a pong and a check tick; after n such rounds the state is `SEND_PING`, exactly n heartbeats have been sent, and the timers and authentication are unchanged |
| `DockProperties.MissedPong` | bundles/org.openhab.binding.yioremote/src/main/java/org/openhab/binding/yioremote/internal/YIOremoteDockHandler.java:339-360 | a ping with no reply before the next tick ends in `COMMUNICATION_ERROR`, with polling disarmed, reconnection armed and one heartbeat sent |
| `DockProperties.UnknownMessageCountsAsNoPong` | bundles/org.openhab.binding.yioremote/src/main/java/org/openhab/binding/yioremote/internal/YIOremoteDockHandler.java:190-193 | after a ping, a pong alone lets the check tick pass to `SEND_PING`, but a pong followed by an unrecognised message leads the check tick to `COMMUNICATION_ERROR` |
| `DockProperties.ReconnectThenError` | bundles/org.openhab.binding.yioremote/src/main/java/org/openhab/binding/yioremote/internal/YIOremoteDockHandler.java:389-416 | with a valid address a reconnection tick always restarts authentication, whatever the teardown did; an error then returns to `COMMUNICATION_ERROR` with only polling disarmed, and the next tick retries |
| `DockProperties.ReconnectsIgnored` | bundles/org.openhab.binding.yioremote/src/main/java/org/openhab/binding/yioremote/internal/YIOremoteDockHandler.java:425-426 | in any state but `COMMUNICATION_ERROR` and `AUTHENTICATION_COMPLETE`, any number of reconnection ticks change nothing |
| `DockProperties.ReconnectThenConnectFailed` | bundles/org.openhab.binding.yioremote/src/main/java/org/openhab/binding/yioremote/internal/YIOremoteDockHandler.java:105-110 | a failed connection after a reconnection tick leaves `CONNECTION_FAILED` with the reconnection timer still armed, and no number of further ticks changes the state |
| `DockProperties.ErrorThenTickDisarmsAll` | bundles/org.openhab.binding.yioremote/src/main/java/org/openhab/binding/yioremote/internal/YIOremoteDockHandler.java:146-150 | an error in `AUTHENTICATION_COMPLETE` with no reconnection timer, followed by a heartbeat tick, leaves `COMMUNICATION_ERROR` with neither timer armed and nothing else changed |
| `DockProperties.ReconnectAndConnect` | bundles/org.openhab.binding.yioremote/src/main/java/org/openhab/binding/yioremote/internal/YIOremoteDockHandler.java:389-416 | a reconnection tick with a valid address followed by a successful connection gives `CONNECTION_ESTABLISHED` with polling disarmed and nothing else changed |
| `DockProperties.PingThenReconnectTick` | bundles/org.openhab.binding.yioremote/src/main/java/org/openhab/binding/yioremote/internal/YIOremoteDockHandler.java:339-426 | in `AUTHENTICATION_COMPLETE` a heartbeat tick then a reconnection tick send one ping and leave `CHECK_PONG`, the reconnection timer untouched |
| `DockProperties.Handshake` | bundles/org.openhab.binding.yioremote/src/main/java/org/openhab/binding/yioremote/internal/YIOremoteDockHandler.java:303-313 | from `CONNECTION_ESTABLISHED`, auth_required and then auth_ok end in `AUTHENTICATION_COMPLETE` with polling armed, and exactly one Authenticate with the token is sent |
| `DockProperties.AuthOkRightAfterConnect` | bundles/org.openhab.binding.yioremote/src/main/java/org/openhab/binding/yioremote/internal/YIOremoteDockHandler.java:122-126 | auth_ok as the first message after connecting only sends the authentication and stops in `AUTHENTICATION_PROCESS` |
| `DockProperties.BothTimersStayArmed` | bundles/org.openhab.binding.yioremote/src/main/java/org/openhab/binding/yioremote/internal/YIOremoteDockHandler.java:312-423 | there is a run, with a connection, a lost pong, a reconnection, a second handshake, a heartbeat tick and a reconnection tick, that ends with both timers armed |

## Left out

- Websocket I/O (`WebSocketClient.start`/`stop`/`connect`, `Websocket.sendMessage`,
  `closeWebsocketSession`) is network plumbing whose code is not part of this model. A sent message
  is an outbox entry. Whether teardown and connection succeed are method arguments, or callbacks.
- JSON parsing (`convertStringToJsonObject`) belongs to the Gson library. An inbound message is
  taken already parsed, as `InboundJson`. Text that parses to something other than an object
  becomes an empty object (the `IllegalArgumentException` caught at line 232), which `onMessage`
  ignores. Text Gson cannot parse at all raises `JsonSyntaxException`, which is not caught and leaves
  `onMessage` before any modelled field changes (only `receivedMessage`, assigned at line 115, has been set);
  neither path changes a modelled field. The raw text kept in `receivedMessage` is not modelled.
- The message DTOs (`AuthenticationMessage`, `PingMessage`, `IRReceiverMessage`,
  `IRCodeSendMessage`) are not part of this model. Only the kind and payload of each sent message
  are recorded.
- Scheduler timing and threading are left out: the 60 s and 30 s periods, the initial delay of 0,
  and races between callback and scheduler threads. Each timer tick is an explicit call. A running
  job interrupted by `cancel(true)` is not modelled.
- Host framework calls are left out because they carry no lifecycle logic: `updateStatus`,
  `triggerChannel`, `updateState`/`updateChannelString`, `getChannelUuid`, `getServices` and
  logging. The thing status (ONLINE/OFFLINE) is therefore not part of the state.
- `getHeartbeat` is a plain read of `heartBeat`, used directly.
- `URISyntaxException` and the host configuration are reduced to the boolean `addressValid`. It is
  an argument of each `Initialize` and `ReconnectTick` event. In the handler the host is read once
  from the configuration, so every address attempt in one run gives the same answer. The model does
  not enforce that; the reconnection properties are stated for the valid address, the only one a
  handler that got connected can have. The access token is a constant of the object.
- `Messages.Classify`, `DockModel.Received`, `DockHandler.Dock.OnMessage`,
  `DockHandler.Dock.DecodeReceivedMessage`: these require `Decodable`. That excludes the messages
  on which the handler calls `toString()` on the `null` that `get("success")`, `get("command")` or
  `get("code")` returns. The model gives no behaviour for those null-pointer paths.
- `DockHandler.Dock.SendMessage` and `DockHandler.Dock.ResetHeartbeat` are public in the handler
  but are not events of the model: `Step` reaches them only through the other operations. A direct
  `sendMessage(IR_SEND, …)` skips the pattern check at line 284, so the "whatever the events" of
  `DockProperties.NeverSendsMalformedCode` covers runs of the handler's callbacks, timer jobs,
  `sendIRCode`, `handleCommand` and `dispose`, not direct calls of those two methods.
- `Messages.EqualsIgnoreCase` matches Java's `equalsIgnoreCase` only when one side is an ASCII
  literal, which is how the handler uses it. General Unicode case mapping is not modelled.
- `DockModel.Authenticated`: a boolean handle cannot show that arming
  polling over an existing handle drops that handle while its job keeps running. The model only
  records "armed".
