# Client/server demonstrator: connection logic and request dispatch

This project models the two pieces of decision logic in a small TCP
client/server demonstrator:

- **The PyQt client's connection state machine** (`src/client/client.py`).
  The model covers:
  - the attempt counter `_connection_try`, with at most 4 tries and the retryable Qt socket error codes -1, 0, 1, 2 and 7;
  - the checks a connect click makes on the address and port fields;
  - the reaction to the socket's connected, error and disconnected signals;
  - the choice of request (fast, or slow with a sleep time);
  - the pause between requests.
- **The asyncio server's shared client counter and its per-request dispatch**
  (`src/server/server.py`). `client_count` goes up on every accept and down when
  a handler's receive returns no data. A request with a non-zero sleep time
  gets a slow response carrying the counter, read before the sleep. Every other
  request gets a fast response carrying the server's time.

Module layout:

- `Protocol` (`protocol.dfy`) holds the messages as the fields both programs read and write. It also holds the client's choice of what to show for a response.
- `Text` (`text.dfy`) models `str.count` and `int()` on field text. It also defines `Fields`, Python's `str.split`. The client never calls `split`; `Fields` is a reference reading of the address check.
- `Server` (`server.dfy`) holds the pure dispatch `Respond`, the reply stream `Replies`, the counter as a function of its history, and the class `ServerState` with `Accept`, `CloseClean`, `HandleRequest` and `Handler`.
- `ClientRules` (`client_rules.dfy`) states the client's rules and transitions as pure functions over a snapshot `ClientView`. It also holds the invariant, the event-sequence model and the bounded-retry lemmas.
- `ClientWindow` (`client.dfy`) holds the class `Client`. Its fields are the counter, the inputs' enabled flag, the two buttons' visibility, the socket state, whether a lost connection's error report is still pending, the dialled endpoints and the written requests. It has one method per event. Each event method is proved to keep the invariant of `ClientRules`. It is also proved to move the state as `ClientRules` does. For `ConnectClicked` that is `Apply` of a `Click`; for every other event method it is the function of the same name. `ChangeInputState` is a helper that sets only the enabled flag.
- `Exchange` (`exchange.dfy`) holds lemmas and scenarios that put client and server together.

Events reach the model in the order Qt and the source's `wait_disconnection`
deliver them:

- a click only while the connect button is enabled;
- connected only after a connect request;
- disconnected and a response only while connected;
- an error only for an attempt in progress, or for a connection the peer has closed. In the second case the error is handled after the disconnection. A disconnect the user asks for, and an idle socket, report no error.

Behaviour of the code that the model keeps as written:

- The server reads the counter before the slow request's sleep, not after it.
- The server lowers the counter only when the receive loop ends cleanly. An exception in a handler skips the decrement.
- The client checks only the port text's length, not its range.
- A retry does not wait for the reconnection timeout. The timeout is read and never used.

## Model

| member | source | states |
|---|---|---|
| `Text.CountChar` | src/client/client.py:74 | `str.count` of one character is at most the text's length, and 0 exactly when the character does not occur |
| `Text.CountIsMultiplicity` | src/client/client.py:74 | `str.count` of one character equals that character's multiplicity in the text, for every text |
| `Text.ParseNat` | src/client/client.py:85 | `int()` of a field's text gives a number exactly when the text is non-empty decimal digits |
| `Text.ParseDecimal` | src/client/client.py:140 | parsing the decimal text of any n gives back n (`int(str(n)) == n`) |
| `Text.LastFieldEmpty` | src/client/client.py:74 | the last `split` field is empty exactly when the text is empty or ends with the separator |
| `Protocol.SleepSeconds` | src/server/server.py:40 | the server reads sleep 0 for a fast request and the requested seconds for a slow one |
| `Protocol.Displayed` | src/client/client.py:150-154 | the client shows the time when the fast-response time is non-empty, otherwise the slow-response count, and 0 for an empty time |
| `Server.Respond` | src/server/server.py:39-44 | the response is slow exactly when the sleep is non-zero; a slow response carries the counter as read, a fast one the current time |
| `Server.Replies` | src/server/server.py:32-47 | a handler sends exactly one response per request, in order, and the i-th is the dispatch of the i-th request |
| `Server.CountIsAcceptsMinusCloses` | src/server/server.py:17-48 | after N accepts and M clean closes the counter reads N - M |
| `Server.ServerState.constructor` | src/server/server.py:56-57 | the counter starts at 0 with no events |
| `Server.ServerState.Accept` | src/server/server.py:17-21 | each accepted connection raises the counter by exactly 1 and keeps it equal to accepts minus closes |
| `Server.ServerState.CloseClean` | src/server/server.py:33-48 | a handler whose receive returns no data lowers the counter by exactly 1 and keeps it equal to accepts minus closes |
| `Server.ServerState.HandleRequest` | src/server/server.py:36-44 | handling one request yields the dispatch of its sleep field against the counter read before any sleep, and changes nothing |
| `Server.ServerState.Handler` | src/server/server.py:29-48 | a handler answers every request before the next receive and leaves the counter untouched inside the loop; on the empty receive it leaves the loop and lowers the counter by exactly 1 |
| `ClientRules.IpAcceptedIffFourFields` | src/client/client.py:74 | an address passes the dot check exactly when it splits into four dot-separated fields with a non-empty last field |
| `ClientRules.IpExamples` | src/client/client.py:74-75 | "1.2.3" and "1.2.3." are rejected and "127.0.0.1" passes; so does "1..2.3", which has an empty inner field |
| `ClientRules.Decide` | src/client/client.py:73-88 | a bad address is rejected first; a port text of 1 to 3 characters is rejected next; a dial goes to the entered address and to the port parsed from the text, or from the placeholder when the text is empty; a port text that `int()` rejects gives no dial |
| `ClientRules.RequestFor` | src/client/client.py:136-142 | fast mode builds a fast request; slow mode builds a slow request with the entered sleep, or with 2 when the field is empty |
| `ClientRules.PauseMs` | src/client/client.py:155-159 | fast mode pauses for the entered timeout in ms, or 2000 when the field is empty; slow mode does not pause |
| `ClientRules.ConnectToServer` | src/client/client.py:73-92 | a click that passes the checks adds exactly one attempt to the counter, disables the inputs and dials once; a rejected click changes nothing |
| `ClientRules.SendToServer` | src/client/client.py:132-145 | a request is written only while the socket is connected and the mode's request builds, and then it is that request; nothing else changes |
| `ClientRules.HandleConnection` | src/client/client.py:98-108 | a connection resets the counter, hides connect, shows disconnect and sends once: the mode's request is written when it builds, nothing when `int()` rejects the sleep text |
| `ClientRules.HandleError` | src/client/client.py:111-124 | a listed error code with fewer than 4 attempts leads to another connect with the same inputs; otherwise the counter returns to 0, connect shows, disconnect hides and the inputs are enabled |
| `ClientRules.HandleDisconnection` | src/client/client.py:126-130 | a disconnection enables the inputs, shows connect and hides disconnect, and leaves the counter as it was; an error report may follow only when the peer closed the connection |
| `ClientRules.ReadFromServer` | src/client/client.py:155-160 | after a decoded response the next request goes out, after the pause in fast mode and at once in slow mode; nothing goes out when the timeout text does not parse |
| `ClientRules.InitialInvariant` | src/client/client.py:35-37 | the window opens in a state where the counter invariant holds |
| `ClientRules.ApplyKeepsInvariant` | src/client/client.py:73-130 | every event that can happen keeps the invariant: counter within 0..4, enabled inputs only when idle with a zero counter, the disconnect button shown exactly while connected |
| `ClientRules.RunKeepsInvariant` | src/client/client.py:73-130 | on every possible sequence of clicks and socket signals the counter never exceeds 4 |
| `ClientRules.SendsOnlyWhileConnected` | src/client/client.py:132-133 | no event writes a request unless the socket is connected after it |
| `ClientRules.RetryChain` | src/client/client.py:111-118 | while attempts remain, each retryable error makes exactly one more attempt to the same endpoint and nothing else changes |
| `ClientRules.GivesUpAtLimit` | src/client/client.py:111-124 | once the counter reaches 4, the next retryable error gives up: counter 0, inputs enabled, socket closed, no further dial |
| `ClientRules.BoundedRetry` | src/client/client.py:83-124 | from an idle client, a click followed by a persistent retryable error makes exactly 4 connection attempts and then gives up with the client idle again |
| `ClientRules.RunAppend` | src/client/client.py:73-130 | running two event sequences one after the other is running their concatenation, and it is possible exactly when both parts are |
| `ClientRules.IdleNeedsClick` | src/client/client.py:24-31 | an idle client with no error report pending has no possible event except a click |
| `ClientRules.NoRedialAfterUserDisconnect` | src/client/client.py:25 | after a disconnect the user asks for, no event but a click can follow, so the client dials nothing on its own |
| `ClientRules.NoAttemptAfterGivingUp` | src/client/client.py:111-124 | after the fourth retryable error gives up, no possible continuation without a click dials again: the session's dials are exactly the four attempts |
| `ClientRules.StillTrying` | src/client/client.py:111-118 | after the click and k < 4 retryable errors, attempt k + 1 is under way with the inputs still disabled |
| `ClientWindow.Client.constructor` | src/client/client.py:35-37 | the client starts idle, with the counter at 0, the inputs enabled and the connect button shown |
| `ClientWindow.Client.ChangeInputState` | src/client/client.py:62-71 | all inputs take the given enabled state together |
| `ClientWindow.Client.ConnectToServer` | src/client/client.py:73-92 | the in-place connect routine returns the checks' outcome and moves the state as `ClientRules.ConnectToServer`, keeping the invariant |
| `ClientWindow.Client.ConnectClicked` | src/client/client.py:24 | a click on the enabled connect button runs the connect routine |
| `ClientWindow.Client.SendToServer` | src/client/client.py:132-145 | writes the mode's request exactly when connected and the sleep text parses, and changes only the written requests |
| `ClientWindow.Client.HandleConnection` | src/client/client.py:98-108 | in place: counter 0, buttons swapped, and one send: the mode's request is written when it builds |
| `ClientWindow.Client.HandleError` | src/client/client.py:110-124 | in place, for an attempt in progress or a connection the peer closed: retries exactly when the code is listed and attempts remain; otherwise resets the counter and re-enables the inputs |
| `ClientWindow.Client.HandleDisconnection` | src/client/client.py:126-130 | in place: inputs enabled, connect shown, disconnect hidden, counter unchanged |
| `ClientWindow.Client.ReadFromServer` | src/client/client.py:150-160 | for a decoded response, returns what the client shows and the pause for the mode, then sends the next request as `ClientRules.ReadFromServer` does |
| `Exchange.DisplayOfReply` | src/client/client.py:150-153 | for any request the client shows the count of a slow reply and the time of a fast one |
| `Exchange.ReplyToClientRequest` | src/server/server.py:40-44 | a fast request is always answered with the time; a default slow request with the count; a slow request with sleep 0 with the time |
| `Exchange.SlowZeroAnsweredFast` | src/server/server.py:40 | a slow request for 0 seconds gets a fast response |
| `Exchange.LocalServerAccepted` | src/client/client.py:74-88 | address "127.0.0.1" with port "5000" passes the checks and dials 127.0.0.1:5000 |
| `Exchange.SlowScenario` | src/server/server.py:40-42 | a 2-second slow request handled while one client is connected is answered with count 1, and the client shows 1 |
| `Exchange.FastScenario` | src/client/client.py:132-160 | for any address and port that pass the checks, the client connects, sends a fast request, shows the time of the decoded reply, waits 2000 ms and sends the next fast request |

## Left out

- Wire encoding and framing (protobuf serialisation, `pickle`, the 4-byte length prefix and `_read_proto_message`): both use foreign libraries. Responses and requests are abstract values here.
- The client's read path as written never gets past decoding. `_read_proto_message` calls `int.from_bytes` with the byte order `"littel"` (src/client/client.py:47), which raises `ValueError` on every call. So `read_from_server` never reaches lines 150-160: the program never shows a response and never sends a second request. `ClientRules.ReadFromServer`, `ClientWindow.Client.ReadFromServer` and `Exchange.FastScenario` model what those lines would do if decoding worked.
- The Qt window: `save_log` (file dialog and file write), `change_connection_type` (which field is visible), the log text, and window setup. The initial visibility of the two buttons is set in `client_ui`, which is not part of this model. It is taken to be connect shown and disconnect hidden.
- `wait_disconnection`'s polling loop: it is replaced by the rule that an error is handled once the socket has left the connected state. Qt's socket states are reduced to unconnected, connecting and connected.
- The pauses themselves (`asyncio.sleep` in `read_from_server` and in the handler): a pause takes no time here. A disconnection cannot arrive during a pause.
- Interleaving of server coroutines: `Server.ServerState.Handler` runs a handler's whole life with no other step in between. `Accept`, `HandleRequest` and `CloseClean` can be interleaved by a caller in any order.
- `datetime.now()`: the time text is a parameter.
- Server log-file writes and `print`.
- The unused `reconnection_timeout` read in `handle_error`.
- `src/client/main.py`: process start-up and event-loop wiring only.
- Exceptions:
  - `int()` raising `ValueError` on a port, sleep or timeout text is modelled as the step stopping at the raise, with nothing after it happening. What PyQt then does with the escaped exception is not modelled.
  - A parse failure escaping the server's `handler` is not modelled. In the source it skips the decrement.
- Text.ParseNat: `int()` also accepts surrounding whitespace, a sign, underscores and non-ASCII digits. The model accepts only plain ASCII digits and treats other text as `int()` failing.
- ClientRules.RequestFor: the sleep time goes into a fixed-width protobuf integer field of `pr_pb2`, which is not part of this model. The field's upper bound is not modelled, nor the `ValueError` that protobuf raises for a larger value and that leaves the request unwritten. The model builds `SlowRequest(n)` for every parsed `n`.
- ClientRules.Decide: a port number above 65535 is passed on as it is. What Qt's binding does with it is not modelled.
