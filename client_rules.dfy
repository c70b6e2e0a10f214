/**
 * The client's decision rules and its connection state machine, as pure
 * functions over a snapshot of the client's state. The `Client` class of
 * module ClientWindow performs the same steps in place: each of its event
 * methods is proved to keep `Invariant` and to move its state as this module
 * does, the connect click as `Apply` of a `Click` and every other event
 * method as the function here of the same name.
 */
module ClientRules {
  import opened Wrappers
  import opened Text
  import opened Protocol

  /** Automatic attempts stop once the attempt counter reaches this value. */
  const MaxConnectionTries: nat := 4
  /**
   * Socket error codes worth another attempt: unknown (-1), connection
   * refused (0), remote host closed (1), host not found (2), network error (7).
   */
  const ErrorsToReconnect: seq<int> := [-1, 0, 1, 2, 7]
  /** Sleep time asked of the server when the sleep field is empty. */
  const DefaultSleepSeconds: nat := 2
  /** Pause between fast requests when the timeout field is empty. */
  const DefaultRequestTimeoutMs: nat := 2000

  /** Which request button is checked. */
  datatype Mode = FastMode | SlowMode

  datatype Endpoint = Endpoint(host: string, port: nat)

  /** The outcome of a connect click's input checks. */
  datatype Decision = WrongIp | WrongPort | PortNotNumber | Dial(endpoint: Endpoint)

  /** The state of the client's TCP socket, as far as the client looks at it. */
  datatype SocketState = Unconnected | Connecting | Connected

  /**
   * A snapshot of the client: the attempt counter, whether the input widgets
   * are enabled, which of the connect/disconnect buttons is hidden, the
   * socket's state, whether a lost connection's error report may still be
   * on its way, every host/port the client has asked the socket to connect
   * to, and every request it has written.
   */
  datatype ClientView = ClientView(
    connectionTry: nat,
    inputsEnabled: bool,
    connectHidden: bool,
    disconnectHidden: bool,
    socket: SocketState,
    peerClosed: bool,
    dials: seq<Endpoint>,
    sent: seq<Request>)

  /** The window as it opens. */
  const Initial := ClientView(0, true, false, true, Unconnected, false, [], [])

  // ---------------------------------------------------------------- input checks

  /** An address passes when it has exactly three dots and does not end with one. */
  predicate IpAccepted(ip: string)
  {
    CountChar(ip, '.') == 3 && ip[|ip| - 1] != '.'
  }

  /** The check on dots means: four dot-separated fields, the last one non-empty. */
  lemma IpAcceptedIffFourFields(ip: string)
    ensures IpAccepted(ip) <==> |Fields(ip, '.')| == 4 && Fields(ip, '.')[3] != ""
  {
    LastFieldEmpty(ip, '.');
  }

  lemma IpExamples()
    ensures !IpAccepted("1.2.3") && !IpAccepted("1.2.3.")
    ensures IpAccepted("127.0.0.1")
    ensures IpAccepted("1..2.3")
  {
    IpAcceptedIffFourFields("1.2.3");
    IpAcceptedIffFourFields("1.2.3.");
    assert CountChar("127.0.0.1", '.') == 3;
    assert CountChar("1..2.3", '.') == 3;
  }

  /** An empty port field stands for its placeholder text. */
  function EffectivePort(portText: string, placeholder: string): string
  {
    if portText == "" then placeholder else portText
  }

  /** The checks a connect click makes before it asks the socket to connect. */
  function Decide(ip: string, portText: string, placeholder: string): (d: Decision)
    ensures !IpAccepted(ip) ==> d == WrongIp
    ensures IpAccepted(ip) && 1 <= |portText| <= 3 ==> d == WrongPort
    ensures d.Dial? <==> IpAccepted(ip) && (portText == "" || |portText| >= 4)
                          && ParseNat(EffectivePort(portText, placeholder)).Some?
    ensures (IpAccepted(ip) && !(1 <= |portText| <= 3)
             && ParseNat(EffectivePort(portText, placeholder)).None?) ==> d == PortNotNumber
    ensures d.Dial? ==> d.endpoint.host == ip
                        && ParseNat(EffectivePort(portText, placeholder)) == Some(d.endpoint.port)
  {
    if CountChar(ip, '.') != 3 || ip[|ip| - 1] == '.' then WrongIp
    else if 0 < |portText| < 4 then WrongPort
    else
      match ParseNat(EffectivePort(portText, placeholder))
      case None => PortNotNumber
      case Some(port) => Dial(Endpoint(ip, port))
  }

  /** An error leads to another attempt only for a listed code and while attempts remain. */
  predicate ShouldRetry(code: int, connectionTry: nat)
  {
    code in ErrorsToReconnect && connectionTry < MaxConnectionTries
  }

  /** The request the client writes, or `None` when `int()` rejects the sleep field. */
  function RequestFor(mode: Mode, sleepText: string): (r: Option<Request>)
    ensures mode == FastMode ==> r == Some(FastRequest)
    ensures mode == SlowMode && sleepText == "" ==> r == Some(SlowRequest(DefaultSleepSeconds))
    ensures mode == SlowMode && sleepText != "" ==>
              r == (if ParseNat(sleepText).Some? then Some(SlowRequest(ParseNat(sleepText).value)) else None)
  {
    match mode
    case FastMode => Some(FastRequest)
    case SlowMode =>
      if sleepText == "" then Some(SlowRequest(DefaultSleepSeconds))
      else
        match ParseNat(sleepText)
        case None => None
        case Some(n) => Some(SlowRequest(n))
  }

  /**
   * How long the client waits after a response before its next request, in
   * milliseconds, or `None` when `int()` rejects the timeout field.
   */
  function PauseMs(mode: Mode, timeoutText: string): (r: Option<nat>)
    ensures mode == SlowMode ==> r == Some(0)
    ensures mode == FastMode && timeoutText == "" ==> r == Some(DefaultRequestTimeoutMs)
    ensures mode == FastMode && timeoutText != "" ==> r == ParseNat(timeoutText)
  {
    match mode
    case SlowMode => Some(0)
    case FastMode =>
      if timeoutText == "" then Some(DefaultRequestTimeoutMs) else ParseNat(timeoutText)
  }

  // ---------------------------------------------------------------- transitions

  /**
   * The connect routine: after the checks pass, ask the socket to connect,
   * count the attempt and disable the inputs; otherwise change nothing. From
   * then on the socket reports the errors of the new attempt.
   */
  function ConnectToServer(v: ClientView, ip: string, portText: string, placeholder: string): (w: ClientView)
    ensures Decide(ip, portText, placeholder).Dial? ==>
              w.connectionTry == v.connectionTry + 1 && !w.inputsEnabled && w.socket == Connecting
              && w.dials == v.dials + [Decide(ip, portText, placeholder).endpoint]
              && w.sent == v.sent && w.connectHidden == v.connectHidden
              && w.disconnectHidden == v.disconnectHidden && !w.peerClosed
    ensures !Decide(ip, portText, placeholder).Dial? ==> w == v
  {
    match Decide(ip, portText, placeholder)
    case Dial(e) =>
      v.(connectionTry := v.connectionTry + 1, inputsEnabled := false,
         socket := Connecting, peerClosed := false, dials := v.dials + [e])
    case _ => v
  }

  /** Write the request for the current mode, provided the socket is connected. */
  function SendToServer(v: ClientView, mode: Mode, sleepText: string): (w: ClientView)
    ensures w.sent != v.sent ==> v.socket == Connected && RequestFor(mode, sleepText).Some?
    ensures v.socket == Connected && RequestFor(mode, sleepText).Some? ==>
              w.sent == v.sent + [RequestFor(mode, sleepText).value]
    ensures w == v.(sent := w.sent)
  {
    if v.socket == Connected && RequestFor(mode, sleepText).Some? then
      v.(sent := v.sent + [RequestFor(mode, sleepText).value])
    else v
  }

  /**
   * The socket has connected: reset the counter, swap the buttons and send
   * once: the mode's request is written when it builds, and nothing is
   * written when `int()` rejects the sleep field.
   */
  function HandleConnection(v: ClientView, mode: Mode, sleepText: string): (w: ClientView)
    ensures w.connectionTry == 0 && w.socket == Connected
    ensures w.connectHidden && !w.disconnectHidden
    ensures w.inputsEnabled == v.inputsEnabled && w.dials == v.dials
    ensures w.sent == v.sent + (if RequestFor(mode, sleepText).Some? then [RequestFor(mode, sleepText).value] else [])
  {
    SendToServer(v.(connectionTry := 0, connectHidden := true, disconnectHidden := false,
                    socket := Connected), mode, sleepText)
  }

  /**
   * The socket reports error `code`, the socket being closed by then: either
   * connect again with the same inputs, or give up, showing the connect
   * button, enabling the inputs and resetting the counter. Either way the
   * error is no longer pending.
   */
  function HandleError(v: ClientView, code: int, ip: string, portText: string, placeholder: string): (w: ClientView)
    ensures ShouldRetry(code, v.connectionTry) ==>
              w == ConnectToServer(v.(socket := Unconnected, peerClosed := false), ip, portText, placeholder)
    ensures !ShouldRetry(code, v.connectionTry) ==>
              w.connectionTry == 0 && w.inputsEnabled && !w.connectHidden && w.disconnectHidden
              && w.socket == Unconnected && w.dials == v.dials
    ensures !w.peerClosed && w.sent == v.sent
  {
    var closed := v.(socket := Unconnected, peerClosed := false);
    if ShouldRetry(code, v.connectionTry) then ConnectToServer(closed, ip, portText, placeholder)
    else closed.(connectHidden := false, disconnectHidden := true, inputsEnabled := true, connectionTry := 0)
  }

  /**
   * The socket has disconnected: show connect, hide disconnect, enable the
   * inputs. When the peer closed the connection (`byPeer`), its error report
   * may still be on its way; after a disconnect the user asked for, the
   * socket reports no error.
   */
  function HandleDisconnection(v: ClientView, byPeer: bool): (w: ClientView)
    ensures w.connectionTry == v.connectionTry
    ensures w.inputsEnabled && !w.connectHidden && w.disconnectHidden && w.socket == Unconnected
    ensures w.peerClosed == byPeer && w.dials == v.dials && w.sent == v.sent
  {
    v.(socket := Unconnected, peerClosed := byPeer, connectHidden := false, disconnectHidden := true, inputsEnabled := true)
  }

  /**
   * A response has arrived: after the pause for the current mode, send the
   * next request; nothing is sent when the timeout field does not parse.
   */
  function ReadFromServer(v: ClientView, mode: Mode, timeoutText: string, sleepText: string): (w: ClientView)
    ensures PauseMs(mode, timeoutText).None? ==> w == v
    ensures PauseMs(mode, timeoutText).Some? ==> w == SendToServer(v, mode, sleepText)
    ensures w == v.(sent := w.sent)
  {
    if PauseMs(mode, timeoutText).Some? then SendToServer(v, mode, sleepText) else v
  }

  // ---------------------------------------------------------------- event sequences

  /** The events that drive the client: the user's click and the socket's signals. */
  datatype Event =
    | Click(ip: string, portText: string, placeholder: string)
    | SocketConnected(mode: Mode, sleepText: string)
    | SocketError(code: int, ip: string, portText: string, placeholder: string)
    | SocketDisconnected(byPeer: bool)
    | ResponseArrived(mode: Mode, timeoutText: string, sleepText: string)

  /**
   * When an event can happen: a click needs the enabled connect button; the
   * socket connects only after being asked to, reports a disconnection or a
   * response only while connected, and reports an error only for an attempt
   * in progress or for a connection the peer has closed, handled once the
   * disconnection is through. An idle socket reports nothing.
   */
  predicate CanHappen(v: ClientView, e: Event)
  {
    match e
    case Click(_, _, _) => v.inputsEnabled
    case SocketConnected(_, _) => v.socket == Connecting
    case SocketError(_, _, _, _) => v.socket == Connecting || v.peerClosed
    case SocketDisconnected(_) => v.socket == Connected
    case ResponseArrived(_, _, _) => v.socket == Connected
  }

  function Apply(v: ClientView, e: Event): ClientView
  {
    match e
    case Click(ip, port, placeholder) => ConnectToServer(v, ip, port, placeholder)
    case SocketConnected(mode, sleepText) => HandleConnection(v, mode, sleepText)
    case SocketError(code, ip, port, placeholder) => HandleError(v, code, ip, port, placeholder)
    case SocketDisconnected(byPeer) => HandleDisconnection(v, byPeer)
    case ResponseArrived(mode, timeoutText, sleepText) => ReadFromServer(v, mode, timeoutText, sleepText)
  }

  function Run(v: ClientView, events: seq<Event>): ClientView
    decreases events
  {
    if events == [] then v else Run(Apply(v, events[0]), events[1..])
  }

  /** Every event of `events` can happen in the state the earlier ones lead to. */
  predicate Possible(v: ClientView, events: seq<Event>)
    decreases events
  {
    events == [] || (CanHappen(v, events[0]) && Possible(Apply(v, events[0]), events[1..]))
  }

  /**
   * What holds between events: the counter stays within 0..4; enabled
   * inputs mean an idle socket and a zero counter; a connected socket means
   * a zero counter; exactly one of the two buttons shows, disconnect exactly
   * while connected; an attempt in progress has been counted; and an error
   * report can be pending only for a closed socket.
   */
  predicate Invariant(v: ClientView)
  {
    v.connectionTry <= MaxConnectionTries
    && (v.inputsEnabled ==> v.socket == Unconnected && v.connectionTry == 0)
    && (v.socket == Connected ==> v.connectionTry == 0)
    && (v.socket == Connecting ==> v.connectionTry >= 1)
    && (v.peerClosed ==> v.socket == Unconnected)
    && v.connectHidden == (v.socket == Connected)
    && v.disconnectHidden == !v.connectHidden
  }

  lemma InitialInvariant()
    ensures Invariant(Initial)
  {
  }

  lemma ApplyKeepsInvariant(v: ClientView, e: Event)
    requires Invariant(v) && CanHappen(v, e)
    ensures Invariant(Apply(v, e))
  {
  }

  /** On every possible run the counter never exceeds 4. */
  lemma {:induction false} RunKeepsInvariant(v: ClientView, events: seq<Event>)
    requires Invariant(v) && Possible(v, events)
    ensures Invariant(Run(v, events))
    ensures Run(v, events).connectionTry <= MaxConnectionTries
    decreases events
  {
    if events != [] {
      ApplyKeepsInvariant(v, events[0]);
      RunKeepsInvariant(Apply(v, events[0]), events[1..]);
    }
  }

  /** Requests are written only while the socket is connected. */
  lemma SendsOnlyWhileConnected(v: ClientView, e: Event)
    requires Invariant(v) && CanHappen(v, e)
    ensures Apply(v, e).sent != v.sent ==> Apply(v, e).socket == Connected
  {
  }

  // ---------------------------------------------------------------- bounded retry

  function Repeat<T>(x: T, k: nat): (r: seq<T>)
    ensures |r| == k
  {
    if k == 0 then [] else [x] + Repeat(x, k - 1)
  }

  /** While attempts remain, each retryable error makes exactly one more attempt. */
  lemma {:induction false} RetryChain(v: ClientView, code: int, ip: string, portText: string, placeholder: string, k: nat)
    requires Invariant(v) && v.socket == Connecting
    requires code in ErrorsToReconnect && Decide(ip, portText, placeholder).Dial?
    requires v.connectionTry + k <= MaxConnectionTries
    ensures Run(v, Repeat(SocketError(code, ip, portText, placeholder), k))
            == v.(connectionTry := v.connectionTry + k,
                  dials := v.dials + Repeat(Decide(ip, portText, placeholder).endpoint, k))
    ensures Possible(v, Repeat(SocketError(code, ip, portText, placeholder), k))
    decreases k
  {
    var e := SocketError(code, ip, portText, placeholder);
    var endpoint := Decide(ip, portText, placeholder).endpoint;
    if k > 0 {
      var next := Apply(v, e);
      assert next == v.(connectionTry := v.connectionTry + 1, dials := v.dials + [endpoint]);
      RetryChain(next, code, ip, portText, placeholder, k - 1);
      assert Repeat(e, k)[0] == e && Repeat(e, k)[1..] == Repeat(e, k - 1);
      assert v.dials + [endpoint] + Repeat(endpoint, k - 1) == v.dials + Repeat(endpoint, k);
    }
  }

  /** With attempts used up to the limit, the next retryable error gives up. */
  lemma {:induction false} GivesUpAtLimit(v: ClientView, code: int, ip: string, portText: string, placeholder: string, k: nat)
    requires Invariant(v) && v.socket == Connecting
    requires code in ErrorsToReconnect && Decide(ip, portText, placeholder).Dial?
    requires v.connectionTry + k == MaxConnectionTries
    ensures Run(v, Repeat(SocketError(code, ip, portText, placeholder), k + 1))
            == v.(connectionTry := 0, inputsEnabled := true, socket := Unconnected,
                  dials := v.dials + Repeat(Decide(ip, portText, placeholder).endpoint, k))
    ensures Possible(v, Repeat(SocketError(code, ip, portText, placeholder), k + 1))
    decreases k
  {
    var e := SocketError(code, ip, portText, placeholder);
    var endpoint := Decide(ip, portText, placeholder).endpoint;
    assert Repeat(e, k + 1)[0] == e && Repeat(e, k + 1)[1..] == Repeat(e, k);
    if k == 0 {
      assert !ShouldRetry(code, v.connectionTry);
    } else {
      var next := Apply(v, e);
      assert next == v.(connectionTry := v.connectionTry + 1, dials := v.dials + [endpoint]);
      GivesUpAtLimit(next, code, ip, portText, placeholder, k - 1);
      assert v.dials + [endpoint] + Repeat(endpoint, k - 1) == v.dials + Repeat(endpoint, k);
    }
  }

  /**
   * From an idle client, a click followed by a persistent retryable error
   * makes exactly four connection attempts, all to the entered address, and
   * then gives up with the counter back at 0, the inputs enabled and the
   * connect button shown.
   */
  lemma BoundedRetry(v: ClientView, code: int, ip: string, portText: string, placeholder: string)
    requires Invariant(v) && v.inputsEnabled
    requires code in ErrorsToReconnect && Decide(ip, portText, placeholder).Dial?
    ensures var events := [Click(ip, portText, placeholder)]
                          + Repeat(SocketError(code, ip, portText, placeholder), MaxConnectionTries);
            && Possible(v, events)
            && Run(v, events)
               == v.(peerClosed := false,
                     dials := v.dials + Repeat(Decide(ip, portText, placeholder).endpoint, MaxConnectionTries))
  {
    var click := Click(ip, portText, placeholder);
    var errors := Repeat(SocketError(code, ip, portText, placeholder), MaxConnectionTries);
    var endpoint := Decide(ip, portText, placeholder).endpoint;
    var first := Apply(v, click);
    GivesUpAtLimit(first, code, ip, portText, placeholder, MaxConnectionTries - 1);
    assert ([click] + errors)[0] == click && ([click] + errors)[1..] == errors;
    assert [endpoint] + Repeat(endpoint, MaxConnectionTries - 1) == Repeat(endpoint, MaxConnectionTries);
  }

  /** Running `a` and then `b` is running `a + b`, and it is possible exactly when both parts are. */
  lemma {:induction false} RunAppend(v: ClientView, a: seq<Event>, b: seq<Event>)
    ensures Run(v, a + b) == Run(Run(v, a), b)
    ensures Possible(v, a + b) <==> Possible(v, a) && Possible(Run(v, a), b)
    decreases a
  {
    if a == [] {
      assert a + b == b;
    } else {
      assert (a + b)[0] == a[0] && (a + b)[1..] == a[1..] + b;
      RunAppend(Apply(v, a[0]), a[1..], b);
    }
  }

  predicate NoClick(events: seq<Event>)
  {
    forall i :: 0 <= i < |events| ==> !events[i].Click?
  }

  /**
   * An idle socket with no error report pending stays idle: without a click
   * no event can happen at all.
   */
  lemma IdleNeedsClick(v: ClientView, events: seq<Event>)
    requires Invariant(v) && v.socket == Unconnected && !v.peerClosed
    requires Possible(v, events) && NoClick(events)
    ensures events == []
  {
  }

  /**
   * After giving up, the client makes no further attempt of its own: every
   * possible continuation without a click is empty, so the session's dials
   * are exactly the four of BoundedRetry.
   */
  lemma NoAttemptAfterGivingUp(v: ClientView, code: int, ip: string, portText: string, placeholder: string,
                               more: seq<Event>)
    requires Invariant(v) && v.inputsEnabled
    requires code in ErrorsToReconnect && Decide(ip, portText, placeholder).Dial?
    requires var events := [Click(ip, portText, placeholder)]
                           + Repeat(SocketError(code, ip, portText, placeholder), MaxConnectionTries);
             Possible(v, events + more) && NoClick(more)
    ensures var events := [Click(ip, portText, placeholder)]
                          + Repeat(SocketError(code, ip, portText, placeholder), MaxConnectionTries);
            Run(v, events + more).dials
            == v.dials + Repeat(Decide(ip, portText, placeholder).endpoint, MaxConnectionTries)
  {
    var events := [Click(ip, portText, placeholder)]
                  + Repeat(SocketError(code, ip, portText, placeholder), MaxConnectionTries);
    BoundedRetry(v, code, ip, portText, placeholder);
    RunAppend(v, events, more);
    IdleNeedsClick(Run(v, events), more);
  }

  /**
   * After a disconnect the user asked for, the client makes no attempt of
   * its own: the only possible continuation without a click is the empty one.
   */
  lemma NoRedialAfterUserDisconnect(v: ClientView, more: seq<Event>)
    requires Invariant(v) && v.socket == Connected
    requires Possible(v, [SocketDisconnected(false)] + more) && NoClick(more)
    ensures more == []
    ensures Run(v, [SocketDisconnected(false)] + more).dials == v.dials
  {
    var w := Apply(v, SocketDisconnected(false));
    RunAppend(v, [SocketDisconnected(false)], more);
    assert Run(v, [SocketDisconnected(false)]) == w;
    IdleNeedsClick(w, more);
  }

  /** Before the fourth error the client is still trying: attempt k + 1 is under way. */
  lemma StillTrying(v: ClientView, code: int, ip: string, portText: string, placeholder: string, k: nat)
    requires Invariant(v) && v.inputsEnabled
    requires code in ErrorsToReconnect && Decide(ip, portText, placeholder).Dial?
    requires k < MaxConnectionTries
    ensures var w := Run(v, [Click(ip, portText, placeholder)] + Repeat(SocketError(code, ip, portText, placeholder), k));
            && w.connectionTry == k + 1 && w.socket == Connecting && !w.inputsEnabled
            && w.dials == v.dials + Repeat(Decide(ip, portText, placeholder).endpoint, k + 1)
  {
    var click := Click(ip, portText, placeholder);
    var errors := Repeat(SocketError(code, ip, portText, placeholder), k);
    var endpoint := Decide(ip, portText, placeholder).endpoint;
    RetryChain(Apply(v, click), code, ip, portText, placeholder, k);
    assert ([click] + errors)[0] == click && ([click] + errors)[1..] == errors;
    assert [endpoint] + Repeat(endpoint, k) == Repeat(endpoint, k + 1);
  }
}
