/**
 * The client window's connection logic: the attempt counter, the enabled
 * state of the inputs, the two buttons' visibility and the socket, updated
 * in place by one method per event. Each event method is proved to keep
 * ClientRules.Invariant and to move the window's state as ClientRules does:
 * the connect click as `Apply` of a `Click`, every other event method as the
 * function of the same name. `ChangeInputState` is a helper that sets the
 * enabled flag alone.
 */
module ClientWindow {
  import opened Wrappers
  import opened Text
  import opened Protocol
  import opened ClientRules

  class Client {
    var connectionTry: nat
    const maxConnectionTries: nat := MaxConnectionTries
    const errorsToReconnect: seq<int> := ErrorsToReconnect
    /** Whether the connect button and the input fields accept input. */
    var inputsEnabled: bool
    var connectHidden: bool
    var disconnectHidden: bool
    var socket: SocketState
    /** A lost connection's error report may still be on its way. */
    var peerClosed: bool
    /** Every host and port the socket has been asked to connect to, in order. */
    var dials: seq<Endpoint>
    /** Every request written to the socket, in order. */
    var sent: seq<Request>

    ghost function View(): ClientView
      reads this
    {
      ClientView(connectionTry, inputsEnabled, connectHidden, disconnectHidden, socket, peerClosed, dials, sent)
    }

    ghost predicate Valid()
      reads this
    {
      Invariant(View())
    }

    constructor ()
      ensures Valid() && View() == Initial
    {
      connectionTry := 0;
      inputsEnabled := true;
      connectHidden := false;
      disconnectHidden := true;
      socket := Unconnected;
      peerClosed := false;
      dials := [];
      sent := [];
    }

    /** Enable or disable the connect button and every input field together. */
    method ChangeInputState(state: bool)
      modifies this`inputsEnabled
      ensures inputsEnabled == state
    {
      inputsEnabled := state;
    }

    /**
     * The connect routine, run by a click on the connect button and by a
     * retry. Both callers find the socket closed and attempts remaining.
     */
    method ConnectToServer(ip: string, portText: string, placeholder: string) returns (d: Decision)
      requires Valid() && socket == Unconnected && connectionTry < maxConnectionTries
      modifies this
      ensures Valid()
      ensures d == Decide(ip, portText, placeholder)
      ensures View() == ClientRules.ConnectToServer(old(View()), ip, portText, placeholder)
      ensures d.Dial? ==> connectionTry == old(connectionTry) + 1 && !inputsEnabled
                          && dials == old(dials) + [d.endpoint]
      ensures !d.Dial? ==> unchanged(this)
    {
      if CountChar(ip, '.') != 3 || ip[|ip| - 1] == '.' {
        d := WrongIp;
      } else if 0 < |portText| < 4 {
        d := WrongPort;
      } else {
        var port := portText;
        if port == "" {
          port := placeholder;
        }
        var number := ParseNat(port);
        if number.None? {
          d := PortNotNumber;
        } else {
          d := Dial(Endpoint(ip, number.value));
          dials := dials + [d.endpoint];
          socket := Connecting;
          peerClosed := false;
          connectionTry := connectionTry + 1;
          ChangeInputState(false);
        }
      }
    }

    /** A click on the connect button, which only an enabled button delivers. */
    method ConnectClicked(ip: string, portText: string, placeholder: string) returns (d: Decision)
      requires Valid() && inputsEnabled
      modifies this
      ensures Valid()
      ensures d == Decide(ip, portText, placeholder)
      ensures View() == Apply(old(View()), Click(ip, portText, placeholder))
    {
      d := ConnectToServer(ip, portText, placeholder);
    }

    /** Write the request for the current mode, provided the socket is connected. */
    method SendToServer(mode: Mode, sleepText: string) returns (r: Option<Request>)
      requires Valid()
      modifies this`sent
      ensures Valid()
      ensures r.Some? <==> old(socket) == Connected && RequestFor(mode, sleepText).Some?
      ensures r.Some? ==> r == RequestFor(mode, sleepText) && sent == old(sent) + [r.value]
      ensures View() == ClientRules.SendToServer(old(View()), mode, sleepText)
    {
      r := None;
      if socket == Connected {
        var req: Request;
        if mode == FastMode {
          req := FastRequest;
        } else if sleepText != "" {
          var n := ParseNat(sleepText);
          if n.None? {
            return;
          }
          req := SlowRequest(n.value);
        } else {
          req := SlowRequest(DefaultSleepSeconds);
        }
        sent := sent + [req];
        r := Some(req);
      }
    }

    /** The socket has connected. */
    method HandleConnection(mode: Mode, sleepText: string) returns (r: Option<Request>)
      requires Valid() && socket == Connecting
      modifies this
      ensures Valid()
      ensures connectionTry == 0 && connectHidden && !disconnectHidden
      ensures r == RequestFor(mode, sleepText)
      ensures sent == old(sent) + (if r.Some? then [r.value] else [])
      ensures View() == ClientRules.HandleConnection(old(View()), mode, sleepText)
    {
      socket := Connected;
      connectionTry := 0;
      connectHidden := true;
      disconnectHidden := false;
      r := SendToServer(mode, sleepText);
    }

    /**
     * The socket reports error `code`, for an attempt in progress or for a
     * connection the peer has closed. By the time the handler acts the
     * socket is closed: a failed attempt closes it at once, and a retry
     * after a remote close first waits until the disconnection is through.
     */
    method HandleError(code: int, ip: string, portText: string, placeholder: string) returns (retried: bool)
      requires Valid() && (socket == Connecting || peerClosed)
      modifies this
      ensures Valid()
      ensures retried <==> code in errorsToReconnect && old(connectionTry) < maxConnectionTries
      ensures !retried ==> connectionTry == 0 && inputsEnabled && !connectHidden && disconnectHidden
      ensures View() == ClientRules.HandleError(old(View()), code, ip, portText, placeholder)
    {
      socket := Unconnected;
      peerClosed := false;
      retried := code in errorsToReconnect && connectionTry < maxConnectionTries;
      if retried {
        var _ := ConnectToServer(ip, portText, placeholder);
      } else {
        connectHidden := false;
        disconnectHidden := true;
        ChangeInputState(true);
        connectionTry := 0;
      }
    }

    /**
     * The socket has disconnected, closed by the peer (`byPeer`) or by the
     * user's click on the disconnect button.
     */
    method HandleDisconnection(byPeer: bool)
      requires Valid() && socket == Connected
      modifies this
      ensures Valid()
      ensures connectionTry == old(connectionTry)
      ensures inputsEnabled && !connectHidden && disconnectHidden && socket == Unconnected
      ensures View() == ClientRules.HandleDisconnection(old(View()), byPeer)
    {
      socket := Unconnected;
      peerClosed := byPeer;
      connectHidden := false;
      disconnectHidden := true;
      ChangeInputState(true);
    }

    /**
     * A response has arrived: report what to show and how long to pause,
     * then send the next request. The pause itself is not modelled.
     */
    method ReadFromServer(resp: Response, mode: Mode, timeoutText: string, sleepText: string)
      returns (shown: Shown, pauseMs: Option<nat>)
      requires Valid() && socket == Connected
      modifies this`sent
      ensures Valid()
      ensures shown == Displayed(resp)
      ensures pauseMs == PauseMs(mode, timeoutText)
      ensures View() == ClientRules.ReadFromServer(old(View()), mode, timeoutText, sleepText)
    {
      if resp.FastResponse? && resp.currentDateTime != "" {
        shown := ShownTime(resp.currentDateTime);
      } else if resp.SlowResponse? {
        shown := ShownCount(resp.connectedClientCount);
      } else {
        shown := ShownCount(0);
      }
      if mode == FastMode {
        if timeoutText != "" {
          pauseMs := ParseNat(timeoutText);
          if pauseMs.None? {
            return;
          }
        } else {
          pauseMs := Some(DefaultRequestTimeoutMs);
        }
      } else {
        pauseMs := Some(0);
      }
      var _ := SendToServer(mode, sleepText);
    }
  }
}
