/**
 * Client and server together: what the client shows for the server's reply
 * to each request it can build, and the two request/response scenarios of
 * the demonstrator run against the models of both programs.
 */
module Exchange {
  import opened Wrappers
  import opened Text
  import opened Protocol
  import opened ClientRules
  import ClientWindow
  import Server

  /**
   * The client shows what the server meant: the count for a slow reply, the
   * time for a fast one, as long as the server's time text is not empty.
   */
  lemma DisplayOfReply(req: Request, count: nat, now: string)
    requires now != ""
    ensures Displayed(Server.Respond(SleepSeconds(req), count, now))
            == if SleepSeconds(req) != 0 then ShownCount(count) else ShownTime(now)
  {
  }

  /**
   * A fast request is always answered with the time; a slow request is
   * answered with the count unless its sleep is 0, which the server treats
   * as a fast request.
   */
  lemma ReplyToClientRequest(mode: Mode, sleepText: string, count: nat, now: string)
    requires RequestFor(mode, sleepText).Some?
    ensures var resp := Server.Respond(SleepSeconds(RequestFor(mode, sleepText).value), count, now);
            && (mode == FastMode ==> resp == FastResponse(now))
            && (mode == SlowMode && sleepText == "" ==> resp == SlowResponse(count))
            && (mode == SlowMode && ParseNat(sleepText) == Some(0) ==> resp == FastResponse(now))
  {
  }

  lemma SlowZeroAnsweredFast(count: nat, now: string)
    ensures RequestFor(SlowMode, "0") == Some(SlowRequest(0))
    ensures Server.Respond(SleepSeconds(SlowRequest(0)), count, now) == FastResponse(now)
  {
    assert ParseNat("0") == Some(0) by {
      ParseDecimal(0);
      assert Decimal(0) == "0";
    }
  }

  /** Address 127.0.0.1 with port 5000 passes the checks and is dialled as entered. */
  lemma LocalServerAccepted()
    ensures Decide("127.0.0.1", "5000", "") == Dial(Endpoint("127.0.0.1", 5000))
  {
    IpExamples();
    PortText5000();
  }

  lemma PortText5000()
    ensures ParseNat("5000") == Some(5000)
  {
    assert "5000"[..3] == "500" && "500"[..2] == "50" && "50"[..1] == "5" && "5"[..0] == "";
    assert DigitsValue("500") == 500;
  }

  /**
   * A slow request for 2 seconds, handled while exactly one client is
   * connected, is answered with a count of 1, which the client shows.
   */
  method SlowScenario() returns (resp: Response, shown: Shown)
    ensures resp == SlowResponse(1) && shown == ShownCount(1)
  {
    var server := new Server.ServerState();
    server.Accept();
    resp := server.HandleRequest(SlowRequest(2), "2024-01-01 00:00:00");
    shown := Displayed(resp);
  }

  /**
   * For any address and port that pass the checks (127.0.0.1:5000 among
   * them, by LocalServerAccepted): the client connects, sends a fast
   * request, shows the time it gets back, waits the default 2000 ms and
   * sends the next fast request.
   */
  method FastScenario(ip: string, portText: string, placeholder: string, now: string)
    returns (first: Decision, shown: Shown, pauseMs: Option<nat>, sent: seq<Request>)
    requires Decide(ip, portText, placeholder).Dial? && now != ""
    ensures first == Decide(ip, portText, placeholder)
    ensures shown == ShownTime(now)
    ensures pauseMs == Some(DefaultRequestTimeoutMs)
    ensures sent == [FastRequest, FastRequest]
  {
    var client := new ClientWindow.Client();
    first := client.ConnectClicked(ip, portText, placeholder);
    assert client.socket == Connecting && client.sent == [];
    var server := new Server.ServerState();
    server.Accept();
    var req := client.HandleConnection(FastMode, "");
    assert req == Some(FastRequest) && client.sent == [FastRequest];
    var resp := server.HandleRequest(FastRequest, now);
    assert resp == FastResponse(now) && client.socket == Connected;
    shown, pauseMs := client.ReadFromServer(resp, FastMode, "", "");
    sent := client.sent;
  }
}
