/**
 * The server: a process-wide count of connected clients, raised when the
 * accept loop takes a connection and lowered when a connection's handler
 * leaves its receive loop on an empty read; and the handler's choice of
 * response for each request.
 *
 * The event loop runs one coroutine step at a time, so the counter is
 * modelled as a field that each step updates in turn.
 */
module Server {
  import opened Protocol

  /**
   * The response to a request whose sleep field reads `sleep`, when the
   * counter reads `count` at the time the request is handled and the clock
   * shows `now`. The count is read before the server sleeps.
   */
  function Respond(sleep: nat, count: nat, now: string): (r: Response)
    ensures r.SlowResponse? <==> sleep != 0
    ensures r.SlowResponse? ==> r.connectedClientCount == count
    ensures r.FastResponse? ==> r.currentDateTime == now
  {
    if sleep != 0 then SlowResponse(count) else FastResponse(now)
  }

  /**
   * What one handler sends over its connection when it receives the requests
   * `inbox` in order while the counter reads `count`, the clock showing
   * `clock[i]` when `inbox[i]` is handled.
   */
  function Replies(count: nat, inbox: seq<Request>, clock: seq<string>): (r: seq<Response>)
    requires |clock| == |inbox|
    ensures |r| == |inbox|
    ensures forall i :: 0 <= i < |inbox| ==> r[i] == Respond(SleepSeconds(inbox[i]), count, clock[i])
  {
    if inbox == [] then []
    else
      var n := |inbox| - 1;
      Replies(count, inbox[..n], clock[..n]) + [Respond(SleepSeconds(inbox[n]), count, clock[n])]
  }

  /** The two events that change the counter. */
  datatype CounterEvent = Accepted | ClosedClean

  /** The counter's value after the events of `history`, starting from 0. */
  function CountAfter(history: seq<CounterEvent>): int
  {
    if history == [] then 0
    else
      var n := |history| - 1;
      CountAfter(history[..n]) + (if history[n] == Accepted then 1 else -1)
  }

  /** After N accepts and M clean closes the counter reads N - M. */
  lemma {:induction false} CountIsAcceptsMinusCloses(history: seq<CounterEvent>)
    ensures CountAfter(history) == multiset(history)[Accepted] as int - multiset(history)[ClosedClean] as int
  {
    if history != [] {
      var n := |history| - 1;
      CountIsAcceptsMinusCloses(history[..n]);
      assert history == history[..n] + [history[n]];
      assert multiset(history) == multiset(history[..n]) + multiset{history[n]};
    }
  }

  /** The server process: the global counter, and the events that produced it. */
  class ServerState {
    var clientCount: nat
    ghost var history: seq<CounterEvent>

    ghost predicate Valid()
      reads this
    {
      clientCount == CountAfter(history)
    }

    constructor ()
      ensures Valid() && clientCount == 0 && history == []
    {
      clientCount := 0;
      history := [];
    }

    /** The accept loop has taken a connection. */
    method Accept()
      requires Valid()
      modifies this
      ensures Valid()
      ensures clientCount == old(clientCount) + 1
      ensures history == old(history) + [Accepted]
      ensures clientCount == multiset(history)[Accepted] as int - multiset(history)[ClosedClean] as int
    {
      clientCount := clientCount + 1;
      history := history + [Accepted];
      CountIsAcceptsMinusCloses(history);
    }

    /**
     * A handler's receive returned no data: it leaves its loop and lowers the
     * counter. A handler only exists for a connection that `Accept` counted.
     */
    method CloseClean()
      requires Valid() && clientCount >= 1
      modifies this
      ensures Valid()
      ensures clientCount == old(clientCount) - 1
      ensures history == old(history) + [ClosedClean]
      ensures clientCount == multiset(history)[Accepted] as int - multiset(history)[ClosedClean] as int
    {
      clientCount := clientCount - 1;
      history := history + [ClosedClean];
      CountIsAcceptsMinusCloses(history);
    }

    /**
     * One pass of the handler's loop after a non-empty receive: the response
     * to `req` when the clock shows `now`. It reads the counter and changes
     * nothing.
     */
    method HandleRequest(req: Request, now: string) returns (resp: Response)
      ensures resp == Respond(SleepSeconds(req), clientCount, now)
    {
      if SleepSeconds(req) != 0 {
        resp := SlowResponse(clientCount);
        // the sleep of `req.timeInSecondsToSleep` seconds happens here, after the count is read
      } else {
        resp := FastResponse(now);
      }
    }

    /**
     * A handler's whole life: it answers each request of `inbox` before the
     * next receive, then its receive returns no data and it lowers the
     * counter. Runs with no other coroutine stepping in between.
     */
    method Handler(inbox: seq<Request>, clock: seq<string>) returns (sent: seq<Response>)
      requires Valid() && clientCount >= 1
      requires |clock| == |inbox|
      modifies this
      ensures Valid()
      ensures sent == Replies(old(clientCount), inbox, clock)
      ensures clientCount == old(clientCount) - 1
      ensures history == old(history) + [ClosedClean]
    {
      sent := [];
      var i := 0;
      while i < |inbox|
        invariant 0 <= i <= |inbox|
        invariant unchanged(this)
        invariant sent == Replies(clientCount, inbox[..i], clock[..i])
      {
        var resp := HandleRequest(inbox[i], clock[i]);
        assert inbox[..i + 1][..i] == inbox[..i] && clock[..i + 1][..i] == clock[..i];
        sent := sent + [resp];
        i := i + 1;
      }
      assert inbox[..i] == inbox && clock[..i] == clock;
      CloseClean();
    }
  }
}
