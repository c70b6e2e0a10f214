/**
 * The messages exchanged by client and server, as the fields of the
 * protocol's wrapper message that the two programs read and write. The byte
 * encoding (protobuf, then pickle) is not part of this model.
 */
module Protocol {

  /** What the client sends: a fast request, or a slow one with a sleep time in seconds. */
  datatype Request = FastRequest | SlowRequest(timeInSecondsToSleep: nat)

  /** What the server sends back: its current time, or its connected-client count. */
  datatype Response = FastResponse(currentDateTime: string) | SlowResponse(connectedClientCount: nat)

  /** What the client appends to its log for a response. */
  datatype Shown = ShownTime(text: string) | ShownCount(count: nat)

  /**
   * The sleep field as the server reads it: a request that is not slow leaves
   * the field unset, which reads as 0.
   */
  function SleepSeconds(req: Request): (n: nat)
    ensures req.FastRequest? ==> n == 0
    ensures req.SlowRequest? ==> n == req.timeInSecondsToSleep
  {
    match req
    case FastRequest => 0
    case SlowRequest(t) => t
  }

  /**
   * The client's choice of what to show: the time when the fast-response
   * time field is non-empty, the slow-response count otherwise (an unset
   * count reads as 0).
   */
  function Displayed(resp: Response): (s: Shown)
    ensures s.ShownTime? <==> resp.FastResponse? && resp.currentDateTime != ""
    ensures s.ShownTime? ==> s.text == resp.currentDateTime
    ensures resp.SlowResponse? ==> s == ShownCount(resp.connectedClientCount)
    ensures resp == FastResponse("") ==> s == ShownCount(0)
  {
    match resp
    case FastResponse(t) => if t == "" then ShownCount(0) else ShownTime(t)
    case SlowResponse(c) => ShownCount(c)
  }
}
