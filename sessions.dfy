/**
 * One client session of the scaling test and one batch of them.
 *
 * The network is not modelled: what happened on the wire is given as an attempt, either
 * the replies with the measured latencies, or the exception some call raised. A session
 * turns every exception into a failed record; nothing escapes it.
 */
module Sessions {
  import opened Wrappers
  import opened Models
  import opened Summary
  import opened WsUrl

  /** An exception: its class name (`type(e).__name__`) and its text (`str(e)`). */
  datatype Exception = Exception(typeName: string, message: string)

  /** What the two HTTP calls (`POST /reset`, `POST /step`) did. */
  datatype HttpOutcome =
    | HttpReplied(resetLatency: real, stepLatency: real, reply: StepPayload)
    | HttpRaised(error: Exception)

  /** One HTTP session: its start stamp, its total latency, and what happened. */
  datatype HttpAttempt = HttpAttempt(timestamp: string, totalLatency: real, outcome: HttpOutcome)

  /** A decoded WebSocket reply: its `"type"`, its `"data"` object and its `str()` rendering. */
  datatype WsReply = WsReply(msgType: Option<string>, data: Option<StepPayload>, text: string)

  /**
   * What the WebSocket exchange did: the connection and both replies with their latencies
   * (the step ones are never looked at once the reset reply is an error), or the exception
   * a connect, send, receive, timeout or decode raised.
   */
  datatype WsOutcome =
    | WsExchanged(connectLatency: real, resetLatency: real, resetReply: WsReply,
                  stepLatency: real, stepReply: WsReply)
    | WsRaised(error: Exception)

  datatype WsAttempt = WsAttempt(timestamp: string, totalLatency: real, outcome: WsOutcome)

  const NoObservation := ObservationPayload(None, None, None, None, None, None)

  const DefaultHardware := "cpu-basic"

  /** A successful record; the observation fields fall back to their defaults when absent. */
  function Succeeded(requestId: int, mode: string, timestamp: string, wait: real, connect: real,
                     reset: real, step: real, total: real, obs: ObservationPayload): SessionResult
  {
    SessionResult(requestId, mode, timestamp, wait, 0, DefaultHardware, connect, reset, step, total,
                  obs.waitedSeconds.GetOr(0.0), obs.pid.GetOr(0), obs.sessionHash.GetOr(""),
                  obs.hostUrl.GetOr(""), true, None, None)
  }

  /** The record of a session that raised `e`: no phase latencies, no observation. */
  function FailedWith(requestId: int, mode: string, timestamp: string, wait: real, total: real,
                      e: Exception): SessionResult
  {
    SessionResult(requestId, mode, timestamp, wait, 0, DefaultHardware, 0.0, 0.0, 0.0, total,
                  0.0, 0, "", "", false, Some(e.typeName), Some(e.message))
  }

  /** What every record of a session says about the session, whatever its outcome. */
  predicate Identifies(r: SessionResult, requestId: int, mode: string, timestamp: string, wait: real, total: real) {
    r.requestId == requestId && r.mode == mode && r.timestamp == timestamp &&
    r.waitRequested == wait && r.totalLatency == total && r.batchSize == 0 && r.hardware == DefaultHardware
  }

  /** What a failed record looks like. */
  predicate FailureShape(r: SessionResult, e: Exception) {
    !r.success && r.errorType == Some(e.typeName) && r.errorMessage == Some(e.message) &&
    r.connectLatency == 0.0 && r.resetLatency == 0.0 && r.stepLatency == 0.0 &&
    r.waitedSeconds == 0.0 && r.pid == 0 && r.sessionHash == "" && r.hostUrl == ""
  }

  /** `http_session`: HTTP has no separate connect phase, so its connect latency is 0. */
  function HttpSession(requestId: int, wait: real, a: HttpAttempt): (r: SessionResult)
    ensures Identifies(r, requestId, "http", a.timestamp, wait, a.totalLatency)
    ensures r.connectLatency == 0.0
    ensures r.success <==> a.outcome.HttpReplied?
    ensures a.outcome.HttpRaised? ==> FailureShape(r, a.outcome.error)
    ensures a.outcome.HttpReplied? ==>
      r.resetLatency == a.outcome.resetLatency && r.stepLatency == a.outcome.stepLatency &&
      r.errorType.None? && r.errorMessage.None?
  {
    match a.outcome
    case HttpRaised(e) => FailedWith(requestId, "http", a.timestamp, wait, a.totalLatency, e)
    case HttpReplied(reset, step, reply) =>
      Succeeded(requestId, "http", a.timestamp, wait, 0.0, reset, step, a.totalLatency,
                reply.observation.GetOr(NoObservation))
  }

  predicate IsError(reply: WsReply) {
    reply.msgType == Some("error")
  }

  /** The exception `ws_session` raises for an error reply. */
  function ReplyError(phase: string, reply: WsReply): Exception {
    Exception("RuntimeError", phase + " error: " + reply.text)
  }

  /** `ws_session`: an error reply to reset or to step is a failure like any exception. */
  function WsSession(requestId: int, wait: real, a: WsAttempt): (r: SessionResult)
    ensures Identifies(r, requestId, "ws", a.timestamp, wait, a.totalLatency)
    ensures r.success <==>
      a.outcome.WsExchanged? && !IsError(a.outcome.resetReply) && !IsError(a.outcome.stepReply)
    ensures a.outcome.WsRaised? ==> FailureShape(r, a.outcome.error)
    ensures a.outcome.WsExchanged? && IsError(a.outcome.resetReply) ==>
      FailureShape(r, ReplyError("Reset", a.outcome.resetReply))
    ensures a.outcome.WsExchanged? && !IsError(a.outcome.resetReply) && IsError(a.outcome.stepReply) ==>
      FailureShape(r, ReplyError("Step", a.outcome.stepReply))
    ensures r.success ==>
      r.connectLatency == a.outcome.connectLatency && r.resetLatency == a.outcome.resetLatency &&
      r.stepLatency == a.outcome.stepLatency
  {
    match a.outcome
    case WsRaised(e) => FailedWith(requestId, "ws", a.timestamp, wait, a.totalLatency, e)
    case WsExchanged(connect, reset, resetReply, step, stepReply) =>
      if IsError(resetReply) then
        FailedWith(requestId, "ws", a.timestamp, wait, a.totalLatency, ReplyError("Reset", resetReply))
      else if IsError(stepReply) then
        FailedWith(requestId, "ws", a.timestamp, wait, a.totalLatency, ReplyError("Step", stepReply))
      else
        var data := stepReply.data.GetOr(StepPayload(None, None, None));
        Succeeded(requestId, "ws", a.timestamp, wait, connect, reset, step, a.totalLatency,
                  data.observation.GetOr(NoObservation))
  }

  /** One trial of a sweep: the transport, the batch size, the wait and the repetition number. */
  datatype Trial = Trial(mode: string, numRequests: nat, waitSeconds: real, repetition: int)

  /**
   * Everything the load tester observes from outside: the outcome of session `i` of a trial
   * against a URL, the wall time a trial's batch takes, and the clock reading its summary
   * is stamped with.
   */
  datatype World = World(
    http: (string, Trial, nat) -> HttpAttempt,
    ws: (string, Trial, nat) -> WsAttempt,
    wallTime: Trial -> real,
    clock: Trial -> string)

  /** The loop of `run_http_test`/`run_ws_test` that stamps each record with the batch. */
  function Stamp(r: SessionResult, batchSize: int, hardware: string): SessionResult {
    r.(batchSize := batchSize, hardware := hardware)
  }

  method StampResults(results: seq<SessionResult>, batchSize: int, hardware: string)
    returns (stamped: seq<SessionResult>)
    ensures |stamped| == |results|
    ensures forall i :: 0 <= i < |results| ==> stamped[i] == Stamp(results[i], batchSize, hardware)
  {
    stamped := [];
    for i := 0 to |results|
      invariant |stamped| == i
      invariant forall k :: 0 <= k < i ==> stamped[k] == Stamp(results[k], batchSize, hardware)
    {
      stamped := stamped + [Stamp(results[i], batchSize, hardware)];
    }
  }

  /** The records a trial produces: session `i` of the batch, stamped. */
  function BatchResults(world: World, url: string, t: Trial, hardware: string): seq<SessionResult> {
    if t.mode == "ws" then
      seq(t.numRequests, i requires 0 <= i < t.numRequests =>
        Stamp(WsSession(i, t.waitSeconds, world.ws(ConvertToWsUrl(url), t, i)), t.numRequests, hardware))
    else
      seq(t.numRequests, i requires 0 <= i < t.numRequests =>
        Stamp(HttpSession(i, t.waitSeconds, world.http(url, t, i)), t.numRequests, hardware))
  }

  /** `run_http_test`: `num_requests` sessions, gathered in request order, then stamped. */
  method RunHttpTest(world: World, url: string, t: Trial, hardware: string) returns (results: seq<SessionResult>)
    requires t.mode != "ws"
    ensures results == BatchResults(world, url, t, hardware)
  {
    var gathered := seq(t.numRequests, i requires 0 <= i < t.numRequests =>
      HttpSession(i, t.waitSeconds, world.http(url, t, i)));
    results := StampResults(gathered, t.numRequests, hardware);
  }

  /** `run_ws_test`: as for HTTP, against the converted WebSocket URL. */
  method RunWsTest(world: World, url: string, t: Trial, hardware: string) returns (results: seq<SessionResult>)
    requires t.mode == "ws"
    ensures results == BatchResults(world, url, t, hardware)
  {
    var wsUrl := ConvertToWsUrl(url);
    var gathered := seq(t.numRequests, i requires 0 <= i < t.numRequests =>
      WsSession(i, t.waitSeconds, world.ws(wsUrl, t, i)));
    results := StampResults(gathered, t.numRequests, hardware);
  }

  /**
   * A batch has exactly `num_requests` records, record `i` answers request `i`, and every
   * record carries the batch size, the hardware, the mode and the requested wait.
   */
  lemma BatchShape(world: World, url: string, t: Trial, hardware: string)
    ensures var rs := BatchResults(world, url, t, hardware);
      |rs| == t.numRequests &&
      forall i :: 0 <= i < |rs| ==>
        rs[i].requestId == i && rs[i].batchSize == t.numRequests && rs[i].hardware == hardware &&
        rs[i].mode == (if t.mode == "ws" then "ws" else "http") && rs[i].waitRequested == t.waitSeconds
  {
    var rs := BatchResults(world, url, t, hardware);
    forall i | 0 <= i < |rs|
      ensures rs[i].requestId == i && rs[i].batchSize == t.numRequests && rs[i].hardware == hardware
      ensures rs[i].mode == (if t.mode == "ws" then "ws" else "http") && rs[i].waitRequested == t.waitSeconds
    {
      if t.mode == "ws" {
        var r := WsSession(i, t.waitSeconds, world.ws(ConvertToWsUrl(url), t, i));
        assert rs[i] == Stamp(r, t.numRequests, hardware);
      } else {
        var r := HttpSession(i, t.waitSeconds, world.http(url, t, i));
        assert rs[i] == Stamp(r, t.numRequests, hardware);
      }
    }
  }

  /** In an HTTP batch no record has a connect latency, so the connect statistics stay 0. */
  lemma HttpBatchHasNoConnectPhase(world: World, url: string, t: Trial, hardware: string)
    requires t.mode != "ws"
    ensures PositiveLatencies(Successful(BatchResults(world, url, t, hardware)), Connect) == []
  {
    var rs := BatchResults(world, url, t, hardware);
    var ok := Successful(rs);
    forall k | 0 <= k < |ok| ensures Latency(ok[k], Connect) <= 0.0 {
      assert ok[k] in rs;
      var i :| 0 <= i < |rs| && rs[i] == ok[k];
      var h := HttpSession(i, t.waitSeconds, world.http(url, t, i));
      assert rs[i] == Stamp(h, t.numRequests, hardware);
    }
    NoPositiveLatency(ok, Connect);
  }
}
