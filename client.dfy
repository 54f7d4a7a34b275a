/** `BenchmarkEnv`, the client: building the step request and reading the server's replies. */
module Client {
  import opened Wrappers
  import opened Models

  /** `_step_payload`: the JSON body of a step request. */
  function StepRequest(action: Action): (body: map<string, real>)
    ensures body.Keys == {"wait_seconds"}
    ensures body["wait_seconds"] == action.waitSeconds
  {
    map["wait_seconds" := action.waitSeconds]
  }

  /** The wait a server reads back from a step request body, if the key is there. */
  function RequestedWait(body: map<string, real>): Option<real> {
    if "wait_seconds" in body then Some(body["wait_seconds"]) else None
  }

  /** The server reads back exactly the wait the client sent. */
  lemma StepRequestRoundTrip(action: Action)
    ensures RequestedWait(StepRequest(action)) == Some(action.waitSeconds)
  {
  }

  /** `_parse_result`: absent keys take the observation's declared defaults. */
  function ParseResult(payload: StepPayload): (r: StepResult)
    ensures r.done == (payload.done == Some(true))
    ensures r.reward == payload.reward
    ensures r.observation.done == r.done && r.observation.reward == r.reward
    ensures payload.observation.None? ==> r.observation == DefaultObservation(r.done, r.reward)
  {
    var obs := payload.observation.GetOr(ObservationPayload(None, None, None, None, None, None));
    var done := payload.done.GetOr(false);
    var observation := Observation(
      obs.waitedSeconds.GetOr(0.0),
      obs.pid.GetOr(0),
      obs.sessionHash.GetOr(""),
      obs.hostUrl.GetOr(""),
      obs.stepCount.GetOr(0),
      done,
      payload.reward,
      obs.metadata.GetOr(map[]));
    StepResult(observation, payload.reward, done)
  }

  /** `_parse_state`: a missing id stays absent, a missing counter reads 0. */
  function ParseState(payload: StatePayload): (s: State)
    ensures s.episodeId == payload.episodeId
    ensures payload.stepCount.None? ==> s.stepCount == 0
    ensures payload.stepCount.Some? ==> s.stepCount == payload.stepCount.value
  {
    State(payload.episodeId, payload.stepCount.GetOr(0))
  }

  /** The reply a server sends for an observation, with every key present. */
  function EncodeObservation(o: Observation): StepPayload {
    StepPayload(
      Some(ObservationPayload(Some(o.waitedSeconds), Some(o.pid), Some(o.sessionHash),
                              Some(o.hostUrl), Some(o.stepCount), Some(o.metadata))),
      Some(o.done),
      o.reward)
  }

  function EncodeState(s: State): StatePayload {
    StatePayload(s.episodeId, Some(s.stepCount))
  }

  /** Parsing a complete reply gives back the observation the server sent. */
  lemma ParseEncodedObservation(o: Observation)
    ensures ParseResult(EncodeObservation(o)) == StepResult(o, o.reward, o.done)
  {
  }

  lemma ParseEncodedState(s: State)
    ensures ParseState(EncodeState(s)) == s
  {
  }

  /** Fields the reply leaves out never disturb the ones it carries. */
  lemma ParseResultFieldwise(payload: StepPayload)
    requires payload.observation.Some?
    ensures var o := payload.observation.value; var r := ParseResult(payload).observation;
      (o.pid.Some? ==> r.pid == o.pid.value) && (o.pid.None? ==> r.pid == 0) &&
      (o.stepCount.Some? ==> r.stepCount == o.stepCount.value) && (o.stepCount.None? ==> r.stepCount == 0) &&
      (o.sessionHash.Some? ==> r.sessionHash == o.sessionHash.value) && (o.sessionHash.None? ==> r.sessionHash == "") &&
      (o.hostUrl.Some? ==> r.hostUrl == o.hostUrl.value) && (o.hostUrl.None? ==> r.hostUrl == "") &&
      (o.waitedSeconds.Some? ==> r.waitedSeconds == o.waitedSeconds.value) && (o.waitedSeconds.None? ==> r.waitedSeconds == 0.0) &&
      (o.metadata.Some? ==> r.metadata == o.metadata.value) && (o.metadata.None? ==> r.metadata == map[])
  {
  }
}
