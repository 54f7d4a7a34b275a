/**
 * The benchmark environment's message types: the action a client sends, the observation
 * the server returns, the episode state, and the JSON payloads they travel in.
 *
 * `BenchmarkObservation` extends the framework's `Observation`, whose own fields are
 * `done` (default false), `reward` (default none) and `metadata` (default empty).
 */
module Models {
  import opened Wrappers

  /** `BenchmarkAction`: how long the server should wait during a step. */
  datatype Action = Action(waitSeconds: real)

  /** `BenchmarkObservation`. Metadata values are kept as opaque text. */
  datatype Observation = Observation(
    waitedSeconds: real,
    pid: int,
    sessionHash: string,
    hostUrl: string,
    stepCount: int,
    done: bool,
    reward: Option<real>,
    metadata: map<string, string>)

  /** The framework's `State`: an optional episode id and a step counter. */
  datatype State = State(episodeId: Option<string>, stepCount: int)

  /** The framework's `StepResult`, as the client hands it to its caller. */
  datatype StepResult = StepResult(observation: Observation, reward: Option<real>, done: bool)

  /** The `"observation"` object of a step reply; `None` stands for an absent key. */
  datatype ObservationPayload = ObservationPayload(
    waitedSeconds: Option<real>,
    pid: Option<int>,
    sessionHash: Option<string>,
    hostUrl: Option<string>,
    stepCount: Option<int>,
    metadata: Option<map<string, string>>)

  /** A step (or reset) reply; `None` stands for an absent key. */
  datatype StepPayload = StepPayload(
    observation: Option<ObservationPayload>,
    done: Option<bool>,
    reward: Option<real>)

  /** A state reply; `None` stands for an absent key. */
  datatype StatePayload = StatePayload(episodeId: Option<string>, stepCount: Option<int>)

  /** The observation carried by an empty object: every field at its declared default. */
  function DefaultObservation(done: bool, reward: Option<real>): Observation {
    Observation(0.0, 0, "", "", 0, done, reward, map[])
  }
}
