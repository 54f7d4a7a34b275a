/**
 * `BenchmarkEnvironment`, the server side: one instance per session, with fixed identity
 * fields and a step counter that `reset` clears and `step` advances.
 *
 * The identity sources (a fresh UUID, its SHA-256 hex digest, the process id, the host
 * name and the PORT variable) are given to the constructor; a failing host-name lookup is
 * an absent host name. The step's sleep is reported as a flag instead of being performed.
 */
module BenchmarkEnvironment {
  import opened Wrappers
  import opened Text
  import opened Models

  /** `s[:n]` in Python: the first `n` characters, or all of `s` when it is shorter. */
  function Prefix(s: string, n: nat): (r: string)
    ensures |r| == if |s| < n then |s| else n
    ensures r == s[..|r|]
  {
    if |s| <= n then s else s[..n]
  }

  /** `_get_host_url`: `hostname:PORT`, the port defaulting to 8000, or "unknown" when the lookup fails. */
  function HostUrl(hostname: Option<string>, port: Option<string>): (url: string)
    ensures hostname.None? <==> url == "unknown"
    ensures hostname.Some? ==> url == hostname.value + ":" + port.GetOr("8000")
  {
    match hostname
    case None => "unknown"
    case Some(h) =>
      var url := h + ":" + port.GetOr("8000");
      assert url[|h|] == ':' && ':' !in "unknown";
      url
  }

  class Environment {
    const sessionId: string
    const sessionHash: string
    const pid: int
    const hostUrl: string
    var state: State

    /** `__init__`: a new episode named after the session, at step 0. */
    constructor (uuid: string, hexDigest: string, processId: int, hostname: Option<string>, port: Option<string>)
      ensures sessionId == uuid
      ensures sessionHash == Prefix(hexDigest, 12)
      ensures pid == processId
      ensures hostUrl == HostUrl(hostname, port)
      ensures state == State(Some(uuid), 0)
    {
      sessionId := uuid;
      sessionHash := Prefix(hexDigest, 12);
      pid := processId;
      hostUrl := HostUrl(hostname, port);
      state := State(Some(uuid), 0);
    }

    /** The observation the instance reports, stamped with its identity fields. */
    function Report(waited: real, count: int): (o: Observation)
      ensures o.pid == pid && o.sessionHash == sessionHash && o.hostUrl == hostUrl
      ensures o.waitedSeconds == waited && o.stepCount == count
      ensures !o.done && o.reward.None? && o.metadata == map[]
    {
      Observation(waited, pid, sessionHash, hostUrl, count, false, None, map[])
    }

    /** `reset`: a fresh state for the same episode id, and a zero observation. */
    method Reset() returns (obs: Observation)
      modifies this
      ensures state == State(Some(sessionId), 0)
      ensures obs == Report(0.0, 0)
    {
      state := State(Some(sessionId), 0);
      obs := Report(0.0, 0);
    }

    /**
     * `step`: advance the counter by one and report the requested wait unchanged;
     * `slept` says whether the server would sleep, which it does only for a positive wait.
     */
    method Step(action: Action) returns (obs: Observation, slept: bool)
      modifies this
      ensures state.episodeId == old(state.episodeId)
      ensures state.stepCount == old(state.stepCount) + 1
      ensures obs == Report(action.waitSeconds, state.stepCount)
      ensures slept <==> action.waitSeconds > 0.0
    {
      state := state.(stepCount := state.stepCount + 1);
      var wait := action.waitSeconds;
      slept := wait > 0.0;
      obs := Report(wait, state.stepCount);
    }

    /** The `state` property. */
    function CurrentState(): (s: State)
      reads this
      ensures s.stepCount == state.stepCount && s.episodeId == state.episodeId
    {
      state
    }
  }
}
