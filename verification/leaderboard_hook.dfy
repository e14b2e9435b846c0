/** The state of `useJuiceLeaderboard` (hooks/useJuiceLeaderboard.ts) and
    its `refresh` transition. The interval timer that calls `refresh` is not
    modelled: a run is the sequence of refreshes it would have made, each
    one completing before the next starts. */
module LeaderboardHook {
  import opened Types
  import JuiceApi

  /** The four pieces of hook state; `lastUpdated` is a timestamp. */
  datatype HookState = HookState(
    players: seq<Player>,
    loading: bool,
    error: Option<string>,
    lastUpdated: Option<int>)

  /** A value a rejected fetch may carry: an `Error` with its message, or
      anything else that was thrown. */
  datatype Thrown = ErrorObject(message: string) | NonError

  /** What one awaited fetch produced, and the clock when it settled. */
  datatype Completion = Completion(result: Result<seq<Player>, Thrown>, at: int)

  const DefaultErrorMessage: string := "Failed to fetch leaderboard"

  /** The state before any fetch has settled. */
  function InitialState(): (s: HookState)
    ensures s.players == [] && s.loading
    ensures s.error.None? && s.lastUpdated.None?
  {
    HookState([], true, None, None)
  }

  /** The text stored in `error` for a thrown value. */
  function ErrorMessage(t: Thrown): (m: string)
    ensures t.ErrorObject? ==> m == t.message
    ensures t.NonError? ==> m == DefaultErrorMessage
  {
    match t
    case ErrorObject(message) => message
    case NonError => DefaultErrorMessage
  }

  /** The state while the fetch is awaited: `error` already cleared. */
  function BeginRefresh(s: HookState): (s': HookState)
    ensures s'.error.None?
    ensures s'.players == s.players && s'.loading == s.loading
    ensures s'.lastUpdated == s.lastUpdated
  {
    s.(error := None)
  }

  /** The `try`/`catch`/`finally` after the await. */
  function CompleteRefresh(s: HookState, c: Completion): (s': HookState)
    ensures !s'.loading
    ensures c.result.Success? ==>
              s'.players == c.result.value && s'.lastUpdated == Some(c.at) && s'.error == s.error
    ensures c.result.Failure? ==>
              s'.error == Some(ErrorMessage(c.result.error))
              && s'.players == s.players && s'.lastUpdated == s.lastUpdated
  {
    match c.result
    case Success(data) => s.(players := data, lastUpdated := Some(c.at), loading := false)
    case Failure(t) => s.(error := Some(ErrorMessage(t)), loading := false)
  }

  /** One whole `refresh()`. */
  function Refresh(s: HookState, c: Completion): (s': HookState)
    ensures !s'.loading
    ensures c.result.Success? ==>
              s'.players == c.result.value && s'.lastUpdated == Some(c.at) && s'.error.None?
    ensures c.result.Failure? ==>
              s'.error == Some(ErrorMessage(c.result.error))
              && s'.players == s.players && s'.lastUpdated == s.lastUpdated
  {
    CompleteRefresh(BeginRefresh(s), c)
  }

  /** The state after a sequence of refreshes, in order. */
  function Run(s: HookState, cs: seq<Completion>): HookState
    decreases |cs|
  {
    if |cs| == 0 then s else Refresh(Run(s, cs[..|cs| - 1]), cs[|cs| - 1])
  }

  /** Once a refresh has settled, `loading` is false and stays false. */
  lemma {:induction false} LoadingNeverReturns(s: HookState, cs: seq<Completion>)
    ensures 0 < |cs| ==> !Run(s, cs).loading
    ensures !s.loading ==> !Run(s, cs).loading
  {
  }

  /** Failed refreshes keep the last good data and its timestamp. */
  lemma {:induction false} StaleDataKept(s: HookState, good: seq<Completion>, failed: seq<Completion>)
    requires forall i :: 0 <= i < |failed| ==> failed[i].result.Failure?
    ensures Run(s, good + failed).players == Run(s, good).players
    ensures Run(s, good + failed).lastUpdated == Run(s, good).lastUpdated
    decreases |failed|
  {
    if |failed| > 0 {
      var cs := good + failed;
      assert cs[..|cs| - 1] == good + failed[..|failed| - 1];
      StaleDataKept(s, good, failed[..|failed| - 1]);
    } else {
      assert good + failed == good;
    }
  }

  /** `refresh()` wired to the real service, which resolves every time. */
  function RefreshFromService(s: HookState, outcome: JuiceApi.FetchOutcome, at: int): (s': HookState)
    ensures s'.error.None? && !s'.loading
    ensures s'.players == JuiceApi.FetchJuiceLeaderboard(outcome)
    ensures s'.lastUpdated == Some(at)
  {
    Refresh(s, Completion(Success(JuiceApi.FetchJuiceLeaderboard(outcome)), at))
  }

  /** The completions the real service produces for a sequence of fetch
      outcomes and settle times. */
  function ServiceCompletions(outcomes: seq<JuiceApi.FetchOutcome>, times: seq<int>): (cs: seq<Completion>)
    requires |outcomes| == |times|
    ensures |cs| == |outcomes|
    ensures forall i :: 0 <= i < |cs| ==> cs[i].result.Success?
  {
    seq(|outcomes|, i requires 0 <= i < |outcomes| =>
      Completion(Success(JuiceApi.FetchJuiceLeaderboard(outcomes[i])), times[i]))
  }

  /** Driven by the real service, the hook never shows an error: from the
      initial state, after any number of refreshes `error` is null, and
      after at least one the data and timestamp are those of the latest. */
  lemma {:induction false} ServiceNeverErrors(outcomes: seq<JuiceApi.FetchOutcome>, times: seq<int>)
    requires |outcomes| == |times|
    ensures Run(InitialState(), ServiceCompletions(outcomes, times)).error.None?
    ensures 0 < |outcomes| ==>
              var s := Run(InitialState(), ServiceCompletions(outcomes, times));
              && s.players == JuiceApi.FetchJuiceLeaderboard(outcomes[|outcomes| - 1])
              && s.lastUpdated == Some(times[|times| - 1])
              && !s.loading
    decreases |outcomes|
  {
    if 0 < |outcomes| {
      var n := |outcomes| - 1;
      assert ServiceCompletions(outcomes, times)[..n] == ServiceCompletions(outcomes[..n], times[..n]);
      ServiceNeverErrors(outcomes[..n], times[..n]);
    }
  }
}
