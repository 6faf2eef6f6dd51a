/**
 * The four browser entry points `Rowser.safari3`, `ie7`, `firefox3` and
 * `chrome`: constant parameter bundles handed to `execute`. Timeouts and the
 * cache-flush interval are in milliseconds (the source uses seconds, and
 * Firefox's first rung is half a second).
 */
module Presets {
  import opened RoundRobin
  import opened Results
  import opened Orchestrator

  datatype Browser = Safari3 | Ie7 | Firefox3 | Chrome

  /** The timeout ladder, cache flush interval and the two flags per browser.
      Every ladder is a non-empty, non-decreasing list of positive timeouts
      (retries at escalating patience), and only a browser that remembers the
      successful address re-resolves after a total failure. */
  function Preset(b: Browser): (p: Profile)
    ensures p.timeoutScenario.Ladder? && |p.timeoutScenario.timeouts| > 0
    ensures forall j :: 0 <= j < |p.timeoutScenario.timeouts| ==> p.timeoutScenario.timeouts[j] > 0
    ensures forall j :: 0 < j < |p.timeoutScenario.timeouts| ==>
      p.timeoutScenario.timeouts[j - 1] <= p.timeoutScenario.timeouts[j]
    ensures p.wiseChrome ==> p.useSuccessfulAddr
  {
    match b
    case Safari3 =>
      Profile(Ladder([1000, 1000, 2000, 2000, 4000, 4000, 8000, 8000, 16000]), 0, false, false)
    case Ie7 =>
      Profile(Ladder([3000, 6000, 12000]), 60 * 30 * 1000, true, false)
    case Firefox3 =>
      Profile(Ladder([500, 1000, 1000, 1000, 1000, 1000, 1000, 2000, 4000, 8000, 16000, 32000]), 120 * 1000, false, false)
    case Chrome =>
      Profile(Ladder([3000, 6000, 12000]), 0, true, true)
  }

  /** A browser entry point: `execute` with that browser's preset. */
  method Browse(b: Browser, numberOfRun: int, env: Env) returns (results: seq<RunResult>, summary: Summary)
    ensures results == Run(Preset(b), env, Iterations(numberOfRun)).results
    ensures |results| == Iterations(numberOfRun)
    ensures summary == Summary(|results|, SuccessCount(results), TimeOf(results, true), TimeOf(results, false))
  {
    results, summary := Execute(numberOfRun, Preset(b), env);
  }
}
