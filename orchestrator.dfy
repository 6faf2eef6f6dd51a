/**
 * The runner loop of `Rowser.execute`. The background cache thread, the
 * resolver, the transport and the clock are an environment `Env`; a refresh by
 * the background thread is a replacement of the shared list that may land
 * before an iteration's snapshot or between its fetch and the reorder guard.
 */
module Orchestrator {
  import opened Wrappers
  import opened RoundRobin
  import opened Reorder
  import opened Results

  /** The knobs `execute` takes from a browser preset. */
  datatype Profile = Profile(timeoutScenario: Scenario, cacheFlush: Millis, useSuccessfulAddr: bool, wiseChrome: bool)

  /** Everything outside the runner thread, indexed by iteration number i
      (from 1) or by the number k of fetches made before (from 0). */
  datatype Env = Env(
    refresh: nat -> Option<seq<Addr>>,  // list published just before the i-th snapshot, if any
    racing: nat -> Option<seq<Addr>>,   // list published during the i-th fetch, if any
    reresolve: nat -> seq<Addr>,        // answer of the i-th iteration's synchronous re-resolution
    net: nat -> Net,                    // the transport during the k-th fetch
    elapsed: nat -> Millis)             // Benchmark time of the i-th iteration

  /** `addrs = ...` by the cache thread, when it happens. */
  function Publish(update: Option<seq<Addr>>, addrs: seq<Addr>): seq<Addr>
  {
    match update
    case Some(published) => published
    case None => addrs
  }

  /** The runner's state between iterations: the shared list, the results so
      far, and how many fetches and synchronous re-resolutions were made. */
  datatype RunState = RunState(addrs: seq<Addr>, results: seq<RunResult>, fetches: nat, resolutions: nat)

  /** `address_cache = addrs` at the top of iteration i. */
  function Snapshot(env: Env, i: nat, st: RunState): seq<Addr>
  {
    Publish(env.refresh(i), st.addrs)
  }

  /** The first `simulate` of iteration i. */
  function FirstFetch(p: Profile, env: Env, i: nat, st: RunState): Outcome
  {
    RoundRobinOutcome(env.net(st.fetches), Normalize(p.timeoutScenario), Snapshot(env, i, st))
  }

  /** `wise_chrome && res[0].nil?`: re-resolve and fetch once more. */
  predicate Retried(p: Profile, env: Env, i: nat, st: RunState)
  {
    p.wiseChrome && !FirstFetch(p, env, i, st).res
  }

  /** The fetch whose outcome iteration i reports. */
  function FinalFetch(p: Profile, env: Env, i: nat, st: RunState): Outcome
  {
    if Retried(p, env, i, st)
    then RoundRobinOutcome(env.net(st.fetches + 1), Normalize(p.timeoutScenario), env.reresolve(i))
    else FirstFetch(p, env, i, st)
  }

  /** The shared list when iteration i reaches the reorder guard. */
  function LiveList(p: Profile, env: Env, i: nat, st: RunState): seq<Addr>
  {
    Publish(env.racing(i), if Retried(p, env, i, st) then env.reresolve(i) else Snapshot(env, i, st))
  }

  /** `use_successful_addr && !res[0].nil? && addrs == address_cache`. */
  predicate Reorders(p: Profile, env: Env, i: nat, st: RunState)
  {
    p.useSuccessfulAddr && FinalFetch(p, env, i, st).res && LiveList(p, env, i, st) == FinalFetch(p, env, i, st).addresses
  }

  /** The reported fetch used the snapshot, or the re-resolved list after a
      retry; on success the address it names is on that list, on failure it
      is the last one of that list. */
  lemma FinalFetchReports(p: Profile, env: Env, i: nat, st: RunState)
    ensures var o := FinalFetch(p, env, i, st);
      && o.addresses == (if Retried(p, env, i, st) then env.reresolve(i) else Snapshot(env, i, st))
      && (o.res ==> o.addr.Some? && o.addr.value in o.addresses)
      && (!o.res ==> o.addr == if o.addresses == [] then None else Some(o.addresses[|o.addresses| - 1]))
  {
    var ladder := Normalize(p.timeoutScenario);
    if Retried(p, env, i, st) {
      WinnerListed(env.net(st.fetches + 1), ladder, env.reresolve(i));
    } else {
      WinnerListed(env.net(st.fetches), ladder, Snapshot(env, i, st));
    }
  }

  /** `[!res[0].nil?, bench_result, res[1], res[2]]` of iteration i. */
  function Reported(p: Profile, env: Env, i: nat, st: RunState): RunResult
  {
    var o := FinalFetch(p, env, i, st);
    RunResult(o.res, env.elapsed(i), o.addr, o.addresses)
  }

  /** One iteration of the loop at lib/rowser.rb:97-131. */
  function Step(p: Profile, env: Env, i: nat, st: RunState): RunState
  {
    var o := FinalFetch(p, env, i, st);
    var live := LiveList(p, env, i, st);
    var retried := Retried(p, env, i, st);
    FinalFetchReports(p, env, i, st);
    RunState(
      if Reorders(p, env, i, st) then Promote(live, o.addr.value) else live,
      st.results + [Reported(p, env, i, st)],
      st.fetches + (if retried then 2 else 1),
      st.resolutions + (if retried then 1 else 0))
  }

  /** The runner's state after n iterations, starting from `addrs = []`.
      Run, Advance and Iterate are one definition of "n iterations of Step":
      the three-link chain models nothing in the source; it only bounds how
      far the verifier unfolds a run when a lemma mentions it. */
  function Run(p: Profile, env: Env, n: nat): RunState
    decreases n, 2
  {
    if n == 0 then RunState([], [], 0, 0) else Advance(p, env, n)
  }

  /** The state after iteration n (from 1), as one unit: facts about whole
      runs unfold a run one iteration at a time through it. */
  function Advance(p: Profile, env: Env, n: nat): RunState
    requires n > 0
    decreases n, 1
  {
    Iterate(p, env, n)
  }

  /** Iteration n applied to the state after n - 1 iterations. */
  function Iterate(p: Profile, env: Env, n: nat): RunState
    requires n > 0
    decreases n, 0
  {
    Step(p, env, n, Run(p, env, n - 1))
  }

  /** `while (i <= number_of_run)` from i = 1 runs this many times. */
  function Iterations(numberOfRun: int): nat
  {
    if numberOfRun < 0 then 0 else numberOfRun
  }

  /** The fetching half of the loop body (lib/rowser.rb:98-115): snapshot,
      fetch, and under `wise_chrome` one re-resolution and re-fetch after a
      failure. It leaves the shared list and the cache equal to the list used. */
  method FetchPhase(p: Profile, env: Env, i: nat, st: RunState)
    returns (res: bool, addr: Option<Addr>, used: seq<Addr>, addrs: seq<Addr>, addressCache: seq<Addr>,
             fetches: nat, resolutions: nat)
    ensures var o := FinalFetch(p, env, i, st); res == o.res && addr == o.addr && used == o.addresses
    ensures addrs == used && addressCache == used
    ensures fetches == st.fetches + (if Retried(p, env, i, st) then 2 else 1)
    ensures resolutions == st.resolutions + (if Retried(p, env, i, st) then 1 else 0)
  {
    addrs := Publish(env.refresh(i), st.addrs);
    fetches, resolutions := st.fetches, st.resolutions;
    addressCache := addrs;
    // The cache is never nil here, so the resolver answer passed is never used.
    var attempts;
    res, addr, used, attempts := Simulate(env.net(fetches), p.timeoutScenario, Some(addressCache), []);
    fetches := fetches + 1;
    if p.wiseChrome && !res {
      addrs := env.reresolve(i);
      addressCache := addrs;
      resolutions := resolutions + 1;
      res, addr, used, attempts := Simulate(env.net(fetches), p.timeoutScenario, Some(addressCache), []);
      fetches := fetches + 1;
    }
  }

  /** The body of the runner loop for iteration i, on the state `st` it
      starts from. */
  method Iteration(p: Profile, env: Env, i: nat, st: RunState) returns (next: RunState)
    ensures next == Step(p, env, i, st)
  {
    var res, addr, used, addrs, addressCache, fetches, resolutions := FetchPhase(p, env, i, st);
    var results := st.results + [RunResult(res, env.elapsed(i), addr, used)];
    addrs := Publish(env.racing(i), addrs);
    if p.useSuccessfulAddr {
      if res && addrs == addressCache {
        FinalFetchReports(p, env, i, st);
        addrs := Promote(addrs, addr.value);
      }
    }
    next := RunState(addrs, results, fetches, resolutions);
  }

  /** `execute`'s runner thread followed by `display_summary(results)`. */
  method Execute(numberOfRun: int, p: Profile, env: Env) returns (results: seq<RunResult>, summary: Summary)
    ensures results == Run(p, env, Iterations(numberOfRun)).results
    ensures |results| == Iterations(numberOfRun)
    ensures summary == Summary(|results|, SuccessCount(results), TimeOf(results, true), TimeOf(results, false))
  {
    var st := RunState([], [], 0, 0);
    var i := 1;
    while i <= numberOfRun
      invariant 1 <= i <= Iterations(numberOfRun) + 1
      invariant st == Run(p, env, i - 1)
    {
      ghost var prev := st;
      st := Iteration(p, env, i, st);
      assert st == Step(p, env, i, prev);
      RunUnfold(p, env, i);
      i := i + 1;
    }
    assert i - 1 == Iterations(numberOfRun);
    results := st.results;
    RunLength(p, env, Iterations(numberOfRun));
    summary := DisplaySummary(results);
  }

  /** Run n is one more step after run n - 1. */
  lemma RunUnfold(p: Profile, env: Env, n: nat)
    requires n > 0
    ensures Run(p, env, n) == Step(p, env, n, Run(p, env, n - 1))
  {
    assert Run(p, env, n) == Advance(p, env, n);
    assert Advance(p, env, n) == Iterate(p, env, n);
  }

  /** Iteration n appends exactly one result, the one it reports. */
  lemma RunAppendsOne(p: Profile, env: Env, n: nat)
    requires n > 0
    ensures Run(p, env, n).results == Run(p, env, n - 1).results + [Reported(p, env, n, Run(p, env, n - 1))]
  {
    RunUnfold(p, env, n);
  }

  /** Iteration n makes one result more and keeps the earlier ones. */
  lemma RunGrowsByOne(p: Profile, env: Env, n: nat)
    requires n > 0
    ensures |Run(p, env, n).results| == |Run(p, env, n - 1).results| + 1
    ensures Run(p, env, n - 1).results <= Run(p, env, n).results
  {
    RunAppendsOne(p, env, n);
  }

  /** What iteration n adds to the fetch and re-resolution counts. */
  lemma RunCounts(p: Profile, env: Env, n: nat)
    requires n > 0
    ensures var st := Run(p, env, n - 1);
      && Run(p, env, n).fetches == st.fetches + (if Retried(p, env, n, st) then 2 else 1)
      && Run(p, env, n).resolutions == st.resolutions + (if Retried(p, env, n, st) then 1 else 0)
  {
    RunUnfold(p, env, n);
  }

  /** Exactly one result per iteration. */
  lemma {:induction false} RunLength(p: Profile, env: Env, n: nat)
    ensures |Run(p, env, n).results| == n
  {
    if n > 0 {
      RunLength(p, env, n - 1);
      RunGrowsByOne(p, env, n);
    }
  }

  /** Results are only appended: the results after m iterations are a
      prefix of those after any later n. */
  lemma {:induction false} ResultsPrefix(p: Profile, env: Env, m: nat, n: nat)
    requires m <= n
    ensures Run(p, env, m).results <= Run(p, env, n).results
    decreases n - m
  {
    if m < n {
      ResultsPrefix(p, env, m, n - 1);
      RunGrowsByOne(p, env, n);
    }
  }

  /** In order: after n iterations the i-th result is still the one
      iteration i reported, with its elapsed time. */
  lemma ResultAt(p: Profile, env: Env, n: nat, i: nat)
    requires 1 <= i <= n
    ensures |Run(p, env, n).results| == n
    ensures Run(p, env, n).results[i - 1] == Reported(p, env, i, Run(p, env, i - 1))
  {
    RunLength(p, env, n);
    RunLength(p, env, i - 1);
    ResultsPrefix(p, env, i, n);
    RunAppendsOne(p, env, i);
  }

  /** Every iteration fetches once, plus once more exactly when it
      re-resolved; only `wise_chrome` ever re-resolves, at most once per
      iteration. */
  lemma {:induction false} FetchCount(p: Profile, env: Env, n: nat)
    ensures Run(p, env, n).fetches == n + Run(p, env, n).resolutions
    ensures Run(p, env, n).resolutions <= n
    ensures !p.wiseChrome ==> Run(p, env, n).resolutions == 0
  {
    if n > 0 {
      FetchCount(p, env, n - 1);
      RunCounts(p, env, n);
    }
  }

  /** What iteration i reports: with `wise_chrome` and a failed first fetch,
      the second fetch, made over the re-resolved list with the next
      transport; otherwise the first fetch over the snapshot. */
  lemma RetryReport(p: Profile, env: Env, i: nat, st: RunState)
    ensures Retried(p, env, i, st) ==>
      var second := RoundRobinOutcome(env.net(st.fetches + 1), Normalize(p.timeoutScenario), env.reresolve(i));
      Reported(p, env, i, st) == RunResult(second.res, env.elapsed(i), second.addr, env.reresolve(i))
    ensures !Retried(p, env, i, st) ==>
      var first := FirstFetch(p, env, i, st);
      Reported(p, env, i, st) == RunResult(first.res, env.elapsed(i), first.addr, Snapshot(env, i, st))
  {
    FinalFetchReports(p, env, i, st);
  }

  /** The retry rule for one iteration: with `wise_chrome` a failed fetch is
      followed by one re-resolution and one more fetch over its answer, which
      is then what is reported (its flag, address and list); otherwise the
      first fetch is reported. */
  lemma ChromeRetry(p: Profile, env: Env, i: nat, st: RunState)
    ensures var next := Step(p, env, i, st);
      && (next.resolutions == st.resolutions + 1 <==> p.wiseChrome && !FirstFetch(p, env, i, st).res)
      && next.resolutions <= st.resolutions + 1
      && next.fetches == st.fetches + 1 + (next.resolutions - st.resolutions)
      && next.results == st.results + [Reported(p, env, i, st)]
      && (p.wiseChrome && !FirstFetch(p, env, i, st).res ==>
            var second := RoundRobinOutcome(env.net(st.fetches + 1), Normalize(p.timeoutScenario), env.reresolve(i));
            Reported(p, env, i, st) == RunResult(second.res, env.elapsed(i), second.addr, env.reresolve(i)))
      && (!(p.wiseChrome && !FirstFetch(p, env, i, st).res) ==>
            var first := FirstFetch(p, env, i, st);
            Reported(p, env, i, st) == RunResult(first.res, env.elapsed(i), first.addr, Snapshot(env, i, st)))
  {
    RetryReport(p, env, i, st);
  }

  /** The reorder rule for one iteration: only after a success whose list is
      still the shared list; then the same addresses, the winner first and
      the others reversed; otherwise the shared list is left as it is. */
  lemma ReorderStep(p: Profile, env: Env, i: nat, st: RunState)
    ensures var live := LiveList(p, env, i, st);
      var next := Step(p, env, i, st).addrs;
      var o := FinalFetch(p, env, i, st);
      && (!Reorders(p, env, i, st) ==> next == live)
      && (Reorders(p, env, i, st) ==>
            && o.addr.Some? && o.addr.value in live
            && multiset(next) == multiset(live)
            && |next| == |live|
            && next[0] == o.addr.value
            && next[1..] == Reverse(DeleteAt(live, IndexOf(live, o.addr.value))))
  {
    FinalFetchReports(p, env, i, st);
    if Reorders(p, env, i, st) {
      var o := FinalFetch(p, env, i, st);
      PromoteShape(LiveList(p, env, i, st), o.addr.value);
    }
  }

  /** Without `use_successful_addr` the shared list is whatever was last
      published or re-resolved. */
  lemma NoReorderWithoutFlag(p: Profile, env: Env, i: nat, st: RunState)
    requires !p.useSuccessfulAddr
    ensures Step(p, env, i, st).addrs == LiveList(p, env, i, st)
  {
  }

  /** A result is coherent when a success names an address on its list and
      a failure names the last address of its list, or none exactly when the
      list was empty. */
  predicate Coherent(r: RunResult)
  {
    && (r.success ==> r.addr.Some? && r.addr.value in r.addresses)
    && (!r.success ==> r.addr == if r.addresses == [] then None else Some(r.addresses[|r.addresses| - 1]))
  }

  /** Every iteration reports a coherent result. */
  lemma ReportedCoherent(p: Profile, env: Env, i: nat, st: RunState)
    ensures Coherent(Reported(p, env, i, st))
  {
    FinalFetchReports(p, env, i, st);
  }

  /** Every stored result of a run is coherent. */
  lemma {:induction false} ResultsWellFormed(p: Profile, env: Env, n: nat)
    ensures forall k :: 0 <= k < |Run(p, env, n).results| ==> Coherent(Run(p, env, n).results[k])
  {
    if n > 0 {
      var st := Run(p, env, n - 1);
      ResultsWellFormed(p, env, n - 1);
      RunAppendsOne(p, env, n);
      ReportedCoherent(p, env, n, st);
    }
  }
}
