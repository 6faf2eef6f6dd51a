/**
 * Per-iteration results and `Rowser.display_summary`, which folds them into
 * the counts it prints. Benchmark's floating-point `real` time is a whole
 * number of milliseconds here.
 */
module Results {
  import opened Wrappers
  import opened RoundRobin

  /** `[success, bench_result, res[1], res[2]]` of one iteration. */
  datatype RunResult = RunResult(success: bool, elapsed: Millis, addr: Option<Addr>, addresses: seq<Addr>)

  /** What the summary line reports. */
  datatype Summary = Summary(tried: nat, successCount: nat, successTime: nat, failureTime: nat)

  /** Number of successful results. */
  function SuccessCount(rs: seq<RunResult>): nat
  {
    if rs == [] then 0 else SuccessCount(rs[..|rs| - 1]) + (if rs[|rs| - 1].success then 1 else 0)
  }

  /** Total elapsed time of the results whose success flag is `success`. */
  function TimeOf(rs: seq<RunResult>, success: bool): nat
  {
    if rs == [] then 0
    else TimeOf(rs[..|rs| - 1], success) + (if rs[|rs| - 1].success == success then rs[|rs| - 1].elapsed else 0)
  }

  /** The results whose success flag is `success`, in order (reference view). */
  function Only(rs: seq<RunResult>, success: bool): (r: seq<RunResult>)
    ensures forall k :: 0 <= k < |r| ==> r[k].success == success
  {
    if rs == [] then []
    else Only(rs[..|rs| - 1], success) + (if rs[|rs| - 1].success == success then [rs[|rs| - 1]] else [])
  }

  /** Sum of all elapsed times (reference view). */
  function TotalTime(rs: seq<RunResult>): nat
  {
    if rs == [] then 0 else rs[0].elapsed + TotalTime(rs[1..])
  }

  lemma {:induction false} TotalTimeSnoc(rs: seq<RunResult>, r: RunResult)
    ensures TotalTime(rs + [r]) == TotalTime(rs) + r.elapsed
  {
    if rs == [] {
      assert ([r])[1..] == [];
    } else {
      assert (rs + [r])[1..] == rs[1..] + [r];
      TotalTimeSnoc(rs[1..], r);
    }
  }

  /** The folds agree with filtering: the success count is the number of
      successful results, the failures are the rest, and each time total sums
      exactly the results of its kind. */
  lemma {:induction false} FoldsMatchFilter(rs: seq<RunResult>)
    ensures SuccessCount(rs) == |Only(rs, true)|
    ensures |rs| - SuccessCount(rs) == |Only(rs, false)|
    ensures TimeOf(rs, true) == TotalTime(Only(rs, true))
    ensures TimeOf(rs, false) == TotalTime(Only(rs, false))
  {
    if rs != [] {
      var init, last := rs[..|rs| - 1], rs[|rs| - 1];
      FoldsMatchFilter(init);
      if last.success {
        TotalTimeSnoc(Only(init, true), last);
        assert Only(init, false) + [] == Only(init, false);
      } else {
        TotalTimeSnoc(Only(init, false), last);
        assert Only(init, true) + [] == Only(init, true);
      }
    }
  }

  /** Every millisecond is booked once: success time plus failure time is the
      total, and the success count never exceeds the number of results. */
  lemma {:induction false} SummaryTotals(rs: seq<RunResult>)
    ensures SuccessCount(rs) <= |rs|
    ensures TimeOf(rs, true) + TimeOf(rs, false) == TotalTime(rs)
  {
    if rs != [] {
      var init, last := rs[..|rs| - 1], rs[|rs| - 1];
      SummaryTotals(init);
      assert rs == init + [last];
      TotalTimeSnoc(init, last);
    }
  }

  /** Success time only accumulates successful results: a run whose results
      all failed has success count and success time zero. */
  lemma {:induction false} AllFailedSummary(rs: seq<RunResult>)
    requires forall k :: 0 <= k < |rs| ==> !rs[k].success
    ensures SuccessCount(rs) == 0 && TimeOf(rs, true) == 0
    ensures TimeOf(rs, false) == TotalTime(rs)
  {
    if rs != [] {
      var init, last := rs[..|rs| - 1], rs[|rs| - 1];
      AllFailedSummary(init);
      assert rs == init + [last];
      TotalTimeSnoc(init, last);
    }
  }

  /** `display_summary`: one pass over the results with three accumulators. */
  method DisplaySummary(results: seq<RunResult>) returns (summary: Summary)
    ensures summary.tried == |results|
    ensures summary.successCount == SuccessCount(results)
    ensures summary.successTime == TimeOf(results, true)
    ensures summary.failureTime == TimeOf(results, false)
  {
    var successCount, successTotalTime, failureTotalTime := 0, 0, 0;
    var i := 0;
    while i < |results|
      invariant 0 <= i <= |results|
      invariant successCount == SuccessCount(results[..i])
      invariant successTotalTime == TimeOf(results[..i], true)
      invariant failureTotalTime == TimeOf(results[..i], false)
    {
      var r := results[i];
      assert results[..i + 1][..i] == results[..i];
      if r.success {
        successCount := successCount + 1;
      }
      if !r.success {
        failureTotalTime := failureTotalTime + r.elapsed;
      }
      if r.success {
        successTotalTime := successTotalTime + r.elapsed;
      }
      i := i + 1;
    }
    assert results[..i] == results;
    summary := Summary(|results|, successCount, successTotalTime, failureTotalTime);
  }
}
