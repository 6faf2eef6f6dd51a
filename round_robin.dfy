/**
 * The round-robin fetcher: `Rowser.round_robinie_get` and its wrapper
 * `Rowser.simulate`. The HTTP GET with open/read timeout is an oracle
 * `net(address, timeout)`; a timeout or any other transport error is `false`.
 */
module RoundRobin {
  import opened Wrappers

  /** An address as the resolver returns it (an IP address string). */
  type Addr = string

  /** Durations, in whole milliseconds. */
  type Millis = nat

  /** The transport: does a GET at this address with this timeout succeed? */
  type Net = (Addr, Millis) -> bool

  /** One GET attempt: an address and the timeout applied to it. */
  datatype Attempt = Attempt(addr: Addr, timeout: Millis)

  /** The `timeout_scenario` argument: a ladder (a Ruby Array) or a bare timeout. */
  datatype Scenario = Single(timeout: Millis) | Ladder(timeouts: seq<Millis>)

  /** A non-array scenario is a one-rung ladder. */
  function Normalize(s: Scenario): seq<Millis>
  {
    match s
    case Single(t) => [t]
    case Ladder(ts) => ts
  }

  /** What one fetch reports: the response (here: whether there was one),
      the address last tried, the list used, and the GETs issued in order. */
  datatype Outcome = Outcome(res: bool, addr: Option<Addr>, addresses: seq<Addr>, attempts: seq<Attempt>)

  /** The attempts against one address: one per rung, in ladder order. */
  function Row(a: Addr, ladder: seq<Millis>): (r: seq<Attempt>)
    ensures |r| == |ladder|
    ensures forall j :: 0 <= j < |ladder| ==> r[j] == Attempt(a, ladder[j])
  {
    seq(|ladder|, j requires 0 <= j < |ladder| => Attempt(a, ladder[j]))
  }

  /** Every attempt the fetcher can make, address-major and ladder-minor. */
  function AllAttempts(addrs: seq<Addr>, ladder: seq<Millis>): seq<Attempt>
  {
    if addrs == [] then [] else AllAttempts(addrs[..|addrs| - 1], ladder) + Row(addrs[|addrs| - 1], ladder)
  }

  /** Some rung of the ladder succeeds against address `a`. */
  predicate AddrOk(net: Net, a: Addr, ladder: seq<Millis>)
  {
    exists j :: 0 <= j < |ladder| && net(a, ladder[j])
  }

  /** The first rung of the ladder that succeeds against `a`, if any. */
  function FirstRung(net: Net, a: Addr, ladder: seq<Millis>): (r: Option<nat>)
    ensures r.Some? ==> r.value < |ladder| && net(a, ladder[r.value])
    ensures AddrOk(net, a, ladder) ==> r.Some?
  {
    if ladder == [] then None
    else if net(a, ladder[0]) then Some(0)
    else match FirstRung(net, a, ladder[1..])
      case None => None
      case Some(k) => Some(k + 1)
  }

  /** The first address, in list order, against which some rung succeeds. */
  function FirstAddr(net: Net, addrs: seq<Addr>, ladder: seq<Millis>): (r: Option<nat>)
    ensures r.Some? ==> r.value < |addrs| && AddrOk(net, addrs[r.value], ladder)
  {
    if addrs == [] then None
    else if AddrOk(net, addrs[0], ladder) then Some(0)
    else match FirstAddr(net, addrs[1..], ladder)
      case None => None
      case Some(k) => Some(k + 1)
  }

  /** FirstRung finds the first succeeding rung, and finds none only when
      every rung fails. */
  lemma {:induction false} FirstRungIsFirst(net: Net, a: Addr, ladder: seq<Millis>)
    ensures var r := FirstRung(net, a, ladder);
      && (r.Some? ==> forall j :: 0 <= j < r.value ==> !net(a, ladder[j]))
      && (r.None? ==> forall j :: 0 <= j < |ladder| ==> !net(a, ladder[j]))
  {
    if ladder != [] && !net(a, ladder[0]) {
      FirstRungIsFirst(net, a, ladder[1..]);
      var r := FirstRung(net, a, ladder);
      forall j | 0 < j < (if r.Some? then r.value else |ladder|)
        ensures !net(a, ladder[j])
      {
        assert ladder[j] == ladder[1..][j - 1];
      }
    }
  }

  /** A rung that succeeds after only failing rungs is the one FirstRung finds. */
  lemma FirstRungUnique(net: Net, a: Addr, ladder: seq<Millis>, j: nat)
    requires j < |ladder| && net(a, ladder[j])
    requires forall l :: 0 <= l < j ==> !net(a, ladder[l])
    ensures FirstRung(net, a, ladder) == Some(j)
  {
    FirstRungIsFirst(net, a, ladder);
    assert AddrOk(net, a, ladder);
  }

  /** FirstAddr finds the first address some rung reaches, and finds none only
      when no address is reachable. */
  lemma {:induction false} FirstAddrIsFirst(net: Net, addrs: seq<Addr>, ladder: seq<Millis>)
    ensures var r := FirstAddr(net, addrs, ladder);
      && (r.Some? ==> forall k :: 0 <= k < r.value ==> !AddrOk(net, addrs[k], ladder))
      && (r.None? ==> forall k :: 0 <= k < |addrs| ==> !AddrOk(net, addrs[k], ladder))
  {
    if addrs != [] && !AddrOk(net, addrs[0], ladder) {
      FirstAddrIsFirst(net, addrs[1..], ladder);
      var r := FirstAddr(net, addrs, ladder);
      forall k | 0 < k < (if r.Some? then r.value else |addrs|)
        ensures !AddrOk(net, addrs[k], ladder)
      {
        assert addrs[k] == addrs[1..][k - 1];
      }
    }
  }

  /** An address reachable after only unreachable ones is the one FirstAddr finds. */
  lemma FirstAddrUnique(net: Net, addrs: seq<Addr>, ladder: seq<Millis>, i: nat)
    requires i < |addrs| && AddrOk(net, addrs[i], ladder)
    requires forall k :: 0 <= k < i ==> !AddrOk(net, addrs[k], ladder)
    ensures FirstAddr(net, addrs, ladder) == Some(i)
  {
    FirstAddrIsFirst(net, addrs, ladder);
  }

  /** The reference outcome of one fetch over the list `addrs`. */
  function RoundRobinOutcome(net: Net, ladder: seq<Millis>, addrs: seq<Addr>): Outcome
  {
    match FirstAddr(net, addrs, ladder)
    case Some(i) =>
      Outcome(true, Some(addrs[i]), addrs, WonAttempts(net, ladder, addrs, i))
    case None =>
      Outcome(false, if addrs == [] then None else Some(addrs[|addrs| - 1]), addrs, AllAttempts(addrs, ladder))
  }

  /** The outcome of a fetch won by address i, the first to succeed. */
  lemma OutcomeWon(net: Net, ladder: seq<Millis>, addrs: seq<Addr>, i: nat)
    requires i < |addrs| && AddrOk(net, addrs[i], ladder)
    requires forall k :: 0 <= k < i ==> !AddrOk(net, addrs[k], ladder)
    ensures RoundRobinOutcome(net, ladder, addrs) == Outcome(true, Some(addrs[i]), addrs, WonAttempts(net, ladder, addrs, i))
  {
    FirstAddrUnique(net, addrs, ladder, i);
  }

  /** The outcome of a fetch won by address i, from the attempts before it
      and those made against it. */
  lemma OutcomeWonWith(net: Net, ladder: seq<Millis>, addrs: seq<Addr>, i: nat, before: seq<Attempt>, tried: seq<Attempt>)
    requires i < |addrs| && AddrOk(net, addrs[i], ladder)
    requires forall k :: 0 <= k < i ==> !AddrOk(net, addrs[k], ladder)
    requires before == AllAttempts(addrs[..i], ladder)
    requires tried == Row(addrs[i], ladder)[..FirstRung(net, addrs[i], ladder).value + 1]
    ensures RoundRobinOutcome(net, ladder, addrs) == Outcome(true, Some(addrs[i]), addrs, before + tried)
  {
    OutcomeWon(net, ladder, addrs, i);
  }

  /** The outcome of a fetch no address wins. */
  lemma OutcomeLost(net: Net, ladder: seq<Millis>, addrs: seq<Addr>)
    requires forall k :: 0 <= k < |addrs| ==> !AddrOk(net, addrs[k], ladder)
    ensures RoundRobinOutcome(net, ladder, addrs)
         == Outcome(false, if addrs == [] then None else Some(addrs[|addrs| - 1]), addrs, AllAttempts(addrs, ladder))
  {
  }

  /** The inner loop of `round_robinie_get` over one address: one GET per
      rung, in ladder order, stopping at the first that succeeds. */
  method LadderGet(net: Net, a: Addr, ladder: seq<Millis>) returns (ok: bool, tried: seq<Attempt>)
    ensures ok <==> AddrOk(net, a, ladder)
    ensures ok ==> tried == Row(a, ladder)[..FirstRung(net, a, ladder).value + 1]
    ensures !ok ==> tried == Row(a, ladder)
  {
    ok := false;
    tried := [];
    var j := 0;
    while j < |ladder|
      invariant 0 <= j <= |ladder|
      invariant tried == Row(a, ladder)[..j]
      invariant forall l :: 0 <= l < j ==> !net(a, ladder[l])
    {
      assert Row(a, ladder)[..j + 1] == Row(a, ladder)[..j] + [Attempt(a, ladder[j])];
      tried := tried + [Attempt(a, ladder[j])];
      if net(a, ladder[j]) {
        ok := true;
        FirstRungUnique(net, a, ladder, j);
        return;
      }
      j := j + 1;
    }
    assert Row(a, ladder)[..j] == Row(a, ladder);
    FirstRungIsFirst(net, a, ladder);
  }

  /** `round_robinie_get`: a nil cache is replaced by a fresh resolution
      (`resolved`, what the resolver answers now); any array, even an empty
      one, is used as it is. Addresses are tried in order, each through the
      whole ladder, and the first success stops both loops. */
  method RoundRobinGet(net: Net, scenario: Scenario, addressCache: Option<seq<Addr>>, resolved: seq<Addr>)
    returns (res: bool, addr: Option<Addr>, addresses: seq<Addr>, attempts: seq<Attempt>)
    ensures addresses == if addressCache.None? then resolved else addressCache.value
    ensures Outcome(res, addr, addresses, attempts) == RoundRobinOutcome(net, Normalize(scenario), addresses)
  {
    var ladder := Normalize(scenario);
    addresses := if addressCache.None? then resolved else addressCache.value;
    res := false;
    addr := None;
    attempts := [];
    var i := 0;
    while i < |addresses|
      invariant 0 <= i <= |addresses|
      invariant attempts == AllAttempts(addresses[..i], ladder)
      invariant forall k :: 0 <= k < i ==> !AddrOk(net, addresses[k], ladder)
      invariant addr == if i == 0 then None else Some(addresses[i - 1])
    {
      addr := Some(addresses[i]);
      var ok, tried := LadderGet(net, addresses[i], ladder);
      if ok {
        OutcomeWonWith(net, ladder, addresses, i, attempts, tried);
        res, attempts := true, attempts + tried;
        return;
      }
      attempts := attempts + tried;
      AllAttemptsSnoc(addresses, ladder, i);
      i := i + 1;
    }
    assert addresses[..i] == addresses;
    OutcomeLost(net, ladder, addresses);
  }

  /** `simulate`: a plain call of `round_robinie_get`. An empty cache (an
      empty array, not nil) is not re-resolved: the fetch fails at once,
      naming no address and making no attempt. */
  method Simulate(net: Net, scenario: Scenario, addressCache: Option<seq<Addr>>, resolved: seq<Addr>)
    returns (res: bool, addr: Option<Addr>, addresses: seq<Addr>, attempts: seq<Attempt>)
    ensures addresses == if addressCache.None? then resolved else addressCache.value
    ensures Outcome(res, addr, addresses, attempts) == RoundRobinOutcome(net, Normalize(scenario), addresses)
    ensures addressCache == Some([]) ==> !res && addr.None? && addresses == [] && attempts == []
  {
    res, addr, addresses, attempts := RoundRobinGet(net, scenario, addressCache, resolved);
  }

  /** There are |addrs| * |ladder| possible attempts. */
  lemma {:induction false} AllAttemptsLength(addrs: seq<Addr>, ladder: seq<Millis>)
    ensures |AllAttempts(addrs, ladder)| == |addrs| * |ladder|
  {
    if addrs != [] {
      AllAttemptsLength(addrs[..|addrs| - 1], ladder);
      assert |addrs| * |ladder| == (|addrs| - 1) * |ladder| + |ladder|;
    }
  }

  /** Address-major, ladder-minor: attempt number i * |ladder| + j is rung j against address i. */
  lemma {:induction false} AllAttemptsAt(addrs: seq<Addr>, ladder: seq<Millis>, i: nat, j: nat)
    requires i < |addrs| && j < |ladder|
    ensures i * |ladder| + j < |AllAttempts(addrs, ladder)|
    ensures AllAttempts(addrs, ladder)[i * |ladder| + j] == Attempt(addrs[i], ladder[j])
  {
    var n, len := |addrs|, |ladder|;
    var init := addrs[..n - 1];
    AllAttemptsLength(init, ladder);
    AllAttemptsLength(addrs, ladder);
    if i < n - 1 {
      AllAttemptsAt(init, ladder, i, j);
    } else {
      assert i * len == (n - 1) * len;
    }
  }

  /** Every possible attempt pairs a listed address with a ladder rung. */
  lemma {:induction false} AllAttemptsMembers(addrs: seq<Addr>, ladder: seq<Millis>, t: Attempt)
    requires t in AllAttempts(addrs, ladder)
    ensures t.addr in addrs && t.timeout in ladder
  {
    var n := |addrs|;
    if t !in Row(addrs[n - 1], ladder) {
      AllAttemptsMembers(addrs[..n - 1], ladder, t);
    }
  }

  /** Extending the list by one address appends that address's row. */
  lemma AllAttemptsSnoc(addrs: seq<Addr>, ladder: seq<Millis>, i: nat)
    requires i < |addrs|
    ensures AllAttempts(addrs[..i + 1], ladder) == AllAttempts(addrs[..i], ladder) + Row(addrs[i], ladder)
  {
    assert addrs[..i + 1][..i] == addrs[..i];
  }

  /** The attempts over a prefix of the list are a prefix of all the attempts. */
  lemma {:induction false} AllAttemptsPrefix(addrs: seq<Addr>, ladder: seq<Millis>, m: nat)
    requires m <= |addrs|
    ensures AllAttempts(addrs[..m], ladder) <= AllAttempts(addrs, ladder)
    decreases |addrs| - m
  {
    if m < |addrs| {
      var init := addrs[..|addrs| - 1];
      assert addrs[..m] == init[..m];
      AllAttemptsPrefix(init, ladder, m);
    } else {
      assert addrs[..m] == addrs;
    }
  }

  /** Over addresses none of which succeeds, every possible attempt fails. */
  lemma AllAttemptsFail(net: Net, addrs: seq<Addr>, ladder: seq<Millis>)
    requires forall k :: 0 <= k < |addrs| ==> !AddrOk(net, addrs[k], ladder)
    ensures forall t :: t in AllAttempts(addrs, ladder) ==> !net(t.addr, t.timeout)
  {
    forall t | t in AllAttempts(addrs, ladder)
      ensures !net(t.addr, t.timeout)
    {
      AllAttemptsMembers(addrs, ladder, t);
      var k :| 0 <= k < |addrs| && addrs[k] == t.addr;
      var j :| 0 <= j < |ladder| && ladder[j] == t.timeout;
      assert !AddrOk(net, addrs[k], ladder);
    }
  }

  /** A successful fetch names an address of the list it used; a failed one
      names the last address of that list, or none when it is empty. This is
      the membership and failure half of FirstSuccessWins without its
      quantified clauses, kept for callers that need only this half. */
  lemma WinnerListed(net: Net, ladder: seq<Millis>, addrs: seq<Addr>)
    ensures var o := RoundRobinOutcome(net, ladder, addrs);
      && o.addresses == addrs
      && (o.res ==> o.addr.Some? && o.addr.value in addrs)
      && (!o.res ==> o.addr == if addrs == [] then None else Some(addrs[|addrs| - 1]))
  {
  }

  /** First success wins, both ways: the fetch succeeds exactly when some
      (address, rung) pair succeeds, and then it reports the first address in
      list order that some rung reaches. A failed fetch reports the last
      address of the list, or none for an empty list; the list reported is
      always the list used. */
  lemma FirstSuccessWins(net: Net, ladder: seq<Millis>, addrs: seq<Addr>)
    ensures var o := RoundRobinOutcome(net, ladder, addrs);
      && o.addresses == addrs
      && (o.res <==> exists i, j :: 0 <= i < |addrs| && 0 <= j < |ladder| && net(addrs[i], ladder[j]))
      && (o.res ==> o.addr.Some? && o.addr.value in addrs)
      && (o.res ==> exists i :: 0 <= i < |addrs| && addrs[i] == o.addr.value && AddrOk(net, addrs[i], ladder)
                               && forall k :: 0 <= k < i ==> !AddrOk(net, addrs[k], ladder))
      && (!o.res ==> o.addr == if addrs == [] then None else Some(addrs[|addrs| - 1]))
  {
    var o := RoundRobinOutcome(net, ladder, addrs);
    FirstAddrIsFirst(net, addrs, ladder);
    match FirstAddr(net, addrs, ladder)
    case Some(i) =>
      var j := FirstRung(net, addrs[i], ladder).value;
      assert net(addrs[i], ladder[j]);
    case None =>
  }

  /** The GETs of a fetch won by address i: all attempts against the
      addresses before it, then its rungs up to the first that succeeds. */
  function WonAttempts(net: Net, ladder: seq<Millis>, addrs: seq<Addr>, i: nat): seq<Attempt>
    requires i < |addrs| && AddrOk(net, addrs[i], ladder)
  {
    AllAttempts(addrs[..i], ladder) + Row(addrs[i], ladder)[..FirstRung(net, addrs[i], ladder).value + 1]
  }

  /** Those GETs are a prefix of the address-major order. */
  lemma WonAttemptsPrefix(net: Net, ladder: seq<Millis>, addrs: seq<Addr>, i: nat)
    requires i < |addrs| && AddrOk(net, addrs[i], ladder)
    ensures WonAttempts(net, ladder, addrs, i) <= AllAttempts(addrs, ladder)
  {
    var front := AllAttempts(addrs[..i], ladder);
    AllAttemptsSnoc(addrs, ladder, i);
    AllAttemptsPrefix(addrs, ladder, i + 1);
  }

  /** Of those GETs, all but the last fail and the last succeeds. */
  lemma WonAttemptsOutcomes(net: Net, ladder: seq<Millis>, addrs: seq<Addr>, i: nat)
    requires FirstAddr(net, addrs, ladder) == Some(i)
    ensures var tried := WonAttempts(net, ladder, addrs, i);
      && |tried| > 0
      && (forall k :: 0 <= k < |tried| - 1 ==> !net(tried[k].addr, tried[k].timeout))
      && net(tried[|tried| - 1].addr, tried[|tried| - 1].timeout)
  {
    var j := FirstRung(net, addrs[i], ladder).value;
    var front := AllAttempts(addrs[..i], ladder);
    var row := Row(addrs[i], ladder);
    var tried := front + row[..j + 1];
    FirstAddrIsFirst(net, addrs, ladder);
    FirstRungIsFirst(net, addrs[i], ladder);
    AllAttemptsFail(net, addrs[..i], ladder);
    forall k | 0 <= k < |tried| - 1
      ensures !net(tried[k].addr, tried[k].timeout)
    {
      if k < |front| {
        assert tried[k] == front[k];
        assert front[k] in front;
      } else {
        assert tried[k] == row[k - |front|];
      }
    }
    assert tried[|tried| - 1] == row[j];
  }

  /** The attempts of a fetch in which address i is the first to succeed. */
  lemma AttemptsOnSuccess(net: Net, ladder: seq<Millis>, addrs: seq<Addr>, i: nat)
    requires FirstAddr(net, addrs, ladder) == Some(i)
    ensures var o := RoundRobinOutcome(net, ladder, addrs);
      && o.attempts <= AllAttempts(addrs, ladder)
      && |o.attempts| > 0
      && (forall k :: 0 <= k < |o.attempts| - 1 ==> !net(o.attempts[k].addr, o.attempts[k].timeout))
      && net(o.attempts[|o.attempts| - 1].addr, o.attempts[|o.attempts| - 1].timeout)
  {
    assert RoundRobinOutcome(net, ladder, addrs).attempts == WonAttempts(net, ladder, addrs, i);
    WonAttemptsPrefix(net, ladder, addrs, i);
    WonAttemptsOutcomes(net, ladder, addrs, i);
  }

  /** The attempts of a fetch in which no address succeeds. */
  lemma AttemptsOnFailure(net: Net, ladder: seq<Millis>, addrs: seq<Addr>)
    requires FirstAddr(net, addrs, ladder).None?
    ensures var o := RoundRobinOutcome(net, ladder, addrs);
      && o.attempts == AllAttempts(addrs, ladder)
      && forall k :: 0 <= k < |o.attempts| ==> !net(o.attempts[k].addr, o.attempts[k].timeout)
  {
    FirstAddrIsFirst(net, addrs, ladder);
    AllAttemptsFail(net, addrs, ladder);
  }

  /** Attempt order: the GETs issued are a prefix of the address-major,
      ladder-minor order; every one but the last fails; the last succeeds
      exactly when the fetch does, so nothing is tried after a success; and a
      failed fetch has tried every rung against every address. */
  lemma AttemptOrder(net: Net, ladder: seq<Millis>, addrs: seq<Addr>)
    ensures var o := RoundRobinOutcome(net, ladder, addrs);
      && o.attempts <= AllAttempts(addrs, ladder)
      && (forall k :: 0 <= k < |o.attempts| - 1 ==> !net(o.attempts[k].addr, o.attempts[k].timeout))
      && (o.res <==> |o.attempts| > 0 && net(o.attempts[|o.attempts| - 1].addr, o.attempts[|o.attempts| - 1].timeout))
      && (!o.res ==> o.attempts == AllAttempts(addrs, ladder))
  {
    match FirstAddr(net, addrs, ladder)
    case Some(i) => AttemptsOnSuccess(net, ladder, addrs, i);
    case None => AttemptsOnFailure(net, ladder, addrs);
  }

  /** Failover: with A timing out on every rung of [1 s, 1 s, 2 s] and B
      answering, the fetch succeeds on B after exactly three GETs against A. */
  lemma FailoverToSecondAddress(net: Net)
    requires forall t :: !net("A", t)
    requires forall t :: net("B", t)
    ensures RoundRobinOutcome(net, [1000, 1000, 2000], ["A", "B"])
         == Outcome(true, Some("B"), ["A", "B"],
                    [Attempt("A", 1000), Attempt("A", 1000), Attempt("A", 2000), Attempt("B", 1000)])
  {
    var ladder: seq<Millis> := [1000, 1000, 2000];
    var addrs: seq<Addr> := ["A", "B"];
    assert !AddrOk(net, "A", ladder);
    assert net("B", ladder[0]);
    assert FirstAddr(net, addrs, ladder) == Some(1);
    assert FirstRung(net, "B", ladder) == Some(0);
    assert addrs[..1] == ["A"];
    assert [] + ["A"] == ["A"];
    assert ["A"][..0] == [];
  }
}
