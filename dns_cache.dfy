/**
 * The background thread `simulated_os_dns_cache` of `Rowser.execute`, as the
 * log of resolutions it performs until it is killed. Resolution itself
 * (`get_addresses`) is an oracle: `resolve(k)` is the k-th answer and
 * `resolveTime(k)` the time the k-th lookup (lock wait included) takes.
 */
module DnsCache {
  import opened RoundRobin

  /** `ttl < cache_flush ? cache_flush : ttl`: the sleep between refreshes. */
  function RefreshInterval(ttl: Millis, cacheFlush: Millis): (interval: Millis)
    ensures interval >= ttl && interval >= cacheFlush
    ensures interval == ttl || interval == cacheFlush
  {
    if ttl < cacheFlush then cacheFlush else ttl
  }

  /** One resolution: when it started, when its answer was published, the answer. */
  datatype Resolution = Resolution(start: nat, published: nat, addrs: seq<Addr>)

  /** A periodic schedule: each lookup publishes no earlier than it starts, and
      the next lookup starts `interval` after the previous publication. */
  predicate Periodic(log: seq<Resolution>, interval: nat)
  {
    && (forall k :: 0 <= k < |log| ==> log[k].start <= log[k].published)
    && (forall k :: 0 < k < |log| ==> log[k].start == log[k - 1].published + interval)
  }

  /** The cache thread, killed after it has begun `rounds` lookups. With
      `wise_chrome` it resolves once and stops; otherwise it resolves,
      publishes, sleeps `RefreshInterval(ttl, cacheFlush)`, and repeats. */
  method SimulatedOsDnsCache(wiseChrome: bool, ttl: Millis, cacheFlush: Millis,
                             resolve: nat -> seq<Addr>, resolveTime: nat -> Millis, rounds: nat)
    returns (log: seq<Resolution>)
    ensures |log| == if wiseChrome then (if rounds == 0 then 0 else 1) else rounds
    ensures forall k :: 0 <= k < |log| ==> log[k].addrs == resolve(k)
    ensures forall k :: 0 <= k < |log| ==> log[k].published == log[k].start + resolveTime(k)
    ensures |log| > 0 ==> log[0].start == 0
    ensures !wiseChrome ==> Periodic(log, RefreshInterval(ttl, cacheFlush))
  {
    if wiseChrome {
      log := if rounds == 0 then [] else [Resolution(0, resolveTime(0), resolve(0))];
      return;
    }
    var interval := RefreshInterval(ttl, cacheFlush);
    log := [];
    var now := 0;
    var k := 0;
    while k < rounds
      invariant 0 <= k <= rounds && |log| == k
      invariant forall m :: 0 <= m < k ==> log[m].addrs == resolve(m)
      invariant forall m :: 0 <= m < k ==> log[m].published == log[m].start + resolveTime(m)
      invariant k == 0 ==> now == 0
      invariant k > 0 ==> log[0].start == 0 && now == log[k - 1].published + interval
      invariant Periodic(log, interval)
    {
      var addrs := resolve(k);
      log := log + [Resolution(now, now + resolveTime(k), addrs)];
      now := now + resolveTime(k) + interval;
      k := k + 1;
    }
  }

  /** In periodic mode lookups i < j are at least (j - i) refresh intervals
      apart, in start time and in publication time alike. */
  lemma {:induction false} RefreshGap(log: seq<Resolution>, interval: nat, i: nat, j: nat)
    requires Periodic(log, interval)
    requires i <= j < |log|
    ensures log[j].start >= log[i].start + (j - i) * interval
    ensures log[j].published >= log[i].published + (j - i) * interval
    decreases j - i
  {
    if i < j {
      RefreshGap(log, interval, i, j - 1);
      assert log[j].start == log[j - 1].published + interval;
      assert (j - i) * interval == (j - 1 - i) * interval + interval;
    }
  }

  /** Two consecutive periodic lookups are never closer than the TTL and
      never closer than the browser's cache-flush interval. */
  lemma ConsecutiveRefreshes(log: seq<Resolution>, ttl: Millis, cacheFlush: Millis, k: nat)
    requires Periodic(log, RefreshInterval(ttl, cacheFlush))
    requires 0 < k < |log|
    ensures log[k].start - log[k - 1].start >= ttl
    ensures log[k].start - log[k - 1].start >= cacheFlush
  {
    RefreshGap(log, RefreshInterval(ttl, cacheFlush), k - 1, k);
  }
}
