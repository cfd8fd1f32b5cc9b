/** The sliding-window rate limiter, against a reference that keeps every attempt. */
module RateLimit {

  // How many of the times lie in (lo, hi].
  function Count(times: seq<real>, lo: real, hi: real): nat {
    if times == [] then 0
    else
      var n := |times| - 1;
      Count(times[..n], lo, hi) + if lo < times[n] <= hi then 1 else 0
  }

  // The attempts that the rule accepts: fewer than `limit` accepted ones lie in the window
  // that ends at the attempt.
  function Accepted(attempts: seq<real>, limit: int, window: real): seq<real> {
    if attempts == [] then []
    else
      var n := |attempts| - 1;
      var before := Accepted(attempts[..n], limit, window);
      if Count(before, attempts[n] - window, attempts[n]) < limit then before + [attempts[n]] else before
  }

  predicate Sorted(times: seq<real>) {
    forall i, j :: 0 <= i < j < |times| ==> times[i] <= times[j]
  }

  predicate UpTo(times: seq<real>, now: real) {
    forall i :: 0 <= i < |times| ==> times[i] <= now
  }

  // ---------------------------------------------------------------------------
  // The rule

  lemma SortedAppend(times: seq<real>, now: real)
    requires Sorted(times) && UpTo(times, now)
    ensures Sorted(times + [now]) && UpTo(times + [now], now)
  {
  }

  lemma UpToLater(times: seq<real>, earlier: real, now: real)
    requires UpTo(times, earlier) && earlier <= now
    ensures UpTo(times, now)
  {
  }

  lemma {:induction false} AcceptedSorted(attempts: seq<real>, limit: int, window: real, now: real)
    requires Sorted(attempts) && UpTo(attempts, now)
    ensures Sorted(Accepted(attempts, limit, window)) && UpTo(Accepted(attempts, limit, window), now)
  {
    if attempts != [] {
      var n := |attempts| - 1;
      var before := Accepted(attempts[..n], limit, window);
      AcceptedSorted(attempts[..n], limit, window, attempts[n]);
      SortedAppend(before, attempts[n]);
      UpToLater(before, attempts[n], now);
      UpToLater(before + [attempts[n]], attempts[n], now);
    }
  }

  // Of times up to `now`, a later window holds no more than the one that ends now.
  lemma {:induction false} LaterWindow(times: seq<real>, window: real, now: real, t: real)
    requires UpTo(times, now) && now <= t
    ensures Count(times, t - window, t) <= Count(times, now - window, now)
  {
    if times != [] {
      LaterWindow(times[..|times| - 1], window, now, t);
    }
  }

  function AtLeastZero(limit: int): nat {
    if limit < 0 then 0 else limit
  }

  // However the attempts are spread, no window of the given length, wherever it ends,
  // holds more accepted ones than the limit.
  lemma {:induction false} WindowHolds(attempts: seq<real>, limit: int, window: real, t: real)
    requires Sorted(attempts)
    ensures Count(Accepted(attempts, limit, window), t - window, t) <= AtLeastZero(limit)
  {
    if attempts != [] {
      var n := |attempts| - 1;
      var now, before := attempts[n], Accepted(attempts[..n], limit, window);
      WindowHolds(attempts[..n], limit, window, t);
      AcceptedSorted(attempts[..n], limit, window, now);
      if t >= now {
        LaterWindow(before, window, now, t);
      }
      assert (before + [now])[..|before|] == before;
    }
  }

  // Of sorted times, those behind the ones dropped are the ones in the window.
  lemma {:induction false} KeptIsCount(times: seq<real>, d: nat, lo: real, hi: real)
    requires d <= |times| && UpTo(times, hi)
    requires forall i :: 0 <= i < |times| ==> (times[i] <= lo <==> i < d)
    ensures Count(times, lo, hi) == |times| - d
    decreases |times|
  {
    if times != [] {
      var n := |times| - 1;
      KeptIsCount(times[..n], if d > n then n else d, lo, hi);
    }
  }

  // ---------------------------------------------------------------------------
  // The trimmed list

  // The times kept are the accepted ones but for the first d, which had already left the
  // window of the latest attempt.
  predicate Keeps(kept: seq<real>, tried: seq<real>, limit: int, window: real, d: nat) {
    var accepted := Accepted(tried, limit, window);
    && d <= |accepted| && kept == accepted[d..]
    && (d > 0 ==> tried != [] && UpTo(accepted[..d], tried[|tried| - 1] - window))
  }

  // kept without its leading times that are not behind the cutoff.
  function Trim(kept: seq<real>, cutoff: real): seq<real> {
    if kept != [] && kept[0] <= cutoff then Trim(kept[1..], cutoff) else kept
  }

  lemma {:induction false} TrimDrops(kept: seq<real>, cutoff: real) returns (e: nat)
    ensures e <= |kept| && Trim(kept, cutoff) == kept[e..] && UpTo(kept[..e], cutoff)
    ensures e < |kept| ==> kept[e] > cutoff
  {
    if kept != [] && kept[0] <= cutoff {
      var f := TrimDrops(kept[1..], cutoff);
      e := f + 1;
      assert kept[..e] == [kept[0]] + kept[1..][..f];
      assert kept[1..][f..] == kept[e..];
    } else {
      e := 0;
    }
  }

  // Sorted times of which the first d are up to lo, and then two more steps of e.
  lemma SplitWindow(times: seq<real>, d: nat, e: nat, lo: real)
    requires Sorted(times) && d + e <= |times| && UpTo(times[..d], lo) && UpTo(times[d..][..e], lo)
    requires d + e < |times| ==> times[d + e] > lo
    ensures forall i :: 0 <= i < |times| ==> (times[i] <= lo <==> i < d + e)
    ensures UpTo(times[..d + e], lo)
  {
    forall i | 0 <= i < |times| ensures times[i] <= lo <==> i < d + e {
      if i < d {
        assert times[i] == times[..d][i];
      } else if i < d + e {
        assert times[i] == times[d..][..e][i - d];
      } else {
        assert times[d + e] <= times[i];
      }
    }
  }

  // What is left after trimming is what lies in the window.
  lemma TrimCounts(kept: seq<real>, tried: seq<real>, limit: int, window: real, d: nat, now: real) returns (f: nat)
    requires Keeps(kept, tried, limit, window, d) && Sorted(tried + [now])
    ensures var accepted := Accepted(tried, limit, window);
            && |Trim(kept, now - window)| == Count(accepted, now - window, now)
            && f <= |accepted| && Trim(kept, now - window) == accepted[f..] && UpTo(accepted[..f], now - window)
  {
    LatestTries(tried, now);
    AcceptedSorted(tried, limit, window, now);
    LongGone(kept, tried, limit, window, d, now);
    f := TrimCut(Accepted(tried, limit, window), d, now - window, now);
  }

  // The times dropped so far are out of every later window too.
  lemma LongGone(kept: seq<real>, tried: seq<real>, limit: int, window: real, d: nat, now: real)
    requires Keeps(kept, tried, limit, window, d) && UpTo(tried, now)
    ensures UpTo(Accepted(tried, limit, window)[..d], now - window)
  {
    if d > 0 {
      assert tried[|tried| - 1] <= now;
    }
  }

  // Trimming sorted times behind the first d leaves what lies in the window.
  lemma TrimCut(times: seq<real>, d: nat, cutoff: real, now: real) returns (f: nat)
    requires Sorted(times) && UpTo(times, now) && d <= |times| && UpTo(times[..d], cutoff)
    ensures |Trim(times[d..], cutoff)| == Count(times, cutoff, now)
    ensures f <= |times| && Trim(times[d..], cutoff) == times[f..] && UpTo(times[..f], cutoff)
  {
    var e := TrimDrops(times[d..], cutoff);
    f := d + e;
    assert times[f..] == times[d..][e..];
    SplitWindow(times, d, e, cutoff);
    KeptIsCount(times, f, cutoff, now);
  }

  lemma LatestTries(tried: seq<real>, now: real)
    requires Sorted(tried + [now])
    ensures Sorted(tried) && UpTo(tried, now)
  {
    var all := tried + [now];
    assert all[|tried|] == now;
    forall i | 0 <= i < |tried| ensures tried[i] <= now {
      assert all[i] == tried[i];
    }
    forall i, j | 0 <= i < j < |tried| ensures tried[i] <= tried[j] {
      assert all[i] == tried[i] && all[j] == tried[j];
    }
  }

  // How many accepted attempts lie in the window that ends now.
  function InWindow(attempts: seq<real>, limit: int, window: real, now: real): nat {
    Count(Accepted(attempts, limit, window), now - window, now)
  }

  function AfterAttempt(kept: seq<real>, limit: int, window: real, now: real): seq<real> {
    var trimmed := Trim(kept, now - window);
    if |trimmed| < limit then trimmed + [now] else trimmed
  }

  // The step of the limiter keeps the relation to the full history.
  lemma StepKeeps(kept: seq<real>, tried: seq<real>, limit: int, window: real, d: nat, now: real) returns (f: nat)
    requires Keeps(kept, tried, limit, window, d) && Sorted(tried + [now])
    ensures |Trim(kept, now - window)| == InWindow(tried, limit, window, now)
    ensures Keeps(AfterAttempt(kept, limit, window, now), tried + [now], limit, window, f)
  {
    f := TrimCounts(kept, tried, limit, window, d, now);
    AcceptedNext(tried, limit, window, now);
    if InWindow(tried, limit, window, now) < limit {
      BehindTheCut(Accepted(tried, limit, window), f, now);
    }
  }

  lemma AcceptedNext(tried: seq<real>, limit: int, window: real, now: real)
    ensures Accepted(tried + [now], limit, window) == Accepted(tried, limit, window) +
              if InWindow(tried, limit, window, now) < limit then [now] else []
  {
    assert (tried + [now])[..|tried|] == tried;
  }

  lemma BehindTheCut(times: seq<real>, f: nat, now: real)
    requires f <= |times|
    ensures (times + [now])[f..] == times[f..] + [now] && (times + [now])[..f] == times[..f]
  {
  }

  // With a clock that never ran backwards, the times kept are those of the full history
  // but for some that no window can reach any more.
  ghost predicate Refines(kept: seq<real>, tried: seq<real>, limit: int, window: real) {
    Sorted(tried) ==> exists d: nat :: Keeps(kept, tried, limit, window, d)
  }

  lemma AttemptRefines(kept: seq<real>, tried: seq<real>, limit: int, window: real, now: real)
    requires Refines(kept, tried, limit, window)
    ensures Refines(AfterAttempt(kept, limit, window, now), tried + [now], limit, window)
    ensures Sorted(tried + [now]) ==> |Trim(kept, now - window)| == InWindow(tried, limit, window, now)
  {
    if Sorted(tried + [now]) {
      LatestTries(tried, now);
      var d: nat :| Keeps(kept, tried, limit, window, d);
      var f := StepKeeps(kept, tried, limit, window, d, now);
    }
  }

  // The loop that pops from the left.
  method PopLeft(hits: seq<real>, cutoff: real) returns (kept: seq<real>)
    ensures kept == Trim(hits, cutoff)
  {
    kept := hits;
    while kept != [] && kept[0] <= cutoff
      invariant Trim(kept, cutoff) == Trim(hits, cutoff)
    {
      kept := kept[1..];
    }
  }

  method Attempt(hits: seq<real>, limit: int, window: real, now: real) returns (ok: bool, kept: seq<real>)
    ensures ok <==> |Trim(hits, now - window)| < limit
    ensures kept == AfterAttempt(hits, limit, window, now)
  {
    kept := PopLeft(hits, now - window);
    ok := |kept| < limit;
    if ok {
      kept := kept + [now];
    }
  }

  // ---------------------------------------------------------------------------

  // What a map of lists holds for a key; an empty list when it has none.
  function HistoryOf(m: map<string, seq<real>>, key: string): seq<real> {
    if key in m then m[key] else []
  }

  lemma OtherHistories(m: map<string, seq<real>>, key: string, times: seq<real>)
    ensures forall k :: k != key ==> HistoryOf(m[key := times], k) == HistoryOf(m, k)
  {
  }

  // For every key the times kept go back to its history.
  ghost predicate AllRefine(
      hits: map<string, seq<real>>, attempts: map<string, seq<real>>, limit: int, window: real)
  {
    forall key {:trigger HistoryOf(hits, key)} :: Refines(HistoryOf(hits, key), HistoryOf(attempts, key), limit, window)
  }

  lemma NothingKept(limit: int, window: real)
    ensures AllRefine(map[], map[], limit, window)
  {
    assert Keeps([], [], limit, window, 0);
  }

  lemma OneRefined(
      hits: map<string, seq<real>>, attempts: map<string, seq<real>>, limit: int, window: real,
      key: string, kept: seq<real>, tried: seq<real>)
    requires AllRefine(hits, attempts, limit, window) && Refines(kept, tried, limit, window)
    ensures AllRefine(hits[key := kept], attempts[key := tried], limit, window)
  {
    var hits', attempts' := hits[key := kept], attempts[key := tried];
    forall k ensures Refines(HistoryOf(hits', k), HistoryOf(attempts', k), limit, window) {
      if k != key {
        assert HistoryOf(hits', k) == HistoryOf(hits, k);
      }
    }
  }

  lemma AttemptKeepsAll(
      hits: map<string, seq<real>>, attempts: map<string, seq<real>>, limit: int, window: real,
      key: string, now: real)
    requires AllRefine(hits, attempts, limit, window)
    ensures AllRefine(hits[key := AfterAttempt(HistoryOf(hits, key), limit, window, now)],
                      attempts[key := HistoryOf(attempts, key) + [now]], limit, window)
    ensures Sorted(HistoryOf(attempts, key) + [now]) ==>
              |Trim(HistoryOf(hits, key), now - window)| == InWindow(HistoryOf(attempts, key), limit, window, now)
  {
    AttemptRefines(HistoryOf(hits, key), HistoryOf(attempts, key), limit, window, now);
    OneRefined(hits, attempts, limit, window, key, AfterAttempt(HistoryOf(hits, key), limit, window, now),
               HistoryOf(attempts, key) + [now]);
  }

  // The attempt of one key, and what it means for all histories.
  method AttemptFor(
      key: string, now: real, limit: int, window: real, hits: map<string, seq<real>>,
      ghost attempts: map<string, seq<real>>)
    returns (ok: bool, kept: seq<real>)
    requires AllRefine(hits, attempts, limit, window)
    ensures AllRefine(hits[key := kept], attempts[key := HistoryOf(attempts, key) + [now]], limit, window)
    ensures Sorted(HistoryOf(attempts, key) + [now]) ==>
              (ok <==> InWindow(HistoryOf(attempts, key), limit, window, now) < limit)
  {
    AttemptKeepsAll(hits, attempts, limit, window, key, now);
    ok, kept := Attempt(HistoryOf(hits, key), limit, window, now);
  }

  class SlidingWindowRateLimiter {
    const limit: int
    const window: real
    var hits: map<string, seq<real>>
    // Every attempt since the last reset, by key.
    ghost var attempts: map<string, seq<real>>

    ghost predicate Valid()
      reads this
    {
      AllRefine(hits, attempts, limit, window)
    }

    constructor (limit: int, window: real)
      ensures this.limit == limit && this.window == window
      ensures Valid() && attempts == map[]
    {
      this.limit, this.window := limit, window;
      hits, attempts := map[], map[];
      NothingKept(limit, window);
    }

    // With a clock that does not run backwards for this key, an attempt is accepted exactly
    // when fewer than `limit` accepted ones lie in the window that ends now. Other keys are
    // not touched.
    method Allow(key: string, now: real) returns (ok: bool)
      requires Valid()
      modifies this
      ensures Valid()
      ensures attempts == old(attempts)[key := HistoryOf(old(attempts), key) + [now]]
      ensures var tried := HistoryOf(old(attempts), key);
              Sorted(tried + [now]) ==> (ok <==> InWindow(tried, limit, window, now) < limit)
      ensures forall k :: k != key ==> HistoryOf(hits, k) == HistoryOf(old(hits), k)
    {
      var kept;
      ok, kept := AttemptFor(key, now, limit, window, hits, attempts);
      OtherHistories(hits, key, kept);
      hits := hits[key := kept];
      attempts := attempts[key := HistoryOf(attempts, key) + [now]];
    }

    method Reset()
      requires Valid()
      modifies this
      ensures Valid() && attempts == map[]
    {
      hits, attempts := map[], map[];
      NothingKept(limit, window);
    }
  }
}
