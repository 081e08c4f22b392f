/** The sliding-window rate limiter, against one that never forgets an admission. */
module RateLimiter {

  /** One request: when it came, and whether it was let through. */
  datatype Attempt = Attempt(key: string, at: real, admitted: bool)

  /** All admissions of a key, in order. */
  function Admissions(log: seq<Attempt>, key: string): seq<real> {
    if |log| == 0 then []
    else
      var before, last := Admissions(log[..|log| - 1], key), log[|log| - 1];
      if last.key == key && last.admitted then before + [last.at] else before
  }

  /** How many of them lie inside the window that ends now. */
  function Recent(times: seq<real>, now: real, window: real): nat {
    if |times| == 0 then 0
    else Recent(times[..|times| - 1], now, window) + if now - times[|times| - 1] < window then 1 else 0
  }

  /** How many of them lie in the half-open span of one window from `start` on. */
  function Within(times: seq<real>, start: real, window: real): nat {
    if |times| == 0 then 0
    else Within(times[..|times| - 1], start, window) + if start <= times[|times| - 1] < start + window then 1 else 0
  }

  predicate Sorted(times: seq<real>) {
    forall i, j :: 0 <= i <= j < |times| ==> times[i] <= times[j]
  }

  /** The limiter that keeps the whole history lets a request through when fewer than `limit` admissions of its key are recent. */
  predicate RightAt(log: seq<Attempt>, limit: nat, window: real, k: nat)
    requires k < |log|
  {
    log[k].admitted <==> Recent(Admissions(log[..k], log[k].key), log[k].at, window) < limit
  }

  predicate InOrder(log: seq<Attempt>) {
    forall i, j :: 0 <= i < j < |log| ==> log[i].at <= log[j].at
  }

  /** A sequence of requests as that limiter answers them. */
  predicate Faithful(log: seq<Attempt>, limit: nat, window: real) {
    InOrder(log) && forall k :: 0 <= k < |log| ==> RightAt(log, limit, window, k)
  }

  lemma FaithfulBefore(log: seq<Attempt>, limit: nat, window: real)
    requires Faithful(log, limit, window) && |log| > 0
    ensures Faithful(log[..|log| - 1], limit, window)
  {
    var before := log[..|log| - 1];
    forall k | 0 <= k < |before| ensures RightAt(before, limit, window, k) {
      assert before[..k] == log[..k] && RightAt(log, limit, window, k);
    }
  }

  lemma AdmissionsExtend(log: seq<Attempt>, a: Attempt, key: string)
    ensures Admissions(log + [a], key) == if a.key == key && a.admitted then Admissions(log, key) + [a.at] else Admissions(log, key)
  {
    assert (log + [a])[..|log|] == log;
  }

  /** In a sorted sequence the recent times are the ones at the end. */
  lemma {:induction false} RecentIsASuffix(times: seq<real>, k: nat, now: real, window: real)
    requires Sorted(times) && k <= |times|
    requires forall i :: 0 <= i < k ==> now - times[i] >= window
    requires k < |times| ==> now - times[k] < window
    ensures Recent(times, now, window) == |times| - k
  {
    if |times| == 0 {
    } else {
      var n := |times| - 1;
      assert k <= n ==> times[k] <= times[n];
      if k <= n {
        RecentIsASuffix(times[..n], k, now, window);
      } else {
        NoneRecent(times, now, window);
      }
    }
  }

  lemma {:induction false} NoneRecent(times: seq<real>, now: real, window: real)
    requires forall i :: 0 <= i < |times| ==> now - times[i] >= window
    ensures Recent(times, now, window) == 0
  {
    if |times| == 0 {
    } else {
      NoneRecent(times[..|times| - 1], now, window);
    }
  }

  lemma {:induction false} FirstRecent(times: seq<real>, now: real, window: real) returns (k: nat)
    requires Sorted(times)
    ensures k <= |times| && (forall i :: 0 <= i < k ==> now - times[i] >= window) && (k < |times| ==> now - times[k] < window)
    ensures Recent(times, now, window) == |times| - k
  {
    k := 0;
    while k < |times| && now - times[k] >= window
      invariant k <= |times| && forall i :: 0 <= i < k ==> now - times[i] >= window
    {
      k := k + 1;
    }
    RecentIsASuffix(times, k, now, window);
  }

  /** Any `limit + 1` admissions in a row take at least a window. */
  predicate Spaced(times: seq<real>, limit: nat, window: real) {
    forall i :: 0 <= i && i + limit < |times| ==> times[i + limit] - times[i] >= window
  }

  lemma RunsTakeAWindow(times: seq<real>, limit: nat, window: real, lo: nat, hi: nat)
    requires Spaced(times, limit, window) && lo <= hi <= |times|
    ensures hi - lo > limit ==> times[lo + limit] - times[lo] >= window
  {
  }

  /** Each of these times is that of some attempt. */
  ghost predicate FromLog(log: seq<Attempt>, times: seq<real>) {
    forall i :: 0 <= i < |times| ==> exists k :: 0 <= k < |log| && log[k].at == times[i]
  }

  lemma FromLogMore(log: seq<Attempt>, a: Attempt, times: seq<real>)
    requires FromLog(log, times)
    ensures FromLog(log + [a], times) && FromLog(log + [a], times + [a.at])
  {
    var more := log + [a];
    forall i | 0 <= i < |times| ensures exists k :: 0 <= k < |more| && more[k].at == times[i] {
      var k :| 0 <= k < |log| && log[k].at == times[i];
      assert more[k] == log[k];
    }
    assert more[|log|] == a;
  }

  lemma NoneIsLater(log: seq<Attempt>, times: seq<real>, now: real)
    requires FromLog(log, times) && forall k :: 0 <= k < |log| ==> log[k].at <= now
    ensures forall i :: 0 <= i < |times| ==> times[i] <= now
  {
  }

  /** An admission that finds fewer than `limit` recent ones keeps them spaced. */
  lemma AdmissionKeepsSpacing(times: seq<real>, now: real, limit: nat, window: real)
    requires Sorted(times) && Spaced(times, limit, window) && limit > 0
    requires (forall i :: 0 <= i < |times| ==> times[i] <= now) && Recent(times, now, window) < limit
    ensures Sorted(times + [now]) && Spaced(times + [now], limit, window)
  {
    var k := FirstRecent(times, now, window);
  }

  lemma {:induction false} AdmissionsAreSpaced(log: seq<Attempt>, key: string, limit: nat, window: real)
    requires Faithful(log, limit, window) && limit > 0
    ensures Sorted(Admissions(log, key)) && Spaced(Admissions(log, key), limit, window)
    ensures FromLog(log, Admissions(log, key))
  {
    if |log| == 0 {
    } else {
      var before, last := log[..|log| - 1], log[|log| - 1];
      assert log == before + [last];
      FaithfulBefore(log, limit, window);
      AdmissionsAreSpaced(before, key, limit, window);
      FromLogMore(before, last, Admissions(before, key));
      if last.key == key && last.admitted {
        assert RightAt(log, limit, window, |log| - 1);
        NoneIsLater(before, Admissions(before, key), last.at);
        AdmissionKeepsSpacing(Admissions(before, key), last.at, limit, window);
      }
    }
  }

  lemma {:induction false} WithinIsASlice(times: seq<real>, start: real, window: real) returns (lo: nat, hi: nat)
    requires Sorted(times)
    ensures lo <= hi <= |times| && Within(times, start, window) == hi - lo
    ensures forall i :: lo <= i < hi ==> start <= times[i] < start + window
    ensures forall i :: 0 <= i < lo ==> times[i] < start
    ensures forall i :: hi <= i < |times| ==> times[i] >= start + window
  {
    if |times| == 0 {
      lo, hi := 0, 0;
    } else {
      var n := |times| - 1;
      lo, hi := WithinIsASlice(times[..n], start, window);
      assert forall i :: 0 <= i < n ==> times[..n][i] == times[i] <= times[n];
      assert lo < hi ==> start <= times[..n][lo] <= times[n];
      assert hi < n ==> start + window <= times[..n][hi] <= times[n];
      if times[n] < start {
        lo, hi := n + 1, n + 1;
      } else if times[n] < start + window {
        hi := n + 1;
      }
    }
  }

  /** No half-open span of one window, wherever it starts, has more than `limit` admissions of a key. */
  lemma NoSpanExceedsTheLimit(log: seq<Attempt>, key: string, limit: nat, window: real, start: real)
    requires Faithful(log, limit, window) && limit > 0 && window > 0.0
    ensures Within(Admissions(log, key), start, window) <= limit
  {
    var times := Admissions(log, key);
    AdmissionsAreSpaced(log, key, limit, window);
    var lo, hi := WithinIsASlice(times, start, window);
    RunsTakeAWindow(times, limit, window, lo, hi);
  }

  /** A request is denied only when exactly `limit` admissions of its key lie inside the last window. */
  lemma DenialsAreExact(log: seq<Attempt>, key: string, limit: nat, window: real, now: real)
    requires Faithful(log, limit, window) && limit > 0 && window > 0.0
    requires forall k :: 0 <= k < |log| ==> log[k].at <= now
    ensures Recent(Admissions(log, key), now, window) <= limit
  {
    var times := Admissions(log, key);
    AdmissionsAreSpaced(log, key, limit, window);
    var k := FirstRecent(times, now, window);
    RunsTakeAWindow(times, limit, window, k, |times|);
    NoneIsLater(log, times, now);
  }

  /** A queue that has forgotten only what no later request can see. */
  ghost predicate Holds(queue: seq<real>, times: seq<real>, window: real, clock: real) {
    && Sorted(times) && |queue| <= |times| && queue == times[|times| - |queue|..]
    && (forall i :: 0 <= i < |times| ==> times[i] <= clock)
    && forall i :: 0 <= i < |times| - |queue| ==> clock - times[i] >= window
  }

  lemma HoldsLater(queue: seq<real>, times: seq<real>, window: real, clock: real, now: real)
    requires Holds(queue, times, window, clock) && clock <= now
    ensures Holds(queue, times, window, now)
  {
  }

  lemma HoldsMore(queue: seq<real>, times: seq<real>, window: real, now: real)
    requires Holds(queue, times, window, now)
    ensures Holds(queue + [now], times + [now], window, now)
  {
    var n := |times| - |queue|;
    assert (times + [now])[n..] == times[n..] + [now];
  }

  lemma FaithfulMore(log: seq<Attempt>, a: Attempt, limit: nat, window: real)
    requires Faithful(log, limit, window) && forall k :: 0 <= k < |log| ==> log[k].at <= a.at
    requires a.admitted <==> Recent(Admissions(log, a.key), a.at, window) < limit
    ensures Faithful(log + [a], limit, window)
  {
    var more := log + [a];
    forall k | 0 <= k < |more| ensures RightAt(more, limit, window, k) {
      if k < |log| {
        assert more[..k] == log[..k] && RightAt(log, limit, window, k);
      } else {
        assert more[..k] == log;
      }
    }
  }

  function Hits(hits: map<string, seq<real>>, key: string): seq<real> {
    if key in hits then hits[key] else []
  }

  ghost predicate AllHold(hits: map<string, seq<real>>, log: seq<Attempt>, window: real, clock: real) {
    forall key: string :: Holds(Hits(hits, key), Admissions(log, key), window, clock)
  }

  lemma AllHoldNext(hits: map<string, seq<real>>, log: seq<Attempt>, window: real, clock: real, a: Attempt, queue: seq<real>)
    requires AllHold(hits, log, window, clock) && clock <= a.at
    requires Holds(queue, Admissions(log + [a], a.key), window, a.at)
    ensures AllHold(hits[a.key := queue], log + [a], window, a.at)
  {
    forall other: string | other != a.key
      ensures Holds(Hits(hits, other), Admissions(log + [a], other), window, a.at)
    {
      AdmissionsExtend(log, a, other);
      assert Holds(Hits(hits, other), Admissions(log, other), window, clock);
      HoldsLater(Hits(hits, other), Admissions(log, other), window, clock, a.at);
    }
    forall key: string ensures Holds(Hits(hits[a.key := queue], key), Admissions(log + [a], key), window, a.at) {
    }
  }

  /** What the limiter keeps, and the answers it gave, over its whole history. */
  ghost predicate Kept(hits: map<string, seq<real>>, log: seq<Attempt>, limit: nat, window: real, clock: real) {
    && AllHold(hits, log, window, clock) && Faithful(log, limit, window)
    && forall k :: 0 <= k < |log| ==> log[k].at <= clock
  }

  lemma QueueHolds(hits: map<string, seq<real>>, log: seq<Attempt>, limit: nat, window: real, clock: real, key: string)
    requires Kept(hits, log, limit, window, clock)
    ensures Holds(Hits(hits, key), Admissions(log, key), window, clock)
  {
  }

  function QueueAfter(left: seq<real>, a: Attempt): seq<real> {
    if a.admitted then left + [a.at] else left
  }

  lemma AttemptKeeps(hits: map<string, seq<real>>, log: seq<Attempt>, limit: nat, window: real, clock: real, a: Attempt, left: seq<real>)
    requires Kept(hits, log, limit, window, clock) && clock <= a.at
    requires Holds(left, Admissions(log, a.key), window, a.at) && |left| == Recent(Admissions(log, a.key), a.at, window)
    requires a.admitted <==> |left| < limit
    ensures Kept(hits[a.key := QueueAfter(left, a)], log + [a], limit, window, a.at)
  {
    FaithfulMore(log, a, limit, window);
    AdmissionsExtend(log, a, a.key);
    if a.admitted {
      HoldsMore(left, Admissions(log, a.key), window, a.at);
    }
    AllHoldNext(hits, log, window, clock, a, QueueAfter(left, a));
  }

  /** An attempt does not touch other keys. */
  lemma OthersStay(hits: map<string, seq<real>>, log: seq<Attempt>, a: Attempt, queue: seq<real>)
    ensures forall other: string :: other != a.key ==>
      Hits(hits[a.key := queue], other) == Hits(hits, other) && Admissions(log + [a], other) == Admissions(log, other)
  {
    forall other: string | other != a.key ensures Admissions(log + [a], other) == Admissions(log, other) {
      AdmissionsExtend(log, a, other);
    }
  }

  class RateLimiter {
    const limit: nat
    const window: real
    var hits: map<string, seq<real>>
    ghost var log: seq<Attempt>
    ghost var clock: real

    ghost predicate Valid()
      reads this
    {
      && limit > 0 && window > 0.0
      && Kept(hits, log, limit, window, clock)
    }

    constructor (limit: nat, window: real)
      requires limit > 0 && window > 0.0
      ensures Valid() && log == [] && clock == 0.0
    {
      this.limit, this.window, hits, log, clock := limit, window, map[], [], 0.0;
    }

    /** Drops what is a window old or older, from the front. */
    method Expire(queue: seq<real>, now: real, ghost times: seq<real>) returns (left: seq<real>)
      requires Holds(queue, times, window, clock) && clock <= now
      ensures Holds(left, times, window, now) && |left| == Recent(times, now, window)
    {
      left := queue;
      while left != [] && now - left[0] >= window
        invariant |left| <= |times| && left == times[|times| - |left|..]
        invariant forall i :: 0 <= i < |times| - |left| ==> now - times[i] >= window
        decreases |left|
      {
        left := left[1..];
      }
      RecentIsASuffix(times, |times| - |left|, now, window);
    }

    /** Agrees with the limiter that never forgets; the queues of other keys are not touched. */
    method Allow(key: string, now: real) returns (allowed: bool)
      requires Valid() && now >= clock
      modifies this
      ensures Valid() && clock == now
      ensures allowed <==> Recent(Admissions(old(log), key), now, window) < limit
      ensures log == old(log) + [Attempt(key, now, allowed)]
      ensures forall other: string :: other != key ==>
        Hits(hits, other) == Hits(old(hits), other) && Admissions(log, other) == Admissions(old(log), other)
    {
      ghost var times := Admissions(log, key);
      QueueHolds(hits, log, limit, window, clock, key);
      var queue := Expire(Hits(hits, key), now, times);
      allowed := |queue| < limit;
      ghost var attempt := Attempt(key, now, allowed);
      AttemptKeeps(hits, log, limit, window, clock, attempt, queue);
      OthersStay(hits, log, attempt, QueueAfter(queue, attempt));
      if allowed {
        queue := queue + [now];
      }
      hits := hits[key := queue];
      log, clock := log + [attempt], now;
    }
  }
}
