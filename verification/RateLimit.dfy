/**
 Sliding-window rate limiting: an unbounded log of attempts as the meaning, the in-memory
 limiter with its bounded buckets and periodic sweeps, and the sorted-set limiter.
 */
module RateLimit {

  type Key = nat

  datatype Attempt = Attempt(key: Key, time: real)

  // ---------- the meaning ----------

  // The times of the attempts on a key, allowed or refused.
  function Times(log: seq<Attempt>, key: Key): seq<real> {
    if log == [] then []
    else Times(log[..|log| - 1], key) + (if log[|log| - 1].key == key then [log[|log| - 1].time] else [])
  }

  function CountAfter(times: seq<real>, cutoff: real): nat {
    if times == [] then 0 else (if times[0] > cutoff then 1 else 0) + CountAfter(times[1..], cutoff)
  }

  // An attempt is allowed when fewer than the maximum came before it within the window.
  predicate Allows(log: seq<Attempt>, max: nat, window: real, key: Key, now: real) {
    CountAfter(Times(log, key), now - window) < max
  }

  // The attempts on the key that are younger than the window.
  ghost function Recent(log: seq<Attempt>, window: real, key: Key, now: real): set<nat> {
    set i: nat | i < |log| && log[i].key == key && now - log[i].time < window
  }

  lemma {:induction false} AllowsIff(log: seq<Attempt>, max: nat, window: real, key: Key, now: real)
    ensures Allows(log, max, window, key, now) <==> |Recent(log, window, key, now)| < max
  {
    CountIsRecent(log, window, key, now);
  }

  lemma {:induction false} CountIsRecent(log: seq<Attempt>, window: real, key: Key, now: real)
    ensures CountAfter(Times(log, key), now - window) == |Recent(log, window, key, now)|
  {
    if log == [] {
      assert Recent(log, window, key, now) == {};
    } else {
      var init, last := log[..|log| - 1], log[|log| - 1];
      CountIsRecent(init, window, key, now);
      CountSplit(Times(init, key), if last.key == key then [last.time] else [], now - window);
      RecentOneMore(init, last, window, key, now);
      assert log == init + [last];
      hide Recent;
    }
  }

  lemma RecentOneMore(log: seq<Attempt>, more: Attempt, window: real, key: Key, now: real)
    ensures |Recent(log + [more], window, key, now)|
            == |Recent(log, window, key, now)| + if more.key == key && now - more.time < window then 1 else 0
  {
    var added: set<nat> := if more.key == key && now - more.time < window then {|log|} else {};
    assert Recent(log + [more], window, key, now) == Recent(log, window, key, now) + added;
  }

  ghost predicate SortedLog(log: seq<Attempt>) {
    forall i, j :: 0 <= i < j < |log| ==> log[i].time <= log[j].time
  }

  ghost predicate Sorted(times: seq<real>) {
    forall i, j :: 0 <= i < j < |times| ==> times[i] <= times[j]
  }

  lemma {:induction false} TimesFrom(log: seq<Attempt>, key: Key)
    ensures forall t :: t in Times(log, key) ==> exists i :: 0 <= i < |log| && log[i] == Attempt(key, t)
  {
    if log != [] {
      var init := log[..|log| - 1];
      TimesFrom(init, key);
      forall t | t in Times(log, key)
        ensures exists i :: 0 <= i < |log| && log[i] == Attempt(key, t)
      {
        if t in Times(init, key) {
          var i :| 0 <= i < |init| && init[i] == Attempt(key, t);
          assert log[i] == Attempt(key, t);
        } else {
          assert log[|log| - 1] == Attempt(key, t);
        }
      }
    }
  }

  lemma {:induction false} TimesSorted(log: seq<Attempt>, key: Key)
    requires SortedLog(log)
    ensures Sorted(Times(log, key))
    ensures log != [] ==> forall t :: t in Times(log, key) ==> t <= log[|log| - 1].time
  {
    if log != [] {
      var init := log[..|log| - 1];
      TimesSorted(init, key);
      TimesFrom(log, key);
      var times := Times(init, key);
      forall i | 0 <= i < |times|
        ensures times[i] <= log[|log| - 1].time
      {
        assert times[i] in Times(log, key);
      }
    }
  }

  lemma {:induction false} CountSplit(xs: seq<real>, ys: seq<real>, cutoff: real)
    ensures CountAfter(xs + ys, cutoff) == CountAfter(xs, cutoff) + CountAfter(ys, cutoff)
  {
    if xs == [] {
      assert xs + ys == ys;
    } else {
      CountSplit(xs[1..], ys, cutoff);
      assert (xs + ys)[1..] == xs[1..] + ys;
    }
  }

  lemma {:induction false} CountNone(times: seq<real>, cutoff: real)
    requires forall i :: 0 <= i < |times| ==> times[i] <= cutoff
    ensures CountAfter(times, cutoff) == 0
  {
    if times != [] {
      CountNone(times[1..], cutoff);
    }
  }

  lemma {:induction false} CountAll(times: seq<real>, cutoff: real)
    requires forall i :: 0 <= i < |times| ==> times[i] > cutoff
    ensures CountAfter(times, cutoff) == |times|
  {
    if times != [] {
      CountAll(times[1..], cutoff);
    }
  }

  // ---------- what a bucket must hold ----------

  // A bucket holds the latest attempts, and what it dropped no longer matters: it has left
  // the window, or the bucket is full of later ones.
  ghost predicate Bucket(times: seq<real>, bucket: seq<real>, max: nat, cutoff: real) {
    && |bucket| <= |times| && |bucket| <= max
    && bucket == times[|times| - |bucket|..]
    && (|bucket| == max || forall i :: 0 <= i < |times| - |bucket| ==> times[i] <= cutoff)
  }

  function Pruned(bucket: seq<real>, cutoff: real): seq<real> {
    if bucket != [] && bucket[0] <= cutoff then Pruned(bucket[1..], cutoff) else bucket
  }

  // After a call: the bucket without what expired, and without its oldest entry when full.
  function NextBucket(bucket: seq<real>, max: nat, cutoff: real, now: real): seq<real>
    requires max > 0
  {
    var live := Pruned(bucket, cutoff);
    if |live| < max then live + [now] else live[1..] + [now]
  }

  lemma {:induction false} PrunedMeaning(bucket: seq<real>, cutoff: real)
    requires Sorted(bucket)
    ensures |Pruned(bucket, cutoff)| <= |bucket|
    ensures Pruned(bucket, cutoff) == bucket[|bucket| - |Pruned(bucket, cutoff)|..]
    ensures forall i :: 0 <= i < |bucket| - |Pruned(bucket, cutoff)| ==> bucket[i] <= cutoff
    ensures forall i :: |bucket| - |Pruned(bucket, cutoff)| <= i < |bucket| ==> bucket[i] > cutoff
  {
    if bucket != [] && bucket[0] <= cutoff {
      PrunedMeaning(bucket[1..], cutoff);
      forall i | 0 <= i < |bucket| - |Pruned(bucket, cutoff)|
        ensures bucket[i] <= cutoff
      {
        if i > 0 {
          assert bucket[1..][i - 1] == bucket[i];
        }
      }
      forall i | |bucket| - |Pruned(bucket, cutoff)| <= i < |bucket|
        ensures bucket[i] > cutoff
      {
        assert bucket[1..][i - 1] == bucket[i];
      }
    }
  }

  // What pruning leaves ends the log; when it is not full, all before it has left the window.
  lemma {:induction false} PrunedSuffix(times: seq<real>, bucket: seq<real>, max: nat, before: real, cutoff: real)
    requires max > 0 && Sorted(times) && Bucket(times, bucket, max, before) && before <= cutoff
    ensures var live := Pruned(bucket, cutoff);
            && |live| <= |bucket| <= |times| && |live| <= max && live == times[|times| - |live|..]
            && (forall i :: 0 <= i < |live| ==> live[i] > cutoff)
            && (|live| < max ==> forall i :: 0 <= i < |times| - |live| ==> times[i] <= cutoff)
  {
    PrunedMeaning(bucket, cutoff);
    hide Pruned;
    var live := Pruned(bucket, cutoff);
    assert forall i :: 0 <= i < |live| ==> live[i] == bucket[|bucket| - |live| + i];
    if |live| < max {
      forall i | 0 <= i < |times| - |live|
        ensures times[i] <= cutoff
      {
        DroppedIsDead(times, bucket, max, before, cutoff, i);
      }
    }
  }

  // The bucket answers for the whole log, and stays a bucket of it.
  lemma {:induction false} BucketAnswers(times: seq<real>, bucket: seq<real>, max: nat, before: real, cutoff: real)
    requires max > 0 && Sorted(times) && Bucket(times, bucket, max, before) && before <= cutoff
    ensures |Pruned(bucket, cutoff)| < max <==> CountAfter(times, cutoff) < max
    ensures Bucket(times, Pruned(bucket, cutoff), max, cutoff)
  {
    PrunedSuffix(times, bucket, max, before, cutoff);
    hide Pruned, CountAfter, Sorted;
    var live := Pruned(bucket, cutoff);
    var n := |times| - |live|;
    assert times == times[..n] + live;
    CountSplit(times[..n], live, cutoff);
    CountAll(live, cutoff);
    if |live| < max {
      CountNone(times[..n], cutoff);
    }
  }

  lemma {:induction false} BucketGrows(times: seq<real>, bucket: seq<real>, max: nat, cutoff: real, now: real)
    requires max > 0 && Bucket(times, Pruned(bucket, cutoff), max, cutoff)
    ensures Bucket(times + [now], NextBucket(bucket, max, cutoff, now), max, cutoff)
  {
    hide Pruned;
    var next := NextBucket(bucket, max, cutoff, now);
    assert next == (times + [now])[|times| + 1 - |next|..];
  }

  lemma {:induction false} DroppedIsDead(times: seq<real>, bucket: seq<real>, max: nat, before: real, cutoff: real,
                                         i: nat)
    requires Sorted(times) && Sorted(bucket) && Bucket(times, bucket, max, before) && before <= cutoff
    requires |Pruned(bucket, cutoff)| < max && i < |times| - |Pruned(bucket, cutoff)|
    ensures times[i] <= cutoff
  {
    PrunedMeaning(bucket, cutoff);
    var start := |times| - |bucket|;
    if i >= start {
      assert times[i] == bucket[i - start];
    } else if |bucket| == max {
      assert times[i] <= times[start] == bucket[0];
    }
  }

  // ---------- the in-memory limiter ----------

  const CLEANUP_INTERVAL: nat := 128

  function KeysOf(log: seq<Attempt>): set<Key> {
    set a | a in log :: a.key
  }

  // The keys with an attempt later than a cutoff.
  function LiveKeys(log: seq<Attempt>, cutoff: real): set<Key> {
    set k | k in KeysOf(log) && CountAfter(Times(log, k), cutoff) > 0
  }

  function BucketOf(buckets: map<Key, seq<real>>, key: Key): seq<real> {
    if key in buckets then buckets[key] else []
  }

  ghost predicate BucketsOk(buckets: map<Key, seq<real>>, log: seq<Attempt>, max: nat, cutoff: real) {
    forall k: Key :: Bucket(Times(log, k), BucketOf(buckets, k), max, cutoff)
  }

  function Swept(buckets: map<Key, seq<real>>, cutoff: real): map<Key, seq<real>> {
    map k | k in buckets && !(buckets[k] == [] || buckets[k][|buckets[k]| - 1] <= cutoff) :: buckets[k]
  }

  lemma {:induction false} SweepKeepsBuckets(buckets: map<Key, seq<real>>, log: seq<Attempt>, max: nat, before: real,
                                             cutoff: real)
    requires max > 0 && SortedLog(log) && BucketsOk(buckets, log, max, before) && before <= cutoff
    ensures BucketsOk(Swept(buckets, cutoff), log, max, cutoff)
  {
    forall k: Key
      ensures Bucket(Times(log, k), BucketOf(Swept(buckets, cutoff), k), max, cutoff)
    {
      TimesSorted(log, k);
      var times, bucket := Times(log, k), BucketOf(buckets, k);
      assert Bucket(times, bucket, max, before);
      if bucket != [] && bucket[|bucket| - 1] <= cutoff {
        assert times[|times| - 1] == bucket[|bucket| - 1];
      }
    }
  }

  // A sweep leaves the buckets of exactly the keys with an attempt still in the window.
  lemma {:induction false} SweepKeepsLive(buckets: map<Key, seq<real>>, log: seq<Attempt>, max: nat, before: real,
                                          cutoff: real)
    requires max > 0 && SortedLog(log) && BucketsOk(buckets, log, max, before) && before <= cutoff
    ensures Swept(buckets, cutoff).Keys == LiveKeys(log, cutoff)
  {
    forall k: Key
      ensures k in Swept(buckets, cutoff) <==> k in LiveKeys(log, cutoff)
    {
      TimesSorted(log, k);
      LastDecides(Times(log, k), cutoff);
      var times, bucket := Times(log, k), BucketOf(buckets, k);
      assert Bucket(times, bucket, max, before);
      if bucket != [] {
        assert times[|times| - 1] == bucket[|bucket| - 1];
      }
      if times != [] {
        TimesFrom(log, k);
        assert times[0] in times;
        var i :| 0 <= i < |log| && log[i] == Attempt(k, times[0]);
        assert log[i] in log;
      }
    }
  }

  lemma {:induction false} LastDecides(times: seq<real>, cutoff: real)
    requires Sorted(times)
    ensures CountAfter(times, cutoff) > 0 <==> times != [] && times[|times| - 1] > cutoff
  {
    if times != [] {
      var n := |times| - 1;
      assert times == times[..n] + [times[n]];
      CountSplit(times[..n], [times[n]], cutoff);
      if times[n] <= cutoff {
        CountNone(times, cutoff);
      }
    }
  }

  class InMemoryRateLimiter {
    const maxRequests: nat
    const windowSeconds: real
    var buckets: map<Key, seq<real>>
    var callCount: nat
    // All attempts so far, and the keys that were live at the last sweep.
    ghost var log: seq<Attempt>
    ghost var keptBySweep: set<Key>

    constructor (maxRequests: nat, windowSeconds: real)
      requires maxRequests > 0
      ensures Valid() && log == [] && this.maxRequests == maxRequests && this.windowSeconds == windowSeconds
    {
      this.maxRequests, this.windowSeconds := maxRequests, windowSeconds;
      buckets, callCount, log, keptBySweep := map[], 0, [], {};
    }

    ghost function LastCutoff(): real
      reads this
    {
      if log == [] then 0.0 else log[|log| - 1].time - windowSeconds
    }

    ghost predicate Valid()
      reads this
    {
      && maxRequests > 0 && callCount == |log| && SortedLog(log)
      && BucketsOk(buckets, log, maxRequests, LastCutoff())
      && |buckets.Keys| <= |keptBySweep| + callCount % CLEANUP_INTERVAL + 1
    }

    // The answer is that of the whole log, and neither the bound on a bucket nor the sweep
    // ever changes it.
    method IsAllowed(key: Key, now: real) returns (allowed: bool)
      requires Valid() && (log != [] ==> log[|log| - 1].time <= now)
      modifies this
      ensures Valid() && log == old(log) + [Attempt(key, now)]
      ensures allowed == Allows(old(log), maxRequests, windowSeconds, key, now)
      ensures forall k :: k in buckets ==> |buckets[k]| <= maxRequests
      ensures keptBySweep == if callCount % CLEANUP_INTERVAL == 0 then LiveKeys(old(log), now - windowSeconds) else old(keptBySweep)
      ensures |buckets.Keys| <= |keptBySweep| + CLEANUP_INTERVAL
    {
      hide BucketsOk, SortedLog, LiveKeys, Allows;
      var cutoff := now - windowSeconds;
      CutoffMoves(buckets, log, maxRequests, LastCutoff(), cutoff);
      SweepWhenDue(cutoff);
      RoomForOne(buckets.Keys, key, |keptBySweep|, callCount);
      allowed := RecordAttempt(key, now);
    }

    method RecordAttempt(key: Key, now: real) returns (allowed: bool)
      requires maxRequests > 0 && SortedLog(log) && (log != [] ==> log[|log| - 1].time <= now)
      requires BucketsOk(buckets, log, maxRequests, now - windowSeconds)
      modifies this`buckets, this`log
      ensures log == old(log) + [Attempt(key, now)] && SortedLog(log)
      ensures BucketsOk(buckets, log, maxRequests, now - windowSeconds)
      ensures allowed == Allows(old(log), maxRequests, windowSeconds, key, now)
      ensures buckets.Keys == old(buckets).Keys + {key} && forall k :: k in buckets ==> |buckets[k]| <= maxRequests
    {
      hide BucketsOk, SortedLog, BucketOf, NextBucket, Pruned, CountAfter, Times, Allows;
      var cutoff := now - windowSeconds;
      CallAnswers(buckets, log, maxRequests, cutoff, key, now);
      var timestamps := BucketOf(buckets, key);
      allowed, timestamps := Record(timestamps, maxRequests, cutoff, now);
      buckets := buckets[key := timestamps];
      log := log + [Attempt(key, now)];
      BucketsBounded(buckets, log, maxRequests, cutoff);
    }

    // Prune from the front, then append; a full bucket drops its oldest entry.
    static method Record(bucket: seq<real>, max: nat, cutoff: real, now: real) returns (allowed: bool,
                         timestamps: seq<real>)
      requires max > 0
      ensures timestamps == NextBucket(bucket, max, cutoff, now)
      ensures allowed == (|Pruned(bucket, cutoff)| < max)
    {
      timestamps := bucket;
      while timestamps != [] && timestamps[0] <= cutoff
        invariant Pruned(timestamps, cutoff) == Pruned(bucket, cutoff)
        decreases |timestamps|
      {
        timestamps := timestamps[1..];
      }
      if |timestamps| < max {
        timestamps := timestamps + [now];
        return true, timestamps;
      }
      timestamps := timestamps[1..];
      timestamps := timestamps + [now];
      return false, timestamps;
    }

    // Every so many calls the stale keys go.
    method SweepWhenDue(cutoff: real)
      requires maxRequests > 0 && SortedLog(log) && BucketsOk(buckets, log, maxRequests, cutoff)
      requires |buckets.Keys| <= |keptBySweep| + callCount % CLEANUP_INTERVAL + 1
      modifies this`buckets, this`callCount, this`keptBySweep
      ensures BucketsOk(buckets, log, maxRequests, cutoff) && callCount == old(callCount) + 1
      ensures |buckets.Keys| <= |keptBySweep| + callCount % CLEANUP_INTERVAL
      ensures if callCount % CLEANUP_INTERVAL == 0 then keptBySweep == LiveKeys(log, cutoff)
              else keptBySweep == old(keptBySweep) && buckets == old(buckets)
    {
      hide BucketsOk, SortedLog, LiveKeys, Swept;
      callCount := callCount + 1;
      if callCount % CLEANUP_INTERVAL == 0 {
        SweepKeepsLive(buckets, log, maxRequests, cutoff, cutoff);
        SweepKeepsBuckets(buckets, log, maxRequests, cutoff, cutoff);
        buckets := SweepExpired(cutoff);
        keptBySweep := buckets.Keys;
      }
    }

    method SweepExpired(cutoff: real) returns (kept: map<Key, seq<real>>)
      ensures kept == Swept(buckets, cutoff)
    {
      var expired := set k | k in buckets && (buckets[k] == [] || buckets[k][|buckets[k]| - 1] <= cutoff);
      kept := buckets;
      var todo := expired;
      while todo != {}
        invariant todo <= expired && kept == buckets - (expired - todo)
        decreases todo
      {
        var k :| k in todo;
        todo := todo - {k};
        kept := kept - {k};
      }
      assert kept == Swept(buckets, cutoff);
    }
  }

  lemma {:induction false} CutoffMoves(buckets: map<Key, seq<real>>, log: seq<Attempt>, max: nat, before: real,
                                       cutoff: real)
    requires BucketsOk(buckets, log, max, before) && (log == [] || before <= cutoff)
    ensures BucketsOk(buckets, log, max, cutoff)
  {
    forall k: Key
      ensures Bucket(Times(log, k), BucketOf(buckets, k), max, cutoff)
    {
      assert Bucket(Times(log, k), BucketOf(buckets, k), max, before);
    }
  }

  lemma {:induction false} TimesNext(log: seq<Attempt>, a: Attempt, key: Key)
    ensures Times(log + [a], key) == Times(log, key) + (if a.key == key then [a.time] else [])
  {
    assert (log + [a])[..|log|] == log;
  }

  lemma {:induction false} CallAnswers(buckets: map<Key, seq<real>>, log: seq<Attempt>, max: nat, cutoff: real,
                                       key: Key, now: real)
    requires max > 0 && SortedLog(log) && BucketsOk(buckets, log, max, cutoff) && (log != [] ==> log[|log| - 1].time <= now)
    ensures |Pruned(BucketOf(buckets, key), cutoff)| < max <==> CountAfter(Times(log, key), cutoff) < max
    ensures forall window :: cutoff == now - window ==> (Allows(log, max, window, key, now) <==> CountAfter(Times(log, key), cutoff) < max)
    ensures BucketsOk(buckets[key := NextBucket(BucketOf(buckets, key), max, cutoff, now)], log + [Attempt(key, now)], max, cutoff)
    ensures SortedLog(log + [Attempt(key, now)])
  {
    hide Times, Pruned, CountAfter, Bucket, NextBucket;
    TimesSorted(log, key);
    BucketAnswers(Times(log, key), BucketOf(buckets, key), max, cutoff, cutoff);
    BucketGrows(Times(log, key), BucketOf(buckets, key), max, cutoff, now);
    var next := buckets[key := NextBucket(BucketOf(buckets, key), max, cutoff, now)];
    forall k: Key
      ensures Bucket(Times(log + [Attempt(key, now)], k), BucketOf(next, k), max, cutoff)
    {
      TimesNext(log, Attempt(key, now), k);
      assert Bucket(Times(log, k), BucketOf(buckets, k), max, cutoff);
      assert Times(log, k) + [] == Times(log, k);
    }
  }

  lemma BucketsBounded(buckets: map<Key, seq<real>>, log: seq<Attempt>, max: nat, cutoff: real)
    requires BucketsOk(buckets, log, max, cutoff)
    ensures forall k :: k in buckets ==> |buckets[k]| <= max
  {
    forall k | k in buckets
      ensures |buckets[k]| <= max
    {
      assert Bucket(Times(log, k), BucketOf(buckets, k), max, cutoff);
    }
  }

  lemma RoomForOne(keys: set<Key>, key: Key, kept: nat, calls: nat)
    requires |keys| <= kept + calls % CLEANUP_INTERVAL
    ensures |keys + {key}| <= kept + calls % CLEANUP_INTERVAL + 1 <= kept + CLEANUP_INTERVAL
  {
    if key in keys {
      assert keys + {key} == keys;
    }
  }
}
