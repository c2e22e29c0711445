/** The sorted-set limiter, its agreement with the in-memory one, and the rate both keep. */
module RateLimitRedis {
  import opened RateLimit

  // Members carry a random part; here they are numbers in the order redis gives them.
  datatype Entry = Entry(score: real, member: nat)

  datatype SortedSet = SortedSet(entries: seq<Entry>, expireAt: real)

  function Scores(entries: seq<Entry>): (r: seq<real>)
    ensures |r| == |entries|
  {
    if entries == [] then [] else [entries[0].score] + Scores(entries[1..])
  }

  // ZREMRANGEBYSCORE from minus infinity.
  function RemoveUpTo(entries: seq<Entry>, cutoff: real): seq<Entry> {
    if entries == [] then []
    else (if entries[0].score <= cutoff then [] else [entries[0]]) + RemoveUpTo(entries[1..], cutoff)
  }

  // ZADD of a new member: by score, and by member among equal scores.
  function Insert(entries: seq<Entry>, e: Entry): seq<Entry> {
    if entries == [] then [e]
    else if e.score < entries[0].score || (e.score == entries[0].score && e.member < entries[0].member) then [e] + entries
    else [entries[0]] + Insert(entries[1..], e)
  }

  // EXPIRE takes whole seconds, truncated toward zero.
  function Trunc(r: real): int {
    if r >= 0.0 then r.Floor else -(-r).Floor
  }

  lemma {:induction false} SortedTail(times: seq<real>)
    requires times != [] && Sorted(times)
    ensures Sorted(times[1..]) && forall i :: 0 <= i < |times| ==> times[0] <= times[i]
  {
  }

  lemma {:induction false} NothingBelow(entries: seq<Entry>, cutoff: real)
    requires Sorted(Scores(entries)) && (entries != [] ==> entries[0].score > cutoff)
    ensures RemoveUpTo(entries, cutoff) == entries
  {
    if entries != [] {
      SortedTail(Scores(entries));
      if entries[1..] != [] {
        assert Scores(entries)[1] == Scores(entries[1..])[0];
      }
      NothingBelow(entries[1..], cutoff);
    }
  }

  lemma {:induction false} RemovalPrunes(entries: seq<Entry>, cutoff: real)
    requires Sorted(Scores(entries))
    ensures Scores(RemoveUpTo(entries, cutoff)) == Pruned(Scores(entries), cutoff)
  {
    if entries != [] {
      SortedTail(Scores(entries));
      if entries[0].score <= cutoff {
        assert Scores(entries)[1..] == Scores(entries[1..]);
        RemovalPrunes(entries[1..], cutoff);
        assert [] + RemoveUpTo(entries[1..], cutoff) == RemoveUpTo(entries[1..], cutoff);
      } else {
        NothingBelow(entries, cutoff);
      }
    }
  }

  lemma {:induction false} InsertAppends(entries: seq<Entry>, e: Entry)
    requires Sorted(Scores(entries)) && forall i :: 0 <= i < |entries| ==> Scores(entries)[i] <= e.score
    ensures Scores(Insert(entries, e)) == Scores(entries) + [e.score]
  {
    if entries != [] {
      SortedTail(Scores(entries));
      assert Scores(entries)[0] == entries[0].score;
      if e.score < entries[0].score || (e.score == entries[0].score && e.member < entries[0].member) {
        assert ([e] + entries)[1..] == entries;
        assert forall i :: 0 <= i < |entries| ==> Scores(entries)[i] == e.score;
      } else {
        assert Scores(entries)[1..] == Scores(entries[1..]);
        forall i | 0 <= i < |entries[1..]|
          ensures Scores(entries[1..])[i] <= e.score
        {
          assert Scores(entries)[i + 1] == Scores(entries[1..])[i];
        }
        InsertAppends(entries[1..], e);
        assert ([entries[0]] + Insert(entries[1..], e))[1..] == Insert(entries[1..], e);
      }
    }
  }

  lemma {:induction false} InsertAdds(entries: seq<Entry>, e: Entry)
    ensures forall x :: x in Insert(entries, e) ==> x == e || x in entries
  {
    if entries != [] {
      InsertAdds(entries[1..], e);
    }
  }

  lemma {:induction false} RemovalRemoves(entries: seq<Entry>, cutoff: real)
    ensures forall x :: x in RemoveUpTo(entries, cutoff) ==> x in entries
  {
    if entries != [] {
      RemovalRemoves(entries[1..], cutoff);
    }
  }

  function EntriesOf(sets: map<Key, SortedSet>, key: Key): seq<Entry> {
    if key in sets then sets[key].entries else []
  }

  // A set outlives every one of its entries' windows.
  ghost predicate OutlivesEntries(set_: SortedSet, window: real) {
    forall i :: 0 <= i < |set_.entries| ==> Scores(set_.entries)[i] + (Trunc(window) + 1) as real <= set_.expireAt
  }

  ghost predicate SetsOk(sets: map<Key, SortedSet>, log: seq<Attempt>, max: nat, window: real, cutoff: real) {
    && (forall k: Key :: Bucket(Times(log, k), Scores(EntriesOf(sets, k)), max, cutoff))
    && (forall k :: k in sets ==> OutlivesEntries(sets[k], window))
  }

  lemma TruncBound(window: real)
    ensures (Trunc(window) + 1) as real > window
  {
  }

  class RedisRateLimiter {
    const maxRequests: nat
    const windowSeconds: real
    var sets: map<Key, SortedSet>
    ghost var log: seq<Attempt>

    constructor (maxRequests: nat, windowSeconds: real)
      requires maxRequests > 0
      ensures Valid() && log == [] && sets == map[]
      ensures this.maxRequests == maxRequests && this.windowSeconds == windowSeconds
    {
      this.maxRequests, this.windowSeconds := maxRequests, windowSeconds;
      sets, log := map[], [];
    }

    ghost function LastCutoff(): real
      reads this
    {
      if log == [] then 0.0 else log[|log| - 1].time - windowSeconds
    }

    ghost predicate Valid()
      reads this
    {
      maxRequests > 0 && SortedLog(log) && SetsOk(sets, log, maxRequests, windowSeconds, LastCutoff())
    }

    // The script: drop what left the window, count, add, and renew the expiry.
    method IsAllowed(key: Key, now: real, member: nat) returns (allowed: bool)
      requires Valid() && (log != [] ==> log[|log| - 1].time <= now)
      requires forall e :: e in EntriesOf(sets, key) ==> e.member != member
      modifies this
      ensures Valid() && log == old(log) + [Attempt(key, now)]
      ensures allowed == Allows(old(log), maxRequests, windowSeconds, key, now)
      ensures |EntriesOf(sets, key)| <= maxRequests
      ensures forall k, e :: k in sets && e in sets[k].entries ==> e.member == member || (k in old(sets) && e in old(sets)[k].entries)
    {
      hide SetsOk, SortedLog, RemoveUpTo, Insert, Times, CountAfter, Pruned, NextBucket, Bucket, Scores;
      var cutoff := now - windowSeconds;
      var entries := if key in sets && now < sets[key].expireAt then sets[key].entries else [];
      ScriptAnswers(sets, log, maxRequests, windowSeconds, LastCutoff(), key, now, member, entries);
      RemovalRemoves(entries, cutoff);
      entries := RemoveUpTo(entries, cutoff);
      allowed := |entries| < maxRequests;
      if !allowed {
        assert forall e :: e in entries[1..] ==> e in entries;
        entries := entries[1..];
      }
      assert forall e :: e in entries ==> e in EntriesOf(sets, key);
      InsertAdds(entries, Entry(now, member));
      entries := Insert(entries, Entry(now, member));
      sets := sets[key := SortedSet(entries, now + (Trunc(windowSeconds) + 1) as real)];
      log := log + [Attempt(key, now)];
    }
  }

  // An expired set held nothing that still counted.
  lemma {:induction false} ExpiryIsHarmless(times: seq<real>, s: SortedSet, max: nat, window: real, before: real,
                                            now: real)
    requires Sorted(times) && Bucket(times, Scores(s.entries), max, before) && OutlivesEntries(s, window)
    requires s.expireAt <= now && before <= now - window && max > 0
    ensures Bucket(times, [], max, now - window)
  {
    hide Scores;
    TruncBound(window);
    var bucket, start := Scores(s.entries), |times| - |s.entries|;
    forall i | 0 <= i < |times|
      ensures times[i] <= now - window
    {
      if i >= start {
        assert times[i] == bucket[i - start];
      } else if |bucket| == max {
        assert times[i] <= times[start] == bucket[0];
      }
    }
  }

  lemma {:induction false} EntriesAnswer(times: seq<real>, entries: seq<Entry>, max: nat, cutoff: real, now: real,
                                         member: nat)
    requires max > 0 && Sorted(times) && Bucket(times, Scores(entries), max, cutoff)
    requires forall t :: t in times ==> t <= now
    ensures |RemoveUpTo(entries, cutoff)| < max <==> CountAfter(times, cutoff) < max
    ensures var live := RemoveUpTo(entries, cutoff);
            var kept := if |live| < max then live else live[1..];
            && Bucket(times + [now], Scores(Insert(kept, Entry(now, member))), max, cutoff)
            && (forall i :: 0 <= i < |Insert(kept, Entry(now, member))| ==> Scores(Insert(kept, Entry(now, member)))[i] <= now)
  {
    hide RemoveUpTo, Insert, CountAfter, Pruned, Bucket;
    var bucket := Scores(entries);
    SuffixSorted(times, bucket, max, cutoff, now);
    RemovalPrunes(entries, cutoff);
    BucketAnswers(times, bucket, max, cutoff, cutoff);
    BucketGrows(times, bucket, max, cutoff, now);
    PrunedMeaning(bucket, cutoff);
    var live := RemoveUpTo(entries, cutoff);
    var kept := if |live| < max then live else live[1..];
    assert Scores(kept) == if |live| < max then Scores(live) else Scores(live)[1..];
    assert Sorted(Scores(kept)) && forall i :: 0 <= i < |kept| ==> Scores(kept)[i] <= now;
    InsertAppends(kept, Entry(now, member));
  }

  lemma {:induction false} SuffixSorted(times: seq<real>, bucket: seq<real>, max: nat, cutoff: real, now: real)
    requires Sorted(times) && Bucket(times, bucket, max, cutoff) && forall t :: t in times ==> t <= now
    ensures Sorted(bucket) && forall i :: 0 <= i < |bucket| ==> bucket[i] <= now
  {
    var start := |times| - |bucket|;
    forall i | 0 <= i < |bucket|
      ensures bucket[i] == times[start + i] && bucket[i] <= now
    {
      assert times[start + i] in times;
    }
  }

  lemma {:induction false} ScriptAnswers(sets: map<Key, SortedSet>, log: seq<Attempt>, max: nat, window: real,
                                         before: real,
                                         key: Key, now: real, member: nat, entries: seq<Entry>)
    requires max > 0 && SortedLog(log) && SetsOk(sets, log, max, window, before)
    requires log != [] ==> log[|log| - 1].time <= now && before <= now - window
    requires entries == if key in sets && now < sets[key].expireAt then sets[key].entries else []
    ensures |RemoveUpTo(entries, now - window)| < max <==> Allows(log, max, window, key, now)
    ensures var live := RemoveUpTo(entries, now - window);
            var next := Insert(if |live| < max then live else live[1..], Entry(now, member));
            && |next| <= max && SortedLog(log + [Attempt(key, now)])
            && SetsOk(sets[key := SortedSet(next, now + (Trunc(window) + 1) as real)], log + [Attempt(key, now)], max, window,
                      now - window)
  {
    hide RemoveUpTo, Insert, Times, CountAfter, Bucket, Scores;
    var cutoff := now - window;
    TimesSorted(log, key);
    var times := Times(log, key);
    EmptyLog(log, key);
    BucketMoves(times, Scores(EntriesOf(sets, key)), max, before, cutoff);
    if key in sets && sets[key].expireAt <= now {
      if log != [] {
        ExpiryIsHarmless(times, sets[key], max, window, before, now);
      } else {
        EmptyBucket(Scores(sets[key].entries), max, before, cutoff);
      }
    }
    assert Scores([]) == [];
    EntriesAnswer(times, entries, max, cutoff, now, member);
    var live := RemoveUpTo(entries, cutoff);
    var next := Insert(if |live| < max then live else live[1..], Entry(now, member));
    var after := sets[key := SortedSet(next, now + (Trunc(window) + 1) as real)];
    forall k: Key
      ensures Bucket(Times(log + [Attempt(key, now)], k), Scores(EntriesOf(after, k)), max, cutoff)
    {
      TimesNext(log, Attempt(key, now), k);
      EmptyLog(log, k);
      BucketMoves(Times(log, k), Scores(EntriesOf(sets, k)), max, before, cutoff);
      assert Times(log, k) + [] == Times(log, k);
    }
    BucketSize(times + [now], Scores(next), max, cutoff);
  }

  lemma EmptyLog(log: seq<Attempt>, key: Key)
    ensures log == [] ==> Times(log, key) == []
  {
  }

  lemma BucketSize(times: seq<real>, bucket: seq<real>, max: nat, cutoff: real)
    requires Bucket(times, bucket, max, cutoff)
    ensures |bucket| <= max
  {
  }

  lemma EmptyBucket(bucket: seq<real>, max: nat, before: real, cutoff: real)
    requires Bucket([], bucket, max, before)
    ensures Bucket([], [], max, cutoff)
  {
  }

  lemma BucketMoves(times: seq<real>, bucket: seq<real>, max: nat, before: real, cutoff: real)
    requires Bucket(times, bucket, max, before) && (times == [] || before <= cutoff)
    ensures Bucket(times, bucket, max, cutoff)
  {
  }

  // ---------- both limiters ----------

  datatype Call = Call(key: Key, now: real, member: nat)

  // Fed the same calls and clock, the two limiters give the same answers.
  method RunBoth(max: nat, window: real, calls: seq<Call>) returns (memory: seq<bool>, redis: seq<bool>)
    requires max > 0
    requires forall i, j :: 0 <= i < j < |calls| ==> calls[i].now <= calls[j].now && calls[i].member != calls[j].member
    ensures memory == redis && |memory| == |calls|
    ensures forall i :: 0 <= i < |calls| ==> memory[i] == Allows(LogOf(calls[..i]), max, window, calls[i].key, calls[i].now)
  {
    hide SetsOk, BucketsOk, Allows, LogOf;
    var inMemory := new InMemoryRateLimiter(max, window);
    var inRedis := new RedisRateLimiter(max, window);
    memory, redis := [], [];
    for i := 0 to |calls|
      invariant inMemory.Valid() && inRedis.Valid()
      invariant inMemory.maxRequests == inRedis.maxRequests == max && inMemory.windowSeconds == inRedis.windowSeconds == window
      invariant inMemory.log == inRedis.log == LogOf(calls[..i])
      invariant memory == redis && |memory| == i
      invariant forall j :: 0 <= j < i ==> memory[j] == Allows(LogOf(calls[..j]), max, window, calls[j].key, calls[j].now)
      invariant forall k, e :: k in inRedis.sets && e in inRedis.sets[k].entries ==> Drawn(calls, i, e.member)
    {
      var call := calls[i];
      LogStep(calls, i);
      var a := inMemory.IsAllowed(call.key, call.now);
      var b := inRedis.IsAllowed(call.key, call.now, call.member);
      memory, redis := memory + [a], redis + [b];
    }
  }

  function LogOf(calls: seq<Call>): (log: seq<Attempt>)
    ensures |log| == |calls|
  {
    if calls == [] then []
    else LogOf(calls[..|calls| - 1]) + [Attempt(calls[|calls| - 1].key, calls[|calls| - 1].now)]
  }

  // The member of one of the first n calls.
  ghost predicate Drawn(calls: seq<Call>, n: nat, member: nat) {
    exists i :: 0 <= i < n && i < |calls| && calls[i].member == member
  }

  lemma {:induction false} LogStep(calls: seq<Call>, i: nat)
    requires i < |calls|
    ensures LogOf(calls[..i + 1]) == LogOf(calls[..i]) + [Attempt(calls[i].key, calls[i].now)]
    ensures i > 0 ==> LogOf(calls[..i])[i - 1].time == calls[i - 1].now
    ensures LogOf(calls[..0]) == []
  {
    assert calls[..i + 1][..i] == calls[..i];
    if i > 0 {
      assert calls[..i][..i - 1] == calls[..i - 1];
    }
  }

  // ---------- the rate ----------

  lemma {:induction false} CountAtLeast(log: seq<Attempt>, key: Key, cutoff: real, idx: seq<nat>)
    requires forall j :: 0 <= j < |idx| ==> idx[j] < |log| && log[idx[j]].key == key && log[idx[j]].time > cutoff
    requires forall j, k :: 0 <= j < k < |idx| ==> idx[j] < idx[k]
    ensures CountAfter(Times(log, key), cutoff) >= |idx|
  {
    if idx != [] {
      assert idx[|idx| - 1] < |log|;
      var n, m := |log| - 1, |idx| - 1;
      var init, last := log[..n], log[n];
      var others := if idx[m] == n then idx[..m] else idx;
      assert forall j :: 0 <= j < |others| ==> others[j] == idx[j] && init[idx[j]] == log[idx[j]];
      CountAtLeast(init, key, cutoff, others);
      var added := if last.key == key then [last.time] else [];
      CountSplit(Times(init, key), added, cutoff);
      if idx[m] == n {
        CountAll(added, cutoff);
      }
    }
  }

  // One more allowed attempt than the maximum always takes at least the window.
  lemma {:induction false} AllowedSpanWindow(log: seq<Attempt>, max: nat, window: real, key: Key, idx: seq<nat>)
    requires max > 0 && SortedLog(log) && |idx| == max + 1
    requires forall j, k :: 0 <= j < k < |idx| ==> idx[j] < idx[k]
    requires forall j :: 0 <= j < |idx| ==> idx[j] < |log| && log[idx[j]].key == key
    requires forall j :: 0 <= j < |idx| ==> Allows(log[..idx[j]], max, window, key, log[idx[j]].time)
    ensures log[idx[max]].time - log[idx[0]].time >= window
  {
    var last := idx[max];
    if log[last].time - log[idx[0]].time < window {
      forall j | 0 <= j < max
        ensures log[..last][idx[j]].time > log[last].time - window
      {
        assert log[idx[0]].time <= log[idx[j]].time;
      }
      CountAtLeast(log[..last], key, log[last].time - window, idx[..max]);
    }
  }
}
