/**
The looking glass's sliding-window rate limiter: one queue of accepted hits per client, old
hits evicted on the next call, idle buckets dropped once more than 2048 clients are known.

The limiter is specified by the whole history of accepted hits; nothing is ever evicted from it.
*/
module RateLimiter {

  datatype Hit<K> = Hit(key: K, at: real)

  const PRUNE_THRESHOLD := 2048

  // The times at which `key` was let through, oldest first.
  ghost function Times<K>(history: seq<Hit<K>>, key: K): seq<real> {
    if history == [] then []
    else
      var last := history[|history| - 1];
      if last.key == key then Times(history[..|history| - 1], key) + [last.at]
      else Times(history[..|history| - 1], key)
  }

  // How many of `times` lie in the closed window from `lo` to `hi`.
  ghost function CountIn(times: seq<real>, lo: real, hi: real): nat {
    if times == [] then 0
    else
      var last := times[|times| - 1];
      CountIn(times[..|times| - 1], lo, hi) + (if lo <= last <= hi then 1 else 0)
  }

  ghost predicate Ordered(times: seq<real>) {
    forall i, j :: 0 <= i < j < |times| ==> times[i] <= times[j]
  }

  // What the limiter promises about one call, in terms of the full history.
  ghost predicate WithinLimit<K>(history: seq<Hit<K>>, limit: int, window: real, key: K, now: real) {
    CountIn(Times(history, key), now - window, now) < limit
  }

  // Every hit of the history was within the limit when it was accepted, and the clock never ran back.
  ghost predicate Admitted<K>(history: seq<Hit<K>>, limit: int, window: real) {
    history == [] ||
    (var n := |history| - 1;
     && Admitted(history[..n], limit, window)
     && WithinLimit(history[..n], limit, window, history[n].key, history[n].at)
     && (forall i :: 0 <= i < n ==> history[i].at <= history[n].at))
  }

  // `bucket` is what is left of `times` after dropping some leading entries older than `cutoff`.
  ghost predicate Keeps(bucket: seq<real>, times: seq<real>, cutoff: real) {
    && |bucket| <= |times|
    && bucket == times[|times| - |bucket|..]
    && forall i :: 0 <= i < |times| - |bucket| ==> times[i] < cutoff
  }

  function Bucket<K(==)>(hits: map<K, seq<real>>, key: K): seq<real> {
    if key in hits then hits[key] else []
  }

  ghost predicate KeepsAll<K(!new)>(hits: map<K, seq<real>>, history: seq<Hit<K>>, cutoff: real) {
    forall key :: Keeps(Bucket(hits, key), Times(history, key), cutoff)
  }

  ghost predicate Consistent<K(!new)>(hits: map<K, seq<real>>, history: seq<Hit<K>>, limit: int, window: real, clock: real) {
    && Admitted(history, limit, window)
    && (forall i :: 0 <= i < |history| ==> history[i].at <= clock)
    && KeepsAll(hits, history, clock - window)
  }

  class SlidingWindowRateLimiter<K(==,!new)> {
    const limit: int
    const window: real
    var hits: map<K, seq<real>>
    ghost var history: seq<Hit<K>>
    ghost var clock: real

    ghost predicate Active() { limit > 0 && window > 0.0 }

    ghost predicate Valid()
      reads this
    {
      Active() ==> Consistent(hits, history, limit, window, clock)
    }

    constructor (limit: int, window: real, ghost start: real)
      ensures Valid() && this.limit == limit && this.window == window
      ensures history == [] && clock == start
    {
      this.limit := limit;
      this.window := window;
      hits := map[];
      history := [];
      clock := start;
    }

    // The answer is the one the whole history gives, whatever has been evicted or pruned.
    method Allow(key: K, now: real) returns (allowed: bool)
      requires Valid() && clock <= now
      modifies this
      ensures Valid() && clock == now
      ensures Active() ==> allowed == WithinLimit(old(history), limit, window, key, now)
      ensures !Active() ==> allowed
      ensures history == if Active() && allowed then old(history) + [Hit(key, now)] else old(history)
    {
      clock := now;
      if limit <= 0 || window <= 0.0 {
        return true;
      }
      var cutoff := now - window;
      var bucket := Evict(key, cutoff);
      EvictionKept(old(hits), history, limit, window, old(clock), key, bucket, now);
      if |bucket| >= limit {
        return false;
      }
      RecordingKept(hits, history, limit, window, key, now);
      hits := hits[key := bucket + [now]];
      history := history + [Hit(key, now)];
      Prune(cutoff);
      return true;
    }

    // Pops the entries of one queue that are older than `cutoff`.
    method Evict(key: K, cutoff: real) returns (bucket: seq<real>)
      modifies this`hits
      ensures hits == old(hits)[key := bucket]
      ensures Evicted(Bucket(old(hits), key), bucket, cutoff)
    {
      bucket := Bucket(hits, key);
      KeepsItself(bucket, cutoff);
      while bucket != [] && bucket[0] < cutoff
        invariant hits == old(hits) && |bucket| <= |Bucket(hits, key)|
        invariant Keeps(bucket, Bucket(old(hits), key), cutoff)
      {
        KeepsPopped(bucket, Bucket(old(hits), key), cutoff);
        bucket := bucket[1..];
      }
      KeepsAfterPopping(bucket, Bucket(old(hits), key), cutoff);
      hits := hits[key := bucket];
    }

    // Drops buckets without a hit at or after `cutoff`.
    method Prune(cutoff: real)
      requires Active() && Valid() && cutoff == clock - window
      modifies this`hits
      ensures Valid()
      ensures |old(hits)| <= PRUNE_THRESHOLD ==> hits == old(hits)
      ensures |old(hits)| > PRUNE_THRESHOLD ==>
        forall k :: k in hits <==> k in old(hits) && old(hits)[k] != [] && old(hits)[k][|old(hits)[k]| - 1] >= cutoff
      ensures forall k :: k in hits ==> k in old(hits) && hits[k] == old(hits)[k]
    {
      if |hits| <= PRUNE_THRESHOLD {
        return;
      }
      var stale := set k | k in hits && (hits[k] == [] || hits[k][|hits[k]| - 1] < cutoff);
      var todo := stale;
      while todo != {}
        invariant todo <= stale
        invariant hits == old(hits) - (stale - todo)
      {
        var k :| k in todo;
        hits := hits - {k};
        todo := todo - {k};
      }
      forall k
        ensures Keeps(Bucket(hits, k), Times(history, k), cutoff)
      {
        if k in stale {
          TimesOrdered(history, k, limit, window);
          StaleKeepsNothing(Bucket(old(hits), k), Times(history, k), cutoff);
        }
      }
    }
  }

  lemma TimesExtended<K(!new)>(history: seq<Hit<K>>, key: K, now: real)
    ensures forall k :: Times(history + [Hit(key, now)], k)
                     == if k == key then Times(history, k) + [now] else Times(history, k)
  {
    assert (history + [Hit(key, now)])[..|history|] == history;
  }

  lemma AdmitOne<K(!new)>(history: seq<Hit<K>>, limit: int, window: real, key: K, now: real)
    requires Admitted(history, limit, window) && WithinLimit(history, limit, window, key, now)
    requires forall i :: 0 <= i < |history| ==> history[i].at <= now
    ensures Admitted(history + [Hit(key, now)], limit, window)
  {
    assert (history + [Hit(key, now)])[..|history|] == history;
  }

  // A queue after popping: the remainder of the old one, with nothing older than `cutoff` in front.
  ghost predicate Evicted(before: seq<real>, after: seq<real>, cutoff: real) {
    Keeps(after, before, cutoff) && (after != [] ==> after[0] >= cutoff)
  }

  lemma StaleKeepsNothing(bucket: seq<real>, times: seq<real>, cutoff: real)
    requires Keeps(bucket, times, cutoff) && Ordered(times)
    requires bucket != [] ==> bucket[|bucket| - 1] < cutoff
    ensures Keeps([], times, cutoff)
  {
    assert bucket != [] ==> bucket[|bucket| - 1] == times[|times| - 1];
  }

  lemma KeepsAfterPopping(bucket: seq<real>, times: seq<real>, cutoff: real)
    requires Keeps(bucket, times, cutoff) && (bucket == [] || bucket[0] >= cutoff)
    ensures Evicted(times, bucket, cutoff)
  {
    hide Keeps;
  }

  lemma KeepsPopped(bucket: seq<real>, times: seq<real>, cutoff: real)
    requires Keeps(bucket, times, cutoff) && bucket != [] && bucket[0] < cutoff
    ensures Keeps(bucket[1..], times, cutoff)
  {
    var d := |times| - |bucket|;
    assert times[d..][1..] == times[d + 1..];
    assert times[d] == times[d..][0];
  }

  lemma KeepsTrans(after: seq<real>, before: seq<real>, times: seq<real>, earlier: real, cutoff: real)
    requires earlier <= cutoff && Keeps(before, times, earlier) && Keeps(after, before, cutoff)
    ensures Keeps(after, times, cutoff)
  {
    var d, e := |times| - |before|, |before| - |after|;
    assert times[d..][e..] == times[d + e..];
    forall i | 0 <= i < d + e
      ensures times[i] < cutoff
    {
      if i >= d {
        assert times[i] == before[i - d];
      }
    }
  }

  lemma KeepsAt<K(!new)>(hits: map<K, seq<real>>, history: seq<Hit<K>>, cutoff: real, key: K)
    requires KeepsAll(hits, history, cutoff)
    ensures Keeps(Bucket(hits, key), Times(history, key), cutoff)
  {
    hide Keeps, Bucket, Times;
  }

  lemma EvictedAt<K(!new)>(hits: map<K, seq<real>>, key: K, bucket: seq<real>, cutoff: real, k: K)
    requires Evicted(Bucket(hits, key), bucket, cutoff)
    ensures Keeps(Bucket(hits[key := bucket], k), Bucket(hits, k), cutoff)
  {
    if k != key {
      KeepsItself(Bucket(hits, k), cutoff);
      hide Keeps;
      assert Bucket(hits[key := bucket], k) == Bucket(hits, k);
    }
  }

  lemma KeepsItself(bucket: seq<real>, cutoff: real)
    ensures Keeps(bucket, bucket, cutoff)
  {
    assert bucket[0..] == bucket;
  }

  lemma AgedKeepsAll<K(!new)>(hits: map<K, seq<real>>, hits': map<K, seq<real>>, history: seq<Hit<K>>, key: K, bucket: seq<real>, earlier: real, cutoff: real)
    requires earlier <= cutoff && KeepsAll(hits, history, earlier)
    requires hits' == hits[key := bucket] && Evicted(Bucket(hits, key), bucket, cutoff)
    ensures KeepsAll(hits', history, cutoff)
  {
    hide Keeps, Evicted, Bucket, Times;
    forall k
      ensures Keeps(Bucket(hits', k), Times(history, k), cutoff)
    {
      AgedKeeps(hits, hits', history, key, bucket, earlier, cutoff, k);
    }
  }

  lemma AgedKeeps<K(!new)>(hits: map<K, seq<real>>, hits': map<K, seq<real>>, history: seq<Hit<K>>, key: K, bucket: seq<real>, earlier: real, cutoff: real, k: K)
    requires earlier <= cutoff && KeepsAll(hits, history, earlier)
    requires hits' == hits[key := bucket] && Evicted(Bucket(hits, key), bucket, cutoff)
    ensures Keeps(Bucket(hits', k), Times(history, k), cutoff)
  {
    hide Keeps, Evicted, Bucket, Times, KeepsAll;
    KeepsAt(hits, history, earlier, k);
    EvictedAt(hits, key, bucket, cutoff, k);
    KeepsTrans(Bucket(hits', k), Bucket(hits, k), Times(history, k), earlier, cutoff);
  }

  lemma RecordKeepsAll<K(!new)>(hits: map<K, seq<real>>, history: seq<Hit<K>>, key: K, now: real, cutoff: real)
    requires KeepsAll(hits, history, cutoff)
    ensures KeepsAll(hits[key := Bucket(hits, key) + [now]], history + [Hit(key, now)], cutoff)
  {
    TimesExtended(history, key, now);
    KeepsAppended(Bucket(hits, key), Times(history, key), cutoff, now);
  }

  lemma EvictionKept<K(!new)>(hits: map<K, seq<real>>, history: seq<Hit<K>>, limit: int, window: real, clock: real, key: K, bucket: seq<real>, now: real)
    requires Consistent(hits, history, limit, window, clock) && clock <= now
    requires Evicted(Bucket(hits, key), bucket, now - window)
    ensures Consistent(hits[key := bucket], history, limit, window, now)
    ensures |bucket| < limit <==> WithinLimit(history, limit, window, key, now)
  {
    hide Times, CountIn, Admitted;
    var hits' := hits[key := bucket];
    AgedKeepsAll(hits, hits', history, key, bucket, clock - window, now - window);
    assert Keeps(Bucket(hits', key), Times(history, key), now - window);
    MeasureBucket(history, limit, window, key, bucket, now);
  }

  lemma RecordingKept<K(!new)>(hits: map<K, seq<real>>, history: seq<Hit<K>>, limit: int, window: real, key: K, now: real)
    requires Consistent(hits, history, limit, window, now)
    requires WithinLimit(history, limit, window, key, now)
    ensures Consistent(hits[key := Bucket(hits, key) + [now]], history + [Hit(key, now)], limit, window, now)
  {
    hide Times, CountIn, Admitted;
    AdmitOne(history, limit, window, key, now);
    RecordKeepsAll(hits, history, key, now, now - window);
  }

  // After eviction the length of the queue is the count over the whole history.
  lemma MeasureBucket<K(!new)>(history: seq<Hit<K>>, limit: int, window: real, key: K, bucket: seq<real>, now: real)
    requires Admitted(history, limit, window)
    requires forall i :: 0 <= i < |history| ==> history[i].at <= now
    requires Keeps(bucket, Times(history, key), now - window)
    requires bucket != [] ==> bucket[0] >= now - window
    ensures |bucket| == CountIn(Times(history, key), now - window, now)
  {
    var times := Times(history, key);
    TimesOrdered(history, key, limit, window);
    TimesBounded(history, key, now);
    CountSuffix(times, |times| - |bucket|, now - window, now);
  }

  lemma KeepsAppended(bucket: seq<real>, times: seq<real>, cutoff: real, now: real)
    requires Keeps(bucket, times, cutoff)
    ensures Keeps(bucket + [now], times + [now], cutoff)
  {
    var d := |times| - |bucket|;
    assert (times + [now])[d..] == times[d..] + [now];
  }

  lemma {:induction false} TimesBounded<K(!new)>(history: seq<Hit<K>>, key: K, now: real)
    requires forall i :: 0 <= i < |history| ==> history[i].at <= now
    ensures forall i :: 0 <= i < |Times(history, key)| ==> Times(history, key)[i] <= now
  {
    if history != [] {
      TimesBounded(history[..|history| - 1], key, now);
    }
  }

  lemma {:induction false} TimesOrdered<K(!new)>(history: seq<Hit<K>>, key: K, limit: int, window: real)
    requires Admitted(history, limit, window)
    ensures Ordered(Times(history, key))
  {
    if history != [] {
      var n := |history| - 1;
      TimesOrdered(history[..n], key, limit, window);
      TimesBounded(history[..n], key, history[n].at);
    }
  }

  // In an ordered queue, counting the window is measuring the suffix that starts at `d`.
  lemma {:induction false} CountSuffix(times: seq<real>, d: nat, lo: real, hi: real)
    requires d <= |times| && Ordered(times)
    requires forall i :: 0 <= i < d ==> times[i] < lo
    requires forall i :: 0 <= i < |times| ==> times[i] <= hi
    requires d < |times| ==> times[d] >= lo
    ensures CountIn(times, lo, hi) == |times| - d
  {
    if times != [] {
      var n := |times| - 1;
      if d <= n {
        CountSuffix(times[..n], d, lo, hi);
      } else {
        CountSuffix(times[..n], n, lo, hi);
      }
    }
  }

  lemma CountAppended(times: seq<real>, at: real, lo: real, hi: real)
    ensures CountIn(times + [at], lo, hi) == CountIn(times, lo, hi) + (if lo <= at <= hi then 1 else 0)
  {
    assert (times + [at])[..|times|] == times;
  }

  lemma {:induction false} CountNarrower(times: seq<real>, lo: real, hi: real, lo': real, hi': real)
    requires lo' <= lo && forall i :: 0 <= i < |times| ==> times[i] <= hi'
    ensures CountIn(times, lo, hi) <= CountIn(times, lo', hi')
  {
    if times != [] {
      CountNarrower(times[..|times| - 1], lo, hi, lo', hi');
    }
  }

  // No closed window of the configured length, wherever it is placed, holds more than `limit`
  // accepted hits of one client.
  lemma {:induction false} NoWindowExceedsLimit<K(!new)>(history: seq<Hit<K>>, limit: int, window: real, key: K, lo: real)
    requires limit > 0 && Admitted(history, limit, window)
    ensures CountIn(Times(history, key), lo, lo + window) <= limit
  {
    if history != [] {
      var n := |history| - 1;
      var last := history[n];
      var earlier := Times(history[..n], key);
      assert Times(history, key) == if last.key == key then earlier + [last.at] else earlier;
      hide Times, CountIn;
      NoWindowExceedsLimit(history[..n], limit, window, key, lo);
      if last.key == key {
        CountAppended(earlier, last.at, lo, lo + window);
        if lo <= last.at <= lo + window {
          TimesBounded(history[..n], key, last.at);
          CountNarrower(earlier, lo, lo + window, last.at - window, last.at);
        }
      }
    }
  }
}
