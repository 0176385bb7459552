/** The login rate limiter (app/ratelimit.py): a deque of recent hits per key, pruned from the front.
    Its docstring says fixed window; the code keeps a sliding log, and that is what is proved here.
    Assumed: calls reach the lock in the order of their clock readings, settings are constant, `limit` >= 1. */
module RateLimit {
  import opened Sequences

  /** A refusal carries its Retry-After seconds (section 10.2.3 of RFC 9110; status 429, section 4 of RFC 6585). */
  datatype Decision = Admitted | Refused(retryAfter: int)

  datatype Config = Config(limit: nat, window: int)

  datatype Hit = Hit(key: string, now: real)

  // ---------------------------------------------------------------- what one call does

  predicate Stale(cfg: Config, t: real, now: real) {
    now - t > cfg.window as real
  }

  /** The deque after the prune loop. */
  function Pruned(cfg: Config, bucket: seq<real>, now: real): seq<real> {
    if bucket == [] || !Stale(cfg, bucket[0], now) then bucket else Pruned(cfg, bucket[1..], now)
  }

  /** `int(x)` truncates toward zero. */
  function Truncate(x: real): int {
    if x >= 0.0 then x.Floor else -((-x).Floor)
  }

  function RetryAfter(cfg: Config, oldest: real, now: real): int {
    Truncate(cfg.window as real - (now - oldest)) + 1
  }

  function BucketOf(hits: map<string, seq<real>>, key: string): seq<real> {
    if key in hits then hits[key] else []
  }

  /** One call on the whole table: the new table and the decision. */
  function Serve(cfg: Config, hits: map<string, seq<real>>, c: Hit): (map<string, seq<real>>, Decision)
    requires cfg.limit >= 1
  {
    var bucket := Pruned(cfg, BucketOf(hits, c.key), c.now);
    if |bucket| >= cfg.limit then (hits[c.key := bucket], Refused(RetryAfter(cfg, bucket[0], c.now)))
    else (hits[c.key := bucket + [c.now]], Admitted)
  }

  class Limiter {
    const cfg: Config
    var hits: map<string, seq<real>>

    constructor (cfg: Config)
      ensures this.cfg == cfg && hits == map[]
    {
      this.cfg := cfg;
      hits := map[];
    }

    /** `rate_limit_login`, from taking the lock on. */
    method Check(key: string, now: real) returns (decision: Decision)
      requires cfg.limit >= 1
      modifies this
      ensures (hits, decision) == Serve(cfg, old(hits), Hit(key, now))
    {
      if key !in hits {
        hits := hits[key := []];
      }
      while hits[key] != [] && now - hits[key][0] > cfg.window as real
        invariant key in hits && hits == old(hits)[key := hits[key]]
        invariant Pruned(cfg, hits[key], now) == Pruned(cfg, BucketOf(old(hits), key), now)
        decreases |hits[key]|
      {
        hits := hits[key := hits[key][1..]];
      }
      if |hits[key]| >= cfg.limit {
        return Refused(Truncate(cfg.window as real - (now - hits[key][0])) + 1);
      }
      hits := hits[key := hits[key] + [now]];
      assert hits == old(hits)[key := hits[key]];
      return Admitted;
    }
  }

  // ---------------------------------------------------------------- runs

  function Table(cfg: Config, calls: seq<Hit>): map<string, seq<real>>
    requires cfg.limit >= 1
  {
    if calls == [] then map[] else Serve(cfg, Table(cfg, Init(calls)), Last(calls)).0
  }

  /** The decision on the last call of a run. */
  function Verdict(cfg: Config, calls: seq<Hit>): Decision
    requires cfg.limit >= 1 && calls != []
  {
    Serve(cfg, Table(cfg, Init(calls)), Last(calls)).1
  }

  predicate Ordered(calls: seq<Hit>) {
    |calls| <= 1 || (Ordered(Init(calls)) && Last(Init(calls)).now <= Last(calls).now)
  }

  // ---------------------------------------------------------------- the naive limiter

  /** How many of the given hits of `key` are at most `window` old. */
  function Recent(cfg: Config, log: seq<Hit>, key: string, now: real): nat {
    if log == [] then 0
    else Recent(cfg, Init(log), key, now) + if Last(log).key == key && !Stale(cfg, Last(log).now, now) then 1 else 0
  }

  /** Every hit ever admitted by the rule that counts the full history, for all keys. */
  function History(cfg: Config, calls: seq<Hit>): seq<Hit> {
    if calls == [] then []
    else
      var log, c := History(cfg, Init(calls)), Last(calls);
      if Recent(cfg, log, c.key, c.now) < cfg.limit then log + [c] else log
  }

  /** The admitted hits of one key, in order. */
  function Times(log: seq<Hit>, key: string): seq<real> {
    if log == [] then [] else Times(Init(log), key) + if Last(log).key == key then [Last(log).now] else []
  }

  ghost predicate Sorted(s: seq<real>) {
    forall i, j :: 0 <= i < j < |s| ==> s[i] <= s[j]
  }

  /** The first `d` times are stale and the others are not. */
  ghost predicate SplitAt(cfg: Config, times: seq<real>, d: nat, now: real) {
    && d <= |times|
    && (forall i :: 0 <= i < d ==> Stale(cfg, times[i], now))
    && (forall i :: d <= i < |times| ==> !Stale(cfg, times[i], now))
  }

  /** Pruning a sorted deque drops exactly its stale part. */
  lemma {:induction false} PrunedSplits(cfg: Config, bucket: seq<real>, now: real) returns (d: nat)
    requires Sorted(bucket)
    ensures SplitAt(cfg, bucket, d, now) && Pruned(cfg, bucket, now) == bucket[d..]
  {
    if bucket == [] || !Stale(cfg, bucket[0], now) {
      d := 0;
    } else {
      d := PrunedSplits(cfg, bucket[1..], now);
      d := d + 1;
      assert forall i :: 0 < i < |bucket| ==> bucket[i] == bucket[1..][i - 1];
    }
  }

  /** The count over the full history is the length of the fresh part of the key's times. */
  lemma {:induction false} RecentCounts(cfg: Config, log: seq<Hit>, key: string, now: real, d: nat)
    requires SplitAt(cfg, Times(log, key), d, now)
    ensures Recent(cfg, log, key, now) == |Times(log, key)| - d
  {
    if log != [] {
      var rest, times := Times(Init(log), key), Times(log, key);
      assert forall i :: 0 <= i < |rest| ==> times[i] == rest[i];
      if Last(log).key == key {
        assert times[|rest|] == Last(log).now;
      }
      RecentCounts(cfg, Init(log), key, now, if d < |rest| then d else |rest|);
    }
  }

  /** The deque is the suffix of the key's admitted times left by pruning at some earlier moment. */
  ghost predicate Tracks(cfg: Config, bucket: seq<real>, times: seq<real>, now: real) {
    && Sorted(times) && (forall i :: 0 <= i < |times| ==> times[i] <= now)
    && |bucket| <= |times| && |bucket| <= cfg.limit
    && bucket == times[|times| - |bucket|..]
    && forall i :: 0 <= i < |times| - |bucket| ==> Stale(cfg, times[i], now)
  }

  lemma TracksLater(cfg: Config, bucket: seq<real>, times: seq<real>, now: real, later: real)
    requires Tracks(cfg, bucket, times, now) && now <= later
    ensures Tracks(cfg, bucket, times, later)
  {
  }

  /** Pruning keeps the deque a suffix of the times, now split exactly between stale and fresh. */
  lemma {:induction false} PrunedSuffix(cfg: Config, bucket: seq<real>, times: seq<real>, now: real)
    requires Tracks(cfg, bucket, times, now)
    ensures Tracks(cfg, Pruned(cfg, bucket, now), times, now)
    ensures SplitAt(cfg, times, |times| - |Pruned(cfg, bucket, now)|, now)
  {
    var d := |times| - |bucket|;
    assert forall i :: d <= i < |times| ==> times[i] == bucket[i - d];
    assert Sorted(bucket);
    var e := PrunedSplits(cfg, bucket, now);
    assert bucket[e..] == times[d + e..];
  }

  lemma {:induction false} PrunedTracks(cfg: Config, bucket: seq<real>, log: seq<Hit>, key: string, now: real)
    requires Tracks(cfg, bucket, Times(log, key), now)
    ensures Tracks(cfg, Pruned(cfg, bucket, now), Times(log, key), now)
    ensures Recent(cfg, log, key, now) == |Pruned(cfg, bucket, now)|
  {
    PrunedSuffix(cfg, bucket, Times(log, key), now);
    RecentCounts(cfg, log, key, now, |Times(log, key)| - |Pruned(cfg, bucket, now)|);
  }

  lemma AdmittedTracks(cfg: Config, bucket: seq<real>, times: seq<real>, now: real)
    requires Tracks(cfg, bucket, times, now) && |bucket| < cfg.limit
    ensures Tracks(cfg, bucket + [now], times + [now], now)
  {
  }

  lemma {:induction false} TimesAppend(log: seq<Hit>, c: Hit, key: string)
    ensures Times(log + [c], key) == Times(log, key) + if c.key == key then [c.now] else []
  {
    assert Init(log + [c]) == log;
  }

  /** What the deque of `key` tracks when call `c` is served. */
  lemma {:induction false} ServeTracks(cfg: Config, bucket: seq<real>, log: seq<Hit>, key: string, now: real)
    requires cfg.limit >= 1 && Tracks(cfg, bucket, Times(log, key), now)
    ensures var pruned := Pruned(cfg, bucket, now);
            if Recent(cfg, log, key, now) < cfg.limit
            then |pruned| < cfg.limit && Tracks(cfg, pruned + [now], Times(log + [Hit(key, now)], key), now)
            else |pruned| >= cfg.limit && Tracks(cfg, pruned, Times(log, key), now)
  {
    PrunedTracks(cfg, bucket, log, key, now);
    if Recent(cfg, log, key, now) < cfg.limit {
      AdmittedTracks(cfg, Pruned(cfg, bucket, now), Times(log, key), now);
      TimesAppend(log, Hit(key, now), key);
    }
  }

  /** One call rewrites the deque of its own key and no other. */
  lemma ServeDeque(cfg: Config, hits: map<string, seq<real>>, c: Hit, key: string)
    requires cfg.limit >= 1
    ensures var pruned := Pruned(cfg, BucketOf(hits, c.key), c.now);
            BucketOf(Serve(cfg, hits, c).0, key)
            == if key != c.key then BucketOf(hits, key)
               else if |pruned| >= cfg.limit then pruned else pruned + [c.now]
  {
  }

  /** One call keeps every key's deque on its history. */
  lemma StepTracks(cfg: Config, hits: map<string, seq<real>>, log: seq<Hit>, c: Hit, key: string)
    requires cfg.limit >= 1 && Tracks(cfg, BucketOf(hits, key), Times(log, key), c.now)
    ensures var log' := if Recent(cfg, log, c.key, c.now) < cfg.limit then log + [c] else log;
            Tracks(cfg, BucketOf(Serve(cfg, hits, c).0, key), Times(log', key), c.now)
  {
    ServeDeque(cfg, hits, c, key);
    if c.key == key {
      ServeTracks(cfg, BucketOf(hits, key), log, key, c.now);
    } else {
      TimesAppend(log, c, key);
    }
  }

  /** After any ordered run, every key's deque tracks the full history of that key. */
  lemma {:induction false} AlwaysTracks(cfg: Config, calls: seq<Hit>, key: string)
    requires cfg.limit >= 1 && calls != [] && Ordered(calls)
    ensures Tracks(cfg, BucketOf(Table(cfg, calls), key), Times(History(cfg, calls), key), Last(calls).now)
    decreases |calls|, 1
  {
    NextTracks(cfg, calls, key);
    StepTracks(cfg, Table(cfg, Init(calls)), History(cfg, Init(calls)), Last(calls), key);
  }

  lemma {:induction false} NextTracks(cfg: Config, calls: seq<Hit>, key: string)
    requires cfg.limit >= 1 && calls != [] && Ordered(calls)
    ensures Tracks(cfg, BucketOf(Table(cfg, Init(calls)), key), Times(History(cfg, Init(calls)), key), Last(calls).now)
    decreases |calls|, 0
  {
    var before := Init(calls);
    if before != [] {
      AlwaysTracks(cfg, before, key);
      TracksLater(cfg, BucketOf(Table(cfg, before), key), Times(History(cfg, before), key),
                  Last(before).now, Last(calls).now);
    }
  }

  /** Refinement: over every ordered run and all keys, the pruned deques decide as the full history does. */
  lemma {:induction false} DecidesAsFullHistory(cfg: Config, calls: seq<Hit>)
    requires cfg.limit >= 1 && calls != [] && Ordered(calls)
    ensures Verdict(cfg, calls).Admitted?
       <==> Recent(cfg, History(cfg, Init(calls)), Last(calls).key, Last(calls).now) < cfg.limit
  {
    var before, c := Init(calls), Last(calls);
    NextTracks(cfg, calls, c.key);
    PrunedTracks(cfg, BucketOf(Table(cfg, before), c.key), History(cfg, before), c.key, c.now);
  }

  /** The hits that the limiter itself admitted, for all keys. */
  function AdmittedHits(cfg: Config, calls: seq<Hit>): seq<Hit>
    requires cfg.limit >= 1
  {
    if calls == [] then []
    else AdmittedHits(cfg, Init(calls)) + if Verdict(cfg, calls).Admitted? then [Last(calls)] else []
  }

  /** Over a whole run, the deques admit exactly the hits that counting the full history admits. */
  lemma {:induction false} AdmitsTheHistory(cfg: Config, calls: seq<Hit>)
    requires cfg.limit >= 1 && Ordered(calls)
    ensures AdmittedHits(cfg, calls) == History(cfg, calls)
  {
    if calls != [] {
      AdmitsTheHistory(cfg, Init(calls));
      DecidesAsFullHistory(cfg, calls);
    }
  }

  // ---------------------------------------------------------------- the bound

  /** Hits `limit` places apart in a key's history are strictly more than `window` apart. */
  ghost predicate Spaced(cfg: Config, times: seq<real>) {
    forall i {:trigger times[i]} :: 0 <= i && i + cfg.limit < |times| ==> Stale(cfg, times[i], times[i + cfg.limit])
  }

  lemma {:induction false} HistorySpaced(cfg: Config, calls: seq<Hit>, key: string)
    requires cfg.limit >= 1 && Ordered(calls)
    ensures Spaced(cfg, Times(History(cfg, calls), key))
  {
    if calls != [] {
      var before, c := Init(calls), Last(calls);
      HistorySpaced(cfg, before, key);
      NextTracks(cfg, calls, key);
      StepSpaced(cfg, BucketOf(Table(cfg, before), key), History(cfg, before), c, key);
    }
  }

  /** Hits of a key that the limiter admitted `limit` places apart are strictly more than `window` apart. */
  lemma {:induction false} AdmittedSpaced(cfg: Config, calls: seq<Hit>, key: string)
    requires cfg.limit >= 1 && Ordered(calls)
    ensures Spaced(cfg, Times(AdmittedHits(cfg, calls), key))
  {
    AdmitsTheHistory(cfg, calls);
    HistorySpaced(cfg, calls, key);
  }

  lemma {:induction false} StepSpaced(cfg: Config, bucket: seq<real>, log: seq<Hit>, c: Hit, key: string)
    requires Tracks(cfg, bucket, Times(log, key), c.now) && Spaced(cfg, Times(log, key))
    ensures Recent(cfg, log, c.key, c.now) < cfg.limit ==> Spaced(cfg, Times(log + [c], key))
  {
    TimesAppend(log, c, key);
    if c.key == key && Recent(cfg, log, key, c.now) < cfg.limit {
      PrunedTracks(cfg, bucket, log, key, c.now);
      SpacedAppend(cfg, Pruned(cfg, bucket, c.now), Times(log, key), c.now);
    }
  }

  lemma SpacedAppend(cfg: Config, bucket: seq<real>, times: seq<real>, now: real)
    requires Tracks(cfg, bucket, times, now) && Spaced(cfg, times) && |bucket| < cfg.limit
    ensures Spaced(cfg, times + [now])
  {
    forall i | 0 <= i && i + cfg.limit < |times + [now]|
      ensures Stale(cfg, (times + [now])[i], (times + [now])[i + cfg.limit])
    {
      assert (times + [now])[i] == times[i];
    }
  }

  /** How many of the times lie in the closed interval from `start` to `end`. */
  function Within(times: seq<real>, start: real, end: real): nat {
    if times == [] then 0
    else Within(Init(times), start, end) + if start <= Last(times) <= end then 1 else 0
  }

  lemma {:induction false} WithinCounts(times: seq<real>, start: real, end: real)
    ensures Within(times, start, end) == |set i | 0 <= i < |times| && start <= times[i] <= end|
  {
    if times != [] {
      var last, rest := |times| - 1, Init(times);
      WithinCounts(rest, start, end);
      assert (set i | 0 <= i < |times| && start <= times[i] <= end)
          == (set i | 0 <= i < |rest| && start <= rest[i] <= end)
             + (if start <= times[last] <= end then {last} else {});
    }
  }

  /** If the last time is not past the interval, the ones inside are the last ones. */
  lemma {:induction false} WithinIsSuffix(times: seq<real>, start: real, end: real)
    requires Sorted(times) && (times == [] || Last(times) <= end)
    ensures Within(times, start, end) <= |times|
    ensures forall i :: |times| - Within(times, start, end) <= i < |times| ==> start <= times[i]
  {
    if times != [] {
      assert Init(times) != [] ==> Last(Init(times)) <= Last(times);
      WithinIsSuffix(Init(times), start, end);
      assert forall i :: 0 <= i < |times| - 1 ==> Init(times)[i] <= Last(times);
    }
  }

  lemma {:induction false} SpacedBound(cfg: Config, times: seq<real>, start: real)
    requires cfg.limit >= 1 && Sorted(times) && Spaced(cfg, times)
    ensures Within(times, start, start + cfg.window as real) <= cfg.limit
  {
    if times != [] {
      var end := start + cfg.window as real;
      if Last(times) > end {
        assert forall i :: 0 <= i < |times| - 1 ==> Init(times)[i] == times[i];
        assert Spaced(cfg, Init(times));
        SpacedBound(cfg, Init(times), start);
      } else {
        WithinIsSuffix(times, start, end);
        var i := |times| - 1 - cfg.limit;
        assert i >= 0 ==> Stale(cfg, times[i], times[i + cfg.limit]);
      }
    }
  }

  /** Over any run, any closed interval of length `window` holds at most `limit` hits of a key that were admitted. */
  lemma {:induction false} WindowBound(cfg: Config, calls: seq<Hit>, key: string, start: real)
    requires cfg.limit >= 1 && Ordered(calls)
    ensures var times := Times(AdmittedHits(cfg, calls), key);
            |set i | 0 <= i < |times| && start <= times[i] <= start + cfg.window as real| <= cfg.limit
  {
    AdmittedSpaced(cfg, calls, key);
    AdmittedSorted(cfg, calls, key);
    CountBound(cfg, Times(AdmittedHits(cfg, calls), key), start);
  }

  lemma {:induction false} CountBound(cfg: Config, times: seq<real>, start: real)
    requires cfg.limit >= 1 && Sorted(times) && Spaced(cfg, times)
    ensures |set i | 0 <= i < |times| && start <= times[i] <= start + cfg.window as real| <= cfg.limit
  {
    SpacedBound(cfg, times, start);
    BoundCounts(times, start, start + cfg.window as real, cfg.limit);
  }

  lemma {:induction false} BoundCounts(times: seq<real>, start: real, end: real, bound: nat)
    requires Within(times, start, end) <= bound
    ensures |set i | 0 <= i < |times| && start <= times[i] <= end| <= bound
  {
    WithinCounts(times, start, end);
  }

  lemma {:induction false} AdmittedSorted(cfg: Config, calls: seq<Hit>, key: string)
    requires cfg.limit >= 1 && Ordered(calls)
    ensures Sorted(Times(AdmittedHits(cfg, calls), key))
  {
    AdmitsTheHistory(cfg, calls);
    if calls != [] {
      AlwaysTracks(cfg, calls, key);
    }
  }

  // ---------------------------------------------------------------- Retry-After

  /** No hit of `key` is admitted by the calls after the first `k`. */
  ghost predicate NoneAdmittedSince(cfg: Config, calls: seq<Hit>, k: nat, key: string)
    requires cfg.limit >= 1
  {
    |calls| <= k || (NoneAdmittedSince(cfg, Init(calls), k, key)
                     && (Last(calls).key == key ==> Verdict(cfg, calls).Refused?))
  }

  /** A full deque that still refuses has lost nothing. */
  lemma {:induction false} RefusalKeepsFull(cfg: Config, bucket: seq<real>, now: real)
    requires cfg.limit >= 1 && |bucket| <= cfg.limit && |Pruned(cfg, bucket, now)| >= cfg.limit
    ensures Pruned(cfg, bucket, now) == bucket && |bucket| == cfg.limit && !Stale(cfg, bucket[0], now)
  {
    PrunedShorter(cfg, bucket, now);
  }

  lemma {:induction false} PrunedShorter(cfg: Config, bucket: seq<real>, now: real)
    ensures |Pruned(cfg, bucket, now)| <= |bucket|
    ensures bucket != [] && Stale(cfg, bucket[0], now) ==> |Pruned(cfg, bucket, now)| < |bucket|
  {
    if bucket != [] && Stale(cfg, bucket[0], now) {
      PrunedShorter(cfg, bucket[1..], now);
    }
  }

  /** Between a refusal and the next admission of its key, the key's deque does not change. */
  lemma {:induction false} DequeWaits(cfg: Config, calls: seq<Hit>, k: nat, key: string)
    requires cfg.limit >= 1 && Ordered(calls) && 0 < k <= |calls|
    requires calls[k - 1].key == key && Verdict(cfg, calls[..k]).Refused?
    requires NoneAdmittedSince(cfg, calls, k, key)
    ensures BucketOf(Table(cfg, calls), key) == BucketOf(Table(cfg, calls[..k]), key)
    ensures |BucketOf(Table(cfg, calls), key)| == cfg.limit
    decreases |calls|
  {
    var before, c := Init(calls), Last(calls);
    DequesAreShort(cfg, before, key);
    if k == |calls| {
      assert calls[..k] == calls;
      RefusalKeepsDeque(cfg, Table(cfg, before), c);
    } else {
      assert before[..k] == calls[..k];
      DequeWaits(cfg, before, k, key);
      if c.key == key {
        RefusalKeepsDeque(cfg, Table(cfg, before), c);
      }
    }
  }

  lemma {:induction false} DequesAreShort(cfg: Config, calls: seq<Hit>, key: string)
    requires cfg.limit >= 1 && Ordered(calls)
    ensures |BucketOf(Table(cfg, calls), key)| <= cfg.limit
  {
    if calls != [] {
      AlwaysTracks(cfg, calls, key);
    }
  }

  /** A refusal leaves the deque as it was, and it was full. */
  lemma RefusalKeepsDeque(cfg: Config, hits: map<string, seq<real>>, c: Hit)
    requires cfg.limit >= 1 && |BucketOf(hits, c.key)| <= cfg.limit && Serve(cfg, hits, c).1.Refused?
    ensures BucketOf(Serve(cfg, hits, c).0, c.key) == BucketOf(hits, c.key)
    ensures |BucketOf(hits, c.key)| == cfg.limit
  {
    RefusalKeepsFull(cfg, BucketOf(hits, c.key), c.now);
  }

  /** Retry-After is the least whole number of seconds after which the oldest hit is stale. */
  lemma RetryAfterExact(cfg: Config, oldest: real, now: real, wait: nat)
    requires oldest <= now && !Stale(cfg, oldest, now)
    ensures 1 <= RetryAfter(cfg, oldest, now) <= cfg.window + 1
    ensures Stale(cfg, oldest, now + wait as real) <==> wait >= RetryAfter(cfg, oldest, now)
  {
    var left := cfg.window as real - (now - oldest);
    assert left.Floor as real <= left < (left.Floor + 1) as real;
    if wait <= left.Floor {
      assert wait as real <= left.Floor as real;
    } else {
      assert wait as real >= (left.Floor + 1) as real;
    }
  }

  /** A full deque admits after `wait` seconds exactly when its oldest hit is stale by then. */
  lemma FullDequeWaits(cfg: Config, bucket: seq<real>, now: real, wait: nat)
    requires cfg.limit >= 1 && |bucket| == cfg.limit && bucket[0] <= now && !Stale(cfg, bucket[0], now)
    ensures 1 <= RetryAfter(cfg, bucket[0], now) <= cfg.window + 1
    ensures |Pruned(cfg, bucket, now + wait as real)| < cfg.limit <==> wait >= RetryAfter(cfg, bucket[0], now)
  {
    RetryAfterExact(cfg, bucket[0], now, wait);
    PrunedShorter(cfg, bucket, now + wait as real);
  }

  /** After a refusal at `now` (the k-th call), with no other hit of the key admitted meanwhile, a call a whole
      number of seconds later is admitted exactly when that number is at least the Retry-After it was given. */
  lemma {:induction false} RetryAfterIsExact(cfg: Config, calls: seq<Hit>, k: nat, wanted: int, wait: nat)
    requires cfg.limit >= 1 && Ordered(calls) && 0 < k <= |calls|
    requires Verdict(cfg, calls[..k]) == Refused(wanted) && NoneAdmittedSince(cfg, calls, k, calls[k - 1].key)
    ensures 1 <= wanted <= cfg.window + 1
    ensures var later := Hit(calls[k - 1].key, calls[k - 1].now + wait as real);
            Verdict(cfg, calls + [later]).Admitted? <==> wait >= wanted
  {
    var bucket := WaitingDeque(cfg, calls, k, wanted);
    NextAfterFull(cfg, calls, calls[k - 1], bucket, wanted, wait);
  }

  lemma {:induction false} NextAfterFull(
      cfg: Config, calls: seq<Hit>, refused: Hit, bucket: seq<real>, wanted: int, wait: nat)
    requires cfg.limit >= 1 && bucket == BucketOf(Table(cfg, calls), refused.key) && |bucket| == cfg.limit
    requires bucket[0] <= refused.now && !Stale(cfg, bucket[0], refused.now)
    requires wanted == RetryAfter(cfg, bucket[0], refused.now)
    ensures 1 <= wanted <= cfg.window + 1
    ensures Verdict(cfg, calls + [Hit(refused.key, refused.now + wait as real)]).Admitted? <==> wait >= wanted
  {
    FullDequeWaits(cfg, bucket, refused.now, wait);
    VerdictOfNext(cfg, calls, Hit(refused.key, refused.now + wait as real));
  }

  lemma WaitingDeque(cfg: Config, calls: seq<Hit>, k: nat, wanted: int) returns (bucket: seq<real>)
    requires cfg.limit >= 1 && Ordered(calls) && 0 < k <= |calls|
    requires Verdict(cfg, calls[..k]) == Refused(wanted) && NoneAdmittedSince(cfg, calls, k, calls[k - 1].key)
    ensures bucket == BucketOf(Table(cfg, calls), calls[k - 1].key) && |bucket| == cfg.limit
    ensures bucket[0] <= calls[k - 1].now && !Stale(cfg, bucket[0], calls[k - 1].now)
    ensures wanted == RetryAfter(cfg, bucket[0], calls[k - 1].now)
  {
    DequeWaits(cfg, calls, k, calls[k - 1].key);
    OrderedPrefix(calls, k);
    bucket := BucketOf(Table(cfg, calls), calls[k - 1].key);
    RefusedBucket(cfg, calls[..k], bucket);
  }

  lemma {:induction false} VerdictOfNext(cfg: Config, calls: seq<Hit>, c: Hit)
    requires cfg.limit >= 1
    ensures var bucket := BucketOf(Table(cfg, calls), c.key);
            Verdict(cfg, calls + [c]).Admitted? <==> |Pruned(cfg, bucket, c.now)| < cfg.limit
  {
    assert Init(calls + [c]) == calls;
  }

  lemma {:induction false} OrderedPrefix(calls: seq<Hit>, k: nat)
    requires Ordered(calls) && k <= |calls|
    ensures Ordered(calls[..k])
  {
    if k == |calls| {
      assert calls[..k] == calls;
    } else {
      OrderedPrefix(Init(calls), k);
      assert Init(calls)[..k] == calls[..k];
    }
  }

  /** The refusal was computed from the oldest hit of the deque it left. */
  lemma {:induction false} RefusedBucket(cfg: Config, calls: seq<Hit>, bucket: seq<real>)
    requires cfg.limit >= 1 && calls != [] && Ordered(calls) && Verdict(cfg, calls).Refused?
    requires bucket == BucketOf(Table(cfg, calls), Last(calls).key)
    ensures bucket != [] && bucket[0] <= Last(calls).now && !Stale(cfg, bucket[0], Last(calls).now)
    ensures Verdict(cfg, calls).retryAfter == RetryAfter(cfg, bucket[0], Last(calls).now)
  {
    var before, c := Init(calls), Last(calls);
    AlwaysTracks(cfg, calls, c.key);
    if before != [] {
      AlwaysTracks(cfg, before, c.key);
    }
    RefusalKeepsFull(cfg, BucketOf(Table(cfg, before), c.key), c.now);
  }
}
