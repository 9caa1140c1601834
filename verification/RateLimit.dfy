/** The in-memory fallback limiter (core/rate_limit.py). Clock readings are real numbers. */
module RateLimit {

  type Key = string
  type Table = map<Key, seq<real>>

  const MAX_KEYS: nat := 10000
  const STALE_AFTER: real := 86400.0

  function DegradedMax(maxReq: int): (r: nat)
    ensures r >= 1
  {
    if maxReq / 2 > 1 then maxReq / 2 else 1
  }

  function Prune(bucket: seq<real>, cutoff: real): (r: seq<real>)
    ensures |r| <= |bucket| && r == bucket[|bucket| - |r|..]
    ensures forall i :: 0 <= i < |bucket| - |r| ==> bucket[i] < cutoff
    ensures r != [] ==> r[0] >= cutoff
  {
    if bucket != [] && bucket[0] < cutoff then Prune(bucket[1..], cutoff) else bucket
  }

  function Stale(t: Table, now: real): set<Key> {
    set k | k in t && (t[k] == [] || now - t[k][|t[k]| - 1] > STALE_AFTER)
  }

  datatype Verdict = Verdict(table: Table, allowed: bool, ttl: int)

  function AtLeastOne(x: int): int { if x > 1 then x else 1 }

  /** The table a call works on: stale keys go only when a new key finds it full. */
  function Swept(t: Table, now: real, key: Key): Table {
    if key !in t && |t| >= MAX_KEYS then t - Stale(t, now) else t
  }

  /** Seconds until the oldest hit leaves the window, rounded down, at least one. */
  function Ttl(now: real, window: int, oldest: real): int { AtLeastOne((window as real - (now - oldest)).Floor) }

  datatype Decision = Decision(bucket: seq<real>, allowed: bool, ttl: int)

  /** The verdict on one bucket. */
  function Decide(bucket: seq<real>, now: real, maxReq: int, window: int): Decision {
    var recent := Prune(bucket, now - window as real);
    if |recent| >= DegradedMax(maxReq) then
      Decision(recent, false, Ttl(now, window, recent[0]))
    else Decision(recent + [now], true, 0)
  }

  function BucketOf(t: Table, key: Key): seq<real> { if key in t then t[key] else [] }

  function Allow(t: Table, now: real, key: Key, maxReq: int, window: int): Verdict {
    var t1 := Swept(t, now, key);
    if key !in t && |t| >= MAX_KEYS && |t1| >= MAX_KEYS then Verdict(t1, false, AtLeastOne(window))
    else
      var d := Decide(BucketOf(t1, key), now, maxReq, window);
      Verdict(t1[key := d.bucket], d.allowed, d.ttl)
  }

  class Limiter {
    var hits: Table

    constructor ()
      ensures hits == map[]
    {
      hits := map[];
    }

    method Sweep(now: real, key: Key)
      modifies this
      ensures hits == Swept(old(hits), now, key)
    {
      if key !in hits && |hits| >= MAX_KEYS {
        var stale := set k | k in hits && (hits[k] == [] || now - hits[k][|hits[k]| - 1] > STALE_AFTER);
        assert stale == Stale(hits, now);
        var left := stale;
        while left != {}
          invariant left <= stale
          invariant hits == old(hits) - (stale - left)
          decreases |left|
        {
          var k :| k in left;
          hits := hits - {k};
          left := left - {k};
        }
      }
    }

    static method PopOld(start: seq<real>, cutoff: real) returns (bucket: seq<real>)
      ensures bucket == Prune(start, cutoff)
    {
      bucket := start;
      while bucket != [] && bucket[0] < cutoff
        invariant Prune(bucket, cutoff) == Prune(start, cutoff)
        decreases |bucket|
      {
        bucket := bucket[1..];
      }
    }

    method FallbackAllow(now: real, key: Key, maxReq: int, window: int) returns (allowed: bool, ttl: int)
      modifies this
      ensures Verdict(hits, allowed, ttl) == Allow(old(hits), now, key, maxReq, window)
    {
      var tableFull := key !in hits && |hits| >= MAX_KEYS;
      Sweep(now, key);
      if tableFull && |hits| >= MAX_KEYS {
        return false, AtLeastOne(window);
      }
      allowed, ttl := CheckBucket(now, key, maxReq, window);
    }

    method CheckBucket(now: real, key: Key, maxReq: int, window: int) returns (allowed: bool, ttl: int)
      modifies this
      ensures
        var d := Decide(BucketOf(old(hits), key), now, maxReq, window);
        hits == old(hits)[key := d.bucket] && allowed == d.allowed && ttl == d.ttl
    {
      ghost var d := Decide(BucketOf(hits, key), now, maxReq, window);
      var bucket := PopOld(if key in hits then hits[key] else [], now - window as real);
      if |bucket| >= DegradedMax(maxReq) {
        allowed, ttl := false, Ttl(now, window, bucket[0]);
      } else {
        bucket := bucket + [now];
        allowed, ttl := true, 0;
      }
      assert d.bucket == bucket;
      ghost var before := hits;
      hits := hits[key := bucket];
      assert hits == before[key := d.bucket];
    }
  }

  // ── Whole runs ────────────────────────────────────────────────────────────────────────────

  datatype Call = Call(now: real, key: Key)
  datatype Limit = Limit(maxReq: int, window: int)
  type Limits = Key -> Limit

  function After(limits: Limits, calls: seq<Call>): Table {
    if calls == [] then map[]
    else
      var c := calls[|calls| - 1];
      var l := limits(c.key);
      Allow(After(limits, calls[..|calls| - 1]), c.now, c.key, l.maxReq, l.window).table
  }

  /** The admission times of one key, in order. */
  function Admitted(limits: Limits, calls: seq<Call>, key: Key): seq<real> {
    if calls == [] then []
    else
      var before := calls[..|calls| - 1];
      var c := calls[|calls| - 1];
      var l := limits(c.key);
      var admitted := Allow(After(limits, before), c.now, c.key, l.maxReq, l.window).allowed;
      Admitted(limits, before, key) + (if c.key == key && admitted then [c.now] else [])
  }

  ghost predicate ClockNeverRunsBack(calls: seq<Call>) {
    forall i, j :: 0 <= i < j < |calls| ==> calls[i].now <= calls[j].now
  }

  /** No `max + 1` admissions of the list fall within one window. */
  ghost predicate Spaced(times: seq<real>, max: nat, window: int) {
    forall i, j :: 0 <= i <= j < |times| && times[j] - times[i] <= window as real ==> j - i + 1 <= max
  }

  /** The bucket is the recent end of the admissions; all that is missing is from before `from`. */
  ghost predicate Recent(bucket: seq<real>, times: seq<real>, from: real) {
    && |bucket| <= |times| && bucket == times[|times| - |bucket|..]
    && forall i :: 0 <= i < |times| - |bucket| ==> times[i] < from
  }

  ghost predicate InOrder(times: seq<real>, now: real) {
    && (forall i :: 0 <= i < |times| ==> times[i] <= now)
    && (forall i, j :: 0 <= i <= j < |times| ==> times[i] <= times[j])
  }

  ghost predicate Tracks(bucket: seq<real>, times: seq<real>, now: real, max: nat, window: int) {
    && |bucket| <= max && Recent(bucket, times, now - window as real)
    && InOrder(times, now)
    && Spaced(times, max, window)
  }

  ghost predicate Inv(limits: Limits, calls: seq<Call>, now: real) {
    && |After(limits, calls)| <= MAX_KEYS
    && forall key ::
         Tracks(BucketOf(After(limits, calls), key), Admitted(limits, calls, key), now,
                DegradedMax(limits(key).maxReq), limits(key).window)
  }

  lemma PrunedIsRecent(bucket: seq<real>, times: seq<real>, from: real, later: real)
    requires Recent(bucket, times, from) && from <= later
    ensures Recent(Prune(bucket, later), times, later)
  {
    var recent := Prune(bucket, later);
    hide Prune;
    var n, m := |times| - |bucket|, |times| - |recent|;
    assert recent == times[m..];
    forall i | n <= i < m ensures times[i] < later {
      assert times[i] == bucket[i - n];
    }
  }

  lemma OrderLasts(times: seq<real>, now: real, later: real)
    requires InOrder(times, now) && now <= later
    ensures InOrder(times, later)
  {
  }

  /** Time passing and pruning keep the link. */
  lemma PruneTracks(bucket: seq<real>, times: seq<real>, now: real, later: real, max: nat, window: int)
    requires Tracks(bucket, times, now, max, window) && now <= later
    ensures Tracks(Prune(bucket, later - window as real), times, later, max, window)
  {
    hide Spaced, Recent, InOrder, Prune;
    OrderLasts(times, now, later);
    PrunedIsRecent(bucket, times, now - window as real, later - window as real);
  }

  lemma TimePasses(bucket: seq<real>, times: seq<real>, now: real, later: real, max: nat, window: int)
    requires Tracks(bucket, times, now, max, window) && now <= later
    ensures Tracks(bucket, times, later, max, window)
  {
    hide Spaced;
  }

  lemma AdmitTracks(bucket: seq<real>, times: seq<real>, now: real, max: nat, window: int)
    requires Tracks(bucket, times, now, max, window) && |bucket| < max
    ensures Tracks(bucket + [now], times + [now], now, max, window)
  {
  }

  /** An evicted key has nothing left in any window of at most a day. */
  lemma StaleTracks(bucket: seq<real>, times: seq<real>, now: real, max: nat, window: int)
    requires Tracks(bucket, times, now, max, window) && window <= 86400
    requires bucket == [] || now - bucket[|bucket| - 1] > STALE_AFTER
    ensures Tracks([], times, now, max, window)
  {
    if bucket != [] {
      assert bucket[|bucket| - 1] == times[|times| - 1];
    }
  }

  lemma SweptSize(t: Table, now: real, key: Key)
    ensures |Swept(t, now, key)| <= |t|
  {
    var t1 := Swept(t, now, key);
    SubsetSize(t1.Keys, t.Keys);
  }

  lemma {:induction false} SubsetSize(a: set<Key>, b: set<Key>)
    requires a <= b
    ensures |a| <= |b|
    decreases a
  {
    if a != {} {
      var x :| x in a;
      SubsetSize(a - {x}, b - {x});
    }
  }

  /** What a call does to the buckets: another key's is unchanged or, being stale, dropped; its own
      is decided on, unless the table is full and there is none. */
  lemma AllowBuckets(t: Table, c: Call, l: Limit, key: Key)
    ensures
      var v := Allow(t, c.now, c.key, l.maxReq, l.window);
      var b, b1 := BucketOf(t, key), BucketOf(v.table, key);
      if key != c.key then
        b1 == b || (b1 == [] && b != [] && c.now - b[|b| - 1] > STALE_AFTER)
      else
        var d := Decide(b, c.now, l.maxReq, l.window);
        (b1 == d.bucket && v.allowed == d.allowed) || (b1 == b == [] && !v.allowed)
  {
    var t1, b := Swept(t, c.now, c.key), BucketOf(t, key);
    assert BucketOf(t1, key) == b || (key != c.key && BucketOf(t1, key) == [] && key in Stale(t, c.now));
  }

  lemma DecideTracks(bucket: seq<real>, now: real, maxReq: int, window: int, times: seq<real>)
    requires Tracks(bucket, times, now, DegradedMax(maxReq), window)
    ensures
      var d := Decide(bucket, now, maxReq, window);
      Tracks(d.bucket, times + (if d.allowed then [now] else []), now, DegradedMax(maxReq), window)
  {
    var max, recent := DegradedMax(maxReq), Prune(bucket, now - window as real);
    PruneTracks(bucket, times, now, now, max, window);
    assert times + [] == times;
    if |recent| < max {
      AdmitTracks(recent, times, now, max, window);
    }
  }

  /** A call leaves the link of every other key alone ... */
  lemma OtherKeyTracks(t: Table, now: real, c: Call, l: Limit, key: Key, times: seq<real>, max: nat, window: int)
    requires key != c.key && now <= c.now && window <= 86400
    requires Tracks(BucketOf(t, key), times, now, max, window)
    ensures Tracks(BucketOf(Allow(t, c.now, c.key, l.maxReq, l.window).table, key), times, c.now, max, window)
  {
    var b, b1 := BucketOf(t, key), BucketOf(Allow(t, c.now, c.key, l.maxReq, l.window).table, key);
    TimePasses(b, times, now, c.now, max, window);
    AllowBuckets(t, c, l, key);
    if b1 != b {
      StaleTracks(b, times, c.now, max, window);
    }
  }

  /** ... and moves its own along with the verdict. */
  lemma OwnKeyTracks(t: Table, now: real, c: Call, l: Limit, times: seq<real>)
    requires now <= c.now && l.window <= 86400
    requires Tracks(BucketOf(t, c.key), times, now, DegradedMax(l.maxReq), l.window)
    ensures
      var v := Allow(t, c.now, c.key, l.maxReq, l.window);
      Tracks(BucketOf(v.table, c.key), times + (if v.allowed then [c.now] else []), c.now,
             DegradedMax(l.maxReq), l.window)
  {
    var b, max := BucketOf(t, c.key), DegradedMax(l.maxReq);
    TimePasses(b, times, now, c.now, max, l.window);
    var v := Allow(t, c.now, c.key, l.maxReq, l.window);
    var b1, times1 := BucketOf(v.table, c.key), times + (if v.allowed then [c.now] else []);
    AllowBuckets(t, c, l, c.key);
    if b1 == b == [] && !v.allowed {
      assert times1 == times;
    } else {
      DecideTracks(b, c.now, l.maxReq, l.window, times);
    }
  }

  lemma TableBounded(t: Table, c: Call, l: Limit)
    requires |t| <= MAX_KEYS
    ensures |Allow(t, c.now, c.key, l.maxReq, l.window).table| <= MAX_KEYS
  {
    SweptSize(t, c.now, c.key);
  }

  /** One more call, seen from the end of the list. */
  lemma Unrolled(limits: Limits, calls: seq<Call>, c: Call, key: Key)
    ensures
      var l := limits(c.key);
      var v := Allow(After(limits, calls), c.now, c.key, l.maxReq, l.window);
      && After(limits, calls + [c]) == v.table
      && Admitted(limits, calls + [c], key)
         == Admitted(limits, calls, key) + (if c.key == key && v.allowed then [c.now] else [])
  {
    assert (calls + [c])[..|calls|] == calls;
  }

  lemma AnyKeyTracks(t: Table, now: real, c: Call, l: Limit, key: Key, lk: Limit, times: seq<real>)
    requires now <= c.now && lk.window <= 86400 && (key == c.key ==> lk == l)
    requires Tracks(BucketOf(t, key), times, now, DegradedMax(lk.maxReq), lk.window)
    ensures
      var v := Allow(t, c.now, c.key, l.maxReq, l.window);
      Tracks(BucketOf(v.table, key), times + (if c.key == key && v.allowed then [c.now] else []), c.now,
             DegradedMax(lk.maxReq), lk.window)
  {
    if key == c.key {
      OwnKeyTracks(t, now, c, l, times);
    } else {
      OtherKeyTracks(t, now, c, l, key, times, DegradedMax(lk.maxReq), lk.window);
      assert times + [] == times;
    }
  }

  lemma KeyStep(limits: Limits, calls: seq<Call>, c: Call, now: real, key: Key)
    requires now <= c.now && limits(key).window <= 86400
    requires Tracks(BucketOf(After(limits, calls), key), Admitted(limits, calls, key), now,
                    DegradedMax(limits(key).maxReq), limits(key).window)
    ensures Tracks(BucketOf(After(limits, calls + [c]), key), Admitted(limits, calls + [c], key), c.now,
                   DegradedMax(limits(key).maxReq), limits(key).window)
  {
    Unrolled(limits, calls, c, key);
    AnyKeyTracks(After(limits, calls), now, c, limits(c.key), key, limits(key), Admitted(limits, calls, key));
  }

  lemma StepInv(limits: Limits, calls: seq<Call>, c: Call, now: real)
    requires Inv(limits, calls, now) && now <= c.now
    requires forall key :: limits(key).window <= 86400
    ensures Inv(limits, calls + [c], c.now)
  {
    assert (calls + [c])[..|calls|] == calls;
    TableBounded(After(limits, calls), c, limits(c.key));
    forall key
      ensures Tracks(BucketOf(After(limits, calls + [c]), key), Admitted(limits, calls + [c], key), c.now,
                     DegradedMax(limits(key).maxReq), limits(key).window)
    {
      KeyStep(limits, calls, c, now, key);
    }
  }

  lemma {:induction false} RunInv(limits: Limits, calls: seq<Call>)
    requires ClockNeverRunsBack(calls) && calls != []
    requires forall key :: limits(key).window <= 86400
    ensures Inv(limits, calls, calls[|calls| - 1].now)
  {
    var before, c := calls[..|calls| - 1], calls[|calls| - 1];
    assert calls == before + [c];
    if before == [] {
      assert Inv(limits, [], c.now);
      StepInv(limits, [], c, c.now);
    } else {
      RunInv(limits, before);
      StepInv(limits, before, c, before[|before| - 1].now);
    }
  }

  function CountIn(times: seq<real>, lo: real, hi: real): nat {
    if times == [] then 0
    else CountIn(times[..|times| - 1], lo, hi) + (if lo <= times[|times| - 1] <= hi then 1 else 0)
  }

  lemma {:induction false} CountTail(times: seq<real>, lo: real, hi: real, i: int)
    requires i <= |times|
    requires forall k :: 0 <= k < |times| && lo <= times[k] <= hi ==> i <= k
    ensures CountIn(times, lo, hi) <= |times| - i
  {
    if times != [] && i < |times| {
      CountTail(times[..|times| - 1], lo, hi, i);
    } else if times != [] {
      CountTail(times[..|times| - 1], lo, hi, i - 1);
    }
  }

  lemma {:induction false} SpacedCount(times: seq<real>, max: nat, window: int, lo: real)
    requires Spaced(times, max, window)
    ensures CountIn(times, lo, lo + window as real) <= max
  {
    if times != [] {
      var hi, j := lo + window as real, |times| - 1;
      if lo <= times[j] <= hi {
        assert forall k :: 0 <= k <= j && lo <= times[k] <= hi ==> times[j] - times[k] <= window as real;
        CountTail(times, lo, hi, |times| - max);
      } else {
        SpacedCount(times[..j], max, window, lo);
      }
    }
  }

  lemma InvBounds(limits: Limits, calls: seq<Call>, now: real, key: Key, lo: real)
    requires Inv(limits, calls, now)
    ensures CountIn(Admitted(limits, calls, key), lo, lo + limits(key).window as real)
            <= DegradedMax(limits(key).maxReq)
    ensures |After(limits, calls)| <= MAX_KEYS
  {
    SpacedCount(Admitted(limits, calls, key), DegradedMax(limits(key).maxReq), limits(key).window, lo);
  }

  /** The sliding-window theorem: over any run whose clock never runs back, with any mix of keys and
      any evictions, no closed interval of one window's length holds more than `max(1, max_req // 2)`
      admissions of a key, and the table never outgrows its bound. */
  lemma SlidingWindow(limits: Limits, calls: seq<Call>, key: Key, lo: real)
    requires ClockNeverRunsBack(calls)
    requires forall k :: limits(k).window <= 86400
    ensures
      var n := CountIn(Admitted(limits, calls, key), lo, lo + limits(key).window as real);
      n <= 1 || n <= limits(key).maxReq / 2
    ensures |After(limits, calls)| <= 10000
  {
    if calls != [] {
      RunInv(limits, calls);
      InvBounds(limits, calls, calls[|calls| - 1].now, key, lo);
    }
  }

  lemma {:induction false} CountSuffix(times: seq<real>, lo: real, hi: real, n: nat)
    requires n <= |times| && (forall i :: 0 <= i < n ==> times[i] < lo)
    requires forall i :: n <= i < |times| ==> lo <= times[i] <= hi
    ensures CountIn(times, lo, hi) == |times| - n
  {
    if times != [] {
      CountSuffix(times[..|times| - 1], lo, hi, if n == |times| then n - 1 else n);
    }
  }

  lemma PrunedCounts(recent: seq<real>, times: seq<real>, now: real, max: nat, window: int)
    requires Tracks(recent, times, now, max, window) && (recent != [] ==> recent[0] >= now - window as real)
    ensures CountIn(times, now - window as real, now) == |recent|
  {
    var n := |times| - |recent|;
    forall i | n <= i < |times| ensures now - window as real <= times[i] <= now {
      assert recent[0] == times[n];
    }
    CountSuffix(times, now - window as real, now, n);
  }

  lemma DecideCounts(bucket: seq<real>, times: seq<real>, now: real, maxReq: int, window: int)
    requires Tracks(bucket, times, now, DegradedMax(maxReq), window)
    ensures Decide(bucket, now, maxReq, window).allowed
            <==> CountIn(times, now - window as real, now) < DegradedMax(maxReq)
  {
    hide Tracks, CountIn;
    PruneTracks(bucket, times, now, now, DegradedMax(maxReq), window);
    PrunedCounts(Prune(bucket, now - window as real), times, now, DegradedMax(maxReq), window);
  }

  lemma AllowDecides(t: Table, now: real, key: Key, maxReq: int, window: int)
    ensures Allow(t, now, key, maxReq, window).allowed
            <==> Decide(BucketOf(t, key), now, maxReq, window).allowed
                 && (key in t || |t| < 10000 || |t - Stale(t, now)| < 10000)
  {
    hide Decide;
    assert BucketOf(Swept(t, now, key), key) == BucketOf(t, key);
  }

  lemma TracksNow(limits: Limits, calls: seq<Call>, c: Call)
    requires ClockNeverRunsBack(calls + [c])
    requires forall k :: limits(k).window <= 86400
    ensures Tracks(BucketOf(After(limits, calls), c.key), Admitted(limits, calls, c.key), c.now,
                   DegradedMax(limits(c.key).maxReq), limits(c.key).window)
  {
    if calls != [] {
      var last := calls[|calls| - 1];
      assert (calls + [c])[|calls| - 1] == last && (calls + [c])[|calls|] == c;
      assert forall i :: 0 <= i < |calls| ==> (calls + [c])[i] == calls[i];
      hide Tracks, After, Admitted;
      RunInv(limits, calls);
      TimePasses(BucketOf(After(limits, calls), c.key), Admitted(limits, calls, c.key), last.now, c.now,
                 DegradedMax(limits(c.key).maxReq), limits(c.key).window);
    }
  }

  /** Exactly which requests are admitted: those of a key with fewer than `max(1, max_req // 2)`
      admissions in the window that ends now, unless the key is new and 10000 others are not stale. */
  lemma AdmittedIff(limits: Limits, calls: seq<Call>, c: Call)
    requires ClockNeverRunsBack(calls + [c])
    requires forall k :: limits(k).window <= 86400
    ensures
      var t, l := After(limits, calls), limits(c.key);
      var n := CountIn(Admitted(limits, calls, c.key), c.now - l.window as real, c.now);
      Allow(t, c.now, c.key, l.maxReq, l.window).allowed
      <==> (n < 1 || n < l.maxReq / 2) && (c.key in t || |t| < 10000 || |t - Stale(t, c.now)| < 10000)
  {
    hide Tracks, After, Admitted, Allow, Decide, Stale, CountIn, ClockNeverRunsBack;
    var t, l := After(limits, calls), limits(c.key);
    TracksNow(limits, calls, c);
    DecideCounts(BucketOf(t, c.key), Admitted(limits, calls, c.key), c.now, l.maxReq, l.window);
    AllowDecides(t, c.now, c.key, l.maxReq, l.window);
  }

  /** What a decision leaves and answers: the hits from within the window, with this one if it was
      admitted, and otherwise the seconds until the oldest of them leaves, rounded down, at least one. */
  lemma DecisionIs(bucket: seq<real>, now: real, maxReq: int, window: int)
    ensures
      var d := Decide(bucket, now, maxReq, window);
      && (d.allowed ==> d.ttl == 0 && d.bucket != [] && d.bucket[|d.bucket| - 1] == now)
      && var kept := if d.allowed then d.bucket[..|d.bucket| - 1] else d.bucket;
         && |kept| <= |bucket| && kept == bucket[|bucket| - |kept|..]
         && (forall i :: 0 <= i < |bucket| - |kept| ==> bucket[i] < now - window as real)
         && (kept != [] ==> kept[0] >= now - window as real)
         && (d.allowed <==> |kept| < 1 || |kept| < maxReq / 2)
         && (!d.allowed ==>
               var left := window as real - (now - kept[0]);
               if left >= 1.0 then d.ttl as real <= left < (d.ttl + 1) as real else d.ttl == 1)
  {
    var recent := Prune(bucket, now - window as real);
    assert (recent + [now])[..|recent|] == recent;
  }

  lemma FullBucketWaits(bucket: seq<real>, now: real, maxReq: int, window: int, later: real)
    requires |bucket| <= DegradedMax(maxReq)
    requires !Decide(bucket, now, maxReq, window).allowed
    requires later >= now + (Decide(bucket, now, maxReq, window).ttl + 1) as real
    ensures Decide(Decide(bucket, now, maxReq, window).bucket, later, maxReq, window).allowed
  {
    var recent := Prune(bucket, now - window as real);
    var wait := window as real - (now - recent[0]);
    assert wait < (wait.Floor + 1) as real;
    assert recent[0] < later - window as real;
  }

  /** A key turned away for its own bucket gets a slot `ttl + 1` seconds later, if nothing else of
      the key is admitted in between. */
  lemma WaitingFreesASlot(t: Table, now: real, key: Key, maxReq: int, window: int, t1: Table, later: real)
    requires |BucketOf(t, key)| <= DegradedMax(maxReq) && (key in t || |t| < MAX_KEYS)
    requires !Allow(t, now, key, maxReq, window).allowed
    requires later >= now + (Allow(t, now, key, maxReq, window).ttl + 1) as real
    requires key in t1 && t1[key] == Allow(t, now, key, maxReq, window).table[key]
    ensures Allow(t1, later, key, maxReq, window).allowed
  {
    FullBucketWaits(BucketOf(t, key), now, maxReq, window, later);
  }

  /** Waiting `ttl` seconds is enough exactly when the oldest hit leaves the window within a second:
      `ttl` is rounded down, but never below one, and a hit on the window's edge still counts. */
  lemma TtlIsEnoughIff(bucket: seq<real>, now: real, maxReq: int, window: int)
    requires |bucket| <= DegradedMax(maxReq) && !Decide(bucket, now, maxReq, window).allowed
    ensures
      var d := Decide(bucket, now, maxReq, window);
      d.bucket != [] &&
      (Decide(d.bucket, now + d.ttl as real, maxReq, window).allowed <==> window as real - (now - d.bucket[0]) < 1.0)
  {
    var recent := Prune(bucket, now - window as real);
    var wait := window as real - (now - recent[0]);
    assert wait.Floor as real <= wait < (wait.Floor + 1) as real;
  }

  lemma FullHalf()
    ensures Decide([0.5], 0.75, 2, 10) == Decision([0.5], false, 9)
  {
    assert Prune([0.5], 0.75 - 10 as real) == [0.5];
    assert (10 as real - (0.75 - 0.5)).Floor == 9;
  }

  /** `ttl` alone is not enough: it is rounded down, and a hit on the window's edge still counts. */
  lemma TtlAloneIsTooShort()
    ensures
      var t: Table := map["k" := [0.5]];
      var v := Allow(t, 0.75, "k", 2, 10);
      !v.allowed && v.ttl == 9 && !Allow(v.table, 0.75 + 9.0, "k", 2, 10).allowed
  {
    FullHalf();
    TtlIsEnoughIff([0.5], 0.75, 2, 10);
    hide Decide;
    assert 9 as real == 9.0;
  }
}
