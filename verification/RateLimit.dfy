/**
 The fixed-window rate limiter of backend/src/auth.rs, and what its fixed windows
 promise about sliding ones.
 */
module RateLimit {
  import opened Wrappers
  import opened Decimals

  /** Instants and durations in nanoseconds. */
  const SECOND: nat := 1_000_000_000

  datatype Bucket = Bucket(started: nat, count: nat)

  datatype Call = Call(key: string, limit: nat, window: nat, now: nat)

  /** The bucket in which a call would be counted. */
  function BucketFor(bucket: Option<Bucket>, call: Call): Bucket {
    if bucket.Some? && SaturatingSub(call.now, bucket.value.started) < call.window then bucket.value
        else Bucket(call.now, 0)
  }

  function Current(buckets: map<string, Bucket>, call: Call): Bucket {
    BucketFor(Get(buckets, call.key), call)
  }

  predicate Admits(buckets: map<string, Bucket>, call: Call) {
    Current(buckets, call).count < call.limit
  }

  function After(buckets: map<string, Bucket>, call: Call): map<string, Bucket> {
    var bucket := Current(buckets, call);
    buckets[call.key := if bucket.count < call.limit then bucket.(count := bucket.count + 1) else bucket]
  }

  /** Whole seconds a refused caller is told to wait. */
  function RetryAfter(buckets: map<string, Bucket>, call: Call): nat {
    var seconds := SaturatingSub(call.window, SaturatingSub(call.now, Current(buckets, call).started)) / SECOND;
    if seconds < 1 then 1 else seconds
  }

  class RateLimiter {
    var buckets: map<string, Bucket>

    constructor ()
      ensures buckets == map[]
    {
      buckets := map[];
    }

    method Check(key: string, limit: nat, window: nat, now: nat) returns (retryAfter: Option<nat>)
      modifies this
      ensures buckets == After(old(buckets), Call(key, limit, window, now))
      ensures retryAfter.None? <==> Admits(old(buckets), Call(key, limit, window, now))
      ensures retryAfter.Some? ==> retryAfter.value == RetryAfter(old(buckets), Call(key, limit, window, now))
    {
      if key !in buckets {
        buckets := buckets[key := Bucket(now, 0)];
      }
      if SaturatingSub(now, buckets[key].started) >= window {
        buckets := buckets[key := Bucket(now, 0)];
      }
      if buckets[key].count >= limit {
        var elapsed := SaturatingSub(now, buckets[key].started);
        var seconds := SaturatingSub(window, elapsed) / SECOND;
        return Some(if seconds < 1 then 1 else seconds);
      }
      buckets := buckets[key := buckets[key].(count := buckets[key].count + 1)];
      return None;
    }
  }

  // ---- one answer, told by the bucket's own numbers ---------------------------------

  /** The key's window is still running. */
  predicate IsLive(buckets: map<string, Bucket>, call: Call) {
    call.key in buckets && call.window > 0 && call.now < buckets[call.key].started + call.window
  }

  /** What is left of the window that counts the call, in nanoseconds. */
  function LeftOf(buckets: map<string, Bucket>, call: Call): nat {
    if IsLive(buckets, call) && buckets[call.key].started < call.now
    then buckets[call.key].started + call.window - call.now
    else call.window
  }

  lemma CurrentMeans(buckets: map<string, Bucket>, call: Call)
    ensures Current(buckets, call) == if IsLive(buckets, call) then buckets[call.key] else Bucket(call.now, 0)
  {
  }

  /** When a call is admitted, what it leaves in the buckets, and what a refused caller is told. */
  lemma AnswerMeans(buckets: map<string, Bucket>, call: Call)
    ensures Admits(buckets, call)
            <==> call.limit > 0 && (IsLive(buckets, call) ==> buckets[call.key].count < call.limit)
    ensures var counted := if Admits(buckets, call) then 1 else 0;
            After(buckets, call)
            == buckets[call.key := if IsLive(buckets, call)
                                   then Bucket(buckets[call.key].started, buckets[call.key].count + counted)
                                   else Bucket(call.now, counted)]
    ensures var wait, left := RetryAfter(buckets, call), LeftOf(buckets, call);
            if left < 2_000_000_000 then wait == 1 else wait * 1_000_000_000 <= left < (wait + 1) * 1_000_000_000
  {
    CurrentMeans(buckets, call);
  }

  // ---- whole runs ---------------------------------------------------------------

  function Front(calls: seq<Call>): seq<Call>
    requires calls != []
  {
    calls[..|calls| - 1]
  }

  function Last(calls: seq<Call>): Call
    requires calls != []
  {
    calls[|calls| - 1]
  }

  /** The limiter's state after a run of checks on a fresh limiter. */
  function Run(calls: seq<Call>): map<string, Bucket> {
    if calls == [] then map[] else After(Run(Front(calls)), Last(calls))
  }

  predicate LastAdmitted(calls: seq<Call>)
    requires calls != []
  {
    Admits(Run(Front(calls)), Last(calls))
  }

  /** Calls accepted for a key at times in the half-open interval [from, to). */
  function Accepted(calls: seq<Call>, key: string, from: nat, to: nat): nat {
    if calls == [] then 0
    else Accepted(Front(calls), key, from, to)
         + (if Last(calls).key == key && from <= Last(calls).now < to && LastAdmitted(calls) then 1 else 0)
  }

  function LastTime(calls: seq<Call>): nat {
    if calls == [] then 0 else Last(calls).now
  }

  /** Check times never go back. */
  predicate Ordered(calls: seq<Call>) {
    calls == [] || (Ordered(Front(calls)) && LastTime(Front(calls)) <= Last(calls).now)
  }

  /** Every check of this key uses this limit and window; other keys may use any. */
  predicate Governed(calls: seq<Call>, key: string, limit: nat, window: nat) {
    calls == [] || (Governed(Front(calls), key, limit, window)
                    && (Last(calls).key == key ==> Last(calls).limit == limit && Last(calls).window == window))
  }

  lemma {:induction false} AcceptedSplits(calls: seq<Call>, key: string, from: nat, mid: nat, to: nat)
    requires from <= mid <= to
    ensures Accepted(calls, key, from, to) == Accepted(calls, key, from, mid) + Accepted(calls, key, mid, to)
  {
    if calls != [] {
      AcceptedSplits(Front(calls), key, from, mid, to);
    }
  }

  lemma {:induction false} NothingLater(calls: seq<Call>, key: string, from: nat, to: nat)
    requires Ordered(calls) && (LastTime(calls) < from || to <= from)
    ensures Accepted(calls, key, from, to) == 0
  {
    if calls != [] {
      NothingLater(Front(calls), key, from, to);
    }
  }

  /** What is known of a key's bucket after a run. */
  ghost predicate Tracks(calls: seq<Call>, key: string, limit: nat, window: nat, from: nat, to: nat) {
    if key in Run(calls) then
      var b := Run(calls)[key];
      && b.started <= LastTime(calls) && b.count <= limit
      && Accepted(calls, key, b.started, to) <= b.count
      && Accepted(calls, key, b.started + window, to) == 0
      && (limit > 0 ==> Accepted(calls, key, b.started, b.started + 1) > 0)
      && (from + window > b.started ==> Accepted(calls, key, from, b.started) <= SaturatingSub(limit, 1))
    else Accepted(calls, key, from, to) == 0
  }

  lemma {:induction false} RunTracks(calls: seq<Call>, key: string, limit: nat, window: nat, from: nat, to: nat)
    requires Ordered(calls) && Governed(calls, key, limit, window) && window > 0
    ensures Tracks(calls, key, limit, window, from, to)
    decreases |calls|, 1
  {
    if calls != [] {
      RunTracks(Front(calls), key, limit, window, from, to);
      if Last(calls).key == key {
        TrackStep(calls, key, limit, window, from, to);
      }
    }
  }

  lemma TrackStep(calls: seq<Call>, key: string, limit: nat, window: nat, from: nat, to: nat)
    requires calls != [] && Ordered(calls) && Governed(calls, key, limit, window) && window > 0
    requires Last(calls).key == key
    requires Tracks(Front(calls), key, limit, window, from, to)
    ensures Tracks(calls, key, limit, window, from, to)
    decreases |calls|, 0
  {
    var was, call := Front(calls), Last(calls);
    if key !in Run(was) {
      RunTracks(was, key, limit, window, from, call.now);
      RunTracks(was, key, limit, window, call.now, to);
      RunTracks(was, key, limit, window, call.now + window, to);
    } else if SaturatingSub(call.now, Run(was)[key].started) >= window {
      var s := Run(was)[key].started;
      NothingBeyond(was, key, limit, window, call.now, to);
      NothingBeyond(was, key, limit, window, call.now + window, to);
      if from + window > call.now {
        RunTracks(was, key, limit, window, from, call.now);
        if from <= call.now {
          AcceptedSplits(was, key, s, from, call.now);
          AcceptedSplits(was, key, s, s + 1, from);
        } else {
          NothingLater(was, key, from, call.now);
        }
      }
    }
  }

  /** Nothing was accepted past the end of the key's bucket. */
  lemma NothingBeyond(calls: seq<Call>, key: string, limit: nat, window: nat, from: nat, to: nat)
    requires Ordered(calls) && Governed(calls, key, limit, window) && window > 0
    requires key in Run(calls) && Run(calls)[key].started + window <= from
    ensures Accepted(calls, key, from, to) == 0
    decreases |calls|, 2
  {
    RunTracks(calls, key, limit, window, from, to);
    if from <= to {
      AcceptedSplits(calls, key, Run(calls)[key].started + window, from, to);
    } else {
      NothingBackwards(calls, key, from, to);
    }
  }

  lemma {:induction false} NothingBackwards(calls: seq<Call>, key: string, from: nat, to: nat)
    requires to <= from
    ensures Accepted(calls, key, from, to) == 0
  {
    if calls != [] {
      NothingBackwards(Front(calls), key, from, to);
    }
  }

  /**
   The most a key can be accepted in one sliding window: windows of one nanosecond hold one bucket,
   longer ones parts of two.
   */
  function SlidingBound(limit: nat, window: nat): nat {
    if window == 0 then 0 else if window == 1 then limit else SaturatingSub(2 * limit, 1)
  }

  /** In any half-open interval one window long a key gets less than twice its limit. */
  lemma {:induction false} LessThanTwiceTheLimit(calls: seq<Call>, key: string, limit: nat, window: nat, from: nat)
    requires Ordered(calls) && Governed(calls, key, limit, window)
    ensures Accepted(calls, key, from, from + window) <= SlidingBound(limit, window)
  {
    if window == 0 {
      NothingBackwards(calls, key, from, from);
    } else if calls != [] {
      LessThanTwiceTheLimit(Front(calls), key, limit, window, from);
      if Last(calls).key == key && from <= Last(calls).now < from + window && LastAdmitted(calls) {
        RunTracks(calls, key, limit, window, from, from + window);
        var s := Run(calls)[key].started;
        if from <= s {
          AcceptedSplits(calls, key, from, s, from + window);
          if from == s {
            NothingBackwards(calls, key, from, s);
          }
        } else {
          AcceptedSplits(calls, key, s, from, from + window);
        }
      }
    }
  }

  // ---- the bound is reached -------------------------------------------------------

  /** A run that ends by `now`, and the key's bucket after it. */
  ghost predicate Leaves(calls: seq<Call>, call: Call, bucket: Option<Bucket>) {
    && Ordered(calls) && LastTime(calls) <= call.now
    && Governed(calls, call.key, call.limit, call.window)
    && Get(Run(calls), call.key) == bucket
  }

  lemma NoCallsLeaveNothing(call: Call)
    ensures Leaves([], call, None)
  {
  }

  lemma OneAccepted(calls: seq<Call>, call: Call, bucket: Option<Bucket>, from: nat, to: nat)
    requires Leaves(calls, call, bucket) && BucketFor(bucket, call).count < call.limit
    ensures var b := BucketFor(bucket, call); Leaves(calls + [call], call, Some(Bucket(b.started, b.count + 1)))
    ensures Accepted(calls + [call], call.key, from, to)
            == Accepted(calls, call.key, from, to) + (if from <= call.now < to then 1 else 0)
  {
    assert Front(calls + [call]) == calls && Last(calls + [call]) == call;
  }

  lemma SameBucket(b: Bucket, count: nat, call: Call)
    requires call.window > 0 && SaturatingSub(call.now, b.started) < call.window
    ensures BucketFor(Some(Bucket(b.started, count)), call) == Bucket(b.started, count)
  {
  }

  /** Calls made at one instant are all accepted while the bucket has room. */
  lemma {:induction false} BurstIsAccepted(calls: seq<Call>, call: Call, bucket: Option<Bucket>, n: nat, from: nat,
      to: nat)
      returns (more: seq<Call>)
    requires Leaves(calls, call, bucket) && call.window > 0 && n > 0 && BucketFor(bucket, call).count + n <= call.limit
    ensures var b := BucketFor(bucket, call); Leaves(more, call, Some(Bucket(b.started, b.count + n)))
    ensures Accepted(more, call.key, from, to)
            == Accepted(calls, call.key, from, to) + (if from <= call.now < to then n else 0)
  {
    if n == 1 {
      OneAccepted(calls, call, bucket, from, to);
      more := calls + [call];
    } else {
      var b := BucketFor(bucket, call);
      var most := BurstIsAccepted(calls, call, bucket, n - 1, from, to);
      SameBucket(b, b.count + n - 1, call);
      OneAccepted(most, call, Some(Bucket(b.started, b.count + n - 1)), from, to);
      more := most + [call];
    }
  }

  /** One call opens a bucket at once, and the others fill it in its last nanosecond. */
  lemma FilledLate(first: Call, to: nat) returns (calls: seq<Call>)
    requires first.now == 0 && first.limit > 0 && first.window > 1 && first.window <= to
    ensures Leaves(calls, first.(now := first.window - 1), Some(Bucket(0, first.limit)))
    ensures Accepted(calls, first.key, first.window - 1, to) == first.limit - 1
  {
    var from, late := first.window - 1, first.(now := first.window - 1);
    NoCallsLeaveNothing(first);
    calls := BurstIsAccepted([], first, None, 1, from, to);
    assert Leaves(calls, late, Some(Bucket(0, 1)));
    if first.limit > 1 {
      calls := BurstIsAccepted(calls, late, Some(Bucket(0, 1)), first.limit - 1, from, to);
    }
  }

  /**
   No smaller bound holds, for any positive limit and window: after a bucket filled late the next one
   is filled at once.
   */
  lemma SlidingBoundIsReached(key: string, limit: nat, window: nat) returns (calls: seq<Call>, from: nat)
    requires limit > 0 && window > 0
    ensures Ordered(calls) && Governed(calls, key, limit, window)
    ensures Accepted(calls, key, from, from + window) == SlidingBound(limit, window)
  {
    var first := Call(key, limit, window, 0);
    if window == 1 {
      from := 0;
      NoCallsLeaveNothing(first);
      calls := BurstIsAccepted([], first, None, limit, 0, 1);
    } else {
      from := window - 1;
      calls := FilledLate(first, from + window);
      var next := first.(now := window);
      assert Leaves(calls, next, Some(Bucket(0, limit)))
             && BucketFor(Some(Bucket(0, limit)), next) == Bucket(window, 0);
      calls := BurstIsAccepted(calls, next, Some(Bucket(0, limit)), limit, from, from + window);
    }
  }

  lemma {:induction false} EarlierStarts(calls: seq<Call>, key: string, limit: nat, window: nat, n: nat)
    requires Ordered(calls) && Governed(calls, key, limit, window) && window > 0 && n <= |calls|
    requires key in Run(calls[..n])
    ensures key in Run(calls)
    ensures Run(calls[..n])[key].started == Run(calls)[key].started
            || Run(calls[..n])[key].started + window <= Run(calls)[key].started
  {
    if n == |calls| {
      assert calls[..n] == calls;
    } else {
      assert Front(calls)[..n] == calls[..n];
      EarlierStarts(Front(calls), key, limit, window, n);
    }
  }

  /** Every bucket the key ever had, seen from the end of the run, accepted at most the limit in its own window. */
  lemma {:induction false} AtMostTheLimitPerBucket(calls: seq<Call>, key: string, limit: nat, window: nat, n: nat)
    requires Ordered(calls) && Governed(calls, key, limit, window) && n <= |calls|
    requires key in Run(calls[..n])
    ensures var s := Run(calls[..n])[key].started; Accepted(calls, key, s, s + window) <= limit
  {
    var s := Run(calls[..n])[key].started;
    if window == 0 {
      NothingBackwards(calls, key, s, s);
    } else if n == |calls| {
      assert calls[..n] == calls;
      RunTracks(calls, key, limit, window, s, s + window);
    } else {
      assert Front(calls)[..n] == calls[..n];
      AtMostTheLimitPerBucket(Front(calls), key, limit, window, n);
      EarlierStarts(calls, key, limit, window, n);
      RunTracks(calls, key, limit, window, s, s + window);
    }
  }

  // ---- keys do not affect each other ----------------------------------------------

  function Only(calls: seq<Call>, key: string): seq<Call> {
    if calls == [] then []
    else if Last(calls).key == key then Only(Front(calls), key) + [Last(calls)]
    else Only(Front(calls), key)
  }

  lemma OwnBucketDecides(some: map<string, Bucket>, other: map<string, Bucket>, call: Call)
    requires Get(some, call.key) == Get(other, call.key)
    ensures Admits(some, call) == Admits(other, call) && RetryAfter(some, call) == RetryAfter(other, call)
    ensures Get(After(some, call), call.key) == Get(After(other, call), call.key)
  {
  }

  lemma {:induction false} OnlyOwnCallsMatter(calls: seq<Call>, key: string)
    ensures Get(Run(calls), key) == Get(Run(Only(calls, key)), key)
  {
    if calls != [] {
      OnlyOwnCallsMatter(Front(calls), key);
      if Last(calls).key == key {
        var mine := Only(Front(calls), key);
        assert Front(mine + [Last(calls)]) == mine;
        OwnBucketDecides(Run(Front(calls)), Run(mine), Last(calls));
      }
    }
  }

  /** A key's answers are those it would get if no other key had ever been checked. */
  lemma KeysAreIndependent(calls: seq<Call>, call: Call)
    ensures Admits(Run(calls), call) == Admits(Run(Only(calls, call.key)), call)
    ensures RetryAfter(Run(calls), call) == RetryAfter(Run(Only(calls, call.key)), call)
  {
    OnlyOwnCallsMatter(calls, call.key);
    OwnBucketDecides(Run(calls), Run(Only(calls, call.key)), call);
  }

  // ---- waiting ----------------------------------------------------------------------

  predicate Idle(calls: seq<Call>, key: string) {
    forall i :: 0 <= i < |calls| ==> calls[i].key != key
  }

  lemma {:induction false} IdleKeepsBucket(buckets: map<string, Bucket>, calls: seq<Call>, key: string)
    requires Idle(calls, key)
    ensures Get(RunFrom(buckets, calls), key) == Get(buckets, key)
  {
    if calls != [] {
      IdleKeepsBucket(buckets, Front(calls), key);
    }
  }

  function RunFrom(buckets: map<string, Bucket>, calls: seq<Call>): map<string, Bucket> {
    if calls == [] then buckets else After(RunFrom(buckets, Front(calls)), Last(calls))
  }

  /** The time still left of the window in which a call was refused. */
  function Remaining(buckets: map<string, Bucket>, call: Call): nat {
    SaturatingSub(call.window, SaturatingSub(call.now, Current(buckets, call).started))
  }

  /**
   A refused key, left idle, is accepted again exactly when the rest of its window has passed and the
   limit is positive.
   */
  lemma AcceptedAgainWhen(buckets: map<string, Bucket>, refused: Call, between: seq<Call>, later: Call)
    requires !Admits(buckets, refused) && Idle(between, refused.key)
    requires refused.key in buckets ==> buckets[refused.key].started <= refused.now
    requires later == refused.(now := later.now) && refused.now <= later.now
    ensures Admits(RunFrom(After(buckets, refused), between), later)
            <==> refused.limit > 0 && later.now - refused.now >= Remaining(buckets, refused)
  {
    IdleKeepsBucket(After(buckets, refused), between, refused.key);
    assert Get(After(buckets, refused), refused.key) == Some(Current(buckets, refused));
    if refused.limit > 0 {
      assert Current(buckets, refused).count > 0;
    }
  }

  lemma SecondsOf(d: nat)
    ensures d / SECOND * SECOND <= d < (d / SECOND + 1) * SECOND
    ensures d % SECOND == 0 <==> d / SECOND * SECOND == d
    ensures d / SECOND == 0 <==> d < SECOND
  {
  }

  /** The advertised wait plus one second is always enough. */
  lemma AdvertisedWaitPlusOne(buckets: map<string, Bucket>, refused: Call, between: seq<Call>, later: Call)
    requires !Admits(buckets, refused) && Idle(between, refused.key) && refused.limit > 0
    requires refused.key in buckets ==> buckets[refused.key].started <= refused.now
    requires later == refused.(now := later.now)
    requires later.now >= refused.now + (RetryAfter(buckets, refused) + 1) * SECOND
    ensures Admits(RunFrom(After(buckets, refused), between), later)
  {
    SecondsOf(Remaining(buckets, refused));
    AcceptedAgainWhen(buckets, refused, between, later);
  }

  /** The advertised wait alone is enough exactly when the rest of the window is no fraction above whole seconds. */
  lemma AdvertisedWaitAlone(buckets: map<string, Bucket>, refused: Call, between: seq<Call>, later: Call)
    requires !Admits(buckets, refused) && Idle(between, refused.key) && refused.limit > 0
    requires refused.key in buckets ==> buckets[refused.key].started <= refused.now
    requires later == refused.(now := refused.now + RetryAfter(buckets, refused) * SECOND)
    ensures Admits(RunFrom(After(buckets, refused), between), later)
            <==> Remaining(buckets, refused) < SECOND || Remaining(buckets, refused) % SECOND == 0
  {
    SecondsOf(Remaining(buckets, refused));
    AcceptedAgainWhen(buckets, refused, between, later);
  }

  /** Refused 0.5 s into a 10 s window, told 9 s, and refused again after waiting 9 s. */
  lemma AdvertisedWaitCanFallShort()
    ensures var first := Call("k", 1, 10 * SECOND, 0);
            var second := first.(now := SECOND / 2);
            && !Admits(Run([first]), second) && RetryAfter(Run([first]), second) == 9
            && !Admits(Run([first, second]), first.(now := second.now + 9 * SECOND))
  {
    var first := Call("k", 1, 10 * SECOND, 0);
    var second := first.(now := SECOND / 2);
    assert Front([first, second]) == [first] && Front([first]) == [];
    assert Run([first]) == map["k" := Bucket(0, 1)];
  }
}
