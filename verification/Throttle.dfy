/** Concurrency and rate limits of one throttle key: admission, release, and the periodic cleanup. */
module Throttle {
  import opened Prelude

  /** Seconds; rounding is not the point here. */
  type Time = real

  // ----- The token bucket -----

  datatype Bucket = Bucket(maxRequests: real, maxInterval: real, last: Time, tokens: real)

  predicate ValidBucket(b: Bucket) {
    b.maxRequests >= 1.0 && b.maxInterval > 0.0 && 0.0 <= b.tokens <= b.maxRequests
  }

  function NewBucket(maxRequests: real, maxInterval: real, now: Time): Bucket {
    Bucket(maxRequests, maxInterval, now, maxRequests)
  }

  /** What an elapsed time is worth in tokens. */
  function Refill(maxRequests: real, maxInterval: real, elapsed: real): real
    requires maxInterval > 0.0
  {
    elapsed * (maxRequests / maxInterval)
  }

  function Refilled(b: Bucket, now: Time): real
    requires b.maxInterval > 0.0
  {
    var t := b.tokens + Refill(b.maxRequests, b.maxInterval, now - b.last);
    if t > b.maxRequests then b.maxRequests else t
  }

  /** The answer to a request and the bucket afterwards: a refusal keeps the refill but not its time. */
  function Ask(b: Bucket, now: Time): (bool, Bucket)
    requires b.maxInterval > 0.0
  {
    var t := Refilled(b, now);
    if t >= 1.0 then (true, b.(last := now, tokens := t - 1.0)) else (false, b.(tokens := t))
  }

  lemma RefillIsPositive(b: Bucket, t: Time)
    requires ValidBucket(b) && b.last <= t
    ensures Refill(b.maxRequests, b.maxInterval, t - b.last) >= 0.0
  {
    var rate := b.maxRequests / b.maxInterval;
    assert rate >= 0.0;
    assert (t - b.last) * rate >= 0.0;
  }

  lemma AskKeepsValid(b: Bucket, now: Time)
    requires ValidBucket(b) && b.last <= now
    ensures ValidBucket(Ask(b, now).1) && b.last <= Ask(b, now).1.last <= now
  {
    RefillIsPositive(b, now);
  }

  /** A bucket left alone for its whole interval is full again. */
  lemma RefillsCompletely(b: Bucket, now: Time)
    requires ValidBucket(b) && now - b.last >= b.maxInterval
    ensures Refilled(b, now) == b.maxRequests
  {
    var rate := b.maxRequests / b.maxInterval;
    assert rate > 0.0;
    assert (now - b.last) * rate >= b.maxInterval * rate == b.maxRequests;
  }

  /** The refills that requests at `times` add to a bucket whose last grant stays where it is. */
  function Refills(b: Bucket, times: seq<Time>): real
    requires b.maxInterval > 0.0
  {
    if times == [] then 0.0
    else Refills(b, times[..|times| - 1]) + Refill(b.maxRequests, b.maxInterval, times[|times| - 1] - b.last)
  }

  /** Requests one after another, as far as the bucket is concerned. */
  function AskAll(b: Bucket, times: seq<Time>): (b': Bucket)
    requires b.maxInterval > 0.0
    ensures b'.maxInterval == b.maxInterval && b'.maxRequests == b.maxRequests
  {
    if times == [] then b else Ask(AskAll(b, times[..|times| - 1]), times[|times| - 1]).1
  }

  predicate SinceGrant(b: Bucket, times: seq<Time>) {
    forall i | 0 <= i < |times| :: b.last <= times[i]
  }

  lemma {:induction false} RefillsGrow(b: Bucket, times: seq<Time>)
    requires ValidBucket(b) && SinceGrant(b, times)
    ensures Refills(b, times) >= 0.0
  {
    hide Refill;
    if times != [] {
      RefillsGrow(b, times[..|times| - 1]);
      RefillIsPositive(b, times[|times| - 1]);
    }
  }

  /** While requests are refused, each one adds the whole refill since the last grant once more. */
  lemma {:induction false} RefusalsAddUp(b: Bucket, times: seq<Time>)
    requires ValidBucket(b) && SinceGrant(b, times)
    requires b.tokens + Refills(b, times) < 1.0
    ensures AskAll(b, times) == b.(tokens := b.tokens + Refills(b, times))
  {
    hide Refill;
    if times != [] {
      var rest, t := times[..|times| - 1], times[|times| - 1];
      RefillIsPositive(b, t);
      RefillsGrow(b, rest);
      RefusalsAddUp(b, rest);
    }
  }

  /** After refusals at `times`, a request at `now` is granted exactly when all the refills together reach one token. */
  lemma GrantedIff(b: Bucket, times: seq<Time>, now: Time)
    requires ValidBucket(b) && b.last <= now && SinceGrant(b, times)
    requires b.tokens + Refills(b, times) < 1.0
    ensures Ask(AskAll(b, times), now).0 <==> b.tokens + Refills(b, times + [now]) >= 1.0
  {
    hide Refill;
    RefusalsAddUp(b, times);
    RefillIsPositive(b, now);
    RefillsGrow(b, times);
    var all := times + [now];
    assert all[..|all| - 1] == times && all[|all| - 1] == now;
  }

  /** What the limit promises: the tokens left after the last grant, plus what the time since then is worth. */
  predicate Promised(b: Bucket, now: Time)
    requires b.maxInterval > 0.0
  {
    b.tokens + Refill(b.maxRequests, b.maxInterval, now - b.last) >= 1.0
  }

  /** A request is never refused against the promise, and granted against it exactly when refusals make up for the time. */
  lemma EarlyIff(b: Bucket, times: seq<Time>, now: Time)
    requires ValidBucket(b) && b.last <= now && SinceGrant(b, times)
    requires b.tokens + Refills(b, times) < 1.0
    ensures Promised(b, now) ==> Ask(AskAll(b, times), now).0
    ensures Ask(AskAll(b, times), now).0 && !Promised(b, now) <==>
      var promised := b.tokens + Refill(b.maxRequests, b.maxInterval, now - b.last);
      promised < 1.0 <= promised + Refills(b, times)
  {
    hide Refill;
    GrantedIff(b, times, now);
    RefillsGrow(b, times);
    var all := times + [now];
    assert all[..|all| - 1] == times && all[|all| - 1] == now;
  }

  /** One request in ten seconds: two refused requests at second four earn the third, six seconds early. */
  lemma EarlyGrant()
    ensures
      var b := Ask(NewBucket(1.0, 10.0, 0.0), 0.0).1;
      && !Ask(b, 4.0).0 && !Ask(AskAll(b, [4.0]), 4.0).0 && Ask(AskAll(b, [4.0, 4.0]), 4.0).0
  {
    var b := Ask(NewBucket(1.0, 10.0, 0.0), 0.0).1;
    assert b == Bucket(1.0, 10.0, 0.0, 0.0);
    assert 1.0 / 10.0 == 0.1;
    assert [4.0][..0] == [] && [4.0, 4.0][..1] == [4.0] && [4.0, 4.0, 4.0][..2] == [4.0, 4.0];
    GrantedIff(b, [], 4.0);
    assert [] + [4.0] == [4.0];
    GrantedIff(b, [4.0], 4.0);
    assert [4.0] + [4.0] == [4.0, 4.0];
    GrantedIff(b, [4.0, 4.0], 4.0);
    assert [4.0, 4.0] + [4.0] == [4.0, 4.0, 4.0];
  }

  // ----- One key of the throttle map -----

  /** What the configuration sets for the key; at least one of the two, and both positive. */
  datatype Limits = Limits(concurrency: Option<nat>, requests: Option<(real, real)>)

  predicate ValidLimits(c: Limits) {
    && (c.concurrency.Some? ==> c.concurrency.value > 0)
    && (c.requests.Some? ==> c.requests.value.0 >= 1.0 && c.requests.value.1 > 0.0)
  }

  datatype Limiter = Limiter(concurrent: nat, rate: Option<Bucket>)

  datatype Verdict = Admitted | TooMany | TooFast(retryAt: Time)

  /** `retry_at`: the interval less the whole seconds since the last grant, from now. */
  function RetryAt(b: Bucket, now: Time): Time {
    var left := b.maxInterval.Floor - (now - b.last).Floor;
    if left > 0 then now + left as real else now
  }

  /** At the time given with a refusal, within a second after the interval is over, the bucket is full again and a request is granted. */
  lemma RetryAtGrants(b: Bucket, now: Time)
    requires ValidBucket(b) && b.last <= now && b.maxInterval == b.maxInterval.Floor as real
    ensures RetryAt(b, now) >= now && (!Ask(b, now).0 ==> RetryAt(b, now) > now)
    ensures !Ask(b, now).0 ==> b.last + b.maxInterval <= RetryAt(b, now) < b.last + b.maxInterval + 1.0
    ensures !Ask(b, now).0 ==> var b' := Ask(b, now).1; RetryAt(b', now) == RetryAt(b, now) && Ask(b', RetryAt(b, now)).0
  {
    AskKeepsValid(b, now);
    var b' := Ask(b, now).1;
    if !Ask(b, now).0 {
      if now - b.last >= b.maxInterval {
        RefillsCompletely(b, now);
      }
      RefillsCompletely(b', RetryAt(b, now));
    }
  }

  /** `QueueCore::is_allowed` under the lock of the entry: a new limiter, or the checks of the existing one. */
  function Request(slot: Option<Limiter>, c: Limits, now: Time): (Verdict, bool, Limiter)
    requires ValidLimits(c)
    requires slot.Some? && slot.value.rate.Some? ==> slot.value.rate.value.maxInterval > 0.0
  {
    match slot
    case None =>
      (Admitted, c.concurrency.Some?,
       Limiter(if c.concurrency.Some? then 1 else 0,
               if c.requests.Some? then Some(Ask(NewBucket(c.requests.value.0, c.requests.value.1, now), now).1) else None))
    case Some(l) =>
      if c.concurrency.Some? && l.concurrent >= c.concurrency.value then (TooMany, false, l)
      else
        var l' := if c.concurrency.Some? then l.(concurrent := l.concurrent + 1) else l;
        if l.rate.None? then (Admitted, c.concurrency.Some?, l')
        else
          var (ok, b) := Ask(l.rate.value, now);
          (if ok then Admitted else TooFast(RetryAt(b, now)), c.concurrency.Some?, l'.(rate := Some(b)))
  }

  /** `cleanup` keeps a limiter with requests in flight or a bucket that is not yet full again. */
  predicate Busy(l: Limiter, now: Time) {
    || l.concurrent > 0
    || (l.rate.Some? && now - l.rate.value.last < l.rate.value.maxInterval)
  }

  // ----- Runs -----

  datatype Op = Asks(at: Time) | Release | Clean(at: Time)

  /** The key's slot, the guards alive, the time, and the verdicts given so far. */
  datatype State = State(slot: Option<Limiter>, guards: nat, now: Time, verdicts: seq<Verdict>)

  function Unused(now: Time): State { State(None, 0, now, []) }

  predicate Matches(slot: Option<Limiter>, c: Limits) {
    slot.Some? ==>
      && (slot.value.rate.Some? <==> c.requests.Some?)
      && (slot.value.rate.Some? ==>
            && ValidBucket(slot.value.rate.value)
            && slot.value.rate.value.maxRequests == c.requests.value.0
            && slot.value.rate.value.maxInterval == c.requests.value.1)
  }

  /** The counter is the number of guards and stays within the maximum. */
  predicate Sound(s: State, c: Limits) {
    && Matches(s.slot, c)
    && (s.slot.Some? && s.slot.value.rate.Some? ==> s.slot.value.rate.value.last <= s.now)
    && (s.slot.None? ==> s.guards == 0)
    && (s.slot.Some? ==> s.slot.value.concurrent == s.guards)
    && (c.concurrency.None? ==> s.guards == 0)
    && (c.concurrency.Some? ==> s.guards <= c.concurrency.value)
  }

  predicate CanDo(s: State, op: Op) {
    match op
    case Asks(at) => s.now <= at
    case Release => s.guards > 0
    case Clean(at) => s.now <= at
  }

  function Do(s: State, op: Op, c: Limits): State
    requires ValidLimits(c) && Sound(s, c) && CanDo(s, op)
  {
    match op
    case Asks(at) =>
      var (v, guard, l) := Request(s.slot, c, at);
      State(Some(l), if guard then s.guards + 1 else s.guards, at, s.verdicts + [v])
    case Release =>
      s.(slot := Some(s.slot.value.(concurrent := s.slot.value.concurrent - 1)), guards := s.guards - 1)
    case Clean(at) => s.(now := at, slot := if s.slot.Some? && Busy(s.slot.value, at) then s.slot else None)
  }

  lemma DoKeepsSound(s: State, op: Op, c: Limits)
    requires ValidLimits(c) && Sound(s, c) && CanDo(s, op)
    ensures Sound(Do(s, op, c), c)
  {
    if op.Asks? {
      if s.slot.Some? && s.slot.value.rate.Some? {
        AskKeepsValid(s.slot.value.rate.value, op.at);
      } else if c.requests.Some? {
        AskKeepsValid(NewBucket(c.requests.value.0, c.requests.value.1, op.at), op.at);
      }
    }
  }

  /** A run of the key: every operation possible in its turn. */
  predicate Runs(s: State, ops: seq<Op>, c: Limits)
    requires ValidLimits(c) && Sound(s, c)
    decreases |ops|
  {
    ops != [] ==> CanDo(s, ops[0]) && (DoKeepsSound(s, ops[0], c); Runs(Do(s, ops[0], c), ops[1..], c))
  }

  /** In every run the counter is the number of guards alive and within the maximum. */
  function After(s: State, ops: seq<Op>, c: Limits): (s': State)
    requires ValidLimits(c) && Sound(s, c) && Runs(s, ops, c)
    ensures Sound(s', c)
    decreases |ops|
  {
    if ops == [] then s
    else
      DoKeepsSound(s, ops[0], c);
      After(Do(s, ops[0], c), ops[1..], c)
  }

  // ----- Cleanup cannot be noticed -----

  function WithoutClean(ops: seq<Op>): seq<Op> {
    if ops == [] then [] else (if ops[0].Clean? then [] else [ops[0]]) + WithoutClean(ops[1..])
  }

  /** The same key with and without cleanups: the slots agree, or the cleaned one is gone and the other idle and full. */
  predicate Alike(a: State, b: State, c: Limits) {
    && a.guards == b.guards && a.verdicts == b.verdicts && b.now <= a.now
    && (a.slot == b.slot
        || (a.slot.None? && b.slot.Some? && b.slot.value.concurrent == 0
            && (b.slot.value.rate.Some? ==> a.now - b.slot.value.rate.value.last >= b.slot.value.rate.value.maxInterval)))
  }

  /** Recreating a limiter that was idle and full again gives the very same limiter and verdict. */
  lemma RecreatedIsSame(l: Limiter, c: Limits, now: Time)
    requires ValidLimits(c) && Matches(Some(l), c) && l.concurrent == 0
    requires l.rate.Some? ==> now - l.rate.value.last >= l.rate.value.maxInterval
    ensures Request(None, c, now) == Request(Some(l), c, now)
  {
    if l.rate.Some? {
      RefillsCompletely(l.rate.value, now);
    }
  }

  lemma StepAlike(a: State, b: State, op: Op, c: Limits)
    requires ValidLimits(c) && Sound(a, c) && Sound(b, c) && Alike(a, b, c) && CanDo(a, op)
    ensures op.Clean? ==> Alike(Do(a, op, c), b, c)
    ensures !op.Clean? ==> CanDo(b, op) && Alike(Do(a, op, c), Do(b, op, c), c)
  {
    if op.Asks? && a.slot != b.slot {
      RecreatedIsSame(b.slot.value, c, op.at);
    }
  }

  /** Leaving out every cleanup changes no verdict: dropped limiters are never missed. */
  lemma {:induction false} CleanupIsInvisible(a: State, b: State, ops: seq<Op>, c: Limits)
    requires ValidLimits(c) && Sound(a, c) && Sound(b, c) && Alike(a, b, c) && Runs(a, ops, c)
    ensures Runs(b, WithoutClean(ops), c)
    ensures After(a, ops, c).verdicts == After(b, WithoutClean(ops), c).verdicts
    decreases |ops|
  {
    if ops != [] {
      var op, rest := ops[0], ops[1..];
      DoKeepsSound(a, op, c);
      StepAlike(a, b, op, c);
      if op.Clean? {
        CleanupIsInvisible(Do(a, op, c), b, rest, c);
        assert WithoutClean(ops) == WithoutClean(rest);
      } else {
        DoKeepsSound(b, op, c);
        CleanupIsInvisible(Do(a, op, c), Do(b, op, c), rest, c);
        assert WithoutClean(ops)[0] == op && WithoutClean(ops)[1..] == WithoutClean(rest);
      }
    }
  }

  /** Over every run of a key, from before its first request. */
  lemma CleanupUnnoticed(ops: seq<Op>, c: Limits, start: Time)
    requires ValidLimits(c) && Runs(Unused(start), ops, c)
    ensures Runs(Unused(start), WithoutClean(ops), c)
    ensures After(Unused(start), ops, c).verdicts == After(Unused(start), WithoutClean(ops), c).verdicts
  {
    CleanupIsInvisible(Unused(start), Unused(start), ops, c);
  }

  // ----- The objects -----

  /** A token bucket as the server keeps it, updated by every check. */
  class RateLimiter {
    const maxRequests: real
    const maxInterval: real
    var last: Time
    var tokens: real

    ghost function View(): Bucket
      reads this
    {
      Bucket(maxRequests, maxInterval, last, tokens)
    }

    constructor (maxRequests: real, maxInterval: real, now: Time)
      ensures View() == NewBucket(maxRequests, maxInterval, now)
    {
      this.maxRequests := maxRequests;
      this.maxInterval := maxInterval;
      last, tokens := now, maxRequests;
    }

    method IsAllowed(now: Time) returns (allowed: bool)
      requires ValidBucket(View()) && last <= now
      modifies this
      ensures (allowed, View()) == Ask(old(View()), now)
      ensures ValidBucket(View()) && last <= now
    {
      hide Refill;
      AskKeepsValid(View(), now);
      tokens := tokens + Refill(maxRequests, maxInterval, now - last);
      if tokens > maxRequests {
        tokens := maxRequests;
      }
      if tokens >= 1.0 {
        last := now;
        tokens := tokens - 1.0;
        return true;
      }
      return false;
    }
  }

  /** The throttle map: one limiter for each key that was asked about and not cleaned up since. */
  class ThrottleTable<Key(==,!new)> {
    var limiters: map<Key, Limiter>

    ghost function Slot(key: Key): Option<Limiter>
      reads this
    {
      if key in limiters then Some(limiters[key]) else None
    }

    method IsAllowed(key: Key, c: Limits, now: Time) returns (verdict: Verdict, guard: bool)
      requires ValidLimits(c) && Matches(Slot(key), c)
      modifies this
      ensures key in limiters && (verdict, guard, limiters[key]) == Request(old(Slot(key)), c, now)
      ensures forall other :: other != key ==> Slot(other) == old(Slot(other))
    {
      if key !in limiters {
        var rate := None;
        if c.requests.Some? {
          rate := Some(Ask(NewBucket(c.requests.value.0, c.requests.value.1, now), now).1);
        }
        guard := c.concurrency.Some?;
        limiters := limiters[key := Limiter(if guard then 1 else 0, rate)];
        return Admitted, guard;
      }
      var l := limiters[key];
      if c.concurrency.Some? {
        if l.concurrent >= c.concurrency.value {
          return TooMany, false;
        }
        l := l.(concurrent := l.concurrent + 1);
      }
      verdict, guard := Admitted, c.concurrency.Some?;
      if l.rate.Some? {
        var (ok, b) := Ask(l.rate.value, now);
        l := l.(rate := Some(b));
        if !ok {
          verdict := TooFast(RetryAt(b, now));
        }
      }
      limiters := limiters[key := l];
    }

    /** A guard of `key` is dropped. */
    method Release(key: Key)
      requires key in limiters && limiters[key].concurrent > 0
      modifies this
      ensures key in limiters && limiters[key] == old(limiters[key]).(concurrent := old(limiters[key].concurrent) - 1)
      ensures forall other :: other != key ==> Slot(other) == old(Slot(other))
    {
      limiters := limiters[key := limiters[key].(concurrent := limiters[key].concurrent - 1)];
    }

    /** What remains is exactly what was busy or not yet full again, untouched. */
    method Cleanup(now: Time)
      modifies this
      ensures forall key ::
                var slot := old(Slot(key));
                var needed := slot.Some? &&
                  (slot.value.concurrent > 0 || (slot.value.rate.Some? && now < slot.value.rate.value.last + slot.value.rate.value.maxInterval));
                Slot(key) == if needed then slot else None
    {
      limiters := map key | key in limiters && Busy(limiters[key], now) :: limiters[key];
    }
  }
}
