/** When a key of the throttle map admits a request, over every run of the key. */
module ThrottleTheorems {
  import opened Prelude
  import opened Throttle

  /** The state after a run of the key from before its first request. */
  predicate Reached(start: Time, ops: seq<Op>, c: Limits, s: State)
    requires ValidLimits(c)
  {
    Runs(Unused(start), ops, c) && s == After(Unused(start), ops, c)
  }

  lemma ReachedSound(start: Time, ops: seq<Op>, c: Limits, s: State)
    requires ValidLimits(c) && Reached(start, ops, c, s)
    ensures Sound(s, c)
  {
  }

  /** The answer to a request at `at`, the last verdict recorded. */
  function Answer(s: State, c: Limits, at: Time): Verdict
    requires ValidLimits(c) && Sound(s, c) && s.now <= at
  {
    var v := Do(s, Asks(at), c).verdicts;
    if |v| > 0 then v[|v| - 1] else Admitted
  }

  /** The tokens that a request at `at` finds: those left and the refill since the last grant, up to the maximum. */
  function Tokens(s: State, c: Limits, at: Time): real
    requires ValidLimits(c) && Sound(s, c) && c.requests.Some?
  {
    var (max, interval) := c.requests.value;
    if s.slot.None? then max
    else
      var b := s.slot.value.rate.value;
      var t := b.tokens + (at - b.last) * (max / interval);
      if t > max then max else t
  }

  /**
    In every run a request is answered `TooMany` if and only if the guards alive reach the limit on them,
    `TooFast` if and only if they do not and less than a token is there, and otherwise it is admitted.
    Unless it was too many, it adds a guard wherever guards are limited.
  */
  lemma AdmittedIff(start: Time, ops: seq<Op>, c: Limits, s: State, at: Time)
    requires ValidLimits(c) && Reached(start, ops, c, s) && s.now <= at
    ensures Sound(s, c) && Do(s, Asks(at), c).verdicts == s.verdicts + [Answer(s, c, at)]
    ensures Answer(s, c, at).TooMany? <==> c.concurrency == Some(s.guards)
    ensures Answer(s, c, at).TooFast? <==> c.concurrency != Some(s.guards) && c.requests.Some? && Tokens(s, c, at) < 1.0
    ensures Do(s, Asks(at), c).guards == s.guards + if c.concurrency.Some? && c.concurrency != Some(s.guards) then 1 else 0
  {
    hide Runs, After, Refilled, Refill;
    ReachedSound(start, ops, c, s);
    if c.requests.Some? {
      var (max, interval) := c.requests.value;
      NewRefill(max, interval, at);
      if s.slot.Some? {
        TokensFound(s, c, at);
      }
    }
  }

  lemma NewRefill(max: real, interval: real, now: Time)
    requires max >= 1.0 && interval > 0.0
    ensures Refilled(NewBucket(max, interval, now), now) == max
  {
  }

  /** Dropping a guard makes one less, in every run that has one. */
  lemma ReleasedIsFree(start: Time, ops: seq<Op>, c: Limits, s: State)
    requires ValidLimits(c) && Reached(start, ops, c, s) && s.guards > 0
    ensures Sound(s, c) && Do(s, Release, c).guards == s.guards - 1
    ensures !Answer(Do(s, Release, c), c, s.now).TooMany?
  {
    ReachedSound(start, ops, c, s);
    DoKeepsSound(s, Release, c);
  }

  // ----- Bursts -----

  /** `n` requests at the same time. */
  function Burst(at: Time, n: nat): seq<Op> { seq(n, _ => Asks(at)) }

  function AllAdmitted(n: nat): seq<Verdict> { seq(n, _ => Admitted) }

  lemma {:induction false} RunExtends(s: State, ops: seq<Op>, op: Op, c: Limits)
    requires ValidLimits(c) && Sound(s, c) && Runs(s, ops, c) && CanDo(After(s, ops, c), op)
    ensures Runs(s, ops + [op], c) && After(s, ops + [op], c) == Do(After(s, ops, c), op, c)
    decreases |ops|
  {
    hide Do, CanDo, Sound, ValidLimits;
    if ops == [] {
      assert ops + [op] == [op];
      DoKeepsSound(s, op, c);
      assert [op][1..] == [];
    } else {
      DoKeepsSound(s, ops[0], c);
      RunExtends(Do(s, ops[0], c), ops[1..], op, c);
      assert (ops + [op])[1..] == ops[1..] + [op];
    }
  }

  lemma BurstStep(at: Time, n: nat)
    ensures Burst(at, n + 1) == Burst(at, n) + [Asks(at)] && AllAdmitted(n + 1) == AllAdmitted(n) + [Admitted]
  {
  }

  /** With `max` allowed at once and no rate, `max` requests in a row are admitted, and one more is too many. */
  lemma {:induction false} GuardBurst(at: Time, max: nat, n: nat)
    requires n <= max && max > 0
    ensures
      var c := Limits(Some(max), None);
      Runs(Unused(at), Burst(at, n), c)
      && var s := After(Unused(at), Burst(at, n), c); s.verdicts == AllAdmitted(n) && s.guards == n && s.now == at
    decreases n
  {
    var c := Limits(Some(max), None);
    if n > 0 {
      GuardBurst(at, max, n - 1);
      var ops := Burst(at, n - 1);
      var s := After(Unused(at), ops, c);
      BurstStep(at, n - 1);
      RunExtends(Unused(at), ops, Asks(at), c);
      AdmittedIff(at, ops, c, s, at);
    }
  }

  lemma OneMoreGuard(at: Time, max: nat)
    requires max > 0
    ensures
      var c := Limits(Some(max), None);
      && Runs(Unused(at), Burst(at, max), c) && After(Unused(at), Burst(at, max), c).now == at
      && Answer(After(Unused(at), Burst(at, max), c), c, at) == TooMany
  {
    GuardBurst(at, max, max);
    AdmittedIff(at, Burst(at, max), Limits(Some(max), None), After(Unused(at), Burst(at, max), Limits(Some(max), None)), at);
  }

  /** With `max` in an interval, `max` requests at once are admitted. */
  lemma {:induction false} RateBurst(at: Time, max: nat, interval: real, n: nat)
    requires n <= max && max > 0 && interval > 0.0
    ensures
      var c := Limits(None, Some((max as real, interval)));
      Runs(Unused(at), Burst(at, n), c)
      && var s := After(Unused(at), Burst(at, n), c);
         s.verdicts == AllAdmitted(n) && s.now == at && Tokens(s, c, at) == (max - n) as real
    decreases n
  {
    var c := Limits(None, Some((max as real, interval)));
    if n > 0 {
      RateBurst(at, max, interval, n - 1);
      var ops := Burst(at, n - 1);
      var s := After(Unused(at), ops, c);
      BurstStep(at, n - 1);
      RunExtends(Unused(at), ops, Asks(at), c);
      AdmittedIff(at, ops, c, s, at);
      TokensAtOnce(s, c, at);
    }
  }

  /** An admitted request takes one token. */
  lemma TokensAtOnce(s: State, c: Limits, at: Time)
    requires ValidLimits(c) && Sound(s, c) && s.now == at && c.requests.Some? && Tokens(s, c, at) >= 1.0
    requires c.concurrency != Some(s.guards)
    ensures Sound(Do(s, Asks(at), c), c) && Tokens(Do(s, Asks(at), c), c, at) == Tokens(s, c, at) - 1.0
  {
    DoKeepsSound(s, Asks(at), c);
    var (max, interval) := c.requests.value;
    hide Refilled, Refill;
    if s.slot.Some? {
      TokensFound(s, c, at);
    } else {
      NewRefill(max, interval, at);
    }
    var s' := Do(s, Asks(at), c);
    var b' := s'.slot.value.rate.value;
    assert b'.last == at && b'.tokens == Tokens(s, c, at) - 1.0;
    TokensFound(s', c, at);
    NoRefillAtOnce(b');
  }

  lemma NoRefillAtOnce(b: Bucket)
    requires ValidBucket(b)
    ensures Refilled(b, b.last) == b.tokens
  {
  }

  lemma TokensFound(s: State, c: Limits, at: Time)
    requires ValidLimits(c) && Sound(s, c) && c.requests.Some? && s.slot.Some?
    ensures Refilled(s.slot.value.rate.value, at) == Tokens(s, c, at)
  {
  }

  /** And one more at the same time is too fast. */
  lemma OneMoreTooFast(at: Time, max: nat, interval: real)
    requires max > 0 && interval > 0.0
    ensures
      var c := Limits(None, Some((max as real, interval)));
      && Runs(Unused(at), Burst(at, max), c) && After(Unused(at), Burst(at, max), c).now == at
      && Answer(After(Unused(at), Burst(at, max), c), c, at).TooFast?
  {
    RateBurst(at, max, interval, max);
    var c := Limits(None, Some((max as real, interval)));
    AdmittedIff(at, Burst(at, max), c, After(Unused(at), Burst(at, max), c), at);
  }

  /**
    The time given with a refusal is later, within a second after an interval since the last grant, and a
    request at that time is not too fast again.
  */
  lemma RetryIsHonoured(start: Time, ops: seq<Op>, c: Limits, s: State, at: Time)
    requires ValidLimits(c) && Reached(start, ops, c, s) && s.now <= at
    requires c.requests.Some? && c.requests.value.1 == c.requests.value.1.Floor as real
    ensures Sound(s, c)
    ensures Answer(s, c, at).TooFast? ==>
              var s', retryAt := Do(s, Asks(at), c), Answer(s, c, at).retryAt;
              && Sound(s', c) && s'.now < retryAt && !Answer(s', c, retryAt).TooFast?
              && s.slot.Some? && var due := s.slot.value.rate.value.last + c.requests.value.1; due <= retryAt < due + 1.0
  {
    ReachedSound(start, ops, c, s);
    DoKeepsSound(s, Asks(at), c);
    if Answer(s, c, at).TooFast? {
      RetryAtGrants(s.slot.value.rate.value, at);
    }
  }
}
