/** What expiry, a turn and an operator's request make of a message, field by field. */
module AttemptTheorems {
  import opened Prelude
  import opened QueueTypes
  import opened Session
  import opened Lifecycle
  import opened MessageLife
  import opened MessageProofs
  import opened RetryProofs
  import BounceProofs

  // ----- Expiry -----

  predicate RunOut(d: Domain, now: Instant) {
    (d.status.Scheduled? || d.status.TemporaryFailure?) && d.expires <= now
  }

  /** Exactly the pending domains whose time is over fail for good: with their temporary failure, or for never having been tried. */
  lemma ExpiredDomainIs(m: Message, now: Instant, i: nat)
    requires i < |m.domains|
    ensures
      var d, d' := m.domains[i], Expire(m, now).domains[i];
      && (!RunOut(d, now) ==> d' == d)
      && (RunOut(d, now) ==>
            && d' == d.(status := d'.status, changed := true) && d'.status.PermanentFailure?
            && d'.status.error == if d.status.TemporaryFailure? then d.status.error else Io(RateLimitExceeded()))
  {
  }

  /** With such a domain, exactly its temporary failures become permanent ones, for the same reason. */
  lemma ExpiredRcptIs(m: Message, now: Instant, i: nat)
    requires Indexed(m) && i < |m.recipients|
    ensures
      var r, r' := m.recipients[i], Expire(m, now).recipients[i];
      if RunOut(m.domains[r.domainIdx], now) && r.status.TemporaryFailure? then r' == r.(status := PermanentFailure(r.status.error)) else r' == r
  {
  }

  // ----- A turn -----

  /** The domain and its recipients come up for delivery. */
  predicate ComesUp(d: Domain, t: Turn) {
    (d.status.Scheduled? || d.status.TemporaryFailure?) && d.retry.due <= t.begin
  }

  /** The status in which a turn without a throttle leaves its domain. */
  function TurnStatus(rs: seq<Recipient>, i: nat, t: Turn): DomainStatus
    requires !t.outcome.HeldBack?
  {
    if t.outcome.Decided? then t.outcome.status else DomainAfter(rs, i, t.outcome.script)
  }

  /**
    A worker's turns leave every domain that does not come up as it was. A throttle changes the status and, if
    it gave a time, the retry. Any other outcome is the new status; a pending one is retried after the interval
    of its attempt, the last one repeating, and counts the attempt. Notify and expiry times stay.
  */
  lemma TurnsLeaveDomain(m: Message, turns: seq<Turn>, i: nat)
    requires Indexed(m) && |turns| == |m.domains| && i < |m.domains|
    ensures
      var d, d', t := m.domains[i], Worked(m, turns, |turns|).domains[i], turns[i];
      var n := d.retry.inner;
      && (!ComesUp(d, t) ==> d' == d)
      && (ComesUp(d, t) ==> d' == d.(status := d'.status, retry := d'.retry, changed := true))
      && (ComesUp(d, t) && t.outcome.HeldBack? ==>
            && d'.status == TemporaryFailure(if t.outcome.retryAt.Some? then RateLimited else ConcurrencyLimited)
            && d'.retry == Schedule(n, if t.outcome.retryAt.Some? then t.outcome.retryAt.value else d.retry.due))
      && (ComesUp(d, t) && !t.outcome.HeldBack? ==>
            && d'.status == TurnStatus(m.recipients, i, t)
            && (d'.status.Completed? || d'.status.PermanentFailure? ==> d'.retry == d.retry)
            && (d'.status.Scheduled? || d'.status.TemporaryFailure? ==>
                  && (n + 1 < TWO_32 ==> d'.retry.inner == n + 1)
                  && (n < |t.intervals| ==> d'.retry.due == t.end + t.intervals[n])
                  && (n >= |t.intervals| ==> d'.retry.due == t.end + t.intervals[|t.intervals| - 1])))
  {
    hide Worked, DomainAfter;
    var d, t := m.domains[i], turns[i];
    WorkedDomain(m, turns, |turns|, i);
    if t.outcome.Talked? {
      BounceProofs.EarlierTurns(m, turns, i, i);
      BounceProofs.DomainAgrees(m.recipients, Worked(m, turns, i).recipients, i, t.outcome.script);
    }
  }

  /** A recipient changes only in the session of its own domain, and then as that session alone has it. */
  lemma TurnsLeaveRcpt(m: Message, turns: seq<Turn>, j: nat)
    requires Indexed(m) && |turns| == |m.domains| && j < |m.recipients|
    ensures
      var i := m.recipients[j].domainIdx;
      Worked(m, turns, |turns|).recipients[j] ==
        if ComesUp(m.domains[i], turns[i]) && turns[i].outcome.Talked?
        then RcptsAfter(m.recipients, i, turns[i].outcome.script)[j] else m.recipients[j]
  {
    hide Worked, RcptAfter;
    BounceProofs.WorkedRcpt(m, turns, |turns|, j);
  }

  /** An attempt records a try of each domain that comes up and is not held back, and of no other. */
  lemma TriesRecorded(l: Life, at: Instant, turns: seq<Turn>, finish: Instant, config: Config, i: nat)
    requires ValidConfig(config) && Enabled(l, Attempt(at, turns, finish)) && |l.tries| == |l.m.domains| && i < |l.m.domains|
    ensures |Opened(l.m, at, config).domains| == |l.m.domains|
    ensures
      var l', d, t := Next(l, Attempt(at, turns, finish), config), Opened(l.m, at, config).domains[i], turns[i];
      && |l'.tries| == |l.tries|
      && l'.tries[i] == l.tries[i] + if ComesUp(d, t) && !t.outcome.HeldBack? then [Try(at, t.begin, t.intervals)] else []
  {
    hide Opened, OpenedLog, Worked, SendDsn, LogOf, Stored, SomePending;
    AttemptTries(l, at, turns, finish, config);
  }
}
