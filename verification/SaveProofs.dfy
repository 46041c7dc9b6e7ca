/** Which steps of a message's life the queue file can follow: everything they change must carry its dirty mark. */
module SaveProofs {
  import opened Prelude
  import opened QueueTypes
  import opened Session
  import opened Lifecycle
  import opened Journal
  import opened MessageLife
  import opened MessageProofs
  import opened RetryProofs

  predicate DomainMarked(d: Domain, d': Domain) {
    && d'.domain == d.domain && d'.expires == d.expires
    && (!d'.changed ==> d' == d.(changed := false))
  }

  predicate RcptMarked(r: Recipient, r': Recipient) {
    && r'.(status := r.status, flags := r.flags) == r
    && (!r'.flags.statusChanged ==> r' == r)
  }

  lemma TrackedIsMarked(m: Message, m': Message)
    requires m'.(domains := m.domains, recipients := m.recipients) == m
    requires |m'.domains| == |m.domains| && |m'.recipients| == |m.recipients|
    ensures Tracked(m, m') <==>
      && (forall i | 0 <= i < |m.domains| :: DomainMarked(m.domains[i], m'.domains[i]))
      && (forall i | 0 <= i < |m.recipients| :: RcptMarked(m.recipients[i], m'.recipients[i]))
  {
  }

  /** A message as the last save left it. */
  predicate Saved(m: Message) {
    && Indexed(m)
    && (forall i | 0 <= i < |m.domains| :: !m.domains[i].changed)
    && (forall i | 0 <= i < |m.recipients| :: !m.recipients[i].flags.statusChanged)
  }

  /** A recipient that wants no reports and whose temporary failure becomes permanent: nothing marks that change. */
  predicate SlipsThrough(m: Message, i: nat, now: Instant)
    requires Indexed(m) && i < |m.recipients|
  {
    Silent(m.recipients[i]) && m.recipients[i].status.TemporaryFailure? && Expires(DomainOf(m, m.recipients[i]), now)
  }

  lemma ReportedDomain(m: Message, now: Instant, config: Config, i: nat)
    requires Indexed(m) && m.returnPath != [] && i < |m.domains|
    ensures |SendDsn(m, now, config).0.domains| == |m.domains|
    ensures
      var d := SendDsn(m, now, config).0.domains[i];
      d == m.domains[i] || d == NextNotify(m.domains[i], now, config.notify(m.domains[i].domain))
  {
    hide Notices, HasDelay, NextNotify;
  }

  lemma ExpiredAndNotified(d: Domain, at: Instant, now: Instant, intervals: Intervals)
    requires !d.changed
    ensures DomainMarked(d, ExpiredDomain(d, at)) && DomainMarked(d, NextNotify(ExpiredDomain(d, at), now, intervals))
  {
    hide RateLimitExceeded;
  }

  lemma OpenedDomainMarked(m: Message, at: Instant, config: Config, i: nat)
    requires Saved(m) && m.returnPath != [] && i < |m.domains|
    ensures |Opened(m, at, config).domains| == |m.domains| && DomainMarked(m.domains[i], Opened(m, at, config).domains[i])
  {
    hide SendDsn, ExpiredDomain, NextNotify, DomainMarked, ExpiredRcpt;
    ExpireIndexed(m, at);
    var m1 := Expire(m, at);
    assert m1.domains[i] == ExpiredDomain(m.domains[i], at);
    ReportedDomain(m1, at, config, i);
    ExpiredAndNotified(m.domains[i], at, at, config.notify(m1.domains[i].domain));
  }

  lemma OpenedRcptMarked(m: Message, at: Instant, config: Config, i: nat)
    requires Saved(m) && m.returnPath != [] && i < |m.recipients|
    ensures |Opened(m, at, config).recipients| == |m.recipients|
    ensures RcptMarked(m.recipients[i], Opened(m, at, config).recipients[i]) <==> !SlipsThrough(m, i, at)
    ensures SlipsThrough(m, i, at) ==> Silent(Opened(m, at, config).recipients[i]) && Opened(m, at, config).recipients[i].status.PermanentFailure?
  {
    hide Notices, HasDelay, NoticeFor;
    var m1 := Expire(m, at);
    assert m1.recipients[i] == ExpiredRcpt(m.recipients[i], m.domains, at);
    assert m1.domains[m.recipients[i].domainIdx] == ExpiredDomain(m.domains[m.recipients[i].domainIdx], at);
  }

  lemma OpenedRest(m: Message, at: Instant, config: Config)
    requires Indexed(m)
    ensures
      var m' := Opened(m, at, config);
      m'.(domains := m.domains, recipients := m.recipients) == m && |m'.domains| == |m.domains| && |m'.recipients| == |m.recipients|
  {
    hide Notices, HasDelay;
  }

  /** The save after a visit records everything that changed, unless a temporary failure slips through. */
  lemma VisitIsTracked(m: Message, at: Instant, config: Config)
    requires Saved(m) && m.returnPath != []
    ensures Tracked(m, Opened(m, at, config)) <==> forall i | 0 <= i < |m.recipients| :: !SlipsThrough(m, i, at)
  {
    hide Opened, SlipsThrough, Tracked, RcptMarked, DomainMarked;
    OpenedRest(m, at, config);
    TrackedIsMarked(m, Opened(m, at, config));
    forall i | 0 <= i < |m.domains| ensures DomainMarked(m.domains[i], Opened(m, at, config).domains[i]) {
      OpenedDomainMarked(m, at, config, i);
    }
    forall i | 0 <= i < |m.recipients|
      ensures RcptMarked(m.recipients[i], Opened(m, at, config).recipients[i]) <==> !SlipsThrough(m, i, at)
    {
      OpenedRcptMarked(m, at, config, i);
    }
  }

  /** Cancelling marks every recipient and domain that it changes. */
  lemma CancelIsTracked(m: Message, chosen: set<nat>, response: HostResponse<Text>)
    requires Saved(m)
    ensures Tracked(m, Cancel(m, chosen, response))
  {
  }

  /** An operator request for a retry is recorded exactly when it moves no expiry time, which only the header holds. */
  lemma AskRetryIsTracked(m: Message, chosen: set<nat>, time: Instant)
    requires Saved(m)
    ensures Tracked(m, OperatorRetry(m, chosen, time)) <==>
      forall i | 0 <= i < |m.domains| && i in chosen && m.domains[i].status.Pending() && m.domains[i].expires > time ::
        m.domains[i].expires == time + TEN_SECONDS
  {
    var m' := OperatorRetry(m, chosen, time);
    forall i | 0 <= i < |m.domains| ensures m'.domains[i] == RetriedDomain(m.domains[i], i, chosen, time) {
    }
  }

  // ----- Attempts -----

  lemma TurnMarks(m0: Message, m: Message, i: nat, t: Turn)
    requires i < |m.domains|
    requires |m0.domains| == |m.domains| && |m0.recipients| == |m.recipients|
    requires forall j | 0 <= j < |m.domains| :: DomainMarked(m0.domains[j], m.domains[j])
    ensures
      var m' := TakeTurn(m, i, t);
      && (forall j | 0 <= j < |m.domains| :: DomainMarked(m0.domains[j], m'.domains[j]))
      && (forall j | 0 <= j < |m.recipients| ::
            && (RcptMarked(m0.recipients[j], m.recipients[j]) ==> RcptMarked(m0.recipients[j], m'.recipients[j]))
            && (m.recipients[j].status.Terminal() ==> m'.recipients[j] == m.recipients[j]))
      && m'.(domains := m.domains, recipients := m.recipients) == m
  {
    hide DomainAfter, RcptsAfter, Interval;
    var m' := TakeTurn(m, i, t);
    forall j | 0 <= j < |m.recipients|
      ensures RcptMarked(m0.recipients[j], m.recipients[j]) ==> RcptMarked(m0.recipients[j], m'.recipients[j])
      ensures m.recipients[j].status.Terminal() ==> m'.recipients[j] == m.recipients[j]
    {
      if t.outcome.Talked? {
        SameLength(m.recipients, i, t.outcome.script);
        SessionTouchesOnlyWaiting(m.recipients, i, t.outcome.script, j);
      }
    }
  }

  lemma {:induction false} WorkedMarks(m0: Message, m: Message, turns: seq<Turn>, n: nat)
    requires n <= |m.domains| && |turns| == |m.domains|
    requires |m0.domains| == |m.domains| && |m0.recipients| == |m.recipients|
    requires forall j | 0 <= j < |m.domains| :: DomainMarked(m0.domains[j], m.domains[j])
    ensures
      var m' := Worked(m, turns, n);
      && (forall j | 0 <= j < |m.domains| :: DomainMarked(m0.domains[j], m'.domains[j]))
      && (forall j | 0 <= j < |m.recipients| ::
            && (RcptMarked(m0.recipients[j], m.recipients[j]) ==> RcptMarked(m0.recipients[j], m'.recipients[j]))
            && (m.recipients[j].status.Terminal() ==> m'.recipients[j] == m.recipients[j]))
      && m'.(domains := m.domains, recipients := m.recipients) == m
  {
    hide DomainMarked, RcptMarked, TakeTurn;
    if n > 0 {
      WorkedMarks(m0, m, turns, n - 1);
      TurnMarks(m0, Worked(m, turns, n - 1), n - 1, turns[n - 1]);
    }
  }

  lemma DsnMarks(m0: Message, m: Message, now: Instant, config: Config)
    requires Indexed(m) && m.returnPath != []
    requires |m0.domains| == |m.domains| && |m0.recipients| == |m.recipients|
    requires forall j | 0 <= j < |m.domains| :: DomainMarked(m0.domains[j], m.domains[j])
    ensures
      var m' := SendDsn(m, now, config).0;
      && |m'.domains| == |m.domains| && |m'.recipients| == |m.recipients|
      && (forall j | 0 <= j < |m.domains| :: DomainMarked(m0.domains[j], m'.domains[j]))
      && (forall j | 0 <= j < |m.recipients| ::
            && (RcptMarked(m0.recipients[j], m.recipients[j]) ==> RcptMarked(m0.recipients[j], m'.recipients[j]))
            && (Silent(m.recipients[j]) ==> m'.recipients[j] == m.recipients[j]))
      && m'.(domains := m.domains, recipients := m.recipients) == m
  {
    hide Notices, HasDelay, NoticeFor;
    var m' := SendDsn(m, now, config).0;
    forall j | 0 <= j < |m.domains| ensures DomainMarked(m0.domains[j], m'.domains[j]) {
      assert m'.domains[j] == m.domains[j] || m'.domains[j] == NextNotify(m.domains[j], now, config.notify(m.domains[j].domain));
    }
  }

  /** The same holds of the save that ends a delivery attempt. */
  lemma AttemptIsTracked(m: Message, at: Instant, turns: seq<Turn>, finish: Instant, config: Config)
    requires ValidConfig(config) && Saved(m) && m.returnPath != [] && |turns| == |m.domains|
    ensures |Opened(m, at, config).domains| == |turns|
    ensures Indexed(Worked(Opened(m, at, config), turns, |turns|))
    ensures Tracked(m, SendDsn(Worked(Opened(m, at, config), turns, |turns|), finish, config).0)
       <==> forall i | 0 <= i < |m.recipients| :: !SlipsThrough(m, i, at)
  {
    hide Opened, SlipsThrough, Tracked, RcptMarked, DomainMarked, Worked, SendDsn, Silent;
    OpenedRest(m, at, config);
    OpenedIndexed(m, at, config);
    var m2 := Opened(m, at, config);
    forall i | 0 <= i < |m.domains| ensures DomainMarked(m.domains[i], m2.domains[i]) {
      OpenedDomainMarked(m, at, config, i);
    }
    WorkedIndexed(m2, turns, |turns|);
    WorkedMarks(m, m2, turns, |turns|);
    var m3 := Worked(m2, turns, |turns|);
    DsnMarks(m, m3, finish, config);
    var m4 := SendDsn(m3, finish, config).0;
    TrackedIsMarked(m, m4);
    forall i | 0 <= i < |m.recipients|
      ensures RcptMarked(m.recipients[i], m4.recipients[i]) <==> !SlipsThrough(m, i, at)
    {
      OpenedRcptMarked(m, at, config, i);
    }
  }

  // ----- Messages without a sender -----

  /** What the handling of a double bounce changes, it does not mark; so it must have been marked before. */
  predicate BounceNoted(m: Message, now: Instant)
    requires Indexed(m)
  {
    && (forall i | 0 <= i < |m.recipients| ::
          !Silent(m.recipients[i]) && Outcome(m.recipients[i], DomainOf(m, m.recipients[i])) == Some(Failed)
          ==> m.recipients[i].flags.statusChanged)
    && (forall i | 0 <= i < |m.domains| ::
          m.domains[i].notify.due <= now && m.domains[i].notify.due != m.domains[i].expires + TEN_SECONDS
          ==> m.domains[i].changed)
  }

  lemma BounceIsTracked(m0: Message, m: Message, now: Instant)
    requires Indexed(m) && Tracked(m0, m)
    ensures Tracked(m0, DoubleBounced(m, now)) <==> BounceNoted(m, now)
  {
    hide Tracked, Outcome, Silent;
    var m' := DoubleBounced(m, now);
    TrackedShape(m0, m);
    TrackedIsMarked(m0, m);
    TrackedIsMarked(m0, m');
    forall i | 0 <= i < |m.recipients|
      ensures RcptMarked(m0.recipients[i], m'.recipients[i]) <==>
        (!Silent(m.recipients[i]) && Outcome(m.recipients[i], DomainOf(m, m.recipients[i])) == Some(Failed)
         ==> m.recipients[i].flags.statusChanged)
    {
      BouncedRcptMarked(m0.recipients[i], m.recipients[i], DomainOf(m, m.recipients[i]));
    }
  }

  lemma TrackedShape(m0: Message, m: Message)
    requires Tracked(m0, m)
    ensures m.(domains := m0.domains, recipients := m0.recipients) == m0
    ensures |m.domains| == |m0.domains| && |m.recipients| == |m0.recipients|
  {
  }

  lemma BouncedRcptMarked(r0: Recipient, r: Recipient, d: Domain)
    requires RcptMarked(r0, r)
    ensures RcptMarked(r0, BouncedRcpt(r, d)) <==> (!Silent(r) && Outcome(r, d) == Some(Failed) ==> r.flags.statusChanged)
  {
  }

  /** Expiry marks the domain but not the recipients that fail with it. */
  lemma ExpireIsTracked(m: Message, at: Instant)
    requires Saved(m)
    ensures Indexed(Expire(m, at))
    ensures Tracked(m, Expire(m, at)) <==> forall i | 0 <= i < |m.recipients| :: !FailsUnmarked(m, i, at)
  {
    hide Tracked, RcptMarked, DomainMarked;
    ExpireIndexed(m, at);
    var m1 := Expire(m, at);
    TrackedIsMarked(m, m1);
    forall i | 0 <= i < |m.domains| ensures DomainMarked(m.domains[i], m1.domains[i]) {
      ExpiredDomainMarked(m.domains[i], at);
    }
    forall i | 0 <= i < |m.recipients| ensures RcptMarked(m.recipients[i], m1.recipients[i]) <==> !FailsUnmarked(m, i, at) {
      ExpiredRcptMarked(m, i, at);
    }
  }

  lemma ExpiredDomainMarked(d: Domain, at: Instant)
    requires !d.changed
    ensures DomainMarked(d, ExpiredDomain(d, at))
  {
  }

  lemma ExpiredRcptMarked(m: Message, i: nat, at: Instant)
    requires Saved(m) && i < |m.recipients|
    ensures RcptMarked(m.recipients[i], ExpiredRcpt(m.recipients[i], m.domains, at)) <==> !FailsUnmarked(m, i, at)
  {
  }

  predicate FailsUnmarked(m: Message, i: nat, now: Instant)
    requires Indexed(m) && i < |m.recipients|
  {
    m.recipients[i].status.TemporaryFailure? && Expires(DomainOf(m, m.recipients[i]), now)
  }
}
