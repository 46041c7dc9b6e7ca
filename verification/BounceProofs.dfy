/** Which attempts on a message without a sender the queue file can follow. */
module BounceProofs {
  import opened Prelude
  import opened QueueTypes
  import opened Session
  import opened Lifecycle
  import opened Journal
  import opened MessageLife
  import opened MessageProofs
  import opened RetryProofs
  import opened SaveProofs

  // ----- The conditions -----

  /** The failure of a recipient is noted when the message is opened, without a mark. */
  predicate NotedUnmarked(m: Message, j: nat, at: Instant)
    requires Indexed(m) && j < |m.recipients|
  {
    var r := m.recipients[j];
    !Silent(r) && Outcome(r, ExpiredDomain(DomainOf(m, r), at)) == Some(Failed)
  }

  /** The notify time of a domain is put behind its expiry by `now`, without a mark. */
  predicate MovesUnmarked(d: Domain, now: Instant) {
    d.notify.due <= now && d.notify.due != d.expires + TEN_SECONDS
  }

  predicate OpensClean(m: Message, at: Instant)
    requires Indexed(m)
  {
    forall j | 0 <= j < |m.recipients| :: !FailsUnmarked(m, j, at) && !NotedUnmarked(m, j, at)
  }

  /** The domain takes its turn in an attempt that is opened at `at`. */
  predicate Taken(d: Domain, t: Turn, at: Instant) {
    d.status.Pending() && at < d.expires && d.retry.due <= t.begin
  }

  /** A turn that ends in permanent failure leaves a recipient as it was, so that only the last report notes it. */
  predicate FailsUntold(m: Message, j: nat, t: Turn, at: Instant)
    requires Indexed(m) && j < |m.recipients|
  {
    var r := m.recipients[j];
    && !Silent(r) && r.status.Scheduled? && Taken(DomainOf(m, r), t, at)
    && match t.outcome
       case HeldBack(_) => false
       case Decided(status) => status.PermanentFailure?
       case Talked(script) =>
         DomainAfter(m.recipients, r.domainIdx, script).PermanentFailure? && RcptAfter(m.recipients, r.domainIdx, script, j) == r
  }

  predicate VisitRecorded(m: Message, at: Instant)
    requires Indexed(m)
  {
    OpensClean(m, at) && forall i | 0 <= i < |m.domains| :: Expires(m.domains[i], at) || !MovesUnmarked(m.domains[i], at)
  }

  predicate AttemptRecorded(m: Message, at: Instant, turns: seq<Turn>, finish: Instant)
    requires Indexed(m) && |turns| == |m.domains|
  {
    && OpensClean(m, at)
    && (forall j | 0 <= j < |m.recipients| :: !FailsUntold(m, j, turns[m.recipients[j].domainIdx], at))
    && (forall i | 0 <= i < |m.domains| ::
          Expires(m.domains[i], at) || Taken(m.domains[i], turns[i], at) || !MovesUnmarked(m.domains[i], finish))
  }

  // ----- Visits -----

  /** The save after a visit of a message without a sender records everything exactly if nothing unmarked changes. */
  lemma BounceVisitIsTracked(m: Message, at: Instant, config: Config)
    requires Saved(m) && m.returnPath == []
    ensures Tracked(m, Opened(m, at, config)) <==> VisitRecorded(m, at)
  {
    hide Tracked, DoubleBounced, RcptMarked, DomainMarked;
    ExpireIndexed(m, at);
    var m' := Opened(m, at, config);
    BouncedShape(m, at);
    TrackedIsMarked(m, m');
    forall i | 0 <= i < |m.domains|
      ensures DomainMarked(m.domains[i], m'.domains[i]) <==> Expires(m.domains[i], at) || !MovesUnmarked(m.domains[i], at)
    {
      OpenedDomainIs(m.domains[i], at);
    }
    forall j | 0 <= j < |m.recipients|
      ensures RcptMarked(m.recipients[j], m'.recipients[j]) <==> !FailsUnmarked(m, j, at) && !NotedUnmarked(m, j, at)
    {
      OpenedRcptIs(m, j, at);
    }
  }

  /** A message without a sender after its opening, entry by entry. */
  lemma BouncedShape(m: Message, at: Instant)
    requires Indexed(m)
    ensures Indexed(Expire(m, at))
    ensures
      var m' := DoubleBounced(Expire(m, at), at);
      && m'.(domains := m.domains, recipients := m.recipients) == m
      && |m'.domains| == |m.domains| && |m'.recipients| == |m.recipients|
      && (forall i | 0 <= i < |m.domains| :: m'.domains[i] == OpenedBounce(m.domains[i], at))
      && (forall j | 0 <= j < |m.recipients| :: m'.recipients[j] == OpenedRcpt(m, j, at))
  {
    hide ExpiredDomain, BouncedDomain, BouncedRcpt;
    ExpireIndexed(m, at);
  }

  function OpenedBounce(d: Domain, at: Instant): Domain { BouncedDomain(ExpiredDomain(d, at), at) }

  function OpenedRcpt(m: Message, j: nat, at: Instant): Recipient
    requires Indexed(m) && j < |m.recipients|
  {
    BouncedRcpt(ExpiredRcpt(m.recipients[j], m.domains, at), ExpiredDomain(DomainOf(m, m.recipients[j]), at))
  }

  lemma OpenedDomainIs(d: Domain, at: Instant)
    requires !d.changed
    ensures DomainMarked(d, OpenedBounce(d, at)) <==> Expires(d, at) || !MovesUnmarked(d, at)
  {
  }

  /** What the opening changes of a recipient it does not mark, and nothing later can hide. */
  lemma OpenedRcptIs(m: Message, j: nat, at: Instant)
    requires Saved(m) && j < |m.recipients|
    ensures
      var r, r' := m.recipients[j], OpenedRcpt(m, j, at);
      && !r'.flags.statusChanged && r'.(status := r.status, flags := r.flags) == r
      && (r' == r <==> !FailsUnmarked(m, j, at) && !NotedUnmarked(m, j, at))
      && (RcptMarked(r, r') <==> !FailsUnmarked(m, j, at) && !NotedUnmarked(m, j, at))
      && (r' != r ==> r'.status.Terminal() || ExpiredDomain(DomainOf(m, r), at).status.PermanentFailure?)
      && (r' != r ==> Apart(r, r'))
  {
  }

  /** Differences that no later report takes back. */
  predicate Apart(r: Recipient, r': Recipient) {
    (r'.status.PermanentFailure? && r.status.TemporaryFailure?) || (r'.flags.dsnSent && !r.flags.dsnSent)
  }

  // ----- Sessions only depend on the recipients of their domain -----

  predicate Agree(rs: seq<Recipient>, rs': seq<Recipient>, idx: nat) {
    && |rs| == |rs'|
    && forall j | 0 <= j < |rs| :: rs[j].domainIdx == rs'[j].domainIdx && (rs[j].domainIdx == idx ==> rs[j] == rs'[j])
  }

  lemma {:induction false} CommandsAgree(rs: seq<Recipient>, rs': seq<Recipient>, idx: nat, n: nat)
    requires Agree(rs, rs', idx) && n <= |rs|
    ensures Commands(rs, idx, n) == Commands(rs', idx, n)
  {
    if n > 0 {
      CommandsAgree(rs, rs', idx, n - 1);
      assert rs[n - 1].domainIdx == rs'[n - 1].domainIdx;
    }
  }

  lemma {:induction false} AcceptedAgree(rs: seq<Recipient>, rs': seq<Recipient>, idx: nat, script: Script, n: nat)
    requires Agree(rs, rs', idx) && n <= |rs|
    ensures AcceptedRcpts(rs, idx, script, n) == AcceptedRcpts(rs', idx, script, n)
  {
    hide ReplyTo;
    if n > 0 {
      AcceptedAgree(rs, rs', idx, script, n - 1);
      CommandsAgree(rs, rs', idx, n - 1);
      assert rs[n - 1].domainIdx == rs'[n - 1].domainIdx;
    }
  }

  lemma RcptAgree(rs: seq<Recipient>, rs': seq<Recipient>, idx: nat, script: Script, j: nat)
    requires Agree(rs, rs', idx) && j < |rs| && rs[j].domainIdx == idx
    ensures RcptAfter(rs, idx, script, j) == RcptAfter(rs', idx, script, j)
  {
    hide ReplyTo, Broken, Commands, AcceptedRcpts, DataAfter;
    CommandsAgree(rs, rs', idx, j);
    CommandsAgree(rs, rs', idx, |rs|);
    AcceptedAgree(rs, rs', idx, script, j);
  }

  lemma DomainAgrees(rs: seq<Recipient>, rs': seq<Recipient>, idx: nat, script: Script)
    requires Agree(rs, rs', idx)
    ensures DomainAfter(rs, idx, script) == DomainAfter(rs', idx, script)
  {
    hide ReplyTo, Broken, Commands, AcceptedRcpts, RcptAfter;
    CommandsAgree(rs, rs', idx, |rs|);
    AcceptedAgree(rs, rs', idx, script, |rs|);
    var a, a' := RcptsAfter(rs, idx, script), RcptsAfter(rs', idx, script);
    forall j | 0 <= j < |rs| ensures a[j].domainIdx == a'[j].domainIdx == rs[j].domainIdx && (rs[j].domainIdx == idx ==> a[j] == a'[j]) {
      SessionTouchesOnlyWaiting(rs, idx, script, j);
      SessionTouchesOnlyWaiting(rs', idx, script, j);
      if rs[j].domainIdx == idx {
        RcptAgree(rs, rs', idx, script, j);
      }
    }
    assert AllSettled(a, idx) <==> AllSettled(a', idx);
  }

  /** A recipient changes in the turn of its own domain only. */
  lemma {:induction false} WorkedRcpt(m: Message, turns: seq<Turn>, n: nat, j: nat)
    requires n <= |m.domains| && |turns| == |m.domains| && Indexed(m) && j < |m.recipients|
    ensures
      var i := m.recipients[j].domainIdx;
      Worked(m, turns, n).recipients[j]
      == if i < n && Due(m.domains[i], turns[i].begin) && turns[i].outcome.Talked?
         then RcptAfter(m.recipients, i, turns[i].outcome.script, j) else m.recipients[j]
  {
    hide RcptAfter, TakeTurn, Due, TurnDomain, Agree;
    if n > 0 {
      WorkedRcpt(m, turns, n - 1, j);
      var m1, t, i := Worked(m, turns, n - 1), turns[n - 1], m.recipients[j].domainIdx;
      WorkedDomain(m, turns, n - 1, n - 1);
      TurnRcptIs(m1, n - 1, t, j);
      UntilItsTurn(m, turns, n - 1);
      if i == n - 1 {
        if t.outcome.Talked? {
          RcptAgree(m.recipients, m1.recipients, i, t.outcome.script, j);
        }
        AgreesAt(m.recipients, m1.recipients, i, j);
      } else {
        OtherRcpt(m.recipients, m1.recipients, n - 1, j);
      }
    }
  }

  lemma TurnRcptIs(m: Message, i: nat, t: Turn, j: nat)
    requires i < |m.domains| && j < |m.recipients|
    ensures
      TakeTurn(m, i, t).recipients[j]
      == if Due(m.domains[i], t.begin) && t.outcome.Talked? && m.recipients[j].domainIdx == i
         then RcptAfter(m.recipients, i, t.outcome.script, j) else m.recipients[j]
  {
    hide Due, TurnDomain;
    if t.outcome.Talked? {
      OtherUntouched(m.recipients, i, t.outcome.script, j);
    }
  }

  lemma OtherUntouched(rs: seq<Recipient>, idx: nat, script: Script, j: nat)
    requires j < |rs|
    ensures rs[j].domainIdx != idx ==> RcptAfter(rs, idx, script, j) == rs[j]
  {
  }

  lemma AgreesAt(rs: seq<Recipient>, rs': seq<Recipient>, idx: nat, j: nat)
    requires Agree(rs, rs', idx) && j < |rs| && rs[j].domainIdx == idx
    ensures rs'[j] == rs[j]
  {
  }

  lemma OtherRcpt(rs: seq<Recipient>, rs': seq<Recipient>, idx: nat, j: nat)
    requires Agree(rs, rs', idx) && j < |rs|
    ensures rs'[j].domainIdx == rs[j].domainIdx
  {
  }

  /** Until its turn comes, a domain's recipients are as they were. */
  lemma {:induction false} UntilItsTurn(m: Message, turns: seq<Turn>, n: nat)
    requires n < |m.domains| && |turns| == |m.domains| && Indexed(m)
    ensures Agree(m.recipients, Worked(m, turns, n).recipients, n)
  {
    EarlierTurns(m, turns, n, n);
  }

  lemma {:induction false} EarlierTurns(m: Message, turns: seq<Turn>, n: nat, idx: nat)
    requires n <= idx < |m.domains| && |turns| == |m.domains| && Indexed(m)
    ensures Agree(m.recipients, Worked(m, turns, n).recipients, idx)
  {
    hide RcptsAfter, DomainAfter, TurnDomain;
    if n > 0 {
      EarlierTurns(m, turns, n - 1, idx);
      var rs, t := Worked(m, turns, n - 1).recipients, turns[n - 1];
      forall j | 0 <= j < |rs|
        ensures Worked(m, turns, n).recipients[j].domainIdx == rs[j].domainIdx
        ensures rs[j].domainIdx == idx ==> Worked(m, turns, n).recipients[j] == rs[j]
      {
        if t.outcome.Talked? {
          SessionTouchesOnlyWaiting(rs, n - 1, t.outcome.script, j);
        }
      }
    }
  }

  // ----- Attempts -----

  /** A domain after the whole attempt. */
  function BouncedTurn(d: Domain, i: nat, rs: seq<Recipient>, t: Turn, at: Instant, finish: Instant): Domain {
    BouncedDomain(TurnDomain(OpenedBounce(d, at), i, rs, t), finish)
  }

  lemma AttemptDomainIs(d: Domain, i: nat, rs: seq<Recipient>, t: Turn, at: Instant, finish: Instant)
    requires !d.changed && at <= finish
    ensures DomainMarked(d, BouncedTurn(d, i, rs, t, at, finish)) <==>
      Expires(d, at) || Taken(d, t, at) || !MovesUnmarked(d, finish)
    ensures Due(OpenedBounce(d, at), t.begin) <==> Taken(d, t, at)
    ensures
      TurnDomain(OpenedBounce(d, at), i, rs, t).status ==
        if !Taken(d, t, at) then ExpiredDomain(d, at).status
        else match t.outcome
          case HeldBack(retryAt) => SetThrottleError(d, retryAt).status
          case Decided(status) => status
          case Talked(script) => DomainAfter(rs, i, script)
  {
    hide DomainAfter, Interval;
  }

  /** The message after the attempt, entry by entry. */
  lemma AttemptShape(m: Message, at: Instant, turns: seq<Turn>, finish: Instant, config: Config)
    requires Indexed(m) && m.returnPath == [] && |turns| == |m.domains|
    ensures Indexed(Opened(m, at, config))
    ensures |Opened(m, at, config).domains| == |turns| && |Opened(m, at, config).recipients| == |m.recipients|
    ensures Indexed(Worked(Opened(m, at, config), turns, |turns|))
    ensures
      var m3 := Worked(Opened(m, at, config), turns, |turns|);
      var m4 := SendDsn(m3, finish, config).0;
      && m4.(domains := m.domains, recipients := m.recipients) == m
      && |m4.domains| == |m.domains| && |m4.recipients| == |m.recipients|
      && (forall i | 0 <= i < |m.domains| :: m4.domains[i] == BouncedDomain(m3.domains[i], finish))
      && (forall j | 0 <= j < |m.recipients| :: m4.recipients[j] == BouncedRcpt(m3.recipients[j], DomainOf(m3, m3.recipients[j])))
  {
    hide BouncedDomain, BouncedRcpt, Expire, Worked;
    OpenedIndexed(m, at, config);
    WorkedIndexed(Opened(m, at, config), turns, |turns|);
    OpenedRest(m, at, config);
    WorkedRest(Opened(m, at, config), turns, |turns|);
  }

  lemma {:induction false} WorkedRest(m: Message, turns: seq<Turn>, n: nat)
    requires n <= |m.domains| && |turns| == |m.domains|
    ensures Worked(m, turns, n).(domains := m.domains, recipients := m.recipients) == m
  {
    hide TurnDomain, TurnRcpts;
    if n > 0 {
      WorkedRest(m, turns, n - 1);
    }
  }

  /** A recipient that the opening changed stays unmarked and changed. */
  lemma UncleanStays(m: Message, at: Instant, turns: seq<Turn>, finish: Instant, config: Config, j: nat)
    requires Saved(m) && m.returnPath == [] && |turns| == |m.domains| && j < |m.recipients|
    requires FailsUnmarked(m, j, at) || NotedUnmarked(m, j, at)
    ensures |Opened(m, at, config).domains| == |turns| && Indexed(Worked(Opened(m, at, config), turns, |turns|))
    ensures !Tracked(m, SendDsn(Worked(Opened(m, at, config), turns, |turns|), finish, config).0)
  {
    hide Worked, Tracked, SendDsn, RcptAfter, Expire, DoubleBounced, ExpiredDomain, OpenedRcpt, OpenedBounce, TurnDomain, FailsUnmarked,
      NotedUnmarked, BouncedRcpt, RcptMarked, Taken;
    BouncedShape(m, at);
    AttemptShape(m, at, turns, finish, config);
    OpenedRcptIs(m, j, at);
    var m2 := Opened(m, at, config);
    assert m2 == DoubleBounced(Expire(m, at), at) by { OpenedIsBounce(m, at, config); }
    var i := m.recipients[j].domainIdx;
    WorkedRcpt(m2, turns, |turns|, j);
    AttemptDomainIs(m.domains[i], i, m2.recipients, turns[i], at, if at <= finish then finish else at);
    assert Worked(m2, turns, |turns|).recipients[j] == m2.recipients[j] by {
      SettledRcpt(m2.recipients, i, turns[i], j);
      TakenIsPending(m.domains[i], turns[i], at);
    }
    var m4 := SendDsn(Worked(m2, turns, |turns|), finish, config).0;
    BounceKeepsApart(m.recipients[j], m2.recipients[j], DomainOf(Worked(m2, turns, |turns|), m2.recipients[j]));
    TrackedIsMarked(m, m4);
  }

  lemma OpenedIsBounce(m: Message, at: Instant, config: Config)
    requires Indexed(m) && m.returnPath == []
    ensures Indexed(Expire(m, at)) && Opened(m, at, config) == DoubleBounced(Expire(m, at), at)
  {
    ExpireIndexed(m, at);
  }

  lemma SettledRcpt(rs: seq<Recipient>, idx: nat, t: Turn, j: nat)
    requires j < |rs|
    ensures t.outcome.Talked? && rs[j].status.Terminal() ==> RcptAfter(rs, idx, t.outcome.script, j) == rs[j]
  {
  }

  lemma TakenIsPending(d: Domain, t: Turn, at: Instant)
    ensures Taken(d, t, at) ==> !ExpiredDomain(d, at).status.PermanentFailure?
  {
  }

  lemma BounceKeepsApart(r: Recipient, r': Recipient, d: Domain)
    requires Apart(r, r') && !r'.flags.statusChanged
    ensures !RcptMarked(r, BouncedRcpt(r', d))
  {
  }

  /** With a clean opening, a recipient is recorded exactly if no turn fails it untold. */
  lemma CleanRcpt(m: Message, at: Instant, turns: seq<Turn>, finish: Instant, config: Config, j: nat)
    requires Saved(m) && m.returnPath == [] && |turns| == |m.domains| && j < |m.recipients| && OpensClean(m, at)
    ensures |Opened(m, at, config).domains| == |turns| && Indexed(Worked(Opened(m, at, config), turns, |turns|))
    ensures
      var m4 := SendDsn(Worked(Opened(m, at, config), turns, |turns|), finish, config).0;
      |m4.recipients| == |m.recipients| && (RcptMarked(m.recipients[j], m4.recipients[j]) <==> !FailsUntold(m, j, turns[m.recipients[j].domainIdx], at))
  {
    hide Worked, SendDsn, RcptAfter, Expire, DoubleBounced, ExpiredDomain, OpenedRcpt, OpenedBounce, TurnDomain, DomainAfter;
    BouncedShape(m, at);
    AttemptShape(m, at, turns, finish, config);
    OpenedIsBounce(m, at, config);
    var m2 := Opened(m, at, config);
    assert m2.recipients == m.recipients by {
      forall k | 0 <= k < |m.recipients| ensures m2.recipients[k] == m.recipients[k] {
        OpenedRcptIs(m, k, at);
      }
    }
    var i := m.recipients[j].domainIdx;
    var t, m3 := turns[i], Worked(m2, turns, |turns|);
    WorkedRcpt(m2, turns, |turns|, j);
    WorkedDomain(m2, turns, |turns|, i);
    var rs := Worked(m2, turns, i).recipients;
    UntilItsTurn(m2, turns, i);
    if t.outcome.Talked? {
      DomainAgrees(m.recipients, rs, i, t.outcome.script);
      SessionMarks(m.recipients, i, t.outcome.script, j);
    }
    AttemptDomainIs(m.domains[i], i, rs, t, at, if at <= finish then finish else at);
    assert m3.recipients[j].domainIdx == i;
    CleanBounce(m, j, at, m3.recipients[j], m3.domains[i], t);
  }

  lemma SessionMarks(rs: seq<Recipient>, idx: nat, script: Script, j: nat)
    requires j < |rs|
    ensures
      var r' := RcptAfter(rs, idx, script, j);
      r' == rs[j] || (r' == Updated(rs[j], r'.status) && !r'.status.Scheduled?)
  {
    SessionTouchesOnlyWaiting(rs, idx, script, j);
  }

  /** The last report on a recipient that is still unmarked, or was marked by its session. */
  lemma CleanBounce(m: Message, j: nat, at: Instant, r': Recipient, d': Domain, t: Turn)
    requires Saved(m) && j < |m.recipients| && !FailsUnmarked(m, j, at) && !NotedUnmarked(m, j, at)
    requires
      var r, d := m.recipients[j], DomainOf(m, m.recipients[j]);
      && r' == (if Taken(d, t, at) && t.outcome.Talked? then RcptAfter(m.recipients, r.domainIdx, t.outcome.script, j) else r)
      && (r' == r || r' == Updated(r, r'.status))
      && d'.status ==
           if !Taken(d, t, at) then ExpiredDomain(d, at).status
           else match t.outcome
             case HeldBack(retryAt) => SetThrottleError(d, retryAt).status
             case Decided(status) => status
             case Talked(script) => DomainAfter(m.recipients, r.domainIdx, script)
    ensures RcptMarked(m.recipients[j], BouncedRcpt(r', d')) <==> !FailsUntold(m, j, t, at)
  {
    hide RcptAfter, DomainAfter;
  }

  /**
    The save after an attempt on a message without a sender records everything exactly if the opening
    changes no recipient, no turn fails one untold, and every notify time that moves is in a domain
    that expires or takes its turn.
  */
  lemma BounceAttemptIsTracked(m: Message, at: Instant, turns: seq<Turn>, finish: Instant, config: Config)
    requires Saved(m) && m.returnPath == [] && |turns| == |m.domains| && at <= finish
    ensures |Opened(m, at, config).domains| == |turns| && Indexed(Worked(Opened(m, at, config), turns, |turns|))
    ensures Tracked(m, SendDsn(Worked(Opened(m, at, config), turns, |turns|), finish, config).0)
       <==> AttemptRecorded(m, at, turns, finish)
  {
    hide Worked, SendDsn, Opened, Tracked, RcptMarked, DomainMarked, FailsUntold, FailsUnmarked, NotedUnmarked, MovesUnmarked, Taken, Expires;
    AttemptShape(m, at, turns, finish, config);
    if !OpensClean(m, at) {
      var j :| 0 <= j < |m.recipients| && !(!FailsUnmarked(m, j, at) && !NotedUnmarked(m, j, at));
      UncleanStays(m, at, turns, finish, config, j);
    } else {
      var m4 := SendDsn(Worked(Opened(m, at, config), turns, |turns|), finish, config).0;
      TrackedIsMarked(m, m4);
      forall j | 0 <= j < |m.recipients|
        ensures RcptMarked(m.recipients[j], m4.recipients[j]) <==> !FailsUntold(m, j, turns[m.recipients[j].domainIdx], at)
      {
        CleanRcpt(m, at, turns, finish, config, j);
      }
      forall i | 0 <= i < |m.domains|
        ensures DomainMarked(m.domains[i], m4.domains[i]) <==>
          Expires(m.domains[i], at) || Taken(m.domains[i], turns[i], at) || !MovesUnmarked(m.domains[i], finish)
      {
        AttemptDomainAt(m, at, turns, finish, config, i);
      }
    }
  }

  lemma AttemptDomainAt(m: Message, at: Instant, turns: seq<Turn>, finish: Instant, config: Config, i: nat)
    requires Saved(m) && m.returnPath == [] && |turns| == |m.domains| && at <= finish && i < |m.domains|
    ensures |Opened(m, at, config).domains| == |turns| && Indexed(Worked(Opened(m, at, config), turns, |turns|))
    ensures
      var m4 := SendDsn(Worked(Opened(m, at, config), turns, |turns|), finish, config).0;
      |m4.domains| == |m.domains| && (DomainMarked(m.domains[i], m4.domains[i]) <==>
        Expires(m.domains[i], at) || Taken(m.domains[i], turns[i], at) || !MovesUnmarked(m.domains[i], finish))
  {
    hide Worked, SendDsn, Expire, DoubleBounced, DomainMarked, MovesUnmarked, Taken, Expires, OpenedBounce, TurnDomain, BouncedDomain;
    AttemptShape(m, at, turns, finish, config);
    BouncedShape(m, at);
    OpenedIsBounce(m, at, config);
    var m2 := Opened(m, at, config);
    WorkedDomain(m2, turns, |turns|, i);
    AttemptDomainIs(m.domains[i], i, Worked(m2, turns, i).recipients, turns[i], at, finish);
  }
}
