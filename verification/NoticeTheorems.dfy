/** Which notices go out, told from statuses and flags alone, for every report and over every run. */
module NoticeTheorems {
  import opened Prelude
  import opened QueueTypes
  import opened Session
  import opened Lifecycle
  import opened Journal
  import opened MessageLife
  import opened MessageProofs
  import opened NoticeProofs
  import opened RetryProofs
  import opened MessageTheorems
  import BounceProofs

  // ----- One report -----

  /** The recipient failed for good, itself or, without a status of its own, with its domain. */
  predicate HasFailed(r: Recipient, d: Domain) {
    r.status.PermanentFailure? || (r.status.Scheduled? && d.status.PermanentFailure?)
  }

  /** The recipient is neither delivered nor failed for good, and the time for a delay notice has come. */
  predicate IsLate(r: Recipient, d: Domain, now: Instant) {
    && d.notify.due <= now
    && (r.status.TemporaryFailure? || (r.status.Scheduled? && (d.status.Scheduled? || d.status.TemporaryFailure?)))
  }

  /** Nothing final was reported about the recipient yet, and it did not ask for silence. */
  predicate Open(r: Recipient) {
    !r.flags.dsnSent && !r.flags.notifyNever
  }

  /** The notice that is due about a recipient. */
  predicate IsDue(r: Recipient, d: Domain, now: Instant, k: Kind) {
    && Open(r)
    && match k
       case Failed => r.flags.notifyFailure && HasFailed(r, d)
       case Success => r.flags.notifySuccess && r.status.Completed?
       case Delay => r.flags.notifyDelay && IsLate(r, d, now)
  }

  lemma NoticeIff(r: Recipient, d: Domain, now: Instant, k: Kind)
    ensures NoticeFor(r, d, now) == Some(k) <==> IsDue(r, d, now, k)
  {
  }

  lemma {:induction false} NoticesIff(m: Message, now: Instant, n: nat, i: nat, k: Kind)
    requires Indexed(m) && n <= |m.recipients| && i < |m.recipients|
    ensures Notice(i, k) in Notices(m, now, n) <==> i < n && IsDue(m.recipients[i], m.domains[m.recipients[i].domainIdx], now, k)
  {
    hide NoticeFor, IsDue;
    if n > 0 {
      NoticesIff(m, now, n - 1, i, k);
      NoticesStep(m, now, n);
      NoticeIff(m.recipients[n - 1], DomainOf(m, m.recipients[n - 1]), now, k);
    }
  }

  predicate InOrderOfRcpts(ns: seq<Notice>) {
    forall a, b | 0 <= a < b < |ns| :: ns[a].rcpt < ns[b].rcpt
  }

  lemma {:induction false} NoticesOrdered(m: Message, now: Instant, n: nat)
    requires Indexed(m) && n <= |m.recipients|
    ensures InOrderOfRcpts(Notices(m, now, n))
  {
    hide NoticeFor;
    if n > 0 {
      NoticesOrdered(m, now, n - 1);
      NoticesStep(m, now, n);
    }
  }

  /** A report has exactly the notices that are due, at most one for each recipient, in their order; without a sender it has none. */
  lemma ReportIff(m: Message, now: Instant, config: Config, i: nat, k: Kind)
    requires Indexed(m) && i < |m.recipients|
    ensures
      var ns := SendDsn(m, now, config).1;
      && (Notice(i, k) in ns <==> m.returnPath != [] && IsDue(m.recipients[i], m.domains[m.recipients[i].domainIdx], now, k))
      && InOrderOfRcpts(ns)
  {
    hide Notices, IsDue;
    NoticesIff(m, now, |m.recipients|, i, k);
    NoticesOrdered(m, now, |m.recipients|);
  }

  /** A recipient is marked as reported if and only if it was open and has a final status, with or without a notice. */
  lemma ReportMarks(m: Message, now: Instant, config: Config, i: nat)
    requires Indexed(m) && i < |m.recipients|
    ensures
      var r, d := m.recipients[i], m.domains[m.recipients[i].domainIdx];
      var r' := SendDsn(m, now, config).0.recipients[i];
      && (m.returnPath != [] ==>
            r' == if Open(r) && (r.status.Completed? || HasFailed(r, d)) then r.(flags := r.flags.(dsnSent := true, statusChanged := true)) else r)
      && (m.returnPath == [] ==>
            r' == if Open(r) && HasFailed(r, d) then r.(flags := r.flags.(dsnSent := true)) else r)
  {
    hide Notices, HasDelay;
  }

  /**
    A delay notice moves the notify time of every pending domain that is late: to the next interval from now,
    or ten seconds behind the expiry when there is none. Without a sender every notify time that has come is
    put there.
  */
  lemma ReportMoves(m: Message, now: Instant, config: Config, j: nat)
    requires Indexed(m) && ValidConfig(config) && j < |m.domains| && m.domains[j].notify.inner + 1 < TWO_32
    ensures
      var d, d' := m.domains[j], SendDsn(m, now, config).0.domains[j];
      var intervals := config.notify(d.domain);
      var delayed := exists i | 0 <= i < |m.recipients| :: IsDue(m.recipients[i], m.domains[m.recipients[i].domainIdx], now, Delay);
      && (m.returnPath != [] ==>
            d' == if !delayed || !d.status.Pending() || d.notify.due > now then d
                  else if d.notify.inner + 1 < |intervals|
                  then d.(notify := Schedule(d.notify.inner + 1, now + intervals[d.notify.inner + 1]), changed := true)
                  else d.(notify := Schedule(d.notify.inner, d.expires + 10 * NANOS), changed := true))
      && (m.returnPath == [] ==>
            d' == if d.notify.due > now then d else d.(notify := Schedule(d.notify.inner, d.expires + 10 * NANOS)))
  {
    hide Notices, IsDue;
    DelayedIff(m, now);
  }

  lemma DelayedIff(m: Message, now: Instant)
    requires Indexed(m)
    ensures HasDelay(Notices(m, now, |m.recipients|)) <==>
      exists i | 0 <= i < |m.recipients| :: IsDue(m.recipients[i], m.domains[m.recipients[i].domainIdx], now, Delay)
  {
    hide IsDue, Notices;
    var ns := Notices(m, now, |m.recipients|);
    if k :| 0 <= k < |ns| && ns[k].kind == Delay {
      NoticesIff(m, now, |m.recipients|, ns[k].rcpt, Delay);
      assert ns[k] == Notice(ns[k].rcpt, Delay);
    }
    if i :| 0 <= i < |m.recipients| && IsDue(m.recipients[i], m.domains[m.recipients[i].domainIdx], now, Delay) {
      NoticesIff(m, now, |m.recipients|, i, Delay);
    }
  }

  // ----- Over a run -----

  /** How often the log has this notice about recipient `r`. */
  function Told(log: seq<Logged>, r: nat, k: Kind): nat {
    if log == [] then 0 else Told(log[..|log| - 1], r, k) + if log[|log| - 1].notice == Notice(r, k) then 1 else 0
  }

  lemma {:induction false} ToldAppend(a: seq<Logged>, b: seq<Logged>, r: nat, k: Kind)
    ensures Told(a + b, r, k) == Told(a, r, k) + Told(b, r, k)
  {
    if b == [] {
      assert a + b == a;
    } else {
      var n := |b| - 1;
      assert (a + b)[..|a + b| - 1] == a + b[..n];
      ToldAppend(a, b[..n], r, k);
    }
  }

  lemma {:induction false} ToldInNotices(m: Message, now: Instant, n: nat, i: nat, k: Kind)
    requires Indexed(m) && n <= |m.recipients| && i < |m.recipients|
    ensures Told(LogOf(Notices(m, now, n), m), i, k)
         == if i < n && IsDue(m.recipients[i], m.domains[m.recipients[i].domainIdx], now, k) then 1 else 0
  {
    hide NoticeFor, IsDue, LogOf, Told, Notices;
    if n == 0 {
      NoNotices(m, now);
      ToldNothing(m, i, k);
    } else {
      ToldInNotices(m, now, n - 1, i, k);
      NoticesStep(m, now, n);
      var r := m.recipients[n - 1];
      NoticeIff(r, DomainOf(m, r), now, k);
      var kind := NoticeFor(r, DomainOf(m, r), now);
      if kind.Some? {
        LogSnoc(Notices(m, now, n - 1), Notice(n - 1, kind.value), m);
        ToldOne(LogOf(Notices(m, now, n - 1), m), Logged(Notice(n - 1, kind.value), DomainOf(m, r).status.Pending()), i, k);
      }
    }
  }

  lemma ToldNothing(m: Message, i: nat, k: Kind)
    requires Indexed(m)
    ensures Told(LogOf([], m), i, k) == 0
  {
  }

  lemma ToldOne(log: seq<Logged>, e: Logged, i: nat, k: Kind)
    ensures Told(log + [e], i, k) == Told(log, i, k) + if e.notice == Notice(i, k) then 1 else 0
  {
    assert (log + [e])[..|log|] == log;
  }

  function One(b: bool): nat { if b then 1 else 0 }

  /**
    What the log says about recipient `i`. Nothing final before it is marked as reported. Afterwards, if it is
    not delivered, it failed and the log has one failure if that was wanted; if it is delivered, and not by an
    operator, the log has one success if that was wanted.
  */
  predicate Accounted(m: Message, log: seq<Logged>, i: nat, cancelled: bool)
    requires Indexed(m) && i < |m.recipients|
  {
    var r, d := m.recipients[i], m.domains[m.recipients[i].domainIdx];
    var (failures, successes) := (Told(log, i, Failed), Told(log, i, Success));
    if !r.flags.dsnSent then failures == successes == 0
    else if r.status.Completed? then cancelled || (failures == 0 && successes == One(r.flags.notifySuccess))
    else HasFailed(r, d) && failures == One(r.flags.notifyFailure) && successes == 0
  }

  /** The rest of the life changes neither the mark and the wishes of a recipient nor, once it is marked, its outcome. */
  predicate KeepsOutcome(m: Message, m': Message, i: nat)
    requires Indexed(m) && Indexed(m') && i < |m.recipients| == |m'.recipients|
  {
    var r, d, r' := m.recipients[i], m.domains[m.recipients[i].domainIdx], m'.recipients[i];
    var d' := m'.domains[r'.domainIdx];
    && r'.flags == r.flags.(statusChanged := r'.flags.statusChanged)
    && (r.status.Completed? ==> r'.status.Completed?)
    && (HasFailed(r, d) ==> HasFailed(r', d') && !r'.status.Completed?)
  }

  lemma OutcomeAccounted(m: Message, m': Message, log: seq<Logged>, i: nat, cancelled: bool)
    requires Indexed(m) && Indexed(m') && i < |m.recipients| == |m'.recipients| && KeepsOutcome(m, m', i) && Accounted(m, log, i, cancelled)
    ensures Accounted(m', log, i, cancelled)
  {
    hide Told;
  }

  lemma ReportAccounted(m: Message, log: seq<Logged>, now: Instant, config: Config, i: nat, cancelled: bool)
    requires Indexed(m) && m.returnPath != [] && i < |m.recipients| && Accounted(m, log, i, cancelled)
    requires Indexed(SendDsn(m, now, config).0) && |SendDsn(m, now, config).0.recipients| == |m.recipients|
    ensures Accounted(SendDsn(m, now, config).0, log + LogOf(SendDsn(m, now, config).1, m), i, cancelled)
  {
    hide Told, Notices, LogOf, HasDelay, Lifecycle.Reported;
    var (m', ns) := SendDsn(m, now, config);
    ReportMarks(m, now, config, i);
    SameStatus(m, now, config, i);
    forall k: Kind ensures Told(log + LogOf(ns, m), i, k) == Told(log, i, k) + Told(LogOf(ns, m), i, k) {
      ToldAppend(log, LogOf(ns, m), i, k);
    }
    ToldInNotices(m, now, |m.recipients|, i, Failed);
    ToldInNotices(m, now, |m.recipients|, i, Success);
  }

  lemma SameStatus(m: Message, now: Instant, config: Config, i: nat)
    requires Indexed(m) && i < |m.recipients|
    ensures
      var m' := SendDsn(m, now, config).0;
      && |m'.recipients| == |m.recipients| && |m'.domains| == |m.domains| && m'.recipients[i].domainIdx == m.recipients[i].domainIdx
      && m'.domains[m.recipients[i].domainIdx].status == m.domains[m.recipients[i].domainIdx].status
  {
    hide Notices, HasDelay;
    var m', j := SendDsn(m, now, config).0, m.recipients[i].domainIdx;
    if m.returnPath == [] {
      assert m'.domains[j] == BouncedDomain(m.domains[j], now);
    } else {
      assert m'.domains[j] == m.domains[j] || m'.domains[j] == NextNotify(m.domains[j], now, config.notify(m.domains[j].domain));
    }
  }

  lemma ExpireOutcome(m: Message, at: Instant, i: nat)
    requires Indexed(m) && i < |m.recipients|
    ensures Indexed(Expire(m, at)) && KeepsOutcome(m, Expire(m, at), i)
  {
  }

  lemma WorkedOutcome(m: Message, turns: seq<Turn>, i: nat)
    requires Indexed(m) && |turns| == |m.domains| && i < |m.recipients| && Indexed(Worked(m, turns, |turns|))
    ensures KeepsOutcome(m, Worked(m, turns, |turns|), i)
  {
    hide Worked, RcptAfter, TurnDomain;
    var j := m.recipients[i].domainIdx;
    BounceProofs.WorkedRcpt(m, turns, |turns|, i);
    WorkedDomain(m, turns, |turns|, j);
    if turns[j].outcome.Talked? {
      RcptAfterIs(m.recipients, j, turns[j].outcome.script, i);
      SessionTouchesOnlyWaiting(m.recipients, j, turns[j].outcome.script, i);
    }
    NotDueStays(m.domains[j], j, Worked(m, turns, j).recipients, turns[j]);
  }

  lemma RcptAfterIs(rs: seq<Recipient>, idx: nat, script: Script, i: nat)
    requires i < |rs|
    ensures RcptsAfter(rs, idx, script)[i] == RcptAfter(rs, idx, script, i)
  {
  }

  lemma NotDueStays(d: Domain, j: nat, rs: seq<Recipient>, t: Turn)
    ensures d.status.PermanentFailure? ==> TurnDomain(d, j, rs, t) == d
  {
  }

  lemma StoredOutcome(m: Message, i: nat)
    requires Indexed(m) && i < |m.recipients|
    ensures Indexed(Stored(m)) && |Stored(m).recipients| == |m.recipients| && KeepsOutcome(m, Stored(m), i)
    ensures Indexed(Cleared(m)) && |Cleared(m).recipients| == |m.recipients| && KeepsOutcome(m, Cleared(m), i)
  {
  }

  lemma AskRetryOutcome(m: Message, chosen: set<nat>, time: Instant, i: nat)
    requires Indexed(m) && i < |m.recipients|
    ensures Indexed(OperatorRetry(m, chosen, time)) && KeepsOutcome(m, OperatorRetry(m, chosen, time), i)
  {
  }

  lemma CancelAccounted(m: Message, log: seq<Logged>, chosen: set<nat>, response: HostResponse<Text>, i: nat, cancelled: bool)
    requires Sound(m) && i < |m.recipients| && Accounted(m, log, i, cancelled)
    ensures Indexed(Cancel(m, chosen, response)) && Accounted(Cancel(m, chosen, response), log, i, cancelled || i in chosen)
  {
    hide Told;
    var m' := Cancel(m, chosen, response);
    assert i in chosen ==> m'.recipients[i].status.Completed?;
    assert i !in chosen ==> m'.recipients[i] == m.recipients[i];
    var j := m.recipients[i].domainIdx;
    assert m.domains[j].status.PermanentFailure? ==> m'.domains[j] == m.domains[j];
  }

  /** An operator cancels the delivery to recipient `i` in this step. */
  predicate Cancels(step: Step, i: nat) {
    step.CancelSome? && i in step.chosen
  }

  lemma OpenedAccounted(l: Life, at: Instant, config: Config, i: nat, cancelled: bool)
    requires Sound(l.m) && l.m.returnPath != [] && i < |l.m.recipients| && Accounted(l.m, l.log, i, cancelled)
    ensures
      var m2 := Opened(l.m, at, config);
      && Sound(m2) && m2.returnPath == l.m.returnPath && |m2.recipients| == |l.m.recipients| && |m2.domains| == |l.m.domains|
      && Accounted(m2, l.log + OpenedLog(l.m, at, config), i, cancelled)
  {
    hide Accounted, SendDsn, LogOf, Expire, KeepsOutcome, Sound, Indexed;
    SoundIndexed(l.m);
    ExpireKeeps(l.m, at);
    var m1 := Expire(l.m, at);
    SoundIndexed(m1);
    ExpireOutcome(l.m, at, i);
    OutcomeAccounted(l.m, m1, l.log, i, cancelled);
    DsnKeeps(m1, at, config);
    SoundIndexed(SendDsn(m1, at, config).0);
    ReportAccounted(m1, l.log, at, config, i, cancelled);
  }

  lemma AttemptAccounted(l: Life, at: Instant, turns: seq<Turn>, finish: Instant, config: Config, i: nat, cancelled: bool)
    requires Sound(l.m) && ValidConfig(config) && |turns| == |l.m.domains| == |l.tries| && InOrder(turns, at, finish)
    requires l.m.returnPath != [] && i < |l.m.recipients| && Accounted(l.m, l.log, i, cancelled)
    ensures
      var l' := AfterAttempt(l, at, turns, finish, config);
      Indexed(l'.m) && |l'.m.recipients| == |l.m.recipients| && Accounted(l'.m, l'.log, i, cancelled)
  {
    hide Accounted, SendDsn, LogOf, KeepsOutcome, Sound, Indexed, Worked, Opened, OpenedLog, Stored, SomePending, TriedBy;
    SoundIndexed(l.m);
    OpenedAccounted(l, at, config, i, cancelled);
    var m2, log2 := Opened(l.m, at, config), l.log + OpenedLog(l.m, at, config);
    SoundIndexed(m2);
    WorkedKeeps(m2, turns, |turns|);
    var m3 := Worked(m2, turns, |turns|);
    SoundIndexed(m3);
    WorkedOutcome(m2, turns, i);
    OutcomeAccounted(m2, m3, log2, i, cancelled);
    DsnKeeps(m3, finish, config);
    var m4, log4 := SendDsn(m3, finish, config).0, log2 + LogOf(SendDsn(m3, finish, config).1, m3);
    SoundIndexed(m4);
    ReportAccounted(m3, log2, finish, config, i, cancelled);
    StoredOutcome(m4, i);
    OutcomeAccounted(m4, Stored(m4), log4, i, cancelled);
  }

  lemma StepAccounted(l: Life, step: Step, config: Config, i: nat, cancelled: bool)
    requires Sound(l.m) && ValidConfig(config) && Enabled(l, step) && |l.tries| == |l.m.domains|
    requires l.m.returnPath != [] && i < |l.m.recipients| && Accounted(l.m, l.log, i, cancelled)
    ensures
      var l' := Next(l, step, config);
      Indexed(l'.m) && |l'.m.recipients| == |l.m.recipients| && Accounted(l'.m, l'.log, i, cancelled || Cancels(step, i))
  {
    hide Accounted, KeepsOutcome, Sound, Indexed, Opened, OpenedLog, Stored, SomePending, AfterAttempt, Cancel, OperatorRetry, Cleared;
    SoundIndexed(l.m);
    match step
    case Visit(at) =>
      OpenedAccounted(l, at, config, i, cancelled);
      var m2 := Opened(l.m, at, config);
      SoundIndexed(m2);
      StoredOutcome(m2, i);
      OutcomeAccounted(m2, Stored(m2), l.log + OpenedLog(l.m, at, config), i, cancelled);
    case Attempt(at, turns, finish) => AttemptAccounted(l, at, turns, finish, config, i, cancelled);
    case CancelSome(chosen, response) =>
      var m := Cancel(l.m, chosen, response);
      CancelKeeps(l.m, chosen, response);
      CancelAccounted(l.m, l.log, chosen, response, i, cancelled);
      StoredOutcome(m, i);
      OutcomeAccounted(m, Cleared(m), l.log, i, cancelled || i in chosen);
    case CancelAll =>
    case AskRetry(chosen, time) =>
      var m := OperatorRetry(l.m, chosen, time);
      AskRetryKeeps(l.m, chosen, time);
      AskRetryOutcome(l.m, chosen, time, i);
      OutcomeAccounted(l.m, m, l.log, i, cancelled);
      StoredOutcome(m, i);
      OutcomeAccounted(m, Cleared(m), l.log, i, cancelled);
  }

  predicate CancelledIn(steps: seq<Step>, i: nat) {
    exists k | 0 <= k < |steps| :: Cancels(steps[k], i)
  }

  lemma {:induction false} RunAccounted(l: Life, steps: seq<Step>, config: Config, l': Life, i: nat)
    requires ValidConfig(config) && New(l, config) && Reaches(l, steps, config, l') && l.m.returnPath != [] && i < |l.m.recipients|
    ensures Sound(l'.m) && Indexed(l'.m) && |l'.m.recipients| == |l.m.recipients| && l'.m.returnPath == l.m.returnPath
    ensures Accounted(l'.m, l'.log, i, CancelledIn(steps, i))
    decreases |steps|
  {
    hide Accounted, Next, Enabled, Sound, New, Cancels;
    NewAccounted(l, config, i);
    SettledForever(l, steps, config, l');
    SoundIndexed(l'.m);
    if steps != [] {
      var last := |steps| - 1;
      var k :| Reaches(l, steps[..last], config, k) && Enabled(k, steps[last]) && |k.tries| == |k.m.domains|
               && l' == Next(k, steps[last], config);
      RunAccounted(l, steps[..last], config, k, i);
      StepAccounted(k, steps[last], config, i, CancelledIn(steps[..last], i));
      assert CancelledIn(steps, i) <==> CancelledIn(steps[..last], i) || Cancels(steps[last], i);
    } else {
      assert !CancelledIn(steps, i);
    }
  }

  lemma NewAccounted(l: Life, config: Config, i: nat)
    requires New(l, config) && i < |l.m.recipients|
    ensures Sound(l.m) && |l.tries| == |l.m.domains| && Accounted(l.m, l.log, i, false)
  {
  }

  /**
    Over any run of a message with a sender: a recipient that wants to hear of failures, is marked as
    reported and is not delivered, has failed and has exactly one failure notice in the log. One that is not
    marked has none.
  */
  lemma FailureToldOnce(l: Life, steps: seq<Step>, config: Config, l': Life, i: nat)
    requires ValidConfig(config) && New(l, config) && Reaches(l, steps, config, l') && l.m.returnPath != [] && i < |l.m.recipients|
    ensures Indexed(l'.m) && |l'.m.recipients| == |l.m.recipients|
    ensures
      var r, d := l'.m.recipients[i], l'.m.domains[l'.m.recipients[i].domainIdx];
      && (r.flags.dsnSent && !r.status.Completed? ==>
            HasFailed(r, d) && Told(l'.log, i, Failed) == (if r.flags.notifyFailure then 1 else 0) && Told(l'.log, i, Success) == 0)
      && (!r.flags.dsnSent ==> Told(l'.log, i, Failed) == 0 && Told(l'.log, i, Success) == 0)
  {
    hide Reaches, New, Told, Sound;
    RunAccounted(l, steps, config, l', i);
  }

  /** And one that is delivered, by no operator, has exactly one success notice if it wants to hear of that. */
  lemma SuccessToldOnce(l: Life, steps: seq<Step>, config: Config, l': Life, i: nat)
    requires ValidConfig(config) && New(l, config) && Reaches(l, steps, config, l') && l.m.returnPath != [] && i < |l.m.recipients|
    requires !CancelledIn(steps, i)
    ensures Indexed(l'.m) && |l'.m.recipients| == |l.m.recipients|
    ensures
      var r := l'.m.recipients[i];
      r.flags.dsnSent && r.status.Completed? ==>
        Told(l'.log, i, Success) == (if r.flags.notifySuccess then 1 else 0) && Told(l'.log, i, Failed) == 0
  {
    hide Reaches, New, Told, Sound, CancelledIn;
    RunAccounted(l, steps, config, l', i);
  }

  /** So when a message leaves the queue on its own, every failure that its sender wants to hear of was told, once. */
  lemma FailuresAreTold(l: Life, steps: seq<Step>, config: Config, l': Life, i: nat)
    requires ValidConfig(config) && New(l, config) && Reaches(l, steps, config, l') && l.m.returnPath != [] && i < |l.m.recipients|
    requires l'.fate == Finished
    ensures Indexed(l'.m) && |l'.m.recipients| == |l.m.recipients|
    ensures
      var r, d := l'.m.recipients[i], l'.m.domains[l'.m.recipients[i].domainIdx];
      HasFailed(r, d) && r.flags.notifyFailure && !r.flags.notifyNever ==> Told(l'.log, i, Failed) == 1
  {
    hide Reaches, New, Told, Sound;
    RunAccounted(l, steps, config, l', i);
    FinishedIsReported(l, steps, config, l');
    assert MessageTheorems.Reported(l'.m, i);
  }
}
