/** What holds of a message at every moment of its life in the queue. */
module MessageTheorems {
  import opened Prelude
  import opened QueueTypes
  import opened Session
  import opened Lifecycle
  import opened Journal
  import opened MessageLife
  import opened MessageProofs
  import opened NoticeProofs
  import opened RetryProofs

  // ----- Settled for good -----

  /** Along any run, settled domains and recipients stay settled, and completed domains have settled recipients only. */
  lemma {:induction false} SettledForever(l: Life, steps: seq<Step>, config: Config, l': Life)
    requires ValidConfig(config) && Sound(l.m) && |l.tries| == |l.m.domains| && Reaches(l, steps, config, l')
    ensures Sound(l'.m) && Progress(l.m, l'.m) && |l'.tries| == |l'.m.domains|
    decreases |steps|
  {
    hide Sound, Next, Enabled;
    if steps == [] {
      ProgressReflexive(l.m);
    } else {
      var last := |steps| - 1;
      var k :| Reaches(l, steps[..last], config, k) && Enabled(k, steps[last]) && |k.tries| == |k.m.domains|
               && l' == Next(k, steps[last], config);
      SettledForever(l, steps[..last], config, k);
      StepKeeps(k, steps[last], config);
      ProgressTransitive(l.m, k.m, l'.m);
    }
  }

  lemma ProgressReflexive(m: Message)
    ensures Progress(m, m)
  {
  }

  lemma NewIsSound(l: Life, config: Config)
    requires New(l, config)
    ensures Sound(l.m)
  {
  }

  /**
    A recipient that is settled gets no further RCPT command: not in the session of any domain `idx`,
    whatever came before it in any later attempt.
  */
  lemma SettledGetsNoRcpt(l: Life, steps: seq<Step>, config: Config, l': Life, r: nat, at: Instant, turns: seq<Turn>, n: nat, idx: nat)
    requires ValidConfig(config) && Sound(l.m) && |l.tries| == |l.m.domains| && Reaches(l, steps, config, l')
    requires r < |l.m.recipients| && l.m.recipients[r].status.Terminal()
    requires n <= |turns| == |l'.m.domains| && forall i | 0 <= i < |turns| :: ValidTurn(turns[i])
    ensures Indexed(l'.m) && |Opened(l'.m, at, config).domains| == |turns|
    ensures
      var rs := Worked(Opened(l'.m, at, config), turns, n).recipients;
      r < |rs| && !Waits(rs[r], idx) && Commands(rs, idx, r + 1) == Commands(rs, idx, r)
  {
    hide Sound, Opened, Worked, Reaches, ValidTurn;
    SettledForever(l, steps, config, l');
    SoundIndexed(l'.m);
    OpenedKeeps(l'.m, at, config);
    var m2 := Opened(l'.m, at, config);
    WorkedKeeps(m2, turns, n);
    ProgressTransitive(l.m, l'.m, m2);
    ProgressTransitive(l.m, m2, Worked(m2, turns, n));
    assert RcptProgress(l.m.recipients[r], Worked(m2, turns, n).recipients[r]);
  }

  // ----- Leaving the queue -----

  /** The report that ends a message's life leaves exactly the temporary failures unreported, all of them in failed domains. */
  lemma LastReport(m: Message, now: Instant, config: Config, r: nat)
    requires Sound(m) && AllTerminal(m) && m.returnPath != [] && r < |m.recipients|
    ensures
      var m' := SendDsn(m, now, config).0;
      && (Silent(m'.recipients[r]) <==> Silent(m.recipients[r]) || !m.recipients[r].status.TemporaryFailure?)
      && (m.recipients[r].status.TemporaryFailure? ==> DomainOf(m, m.recipients[r]).status.PermanentFailure?)
  {
    hide Notices;
    assert DomainOf(m, m.recipients[r]).status.Completed? ==> AllSettled(m.recipients, m.recipients[r].domainIdx);
  }

  predicate Reported(m: Message, r: nat)
    requires Indexed(m) && r < |m.recipients|
  {
    || Silent(m.recipients[r])
    || (m.recipients[r].status.TemporaryFailure? && DomainOf(m, m.recipients[r]).status.PermanentFailure?)
  }

  predicate FinishedWell(l: Life) {
    l.fate == Finished ==>
      && Indexed(l.m) && AllTerminal(l.m)
      && (l.m.returnPath != [] ==> forall r | 0 <= r < |l.m.recipients| :: Reported(l.m, r))
  }

  lemma NotPendingIsTerminal(m: Message)
    ensures !SomePending(m) <==> AllTerminal(m)
  {
    forall i | 0 <= i < |m.domains| ensures m.domains[i].status.Pending() <==> !m.domains[i].status.Terminal() {
    }
  }

  lemma DsnFinishes(m: Message, now: Instant, config: Config)
    requires Sound(m)
    ensures
      var m' := SendDsn(m, now, config).0;
      !SomePending(m') ==> Indexed(m') && AllTerminal(m') && (m'.returnPath != [] ==> forall r | 0 <= r < |m'.recipients| :: Reported(m', r))
  {
    hide SendDsn, Silent;
    DsnKeeps(m, now, config);
    var m' := SendDsn(m, now, config).0;
    NotPendingIsTerminal(m');
    if !SomePending(m') && m'.returnPath != [] {
      assert AllTerminal(m);
      forall r | 0 <= r < |m'.recipients| ensures Reported(m', r) {
        LastReport(m, now, config, r);
      }
    }
  }

  lemma StepFinishesWell(l: Life, step: Step, config: Config)
    requires Sound(l.m) && Enabled(l, step) && ValidConfig(config) && |l.tries| == |l.m.domains|
    ensures FinishedWell(Next(l, step, config))
  {
    hide SendDsn, SomePending, OpenedLog, LogOf, TriedBy, Sound, Reported, AllTerminal, Worked, Expire;
    SoundIndexed(l.m);
    match step
    case Visit(at) =>
      ExpireKeeps(l.m, at);
      DsnFinishes(Expire(l.m, at), at, config);
    case Attempt(at, turns, finish) =>
      OpenedKeeps(l.m, at, config);
      OpenedIndexed(l.m, at, config);
      var m2 := Opened(l.m, at, config);
      WorkedKeeps(m2, turns, |turns|);
      DsnFinishes(Worked(m2, turns, |turns|), finish, config);
    case CancelSome(_, _) =>
    case CancelAll =>
    case AskRetry(_, _) =>
  }

  /** A step leaves a message in the queue if and only if a domain is pending afterwards; an operator's cancel of all of it never does. */
  lemma StaysIffPending(l: Life, step: Step, config: Config)
    requires Sound(l.m) && Enabled(l, step) && ValidConfig(config) && |l.tries| == |l.m.domains|
    ensures
      var l' := Next(l, step, config);
      match step
      case Visit(_) => l'.fate == if SomePending(l'.m) then Queued else Finished
      case Attempt(_, _, _) => l'.fate == if SomePending(l'.m) then Queued else Finished
      case CancelSome(_, _) => l'.fate == if SomePending(l'.m) then Queued else Cancelled
      case CancelAll => l'.fate == Cancelled
      case AskRetry(_, _) => l'.fate == Queued
  {
    hide SendDsn, OpenedLog, LogOf, TriedBy, Sound, Worked, Expire, SomePending, Cleared, Cancel;
    match step
    case Visit(at) => ClearedPending(Opened(l.m, at, config));
    case Attempt(at, turns, finish) =>
      OpenedIndexed(l.m, at, config);
      WorkedIndexed(Opened(l.m, at, config), turns, |turns|);
      ClearedPending(SendDsn(Worked(Opened(l.m, at, config), turns, |turns|), finish, config).0);
    case CancelSome(chosen, response) => ClearedPending(Cancel(l.m, chosen, response));
    case CancelAll =>
    case AskRetry(_, _) =>
  }

  lemma ClearedPending(m: Message)
    ensures SomePending(Cleared(m)) <==> SomePending(m)
  {
    var m' := Cleared(m);
    assert |m'.domains| == |m.domains| && forall i | 0 <= i < |m.domains| :: m'.domains[i].status == m.domains[i].status;
    if i :| 0 <= i < |m.domains| && m.domains[i].status.Pending() {
      assert m'.domains[i].status.Pending();
    }
    if i :| 0 <= i < |m'.domains| && m'.domains[i].status.Pending() {
      assert m.domains[i].status.Pending();
    }
  }

  /**
    A message leaves the queue on its own only when all its domains are settled, and then every
    recipient of a message with a sender was reported, wants no reports, or is a temporary failure
    in a domain that failed for good.
  */
  lemma FinishedIsReported(l: Life, steps: seq<Step>, config: Config, l': Life)
    requires ValidConfig(config) && New(l, config) && Reaches(l, steps, config, l')
    ensures FinishedWell(l')
  {
    hide Sound, Next, Enabled, Indexed, New;
    NewIsSound(l, config);
    assert |l.tries| == |l.m.domains| && l.fate == Queued by { NewShape(l, config); }
    if steps != [] {
      var last := |steps| - 1;
      var k :| Reaches(l, steps[..last], config, k) && Enabled(k, steps[last]) && |k.tries| == |k.m.domains|
               && l' == Next(k, steps[last], config);
      SettledForever(l, steps[..last], config, k);
      StepFinishesWell(k, steps[last], config);
    }
  }

  lemma NewShape(l: Life, config: Config)
    requires New(l, config)
    ensures |l.tries| == |l.m.domains| && l.fate == Queued && l.log == []
  {
  }

  // ----- Notices -----

  lemma AttemptReportsOnce(l: Life, at: Instant, turns: seq<Turn>, finish: Instant, config: Config)
    requires Sound(l.m) && ValidConfig(config) && |turns| == |l.m.domains| == |l.tries| && InOrder(turns, at, finish)
    requires OnceReported(l.m, l.log)
    ensures OnceReported(AfterAttempt(l, at, turns, finish, config).m, AfterAttempt(l, at, turns, finish, config).log)
  {
    hide SendDsn, LogOf, OnceReported, Sound, SomePending, Worked, TriedBy, Expire;
    SoundIndexed(l.m);
    ExpireKeeps(l.m, at);
    var m1 := Expire(l.m, at);
    SoundIndexed(m1);
    ProgressOnce(l.m, m1, l.log);
    DsnOnce(m1, l.log, at, config);
    DsnKeeps(m1, at, config);
    var m2, log2 := SendDsn(m1, at, config).0, l.log + LogOf(SendDsn(m1, at, config).1, m1);
    WorkedKeeps(m2, turns, |turns|);
    var m3 := Worked(m2, turns, |turns|);
    SoundIndexed(m3);
    ProgressOnce(m2, m3, log2);
    DsnOnce(m3, log2, finish, config);
    DsnKeeps(m3, finish, config);
    var m4 := SendDsn(m3, finish, config).0;
    ProgressReflexive(m4);
    StoredKeeps(m4, m4);
    ProgressOnce(m4, Stored(m4), log2 + LogOf(SendDsn(m3, finish, config).1, m3));
  }

  lemma StepReportsOnce(l: Life, step: Step, config: Config)
    requires Sound(l.m) && ValidConfig(config) && Enabled(l, step) && |l.tries| == |l.m.domains| && OnceReported(l.m, l.log)
    ensures OnceReported(Next(l, step, config).m, Next(l, step, config).log)
  {
    hide SendDsn, LogOf, OnceReported, Sound, SomePending, AfterAttempt, Expire, Cancel, OperatorRetry, Stored;
    SoundIndexed(l.m);
    match step
    case Visit(at) =>
      ExpireKeeps(l.m, at);
      var m1 := Expire(l.m, at);
      SoundIndexed(m1);
      ProgressOnce(l.m, m1, l.log);
      DsnOnce(m1, l.log, at, config);
      DsnKeeps(m1, at, config);
      var m2 := SendDsn(m1, at, config).0;
      ProgressReflexive(m2);
      StoredKeeps(m2, m2);
      ProgressOnce(m2, Stored(m2), l.log + LogOf(SendDsn(m1, at, config).1, m1));
    case Attempt(at, turns, finish) => AttemptReportsOnce(l, at, turns, finish, config);
    case _ =>
      StepKeeps(l, step, config);
      ProgressOnce(l.m, Next(l, step, config).m, l.log);
  }

  /** Over any run a recipient gets at most one delivered or failed notice, and a message without a sender causes none at all. */
  lemma {:induction false} OneFinalNotice(l: Life, steps: seq<Step>, config: Config, l': Life)
    requires ValidConfig(config) && New(l, config) && Reaches(l, steps, config, l')
    ensures forall r | 0 <= r < |l'.m.recipients| :: Finals(l'.log, r) <= if l'.m.recipients[r].flags.dsnSent then 1 else 0
    ensures l.m.returnPath == [] ==> l'.log == []
    decreases |steps|
  {
    hide Sound, Next, Enabled, Indexed, New, Finals;
    NewIsSound(l, config);
    NewShape(l, config);
    if steps == [] {
      NoFinalsYet(l);
    } else {
      var last := |steps| - 1;
      var k :| Reaches(l, steps[..last], config, k) && Enabled(k, steps[last]) && |k.tries| == |k.m.domains|
               && l' == Next(k, steps[last], config);
      OneFinalNotice(l, steps[..last], config, k);
      SettledForever(l, steps[..last], config, k);
      StepReportsOnce(k, steps[last], config);
      if l.m.returnPath == [] {
        NullSenderQuiet(k, steps[last], config);
      }
    }
  }

  lemma NoFinalsYet(l: Life)
    requires l.log == []
    ensures OnceReported(l.m, l.log)
  {
  }

  lemma NullSenderQuiet(l: Life, step: Step, config: Config)
    requires Sound(l.m) && ValidConfig(config) && Enabled(l, step) && |l.tries| == |l.m.domains|
    requires l.m.returnPath == [] && l.log == []
    ensures Next(l, step, config).log == []
  {
    hide Worked, Expire, SomePending, DoubleBounced;
    if step.Visit? || step.Attempt? {
      ExpireKeeps(l.m, step.at);
    }
    if step.Attempt? {
      OpenedKeeps(l.m, step.at, config);
      WorkedKeeps(Opened(l.m, step.at, config), step.turns, |step.turns|);
    }
  }

  // ----- Retries -----

  lemma {:induction false} RunOnSchedule(l: Life, steps: seq<Step>, config: Config, l': Life)
    requires ValidConfig(config) && New(l, config) && Reaches(l, steps, config, l')
    requires forall i | 0 <= i < |steps| :: !steps[i].AskRetry?
    ensures Sound(l'.m) && AllOnSchedule(l', config) && Progress(l.m, l'.m)
    ensures forall i | 0 <= i < |l.m.domains| :: l'.m.domains[i].expires == l.m.domains[i].expires
    decreases |steps|
  {
    hide Sound, Next, Enabled, New, AllOnSchedule;
    NewIsSound(l, config);
    NewShape(l, config);
    SettledForever(l, steps, config, l');
    if steps == [] {
      NewOnSchedule(l, config);
    } else {
      var last := |steps| - 1;
      var k :| Reaches(l, steps[..last], config, k) && Enabled(k, steps[last]) && |k.tries| == |k.m.domains|
               && l' == Next(k, steps[last], config);
      RunOnSchedule(l, steps[..last], config, k);
      StepOnSchedule(k, steps[last], config);
    }
  }

  lemma NewOnSchedule(l: Life, config: Config)
    requires ValidConfig(config) && New(l, config)
    ensures AllOnSchedule(l, config)
  {
  }

  /**
    Without operator requests, attempt `k` on a domain begins no earlier than the first one plus the
    `k` intervals in between, each from the list that the attempt before it used, and its visit
    started before the domain expired.
  */
  lemma AttemptsFollowSchedule(l: Life, steps: seq<Step>, config: Config, l': Life, i: nat, k: nat)
    requires ValidConfig(config) && New(l, config) && Reaches(l, steps, config, l')
    requires forall j | 0 <= j < |steps| :: !steps[j].AskRetry?
    requires i < |l.m.domains| && i < |l'.tries| && k < |l'.tries[i]|
    ensures l'.tries[i][0].begin + Total(l'.tries[i], k) <= l'.tries[i][k].begin
    ensures l'.tries[i][k].start < l.m.domains[i].expires
  {
    hide Sound, Reaches, Total;
    RunOnSchedule(l, steps, config, l');
    assert OnSchedule(l'.m.domains[i], l'.tries[i], l'.now);
    SpacedTotal(l'.tries[i], l'.m.domains[i].expires, l'.now, k);
  }

  /** The number of attempts is bounded by the lifetime over the smallest interval of the lists used. */
  lemma AttemptsBounded(l: Life, steps: seq<Step>, config: Config, l': Life, i: nat, least: nat)
    requires ValidConfig(config) && New(l, config) && Reaches(l, steps, config, l')
    requires forall j | 0 <= j < |steps| :: !steps[j].AskRetry?
    requires i < |l.m.domains| && i < |l'.tries| && |l'.tries[i]| >= 2 && AtLeast(l'.tries[i], least)
    ensures (|l'.tries[i]| - 2) * least < l.m.domains[i].expires - l'.tries[i][0].begin
  {
    hide Sound, Reaches, Total, AtLeast;
    RunOnSchedule(l, steps, config, l');
    var a := l'.tries[i];
    assert OnSchedule(l'.m.domains[i], a, l'.now);
    var k := |a| - 2;
    SpacedTotal(a, l'.m.domains[i].expires, l'.now, k);
    TotalAtLeast(a, k, least);
    assert a[k].begin <= a[k + 1].start < l'.m.domains[i].expires;
  }
}
