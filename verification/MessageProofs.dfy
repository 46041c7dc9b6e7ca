/** What every step of a message's life keeps. */
module MessageProofs {
  import opened Prelude
  import opened QueueTypes
  import opened Session
  import opened Lifecycle
  import opened Journal
  import opened MessageLife

  /** A completed domain has settled recipients only. */
  predicate Sound(m: Message) {
    Indexed(m) && forall i | 0 <= i < |m.domains| && m.domains[i].status.Completed? :: AllSettled(m.recipients, i)
  }

  predicate DomainProgress(d: Domain, d': Domain) {
    d'.domain == d.domain && (d.status.Terminal() ==> d'.status == d.status)
  }

  predicate RcptProgress(r: Recipient, r': Recipient) {
    && r'.domainIdx == r.domainIdx && (r.status.Terminal() ==> r'.status.Terminal())
    && (r.flags.dsnSent ==> r'.flags.dsnSent)
    && r'.flags == r.flags.(dsnSent := r'.flags.dsnSent, statusChanged := r'.flags.statusChanged)
  }

  /** What is settled stays settled, and what was reported stays reported. */
  predicate Progress(m: Message, m': Message) {
    && m'.returnPath == m.returnPath && |m'.domains| == |m.domains| && |m'.recipients| == |m.recipients|
    && (forall i | 0 <= i < |m.domains| :: DomainProgress(m.domains[i], m'.domains[i]))
    && (forall i | 0 <= i < |m.recipients| :: RcptProgress(m.recipients[i], m'.recipients[i]))
  }

  lemma ProgressTransitive(a: Message, b: Message, c: Message)
    requires Progress(a, b) && Progress(b, c)
    ensures Progress(a, c)
  {
  }

  lemma ExpireKeeps(m: Message, now: Instant)
    requires Sound(m)
    ensures Sound(Expire(m, now)) && Progress(m, Expire(m, now))
  {
    var m' := Expire(m, now);
    forall i | 0 <= i < |m.recipients| ensures RcptProgress(m.recipients[i], m'.recipients[i]) {
    }
    forall i | 0 <= i < |m'.domains| && m'.domains[i].status.Completed? ensures AllSettled(m'.recipients, i) {
      assert m.domains[i].status.Completed?;
    }
  }

  /** Notifications change no status. */
  lemma DsnKeeps(m: Message, now: Instant, config: Config)
    requires Sound(m)
    ensures
      var m' := SendDsn(m, now, config).0;
      && Sound(m') && Progress(m, m')
      && (forall i | 0 <= i < |m.domains| :: m'.domains[i].status == m.domains[i].status
            && m'.domains[i].retry == m.domains[i].retry && m'.domains[i].expires == m.domains[i].expires)
      && (forall i | 0 <= i < |m.recipients| :: m'.recipients[i].status == m.recipients[i].status)
  {
    hide Notices, HasDelay;
    var m' := SendDsn(m, now, config).0;
    forall i | 0 <= i < |m.recipients|
      ensures m'.recipients[i].status == m.recipients[i].status && RcptProgress(m.recipients[i], m'.recipients[i])
    {
    }
    forall i | 0 <= i < |m.domains|
      ensures DomainProgress(m.domains[i], m'.domains[i]) && m'.domains[i].status == m.domains[i].status
           && m'.domains[i].retry == m.domains[i].retry && m'.domains[i].expires == m.domains[i].expires
    {
      if m.returnPath == [] {
        assert m'.domains[i] == BouncedDomain(m.domains[i], now);
      } else {
        assert m'.domains[i] == m.domains[i] || m'.domains[i] == NextNotify(m.domains[i], now, config.notify(m.domains[i].domain));
      }
    }
    forall i | 0 <= i < |m'.domains| && m'.domains[i].status.Completed? ensures AllSettled(m'.recipients, i) {
      assert m.domains[i].status.Completed?;
    }
  }

  lemma TurnKeeps(m: Message, i: nat, t: Turn)
    requires Sound(m) && i < |m.domains| && ValidTurn(t)
    ensures Sound(TakeTurn(m, i, t)) && Progress(m, TakeTurn(m, i, t))
  {
    hide DomainAfter, RcptsAfter;
    var m' := TakeTurn(m, i, t);
    forall j | 0 <= j < |m.recipients|
      ensures RcptProgress(m.recipients[j], m'.recipients[j])
      ensures m.recipients[j].domainIdx != i ==> m'.recipients[j] == m.recipients[j]
    {
      if t.outcome.Talked? {
        assert |RcptsAfter(m.recipients, i, t.outcome.script)| == |m.recipients| by { SameLength(m.recipients, i, t.outcome.script); }
        SessionTouchesOnlyWaiting(m.recipients, i, t.outcome.script, j);
      }
    }
    forall j | 0 <= j < |m'.domains| && m'.domains[j].status.Completed? ensures AllSettled(m'.recipients, j) {
      if j == i {
        if t.outcome.Talked? {
          CompletedMeansSettled(m.recipients, i, t.outcome.script);
        }
      } else {
        assert AllSettled(m.recipients, j);
      }
    }
  }

  lemma SameLength(rs: seq<Recipient>, idx: nat, script: Script)
    ensures |RcptsAfter(rs, idx, script)| == |rs|
  {
  }

  lemma {:induction false} WorkedKeeps(m: Message, turns: seq<Turn>, n: nat)
    requires Sound(m) && n <= |m.domains| && |turns| == |m.domains|
    requires forall i | 0 <= i < |turns| :: ValidTurn(turns[i])
    ensures Sound(Worked(m, turns, n)) && Progress(m, Worked(m, turns, n))
  {
    hide TakeTurn, Sound;
    if n > 0 {
      WorkedKeeps(m, turns, n - 1);
      var m1 := Worked(m, turns, n - 1);
      TurnKeeps(m1, n - 1, turns[n - 1]);
      ProgressTransitive(m, m1, Worked(m, turns, n));
    }
  }

  lemma CancelKeeps(m: Message, chosen: set<nat>, response: HostResponse<Text>)
    requires Sound(m)
    ensures Sound(Cancel(m, chosen, response)) && Progress(m, Cancel(m, chosen, response))
  {
    var m' := Cancel(m, chosen, response);
    forall j | 0 <= j < |m.recipients| ensures RcptProgress(m.recipients[j], m'.recipients[j]) {
    }
    forall i | 0 <= i < |m'.domains| && m'.domains[i].status.Completed? ensures AllSettled(m'.recipients, i) {
      if m.domains[i].status.Completed? {
        assert AllSettled(m.recipients, i);
      }
    }
  }

  lemma AskRetryKeeps(m: Message, chosen: set<nat>, time: Instant)
    requires Sound(m)
    ensures Sound(OperatorRetry(m, chosen, time)) && Progress(m, OperatorRetry(m, chosen, time))
  {
    var m' := OperatorRetry(m, chosen, time);
    forall i | 0 <= i < |m'.domains| && m'.domains[i].status.Completed? ensures AllSettled(m'.recipients, i) {
      assert m.domains[i].status.Completed?;
    }
  }

  lemma SaveKeeps(m: Message)
    requires Sound(m)
    ensures Sound(Cleared(m)) && Progress(m, Cleared(m))
    ensures SomePending(Cleared(m)) <==> SomePending(m)
  {
    var m' := Cleared(m);
    forall i | 0 <= i < |m'.domains| && m'.domains[i].status.Completed? ensures AllSettled(m'.recipients, i) {
      assert m.domains[i].status.Completed?;
    }
    if i :| 0 <= i < |m.domains| && m.domains[i].status.Pending() {
      assert m'.domains[i].status.Pending();
    }
    if i :| 0 <= i < |m'.domains| && m'.domains[i].status.Pending() {
      assert m.domains[i].status.Pending();
    }
  }

  lemma StoredKeeps(m0: Message, m: Message)
    requires Sound(m) && Progress(m0, m)
    ensures Sound(Stored(m)) && Progress(m0, Stored(m))
  {
    hide Sound, Progress, Cleared, SomePending;
    SaveKeeps(m);
    if SomePending(m) {
      ProgressTransitive(m0, m, Cleared(m));
    }
  }

  lemma OpenedKeeps(m: Message, at: Instant, config: Config)
    requires Sound(m)
    ensures Sound(Opened(m, at, config)) && Progress(m, Opened(m, at, config))
  {
    hide Sound, Progress, SendDsn, Expire;
    assert Indexed(m) by { SoundIndexed(m); }
    ExpireKeeps(m, at);
    assert Indexed(Expire(m, at)) by { SoundIndexed(Expire(m, at)); }
    DsnKeeps(Expire(m, at), at, config);
    ProgressTransitive(m, Expire(m, at), Opened(m, at, config));
  }

  lemma SoundIndexed(m: Message)
    requires Sound(m)
    ensures Indexed(m)
  {
  }

  lemma AttemptKeeps(l: Life, at: Instant, turns: seq<Turn>, finish: Instant, config: Config)
    requires Sound(l.m) && ValidConfig(config) && |turns| == |l.m.domains| == |l.tries| && InOrder(turns, at, finish)
    ensures Sound(AfterAttempt(l, at, turns, finish, config).m) && Progress(l.m, AfterAttempt(l, at, turns, finish, config).m)
  {
    hide Sound, SendDsn, Opened, OpenedLog, LogOf, Stored, TriedBy;
    SoundIndexed(l.m);
    var m2 := Opened(l.m, at, config);
    OpenedKeeps(l.m, at, config);
    WorkedKeeps(m2, turns, |turns|);
    var m3 := Worked(m2, turns, |turns|);
    SoundIndexed(m3);
    DsnKeeps(m3, finish, config);
    var m4 := SendDsn(m3, finish, config).0;
    ProgressTransitive(l.m, m2, m3);
    ProgressTransitive(l.m, m3, m4);
    StoredKeeps(l.m, m4);
  }

  /** Every step keeps completed domains settled, and settles for good. */
  lemma StepKeeps(l: Life, step: Step, config: Config)
    requires Sound(l.m) && Enabled(l, step) && ValidConfig(config) && |l.tries| == |l.m.domains|
    ensures
      var l' := Next(l, step, config);
      Sound(l'.m) && Progress(l.m, l'.m) && |l'.tries| == |l'.m.domains|
  {
    hide Sound, Stored, Cleared, SomePending, Opened, OpenedLog, Cancel, OperatorRetry, AfterAttempt;
    match step
    case Visit(at) =>
      OpenedKeeps(l.m, at, config);
      StoredKeeps(l.m, Opened(l.m, at, config));
    case Attempt(at, turns, finish) =>
      AttemptKeeps(l, at, turns, finish, config);
      AttemptTries(l, at, turns, finish, config);
    case CancelSome(chosen, response) =>
      CancelKeeps(l.m, chosen, response);
      SaveKeeps(Cancel(l.m, chosen, response));
      ProgressTransitive(l.m, Cancel(l.m, chosen, response), Cleared(Cancel(l.m, chosen, response)));
    case CancelAll =>
    case AskRetry(chosen, time) =>
      AskRetryKeeps(l.m, chosen, time);
      SaveKeeps(OperatorRetry(l.m, chosen, time));
      ProgressTransitive(l.m, OperatorRetry(l.m, chosen, time), Cleared(OperatorRetry(l.m, chosen, time)));
  }

  lemma AttemptTries(l: Life, at: Instant, turns: seq<Turn>, finish: Instant, config: Config)
    requires Indexed(l.m) && ValidConfig(config) && |turns| == |l.m.domains| == |l.tries|
    ensures
      var l' := AfterAttempt(l, at, turns, finish, config);
      && |l'.tries| == |turns| && l'.now == finish && |Opened(l.m, at, config).domains| == |turns|
      && (forall i | 0 <= i < |turns| :: l'.tries[i] == l.tries[i] + TriedBy(Opened(l.m, at, config), i, turns[i], at))
  {
    OpenedIndexed(l.m, at, config);
  }
}
