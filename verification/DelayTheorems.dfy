/** How many delay notices a recipient can get over the life of a message. */
module DelayTheorems {
  import opened Prelude
  import opened QueueTypes
  import opened Session
  import opened Lifecycle
  import opened Journal
  import opened MessageLife
  import opened MessageProofs
  import opened NoticeProofs
  import opened RetryProofs
  import opened MessageTheorems

  // ----- What breaks the bound -----

  /** A notify time that was put behind the expiry, so as never to come, is reached by `t` all the same. */
  predicate Overtaken(d: Domain, t: Instant) {
    d.status.Pending() && d.expires < d.notify.due <= t
  }

  /** The message as the worker's loop leaves it, before its last report. */
  ghost function BeforeReport(l: Life, at: Instant, turns: seq<Turn>, config: Config): (m: Message)
    requires Indexed(l.m) && |turns| == |l.m.domains|
    ensures |m.domains| == |l.m.domains|
  {
    OpenedIndexed(l.m, at, config);
    Worked(Opened(l.m, at, config), turns, |turns|)
  }

  /** The step lets domain `i` overtake: an operator's request moves the expiry, or an attempt outlasts it. */
  ghost predicate Breaks(l: Life, step: Step, config: Config, i: nat)
    requires Enabled(l, step) && i < |l.m.domains|
  {
    match step
    case AskRetry(chosen, time) =>
      i in chosen && l.m.domains[i].expires > time && Overtaken(l.m.domains[i], time + TEN_SECONDS)
    case Attempt(at, turns, finish) => Overtaken(BeforeReport(l, at, turns, config).domains[i], finish)
    case _ => false
  }

  /** The state that a run leads to, if each of its steps can be taken. */
  ghost function After(l: Life, steps: seq<Step>, config: Config): Option<Life>
    requires ValidConfig(config)
    decreases |steps|
  {
    if steps == [] then Some(l)
    else
      var last := |steps| - 1;
      var k := After(l, steps[..last], config);
      if k.Some? && Enabled(k.value, steps[last]) && |k.value.tries| == |k.value.m.domains|
      then Some(Next(k.value, steps[last], config)) else None
  }

  lemma {:induction false} ReachesIsAfter(l: Life, steps: seq<Step>, config: Config, l': Life)
    requires ValidConfig(config) && Reaches(l, steps, config, l')
    ensures After(l, steps, config) == Some(l')
    decreases |steps|
  {
    hide Next, Enabled;
    if steps != [] {
      var last := |steps| - 1;
      var k :| Reaches(l, steps[..last], config, k) && Enabled(k, steps[last]) && |k.tries| == |k.m.domains|
               && l' == Next(k, steps[last], config);
      ReachesIsAfter(l, steps[..last], config, k);
    }
  }

  /** How many steps of a run break the guard of domain `i`. */
  ghost function Breaches(l: Life, steps: seq<Step>, config: Config, i: nat): nat
    requires ValidConfig(config)
    decreases |steps|
  {
    if steps == [] then 0
    else
      var last := |steps| - 1;
      var k := After(l, steps[..last], config);
      Breaches(l, steps[..last], config, i)
      + if k.Some? && Enabled(k.value, steps[last]) && i < |k.value.m.domains| && Breaks(k.value, steps[last], config, i) then 1 else 0
  }

  // ----- The invariant of one recipient -----

  /** With `extra` breaches so far, `count` notices leave the domain this place in its notify intervals. */
  predicate Left(d: Domain, count: nat, intervals: Intervals, extra: nat) {
    && count <= |intervals| + extra
    && (d.status.Pending() ==>
          && d.notify.inner < |intervals|
          && (count <= d.notify.inner + extra || (count <= d.notify.inner + 1 + extra && d.notify.due > d.expires)))
  }

  ghost predicate LeftTo(m: Message, log: seq<Logged>, config: Config, r: nat, extra: nat) {
    && Indexed(m) && r < |m.recipients|
    && var d := DomainOf(m, m.recipients[r]); Left(d, Delays(log, r), config.notify(d.domain), extra)
  }

  function Breach(broken: bool): nat { if broken then 1 else 0 }

  /** A domain that keeps its place in the notify schedule. */
  predicate NotifyKept(d: Domain, d': Domain) {
    && d'.domain == d.domain
    && (d'.status.Pending() ==> d.status.Pending() && d'.notify == d.notify && d'.expires <= d.expires)
  }

  lemma KeptLeft(m: Message, m': Message, log: seq<Logged>, config: Config, r: nat, extra: nat)
    requires LeftTo(m, log, config, r, extra) && Indexed(m') && r < |m'.recipients|
    requires m'.recipients[r].domainIdx == m.recipients[r].domainIdx
    requires NotifyKept(DomainOf(m, m.recipients[r]), DomainOf(m', m'.recipients[r]))
    ensures LeftTo(m', log, config, r, extra)
  {
    hide Delays, Indexed;
  }

  /** A report: a notice uses up one interval, the last one puts the notify time behind the expiry. */
  lemma ReportLeft(d: Domain, count: nat, now: Instant, intervals: Intervals, extra: nat)
    requires Left(d, count, intervals, extra) && |intervals| < TWO_32
    ensures
      var extra' := extra + Breach(Overtaken(d, now));
      && Left(NextNotify(d, now, intervals), count, intervals, extra')
      && (d.status.Pending() && d.notify.due <= now ==> Left(NextNotify(d, now, intervals), count + 1, intervals, extra'))
      && Left(BouncedDomain(d, now), count, intervals, extra')
      && Left(d, count, intervals, extra')
      && NextNotify(d, now, intervals).domain == d.domain == BouncedDomain(d, now).domain
  {
  }

  lemma DsnLeft(m: Message, log: seq<Logged>, now: Instant, config: Config, r: nat, extra: nat)
    requires ValidConfig(config) && LeftTo(m, log, config, r, extra)
    ensures
      LeftTo(SendDsn(m, now, config).0, log + LogOf(SendDsn(m, now, config).1, m), config, r,
             extra + Breach(Overtaken(DomainOf(m, m.recipients[r]), now)))
  {
    hide Delays, Notices, Left, NextNotify, BouncedDomain, HasDelay, GetsDelay, GetsFinal, LogOf, NotifiedRcpt, BouncedRcpt, Overtaken;
    var (m', ns) := SendDsn(m, now, config);
    DsnIndexed(m, now, config);
    var i := m.recipients[r].domainIdx;
    var d := m.domains[i];
    DsnCount(m, now, config, r);
    CountAppend(log, LogOf(ns, m), r);
    ReportLeft(d, Delays(log, r), now, config.notify(d.domain), extra);
    if m.returnPath == [] {
      assert m'.domains[i] == BouncedDomain(d, now);
    } else {
      NoticeCount(m, now, |m.recipients|, r);
      DelayIsDue(m, now, r);
      assert m'.domains[i] == if HasDelay(ns) then NextNotify(d, now, config.notify(d.domain)) else d;
    }
  }

  lemma DsnIndexed(m: Message, now: Instant, config: Config)
    requires Indexed(m)
    ensures
      var m' := SendDsn(m, now, config).0;
      && |m'.domains| == |m.domains| && |m'.recipients| == |m.recipients| && Indexed(m')
      && forall i | 0 <= i < |m.recipients| :: m'.recipients[i].domainIdx == m.recipients[i].domainIdx
  {
    hide Notices, HasDelay;
  }

  lemma DelayIsDue(m: Message, now: Instant, r: nat)
    requires Indexed(m) && r < |m.recipients|
    ensures GetsDelay(m, now, r) ==> DomainOf(m, m.recipients[r]).notify.due <= now && DomainOf(m, m.recipients[r]).status.Pending()
  {
  }

  // ----- Steps -----

  lemma VisitLeft(m: Message, log: seq<Logged>, at: Instant, config: Config, r: nat, extra: nat)
    requires ValidConfig(config) && LeftTo(m, log, config, r, extra)
    ensures LeftTo(Opened(m, at, config), log + OpenedLog(m, at, config), config, r, extra)
  {
    hide Delays, SendDsn, LogOf, Left;
    ExpireIndexed(m, at);
    var m1 := Expire(m, at);
    KeptLeft(m, m1, log, config, r, extra);
    DsnLeft(m1, log, at, config, r, extra);
  }

  lemma WorkedLeft(m: Message, turns: seq<Turn>, log: seq<Logged>, config: Config, r: nat, extra: nat)
    requires |turns| == |m.domains| && Sound(m) && LeftTo(m, log, config, r, extra)
    requires forall i | 0 <= i < |turns| :: ValidTurn(turns[i])
    ensures LeftTo(Worked(m, turns, |turns|), log, config, r, extra)
  {
    hide Worked, Sound, Delays, Left;
    var m', i := Worked(m, turns, |turns|), m.recipients[r].domainIdx;
    WorkedKeeps(m, turns, |turns|);
    assert RcptProgress(m.recipients[r], m'.recipients[r]);
    SoundIndexed(m');
    WorkedDomain(m, turns, |turns|, i);
    TurnKeepsNotify(m.domains[i], i, Worked(m, turns, i).recipients, turns[i]);
    KeptLeft(m, m', log, config, r, extra);
  }

  lemma TurnKeepsNotify(d: Domain, i: nat, rs: seq<Recipient>, t: Turn)
    ensures NotifyKept(d, TurnDomain(d, i, rs, t))
  {
    hide DomainAfter, Interval;
  }

  lemma StoredLeft(m: Message, log: seq<Logged>, config: Config, r: nat, extra: nat)
    requires LeftTo(m, log, config, r, extra)
    ensures LeftTo(Stored(m), log, config, r, extra)
  {
    hide SomePending, Delays, Left;
    KeptLeft(m, Stored(m), log, config, r, extra);
  }

  lemma AttemptLeft(l: Life, step: Step, config: Config, r: nat, extra: nat)
    requires ValidConfig(config) && Sound(l.m) && step.Attempt? && Enabled(l, step) && |l.tries| == |l.m.domains|
    requires LeftTo(l.m, l.log, config, r, extra)
    ensures
      var l' := AfterAttempt(l, step.at, step.turns, step.finish, config);
      LeftTo(l'.m, l'.log, config, r, extra + Breach(Breaks(l, step, config, l.m.recipients[r].domainIdx)))
  {
    hide SendDsn, LogOf, LeftTo, Sound, Stored, Worked, Opened, OpenedLog, SomePending, TriedBy, Overtaken, Left;
    var at, turns, finish := step.at, step.turns, step.finish;
    assert r < |l.m.recipients| by { assert LeftTo(l.m, l.log, config, r, extra); LeftHas(l.m, l.log, config, r, extra); }
    VisitLeft(l.m, l.log, at, config, r, extra);
    OpenedKeeps(l.m, at, config);
    var m2, log2 := Opened(l.m, at, config), l.log + OpenedLog(l.m, at, config);
    WorkedLeft(m2, turns, log2, config, r, extra);
    WorkedKeeps(m2, turns, |turns|);
    var m3 := Worked(m2, turns, |turns|);
    SoundIndexed(m3);
    ProgressTransitive(l.m, m2, m3);
    assert RcptProgress(l.m.recipients[r], m3.recipients[r]);
    DsnLeft(m3, log2, finish, config, r, extra);
    StoredLeft(SendDsn(m3, finish, config).0, log2 + LogOf(SendDsn(m3, finish, config).1, m3), config, r,
               extra + Breach(Overtaken(DomainOf(m3, m3.recipients[r]), finish)));
  }

  lemma LeftHas(m: Message, log: seq<Logged>, config: Config, r: nat, extra: nat)
    requires LeftTo(m, log, config, r, extra)
    ensures Indexed(m) && r < |m.recipients|
  {
  }

  lemma AskRetryLeft(l: Life, step: Step, config: Config, r: nat, extra: nat)
    requires ValidConfig(config) && step.AskRetry? && Enabled(l, step) && |l.tries| == |l.m.domains|
    requires LeftTo(l.m, l.log, config, r, extra)
    ensures
      LeftTo(Next(l, step, config).m, l.log, config, r, extra + Breach(Breaks(l, step, config, l.m.recipients[r].domainIdx)))
  {
    hide Delays;
    var m' := Next(l, step, config).m;
    var i := l.m.recipients[r].domainIdx;
    assert m'.domains[i] == RetriedDomain(l.m.domains[i], i, step.chosen, step.time).(changed := false);
    assert m'.recipients[r].domainIdx == i;
  }

  lemma StepLeft(l: Life, step: Step, config: Config, r: nat, extra: nat)
    requires ValidConfig(config) && Sound(l.m) && Enabled(l, step) && |l.tries| == |l.m.domains|
    requires LeftTo(l.m, l.log, config, r, extra)
    ensures
      var l' := Next(l, step, config);
      LeftTo(l'.m, l'.log, config, r, extra + Breach(Breaks(l, step, config, l.m.recipients[r].domainIdx)))
  {
    hide LeftTo, Sound, SomePending, AfterAttempt, Opened, OpenedLog, Stored, Cancel, Cleared;
    LeftHas(l.m, l.log, config, r, extra);
    match step
    case Visit(at) =>
      VisitLeft(l.m, l.log, at, config, r, extra);
      StoredLeft(Opened(l.m, at, config), l.log + OpenedLog(l.m, at, config), config, r, extra);
    case Attempt(at, turns, finish) => AttemptLeft(l, step, config, r, extra);
    case CancelSome(chosen, response) => CancelLeft(l, step, config, r, extra);
    case CancelAll =>
    case AskRetry(chosen, time) => AskRetryLeft(l, step, config, r, extra);
  }

  lemma CancelLeft(l: Life, step: Step, config: Config, r: nat, extra: nat)
    requires ValidConfig(config) && step.CancelSome? && Enabled(l, step) && |l.tries| == |l.m.domains|
    requires LeftTo(l.m, l.log, config, r, extra)
    ensures LeftTo(Next(l, step, config).m, l.log, config, r, extra)
  {
    hide SomePending, Delays, Left, AllSettled;
    var m' := Next(l, step, config).m;
    assert m'.recipients[r].domainIdx == l.m.recipients[r].domainIdx;
    KeptLeft(l.m, m', l.log, config, r, extra);
  }

  // ----- Theorems -----

  lemma {:induction false} RunLeft(l: Life, steps: seq<Step>, config: Config, l': Life, r: nat)
    requires ValidConfig(config) && New(l, config) && Reaches(l, steps, config, l') && r < |l.m.recipients|
    ensures r < |l'.m.recipients| && l'.m.recipients[r].domainIdx == l.m.recipients[r].domainIdx
    ensures LeftTo(l'.m, l'.log, config, r, Breaches(l, steps, config, l.m.recipients[r].domainIdx))
    decreases |steps|
  {
    hide Sound, Next, Enabled, New, LeftTo, Breaks, Indexed;
    NewIsSound(l, config);
    NewShape(l, config);
    SettledForever(l, steps, config, l');
    assert RcptProgress(l.m.recipients[r], l'.m.recipients[r]);
    if steps == [] {
      NewLeft(l, config, r);
    } else {
      var last := |steps| - 1;
      var k :| Reaches(l, steps[..last], config, k) && Enabled(k, steps[last]) && |k.tries| == |k.m.domains|
               && l' == Next(k, steps[last], config);
      RunLeft(l, steps[..last], config, k, r);
      ReachesIsAfter(l, steps[..last], config, k);
      SettledForever(l, steps[..last], config, k);
      LeftHas(k.m, k.log, config, r, Breaches(l, steps[..last], config, l.m.recipients[r].domainIdx));
      assert l.m.recipients[r].domainIdx < |k.m.domains| by { IndexedAt(k.m, r); }
      StepLeft(k, steps[last], config, r, Breaches(l, steps[..last], config, l.m.recipients[r].domainIdx));
    }
  }

  lemma IndexedAt(m: Message, r: nat)
    requires Indexed(m) && r < |m.recipients|
    ensures m.recipients[r].domainIdx < |m.domains|
  {
  }

  lemma NewLeft(l: Life, config: Config, r: nat)
    requires New(l, config) && r < |l.m.recipients|
    ensures LeftTo(l.m, l.log, config, r, 0)
  {
  }

  /**
    Over every run, a recipient gets at most one delay notice for each notify interval while its
    domain is pending, and one more for each step that breaks the guard.
  */
  lemma DelayNoticesCounted(l: Life, steps: seq<Step>, config: Config, l': Life, r: nat)
    requires ValidConfig(config) && New(l, config) && Reaches(l, steps, config, l') && r < |l.m.recipients|
    ensures
      var i := l.m.recipients[r].domainIdx;
      Delays(l'.log, r) <= |config.notify(l.m.domains[i].domain)| + Breaches(l, steps, config, i)
  {
    hide Sound, Reaches, Delays, Breaches;
    RunLeft(l, steps, config, l', r);
    NewIsSound(l, config);
    SettledForever(l, steps, config, l');
    var i := l.m.recipients[r].domainIdx;
    assert DomainProgress(l.m.domains[i], l'.m.domains[i]);
  }

  /** So the promise of one notice for each interval holds in every run in which no step breaks the guard. */
  lemma DelayNoticesBounded(l: Life, steps: seq<Step>, config: Config, l': Life, r: nat)
    requires ValidConfig(config) && New(l, config) && Reaches(l, steps, config, l') && r < |l.m.recipients|
    requires Breaches(l, steps, config, l.m.recipients[r].domainIdx) == 0
    ensures Delays(l'.log, r) <= |config.notify(l.m.domains[l.m.recipients[r].domainIdx].domain)|
  {
    hide Breaches, Delays, Reaches;
    DelayNoticesCounted(l, steps, config, l', r);
  }
}
