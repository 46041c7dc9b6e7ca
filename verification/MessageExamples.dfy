/** Three lives that show where the reports promised to senders fall short. */
module MessageExamples {
  import opened Prelude
  import opened QueueTypes
  import opened Session
  import opened Lifecycle
  import opened Journal
  import opened MessageLife
  import opened MessageProofs
  import opened NoticeProofs

  function Letter(): Text {
    AsciiIsUtf8([0x61]);
    [0x61]
  }

  /** The failure of a domain whose only mail exchanger is the root. */
  function NullMx(): Error {
    AsciiIsUtf8(Ascii("Domain does not accept messages (null MX)"));
    DnsError(Ascii("Domain does not accept messages (null MX)"))
  }

  /** One recipient in one domain. */
  function Single(d: Domain, r: Recipient): Message {
    Message(0, Letter(), None, 0, 0, [d], [r])
  }

  function Start(d: Domain, r: Recipient): Life {
    Life(Single(d, r), 0, Queued, [], [[]])
  }

  lemma ExpireNothing(d: Domain, r: Recipient, at: Instant)
    requires !Expires(d, at)
    ensures Expire(Single(d, r), at) == Single(d, r)
  {
    var m := Expire(Single(d, r), at);
    assert m.domains == [d] && m.recipients == [r];
  }

  /** The report about one recipient. */
  lemma DsnSingle(d: Domain, r: Recipient, now: Instant, config: Config)
    requires r.domainIdx == 0
    ensures
      var k := NoticeFor(r, d, now);
      SendDsn(Single(d, r), now, config) ==
        (Single(if k == Some(Delay) then NextNotify(d, now, config.notify(d.domain)) else d, NotifiedRcpt(r, d)),
         if k.Some? then [Notice(0, k.value)] else [])
  {
    hide NoticeFor, NextNotify, NotifiedRcpt;
    var m, k := Single(d, r), NoticeFor(r, d, now);
    NoNotices(m, now);
    NoticesStep(m, now, 1);
    var ns := Notices(m, now, 1);
    assert ns == if k.Some? then [Notice(0, k.value)] else [];
    assert HasDelay(ns) <==> k == Some(Delay) by {
      if k == Some(Delay) {
        assert ns[0].kind == Delay;
      }
    }
    var m' := SendDsn(m, now, config).0;
    assert m'.recipients == [NotifiedRcpt(r, d)];
    assert m'.domains == [if k == Some(Delay) then NextNotify(d, now, config.notify(d.domain)) else d];
  }

  lemma SinglePending(d: Domain, r: Recipient)
    ensures SomePending(Single(d, r)) <==> d.status.Pending()
    ensures Cleared(Single(d, r)) == Single(d.(changed := false), Clean(r))
  {
    assert Single(d, r).domains[0] == d;
    assert Cleared(Single(d, r)).domains == [d.(changed := false)];
    assert Cleared(Single(d, r)).recipients == [Clean(r)];
  }

  /** A visit that reports nothing or a delay about one pending recipient. */
  lemma VisitSingle(l: Life, d: Domain, r: Recipient, at: Instant, config: Config)
    requires ValidConfig(config) && l.m == Single(d, r) && l.fate == Queued && |l.tries| == 1 && l.now <= at && r.domainIdx == 0
    requires d.status.Pending() && at < d.expires && NoticeFor(r, d, at) == Some(Delay)
    ensures Enabled(l, Visit(at))
    ensures
      var l' := Next(l, Visit(at), config);
      && l'.m == Single(NextNotify(d, at, config.notify(d.domain)).(changed := false), Clean(NotifiedRcpt(r, d)))
      && l'.fate == Queued && l'.tries == l.tries && l'.now == at && l'.log == l.log + [Logged(Notice(0, Delay), true)]
  {
    ExpireNothing(d, r, at);
    DsnSingle(d, r, at, config);
    var d', r' := NextNotify(d, at, config.notify(d.domain)), NotifiedRcpt(r, d);
    SinglePending(d', r');
    assert LogOf([Notice(0, Delay)], Single(d, r)) == [Logged(Notice(0, Delay), true)];
  }

  lemma AskRetrySingle(l: Life, d: Domain, r: Recipient, time: Instant, config: Config)
    requires ValidConfig(config) && l.m == Single(d, r) && l.fate == Queued && |l.tries| == 1 && r.domainIdx == 0
    requires d.status.Pending()
    ensures Enabled(l, AskRetry({0}, time))
    ensures Next(l, AskRetry({0}, time), config) == l.(m := Single(RetriedDomain(d, 0, {0}, time).(changed := false), Clean(r)))
  {
    var d' := RetriedDomain(d, 0, {0}, time);
    assert OperatorRetry(l.m, {0}, time).domains == [d'];
    assert OperatorRetry(l.m, {0}, time) == Single(d', r);
    SinglePending(d', r);
  }

  lemma ReachesOne(l: Life, steps: seq<Step>, k: Life, step: Step, l': Life, config: Config)
    requires ValidConfig(config) && Reaches(l, steps, config, k) && Enabled(k, step) && |k.tries| == |k.m.domains|
    requires l' == Next(k, step, config)
    ensures Reaches(l, steps + [step], config, l')
  {
    assert (steps + [step])[..|steps|] == steps;
  }

  // ----- One delay notice for each interval, and one more -----

  /** When interval `k` is over if each notice goes out as soon as it is due. */
  function Waited(intervals: Intervals, k: nat): nat
    requires k < |intervals|
  {
    if k == 0 then 0 else Waited(intervals, k - 1) + intervals[k]
  }

  function Curious(): Recipient { Recipient(0, [], Scheduled, NO_FLAGS.(notifyDelay := true), None) }

  function Waiting(notify: Schedule, expires: Instant): Domain {
    Domain(Letter(), Schedule(0, 0), notify, expires, Scheduled, false)
  }

  /** The first `k` notices, each at its time. */
  lemma {:induction false} Notified(config: Config, expires: Instant, k: nat) returns (steps: seq<Step>, l': Life)
    requires ValidConfig(config) && k < |config.notify(Letter())| && Waited(config.notify(Letter()), k) < expires
    ensures Reaches(Start(Waiting(Schedule(0, 0), expires), Curious()), steps, config, l')
    ensures forall i | 0 <= i < |steps| :: steps[i].Visit?
    ensures l'.m == Single(Waiting(Schedule(k, Waited(config.notify(Letter()), k)), expires), Curious())
    ensures l'.fate == Queued && |l'.tries| == 1 && l'.now <= Waited(config.notify(Letter()), k) && Delays(l'.log, 0) == k
    decreases k
  {
    hide Next, Enabled, Reaches, NextNotify, NoticeFor, Delays;
    var intervals := config.notify(Letter());
    var l := Start(Waiting(Schedule(0, 0), expires), Curious());
    if k == 0 {
      steps, l' := [], l;
      ReachesNothing(l, config);
      NoDelaysIn(l);
    } else {
      var before, l1 := Notified(config, expires, k - 1);
      var at := Waited(intervals, k - 1);
      var d := Waiting(Schedule(k - 1, at), expires);
      CuriousHears(d, at);
      VisitSingle(l1, d, Curious(), at, config);
      l' := Next(l1, Visit(at), config);
      steps := before + [Visit(at)];
      ReachesOne(l, before, l1, Visit(at), l', config);
      NextInterval(d, at, intervals, k);
      CountSnoc(l1.log, Logged(Notice(0, Delay), true), 0);
    }
  }

  lemma NoDelaysIn(l: Life)
    requires l.log == []
    ensures Delays(l.log, 0) == 0
  {
  }

  lemma CuriousHears(d: Domain, at: Instant)
    requires d.status.Pending() && d.notify.due <= at
    ensures NoticeFor(Curious(), d, at) == Some(Delay) && NotifiedRcpt(Curious(), d) == Curious() == Clean(Curious())
  {
  }

  lemma NextInterval(d: Domain, at: Instant, intervals: Intervals, k: nat)
    requires d.status.Pending() && d.notify.due <= at && d.notify.inner == k - 1 && 0 < k < TWO_32
    ensures k < |intervals| ==> NextNotify(d, at, intervals) == d.(notify := Schedule(k, at + intervals[k]), changed := true)
    ensures k == |intervals| ==>
      NextNotify(d, at, intervals) == d.(notify := Schedule(k - 1, d.expires + TEN_SECONDS), changed := true)
  {
  }

  /** All intervals used up: the next notice is due ten seconds after the expiry. */
  lemma AllNotified(config: Config, expires: Instant) returns (steps: seq<Step>, l': Life)
    requires ValidConfig(config) && Waited(config.notify(Letter()), |config.notify(Letter())| - 1) < expires
    ensures Reaches(Start(Waiting(Schedule(0, 0), expires), Curious()), steps, config, l')
    ensures forall i | 0 <= i < |steps| :: steps[i].Visit?
    ensures l'.m == Single(Waiting(Schedule(|config.notify(Letter())| - 1, expires + TEN_SECONDS), expires), Curious())
    ensures l'.fate == Queued && |l'.tries| == 1 && Delays(l'.log, 0) == |config.notify(Letter())|
    ensures l'.now <= Waited(config.notify(Letter()), |config.notify(Letter())| - 1)
  {
    hide Next, Enabled, Reaches, NextNotify, NoticeFor, Delays;
    var intervals := config.notify(Letter());
    var n := |intervals|;
    var before, l1 := Notified(config, expires, n - 1);
    var at := Waited(intervals, n - 1);
    var d := Waiting(Schedule(n - 1, at), expires);
    CuriousHears(d, at);
    VisitSingle(l1, d, Curious(), at, config);
    l' := Next(l1, Visit(at), config);
    steps := before + [Visit(at)];
    ReachesOne(Start(Waiting(Schedule(0, 0), expires), Curious()), before, l1, Visit(at), l', config);
    NextInterval(d, at, intervals, n);
    CountSnoc(l1.log, Logged(Notice(0, Delay), true), 0);
  }

  function LongLived(config: Config): Instant {
    Waited(config.notify(Letter()), |config.notify(Letter())| - 1) + 100 * NANOS
  }

  /** With any intervals, two operator requests that move the expiry past the notify time earn one notice too many. */
  lemma RetriesBreakDelayBound(config: Config) returns (l: Life, steps: seq<Step>, l': Life)
    requires ValidConfig(config)
    ensures New(l, config) && Reaches(l, steps, config, l')
    ensures |l.m.recipients| == 1 && l.m.domains[l.m.recipients[0].domainIdx].domain == Letter()
    ensures Delays(l'.log, 0) == |config.notify(Letter())| + 1
  {
    hide Next, Enabled, Reaches, Delays, NoticeFor, NextNotify, Waited;
    var e := LongLived(config);
    l := Start(Waiting(Schedule(0, 0), e), Curious());
    var s0, l0 := AllNotified(config, e);
    var d0 := Waiting(Schedule(|config.notify(Letter())| - 1, e + TEN_SECONDS), e);
    AskRetrySingle(l0, d0, Curious(), e - NANOS, config);
    var l1 := Next(l0, AskRetry({0}, e - NANOS), config);
    ReachesOne(l, s0, l0, AskRetry({0}, e - NANOS), l1, config);
    var s1 := s0 + [AskRetry({0}, e - NANOS)];
    var d1 := d0.(retry := Schedule(0, e - NANOS), expires := e + 9 * NANOS);
    AskRetrySingle(l1, d1, Curious(), e + 8 * NANOS, config);
    var l2 := Next(l1, AskRetry({0}, e + 8 * NANOS), config);
    ReachesOne(l, s1, l1, AskRetry({0}, e + 8 * NANOS), l2, config);
    var s2 := s1 + [AskRetry({0}, e + 8 * NANOS)];
    var d2 := d1.(retry := Schedule(0, e + 8 * NANOS), expires := e + 18 * NANOS);
    CuriousHears(d2, e + 12 * NANOS);
    VisitSingle(l2, d2, Curious(), e + 12 * NANOS, config);
    l' := Next(l2, Visit(e + 12 * NANOS), config);
    ReachesOne(l, s2, l2, Visit(e + 12 * NANOS), l', config);
    steps := s2 + [Visit(e + 12 * NANOS)];
    CountSnoc(l2.log, Logged(Notice(0, Delay), true), 0);
  }

  /** So does one attempt that starts just before the expiry and lasts until the notify time behind it. */
  lemma OverrunBreaksDelayBound(config: Config) returns (l: Life, steps: seq<Step>, l': Life)
    requires ValidConfig(config)
    ensures New(l, config) && Reaches(l, steps, config, l') && forall i | 0 <= i < |steps| :: !steps[i].AskRetry?
    ensures |l.m.recipients| == 1 && l.m.domains[l.m.recipients[0].domainIdx].domain == Letter()
    ensures Delays(l'.log, 0) == |config.notify(Letter())| + 1
  {
    hide Next, Enabled, Reaches, Delays, NoticeFor, NextNotify, Waited, NullMx;
    var e := LongLived(config);
    l := Start(Waiting(Schedule(0, 0), e), Curious());
    var s0, l0 := AllNotified(config, e);
    var d := Waiting(Schedule(|config.notify(Letter())| - 1, e + TEN_SECONDS), e);
    var t := Turn(e - NANOS, e + TEN_SECONDS, Decided(TemporaryFailure(DnsError([]))), [NANOS]);
    var d' := TurnDomain(d, 0, [Curious()], t);
    NotYetHeard(d, e - NANOS);
    AttemptSingle(l0, d, Curious(), t, config);
    l' := Next(l0, Attempt(e - NANOS, [t], e + TEN_SECONDS), config);
    ReachesOne(l, s0, l0, Attempt(e - NANOS, [t], e + TEN_SECONDS), l', config);
    steps := s0 + [Attempt(e - NANOS, [t], e + TEN_SECONDS)];
    CuriousHears(d', e + TEN_SECONDS);
    CountSnoc(l0.log, Logged(Notice(0, Delay), true), 0);
  }

  lemma NotYetHeard(d: Domain, at: Instant)
    requires d.status.Pending() && at < d.notify.due
    ensures NoticeFor(Curious(), d, at).None? && Outcome(Curious(), d).None?
  {
  }

  lemma ReachesNothing(l: Life, config: Config)
    requires ValidConfig(config)
    ensures Reaches(l, [], config, l)
  {
  }

  /** A session in which the only recipient is refused for now. */
  lemma RefusedForNow(r: Recipient, error: HostResponse<ErrorDetails>)
    requires r.domainIdx == 0 && r.status.Pending()
    ensures
      var script := Script(None, [Rejected(false, error)], SmtpDelivered);
      && RcptsAfter([r], 0, script) == [Updated(r, TemporaryFailure(error))]
      && DomainAfter([r], 0, script) == Scheduled
  {
    var script := Script(None, [Rejected(false, error)], SmtpDelivered);
    NothingYet([r], 0, script);
    PhaseStep([r], 0, script, 0);
    assert RcptAfter([r], 0, script, 0) == Updated(r, TemporaryFailure(error));
    var after := RcptsAfter([r], 0, script);
    assert after == [Updated(r, TemporaryFailure(error))];
    assert after[0].domainIdx == 0 && !after[0].status.Terminal();
  }

  /** A message after its save, if it is still pending. */
  function Kept(d: Domain, r: Recipient): Message {
    if d.status.Pending() then Single(d.(changed := false), Clean(r)) else Single(d, r)
  }

  function Delayed(d: Domain, r: Recipient, now: Instant, intervals: Intervals): Domain {
    if NoticeFor(r, d, now) == Some(Delay) then NextNotify(d, now, intervals) else d
  }

  /** An attempt on the only domain: no report before it, and none after it but for a delay. */
  lemma AttemptSingle(l: Life, d: Domain, r: Recipient, t: Turn, config: Config)
    requires ValidConfig(config) && l.m == Single(d, r) && l.fate == Queued && |l.tries| == 1 && l.now <= t.begin && r.domainIdx == 0
    requires d.status.Pending() && t.begin < d.expires && Outcome(r, d).None? && NoticeFor(r, d, t.begin).None? && ValidTurn(t)
    requires
      var d', rs' := TurnDomain(d, 0, [r], t), TurnRcpts(d, 0, [r], t);
      |rs'| == 1 && rs'[0].domainIdx == 0 && Outcome(rs'[0], d').None?
    ensures Enabled(l, Attempt(t.begin, [t], t.end))
    ensures
      var l' := Next(l, Attempt(t.begin, [t], t.end), config);
      var d', r' := TurnDomain(d, 0, [r], t), TurnRcpts(d, 0, [r], t)[0];
      && l'.m == Kept(Delayed(d', r', t.end, config.notify(d'.domain)), r')
      && l'.fate == (if d'.status.Pending() then Queued else Finished) && |l'.tries| == 1 && l'.now == t.end
      && l'.log == l.log + if NoticeFor(r', d', t.end).Some? then [Logged(Notice(0, Delay), d'.status.Pending())] else []
  {
    hide NoticeFor, TurnDomain, TurnRcpts, NextNotify, Outcome, ValidTurn, SendDsn, Opened, OpenedLog, Worked, Expire, SomePending, Cleared,
      TriedBy;
    var d', rs' := TurnDomain(d, 0, [r], t), TurnRcpts(d, 0, [r], t);
    var r', m2 := rs'[0], Single(d, r);
    OpenedSingle(d, r, t.begin, config);
    WorkedSingle(d, r, t, config);
    UndecidedNotice(r', d', t.end);
    DsnSingle(d', r', t.end, config);
    var d4 := Delayed(d', r', t.end, config.notify(d'.domain));
    NextKeepsStatus(d', t.end, config.notify(d'.domain));
    SinglePending(d4, r');
    TurnOrder(t);
    var ns := if NoticeFor(r', d', t.end).Some? then [Notice(0, Delay)] else [];
    assert LogOf(ns, Single(d', r')) == if ns == [] then [] else [Logged(Notice(0, Delay), d'.status.Pending())];
    assert l.log + [] == l.log;
  }

  /** The opening of a visit that has nothing to report. */
  lemma OpenedSingle(d: Domain, r: Recipient, at: Instant, config: Config)
    requires d.status.Pending() && at < d.expires && r.domainIdx == 0 && Outcome(r, d).None? && NoticeFor(r, d, at).None?
    ensures SomePending(Expire(Single(d, r), at)) && Opened(Single(d, r), at, config) == Single(d, r) && OpenedLog(Single(d, r), at, config) == []
  {
    hide NoticeFor, NextNotify;
    ExpireNothing(d, r, at);
    DsnSingle(d, r, at, config);
    SinglePending(d, r);
  }

  lemma WorkedSingle(d: Domain, r: Recipient, t: Turn, config: Config)
    requires |TurnRcpts(d, 0, [r], t)| == 1
    ensures Worked(Single(d, r), [t], 1) == Single(TurnDomain(d, 0, [r], t), TurnRcpts(d, 0, [r], t)[0])
  {
    hide TurnDomain, TurnRcpts;
    var m := Single(d, r);
    assert Worked(m, [t], 0) == m;
    assert TakeTurn(m, 0, t).domains == [TurnDomain(d, 0, [r], t)];
    assert TakeTurn(m, 0, t).recipients == [TurnRcpts(d, 0, [r], t)[0]];
  }

  lemma UndecidedNotice(r: Recipient, d: Domain, now: Instant)
    requires Outcome(r, d).None?
    ensures NotifiedRcpt(r, d) == r && (NoticeFor(r, d, now).None? || NoticeFor(r, d, now) == Some(Delay))
  {
  }

  lemma NextKeepsStatus(d: Domain, now: Instant, intervals: Intervals)
    ensures NextNotify(d, now, intervals).status == d.status
  {
  }

  lemma TurnOrder(t: Turn)
    requires ValidTurn(t)
    ensures InOrder([t], t.begin, t.end)
  {
  }

  /**
    A recipient refused for now whose domain then fails for good: the message leaves the queue
    although nothing final was reported about that recipient.
  */
  lemma UnreportedFailure(config: Config) returns (l: Life, steps: seq<Step>, l': Life)
    requires ValidConfig(config)
    ensures New(l, config) && Reaches(l, steps, config, l') && l'.fate == Finished && l.m.returnPath != []
    ensures |l'.m.recipients| == 1 && !Silent(l'.m.recipients[0]) && l'.m.recipients[0].status.TemporaryFailure?
  {
    hide Next, Enabled, Reaches, RcptsAfter, DomainAfter, NullMx, Reported;
    var wait := 5 * NANOS;
    var d := Domain(Letter(), Schedule(0, 0), Schedule(0, 10 + wait), 10 + wait, Scheduled, false);
    var r := Recipient(0, [], Scheduled, NO_FLAGS, None);
    l := Start(d, r);
    ReachesNothing(l, config);
    var l1, error := RefusedOnce(l, d, r, wait, config);
    var first := RefusedTurn(error, wait);
    ReachesOne(l, [], l, Attempt(0, [first], 0), l1, config);
    var d1, r1 := d.(retry := Schedule(1, wait)), r.(status := TemporaryFailure(error));
    var t := Turn(wait, wait, Decided(PermanentFailure(NullMx())), [wait]);
    AttemptSingle(l1, d1, r1, t, config);
    l' := Next(l1, Attempt(wait, [t], wait), config);
    steps := [] + [Attempt(0, [first], 0)] + [Attempt(wait, [t], wait)];
    ReachesOne(l, [] + [Attempt(0, [first], 0)], l1, Attempt(wait, [t], wait), l', config);
  }

  function RefusedTurn(error: HostResponse<ErrorDetails>, wait: nat): Turn {
    Turn(0, 0, Talked(Script(None, [Rejected(false, error)], SmtpDelivered)), [wait])
  }

  /** The first attempt, in which the recipient is refused for now. */
  lemma RefusedOnce(l: Life, d: Domain, r: Recipient, wait: nat, config: Config) returns (l': Life, error: HostResponse<ErrorDetails>)
    requires ValidConfig(config) && l == Start(d, r) && r.domainIdx == 0 && r.status.Scheduled? && Clean(r) == r && wait > 0
    requires d.status.Scheduled? && d.retry == Schedule(0, 0) && d.expires > 0 && d.notify.due > 0 && !d.changed
    ensures Enabled(l, Attempt(0, [RefusedTurn(error, wait)], 0)) && l' == Next(l, Attempt(0, [RefusedTurn(error, wait)], 0), config)
    ensures l'.m == Single(d.(retry := Schedule(1, wait)), r.(status := TemporaryFailure(error)))
    ensures l'.fate == Queued && |l'.tries| == 1 && l'.now == 0
  {
    hide Next, Enabled, RcptsAfter, DomainAfter;
    error := HostResponse(ErrorDetails([], []), Response(450, 0, 0, 0, []));
    RefusedForNow(r, error);
    AttemptSingle(l, d, r, RefusedTurn(error, wait), config);
    l' := Next(l, Attempt(0, [RefusedTurn(error, wait)], 0), config);
  }
}
