/** The retry schedule over the whole life of a message. */
module RetryProofs {
  import opened Prelude
  import opened QueueTypes
  import opened Session
  import opened Lifecycle
  import opened Journal
  import opened MessageLife
  import opened MessageProofs

  /** A domain changes in its own turn only. */
  lemma {:induction false} WorkedDomain(m: Message, turns: seq<Turn>, n: nat, i: nat)
    requires n <= |m.domains| && |turns| == |m.domains| && i < |m.domains|
    ensures Worked(m, turns, n).domains[i]
         == if i < n
            then TurnDomain(m.domains[i], i, Worked(m, turns, i).recipients, turns[i])
            else m.domains[i]
  {
    hide TurnDomain, TurnRcpts;
    if n > 0 {
      WorkedDomain(m, turns, n - 1, i);
      WorkedDomain(m, turns, n - 1, n - 1);
    }
  }

  lemma OpenedDomain(m: Message, at: Instant, config: Config, i: nat)
    requires Sound(m) && i < |m.domains|
    ensures |Opened(m, at, config).domains| == |m.domains|
    ensures
      var d, d2 := m.domains[i], Opened(m, at, config).domains[i];
      && d2.domain == d.domain && d2.retry == d.retry && d2.expires == d.expires
      && (d2.status.Pending() <==> d.status.Pending() && at < d.expires)
  {
    hide SendDsn;
    ExpireKeeps(m, at);
    DsnKeeps(Expire(m, at), at, config);
    assert Expire(m, at).domains[i] == ExpiredDomain(m.domains[i], at);
  }

  /** The interval after attempt `k`, from the list which that attempt used; the counter wraps like the server's. */
  function Wait(a: seq<Try>, k: nat): nat
    requires k < |a|
  {
    Interval(a[k].intervals, k % TWO_32)
  }

  /** Sum of the intervals before attempt `k`. */
  function Total(a: seq<Try>, k: nat): nat
    requires k <= |a|
  {
    if k == 0 then 0 else Total(a, k - 1) + Wait(a, k - 1)
  }

  predicate Spaced(a: seq<Try>, expires: Instant, now: Instant) {
    && (forall k | 0 <= k < |a| :: a[k].start <= a[k].begin <= now && a[k].start < expires)
    && (forall k | 0 <= k < |a| - 1 :: a[k].begin <= a[k + 1].start && a[k].begin + Wait(a, k) <= a[k + 1].begin)
  }

  predicate OnSchedule(d: Domain, a: seq<Try>, now: Instant) {
    && Spaced(a, d.expires, now)
    && (d.status.Pending() ==>
          && d.retry.inner == |a| % TWO_32
          && (a != [] ==> a[|a| - 1].begin + Wait(a, |a| - 1) <= d.retry.due))
  }

  /** Time passes, and nothing but the status may change, never back to pending. */
  lemma ScheduleKept(d: Domain, d': Domain, a: seq<Try>, now: Instant, later: Instant)
    requires OnSchedule(d, a, now) && now <= later
    requires d'.retry == d.retry && d'.expires == d.expires && (d'.status.Pending() ==> d.status.Pending())
    ensures OnSchedule(d', a, later)
  {
    hide Interval;
  }

  lemma WrapStep(n: nat)
    ensures (n % TWO_32 + 1) % TWO_32 == (n + 1) % TWO_32
  {
  }

  /** A real attempt at a due domain is spaced from the previous one. */
  lemma SpacedAppend(d: Domain, a: seq<Try>, now: Instant, t: Try, finish: Instant)
    requires OnSchedule(d, a, now) && Due(d, t.begin)
    requires now <= t.start <= t.begin <= finish && t.start < d.expires
    ensures Spaced(a + [t], d.expires, finish)
  {
    hide Interval;
    var b := a + [t];
    forall k | 0 <= k < |b| - 1
      ensures b[k].begin <= b[k + 1].start && b[k].begin + Wait(b, k) <= b[k + 1].begin
    {
      if k < |a| - 1 {
        assert b[k] == a[k] && b[k + 1] == a[k + 1];
      } else {
        assert b[k] == a[|a| - 1] && b[k + 1] == t;
      }
    }
  }

  lemma SetStatusOnSchedule(d: Domain, status: DomainStatus, end: Instant, a: seq<Try>, now: Instant, t: Try, finish: Instant)
    requires OnSchedule(d, a, now) && Due(d, t.begin)
    requires now <= t.start <= t.begin <= end <= finish && t.start < d.expires
    ensures OnSchedule(SetStatus(d, status, t.intervals, end), a + [t], finish)
  {
    hide Interval, Spaced;
    SpacedAppend(d, a, now, t, finish);
    WrapStep(|a|);
    assert (a + [t])[|a|] == t;
  }

  /** One turn: a real attempt is recorded and pushes the due time, a throttle only delays. */
  lemma TurnOnSchedule(d: Domain, i: nat, rs: seq<Recipient>, t: Turn, a: seq<Try>, now: Instant, at: Instant, finish: Instant)
    requires OnSchedule(d, a, now) && now <= at <= t.begin && t.end <= finish && ValidTurn(t)
    requires d.status.Pending() ==> at < d.expires
    ensures
      var tried := if Due(d, t.begin) && !t.outcome.HeldBack? then [Try(at, t.begin, t.intervals)] else [];
      OnSchedule(TurnDomain(d, i, rs, t), a + tried, finish)
  {
    hide Interval, DomainAfter, SetStatus;
    if Due(d, t.begin) && !t.outcome.HeldBack? {
      var status := if t.outcome.Decided? then t.outcome.status else DomainAfter(rs, i, t.outcome.script);
      SetStatusOnSchedule(d, status, t.end, a, now, Try(at, t.begin, t.intervals), finish);
    } else {
      assert a + [] == a;
    }
  }

  ghost predicate AllOnSchedule(l: Life, config: Config)
    requires ValidConfig(config)
  {
    |l.tries| == |l.m.domains| && forall i | 0 <= i < |l.m.domains| ::
      OnSchedule(l.m.domains[i], l.tries[i], l.now)
  }

  lemma AttemptOnSchedule(l: Life, at: Instant, turns: seq<Turn>, finish: Instant, config: Config)
    requires Sound(l.m) && ValidConfig(config) && AllOnSchedule(l, config)
    requires |turns| == |l.m.domains| && InOrder(turns, at, finish) && l.now <= at
    ensures AllOnSchedule(AfterAttempt(l, at, turns, finish, config), config)
  {
    hide OnSchedule, TurnDomain, Opened, Interval, AfterAttempt;
    var l' := AfterAttempt(l, at, turns, finish, config);
    AttemptKeeps(l, at, turns, finish, config);
    AttemptTries(l, at, turns, finish, config);
    forall i | 0 <= i < |l'.m.domains|
      ensures OnSchedule(l'.m.domains[i], l'.tries[i], l'.now)
    {
      var d, a := l.m.domains[i], l.tries[i];
      var m2 := Opened(l.m, at, config);
      var d2 := m2.domains[i];
      OpenedDomain(l.m, at, config, i);
      ScheduleKept(d, d2, a, l.now, l.now);
      var rs := Worked(m2, turns, i).recipients;
      TurnOnSchedule(d2, i, rs, turns[i], a, l.now, at, finish);
      AttemptDomain(l, at, turns, finish, config, i);
      ScheduleKept(TurnDomain(d2, i, rs, turns[i]), l'.m.domains[i], l'.tries[i], finish, finish);
    }
  }

  /** After an attempt, a domain is as its own turn left it, up to notifications and dirty marks. */
  lemma AttemptDomain(l: Life, at: Instant, turns: seq<Turn>, finish: Instant, config: Config, i: nat)
    requires Sound(l.m) && ValidConfig(config) && |turns| == |l.m.domains| == |l.tries| && InOrder(turns, at, finish) && i < |turns|
    ensures |Opened(l.m, at, config).domains| == |turns| && |AfterAttempt(l, at, turns, finish, config).m.domains| == |turns|
    ensures
      var m2 := Opened(l.m, at, config);
      var d, d' := TurnDomain(m2.domains[i], i, Worked(m2, turns, i).recipients, turns[i]),
                   AfterAttempt(l, at, turns, finish, config).m.domains[i];
      d'.domain == d.domain && d'.retry == d.retry && d'.expires == d.expires && d'.status == d.status
  {
    hide TurnDomain, Opened, OpenedLog, LogOf, SendDsn, TriedBy, Worked;
    var m2 := Opened(l.m, at, config);
    OpenedKeeps(l.m, at, config);
    WorkedDomain(m2, turns, |turns|, i);
    WorkedKeeps(m2, turns, |turns|);
    var m3 := Worked(m2, turns, |turns|);
    DsnKeeps(m3, finish, config);
    var m4 := SendDsn(m3, finish, config).0;
    assert Stored(m4).domains[i] == if SomePending(m4) then m4.domains[i].(changed := false) else m4.domains[i];
  }

  lemma StepOnSchedule(l: Life, step: Step, config: Config)
    requires Sound(l.m) && ValidConfig(config) && AllOnSchedule(l, config) && Enabled(l, step) && !step.AskRetry?
    ensures AllOnSchedule(Next(l, step, config), config)
    ensures |Next(l, step, config).m.domains| == |l.m.domains|
    ensures forall i | 0 <= i < |l.m.domains| :: Next(l, step, config).m.domains[i].expires == l.m.domains[i].expires
  {
    hide OnSchedule, Interval, AfterAttempt, SomePending, Opened, Sound;
    var l' := Next(l, step, config);
    StepKeeps(l, step, config);
    match step
    case Visit(at) =>
      forall i | 0 <= i < |l'.m.domains|
        ensures OnSchedule(l'.m.domains[i], l'.tries[i], l'.now)
        ensures l'.m.domains[i].expires == l.m.domains[i].expires
      {
        OpenedDomain(l.m, at, config, i);
        ScheduleKept(l.m.domains[i], l'.m.domains[i], l.tries[i], l.now, at);
      }
    case Attempt(at, turns, finish) =>
      AttemptOnSchedule(l, at, turns, finish, config);
      forall i | 0 <= i < |l'.m.domains| ensures l'.m.domains[i].expires == l.m.domains[i].expires {
        OpenedDomain(l.m, at, config, i);
        AttemptDomain(l, at, turns, finish, config, i);
      }
    case CancelSome(chosen, response) =>
      forall i | 0 <= i < |l'.m.domains|
        ensures OnSchedule(l'.m.domains[i], l'.tries[i], l'.now)
      {
        ScheduleKept(l.m.domains[i], l'.m.domains[i], l.tries[i], l.now, l.now);
      }
    case CancelAll =>
  }

  /** Spacing adds up: attempt `k` comes no earlier than the first one plus all intervals in between. */
  lemma {:induction false} SpacedTotal(a: seq<Try>, expires: Instant, now: Instant, k: nat)
    requires Spaced(a, expires, now) && k < |a|
    ensures a[0].begin + Total(a, k) <= a[k].begin
  {
    hide Wait;
    if k > 0 {
      SpacedTotal(a, expires, now, k - 1);
      var j := k - 1;
      assert a[j].begin + Wait(a, j) <= a[j + 1].begin;
    }
  }

  /** No interval of any list used is shorter than `least`. */
  predicate AtLeast(a: seq<Try>, least: nat) {
    forall k | 0 <= k < |a| :: forall x | 0 <= x < |a[k].intervals| :: least <= a[k].intervals[x]
  }

  lemma {:induction false} TotalAtLeast(a: seq<Try>, k: nat, least: nat)
    requires k <= |a| && AtLeast(a, least)
    ensures k * least <= Total(a, k)
  {
    if k > 0 {
      TotalAtLeast(a, k - 1, least);
      assert least <= Wait(a, k - 1);
      assert k * least == (k - 1) * least + least;
    }
  }
}
