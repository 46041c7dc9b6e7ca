/** The life of one message in the queue, with a record of its notices and delivery attempts. */
module MessageLife {
  import opened Prelude
  import opened QueueTypes
  import opened Session
  import opened Lifecycle
  import opened Journal

  /** How a message left the queue, if it did. */
  datatype Fate = Queued | Finished | Cancelled

  /** A notice that went out, and whether its recipient's domain was still pending. */
  datatype Logged = Logged(notice: Notice, pending: bool)

  /** An attempt on a domain: when the visit of the message started, when the turn began, and the intervals it used. */
  datatype Try = Try(start: Instant, begin: Instant, intervals: Intervals)

  datatype Life = Life(m: Message, now: Instant, fate: Fate, log: seq<Logged>, tries: seq<seq<Try>>)

  datatype Step =
    | Visit(at: Instant)
    | Attempt(at: Instant, turns: seq<Turn>, finish: Instant)
    | CancelSome(chosen: set<nat>, response: HostResponse<Text>)
    | CancelAll
    | AskRetry(chosen: set<nat>, time: Instant)

  /** The turns of the domains follow each other between the start of the visit and its end. */
  predicate InOrder(turns: seq<Turn>, at: Instant, finish: Instant) {
    && at <= finish
    && (forall i | 0 <= i < |turns| :: ValidTurn(turns[i]) && at <= turns[i].begin && turns[i].end <= finish)
  }

  predicate Enabled(l: Life, step: Step) {
    && l.fate == Queued && Indexed(l.m)
    && match step
       case Visit(at) => l.now <= at
       case Attempt(at, turns, finish) =>
         l.now <= at && |turns| == |l.m.domains| && InOrder(turns, at, finish) && SomePending(Expire(l.m, at))
       case CancelSome(_, _) => true
       case CancelAll => true
       case AskRetry(_, _) => true
  }

  function LogOf(ns: seq<Notice>, m: Message): seq<Logged>
    requires Indexed(m)
  {
    seq(|ns|, k requires 0 <= k < |ns| =>
      Logged(ns[k], ns[k].rcpt < |m.recipients| && DomainOf(m, m.recipients[ns[k].rcpt]).status.Pending()))
  }

  /** Expiry and the notices that follow it. */
  function Opened(m: Message, at: Instant, config: Config): Message
    requires Indexed(m)
  {
    ExpireIndexed(m, at);
    SendDsn(Expire(m, at), at, config).0
  }

  function OpenedLog(m: Message, at: Instant, config: Config): seq<Logged>
    requires Indexed(m)
  {
    ExpireIndexed(m, at);
    LogOf(SendDsn(Expire(m, at), at, config).1, Expire(m, at))
  }

  lemma ExpireIndexed(m: Message, at: Instant)
    requires Indexed(m)
    ensures Indexed(Expire(m, at))
  {
  }

  /** A message with pending domains is saved and queued again; any other is removed. */
  function Requeue(l: Life, m: Message): Life {
    l.(m := Stored(m), fate := if SomePending(m) then Queued else Finished)
  }

  function Stored(m: Message): Message {
    if SomePending(m) then Cleared(m) else m
  }

  function TriedBy(m: Message, i: nat, t: Turn, at: Instant): seq<Try>
    requires i < |m.domains|
  {
    if Due(m.domains[i], t.begin) && !t.outcome.HeldBack? then [Try(at, t.begin, t.intervals)] else []
  }

  ghost function AfterAttempt(l: Life, at: Instant, turns: seq<Turn>, finish: Instant, config: Config): Life
    requires Indexed(l.m) && ValidConfig(config) && |turns| == |l.m.domains| == |l.tries|
  {
    var m2 := Opened(l.m, at, config);
    var m3 := Worked(m2, turns, |turns|);
    WorkedIndexed(m2, turns, |turns|);
    var (m4, ns) := SendDsn(m3, finish, config);
    Requeue(l.(now := finish, log := l.log + OpenedLog(l.m, at, config) + LogOf(ns, m3),
               tries := seq(|turns|, i requires 0 <= i < |turns| => l.tries[i] + TriedBy(m2, i, turns[i], at))),
            m4)
  }

  lemma OpenedIndexed(m: Message, at: Instant, config: Config)
    requires Indexed(m)
    ensures Indexed(Opened(m, at, config)) && |Opened(m, at, config).domains| == |m.domains|
    ensures |Opened(m, at, config).recipients| == |m.recipients|
  {
    ExpireIndexed(m, at);
  }

  lemma TurnIndexed(m: Message, i: nat, t: Turn)
    requires i < |m.domains| && Indexed(m)
    ensures Indexed(TakeTurn(m, i, t))
  {
    hide TurnDomain, RcptAfter;
    if t.outcome.Talked? {
      var rs := RcptsAfter(m.recipients, i, t.outcome.script);
      forall j | 0 <= j < |m.recipients| ensures rs[j].domainIdx == m.recipients[j].domainIdx {
        SessionTouchesOnlyWaiting(m.recipients, i, t.outcome.script, j);
      }
    }
  }

  lemma {:induction false} WorkedIndexed(m: Message, turns: seq<Turn>, n: nat)
    requires n <= |m.domains| && |turns| == |m.domains| && Indexed(m)
    ensures Indexed(Worked(m, turns, n))
  {
    hide TakeTurn, Indexed;
    if n > 0 {
      WorkedIndexed(m, turns, n - 1);
      TurnIndexed(Worked(m, turns, n - 1), n - 1, turns[n - 1]);
    }
  }

  ghost function Next(l: Life, step: Step, config: Config): Life
    requires Enabled(l, step) && ValidConfig(config) && |l.tries| == |l.m.domains|
  {
    match step
    case Visit(at) => Requeue(l.(now := at, log := l.log + OpenedLog(l.m, at, config)), Opened(l.m, at, config))
    case Attempt(at, turns, finish) => AfterAttempt(l, at, turns, finish, config)
    case CancelSome(chosen, response) =>
      var m := Cancel(l.m, chosen, response);
      if SomePending(m) then l.(m := Cleared(m)) else l.(m := m, fate := Cancelled)
    case CancelAll => l.(fate := Cancelled)
    case AskRetry(chosen, time) => l.(m := Cleared(OperatorRetry(l.m, chosen, time)))
  }

  /** A message as it enters the queue: nothing sent, nothing tried, nothing settled. */
  predicate New(l: Life, config: Config) {
    && l.fate == Queued && l.log == [] && |l.tries| == |l.m.domains| && Indexed(l.m)
    && (forall i | 0 <= i < |l.m.domains| ::
          && l.m.domains[i].status.Scheduled? && l.m.domains[i].retry.inner == 0 && l.tries[i] == []
          && l.m.domains[i].notify.inner < |config.notify(l.m.domains[i].domain)|)
    && (forall i | 0 <= i < |l.m.recipients| :: l.m.recipients[i].status.Scheduled? && !l.m.recipients[i].flags.dsnSent)
  }

  ghost predicate Reaches(l: Life, steps: seq<Step>, config: Config, l': Life)
    requires ValidConfig(config)
    decreases |steps|
  {
    if steps == [] then l' == l
    else
      var last := |steps| - 1;
      exists k ::
        && Reaches(l, steps[..last], config, k)
        && Enabled(k, steps[last]) && |k.tries| == |k.m.domains|
        && l' == Next(k, steps[last], config)
  }
}
