/** Which notifications a report sends, and that the final ones go out at most once. */
module NoticeProofs {
  import opened Prelude
  import opened QueueTypes
  import opened Session
  import opened Lifecycle
  import opened Journal
  import opened MessageLife
  import opened MessageProofs

  /** Delivered or failed notices about recipient `r`. */
  function Finals(log: seq<Logged>, r: nat): nat {
    if log == [] then 0
    else Finals(log[..|log| - 1], r) + var e := log[|log| - 1]; if e.notice.rcpt == r && e.notice.kind != Delay then 1 else 0
  }

  /** Delay notices about recipient `r` while its domain was pending. */
  function Delays(log: seq<Logged>, r: nat): nat {
    if log == [] then 0
    else Delays(log[..|log| - 1], r)
         + var e := log[|log| - 1]; if e.notice.rcpt == r && e.notice.kind == Delay && e.pending then 1 else 0
  }

  lemma {:induction false} CountAppend(a: seq<Logged>, b: seq<Logged>, r: nat)
    ensures Finals(a + b, r) == Finals(a, r) + Finals(b, r)
    ensures Delays(a + b, r) == Delays(a, r) + Delays(b, r)
  {
    if b == [] {
      assert a + b == a;
    } else {
      var n := |b| - 1;
      assert (a + b)[..|a + b| - 1] == a + b[..n];
      CountAppend(a, b[..n], r);
    }
  }

  predicate GetsFinal(m: Message, now: Instant, r: nat)
    requires Indexed(m) && r < |m.recipients|
  {
    var k := NoticeFor(m.recipients[r], DomainOf(m, m.recipients[r]), now);
    k.Some? && k.value != Delay
  }

  predicate GetsDelay(m: Message, now: Instant, r: nat)
    requires Indexed(m) && r < |m.recipients|
  {
    var d := DomainOf(m, m.recipients[r]);
    NoticeFor(m.recipients[r], d, now) == Some(Delay) && d.status.Pending()
  }

  lemma CountSnoc(log: seq<Logged>, e: Logged, r: nat)
    ensures Finals(log + [e], r) == Finals(log, r) + if e.notice.rcpt == r && e.notice.kind != Delay then 1 else 0
    ensures Delays(log + [e], r) == Delays(log, r) + if e.notice.rcpt == r && e.notice.kind == Delay && e.pending then 1 else 0
  {
    assert (log + [e])[..|log|] == log;
  }

  lemma LogSnoc(ns: seq<Notice>, n: Notice, m: Message)
    requires Indexed(m) && n.rcpt < |m.recipients|
    ensures LogOf(ns + [n], m) == LogOf(ns, m) + [Logged(n, DomainOf(m, m.recipients[n.rcpt]).status.Pending())]
  {
  }

  lemma NoNotices(m: Message, now: Instant)
    requires Indexed(m)
    ensures Notices(m, now, 0) == []
  {
  }

  lemma NoticesStep(m: Message, now: Instant, n: nat)
    requires Indexed(m) && 0 < n <= |m.recipients|
    ensures m.recipients[n - 1].domainIdx < |m.domains|
    ensures Notices(m, now, n) ==
      match NoticeFor(m.recipients[n - 1], DomainOf(m, m.recipients[n - 1]), now)
      case None => Notices(m, now, n - 1)
      case Some(k) => Notices(m, now, n - 1) + [Notice(n - 1, k)]
  {
    hide NoticeFor;
    assert Notices(m, now, n - 1) + [] == Notices(m, now, n - 1);
  }

  lemma {:induction false} NoticeCount(m: Message, now: Instant, n: nat, r: nat)
    requires Indexed(m) && n <= |m.recipients| && r < |m.recipients|
    ensures
      var log := LogOf(Notices(m, now, n), m);
      && Finals(log, r) == (if r < n && GetsFinal(m, now, r) then 1 else 0)
      && Delays(log, r) == (if r < n && GetsDelay(m, now, r) then 1 else 0)
      && (GetsDelay(m, now, r) && r < n ==> HasDelay(Notices(m, now, n)))
  {
    hide NoticeFor, LogOf, Finals, Delays, HasDelay, Notices, Indexed;
    if n == 0 {
      NoLog(m, r);
      NoNotices(m, now);
    } else {
      NoticeCount(m, now, n - 1, r);
      NoticesStep(m, now, n);
      var before := Notices(m, now, n - 1);
      var k := NoticeFor(m.recipients[n - 1], DomainOf(m, m.recipients[n - 1]), now);
      if k.Some? {
        var notice := Notice(n - 1, k.value);
        LogSnoc(before, notice, m);
        CountSnoc(LogOf(before, m), Logged(notice, DomainOf(m, m.recipients[n - 1]).status.Pending()), r);
        HasDelayAppend(before, notice);
      }
    }
  }

  lemma NoLog(m: Message, r: nat)
    requires Indexed(m)
    ensures LogOf([], m) == [] && Finals([], r) == 0 && Delays([], r) == 0
  {
  }

  lemma DsnCount(m: Message, now: Instant, config: Config, r: nat)
    requires Indexed(m) && r < |m.recipients|
    ensures
      var log := LogOf(SendDsn(m, now, config).1, m);
      && Finals(log, r) == (if m.returnPath != [] && GetsFinal(m, now, r) then 1 else 0)
      && Delays(log, r) == (if m.returnPath != [] && GetsDelay(m, now, r) then 1 else 0)
      && (m.returnPath == [] ==> log == [])
  {
    hide Notices, NoticeFor, LogOf, Finals, Delays;
    NoticeCount(m, now, |m.recipients|, r);
    NoLog(m, r);
  }

  // ----- Final notices -----

  predicate OnceReported(m: Message, log: seq<Logged>) {
    forall r | 0 <= r < |m.recipients| :: Finals(log, r) <= if m.recipients[r].flags.dsnSent then 1 else 0
  }

  /** A final notice goes out only for a recipient not yet marked, and marks it. */
  lemma DsnOnce(m: Message, log: seq<Logged>, now: Instant, config: Config)
    requires Indexed(m) && OnceReported(m, log)
    ensures OnceReported(SendDsn(m, now, config).0, log + LogOf(SendDsn(m, now, config).1, m))
  {
    hide Notices, Finals;
    var (m', ns) := SendDsn(m, now, config);
    forall r | 0 <= r < |m'.recipients|
      ensures Finals(log + LogOf(ns, m), r) <= if m'.recipients[r].flags.dsnSent then 1 else 0
    {
      DsnCount(m, now, config, r);
      CountAppend(log, LogOf(ns, m), r);
    }
  }

  lemma ProgressOnce(m: Message, m': Message, log: seq<Logged>)
    requires Progress(m, m') && OnceReported(m, log)
    ensures OnceReported(m', log)
  {
  }
}
