/** What happens to a queued message: expiry, notifications, delivery attempts and operator requests. */
module Lifecycle {
  import opened Prelude
  import opened QueueTypes
  import opened Session

  const TEN_SECONDS: int := 10 * NANOS

  /** A list of intervals, in nanoseconds; the configuration parser refuses empty ones. */
  type Intervals = s: seq<nat> | |s| > 0 witness [0]

  /** The notify intervals that the rules give the domains of a message. */
  datatype Config = Config(notify: Text -> Intervals)

  ghost predicate ValidConfig(c: Config) {
    forall d: Text :: |c.notify(d)| < TWO_32
  }

  /** Every recipient refers to a domain of the message. */
  predicate Indexed(m: Message) {
    forall i | 0 <= i < |m.recipients| :: m.recipients[i].domainIdx < |m.domains|
  }

  // ----- Expiry -----

  /** The bytes of an ASCII string. */
  function Ascii(s: string): Bytes {
    seq(|s|, i requires 0 <= i < |s| => if s[i] < 128 as char then s[i] as int else 0x3F)
  }

  /** The reason given for a domain that was never tried in time. */
  function RateLimitExceeded(): Text {
    AsciiIsUtf8(Ascii("Queue rate limit exceeded."));
    Ascii("Queue rate limit exceeded.")
  }

  lemma {:induction false} AsciiIsUtf8(s: Bytes)
    requires forall i | 0 <= i < |s| :: s[i] < 0x80
    ensures ValidUtf8(s)
  {
    if s != [] {
      AsciiIsUtf8(s[1..]);
    }
  }

  predicate Expires(d: Domain, now: Instant) {
    d.status.Pending() && d.expires <= now
  }

  function ExpiredDomain(d: Domain, now: Instant): Domain {
    if !Expires(d, now) then d
    else d.(status := if d.status.TemporaryFailure? then d.status.IntoPermanent() else PermanentFailure(Io(RateLimitExceeded())),
            changed := true)
  }

  function ExpiredRcpt(r: Recipient, ds: seq<Domain>, now: Instant): Recipient {
    if r.domainIdx < |ds| && Expires(ds[r.domainIdx], now) then r.(status := r.status.IntoPermanent()) else r
  }

  function Expire(m: Message, now: Instant): Message {
    m.(domains := seq(|m.domains|, i requires 0 <= i < |m.domains| => ExpiredDomain(m.domains[i], now)),
       recipients := seq(|m.recipients|, i requires 0 <= i < |m.recipients| => ExpiredRcpt(m.recipients[i], m.domains, now)))
  }

  predicate SomePending(m: Message) {
    exists i | 0 <= i < |m.domains| :: m.domains[i].status.Pending()
  }

  predicate AllTerminal(m: Message) {
    forall i | 0 <= i < |m.domains| :: m.domains[i].status.Terminal()
  }

  // ----- Delivery status notifications -----

  datatype Kind = Success | Delay | Failed

  datatype Notice = Notice(rcpt: nat, kind: Kind)

  function Sent(r: Recipient): Recipient {
    r.(flags := r.flags.(dsnSent := true, statusChanged := true))
  }

  predicate DelayDue(r: Recipient, d: Domain, now: Instant) {
    d.notify.due <= now && r.flags.notifyDelay
  }

  /** The outcome to report for a recipient, if it is final; the domain's counts where it has none of its own. */
  function Outcome(r: Recipient, d: Domain): Option<Kind> {
    match r.status
    case Completed(_) => Some(Success)
    case PermanentFailure(_) => Some(Failed)
    case TemporaryFailure(_) => None
    case Scheduled => if d.status.PermanentFailure? then Some(Failed) else None
  }

  predicate Silent(r: Recipient) {
    r.flags.dsnSent || r.flags.notifyNever
  }

  predicate Wanted(r: Recipient, k: Kind) {
    match k
    case Success => r.flags.notifySuccess
    case Failed => r.flags.notifyFailure
    case Delay => r.flags.notifyDelay
  }

  function NoticeFor(r: Recipient, d: Domain, now: Instant): Option<Kind> {
    if Silent(r) then None
    else match Outcome(r, d)
      case Some(k) => if Wanted(r, k) then Some(k) else None
      case None =>
        if DelayDue(r, d, now) && (r.status.TemporaryFailure? || !d.status.Completed?) then Some(Delay) else None
  }

  function NotifiedRcpt(r: Recipient, d: Domain): Recipient {
    if !Silent(r) && Outcome(r, d).Some? then Sent(r) else r
  }

  function DomainOf(m: Message, r: Recipient): Domain
    requires r.domainIdx < |m.domains|
  {
    m.domains[r.domainIdx]
  }

  /** The notices of one report, in the order of the recipients. */
  function Notices(m: Message, now: Instant, n: nat): (ns: seq<Notice>)
    requires n <= |m.recipients| && Indexed(m)
    ensures forall k | 0 <= k < |ns| :: ns[k].rcpt < n
  {
    if n == 0 then []
    else
      var k := NoticeFor(m.recipients[n - 1], DomainOf(m, m.recipients[n - 1]), now);
      Notices(m, now, n - 1) + if k.Some? then [Notice(n - 1, k.value)] else []
  }

  predicate HasDelay(ns: seq<Notice>) {
    exists k | 0 <= k < |ns| :: ns[k].kind == Delay
  }

  lemma HasDelayAppend(ns: seq<Notice>, n: Notice)
    ensures HasDelay(ns + [n]) <==> HasDelay(ns) || n.kind == Delay
  {
    assert (ns + [n])[|ns|] == n;
    if k :| 0 <= k < |ns| && ns[k].kind == Delay {
      assert (ns + [n])[k].kind == Delay;
    }
  }

  /** The next delay notice of a domain: after the next interval, or never before it expires. */
  function NextNotify(d: Domain, now: Instant, intervals: seq<nat>): Domain {
    var next := (d.notify.inner + 1) % TWO_32;
    if !(d.status.Pending() && d.notify.due <= now) then d
    else if next < |intervals| then d.(notify := Schedule(next, now + intervals[next]), changed := true)
    else d.(notify := d.notify.(due := d.expires + TEN_SECONDS), changed := true)
  }

  function Reported(m: Message, now: Instant, config: Config): Message
    requires Indexed(m)
  {
    var delayed := HasDelay(Notices(m, now, |m.recipients|));
    m.(recipients := seq(|m.recipients|, i requires 0 <= i < |m.recipients| =>
                           NotifiedRcpt(m.recipients[i], DomainOf(m, m.recipients[i]))),
       domains := if delayed
                  then seq(|m.domains|, i requires 0 <= i < |m.domains| =>
                             NextNotify(m.domains[i], now, config.notify(m.domains[i].domain)))
                  else m.domains)
  }

  /** A message without a sender is not reported: failures are only noted. */
  function BouncedRcpt(r: Recipient, d: Domain): Recipient {
    if !Silent(r) && Outcome(r, d) == Some(Failed) then r.(flags := r.flags.(dsnSent := true)) else r
  }

  function BouncedDomain(d: Domain, now: Instant): Domain {
    if d.notify.due <= now then d.(notify := d.notify.(due := d.expires + TEN_SECONDS)) else d
  }

  function DoubleBounced(m: Message, now: Instant): Message
    requires Indexed(m)
  {
    m.(recipients := seq(|m.recipients|, i requires 0 <= i < |m.recipients| =>
                           BouncedRcpt(m.recipients[i], DomainOf(m, m.recipients[i]))),
       domains := seq(|m.domains|, i requires 0 <= i < |m.domains| => BouncedDomain(m.domains[i], now)))
  }

  /** `send_dsn`: the message afterwards and the notices that went out. */
  function SendDsn(m: Message, now: Instant, config: Config): (Message, seq<Notice>)
    requires Indexed(m)
  {
    if m.returnPath != [] then (Reported(m, now, config), Notices(m, now, |m.recipients|))
    else (DoubleBounced(m, now), [])
  }

  // ----- Delivery -----

  /** What came of one due domain: held back by a throttle, decided without a session, or talked to a host. */
  datatype DomainOutcome =
    | HeldBack(retryAt: Option<Instant>)
    | Decided(status: DomainStatus)
    | Talked(script: Script)

  /**
    `begin` is when the domain's turn came, `end` when its outcome was known. The retry intervals are
    looked up for each turn, with the host and addresses of that turn, and may differ from one to the next.
  */
  datatype Turn = Turn(begin: Instant, end: Instant, outcome: DomainOutcome, intervals: Intervals)

  predicate ValidTurn(t: Turn) {
    && t.begin <= t.end
    && (t.outcome.HeldBack? && t.outcome.retryAt.Some? ==> t.begin <= t.outcome.retryAt.value)
    && (t.outcome.Decided? ==> !t.outcome.status.Completed?)
    && (t.outcome.Talked? ==> ValidScript(t.outcome.script))
  }

  predicate Due(d: Domain, now: Instant) {
    d.status.Pending() && d.retry.due <= now
  }

  /** The interval before the attempt that follows attempt number `inner`; the last one repeats. */
  function Interval(intervals: Intervals, inner: nat): nat {
    intervals[if inner < |intervals| then inner else |intervals| - 1]
  }

  function SetStatus(d: Domain, status: DomainStatus, intervals: Intervals, end: Instant): Domain {
    var d' := d.(status := status, changed := true);
    if status.Pending()
    then d'.(retry := Schedule((d.retry.inner + 1) % TWO_32, end + Interval(intervals, d.retry.inner)))
    else d'
  }

  function SetThrottleError(d: Domain, retryAt: Option<Instant>): Domain {
    match retryAt
    case None => d.(status := TemporaryFailure(ConcurrencyLimited), changed := true)
    case Some(at) => d.(retry := d.retry.(due := at), status := TemporaryFailure(RateLimited), changed := true)
  }

  function TurnDomain(d: Domain, i: nat, rs: seq<Recipient>, t: Turn): Domain {
    if !Due(d, t.begin) then d
    else match t.outcome
      case HeldBack(retryAt) => SetThrottleError(d, retryAt)
      case Decided(status) => SetStatus(d, status, t.intervals, t.end)
      case Talked(script) => SetStatus(d, DomainAfter(rs, i, script), t.intervals, t.end)
  }

  function TurnRcpts(d: Domain, i: nat, rs: seq<Recipient>, t: Turn): seq<Recipient> {
    if Due(d, t.begin) && t.outcome.Talked? then RcptsAfter(rs, i, t.outcome.script) else rs
  }

  /** Domain `i` takes its turn. */
  function TakeTurn(m: Message, i: nat, t: Turn): (m': Message)
    requires i < |m.domains|
    ensures |m'.domains| == |m.domains| && |m'.recipients| == |m.recipients|
  {
    var d := m.domains[i];
    m.(domains := m.domains[i := TurnDomain(d, i, m.recipients, t)],
       recipients := TurnRcpts(d, i, m.recipients, t))
  }

  /** The first `n` domains take their turns, in order. */
  function Worked(m: Message, turns: seq<Turn>, n: nat): (m': Message)
    requires n <= |m.domains| && |turns| == |m.domains|
    ensures |m'.domains| == |m.domains| && |m'.recipients| == |m.recipients|
  {
    if n == 0 then m else TakeTurn(Worked(m, turns, n - 1), n - 1, turns[n - 1])
  }

  // ----- Operator requests -----

  /** The operator cancels the delivery to the recipients in `chosen`. */
  function CancelledRcpt(r: Recipient, i: nat, chosen: set<nat>, response: HostResponse<Text>): Recipient {
    if i in chosen then Updated(r, Completed(response)) else r
  }

  function CancelledRcpts(rs: seq<Recipient>, chosen: set<nat>, response: HostResponse<Text>): seq<Recipient> {
    seq(|rs|, i requires 0 <= i < |rs| => CancelledRcpt(rs[i], i, chosen, response))
  }

  function CancelledDomain(d: Domain, i: nat, rs: seq<Recipient>): Domain {
    if d.status.Pending() && AllSettled(rs, i) then d.(status := Completed(()), changed := true) else d
  }

  function Cancel(m: Message, chosen: set<nat>, response: HostResponse<Text>): Message {
    var rs := CancelledRcpts(m.recipients, chosen, response);
    m.(recipients := rs, domains := seq(|m.domains|, i requires 0 <= i < |m.domains| => CancelledDomain(m.domains[i], i, rs)))
  }

  function RetriedDomain(d: Domain, i: nat, chosen: set<nat>, time: Instant): Domain {
    if d.status.Pending() && i in chosen
    then d.(retry := d.retry.(due := time), expires := if d.expires > time then time + TEN_SECONDS else d.expires, changed := true)
    else d
  }

  /** The operator asks for the chosen domains to be tried at `time`. */
  function OperatorRetry(m: Message, chosen: set<nat>, time: Instant): Message {
    m.(domains := seq(|m.domains|, i requires 0 <= i < |m.domains| => RetriedDomain(m.domains[i], i, chosen, time)))
  }
}
