/**
  The queue file as a log: a header with one status record per domain and recipient, followed by
  the records that every later save appended; reading it replays the records in order.
*/
module Journal {
  import opened Prelude
  import opened QueueTypes
  import opened Codec
  import opened HeaderCodec
  import opened StatusCodec
  import opened SpoolClock

  /** A number as it fits in a machine word. */
  function Word(n: nat): u64 {
    n % TWO_64
  }

  // ----- Writing -----

  function OrEmpty(t: Option<Text>): Text {
    if t.Some? then t.value else []
  }

  function MarkOf(s: Schedule, now: Clock): Mark {
    Mark(s.inner, Word(Timestamp(s.due, now)))
  }

  function DomainRecordOf(i: nat, d: Domain, now: Clock): Record {
    DomainRecord(Word(i), MarkOf(d.retry, now), MarkOf(d.notify, now), d.status)
  }

  function RcptRecordOf(i: nat, r: Recipient): Record {
    RcptRecord(Word(i), r.flags, r.status)
  }

  function DomainHeadOf(d: Domain, now: Clock): DomainHead {
    DomainHead(d.domain, Word(Timestamp(d.expires, now)))
  }

  function RcptHeadOf(r: Recipient): RcptHead {
    RcptHead(r.domainIdx, r.address, OrEmpty(r.orcpt))
  }

  function HeaderOf(m: Message, now: Clock): Header {
    Header(
      Props(m.created, m.returnPath, OrEmpty(m.envId), m.flags, m.priority),
      seq(|m.domains|, i requires 0 <= i < |m.domains| => DomainHeadOf(m.domains[i], now)),
      seq(|m.recipients|, i requires 0 <= i < |m.recipients| => RcptHeadOf(m.recipients[i])))
  }

  /** A recipient whose dirty mark has been taken away. */
  function Clean(r: Recipient): Recipient {
    r.(flags := r.flags.(statusChanged := false))
  }

  /** The records of `ds`, numbered from `from`: of all of them or of the dirty ones. */
  function DomainRecords(ds: seq<Domain>, from: nat, now: Clock, all: bool): seq<Record> {
    if ds == [] then []
    else (if all || ds[0].changed then [DomainRecordOf(from, ds[0], now)] else []) + DomainRecords(ds[1..], from + 1, now, all)
  }

  function RcptRecords(rs: seq<Recipient>, from: nat, all: bool): seq<Record> {
    if rs == [] then []
    else
      (if all then [RcptRecordOf(from, rs[0])]
       else if rs[0].flags.statusChanged then [RcptRecordOf(from, Clean(rs[0]))]
       else [])
      + RcptRecords(rs[1..], from + 1, all)
  }

  function Records(m: Message, now: Clock, all: bool): seq<Record> {
    DomainRecords(m.domains, 0, now, all) + RcptRecords(m.recipients, 0, all)
  }

  function PrintAll(rs: seq<Record>): Bytes {
    if rs == [] then [] else PrintRecord(rs[0]) + PrintAll(rs[1..])
  }

  /** `Message::serialize`. */
  function Serialize(m: Message, now: Clock): Bytes {
    PrintHeader(HeaderOf(m, now)) + PrintAll(Records(m, now, true))
  }

  /** `Message::serialize_changes`: what is appended ... */
  function Changes(m: Message, now: Clock): Bytes {
    PrintAll(Records(m, now, false))
  }

  /** ... and what the message is afterwards. */
  function Cleared(m: Message): Message {
    m.(domains := CleanDomains(m.domains), recipients := CleanRcpts(m.recipients))
  }

  function CleanDomains(ds: seq<Domain>): seq<Domain> {
    seq(|ds|, i requires 0 <= i < |ds| => ds[i].(changed := false))
  }

  function CleanRcpts(rs: seq<Recipient>): seq<Recipient> {
    seq(|rs|, i requires 0 <= i < |rs| => Clean(rs[i]))
  }

  // ----- Reading -----

  function NoneIfEmpty(t: Text): Option<Text> {
    if t == [] then None else Some(t)
  }

  function FreshDomain(h: DomainHead, now: Clock): Domain {
    Domain(h.domain, Schedule(0, now.mono), Schedule(0, now.mono), InstantOf(h.expires, now), Scheduled, false)
  }

  function FreshRcpt(h: RcptHead): Recipient {
    Recipient(h.domainIdx, h.address, Scheduled, NO_FLAGS, NoneIfEmpty(h.orcpt))
  }

  /** The message that the header alone describes. */
  function Fresh(h: Header, now: Clock): Message {
    Message(h.props.created, h.props.returnPath, NoneIfEmpty(h.props.envId), h.props.flags, h.props.priority,
            seq(|h.domains|, i requires 0 <= i < |h.domains| => FreshDomain(h.domains[i], now)),
            seq(|h.rcpts|, i requires 0 <= i < |h.rcpts| => FreshRcpt(h.rcpts[i])))
  }

  function WithDomainRecord(d: Domain, r: Record, now: Clock): Domain
    requires r.DomainRecord?
  {
    d.(retry := Schedule(r.retry.inner, InstantOf(r.retry.at, now)),
       notify := Schedule(r.notify.inner, InstantOf(r.notify.at, now)),
       status := r.domainStatus)
  }

  function WithRcptRecord(t: Recipient, r: Record): Recipient
    requires r.RcptRecord?
  {
    t.(flags := r.flags, status := r.rcptStatus)
  }

  predicate Names(r: Record, domains: nat, rcpts: nat) {
    if r.DomainRecord? then r.idx < domains else r.idx < rcpts
  }

  function Apply(m: Message, r: Record, now: Clock): (m': Message)
    requires Names(r, |m.domains|, |m.recipients|)
    ensures |m'.domains| == |m.domains| && |m'.recipients| == |m.recipients|
  {
    if r.DomainRecord? then m.(domains := m.domains[r.idx := WithDomainRecord(m.domains[r.idx], r, now)])
    else m.(recipients := m.recipients[r.idx := WithRcptRecord(m.recipients[r.idx], r)])
  }

  /** Records are applied until one cannot be read or names nothing. */
  function Replay(m: Message, s: Bytes, now: Clock): Message
    decreases |s|
  {
    match ParseRecord(s)
    case Fail => m
    case Done(r, rest) =>
      if Names(r, |m.domains|, |m.recipients|) then Replay(Apply(m, r, now), rest, now) else m
  }

  /** `Message::deserialize`. */
  function Deserialize(s: Bytes, now: Clock): Option<Message> {
    match ParseHeader(s)
    case Fail => None
    case Done(h, rest) => Some(Replay(Fresh(h, now), rest, now))
  }

  // ----- A message and what was read back -----

  /** Machine limits: vector lengths and timestamps fit in a word. */
  predicate Representable(m: Message, now: Clock) {
    && |m.domains| < TWO_64 && |m.recipients| < TWO_64
    && forall i | 0 <= i < |m.domains| ::
         && Timestamp(m.domains[i].expires, now) < TWO_64
         && Timestamp(m.domains[i].retry.due, now) < TWO_64
         && Timestamp(m.domains[i].notify.due, now) < TWO_64
  }

  /** Every string of the message is within the limit of the reader. */
  predicate FitsMessage(m: Message) {
    && FitsText(m.returnPath) && FitsText(OrEmpty(m.envId))
    && (forall i | 0 <= i < |m.domains| :: FitsText(m.domains[i].domain) && FitsDomainStatus(m.domains[i].status))
    && (forall i | 0 <= i < |m.recipients| ::
          FitsText(m.recipients[i].address) && FitsText(OrEmpty(m.recipients[i].orcpt)) && FitsRcptStatus(m.recipients[i].status))
  }

  predicate DomainRestored(d: Domain, d': Domain, now: Instant) {
    && d'.domain == d.domain && d'.status == d.status && !d'.changed
    && d'.retry.inner == d.retry.inner && d'.notify.inner == d.notify.inner
    && Near(d.retry.due, d'.retry.due, now) && Near(d.notify.due, d'.notify.due, now) && Near(d.expires, d'.expires, now)
  }

  function RestoredRcpt(r: Recipient): Recipient {
    r.(orcpt := NoneIfEmpty(OrEmpty(r.orcpt)))
  }

  /** All persisted fields are back, times as closely as whole seconds allow, and nothing is marked dirty. */
  predicate Restored(m: Message, m': Message, now: Instant) {
    && m'.created == m.created && m'.returnPath == m.returnPath && m'.envId == NoneIfEmpty(OrEmpty(m.envId))
    && m'.flags == m.flags && m'.priority == m.priority
    && |m'.domains| == |m.domains| && |m'.recipients| == |m.recipients|
    && (forall i | 0 <= i < |m.domains| :: DomainRestored(m.domains[i], m'.domains[i], now))
    && (forall i | 0 <= i < |m.recipients| :: m'.recipients[i] == RestoredRcpt(m.recipients[i]))
  }

  function ExactDomain(d: Domain, now: Instant): Domain {
    d.(retry := d.retry.(due := Max(d.retry.due, now)), notify := d.notify.(due := Max(d.notify.due, now)),
       expires := Max(d.expires, now), changed := false)
  }

  /** The message that a reader recovers when every time is a whole second. */
  function Exact(m: Message, now: Instant): Message {
    m.(envId := NoneIfEmpty(OrEmpty(m.envId)),
       domains := seq(|m.domains|, i requires 0 <= i < |m.domains| => ExactDomain(m.domains[i], now)),
       recipients := seq(|m.recipients|, i requires 0 <= i < |m.recipients| => RestoredRcpt(m.recipients[i])))
  }

  predicate WholeTimes(m: Message) {
    forall i | 0 <= i < |m.domains| ::
      WholeSeconds(m.domains[i].expires) && WholeSeconds(m.domains[i].retry.due) && WholeSeconds(m.domains[i].notify.due)
  }

  // ----- A history of saves -----

  /** A message as it was just before it was written, and the clocks at that moment. */
  datatype Save = Save(message: Message, clock: Clock)

  /** Between two saves only statuses, schedules and flags changed, and what changed carries its dirty mark. */
  predicate Tracked(m: Message, m': Message) {
    && m'.(domains := m.domains, recipients := m.recipients) == m
    && |m'.domains| == |m.domains| && |m'.recipients| == |m.recipients|
    && (forall i | 0 <= i < |m.domains| ::
          && m'.domains[i].domain == m.domains[i].domain && m'.domains[i].expires == m.domains[i].expires
          && (!m'.domains[i].changed ==> m'.domains[i] == m.domains[i].(changed := false)))
    && (forall i | 0 <= i < |m.recipients| ::
          && m'.recipients[i].(status := m.recipients[i].status, flags := m.recipients[i].flags) == m.recipients[i]
          && (!m'.recipients[i].flags.statusChanged ==> m'.recipients[i] == m.recipients[i]))
  }

  /** The message in memory after the last save. */
  function Live(first: Save, saves: seq<Save>): Message {
    if saves == [] then first.message else Cleared(saves[|saves| - 1].message)
  }

  predicate History(first: Save, saves: seq<Save>) {
    saves != [] ==>
      var last := |saves| - 1;
      History(first, saves[..last]) && Tracked(Live(first, saves[..last]), saves[last].message)
  }

  /** The file: the first full write and every batch appended since. */
  function File(first: Save, saves: seq<Save>): Bytes {
    if saves == [] then Serialize(first.message, first.clock)
    else
      var last := |saves| - 1;
      File(first, saves[..last]) + Changes(saves[last].message, saves[last].clock)
  }
}
