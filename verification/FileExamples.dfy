/** Messages and lives that show where the queue file falls short of the message in memory. */
module FileExamples {
  import opened Prelude
  import opened QueueTypes
  import opened Codec
  import opened HeaderCodec
  import opened StatusCodec
  import opened SpoolClock
  import opened Session
  import opened Lifecycle
  import opened Journal
  import opened JournalTheorems
  import opened MessageLife
  import opened MessageProofs
  import opened NoticeProofs
  import opened MessageExamples
  import opened SaveProofs
  import opened SeenFile
  import opened CrashSafety

  // ----- A string over the limit -----

  /** `n` times the letter a. */
  function Letters(n: nat): Text
    requires n < TWO_64
  {
    var s: Bytes := seq(n, i => 0x61);
    AsciiIsUtf8(s);
    s
  }

  function From(n: nat): Message
    requires n < TWO_64
  {
    Message(0, Letters(n), None, 0, 0, [], [])
  }

  /** A message from an address of 4097 letters is written, and cannot be read back at any time. */
  lemma LongTextIsLost(written: Clock, now: Clock)
    ensures Deserialize(Serialize(From(4097), written), now) == None
  {
    hide Letters, PrintHeader, ParseHeader, PrintAll, Records;
    LettersFitIff(4097);
    HeaderRoundTrip(HeaderOf(From(4097), written), PrintAll(Records(From(4097), written, true)));
  }

  /** One letter less, and it is read back. */
  lemma LongestTextIsKept(written: Clock, now: Clock)
    requires Together(written, now)
    ensures
      var read := Deserialize(Serialize(From(4096), written), now);
      read.Some? && read.value.returnPath == Letters(4096)
  {
    hide Letters, Deserialize, Serialize;
    LettersFitIff(4096);
    RoundTripIffFits(From(4096), written, now);
  }

  lemma LettersFitIff(n: nat)
    requires n < TWO_64
    ensures FitsText(Letters(n)) <==> n <= 4096
  {
  }

  // ----- Saves that miss something -----

  /** Both clocks started together. */
  function Tick(t: nat): Clock { Clock(t, t) }

  predicate Soon(t: Instant) { t < 86400 * NANOS }

  /** Few entries, times within a day, and short strings. */
  predicate Small(m: Message) {
    && |m.domains| < 10 && |m.recipients| < 10 && FitsMessage(m)
    && forall i | 0 <= i < |m.domains| :: Soon(m.domains[i].expires) && Soon(m.domains[i].retry.due) && Soon(m.domains[i].notify.due)
  }

  lemma SmallIsRepresentable(m: Message, t: nat)
    requires Small(m) && Soon(t)
    ensures Representable(m, Tick(t)) && FitsMessage(m)
  {
    hide FitsMessage, Timestamp, Soon;
    forall i | 0 <= i < |m.domains|
      ensures Timestamp(m.domains[i].expires, Tick(t)) < TWO_64 && Timestamp(m.domains[i].retry.due, Tick(t)) < TWO_64
           && Timestamp(m.domains[i].notify.due, Tick(t)) < TWO_64
    {
      SoonIsEarly(m.domains[i].expires, t);
      SoonIsEarly(m.domains[i].retry.due, t);
      SoonIsEarly(m.domains[i].notify.due, t);
    }
  }

  lemma SoonIsEarly(x: Instant, t: nat)
    requires Soon(x) && Soon(t)
    ensures Timestamp(x, Tick(t)) < TWO_64
  {
  }

  /** What a reader makes of a file with one save after the first full write. */
  lemma ReadOneSave(m: Message, m': Message, t: nat)
    requires Unmarked(m) && SameMessage(m, m') && Small(m) && Small(Followed(m, m')) && Soon(t)
    ensures
      var read := Deserialize(File(Save(m, Tick(0)), [Save(m', Tick(t))]), Tick(t));
      read.Some? && Restored(Cleared(Followed(m, m')), read.value, t)
  {
    hide Deserialize, File, Restored, SameMessage, Followed, Representable, FitsMessage, Small, Unmarked;
    var first, saves := Save(m, Tick(0)), [Save(m', Tick(t))];
    assert saves[..0] == [];
    assert Shown(first, saves) == [Save(Followed(m, m'), Tick(t))];
    SmallIsRepresentable(m, 0);
    SmallIsRepresentable(Followed(m, m'), t);
    FileShowsSeen(first, saves, Tick(t));
  }

  /** The same with two saves, of which the first is complete. */
  lemma ReadTwoSaves(m: Message, m': Message, m'': Message, t: nat)
    requires Unmarked(m) && SameMessage(m, m') && Tracked(m, m') && SameMessage(m, m'') && SameMessage(Cleared(m'), m'')
    requires Small(m) && Small(m') && Small(Followed(Cleared(m'), m'')) && Soon(t)
    ensures
      var read := Deserialize(File(Save(m, Tick(0)), [Save(m', Tick(0)), Save(m'', Tick(t))]), Tick(t));
      read.Some? && Restored(Cleared(Followed(Cleared(m'), m'')), read.value, t)
  {
    hide Deserialize, File, Restored, SameMessage, Followed, Representable, FitsMessage, Small, Unmarked, Tracked, Cleared;
    var first, saves := Save(m, Tick(0)), [Save(m', Tick(0)), Save(m'', Tick(t))];
    assert saves[..1] == [Save(m', Tick(0))] && saves[..1][..0] == [];
    InStepIff(m, m');
    FollowsTracked(m, m');
    assert Seen(first, saves[..1]) == Cleared(m');
    assert Shown(first, saves[..1]) == [Save(m', Tick(0))];
    assert Shown(first, saves) == [Save(m', Tick(0)), Save(Followed(Cleared(m'), m''), Tick(t))];
    SmallIsRepresentable(m, 0);
    SmallIsRepresentable(m', 0);
    SmallIsRepresentable(Followed(Cleared(m'), m''), t);
    FileShowsSeen(first, saves, Tick(t));
  }

  lemma FollowsTracked(m: Message, m': Message)
    requires SameMessage(m, m') && Tracked(m, m') && Unmarked(m)
    ensures Followed(m, m') == m'
  {
    var f := Followed(m, m');
    assert f.domains == m'.domains && f.recipients == m'.recipients;
  }

  // ----- An operator's retry -----

  function Patient(): Domain { Domain(Letter(), Schedule(0, 0), Schedule(0, 70 * NANOS), 100 * NANOS, Scheduled, false) }

  function Plain(): Recipient { Recipient(0, [], Scheduled, NO_FLAGS, None) }

  /** A request at once for second 50 shortens the life of a message to second 60; the file keeps second 100. */
  lemma RetryIsLost(config: Config) returns (l: Life, step: Step, l': Life)
    requires ValidConfig(config)
    ensures New(l, config) && Saved(l.m) && Enabled(l, step) && |l.tries| == |l.m.domains| && l' == Next(l, step, config)
    ensures |l'.m.domains| == 1 && l'.m.domains[0].expires == 60 * NANOS
    ensures
      var read := Deserialize(File(Save(l.m, Tick(0)), [Save(Unsaved(l, step, config), Tick(0))]), Tick(0));
      read.Some? && |read.value.domains| == 1 && read.value.domains[0].expires > 98 * NANOS
  {
    hide Deserialize, File, Next, Enabled, Small;
    var d, r := Patient(), Plain();
    l, step := Start(d, r), AskRetry({0}, 50 * NANOS);
    AskRetrySingle(l, d, r, 50 * NANOS, config);
    l' := Next(l, step, config);
    var d' := d.(retry := Schedule(0, 50 * NANOS), expires := 60 * NANOS, changed := true);
    assert Unsaved(l, step, config) == Single(d', r) by { RetriedSingle(l, d, r, config); }
    SinglesFollow(d, r, d', r);
    SmallSingle(d, r);
    SmallSingle(d'.(expires := d.expires), r);
    ReadOneSave(l.m, Single(d', r), 0);
  }

  lemma RetriedSingle(l: Life, d: Domain, r: Recipient, config: Config)
    requires ValidConfig(config) && l.m == Single(d, r) && Enabled(l, AskRetry({0}, 50 * NANOS))
    ensures Unsaved(l, AskRetry({0}, 50 * NANOS), config) == Single(RetriedDomain(d, 0, {0}, 50 * NANOS), r)
  {
    assert OperatorRetry(l.m, {0}, 50 * NANOS).domains == [RetriedDomain(d, 0, {0}, 50 * NANOS)];
  }

  lemma SinglesFollow(d: Domain, r: Recipient, d': Domain, r': Recipient)
    requires d'.domain == d.domain && r'.(status := r.status, flags := r.flags) == r && !d.changed && !r.flags.statusChanged
    ensures SameMessage(Single(d, r), Single(d', r')) && Unmarked(Single(d, r))
    ensures Followed(Single(d, r), Single(d', r')) == Single(FollowedDomain(d, d'), FollowedRcpt(r, r'))
  {
    var f := Followed(Single(d, r), Single(d', r'));
    assert f.domains == [FollowedDomain(d, d')] && f.recipients == [FollowedRcpt(r, r')];
  }

  lemma SmallSingle(d: Domain, r: Recipient)
    requires Soon(d.expires) && Soon(d.retry.due) && Soon(d.notify.due) && d.domain == Letter() && d.status.Scheduled?
    requires r.address == [] && r.orcpt == None && r.status.Scheduled?
    ensures Small(Single(d, r))
  {
  }

  // ----- A message without a sender -----

  function Bounce(d: Domain, r: Recipient): Message { Single(d, r).(returnPath := []) }

  /** A visit at second 5 puts the notify time of a bounce behind its expiry; the file keeps second 5. */
  lemma BounceIsLost(config: Config) returns (l: Life, step: Step, l': Life)
    requires ValidConfig(config)
    ensures New(l, config) && Saved(l.m) && Enabled(l, step) && |l.tries| == |l.m.domains| && l' == Next(l, step, config)
    ensures l.m.returnPath == [] && l'.fate == Queued && |l'.m.domains| == 1 && l'.m.domains[0].notify.due == 110 * NANOS
    ensures
      var read := Deserialize(File(Save(l.m, Tick(0)), [Save(Unsaved(l, step, config), Tick(5 * NANOS))]), Tick(5 * NANOS));
      read.Some? && |read.value.domains| == 1 && read.value.domains[0].notify.due < 6 * NANOS
  {
    hide Deserialize, File, Small;
    var d, r := Patient().(notify := Schedule(0, 5 * NANOS)), Plain();
    l, step := Life(Bounce(d, r), 0, Queued, [], [[]]), Visit(5 * NANOS);
    var d' := d.(notify := Schedule(0, 110 * NANOS));
    BounceOpened(d, r, config);
    BouncePending(d', r);
    l' := Next(l, step, config);
    BouncesFollow(d, r, d', r);
    SmallSingle(d, r);
    SmallBounce(d, r);
    ReadOneSave(l.m, Bounce(d', r), 5 * NANOS);
  }

  lemma BounceOpened(d: Domain, r: Recipient, config: Config)
    requires d.status.Scheduled? && d.notify.due == 5 * NANOS && d.expires == 100 * NANOS && r.domainIdx == 0 && r.status.Scheduled?
    ensures Opened(Bounce(d, r), 5 * NANOS, config) == Bounce(d.(notify := Schedule(d.notify.inner, 110 * NANOS)), r)
  {
    var m, at := Bounce(d, r), 5 * NANOS;
    assert Expire(m, at).domains == [d] && Expire(m, at).recipients == [r];
    assert Expire(m, at) == m;
    var m' := DoubleBounced(m, at);
    assert m'.domains == [d.(notify := Schedule(d.notify.inner, 110 * NANOS))] && m'.recipients == [r];
  }

  lemma BouncePending(d: Domain, r: Recipient)
    requires d.status.Scheduled?
    ensures SomePending(Bounce(d, r)) && |Cleared(Bounce(d, r)).domains| == 1 && Cleared(Bounce(d, r)).domains[0] == d.(changed := false)
    ensures SomePending(Expire(Bounce(d, r), d.expires - 1))
  {
    assert Bounce(d, r).domains[0] == d;
    assert Expire(Bounce(d, r), d.expires - 1).domains[0] == d;
  }

  lemma BouncesFollow(d: Domain, r: Recipient, d': Domain, r': Recipient)
    requires d'.domain == d.domain && r'.(status := r.status, flags := r.flags) == r && !d.changed && !r.flags.statusChanged
    ensures SameMessage(Bounce(d, r), Bounce(d', r')) && Unmarked(Bounce(d, r))
    ensures Followed(Bounce(d, r), Bounce(d', r')) == Bounce(FollowedDomain(d, d'), FollowedRcpt(r, r'))
  {
    var f := Followed(Bounce(d, r), Bounce(d', r'));
    assert f.domains == [FollowedDomain(d, d')] && f.recipients == [FollowedRcpt(r, r')];
  }

  lemma SmallBounce(d: Domain, r: Recipient)
    requires Small(Single(d, r))
    ensures Small(Bounce(d, r))
  {
  }

  // ----- A recipient that wants no reports -----

  function Pair(d0: Domain, d1: Domain, r0: Recipient, r1: Recipient): Message {
    Message(0, Letter(), None, 0, 0, [d0, d1], [r0, r1])
  }

  /** Nothing to report about a recipient. */
  predicate Quiet(r: Recipient, d: Domain, now: Instant) {
    NoticeFor(r, d, now).None? && NotifiedRcpt(r, d) == r
  }

  lemma QuietPair(d0: Domain, d1: Domain, r0: Recipient, r1: Recipient, now: Instant, config: Config)
    requires r0.domainIdx == 0 && r1.domainIdx == 1 && Quiet(r0, d0, now) && Quiet(r1, d1, now)
    ensures SendDsn(Pair(d0, d1, r0, r1), now, config).0 == Pair(d0, d1, r0, r1)
  {
    hide NoticeFor, NotifiedRcpt, Notices, SendDsn;
    var m := Pair(d0, d1, r0, r1);
    NoticesOfQuiet(m, now, 2);
    NothingReported(m, now, config);
  }

  lemma {:induction false} NoticesOfQuiet(m: Message, now: Instant, n: nat)
    requires Indexed(m) && n <= |m.recipients|
    requires forall j | 0 <= j < n :: NoticeFor(m.recipients[j], DomainOf(m, m.recipients[j]), now).None?
    ensures Notices(m, now, n) == []
  {
    hide NoticeFor, Notices;
    if n == 0 {
      NoNotices(m, now);
    } else {
      NoticesOfQuiet(m, now, n - 1);
      NoticesStep(m, now, n);
    }
  }

  lemma NothingReported(m: Message, now: Instant, config: Config)
    requires Indexed(m) && Notices(m, now, |m.recipients|) == []
    requires forall j | 0 <= j < |m.recipients| :: NotifiedRcpt(m.recipients[j], DomainOf(m, m.recipients[j])) == m.recipients[j]
    ensures m.returnPath != [] ==> SendDsn(m, now, config).0 == m
  {
    hide Notices, NotifiedRcpt;
    if m.returnPath != [] {
      assert SendDsn(m, now, config).0.recipients == m.recipients;
    }
  }

  lemma PairPending(d0: Domain, d1: Domain, r0: Recipient, r1: Recipient)
    requires d1.status.Pending()
    ensures SomePending(Pair(d0, d1, r0, r1))
    ensures Cleared(Pair(d0, d1, r0, r1)) == Pair(d0.(changed := false), d1.(changed := false), Clean(r0), Clean(r1))
  {
    var m := Pair(d0, d1, r0, r1);
    assert m.domains[1] == d1;
    assert Cleared(m).domains == [d0.(changed := false), d1.(changed := false)];
    assert Cleared(m).recipients == [Clean(r0), Clean(r1)];
  }

  lemma ExpirePair(d0: Domain, d1: Domain, r0: Recipient, r1: Recipient, now: Instant)
    requires r0.domainIdx == 0 && r1.domainIdx == 1
    ensures Expire(Pair(d0, d1, r0, r1), now)
         == Pair(ExpiredDomain(d0, now), ExpiredDomain(d1, now), ExpiredRcpt(r0, [d0, d1], now), ExpiredRcpt(r1, [d0, d1], now))
  {
    hide ExpiredDomain, ExpiredRcpt;
    var m := Expire(Pair(d0, d1, r0, r1), now);
    assert m.domains == [ExpiredDomain(d0, now), ExpiredDomain(d1, now)];
    assert m.recipients == [ExpiredRcpt(r0, [d0, d1], now), ExpiredRcpt(r1, [d0, d1], now)];
  }

  function Refusal(): HostResponse<ErrorDetails> { HostResponse(ErrorDetails([], []), Response(450, 0, 0, 0, [])) }

  /** The first recipient is refused for now, the second belongs to another domain. */
  lemma RefusedInPair(r0: Recipient, r1: Recipient)
    requires r0.domainIdx == 0 && r1.domainIdx == 1 && r0.status.Pending()
    ensures
      var script := Script(None, [Rejected(false, Refusal())], SmtpDelivered);
      && RcptsAfter([r0, r1], 0, script) == [Updated(r0, TemporaryFailure(Refusal())), r1]
      && DomainAfter([r0, r1], 0, script) == Scheduled
  {
    var script := Script(None, [Rejected(false, Refusal())], SmtpDelivered);
    var rs := [r0, r1];
    assert Commands(rs, 0, 1) == 1 && Commands(rs, 0, 2) == 1;
    assert AcceptedRcpts(rs, 0, script, 1) == [] && AcceptedRcpts(rs, 0, script, 2) == [];
    assert Broken(script, 1).None?;
    assert RcptAfter(rs, 0, script, 0) == Updated(r0, TemporaryFailure(Refusal()));
    assert RcptAfter(rs, 0, script, 1) == r1;
    var after := RcptsAfter(rs, 0, script);
    assert after[0].domainIdx == 0 && !after[0].status.Terminal();
  }

  function Brief(): Domain { Patient().(expires := 10 * NANOS) }

  function Later(): Domain { Patient().(retry := Schedule(0, 80 * NANOS)) }

  function Unheard(): Recipient { Plain().(flags := NO_FLAGS.(notifyNever := true)) }

  function Other(): Recipient { Plain().(domainIdx := 1) }

  function Tried(): Domain { Brief().(retry := Schedule(1, 5 * NANOS), changed := true) }

  function Refused(): Recipient { Updated(Unheard(), TemporaryFailure(Refusal())) }

  function PairTurns(): seq<Turn> { [RefusedTurn(Refusal(), 5 * NANOS), Turn(0, 0, HeldBack(None), [NANOS])] }

  function PairStart(): Life { Life(Pair(Brief(), Later(), Unheard(), Other()), 0, Queued, [], [[], []]) }

  /** The attempt in which the recipient is refused for now. */
  lemma PairAttempt(config: Config)
    requires ValidConfig(config)
    ensures Enabled(PairStart(), Attempt(0, PairTurns(), 0))
    ensures Unsaved(PairStart(), Attempt(0, PairTurns(), 0), config) == Pair(Tried(), Later(), Refused(), Other())
  {
    hide RcptsAfter, DomainAfter, SendDsn, Expire;
    var m, turns := PairStart().m, PairTurns();
    ExpirePair(Brief(), Later(), Unheard(), Other(), 0);
    assert Expire(m, 0) == m;
    PairPending(Brief(), Later(), Unheard(), Other());
    QuietPair(Brief(), Later(), Unheard(), Other(), 0, config);
    assert Opened(m, 0, config) == m;
    RefusedInPair(Unheard(), Other());
    PairWorked();
    QuietPair(Tried(), Later(), Refused(), Other(), 0, config);
    assert InOrder(turns, 0, 0);
  }

  lemma PairWorked()
    ensures Worked(PairStart().m, PairTurns(), 2) == Pair(Tried(), Later(), Refused(), Other())
  {
    hide RcptsAfter, DomainAfter;
    var m, turns := PairStart().m, PairTurns();
    RefusedInPair(Unheard(), Other());
    assert Worked(m, turns, 0) == m;
    var m1 := Worked(m, turns, 1);
    assert m1.domains == [Tried(), Later()] && m1.recipients == [Refused(), Other()];
    assert m1 == Pair(Tried(), Later(), Refused(), Other());
    assert m1.domains[1 := Later()] == m1.domains;
  }

  function Failed(): Domain { Tried().(status := PermanentFailure(Io(RateLimitExceeded()))) }

  function FailedRcpt(): Recipient { Unheard().(status := PermanentFailure(Refusal())) }

  /** The visit at which its domain expires. */
  lemma PairVisit(l: Life, config: Config)
    requires ValidConfig(config) && l.m == Pair(Tried().(changed := false), Later(), Clean(Refused()), Other())
    requires l.fate == Queued && l.now == 0
    ensures Enabled(l, Visit(10 * NANOS))
    ensures Unsaved(l, Visit(10 * NANOS), config) == Pair(Failed(), Later(), FailedRcpt(), Other())
  {
    hide SendDsn, Expire, RateLimitExceeded;
    ExpirePair(Tried().(changed := false), Later(), Clean(Refused()), Other(), 10 * NANOS);
    QuietPair(Failed(), Later(), FailedRcpt(), Other(), 10 * NANOS, config);
  }

  /**
    A recipient that wants no reports is refused for now, and its domain expires while another one
    lives on: in memory it has failed for good, in the file it has not.
  */
  lemma SilentFailureIsLost(config: Config) returns (l: Life, steps: seq<Step>, l1: Life, l2: Life)
    requires ValidConfig(config)
    ensures New(l, config) && Saved(l.m) && |steps| == 2
    ensures Enabled(l, steps[0]) && |l.tries| == |l.m.domains| && l1 == Next(l, steps[0], config)
    ensures Enabled(l1, steps[1]) && |l1.tries| == |l1.m.domains| && l2 == Next(l1, steps[1], config)
    ensures l2.fate == Queued && |l2.m.recipients| == 2 && l2.m.recipients[0].status.PermanentFailure?
    ensures
      var first, a, b := Save(l.m, Tick(0)), Save(Unsaved(l, steps[0], config), Tick(0)), Save(Unsaved(l1, steps[1], config), Tick(10 * NANOS));
      var read := Deserialize(File(first, [a, b]), Tick(10 * NANOS));
      read.Some? && |read.value.recipients| == 2 && read.value.recipients[0].status.TemporaryFailure?
  {
    hide Deserialize, File, Small, Next, Enabled, Unsaved, RateLimitExceeded, SameMessage, Tracked, Followed;
    l, steps := PairStart(), [Attempt(0, PairTurns(), 0), Visit(10 * NANOS)];
    PairAttempt(config);
    PairPending(Tried(), Later(), Refused(), Other());
    PairSaved(l, steps[0], Pair(Tried(), Later(), Refused(), Other()), config);
    l1 := Next(l, steps[0], config);
    PairVisit(l1, config);
    PairPending(Failed(), Later(), FailedRcpt(), Other());
    PairSaved(l1, steps[1], Pair(Failed(), Later(), FailedRcpt(), Other()), config);
    l2 := Next(l1, steps[1], config);
    PairFiles();
    ReadTwoSaves(l.m, Pair(Tried(), Later(), Refused(), Other()), Pair(Failed(), Later(), FailedRcpt(), Other()), 10 * NANOS);
  }

  lemma PairSaved(l: Life, step: Step, m: Message, config: Config)
    requires ValidConfig(config) && Enabled(l, step) && |l.tries| == |l.m.domains| && (step.Visit? || step.Attempt?)
    requires Unsaved(l, step, config) == m && SomePending(m)
    ensures
      var l' := Next(l, step, config);
      l'.m == Cleared(m) && l'.fate == Queued && |l'.tries| == |l.tries| && l'.now == if step.Visit? then step.at else step.finish
  {
    hide Opened, Worked, SendDsn, Cleared, SomePending, OpenedLog, LogOf, TriedBy;
  }

  lemma PairFiles()
    ensures
      var m, m', m'' := PairStart().m, Pair(Tried(), Later(), Refused(), Other()), Pair(Failed(), Later(), FailedRcpt(), Other());
      && Unmarked(m) && SameMessage(m, m') && Tracked(m, m') && SameMessage(m, m'') && SameMessage(Cleared(m'), m'')
      && Small(m) && Small(m') && Small(Followed(Cleared(m'), m''))
      && Cleared(Followed(Cleared(m'), m'')).recipients == [Clean(Refused()), Other()]
  {
    hide RateLimitExceeded, SameMessage, Tracked, Followed, Small, Cleared, Unmarked;
    var m, m', m'' := PairStart().m, Pair(Tried(), Later(), Refused(), Other()), Pair(Failed(), Later(), FailedRcpt(), Other());
    PairPending(Tried(), Later(), Refused(), Other());
    PairsFollow(Brief(), Later(), Unheard(), Other(), Tried(), Refused());
    PairsFollow(Brief(), Later(), Unheard(), Other(), Failed(), FailedRcpt());
    PairsFollow(Tried().(changed := false), Later(), Clean(Refused()), Other(), Failed(), FailedRcpt());
    ShortReason();
    SmallPair(Brief(), Later(), Unheard(), Other());
    SmallPair(Tried(), Later(), Refused(), Other());
    SmallPair(Failed(), Later(), Clean(Refused()), Other());
    PairPending(Failed(), Later(), Clean(Refused()), Other());
    FollowedIsTracked(m, m');
  }

  /** Saving a pair of which the first domain and recipient may have changed. */
  lemma PairsFollow(d0: Domain, d1: Domain, r0: Recipient, r1: Recipient, d: Domain, r: Recipient)
    requires d.domain == d0.domain && r.(status := r0.status, flags := r0.flags) == r0
    requires !d0.changed && !d1.changed && !r0.flags.statusChanged && !r1.flags.statusChanged
    ensures SameMessage(Pair(d0, d1, r0, r1), Pair(d, d1, r, r1)) && Unmarked(Pair(d0, d1, r0, r1))
    ensures Followed(Pair(d0, d1, r0, r1), Pair(d, d1, r, r1)) == Pair(FollowedDomain(d0, d), d1, FollowedRcpt(r0, r), r1)
  {
    var f := Followed(Pair(d0, d1, r0, r1), Pair(d, d1, r, r1));
    assert f.domains == [FollowedDomain(d0, d), d1] && f.recipients == [FollowedRcpt(r0, r), r1];
  }

  lemma SmallPair(d0: Domain, d1: Domain, r0: Recipient, r1: Recipient)
    requires SmallDomain(d0) && SmallDomain(d1) && SmallRcpt(r0) && SmallRcpt(r1)
    ensures Small(Pair(d0, d1, r0, r1))
  {
    hide FitsDomainStatus, FitsRcptStatus;
  }

  predicate SmallDomain(d: Domain) {
    Soon(d.expires) && Soon(d.retry.due) && Soon(d.notify.due) && FitsText(d.domain) && FitsDomainStatus(d.status)
  }

  predicate SmallRcpt(r: Recipient) {
    FitsText(r.address) && FitsText(OrEmpty(r.orcpt)) && FitsRcptStatus(r.status)
  }

  lemma ShortReason()
    ensures FitsText(RateLimitExceeded())
  {
  }
}
