/** Two runs of the queue that show where messages come up late or not at all. */
module QueueExamples {
  import opened Prelude
  import opened QueueTypes
  import opened Lifecycle
  import opened Journal
  import opened MessageLife
  import opened MessageExamples
  import opened QueueManager
  import opened QueueSystem
  import HoldPasses

  lemma ReachedOne(moves: seq<Move>, configs: Configs, k: Sys, move: Move)
    requires ValidConfigs(configs) && Reached(moves, configs, k) && CanMove(k, move, configs)
    ensures Reached(moves + [move], configs, Moved(k, move, configs))
  {
    hide CanMove, Moved, ValidConfigs;
    assert (moves + [move])[..|moves|] == moves;
  }

  // ----- Left behind on hold -----

  /** To be tried at once, with a notice in seventy seconds and the expiry in a hundred. */
  function Due(): Domain {
    Domain(Letter(), Schedule(0, 0), Schedule(0, 70 * NANOS), 100 * NANOS, Scheduled, false)
  }

  function Fresh(): Life { Start(Due(), Curious()) }

  function HoldOf(id: QueueId): OnHold { OnHold(Some(70 * NANOS), [0], id) }

  lemma VisitFresh(config: Config)
    requires ValidConfig(config)
    ensures CanStep(Fresh(), Visit(0)) && Next(Fresh(), Visit(0), config) == Fresh()
  {
    hide Opened, OpenedLog, NoticeFor, Outcome, SomePending, Cleared;
    NotYetHeard(Due(), 0);
    OpenedSingle(Due(), Curious(), 0, config);
    SinglePending(Due(), Curious());
  }

  lemma FreshTimes()
    ensures PendingTimes(Fresh().m) == {0, 70 * NANOS, 100 * NANOS}
    ensures NextEventIs(Fresh().m, 0) && !NoLater(1, Fresh().m)
    ensures forall id :: HoldFor(HoldOf(id), id, Fresh())
  {
    var m := Fresh().m;
    assert m.domains[0] == Due() && m.domains[0].status.Pending();
    assert PendingTimes(m) == {0, 70 * NANOS, 100 * NANOS} by {
      forall t | t in {0, 70 * NANOS, 100 * NANOS} ensures t in PendingTimes(m) {
        assert t in Times(m.domains[0]);
      }
    }
    assert LaterThan(PendingTimes(m), 0) == {70 * NANOS, 100 * NANOS};
  }

  /** Both messages are submitted and both are put on hold by the limiter. */
  function OneSubmitted(): Sys {
    Sys(map[7 := Fresh()], map[7 := Fresh()], Store([], [], map[]), map[], {}, [Arrives(0, 7)])
  }

  function BothSubmitted(): Sys {
    var lives := map[7 := Fresh(), 8 := Fresh()];
    Sys(lives, lives, Store([], [], map[]), map[], {}, [Arrives(0, 7), Arrives(0, 8)])
  }

  function OneHeld(): Sys {
    BothSubmitted().(store := Store([], [HoldOf(7)], map[7 := Fresh().m]), channel := [Arrives(0, 8)])
  }

  function BothHeld(): Sys {
    BothSubmitted().(store := Store([], [HoldOf(7), HoldOf(8)], map[7 := Fresh().m, 8 := Fresh().m]), channel := [])
  }

  /** The operator has cancelled the first; its entry is still on hold. */
  function FirstCancelled(): Sys {
    BothHeld().(
      lives := map[7 := Fresh().(fate := Cancelled), 8 := Fresh()],
      store := Store([], [HoldOf(7), HoldOf(8)], map[8 := Fresh().m]))
  }

  function SecondLeft(): Sys {
    FirstCancelled().(store := Store([], [HoldOf(8)], map[8 := Fresh().m]))
  }

  lemma SubmitBoth(configs: Configs)
    requires ValidConfigs(configs)
    ensures Reached([Submit(Fresh(), Arrives(0, 7)), Submit(Fresh(), Arrives(0, 8))], configs, BothSubmitted())
  {
    hide Fresh, NextEventIs, PendingTimes, Reached;
    FreshTimes();
    FreshIsQueued();
    ReachedNothing(configs);
    var s7, s8 := Submit(Fresh(), Arrives(0, 7)), Submit(Fresh(), Arrives(0, 8));
    ReachedOne([], configs, NOTHING, s7);
    assert [] + [s7] == [s7];
    assert Moved(NOTHING, s7, configs) == OneSubmitted();
    ReachedOne([s7], configs, OneSubmitted(), s8);
    assert [s7] + [s8] == [s7, s8];
    assert Moved(OneSubmitted(), s8, configs) == BothSubmitted();
  }

  lemma FreshIsQueued()
    ensures Fresh().fate == Queued && Fresh().now == 0
  {
  }

  lemma ReachedNothing(configs: Configs)
    requires ValidConfigs(configs)
    ensures Reached([], configs, NOTHING)
  {
  }

  lemma HoldMove(s: Sys, configs: Configs, id: QueueId)
    requires ValidConfigs(configs) && s.channel != [] && s.channel[0] == Arrives(0, id) && id in s.lives && s.lives[id] == Fresh()
    ensures CanMove(s, TakeEvent(0, PutOnHold(HoldOf(id))), configs)
    ensures Moved(s, TakeEvent(0, PutOnHold(HoldOf(id))), configs)
         == s.(lives := s.lives[id := Fresh()], store := WithHeld(s.store, HoldOf(id), Fresh().m), channel := s.channel[1..])
  {
    hide Next, Enabled, Fresh, PendingTimes, NoLater, Earliest;
    VisitFresh(configs(id));
    FreshTimes();
    FreshIsQueued();
  }

  lemma HoldBoth(before: seq<Move>, configs: Configs)
    requires ValidConfigs(configs) && Reached(before, configs, BothSubmitted())
    ensures Reached(before + [TakeEvent(0, PutOnHold(HoldOf(7))), TakeEvent(0, PutOnHold(HoldOf(8)))], configs, BothHeld())
  {
    hide Fresh, Reached, CanMove, Moved, ValidConfigs;
    var t7, t8 := TakeEvent(0, PutOnHold(HoldOf(7))), TakeEvent(0, PutOnHold(HoldOf(8)));
    HoldMove(BothSubmitted(), configs, 7);
    assert Moved(BothSubmitted(), t7, configs) == OneHeld();
    ReachedOne(before, configs, BothSubmitted(), t7);
    HoldMove(OneHeld(), configs, 8);
    assert Moved(OneHeld(), t8, configs) == BothHeld();
    ReachedOne(before + [t7], configs, OneHeld(), t8);
    assert before + [t7] + [t8] == before + [t7, t8];
  }

  lemma CancelMove(configs: Configs)
    requires ValidConfigs(configs)
    ensures CanMove(BothHeld(), OperatorCancels(7, CancelAll), configs)
    ensures Moved(BothHeld(), OperatorCancels(7, CancelAll), configs) == FirstCancelled()
  {
    var s' := Moved(BothHeld(), OperatorCancels(7, CancelAll), configs);
    assert s'.lives == map[7 := Fresh().(fate := Cancelled), 8 := Fresh()];
    assert s'.store.messages == map[8 := Fresh().m];
  }

  lemma TakeOrphan(configs: Configs, at: Instant)
    requires ValidConfigs(configs)
    ensures CanMove(FirstCancelled(), TakeHeld(0, at, {0}, Dropped), configs)
    ensures Moved(FirstCancelled(), TakeHeld(0, at, {0}, Dropped), configs) == SecondLeft()
    ensures
      var k := HoldPasses.Mid(FirstCancelled().store, {0});
      HoldPasses.IsPass(k, [], Some(0), at) && HoldPasses.AfterPass(k, [], Some(0), at).store == SecondLeft().store
  {
    hide Fresh;
    var s := FirstCancelled();
    assert s.store.onHold[0].limiters[0] in {0};
    assert Without(s.store.onHold, 0) == [HoldOf(8)];
    assert s.store.messages - {7} == s.store.messages;
  }

  /**
    A limiter puts two messages on hold and an operator cancels the first. When the limiter has room
    again, the pass takes the entry of the first, finds no message and ends. The second is live and
    could go on, but it is not in the heap, nothing is on its way, and no worker is left to report.
  */
  lemma LeftOnHold(configs: Configs, at: Instant) returns (moves: seq<Move>, s: Sys)
    requires ValidConfigs(configs)
    ensures Reached(moves, configs, s) && CanMove(s, TakeHeld(0, at, {0}, Dropped), configs)
    ensures
      var k := HoldPasses.Mid(s.store, {0});
      && HoldPasses.IsPass(k, [], Some(0), at)
      && var s' := Moved(s, TakeHeld(0, at, {0}, Dropped), configs);
         && s'.store == HoldPasses.AfterPass(k, [], Some(0), at).store
         && QueueSystem.Live(s', 8) && 8 in s'.store.messages && s'.store.onHold == [HoldOf(8)] && Releasable(HoldOf(8), at, {0})
         && s'.store.scheduled == [] && s'.channel == [] && s'.workers == {}
  {
    hide Fresh, Reached, CanMove, Moved, ValidConfigs, HoldPasses.IsPass, HoldPasses.AfterPass;
    var submits := [Submit(Fresh(), Arrives(0, 7)), Submit(Fresh(), Arrives(0, 8))];
    var holds := [TakeEvent(0, PutOnHold(HoldOf(7))), TakeEvent(0, PutOnHold(HoldOf(8)))];
    SubmitBoth(configs);
    HoldBoth(submits, configs);
    CancelMove(configs);
    ReachedOne(submits + holds, configs, BothHeld(), OperatorCancels(7, CancelAll));
    moves, s := submits + holds + [OperatorCancels(7, CancelAll)], FirstCancelled();
    TakeOrphan(configs, at);
    FreshIsQueued();
    assert HoldOf(8).limiters[0] in {0};
  }

  // ----- A late notice -----

  /** Already to be reported about, but not to be tried before `retry`. */
  function Postponed(notify: Schedule, retry: Instant): Domain {
    Domain(Letter(), Schedule(0, retry), notify, retry + 100 * NANOS, Scheduled, false)
  }

  /** A visit that sends the first notice. */
  lemma VisitPostponed(config: Config, retry: Instant) returns (l: Life)
    requires ValidConfig(config) && |config.notify(Letter())| > 1 && retry >= 0
    ensures CanStep(Start(Postponed(Schedule(0, 0), retry), Curious()), Visit(0))
    ensures l == Next(Start(Postponed(Schedule(0, 0), retry), Curious()), Visit(0), config)
    ensures l.fate == Queued && l.m == Single(Postponed(Schedule(1, config.notify(Letter())[1]), retry), Curious())
  {
    hide Next, Enabled, NextNotify, NoticeFor;
    var d := Postponed(Schedule(0, 0), retry);
    var l0 := Start(d, Curious());
    CuriousHears(d, 0);
    VisitSingle(l0, d, Curious(), 0, config);
    NextInterval(d, 0, config.notify(Letter()), 1);
    l := Next(l0, Visit(0), config);
  }

  lemma PostponedTimes(notify: Schedule, retry: Instant)
    ensures PendingTimes(Single(Postponed(notify, retry), Curious())) == {retry, notify.due, retry + 100 * NANOS}
    ensures EarliestRetry(Single(Postponed(notify, retry), Curious()), retry)
  {
    var m, d := Single(Postponed(notify, retry), Curious()), Postponed(notify, retry);
    assert m.domains[0] == d && d.status.Pending();
    forall t | t in {retry, notify.due, retry + 100 * NANOS} ensures t in PendingTimes(m) {
      assert t in Times(m.domains[0]);
    }
  }

  /** The only entry of the message is ten seconds after its next notice is due. */
  predicate QueuedLate(s: Sys, id: QueueId, notify: Instant) {
    && QueueSystem.Live(s, id) && id in s.store.messages
    && s.store.scheduled == [Entry(notify + TEN_SECONDS, id)] && s.store.onHold == [] && s.throttled == map[]
    && |s.store.messages[id].domains| == 1
    && s.store.messages[id].domains[0].status.Pending() && s.store.messages[id].domains[0].notify.due == notify
  }

  lemma SubmitPostponed(configs: Configs, l: Life, retry: Instant) returns (s: Sys)
    requires ValidConfigs(configs) && retry >= 0 && l == Start(Postponed(Schedule(0, 0), retry), Curious())
    ensures Reached([Submit(l, Arrives(0, 7))], configs, s)
    ensures s == Sys(map[7 := l], map[7 := l], Store([], [], map[]), map[], {}, [Arrives(0, 7)])
  {
    hide PendingTimes, EarliestRetry, Reached;
    PostponedTimes(Schedule(0, 0), retry);
    ReachedNothing(configs);
    ReachedOne([], configs, NOTHING, Submit(l, Arrives(0, 7)));
    assert [] + [Submit(l, Arrives(0, 7))] == [Submit(l, Arrives(0, 7))];
    s := Moved(NOTHING, Submit(l, Arrives(0, 7)), configs);
  }

  lemma RequeueMove(configs: Configs, s: Sys, l: Life, retry: Instant)
    requires ValidConfigs(configs) && s.channel == [Arrives(0, 7)] && 7 in s.lives && CanStep(s.lives[7], Visit(0))
    requires l == Next(s.lives[7], Visit(0), configs(7)) && l.fate == Queued && EarliestRetry(l.m, retry) && 0 < retry
    ensures CanMove(s, TakeEvent(0, Requeued(retry)), configs)
    ensures Moved(s, TakeEvent(0, Requeued(retry)), configs)
         == s.(lives := s.lives[7 := l], store := WithScheduled(s.store, retry, 7, l.m), channel := [])
  {
    hide Next, Enabled, EarliestRetry;
  }

  /** With any second interval, a message whose retry is ten seconds after it is queued for the retry, and its notice is late. */
  lemma LateNotice(configs: Configs, notify: Instant) returns (moves: seq<Move>, s: Sys)
    requires ValidConfigs(configs) && |configs(7).notify(Letter())| > 1 && notify == configs(7).notify(Letter())[1]
    ensures Reached(moves, configs, s) && QueuedLate(s, 7, notify)
  {
    hide Next, Enabled, EarliestRetry, Reached, CanMove, Moved, ValidConfig;
    var retry := notify + TEN_SECONDS;
    var l0 := Start(Postponed(Schedule(0, 0), retry), Curious());
    var l := VisitPostponed(configs(7), retry);
    PostponedTimes(Schedule(1, notify), retry);
    var s1 := SubmitPostponed(configs, l0, retry);
    RequeueMove(configs, s1, l, retry);
    ReachedOne([Submit(l0, Arrives(0, 7))], configs, s1, TakeEvent(0, Requeued(retry)));
    moves := [Submit(l0, Arrives(0, 7))] + [TakeEvent(0, Requeued(retry))];
    s := Moved(s1, TakeEvent(0, Requeued(retry)), configs);
  }
}
