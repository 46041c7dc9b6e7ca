/**
  The queue manager, its delivery workers and its channel. Every message in the server has a life;
  the manager's map, a worker or an event holds it until it leaves the queue.
*/
module QueueSystem {
  import opened Prelude
  import opened QueueTypes
  import opened Session
  import opened Lifecycle
  import opened Journal
  import opened MessageLife
  import opened QueueManager

  /** A message on the channel: a new one, or one that a worker hands back for a later time or on hold. */
  datatype Event = Arrives(due: Instant, to: QueueId) | Retries(due: Instant, to: QueueId) | Holds(o: OnHold)
  {
    function Id(): QueueId { if Holds? then o.id else to }
  }

  /**
    `lives` has every message ever submitted and `origins` how it was then; `throttled` has the time
    that a sender throttle gave to those for which no earlier entry is sure.
  */
  datatype Sys = Sys(
    origins: map<QueueId, Life>, lives: map<QueueId, Life>, store: Store, throttled: map<QueueId, Instant>,
    workers: set<QueueId>, channel: seq<Event>)

  const NOTHING: Sys := Sys(map[], map[], Store([], [], map[]), map[], {}, [])

  /** What trying to deliver a message comes to on the manager's side. */
  datatype Tried = Dropped | Requeued(due: Instant) | Throttled(retryAt: Instant) | PutOnHold(o: OnHold) | Spawned

  datatype Move =
    | Submit(life: Life, arrival: Event)
    | TakeDue(top: nat, at: Instant, tried: Tried)
    | TakeHeld(pos: nat, at: Instant, free: set<LimiterId>, tried: Tried)
    | TakeEvent(at: Instant, tried: Tried)
    | WorkerEnds(id: QueueId, step: Step, result: Event)
    | OperatorCancels(id: QueueId, step: Step)
    | OperatorRetries(id: QueueId, step: Step, due: Instant)

  /** The notify intervals of each message. */
  type Configs = QueueId -> Config

  ghost predicate ValidConfigs(configs: Configs) {
    forall id :: ValidConfig(configs(id))
  }

  predicate Live(s: Sys, id: QueueId) {
    id in s.lives && s.lives[id].fate == Queued
  }

  ghost predicate CanStep(l: Life, step: Step) {
    Enabled(l, step) && |l.tries| == |l.m.domains|
  }

  // ----- Times -----

  /** `due` is the next event of the message. */
  predicate NextEventIs(m: Message, due: Instant) {
    Earliest(PendingTimes(m), Some(due))
  }

  /** The on-hold entry of a message held at its time `now`. */
  predicate HoldFor(o: OnHold, id: QueueId, l: Life) {
    o.id == id && Earliest(LaterThan(PendingTimes(l.m), l.now), o.nextDue)
  }

  /** What a worker hands back is for the message, at its next event or on hold until the next one. */
  predicate HandsBack(e: Event, id: QueueId, l: Life) {
    match e
    case Arrives(_, _) => false
    case Retries(due, to) => to == id && NextEventIs(l.m, due)
    case Holds(o) => HoldFor(o, id, l)
  }

  /**
    The outcome of a try is the one that the visit calls for: the message is dropped when nothing is
    pending, queued again when nothing is due, and otherwise throttled or given to a worker.
  */
  ghost predicate ValidTry(s: Sys, id: QueueId, at: Instant, tried: Tried, configs: Configs)
    requires ValidConfigs(configs)
  {
    && id in s.lives && CanStep(s.lives[id], Visit(at))
    && var l := Next(s.lives[id], Visit(at), configs(id));
       match tried
       case Dropped => l.fate != Queued
       case Requeued(due) => l.fate == Queued && EarliestRetry(l.m, due) && at < due
       case Throttled(retryAt) => l.fate == Queued && !NoLater(at + 1, l.m) && at < retryAt
       case PutOnHold(o) => l.fate == Queued && !NoLater(at + 1, l.m) && HoldFor(o, id, l)
       case Spawned => l.fate == Queued && !NoLater(at + 1, l.m)
  }

  // ----- Moves -----

  function PlacementOf(tried: Tried, m: Message): Placement {
    match tried
    case Dropped => Away
    case Requeued(due) => Back(due, m)
    case Throttled(retryAt) => Back(retryAt, m)
    case PutOnHold(o) => HeldAgain(o, m)
    case Spawned => Away
  }

  /** A message that no place holds is put where the try decides; a worker goes through the visit itself. */
  ghost function AfterTry(s: Sys, id: QueueId, at: Instant, tried: Tried, configs: Configs): Sys
    requires ValidConfigs(configs) && ValidTry(s, id, at, tried, configs)
  {
    var l := Next(s.lives[id], Visit(at), configs(id));
    s.(lives := if tried.Spawned? then s.lives else s.lives[id := l],
       store := Put(s.store, id, PlacementOf(tried, l.m)),
       throttled := if tried.Throttled? then s.throttled[id := tried.retryAt] else s.throttled,
       workers := if tried.Spawned? then s.workers + {id} else s.workers)
  }

  ghost predicate CanMove(s: Sys, move: Move, configs: Configs)
    requires ValidConfigs(configs)
  {
    match move
    case Submit(life, arrival) =>
      arrival.Arrives? && arrival.to !in s.lives && life.fate == Queued && NextEventIs(life.m, arrival.due)
    case TakeDue(top, at, tried) =>
      && IsEarliest(s.store.scheduled, top) && s.store.scheduled[top].due <= at
      && (s.store.scheduled[top].id in s.store.messages ==> ValidTry(s, s.store.scheduled[top].id, at, tried, configs))
    case TakeHeld(pos, at, free, tried) =>
      && IsFirst(s.store.onHold, pos, at, free)
      && (s.store.onHold[pos].id in s.store.messages ==> ValidTry(s, s.store.onHold[pos].id, at, tried, configs))
    case TakeEvent(at, tried) =>
      s.channel != [] && (s.channel[0].Arrives? && s.channel[0].due <= at ==> ValidTry(s, s.channel[0].to, at, tried, configs))
    case WorkerEnds(id, step, result) =>
      && id in s.workers && id in s.lives && step.Attempt? && CanStep(s.lives[id], step)
      && var l := Next(s.lives[id], step, configs(id)); l.fate == Queued ==> HandsBack(result, id, l)
    case OperatorCancels(id, step) =>
      id in s.store.messages ==> id in s.lives && (step.CancelSome? || step.CancelAll?) && CanStep(s.lives[id], step)
    case OperatorRetries(id, step, due) =>
      id in s.store.messages ==>
        && id in s.lives && step.AskRetry? && CanStep(s.lives[id], step)
        && (Found(s.lives[id], step.chosen) ==> NextEventIs(Next(s.lives[id], step, configs(id)).m, due))
  }

  /** A request for a retry changes something when one of the chosen domains is pending. */
  predicate Found(l: Life, chosen: set<nat>) {
    exists i | 0 <= i < |l.m.domains| :: i in chosen && l.m.domains[i].status.Pending()
  }

  /** An event is received that is not to be tried at once. */
  function Received(s: Sys, e: Event): Sys
    requires e.Id() in s.lives
  {
    var m := s.lives[e.Id()].m;
    if e.Holds? then s.(store := WithHeld(s.store, e.o, m)) else s.(store := WithScheduled(s.store, e.due, e.to, m))
  }

  ghost function Moved(s: Sys, move: Move, configs: Configs): Sys
    requires ValidConfigs(configs) && CanMove(s, move, configs)
  {
    match move
    case Submit(life, arrival) =>
      s.(origins := s.origins[arrival.to := life], lives := s.lives[arrival.to := life], channel := s.channel + [arrival])
    case TakeDue(top, at, tried) =>
      var id := s.store.scheduled[top].id;
      var s1 := s.(store := TakenDue(s.store, top), throttled := s.throttled - {id});
      if id in s.store.messages then AfterTry(s1, id, at, tried, configs) else s.(store := s1.store)
    case TakeHeld(pos, at, free, tried) =>
      var id := s.store.onHold[pos].id;
      var s1 := s.(store := TakenHeld(s.store, pos), throttled := s.throttled - {id});
      if id in s.store.messages then AfterTry(s1, id, at, tried, configs) else s.(store := s1.store)
    case TakeEvent(at, tried) =>
      var e, s1 := s.channel[0], s.(channel := s.channel[1..]);
      if e.Arrives? && e.due <= at then AfterTry(s1, e.to, at, tried, configs)
      else if e.Id() in s.lives then Received(s1, e) else s1
    case WorkerEnds(id, step, result) =>
      var l := Next(s.lives[id], step, configs(id));
      s.(lives := s.lives[id := l], workers := s.workers - {id}, channel := s.channel + if l.fate == Queued then [result] else [])
    case OperatorCancels(id, step) =>
      if id !in s.store.messages then s
      else
        var l := Next(s.lives[id], step, configs(id));
        s.(lives := s.lives[id := l],
           store := s.store.(messages := if l.fate == Queued then s.store.messages[id := l.m] else s.store.messages - {id}))
    case OperatorRetries(id, step, due) =>
      if id !in s.store.messages || !Found(s.lives[id], step.chosen) then s
      else
        var l := Next(s.lives[id], step, configs(id));
        s.(lives := s.lives[id := l], store := Rescheduled(s.store, due, id, l.m))
  }

  ghost predicate Reached(moves: seq<Move>, configs: Configs, s: Sys)
    requires ValidConfigs(configs)
    decreases |moves|
  {
    if moves == [] then s == NOTHING
    else
      var last := |moves| - 1;
      exists k :: Reached(moves[..last], configs, k) && CanMove(k, moves[last], configs) && s == Moved(k, moves[last], configs)
  }

  // ----- Where messages are, and when they come up again -----

  function InChannel(es: seq<Event>, id: QueueId): nat {
    if es == [] then 0 else (if es[0].Id() == id then 1 else 0) + InChannel(es[1..], id)
  }

  /** In how many places a message is. */
  function Places(s: Sys, id: QueueId): nat {
    (if id in s.store.messages then 1 else 0) + (if id in s.workers then 1 else 0) + InChannel(s.channel, id)
  }

  /** An entry of the heap that is no later than any retry of a pending domain. */
  predicate HasEntry(es: seq<Entry>, id: QueueId, m: Message) {
    exists i | 0 <= i < |es| :: es[i].id == id && NoLater(es[i].due, m)
  }

  predicate HasEntryBy(es: seq<Entry>, id: QueueId, t: Instant) {
    exists i | 0 <= i < |es| :: es[i].id == id && es[i].due <= t
  }

  /** An entry on hold that is due no later than any time that was still to come when the message was last looked at. */
  predicate GoodHold(o: OnHold, l: Life) {
    forall t | t in PendingTimes(l.m) && t > l.now :: o.nextDue.Some? && o.nextDue.value <= t
  }

  predicate HasHold(hs: seq<OnHold>, id: QueueId, l: Life) {
    exists i | 0 <= i < |hs| :: hs[i].id == id && GoodHold(hs[i], l)
  }

  predicate Wakes(store: Store, throttled: map<QueueId, Instant>, id: QueueId, l: Life) {
    || HasEntry(store.scheduled, id, l.m)
    || HasHold(store.onHold, id, l)
    || (id in throttled && HasEntryBy(store.scheduled, id, throttled[id]))
  }

  /** What an event says about the time of its message. */
  predicate Timely(e: Event, l: Life) {
    if e.Holds? then GoodHold(e.o, l) else NoLater(e.due, l.m)
  }

  /** A message in the map is as its life has it, and will come up. */
  predicate Kept(s: Sys, id: QueueId) {
    id in s.lives && id in s.store.messages && s.store.messages[id] == s.lives[id].m && Wakes(s.store, s.throttled, id, s.lives[id])
  }

  predicate Posted(s: Sys, i: nat)
    requires i < |s.channel|
  {
    s.channel[i].Id() in s.lives && Timely(s.channel[i], s.lives[s.channel[i].Id()])
  }

  ghost predicate Placed(s: Sys, id: QueueId) {
    Places(s, id) == if Live(s, id) then 1 else 0
  }

  ghost predicate Invariant(s: Sys) {
    && (forall id :: Placed(s, id))
    && (forall id | id in s.store.messages :: Kept(s, id))
    && (forall i | 0 <= i < |s.channel| :: Posted(s, i))
  }

  /** A message that is live and nowhere, with everything else in order. */
  ghost predicate InTransit(s: Sys, id: QueueId) {
    && Live(s, id) && Places(s, id) == 0
    && (forall other | other != id :: Placed(s, other))
    && (forall other | other in s.store.messages :: Kept(s, other))
    && (forall i | 0 <= i < |s.channel| :: Posted(s, i))
  }

  // ----- Entries -----

  lemma EntryWithout(es: seq<Entry>, top: nat, id: QueueId, m: Message)
    requires top < |es| && es[top].id != id
    ensures HasEntry(es, id, m) ==> HasEntry(Without(es, top), id, m)
  {
    hide NoLater;
    if i :| 0 <= i < |es| && es[i].id == id && NoLater(es[i].due, m) {
      assert Without(es, top)[if i < top then i else i - 1] == es[i];
    }
  }

  lemma EntryByWithout(es: seq<Entry>, top: nat, id: QueueId, t: Instant)
    requires top < |es| && es[top].id != id
    ensures HasEntryBy(es, id, t) ==> HasEntryBy(Without(es, top), id, t)
  {
    if i :| 0 <= i < |es| && es[i].id == id && es[i].due <= t {
      assert Without(es, top)[if i < top then i else i - 1] == es[i];
    }
  }

  lemma EntryAppend(es: seq<Entry>, e: Entry, id: QueueId, m: Message)
    ensures HasEntry(es, id, m) || (e.id == id && NoLater(e.due, m)) ==> HasEntry(es + [e], id, m)
  {
    hide NoLater;
    assert (es + [e])[|es|] == e;
    if i :| 0 <= i < |es| && es[i].id == id && NoLater(es[i].due, m) {
      assert (es + [e])[i] == es[i];
    }
  }

  lemma EntryByAppend(es: seq<Entry>, e: Entry, id: QueueId, t: Instant)
    ensures HasEntryBy(es, id, t) || (e.id == id && e.due <= t) ==> HasEntryBy(es + [e], id, t)
  {
    assert (es + [e])[|es|] == e;
    if i :| 0 <= i < |es| && es[i].id == id && es[i].due <= t {
      assert (es + [e])[i] == es[i];
    }
  }

  lemma HoldWithout(hs: seq<OnHold>, pos: nat, id: QueueId, l: Life)
    requires pos < |hs| && hs[pos].id != id
    ensures HasHold(hs, id, l) ==> HasHold(Without(hs, pos), id, l)
  {
    hide GoodHold;
    if i :| 0 <= i < |hs| && hs[i].id == id && GoodHold(hs[i], l) {
      assert Without(hs, pos)[if i < pos then i else i - 1] == hs[i];
    }
  }

  lemma HoldAppend(hs: seq<OnHold>, o: OnHold, id: QueueId, l: Life)
    ensures HasHold(hs, id, l) || (o.id == id && GoodHold(o, l)) ==> HasHold(hs + [o], id, l)
  {
    hide GoodHold;
    assert (hs + [o])[|hs|] == o;
    if i :| 0 <= i < |hs| && hs[i].id == id && GoodHold(hs[i], l) {
      assert (hs + [o])[i] == hs[i];
    }
  }

  lemma {:induction false} HoldKept(hs: seq<OnHold>, id: QueueId, other: QueueId, l: Life)
    requires other != id && HasHold(hs, other, l)
    ensures HasHold(Keep(hs, id), other, l)
  {
    hide GoodHold;
    var i :| 0 <= i < |hs| && hs[i].id == other && GoodHold(hs[i], l);
    if i == 0 {
      assert Keep(hs, id)[0] == hs[0];
    } else {
      assert hs[1..][i - 1] == hs[i];
      HoldKept(hs[1..], id, other, l);
      var j :| 0 <= j < |Keep(hs[1..], id)| && Keep(hs[1..], id)[j].id == other && GoodHold(Keep(hs[1..], id)[j], l);
      assert Keep(hs, id)[if hs[0].id == id then j else j + 1] == Keep(hs[1..], id)[j];
    }
  }

  // ----- What brings up one message is left alone by the moves of another -----

  lemma TakeDueWakes(store: Store, throttled: map<QueueId, Instant>, top: nat, other: QueueId, l: Life)
    requires top < |store.scheduled| && store.scheduled[top].id != other && Wakes(store, throttled, other, l)
    ensures Wakes(TakenDue(store, top), throttled, other, l)
    ensures Wakes(TakenDue(store, top), throttled - {store.scheduled[top].id}, other, l)
  {
    hide HasEntry, HasEntryBy, HasHold;
    EntryWithout(store.scheduled, top, other, l.m);
    if other in throttled {
      EntryByWithout(store.scheduled, top, other, throttled[other]);
    }
  }

  lemma TakeHeldWakes(store: Store, throttled: map<QueueId, Instant>, pos: nat, other: QueueId, l: Life)
    requires pos < |store.onHold| && store.onHold[pos].id != other && Wakes(store, throttled, other, l)
    ensures Wakes(TakenHeld(store, pos), throttled, other, l)
    ensures Wakes(TakenHeld(store, pos), throttled - {store.onHold[pos].id}, other, l)
  {
    hide HasEntry, HasEntryBy, HasHold;
    HoldWithout(store.onHold, pos, other, l);
  }

  lemma ScheduleWakes(store: Store, throttled: map<QueueId, Instant>, due: Instant, id: QueueId, m: Message, other: QueueId, l: Life)
    requires Wakes(store, throttled, other, l) || (other == id && NoLater(due, l.m))
    ensures Wakes(WithScheduled(store, due, id, m), throttled, other, l)
  {
    hide HasEntry, HasEntryBy, HasHold, NoLater;
    EntryAppend(store.scheduled, Entry(due, id), other, l.m);
    if other in throttled {
      EntryByAppend(store.scheduled, Entry(due, id), other, throttled[other]);
    }
  }

  lemma ThrottleWakes(store: Store, throttled: map<QueueId, Instant>, due: Instant, id: QueueId, m: Message, other: QueueId, l: Life)
    requires Wakes(store, throttled, other, l) || other == id
    ensures Wakes(WithScheduled(store, due, id, m), throttled[id := due], other, l)
  {
    hide HasEntry, HasEntryBy, HasHold, NoLater;
    EntryAppend(store.scheduled, Entry(due, id), other, l.m);
    if other == id {
      EntryByAppend(store.scheduled, Entry(due, id), id, due);
    } else if other in throttled {
      EntryByAppend(store.scheduled, Entry(due, id), other, throttled[other]);
    }
  }

  lemma HoldWakes(store: Store, throttled: map<QueueId, Instant>, o: OnHold, m: Message, other: QueueId, l: Life)
    requires Wakes(store, throttled, other, l) || (other == o.id && GoodHold(o, l))
    ensures Wakes(WithHeld(store, o, m), throttled, other, l)
  {
    hide HasEntry, HasEntryBy, HasHold, GoodHold;
    HoldAppend(store.onHold, o, other, l);
  }

  lemma RescheduleWakes(store: Store, throttled: map<QueueId, Instant>, due: Instant, id: QueueId, m: Message, other: QueueId, l: Life)
    requires if other == id then NoLater(due, l.m) else Wakes(store, throttled, other, l)
    ensures Wakes(Rescheduled(store, due, id, m), throttled, other, l)
  {
    hide HasEntry, HasEntryBy, HasHold, NoLater;
    EntryAppend(store.scheduled, Entry(due, id), other, l.m);
    if other in throttled {
      EntryByAppend(store.scheduled, Entry(due, id), other, throttled[other]);
    }
    if other != id && HasHold(store.onHold, other, l) {
      HoldKept(store.onHold, id, other, l);
    }
  }

  // ----- Times -----

  lemma NextEventIsNoLater(m: Message, due: Instant)
    requires NextEventIs(m, due)
    ensures NoLater(due, m)
  {
    forall i | 0 <= i < |m.domains| && m.domains[i].status.Pending() ensures due <= m.domains[i].retry.due {
      assert m.domains[i].retry.due in Times(m.domains[i]);
      assert m.domains[i].retry.due in PendingTimes(m);
    }
  }

  lemma HoldIsGood(o: OnHold, id: QueueId, l: Life)
    requires HoldFor(o, id, l)
    ensures GoodHold(o, l)
  {
    hide PendingTimes;
    forall t | t in PendingTimes(l.m) && t > l.now ensures o.nextDue.Some? && o.nextDue.value <= t {
      assert t in LaterThan(PendingTimes(l.m), l.now);
    }
  }

  /** Cancelling recipients leaves the times of the domains that are still pending. */
  lemma CancelTimes(l: Life, step: Step, config: Config)
    requires ValidConfig(config) && CanStep(l, step) && step.CancelSome?
    ensures
      var l' := Next(l, step, config);
      && l'.now == l.now && PendingTimes(l'.m) <= PendingTimes(l.m)
      && forall t | NoLater(t, l.m) :: NoLater(t, l'.m)
  {
    hide AllSettled, SomePending;
    var l' := Next(l, step, config);
    assert |l'.m.domains| == |l.m.domains|;
    forall i | 0 <= i < |l'.m.domains| && l'.m.domains[i].status.Pending()
      ensures l.m.domains[i].status.Pending() && l'.m.domains[i].retry == l.m.domains[i].retry && Times(l'.m.domains[i]) == Times(l.m.domains[i])
    {
    }
  }

  lemma SameEntriesWake(store: Store, store': Store, throttled: map<QueueId, Instant>, id: QueueId, l: Life)
    requires Wakes(store, throttled, id, l) && store'.scheduled == store.scheduled && store'.onHold == store.onHold
    ensures Wakes(store', throttled, id, l)
  {
    hide HasEntry, HasHold, HasEntryBy;
  }

  lemma CancelWakes(store: Store, throttled: map<QueueId, Instant>, id: QueueId, l: Life, step: Step, config: Config)
    requires ValidConfig(config) && CanStep(l, step) && step.CancelSome? && Wakes(store, throttled, id, l)
    ensures Wakes(store, throttled, id, Next(l, step, config))
  {
    hide Next, Enabled, PendingTimes, NoLater;
    CancelTimes(l, step, config);
    var l' := Next(l, step, config);
    if HasEntry(store.scheduled, id, l.m) {
      var i :| 0 <= i < |store.scheduled| && store.scheduled[i].id == id && NoLater(store.scheduled[i].due, l.m);
      assert NoLater(store.scheduled[i].due, l'.m);
    }
    if HasHold(store.onHold, id, l) {
      var i :| 0 <= i < |store.onHold| && store.onHold[i].id == id && GoodHold(store.onHold[i], l);
      assert GoodHold(store.onHold[i], l');
    }
  }

  // ----- Preservation -----

  lemma {:induction false} ChannelAppend(es: seq<Event>, e: Event, id: QueueId)
    ensures InChannel(es + [e], id) == InChannel(es, id) + if e.Id() == id then 1 else 0
  {
    if es == [] {
      assert (es + [e])[1..] == [];
    } else {
      assert (es + [e])[1..] == es[1..] + [e];
      ChannelAppend(es[1..], e, id);
    }
  }

  lemma {:induction false} NotInChannel(es: seq<Event>, id: QueueId, i: nat)
    requires InChannel(es, id) == 0 && i < |es|
    ensures es[i].Id() != id
  {
    if i > 0 {
      NotInChannel(es[1..], id, i - 1);
    }
  }

  /** The rest of a state is in order when only the life of `id`, which is not on the channel, changes. */
  lemma PostedOthers(s: Sys, s': Sys, id: QueueId)
    requires (forall i | 0 <= i < |s.channel| :: Posted(s, i)) && InChannel(s.channel, id) == 0
    requires s'.channel == s.channel && s'.lives.Keys == s.lives.Keys + {id}
    requires forall other | other in s.lives && other != id :: s'.lives[other] == s.lives[other]
    ensures forall i | 0 <= i < |s'.channel| :: Posted(s', i)
  {
    hide Timely;
    forall i | 0 <= i < |s'.channel| ensures Posted(s', i) {
      assert Posted(s, i);
      NotInChannel(s.channel, id, i);
    }
  }

  lemma TryKeeps(s: Sys, id: QueueId, at: Instant, tried: Tried, configs: Configs)
    requires ValidConfigs(configs) && InTransit(s, id) && ValidTry(s, id, at, tried, configs)
    ensures Invariant(AfterTry(s, id, at, tried, configs))
  {
    hide Next, Enabled, InChannel, Wakes, Timely, NextEventIs, HoldFor, NoLater, EarliestRetry, ValidConfig;
    var s' := AfterTry(s, id, at, tried, configs);
    if tried.PutOnHold? {
      HoldNames(tried.o, id, s'.lives[id]);
    }
    forall other ensures Placed(s', other) {
      if other != id {
        assert Placed(s, other);
      }
    }
    PostedOthers(s, s', id);
    forall other | other in s'.store.messages ensures Kept(s', other) {
      TryWakes(s, id, at, tried, configs, other);
    }
  }

  lemma TryWakes(s: Sys, id: QueueId, at: Instant, tried: Tried, configs: Configs, other: QueueId)
    requires ValidConfigs(configs) && InTransit(s, id) && ValidTry(s, id, at, tried, configs)
    requires other in AfterTry(s, id, at, tried, configs).store.messages
    ensures Kept(AfterTry(s, id, at, tried, configs), other)
  {
    hide Next, Enabled, InChannel, Wakes, Timely, NoLater, GoodHold, HoldFor, PendingTimes;
    var l := Next(s.lives[id], Visit(at), configs(id));
    if tried.PutOnHold? {
      HoldNames(tried.o, id, l);
    }
    var l' := if other == id then l else s.lives[other];
    if other != id {
      assert Kept(s, other);
    }
    match tried
    case Requeued(due) => ScheduleWakes(s.store, s.throttled, due, id, l.m, other, l');
    case Throttled(retryAt) => ThrottleWakes(s.store, s.throttled, retryAt, id, l.m, other, l');
    case PutOnHold(o) =>
      HoldIsGood(o, id, l);
      HoldWakes(s.store, s.throttled, o, l.m, other, l');
    case Dropped =>
    case Spawned =>
  }

  lemma HoldNames(o: OnHold, id: QueueId, l: Life)
    requires HoldFor(o, id, l)
    ensures o.id == id
  {
  }

  lemma TakeDueKeeps(s: Sys, top: nat, at: Instant, tried: Tried, configs: Configs)
    requires ValidConfigs(configs) && Invariant(s) && CanMove(s, TakeDue(top, at, tried), configs)
    ensures Invariant(Moved(s, TakeDue(top, at, tried), configs))
  {
    hide Next, Enabled, InChannel, AfterTry, Wakes, Timely, EarliestRetry, NoLater, HoldFor, ValidConfig;
    var id := s.store.scheduled[top].id;
    var s1 := s.(store := TakenDue(s.store, top), throttled := s.throttled - {id});
    if id in s.store.messages {
      forall other | other in s1.store.messages ensures Kept(s1, other) {
        assert Kept(s, other);
        TakeDueWakes(s.store, s.throttled, top, other, s.lives[other]);
      }
      LeavesMap(s, s1, id);
      TryKeeps(s1, id, at, tried, configs);
    } else {
      var s2 := s.(store := s1.store);
      forall other | other in s2.store.messages ensures Kept(s2, other) {
        assert Kept(s, other);
        TakeDueWakes(s.store, s.throttled, top, other, s.lives[other]);
      }
      SamePlaces(s, s2);
    }
  }

  lemma TakeHeldKeeps(s: Sys, pos: nat, at: Instant, free: set<LimiterId>, tried: Tried, configs: Configs)
    requires ValidConfigs(configs) && Invariant(s) && CanMove(s, TakeHeld(pos, at, free, tried), configs)
    ensures Invariant(Moved(s, TakeHeld(pos, at, free, tried), configs))
  {
    hide Next, Enabled, InChannel, AfterTry, Wakes, Timely, EarliestRetry, NoLater, HoldFor, Releasable, ValidConfig;
    var id := s.store.onHold[pos].id;
    var s1 := s.(store := TakenHeld(s.store, pos), throttled := s.throttled - {id});
    if id in s.store.messages {
      forall other | other in s1.store.messages ensures Kept(s1, other) {
        assert Kept(s, other);
        TakeHeldWakes(s.store, s.throttled, pos, other, s.lives[other]);
      }
      LeavesMap(s, s1, id);
      TryKeeps(s1, id, at, tried, configs);
    } else {
      var s2 := s.(store := s1.store);
      forall other | other in s2.store.messages ensures Kept(s2, other) {
        assert Kept(s, other);
        TakeHeldWakes(s.store, s.throttled, pos, other, s.lives[other]);
      }
      SamePlaces(s, s2);
    }
  }

  /** Taking a message out of the map leaves it in transit. */
  lemma LeavesMap(s: Sys, s1: Sys, id: QueueId)
    requires Invariant(s) && id in s.store.messages
    requires s1 == s.(store := s1.store, throttled := s1.throttled) && s1.store.messages == s.store.messages - {id}
    requires forall other | other in s1.store.messages :: Kept(s1, other)
    ensures InTransit(s1, id)
  {
    hide InChannel, Wakes, Timely;
    assert Placed(s, id);
    forall other | other != id ensures Placed(s1, other) {
      assert Placed(s, other);
    }
    forall i | 0 <= i < |s1.channel| ensures Posted(s1, i) {
      assert Posted(s, i);
    }
  }

  lemma SamePlaces(s: Sys, s1: Sys)
    requires Invariant(s) && s1 == s.(store := s1.store) && s1.store.messages == s.store.messages
    requires forall other | other in s1.store.messages :: Kept(s1, other)
    ensures Invariant(s1)
  {
    hide InChannel, Wakes, Timely;
    forall other ensures Placed(s1, other) {
      assert Placed(s, other);
    }
    forall i | 0 <= i < |s1.channel| ensures Posted(s1, i) {
      assert Posted(s, i);
    }
  }

  lemma TakeEventKeeps(s: Sys, at: Instant, tried: Tried, configs: Configs)
    requires ValidConfigs(configs) && Invariant(s) && CanMove(s, TakeEvent(at, tried), configs)
    ensures Invariant(Moved(s, TakeEvent(at, tried), configs))
  {
    hide Next, Enabled, AfterTry, Wakes, Timely, Received, ValidConfig, EarliestRetry, NoLater, HoldFor;
    var e, s1 := s.channel[0], s.(channel := s.channel[1..]);
    LeavesChannel(s);
    assert Posted(s, 0);
    if e.Arrives? && e.due <= at {
      TryKeeps(s1, e.to, at, tried, configs);
    } else {
      ReceivedKeeps(s1, e);
    }
  }

  lemma LeavesChannel(s: Sys)
    requires Invariant(s) && s.channel != []
    ensures InTransit(s.(channel := s.channel[1..]), s.channel[0].Id())
  {
    hide Wakes, Timely;
    var e, s1 := s.channel[0], s.(channel := s.channel[1..]);
    assert Placed(s, e.Id());
    forall other ensures Places(s1, other) == Places(s, other) - (if other == e.Id() then 1 else 0) && Live(s1, other) == Live(s, other) {
    }
    forall other | other != e.Id() ensures Placed(s1, other) {
      assert Placed(s, other);
    }
    forall i | 0 <= i < |s1.channel| ensures Posted(s1, i) {
      assert Posted(s, i + 1);
    }
    forall other | other in s1.store.messages ensures Kept(s1, other) {
      assert Kept(s, other);
    }
  }

  /** A message in transit is put back into the map with the entry that its event asks for. */
  lemma ReceivedKeeps(s: Sys, e: Event)
    requires InTransit(s, e.Id()) && Timely(e, s.lives[e.Id()])
    ensures Invariant(Received(s, e))
  {
    hide InChannel, Wakes, NoLater, GoodHold;
    var s', id := Received(s, e), e.Id();
    forall other ensures Placed(s', other) {
      if other != id {
        assert Placed(s, other);
      }
    }
    forall i | 0 <= i < |s'.channel| ensures Posted(s', i) {
      assert Posted(s, i);
    }
    forall other | other in s'.store.messages ensures Kept(s', other) {
      if other != id {
        assert Kept(s, other);
      }
      if e.Holds? {
        HoldWakes(s.store, s.throttled, e.o, s.lives[id].m, other, s.lives[other]);
      } else {
        ScheduleWakes(s.store, s.throttled, e.due, e.to, s.lives[id].m, other, s.lives[other]);
      }
    }
  }

  lemma SubmitKeeps(s: Sys, life: Life, arrival: Event, configs: Configs)
    requires ValidConfigs(configs) && Invariant(s) && CanMove(s, Submit(life, arrival), configs)
    ensures Invariant(Moved(s, Submit(life, arrival), configs))
  {
    hide InChannel, Wakes, NextEventIs, NoLater, GoodHold, ValidConfig;
    var s' := Moved(s, Submit(life, arrival), configs);
    var id := arrival.to;
    assert Placed(s, id);
    forall other ensures Placed(s', other) {
      assert Placed(s, other);
      ChannelAppend(s.channel, arrival, other);
    }
    forall other | other in s'.store.messages ensures Kept(s', other) {
      assert Kept(s, other);
    }
    NextEventIsNoLater(life.m, arrival.due);
    forall i | 0 <= i < |s'.channel| ensures Posted(s', i) {
      if i < |s.channel| {
        assert Posted(s, i);
      }
    }
  }

  lemma WorkerEndsKeeps(s: Sys, id: QueueId, step: Step, result: Event, configs: Configs)
    requires ValidConfigs(configs) && Invariant(s) && CanMove(s, WorkerEnds(id, step, result), configs)
    ensures Invariant(Moved(s, WorkerEnds(id, step, result), configs))
  {
    hide InChannel, Next, Enabled, Wakes, Timely, NextEventIs, HoldFor, ValidConfig;
    var s' := Moved(s, WorkerEnds(id, step, result), configs);
    var l := Next(s.lives[id], step, configs(id));
    if l.fate == Queued {
      HandedBack(result, id, l);
    }
    assert Placed(s, id);
    forall other ensures Placed(s', other) {
      assert Placed(s, other);
      ChannelAppend(s.channel, result, other);
      assert s.channel + [] == s.channel;
    }
    forall other | other in s'.store.messages ensures Kept(s', other) {
      assert Kept(s, other);
      assert Placed(s, other);
    }
    forall i | 0 <= i < |s'.channel| ensures Posted(s', i) {
      if i < |s.channel| {
        assert Posted(s, i);
        NotInChannel(s.channel, id, i);
      }
    }
  }

  lemma HandedBack(e: Event, id: QueueId, l: Life)
    requires HandsBack(e, id, l)
    ensures e.Id() == id && Timely(e, l)
  {
    hide PendingTimes, NoLater, GoodHold;
    if e.Holds? {
      HoldIsGood(e.o, id, l);
    } else {
      NextEventIsNoLater(l.m, e.due);
    }
  }

  lemma CancelKeeps(s: Sys, id: QueueId, step: Step, configs: Configs)
    requires ValidConfigs(configs) && Invariant(s) && CanMove(s, OperatorCancels(id, step), configs)
    ensures Invariant(Moved(s, OperatorCancels(id, step), configs))
  {
    hide InChannel, Next, Enabled, Wakes, Timely, ValidConfig;
    var s' := Moved(s, OperatorCancels(id, step), configs);
    if id in s.store.messages {
      assert Placed(s, id);
      PostedOthers(s, s', id);
      forall other ensures Placed(s', other) {
        assert Placed(s, other);
      }
      forall other | other in s'.store.messages ensures Kept(s', other) {
        CancelKept(s, id, step, configs, other);
      }
    }
  }

  lemma CancelKept(s: Sys, id: QueueId, step: Step, configs: Configs, other: QueueId)
    requires ValidConfigs(configs) && Invariant(s) && CanMove(s, OperatorCancels(id, step), configs) && id in s.store.messages
    requires other in Moved(s, OperatorCancels(id, step), configs).store.messages
    ensures Kept(Moved(s, OperatorCancels(id, step), configs), other)
  {
    hide InChannel, Next, Enabled, Wakes, Timely, ValidConfig, Placed, Posted;
    var s' := Moved(s, OperatorCancels(id, step), configs);
    assert Kept(s, id) && Kept(s, other);
    if other == id {
      CancelAllEnds(s.lives[id], step, configs(id));
      CancelWakes(s.store, s.throttled, id, s.lives[id], step, configs(id));
    }
    SameEntriesWake(s.store, s'.store, s.throttled, other, s'.lives[other]);
  }

  lemma CancelAllEnds(l: Life, step: Step, config: Config)
    requires ValidConfig(config) && CanStep(l, step) && (step.CancelSome? || step.CancelAll?)
    ensures Next(l, step, config).fate == Queued ==> step.CancelSome?
  {
  }

  /** A request that found a pending domain leaves one, so the message has a next event. */
  lemma FoundStaysPending(l: Life, step: Step, config: Config)
    requires ValidConfig(config) && step.AskRetry? && CanStep(l, step) && Found(l, step.chosen)
    ensures SomePending(Next(l, step, config).m) && Next(l, step, config).fate == Queued
  {
    var i :| 0 <= i < |l.m.domains| && i in step.chosen && l.m.domains[i].status.Pending();
    assert Next(l, step, config).m.domains[i].status.Pending();
  }

  lemma RetryKeeps(s: Sys, id: QueueId, step: Step, due: Instant, configs: Configs)
    requires ValidConfigs(configs) && Invariant(s) && CanMove(s, OperatorRetries(id, step, due), configs)
    ensures Invariant(Moved(s, OperatorRetries(id, step, due), configs))
  {
    hide InChannel, Found, Next, Enabled, Wakes, Timely, NextEventIs, NoLater, ValidConfig;
    var s' := Moved(s, OperatorRetries(id, step, due), configs);
    if id in s.store.messages && Found(s.lives[id], step.chosen) {
      var l := Next(s.lives[id], step, configs(id));
      FoundStaysPending(s.lives[id], step, configs(id));
      NextEventIsNoLater(l.m, due);
      assert Placed(s, id);
      PostedOthers(s, s', id);
      forall other ensures Placed(s', other) {
        assert Placed(s, other);
      }
      forall other | other in s'.store.messages ensures Kept(s', other) {
        assert Kept(s, other);
        RescheduleWakes(s.store, s.throttled, due, id, l.m, other, s'.lives[other]);
      }
    }
  }

  /** Every move of the manager, a worker or an operator keeps the invariant. */
  lemma MoveKeeps(s: Sys, move: Move, configs: Configs)
    requires ValidConfigs(configs) && Invariant(s) && CanMove(s, move, configs)
    ensures Invariant(Moved(s, move, configs))
  {
    hide Invariant, CanMove, Moved, ValidConfigs;
    match move
    case Submit(life, arrival) => SubmitKeeps(s, life, arrival, configs);
    case TakeDue(top, at, tried) => TakeDueKeeps(s, top, at, tried, configs);
    case TakeHeld(pos, at, free, tried) => TakeHeldKeeps(s, pos, at, free, tried, configs);
    case TakeEvent(at, tried) => TakeEventKeeps(s, at, tried, configs);
    case WorkerEnds(id, step, result) => WorkerEndsKeeps(s, id, step, result, configs);
    case OperatorCancels(id, step) => CancelKeeps(s, id, step, configs);
    case OperatorRetries(id, step, due) => RetryKeeps(s, id, step, due, configs);
  }

  lemma {:induction false} ReachedInvariant(moves: seq<Move>, configs: Configs, s: Sys)
    requires ValidConfigs(configs) && Reached(moves, configs, s)
    ensures Invariant(s)
    decreases |moves|
  {
    hide CanMove, Moved, Invariant, ValidConfigs;
    if moves == [] {
      assert Invariant(NOTHING) by { NothingIsInOrder(); }
    } else {
      var last := |moves| - 1;
      var k :| Reached(moves[..last], configs, k) && CanMove(k, moves[last], configs) && s == Moved(k, moves[last], configs);
      ReachedInvariant(moves[..last], configs, k);
      MoveKeeps(k, moves[last], configs);
    }
  }

  lemma NothingIsInOrder()
    ensures Invariant(NOTHING)
  {
  }

  /** In every run each live message is in exactly one of the map, a worker and the channel, and no other message is anywhere. */
  lemma EveryMessageHasOnePlace(moves: seq<Move>, configs: Configs, s: Sys, id: QueueId)
    requires ValidConfigs(configs) && Reached(moves, configs, s)
    ensures Places(s, id) == if Live(s, id) then 1 else 0
  {
    hide Reached, Kept, Posted;
    ReachedInvariant(moves, configs, s);
    assert Placed(s, id);
  }

  /**
    In every run a message in the map is as its life has it and has an entry: in the heap and no later
    than any retry of a pending domain, in the heap and no later than the time that a sender throttle
    gave, or on hold and due by every time still to come.
  */
  lemma EveryMessageComesUp(moves: seq<Move>, configs: Configs, s: Sys, id: QueueId)
    requires ValidConfigs(configs) && Reached(moves, configs, s) && id in s.store.messages
    ensures id in s.lives && s.store.messages[id] == s.lives[id].m
    ensures
      || HasEntry(s.store.scheduled, id, s.store.messages[id])
      || HasHold(s.store.onHold, id, s.lives[id])
      || (id in s.throttled && HasEntryBy(s.store.scheduled, id, s.throttled[id]))
  {
    hide Reached, Placed, Posted, HasEntry, HasHold, HasEntryBy;
    ReachedInvariant(moves, configs, s);
    assert Kept(s, id);
  }

  // ----- Messages only change by the steps of their life -----

  /** `l` is where some steps of its life lead a message from `origin`. */
  ghost predicate IsRun(origin: Life, l: Life, config: Config)
    requires ValidConfig(config)
  {
    exists steps :: Reaches(origin, steps, config, l)
  }

  ghost predicate LivesAreRuns(s: Sys, configs: Configs)
    requires ValidConfigs(configs)
  {
    s.lives.Keys == s.origins.Keys && forall id | id in s.lives :: IsRun(s.origins[id], s.lives[id], configs(id))
  }

  lemma ExtendRun(origin: Life, k: Life, step: Step, config: Config)
    requires ValidConfig(config) && CanStep(k, step) && IsRun(origin, k, config)
    ensures IsRun(origin, Next(k, step, config), config)
  {
    hide Next, Enabled;
    var steps :| Reaches(origin, steps, config, k);
    assert (steps + [step])[..|steps|] == steps;
    assert Reaches(origin, steps + [step], config, Next(k, step, config));
  }

  lemma NoSteps(l: Life, config: Config)
    requires ValidConfig(config)
    ensures IsRun(l, l, config)
  {
    assert Reaches(l, [], config, l);
  }

  /** One life is replaced by its next state, or none. */
  lemma LivesStep(s: Sys, s': Sys, id: QueueId, step: Step, configs: Configs)
    requires ValidConfigs(configs) && LivesAreRuns(s, configs) && s'.origins == s.origins
    requires s'.lives == s.lives
          || (id in s.lives && CanStep(s.lives[id], step) && s'.lives == s.lives[id := Next(s.lives[id], step, configs(id))])
    ensures LivesAreRuns(s', configs)
  {
    hide Next, Enabled, IsRun, ValidConfig;
    forall other | other in s'.lives ensures IsRun(s'.origins[other], s'.lives[other], configs(other)) {
      assert IsRun(s.origins[other], s.lives[other], configs(other));
      if s'.lives != s.lives && other == id {
        ExtendRun(s.origins[id], s.lives[id], step, configs(id));
      }
    }
  }

  lemma SubmitKeepsRuns(s: Sys, s': Sys, id: QueueId, life: Life, configs: Configs)
    requires ValidConfigs(configs) && LivesAreRuns(s, configs)
    requires s'.origins == s.origins[id := life] && s'.lives == s.lives[id := life]
    ensures LivesAreRuns(s', configs)
  {
    hide IsRun, ValidConfig;
    forall other | other in s'.lives ensures IsRun(s'.origins[other], s'.lives[other], configs(other)) {
      if other == id {
        NoSteps(life, configs(id));
      } else {
        assert IsRun(s.origins[other], s.lives[other], configs(other));
      }
    }
  }

  lemma TryLives(s: Sys, id: QueueId, at: Instant, tried: Tried, configs: Configs)
    requires ValidConfigs(configs) && ValidTry(s, id, at, tried, configs)
    ensures
      var s' := AfterTry(s, id, at, tried, configs);
      && s'.origins == s.origins && CanStep(s.lives[id], Visit(at))
      && (s'.lives == s.lives || s'.lives == s.lives[id := Next(s.lives[id], Visit(at), configs(id))])
  {
    hide Next, Enabled;
  }

  lemma MoveKeepsRuns(s: Sys, move: Move, configs: Configs)
    requires ValidConfigs(configs) && LivesAreRuns(s, configs) && CanMove(s, move, configs)
    ensures LivesAreRuns(Moved(s, move, configs), configs)
  {
    hide Next, Enabled, SomePending, Found, LivesAreRuns, AfterTry, WithScheduled, WithHeld, TakenDue, TakenHeld, Rescheduled, HandsBack, HoldFor,
      NextEventIs, EarliestRetry, NoLater, Releasable, ValidConfigs;
    var s' := Moved(s, move, configs);
    match move
    case Submit(life, arrival) => SubmitKeepsRuns(s, s', arrival.to, life, configs);
    case TakeDue(top, at, tried) =>
      var id := s.store.scheduled[top].id;
      if id in s.store.messages {
        TryLives(s.(store := TakenDue(s.store, top), throttled := s.throttled - {id}), id, at, tried, configs);
      }
      LivesStep(s, s', id, Visit(at), configs);
    case TakeHeld(pos, at, free, tried) =>
      var id := s.store.onHold[pos].id;
      if id in s.store.messages {
        TryLives(s.(store := TakenHeld(s.store, pos), throttled := s.throttled - {id}), id, at, tried, configs);
      }
      LivesStep(s, s', id, Visit(at), configs);
    case TakeEvent(at, tried) =>
      if s.channel[0].Arrives? && s.channel[0].due <= at {
        TryLives(s.(channel := s.channel[1..]), s.channel[0].to, at, tried, configs);
      }
      LivesStep(s, s', s.channel[0].Id(), Visit(at), configs);
    case WorkerEnds(id, step, result) => LivesStep(s, s', id, step, configs);
    case OperatorCancels(id, step) => LivesStep(s, s', id, step, configs);
    case OperatorRetries(id, step, due) => LivesStep(s, s', id, step, configs);
  }

  lemma {:induction false} ReachedRuns(moves: seq<Move>, configs: Configs, s: Sys)
    requires ValidConfigs(configs) && Reached(moves, configs, s)
    ensures LivesAreRuns(s, configs)
    decreases |moves|
  {
    hide CanMove, Moved, ValidConfigs, IsRun;
    if moves != [] {
      var last := |moves| - 1;
      var k :| Reached(moves[..last], configs, k) && CanMove(k, moves[last], configs) && s == Moved(k, moves[last], configs);
      ReachedRuns(moves[..last], configs, k);
      MoveKeepsRuns(k, moves[last], configs);
    }
  }

  /** Whatever the queue does, each of its messages is in a state that its own life can reach from its submission. */
  lemma EveryLifeIsARun(moves: seq<Move>, configs: Configs, s: Sys, id: QueueId) returns (steps: seq<Step>)
    requires ValidConfigs(configs) && Reached(moves, configs, s) && id in s.lives
    ensures id in s.origins && Reaches(s.origins[id], steps, configs(id), s.lives[id])
  {
    hide Reached, Reaches;
    ReachedRuns(moves, configs, s);
    assert IsRun(s.origins[id], s.lives[id], configs(id));
    steps :| Reaches(s.origins[id], steps, configs(id), s.lives[id]);
  }
}
