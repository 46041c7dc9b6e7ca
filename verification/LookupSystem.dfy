/**
  The dispatcher together with its channel and its workers, as a state machine.
  A worker answers or fails the lookup it holds and tells the loop, which may give it another one.
*/
module LookupSystem {
  import opened Prelude
  import opened LookupCaches
  import opened Dispatcher

  datatype LookupResult = True | False | Values(values: seq<string>)

  function Cacheable(r: LookupResult): Option<bool> {
    match r
    case True => Some(true)
    case False => Some(false)
    case Values(_) => None
  }

  /** `Waiting` is a worker that offered to reuse its connection and has not heard back. */
  datatype Worker = Holding(lookup: Lookup) | Waiting | Gone

  /** An answer that went back to a caller; `at` and `epoch` say when the cache was consulted. */
  datatype Answer = FromWorker(lookup: Lookup, result: LookupResult) | FromCache(lookup: Lookup, answer: bool, at: Time, epoch: nat)

  datatype Given = Given(item: Item, answer: bool)

  /** An insertion into the cache, and what it evicted; the epoch counts the reloads before it. */
  datatype Inserted = Inserted(item: Item, answer: bool, at: Time, epoch: nat, evicted: set<Item>)

  /** Below `now`, the fields are a record of what happened. */
  datatype Sys = Sys(
    loop: Loop, channel: seq<Event>, workers: seq<Worker>, submitted: nat, now: Time,
    epoch: nat, answers: seq<Answer>, failed: seq<Lookup>, dispatched: seq<Lookup>, given: seq<Given>, inserted: seq<Inserted>)

  const INITIAL: Sys := Sys(START, [], [], 0, 0, 0, [], [], [], [], [])

  datatype Step =
    | Submit(item: Item)
    | Control(stop: bool)
    | LoopReceives(at: Time, evicted: set<Item>)
    | WorkerAnswers(worker: nat, result: LookupResult, reusable: bool)
    | WorkerFails(worker: nat)

  predicate Enabled(s: Sys, step: Step) {
    match step
    case Submit(_) => true
    case Control(_) => true
    case LoopReceives(at, _) => !s.loop.stopped && s.channel != [] && s.now <= at
    case WorkerAnswers(w, _, _) => w < |s.workers| && s.workers[w].Holding?
    case WorkerFails(w) => w < |s.workers| && s.workers[w].Holding?
  }

  function Opt(l: Option<Lookup>): seq<Lookup> {
    if l.Some? then [l.value] else []
  }

  function CacheAnswers(replies: seq<Reply>, at: Time, epoch: nat): seq<Answer> {
    seq(|replies|, i requires 0 <= i < |replies| => FromCache(replies[i].lookup, replies[i].answer, at, epoch))
  }

  /** The worker that waits for the loop's reply gets a lookup or leaves; a new worker starts with its lookup. */
  function AfterEffect(ws: seq<Worker>, e: Event, f: Effect): seq<Worker> {
    var ws' :=
      if e.WorkerReady? && e.next.Some? && e.next.value < |ws|
      then ws[e.next.value := if f.handedOver.Some? then Holding(f.handedOver.value) else if f.released then Gone else ws[e.next.value]]
      else ws;
    ws' + if f.started.Some? then [Holding(f.started.value)] else []
  }

  function Receive(s: Sys, at: Time, evicted: set<Item>, config: Config): Sys
    requires s.channel != []
  {
    var e := s.channel[0];
    var (l, f) := Handle(s.loop, e, at, config, evicted);
    s.(loop := l, channel := s.channel[1..], workers := AfterEffect(s.workers, e, f), now := at,
       epoch := if e.Reload? then s.epoch + 1 else s.epoch,
       answers := s.answers + CacheAnswers(f.replies, at, s.epoch),
       dispatched := s.dispatched + Opt(f.started) + Opt(f.handedOver),
       inserted := s.inserted +
         if e.WorkerReady? && e.result.Some? then [Inserted(e.item, e.result.value, at, s.epoch, evicted)] else [])
  }

  function Next(s: Sys, step: Step, config: Config): Sys
    requires Enabled(s, step)
  {
    match step
    case Submit(item) => s.(channel := s.channel + [Ask(Lookup(s.submitted, item))], submitted := s.submitted + 1)
    case Control(stop) => s.(channel := s.channel + [if stop then Stop else Reload])
    case LoopReceives(at, evicted) => Receive(s, at, evicted, config)
    case WorkerAnswers(w, result, reusable) =>
      var lookup := s.workers[w].lookup;
      var cached := Cacheable(result);
      s.(channel := s.channel + [WorkerReady(lookup.item, cached, if reusable then Some(w) else None)],
         workers := s.workers[w := if reusable then Waiting else Gone],
         answers := s.answers + [FromWorker(lookup, result)],
         given := s.given + if cached.Some? then [Given(lookup.item, cached.value)] else [])
    case WorkerFails(w) =>
      s.(channel := s.channel + [WorkerFailed], workers := s.workers[w := Gone],
         failed := s.failed + [s.workers[w].lookup])
  }

  /** All steps of the run are enabled in turn and lead from `s` to the result. */
  ghost predicate Reaches(s: Sys, steps: seq<Step>, config: Config, s': Sys)
    decreases |steps|
  {
    if steps == [] then s' == s
    else
      var last := |steps| - 1;
      exists m :: Reaches(s, steps[..last], config, m) && Enabled(m, steps[last]) && s' == Next(m, steps[last], config)
  }

  // ----- Where the lookups are -----

  function Asked(es: seq<Event>): seq<Lookup> {
    if es == [] then [] else (if es[0].Ask? then [es[0].lookup] else []) + Asked(es[1..])
  }

  /** Worker events in the channel: each keeps one of the loop's slots occupied until it is received. */
  function Owed(es: seq<Event>): nat {
    if es == [] then 0 else (if es[0].WorkerReady? || es[0].WorkerFailed? then 1 else 0) + Owed(es[1..])
  }

  function Tickets(ls: seq<Lookup>): seq<nat> {
    seq(|ls|, i requires 0 <= i < |ls| => ls[i].ticket)
  }

  function Answered(answers: seq<Answer>): seq<Lookup> {
    seq(|answers|, i requires 0 <= i < |answers| => answers[i].lookup)
  }

  /** How often a ticket occurs among lookups. */
  function Occurs(ls: seq<Lookup>, ticket: nat): nat {
    if ls == [] then 0 else (if ls[0].ticket == ticket then 1 else 0) + Occurs(ls[1..], ticket)
  }

  function HeldBy(w: Worker, ticket: nat): nat {
    if w.Holding? && w.lookup.ticket == ticket then 1 else 0
  }

  function Held(ws: seq<Worker>, ticket: nat): nat {
    if ws == [] then 0 else HeldBy(ws[0], ticket) + Held(ws[1..], ticket)
  }

  function Busy(ws: seq<Worker>): nat {
    if ws == [] then 0 else (if ws[0].Holding? then 1 else 0) + Busy(ws[1..])
  }

  /** In how many places a ticket is: under way to the loop, queued, with a worker, answered or failed. */
  function Places(s: Sys, ticket: nat): nat {
    Occurs(Asked(s.channel), ticket) + Occurs(s.loop.queue, ticket) + Held(s.workers, ticket)
    + Occurs(Answered(s.answers), ticket) + Occurs(s.failed, ticket)
  }

  /** Lookups in the order in which they reach workers: already dispatched, queued, not yet received. */
  function Line(s: Sys): seq<nat> {
    Tickets(s.dispatched) + Tickets(s.loop.queue) + Tickets(Asked(s.channel))
  }

  predicate Increasing(t: seq<nat>) {
    forall i, j | 0 <= i < j < |t| :: t[i] < t[j]
  }

  // ----- The invariant -----

  predicate OffersWait(s: Sys) {
    && (forall i | 0 <= i < |s.channel| && s.channel[i].WorkerReady? && s.channel[i].next.Some? ::
          s.channel[i].next.value < |s.workers| && s.workers[s.channel[i].next.value].Waiting?)
    && (forall i, j | 0 <= i < j < |s.channel| && s.channel[i].WorkerReady? && s.channel[i].next.Some?
                      && s.channel[j].WorkerReady? && s.channel[j].next.Some? ::
          s.channel[i].next != s.channel[j].next)
  }

  predicate SlotsCounted(s: Sys, config: Config) {
    && s.loop.active == Busy(s.workers) + Owed(s.channel)
    && 0 <= s.loop.active <= config.maxConcurrent
    && (s.loop.queue != [] ==> s.loop.active == config.maxConcurrent)
  }

  ghost predicate Conserved(s: Sys) {
    forall ticket: nat :: Places(s, ticket) == if ticket < s.submitted then 1 else 0
  }

  predicate Ordered(s: Sys) {
    Increasing(Line(s)) && forall i | 0 <= i < |Line(s)| :: Line(s)[i] < s.submitted
  }

  /** An insertion of this answer for this item, in this epoch and no longer ago than its time to live. */
  predicate Justified(inserted: seq<Inserted>, item: Item, answer: bool, at: Time, epoch: nat, ttl: Ttl) {
    exists k | 0 <= k < |inserted| ::
      && inserted[k].item == item && inserted[k].answer == answer && inserted[k].epoch == epoch
      && inserted[k].at <= at <= inserted[k].at + (if answer then ttl.pos else ttl.neg)
  }

  /** The valid-until time of an answer stems from an insertion in the current epoch. */
  predicate Entry(inserted: seq<Inserted>, item: Item, answer: bool, until: Time, epoch: nat, now: Time, ttl: Ttl) {
    exists k | 0 <= k < |inserted| ::
      && inserted[k].item == item && inserted[k].answer == answer && inserted[k].epoch == epoch
      && inserted[k].at <= now && until == inserted[k].at + if answer then ttl.pos else ttl.neg
  }

  predicate Backed(c: Cache, inserted: seq<Inserted>, epoch: nat, now: Time, ttl: Ttl) {
    && (forall item | item in c.pos :: Entry(inserted, item, true, c.pos[item], epoch, now, ttl))
    && (forall item | item in c.neg :: Entry(inserted, item, false, c.neg[item], epoch, now, ttl))
  }

  /** What was inserted, or is about to be, is an answer that a worker gave. */
  predicate GivenByWorkers(s: Sys) {
    && (forall k | 0 <= k < |s.inserted| :: Given(s.inserted[k].item, s.inserted[k].answer) in s.given)
    && (forall i | 0 <= i < |s.channel| && s.channel[i].WorkerReady? && s.channel[i].result.Some? ::
          Given(s.channel[i].item, s.channel[i].result.value) in s.given)
  }

  predicate ServedRight(s: Sys, ttl: Ttl) {
    forall i | 0 <= i < |s.answers| && s.answers[i].FromCache? ::
      var a := s.answers[i];
      Justified(s.inserted, a.lookup.item, a.answer, a.at, a.epoch, ttl)
  }

  predicate CacheSound(s: Sys, ttl: Ttl) {
    Backed(s.loop.cache, s.inserted, s.epoch, s.now, ttl) && GivenByWorkers(s) && ServedRight(s, ttl)
  }

  ghost predicate Invariant(s: Sys, config: Config) {
    && CacheSound(s, config.ttl)
    && (!s.loop.stopped ==> OffersWait(s) && SlotsCounted(s, config) && Conserved(s) && Ordered(s))
  }
}
