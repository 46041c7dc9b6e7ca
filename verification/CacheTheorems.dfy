/** What the cache answers, over every run of the dispatcher: all that was inserted and is still good, and nothing else. */
module CacheTheorems {
  import opened Prelude
  import opened LookupCaches
  import opened Dispatcher
  import opened LookupSystem

  // ----- What is still good -----

  function TtlOf(ttl: Ttl, answer: bool): Time { if answer then ttl.pos else ttl.neg }

  /** Insertion `k` gave this answer for this item after the last reload, and it was neither replaced nor evicted since. */
  predicate Survives(log: seq<Inserted>, k: nat, item: Item, answer: bool, epoch: nat) {
    && k < |log| && log[k].item == item && log[k].answer == answer && log[k].epoch == epoch
    && forall j | k <= j < |log| && log[j].answer == answer :: item !in log[j].evicted && (j > k ==> log[j].item != item)
  }

  /** An answer that is there and no older than its time to live. */
  predicate Good(log: seq<Inserted>, item: Item, answer: bool, epoch: nat, at: Time, ttl: Ttl) {
    exists k | 0 <= k < |log| :: Survives(log, k, item, answer, epoch) && at <= log[k].at + TtlOf(ttl, answer)
  }

  /** The time of the insertion that survives, if there is one. */
  function Surviving(log: seq<Inserted>, item: Item, answer: bool, epoch: nat): Option<Time> {
    if log == [] then None
    else
      var last := log[|log| - 1];
      if last.answer == answer && item in last.evicted then None
      else if last.answer == answer && last.item == item then if last.epoch == epoch then Some(last.at) else None
      else Surviving(log[..|log| - 1], item, answer, epoch)
  }

  lemma {:induction false} SurvivingIff(log: seq<Inserted>, item: Item, answer: bool, epoch: nat)
    ensures forall k | 0 <= k < |log| && Survives(log, k, item, answer, epoch) :: Surviving(log, item, answer, epoch) == Some(log[k].at)
    ensures Surviving(log, item, answer, epoch).Some? ==> exists k | 0 <= k < |log| :: Survives(log, k, item, answer, epoch)
  {
    if log != [] {
      var init, last := log[..|log| - 1], log[|log| - 1];
      SurvivingIff(init, item, answer, epoch);
      forall k | 0 <= k < |init| && Survives(log, k, item, answer, epoch) ensures Survives(init, k, item, answer, epoch) {}
      if Surviving(log, item, answer, epoch).Some? {
        if last.answer == answer && last.item == item {
          assert Survives(log, |log| - 1, item, answer, epoch);
        } else {
          var k :| 0 <= k < |init| && Survives(init, k, item, answer, epoch);
          assert Survives(log, k, item, answer, epoch);
        }
      }
    }
  }

  lemma GoodIff(log: seq<Inserted>, item: Item, answer: bool, epoch: nat, at: Time, ttl: Ttl)
    ensures Good(log, item, answer, epoch, at, ttl) <==>
      var t := Surviving(log, item, answer, epoch); t.Some? && at <= t.value + TtlOf(ttl, answer)
  {
    hide Survives, Surviving;
    SurvivingIff(log, item, answer, epoch);
  }

  // ----- The cache has exactly that -----

  function Side(c: Cache, answer: bool): map<Item, Time> { if answer then c.pos else c.neg }

  /** An entry stems from the surviving insertion, and that insertion has its entry for as long as it is good. */
  predicate ExactAt(c: Cache, log: seq<Inserted>, item: Item, answer: bool, epoch: nat, now: Time, ttl: Ttl) {
    var t := Surviving(log, item, answer, epoch);
    && (item in Side(c, answer) ==> t.Some? && Side(c, answer)[item] == t.value + TtlOf(ttl, answer))
    && (t.Some? && now <= t.value + TtlOf(ttl, answer) ==> item in Side(c, answer))
  }

  ghost predicate Exact(c: Cache, log: seq<Inserted>, epoch: nat, now: Time, ttl: Ttl) {
    forall item, answer :: ExactAt(c, log, item, answer, epoch, now, ttl)
  }

  lemma FindKeepsExact(c: Cache, item: Item, log: seq<Inserted>, epoch: nat, now: Time, at: Time, ttl: Ttl)
    requires Exact(c, log, epoch, now, ttl) && now <= at
    ensures Exact(AfterFind(c, item, at), log, epoch, at, ttl)
  {
    hide Surviving;
    var c' := AfterFind(c, item, at);
    forall other, answer ensures ExactAt(c', log, other, answer, epoch, at, ttl) {
      assert ExactAt(c, log, other, answer, epoch, now, ttl);
    }
  }

  lemma InsertKeepsExact(c: Cache, item: Item, answer: bool, log: seq<Inserted>, epoch: nat, at: Time, ttl: Ttl, evicted: set<Item>)
    requires Exact(c, log, epoch, at, ttl)
    ensures Exact(Insert(c, item, answer, at, ttl, evicted), log + [Inserted(item, answer, at, epoch, evicted)], epoch, at, ttl)
  {
    var c', log' := Insert(c, item, answer, at, ttl, evicted), log + [Inserted(item, answer, at, epoch, evicted)];
    assert log'[..|log|] == log;
    forall other, b ensures ExactAt(c', log', other, b, epoch, at, ttl) {
      assert ExactAt(c, log, other, b, epoch, at, ttl);
    }
  }

  lemma {:induction false} DrainKeepsExact(queue: seq<Lookup>, c: Cache, log: seq<Inserted>, epoch: nat, at: Time, ttl: Ttl)
    requires Exact(c, log, epoch, at, ttl)
    ensures Exact(Drain(queue, c, at).cache, log, epoch, at, ttl)
  {
    hide Exact, Find, AfterFind;
    if queue != [] {
      FindKeepsExact(c, queue[0].item, log, epoch, at, at, ttl);
      DrainKeepsExact(queue[1..], AfterFind(c, queue[0].item, at), log, epoch, at, ttl);
    }
  }

  predicate EpochsUpTo(log: seq<Inserted>, epoch: nat) {
    forall k | 0 <= k < |log| :: log[k].epoch <= epoch
  }

  lemma {:induction false} NothingYet(log: seq<Inserted>, epoch: nat, item: Item, answer: bool)
    requires EpochsUpTo(log, epoch)
    ensures Surviving(log, item, answer, epoch + 1).None?
  {
    if log != [] {
      NothingYet(log[..|log| - 1], epoch, item, answer);
    }
  }

  lemma ReloadIsExact(log: seq<Inserted>, epoch: nat, at: Time, ttl: Ttl)
    requires EpochsUpTo(log, epoch)
    ensures Exact(EMPTY, log, epoch + 1, at, ttl)
  {
    hide Surviving;
    var next := epoch + 1;
    forall item, answer ensures ExactAt(EMPTY, log, item, answer, next, at, ttl) {
      NothingYet(log, epoch, item, answer);
    }
  }

  lemma TimePasses(c: Cache, log: seq<Inserted>, epoch: nat, now: Time, at: Time, ttl: Ttl)
    requires Exact(c, log, epoch, now, ttl) && now <= at
    ensures Exact(c, log, epoch, at, ttl)
  {
    hide Surviving;
    forall item, answer ensures ExactAt(c, log, item, answer, epoch, at, ttl) {
      assert ExactAt(c, log, item, answer, epoch, now, ttl);
    }
  }

  ghost predicate Complete(s: Sys, ttl: Ttl) {
    Exact(s.loop.cache, s.inserted, s.epoch, s.now, ttl) && EpochsUpTo(s.inserted, s.epoch)
  }

  lemma ReceiveKeepsComplete(s: Sys, at: Time, evicted: set<Item>, config: Config)
    requires Enabled(s, LoopReceives(at, evicted)) && Complete(s, config.ttl)
    ensures Complete(Receive(s, at, evicted, config), config.ttl)
  {
    hide Exact, Find, AfterFind, Insert, Drain;
    var e, c, ttl := s.channel[0], s.loop.cache, config.ttl;
    assert s.inserted + [] == s.inserted;
    TimePasses(c, s.inserted, s.epoch, s.now, at, ttl);
    match e
    case Ask(lookup) => FindKeepsExact(c, lookup.item, s.inserted, s.epoch, at, at, ttl);
    case WorkerReady(item, result, _) =>
      if result.Some? {
        InsertKeepsExact(c, item, result.value, s.inserted, s.epoch, at, ttl, evicted);
      }
      DrainKeepsExact(s.loop.queue, AfterResult(c, item, result, at, ttl, evicted), Receive(s, at, evicted, config).inserted, s.epoch, at, ttl);
    case WorkerFailed =>
    case Reload => ReloadIsExact(s.inserted, s.epoch, at, ttl);
    case Stop =>
  }

  lemma NothingInserted(ttl: Ttl)
    ensures Complete(INITIAL, ttl)
  {
  }

  lemma {:induction false} ReachedComplete(steps: seq<Step>, config: Config, s: Sys)
    requires Reaches(INITIAL, steps, config, s)
    ensures Complete(s, config.ttl)
    decreases |steps|
  {
    hide Complete, Receive;
    if steps == [] {
      NothingInserted(config.ttl);
    } else {
      var last := |steps| - 1;
      var m :| Reaches(INITIAL, steps[..last], config, m) && Enabled(m, steps[last]) && s == Next(m, steps[last], config);
      ReachedComplete(steps[..last], config, m);
      if steps[last].LoopReceives? {
        ReceiveKeepsComplete(m, steps[last].at, steps[last].evicted, config);
      } else {
        OtherStepsKeep(m, steps[last], config);
      }
    }
  }

  lemma OtherStepsKeep(s: Sys, step: Step, config: Config)
    requires Enabled(s, step) && !step.LoopReceives? && Complete(s, config.ttl)
    ensures Complete(Next(s, step, config), config.ttl)
  {
    hide Exact, EpochsUpTo;
  }

  // ----- What an event gets -----

  /** The answer that the insertions call for: the positive one if one is good, else the negative one. */
  function Expected(log: seq<Inserted>, item: Item, epoch: nat, at: Time, ttl: Ttl): Option<bool> {
    if Good(log, item, true, epoch, at, ttl) then Some(true)
    else if Good(log, item, false, epoch, at, ttl) then Some(false)
    else None
  }

  lemma FindIsExpected(c: Cache, item: Item, log: seq<Inserted>, epoch: nat, at: Time, ttl: Ttl)
    requires Exact(c, log, epoch, at, ttl)
    ensures Find(c, item, at) == Expected(log, item, epoch, at, ttl)
  {
    hide Surviving, Good;
    assert ExactAt(c, log, item, true, epoch, at, ttl) && ExactAt(c, log, item, false, epoch, at, ttl);
    GoodIff(log, item, true, epoch, at, ttl);
    GoodIff(log, item, false, epoch, at, ttl);
  }

  /**
    In every run a request is answered at once if and only if a good answer was inserted, with that
    answer, and then it starts no worker and does not queue; otherwise nobody is answered.
  */
  lemma AskedIsAnswered(steps: seq<Step>, config: Config, s: Sys, at: Time, evicted: set<Item>)
    requires Reaches(INITIAL, steps, config, s) && Enabled(s, LoopReceives(at, evicted)) && s.channel[0].Ask?
    ensures
      var lookup := s.channel[0].lookup;
      var expected := Expected(s.inserted, lookup.item, s.epoch, at, config.ttl);
      var s' := Receive(s, at, evicted, config);
      && (expected.Some? ==>
            && s'.answers == s.answers + [FromCache(lookup, expected.value, at, s.epoch)]
            && s'.workers == s.workers && s'.loop.queue == s.loop.queue && s'.dispatched == s.dispatched
            && s'.loop.active == s.loop.active)
      && (expected.None? ==>
            && s'.answers == s.answers
            && (if s.loop.active < config.maxConcurrent
                then s'.workers == s.workers + [Holding(lookup)] && s'.loop.queue == s.loop.queue
                else s'.workers == s.workers && s'.loop.queue == s.loop.queue + [lookup]))
  {
    hide Expected, Find, AfterFind;
    var lookup := s.channel[0].lookup;
    ReachedComplete(steps, config, s);
    TimePasses(s.loop.cache, s.inserted, s.epoch, s.now, at, config.ttl);
    FindIsExpected(s.loop.cache, lookup.item, s.inserted, s.epoch, at, config.ttl);
    assert s.answers + [] == s.answers && s.workers + [] == s.workers && s.dispatched + [] + [] == s.dispatched;
  }

  /** The number of lookups at the front of the queue that have a good answer. */
  function Ready(queue: seq<Lookup>, log: seq<Inserted>, epoch: nat, at: Time, ttl: Ttl): (n: nat)
    ensures n <= |queue| && forall i | 0 <= i < n :: Expected(log, queue[i].item, epoch, at, ttl).Some?
    ensures n < |queue| ==> Expected(log, queue[n].item, epoch, at, ttl).None?
  {
    if queue == [] || Expected(log, queue[0].item, epoch, at, ttl).None? then 0 else 1 + Ready(queue[1..], log, epoch, at, ttl)
  }

  lemma {:induction false} DrainIs(queue: seq<Lookup>, c: Cache, log: seq<Inserted>, epoch: nat, at: Time, ttl: Ttl)
    requires Exact(c, log, epoch, at, ttl)
    ensures
      var d, n := Drain(queue, c, at), Ready(queue, log, epoch, at, ttl);
      && |d.replies| == n && (forall i | 0 <= i < n :: d.replies[i] == Reply(queue[i], Expected(log, queue[i].item, epoch, at, ttl).value))
      && d.first == (if n < |queue| then Some(queue[n]) else None) && d.rest == if n < |queue| then queue[n + 1..] else []
  {
    hide Exact, Find, AfterFind, Expected;
    if queue != [] {
      FindIsExpected(c, queue[0].item, log, epoch, at, ttl);
      FindKeepsExact(c, queue[0].item, log, epoch, at, at, ttl);
      DrainIs(queue[1..], AfterFind(c, queue[0].item, at), log, epoch, at, ttl);
    }
  }

  lemma DrainAnswers(queue: seq<Lookup>, c: Cache, log: seq<Inserted>, epoch: nat, at: Time, ttl: Ttl, n: nat)
    requires Exact(c, log, epoch, at, ttl) && n == Ready(queue, log, epoch, at, ttl)
    ensures CacheAnswers(Drain(queue, c, at).replies, at, epoch)
         == seq(n, i requires 0 <= i < n => FromCache(queue[i], Expected(log, queue[i].item, epoch, at, ttl).value, at, epoch))
  {
    hide Expected, Drain, Exact, Ready;
    DrainIs(queue, c, log, epoch, at, ttl);
  }

  /**
    The worker that offered itself gets the first lookup left, or is let go when none is; with no offer, a new
    worker starts with it.
  */
  lemma OfferIsTaken(steps: seq<Step>, config: Config, s: Sys, at: Time, evicted: set<Item>, n: nat)
    requires Reaches(INITIAL, steps, config, s) && Enabled(s, LoopReceives(at, evicted)) && s.channel[0].WorkerReady?
    requires n == Ready(s.loop.queue, Receive(s, at, evicted, config).inserted, s.epoch, at, config.ttl)
    requires s.channel[0].next.Some? ==> s.channel[0].next.value < |s.workers|
    ensures
      var s', q, next := Receive(s, at, evicted, config), s.loop.queue, s.channel[0].next;
      s'.workers ==
        if next.Some? then s.workers[next.value := if n < |q| then Holding(q[n]) else Gone]
        else if n < |q| then s.workers + [Holding(q[n])] else s.workers
  {
    hide Expected, Insert, Drain, Exact, CacheAnswers, Ready;
    var e := s.channel[0];
    var c' := AfterResult(s.loop.cache, e.item, e.result, at, config.ttl, evicted);
    ReadyIsExact(steps, config, s, at, evicted);
    DrainIs(s.loop.queue, c', Receive(s, at, evicted, config).inserted, s.epoch, at, config.ttl);
    assert s.workers + [] == s.workers;
  }

  /**
    In every run a worker's event answers the lookups at the front of the queue that have a good answer by
    now, its own included, each with that answer; the first other one, if any, goes to a worker, and the
    rest stays in order.
  */
  lemma QueuedAreAnswered(steps: seq<Step>, config: Config, s: Sys, at: Time, evicted: set<Item>, n: nat)
    requires Reaches(INITIAL, steps, config, s) && Enabled(s, LoopReceives(at, evicted)) && s.channel[0].WorkerReady?
    requires n == Ready(s.loop.queue, Receive(s, at, evicted, config).inserted, s.epoch, at, config.ttl)
    ensures
      var s', q := Receive(s, at, evicted, config), s.loop.queue;
      && s'.answers == s.answers + seq(n, i requires 0 <= i < n =>
           FromCache(q[i], Expected(s'.inserted, q[i].item, s.epoch, at, config.ttl).value, at, s.epoch))
      && (if n < |q| then s'.dispatched == s.dispatched + [q[n]] && s'.loop.queue == q[n + 1..] && s'.loop.active == s.loop.active
          else s'.dispatched == s.dispatched && s'.loop.queue == [] && s'.loop.active == s.loop.active - 1)
  {
    hide Expected, Insert, Drain, Exact, CacheAnswers, Receive, Ready;
    var e, c, ttl := s.channel[0], s.loop.cache, config.ttl;
    var s' := Receive(s, at, evicted, config);
    var c' := AfterResult(c, e.item, e.result, at, ttl, evicted);
    ReadyFields(s, at, evicted, config);
    ReadyIsExact(steps, config, s, at, evicted);
    DrainIs(s.loop.queue, c', s'.inserted, s.epoch, at, ttl);
    DrainAnswers(s.loop.queue, c', s'.inserted, s.epoch, at, ttl, n);
    assert s.dispatched + [] == s.dispatched;
  }

  /** A worker's event, told by what it drains. */
  lemma ReadyFields(s: Sys, at: Time, evicted: set<Item>, config: Config)
    requires s.channel != [] && s.channel[0].WorkerReady?
    ensures
      var s', e := Receive(s, at, evicted, config), s.channel[0];
      var d := Drain(s.loop.queue, AfterResult(s.loop.cache, e.item, e.result, at, config.ttl, evicted), at);
      && s'.answers == s.answers + CacheAnswers(d.replies, at, s.epoch) && s'.dispatched == s.dispatched + Opt(d.first)
      && s'.loop.queue == d.rest && s'.loop.active == if d.first.None? then s.loop.active - 1 else s.loop.active
  {
    hide Drain, Insert, CacheAnswers, AfterEffect;
    assert s.dispatched + [] == s.dispatched;
  }

  lemma ReadyIsExact(steps: seq<Step>, config: Config, s: Sys, at: Time, evicted: set<Item>)
    requires Reaches(INITIAL, steps, config, s) && Enabled(s, LoopReceives(at, evicted)) && s.channel[0].WorkerReady?
    ensures
      var e := s.channel[0];
      Exact(AfterResult(s.loop.cache, e.item, e.result, at, config.ttl, evicted), Receive(s, at, evicted, config).inserted, s.epoch, at, config.ttl)
  {
    hide Insert, Exact, Reaches, Handle;
    var e := s.channel[0];
    ReachedComplete(steps, config, s);
    TimePasses(s.loop.cache, s.inserted, s.epoch, s.now, at, config.ttl);
    assert s.inserted + [] == s.inserted;
    if e.result.Some? {
      InsertKeepsExact(s.loop.cache, e.item, e.result.value, s.inserted, s.epoch, at, config.ttl, evicted);
    }
  }
}
