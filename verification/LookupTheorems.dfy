/** What the lookup dispatcher promises in every run. */
module LookupTheorems {
  import opened Prelude
  import opened LookupCaches
  import opened Dispatcher
  import opened LookupSystem
  import opened LookupProofs

  /** The slot counter is the number of workers that still owe an event, and stays between zero and the limit. */
  lemma SlotsAreWorkers(steps: seq<Step>, config: Config, s: Sys)
    requires Reaches(INITIAL, steps, config, s) && !s.loop.stopped
    ensures s.loop.active == Busy(s.workers) + Owed(s.channel)
    ensures 0 <= s.loop.active <= config.maxConcurrent
    ensures s.loop.queue != [] ==> s.loop.active == config.maxConcurrent
  {
    ReachableInvariant(steps, config, s);
  }

  /** Until the loop stops, every submitted lookup is in exactly one place, and no other lookup is anywhere. */
  lemma EachLookupInOnePlace(steps: seq<Step>, config: Config, s: Sys, ticket: nat)
    requires Reaches(INITIAL, steps, config, s) && !s.loop.stopped
    ensures Occurs(Asked(s.channel), ticket) + Occurs(s.loop.queue, ticket) + Held(s.workers, ticket)
            + Occurs(Answered(s.answers), ticket) + Occurs(s.failed, ticket)
         == if ticket < s.submitted then 1 else 0
  {
    ReachableInvariant(steps, config, s);
    assert Places(s, ticket) == if ticket < s.submitted then 1 else 0;
  }

  /** Lookups that the cache does not answer reach workers in the order in which they were submitted. */
  lemma ArrivalOrder(steps: seq<Step>, config: Config, s: Sys, i: nat, j: nat)
    requires Reaches(INITIAL, steps, config, s) && !s.loop.stopped
    requires i < j < |s.dispatched| + |s.loop.queue|
    ensures (s.dispatched + s.loop.queue)[i].ticket < (s.dispatched + s.loop.queue)[j].ticket
  {
    hide Reaches, CacheSound, OffersWait, SlotsCounted, Conserved, Line;
    ReachableInvariant(steps, config, s);
    LineAt(s, i);
    LineAt(s, j);
  }

  lemma LineAt(s: Sys, i: nat)
    requires i < |s.dispatched| + |s.loop.queue|
    ensures i < |Line(s)| && Line(s)[i] == (s.dispatched + s.loop.queue)[i].ticket
  {
  }

  /** An answer from the cache was given by a worker for an equal item and inserted in the same epoch within its time to live. */
  lemma CacheAnswersAreJustified(steps: seq<Step>, config: Config, s: Sys, i: nat) returns (k: nat)
    requires Reaches(INITIAL, steps, config, s) && i < |s.answers| && s.answers[i].FromCache?
    ensures k < |s.inserted|
    ensures
      var a, ins := s.answers[i], s.inserted[k];
      && ins.item == a.lookup.item && ins.answer == a.answer && ins.epoch == a.epoch
      && ins.at <= a.at <= ins.at + (if a.answer then config.ttl.pos else config.ttl.neg)
      && Given(a.lookup.item, a.answer) in s.given
  {
    ReachableInvariant(steps, config, s);
    var a := s.answers[i];
    assert Justified(s.inserted, a.lookup.item, a.answer, a.at, a.epoch, config.ttl);
    k :| 0 <= k < |s.inserted| && s.inserted[k].item == a.lookup.item && s.inserted[k].answer == a.answer
         && s.inserted[k].epoch == a.epoch
         && s.inserted[k].at <= a.at <= s.inserted[k].at + (if a.answer then config.ttl.pos else config.ttl.neg);
  }

  // ----- The loop drains -----

  /** Queue length plus active count falls whenever the loop receives a worker event. */
  lemma WorkerEventLightens(s: Sys, at: Time, evicted: set<Item>, config: Config)
    requires Enabled(s, LoopReceives(at, evicted)) && (s.channel[0].WorkerReady? || s.channel[0].WorkerFailed?)
    ensures
      var s' := Receive(s, at, evicted, config);
      |s'.loop.queue| + s'.loop.active < |s.loop.queue| + s.loop.active
  {
    var e := s.channel[0];
    if e.WorkerReady? {
      DrainSplits(s.loop.queue, AfterResult(s.loop.cache, e.item, e.result, at, config.ttl, evicted), at);
    }
  }

  predicate Internal(step: Step) {
    step.LoopReceives? || step.WorkerAnswers? || step.WorkerFails?
  }

  function EventWeight(es: seq<Event>): nat {
    if es == [] then 0 else (if es[0].Ask? then 4 else 1) + EventWeight(es[1..])
  }

  /** Bounds how many more steps can happen without new requests. */
  function Weight(s: Sys): nat {
    3 * |s.loop.queue| + 2 * Busy(s.workers) + EventWeight(s.channel)
  }

  lemma {:induction false} EventWeightAppend(es: seq<Event>, e: Event)
    ensures EventWeight(es + [e]) == EventWeight(es) + if e.Ask? then 4 else 1
  {
    if es == [] {
      assert (es + [e])[1..] == [];
    } else {
      assert (es + [e])[1..] == es[1..] + [e];
      EventWeightAppend(es[1..], e);
    }
  }

  lemma ReceiveLightens(s: Sys, at: Time, evicted: set<Item>, config: Config)
    requires Enabled(s, LoopReceives(at, evicted)) && OffersWait(s)
    ensures Weight(Receive(s, at, evicted, config)) < Weight(s)
  {
    hide Busy, AfterEffect, Drain, Held, Find;
    var e := s.channel[0];
    var (l, f) := Handle(s.loop, e, at, config, evicted);
    EffectHeld(s, f, 0);
    if e.WorkerReady? {
      DrainSplits(s.loop.queue, AfterResult(s.loop.cache, e.item, e.result, at, config.ttl, evicted), at);
    }
  }

  lemma InternalStepLightens(s: Sys, step: Step, config: Config)
    requires Invariant(s, config) && Enabled(s, step) && Internal(step)
    ensures Weight(Next(s, step, config)) < Weight(s)
  {
    hide Busy, CacheSound, Conserved, Ordered, SlotsCounted, OffersWait, Receive, EventWeight;
    if step.LoopReceives? {
      ReceiveLightens(s, step.at, step.evicted, config);
    } else {
      var s' := Next(s, step, config);
      WorkerUpdate(s.workers, step.worker, s'.workers[step.worker], 0);
      assert s'.workers == s.workers[step.worker := s'.workers[step.worker]];
      EventWeightAppend(s.channel, s'.channel[|s.channel|]);
    }
  }

  /** Without new requests, a run is no longer than the weight of its first state. */
  lemma {:induction false} InternalRunsEnd(s: Sys, steps: seq<Step>, config: Config, s': Sys)
    requires Invariant(s, config) && Reaches(s, steps, config, s') && forall i | 0 <= i < |steps| :: Internal(steps[i])
    ensures Invariant(s', config) && |steps| + Weight(s') <= Weight(s)
    decreases |steps|
  {
    hide Invariant, Next, Enabled, Weight;
    if steps != [] {
      var last := |steps| - 1;
      var m :| Reaches(s, steps[..last], config, m) && Enabled(m, steps[last]) && s' == Next(m, steps[last], config);
      InternalRunsEnd(s, steps[..last], config, m);
      InternalStepLightens(m, steps[last], config);
      StepKeeps(m, steps[last], config);
    }
  }

  ghost predicate Quiescent(s: Sys) {
    forall step | Internal(step) :: !Enabled(s, step)
  }

  /** A reachable state of the running loop in which nothing more happens unless someone asks. */
  ghost predicate Settles(steps: seq<Step>, config: Config, s: Sys) {
    Reaches(INITIAL, steps, config, s) && !s.loop.stopped && Quiescent(s)
  }

  /** Every submitted lookup has been answered or has failed, and no slot is taken. */
  ghost predicate AllDone(s: Sys) {
    && s.loop.queue == [] && s.loop.active == 0
    && forall ticket: nat :: Occurs(Answered(s.answers), ticket) + Occurs(s.failed, ticket) == if ticket < s.submitted then 1 else 0
  }

  lemma QuiescentWorkers(ws: seq<Worker>, ticket: nat)
    requires forall i | 0 <= i < |ws| :: !ws[i].Holding?
    ensures Busy(ws) == 0 && Held(ws, ticket) == 0
  {
  }

  lemma QuiescentIsDone(s: Sys, config: Config)
    requires Invariant(s, config) && !s.loop.stopped && Quiescent(s) && config.maxConcurrent >= 1
    ensures AllDone(s)
  {
    hide CacheSound, Ordered, OffersWait, Answered;
    assert s.channel == [] by {
      assert !Enabled(s, LoopReceives(s.now, {}));
    }
    forall w | 0 <= w < |s.workers| ensures !s.workers[w].Holding? {
      assert !Enabled(s, WorkerFails(w));
    }
    QuiescentWorkers(s.workers, 0);
    forall ticket: nat
      ensures Occurs(Answered(s.answers), ticket) + Occurs(s.failed, ticket) == if ticket < s.submitted then 1 else 0
    {
      QuiescentWorkers(s.workers, ticket);
      assert Places(s, ticket) == if ticket < s.submitted then 1 else 0;
    }
  }

  /** When nothing more can happen all lookups are done, if and only if at least one worker is allowed. */
  lemma DrainsIffSomeWorker(config: Config)
    ensures config.maxConcurrent >= 1 <==>
      (forall steps, s | Settles(steps, config, s) :: AllDone(s))
  {
    if config.maxConcurrent >= 1 {
      forall steps, s | Settles(steps, config, s)
        ensures AllDone(s)
      {
        ReachableInvariant(steps, config, s);
        QuiescentIsDone(s, config);
      }
    } else {
      var steps, s := StuckRun(config);
    }
  }

  /** With no worker allowed, the first lookup stays in the queue. */
  lemma StuckRun(config: Config) returns (steps: seq<Step>, s: Sys)
    requires config.maxConcurrent == 0
    ensures Settles(steps, config, s) && !AllDone(s)
  {
    var item := IsAccount("a");
    var a, b := Submit(item), LoopReceives(0, {});
    var s1 := Next(INITIAL, a, config);
    assert Enabled(s1, b);
    s := Next(s1, b, config);
    steps := [a, b];
    assert steps[..1] == [a] && [a][..0] == [];
    assert Reaches(INITIAL, [], config, INITIAL);
    assert Reaches(INITIAL, [a], config, s1);
    assert s1.channel == [Ask(Lookup(0, item))];
    assert s.channel == [] && s.workers == [] && s.loop.queue == [Lookup(0, item)];
  }
}
