/** Every reachable state of the lookup system keeps its slots, its lookups, their order and its cache in order. */
module LookupProofs {
  import opened Prelude
  import opened LookupCaches
  import opened Dispatcher
  import opened LookupSystem

  // ----- Counting -----

  lemma ChannelAppend(es: seq<Event>, e: Event)
    ensures Asked(es + [e]) == Asked(es) + if e.Ask? then [e.lookup] else []
    ensures Owed(es + [e]) == Owed(es) + if e.WorkerReady? || e.WorkerFailed? then 1 else 0
  {
    AskedAppend(es, e);
    OwedAppend(es, e);
  }

  lemma {:induction false} AskedAppend(es: seq<Event>, e: Event)
    ensures Asked(es + [e]) == Asked(es) + if e.Ask? then [e.lookup] else []
  {
    if es == [] {
      assert (es + [e])[1..] == [];
    } else {
      AskedAppend(es[1..], e);
      var head, last := if es[0].Ask? then [es[0].lookup] else [], if e.Ask? then [e.lookup] else [];
      assert (es + [e])[0] == es[0] && (es + [e])[1..] == es[1..] + [e];
      assert Asked(es + [e]) == head + (Asked(es[1..]) + last);
    }
  }

  lemma {:induction false} OwedAppend(es: seq<Event>, e: Event)
    ensures Owed(es + [e]) == Owed(es) + if e.WorkerReady? || e.WorkerFailed? then 1 else 0
  {
    if es == [] {
      assert (es + [e])[1..] == [];
    } else {
      assert (es + [e])[1..] == es[1..] + [e];
      OwedAppend(es[1..], e);
    }
  }

  lemma {:induction false} WorkerUpdate(ws: seq<Worker>, i: nat, w: Worker, ticket: nat)
    requires i < |ws|
    ensures Held(ws[i := w], ticket) == Held(ws, ticket) - HeldBy(ws[i], ticket) + HeldBy(w, ticket)
    ensures Busy(ws[i := w]) == Busy(ws) - (if ws[i].Holding? then 1 else 0) + (if w.Holding? then 1 else 0)
  {
    if i == 0 {
      assert ws[i := w][1..] == ws[1..];
    } else {
      assert ws[i := w][1..] == ws[1..][i - 1 := w];
      WorkerUpdate(ws[1..], i - 1, w, ticket);
    }
  }

  lemma {:induction false} WorkerAppend(ws: seq<Worker>, w: Worker, ticket: nat)
    ensures Held(ws + [w], ticket) == Held(ws, ticket) + HeldBy(w, ticket)
    ensures Busy(ws + [w]) == Busy(ws) + if w.Holding? then 1 else 0
  {
    if ws == [] {
      assert (ws + [w])[1..] == [];
    } else {
      assert (ws + [w])[1..] == ws[1..] + [w];
      WorkerAppend(ws[1..], w, ticket);
    }
  }

  lemma {:induction false} OccursAppend(a: seq<Lookup>, b: seq<Lookup>, ticket: nat)
    ensures Occurs(a + b, ticket) == Occurs(a, ticket) + Occurs(b, ticket)
  {
    if a == [] {
      assert a + b == b;
    } else {
      assert (a + b)[1..] == a[1..] + b;
      OccursAppend(a[1..], b, ticket);
    }
  }

  lemma TicketsAppend(a: seq<Lookup>, b: seq<Lookup>)
    ensures Tickets(a + b) == Tickets(a) + Tickets(b)
  {
  }

  lemma AnsweredAppend(a: seq<Answer>, b: seq<Answer>)
    ensures Answered(a + b) == Answered(a) + Answered(b)
  {
  }

  function Lookups(replies: seq<Reply>): seq<Lookup> {
    seq(|replies|, i requires 0 <= i < |replies| => replies[i].lookup)
  }

  lemma LookupsCons(r: Reply, rs: seq<Reply>)
    ensures Lookups([r] + rs) == [r.lookup] + Lookups(rs)
  {
  }

  /** Popping takes an initial part of the queue: the answered ones, then the one for the worker. */
  lemma {:induction false} DrainSplits(queue: seq<Lookup>, c: Cache, now: Time)
    ensures
      var d := Drain(queue, c, now);
      queue == Lookups(d.replies) + Opt(d.first) + d.rest && (d.first.None? ==> d.rest == [])
  {
    hide Lookups, Find, AfterFind;
    if queue == [] {
      assert Lookups([]) == [] by { LookupsNone(); }
    } else if Find(c, queue[0].item, now).Some? {
      var d := Drain(queue[1..], AfterFind(c, queue[0].item, now), now);
      DrainSplits(queue[1..], AfterFind(c, queue[0].item, now), now);
      LookupsCons(Reply(queue[0], Find(c, queue[0].item, now).value), d.replies);
      assert queue == [queue[0]] + (Lookups(d.replies) + Opt(d.first) + d.rest);
    } else {
      LookupsNone();
      assert queue == [] + [queue[0]] + queue[1..];
    }
  }

  lemma LookupsNone()
    ensures Lookups([]) == []
  {
  }

  /** The workers after an event: the offering one holds what was handed over, a new one holds what was started. */
  lemma EffectHeld(s: Sys, f: Effect, ticket: nat)
    requires s.channel != [] && OffersWait(s)
    requires f.handedOver.Some? ==> s.channel[0].WorkerReady? && s.channel[0].next.Some?
    ensures
      var ws := AfterEffect(s.workers, s.channel[0], f);
      && Held(ws, ticket) == Held(s.workers, ticket) + Occurs(Opt(f.started), ticket) + Occurs(Opt(f.handedOver), ticket)
      && Busy(ws) == Busy(s.workers) + |Opt(f.started)| + |Opt(f.handedOver)|
  {
    hide Held, Busy;
    var e := s.channel[0];
    var ws := s.workers;
    if e.WorkerReady? && e.next.Some? {
      var w := if f.handedOver.Some? then Holding(f.handedOver.value) else if f.released then Gone else ws[e.next.value];
      WorkerUpdate(ws, e.next.value, w, ticket);
      ws := ws[e.next.value := w];
    }
    if f.started.Some? {
      WorkerAppend(ws, Holding(f.started.value), ticket);
    } else {
      assert ws + [] == ws;
    }
    OptOccurs(f.started, ticket);
    OptOccurs(f.handedOver, ticket);
  }

  lemma OptOccurs(l: Option<Lookup>, ticket: nat)
    ensures Occurs(Opt(l), ticket) == if l.Some? && l.value.ticket == ticket then 1 else 0
  {
  }

  lemma OptTickets(l: Option<Lookup>)
    ensures Tickets(Opt(l)) == if l.Some? then [l.value.ticket] else []
  {
  }

  lemma RepliesAnswer(replies: seq<Reply>, at: Time, epoch: nat)
    ensures Answered(CacheAnswers(replies, at, epoch)) == Lookups(replies)
  {
  }

  // ----- One received event -----

  function Incoming(e: Event): seq<Lookup> {
    if e.Ask? then [e.lookup] else []
  }

  /** Nothing is lost or invented: what was in the queue and in the event is answered, with a worker or queued. */
  lemma ReceiveMoves(s: Sys, at: Time, config: Config, evicted: set<Item>, ticket: nat)
    requires s.channel != [] && !s.channel[0].Stop?
    ensures
      var e := s.channel[0];
      var (l, f) := Handle(s.loop, e, at, config, evicted);
      && Occurs(s.loop.queue, ticket) + Occurs(Incoming(e), ticket)
         == Occurs(Lookups(f.replies), ticket) + Occurs(Opt(f.started), ticket) + Occurs(Opt(f.handedOver), ticket) + Occurs(l.queue, ticket)
      && (f.handedOver.Some? ==> e.WorkerReady? && e.next.Some?)
  {
    hide Drain, Occurs, Find, AfterFind, AfterResult;
    var e, q := s.channel[0], s.loop.queue;
    var (l, f) := Handle(s.loop, e, at, config, evicted);
    NoOccurrence(ticket);
    match e
    case Ask(lookup) =>
      OccursAppend(q, [lookup], ticket);
      assert f.replies != [] ==> Lookups(f.replies) == [lookup];
      assert f.replies == [] ==> Lookups(f.replies) == [];
    case WorkerReady(_, _, _) =>
      DrainSplits(q, AfterResult(s.loop.cache, e.item, e.result, at, config.ttl, evicted), at);
      var first := if e.next.Some? then f.handedOver else f.started;
      OccursAppend(Lookups(f.replies) + Opt(first), l.queue, ticket);
      OccursAppend(Lookups(f.replies), Opt(first), ticket);
    case WorkerFailed =>
      assert Lookups(f.replies) == [];
      if q != [] {
        assert q == [q[0]] + q[1..];
        OccursAppend([q[0]], q[1..], ticket);
      }
    case Reload =>
      assert Lookups(f.replies) == [];
  }

  lemma NoOccurrence(ticket: nat)
    ensures Occurs([], ticket) == 0
  {
  }

  lemma ReceiveConserves(s: Sys, at: Time, evicted: set<Item>, config: Config)
    requires s.channel != [] && !s.channel[0].Stop? && OffersWait(s) && Conserved(s)
    ensures Conserved(Receive(s, at, evicted, config))
  {
    hide Handle, Held, Busy, AfterEffect, CacheAnswers, Occurs, Answered;
    var e := s.channel[0];
    var (l, f) := Handle(s.loop, e, at, config, evicted);
    forall ticket: nat
      ensures Places(Receive(s, at, evicted, config), ticket) == Places(s, ticket)
    {
      ReceiveMoves(s, at, config, evicted, ticket);
      EffectHeld(s, f, ticket);
      RepliesAnswer(f.replies, at, s.epoch);
      AnsweredAppend(s.answers, CacheAnswers(f.replies, at, s.epoch));
      OccursAppend(Answered(s.answers), Lookups(f.replies), ticket);
      OccursAppend(Incoming(e), Asked(s.channel[1..]), ticket);
    }
  }

  lemma ReceiveSlots(s: Sys, at: Time, evicted: set<Item>, config: Config)
    requires s.channel != [] && !s.channel[0].Stop? && OffersWait(s) && SlotsCounted(s, config)
    ensures SlotsCounted(Receive(s, at, evicted, config), config)
  {
    hide Held, Busy, AfterEffect, Drain;
    var e := s.channel[0];
    var (l, f) := Handle(s.loop, e, at, config, evicted);
    EffectHeld(s, f, 0);
    if e.WorkerReady? {
      DrainSplits(s.loop.queue, AfterResult(s.loop.cache, e.item, e.result, at, config.ttl, evicted), at);
    }
  }

  lemma ReceiveOffers(s: Sys, at: Time, evicted: set<Item>, config: Config)
    requires s.channel != [] && OffersWait(s)
    ensures OffersWait(Receive(s, at, evicted, config))
  {
    hide Handle;
    var s' := Receive(s, at, evicted, config);
    forall i | 0 <= i < |s'.channel| ensures s'.channel[i] == s.channel[i + 1] {
    }
  }

  // ----- Arrival order -----

  lemma IncreasingPart(a: seq<nat>, cut: seq<nat>, b: seq<nat>)
    requires Increasing(a + cut + b)
    ensures Increasing(a + b)
  {
    var whole, part := a + cut + b, a + b;
    forall i, j | 0 <= i < j < |part| ensures part[i] < part[j] {
      var i', j' := if i < |a| then i else i + |cut|, if j < |a| then j else j + |cut|;
      assert part[i] == whole[i'] && part[j] == whole[j'];
    }
  }

  /** Leaving out answered lookups keeps the line in order. */
  lemma OrderedWithout(s: Sys, s': Sys, a: seq<nat>, cut: seq<nat>, b: seq<nat>)
    requires Ordered(s) && Line(s) == a + cut + b && Line(s') == a + b && s'.submitted >= s.submitted
    ensures Ordered(s')
  {
    IncreasingPart(a, cut, b);
    forall i | 0 <= i < |a + b| ensures (a + b)[i] < s'.submitted {
      var i' := if i < |a| then i else i + |cut|;
      assert (a + b)[i] == (a + cut + b)[i'];
    }
  }

  lemma Regroup(d: seq<nat>, x: seq<nat>, y: seq<nat>, rest: seq<nat>, a: seq<nat>, cut: seq<nat>, b: seq<nat>)
    requires x + y == a + cut + b
    ensures d + x + (y + rest) == (d + a) + cut + (b + rest)
  {
    assert d + x + (y + rest) == d + (x + y) + rest;
    assert (d + a) + cut + (b + rest) == d + (a + cut + b) + rest;
  }

  /** The line before and after an event, given what the event takes out of it. */
  lemma LinesOf(s: Sys, at: Time, evicted: set<Item>, config: Config, a: seq<nat>, cut: seq<nat>, b: seq<nat>)
    requires s.channel != [] && !s.channel[0].Stop?
    requires var (l, f) := Handle(s.loop, s.channel[0], at, config, evicted); CutsLine(s, l, f, a, cut, b)
    ensures
      var d, rest := Tickets(s.dispatched), Tickets(Asked(s.channel[1..]));
      && Line(s) == (d + a) + cut + (b + rest)
      && Line(Receive(s, at, evicted, config)) == (d + a) + (b + rest)
  {
    hide Handle, Tickets, AfterEffect, CacheAnswers;
    var e := s.channel[0];
    var (l, f) := Handle(s.loop, e, at, config, evicted);
    var d, rest := Tickets(s.dispatched), Tickets(Asked(s.channel[1..]));
    var started, over, queue := Tickets(Opt(f.started)), Tickets(Opt(f.handedOver)), Tickets(l.queue);
    TicketsAppend(Incoming(e), Asked(s.channel[1..]));
    TicketsAppend(s.dispatched, Opt(f.started));
    TicketsAppend(s.dispatched + Opt(f.started), Opt(f.handedOver));
    Regroup(d, Tickets(s.loop.queue), Tickets(Incoming(e)), rest, a, cut, b);
    assert a + [] + b == a + b;
    assert (started + over) + queue == a + b;
    Regroup(d, started + over, queue, rest, a, [], b);
    assert d + started + over + queue + rest == d + (started + over) + (queue + rest);
    assert (d + a) + [] + (b + rest) == (d + a) + (b + rest);
  }

  lemma ReceiveOrdered(s: Sys, at: Time, evicted: set<Item>, config: Config)
    requires s.channel != [] && !s.channel[0].Stop? && SlotsCounted(s, config) && Ordered(s)
    ensures Ordered(Receive(s, at, evicted, config))
  {
    hide Handle, Tickets, Increasing, AfterEffect, CacheAnswers, Line, CutsLine, Asked;
    var a, cut, b := ReceiveLine(s, at, evicted, config);
    LinesOf(s, at, evicted, config, a, cut, b);
    var d, rest := Tickets(s.dispatched), Tickets(Asked(s.channel[1..]));
    OrderedWithout(s, Receive(s, at, evicted, config), d + a, cut, b + rest);
  }

  /** `a + b` is what stays in the line when `cut` is answered from the cache. */
  predicate CutsLine(s: Sys, l: Loop, f: Effect, a: seq<nat>, cut: seq<nat>, b: seq<nat>)
    requires s.channel != []
  {
    && Tickets(s.loop.queue) + Tickets(Incoming(s.channel[0])) == a + cut + b
    && Tickets(Opt(f.started)) + Tickets(Opt(f.handedOver)) + Tickets(l.queue) == a + b
  }

  lemma AskLine(s: Sys, at: Time, evicted: set<Item>, config: Config) returns (a: seq<nat>, cut: seq<nat>, b: seq<nat>)
    requires s.channel != [] && s.channel[0].Ask? && SlotsCounted(s, config)
    ensures var (l, f) := Handle(s.loop, s.channel[0], at, config, evicted); CutsLine(s, l, f, a, cut, b)
  {
    hide Drain, Held, Busy, Find, AfterFind, AfterResult, Owed;
    var q, lookup := s.loop.queue, s.channel[0].lookup;
    var (l, f) := Handle(s.loop, s.channel[0], at, config, evicted);
    TicketsAppend(q, [lookup]);
    OptTickets(f.started);
    OptTickets(f.handedOver);
    if f.replies != [] {
      a, cut, b := Tickets(q), Tickets([lookup]), [];
    } else {
      a, cut, b := [], [], Tickets(q + [lookup]);
      assert f.started.Some? ==> q == [];
    }
  }

  lemma ReadyLine(s: Sys, at: Time, evicted: set<Item>, config: Config) returns (a: seq<nat>, cut: seq<nat>, b: seq<nat>)
    requires s.channel != [] && s.channel[0].WorkerReady?
    ensures var (l, f) := Handle(s.loop, s.channel[0], at, config, evicted); CutsLine(s, l, f, a, cut, b)
  {
    hide Drain, Held, Busy, Find, AfterFind, AfterResult, Owed, Lookups, Tickets;
    var e, q := s.channel[0], s.loop.queue;
    var (l, f) := Handle(s.loop, e, at, config, evicted);
    OptTickets(None);
    DrainSplits(q, AfterResult(s.loop.cache, e.item, e.result, at, config.ttl, evicted), at);
    var first := if e.next.Some? then f.handedOver else f.started;
    TicketsAppend(Lookups(f.replies) + Opt(first), l.queue);
    TicketsAppend(Lookups(f.replies), Opt(first));
    a, cut, b := [], Tickets(Lookups(f.replies)), Tickets(Opt(first)) + Tickets(l.queue);
  }

  lemma FailedLine(s: Sys, at: Time, evicted: set<Item>, config: Config) returns (a: seq<nat>, cut: seq<nat>, b: seq<nat>)
    requires s.channel != [] && (s.channel[0].WorkerFailed? || s.channel[0].Reload?)
    ensures var (l, f) := Handle(s.loop, s.channel[0], at, config, evicted); CutsLine(s, l, f, a, cut, b)
  {
    hide Drain, Held, Busy, Find, AfterFind, AfterResult, Owed, Tickets;
    var q := s.loop.queue;
    var (l, f) := Handle(s.loop, s.channel[0], at, config, evicted);
    OptTickets(None);
    assert Opt(None) == [];
    a, cut, b := [], [], Tickets(q);
    if s.channel[0].WorkerFailed? && q != [] {
      assert q == [q[0]] + q[1..] && Opt(Some(q[0])) == [q[0]];
      TicketsAppend([q[0]], q[1..]);
    }
  }

  /** An event takes one stretch, the lookups answered from the cache, out of the line. */
  lemma ReceiveLine(s: Sys, at: Time, evicted: set<Item>, config: Config) returns (a: seq<nat>, cut: seq<nat>, b: seq<nat>)
    requires s.channel != [] && !s.channel[0].Stop? && SlotsCounted(s, config)
    ensures var (l, f) := Handle(s.loop, s.channel[0], at, config, evicted); CutsLine(s, l, f, a, cut, b)
  {
    hide Handle, CutsLine, SlotsCounted;
    match s.channel[0]
    case Ask(_) => a, cut, b := AskLine(s, at, evicted, config);
    case WorkerReady(_, _, _) => a, cut, b := ReadyLine(s, at, evicted, config);
    case WorkerFailed => a, cut, b := FailedLine(s, at, evicted, config);
    case Reload => a, cut, b := FailedLine(s, at, evicted, config);
  }

  lemma EntryLater(inserted: seq<Inserted>, more: seq<Inserted>, item: Item, answer: bool, until: Time, epoch: nat, now: Time, later: Time, ttl: Ttl)
    requires Entry(inserted, item, answer, until, epoch, now, ttl) && now <= later
    ensures Entry(inserted + more, item, answer, until, epoch, later, ttl)
  {
    var k :| 0 <= k < |inserted| && inserted[k].item == item && inserted[k].answer == answer && inserted[k].epoch == epoch
             && inserted[k].at <= now && until == inserted[k].at + if answer then ttl.pos else ttl.neg;
    assert (inserted + more)[k] == inserted[k];
  }

  lemma BackedLater(c: Cache, inserted: seq<Inserted>, more: seq<Inserted>, epoch: nat, now: Time, later: Time, ttl: Ttl)
    requires Backed(c, inserted, epoch, now, ttl) && now <= later
    ensures Backed(c, inserted + more, epoch, later, ttl)
  {
    hide Entry;
    forall item | item in c.pos ensures Entry(inserted + more, item, true, c.pos[item], epoch, later, ttl) {
      EntryLater(inserted, more, item, true, c.pos[item], epoch, now, later, ttl);
    }
    forall item | item in c.neg ensures Entry(inserted + more, item, false, c.neg[item], epoch, later, ttl) {
      EntryLater(inserted, more, item, false, c.neg[item], epoch, now, later, ttl);
    }
  }

  lemma JustifiedLater(inserted: seq<Inserted>, more: seq<Inserted>, item: Item, answer: bool, at: Time, epoch: nat, ttl: Ttl)
    requires Justified(inserted, item, answer, at, epoch, ttl)
    ensures Justified(inserted + more, item, answer, at, epoch, ttl)
  {
    var k :| 0 <= k < |inserted| && inserted[k].item == item && inserted[k].answer == answer && inserted[k].epoch == epoch
             && inserted[k].at <= at <= inserted[k].at + if answer then ttl.pos else ttl.neg;
    assert (inserted + more)[k] == inserted[k];
  }

  /** An answer found in a backed cache is justified at the time of the search. */
  lemma FoundIsJustified(c: Cache, item: Item, inserted: seq<Inserted>, epoch: nat, now: Time, ttl: Ttl)
    requires Backed(c, inserted, epoch, now, ttl) && Find(c, item, now).Some?
    ensures Justified(inserted, item, Find(c, item, now).value, now, epoch, ttl)
  {
    var answer := Find(c, item, now).value;
    var until := if answer then c.pos[item] else c.neg[item];
    assert Entry(inserted, item, answer, until, epoch, now, ttl);
    var k :| 0 <= k < |inserted| && inserted[k].item == item && inserted[k].answer == answer && inserted[k].epoch == epoch
             && inserted[k].at <= now && until == inserted[k].at + if answer then ttl.pos else ttl.neg;
  }

  lemma InsertBacked(c: Cache, item: Item, answer: bool, inserted: seq<Inserted>, epoch: nat, now: Time, ttl: Ttl, evicted: set<Item>)
    requires Backed(c, inserted, epoch, now, ttl)
    ensures Backed(Insert(c, item, answer, now, ttl, evicted), inserted + [Inserted(item, answer, now, epoch, evicted)], epoch, now, ttl)
  {
    var log := inserted + [Inserted(item, answer, now, epoch, evicted)];
    BackedLater(c, inserted, [Inserted(item, answer, now, epoch, evicted)], epoch, now, now, ttl);
    assert log[|inserted|] == Inserted(item, answer, now, epoch, evicted);
    assert Entry(log, item, answer, now + if answer then ttl.pos else ttl.neg, epoch, now, ttl);
    hide Entry;
  }

  lemma {:induction false} DrainBacked(queue: seq<Lookup>, c: Cache, inserted: seq<Inserted>, epoch: nat, now: Time, ttl: Ttl)
    requires Backed(c, inserted, epoch, now, ttl)
    ensures
      var d := Drain(queue, c, now);
      && Backed(d.cache, inserted, epoch, now, ttl)
      && (forall i | 0 <= i < |d.replies| ::
            Justified(inserted, d.replies[i].lookup.item, d.replies[i].answer, now, epoch, ttl))
  {
    hide Entry, Justified;
    if queue != [] {
      var c' := AfterFind(c, queue[0].item, now);
      assert Backed(c', inserted, epoch, now, ttl);
      if Find(c, queue[0].item, now).Some? {
        FoundIsJustified(c, queue[0].item, inserted, epoch, now, ttl);
        DrainBacked(queue[1..], c', inserted, epoch, now, ttl);
      }
    }
  }

  /** The cache and all answers served from it after one received event. */
  lemma HandleBacked(s: Sys, at: Time, evicted: set<Item>, config: Config)
    requires s.channel != [] && s.now <= at && Backed(s.loop.cache, s.inserted, s.epoch, s.now, config.ttl)
    ensures
      var s' := Receive(s, at, evicted, config);
      var (_, f) := Handle(s.loop, s.channel[0], at, config, evicted);
      && Backed(s'.loop.cache, s'.inserted, s'.epoch, s'.now, config.ttl)
      && (forall i | 0 <= i < |f.replies| ::
            Justified(s'.inserted, f.replies[i].lookup.item, f.replies[i].answer, at, s.epoch, config.ttl))
  {
    hide Entry, Justified, AfterEffect, CacheAnswers, Drain, Find;
    var c, e, ttl := s.loop.cache, s.channel[0], config.ttl;
    assert s.inserted + [] == s.inserted;
    BackedLater(c, s.inserted, [], s.epoch, s.now, at, ttl);
    match e
    case Ask(lookup) =>
      if Find(c, lookup.item, at).Some? {
        FoundIsJustified(c, lookup.item, s.inserted, s.epoch, at, ttl);
      }
    case WorkerReady(item, result, _) =>
      var log := s.inserted;
      if result.Some? {
        InsertBacked(c, item, result.value, s.inserted, s.epoch, at, ttl, evicted);
        log := s.inserted + [Inserted(item, result.value, at, s.epoch, evicted)];
      }
      DrainBacked(s.loop.queue, AfterResult(c, item, result, at, ttl, evicted), log, s.epoch, at, ttl);
    case _ =>
  }

  lemma ReceiveCache(s: Sys, at: Time, evicted: set<Item>, config: Config)
    requires s.channel != [] && s.now <= at && CacheSound(s, config.ttl)
    ensures CacheSound(Receive(s, at, evicted, config), config.ttl)
  {
    hide Entry, Justified, AfterEffect, Handle, Backed;
    var s' := Receive(s, at, evicted, config);
    HandleBacked(s, at, evicted, config);
    var more := s'.inserted[|s.inserted|..];
    assert s'.inserted == s.inserted + more;
    forall i | 0 <= i < |s'.answers| && s'.answers[i].FromCache?
      ensures Justified(s'.inserted, s'.answers[i].lookup.item, s'.answers[i].answer, s'.answers[i].at, s'.answers[i].epoch, config.ttl)
    {
      if i < |s.answers| {
        var a := s.answers[i];
        JustifiedLater(s.inserted, more, a.lookup.item, a.answer, a.at, a.epoch, config.ttl);
      }
    }
    forall i | 0 <= i < |s'.channel| ensures s'.channel[i] == s.channel[i + 1] {
    }
  }

  // ----- All steps -----

  lemma ReceiveKeeps(s: Sys, at: Time, evicted: set<Item>, config: Config)
    requires Invariant(s, config) && Enabled(s, LoopReceives(at, evicted))
    ensures Invariant(Receive(s, at, evicted, config), config)
  {
    hide CacheSound, OffersWait, SlotsCounted, Conserved, Ordered, Receive;
    ReceiveCache(s, at, evicted, config);
    if s.channel[0].Stop? {
      StopStops(s, at, evicted, config);
    } else {
      ReceiveOffers(s, at, evicted, config);
      ReceiveSlots(s, at, evicted, config);
      ReceiveConserves(s, at, evicted, config);
      ReceiveOrdered(s, at, evicted, config);
    }
  }

  lemma StopStops(s: Sys, at: Time, evicted: set<Item>, config: Config)
    requires s.channel != [] && s.channel[0].Stop?
    ensures Receive(s, at, evicted, config).loop.stopped
  {
  }

  lemma OccursOne(l: Lookup, ticket: nat)
    ensures Occurs([l], ticket) == if l.ticket == ticket then 1 else 0
  {
    assert [l][1..] == [];
  }

  lemma SendConserves(s: Sys, step: Step, config: Config)
    requires Conserved(s) && (step.Submit? || step.Control?)
    ensures Conserved(Next(s, step, config))
  {
    hide Held, Answered, Occurs;
    var s' := Next(s, step, config);
    var e := s'.channel[|s.channel|];
    ChannelAppend(s.channel, e);
    forall ticket: nat
      ensures Places(s', ticket) == if ticket < s'.submitted then 1 else 0
    {
      assert Places(s, ticket) == if ticket < s.submitted then 1 else 0;
      OccursAppend(Asked(s.channel), Incoming(e), ticket);
      NoOccurrence(ticket);
      OccursOne(Lookup(s.submitted, if step.Submit? then step.item else IsAccount("")), ticket);
    }
  }

  lemma SendOrdered(s: Sys, step: Step, config: Config)
    requires Ordered(s) && (step.Submit? || step.Control?)
    ensures Ordered(Next(s, step, config))
  {
    var s' := Next(s, step, config);
    var e := s'.channel[|s.channel|];
    ChannelAppend(s.channel, e);
    TicketsAppend(Asked(s.channel), Incoming(e));
    assert Line(s') == Line(s) + Tickets(Incoming(e));
  }

  lemma SendKeeps(s: Sys, step: Step, config: Config)
    requires Invariant(s, config) && (step.Submit? || step.Control?)
    ensures Invariant(Next(s, step, config), config)
  {
    hide Conserved, Ordered, Busy, Justified, Backed, Owed;
    var s' := Next(s, step, config);
    ChannelAppend(s.channel, s'.channel[|s.channel|]);
    if !s.loop.stopped {
      SendConserves(s, step, config);
      SendOrdered(s, step, config);
    }
  }

  lemma WorkerKeepsConserved(s: Sys, step: Step, config: Config)
    requires Conserved(s) && (step.WorkerAnswers? || step.WorkerFails?) && Enabled(s, step)
    ensures Conserved(Next(s, step, config))
    ensures Busy(Next(s, step, config).workers) == Busy(s.workers) - 1
    ensures Owed(Next(s, step, config).channel) == Owed(s.channel) + 1
    ensures Asked(Next(s, step, config).channel) == Asked(s.channel)
  {
    hide Held, Busy, Answered, Occurs;
    var s', w := Next(s, step, config), step.worker;
    ChannelAppend(s.channel, s'.channel[|s.channel|]);
    WorkerUpdate(s.workers, w, s'.workers[w], 0);
    assert Asked(s'.channel) == Asked(s.channel);
    assert s'.workers == s.workers[w := s'.workers[w]];
    forall ticket: nat
      ensures Places(s', ticket) == Places(s, ticket)
    {
      WorkerUpdate(s.workers, w, s'.workers[w], ticket);
      var l := s.workers[w].lookup;
      OccursOne(l, ticket);
      if step.WorkerAnswers? {
        AnsweredAppend(s.answers, [FromWorker(l, step.result)]);
        AnsweredOne(l, step.result);
        assert s'.answers == s.answers + [FromWorker(l, step.result)] && s'.failed == s.failed;
        OccursAppend(Answered(s.answers), [l], ticket);
      } else {
        OccursAppend(s.failed, [l], ticket);
        assert s'.failed == s.failed + [l] && s'.answers == s.answers;
      }
    }
  }

  lemma AnsweredOne(l: Lookup, r: LookupResult)
    ensures Answered([FromWorker(l, r)]) == [l]
  {
  }

  lemma WorkerKeepsCache(s: Sys, step: Step, config: Config)
    requires CacheSound(s, config.ttl) && (step.WorkerAnswers? || step.WorkerFails?) && Enabled(s, step)
    ensures CacheSound(Next(s, step, config), config.ttl)
  {
    hide Justified, Backed;
  }

  lemma WorkerKeeps(s: Sys, step: Step, config: Config)
    requires Invariant(s, config) && (step.WorkerAnswers? || step.WorkerFails?) && Enabled(s, step)
    ensures Invariant(Next(s, step, config), config)
  {
    hide CacheSound, Conserved, Held, Busy, Owed, Asked;
    WorkerKeepsCache(s, step, config);
    if !s.loop.stopped {
      WorkerKeepsConserved(s, step, config);
      assert Line(Next(s, step, config)) == Line(s);
    }
  }

  lemma StepKeeps(s: Sys, step: Step, config: Config)
    requires Invariant(s, config) && Enabled(s, step)
    ensures Invariant(Next(s, step, config), config)
  {
    hide Invariant;
    match step
    case Submit(_) => SendKeeps(s, step, config);
    case Control(_) => SendKeeps(s, step, config);
    case LoopReceives(at, evicted) => ReceiveKeeps(s, at, evicted, config);
    case WorkerAnswers(_, _, _) => WorkerKeeps(s, step, config);
    case WorkerFails(_) => WorkerKeeps(s, step, config);
  }

  /** The invariant holds in every state that a run can reach. */
  lemma {:induction false} ReachableInvariant(steps: seq<Step>, config: Config, s: Sys)
    requires Reaches(INITIAL, steps, config, s)
    ensures Invariant(s, config)
    decreases |steps|
  {
    hide Next, Enabled;
    if steps == [] {
    } else {
      var last := |steps| - 1;
      var m :| Reaches(INITIAL, steps[..last], config, m) && Enabled(m, steps[last]) && s == Next(m, steps[last], config);
      ReachableInvariant(steps[..last], config, m);
      StepKeeps(m, steps[last], config);
    }
  }
}
