/** The event loop that hands lookups to a bounded number of workers. */
module Dispatcher {
  import opened Prelude
  import opened LookupCaches

  /** A request; the ticket stands for the channel on which its answer is expected. */
  datatype Lookup = Lookup(ticket: nat, item: Item)

  datatype Event =
    | Ask(lookup: Lookup)
    | WorkerReady(item: Item, result: Option<bool>, next: Option<nat>)
    | WorkerFailed
    | Reload
    | Stop

  datatype Reply = Reply(lookup: Lookup, answer: bool)

  /** What the loop does besides changing its own state. */
  datatype Effect = Effect(replies: seq<Reply>, started: Option<Lookup>, handedOver: Option<Lookup>, released: bool)

  const NOTHING: Effect := Effect([], None, None, false)

  datatype Loop = Loop(cache: Cache, queue: seq<Lookup>, active: int, stopped: bool)

  const START: Loop := Loop(EMPTY, [], 0, false)

  datatype Config = Config(ttl: Ttl, maxConcurrent: nat)

  datatype Drained = Drained(replies: seq<Reply>, first: Option<Lookup>, rest: seq<Lookup>, cache: Cache)

  /** Queued lookups that the cache can answer by now are answered; the first other one is taken out. */
  function Drain(queue: seq<Lookup>, c: Cache, now: Time): Drained {
    if queue == [] then Drained([], None, [], c)
    else
      var c' := AfterFind(c, queue[0].item, now);
      match Find(c, queue[0].item, now)
      case None => Drained([], Some(queue[0]), queue[1..], c')
      case Some(b) =>
        var d := Drain(queue[1..], c', now);
        d.(replies := [Reply(queue[0], b)] + d.replies)
  }

  function AfterResult(c: Cache, item: Item, result: Option<bool>, now: Time, ttl: Ttl, evicted: set<Item>): Cache {
    match result
    case None => c
    case Some(b) => Insert(c, item, b, now, ttl, evicted)
  }

  function OnAsk(l: Loop, lookup: Lookup, now: Time, config: Config): (Loop, Effect) {
    var l' := l.(cache := AfterFind(l.cache, lookup.item, now));
    match Find(l.cache, lookup.item, now)
    case Some(b) => (l', NOTHING.(replies := [Reply(lookup, b)]))
    case None =>
      if l.active < config.maxConcurrent then (l'.(active := l.active + 1), NOTHING.(started := Some(lookup)))
      else (l'.(queue := l.queue + [lookup]), NOTHING)
  }

  function OnReady(l: Loop, e: Event, now: Time, config: Config, evicted: set<Item>): (Loop, Effect)
    requires e.WorkerReady?
  {
    var d := Drain(l.queue, AfterResult(l.cache, e.item, e.result, now, config.ttl, evicted), now);
    var l' := l.(cache := d.cache, queue := d.rest, active := if d.first.None? then l.active - 1 else l.active);
    (l', if e.next.Some? then Effect(d.replies, None, d.first, d.first.None?) else Effect(d.replies, d.first, None, false))
  }

  function OnFailed(l: Loop): (Loop, Effect) {
    if l.queue != [] then (l.(queue := l.queue[1..]), NOTHING.(started := Some(l.queue[0])))
    else (l.(active := l.active - 1), NOTHING)
  }

  function Handle(l: Loop, e: Event, now: Time, config: Config, evicted: set<Item>): (Loop, Effect) {
    match e
    case Ask(lookup) => OnAsk(l, lookup, now, config)
    case WorkerReady(_, _, _) => OnReady(l, e, now, config, evicted)
    case WorkerFailed => OnFailed(l)
    case Reload => (l.(cache := EMPTY), NOTHING)
    case Stop => (l.(queue := [], stopped := true), NOTHING)
  }

  /** An event as the loop receives it. */
  datatype Received = Received(event: Event, now: Time, evicted: set<Item>)

  /** The effects of a sequence of received events, up to and including the first Stop. */
  function HandleAll(l: Loop, es: seq<Received>, config: Config): (Loop, seq<Effect>)
    decreases |es|
  {
    if es == [] || l.stopped then (l, [])
    else
      var (l1, first) := Handle(l, es[0].event, es[0].now, config, es[0].evicted);
      var (l2, rest) := HandleAll(l1, es[1..], config);
      (l2, [first] + rest)
  }

  /** `RemoteHost::run` over the events that arrive on its channel. */
  method Run(es: seq<Received>, config: Config) returns (effects: seq<Effect>)
    ensures effects == HandleAll(START, es, config).1
  {
    hide Drain, Find, AfterFind, Insert;
    var cache := new LookupCache(config.ttl);
    var queue: seq<Lookup> := [];
    var active: int := 0;
    effects := [];
    var i := 0;
    assert es[0..] == es;
    while i < |es|
      invariant 0 <= i <= |es| && cache.ttl == config.ttl && fresh(cache)
      invariant
        var l := Loop(cache.Contents(), queue, active, false);
        HandleAll(START, es, config).1 == effects + HandleAll(l, es[i..], config).1
    {
      ghost var l := Loop(cache.Contents(), queue, active, false);
      var e, now, evicted := es[i].event, es[i].now, es[i].evicted;
      assert es[i..][0] == es[i] && es[i..][1..] == es[i + 1..];
      ghost var step := Handle(l, e, now, config, evicted);
      ghost var later := HandleAll(step.0, es[i + 1..], config).1;
      assert HandleAll(l, es[i..], config).1 == [step.1] + later;
      assert effects + ([step.1] + later) == (effects + [step.1]) + later;
      i := i + 1;
      match e
      case Ask(lookup) =>
        var result := cache.Get(lookup.item, now);
        if result.Some? {
          effects := effects + [NOTHING.(replies := [Reply(lookup, result.value)])];
        } else if active < config.maxConcurrent {
          active := active + 1;
          effects := effects + [NOTHING.(started := Some(lookup))];
        } else {
          queue := queue + [lookup];
          effects := effects + [NOTHING];
        }
      case WorkerReady(item, result, next) =>
        if result.Some? {
          cache.InsertAnswer(item, result.value, now, evicted);
        }
        var replies, first;
        replies, first, queue := PopUnanswered(queue, cache, now);
        if next.Some? {
          if first.None? {
            active := active - 1;
          }
          effects := effects + [Effect(replies, None, first, first.None?)];
        } else {
          if first.None? {
            active := active - 1;
          }
          effects := effects + [Effect(replies, first, None, false)];
        }
      case WorkerFailed =>
        if queue != [] {
          effects := effects + [NOTHING.(started := Some(queue[0]))];
          queue := queue[1..];
        } else {
          active := active - 1;
          effects := effects + [NOTHING];
        }
      case Reload =>
        cache.Clear();
        effects := effects + [NOTHING];
      case Stop =>
        effects := effects + [NOTHING];
        assert effects + [] == effects;
        return;
    }
    assert es[i..] == [];
    assert effects + [] == effects;
  }

  /** The inner loop of a worker event. */
  method PopUnanswered(queue: seq<Lookup>, cache: LookupCache, now: Time)
    returns (replies: seq<Reply>, first: Option<Lookup>, rest: seq<Lookup>)
    modifies cache
    ensures Drained(replies, first, rest, cache.Contents()) == Drain(queue, old(cache.Contents()), now)
  {
    replies, first, rest := [], None, queue;
    while rest != [] && first.None?
      invariant
        var d := Drain(queue, old(cache.Contents()), now);
        if first.Some? then d == Drained(replies, first, rest, cache.Contents())
        else
          var d' := Drain(rest, cache.Contents(), now);
          d == d'.(replies := replies + d'.replies)
      decreases rest
    {
      var lookup := rest[0];
      var result := cache.Get(lookup.item, now);
      rest := rest[1..];
      if result.Some? {
        ghost var d' := Drain(rest, cache.Contents(), now);
        assert replies + ([Reply(lookup, result.value)] + d'.replies) == (replies + [Reply(lookup, result.value)]) + d'.replies;
        replies := replies + [Reply(lookup, result.value)];
      } else {
        assert replies + [] == replies;
        first := Some(lookup);
      }
    }
    assert replies + [] == replies;
  }
}
