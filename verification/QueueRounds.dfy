/** The manager's loops as moves of the queue, and what they bring up in every run. */
module QueueRounds {
  import opened Prelude
  import opened QueueTypes
  import opened Lifecycle
  import opened MessageLife
  import opened QueueManager
  import opened QueueSystem
  import DuePasses
  import HoldPasses

  // ----- The moves are the calls of the loops -----

  /** Taking a due entry is a call of the loop over the heap, or the call that ends it. */
  lemma TakeDueIsCall(s: Sys, top: nat, at: Instant, tried: Tried, configs: Configs)
    requires ValidConfigs(configs) && CanMove(s, TakeDue(top, at, tried), configs)
    ensures
      var s', id := Moved(s, TakeDue(top, at, tried), configs), s.store.scheduled[top].id;
      if id in s.store.messages then
        var c := DuePasses.Call(top, PlacementOf(tried, Next(s.lives[id], Visit(at), configs(id)).m));
        DuePasses.Gets(s.store, c, at) && s'.store == DuePasses.AfterCall(s.store, c)
      else
        DuePasses.Ends(s.store, Some(top), at) && s'.store == TakenDue(s.store, top)
  {
    hide Next, Enabled, EarliestRetry, NoLater, LaterThan, Earliest, ValidConfig;
  }

  /** The limiters that an entry on hold waits for. */
  function WaitsFor(tried: Tried): set<LimiterId> {
    if tried.PutOnHold? then set x | x in tried.o.limiters else {}
  }

  /** Taking an entry on hold is a call of the loop over the list, or the call that ends it. */
  lemma TakeHeldIsCall(s: Sys, pos: nat, at: Instant, free: set<LimiterId>, tried: Tried, configs: Configs)
    requires ValidConfigs(configs) && CanMove(s, TakeHeld(pos, at, free, tried), configs)
    ensures
      var s', id := Moved(s, TakeHeld(pos, at, free, tried), configs), s.store.onHold[pos].id;
      var k := HoldPasses.Mid(s.store, free);
      if id in s.store.messages then
        var c := HoldPasses.Call(pos, PlacementOf(tried, Next(s.lives[id], Visit(at), configs(id)).m), WaitsFor(tried));
        HoldPasses.Gets(k, c, at) && s'.store == HoldPasses.AfterCall(k, c).store
      else
        HoldPasses.Ends(k, Some(pos), at) && s'.store == TakenHeld(s.store, pos)
  {
    hide Next, Enabled, EarliestRetry, NoLater, ValidConfig, PendingTimes;
    var id := s.store.onHold[pos].id;
    if id in s.store.messages {
      VisitTime(s.lives[id], at, configs(id));
    }
  }

  lemma VisitTime(l: Life, at: Instant, config: Config)
    requires ValidConfig(config) && CanStep(l, Visit(at))
    ensures Next(l, Visit(at), config).now == at
  {
  }

  // ----- Rounds -----

  /** The state after some moves from `s`. */
  ghost function Run(s: Sys, moves: seq<Move>, configs: Configs): Option<Sys>
    requires ValidConfigs(configs)
  {
    if moves == [] then Some(s)
    else
      var k := Run(s, moves[..|moves| - 1], configs);
      var move := moves[|moves| - 1];
      if k.Some? && CanMove(k.value, move, configs) then Some(Moved(k.value, move, configs)) else None
  }

  /** All moves take due entries. */
  predicate AllDue(moves: seq<Move>) {
    forall i | 0 <= i < |moves| :: moves[i].TakeDue?
  }

  predicate AllAt(moves: seq<Move>, now: Instant) {
    forall i | 0 <= i < |moves| :: moves[i].TakeDue? && moves[i].at == now
  }

  /** The move takes an entry of `id` and tries its message, which is `m`. */
  predicate Tries(s: Sys, move: Move, id: QueueId, m: Message) {
    && move.TakeDue? && move.top < |s.store.scheduled| && s.store.scheduled[move.top].id == id
    && id in s.store.messages && s.store.messages[id] == m
  }

  /** One of the moves tries `id`. */
  ghost predicate TriedIn(s: Sys, moves: seq<Move>, configs: Configs, id: QueueId, m: Message)
    requires ValidConfigs(configs)
  {
    exists i | 0 <= i < |moves| ::
      var k := Run(s, moves[..i], configs); k.Some? && Tries(k.value, moves[i], id, m)
  }

  lemma TriedLonger(s: Sys, moves: seq<Move>, configs: Configs, id: QueueId, m: Message)
    requires ValidConfigs(configs) && moves != [] && TriedIn(s, moves[..|moves| - 1], configs, id, m)
    ensures TriedIn(s, moves, configs, id, m)
  {
    hide Run, Tries, ValidConfigs;
    var init := moves[..|moves| - 1];
    var i :| 0 <= i < |init| && var k := Run(s, init[..i], configs); k.Some? && Tries(k.value, init[i], id, m);
    assert init[..i] == moves[..i] && init[i] == moves[i];
  }

  /** A move that takes another entry leaves a message and its entries ready. */
  lemma MoveKeepsReady(s: Sys, move: Move, configs: Configs, id: QueueId, m: Message, now: Instant)
    requires ValidConfigs(configs) && move.TakeDue? && CanMove(s, move, configs)
    requires DuePasses.Ready(s.store, id, m, now) && !Tries(s, move, id, m)
    ensures DuePasses.Ready(Moved(s, move, configs).store, id, m, now)
  {
    hide CanMove, Moved, Next, Enabled, DuePasses.CountBy, ValidConfig, IsEarliest;
    TakenEntry(s, move, configs);
    TakeDueIsCall(s, move.top, move.at, move.tried, configs);
    var e := s.store.scheduled[move.top];
    DuePasses.CountTaken(s.store.scheduled, move.top, id, now);
    if e.id in s.store.messages {
      var p := PlacementOf(move.tried, Next(s.lives[e.id], Visit(move.at), configs(e.id)).m);
      PutKeeps(TakenDue(s.store, move.top), e.id, p, id, m, now);
    }
  }

  lemma TakenEntry(s: Sys, move: Move, configs: Configs)
    requires ValidConfigs(configs) && move.TakeDue? && CanMove(s, move, configs)
    ensures move == TakeDue(move.top, move.at, move.tried) && move.top < |s.store.scheduled|
    ensures var id := s.store.scheduled[move.top].id; id in s.store.messages ==> id in s.lives && CanStep(s.lives[id], Visit(move.at))
  {
    hide Next, Enabled, EarliestRetry, NoLater, HoldFor, ValidConfig;
  }

  lemma PutKeeps(s: Store, other: QueueId, p: Placement, id: QueueId, m: Message, now: Instant)
    requires other != id && DuePasses.Ready(s, id, m, now) && (p.HeldAgain? ==> p.o.id == other)
    ensures DuePasses.Ready(Put(s, other, p), id, m, now)
  {
    hide DuePasses.CountBy;
    if p.Back? {
      DuePasses.CountPush(s.scheduled, Entry(p.due, other), id, now);
    }
  }

  lemma {:induction false} TriedOrReady(s: Sys, moves: seq<Move>, configs: Configs, id: QueueId, m: Message, now: Instant)
    requires ValidConfigs(configs) && AllDue(moves) && Run(s, moves, configs).Some? && DuePasses.Ready(s.store, id, m, now)
    ensures TriedIn(s, moves, configs, id, m) || DuePasses.Ready(Run(s, moves, configs).value.store, id, m, now)
  {
    hide CanMove, Moved, ValidConfigs, DuePasses.Ready, TriedIn, Tries;
    if moves != [] {
      var init, move := moves[..|moves| - 1], moves[|moves| - 1];
      TriedOrReady(s, init, configs, id, m, now);
      var k := Run(s, init, configs).value;
      if TriedIn(s, init, configs, id, m) {
        TriedLonger(s, moves, configs, id, m);
      } else if Tries(k, move, id, m) {
        TriedLast(s, moves, configs, id, m);
      } else {
        MoveKeepsReady(k, move, configs, id, m, now);
      }
    }
  }

  lemma TriedLast(s: Sys, moves: seq<Move>, configs: Configs, id: QueueId, m: Message)
    requires ValidConfigs(configs) && moves != []
    requires var k := Run(s, moves[..|moves| - 1], configs); k.Some? && Tries(k.value, moves[|moves| - 1], id, m)
    ensures TriedIn(s, moves, configs, id, m)
  {
    hide Run, Tries, ValidConfigs;
  }

  /**
    In every run: unless it is on hold or a sender throttle puts it off, a message with a retry due is
    tried before the heap has nothing due any more, whatever the moves do with the others.
  */
  lemma RetryComesUp(before: seq<Move>, configs: Configs, s: Sys, id: QueueId, i: nat, moves: seq<Move>, now: Instant)
    requires ValidConfigs(configs) && Reached(before, configs, s) && id in s.store.messages && id in s.lives
    requires !HasHold(s.store.onHold, id, s.lives[id]) && (id in s.throttled ==> s.throttled[id] <= now)
    requires i < |s.store.messages[id].domains| && s.store.messages[id].domains[i].status.Pending()
    requires s.store.messages[id].domains[i].retry.due <= now
    requires AllDue(moves) && Run(s, moves, configs).Some?
    requires DuePasses.NoneDue(Run(s, moves, configs).value.store.scheduled, now)
    ensures TriedIn(s, moves, configs, id, s.store.messages[id])
  {
    hide Reached, HasHold, Run, TriedIn, ValidConfigs, DuePasses.CountBy;
    EveryMessageComesUp(before, configs, s, id);
    var es := s.store.scheduled;
    var k :| 0 <= k < |es| && es[k].id == id && es[k].due <= now;
    DuePasses.CountHas(es, k, now);
    TriedOrReady(s, moves, configs, id, s.store.messages[id], now);
    DuePasses.CountNone(Run(s, moves, configs).value.store.scheduled, id, now);
  }

  /** And the heap gets there: at one time, every move takes away one of the entries that are due. */
  lemma {:induction false} RoundsEnd(s: Sys, moves: seq<Move>, configs: Configs, now: Instant)
    requires ValidConfigs(configs) && AllAt(moves, now) && Run(s, moves, configs).Some?
    ensures DuePasses.DueCount(Run(s, moves, configs).value.store.scheduled, now) + |moves| == DuePasses.DueCount(s.store.scheduled, now)
  {
    hide CanMove, Moved, ValidConfigs, DuePasses.DueCount;
    if moves != [] {
      var init, move := moves[..|moves| - 1], moves[|moves| - 1];
      RoundsEnd(s, init, configs, now);
      MoveLowers(Run(s, init, configs).value, move, configs);
    }
  }

  lemma MoveLowers(s: Sys, move: Move, configs: Configs)
    requires ValidConfigs(configs) && move.TakeDue? && CanMove(s, move, configs)
    ensures DuePasses.DueCount(Moved(s, move, configs).store.scheduled, move.at) == DuePasses.DueCount(s.store.scheduled, move.at) - 1
  {
    hide CanMove, Moved, Next, Enabled, DuePasses.DueCount, ValidConfig, DuePasses.Gets, DuePasses.AfterCall, IsEarliest;
    TakenEntry(s, move, configs);
    TakeDueIsCall(s, move.top, move.at, move.tried, configs);
    var id := s.store.scheduled[move.top].id;
    if id in s.store.messages {
      DuePasses.CallLowers(s.store, DuePasses.Call(move.top, PlacementOf(move.tried, Next(s.lives[id], Visit(move.at), configs(id)).m)), move.at);
    } else {
      DuePasses.DueTaken(s.store.scheduled, move.top, move.at);
    }
  }
}
