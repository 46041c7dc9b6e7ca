/**
  The loop over the messages on hold, first to last. A limiter that a try fills is full for the rest of
  the loop. It ends like the loop over the heap: at an entry whose message is gone, too.
*/
module HoldPasses {
  import opened Prelude
  import opened QueueTypes
  import opened QueueManager

  // ----- A pass -----

  /** Whom the entries that can go on are for, in order. */
  function Ids(hs: seq<OnHold>, now: Instant, free: set<LimiterId>): seq<QueueId> {
    if hs == [] then []
    else Ids(hs[..|hs| - 1], now, free) + if Releasable(hs[|hs| - 1], now, free) then [hs[|hs| - 1].id] else []
  }

  predicate NoneReleasable(hs: seq<OnHold>, now: Instant, free: set<LimiterId>) {
    forall i | 0 <= i < |hs| :: !Releasable(hs[i], now, free)
  }

  /** The store in the middle of a pass, and the limiters that have room. */
  datatype Mid = Mid(store: Store, free: set<LimiterId>)

  /** The entry that a call takes, where the try leaves its message, and the limiters that are full afterwards. */
  datatype Call = Call(at: nat, placement: Placement, filled: set<LimiterId>)

  /** What a try puts on hold waits for a full limiter and a later time. */
  predicate Fits(p: Placement, id: QueueId, now: Instant, free: set<LimiterId>) {
    p.HeldAgain? ==> p.o.id == id && !Releasable(p.o, now, free)
  }

  /** A call that gets a message. */
  predicate Gets(k: Mid, c: Call, now: Instant) {
    && IsFirst(k.store.onHold, c.at, now, k.free) && k.store.onHold[c.at].id in k.store.messages
    && Fits(c.placement, k.store.onHold[c.at].id, now, k.free - c.filled)
  }

  function AfterCall(k: Mid, c: Call): Mid
    requires c.at < |k.store.onHold|
  {
    Mid(Put(TakenHeld(k.store, c.at), k.store.onHold[c.at].id, c.placement), k.free - c.filled)
  }

  function Called(k0: Mid, calls: seq<Call>, now: Instant): Option<Mid> {
    if calls == [] then Some(k0)
    else
      var k := Called(k0, calls[..|calls| - 1], now);
      var c := calls[|calls| - 1];
      if k.Some? && Gets(k.value, c, now) then Some(AfterCall(k.value, c)) else None
  }

  /** The messages that come out. */
  function Out(k0: Mid, calls: seq<Call>, now: Instant): seq<(QueueId, Message)> {
    if calls == [] then []
    else
      var k := Called(k0, calls[..|calls| - 1], now);
      var c := calls[|calls| - 1];
      Out(k0, calls[..|calls| - 1], now)
      + if k.Some? && Gets(k.value, c, now) then var id := k.value.store.onHold[c.at].id; [(id, k.value.store.messages[id])] else []
  }

  /** The call that gets no message: nothing can go on, or the entry `stop` is taken and its message is gone. */
  predicate Ends(k: Mid, stop: Option<nat>, now: Instant) {
    match stop
    case None => NoneReleasable(k.store.onHold, now, k.free)
    case Some(pos) => IsFirst(k.store.onHold, pos, now, k.free) && k.store.onHold[pos].id !in k.store.messages
  }

  predicate IsPass(k0: Mid, calls: seq<Call>, stop: Option<nat>, now: Instant) {
    Called(k0, calls, now).Some? && Ends(Called(k0, calls, now).value, stop, now)
  }

  function AfterPass(k0: Mid, calls: seq<Call>, stop: Option<nat>, now: Instant): Mid
    requires IsPass(k0, calls, stop, now)
  {
    var k := Called(k0, calls, now).value;
    if stop.Some? then k.(store := TakenHeld(k.store, stop.value)) else k
  }

  /** No try fills a limiter. */
  predicate Steady(calls: seq<Call>) {
    forall i | 0 <= i < |calls| :: calls[i].filled == {}
  }

  // ----- The entries that can go on -----

  lemma IdsPush(hs: seq<OnHold>, o: OnHold, now: Instant, free: set<LimiterId>)
    ensures Ids(hs + [o], now, free) == Ids(hs, now, free) + if Releasable(o, now, free) then [o.id] else []
  {
    assert (hs + [o])[..|hs|] == hs;
  }

  lemma {:induction false} IdsNone(hs: seq<OnHold>, now: Instant, free: set<LimiterId>)
    requires NoneReleasable(hs, now, free)
    ensures Ids(hs, now, free) == []
  {
    hide Releasable;
    if hs != [] {
      IdsNone(hs[..|hs| - 1], now, free);
    }
  }

  /** Taking the first entry that can go on takes the first of the list. */
  lemma {:induction false} IdsTaken(hs: seq<OnHold>, pos: nat, now: Instant, free: set<LimiterId>)
    requires IsFirst(hs, pos, now, free)
    ensures Ids(hs, now, free) == [hs[pos].id] + Ids(Without(hs, pos), now, free)
  {
    hide Releasable;
    var last := |hs| - 1;
    if pos == last {
      assert Without(hs, pos) == hs[..last];
      assert NoneReleasable(hs[..last], now, free);
      IdsNone(hs[..last], now, free);
    } else {
      IdsTaken(hs[..last], pos, now, free);
      WithoutLast(hs, pos);
      IdsPush(Without(hs[..last], pos), hs[last], now, free);
    }
  }

  /** With fewer limiters free, fewer entries can go on. */
  lemma {:induction false} IdsFewer(hs: seq<OnHold>, now: Instant, free: set<LimiterId>, filled: set<LimiterId>)
    ensures |Ids(hs, now, free - filled)| <= |Ids(hs, now, free)|
  {
    if hs != [] {
      IdsFewer(hs[..|hs| - 1], now, free, filled);
    }
  }

  lemma CallIds(k: Mid, c: Call, now: Instant)
    requires Gets(k, c, now)
    ensures |Ids(AfterCall(k, c).store.onHold, now, k.free - c.filled)| < |Ids(k.store.onHold, now, k.free)|
    ensures c.filled == {} ==>
              Ids(k.store.onHold, now, k.free) == [k.store.onHold[c.at].id] + Ids(AfterCall(k, c).store.onHold, now, AfterCall(k, c).free)
  {
    hide Releasable, Ids, Without;
    var rest := Without(k.store.onHold, c.at);
    IdsTaken(k.store.onHold, c.at, now, k.free);
    IdsFewer(rest, now, k.free, c.filled);
    if c.placement.HeldAgain? {
      IdsPush(rest, c.placement.o, now, k.free - c.filled);
    }
    if c.filled == {} {
      assert k.free - c.filled == k.free;
    }
  }

  lemma CallKeepsOthers(k: Mid, c: Call, now: Instant, x: QueueId)
    requires Gets(k, c, now) && x != k.store.onHold[c.at].id
    ensures x in AfterCall(k, c).store.messages <==> x in k.store.messages
    ensures x in k.store.messages ==> AfterCall(k, c).store.messages[x] == k.store.messages[x]
  {
    hide Releasable;
  }

  lemma GetsEntry(k: Mid, c: Call, now: Instant)
    requires Gets(k, c, now)
    ensures c.at < |k.store.onHold| && k.store.onHold[c.at].id in k.store.messages
  {
  }

  // ----- Which messages come out -----

  /** Before the place `p`, every entry has its message, and no two are of the same message. */
  predicate ClearBefore(ids: seq<QueueId>, messages: map<QueueId, Message>, p: nat) {
    p <= |ids| && forall i | 0 <= i < p :: ids[i] in messages && ids[i] !in ids[..i]
  }

  predicate ClearIn(ids: seq<QueueId>, messages: map<QueueId, Message>, id: QueueId) {
    exists p | 0 <= p < |ids| :: ids[p] == id && ClearBefore(ids, messages, p)
  }

  /** Nothing before the first entry of `id` can end a pass. */
  predicate Clear(k: Mid, id: QueueId, now: Instant) {
    ClearIn(Ids(k.store.onHold, now, k.free), k.store.messages, id)
  }

  predicate Waits(k: Mid, id: QueueId, m: Message, now: Instant) {
    id in k.store.messages && k.store.messages[id] == m && Clear(k, id, now)
  }

  /** When the first entry is taken and its message may be gone, the others are as clear as before. */
  lemma TailClear(ids: seq<QueueId>, messages: map<QueueId, Message>, messages': map<QueueId, Message>, id: QueueId)
    requires ids != [] && ids[0] != id && ClearIn(ids, messages, id)
    requires forall x | x in messages && x != ids[0] :: x in messages'
    ensures ClearIn(ids[1..], messages', id)
  {
    var p :| 0 <= p < |ids| && ids[p] == id && ClearBefore(ids, messages, p);
    var rest := ids[1..];
    assert ids == [ids[0]] + rest;
    forall i | 0 <= i < p - 1 ensures rest[i] in messages' && rest[i] !in rest[..i] {
      var j := i + 1;
      assert ids[j] in messages && ids[j] !in ids[..j];
      assert ids[j] == rest[i] && ids[..j] == [ids[0]] + rest[..i];
    }
    assert rest[p - 1] == id && ClearBefore(rest, messages', p - 1);
  }

  lemma CallKeepsWaiting(k: Mid, c: Call, now: Instant, id: QueueId, m: Message)
    requires Gets(k, c, now) && c.filled == {} && Waits(k, id, m, now) && k.store.onHold[c.at].id != id
    ensures Waits(AfterCall(k, c), id, m, now)
  {
    hide Releasable, Ids, AfterCall, Gets, ClearIn;
    GetsEntry(k, c, now);
    CallIds(k, c, now);
    CallKeepsOthers(k, c, now, id);
    var k' := AfterCall(k, c);
    forall x | x in k.store.messages && x != k.store.onHold[c.at].id ensures x in k'.store.messages {
      CallKeepsOthers(k, c, now, x);
    }
    var ids, ids' := Ids(k.store.onHold, now, k.free), Ids(k'.store.onHold, now, k'.free);
    assert ids[1..] == ids';
    TailClear(ids, k.store.messages, k'.store.messages, id);
  }

  lemma {:induction false} WaitsOrOut(k0: Mid, calls: seq<Call>, now: Instant, id: QueueId, m: Message)
    requires Called(k0, calls, now).Some? && Steady(calls) && Waits(k0, id, m, now)
    ensures (id, m) in Out(k0, calls, now) || Waits(Called(k0, calls, now).value, id, m, now)
  {
    hide Gets, AfterCall, Clear;
    if calls != [] {
      var init, c := calls[..|calls| - 1], calls[|calls| - 1];
      WaitsOrOut(k0, init, now, id, m);
      var k := Called(k0, init, now).value;
      if (id, m) !in Out(k0, init, now) {
        GetsEntry(k, c, now);
        if k.store.onHold[c.at].id == id {
          assert Out(k0, calls, now)[|Out(k0, init, now)|] == (id, m);
        } else {
          CallKeepsWaiting(k, c, now, id, m);
        }
      }
    }
  }

  /** The call that ends a pass does not leave a waiting message behind. */
  lemma NoneLeftWaiting(k: Mid, stop: Option<nat>, now: Instant, id: QueueId, m: Message)
    requires Ends(k, stop, now)
    ensures !Waits(k, id, m, now)
  {
    hide Releasable, Ids;
    if stop.None? {
      IdsNone(k.store.onHold, now, k.free);
    } else {
      IdsTaken(k.store.onHold, stop.value, now, k.free);
      assert Ids(k.store.onHold, now, k.free)[0] !in k.store.messages;
    }
  }

  lemma ClearComesOut(k0: Mid, calls: seq<Call>, stop: Option<nat>, now: Instant, id: QueueId)
    requires IsPass(k0, calls, stop, now) && Steady(calls) && id in k0.store.messages && Clear(k0, id, now)
    ensures (id, k0.store.messages[id]) in Out(k0, calls, now)
  {
    hide Clear, Called, Out, Ends;
    WaitsOrOut(k0, calls, now, id, k0.store.messages[id]);
    if (id, k0.store.messages[id]) !in Out(k0, calls, now) {
      NoneLeftWaiting(Called(k0, calls, now).value, stop, now, id, k0.store.messages[id]);
    }
  }

  // ----- A pass that leaves a message behind -----

  lemma CalledPush(k0: Mid, calls: seq<Call>, c: Call, now: Instant)
    requires Called(k0, calls, now).Some? && Gets(Called(k0, calls, now).value, c, now)
    ensures Called(k0, calls + [c], now) == Some(AfterCall(Called(k0, calls, now).value, c))
    ensures var s := Called(k0, calls, now).value.store;
            Out(k0, calls + [c], now) == Out(k0, calls, now) + [(s.onHold[c.at].id, s.messages[s.onHold[c.at].id])]
  {
    assert (calls + [c])[..|calls|] == calls;
  }

  /** A pass can be told from its first call on. */
  lemma {:induction false} CalledFrom(k: Mid, c: Call, calls: seq<Call>, now: Instant)
    requires Gets(k, c, now)
    ensures Called(k, [c] + calls, now) == Called(AfterCall(k, c), calls, now)
    ensures Out(k, [c] + calls, now)
         == [(k.store.onHold[c.at].id, k.store.messages[k.store.onHold[c.at].id])] + Out(AfterCall(k, c), calls, now)
  {
    hide Gets, AfterCall;
    if calls == [] {
      assert [c] + calls == [c];
      assert Called(k, [], now) == Some(k);
    } else {
      var init, last := calls[..|calls| - 1], calls[|calls| - 1];
      CalledFrom(k, c, init, now);
      assert ([c] + calls)[..|calls|] == [c] + init;
    }
  }

  /** An entry before all those of `id` whose message is gone, or is gone once an earlier entry is taken. */
  predicate BlockedAt(ids: seq<QueueId>, messages: map<QueueId, Message>, id: QueueId, j: nat) {
    j < |ids| && id !in ids[..j + 1] && (ids[j] !in messages || ids[j] in ids[..j])
  }

  lemma TailBlocked(ids: seq<QueueId>, messages: map<QueueId, Message>, id: QueueId, j: nat)
    requires BlockedAt(ids, messages, id, j) && ids[0] in messages
    ensures j > 0 && BlockedAt(ids[1..], messages - {ids[0]}, id, j - 1)
  {
    var rest := ids[1..];
    assert ids[..j + 1] == [ids[0]] + rest[..j];
    if j > 0 {
      assert ids[..j] == [ids[0]] + rest[..j - 1];
    }
  }

  /** While something blocks `id`, a pass leaves it behind. */
  lemma {:induction false} LeavesBehind(k: Mid, id: QueueId, j: nat, now: Instant) returns (calls: seq<Call>, stop: Option<nat>)
    requires BlockedAt(Ids(k.store.onHold, now, k.free), k.store.messages, id, j)
    ensures IsPass(k, calls, stop, now) && Steady(calls)
    ensures forall i | 0 <= i < |Out(k, calls, now)| :: Out(k, calls, now)[i].0 != id
    decreases j
  {
    hide Releasable, Ids, BlockedAt;
    var ids := Ids(k.store.onHold, now, k.free);
    BlockedFirst(ids, k.store.messages, id, j);
    var pos := FirstOf(k.store.onHold, now, k.free);
    IdsTaken(k.store.onHold, pos, now, k.free);
    if ids[0] !in k.store.messages {
      calls, stop := [], Some(pos);
    } else {
      var c := Call(pos, Away, {});
      CallIds(k, c, now);
      var k' := AfterCall(k, c);
      TailBlocked(ids, k.store.messages, id, j);
      assert ids[1..] == Ids(k'.store.onHold, now, k'.free);
      var rest, end := LeavesBehind(k', id, j - 1, now);
      CalledFrom(k, c, rest, now);
      calls, stop := [c] + rest, end;
    }
  }

  lemma BlockedFirst(ids: seq<QueueId>, messages: map<QueueId, Message>, id: QueueId, j: nat)
    requires BlockedAt(ids, messages, id, j)
    ensures ids != [] && ids[0] != id
  {
    assert ids[..j + 1][0] == ids[0];
  }

  lemma {:induction false} FirstOf(hs: seq<OnHold>, now: Instant, free: set<LimiterId>) returns (pos: nat)
    requires Ids(hs, now, free) != []
    ensures IsFirst(hs, pos, now, free)
  {
    hide Releasable;
    var last := |hs| - 1;
    if Ids(hs[..last], now, free) != [] {
      pos := FirstOf(hs[..last], now, free);
    } else {
      pos := last;
      forall j | 0 <= j < last ensures !Releasable(hs[j], now, free) {
        if Releasable(hs[j], now, free) {
          IdsHas(hs[..last], j, now, free);
        }
      }
    }
  }

  lemma {:induction false} IdsHas(hs: seq<OnHold>, i: nat, now: Instant, free: set<LimiterId>)
    requires i < |hs| && Releasable(hs[i], now, free)
    ensures hs[i].id in Ids(hs, now, free)
  {
    hide Releasable;
    if i < |hs| - 1 {
      IdsHas(hs[..|hs| - 1], i, now, free);
    }
  }

  /** Every pass in which no try fills a limiter brings `id` out. */
  ghost predicate AlwaysOut(k: Mid, id: QueueId, now: Instant)
    requires id in k.store.messages
  {
    forall calls, stop | IsPass(k, calls, stop, now) && Steady(calls) :: (id, k.store.messages[id]) in Out(k, calls, now)
  }

  /** What is not clear is blocked. */
  lemma NotClear(ids: seq<QueueId>, messages: map<QueueId, Message>, id: QueueId) returns (j: nat)
    requires id in ids && !ClearIn(ids, messages, id)
    ensures BlockedAt(ids, messages, id, j)
  {
    var p := 0;
    while ids[p] != id
      invariant p < |ids| && id !in ids[..p]
      decreases |ids| - p
    {
      p := p + 1;
      assert ids[..p] == ids[..p - 1] + [ids[p - 1]];
    }
    assert !ClearBefore(ids, messages, p);
    j :| 0 <= j < p && !(ids[j] in messages && ids[j] !in ids[..j]);
    assert forall i | 0 <= i <= j :: ids[..j + 1][i] == ids[..p][i];
  }

  /**
    As long as no try fills a limiter, a message on hold that can go on comes out of the pass exactly
    when nothing before it can end the pass.
  */
  lemma OutIffClear(k: Mid, id: QueueId, now: Instant)
    requires id in k.store.messages && id in Ids(k.store.onHold, now, k.free)
    ensures AlwaysOut(k, id, now) <==> Clear(k, id, now)
  {
    hide Ids, IsPass, Out, ClearIn, Steady;
    if Clear(k, id, now) {
      forall calls, stop | IsPass(k, calls, stop, now) && Steady(calls) ensures (id, k.store.messages[id]) in Out(k, calls, now) {
        ClearComesOut(k, calls, stop, now, id);
      }
    } else {
      var j := NotClear(Ids(k.store.onHold, now, k.free), k.store.messages, id);
      var calls, stop := LeavesBehind(k, id, j, now);
    }
  }

  // ----- What a pass leaves -----

  /** The message `m` is there and has the entry `o`. */
  predicate Has(s: Store, o: OnHold, m: Message) {
    o in s.onHold && o.id in s.messages && s.messages[o.id] == m
  }

  lemma CallKeepsEntry(k: Mid, c: Call, now: Instant, o: OnHold, m: Message)
    requires Gets(k, c, now) && Has(k.store, o, m) && k.store.onHold[c.at].id != o.id
    ensures Has(AfterCall(k, c).store, o, m)
  {
    hide Releasable;
    var i :| 0 <= i < |k.store.onHold| && k.store.onHold[i] == o;
    assert Without(k.store.onHold, c.at)[if i < c.at then i else i - 1] == o;
  }

  lemma {:induction false} EntryOrOut(k0: Mid, calls: seq<Call>, now: Instant, o: OnHold, m: Message)
    requires Called(k0, calls, now).Some? && Has(k0.store, o, m)
    ensures (o.id, m) in Out(k0, calls, now) || Has(Called(k0, calls, now).value.store, o, m)
  {
    hide Gets, AfterCall;
    if calls != [] {
      var init, c := calls[..|calls| - 1], calls[|calls| - 1];
      EntryOrOut(k0, init, now, o, m);
      var k := Called(k0, init, now).value;
      if (o.id, m) !in Out(k0, init, now) {
        GetsEntry(k, c, now);
        if k.store.onHold[c.at].id == o.id {
          assert Out(k0, calls, now)[|Out(k0, init, now)|] == (o.id, m);
        } else {
          CallKeepsEntry(k, c, now, o, m);
        }
      }
    }
  }

  /**
    Whatever the tries fill: a message on hold comes out, or it is left as it was, and then it can no
    longer go on or the pass ended at an entry without a message.
  */
  lemma OutOrLeft(k0: Mid, calls: seq<Call>, stop: Option<nat>, now: Instant, o: OnHold, m: Message)
    requires IsPass(k0, calls, stop, now) && Has(k0.store, o, m)
    ensures || (o.id, m) in Out(k0, calls, now)
            || (var k := AfterPass(k0, calls, stop, now);
                Has(k.store, o, m) && (Releasable(o, now, k.free) ==> stop.Some?))
  {
    hide Called, Out, Releasable;
    EntryOrOut(k0, calls, now, o, m);
    var k := Called(k0, calls, now).value;
    if (o.id, m) !in Out(k0, calls, now) && stop.Some? {
      var i :| 0 <= i < |k.store.onHold| && k.store.onHold[i] == o;
      assert Without(k.store.onHold, stop.value)[if i < stop.value then i else i - 1] == o;
    }
  }

  // ----- The loop -----

  /** One round of the loop: an entry is taken and its message tried, unless none comes out. */
  method DeliverNext(q: Queue, now: Instant, room: set<LimiterId>, try: (QueueId, Message) -> (Placement, set<LimiterId>))
    returns (r: Option<(QueueId, Message)>, filled: set<LimiterId>, ghost c: Call, ghost stop: Option<nat>)
    requires forall id, m :: Fits(try(id, m).0, id, now, room - try(id, m).1)
    modifies q
    ensures r.None? ==>
              && Ends(Mid(old(q.View()), room), stop, now)
              && q.View() == if stop.Some? then TakenHeld(old(q.View()), stop.value) else old(q.View())
    ensures r.Some? ==>
              && Gets(Mid(old(q.View()), room), c, now) && filled == c.filled
              && Mid(q.View(), room - filled) == AfterCall(Mid(old(q.View()), room), c)
              && r.value.0 == old(q.onHold)[c.at].id && r.value.1 == old(q.messages)[r.value.0]
              && (c.placement, c.filled) == try(r.value.0, r.value.1)
  {
    hide Releasable, Without;
    ghost var s := q.View();
    ghost var pos;
    r, pos := q.NextOnHold(now, room);
    c, stop, filled := Call(0, Away, {}), None, {};
    if r.None? {
      stop := if pos == |s.onHold| then None else Some(pos);
    } else {
      var t := try(r.value.0, r.value.1);
      filled := t.1;
      c := Call(pos, t.0, t.1);
      q.Place(r.value.0, t.0);
    }
  }

  /** The calls do with what came out what `tries` says. */
  ghost predicate Follow(calls: seq<Call>, out: seq<(QueueId, Message)>, tries: (nat, QueueId, Message) -> (Placement, set<LimiterId>)) {
    |calls| == |out| && forall k | 0 <= k < |out| :: (calls[k].placement, calls[k].filled) == tries(k, out[k].0, out[k].1)
  }

  /**
    Tries what can go on, at the time `now`, until no message comes out; `tries` says where each try
    leaves its message and which limiters it fills.
  */
  method DeliverHeld(q: Queue, now: Instant, free: set<LimiterId>, tries: (nat, QueueId, Message) -> (Placement, set<LimiterId>))
    returns (out: seq<(QueueId, Message)>, ghost calls: seq<Call>, ghost stop: Option<nat>)
    requires forall n, id, m :: Fits(tries(n, id, m).0, id, now, free - tries(n, id, m).1)
    modifies q
    ensures IsPass(Mid(old(q.View()), free), calls, stop, now) && out == Out(Mid(old(q.View()), free), calls, now)
    ensures q.View() == AfterPass(Mid(old(q.View()), free), calls, stop, now).store
    ensures Follow(calls, out, tries)
  {
    hide Called, Out, Gets, AfterCall, Ends, Ids;
    ghost var k0 := Mid(q.View(), free);
    out, calls, stop := [], [], None;
    CalledNone(k0, now);
    var done, room := false, free;
    while !done
      invariant Called(k0, calls, now).Some? && out == Out(k0, calls, now) && room <= free && Follow(calls, out, tries)
      invariant !done ==> Mid(q.View(), room) == Called(k0, calls, now).value
      invariant done ==> IsPass(k0, calls, stop, now) && q.View() == AfterPass(k0, calls, stop, now).store
      decreases !done, |Ids(q.onHold, now, room)|
    {
      ghost var k := Mid(q.View(), room);
      var n: nat := |out|;
      forall id, m ensures Fits(tries(n, id, m).0, id, now, room - tries(n, id, m).1) {
        FitsFewer(tries(n, id, m).0, id, now, free - tries(n, id, m).1, room - tries(n, id, m).1);
      }
      var r, filled, c, end := DeliverNext(q, now, room, (id: QueueId, m: Message) => tries(n, id, m));
      if r.None? {
        done, stop := true, end;
      } else {
        CallIds(k, c, now);
        CalledPush(k0, calls, c, now);
        calls, out, room := calls + [c], out + [r.value], room - filled;
      }
    }
  }

  lemma CalledNone(k0: Mid, now: Instant)
    ensures Called(k0, [], now) == Some(k0) && Out(k0, [], now) == []
  {
  }

  lemma FitsFewer(p: Placement, id: QueueId, now: Instant, free: set<LimiterId>, fewer: set<LimiterId>)
    requires Fits(p, id, now, free) && fewer <= free
    ensures Fits(p, id, now, fewer)
  {
  }
}
