/**
  The loop over the heap. It takes what is due and tries the messages until it gets none, which is also
  what it gets from an entry whose message is gone; the rest waits for the next pass.
*/
module DuePasses {
  import opened Prelude
  import opened QueueTypes
  import opened QueueManager

  // ----- A pass -----

  /** The number of entries of `x` that are due by `t`. */
  function CountBy(es: seq<Entry>, x: QueueId, t: Instant): nat {
    if es == [] then 0
    else CountBy(es[..|es| - 1], x, t) + if es[|es| - 1].id == x && es[|es| - 1].due <= t then 1 else 0
  }

  predicate NoneDue(es: seq<Entry>, now: Instant) {
    forall i | 0 <= i < |es| :: es[i].due > now
  }

  /** The entry that a call takes, and where the try leaves its message. */
  datatype Call = Call(at: nat, placement: Placement)

  /** What a try puts back into the heap is not due yet. */
  predicate Fits(p: Placement, id: QueueId, now: Instant) {
    (p.Back? ==> p.due > now) && (p.HeldAgain? ==> p.o.id == id)
  }

  /** A call that gets a message. */
  predicate Gets(s: Store, c: Call, now: Instant) {
    && IsEarliest(s.scheduled, c.at) && s.scheduled[c.at].due <= now && s.scheduled[c.at].id in s.messages
    && Fits(c.placement, s.scheduled[c.at].id, now)
  }

  function AfterCall(s: Store, c: Call): Store
    requires c.at < |s.scheduled|
  {
    Put(TakenDue(s, c.at), s.scheduled[c.at].id, c.placement)
  }

  /** The store after calls that all get a message. */
  function Called(s: Store, calls: seq<Call>, now: Instant): Option<Store> {
    if calls == [] then Some(s)
    else
      var k := Called(s, calls[..|calls| - 1], now);
      var c := calls[|calls| - 1];
      if k.Some? && Gets(k.value, c, now) then Some(AfterCall(k.value, c)) else None
  }

  /** The messages that come out. */
  function Out(s: Store, calls: seq<Call>, now: Instant): seq<(QueueId, Message)> {
    if calls == [] then []
    else
      var k := Called(s, calls[..|calls| - 1], now);
      var c := calls[|calls| - 1];
      Out(s, calls[..|calls| - 1], now)
      + if k.Some? && Gets(k.value, c, now) then var id := k.value.scheduled[c.at].id; [(id, k.value.messages[id])] else []
  }

  /** The call that gets no message: nothing is due, or the entry `stop` is taken and its message is gone. */
  predicate Ends(s: Store, stop: Option<nat>, now: Instant) {
    match stop
    case None => NoneDue(s.scheduled, now)
    case Some(top) => IsEarliest(s.scheduled, top) && s.scheduled[top].due <= now && s.scheduled[top].id !in s.messages
  }

  predicate IsPass(s: Store, calls: seq<Call>, stop: Option<nat>, now: Instant) {
    Called(s, calls, now).Some? && Ends(Called(s, calls, now).value, stop, now)
  }

  function AfterPass(s: Store, calls: seq<Call>, stop: Option<nat>, now: Instant): Store
    requires IsPass(s, calls, stop, now)
  {
    var k := Called(s, calls, now).value;
    if stop.Some? then TakenDue(k, stop.value) else k
  }

  // ----- Counting entries -----

  lemma CountPush(es: seq<Entry>, e: Entry, x: QueueId, t: Instant)
    ensures CountBy(es + [e], x, t) == CountBy(es, x, t) + if e.id == x && e.due <= t then 1 else 0
  {
    assert (es + [e])[..|es|] == es;
  }

  lemma {:induction false} CountTaken(es: seq<Entry>, top: nat, x: QueueId, t: Instant)
    requires top < |es|
    ensures CountBy(Without(es, top), x, t) == CountBy(es, x, t) - if es[top].id == x && es[top].due <= t then 1 else 0
  {
    var last := |es| - 1;
    if top == last {
      assert Without(es, top) == es[..last];
    } else {
      CountTaken(es[..last], top, x, t);
      WithoutLast(es, top);
      CountPush(Without(es[..last], top), es[last], x, t);
    }
  }

  lemma {:induction false} CountHas(es: seq<Entry>, i: nat, t: Instant)
    requires i < |es| && es[i].due <= t
    ensures CountBy(es, es[i].id, t) > 0
  {
    if i < |es| - 1 {
      CountHas(es[..|es| - 1], i, t);
    }
  }

  lemma {:induction false} CountNone(es: seq<Entry>, x: QueueId, t: Instant)
    requires NoneDue(es, t)
    ensures CountBy(es, x, t) == 0
  {
    if es != [] {
      CountNone(es[..|es| - 1], x, t);
    }
  }

  lemma {:induction false} CountFinds(es: seq<Entry>, x: QueueId, t: Instant) returns (i: nat)
    requires CountBy(es, x, t) > 0
    ensures i < |es| && es[i].id == x && es[i].due <= t
  {
    var last := |es| - 1;
    if es[last].id == x && es[last].due <= t {
      i := last;
    } else {
      i := CountFinds(es[..last], x, t);
    }
  }

  lemma {:induction false} CountGrows(es: seq<Entry>, x: QueueId, t: Instant, t': Instant)
    requires t <= t'
    ensures CountBy(es, x, t) <= CountBy(es, x, t')
  {
    if es != [] {
      CountGrows(es[..|es| - 1], x, t, t');
    }
  }

  // ----- Which messages come out -----

  /** Up to `t`, every other entry has its message, and no two are of the same message. */
  ghost predicate ClearUpTo(s: Store, id: QueueId, t: Instant) {
    forall x | x != id :: CountBy(s.scheduled, x, t) == 0 || (CountBy(s.scheduled, x, t) == 1 && x in s.messages)
  }

  /** Nothing before the first entry of `id` can end a pass. */
  ghost predicate Clear(s: Store, id: QueueId, now: Instant) {
    exists t | t <= now :: CountBy(s.scheduled, id, t) > 0 && ClearUpTo(s, id, t)
  }

  ghost predicate Waits(s: Store, id: QueueId, m: Message, t: Instant) {
    id in s.messages && s.messages[id] == m && CountBy(s.scheduled, id, t) > 0 && ClearUpTo(s, id, t)
  }

  /** What a call does to the entries due by `t`. */
  lemma CallCounts(s: Store, c: Call, now: Instant, x: QueueId, t: Instant)
    requires Gets(s, c, now) && t <= now
    ensures CountBy(AfterCall(s, c).scheduled, x, t)
         == CountBy(s.scheduled, x, t) - if s.scheduled[c.at].id == x && s.scheduled[c.at].due <= t then 1 else 0
  {
    hide CountBy, Without;
    CountTaken(s.scheduled, c.at, x, t);
    if c.placement.Back? {
      CountPush(Without(s.scheduled, c.at), Entry(c.placement.due, s.scheduled[c.at].id), x, t);
    }
  }

  lemma CallKeepsOthers(s: Store, c: Call, now: Instant, x: QueueId)
    requires Gets(s, c, now) && x != s.scheduled[c.at].id
    ensures x in AfterCall(s, c).messages <==> x in s.messages
    ensures x in s.messages ==> AfterCall(s, c).messages[x] == s.messages[x]
  {
  }

  lemma CallKeepsWaiting(s: Store, c: Call, now: Instant, id: QueueId, m: Message, t: Instant)
    requires Gets(s, c, now) && Waits(s, id, m, t) && t <= now && s.scheduled[c.at].id != id
    ensures Waits(AfterCall(s, c), id, m, t)
  {
    hide CountBy, AfterCall;
    var s', e := AfterCall(s, c), s.scheduled[c.at];
    var i := CountFinds(s.scheduled, id, t);
    assert e.due <= t;
    CountHas(s.scheduled, c.at, t);
    CallCounts(s, c, now, id, t);
    CallKeepsOthers(s, c, now, id);
    forall x | x != id ensures CountBy(s'.scheduled, x, t) == 0 || (CountBy(s'.scheduled, x, t) == 1 && x in s'.messages) {
      CallCounts(s, c, now, x, t);
      assert CountBy(s.scheduled, x, t) == 0 || (CountBy(s.scheduled, x, t) == 1 && x in s.messages);
      if x != e.id {
        CallKeepsOthers(s, c, now, x);
      }
    }
  }

  lemma {:induction false} WaitsOrOut(s: Store, calls: seq<Call>, now: Instant, id: QueueId, m: Message, t: Instant)
    requires Called(s, calls, now).Some? && Waits(s, id, m, t) && t <= now
    ensures (id, m) in Out(s, calls, now) || Waits(Called(s, calls, now).value, id, m, t)
  {
    hide Gets, AfterCall, Waits;
    if calls != [] {
      var init, c := calls[..|calls| - 1], calls[|calls| - 1];
      WaitsOrOut(s, init, now, id, m, t);
      var k := Called(s, init, now).value;
      if (id, m) !in Out(s, init, now) {
        GetsEntry(k, c, now);
        if k.scheduled[c.at].id == id {
          assert Out(s, calls, now)[|Out(s, init, now)|] == (id, m) by { WaitsAs(k, id, m, t); }
        } else {
          CallKeepsWaiting(k, c, now, id, m, t);
        }
      }
    }
  }

  lemma GetsEntry(s: Store, c: Call, now: Instant)
    requires Gets(s, c, now)
    ensures c.at < |s.scheduled| && s.scheduled[c.at].id in s.messages
  {
  }

  lemma WaitsAs(s: Store, id: QueueId, m: Message, t: Instant)
    requires Waits(s, id, m, t)
    ensures id in s.messages && s.messages[id] == m
  {
  }

  /** The call that ends a pass does not leave a waiting message behind. */
  lemma NoneLeftWaiting(s: Store, stop: Option<nat>, now: Instant, id: QueueId, m: Message, t: Instant)
    requires Ends(s, stop, now) && t <= now
    ensures !Waits(s, id, m, t)
  {
    hide CountBy;
    if stop.None? {
      CountNone(s.scheduled, id, t);
    } else if s.scheduled[stop.value].due <= t {
      CountHas(s.scheduled, stop.value, t);
    } else {
      CountNone(s.scheduled, id, t);
    }
  }

  lemma ClearComesOut(s: Store, calls: seq<Call>, stop: Option<nat>, now: Instant, id: QueueId)
    requires IsPass(s, calls, stop, now) && id in s.messages && Clear(s, id, now)
    ensures (id, s.messages[id]) in Out(s, calls, now)
  {
    hide ClearUpTo, CountBy, Called, Out, Ends;
    var t :| t <= now && CountBy(s.scheduled, id, t) > 0 && ClearUpTo(s, id, t);
    WaitsOrOut(s, calls, now, id, s.messages[id], t);
    if (id, s.messages[id]) !in Out(s, calls, now) {
      NoneLeftWaiting(Called(s, calls, now).value, stop, now, id, s.messages[id], t);
    }
  }

  // ----- A pass that leaves a message behind -----

  /** The entries that are due. */
  function DueCount(es: seq<Entry>, now: Instant): nat {
    if es == [] then 0 else DueCount(es[..|es| - 1], now) + if es[|es| - 1].due <= now then 1 else 0
  }

  lemma DuePush(es: seq<Entry>, e: Entry, now: Instant)
    ensures DueCount(es + [e], now) == DueCount(es, now) + if e.due <= now then 1 else 0
  {
    assert (es + [e])[..|es|] == es;
  }

  lemma {:induction false} DueTaken(es: seq<Entry>, top: nat, now: Instant)
    requires top < |es|
    ensures DueCount(Without(es, top), now) == DueCount(es, now) - if es[top].due <= now then 1 else 0
  {
    var last := |es| - 1;
    if top == last {
      assert Without(es, top) == es[..last];
    } else {
      DueTaken(es[..last], top, now);
      WithoutLast(es, top);
      DuePush(Without(es[..last], top), es[last], now);
    }
  }

  /** Every call leaves fewer entries due. */
  lemma CallLowers(s: Store, c: Call, now: Instant)
    requires Gets(s, c, now)
    ensures DueCount(AfterCall(s, c).scheduled, now) == DueCount(s.scheduled, now) - 1
  {
    hide DueCount, Without;
    DueTaken(s.scheduled, c.at, now);
    if c.placement.Back? {
      DuePush(Without(s.scheduled, c.at), Entry(c.placement.due, s.scheduled[c.at].id), now);
    }
  }

  lemma CalledPush(s: Store, calls: seq<Call>, c: Call, now: Instant)
    requires Called(s, calls, now).Some? && Gets(Called(s, calls, now).value, c, now)
    ensures Called(s, calls + [c], now) == Some(AfterCall(Called(s, calls, now).value, c))
    ensures var k := Called(s, calls, now).value;
            Out(s, calls + [c], now) == Out(s, calls, now) + [(k.scheduled[c.at].id, k.messages[k.scheduled[c.at].id])]
  {
    assert (calls + [c])[..|calls|] == calls;
  }

  lemma CalledNone(s: Store, now: Instant)
    ensures Called(s, [], now) == Some(s) && Out(s, [], now) == []
  {
  }

  /** A pass can be told from its first call on. */
  lemma {:induction false} CalledFrom(s: Store, c: Call, calls: seq<Call>, now: Instant)
    requires Gets(s, c, now)
    ensures Called(s, [c] + calls, now) == Called(AfterCall(s, c), calls, now)
    ensures Out(s, [c] + calls, now)
         == [(s.scheduled[c.at].id, s.messages[s.scheduled[c.at].id])] + Out(AfterCall(s, c), calls, now)
  {
    hide Gets, AfterCall;
    if calls == [] {
      assert [c] + calls == [c];
      assert Called(s, [], now) == Some(s);
    } else {
      var init, last := calls[..|calls| - 1], calls[|calls| - 1];
      CalledFrom(s, c, init, now);
      assert ([c] + calls)[..|calls|] == [c] + init;
    }
  }

  /** Among the entries of other messages, the earliest. */
  predicate EarliestOther(es: seq<Entry>, top: nat, id: QueueId) {
    && top < |es| && es[top].id != id
    && forall j | 0 <= j < |es| :: es[j].id != id ==> es[top].due <= es[j].due
  }

  lemma {:induction false} OtherExists(es: seq<Entry>, i: nat, id: QueueId) returns (top: nat)
    requires i < |es| && es[i].id != id
    ensures EarliestOther(es, top, id)
  {
    var last := |es| - 1;
    if exists j | 0 <= j < last :: es[j].id != id {
      var j :| 0 <= j < last && es[j].id != id;
      top := OtherExists(es[..last], j, id);
      assert forall k | 0 <= k < last :: es[..last][k] == es[k];
      if es[last].id != id && es[last].due < es[top].due {
        top := last;
      }
    } else {
      top := last;
    }
  }

  /** The first entry of `id`. */
  lemma {:induction false} FirstExists(es: seq<Entry>, id: QueueId, now: Instant) returns (t: Instant)
    requires CountBy(es, id, now) > 0
    ensures t <= now && CountBy(es, id, t) > 0
    ensures forall j | 0 <= j < |es| :: es[j].id == id ==> t <= es[j].due
  {
    var last := |es| - 1;
    if CountBy(es[..last], id, now) > 0 {
      t := FirstExists(es[..last], id, now);
      assert forall k | 0 <= k < last :: es[..last][k] == es[k];
      if es[last].id == id && es[last].due < t {
        t := es[last].due;
      }
    } else {
      t := es[last].due;
      forall j | 0 <= j < |es| && es[j].id == id ensures t <= es[j].due {
        if j < last && es[j].due < t {
          CountHas(es[..last], j, now);
        }
      }
    }
  }

  /** Something due by `t` ends a pass: its message is gone, or is gone once the first of its entries is taken. */
  predicate Blocks(s: Store, x: QueueId, t: Instant) {
    CountBy(s.scheduled, x, t) > 1 || (CountBy(s.scheduled, x, t) == 1 && x !in s.messages)
  }

  predicate NotBefore(es: seq<Entry>, id: QueueId, t: Instant) {
    forall j | 0 <= j < |es| :: es[j].id == id ==> t <= es[j].due
  }

  /** The next entry to take while something blocks `id`. */
  lemma NextBlocker(s: Store, id: QueueId, x: QueueId, t: Instant, now: Instant) returns (top: nat)
    requires x != id && Blocks(s, x, t) && NotBefore(s.scheduled, id, t) && t <= now
    ensures IsEarliest(s.scheduled, top) && s.scheduled[top].id != id && s.scheduled[top].due <= t
  {
    hide CountBy;
    var i := CountFinds(s.scheduled, x, t);
    top := OtherExists(s.scheduled, i, id);
  }

  /** While something blocks `id`, a pass may leave it behind, taking the others first and putting nothing back. */
  lemma {:induction false} LeavesBehind(s: Store, id: QueueId, x: QueueId, t: Instant, now: Instant)
    returns (calls: seq<Call>, stop: Option<nat>)
    requires x != id && Blocks(s, x, t) && NotBefore(s.scheduled, id, t) && t <= now
    ensures IsPass(s, calls, stop, now)
    ensures forall k | 0 <= k < |Out(s, calls, now)| :: Out(s, calls, now)[k].0 != id
    decreases |s.scheduled|
  {
    hide CountBy;
    var top := NextBlocker(s, id, x, t, now);
    var e := s.scheduled[top];
    if e.id !in s.messages {
      calls, stop := [], Some(top);
    } else {
      var c := Call(top, Away);
      var s' := AfterCall(s, c);
      CallCounts(s, c, now, x, t);
      assert NotBefore(s'.scheduled, id, t);
      var rest, end := LeavesBehind(s', id, x, t, now);
      CalledFrom(s, c, rest, now);
      calls, stop := [c] + rest, end;
    }
  }

  /** Every pass brings `id` out. */
  ghost predicate AlwaysOut(s: Store, id: QueueId, now: Instant)
    requires id in s.messages
  {
    forall calls, stop | IsPass(s, calls, stop, now) :: (id, s.messages[id]) in Out(s, calls, now)
  }

  /** A due message comes out of every pass exactly when nothing before it can end the pass. */
  lemma OutIffClear(s: Store, id: QueueId, now: Instant)
    requires id in s.messages && CountBy(s.scheduled, id, now) > 0
    ensures AlwaysOut(s, id, now) <==> Clear(s, id, now)
  {
    hide CountBy, IsPass, Out;
    var t := FirstExists(s.scheduled, id, now);
    if ClearUpTo(s, id, t) {
      forall calls, stop | IsPass(s, calls, stop, now) ensures (id, s.messages[id]) in Out(s, calls, now) {
        ClearComesOut(s, calls, stop, now, id);
      }
    } else {
      var x :| x != id && !(CountBy(s.scheduled, x, t) == 0 || (CountBy(s.scheduled, x, t) == 1 && x in s.messages));
      var calls, stop := LeavesBehind(s, id, x, t, now);
      if Clear(s, id, now) {
        ClearComesOut(s, calls, stop, now, id);
      }
    }
  }

  // ----- What a pass leaves -----

  /** The message `m` is there and has an entry that is due. */
  predicate Ready(s: Store, id: QueueId, m: Message, now: Instant) {
    id in s.messages && s.messages[id] == m && CountBy(s.scheduled, id, now) > 0
  }

  lemma CallKeepsReady(s: Store, c: Call, now: Instant, id: QueueId, m: Message)
    requires Gets(s, c, now) && Ready(s, id, m, now) && s.scheduled[c.at].id != id
    ensures Ready(AfterCall(s, c), id, m, now)
  {
    hide CountBy, AfterCall;
    CallCounts(s, c, now, id, now);
    CallKeepsOthers(s, c, now, id);
  }

  lemma {:induction false} ReadyOrOut(s: Store, calls: seq<Call>, now: Instant, id: QueueId, m: Message)
    requires Called(s, calls, now).Some? && Ready(s, id, m, now)
    ensures (id, m) in Out(s, calls, now) || Ready(Called(s, calls, now).value, id, m, now)
  {
    hide Gets, AfterCall, CountBy;
    if calls != [] {
      var init, c := calls[..|calls| - 1], calls[|calls| - 1];
      ReadyOrOut(s, init, now, id, m);
      var k := Called(s, init, now).value;
      if (id, m) !in Out(s, init, now) {
        GetsEntry(k, c, now);
        if k.scheduled[c.at].id == id {
          assert Out(s, calls, now)[|Out(s, init, now)|] == (id, m);
        } else {
          CallKeepsReady(k, c, now, id, m);
        }
      }
    }
  }

  /** A due message comes out, or it is left as it was and the pass ended at an entry without a message. */
  lemma OutOrLeft(s: Store, calls: seq<Call>, stop: Option<nat>, now: Instant, id: QueueId)
    requires IsPass(s, calls, stop, now) && id in s.messages && CountBy(s.scheduled, id, now) > 0
    ensures || (id, s.messages[id]) in Out(s, calls, now)
            || (stop.Some? && Ready(AfterPass(s, calls, stop, now), id, s.messages[id], now))
  {
    hide CountBy, Called, Out;
    var k := Called(s, calls, now).value;
    ReadyOrOut(s, calls, now, id, s.messages[id]);
    if (id, s.messages[id]) !in Out(s, calls, now) {
      if stop.None? {
        CountNone(k.scheduled, id, now);
      } else {
        CountTaken(k.scheduled, stop.value, id, now);
      }
    }
  }

  // ----- The loop -----

  /** One round of the loop: an entry is taken and its message tried, unless none comes out. */
  method DeliverNext(q: Queue, now: Instant, try: (QueueId, Message) -> Placement)
    returns (r: Option<(QueueId, Message)>, ghost c: Call, ghost stop: Option<nat>)
    requires forall id, m :: Fits(try(id, m), id, now)
    modifies q
    ensures r.None? ==>
              && Ends(old(q.View()), stop, now)
              && q.View() == if stop.Some? then TakenDue(old(q.View()), stop.value) else old(q.View())
    ensures r.Some? ==>
              && Gets(old(q.View()), c, now) && q.View() == AfterCall(old(q.View()), c)
              && r.value.0 == old(q.scheduled)[c.at].id && r.value.1 == old(q.messages)[r.value.0]
              && c.placement == try(r.value.0, r.value.1)
  {
    hide Without;
    ghost var s := q.View();
    ghost var top;
    r, top := q.NextDue(now);
    c, stop := Call(0, Away), None;
    if r.None? {
      stop := if s.scheduled == [] || s.scheduled[top].due > now then None else Some(top);
    } else {
      var p := try(r.value.0, r.value.1);
      c := Call(top, p);
      q.Place(r.value.0, p);
    }
  }

  /** The calls leave what came out where `tries` says. */
  ghost predicate Follow(calls: seq<Call>, out: seq<(QueueId, Message)>, tries: (nat, QueueId, Message) -> Placement) {
    |calls| == |out| && forall k | 0 <= k < |out| :: calls[k].placement == tries(k, out[k].0, out[k].1)
  }

  /** Tries what is due, at the time `now`, until no message comes out; `tries` says where each try leaves its message. */
  method DeliverDue(q: Queue, now: Instant, tries: (nat, QueueId, Message) -> Placement)
    returns (out: seq<(QueueId, Message)>, ghost calls: seq<Call>, ghost stop: Option<nat>)
    requires forall n, id, m :: Fits(tries(n, id, m), id, now)
    modifies q
    ensures IsPass(old(q.View()), calls, stop, now) && out == Out(old(q.View()), calls, now)
    ensures q.View() == AfterPass(old(q.View()), calls, stop, now)
    ensures Follow(calls, out, tries)
  {
    hide Called, Out, Gets, AfterCall, Ends, DueCount;
    ghost var s := q.View();
    out, calls, stop := [], [], None;
    CalledNone(s, now);
    var done := false;
    while !done
      invariant Called(s, calls, now).Some? && out == Out(s, calls, now) && Follow(calls, out, tries)
      invariant !done ==> q.View() == Called(s, calls, now).value
      invariant done ==> IsPass(s, calls, stop, now) && q.View() == AfterPass(s, calls, stop, now)
      decreases !done, DueCount(q.scheduled, now)
    {
      ghost var k := q.View();
      var n: nat := |out|;
      var r, c, end := DeliverNext(q, now, (id: QueueId, m: Message) => tries(n, id, m));
      if r.None? {
        done, stop := true, end;
      } else {
        CallLowers(k, c, now);
        CalledPush(s, calls, c, now);
        calls, out := calls + [c], out + [r.value];
      }
    }
  }
}
