/** The queue manager's own state, and the times at which a message needs attention. */
module QueueManager {
  import opened Prelude
  import opened QueueTypes
  import opened Lifecycle

  type QueueId = nat

  datatype Entry = Entry(due: Instant, id: QueueId)

  /** The concurrency limiters, which the on-hold list shares with everybody else. */
  type LimiterId = nat

  datatype OnHold = OnHold(nextDue: Option<Instant>, limiters: seq<LimiterId>, id: QueueId)

  /** A message on hold can go on when a limiter has room, as one of the `free` ones has, or when its time has come. */
  predicate Releasable(o: OnHold, now: Instant, free: set<LimiterId>) {
    || (exists i | 0 <= i < |o.limiters| :: o.limiters[i] in free)
    || (o.nextDue.Some? && o.nextDue.value <= now)
  }

  lemma ReleasableIff(o: OnHold, now: Instant, free: set<LimiterId>)
    ensures Releasable(o, now, free) <==>
      (exists x :: x in o.limiters && x in free) || (o.nextDue.Some? && !(now < o.nextDue.value))
  {
    if x :| x in o.limiters && x in free {
      var i :| 0 <= i < |o.limiters| && o.limiters[i] == x;
    }
  }

  /** The first entry on hold that can go on. */
  predicate IsFirst(hs: seq<OnHold>, pos: nat, now: Instant, free: set<LimiterId>) {
    pos < |hs| && Releasable(hs[pos], now, free) && forall j | 0 <= j < pos :: !Releasable(hs[j], now, free)
  }

  /** The entry that the heap, ordered by reversed due time, has on top. */
  predicate IsEarliest(h: seq<Entry>, i: nat) {
    i < |h| && forall j | 0 <= j < |h| :: h[i].due <= h[j].due
  }

  /** The heap, the list of messages on hold, and the messages themselves; entries may outlive their message. */
  datatype Store = Store(scheduled: seq<Entry>, onHold: seq<OnHold>, messages: map<QueueId, Message>)

  function WithScheduled(s: Store, due: Instant, id: QueueId, m: Message): Store {
    s.(scheduled := s.scheduled + [Entry(due, id)], messages := s.messages[id := m])
  }

  function WithHeld(s: Store, o: OnHold, m: Message): Store {
    s.(onHold := s.onHold + [o], messages := s.messages[o.id := m])
  }

  /** An entry of the heap is taken, and with it its message. */
  function TakenDue(s: Store, top: nat): Store
    requires top < |s.scheduled|
  {
    s.(scheduled := Without(s.scheduled, top), messages := s.messages - {s.scheduled[top].id})
  }

  /** An entry on hold is taken, and with it its message. */
  function TakenHeld(s: Store, pos: nat): Store
    requires pos < |s.onHold|
  {
    s.(onHold := Without(s.onHold, pos), messages := s.messages - {s.onHold[pos].id})
  }

  function Keep(hs: seq<OnHold>, id: QueueId): seq<OnHold> {
    if hs == [] then [] else (if hs[0].id == id then [] else [hs[0]]) + Keep(hs[1..], id)
  }

  /** An operator's retry: the message is off hold, changed, and has a new entry. */
  function Rescheduled(s: Store, due: Instant, id: QueueId, m: Message): Store {
    s.(scheduled := s.scheduled + [Entry(due, id)], onHold := Keep(s.onHold, id), messages := s.messages[id := m])
  }

  /** Where a try leaves its message: with a worker or nowhere, in the heap again, or on hold again. */
  datatype Placement = Away | Back(due: Instant, m: Message) | HeldAgain(o: OnHold, m: Message)

  function Put(s: Store, id: QueueId, p: Placement): Store {
    match p
    case Away => s
    case Back(due, m) => WithScheduled(s, due, id, m)
    case HeldAgain(o, m) => WithHeld(s, o, m)
  }

  // ----- The object -----

  class Queue {
    var scheduled: seq<Entry>
    var onHold: seq<OnHold>
    var messages: map<QueueId, Message>

    ghost function View(): Store
      reads this
    {
      Store(scheduled, onHold, messages)
    }

    constructor ()
      ensures View() == Store([], [], map[])
    {
      scheduled, onHold, messages := [], [], map[];
    }

    method Schedule(due: Instant, id: QueueId, m: Message)
      modifies this
      ensures View() == WithScheduled(old(View()), due, id, m)
    {
      scheduled := scheduled + [Entry(due, id)];
      messages := messages[id := m];
    }

    method Hold(o: OnHold, m: Message)
      modifies this
      ensures View() == WithHeld(old(View()), o, m)
    {
      onHold := onHold + [o];
      messages := messages[o.id := m];
    }

    /** The end of a try. */
    method Place(id: QueueId, p: Placement)
      modifies this
      ensures View() == Put(old(View()), id, p)
    {
      match p {
        case Away =>
        case Back(due, m) => Schedule(due, id, m);
        case HeldAgain(o, m) => Hold(o, m);
      }
    }

    /** Takes the earliest entry if it is due; its message comes out only if it is still in the map. */
    method NextDue(now: Instant) returns (r: Option<(QueueId, Message)>, ghost top: nat)
      modifies this
      ensures old(scheduled) == [] ==> r == None && View() == old(View())
      ensures old(scheduled) != [] ==> IsEarliest(old(scheduled), top)
      ensures old(scheduled) != [] && now < old(scheduled)[top].due ==> r == None && View() == old(View())
      ensures old(scheduled) != [] && old(scheduled)[top].due <= now ==>
                var id := old(scheduled)[top].id;
                View() == TakenDue(old(View()), top) && r == if id in old(messages) then Some((id, old(messages)[id])) else None
    {
      top := 0;
      if scheduled == [] {
        return None, 0;
      }
      var i := Peek();
      top := i;
      if scheduled[i].due > now {
        return None, i;
      }
      var id := scheduled[i].id;
      scheduled := Without(scheduled, i);
      if id in messages {
        r := Some((id, messages[id]));
        messages := messages - {id};
      } else {
        r := None;
        assert messages - {id} == messages;
      }
    }

    method Peek() returns (i: nat)
      requires scheduled != []
      ensures IsEarliest(scheduled, i)
    {
      i := 0;
      for j := 1 to |scheduled|
        invariant i < |scheduled| && forall k | 0 <= k < j :: scheduled[i].due <= scheduled[k].due
      {
        if scheduled[j].due < scheduled[i].due {
          i := j;
        }
      }
    }

    /** Takes the first message on hold that can be released; the entry goes even if the message is no longer there. */
    method NextOnHold(now: Instant, free: set<LimiterId>) returns (r: Option<(QueueId, Message)>, ghost pos: nat)
      modifies this
      ensures pos <= |old(onHold)| && forall j | 0 <= j < pos :: !Releasable(old(onHold)[j], now, free)
      ensures pos == |old(onHold)| ==> r == None && View() == old(View())
      ensures pos < |old(onHold)| ==>
                var id := old(onHold)[pos].id;
                && IsFirst(old(onHold), pos, now, free) && View() == TakenHeld(old(View()), pos)
                && r == if id in old(messages) then Some((id, old(messages)[id])) else None
    {
      var i := 0;
      while i < |onHold| && !Releasable(onHold[i], now, free)
        invariant i <= |onHold| && forall j | 0 <= j < i :: !Releasable(onHold[j], now, free)
      {
        i := i + 1;
      }
      pos := i;
      if i == |onHold| {
        return None, i;
      }
      var id := onHold[i].id;
      onHold := Without(onHold, i);
      if id in messages {
        r := Some((id, messages[id]));
        messages := messages - {id};
      } else {
        r := None;
        assert messages - {id} == messages;
      }
    }

    /** The end of an operator's retry: off hold, changed, with a new entry. */
    method Reschedule(due: Instant, id: QueueId, m: Message)
      modifies this
      ensures View() == Rescheduled(old(View()), due, id, m)
    {
      onHold := Retain(onHold, id);
      messages := messages[id := m];
      scheduled := scheduled + [Entry(due, id)];
    }
  }

  /** What the operator's retry leaves on hold: every entry of another message, in its order. */
  lemma {:induction false} KeepsOthers(hs: seq<OnHold>, o: OnHold, id: QueueId)
    ensures Keep([], id) == [] && Keep(hs + [o], id) == Keep(hs, id) + if o.id == id then [] else [o]
  {
    var first, last := if hs == [] || hs[0].id == id then [] else [hs[0]], if o.id == id then [] else [o];
    if hs == [] {
      assert hs + [o] == [o] && [o][1..] == [];
    } else {
      var rest := hs[1..];
      assert (hs + [o])[0] == hs[0] && (hs + [o])[1..] == rest + [o];
      KeepsOthers(rest, o, id);
      assert first + (Keep(rest, id) + last) == (first + Keep(rest, id)) + last;
    }
  }

  method Retain(hs: seq<OnHold>, id: QueueId) returns (kept: seq<OnHold>)
    ensures kept == Keep(hs, id)
  {
    kept := [];
    for i := 0 to |hs|
      invariant kept + Keep(hs[i..], id) == Keep(hs, id)
    {
      assert hs[i..][0] == hs[i] && hs[i..][1..] == hs[i + 1..];
      if hs[i].id != id {
        kept := kept + [hs[i]];
      }
    }
  }

  // ----- When a message needs attention -----

  /** The times of a pending domain. */
  function Times(d: Domain): set<Instant> {
    {d.retry.due, d.notify.due, d.expires}
  }

  function PendingTimes(m: Message): set<Instant> {
    set i, t | 0 <= i < |m.domains| && m.domains[i].status.Pending() && t in Times(m.domains[i]) :: t
  }

  function LaterThan(ts: set<Instant>, instant: Instant): set<Instant> {
    set u | u in ts && u > instant
  }

  predicate Earliest(ts: set<Instant>, t: Option<Instant>) {
    if t.Some? then t.value in ts && forall u | u in ts :: t.value <= u else ts == {}
  }

  /** `next_event`: the earliest time of any pending domain. */
  method NextEvent(m: Message, now: Instant) returns (t: Option<Instant>)
    ensures Earliest(PendingTimes(m), t)
    ensures t.Some? <==> SomePending(m)
  {
    var next, has := now, false;
    ghost var seen: set<Instant> := {};
    for i := 0 to |m.domains|
      invariant seen == set j, t | 0 <= j < i && m.domains[j].status.Pending() && t in Times(m.domains[j]) :: t
      invariant has <==> exists j | 0 <= j < i :: m.domains[j].status.Pending()
      invariant Earliest(seen, if has then Some(next) else None)
    {
      var d := m.domains[i];
      if d.status.Pending() {
        if !has || d.retry.due < next {
          next, has := d.retry.due, true;
        }
        if d.notify.due < next {
          next := d.notify.due;
        }
        if d.expires < next {
          next := d.expires;
        }
        seen := seen + Times(d);
      }
    }
    t := if has then Some(next) else None;
  }

  /** `t` is no later than any retry of a pending domain. */
  predicate NoLater(t: Instant, m: Message) {
    forall i | 0 <= i < |m.domains| && m.domains[i].status.Pending() :: t <= m.domains[i].retry.due
  }

  /** `t` is the earliest retry of a pending domain. */
  predicate EarliestRetry(m: Message, t: Instant) {
    NoLater(t, m) && exists i | 0 <= i < |m.domains| :: m.domains[i].status.Pending() && m.domains[i].retry.due == t
  }

  /** A pending domain wants attention, for a notice or its expiry, before `t`. */
  predicate WantedBefore(m: Message, t: Instant) {
    exists i | 0 <= i < |m.domains| :: m.domains[i].status.Pending() && (m.domains[i].notify.due < t || m.domains[i].expires < t)
  }

  /** The earliest retry, to which a message is put off, is its next event exactly when no notice or expiry comes before it. */
  lemma RetryIsNextEventIff(m: Message, t: Instant)
    requires EarliestRetry(m, t)
    ensures Earliest(PendingTimes(m), Some(t)) <==> !WantedBefore(m, t)
  {
    var k :| 0 <= k < |m.domains| && m.domains[k].status.Pending() && m.domains[k].retry.due == t;
    assert t in Times(m.domains[k]);
    if i :| 0 <= i < |m.domains| && m.domains[i].status.Pending() && (m.domains[i].notify.due < t || m.domains[i].expires < t) {
      assert m.domains[i].notify.due in Times(m.domains[i]) && m.domains[i].expires in Times(m.domains[i]);
      assert m.domains[i].notify.due in PendingTimes(m) && m.domains[i].expires in PendingTimes(m);
    }
  }

  /** `next_delivery_event`: the earliest retry time of any pending domain, or now. */
  method NextDeliveryEvent(m: Message, now: Instant) returns (t: Instant)
    ensures if SomePending(m) then EarliestRetry(m, t) else t == now
  {
    t := now;
    var pos := 0;
    for i := 0 to |m.domains|
      invariant pos == 0 ==> t == now && forall j | 0 <= j < i :: !m.domains[j].status.Pending()
      invariant pos > 0 ==> exists j | 0 <= j < i :: m.domains[j].status.Pending() && m.domains[j].retry.due == t
      invariant forall j | 0 <= j < i && m.domains[j].status.Pending() :: t <= m.domains[j].retry.due
    {
      var d := m.domains[i];
      if d.status.Pending() {
        if pos == 0 || d.retry.due < t {
          t := d.retry.due;
        }
        pos := pos + 1;
      }
    }
  }

  function Sooner(t: Option<Instant>, u: Instant, instant: Instant): Option<Instant> {
    if u > instant && (t.None? || u < t.value) then Some(u) else t
  }

  lemma SoonerIsEarliest(ts: set<Instant>, t: Option<Instant>, u: Instant, instant: Instant)
    requires Earliest(ts, t)
    ensures Earliest(ts + LaterThan({u}, instant), Sooner(t, u, instant))
  {
    if u > instant {
      assert LaterThan({u}, instant) == {u};
    } else {
      assert LaterThan({u}, instant) == {};
    }
  }

  /** The times of the first `n` domains. */
  function TimesOf(m: Message, n: nat): set<Instant>
    requires n <= |m.domains|
  {
    if n == 0 then {}
    else TimesOf(m, n - 1) + if m.domains[n - 1].status.Pending() then Times(m.domains[n - 1]) else {}
  }

  lemma {:induction false} TimesAreAll(m: Message, n: nat)
    requires n <= |m.domains|
    ensures TimesOf(m, n) == set i, t | 0 <= i < n && m.domains[i].status.Pending() && t in Times(m.domains[i]) :: t
  {
    if n > 0 {
      TimesAreAll(m, n - 1);
    }
  }

  /** `next_event_after`: the earliest time of any pending domain that is later than `instant`. */
  method NextEventAfter(m: Message, instant: Instant) returns (t: Option<Instant>)
    ensures Earliest(LaterThan(PendingTimes(m), instant), t)
  {
    hide Earliest;
    t := None;
    assert Earliest({}, None) by { NoTimes(); }
    assert LaterThan({}, instant) == {};
    for i := 0 to |m.domains|
      invariant Earliest(LaterThan(TimesOf(m, i), instant), t)
    {
      var d := m.domains[i];
      ghost var seen := LaterThan(TimesOf(m, i), instant);
      if d.status.Pending() {
        SoonerIsEarliest(seen, t, d.retry.due, instant);
        if d.retry.due > instant && (t.None? || d.retry.due < t.value) {
          t := Some(d.retry.due);
        }
        seen := seen + LaterThan({d.retry.due}, instant);
        SoonerIsEarliest(seen, t, d.notify.due, instant);
        if d.notify.due > instant && (t.None? || d.notify.due < t.value) {
          t := Some(d.notify.due);
        }
        seen := seen + LaterThan({d.notify.due}, instant);
        SoonerIsEarliest(seen, t, d.expires, instant);
        if d.expires > instant && (t.None? || d.expires < t.value) {
          t := Some(d.expires);
        }
        seen := seen + LaterThan({d.expires}, instant);
      }
      assert seen == LaterThan(TimesOf(m, i + 1), instant);
    }
    TimesAreAll(m, |m.domains|);
  }

  lemma NoTimes()
    ensures Earliest({}, None)
  {
  }
}
