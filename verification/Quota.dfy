/** Queue quotas of a whole message: what is reserved, what a refusal gives back, what finished recipients release. */
module Quota {
  import opened Prelude
  import opened QueueTypes
  import opened QuotaCounters

  // ----- One limiter -----

  datatype Counters = Counters(messages: int, size: int)

  const ZERO: Counters := Counters(0, 0)

  predicate Natural(n: Counters) { 0 <= n.messages && 0 <= n.size }

  predicate MessagesFit(c: Limits, n: Counters) { c.maxMessages == 0 || n.messages < c.maxMessages }

  predicate SizeFits(c: Limits, n: Counters, size: nat) { c.maxSize == 0 || n.size + size < c.maxSize }

  /** `is_allowed`: the message is counted before the size is looked at. */
  function Allowed(c: Limits, n: Counters, size: nat): (bool, Counters) {
    if !MessagesFit(c, n) then (false, n)
    else
      var n' := n.(messages := if c.maxMessages > 0 then n.messages + 1 else n.messages);
      if !SizeFits(c, n, size) then (false, n')
      else (true, n'.(size := if c.maxSize > 0 then n.size + size else n.size))
  }

  // ----- The table of limiters -----

  /** Limiters are found by what they limit and by their limits. */
  datatype Key = Key(limits: Limits, subject: Bytes)

  /** A reservation asked for, or held, at a limiter. */
  datatype Claim = Claim(key: Key, id: u64, size: nat)

  type Table = map<Key, Counters>

  function At(t: Table, k: Key): Counters { if k in t then t[k] else ZERO }

  /** `reserve_quota` for a quota that applies: a new limiter is only kept if it admits the claim. */
  function Reserve(t: Table, c: Claim): (bool, Table) {
    var (ok, n) := Allowed(c.key.limits, At(t, c.key), c.size);
    (ok, if ok || c.key in t then t[c.key := n] else t)
  }

  /** A reservation is dropped. */
  function Dropped(t: Table, c: Claim): Table {
    if c.key !in t then t
    else
      var (l, n) := (c.key.limits, t[c.key]);
      t[c.key := Counters(if l.maxMessages > 0 then n.messages - 1 else n.messages,
                          if l.maxSize > 0 then n.size - c.size else n.size)]
  }

  function DroppedAll(t: Table, cs: seq<Claim>): Table {
    if cs == [] then t else Dropped(DroppedAll(t, cs[..|cs| - 1]), cs[|cs| - 1])
  }

  // ----- A message's claims -----

  /** The outcome of claiming: the table and the reservations so far, or the claim that was refused. */
  datatype Outcome = Outcome(table: Table, held: seq<Claim>, refused: Option<Claim>)

  function Claimed(t: Table, cs: seq<Claim>): Outcome {
    if cs == [] then Outcome(t, [], None)
    else
      var o := Claimed(t, cs[..|cs| - 1]);
      var c := cs[|cs| - 1];
      if o.refused.Some? then o
      else
        var (ok, t') := Reserve(o.table, c);
        if ok then Outcome(t', o.held + [c], None) else Outcome(t', o.held, Some(c))
  }

  lemma {:induction false} ClaimingStops(t: Table, cs: seq<Claim>, more: seq<Claim>)
    requires Claimed(t, cs).refused.Some?
    ensures Claimed(t, cs + more) == Claimed(t, cs)
  {
    if more == [] {
      assert cs + more == cs;
    } else {
      ClaimingStops(t, cs, more[..|more| - 1]);
      var all := cs + more;
      assert all[..|all| - 1] == cs + more[..|more| - 1];
    }
  }

  /** `has_quota`: all of the claims or none. */
  function HasQuota(t: Table, cs: seq<Claim>): (bool, Table, seq<Claim>) {
    var o := Claimed(t, cs);
    if o.refused.None? then (true, o.table, o.held) else (false, DroppedAll(o.table, o.held), [])
  }

  // ----- Bookkeeping -----

  function Count(cs: seq<Claim>, k: Key): nat {
    if cs == [] then 0 else Count(cs[..|cs| - 1], k) + if cs[|cs| - 1].key == k then 1 else 0
  }

  function Size(cs: seq<Claim>, k: Key): nat {
    if cs == [] then 0 else Size(cs[..|cs| - 1], k) + if cs[|cs| - 1].key == k then cs[|cs| - 1].size else 0
  }

  lemma PushCount(cs: seq<Claim>, c: Claim, k: Key)
    ensures Count(cs + [c], k) == Count(cs, k) + if c.key == k then 1 else 0
  {
    assert (cs + [c])[..|cs|] == cs;
  }

  lemma PushSize(cs: seq<Claim>, c: Claim, k: Key)
    ensures Size(cs + [c], k) == Size(cs, k) + if c.key == k then c.size else 0
  {
    assert (cs + [c])[..|cs|] == cs;
  }

  /** `b` holds `cs` more than `a` at the limiter of `k`. */
  predicate Raised(a: Counters, b: Counters, cs: seq<Claim>, k: Key) {
    && b.messages == a.messages + (if k.limits.maxMessages > 0 then Count(cs, k) else 0)
    && b.size == a.size + (if k.limits.maxSize > 0 then Size(cs, k) else 0)
  }

  lemma {:induction false} DroppingLowers(t: Table, cs: seq<Claim>, k: Key, n: Counters)
    requires Raised(n, At(t, k), cs, k) && Natural(n)
    ensures At(DroppedAll(t, cs), k) == n
  {
    if cs != [] {
      var rest, c := cs[..|cs| - 1], cs[|cs| - 1];
      var messages := n.messages + if c.key == k && k.limits.maxMessages > 0 then 1 else 0;
      var size := n.size + if c.key == k && k.limits.maxSize > 0 then c.size else 0;
      DroppingLowers(t, rest, k, Counters(messages, size));
    }
  }

  lemma ReservingRaises(t: Table, c: Claim, k: Key)
    requires Reserve(t, c).0
    ensures
      var (a, b) := (At(t, k), At(Reserve(t, c).1, k));
      if c.key != k then b == a
      else
        && b.messages == a.messages + (if k.limits.maxMessages > 0 then 1 else 0)
        && b.size == a.size + (if k.limits.maxSize > 0 then c.size else 0)
  {
  }

  lemma RaisedNone(n: Counters, k: Key)
    ensures Raised(n, n, [], k)
  {
  }

  lemma RaisedPush(a: Counters, t: Table, cs: seq<Claim>, c: Claim, k: Key)
    requires Raised(a, At(t, k), cs, k) && Reserve(t, c).0
    ensures Raised(a, At(Reserve(t, c).1, k), cs + [c], k)
  {
    hide Count, Size, Reserve, At;
    PushCount(cs, c, k);
    PushSize(cs, c, k);
    ReservingRaises(t, c, k);
  }

  lemma {:induction false} ClaimingRaises(t: Table, cs: seq<Claim>, k: Key)
    requires Claimed(t, cs).refused.None?
    ensures Claimed(t, cs).held == cs
    ensures Raised(At(t, k), At(Claimed(t, cs).table, k), cs, k)
  {
    hide Reserve, At, Raised;
    if cs == [] {
      RaisedNone(At(t, k), k);
    } else {
      var rest, c := cs[..|cs| - 1], cs[|cs| - 1];
      ClaimingRaises(t, rest, k);
      assert cs == rest + [c];
      RaisedPush(At(t, k), Claimed(t, rest).table, rest, c, k);
    }
  }

  /** How many claims come before the first that is refused; all of them if none is. */
  function Before(t: Table, cs: seq<Claim>): (n: nat)
    ensures n <= |cs|
  {
    if cs == [] then 0
    else if Claimed(t, cs[..|cs| - 1]).refused.Some? then Before(t, cs[..|cs| - 1])
    else if Claimed(t, cs).refused.Some? then |cs| - 1
    else |cs|
  }

  lemma {:induction false} BeforeRefusal(t: Table, cs: seq<Claim>)
    requires Claimed(t, cs).refused.Some?
    ensures
      var n := Before(t, cs);
      && n < |cs| && Claimed(t, cs[..n]).refused.None?
      && Claimed(t, cs) == Claimed(t, cs[..n + 1]) && Claimed(t, cs).refused == Some(cs[n])
  {
    hide Reserve;
    var rest := cs[..|cs| - 1];
    if Claimed(t, rest).refused.Some? {
      BeforeRefusal(t, rest);
      var n := Before(t, rest);
      assert rest[..n] == cs[..n] && rest[..n + 1] == cs[..n + 1];
    } else {
      assert cs[..|cs|] == cs;
    }
  }

  /** A refusal spoils the limiter `k` if that limiter exists, counted the message, and then found it too large. */
  predicate Spoils(t: Table, c: Claim, k: Key) {
    k == c.key && k in t && k.limits.maxMessages > 0 && MessagesFit(k.limits, t[k])
  }

  lemma RefusingRaises(t: Table, c: Claim, k: Key)
    requires !Reserve(t, c).0
    ensures At(Reserve(t, c).1, k) == if Spoils(t, c, k) then CountedOnce(At(t, k)) else At(t, k)
  {
  }

  /** Only a limit on sizes spoils. */
  lemma SpoiltBySize(t: Table, c: Claim)
    requires !Reserve(t, c).0 && c.key.limits.maxSize == 0
    ensures !Spoils(t, c, c.key)
  {
  }

  function CountedOnce(n: Counters): Counters { n.(messages := n.messages + 1) }

  /** The table as the refused claim met it: the claims before it reserved. */
  function Met(t: Table, cs: seq<Claim>): Table { Claimed(t, cs[..Before(t, cs)]).table }

  lemma RefusedAt(t: Table, cs: seq<Claim>)
    requires Claimed(t, cs).refused.Some?
    ensures
      var (n, o) := (Before(t, cs), Claimed(t, cs));
      && n < |cs| && o.refused == Some(cs[n]) && o.held == cs[..n]
      && Claimed(t, cs[..n]).refused.None? && !Reserve(Met(t, cs), cs[n]).0 && o.table == Reserve(Met(t, cs), cs[n]).1
  {
    hide Reserve, At;
    BeforeRefusal(t, cs);
    var n := Before(t, cs);
    assert cs[..n + 1][..n] == cs[..n];
    ClaimingRaises(t, cs[..n], cs[n].key);
  }

  /** A refused message leaves every counter as it was, but for the one message its refusal may have counted. */
  lemma RefusalGivesBack(t: Table, cs: seq<Claim>, k: Key)
    requires !HasQuota(t, cs).0 && Natural(At(t, k))
    ensures
      At(HasQuota(t, cs).1, k) ==
      if Spoils(Met(t, cs), Claimed(t, cs).refused.value, k) then CountedOnce(At(t, k)) else At(t, k)
  {
    hide Reserve, At, Claimed, Before, DroppedAll, Spoils;
    RefusedAt(t, cs);
    var (n, o) := (Before(t, cs), Claimed(t, cs));
    var early := cs[..n];
    ClaimingRaises(t, early, k);
    RefusingRaises(Met(t, cs), cs[n], k);
    DroppingLowers(o.table, early, k, if Spoils(Met(t, cs), cs[n], k) then CountedOnce(At(t, k)) else At(t, k));
  }

  /** So it changes nothing at all exactly when no limiter was spoilt, in particular when no quota limits sizes. */
  lemma RefusalUnnoticedIff(t: Table, cs: seq<Claim>)
    requires !HasQuota(t, cs).0 && forall k :: Natural(At(t, k))
    ensures (forall k :: At(HasQuota(t, cs).1, k) == At(t, k))
       <==> !Spoils(Met(t, cs), Claimed(t, cs).refused.value, Claimed(t, cs).refused.value.key)
    ensures (forall i | 0 <= i < |cs| :: cs[i].key.limits.maxSize == 0) ==> forall k :: At(HasQuota(t, cs).1, k) == At(t, k)
  {
    hide Reserve, At, Claimed, Before, DroppedAll;
    RefusedAt(t, cs);
    forall k
      ensures At(HasQuota(t, cs).1, k) ==
        if Spoils(Met(t, cs), Claimed(t, cs).refused.value, k) then CountedOnce(At(t, k)) else At(t, k)
    {
      RefusalGivesBack(t, cs, k);
    }
    var c := Claimed(t, cs).refused.value;
    assert Spoils(Met(t, cs), c, c.key) ==> At(HasQuota(t, cs).1, c.key) == CountedOnce(At(t, c.key));
    if c.key.limits.maxSize == 0 {
      SpoiltBySize(Met(t, cs), c);
    }
  }

  /** A message admitted holds every claim it made. */
  lemma AdmissionHoldsAll(t: Table, cs: seq<Claim>, k: Key)
    requires HasQuota(t, cs).0
    ensures HasQuota(t, cs).2 == cs && Raised(At(t, k), At(HasQuota(t, cs).1, k), cs, k)
  {
    ClaimingRaises(t, cs, k);
  }

  /** Admitting a message and dropping it again restores every counter. */
  lemma DropUndoesAdmission(t: Table, cs: seq<Claim>, k: Key)
    requires HasQuota(t, cs).0 && Natural(At(t, k))
    ensures At(DroppedAll(HasQuota(t, cs).1, cs), k) == At(t, k)
  {
    ClaimingRaises(t, cs, k);
    DroppingLowers(HasQuota(t, cs).1, cs, k, At(t, k));
  }
}
