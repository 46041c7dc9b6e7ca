/** The books of all queued messages against the limiters, over every run; and the object that keeps the limiters. */
module QuotaBooks {
  import opened Prelude
  import opened QueueTypes
  import opened QuotaCounters
  import opened Quota

  /** At `k`: sizes are exact and below the maximum, messages at least as many as held and at most the maximum. */
  predicate Backed(k: Key, n: Counters, live: seq<Claim>) {
    && (if k.limits.maxSize > 0 then n.size == Size(live, k) && n.size < k.limits.maxSize else n.size == 0)
    && (if k.limits.maxMessages > 0 then Count(live, k) <= n.messages <= k.limits.maxMessages else n.messages == 0)
  }

  ghost predicate AllBacked(t: Table, live: seq<Claim>) {
    forall k :: Backed(k, At(t, k), live)
  }

  // ----- Each operation keeps the books -----

  lemma ReservingBacks(t: Table, c: Claim, live: seq<Claim>, k: Key)
    requires Backed(k, At(t, k), live)
    ensures Backed(k, At(Reserve(t, c).1, k), if Reserve(t, c).0 then live + [c] else live)
  {
    hide Count, Size;
    PushCount(live, c, k);
    PushSize(live, c, k);
  }

  lemma {:induction false} ClaimingBacks(t: Table, cs: seq<Claim>, live: seq<Claim>, k: Key)
    requires Backed(k, At(t, k), live)
    ensures Backed(k, At(Claimed(t, cs).table, k), live + Claimed(t, cs).held)
  {
    hide Backed, At, Reserve;
    if cs == [] {
      assert live + [] == live;
    } else {
      var rest, c := cs[..|cs| - 1], cs[|cs| - 1];
      ClaimingBacks(t, rest, live, k);
      var o := Claimed(t, rest);
      if o.refused.None? {
        ReservingBacks(o.table, c, live + o.held, k);
        assert live + o.held + [c] == live + (o.held + [c]);
      }
    }
  }

  lemma {:induction false} CountWithout(live: seq<Claim>, i: nat, k: Key)
    requires i < |live|
    ensures Count(Without(live, i), k) == Count(live, k) - if live[i].key == k then 1 else 0
  {
    var last := |live| - 1;
    if i == last {
      assert Without(live, i) == live[..last];
    } else {
      CountWithout(live[..last], i, k);
      WithoutLast(live, i);
      PushCount(Without(live[..last], i), live[last], k);
    }
  }

  lemma {:induction false} SizeWithout(live: seq<Claim>, i: nat, k: Key)
    requires i < |live|
    ensures Size(Without(live, i), k) == Size(live, k) - if live[i].key == k then live[i].size else 0
  {
    var last := |live| - 1;
    if i == last {
      assert Without(live, i) == live[..last];
    } else {
      SizeWithout(live[..last], i, k);
      WithoutLast(live, i);
      PushSize(Without(live[..last], i), live[last], k);
    }
  }

  lemma DroppingBacks(t: Table, live: seq<Claim>, i: nat, k: Key)
    requires i < |live| && Backed(k, At(t, k), live)
    ensures Backed(k, At(Dropped(t, live[i]), k), Without(live, i))
  {
    hide Count, Size, Without;
    CountWithout(live, i, k);
    SizeWithout(live, i, k);
  }

  /** After the first `n` of `held` are dropped, the rest are still backed. */
  lemma {:induction false} DroppingSomeBacks(t: Table, live: seq<Claim>, held: seq<Claim>, n: nat, k: Key)
    requires n <= |held| && Backed(k, At(t, k), live + held)
    ensures Backed(k, At(DroppedAll(t, held[..n]), k), live + held[n..])
  {
    hide Backed, At, Dropped;
    if n == 0 {
      assert live + held[n..] == live + held;
    } else {
      DroppingSomeBacks(t, live, held, n - 1, k);
      var left := live + held[n - 1..];
      DroppingBacks(DroppedAll(t, held[..n - 1]), left, |live|, k);
      assert Without(left, |live|) == live + held[n..];
      assert held[..n][..n - 1] == held[..n - 1];
    }
  }

  lemma HasQuotaBacks(t: Table, cs: seq<Claim>, live: seq<Claim>, k: Key)
    requires Backed(k, At(t, k), live)
    ensures Backed(k, At(HasQuota(t, cs).1, k), live + HasQuota(t, cs).2)
  {
    hide Backed, At, Claimed, DroppedAll;
    ClaimingBacks(t, cs, live, k);
    var o := Claimed(t, cs);
    if o.refused.Some? {
      DroppingSomeBacks(o.table, live, o.held, |o.held|, k);
      assert o.held[..|o.held|] == o.held && live + o.held[|o.held|..] == live + [];
    }
  }

  /** `cleanup` keeps the limiters that count anything. */
  function Cleaned(t: Table): Table {
    map k | k in t && (t[k].messages > 0 || t[k].size > 0) :: t[k]
  }

  lemma CleaningIsUnnoticed(t: Table, live: seq<Claim>, k: Key)
    requires Backed(k, At(t, k), live)
    ensures At(Cleaned(t), k) == At(t, k)
  {
  }

  /** A limiter that is cleaned away holds no reservation that its limits could tell from none. */
  lemma CleanedAreUnused(t: Table, live: seq<Claim>, k: Key)
    requires Backed(k, At(t, k), live) && k in t && k !in Cleaned(t)
    ensures k.limits.maxMessages > 0 ==> Count(live, k) == 0
    ensures k.limits.maxSize > 0 ==> Size(live, k) == 0
  {
  }

  /** Cleanup changes no decision. */
  lemma CleaningDecidesNothing(t: Table, live: seq<Claim>, c: Claim)
    requires Backed(c.key, At(t, c.key), live)
    ensures Reserve(Cleaned(t), c).0 == Reserve(t, c).0
  {
    CleaningIsUnnoticed(t, live, c.key);
  }

  // ----- Runs -----

  /** One claim of any message is made, one reservation is dropped, or the table is cleaned. */
  datatype Op = Ask(claim: Claim) | Drop(i: nat) | Clean

  /** The limiters, the reservations alive, and the refused claims whose message stayed counted. */
  datatype Books = Books(table: Table, live: seq<Claim>, lost: seq<Claim>)

  function Do(b: Books, op: Op): Option<Books> {
    match op
    case Ask(c) =>
      var (ok, t) := Reserve(b.table, c);
      var counted := At(t, c.key).messages > At(b.table, c.key).messages;
      Some(Books(t, if ok then b.live + [c] else b.live, if !ok && counted then b.lost + [c] else b.lost))
    case Drop(i) => if i < |b.live| then Some(Books(Dropped(b.table, b.live[i]), Without(b.live, i), b.lost)) else None
    case Clean => Some(b.(table := Cleaned(b.table)))
  }

  function Reached(ops: seq<Op>): Option<Books> {
    if ops == [] then Some(Books(map[], [], []))
    else
      var b := Reached(ops[..|ops| - 1]);
      if b.Some? then Do(b.value, ops[|ops| - 1]) else None
  }

  /** Over every run, with the claims of different messages in any order, each limiter is backed by the reservations alive. */
  lemma {:induction false} BooksBalance(ops: seq<Op>)
    requires Reached(ops).Some?
    ensures AllBacked(Reached(ops).value.table, Reached(ops).value.live)
  {
    hide Backed, At, Reserve, Dropped, Cleaned;
    if ops == [] {
      forall k ensures Backed(k, At(map[], k), []) { NothingIsBacked(k); }
    } else {
      BooksBalance(ops[..|ops| - 1]);
      var (b, op) := (Reached(ops[..|ops| - 1]).value, ops[|ops| - 1]);
      var b' := Reached(ops).value;
      forall k ensures Backed(k, At(b'.table, k), b'.live) {
        assert Backed(k, At(b.table, k), b.live);
        match op
        case Ask(c) => ReservingBacks(b.table, c, b.live, k);
        case Drop(i) => DroppingBacks(b.table, b.live, i, k);
        case Clean => CleaningIsUnnoticed(b.table, b.live, k);
      }
    }
  }

  lemma NothingIsBacked(k: Key)
    ensures Backed(k, At(map[], k), [])
  {
  }

  /** In every run, a refused message changes no counter if no quota of its limits sizes. */
  lemma RefusalsBalance(ops: seq<Op>, cs: seq<Claim>, k: Key)
    requires Reached(ops).Some? && !HasQuota(Reached(ops).value.table, cs).0
    requires forall i | 0 <= i < |cs| :: cs[i].key.limits.maxSize == 0
    ensures At(HasQuota(Reached(ops).value.table, cs).1, k) == At(Reached(ops).value.table, k)
  {
    hide HasQuota, At;
    BooksBalance(ops);
    var b := Reached(ops).value;
    forall k ensures Natural(At(b.table, k)) { assert Backed(k, At(b.table, k), b.live); }
    RefusalUnnoticedIff(b.table, cs);
  }
}
