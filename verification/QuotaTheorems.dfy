/** When a quota admits a message, over every run of the books. */
module QuotaTheorems {
  import opened Prelude
  import opened QueueTypes
  import C = QuotaCounters
  import opened Quota
  import opened QuotaBooks
  import opened QuotaTables

  // ----- The check is the atomic steps, one after another -----

  /** A reservation of `size` that nothing interrupts, step by step until it is decided. */
  function Uninterrupted(c: C.Limits, s: C.State, size: nat): C.State
    requires s.phase.Idle?
  {
    var s1 := C.Next(c, s, C.LoadMessages(size));
    var s2 := if s1.phase.MessagesLoaded? then C.Next(c, s1, C.AddMessage) else s1;
    var s3 := if s2.phase.MessagesAdded? then C.Next(c, s2, C.LoadSize) else s2;
    if s3.phase.SizeLoaded? then C.Next(c, s3, C.AddSize) else s3
  }

  /** Run without interruption, the steps end idle, and their verdict and counters are those of the check. */
  lemma AllowedIsSteps(c: C.Limits, s: C.State, size: nat)
    requires s.phase.Idle?
    ensures
      var s' := Uninterrupted(c, s, size);
      && s'.phase.Idle? && s'.leaving == s.leaving
      && Allowed(c, Counters(s.messages, s.size), size) == (s'.live == s.live + [size], Counters(s'.messages, s'.size))
      && (s'.live == s.live || s'.live == s.live + [size])
  {
  }

  /** A limiter enters the table with its first reservation as the steps have it, and not otherwise. */
  lemma OpeningIsAllowed(t: Table, c: Claim)
    requires c.key !in t
    ensures
      var l := c.key.limits;
      Reserve(t, c) == if C.Opens(l, c.size) then (true, t[c.key := Counters(C.Opened(l, c.size).messages, C.Opened(l, c.size).size)]) else (false, t)
  {
  }

  // ----- Runs of the books -----

  /** What a limiter of messages counts: the reservations alive and the refusals that stayed counted. */
  predicate Counts(b: Books, k: Key) {
    k.limits.maxMessages > 0 ==> At(b.table, k).messages == Count(b.live, k) + Count(b.lost, k)
  }

  lemma AskCounts(b: Books, c: Claim, k: Key)
    requires Backed(k, At(b.table, k), b.live) && Counts(b, k)
    ensures Counts(Do(b, Ask(c)).value, k)
  {
    hide Count, Size;
    PushCount(b.live, c, k);
    PushCount(b.lost, c, k);
  }

  lemma DropCounts(b: Books, i: nat, k: Key)
    requires i < |b.live| && Backed(k, At(b.table, k), b.live) && Counts(b, k)
    ensures Counts(Do(b, Drop(i)).value, k)
  {
    hide Count, Size, Without;
    CountWithout(b.live, i, k);
  }

  lemma {:induction false} BooksCount(ops: seq<Op>, k: Key)
    requires Reached(ops).Some?
    ensures Backed(k, At(Reached(ops).value.table, k), Reached(ops).value.live) && Counts(Reached(ops).value, k)
  {
    hide Backed, At, Do;
    BooksBalance(ops);
    if ops == [] {
      NothingCounted(k);
    } else {
      var init, op := ops[..|ops| - 1], ops[|ops| - 1];
      BooksCount(init, k);
      var b := Reached(init).value;
      match op
      case Ask(c) => AskCounts(b, c, k);
      case Drop(i) =>
        DropExists(b, i);
        DropCounts(b, i, k);
      case Clean => CleanCounts(b, k);
    }
  }

  lemma NothingCounted(k: Key)
    ensures Counts(Books(map[], [], []), k)
  {
  }

  lemma DropExists(b: Books, i: nat)
    requires Do(b, Drop(i)).Some?
    ensures i < |b.live|
  {
  }

  lemma CleanCounts(b: Books, k: Key)
    requires Backed(k, At(b.table, k), b.live) && Counts(b, k)
    ensures Do(b, Clean).Some? && Counts(Do(b, Clean).value, k)
  {
    CleaningIsUnnoticed(b.table, b.live, k);
  }

  /**
    In every run a claim is refused if and only if its limiter counts as many messages as it may, or the
    sizes of the reservations alive and its own reach the limit on sizes.
  */
  lemma RefusedIff(ops: seq<Op>, c: Claim)
    requires Reached(ops).Some?
    ensures
      var b, l := Reached(ops).value, c.key.limits;
      !Reserve(b.table, c).0 <==>
        || (l.maxMessages > 0 && Count(b.live, c.key) + Count(b.lost, c.key) == l.maxMessages)
        || (l.maxSize > 0 && Size(b.live, c.key) + c.size >= l.maxSize)
  {
    hide Count, Size, Reached;
    BooksCount(ops, c.key);
  }

  /** In every run a cleanup keeps exactly the limiters that count a message or a size. */
  lemma CleanedIff(ops: seq<Op>, k: Key)
    requires Reached(ops).Some?
    ensures
      var b := Reached(ops).value;
      k in Cleaned(b.table) <==>
        || (k.limits.maxMessages > 0 && Count(b.live, k) + Count(b.lost, k) > 0)
        || (k.limits.maxSize > 0 && Size(b.live, k) > 0)
  {
    hide Count, Size, Reached;
    BooksCount(ops, k);
  }

  /** Only a limit on sizes loses places. */
  lemma {:induction false} NothingLost(ops: seq<Op>, k: Key)
    requires Reached(ops).Some? && k.limits.maxSize == 0
    ensures Count(Reached(ops).value.lost, k) == 0
  {
    if ops != [] {
      var init, op := ops[..|ops| - 1], ops[|ops| - 1];
      NothingLost(init, k);
      if op.Ask? {
        PushCount(Reached(init).value.lost, op.claim, k);
      }
    }
  }

  /** Claims made one after another. */
  function Asks(cs: seq<Claim>): seq<Op> { seq(|cs|, i requires 0 <= i < |cs| => Ask(cs[i])) }

  predicate AllAt(cs: seq<Claim>, k: Key) {
    forall i | 0 <= i < |cs| :: cs[i].key == k
  }

  lemma {:induction false} CountAllAt(cs: seq<Claim>, k: Key)
    requires AllAt(cs, k)
    ensures Count(cs, k) == |cs|
  {
    if cs != [] {
      CountAllAt(cs[..|cs| - 1], k);
    }
  }

  /** From the start, a limit of messages alone admits exactly as many claims as it says: the first ones. */
  lemma {:induction false} AdmitsExactly(cs: seq<Claim>, k: Key)
    requires AllAt(cs, k) && k.limits.maxSize == 0 && k.limits.maxMessages > 0
    ensures Reached(Asks(cs)).Some?
    ensures Reached(Asks(cs)).value.live == cs[..if |cs| <= k.limits.maxMessages then |cs| else k.limits.maxMessages]
  {
    hide Reached;
    var max := k.limits.maxMessages;
    if cs == [] {
      assert Asks(cs) == [];
      NothingAsked();
    } else {
      var rest, c := cs[..|cs| - 1], cs[|cs| - 1];
      AllButLast(cs, k);
      AdmitsExactly(rest, k);
      AskOneMore(cs, k);
      assert cs == rest + [c];
    }
  }

  lemma NothingAsked()
    ensures Reached([]).Some? && Reached([]).value.live == []
  {
  }

  lemma AllButLast(cs: seq<Claim>, k: Key)
    requires AllAt(cs, k) && cs != []
    ensures AllAt(cs[..|cs| - 1], k) && cs[|cs| - 1].key == k
  {
  }

  lemma AskOneMore(cs: seq<Claim>, k: Key)
    requires cs != [] && cs[|cs| - 1].key == k && k.limits.maxSize == 0 && k.limits.maxMessages > 0
    requires Reached(Asks(cs[..|cs| - 1])).Some? && AllAt(Reached(Asks(cs[..|cs| - 1])).value.live, k)
    ensures Reached(Asks(cs)).Some?
    ensures
      var live, c := Reached(Asks(cs[..|cs| - 1])).value.live, cs[|cs| - 1];
      Reached(Asks(cs)).value.live == if |live| == k.limits.maxMessages then live else live + [c]
  {
    hide Reserve, At, Count;
    var rest, c := cs[..|cs| - 1], cs[|cs| - 1];
    assert Asks(cs)[..|cs| - 1] == Asks(rest);
    RefusedIff(Asks(rest), c);
    NothingLost(Asks(rest), k);
    CountAllAt(Reached(Asks(rest)).value.live, k);
  }

  // ----- Whole messages -----

  /** Claim `i` finds room, with the claims before it already made. */
  predicate Room(t: Table, cs: seq<Claim>, i: nat)
    requires i < |cs|
  {
    var k, l := cs[i].key, cs[i].key.limits;
    && (l.maxMessages > 0 ==> At(t, k).messages + Count(cs[..i], k) < l.maxMessages)
    && (l.maxSize > 0 ==> At(t, k).size + Size(cs[..i], k) + cs[i].size < l.maxSize)
  }

  /** A message is admitted if and only if each of its claims finds room behind those before it. */
  lemma {:induction false} AdmittedIff(t: Table, cs: seq<Claim>)
    ensures HasQuota(t, cs).0 <==> forall i | 0 <= i < |cs| :: Room(t, cs, i)
  {
    hide At, Count, Size, Reserve, Room;
    if cs != [] {
      var last := |cs| - 1;
      var rest, c := cs[..last], cs[last];
      AdmittedIff(t, rest);
      forall i | 0 <= i < last ensures Room(t, cs, i) <==> Room(t, rest, i) {
        SameRoom(t, cs, i);
      }
      if HasQuota(t, rest).0 {
        ClaimingRaises(t, rest, c.key);
        RoomAfter(t, Claimed(t, rest).table, cs);
      }
    }
  }

  lemma SameRoom(t: Table, cs: seq<Claim>, i: nat)
    requires i < |cs| - 1
    ensures Room(t, cs, i) <==> Room(t, cs[..|cs| - 1], i)
  {
    assert cs[..|cs| - 1][..i] == cs[..i];
  }

  lemma RoomAfter(t: Table, t': Table, cs: seq<Claim>)
    requires cs != [] && var k := cs[|cs| - 1].key; Raised(At(t, k), At(t', k), cs[..|cs| - 1], k)
    ensures Reserve(t', cs[|cs| - 1]).0 <==> Room(t, cs, |cs| - 1)
  {
    hide Count, Size;
  }

  /** The rule applies to the envelope and claims `size` at the limiter of its limits and subject. */
  predicate IsClaim(rule: Rule, e: Envelope, size: nat, c: Claim) {
    && rule.conditions.Some? && rule.conditions.value(e)
    && c == Claim(Key(rule.limits, rule.subject(e)), Id(e), size)
  }

  predicate ClaimedBy(rules: seq<Rule>, es: seq<Envelope>, size: nat, c: Claim) {
    exists i, j | 0 <= i < |rules| && 0 <= j < |es| :: IsClaim(rules[i], es[j], size, c)
  }

  lemma {:induction false} RuleClaims(rule: Rule, es: seq<Envelope>, size: nat, c: Claim)
    ensures c in ClaimsOfRule(rule, es, size) <==> exists j | 0 <= j < |es| :: IsClaim(rule, es[j], size, c)
  {
    hide IsClaim, Applies, ClaimFor;
    if es != [] {
      var rest, e := es[..|es| - 1], es[|es| - 1];
      RuleClaims(rule, rest, size, c);
      ClaimIs(rule, e, size, c);
      if j :| 0 <= j < |rest| && IsClaim(rule, rest[j], size, c) {
        assert rest[j] == es[j];
      }
    }
  }

  lemma ClaimIs(rule: Rule, e: Envelope, size: nat, c: Claim)
    ensures IsClaim(rule, e, size, c) <==> Applies(rule, e) && c == ClaimFor(rule, e, size)
  {
  }

  lemma {:induction false} RulesClaim(rules: seq<Rule>, es: seq<Envelope>, size: nat, c: Claim)
    ensures c in ClaimsOf(rules, es, size) <==> ClaimedBy(rules, es, size, c)
  {
    hide IsClaim, ClaimsOfRule;
    if rules != [] {
      var rest, rule := rules[..|rules| - 1], rules[|rules| - 1];
      RulesClaim(rest, es, size, c);
      RuleClaims(rule, es, size, c);
      if i, j :| 0 <= i < |rest| && 0 <= j < |es| && IsClaim(rest[i], es[j], size, c) {
        assert rest[i] == rules[i];
      }
      if i, j :| 0 <= i < |rules| && 0 <= j < |es| && IsClaim(rules[i], es[j], size, c) {
        assert i < |rest| ==> rest[i] == rules[i];
      }
    }
  }

  /** The claims of a message are those of the sender's quotas on it, of the domain quotas on each domain, and of the recipient quotas on each recipient. */
  lemma ClaimsExact(config: Config, m: Message, size: nat, c: Claim)
    ensures c in Claims(config, m, size) <==>
      || ClaimedBy(config.sender, [OfMessage], size, c)
      || ClaimedBy(config.rcptDomain, seq(|m.domains|, p requires 0 <= p => OfDomain(p)), size, c)
      || ClaimedBy(config.rcpt, seq(|m.recipients|, p requires 0 <= p => OfRcpt(p)), size, c)
  {
    hide ClaimsOf, ClaimedBy;
    RulesClaim(config.sender, [OfMessage], size, c);
    RulesClaim(config.rcptDomain, Domains(|m.domains|), size, c);
    RulesClaim(config.rcpt, Rcpts(|m.recipients|), size, c);
    assert Domains(|m.domains|) == seq(|m.domains|, p requires 0 <= p => OfDomain(p));
    assert Rcpts(|m.recipients|) == seq(|m.recipients|, p requires 0 <= p => OfRcpt(p));
  }
}
