/** The object that reserves and releases quotas for messages, against the specification in `Quota`. */
module QuotaTables {
  import opened Prelude
  import opened QueueTypes
  import opened QuotaCounters
  import opened Quota
  import opened QuotaBooks

  /** What a quota is evaluated on: the message, one of its domains, or one of its recipients. */
  datatype Envelope = OfMessage | OfDomain(pos: nat) | OfRcpt(pos: nat)

  /** A configured quota: without conditions it never applies. */
  datatype Rule = Rule(limits: Limits, conditions: Option<Envelope -> bool>, subject: Envelope -> Bytes)

  datatype Config = Config(sender: seq<Rule>, rcptDomain: seq<Rule>, rcpt: seq<Rule>)

  /** The number that ties a reservation to its envelope. */
  function Id(e: Envelope): u64 {
    match e
    case OfMessage => 0
    case OfDomain(pos) => (pos + 1) * TWO_32 % TWO_64
    case OfRcpt(pos) => (pos + 1) % TWO_64
  }

  predicate Countable(e: Envelope) { e.OfMessage? || e.pos + 1 < TWO_32 }

  lemma DomainIdIs(pos: nat)
    requires pos + 1 < TWO_32
    ensures Id(OfDomain(pos)) == (pos + 1) * TWO_32
  {
    assert 0 < (pos + 1) * TWO_32 < TWO_32 * TWO_32 == TWO_64;
  }

  lemma RcptIdIs(pos: nat)
    requires pos + 1 < TWO_32
    ensures Id(OfRcpt(pos)) == pos + 1
  {
  }

  lemma IdsAreDistinct(a: Envelope, b: Envelope)
    requires Countable(a) && Countable(b)
    ensures Id(a) == Id(b) <==> a == b
  {
    if a != OfMessage && b != OfMessage {
      hide Id;
      if a.OfDomain? { DomainIdIs(a.pos); } else { RcptIdIs(a.pos); }
      if b.OfDomain? { DomainIdIs(b.pos); } else { RcptIdIs(b.pos); }
    } else if a.OfDomain? {
      DomainIdIs(a.pos);
    } else if b.OfDomain? {
      DomainIdIs(b.pos);
    }
  }

  predicate Applies(rule: Rule, e: Envelope) { rule.conditions.Some? && rule.conditions.value(e) }

  function ClaimFor(rule: Rule, e: Envelope, size: nat): Claim { Claim(Key(rule.limits, rule.subject(e)), Id(e), size) }

  function ClaimsOfRule(rule: Rule, es: seq<Envelope>, size: nat): seq<Claim> {
    if es == [] then []
    else
      var e := es[|es| - 1];
      ClaimsOfRule(rule, es[..|es| - 1], size) + if Applies(rule, e) then [ClaimFor(rule, e, size)] else []
  }

  function ClaimsOf(rules: seq<Rule>, es: seq<Envelope>, size: nat): seq<Claim> {
    if rules == [] then []
    else ClaimsOf(rules[..|rules| - 1], es, size) + ClaimsOfRule(rules[|rules| - 1], es, size)
  }

  function Domains(n: nat): seq<Envelope> { seq(n, pos requires 0 <= pos => OfDomain(pos)) }

  function Rcpts(n: nat): seq<Envelope> { seq(n, pos requires 0 <= pos => OfRcpt(pos)) }

  /** Every claim a message makes, in the order the quotas are gone through. */
  function Claims(config: Config, m: Message, size: nat): seq<Claim> {
    ClaimsOf(config.sender, [OfMessage], size)
    + ClaimsOf(config.rcptDomain, Domains(|m.domains|), size)
    + ClaimsOf(config.rcpt, Rcpts(|m.recipients|), size)
  }

  /** Whether what `e` stands for needs no further delivery. */
  predicate Finished(m: Message, e: Envelope) {
    match e
    case OfMessage => false
    case OfDomain(pos) => pos < |m.domains| && m.domains[pos].status.Terminal()
    case OfRcpt(pos) => pos < |m.recipients| && m.recipients[pos].status.Terminal()
  }

  function FinishedDomains(m: Message, n: nat): seq<u64>
    requires n <= |m.domains|
  {
    if n == 0 then []
    else FinishedDomains(m, n - 1) + if Finished(m, OfDomain(n - 1)) then [Id(OfDomain(n - 1))] else []
  }

  function FinishedRcpts(m: Message, n: nat): seq<u64>
    requires n <= |m.recipients|
  {
    if n == 0 then []
    else FinishedRcpts(m, n - 1) + if Finished(m, OfRcpt(n - 1)) then [Id(OfRcpt(n - 1))] else []
  }

  function FinishedIds(m: Message): seq<u64> {
    FinishedDomains(m, |m.domains|) + FinishedRcpts(m, |m.recipients|)
  }

  lemma {:induction false} InFinishedDomains(m: Message, n: nat, id: u64)
    requires n <= |m.domains|
    ensures id in FinishedDomains(m, n) <==> exists p: nat | p < n :: Finished(m, OfDomain(p)) && Id(OfDomain(p)) == id
  {
    hide Id;
    if n > 0 {
      InFinishedDomains(m, n - 1, id);
    }
  }

  lemma {:induction false} InFinishedRcpts(m: Message, n: nat, id: u64)
    requires n <= |m.recipients|
    ensures id in FinishedRcpts(m, n) <==> exists p: nat | p < n :: Finished(m, OfRcpt(p)) && Id(OfRcpt(p)) == id
  {
    hide Id;
    if n > 0 {
      InFinishedRcpts(m, n - 1, id);
    }
  }

  /** The numbers gathered are those of the finished domains and recipients, and of nothing else. */
  lemma FinishedIdsExact(m: Message, e: Envelope)
    requires |m.domains| < TWO_32 - 1 && |m.recipients| < TWO_32 - 1 && Countable(e)
    ensures Id(e) in FinishedIds(m) <==> Finished(m, e)
  {
    hide Id, FinishedDomains, FinishedRcpts;
    InFinishedDomains(m, |m.domains|, Id(e));
    InFinishedRcpts(m, |m.recipients|, Id(e));
    if p: nat :| p < |m.domains| && Finished(m, OfDomain(p)) && Id(OfDomain(p)) == Id(e) {
      IdsAreDistinct(OfDomain(p), e);
    } else if p: nat :| p < |m.recipients| && Finished(m, OfRcpt(p)) && Id(OfRcpt(p)) == Id(e) {
      IdsAreDistinct(OfRcpt(p), e);
    }
  }

  function Kept(refs: seq<Claim>, ids: seq<u64>): seq<Claim> {
    if refs == [] then []
    else Kept(refs[..|refs| - 1], ids) + if refs[|refs| - 1].id in ids then [] else [refs[|refs| - 1]]
  }

  function Gone(refs: seq<Claim>, ids: seq<u64>): seq<Claim> {
    if refs == [] then []
    else Gone(refs[..|refs| - 1], ids) + if refs[|refs| - 1].id in ids then [refs[|refs| - 1]] else []
  }

  /** What becomes of the next reservation. */
  lemma KeptOrGone(refs: seq<Claim>, i: nat, ids: seq<u64>)
    requires i < |refs|
    ensures refs[i].id in ids ==>
      Kept(refs[..i + 1], ids) == Kept(refs[..i], ids) && Gone(refs[..i + 1], ids) == Gone(refs[..i], ids) + [refs[i]]
    ensures refs[i].id !in ids ==>
      Kept(refs[..i + 1], ids) == Kept(refs[..i], ids) + [refs[i]] && Gone(refs[..i + 1], ids) == Gone(refs[..i], ids)
  {
    assert refs[..i + 1][..i] == refs[..i];
  }

  lemma NoneHeld(refs: seq<Claim>, ids: seq<u64>, k: Key)
    ensures Kept(refs[..0], ids) == [] == Gone(refs[..0], ids) && Count([], k) == 0 == Size([], k) && refs[..0] == []
  {
  }

  lemma {:induction false} CountConserved(refs: seq<Claim>, n: nat, ids: seq<u64>, k: Key)
    requires n <= |refs|
    ensures Count(Kept(refs[..n], ids), k) + Count(Gone(refs[..n], ids), k) == Count(refs[..n], k)
  {
    hide Kept, Gone, Count;
    if n == 0 {
      NoneHeld(refs, ids, k);
    } else {
      CountConserved(refs, n - 1, ids, k);
      KeptOrGone(refs, n - 1, ids);
      var rest, c := refs[..n - 1], refs[n - 1];
      assert refs[..n] == rest + [c];
      PushCount(rest, c, k);
      PushCount(Kept(rest, ids), c, k);
      PushCount(Gone(rest, ids), c, k);
    }
  }

  lemma {:induction false} SizeConserved(refs: seq<Claim>, n: nat, ids: seq<u64>, k: Key)
    requires n <= |refs|
    ensures Size(Kept(refs[..n], ids), k) + Size(Gone(refs[..n], ids), k) == Size(refs[..n], k)
  {
    hide Kept, Gone, Size;
    if n == 0 {
      NoneHeld(refs, ids, k);
    } else {
      SizeConserved(refs, n - 1, ids, k);
      KeptOrGone(refs, n - 1, ids);
      var rest, c := refs[..n - 1], refs[n - 1];
      assert refs[..n] == rest + [c];
      PushSize(rest, c, k);
      PushSize(Kept(rest, ids), c, k);
      PushSize(Gone(rest, ids), c, k);
    }
  }

  /** Released and kept reservations together are those there were. */
  lemma ReleaseConserves(refs: seq<Claim>, ids: seq<u64>, k: Key)
    ensures Count(Kept(refs, ids), k) + Count(Gone(refs, ids), k) == Count(refs, k)
    ensures Size(Kept(refs, ids), k) + Size(Gone(refs, ids), k) == Size(refs, k)
  {
    hide Kept, Gone, Count, Size;
    CountConserved(refs, |refs|, ids, k);
    SizeConserved(refs, |refs|, ids, k);
    assert refs[..|refs|] == refs;
  }

  lemma {:induction false} KeptMembers(refs: seq<Claim>, ids: seq<u64>, c: Claim)
    ensures c in Kept(refs, ids) <==> c in refs && c.id !in ids
  {
    if refs != [] {
      KeptMembers(refs[..|refs| - 1], ids, c);
      assert refs == refs[..|refs| - 1] + [refs[|refs| - 1]];
    }
  }

  /** A reservation survives a release exactly if what it was made for is unfinished; the sender's always does. */
  lemma KeptIffUnfinished(m: Message, refs: seq<Claim>, c: Claim, e: Envelope)
    requires |m.domains| < TWO_32 - 1 && |m.recipients| < TWO_32 - 1 && Countable(e)
    requires c in refs && c.id == Id(e)
    ensures e.OfMessage? ==> c in Kept(refs, FinishedIds(m))
    ensures e.OfDomain? && e.pos < |m.domains| ==>
      (c in Kept(refs, FinishedIds(m)) <==> m.domains[e.pos].status.Scheduled? || m.domains[e.pos].status.TemporaryFailure?)
    ensures e.OfRcpt? && e.pos < |m.recipients| ==>
      (c in Kept(refs, FinishedIds(m)) <==> m.recipients[e.pos].status.Scheduled? || m.recipients[e.pos].status.TemporaryFailure?)
  {
    hide Id, FinishedIds, Kept;
    KeptMembers(refs, FinishedIds(m), c);
    FinishedIdsExact(m, e);
  }

  lemma NoneGone(refs: seq<Claim>)
    ensures Kept(refs, []) == refs && Gone(refs, []) == []
  {
    if refs != [] {
      NoneGone(refs[..|refs| - 1]);
    }
  }

  lemma NoneDropped(t: Table)
    ensures DroppedAll(t, []) == t
  {
  }

  method GatherFinished(m: Message) returns (ids: seq<u64>)
    ensures ids == FinishedIds(m)
  {
    hide Id;
    ids := [];
    for pos := 0 to |m.domains|
      invariant ids == FinishedDomains(m, pos)
    {
      if m.domains[pos].status.Completed? || m.domains[pos].status.PermanentFailure? {
        ids := ids + [Id(OfDomain(pos))];
      }
    }
    for pos := 0 to |m.recipients|
      invariant ids == FinishedDomains(m, |m.domains|) + FinishedRcpts(m, pos)
    {
      if m.recipients[pos].status.Completed? || m.recipients[pos].status.PermanentFailure? {
        ids := ids + [Id(OfRcpt(pos))];
      }
    }
  }

  class QuotaTable {
    var limiters: Table

    constructor ()
      ensures limiters == map[]
    {
      limiters := map[];
    }

    /** The claim of one quota on one envelope, if the quota applies. */
    method ReserveQuota(rule: Rule, e: Envelope, size: nat, refs: seq<Claim>) returns (ok: bool, refs': seq<Claim>)
      modifies this
      ensures !Applies(rule, e) ==> ok && limiters == old(limiters) && refs' == refs
      ensures Applies(rule, e) ==>
        var c := ClaimFor(rule, e, size);
        (ok, limiters) == Reserve(old(limiters), c) && refs' == if ok then refs + [c] else refs
    {
      if rule.conditions.None? || !rule.conditions.value(e) {
        return true, refs;
      }
      var c := ClaimFor(rule, e, size);
      var (allowed, n) := Allowed(c.key.limits, if c.key in limiters then limiters[c.key] else ZERO, c.size);
      if c.key in limiters {
        limiters := limiters[c.key := n];
      } else if allowed {
        limiters := limiters[c.key := n];
      }
      return allowed, if allowed then refs + [c] else refs;
    }

    /** One quota on all envelopes, after `done` has been claimed from `start`. */
    method ReserveRule(rule: Rule, es: seq<Envelope>, size: nat, refs: seq<Claim>, ghost start: Table, ghost done: seq<Claim>)
      returns (ok: bool, refs': seq<Claim>)
      requires Claimed(start, done) == Outcome(limiters, refs, None)
      modifies this
      ensures
        var o := Claimed(start, done + ClaimsOfRule(rule, es, size));
        ok == o.refused.None? && limiters == o.table && refs' == o.held
    {
      hide Reserve, Applies, ClaimFor, Claimed;
      ok, refs' := true, refs;
      assert done + [] == done;
      for j := 0 to |es|
        invariant ok && Claimed(start, done + ClaimsOfRule(rule, es[..j], size)) == Outcome(limiters, refs', None)
      {
        ghost var had := done + ClaimsOfRule(rule, es[..j], size);
        ghost var more := if Applies(rule, es[j]) then [ClaimFor(rule, es[j], size)] else [];
        assert es[..j + 1][..j] == es[..j];
        assert done + ClaimsOfRule(rule, es[..j + 1], size) == had + more;
        ok, refs' := ReserveQuota(rule, es[j], size, refs');
        ClaimingOne(start, had, more);
        if !ok {
          RuleSplit(rule, es, j + 1, size);
          ghost var rest := RestOfRule(rule, es, j + 1, size);
          assert done + ClaimsOfRule(rule, es, size) == had + more + rest;
          ClaimingStops(start, had + more, rest);
          return;
        }
      }
      assert es[..|es|] == es;
    }

    /** All quotas of one list on all envelopes. */
    method ReserveRules(rules: seq<Rule>, es: seq<Envelope>, size: nat, refs: seq<Claim>, ghost start: Table, ghost done: seq<Claim>)
      returns (ok: bool, refs': seq<Claim>)
      requires Claimed(start, done) == Outcome(limiters, refs, None)
      modifies this
      ensures
        var o := Claimed(start, done + ClaimsOf(rules, es, size));
        ok == o.refused.None? && limiters == o.table && refs' == o.held
    {
      hide Claimed, ClaimsOfRule;
      ok, refs' := true, refs;
      assert done + [] == done;
      for i := 0 to |rules|
        invariant ok && Claimed(start, done + ClaimsOf(rules[..i], es, size)) == Outcome(limiters, refs', None)
      {
        ghost var had := done + ClaimsOf(rules[..i], es, size);
        ghost var more := ClaimsOfRule(rules[i], es, size);
        assert rules[..i + 1][..i] == rules[..i];
        assert done + ClaimsOf(rules[..i + 1], es, size) == had + more;
        ok, refs' := ReserveRule(rules[i], es, size, refs', start, had);
        if !ok {
          ClaimsSplit(rules, i + 1, es, size);
          ghost var rest := RestOfRules(rules, i + 1, es, size);
          assert done + ClaimsOf(rules, es, size) == had + more + rest;
          ClaimingStops(start, had + more, rest);
          return;
        }
      }
      assert rules[..|rules|] == rules;
    }

    /** `has_quota`: reserve for the sender, every domain and every recipient, or give everything back. */
    method HasQuotaFor(config: Config, m: Message, size: nat) returns (ok: bool, refs: seq<Claim>)
      modifies this
      ensures (ok, limiters, refs) == HasQuota(old(limiters), Claims(config, m, size))
    {
      ghost var start := limiters;
      var domains, rcpts := Domains(|m.domains|), Rcpts(|m.recipients|);
      ghost var a := ClaimsOf(config.sender, [OfMessage], size);
      ghost var b := ClaimsOf(config.rcptDomain, domains, size);
      ghost var c := ClaimsOf(config.rcpt, rcpts, size);
      assert [] + a == a;
      ok, refs := ReserveRules(config.sender, [OfMessage], size, [], start, []);
      if ok {
        ok, refs := ReserveRules(config.rcptDomain, domains, size, refs, start, a);
        if ok {
          ok, refs := ReserveRules(config.rcpt, rcpts, size, refs, start, a + b);
        } else {
          ClaimingStops(start, a + b, c);
        }
      } else {
        ClaimingStops(start, a, b);
        ClaimingStops(start, a + b, c);
      }
      if !ok {
        DropAll(refs);
        refs := [];
      }
    }

    method DropAll(refs: seq<Claim>)
      modifies this
      ensures limiters == DroppedAll(old(limiters), refs)
    {
      for i := 0 to |refs|
        invariant limiters == DroppedAll(old(limiters), refs[..i])
      {
        limiters := Dropped(limiters, refs[i]);
        assert refs[..i + 1][..i] == refs[..i];
      }
      assert refs[..|refs|] == refs;
    }

    /** `release_quota`: the reservations of finished domains and recipients are dropped, the others kept in order. */
    method ReleaseQuota(m: Message, refs: seq<Claim>) returns (kept: seq<Claim>)
      modifies this
      ensures kept == Kept(refs, FinishedIds(m))
      ensures limiters == DroppedAll(old(limiters), Gone(refs, FinishedIds(m)))
    {
      hide Kept, Gone, Dropped, DroppedAll;
      var ids := GatherFinished(m);
      if ids == [] {
        NoneGone(refs);
        NoneDropped(limiters);
        return refs;
      }
      kept := Retain(refs, ids);
    }

    /** The list keeps what is not in `ids`; what leaves it is dropped. */
    method Retain(refs: seq<Claim>, ids: seq<u64>) returns (kept: seq<Claim>)
      modifies this
      ensures kept == Kept(refs, ids) && limiters == DroppedAll(old(limiters), Gone(refs, ids))
    {
      kept := [];
      for i := 0 to |refs|
        invariant kept == Kept(refs[..i], ids)
        invariant limiters == DroppedAll(old(limiters), Gone(refs[..i], ids))
      {
        hide Kept, Gone, Dropped;
        KeptOrGone(refs, i, ids);
        if refs[i].id in ids {
          limiters := Dropped(limiters, refs[i]);
          ghost var gone := Gone(refs[..i], ids);
          assert (gone + [refs[i]])[..|gone|] == gone;
        } else {
          kept := kept + [refs[i]];
        }
      }
      assert refs[..|refs|] == refs;
    }

    method Cleanup()
      modifies this
      ensures limiters == Cleaned(old(limiters))
    {
      limiters := map k | k in limiters && (limiters[k].messages > 0 || limiters[k].size > 0) :: limiters[k];
    }
  }

  lemma ClaimingOne(t: Table, had: seq<Claim>, more: seq<Claim>)
    requires |more| <= 1
    ensures more == [] ==> Claimed(t, had + more) == Claimed(t, had)
    ensures more != [] && Claimed(t, had).refused.None? ==>
      var o := Claimed(t, had);
      var (ok, t') := Reserve(o.table, more[0]);
      Claimed(t, had + more) == if ok then Outcome(t', o.held + more, None) else Outcome(t', o.held, Some(more[0]))
  {
    if more == [] {
      assert had + more == had;
    } else {
      var all := had + more;
      assert all[..|all| - 1] == had && all[|all| - 1] == more[0] && more == [more[0]];
    }
  }

  ghost function RestOfRule(rule: Rule, es: seq<Envelope>, j: nat, size: nat): seq<Claim>
    requires j <= |es|
    decreases |es|
  {
    if j == |es| then []
    else
      RestOfRule(rule, es[..|es| - 1], j, size)
      + if Applies(rule, es[|es| - 1]) then [ClaimFor(rule, es[|es| - 1], size)] else []
  }

  lemma {:induction false} RuleSplit(rule: Rule, es: seq<Envelope>, j: nat, size: nat)
    requires j <= |es|
    ensures ClaimsOfRule(rule, es, size) == ClaimsOfRule(rule, es[..j], size) + RestOfRule(rule, es, j, size)
    decreases |es|
  {
    if j == |es| {
      assert es[..j] == es;
    } else {
      RuleSplit(rule, es[..|es| - 1], j, size);
      assert es[..|es| - 1][..j] == es[..j];
    }
  }

  ghost function RestOfRules(rules: seq<Rule>, i: nat, es: seq<Envelope>, size: nat): seq<Claim>
    requires i <= |rules|
    decreases |rules|
  {
    if i == |rules| then []
    else RestOfRules(rules[..|rules| - 1], i, es, size) + ClaimsOfRule(rules[|rules| - 1], es, size)
  }

  lemma {:induction false} ClaimsSplit(rules: seq<Rule>, i: nat, es: seq<Envelope>, size: nat)
    requires i <= |rules|
    ensures ClaimsOf(rules, es, size) == ClaimsOf(rules[..i], es, size) + RestOfRules(rules, i, es, size)
    decreases |rules|
  {
    if i == |rules| {
      assert rules[..i] == rules;
    } else {
      ClaimsSplit(rules[..|rules| - 1], i, es, size);
      assert rules[..|rules| - 1][..i] == rules[..i];
    }
  }
}
