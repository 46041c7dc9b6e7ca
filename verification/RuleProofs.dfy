/** Correctness of the rule compiler: what the emitted jump program computes, for every tree and envelope. */
module RuleProofs {
  import opened Prelude
  import opened Rules

  /** Executing a tree in place of its code: a nested group that is followed by a sibling only has its lookups made. */
  function Exec(r: Rule, isNot: bool, matched: bool, env: Envelope): Option<bool> {
    match r
    case Leaf(t, negated) => Xor(env(t), isNot != negated)
    case Bad(_) => Some(matched)
    case Group(op, rs) =>
      var (isAll, isNot') := Enter(op, isNot);
      ExecList(rs, isAll, isNot', matched, env)
  }

  function ExecList(rs: seq<Rule>, isAll: bool, isNot: bool, matched: bool, env: Envelope): Option<bool> {
    if rs == [] then Some(matched)
    else match Exec(rs[0], isNot, matched, env)
      case None => None
      case Some(b) =>
        if rs[0].Leaf? && |rs| > 1 && b != isAll then Some(b)
        else ExecList(rs[1..], isAll, isNot, b, env)
  }

  function Continue(v: Option<bool>, k: seq<Instr>, env: Envelope): Option<bool> {
    match v
    case None => None
    case Some(b) => Run(k, b, env)
  }

  /** The machine runs a compiled tree exactly as `Exec` says and then goes on with whatever follows. */
  lemma {:induction false} RunCode(r: Rule, isNot: bool, k: seq<Instr>, matched: bool, env: Envelope)
    ensures Run(Code(r, isNot) + k, matched, env) == Continue(Exec(r, isNot, matched, env), k, env)
    decreases r, 1
  {
    match r
    case Leaf(t, negated) =>
      assert ([Match(t, isNot != negated)] + k)[1..] == k;
    case Bad(_) =>
      assert [] + k == k;
    case Group(op, rs) =>
      var (isAll, isNot') := Enter(op, isNot);
      RunGroupCode(rs, isAll, isNot', k, matched, env);
  }

  lemma {:induction false} RunGroupCode(rs: seq<Rule>, isAll: bool, isNot: bool, k: seq<Instr>, matched: bool, env: Envelope)
    ensures Run(GroupCode(rs, isAll, isNot) + k, matched, env) == Continue(ExecList(rs, isAll, isNot, matched, env), k, env)
    decreases rs, 0
  {
    if rs == [] {
      assert [] + k == k;
    } else {
      hide Run, Exit;
      var rest := GroupCode(rs[1..], isAll, isNot);
      var exit := Exit(rs, isAll, |rest|);
      Regroup(Code(rs[0], isNot), exit, rest, k);
      RunCode(rs[0], isNot, exit + (rest + k), matched, env);
      var v := Exec(rs[0], isNot, matched, env);
      if v.Some? {
        RunExit(rs, isAll, rest, k, v.value, env);
        RunGroupCode(rs[1..], isAll, isNot, k, v.value, env);
      }
    }
  }

  lemma Regroup(a: seq<Instr>, b: seq<Instr>, c: seq<Instr>, d: seq<Instr>)
    ensures a + b + c + d == a + (b + (c + d))
  {
  }

  lemma RunExit(rs: seq<Rule>, isAll: bool, rest: seq<Instr>, k: seq<Instr>, b: bool, env: Envelope)
    requires rs != []
    ensures Run(Exit(rs, isAll, |rest|) + (rest + k), b, env)
         == if rs[0].Leaf? && |rs| > 1 && b != isAll then Run(k, b, env) else Run(rest + k, b, env)
  {
    var p := Exit(rs, isAll, |rest|) + (rest + k);
    if rs[0].Leaf? && |rs| > 1 {
      assert p[1..] == rest + k;
      assert p[1 + |rest|..] == k;
    } else {
      assert p == rest + k;
    }
  }

  lemma RunWhole(r: Rule, env: Envelope)
    ensures Run(Code(r, false), false, env) == Exec(r, false, false, env)
  {
    RunCode(r, false, [], false, env);
    assert Code(r, false) + [] == Code(r, false);
  }

  // ----- Trees whose nested groups come last -----

  lemma {:induction false} ExecNestedLast(r: Rule, isNot: bool, matched: bool, env: Envelope)
    requires NonEmpty(r) && NestedLast(r) && FirstError(r).None?
    ensures Exec(r, isNot, matched, env) == Xor(Value(r, env), isNot)
    decreases r, 1
  {
    if r.Group? {
      var (isAll, isNot') := Enter(r.op, isNot);
      ExecListNestedLast(r.rules, isAll, isNot', matched, env);
    }
  }

  lemma {:induction false} ExecListNestedLast(rs: seq<Rule>, isAll: bool, isNot: bool, matched: bool, env: Envelope)
    requires rs != [] && (forall i | 0 <= i < |rs| :: NonEmpty(rs[i])) && NestedLastIn(rs) && FirstErrorIn(rs).None?
    ensures ExecList(rs, isAll, isNot, matched, env) == Xor(ListValue(rs, isAll != isNot, env), isNot)
    decreases rs, 0
  {
    ExecNestedLast(rs[0], isNot, matched, env);
    var v := Exec(rs[0], isNot, matched, env);
    if |rs| > 1 && v.Some? {
      ExecListNestedLast(rs[1..], isAll, isNot, v.value, env);
    }
  }

  /** Intended meaning: with nested groups last, the program computes the short-circuit value of the rule. */
  lemma CompiledMeaning(r: Rule, env: Envelope)
    requires NonEmpty(r) && NestedLast(r) && FirstError(r).None?
    ensures Run(Code(r, false), false, env) == Value(r, env)
  {
    RunWhole(r, env);
    ExecNestedLast(r, false, false, env);
    var v := Value(r, env);
    assert Xor(v, false) == v;
  }

  // ----- All trees -----

  lemma {:induction false} ExecPrune(r: Rule, isNot: bool, matched: bool, env: Envelope)
    requires NonEmpty(r) && FirstError(r).None? && AnswersAll(env)
    ensures Exec(r, isNot, matched, env) == Xor(Value(Prune(r), env), isNot)
    ensures Value(Prune(r), env).Some?
    decreases r, 1
  {
    if r.Group? {
      var (isAll, isNot') := Enter(r.op, isNot);
      ExecListPrune(r.rules, isAll, isNot', matched, env);
    }
  }

  lemma {:induction false} ExecListPrune(rs: seq<Rule>, isAll: bool, isNot: bool, matched: bool, env: Envelope)
    requires rs != [] && (forall i | 0 <= i < |rs| :: NonEmpty(rs[i])) && FirstErrorIn(rs).None? && AnswersAll(env)
    ensures ExecList(rs, isAll, isNot, matched, env) == Xor(ListValue(PruneList(rs), isAll != isNot, env), isNot)
    ensures ListValue(PruneList(rs), isAll != isNot, env).Some?
    decreases rs, 0
  {
    ExecPrune(rs[0], isNot, matched, env);
    var v := Exec(rs[0], isNot, matched, env);
    var tail := PruneList(rs[1..]);
    assert ([Prune(rs[0])] + tail)[1..] == tail;
    if |rs| > 1 {
      ExecListPrune(rs[1..], isAll, isNot, v.value, env);
    }
  }

  /** Exact meaning: for every tree, the program computes the value of the pruned tree. */
  lemma CompiledExactMeaning(r: Rule, env: Envelope)
    requires NonEmpty(r) && FirstError(r).None? && AnswersAll(env)
    ensures Run(Code(r, false), false, env) == Value(Prune(r), env)
  {
    RunWhole(r, env);
    ExecPrune(r, false, false, env);
    var v := Value(Prune(r), env);
    assert Xor(v, false) == v;
  }

  // ----- The two readings of a rule agree -----

  lemma {:induction false} ValueHolds(r: Rule, env: Envelope)
    requires FirstError(r).None? && AnswersAll(env)
    ensures Value(r, env) == Some(Holds(r, env))
    decreases r, 1
  {
    if r.Group? {
      ListValueHolds(r.rules, r.op != AnyOf, env);
    }
  }

  lemma {:induction false} ListValueHolds(rs: seq<Rule>, isAll: bool, env: Envelope)
    requires FirstErrorIn(rs).None? && AnswersAll(env)
    ensures isAll ==> ListValue(rs, true, env) == Some(forall i :: 0 <= i < |rs| ==> Holds(rs[i], env))
    ensures !isAll ==> ListValue(rs, false, env) == Some(exists i :: 0 <= i < |rs| && Holds(rs[i], env))
    decreases rs, 0
  {
    if rs != [] {
      ValueHolds(rs[0], env);
      ListValueHolds(rs[1..], isAll, env);
      var tail := rs[1..];
      assert forall i :: 1 <= i < |rs| ==> rs[i] == tail[i - 1];
      assert forall i :: 0 <= i < |tail| ==> tail[i] == rs[i + 1];
    }
  }

  // ----- Jumps -----

  ghost predicate JumpsInside(p: seq<Instr>) {
    forall i | 0 <= i < |p| && !p[i].Match? :: i + 1 + p[i].positions <= |p|
  }

  /** Every patched jump lands inside the program or one past its end, never further. */
  lemma {:induction false} CodeJumpsInside(r: Rule, isNot: bool)
    ensures JumpsInside(Code(r, isNot))
    decreases r, 1
  {
    if r.Group? {
      var (isAll, isNot') := Enter(r.op, isNot);
      GroupCodeJumpsInside(r.rules, isAll, isNot');
    }
  }

  lemma {:induction false} GroupCodeJumpsInside(rs: seq<Rule>, isAll: bool, isNot: bool)
    ensures JumpsInside(GroupCode(rs, isAll, isNot))
    decreases rs, 0
  {
    if rs != [] {
      CodeJumpsInside(rs[0], isNot);
      GroupCodeJumpsInside(rs[1..], isAll, isNot);
      var first, rest := Code(rs[0], isNot), GroupCode(rs[1..], isAll, isNot);
      var exit := Exit(rs, isAll, |rest|);
      assert GroupCode(rs, isAll, isNot) == first + exit + rest;
    }
  }
}
