/**
  When the emitted program means what the configuration says: for rules whose tests are pairwise
  different, exactly when every nested group is the last entry of its list.
*/
module RuleExactness {
  import opened Prelude
  import opened Rules
  import opened RuleProofs

  ghost function Tests(r: Rule): set<Test> {
    match r
    case Leaf(t, _) => {t}
    case Bad(_) => {}
    case Group(_, rs) => TestsIn(rs)
  }

  ghost function TestsIn(rs: seq<Rule>): set<Test> {
    if rs == [] then {} else Tests(rs[0]) + TestsIn(rs[1..])
  }

  /** No test occurs twice. */
  ghost predicate Distinct(r: Rule) {
    r.Group? ==> DistinctIn(r.rules)
  }

  ghost predicate DistinctIn(rs: seq<Rule>) {
    rs != [] ==> Distinct(rs[0]) && Tests(rs[0]) !! TestsIn(rs[1..]) && DistinctIn(rs[1..])
  }

  ghost predicate Sound(r: Rule) {
    NonEmpty(r) && FirstError(r).None? && Distinct(r)
  }

  ghost predicate SoundIn(rs: seq<Rule>) {
    rs != [] && (forall i | 0 <= i < |rs| :: NonEmpty(rs[i])) && FirstErrorIn(rs).None? && DistinctIn(rs)
  }

  /** The envelope in which exactly the tests in `s` succeed. */
  function Succeeding(s: set<Test>): Envelope {
    t => Some(t in s)
  }

  /** A rule and its pruned form depend on the rule's own tests only. */
  lemma {:induction false} ValueDependsOn(r: Rule, s: set<Test>, s': set<Test>)
    requires s * Tests(r) == s' * Tests(r)
    ensures Value(r, Succeeding(s)) == Value(r, Succeeding(s'))
    ensures Value(Prune(r), Succeeding(s)) == Value(Prune(r), Succeeding(s'))
    decreases r, 1
  {
    match r
    case Leaf(t, _) => assert t in s <==> t in s * Tests(r); assert t in s' <==> t in s' * Tests(r);
    case Bad(_) =>
    case Group(_, rs) => ListDependsOn(rs, r.op != AnyOf, s, s');
  }

  lemma {:induction false} ListDependsOn(rs: seq<Rule>, isAll: bool, s: set<Test>, s': set<Test>)
    requires s * TestsIn(rs) == s' * TestsIn(rs)
    ensures ListValue(rs, isAll, Succeeding(s)) == ListValue(rs, isAll, Succeeding(s'))
    ensures ListValue(PruneList(rs), isAll, Succeeding(s)) == ListValue(PruneList(rs), isAll, Succeeding(s'))
    decreases rs, 0
  {
    if rs != [] {
      assert s * Tests(rs[0]) == s * TestsIn(rs) * Tests(rs[0]);
      assert s' * Tests(rs[0]) == s' * TestsIn(rs) * Tests(rs[0]);
      assert s * TestsIn(rs[1..]) == s * TestsIn(rs) * TestsIn(rs[1..]);
      assert s' * TestsIn(rs[1..]) == s' * TestsIn(rs) * TestsIn(rs[1..]);
      ValueDependsOn(rs[0], s, s');
      ListDependsOn(rs[1..], isAll, s, s');
      var tail := PruneList(rs[1..]);
      assert ([Prune(rs[0])] + tail)[1..] == tail;
    }
  }

  /** Choices made for disjoint sets of tests do not disturb each other. */
  lemma Merge(r: Rule, rs: seq<Rule>, s: set<Test>, s': set<Test>)
    requires Tests(r) !! TestsIn(rs) && s <= Tests(r) && s' <= TestsIn(rs)
    ensures Value(r, Succeeding(s + s')) == Value(r, Succeeding(s))
    ensures Value(Prune(r), Succeeding(s + s')) == Value(Prune(r), Succeeding(s))
    ensures forall isAll :: ListValue(rs, isAll, Succeeding(s + s')) == ListValue(rs, isAll, Succeeding(s'))
    ensures forall isAll :: ListValue(PruneList(rs), isAll, Succeeding(s + s')) == ListValue(PruneList(rs), isAll, Succeeding(s'))
  {
    assert (s + s') * Tests(r) == s * Tests(r);
    assert (s + s') * TestsIn(rs) == s' * TestsIn(rs);
    ValueDependsOn(r, s + s', s);
    ListDependsOn(rs, false, s + s', s');
    ListDependsOn(rs, true, s + s', s');
  }

  /** A rule without repeated tests can be made true and false, together with its pruned form. */
  lemma {:induction false} Settable(r: Rule, b: bool) returns (s: set<Test>)
    requires Sound(r)
    ensures s <= Tests(r)
    ensures Value(r, Succeeding(s)) == Value(Prune(r), Succeeding(s)) == Some(b)
    decreases r, 1
  {
    match r
    case Leaf(t, negated) => s := if b != negated then {t} else {};
    case Group(op, rs) => s := SettableList(rs, b != (op == NoneOf));
  }

  lemma {:induction false} SettableList(rs: seq<Rule>, b: bool) returns (s: set<Test>)
    requires SoundIn(rs)
    ensures s <= TestsIn(rs)
    ensures forall isAll :: ListValue(rs, isAll, Succeeding(s)) == Some(b)
    ensures forall isAll :: ListValue(PruneList(rs), isAll, Succeeding(s)) == Some(b)
    decreases rs, 0
  {
    s := Settable(rs[0], b);
    var tail := PruneList(rs[1..]);
    assert ([Prune(rs[0])] + tail)[1..] == tail;
    if |rs| > 1 {
      var s' := SettableList(rs[1..], b);
      Merge(rs[0], rs[1..], s, s');
      s := s + s';
    }
  }

  /** A nested group followed by a sibling makes some envelope tell the rule from its pruned form. */
  lemma {:induction false} Distinguish(r: Rule) returns (s: set<Test>)
    requires Sound(r) && !NestedLast(r)
    ensures s <= Tests(r)
    ensures Value(r, Succeeding(s)) != Value(Prune(r), Succeeding(s))
    decreases r, 1
  {
    s := DistinguishList(r.rules, r.op != AnyOf);
  }

  lemma {:induction false} DistinguishList(rs: seq<Rule>, isAll: bool) returns (s: set<Test>)
    requires SoundIn(rs) && !NestedLastIn(rs)
    ensures s <= TestsIn(rs)
    ensures ListValue(rs, isAll, Succeeding(s)).Some? && ListValue(PruneList(rs), isAll, Succeeding(s)).Some?
    ensures ListValue(rs, isAll, Succeeding(s)) != ListValue(PruneList(rs), isAll, Succeeding(s))
    decreases rs, 0
  {
    var tail := PruneList(rs[1..]);
    assert ([Prune(rs[0])] + tail)[1..] == tail;
    if rs[0].Group? && |rs| > 1 {
      s := Settable(rs[0], !isAll);
      var s' := SettableList(rs[1..], isAll);
      Merge(rs[0], rs[1..], s, s');
      s := s + s';
    } else if |rs| == 1 {
      s := Distinguish(rs[0]);
      Answered(rs[0], s);
    } else {
      s := Settable(rs[0], isAll);
      var s' := DistinguishList(rs[1..], isAll);
      Merge(rs[0], rs[1..], s, s');
      s := s + s';
    }
  }

  lemma Answered(r: Rule, s: set<Test>)
    requires Sound(r)
    ensures Value(r, Succeeding(s)).Some? && Value(Prune(r), Succeeding(s)).Some?
  {
    ValueHolds(r, Succeeding(s));
    ExecPrune(r, false, false, Succeeding(s));
  }

  /** The compiled rule is right in every envelope exactly when every nested group comes last. */
  lemma CompiledRightIffNestedLast(r: Rule)
    requires NonEmpty(r) && FirstError(r).None? && Distinct(r)
    ensures NestedLast(r) <==> forall env: Envelope :: Run(Code(r, false), false, env) == Value(r, env)
  {
    if NestedLast(r) {
      forall env: Envelope ensures Run(Code(r, false), false, env) == Value(r, env) {
        CompiledMeaning(r, env);
      }
    } else {
      var s := Distinguish(r);
      CompiledExactMeaning(r, Succeeding(s));
    }
  }

  lemma Single(t: Test, s: set<Test>)
    ensures
      var rs := [Leaf(t, false)];
      FirstErrorIn(rs).None? && ListValue(rs, false, Succeeding(s)) == Some(t in s) && PruneList(rs) == rs
  {
    var rs := [Leaf(t, false)];
    assert rs[1..] == [];
    assert PruneList(rs) == [Prune(rs[0])] + [];
  }

  /** The shortest failing rule: any-of [any-of [a], b] is false where only `a` succeeds. */
  lemma DroppedGroupExample(a: Test, b: Test)
    requires a != b
    ensures
      var r := Group(AnyOf, [Group(AnyOf, [Leaf(a, false)]), Leaf(b, false)]);
      && Value(r, Succeeding({a})) == Some(true)
      && Run(Code(r, false), false, Succeeding({a})) == Some(false)
  {
    var one, two := [Leaf(a, false)], [Leaf(b, false)];
    var inner := Group(AnyOf, one);
    var both := [inner] + two;
    var env := Succeeding({a});
    Single(a, {a});
    Single(b, {a});
    assert both[1..] == two;
    assert Value(inner, env) == Some(true) && FirstError(inner).None?;
    assert FirstErrorIn(both) == FirstErrorIn(two);
    CompiledExactMeaning(Group(AnyOf, both), env);
    assert PruneList(both) == two;
  }
}
