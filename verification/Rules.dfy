/**
  Configuration rules: nested any-of / all-of / none-of lists of tests.

  `Code` is the flat jump program that the rule parser leaves behind, `Run` the machine
  that evaluates it, `Value` the meaning a reader of the configuration expects, and
  `Prune` the tree whose meaning the emitted program really has.
*/
module Rules {
  import opened Prelude

  /** One comparison of an envelope key with a configured value; its outcome is the envelope's business. */
  datatype Test = Test(key: string, op: string, value: string)

  datatype GroupOp = AnyOf | AllOf | NoneOf

  /** `Bad` is a node that the parser rejects (no operation, two operations, an unknown list, ...). */
  datatype Rule =
    | Leaf(test: Test, negated: bool)
    | Group(op: GroupOp, rules: seq<Rule>)
    | Bad(error: string)

  /** The outcome of every test; `None` is a lookup that produced no answer. */
  type Envelope = Test -> Option<bool>

  datatype Instr =
    | Match(test: Test, negated: bool)
    | JumpIfTrue(positions: nat)
    | JumpIfFalse(positions: nat)

  // ----- Shape of a tree -----

  predicate NonEmpty(r: Rule) {
    match r
    case Leaf(_, _) => true
    case Bad(_) => true
    case Group(_, rs) => rs != [] && forall i | 0 <= i < |rs| :: NonEmpty(rs[i])
  }

  /** Every nested group is the last entry of its list, at every level. */
  predicate NestedLast(r: Rule) {
    match r
    case Leaf(_, _) => true
    case Bad(_) => true
    case Group(_, rs) => NestedLastIn(rs)
  }

  predicate NestedLastIn(rs: seq<Rule>) {
    rs != [] ==>
      && (rs[0].Group? ==> |rs| == 1)
      && NestedLast(rs[0])
      && NestedLastIn(rs[1..])
  }

  /** The first rejected node in the order in which the parser visits the tree. */
  function FirstError(r: Rule): Option<string> {
    match r
    case Leaf(_, _) => None
    case Bad(e) => Some(e)
    case Group(_, rs) => FirstErrorIn(rs)
  }

  function FirstErrorIn(rs: seq<Rule>): Option<string> {
    if rs == [] then None
    else if FirstError(rs[0]).Some? then FirstError(rs[0])
    else FirstErrorIn(rs[1..])
  }

  // ----- Emitted code -----

  /** The polarity (conjunctive?, negated?) in which the members of a group are compiled. */
  function Enter(op: GroupOp, isNot: bool): (bool, bool) {
    match op
    case AnyOf => if !isNot then (false, false) else (true, true)
    case AllOf => if !isNot then (true, false) else (false, true)
    case NoneOf => if isNot then (true, false) else (false, true)
  }

  function Jump(isAll: bool, positions: nat): Instr {
    if isAll then JumpIfFalse(positions) else JumpIfTrue(positions)
  }

  function Code(r: Rule, isNot: bool): seq<Instr> {
    match r
    case Leaf(t, negated) => [Match(t, isNot != negated)]
    case Bad(_) => []
    case Group(op, rs) =>
      var (isAll, isNot') := Enter(op, isNot);
      GroupCode(rs, isAll, isNot')
  }

  function GroupCode(rs: seq<Rule>, isAll: bool, isNot: bool): seq<Instr> {
    if rs == [] then []
    else
      var rest := GroupCode(rs[1..], isAll, isNot);
      Code(rs[0], isNot) + Exit(rs, isAll, |rest|) + rest
  }

  /** Only a test followed by a sibling gets a jump, to the end of its own group. */
  function Exit(rs: seq<Rule>, isAll: bool, distance: nat): seq<Instr>
    requires rs != []
  {
    if rs[0].Leaf? && |rs| > 1 then [Jump(isAll, distance)] else []
  }

  // ----- The jump machine -----

  /** The last match outcome when the program runs off its end, or `None` when a lookup gave no answer. */
  function Run(p: seq<Instr>, matched: bool, env: Envelope): Option<bool>
    decreases |p|
  {
    if p == [] then Some(matched)
    else match p[0]
      case Match(t, negated) =>
        (match env(t)
         case None => None
         case Some(b) => Run(p[1..], b != negated, env))
      case JumpIfTrue(n) => Run(if matched then Skip(p, n) else p[1..], matched, env)
      case JumpIfFalse(n) => Run(if !matched then Skip(p, n) else p[1..], matched, env)
  }

  /** Advancing the exhausted iterator is harmless, so a long jump stops at the end. */
  function Skip(p: seq<Instr>, n: nat): seq<Instr>
    requires p != []
  {
    if 1 + n <= |p| then p[1 + n..] else []
  }

  // ----- What the configuration says -----

  /** Left-to-right short-circuit value; `none-of` is the negation of `all-of`, as the parser's tests fix it. */
  function Value(r: Rule, env: Envelope): Option<bool> {
    match r
    case Leaf(t, negated) => Xor(env(t), negated)
    case Bad(_) => Some(false)
    case Group(AnyOf, rs) => ListValue(rs, false, env)
    case Group(AllOf, rs) => ListValue(rs, true, env)
    case Group(NoneOf, rs) => Xor(ListValue(rs, true, env), true)
  }

  /** Conjunction (`isAll`) or disjunction of a list, stopping at the first member that decides it. */
  function ListValue(rs: seq<Rule>, isAll: bool, env: Envelope): Option<bool> {
    if rs == [] then Some(isAll)
    else match Value(rs[0], env)
      case None => None
      case Some(b) => if b != isAll then Some(b) else ListValue(rs[1..], isAll, env)
  }

  function Xor(v: Option<bool>, flip: bool): Option<bool> {
    match v
    case None => None
    case Some(b) => Some(b != flip)
  }

  /** The order-free reading of a rule, for envelopes that answer every test. */
  ghost predicate Holds(r: Rule, env: Envelope) {
    match r
    case Leaf(t, negated) => env(t) == Some(!negated)
    case Bad(_) => false
    case Group(AnyOf, rs) => exists i :: 0 <= i < |rs| && Holds(rs[i], env)
    case Group(AllOf, rs) => forall i :: 0 <= i < |rs| ==> Holds(rs[i], env)
    case Group(NoneOf, rs) => exists i :: 0 <= i < |rs| && !Holds(rs[i], env)
  }

  ghost predicate AnswersAll(env: Envelope) {
    forall t :: env(t).Some?
  }

  // ----- What the emitted program computes -----

  /** The tree without the nested groups that are followed by a sibling. */
  function Prune(r: Rule): Rule {
    match r
    case Leaf(_, _) => r
    case Bad(_) => r
    case Group(op, rs) => Group(op, PruneList(rs))
  }

  function PruneList(rs: seq<Rule>): seq<Rule> {
    if rs == [] then []
    else if rs[0].Group? && |rs| > 1 then PruneList(rs[1..])
    else [Prune(rs[0])] + PruneList(rs[1..])
  }
}
