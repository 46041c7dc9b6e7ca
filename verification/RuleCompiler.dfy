/**
  The rule parser and the rule machine as the server runs them: an explicit stack, polarity
  flags, placeholder jumps patched in place when their group closes, and a moving iterator.
*/
module RuleCompiler {
  import opened Prelude
  import opened Rules

  /** What is set aside while a nested group is being compiled. */
  datatype Frame = Frame(iter: seq<Rule>, jumps: seq<nat>, isAll: bool, isNot: bool)

  const UNPATCHED: nat := 0xFFFF_FFFF_FFFF_FFFF

  function Patch(i: Instr, positions: nat): Instr {
    match i
    case Match(_, _) => i
    case JumpIfTrue(_) => JumpIfTrue(positions)
    case JumpIfFalse(_) => JumpIfFalse(positions)
  }

  /** All jumps recorded in `jumps` are directed at the end of `p`. */
  function PatchAll(p: seq<Instr>, jumps: seq<nat>): (q: seq<Instr>)
    ensures |q| == |p|
  {
    seq(|p|, i requires 0 <= i < |p| => if i in jumps then Patch(p[i], |p| - 1 - i) else p[i])
  }

  lemma PatchNone(p: seq<Instr>)
    ensures PatchAll(p, []) == p
  {
  }

  /** The program after the remaining members of the current group are compiled and the group is closed. */
  ghost function Closed(p: seq<Instr>, top: Frame): seq<Instr> {
    PatchAll(p + GroupCode(top.iter, top.isAll, top.isNot), top.jumps)
  }

  /** The program that the parser will have emitted once every frame on the stack is closed too. */
  ghost function Unwound(p: seq<Instr>, stack: seq<Frame>): seq<Instr>
    decreases |stack|
  {
    if stack == [] then p else Unwound(Closed(p, stack[|stack| - 1]), stack[..|stack| - 1])
  }

  ghost function Finished(p: seq<Instr>, top: Frame, stack: seq<Frame>): seq<Instr> {
    Unwound(Closed(p, top), stack)
  }

  ghost function PendingError(top: Frame, stack: seq<Frame>): Option<string>
    decreases |stack|
  {
    if FirstErrorIn(top.iter).Some? then FirstErrorIn(top.iter)
    else if stack == [] then None
    else PendingError(stack[|stack| - 1], stack[..|stack| - 1])
  }

  ghost function Nodes(r: Rule): nat {
    match r
    case Leaf(_, _) => 1
    case Bad(_) => 1
    case Group(_, rs) => 1 + NodesIn(rs)
  }

  ghost function NodesIn(rs: seq<Rule>): nat {
    if rs == [] then 0 else Nodes(rs[0]) + NodesIn(rs[1..])
  }

  ghost function Pending(top: Frame, stack: seq<Frame>): nat
    decreases |stack|
  {
    NodesIn(top.iter) + if stack == [] then 0 else Pending(stack[|stack| - 1], stack[..|stack| - 1])
  }

  lemma Cons(cur: Rule, iter: seq<Rule>, isAll: bool, isNot: bool)
    ensures
      var rest := GroupCode(iter, isAll, isNot);
      GroupCode([cur] + iter, isAll, isNot) == Code(cur, isNot) + Exit([cur] + iter, isAll, |rest|) + rest
    ensures FirstErrorIn([cur] + iter) == if FirstError(cur).Some? then FirstError(cur) else FirstErrorIn(iter)
    ensures NodesIn([cur] + iter) == Nodes(cur) + NodesIn(iter)
  {
    assert ([cur] + iter)[1..] == iter;
  }

  lemma PushFrame(p: seq<Instr>, inner: Frame, stack: seq<Frame>, top: Frame)
    ensures Finished(p, inner, stack + [top]) == Finished(Closed(p, inner), top, stack)
    ensures PendingError(inner, stack + [top])
         == if FirstErrorIn(inner.iter).Some? then FirstErrorIn(inner.iter) else PendingError(top, stack)
    ensures Pending(inner, stack + [top]) == NodesIn(inner.iter) + Pending(top, stack)
  {
    var outer := stack + [top];
    assert outer[..|stack|] == stack && outer[|stack|] == top;
  }

  /** Patching a placeholder together with the older jumps is the same as having emitted the right distance. */
  lemma PatchPlaceholder(p: seq<Instr>, isAll: bool, rest: seq<Instr>, jumps: seq<nat>)
    requires JumpsBelow(jumps, |p|)
    ensures PatchAll(p + [Jump(isAll, UNPATCHED)] + rest, jumps + [|p|])
         == PatchAll(p + [Jump(isAll, |rest|)] + rest, jumps)
  {
    var a := p + [Jump(isAll, UNPATCHED)] + rest;
    var b := p + [Jump(isAll, |rest|)] + rest;
    forall i | 0 <= i < |a|
      ensures PatchAll(a, jumps + [|p|])[i] == PatchAll(b, jumps)[i]
    {
      if i != |p| {
        assert a[i] == b[i];
        assert i in jumps + [|p|] <==> i in jumps;
      }
    }
  }

  /** Putting a test into the program, with or without its jump, leaves the closed group as it was. */
  lemma EmitLeaf(p: seq<Instr>, cur: Rule, top: Frame)
    requires cur.Leaf?
    requires JumpsBelow(top.jumps, |p|)
    ensures
      var emitted := p + [Match(cur.test, top.isNot != cur.negated)];
      Closed(p, top.(iter := [cur] + top.iter))
      == if top.iter == [] then Closed(emitted, top)
         else Closed(emitted + [Jump(top.isAll, UNPATCHED)], top.(jumps := top.jumps + [|emitted|]))
  {
    var rest := GroupCode(top.iter, top.isAll, top.isNot);
    var emitted := p + [Match(cur.test, top.isNot != cur.negated)];
    Cons(cur, top.iter, top.isAll, top.isNot);
    var whole := p + GroupCode([cur] + top.iter, top.isAll, top.isNot);
    if top.iter == [] {
      assert whole == emitted + rest;
    } else {
      assert whole == emitted + [Jump(top.isAll, |rest|)] + rest;
      PatchPlaceholder(emitted, top.isAll, rest, top.jumps);
    }
  }

  lemma Associate(a: seq<Instr>, b: seq<Instr>, c: seq<Instr>)
    ensures a + (b + [] + c) == (a + b) + c
  {
  }

  /** Closing a group that was just entered appends its code, so the enclosing group closes as before. */
  lemma EnterGroup(p: seq<Instr>, cur: Rule, top: Frame)
    requires cur.Group?
    ensures
      var (isAll, isNot) := Enter(cur.op, top.isNot);
      Closed(p, top.(iter := [cur] + top.iter)) == Closed(Closed(p, Frame(cur.rules, [], isAll, isNot)), top)
  {
    var (isAll, isNot) := Enter(cur.op, top.isNot);
    var code := GroupCode(cur.rules, isAll, isNot);
    Cons(cur, top.iter, top.isAll, top.isNot);
    PatchNone(p + code);
    Associate(p, code, GroupCode(top.iter, top.isAll, top.isNot));
  }

  ghost predicate JumpsBelow(jumps: seq<nat>, n: nat) {
    forall i | 0 <= i < |jumps| :: jumps[i] < n
  }

  /** The outermost frame belongs to no group: nothing is iterated or patched there. */
  ghost predicate RootUntouched(top: Frame, stack: seq<Frame>) {
    var root := if stack == [] then top else stack[0];
    root.iter == [] && root.jumps == []
  }

  /** The parser is on course: finishing the pending work yields the code, or the first error, of `root`. */
  ghost predicate OnCourse(root: Rule, p: seq<Instr>, top: Frame, stack: seq<Frame>) {
    && JumpsBelow(top.jumps, |p|)
    && (forall i | 0 <= i < |stack| :: JumpsBelow(stack[i].jumps, |p|))
    && Finished(p, top, stack) == Code(root, false)
    && PendingError(top, stack) == FirstError(root)
  }

  /** With no group open and nothing left to read, the program is the code of the tree. */
  lemma AllRead(root: Rule, p: seq<Instr>, top: Frame)
    requires RootUntouched(top, []) && OnCourse(root, p, top, [])
    ensures FirstError(root).None? && p == Code(root, false)
  {
    assert p + [] == p;
    PatchNone(p);
  }

  lemma NextIsBad(root: Rule, p: seq<Instr>, cur: Rule, top: Frame, stack: seq<Frame>)
    requires cur.Bad? && OnCourse(root, p, top.(iter := [cur] + top.iter), stack)
    ensures FirstError(root) == Some(cur.error)
  {
    hide Finished, Code, JumpsBelow;
    Cons(cur, top.iter, top.isAll, top.isNot);
  }

  /** `Config::parse_condition`. */
  method Compile(root: Rule) returns (r: Result<seq<Instr>, string>)
    ensures r == match FirstError(root) case Some(e) => Err(e) case None => Ok(Code(root, false))
  {
    hide OnCourse, FirstError, Code, Pending;
    var conditions: seq<Instr> := [];
    var stack: seq<Frame> := [];
    var top := Frame([], [], false, false);
    var cur := root;
    assert [root] + top.iter == [root];
    StartState(root);

    while true
      invariant RootUntouched(top, stack)
      invariant OnCourse(root, conditions, top.(iter := [cur] + top.iter), stack)
      decreases Pending(top.(iter := [cur] + top.iter), stack)
    {
      if cur.Bad? {
        NextIsBad(root, conditions, cur, top, stack);
        return Err(cur.error);
      }
      conditions, top, stack := Visit(root, conditions, cur, top, stack);
      conditions, top, stack := CloseGroups(root, conditions, top, stack);
      if top.iter == [] {
        AllRead(root, conditions, top);
        return Ok(conditions);
      }
      cur := top.iter[0];
      assert top.iter == [cur] + top.iter[1..];
      top := top.(iter := top.iter[1..]);
    }
  }

  /** One test or group header: emit the test with its placeholder jump, or set the current group aside. */
  method Visit(ghost root: Rule, p: seq<Instr>, cur: Rule, top: Frame, stack: seq<Frame>)
    returns (p': seq<Instr>, top': Frame, stack': seq<Frame>)
    requires !cur.Bad? && RootUntouched(top, stack) && OnCourse(root, p, top.(iter := [cur] + top.iter), stack)
    ensures RootUntouched(top', stack') && OnCourse(root, p', top', stack')
    ensures Pending(top', stack') < Pending(top.(iter := [cur] + top.iter), stack)
  {
    hide OnCourse, Pending;
    match cur
    case Group(op, rules) =>
      var (isAll, isNot) := Enter(op, top.isNot);
      VisitGroup(root, p, cur, top, stack);
      p', top', stack' := p, Frame(rules, [], isAll, isNot), stack + [top];
    case Leaf(test, negated) =>
      VisitLeaf(root, p, cur, top, stack);
      assert top == top.(jumps := top.jumps);
      p', top', stack' := p + [Match(test, top.isNot != negated)], top, stack;
      if top.iter != [] {
        top' := top.(jumps := top.jumps + [|p'|]);
        p' := p' + [Jump(top.isAll, UNPATCHED)];
      }
  }

  lemma VisitGroup(root: Rule, p: seq<Instr>, cur: Rule, top: Frame, stack: seq<Frame>)
    requires cur.Group? && OnCourse(root, p, top.(iter := [cur] + top.iter), stack)
    ensures
      var (isAll, isNot) := Enter(cur.op, top.isNot);
      var inner := Frame(cur.rules, [], isAll, isNot);
      && OnCourse(root, p, inner, stack + [top])
      && Pending(inner, stack + [top]) < Pending(top.(iter := [cur] + top.iter), stack)
  {
    var (isAll, isNot) := Enter(cur.op, top.isNot);
    Cons(cur, top.iter, top.isAll, top.isNot);
    EnterGroup(p, cur, top);
    PushFrame(p, Frame(cur.rules, [], isAll, isNot), stack, top);
  }

  lemma VisitLeaf(root: Rule, p: seq<Instr>, cur: Rule, top: Frame, stack: seq<Frame>)
    requires cur.Leaf? && OnCourse(root, p, top.(iter := [cur] + top.iter), stack)
    ensures
      var emitted := p + [Match(cur.test, top.isNot != cur.negated)];
      if top.iter == [] then OnCourse(root, emitted, top, stack)
      else OnCourse(root, emitted + [Jump(top.isAll, UNPATCHED)], top.(jumps := top.jumps + [|emitted|]), stack)
    ensures forall jumps :: Pending(top.(jumps := jumps), stack) < Pending(top.(iter := [cur] + top.iter), stack)
  {
    Cons(cur, top.iter, top.isAll, top.isNot);
    EmitLeaf(p, cur, top);
  }

  /** While the current group is exhausted: direct its jumps here and resume the enclosing group. */
  method CloseGroups(ghost root: Rule, p: seq<Instr>, top: Frame, stack: seq<Frame>)
    returns (p': seq<Instr>, top': Frame, stack': seq<Frame>)
    requires RootUntouched(top, stack) && OnCourse(root, p, top, stack)
    ensures RootUntouched(top', stack') && OnCourse(root, p', top', stack')
    ensures top'.iter == [] ==> stack' == []
    ensures Pending(top', stack') <= Pending(top, stack)
  {
    p', top', stack' := p, top, stack;
    while top'.iter == [] && stack' != []
      invariant RootUntouched(top', stack') && OnCourse(root, p', top', stack')
      invariant Pending(top', stack') <= Pending(top, stack)
      decreases |stack'|
    {
      assert p' + [] == p';
      assert stack' == stack'[..|stack'| - 1] + [stack'[|stack'| - 1]];
      PushFrame(p', top', stack'[..|stack'| - 1], stack'[|stack'| - 1]);
      p' := PatchJumps(p', top'.jumps);
      top' := stack'[|stack'| - 1];
      stack' := stack'[..|stack'| - 1];
    }
  }

  lemma StartState(root: Rule)
    ensures OnCourse(root, [], Frame([root], [], false, false), [])
  {
    assert [root][1..] == [];
    assert FirstErrorIn([root]) == FirstError(root);
    assert [] + GroupCode([root], false, false) == Code(root, false);
    PatchNone(Code(root, false));
  }

  /** The loop over `jmp_pos` that directs a closing group's jumps at the end of the program so far. */
  method PatchJumps(p: seq<Instr>, jumps: seq<nat>) returns (q: seq<Instr>)
    requires JumpsBelow(jumps, |p|)
    ensures q == PatchAll(p, jumps)
  {
    q := p;
    for k := 0 to |jumps|
      invariant |q| == |p|
      invariant q == PatchAll(p, jumps[..k])
    {
      var pos := jumps[k];
      q := q[pos := Patch(q[pos], |q| - 1 - pos)];
      assert jumps[..k + 1] == jumps[..k] + [pos];
    }
    assert jumps[..|jumps|] == jumps;
  }

  /** `Conditions::eval`: a lookup without an answer makes the whole rule false. */
  method Eval(p: seq<Instr>, env: Envelope) returns (result: bool)
    ensures result <==> Run(p, false, env) == Some(true)
  {
    var i, matched := 0, false;
    while i < |p|
      invariant 0 <= i <= |p|
      invariant Run(p, false, env) == Run(p[i..], matched, env)
    {
      var instr := p[i];
      ghost var here := p[i..];
      assert here[0] == instr && here[1..] == p[i + 1..];
      i := i + 1;
      match instr
      case Match(test, negated) =>
        match env(test) {
          case None => return false;
          case Some(b) => matched := b != negated;
        }
      case JumpIfTrue(n) =>
        if matched {
          assert Skip(here, n) == if i + n <= |p| then p[i + n..] else [];
          i := Advance(i, n, |p|);
        }
      case JumpIfFalse(n) =>
        if !matched {
          assert Skip(here, n) == if i + n <= |p| then p[i + n..] else [];
          i := Advance(i, n, |p|);
        }
    }
    result := matched;
  }

  /** Calling `next` on an iterator `n` times: it stops at the end. */
  method Advance(from: nat, n: nat, end: nat) returns (i: nat)
    requires from <= end
    ensures i == if from + n <= end then from + n else end
  {
    i := from;
    for k := 0 to n
      invariant i == if from + k <= end then from + k else end
    {
      if i < end {
        i := i + 1;
      }
    }
  }

  datatype IfThen<T> = IfThen(conditions: seq<Instr>, then_: T)

  /** Branch `i` holds and none before it does. */
  predicate FirstToHold<T>(branches: seq<IfThen<T>>, i: nat, env: Envelope) {
    && i < |branches| && Run(branches[i].conditions, false, env) == Some(true)
    && forall j | 0 <= j < i :: Run(branches[j].conditions, false, env) != Some(true)
  }

  /** `IfBlock::eval`: the value of the first branch whose rule is true, else the default. */
  method EvalIfBlock<T>(branches: seq<IfThen<T>>, default_: T, env: Envelope) returns (value: T)
    ensures forall i: nat | FirstToHold(branches, i, env) :: value == branches[i].then_
    ensures (forall i | 0 <= i < |branches| :: Run(branches[i].conditions, false, env) != Some(true)) ==> value == default_
  {
    for i := 0 to |branches|
      invariant forall j | 0 <= j < i :: Run(branches[j].conditions, false, env) != Some(true)
    {
      var hit := Eval(branches[i].conditions, env);
      if hit {
        return branches[i].then_;
      }
    }
    return default_;
  }
}
