/**
 * The two atomic counters of one limiter, step by step. A reservation loads and adds under the lock of the map
 * entry, so at most one is under way; a release runs at any time, also between a load and its add.
 */
module QuotaCounters {
  import opened Prelude

  /** Zero stands for no limit. */
  datatype Limits = Limits(maxSize: nat, maxMessages: nat)

  /** How far the reservation under way has come, and its size. */
  datatype Phase = Idle | MessagesLoaded(size: nat) | MessagesAdded(size: nat) | SizeLoaded(size: nat)

  /**
   * The counters, the sizes of the reservations alive, those whose release has only reached the first counter,
   * and how many reservations were refused for their size so far.
   */
  datatype State = State(messages: int, size: int, phase: Phase, live: seq<nat>, leaving: seq<nat>, refusedForSize: nat)

  datatype Step =
    | LoadMessages(size: nat) | AddMessage | LoadSize | AddSize
    | ReleaseMessage(k: nat) | ReleaseSize(k: nat)

  function Sum(sizes: seq<nat>): nat {
    if sizes == [] then 0 else Sum(sizes[..|sizes| - 1]) + sizes[|sizes| - 1]
  }

  lemma {:induction false} SumWithout(sizes: seq<nat>, k: nat)
    requires k < |sizes|
    ensures Sum(Without(sizes, k)) == Sum(sizes) - sizes[k]
  {
    var last := |sizes| - 1;
    if k == last {
      assert Without(sizes, k) == sizes[..last];
    } else {
      SumWithout(sizes[..last], k);
      WithoutLast(sizes, k);
      SumPush(Without(sizes[..last], k), sizes[last]);
    }
  }

  lemma SumPush(sizes: seq<nat>, n: nat)
    ensures Sum(sizes + [n]) == Sum(sizes) + n
  {
    assert (sizes + [n])[..|sizes|] == sizes;
  }

  /** A limiter enters the map together with its first reservation. */
  predicate Opens(c: Limits, size: nat) { c.maxSize > 0 ==> size < c.maxSize }

  function Opened(c: Limits, size: nat): State {
    State(if c.maxMessages > 0 then 1 else 0, if c.maxSize > 0 then size else 0, Idle, [size], [], 0)
  }

  predicate Enabled(s: State, step: Step) {
    match step
    case LoadMessages(_) => s.phase.Idle?
    case AddMessage => s.phase.MessagesLoaded?
    case LoadSize => s.phase.MessagesAdded?
    case AddSize => s.phase.SizeLoaded?
    case ReleaseMessage(k) => k < |s.live|
    case ReleaseSize(k) => k < |s.leaving|
  }

  function Next(c: Limits, s: State, step: Step): State
    requires Enabled(s, step)
  {
    match step
    case LoadMessages(size) =>
      if c.maxMessages == 0 then s.(phase := MessagesAdded(size))
      else if s.messages < c.maxMessages then s.(phase := MessagesLoaded(size))
      else s
    case AddMessage => s.(messages := s.messages + 1, phase := MessagesAdded(s.phase.size))
    case LoadSize =>
      if c.maxSize == 0 then s.(phase := Idle, live := s.live + [s.phase.size])
      else if s.size + s.phase.size < c.maxSize then s.(phase := SizeLoaded(s.phase.size))
      else s.(phase := Idle, refusedForSize := s.refusedForSize + 1)
    case AddSize => s.(size := s.size + s.phase.size, phase := Idle, live := s.live + [s.phase.size])
    case ReleaseMessage(k) =>
      s.(messages := if c.maxMessages > 0 then s.messages - 1 else s.messages,
         live := Without(s.live, k), leaving := s.leaving + [s.live[k]])
    case ReleaseSize(k) =>
      s.(size := if c.maxSize > 0 then s.size - s.leaving[k] else s.size, leaving := Without(s.leaving, k))
  }

  function Pending(s: State): nat { if s.phase.MessagesAdded? || s.phase.SizeLoaded? then 1 else 0 }

  /** The message counter: the reservations alive, one under way, and one for every refusal for size. */
  predicate MessagesBalance(c: Limits, s: State) {
    if c.maxMessages == 0 then s.messages == 0 && !s.phase.MessagesLoaded?
    else
      && s.messages == |s.live| + Pending(s) + s.refusedForSize
      && (if s.phase.MessagesLoaded? then s.messages < c.maxMessages else s.messages <= c.maxMessages)
  }

  predicate SizeBalances(c: Limits, s: State) {
    if c.maxSize == 0 then s.size == 0 && !s.phase.SizeLoaded? && s.refusedForSize == 0
    else
      && s.size == Sum(s.live) + Sum(s.leaving)
      && (if s.phase.SizeLoaded? then s.size + s.phase.size < c.maxSize else s.size < c.maxSize)
  }

  lemma StepKeepsMessages(c: Limits, s: State, step: Step)
    requires Enabled(s, step) && MessagesBalance(c, s) && SizeBalances(c, s)
    ensures MessagesBalance(c, Next(c, s, step))
  {
  }

  lemma StepKeepsSize(c: Limits, s: State, step: Step)
    requires Enabled(s, step) && SizeBalances(c, s)
    ensures SizeBalances(c, Next(c, s, step))
  {
    if step.AddSize? {
      SumPush(s.live, s.phase.size);
    } else if step.ReleaseMessage? {
      SumWithout(s.live, step.k);
      SumPush(s.leaving, s.live[step.k]);
    } else if step.ReleaseSize? {
      SumWithout(s.leaving, step.k);
    }
  }

  /** Where `steps` lead from the limiter's first reservation, if each can be taken. */
  function Reached(c: Limits, first: nat, steps: seq<Step>): Option<State> {
    if steps == [] then if Opens(c, first) then Some(Opened(c, first)) else None
    else
      var before := Reached(c, first, steps[..|steps| - 1]);
      var step := steps[|steps| - 1];
      if before.Some? && Enabled(before.value, step) then Some(Next(c, before.value, step)) else None
  }

  /** Both counters agree with the books in every state of every run. */
  lemma {:induction false} CountersBalance(c: Limits, first: nat, steps: seq<Step>, s: State)
    requires Reached(c, first, steps) == Some(s)
    ensures MessagesBalance(c, s) && SizeBalances(c, s)
  {
    if steps == [] {
      assert Sum([first]) == first by { SumPush([], first); assert [] + [first] == [first]; }
    } else {
      var step := steps[|steps| - 1];
      var before := Reached(c, first, steps[..|steps| - 1]).value;
      CountersBalance(c, first, steps[..|steps| - 1], before);
      StepKeepsMessages(c, before, step);
      StepKeepsSize(c, before, step);
    }
  }

  /** The size counter is exact and stays below its maximum; the messages alive never exceed theirs. */
  lemma QuotaHolds(c: Limits, first: nat, steps: seq<Step>, s: State)
    requires Reached(c, first, steps) == Some(s)
    ensures c.maxSize > 0 ==> s.size == Sum(s.live) + Sum(s.leaving) && Sum(s.live) + Sum(s.leaving) < c.maxSize
    ensures c.maxMessages > 0 ==> |s.live| <= s.messages <= c.maxMessages
  {
    CountersBalance(c, first, steps, s);
  }

  /** Between reservations the message counter is exact if and only if none was refused for its size. */
  lemma MessagesExactIff(c: Limits, first: nat, steps: seq<Step>, s: State)
    requires Reached(c, first, steps) == Some(s) && c.maxMessages > 0 && s.phase.Idle?
    ensures s.messages == |s.live| <==> s.refusedForSize == 0
    ensures c.maxSize == 0 ==> s.messages == |s.live|
  {
    CountersBalance(c, first, steps, s);
  }

  /** A concurrency limit is the message counter alone: it equals the guards alive, plus one just being made. */
  lemma GuardsAreCounted(max: nat, steps: seq<Step>, s: State)
    requires max > 0 && Reached(Limits(0, max), 0, steps) == Some(s)
    ensures s.messages == |s.live| + Pending(s) && |s.live| <= max
  {
    CountersBalance(Limits(0, max), 0, steps, s);
  }

  /** Places lost to refusals are lost for the rest of the run. */
  lemma {:induction false} RefusalsStay(c: Limits, s: State, steps: seq<Step>, first: nat, earlier: seq<Step>, s': State)
    requires Reached(c, first, earlier) == Some(s) && Reached(c, first, earlier + steps) == Some(s')
    ensures s.refusedForSize <= s'.refusedForSize
    decreases |steps|
  {
    if steps == [] {
      assert earlier + steps == earlier;
    } else {
      var all := earlier + steps;
      assert all[..|all| - 1] == earlier + steps[..|steps| - 1];
      RefusalsStay(c, s, steps[..|steps| - 1], first, earlier, Reached(c, first, all[..|all| - 1]).value);
    }
  }

  /** Once the refusals for size number as many as the message limit, no reservation is alive ever again. */
  lemma ExhaustedForever(c: Limits, first: nat, earlier: seq<Step>, s: State, steps: seq<Step>, s': State)
    requires Reached(c, first, earlier) == Some(s) && Reached(c, first, earlier + steps) == Some(s')
    requires 0 < c.maxMessages <= s.refusedForSize
    ensures s'.live == [] && s'.messages == c.maxMessages
  {
    RefusalsStay(c, s, steps, first, earlier, s');
    CountersBalance(c, first, earlier + steps, s');
  }

  lemma Take(c: Limits, first: nat, steps: seq<Step>, s: State, step: Step, s': State)
    requires Reached(c, first, steps) == Some(s) && Enabled(s, step) && Next(c, s, step) == s'
    ensures Reached(c, first, steps + [step]) == Some(s')
  {
    hide Next;
    assert (steps + [step])[..|steps|] == steps;
  }

  /** A message of 9 bytes is refused for its size, with one of a single byte in the queue. */
  lemma RefusedOnce() returns (steps: seq<Step>)
    ensures Reached(Limits(10, 2), 1, steps) == Some(State(1, 1, Idle, [], [1], 1))
  {
    hide Reached;
    var c := Limits(10, 2);
    assert Reached(c, 1, []) == Some(State(1, 1, Idle, [1], [], 0)) by { AtFirst(c, 1); }
    Take(c, 1, [], State(1, 1, Idle, [1], [], 0), LoadMessages(9), State(1, 1, MessagesLoaded(9), [1], [], 0));
    steps := [] + [LoadMessages(9)];
    Take(c, 1, steps, State(1, 1, MessagesLoaded(9), [1], [], 0), AddMessage, State(2, 1, MessagesAdded(9), [1], [], 0));
    steps := steps + [AddMessage];
    Take(c, 1, steps, State(2, 1, MessagesAdded(9), [1], [], 0), LoadSize, State(2, 1, Idle, [1], [], 1));
    steps := steps + [LoadSize];
    Take(c, 1, steps, State(2, 1, Idle, [1], [], 1), ReleaseMessage(0), State(1, 1, Idle, [], [1], 1));
    steps := steps + [ReleaseMessage(0)];
  }

  lemma AtFirst(c: Limits, first: nat)
    requires Opens(c, first)
    ensures Reached(c, first, []) == Some(Opened(c, first))
  {
  }

  /** Two messages of 9 bytes against a limit of 10 bytes and 2 messages: afterwards the empty quota is full. */
  lemma RefusalsFillQuota() returns (steps: seq<Step>)
    ensures Reached(Limits(10, 2), 1, steps) == Some(State(2, 0, Idle, [], [], 2))
  {
    hide Reached;
    var c := Limits(10, 2);
    steps := RefusedOnce();
    Take(c, 1, steps, State(1, 1, Idle, [], [1], 1), LoadMessages(9), State(1, 1, MessagesLoaded(9), [], [1], 1));
    steps := steps + [LoadMessages(9)];
    Take(c, 1, steps, State(1, 1, MessagesLoaded(9), [], [1], 1), AddMessage, State(2, 1, MessagesAdded(9), [], [1], 1));
    steps := steps + [AddMessage];
    Take(c, 1, steps, State(2, 1, MessagesAdded(9), [], [1], 1), LoadSize, State(2, 1, Idle, [], [1], 2));
    steps := steps + [LoadSize];
    Take(c, 1, steps, State(2, 1, Idle, [], [1], 2), ReleaseSize(0), State(2, 0, Idle, [], [], 2));
    steps := steps + [ReleaseSize(0)];
  }
}
