/** The queue file follows the life of a message: whenever the server stops, reading the file gives the message back. */
module CrashSafety {
  import opened Prelude
  import opened QueueTypes
  import opened SpoolClock
  import opened Session
  import opened Lifecycle
  import opened Journal
  import opened JournalTheorems
  import opened MessageLife
  import opened MessageProofs
  import opened MessageTheorems
  import opened SaveProofs
  import opened BounceProofs
  import opened SeenFile

  /** The message that a step hands to the save at its end. */
  ghost function Unsaved(l: Life, step: Step, config: Config): Message
    requires Enabled(l, step) && ValidConfig(config)
  {
    match step
    case Visit(at) => Opened(l.m, at, config)
    case Attempt(at, turns, finish) =>
      OpenedIndexed(l.m, at, config);
      var m2 := Opened(l.m, at, config);
      WorkedIndexed(m2, turns, |turns|);
      SendDsn(Worked(m2, turns, |turns|), finish, config).0
    case CancelSome(chosen, response) => Cancel(l.m, chosen, response)
    case CancelAll => l.m
    case AskRetry(chosen, time) => OperatorRetry(l.m, chosen, time)
  }

  /** Steps whose changes all carry the mark that makes them reach the file. */
  predicate Recorded(l: Life, step: Step)
    requires Enabled(l, step)
  {
    match step
    case Visit(at) =>
      if l.m.returnPath != [] then forall i | 0 <= i < |l.m.recipients| :: !SlipsThrough(l.m, i, at)
      else VisitRecorded(l.m, at)
    case Attempt(at, turns, finish) =>
      if l.m.returnPath != [] then forall i | 0 <= i < |l.m.recipients| :: !SlipsThrough(l.m, i, at)
      else AttemptRecorded(l.m, at, turns, finish)
    case CancelSome(_, _) => true
    case CancelAll => true
    case AskRetry(chosen, time) =>
      forall i | 0 <= i < |l.m.domains| && i in chosen && l.m.domains[i].status.Pending() && l.m.domains[i].expires > time ::
        l.m.domains[i].expires == time + TEN_SECONDS
  }

  /** A life that stays in the queue, state by state. */
  ghost predicate Lives(ls: seq<Life>, steps: seq<Step>, config: Config)
    requires ValidConfig(config)
  {
    && |ls| == |steps| + 1
    && (forall i | 0 <= i < |ls| :: ls[i].fate == Queued && |ls[i].tries| == |ls[i].m.domains|)
    && (forall i | 0 <= i < |steps| :: Enabled(ls[i], steps[i]) && ls[i + 1] == Next(ls[i], steps[i], config))
  }

  lemma StepSaves(l: Life, step: Step, config: Config)
    requires ValidConfig(config) && Enabled(l, step) && |l.tries| == |l.m.domains| && Next(l, step, config).fate == Queued
    ensures Next(l, step, config).m == Cleared(Unsaved(l, step, config))
  {
    hide Opened, Worked, SendDsn, Cleared, Cancel, OperatorRetry, SomePending, OpenedLog, LogOf, TriedBy;
  }

  lemma ClearedIsSaved(m: Message)
    requires Indexed(m)
    ensures Saved(Cleared(m))
  {
  }

  /** The save after a step brings the file up to date if and only if the step is recorded. */
  lemma StepIsTracked(l: Life, step: Step, config: Config)
    requires ValidConfig(config) && Enabled(l, step) && Saved(l.m)
    ensures Tracked(l.m, Unsaved(l, step, config)) <==> Recorded(l, step)
  {
    hide Opened, Worked, SendDsn, Tracked, Cancel, OperatorRetry, SlipsThrough, VisitRecorded, AttemptRecorded;
    match step
    case Visit(at) =>
      if l.m.returnPath != [] {
        VisitIsTracked(l.m, at, config);
      } else {
        BounceVisitIsTracked(l.m, at, config);
      }
    case Attempt(at, turns, finish) =>
      if l.m.returnPath != [] {
        AttemptIsTracked(l.m, at, turns, finish, config);
      } else {
        BounceAttemptIsTracked(l.m, at, turns, finish, config);
      }
    case CancelSome(chosen, response) => CancelIsTracked(l.m, chosen, response);
    case CancelAll => SavedTracksItself(l.m);
    case AskRetry(chosen, time) => AskRetryIsTracked(l.m, chosen, time);
  }

  lemma SavedTracksItself(m: Message)
    requires Saved(m)
    ensures Tracked(m, m)
  {
  }

  ghost function SavesOf(ls: seq<Life>, steps: seq<Step>, clocks: seq<Clock>, config: Config, n: nat): seq<Save>
    requires ValidConfig(config) && Lives(ls, steps, config) && |clocks| == |ls| && n <= |steps|
  {
    seq(n, i requires 0 <= i < n => Save(Unsaved(ls[i], steps[i], config), clocks[i + 1]))
  }

  lemma {:induction false} SavesAreHistory(ls: seq<Life>, steps: seq<Step>, clocks: seq<Clock>, config: Config, n: nat)
    requires ValidConfig(config) && Lives(ls, steps, config) && |clocks| == |ls| && n <= |steps|
    requires Sound(ls[0].m) && Saved(ls[0].m)
    requires forall i | 0 <= i < |steps| :: Recorded(ls[i], steps[i])
    ensures
      var first := Save(ls[0].m, clocks[0]);
      var saves := SavesOf(ls, steps, clocks, config, n);
      && History(first, saves) && Live(first, saves) == ls[n].m
      && Sound(ls[n].m) && Saved(ls[n].m)
  {
    hide Unsaved, Next, Tracked, Cleared, Sound, Saved, Recorded, Enabled;
    if n > 0 {
      var k := n - 1;
      SavesAreHistory(ls, steps, clocks, config, k);
      var first, before, saves := Save(ls[0].m, clocks[0]), SavesOf(ls, steps, clocks, config, k), SavesOf(ls, steps, clocks, config, n);
      assert saves[..k] == before;
      StepIsTracked(ls[k], steps[k], config);
      assert ls[k + 1] == Next(ls[k], steps[k], config);
      StepKeeps(ls[k], steps[k], config);
      StepSaves(ls[k], steps[k], config);
      assert Indexed(ls[n].m) by { SoundIndexed(ls[n].m); }
      UnsavedIndexed(ls[k], steps[k], config);
      ClearedIsSaved(Unsaved(ls[k], steps[k], config));
    }
  }

  lemma UnsavedIndexed(l: Life, step: Step, config: Config)
    requires ValidConfig(config) && Enabled(l, step) && Indexed(Cleared(Unsaved(l, step, config)))
    ensures Indexed(Unsaved(l, step, config))
  {
    hide Unsaved;
    var m := Unsaved(l, step, config);
    assert forall i | 0 <= i < |m.recipients| :: Cleared(m).recipients[i].domainIdx == m.recipients[i].domainIdx;
  }

  /**
    Whenever the server stops after a save, reading the file restores the message as it was in
    memory, for every life of recorded steps and all messages within the limits of the file format.
  */
  lemma FileFollowsLife(ls: seq<Life>, steps: seq<Step>, clocks: seq<Clock>, config: Config, now: Clock)
    requires ValidConfig(config) && Lives(ls, steps, config) && |clocks| == |ls| && New(ls[0], config)
    requires Saved(ls[0].m)
    requires forall i | 0 <= i < |steps| :: Recorded(ls[i], steps[i])
    requires
      var first, saves := Save(ls[0].m, clocks[0]), SavesOf(ls, steps, clocks, config, |steps|);
      ReadAfter(first, saves, now)
      && Representable(first.message, first.clock) && FitsMessage(first.message)
      && forall i | 0 <= i < |saves| :: Representable(saves[i].message, saves[i].clock) && FitsMessage(saves[i].message)
    ensures
      var file := File(Save(ls[0].m, clocks[0]), SavesOf(ls, steps, clocks, config, |steps|));
      Deserialize(file, now).Some? && Restored(ls[|steps|].m, Deserialize(file, now).value, now.mono)
  {
    hide New, Saved, Recorded, Representable, FitsMessage, ReadAfter, History, Restored, File, Deserialize, Sound, Live;
    NewIsSound(ls[0], config);
    SavesAreHistory(ls, steps, clocks, config, |steps|);
    JournalRestores(Save(ls[0].m, clocks[0]), SavesOf(ls, steps, clocks, config, |steps|), now);
  }

  // ----- Any life, recorded or not -----

  lemma TurnSame(m: Message, i: nat, t: Turn)
    requires i < |m.domains|
    ensures SameMessage(m, TakeTurn(m, i, t))
  {
    hide RcptsAfter, DomainAfter, Interval;
    var m' := TakeTurn(m, i, t);
    forall j | 0 <= j < |m.recipients|
      ensures m'.recipients[j].(status := m.recipients[j].status, flags := m.recipients[j].flags) == m.recipients[j]
    {
      if t.outcome.Talked? {
        SameLength(m.recipients, i, t.outcome.script);
        SessionTouchesOnlyWaiting(m.recipients, i, t.outcome.script, j);
      }
    }
  }

  lemma {:induction false} WorkedSame(m: Message, turns: seq<Turn>, n: nat)
    requires n <= |m.domains| && |turns| == |m.domains|
    ensures SameMessage(m, Worked(m, turns, n))
  {
    hide TakeTurn, SameMessage;
    if n == 0 {
      SelfSame(m);
    } else {
      WorkedSame(m, turns, n - 1);
      TurnSame(Worked(m, turns, n - 1), n - 1, turns[n - 1]);
      SameTransitive(m, Worked(m, turns, n - 1), Worked(m, turns, n));
    }
  }

  lemma NextNotifySame(d: Domain, now: Instant, intervals: Intervals)
    ensures NextNotify(d, now, intervals).domain == d.domain
  {
  }

  lemma ReportedSame(m: Message, now: Instant, config: Config)
    requires Indexed(m)
    ensures SameMessage(m, Lifecycle.Reported(m, now, config))
  {
    hide Notices, HasDelay, Outcome, Silent, NextNotify;
    var m' := Lifecycle.Reported(m, now, config);
    forall i | 0 <= i < |m.domains| ensures m'.domains[i].domain == m.domains[i].domain {
      NextNotifySame(m.domains[i], now, config.notify(m.domains[i].domain));
    }
    forall i | 0 <= i < |m.recipients|
      ensures m'.recipients[i].(status := m.recipients[i].status, flags := m.recipients[i].flags) == m.recipients[i]
    {
    }
  }

  lemma BouncedSame(m: Message, now: Instant)
    requires Indexed(m)
    ensures SameMessage(m, DoubleBounced(m, now))
  {
    hide Outcome, Silent;
    var m' := DoubleBounced(m, now);
    forall i | 0 <= i < |m.domains| ensures m'.domains[i].domain == m.domains[i].domain {
    }
    forall i | 0 <= i < |m.recipients|
      ensures m'.recipients[i].(status := m.recipients[i].status, flags := m.recipients[i].flags) == m.recipients[i]
    {
    }
  }

  lemma DsnSame(m: Message, now: Instant, config: Config)
    requires Indexed(m)
    ensures SameMessage(m, SendDsn(m, now, config).0)
  {
    hide SameMessage, Lifecycle.Reported, DoubleBounced, Notices;
    if m.returnPath != [] {
      ReportedSame(m, now, config);
    } else {
      BouncedSame(m, now);
    }
  }

  lemma OpenedSame(m: Message, at: Instant, config: Config)
    requires Indexed(m)
    ensures SameMessage(m, Opened(m, at, config))
  {
    hide SendDsn;
    ExpireIndexed(m, at);
    DsnSame(Expire(m, at), at, config);
    ExpireSame(m, at);
    SameTransitive(m, Expire(m, at), Opened(m, at, config));
  }

  lemma ExpireSame(m: Message, at: Instant)
    ensures SameMessage(m, Expire(m, at))
  {
  }

  lemma SameTransitive(a: Message, b: Message, c: Message)
    requires SameMessage(a, b) && SameMessage(b, c)
    ensures SameMessage(a, c)
  {
  }

  lemma UnsavedSame(l: Life, step: Step, config: Config)
    requires ValidConfig(config) && Enabled(l, step)
    ensures SameMessage(l.m, Unsaved(l, step, config)) && SameMessage(l.m, Cleared(Unsaved(l, step, config)))
  {
    hide Opened, Worked, SendDsn, SameMessage, Cancel, OperatorRetry, Cleared;
    match step {
      case Visit(at) => OpenedSame(l.m, at, config);
      case Attempt(at, turns, finish) =>
        OpenedIndexed(l.m, at, config);
        var m2 := Opened(l.m, at, config);
        OpenedSame(l.m, at, config);
        WorkedIndexed(m2, turns, |turns|);
        var m3 := Worked(m2, turns, |turns|);
        WorkedSame(m2, turns, |turns|);
        DsnSame(m3, finish, config);
        SameTransitive(l.m, m2, m3);
        SameTransitive(l.m, m3, SendDsn(m3, finish, config).0);
      case CancelSome(chosen, response) => CancelSame(l.m, chosen, response);
      case CancelAll => SelfSame(l.m);
      case AskRetry(chosen, time) => RetrySame(l.m, chosen, time);
    }
    ClearedSame(Unsaved(l, step, config));
    SameTransitive(l.m, Unsaved(l, step, config), Cleared(Unsaved(l, step, config)));
  }

  lemma SelfSame(m: Message)
    ensures SameMessage(m, m)
  {
  }

  lemma CancelSame(m: Message, chosen: set<nat>, response: HostResponse<Text>)
    ensures SameMessage(m, Cancel(m, chosen, response))
  {
    hide AllSettled;
  }

  lemma RetrySame(m: Message, chosen: set<nat>, time: Instant)
    ensures SameMessage(m, OperatorRetry(m, chosen, time))
  {
  }

  lemma ClearedSame(m: Message)
    ensures SameMessage(m, Cleared(m))
  {
  }

  lemma {:induction false} LifeIsOne(ls: seq<Life>, steps: seq<Step>, config: Config, n: nat)
    requires ValidConfig(config) && Lives(ls, steps, config) && n < |ls|
    ensures SameMessage(ls[0].m, ls[n].m)
    ensures n < |steps| ==> SameMessage(ls[0].m, Unsaved(ls[n], steps[n], config))
  {
    hide Unsaved, Next, Cleared, SameMessage, Enabled;
    if n == 0 {
      SelfSame(ls[0].m);
    } else {
      LifeIsOne(ls, steps, config, n - 1);
      assert ls[n - 1 + 1] == Next(ls[n - 1], steps[n - 1], config);
      StepSaves(ls[n - 1], steps[n - 1], config);
      UnsavedSame(ls[n - 1], steps[n - 1], config);
      SameTransitive(ls[0].m, ls[n - 1].m, ls[n].m);
    }
    if n < |steps| {
      UnsavedSame(ls[n], steps[n], config);
      SameTransitive(ls[0].m, ls[n].m, Unsaved(ls[n], steps[n], config));
    }
  }

  lemma LifeSavesOne(ls: seq<Life>, steps: seq<Step>, clocks: seq<Clock>, config: Config, n: nat)
    requires ValidConfig(config) && Lives(ls, steps, config) && |clocks| == |ls| && n <= |steps| && Saved(ls[0].m)
    ensures SavesOfOne(Save(ls[0].m, clocks[0]), SavesOf(ls, steps, clocks, config, n))
  {
    hide Unsaved, SameMessage, Next, Enabled;
    forall i | 0 <= i < n ensures SameMessage(ls[0].m, SavesOf(ls, steps, clocks, config, n)[i].message) {
      LifeIsOne(ls, steps, config, i);
    }
  }

  /** What the file has seen of a life after its first `n` steps. */
  ghost function SeenOf(ls: seq<Life>, steps: seq<Step>, clocks: seq<Clock>, config: Config, n: nat): Message
    requires ValidConfig(config) && Lives(ls, steps, config) && |clocks| == |ls| && n <= |steps| && Saved(ls[0].m)
  {
    LifeSavesOne(ls, steps, clocks, config, n);
    Seen(Save(ls[0].m, clocks[0]), SavesOf(ls, steps, clocks, config, n))
  }

  lemma SeenStep(ls: seq<Life>, steps: seq<Step>, clocks: seq<Clock>, config: Config, n: nat)
    requires ValidConfig(config) && Lives(ls, steps, config) && |clocks| == |ls| && n < |steps| && Saved(ls[0].m)
    ensures SameMessage(SeenOf(ls, steps, clocks, config, n), Unsaved(ls[n], steps[n], config))
    ensures SeenOf(ls, steps, clocks, config, n + 1)
         == Cleared(Followed(SeenOf(ls, steps, clocks, config, n), Unsaved(ls[n], steps[n], config)))
    ensures Unmarked(SeenOf(ls, steps, clocks, config, n))
  {
    hide Unsaved, Cleared, Followed, SameMessage, Unmarked, Next, Enabled;
    LifeSavesOne(ls, steps, clocks, config, n);
    LifeSavesOne(ls, steps, clocks, config, n + 1);
    var saves := SavesOf(ls, steps, clocks, config, n + 1);
    assert saves[..n] == SavesOf(ls, steps, clocks, config, n);
    SeenBefore(Save(ls[0].m, clocks[0]), saves);
  }

  /**
    The file has seen the message as it is in memory after every step of a life, if and only if every
    step is recorded: the first unrecorded step leaves the two apart.
  */
  lemma InStepIffRecorded(ls: seq<Life>, steps: seq<Step>, clocks: seq<Clock>, config: Config)
    requires ValidConfig(config) && Lives(ls, steps, config) && |clocks| == |ls| && Sound(ls[0].m) && Saved(ls[0].m)
    ensures (forall n | 0 <= n <= |steps| :: SeenOf(ls, steps, clocks, config, n) == ls[n].m)
       <==> (forall i | 0 <= i < |steps| :: Recorded(ls[i], steps[i]))
  {
    hide Unsaved, Next, Recorded, Enabled, Saved, Sound, Seen;
    if forall n | 0 <= n <= |steps| :: SeenOf(ls, steps, clocks, config, n) == ls[n].m {
      forall i | 0 <= i < |steps| ensures Recorded(ls[i], steps[i]) {
        assert SeenOf(ls, steps, clocks, config, i) == ls[i].m && SeenOf(ls, steps, clocks, config, i + 1) == ls[i + 1].m;
        OneStepApart(ls, steps, clocks, config, i);
      }
    }
    if forall i | 0 <= i < |steps| :: Recorded(ls[i], steps[i]) {
      forall n | 0 <= n <= |steps| ensures SeenOf(ls, steps, clocks, config, n) == ls[n].m {
        InStepSoFar(ls, steps, clocks, config, n);
      }
    }
  }

  lemma {:induction false} InStepSoFar(ls: seq<Life>, steps: seq<Step>, clocks: seq<Clock>, config: Config, n: nat)
    requires ValidConfig(config) && Lives(ls, steps, config) && |clocks| == |ls| && Sound(ls[0].m) && Saved(ls[0].m) && n <= |steps|
    requires forall i | 0 <= i < n :: Recorded(ls[i], steps[i])
    ensures SeenOf(ls, steps, clocks, config, n) == ls[n].m
  {
    hide Unsaved, Next, Recorded, Enabled, Saved, Sound, SeenOf;
    if n == 0 {
      NothingSeen(ls, steps, clocks, config);
    } else {
      InStepSoFar(ls, steps, clocks, config, n - 1);
      OneStepApart(ls, steps, clocks, config, n - 1);
    }
  }

  lemma NothingSeen(ls: seq<Life>, steps: seq<Step>, clocks: seq<Clock>, config: Config)
    requires ValidConfig(config) && Lives(ls, steps, config) && |clocks| == |ls| && Saved(ls[0].m)
    ensures SeenOf(ls, steps, clocks, config, 0) == ls[0].m
  {
    hide Unsaved, Next, Enabled;
  }

  /** From a file in step, one step keeps it so exactly if it is recorded. */
  lemma OneStepApart(ls: seq<Life>, steps: seq<Step>, clocks: seq<Clock>, config: Config, i: nat)
    requires ValidConfig(config) && Lives(ls, steps, config) && |clocks| == |ls| && Sound(ls[0].m) && Saved(ls[0].m) && i < |steps|
    requires SeenOf(ls, steps, clocks, config, i) == ls[i].m
    ensures SeenOf(ls, steps, clocks, config, i + 1) == ls[i + 1].m <==> Recorded(ls[i], steps[i])
  {
    hide Unsaved, Next, Recorded, Enabled, Sound, SeenOf, Tracked, Followed, Cleared, SameMessage;
    SeenStep(ls, steps, clocks, config, i);
    LifeIndexed(ls, steps, config, i);
    assert Saved(ls[i].m);
    InStepIff(ls[i].m, Unsaved(ls[i], steps[i], config));
    assert ls[i + 1] == Next(ls[i], steps[i], config);
    StepSaves(ls[i], steps[i], config);
    StepIsTracked(ls[i], steps[i], config);
  }

  lemma {:induction false} LifeIndexed(ls: seq<Life>, steps: seq<Step>, config: Config, n: nat)
    requires ValidConfig(config) && Lives(ls, steps, config) && Sound(ls[0].m) && n < |ls|
    ensures Sound(ls[n].m) && Indexed(ls[n].m)
  {
    hide Next, Enabled, Sound;
    if n > 0 {
      LifeIndexed(ls, steps, config, n - 1);
      assert ls[n - 1 + 1] == Next(ls[n - 1], steps[n - 1], config);
      StepKeeps(ls[n - 1], steps[n - 1], config);
    }
    SoundIndexed(ls[n].m);
  }
}
