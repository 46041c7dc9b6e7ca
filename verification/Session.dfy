/**
  One SMTP or LMTP transaction for the recipients of one domain. The peer's behaviour is a script;
  `RcptAfter` and `DomainAfter` say, without running the session, what it leaves behind.
*/
module Session {
  import opened Prelude
  import opened QueueTypes

  /** The answer to one RCPT command; `Aborted` is a connection that broke. */
  datatype RcptReply =
    | Accepted(ok: HostResponse<Text>)
    | Rejected(permanent: bool, error: HostResponse<ErrorDetails>)
    | Aborted(status: DomainStatus)

  datatype LmtpReply = Delivered(ok: HostResponse<Text>) | Refused(permanent: bool, error: HostResponse<ErrorDetails>)

  /** What follows the message data: nothing usable, one reply for all, or one reply per accepted recipient. */
  datatype DataReply = DataFailed(status: DomainStatus) | SmtpDelivered | LmtpReplies(replies: seq<LmtpReply>)

  datatype Script = Script(early: Option<DomainStatus>, rcpts: seq<RcptReply>, data: DataReply)

  predicate Failure(s: DomainStatus) {
    s.TemporaryFailure? || s.PermanentFailure?
  }

  /** Every way in which a session ends early is a failure of the domain. */
  predicate ValidScript(script: Script) {
    && (script.early.Some? ==> Failure(script.early.value))
    && (forall k | 0 <= k < |script.rcpts| && script.rcpts[k].Aborted? :: Failure(script.rcpts[k].status))
    && (script.data.DataFailed? ==> Failure(script.data.status))
  }

  /** The peer goes away when the script has no more replies. */
  const LOST: DomainStatus := TemporaryFailure(ConnectionError(ErrorDetails([], [])))

  function ReplyTo(script: Script, k: nat): RcptReply {
    if k < |script.rcpts| then script.rcpts[k] else Aborted(LOST)
  }

  // ----- The session in closed form -----

  /** A recipient of this domain that still waits for delivery: exactly these get a RCPT command. */
  predicate Waits(r: Recipient, idx: nat) {
    r.domainIdx == idx && r.status.Pending()
  }

  /** The number of RCPT commands for the first `n` recipients. */
  function Commands(rs: seq<Recipient>, idx: nat, n: nat): (k: nat)
    requires n <= |rs|
    ensures k <= n
  {
    if n == 0 then 0 else Commands(rs, idx, n - 1) + if Waits(rs[n - 1], idx) then 1 else 0
  }

  /** The status with which the session broke among its first `k` commands. */
  function Broken(script: Script, k: nat): Option<DomainStatus> {
    if k == 0 then None
    else if Broken(script, k - 1).Some? then Broken(script, k - 1)
    else match ReplyTo(script, k - 1)
      case Aborted(status) => Some(status)
      case _ => None
  }

  /** The recipients among the first `n` whose RCPT was accepted, in order. */
  function AcceptedRcpts(rs: seq<Recipient>, idx: nat, script: Script, n: nat): (a: seq<nat>)
    requires n <= |rs|
    ensures forall p | 0 <= p < |a| :: a[p] < n
  {
    if n == 0 then []
    else AcceptedRcpts(rs, idx, script, n - 1)
         + if Waits(rs[n - 1], idx) && ReplyTo(script, Commands(rs, idx, n - 1)).Accepted? then [n - 1] else []
  }

  function Updated(r: Recipient, status: RcptStatus): Recipient {
    r.(status := status, flags := r.flags.(statusChanged := true))
  }

  function RejectedStatus(permanent: bool, error: HostResponse<ErrorDetails>): RcptStatus {
    if permanent then PermanentFailure(error) else TemporaryFailure(error)
  }

  function LmtpStatus(reply: LmtpReply): RcptStatus {
    match reply
    case Delivered(ok) => Completed(ok)
    case Refused(permanent, error) => RejectedStatus(permanent, error)
  }

  /** What the data phase leaves of the `p`-th accepted recipient. */
  function DataAfter(r: Recipient, ok: HostResponse<Text>, data: DataReply, p: nat): Recipient {
    match data
    case DataFailed(_) => r
    case SmtpDelivered => Updated(r, Completed(ok))
    case LmtpReplies(replies) => if p < |replies| then Updated(r, LmtpStatus(replies[p])) else r
  }

  function RcptAfter(rs: seq<Recipient>, idx: nat, script: Script, i: nat): Recipient
    requires i < |rs|
  {
    var r, k := rs[i], Commands(rs, idx, i);
    if script.early.Some? || !Waits(r, idx) || Broken(script, k + 1).Some? then r
    else match ReplyTo(script, k)
      case Rejected(permanent, error) => Updated(r, RejectedStatus(permanent, error))
      case Accepted(ok) =>
        if Broken(script, Commands(rs, idx, |rs|)).Some? then r
        else DataAfter(r, ok, script.data, |AcceptedRcpts(rs, idx, script, i)|)
      case Aborted(_) => r
  }

  function RcptsAfter(rs: seq<Recipient>, idx: nat, script: Script): seq<Recipient> {
    seq(|rs|, i requires 0 <= i < |rs| => RcptAfter(rs, idx, script, i))
  }

  predicate AllSettled(rs: seq<Recipient>, idx: nat) {
    forall i | 0 <= i < |rs| && rs[i].domainIdx == idx :: rs[i].status.Terminal()
  }

  function DomainAfter(rs: seq<Recipient>, idx: nat, script: Script): DomainStatus {
    if script.early.Some? then script.early.value
    else if Broken(script, Commands(rs, idx, |rs|)).Some? then Broken(script, Commands(rs, idx, |rs|)).value
    else if AcceptedRcpts(rs, idx, script, |rs|) != [] && script.data.DataFailed? then script.data.status
    else if AllSettled(RcptsAfter(rs, idx, script), idx) then Completed(())
    else Scheduled
  }

  // ----- The session as it runs -----

  /** How many of the first `n` recipients belong to the domain, and how many of those are settled. */
  ghost function Mine(rs: seq<Recipient>, idx: nat, n: nat): nat
    requires n <= |rs|
  {
    if n == 0 then 0 else Mine(rs, idx, n - 1) + if rs[n - 1].domainIdx == idx then 1 else 0
  }

  ghost function Settled(rs: seq<Recipient>, idx: nat, n: nat): nat
    requires n <= |rs|
  {
    if n == 0 then 0
    else Settled(rs, idx, n - 1) + if rs[n - 1].domainIdx == idx && rs[n - 1].status.Terminal() then 1 else 0
  }

  lemma {:induction false} SettledBound(rs: seq<Recipient>, idx: nat, n: nat)
    requires n <= |rs|
    ensures Settled(rs, idx, n) <= Mine(rs, idx, n)
    ensures Settled(rs, idx, n) == Mine(rs, idx, n)
       <==> forall i | 0 <= i < n && rs[i].domainIdx == idx :: rs[i].status.Terminal()
  {
    if n > 0 {
      SettledBound(rs, idx, n - 1);
    }
  }

  lemma {:induction false} SettledUpdate(rs: seq<Recipient>, idx: nat, i: nat, r: Recipient, n: nat)
    requires i < |rs| && n <= |rs| && r.domainIdx == rs[i].domainIdx == idx
    ensures Mine(rs[i := r], idx, n) == Mine(rs, idx, n)
    ensures Settled(rs[i := r], idx, n)
         == Settled(rs, idx, n) + if i < n then (if r.status.Terminal() then 1 else 0) - (if rs[i].status.Terminal() then 1 else 0) else 0
  {
    if n > 0 {
      SettledUpdate(rs, idx, i, r, n - 1);
    }
  }

  lemma CountStep(rs: seq<Recipient>, idx: nat, n: nat)
    requires n < |rs|
    ensures Mine(rs, idx, n + 1) == Mine(rs, idx, n) + if rs[n].domainIdx == idx then 1 else 0
    ensures Settled(rs, idx, n + 1) == Settled(rs, idx, n) + if rs[n].domainIdx == idx && rs[n].status.Terminal() then 1 else 0
  {
  }

  /** `Message::deliver`: the recipients are updated on the way, and counters decide the domain's status. */
  method Deliver(rs: seq<Recipient>, idx: nat, script: Script) returns (out: seq<Recipient>, status: DomainStatus)
    ensures out == RcptsAfter(rs, idx, script)
    ensures status == DomainAfter(rs, idx, script)
  {
    hide Commands, Broken, AcceptedRcpts, Mine, Settled, AfterRcpt, AfterData;
    out := rs;
    if script.early.Some? {
      assert RcptsAfter(rs, idx, script) == rs;
      return rs, script.early.value;
    }
    hide RcptAfter;
    var accepted: seq<nat>, total, completed: nat, broken: Option<DomainStatus>;
    out, accepted, total, completed, broken := RcptPhase(rs, idx, script);
    if broken.Some? {
      PhaseIsFinal(rs, idx, script);
      return out, broken.value;
    }
    if accepted != [] && script.data.DataFailed? {
      PhaseIsFinal(rs, idx, script);
      return out, script.data.status;
    }
    out, completed := DataPhase(rs, idx, script, out, accepted, completed);
    DataIsFinal(rs, idx, script);
    assert out == RcptsAfter(rs, idx, script);
    SettledBound(out, idx, |rs|);
    status := if completed == total then Completed(()) else Scheduled;
  }

  /** The accepted recipients get the reply to the data: the common one, or each its own. */
  method DataPhase(rs: seq<Recipient>, idx: nat, script: Script, phase: seq<Recipient>, accepted: seq<nat>, done: nat)
    returns (out: seq<Recipient>, completed: nat)
    requires accepted == AcceptedRcpts(rs, idx, script, |rs|)
    requires |phase| == |rs| && (forall i | 0 <= i < |rs| :: phase[i] == AfterRcpt(rs, idx, script, i))
    requires done == Settled(phase, idx, |rs|)
    ensures |out| == |rs| && forall i | 0 <= i < |rs| :: out[i] == AfterData(rs, idx, script, i, |accepted|)
    ensures Mine(out, idx, |rs|) == Mine(phase, idx, |rs|) && Settled(out, idx, |rs|) == completed
  {
    hide Commands, AcceptedRcpts, Mine, Settled, AfterRcpt, DataAfter;
    out, completed := phase, done;
    for p := 0 to |accepted|
      invariant |out| == |rs|
      invariant forall i | 0 <= i < |rs| :: out[i] == AfterData(rs, idx, script, i, p)
      invariant Mine(out, idx, |rs|) == Mine(phase, idx, |rs|) && Settled(out, idx, |rs|) == completed
    {
      var i := accepted[p];
      AcceptedAt(rs, idx, script, p);
      forall i | 0 <= i < |rs| && Waits(rs[i], idx) && ReplyTo(script, Commands(rs, idx, i)).Accepted?
        ensures |AcceptedRcpts(rs, idx, script, i)| == p <==> i == accepted[p]
      {
        AcceptedUnique(rs, idx, script, |rs|, p, i);
      }
      var ok := ReplyTo(script, Commands(rs, idx, i)).ok;
      var r := DataAfter(out[i], ok, script.data, p);
      DataKeepsDomain(out[i], ok, script.data, p);
      SettledUpdate(out, idx, i, r, |rs|);
      completed := completed + if r.status.Terminal() then 1 else 0;
      out := out[i := r];
    }
  }

  lemma DataKeepsDomain(r: Recipient, ok: HostResponse<Text>, data: DataReply, p: nat)
    ensures DataAfter(r, ok, data, p).domainIdx == r.domainIdx
  {
  }

  /** What the RCPT commands alone leave of recipient `i`. */
  function AfterRcpt(rs: seq<Recipient>, idx: nat, script: Script, i: nat): Recipient
    requires i < |rs|
  {
    var r, k := rs[i], Commands(rs, idx, i);
    if Waits(r, idx) && Broken(script, k + 1).None? && ReplyTo(script, k).Rejected?
    then Updated(r, RejectedStatus(ReplyTo(script, k).permanent, ReplyTo(script, k).error)) else r
  }

  /** What is left of recipient `i` once the first `p` accepted recipients have their reply to the data. */
  function AfterData(rs: seq<Recipient>, idx: nat, script: Script, i: nat, p: nat): Recipient
    requires i < |rs|
  {
    var k := Commands(rs, idx, i);
    var q := |AcceptedRcpts(rs, idx, script, i)|;
    if Waits(rs[i], idx) && ReplyTo(script, k).Accepted? && q < p
    then DataAfter(rs[i], ReplyTo(script, k).ok, script.data, q)
    else AfterRcpt(rs, idx, script, i)
  }

  method RcptPhase(rs: seq<Recipient>, idx: nat, script: Script)
    returns (out: seq<Recipient>, accepted: seq<nat>, total: nat, completed: nat, broken: Option<DomainStatus>)
    ensures |out| == |rs| && forall i | 0 <= i < |rs| :: out[i] == AfterRcpt(rs, idx, script, i)
    ensures broken == Broken(script, Commands(rs, idx, |rs|))
    ensures broken.None? ==> accepted == AcceptedRcpts(rs, idx, script, |rs|)
    ensures broken.None? ==> total == Mine(out, idx, |rs|) && completed == Settled(out, idx, |rs|)
  {
    hide Commands, Broken, Mine, Settled, AcceptedRcpts;
    out, accepted, total, completed, broken := rs, [], 0, 0, None;
    NothingYet(rs, idx, script);
    for n := 0 to |rs|
      invariant |out| == |rs| && broken.None? && Broken(script, Commands(rs, idx, n)).None?
      invariant forall i | 0 <= i < |rs| :: out[i] == if i < n then AfterRcpt(rs, idx, script, i) else rs[i]
      invariant accepted == AcceptedRcpts(rs, idx, script, n)
      invariant total == Mine(out, idx, n) && completed == Settled(out, idx, n)
    {
      var r, k := out[n], Commands(rs, idx, n);
      PhaseStep(rs, idx, script, n);
      CountStep(out, idx, n);
      if r.domainIdx == idx {
        total := total + 1;
        if r.status.Terminal() {
          completed := completed + 1;
        } else {
          match ReplyTo(script, k)
          case Accepted(_) =>
            accepted := accepted + [n];
          case Rejected(permanent, error) =>
            var r' := Updated(r, RejectedStatus(permanent, error));
            SettledUpdate(out, idx, n, r', n + 1);
            out := out[n := r'];
            if permanent {
              completed := completed + 1;
            }
          case Aborted(status) =>
            AbortEnds(rs, idx, script, n);
            return out, accepted, total, completed, Some(status);
        }
      }
    }
  }

  lemma NothingYet(rs: seq<Recipient>, idx: nat, script: Script)
    ensures Commands(rs, idx, 0) == 0 && Broken(script, 0) == None && AcceptedRcpts(rs, idx, script, 0) == []
    ensures Mine(rs, idx, 0) == Settled(rs, idx, 0) == 0
  {
  }

  lemma PhaseStep(rs: seq<Recipient>, idx: nat, script: Script, n: nat)
    requires n < |rs|
    ensures
      var k := Commands(rs, idx, n);
      && Commands(rs, idx, n + 1) == k + (if Waits(rs[n], idx) then 1 else 0)
      && (Broken(script, k).None? ==>
            Broken(script, k + 1) == match ReplyTo(script, k) case Aborted(status) => Some(status) case _ => None)
      && AcceptedRcpts(rs, idx, script, n + 1)
         == AcceptedRcpts(rs, idx, script, n) + if Waits(rs[n], idx) && ReplyTo(script, k).Accepted? then [n] else []
  {
  }

  lemma AbortEnds(rs: seq<Recipient>, idx: nat, script: Script, n: nat)
    requires n < |rs| && Waits(rs[n], idx) && ReplyTo(script, Commands(rs, idx, n)).Aborted?
    requires Broken(script, Commands(rs, idx, n)).None?
    ensures Broken(script, Commands(rs, idx, |rs|)) == Some(ReplyTo(script, Commands(rs, idx, n)).status)
    ensures forall i | n <= i < |rs| :: AfterRcpt(rs, idx, script, i) == rs[i]
  {
    hide Commands, Broken;
    PhaseStep(rs, idx, script, n);
    CommandsMonotone(rs, idx, n + 1, |rs|);
    BrokenLater(script, Commands(rs, idx, n) + 1, Commands(rs, idx, |rs|));
    forall i | n <= i < |rs| ensures AfterRcpt(rs, idx, script, i) == rs[i] {
      if Waits(rs[i], idx) {
        PhaseStep(rs, idx, script, i);
        CommandsMonotone(rs, idx, n + 1, i + 1);
        BrokenLater(script, Commands(rs, idx, n) + 1, Commands(rs, idx, i) + 1);
      }
    }
  }

  lemma {:induction false} CommandsMonotone(rs: seq<Recipient>, idx: nat, m: nat, n: nat)
    requires m <= n <= |rs|
    ensures Commands(rs, idx, m) <= Commands(rs, idx, n)
  {
    if m < n {
      CommandsMonotone(rs, idx, m, n - 1);
    }
  }

  lemma {:induction false} BrokenLater(script: Script, j: nat, k: nat)
    requires j <= k && Broken(script, j).Some?
    ensures Broken(script, k) == Broken(script, j)
  {
    if j < k {
      BrokenLater(script, j, k - 1);
    }
  }

  predicate Accepts(rs: seq<Recipient>, idx: nat, script: Script, i: nat)
    requires i < |rs|
  {
    Waits(rs[i], idx) && ReplyTo(script, Commands(rs, idx, i)).Accepted?
  }

  /** Position and recipient of an accepted RCPT determine each other. */
  lemma {:induction false} AcceptedUnique(rs: seq<Recipient>, idx: nat, script: Script, n: nat, p: nat, i: nat)
    requires n <= |rs| && p < |AcceptedRcpts(rs, idx, script, n)| && i < n && Accepts(rs, idx, script, i)
    ensures |AcceptedRcpts(rs, idx, script, i)| == p <==> i == AcceptedRcpts(rs, idx, script, n)[p]
  {
    hide ReplyTo, Waits, Commands;
    var a := AcceptedRcpts(rs, idx, script, n - 1);
    if i < n - 1 {
      AcceptedGrows(rs, idx, script, i, n - 1);
      if p < |a| {
        AcceptedUnique(rs, idx, script, n - 1, p, i);
      }
    }
  }

  lemma {:induction false} AcceptedGrows(rs: seq<Recipient>, idx: nat, script: Script, i: nat, n: nat)
    requires i < n <= |rs| && Waits(rs[i], idx) && ReplyTo(script, Commands(rs, idx, i)).Accepted?
    ensures |AcceptedRcpts(rs, idx, script, i)| < |AcceptedRcpts(rs, idx, script, n)|
  {
    if i < n - 1 {
      AcceptedGrows(rs, idx, script, i, n - 1);
    }
  }

  lemma {:induction false} AcceptedWaits(rs: seq<Recipient>, idx: nat, script: Script, n: nat, p: nat)
    requires n <= |rs| && p < |AcceptedRcpts(rs, idx, script, n)|
    ensures
      var i := AcceptedRcpts(rs, idx, script, n)[p];
      Waits(rs[i], idx) && ReplyTo(script, Commands(rs, idx, i)).Accepted? && |AcceptedRcpts(rs, idx, script, i)| == p
  {
    if p < |AcceptedRcpts(rs, idx, script, n - 1)| {
      AcceptedWaits(rs, idx, script, n - 1, p);
    }
  }

  lemma AcceptedAt(rs: seq<Recipient>, idx: nat, script: Script, p: nat)
    requires p < |AcceptedRcpts(rs, idx, script, |rs|)|
    ensures
      var i := AcceptedRcpts(rs, idx, script, |rs|)[p];
      && Waits(rs[i], idx) && ReplyTo(script, Commands(rs, idx, i)).Accepted?
      && |AcceptedRcpts(rs, idx, script, i)| == p && AfterRcpt(rs, idx, script, i) == rs[i]
  {
    AcceptedWaits(rs, idx, script, |rs|, p);
  }

  lemma PhaseIsFinal(rs: seq<Recipient>, idx: nat, script: Script)
    requires script.early.None?
    requires Broken(script, Commands(rs, idx, |rs|)).Some? || script.data.DataFailed?
    ensures forall i | 0 <= i < |rs| :: RcptAfter(rs, idx, script, i) == AfterRcpt(rs, idx, script, i)
  {
  }

  lemma DataIsFinal(rs: seq<Recipient>, idx: nat, script: Script)
    requires script.early.None? && Broken(script, Commands(rs, idx, |rs|)).None?
    ensures forall i | 0 <= i < |rs| ::
              RcptAfter(rs, idx, script, i) == AfterData(rs, idx, script, i, |AcceptedRcpts(rs, idx, script, |rs|)|)
  {
    forall i | 0 <= i < |rs|
      ensures RcptAfter(rs, idx, script, i) == AfterData(rs, idx, script, i, |AcceptedRcpts(rs, idx, script, |rs|)|)
    {
      var k := Commands(rs, idx, i);
      if Waits(rs[i], idx) {
        CommandsMonotone(rs, idx, i + 1, |rs|);
        if Broken(script, k + 1).Some? {
          BrokenLater(script, k + 1, Commands(rs, idx, |rs|));
        }
        if ReplyTo(script, k).Accepted? {
          AcceptedGrows(rs, idx, script, i, |rs|);
        }
      }
    }
  }

  // ----- What a session promises -----

  /** Recipients that do not wait in this domain are left alone; the others change in status and dirty mark only. */
  lemma SessionTouchesOnlyWaiting(rs: seq<Recipient>, idx: nat, script: Script, i: nat)
    requires i < |rs|
    ensures
      var r, r' := rs[i], RcptsAfter(rs, idx, script)[i];
      && (!Waits(r, idx) ==> r' == r)
      && (r' == r || (r' == Updated(r, r'.status) && !r'.status.Scheduled?))
  {
  }

  /** A domain is completed only when every one of its recipients is settled. */
  lemma CompletedMeansSettled(rs: seq<Recipient>, idx: nat, script: Script)
    requires ValidScript(script)
    ensures DomainAfter(rs, idx, script).Completed? ==> AllSettled(RcptsAfter(rs, idx, script), idx)
  {
    hide RcptsAfter, AcceptedRcpts;
    var b := Broken(script, Commands(rs, idx, |rs|));
    if b.Some? {
      BrokenIsFailure(script, Commands(rs, idx, |rs|));
    }
  }

  lemma {:induction false} BrokenIsFailure(script: Script, k: nat)
    requires ValidScript(script) && Broken(script, k).Some?
    ensures Failure(Broken(script, k).value)
  {
    if Broken(script, k - 1).Some? {
      BrokenIsFailure(script, k - 1);
    }
  }

  /** The `p`-th accepted recipient gets the `p`-th LMTP reply. */
  lemma LmtpPairs(rs: seq<Recipient>, idx: nat, script: Script, p: nat)
    requires script.early.None? && Broken(script, Commands(rs, idx, |rs|)).None? && script.data.LmtpReplies?
    requires p < |AcceptedRcpts(rs, idx, script, |rs|)| && p < |script.data.replies|
    ensures
      var i := AcceptedRcpts(rs, idx, script, |rs|)[p];
      RcptsAfter(rs, idx, script)[i] == Updated(rs[i], LmtpStatus(script.data.replies[p]))
  {
    hide AcceptedRcpts, Commands, Broken;
    var i := AcceptedRcpts(rs, idx, script, |rs|)[p];
    AcceptedAt(rs, idx, script, p);
    PhaseStep(rs, idx, script, i);
    CommandsMonotone(rs, idx, i + 1, |rs|);
    if Broken(script, Commands(rs, idx, i) + 1).Some? {
      BrokenLater(script, Commands(rs, idx, i) + 1, Commands(rs, idx, |rs|));
    }
  }

  /** A recipient becomes delivered only by its own acceptance together with a good reply to the data. */
  lemma DeliveredOnlyWhenAccepted(rs: seq<Recipient>, idx: nat, script: Script, i: nat)
    requires i < |rs| && rs[i].status.Pending() && RcptsAfter(rs, idx, script)[i].status.Completed?
    ensures Waits(rs[i], idx) && ReplyTo(script, Commands(rs, idx, i)).Accepted?
    ensures script.data.SmtpDelivered?
         || (script.data.LmtpReplies? && var p := |AcceptedRcpts(rs, idx, script, i)|;
             p < |script.data.replies| && script.data.replies[p].Delivered?)
  {
  }
}
