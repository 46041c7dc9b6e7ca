/** What one transaction leaves behind, reply by reply. */
module SessionTheorems {
  import opened Prelude
  import opened QueueTypes
  import opened Session

  // ----- Replies -----

  /** The reply to the RCPT command of recipient `i`. */
  function Own(rs: seq<Recipient>, idx: nat, script: Script, i: nat): RcptReply
    requires i < |rs|
  {
    ReplyTo(script, Commands(rs, idx, i))
  }

  /** The recipients among the first `n` that get a command. */
  function WaitingBefore(rs: seq<Recipient>, idx: nat, n: nat): set<nat>
    requires n <= |rs|
  {
    set j: nat | j < n && Waits(rs[j], idx)
  }

  lemma WaitingStep(rs: seq<Recipient>, idx: nat, n: nat)
    requires n < |rs|
    ensures n !in WaitingBefore(rs, idx, n)
    ensures WaitingBefore(rs, idx, n + 1) == WaitingBefore(rs, idx, n) + if Waits(rs[n], idx) then {n} else {}
  {
    hide Waits;
  }

  /** Each waiting recipient gets one command, in their order. */
  lemma {:induction false} CommandsCount(rs: seq<Recipient>, idx: nat, n: nat)
    requires n <= |rs|
    ensures Commands(rs, idx, n) == |WaitingBefore(rs, idx, n)|
  {
    hide Waits, WaitingBefore;
    if n == 0 {
      assert WaitingBefore(rs, idx, 0) == {} by { NobodyBefore(rs, idx, Script(None, [], SmtpDelivered)); }
    } else {
      CommandsCount(rs, idx, n - 1);
      WaitingStep(rs, idx, n - 1);
    }
  }

  lemma NobodyBefore(rs: seq<Recipient>, idx: nat, script: Script)
    ensures WaitingBefore(rs, idx, 0) == {} && AcceptedBefore(rs, idx, script, 0) == {}
  {
  }

  predicate NoAbort(script: Script, k: nat) {
    forall j | 0 <= j < k :: !ReplyTo(script, j).Aborted?
  }

  /** The session breaks with the status of its first aborted command. */
  lemma {:induction false} BrokenIff(script: Script, k: nat)
    ensures Broken(script, k).None? <==> NoAbort(script, k)
    ensures forall j | 0 <= j < k && NoAbort(script, j) && ReplyTo(script, j).Aborted? :: Broken(script, k) == Some(ReplyTo(script, j).status)
  {
    if k > 0 {
      BrokenIff(script, k - 1);
    }
  }

  /** No early end, and no command of the session is aborted. */
  predicate Unbroken(rs: seq<Recipient>, idx: nat, script: Script) {
    script.early.None? && NoAbort(script, Commands(rs, idx, |rs|))
  }

  /** The recipient with a new status and the mark of a change. */
  function Marked(r: Recipient, status: RcptStatus): Recipient {
    r.(status := status, flags := r.flags.(statusChanged := true))
  }

  // ----- Recipients -----

  lemma OwnIsBeforeEnd(rs: seq<Recipient>, idx: nat, script: Script, i: nat)
    requires i < |rs| && Waits(rs[i], idx)
    ensures Commands(rs, idx, i) + 1 <= Commands(rs, idx, |rs|)
  {
    CommandsMonotone(rs, idx, i + 1, |rs|);
  }

  /** A waiting recipient that is refused before anything broke is a failure, for good or for now, whatever follows. */
  lemma RefusedIsMarked(rs: seq<Recipient>, idx: nat, script: Script, i: nat)
    requires i < |rs| && Waits(rs[i], idx) && script.early.None? && NoAbort(script, Commands(rs, idx, i)) && Own(rs, idx, script, i).Rejected?
    ensures
      var reply := Own(rs, idx, script, i);
      RcptsAfter(rs, idx, script)[i] == Marked(rs[i], if reply.permanent then PermanentFailure(reply.error) else TemporaryFailure(reply.error))
  {
    hide Commands, AcceptedRcpts, Broken;
    BrokenIff(script, Commands(rs, idx, i) + 1);
  }

  /** One reply to the data for all: a waiting recipient is delivered if and only if it was accepted, with the reply it got. */
  lemma DeliveredIff(rs: seq<Recipient>, idx: nat, script: Script, i: nat, ok: HostResponse<Text>)
    requires i < |rs| && Waits(rs[i], idx) && !script.data.LmtpReplies?
    ensures RcptsAfter(rs, idx, script)[i] == Marked(rs[i], Completed(ok)) <==>
            Unbroken(rs, idx, script) && script.data.SmtpDelivered? && Own(rs, idx, script, i) == Accepted(ok)
  {
    hide Commands, AcceptedRcpts, Broken;
    var k := Commands(rs, idx, i);
    OwnIsBeforeEnd(rs, idx, script, i);
    BrokenIff(script, k + 1);
    BrokenIff(script, Commands(rs, idx, |rs|));
  }

  /** And in such a session it is a failure, for good or for now, if and only if it was refused so. */
  lemma FailedIff(rs: seq<Recipient>, idx: nat, script: Script, i: nat, error: HostResponse<ErrorDetails>)
    requires i < |rs| && Waits(rs[i], idx) && Unbroken(rs, idx, script) && script.data.SmtpDelivered?
    ensures RcptsAfter(rs, idx, script)[i] == Marked(rs[i], PermanentFailure(error)) <==> Own(rs, idx, script, i) == Rejected(true, error)
    ensures RcptsAfter(rs, idx, script)[i] == Marked(rs[i], TemporaryFailure(error)) <==> Own(rs, idx, script, i) == Rejected(false, error)
  {
    hide Commands, AcceptedRcpts, Broken;
    OwnIsBeforeEnd(rs, idx, script, i);
    BrokenIff(script, Commands(rs, idx, i) + 1);
    BrokenIff(script, Commands(rs, idx, |rs|));
  }

  /** The recipients whose command was accepted come before `i` in this number. */
  function AcceptedBefore(rs: seq<Recipient>, idx: nat, script: Script, i: nat): set<nat>
    requires i <= |rs|
  {
    set j: nat | j < i && Accepts(rs, idx, script, j)
  }

  lemma {:induction false} AcceptedCount(rs: seq<Recipient>, idx: nat, script: Script, n: nat)
    requires n <= |rs|
    ensures |AcceptedRcpts(rs, idx, script, n)| == |AcceptedBefore(rs, idx, script, n)|
  {
    hide Accepts, AcceptedRcpts, AcceptedBefore;
    if n == 0 {
      NothingYet(rs, idx, script);
      NobodyBefore(rs, idx, script);
    } else {
      AcceptedCount(rs, idx, script, n - 1);
      AcceptedStep(rs, idx, script, n - 1);
      AcceptedBeforeStep(rs, idx, script, n - 1);
    }
  }

  lemma AcceptedBeforeStep(rs: seq<Recipient>, idx: nat, script: Script, n: nat)
    requires n < |rs|
    ensures n !in AcceptedBefore(rs, idx, script, n)
    ensures AcceptedBefore(rs, idx, script, n + 1) == AcceptedBefore(rs, idx, script, n) + if Accepts(rs, idx, script, n) then {n} else {}
  {
    hide Accepts;
  }

  lemma AcceptedStep(rs: seq<Recipient>, idx: nat, script: Script, n: nat)
    requires n < |rs|
    ensures AcceptedRcpts(rs, idx, script, n + 1) == AcceptedRcpts(rs, idx, script, n) + if Accepts(rs, idx, script, n) then [n] else []
  {
    PhaseStep(rs, idx, script, n);
  }

  /** One reply for each: an accepted recipient gets the one that its place among the accepted ones gives it. */
  lemma LmtpOutcome(rs: seq<Recipient>, idx: nat, script: Script, i: nat)
    requires i < |rs| && Waits(rs[i], idx) && script.data.LmtpReplies? && Unbroken(rs, idx, script) && Own(rs, idx, script, i).Accepted?
    ensures
      var p := |AcceptedBefore(rs, idx, script, i)|;
      RcptsAfter(rs, idx, script)[i] ==
        if p >= |script.data.replies| then rs[i]
        else match script.data.replies[p]
          case Delivered(ok) => Marked(rs[i], Completed(ok))
          case Refused(true, error) => Marked(rs[i], PermanentFailure(error))
          case Refused(false, error) => Marked(rs[i], TemporaryFailure(error))
  {
    hide Commands, AcceptedRcpts, Broken, AcceptedBefore;
    AcceptedCount(rs, idx, script, i);
    OwnIsBeforeEnd(rs, idx, script, i);
    BrokenIff(script, Commands(rs, idx, i) + 1);
    BrokenIff(script, Commands(rs, idx, |rs|));
  }

  /** Who is left alone: everyone who does not wait here, and everyone whose own reply or the data never came. */
  lemma UntouchedIf(rs: seq<Recipient>, idx: nat, script: Script, i: nat)
    requires i < |rs|
    requires || !Waits(rs[i], idx) || script.early.Some? || !NoAbort(script, Commands(rs, idx, i) + 1)
             || (Own(rs, idx, script, i).Accepted? && (!Unbroken(rs, idx, script) || script.data.DataFailed?))
    ensures RcptsAfter(rs, idx, script)[i] == rs[i]
  {
    hide Commands, AcceptedRcpts, Broken;
    BrokenIff(script, Commands(rs, idx, i) + 1);
    BrokenIff(script, Commands(rs, idx, |rs|));
  }

  // ----- The domain -----

  predicate SomeAccepted(rs: seq<Recipient>, idx: nat, script: Script) {
    exists i | 0 <= i < |rs| :: Waits(rs[i], idx) && Own(rs, idx, script, i).Accepted?
  }

  lemma SomeAcceptedIff(rs: seq<Recipient>, idx: nat, script: Script)
    ensures AcceptedRcpts(rs, idx, script, |rs|) != [] <==> SomeAccepted(rs, idx, script)
  {
    hide Commands;
    AcceptedCount(rs, idx, script, |rs|);
    var a := AcceptedBefore(rs, idx, script, |rs|);
    if i :| 0 <= i < |rs| && Waits(rs[i], idx) && Own(rs, idx, script, i).Accepted? {
      assert i in a;
    }
    if a != {} {
      var i :| i in a;
    }
  }

  /** With one good reply to the data, the domain is done if and only if nobody waiting is refused for now. */
  lemma CompletedIff(rs: seq<Recipient>, idx: nat, script: Script)
    requires Unbroken(rs, idx, script) && script.data.SmtpDelivered?
    ensures DomainAfter(rs, idx, script) ==
            if forall i | 0 <= i < |rs| && Waits(rs[i], idx) :: var reply := Own(rs, idx, script, i); reply.Rejected? ==> reply.permanent
            then Completed(()) else Scheduled
  {
    hide Commands, AcceptedRcpts, Broken, RcptAfter;
    BrokenIff(script, Commands(rs, idx, |rs|));
    var out := RcptsAfter(rs, idx, script);
    forall i | 0 <= i < |rs| ensures out[i].domainIdx == rs[i].domainIdx
      && (rs[i].domainIdx == idx ==>
            (out[i].status.Terminal() <==> !Waits(rs[i], idx) || !(Own(rs, idx, script, i).Rejected? && !Own(rs, idx, script, i).permanent)))
    {
      SmtpStatus(rs, idx, script, i);
    }
  }

  lemma SmtpStatus(rs: seq<Recipient>, idx: nat, script: Script, i: nat)
    requires i < |rs| && Unbroken(rs, idx, script) && script.data.SmtpDelivered?
    ensures
      && |RcptsAfter(rs, idx, script)| == |rs|
      && var r' := RcptsAfter(rs, idx, script)[i];
         && r'.domainIdx == rs[i].domainIdx
         && (!Waits(rs[i], idx) ==> r' == rs[i])
         && (Waits(rs[i], idx) ==>
               !Own(rs, idx, script, i).Aborted? && (r'.status.Terminal() <==> !(Own(rs, idx, script, i).Rejected? && !Own(rs, idx, script, i).permanent)))
  {
    hide Commands, AcceptedRcpts, Broken;
    if Waits(rs[i], idx) {
      OwnIsBeforeEnd(rs, idx, script, i);
      BrokenIff(script, Commands(rs, idx, i) + 1);
      BrokenIff(script, Commands(rs, idx, |rs|));
    }
  }

  /** A session that ends early, breaks, or loses its data leaves that failure as the status of the domain. */
  lemma FailedSession(rs: seq<Recipient>, idx: nat, script: Script, k: nat)
    ensures script.early.Some? ==> DomainAfter(rs, idx, script) == script.early.value
    ensures script.early.None? && k < Commands(rs, idx, |rs|) && NoAbort(script, k) && ReplyTo(script, k).Aborted? ==>
              DomainAfter(rs, idx, script) == ReplyTo(script, k).status
    ensures Unbroken(rs, idx, script) && SomeAccepted(rs, idx, script) && script.data.DataFailed? ==>
              DomainAfter(rs, idx, script) == script.data.status
  {
    hide Commands, AcceptedRcpts, Broken;
    BrokenIff(script, Commands(rs, idx, |rs|));
    SomeAcceptedIff(rs, idx, script);
  }
}
