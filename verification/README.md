# The mail queue, its rules and its lookups, verified

This project models the state-carrying core of the SMTP server in Dafny and proves, for every input and every run,
what that core keeps:

- **Routing rules.** `parse_condition` compiles a tree of nested `all-of` / `any-of` / `none-of` groups into a flat
  program of tests and forward jumps; `Conditions::eval` runs it (`Rules`, `RuleProofs`, `RuleCompiler`,
  `RuleExactness`).
- **The spool file.** A queued message is written once in full and afterwards only its dirty entries are appended; a
  restarted server reads header and records back (`QueueTypes`, `Codec`, `StatusCodec`, `HeaderCodec`, `SpoolClock`,
  `Journal`, `JournalProofs`, `JournalTheorems`, `Spool`).
- **The life of a message.** Visits, expiry, delivery attempts, SMTP and LMTP sessions, delivery status notifications,
  retries and operator requests (`Session`, `SessionTheorems`, `Lifecycle`, `Attempt`, `AttemptTheorems`, `MessageLife`,
  `MessageProofs`, `NoticeProofs`, `RetryProofs`, `MessageTheorems`, `NoticeTheorems`, `DelayTheorems`,
  `MessageExamples`), and what the file has seen of that life
  (`SaveProofs`, `BounceProofs`, `SeenFile`, `CrashSafety`, `FileExamples`).
- **The queue manager.** Heap, on-hold list and message map, the loops over the two, and together with workers and the
  event channel one transition system (`QueueManager`, `DuePasses`, `HoldPasses`, `OperatorRequests`, `QueueSystem`,
  `QueueRounds`, `QueueExamples`).
- **The lookup dispatcher.** Cache, queue, worker slots and channel as one transition system (`LookupCaches`,
  `Dispatcher`, `LookupSystem`, `LookupProofs`, `LookupTheorems`, `CacheTheorems`).
- **Quotas and throttles.** Atomic counters under interleaving, all-or-nothing reservation, token buckets and the
  periodic cleanup (`QuotaCounters`, `Quota`, `QuotaBooks`, `QuotaTables`, `QuotaTheorems`, `Throttle`,
  `ThrottleTheorems`).
- **New messages.** How addresses are grouped under domains (`Grouping`).

Objects and loops of the server are classes and methods here, each proved equal to a specification function; what the
server is meant to guarantee is proved about those functions as lemmas, most of them over whole runs. A run is a
sequence of steps, and `Reaches` / `Reached` say which state it leads to. I/O, clocks, DNS, TLS and remote hosts enter
as parameters of the steps, unrestricted except where stated.

Where the code does not do what it is meant to do, the model follows the code. Each such case has a lemma with a
concrete input and a lemma with the condition under which the promise holds:

- A nested group that is not the last child of its group is evaluated and then forgotten
  (`CompiledRightIffNestedLast`; `DroppedGroupExample`).
- A string longer than 4096 bytes is written to the spool but not read back (`RoundTripIffFits`; `LongTextIsLost`).
- With a concurrency of zero the lookup dispatcher accepts lookups and never answers them (`DrainsIffSomeWorker`;
  `StuckRun`).
- A temporary failure inside a domain that fails for good is never reported as final (`LastReport`;
  `UnreportedFailure`).
- A notify time that was put behind the expiry, so as never to come, comes after all when an operator moves the expiry
  or an attempt outlasts it; each such step costs one delay notice too many (`DelayNoticesCounted`;
  `RetriesBreakDelayBound`, `OverrunBreaksDelayBound`).
- Some changes of a message do not carry the dirty mark that makes them reach the file: the failure at expiry of a
  recipient that wants no reports, an expiry time moved by an operator, and what is noted about a message without a
  sender (`InStepIffRecorded`; `SilentFailureIsLost`, `RetryIsLost`, `BounceIsLost`).
- A quota with both limits counts a message before it refuses it for its size, and never uncounts it
  (`MessagesExactIff`, `RefusalUnnoticedIff`; `RefusalsFillQuota`).
- A refused request refills the token bucket again for time already credited (`EarlyIff`; `EarlyGrant`).
- With a delivery-by time, the hold of a future release does not count towards the expiry (`DueBeforeExpiryIff`;
  `HeldPastExpiry`).
- The manager's two loops end at an entry whose message is gone, as if nothing more could go on; what comes after it is
  left behind (`DuePasses.OutIffClear`, `HoldPasses.OutIffClear`). In the heap the next pass goes on from there
  (`RetryComesUp`); on hold the rest waits until another message arrives or a worker ends (`LeftOnHold`).
- A message that is visited with nothing to deliver is queued for its next retry, even when a notice or an expiry comes
  first (`RetryIsNextEventIff`; `LateNotice`).
- A cache lookup that meets an expired negative entry removes the item from the positive side and leaves the entry;
  later lookups cannot tell (`StaleNegativeIsHarmless`).

`none-of` is "not all of" in the parser's jump polarities, not "none of"; the model follows the parser.

Nothing was executed; all statements are checked by the Dafny verifier alone, with
`dafny verify --resource-limit 2000000 --verification-time-limit 0 dfyconfig.toml`.

## Model

| member | source | states |
|---|---|---|
| `RuleCompiler.Compile` | src/config/condition.rs:36-263 | the work-list loop with its explicit stack of open groups emits exactly the code that the recursive definition gives the tree, or reports the first malformed entry in reading order |
| `RuleCompiler.Visit` | src/config/condition.rs:79-233 | one entry keeps the invariant that closing all open groups would yield the code of the whole tree, and lowers the work left |
| `RuleCompiler.CloseGroups` | src/config/condition.rs:236-259 | closing exhausted groups keeps the same invariant and stops at a group with entries left or at the root |
| `RuleCompiler.PatchJumps` | src/config/condition.rs:236-259 | all placeholder jumps of a closing group, and no other instruction, are directed at the current end of the program |
| `RuleCompiler.EnterGroup` | src/config/condition.rs:79-108 | setting the current group aside for a nested one does not change what closing everything will produce |
| `RuleCompiler.EmitLeaf` | src/config/condition.rs:217-233 | emitting a test with its placeholder jump does not change what closing everything will produce |
| `RuleCompiler.Eval` | src/core/if_block.rs:45-118 | the iterator loop with its skipping is true exactly if the abstract machine ends in true; an unanswered lookup makes it false |
| `RuleCompiler.Advance` | src/core/if_block.rs:98-113 | calling `next` n times skips n instructions but never leaves the program |
| `RuleCompiler.EvalIfBlock` | src/core/if_block.rs:32-42 | the value of the first branch whose rule is true, the default if none is |
| `RuleProofs.RunCode` | src/config/condition.rs:217-259 | the compiled tree followed by any continuation runs as the tree semantics says and then continues, for every tree, polarity and envelope: jumps never land in the wrong place |
| `RuleProofs.RunGroupCode` | src/config/condition.rs:217-259 | the same for the children of a group together with the jumps that leave it |
| `RuleProofs.RunWhole` | src/core/if_block.rs:45-118 | a whole program starting unmatched computes the tree semantics, also where a lookup has no answer |
| `RuleProofs.CompiledMeaning` | src/config/condition.rs:36-263 | if nested groups come last, running the compiled rule is its short-circuit value in every envelope |
| `RuleProofs.CompiledExactMeaning` | src/config/condition.rs:36-263 | for every tree, the compiled rule computes the value of the tree without the groups that are followed by a sibling |
| `RuleProofs.ValueHolds` | src/config/condition.rs:79-108 | the short-circuit value is the ordinary and/or/not reading of the tree |
| `RuleProofs.CodeJumpsInside` | src/config/condition.rs:217-259 | every jump distance stays within the program or its end |
| `RuleExactness.CompiledRightIffNestedLast` | src/config/condition.rs:36-263 | a rule with distinct tests is compiled correctly for all envelopes if and only if every nested group is a last child |
| `RuleExactness.Distinguish` | src/config/condition.rs:217-233 | for every rule with a group before a sibling there is an envelope on which code and rule disagree |
| `RuleExactness.Settable` | src/config/condition.rs:79-108 | every rule with distinct tests can be made true and made false, jointly with its pruned form |
| `RuleExactness.DroppedGroupExample` | src/config/condition.rs:217-259 | `any-of [any-of [a], b]` is false where only `a` matches |
| `Codec.NatRoundTrip` | src/queue/serialize.rs:337-358 | a printed number is read back, with the bytes after it untouched |
| `Codec.I16RoundTrip` | src/queue/serialize.rs:360-385 | every 16-bit priority is read back, -32768 included |
| `Codec.TextRoundTrip` | src/queue/serialize.rs:417-435 | a UTF-8 string is read back if and only if it is at most 4096 bytes long, whatever spaces or digits it contains |
| `Codec.TextCut` | src/queue/serialize.rs:425-435 | a string cut off inside is refused or read as a proper prefix |
| `Codec.ResponseRoundTrip` | src/queue/serialize.rs:309-335 | a remote host's reply is read back if and only if its text fits |
| `StatusCodec.ErrorRoundTrip` | src/queue/serialize.rs:480-535 | each of the domain errors is read back if and only if its strings fit |
| `StatusCodec.DomainStatusRoundTrip` | src/queue/serialize.rs:279-307 | each domain status is read back if and only if its error fits |
| `StatusCodec.RcptStatusRoundTrip` | src/queue/serialize.rs:279-307 | each recipient status is read back if and only if its reply fits |
| `StatusCodec.RecordRoundTrip` | src/queue/serialize.rs:543-564 | a status record is read back, with what follows untouched, if and only if it fits |
| `StatusCodec.RecordCut` | src/queue/serialize.rs:239-273 | a record cut anywhere inside is refused or read with only its last string shortened |
| `HeaderCodec.HeaderRoundTrip` | src/queue/serialize.rs:45-88 | the header is read back exactly if every string in it fits, and refused otherwise |
| `QueueTypes.FlagWordRoundTrip` | src/queue/serialize.rs:559-564 | a recipient's flags survive the 64-bit word they are written as, all other bits included |
| `SpoolClock.RecoveredNear` | src/queue/mod.rs:440-463 | a time written through the wall clock and read under any later clock comes back within the truncation to seconds, never before the time of reading |
| `SpoolClock.RecoveredExactly` | src/queue/mod.rs:440-463 | in whole seconds it is exactly the later of the time written and the time of reading |
| `JournalProofs.ReplayPrinted` | src/queue/serialize.rs:239-273 | the record loop applies the printed records in order up to the first that does not fit |
| `JournalProofs.ReplayCut` | src/queue/serialize.rs:239-273 | cut at any byte, it applies the complete records and at most the cut one |
| `JournalTheorems.JournalRestores` | src/queue/serialize.rs:177-277 | reading the first full write and any sequence of appended batches gives the live message back: same names, statuses, flags and counters, times as `RecoveredNear` says |
| `JournalTheorems.JournalRestoresExactly` | src/queue/serialize.rs:177-277 | in whole seconds it gives exactly the live message, past times moved to the time of reading |
| `JournalTheorems.JournalIsFreshFile` | src/queue/serialize.rs:90-109 | the appended log and a fresh full write of the live message read the same |
| `JournalTheorems.ClearedIsClean` | src/queue/serialize.rs:90-109 | after a save nothing is dirty, so that another save appends nothing |
| `JournalTheorems.RoundTripIffFits` | src/queue/serialize.rs:177-277 | a message written in full is read back if and only if all its strings fit |
| `JournalTheorems.CutFileStillReads` | src/queue/serialize.rs:177-277 | wherever the file is cut behind the header, a message is read: the complete records applied, perhaps the cut one too |
| `Spool.ReadNat` | src/queue/serialize.rs:342-358 | the digit loop with its wrapping accumulator is the recursive parser |
| `Spool.ReadI16` | src/queue/serialize.rs:365-385 | the digit loop with its sign is the recursive parser |
| `Spool.ReadText` | src/queue/serialize.rs:426-435 | the length-prefixed reader is the recursive parser |
| `Spool.ReadProps` | src/queue/serialize.rs:177-201 | the numbers and strings in front of the header, read one after another, are what the recursive parser reads |
| `Spool.ReadDomains` | src/queue/serialize.rs:203-215 | the loop over the counted domains is the recursive parser |
| `Spool.ReadRcpts` | src/queue/serialize.rs:217-237 | the loop over the counted recipients is the recursive parser |
| `Spool.ReplayRecords` | src/queue/serialize.rs:239-273 | the loop over the status records is the recursive replay that the journal theorems speak of |
| `Spool.ReadMessage` | src/queue/serialize.rs:177-277 | header, counts and records together are the reader that the journal theorems speak of |
| `Spool.QueuedMessage.WriteFull` | src/queue/serialize.rs:45-88 | the full write is the writer that the journal theorems speak of |
| `Spool.QueuedMessage.WriteChanges` | src/queue/serialize.rs:90-109 | the bytes of the dirty entries, and every mark cleared |
| `Session.Deliver` | src/outbound/session.rs:131-352 | the two-phase loop with its running counters gives each recipient and the domain the status of a closed form over replies |
| `Session.RcptPhase` | src/outbound/session.rs:131-199 | after the RCPT commands: each recipient by its own reply, the accepted ones in order, the counts of a domain's and of settled recipients |
| `Session.DataPhase` | src/outbound/session.rs:222-343 | after the data: the common reply, or one LMTP reply each, and the count of settled recipients |
| `Session.SessionTouchesOnlyWaiting` | src/outbound/session.rs:131-352 | recipients of other domains or already settled are not touched |
| `Session.CompletedMeansSettled` | src/outbound/session.rs:131-352 | a domain is completed only if all its recipients are settled |
| `Session.LmtpPairs` | src/outbound/session.rs:274-342 | the p-th accepted recipient gets the p-th LMTP reply, as section 4.2 of RFC 2033 asks |
| `Session.DeliveredOnlyWhenAccepted` | src/outbound/session.rs:131-352 | a recipient becomes delivered only by its own accepted RCPT and a good reply to the data |
| `SessionTheorems.DeliveredIff` | src/outbound/session.rs:136-262 | with one reply to the data for all, a waiting recipient ends as completed with a reply, marked, if and only if the session neither ended early nor broke, the data was taken, and that reply accepted its own RCPT |
| `SessionTheorems.FailedIff` | src/outbound/session.rs:136-200 | in such a session it ends as a failure, for good or for now, if and only if its own RCPT was refused so |
| `SessionTheorems.RefusedIsMarked` | src/outbound/session.rs:136-200 | a refusal before anything broke is kept, whatever follows |
| `SessionTheorems.LmtpOutcome` | src/outbound/session.rs:272-345 | with one reply for each, an accepted recipient gets the one at its place among the accepted, and stays as it was if there is none |
| `SessionTheorems.UntouchedIf` | src/outbound/session.rs:59-262 | whoever does not wait here, and whoever misses its own reply or the data, is left alone |
| `SessionTheorems.CompletedIff` | src/outbound/session.rs:345-352 | with the data taken for all, the domain is completed if and only if no waiting recipient was refused for now, and otherwise scheduled again |
| `SessionTheorems.FailedSession` | src/outbound/session.rs:59-262 | an early end, the first break and lost data are the status of the domain |
| `SessionTheorems.CommandsCount` | src/outbound/session.rs:136-145 | the waiting recipients get one RCPT command each, in their order |
| `SessionTheorems.BrokenIff` | src/outbound/session.rs:136-200 | a session breaks with the status of its first aborted command |
| `Attempt.DeliveryAttempt.HasPendingDelivery` | src/outbound/delivery.rs:934-990 | all expired domains fail with their unsettled recipients, and the answer says if a domain is left |
| `Attempt.DeliveryAttempt.BuildDsn` | src/queue/dsn.rs:74-250 | the loop's notices, marks and next notify times are those of the specification |
| `Attempt.DeliveryAttempt.HandleDoubleBounce` | src/queue/dsn.rs:348-380 | failures of a message without a sender are noted, and no delay notice is due before expiry |
| `Attempt.DeliveryAttempt.SendNotices` | src/queue/dsn.rs:46-72 | reports for a message with a sender, double bounce handling without |
| `Attempt.DeliveryAttempt.Work` | src/outbound/delivery.rs:121-862 | the loop over the domains takes the due ones in order; each by its throttle, its failed connections or its session |
| `AttemptTheorems.ExpiredDomainIs` | src/outbound/delivery.rs:934-990 | exactly the pending domains past their expiry fail for good, with their temporary failure or for never having been tried |
| `AttemptTheorems.ExpiredRcptIs` | src/outbound/delivery.rs:934-990 | and exactly the temporary failures among their recipients with them |
| `AttemptTheorems.TurnsLeaveDomain` | src/outbound/delivery.rs:121-862 | what the turns of an attempt leave of each domain: status, count and time of the next attempt, after the interval of this one, or the time of a throttle |
| `AttemptTheorems.TurnsLeaveRcpt` | src/outbound/delivery.rs:121-862 | a recipient changes only in the session of its own domain and as that session alone has it |
| `AttemptTheorems.TriesRecorded` | src/outbound/delivery.rs:121-135 | exactly the domains that come up and are not held back count as tried |
| `MessageTheorems.SettledForever` | src/outbound/delivery.rs:56-990 | over any run settled recipients and domains stay settled, and completed domains have settled recipients only |
| `MessageTheorems.SettledGetsNoRcpt` | src/outbound/session.rs:136-144 | over any run, and within any later attempt up to any of its turns, a settled recipient does not wait for any domain's session and adds no RCPT command to it |
| `MessageTheorems.LastReport` | src/queue/dsn.rs:74-158 | when all domains are settled, the report leaves unreported exactly the temporary failures, all in failed domains |
| `MessageTheorems.FinishedIsReported` | src/outbound/delivery.rs:56-924 | a message leaves the queue only with all domains settled and every recipient reported, silent, or such a temporary failure |
| `MessageTheorems.StaysIffPending` | src/outbound/delivery.rs:56-79 | a step leaves a message in the queue if and only if a domain is pending afterwards |
| `MessageTheorems.OneFinalNotice` | src/queue/dsn.rs:74-158 | over any run at most one final notice per recipient, and none at all without a sender |
| `NoticeTheorems.ReportIff` | src/queue/dsn.rs:73-158 | a report has a failure, success or delay notice about a recipient if and only if it was not reported yet, wants that kind and is in that state; in the order of the recipients, at most one each |
| `NoticeTheorems.ReportMarks` | src/queue/dsn.rs:73-158 | exactly the recipients with a final outcome are marked as reported, with or without a notice |
| `NoticeTheorems.ReportMoves` | src/queue/dsn.rs:224-256 | a delay notice moves the notify times that have come to the next interval or behind the expiry |
| `NoticeTheorems.FailureToldOnce` | src/queue/dsn.rs:73-158 | over any run with a sender, a recipient marked as reported and not delivered has failed and has exactly one failure notice if it wants them; one not marked has no final notice |
| `NoticeTheorems.SuccessToldOnce` | src/queue/dsn.rs:73-158 | the same of success notices, unless an operator cancelled the delivery |
| `NoticeTheorems.FailuresAreTold` | src/outbound/delivery.rs:56-79 | when a message leaves the queue on its own, every failure its sender wants to hear of was told exactly once |
| `DelayTheorems.DelayNoticesBounded` | src/queue/dsn.rs:224-250 | at most one delay notice per notify interval in every run in which no step lets the notify time be overtaken: no request moves the expiry from before it to behind it, and no attempt that started before the expiry lasts until it |
| `DelayTheorems.DelayNoticesCounted` | src/queue/dsn.rs:74-250 | over every run at all, the delay notices of a recipient are at most the notify intervals of its domain plus the number of steps that break this guard |
| `DelayTheorems.ReportLeft` | src/queue/dsn.rs:224-250 | one report: a notice uses up an interval or puts the notify time behind the expiry, and costs one breach exactly if that time was overtaken |
| `MessageTheorems.AttemptsFollowSchedule` | src/outbound/delivery.rs:992-1007 | attempt k begins no earlier than the first plus the k intervals between, each taken from the list that the rules gave the attempt before it, in a visit started before the expiry |
| `MessageTheorems.AttemptsBounded` | src/outbound/delivery.rs:992-1007 | the number of attempts is bounded by the lifetime over the smallest interval of the lists used |
| `MessageExamples.RetriesBreakDelayBound` | src/queue/manager.rs:246-287 | for any notify intervals, a run with two operator requests that gives one delay notice too many |
| `MessageExamples.OverrunBreaksDelayBound` | src/outbound/delivery.rs:862-870 | for any notify intervals, a run without operator requests whose last attempt outlasts the expiry and gives one delay notice too many |
| `MessageExamples.UnreportedFailure` | src/queue/dsn.rs:97-104 | a run in which the only recipient is refused for now, the domain then turns out to have a null MX, and the message is finished without a final notice |
| `SaveProofs.VisitIsTracked` | src/outbound/delivery.rs:56-80 | a visit marks everything it changes, so that it reaches the file, if and only if no silent recipient's temporary failure expires in it |
| `SaveProofs.AttemptIsTracked` | src/outbound/delivery.rs:862-924 | the same of a whole delivery attempt, whatever its sessions do |
| `SaveProofs.CancelIsTracked` | src/queue/manager.rs:164-245 | cancelling marks everything it changes |
| `SaveProofs.AskRetryIsTracked` | src/queue/manager.rs:246-287 | an operator's retry reaches the file if and only if it moves no expiry time |
| `SaveProofs.ExpireIsTracked` | src/outbound/delivery.rs:934-990 | expiry marks what it changes if and only if no temporary failure expires with it |
| `SaveProofs.BounceIsTracked` | src/queue/dsn.rs:348-380 | double bounce handling keeps the file in step if and only if what it notes was marked already |
| `BounceProofs.BounceVisitIsTracked` | src/queue/dsn.rs:348-380 | a visit of a message without a sender marks everything it changes if and only if no recipient fails or is noted in it and every notify time that it moves is in a domain that expires |
| `BounceProofs.BounceAttemptIsTracked` | src/outbound/delivery.rs:862-924 | a delivery attempt on a message without a sender does so if and only if its opening changes no recipient, no turn fails one without touching it, and every notify time that moves is in a domain that expires or takes its turn |
| `BounceProofs.WorkedRcpt` | src/outbound/delivery.rs:121-862 | a recipient changes in the turn of its own domain only, by the session that the recipients before the attempt determine |
| `SeenFile.FileShowsSeen` | src/queue/serialize.rs:90-109 | for any saves at all, within the limits of the format, the file reads back as the first message with exactly the marked changes applied |
| `SeenFile.InStepIff` | src/queue/serialize.rs:90-109 | a save leaves what the file has seen equal to the message in memory if and only if every change carried its mark |
| `CrashSafety.StepIsTracked` | src/outbound/delivery.rs:56-924 | a step of any kind, of a message with or without a sender, marks everything it changes if and only if the condition of its kind holds |
| `CrashSafety.InStepIffRecorded` | src/queue/spool.rs:240-258 | over any life, what the file has seen equals the message in memory after every step if and only if every step meets its condition |
| `CrashSafety.FileFollowsLife` | src/queue/spool.rs:240-258 | over any life of such steps, stopping after any save and reading the file gives the message as it was in memory |
| `FileExamples.LongTextIsLost` | src/queue/serialize.rs:426-435 | a message from an address of 4097 bytes is written and never read back |
| `FileExamples.LongestTextIsKept` | src/queue/serialize.rs:426-435 | one from an address of 4096 bytes is read back |
| `FileExamples.SilentFailureIsLost` | src/outbound/delivery.rs:934-990 | a life in which a recipient that wants no reports has failed for good in memory and for now in the file |
| `FileExamples.RetryIsLost` | src/queue/manager.rs:246-287 | an operator request after which the message expires at second 60 in memory and after second 98 in the file |
| `FileExamples.BounceIsLost` | src/queue/dsn.rs:348-380 | a visit of a bounce after which the next notice is due at second 110 in memory and before second 6 in the file |
| `OperatorRequests.CancelMatching` | src/queue/manager.rs:164-245 | the loops mark every matching recipient as completed, settled before or not, and a pending domain once all its recipients are settled |
| `OperatorRequests.CountSettled` | src/queue/manager.rs:164-245 | comparing two counters decides whether all recipients of a domain are settled |
| `OperatorRequests.RetryMatching` | src/queue/manager.rs:246-287 | exactly the pending matching domains are made due; if any was found, a domain is still pending |
| `DuePasses.DeliverDue` | src/queue/manager.rs:59-64 | the loop over the heap brings out and takes away what a pass that stops at the first missing message does, and puts each message where its try says |
| `DuePasses.OutIffClear` | src/queue/manager.rs:59-64 | a due message comes out of every pass over a store if and only if, up to some entry of its own, all other entries have their message and no two are of one message |
| `DuePasses.LeavesBehind` | src/queue/manager.rs:59-64 | an entry without a message, or a second one of a message, before all entries of another message gives a pass that leaves that one behind |
| `DuePasses.OutOrLeft` | src/queue/manager.rs:59-64 | in any pass a due message comes out as it was, or it stays as it was with a due entry and the pass ended at an entry without a message |
| `HoldPasses.DeliverHeld` | src/queue/manager.rs:70-74 | the loop over the messages on hold, likewise, with limiters filled by its own tries |
| `HoldPasses.OutIffClear` | src/queue/manager.rs:86-90 | while no limiter fills, a message that can go on comes out of the pass if and only if, of the entries that can go on, those before one of its own have their message and no two are of one message |
| `HoldPasses.LeavesBehind` | src/queue/manager.rs:86-90 | an earlier entry that can go on, without a message or a second one of a message, gives a pass that leaves a message behind |
| `HoldPasses.OutOrLeft` | src/queue/manager.rs:86-90 | whatever the tries fill, a message on hold comes out as it was, or it stays with its entry, and then it can no longer go on or the pass ended at an entry without a message |
| `QueueManager.Queue.NextDue` | src/queue/manager.rs:317-326 | takes the earliest entry if it is due, and with it the message, if still there; everything else stays |
| `QueueManager.Queue.NextOnHold` | src/queue/manager.rs:328-339 | takes the first entry on hold that may go on, and with it the message, if still there; everything else stays |
| `QueueManager.ReleasableIff` | src/queue/manager.rs:330-338 | an entry on hold may go on if and only if one of its limiters has room or its time has come |
| `QueueManager.NextEvent` | src/queue/manager.rs:354-381 | the least of all retry, notify and expiry times of pending domains; none if and only if no domain is pending |
| `QueueManager.NextDeliveryEvent` | src/queue/manager.rs:383-398 | the least retry time of a pending domain, else now |
| `QueueManager.RetryIsNextEventIff` | src/outbound/delivery.rs:65-74 | the retry for which a message is queued again is its next event if and only if no notice or expiry of a pending domain comes before it |
| `QueueManager.NextEventAfter` | src/queue/manager.rs:400-432 | the least such time that is later than the given one |
| `QueueManager.KeepsOthers` | src/queue/manager.rs:273-275 | an operator's retry takes exactly the entries of its message off hold and keeps the others in order |
| `QueueSystem.EveryMessageHasOnePlace` | src/queue/manager.rs:54-287 | over any run each live message is in exactly one of map, worker and channel, and no other message is anywhere |
| `QueueSystem.EveryMessageComesUp` | src/queue/manager.rs:54-287 | over any run a message in the map is as its life has it and has an entry: in the heap, no later than any retry of a pending domain or no later than the time that a sender throttle gave, or on hold, due by every time still to come |
| `QueueRounds.TakeDueIsCall` | src/queue/manager.rs:59-64 | the move that takes a due entry is a call of the loop over the heap, or the one that ends it |
| `QueueRounds.TakeHeldIsCall` | src/queue/manager.rs:70-74 | the move that takes an entry on hold is a call of the loop over the list, or the one that ends it |
| `QueueRounds.RetryComesUp` | src/queue/manager.rs:57-64 | from any reached state, a message that is not on hold, with a retry due and a sender throttle past, is tried as it was in any run of moves on the heap that ends with nothing due |
| `QueueRounds.RoundsEnd` | src/queue/manager.rs:57-64 | at one time, any run of moves on the heap takes away as many due entries as it has moves, so that it ends |
| `QueueExamples.LeftOnHold` | src/queue/manager.rs:328-339 | a run after which the pass over the messages on hold ends at the entry of a cancelled one and leaves a live one that can go on, with no entry in the heap, no worker and no event to bring it up |
| `QueueExamples.LateNotice` | src/outbound/delivery.rs:63-74 | a run after which the only entry of a message is ten seconds after its next notice is due |
| `QueueSystem.EveryLifeIsARun` | src/queue/manager.rs:54-287 | over any run of the whole queue each message is in a state its own life can reach, so that all results above hold of it |
| `QueueSystem.FoundStaysPending` | src/queue/manager.rs:246-287 | an operator's retry that found a domain leaves one pending, so that the message has a next event for its new entry |
| `QueueSystem.MoveKeeps` | src/queue/manager.rs:54-287 | each move of the manager, a worker or an operator, with the times that `next_event`, `next_delivery_event` and `next_event_after` give, keeps the invariant behind these results |
| `LookupCaches.LookupCache.Get` | src/lookup/cache.rs:49-71 | an unexpired positive answer, else an unexpired negative one; an expired positive entry is dropped, an expired negative one stays |
| `LookupCaches.StaleNegativeIsHarmless` | src/lookup/cache.rs:62-70 | an expired negative entry is left in place, and every later lookup is answered as if it were gone |
| `LookupCaches.LookupCache.InsertAnswer` | src/lookup/cache.rs:73-79 | the answer is entered with its time to live, others stay unless evicted |
| `LookupCaches.LookupCache.Clear` | src/lookup/cache.rs:81-84 | nothing is left |
| `Dispatcher.Run` | src/lookup/spawn.rs:119-182 | the event loop with its queue, cache object and counter has exactly the effects of the event-by-event specification |
| `Dispatcher.PopUnanswered` | src/lookup/spawn.rs:146-154 | popping answers from the cache until one is left for a worker |
| `LookupProofs.StepKeeps` | src/lookup/spawn.rs:119-182 | every step of loop, workers and clients keeps the invariant |
| `LookupProofs.DrainSplits` | src/lookup/spawn.rs:146-154 | what is popped is a front part of the queue: the answered ones and then the one handed on |
| `LookupTheorems.SlotsAreWorkers` | src/lookup/spawn.rs:123-172 | over any run the counter is the number of workers that still owe an event, within the limit, and at the limit while a lookup waits |
| `LookupTheorems.EachLookupInOnePlace` | src/lookup/spawn.rs:123-172 | over any run every submitted lookup is in exactly one of channel, queue, worker, answered and failed |
| `LookupTheorems.ArrivalOrder` | src/lookup/spawn.rs:123-172 | lookups the cache does not answer reach workers in order of submission |
| `LookupTheorems.CacheAnswersAreJustified` | src/lookup/cache.rs:49-84 | an answer from the cache was a worker's answer for an equal item, entered since the last reload and within its time to live |
| `CacheTheorems.AskedIsAnswered` | src/lookup/spawn.rs:124-145 | over any run a request is answered at once, without worker or queue, if and only if an answer was inserted since the last reload, is within its time to live and was neither evicted nor replaced; a positive one comes first |
| `CacheTheorems.QueuedAreAnswered` | src/lookup/spawn.rs:146-170 | over any run a worker's event answers the front of the queue that has such answers, its own included, gives the next lookup to a worker and leaves the rest in order |
| `CacheTheorems.OfferIsTaken` | src/lookup/spawn.rs:146-170 | the worker that offered itself gets that lookup or is let go, and without an offer a new worker starts with it |
| `CacheTheorems.FindIsExpected` | src/lookup/cache.rs:49-71 | a cache in step with what was inserted answers exactly that |
| `LookupTheorems.WorkerEventLightens` | src/lookup/spawn.rs:135-172 | each worker event received lowers queue length plus active count |
| `LookupTheorems.InternalRunsEnd` | src/lookup/smtp.rs:52-157 | without new requests every run is bounded by the weight of its first state |
| `LookupTheorems.QuiescentIsDone` | src/lookup/spawn.rs:123-172 | when nothing can happen any more, every lookup was answered or failed |
| `LookupTheorems.DrainsIffSomeWorker` | src/lookup/spawn.rs:128-133 | all settled runs leave no lookup open if and only if at least one worker is allowed |
| `LookupTheorems.StuckRun` | src/lookup/spawn.rs:128-133 | with none allowed, a run that ends with a lookup in the queue |
| `QuotaCounters.CountersBalance` | src/queue/quota.rs:161-194 | over any interleaving of loads, adds and releases both counters balance with the reservations |
| `QuotaCounters.QuotaHolds` | src/queue/quota.rs:161-194 | the size counter is exact and below its maximum, the reservations alive are within the message counter, that within its maximum |
| `QuotaCounters.MessagesExactIff` | src/queue/quota.rs:161-183 | between reservations the message counter is exact if and only if none was refused for its size |
| `QuotaCounters.ExhaustedForever` | src/queue/quota.rs:161-183 | once the refusals for size reach the message limit, no reservation is ever alive again |
| `QuotaCounters.RefusalsFillQuota` | src/queue/quota.rs:161-183 | a run of eight steps that leaves an empty quota full |
| `QuotaCounters.GuardsAreCounted` | src/core/throttle.rs:119-129 | over any interleaving the concurrency counter is the guards alive plus one being made, and the guards are within the maximum |
| `Quota.RefusalGivesBack` | src/queue/quota.rs:36-91 | a refused message leaves every counter as it was but for one message counted at the limiter that refused its size |
| `Quota.RefusalUnnoticedIff` | src/queue/quota.rs:36-128 | it changes nothing if and only if the refusing limiter did not exist, has no message limit or was full of messages; always so without size limits |
| `Quota.AdmissionHoldsAll` | src/queue/quota.rs:36-91 | an admitted message holds every claim, and the counters rise by exactly these |
| `Quota.DropUndoesAdmission` | src/queue/quota.rs:186-194 | dropping an admitted message restores every counter |
| `QuotaBooks.BooksBalance` | src/queue/quota.rs:36-194 | over any run of single claims of any messages, drops and cleanups, every limiter is backed by the reservations alive |
| `QuotaBooks.HasQuotaBacks` | src/queue/quota.rs:36-91 | all claims of a message, or their release after a refusal, keep the limiters backed |
| `QuotaBooks.RefusalsBalance` | src/queue/quota.rs:36-91 | over any run a refusal without size limits leaves all counters alone |
| `QuotaBooks.CleaningIsUnnoticed` | src/core/worker.rs:66-68 | cleanup changes no counter as seen by later claims |
| `QuotaBooks.CleanedAreUnused` | src/core/worker.rs:66-68 | a limiter cleaned away holds no reservation that its limits could tell from none |
| `QuotaBooks.CleaningDecidesNothing` | src/core/worker.rs:66-68 | the next claim is decided as without the cleanup |
| `QuotaTables.QuotaTable.ReserveQuota` | src/queue/quota.rs:93-128 | a quota that applies claims from its limiter, which is only created if it admits; one without conditions never applies |
| `QuotaTables.QuotaTable.HasQuotaFor` | src/queue/quota.rs:36-91 | the three nested loops claim in order and, at the first refusal, give back what they hold |
| `QuotaTables.QuotaTable.ReleaseQuota` | src/queue/quota.rs:132-153 | the reservations of finished domains and recipients are dropped, the others kept in order |
| `QuotaTables.KeptIffUnfinished` | src/queue/quota.rs:132-153 | a reservation survives if and only if its domain or recipient is unfinished; the sender's always does |
| `QuotaTables.FinishedIdsExact` | src/queue/quota.rs:132-153 | the numbers gathered belong to the finished domains and recipients and to nothing else |
| `QuotaTables.ReleaseConserves` | src/queue/quota.rs:132-153 | what is released and what is kept add up to what was held |
| `QuotaTheorems.AllowedIsSteps` | src/queue/quota.rs:161-185 | the check of a limiter is its atomic steps run without interruption, verdict and counters |
| `QuotaTheorems.OpeningIsAllowed` | src/queue/quota.rs:93-130 | a limiter enters the table with its first reservation, and only then |
| `QuotaTheorems.RefusedIff` | src/queue/quota.rs:161-185 | over any run a claim is refused if and only if the reservations alive and the refusals that stayed counted make up the message limit, or the sizes alive and its own reach the size limit |
| `QuotaTheorems.AdmitsExactly` | src/queue/quota.rs:161-185 | from an empty table a limit of messages alone admits exactly that many claims, the first ones |
| `QuotaTheorems.AdmittedIff` | src/queue/quota.rs:36-130 | a message is admitted if and only if each of its claims finds room behind those before it |
| `QuotaTheorems.ClaimsExact` | src/queue/quota.rs:36-91 | a message claims what the sender's quotas, the domain quotas on each domain and the recipient quotas on each recipient ask for, and nothing else |
| `QuotaTheorems.CleanedIff` | src/core/worker.rs:55-69 | over any run a cleanup keeps exactly the limiters that count a message or a size |
| `Throttle.RateLimiter.IsAllowed` | src/core/throttle.rs:79-93 | the bucket after a check, granted or refused, as specified |
| `Throttle.RefusalsAddUp` | src/core/throttle.rs:79-93 | refused checks at any times each add the whole refill since the last grant |
| `Throttle.GrantedIff` | src/core/throttle.rs:79-93 | after refusals, a check is granted if and only if all these refills together reach one token |
| `Throttle.EarlyIff` | src/core/throttle.rs:79-93 | no request is refused that the tokens and the time since the last grant would pay for, and one that they would not is granted exactly when the refills of refused requests make up the difference |
| `Throttle.EarlyGrant` | src/core/throttle.rs:79-93 | at one request in ten seconds, three checks at second four earn a grant |
| `Throttle.RefillsCompletely` | src/core/throttle.rs:79-93 | after its whole interval a bucket is full |
| `Throttle.ThrottleTable.IsAllowed` | src/queue/throttle.rs:45-109 | verdict with its retry time, guard and limiter of the key as specified, all other keys untouched |
| `Throttle.RetryAtGrants` | src/core/throttle.rs:95-100 | the time given with a refusal is later than it, within a second after an interval since the last grant, and a request is granted then |
| `Throttle.ThrottleTable.Cleanup` | src/core/worker.rs:56-65 | exactly the limiters with guards or an unfinished interval stay, unchanged |
| `Throttle.DoKeepsSound` | src/queue/throttle.rs:45-109 | every request, release and cleanup keeps the counter equal to the guards alive and within the maximum |
| `Throttle.RecreatedIsSame` | src/queue/throttle.rs:86-104 | a limiter created anew admits and ends up exactly as an idle one whose interval is over |
| `Throttle.CleanupUnnoticed` | src/core/worker.rs:55-69 | over any run leaving out all cleanups changes no verdict |
| `ThrottleTheorems.AdmittedIff` | src/queue/throttle.rs:45-109 | over any run of a key a request is too many if and only if the guards alive reach the limit, too fast if and only if not and less than a token is there; a guard is added whenever guards are limited and it was not too many |
| `ThrottleTheorems.GuardBurst` | src/core/throttle.rs:119-129 | with n allowed at once and no rate, n requests in a row are admitted |
| `ThrottleTheorems.OneMoreGuard` | src/core/throttle.rs:119-129 | and one more is too many |
| `ThrottleTheorems.RateBurst` | src/core/throttle.rs:79-93 | with n in an interval, n requests at once are admitted |
| `ThrottleTheorems.OneMoreTooFast` | src/core/throttle.rs:79-93 | and one more is too fast |
| `ThrottleTheorems.ReleasedIsFree` | src/core/throttle.rs:64-68 | over any run, after a guard is dropped a request is not too many |
| `ThrottleTheorems.RetryIsHonoured` | src/queue/throttle.rs:72-84 | over any run, a request at the time given with a refusal is not too fast again |
| `Grouping.GroupRecipients` | src/inbound/data.rs:539-622 | names of domains are pairwise distinct, each recipient's index names its own domain, no domain is without a recipient; notify options and all first times are as requested |
| `Grouping.BuildMessage` | src/inbound/data.rs:515-622 | whatever order the sort picks among equals, the message goes to exactly the addresses of the session, as often as given; every domain is due after the hold, notified and expired as the configuration or the delivery-by parameter, of either sign, asks |
| `Grouping.OneNoticeByTime` | src/inbound/data.rs:570-591 | after the notice of a delivery-by time the next one is due only after the expiry |
| `Grouping.DueBeforeExpiryIff` | src/inbound/data.rs:550-592 | when the first attempt of a new domain is due before its expiry |
| `Grouping.HeldPastExpiry` | src/inbound/data.rs:550-569 | held for 100 seconds with return after 50, a message expires before its first attempt is due |
| `Grouping.AddRecipient` | src/queue/spool.rs:195-230 | an added recipient, scheduled and without options, goes under the domain of its name, a new one if and only if there was none; a new one is due now and notified only after its expiry, and names stay distinct |
| `Grouping.AddingKeepsGroups` | src/queue/spool.rs:195-230 | earlier recipients stay under their own domains |
| `Grouping.AtMostTransitive` | src/core/mod.rs:322-338 | the order of addresses chains |
| `Grouping.AtMostAntisymmetric` | src/core/mod.rs:322-338 | neighbours that are at most each other in both directions are equal, so that equal names are adjacent after the sort |

## Left out

- The inbound side: SMTP commands, EHLO, authentication, SPF, DKIM, DMARC, ARC and milters; a new message is an arbitrary one.
- DNS, MX selection, DANE, MTA-STS, TLS and connecting: what comes of them for a domain is an arbitrary outcome of its turn.
- Reporting (TLS and DMARC aggregates) and its scheduler.
- The TOML parser: rules enter as trees whose children are in reading order, malformed entries as a leaf with its error.
- Matching of a single test (strings, masks, regular expressions, lists): a test is an arbitrary function of the envelope that may have no answer.
- IMAP and SQL lookups: only the SMTP worker of the dispatcher is modelled. Its counts of recipients and failed logins decide when it stops asking for more; here it may stop or ask whenever it has given an answer.
- Texts and MIME structure of delivery status notifications, and the file names and directories of the spool.
- Failing disk writes: a save is taken to reach the file in full or, for `CutFileStillReads`, up to some byte.
- The order in which the LRU cache evicts: any set of other entries may go at an insertion.
- Hashing of throttle and quota keys: keys are taken to be equal exactly when limits and subjects are.
- Rounding of floating point: `Throttle` computes in reals; a rate whose period is less than a second has no interval and is left out.
- The session throttle, which shortens every period to at most one second; its limiter is the same one.
- RuleProofs.CompiledExactMeaning: for envelopes that answer every lookup; `RuleProofs.RunWhole` covers the others.
- RuleExactness.Distinguish: for rules whose tests differ from one another, as below.
- RuleExactness.CompiledRightIffNestedLast: for rules without empty groups whose tests differ from one another; with repeated tests a dropped group may be harmless by chance.
- DelayTheorems.DelayNoticesBounded: a run with breaches may still stay within the bound; the two examples show that one breach of either kind can exceed it.
- MessageTheorems.AttemptsFollowSchedule: for runs without operator requests, which make domains due at once.
- MessageTheorems.AttemptsBounded: for runs without operator requests, as above.
- CrashSafety.FileFollowsLife: an unrecorded step leaves file and memory apart, but a reader may not notice if only a time differs, by less than the truncation to seconds or in the past.
- JournalTheorems.JournalIsFreshFile: equality is stated in whole seconds; otherwise the two readings may differ in a time by the truncation, both within what `JournalTheorems.JournalRestores` allows.
- QuotaTables.KeptIffUnfinished: for fewer than 2^32 - 1 domains and recipients, beyond which the shifted numbers repeat.
- JournalTheorems.JournalRestores: for messages whose strings fit the reader, numbers fit their fields and dirty marks are set, and for readers whose wall clock has moved along with the monotonic one.
- NoticeTheorems.ReportMoves: for notify counters below 2^32 - 1, at which they wrap around.
- NoticeTheorems.SuccessToldOnce: for recipients that no operator cancelled; a cancelled one counts as delivered whatever was told before.
- ThrottleTheorems.RetryIsHonoured: for intervals in whole seconds, as the configuration has them.
- Rules about notify intervals are taken to give a domain of a message the same list throughout its life; retry intervals may differ from attempt to attempt.
- QueueManager.Queue.Schedule: with Hold, Place, NextDue, NextOnHold and Reschedule, only equated with the operation on the store that the results about the queue speak of.
- Single clock readings: an operation of the server that reads the clock several times reads one time here; a delivery attempt reads one at its start, two per domain and one at its end, and a pass over the heap or the messages on hold reads one for all its calls.
- QueueSystem.EveryMessageComesUp: an entry on hold is only looked at when a message arrives or a worker ends, so that its time alone wakes nothing; which of these come, and whether its limiter ever frees up, is left to the environment.
- HoldPasses.OutIffClear: for passes whose tries fill no limiter; `HoldPasses.OutOrLeft` covers the others.
- Room that a limiter gets while a pass over the messages on hold is under way: it counts from the next pass on.
- The length of the manager's sleep (`wake_up_time`): a move may come at any time.
- Memory reserved for the counts found in a malformed spool file, and the identifiers of messages (`queue_id`).
- Overflow of the u32 attempt and notify counters is modelled as wrap-around; overflow of message sizes is not.
