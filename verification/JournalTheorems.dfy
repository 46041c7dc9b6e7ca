/** The promises of the queue file, over every message and every history of saves. */
module JournalTheorems {
  import opened Prelude
  import opened QueueTypes
  import opened Codec
  import opened HeaderCodec
  import opened StatusCodec
  import opened SpoolClock
  import opened Journal
  import opened JournalProofs

  /** All records of a file, in the order in which they were written. */
  function FileRecords(first: Save, saves: seq<Save>): seq<Record> {
    if saves == [] then Records(first.message, first.clock, true)
    else
      var last := |saves| - 1;
      FileRecords(first, saves[..last]) + Records(saves[last].message, saves[last].clock, false)
  }

  lemma {:induction false} FileIsRecords(first: Save, saves: seq<Save>)
    ensures File(first, saves) == PrintHeader(HeaderOf(first.message, first.clock)) + PrintAll(FileRecords(first, saves))
  {
    hide PrintHeader, PrintAll, HeaderOf, Records;
    if saves != [] {
      var last := |saves| - 1;
      var init := saves[..last];
      FileIsRecords(first, init);
      PrintAllAppend(FileRecords(first, init), Records(saves[last].message, saves[last].clock, false));
    }
  }

  /** A history whose messages stay within the machine's and the reader's limits. */
  predicate Admissible(first: Save, saves: seq<Save>) {
    && History(first, saves)
    && Representable(first.message, first.clock) && FitsMessage(first.message)
    && forall i | 0 <= i < |saves| :: Representable(saves[i].message, saves[i].clock) && FitsMessage(saves[i].message)
  }

  lemma {:induction false} SameShape(first: Save, saves: seq<Save>)
    requires History(first, saves)
    ensures
      var m := Live(first, saves);
      && m.(domains := first.message.domains, recipients := first.message.recipients) == first.message
      && |m.domains| == |first.message.domains| && |m.recipients| == |first.message.recipients|
      && (forall i | 0 <= i < |m.domains| ::
            m.domains[i].domain == first.message.domains[i].domain && m.domains[i].expires == first.message.domains[i].expires)
      && (forall i | 0 <= i < |m.recipients| ::
            var r, r0 := m.recipients[i], first.message.recipients[i];
            r.domainIdx == r0.domainIdx && r.address == r0.address && r.orcpt == r0.orcpt)
  {
    if saves != [] {
      SameShape(first, saves[..|saves| - 1]);
    }
  }

  lemma {:induction false} FileRecordsGood(first: Save, saves: seq<Save>)
    requires Admissible(first, saves)
    ensures Good(FileRecords(first, saves), |first.message.domains|, |first.message.recipients|)
  {
    hide FitsMessage, Records, FitsRecord, Timestamp;
    if saves == [] {
      RecordsGood(first.message, first.clock, true);
    } else {
      var last := |saves| - 1;
      FileRecordsGood(first, saves[..last]);
      SameShape(first, saves[..last]);
      RecordsGood(saves[last].message, saves[last].clock, false);
    }
  }

  /** The clock of the first write (0) or of a later save. */
  function ClockOf(first: Save, saves: seq<Save>, j: nat): Clock
    requires j <= |saves|
  {
    if j == 0 then first.clock else saves[j - 1].clock
  }

  /** The last record about a domain shows the live domain, as written at one of the saves. */
  lemma {:induction false} LastShowsLiveDomain(first: Save, saves: seq<Save>, i: nat) returns (j: nat)
    requires Admissible(first, saves) && i < |first.message.domains|
    ensures |Live(first, saves).domains| == |first.message.domains|
    ensures j <= |saves|
    ensures LastFor(FileRecords(first, saves), true, i)
         == Some(DomainRecordOf(i, Live(first, saves).domains[i], ClockOf(first, saves, j)))
    ensures
      var d := Live(first, saves).domains[i];
      Timestamp(d.retry.due, ClockOf(first, saves, j)) < TWO_64 && Timestamp(d.notify.due, ClockOf(first, saves, j)) < TWO_64
  {
    hide FitsMessage, Records, Timestamp;
    SameShape(first, saves);
    if saves == [] {
      LastRecord(first.message, first.clock, true, i);
      j := 0;
    } else {
      var last := |saves| - 1;
      var init := saves[..last];
      var m := saves[last].message;
      j := LastShowsLiveDomain(first, init, i);
      LastRecord(m, saves[last].clock, false, i);
      LastForAppend(FileRecords(first, init), Records(m, saves[last].clock, false), true, i);
      assert ClockOf(first, init, j) == ClockOf(first, saves, j);
      if m.domains[i].changed {
        j := |saves|;
      }
    }
  }

  lemma {:induction false} LastShowsLiveRcpt(first: Save, saves: seq<Save>, i: nat)
    requires Admissible(first, saves) && i < |first.message.recipients|
    ensures |Live(first, saves).recipients| == |first.message.recipients|
    ensures LastFor(FileRecords(first, saves), false, i) == Some(RcptRecordOf(i, Live(first, saves).recipients[i]))
  {
    hide FitsMessage, Records, Timestamp;
    SameShape(first, saves);
    if saves == [] {
      LastRecord(first.message, first.clock, true, i);
    } else {
      var last := |saves| - 1;
      var init := saves[..last];
      var m := saves[last].message;
      LastShowsLiveRcpt(first, init, i);
      LastRecord(m, saves[last].clock, false, i);
      LastForAppend(FileRecords(first, init), Records(m, saves[last].clock, false), false, i);
    }
  }

  /** Reading the file applies all its records to the message that the header describes. */
  lemma ReadFile(first: Save, saves: seq<Save>, now: Clock)
    requires Admissible(first, saves)
    ensures AllName(FileRecords(first, saves), |Fresh(HeaderOf(first.message, first.clock), now).domains|,
                    |Fresh(HeaderOf(first.message, first.clock), now).recipients|)
    ensures Deserialize(File(first, saves), now)
         == Some(ApplyAll(Fresh(HeaderOf(first.message, first.clock), now), FileRecords(first, saves), now))
  {
    hide PrintHeader, ParseHeader, FitsHeader, FitsMessage, PrintAll, Replay, FileRecords, FitsRecord, Names, Timestamp;
    var h, rs := HeaderOf(first.message, first.clock), FileRecords(first, saves);
    FileIsRecords(first, saves);
    HeaderFits(first.message, first.clock);
    HeaderRoundTrip(h, PrintAll(rs));
    FileRecordsGood(first, saves);
    ReplayPrinted(Fresh(h, now), rs, now);
    assert rs[..|rs|] == rs;
  }

  /** Every reading after the saves, with the clocks having advanced together. */
  predicate ReadAfter(first: Save, saves: seq<Save>, now: Clock) {
    Together(first.clock, now) && forall i | 0 <= i < |saves| :: Together(saves[i].clock, now)
  }

  lemma DomainRead(first: Save, saves: seq<Save>, now: Clock, i: nat) returns (j: nat)
    requires Admissible(first, saves) && i < |first.message.domains|
    ensures j <= |saves|
    ensures |Live(first, saves).domains| == |first.message.domains|
    ensures Deserialize(File(first, saves), now).Some?
    ensures |Deserialize(File(first, saves), now).value.domains| == |first.message.domains|
    ensures
      var d, w := Live(first, saves).domains[i], ClockOf(first, saves, j);
      Deserialize(File(first, saves), now).value.domains[i]
      == d.(retry := d.retry.(due := Recovered(d.retry.due, w, now)), notify := d.notify.(due := Recovered(d.notify.due, w, now)),
            expires := Recovered(d.expires, first.clock, now), changed := false)
  {
    hide History, Names, AllName, ApplyAll, Tracked, FitsMessage, Records, Timestamp, Deserialize, File, InstantOf, FileRecords, FitsRecord;
    SameShape(first, saves);
    ReadFile(first, saves, now);
    j := LastShowsLiveDomain(first, saves, i);
    Applied(Fresh(HeaderOf(first.message, first.clock), now), FileRecords(first, saves), now, i);
    var d0 := first.message.domains[i];
    assert Representable(first.message, first.clock);
    assert Word(Timestamp(d0.expires, first.clock)) == Timestamp(d0.expires, first.clock);
    assert HeaderOf(first.message, first.clock).domains[i] == DomainHeadOf(d0, first.clock);
  }

  lemma RcptRead(first: Save, saves: seq<Save>, now: Clock, i: nat)
    requires Admissible(first, saves) && i < |first.message.recipients|
    ensures |Live(first, saves).recipients| == |first.message.recipients|
    ensures Deserialize(File(first, saves), now).Some?
    ensures |Deserialize(File(first, saves), now).value.recipients| == |first.message.recipients|
    ensures Deserialize(File(first, saves), now).value.recipients[i] == RestoredRcpt(Live(first, saves).recipients[i])
  {
    hide FitsMessage, Records, Timestamp, Deserialize, File, InstantOf, FileRecords, FitsRecord;
    SameShape(first, saves);
    ReadFile(first, saves, now);
    LastShowsLiveRcpt(first, saves, i);
    Applied(Fresh(HeaderOf(first.message, first.clock), now), FileRecords(first, saves), now, i);
    assert HeaderOf(first.message, first.clock).rcpts[i] == RcptHeadOf(first.message.recipients[i]);
  }

  lemma RestRead(first: Save, saves: seq<Save>, now: Clock)
    requires Admissible(first, saves)
    ensures Deserialize(File(first, saves), now).Some?
    ensures
      var m, m' := Live(first, saves), Deserialize(File(first, saves), now).value;
      && |m'.domains| == |m.domains| == |first.message.domains|
      && |m'.recipients| == |m.recipients| == |first.message.recipients|
      && m'.(domains := m.domains, recipients := m.recipients) == m.(envId := NoneIfEmpty(OrEmpty(m.envId)))
  {
    hide FitsMessage, Records, Timestamp, Deserialize, File, InstantOf, FileRecords, FitsRecord, ApplyAll;
    SameShape(first, saves);
    ReadFile(first, saves, now);
    Applied(Fresh(HeaderOf(first.message, first.clock), now), FileRecords(first, saves), now, 0);
  }

  /** Replaying the header and any sequence of appended batches restores the live message. */
  lemma JournalRestores(first: Save, saves: seq<Save>, now: Clock)
    requires Admissible(first, saves) && ReadAfter(first, saves, now)
    ensures Deserialize(File(first, saves), now).Some?
    ensures Restored(Live(first, saves), Deserialize(File(first, saves), now).value, now.mono)
  {
    hide Deserialize, File, FitsMessage, Timestamp, Near, Recovered, Live, History;
    RestRead(first, saves, now);
    var m, m' := Live(first, saves), Deserialize(File(first, saves), now).value;
    forall i | 0 <= i < |m.domains| ensures DomainRestored(m.domains[i], m'.domains[i], now.mono) {
      var j := DomainRead(first, saves, now, i);
      var w := ClockOf(first, saves, j);
      RecoveredNear(m.domains[i].retry.due, w, now);
      RecoveredNear(m.domains[i].notify.due, w, now);
      RecoveredNear(m.domains[i].expires, first.clock, now);
    }
    forall i | 0 <= i < |m.recipients| ensures m'.recipients[i] == RestoredRcpt(m.recipients[i]) {
      RcptRead(first, saves, now, i);
    }
  }

  /** Clocks and times in whole seconds. */
  predicate AllWhole(first: Save, saves: seq<Save>) {
    Aligned(first.clock) && forall i | 0 <= i < |saves| :: Aligned(saves[i].clock)
  }

  /** With whole seconds the replayed message is exactly the live one, past times moved to the time of reading. */
  lemma JournalRestoresExactly(first: Save, saves: seq<Save>, now: Clock)
    requires Admissible(first, saves) && ReadAfter(first, saves, now)
    requires AllWhole(first, saves) && Aligned(now) && WholeTimes(Live(first, saves))
    ensures Deserialize(File(first, saves), now) == Some(Exact(Live(first, saves), now.mono))
  {
    hide Deserialize, File, FitsMessage, Timestamp, Recovered, Live, History, Aligned, WholeSeconds;
    RestRead(first, saves, now);
    var m, m' := Live(first, saves), Deserialize(File(first, saves), now).value;
    forall i | 0 <= i < |m.domains| ensures m'.domains[i] == ExactDomain(m.domains[i], now.mono) {
      var j := DomainRead(first, saves, now, i);
      var w := ClockOf(first, saves, j);
      RecoveredExactly(m.domains[i].retry.due, w, now);
      RecoveredExactly(m.domains[i].notify.due, w, now);
      RecoveredExactly(m.domains[i].expires, first.clock, now);
    }
    forall i | 0 <= i < |m.recipients| ensures m'.recipients[i] == RestoredRcpt(m.recipients[i]) {
      RcptRead(first, saves, now, i);
    }
    assert m'.domains == Exact(m, now.mono).domains;
    assert m'.recipients == Exact(m, now.mono).recipients;
  }

  /** A log and a fresh file of the same live message cannot be told apart by a reader. */
  lemma JournalIsFreshFile(first: Save, saves: seq<Save>, written: Clock, now: Clock)
    requires Admissible(first, saves) && ReadAfter(first, saves, now)
    requires AllWhole(first, saves) && Aligned(now) && WholeTimes(Live(first, saves))
    requires Together(written, now) && Aligned(written)
    requires Representable(Live(first, saves), written) && FitsMessage(Live(first, saves))
    ensures Deserialize(File(first, saves), now) == Deserialize(Serialize(Live(first, saves), written), now)
  {
    hide Deserialize, FitsMessage, Representable, WholeTimes, Live, Serialize, Exact;
    JournalRestoresExactly(first, saves, now);
    var anew := Save(Live(first, saves), written);
    assert File(anew, []) == Serialize(anew.message, written);
    assert Live(anew, []) == anew.message by { LiveOfOne(anew); }
    JournalRestoresExactly(anew, [], now);
  }

  lemma LiveOfOne(s: Save)
    ensures Live(s, []) == s.message
  {
  }

  /** Saving again straight after a save appends nothing, and every mark is gone. */
  lemma ClearedIsClean(m: Message, now: Clock)
    ensures Changes(Cleared(m), now) == []
    ensures Tracked(Cleared(m), Cleared(m))
  {
    hide PrintRecord;
    NoDirtyDomains(Cleared(m).domains, 0, now);
    NoDirtyRcpts(Cleared(m).recipients, 0);
  }

  lemma {:induction false} NoDirtyDomains(ds: seq<Domain>, from: nat, now: Clock)
    requires forall i | 0 <= i < |ds| :: !ds[i].changed
    ensures DomainRecords(ds, from, now, false) == []
  {
    if ds != [] {
      NoDirtyDomains(ds[1..], from + 1, now);
    }
  }

  lemma {:induction false} NoDirtyRcpts(rs: seq<Recipient>, from: nat)
    requires forall i | 0 <= i < |rs| :: !rs[i].flags.statusChanged
    ensures RcptRecords(rs, from, false) == []
  {
    if rs != [] {
      NoDirtyRcpts(rs[1..], from + 1);
    }
  }

  // ----- Exactly when a message is read back -----

  lemma {:induction false} DomainRecordAt(ds: seq<Domain>, from: nat, now: Clock, i: nat)
    requires i < |ds|
    ensures |DomainRecords(ds, from, now, true)| == |ds|
    ensures DomainRecords(ds, from, now, true)[i] == DomainRecordOf(from + i, ds[i], now)
    decreases |ds|
  {
    hide MarkOf, Word;
    if |ds| > 1 {
      DomainRecordAt(ds[1..], from + 1, now, if i == 0 then 0 else i - 1);
    } else {
      assert DomainRecords(ds[1..], from + 1, now, true) == [];
    }
  }

  lemma {:induction false} RcptRecordAt(rs: seq<Recipient>, from: nat, i: nat)
    requires i < |rs|
    ensures |RcptRecords(rs, from, true)| == |rs|
    ensures RcptRecords(rs, from, true)[i] == RcptRecordOf(from + i, rs[i])
    decreases |rs|
  {
    hide Word;
    if |rs| > 1 {
      RcptRecordAt(rs[1..], from + 1, if i == 0 then 0 else i - 1);
    } else {
      assert RcptRecords(rs[1..], from + 1, true) == [];
    }
  }

  lemma RecordAt(m: Message, now: Clock, i: nat)
    requires i < |m.domains| + |m.recipients|
    ensures |Records(m, now, true)| == |m.domains| + |m.recipients|
    ensures Records(m, now, true)[i]
         == if i < |m.domains| then DomainRecordOf(i, m.domains[i], now) else RcptRecordOf(i - |m.domains|, m.recipients[i - |m.domains|])
  {
    hide DomainRecordOf, RcptRecordOf;
    if m.domains != [] {
      DomainRecordAt(m.domains, 0, now, if i < |m.domains| then i else 0);
    }
    if m.recipients != [] {
      RcptRecordAt(m.recipients, 0, if i < |m.domains| then 0 else i - |m.domains|);
    }
  }

  /** The first `n` records of a full write say nothing about the subject of record `n`. */
  lemma NotYetNamed(m: Message, now: Clock, n: nat)
    requires |m.domains| < TWO_64 && |m.recipients| < TWO_64 && n < |m.domains| + |m.recipients|
    ensures n <= |Records(m, now, true)|
    ensures
      var rs := Records(m, now, true)[..n];
      if n < |m.domains| then LastFor(rs, true, n) == None else LastFor(rs, false, n - |m.domains|) == None
  {
    hide Records, Timestamp, MarkOf;
    RecordAt(m, now, n);
    var rs := Records(m, now, true);
    var domain, i := n < |m.domains|, if n < |m.domains| then n else n - |m.domains|;
    var r := LastFor(rs[..n], domain, i);
    if r.Some? {
      var k :| 0 <= k < n && rs[..n][k] == r.value;
      RecordAt(m, now, k);
    }
  }

  /** A record that could not be read leaves its domain or recipient scheduled. */
  lemma UnreadStaysScheduled(m: Message, written: Clock, now: Clock, n: nat)
    requires Representable(m, written) && n < |m.domains| + |m.recipients|
    ensures AllName(Records(m, written, true), |m.domains|, |m.recipients|)
    ensures n <= |Records(m, written, true)|
    ensures
      var m' := ApplyAll(Fresh(HeaderOf(m, written), now), Records(m, written, true)[..n], now);
      if n < |m.domains| then m'.domains[n].status == Scheduled else m'.recipients[n - |m.domains|].status == Scheduled
  {
    hide Records, FitsMessage, Timestamp, MarkOf, ApplyAll, LastFor;
    RecordsGood(m, written, true);
    NotYetNamed(m, written, n);
    var i := if n < |m.domains| then n else n - |m.domains|;
    Applied(Fresh(HeaderOf(m, written), now), Records(m, written, true)[..n], now, i);
  }

  /** A written message is read back exactly when all its strings are within the reader's limit. */
  lemma RoundTripIffFits(m: Message, written: Clock, now: Clock)
    requires Representable(m, written) && Together(written, now)
    ensures FitsMessage(m) <==>
      (Deserialize(Serialize(m, written), now).Some? && Restored(m, Deserialize(Serialize(m, written), now).value, now.mono))
  {
    hide FitsRcptStatus, FitsDomainStatus, FitsText, FitsHeader, PrintHeader, ParseHeader, PrintAll, Replay, Near, Records, Timestamp;
    var h, rs := HeaderOf(m, written), Records(m, written, true);
    if FitsMessage(m) {
      var first := Save(m, written);
      assert File(first, []) == Serialize(m, written) && Live(first, []) == m;
      JournalRestores(first, [], now);
    } else {
      HeaderFits(m, written);
      HeaderRoundTrip(h, PrintAll(rs));
      if FitsHeader(h) {
        RecordsGood(m, written, true);
        ReplayPrinted(Fresh(h, now), rs, now);
        var n := SomeRecordUnfit(m, written);
        var k := FittingPrefix(rs);
        RecordAt(m, written, 0);
        UnreadStaysScheduled(m, written, now, k);
        RecordAt(m, written, k);
        assert !FitsRecord(rs[k]);
        ScheduledFits();
      }
    }
  }

  lemma ScheduledFits()
    ensures FitsDomainStatus(Scheduled) && FitsRcptStatus(Scheduled)
  {
  }

  lemma SomeRecordUnfit(m: Message, written: Clock) returns (n: nat)
    requires !FitsMessage(m) && FitsHeader(HeaderOf(m, written))
    ensures n < |Records(m, written, true)| && !FitsRecord(Records(m, written, true)[n])
  {
    hide FitsRcptStatus, FitsDomainStatus, FitsText, FitsHeader, Records, Timestamp;
    HeaderFits(m, written);
    if i :| 0 <= i < |m.domains| && !FitsDomainStatus(m.domains[i].status) {
      n := i;
    } else {
      var i :| 0 <= i < |m.recipients| && !FitsRcptStatus(m.recipients[i].status);
      n := |m.domains| + i;
    }
    RecordAt(m, written, n);
  }

  // ----- Cut files -----

  /** Wherever a file is cut after its header, a message is read: the complete records apply, and maybe the cut one. */
  lemma CutFileStillReads(first: Save, saves: seq<Save>, n: nat, now: Clock)
    requires Admissible(first, saves)
    requires |PrintHeader(HeaderOf(first.message, first.clock))| <= n <= |File(first, saves)|
    ensures
      var h, rs := HeaderOf(first.message, first.clock), FileRecords(first, saves);
      && AllName(rs, |Fresh(h, now).domains|, |Fresh(h, now).recipients|)
      && Deserialize(File(first, saves)[..n], now).Some?
      && CutResult(Fresh(h, now), rs, n - |PrintHeader(h)|, now, Deserialize(File(first, saves)[..n], now).value)
  {
    hide PrintHeader, ParseHeader, FitsHeader, FitsMessage, PrintAll, Replay, FileRecords, FitsRecord, Names, Timestamp, CutResult;
    var h, rs := HeaderOf(first.message, first.clock), FileRecords(first, saves);
    var p := PrintHeader(h);
    FileIsRecords(first, saves);
    HeaderFits(first.message, first.clock);
    Cut(p, PrintAll(rs), n);
    HeaderRoundTrip(h, PrintAll(rs)[..n - |p|]);
    FileRecordsGood(first, saves);
    ReplayCut(Fresh(h, now), rs, n - |p|, now);
  }
}
