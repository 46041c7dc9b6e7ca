/** Replaying a queue file gives back the live message, whatever was saved when and wherever the file is cut. */
module JournalProofs {
  import opened Prelude
  import opened QueueTypes
  import opened Codec
  import opened HeaderCodec
  import opened StatusCodec
  import opened SpoolClock
  import opened Journal

  // ----- Replaying printed records -----

  predicate AllName(rs: seq<Record>, domains: nat, rcpts: nat) {
    forall i | 0 <= i < |rs| :: Names(rs[i], domains, rcpts)
  }

  function ApplyAll(m: Message, rs: seq<Record>, now: Clock): (m': Message)
    requires AllName(rs, |m.domains|, |m.recipients|)
    ensures |m'.domains| == |m.domains| && |m'.recipients| == |m.recipients|
    decreases |rs|
  {
    if rs == [] then m else ApplyAll(Apply(m, rs[0], now), rs[1..], now)
  }

  /** How many records can be read before one that has a string over the limit. */
  function FittingPrefix(rs: seq<Record>): (n: nat)
    ensures n <= |rs|
    ensures n == |rs| <==> forall i | 0 <= i < |rs| :: FitsRecord(rs[i])
    ensures n < |rs| ==> !FitsRecord(rs[n])
  {
    if rs == [] || !FitsRecord(rs[0]) then 0 else 1 + FittingPrefix(rs[1..])
  }

  /** Reading printed records applies them in order up to the first that does not fit. */
  lemma {:induction false} ReplayPrinted(m: Message, rs: seq<Record>, now: Clock)
    requires AllName(rs, |m.domains|, |m.recipients|)
    ensures Replay(m, PrintAll(rs), now) == ApplyAll(m, rs[..FittingPrefix(rs)], now)
    decreases |rs|
  {
    hide PrintRecord, ParseRecord, FitsRecord, Apply, Names;
    if rs == [] {
      assert ParseRecord([]) == Fail by { NothingToRead(); }
    } else {
      RecordRoundTrip(rs[0], PrintAll(rs[1..]));
      if FitsRecord(rs[0]) {
        var tail := rs[1..];
        ReplayPrinted(Apply(m, rs[0], now), tail, now);
        var taken := rs[..FittingPrefix(rs)];
        assert taken[0] == rs[0] && taken[1..] == tail[..FittingPrefix(tail)];
      }
    }
  }

  lemma {:induction false} PrintAllAppend(a: seq<Record>, b: seq<Record>)
    ensures PrintAll(a + b) == PrintAll(a) + PrintAll(b)
  {
    hide PrintRecord;
    if a == [] {
      assert a + b == b;
    } else {
      assert (a + b)[1..] == a[1..] + b;
      PrintAllAppend(a[1..], b);
    }
  }

  lemma NothingToRead()
    ensures ParseRecord([]) == Fail
  {
  }

  /** The number of records that lie completely before byte `n`. */
  function Complete(rs: seq<Record>, n: nat): (k: nat)
    ensures k <= |rs|
  {
    if rs == [] || n < |PrintRecord(rs[0])| then 0 else 1 + Complete(rs[1..], n - |PrintRecord(rs[0])|)
  }

  /** What can be read of a cut file: all complete records, and maybe the cut one with its last string shortened. */
  ghost predicate CutResult(m: Message, rs: seq<Record>, n: nat, now: Clock, m': Message)
    requires AllName(rs, |m.domains|, |m.recipients|)
  {
    var k := Complete(rs, n);
    || m' == ApplyAll(m, rs[..k], now)
    || (k < |rs| && exists r ::
          ShortenedRecord(rs[k], r) && Names(r, |m.domains|, |m.recipients|)
          && m' == Apply(ApplyAll(m, rs[..k], now), r, now))
  }

  lemma {:induction false} ReplayCut(m: Message, rs: seq<Record>, n: nat, now: Clock)
    requires AllName(rs, |m.domains|, |m.recipients|)
    requires forall i | 0 <= i < |rs| :: FitsRecord(rs[i])
    requires n <= |PrintAll(rs)|
    ensures CutResult(m, rs, n, now, Replay(m, PrintAll(rs)[..n], now))
    decreases |rs|
  {
    hide PrintRecord, ParseRecord, FitsRecord, Apply, ShortenedRecord;
    if rs == [] {
      NothingToRead();
    } else {
      var p, tail := PrintRecord(rs[0]), rs[1..];
      Cut(p, PrintAll(tail), n);
      if n < |p| {
        RecordCut(rs[0], n);
        var q := ParseRecord(p[..n]);
        assert rs[..0] == [];
        if q.Done? {
          NothingToRead();
          assert Names(q.value, |m.domains|, |m.recipients|) by { SameName(rs[0], q.value); }
          assert PrintAll(rs)[..n] == p[..n];
          assert Replay(m, p[..n], now) == Replay(Apply(m, q.value, now), [], now) == Apply(m, q.value, now);
        }
      } else {
        RecordRoundTrip(rs[0], PrintAll(tail)[..n - |p|]);
        var m1 := Apply(m, rs[0], now);
        ReplayCut(m1, tail, n - |p|, now);
        var k := Complete(rs, n);
        assert rs[..k][0] == rs[0] && rs[..k][1..] == tail[..k - 1];
      }
    }
  }

  lemma SameName(r: Record, r': Record)
    requires ShortenedRecord(r, r')
    ensures forall d: nat, t: nat :: Names(r', d, t) == Names(r, d, t)
  {
  }

  // ----- The last record about a domain or a recipient decides -----

  function LastFor(rs: seq<Record>, domain: bool, i: nat): (r: Option<Record>)
    ensures r.Some? ==> r.value in rs && r.value.DomainRecord? == domain && r.value.idx == i
  {
    if rs == [] then None
    else if LastFor(rs[1..], domain, i).Some? then LastFor(rs[1..], domain, i)
    else if rs[0].DomainRecord? == domain && rs[0].idx == i then Some(rs[0])
    else None
  }

  lemma {:induction false} LastForAppend(a: seq<Record>, b: seq<Record>, domain: bool, i: nat)
    ensures LastFor(a + b, domain, i) == if LastFor(b, domain, i).Some? then LastFor(b, domain, i) else LastFor(a, domain, i)
  {
    if a == [] {
      assert a + b == b;
    } else {
      assert (a + b)[1..] == a[1..] + b;
      LastForAppend(a[1..], b, domain, i);
    }
  }

  lemma {:induction false} Applied(m: Message, rs: seq<Record>, now: Clock, i: nat)
    requires AllName(rs, |m.domains|, |m.recipients|)
    ensures i < |m.domains| ==>
              ApplyAll(m, rs, now).domains[i]
              == match LastFor(rs, true, i) case None => m.domains[i] case Some(r) => WithDomainRecord(m.domains[i], r, now)
    ensures i < |m.recipients| ==>
              ApplyAll(m, rs, now).recipients[i]
              == match LastFor(rs, false, i) case None => m.recipients[i] case Some(r) => WithRcptRecord(m.recipients[i], r)
    ensures ApplyAll(m, rs, now).(domains := m.domains, recipients := m.recipients) == m
    decreases |rs|
  {
    if rs != [] {
      Applied(Apply(m, rs[0], now), rs[1..], now, i);
    }
  }

  lemma LastForCons(r: Record, rest: seq<Record>, domain: bool, i: nat)
    ensures LastFor([r] + rest, domain, i)
         == if LastFor(rest, domain, i).Some? then LastFor(rest, domain, i)
            else if r.DomainRecord? == domain && r.idx == i then Some(r) else None
  {
    assert ([r] + rest)[1..] == rest;
  }

  lemma DomainRecordIs(i: nat, d: Domain, now: Clock)
    requires i < TWO_64
    ensures DomainRecordOf(i, d, now).DomainRecord? && DomainRecordOf(i, d, now).idx == i
  {
  }

  lemma RcptRecordIs(i: nat, r: Recipient)
    requires i < TWO_64
    ensures RcptRecordOf(i, r).RcptRecord? && RcptRecordOf(i, r).idx == i
  {
  }

  lemma {:induction false} NoRcptAmongDomains(ds: seq<Domain>, from: nat, now: Clock, all: bool, i: nat)
    ensures LastFor(DomainRecords(ds, from, now, all), false, i) == None
    decreases |ds|
  {
    if ds != [] {
      hide LastFor;
      var rest, r := DomainRecords(ds[1..], from + 1, now, all), DomainRecordOf(from, ds[0], now);
      NoRcptAmongDomains(ds[1..], from + 1, now, all, i);
      LastForCons(r, rest, false, i);
      assert [] + rest == rest;
    }
  }

  lemma NothingForNone(from: nat, now: Clock, all: bool, i: nat)
    ensures LastFor(DomainRecords([], from, now, all), true, i) == None == LastFor(RcptRecords([], from, all), false, i)
  {
  }

  lemma DomainRecordsCons(ds: seq<Domain>, from: nat, now: Clock, all: bool)
    requires ds != []
    ensures DomainRecords(ds, from, now, all)
         == (if all || ds[0].changed then [DomainRecordOf(from, ds[0], now)] else []) + DomainRecords(ds[1..], from + 1, now, all)
  {
    hide DomainRecordOf;
  }

  lemma {:induction false} NoDomainBeyond(ds: seq<Domain>, from: nat, now: Clock, all: bool, i: nat)
    requires from + |ds| < TWO_64 && !(from <= i < from + |ds|)
    ensures LastFor(DomainRecords(ds, from, now, all), true, i) == None
    decreases |ds|
  {
    hide LastFor, DomainRecordOf, DomainRecords;
    if ds == [] {
      NothingForNone(from, now, all, i);
    } else {
      var rest := DomainRecords(ds[1..], from + 1, now, all);
      NoDomainBeyond(ds[1..], from + 1, now, all, i);
      DomainRecordIs(from, ds[0], now);
      DomainRecordsCons(ds, from, now, all);
      LastForCons(DomainRecordOf(from, ds[0], now), rest, true, i);
      assert [] + rest == rest;
    }
  }

  lemma {:induction false} LastDomainRecord(ds: seq<Domain>, from: nat, now: Clock, all: bool, p: nat)
    requires from + |ds| < TWO_64 && p < |ds|
    ensures LastFor(DomainRecords(ds, from, now, all), true, from + p)
         == if all || ds[p].changed then Some(DomainRecordOf(from + p, ds[p], now)) else None
    decreases |ds|
  {
    hide LastFor, DomainRecordOf, DomainRecords;
    var rest := DomainRecords(ds[1..], from + 1, now, all);
    DomainRecordIs(from, ds[0], now);
    DomainRecordsCons(ds, from, now, all);
    LastForCons(DomainRecordOf(from, ds[0], now), rest, true, from + p);
    assert [] + rest == rest;
    if p == 0 {
      NoDomainBeyond(ds[1..], from + 1, now, all, from);
    } else {
      LastDomainRecord(ds[1..], from + 1, now, all, p - 1);
      assert from + 1 + (p - 1) == from + p;
    }
  }

  lemma {:induction false} NoDomainAmongRcpts(rs: seq<Recipient>, from: nat, all: bool, i: nat)
    ensures LastFor(RcptRecords(rs, from, all), true, i) == None
    decreases |rs|
  {
    if rs != [] {
      hide LastFor, Clean;
      var rest, r := RcptRecords(rs[1..], from + 1, all), RcptRecordOf(from, if all then rs[0] else Clean(rs[0]));
      NoDomainAmongRcpts(rs[1..], from + 1, all, i);
      LastForCons(r, rest, true, i);
      assert [] + rest == rest;
    }
  }

  lemma RcptRecordsCons(rs: seq<Recipient>, from: nat, all: bool)
    requires rs != []
    ensures RcptRecords(rs, from, all)
         == (if all || rs[0].flags.statusChanged then [RcptRecordOf(from, if all then rs[0] else Clean(rs[0]))] else [])
            + RcptRecords(rs[1..], from + 1, all)
  {
    hide RcptRecordOf, Clean;
  }

  lemma {:induction false} NoRcptBeyond(rs: seq<Recipient>, from: nat, all: bool, i: nat)
    requires from + |rs| < TWO_64 && !(from <= i < from + |rs|)
    ensures LastFor(RcptRecords(rs, from, all), false, i) == None
    decreases |rs|
  {
    hide LastFor, RcptRecordOf, Clean, RcptRecords;
    if rs == [] {
      NothingForNone(from, Clock(0, 0), all, i);
    } else {
      var rest, r := RcptRecords(rs[1..], from + 1, all), RcptRecordOf(from, if all then rs[0] else Clean(rs[0]));
      NoRcptBeyond(rs[1..], from + 1, all, i);
      RcptRecordIs(from, if all then rs[0] else Clean(rs[0]));
      RcptRecordsCons(rs, from, all);
      LastForCons(r, rest, false, i);
      assert [] + rest == rest;
    }
  }

  lemma {:induction false} LastRcptRecord(rs: seq<Recipient>, from: nat, all: bool, p: nat)
    requires from + |rs| < TWO_64 && p < |rs|
    ensures LastFor(RcptRecords(rs, from, all), false, from + p)
         == if all || rs[p].flags.statusChanged then Some(RcptRecordOf(from + p, if all then rs[p] else Clean(rs[p]))) else None
    decreases |rs|
  {
    hide LastFor, RcptRecordOf, Clean, RcptRecords;
    var rest, r := RcptRecords(rs[1..], from + 1, all), RcptRecordOf(from, if all then rs[0] else Clean(rs[0]));
    RcptRecordIs(from, if all then rs[0] else Clean(rs[0]));
    RcptRecordsCons(rs, from, all);
    LastForCons(r, rest, false, from + p);
    assert [] + rest == rest;
    if p == 0 {
      NoRcptBeyond(rs[1..], from + 1, all, from);
    } else {
      LastRcptRecord(rs[1..], from + 1, all, p - 1);
      assert from + 1 + (p - 1) == from + p;
    }
  }

  lemma LastRecord(m: Message, now: Clock, all: bool, i: nat)
    requires |m.domains| < TWO_64 && |m.recipients| < TWO_64
    ensures LastFor(Records(m, now, all), true, i)
         == if i < |m.domains| && (all || m.domains[i].changed) then Some(DomainRecordOf(i, m.domains[i], now)) else None
    ensures LastFor(Records(m, now, all), false, i)
         == if i < |m.recipients| && (all || m.recipients[i].flags.statusChanged)
            then Some(RcptRecordOf(i, if all then m.recipients[i] else Clean(m.recipients[i]))) else None
  {
    hide LastFor, DomainRecords, RcptRecords, DomainRecordOf, RcptRecordOf, Clean;
    var a, b := DomainRecords(m.domains, 0, now, all), RcptRecords(m.recipients, 0, all);
    if i < |m.domains| {
      LastDomainRecord(m.domains, 0, now, all, i);
    } else {
      NoDomainBeyond(m.domains, 0, now, all, i);
    }
    NoRcptAmongDomains(m.domains, 0, now, all, i);
    if i < |m.recipients| {
      LastRcptRecord(m.recipients, 0, all, i);
    } else {
      NoRcptBeyond(m.recipients, 0, all, i);
    }
    NoDomainAmongRcpts(m.recipients, 0, all, i);
    LastForAppend(a, b, true, i);
    LastForAppend(a, b, false, i);
  }

  // ----- Every record names something and fits -----

  predicate Good(rs: seq<Record>, domains: nat, rcpts: nat) {
    forall i | 0 <= i < |rs| :: Names(rs[i], domains, rcpts) && FitsRecord(rs[i])
  }

  lemma {:induction false} DomainRecordsGood(ds: seq<Domain>, from: nat, now: Clock, all: bool, domains: nat, rcpts: nat)
    requires from + |ds| <= domains < TWO_64
    ensures AllName(DomainRecords(ds, from, now, all), domains, rcpts)
    ensures (forall i | 0 <= i < |ds| :: FitsDomainStatus(ds[i].status)) ==> Good(DomainRecords(ds, from, now, all), domains, rcpts)
    decreases |ds|
  {
    hide FitsDomainStatus;
    if ds != [] {
      DomainRecordsGood(ds[1..], from + 1, now, all, domains, rcpts);
    }
  }

  lemma {:induction false} RcptRecordsGood(rs: seq<Recipient>, from: nat, all: bool, domains: nat, rcpts: nat)
    requires from + |rs| <= rcpts < TWO_64
    ensures AllName(RcptRecords(rs, from, all), domains, rcpts)
    ensures (forall i | 0 <= i < |rs| :: FitsRcptStatus(rs[i].status)) ==> Good(RcptRecords(rs, from, all), domains, rcpts)
    decreases |rs|
  {
    hide FitsRcptStatus, FitsDomainStatus;
    if rs != [] {
      RcptRecordsGood(rs[1..], from + 1, all, domains, rcpts);
    }
  }

  lemma RecordsGood(m: Message, now: Clock, all: bool)
    requires |m.domains| < TWO_64 && |m.recipients| < TWO_64
    ensures AllName(Records(m, now, all), |m.domains|, |m.recipients|)
    ensures FitsMessage(m) ==> Good(Records(m, now, all), |m.domains|, |m.recipients|)
  {
    hide FitsRcptStatus, FitsDomainStatus, FitsText, FitsRecord;
    DomainRecordsGood(m.domains, 0, now, all, |m.domains|, |m.recipients|);
    RcptRecordsGood(m.recipients, 0, all, |m.domains|, |m.recipients|);
  }

  lemma HeaderFits(m: Message, now: Clock)
    ensures FitsMessage(m) ==> FitsHeader(HeaderOf(m, now))
    ensures FitsHeader(HeaderOf(m, now)) ==>
              (FitsMessage(m) <==>
                && (forall i | 0 <= i < |m.domains| :: FitsDomainStatus(m.domains[i].status))
                && (forall i | 0 <= i < |m.recipients| :: FitsRcptStatus(m.recipients[i].status)))
  {
    hide FitsRcptStatus, FitsDomainStatus, FitsText;
    var h := HeaderOf(m, now);
    assert forall i | 0 <= i < |m.domains| :: h.domains[i].domain == m.domains[i].domain;
    assert forall i | 0 <= i < |m.recipients| :: h.rcpts[i] == RcptHeadOf(m.recipients[i]);
  }
}
