/** Writing and reading queue files as the server does it: growing buffers, advancing byte iterators, marks cleared in place. */
module Spool {
  import opened Prelude
  import opened QueueTypes
  import opened Codec
  import opened HeaderCodec
  import opened StatusCodec
  import opened SpoolClock
  import opened Journal
  import opened JournalProofs

  method ReadNat(s: Bytes) returns (p: Parsed<u64>)
    ensures p == ParseNat(s, 0)
  {
    var i, num := 0, 0;
    while i < |s|
      invariant 0 <= i <= |s| && 0 <= num < TWO_64
      invariant ParseNat(s, 0) == ParseNat(s[i..], num)
    {
      var ch := s[i];
      assert s[i..][1..] == s[i + 1..];
      i := i + 1;
      if IsDigit(ch) {
        num := (num * 10 + (ch - 0x30)) % TWO_64;
      } else if ch == SPACE {
        return Done(num, s[i..]);
      } else {
        return Fail;
      }
    }
    p := Fail;
  }

  method ReadI16(s: Bytes) returns (p: Parsed<i16>)
    ensures p == ParseI16(s, 0, 1)
  {
    var i, mul := 0, 1;
    var num: i16 := 0;
    while i < |s|
      invariant 0 <= i <= |s| && (mul == 1 || mul == -1)
      invariant ParseI16(s, 0, 1) == ParseI16(s[i..], num, mul)
    {
      var ch := s[i];
      assert s[i..][1..] == s[i + 1..];
      i := i + 1;
      if IsDigit(ch) {
        num := Wrap16(num * 10 + (ch - 0x30));
      } else if ch == SPACE {
        return Done(Wrap16(num * mul), s[i..]);
      } else if ch == MINUS {
        mul := -1;
      } else {
        return Fail;
      }
    }
    p := Fail;
  }

  method ReadText(s: Bytes) returns (p: Parsed<Text>)
    ensures p == ParseText(s)
  {
    var length := ReadNat(s);
    match length
    case Fail => p := Fail;
    case Done(len, rest) =>
      if len == 0 {
        p := Done([], rest);
      } else if len > MAX_TEXT {
        p := Fail;
      } else {
        var taken := if len <= |rest| then rest[..len] else rest;
        if ValidUtf8(taken) {
          var text: Text := taken;
          p := Done(text, rest[|taken|..]);
        } else {
          p := Fail;
        }
      }
  }

  /** The numbers and strings that every header starts with. */
  method ReadProps(s: Bytes) returns (p: Parsed<Props>)
    ensures p == ParseProps(s)
  {
    hide ParseNat, ParseText, ParseI16;
    var created := ReadNat(s);
    if created.Fail? {
      return Fail;
    }
    var returnPath := ReadText(created.rest);
    if returnPath.Fail? {
      return Fail;
    }
    var envId := ReadText(returnPath.rest);
    if envId.Fail? {
      return Fail;
    }
    var flags := ReadNat(envId.rest);
    if flags.Fail? {
      return Fail;
    }
    var priority := ReadI16(flags.rest);
    if priority.Fail? {
      return Fail;
    }
    p := Done(Props(created.value, returnPath.value, envId.value, flags.value, priority.value), priority.rest);
  }

  method ReadDomainHead(s: Bytes) returns (p: Parsed<DomainHead>)
    ensures p == ParseDomainHead(s)
  {
    hide ParseNat, ParseText;
    var domain := ReadText(s);
    if domain.Fail? {
      return Fail;
    }
    var expires := ReadNat(domain.rest);
    if expires.Fail? {
      return Fail;
    }
    p := Done(DomainHead(domain.value, expires.value), expires.rest);
  }

  method ReadRcptHead(s: Bytes) returns (p: Parsed<RcptHead>)
    ensures p == ParseRcptHead(s)
  {
    hide ParseNat, ParseText;
    var domainIdx := ReadNat(s);
    if domainIdx.Fail? {
      return Fail;
    }
    var address := ReadText(domainIdx.rest);
    if address.Fail? {
      return Fail;
    }
    var orcpt := ReadText(address.rest);
    if orcpt.Fail? {
      return Fail;
    }
    p := Done(RcptHead(domainIdx.value, address.value, orcpt.value), orcpt.rest);
  }

  method ReadDomains(n: nat, s: Bytes) returns (p: Parsed<seq<DomainHead>>)
    ensures p == ParseDomainHeads(n, s)
  {
    hide ParseDomainHead;
    var rest, ds := s, [];
    if ParseDomainHeads(n, s).Done? {
      assert [] + ParseDomainHeads(n, s).value == ParseDomainHeads(n, s).value;
    }
    for i := 0 to n
      invariant match ParseDomainHeads(n - i, rest)
                case Fail => ParseDomainHeads(n, s) == Fail
                case Done(tail, end) => ParseDomainHeads(n, s) == Done(ds + tail, end)
    {
      var head := ReadDomainHead(rest);
      match head
      case Fail => return Fail;
      case Done(d, r) =>
        ghost var tail := ParseDomainHeads(n - i - 1, r);
        if tail.Done? {
          assert ds + ([d] + tail.value) == (ds + [d]) + tail.value;
        }
        ds, rest := ds + [d], r;
    }
    assert ds + [] == ds;
    p := Done(ds, rest);
  }

  method ReadRcpts(n: nat, s: Bytes) returns (p: Parsed<seq<RcptHead>>)
    ensures p == ParseRcptHeads(n, s)
  {
    hide ParseRcptHead;
    var rest, rs := s, [];
    if ParseRcptHeads(n, s).Done? {
      assert [] + ParseRcptHeads(n, s).value == ParseRcptHeads(n, s).value;
    }
    for i := 0 to n
      invariant match ParseRcptHeads(n - i, rest)
                case Fail => ParseRcptHeads(n, s) == Fail
                case Done(tail, end) => ParseRcptHeads(n, s) == Done(rs + tail, end)
    {
      var head := ReadRcptHead(rest);
      match head
      case Fail => return Fail;
      case Done(d, r) =>
        ghost var tail := ParseRcptHeads(n - i - 1, r);
        if tail.Done? {
          assert rs + ([d] + tail.value) == (rs + [d]) + tail.value;
        }
        rs, rest := rs + [d], r;
    }
    assert rs + [] == rs;
    p := Done(rs, rest);
  }

  /** The loop over the status records: it ends at the first that cannot be read or names nothing. */
  method ReplayRecords(start: Message, s: Bytes, now: Clock) returns (m: Message)
    ensures m == Replay(start, s, now)
  {
    hide ParseRecord, Names, Apply;
    m := start;
    var rest, reading := s, true;
    while reading
      invariant Replay(start, s, now) == if reading then Replay(m, rest, now) else m
      decreases reading, |rest|
    {
      match ParseRecord(rest)
      case Fail => reading := false;
      case Done(r, next) =>
        if Names(r, |m.domains|, |m.recipients|) {
          m, rest := Apply(m, r, now), next;
        } else {
          reading := false;
        }
    }
  }

  method ReadMessage(s: Bytes, now: Clock) returns (r: Option<Message>)
    ensures r == Deserialize(s, now)
  {
    hide ParseProps, ParseDomainHeads, ParseRcptHeads, ParseNat, Replay, Fresh;
    var props := ReadProps(s);
    if props.Fail? {
      return None;
    }
    var numDomains := ReadNat(props.rest);
    if numDomains.Fail? {
      return None;
    }
    var domains := ReadDomains(numDomains.value, numDomains.rest);
    if domains.Fail? {
      return None;
    }
    var numRcpts := ReadNat(domains.rest);
    if numRcpts.Fail? {
      return None;
    }
    var rcpts := ReadRcpts(numRcpts.value, numRcpts.rest);
    if rcpts.Fail? {
      return None;
    }
    var m := ReplayRecords(Fresh(Header(props.value, domains.value, rcpts.value), now), rcpts.rest, now);
    r := Some(m);
  }

  lemma PrintOne(r: Record, rs: seq<Record>)
    ensures PrintAll([r] + rs) == PrintRecord(r) + PrintAll(rs)
    ensures PrintAll([] + rs) == PrintAll(rs)
  {
    assert ([r] + rs)[1..] == rs;
    assert [] + rs == rs;
  }

  /** A queued message that the server keeps in memory. */
  class QueuedMessage {
    var message: Message

    constructor (m: Message)
      ensures message == m
    {
      message := m;
    }

    method WriteFull(now: Clock) returns (buf: Bytes)
      ensures buf == Serialize(message, now)
    {
      hide PrintHeader, HeaderOf, PrintRecord, PrintAll, DomainRecordOf, RcptRecordOf;
      var m := message;
      buf := [];
      ghost var whole := DomainRecords(m.domains, 0, now, true);
      for i := 0 to |m.domains|
        invariant buf + PrintAll(DomainRecords(m.domains[i..], i, now, true)) == PrintAll(whole)
      {
        assert m.domains[i..][1..] == m.domains[i + 1..];
        PrintOne(DomainRecordOf(i, m.domains[i], now), DomainRecords(m.domains[i + 1..], i + 1, now, true));
        buf := buf + PrintRecord(DomainRecordOf(i, m.domains[i], now));
      }
      assert PrintAll([]) == [] by { PrintNone(); }
      ghost var rcpts := RcptRecords(m.recipients, 0, true);
      for i := 0 to |m.recipients|
        invariant buf + PrintAll(RcptRecords(m.recipients[i..], i, true)) == PrintAll(whole) + PrintAll(rcpts)
      {
        assert m.recipients[i..][1..] == m.recipients[i + 1..];
        PrintOne(RcptRecordOf(i, m.recipients[i]), RcptRecords(m.recipients[i + 1..], i + 1, true));
        buf := buf + PrintRecord(RcptRecordOf(i, m.recipients[i]));
      }
      PrintAllAppend(whole, rcpts);
      buf := PrintHeader(HeaderOf(m, now)) + buf;
    }

    /** `serialize_changes`: the dirty entries are written, and their marks taken away. */
    method WriteChanges(now: Clock) returns (buf: Bytes)
      modifies this
      ensures buf == Changes(old(message), now)
      ensures message == Cleared(old(message))
    {
      hide PrintRecord, PrintAll, DomainRecords, RcptRecords, CleanDomains, CleanRcpts;
      ghost var m := message;
      var domains := WriteDirtyDomains(now);
      var rcpts := WriteDirtyRcpts();
      PrintAllAppend(DomainRecords(m.domains, 0, now, false), RcptRecords(m.recipients, 0, false));
      buf := domains + rcpts;
    }

    method WriteDirtyDomains(now: Clock) returns (buf: Bytes)
      modifies this
      ensures buf == PrintAll(DomainRecords(old(message).domains, 0, now, false))
      ensures message == old(message).(domains := CleanDomains(old(message).domains))
    {
      hide PrintRecord, PrintAll, DomainRecordOf, DomainRecords;
      ghost var m := message;
      var n := |message.domains|;
      buf := [];
      ghost var whole := PrintAll(DomainRecords(m.domains, 0, now, false));
      assert m.domains[0..] == m.domains;
      for i := 0 to n
        invariant message.(domains := m.domains) == m && |message.domains| == n
        invariant forall j | 0 <= j < n :: message.domains[j] == if j < i then m.domains[j].(changed := false) else m.domains[j]
        invariant buf + PrintAll(DomainRecords(m.domains[i..], i, now, false)) == whole
      {
        var d := message.domains[i];
        DirtyDomain(m.domains, i, now);
        if d.changed {
          message := message.(domains := message.domains[i := d.(changed := false)]);
          buf := buf + PrintRecord(DomainRecordOf(i, d, now));
        }
      }
      assert m.domains[n..] == [];
      NoRecords(n, now);
      assert message.domains == CleanDomains(m.domains);
    }

    method WriteDirtyRcpts() returns (buf: Bytes)
      modifies this
      ensures buf == PrintAll(RcptRecords(old(message).recipients, 0, false))
      ensures message == old(message).(recipients := CleanRcpts(old(message).recipients))
    {
      hide PrintRecord, PrintAll, RcptRecordOf, RcptRecords, Clean;
      ghost var m := message;
      var n := |message.recipients|;
      buf := [];
      ghost var whole := PrintAll(RcptRecords(m.recipients, 0, false));
      assert m.recipients[0..] == m.recipients;
      for i := 0 to n
        invariant message.(recipients := m.recipients) == m && |message.recipients| == n
        invariant forall j | 0 <= j < n :: message.recipients[j] == if j < i then Clean(m.recipients[j]) else m.recipients[j]
        invariant buf + PrintAll(RcptRecords(m.recipients[i..], i, false)) == whole
      {
        var r := message.recipients[i];
        DirtyRcpt(m.recipients, i);
        if r.flags.statusChanged {
          message := message.(recipients := message.recipients[i := Clean(r)]);
          buf := buf + PrintRecord(RcptRecordOf(i, Clean(r)));
        } else {
          CleanAlready(r);
        }
      }
      assert m.recipients[n..] == [];
      NoRecords(n, Clock(0, 0));
      assert message.recipients == CleanRcpts(m.recipients);
    }
  }

  /** The records from entry `i` on start with that of entry `i`, if it is dirty. */
  lemma DirtyDomain(ds: seq<Domain>, i: nat, now: Clock)
    requires i < |ds|
    ensures PrintAll(DomainRecords(ds[i..], i, now, false))
         == (if ds[i].changed then PrintRecord(DomainRecordOf(i, ds[i], now)) else []) + PrintAll(DomainRecords(ds[i + 1..], i + 1, now, false))
  {
    hide PrintRecord, DomainRecordOf, PrintAll;
    assert ds[i..][0] == ds[i] && ds[i..][1..] == ds[i + 1..];
    PrintOne(DomainRecordOf(i, ds[i], now), DomainRecords(ds[i + 1..], i + 1, now, false));
  }

  lemma DirtyRcpt(rs: seq<Recipient>, i: nat)
    requires i < |rs|
    ensures PrintAll(RcptRecords(rs[i..], i, false))
         == (if rs[i].flags.statusChanged then PrintRecord(RcptRecordOf(i, Clean(rs[i]))) else []) + PrintAll(RcptRecords(rs[i + 1..], i + 1, false))
  {
    hide PrintRecord, RcptRecordOf, PrintAll, Clean;
    assert rs[i..][0] == rs[i] && rs[i..][1..] == rs[i + 1..];
    PrintOne(RcptRecordOf(i, Clean(rs[i])), RcptRecords(rs[i + 1..], i + 1, false));
  }

  lemma CleanAlready(r: Recipient)
    requires !r.flags.statusChanged
    ensures Clean(r) == r
  {
  }

  lemma PrintNone()
    ensures PrintAll([]) == []
  {
  }

  lemma NoRecords(n: nat, now: Clock)
    ensures PrintAll(DomainRecords([], n, now, false)) == [] == PrintAll(RcptRecords([], n, false))
  {
  }
}
