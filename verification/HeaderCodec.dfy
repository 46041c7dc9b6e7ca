/** The fixed part of a queue file: message properties, domain names with expiry, and recipients. */
module HeaderCodec {
  import opened QueueTypes
  import opened Codec

  datatype DomainHead = DomainHead(domain: Text, expires: u64)

  /** `orcpt` is empty when the recipient has none. */
  datatype RcptHead = RcptHead(domainIdx: u64, address: Text, orcpt: Text)

  datatype Props = Props(created: u64, returnPath: Text, envId: Text, flags: u64, priority: i16)

  datatype Header = Header(props: Props, domains: seq<DomainHead>, rcpts: seq<RcptHead>)

  // ----- Printing -----

  function PrintProps(p: Props): Bytes {
    PrintNat(p.created) + (PrintText(p.returnPath) + (PrintText(p.envId) + (PrintNat(p.flags) + PrintI16(p.priority))))
  }

  function PrintDomainHead(d: DomainHead): Bytes {
    PrintText(d.domain) + PrintNat(d.expires)
  }

  function PrintRcptHead(r: RcptHead): Bytes {
    PrintNat(r.domainIdx) + (PrintText(r.address) + PrintText(r.orcpt))
  }

  function PrintDomainHeads(ds: seq<DomainHead>): Bytes {
    if ds == [] then [] else PrintDomainHead(ds[0]) + PrintDomainHeads(ds[1..])
  }

  function PrintRcptHeads(rs: seq<RcptHead>): Bytes {
    if rs == [] then [] else PrintRcptHead(rs[0]) + PrintRcptHeads(rs[1..])
  }

  function PrintHeader(h: Header): Bytes {
    PrintProps(h.props) + (PrintNat(|h.domains|) + (PrintDomainHeads(h.domains) + (PrintNat(|h.rcpts|) + PrintRcptHeads(h.rcpts))))
  }

  // ----- Parsing -----

  function ParseProps(s: Bytes): (p: Parsed<Props>)
    ensures p.Done? ==> |p.rest| < |s|
  {
    match ParseNat(s, 0)
    case Fail => Fail
    case Done(created, rest) =>
      match ParseText(rest)
      case Fail => Fail
      case Done(returnPath, rest) =>
        match ParseText(rest)
        case Fail => Fail
        case Done(envId, rest) =>
          match ParseNat(rest, 0)
          case Fail => Fail
          case Done(flags, rest) =>
            match ParseI16(rest, 0, 1)
            case Fail => Fail
            case Done(priority, rest) => Done(Props(created, returnPath, envId, flags, priority), rest)
  }

  function ParseDomainHead(s: Bytes): (p: Parsed<DomainHead>)
    ensures p.Done? ==> |p.rest| < |s|
  {
    match ParseText(s)
    case Fail => Fail
    case Done(domain, rest) =>
      match ParseNat(rest, 0)
      case Fail => Fail
      case Done(expires, rest) => Done(DomainHead(domain, expires), rest)
  }

  function ParseRcptHead(s: Bytes): (p: Parsed<RcptHead>)
    ensures p.Done? ==> |p.rest| < |s|
  {
    match ParseNat(s, 0)
    case Fail => Fail
    case Done(domainIdx, rest) =>
      match ParseText(rest)
      case Fail => Fail
      case Done(address, rest) =>
        match ParseText(rest)
        case Fail => Fail
        case Done(orcpt, rest) => Done(RcptHead(domainIdx, address, orcpt), rest)
  }

  function ParseDomainHeads(n: nat, s: Bytes): (p: Parsed<seq<DomainHead>>)
    ensures p.Done? ==> |p.value| == n
  {
    if n == 0 then Done([], s)
    else match ParseDomainHead(s)
      case Fail => Fail
      case Done(d, rest) =>
        match ParseDomainHeads(n - 1, rest)
        case Fail => Fail
        case Done(ds, rest) => Done([d] + ds, rest)
  }

  function ParseRcptHeads(n: nat, s: Bytes): (p: Parsed<seq<RcptHead>>)
    ensures p.Done? ==> |p.value| == n
  {
    if n == 0 then Done([], s)
    else match ParseRcptHead(s)
      case Fail => Fail
      case Done(r, rest) =>
        match ParseRcptHeads(n - 1, rest)
        case Fail => Fail
        case Done(rs, rest) => Done([r] + rs, rest)
  }

  function ParseHeader(s: Bytes): Parsed<Header> {
    match ParseProps(s)
    case Fail => Fail
    case Done(props, rest) =>
      match ParseNat(rest, 0)
      case Fail => Fail
      case Done(n, rest) =>
        match ParseDomainHeads(n, rest)
        case Fail => Fail
        case Done(domains, rest) =>
          match ParseNat(rest, 0)
          case Fail => Fail
          case Done(n, rest) =>
            match ParseRcptHeads(n, rest)
            case Fail => Fail
            case Done(rcpts, rest) => Done(Header(props, domains, rcpts), rest)
  }

  // ----- Round trip -----

  predicate FitsProps(p: Props) { FitsText(p.returnPath) && FitsText(p.envId) }

  predicate FitsRcptHead(r: RcptHead) { FitsText(r.address) && FitsText(r.orcpt) }

  predicate FitsHeader(h: Header) {
    && FitsProps(h.props)
    && (forall i | 0 <= i < |h.domains| :: FitsText(h.domains[i].domain))
    && (forall i | 0 <= i < |h.rcpts| :: FitsRcptHead(h.rcpts[i]))
  }

  lemma PropsRoundTrip(p: Props, k: Bytes)
    ensures ParseProps(PrintProps(p) + k) == if FitsProps(p) then Done(p, k) else Fail
  {
    hide PrintNat, ParseNat, PrintText, ParseText, FitsText, PrintI16, ParseI16;
    var e := PrintI16(p.priority);
    var d := PrintNat(p.flags) + e;
    var c := PrintText(p.envId) + d;
    var b := PrintText(p.returnPath) + c;
    assert PrintProps(p) + k == PrintNat(p.created) + (b + k);
    assert b + k == PrintText(p.returnPath) + (c + k);
    assert c + k == PrintText(p.envId) + (d + k);
    assert d + k == PrintNat(p.flags) + (e + k);
    NatRoundTrip(p.created, b + k);
    TextRoundTrip(p.returnPath, c + k);
    TextRoundTrip(p.envId, d + k);
    NatRoundTrip(p.flags, e + k);
    I16RoundTrip(p.priority, k);
  }

  lemma DomainHeadRoundTrip(d: DomainHead, k: Bytes)
    ensures ParseDomainHead(PrintDomainHead(d) + k) == if FitsText(d.domain) then Done(d, k) else Fail
  {
    hide PrintNat, ParseNat, PrintText, ParseText, FitsText;
    assert PrintDomainHead(d) + k == PrintText(d.domain) + (PrintNat(d.expires) + k);
    TextRoundTrip(d.domain, PrintNat(d.expires) + k);
    NatRoundTrip(d.expires, k);
  }

  lemma RcptHeadRoundTrip(r: RcptHead, k: Bytes)
    ensures ParseRcptHead(PrintRcptHead(r) + k) == if FitsRcptHead(r) then Done(r, k) else Fail
  {
    hide PrintNat, ParseNat, PrintText, ParseText, FitsText;
    var b := PrintText(r.address) + PrintText(r.orcpt);
    assert PrintRcptHead(r) + k == PrintNat(r.domainIdx) + (b + k);
    assert b + k == PrintText(r.address) + (PrintText(r.orcpt) + k);
    NatRoundTrip(r.domainIdx, b + k);
    TextRoundTrip(r.address, PrintText(r.orcpt) + k);
    TextRoundTrip(r.orcpt, k);
  }

  lemma {:induction false} DomainHeadsRoundTrip(ds: seq<DomainHead>, k: Bytes)
    ensures ParseDomainHeads(|ds|, PrintDomainHeads(ds) + k)
         == if forall i | 0 <= i < |ds| :: FitsText(ds[i].domain) then Done(ds, k) else Fail
  {
    hide PrintDomainHead, ParseDomainHead, FitsText;
    if ds == [] {
      assert [] + k == k;
    } else {
      var rest := PrintDomainHeads(ds[1..]) + k;
      assert PrintDomainHeads(ds) + k == PrintDomainHead(ds[0]) + rest;
      DomainHeadRoundTrip(ds[0], rest);
      DomainHeadsRoundTrip(ds[1..], k);
      assert ds == [ds[0]] + ds[1..];
    }
  }

  lemma {:induction false} RcptHeadsRoundTrip(rs: seq<RcptHead>, k: Bytes)
    ensures ParseRcptHeads(|rs|, PrintRcptHeads(rs) + k)
         == if forall i | 0 <= i < |rs| :: FitsRcptHead(rs[i]) then Done(rs, k) else Fail
  {
    hide PrintRcptHead, ParseRcptHead, FitsRcptHead;
    if rs == [] {
      assert [] + k == k;
    } else {
      var rest := PrintRcptHeads(rs[1..]) + k;
      assert PrintRcptHeads(rs) + k == PrintRcptHead(rs[0]) + rest;
      RcptHeadRoundTrip(rs[0], rest);
      RcptHeadsRoundTrip(rs[1..], k);
      assert rs == [rs[0]] + rs[1..];
    }
  }

  /** A header is read back exactly when none of its strings is over the limit, and refused otherwise. */
  lemma HeaderRoundTrip(h: Header, k: Bytes)
    requires |h.domains| < TWO_64 && |h.rcpts| < TWO_64
    ensures ParseHeader(PrintHeader(h) + k) == if FitsHeader(h) then Done(h, k) else Fail
  {
    hide PrintProps, ParseProps, FitsProps, PrintNat, ParseNat, PrintDomainHeads, ParseDomainHeads, FitsText, PrintRcptHeads, ParseRcptHeads, FitsRcptHead;
    var d := PrintRcptHeads(h.rcpts);
    var c := PrintNat(|h.rcpts|) + d;
    var b := PrintDomainHeads(h.domains) + c;
    var a := PrintNat(|h.domains|) + b;
    assert PrintHeader(h) + k == PrintProps(h.props) + (a + k);
    assert a + k == PrintNat(|h.domains|) + (b + k);
    assert b + k == PrintDomainHeads(h.domains) + (c + k);
    assert c + k == PrintNat(|h.rcpts|) + (d + k);
    PropsRoundTrip(h.props, a + k);
    NatRoundTrip(|h.domains|, b + k);
    DomainHeadsRoundTrip(h.domains, c + k);
    NatRoundTrip(|h.rcpts|, d + k);
    RcptHeadsRoundTrip(h.rcpts, k);
  }
}
