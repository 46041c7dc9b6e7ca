/** Errors, statuses and the journal records that carry them. */
module StatusCodec {
  import opened QueueTypes
  import opened Codec

  // ----- Errors -----

  const TAG_0: byte := 0x30

  function PrintError(e: Error): Bytes {
    match e
    case DnsError(t) => [TAG_0] + PrintText(t)
    case UnexpectedResponse(h) => [TAG_0 + 1] + PrintRejected(h)
    case ConnectionError(d) => [TAG_0 + 2] + PrintDetails(d)
    case TlsError(d) => [TAG_0 + 3] + PrintDetails(d)
    case DaneError(d) => [TAG_0 + 4] + PrintDetails(d)
    case MtaStsError(t) => [TAG_0 + 5] + PrintText(t)
    case RateLimited => [TAG_0 + 6]
    case ConcurrencyLimited => [TAG_0 + 7]
    case Io(t) => [TAG_0 + 8] + PrintText(t)
  }

  function ParseError(s: Bytes): (p: Parsed<Error>)
    ensures p.Done? ==> |p.rest| < |s|
  {
    if s == [] then Fail
    else if s[0] in [TAG_0, TAG_0 + 5, TAG_0 + 8] then
      (match ParseText(s[1..])
       case Fail => Fail
       case Done(t, rest) =>
         Done(if s[0] == TAG_0 then DnsError(t) else if s[0] == TAG_0 + 5 then MtaStsError(t) else Io(t), rest))
    else if s[0] == TAG_0 + 1 then
      (match ParseRejected(s[1..])
       case Fail => Fail
       case Done(h, rest) => Done(UnexpectedResponse(h), rest))
    else if s[0] in [TAG_0 + 2, TAG_0 + 3, TAG_0 + 4] then
      (match ParseDetails(s[1..])
       case Fail => Fail
       case Done(d, rest) =>
         Done(if s[0] == TAG_0 + 2 then ConnectionError(d) else if s[0] == TAG_0 + 3 then TlsError(d) else DaneError(d), rest))
    else if s[0] == TAG_0 + 6 then Done(RateLimited, s[1..])
    else if s[0] == TAG_0 + 7 then Done(ConcurrencyLimited, s[1..])
    else Fail
  }

  predicate FitsError(e: Error) {
    match e
    case DnsError(t) => FitsText(t)
    case UnexpectedResponse(h) => FitsRejected(h)
    case ConnectionError(d) => FitsDetails(d)
    case TlsError(d) => FitsDetails(d)
    case DaneError(d) => FitsDetails(d)
    case MtaStsError(t) => FitsText(t)
    case RateLimited => true
    case ConcurrencyLimited => true
    case Io(t) => FitsText(t)
  }

  /** The same kind of error, with its last string cut short. */
  predicate ShortenedError(e: Error, e': Error) {
    match (e, e')
    case (DnsError(t), DnsError(t')) => Shortened(t, t')
    case (UnexpectedResponse(h), UnexpectedResponse(h')) => ShortenedHost(h, h')
    case (ConnectionError(d), ConnectionError(d')) => ShortenedDetails(d, d')
    case (TlsError(d), TlsError(d')) => ShortenedDetails(d, d')
    case (DaneError(d), DaneError(d')) => ShortenedDetails(d, d')
    case (MtaStsError(t), MtaStsError(t')) => Shortened(t, t')
    case (Io(t), Io(t')) => Shortened(t, t')
    case _ => false
  }

  /** A tag in front of a printed value. */
  lemma Tagged(tag: byte, body: Bytes, k: Bytes, n: nat)
    requires n < |[tag] + body|
    ensures ([tag] + body) + k == [tag] + (body + k)
    ensures ([tag] + (body + k))[1..] == body + k
    ensures ([tag] + body)[..n] == if n == 0 then [] else [tag] + body[..n - 1]
    ensures n > 0 ==> ([tag] + body)[..n][1..] == body[..n - 1]
  {
  }

  lemma ErrorRoundTrip(e: Error, k: Bytes)
    ensures ParseError(PrintError(e) + k) == if FitsError(e) then Done(e, k) else Fail
  {
    hide PrintText, ParseText, FitsText, PrintDetails, ParseDetails, FitsDetails, PrintRejected, ParseRejected, FitsRejected;
    var tag, body := PrintError(e)[0], PrintError(e)[1..];
    assert PrintError(e) == [tag] + body;
    Tagged(tag, body, k, 0);
    match e
    case DnsError(t) => TextRoundTrip(t, k);
    case UnexpectedResponse(h) => RejectedRoundTrip(h, k);
    case ConnectionError(d) => DetailsRoundTrip(d, k);
    case TlsError(d) => DetailsRoundTrip(d, k);
    case DaneError(d) => DetailsRoundTrip(d, k);
    case MtaStsError(t) => TextRoundTrip(t, k);
    case RateLimited =>
    case ConcurrencyLimited =>
    case Io(t) => TextRoundTrip(t, k);
  }

  lemma TextErrorCut(e: Error, t: Text, n: nat)
    requires e == DnsError(t) || e == MtaStsError(t) || e == Io(t)
    requires 0 < n < |PrintError(e)| && FitsError(e)
    ensures
      var p := ParseError(PrintError(e)[..n]);
      p.Fail? || (p.rest == [] && ShortenedError(e, p.value))
  {
    hide PrintText, ParseText, FitsText, Shortened;
    Tagged(PrintError(e)[0], PrintText(t), [], n);
    TextCut(t, n - 1);
  }

  lemma DetailsErrorCut(e: Error, d: ErrorDetails, n: nat)
    requires e == ConnectionError(d) || e == TlsError(d) || e == DaneError(d)
    requires 0 < n < |PrintError(e)| && FitsError(e)
    ensures
      var p := ParseError(PrintError(e)[..n]);
      p.Fail? || (p.rest == [] && ShortenedError(e, p.value))
  {
    hide PrintDetails, ParseDetails, FitsDetails, ShortenedDetails;
    Tagged(PrintError(e)[0], PrintDetails(d), [], n);
    DetailsCut(d, n - 1);
  }

  lemma ReplyErrorCut(e: Error, n: nat)
    requires e.UnexpectedResponse? && 0 < n < |PrintError(e)| && FitsError(e)
    ensures
      var p := ParseError(PrintError(e)[..n]);
      p.Fail? || (p.rest == [] && ShortenedError(e, p.value))
  {
    hide PrintRejected, ParseRejected, FitsRejected, ShortenedHost;
    Tagged(PrintError(e)[0], PrintRejected(e.reply), [], n);
    RejectedCut(e.reply, n - 1);
  }

  lemma ErrorCut(e: Error, n: nat)
    requires n < |PrintError(e)| && FitsError(e)
    ensures
      var p := ParseError(PrintError(e)[..n]);
      p.Fail? || (p.rest == [] && ShortenedError(e, p.value))
  {
    hide PrintText, PrintDetails, PrintRejected, ParseError, ShortenedError, FitsError;
    if n > 0 {
      match e
      case DnsError(t) => TextErrorCut(e, t, n);
      case UnexpectedResponse(h) => ReplyErrorCut(e, n);
      case ConnectionError(d) => DetailsErrorCut(e, d, n);
      case TlsError(d) => DetailsErrorCut(e, d, n);
      case DaneError(d) => DetailsErrorCut(e, d, n);
      case MtaStsError(t) => TextErrorCut(e, t, n);
      case Io(t) => TextErrorCut(e, t, n);
    }
  }

  // ----- Statuses -----

  const TAG_S: byte := 0x53
  const TAG_C: byte := 0x43
  const TAG_T: byte := 0x54
  const TAG_F: byte := 0x46

  function PrintDomainStatus(s: DomainStatus): Bytes {
    match s
    case Scheduled => [TAG_S]
    case Completed(_) => [TAG_C]
    case TemporaryFailure(e) => [TAG_T] + PrintError(e)
    case PermanentFailure(e) => [TAG_F] + PrintError(e)
  }

  function ParseDomainStatus(s: Bytes): (p: Parsed<DomainStatus>)
    ensures p.Done? ==> |p.rest| < |s|
  {
    if s == [] then Fail
    else if s[0] == TAG_S then Done(Scheduled, s[1..])
    else if s[0] == TAG_C then Done(Completed(()), s[1..])
    else if s[0] == TAG_T || s[0] == TAG_F then
      match ParseError(s[1..])
      case Fail => Fail
      case Done(e, rest) => Done(if s[0] == TAG_T then TemporaryFailure(e) else PermanentFailure(e), rest)
    else Fail
  }

  predicate FitsDomainStatus(s: DomainStatus) {
    s.TemporaryFailure? || s.PermanentFailure? ==> FitsError(s.error)
  }

  predicate ShortenedDomainStatus(s: DomainStatus, s': DomainStatus) {
    || (s.TemporaryFailure? && s'.TemporaryFailure? && ShortenedError(s.error, s'.error))
    || (s.PermanentFailure? && s'.PermanentFailure? && ShortenedError(s.error, s'.error))
  }

  lemma DomainStatusRoundTrip(s: DomainStatus, k: Bytes)
    ensures ParseDomainStatus(PrintDomainStatus(s) + k) == if FitsDomainStatus(s) then Done(s, k) else Fail
  {
    hide PrintError, ParseError, FitsError;
    var tag, body := PrintDomainStatus(s)[0], PrintDomainStatus(s)[1..];
    assert PrintDomainStatus(s) == [tag] + body;
    Tagged(tag, body, k, 0);
    match s
    case Scheduled =>
    case Completed(unit) => assert unit == ();
    case TemporaryFailure(e) => ErrorRoundTrip(e, k);
    case PermanentFailure(e) => ErrorRoundTrip(e, k);
  }

  lemma DomainStatusCut(s: DomainStatus, n: nat)
    requires n < |PrintDomainStatus(s)| && FitsDomainStatus(s)
    ensures
      var p := ParseDomainStatus(PrintDomainStatus(s)[..n]);
      p.Fail? || (p.rest == [] && ShortenedDomainStatus(s, p.value))
  {
    hide PrintError, ParseError, FitsError, ShortenedError;
    if n > 0 {
      var tag, body := PrintDomainStatus(s)[0], PrintDomainStatus(s)[1..];
      assert PrintDomainStatus(s) == [tag] + body;
      Tagged(tag, body, [], n);
      ErrorCut(s.error, n - 1);
    }
  }

  function PrintRcptStatus(s: RcptStatus): Bytes {
    match s
    case Scheduled => [TAG_S]
    case Completed(h) => [TAG_C] + PrintDelivered(h)
    case TemporaryFailure(h) => [TAG_T] + PrintRejected(h)
    case PermanentFailure(h) => [TAG_F] + PrintRejected(h)
  }

  function ParseRcptStatus(s: Bytes): (p: Parsed<RcptStatus>)
    ensures p.Done? ==> |p.rest| < |s|
  {
    if s == [] then Fail
    else if s[0] == TAG_S then Done(Scheduled, s[1..])
    else if s[0] == TAG_C then
      (match ParseDelivered(s[1..])
       case Fail => Fail
       case Done(h, rest) => Done(Completed(h), rest))
    else if s[0] == TAG_T || s[0] == TAG_F then
      match ParseRejected(s[1..])
      case Fail => Fail
      case Done(h, rest) => Done(if s[0] == TAG_T then TemporaryFailure(h) else PermanentFailure(h), rest)
    else Fail
  }

  predicate FitsRcptStatus(s: RcptStatus) {
    match s
    case Scheduled => true
    case Completed(h) => FitsDelivered(h)
    case TemporaryFailure(h) => FitsRejected(h)
    case PermanentFailure(h) => FitsRejected(h)
  }

  predicate ShortenedRcptStatus(s: RcptStatus, s': RcptStatus) {
    || (s.Completed? && s'.Completed? && ShortenedHost(s.result, s'.result))
    || (s.TemporaryFailure? && s'.TemporaryFailure? && ShortenedHost(s.error, s'.error))
    || (s.PermanentFailure? && s'.PermanentFailure? && ShortenedHost(s.error, s'.error))
  }

  lemma RcptStatusRoundTrip(s: RcptStatus, k: Bytes)
    ensures ParseRcptStatus(PrintRcptStatus(s) + k) == if FitsRcptStatus(s) then Done(s, k) else Fail
  {
    hide ParseDelivered, ParseRejected, PrintDelivered, PrintRejected, FitsDelivered, FitsRejected;
    var tag, body := PrintRcptStatus(s)[0], PrintRcptStatus(s)[1..];
    assert PrintRcptStatus(s) == [tag] + body;
    Tagged(tag, body, k, 0);
    match s
    case Scheduled =>
    case Completed(h) => DeliveredRoundTrip(h, k);
    case TemporaryFailure(h) => RejectedRoundTrip(h, k);
    case PermanentFailure(h) => RejectedRoundTrip(h, k);
  }

  lemma RcptStatusCut(s: RcptStatus, n: nat)
    requires n < |PrintRcptStatus(s)| && FitsRcptStatus(s)
    ensures
      var p := ParseRcptStatus(PrintRcptStatus(s)[..n]);
      p.Fail? || (p.rest == [] && ShortenedRcptStatus(s, p.value))
  {
    hide ParseDelivered, ParseRejected, PrintDelivered, PrintRejected, ShortenedHost, FitsDelivered, FitsRejected;
    if n > 0 {
      var tag, body := PrintRcptStatus(s)[0], PrintRcptStatus(s)[1..];
      assert PrintRcptStatus(s) == [tag] + body;
      Tagged(tag, body, [], n);
      match s
      case Completed(h) => DeliveredCut(h, n - 1);
      case TemporaryFailure(h) => RejectedCut(h, n - 1);
      case PermanentFailure(h) => RejectedCut(h, n - 1);
    }
  }

  // ----- Records -----

  /** A retry or notify schedule as it stands in the file: its counter and a wall-clock second. */
  datatype Mark = Mark(inner: u32, at: u64)

  /** The status record of one domain or one recipient. */
  datatype Record =
    | DomainRecord(idx: u64, retry: Mark, notify: Mark, domainStatus: DomainStatus)
    | RcptRecord(idx: u64, flags: RcptFlags, rcptStatus: RcptStatus)

  const TAG_D: byte := 0x44
  const TAG_R: byte := 0x52

  function PrintRecord(r: Record): Bytes {
    PrintHead(if r.DomainRecord? then TAG_D else TAG_R, r.idx) + PrintBody(r)
  }

  function PrintHead(tag: byte, idx: u64): Bytes {
    [tag] + PrintNat(idx)
  }

  function PrintBody(r: Record): Bytes {
    match r
    case DomainRecord(_, retry, notify, status) => PrintMarks(retry, notify) + PrintDomainStatus(status)
    case RcptRecord(_, flags, status) => PrintNat(FlagWord(flags)) + PrintRcptStatus(status)
  }

  function PrintMarks(retry: Mark, notify: Mark): Bytes {
    PrintPair(retry.inner, retry.at) + PrintPair(notify.inner, notify.at)
  }

  function ParseMark(s: Bytes): (p: Parsed<Mark>)
    ensures p.Done? ==> |p.rest| < |s|
  {
    match ParsePair(s)
    case Fail => Fail
    case Done((inner, at), rest) => Done(Mark(inner % 0x1_0000_0000, at), rest)
  }

  function ParseMarks(s: Bytes): (p: Parsed<(Mark, Mark)>)
    ensures p.Done? ==> |p.rest| < |s|
  {
    match ParseMark(s)
    case Fail => Fail
    case Done(retry, rest) =>
      match ParseMark(rest)
      case Fail => Fail
      case Done(notify, rest) => Done((retry, notify), rest)
  }

  /** The byte and the number that every record starts with. */
  function ParseHead(s: Bytes): (p: Parsed<(byte, u64)>)
    ensures p.Done? ==> |p.rest| < |s|
  {
    if s == [] then Fail
    else match ParseNat(s[1..], 0)
      case Fail => Fail
      case Done(idx, rest) => Done((s[0], idx), rest)
  }

  function ParseBody(tag: byte, idx: u64, s: Bytes): (p: Parsed<Record>)
    ensures p.Done? ==> |p.rest| < |s|
  {
    if tag == TAG_D then
      (match ParseMarks(s)
       case Fail => Fail
       case Done((retry, notify), rest) =>
         match ParseDomainStatus(rest)
         case Fail => Fail
         case Done(status, rest) => Done(DomainRecord(idx, retry, notify, status), rest))
    else if tag == TAG_R then
      (match ParseNat(s, 0)
       case Fail => Fail
       case Done(word, rest) =>
         match ParseRcptStatus(rest)
         case Fail => Fail
         case Done(status, rest) => Done(RcptRecord(idx, FlagsOf(word), status), rest))
    else Fail
  }

  function ParseRecord(s: Bytes): (p: Parsed<Record>)
    ensures p.Done? ==> |p.rest| < |s|
  {
    match ParseHead(s)
    case Fail => Fail
    case Done((tag, idx), rest) => ParseBody(tag, idx, rest)
  }

  predicate FitsRecord(r: Record) {
    match r
    case DomainRecord(_, _, _, status) => FitsDomainStatus(status)
    case RcptRecord(_, _, status) => FitsRcptStatus(status)
  }

  /** The same record, except that the last string of its status is cut short. */
  predicate ShortenedRecord(r: Record, r': Record) {
    || (r.DomainRecord? && r'.DomainRecord? && r' == r.(domainStatus := r'.domainStatus)
        && ShortenedDomainStatus(r.domainStatus, r'.domainStatus))
    || (r.RcptRecord? && r'.RcptRecord? && r' == r.(rcptStatus := r'.rcptStatus)
        && ShortenedRcptStatus(r.rcptStatus, r'.rcptStatus))
  }

  lemma HeadRoundTrip(tag: byte, idx: u64, k: Bytes)
    ensures ParseHead(PrintHead(tag, idx) + k) == Done((tag, idx), k)
  {
    hide PrintNat, ParseNat;
    Tagged(tag, PrintNat(idx), k, 0);
    NatRoundTrip(idx, k);
  }

  lemma HeadCut(tag: byte, idx: u64, n: nat)
    requires n < |PrintHead(tag, idx)|
    ensures ParseHead(PrintHead(tag, idx)[..n]) == Fail
  {
    hide PrintNat, ParseNat;
    Tagged(tag, PrintNat(idx), [], n);
    if n > 0 {
      NatCut(idx, n - 1);
    }
  }

  lemma MarksRoundTrip(retry: Mark, notify: Mark, k: Bytes)
    ensures ParseMarks(PrintMarks(retry, notify) + k) == Done((retry, notify), k)
  {
    hide PrintPair, ParsePair;
    var b := PrintPair(notify.inner, notify.at);
    assert PrintMarks(retry, notify) + k == PrintPair(retry.inner, retry.at) + (b + k);
    PairRoundTrip(retry.inner, retry.at, b + k);
    PairRoundTrip(notify.inner, notify.at, k);
  }

  lemma MarksCut(retry: Mark, notify: Mark, n: nat)
    requires n < |PrintMarks(retry, notify)|
    ensures ParseMarks(PrintMarks(retry, notify)[..n]) == Fail
  {
    hide PrintPair, ParsePair;
    var a, b := PrintPair(retry.inner, retry.at), PrintPair(notify.inner, notify.at);
    Cut(a, b, n);
    if n < |a| {
      PairCut(retry.inner, retry.at, n);
    } else {
      PairRoundTrip(retry.inner, retry.at, b[..n - |a|]);
      PairCut(notify.inner, notify.at, n - |a|);
    }
  }

  lemma DomainBodyRoundTrip(r: Record, k: Bytes)
    requires r.DomainRecord?
    ensures ParseBody(TAG_D, r.idx, PrintBody(r) + k) == if FitsRecord(r) then Done(r, k) else Fail
  {
    hide PrintMarks, ParseMarks, PrintDomainStatus, ParseDomainStatus, FitsDomainStatus;
    var c := PrintDomainStatus(r.domainStatus);
    assert PrintBody(r) + k == PrintMarks(r.retry, r.notify) + (c + k);
    MarksRoundTrip(r.retry, r.notify, c + k);
    DomainStatusRoundTrip(r.domainStatus, k);
  }

  lemma RcptBodyRoundTrip(r: Record, k: Bytes)
    requires r.RcptRecord?
    ensures ParseBody(TAG_R, r.idx, PrintBody(r) + k) == if FitsRecord(r) then Done(r, k) else Fail
  {
    hide PrintNat, ParseNat, FlagWord, FlagsOf, PrintRcptStatus, ParseRcptStatus, FitsRcptStatus;
    var c := PrintRcptStatus(r.rcptStatus);
    assert PrintBody(r) + k == PrintNat(FlagWord(r.flags)) + (c + k);
    NatRoundTrip(FlagWord(r.flags), c + k);
    FlagWordRoundTrip(r.flags);
    RcptStatusRoundTrip(r.rcptStatus, k);
  }

  lemma DomainBodyCut(r: Record, n: nat)
    requires r.DomainRecord? && n < |PrintBody(r)| && FitsRecord(r)
    ensures
      var p := ParseBody(TAG_D, r.idx, PrintBody(r)[..n]);
      p.Fail? || (p.rest == [] && ShortenedRecord(r, p.value))
  {
    hide PrintMarks, ParseMarks, PrintDomainStatus, ParseDomainStatus, FitsDomainStatus, ShortenedDomainStatus;
    var a, c := PrintMarks(r.retry, r.notify), PrintDomainStatus(r.domainStatus);
    Cut(a, c, n);
    if n < |a| {
      MarksCut(r.retry, r.notify, n);
    } else {
      MarksRoundTrip(r.retry, r.notify, c[..n - |a|]);
      DomainStatusCut(r.domainStatus, n - |a|);
    }
  }

  lemma RcptBodyCut(r: Record, n: nat)
    requires r.RcptRecord? && n < |PrintBody(r)| && FitsRecord(r)
    ensures
      var p := ParseBody(TAG_R, r.idx, PrintBody(r)[..n]);
      p.Fail? || (p.rest == [] && ShortenedRecord(r, p.value))
  {
    hide PrintNat, ParseNat, FlagWord, FlagsOf, PrintRcptStatus, ParseRcptStatus, FitsRcptStatus, ShortenedRcptStatus;
    var a, c := PrintNat(FlagWord(r.flags)), PrintRcptStatus(r.rcptStatus);
    Cut(a, c, n);
    if n < |a| {
      NatCut(FlagWord(r.flags), n);
    } else {
      NatRoundTrip(FlagWord(r.flags), c[..n - |a|]);
      FlagWordRoundTrip(r.flags);
      RcptStatusCut(r.rcptStatus, n - |a|);
    }
  }

  /** A record is read back; one with a string over the limit is refused. */
  lemma RecordRoundTrip(r: Record, k: Bytes)
    ensures ParseRecord(PrintRecord(r) + k) == if FitsRecord(r) then Done(r, k) else Fail
  {
    hide PrintHead, ParseHead, PrintBody, ParseBody, FitsRecord;
    var tag := if r.DomainRecord? then TAG_D else TAG_R;
    assert PrintRecord(r) + k == PrintHead(tag, r.idx) + (PrintBody(r) + k);
    HeadRoundTrip(tag, r.idx, PrintBody(r) + k);
    if r.DomainRecord? {
      DomainBodyRoundTrip(r, k);
    } else {
      RcptBodyRoundTrip(r, k);
    }
  }

  /** A record cut anywhere inside is refused, or read with only its last string shortened. */
  lemma RecordCut(r: Record, n: nat)
    requires n < |PrintRecord(r)| && FitsRecord(r)
    ensures
      var p := ParseRecord(PrintRecord(r)[..n]);
      p.Fail? || (p.rest == [] && ShortenedRecord(r, p.value))
  {
    hide PrintHead, ParseHead, PrintBody, ParseBody, FitsRecord, ShortenedRecord;
    var tag := if r.DomainRecord? then TAG_D else TAG_R;
    var head := PrintHead(tag, r.idx);
    Cut(head, PrintBody(r), n);
    if n < |head| {
      HeadCut(tag, r.idx, n);
    } else {
      var m := n - |head|;
      HeadRoundTrip(tag, r.idx, PrintBody(r)[..m]);
      if r.DomainRecord? {
        DomainBodyCut(r, m);
      } else {
        RcptBodyCut(r, m);
      }
    }
  }
}
