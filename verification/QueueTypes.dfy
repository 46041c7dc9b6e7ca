/** The queued message and its parts, with the integer widths of the server. */
module QueueTypes {
  import opened Prelude

  type byte = x: int | 0 <= x < 0x100
  type u16 = x: int | 0 <= x < 0x1_0000
  type u32 = x: int | 0 <= x < 0x1_0000_0000
  type u64 = x: int | 0 <= x < TWO_64
  type i16 = x: int | -0x8000 <= x < 0x8000

  const TWO_64: int := 0x1_0000_0000_0000_0000

  type Bytes = seq<byte>

  /** An owned string: well-formed UTF-8, of a length that fits the address space. */
  type Text = s: Bytes | ValidUtf8(s) && |s| < TWO_64

  predicate Continuation(b: byte) {
    0x80 <= b < 0xC0
  }

  /** The length of the well-formed scalar value encoding at the front of `s`, or 0 (table 3-7 of the Unicode standard). */
  function ScalarLength(s: Bytes): (n: nat)
    ensures n <= |s|
  {
    if s == [] then 0
    else if s[0] < 0x80 then 1
    else if |s| < 2 then 0
    else if 0xC2 <= s[0] < 0xE0 && Continuation(s[1]) then 2
    else if |s| < 3 || !Continuation(s[2]) then 0
    else if s[0] == 0xE0 && 0xA0 <= s[1] < 0xC0 then 3
    else if s[0] == 0xED && 0x80 <= s[1] < 0xA0 then 3
    else if 0xE1 <= s[0] < 0xF0 && s[0] != 0xED && Continuation(s[1]) then 3
    else if |s| < 4 || !Continuation(s[3]) then 0
    else if s[0] == 0xF0 && 0x90 <= s[1] < 0xC0 then 4
    else if s[0] == 0xF4 && 0x80 <= s[1] < 0x90 then 4
    else if 0xF1 <= s[0] < 0xF4 && Continuation(s[1]) then 4
    else 0
  }

  predicate ValidUtf8(s: Bytes) {
    s == [] || (ScalarLength(s) > 0 && ValidUtf8(s[ScalarLength(s)..]))
  }

  datatype Response = Response(code: u16, esc0: byte, esc1: byte, esc2: byte, message: Text)

  datatype HostResponse<T> = HostResponse(hostname: T, response: Response)

  datatype ErrorDetails = ErrorDetails(entity: Text, details: Text)

  datatype Error =
    | DnsError(text: Text)
    | UnexpectedResponse(reply: HostResponse<ErrorDetails>)
    | ConnectionError(info: ErrorDetails)
    | TlsError(info: ErrorDetails)
    | DaneError(info: ErrorDetails)
    | MtaStsError(text: Text)
    | RateLimited
    | ConcurrencyLimited
    | Io(text: Text)

  datatype Status<T, E> =
    | Scheduled
    | Completed(result: T)
    | TemporaryFailure(error: E)
    | PermanentFailure(error: E)
  {
    predicate Pending() { Scheduled? || TemporaryFailure? }

    predicate Terminal() { Completed? || PermanentFailure? }

    function IntoPermanent(): Status<T, E> {
      if TemporaryFailure? then PermanentFailure(error) else this
    }
  }

  type DomainStatus = Status<(), Error>
  type RcptStatus = Status<HostResponse<Text>, HostResponse<ErrorDetails>>

  /** A monotonic instant, in nanoseconds. */
  type Instant = int

  const NANOS: int := 1_000_000_000

  datatype Schedule = Schedule(inner: u32, due: Instant)

  datatype Domain = Domain(
    domain: Text, retry: Schedule, notify: Schedule, expires: Instant, status: DomainStatus, changed: bool)

  datatype Recipient = Recipient(
    domainIdx: u64, address: Text, status: RcptStatus, flags: RcptFlags, orcpt: Option<Text>)

  datatype Message = Message(
    created: u64, returnPath: Text, envId: Option<Text>, flags: u64, priority: i16,
    domains: seq<Domain>, recipients: seq<Recipient>)

  // ----- Recipient flags -----

  /** The bits of a recipient's flag word; `low` and `high` are the bits that the queue does not look at. */
  datatype Flags = Flags(
    notifySuccess: bool, notifyFailure: bool, notifyDelay: bool, notifyNever: bool,
    dsnSent: bool, statusChanged: bool, low: nat, high: nat)
  {
    predicate Valid() { low < 0x1000_0000 && high < 0x4000_0000 }
  }

  type RcptFlags = f: Flags | f.Valid() witness Flags(false, false, false, false, false, false, 0, 0)

  const NO_FLAGS: RcptFlags := Flags(false, false, false, false, false, false, 0, 0)

  /** The flag word: notify bits 0 to 3, `RCPT_DSN_SENT` bit 32, `RCPT_STATUS_CHANGED` bit 33. */
  function FlagWord(f: RcptFlags): u64 {
    LowWord(f) + 0x1_0000_0000 * HighWord(f)
  }

  function LowWord(f: RcptFlags): (w: nat)
    ensures w < 0x1_0000_0000
  {
    Push(f.notifySuccess, Push(f.notifyFailure, Push(f.notifyDelay, Push(f.notifyNever, f.low))))
  }

  function HighWord(f: RcptFlags): (w: nat)
    ensures w < 0x1_0000_0000
  {
    Push(f.dsnSent, Push(f.statusChanged, f.high))
  }

  /** `n` with one more bit below it. */
  function Push(b: bool, n: nat): nat {
    2 * n + if b then 1 else 0
  }

  function FlagsOf(word: u64): RcptFlags {
    var (l, h) := Split(word, 0x1_0000_0000);
    var low, high := LowFlags(l), HighFlags(h);
    Flags(low.0, low.1, low.2, low.3, high.0, high.1, low.4, high.2)
  }

  function LowFlags(l: nat): (r: (bool, bool, bool, bool, nat))
    ensures l < 0x1_0000_0000 ==> r.4 < 0x1000_0000
  {
    var (b0, l1) := Split(l, 2);
    var (b1, l2) := Split(l1, 2);
    var (b2, l3) := Split(l2, 2);
    var (b3, low) := Split(l3, 2);
    (b0 == 1, b1 == 1, b2 == 1, b3 == 1, low)
  }

  function HighFlags(h: nat): (r: (bool, bool, nat))
    ensures h < 0x1_0000_0000 ==> r.2 < 0x4000_0000
  {
    var (b4, h1) := Split(h, 2);
    var (b5, high) := Split(h1, 2);
    (b4 == 1, b5 == 1, high)
  }

  function Split(n: nat, base: nat): (p: (nat, nat))
    requires base > 0
    ensures p.0 < base && n == p.0 + base * p.1
  {
    (n % base, n / base)
  }

  lemma SplitOf(base: nat, r: nat, q: nat)
    requires r < base
    ensures Split(r + base * q, base) == (r, q)
  {
    var n := r + base * q;
    var d := n / base - q;
    assert base * d == r - n % base;
    if d != 0 {
      BigMultiple(base, d);
    }
  }

  lemma BigMultiple(base: nat, d: int)
    requires base > 0 && d != 0
    ensures base * d >= base || base * d <= -(base as int)
  {
    if d > 0 {
      assert base * (d - 1) >= 0;
    } else {
      assert base * (-d - 1) >= 0;
    }
  }

  lemma PushSplit(b: bool, n: nat)
    ensures Split(Push(b, n), 2) == (if b then 1 else 0, n)
  {
    SplitOf(2, if b then 1 else 0, n);
  }

  lemma LowFlagsOf(f: RcptFlags)
    ensures LowFlags(LowWord(f)) == (f.notifySuccess, f.notifyFailure, f.notifyDelay, f.notifyNever, f.low)
  {
    var l3 := Push(f.notifyNever, f.low);
    var l2 := Push(f.notifyDelay, l3);
    PushSplit(f.notifyNever, f.low);
    PushSplit(f.notifyDelay, l3);
    PushSplit(f.notifyFailure, l2);
    PushSplit(f.notifySuccess, Push(f.notifyFailure, l2));
  }

  lemma HighFlagsOf(f: RcptFlags)
    ensures HighFlags(HighWord(f)) == (f.dsnSent, f.statusChanged, f.high)
  {
    PushSplit(f.statusChanged, f.high);
    PushSplit(f.dsnSent, Push(f.statusChanged, f.high));
  }

  lemma FlagWordRoundTrip(f: RcptFlags)
    ensures FlagsOf(FlagWord(f)) == f
  {
    SplitOf(0x1_0000_0000, LowWord(f), HighWord(f));
    LowFlagsOf(f);
    HighFlagsOf(f);
  }
}
