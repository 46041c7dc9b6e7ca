/**
  The text format of the queue file: printers, parsers, and for every value three laws —
  it is read back from its printed form, it is refused when one of its strings is too long,
  and a cut inside its printed form is refused or shortens its last string only.
*/
module Codec {
  import opened QueueTypes

  const SPACE: byte := 0x20
  const MAX_TEXT: nat := 4096

  datatype Parsed<+T> = Fail | Done(value: T, rest: Bytes)

  function Digit(d: nat): byte
    requires d < 10
  {
    0x30 + d
  }

  predicate IsDigit(b: byte) {
    0x30 <= b <= 0x39
  }

  lemma Cut(a: Bytes, b: Bytes, n: nat)
    requires n <= |a + b|
    ensures (a + b)[..n] == if n < |a| then a[..n] else a + b[..n - |a|]
  {
  }

  // ----- Numbers -----

  function Decimal(n: nat): (s: Bytes)
    ensures s != []
  {
    if n < 10 then [Digit(n)] else Decimal(n / 10) + [Digit(n % 10)]
  }

  function PrintNat(n: nat): Bytes {
    Decimal(n) + [SPACE]
  }

  /** Digits up to a space; the accumulator is a machine word and wraps. */
  function ParseNat(s: Bytes, acc: u64): (p: Parsed<u64>)
    ensures p.Done? ==> |p.rest| < |s|
  {
    if s == [] then Fail
    else if IsDigit(s[0]) then ParseNat(s[1..], (acc * 10 + (s[0] - 0x30)) % TWO_64)
    else if s[0] == SPACE then Done(acc, s[1..])
    else Fail
  }

  lemma LastDigit(n: u64)
    ensures ((n / 10) * 10 + n % 10) % TWO_64 == n
  {
  }

  lemma {:induction false} ParseDecimal(n: u64, k: Bytes)
    ensures ParseNat(Decimal(n) + k, 0) == ParseNat(k, n)
  {
    if n < 10 {
      assert ([Digit(n)] + k)[1..] == k;
    } else {
      var d := [Digit(n % 10)];
      ParseDecimal(n / 10, d + k);
      LastDigit(n);
      assert Decimal(n) + k == Decimal(n / 10) + (d + k);
      assert (d + k)[1..] == k;
    }
  }

  lemma {:induction false} DecimalDigits(n: nat)
    ensures forall i | 0 <= i < |Decimal(n)| :: IsDigit(Decimal(n)[i])
  {
    if n >= 10 {
      DecimalDigits(n / 10);
    }
  }

  lemma {:induction false} ParseUnterminated(s: Bytes, acc: u64)
    requires forall i | 0 <= i < |s| :: IsDigit(s[i])
    ensures ParseNat(s, acc) == Fail
  {
    if s != [] {
      ParseUnterminated(s[1..], (acc * 10 + (s[0] - 0x30)) % TWO_64);
    }
  }

  lemma NatRoundTrip(n: u64, k: Bytes)
    ensures ParseNat(PrintNat(n) + k, 0) == Done(n, k)
  {
    assert PrintNat(n) + k == Decimal(n) + ([SPACE] + k);
    ParseDecimal(n, [SPACE] + k);
    assert ([SPACE] + k)[1..] == k;
  }

  lemma NatCut(n: nat, i: nat)
    requires i < |PrintNat(n)|
    ensures ParseNat(PrintNat(n)[..i], 0) == Fail
  {
    DecimalDigits(n);
    assert PrintNat(n)[..i] == Decimal(n)[..i];
    ParseUnterminated(Decimal(n)[..i], 0);
  }

  function PrintPair(a: nat, b: nat): Bytes {
    PrintNat(a) + PrintNat(b)
  }

  function ParsePair(s: Bytes): (p: Parsed<(u64, u64)>)
    ensures p.Done? ==> |p.rest| < |s|
  {
    match ParseNat(s, 0)
    case Fail => Fail
    case Done(a, rest) =>
      match ParseNat(rest, 0)
      case Fail => Fail
      case Done(b, rest) => Done((a, b), rest)
  }

  lemma PairRoundTrip(a: u64, b: u64, k: Bytes)
    ensures ParsePair(PrintPair(a, b) + k) == Done((a, b), k)
  {
    hide PrintNat, ParseNat;
    assert PrintPair(a, b) + k == PrintNat(a) + (PrintNat(b) + k);
    NatRoundTrip(a, PrintNat(b) + k);
    NatRoundTrip(b, k);
  }

  lemma PairCut(a: u64, b: u64, n: nat)
    requires n < |PrintPair(a, b)|
    ensures ParsePair(PrintPair(a, b)[..n]) == Fail
  {
    hide PrintNat, ParseNat;
    var p := PrintNat(a);
    Cut(p, PrintNat(b), n);
    if n < |p| {
      NatCut(a, n);
    } else {
      NatRoundTrip(a, PrintNat(b)[..n - |p|]);
      NatCut(b, n - |p|);
    }
  }

  // ----- Priorities -----

  const MINUS: byte := 0x2D

  function Magnitude(p: int): nat { if p < 0 then -p else p }

  function PrintI16(p: i16): Bytes {
    if p < 0 then [MINUS] + PrintNat(Magnitude(p)) else PrintNat(Magnitude(p))
  }

  /** Two's complement wrap-around. */
  function Wrap16(n: int): i16 {
    (n + 0x8000) % 0x1_0000 - 0x8000
  }

  /** A minus sign anywhere among the digits flips the result. */
  function ParseI16(s: Bytes, acc: i16, mul: int): (p: Parsed<i16>)
    requires mul == 1 || mul == -1
    ensures p.Done? ==> |p.rest| < |s|
  {
    if s == [] then Fail
    else if IsDigit(s[0]) then ParseI16(s[1..], Wrap16(acc * 10 + (s[0] - 0x30)), mul)
    else if s[0] == SPACE then Done(Wrap16(acc * mul), s[1..])
    else if s[0] == MINUS then ParseI16(s[1..], acc, -1)
    else Fail
  }

  lemma Wrap16Step(n: nat)
    requires 10 <= n <= 0x8000
    ensures Wrap16(Wrap16(n / 10) * 10 + n % 10) == Wrap16(n)
  {
    assert Wrap16(n / 10) == n / 10;
  }

  lemma {:induction false} ParseI16Decimal(n: nat, k: Bytes, mul: int)
    requires n <= 0x8000 && (mul == 1 || mul == -1)
    ensures ParseI16(Decimal(n) + k, 0, mul) == ParseI16(k, Wrap16(n), mul)
  {
    if n < 10 {
      assert ([Digit(n)] + k)[1..] == k;
    } else {
      var d := [Digit(n % 10)];
      ParseI16Decimal(n / 10, d + k, mul);
      Wrap16Step(n);
      assert Decimal(n) + k == Decimal(n / 10) + (d + k);
      assert (d + k)[1..] == k;
    }
  }

  lemma WrapBack(p: i16)
    ensures if p < 0 then Wrap16(0 - Wrap16(Magnitude(p))) == p else Wrap16(Wrap16(Magnitude(p))) == p
  {
  }

  lemma ParseI16Ends(k: Bytes, acc: i16)
    ensures ParseI16([SPACE] + k, acc, 1) == Done(Wrap16(acc), k)
    ensures ParseI16([SPACE] + k, acc, -1) == Done(Wrap16(0 - acc), k)
  {
    assert ([SPACE] + k)[1..] == k;
  }

  lemma ParseI16Minus(k: Bytes)
    ensures ParseI16([MINUS] + k, 0, 1) == ParseI16(k, 0, -1)
  {
    assert ([MINUS] + k)[1..] == k;
  }

  /** Every 16-bit priority is read back, the most negative one included. */
  lemma I16RoundTrip(p: i16, k: Bytes)
    ensures ParseI16(PrintI16(p) + k, 0, 1) == Done(p, k)
  {
    hide ParseI16, Wrap16, Decimal;
    var n := Magnitude(p);
    var tail := [SPACE] + k;
    assert PrintNat(n) + k == Decimal(n) + tail;
    var mul := if p < 0 then -1 else 1;
    ParseI16Decimal(n, tail, mul);
    ParseI16Ends(k, Wrap16(n));
    WrapBack(p);
    if p < 0 {
      assert PrintI16(p) + k == [MINUS] + (Decimal(n) + tail);
      ParseI16Minus(Decimal(n) + tail);
    }
  }

  // ----- Strings -----

  function PrintText(s: Text): Bytes {
    PrintNat(|s|) + s
  }

  function ParseText(s: Bytes): (p: Parsed<Text>)
    ensures p.Done? ==> |p.rest| < |s|
  {
    match ParseNat(s, 0)
    case Fail => Fail
    case Done(len, rest) =>
      if len == 0 then Done([], rest)
      else if len > MAX_TEXT then Fail
      else
        var taken := if len <= |rest| then rest[..len] else rest;
        if ValidUtf8(taken) then Done(taken, rest[|taken|..]) else Fail
  }

  predicate FitsText(s: Text) { |s| <= MAX_TEXT }

  /** What a cut leaves of a string. */
  predicate Shortened(s: Text, s': Text) {
    s' < s
  }

  lemma TextRoundTrip(s: Text, k: Bytes)
    ensures ParseText(PrintText(s) + k) == if FitsText(s) then Done(s, k) else Fail
  {
    hide PrintNat, ParseNat;
    NatRoundTrip(|s|, s + k);
    assert PrintText(s) + k == PrintNat(|s|) + (s + k);
    assert (s + k)[..|s|] == s && (s + k)[|s|..] == k;
  }

  lemma TextCut(s: Text, n: nat)
    requires n < |PrintText(s)| && FitsText(s)
    ensures
      var p := ParseText(PrintText(s)[..n]);
      p.Fail? || (p.rest == [] && Shortened(s, p.value))
  {
    hide PrintNat, ParseNat;
    Cut(PrintNat(|s|), s, n);
    if n < |PrintNat(|s|)| {
      NatCut(|s|, n);
    } else {
      var left := s[..n - |PrintNat(|s|)|];
      NatRoundTrip(|s|, left);
    }
  }

  // ----- Error details -----

  function PrintDetails(d: ErrorDetails): Bytes {
    PrintText(d.entity) + PrintText(d.details)
  }

  function ParseDetails(s: Bytes): (p: Parsed<ErrorDetails>)
    ensures p.Done? ==> |p.rest| < |s|
  {
    match ParseText(s)
    case Fail => Fail
    case Done(entity, rest) =>
      match ParseText(rest)
      case Fail => Fail
      case Done(details, rest) => Done(ErrorDetails(entity, details), rest)
  }

  predicate FitsDetails(d: ErrorDetails) { FitsText(d.entity) && FitsText(d.details) }

  predicate ShortenedDetails(d: ErrorDetails, d': ErrorDetails) {
    d'.entity == d.entity && Shortened(d.details, d'.details)
  }

  lemma DetailsRoundTrip(d: ErrorDetails, k: Bytes)
    ensures ParseDetails(PrintDetails(d) + k) == if FitsDetails(d) then Done(d, k) else Fail
  {
    hide PrintText, ParseText, FitsText;
    assert PrintDetails(d) + k == PrintText(d.entity) + (PrintText(d.details) + k);
    TextRoundTrip(d.entity, PrintText(d.details) + k);
    TextRoundTrip(d.details, k);
  }

  lemma DetailsCut(d: ErrorDetails, n: nat)
    requires n < |PrintDetails(d)| && FitsDetails(d)
    ensures
      var p := ParseDetails(PrintDetails(d)[..n]);
      p.Fail? || (p.rest == [] && ShortenedDetails(d, p.value))
  {
    hide PrintText, ParseText, FitsText, Shortened;
    var e := PrintText(d.entity);
    Cut(e, PrintText(d.details), n);
    if n < |e| {
      TextCut(d.entity, n);
    } else {
      TextRoundTrip(d.entity, PrintText(d.details)[..n - |e|]);
      TextCut(d.details, n - |e|);
    }
  }

  // ----- Responses -----

  function PrintCodes(r: Response): Bytes {
    PrintPair(r.code, r.esc0) + PrintPair(r.esc1, r.esc2)
  }

  function PrintResponse(r: Response): Bytes {
    PrintCodes(r) + PrintText(r.message)
  }

  /** The four leading numbers, truncated to the width of their fields. */
  function ParseCodes(s: Bytes): (p: Parsed<(u16, byte, byte, byte)>)
    ensures p.Done? ==> |p.rest| < |s|
  {
    match ParsePair(s)
    case Fail => Fail
    case Done((code, e0), rest) =>
      match ParsePair(rest)
      case Fail => Fail
      case Done((e1, e2), rest) => Done((code % 0x1_0000, e0 % 0x100, e1 % 0x100, e2 % 0x100), rest)
  }

  function ParseResponse(s: Bytes): (p: Parsed<Response>)
    ensures p.Done? ==> |p.rest| < |s|
  {
    match ParseCodes(s)
    case Fail => Fail
    case Done((code, e0, e1, e2), rest) =>
      match ParseText(rest)
      case Fail => Fail
      case Done(message, rest) => Done(Response(code, e0, e1, e2, message), rest)
  }

  lemma CodesRoundTrip(r: Response, k: Bytes)
    ensures ParseCodes(PrintCodes(r) + k) == Done((r.code, r.esc0, r.esc1, r.esc2), k)
  {
    hide PrintPair, ParsePair;
    assert PrintCodes(r) + k == PrintPair(r.code, r.esc0) + (PrintPair(r.esc1, r.esc2) + k);
    PairRoundTrip(r.code, r.esc0, PrintPair(r.esc1, r.esc2) + k);
    PairRoundTrip(r.esc1, r.esc2, k);
  }

  lemma CodesCut(r: Response, n: nat)
    requires n < |PrintCodes(r)|
    ensures ParseCodes(PrintCodes(r)[..n]) == Fail
  {
    hide PrintPair, ParsePair;
    var p := PrintPair(r.code, r.esc0);
    Cut(p, PrintPair(r.esc1, r.esc2), n);
    if n < |p| {
      PairCut(r.code, r.esc0, n);
    } else {
      PairRoundTrip(r.code, r.esc0, PrintPair(r.esc1, r.esc2)[..n - |p|]);
      PairCut(r.esc1, r.esc2, n - |p|);
    }
  }

  predicate ShortenedResponse(r: Response, r': Response) {
    Shortened(r.message, r'.message) && r' == r.(message := r'.message)
  }

  lemma ResponseRoundTrip(r: Response, k: Bytes)
    ensures ParseResponse(PrintResponse(r) + k) == if FitsText(r.message) then Done(r, k) else Fail
  {
    hide PrintCodes, ParseCodes, PrintText, ParseText, FitsText;
    assert PrintResponse(r) + k == PrintCodes(r) + (PrintText(r.message) + k);
    CodesRoundTrip(r, PrintText(r.message) + k);
    TextRoundTrip(r.message, k);
  }

  lemma ResponseCut(r: Response, n: nat)
    requires n < |PrintResponse(r)| && FitsText(r.message)
    ensures
      var p := ParseResponse(PrintResponse(r)[..n]);
      p.Fail? || (p.rest == [] && ShortenedResponse(r, p.value))
  {
    hide PrintCodes, ParseCodes, PrintText, ParseText, FitsText, Shortened;
    var c := PrintCodes(r);
    Cut(c, PrintText(r.message), n);
    if n < |c| {
      CodesCut(r, n);
    } else {
      CodesRoundTrip(r, PrintText(r.message)[..n - |c|]);
      TextCut(r.message, n - |c|);
    }
  }

  // ----- Host responses -----

  function PrintDelivered(h: HostResponse<Text>): Bytes {
    PrintText(h.hostname) + PrintResponse(h.response)
  }

  function ParseDelivered(s: Bytes): (p: Parsed<HostResponse<Text>>)
    ensures p.Done? ==> |p.rest| < |s|
  {
    match ParseText(s)
    case Fail => Fail
    case Done(hostname, rest) =>
      match ParseResponse(rest)
      case Fail => Fail
      case Done(response, rest) => Done(HostResponse(hostname, response), rest)
  }

  predicate FitsDelivered(h: HostResponse<Text>) { FitsText(h.hostname) && FitsText(h.response.message) }

  predicate ShortenedHost<T(==)>(h: HostResponse<T>, h': HostResponse<T>) {
    h'.hostname == h.hostname && ShortenedResponse(h.response, h'.response)
  }

  lemma DeliveredRoundTrip(h: HostResponse<Text>, k: Bytes)
    ensures ParseDelivered(PrintDelivered(h) + k) == if FitsDelivered(h) then Done(h, k) else Fail
  {
    hide PrintText, ParseText, FitsText, PrintResponse, ParseResponse;
    assert PrintDelivered(h) + k == PrintText(h.hostname) + (PrintResponse(h.response) + k);
    TextRoundTrip(h.hostname, PrintResponse(h.response) + k);
    ResponseRoundTrip(h.response, k);
  }

  lemma DeliveredCut(h: HostResponse<Text>, n: nat)
    requires n < |PrintDelivered(h)| && FitsDelivered(h)
    ensures
      var p := ParseDelivered(PrintDelivered(h)[..n]);
      p.Fail? || (p.rest == [] && ShortenedHost(h, p.value))
  {
    hide PrintText, ParseText, FitsText, PrintResponse, ParseResponse, ShortenedResponse;
    var a := PrintText(h.hostname);
    Cut(a, PrintResponse(h.response), n);
    if n < |a| {
      TextCut(h.hostname, n);
    } else {
      TextRoundTrip(h.hostname, PrintResponse(h.response)[..n - |a|]);
      ResponseCut(h.response, n - |a|);
    }
  }

  function PrintRejected(h: HostResponse<ErrorDetails>): Bytes {
    PrintDetails(h.hostname) + PrintResponse(h.response)
  }

  function ParseRejected(s: Bytes): (p: Parsed<HostResponse<ErrorDetails>>)
    ensures p.Done? ==> |p.rest| < |s|
  {
    match ParseDetails(s)
    case Fail => Fail
    case Done(hostname, rest) =>
      match ParseResponse(rest)
      case Fail => Fail
      case Done(response, rest) => Done(HostResponse(hostname, response), rest)
  }

  predicate FitsRejected(h: HostResponse<ErrorDetails>) { FitsDetails(h.hostname) && FitsText(h.response.message) }

  lemma RejectedRoundTrip(h: HostResponse<ErrorDetails>, k: Bytes)
    ensures ParseRejected(PrintRejected(h) + k) == if FitsRejected(h) then Done(h, k) else Fail
  {
    hide PrintDetails, ParseDetails, FitsDetails, FitsText, PrintResponse, ParseResponse;
    assert PrintRejected(h) + k == PrintDetails(h.hostname) + (PrintResponse(h.response) + k);
    DetailsRoundTrip(h.hostname, PrintResponse(h.response) + k);
    ResponseRoundTrip(h.response, k);
  }

  lemma RejectedCut(h: HostResponse<ErrorDetails>, n: nat)
    requires n < |PrintRejected(h)| && FitsRejected(h)
    ensures
      var p := ParseRejected(PrintRejected(h)[..n]);
      p.Fail? || (p.rest == [] && ShortenedHost(h, p.value))
  {
    hide PrintDetails, ParseDetails, FitsDetails, FitsText, PrintResponse, ParseResponse, ShortenedResponse;
    var a := PrintDetails(h.hostname);
    Cut(a, PrintResponse(h.response), n);
    if n < |a| {
      DetailsCut(h.hostname, n);
    } else {
      DetailsRoundTrip(h.hostname, PrintResponse(h.response)[..n - |a|]);
      ResponseCut(h.response, n - |a|);
    }
  }
}
