/** How a new message is put together: recipients grouped under domains, and each domain's first times. */
module Grouping {
  import opened Prelude
  import opened QueueTypes
  import opened Lifecycle

  /** An address given in the SMTP session. */
  datatype Address = Address(address: Text, lowerCase: Text, domain: Text, flags: RcptFlags, orcpt: Option<Text>)

  // ----- The order of addresses -----

  /** Byte strings in lexicographic order. */
  predicate AtMost(a: Bytes, b: Bytes) {
    if a == [] then true
    else if b == [] then false
    else a[0] < b[0] || (a[0] == b[0] && AtMost(a[1..], b[1..]))
  }

  lemma {:induction false} AtMostAntisymmetric(a: Bytes, b: Bytes)
    requires AtMost(a, b) && AtMost(b, a)
    ensures a == b
  {
    if a != [] {
      AtMostAntisymmetric(a[1..], b[1..]);
      assert a == [a[0]] + a[1..] && b == [b[0]] + b[1..];
    }
  }

  lemma {:induction false} AtMostTransitive(a: Bytes, b: Bytes, c: Bytes)
    requires AtMost(a, b) && AtMost(b, c)
    ensures AtMost(a, c)
  {
    if a != [] && a[0] == b[0] == c[0] {
      AtMostTransitive(a[1..], b[1..], c[1..]);
    }
  }

  /** By domain, then by the address in lower case. */
  predicate InOrder(a: Address, b: Address) {
    if a.domain == b.domain then AtMost(a.lowerCase, b.lowerCase) else AtMost(a.domain, b.domain)
  }

  predicate Sorted(rs: seq<Address>) {
    forall i | 0 < i < |rs| :: InOrder(rs[i - 1], rs[i])
  }

  /** What the sort of the library promises of its result. */
  predicate SortOf(sorted: seq<Address>, rs: seq<Address>) {
    Sorted(sorted) && multiset(sorted) == multiset(rs)
  }

  // ----- The first times of a domain -----

  /** The session's parameters and the clock; times in seconds. */
  datatype Envelope = Envelope(now: Instant, futureRelease: nat, deliveryBy: int, byReturn: bool)

  predicate ValidEnvelope(e: Envelope) { -TWO_64 / 2 <= e.deliveryBy < TWO_64 / 2 }

  /** A signed value read as an unsigned one of 64 bits. */
  function Unsigned(n: int): int { if n < 0 then n + TWO_64 else n }

  /** The delay of the one notice asked for by `BY=...;N`; `expire` is in nanoseconds. */
  function NoticeDelay(deliveryBy: int, expire: nat, first: nat): nat {
    var expireSecs := expire / NANOS;
    if deliveryBy > 0 then if expireSecs > deliveryBy then deliveryBy * NANOS else first
    else if expireSecs > -deliveryBy then (expireSecs + deliveryBy) * NANOS else first
  }

  function NewDomain(name: Text, e: Envelope, intervals: seq<nat>, expire: nat): Domain
    requires intervals != []
  {
    var hold := e.futureRelease * NANOS;
    var due := e.now + hold;
    if e.deliveryBy == 0 then
      Domain(name, Schedule(0, due), Schedule(0, due + intervals[0]), e.now + hold + expire, Scheduled, false)
    else if e.byReturn then
      Domain(name, Schedule(0, due), Schedule(0, due + intervals[0]), e.now + Unsigned(e.deliveryBy) * NANOS, Scheduled, false)
    else
      Domain(name, Schedule(0, due), Schedule((|intervals| - 1) % TWO_32, due + NoticeDelay(e.deliveryBy, expire, intervals[0])),
             e.now + expire, Scheduled, false)
  }

  /**
    The times that the session asked for. The first attempt comes after the hold. The first notice comes
    an interval after it and the expiry a lifetime after it. `BY=n;R` moves the expiry to `n` seconds from
    now. `BY=n;N` moves the notice to `n` seconds after the first attempt, or to `-n` seconds before the
    lifetime is over, unless the lifetime is shorter, and makes it the last; the lifetime counts from now.
  */
  predicate AsRequested(d: Domain, e: Envelope, intervals: seq<nat>, lifetime: nat)
    requires intervals != []
  {
    var wait := d.notify.due - d.retry.due;
    && d.status == Scheduled && !d.changed && d.retry.inner == 0
    && d.retry.due - e.now == e.futureRelease * NANOS
    && (e.deliveryBy == 0 || e.byReturn ==> d.notify.inner == 0 && wait == intervals[0])
    && (e.deliveryBy == 0 ==> d.expires - d.retry.due == lifetime)
    && (e.deliveryBy > 0 && e.byReturn ==> d.expires - e.now == e.deliveryBy * NANOS)
    && (e.deliveryBy < 0 && e.byReturn ==> d.expires - e.now == (e.deliveryBy + TWO_64) * NANOS)
    && (e.deliveryBy != 0 && !e.byReturn ==>
          && d.notify.inner == (|intervals| - 1) % TWO_32 && d.expires - e.now == lifetime
          && (0 < e.deliveryBy < lifetime / NANOS ==> wait == e.deliveryBy * NANOS)
          && (0 < -e.deliveryBy < lifetime / NANOS ==> wait == (lifetime / NANOS - -e.deliveryBy) * NANOS)
          && (e.deliveryBy >= lifetime / NANOS || -e.deliveryBy >= lifetime / NANOS ==> wait == intervals[0]))
  }

  lemma NewAsRequested(name: Text, e: Envelope, intervals: seq<nat>, expire: nat)
    requires intervals != []
    ensures AsRequested(NewDomain(name, e, intervals, expire), e, intervals, expire)
  {
  }

  /** With a notice time asked for, the first delay notice is also the last that can come before the expiry. */
  lemma OneNoticeByTime(d: Domain, e: Envelope, intervals: seq<nat>, lifetime: nat, now: Instant)
    requires 0 < |intervals| < TWO_32 && e.deliveryBy != 0 && !e.byReturn && AsRequested(d, e, intervals, lifetime)
    ensures NextNotify(d, now, intervals).notify.due > d.expires || NextNotify(d, now, intervals) == d
  {
  }

  /** The first attempt comes before the expiry exactly when the hold is shorter than what the expiry counts from now. */
  lemma DueBeforeExpiryIff(d: Domain, e: Envelope, intervals: seq<nat>, lifetime: nat)
    requires intervals != [] && ValidEnvelope(e) && AsRequested(d, e, intervals, lifetime)
    ensures d.retry.due < d.expires <==>
            if e.deliveryBy == 0 then lifetime > 0
            else if e.byReturn then e.futureRelease < Unsigned(e.deliveryBy)
            else e.futureRelease * NANOS < lifetime
  {
    assert e.futureRelease * NANOS < Unsigned(e.deliveryBy) * NANOS <==> e.futureRelease < Unsigned(e.deliveryBy);
  }

  /** Held for 100 seconds and to be returned after 50: the message expires before its first attempt is due. */
  lemma HeldPastExpiry(name: Text, intervals: Intervals, expire: nat)
    ensures
      var d := NewDomain(name, Envelope(0, 100, 50, true), intervals, expire);
      d.expires == 50 * NANOS && d.retry.due == 100 * NANOS
  {
  }

  // ----- Recipients under domains -----

  /** With no notify option given, delays and failures are reported. */
  function NotifyFlags(f: RcptFlags): RcptFlags {
    if f.notifyDelay || f.notifyFailure || f.notifySuccess || f.notifyNever then f
    else f.(notifyDelay := true, notifyFailure := true)
  }

  /** Domain names that differ from one another. */
  predicate Distinct(ds: seq<Domain>) {
    forall i, j | 0 <= i < j < |ds| :: ds[i].domain != ds[j].domain
  }

  /** Recipient by recipient: under the domain of its address. */
  predicate Grouped(ds: seq<Domain>, rs: seq<Recipient>, addresses: seq<Address>) {
    && |rs| == |addresses|
    && forall i | 0 <= i < |rs| ::
         && rs[i].domainIdx < |ds|
         && ds[rs[i].domainIdx].domain == addresses[i].domain
         && rs[i].address == addresses[i].address && rs[i].orcpt == addresses[i].orcpt
         && FlagsAsRequested(rs[i].flags, addresses[i].flags) && rs[i].status == Scheduled
  }

  /** The options are as given; without any, delays and failures are reported and nothing else changes. */
  predicate FlagsAsRequested(f: RcptFlags, given: RcptFlags) {
    var none := !given.notifyDelay && !given.notifyFailure && !given.notifySuccess && !given.notifyNever;
    && (f.notifyDelay <==> given.notifyDelay || none) && (f.notifyFailure <==> given.notifyFailure || none)
    && f == given.(notifyDelay := f.notifyDelay, notifyFailure := f.notifyFailure)
  }

  /** No domain without a recipient. */
  predicate AllUsed(ds: seq<Domain>, rs: seq<Recipient>) {
    forall k | 0 <= k < |ds| :: HasRecipient(rs, k)
  }

  predicate HasRecipient(rs: seq<Recipient>, k: nat) {
    exists i :: 0 <= i < |rs| && rs[i].domainIdx == k
  }

  /** Domain names in strictly ascending order. */
  predicate Ascending(ds: seq<Domain>) {
    forall i, j | 0 <= i < j < |ds| :: AtMost(ds[i].domain, ds[j].domain) && ds[i].domain != ds[j].domain
  }

  lemma AscendingExtends(ds: seq<Domain>, d: Domain)
    requires Ascending(ds)
    requires ds != [] ==> AtMost(ds[|ds| - 1].domain, d.domain) && ds[|ds| - 1].domain != d.domain
    ensures Ascending(ds + [d])
  {
    forall i | 0 <= i < |ds|
      ensures AtMost(ds[i].domain, d.domain) && ds[i].domain != d.domain
    {
      var last := ds[|ds| - 1];
      if i < |ds| - 1 {
        AtMostTransitive(ds[i].domain, last.domain, d.domain);
        if ds[i].domain == d.domain {
          AtMostAntisymmetric(last.domain, d.domain);
        }
      }
    }
  }

  /** Every domain has the times asked for. */
  ghost predicate Planned(ds: seq<Domain>, e: Envelope, config: Config, expire: Text -> nat)
    requires ValidConfig(config)
  {
    forall k | 0 <= k < |ds| ::
      AsRequested(ds[k], e, config.notify(ds[k].domain), expire(ds[k].domain))
  }

  function NewRecipient(a: Address, idx: u64): Recipient {
    Recipient(idx, a.address, Scheduled, NotifyFlags(a.flags), a.orcpt)
  }

  lemma FlagsAreRequested(given: RcptFlags)
    ensures FlagsAsRequested(NotifyFlags(given), given)
  {
  }

  lemma GroupedExtends(ds: seq<Domain>, ds': seq<Domain>, rs: seq<Recipient>, addresses: seq<Address>, a: Address, idx: u64)
    requires Grouped(ds, rs, addresses) && ds <= ds' && idx < |ds'| && ds'[idx].domain == a.domain
    ensures Grouped(ds', rs + [NewRecipient(a, idx)], addresses + [a])
  {
    hide NotifyFlags, FlagsAsRequested;
    FlagsAreRequested(a.flags);
    AddingKeepsGroups(ds, ds', rs, addresses);
  }

  /**
   * `build_message`, from the sorted addresses on: a new domain whenever the name changes. Sorting makes equal
   * names neighbours, so that comparing with the last domain alone never lists a name twice.
   */
  method GroupRecipients(sorted: seq<Address>, e: Envelope, config: Config, expire: Text -> nat)
    returns (domains: seq<Domain>, recipients: seq<Recipient>)
    requires Sorted(sorted) && ValidConfig(config) && |sorted| < TWO_64
    ensures Distinct(domains) && Grouped(domains, recipients, sorted) && AllUsed(domains, recipients)
    ensures Planned(domains, e, config, expire)
  {
    hide AtMost, NewDomain, NotifyFlags, Ascending, Distinct, AllUsed, Grouped, Planned, NewRecipient, InOrder;
    NothingYet(e, config, expire);
    domains, recipients := [], [];
    for i := 0 to |sorted|
      invariant |domains| <= i && |recipients| == i
      invariant Ascending(domains) && Grouped(domains, recipients, sorted[..i]) && AllUsed(domains, recipients)
      invariant i > 0 ==> domains != [] && domains[|domains| - 1].domain == sorted[i - 1].domain
      invariant Planned(domains, e, config, expire)
    {
      var r := sorted[i];
      ghost var before := domains;
      if domains == [] || domains[|domains| - 1].domain != r.domain {
        var d := NewDomain(r.domain, e, config.notify(r.domain), expire(r.domain));
        PlannedExtends(domains, r.domain, e, config, expire);
        if i > 0 {
          NextName(sorted[i - 1], sorted[i]);
        }
        AscendingExtends(domains, d);
        domains := domains + [d];
      }
      GroupedExtends(before, domains, recipients, sorted[..i], r, |domains| - 1);
      StillUsed(before, recipients, domains, r);
      recipients := recipients + [NewRecipient(r, |domains| - 1)];
      assert sorted[..i + 1] == sorted[..i] + [r];
    }
    assert sorted[..|sorted|] == sorted;
    AscendingDistinct(domains);
  }

  lemma NothingYet(e: Envelope, config: Config, expire: Text -> nat)
    requires ValidConfig(config)
    ensures Ascending([]) && AllUsed([], []) && Grouped([], [], []) && Planned([], e, config, expire)
  {
  }

  lemma NextName(a: Address, b: Address)
    requires InOrder(a, b)
    ensures a.domain != b.domain ==> AtMost(a.domain, b.domain)
  {
  }

  lemma AscendingDistinct(ds: seq<Domain>)
    requires Ascending(ds)
    ensures Distinct(ds)
  {
  }

  lemma PlannedExtends(ds: seq<Domain>, name: Text, e: Envelope, config: Config, expire: Text -> nat)
    requires ValidConfig(config) && Planned(ds, e, config, expire)
    ensures
      var d := NewDomain(name, e, config.notify(name), expire(name));
      d.domain == name && Planned(ds + [d], e, config, expire)
  {
    var d := NewDomain(name, e, config.notify(name), expire(name));
    NewAsRequested(name, e, config.notify(name), expire(name));
    assert d.domain == name;
    hide NewDomain, AsRequested;
  }

  lemma StillUsed(ds: seq<Domain>, rs: seq<Recipient>, ds': seq<Domain>, a: Address)
    requires AllUsed(ds, rs) && |ds| <= |ds'| <= |ds| + 1 && 0 < |ds'| <= TWO_64
    ensures AllUsed(ds', rs + [NewRecipient(a, |ds'| - 1)])
  {
    var rs' := rs + [NewRecipient(a, |ds'| - 1)];
    forall k | 0 <= k < |ds'| ensures HasRecipient(rs', k) {
      if k == |ds'| - 1 {
        assert rs'[|rs|].domainIdx == k;
      } else {
        assert HasRecipient(rs, k);
        var i :| 0 <= i < |rs| && rs[i].domainIdx == k;
        assert rs'[i] == rs[i];
      }
    }
  }

  /** Who is to be reached where. */
  function Places(addresses: seq<Address>): seq<(Text, Text)> {
    seq(|addresses|, i requires 0 <= i < |addresses| => (addresses[i].domain, addresses[i].address))
  }

  function Destinations(ds: seq<Domain>, rs: seq<Recipient>): seq<(Text, Text)>
    requires forall i | 0 <= i < |rs| :: rs[i].domainIdx < |ds|
  {
    seq(|rs|, i requires 0 <= i < |rs| => (ds[rs[i].domainIdx].domain, rs[i].address))
  }

  lemma RemovedOnce(a: seq<Address>, j: nat)
    requires j < |a|
    ensures multiset(a) == multiset(Without(a, j)) + multiset{a[j]}
  {
    assert a == a[..j] + [a[j]] + a[j + 1..];
  }

  lemma RemovedPlace(a: seq<Address>, j: nat)
    requires j < |a|
    ensures multiset(Places(a)) == multiset(Places(Without(a, j))) + multiset{(a[j].domain, a[j].address)}
  {
    var p := Places(a);
    assert p == p[..j] + [p[j]] + p[j + 1..];
    assert Places(Without(a, j)) == p[..j] + p[j + 1..];
  }

  /** Reordering addresses reorders the places. */
  lemma {:induction false} PlacesPermute(a: seq<Address>, b: seq<Address>)
    requires multiset(a) == multiset(b)
    ensures multiset(Places(a)) == multiset(Places(b))
    decreases |a|
  {
    hide Places, Without;
    if a == [] {
      assert |multiset(b)| == 0;
    } else {
      assert a[0] in multiset(b);
      var j :| 0 <= j < |b| && b[j] == a[0];
      RemovedOnce(a, 0);
      RemovedOnce(b, j);
      RemovedPlace(a, 0);
      RemovedPlace(b, j);
      assert |multiset(a)| == |a| && |multiset(Without(a, 0))| == |Without(a, 0)|;
      assert multiset(Without(a, 0)) == multiset(a) - multiset{a[0]};
      assert multiset(Without(b, j)) == multiset(b) - multiset{a[0]};
      PlacesPermute(Without(a, 0), Without(b, j));
    }
  }

  /** `build_message`: whatever sorted order comes out, the message goes to whom the session named, as often as named. */
  method BuildMessage(rcpts: seq<Address>, sorted: seq<Address>, e: Envelope, config: Config, expire: Text -> nat)
    returns (domains: seq<Domain>, recipients: seq<Recipient>)
    requires SortOf(sorted, rcpts) && ValidConfig(config) && |rcpts| < TWO_64
    ensures Distinct(domains) && Grouped(domains, recipients, sorted) && AllUsed(domains, recipients)
    ensures multiset(Destinations(domains, recipients)) == multiset(Places(rcpts)) && Planned(domains, e, config, expire)
  {
    assert |multiset(sorted)| == |sorted| && |multiset(rcpts)| == |rcpts|;
    domains, recipients := GroupRecipients(sorted, e, config, expire);
    assert Destinations(domains, recipients) == Places(sorted);
    PlacesPermute(sorted, rcpts);
  }

  // ----- Recipients added later -----

  /** `add_recipient_parts`: under the domain of that name, wherever it is, or under a new one. */
  method AddRecipient(ds: seq<Domain>, rs: seq<Recipient>, address: Text, name: Text, now: Instant, expire: nat)
    returns (ds': seq<Domain>, rs': seq<Recipient>)
    requires Distinct(ds) && |ds| < TWO_64 - 1
    ensures Distinct(ds') && ds <= ds' && |ds'| <= |ds| + 1
    ensures |rs'| == |rs| + 1 && rs <= rs'
    ensures rs'[|rs|].domainIdx < |ds'| && ds'[rs'[|rs|].domainIdx].domain == name && rs'[|rs|].address == address
    ensures |ds'| == |ds| <==> exists k :: 0 <= k < |ds| && ds[k].domain == name
    ensures rs'[|rs|] == Recipient(rs'[|rs|].domainIdx, address, Scheduled, NO_FLAGS, None)
    ensures forall k | |ds| <= k < |ds'| ::
              && ds'[k].status == Scheduled && !ds'[k].changed && ds'[k].retry == Schedule(0, now)
              && ds'[k].expires == now + expire && ds'[k].notify == Schedule(0, ds'[k].expires + 10 * NANOS)
  {
    var idx := 0;
    while idx < |ds| && ds[idx].domain != name
      invariant 0 <= idx <= |ds|
      invariant forall k | 0 <= k < idx :: ds[k].domain != name
    {
      idx := idx + 1;
    }
    ds' := ds;
    if idx == |ds| {
      ds' := ds + [Domain(name, Schedule(0, now), Schedule(0, now + expire + TEN_SECONDS), now + expire, Scheduled, false)];
    }
    rs' := rs + [Recipient(idx, address, Scheduled, NO_FLAGS, None)];
  }

  /** Adding recipients keeps every earlier recipient under its own domain. */
  lemma AddingKeepsGroups(ds: seq<Domain>, ds': seq<Domain>, rs: seq<Recipient>, addresses: seq<Address>)
    requires ds <= ds' && Grouped(ds, rs, addresses)
    ensures Grouped(ds', rs, addresses)
  {
    forall i | 0 <= i < |rs| ensures ds'[rs[i].domainIdx] == ds[rs[i].domainIdx] {}
  }
}
