/** The operator's Cancel and Retry requests as the queue manager carries them out on one message. */
module OperatorRequests {
  import opened QueueTypes
  import opened Session
  import opened Lifecycle

  /** The recipients, or domains, whose name contains what the operator asked for. */
  function Matching(m: Message, item: Text -> bool): set<nat> {
    set i | 0 <= i < |m.recipients| && item(m.recipients[i].address)
  }

  function MatchingDomains(m: Message, item: Text -> bool): set<nat> {
    set i | 0 <= i < |m.domains| && item(m.domains[i].domain)
  }

  method CancelMatching(m: Message, item: Text -> bool, response: HostResponse<Text>) returns (m': Message, found: bool)
    ensures found <==> Matching(m, item) != {}
    ensures m' == if found then Cancel(m, Matching(m, item), response) else m
    ensures m'.(domains := m.domains, recipients := m.recipients) == m
    ensures |m'.recipients| == |m.recipients| && forall i | 0 <= i < |m.recipients| ::
              var r := m.recipients[i];
              m'.recipients[i] == if item(r.address) then r.(status := Completed(response), flags := r.flags.(statusChanged := true)) else r
    ensures |m'.domains| == |m.domains| && forall j | 0 <= j < |m.domains| ::
              var d := m.domains[j];
              m'.domains[j] == if found && d.status.Pending() && AllSettled(m'.recipients, j) then d.(status := Completed(()), changed := true) else d
  {
    CancelIs(m, item, response);
    hide CancelledRcpts, CancelledDomain, Matching;
    var rs;
    rs, found := CancelRcpts(m, item, response);
    m' := m;
    if found {
      var ds := CompleteDomains(m.domains, rs);
      m' := m.(recipients := rs, domains := ds);
      assert ds == Cancel(m, Matching(m, item), response).domains;
    }
  }

  lemma CancelIs(m: Message, item: Text -> bool, response: HostResponse<Text>)
    ensures
      var m' := Cancel(m, Matching(m, item), response);
      && m'.(domains := m.domains, recipients := m.recipients) == m
      && |m'.recipients| == |m.recipients|
      && (forall i | 0 <= i < |m.recipients| ::
            var r := m.recipients[i];
            m'.recipients[i] == if item(r.address) then r.(status := Completed(response), flags := r.flags.(statusChanged := true)) else r)
      && |m'.domains| == |m.domains|
      && (forall j | 0 <= j < |m.domains| ::
            var d := m.domains[j];
            m'.domains[j] == if d.status.Pending() && AllSettled(m'.recipients, j) then d.(status := Completed(()), changed := true) else d)
    ensures Matching(m, item) == {} ==> forall i | 0 <= i < |m.recipients| :: !item(m.recipients[i].address)
  {
    if Matching(m, item) == {} {
      forall i | 0 <= i < |m.recipients| ensures !item(m.recipients[i].address) {
        assert i !in Matching(m, item);
      }
    }
  }

  /** The loop over the recipients. */
  method CancelRcpts(m: Message, item: Text -> bool, response: HostResponse<Text>) returns (rs: seq<Recipient>, found: bool)
    ensures found <==> Matching(m, item) != {}
    ensures rs == CancelledRcpts(m.recipients, Matching(m, item), response)
  {
    ghost var chosen := Matching(m, item);
    rs, found := m.recipients, false;
    for i := 0 to |m.recipients|
      invariant |rs| == |m.recipients|
      invariant forall j | 0 <= j < |rs| ::
                  rs[j] == if j < i then CancelledRcpt(m.recipients[j], j, chosen, response) else m.recipients[j]
      invariant found <==> exists j | 0 <= j < i :: j in chosen
    {
      if item(rs[i].address) {
        rs := rs[i := Updated(rs[i], Completed(response))];
        found := true;
      }
    }
    assert !found ==> chosen == {};
  }

  /** The loop that completes the domains without pending recipients. */
  method CompleteDomains(domains: seq<Domain>, rs: seq<Recipient>) returns (ds: seq<Domain>)
    ensures |ds| == |domains| && forall k | 0 <= k < |ds| :: ds[k] == CancelledDomain(domains[k], k, rs)
  {
    hide AllSettled;
    ds := domains;
    for i := 0 to |domains|
      invariant |ds| == |domains|
      invariant forall k | 0 <= k < |ds| :: ds[k] == if k < i then CancelledDomain(domains[k], k, rs) else domains[k]
    {
      if ds[i].status.Pending() {
        var all := CountSettled(rs, i);
        if all {
          ds := ds[i := ds[i].(status := Completed(()), changed := true)];
        }
      }
    }
  }

  /** Compares the number of a domain's recipients with the number of those that are settled. */
  method CountSettled(rs: seq<Recipient>, idx: nat) returns (all: bool)
    ensures all <==> AllSettled(rs, idx)
  {
    var total, completed := 0, 0;
    for n := 0 to |rs|
      invariant total == Mine(rs, idx, n) && completed == Settled(rs, idx, n)
    {
      CountStep(rs, idx, n);
      if rs[n].domainIdx == idx {
        total := total + 1;
        if rs[n].status.Terminal() {
          completed := completed + 1;
        }
      }
    }
    SettledBound(rs, idx, |rs|);
    all := total == completed;
  }

  lemma RetryIs(m: Message, item: Text -> bool, time: Instant)
    ensures
      var m' := OperatorRetry(m, MatchingDomains(m, item), time);
      && m'.(domains := m.domains) == m && |m'.domains| == |m.domains|
      && (forall i | 0 <= i < |m.domains| ::
            var d := m.domains[i];
            && (i in MatchingDomains(m, item) <==> item(d.domain))
            && m'.domains[i] ==
                 if !d.status.Pending() || !item(d.domain) then d
                 else d.(retry := Schedule(d.retry.inner, time), expires := if d.expires > time then time + 10 * NANOS else d.expires, changed := true))
  {
  }

  method RetryMatching(m: Message, item: Text -> bool, time: Instant) returns (m': Message, found: bool)
    ensures m' == OperatorRetry(m, MatchingDomains(m, item), time)
    ensures found <==> exists i | 0 <= i < |m.domains| :: m.domains[i].status.Pending() && item(m.domains[i].domain)
    ensures found ==> SomePending(m')
    ensures m'.(domains := m.domains) == m
    ensures |m'.domains| == |m.domains| && forall i | 0 <= i < |m.domains| ::
              var d := m.domains[i];
              m'.domains[i] ==
                if !d.status.Pending() || !item(d.domain) then d
                else d.(retry := Schedule(d.retry.inner, time), expires := if d.expires > time then time + 10 * NANOS else d.expires, changed := true)
  {
    RetryIs(m, item, time);
    hide MatchingDomains;
    ghost var chosen := MatchingDomains(m, item);
    var ds := m.domains;
    found := false;
    for i := 0 to |m.domains|
      invariant |ds| == |m.domains|
      invariant forall j | 0 <= j < |ds| :: ds[j] == if j < i then RetriedDomain(m.domains[j], j, chosen, time) else m.domains[j]
      invariant found <==> exists j | 0 <= j < i :: m.domains[j].status.Pending() && item(m.domains[j].domain)
    {
      var d := ds[i];
      if d.status.Pending() && item(d.domain) {
        ds := ds[i := d.(retry := d.retry.(due := time), expires := if d.expires > time then time + TEN_SECONDS else d.expires, changed := true)];
        found := true;
      }
    }
    m' := m.(domains := ds);
    assert ds == OperatorRetry(m, chosen, time).domains;
    if found {
      var j :| 0 <= j < |m.domains| && m.domains[j].status.Pending() && item(m.domains[j].domain);
      assert m'.domains[j].status.Pending();
    }
  }
}
