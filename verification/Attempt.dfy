/** The passes over a message's domains and recipients as the server makes them, in place. */
module Attempt {
  import opened Prelude
  import opened QueueTypes
  import opened Session
  import opened Lifecycle

  class DeliveryAttempt {
    var message: Message

    constructor (m: Message)
      ensures message == m
    {
      message := m;
    }

    /** `has_pending_delivery`: expired domains fail, and with them their recipients' temporary failures. */
    method HasPendingDelivery(now: Instant) returns (pending: bool)
      requires Indexed(message)
      modifies this
      ensures message == Expire(old(message), now)
      ensures pending <==> SomePending(message)
    {
      hide ExpiredDomain;
      var m := message;
      pending := false;
      for idx := 0 to |m.domains|
        invariant message.(domains := m.domains, recipients := m.recipients) == m
        invariant |message.domains| == |m.domains| && |message.recipients| == |m.recipients|
        invariant forall i | 0 <= i < |m.domains| ::
                    message.domains[i] == if i < idx then ExpiredDomain(m.domains[i], now) else m.domains[i]
        invariant forall i | 0 <= i < |m.recipients| ::
                    message.recipients[i] == if m.recipients[i].domainIdx < idx then ExpiredRcpt(m.recipients[i], m.domains, now) else m.recipients[i]
        invariant pending <==> exists i | 0 <= i < idx :: m.domains[i].status.Pending() && !Expires(m.domains[i], now)
      {
        var d := message.domains[idx];
        if Expires(d, now) {
          FailRcpts(idx);
          message := message.(domains := message.domains[idx := ExpiredDomain(d, now)]);
        } else {
          ExpiredElse(d, now);
          if d.status.Pending() {
            pending := true;
          }
        }
      }
      assert message.domains == Expire(m, now).domains;
      assert message.recipients == Expire(m, now).recipients;
      PendingAfterExpiry(m, now);
    }

    /** The inner loop of an expired domain. */
    method FailRcpts(idx: nat)
      modifies this
      ensures message.(recipients := old(message).recipients) == old(message)
      ensures |message.recipients| == |old(message).recipients|
      ensures forall i | 0 <= i < |message.recipients| ::
                var r := old(message).recipients[i];
                message.recipients[i] == if r.domainIdx == idx then r.(status := r.status.IntoPermanent()) else r
    {
      var m := message;
      for j := 0 to |m.recipients|
        invariant message.(recipients := m.recipients) == m && |message.recipients| == |m.recipients|
        invariant forall i | 0 <= i < |m.recipients| ::
                    var r := m.recipients[i];
                    message.recipients[i] == if i < j && r.domainIdx == idx then r.(status := r.status.IntoPermanent()) else r
      {
        var r := message.recipients[j];
        if r.domainIdx == idx {
          message := message.(recipients := message.recipients[j := r.(status := r.status.IntoPermanent())]);
        }
      }
    }

    /** `build_dsn`: the notices that go out; final ones are marked as sent and due delay times move on. */
    method BuildDsn(now: Instant, config: Config) returns (notices: seq<Notice>)
      requires Indexed(message)
      modifies this
      ensures message == Reported(old(message), now, config)
      ensures notices == Notices(old(message), now, |old(message).recipients|)
    {
      hide NotifiedRcpt, NextNotify, Notices, HasDelay;
      var m := message;
      var delayed;
      notices, delayed := NotifyRcpts(now);
      if delayed {
        MoveNotifyTimes(now, config);
      }
      assert message.recipients == Reported(m, now, config).recipients;
      assert message.domains == Reported(m, now, config).domains;
    }

    /** The loop over the recipients. */
    method NotifyRcpts(now: Instant) returns (notices: seq<Notice>, delayed: bool)
      requires Indexed(message)
      modifies this
      ensures message.(recipients := old(message).recipients) == old(message) && |message.recipients| == |old(message).recipients|
      ensures forall i | 0 <= i < |message.recipients| ::
        message.recipients[i] == NotifiedRcpt(old(message).recipients[i], DomainOf(old(message), old(message).recipients[i]))
      ensures notices == Notices(old(message), now, |old(message).recipients|) && (delayed <==> HasDelay(notices))
    {
      hide NoticeFor, NotifiedRcpt;
      var m := message;
      notices, delayed := [], false;
      for n := 0 to |m.recipients|
        invariant message.(recipients := m.recipients) == m && |message.recipients| == |m.recipients|
        invariant forall i | 0 <= i < |m.recipients| ::
                    message.recipients[i] == if i < n then NotifiedRcpt(m.recipients[i], DomainOf(m, m.recipients[i])) else m.recipients[i]
        invariant notices == Notices(m, now, n)
        invariant delayed <==> HasDelay(notices)
      {
        var r := message.recipients[n];
        var d := message.domains[r.domainIdx];
        var k := NoticeFor(r, d, now);
        message := message.(recipients := message.recipients[n := NotifiedRcpt(r, d)]);
        if k.Some? {
          HasDelayAppend(notices, Notice(n, k.value));
          notices := notices + [Notice(n, k.value)];
          delayed := delayed || k.value == Delay;
        }
      }
    }

    /** The loop over the domains after a delay notice. */
    method MoveNotifyTimes(now: Instant, config: Config)
      modifies this
      ensures message.(domains := old(message).domains) == old(message) && |message.domains| == |old(message).domains|
      ensures forall i | 0 <= i < |message.domains| ::
        message.domains[i] == NextNotify(old(message).domains[i], now, config.notify(old(message).domains[i].domain))
    {
      hide NextNotify;
      var m := message;
      for i := 0 to |m.domains|
        invariant message.(domains := m.domains) == m && |message.domains| == |m.domains|
        invariant forall j | 0 <= j < |m.domains| ::
                    message.domains[j] == if j < i then NextNotify(m.domains[j], now, config.notify(m.domains[j].domain)) else m.domains[j]
      {
        var d := message.domains[i];
        message := message.(domains := message.domains[i := NextNotify(d, now, config.notify(d.domain))]);
      }
    }

    /** `handle_double_bounce`. */
    method HandleDoubleBounce(now: Instant)
      requires Indexed(message)
      modifies this
      ensures message == DoubleBounced(old(message), now)
    {
      hide BouncedRcpt, BouncedDomain;
      var m := message;
      for n := 0 to |m.recipients|
        invariant message.(recipients := m.recipients) == m && |message.recipients| == |m.recipients|
        invariant forall i | 0 <= i < |m.recipients| ::
                    message.recipients[i] == if i < n then BouncedRcpt(m.recipients[i], DomainOf(m, m.recipients[i])) else m.recipients[i]
      {
        var r := message.recipients[n];
        message := message.(recipients := message.recipients[n := BouncedRcpt(r, message.domains[r.domainIdx])]);
      }
      ghost var rcpts := message.recipients;
      for i := 0 to |m.domains|
        invariant message.(domains := m.domains) == m.(recipients := rcpts) && |message.domains| == |m.domains|
        invariant forall j | 0 <= j < |m.domains| ::
                    message.domains[j] == if j < i then BouncedDomain(m.domains[j], now) else m.domains[j]
      {
        message := message.(domains := message.domains[i := BouncedDomain(message.domains[i], now)]);
      }
      assert message.recipients == DoubleBounced(m, now).recipients;
      assert message.domains == DoubleBounced(m, now).domains;
    }

    /** `send_dsn`. */
    method SendNotices(now: Instant, config: Config) returns (notices: seq<Notice>)
      requires Indexed(message)
      modifies this
      ensures (message, notices) == SendDsn(old(message), now, config)
    {
      if message.returnPath != [] {
        notices := BuildDsn(now, config);
      } else {
        HandleDoubleBounce(now);
        notices := [];
      }
    }

    /** The worker's loop over the domains. */
    method Work(turns: seq<Turn>)
      requires |turns| == |message.domains|
      modifies this
      ensures message == Worked(old(message), turns, |turns|)
    {
      ghost var m := message;
      for i := 0 to |turns|
        invariant message == Worked(m, turns, i)
      {
        var d, t := message.domains[i], turns[i];
        if Due(d, t.begin) {
          match t.outcome
          case HeldBack(retryAt) =>
            message := message.(domains := message.domains[i := SetThrottleError(d, retryAt)]);
          case Decided(status) =>
            message := message.(domains := message.domains[i := SetStatus(d, status, t.intervals, t.end)]);
          case Talked(script) =>
            var rs, status := Deliver(message.recipients, i, script);
            message := message.(domains := message.domains[i := SetStatus(d, status, t.intervals, t.end)], recipients := rs);
        } else {
          assert message.domains[i := d] == message.domains;
        }
      }
    }
  }

  lemma ExpiredElse(d: Domain, now: Instant)
    requires !Expires(d, now)
    ensures ExpiredDomain(d, now) == d
  {
  }

  lemma PendingAfterExpiry(m: Message, now: Instant)
    ensures SomePending(Expire(m, now)) <==> exists i | 0 <= i < |m.domains| :: m.domains[i].status.Pending() && !Expires(m.domains[i], now)
  {
    var m' := Expire(m, now);
    forall i | 0 <= i < |m.domains|
      ensures m'.domains[i].status.Pending() <==> m.domains[i].status.Pending() && !Expires(m.domains[i], now)
    {
    }
    if i :| 0 <= i < |m.domains| && m.domains[i].status.Pending() && !Expires(m.domains[i], now) {
      assert m'.domains[i].status.Pending();
    }
    if i :| 0 <= i < |m'.domains| && m'.domains[i].status.Pending() {
      assert m.domains[i].status.Pending() && !Expires(m.domains[i], now);
    }
  }
}
