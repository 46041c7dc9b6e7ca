/**
  What the queue file shows of a message for any saves at all: a save appends the entries that carry
  a dirty mark and no others, so the file follows the marked changes only.
*/
module SeenFile {
  import opened Prelude
  import opened QueueTypes
  import opened Codec
  import opened StatusCodec
  import opened SpoolClock
  import opened Journal
  import opened JournalTheorems

  /** The same message at another time: only statuses, schedules, flags and expiry times may differ. */
  predicate SameMessage(m: Message, m': Message) {
    && m'.(domains := m.domains, recipients := m.recipients) == m
    && |m'.domains| == |m.domains| && |m'.recipients| == |m.recipients|
    && (forall i | 0 <= i < |m.domains| :: m'.domains[i].domain == m.domains[i].domain)
    && (forall i | 0 <= i < |m.recipients| ::
          m'.recipients[i].(status := m.recipients[i].status, flags := m.recipients[i].flags) == m.recipients[i])
  }

  predicate Unmarked(m: Message) {
    && (forall i | 0 <= i < |m.domains| :: !m.domains[i].changed)
    && (forall i | 0 <= i < |m.recipients| :: !m.recipients[i].flags.statusChanged)
  }

  function FollowedDomain(d: Domain, d': Domain): Domain {
    if d'.changed then d'.(expires := d.expires) else d
  }

  function FollowedRcpt(r: Recipient, r': Recipient): Recipient {
    if r'.flags.statusChanged then r' else r
  }

  /** `m` with the marked changes of `m'`. */
  function Followed(m: Message, m': Message): Message
    requires SameMessage(m, m')
  {
    m.(domains := seq(|m.domains|, i requires 0 <= i < |m.domains| => FollowedDomain(m.domains[i], m'.domains[i])),
       recipients := seq(|m.recipients|, i requires 0 <= i < |m.recipients| => FollowedRcpt(m.recipients[i], m'.recipients[i])))
  }

  /** A first full write without marks, and saves of the same message. */
  predicate SavesOfOne(first: Save, saves: seq<Save>) {
    Unmarked(first.message) && forall i | 0 <= i < |saves| :: SameMessage(first.message, saves[i].message)
  }

  /** The message as the file has it after the saves. */
  function Seen(first: Save, saves: seq<Save>): (m: Message)
    requires SavesOfOne(first, saves)
    ensures SameMessage(first.message, m) && Unmarked(m)
  {
    if saves == [] then first.message
    else
      var last := |saves| - 1;
      Cleared(Followed(Seen(first, saves[..last]), saves[last].message))
  }

  /** The saves with their unmarked changes left out. */
  function Shown(first: Save, saves: seq<Save>): (shown: seq<Save>)
    requires SavesOfOne(first, saves)
    ensures |shown| == |saves|
  {
    if saves == [] then []
    else
      var last := |saves| - 1;
      Shown(first, saves[..last]) + [Save(Followed(Seen(first, saves[..last]), saves[last].message), saves[last].clock)]
  }

  // ----- Unmarked changes are not written -----

  lemma {:induction false} SameDomainRecords(ds: seq<Domain>, ds': seq<Domain>, from: nat, now: Clock)
    requires |ds'| == |ds| && forall i | 0 <= i < |ds| ::
      ds'[i].changed == ds[i].changed && (ds[i].changed ==> ds'[i] == ds[i].(expires := ds'[i].expires))
    ensures DomainRecords(ds', from, now, false) == DomainRecords(ds, from, now, false)
  {
    hide Timestamp;
    if ds != [] {
      SameDomainRecords(ds[1..], ds'[1..], from + 1, now);
    }
  }

  lemma {:induction false} SameRcptRecords(rs: seq<Recipient>, rs': seq<Recipient>, from: nat)
    requires |rs'| == |rs| && forall i | 0 <= i < |rs| ::
      rs'[i].flags.statusChanged == rs[i].flags.statusChanged && (rs[i].flags.statusChanged ==> rs'[i] == rs[i])
    ensures RcptRecords(rs', from, false) == RcptRecords(rs, from, false)
  {
    if rs != [] {
      SameRcptRecords(rs[1..], rs'[1..], from + 1);
    }
  }

  lemma FollowedWritesTheSame(m: Message, m': Message, now: Clock)
    requires SameMessage(m, m') && Unmarked(m)
    ensures Changes(Followed(m, m'), now) == Changes(m', now)
  {
    hide DomainRecords, RcptRecords, PrintAll;
    SameDomainRecords(m'.domains, Followed(m, m').domains, 0, now);
    SameRcptRecords(m'.recipients, Followed(m, m').recipients, 0);
  }

  lemma FollowedIsTracked(m: Message, m': Message)
    requires SameMessage(m, m') && Unmarked(m)
    ensures Tracked(m, Followed(m, m'))
  {
  }

  lemma {:induction false} ShownIsHistory(first: Save, saves: seq<Save>)
    requires SavesOfOne(first, saves)
    ensures History(first, Shown(first, saves)) && Live(first, Shown(first, saves)) == Seen(first, saves)
    ensures File(first, Shown(first, saves)) == File(first, saves)
  {
    hide Followed, Cleared, Tracked, Changes, Serialize, SameMessage, Unmarked;
    if saves != [] {
      var last := |saves| - 1;
      var init, shown := saves[..last], Shown(first, saves);
      ShownIsHistory(first, init);
      assert shown[..last] == Shown(first, init);
      SeenBefore(first, saves);
      FollowedIsTracked(Seen(first, init), saves[last].message);
      FollowedWritesTheSame(Seen(first, init), saves[last].message, saves[last].clock);
    }
  }

  lemma SeenBefore(first: Save, saves: seq<Save>)
    requires SavesOfOne(first, saves) && saves != []
    ensures
      var last := |saves| - 1;
      && SavesOfOne(first, saves[..last])
      && SameMessage(Seen(first, saves[..last]), saves[last].message) && Unmarked(Seen(first, saves[..last]))
  {
  }

  /** Within the limits of the format, the file always reads back as the message that it has seen. */
  lemma FileShowsSeen(first: Save, saves: seq<Save>, now: Clock)
    requires SavesOfOne(first, saves) && ReadAfter(first, saves, now)
    requires Representable(first.message, first.clock) && FitsMessage(first.message)
    requires forall i | 0 <= i < |saves| ::
      Representable(Shown(first, saves)[i].message, saves[i].clock) && FitsMessage(Shown(first, saves)[i].message)
    ensures Deserialize(File(first, saves), now).Some?
    ensures Restored(Seen(first, saves), Deserialize(File(first, saves), now).value, now.mono)
  {
    hide Deserialize, File, Representable, FitsMessage, Seen, Restored, History, Live, SavesOfOne, Shown;
    ShownIsHistory(first, saves);
    ShownClocks(first, saves);
    JournalRestores(first, Shown(first, saves), now);
  }

  lemma {:induction false} ShownClocks(first: Save, saves: seq<Save>)
    requires SavesOfOne(first, saves)
    ensures forall i | 0 <= i < |saves| :: Shown(first, saves)[i].clock == saves[i].clock
  {
    hide Followed;
    if saves != [] {
      ShownClocks(first, saves[..|saves| - 1]);
    }
  }

  // ----- When the file has seen everything -----

  /** A save keeps the file in step with the message if and only if every change carries its mark. */
  lemma InStepIff(m: Message, m': Message)
    requires SameMessage(m, m') && Unmarked(m)
    ensures Cleared(Followed(m, m')) == Cleared(m') <==> Tracked(m, m')
  {
    var f := Followed(m, m');
    if Cleared(f) == Cleared(m') {
      forall i | 0 <= i < |m.domains|
        ensures m'.domains[i].expires == m.domains[i].expires && (!m'.domains[i].changed ==> m'.domains[i] == m.domains[i].(changed := false))
      {
        assert Cleared(f).domains[i] == Cleared(m').domains[i];
      }
      forall i | 0 <= i < |m.recipients| ensures !m'.recipients[i].flags.statusChanged ==> m'.recipients[i] == m.recipients[i] {
        assert Cleared(f).recipients[i] == Cleared(m').recipients[i];
      }
    }
    if Tracked(m, m') {
      assert forall i | 0 <= i < |m.domains| :: f.domains[i] == m'.domains[i];
      assert forall i | 0 <= i < |m.recipients| :: f.recipients[i] == m'.recipients[i];
      assert f.domains == m'.domains && f.recipients == m'.recipients;
    }
  }
}
