/**
 When a drained receiver lists exactly what the forwarding store lists: if and only
 if no leg was ever listed there before its primary.
 */
module Agreement {
  import opened Text
  import opened Records
  import opened Rspamd
  import opened Timeline
  import opened StoreSpec
  import opened Coherence
  import opened Links
  import opened Restart
  import opened Ingest
  import opened Replication

  /** A forwarder parses its own logs only: its records carry no origin. */
  ghost predicate LocalMail(mail: set<Record>) {
    forall r | r in mail :: r.origin == ""
  }

  /** Every row was shipped as a listed snapshot at some point, and every snapshot is of a local row. */
  ghost predicate Shipped(c: Core, snaps: seq<Record>, origin: string) {
    && (forall k | k in Keys(c) :: k.origin == "" && Key(origin, k.qid) in Latest(origin, snaps))
    && (forall s | s in snaps :: s.origin == "")
  }

  lemma RegisterKeys(c: Core, i: nat)
    requires InRange(c) && i < |c.records|
    ensures var s := Register(c, i);
      && Keys(s.core) == Keys(c)
      && (forall r | r in s.snaps :: KeyOf(r) in Keys(c))
      && s.core.records[i].subsumed == c.records[i].subsumed
  {
    var s := Register(c, i);
    assert Keys(s.core) == Keys(c);
    if s.snaps != [] {
      assert Keys(c)[c.byQueueID[DeliveryKey(c.records[i])]] == KeyOf(s.snaps[0]);
    }
  }

  lemma SettleKeys(c: Core, i: nat, link: bool)
    requires InRange(c) && i < |c.records|
    ensures var s := Settle(c, i, link);
      && Keys(s.core) == Keys(c) && s.snaps != []
      && (forall r | r in s.snaps :: KeyOf(r) in Keys(c))
      && KeyOf(s.snaps[|s.snaps| - 1]) == KeyOf(c.records[i])
      && s.snaps[|s.snaps| - 1].subsumed == c.records[i].subsumed
  {
    if link {
      RegisterKeys(c, i);
    }
    var reg := if link then Register(c, i) else Step(c, []);
    var settled := ApplyPending(reg.core, i);
    assert Keys(reg.core)[i] == KeyOf(reg.core.records[i]) && Keys(c)[i] == KeyOf(c.records[i]);
    assert Keys(settled) == Keys(reg.core);
  }

  /** Flushing more snapshots of known rows keeps everything shipped. */
  lemma MoreShipped(c: Core, snaps: seq<Record>, c': Core, more: seq<Record>, origin: string)
    requires Shipped(c, snaps, origin)
    requires forall r | r in more :: r.origin == ""
    requires forall k | k in Keys(c') :: k in Keys(c) || (k.origin == "" && Key(origin, k.qid) in Latest(origin, more))
    ensures Shipped(c', snaps + more, origin)
  {
    LatestConcat(origin, snaps, more);
  }

  lemma LastIsShipped(snaps: seq<Record>, origin: string)
    requires snaps != [] && !snaps[|snaps| - 1].subsumed
    ensures Key(origin, snaps[|snaps| - 1].qid) in Latest(origin, snaps)
  {
  }

  lemma LocalSnaps(c: Core, snaps: seq<Record>)
    requires forall k | k in Keys(c) :: k.origin == ""
    requires forall r | r in snaps :: KeyOf(r) in Keys(c)
    ensures forall r | r in snaps :: r.origin == ""
  {
    forall r | r in snaps
      ensures r.origin == ""
    {
      assert KeyOf(r).origin == "";
    }
  }

  lemma FoldLegShipped(c: Core, snaps: seq<Record>, r: Record, origin: string)
    requires InRange(c) && Shipped(c, snaps, origin) && IsLeg(c, KeyOf(r))
    ensures var s := FoldLeg(c, r); Shipped(s.core, snaps + s.snaps, origin)
  {
    var s, p := FoldLeg(c, r), c.byDelivery[KeyOf(r)];
    assert Keys(c)[p] == KeyOf(s.snaps[0]);
    assert Keys(s.core) == Keys(c);
    MoreShipped(c, snaps, s.core, s.snaps, origin);
  }

  lemma MergeKnownShipped(c: Core, snaps: seq<Record>, r: Record, origin: string)
    requires InRange(c) && Shipped(c, snaps, origin) && IsKnown(c, KeyOf(r))
    ensures var s := MergeKnown(c, r); Shipped(s.core, snaps + s.snaps, origin)
  {
    var s, i := MergeKnown(c, r), c.byQueueID[KeyOf(r)];
    var merged := Put(c, i, MergeRecord(c.records[i], r));
    assert Keys(merged) == Keys(c);
    SettleKeys(merged, i, r.delivery != "");
    LocalSnaps(c, s.snaps);
    MoreShipped(c, snaps, s.core, s.snaps, origin);
  }

  lemma AppendShipped(c: Core, snaps: seq<Record>, r: Record, origin: string)
    requires InRange(c) && Shipped(c, snaps, origin) && r.origin == "" && !r.subsumed
    ensures var s := Settle(Append(c, r), |c.records|, r.delivery != ""); Shipped(s.core, snaps + s.snaps, origin)
  {
    assert Keys(Append(c, r)) == Keys(c) + [KeyOf(r)];
    SettleKeys(Append(c, r), |c.records|, r.delivery != "");
    AppendedShipped(c, snaps, r, origin, Settle(Append(c, r), |c.records|, r.delivery != ""));
  }

  lemma AppendedShipped(c: Core, snaps: seq<Record>, r: Record, origin: string, s: Step)
    requires Shipped(c, snaps, origin) && r.origin == "" && Keys(s.core) == Keys(c) + [KeyOf(r)]
    requires s.snaps != [] && forall t | t in s.snaps :: KeyOf(t) in Keys(s.core)
    requires KeyOf(s.snaps[|s.snaps| - 1]) == KeyOf(r) && !s.snaps[|s.snaps| - 1].subsumed
    ensures Shipped(s.core, snaps + s.snaps, origin)
  {
    LastIsShipped(s.snaps, origin);
    LocalKeys(Keys(s.core), Keys(c), s.snaps, r);
    MoreShipped(c, snaps, s.core, s.snaps, origin);
  }

  lemma LocalKeys(keys: seq<Key>, known: seq<Key>, snaps: seq<Record>, r: Record)
    requires keys == known + [KeyOf(r)] && r.origin == ""
    requires forall k | k in known :: k.origin == ""
    requires forall s | s in snaps :: KeyOf(s) in keys
    ensures forall s | s in snaps :: s.origin == ""
    ensures forall k | k in keys :: k in known || k == Key("", r.qid)
  {
    forall s | s in snaps
      ensures s.origin == ""
    {
      assert KeyOf(s) in known || KeyOf(s) == KeyOf(r);
    }
  }

  lemma AddOneShipped(c: Core, snaps: seq<Record>, r: Record, origin: string)
    requires InRange(c) && Shipped(c, snaps, origin) && r.origin == "" && !r.subsumed
    ensures var s := AddOne(c, r); Shipped(s.core, snaps + s.snaps, origin)
  {
    var noted := NoteOrigin(c, r.origin);
    assert Keys(noted) == Keys(c);
    if IsLeg(noted, KeyOf(r)) {
      FoldLegShipped(noted, snaps, r, origin);
    } else if IsKnown(noted, KeyOf(r)) {
      MergeKnownShipped(noted, snaps, r, origin);
    } else {
      AppendShipped(noted, snaps, r, origin);
    }
  }

  lemma Associates<X>(a: seq<X>, b: seq<X>, c: seq<X>)
    ensures a + b + c == a + (b + c)
  {
  }

  lemma {:induction false} AddShipped(c: Core, snaps: seq<Record>, records: seq<Record>, origin: string)
    requires InRange(c) && Shipped(c, snaps, origin) && forall r | r in records :: r.origin == "" && !r.subsumed
    ensures var s := Add(c, records); Shipped(s.core, snaps + s.snaps, origin)
  {
    if records == [] {
      assert snaps + [] == snaps;
    } else {
      var front, r := records[..|records| - 1], records[|records| - 1];
      AddShipped(c, snaps, front, origin);
      var f := Add(c, front);
      assert r in records;
      AddOneShipped(f.core, snaps + f.snaps, r, origin);
      Associates(snaps, f.snaps, AddOne(f.core, r).snaps);
    }
  }

  lemma ApplyVerdictShipped(c: Core, snaps: seq<Record>, qid: string, v: RspamdVerdict, origin: string)
    requires Shipped(c, snaps, origin)
    ensures var s := ApplyVerdict(c, qid, v); Shipped(s.core, snaps + s.snaps, origin)
  {
    var s := ApplyVerdict(c, qid, v);
    assert Keys(s.core) == Keys(c);
    if VerdictMatches(c, qid) {
      assert Keys(c)[c.byQueueID[Key("", qid)]] == KeyOf(s.snaps[0]);
    }
    MoreShipped(c, snaps, s.core, s.snaps, origin);
  }

  lemma {:induction false} RunShipped(events: seq<Event>, mail: set<Record>, origin: string)
    requires OnePrimary(mail) && LocalMail(mail) && MailOf(events) <= mail
    ensures Shipped(Run(events).core, Run(events).snaps, origin)
  {
    if events == [] {
    } else {
      MailOfParts(events);
      var front := events[..|events| - 1];
      RunShipped(front, mail, origin);
      match events[|events| - 1]
      case Mail(records) => AddShipped(Run(front).core, Run(front).snaps, records, origin);
      case Scanner(qid, v) => ApplyVerdictShipped(Run(front).core, Run(front).snaps, qid, v, origin);
    }
  }

  /** The last snapshot against the last listed one. */
  lemma {:induction false} LatestAgainstLast(origin: string, snaps: seq<Record>, q: string)
    requires forall s | s in snaps :: s.origin == ""
    ensures var last, listed := Upsert(map[], snaps), Latest(origin, snaps);
      && (Key(origin, q) in listed ==> Key("", q) in last)
      && (Key("", q) in last && !last[Key("", q)].subsumed ==>
            Key(origin, q) in listed && listed[Key(origin, q)] == Stamp(origin, last[Key("", q)]))
  {
    if snaps == [] {
    } else {
      LatestAgainstLast(origin, snaps[..|snaps| - 1], q);
    }
  }

  ghost predicate SameRow(received: map<Key, Record>, local: map<Key, Record>, origin: string, q: string) {
    && (Key(origin, q) in received <==> Key("", q) in local)
    && (Key("", q) in local ==> received[Key(origin, q)] == Stamp(origin, local[Key("", q)]))
  }

  /** The receiver's rows for one server are that server's own listed rows, stamped. */
  ghost predicate SameRows(received: map<Key, Record>, local: map<Key, Record>, origin: string) {
    forall q :: SameRow(received, local, origin, q)
  }

  lemma SubsumedNotListed(c: Core, i: nat)
    requires Keyed(c) && i < |c.records| && c.records[i].subsumed
    ensures KeyOf(c.records[i]) !in View(c)
  {
    var k := KeyOf(c.records[i]);
    if k in c.byQueueID && c.byQueueID[k] < |c.records| && KeyOf(c.records[c.byQueueID[k]]) == k {
      assert Keys(c)[i] == k && Keys(c)[c.byQueueID[k]] == k;
    }
  }

  /** A subsumed leg stays listed on the receiver, because it was shipped as a listed row. */
  lemma SubsumedStaysReceived(c: Core, snaps: seq<Record>, origin: string, i: nat)
    requires Keyed(c) && Shipped(c, snaps, origin) && i < |c.records| && c.records[i].subsumed
    ensures !SameRows(Latest(origin, snaps), View(c), origin)
  {
    var k := KeyOf(c.records[i]);
    assert Keys(c)[i] == k;
    SubsumedNotListed(c, i);
    assert Key(origin, k.qid) in Latest(origin, snaps) && k == Key("", k.qid);
    assert !SameRow(Latest(origin, snaps), View(c), origin, k.qid);
  }

  lemma ReceivedIsListed(c: Core, snaps: seq<Record>, origin: string, q: string)
    requires Coherent(c) && Shipped(c, snaps, origin) && Mirrors(c, Upsert(map[], snaps))
    requires forall r | r in c.records :: !r.subsumed
    requires Key(origin, q) in Latest(origin, snaps)
    ensures Key("", q) in View(c)
  {
    LatestAgainstLast(origin, snaps, q);
    assert Key("", q) in Keys(c);
    var i :| 0 <= i < |c.records| && Keys(c)[i] == Key("", q);
    assert c.records[i] in c.records;
    ListedShows(c, i);
  }

  lemma ListedIsReceived(c: Core, snaps: seq<Record>, origin: string, q: string)
    requires Mirrors(c, Upsert(map[], snaps)) && Shipped(c, snaps, origin) && Key("", q) in View(c)
    ensures Key(origin, q) in Latest(origin, snaps)
    ensures Latest(origin, snaps)[Key(origin, q)] == Stamp(origin, View(c)[Key("", q)])
  {
    LatestAgainstLast(origin, snaps, q);
    assert Shows(Upsert(map[], snaps), c.records[c.byQueueID[Key("", q)]]);
  }

  lemma NoneSubsumedAgrees(c: Core, snaps: seq<Record>, origin: string)
    requires Coherent(c) && Mirrors(c, Upsert(map[], snaps)) && Shipped(c, snaps, origin)
    requires forall r | r in c.records :: !r.subsumed
    ensures SameRows(Latest(origin, snaps), View(c), origin)
  {
    forall q
      ensures SameRow(Latest(origin, snaps), View(c), origin, q)
    {
      if Key(origin, q) in Latest(origin, snaps) {
        ReceivedIsListed(c, snaps, origin, q);
      }
      if Key("", q) in View(c) {
        ListedIsReceived(c, snaps, origin, q);
      }
    }
  }

  /** What was last shipped as listed is what is listed now, exactly when no row is subsumed. */
  lemma LatestIsViewIffNoneSubsumed(c: Core, snaps: seq<Record>, origin: string)
    requires Coherent(c) && Keyed(c) && Mirrors(c, Upsert(map[], snaps)) && Shipped(c, snaps, origin)
    ensures SameRows(Latest(origin, snaps), View(c), origin) <==> forall r | r in c.records :: !r.subsumed
  {
    if r :| r in c.records && r.subsumed {
      var i :| 0 <= i < |c.records| && c.records[i] == r;
      SubsumedStaysReceived(c, snaps, origin, i);
    } else {
      NoneSubsumedAgrees(c, snaps, origin);
    }
  }

  lemma RunAgrees(events: seq<Event>, origin: string)
    requires OnePrimary(MailOf(events)) && LocalMail(MailOf(events))
    ensures SameRows(Latest(origin, Run(events).snaps), View(Run(events).core), origin)
      <==> forall r | r in Run(events).core.records :: !r.subsumed
  {
    var mail := MailOf(events);
    RunLinked(events, mail);
    OnePrimaryWelcomed(EMPTY, events, mail);
    RunMirrors(events);
    RunShipped(events, mail, origin);
    LatestIsViewIffNoneSubsumed(Run(events).core, Run(events).snaps, origin);
  }

  /** Without any condition: a row is received for every row there is, and each listed one as it is listed. */
  ghost predicate RowForRow(received: map<Key, Record>, c: Core, origin: string) {
    && (forall q :: Key(origin, q) in received <==> Key("", q) in Keys(c))
    && (forall i | 0 <= i < |c.records| && !c.records[i].subsumed ::
          Key(origin, c.records[i].qid) in received && received[Key(origin, c.records[i].qid)] == Stamp(origin, c.records[i]))
  }

  lemma LatestIsRowForRow(c: Core, snaps: seq<Record>, origin: string)
    requires Mirrors(c, Upsert(map[], snaps)) && Shipped(c, snaps, origin)
    ensures RowForRow(Latest(origin, snaps), c, origin)
  {
    var received := Latest(origin, snaps);
    forall q
      ensures Key(origin, q) in received <==> Key("", q) in Keys(c)
    {
      LatestAgainstLast(origin, snaps, q);
      assert Key("", q) in Keys(c) ==> Key(origin, Key("", q).qid) in received;
    }
    forall i | 0 <= i < |c.records| && !c.records[i].subsumed
      ensures Key(origin, c.records[i].qid) in received && received[Key(origin, c.records[i].qid)] == Stamp(origin, c.records[i])
    {
      assert Keys(c)[i] == KeyOf(c.records[i]);
      assert Shows(Upsert(map[], snaps), c.records[i]);
      LatestAgainstLast(origin, snaps, c.records[i].qid);
    }
  }

  lemma DrainedPart(recv: Core, origin: string, moves: seq<Move>)
    requires Drained(Moves(recv, origin, moves)) && Part(View(recv), origin) == map[]
    ensures var s := Moves(recv, origin, moves);
      Part(View(s.recv), origin) == Latest(origin, Run(s.events).snaps) && s.store == Run(s.events).core
  {
    ExactlyOnce(recv, origin, moves);
    MovesSound(recv, origin, moves);
    assert forall m: map<Key, Record> :: map[] + m == m;
  }

  /**
   End-to-end replication: once everything is drained, a receiver that started without
   rows of this server has a row for each row of the forwarding store, the listed ones as
   they are; so it lists exactly the store's rows, stamped with its name, if and only if
   that store holds no leg it had listed before its primary arrived.
   */
  lemma ReplicationAgrees(recv: Core, origin: string, moves: seq<Move>)
    requires var s := Moves(recv, origin, moves);
      && Drained(s) && Part(View(recv), origin) == map[]
      && OnePrimary(MailOf(s.events)) && LocalMail(MailOf(s.events))
    ensures var s := Moves(recv, origin, moves);
      && RowForRow(Part(View(s.recv), origin), s.store, origin)
      && (SameRows(Part(View(s.recv), origin), View(s.store), origin) <==> forall r | r in s.store.records :: !r.subsumed)
  {
    DrainedPart(recv, origin, moves);
    var events := Moves(recv, origin, moves).events;
    RunAgrees(events, origin);
    var mail := MailOf(events);
    OnePrimaryWelcomed(EMPTY, events, mail);
    RunMirrors(events);
    RunShipped(events, mail, origin);
    LatestIsRowForRow(Run(events).core, Run(events).snaps, origin);
  }

  /** A run on which they differ: the leg comes first, is shipped as a listed row, and stays listed on the receiver. */
  lemma LegFirstStaysListed(recv: Core, origin: string, leg: Record, primary: Record) returns (moves: seq<Move>)
    requires leg == BLANK.(qid := "D") && primary == BLANK.(qid := "A", delivery := "D")
    ensures var s := Moves(recv, origin, moves);
      && Drained(s) && s.store.records == [leg.(subsumed := true), primary]
      && Key(origin, "D") in View(s.recv) && Key("", "D") !in View(s.store)
  {
    var mail := Update(Mail([leg, primary]));
    FirstUpdate(recv, origin, Mail([leg, primary]));
    FoldsFirstLeg(leg, primary);
    var queued := Moves(recv, origin, [mail]);
    Round(recv, origin, [mail]);
    moves := [mail] + [ReadOffset, Drain(false), Delivered(true)];
    FirstLegReceived(recv, origin, leg, primary);
    FirstLegHidden(queued.store, leg, primary);
  }

  lemma FirstLegHidden(c: Core, leg: Record, primary: Record)
    requires leg == BLANK.(qid := "D") && primary == BLANK.(qid := "A", delivery := "D")
    requires c.records == [leg.(subsumed := true), primary]
    ensures Key("", "D") !in View(c)
  {
    assert Keys(c) == [Key("", "D"), Key("", "A")];
    SubsumedNotListed(c, 0);
  }

  lemma FirstLegReceived(recv: Core, origin: string, leg: Record, primary: Record)
    requires leg == BLANK.(qid := "D") && primary == BLANK.(qid := "A", delivery := "D")
    ensures Key(origin, "D") in View(StoreSpec.Ingest(recv, origin, [leg, leg.(subsumed := true), primary]))
  {
    var snaps := [leg, leg.(subsumed := true), primary];
    IngestView(recv, origin, snaps);
    LatestIsLast(origin, snaps, 0);
  }

  function WithLeg(leg: Record): Core {
    Core([leg], map[KeyOf(leg) := 0], map[], map[], false)
  }

  lemma AddsLeg(leg: Record)
    requires leg == BLANK.(qid := "D")
    ensures Add(EMPTY, [leg]) == Step(WithLeg(leg), [leg])
  {
    assert [leg][..0] == [] && [] + [leg] == [leg];
    assert Append(EMPTY, leg) == WithLeg(leg);
    assert AddOne(EMPTY, leg) == Step(WithLeg(leg), [leg]);
  }

  lemma RegistersLeg(leg: Record, primary: Record)
    requires leg == BLANK.(qid := "D") && primary == BLANK.(qid := "A", delivery := "D")
    ensures var s := Register(Append(WithLeg(leg), primary), 1);
      s.core.records == [leg.(subsumed := true), primary] && s.core.pending == map[] && s.snaps == [leg.(subsumed := true)]
  {
    assert MergeDeliveryLeg(primary, leg) == primary;
    assert Append(WithLeg(leg), primary).records == [leg, primary];
  }

  lemma AddsPrimary(leg: Record, primary: Record)
    requires leg == BLANK.(qid := "D") && primary == BLANK.(qid := "A", delivery := "D")
    ensures var s := AddOne(WithLeg(leg), primary);
      s.core.records == [leg.(subsumed := true), primary] && s.snaps == [leg.(subsumed := true), primary]
  {
    RegistersLeg(leg, primary);
    assert NoteOrigin(WithLeg(leg), primary.origin) == WithLeg(leg);
    assert AddOne(WithLeg(leg), primary) == Settle(Append(WithLeg(leg), primary), 1, true);
  }

  lemma AddPair(c: Core, a: Record, b: Record)
    requires InRange(c)
    ensures var one := Add(c, [a]); Add(c, [a, b]) == Step(AddOne(one.core, b).core, one.snaps + AddOne(one.core, b).snaps)
  {
    assert [a, b][..1] == [a];
  }

  lemma FoldsFirstLeg(leg: Record, primary: Record)
    requires leg == BLANK.(qid := "D") && primary == BLANK.(qid := "A", delivery := "D")
    ensures var s := Apply(EMPTY, Mail([leg, primary]));
      && s.core.records == [leg.(subsumed := true), primary]
      && s.snaps == [leg, leg.(subsumed := true), primary]
  {
    AddPair(EMPTY, leg, primary);
    AddsLeg(leg);
    AddsPrimary(leg, primary);
    assert [leg] + [leg.(subsumed := true), primary] == [leg, leg.(subsumed := true), primary];
  }
}
