/**
 When a row is subsumed, told from the order of the mail alone: exactly when some record
 came before the first one that names its id as an onward id.
 */
module LegOrder {
  import opened Text
  import opened Records
  import opened Timeline
  import opened Rspamd
  import opened StoreSpec
  import opened Coherence
  import opened Links
  import opened Refinement
  import opened VerdictOrder
  import opened Replication
  import opened Agreement

  /** One of the first n records names k as its onward id. */
  ghost predicate Names(mail: seq<Record>, n: nat, k: Key)
    requires n <= |mail|
  {
    exists m | 0 <= m < n :: mail[m].delivery != "" && DeliveryKey(mail[m]) == k
  }

  /** Record i came when nobody had named its id yet. */
  ghost predicate Unnamed(mail: seq<Record>, i: nat, k: Key)
    requires i < |mail|
  {
    KeyOf(mail[i]) == k && !Names(mail, i, k)
  }

  /** A record came before the primary that names it. */
  ghost predicate LegFirst(mail: seq<Record>) {
    exists i | 0 <= i < |mail| :: Unnamed(mail, i, KeyOf(mail[i])) && Names(mail, |mail|, KeyOf(mail[i]))
  }

  /** All records of one id name the same onward id, if any. */
  ghost predicate OneOnward(mail: set<Record>) {
    forall r, s | r in mail && s in mail && KeyOf(r) == KeyOf(s) && r.delivery != "" && s.delivery != "" :: r.delivery == s.delivery
  }

  /** The links are the ids named so far, and the rows the records that came unnamed. */
  ghost predicate Follows(c: Core, mail: seq<Record>) {
    && (forall k :: k in c.byDelivery <==> Names(mail, |mail|, k))
    && (forall k :: k in Keys(c) <==> exists i | 0 <= i < |mail| :: Unnamed(mail, i, k))
  }

  lemma NamesSnoc(mail: seq<Record>, r: Record, k: Key)
    ensures Names(mail + [r], |mail| + 1, k) <==> Names(mail, |mail|, k) || (r.delivery != "" && DeliveryKey(r) == k)
    ensures forall i | 0 <= i <= |mail| :: Names(mail + [r], i, k) <==> Names(mail, i, k)
  {
    var all := mail + [r];
    assert all[|mail|] == r;
    assert forall m | 0 <= m < |mail| :: all[m] == mail[m];
  }

  lemma UnnamedSnoc(mail: seq<Record>, r: Record, k: Key)
    ensures (exists i | 0 <= i < |mail| + 1 :: Unnamed(mail + [r], i, k))
      <==> (exists i | 0 <= i < |mail| :: Unnamed(mail, i, k)) || (KeyOf(r) == k && !Names(mail, |mail|, k))
  {
    NamesSnoc(mail, r, k);
    var all := mail + [r];
    assert all[|mail|] == r;
    forall i | 0 <= i < |mail|
      ensures Unnamed(all, i, k) <==> Unnamed(mail, i, k)
    {
      assert all[i] == mail[i];
    }
    assert Unnamed(all, |mail|, k) <==> KeyOf(r) == k && !Names(mail, |mail|, k);
  }

  // ---- what one record changes ----

  lemma SettleChanges(c: Core, i: nat, link: bool)
    requires InRange(c) && i < |c.records|
    ensures var c' := Settle(c, i, link).core;
      && Keys(c') == Keys(c)
      && c'.byDelivery.Keys == c.byDelivery.Keys + if link then {DeliveryKey(c.records[i])} else {}
  {
    SettleKeys(c, i, link);
  }

  /** A record that is not a leg adds its row and the onward id it names; a leg adds nothing. */
  ghost predicate Changes(c: Core, c': Core, r: Record) {
    && (forall k :: k in Keys(c') <==> k in Keys(c) || (k == KeyOf(r) && k !in c.byDelivery))
    && (forall k :: k in c'.byDelivery <==> k in c.byDelivery || (r.delivery != "" && k == DeliveryKey(r)))
  }

  lemma AddOneChanges(c: Core, mail: set<Record>, r: Record)
    requires OnePrimary(mail) && NoChains(mail) && OneOnward(mail) && r in mail && Fits(c, mail, |c.records|)
    ensures Changes(c, AddOne(c, r).core, r)
  {
    var noted := NoteOrigin(c, r.origin);
    ForgetMaps(c, mail, c.pending, noted.hasOrigins);
    NotedChanges(noted, mail, r);
    assert Keys(noted) == Keys(c);
    assert AddOne(noted, r) == AddOne(c, r);
  }

  lemma NotedChanges(c: Core, mail: set<Record>, r: Record)
    requires OneOnward(mail) && NoChains(mail) && r in mail && Fits(c, mail, |c.records|)
    requires NoteOrigin(c, r.origin) == c
    ensures Changes(c, AddOne(c, r).core, r)
  {
    if IsLeg(c, KeyOf(r)) {
      LegChanges(c, mail, r);
    } else if IsKnown(c, KeyOf(r)) {
      KnownOneChanges(c, mail, r);
    } else {
      NewOneChanges(c, r);
    }
  }

  lemma KnownOneChanges(c: Core, mail: set<Record>, r: Record)
    requires OneOnward(mail) && r in mail && Fits(c, mail, |c.records|) && NoteOrigin(c, r.origin) == c
    requires !IsLeg(c, KeyOf(r)) && IsKnown(c, KeyOf(r))
    ensures Changes(c, AddOne(c, r).core, r)
  {
    KnownChanges(c, mail, r);
    KeysChange(c, MergeKnown(c, r).core, r);
  }

  lemma NewOneChanges(c: Core, r: Record)
    requires Indexed(c) && NoteOrigin(c, r.origin) == c && !IsLeg(c, KeyOf(r)) && !IsKnown(c, KeyOf(r))
    ensures Changes(c, AddOne(c, r).core, r)
  {
    NewChanges(c, r);
    KeysChange(c, Settle(Append(c, r), |c.records|, r.delivery != "").core, r);
  }

  lemma KeysChange(c: Core, c': Core, r: Record)
    requires KeyOf(r) !in c.byDelivery
    requires Keys(c') == Keys(c) + [KeyOf(r)] || (Keys(c') == Keys(c) && KeyOf(r) in Keys(c))
    requires c'.byDelivery.Keys == c.byDelivery.Keys + if r.delivery != "" then {DeliveryKey(r)} else {}
    ensures Changes(c, c', r)
  {
    forall k
      ensures k in c'.byDelivery <==> k in c.byDelivery || (r.delivery != "" && k == DeliveryKey(r))
    {
      assert k in c'.byDelivery <==> k in c'.byDelivery.Keys;
    }
  }

  lemma LegChanges(c: Core, mail: set<Record>, r: Record)
    requires NoChains(mail) && r in mail && Fits(c, mail, |c.records|) && IsLeg(c, KeyOf(r))
    ensures Changes(c, FoldLeg(c, r).core, r)
  {
    LegNamesNone(c, mail, r);
    assert Keys(FoldLeg(c, r).core) == Keys(c);
  }

  lemma NewChanges(c: Core, r: Record)
    requires InRange(c)
    ensures var c' := Settle(Append(c, r), |c.records|, r.delivery != "").core;
      && Keys(c') == Keys(c) + [KeyOf(r)]
      && c'.byDelivery.Keys == c.byDelivery.Keys + if r.delivery != "" then {DeliveryKey(r)} else {}
  {
    assert Keys(Append(c, r)) == Keys(c) + [KeyOf(r)];
    SettleChanges(Append(c, r), |c.records|, r.delivery != "");
  }

  lemma LegNamesNone(c: Core, mail: set<Record>, r: Record)
    requires NoChains(mail) && r in mail && Fits(c, mail, |c.records|) && KeyOf(r) in c.byDelivery
    ensures r.delivery == ""
  {
    assert LinkOk(c, KeyOf(r)) && RowOk(c, mail, c.byDelivery[KeyOf(r)]);
  }

  lemma KnownChanges(c: Core, mail: set<Record>, r: Record)
    requires OneOnward(mail) && r in mail && Fits(c, mail, |c.records|)
    requires !IsLeg(c, KeyOf(r)) && IsKnown(c, KeyOf(r))
    ensures var c' := MergeKnown(c, r).core;
      && Keys(c') == Keys(c) && KeyOf(r) in Keys(c)
      && c'.byDelivery.Keys == c.byDelivery.Keys + if r.delivery != "" then {DeliveryKey(r)} else {}
  {
    var i := c.byQueueID[KeyOf(r)];
    assert AliasOk(c, KeyOf(r)) && RowOk(c, mail, i);
    assert Keys(c)[i] == KeyOf(r);
    var put := Put(c, i, MergeRecord(c.records[i], r));
    assert Keys(put) == Keys(c);
    SettleChanges(put, i, r.delivery != "");
  }

  lemma AddOneFollows(c: Core, mail: set<Record>, before: seq<Record>, r: Record)
    requires OnePrimary(mail) && NoChains(mail) && OneOnward(mail) && r in mail && Fits(c, mail, |c.records|)
    requires Follows(c, before)
    ensures Follows(AddOne(c, r).core, before + [r])
  {
    AddOneChanges(c, mail, r);
    ChangesFollow(c, AddOne(c, r).core, before, r);
  }

  lemma ChangesFollow(c: Core, c': Core, before: seq<Record>, r: Record)
    requires Changes(c, c', r) && Follows(c, before)
    ensures Follows(c', before + [r])
  {
    forall k
      ensures k in c'.byDelivery <==> Names(before + [r], |before| + 1, k)
      ensures k in Keys(c') <==> exists i | 0 <= i < |before| + 1 :: Unnamed(before + [r], i, k)
    {
      NamesSnoc(before, r, k);
      UnnamedSnoc(before, r, k);
    }
  }

  /** A store that follows the mail so far, and fits it. */
  ghost predicate Tracks(c: Core, mail: set<Record>, before: seq<Record>) {
    Fits(c, mail, |c.records|) && Follows(c, before)
  }

  lemma AddOneTracks(c: Core, mail: set<Record>, before: seq<Record>, r: Record)
    requires OnePrimary(mail) && NoChains(mail) && OneOnward(mail) && r in mail && Tracks(c, mail, before)
    ensures Tracks(AddOne(c, r).core, mail, before + [r])
  {
    AddOneMaps(c, mail, r);
    AddOneFollows(c, mail, before, r);
  }

  lemma {:induction false} AddTracks(c: Core, mail: set<Record>, before: seq<Record>, records: seq<Record>)
    requires OnePrimary(mail) && NoChains(mail) && OneOnward(mail) && (forall r | r in records :: r in mail)
    requires Tracks(c, mail, before)
    ensures Tracks(Add(c, records).core, mail, before + records)
  {
    if records == [] {
      assert before + records == before;
    } else {
      var front, r := records[..|records| - 1], records[|records| - 1];
      AddTracks(c, mail, before, front);
      OneMoreTracks(Add(c, front).core, mail, before, records);
    }
  }

  lemma OneMoreTracks(c: Core, mail: set<Record>, before: seq<Record>, records: seq<Record>)
    requires OnePrimary(mail) && NoChains(mail) && OneOnward(mail) && (forall r | r in records :: r in mail)
    requires records != [] && Tracks(c, mail, before + records[..|records| - 1])
    ensures Tracks(AddOne(c, records[|records| - 1]).core, mail, before + records)
  {
    var front, r := records[..|records| - 1], records[|records| - 1];
    assert r in records;
    assert before + records == before + front + [r];
    AddOneTracks(c, mail, before + front, r);
  }

  lemma VerdictTracks(c: Core, mail: set<Record>, before: seq<Record>, qid: string, v: RspamdVerdict)
    requires Tracks(c, mail, before)
    ensures Tracks(ApplyVerdict(c, qid, v).core, mail, before)
  {
    ApplyVerdictFits(c, mail, qid, v);
    VerdictFollows(c, before, qid, v);
  }

  lemma VerdictFollows(c: Core, before: seq<Record>, qid: string, v: RspamdVerdict)
    requires Follows(c, before)
    ensures Follows(ApplyVerdict(c, qid, v).core, before)
  {
    assert Keys(ApplyVerdict(c, qid, v).core) == Keys(c);
  }

  lemma {:induction false} RunTracks(events: seq<Event>, mail: set<Record>)
    requires OnePrimary(mail) && NoChains(mail) && OneOnward(mail) && MailOf(events) <= mail
    ensures Tracks(Run(events).core, mail, MailStream(events))
  {
    if events == [] {
      RunFits([], mail);
      assert Keys(EMPTY) == [];
    } else {
      MailOfParts(events);
      var front := events[..|events| - 1];
      RunTracks(front, mail);
      match events[|events| - 1]
      case Mail(records) => AddTracks(Run(front).core, mail, MailStream(front), records);
      case Scanner(qid, v) => VerdictTracks(Run(front).core, mail, MailStream(front), qid, v);
    }
  }

  // ---- the theorem ----

  /** A row is subsumed exactly when its id is an onward id. */
  lemma SubsumedIffLinked(c: Core, mail: set<Record>, i: nat)
    requires NoChains(mail) && Fits(c, mail, |c.records|) && i < |c.records|
    ensures c.records[i].subsumed <==> KeyOf(c.records[i]) in c.byDelivery
  {
    var k := KeyOf(c.records[i]);
    assert RowOk(c, mail, i);
    if k in c.byDelivery {
      assert LinkOk(c, k);
      NamesNotItself(c, mail, c.byDelivery[k]);
      assert c.records[i].subsumed || Listed(c, i);
    }
  }

  lemma NamesNotItself(c: Core, mail: set<Record>, i: nat)
    requires NoChains(mail) && i < |c.records| && RowOk(c, mail, i)
    ensures c.records[i].delivery != "" ==> DeliveryKey(c.records[i]) != KeyOf(c.records[i])
  {
  }

  lemma SubsumedCameFirst(c: Core, all: seq<Record>, mail: set<Record>, i: nat)
    requires NoChains(mail) && Fits(c, mail, |c.records|) && Follows(c, all) && i < |c.records| && c.records[i].subsumed
    ensures LegFirst(all)
  {
    SubsumedIffLinked(c, mail, i);
    var k := KeyOf(c.records[i]);
    assert Keys(c)[i] == k;
    assert k in Keys(c) && k in c.byDelivery;
    var m :| 0 <= m < |all| && Unnamed(all, m, k);
    assert Names(all, |all|, KeyOf(all[m]));
  }

  lemma FirstIsSubsumed(c: Core, all: seq<Record>, mail: set<Record>, m: nat) returns (r: Record)
    requires NoChains(mail) && Fits(c, mail, |c.records|) && Follows(c, all) && m < |all|
    requires Unnamed(all, m, KeyOf(all[m])) && Names(all, |all|, KeyOf(all[m]))
    ensures r in c.records && r.subsumed
  {
    assert KeyOf(all[m]) in Keys(c);
    var i :| 0 <= i < |c.records| && Keys(c)[i] == KeyOf(all[m]);
    SubsumedIffLinked(c, mail, i);
    r := c.records[i];
  }

  /** Some row ends up subsumed exactly when some record came before the primary that names it. */
  lemma SubsumedIffLegFirst(events: seq<Event>, mail: set<Record>)
    requires OnePrimary(mail) && NoChains(mail) && OneOnward(mail) && MailOf(events) <= mail
    ensures (exists r :: r in Run(events).core.records && r.subsumed) <==> LegFirst(MailStream(events))
  {
    RunTracks(events, mail);
    var c, all := Run(events).core, MailStream(events);
    if r :| r in c.records && r.subsumed {
      var i :| 0 <= i < |c.records| && c.records[i] == r;
      SubsumedCameFirst(c, all, mail, i);
    }
    if m :| 0 <= m < |all| && Unnamed(all, m, KeyOf(all[m])) && Names(all, |all|, KeyOf(all[m])) {
      var r := FirstIsSubsumed(c, all, mail, m);
    }
  }

  /**
   End-to-end replication from the order of the mail: once everything is drained, the
   receiver lists this server's rows, stamped, exactly when no record came before the
   primary that names it.
   */
  lemma ReplicationAgreesIffOrdered(recv: Core, origin: string, moves: seq<Move>)
    requires var s := Moves(recv, origin, moves);
      && Drained(s) && Part(View(recv), origin) == map[]
      && OnePrimary(MailOf(s.events)) && LocalMail(MailOf(s.events)) && NoChains(MailOf(s.events)) && OneOnward(MailOf(s.events))
    ensures var s := Moves(recv, origin, moves);
      SameRows(Part(View(s.recv), origin), View(s.store), origin) <==> !LegFirst(MailStream(s.events))
  {
    var s := Moves(recv, origin, moves);
    ReplicationAgrees(recv, origin, moves);
    MovesSound(recv, origin, moves);
    SubsumedIffLegFirst(s.events, MailOf(s.events));
  }
}
