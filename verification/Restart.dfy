/**
 The database as a mirror of the store, and the restart round trip: loading the rows
 back, in any order, gives the same listed records and the same delivery links.
 */
module Restart {
  import opened Text
  import opened Records
  import opened Timeline
  import opened Rspamd
  import opened StoreSpec
  import opened Coherence
  import opened Links

  ghost predicate Shows(db: map<Key, Record>, r: Record) {
    KeyOf(r) in db && db[KeyOf(r)] == r
  }

  /** Every row but one is in the database as it is in memory, and nothing else is there. */
  ghost predicate MirrorsExcept(c: Core, db: map<Key, Record>, except: nat) {
    && (forall j | 0 <= j < |c.records| && j != except :: Shows(db, c.records[j]))
    && (forall k | k in db :: k in Keys(c))
  }

  ghost predicate Mirrors(c: Core, db: map<Key, Record>) {
    MirrorsExcept(c, db, |c.records|)
  }

  lemma PutMirrors(c: Core, db: map<Key, Record>, i: nat, r: Record, except: nat)
    requires MirrorsExcept(c, db, except) && i < |c.records| && KeyOf(r) == KeyOf(c.records[i])
    requires except == i || except == |c.records|
    ensures Keys(Put(c, i, r)) == Keys(c) && MirrorsExcept(Put(c, i, r), db, i)
  {
  }

  lemma AppendMirrors(c: Core, db: map<Key, Record>, r: Record)
    requires Mirrors(c, db)
    ensures MirrorsExcept(Append(c, r), db, |c.records|)
  {
    assert Keys(Append(c, r)) == Keys(c) + [KeyOf(r)];
  }

  /** Writing row i leaves at most one other row behind. */
  lemma WriteMirrors(c: Core, db: map<Key, Record>, i: nat, except: nat)
    requires Keyed(c) && i < |c.records|
    requires forall j | 0 <= j < |c.records| && j != except && j != i :: Shows(db, c.records[j])
    requires forall k | k in db :: k in Keys(c)
    ensures var db' := db[KeyOf(c.records[i]) := c.records[i]]; MirrorsExcept(c, db', if except == i then |c.records| else except)
  {
    var db' := db[KeyOf(c.records[i]) := c.records[i]];
    assert Keys(c)[i] == KeyOf(c.records[i]);
    forall j | 0 <= j < |c.records| && (j != except || except == i)
      ensures Shows(db', c.records[j])
    {
      assert Keys(c)[j] == KeyOf(c.records[j]);
    }
  }

  lemma UpsertOne(db: map<Key, Record>, r: Record)
    ensures Upsert(db, [r]) == db[KeyOf(r) := r]
  {
    assert [r][..0] == [];
  }

  lemma RegisterMirrors(c: Core, db: map<Key, Record>, i: nat)
    requires InRange(c) && Keyed(c) && i < |c.records| && MirrorsExcept(c, db, i)
    ensures var s := Register(c, i); Keys(s.core) == Keys(c) && MirrorsExcept(s.core, Upsert(db, s.snaps), i)
  {
    var s := Register(c, i);
    assert Keys(s.core) == Keys(c);
    if s.snaps != [] {
      var o := c.byQueueID[DeliveryKey(c.records[i])];
      UpsertOne(db, s.snaps[0]);
      WriteMirrors(s.core, db, o, i);
    }
  }

  lemma SettleMirrors(c: Core, db: map<Key, Record>, i: nat, link: bool)
    requires InRange(c) && Keyed(c) && i < |c.records| && MirrorsExcept(c, db, i)
    ensures var s := Settle(c, i, link); Keys(s.core) == Keys(c) && Mirrors(s.core, Upsert(db, s.snaps))
  {
    if link {
      RegisterMirrors(c, db, i);
    }
    var reg := if link then Register(c, i) else Step(c, []);
    var db1 := Upsert(db, reg.snaps);
    var settled := ApplyPending(reg.core, i);
    assert Keys(settled) == Keys(c);
    WriteMirrors(settled, db1, i, i);
    UpsertConcat(db, reg.snaps, [settled.records[i]]);
    UpsertOne(db1, settled.records[i]);
  }

  lemma FoldLegMirrors(c: Core, db: map<Key, Record>, r: Record)
    requires InRange(c) && Keyed(c) && Mirrors(c, db) && IsLeg(c, KeyOf(r))
    ensures var s := FoldLeg(c, r); Mirrors(s.core, Upsert(db, s.snaps))
  {
    var s, p := FoldLeg(c, r), c.byDelivery[KeyOf(r)];
    assert Keys(s.core) == Keys(c);
    UpsertOne(db, s.snaps[0]);
    WriteMirrors(s.core, db, p, p);
  }

  lemma MergeKnownMirrors(c: Core, db: map<Key, Record>, r: Record)
    requires InRange(c) && Keyed(c) && Mirrors(c, db) && IsKnown(c, KeyOf(r))
    ensures var s := MergeKnown(c, r); Mirrors(s.core, Upsert(db, s.snaps))
  {
    var i := c.byQueueID[KeyOf(r)];
    PutMirrors(c, db, i, MergeRecord(c.records[i], r), |c.records|);
    SettleMirrors(Put(c, i, MergeRecord(c.records[i], r)), db, i, r.delivery != "");
  }

  lemma AppendNewMirrors(c: Core, db: map<Key, Record>, r: Record)
    requires InRange(c) && Keyed(c) && Mirrors(c, db) && KeyOf(r) !in Keys(c)
    ensures var s := Settle(Append(c, r), |c.records|, r.delivery != ""); Mirrors(s.core, Upsert(db, s.snaps))
  {
    AppendMirrors(c, db, r);
    assert Keys(Append(c, r)) == Keys(c) + [KeyOf(r)];
    SettleMirrors(Append(c, r), db, |c.records|, r.delivery != "");
  }

  lemma AddOneMirrors(c: Core, db: map<Key, Record>, mail: set<Record>, r: Record)
    requires WellLinked(c, mail) && Mirrors(c, db)
    ensures var s := AddOne(c, r); Mirrors(s.core, Upsert(db, s.snaps))
  {
    var noted := NoteOrigin(c, r.origin);
    NotedLinked(c, mail, r.origin);
    assert Keys(noted) == Keys(c);
    if IsLeg(noted, KeyOf(r)) {
      FoldLegMirrors(noted, db, r);
    } else if IsKnown(noted, KeyOf(r)) {
      MergeKnownMirrors(noted, db, r);
    } else {
      NewKeyIsNew(noted, mail, KeyOf(r));
      AppendNewMirrors(noted, db, r);
    }
  }

  lemma {:induction false} AddMirrors(c: Core, db: map<Key, Record>, mail: set<Record>, records: seq<Record>)
    requires InRange(c) && LinkedAllAlong(c, records, mail) && Mirrors(c, db)
    ensures var s := Add(c, records); Mirrors(s.core, Upsert(db, s.snaps))
  {
    if records == [] {
    } else {
      var front, r := records[..|records| - 1], records[|records| - 1];
      AddMirrors(c, db, mail, front);
      var f := Add(c, front);
      AddOneMirrors(f.core, Upsert(db, f.snaps), mail, r);
      UpsertConcat(db, f.snaps, AddOne(f.core, r).snaps);
    }
  }

  lemma BatchMirrors(c: Core, db: map<Key, Record>, mail: set<Record>, records: seq<Record>)
    requires WellLinked(c, mail) && (forall r | r in records :: r in mail && !r.subsumed) && AllWelcome(c, records)
    requires Mirrors(c, db)
    ensures var s := Add(c, records); Mirrors(s.core, Upsert(db, s.snaps))
  {
    BatchWelcomed(c, records, mail);
    AddMirrors(c, db, mail, records);
  }

  lemma ApplyVerdictMirrors(c: Core, db: map<Key, Record>, qid: string, v: RspamdVerdict)
    requires Keyed(c) && Mirrors(c, db)
    ensures var s := ApplyVerdict(c, qid, v); Mirrors(s.core, Upsert(db, s.snaps))
  {
    var s := ApplyVerdict(c, qid, v);
    assert Keys(s.core) == Keys(c);
    if VerdictMatches(c, qid) {
      var i := c.byQueueID[Key("", qid)];
      UpsertOne(db, s.snaps[0]);
      WriteMirrors(s.core, db, i, i);
    }
  }

  /** The database rows after a run. */
  function Stored(events: seq<Event>): map<Key, Record> {
    Upsert(map[], Run(events).snaps)
  }

  /** However a mirrored run goes on, the database holds each row exactly as memory does, and no other row. */
  lemma {:induction false} RunFromMirrors(c: Core, db: map<Key, Record>, events: seq<Event>, mail: set<Record>)
    requires WellLinked(c, mail) && MailOf(events) <= mail && WelcomeMail(c, events) && Mirrors(c, db)
    ensures Mirrors(RunFrom(c, events).core, Upsert(db, RunFrom(c, events).snaps))
  {
    if events == [] {
    } else {
      var front, last := events[..|events| - 1], events[|events| - 1];
      MailOfParts(events);
      WelcomeFront(c, events);
      RunFromWelcomed(c, front, mail);
      RunFromMirrors(c, db, front, mail);
      var f := RunFrom(c, front);
      UpsertConcat(db, f.snaps, Apply(f.core, last).snaps);
      match last
      case Mail(records) => BatchMirrors(f.core, Upsert(db, f.snaps), mail, records);
      case Scanner(qid, v) => ApplyVerdictMirrors(f.core, Upsert(db, f.snaps), qid, v);
    }
  }

  lemma RunMirrors(events: seq<Event>)
    requires WelcomeMail(EMPTY, events)
    ensures Mirrors(Run(events).core, Stored(events))
  {
    RunFromMirrors(EMPTY, map[], events, MailOf(events));
  }

  // ---- loading the rows back ----

  function RowKeys(rows: seq<Record>): seq<Key> {
    seq(|rows|, i requires 0 <= i < |rows| => KeyOf(rows[i]))
  }

  /** Some order in which the database lists its rows. */
  ghost predicate Lists(rows: seq<Record>, db: map<Key, Record>) {
    && Distinct(RowKeys(rows))
    && (forall r | r in rows :: Shows(db, r))
    && (forall k | k in db :: k in RowKeys(rows))
  }

  /** Among listed rows, an onward id is expected by one row and is no other row's own id. */
  ghost predicate CleanLinks(rows: seq<Record>) {
    forall i, j | 0 <= i < |rows| && 0 <= j < |rows| && !rows[i].subsumed && !rows[j].subsumed && rows[i].delivery != "" ::
      (DeliveryKey(rows[i]) == KeyOf(rows[j]) || (rows[j].delivery != "" && DeliveryKey(rows[i]) == DeliveryKey(rows[j]))) ==> i == j
  }

  ghost predicate LoadedRow(c: Core, r: Record) {
    && KeyOf(r) in c.byQueueID && c.byQueueID[KeyOf(r)] < |c.records| && c.records[c.byQueueID[KeyOf(r)]] == r
    && (r.delivery != "" ==>
          var dkey := DeliveryKey(r);
          && dkey in c.byDelivery && c.byDelivery[dkey] == c.byQueueID[KeyOf(r)]
          && dkey in c.byQueueID && c.byQueueID[dkey] == c.byQueueID[KeyOf(r)])
  }

  ghost predicate LoadedKey(c: Core, k: Key, rows: seq<Record>)
    requires k in c.byQueueID
  {
    var i := c.byQueueID[k];
    && i < |c.records| && c.records[i] in rows && !c.records[i].subsumed
    && (k == KeyOf(c.records[i]) || (c.records[i].delivery != "" && k == DeliveryKey(c.records[i])))
  }

  ghost predicate LoadedLink(c: Core, k: Key, rows: seq<Record>)
    requires k in c.byDelivery
  {
    var i := c.byDelivery[k];
    i < |c.records| && c.records[i] in rows && !c.records[i].subsumed && c.records[i].delivery != "" && k == DeliveryKey(c.records[i])
  }

  /** What has been loaded: exactly the rows that are not subsumed, each under its own and its onward id. */
  ghost predicate Loaded(c: Core, rows: seq<Record>) {
    && (forall r | r in rows && !r.subsumed :: LoadedRow(c, r))
    && (forall k | k in c.byQueueID :: LoadedKey(c, k, rows))
    && (forall k | k in c.byDelivery :: LoadedLink(c, k, rows))
  }

  lemma CleanFront(rows: seq<Record>, r: Record)
    requires CleanLinks(rows + [r]) && Distinct(RowKeys(rows + [r]))
    ensures CleanLinks(rows) && Distinct(RowKeys(rows))
    ensures forall s | s in rows :: KeyOf(s) != KeyOf(r)
    ensures !r.subsumed ==> forall s | s in rows && !s.subsumed ::
      && (s.delivery != "" ==> DeliveryKey(s) != KeyOf(r))
      && (r.delivery != "" ==> DeliveryKey(r) != KeyOf(s) && (s.delivery != "" ==> DeliveryKey(r) != DeliveryKey(s)))
  {
    var all := rows + [r];
    var n := |rows|;
    assert all[n] == r && RowKeys(all)[n] == KeyOf(r);
    forall i, j | 0 <= i < j < n
      ensures RowKeys(rows)[i] != RowKeys(rows)[j]
    {
      assert RowKeys(all)[i] != RowKeys(all)[j];
    }
    forall s | s in rows
      ensures KeyOf(s) != KeyOf(r)
      ensures !r.subsumed && !s.subsumed && s.delivery != "" ==> DeliveryKey(s) != KeyOf(r)
      ensures !r.subsumed && !s.subsumed && r.delivery != "" ==> DeliveryKey(r) != KeyOf(s) && (s.delivery != "" ==> DeliveryKey(r) != DeliveryKey(s))
    {
      var i :| 0 <= i < n && rows[i] == s;
      assert all[i] == s && RowKeys(all)[i] == KeyOf(s);
    }
    assert forall i | 0 <= i < n :: all[i] == rows[i];
  }

  /** Neither the row's own key nor its onward key resolves to anything loaded before. */
  lemma KeysUnused(c: Core, rows: seq<Record>, r: Record)
    requires Loaded(c, rows) && CleanLinks(rows + [r]) && Distinct(RowKeys(rows + [r])) && !r.subsumed
    ensures KeyOf(r) !in c.byQueueID && KeyOf(r) !in c.byDelivery
    ensures r.delivery != "" ==> DeliveryKey(r) !in c.byQueueID && DeliveryKey(r) !in c.byDelivery
  {
    CleanFront(rows, r);
    assert KeyOf(r) in c.byQueueID ==> LoadedKey(c, KeyOf(r), rows);
    assert KeyOf(r) in c.byDelivery ==> LoadedLink(c, KeyOf(r), rows);
    assert DeliveryKey(r) in c.byQueueID ==> LoadedKey(c, DeliveryKey(r), rows);
    assert DeliveryKey(r) in c.byDelivery ==> LoadedLink(c, DeliveryKey(r), rows);
  }

  lemma AppendLoaded(c: Core, rows: seq<Record>, r: Record)
    requires Loaded(c, rows) && !r.subsumed && KeyOf(r) !in c.byQueueID && KeyOf(r) !in c.byDelivery
    requires r.delivery != "" ==> DeliveryKey(r) !in c.byQueueID && DeliveryKey(r) !in c.byDelivery
    ensures Loaded(RestoreLink(Append(c, r), |c.records|), rows + [r])
  {
    var c' := RestoreLink(Append(c, r), |c.records|);
    assert c'.records == c.records + [r];
    AppendLoadedRows(c, rows, r, c');
    forall k | k in c'.byQueueID
      ensures LoadedKey(c', k, rows + [r])
    {
      if k in c.byQueueID {
        assert LoadedKey(c, k, rows);
      }
    }
    forall k | k in c'.byDelivery
      ensures LoadedLink(c', k, rows + [r])
    {
      if k in c.byDelivery {
        assert LoadedLink(c, k, rows);
      }
    }
  }

  lemma AppendLoadedRows(c: Core, rows: seq<Record>, r: Record, c': Core)
    requires Loaded(c, rows) && !r.subsumed && KeyOf(r) !in c.byQueueID && KeyOf(r) !in c.byDelivery
    requires r.delivery != "" ==> DeliveryKey(r) !in c.byQueueID && DeliveryKey(r) !in c.byDelivery
    requires c' == RestoreLink(Append(c, r), |c.records|)
    ensures forall s | s in rows + [r] && !s.subsumed :: LoadedRow(c', s)
  {
    forall s | s in rows + [r] && !s.subsumed
      ensures LoadedRow(c', s)
    {
      if s in rows {
        assert LoadedRow(c, s);
      }
    }
  }

  lemma SkipLoaded(c: Core, rows: seq<Record>, r: Record, origin: string)
    requires Loaded(c, rows) && r.subsumed
    ensures Loaded(NoteOrigin(c, origin), rows + [r])
  {
    NoteLoaded(c, rows, origin);
    var c' := NoteOrigin(c, origin);
    assert forall k | k in c'.byQueueID :: LoadedKey(c', k, rows) ==> LoadedKey(c', k, rows + [r]);
    assert forall k | k in c'.byDelivery :: LoadedLink(c', k, rows) ==> LoadedLink(c', k, rows + [r]);
  }

  lemma NoteLoaded(c: Core, rows: seq<Record>, origin: string)
    requires Loaded(c, rows)
    ensures Loaded(NoteOrigin(c, origin), rows)
  {
    var c' := NoteOrigin(c, origin);
    assert forall s | s in rows && !s.subsumed :: LoadedRow(c, s) ==> LoadedRow(c', s);
    assert forall k | k in c.byQueueID :: LoadedKey(c, k, rows) ==> LoadedKey(c', k, rows);
    assert forall k | k in c.byDelivery :: LoadedLink(c, k, rows) ==> LoadedLink(c', k, rows);
  }

  lemma LoadOneKeeps(c: Core, rows: seq<Record>, r: Record)
    requires Loaded(c, rows) && CleanLinks(rows + [r]) && Distinct(RowKeys(rows + [r]))
    ensures Loaded(LoadOne(c, r), rows + [r])
  {
    if r.subsumed {
      SkipLoaded(c, rows, r, r.origin);
    } else {
      KeysUnused(c, rows, r);
      NoteLoaded(c, rows, r.origin);
      AppendLoaded(NoteOrigin(c, r.origin), rows, r);
    }
  }

  /** Loading keeps every listed row, whatever the order, when the links are clean. */
  lemma {:induction false} LoadKeepsAll(rows: seq<Record>)
    requires CleanLinks(rows) && Distinct(RowKeys(rows))
    ensures Loaded(Load(EMPTY, rows), rows)
  {
    if rows == [] {
    } else {
      var front := rows[..|rows| - 1];
      assert rows == front + [rows[|rows| - 1]];
      CleanFront(front, rows[|rows| - 1]);
      LoadKeepsAll(front);
      LoadOneKeeps(Load(EMPTY, front), front, rows[|rows| - 1]);
    }
  }

  // ---- the round trip ----

  lemma RowIndex(c: Core, db: map<Key, Record>, r: Record) returns (i: nat)
    requires Mirrors(c, db) && Shows(db, r)
    ensures i < |c.records| && c.records[i] == r
  {
    i :| 0 <= i < |c.records| && Keys(c)[i] == KeyOf(r);
    assert Shows(db, c.records[i]);
  }

  /** Every listed row holds its own link, and every link to a listed row is its own. */
  ghost predicate LinksTrue(c: Core) {
    && (forall i | 0 <= i < |c.records| && !c.records[i].subsumed :: LinkHeld(c, i))
    && (forall k | k in c.byDelivery && c.byDelivery[k] < |c.records| && !c.records[c.byDelivery[k]].subsumed :: LinkOk(c, k))
  }

  lemma WellLinkedIsTrue(c: Core, mail: set<Record>)
    requires WellLinked(c, mail)
    ensures LinksTrue(c)
  {
  }

  lemma StoredLinksClean(c: Core, db: map<Key, Record>, rows: seq<Record>)
    requires Coherent(c) && LinksTrue(c) && Mirrors(c, db) && Lists(rows, db)
    ensures CleanLinks(rows)
  {
    forall i, j | 0 <= i < |rows| && 0 <= j < |rows| && !rows[i].subsumed && !rows[j].subsumed && rows[i].delivery != ""
      && (DeliveryKey(rows[i]) == KeyOf(rows[j]) || (rows[j].delivery != "" && DeliveryKey(rows[i]) == DeliveryKey(rows[j])))
      ensures i == j
    {
      var a := RowIndex(c, db, rows[i]);
      var b := RowIndex(c, db, rows[j]);
      assert LinkHeld(c, a) && LinkHeld(c, b) && Listed(c, b);
      assert RowKeys(rows)[i] == RowKeys(rows)[j];
    }
  }

  /** A listed row is what its key shows, in memory and after loading. */
  lemma ListedShows(c: Core, i: nat)
    requires Coherent(c) && i < |c.records| && !c.records[i].subsumed
    ensures KeyOf(c.records[i]) in View(c) && View(c)[KeyOf(c.records[i])] == c.records[i]
  {
    assert Listed(c, i);
  }

  lemma LoadedShows(c: Core, rows: seq<Record>, r: Record)
    requires Loaded(c, rows) && r in rows && !r.subsumed
    ensures KeyOf(r) in View(c) && View(c)[KeyOf(r)] == r
  {
    assert LoadedRow(c, r);
  }

  lemma SameView(c: Core, db: map<Key, Record>, rows: seq<Record>, loaded: Core)
    requires Coherent(c) && Mirrors(c, db) && Lists(rows, db) && Loaded(loaded, rows)
    ensures View(loaded) == View(c)
  {
    LoadedIsInView(c, db, rows, loaded);
    ViewIsLoaded(c, db, rows, loaded);
    SameRecords(View(loaded), View(c));
  }

  lemma LoadedIsInView(c: Core, db: map<Key, Record>, rows: seq<Record>, loaded: Core)
    requires Coherent(c) && Mirrors(c, db) && Lists(rows, db)
    requires forall k | k in loaded.byQueueID :: LoadedKey(loaded, k, rows)
    ensures forall k | k in View(loaded) :: k in View(c) && View(c)[k] == View(loaded)[k]
  {
    forall k | k in View(loaded)
      ensures k in View(c) && View(c)[k] == View(loaded)[k]
    {
      assert LoadedKey(loaded, k, rows);
      StoredShown(c, db, rows, View(loaded)[k]);
    }
  }

  lemma ViewIsLoaded(c: Core, db: map<Key, Record>, rows: seq<Record>, loaded: Core)
    requires Mirrors(c, db) && Lists(rows, db)
    requires Loaded(loaded, rows)
    ensures forall k | k in View(c) :: k in View(loaded)
  {
    forall k | k in View(c)
      ensures k in View(loaded)
    {
      RowListed(c, db, rows, c.byQueueID[k]);
      LoadedShows(loaded, rows, View(c)[k]);
    }
  }

  /** A listed row of the database is what its key shows in memory. */
  lemma StoredShown(c: Core, db: map<Key, Record>, rows: seq<Record>, r: Record)
    requires Coherent(c) && Mirrors(c, db) && Lists(rows, db) && r in rows && !r.subsumed
    ensures KeyOf(r) in View(c) && View(c)[KeyOf(r)] == r
  {
    var i := RowIndex(c, db, r);
    ListedShows(c, i);
  }

  lemma RowListed(c: Core, db: map<Key, Record>, rows: seq<Record>, i: nat)
    requires Mirrors(c, db) && Lists(rows, db) && i < |c.records|
    ensures c.records[i] in rows
  {
    var r := c.records[i];
    assert Shows(db, r);
    var j :| 0 <= j < |rows| && RowKeys(rows)[j] == KeyOf(r);
    assert rows[j] in rows && Shows(db, rows[j]);
  }

  /** The record a queue id, own or onward, leads to. */
  function Lookup(c: Core, key: Key): Option<Record> {
    if key in c.byQueueID && c.byQueueID[key] < |c.records| && !c.records[c.byQueueID[key]].subsumed
    then Some(c.records[c.byQueueID[key]])
    else None
  }

  /** The listed primary an onward id is linked to. */
  function Primary(c: Core, key: Key): Option<Record> {
    if key in c.byDelivery && c.byDelivery[key] < |c.records| && !c.records[c.byDelivery[key]].subsumed
    then Some(c.records[c.byDelivery[key]])
    else None
  }

  lemma SamePrimaries(c: Core, db: map<Key, Record>, rows: seq<Record>, loaded: Core, k: Key)
    requires Coherent(c) && LinksTrue(c) && Mirrors(c, db) && Lists(rows, db) && Loaded(loaded, rows)
    ensures Primary(loaded, k) == Primary(c, k)
  {
    if k in loaded.byDelivery {
      assert LoadedLink(loaded, k, rows);
      var i := RowIndex(c, db, loaded.records[loaded.byDelivery[k]]);
      assert LinkHeld(c, i);
    }
    if Primary(c, k).Some? {
      assert LinkOk(c, k);
      RowListed(c, db, rows, c.byDelivery[k]);
      assert LoadedRow(loaded, c.records[c.byDelivery[k]]);
    }
  }

  lemma LookupKept(c: Core, mail: set<Record>, db: map<Key, Record>, rows: seq<Record>, loaded: Core, k: Key)
    requires WellLinked(c, mail) && Mirrors(c, db) && Lists(rows, db) && Loaded(loaded, rows) && Lookup(c, k).Some?
    ensures Lookup(loaded, k) == Lookup(c, k)
  {
    assert AliasOk(c, k);
    assert KeyOf(c.records[c.byQueueID[k]]) != k ==> LinkOk(c, k);
    RowListed(c, db, rows, c.byQueueID[k]);
    assert LoadedRow(loaded, c.records[c.byQueueID[k]]);
  }

  lemma LookupGained(c: Core, db: map<Key, Record>, rows: seq<Record>, loaded: Core, k: Key)
    requires Coherent(c) && Mirrors(c, db) && Lists(rows, db) && Loaded(loaded, rows) && Lookup(c, k).None?
    ensures Lookup(loaded, k) == Primary(loaded, k)
  {
    if Primary(loaded, k).Some? {
      LoadedLinkLeads(loaded, rows, k);
    }
    if k in loaded.byQueueID {
      assert LoadedKey(loaded, k, rows);
      var r := loaded.records[loaded.byQueueID[k]];
      StoredShown(c, db, rows, r);
      assert LoadedRow(loaded, r);
    }
  }

  lemma LoadedLinkLeads(loaded: Core, rows: seq<Record>, k: Key)
    requires Loaded(loaded, rows) && Primary(loaded, k).Some?
    ensures Lookup(loaded, k) == Primary(loaded, k)
  {
    assert LoadedLink(loaded, k, rows);
    assert LoadedRow(loaded, loaded.records[loaded.byDelivery[k]]);
  }

  /** An id that led to a record still leads to it; one that led nowhere leads to the primary that expects it, if there is one. */
  lemma SameLookups(c: Core, mail: set<Record>, db: map<Key, Record>, rows: seq<Record>, loaded: Core, k: Key)
    requires WellLinked(c, mail) && Mirrors(c, db) && Lists(rows, db) && Loaded(loaded, rows)
    ensures Lookup(loaded, k) == if Lookup(c, k).Some? then Lookup(c, k) else Primary(c, k)
  {
    if Lookup(c, k).Some? {
      LookupKept(c, mail, db, rows, loaded, k);
    } else {
      LookupGained(c, db, rows, loaded, k);
      WellLinkedIsTrue(c, mail);
      SamePrimaries(c, db, rows, loaded, k);
    }
  }

  /**
   The restart round trip: in whatever order the rows come back, the listed records and
   the delivery links are the same. An id leads to what it led to before, except an onward
   id that led nowhere yet: it now leads to its primary.
   */
  lemma RestartRoundTrip(events: seq<Event>, rows: seq<Record>)
    requires WelcomeMail(EMPTY, events) && Lists(rows, Stored(events))
    ensures var c, l := Run(events).core, Load(EMPTY, rows);
      && View(l) == View(c)
      && forall k ::
           && Primary(l, k) == Primary(c, k)
           && Lookup(l, k) == (if Lookup(c, k).Some? then Lookup(c, k) else Primary(c, k))
           && (Lookup(l, k) == Lookup(c, k) <==> (Primary(c, k).Some? ==> Lookup(c, k).Some?))
  {
    var c, mail := Run(events).core, MailOf(events);
    RunFromWelcomed(EMPTY, events, mail);
    RunMirrors(events);
    WellLinkedIsTrue(c, mail);
    StoredLinksClean(c, Stored(events), rows);
    LoadKeepsAll(rows);
    SameView(c, Stored(events), rows, Load(EMPTY, rows));
    forall k
      ensures Primary(Load(EMPTY, rows), k) == Primary(c, k)
      ensures Lookup(Load(EMPTY, rows), k) == if Lookup(c, k).Some? then Lookup(c, k) else Primary(c, k)
    {
      SamePrimaries(c, Stored(events), rows, Load(EMPTY, rows), k);
      SameLookups(c, mail, Stored(events), rows, Load(EMPTY, rows), k);
    }
  }

  // ---- when reloading keeps the links ----

  /** The reloaded store lists the same records under the same links. */
  ghost predicate ReloadsSame(c: Core, rows: seq<Record>) {
    View(Load(EMPTY, rows)) == View(c) && forall k :: Primary(Load(EMPTY, rows), k) == Primary(c, k)
  }

  /** Loading links an onward id only to a row that names it, and lists no subsumed row. */
  lemma {:induction false} LoadTargets(rows: seq<Record>)
    ensures var l := Load(EMPTY, rows);
      && (forall r | r in l.records :: r in rows && !r.subsumed)
      && (forall k | k in l.byDelivery :: LoadedLink(l, k, rows))
  {
    if rows == [] {
    } else {
      var front, r := rows[..|rows| - 1], rows[|rows| - 1];
      LoadTargets(front);
      assert rows == front + [r];
      LoadOneTargets(Load(EMPTY, front), front, r);
    }
  }

  lemma LoadOneTargets(f: Core, front: seq<Record>, r: Record)
    requires forall s | s in f.records :: s in front && !s.subsumed
    requires forall k | k in f.byDelivery :: LoadedLink(f, k, front)
    ensures var l := LoadOne(f, r);
      && (forall s | s in l.records :: s in front + [r] && !s.subsumed)
      && (forall k | k in l.byDelivery :: LoadedLink(l, k, front + [r]))
  {
    var l := LoadOne(f, r);
    forall k | k in l.byDelivery
      ensures LoadedLink(l, k, front + [r])
    {
      assert k in f.byDelivery ==> LoadedLink(f, k, front);
    }
  }

  lemma LastKeyIsNew(front: seq<Record>, r: Record)
    requires Distinct(RowKeys(front + [r]))
    ensures forall s | s in front :: KeyOf(s) != KeyOf(r)
  {
    var keys := RowKeys(front + [r]);
    forall s | s in front
      ensures KeyOf(s) != KeyOf(r)
    {
      var i :| 0 <= i < |front| && front[i] == s;
      assert keys[i] == KeyOf(s) && keys[|front|] == KeyOf(r);
    }
  }

  lemma ReloadedLinkIsOk(c: Core, rows: seq<Record>, k: Key)
    requires Primary(c, k).Some? && ReloadsSame(c, rows)
    ensures LinkOk(c, k)
  {
    LoadTargets(rows);
    assert Primary(Load(EMPTY, rows), k) == Primary(c, k);
    assert LoadedLink(Load(EMPTY, rows), k, rows);
  }

  /**
   Why one primary per onward id is needed: a second primary naming an id that already
   leads to the first takes the first for its leg. The first disappears from the list,
   and after a restart the onward id is linked to nobody.
   */
  lemma TwoPrimariesLoseOne(a: Record, leg: Record, b: Record)
    requires a == BLANK.(qid := "A", delivery := "D") && leg == BLANK.(qid := "D") && b == BLANK.(qid := "B", delivery := "D")
    ensures var c := Add(EMPTY, [a, leg] + [b]).core;
      && c.records == [a.(subsumed := true), b.(delivery := "A")]
      && Primary(c, Key("", "D")) == Some(b.(delivery := "A"))
      && Primary(Load(EMPTY, c.records), Key("", "D")) == None
  {
    LegOfFirst(a, leg);
    AddLast(EMPTY, [a, leg], b);
    SecondPrimary(a, leg, b, Add(EMPTY, [a, leg]).core);
    LoadBoth(a.(subsumed := true), b.(delivery := "A"));
  }

  lemma AddLast(c: Core, records: seq<Record>, r: Record)
    requires InRange(c)
    ensures Add(c, records + [r]).core == AddOne(Add(c, records).core, r).core
  {
    assert (records + [r])[..|records|] == records;
  }

  lemma LegOfFirst(a: Record, leg: Record)
    requires a == BLANK.(qid := "A", delivery := "D") && leg == BLANK.(qid := "D")
    ensures Add(EMPTY, [a, leg]).core == Core([a], map[KeyOf(a) := 0, KeyOf(leg) := 0], map[KeyOf(leg) := 0], map[], false)
  {
    var c1 := Core([a], map[KeyOf(a) := 0], map[KeyOf(leg) := 0], map[], false);
    assert [a][..0] == [] && [a, leg][..1] == [a];
    assert AddOne(EMPTY, a).core == c1;
    assert Add(EMPTY, [a]).core == c1;
  }

  lemma LoadBoth(hidden: Record, listed: Record)
    requires hidden.subsumed && !listed.subsumed && listed.delivery == "A"
    ensures Primary(Load(EMPTY, [hidden, listed]), Key("", "D")) == None
  {
    assert [hidden, listed][..1] == [hidden] && [hidden][..0] == [];
    assert Load(EMPTY, [hidden]).byDelivery == map[];
  }

  lemma SecondPrimary(a: Record, leg: Record, b: Record, c: Core)
    requires a == BLANK.(qid := "A", delivery := "D") && leg == BLANK.(qid := "D") && b == BLANK.(qid := "B", delivery := "D")
    requires c == Core([a], map[KeyOf(a) := 0, KeyOf(leg) := 0], map[KeyOf(leg) := 0], map[], false)
    ensures var c' := AddOne(c, b).core;
      c'.records == [a.(subsumed := true), b.(delivery := "A")] && c'.byDelivery == map[Key("", "D") := 1]
  {
    var appended := Append(c, b);
    assert appended.records == [a, b];
    assert MergeDeliveryLeg(b, a) == b.(delivery := "A");
  }
}
