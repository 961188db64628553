/** The retention purge: what it keeps, what stays safe after it, and what it leaves stale. */
module Retention {
  import opened Text
  import opened Records
  import opened Timeline
  import opened StableSort
  import opened Rspamd
  import opened StoreSpec
  import opened Coherence
  import opened Links
  import opened Restart
  import I = Ingest

  /** Exactly the rows without a time stamp or not older than the cutoff, in their order. */
  lemma {:induction false} KeptIsFilter(records: seq<Record>, cutoff: Time)
    ensures Kept(records, cutoff) == Filter(records, (r: Record) => r.time == ZERO_TIME || r.time >= cutoff)
  {
    if records == [] {
    } else {
      var n := |records| - 1;
      KeptIsFilter(records[..n], cutoff);
      FilterConcat(records[..n], [records[n]], (r: Record) => r.time == ZERO_TIME || r.time >= cutoff);
      assert records == records[..n] + [records[n]];
    }
  }

  /** A purge of memory leaves the links, the waiting verdicts and the mark of named servers alone. */
  lemma PurgeLeavesRest(c: Core, cutoff: Time)
    ensures Purge(c, cutoff) == c.(records := Purge(c, cutoff).records, byQueueID := Purge(c, cutoff).byQueueID)
  {
  }

  // ---- where rows end up ----

  /** Where the purge puts row a, if it keeps it: behind the kept rows before it. */
  function NewPosition(records: seq<Record>, cutoff: Time, a: nat): nat
    requires a <= |records|
  {
    |Kept(records[..a], cutoff)|
  }

  /** A kept row moves up by the rows dropped before it. */
  lemma {:induction false} KeptAt(records: seq<Record>, cutoff: Time, a: nat)
    requires a < |records| && !Expired(records[a], cutoff)
    ensures NewPosition(records, cutoff, a) < |Kept(records, cutoff)|
    ensures Kept(records, cutoff)[NewPosition(records, cutoff, a)] == records[a]
  {
    var n := |records| - 1;
    if a < n {
      KeptAt(records[..n], cutoff, a);
      assert records[..n][..a] == records[..a];
    }
  }

  /** Every row after the purge is a kept row, moved. */
  lemma {:induction false} KeptFrom(records: seq<Record>, cutoff: Time, i: nat) returns (a: nat)
    requires i < |Kept(records, cutoff)|
    ensures a < |records| && !Expired(records[a], cutoff) && records[a] == Kept(records, cutoff)[i]
    ensures NewPosition(records, cutoff, a) == i
  {
    var n := |records| - 1;
    if i < |Kept(records[..n], cutoff)| {
      a := KeptFrom(records[..n], cutoff, i);
      assert records[..n][..a] == records[..a];
    } else {
      a := n;
    }
  }

  lemma {:induction false} PositionsAscend(records: seq<Record>, cutoff: Time, a: nat, b: nat)
    requires a < b <= |records|
    ensures NewPosition(records, cutoff, a) + (if Expired(records[a], cutoff) then 0 else 1) <= NewPosition(records, cutoff, b)
  {
    var n := b - 1;
    assert records[..b][..n] == records[..n] && records[..b][n] == records[n];
    if a < n {
      PositionsAscend(records, cutoff, a, n);
    }
  }

  /** A row stays where it is exactly when nothing before it is dropped. */
  lemma {:induction false} StaysInPlace(records: seq<Record>, cutoff: Time, a: nat)
    requires a <= |records|
    ensures NewPosition(records, cutoff, a) <= a
    ensures NewPosition(records, cutoff, a) == a <==> forall i | 0 <= i < a :: !Expired(records[i], cutoff)
  {
    if a == 0 {
    } else {
      var n := a - 1;
      assert records[..a][..n] == records[..n] && records[..a][n] == records[n];
      StaysInPlace(records, cutoff, n);
    }
  }

  /** Re-indexing sends every key to its last row. */
  lemma {:induction false} ReindexedIsLast(records: seq<Record>, i: nat)
    requires i < |records| && forall j | i < j < |records| :: KeyOf(records[j]) != KeyOf(records[i])
    ensures KeyOf(records[i]) in Reindexed(records) && Reindexed(records)[KeyOf(records[i])] == i
  {
    var n := |records| - 1;
    if i < n {
      forall j | i < j < n
        ensures KeyOf(records[..n][j]) != KeyOf(records[..n][i])
      {
        assert records[..n][j] == records[j];
      }
      ReindexedIsLast(records[..n], i);
      assert KeyOf(records[n]) != KeyOf(records[i]);
    }
  }

  /** Re-indexing never sends a key to a row before another one of that key. */
  lemma {:induction false} ReindexedAtLeast(records: seq<Record>, i: nat)
    requires i < |records|
    ensures KeyOf(records[i]) in Reindexed(records) && Reindexed(records)[KeyOf(records[i])] >= i
  {
    var n := |records| - 1;
    if i < n {
      ReindexedAtLeast(records[..n], i);
    }
  }

  /** No listed row that is kept is followed by a kept row of its key. */
  ghost predicate NoneRepeated(records: seq<Record>, cutoff: Time) {
    forall a, b | 0 <= a < b < |records| && !records[a].subsumed && !Expired(records[a], cutoff) && !Expired(records[b], cutoff) ::
      KeyOf(records[a]) != KeyOf(records[b])
  }

  /** Whatever the store, every listed row that is kept resolves to itself exactly when no kept row of its key follows. */
  lemma PurgeListsAll(c: Core, cutoff: Time)
    ensures I.AllListed(Purge(c, cutoff)) <==> NoneRepeated(c.records, cutoff)
  {
    if NoneRepeated(c.records, cutoff) {
      UnrepeatedListed(c, cutoff);
    } else {
      var a, b :| 0 <= a < b < |c.records| && !c.records[a].subsumed && !Expired(c.records[a], cutoff)
                  && !Expired(c.records[b], cutoff) && KeyOf(c.records[a]) == KeyOf(c.records[b]);
      RepeatedNotListed(c, cutoff, a, b);
    }
  }

  lemma UnrepeatedListed(c: Core, cutoff: Time)
    requires NoneRepeated(c.records, cutoff)
    ensures I.AllListed(Purge(c, cutoff))
  {
    var kept := Kept(c.records, cutoff);
    forall i | 0 <= i < |kept| && !kept[i].subsumed
      ensures KeyOf(kept[i]) in Reindexed(kept) && Reindexed(kept)[KeyOf(kept[i])] == i
    {
      KeptKeyLast(c.records, cutoff, i);
      ReindexedIsLast(kept, i);
    }
  }

  lemma RepeatedNotListed(c: Core, cutoff: Time, a: nat, b: nat)
    requires a < b < |c.records| && !c.records[a].subsumed && KeyOf(c.records[a]) == KeyOf(c.records[b])
    requires !Expired(c.records[a], cutoff) && !Expired(c.records[b], cutoff)
    ensures !I.AllListed(Purge(c, cutoff))
  {
    KeptAt(c.records, cutoff, a);
    KeptAt(c.records, cutoff, b);
    PositionsAscend(c.records, cutoff, a, b);
    ReindexedAtLeast(Kept(c.records, cutoff), NewPosition(c.records, cutoff, b));
  }

  lemma KeptKeyLast(records: seq<Record>, cutoff: Time, i: nat)
    requires NoneRepeated(records, cutoff) && i < |Kept(records, cutoff)| && !Kept(records, cutoff)[i].subsumed
    ensures var kept := Kept(records, cutoff); forall j | i < j < |kept| :: KeyOf(kept[j]) != KeyOf(kept[i])
  {
    var kept := Kept(records, cutoff);
    forall j | i < j < |kept|
      ensures KeyOf(kept[j]) != KeyOf(kept[i])
    {
      var a := KeptFrom(records, cutoff, i);
      var b := KeptFrom(records, cutoff, j);
      if b < a {
        PositionsAscend(records, cutoff, b, a);
      }
    }
  }

  // ---- lookups across a purge ----

  /** The last kept row of a key, unless it is subsumed. */
  function LastKept(records: seq<Record>, cutoff: Time, k: Key): Option<Record> {
    if records == [] then None
    else
      var last := records[|records| - 1];
      if KeyOf(last) != k || Expired(last, cutoff) then LastKept(records[..|records| - 1], cutoff, k)
      else if last.subsumed then None
      else Some(last)
  }

  function Found(rows: seq<Record>, k: Key): Option<Record> {
    if k in Reindexed(rows) && !rows[Reindexed(rows)[k]].subsumed then Some(rows[Reindexed(rows)[k]]) else None
  }

  lemma FoundSnoc(rows: seq<Record>, r: Record, k: Key)
    ensures Found(rows + [r], k) == if KeyOf(r) != k then Found(rows, k) else if r.subsumed then None else Some(r)
  {
    assert (rows + [r])[..|rows|] == rows;
  }

  lemma {:induction false} FoundIsLastKept(records: seq<Record>, cutoff: Time, k: Key)
    ensures Found(Kept(records, cutoff), k) == LastKept(records, cutoff, k)
  {
    if records == [] {
    } else {
      var n := |records| - 1;
      FoundIsLastKept(records[..n], cutoff, k);
      FoundSnoc(Kept(records[..n], cutoff), records[n], k);
    }
  }

  /** After a purge, whatever the store, an id leads to the last kept row of its own key, if that is listed, and to nothing else. */
  lemma PurgedLookup(c: Core, cutoff: Time, k: Key)
    ensures Lookup(Purge(c, cutoff), k) == LastKept(c.records, cutoff, k)
  {
    FoundIsLastKept(c.records, cutoff, k);
  }

  lemma {:induction false} LastKeptIsRow(records: seq<Record>, cutoff: Time, k: Key) returns (i: nat)
    requires LastKept(records, cutoff, k).Some?
    ensures i < |records| && records[i] == LastKept(records, cutoff, k).value
    ensures KeyOf(records[i]) == k && !Expired(records[i], cutoff) && !records[i].subsumed
  {
    var n := |records| - 1;
    if KeyOf(records[n]) != k || Expired(records[n], cutoff) {
      i := LastKeptIsRow(records[..n], cutoff, k);
    } else {
      i := n;
    }
  }

  lemma {:induction false} RowIsLastKept(records: seq<Record>, cutoff: Time, i: nat)
    requires i < |records| && !Expired(records[i], cutoff) && !records[i].subsumed
    requires forall j | i < j < |records| :: KeyOf(records[j]) != KeyOf(records[i])
    ensures LastKept(records, cutoff, KeyOf(records[i])) == Some(records[i])
  {
    var n := |records| - 1;
    if i < n {
      assert KeyOf(records[n]) != KeyOf(records[i]);
      assert forall j | i < j < n :: records[..n][j] == records[j];
      RowIsLastKept(records[..n], cutoff, i);
    }
  }

  /**
   So a purge, even one that drops nothing, forgets every alias: an onward id that led to
   its primary leads nowhere, and an id leads where it did exactly when it led nowhere, or
   to a row of its own that is kept.
   */
  lemma PurgeForgetsAliases(c: Core, mail: set<Record>, cutoff: Time, k: Key)
    requires WellLinked(c, mail)
    ensures var before, own := Lookup(c, k), (r: Record) => KeyOf(r) == k && !Expired(r, cutoff);
      && Lookup(Purge(c, cutoff), k) == (if before.Some? && own(before.value) then before else None)
      && (Lookup(Purge(c, cutoff), k) == before <==> before.None? || own(before.value))
  {
    PurgedLookup(c, cutoff, k);
    if LastKept(c.records, cutoff, k).Some? {
      var i := LastKeptIsRow(c.records, cutoff, k);
      assert Listed(c, i);
    }
    if Lookup(c, k).Some? && KeyOf(Lookup(c, k).value) == k && !Expired(Lookup(c, k).value, cutoff) {
      var i := c.byQueueID[k];
      forall j | i < j < |c.records|
        ensures KeyOf(c.records[j]) != KeyOf(c.records[i])
      {
        assert Keys(c)[i] != Keys(c)[j];
      }
      RowIsLastKept(c.records, cutoff, i);
    }
  }

  // ---- links across a purge ----

  /** A link survives the purge exactly when no row up to its own is dropped. */
  lemma PurgeKeepsLink(c: Core, cutoff: Time, d: Key)
    requires Keyed(c) && d in c.byDelivery && c.byDelivery[d] < |c.records|
    ensures var p, kept := c.byDelivery[d], Kept(c.records, cutoff);
      p < |kept| && kept[p] == c.records[p] <==> forall i | 0 <= i <= p :: !Expired(c.records[i], cutoff)
  {
    var p, kept := c.byDelivery[d], Kept(c.records, cutoff);
    StaysInPlace(c.records, cutoff, p);
    if p < |kept| && kept[p] == c.records[p] {
      var a := KeptFrom(c.records, cutoff, p);
      assert Keys(c)[a] == Keys(c)[p];
    } else if !Expired(c.records[p], cutoff) {
      KeptAt(c.records, cutoff, p);
    }
  }

  /** No row up to the last linked one is dropped. */
  ghost predicate LinksUnmoved(c: Core, cutoff: Time) {
    forall d, i | d in c.byDelivery && 0 <= i <= c.byDelivery[d] && i < |c.records| :: !Expired(c.records[i], cutoff)
  }

  /** The whole purge keeps a well-linked store well linked exactly when it drops no row up to the last linked one. */
  lemma PurgeKeepsLinks(c: Core, mail: set<Record>, cutoff: Time)
    requires WellLinked(c, mail)
    ensures WellLinked(Purge(c, cutoff), mail) <==> LinksUnmoved(c, cutoff)
  {
    if LinksUnmoved(c, cutoff) {
      UnmovedIsLinked(c, mail, cutoff);
    } else {
      var d, i :| d in c.byDelivery && 0 <= i <= c.byDelivery[d] && i < |c.records| && Expired(c.records[i], cutoff);
      MovedIsNotLinked(c, mail, cutoff, d);
    }
  }

  lemma MovedIsNotLinked(c: Core, mail: set<Record>, cutoff: Time, d: Key)
    requires WellLinked(c, mail) && d in c.byDelivery
    requires exists i :: 0 <= i <= c.byDelivery[d] && Expired(c.records[i], cutoff)
    ensures !WellLinked(Purge(c, cutoff), mail)
  {
    PurgeKeepsLink(c, cutoff, d);
    var c', p := Purge(c, cutoff), c.byDelivery[d];
    if p < |c'.records| && LinkOk(c', d) {
      NamerIsTarget(c, mail, cutoff, d);
    }
  }

  /** A kept row at the link's position that names the onward id is the linked row. */
  lemma NamerIsTarget(c: Core, mail: set<Record>, cutoff: Time, d: Key)
    requires WellLinked(c, mail) && d in c.byDelivery && d.qid != ""
    requires var p, kept := c.byDelivery[d], Kept(c.records, cutoff); p < |kept| && DeliveryKey(kept[p]) == d
    ensures Kept(c.records, cutoff)[c.byDelivery[d]] == c.records[c.byDelivery[d]]
  {
    var a := KeptFrom(c.records, cutoff, c.byDelivery[d]);
    assert LinkHeld(c, a);
  }

  lemma UnmovedIsLinked(c: Core, mail: set<Record>, cutoff: Time)
    requires WellLinked(c, mail) && LinksUnmoved(c, cutoff)
    ensures WellLinked(Purge(c, cutoff), mail)
  {
    var c' := Purge(c, cutoff);
    PurgedKeys(c, cutoff);
    forall d | d in c'.byDelivery
      ensures c'.byDelivery[d] < |c'.records| && c'.records[c'.byDelivery[d]] == c.records[c.byDelivery[d]]
    {
      PurgeKeepsLink(c, cutoff, d);
    }
    forall i | 0 <= i < |c'.records|
      ensures RowOk(c', mail, i) && LinkHeld(c', i) && (!c'.records[i].subsumed ==> Listed(c', i))
    {
      KeptRowOk(c, mail, cutoff, i);
    }
    forall k | k in c'.byDelivery
      ensures LinkOk(c', k)
    {
      assert LinkOk(c, k);
    }
    assert forall k | k in c'.byQueueID :: AliasOk(c', k) && Resolves(c', k);
    assert forall i | 0 <= i < |c'.records| :: Keys(c')[i] == KeyOf(c'.records[i]);
  }

  lemma PurgedKeys(c: Core, cutoff: Time)
    requires Keyed(c)
    ensures Keyed(Purge(c, cutoff))
    ensures var c' := Purge(c, cutoff);
      forall i | 0 <= i < |c'.records| :: KeyOf(c'.records[i]) in c'.byQueueID && c'.byQueueID[KeyOf(c'.records[i])] == i
  {
    var c' := Purge(c, cutoff);
    forall i, j | 0 <= i < j < |c'.records|
      ensures Keys(c')[i] != Keys(c')[j]
    {
      var a := KeptFrom(c.records, cutoff, i);
      var b := KeptFrom(c.records, cutoff, j);
      assert Keys(c)[a] == Keys(c')[i] && Keys(c)[b] == Keys(c')[j];
    }
    forall i | 0 <= i < |c'.records|
      ensures KeyOf(c'.records[i]) in c'.byQueueID && c'.byQueueID[KeyOf(c'.records[i])] == i
    {
      forall j | i < j < |c'.records|
        ensures KeyOf(c'.records[j]) != KeyOf(c'.records[i])
      {
        assert Keys(c')[i] != Keys(c')[j];
      }
      ReindexedIsLast(c'.records, i);
    }
  }

  lemma KeptRowOk(c: Core, mail: set<Record>, cutoff: Time, i: nat)
    requires WellLinked(c, mail) && LinksUnmoved(c, cutoff) && i < |Purge(c, cutoff).records|
    ensures var c' := Purge(c, cutoff);
      RowOk(c', mail, i) && LinkHeld(c', i) && (!c'.records[i].subsumed ==> Listed(c', i))
  {
    var c' := Purge(c, cutoff);
    PurgedKeys(c, cutoff);
    var a := KeptFrom(c.records, cutoff, i);
    StaysInPlace(c.records, cutoff, a);
    assert RowOk(c, mail, a) && LinkHeld(c, a);
    assert !c.records[a].subsumed ==> Listed(c, a);
  }

  // ---- runs that mix purges with everything else ----

  datatype AnyEvent =
    | Store(event: Event)
    | Forwarded(origin: string, batch: seq<Record>)
    | Restored(rows: seq<Record>)
    | Purged(cutoff: Time)

  lemma {:induction false} IngestInRange(c: Core, origin: string, batch: seq<Record>)
    requires InRange(c)
    ensures InRange(Ingest(c, origin, batch))
  {
    if batch == [] {
    } else {
      IngestInRange(c, origin, batch[..|batch| - 1]);
    }
  }

  lemma {:induction false} LoadInRange(c: Core, rows: seq<Record>)
    requires InRange(c)
    ensures InRange(Load(c, rows))
  {
    if rows == [] {
    } else {
      LoadInRange(c, rows[..|rows| - 1]);
    }
  }

  function AfterEvent(c: Core, e: AnyEvent): (c': Core)
    requires InRange(c)
    ensures InRange(c')
  {
    match e
    case Store(e) => Apply(c, e).core
    case Forwarded(origin, batch) => IngestInRange(c, origin, batch); Ingest(c, origin, batch)
    case Restored(rows) => LoadInRange(c, rows); Load(c, rows)
    case Purged(cutoff) => Purge(c, cutoff)
  }

  /** Whatever is mixed in, every queue id keeps resolving to an existing row. */
  function AnyRun(events: seq<AnyEvent>): (c: Core)
    ensures InRange(c)
  {
    if events == [] then EMPTY else AfterEvent(AnyRun(events[..|events| - 1]), events[|events| - 1])
  }

  /** No row is old enough for the database's cutoff and not for the one before it. */
  ghost predicate NoneBetween(records: seq<Record>, cutoff: Time, later: Time) {
    forall r | r in records :: Expired(r, later) ==> Expired(r, cutoff)
  }

  /**
   The clock is read again for the database, after the lock is released: the mirror survives
   the purge exactly when no row's age falls between the two cutoffs.
   */
  lemma PurgeMirrors(c: Core, db: map<Key, Record>, cutoff: Time, later: Time)
    requires Keyed(c) && Mirrors(c, db) && cutoff <= later
    ensures Mirrors(Purge(c, cutoff), PurgeRows(db, later)) <==> NoneBetween(c.records, cutoff, later)
  {
    if NoneBetween(c.records, cutoff, later) {
      BothKeep(c, db, cutoff, later);
    } else {
      var r :| r in c.records && Expired(r, later) && !Expired(r, cutoff);
      var a :| 0 <= a < |c.records| && c.records[a] == r;
      KeptAt(c.records, cutoff, a);
      assert Shows(db, r) && !Shows(PurgeRows(db, later), r);
    }
  }

  lemma BothKeep(c: Core, db: map<Key, Record>, cutoff: Time, later: Time)
    requires Keyed(c) && Mirrors(c, db) && cutoff <= later && NoneBetween(c.records, cutoff, later)
    ensures Mirrors(Purge(c, cutoff), PurgeRows(db, later))
  {
    var kept := Kept(c.records, cutoff);
    forall i | 0 <= i < |kept|
      ensures Shows(PurgeRows(db, later), kept[i])
    {
      var a := KeptFrom(c.records, cutoff, i);
      assert Shows(db, c.records[a]) && c.records[a] in c.records;
    }
    forall k | k in PurgeRows(db, later)
      ensures k in Keys(Purge(c, cutoff))
    {
      var a :| 0 <= a < |c.records| && Keys(c)[a] == k;
      assert Shows(db, c.records[a]);
      KeptAt(c.records, cutoff, a);
      assert Keys(Purge(c, cutoff))[NewPosition(c.records, cutoff, a)] == k;
    }
  }

  /** A row between the cutoffs: still listed, and gone after a restart. */
  lemma RowBetweenCutoffs(r: Record)
    requires r == BLANK.(qid := "A", time := 5)
    ensures var c := Purge(Add(EMPTY, [r]).core, 5);
      && c.records == [r] && Key("", "A") in View(c)
      && PurgeRows(Upsert(map[], Add(EMPTY, [r]).snaps), 6) == map[]
  {
    AddLast(EMPTY, [], r);
    assert [] + [r] == [r] && [r][..0] == [];
    AddPlain(EMPTY, r);
    assert Append(EMPTY, r).records == [r];
    UpsertOne(map[], r);
    assert Add(EMPTY, [r]).snaps == [r];
    assert Kept([r], 5) == [r];
    ReindexedAtLeast([r], 0);
  }

  // ---- what follows a purge ----

  /**
   Mail after a purge that moved no link: links and rows match as in a run without it, and
   the database mirrors memory if no row fell between the two cutoffs.
   */
  lemma AfterCleanPurge(c: Core, db: map<Key, Record>, cutoff: Time, later: Time, events: seq<Event>, mail: set<Record>)
    requires WellLinked(c, mail) && Mirrors(c, db) && LinksUnmoved(c, cutoff) && cutoff <= later
    requires OnePrimary(mail) && MailOf(events) <= mail
    ensures var s := RunFrom(Purge(c, cutoff), events);
      && WellLinked(s.core, mail)
      && (NoneBetween(c.records, cutoff, later) ==> Mirrors(s.core, Upsert(PurgeRows(db, later), s.snaps)))
  {
    PurgeKeepsLinks(c, mail, cutoff);
    PurgeMirrors(c, db, cutoff, later);
    RunFromLinked(Purge(c, cutoff), events, mail);
    OnePrimaryWelcomed(Purge(c, cutoff), events, mail);
    if NoneBetween(c.records, cutoff, later) {
      RunFromMirrors(Purge(c, cutoff), PurgeRows(db, later), events, mail);
    }
  }

  /** Runs of a server that reads its own logs and purges. */
  ghost predicate LocalRun(events: seq<AnyEvent>, mail: set<Record>) {
    forall i | 0 <= i < |events| :: events[i].Purged? || (events[i].Store? && MailOf([events[i].event]) <= mail)
  }

  /** Every purge of the run drops no row up to the last linked one. */
  ghost predicate PurgesClean(events: seq<AnyEvent>) {
    events != [] ==>
      var front, last := events[..|events| - 1], events[|events| - 1];
      PurgesClean(front) && (last.Purged? ==> LinksUnmoved(AnyRun(front), last.cutoff))
  }

  ghost predicate LinkedThroughout(events: seq<AnyEvent>, mail: set<Record>) {
    WellLinked(AnyRun(events), mail) && (events != [] ==> LinkedThroughout(events[..|events| - 1], mail))
  }

  /** Over a whole run, the store is well linked throughout exactly when every purge drops no row up to the last linked one. */
  lemma {:induction false} PurgedRunLinked(events: seq<AnyEvent>, mail: set<Record>)
    requires OnePrimary(mail) && LocalRun(events, mail)
    ensures LinkedThroughout(events, mail) <==> PurgesClean(events)
  {
    if events == [] {
    } else {
      var front, last := events[..|events| - 1], events[|events| - 1];
      PurgedRunLinked(front, mail);
      if WellLinked(AnyRun(front), mail) {
        NextLinkedIff(AnyRun(front), last, mail);
      }
    }
  }

  lemma NextLinkedIff(c: Core, e: AnyEvent, mail: set<Record>)
    requires OnePrimary(mail) && WellLinked(c, mail) && (e.Purged? || (e.Store? && MailOf([e.event]) <= mail))
    ensures WellLinked(AfterEvent(c, e), mail) <==> (e.Purged? ==> LinksUnmoved(c, e.cutoff))
  {
    match e
    case Purged(cutoff) => PurgeKeepsLinks(c, mail, cutoff);
    case Store(event) => OneEventLinked(c, event, mail);
  }

  lemma OneEventLinked(c: Core, e: Event, mail: set<Record>)
    requires OnePrimary(mail) && WellLinked(c, mail) && MailOf([e]) <= mail
    ensures WellLinked(Apply(c, e).core, mail)
  {
    MailOfParts([e]);
    match e
    case Mail(records) => AddLinkage(c, mail, records);
    case Scanner(qid, v) => ApplyVerdictLinkage(c, mail, qid, v);
  }

  // ---- receivers ----

  /** Runs of a server that only takes in what others send, reloads, and purges. */
  predicate ReceiverRun(events: seq<AnyEvent>) {
    forall e | e in events :: !e.Store?
  }

  ghost predicate Unhidden(c: Core) {
    I.AllListed(c) && forall r | r in c.records :: !r.subsumed
  }

  lemma {:induction false} IngestUnhidden(c: Core, origin: string, batch: seq<Record>)
    requires Unhidden(c)
    ensures Unhidden(Ingest(c, origin, batch))
  {
    if batch == [] {
    } else {
      IngestUnhidden(c, origin, batch[..|batch| - 1]);
      I.IngestOneListsAll(Ingest(c, origin, batch[..|batch| - 1]), origin, batch[|batch| - 1]);
    }
  }

  lemma {:induction false} LoadUnhidden(c: Core, rows: seq<Record>)
    requires Unhidden(c)
    ensures Unhidden(Load(c, rows))
  {
    if rows == [] {
    } else {
      LoadUnhidden(c, rows[..|rows| - 1]);
    }
  }

  lemma PurgeUnhidden(c: Core, cutoff: Time)
    requires Unhidden(c)
    ensures Unhidden(Purge(c, cutoff))
  {
    PurgeListsAll(c, cutoff);
    forall i | 0 <= i < |Purge(c, cutoff).records|
      ensures !Purge(c, cutoff).records[i].subsumed
    {
      var a := KeptFrom(c.records, cutoff, i);
    }
  }

  /** In every run of a receiver, purges and reloads included, every row is listed under its own key. */
  lemma {:induction false} ReceiverListsAll(events: seq<AnyEvent>)
    requires ReceiverRun(events)
    ensures Unhidden(AnyRun(events))
  {
    if events == [] {
    } else {
      var n := |events| - 1;
      ReceiverListsAll(events[..n]);
      assert events[n] in events;
      var front := AnyRun(events[..n]);
      match events[n]
      case Forwarded(origin, batch) => IngestUnhidden(front, origin, batch);
      case Restored(rows) => LoadUnhidden(front, rows);
      case Purged(cutoff) => PurgeUnhidden(front, cutoff);
    }
  }

  /**
   What the purge leaves stale: a link keeps its old position, so after an older row is
   dropped a leg can be folded into a record that is not its primary.
   */
  lemma StaleLinkAfterPurge(aged: Record, primary: Record, other: Record, leg: Record)
    requires aged == BLANK.(qid := "O", time := 1) && primary == BLANK.(qid := "P", time := 5, delivery := "D")
    requires other == BLANK.(qid := "X", time := 6) && leg == BLANK.(qid := "D", time := 7, relay := "mx")
    ensures var c := Purge(Add(EMPTY, [aged, primary, other]).core, 3);
      && c.records == [primary, other]
      && AddOne(c, leg).core.records == [primary, MergeDeliveryLeg(other, leg)]
  {
    AddThree(aged, primary, other);
    KeepTwo(aged, primary, other);
  }

  lemma KeepTwo(aged: Record, primary: Record, other: Record)
    requires aged.time == 1 && primary.time == 5 && other.time == 6
    ensures Kept([aged, primary, other], 3) == [primary, other]
  {
    assert [aged][..0] == [] && [aged, primary][..1] == [aged] && [aged, primary, other][..2] == [aged, primary];
    assert Kept([aged], 3) == [];
    assert Kept([aged, primary], 3) == [primary];
  }

  lemma AddTwo(aged: Record, primary: Record)
    requires aged == BLANK.(qid := "O", time := 1) && primary == BLANK.(qid := "P", time := 5, delivery := "D")
    ensures Add(EMPTY, [aged, primary]).core
      == Core([aged, primary], map[KeyOf(aged) := 0, KeyOf(primary) := 1], map[Key("", "D") := 1], map[], false)
  {
    var c1 := Core([aged], map[KeyOf(aged) := 0], map[], map[], false);
    assert [aged][..0] == [] && [aged, primary][..1] == [aged];
    assert AddOne(EMPTY, aged).core == c1;
    assert Add(EMPTY, [aged]).core == c1;
  }

  lemma AddThree(aged: Record, primary: Record, other: Record)
    requires aged == BLANK.(qid := "O", time := 1) && primary == BLANK.(qid := "P", time := 5, delivery := "D")
    requires other == BLANK.(qid := "X", time := 6)
    ensures Add(EMPTY, [aged, primary, other]).core
      == Core([aged, primary, other], map[KeyOf(aged) := 0, KeyOf(primary) := 1, KeyOf(other) := 2],
              map[Key("", "D") := 1], map[], false)
  {
    AddTwo(aged, primary);
    AddLast(EMPTY, [aged, primary], other);
    assert [aged, primary] + [other] == [aged, primary, other];
    AddPlain(Add(EMPTY, [aged, primary]).core, other);
  }

  lemma AddPlain(c: Core, r: Record)
    requires InRange(c) && c.pending == map[] && r.delivery == "" && r.origin == ""
    requires KeyOf(r) !in c.byDelivery && KeyOf(r) !in c.byQueueID
    ensures AddOne(c, r).core == Append(c, r)
  {
  }
}
