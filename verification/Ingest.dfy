/** Ingesting forwarded snapshots: last writer wins per key, replays are absorbed, servers do not interfere. */
module Ingest {
  import opened Text
  import opened Records
  import opened StoreSpec

  /** The last listed snapshot of each queue id, stamped with the sender. */
  function Latest(origin: string, batch: seq<Record>): map<Key, Record> {
    if batch == [] then map[]
    else
      var front, last := Latest(origin, batch[..|batch| - 1]), Stamp(origin, batch[|batch| - 1]);
      if last.subsumed then front else front[KeyOf(last) := last]
  }

  /** Which row each onward id named by the batch was last linked to. */
  function LatestLinks(origin: string, batch: seq<Record>): map<Key, Key> {
    if batch == [] then map[]
    else
      var front, last := LatestLinks(origin, batch[..|batch| - 1]), Stamp(origin, batch[|batch| - 1]);
      if last.subsumed || last.delivery == "" then front else front[DeliveryKey(last) := KeyOf(last)]
  }

  /** Latest holds, for every queue id with a listed snapshot, the last of them. */
  lemma {:induction false} LatestIsLast(origin: string, batch: seq<Record>, i: nat)
    requires i < |batch| && !batch[i].subsumed
    requires forall j | i < j < |batch| :: batch[j].subsumed || batch[j].qid != batch[i].qid
    ensures Key(origin, batch[i].qid) in Latest(origin, batch)
    ensures Latest(origin, batch)[Key(origin, batch[i].qid)] == Stamp(origin, batch[i])
  {
    var n := |batch| - 1;
    if i < n {
      assert batch[..n][i] == batch[i];
      LatestIsLast(origin, batch[..n], i);
    }
  }

  lemma {:induction false} LatestOrigin(origin: string, batch: seq<Record>)
    ensures forall k | k in Latest(origin, batch) :: k.origin == origin
  {
    if batch == [] {
    } else {
      LatestOrigin(origin, batch[..|batch| - 1]);
    }
  }

  /** Latest holds nothing but what some listed snapshot of the batch put there. */
  lemma {:induction false} LatestFrom(origin: string, batch: seq<Record>, k: Key) returns (i: nat)
    requires k in Latest(origin, batch)
    ensures i < |batch| && !batch[i].subsumed && k == Key(origin, batch[i].qid)
  {
    var n := |batch| - 1;
    if !batch[n].subsumed && k == Key(origin, batch[n].qid) {
      i := n;
    } else {
      i := LatestFrom(origin, batch[..n], k);
      assert batch[..n][i] == batch[i];
    }
  }

  lemma LatestSnoc(origin: string, front: seq<Record>, r: Record)
    ensures Latest(origin, front + [r])
      == if r.subsumed then Latest(origin, front) else Latest(origin, front)[Key(origin, r.qid) := Stamp(origin, r)]
    ensures LatestLinks(origin, front + [r])
      == if r.subsumed || r.delivery == "" then LatestLinks(origin, front)
         else LatestLinks(origin, front)[Key(origin, r.delivery) := Key(origin, r.qid)]
  {
    assert (front + [r])[..|front|] == front;
  }

  // ---- last writer wins ----

  lemma RestoreLinkView(c: Core, i: nat)
    requires i < |c.records| && KeyOf(c.records[i]) in c.byQueueID
    ensures View(RestoreLink(c, i)) == View(c)
  {
  }

  lemma PutView(c: Core, r: Record)
    requires Owns(c, KeyOf(r)) && !r.subsumed
    ensures View(Put(c, c.byQueueID[KeyOf(r)], r)) == View(c)[KeyOf(r) := r]
  {
  }

  lemma AppendView(c: Core, r: Record)
    requires !r.subsumed
    ensures View(Append(c, r)) == View(c)[KeyOf(r) := r]
  {
  }

  lemma IngestOneView(c: Core, origin: string, r: Record)
    ensures View(IngestOne(c, origin, r)) == if r.subsumed then View(c) else View(c)[Key(origin, r.qid) := Stamp(origin, r)]
  {
    var noted, stamped := NoteOrigin(c, origin), Stamp(origin, r);
    assert View(noted) == View(c);
    if !r.subsumed {
      if Owns(noted, KeyOf(stamped)) {
        PutView(noted, stamped);
        RestoreLinkView(Put(noted, noted.byQueueID[KeyOf(stamped)], stamped), noted.byQueueID[KeyOf(stamped)]);
      } else {
        AppendView(noted, stamped);
        RestoreLinkView(Append(noted, stamped), |c.records|);
      }
    }
  }

  /** From any state: the listed rows afterwards are those before, overwritten by the latest snapshots. */
  lemma {:induction false} IngestView(c: Core, origin: string, batch: seq<Record>)
    ensures View(Ingest(c, origin, batch)) == View(c) + Latest(origin, batch)
  {
    if batch == [] {
    } else {
      var front, r := batch[..|batch| - 1], batch[|batch| - 1];
      IngestView(c, origin, front);
      IngestOneView(Ingest(c, origin, front), origin, r);
      UnionUpdate(View(c), Latest(origin, front), Key(origin, r.qid), Stamp(origin, r));
    }
  }

  lemma UnionUpdate(a: map<Key, Record>, m: map<Key, Record>, k: Key, v: Record)
    ensures (a + m)[k := v] == a + m[k := v]
  {
  }

  lemma DisjointUnionsCommute(m: map<Key, Record>, a: map<Key, Record>, b: map<Key, Record>)
    requires a.Keys !! b.Keys
    ensures m + a + b == m + b + a
  {
  }

  /** Batches of different servers commute. */
  lemma OriginsCommute(c: Core, o1: string, b1: seq<Record>, o2: string, b2: seq<Record>)
    requires o1 != o2
    ensures View(Ingest(Ingest(c, o1, b1), o2, b2)) == View(Ingest(Ingest(c, o2, b2), o1, b1))
  {
    IngestView(c, o1, b1);
    IngestView(c, o2, b2);
    IngestView(Ingest(c, o1, b1), o2, b2);
    IngestView(Ingest(c, o2, b2), o1, b1);
    LatestOrigin(o1, b1);
    LatestOrigin(o2, b2);
    DisjointUnionsCommute(View(c), Latest(o1, b1), Latest(o2, b2));
  }

  /** Every listed row is reachable under its own key, so that View misses none. */
  ghost predicate AllListed(c: Core) {
    forall i | 0 <= i < |c.records| && !c.records[i].subsumed ::
      KeyOf(c.records[i]) in c.byQueueID && c.byQueueID[KeyOf(c.records[i])] == i
  }

  lemma RestoreLinkListsAll(c: Core, i: nat)
    requires AllListed(c) && i < |c.records|
    ensures AllListed(RestoreLink(c, i))
  {
  }

  lemma IngestOneListsAll(c: Core, origin: string, r: Record)
    requires AllListed(c)
    ensures AllListed(IngestOne(c, origin, r))
  {
    var noted, stamped := NoteOrigin(c, origin), Stamp(origin, r);
    if !r.subsumed {
      if Owns(noted, KeyOf(stamped)) {
        var i := noted.byQueueID[KeyOf(stamped)];
        assert AllListed(Put(noted, i, stamped));
        RestoreLinkListsAll(Put(noted, i, stamped), i);
      } else {
        assert AllListed(Append(noted, stamped));
        RestoreLinkListsAll(Append(noted, stamped), |c.records|);
      }
    }
  }

  lemma {:induction false} IngestListsAll(c: Core, origin: string, batch: seq<Record>)
    requires AllListed(c)
    ensures AllListed(Ingest(c, origin, batch))
  {
    if batch == [] {
    } else {
      IngestListsAll(c, origin, batch[..|batch| - 1]);
      IngestOneListsAll(Ingest(c, origin, batch[..|batch| - 1]), origin, batch[|batch| - 1]);
    }
  }

  lemma {:induction false} LoadListsAll(rows: seq<Record>)
    ensures AllListed(Load(EMPTY, rows))
  {
    if rows == [] {
    } else {
      LoadListsAll(rows[..|rows| - 1]);
    }
  }

  // ---- replays ----

  lemma {:induction false} IngestConcat(c: Core, origin: string, a: seq<Record>, b: seq<Record>)
    ensures Ingest(c, origin, a + b) == Ingest(Ingest(c, origin, a), origin, b)
  {
    if b == [] {
      assert a + b == a;
    } else {
      IngestConcat(c, origin, a, b[..|b| - 1]);
      assert (a + b)[..|a + b| - 1] == a + b[..|b| - 1];
    }
  }

  /** The state shows the whole batch: its latest rows, under keys they own, and its latest links. */
  ghost predicate Reflects(c: Core, origin: string, batch: seq<Record>) {
    && (batch != [] && origin != "" ==> c.hasOrigins)
    && (forall k | k in Latest(origin, batch) :: Owns(c, k) && c.records[c.byQueueID[k]] == Latest(origin, batch)[k])
    && (forall d | d in LatestLinks(origin, batch) :: LinkReflected(c, d, LatestLinks(origin, batch)[d]))
    && (forall d | d in LatestLinks(origin, batch) :: LatestLinks(origin, batch)[d] in Latest(origin, batch))
  }

  ghost predicate LinkReflected(c: Core, d: Key, k: Key) {
    d in c.byQueueID && d in c.byDelivery && k in c.byQueueID && c.byDelivery[d] == c.byQueueID[k]
  }

  lemma {:induction false} IngestReflects(c: Core, origin: string, batch: seq<Record>)
    ensures Reflects(Ingest(c, origin, batch), origin, batch)
  {
    if batch == [] {
    } else {
      var n := |batch| - 1;
      IngestReflects(c, origin, batch[..n]);
      ReflectsOneMore(Ingest(c, origin, batch[..n]), origin, batch[..n], batch[n]);
      assert batch[..n] + [batch[n]] == batch;
    }
  }

  /** What one listed snapshot does to the rows, wherever its own is. */
  ghost predicate RowWritten(c: Core, c': Core, s: Record) {
    var k := KeyOf(s);
    && Owns(c', k) && c'.records[c'.byQueueID[k]] == s
    && (forall p | p != k && Owns(c, p) :: Owns(c', p) && c'.records[c'.byQueueID[p]] == c.records[c.byQueueID[p]])
    && (forall p | p != k && p in c.byQueueID :: p in c'.byQueueID && c'.byQueueID[p] == c.byQueueID[p])
    && (Owns(c, k) ==> c'.byQueueID[k] == c.byQueueID[k])
  }

  ghost predicate LinkWritten(c: Core, c': Core, s: Record) {
    && (forall d | d in c.byDelivery && (s.delivery == "" || d != DeliveryKey(s)) :: d in c'.byDelivery && c'.byDelivery[d] == c.byDelivery[d])
    && (s.delivery != "" ==> LinkReflected(c', DeliveryKey(s), KeyOf(s)))
  }

  lemma PutWrites(c: Core, s: Record)
    requires Owns(c, KeyOf(s)) && !s.subsumed
    ensures RowWritten(c, Put(c, c.byQueueID[KeyOf(s)], s), s)
  {
  }

  lemma AppendWrites(c: Core, s: Record)
    requires !Owns(c, KeyOf(s)) && !s.subsumed
    ensures RowWritten(c, Append(c, s), s)
  {
  }

  lemma RestoreLinkWrites(c: Core, c1: Core, s: Record)
    requires RowWritten(c, c1, s) && c1.byDelivery == c.byDelivery
    ensures var c' := RestoreLink(c1, c1.byQueueID[KeyOf(s)]); RowWritten(c, c', s) && LinkWritten(c, c', s)
  {
  }

  lemma IngestOneWrites(c: Core, origin: string, r: Record)
    requires !r.subsumed
    ensures var c', s := IngestOne(c, origin, r), Stamp(origin, r);
      RowWritten(c, c', s) && LinkWritten(c, c', s) && c'.hasOrigins == (c.hasOrigins || origin != "")
  {
    var noted, s := NoteOrigin(c, origin), Stamp(origin, r);
    assert forall k :: Owns(noted, k) == Owns(c, k);
    if Owns(noted, KeyOf(s)) {
      PutWrites(noted, s);
      RestoreLinkWrites(noted, Put(noted, noted.byQueueID[KeyOf(s)], s), s);
    } else {
      AppendWrites(noted, s);
      RestoreLinkWrites(noted, Append(noted, s), s);
    }
  }

  lemma ReflectsWritten(c: Core, c': Core, origin: string, batch: seq<Record>, r: Record)
    requires Reflects(c, origin, batch) && !r.subsumed && RowWritten(c, c', Stamp(origin, r)) && LinkWritten(c, c', Stamp(origin, r))
    requires c'.hasOrigins == (c.hasOrigins || origin != "")
    ensures Reflects(c', origin, batch + [r])
  {
    var s, all := Stamp(origin, r), batch + [r];
    LatestSnoc(origin, batch, r);
    forall d | d in LatestLinks(origin, all)
      ensures LinkReflected(c', d, LatestLinks(origin, all)[d])
    {
      if s.delivery == "" || d != DeliveryKey(s) {
        var k := LatestLinks(origin, batch)[d];
        assert LinkReflected(c, d, k) && Owns(c, k);
      }
    }
  }

  lemma ReflectsOneMore(c: Core, origin: string, batch: seq<Record>, r: Record)
    requires Reflects(c, origin, batch)
    ensures Reflects(IngestOne(c, origin, r), origin, batch + [r])
  {
    if r.subsumed {
      LatestSnoc(origin, batch, r);
      var c' := IngestOne(c, origin, r);
      assert forall k :: Owns(c, k) ==> Owns(c', k);
      assert forall d, k :: LinkReflected(c, d, k) ==> LinkReflected(c', d, k);
    } else {
      IngestOneWrites(c, origin, r);
      ReflectsWritten(c, IngestOne(c, origin, r), origin, batch, r);
    }
  }

  /** Whose keys a batch may touch. */
  ghost predicate Settled(c: Core, origin: string, batch: seq<Record>) {
    && (forall k | k in Latest(origin, batch) :: Owns(c, k))
    && (forall d | d in LatestLinks(origin, batch) :: d in c.byQueueID)
  }

  /** On a state that has seen the batch's keys, ingesting it rewrites its own rows and links only. */
  ghost predicate RewritesOnly(c: Core, u: Core, origin: string, batch: seq<Record>) {
    && u.byQueueID == c.byQueueID && u.pending == c.pending && |u.records| == |c.records|
    && u.hasOrigins == (c.hasOrigins || (batch != [] && origin != ""))
    && (forall k | Owns(c, k) :: Owns(u, k))
    && (forall i | 0 <= i < |c.records| :: Untouched(c, u, i) || RewrittenBy(u, origin, batch, i))
    && (forall d | d !in LatestLinks(origin, batch) :: SameLink(c, u, d))
  }

  ghost predicate Untouched(c: Core, u: Core, i: nat)
    requires i < |c.records| && i < |u.records|
  {
    u.records[i] == c.records[i]
  }

  ghost predicate RewrittenBy(u: Core, origin: string, batch: seq<Record>, i: nat)
    requires i < |u.records|
  {
    var k := KeyOf(u.records[i]);
    k in Latest(origin, batch) && k in u.byQueueID && u.byQueueID[k] == i
  }

  ghost predicate SameLink(c: Core, u: Core, d: Key) {
    (d in u.byDelivery <==> d in c.byDelivery) && (d in c.byDelivery ==> u.byDelivery[d] == c.byDelivery[d])
  }

  lemma SettledFront(c: Core, origin: string, front: seq<Record>, r: Record)
    requires Settled(c, origin, front + [r])
    ensures Settled(c, origin, front)
    ensures !r.subsumed ==> Owns(c, Key(origin, r.qid)) && (r.delivery != "" ==> Key(origin, r.delivery) in c.byQueueID)
  {
    LatestSnoc(origin, front, r);
    assert forall k | k in Latest(origin, front) :: k in Latest(origin, front + [r]);
    assert forall d | d in LatestLinks(origin, front) :: d in LatestLinks(origin, front + [r]);
    if !r.subsumed {
      assert Key(origin, r.qid) in Latest(origin, front + [r]);
      assert r.delivery != "" ==> Key(origin, r.delivery) in LatestLinks(origin, front + [r]);
    }
  }

  /** A snapshot of a row that is already there, naming ids already known. */
  lemma IngestOneRewrites(u: Core, origin: string, r: Record)
    requires !r.subsumed && Owns(u, Key(origin, r.qid)) && (r.delivery != "" ==> Key(origin, r.delivery) in u.byQueueID)
    ensures var i, s := u.byQueueID[Key(origin, r.qid)], Stamp(origin, r);
      IngestOne(u, origin, r) == Core(u.records[i := s], u.byQueueID,
        if r.delivery == "" then u.byDelivery else u.byDelivery[DeliveryKey(s) := i], u.pending, u.hasOrigins || origin != "")
  {
  }

  lemma RewritesOneMore(c: Core, u: Core, origin: string, front: seq<Record>, r: Record, u': Core)
    requires RewritesOnly(c, u, origin, front) && !r.subsumed && Owns(u, Key(origin, r.qid))
    requires var i, s := u.byQueueID[Key(origin, r.qid)], Stamp(origin, r);
      u' == Core(u.records[i := s], u.byQueueID,
        if r.delivery == "" then u.byDelivery else u.byDelivery[DeliveryKey(s) := i], u.pending, u.hasOrigins || origin != "")
    ensures RewritesOnly(c, u', origin, front + [r])
  {
    var batch := front + [r];
    LatestSnoc(origin, front, r);
    forall i | 0 <= i < |c.records|
      ensures Untouched(c, u', i) || RewrittenBy(u', origin, batch, i)
    {
      assert Untouched(c, u, i) || RewrittenBy(u, origin, front, i);
    }
    forall d | d !in LatestLinks(origin, batch)
      ensures SameLink(c, u', d)
    {
      assert SameLink(c, u, d);
    }
    forall k | Owns(c, k)
      ensures Owns(u', k)
    {
      assert Owns(u, k);
    }
  }

  lemma RewritesSkipped(c: Core, u: Core, origin: string, front: seq<Record>, r: Record)
    requires RewritesOnly(c, u, origin, front) && r.subsumed
    ensures RewritesOnly(c, NoteOrigin(u, origin), origin, front + [r])
  {
    LatestSnoc(origin, front, r);
    var u', batch := NoteOrigin(u, origin), front + [r];
    assert forall i | 0 <= i < |c.records| :: Untouched(c, u, i) ==> Untouched(c, u', i);
    assert forall i | 0 <= i < |c.records| :: RewrittenBy(u, origin, front, i) ==> RewrittenBy(u', origin, batch, i);
    assert forall d :: SameLink(c, u, d) ==> SameLink(c, u', d);
    assert forall k :: Owns(u, k) ==> Owns(u', k);
  }

  lemma {:induction false} IngestRewritesOnly(c: Core, origin: string, batch: seq<Record>)
    requires Settled(c, origin, batch)
    ensures RewritesOnly(c, Ingest(c, origin, batch), origin, batch)
  {
    if batch == [] {
      assert forall i | 0 <= i < |c.records| :: Untouched(c, c, i);
      assert forall d :: SameLink(c, c, d);
    } else {
      var n := |batch| - 1;
      var front, r := batch[..n], batch[n];
      assert front + [r] == batch;
      SettledFront(c, origin, front, r);
      IngestRewritesOnly(c, origin, front);
      var u := Ingest(c, origin, front);
      if r.subsumed {
        RewritesSkipped(c, u, origin, front, r);
      } else {
        IngestOneRewrites(u, origin, r);
        RewritesOneMore(c, u, origin, front, r, IngestOne(u, origin, r));
      }
    }
  }

  /** Two states that reflect the same batch and differ only where it writes are the same state. */
  lemma ReflectionsEqual(c: Core, u: Core, origin: string, batch: seq<Record>)
    requires Reflects(c, origin, batch) && Reflects(u, origin, batch) && RewritesOnly(c, u, origin, batch)
    ensures u == c
  {
    forall i | 0 <= i < |c.records|
      ensures u.records[i] == c.records[i]
    {
      assert Untouched(c, u, i) || RewrittenBy(u, origin, batch, i);
      if RewrittenBy(u, origin, batch, i) {
        var k := KeyOf(u.records[i]);
        assert Owns(c, k) && Owns(u, k);
      }
    }
    assert u.records == c.records;
    forall d
      ensures SameLink(c, u, d)
    {
      if d in LatestLinks(origin, batch) {
        var k := LatestLinks(origin, batch)[d];
        assert LinkReflected(c, d, k) && LinkReflected(u, d, k);
      }
    }
    assert u.byDelivery == c.byDelivery by {
      forall d
        ensures d in u.byDelivery <==> d in c.byDelivery
        ensures d in c.byDelivery ==> u.byDelivery[d] == c.byDelivery[d]
      {
        assert SameLink(c, u, d);
      }
    }
  }

  /** Ingesting a batch a second time changes nothing, from any state. */
  lemma IngestTwice(c: Core, origin: string, batch: seq<Record>)
    ensures Ingest(Ingest(c, origin, batch), origin, batch) == Ingest(c, origin, batch)
  {
    var once := Ingest(c, origin, batch);
    IngestReflects(c, origin, batch);
    IngestReflects(once, origin, batch);
    ReflectsSettles(once, origin, batch);
    IngestRewritesOnly(once, origin, batch);
    ReflectionsEqual(once, Ingest(once, origin, batch), origin, batch);
  }

  lemma ReflectsSettles(c: Core, origin: string, batch: seq<Record>)
    requires Reflects(c, origin, batch)
    ensures Settled(c, origin, batch)
  {
    forall d | d in LatestLinks(origin, batch)
      ensures d in c.byQueueID
    {
      assert LinkReflected(c, d, LatestLinks(origin, batch)[d]);
    }
  }

  /** A batch that was applied but not acknowledged, sent again with more behind it, is absorbed. */
  lemma ReplayAbsorbed(c: Core, origin: string, batch: seq<Record>, more: seq<Record>)
    ensures Ingest(Ingest(c, origin, batch), origin, batch + more) == Ingest(c, origin, batch + more)
  {
    IngestConcat(Ingest(c, origin, batch), origin, batch, more);
    IngestTwice(c, origin, batch);
    IngestConcat(c, origin, batch, more);
  }

  /** The database absorbs the replay as well: the last row per key is unaffected. */
  lemma {:induction false} UpsertAsUnion(db: map<Key, Record>, snaps: seq<Record>)
    ensures Upsert(db, snaps) == db + Upsert(map[], snaps)
  {
    if snaps == [] {
    } else {
      UpsertAsUnion(db, snaps[..|snaps| - 1]);
    }
  }

  lemma ReplayAbsorbedByDatabase(db: map<Key, Record>, origin: string, batch: seq<Record>)
    ensures Upsert(Upsert(db, StampAll(origin, batch)), StampAll(origin, batch)) == Upsert(db, StampAll(origin, batch))
  {
    var snaps := StampAll(origin, batch);
    UpsertAsUnion(db, snaps);
    UpsertAsUnion(Upsert(db, snaps), snaps);
  }
}
