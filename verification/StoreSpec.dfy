/**
 The store's state and what each of its operations does to it, including the
 snapshots it hands on to the database and to the forwarder.
 */
module StoreSpec {
  import opened Text
  import opened Records
  import opened Timeline
  import opened Rspamd

  /** The record list, the two indexes into it, and verdicts waiting for their record. */
  datatype Core = Core(
    records: seq<Record>,
    byQueueID: map<Key, nat>,
    byDelivery: map<Key, nat>,
    pending: map<string, RspamdVerdict>,
    hasOrigins: bool)

  const EMPTY := Core([], map[], map[], map[], false)

  /** An operation's outcome: the new state and the snapshots it flushes, in order. */
  datatype Step = Step(core: Core, snaps: seq<Record>)

  /** Every queue id resolves to a record; what the store relies on whenever it follows byQueueID. */
  predicate InRange(c: Core) {
    forall k | k in c.byQueueID :: c.byQueueID[k] < |c.records|
  }

  function Put(c: Core, i: nat, r: Record): Core
    requires i < |c.records|
  {
    c.(records := c.records[i := r])
  }

  // ---- AddRecords ----

  /** The primary at i expects an outbound leg; a leg already listed is folded in and subsumed. */
  function Register(c: Core, i: nat): (s: Step)
    requires InRange(c) && i < |c.records|
    ensures InRange(s.core) && |s.core.records| == |c.records|
  {
    var dkey := DeliveryKey(c.records[i]);
    var linked := c.(byDelivery := c.byDelivery[dkey := i]);
    if dkey in c.byQueueID && c.byQueueID[dkey] != i && !c.records[c.byQueueID[dkey]].subsumed then
      var o := c.byQueueID[dkey];
      var leg := c.records[o].(subsumed := true);
      Step(Put(Put(linked, i, MergeDeliveryLeg(c.records[i], c.records[o])), o, leg).(byQueueID := c.byQueueID[dkey := i]), [leg])
    else Step(linked, [])
  }

  /** A verdict that arrived before the record is applied to it, whatever the record's origin. */
  function ApplyPending(c: Core, i: nat): (c': Core)
    requires i < |c.records|
    ensures |c'.records| == |c.records| && c'.byQueueID == c.byQueueID
  {
    var qid := c.records[i].qid;
    if qid in c.pending
    then Put(c, i, Enrich(c.records[i], c.pending[qid])).(pending := c.pending - {qid})
    else c
  }

  /** The common end of merging into, or appending, record i. */
  function Settle(c: Core, i: nat, link: bool): (s: Step)
    requires InRange(c) && i < |c.records|
    ensures InRange(s.core)
  {
    var registered := if link then Register(c, i) else Step(c, []);
    var settled := ApplyPending(registered.core, i);
    Step(settled, registered.snaps + [settled.records[i]])
  }

  predicate IsLeg(c: Core, key: Key) {
    key in c.byDelivery && c.byDelivery[key] < |c.records|
  }

  predicate IsKnown(c: Core, key: Key)
    requires InRange(c)
  {
    key in c.byQueueID && !c.records[c.byQueueID[key]].subsumed
  }

  function FoldLeg(c: Core, r: Record): (s: Step)
    requires InRange(c) && IsLeg(c, KeyOf(r))
    ensures InRange(s.core)
  {
    var p := c.byDelivery[KeyOf(r)];
    var merged := MergeDeliveryLeg(c.records[p], r);
    Step(Put(c, p, merged).(byQueueID := c.byQueueID[KeyOf(r) := p]), [merged])
  }

  function MergeKnown(c: Core, r: Record): (s: Step)
    requires InRange(c) && IsKnown(c, KeyOf(r))
    ensures InRange(s.core)
  {
    var i := c.byQueueID[KeyOf(r)];
    Settle(Put(c, i, MergeRecord(c.records[i], r)), i, r.delivery != "")
  }

  function Append(c: Core, r: Record): Core {
    c.(records := c.records + [r], byQueueID := c.byQueueID[KeyOf(r) := |c.records|])
  }

  function NoteOrigin(c: Core, origin: string): Core {
    c.(hasOrigins := c.hasOrigins || origin != "")
  }

  function AddOne(c: Core, r: Record): (s: Step)
    requires InRange(c)
    ensures InRange(s.core)
  {
    var noted := NoteOrigin(c, r.origin);
    if IsLeg(noted, KeyOf(r)) then FoldLeg(noted, r)
    else if IsKnown(noted, KeyOf(r)) then MergeKnown(noted, r)
    else Settle(Append(noted, r), |c.records|, r.delivery != "")
  }

  function Add(c: Core, records: seq<Record>): (s: Step)
    requires InRange(c)
    ensures InRange(s.core)
  {
    if records == [] then Step(c, [])
    else
      var front := Add(c, records[..|records| - 1]);
      var last := AddOne(front.core, records[|records| - 1]);
      Step(last.core, front.snaps + last.snaps)
  }

  lemma AddNext(c: Core, records: seq<Record>, i: nat)
    requires InRange(c) && i < |records|
    ensures var done := Add(c, records[..i]);
      var next := AddOne(done.core, records[i]);
      Add(c, records[..i + 1]) == Step(next.core, done.snaps + next.snaps)
  {
    assert records[..i + 1][..i] == records[..i];
  }

  // ---- ApplyRspamdVerdict ----

  predicate VerdictMatches(c: Core, qid: string) {
    var key := Key("", qid);
    key in c.byQueueID && c.byQueueID[key] < |c.records| && !c.records[c.byQueueID[key]].subsumed
  }

  function ApplyVerdict(c: Core, qid: string, v: RspamdVerdict): (s: Step)
    ensures |s.core.records| == |c.records| && s.core.byQueueID == c.byQueueID
  {
    if VerdictMatches(c, qid) then
      var i := c.byQueueID[Key("", qid)];
      var enriched := Enrich(c.records[i], v);
      Step(Put(c, i, enriched), [enriched])
    else Step(c.(pending := c.pending[qid := v]), [])
  }

  // ---- IngestSnapshots and LoadFromDB ----

  /** Makes a record's onward queue id resolve to it, unless that id resolves already. */
  function RestoreLink(c: Core, i: nat): Core
    requires i < |c.records|
  {
    var dkey := DeliveryKey(c.records[i]);
    if dkey.qid == "" then c
    else c.(byDelivery := c.byDelivery[dkey := i],
            byQueueID := if dkey in c.byQueueID then c.byQueueID else c.byQueueID[dkey := i])
  }

  /** The key resolves to a listed record of its own, not to an alias. */
  predicate Owns(c: Core, key: Key) {
    && key in c.byQueueID && c.byQueueID[key] < |c.records|
    && KeyOf(c.records[c.byQueueID[key]]) == key && !c.records[c.byQueueID[key]].subsumed
  }

  function Stamp(origin: string, r: Record): Record {
    r.(origin := origin)
  }

  function StampAll(origin: string, batch: seq<Record>): seq<Record> {
    if batch == [] then []
    else StampAll(origin, batch[..|batch| - 1]) + [Stamp(origin, batch[|batch| - 1])]
  }

  function IngestOne(c: Core, origin: string, r: Record): Core {
    var noted, stamped := NoteOrigin(c, origin), Stamp(origin, r);
    if r.subsumed then noted
    else if Owns(noted, KeyOf(stamped)) then
      var i := noted.byQueueID[KeyOf(stamped)];
      RestoreLink(Put(noted, i, stamped), i)
    else RestoreLink(Append(noted, stamped), |c.records|)
  }

  function Ingest(c: Core, origin: string, batch: seq<Record>): Core {
    if batch == [] then c
    else IngestOne(Ingest(c, origin, batch[..|batch| - 1]), origin, batch[|batch| - 1])
  }

  function LoadOne(c: Core, r: Record): Core {
    var noted := NoteOrigin(c, r.origin);
    if r.subsumed || KeyOf(r) in c.byQueueID then noted
    else RestoreLink(Append(noted, r), |c.records|)
  }

  function Load(c: Core, rows: seq<Record>): Core {
    if rows == [] then c else LoadOne(Load(c, rows[..|rows| - 1]), rows[|rows| - 1])
  }

  // ---- PurgeOlderThan ----

  predicate Expired(r: Record, cutoff: Time) {
    r.time != ZERO_TIME && r.time < cutoff
  }

  function Kept(records: seq<Record>, cutoff: Time): seq<Record> {
    if records == [] then []
    else
      var front, last := Kept(records[..|records| - 1], cutoff), records[|records| - 1];
      if Expired(last, cutoff) then front else front + [last]
  }

  function Reindexed(records: seq<Record>): (index: map<Key, nat>)
    ensures forall k | k in index :: index[k] < |records| && KeyOf(records[index[k]]) == k
  {
    if records == [] then map[]
    else Reindexed(records[..|records| - 1])[KeyOf(records[|records| - 1]) := |records| - 1]
  }

  /** Retention rebuilds byQueueID from the kept rows but leaves byDelivery as it was. */
  function Purge(c: Core, cutoff: Time): (c': Core)
    ensures InRange(c')
  {
    var kept := Kept(c.records, cutoff);
    c.(records := kept, byQueueID := Reindexed(kept))
  }

  /** DeleteOlderThan: what the database keeps, by a cutoff of its own. */
  function PurgeRows(db: map<Key, Record>, cutoff: Time): map<Key, Record> {
    map k | k in db && !Expired(db[k], cutoff) :: db[k]
  }

  // ---- the database ----

  /** UpsertRecords: the last snapshot of a key wins. */
  function Upsert(db: map<Key, Record>, snaps: seq<Record>): map<Key, Record> {
    if snaps == [] then db
    else Upsert(db, snaps[..|snaps| - 1])[KeyOf(snaps[|snaps| - 1]) := snaps[|snaps| - 1]]
  }

  lemma {:induction false} UpsertConcat(db: map<Key, Record>, a: seq<Record>, b: seq<Record>)
    ensures Upsert(db, a + b) == Upsert(Upsert(db, a), b)
  {
    if b == [] {
      assert a + b == a;
    } else {
      UpsertConcat(db, a, b[..|b| - 1]);
      assert (a + b)[..|a + b| - 1] == a + b[..|b| - 1];
    }
  }

  lemma SameRecords(a: map<Key, Record>, b: map<Key, Record>)
    requires forall k | k in a :: k in b && b[k] == a[k]
    requires forall k | k in b :: k in a
    ensures a == b
  {
  }

  /** What the user sees: the record each listed key owns. */
  function View(c: Core): map<Key, Record> {
    map k | k in c.byQueueID && Owns(c, k) :: c.records[c.byQueueID[k]]
  }

  // ---- where a verdict goes ----

  /** The row a local queue id leads to is listed and it is this one. */
  predicate LeadsTo(c: Core, qid: string, i: nat) {
    Key("", qid) in c.byQueueID && c.byQueueID[Key("", qid)] == i && i < |c.records| && !c.records[i].subsumed
  }

  /** A verdict goes to the listed row its id leads to, and to no other; without one it replaces what waits for the id. */
  lemma VerdictGoesToListed(c: Core, qid: string, v: RspamdVerdict)
    ensures var s := ApplyVerdict(c, qid, v);
      && (forall i | 0 <= i < |c.records| ::
            s.core.records[i] == if LeadsTo(c, qid, i) then Enrich(c.records[i], v) else c.records[i])
      && s.core.byDelivery == c.byDelivery && s.core.hasOrigins == c.hasOrigins
      && if i: nat :| LeadsTo(c, qid, i) then s.core.pending == c.pending && s.snaps == [s.core.records[i]]
         else s.core.pending == c.pending[qid := v] && s.snaps == []
  {
  }

  /** A record that is settled, of whatever server, takes the verdict that waits for its queue id. */
  lemma WaitingVerdictIsTaken(c: Core, i: nat)
    requires i < |c.records|
    ensures var taken, qid := ApplyPending(c, i), c.records[i].qid;
      && qid !in taken.pending && (forall q | q != qid :: q in taken.pending <==> q in c.pending)
      && (forall q | q in taken.pending :: taken.pending[q] == c.pending[q])
      && taken.records[i] == (if qid in c.pending then Enrich(c.records[i], c.pending[qid]) else c.records[i])
      && forall j | 0 <= j < |c.records| && j != i :: taken.records[j] == c.records[j]
  {
  }

  // ---- whether several servers are shown ----

  lemma SettleKeepsOrigins(c: Core, i: nat, link: bool)
    requires InRange(c) && i < |c.records|
    ensures Settle(c, i, link).core.hasOrigins == c.hasOrigins
  {
  }

  lemma OneNotesOrigin(c: Core, r: Record)
    requires InRange(c)
    ensures AddOne(c, r).core.hasOrigins <==> c.hasOrigins || r.origin != ""
  {
    var noted := NoteOrigin(c, r.origin);
    if !IsLeg(noted, KeyOf(r)) {
      if IsKnown(noted, KeyOf(r)) {
        var i := noted.byQueueID[KeyOf(r)];
        SettleKeepsOrigins(Put(noted, i, MergeRecord(noted.records[i], r)), i, r.delivery != "");
      } else {
        SettleKeepsOrigins(Append(noted, r), |c.records|, r.delivery != "");
      }
    }
  }

  /** The store shows servers from the first record on that names one. */
  lemma {:induction false} AddNotesOrigins(c: Core, records: seq<Record>)
    requires InRange(c)
    ensures Add(c, records).core.hasOrigins <==> c.hasOrigins || exists r :: r in records && r.origin != ""
  {
    if records == [] {
    } else {
      var front, last := records[..|records| - 1], records[|records| - 1];
      assert records == front + [last];
      AddNotesOrigins(c, front);
      OneNotesOrigin(Add(c, front).core, last);
    }
  }

  lemma {:induction false} IngestNotesOrigin(c: Core, origin: string, batch: seq<Record>)
    ensures Ingest(c, origin, batch).hasOrigins <==> c.hasOrigins || (batch != [] && origin != "")
  {
    if batch == [] {
    } else {
      IngestNotesOrigin(c, origin, batch[..|batch| - 1]);
    }
  }

  lemma {:induction false} LoadNotesOrigins(c: Core, rows: seq<Record>)
    ensures Load(c, rows).hasOrigins <==> c.hasOrigins || exists r :: r in rows && r.origin != ""
  {
    if rows == [] {
    } else {
      var front, last := rows[..|rows| - 1], rows[|rows| - 1];
      assert rows == front + [last];
      LoadNotesOrigins(c, front);
    }
  }
}
