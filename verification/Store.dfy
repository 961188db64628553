/** The store object: its operations update records and indexes in place and flush snapshots. */
module Store {
  import opened Text
  import opened Records
  import opened Timeline
  import opened Rspamd
  import opened StoreSpec

  class Store {
    var records: seq<Record>
    var byQueueID: map<Key, nat>
    var byDelivery: map<Key, nat>
    var rspamdPending: map<string, RspamdVerdict>
    var hasOrigins: bool
    /** The database rows, when one is configured. */
    var db: Option<map<Key, Record>>
    /** Everything handed to the forwarder, in order, when one is configured. */
    var sink: Option<seq<Record>>

    function State(): Core
      reads this
    {
      Core(records, byQueueID, byDelivery, rspamdPending, hasOrigins)
    }

    predicate Valid()
      reads this
    {
      InRange(State())
    }

    predicate Persisting()
      reads this
    {
      db.Some? || sink.Some?
    }

    /** Snapshots are captured only for a database or a sink. */
    function Captured(snaps: seq<Record>): seq<Record>
      reads this
    {
      if Persisting() then snaps else []
    }

    constructor (hasDb: bool, hasSink: bool)
      ensures State() == EMPTY && Valid()
      ensures db == (if hasDb then Some(map[]) else None) && sink == (if hasSink then Some([]) else None)
    {
      records, byQueueID, byDelivery, rspamdPending, hasOrigins := [], map[], map[], map[], false;
      db := if hasDb then Some(map[]) else None;
      sink := if hasSink then Some([]) else None;
    }

    method UpsertRecords(snaps: seq<Record>)
      modifies this`db
      ensures db.Some? == old(db).Some? && (db.Some? ==> db.value == Upsert(old(db.value), snaps))
    {
      if db.Some? {
        var rows := db.value;
        for i := 0 to |snaps|
          invariant rows == Upsert(old(db.value), snaps[..i]) && db == old(db)
        {
          assert snaps[..i + 1][..i] == snaps[..i];
          rows := rows[KeyOf(snaps[i]) := snaps[i]];
        }
        assert snaps[..|snaps|] == snaps;
        db := Some(rows);
      }
    }

    method Flush(snaps: seq<Record>)
      modifies this`db, this`sink
      ensures db.Some? == old(db).Some? && (db.Some? ==> db.value == Upsert(old(db.value), snaps))
      ensures sink.Some? == old(sink).Some? && (sink.Some? ==> sink.value == old(sink.value) + snaps)
    {
      assert sink.Some? ==> sink.value + [] == sink.value;
      if |snaps| == 0 {
        return;
      }
      UpsertRecords(snaps);
      if sink.Some? {
        sink := Some(sink.value + snaps);
      }
    }

    method RegisterDelivery(idx: nat, toUpsert: seq<Record>) returns (out: seq<Record>)
      requires Valid() && idx < |records|
      modifies this`records, this`byQueueID, this`byDelivery
      ensures Valid() && State() == Register(old(State()), idx).core
      ensures out == toUpsert + Captured(Register(old(State()), idx).snaps)
    {
      out := toUpsert;
      var dkey := DeliveryKey(records[idx]);
      byDelivery := byDelivery[dkey := idx];
      if dkey in byQueueID && byQueueID[dkey] != idx && !records[byQueueID[dkey]].subsumed {
        var oIdx := byQueueID[dkey];
        records := records[idx := MergeDeliveryLeg(records[idx], records[oIdx])];
        records := records[oIdx := records[oIdx].(subsumed := true)];
        byQueueID := byQueueID[dkey := idx];
        if Persisting() {
          out := out + [records[oIdx]];
        }
      }
    }

    method ApplyPendingRspamd(idx: nat)
      requires idx < |records|
      modifies this`records, this`rspamdPending
      ensures State() == ApplyPending(old(State()), idx)
    {
      var qid := records[idx].qid;
      if qid in rspamdPending {
        records := records[idx := Enrich(records[idx], rspamdPending[qid])];
        rspamdPending := rspamdPending - {qid};
      }
    }

    /** Links, enriches and captures the record just merged or appended. */
    method SettleRecord(idx: nat, link: bool, toUpsert: seq<Record>) returns (out: seq<Record>)
      requires Valid() && idx < |records|
      modifies this`records, this`byQueueID, this`byDelivery, this`rspamdPending
      ensures Valid() && State() == Settle(old(State()), idx, link).core
      ensures out == toUpsert + Captured(Settle(old(State()), idx, link).snaps)
    {
      out := toUpsert;
      if link {
        out := RegisterDelivery(idx, out);
      }
      ApplyPendingRspamd(idx);
      if Persisting() {
        out := out + [records[idx]];
      }
    }

    method AddRecord(r: Record, toUpsert: seq<Record>) returns (out: seq<Record>)
      requires Valid()
      modifies this`records, this`byQueueID, this`byDelivery, this`rspamdPending, this`hasOrigins
      ensures Valid() && State() == AddOne(old(State()), r).core
      ensures out == toUpsert + Captured(AddOne(old(State()), r).snaps)
    {
      out := toUpsert;
      if r.origin != "" {
        hasOrigins := true;
      }
      var key := KeyOf(r);
      if key in byDelivery && byDelivery[key] < |records| {
        var pIdx := byDelivery[key];
        records := records[pIdx := MergeDeliveryLeg(records[pIdx], r)];
        byQueueID := byQueueID[key := pIdx];
        if Persisting() {
          out := out + [records[pIdx]];
        }
        return;
      }
      if key in byQueueID && !records[byQueueID[key]].subsumed {
        var idx := byQueueID[key];
        var merged := MergeInto(records[idx], r);
        records := records[idx := merged];
        out := SettleRecord(idx, r.delivery != "", out);
        return;
      }
      var idx := |records|;
      byQueueID := byQueueID[key := idx];
      records := records + [r];
      out := SettleRecord(idx, r.delivery != "", out);
    }

    /** The next record of a batch, with what is to be flushed by then. */
    method AddNextRecord(ghost before: Core, batch: seq<Record>, i: nat, toUpsert: seq<Record>) returns (out: seq<Record>)
      requires Valid() && InRange(before) && i < |batch|
      requires State() == Add(before, batch[..i]).core && toUpsert == Captured(Add(before, batch[..i]).snaps)
      modifies this`records, this`byQueueID, this`byDelivery, this`rspamdPending, this`hasOrigins
      ensures State() == Add(before, batch[..i + 1]).core
      ensures out == Captured(Add(before, batch[..i + 1]).snaps)
    {
      ghost var done := Add(before, batch[..i]);
      ghost var next := AddOne(done.core, batch[i]);
      AddNext(before, batch, i);
      out := AddRecord(batch[i], toUpsert);
      assert State() == next.core && out == Captured(done.snaps) + Captured(next.snaps);
    }

    /** The records of a batch in turn, with what is to be flushed. */
    method AddEach(batch: seq<Record>) returns (toUpsert: seq<Record>)
      requires Valid()
      modifies this`records, this`byQueueID, this`byDelivery, this`rspamdPending, this`hasOrigins
      ensures Valid() && State() == Add(old(State()), batch).core
      ensures toUpsert == Captured(Add(old(State()), batch).snaps)
    {
      toUpsert := [];
      for i := 0 to |batch|
        invariant Valid() && State() == Add(old(State()), batch[..i]).core
        invariant toUpsert == Captured(Add(old(State()), batch[..i]).snaps)
      {
        toUpsert := AddNextRecord(old(State()), batch, i, toUpsert);
      }
      assert batch[..|batch|] == batch;
    }

    method AddRecords(batch: seq<Record>)
      requires Valid()
      modifies this
      ensures Valid() && State() == Add(old(State()), batch).core
      ensures db.Some? == old(db).Some? && (db.Some? ==> db.value == Upsert(old(db.value), Add(old(State()), batch).snaps))
      ensures sink.Some? == old(sink).Some? && (sink.Some? ==> sink.value == old(sink.value) + Add(old(State()), batch).snaps)
    {
      var toUpsert := AddEach(batch);
      Flush(toUpsert);
    }

    /** The verdict enriches a listed record at once, or waits for it; no row is added. */
    method ApplyRspamdVerdict(qid: string, v: RspamdVerdict) returns (matched: bool)
      requires Valid()
      modifies this
      ensures Valid() && State() == ApplyVerdict(old(State()), qid, v).core
      ensures matched == VerdictMatches(old(State()), qid)
      ensures db.Some? == old(db).Some? && (db.Some? ==> db.value == Upsert(old(db.value), ApplyVerdict(old(State()), qid, v).snaps))
      ensures sink.Some? == old(sink).Some? && (sink.Some? ==> sink.value == old(sink.value) + ApplyVerdict(old(State()), qid, v).snaps)
    {
      var key := Key("", qid);
      if key in byQueueID && byQueueID[key] < |records| && !records[byQueueID[key]].subsumed {
        var idx := byQueueID[key];
        records := records[idx := Enrich(records[idx], v)];
        if Persisting() {
          Flush([records[idx]]);
        }
        return true;
      }
      rspamdPending := rspamdPending[qid := v];
      assert sink.Some? ==> sink.value + [] == sink.value;
      return false;
    }

    method RestoreDeliveryLink(idx: nat)
      requires idx < |records|
      modifies this`byQueueID, this`byDelivery
      ensures State() == RestoreLink(old(State()), idx)
    {
      if records[idx].delivery == "" {
        return;
      }
      var dkey := DeliveryKey(records[idx]);
      byDelivery := byDelivery[dkey := idx];
      if dkey !in byQueueID {
        byQueueID := byQueueID[dkey := idx];
      }
    }

    method IngestRecord(origin: string, r: Record)
      modifies this`records, this`byQueueID, this`byDelivery, this`hasOrigins
      ensures State() == IngestOne(old(State()), origin, r)
    {
      var stamped := Stamp(origin, r);
      if origin != "" {
        hasOrigins := true;
      }
      if stamped.subsumed {
        return;
      }
      var key := Key(origin, r.qid);
      if key in byQueueID && byQueueID[key] < |records| && KeyOf(records[byQueueID[key]]) == key
         && !records[byQueueID[key]].subsumed {
        var idx := byQueueID[key];
        records := records[idx := stamped];
        RestoreDeliveryLink(idx);
      } else {
        var idx := |records|;
        byQueueID := byQueueID[key := idx];
        records := records + [stamped];
        RestoreDeliveryLink(idx);
      }
    }

    /** Takes a forwarder's batch: the stamped rows replace what the store had for them. */
    method IngestSnapshots(origin: string, batch: seq<Record>) returns (accepted: nat)
      modifies this
      ensures State() == Ingest(old(State()), origin, batch)
      ensures accepted == |batch| && sink == old(sink)
      ensures db.Some? == old(db).Some? && (db.Some? ==> db.value == Upsert(old(db.value), StampAll(origin, batch)))
    {
      var toPersist: seq<Record> := [];
      accepted := 0;
      for i := 0 to |batch|
        invariant State() == Ingest(old(State()), origin, batch[..i]) && accepted == i
        invariant db == old(db) && sink == old(sink)
        invariant db.Some? ==> toPersist == StampAll(origin, batch[..i])
        invariant db.None? ==> toPersist == []
      {
        assert batch[..i + 1][..i] == batch[..i];
        IngestRecord(origin, batch[i]);
        accepted := accepted + 1;
        if db.Some? {
          toPersist := toPersist + [Stamp(origin, batch[i])];
        }
      }
      assert batch[..|batch|] == batch;
      if db.Some? && |toPersist| > 0 {
        UpsertRecords(toPersist);
      }
    }

    /** Reads the rows back, in whatever order the database lists them. */
    method LoadFromDB(rows: seq<Record>)
      modifies this
      ensures State() == if db.None? then old(State()) else Load(old(State()), rows)
      ensures db == old(db) && sink == old(sink)
    {
      if db.None? {
        return;
      }
      for i := 0 to |rows|
        invariant State() == Load(old(State()), rows[..i]) && db == old(db) && sink == old(sink)
      {
        assert rows[..i + 1][..i] == rows[..i];
        var r := rows[i];
        if r.origin != "" {
          hasOrigins := true;
        }
        if !r.subsumed && KeyOf(r) !in byQueueID {
          var idx := |records|;
          byQueueID := byQueueID[KeyOf(r) := idx];
          records := records + [r];
          RestoreDeliveryLink(idx);
        }
      }
      assert rows[..|rows|] == rows;
    }

    /** Drops older rows from memory, and then, by a clock read again, from the database. */
    method PurgeOlderThan(cutoff: Time, later: Time) returns (purged: nat)
      modifies this
      ensures Valid() && State() == Purge(old(State()), cutoff)
      ensures purged == |old(records)| - |records| && sink == old(sink)
      ensures db.Some? == old(db).Some? && (db.Some? ==> db.value == PurgeRows(old(db.value), later))
    {
      var kept, newIndex := KeepRecent(cutoff);
      KeptNoLonger(records, cutoff);
      purged := |records| - |kept|;
      records := kept;
      byQueueID := newIndex;
      if db.Some? {
        db := Some(PurgeRows(db.value, later));
      }
    }

    /** The rows to keep, and the queue ids they are found under. */
    method KeepRecent(cutoff: Time) returns (kept: seq<Record>, newIndex: map<Key, nat>)
      ensures kept == Kept(records, cutoff) && newIndex == Reindexed(kept)
    {
      kept, newIndex := [], map[];
      for i := 0 to |records|
        invariant kept == Kept(records[..i], cutoff) && newIndex == Reindexed(kept)
      {
        KeptSnoc(records, i, cutoff);
        var r := records[i];
        if r.time == ZERO_TIME || r.time >= cutoff {
          ReindexedSnoc(kept, r);
          newIndex := newIndex[KeyOf(r) := |kept|];
          kept := kept + [r];
        }
      }
      assert records[..|records|] == records;
    }
  }

  lemma KeptSnoc(records: seq<Record>, i: nat, cutoff: Time)
    requires i < |records|
    ensures Kept(records[..i + 1], cutoff)
      == Kept(records[..i], cutoff) + if Expired(records[i], cutoff) then [] else [records[i]]
  {
    assert records[..i + 1][..i] == records[..i];
  }

  lemma ReindexedSnoc(kept: seq<Record>, r: Record)
    ensures Reindexed(kept + [r]) == Reindexed(kept)[KeyOf(r) := |kept|]
  {
    assert (kept + [r])[..|kept|] == kept;
  }

  lemma {:induction false} KeptNoLonger(records: seq<Record>, cutoff: Time)
    ensures |Kept(records, cutoff)| <= |records|
  {
    if records == [] {
    } else {
      KeptNoLonger(records[..|records| - 1], cutoff);
    }
  }
}
