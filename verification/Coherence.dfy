/** Index coherence: what every run of mail batches and rspamd verdicts keeps. */
module Coherence {
  import opened Text
  import opened Records
  import opened Timeline
  import opened Rspamd
  import opened StoreSpec

  /** A listed row is what its own key resolves to, in both indexes. */
  ghost predicate Listed(c: Core, i: nat)
    requires i < |c.records|
  {
    var key := KeyOf(c.records[i]);
    && key in c.byQueueID && c.byQueueID[key] == i
    && (key in c.byDelivery ==> c.byDelivery[key] == i)
  }

  /** A resolved key is its row's own or an expected onward id, and never crosses servers. */
  ghost predicate Resolves(c: Core, key: Key)
    requires key in c.byQueueID && c.byQueueID[key] < |c.records|
  {
    var r := c.records[c.byQueueID[key]];
    r.origin == key.origin && (r.qid == key.qid || key in c.byDelivery)
  }

  ghost predicate Coherent(c: Core) {
    && InRange(c)
    && (forall k | k in c.byDelivery :: c.byDelivery[k] < |c.records| && c.records[c.byDelivery[k]].origin == k.origin)
    && (forall i | 0 <= i < |c.records| && !c.records[i].subsumed :: Listed(c, i))
    && (forall k | k in c.byQueueID :: Resolves(c, k))
    && (forall i, j | 0 <= i < j < |c.records| && KeyOf(c.records[i]) == KeyOf(c.records[j]) :: c.records[i].subsumed)
  }

  /** Two listed rows never share a key. */
  lemma ListedKeysUnique(c: Core, i: nat, j: nat)
    requires Coherent(c) && i < |c.records| && j < |c.records|
    requires !c.records[i].subsumed && !c.records[j].subsumed && KeyOf(c.records[i]) == KeyOf(c.records[j])
    ensures i == j
  {
    assert Listed(c, i) && Listed(c, j);
  }

  lemma PutCoherent(c: Core, i: nat, r: Record)
    requires Coherent(c) && i < |c.records|
    requires KeyOf(r) == KeyOf(c.records[i]) && (c.records[i].subsumed ==> r.subsumed)
    ensures Coherent(Put(c, i, r))
  {
    var c' := Put(c, i, r);
    assert forall j | 0 <= j < |c.records| :: KeyOf(c'.records[j]) == KeyOf(c.records[j]);
    forall k | k in c.byQueueID
      ensures Resolves(c', k)
    {
      assert Resolves(c, k);
    }
    forall j | 0 <= j < |c.records| && !c'.records[j].subsumed
      ensures Listed(c', j)
    {
      assert Listed(c, j);
    }
  }

  lemma AliasCoherent(c: Core, key: Key)
    requires Coherent(c) && key in c.byDelivery
    ensures Coherent(c.(byQueueID := c.byQueueID[key := c.byDelivery[key]]))
  {
    var c' := c.(byQueueID := c.byQueueID[key := c.byDelivery[key]]);
    forall i | 0 <= i < |c.records| && !c.records[i].subsumed
      ensures Listed(c', i)
    {
      assert Listed(c, i);
    }
    forall k | k in c'.byQueueID
      ensures Resolves(c', k)
    {
      if k != key {
        assert Resolves(c, k);
      }
    }
  }

  lemma AppendLists(c: Core, r: Record)
    requires Coherent(c) && KeyOf(r) !in c.byDelivery && !IsKnown(c, KeyOf(r))
    ensures forall i | 0 <= i < |c.records| && !c.records[i].subsumed :: Listed(Append(c, r), i) && KeyOf(c.records[i]) != KeyOf(r)
    ensures Listed(Append(c, r), |c.records|)
  {
    forall i | 0 <= i < |c.records| && !c.records[i].subsumed
      ensures Listed(Append(c, r), i) && KeyOf(c.records[i]) != KeyOf(r)
    {
      assert Listed(c, i);
    }
  }

  lemma AppendResolves(c: Core, r: Record)
    requires Coherent(c)
    ensures InRange(Append(c, r)) && forall k | k in Append(c, r).byQueueID :: Resolves(Append(c, r), k)
  {
    var c' := Append(c, r);
    forall k | k in c'.byQueueID
      ensures Resolves(c', k)
    {
      if k != KeyOf(r) {
        assert Resolves(c, k);
      }
    }
  }

  lemma AppendCoherent(c: Core, r: Record)
    requires Coherent(c) && KeyOf(r) !in c.byDelivery && !IsKnown(c, KeyOf(r))
    ensures Coherent(Append(c, r))
  {
    AppendLists(c, r);
    AppendResolves(c, r);
  }

  /** Registering a delivery link keeps every index right, whether or not the leg is there already. */
  lemma RegisterCoherent(c: Core, i: nat)
    requires Coherent(c) && i < |c.records|
    ensures Coherent(Register(c, i).core)
  {
    var dkey := DeliveryKey(c.records[i]);
    if dkey in c.byQueueID && c.byQueueID[dkey] != i && !c.records[c.byQueueID[dkey]].subsumed {
      var o := c.byQueueID[dkey];
      PutCoherent(c, i, MergeDeliveryLeg(c.records[i], c.records[o]));
      var folded := Put(c, i, MergeDeliveryLeg(c.records[i], c.records[o]));
      PutCoherent(folded, o, c.records[o].(subsumed := true));
      LinkCoherent(Put(folded, o, c.records[o].(subsumed := true)), i, dkey);
      AliasCoherent(Linked(Put(folded, o, c.records[o].(subsumed := true)), i, dkey), dkey);
    } else {
      LinkCoherent(c, i, dkey);
    }
  }

  function Linked(c: Core, i: nat, dkey: Key): Core {
    c.(byDelivery := c.byDelivery[dkey := i])
  }

  lemma LinkCoherent(c: Core, i: nat, dkey: Key)
    requires Coherent(c) && i < |c.records| && c.records[i].origin == dkey.origin
    requires dkey in c.byQueueID ==> c.byQueueID[dkey] == i || c.records[c.byQueueID[dkey]].subsumed
    ensures Coherent(Linked(c, i, dkey))
  {
    var c' := Linked(c, i, dkey);
    forall j | 0 <= j < |c.records| && !c.records[j].subsumed
      ensures Listed(c', j)
    {
      assert Listed(c, j);
    }
    assert forall k | k in c.byQueueID :: Resolves(c, k) ==> Resolves(c', k);
  }

  lemma SettleCoherent(c: Core, i: nat, link: bool)
    requires Coherent(c) && i < |c.records|
    ensures Coherent(Settle(c, i, link).core)
  {
    if link {
      RegisterCoherent(c, i);
    }
    var reg := if link then Register(c, i).core else c;
    var qid := reg.records[i].qid;
    if qid in reg.pending {
      PutCoherent(reg, i, Enrich(reg.records[i], reg.pending[qid]));
      PendingCoherent(Put(reg, i, Enrich(reg.records[i], reg.pending[qid])), reg.pending - {qid}, reg.hasOrigins);
    }
  }

  lemma PendingCoherent(c: Core, pending: map<string, RspamdVerdict>, hasOrigins: bool)
    requires Coherent(c)
    ensures Coherent(c.(pending := pending, hasOrigins := hasOrigins))
  {
    var c' := c.(pending := pending, hasOrigins := hasOrigins);
    assert forall j | 0 <= j < |c.records| :: Listed(c, j) ==> Listed(c', j);
    assert forall k | k in c.byQueueID :: Resolves(c, k) ==> Resolves(c', k);
  }

  lemma AddOneCoherent(c: Core, r: Record)
    requires Coherent(c)
    ensures Coherent(AddOne(c, r).core)
  {
    var noted, key := NoteOrigin(c, r.origin), KeyOf(r);
    PendingCoherent(c, c.pending, noted.hasOrigins);
    if IsLeg(noted, key) {
      var p := c.byDelivery[key];
      PutCoherent(noted, p, MergeDeliveryLeg(c.records[p], r));
      AliasCoherent(Put(noted, p, MergeDeliveryLeg(c.records[p], r)), key);
    } else if IsKnown(noted, key) {
      var i := c.byQueueID[key];
      PutCoherent(noted, i, MergeRecord(c.records[i], r));
      SettleCoherent(Put(noted, i, MergeRecord(c.records[i], r)), i, r.delivery != "");
    } else {
      AppendCoherent(noted, r);
      SettleCoherent(Append(noted, r), |c.records|, r.delivery != "");
    }
  }

  lemma {:induction false} AddCoherent(c: Core, records: seq<Record>)
    requires Coherent(c)
    ensures Coherent(Add(c, records).core)
  {
    if records == [] {
    } else {
      AddCoherent(c, records[..|records| - 1]);
      AddOneCoherent(Add(c, records[..|records| - 1]).core, records[|records| - 1]);
    }
  }

  lemma ApplyVerdictCoherent(c: Core, qid: string, v: RspamdVerdict)
    requires Coherent(c)
    ensures Coherent(ApplyVerdict(c, qid, v).core)
  {
    if VerdictMatches(c, qid) {
      var i := c.byQueueID[Key("", qid)];
      PutCoherent(c, i, Enrich(c.records[i], v));
    } else {
      PendingCoherent(c, c.pending[qid := v], c.hasOrigins);
    }
  }

  // ---- runs ----

  datatype Event = Mail(records: seq<Record>) | Scanner(qid: string, verdict: RspamdVerdict)

  function Apply(c: Core, e: Event): (s: Step)
    requires InRange(c)
    ensures InRange(s.core)
  {
    match e
    case Mail(records) => Add(c, records)
    case Scanner(qid, v) => ApplyVerdict(c, qid, v)
  }

  /** Events one after the other, with every snapshot flushed along the way. */
  function RunFrom(c: Core, events: seq<Event>): (s: Step)
    requires InRange(c)
    ensures InRange(s.core)
  {
    if events == [] then Step(c, [])
    else
      var front := RunFrom(c, events[..|events| - 1]);
      var last := Apply(front.core, events[|events| - 1]);
      Step(last.core, front.snaps + last.snaps)
  }

  /** A whole run from an empty store. */
  function Run(events: seq<Event>): (s: Step)
    ensures InRange(s.core)
  {
    RunFrom(EMPTY, events)
  }

  /** Index coherence in every run. */
  lemma {:induction false} RunCoherent(events: seq<Event>)
    ensures Coherent(Run(events).core)
  {
    if events == [] {
    } else {
      RunCoherent(events[..|events| - 1]);
      var c := Run(events[..|events| - 1]).core;
      match events[|events| - 1]
      case Mail(records) => AddCoherent(c, records);
      case Scanner(qid, v) => ApplyVerdictCoherent(c, qid, v);
    }
  }
}
