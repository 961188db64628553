/**
 The indexed store refines plain maps: which record each key lists, which primary each
 onward id is linked to, and which verdicts wait. A restart keeps the maps.
 */
module Refinement {
  import opened Text
  import opened Records
  import opened Timeline
  import opened Rspamd
  import opened StoreSpec
  import opened Coherence
  import opened Links
  import opened Restart
  import I = Ingest

  datatype Maps = Maps(view: map<Key, Record>, links: map<Key, Key>, pending: map<string, RspamdVerdict>)
  datatype MapStep = MapStep(maps: Maps, snaps: seq<Record>)

  // ---- AddRecords on maps ----

  function RegisterMap(m: Maps, key: Key): (s: MapStep)
    requires key in m.view
    ensures key in s.maps.view
  {
    var d := DeliveryKey(m.view[key]);
    var linked := m.(links := m.links[d := key]);
    if d in m.view && d != key then
      MapStep(linked.(view := m.view[key := MergeDeliveryLeg(m.view[key], m.view[d])] - {d}), [m.view[d].(subsumed := true)])
    else MapStep(linked, [])
  }

  function PendingMap(m: Maps, key: Key): (m': Maps)
    requires key in m.view
    ensures key in m'.view
  {
    if m.view[key].qid in m.pending
    then m.(view := m.view[key := Enrich(m.view[key], m.pending[m.view[key].qid])], pending := m.pending - {m.view[key].qid})
    else m
  }

  function SettleMap(m: Maps, key: Key, link: bool): MapStep
    requires key in m.view
  {
    var registered := if link then RegisterMap(m, key) else MapStep(m, []);
    var settled := PendingMap(registered.maps, key);
    MapStep(settled, registered.snaps + [settled.view[key]])
  }

  /** Links lead to listed records. */
  predicate LinksListed(m: Maps) {
    forall d | d in m.links :: m.links[d] in m.view
  }

  function AddMap(m: Maps, r: Record): MapStep
    requires LinksListed(m)
  {
    var key := KeyOf(r);
    if key in m.links then
      var merged := MergeDeliveryLeg(m.view[m.links[key]], r);
      MapStep(m.(view := m.view[m.links[key] := merged]), [merged])
    else if key in m.view then SettleMap(m.(view := m.view[key := MergeRecord(m.view[key], r)]), key, r.delivery != "")
    else SettleMap(m.(view := m.view[key := r]), key, r.delivery != "")
  }

  // ---- the maps of an indexed store ----

  function LinkKeys(c: Core): map<Key, Key>
    requires Indexed(c)
  {
    map d | d in c.byDelivery :: KeyOf(c.records[c.byDelivery[d]])
  }

  function MapsOf(c: Core): Maps
    requires Indexed(c)
  {
    Maps(View(c), LinkKeys(c), c.pending)
  }

  /** A leg names no onward id itself, and nothing is its own leg. */
  ghost predicate NoChains(mail: set<Record>) {
    forall r, s | r in mail && s in mail && r.delivery != "" && s.delivery != "" :: DeliveryKey(r) != KeyOf(s)
  }

  ghost predicate TargetListed(c: Core, d: Key)
    requires d in c.byDelivery && c.byDelivery[d] < |c.records|
  {
    !c.records[c.byDelivery[d]].subsumed
  }

  ghost predicate LinksVisible(c: Core)
    requires Indexed(c)
  {
    forall d | d in c.byDelivery :: TargetListed(c, d)
  }

  /** All links right but one, as in Linkage, with all their targets listed. */
  ghost predicate Fits(c: Core, mail: set<Record>, except: nat) {
    Coherent(c) && Indexed(c) && Linkage(c, mail, except) && LinksVisible(c)
  }

  lemma RowView(c: Core, i: nat)
    requires Coherent(c) && i < |c.records| && !c.records[i].subsumed
    ensures var k := KeyOf(c.records[i]); Owns(c, k) && c.byQueueID[k] == i && k in View(c) && View(c)[k] == c.records[i]
  {
    assert Listed(c, i);
  }

  lemma PutLinks(c: Core, i: nat, r: Record)
    requires Indexed(c) && i < |c.records| && KeyOf(r) == KeyOf(c.records[i])
    ensures Indexed(Put(c, i, r)) && LinkKeys(Put(c, i, r)) == LinkKeys(c)
    ensures LinksVisible(c) && (!r.subsumed || forall d | d in c.byDelivery :: c.byDelivery[d] != i) ==> LinksVisible(Put(c, i, r))
  {
    assert forall d | d in c.byDelivery && (c.byDelivery[d] != i || !r.subsumed) :: TargetListed(c, d) ==> TargetListed(Put(c, i, r), d);
  }

  lemma PutMaps(c: Core, i: nat, r: Record)
    requires Indexed(c) && i < |c.records| && Owns(c, KeyOf(r)) && c.byQueueID[KeyOf(r)] == i && !r.subsumed
    ensures Indexed(Put(c, i, r)) && MapsOf(Put(c, i, r)) == MapsOf(c).(view := View(c)[KeyOf(r) := r])
  {
    I.PutView(c, r);
    PutLinks(c, i, r);
  }

  lemma AppendMaps(c: Core, r: Record)
    requires Indexed(c) && !r.subsumed
    ensures Indexed(Append(c, r)) && MapsOf(Append(c, r)) == MapsOf(c).(view := View(c)[KeyOf(r) := r])
    ensures LinksVisible(c) ==> LinksVisible(Append(c, r))
  {
    I.AppendView(c, r);
    assert LinkKeys(Append(c, r)) == LinkKeys(c);
    assert forall d | d in c.byDelivery :: TargetListed(c, d) ==> TargetListed(Append(c, r), d);
  }

  lemma AliasView(c: Core, key: Key, p: nat)
    requires p < |c.records|
    requires Owns(c, key) ==> c.byQueueID[key] == p
    requires KeyOf(c.records[p]) == key && !c.records[p].subsumed ==> Owns(c, key)
    ensures View(c.(byQueueID := c.byQueueID[key := p])) == View(c)
  {
  }

  /** Pointing an expected id at its primary does not change what any key lists. */
  lemma AliasMaps(c: Core, key: Key)
    requires Coherent(c) && Indexed(c) && key in c.byDelivery
    ensures var c' := c.(byQueueID := c.byQueueID[key := c.byDelivery[key]]);
      Indexed(c') && MapsOf(c') == MapsOf(c) && (LinksVisible(c) ==> LinksVisible(c'))
  {
    var p := c.byDelivery[key];
    var c' := c.(byQueueID := c.byQueueID[key := p]);
    if Owns(c, key) {
      assert Listed(c, c.byQueueID[key]);
    }
    if !c.records[p].subsumed {
      RowView(c, p);
    }
    AliasView(c, key, p);
    assert LinkKeys(c') == LinkKeys(c);
    assert forall d | d in c.byDelivery :: TargetListed(c, d) ==> TargetListed(c', d);
  }

  lemma LinkedView(c: Core, i: nat, dkey: Key)
    ensures View(Linked(c, i, dkey)) == View(c)
  {
  }

  lemma LinkedMaps(c: Core, i: nat, dkey: Key)
    requires Indexed(c) && i < |c.records| && !c.records[i].subsumed
    ensures Indexed(Linked(c, i, dkey)) && (LinksVisible(c) ==> LinksVisible(Linked(c, i, dkey)))
    ensures MapsOf(Linked(c, i, dkey)) == MapsOf(c).(links := LinkKeys(c)[dkey := KeyOf(c.records[i])])
  {
    var c' := Linked(c, i, dkey);
    LinkedView(c, i, dkey);
    assert LinkKeys(c') == LinkKeys(c)[dkey := KeyOf(c.records[i])];
    assert forall d | d in c.byDelivery && d != dkey :: TargetListed(c, d) ==> TargetListed(c', d);
  }

  lemma SubsumeView(c: Core, key: Key)
    requires Owns(c, key)
    ensures var o := c.byQueueID[key]; View(Put(c, o, c.records[o].(subsumed := true))) == View(c) - {key}
  {
  }

  /** Subsuming a leg takes it off the list. */
  lemma SubsumeMaps(c: Core, o: nat)
    requires Indexed(c) && o < |c.records| && Owns(c, KeyOf(c.records[o])) && c.byQueueID[KeyOf(c.records[o])] == o
    ensures var c' := Put(c, o, c.records[o].(subsumed := true));
      Indexed(c') && MapsOf(c') == MapsOf(c).(view := View(c) - {KeyOf(c.records[o])})
  {
    SubsumeView(c, KeyOf(c.records[o]));
    PutLinks(c, o, c.records[o].(subsumed := true));
  }

  // ---- each operation does on the indexes what it does on the maps ----

  /** No listed row but its own target sits under a linked key. */
  lemma LinkedKeyNotListed(c: Core, i: nat, dkey: Key)
    requires Coherent(c) && dkey in c.byDelivery && c.byDelivery[dkey] == i && i < |c.records| && KeyOf(c.records[i]) != dkey
    ensures dkey !in View(c)
  {
    if dkey in c.byQueueID {
      var j := c.byQueueID[dkey];
      assert c.records[j].subsumed || Listed(c, j);
    }
  }

  lemma HeldRegisterMaps(c: Core, mail: set<Record>, i: nat)
    requires Fits(c, mail, i) && i < |c.records| && !c.records[i].subsumed && c.records[i].delivery != "" && LinkHeld(c, i)
    ensures KeyOf(c.records[i]) in View(c) && Fits(c, mail, |c.records|)
    ensures RegisterMap(MapsOf(c), KeyOf(c.records[i])) == MapStep(MapsOf(c), [])
  {
    RowView(c, i);
    HeldRegistersQuietly(c, mail, i);
    var key, d := KeyOf(c.records[i]), DeliveryKey(c.records[i]);
    if d != key {
      LinkedKeyNotListed(c, i, d);
    }
    assert LinkKeys(c)[d := key] == LinkKeys(c);
  }

  /** Nothing is linked to a leg, because a leg names no onward id. */
  lemma NoLinkToLeg(c: Core, mail: set<Record>, i: nat, o: nat)
    requires NoChains(mail) && Indexed(c) && Linkage(c, mail, i) && i < |c.records| && o < |c.records|
    requires c.records[i].delivery != "" && KeyOf(c.records[o]) == DeliveryKey(c.records[i])
    ensures c.records[o].delivery == "" && forall d | d in c.byDelivery :: c.byDelivery[d] != o
  {
    assert RowOk(c, mail, i) && RowOk(c, mail, o);
    forall d | d in c.byDelivery
      ensures c.byDelivery[d] != o
    {
      assert LinkOk(c, d);
    }
  }

  /** Folding a listed leg into the primary that now names it. */
  lemma FoldListedMaps(c: Core, mail: set<Record>, i: nat, o: nat)
    requires NoChains(mail) && Fits(c, mail, i) && i < |c.records| && o < |c.records| && i != o
    requires !c.records[i].subsumed && !c.records[o].subsumed && c.records[i].delivery != ""
    requires KeyOf(c.records[o]) == DeliveryKey(c.records[i])
    ensures var folded := Put(Put(c, i, MergeDeliveryLeg(c.records[i], c.records[o])), o, c.records[o].(subsumed := true));
      && Indexed(folded) && Coherent(folded) && LinksVisible(folded) && !folded.records[i].subsumed
      && KeyOf(c.records[i]) in View(c)
      && MapsOf(folded) == MapsOf(c).(view := View(c)[KeyOf(c.records[i]) := MergeDeliveryLeg(c.records[i], c.records[o])]
                                              - {KeyOf(c.records[o])})
  {
    var merged, leg := MergeDeliveryLeg(c.records[i], c.records[o]), c.records[o].(subsumed := true);
    RowView(c, i);
    PutMaps(c, i, merged);
    PutLinks(c, i, merged);
    PutCoherent(c, i, merged);
    var put := Put(c, i, merged);
    RowView(put, o);
    SubsumeMaps(put, o);
    NoLinkToLeg(c, mail, i, o);
    PutLinks(put, o, leg);
    PutCoherent(put, o, leg);
  }

  /** The link and the alias that Register sets once the leg is folded. */
  lemma LinkFolded(folded: Core, i: nat, dkey: Key)
    requires Coherent(folded) && Indexed(folded) && LinksVisible(folded) && i < |folded.records| && !folded.records[i].subsumed
    requires dkey in folded.byQueueID && folded.records[folded.byQueueID[dkey]].subsumed && folded.records[i].origin == dkey.origin
    ensures var c' := folded.(byDelivery := folded.byDelivery[dkey := i], byQueueID := folded.byQueueID[dkey := i]);
      && Indexed(c') && LinksVisible(c')
      && MapsOf(c') == MapsOf(folded).(links := LinkKeys(folded)[dkey := KeyOf(folded.records[i])])
  {
    LinkedMaps(folded, i, dkey);
    LinkCoherent(folded, i, dkey);
    AliasMaps(Linked(folded, i, dkey), dkey);
  }

  lemma RegisterFoldsMaps(c: Core, mail: set<Record>, i: nat, o: nat)
    requires NoChains(mail) && Fits(c, mail, i) && i < |c.records| && !c.records[i].subsumed
    requires var d := DeliveryKey(c.records[i]);
      && c.records[i].delivery != "" && d in c.byQueueID && c.byQueueID[d] == o != i
      && !c.records[o].subsumed && KeyOf(c.records[o]) == d
    ensures var s := Register(c, i);
      && KeyOf(c.records[i]) in View(c) && Indexed(s.core) && LinksVisible(s.core)
      && MapStep(MapsOf(s.core), s.snaps) == RegisterMap(MapsOf(c), KeyOf(c.records[i]))
  {
    FoldListedMaps(c, mail, i, o);
    var folded := Put(Put(c, i, MergeDeliveryLeg(c.records[i], c.records[o])), o, c.records[o].(subsumed := true));
    LinkFolded(folded, i, DeliveryKey(c.records[i]));
    RowView(c, i);
    RowView(c, o);
  }

  lemma RegisterLinksMaps(c: Core, mail: set<Record>, i: nat)
    requires NoChains(mail) && Fits(c, mail, i) && i < |c.records| && !c.records[i].subsumed
    requires c.records[i].delivery != "" && DeliveryKey(c.records[i]) !in c.byDelivery
    requires var d := DeliveryKey(c.records[i]); !(d in c.byQueueID && c.byQueueID[d] != i && !c.records[c.byQueueID[d]].subsumed)
    ensures var s := Register(c, i);
      && KeyOf(c.records[i]) in View(c) && Indexed(s.core) && LinksVisible(s.core)
      && MapStep(MapsOf(s.core), s.snaps) == RegisterMap(MapsOf(c), KeyOf(c.records[i]))
  {
    assert RowOk(c, mail, i);
    LinkedMaps(c, i, DeliveryKey(c.records[i]));
    RowView(c, i);
  }

  lemma RegisterMaps(c: Core, mail: set<Record>, i: nat)
    requires OnePrimary(mail) && NoChains(mail) && Fits(c, mail, i) && i < |c.records| && !c.records[i].subsumed
    requires c.records[i].delivery != ""
    ensures var s := Register(c, i);
      && KeyOf(c.records[i]) in View(c) && Fits(s.core, mail, |c.records|)
      && MapStep(MapsOf(s.core), s.snaps) == RegisterMap(MapsOf(c), KeyOf(c.records[i]))
  {
    RegisterCoherent(c, i);
    var d := DeliveryKey(c.records[i]);
    if LinkHeld(c, i) {
      HeldRegistersQuietly(c, mail, i);
      HeldRegisterMaps(c, mail, i);
    } else {
      UnlinkedIsFree(c, mail, i);
      RegisterLinkage(c, mail, i);
      if d in c.byQueueID && c.byQueueID[d] != i && !c.records[c.byQueueID[d]].subsumed {
        assert AliasOk(c, d);
        RegisterFoldsMaps(c, mail, i, c.byQueueID[d]);
      } else {
        RegisterLinksMaps(c, mail, i);
      }
    }
  }

  lemma ApplyPendingMaps(c: Core, mail: set<Record>, i: nat)
    requires Fits(c, mail, |c.records|) && i < |c.records| && !c.records[i].subsumed
    ensures KeyOf(c.records[i]) in View(c)
    ensures var c' := ApplyPending(c, i);
      && Fits(c', mail, |c.records|) && MapsOf(c') == PendingMap(MapsOf(c), KeyOf(c.records[i]))
      && c'.records[i] == View(c')[KeyOf(c.records[i])]
  {
    RowView(c, i);
    var qid := c.records[i].qid;
    if qid in c.pending {
      var enriched := Enrich(c.records[i], c.pending[qid]);
      PutCoherent(c, i, enriched);
      PutLinkage(c, mail, i, enriched, |c.records|);
      PutMaps(c, i, enriched);
      PutLinks(c, i, enriched);
      ForgetMaps(Put(c, i, enriched), mail, c.pending - {qid}, c.hasOrigins);
      RowView(ApplyPending(c, i), i);
    }
  }

  lemma ForgetView(c: Core, pending: map<string, RspamdVerdict>, hasOrigins: bool)
    ensures View(c.(pending := pending, hasOrigins := hasOrigins)) == View(c)
  {
  }

  lemma ForgetMaps(c: Core, mail: set<Record>, pending: map<string, RspamdVerdict>, hasOrigins: bool)
    requires Fits(c, mail, |c.records|)
    ensures var c' := c.(pending := pending, hasOrigins := hasOrigins);
      Fits(c', mail, |c.records|) && MapsOf(c') == MapsOf(c).(pending := pending)
  {
    var c' := c.(pending := pending, hasOrigins := hasOrigins);
    PendingCoherent(c, pending, hasOrigins);
    PendingLinkage(c, mail, pending, hasOrigins);
    ForgetView(c, pending, hasOrigins);
    assert forall d | d in c.byDelivery :: TargetListed(c, d) ==> TargetListed(c', d);
  }

  /** A row settles on the indexes as on the maps, and ships the same snapshots. */
  lemma SettleMaps(c: Core, mail: set<Record>, i: nat, link: bool)
    requires OnePrimary(mail) && NoChains(mail) && Fits(c, mail, i) && i < |c.records| && !c.records[i].subsumed
    requires if link then c.records[i].delivery != "" else LinkHeld(c, i)
    ensures var s := Settle(c, i, link);
      && KeyOf(c.records[i]) in View(c) && Fits(s.core, mail, |c.records|)
      && MapStep(MapsOf(s.core), s.snaps) == SettleMap(MapsOf(c), KeyOf(c.records[i]), link)
  {
    RowView(c, i);
    if link {
      RegisterMaps(c, mail, i);
      StillListed(c, i);
      ApplyPendingMaps(Register(c, i).core, mail, i);
    } else {
      ApplyPendingMaps(c, mail, i);
    }
  }

  lemma StillListed(c: Core, i: nat)
    requires InRange(c) && i < |c.records|
    ensures KeyOf(Register(c, i).core.records[i]) == KeyOf(c.records[i])
    ensures Register(c, i).core.records[i].subsumed == c.records[i].subsumed
  {
  }

  lemma AddOneMaps(c: Core, mail: set<Record>, r: Record)
    requires OnePrimary(mail) && NoChains(mail) && r in mail && Fits(c, mail, |c.records|)
    ensures LinksListed(MapsOf(c))
    ensures var s := AddOne(c, r);
      Fits(s.core, mail, |s.core.records|) && MapStep(MapsOf(s.core), s.snaps) == AddMap(MapsOf(c), r)
  {
    MapsListed(c);
    var noted := NoteOrigin(c, r.origin);
    ForgetMaps(c, mail, c.pending, noted.hasOrigins);
    if IsLeg(noted, KeyOf(r)) {
      FoldLegMaps(noted, mail, r);
    } else if IsKnown(noted, KeyOf(r)) {
      MergeKnownMaps(noted, mail, r);
    } else {
      AppendNewMaps(noted, mail, r);
    }
  }

  lemma MapsListed(c: Core)
    requires Coherent(c) && Indexed(c) && LinksVisible(c)
    ensures LinksListed(MapsOf(c))
  {
    forall d | d in c.byDelivery
      ensures LinkKeys(c)[d] in View(c)
    {
      assert TargetListed(c, d);
      RowView(c, c.byDelivery[d]);
    }
  }

  lemma FoldLegMaps(c: Core, mail: set<Record>, r: Record)
    requires Fits(c, mail, |c.records|) && IsLeg(c, KeyOf(r))
    ensures LinksListed(MapsOf(c)) && KeyOf(r) in LinkKeys(c)
    ensures var s, m := FoldLeg(c, r), MergeDeliveryLeg(View(c)[LinkKeys(c)[KeyOf(r)]], r);
      && Fits(s.core, mail, |s.core.records|) && s.snaps == [m]
      && MapsOf(s.core) == MapsOf(c).(view := View(c)[LinkKeys(c)[KeyOf(r)] := m])
  {
    MapsListed(c);
    FoldLegLinkage(c, mail, r);
    var p := c.byDelivery[KeyOf(r)];
    assert TargetListed(c, KeyOf(r));
    RowView(c, p);
    var merged := MergeDeliveryLeg(c.records[p], r);
    PutCoherent(c, p, merged);
    PutMaps(c, p, merged);
    PutLinks(c, p, merged);
    AliasCoherent(Put(c, p, merged), KeyOf(r));
    AliasMaps(Put(c, p, merged), KeyOf(r));
  }

  lemma MergeKnownMaps(c: Core, mail: set<Record>, r: Record)
    requires OnePrimary(mail) && NoChains(mail) && r in mail && Fits(c, mail, |c.records|)
    requires !IsLeg(c, KeyOf(r)) && IsKnown(c, KeyOf(r))
    ensures var key, s := KeyOf(r), MergeKnown(c, r);
      && key in View(c) && Fits(s.core, mail, |s.core.records|)
      && MapStep(MapsOf(s.core), s.snaps)
         == SettleMap(MapsOf(c).(view := View(c)[key := MergeRecord(View(c)[key], r)]), key, r.delivery != "")
  {
    var i := c.byQueueID[KeyOf(r)];
    assert AliasOk(c, KeyOf(r));
    RowView(c, i);
    var merged := MergeRecord(c.records[i], r);
    PutCoherent(c, i, merged);
    PutMaps(c, i, merged);
    PutLinks(c, i, merged);
    MergedLinkage(c, mail, i, r);
    SettleMaps(Put(c, i, merged), mail, i, r.delivery != "");
  }

  lemma MergedLinkage(c: Core, mail: set<Record>, i: nat, r: Record)
    requires r in mail && Indexed(c) && Linkage(c, mail, |c.records|) && i < |c.records| && KeyOf(c.records[i]) == KeyOf(r)
    ensures var c' := Put(c, i, MergeRecord(c.records[i], r));
      Indexed(c') && Linkage(c', mail, i) && (r.delivery == "" ==> LinkHeld(c', i))
  {
    var merged := MergeRecord(c.records[i], r);
    if c.records[i].delivery == "" {
      assert r.delivery != "" ==> Named(mail, KeyOf(merged), DeliveryKey(merged));
      PutNamed(c, mail, i, merged);
    } else {
      PutLinkage(c, mail, i, merged, |c.records|);
    }
  }

  lemma AppendNewMaps(c: Core, mail: set<Record>, r: Record)
    requires OnePrimary(mail) && NoChains(mail) && r in mail && Fits(c, mail, |c.records|)
    requires !IsLeg(c, KeyOf(r)) && !IsKnown(c, KeyOf(r))
    ensures var key, s := KeyOf(r), Settle(Append(c, r), |c.records|, r.delivery != "");
      && key !in View(c) && Fits(s.core, mail, |s.core.records|)
      && MapStep(MapsOf(s.core), s.snaps) == SettleMap(MapsOf(c).(view := View(c)[key := r]), key, r.delivery != "")
  {
    NewKeyIsNew(c, mail, KeyOf(r));
    assert r.delivery != "" ==> Named(mail, KeyOf(r), DeliveryKey(r));
    AppendLinkage(c, mail, r);
    AppendCoherent(c, r);
    AppendMaps(c, r);
    SettleMaps(Append(c, r), mail, |c.records|, r.delivery != "");
  }

  // ---- runs on maps ----

  /** Stores with the same maps list, link and flush the same for whatever mail arrives next. */
  lemma {:induction false} SameMapsSameFuture(c: Core, l: Core, mail: set<Record>, records: seq<Record>)
    requires OnePrimary(mail) && NoChains(mail) && forall r | r in records :: r in mail
    requires Fits(c, mail, |c.records|) && Fits(l, mail, |l.records|) && MapsOf(c) == MapsOf(l)
    ensures var s, t := Add(c, records), Add(l, records);
      && Fits(s.core, mail, |s.core.records|) && Fits(t.core, mail, |t.core.records|)
      && MapsOf(s.core) == MapsOf(t.core) && s.snaps == t.snaps
  {
    if records == [] {
    } else {
      var front, r := records[..|records| - 1], records[|records| - 1];
      SameMapsSameFuture(c, l, mail, front);
      assert r in records;
      AddOneMaps(Add(c, front).core, mail, r);
      AddOneMaps(Add(l, front).core, mail, r);
    }
  }

  lemma {:induction false} AddFits(c: Core, mail: set<Record>, records: seq<Record>)
    requires OnePrimary(mail) && NoChains(mail) && forall r | r in records :: r in mail
    requires Fits(c, mail, |c.records|)
    ensures var s := Add(c, records); Fits(s.core, mail, |s.core.records|)
  {
    SameMapsSameFuture(c, c, mail, records);
  }

  lemma ApplyVerdictFits(c: Core, mail: set<Record>, qid: string, v: RspamdVerdict)
    requires Fits(c, mail, |c.records|)
    ensures var s := ApplyVerdict(c, qid, v); Fits(s.core, mail, |s.core.records|)
  {
    ApplyVerdictLinkage(c, mail, qid, v);
    if VerdictMatches(c, qid) {
      PutLinks(c, c.byQueueID[Key("", qid)], Enrich(c.records[c.byQueueID[Key("", qid)]], v));
    } else {
      ForgetMaps(c, mail, c.pending[qid := v], c.hasOrigins);
    }
  }

  lemma {:induction false} RunFits(events: seq<Event>, mail: set<Record>)
    requires OnePrimary(mail) && NoChains(mail) && MailOf(events) <= mail
    ensures var c := Run(events).core; Fits(c, mail, |c.records|)
  {
    if events == [] {
    } else {
      MailOfParts(events);
      var front := events[..|events| - 1];
      RunFits(front, mail);
      match events[|events| - 1]
      case Mail(records) => AddFits(Run(front).core, mail, records);
      case Scanner(qid, v) => ApplyVerdictFits(Run(front).core, mail, qid, v);
    }
  }

  lemma {:induction false} LoadedIsPlain(rows: seq<Record>)
    ensures var l := Load(EMPTY, rows); l.pending == map[] && forall r | r in l.records :: !r.subsumed
  {
    if rows == [] {
    } else {
      LoadedIsPlain(rows[..|rows| - 1]);
    }
  }

  /** A loaded row sits where its key says; nothing else is there. */
  lemma LoadedAt(l: Core, rows: seq<Record>, i: nat)
    requires Loaded(l, rows) && I.AllListed(l) && i < |l.records| && !l.records[i].subsumed
    ensures var r := l.records[i];
      KeyOf(r) in l.byQueueID && l.byQueueID[KeyOf(r)] == i && r in rows && LoadedRow(l, r)
  {
    assert LoadedKey(l, KeyOf(l.records[i]), rows);
  }

  lemma LoadedListed(l: Core, rows: seq<Record>, i: nat)
    requires Loaded(l, rows) && I.AllListed(l) && CleanLinks(rows) && i < |l.records| && !l.records[i].subsumed
    ensures Listed(l, i)
  {
    LoadedAt(l, rows, i);
    var k := KeyOf(l.records[i]);
    if k in l.byDelivery {
      var j := l.byDelivery[k];
      assert LoadedLink(l, k, rows);
      LoadedAt(l, rows, j);
      var a :| 0 <= a < |rows| && rows[a] == l.records[j];
      var b :| 0 <= b < |rows| && rows[b] == l.records[i];
      assert a == b;
    }
  }

  lemma LoadedCoherent(l: Core, rows: seq<Record>)
    requires Loaded(l, rows) && I.AllListed(l) && CleanLinks(rows) && forall r | r in l.records :: !r.subsumed
    ensures Coherent(l) && Indexed(l) && Keyed(l)
  {
    forall i | 0 <= i < |l.records|
      ensures Listed(l, i)
    {
      assert l.records[i] in l.records;
      LoadedListed(l, rows, i);
    }
    forall k | k in l.byQueueID
      ensures l.byQueueID[k] < |l.records| && Resolves(l, k)
    {
      assert LoadedKey(l, k, rows);
      LoadedAt(l, rows, l.byQueueID[k]);
    }
    forall k | k in l.byDelivery
      ensures l.byDelivery[k] < |l.records| && l.records[l.byDelivery[k]].origin == k.origin
    {
      assert LoadedLink(l, k, rows);
    }
    forall i, j | 0 <= i < j < |l.records|
      ensures KeyOf(l.records[i]) != KeyOf(l.records[j])
    {
      assert Listed(l, i) && Listed(l, j);
    }
  }

  /** Every loaded row names what some mail record of its key named. */
  ghost predicate RowsNamed(rows: seq<Record>, mail: set<Record>) {
    forall r | r in rows && r.delivery != "" :: Named(mail, KeyOf(r), DeliveryKey(r))
  }

  lemma LoadedFits(l: Core, rows: seq<Record>, mail: set<Record>)
    requires Loaded(l, rows) && I.AllListed(l) && CleanLinks(rows) && RowsNamed(rows, mail)
    requires forall r | r in l.records :: !r.subsumed
    ensures Fits(l, mail, |l.records|)
  {
    LoadedCoherent(l, rows);
    forall j | 0 <= j < |l.records|
      ensures RowOk(l, mail, j) && LinkHeld(l, j)
    {
      assert l.records[j] in l.records;
      LoadedAt(l, rows, j);
    }
    forall k | k in l.byDelivery
      ensures LinkOk(l, k) && TargetListed(l, k)
    {
      assert LoadedLink(l, k, rows);
    }
    forall k | k in l.byQueueID
      ensures AliasOk(l, k)
    {
      assert LoadedKey(l, k, rows);
      LoadedAt(l, rows, l.byQueueID[k]);
    }
  }

  lemma StoredRowsNamed(c: Core, mail: set<Record>, db: map<Key, Record>, rows: seq<Record>)
    requires WellLinked(c, mail) && Mirrors(c, db) && Lists(rows, db)
    ensures RowsNamed(rows, mail)
  {
    forall r | r in rows && r.delivery != ""
      ensures Named(mail, KeyOf(r), DeliveryKey(r))
    {
      var i := RowIndex(c, db, r);
      assert RowOk(c, mail, i);
    }
  }

  lemma SameLinkKeys(c: Core, l: Core)
    requires Indexed(c) && Indexed(l) && LinksVisible(c) && LinksVisible(l)
    requires forall k :: Primary(l, k) == Primary(c, k)
    ensures LinkKeys(l) == LinkKeys(c)
  {
    forall k
      ensures k in l.byDelivery <==> k in c.byDelivery
      ensures k in l.byDelivery ==> KeyOf(l.records[l.byDelivery[k]]) == KeyOf(c.records[c.byDelivery[k]])
    {
      assert Primary(l, k) == Primary(c, k);
      assert k in c.byDelivery ==> TargetListed(c, k);
      assert k in l.byDelivery ==> TargetListed(l, k);
    }
  }

  /**
   A store reloaded from its database has the records and links of the store that wrote
   it, and all its maps exactly when no verdict was waiting, for those are not stored.
   */
  lemma ReloadKeepsMaps(events: seq<Event>, rows: seq<Record>, mail: set<Record>)
    requires OnePrimary(mail) && NoChains(mail) && MailOf(events) <= mail && Lists(rows, Stored(events))
    ensures var c, l := Run(events).core, Load(EMPTY, rows);
      && Fits(c, mail, |c.records|) && Fits(l, mail, |l.records|)
      && MapsOf(l) == MapsOf(c).(pending := map[])
      && (MapsOf(l) == MapsOf(c) <==> c.pending == map[])
  {
    var c, l := Run(events).core, Load(EMPTY, rows);
    RunFits(events, mail);
    OnePrimaryWelcomed(EMPTY, events, mail);
    RunMirrors(events);
    WellLinkedIsTrue(c, mail);
    StoredLinksClean(c, Stored(events), rows);
    StoredRowsNamed(c, mail, Stored(events), rows);
    LoadKeepsAll(rows);
    I.LoadListsAll(rows);
    LoadedIsPlain(rows);
    LoadedFits(l, rows, mail);
    SameMaps(c, mail, Stored(events), rows, l);
  }

  lemma SameMaps(c: Core, mail: set<Record>, db: map<Key, Record>, rows: seq<Record>, l: Core)
    requires WellLinked(c, mail) && Mirrors(c, db) && Lists(rows, db) && Loaded(l, rows)
    requires Indexed(l) && LinksVisible(c) && LinksVisible(l)
    ensures View(l) == View(c) && LinkKeys(l) == LinkKeys(c)
  {
    WellLinkedIsTrue(c, mail);
    SameView(c, db, rows, l);
    forall k ensures Primary(l, k) == Primary(c, k) {
      SamePrimaries(c, db, rows, l, k);
    }
    SameLinkKeys(c, l);
  }

  lemma PrimaryFromMaps(c: Core, k: Key)
    requires Coherent(c) && Indexed(c) && LinksVisible(c)
    ensures Primary(c, k) == if k in LinkKeys(c) && LinkKeys(c)[k] in View(c) then Some(View(c)[LinkKeys(c)[k]]) else None
  {
    if k in c.byDelivery {
      assert TargetListed(c, k);
      RowView(c, c.byDelivery[k]);
    }
  }
}
