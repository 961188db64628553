/**
 Restart transparency: what the running store and the one reloaded from its database do
 with everything that arrives later. They differ in two things. An onward id whose leg has
 not arrived leads to its primary in the reloaded store, so a scanner verdict for that id
 waits in the one and is applied in the other. And verdicts waiting at the restart are lost,
 so a record that one of them was waiting for stays without it.
 */
module Lookups {
  import opened Text
  import opened Records
  import opened Timeline
  import opened Rspamd
  import opened StoreSpec
  import opened Coherence
  import opened Links
  import opened Restart
  import opened Refinement

  /** Every id that resolves leads to a listed row. */
  ghost predicate Targets(c: Core) {
    forall k | k in c.byQueueID :: c.byQueueID[k] < |c.records| && !c.records[c.byQueueID[k]].subsumed
  }

  // ---- mail ----

  lemma SettleResolves(c: Core, i: nat, link: bool)
    requires InRange(c) && i < |c.records|
    ensures Settle(c, i, link).core.byQueueID.Keys == c.byQueueID.Keys
  {
    if link {
      var d, ids := DeliveryKey(c.records[i]), Register(c, i).core.byQueueID;
      assert ids == c.byQueueID || (d in c.byQueueID && ids == c.byQueueID[d := i]);
      KeysStay(c.byQueueID, d, i);
    }
  }

  lemma KeysStay(m: map<Key, nat>, k: Key, n: nat)
    ensures k in m ==> m[k := n].Keys == m.Keys
  {
  }

  /** A record adds its own id to those that resolve, and no other. */
  lemma AddOneResolves(c: Core, r: Record)
    requires InRange(c)
    ensures AddOne(c, r).core.byQueueID.Keys == c.byQueueID.Keys + {KeyOf(r)}
  {
    var noted := NoteOrigin(c, r.origin);
    if IsLeg(noted, KeyOf(r)) {
    } else if IsKnown(noted, KeyOf(r)) {
      KnownResolves(noted, r);
    } else {
      SettleResolves(Append(noted, r), |c.records|, r.delivery != "");
    }
  }

  lemma KnownResolves(c: Core, r: Record)
    requires InRange(c) && IsKnown(c, KeyOf(r))
    ensures MergeKnown(c, r).core.byQueueID.Keys == c.byQueueID.Keys + {KeyOf(r)}
  {
    var i := c.byQueueID[KeyOf(r)];
    SettleResolves(Put(c, i, MergeRecord(c.records[i], r)), i, r.delivery != "");
  }

  /** Nothing but its own id leads to a leg that is about to be folded. */
  lemma OnlyOwnId(c: Core, mail: set<Record>, i: nat, o: nat)
    requires NoChains(mail) && Fits(c, mail, i) && i < |c.records| && o < |c.records|
    requires c.records[i].delivery != "" && KeyOf(c.records[o]) == DeliveryKey(c.records[i])
    ensures forall k | k in c.byQueueID && k != DeliveryKey(c.records[i]) :: c.byQueueID[k] != o
  {
    NoLinkToLeg(c, mail, i, o);
    forall k | k in c.byQueueID && k != DeliveryKey(c.records[i])
      ensures c.byQueueID[k] != o
    {
      assert AliasOk(c, k);
    }
  }

  lemma RegisterTargets(c: Core, mail: set<Record>, i: nat)
    requires OnePrimary(mail) && NoChains(mail) && Fits(c, mail, i) && Targets(c)
    requires i < |c.records| && !c.records[i].subsumed && c.records[i].delivery != ""
    ensures Targets(Register(c, i).core)
  {
    var d := DeliveryKey(c.records[i]);
    if LinkHeld(c, i) {
      HeldRegistersQuietly(c, mail, i);
    } else if d in c.byQueueID && c.byQueueID[d] != i {
      UnlinkedIsFree(c, mail, i);
      assert AliasOk(c, d);
      OnlyOwnId(c, mail, i, c.byQueueID[d]);
      FoldTargets(c, i);
    }
  }

  lemma FoldTargets(c: Core, i: nat)
    requires Targets(c) && i < |c.records| && !c.records[i].subsumed
    requires var d := DeliveryKey(c.records[i]);
      d in c.byQueueID && c.byQueueID[d] != i && forall k | k in c.byQueueID && k != d :: c.byQueueID[k] != c.byQueueID[d]
    ensures Targets(Register(c, i).core)
  {
  }

  lemma SettleTargets(c: Core, mail: set<Record>, i: nat, link: bool)
    requires OnePrimary(mail) && NoChains(mail) && Fits(c, mail, i) && Targets(c)
    requires i < |c.records| && !c.records[i].subsumed && (link ==> c.records[i].delivery != "")
    ensures Targets(Settle(c, i, link).core)
  {
    if link {
      RegisterTargets(c, mail, i);
    }
  }

  lemma MergeKnownTargets(c: Core, mail: set<Record>, r: Record)
    requires OnePrimary(mail) && NoChains(mail) && r in mail && Fits(c, mail, |c.records|) && Targets(c)
    requires !IsLeg(c, KeyOf(r)) && IsKnown(c, KeyOf(r))
    ensures Targets(MergeKnown(c, r).core)
  {
    var i := c.byQueueID[KeyOf(r)];
    assert AliasOk(c, KeyOf(r));
    var merged := MergeRecord(c.records[i], r);
    PutCoherent(c, i, merged);
    PutLinks(c, i, merged);
    MergedLinkage(c, mail, i, r);
    SettleTargets(Put(c, i, merged), mail, i, r.delivery != "");
  }

  lemma AppendFits(c: Core, mail: set<Record>, r: Record)
    requires OnePrimary(mail) && r in mail && Fits(c, mail, |c.records|) && Targets(c)
    requires !IsLeg(c, KeyOf(r)) && !IsKnown(c, KeyOf(r))
    ensures Fits(Append(c, r), mail, |c.records|) && Targets(Append(c, r))
  {
    NewKeyIsNew(c, mail, KeyOf(r));
    assert r.delivery != "" ==> Named(mail, KeyOf(r), DeliveryKey(r));
    AppendLinkage(c, mail, r);
    AppendCoherent(c, r);
    AppendMaps(c, r);
  }

  lemma LegTargets(c: Core, r: Record)
    requires Indexed(c) && LinksVisible(c) && Targets(c) && IsLeg(c, KeyOf(r))
    ensures Targets(FoldLeg(c, r).core)
  {
    assert TargetListed(c, KeyOf(r));
  }

  lemma NotedTargets(c: Core, mail: set<Record>, r: Record)
    requires OnePrimary(mail) && NoChains(mail) && r in mail && Fits(c, mail, |c.records|) && Targets(c)
    requires NoteOrigin(c, r.origin) == c
    ensures Targets(AddOne(c, r).core)
  {
    if IsLeg(c, KeyOf(r)) {
      LegTargets(c, r);
    } else if IsKnown(c, KeyOf(r)) {
      MergeKnownTargets(c, mail, r);
    } else {
      AppendFits(c, mail, r);
      SettleTargets(Append(c, r), mail, |c.records|, r.delivery != "");
    }
  }

  lemma AddOneTargets(c: Core, mail: set<Record>, r: Record)
    requires OnePrimary(mail) && NoChains(mail) && r in mail && Fits(c, mail, |c.records|) && Targets(c)
    ensures Targets(AddOne(c, r).core)
  {
    var noted := NoteOrigin(c, r.origin);
    ForgetMaps(c, mail, c.pending, noted.hasOrigins);
    NotedTargets(noted, mail, r);
    assert AddOne(noted, r) == AddOne(c, r);
  }

  // ---- verdicts ----

  /** What a verdict does to the maps of a store, given whether its id resolves there. */
  function VerdictMap(m: Maps, resolves: bool, qid: string, v: RspamdVerdict): MapStep
    requires var k := Key("", qid); resolves ==> k in m.view || (k in m.links && m.links[k] in m.view)
  {
    var k := Key("", qid);
    if !resolves then MapStep(m.(pending := m.pending[qid := v]), [])
    else
      var key := if k in m.view then k else m.links[k];
      var enriched := Enrich(m.view[key], v);
      MapStep(m.(view := m.view[key := enriched]), [enriched])
  }

  lemma ResolvesInMaps(c: Core, mail: set<Record>, k: Key)
    requires Fits(c, mail, |c.records|) && Targets(c) && k in c.byQueueID
    ensures var r := c.records[c.byQueueID[k]];
      && (k in View(c) || (k in LinkKeys(c) && LinkKeys(c)[k] in View(c)))
      && KeyOf(r) == (if k in View(c) then k else LinkKeys(c)[k]) && View(c)[KeyOf(r)] == r
  {
    assert AliasOk(c, k);
    RowView(c, c.byQueueID[k]);
  }

  lemma VerdictOnMaps(c: Core, mail: set<Record>, qid: string, v: RspamdVerdict)
    requires Fits(c, mail, |c.records|) && Targets(c)
    ensures var k := Key("", qid); k in c.byQueueID ==> k in View(c) || (k in LinkKeys(c) && LinkKeys(c)[k] in View(c))
    ensures var s := ApplyVerdict(c, qid, v);
      && Fits(s.core, mail, |s.core.records|) && Targets(s.core) && s.core.byQueueID == c.byQueueID
      && MapStep(MapsOf(s.core), s.snaps) == VerdictMap(MapsOf(c), Key("", qid) in c.byQueueID, qid, v)
  {
    ApplyVerdictFits(c, mail, qid, v);
    if Key("", qid) in c.byQueueID {
      VerdictApplies(c, mail, qid, v);
    } else {
      ForgetMaps(c, mail, c.pending[qid := v], c.hasOrigins);
    }
  }

  lemma VerdictApplies(c: Core, mail: set<Record>, qid: string, v: RspamdVerdict)
    requires Fits(c, mail, |c.records|) && Targets(c) && Key("", qid) in c.byQueueID
    ensures var k := Key("", qid); k in View(c) || (k in LinkKeys(c) && LinkKeys(c)[k] in View(c))
    ensures var s := ApplyVerdict(c, qid, v);
      Indexed(s.core) && Targets(s.core) && MapStep(MapsOf(s.core), s.snaps) == VerdictMap(MapsOf(c), true, qid, v)
  {
    var i := c.byQueueID[Key("", qid)];
    ResolvesInMaps(c, mail, Key("", qid));
    RowView(c, i);
    PutMaps(c, i, Enrich(c.records[i], v));
    PutTargets(c, i, Enrich(c.records[i], v));
    assert ApplyVerdict(c, qid, v) == Step(Put(c, i, Enrich(c.records[i], v)), [Enrich(c.records[i], v)]);
  }

  lemma PutTargets(c: Core, i: nat, r: Record)
    requires Targets(c) && i < |c.records| && !r.subsumed
    ensures Targets(Put(c, i, r))
  {
  }

  // ---- what a waiting verdict changes ----

  lemma AddOneShips(c: Core, r: Record)
    requires InRange(c)
    ensures AddOne(c, r).snaps != []
  {
  }

  /** The row as it would be flushed if no verdict were waiting. */
  function Unjudged(c: Core, r: Record): Record
    requires InRange(c)
  {
    AddOneShips(c.(pending := map[]), r);
    var snaps := AddOne(c.(pending := map[]), r).snaps;
    snaps[|snaps| - 1]
  }

  /** Adding a record is the same without the lost verdicts: none was for its row, or that one leaves the row as it is. */
  predicate Harmless(c: Core, lost: set<string>, r: Record)
    requires InRange(c)
  {
    || IsLeg(c, KeyOf(r)) || r.qid !in lost || r.qid !in c.pending
    || Enrich(Unjudged(c, r), c.pending[r.qid]) == Unjudged(c, r)
  }

  /** A verdict is used up by the record it was waiting for; legs use up none. */
  function LostAfter(c: Core, lost: set<string>, r: Record): set<string> {
    if IsLeg(c, KeyOf(r)) then lost else lost - {r.qid}
  }

  /** What AddMap does with a record that is not a leg before it looks for a waiting verdict. */
  function Registered(m: Maps, r: Record): (s: MapStep)
    ensures KeyOf(r) in s.maps.view
  {
    var key := KeyOf(r);
    var base := m.(view := m.view[key := if key in m.view then MergeRecord(m.view[key], r) else r]);
    if r.delivery != "" then RegisterMap(base, key) else MapStep(base, [])
  }

  /** The row such a record leads to. */
  function RowMap(m: Maps, r: Record): Record {
    Registered(m, r).maps.view[KeyOf(r)]
  }

  ghost predicate WellKeyed(m: Maps) {
    forall k | k in m.view :: KeyOf(m.view[k]) == k
  }

  /** Two stores with the same records and links, one without the lost verdicts. */
  ghost predicate Without(m: Maps, n: Maps, lost: set<string>) {
    n.view == m.view && n.links == m.links && lost <= m.pending.Keys && n.pending == m.pending - lost
  }

  lemma RowMapKeyed(m: Maps, r: Record)
    requires WellKeyed(m)
    ensures KeyOf(RowMap(m, r)) == KeyOf(r)
  {
  }

  lemma AddMapSettles(m: Maps, r: Record)
    requires LinksListed(m) && KeyOf(r) !in m.links
    ensures var reg, key := Registered(m, r), KeyOf(r);
      AddMap(m, r) == MapStep(PendingMap(reg.maps, key), reg.snaps + [PendingMap(reg.maps, key).view[key]])
  {
  }

  /** Up to that point the waiting verdicts play no role. */
  lemma RegisteredReads(m: Maps, n: Maps, r: Record)
    requires n == m.(pending := n.pending)
    ensures var reg := Registered(m, r);
      Registered(n, r) == reg.(maps := reg.maps.(pending := n.pending)) && reg.maps.pending == m.pending
  {
    var key := KeyOf(r);
    if r.delivery != "" {
      RegisterReads(m.(view := m.view[key := if key in m.view then MergeRecord(m.view[key], r) else r]), n.pending, key);
    }
  }

  lemma RegisterReads(m: Maps, pending: map<string, RspamdVerdict>, key: Key)
    requires key in m.view
    ensures var reg := RegisterMap(m, key);
      RegisterMap(m.(pending := pending), key) == reg.(maps := reg.maps.(pending := pending)) && reg.maps.pending == m.pending
  {
  }

  /** With and without the lost verdicts: the same row exactly when none was for it, or that one leaves it as it is. */
  lemma PendingWithout(p: Maps, q: Maps, lost: set<string>, key: Key)
    requires Without(p, q, lost) && key in p.view && p.view[key].qid == key.qid
    ensures var a, b, row := PendingMap(p, key), PendingMap(q, key), p.view[key];
      var harmless := key.qid in lost ==> Enrich(row, p.pending[key.qid]) == row;
      && (a.view[key] == b.view[key] <==> harmless)
      && (harmless ==> Without(a, b, lost - {key.qid}))
  {
    var v := p.view;
    assert v[key := v[key]] == v;
  }

  lemma MissingVerdict(m: Maps, n: Maps, lost: set<string>, r: Record)
    requires LinksListed(m) && WellKeyed(m) && Without(m, n, lost) && KeyOf(r) !in m.links
    ensures var a, b, row := AddMap(m, r), AddMap(n, r), RowMap(m, r);
      var harmless := r.qid in lost ==> Enrich(row, m.pending[r.qid]) == row;
      && |a.snaps| == |b.snaps| && (a.snaps == b.snaps <==> harmless)
      && (harmless ==> Without(a.maps, b.maps, lost - {r.qid}))
  {
    RowMapKeyed(m, r);
    AddMapSettles(m, r);
    AddMapSettles(n, r);
    RegisteredReads(m, n, r);
    var reg := Registered(m, r);
    var p, q := reg.maps, reg.maps.(pending := n.pending);
    PendingWithout(p, q, lost, KeyOf(r));
    SameLast(reg.snaps, PendingMap(p, KeyOf(r)).view[KeyOf(r)], PendingMap(q, KeyOf(r)).view[KeyOf(r)]);
  }

  lemma SameLast(a: seq<Record>, x: Record, y: Record)
    ensures a + [x] == a + [y] <==> x == y
  {
    assert (a + [x])[|a|] == x && (a + [y])[|a|] == y;
  }

  lemma LegNeedsNoVerdict(m: Maps, n: Maps, lost: set<string>, r: Record)
    requires LinksListed(m) && Without(m, n, lost) && KeyOf(r) in m.links
    ensures AddMap(m, r).snaps == AddMap(n, r).snaps && Without(AddMap(m, r).maps, AddMap(n, r).maps, lost)
  {
  }

  // ---- two stores side by side ----

  /**
   A running store and a reloaded one: the same records and links. Ids resolve alike, except
   that those linked before the restart resolve in the reloaded one; and the same verdicts
   wait, except that the lost ones do not wait in the reloaded one.
   */
  ghost predicate Twins(c: Core, l: Core, mail: set<Record>, linked: set<Key>, lost: set<string>) {
    && Fits(c, mail, |c.records|) && Fits(l, mail, |l.records|) && Targets(c) && Targets(l)
    && Without(MapsOf(c), MapsOf(l), lost)
    && forall k :: k in l.byQueueID <==> k in c.byQueueID || k in linked
  }

  lemma MapsKeyed(c: Core)
    requires Indexed(c)
    ensures WellKeyed(MapsOf(c))
  {
  }

  lemma FitsWithMaps(c: Core, mail: set<Record>, r: Record)
    requires OnePrimary(mail) && NoChains(mail) && r in mail && Fits(c, mail, |c.records|) && Targets(c)
    ensures LinksListed(MapsOf(c))
    ensures var s := AddOne(c, r);
      && Fits(s.core, mail, |s.core.records|) && Targets(s.core) && (forall k :: k in s.core.byQueueID <==> k in c.byQueueID || k == KeyOf(r))
      && MapStep(MapsOf(s.core), s.snaps) == AddMap(MapsOf(c), r)
  {
    AddOneMaps(c, mail, r);
    AddOneTargets(c, mail, r);
    AddOneResolves(c, r);
    assert forall k :: k in AddOne(c, r).core.byQueueID <==> k in AddOne(c, r).core.byQueueID.Keys;
  }

  lemma UnjudgedIsRowMap(c: Core, mail: set<Record>, r: Record)
    requires OnePrimary(mail) && NoChains(mail) && r in mail && Fits(c, mail, |c.records|) && !IsLeg(c, KeyOf(r))
    ensures Unjudged(c, r) == RowMap(MapsOf(c), r)
  {
    var quiet := c.(pending := map[]);
    ForgetMaps(c, mail, map[], c.hasOrigins);
    assert quiet == c.(pending := map[], hasOrigins := c.hasOrigins);
    AddOneMaps(quiet, mail, r);
    QuietLast(MapsOf(c), MapsOf(quiet), r);
  }

  lemma QuietLast(m: Maps, n: Maps, r: Record)
    requires n == m.(pending := map[]) && LinksListed(n) && KeyOf(r) !in n.links
    ensures var snaps := AddMap(n, r).snaps; snaps != [] && snaps[|snaps| - 1] == RowMap(m, r)
  {
    AddMapSettles(n, r);
    RegisteredReads(m, n, r);
  }

  /** One record more: both stores do and flush the same exactly when it is harmless. */
  lemma AddOneTwins(c: Core, l: Core, mail: set<Record>, linked: set<Key>, lost: set<string>, r: Record)
    requires OnePrimary(mail) && NoChains(mail) && r in mail && Twins(c, l, mail, linked, lost)
    ensures |AddOne(c, r).snaps| == |AddOne(l, r).snaps|
    ensures AddOne(c, r).snaps == AddOne(l, r).snaps <==> Harmless(c, lost, r)
    ensures Harmless(c, lost, r) ==> Twins(AddOne(c, r).core, AddOne(l, r).core, mail, linked, LostAfter(c, lost, r))
  {
    FitsWithMaps(c, mail, r);
    FitsWithMaps(l, mail, r);
    MapsKeyed(c);
    var m, n := MapsOf(c), MapsOf(l);
    if IsLeg(c, KeyOf(r)) {
      LegNeedsNoVerdict(m, n, lost, r);
    } else {
      UnjudgedIsRowMap(c, mail, r);
      MissingVerdict(m, n, lost, r);
    }
    if Harmless(c, lost, r) {
      MakeTwins(AddOne(c, r), AddOne(l, r), mail, linked, LostAfter(c, lost, r));
    }
  }

  lemma MakeTwins(s: Step, t: Step, mail: set<Record>, linked: set<Key>, lost: set<string>)
    requires Fits(s.core, mail, |s.core.records|) && Targets(s.core)
    requires Fits(t.core, mail, |t.core.records|) && Targets(t.core)
    requires Without(MapsOf(s.core), MapsOf(t.core), lost)
    requires forall k :: k in t.core.byQueueID <==> k in s.core.byQueueID || k in linked
    ensures Twins(s.core, t.core, mail, linked, lost)
  {
  }

  ghost predicate AllHarmless(c: Core, lost: set<string>, records: seq<Record>)
    requires InRange(c)
  {
    records != [] ==>
      var front := records[..|records| - 1];
      AllHarmless(c, lost, front) && Harmless(Add(c, front).core, LostBy(c, lost, front), records[|records| - 1])
  }

  function LostBy(c: Core, lost: set<string>, records: seq<Record>): set<string>
    requires InRange(c)
  {
    if records == [] then lost
    else
      var front := records[..|records| - 1];
      LostAfter(Add(c, front).core, LostBy(c, lost, front), records[|records| - 1])
  }

  /** Different at some place, however either goes on. */
  ghost predicate Differ(a: seq<Record>, b: seq<Record>) {
    exists i :: 0 <= i < |a| && i < |b| && a[i] != b[i]
  }

  lemma DifferOn(a: seq<Record>, b: seq<Record>, x: seq<Record>, y: seq<Record>)
    requires Differ(a, b) || (a == b && x != y && |x| == |y|)
    ensures Differ(a + x, b + y)
  {
    if Differ(a, b) {
      var i :| 0 <= i < |a| && i < |b| && a[i] != b[i];
      assert (a + x)[i] != (b + y)[i];
    } else {
      var i :| 0 <= i < |x| && x[i] != y[i];
      assert (a + x)[|a| + i] != (b + y)[|a| + i];
    }
  }

  lemma {:induction false} AddTwins(c: Core, l: Core, mail: set<Record>, linked: set<Key>, lost: set<string>, records: seq<Record>)
    requires OnePrimary(mail) && NoChains(mail) && (forall r | r in records :: r in mail) && Twins(c, l, mail, linked, lost)
    ensures var s, t := Add(c, records), Add(l, records);
      if AllHarmless(c, lost, records) then s.snaps == t.snaps && Twins(s.core, t.core, mail, linked, LostBy(c, lost, records))
      else Differ(s.snaps, t.snaps)
  {
    if records == [] {
    } else {
      var front, r := records[..|records| - 1], records[|records| - 1];
      AddTwins(c, l, mail, linked, lost, front);
      var f, g := Add(c, front), Add(l, front);
      if AllHarmless(c, lost, front) {
        AddOneTwins(f.core, g.core, mail, linked, LostBy(c, lost, front), r);
      }
      if !AllHarmless(c, lost, records) {
        DifferOn(f.snaps, g.snaps, AddOne(f.core, r).snaps, AddOne(g.core, r).snaps);
      }
    }
  }

  /**
   Mail none of which lacks a lost verdict; or a verdict that is not for an id that was
   linked before the restart and has not been seen as a record since it was named.
   */
  ghost predicate Unaffected(c: Core, linked: set<Key>, lost: set<string>, e: Event)
    requires InRange(c)
  {
    match e
    case Mail(records) => AllHarmless(c, lost, records)
    case Scanner(qid, _) => Key("", qid) in c.byQueueID || Key("", qid) !in linked
  }

  /** A verdict that waits replaces one that was lost. */
  function LostByEvent(c: Core, lost: set<string>, e: Event): set<string>
    requires InRange(c)
  {
    match e
    case Mail(records) => LostBy(c, lost, records)
    case Scanner(qid, _) => if Key("", qid) in c.byQueueID then lost else lost - {qid}
  }

  lemma VerdictTwins(c: Core, l: Core, mail: set<Record>, linked: set<Key>, lost: set<string>, qid: string, v: RspamdVerdict)
    requires Twins(c, l, mail, linked, lost)
    ensures var e, s, t := Scanner(qid, v), ApplyVerdict(c, qid, v), ApplyVerdict(l, qid, v);
      && (s.snaps == t.snaps <==> Unaffected(c, linked, lost, e))
      && (Unaffected(c, linked, lost, e) ==> Twins(s.core, t.core, mail, linked, LostByEvent(c, lost, e)))
  {
    VerdictOnMaps(c, mail, qid, v);
    VerdictOnMaps(l, mail, qid, v);
    var k := Key("", qid);
    if k in c.byQueueID {
      MakeTwins(ApplyVerdict(c, qid, v), ApplyVerdict(l, qid, v), mail, linked, lost);
    } else if k !in linked {
      WaitingReplaces(MapsOf(c), MapsOf(l), lost, qid, v);
      MakeTwins(ApplyVerdict(c, qid, v), ApplyVerdict(l, qid, v), mail, linked, lost - {qid});
    }
  }

  lemma WaitingReplaces(m: Maps, n: Maps, lost: set<string>, qid: string, v: RspamdVerdict)
    requires Without(m, n, lost)
    ensures Without(m.(pending := m.pending[qid := v]), n.(pending := n.pending[qid := v]), lost - {qid})
  {
  }

  /** One event more: both stores do and flush the same exactly when it is such an event. */
  lemma EventTwins(c: Core, l: Core, mail: set<Record>, linked: set<Key>, lost: set<string>, e: Event)
    requires OnePrimary(mail) && NoChains(mail) && MailOf([e]) <= mail && Twins(c, l, mail, linked, lost)
    ensures Apply(c, e).snaps == Apply(l, e).snaps <==> Unaffected(c, linked, lost, e)
    ensures Unaffected(c, linked, lost, e) ==>
      Twins(Apply(c, e).core, Apply(l, e).core, mail, linked, LostByEvent(c, lost, e))
  {
    match e
    case Mail(records) =>
      MailOfParts([e]);
      AddTwins(c, l, mail, linked, lost, records);
    case Scanner(qid, v) => VerdictTwins(c, l, mail, linked, lost, qid, v);
  }

  // ---- restart transparency ----

  ghost predicate AllUnaffected(c: Core, linked: set<Key>, lost: set<string>, events: seq<Event>)
    requires InRange(c)
  {
    events != [] ==>
      var front := events[..|events| - 1];
      && AllUnaffected(c, linked, lost, front)
      && Unaffected(RunFrom(c, front).core, linked, LostByRun(c, lost, front), events[|events| - 1])
  }

  function LostByRun(c: Core, lost: set<string>, events: seq<Event>): set<string>
    requires InRange(c)
  {
    if events == [] then lost
    else
      var front := events[..|events| - 1];
      LostByEvent(RunFrom(c, front).core, LostByRun(c, lost, front), events[|events| - 1])
  }

  /** Both stores list and link the same and have flushed the same. */
  ghost predicate Alike(s: Step, t: Step) {
    View(s.core) == View(t.core) && s.snaps == t.snaps && forall k :: Primary(s.core, k) == Primary(t.core, k)
  }

  /** ...after each of the events. */
  ghost predicate AlikeAllAlong(c: Core, l: Core, events: seq<Event>)
    requires InRange(c) && InRange(l)
  {
    Alike(RunFrom(c, events), RunFrom(l, events)) && (events != [] ==> AlikeAllAlong(c, l, events[..|events| - 1]))
  }

  lemma TwinsAlike(c: Core, l: Core, mail: set<Record>, linked: set<Key>, lost: set<string>, snaps: seq<Record>)
    requires Twins(c, l, mail, linked, lost)
    ensures Alike(Step(c, snaps), Step(l, snaps))
  {
    forall k ensures Primary(c, k) == Primary(l, k) {
      PrimaryFromMaps(c, k);
      PrimaryFromMaps(l, k);
    }
  }

  lemma NextTwinsAlike(
      f: Step, g: Step, mail: set<Record>, linked: set<Key>, lost: set<string>, e: Event)
    requires OnePrimary(mail) && NoChains(mail) && MailOf([e]) <= mail && Twins(f.core, g.core, mail, linked, lost)
    requires f.snaps == g.snaps
    ensures var s, t := Apply(f.core, e), Apply(g.core, e);
      && (Alike(Step(s.core, f.snaps + s.snaps), Step(t.core, g.snaps + t.snaps)) <==> Unaffected(f.core, linked, lost, e))
      && (Unaffected(f.core, linked, lost, e) ==> Twins(s.core, t.core, mail, linked, LostByEvent(f.core, lost, e)))
  {
    EventTwins(f.core, g.core, mail, linked, lost, e);
    var s, t := Apply(f.core, e), Apply(g.core, e);
    if Unaffected(f.core, linked, lost, e) {
      TwinsAlike(s.core, t.core, mail, linked, LostByEvent(f.core, lost, e), f.snaps + s.snaps);
    } else {
      SameFront(f.snaps, s.snaps, t.snaps);
    }
  }

  lemma SameFront(a: seq<Record>, x: seq<Record>, y: seq<Record>)
    ensures a + x == a + y <==> x == y
  {
    assert (a + x)[|a|..] == x && (a + y)[|a|..] == y;
  }

  lemma {:induction false} TwinsStayAlike(
      c: Core, l: Core, mail: set<Record>, linked: set<Key>, lost: set<string>, events: seq<Event>)
    requires OnePrimary(mail) && NoChains(mail) && MailOf(events) <= mail && Twins(c, l, mail, linked, lost)
    ensures AlikeAllAlong(c, l, events) <==> AllUnaffected(c, linked, lost, events)
    ensures AllUnaffected(c, linked, lost, events) ==>
      Twins(RunFrom(c, events).core, RunFrom(l, events).core, mail, linked, LostByRun(c, lost, events))
  {
    if events == [] {
      TwinsAlike(c, l, mail, linked, lost, []);
    } else {
      var front, e := events[..|events| - 1], events[|events| - 1];
      MailOfParts(events);
      MailOfParts([e]);
      TwinsStayAlike(c, l, mail, linked, lost, front);
      if AllUnaffected(c, linked, lost, front) {
        NextTwinsAlike(RunFrom(c, front), RunFrom(l, front), mail, linked, LostByRun(c, lost, front), e);
      }
    }
  }

  lemma {:induction false} RunTargets(events: seq<Event>, mail: set<Record>)
    requires OnePrimary(mail) && NoChains(mail) && MailOf(events) <= mail
    ensures Fits(Run(events).core, mail, |Run(events).core.records|) && Targets(Run(events).core)
  {
    RunFits([], mail);
    TwinsStayAlike(EMPTY, EMPTY, mail, {}, {}, events);
    NothingLinked(EMPTY, events);
  }

  lemma {:induction false} NothingLinked(c: Core, events: seq<Event>)
    requires InRange(c)
    ensures AllUnaffected(c, {}, {}, events) && LostByRun(c, {}, events) == {}
  {
    if events == [] {
    } else {
      NothingLinked(c, events[..|events| - 1]);
      NothingLost(RunFrom(c, events[..|events| - 1]).core, events[|events| - 1]);
    }
  }

  lemma NothingLost(c: Core, e: Event)
    requires InRange(c)
    ensures Unaffected(c, {}, {}, e) && LostByEvent(c, {}, e) == {}
  {
    if e.Mail? {
      NoneLost(c, e.records);
    }
  }

  lemma {:induction false} NoneLost(c: Core, records: seq<Record>)
    requires InRange(c)
    ensures AllHarmless(c, {}, records) && LostBy(c, {}, records) == {}
  {
    if records == [] {
    } else {
      NoneLost(c, records[..|records| - 1]);
    }
  }

  lemma LoadedTargets(l: Core, rows: seq<Record>)
    requires Loaded(l, rows)
    ensures Targets(l)
  {
    forall k | k in l.byQueueID
      ensures l.byQueueID[k] < |l.records| && !l.records[l.byQueueID[k]].subsumed
    {
      assert LoadedKey(l, k, rows);
    }
  }

  /** What resolves after the reload: what resolved before, and every linked onward id. */
  lemma ReloadResolves(c: Core, mail: set<Record>, db: map<Key, Record>, rows: seq<Record>, l: Core)
    requires WellLinked(c, mail) && Targets(c) && LinksVisible(c) && Mirrors(c, db) && Lists(rows, db) && Loaded(l, rows)
    ensures forall k :: k in l.byQueueID <==> k in c.byQueueID || k in c.byDelivery.Keys
  {
    forall k
      ensures k in l.byQueueID <==> k in c.byQueueID || k in c.byDelivery.Keys
    {
      IdResolves(c, mail, db, rows, l, k);
    }
  }

  lemma IdResolves(c: Core, mail: set<Record>, db: map<Key, Record>, rows: seq<Record>, l: Core, k: Key)
    requires WellLinked(c, mail) && Targets(c) && LinksVisible(c) && Mirrors(c, db) && Lists(rows, db) && Loaded(l, rows)
    ensures k in l.byQueueID <==> k in c.byQueueID || k in c.byDelivery
  {
    LoadedTargets(l, rows);
    SameLookups(c, mail, db, rows, l, k);
    TargetsLookUp(c, k);
    TargetsLookUp(l, k);
    LinksLookUp(c, k);
  }

  lemma LinksLookUp(c: Core, k: Key)
    requires Indexed(c) && LinksVisible(c)
    ensures Primary(c, k).Some? <==> k in c.byDelivery
  {
    assert k in c.byDelivery ==> TargetListed(c, k);
  }

  lemma TargetsLookUp(c: Core, k: Key)
    requires Targets(c)
    ensures Lookup(c, k).Some? <==> k in c.byQueueID
  {
  }

  lemma ReloadIsTwin(events: seq<Event>, rows: seq<Record>, mail: set<Record>)
    requires OnePrimary(mail) && NoChains(mail) && MailOf(events) <= mail && Lists(rows, Stored(events))
    ensures var c := Run(events).core; Twins(c, Load(EMPTY, rows), mail, c.byDelivery.Keys, c.pending.Keys)
  {
    var c := Run(events).core;
    RunTargets(events, mail);
    ReloadKeepsMaps(events, rows, mail);
    OnePrimaryWelcomed(EMPTY, events, mail);
    RunMirrors(events);
    WellLinkedIsTrue(c, mail);
    StoredLinksClean(c, Stored(events), rows);
    LoadKeepsAll(rows);
    LoadedTargets(Load(EMPTY, rows), rows);
    ReloadResolves(c, mail, Stored(events), rows, Load(EMPTY, rows));
    MakeTwins(Run(events), Step(Load(EMPTY, rows), []), mail, c.byDelivery.Keys, c.pending.Keys);
  }

  /**
   Restart transparency: whatever mail and verdicts arrive after a restart, in whatever order
   the rows came back, the reloaded store lists, links and flushes all along what the running
   one would have, exactly when every verdict for an id that was linked at the restart comes
   after a record of that id, and no record's row is changed by a verdict that was waiting at
   the restart.
   */
  lemma RestartIsTransparent(events: seq<Event>, rows: seq<Record>, more: seq<Event>, mail: set<Record>)
    requires OnePrimary(mail) && NoChains(mail) && MailOf(events) <= mail && MailOf(more) <= mail
    requires Lists(rows, Stored(events))
    ensures InRange(Load(EMPTY, rows))
    ensures var c := Run(events).core;
      AlikeAllAlong(c, Load(EMPTY, rows), more) <==> AllUnaffected(c, c.byDelivery.Keys, c.pending.Keys, more)
  {
    var c := Run(events).core;
    ReloadIsTwin(events, rows, mail);
    TwinsStayAlike(c, Load(EMPTY, rows), mail, c.byDelivery.Keys, c.pending.Keys, more);
  }

  /** When a verdict leaves a row as it is: when everything it says is there already. */
  lemma LeavesAsItIs(row: Record, v: RspamdVerdict)
    ensures Enrich(row, v) == row <==>
      && row.filter == "rspamd" && row.filterAction == v.action && v.score in {"", row.spamScore}
      && (row.messageID != "" || v.messageID == "") && RspamdDisposition(v.action) in {"", row.disposition}
      && (v.line.None? || v.line.value in row.raw)
  {
    assert v.line.Some? && v.line.value !in row.raw ==> |row.raw + [v.line.value]| > |row.raw|;
  }

  /** A run in which the restart loses a verdict: it waits for its record, which is spam without a restart and sent after one. */
  lemma WaitingVerdictIsLost(a: Record, v: RspamdVerdict)
    requires a == BLANK.(qid := "A", disposition := "sent") && v == RspamdVerdict("reject", "", "", None)
    ensures var c := Run([Scanner("A", v)]).core;
      && Lists([], Stored([Scanner("A", v)])) && c.pending == map["A" := v]
      && AddOne(c, a).core.records == [Enrich(a, v)] && Enrich(a, v).disposition == "spam"
      && AddOne(Load(EMPTY, []), a).core.records == [a] && a.disposition == "sent"
      && !Harmless(c, {"A"}, a)
  {
    RunOne(Scanner("A", v));
    var c := EMPTY.(pending := map["A" := v]);
    assert Run([Scanner("A", v)]) == Step(c, []);
    assert Append(c, a).records == [a] && Append(EMPTY, a).records == [a];
    assert Unjudged(c, a) == a;
  }

  lemma RunOne(e: Event)
    ensures Run([e]) == Apply(EMPTY, e)
  {
    var events, s := [e], Apply(EMPTY, e);
    assert events[..|events| - 1] == [] && [] + s.snaps == s.snaps;
    assert RunFrom(EMPTY, events[..|events| - 1]) == Step(EMPTY, []);
  }

  /** A run that is not transparent: the verdict names the onward id, and waits in one store only. */
  lemma VerdictForOnwardId(a: Record, v: RspamdVerdict)
    requires a == BLANK.(qid := "A", delivery := "D", disposition := "sent") && v == RspamdVerdict("reject", "", "", None)
    ensures var c, l := Run([Mail([a])]).core, Load(EMPTY, [a]);
      && Lists([a], Stored([Mail([a])])) && c.pending == map[] && c.records == l.records == [a]
      && ApplyVerdict(c, "D", v).core.records == [a]
      && ApplyVerdict(l, "D", v).core.records == [Enrich(a, v)] && Enrich(a, v).disposition == "spam"
  {
    RunOfOne(a);
    LoadOfOne(a);
    UpsertOne(map[], a);
    assert RowKeys([a]) == [KeyOf(a)];
  }

  lemma RunOfOne(a: Record)
    requires a == BLANK.(qid := "A", delivery := "D", disposition := "sent")
    ensures Run([Mail([a])]) == Step(Core([a], map[KeyOf(a) := 0], map[Key("", "D") := 0], map[], false), [a])
  {
    var added := Core([a], map[KeyOf(a) := 0], map[Key("", "D") := 0], map[], false);
    assert [a][..0] == [] && [] + [a] == [a];
    assert AddOne(EMPTY, a) == Step(added, [a]);
    assert Add(EMPTY, [a]) == Step(added, [a]);
    RunOne(Mail([a]));
  }

  lemma LoadOfOne(a: Record)
    requires a == BLANK.(qid := "A", delivery := "D", disposition := "sent")
    ensures Load(EMPTY, [a]) == Core([a], map[KeyOf(a) := 0, Key("", "D") := 0], map[Key("", "D") := 0], map[], false)
  {
    assert [a][..0] == [];
  }
}
