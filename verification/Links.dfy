/**
 Delivery links over runs in which every onward id is named by one primary: each
 row has its own key, and byDelivery says exactly which row expects which id.
 */
module Links {
  import opened Text
  import opened Records
  import opened Timeline
  import opened Rspamd
  import opened StoreSpec
  import opened Coherence

  /** Mail as the parser emits it: nothing subsumed yet, one primary per onward id and server. */
  ghost predicate OnePrimary(mail: set<Record>) {
    && (forall r | r in mail :: !r.subsumed)
    && (forall r, s | r in mail && s in mail && r.delivery != "" && DeliveryKey(r) == DeliveryKey(s) :: r.qid == s.qid)
  }

  ghost predicate Named(mail: set<Record>, primary: Key, dkey: Key) {
    exists r | r in mail :: r.delivery != "" && KeyOf(r) == primary && DeliveryKey(r) == dkey
  }

  function Keys(c: Core): seq<Key> {
    seq(|c.records|, i requires 0 <= i < |c.records| => KeyOf(c.records[i]))
  }

  /** No two rows share a key. */
  ghost predicate Keyed(c: Core) {
    Distinct(Keys(c))
  }

  ghost predicate Indexed(c: Core) {
    InRange(c) && forall k | k in c.byDelivery :: c.byDelivery[k] < |c.records|
  }

  ghost predicate LinkHeld(c: Core, i: nat)
    requires i < |c.records|
  {
    var dkey := DeliveryKey(c.records[i]);
    c.records[i].delivery != "" ==> dkey in c.byDelivery && c.byDelivery[dkey] == i
  }

  ghost predicate RowOk(c: Core, mail: set<Record>, i: nat)
    requires i < |c.records|
  {
    var r := c.records[i];
    && (r.delivery != "" ==> Named(mail, KeyOf(r), DeliveryKey(r)))
    && (r.subsumed ==> KeyOf(r) in c.byDelivery)
  }

  ghost predicate LinkOk(c: Core, k: Key)
    requires k in c.byDelivery && c.byDelivery[k] < |c.records|
  {
    k.qid != "" && DeliveryKey(c.records[c.byDelivery[k]]) == k
  }

  ghost predicate AliasOk(c: Core, k: Key)
    requires k in c.byQueueID && c.byQueueID[k] < |c.records|
  {
    KeyOf(c.records[c.byQueueID[k]]) == k || (k in c.byDelivery && c.byDelivery[k] == c.byQueueID[k])
  }

  /** All links right, except perhaps that of the row being settled. */
  ghost predicate Linkage(c: Core, mail: set<Record>, except: nat)
    requires Indexed(c)
  {
    && Keyed(c)
    && (forall j | 0 <= j < |c.records| :: RowOk(c, mail, j) && (j != except ==> LinkHeld(c, j)))
    && (forall k | k in c.byDelivery :: LinkOk(c, k))
    && (forall k | k in c.byQueueID :: AliasOk(c, k))
  }

  ghost predicate WellLinked(c: Core, mail: set<Record>) {
    Coherent(c) && Indexed(c) && Linkage(c, mail, |c.records|)
  }

  /** Rewriting a row without touching its key or onward id. */
  lemma PutLinkage(c: Core, mail: set<Record>, i: nat, r: Record, except: nat)
    requires Indexed(c) && Linkage(c, mail, except) && i < |c.records|
    requires KeyOf(r) == KeyOf(c.records[i]) && r.delivery == c.records[i].delivery
    requires r.subsumed ==> c.records[i].subsumed || KeyOf(r) in c.byDelivery
    ensures Indexed(Put(c, i, r)) && Linkage(Put(c, i, r), mail, except)
  {
    var c' := Put(c, i, r);
    assert Keys(c') == Keys(c);
    forall j | 0 <= j < |c.records|
      ensures RowOk(c', mail, j) && (j != except ==> LinkHeld(c', j))
    {
      assert RowOk(c, mail, j) && (j != except ==> LinkHeld(c, j));
    }
    forall k | k in c.byDelivery ensures LinkOk(c', k) {
      assert LinkOk(c, k);
    }
    forall k | k in c.byQueueID ensures AliasOk(c', k) {
      assert AliasOk(c, k);
    }
  }

  /** A row that gains its onward id waits only for its own link. */
  lemma PutNamed(c: Core, mail: set<Record>, i: nat, r: Record)
    requires Indexed(c) && Linkage(c, mail, |c.records|) && i < |c.records| && c.records[i].delivery == ""
    requires KeyOf(r) == KeyOf(c.records[i]) && r.subsumed == c.records[i].subsumed
    requires r.delivery != "" ==> Named(mail, KeyOf(r), DeliveryKey(r))
    ensures Indexed(Put(c, i, r)) && Linkage(Put(c, i, r), mail, i)
  {
    var c' := Put(c, i, r);
    assert Keys(c') == Keys(c);
    forall j | 0 <= j < |c.records|
      ensures RowOk(c', mail, j) && (j != i ==> LinkHeld(c', j))
    {
      assert RowOk(c, mail, j) && LinkHeld(c, j);
    }
    forall k | k in c.byDelivery ensures LinkOk(c', k) {
      assert LinkOk(c, k);
    }
    forall k | k in c.byQueueID ensures AliasOk(c', k) {
      assert AliasOk(c, k);
    }
  }

  lemma AppendLinkage(c: Core, mail: set<Record>, r: Record)
    requires Indexed(c) && Linkage(c, mail, |c.records|) && KeyOf(r) !in Keys(c) && !r.subsumed
    requires r.delivery != "" ==> Named(mail, KeyOf(r), DeliveryKey(r))
    ensures Indexed(Append(c, r)) && Linkage(Append(c, r), mail, |c.records|)
  {
    var c', n := Append(c, r), |c.records|;
    assert Keys(c') == Keys(c) + [KeyOf(r)];
    forall j | 0 <= j < n
      ensures RowOk(c', mail, j) && LinkHeld(c', j)
    {
      assert RowOk(c, mail, j) && LinkHeld(c, j);
    }
    forall k | k in c.byDelivery ensures LinkOk(c', k) {
      assert LinkOk(c, k);
    }
    forall k | k in c'.byQueueID ensures AliasOk(c', k) {
      assert k != KeyOf(r) ==> AliasOk(c, k);
    }
  }

  /** With one primary per onward id, an unlinked row's onward id is linked by nobody. */
  lemma UnlinkedIsFree(c: Core, mail: set<Record>, i: nat)
    requires OnePrimary(mail) && Indexed(c) && Linkage(c, mail, i) && i < |c.records|
    requires c.records[i].delivery != "" && !LinkHeld(c, i)
    ensures DeliveryKey(c.records[i]) !in c.byDelivery
  {
    var dkey := DeliveryKey(c.records[i]);
    if dkey in c.byDelivery {
      var t := c.byDelivery[dkey];
      SamePrimary(c, mail, i, t);
    }
  }

  lemma SamePrimary(c: Core, mail: set<Record>, i: nat, t: nat)
    requires OnePrimary(mail) && Indexed(c) && i < |c.records| && t < |c.records|
    requires Keyed(c) && RowOk(c, mail, i) && RowOk(c, mail, t)
    requires c.records[i].delivery != "" && DeliveryKey(c.records[i]) == DeliveryKey(c.records[t])
    ensures t == i
  {
    assert Keys(c)[i] == KeyOf(c.records[i]) && Keys(c)[t] == KeyOf(c.records[t]);
  }

  lemma AliasLinkage(c: Core, mail: set<Record>, key: Key)
    requires Indexed(c) && Linkage(c, mail, |c.records|) && key in c.byDelivery
    ensures var c' := c.(byQueueID := c.byQueueID[key := c.byDelivery[key]]); Indexed(c') && Linkage(c', mail, |c.records|)
  {
    var c' := c.(byQueueID := c.byQueueID[key := c.byDelivery[key]]);
    assert Keys(c') == Keys(c);
    forall j | 0 <= j < |c.records| ensures RowOk(c', mail, j) && LinkHeld(c', j) {
      assert RowOk(c, mail, j) && LinkHeld(c, j);
    }
    forall k | k in c.byDelivery ensures LinkOk(c', k) {
      assert LinkOk(c, k);
    }
    forall k | k in c'.byQueueID ensures AliasOk(c', k) {
      assert k != key ==> AliasOk(c, k);
    }
  }

  lemma LinkedLinkage(c: Core, mail: set<Record>, i: nat)
    requires Indexed(c) && Linkage(c, mail, i) && i < |c.records| && c.records[i].delivery != ""
    requires DeliveryKey(c.records[i]) !in c.byDelivery
    ensures var c' := Linked(c, i, DeliveryKey(c.records[i])); Indexed(c') && Linkage(c', mail, |c.records|)
  {
    var dkey := DeliveryKey(c.records[i]);
    var c' := Linked(c, i, dkey);
    assert Keys(c') == Keys(c);
    forall j | 0 <= j < |c.records| ensures RowOk(c', mail, j) && LinkHeld(c', j) {
      assert RowOk(c, mail, j) && (j != i ==> LinkHeld(c, j));
    }
    forall k | k in c'.byDelivery ensures LinkOk(c', k) {
      assert k != dkey ==> LinkOk(c, k);
    }
    forall k | k in c.byQueueID ensures AliasOk(c', k) {
      assert AliasOk(c, k);
    }
  }

  lemma PendingLinkage(c: Core, mail: set<Record>, pending: map<string, RspamdVerdict>, hasOrigins: bool)
    requires Indexed(c) && Linkage(c, mail, |c.records|)
    ensures var c' := c.(pending := pending, hasOrigins := hasOrigins); Indexed(c') && Linkage(c', mail, |c.records|)
  {
    var c' := c.(pending := pending, hasOrigins := hasOrigins);
    assert Keys(c') == Keys(c);
    forall j | 0 <= j < |c.records| ensures RowOk(c', mail, j) && LinkHeld(c', j) {
      assert RowOk(c, mail, j) && LinkHeld(c, j);
    }
    forall k | k in c.byDelivery ensures LinkOk(c', k) {
      assert LinkOk(c, k);
    }
    forall k | k in c.byQueueID ensures AliasOk(c', k) {
      assert AliasOk(c, k);
    }
  }

  // ---- when a link takes a row away ----

  /** Registering row i hides a listed row that is not the expected leg. */
  ghost predicate HidesOther(c: Core, i: nat)
    requires InRange(c) && i < |c.records|
  {
    exists o :: 0 <= o < |c.records| && !c.records[o].subsumed && Register(c, i).core.records[o].subsumed
      && KeyOf(c.records[o]) != DeliveryKey(c.records[i])
  }

  /** It does exactly when the onward id is an alias of another listed row: its primary is taken for the leg. */
  lemma HidesOtherIff(c: Core, i: nat)
    requires Coherent(c) && i < |c.records|
    ensures var d := DeliveryKey(c.records[i]);
      HidesOther(c, i) <==>
        && d in c.byQueueID && d in c.byDelivery && c.byQueueID[d] != i
        && !c.records[c.byQueueID[d]].subsumed && KeyOf(c.records[c.byQueueID[d]]) != d
  {
    var d := DeliveryKey(c.records[i]);
    if d in c.byQueueID && c.byQueueID[d] != i && !c.records[c.byQueueID[d]].subsumed && KeyOf(c.records[c.byQueueID[d]]) != d {
      assert Resolves(c, d);
      assert Register(c, i).core.records[c.byQueueID[d]].subsumed;
    }
  }

  // ---- every operation keeps the links ----

  /** A primary whose link is held already: registering it again changes nothing. */
  lemma HeldRegistersQuietly(c: Core, mail: set<Record>, i: nat)
    requires Coherent(c) && Indexed(c) && Linkage(c, mail, i) && i < |c.records|
    requires c.records[i].delivery != "" && LinkHeld(c, i)
    ensures Register(c, i) == Step(c, []) && Linkage(c, mail, |c.records|)
  {
    var dkey := DeliveryKey(c.records[i]);
    assert c.byDelivery[dkey := i] == c.byDelivery;
    if dkey in c.byQueueID && !c.records[c.byQueueID[dkey]].subsumed {
      assert AliasOk(c, dkey) && Listed(c, c.byQueueID[dkey]);
    }
  }

  /** The row's onward id is linked to it already, or to nobody. */
  ghost predicate MayLink(c: Core, i: nat)
    requires i < |c.records|
  {
    LinkHeld(c, i) || DeliveryKey(c.records[i]) !in c.byDelivery
  }

  lemma RegisterLinkage(c: Core, mail: set<Record>, i: nat)
    requires Coherent(c) && Indexed(c) && Linkage(c, mail, i)
    requires i < |c.records| && c.records[i].delivery != "" && MayLink(c, i)
    ensures Indexed(Register(c, i).core) && Linkage(Register(c, i).core, mail, |c.records|)
  {
    var dkey := DeliveryKey(c.records[i]);
    if LinkHeld(c, i) {
      HeldRegistersQuietly(c, mail, i);
    } else {
      if dkey in c.byQueueID && c.byQueueID[dkey] != i && !c.records[c.byQueueID[dkey]].subsumed {
        var o := c.byQueueID[dkey];
        assert AliasOk(c, dkey);
        var merged, leg := MergeDeliveryLeg(c.records[i], c.records[o]), c.records[o].(subsumed := true);
        PutLinkage(c, mail, i, merged, i);
        LinkedLinkage(Put(c, i, merged), mail, i);
        var linked := Linked(Put(c, i, merged), i, dkey);
        PutLinkage(linked, mail, o, leg, |c.records|);
        AliasLinkage(Put(linked, o, leg), mail, dkey);
      } else {
        LinkedLinkage(c, mail, i);
      }
    }
  }

  lemma SettleLinkage(c: Core, mail: set<Record>, i: nat, link: bool)
    requires Coherent(c) && Indexed(c) && Linkage(c, mail, i) && i < |c.records|
    requires if link then c.records[i].delivery != "" && MayLink(c, i) else LinkHeld(c, i)
    ensures Indexed(Settle(c, i, link).core) && Linkage(Settle(c, i, link).core, mail, |c.records|)
  {
    if link {
      RegisterLinkage(c, mail, i);
    }
    var reg := if link then Register(c, i).core else c;
    var qid := reg.records[i].qid;
    if qid in reg.pending {
      var enriched := Enrich(reg.records[i], reg.pending[qid]);
      PutLinkage(reg, mail, i, enriched, |c.records|);
      PendingLinkage(Put(reg, i, enriched), mail, reg.pending - {qid}, reg.hasOrigins);
    }
  }

  /** A key that is neither expected nor listed belongs to no row at all. */
  lemma NewKeyIsNew(c: Core, mail: set<Record>, key: Key)
    requires Coherent(c) && Indexed(c) && Linkage(c, mail, |c.records|)
    requires key !in c.byDelivery && !IsKnown(c, key)
    ensures key !in Keys(c)
  {
    forall j | 0 <= j < |c.records|
      ensures KeyOf(c.records[j]) != key
    {
      assert RowOk(c, mail, j);
      assert c.records[j].subsumed || Listed(c, j);
    }
  }

  lemma FoldLegLinkage(c: Core, mail: set<Record>, r: Record)
    requires Indexed(c) && Linkage(c, mail, |c.records|) && IsLeg(c, KeyOf(r))
    ensures Indexed(FoldLeg(c, r).core) && Linkage(FoldLeg(c, r).core, mail, |c.records|)
  {
    var p := c.byDelivery[KeyOf(r)];
    assert LinkOk(c, KeyOf(r));
    PutLinkage(c, mail, p, MergeDeliveryLeg(c.records[p], r), |c.records|);
    AliasLinkage(Put(c, p, MergeDeliveryLeg(c.records[p], r)), mail, KeyOf(r));
  }

  /**
   The next record does not take an onward id away from a row: it names none, or is a leg
   itself, or its row names one already, or nobody is linked under the id it names.
   */
  ghost predicate Welcome(c: Core, r: Record)
    requires InRange(c)
  {
    || r.delivery == "" || IsLeg(c, KeyOf(r))
    || (IsKnown(c, KeyOf(r)) && c.records[c.byQueueID[KeyOf(r)]].delivery != "")
    || DeliveryKey(r) !in c.byDelivery
  }

  lemma MergeKnownLinkage(c: Core, mail: set<Record>, r: Record)
    requires r in mail && Coherent(c) && Indexed(c) && Linkage(c, mail, |c.records|) && Welcome(c, r)
    requires !IsLeg(c, KeyOf(r)) && IsKnown(c, KeyOf(r))
    ensures Indexed(MergeKnown(c, r).core) && Linkage(MergeKnown(c, r).core, mail, |c.records|)
  {
    var i := c.byQueueID[KeyOf(r)];
    assert AliasOk(c, KeyOf(r)) && LinkHeld(c, i);
    var merged := MergeRecord(c.records[i], r);
    PutCoherent(c, i, merged);
    if c.records[i].delivery == "" {
      assert r.delivery != "" ==> Named(mail, KeyOf(merged), DeliveryKey(merged));
      PutNamed(c, mail, i, merged);
    } else {
      PutLinkage(c, mail, i, merged, |c.records|);
    }
    SettleLinkage(Put(c, i, merged), mail, i, r.delivery != "");
  }

  lemma AppendNewLinkage(c: Core, mail: set<Record>, r: Record)
    requires r in mail && Coherent(c) && Indexed(c) && Linkage(c, mail, |c.records|) && Welcome(c, r) && !r.subsumed
    requires !IsLeg(c, KeyOf(r)) && !IsKnown(c, KeyOf(r))
    ensures var s := Settle(Append(c, r), |c.records|, r.delivery != "");
      Indexed(s.core) && Linkage(s.core, mail, |s.core.records|)
  {
    NewKeyIsNew(c, mail, KeyOf(r));
    assert r.delivery != "" ==> Named(mail, KeyOf(r), DeliveryKey(r));
    AppendLinkage(c, mail, r);
    AppendCoherent(c, r);
    SettleLinkage(Append(c, r), mail, |c.records|, r.delivery != "");
  }

  lemma NotedLinked(c: Core, mail: set<Record>, origin: string)
    requires WellLinked(c, mail)
    ensures WellLinked(NoteOrigin(c, origin), mail)
  {
    PendingCoherent(c, c.pending, NoteOrigin(c, origin).hasOrigins);
    PendingLinkage(c, mail, c.pending, NoteOrigin(c, origin).hasOrigins);
  }

  lemma WelcomeLinkage(c: Core, mail: set<Record>, r: Record)
    requires r in mail && !r.subsumed && WellLinked(c, mail) && Welcome(c, r)
    ensures WellLinked(AddOne(c, r).core, mail)
  {
    AddOneCoherent(c, r);
    NotedLinked(c, mail, r.origin);
    var noted := NoteOrigin(c, r.origin);
    if IsLeg(noted, KeyOf(r)) {
      FoldLegLinkage(noted, mail, r);
    } else if IsKnown(noted, KeyOf(r)) {
      MergeKnownLinkage(noted, mail, r);
    } else {
      AppendNewLinkage(noted, mail, r);
    }
  }

  /** Otherwise the row that was linked under the onward id loses its link. */
  lemma UnwelcomeUnlinks(c: Core, mail: set<Record>, r: Record)
    requires WellLinked(c, mail) && !Welcome(c, r)
    ensures var t := c.byDelivery[DeliveryKey(r)];
      t < |AddOne(c, r).core.records| && !LinkHeld(AddOne(c, r).core, t)
  {
    var noted, t := NoteOrigin(c, r.origin), c.byDelivery[DeliveryKey(r)];
    assert LinkOk(c, DeliveryKey(r));
    if IsKnown(noted, KeyOf(r)) {
      var i := c.byQueueID[KeyOf(r)];
      assert AliasOk(c, KeyOf(r));
      TakesLink(Put(noted, i, MergeRecord(c.records[i], r)), i, t);
    } else {
      TakesLink(Append(noted, r), |c.records|, t);
    }
  }

  lemma TakesLink(c: Core, i: nat, t: nat)
    requires InRange(c) && i < |c.records| && t < |c.records| && t != i
    requires c.records[t].delivery != "" && DeliveryKey(c.records[t]) == DeliveryKey(c.records[i])
    ensures !LinkHeld(Settle(c, i, true).core, t)
  {
    var reg := Register(c, i).core;
    assert reg.records[t].delivery == c.records[t].delivery && reg.records[t].origin == c.records[t].origin;
    assert reg.byDelivery[DeliveryKey(c.records[i])] == i;
  }

  /** One record more: links and rows still match exactly when it takes no onward id away. */
  lemma AddOneLinkageIff(c: Core, mail: set<Record>, r: Record)
    requires r in mail && !r.subsumed && WellLinked(c, mail)
    ensures WellLinked(AddOne(c, r).core, mail) <==> Welcome(c, r)
  {
    if Welcome(c, r) {
      WelcomeLinkage(c, mail, r);
    } else {
      UnwelcomeUnlinks(c, mail, r);
    }
  }

  ghost predicate AllWelcome(c: Core, records: seq<Record>)
    requires InRange(c)
  {
    records != [] ==>
      var front := records[..|records| - 1];
      AllWelcome(c, front) && Welcome(Add(c, front).core, records[|records| - 1])
  }

  /** Links and rows match after each of the records. */
  ghost predicate LinkedAllAlong(c: Core, records: seq<Record>, mail: set<Record>)
    requires InRange(c)
  {
    WellLinked(Add(c, records).core, mail) && (records != [] ==> LinkedAllAlong(c, records[..|records| - 1], mail))
  }

  /** Any mail, with any number of primaries per onward id: links and rows match all along exactly when none is taken away. */
  lemma {:induction false} AddLinkageIff(c: Core, records: seq<Record>, mail: set<Record>)
    requires WellLinked(c, mail) && forall r | r in records :: r in mail && !r.subsumed
    ensures LinkedAllAlong(c, records, mail) <==> AllWelcome(c, records)
  {
    if records == [] {
    } else {
      var front, r := records[..|records| - 1], records[|records| - 1];
      AddLinkageIff(c, front, mail);
      if WellLinked(Add(c, front).core, mail) {
        AddOneLinkageIff(Add(c, front).core, mail, r);
      }
    }
  }

  /** With one primary per onward id every record is welcome. */
  lemma OnePrimaryWelcome(c: Core, mail: set<Record>, r: Record)
    requires OnePrimary(mail) && r in mail && WellLinked(c, mail)
    ensures Welcome(c, r)
  {
    var d := DeliveryKey(r);
    if r.delivery != "" && d in c.byDelivery {
      var t := c.byDelivery[d];
      assert LinkOk(c, d) && RowOk(c, mail, t);
      assert KeyOf(c.records[t]) == KeyOf(r);
      assert c.records[t].subsumed || Listed(c, t);
    }
  }

  lemma AddOneLinkage(c: Core, mail: set<Record>, r: Record)
    requires OnePrimary(mail) && r in mail && WellLinked(c, mail)
    ensures WellLinked(AddOne(c, r).core, mail)
  {
    OnePrimaryWelcome(c, mail, r);
    WelcomeLinkage(c, mail, r);
  }

  lemma {:induction false} OnePrimaryAllWelcome(c: Core, mail: set<Record>, records: seq<Record>)
    requires OnePrimary(mail) && WellLinked(c, mail) && forall r | r in records :: r in mail
    ensures AllWelcome(c, records) && WellLinked(Add(c, records).core, mail)
  {
    if records == [] {
    } else {
      var front, r := records[..|records| - 1], records[|records| - 1];
      OnePrimaryAllWelcome(c, mail, front);
      OnePrimaryWelcome(Add(c, front).core, mail, r);
      AddOneLinkage(Add(c, front).core, mail, r);
    }
  }

  lemma AddLinkage(c: Core, mail: set<Record>, records: seq<Record>)
    requires OnePrimary(mail) && WellLinked(c, mail) && forall r | r in records :: r in mail
    ensures WellLinked(Add(c, records).core, mail)
  {
    OnePrimaryAllWelcome(c, mail, records);
  }

  lemma ApplyVerdictLinkage(c: Core, mail: set<Record>, qid: string, v: RspamdVerdict)
    requires WellLinked(c, mail)
    ensures WellLinked(ApplyVerdict(c, qid, v).core, mail)
  {
    ApplyVerdictCoherent(c, qid, v);
    if VerdictMatches(c, qid) {
      var i := c.byQueueID[Key("", qid)];
      PutLinkage(c, mail, i, Enrich(c.records[i], v), |c.records|);
    } else {
      PendingLinkage(c, mail, c.pending[qid := v], c.hasOrigins);
    }
  }

  /** All mail of a run. */
  function MailOf(events: seq<Event>): set<Record> {
    set i, j | 0 <= i < |events| && events[i].Mail? && 0 <= j < |events[i].records| :: events[i].records[j]
  }

  lemma MailOfParts(events: seq<Event>)
    requires events != []
    ensures MailOf(events[..|events| - 1]) <= MailOf(events)
    ensures events[|events| - 1].Mail? ==> forall r | r in events[|events| - 1].records :: r in MailOf(events)
  {
    var front, last := events[..|events| - 1], events[|events| - 1];
    forall r | r in MailOf(front)
      ensures r in MailOf(events)
    {
      var i, j :| 0 <= i < |front| && front[i].Mail? && 0 <= j < |front[i].records| && r == front[i].records[j];
      assert events[i] == front[i];
    }
    if last.Mail? {
      forall r | r in last.records
        ensures r in MailOf(events)
      {
        var j :| 0 <= j < |last.records| && last.records[j] == r;
        assert events[|front|].records[j] in MailOf(events);
      }
    }
  }

  /** Mail as the parser emits it, of a run in which no record takes an onward id away. */
  ghost predicate WelcomeMail(c: Core, events: seq<Event>)
    requires InRange(c)
  {
    && (forall r | r in MailOf(events) :: !r.subsumed)
    && (forall i | 0 <= i < |events| && events[i].Mail? ::
          AllWelcome(RunFrom(c, events[..i]).core, events[i].records))
  }

  lemma WelcomeFront(c: Core, events: seq<Event>)
    requires InRange(c) && events != [] && WelcomeMail(c, events)
    ensures WelcomeMail(c, events[..|events| - 1])
  {
    var front := events[..|events| - 1];
    MailOfParts(events);
    assert forall i | 0 <= i < |front| :: front[..i] == events[..i] && front[i] == events[i];
  }

  /** In every run in which no record takes an onward id away the links and the rows match. */
  lemma {:induction false} RunFromWelcomed(c: Core, events: seq<Event>, mail: set<Record>)
    requires WellLinked(c, mail) && MailOf(events) <= mail && WelcomeMail(c, events)
    ensures WellLinked(RunFrom(c, events).core, mail)
  {
    if events == [] {
    } else {
      MailOfParts(events);
      WelcomeFront(c, events);
      var front := events[..|events| - 1];
      RunFromWelcomed(c, front, mail);
      match events[|events| - 1]
      case Mail(records) => BatchWelcomed(RunFrom(c, front).core, records, mail);
      case Scanner(qid, v) => ApplyVerdictLinkage(RunFrom(c, front).core, mail, qid, v);
    }
  }

  lemma BatchWelcomed(c: Core, records: seq<Record>, mail: set<Record>)
    requires WellLinked(c, mail) && (forall r | r in records :: r in mail && !r.subsumed) && AllWelcome(c, records)
    ensures WellLinked(Add(c, records).core, mail) && LinkedAllAlong(c, records, mail)
  {
    AddLinkageIff(c, records, mail);
  }

  lemma {:induction false} OnePrimaryWelcomed(c: Core, events: seq<Event>, mail: set<Record>)
    requires OnePrimary(mail) && MailOf(events) <= mail && WellLinked(c, mail)
    ensures WelcomeMail(c, events) && WellLinked(RunFrom(c, events).core, mail)
  {
    if events == [] {
    } else {
      var n := |events| - 1;
      MailOfParts(events);
      OnePrimaryWelcomed(c, events[..n], mail);
      var front := RunFrom(c, events[..n]).core;
      forall i | 0 <= i < |events| && events[i].Mail?
        ensures AllWelcome(RunFrom(c, events[..i]).core, events[i].records)
      {
        if i < n {
          assert events[..n][..i] == events[..i] && events[..n][i] == events[i];
        } else {
          OnePrimaryAllWelcome(front, mail, events[n].records);
        }
      }
      RunFromWelcomed(c, events, mail);
    }
  }

  lemma RunFromLinked(c: Core, events: seq<Event>, mail: set<Record>)
    requires OnePrimary(mail) && MailOf(events) <= mail && WellLinked(c, mail)
    ensures WellLinked(RunFrom(c, events).core, mail)
  {
    OnePrimaryWelcomed(c, events, mail);
  }

  /** In particular with one primary per onward id. */
  lemma RunLinked(events: seq<Event>, mail: set<Record>)
    requires OnePrimary(mail) && MailOf(events) <= mail
    ensures WellLinked(Run(events).core, mail)
  {
    RunFromLinked(EMPTY, events, mail);
  }
}
