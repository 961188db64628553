/**
 Scanner verdicts and mail records come from two logs read side by side. With one
 record and one verdict per queue id, how the two streams interleave does not matter.
 */
module VerdictOrder {
  import opened Text
  import opened Records
  import opened Timeline
  import opened Rspamd
  import opened StoreSpec
  import opened Coherence

  function MailStream(events: seq<Event>): seq<Record> {
    if events == [] then []
    else
      var front, last := MailStream(events[..|events| - 1]), events[|events| - 1];
      if last.Mail? then front + last.records else front
  }

  function VerdictMap(events: seq<Event>): map<string, RspamdVerdict> {
    if events == [] then map[]
    else
      var front, last := VerdictMap(events[..|events| - 1]), events[|events| - 1];
      if last.Scanner? then front[last.qid := last.verdict] else front
  }

  /** Local, unlinked mail with one record per queue id. */
  ghost predicate PlainMail(mail: seq<Record>) {
    && (forall r | r in mail :: r.origin == "" && r.delivery == "" && !r.subsumed)
    && (forall i, j | 0 <= i < j < |mail| :: mail[i].qid != mail[j].qid)
  }

  /** No queue id gets a second verdict. */
  ghost predicate OneVerdictEach(events: seq<Event>) {
    forall i | 0 <= i < |events| && events[i].Scanner? :: events[i].qid !in VerdictMap(events[..i])
  }

  function Judged(r: Record, verdicts: map<string, RspamdVerdict>): Record {
    if r.qid in verdicts then Enrich(r, verdicts[r.qid]) else r
  }

  function Rows(mail: seq<Record>, verdicts: map<string, RspamdVerdict>): seq<Record> {
    seq(|mail|, i requires 0 <= i < |mail| => Judged(mail[i], verdicts))
  }

  function Index(mail: seq<Record>): map<Key, nat> {
    if mail == [] then map[] else Index(mail[..|mail| - 1])[Key("", mail[|mail| - 1].qid) := |mail| - 1]
  }

  function Waiting(index: map<Key, nat>, verdicts: map<string, RspamdVerdict>): map<string, RspamdVerdict> {
    map q | q in verdicts && Key("", q) !in index :: verdicts[q]
  }

  /** The state both streams lead to: each record with its verdict, spare verdicts waiting. */
  function Joined(mail: seq<Record>, verdicts: map<string, RspamdVerdict>): Core {
    Core(Rows(mail, verdicts), Index(mail), map[], Waiting(Index(mail), verdicts), false)
  }

  lemma {:induction false} IndexFacts(mail: seq<Record>)
    ensures forall k | k in Index(mail) :: Index(mail)[k] < |mail| && k == Key("", mail[Index(mail)[k]].qid)
    ensures forall i | 0 <= i < |mail| :: Key("", mail[i].qid) in Index(mail)
  {
    if mail == [] {
    } else {
      IndexFacts(mail[..|mail| - 1]);
    }
  }

  lemma PlainFront(mail: seq<Record>, r: Record)
    requires PlainMail(mail + [r])
    ensures PlainMail(mail) && Key("", r.qid) !in Index(mail) && r.origin == "" && r.delivery == "" && !r.subsumed
  {
    var all := mail + [r];
    assert all[|mail|] == r;
    forall x | x in mail
      ensures x in all
    {
    }
    forall i, j | 0 <= i < j < |mail|
      ensures mail[i].qid != mail[j].qid
    {
      assert all[i].qid != all[j].qid;
    }
    forall i | 0 <= i < |mail|
      ensures mail[i].qid != r.qid
    {
      assert all[i].qid != all[|mail|].qid;
    }
    IndexFacts(mail);
  }

  lemma WaitingSnoc(index: map<Key, nat>, verdicts: map<string, RspamdVerdict>, q: string, n: nat)
    ensures Waiting(index[Key("", q) := n], verdicts) == Waiting(index, verdicts) - {q}
  {
  }

  lemma JoinedSnoc(mail: seq<Record>, verdicts: map<string, RspamdVerdict>, r: Record)
    ensures var c := Joined(mail, verdicts);
      Joined(mail + [r], verdicts) == Core(c.records + [Judged(r, verdicts)], c.byQueueID[Key("", r.qid) := |mail|],
                                           map[], c.pending - {r.qid}, false)
  {
    assert (mail + [r])[..|mail|] == mail;
    assert Rows(mail + [r], verdicts) == Rows(mail, verdicts) + [Judged(r, verdicts)];
    WaitingSnoc(Index(mail), verdicts, r.qid, |mail|);
  }

  /** Adding a plain record of a new queue id: the row, its index entry, and any verdict waiting for it. */
  lemma AddPlain(c: Core, r: Record)
    requires InRange(c) && c.byDelivery == map[] && KeyOf(r) !in c.byQueueID && r.origin == "" && r.delivery == ""
    ensures AddOne(c, r).core == Core(c.records + [Judged(r, c.pending)], c.byQueueID[KeyOf(r) := |c.records|],
                                      map[], c.pending - {r.qid}, c.hasOrigins)
  {
    if r.qid !in c.pending {
      assert c.pending - {r.qid} == c.pending;
    }
    var rows := c.records + [r];
    assert forall e :: rows[|c.records| := e] == c.records + [e];
  }

  lemma AddJoins(mail: seq<Record>, verdicts: map<string, RspamdVerdict>, r: Record)
    requires PlainMail(mail + [r])
    ensures InRange(Joined(mail, verdicts))
    ensures AddOne(Joined(mail, verdicts), r).core == Joined(mail + [r], verdicts)
  {
    PlainFront(mail, r);
    IndexFacts(mail);
    AddPlain(Joined(mail, verdicts), r);
    JoinedSnoc(mail, verdicts, r);
    assert Judged(r, Joined(mail, verdicts).pending) == Judged(r, verdicts);
  }

  lemma {:induction false} AddAllJoins(mail: seq<Record>, verdicts: map<string, RspamdVerdict>, batch: seq<Record>)
    requires PlainMail(mail + batch)
    ensures InRange(Joined(mail, verdicts))
    ensures Add(Joined(mail, verdicts), batch).core == Joined(mail + batch, verdicts)
  {
    IndexFacts(mail);
    if batch == [] {
      assert mail + batch == mail;
    } else {
      var front, r := batch[..|batch| - 1], batch[|batch| - 1];
      assert mail + batch == mail + front + [r];
      PlainFront(mail + front, r);
      AddAllJoins(mail, verdicts, front);
      AddJoins(mail + front, verdicts, r);
    }
  }

  /** A verdict changes the one row of its queue id. */
  lemma RowsJudged(mail: seq<Record>, verdicts: map<string, RspamdVerdict>, i: nat, v: RspamdVerdict)
    requires i < |mail| && mail[i].qid !in verdicts && forall j | 0 <= j < |mail| && j != i :: mail[j].qid != mail[i].qid
    ensures Rows(mail, verdicts[mail[i].qid := v]) == Rows(mail, verdicts)[i := Enrich(mail[i], v)]
    ensures Rows(mail, verdicts)[i] == mail[i]
  {
  }

  lemma LateVerdictJoins(mail: seq<Record>, verdicts: map<string, RspamdVerdict>, qid: string, v: RspamdVerdict)
    requires PlainMail(mail) && qid !in verdicts && Key("", qid) in Index(mail)
    ensures ApplyVerdict(Joined(mail, verdicts), qid, v).core == Joined(mail, verdicts[qid := v])
  {
    IndexFacts(mail);
    var i := Index(mail)[Key("", qid)];
    assert mail[i] in mail;
    RowsJudged(mail, verdicts, i, v);
    assert Waiting(Index(mail), verdicts[qid := v]) == Waiting(Index(mail), verdicts);
  }

  lemma EarlyVerdictJoins(mail: seq<Record>, verdicts: map<string, RspamdVerdict>, qid: string, v: RspamdVerdict)
    requires qid !in verdicts && Key("", qid) !in Index(mail)
    ensures ApplyVerdict(Joined(mail, verdicts), qid, v).core == Joined(mail, verdicts[qid := v])
  {
    IndexFacts(mail);
    forall j | 0 <= j < |mail|
      ensures mail[j].qid != qid
    {
      assert Key("", mail[j].qid) in Index(mail);
    }
    assert Rows(mail, verdicts[qid := v]) == Rows(mail, verdicts);
    assert Waiting(Index(mail), verdicts[qid := v]) == Waiting(Index(mail), verdicts)[qid := v];
  }

  /** Every run of plain mail and single verdicts ends in the joined state. */
  lemma {:induction false} RunJoins(events: seq<Event>)
    requires PlainMail(MailStream(events)) && OneVerdictEach(events)
    ensures Run(events).core == Joined(MailStream(events), VerdictMap(events))
  {
    if events == [] {
      assert Joined([], map[]) == EMPTY;
    } else {
      var front, last := events[..|events| - 1], events[|events| - 1];
      assert OneVerdictEach(front) by {
        assert forall i | 0 <= i < |front| :: front[..i] == events[..i] && front[i] == events[i];
      }
      match last
      case Mail(records) =>
        PlainPrefix(MailStream(front), records);
        RunJoins(front);
        AddAllJoins(MailStream(front), VerdictMap(front), records);
      case Scanner(qid, v) =>
        RunJoins(front);
        if Key("", qid) in Index(MailStream(front)) {
          LateVerdictJoins(MailStream(front), VerdictMap(front), qid, v);
        } else {
          EarlyVerdictJoins(MailStream(front), VerdictMap(front), qid, v);
        }
    }
  }

  lemma {:induction false} PlainPrefix(mail: seq<Record>, more: seq<Record>)
    requires PlainMail(mail + more)
    ensures PlainMail(mail)
  {
    if more == [] {
      assert mail + more == mail;
    } else {
      var front := more[..|more| - 1];
      assert mail + more == mail + front + [more[|more| - 1]];
      PlainFront(mail + front, more[|more| - 1]);
      PlainPrefix(mail, front);
    }
  }

  /** Any two interleavings of the same mail with the same verdicts end in the same state. */
  lemma OrderDoesNotMatter(one: seq<Event>, other: seq<Event>)
    requires MailStream(one) == MailStream(other) && VerdictMap(one) == VerdictMap(other)
    requires PlainMail(MailStream(one)) && OneVerdictEach(one) && OneVerdictEach(other)
    ensures Run(one).core == Run(other).core
    ensures |Run(one).core.records| == |MailStream(one)|
  {
    RunJoins(one);
    RunJoins(other);
  }

  /** A second record of the same queue id makes the order matter: a greylisting is reclassified by a merge, not after it. */
  lemma SecondRecordBreaksOrder(r: Record, v: RspamdVerdict)
    requires r == BLANK.(qid := "A", size := 1, disposition := "received") && v == RspamdVerdict("greylist", "", "", None)
    ensures var once := AddOne(EMPTY, r).core;
      && AddOne(ApplyVerdict(once, "A", v).core, r).core.records[0].disposition == "received"
      && ApplyVerdict(AddOne(once, r).core, "A", v).core.records[0].disposition == "deferred"
  {
    var once := AddOne(EMPTY, r).core;
    assert once.records == [r] && once.byQueueID == map[Key("", "A") := 0] && once.byDelivery == map[] && once.pending == map[];
    MergeIntoBlankStatus(Enrich(r, v), r);
    MergeIntoBlankStatus(r, r);
  }

  lemma MergeIntoBlankStatus(dst: Record, src: Record)
    requires dst.raw == [] && src.raw == [] && dst.status == "" && src.status == "" && dst.size == 1
    requires IsStatusDisposition(dst.disposition)
    ensures MergeRecord(dst, src).disposition == "received"
  {
  }
}
