/**
 The whole way: the lines of a log, tailed one by one, handed to the store, flushed,
 shipped and ingested, end up on the receiver as the records the batch parser makes of
 the same lines.
 */
module Pipeline {
  import opened Text
  import opened Records
  import opened Timeline
  import opened Parser
  import opened StoreSpec
  import opened Coherence
  import opened Links
  import M = Refinement
  import opened VerdictOrder
  import opened Replication
  import opened Agreement
  import opened LegOrder
  import T = LiveTail
  import C = Checkpoint

  // ---- from the tail to the store ----

  /** Everything the store is given comes from the tail. */
  ghost predicate OnlyLines(moves: seq<Move>) {
    forall m | m in moves :: !m.Update?
  }

  ghost predicate FedByTail(s: Sys) {
    MailStream(s.events) == HandedRecords(s.tail.handed) && forall e | e in s.events :: e.Mail?
  }

  lemma {:induction false} HandedConcat(a: seq<T.Handed>, b: seq<T.Handed>)
    ensures HandedRecords(a + b) == HandedRecords(a) + HandedRecords(b)
  {
    if b == [] {
      assert a + b == a;
    } else {
      var front, last := b[..|b| - 1], b[|b| - 1];
      assert b == front + [last];
      Associates(a, front, [last]);
      HandedConcat(a, front);
      HandedLast(a, front, last);
    }
  }

  lemma HandedLast(a: seq<T.Handed>, front: seq<T.Handed>, h: T.Handed)
    requires HandedRecords(a + front) == HandedRecords(a) + HandedRecords(front)
    ensures HandedRecords((a + front) + [h]) == HandedRecords(a) + HandedRecords(front + [h])
  {
    HandedSnoc(a + front, h);
    HandedSnoc(front, h);
  }

  lemma HandedSnoc(front: seq<T.Handed>, h: T.Handed)
    ensures HandedRecords(front + [h]) == HandedRecords(front) + if h.Rejected? then [h.record] else h.records
  {
    assert (front + [h])[..|front|] == front;
  }

  lemma LineFeeds(s: Sys)
    requires FedByTail(s) && InRange(s.store) && |s.marks| < |s.lines|
    ensures FedByTail(LineProcessed(s))
  {
    var line := s.lines[|s.marks|];
    var handed := T.Process(s.tail, line).handed;
    T.HandedGrows(s.tail, line);
    HandedConcat(s.tail.handed, handed[|s.tail.handed|..]);
    assert handed == s.tail.handed + handed[|s.tail.handed|..];
    assert (s.events + [Mail(NextRecords(s))])[..|s.events|] == s.events;
  }

  lemma {:induction false} MovesFeed(recv: Core, origin: string, moves: seq<Move>)
    requires OnlyLines(moves)
    ensures FedByTail(Moves(recv, origin, moves))
  {
    if moves == [] {
    } else {
      var front, m := moves[..|moves| - 1], moves[|moves| - 1];
      MovesFeed(recv, origin, front);
      assert m in moves;
      NextFeeds(Moves(recv, origin, front), origin, m);
    }
  }

  lemma NextFeeds(s: Sys, origin: string, m: Move)
    requires FedByTail(s) && InRange(s.store) && !m.Update?
    ensures FedByTail(Next(s, origin, m))
  {
    if m.LineDone? {
      if |s.marks| < |s.lines| {
        LineFeeds(s);
      }
    } else {
      assert Next(s, origin, m).tail == s.tail && Next(s, origin, m).events == s.events;
    }
  }

  // ---- what the tail hands over is what the parser makes ----

  /** A log that has come to rest: nothing after a removal, nothing pending, every filter session complete. */
  ghost predicate Complete(lines: seq<Line>) {
    && T.QuietAfterRemoval(lines) && T.Tail(lines).pending == map[]
    && forall q | q in Scan(lines).groups :: T.FilterSettled(lines, q, First(Scan(lines).groups[q], Handoff))
  }

  /** The one record of a call to the store. */
  function RecordIn(h: T.Handed): Record
    requires h.Finished? ==> |h.records| == 1
  {
    if h.Rejected? then h.record else h.records[0]
  }

  ghost predicate OneEach(handed: seq<T.Handed>) {
    forall h | h in handed && h.Finished? :: |h.records| == 1
  }

  lemma {:induction false} OneRecordEach(handed: seq<T.Handed>)
    requires OneEach(handed)
    ensures |HandedRecords(handed)| == |handed|
    ensures forall i | 0 <= i < |handed| :: HandedRecords(handed)[i] == RecordIn(handed[i])
  {
    if handed == [] {
    } else {
      OneRecordEach(handed[..|handed| - 1]);
      assert handed[|handed| - 1] in handed;
    }
  }

  /** Where the i-th call's rejection stands among the rejections. */
  lemma {:induction false} RejectAt(handed: seq<T.Handed>, i: nat) returns (a: nat)
    requires i < |handed| && handed[i].Rejected?
    ensures a == |T.Rejects(handed[..i])| < |T.Rejects(handed)| && T.Rejects(handed)[a] == handed[i].record
  {
    var n := |handed| - 1;
    if i < n {
      a := RejectAt(handed[..n], i);
      assert handed[..n][..i] == handed[..i];
    } else {
      a := |T.Rejects(handed[..n])|;
    }
  }

  lemma {:induction false} RejectFrom(handed: seq<T.Handed>, a: nat) returns (i: nat)
    requires a < |T.Rejects(handed)|
    ensures i < |handed| && handed[i].Rejected? && handed[i].record == T.Rejects(handed)[a]
  {
    var n := |handed| - 1;
    if a < |T.Rejects(handed[..n])| {
      i := RejectFrom(handed[..n], a);
    } else {
      i := n;
    }
  }

  /** In a complete log every finished call carries the batch parser's record of its group. */
  lemma FinishedIsParsed(lines: seq<Line>, h: T.Handed)
    requires Complete(lines) && h in T.Tail(lines).handed && h.Finished?
    ensures var g := Scan(lines); h.qid in g.groups && h.records == [RecordOf(h.qid, g.groups[h.qid], g.verdicts)]
  {
    T.TailMatchesScan(lines);
    assert T.FinishedMatches(h, Scan(lines), lines);
  }

  /** The place of a call's record in the parser's output. */
  lemma ParsedAt(lines: seq<Line>, i: nat) returns (p: nat)
    requires Complete(lines) && i < |T.Tail(lines).handed|
    ensures var h := T.Tail(lines).handed[i];
      && (h.Finished? ==> |h.records| == 1) && p < |Parse(lines)| && Parse(lines)[p] == RecordIn(h)
      && (h.Finished? ==> p < |Scan(lines).order| && Scan(lines).order[p] == h.qid)
      && (h.Rejected? ==> p == |Scan(lines).order| + |T.Rejects(T.Tail(lines).handed[..i])|)
  {
    var g, handed := Scan(lines), T.Tail(lines).handed;
    OrderCoversGroups(lines);
    if handed[i].Finished? {
      FinishedIsParsed(lines, handed[i]);
      p :| 0 <= p < |g.order| && g.order[p] == handed[i].qid;
    } else {
      T.TailMatchesScan(lines);
      var a := RejectAt(handed, i);
      p := |g.order| + a;
    }
  }

  lemma HandedIsParsed(lines: seq<Line>)
    requires Complete(lines)
    ensures OneEach(T.Tail(lines).handed)
    ensures forall r :: r in HandedRecords(T.Tail(lines).handed) <==> r in Parse(lines)
  {
    var handed := T.Tail(lines).handed;
    forall h | h in handed && h.Finished?
      ensures |h.records| == 1
    {
      FinishedIsParsed(lines, h);
    }
    OneRecordEach(handed);
    forall r | r in HandedRecords(handed)
      ensures r in Parse(lines)
    {
      var i :| 0 <= i < |handed| && HandedRecords(handed)[i] == r;
      var p := ParsedAt(lines, i);
    }
    forall p | 0 <= p < |Parse(lines)|
      ensures Parse(lines)[p] in HandedRecords(handed)
    {
      var i := HandedAt(lines, p);
      assert HandedRecords(handed)[i] == Parse(lines)[p];
    }
  }

  /** Every record of the parser is handed over by some call. */
  lemma HandedAt(lines: seq<Line>, p: nat) returns (i: nat)
    requires Complete(lines) && p < |Parse(lines)|
    ensures var handed := T.Tail(lines).handed;
      i < |handed| && (handed[i].Finished? ==> |handed[i].records| == 1) && RecordIn(handed[i]) == Parse(lines)[p]
  {
    var g, handed := Scan(lines), T.Tail(lines).handed;
    T.TailMatchesScan(lines);
    OrderCoversGroups(lines);
    if p < |g.order| {
      i := FinishedAt(lines, g.order[p]);
    } else {
      i := RejectFrom(handed, p - |g.order|);
    }
  }

  lemma FinishedAt(lines: seq<Line>, q: string) returns (i: nat)
    requires Complete(lines) && q in Scan(lines).groups
    ensures var g, handed := Scan(lines), T.Tail(lines).handed;
      i < |handed| && handed[i].Finished? && handed[i].records == [RecordOf(q, g.groups[q], g.verdicts)]
  {
    var handed := T.Tail(lines).handed;
    T.TailMatchesScan(lines);
    assert q !in T.Tail(lines).pending;
    var h :| h in handed && h.Finished? && h.qid == q;
    FinishedIsParsed(lines, h);
    i :| 0 <= i < |handed| && handed[i] == h;
  }

  // ---- from the log to the receiver ----

  /** Plain mail: no message names an onward id, and no two records share an id. */
  ghost predicate PlainLog(lines: seq<Line>) {
    && (forall r | r in Parse(lines) :: r.delivery == "")
    && (forall a, b | 0 <= a < b < |Parse(lines)| :: Parse(lines)[a].qid != Parse(lines)[b].qid)
  }

  lemma ParsedIsLocal(lines: seq<Line>, r: Record)
    requires r in Parse(lines)
    ensures r.origin == "" && !r.subsumed
  {
    OrderCoversGroups(lines);
    RejectsAreLocal(lines);
  }

  lemma {:induction false} RejectsAreLocal(lines: seq<Line>)
    ensures forall r | r in Scan(lines).rejects :: r.origin == "" && !r.subsumed
  {
    if lines == [] {
    } else {
      RejectsAreLocal(lines[..|lines| - 1]);
    }
  }

  lemma RejectsGrow(handed: seq<T.Handed>, i: nat, j: nat)
    requires i < j < |handed| && handed[i].Rejected?
    ensures |T.Rejects(handed[..i])| < |T.Rejects(handed[..j])|
  {
    assert handed[..j][..i] == handed[..i];
    var a := RejectAt(handed[..j], i);
  }

  lemma HandedIdsDiffer(lines: seq<Line>, i: nat, j: nat)
    requires Complete(lines) && PlainLog(lines) && i < j < |T.Tail(lines).handed|
    ensures OneEach(T.Tail(lines).handed)
    ensures RecordIn(T.Tail(lines).handed[i]).qid != RecordIn(T.Tail(lines).handed[j]).qid
  {
    HandedIsParsed(lines);
    T.TailMatchesScan(lines);
    var handed := T.Tail(lines).handed;
    var a := ParsedAt(lines, i);
    var b := ParsedAt(lines, j);
    if handed[i].Rejected? && handed[j].Rejected? {
      RejectsGrow(handed, i, j);
    }
    assert a != b;
  }

  lemma HandedIsPlain(lines: seq<Line>)
    requires Complete(lines) && PlainLog(lines)
    ensures PlainMail(HandedRecords(T.Tail(lines).handed))
  {
    var handed := T.Tail(lines).handed;
    var mail := HandedRecords(handed);
    HandedIsParsed(lines);
    OneRecordEach(handed);
    forall r | r in mail
      ensures r.origin == "" && r.delivery == "" && !r.subsumed
    {
      ParsedIsLocal(lines, r);
    }
    forall i, j | 0 <= i < j < |mail|
      ensures mail[i].qid != mail[j].qid
    {
      HandedIdsDiffer(lines, i, j);
    }
  }

  lemma {:induction false} StreamHoldsMail(events: seq<Event>)
    ensures forall r | r in MailOf(events) :: r in MailStream(events)
  {
    if events == [] {
    } else {
      var front, last := events[..|events| - 1], events[|events| - 1];
      StreamHoldsMail(front);
      forall r | r in MailOf(events)
        ensures r in MailStream(events)
      {
        var i, j :| 0 <= i < |events| && events[i].Mail? && 0 <= j < |events[i].records| && r == events[i].records[j];
        if i < |front| {
          assert front[i] == events[i] && r in MailOf(front);
        }
      }
    }
  }

  lemma {:induction false} NoVerdicts(events: seq<Event>)
    requires forall e | e in events :: e.Mail?
    ensures VerdictMap(events) == map[] && OneVerdictEach(events)
  {
    if events == [] {
    } else {
      NoVerdicts(events[..|events| - 1]);
      assert events[|events| - 1] in events;
    }
    assert forall i | 0 <= i < |events| :: events[i] in events;
  }

  /** Plain mail is stored row for row. */
  lemma PlainRows(events: seq<Event>)
    requires PlainMail(MailStream(events)) && forall e | e in events :: e.Mail?
    ensures Run(events).core.records == MailStream(events)
    ensures OnePrimary(MailOf(events)) && LocalMail(MailOf(events))
  {
    NoVerdicts(events);
    RunJoins(events);
    StreamHoldsMail(events);
    assert Rows(MailStream(events), map[]) == MailStream(events);
  }

  /** What a receiver has for one server is what the batch parser makes of its log. */
  ghost predicate ReceivedIsParsed(received: map<Key, Record>, lines: seq<Line>, origin: string) {
    && (forall q :: Key(origin, q) in received <==> exists r :: r in Parse(lines) && r.qid == q)
    && (forall r | r in Parse(lines) :: Key(origin, r.qid) in received && received[Key(origin, r.qid)] == Stamp(origin, r))
  }

  lemma RowsAreParsed(received: map<Key, Record>, c: Core, lines: seq<Line>, origin: string)
    requires RowForRow(received, c, origin) && PlainMail(c.records) && forall r :: r in c.records <==> r in Parse(lines)
    ensures ReceivedIsParsed(received, lines, origin)
  {
    forall q
      ensures Key(origin, q) in received <==> exists r :: r in Parse(lines) && r.qid == q
    {
      if Key("", q) in Keys(c) {
        var i :| 0 <= i < |c.records| && Keys(c)[i] == Key("", q);
        assert c.records[i] in c.records;
      }
      if r :| r in Parse(lines) && r.qid == q {
        var i :| 0 <= i < |c.records| && c.records[i] == r;
        assert Keys(c)[i] == Key("", q);
      }
    }
    forall r | r in Parse(lines)
      ensures Key(origin, r.qid) in received && received[Key(origin, r.qid)] == Stamp(origin, r)
    {
      var i :| 0 <= i < |c.records| && c.records[i] == r;
      assert !c.records[i].subsumed;
    }
  }

  /** Any complete log, tailed to its end, gives the store exactly the batch parser's records. */
  lemma StoreIsFedParsed(recv: Core, origin: string, moves: seq<Move>)
    requires OnlyLines(moves)
    requires var s := Moves(recv, origin, moves); |s.marks| == |s.lines| && Complete(s.lines)
    ensures var s := Moves(recv, origin, moves); forall r :: r in MailStream(s.events) <==> r in Parse(s.lines)
  {
    MovesFeed(recv, origin, moves);
    TailIsWhole(recv, origin, moves);
    HandedIsParsed(Moves(recv, origin, moves).lines);
  }

  /**
   From the log to the receiver: when a complete log of plain mail has been tailed to its
   end and everything is drained, then whatever the interleaving and whatever was lost or
   sent twice, a receiver that had nothing of this server has exactly the records the
   batch parser makes of the log, stamped with the server's name.
   */
  lemma LogReachesReceiver(recv: Core, origin: string, moves: seq<Move>)
    requires OnlyLines(moves) && Part(View(recv), origin) == map[]
    requires var s := Moves(recv, origin, moves);
      Drained(s) && |s.marks| == |s.lines| && Complete(s.lines) && PlainLog(s.lines)
    ensures var s := Moves(recv, origin, moves); ReceivedIsParsed(Part(View(s.recv), origin), s.lines, origin)
  {
    var s := Moves(recv, origin, moves);
    MovesFeed(recv, origin, moves);
    MovesSound(recv, origin, moves);
    TailIsWhole(recv, origin, moves);
    HandedIsPlain(s.lines);
    HandedIsParsed(s.lines);
    PlainRows(s.events);
    ReplicationAgrees(recv, origin, moves);
    RowsAreParsed(Part(View(s.recv), origin), s.store, s.lines, origin);
  }

  lemma TailIsWhole(recv: Core, origin: string, moves: seq<Move>)
    requires var s := Moves(recv, origin, moves); |s.marks| == |s.lines|
    ensures var s := Moves(recv, origin, moves); s.tail == T.Tail(s.lines)
  {
    C.MovesCut(recv, origin, moves);
    var s := Moves(recv, origin, moves);
    assert s.lines[..|s.marks|] == s.lines;
  }

  // ---- with onward ids ----

  lemma AddSnoc(c: Core, front: seq<Record>, r: Record)
    requires InRange(c)
    ensures Add(c, front + [r]).core == AddOne(Add(c, front).core, r).core
  {
    assert (front + [r])[..|front|] == front;
  }

  lemma AddLast(c: Core, a: seq<Record>, front: seq<Record>, r: Record)
    requires InRange(c) && Add(c, a + front).core == Add(Add(c, a).core, front).core
    ensures Add(c, (a + front) + [r]).core == Add(Add(c, a).core, front + [r]).core
  {
    AddSnoc(c, a + front, r);
    AddSnoc(Add(c, a).core, front, r);
  }

  lemma {:induction false} AddConcat(c: Core, a: seq<Record>, b: seq<Record>)
    requires InRange(c)
    ensures Add(c, a + b).core == Add(Add(c, a).core, b).core
  {
    if b == [] {
      assert a + b == a;
    } else {
      var front, r := b[..|b| - 1], b[|b| - 1];
      assert b == front + [r];
      Associates(a, front, [r]);
      AddConcat(c, a, front);
      AddLast(c, a, front, r);
    }
  }

  /** A store fed by mail alone is the store of all that mail in one batch. */
  lemma {:induction false} RunIsOneBatch(events: seq<Event>)
    requires forall e | e in events :: e.Mail?
    ensures Run(events).core == Add(EMPTY, MailStream(events)).core
  {
    if events == [] {
    } else {
      var front, last := events[..|events| - 1], events[|events| - 1];
      RunIsOneBatch(front);
      assert last in events;
      AddConcat(EMPTY, MailStream(front), last.records);
    }
  }

  /** Logs whose messages name at most one onward id each, no two the same, and none that of a message naming one itself. */
  ghost predicate LinkedLog(lines: seq<Line>) {
    var mail := set r | r in Parse(lines);
    OnePrimary(mail) && M.NoChains(mail) && OneOnward(mail)
  }

  lemma LinkedEvents(events: seq<Event>, lines: seq<Line>)
    requires LinkedLog(lines) && forall r | r in MailStream(events) :: r in Parse(lines)
    ensures var mail := MailOf(events); OnePrimary(mail) && M.NoChains(mail) && OneOnward(mail) && LocalMail(mail)
  {
    StreamHoldsMail(events);
    forall r | r in MailOf(events)
      ensures r in (set x | x in Parse(lines)) && r.origin == ""
    {
      ParsedIsLocal(lines, r);
    }
  }

  /**
   From the log to the receiver, with onward ids: the receiver has a row for every row of a
   store fed with the parser's records in the order in which their groups were removed, each
   listed one as it is; and it lists exactly what that store lists if and only if, in that
   order, no record came before the primary that names it.
   */
  lemma LinkedLogReachesReceiver(recv: Core, origin: string, moves: seq<Move>)
    requires OnlyLines(moves) && Part(View(recv), origin) == map[]
    requires var s := Moves(recv, origin, moves);
      Drained(s) && |s.marks| == |s.lines| && Complete(s.lines) && LinkedLog(s.lines)
    ensures var s := Moves(recv, origin, moves);
      var mail := HandedRecords(T.Tail(s.lines).handed);
      var c := Add(EMPTY, mail).core;
      && (forall r :: r in mail <==> r in Parse(s.lines))
      && RowForRow(Part(View(s.recv), origin), c, origin)
      && (SameRows(Part(View(s.recv), origin), View(c), origin) <==> !LegFirst(mail))
  {
    var s := Moves(recv, origin, moves);
    MovesFeed(recv, origin, moves);
    MovesSound(recv, origin, moves);
    TailIsWhole(recv, origin, moves);
    HandedIsParsed(s.lines);
    RunIsOneBatch(s.events);
    LinkedEvents(s.events, s.lines);
    ReplicationAgrees(recv, origin, moves);
    ReplicationAgreesIffOrdered(recv, origin, moves);
  }
}
