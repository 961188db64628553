/**
 The live tail: the same grouping done one line at a time, handing each message to
 the store when its queue id is removed. It is compared with the batch parser.
 */
module LiveTail {
  import opened Text
  import opened Records
  import opened Timeline
  import opened Parser

  /** One call to the store: a finalized group with its records, or a rejection. */
  datatype Handed =
    | Finished(qid: string, lines: seq<Line>, records: seq<Record>)
    | Rejected(record: Record)

  datatype Live = Live(
    pending: map<string, seq<Line>>,
    connect: Option<Line>, tls: Option<Line>,
    verdicts: map<string, Verdict>,
    handed: seq<Handed>)

  const STARTED := Live(map[], None, None, map[], [])

  /** Re-applies the verdicts collected so far to freshly parsed records. */
  function Correlate(records: seq<Record>, verdicts: map<string, Verdict>): seq<Record> {
    seq(|records|, i requires 0 <= i < |records| =>
      match VerdictFor(records[i].raw, verdicts)
      case Some(v) => EnrichFromVerdict(records[i], v)
      case None => records[i])
  }

  function Finalize(w: Live, qid: string): Live {
    if qid !in w.pending then w
    else
      var lines := w.pending[qid];
      w.(pending := w.pending - {qid},
         handed := w.handed + [Finished(qid, lines, Correlate(Parse(lines), w.verdicts))])
  }

  function Process(w: Live, line: Line): Live {
    match line.kind
    case ConnectLine => w.(connect := Some(line))
    case TlsLine => w.(tls := Some(line))
    case FilterLine(fid, hit) => w.(verdicts := AddVerdict(w.verdicts, fid, hit, line))
    case NoQueueLine(Some(hit)) => w.(handed := w.handed + [Rejected(RejectRecord(hit, line))])
    case NoQueueLine(None) => w
    case QueueLine(qid, removed) =>
      var opening := qid !in w.pending;
      var lines := (if opening then [] else w.pending[qid]) + Addition(opening, w.connect, w.tls, line);
      var held := w.(pending := w.pending[qid := lines], connect := if opening then None else w.connect, tls := None);
      if removed then Finalize(held, qid) else held
    case OtherLine => w
  }

  function Tail(lines: seq<Line>): Live {
    if lines == [] then STARTED else Process(Tail(lines[..|lines| - 1]), lines[|lines| - 1])
  }

  method CorrelateAll(parsed: seq<Record>, verdicts: map<string, Verdict>) returns (records: seq<Record>)
    ensures records == Correlate(parsed, verdicts)
  {
    records := [];
    for i := 0 to |parsed|
      invariant records == Correlate(parsed, verdicts)[..i]
    {
      var v := VerdictFor(parsed[i].raw, verdicts);
      records := records + [if v.Some? then EnrichFromVerdict(parsed[i], v.value) else parsed[i]];
    }
  }

  /** The watcher object; the store calls it makes are kept in order. */
  class Watcher {
    var pending: map<string, seq<Line>>
    var pendingConnect: Option<Line>
    var pendingTLS: Option<Line>
    var verdicts: map<string, Verdict>
    var verdictTS: map<string, Time>
    var handed: seq<Handed>

    function State(): Live
      reads this
    {
      Live(pending, pendingConnect, pendingTLS, verdicts, handed)
    }

    constructor ()
      ensures State() == STARTED && verdictTS == map[]
    {
      pending, pendingConnect, pendingTLS, verdicts, verdictTS, handed := map[], None, None, map[], map[], [];
    }

    method ProcessLine(line: Line)
      modifies this
      ensures State() == Process(old(State()), line)
      ensures verdictTS == if line.kind.FilterLine? then old(verdictTS)[line.kind.fid := line.time] else old(verdictTS)
    {
      match line.kind {
        case ConnectLine => pendingConnect := Some(line);
        case TlsLine => pendingTLS := Some(line);
        case FilterLine(fid, hit) =>
          verdicts := AddVerdict(verdicts, fid, hit, line);
          verdictTS := verdictTS[fid := line.time];
        case NoQueueLine(hit) =>
          if hit.Some? {
            handed := handed + [Rejected(RejectRecord(hit.value, line))];
          }
        case QueueLine(qid, removed) =>
          HoldLine(qid, line);
          if removed {
            FinalizeGroup(qid);
          }
        case OtherLine =>
      }
    }

    method HoldLine(qid: string, line: Line)
      modifies this`pending, this`pendingConnect, this`pendingTLS
      ensures var opening := qid !in old(pending);
        && pending == old(pending)[qid := (if opening then [] else old(pending[qid]))
                                          + Addition(opening, old(pendingConnect), old(pendingTLS), line)]
        && pendingConnect == (if opening then None else old(pendingConnect)) && pendingTLS == None
    {
      ghost var whole := (if qid !in pending then [] else pending[qid])
        + Addition(qid !in pending, pendingConnect, pendingTLS, line);
      var lines: seq<Line> := [];
      if qid in pending {
        lines := pending[qid];
      } else if pendingConnect.Some? {
        lines := lines + [pendingConnect.value];
        pendingConnect := None;
      }
      if pendingTLS.Some? {
        lines := lines + [pendingTLS.value];
        pendingTLS := None;
      }
      assert lines + [line] == whole;
      pending := pending[qid := lines + [line]];
    }

    method FinalizeGroup(qid: string)
      modifies this`pending, this`handed
      ensures State() == Finalize(old(State()), qid)
    {
      if qid !in pending {
        return;
      }
      var lines := pending[qid];
      pending := pending - {qid};
      var parsed := ParseLines(lines);
      var records := CorrelateAll(parsed, verdicts);
      handed := handed + [Finished(qid, lines, records)];
    }
  }

  // ---- what finalizing relies on ----

  lemma {:induction false} TailHeldKinds(lines: seq<Line>)
    ensures var w := Tail(lines); w.connect.Some? ==> w.connect.value.kind.ConnectLine?
    ensures var w := Tail(lines); w.tls.Some? ==> w.tls.value.kind.TlsLine?
  {
    if lines == [] {
    } else {
      TailHeldKinds(lines[..|lines| - 1]);
    }
  }

  /** After any lines at all, every pending group re-parses to exactly itself. */
  lemma {:induction false} PendingStandsAlone(lines: seq<Line>, q: string)
    requires q in Tail(lines).pending
    ensures StandsAlone(q, Tail(lines).pending[q])
  {
    var front, line := lines[..|lines| - 1], lines[|lines| - 1];
    var w := Tail(front);
    if q in w.pending {
      PendingStandsAlone(front, q);
    }
    if line.kind.QueueLine? && line.kind.qid == q {
      TailHeldKinds(front);
      QueueLineProcessed(w, line);
      NextStandsAlone(q, q in w.pending, if q in w.pending then w.pending[q] else [], w.connect, w.tls, line);
    }
  }

  /** Every pending group is parsed, alone, to the one record it stands for. */
  lemma PendingReparses(lines: seq<Line>, q: string)
    requires q in Tail(lines).pending
    ensures Parse(Tail(lines).pending[q]) == [RecordOf(q, Tail(lines).pending[q], map[])]
    ensures var r := RecordOf(q, Tail(lines).pending[q], map[]); r.qid == q && r.raw == Tail(lines).pending[q]
  {
    PendingStandsAlone(lines, q);
    Regroup(q, Tail(lines).pending[q]);
  }

  // ---- the live tail against the batch parser ----

  predicate RemovesAt(lines: seq<Line>, i: nat, qid: string)
    requires i < |lines|
  {
    lines[i].kind == QueueLine(qid, true)
  }

  ghost predicate Removed(lines: seq<Line>, qid: string) {
    exists i | 0 <= i < |lines| :: RemovesAt(lines, i, qid)
  }

  predicate MentionsAt(lines: seq<Line>, j: nat, qid: string)
    requires j < |lines|
  {
    lines[j].kind.QueueLine? && lines[j].kind.qid == qid
  }

  /** No queue id is heard of again after a line that removes it. */
  ghost predicate QuietAfterRemoval(lines: seq<Line>) {
    forall i, j, q | 0 <= i < j < |lines| && RemovesAt(lines, i, q) :: !MentionsAt(lines, j, q)
  }

  /** No filter line of the session a message was handed to follows the message's removal. */
  ghost predicate FilterSettled(lines: seq<Line>, qid: string, session: string) {
    session != "" ==>
    forall i, j | 0 <= i < j < |lines| && RemovesAt(lines, i, qid) && lines[j].kind.FilterLine? :: lines[j].kind.fid != session
  }

  function Rejects(handed: seq<Handed>): seq<Record> {
    if handed == [] then []
    else
      var front, last := Rejects(handed[..|handed| - 1]), handed[|handed| - 1];
      if last.Rejected? then front + [last.record] else front
  }

  /** Every group is either pending or was handed over, exactly as the batch parser groups it. */
  ghost predicate GroupsAgree(lines: seq<Line>) {
    var w, g := Tail(lines), Scan(lines);
    && (forall q | q in w.pending :: q in g.groups && w.pending[q] == g.groups[q])
    && (forall h | h in w.handed && h.Finished? :: h.qid in g.groups && h.lines == g.groups[h.qid])
    && (forall q | q in g.groups :: q in w.pending || exists h :: h in w.handed && h.Finished? && h.qid == q)
  }

  /** What is still held back is what the batch parser holds, group by group. */
  ghost predicate HeldMatches(w: Live, g: Groups, lines: seq<Line>) {
    && w.connect == g.connect && w.tls == g.tls && w.verdicts == g.verdicts
    && (forall q :: q in w.pending <==> q in g.groups && !Removed(lines, q))
    && (forall q | q in w.pending :: w.pending[q] == g.groups[q])
  }

  /** The removed queue ids are handed over, each exactly once. */
  ghost predicate HandsOverOnce(handed: seq<Handed>, lines: seq<Line>) {
    && (forall h | h in handed && h.Finished? :: Removed(lines, h.qid))
    && (forall q | Removed(lines, q) :: exists h :: h in handed && h.Finished? && h.qid == q)
    && (forall i, j | 0 <= i < j < |handed| && handed[i].Finished? && handed[j].Finished? :: handed[i].qid != handed[j].qid)
  }

  ghost predicate AllFinishedMatch(handed: seq<Handed>, g: Groups, lines: seq<Line>) {
    forall h | h in handed && h.Finished? :: FinishedMatches(h, g, lines)
  }

  ghost predicate FinishedMatches(h: Handed, g: Groups, lines: seq<Line>)
    requires h.Finished?
  {
    && h.qid in g.groups && h.lines == g.groups[h.qid]
    && (FilterSettled(lines, h.qid, First(h.lines, Handoff)) ==> h.records == [RecordOf(h.qid, h.lines, g.verdicts)])
  }

  /** Finalizing a group that stands alone gives the record the batch parser would build with those verdicts. */
  lemma FinalizedRecord(qid: string, lines: seq<Line>, verdicts: map<string, Verdict>)
    requires StandsAlone(qid, lines)
    ensures Correlate(Parse(lines), verdicts) == [RecordOf(qid, lines, verdicts)]
  {
    Regroup(qid, lines);
    var plain := PlainRecord(qid, lines);
    var parsed := plain.(disposition := DeriveDisposition(plain));
    assert Parse(lines) == [parsed];
    if VerdictFor(lines, verdicts).Some? {
      var v := VerdictFor(lines, verdicts).value;
      EnrichIgnoresDisposition(plain, parsed.disposition, v);
    }
  }

  lemma EnrichIgnoresDisposition(r: Record, d: string, v: Verdict)
    ensures EnrichFromVerdict(r.(disposition := d), v) == EnrichFromVerdict(r, v)
  {
  }

  lemma RemovedExtends(front: seq<Line>, line: Line)
    ensures forall q :: Removed(front + [line], q) <==> Removed(front, q) || line.kind == QueueLine(q, true)
  {
    var lines := front + [line];
    forall q
      ensures Removed(lines, q) <==> Removed(front, q) || line.kind == QueueLine(q, true)
    {
      if i :| 0 <= i < |front| && RemovesAt(front, i, q) {
        assert RemovesAt(lines, i, q);
      }
      if line.kind == QueueLine(q, true) {
        assert RemovesAt(lines, |front|, q);
      }
      if i :| 0 <= i < |lines| && RemovesAt(lines, i, q) {
        assert i < |front| ==> RemovesAt(front, i, q);
      }
    }
  }

  lemma QuietFront(front: seq<Line>, line: Line)
    requires QuietAfterRemoval(front + [line])
    ensures QuietAfterRemoval(front)
    ensures line.kind.QueueLine? ==> !Removed(front, line.kind.qid)
  {
    var lines := front + [line];
    forall i, j, q | 0 <= i < j < |front| && RemovesAt(front, i, q)
      ensures !MentionsAt(front, j, q)
    {
      assert RemovesAt(lines, i, q) && !MentionsAt(lines, j, q);
    }
    if line.kind.QueueLine? && Removed(front, line.kind.qid) {
      var i :| 0 <= i < |front| && RemovesAt(front, i, line.kind.qid);
      assert RemovesAt(lines, i, line.kind.qid) && MentionsAt(lines, |front|, line.kind.qid);
    }
  }

  lemma SettledFront(front: seq<Line>, line: Line, qid: string, session: string)
    requires FilterSettled(front + [line], qid, session) && Removed(front, qid)
    ensures FilterSettled(front, qid, session)
    ensures session != "" && line.kind.FilterLine? ==> line.kind.fid != session
  {
    var lines := front + [line];
    if session != "" {
      forall i, j | 0 <= i < j < |front| && RemovesAt(front, i, qid) && front[j].kind.FilterLine?
        ensures front[j].kind.fid != session
      {
        assert RemovesAt(lines, i, qid) && lines[j] == front[j];
      }
      var i :| 0 <= i < |front| && RemovesAt(front, i, qid);
      assert RemovesAt(lines, i, qid) && lines[|front|] == line;
    }
  }

  /** A group already handed over still matches after one more line that does not mention it. */
  lemma FinishedStays(h: Handed, front: seq<Line>, line: Line)
    requires h.Finished? && Removed(front, h.qid) && FinishedMatches(h, Scan(front), front)
    requires line.kind.QueueLine? ==> line.kind.qid != h.qid
    ensures FinishedMatches(h, AddLine(Scan(front), line), front + [line])
  {
    var session := First(h.lines, Handoff);
    if FilterSettled(front + [line], h.qid, session) {
      SettledFront(front, line, h.qid, session);
      VerdictStays(h.lines, Scan(front), line);
      SameVerdictSameRecord(h.qid, h.lines, Scan(front).verdicts, AddLine(Scan(front), line).verdicts);
    }
  }

  lemma VerdictStays(lines: seq<Line>, g: Groups, line: Line)
    requires First(lines, Handoff) != "" && line.kind.FilterLine? ==> line.kind.fid != First(lines, Handoff)
    ensures VerdictFor(lines, AddLine(g, line).verdicts) == VerdictFor(lines, g.verdicts)
  {
  }

  lemma SameVerdictSameRecord(qid: string, lines: seq<Line>, v: map<string, Verdict>, w: map<string, Verdict>)
    requires VerdictFor(lines, v) == VerdictFor(lines, w)
    ensures RecordOf(qid, lines, v) == RecordOf(qid, lines, w)
  {
  }

  lemma AllFinishedStay(handed: seq<Handed>, front: seq<Line>, line: Line)
    requires AllFinishedMatch(handed, Scan(front), front) && HandsOverOnce(handed, front)
    requires QuietAfterRemoval(front + [line])
    ensures AllFinishedMatch(handed, AddLine(Scan(front), line), front + [line])
  {
    QuietFront(front, line);
    forall h | h in handed && h.Finished?
      ensures FinishedMatches(h, AddLine(Scan(front), line), front + [line])
    {
      FinishedStays(h, front, line);
    }
  }

  /** What a queue-id line leaves in the watcher. */
  ghost predicate QueueLineEffect(w: Live, w': Live, line: Line)
    requires line.kind.QueueLine?
  {
    var q, opening := line.kind.qid, line.kind.qid !in w.pending;
    var lines := (if opening then [] else w.pending[q]) + Addition(opening, w.connect, w.tls, line);
    && w'.connect == (if opening then None else w.connect) && w'.tls == None && w'.verdicts == w.verdicts
    && w'.pending == (if line.kind.removed then w.pending - {q} else w.pending[q := lines])
    && (line.kind.removed ==> w'.handed == w.handed + [Finished(q, lines, Correlate(Parse(lines), w.verdicts))])
    && (!line.kind.removed ==> w'.handed == w.handed)
  }

  lemma QueueLineProcessed(w: Live, line: Line)
    requires line.kind.QueueLine?
    ensures QueueLineEffect(w, Process(w, line), line)
  {
    var q := line.kind.qid;
    var opening := q !in w.pending;
    var lines := (if opening then [] else w.pending[q]) + Addition(opening, w.connect, w.tls, line);
    assert w.pending[q := lines] - {q} == w.pending - {q};
  }

  lemma QueueLineHeld(w: Live, w': Live, g: Groups, front: seq<Line>, line: Line)
    requires HeldMatches(w, g, front)
    requires line.kind.QueueLine? && !Removed(front, line.kind.qid) && QueueLineEffect(w, w', line)
    ensures HeldMatches(w', AddLine(g, line), front + [line])
  {
    RemovedExtends(front, line);
    var q := line.kind.qid;
    assert q in w.pending <==> q in g.groups;
    assert forall k | k != q :: k in w'.pending <==> k in w.pending;
    forall k
      ensures k in w'.pending <==> k in AddLine(g, line).groups && !Removed(front + [line], k)
    {
      assert k != q ==> (k in AddLine(g, line).groups <==> k in g.groups);
    }
  }

  lemma OtherLineHeld(w: Live, g: Groups, front: seq<Line>, line: Line)
    requires HeldMatches(w, g, front) && !line.kind.QueueLine?
    ensures HeldMatches(Process(w, line), AddLine(g, line), front + [line])
  {
    RemovedExtends(front, line);
    assert Process(w, line).pending == w.pending && AddLine(g, line).groups == g.groups;
    forall q
      ensures q in w.pending <==> q in g.groups && !Removed(front + [line], q)
    {
      assert Removed(front + [line], q) <==> Removed(front, q);
    }
  }

  lemma HeldStaysMatched(w: Live, front: seq<Line>, line: Line)
    requires HeldMatches(w, Scan(front), front)
    requires QuietAfterRemoval(front + [line])
    ensures HeldMatches(Process(w, line), AddLine(Scan(front), line), front + [line])
  {
    QuietFront(front, line);
    if line.kind.QueueLine? {
      QueueLineProcessed(w, line);
      QueueLineHeld(w, Process(w, line), Scan(front), front, line);
    } else {
      OtherLineHeld(w, Scan(front), front, line);
    }
  }

  /** What processing one line hands over, in terms of the batch parser's groups. */
  function HandedBy(g: Groups, line: Line): seq<Handed> {
    match line.kind
    case QueueLine(q, removed) =>
      if removed && q in g.groups then [Finished(q, g.groups[q], [RecordOf(q, g.groups[q], g.verdicts)])] else []
    case NoQueueLine(Some(hit)) => [Rejected(RejectRecord(hit, line))]
    case _ => []
  }

  lemma QueueLineHandsOver(w: Live, w': Live, front: seq<Line>, line: Line)
    requires HeldMatches(w, Scan(front), front)
    requires line.kind.QueueLine? && !Removed(front, line.kind.qid) && QueueLineEffect(w, w', line)
    ensures w'.handed == w.handed + HandedBy(Scan(front + [line]), line)
  {
    ScanConcat(front, line);
    QueueLineGroup(w, Scan(front), front, line);
    GroupStandsAlone(front + [line], line.kind.qid);
    GroupHandedOver(w, w', Scan(front + [line]), line);
  }

  lemma GroupHandedOver(w: Live, w': Live, g: Groups, line: Line)
    requires line.kind.QueueLine? && QueueLineEffect(w, w', line) && g.verdicts == w.verdicts
    requires var q, opening := line.kind.qid, line.kind.qid !in w.pending;
      && q in g.groups && StandsAlone(q, g.groups[q])
      && g.groups[q] == (if opening then [] else w.pending[q]) + Addition(opening, w.connect, w.tls, line)
    ensures w'.handed == w.handed + HandedBy(g, line)
  {
    FinalizedRecord(line.kind.qid, g.groups[line.kind.qid], g.verdicts);
  }

  /** The lines handed over with a queue id are the batch parser's group. */
  lemma QueueLineGroup(w: Live, g: Groups, front: seq<Line>, line: Line)
    requires HeldMatches(w, g, front) && line.kind.QueueLine? && !Removed(front, line.kind.qid)
    ensures var q, opening := line.kind.qid, line.kind.qid !in w.pending;
      && AddLine(g, line).verdicts == w.verdicts
      && AddLine(g, line).groups[q] == (if opening then [] else w.pending[q]) + Addition(opening, w.connect, w.tls, line)
  {
    assert line.kind.qid in w.pending <==> line.kind.qid in g.groups;
  }

  lemma HandsOver(w: Live, front: seq<Line>, line: Line)
    requires HeldMatches(w, Scan(front), front)
    requires QuietAfterRemoval(front + [line])
    ensures Process(w, line).handed == w.handed + HandedBy(Scan(front + [line]), line)
  {
    if line.kind.QueueLine? {
      QuietFront(front, line);
      QueueLineProcessed(w, line);
      QueueLineHandsOver(w, Process(w, line), front, line);
    }
  }

  lemma HandsOverOnceMore(handed: seq<Handed>, front: seq<Line>, line: Line)
    requires HandsOverOnce(handed, front) && QuietAfterRemoval(front + [line])
    ensures HandsOverOnce(handed + HandedBy(Scan(front + [line]), line), front + [line])
  {
    ScanConcat(front, line);
    QuietFront(front, line);
    RemovedExtends(front, line);
    AllRemovedHanded(handed, front, line);
    HandedIdsStayApart(handed, HandedBy(Scan(front + [line]), line), front);
  }

  lemma AllRemovedHanded(handed: seq<Handed>, front: seq<Line>, line: Line)
    requires HandsOverOnce(handed, front)
    ensures var more := handed + HandedBy(Scan(front + [line]), line);
      forall q | Removed(front + [line], q) :: exists h :: h in more && h.Finished? && h.qid == q
  {
    ScanConcat(front, line);
    RemovedExtends(front, line);
    var g := Scan(front + [line]);
    var more := handed + HandedBy(g, line);
    forall q | Removed(front + [line], q)
      ensures exists h :: h in more && h.Finished? && h.qid == q
    {
      if Removed(front, q) {
        var h :| h in handed && h.Finished? && h.qid == q;
        assert h in more;
      } else {
        LastHanded(handed, g, line, q);
      }
    }
  }

  lemma HandedIdsStayApart(handed: seq<Handed>, more: seq<Handed>, front: seq<Line>)
    requires HandsOverOnce(handed, front) && |more| <= 1
    requires forall h | h in more && h.Finished? :: !Removed(front, h.qid)
    ensures var all := handed + more;
      forall i, j | 0 <= i < j < |all| && all[i].Finished? && all[j].Finished? :: all[i].qid != all[j].qid
  {
    var all := handed + more;
    forall i, j | 0 <= i < j < |all| && all[i].Finished? && all[j].Finished?
      ensures all[i].qid != all[j].qid
    {
      assert all[i] in handed;
      assert j >= |handed| ==> all[j] in more;
    }
  }

  /** A removal hands its queue id over last. */
  lemma LastHanded(handed: seq<Handed>, g: Groups, line: Line, q: string)
    requires line.kind == QueueLine(q, true) && q in g.groups
    ensures exists h :: h in handed + HandedBy(g, line) && h.Finished? && h.qid == q
  {
    var more := handed + HandedBy(g, line);
    assert more[|handed|] in more;
  }

  lemma RejectsExtend(handed: seq<Handed>, more: seq<Handed>)
    requires |more| <= 1
    ensures Rejects(handed + more) == Rejects(handed) + (if more != [] && more[0].Rejected? then [more[0].record] else [])
  {
    if more == [] {
      assert handed + more == handed;
    } else {
      assert (handed + more)[..|handed|] == handed;
    }
  }

  /**
   Live and batch parsing agree, group by group and rejection by rejection; a handed
   record equals the batch record when its session's filter lines precede its removal.
   */
  lemma {:induction false} TailMatchesScan(lines: seq<Line>)
    requires QuietAfterRemoval(lines)
    ensures HeldMatches(Tail(lines), Scan(lines), lines)
    ensures Rejects(Tail(lines).handed) == Scan(lines).rejects
    ensures HandsOverOnce(Tail(lines).handed, lines)
    ensures AllFinishedMatch(Tail(lines).handed, Scan(lines), lines)
  {
    if lines == [] {
    } else {
      var front, line := lines[..|lines| - 1], lines[|lines| - 1];
      assert lines == front + [line];
      QuietFront(front, line);
      TailMatchesScan(front);
      NextMatches(Tail(front), front, line);
    }
  }

  lemma NextMatches(w: Live, front: seq<Line>, line: Line)
    requires QuietAfterRemoval(front + [line]) && HeldMatches(w, Scan(front), front) && HandsOverOnce(w.handed, front)
    requires Rejects(w.handed) == Scan(front).rejects && AllFinishedMatch(w.handed, Scan(front), front)
    ensures var w', lines := Process(w, line), front + [line];
      && HeldMatches(w', Scan(lines), lines) && HandsOverOnce(w'.handed, lines)
      && Rejects(w'.handed) == Scan(lines).rejects && AllFinishedMatch(w'.handed, Scan(lines), lines)
  {
    ScanConcat(front, line);
    HeldStaysMatched(w, front, line);
    HandsOver(w, front, line);
    RejectsMatch(w.handed, front, line);
    HandsOverOnceMore(w.handed, front, line);
    FinishedMatch(w.handed, front, line);
  }

  lemma RejectsMatch(handed: seq<Handed>, front: seq<Line>, line: Line)
    requires Rejects(handed) == Scan(front).rejects
    ensures Rejects(handed + HandedBy(Scan(front + [line]), line)) == Scan(front + [line]).rejects
  {
    ScanConcat(front, line);
    RejectsExtend(handed, HandedBy(Scan(front + [line]), line));
  }

  lemma FinishedMatch(handed: seq<Handed>, front: seq<Line>, line: Line)
    requires QuietAfterRemoval(front + [line]) && HandsOverOnce(handed, front)
    requires AllFinishedMatch(handed, Scan(front), front)
    ensures var lines := front + [line]; AllFinishedMatch(handed + HandedBy(Scan(lines), line), Scan(lines), lines)
  {
    ScanConcat(front, line);
    AllFinishedStay(handed, front, line);
    NewlyFinishedMatches(front + [line], line);
    BothMatch(handed, HandedBy(Scan(front + [line]), line), Scan(front + [line]), front + [line]);
  }

  lemma BothMatch(a: seq<Handed>, b: seq<Handed>, g: Groups, lines: seq<Line>)
    requires AllFinishedMatch(a, g, lines) && AllFinishedMatch(b, g, lines)
    ensures AllFinishedMatch(a + b, g, lines)
  {
  }

  lemma NewlyFinishedMatches(lines: seq<Line>, line: Line)
    ensures AllFinishedMatch(HandedBy(Scan(lines), line), Scan(lines), lines)
  {
  }

  // ---- the hypotheses are exact ----

  /** A handed-over group that the batch parser went on to extend. */
  ghost predicate LeftShort(h: Handed, handed: seq<Handed>, g: Groups) {
    h in handed && h.Finished? && h.qid in g.groups && |h.lines| < |g.groups[h.qid]|
  }

  lemma LateMention(front: seq<Line>, line: Line)
    requires QuietAfterRemoval(front) && !QuietAfterRemoval(front + [line])
    ensures line.kind.QueueLine? && Removed(front, line.kind.qid)
  {
    var lines := front + [line];
    var i, j, q :| 0 <= i < j < |lines| && RemovesAt(lines, i, q) && MentionsAt(lines, j, q);
    assert RemovesAt(front, i, q) && (j < |front| ==> MentionsAt(front, j, q));
  }

  lemma GroupGrows(g: Groups, line: Line)
    requires line.kind.QueueLine? && line.kind.qid in g.groups
    ensures line.kind.qid in AddLine(g, line).groups
    ensures |g.groups[line.kind.qid]| < |AddLine(g, line).groups[line.kind.qid]|
  {
  }

  lemma FirstLateLine(front: seq<Line>, line: Line) returns (h: Handed)
    requires QuietAfterRemoval(front) && !QuietAfterRemoval(front + [line])
    ensures LeftShort(h, Tail(front).handed, AddLine(Scan(front), line))
  {
    LateMention(front, line);
    TailMatchesScan(front);
    h :| h in Tail(front).handed && h.Finished? && h.qid == line.kind.qid;
    assert FinishedMatches(h, Scan(front), front);
    GroupGrows(Scan(front), line);
  }

  lemma StaysShort(h: Handed, w: Live, g: Groups, line: Line)
    requires LeftShort(h, w.handed, g)
    ensures LeftShort(h, Process(w, line).handed, AddLine(g, line))
  {
    HandedGrows(w, line);
  }

  /** A queue id heard of after its removal leaves the handed-over group short of the batch group. */
  lemma {:induction false} LateLineDisagrees(lines: seq<Line>) returns (h: Handed)
    requires !QuietAfterRemoval(lines)
    ensures LeftShort(h, Tail(lines).handed, Scan(lines))
  {
    var front, line := lines[..|lines| - 1], lines[|lines| - 1];
    assert lines == front + [line];
    if QuietAfterRemoval(front) {
      h := FirstLateLine(front, line);
      HandedGrows(Tail(front), line);
    } else {
      h := LateLineDisagrees(front);
      StaysShort(h, Tail(front), Scan(front), line);
    }
  }

  lemma HandedGrows(w: Live, line: Line)
    ensures w.handed <= Process(w, line).handed
  {
    if line.kind.QueueLine? {
      QueueLineProcessed(w, line);
    }
  }

  /** The two groupings agree exactly when no queue id is heard of after its removal. */
  lemma GroupsAgreeIffQuiet(lines: seq<Line>)
    ensures GroupsAgree(lines) <==> QuietAfterRemoval(lines)
  {
    if QuietAfterRemoval(lines) {
      TailMatchesScan(lines);
    } else {
      var h := LateLineDisagrees(lines);
    }
  }

  predicate AllIn(some: seq<Line>, lines: seq<Line>) {
    forall l | l in some :: l in lines
  }

  ghost predicate OnlyRead(g: Groups, lines: seq<Line>) {
    && AllIn(Held(g.connect), lines) && AllIn(Held(g.tls), lines)
    && (forall q | q in g.groups :: AllIn(g.groups[q], lines))
    && (forall f | f in g.verdicts :: AllIn(g.verdicts[f].raw, lines))
  }

  lemma StillRead(g: Groups, front: seq<Line>, line: Line)
    requires OnlyRead(g, front)
    ensures OnlyRead(g, front + [line]) && line in front + [line]
  {
    forall q | q in g.groups
      ensures AllIn(g.groups[q], front + [line])
    {
      assert AllIn(g.groups[q], front);
    }
    forall f | f in g.verdicts
      ensures AllIn(g.verdicts[f].raw, front + [line])
    {
      assert AllIn(g.verdicts[f].raw, front);
    }
  }

  lemma NextGroupsRead(g: Groups, lines: seq<Line>, line: Line)
    requires OnlyRead(g, lines) && line in lines
    ensures forall q | q in AddLine(g, line).groups :: AllIn(AddLine(g, line).groups[q], lines)
  {
    forall q | q in AddLine(g, line).groups
      ensures AllIn(AddLine(g, line).groups[q], lines)
    {
      assert q in g.groups ==> AllIn(g.groups[q], lines);
    }
  }

  lemma NextVerdictsRead(g: Groups, lines: seq<Line>, line: Line)
    requires OnlyRead(g, lines) && line in lines
    ensures forall f | f in AddLine(g, line).verdicts :: AllIn(AddLine(g, line).verdicts[f].raw, lines)
  {
    forall f | f in AddLine(g, line).verdicts
      ensures AllIn(AddLine(g, line).verdicts[f].raw, lines)
    {
      assert f in g.verdicts ==> AllIn(g.verdicts[f].raw, lines);
    }
  }

  lemma NextRead(g: Groups, lines: seq<Line>, line: Line)
    requires OnlyRead(g, lines) && line in lines
    ensures OnlyRead(AddLine(g, line), lines)
  {
    NextGroupsRead(g, lines, line);
    NextVerdictsRead(g, lines, line);
  }

  /** Nothing is accumulated that was not read. */
  lemma {:induction false} OnlyLinesRead(lines: seq<Line>)
    ensures OnlyRead(Scan(lines), lines)
  {
    if lines == [] {
    } else {
      var front, line := lines[..|lines| - 1], lines[|lines| - 1];
      OnlyLinesRead(front);
      assert lines == front + [line];
      StillRead(Scan(front), front, line);
      NextRead(Scan(front), lines, line);
    }
  }

  lemma RecordLines(qid: string, lines: seq<Line>, verdicts: map<string, Verdict>)
    ensures var raw := RecordOf(qid, lines, verdicts).raw; match VerdictFor(lines, verdicts)
      case Some(v) => forall l :: l in raw <==> l in lines || l in v.raw
      case None => raw == lines
  {
    if VerdictFor(lines, verdicts).Some? {
      TimelineIsStable(lines + VerdictFor(lines, verdicts).value.raw);
    }
  }

  /** A handed record shows only lines read so far, and misses a line of its session that came too late. */
  ghost predicate MissesLateLines(h: Handed, g: Groups, lines: seq<Line>)
    requires h.Finished?
  {
    var session := First(h.lines, Handoff);
    && |h.records| == 1 && AllIn(h.records[0].raw, lines)
    && (!FilterSettled(lines, h.qid, session) ==>
          session in g.verdicts && exists l :: l in g.verdicts[session].raw && l !in h.records[0].raw)
  }

  /** No filter line of the session is a literal repeat of an earlier one. */
  ghost predicate NeverRepeated(lines: seq<Line>, session: string) {
    forall i, j | 0 <= i < j < |lines| && lines[j].kind.FilterLine? && lines[j].kind.fid == session :: lines[i] != lines[j]
  }

  lemma NeverRepeatedFront(front: seq<Line>, line: Line, session: string)
    requires NeverRepeated(front + [line], session)
    ensures NeverRepeated(front, session)
    ensures line.kind.FilterLine? && line.kind.fid == session ==> line !in front
  {
    var lines := front + [line];
    assert lines[|front|] == line;
    forall i, j | 0 <= i < j < |front| && front[j].kind.FilterLine? && front[j].kind.fid == session
      ensures front[i] != front[j]
    {
      assert lines[i] == front[i] && lines[j] == front[j];
    }
    forall i | 0 <= i < |front| && line.kind.FilterLine? && line.kind.fid == session
      ensures front[i] != line
    {
      assert lines[i] == front[i];
    }
  }

  lemma StillMisses(h: Handed, front: seq<Line>, line: Line)
    requires h.Finished? && MissesLateLines(h, Scan(front), front)
    requires line.kind.FilterLine? && line.kind.fid == First(h.lines, Handoff) ==> line !in front
    requires line.kind.QueueLine? ==> line.kind.qid != h.qid
    ensures MissesLateLines(h, AddLine(Scan(front), line), front + [line])
  {
    var session, g := First(h.lines, Handoff), Scan(front);
    var g' := AddLine(g, line);
    if !FilterSettled(front + [line], h.qid, session) {
      if FilterSettled(front, h.qid, session) {
        var i, j :| 0 <= i < j < |front + [line]| && RemovesAt(front + [line], i, h.qid)
                    && (front + [line])[j].kind.FilterLine? && (front + [line])[j].kind.fid == session;
        assert RemovesAt(front, i, h.qid);
        assert j == |front|;
        assert line in g'.verdicts[session].raw;
      } else {
        var l :| l in g.verdicts[session].raw && l !in h.records[0].raw;
        assert l in g'.verdicts[session].raw;
      }
    }
  }

  lemma {:induction false} LateLinesMissed(lines: seq<Line>, h: Handed)
    requires QuietAfterRemoval(lines)
    requires h in Tail(lines).handed && h.Finished? && NeverRepeated(lines, First(h.lines, Handoff))
    ensures MissesLateLines(h, Scan(lines), lines)
  {
    var front, line := lines[..|lines| - 1], lines[|lines| - 1];
    assert lines == front + [line];
    QuietFront(front, line);
    TailMatchesScan(front);
    HandsOver(Tail(front), front, line);
    if h in Tail(front).handed {
      NeverRepeatedFront(front, line, First(h.lines, Handoff));
      LateLinesMissed(front, h);
      assert Removed(front, h.qid);
      StillMisses(h, front, line);
    } else {
      JustFinished(h, front, line);
    }
  }

  lemma JustFinished(h: Handed, front: seq<Line>, line: Line)
    requires QuietAfterRemoval(front + [line])
    requires h in HandedBy(Scan(front + [line]), line) && h.Finished?
    ensures MissesLateLines(h, Scan(front + [line]), front + [line])
  {
    var lines := front + [line];
    QuietFront(front, line);
    OnlyLinesRead(lines);
    RecordLines(h.qid, h.lines, Scan(lines).verdicts);
    forall i | 0 <= i < |front|
      ensures !RemovesAt(lines, i, h.qid)
    {
      assert RemovesAt(front, i, h.qid) == RemovesAt(lines, i, h.qid);
    }
    assert FilterSettled(lines, h.qid, First(h.lines, Handoff));
  }

  /** Unless its session repeats a line, a handed record equals the batch record exactly when the session had settled. */
  lemma RecordAgreesIffSettled(lines: seq<Line>, h: Handed)
    requires QuietAfterRemoval(lines)
    requires h in Tail(lines).handed && h.Finished? && NeverRepeated(lines, First(h.lines, Handoff))
    ensures h.records == [RecordOf(h.qid, h.lines, Scan(lines).verdicts)]
      <==> FilterSettled(lines, h.qid, First(h.lines, Handoff))
  {
    TailMatchesScan(lines);
    assert FinishedMatches(h, Scan(lines), lines);
    LateLinesMissed(lines, h);
    RecordLines(h.qid, h.lines, Scan(lines).verdicts);
  }

  // ---- inputs on which the two disagree ----

  /** A line after the removal: the watcher starts a second group, the batch parser extends the first. */
  lemma LineAfterRemoval(gone: Line, late: Line)
    requires gone.kind == QueueLine("A", true) && late.kind == QueueLine("A", false)
    ensures Tail([gone, late]).pending == map["A" := [late]] && Scan([gone, late]).groups == map["A" := [gone, late]]
    ensures !GroupsAgree([gone, late])
  {
    TwoLines(gone, late);
    assert [] + Addition(true, None, None, gone) == [gone];
    assert [] + Addition(true, None, None, late) == [late];
    assert [gone] + Addition(false, None, None, late) == [gone, late];
    var held := STARTED.(pending := map["A" := [gone]]);
    assert Process(STARTED, gone) == Finalize(held, "A");
    assert held.pending - {"A"} == map[];
  }

  lemma TwoLines(a: Line, b: Line)
    ensures Tail([a]) == Process(STARTED, a) && Tail([a, b]) == Process(Tail([a]), b)
    ensures Scan([a]) == AddLine(NO_GROUPS, a) && Scan([a, b]) == AddLine(Scan([a]), b)
  {
    assert [a][..0] == [] && [a, b][..1] == [a];
  }

  /** A filter line after the removal: the verdict is in the batch record only. */
  lemma FilterLineAfterRemoval(gone: Line, late: Line)
    requires gone.kind == QueueLine("A", true) && gone.hits.texts == map[Handoff := "F"]
    requires late.kind == FilterLine("F", FilterHit("", "block", "blocked", "", "", ""))
    ensures |Tail([gone, late]).handed| == 1 && Tail([gone, late]).handed[0].Finished?
    ensures Tail([gone, late]).handed[0].records == [RecordOf("A", [gone], map[])]
    ensures |Parse([gone, late])| == 1 && Parse([gone, late])[0].disposition == "blocked"
    ensures Parse([gone, late])[0].filter == "pmg-smtp-filter" && RecordOf("A", [gone], map[]).filter == ""
  {
    TwoLines(gone, late);
    assert [] + Addition(true, None, None, gone) == [gone];
    GroupStandsAlone([gone], "A");
    FinalizedRecord("A", [gone], map[]);
    var held := STARTED.(pending := map["A" := [gone]]);
    assert Process(STARTED, gone) == Finalize(held, "A");
    assert [] + ["A"] == ["A"];
    assert First([gone], Handoff) == "F";
    var g := Scan([gone, late]);
    assert g.order == ["A"] && g.groups == map["A" := [gone]] && g.rejects == [];
    assert Parse([gone, late]) == [RecordOf("A", [gone], g.verdicts)];
  }
}
