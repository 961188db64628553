/**
 The batch parser: one pass groups lines by queue id and collects content-filter
 verdicts and rejections, a second builds one record per group.
 */
module Parser {
  import opened Text
  import opened Records
  import opened Timeline
  import opened StableSort

  /** What a content filter decided in one session, folded from its several lines. */
  datatype Verdict = Verdict(
    filterID: string, action: string, disposition: string, rule: string, score: string,
    quarantineID: string, onwardQID: string, raw: seq<Line>)

  const NO_VERDICT := Verdict("", "", "", "", "", "", "", [])

  /** The accumulators of the grouping loop; order lists queue ids by first appearance. */
  datatype Groups = Groups(
    groups: map<string, seq<Line>>, order: seq<string>,
    connect: Option<Line>, tls: Option<Line>,
    verdicts: map<string, Verdict>, rejects: seq<Record>)

  const NO_GROUPS := Groups(map[], [], None, None, map[], [])

  function MergeVerdict(dst: Verdict, fid: string, hit: FilterHit, line: Line): Verdict {
    var v := dst.(
      filterID := Or(dst.filterID, fid),
      score := if hit.score != "" then hit.score else dst.score,
      raw := dst.raw + [line]);
    if hit.action != ""
    then v.(action := hit.action, disposition := hit.disposition, rule := hit.rule,
            quarantineID := hit.quarantineID, onwardQID := hit.onwardQID)
    else v
  }

  function AddVerdict(verdicts: map<string, Verdict>, fid: string, hit: FilterHit, line: Line): map<string, Verdict> {
    verdicts[fid := MergeVerdict(if fid in verdicts then verdicts[fid] else NO_VERDICT, fid, hit, line)]
  }

  /** An SMTP-time rejection becomes a record of its own under a synthetic id. */
  function RejectRecord(hit: RejectHit, line: Line): Record {
    BLANK.(time := line.time, qid := hit.syntheticID, from := First([line], From), to := First([line], To),
           status := "reject", detail := hit.response, client := hit.client, disposition := "rejected",
           filterAction := "noqueue-reject", filterRule := hit.stage, raw := [line])
  }

  function Held(line: Option<Line>): seq<Line> {
    match line
    case Some(l) => [l]
    case None => []
  }

  /** What a queue-id line adds to its group: a held connect line only when it opens the group. */
  function Addition(opening: bool, connect: Option<Line>, tls: Option<Line>, line: Line): seq<Line> {
    (if opening then Held(connect) else []) + Held(tls) + [line]
  }

  function AddLine(g: Groups, line: Line): Groups {
    match line.kind
    case ConnectLine => g.(connect := Some(line))
    case TlsLine => g.(tls := Some(line))
    case FilterLine(fid, hit) => g.(verdicts := AddVerdict(g.verdicts, fid, hit, line))
    case NoQueueLine(Some(hit)) => g.(rejects := g.rejects + [RejectRecord(hit, line)])
    case NoQueueLine(None) => g
    case QueueLine(qid, _) =>
      var opening := qid !in g.groups;
      var lines := if opening then [] else g.groups[qid];
      g.(groups := g.groups[qid := lines + Addition(opening, g.connect, g.tls, line)],
         order := if opening then g.order + [qid] else g.order,
         connect := if opening then None else g.connect,
         tls := None)
    case OtherLine => g
  }

  /** The grouping loop over all lines. */
  function Scan(lines: seq<Line>): Groups {
    if lines == [] then NO_GROUPS else AddLine(Scan(lines[..|lines| - 1]), lines[|lines| - 1])
  }

  function ClientOf(lines: seq<Line>): string {
    var origin := First(lines, OrigClient);
    if origin != "" then origin else Or(First(lines, Client), First(lines, Connect))
  }

  /** A group's record before any content-filter verdict. */
  function PlainRecord(qid: string, lines: seq<Line>): Record {
    var status := LastStatus(lines);
    BLANK.(
      time := if lines == [] then ZERO_TIME else lines[0].time,
      qid := qid,
      from := First(lines, From), to := First(lines, To), subject := First(lines, Subject),
      size := FirstSize(lines), messageID := First(lines, MessageID),
      status := if status.Some? then status.value.code else "",
      detail := if status.Some? then status.value.detail else "",
      relay := First(lines, Relay), client := ClientOf(lines), tls := First(lines, Tls),
      raw := lines)
  }

  function EnrichFromVerdict(r: Record, v: Verdict): Record {
    var e := r.(
      filter := "pmg-smtp-filter", filterID := v.filterID, filterAction := v.action,
      spamScore := v.score, filterRule := v.rule,
      delivery := if v.action == "accept" && v.onwardQID != "" then v.onwardQID else r.delivery,
      raw := if v.raw == [] then r.raw else SortRawByTime(r.raw + v.raw));
    e.(disposition := if v.disposition != "" then v.disposition else DeriveDisposition(e))
  }

  /** The verdict of the session a message was handed to, when one is known. */
  function VerdictFor(lines: seq<Line>, verdicts: map<string, Verdict>): Option<Verdict> {
    var fid := First(lines, Handoff);
    if fid != "" && fid in verdicts then Some(verdicts[fid]) else None
  }

  function RecordOf(qid: string, lines: seq<Line>, verdicts: map<string, Verdict>): Record {
    var plain := PlainRecord(qid, lines);
    match VerdictFor(lines, verdicts)
    case Some(v) => EnrichFromVerdict(plain, v)
    case None => plain.(disposition := DeriveDisposition(plain))
  }

  function RecordsOf(order: seq<string>, groups: map<string, seq<Line>>, verdicts: map<string, Verdict>): seq<Record>
    requires forall q | q in order :: q in groups
  {
    seq(|order|, i requires 0 <= i < |order| => RecordOf(order[i], groups[order[i]], verdicts))
  }

  /** Everything the parser returns for a list of lines. */
  function Parse(lines: seq<Line>): seq<Record> {
    OrderCoversGroups(lines);
    var g := Scan(lines);
    RecordsOf(g.order, g.groups, g.verdicts) + g.rejects
  }

  /** Every group is listed exactly once, in order of first appearance. */
  lemma {:induction false} OrderCoversGroups(lines: seq<Line>)
    ensures forall q :: q in Scan(lines).order <==> q in Scan(lines).groups
    ensures Distinct(Scan(lines).order)
  {
    if lines == [] {
    } else {
      OrderCoversGroups(lines[..|lines| - 1]);
    }
  }

  // ---- the loops ----

  method ScanLines(lines: seq<Line>) returns (
      groups: map<string, seq<Line>>, order: seq<string>, verdicts: map<string, Verdict>, rejects: seq<Record>)
    ensures var g := Scan(lines); groups == g.groups && order == g.order && verdicts == g.verdicts && rejects == g.rejects
  {
    var connect: Option<Line>, tls: Option<Line> := None, None;
    groups, order, verdicts, rejects := map[], [], map[], [];
    for i := 0 to |lines|
      invariant Groups(groups, order, connect, tls, verdicts, rejects) == Scan(lines[..i])
    {
      var line := lines[i];
      assert lines[..i + 1][..i] == lines[..i];
      match line.kind {
        case ConnectLine => connect := Some(line);
        case TlsLine => tls := Some(line);
        case FilterLine(fid, hit) => verdicts := AddVerdict(verdicts, fid, hit, line);
        case NoQueueLine(hit) =>
          if hit.Some? {
            rejects := rejects + [RejectRecord(hit.value, line)];
          }
        case QueueLine(qid, _) =>
          ghost var whole := (if qid in groups then groups[qid] else []) + Addition(qid !in groups, connect, tls, line);
          var group: seq<Line> := [];
          if qid in groups {
            group := groups[qid];
          } else {
            order := order + [qid];
            if connect.Some? {
              group := group + [connect.value];
              connect := None;
            }
          }
          if tls.Some? {
            group := group + [tls.value];
            tls := None;
          }
          assert group + [line] == whole;
          groups := groups[qid := group + [line]];
        case OtherLine =>
      }
    }
    assert lines[..|lines|] == lines;
  }

  method BuildRecord(qid: string, lines: seq<Line>, verdicts: map<string, Verdict>) returns (r: Record)
    ensures r == RecordOf(qid, lines, verdicts)
  {
    r := PlainRecord(qid, lines);
    var v := VerdictFor(lines, verdicts);
    if v.Some? {
      r := EnrichFromVerdict(r, v.value);
    }
    if r.disposition == "" {
      r := r.(disposition := DeriveDisposition(r));
    }
  }

  method ParseLines(lines: seq<Line>) returns (records: seq<Record>)
    ensures records == Parse(lines)
  {
    var groups, order, verdicts, rejects := ScanLines(lines);
    OrderCoversGroups(lines);
    records := [];
    for i := 0 to |order|
      invariant records == RecordsOf(order, groups, verdicts)[..i]
    {
      var r := BuildRecord(order[i], groups[order[i]], verdicts);
      records := records + [r];
    }
    records := records + rejects;
  }

  // ---- regrouping ----

  /** What parsing a group on its own must give back: that one group and nothing else. */
  predicate StandsAlone(qid: string, lines: seq<Line>) {
    Scan(lines) == NO_GROUPS.(groups := map[qid := lines], order := [qid])
  }

  /** Held lines are of the kind that made the loop hold them. */
  lemma {:induction false} HeldKinds(lines: seq<Line>)
    ensures var g := Scan(lines); g.connect.Some? ==> g.connect.value.kind.ConnectLine?
    ensures var g := Scan(lines); g.tls.Some? ==> g.tls.value.kind.TlsLine?
  {
    if lines == [] {
    } else {
      HeldKinds(lines[..|lines| - 1]);
    }
  }

  lemma {:induction false} ScanConcat(a: seq<Line>, line: Line)
    ensures Scan(a + [line]) == AddLine(Scan(a), line)
  {
    assert (a + [line])[..|a|] == a;
  }

  lemma HoldConnect(connect: Option<Line>)
    requires connect.Some? ==> connect.value.kind.ConnectLine?
    ensures Scan(Held(connect)) == NO_GROUPS.(connect := connect)
  {
    if connect.Some? {
      ScanConcat([], connect.value);
      assert [] + [connect.value] == [connect.value];
    }
  }

  lemma HoldTls(lines: seq<Line>, tls: Option<Line>)
    requires tls.Some? ==> tls.value.kind.TlsLine?
    requires Scan(lines).tls == None
    ensures Scan(lines + Held(tls)) == Scan(lines).(tls := tls)
  {
    if tls.Some? {
      ScanConcat(lines, tls.value);
    } else {
      assert lines + [] == lines;
    }
  }

  lemma OpeningStandsAlone(qid: string, removed: bool, connect: Option<Line>, tls: Option<Line>, line: Line)
    requires connect.Some? ==> connect.value.kind.ConnectLine?
    requires tls.Some? ==> tls.value.kind.TlsLine?
    requires line.kind == QueueLine(qid, removed)
    ensures StandsAlone(qid, Addition(true, connect, tls, line))
  {
    HoldConnect(connect);
    HoldTls(Held(connect), tls);
    ScanConcat(Held(connect) + Held(tls), line);
    assert [] + [qid] == [qid];
    assert [] + Addition(true, connect, tls, line) == Addition(true, connect, tls, line);
  }

  lemma GrowingStandsAlone(qid: string, removed: bool, lines: seq<Line>, tls: Option<Line>, line: Line)
    requires StandsAlone(qid, lines)
    requires tls.Some? ==> tls.value.kind.TlsLine?
    requires line.kind == QueueLine(qid, removed)
    ensures StandsAlone(qid, lines + Addition(false, None, tls, line))
  {
    HoldTls(lines, tls);
    ScanConcat(lines + Held(tls), line);
    var g := NO_GROUPS.(groups := map[qid := lines], order := [qid]);
    OneGroupGrows(g.(tls := tls), qid, removed, lines, line);
    assert lines + Held(tls) + [line] == lines + Addition(false, None, tls, line);
  }

  lemma OneGroupGrows(g: Groups, qid: string, removed: bool, lines: seq<Line>, line: Line)
    requires g.groups == map[qid := lines] && line.kind == QueueLine(qid, removed)
    ensures AddLine(g, line) == g.(groups := map[qid := lines + Addition(false, None, g.tls, line)], tls := None)
  {
    assert Addition(false, g.connect, g.tls, line) == Addition(false, None, g.tls, line);
    var whole := lines + Addition(false, None, g.tls, line);
    assert map[qid := lines][qid := whole] == map[qid := whole];
  }

  /** Every group the loop builds, re-parsed alone, is exactly that group again. */
  lemma {:induction false} GroupStandsAlone(lines: seq<Line>, q: string)
    requires q in Scan(lines).groups
    ensures Scan(lines).groups[q] != [] && StandsAlone(q, Scan(lines).groups[q])
  {
    var front, line := lines[..|lines| - 1], lines[|lines| - 1];
    var g := Scan(front);
    if q in g.groups {
      GroupStandsAlone(front, q);
    }
    if line.kind.QueueLine? && line.kind.qid == q {
      HeldKinds(front);
      NextStandsAlone(q, q in g.groups, if q in g.groups then g.groups[q] else [], g.connect, g.tls, line);
    }
  }

  /** A group after one more line of its queue id, opened by it or not. */
  lemma NextStandsAlone(
      qid: string, known: bool, lines: seq<Line>, connect: Option<Line>, tls: Option<Line>, line: Line)
    requires if known then StandsAlone(qid, lines) else lines == []
    requires connect.Some? ==> connect.value.kind.ConnectLine?
    requires tls.Some? ==> tls.value.kind.TlsLine?
    requires line.kind.QueueLine? && line.kind.qid == qid
    ensures var group := lines + Addition(!known, connect, tls, line); group != [] && StandsAlone(qid, group)
  {
    if known {
      GrowingStandsAlone(qid, line.kind.removed, lines, tls, line);
      assert Addition(false, connect, tls, line) == Addition(false, None, tls, line);
    } else {
      OpeningStandsAlone(qid, line.kind.removed, connect, tls, line);
      assert [] + Addition(true, connect, tls, line) == Addition(true, connect, tls, line);
    }
  }

  /** Regrouping: parsing one group's lines gives one record, with that id and exactly those lines. */
  lemma Regroup(qid: string, lines: seq<Line>)
    requires StandsAlone(qid, lines)
    ensures Parse(lines) == [RecordOf(qid, lines, map[])]
    ensures Parse(lines)[0].qid == qid && Parse(lines)[0].raw == lines
  {
  }

  /** Every group the parser builds is parsed again, alone, to the one record it stands for. */
  lemma GroupReparses(lines: seq<Line>, q: string)
    requires q in Scan(lines).groups
    ensures Parse(Scan(lines).groups[q]) == [RecordOf(q, Scan(lines).groups[q], map[])]
    ensures var r := RecordOf(q, Scan(lines).groups[q], map[]); r.qid == q && r.raw == Scan(lines).groups[q]
  {
    GroupStandsAlone(lines, q);
    Regroup(q, Scan(lines).groups[q]);
  }

  // ---- what the accumulators hold ----

  /** The lines of one queue id, in order. */
  function LinesOf(lines: seq<Line>, qid: string): seq<Line> {
    Filter(lines, (l: Line) => l.kind.QueueLine? && l.kind.qid == qid)
  }

  /** The lines of one content-filter session, in order. */
  function SessionOf(lines: seq<Line>, fid: string): seq<Line> {
    Filter(lines, (l: Line) => l.kind.FilterLine? && l.kind.fid == fid)
  }

  lemma LinesOfConcat(a: seq<Line>, b: seq<Line>, qid: string)
    ensures LinesOf(a + b, qid) == LinesOf(a, qid) + LinesOf(b, qid)
  {
    FilterConcat(a, b, (l: Line) => l.kind.QueueLine? && l.kind.qid == qid);
  }

  lemma LinesOfOne(line: Line, qid: string)
    ensures LinesOf([line], qid) == if line.kind.QueueLine? && line.kind.qid == qid then [line] else []
  {
    var ofQ := (l: Line) => l.kind.QueueLine? && l.kind.qid == qid;
    assert [line][1..] == [];
    assert Filter([line], ofQ) == if ofQ(line) then [line] else [];
  }

  lemma HeldHasNoQueueLines(held: Option<Line>, qid: string)
    requires held.Some? ==> !held.value.kind.QueueLine?
    ensures LinesOf(Held(held), qid) == []
  {
    if held.Some? {
      LinesOfOne(held.value, qid);
    }
  }

  /** A group holds every line of its queue id, once and in order; the rest of it is connect and TLS lines. */
  lemma {:induction false} GroupHasItsLines(lines: seq<Line>, q: string)
    ensures LinesOf(lines, q) == if q in Scan(lines).groups then LinesOf(Scan(lines).groups[q], q) else []
  {
    if lines == [] {
    } else {
      var front, line := lines[..|lines| - 1], lines[|lines| - 1];
      assert lines == front + [line];
      GroupHasItsLines(front, q);
      LinesOfConcat(front, [line], q);
      LinesOfOne(line, q);
      ScanConcat(front, line);
      if line.kind.QueueLine? && line.kind.qid == q {
        HeldKinds(front);
        AdditionHasTheLine(Scan(front), q, line);
      } else {
        OtherGroupsStay(Scan(front), q, line);
      }
    }
  }

  lemma OtherGroupsStay(g: Groups, q: string, line: Line)
    requires !(line.kind.QueueLine? && line.kind.qid == q)
    ensures q in AddLine(g, line).groups <==> q in g.groups
    ensures q in g.groups ==> AddLine(g, line).groups[q] == g.groups[q]
  {
  }

  lemma AdditionHasTheLine(g: Groups, q: string, line: Line)
    requires line.kind.QueueLine? && line.kind.qid == q
    requires g.connect.Some? ==> g.connect.value.kind.ConnectLine?
    requires g.tls.Some? ==> g.tls.value.kind.TlsLine?
    ensures LinesOf(AddLine(g, line).groups[q], q) == (if q in g.groups then LinesOf(g.groups[q], q) else []) + [line]
  {
    var group, opening := if q in g.groups then g.groups[q] else [], if q in g.groups then [] else Held(g.connect);
    HeldHasNoQueueLines(g.connect, q);
    HeldHasNoQueueLines(g.tls, q);
    LinesOfOne(line, q);
    LinesOfConcat(opening, Held(g.tls), q);
    LinesOfConcat(opening + Held(g.tls), [line], q);
    LinesOfConcat(group, opening + Held(g.tls) + [line], q);
  }

  /** The last non-blank score of a session's lines. */
  function LastScore(session: seq<Line>): string {
    if session == [] || !session[|session| - 1].kind.FilterLine? then ""
    else if session[|session| - 1].kind.hit.score != "" then session[|session| - 1].kind.hit.score
    else LastScore(session[..|session| - 1])
  }

  /** The last line of a session that states an action. */
  function LastActing(session: seq<Line>): Option<FilterHit> {
    if session == [] || !session[|session| - 1].kind.FilterLine? then None
    else if session[|session| - 1].kind.hit.action != "" then Some(session[|session| - 1].kind.hit)
    else LastActing(session[..|session| - 1])
  }

  ghost predicate VerdictOf(v: Verdict, fid: string, session: seq<Line>) {
    && v.filterID == fid && v.raw == session && v.score == LastScore(session)
    && match LastActing(session)
       case Some(h) => v.action == h.action && v.disposition == h.disposition && v.rule == h.rule
                       && v.quarantineID == h.quarantineID && v.onwardQID == h.onwardQID
       case None => v.action == "" && v.disposition == "" && v.rule == "" && v.quarantineID == "" && v.onwardQID == ""
  }

  /** A session's verdict: its last score, its last action with everything that line says, and all its lines. */
  lemma {:induction false} VerdictIsLast(lines: seq<Line>, fid: string)
    ensures fid in Scan(lines).verdicts <==> SessionOf(lines, fid) != []
    ensures fid in Scan(lines).verdicts ==> VerdictOf(Scan(lines).verdicts[fid], fid, SessionOf(lines, fid))
  {
    if lines == [] {
    } else {
      var front, line := lines[..|lines| - 1], lines[|lines| - 1];
      assert lines == front + [line];
      VerdictIsLast(front, fid);
      SessionSnoc(front, line, fid);
      if line.kind.FilterLine? && line.kind.fid == fid {
        var session := SessionOf(front, fid);
        MergeVerdictIsLast(if fid in Scan(front).verdicts then Scan(front).verdicts[fid] else NO_VERDICT, fid, session, line);
      }
    }
  }

  lemma SessionSnoc(front: seq<Line>, line: Line, fid: string)
    ensures SessionOf(front + [line], fid)
      == SessionOf(front, fid) + if line.kind.FilterLine? && line.kind.fid == fid then [line] else []
  {
    var ofSession := (l: Line) => l.kind.FilterLine? && l.kind.fid == fid;
    FilterConcat(front, [line], ofSession);
    assert [line][1..] == [];
    assert Filter([line], ofSession) == if ofSession(line) then [line] else [];
  }

  lemma MergeVerdictIsLast(v: Verdict, fid: string, session: seq<Line>, line: Line)
    requires line.kind.FilterLine? && line.kind.fid == fid
    requires VerdictOf(v, fid, session) || (session == [] && v == NO_VERDICT)
    ensures VerdictOf(MergeVerdict(v, fid, line.kind.hit, line), fid, session + [line])
  {
    assert (session + [line])[..|session|] == session;
  }
}
