/**
 Split invariance: a message whose lines reach the store in several flushes ends up
 as the record one parse of all its lines would give.
 */
module SplitMerge {
  import opened Text
  import opened Records
  import opened StableSort
  import opened Timeline
  import opened Parser

  /** The record of one flush, without any content-filter verdict. */
  function Piece(qid: string, lines: seq<Line>): Record {
    RecordOf(qid, lines, map[])
  }

  /** The fields that must not depend on where a message was cut; the client is not among them. */
  predicate Same(r: Record, s: Record) {
    && r.from == s.from && r.to == s.to && r.subject == s.subject && r.size == s.size
    && r.messageID == s.messageID && r.relay == s.relay && r.tls == s.tls
    && r.status == s.status && r.detail == s.detail && r.raw == s.raw && r.disposition == s.disposition
  }

  predicate Matched(lines: seq<Line>, field: Field) {
    exists l | l in lines :: field in l.hits.texts
  }

  predicate SizeMatched(lines: seq<Line>) {
    exists l | l in lines :: l.hits.size.Some?
  }

  /** A blank match before the cut hides a value that a merge would pick up after it. */
  predicate Masked(a: seq<Line>, b: seq<Line>, field: Field) {
    Matched(a, field) && First(a, field) == "" && First(b, field) != ""
  }

  predicate SizeMasked(a: seq<Line>, b: seq<Line>) {
    SizeMatched(a) && FirstSize(a) == 0 && FirstSize(b) != 0
  }

  predicate Unmasked(a: seq<Line>, b: seq<Line>) {
    && !Masked(a, b, From) && !Masked(a, b, To) && !Masked(a, b, Subject) && !Masked(a, b, MessageID)
    && !Masked(a, b, Relay) && !Masked(a, b, Tls) && !SizeMasked(a, b)
  }

  /** What a status alone says of the outcome. */
  function OutcomeOf(h: StatusHit): string {
    DeriveDisposition(BLANK.(status := h.code, detail := h.detail))
  }

  /** The outcome before the cut is one that may still be replaced, or the second flush states no other. */
  predicate DispositionOpen(a: seq<Line>, b: seq<Line>) {
    || LastStatus(a).None? || IsStatusDisposition(OutcomeOf(LastStatus(a).value))
    || LastStatus(b).None? || OutcomeOf(LastStatus(b).value) == OutcomeOf(LastStatus(a).value)
  }

  lemma {:induction false} FirstConcat(a: seq<Line>, b: seq<Line>, field: Field)
    ensures First(a + b, field) == if Matched(a, field) then First(a, field) else First(b, field)
    ensures !Matched(a, field) ==> First(a, field) == ""
  {
    if a == [] {
      assert a + b == b;
    } else {
      assert a == [a[0]] + a[1..] && (a + b)[1..] == a[1..] + b;
      FirstConcat(a[1..], b, field);
    }
  }

  /** Merging first matches is right exactly when no blank match masks a later value. */
  lemma FirstMerges(a: seq<Line>, b: seq<Line>, field: Field)
    ensures Or(First(a, field), First(b, field)) == First(a + b, field) <==> !Masked(a, b, field)
  {
    FirstConcat(a, b, field);
  }

  lemma {:induction false} SizeConcat(a: seq<Line>, b: seq<Line>)
    ensures FirstSize(a + b) == if SizeMatched(a) then FirstSize(a) else FirstSize(b)
    ensures !SizeMatched(a) ==> FirstSize(a) == 0
  {
    if a == [] {
      assert a + b == b;
    } else {
      assert a == [a[0]] + a[1..] && (a + b)[1..] == a[1..] + b;
      SizeConcat(a[1..], b);
    }
  }

  /** The last status of joined lines is the later part's, if it has one. */
  lemma {:induction false} StatusConcat(a: seq<Line>, b: seq<Line>)
    ensures LastStatus(a + b) == if LastStatus(b).Some? then LastStatus(b) else LastStatus(a)
  {
    if b == [] {
      assert a + b == a;
    } else {
      assert (a + b)[..|a + b| - 1] == a + b[..|b| - 1];
      StatusConcat(a, b[..|b| - 1]);
    }
  }

  lemma {:induction false} AllFresh(a: seq<Line>, b: seq<Line>)
    requires forall l | l in b :: l !in a
    ensures Fresh(a, b) == b
  {
    if b == [] {
    } else {
      assert b == [b[0]] + b[1..];
      AllFresh(a, b[1..]);
    }
  }

  /** After filling blanks from the second flush: every field but status and disposition. */
  lemma FilledPieces(qid: string, dst: Record, a: seq<Line>, b: seq<Line>)
    requires Same(dst, Piece(qid, a)) && Distinct(a + b)
    ensures var m, whole := FillBlanks(dst, Piece(qid, b)), PlainRecord(qid, a + b);
      && m.raw == whole.raw && m.status == dst.status && m.detail == dst.detail && m.disposition == dst.disposition
      && (Unmasked(a, b) <==> m.from == whole.from && m.to == whole.to && m.subject == whole.subject && m.size == whole.size
                              && m.messageID == whole.messageID && m.relay == whole.relay && m.tls == whole.tls)
  {
    FirstMerges(a, b, From);
    FirstMerges(a, b, To);
    FirstMerges(a, b, Subject);
    FirstMerges(a, b, MessageID);
    FirstMerges(a, b, Relay);
    FirstMerges(a, b, Tls);
    SizeConcat(a, b);
    forall l | l in b ensures l !in a {
      DistinctParts(a, b, l);
    }
    AllFresh(a, b);
  }

  lemma DistinctParts(a: seq<Line>, b: seq<Line>, l: Line)
    requires Distinct(a + b) && l in b
    ensures l !in a
  {
    var j :| 0 <= j < |b| && b[j] == l;
    forall i | 0 <= i < |a|
      ensures a[i] != l
    {
      assert (a + b)[i] == a[i] && (a + b)[|a| + j] == l;
    }
  }

  /** The status of the merged lines is the one a single parse finds. */
  lemma RestatedPieces(qid: string, m: Record, a: seq<Line>, b: seq<Line>)
    requires m.raw == a + b && m.status == PlainRecord(qid, a).status && m.detail == PlainRecord(qid, a).detail
    ensures var r, whole := RestateStatus(m, Piece(qid, b)), PlainRecord(qid, a + b);
      r == m.(status := whole.status, detail := whole.detail)
  {
    StatusConcat(a, b);
  }

  lemma DispositionReads(r: Record, s: Record)
    requires r.status == s.status && r.detail == s.detail && r.relay == s.relay && r.size == s.size
    ensures DeriveDisposition(r) == DeriveDisposition(s)
  {
  }

  /** The relay and the size matter only among outcomes that may be replaced. */
  lemma OutcomeReads(r: Record, h: StatusHit)
    requires r.status == h.code && r.detail == h.detail
    ensures IsStatusDisposition(DeriveDisposition(r)) <==> IsStatusDisposition(OutcomeOf(h))
    ensures !IsStatusDisposition(OutcomeOf(h)) ==> DeriveDisposition(r) == OutcomeOf(h)
  {
  }

  /** Whether the disposition was open, on the records. */
  lemma OpenOnRecords(qid: string, a: seq<Line>, b: seq<Line>)
    ensures DispositionOpen(a, b) <==>
      IsStatusDisposition(Piece(qid, a).disposition) || Piece(qid, a).disposition == Piece(qid, a + b).disposition
  {
    StatusConcat(a, b);
    var first, whole := PlainRecord(qid, a), PlainRecord(qid, a + b);
    assert Piece(qid, a).disposition == DeriveDisposition(first);
    assert Piece(qid, a + b).disposition == DeriveDisposition(whole);
    if LastStatus(a).Some? {
      OutcomeReads(first, LastStatus(a).value);
      OutcomeReads(whole, LastStatus(a + b).value);
    }
  }

  /**
   One cut: merging the second flush gives what parsing both at once gives, exactly
   when no blank match masks a later value and the first outcome was still open.
   */
  lemma MergePieces(qid: string, dst: Record, a: seq<Line>, b: seq<Line>)
    requires Same(dst, Piece(qid, a)) && Distinct(a + b)
    ensures Same(MergeRecord(dst, Piece(qid, b)), Piece(qid, a + b)) <==> Unmasked(a, b) && DispositionOpen(a, b)
  {
    var src, whole := Piece(qid, b), PlainRecord(qid, a + b);
    var filled := FillBlanks(dst, src);
    OpenOnRecords(qid, a, b);
    FilledPieces(qid, dst, a, b);
    RestatedPieces(qid, filled, a, b);
    var restated := RestateStatus(filled, src);
    if Unmasked(a, b) {
      DispositionReads(restated, whole);
    }
    ReclassifyTwice(restated);
    assert Piece(qid, a + b) == whole.(disposition := DeriveDisposition(whole));
    assert Piece(qid, a).disposition != "";
  }

  function Joined(pieces: seq<seq<Line>>): seq<Line> {
    if pieces == [] then [] else Joined(pieces[..|pieces| - 1]) + pieces[|pieces| - 1]
  }

  /** The record after all flushes, as the store folds them. */
  function Flushed(qid: string, pieces: seq<seq<Line>>): Record
    requires pieces != []
  {
    var n := |pieces| - 1;
    if n == 0 then Piece(qid, pieces[0]) else MergeRecord(Flushed(qid, pieces[..n]), Piece(qid, pieces[n]))
  }

  /** Every cut is clean: no blank match masks a later value, and the outcome so far is open. */
  ghost predicate CleanCuts(pieces: seq<seq<Line>>) {
    |pieces| > 1 ==>
      var front, last := pieces[..|pieces| - 1], pieces[|pieces| - 1];
      CleanCuts(front) && Unmasked(Joined(front), last) && DispositionOpen(Joined(front), last)
  }

  lemma DistinctPrefix(a: seq<Line>, b: seq<Line>)
    requires Distinct(a + b)
    ensures Distinct(a)
  {
    forall i, j | 0 <= i < j < |a|
      ensures a[i] != a[j]
    {
      assert (a + b)[i] == a[i] && (a + b)[j] == a[j];
    }
  }

  ghost predicate Agrees(qid: string, pieces: seq<seq<Line>>) {
    pieces != [] && Same(Flushed(qid, pieces), Piece(qid, Joined(pieces)))
  }

  ghost predicate AllAgree(qid: string, pieces: seq<seq<Line>>) {
    pieces != [] ==> Agrees(qid, pieces) && AllAgree(qid, pieces[..|pieces| - 1])
  }

  /**
   Split invariance over any number of flushes: the record agrees with one parse after
   each of them exactly when every cut is clean.
   */
  lemma {:induction false} SplitInvariance(qid: string, pieces: seq<seq<Line>>)
    requires Distinct(Joined(pieces))
    ensures AllAgree(qid, pieces) <==> CleanCuts(pieces)
  {
    if |pieces| == 1 {
      assert pieces[..0] == [] && Joined(pieces[..0]) + pieces[0] == pieces[0];
    } else if |pieces| > 1 {
      var n := |pieces| - 1;
      var front := pieces[..n];
      DistinctPrefix(Joined(front), pieces[n]);
      SplitInvariance(qid, front);
      if Agrees(qid, front) {
        MergePieces(qid, Flushed(qid, front), Joined(front), pieces[n]);
      }
    }
  }

  // ---- the fields left out of Same ----

  /** The time of the message is kept when the first flush starts with a stamped line, and else only if none is found. */
  lemma TimeMerges(qid: string, a: seq<Line>, b: seq<Line>)
    requires a != []
    ensures MergeRecord(Piece(qid, a), Piece(qid, b)).time == Piece(qid, a + b).time
      <==> a[0].time != ZERO_TIME || b == [] || b[0].time == ZERO_TIME
  {
  }

  lemma MergedClient(dst: Record, src: Record)
    ensures MergeRecord(dst, src).client == Or(dst.client, src.client)
  {
    RestateTwice(FillBlanks(dst, src), src, "");
    ReclassifyTwice(RestateStatus(FillBlanks(dst, src), src));
  }

  /** What one parse takes of a field from the second flush: nothing when the first has a match, be it blank. */
  function Taken(a: seq<Line>, b: seq<Line>, field: Field): string {
    if Matched(a, field) then "" else First(b, field)
  }

  /**
   An original client of the first flush stays. Otherwise a first flush with a plain or a
   connecting client keeps it, if one parse takes no original client of the second, nor a
   plain client over a connecting host, or takes the same; and one without any shows what
   the second shows, if one parse takes that.
   */
  predicate ClientKept(a: seq<Line>, b: seq<Line>) {
    var plain, connecting := First(a, Client), First(a, Connect);
    || First(a, OrigClient) != ""
    || if Or(plain, connecting) == "" then
         Or(First(b, OrigClient), Or(First(b, Client), First(b, Connect)))
         == Or(Taken(a, b, OrigClient), Or(Taken(a, b, Client), Taken(a, b, Connect)))
       else if Taken(a, b, OrigClient) != "" then Taken(a, b, OrigClient) == Or(plain, connecting)
       else plain != "" || Taken(a, b, Client) in {"", connecting}
  }

  lemma FirstTaken(a: seq<Line>, b: seq<Line>, field: Field)
    ensures First(a + b, field) == Or(First(a, field), Taken(a, b, field))
  {
    FirstConcat(a, b, field);
  }

  /** The client of a merge is that of one parse exactly when it is kept. */
  lemma ClientMerges(qid: string, a: seq<Line>, b: seq<Line>)
    ensures MergeRecord(Piece(qid, a), Piece(qid, b)).client == Piece(qid, a + b).client <==> ClientKept(a, b)
  {
    FirstTaken(a, b, OrigClient);
    FirstTaken(a, b, Client);
    FirstTaken(a, b, Connect);
    MergedClient(Piece(qid, a), Piece(qid, b));
    ClientsOf(qid, a);
    ClientsOf(qid, b);
    ClientsOf(qid, a + b);
  }

  lemma ClientsOf(qid: string, lines: seq<Line>)
    ensures Piece(qid, lines).client == Or(First(lines, OrigClient), Or(First(lines, Client), First(lines, Connect)))
  {
  }

  // ---- with a content filter ----

  /** The record of a group in a log with its filter sessions. */
  function InLog(qid: string, group: seq<Line>, log: seq<Line>): Record {
    RecordOf(qid, group, Scan(log).verdicts)
  }

  /** What a record shows of its content filter. */
  datatype Shown = Shown(filter: string, action: string, score: string, rule: string, fid: string, onward: string)

  function ShownBy(r: Record): Shown {
    Shown(r.filter, r.filterAction, r.spamScore, r.filterRule, r.filterID, r.delivery)
  }

  predicate SameFilter(r: Record, s: Record) {
    ShownBy(r) == ShownBy(s)
  }

  /** The session of a flush says what the whole session says: score, action, rule, and onward id of an accept. */
  predicate SaysSame(session: seq<Line>, whole: seq<Line>) {
    var h, w := ActingHit(session), ActingHit(whole);
    && (session == [] <==> whole == []) && LastScore(session) == LastScore(whole)
    && h.action == w.action && h.rule == w.rule && (h.action == "accept" ==> h.onwardQID == w.onwardQID)
  }

  function ActingHit(session: seq<Line>): FilterHit {
    match LastActing(session)
    case Some(h) => h
    case None => FilterHit("", "", "", "", "", "")
  }

  /** What is shown of a session: nothing if the message was not handed off or the session has no lines. */
  function SessionShown(fid: string, session: seq<Line>): Shown {
    var h := ActingHit(session);
    if fid == "" || session == [] then Shown("", "", "", "", "", "")
    else Shown("pmg-smtp-filter", h.action, LastScore(session), h.rule, fid, if h.action == "accept" then h.onwardQID else "")
  }

  lemma FilterShown(qid: string, group: seq<Line>, log: seq<Line>)
    ensures var fid := First(group, Handoff); ShownBy(InLog(qid, group, log)) == SessionShown(fid, SessionOf(log, fid))
  {
    VerdictIsLast(log, First(group, Handoff));
  }

  lemma MergedFilter(dst: Record, src: Record)
    ensures SameFilter(src, BLANK) ==> SameFilter(MergeRecord(dst, src), dst)
    ensures SameFilter(dst, BLANK) ==> SameFilter(MergeRecord(dst, src), src)
  {
    MergeKeepsOrFills(dst, src);
  }

  lemma ShownSame(fid: string, session: seq<Line>, whole: seq<Line>)
    ensures SessionShown(fid, session) == SessionShown(fid, whole) <==> fid == "" || SaysSame(session, whole)
  {
    assert session == [] ==> ActingHit(session).action == "" && LastScore(session) == "";
    assert whole == [] ==> ActingHit(whole).action == "" && LastScore(whole) == "";
  }

  /** The one flush with a hand-off decides what the merged record shows. */
  lemma HandoffDecides(qid: string, a: seq<Line>, b: seq<Line>, log: seq<Line>, next: seq<Line>)
    requires Matched(a, Handoff) != Matched(b, Handoff)
    ensures var fid := First(a + b, Handoff);
      ShownBy(MergeRecord(InLog(qid, a, log), InLog(qid, b, next)))
      == SessionShown(fid, SessionOf(if Matched(a, Handoff) then log else next, fid))
  {
    FirstConcat(a, b, Handoff);
    FirstConcat(b, [], Handoff);
    FilterShown(qid, a, log);
    FilterShown(qid, b, next);
    MergedFilter(InLog(qid, a, log), InLog(qid, b, next));
  }

  /**
   A message handed to the filter within one of two flushes: the merged record shows the
   filter's score, action, rule, session and onward id as one parse does if and only if the
   session's lines in that flush's log say what all of them say.
   */
  lemma FilterMerges(qid: string, a: seq<Line>, b: seq<Line>, log: seq<Line>, next: seq<Line>)
    requires Matched(a, Handoff) != Matched(b, Handoff)
    ensures var fid := First(a + b, Handoff);
      SameFilter(MergeRecord(InLog(qid, a, log), InLog(qid, b, next)), InLog(qid, a + b, log + next))
      <==> fid == "" || SaysSame(SessionOf(if Matched(a, Handoff) then log else next, fid), SessionOf(log + next, fid))
  {
    var fid := First(a + b, Handoff);
    HandoffDecides(qid, a, b, log, next);
    FilterShown(qid, a + b, log + next);
    ShownSame(fid, SessionOf(if Matched(a, Handoff) then log else next, fid), SessionOf(log + next, fid));
  }

  lemma SessionConcat(log: seq<Line>, next: seq<Line>, fid: string)
    ensures SessionOf(log + next, fid) == SessionOf(log, fid) + SessionOf(next, fid)
  {
    FilterConcat(log, next, (l: Line) => l.kind.FilterLine? && l.kind.fid == fid);
  }

  lemma WholeSession(log: seq<Line>, next: seq<Line>, first: bool, fid: string)
    requires SessionOf(if first then next else log, fid) == []
    ensures SessionOf(log + next, fid) == SessionOf(if first then log else next, fid)
  {
    SessionConcat(log, next, fid);
  }

  /** In particular when the whole session is in that flush's log. */
  lemma WholeSessionMerges(qid: string, a: seq<Line>, b: seq<Line>, log: seq<Line>, next: seq<Line>)
    requires Matched(a, Handoff) != Matched(b, Handoff)
    requires SessionOf(if Matched(a, Handoff) then next else log, First(a + b, Handoff)) == []
    ensures SameFilter(MergeRecord(InLog(qid, a, log), InLog(qid, b, next)), InLog(qid, a + b, log + next))
  {
    var fid := First(a + b, Handoff);
    WholeSession(log, next, Matched(a, Handoff), fid);
    FilterMerges(qid, a, b, log, next);
  }

  /** Then the same lines are shown, too. */
  lemma WholeSessionShown(qid: string, a: seq<Line>, b: seq<Line>, log: seq<Line>, next: seq<Line>)
    requires Matched(a, Handoff) != Matched(b, Handoff)
    requires SessionOf(if Matched(a, Handoff) then next else log, First(a + b, Handoff)) == []
    ensures var merged := MergeRecord(InLog(qid, a, log), InLog(qid, b, next));
      forall l :: l in merged.raw <==> l in InLog(qid, a + b, log + next).raw
  {
    var fid := First(a + b, Handoff);
    FirstConcat(a, b, Handoff);
    FirstConcat(b, [], Handoff);
    SessionConcat(log, next, fid);
    LinesShown(qid, a, log);
    LinesShown(qid, b, next);
    LinesShown(qid, a + b, log + next);
    MergedLines(InLog(qid, a, log), InLog(qid, b, next));
  }

  lemma LinesShown(qid: string, group: seq<Line>, log: seq<Line>)
    ensures var fid := First(group, Handoff);
      forall l :: l in InLog(qid, group, log).raw <==> l in group || (fid != "" && l in SessionOf(log, fid))
  {
    var fid := First(group, Handoff);
    VerdictIsLast(log, fid);
    if fid in Scan(log).verdicts {
      TimelineIsStable(group + Scan(log).verdicts[fid].raw);
    }
  }

  lemma MergedLines(dst: Record, src: Record)
    ensures forall l :: l in MergeRecord(dst, src).raw <==> l in dst.raw || l in src.raw
  {
    MergeKeepsOrFills(dst, src);
    FilterMembers(src.raw, l => l !in dst.raw);
  }

  // ---- cuts that are not clean ----

  /** A blank match before the cut: the merge fills in a value that one parse does not show. */
  lemma BlankMatchIsFilled(a: Line, b: Line)
    requires a.hits.texts == map[MessageID := ""] && b.hits.texts == map[MessageID := "m"]
    ensures MergeRecord(Piece("A", [a]), Piece("A", [b])).messageID == "m"
    ensures Piece("A", [a] + [b]).messageID == ""
  {
    assert First([b], MessageID) == "m";
    assert ([a] + [b])[0] == a;
  }

  lemma ClosedMerge(dst: Record, src: Record, h: StatusHit)
    requires dst.disposition != "" && !IsStatusDisposition(dst.disposition)
    requires LastStatus(dst.raw + Fresh(dst.raw, src.raw)) == Some(h)
    ensures MergeRecord(dst, src).status == h.code && MergeRecord(dst, src).disposition == dst.disposition
  {
    RestateTwice(FillBlanks(dst, src), src, dst.disposition);
  }

  /** An outcome outside the replaceable ones: the merge keeps it although a later status is known. */
  lemma ClosedOutcomeIsKept(a: Line, b: Line)
    requires a != b && a.hits.status == Some(StatusMatch("expired", "")) && b.hits.status == Some(StatusMatch("bounced", ""))
    ensures var merged, whole := MergeRecord(Piece("A", [a]), Piece("A", [b])), Piece("A", [a] + [b]);
      && merged.status == whole.status == "bounced"
      && merged.disposition == "expired" && whole.disposition == "bounced"
  {
    assert LastStatus([a]) == a.hits.status && LastStatus([b]) == b.hits.status;
    StatusConcat([a], [b]);
    AllFresh([a], [b]);
    PieceOutcome("A", [a], a.hits.status.value);
    PieceOutcome("A", [a] + [b], b.hits.status.value);
    ClosedMerge(Piece("A", [a]), Piece("A", [b]), b.hits.status.value);
  }

  lemma PieceOutcome(qid: string, lines: seq<Line>, h: StatusHit)
    requires LastStatus(lines) == Some(h) && h.code in {"expired", "bounced"}
    ensures var r := Piece(qid, lines); r.raw == lines && r.status == r.disposition == h.code
  {
    ExpiredAndBounced(PlainRecord(qid, lines));
  }

  lemma ExpiredAndBounced(r: Record)
    ensures r.status == "expired" ==> DeriveDisposition(r) == "expired"
    ensures r.status == "bounced" ==> DeriveDisposition(r) == "bounced"
  {
    assert ToLower("expired") == "expired" && ToLower("bounced") == "bounced";
    assert "expired"[0] == 'e' && "bounced"[0] == 'b' && "sent"[0] == 's' && "reject"[0] == 'r' && "deferred"[0] == 'd';
  }
}
