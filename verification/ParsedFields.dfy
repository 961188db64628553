/**
 What the batch parser puts into its records, field by field, on the lines themselves:
 first and last matches by position, filter sessions, rejections, and the held connect
 and TLS lines.
 */
module ParsedFields {
  import opened Text
  import opened Records
  import opened StableSort
  import opened Timeline
  import opened Outcomes
  import opened Parser

  // ---- first and last matches ----

  predicate FirstAt(lines: seq<Line>, field: Field, i: nat) {
    i < |lines| && field in lines[i].hits.texts && forall j | 0 <= j < i :: field !in lines[j].hits.texts
  }

  /** What the first matching line states; blank when no line matches. */
  ghost predicate States(lines: seq<Line>, field: Field, text: string) {
    || (text == "" && forall l | l in lines :: field !in l.hits.texts)
    || exists i: nat :: FirstAt(lines, field, i) && lines[i].hits.texts[field] == text
  }

  lemma {:induction false} FirstIsStated(lines: seq<Line>, field: Field)
    ensures States(lines, field, First(lines, field))
  {
    if lines != [] {
      if field in lines[0].hits.texts {
        assert FirstAt(lines, field, 0);
      } else {
        FirstIsStated(lines[1..], field);
        assert lines == [lines[0]] + lines[1..];
        if exists i: nat :: FirstAt(lines[1..], field, i) {
          var i: nat :| FirstAt(lines[1..], field, i) && lines[1..][i].hits.texts[field] == First(lines, field);
          assert forall j | 0 < j < |lines| :: lines[j] == lines[1..][j - 1];
          assert FirstAt(lines, field, i + 1);
        }
      }
    }
  }

  lemma StatedIff(lines: seq<Line>, field: Field, text: string)
    ensures States(lines, field, text) <==> text == First(lines, field)
  {
    FirstIsStated(lines, field);
    forall i: nat, j: nat | FirstAt(lines, field, i) && FirstAt(lines, field, j)
      ensures i == j
    {
    }
  }

  predicate FirstSizeAt(lines: seq<Line>, i: nat) {
    i < |lines| && lines[i].hits.size.Some? && forall j | 0 <= j < i :: lines[j].hits.size.None?
  }

  ghost predicate StatesSize(lines: seq<Line>, n: nat) {
    || (n == 0 && forall l | l in lines :: l.hits.size.None?)
    || exists i: nat :: FirstSizeAt(lines, i) && lines[i].hits.size.value == n
  }

  lemma {:induction false} FirstSizeIsStated(lines: seq<Line>)
    ensures StatesSize(lines, FirstSize(lines))
  {
    if lines != [] {
      if lines[0].hits.size.Some? {
        assert FirstSizeAt(lines, 0);
      } else {
        FirstSizeIsStated(lines[1..]);
        assert lines == [lines[0]] + lines[1..];
        if exists i: nat :: FirstSizeAt(lines[1..], i) {
          var i: nat :| FirstSizeAt(lines[1..], i) && lines[1..][i].hits.size.value == FirstSize(lines);
          assert forall j | 0 < j < |lines| :: lines[j] == lines[1..][j - 1];
          assert FirstSizeAt(lines, i + 1);
        }
      }
    }
  }

  predicate LastStatusAt(lines: seq<Line>, i: nat) {
    i < |lines| && lines[i].hits.status.Some? && forall j | i < j < |lines| :: lines[j].hits.status.None?
  }

  ghost predicate StatesStatus(lines: seq<Line>, code: string, detail: string) {
    || (code == detail == "" && forall l | l in lines :: l.hits.status.None?)
    || exists i: nat :: LastStatusAt(lines, i) && lines[i].hits.status.value == StatusMatch(code, detail)
  }

  lemma {:induction false} LastStatusIsStated(lines: seq<Line>)
    ensures match LastStatus(lines)
      case Some(h) => StatesStatus(lines, h.code, h.detail)
      case None => StatesStatus(lines, "", "")
  {
    if lines != [] {
      var n := |lines| - 1;
      if lines[n].hits.status.Some? {
        assert LastStatusAt(lines, n);
      } else {
        LastStatusIsStated(lines[..n]);
        assert lines == lines[..n] + [lines[n]];
        if LastStatus(lines).Some? {
          var h := LastStatus(lines).value;
          var i: nat :| LastStatusAt(lines[..n], i) && lines[..n][i].hits.status.value == StatusMatch(h.code, h.detail);
          assert LastStatusAt(lines, i);
        }
      }
    }
  }

  /** The original client of a re-injected message, or else the client, or else who connected. */
  ghost predicate StatesClient(lines: seq<Line>, client: string) {
    && (forall o | States(lines, OrigClient, o) && o != "" :: client == o)
    && (States(lines, OrigClient, "") ==>
          && (forall c | States(lines, Client, c) && c != "" :: client == c)
          && (States(lines, Client, "") ==> States(lines, Connect, client)))
  }

  lemma ClientIsStated(lines: seq<Line>)
    ensures StatesClient(lines, ClientOf(lines))
  {
    forall t
      ensures States(lines, OrigClient, t) <==> t == First(lines, OrigClient)
      ensures States(lines, Client, t) <==> t == First(lines, Client)
      ensures States(lines, Connect, t) <==> t == First(lines, Connect)
    {
      StatedIff(lines, OrigClient, t);
      StatedIff(lines, Client, t);
      StatedIff(lines, Connect, t);
    }
  }

  // ---- the record of a group ----

  /** The fields that a group's own lines give. */
  ghost predicate ShowsGroup(r: Record, qid: string, lines: seq<Line>) {
    && r.qid == qid && r.origin == "" && !r.subsumed && lines != [] && r.time == lines[0].time
    && States(lines, From, r.from) && States(lines, To, r.to) && States(lines, Subject, r.subject)
    && States(lines, MessageID, r.messageID) && States(lines, Relay, r.relay) && States(lines, Tls, r.tls)
    && StatesSize(lines, r.size) && StatesStatus(lines, r.status, r.detail) && StatesClient(lines, r.client)
  }

  /** The outcome of the Postfix status alone. */
  predicate ShowsOutcome(r: Record) {
    Says(r.disposition, r.status, r.detail, r.relay, r.size)
  }

  predicate ShowsNoFilter(r: Record, lines: seq<Line>) {
    && r.filter == r.filterAction == r.spamScore == r.filterRule == r.filterID == r.delivery == ""
    && r.raw == lines && ShowsOutcome(r)
  }

  predicate IsScore(l: Line) {
    l.kind.FilterLine? && l.kind.hit.score != ""
  }

  predicate IsAction(l: Line) {
    l.kind.FilterLine? && l.kind.hit.action != ""
  }

  predicate LastWith(session: seq<Line>, good: Line -> bool, i: nat) {
    i < |session| && good(session[i]) && forall j | i < j < |session| :: !good(session[j])
  }

  ghost predicate StatesScore(session: seq<Line>, score: string) {
    || (score == "" && forall l | l in session :: !IsScore(l))
    || exists i: nat :: LastWith(session, IsScore, i) && session[i].kind.hit.score == score
  }

  /** The action, rule and onward id are those of one line; the onward id counts for an accept only. */
  ghost predicate ShowsAction(r: Record, hit: FilterHit) {
    && r.filterAction == hit.action && r.filterRule == hit.rule
    && r.delivery == (if hit.action == "accept" then hit.onwardQID else "")
    && (if hit.disposition != "" then r.disposition == hit.disposition else ShowsOutcome(r))
  }

  ghost predicate ShowsSession(r: Record, lines: seq<Line>, fid: string, session: seq<Line>) {
    && r.filter == "pmg-smtp-filter" && r.filterID == fid && StatesScore(session, r.spamScore)
    && (|| (r.filterAction == r.filterRule == r.delivery == "" && ShowsOutcome(r) && forall l | l in session :: !IsAction(l))
        || exists i: nat :: LastWith(session, IsAction, i) && ShowsAction(r, session[i].kind.hit))
    && (forall l :: l in r.raw <==> l in lines || l in session) && Distinct(r.raw) && InTimeOrder(r.raw)
  }

  lemma FieldStated(lines: seq<Line>, field: Field, text: string)
    requires text == First(lines, field)
    ensures States(lines, field, text)
  {
    FirstIsStated(lines, field);
  }

  lemma PlainShows(qid: string, lines: seq<Line>)
    requires lines != []
    ensures ShowsGroup(PlainRecord(qid, lines), qid, lines)
  {
    var r := PlainRecord(qid, lines);
    FieldStated(lines, From, r.from);
    FieldStated(lines, To, r.to);
    FieldStated(lines, Subject, r.subject);
    FieldStated(lines, MessageID, r.messageID);
    FieldStated(lines, Relay, r.relay);
    FieldStated(lines, Tls, r.tls);
    FirstSizeIsStated(lines);
    LastStatusIsStated(lines);
    ClientIsStated(lines);
  }

  lemma {:induction false} LastScoreIsStated(session: seq<Line>)
    requires forall l | l in session :: l.kind.FilterLine?
    ensures StatesScore(session, LastScore(session))
  {
    if session != [] {
      var n := |session| - 1;
      assert session == session[..n] + [session[n]];
      if IsScore(session[n]) {
        assert LastWith(session, IsScore, n);
      } else {
        LastScoreIsStated(session[..n]);
        if exists i: nat :: LastWith(session[..n], IsScore, i) {
          var i: nat :| LastWith(session[..n], IsScore, i) && session[..n][i].kind.hit.score == LastScore(session);
          assert LastWith(session, IsScore, i);
        }
      }
    }
  }

  lemma {:induction false} LastActingIsStated(session: seq<Line>)
    requires forall l | l in session :: l.kind.FilterLine?
    ensures match LastActing(session)
      case Some(h) => exists i: nat :: LastWith(session, IsAction, i) && session[i].kind.hit == h
      case None => forall l | l in session :: !IsAction(l)
  {
    if session != [] {
      var n := |session| - 1;
      assert session == session[..n] + [session[n]];
      if IsAction(session[n]) {
        assert LastWith(session, IsAction, n);
      } else {
        LastActingIsStated(session[..n]);
        if LastActing(session).Some? {
          var i: nat :| LastWith(session[..n], IsAction, i) && session[..n][i].kind.hit == LastActing(session).value;
          assert LastWith(session, IsAction, i);
        }
      }
    }
  }

  lemma SessionIsOfFilter(lines: seq<Line>, fid: string)
    ensures forall l | l in SessionOf(lines, fid) :: l.kind.FilterLine? && l.kind.fid == fid && l in lines
  {
    FilterMembers(lines, (l: Line) => l.kind.FilterLine? && l.kind.fid == fid);
  }

  lemma EnrichedShows(r: Record, v: Verdict, fid: string, session: seq<Line>)
    requires session != [] && VerdictOf(v, fid, session) && r.delivery == ""
    requires forall l | l in session :: l.kind.FilterLine?
    ensures ShowsSession(EnrichFromVerdict(r, v), r.raw, fid, session)
  {
    var e := EnrichFromVerdict(r, v);
    LastScoreIsStated(session);
    LastActingIsStated(session);
    TimelineIsStable(r.raw + v.raw);
    DerivedSays(e.(disposition := ""), e.disposition);
    if LastActing(session).Some? {
      var i: nat :| LastWith(session, IsAction, i) && session[i].kind.hit == LastActing(session).value;
      assert ShowsAction(e, session[i].kind.hit);
    }
  }

  lemma HandedOffShows(qid: string, group: seq<Line>, verdicts: map<string, Verdict>, fid: string, session: seq<Line>)
    requires fid == First(group, Handoff) && (fid in verdicts <==> session != [])
    requires session != [] ==> VerdictOf(verdicts[fid], fid, session)
    requires forall l | l in session :: l.kind.FilterLine?
    ensures var r := RecordOf(qid, group, verdicts);
      if fid != "" && session != [] then ShowsSession(r, group, fid, session) else ShowsNoFilter(r, group)
  {
    var plain := PlainRecord(qid, group);
    if fid != "" && session != [] {
      EnrichedShows(plain, verdicts[fid], fid, session);
    } else {
      DerivedSays(plain, DeriveDisposition(plain));
    }
  }

  /** A filter session leaves the fields that the group's lines give. */
  lemma GroupStaysShown(qid: string, group: seq<Line>, verdicts: map<string, Verdict>)
    requires group != []
    ensures ShowsGroup(RecordOf(qid, group, verdicts), qid, group)
  {
    PlainShows(qid, group);
  }

  /**
   One record per queue id, in order of first appearance. Each field is what the first line
   of the group that matches that very field states, the status that of the last line with
   one; and a record handed to a filter session with lines in the log shows that session.
   */
  lemma RecordFields(lines: seq<Line>, i: nat)
    requires i < |Scan(lines).order|
    ensures var q, r := Scan(lines).order[i], Parse(lines)[i];
      && q in Scan(lines).groups && ShowsGroup(r, q, Scan(lines).groups[q])
      && forall f | States(Scan(lines).groups[q], Handoff, f) ::
           if f != "" && SessionOf(lines, f) != []
           then ShowsSession(r, Scan(lines).groups[q], f, SessionOf(lines, f))
           else ShowsNoFilter(r, Scan(lines).groups[q])
  {
    var g := Scan(lines);
    OrderCoversGroups(lines);
    var q := g.order[i];
    var group := g.groups[q];
    GroupStandsAlone(lines, q);
    GroupStaysShown(q, group, g.verdicts);
    assert Parse(lines)[i] == RecordOf(q, group, g.verdicts);
    forall f | States(group, Handoff, f)
      ensures if f != "" && SessionOf(lines, f) != []
              then ShowsSession(RecordOf(q, group, g.verdicts), group, f, SessionOf(lines, f))
              else ShowsNoFilter(RecordOf(q, group, g.verdicts), group)
    {
      StatedIff(group, Handoff, f);
      VerdictIsLast(lines, f);
      SessionIsOfFilter(lines, f);
      HandedOffShows(q, group, g.verdicts, f, SessionOf(lines, f));
    }
  }

  // ---- rejections ----

  predicate IsRejection(l: Line) {
    l.kind.NoQueueLine? && l.kind.reject.Some?
  }

  function Rejections(lines: seq<Line>): seq<Line> {
    Filter(lines, IsRejection)
  }

  /** What a rejection's record shows, and nothing besides. */
  ghost predicate ShowsRejection(r: Record, l: Line)
    requires IsRejection(l)
  {
    var hit := l.kind.reject.value;
    && r.qid == hit.syntheticID && r.time == l.time && r.raw == [l]
    && r.status == "reject" && r.detail == hit.response && r.disposition == "rejected" && r.client == hit.client
    && r.filterAction == "noqueue-reject" && r.filterRule == hit.stage
    && r.from == (if From in l.hits.texts then l.hits.texts[From] else "")
    && r.to == (if To in l.hits.texts then l.hits.texts[To] else "")
    && r.origin == r.subject == r.messageID == r.relay == r.tls == r.filter == r.spamScore == r.filterID == r.delivery == ""
    && r.size == 0 && !r.subsumed
  }

  lemma OneRejectionShown(hit: RejectHit, l: Line)
    requires l.kind == NoQueueLine(Some(hit))
    ensures ShowsRejection(RejectRecord(hit, l), l)
  {
    assert First([l][1..], From) == First([l][1..], To) == "";
  }

  lemma {:induction false} RejectsShown(lines: seq<Line>)
    ensures var rejects := Scan(lines).rejects;
      && |rejects| == |Rejections(lines)|
      && forall k | 0 <= k < |rejects| :: IsRejection(Rejections(lines)[k]) && ShowsRejection(rejects[k], Rejections(lines)[k])
  {
    if lines == [] {
    } else {
      var front, line := lines[..|lines| - 1], lines[|lines| - 1];
      assert lines == front + [line];
      RejectsShown(front);
      FilterConcat(front, [line], IsRejection);
      assert [line][1..] == [];
      if IsRejection(line) {
        OneRejectionShown(line.kind.reject.value, line);
      }
    }
  }

  /** After the groups' records come the rejections, one record each, in order. */
  lemma RejectFields(lines: seq<Line>, k: nat)
    requires k < |Rejections(lines)|
    ensures var n := |Scan(lines).order|;
      && |Parse(lines)| == n + |Rejections(lines)|
      && IsRejection(Rejections(lines)[k]) && ShowsRejection(Parse(lines)[n + k], Rejections(lines)[k])
  {
    OrderCoversGroups(lines);
    RejectsShown(lines);
  }

  // ---- the order of the records ----

  predicate NamesAt(lines: seq<Line>, q: string, i: nat) {
    i < |lines| && lines[i].kind.QueueLine? && lines[i].kind.qid == q
  }

  /** The first line of a queue id. */
  predicate OpensAt(lines: seq<Line>, q: string, i: nat) {
    NamesAt(lines, q, i) && forall j | 0 <= j < i :: !NamesAt(lines, q, j)
  }

  lemma {:induction false} GroupsAreNamed(lines: seq<Line>)
    ensures forall q | q in Scan(lines).groups :: exists i: nat :: OpensAt(lines, q, i)
    ensures forall q, i: nat | NamesAt(lines, q, i) :: q in Scan(lines).groups
  {
    if lines != [] {
      var n := |lines| - 1;
      var front, line := lines[..n], lines[n];
      GroupsAreNamed(front);
      forall q | q in Scan(lines).groups
        ensures exists i: nat :: OpensAt(lines, q, i)
      {
        if q in Scan(front).groups {
          var i: nat :| OpensAt(front, q, i);
          assert OpensAt(lines, q, i) by {
            assert forall j: nat | j < i :: NamesAt(front, q, j) == NamesAt(lines, q, j);
          }
        } else {
          assert forall j: nat | j < n :: NamesAt(front, q, j) == NamesAt(lines, q, j);
          assert OpensAt(lines, q, n);
        }
      }
      forall q, i: nat | NamesAt(lines, q, i)
        ensures q in Scan(lines).groups
      {
        assert i < n ==> NamesAt(front, q, i);
      }
    }
  }

  /** Queue ids are listed in the order of their first lines. */
  lemma {:induction false} OrderOfAppearance(lines: seq<Line>, a: nat, b: nat, i: nat, j: nat)
    requires a < b < |Scan(lines).order|
    requires OpensAt(lines, Scan(lines).order[a], i) && OpensAt(lines, Scan(lines).order[b], j)
    ensures i < j
  {
    var n := |lines| - 1;
    var front, line := lines[..n], lines[n];
    assert lines == front + [line];
    OrderCoversGroups(front);
    var order := Scan(front).order;
    var p, q := Scan(lines).order[a], Scan(lines).order[b];
    assert p in order;
    OpenedBefore(front, line, p, i);
    OpenedBefore(front, line, q, j);
    if q in order {
      OrderOfAppearance(front, a, b, i, j);
    }
  }

  lemma OpenedBefore(front: seq<Line>, line: Line, q: string, i: nat)
    requires OpensAt(front + [line], q, i)
    ensures if q in Scan(front).groups then OpensAt(front, q, i) else i == |front|
  {
    GroupsAreNamed(front);
    if q in Scan(front).groups {
      var k: nat :| OpensAt(front, q, k);
      assert NamesAt(front + [line], q, k);
    }
    forall j: nat | j < |front|
      ensures NamesAt(front, q, j) <==> NamesAt(front + [line], q, j)
    {
    }
  }

  // ---- connect and TLS lines ----

  /** A connect line waits until another one comes or a line opens a group. */
  ghost predicate ConnectWaits(lines: seq<Line>, l: Line) {
    exists j: nat :: ConnectWaitsFrom(lines, l, j)
  }

  ghost predicate ConnectWaitsFrom(lines: seq<Line>, l: Line, j: nat) {
    && j < |lines| && lines[j] == l && l.kind.ConnectLine?
    && forall k | j < k < |lines| :: !lines[k].kind.ConnectLine? && !(lines[k].kind.QueueLine? && OpensAt(lines, lines[k].kind.qid, k))
  }

  /** A TLS line waits until another one comes or any line with a queue id. */
  ghost predicate TlsWaits(lines: seq<Line>, l: Line) {
    exists j: nat :: TlsWaitsFrom(lines, l, j)
  }

  ghost predicate TlsWaitsFrom(lines: seq<Line>, l: Line, j: nat) {
    && j < |lines| && lines[j] == l && l.kind.TlsLine?
    && forall k | j < k < |lines| :: !lines[k].kind.TlsLine? && !lines[k].kind.QueueLine?
  }

  lemma NamesStay(front: seq<Line>, line: Line, q: string, k: nat)
    requires k < |front|
    ensures NamesAt(front + [line], q, k) <==> NamesAt(front, q, k)
  {
  }

  lemma OpensStays(front: seq<Line>, line: Line, q: string, k: nat)
    requires k < |front|
    ensures OpensAt(front + [line], q, k) <==> OpensAt(front, q, k)
  {
    forall j: nat | j <= k
      ensures NamesAt(front + [line], q, j) <==> NamesAt(front, q, j)
    {
      NamesStay(front, line, q, j);
    }
  }

  lemma OpensLast(front: seq<Line>, line: Line)
    requires line.kind.QueueLine?
    ensures OpensAt(front + [line], line.kind.qid, |front|) <==> line.kind.qid !in Scan(front).groups
  {
    var q := line.kind.qid;
    GroupsAreNamed(front);
    forall j: nat | j < |front|
      ensures NamesAt(front + [line], q, j) <==> NamesAt(front, q, j)
    {
      NamesStay(front, line, q, j);
    }
    if q in Scan(front).groups {
      var i: nat :| OpensAt(front, q, i);
      assert NamesAt(front + [line], q, i);
    }
  }

  lemma WaitsOn(front: seq<Line>, line: Line, l: Line, j: nat)
    requires j < |front|
    ensures ConnectWaitsFrom(front + [line], l, j) <==>
      ConnectWaitsFrom(front, l, j) && !line.kind.ConnectLine? && !(line.kind.QueueLine? && line.kind.qid !in Scan(front).groups)
  {
    var lines, n := front + [line], |front|;
    forall k | j < k < n && lines[k].kind.QueueLine?
      ensures OpensAt(lines, lines[k].kind.qid, k) <==> OpensAt(front, front[k].kind.qid, k)
    {
      OpensStays(front, line, lines[k].kind.qid, k);
    }
    if line.kind.QueueLine? {
      OpensLast(front, line);
    }
    if ConnectWaitsFrom(lines, l, j) {
      assert lines[n] == line;
      assert forall k | j < k < n :: front[k] == lines[k];
    }
  }

  /** The connect line held by the loop is the one that waits. */
  lemma {:induction false} HeldConnectWaits(lines: seq<Line>, l: Line)
    ensures Scan(lines).connect == Some(l) <==> ConnectWaits(lines, l)
  {
    if lines != [] {
      var n := |lines| - 1;
      var front, line := lines[..n], lines[n];
      assert lines == front + [line];
      HeldConnectWaits(front, l);
      forall j: nat | j < n
        ensures ConnectWaitsFrom(lines, l, j) <==>
          ConnectWaitsFrom(front, l, j) && !line.kind.ConnectLine? && !(line.kind.QueueLine? && line.kind.qid !in Scan(front).groups)
      {
        WaitsOn(front, line, l, j);
      }
      assert line.kind.ConnectLine? && line == l <==> ConnectWaitsFrom(lines, l, n);
    }
  }

  /** The TLS line held by the loop is the one that waits. */
  lemma {:induction false} HeldTlsWaits(lines: seq<Line>, l: Line)
    ensures Scan(lines).tls == Some(l) <==> TlsWaits(lines, l)
  {
    if lines != [] {
      var n := |lines| - 1;
      var front, line := lines[..n], lines[n];
      assert lines == front + [line];
      HeldTlsWaits(front, l);
      forall j: nat | j < n
        ensures TlsWaitsFrom(lines, l, j) <==> TlsWaitsFrom(front, l, j) && !line.kind.TlsLine? && !line.kind.QueueLine?
      {
        assert lines[n] == line && forall k | j <= k < n :: front[k] == lines[k];
      }
      assert line.kind.TlsLine? && line == l <==> TlsWaitsFrom(lines, l, n);
    }
  }

  /** A waiting line, if there is one. */
  ghost predicate WaitingOnly(held: seq<Line>, waits: Line -> bool) {
    if held == [] then forall l :: !waits(l) else |held| == 1 && waits(held[0])
  }

  /**
   A line of a queue id goes behind the waiting TLS line, which goes into whatever group
   comes next; the line that opens a group goes behind the waiting connect line as well.
   */
  lemma GroupGrows(front: seq<Line>, line: Line) returns (connect: seq<Line>, tls: seq<Line>)
    requires line.kind.QueueLine?
    ensures WaitingOnly(tls, l => TlsWaits(front, l))
    ensures var q, was, now := line.kind.qid, Scan(front).groups, Scan(front + [line]).groups;
      if q in was then now == was[q := was[q] + tls + [line]]
      else WaitingOnly(connect, l => ConnectWaits(front, l)) && now == was[q := connect + tls + [line]]
  {
    ScanConcat(front, line);
    var g := Scan(front);
    connect, tls := Held(g.connect), Held(g.tls);
    forall l
      ensures g.connect == Some(l) <==> ConnectWaits(front, l)
      ensures g.tls == Some(l) <==> TlsWaits(front, l)
    {
      HeldConnectWaits(front, l);
      HeldTlsWaits(front, l);
    }
    var q := line.kind.qid;
    if q in g.groups {
      assert g.groups[q] + Addition(false, g.connect, g.tls, line) == g.groups[q] + tls + [line];
    } else {
      assert [] + Addition(true, g.connect, g.tls, line) == connect + tls + [line];
    }
  }
}
