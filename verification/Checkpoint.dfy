/**
 The saved checkpoint against the log lines it covers. The comment that every record up
 to the offset is in the batch holds exactly when no line was still on its way.
 */
module Checkpoint {
  import opened Text
  import opened Records
  import opened Timeline
  import opened Rspamd
  import opened StoreSpec
  import opened Coherence
  import opened Replication
  import P = Parser
  import T = LiveTail
  import F = Forwarder

  // ---- which lines the tail has handed over ----

  /** The group of line i was handed over before line n: a removal of its queue id came at or after it. */
  ghost predicate HandedOver(lines: seq<Line>, i: nat, n: nat)
    requires i < |lines| && n <= |lines| && lines[i].kind.QueueLine?
  {
    exists j | i <= j < n :: T.RemovesAt(lines, j, lines[i].kind.qid)
  }

  lemma HandedOverSnoc(front: seq<Line>, line: Line, i: nat)
    requires i < |front| && front[i].kind.QueueLine?
    ensures var lines := front + [line];
      HandedOver(lines, i, |lines|) <==> HandedOver(front, i, |front|) || line.kind == QueueLine(front[i].kind.qid, true)
  {
    var lines, q := front + [line], front[i].kind.qid;
    if j :| i <= j < |front| && T.RemovesAt(front, j, q) {
      assert T.RemovesAt(lines, j, q);
    }
    if line.kind == QueueLine(q, true) {
      assert T.RemovesAt(lines, |front|, q);
    }
    forall j | i <= j < |lines| && T.RemovesAt(lines, j, q)
      ensures HandedOver(front, i, |front|) || line.kind == QueueLine(q, true)
    {
      if j < |front| {
        assert T.RemovesAt(front, j, front[i].kind.qid);
      } else {
        assert lines[j] == line;
      }
    }
    assert HandedOver(lines, i, |lines|) ==> exists j :: i <= j < |lines| && T.RemovesAt(lines, j, q);
  }

  /** A line not handed over is in its pending group. */
  lemma {:induction false} PendingHasLine(lines: seq<Line>, i: nat)
    requires i < |lines| && lines[i].kind.QueueLine? && !HandedOver(lines, i, |lines|)
    ensures var q := lines[i].kind.qid; q in T.Tail(lines).pending && lines[i] in T.Tail(lines).pending[q]
  {
    var front, line := lines[..|lines| - 1], lines[|lines| - 1];
    assert lines == front + [line];
    if i < |front| {
      HandedOverSnoc(front, line, i);
      PendingHasLine(front, i);
    } else {
      assert !T.RemovesAt(lines, i, lines[i].kind.qid);
    }
    if line.kind.QueueLine? {
      T.QueueLineProcessed(T.Tail(front), line);
    }
  }

  /** A pending group has a line that was not handed over. */
  lemma {:induction false} PendingIsHeld(lines: seq<Line>, q: string) returns (i: nat)
    requires q in T.Tail(lines).pending
    ensures i < |lines| && lines[i].kind.QueueLine? && lines[i].kind.qid == q && !HandedOver(lines, i, |lines|)
  {
    var front, line := lines[..|lines| - 1], lines[|lines| - 1];
    assert lines == front + [line];
    if line.kind.QueueLine? {
      T.QueueLineProcessed(T.Tail(front), line);
    }
    if line.kind.QueueLine? && line.kind.qid == q {
      i := |front|;
    } else {
      i := PendingIsHeld(front, q);
      HandedOverSnoc(front, line, i);
    }
  }

  /** No group is pending exactly when every queue-id line was handed over. */
  lemma NonePendingIff(lines: seq<Line>)
    ensures T.Tail(lines).pending == map[]
      <==> forall i | 0 <= i < |lines| && lines[i].kind.QueueLine? :: HandedOver(lines, i, |lines|)
  {
    if T.Tail(lines).pending != map[] {
      var q :| q in T.Tail(lines).pending;
      var i := PendingIsHeld(lines, q);
    } else {
      forall i | 0 <= i < |lines| && lines[i].kind.QueueLine?
        ensures HandedOver(lines, i, |lines|)
      {
        if !HandedOver(lines, i, |lines|) {
          PendingHasLine(lines, i);
        }
      }
    }
  }

  /** What the removal of a queue id hands over: one record, showing every line of the group. */
  lemma RemovalHandsOver(front: seq<Line>, line: Line)
    requires line.kind.QueueLine? && line.kind.removed
    ensures var w, q := T.Tail(front), line.kind.qid;
      var group := (if q in w.pending then w.pending[q] else []) + P.Addition(q !in w.pending, w.connect, w.tls, line);
      && T.Process(w, line).handed == w.handed + [T.Finished(q, group, [P.RecordOf(q, group, w.verdicts)])]
      && forall l | l in group :: l in P.RecordOf(q, group, w.verdicts).raw
  {
    var w, q := T.Tail(front), line.kind.qid;
    var group := (if q in w.pending then w.pending[q] else []) + P.Addition(q !in w.pending, w.connect, w.tls, line);
    T.QueueLineProcessed(w, line);
    T.TailHeldKinds(front);
    if q in w.pending {
      T.PendingStandsAlone(front, q);
    }
    P.NextStandsAlone(q, q in w.pending, if q in w.pending then w.pending[q] else [], w.connect, w.tls, line);
    T.FinalizedRecord(q, group, w.verdicts);
    T.RecordLines(q, group, w.verdicts);
  }

  /** So every line is shown by the record handed over with it. */
  lemma HandedRecordShowsLine(lines: seq<Line>, i: nat, j: nat) returns (r: Record)
    requires i <= j < |lines| && lines[i].kind.QueueLine? && T.RemovesAt(lines, j, lines[i].kind.qid)
    requires !HandedOver(lines, i, j)
    ensures lines[i] in r.raw && r.qid == lines[i].kind.qid
    ensures var w, h := T.Tail(lines[..j]), T.Process(T.Tail(lines[..j]), lines[j]).handed;
      |h| == |w.handed| + 1 && h[..|w.handed|] == w.handed && h[|w.handed|].Finished? && h[|w.handed|].records == [r]
  {
    var front, w := lines[..j], T.Tail(lines[..j]);
    RemovalHandsOver(front, lines[j]);
    r := T.Process(w, lines[j]).handed[|w.handed|].records[0];
    if i < j {
      StillHeld(lines, i, j);
      PendingHasLine(front, i);
    }
  }

  lemma StillHeld(lines: seq<Line>, i: nat, j: nat)
    requires i < j < |lines| && lines[i].kind.QueueLine? && !HandedOver(lines, i, j)
    ensures !HandedOver(lines[..j], i, j)
  {
    forall k | i <= k < j
      ensures !T.RemovesAt(lines[..j], k, lines[..j][i].kind.qid)
    {
      assert !T.RemovesAt(lines, k, lines[i].kind.qid);
    }
  }

  // ---- which lines make a record ----

  predicate IsRejection(line: Line) {
    line.kind.NoQueueLine? && line.kind.reject.Some?
  }

  /** A line that ends up in a record: one of a queue id, or a rejection. */
  predicate Makes(line: Line) {
    line.kind.QueueLine? || IsRejection(line)
  }

  /** A line whose processing hands a record to the store. */
  predicate Ships(line: Line) {
    (line.kind.QueueLine? && line.kind.removed) || IsRejection(line)
  }

  /** The record of line i was handed over before line n: with its group, or at once for a rejection. */
  ghost predicate RecordOut(lines: seq<Line>, i: nat, n: nat)
    requires i < |lines| && n <= |lines| && Makes(lines[i])
  {
    if lines[i].kind.QueueLine? then HandedOver(lines, i, n) else i < n
  }

  /** A rejection is handed over as it is processed, and shows its line. */
  lemma RejectionHandsOver(w: T.Live, line: Line)
    requires IsRejection(line)
    ensures var r := P.RejectRecord(line.kind.reject.value, line);
      T.Process(w, line).handed == w.handed + [T.Rejected(r)] && r.raw == [line]
  {
  }

  // ---- what is enqueued when ----

  lemma AddedShips(c: Core, r: Record)
    requires InRange(c)
    ensures Apply(c, Mail([r])).snaps != []
  {
    assert [r][..0] == [];
    assert AddOne(c, r).snaps != [];
  }

  /** The tail has processed the lines that are marked, and counted at most one more. */
  ghost predicate TailSound(s: Sys) {
    && |s.marks| <= |s.lines| <= |s.marks| + 1 && s.tail == T.Tail(s.lines[..|s.marks|])
    && forall j | 0 <= j < |s.marks| :: s.marks[j] <= |s.fwd.enqueued|
  }

  /** When n lines were processed, t snapshots were enqueued: every later line that ships enqueued more. */
  ghost predicate CutAt(s: Sys, n: nat, t: nat) {
    && n <= |s.marks| <= |s.lines| && t <= |s.fwd.enqueued|
    && (forall j | 0 <= j < n :: s.marks[j] <= t)
    && (forall j | n <= j < |s.marks| && Ships(s.lines[j]) :: s.marks[j] > t)
  }

  ghost predicate CutsSound(s: Sys) {
    && CutAt(s, s.atRead, s.fwd.seen) && (s.fwd.phase.Sending? ==> CutAt(s, s.atDrain, |s.fwd.acked| + |s.fwd.phase.batch|))
    && (!s.fwd.phase.Idle? ==> s.atRead <= s.fwd.phase.offset <= s.atRead + 1 && s.fwd.phase.offset <= |s.lines|)
    && (s.fwd.checkpoint.Some? ==>
          && CutAt(s, s.savedAt, s.fwd.covered) && s.savedAt <= s.fwd.checkpoint.value <= s.savedAt + 1
          && s.fwd.checkpoint.value <= |s.lines|)
  }

  lemma CutNow(s: Sys)
    requires TailSound(s)
    ensures CutAt(s, |s.marks|, |s.fwd.enqueued|)
  {
  }

  lemma CutStays(s: Sys, s': Sys, n: nat, t: nat)
    requires CutAt(s, n, t) && s'.marks == s.marks && s.lines <= s'.lines && |s.fwd.enqueued| <= |s'.fwd.enqueued|
    ensures CutAt(s', n, t)
  {
  }

  lemma UpdatedEnqueues(s: Sys, e: Event)
    requires InRange(s.store)
    ensures Updated(s, e).fwd.enqueued == s.fwd.enqueued + Apply(s.store, e).snaps
  {
  }

  /** A removal, and a rejection, always ship something. */
  lemma ShippingLineShips(s: Sys)
    requires TailSound(s) && InRange(s.store) && |s.marks| < |s.lines| && Ships(s.lines[|s.marks|])
    ensures NextRecords(s) != [] && Apply(s.store, Mail(NextRecords(s))).snaps != []
  {
    var line := s.lines[|s.marks|];
    if line.kind.QueueLine? {
      RemovalHandsOver(s.lines[..|s.marks|], line);
    } else {
      RejectionHandsOver(s.tail, line);
    }
    var h := T.Process(s.tail, line).handed;
    assert h[|s.tail.handed|..] == [h[|s.tail.handed|]];
    OneHanded(h[|s.tail.handed|]);
    AddedShips(s.store, NextRecords(s)[0]);
  }

  /** Processing a line marks it with all that is enqueued, which a line that ships increases. */
  lemma LineMarks(s: Sys)
    requires TailSound(s) && InRange(s.store) && |s.marks| < |s.lines|
    ensures var s', line := LineProcessed(s), s.lines[|s.marks|];
      && s'.lines == s.lines && s'.marks == s.marks + [|s'.fwd.enqueued|] && |s.fwd.enqueued| <= |s'.fwd.enqueued|
      && (Ships(line) ==> |s.fwd.enqueued| < |s'.fwd.enqueued|)
  {
    UpdatedEnqueues(s, Mail(NextRecords(s)));
    if Ships(s.lines[|s.marks|]) {
      ShippingLineShips(s);
    }
  }

  lemma LineTailSound(s: Sys)
    requires TailSound(s) && InRange(s.store) && |s.marks| < |s.lines|
    ensures TailSound(LineProcessed(s))
  {
    LineMarks(s);
    var n := |s.marks|;
    assert s.lines[..n + 1][..n] == s.lines[..n];
  }

  lemma OneHanded(h: T.Handed)
    ensures HandedRecords([h]) == if h.Rejected? then [h.record] else h.records
  {
    assert [h][..0] == [];
  }

  lemma CutAfterLine(s: Sys, n: nat, t: nat)
    requires TailSound(s) && InRange(s.store) && |s.marks| < |s.lines| && CutAt(s, n, t)
    ensures CutAt(LineProcessed(s), n, t)
  {
    LineMarks(s);
  }

  lemma NextTailSound(s: Sys, origin: string, m: Move)
    requires TailSound(s) && InRange(s.store)
    ensures TailSound(Next(s, origin, m))
  {
    match m
    case LineDone =>
      if |s.marks| < |s.lines| {
        LineTailSound(s);
      }
    case Advance(line) =>
      if |s.lines| == |s.marks| {
        assert (s.lines + [line])[..|s.marks|] == s.lines[..|s.marks|];
      }
    case _ =>
  }

  lemma LineCutsSound(s: Sys)
    requires TailSound(s) && InRange(s.store) && |s.marks| < |s.lines| && CutsSound(s)
    ensures CutsSound(LineProcessed(s))
  {
    LineMarks(s);
    CutAfterLine(s, s.atRead, s.fwd.seen);
    if s.fwd.phase.Sending? {
      CutAfterLine(s, s.atDrain, |s.fwd.acked| + |s.fwd.phase.batch|);
    }
    if s.fwd.checkpoint.Some? {
      CutAfterLine(s, s.savedAt, s.fwd.covered);
    }
  }

  /** What a move that processes no line leaves alone. */
  lemma OthersKeepMarks(s: Sys, origin: string, m: Move)
    requires InRange(s.store) && F.Conserved(s.fwd) && !m.LineDone?
    ensures var s' := Next(s, origin, m);
      s'.marks == s.marks && s.lines <= s'.lines && |s.fwd.enqueued| <= |s'.fwd.enqueued|
  {
  }

  lemma CutsStay(s: Sys, s': Sys)
    requires CutsSound(s) && s'.marks == s.marks && s.lines <= s'.lines && |s.fwd.enqueued| <= |s'.fwd.enqueued|
    requires s' == s.(fwd := s'.fwd, lines := s'.lines, store := s'.store, recv := s'.recv, events := s'.events, applied := s'.applied)
    requires s'.fwd == s.fwd.(queue := s'.fwd.queue, enqueued := s'.fwd.enqueued, phase := s'.fwd.phase, backoff := s'.fwd.backoff)
    requires s'.fwd.phase == s.fwd.phase || s'.fwd.phase.Idle?
    ensures CutsSound(s')
  {
    CutStays(s, s', s.atRead, s.fwd.seen);
    if s'.fwd.phase.Sending? {
      CutStays(s, s', s.atDrain, |s.fwd.acked| + |s.fwd.phase.batch|);
    }
    if s.fwd.checkpoint.Some? {
      CutStays(s, s', s.savedAt, s.fwd.covered);
    }
  }

  lemma ReadCutsSound(s: Sys, origin: string)
    requires TailSound(s) && InRange(s.store) && F.Conserved(s.fwd) && CutsSound(s) && s.fwd.phase.Idle?
    ensures CutsSound(Next(s, origin, ReadOffset))
  {
    var s' := Next(s, origin, ReadOffset);
    CutNow(s');
    if s.fwd.checkpoint.Some? {
      CutStays(s, s', s.savedAt, s.fwd.covered);
    }
  }

  lemma DrainCutsSound(s: Sys, origin: string, heartbeat: bool)
    requires TailSound(s) && InRange(s.store) && F.Conserved(s.fwd) && CutsSound(s) && s.fwd.phase.Ready?
    ensures CutsSound(Next(s, origin, Drain(heartbeat)))
  {
    var s' := Next(s, origin, Drain(heartbeat));
    CutNow(s');
    CutStays(s, s', s.atRead, s.fwd.seen);
    if s.fwd.checkpoint.Some? {
      CutStays(s, s', s.savedAt, s.fwd.covered);
    }
  }

  lemma AckCutsSound(s: Sys, origin: string)
    requires TailSound(s) && InRange(s.store) && F.Conserved(s.fwd) && CutsSound(s) && s.fwd.phase.Sending?
    ensures CutsSound(Next(s, origin, Delivered(true)))
  {
    var s' := Next(s, origin, Delivered(true));
    CutStays(s, s', s.atRead, s.fwd.seen);
    if s.fwd.checkpoint.Some? {
      CutStays(s, s', s.savedAt, s.fwd.covered);
    }
  }

  /** Every move keeps what was cut, and cuts anew where it reads or drains. */
  lemma NextCutsSound(s: Sys, origin: string, m: Move)
    requires TailSound(s) && InRange(s.store) && F.Conserved(s.fwd) && CutsSound(s)
    ensures CutsSound(Next(s, origin, m))
  {
    var s' := Next(s, origin, m);
    if m.LineDone? {
      if |s.marks| < |s.lines| {
        LineCutsSound(s);
      }
    } else if m.ReadOffset? && s.fwd.phase.Idle? {
      ReadCutsSound(s, origin);
    } else if m.Drain? && s.fwd.phase.Ready? {
      DrainCutsSound(s, origin, m.heartbeat);
    } else if m == Delivered(true) && s.fwd.phase.Sending? {
      AckCutsSound(s, origin);
    } else {
      OthersKeepMarks(s, origin, m);
      CutsStay(s, s');
    }
  }

  lemma {:induction false} MovesCut(recv: Core, origin: string, moves: seq<Move>)
    ensures var s := Moves(recv, origin, moves); F.Conserved(s.fwd) && TailSound(s) && CutsSound(s)
  {
    MovesSound(recv, origin, moves);
    if moves != [] {
      MovesCut(recv, origin, moves[..|moves| - 1]);
      NextTailSound(Moves(recv, origin, moves[..|moves| - 1]), origin, moves[|moves| - 1]);
      NextCutsSound(Moves(recv, origin, moves[..|moves| - 1]), origin, moves[|moves| - 1]);
    }
  }

  // ---- the checkpoint ----

  /** The snapshots that line i led to, enqueued at the removal of its group or at the rejection, are among the first t ever enqueued. */
  ghost predicate Covered(s: Sys, i: nat, t: nat)
    requires i < |s.lines| && Makes(s.lines[i])
  {
    if IsRejection(s.lines[i]) then i < |s.marks| && s.marks[i] <= t
    else exists j | i <= j < |s.marks| && j < |s.lines| :: T.RemovesAt(s.lines, j, s.lines[i].kind.qid) && s.marks[j] <= t
  }

  ghost predicate AllCovered(s: Sys, n: nat, t: nat)
    requires n <= |s.lines|
  {
    forall i | 0 <= i < n && Makes(s.lines[i]) :: Covered(s, i, t)
  }

  /** Covered by a cut is handed over by then. */
  lemma CoveredIff(s: Sys, i: nat, n: nat, t: nat)
    requires CutAt(s, n, t) && i < |s.lines| && Makes(s.lines[i])
    ensures Covered(s, i, t) <==> RecordOut(s.lines, i, n)
  {
  }

  /** Nothing was on its way: no group pending, and no line that makes a record counted but not processed. */
  ghost predicate NothingHeld(lines: seq<Line>, offset: nat, processed: nat)
    requires processed <= offset <= |lines|
  {
    T.Tail(lines[..processed]).pending == map[] && (processed < offset ==> !Makes(lines[processed]))
  }

  lemma NothingHeldIff(lines: seq<Line>, offset: nat, processed: nat)
    requires processed <= offset <= |lines| && offset <= processed + 1
    ensures NothingHeld(lines, offset, processed)
      <==> forall i | 0 <= i < offset && Makes(lines[i]) :: RecordOut(lines, i, processed)
  {
    var done := lines[..processed];
    NonePendingIff(done);
    forall i | 0 <= i < processed && lines[i].kind.QueueLine?
      ensures HandedOver(done, i, processed) <==> HandedOver(lines, i, processed)
    {
      HandedOverPrefix(lines, i, processed);
    }
    assert forall i | 0 <= i < processed :: done[i] == lines[i];
  }

  lemma HandedOverPrefix(lines: seq<Line>, i: nat, n: nat)
    requires i < n <= |lines| && lines[i].kind.QueueLine?
    ensures HandedOver(lines[..n], i, n) <==> HandedOver(lines, i, n)
  {
    assert forall j | i <= j < n :: T.RemovesAt(lines[..n], j, lines[i].kind.qid) <==> T.RemovesAt(lines, j, lines[i].kind.qid);
  }

  /**
   The saved checkpoint, in every reachable state: the records of all lines before it are in
   the snapshots enqueued when its offset was read, exactly when at that moment no group was
   pending and no line that makes a record was counted but unprocessed. Those snapshots are
   acknowledged, so all that such a checkpoint promises is.
   */
  lemma CheckpointCoversIff(recv: Core, origin: string, moves: seq<Move>)
    ensures var s := Moves(recv, origin, moves);
      s.fwd.checkpoint.Some? ==>
        && s.savedAt <= s.fwd.checkpoint.value <= s.savedAt + 1 && s.fwd.checkpoint.value <= |s.lines|
        && s.fwd.covered <= |s.fwd.acked|
        && (AllCovered(s, s.fwd.checkpoint.value, s.fwd.covered) <==> NothingHeld(s.lines, s.fwd.checkpoint.value, s.savedAt))
        && (NothingHeld(s.lines, s.fwd.checkpoint.value, s.savedAt) ==> AllCovered(s, s.fwd.checkpoint.value, |s.fwd.acked|))
  {
    MovesCut(recv, origin, moves);
    var s := Moves(recv, origin, moves);
    if s.fwd.checkpoint.Some? {
      CutCoversIff(s, s.fwd.checkpoint.value, s.savedAt, s.fwd.covered);
      if AllCovered(s, s.fwd.checkpoint.value, s.fwd.covered) {
        CoveredIsAcked(s, s.fwd.checkpoint.value, s.fwd.covered);
      }
    }
  }

  lemma CutCoversIff(s: Sys, offset: nat, processed: nat, t: nat)
    requires CutAt(s, processed, t) && processed <= offset <= processed + 1 && offset <= |s.lines|
    ensures AllCovered(s, offset, t) <==> NothingHeld(s.lines, offset, processed)
  {
    NothingHeldIff(s.lines, offset, processed);
    forall i | 0 <= i < offset && Makes(s.lines[i])
      ensures Covered(s, i, t) <==> RecordOut(s.lines, i, processed)
    {
      CoveredIff(s, i, processed, t);
    }
  }

  /** What is covered by acknowledged snapshots is acknowledged. */
  lemma CoveredIsAcked(s: Sys, n: nat, t: nat)
    requires n <= |s.lines| && AllCovered(s, n, t) && t <= |s.fwd.acked|
    ensures AllCovered(s, n, |s.fwd.acked|)
  {
    forall i | 0 <= i < n && Makes(s.lines[i])
      ensures Covered(s, i, |s.fwd.acked|)
    {
      assert Covered(s, i, t);
    }
  }

  /**
   At the moment of saving: the records of all lines before the new checkpoint are
   acknowledged exactly when all of them had been handed over as the batch was drained.
   */
  lemma SavedCheckpointIff(recv: Core, origin: string, moves: seq<Move>)
    requires var f := Moves(recv, origin, moves).fwd; f.phase.Sending? && f.phase.batch != []
    ensures var s := Moves(recv, origin, moves);
      var s' := Next(s, origin, Delivered(true));
      && s'.fwd.checkpoint == Some(s.fwd.phase.offset) && s.fwd.phase.offset <= |s.lines| && s.atDrain <= |s.lines| && s'.lines == s.lines
      && (AllCovered(s', s.fwd.phase.offset, |s'.fwd.acked|) <==>
            forall i | 0 <= i < s.fwd.phase.offset && Makes(s.lines[i]) :: RecordOut(s.lines, i, s.atDrain))
  {
    MovesCut(recv, origin, moves);
    var s := Moves(recv, origin, moves);
    var s' := Next(s, origin, Delivered(true));
    CutStays(s, s', s.atDrain, |s'.fwd.acked|);
    forall i | 0 <= i < s.fwd.phase.offset && Makes(s.lines[i])
      ensures Covered(s', i, |s'.fwd.acked|) <==> RecordOut(s.lines, i, s.atDrain)
    {
      CoveredIff(s', i, s.atDrain, |s'.fwd.acked|);
    }
  }

  // ---- how far ahead it can be ----

  /** The state while the first group is pending and nothing has been enqueued. */
  ghost predicate Opened(s: Sys, first: Line, n: nat) {
    && |s.lines| == |s.marks| == n && n > 0 && s.lines[0] == first && s.tail == T.STARTED.(pending := map["A" := [first]])
    && s.store == EMPTY && s.fwd == F.STARTED
  }

  lemma TwoMoves(recv: Core, origin: string, moves: seq<Move>, line: Line)
    ensures var s := Moves(recv, origin, moves);
      |s.lines| == |s.marks| ==>
        Moves(recv, origin, moves + [Advance(line), LineDone]) == LineProcessed(s.(lines := s.lines + [line]))
  {
    MovesSnoc(recv, origin, moves, Advance(line));
    MovesSnoc(recv, origin, moves + [Advance(line)], LineDone);
    assert moves + [Advance(line)] + [LineDone] == moves + [Advance(line), LineDone];
  }

  lemma OpensOne(s: Sys, recv: Core, first: Line)
    requires s == Start(recv) && first.kind == QueueLine("A", false)
    ensures Opened(LineProcessed(s.(lines := s.lines + [first])), first, 1)
  {
    var u := s.(lines := s.lines + [first]);
    T.QueueLineProcessed(u.tail, first);
    assert [] + P.Addition(true, None, None, first) == [first];
    assert NextRecords(u) == [];
  }

  lemma OpensNoMore(s: Sys, first: Line, other: Line, n: nat)
    requires Opened(s, first, n) && other.kind == OtherLine && InRange(s.store)
    ensures Opened(LineProcessed(s.(lines := s.lines + [other])), first, n + 1)
  {
    assert NextRecords(s.(lines := s.lines + [other])) == [];
  }

  lemma FirstOpens(recv: Core, origin: string, first: Line)
    requires first.kind == QueueLine("A", false)
    ensures Opened(Moves(recv, origin, [Advance(first), LineDone]), first, 1)
  {
    TwoMoves(recv, origin, [], first);
    assert [] + [Advance(first), LineDone] == [Advance(first), LineDone];
    OpensOne(Start(recv), recv, first);
  }

  /** A log that opens a group and goes on for a while. */
  lemma {:induction false} OpensAndGoesOn(recv: Core, origin: string, first: Line, other: Line, k: nat) returns (moves: seq<Move>)
    requires first.kind == QueueLine("A", false) && other.kind == OtherLine
    ensures Opened(Moves(recv, origin, moves), first, k + 1)
  {
    if k == 0 {
      FirstOpens(recv, origin, first);
      moves := [Advance(first), LineDone];
    } else {
      var before := OpensAndGoesOn(recv, origin, first, other, k - 1);
      OneMoreOpens(recv, origin, before, first, other, k);
      moves := before + [Advance(other), LineDone];
    }
  }

  lemma OneMoreOpens(recv: Core, origin: string, moves: seq<Move>, first: Line, other: Line, n: nat)
    requires other.kind == OtherLine && Opened(Moves(recv, origin, moves), first, n)
    ensures Opened(Moves(recv, origin, moves + [Advance(other), LineDone]), first, n + 1)
  {
    TwoMoves(recv, origin, moves, other);
    OpensNoMore(Moves(recv, origin, moves), first, other, n);
  }

  lemma FirstStaysPending(w: T.Live, first: Line, last: Line)
    requires w == T.STARTED.(pending := map["A" := [first]]) && last.kind == QueueLine("B", true)
    ensures T.Process(w, last).pending == map["A" := [first]]
  {
    T.QueueLineProcessed(w, last);
    assert map["A" := [first]] - {"B"} == map["A" := [first]];
  }

  lemma LastShips(s: Sys, first: Line, last: Line, n: nat)
    requires Opened(s, first, n) && last.kind == QueueLine("B", true) && InRange(s.store) && TailSound(s)
    ensures var s' := LineProcessed(s.(lines := s.lines + [last]));
      && s'.lines == s.lines + [last] && |s'.marks| == n + 1 && s'.tail.pending == map["A" := [first]]
      && s'.fwd.queue != [] && s'.fwd.phase.Idle?
  {
    var u := s.(lines := s.lines + [last]);
    assert u.lines[..n] == s.lines[..n];
    LineMarks(u);
    ShippingLineShips(u);
    FirstStaysPending(s.tail, first, last);
  }

  /** However many lines back: a checkpoint is saved past a line whose group is still pending and never shipped. */
  lemma CheckpointPassesPending(recv: Core, origin: string, first: Line, other: Line, last: Line, k: nat) returns (moves: seq<Move>)
    requires first.kind == QueueLine("A", false) && other.kind == OtherLine && last.kind == QueueLine("B", true)
    ensures var s := Moves(recv, origin, moves);
      && s.fwd.checkpoint == Some(k + 2) && |s.lines| == |s.marks| == k + 2
      && s.lines[0] == first && "A" in s.tail.pending && !AllCovered(s, k + 2, |s.fwd.acked|)
  {
    var counted := OpensAndGoesOn(recv, origin, first, other, k);
    MovesCut(recv, origin, counted);
    TwoMoves(recv, origin, counted, last);
    LastShips(Moves(recv, origin, counted), first, last, k + 1);
    Round(recv, origin, counted + [Advance(last), LineDone]);
    moves := counted + [Advance(last), LineDone] + [ReadOffset, Drain(false), Delivered(true)];
    MovesCut(recv, origin, moves);
    PendingNotCovered(Moves(recv, origin, moves));
  }

  lemma PendingNotCovered(s: Sys)
    requires TailSound(s) && "A" in s.tail.pending && |s.lines| == |s.marks|
    ensures !AllCovered(s, |s.lines|, |s.fwd.acked|)
  {
    assert s.lines[..|s.marks|] == s.lines;
    var i := PendingIsHeld(s.lines, "A");
    assert !HandedOver(s.lines, i, |s.lines|);
    assert !Covered(s, i, |s.fwd.acked|);
  }

  /** One line ahead even of what was processed: the tail counts a line before it processes it. */
  lemma CheckpointRunsAhead(recv: Core, origin: string, first: Line, last: Line, late: Line) returns (moves: seq<Move>)
    requires first.kind == QueueLine("A", false) && last.kind == QueueLine("B", true)
    ensures var s := Moves(recv, origin, moves); s.fwd.checkpoint == Some(|s.marks| + 1)
  {
    var start := [Advance(first), LineDone];
    FirstOpens(recv, origin, first);
    MovesCut(recv, origin, start);
    TwoMoves(recv, origin, start, last);
    LastShips(Moves(recv, origin, start), first, last, 1);
    CountsOne(recv, origin, start + [Advance(last), LineDone], late);
    Round(recv, origin, start + [Advance(last), LineDone] + [Advance(late)]);
    moves := start + [Advance(last), LineDone] + [Advance(late)] + [ReadOffset, Drain(false), Delivered(true)];
  }

  lemma CountsOne(recv: Core, origin: string, moves: seq<Move>, line: Line)
    ensures var s := Moves(recv, origin, moves);
      |s.lines| == |s.marks| ==> Moves(recv, origin, moves + [Advance(line)]) == s.(lines := s.lines + [line])
  {
    MovesSnoc(recv, origin, moves, Advance(line));
  }

  /** Also past a rejection: the checkpoint covers its line, and nothing ever enqueued has its id. */
  lemma CheckpointPassesRejection(recv: Core, origin: string, r: Record, rejection: Line) returns (moves: seq<Move>)
    requires r == BLANK.(qid := "A") && IsRejection(rejection) && rejection.kind.reject.value.syntheticID != "A"
    ensures var s := Moves(recv, origin, moves);
      && s.fwd.checkpoint == Some(1) && s.lines == [rejection] && s.marks == [] && s.savedAt == 0
      && !NothingHeld(s.lines, 1, 0) && !AllCovered(s, 1, |s.fwd.acked|)
      && forall x | x in s.fwd.enqueued :: x.qid != rejection.kind.reject.value.syntheticID
  {
    var start := [Update(Mail([r]))];
    FirstUpdate(recv, origin, Mail([r]));
    OneRecordShips(r);
    CountsOne(recv, origin, start, rejection);
    Round(recv, origin, start + [Advance(rejection)]);
    moves := start + [Advance(rejection)] + [ReadOffset, Drain(false), Delivered(true)];
    MovesCut(recv, origin, moves);
    UnprocessedRejection(Moves(recv, origin, moves), rejection);
  }

  lemma UnprocessedRejection(s: Sys, rejection: Line)
    requires IsRejection(rejection) && s.lines == [] + [rejection] && s.marks == []
    ensures !NothingHeld(s.lines, 1, 0) && !AllCovered(s, 1, |s.fwd.acked|)
  {
    assert s.lines[0] == rejection;
    assert Makes(s.lines[0]) && !Covered(s, 0, |s.fwd.acked|);
  }

  lemma OneRecordShips(r: Record)
    requires r == BLANK.(qid := "A")
    ensures Apply(EMPTY, Mail([r])).snaps == [r]
  {
    assert [r][..0] == [] && [] + [r] == [r];
    assert AddOne(EMPTY, r).snaps == [r];
  }

  /** Nor does a checkpoint cover a scanner verdict that is waiting for its mail: nothing enqueued shows it. */
  lemma CheckpointPassesVerdict(recv: Core, origin: string, r: Record, v: RspamdVerdict) returns (moves: seq<Move>)
    requires r == BLANK.(qid := "A")
    ensures var s := Moves(recv, origin, moves);
      && s.fwd.checkpoint.Some? && Drained(s) && "B" in s.store.pending && s.store.pending["B"] == v
      && s.fwd.enqueued == [r] && r.filter == ""
  {
    var start := [Update(Scanner("B", v))];
    FirstUpdate(recv, origin, Scanner("B", v));
    var waiting := EMPTY.(pending := map["B" := v]);
    assert Apply(EMPTY, Scanner("B", v)) == Step(waiting, []);
    MovesSnoc(recv, origin, start, Update(Mail([r])));
    WaitingStays(r, v);
    Round(recv, origin, start + [Update(Mail([r]))]);
    moves := start + [Update(Mail([r]))] + [ReadOffset, Drain(false), Delivered(true)];
  }

  lemma WaitingStays(r: Record, v: RspamdVerdict)
    requires r == BLANK.(qid := "A")
    ensures var s := Apply(EMPTY.(pending := map["B" := v]), Mail([r])); s.snaps == [r] && s.core.pending == map["B" := v]
  {
    var waiting := EMPTY.(pending := map["B" := v]);
    AddSingle(waiting, r);
    assert Append(waiting, r).records == [r];
    assert AddOne(waiting, r).snaps == [r];
  }

  lemma AddSingle(c: Core, r: Record)
    requires InRange(c)
    ensures Add(c, [r]) == AddOne(c, r)
  {
    var records, s := [r], AddOne(c, r);
    assert records[..|records| - 1] == [] && [] + s.snaps == s.snaps;
    assert Add(c, records[..|records| - 1]) == Step(c, []);
  }
}
