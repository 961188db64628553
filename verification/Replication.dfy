/**
 End to end: a tailed log whose groups go to a store, a store that flushes to a forwarder,
 a lossy link, and a receiver that other servers write to as well. Shipping is at least
 once; the rows end up exactly once.
 */
module Replication {
  import opened Text
  import opened Records
  import opened StoreSpec
  import opened Coherence
  import opened Ingest
  import F = Forwarder
  import T = LiveTail

  /**
   The whole system. lines are those the tail has counted; marks has, for each of them that
   is processed, how many snapshots were enqueued after it. atRead, atDrain and savedAt are
   how many lines were processed when the offset was last read, when the queue was last
   drained, and when the offset of the saved checkpoint was read. events is the history of
   store operations; applied counts the unacknowledged snapshots the receiver already has.
   */
  datatype Sys = Sys(
    store: Core, fwd: F.Fwd, recv: Core,
    lines: seq<Line>, tail: T.Live, marks: seq<nat>, atRead: nat, atDrain: nat, savedAt: nat,
    events: seq<Event>, applied: nat)

  /** Update stands for what does not come from the tail: scanner verdicts, and the first parse of the logs. */
  datatype Move =
    | Advance(line: Line)
    | LineDone
    | Update(event: Event)
    | ReadOffset
    | Drain(heartbeat: bool)
    | Delivered(acked: bool)
    | Lost
    | OtherServer(name: string, batch: seq<Record>)

  function Start(recv: Core): Sys {
    Sys(EMPTY, F.STARTED, recv, [], T.STARTED, [], 0, 0, 0, [], 0)
  }

  /** The records of the calls the tail makes to the store. */
  function HandedRecords(handed: seq<T.Handed>): seq<Record> {
    if handed == [] then []
    else
      var last := handed[|handed| - 1];
      HandedRecords(handed[..|handed| - 1]) + if last.Rejected? then [last.record] else last.records
  }

  function Updated(s: Sys, e: Event): (s': Sys)
    requires InRange(s.store)
    ensures InRange(s'.store)
  {
    var step := Apply(s.store, e);
    s.(store := step.core, fwd := F.Act(s.fwd, F.Enqueue(step.snaps)), events := s.events + [e])
  }

  /** What the next counted line makes the tail hand to the store. */
  function NextRecords(s: Sys): seq<Record>
    requires |s.marks| < |s.lines|
  {
    var line := s.lines[|s.marks|];
    T.HandedGrows(s.tail, line);
    HandedRecords(T.Process(s.tail, line).handed[|s.tail.handed|..])
  }

  function LineProcessed(s: Sys): (s': Sys)
    requires InRange(s.store) && |s.marks| < |s.lines|
    ensures InRange(s'.store)
  {
    var u := if NextRecords(s) == [] then s else Updated(s, Mail(NextRecords(s)));
    u.(tail := T.Process(s.tail, s.lines[|s.marks|]), marks := s.marks + [|u.fwd.enqueued|])
  }

  /** Every interleaving is a sequence of these moves; each attempt takes effect before the next, or never. */
  function Next(s: Sys, origin: string, m: Move): Sys
    requires InRange(s.store)
  {
    match m
    case Advance(line) => if |s.lines| == |s.marks| then s.(lines := s.lines + [line]) else s
    case LineDone => if |s.marks| < |s.lines| then LineProcessed(s) else s
    case Update(e) => Updated(s, e)
    case ReadOffset =>
      if s.fwd.phase.Idle? then s.(fwd := F.Act(s.fwd, F.ReadOffset(|s.lines|)), atRead := |s.marks|) else s
    case Drain(heartbeat) =>
      if s.fwd.phase.Ready? then s.(fwd := F.Act(s.fwd, F.Drain(heartbeat)), atDrain := |s.marks|) else s
    case Delivered(acked) =>
      if !s.fwd.phase.Sending? then s
      else
        var applied := s.(recv := StoreSpec.Ingest(s.recv, origin, s.fwd.phase.batch));
        if !acked then applied.(fwd := F.Act(s.fwd, F.SendFailed), applied := |s.fwd.phase.batch|)
        else applied.(fwd := F.Act(s.fwd, F.SendAcked), applied := 0,
                      savedAt := if s.fwd.phase.batch == [] then s.savedAt else s.atRead)
    case Lost => s.(fwd := F.Act(s.fwd, F.SendFailed))
    case OtherServer(name, batch) =>
      if name == origin then s else s.(recv := StoreSpec.Ingest(s.recv, name, batch))
  }

  function Moves(recv: Core, origin: string, moves: seq<Move>): (s: Sys)
    ensures InRange(s.store)
  {
    if moves == [] then Start(recv)
    else
      var s := Moves(recv, origin, moves[..|moves| - 1]);
      NextInRange(s, origin, moves[|moves| - 1]);
      Next(s, origin, moves[|moves| - 1])
  }

  lemma NextInRange(s: Sys, origin: string, m: Move)
    requires InRange(s.store)
    ensures InRange(Next(s, origin, m).store)
  {
  }

  /** One server's part of what the receiver lists. */
  function Part(view: map<Key, Record>, origin: string): map<Key, Record> {
    map k | k in view && k.origin == origin :: view[k]
  }

  function Unacked(f: F.Fwd): seq<Record> {
    F.InFlight(f) + f.queue
  }

  ghost predicate AppliedFits(s: Sys) {
    s.applied <= if s.fwd.phase.Sending? then |s.fwd.phase.batch| else |s.fwd.queue|
  }

  /** What has been acknowledged, and what was applied without the forwarder learning of it. */
  function Received(s: Sys): seq<Record>
    requires AppliedFits(s)
  {
    s.fwd.acked + Unacked(s.fwd)[..s.applied]
  }

  ghost predicate StoreSound(s: Sys) {
    s.store == Run(s.events).core && s.fwd.enqueued == Run(s.events).snaps
  }

  /** The forwarder conserves what it was given, and the receiver has what was received, no more. */
  ghost predicate LinkSound(s: Sys, recv: Core, origin: string) {
    && F.Conserved(s.fwd) && AppliedFits(s)
    && Part(View(s.recv), origin) == Part(View(recv), origin) + Latest(origin, Received(s))
  }

  lemma {:induction false} LatestConcat(origin: string, a: seq<Record>, b: seq<Record>)
    ensures Latest(origin, a + b) == Latest(origin, a) + Latest(origin, b)
  {
    if b == [] {
      assert a + b == a;
    } else {
      LatestConcat(origin, a, b[..|b| - 1]);
      assert (a + b)[..|a + b| - 1] == a + b[..|b| - 1];
    }
  }

  lemma UnionAbsorbs(a: map<Key, Record>, p: map<Key, Record>, q: map<Key, Record>)
    ensures a + p + (p + q) == a + (p + q)
  {
  }

  /** Re-sending a batch whose first part had arrived already. */
  lemma LatestAbsorbs(origin: string, a: seq<Record>, p: seq<Record>, b: seq<Record>)
    requires p <= b
    ensures Latest(origin, a + p) + Latest(origin, b) == Latest(origin, a + b)
  {
    var rest := b[|p|..];
    assert b == p + rest;
    LatestOfThree(origin, a, p, rest);
  }

  lemma LatestOfThree(origin: string, a: seq<Record>, p: seq<Record>, rest: seq<Record>)
    ensures Latest(origin, a + p) + Latest(origin, p + rest) == Latest(origin, a + (p + rest))
  {
    LatestConcat(origin, a, p);
    LatestConcat(origin, p, rest);
    LatestConcat(origin, a, p + rest);
    UnionAbsorbs(Latest(origin, a), Latest(origin, p), Latest(origin, rest));
  }

  lemma PartOfUnion(view: map<Key, Record>, more: map<Key, Record>, origin: string, name: string)
    requires forall k | k in more :: k.origin == name
    ensures Part(view + more, origin) == if name == origin then Part(view, origin) + more else Part(view, origin)
  {
  }

  lemma PartOfIngest(recv: Core, origin: string, name: string, batch: seq<Record>)
    ensures Part(View(StoreSpec.Ingest(recv, name, batch)), origin)
      == if name == origin then Part(View(recv), origin) + Latest(origin, batch) else Part(View(recv), origin)
  {
    IngestView(recv, name, batch);
    LatestOrigin(name, batch);
    PartOfUnion(View(recv), Latest(name, batch), origin, name);
  }

  lemma AfterDelivery(s: Sys, origin: string, acked: bool)
    requires F.Conserved(s.fwd) && AppliedFits(s) && s.fwd.phase.Sending? && InRange(s.store)
    ensures var s' := Next(s, origin, Delivered(acked));
      F.Conserved(s'.fwd) && AppliedFits(s') && Received(s') == s.fwd.acked + s.fwd.phase.batch && s'.fwd.enqueued == s.fwd.enqueued
  {
    var s', batch := Next(s, origin, Delivered(acked)), s.fwd.phase.batch;
    F.ActConserves(s.fwd, if acked then F.SendAcked else F.SendFailed);
    if acked {
      assert Unacked(s'.fwd)[..0] == [];
    } else {
      assert Unacked(s'.fwd)[..|batch|] == batch;
    }
  }

  lemma DeliveredSound(s: Sys, recv: Core, origin: string, acked: bool)
    requires LinkSound(s, recv, origin) && s.fwd.phase.Sending? && InRange(s.store)
    ensures LinkSound(Next(s, origin, Delivered(acked)), recv, origin)
  {
    var batch := s.fwd.phase.batch;
    AfterDelivery(s, origin, acked);
    PartOfIngest(s.recv, origin, origin, batch);
    var p := Unacked(s.fwd)[..s.applied];
    assert p == batch[..s.applied];
    LatestAbsorbs(origin, s.fwd.acked, p, batch);
    UnionAssociates(Part(View(recv), origin), Latest(origin, Received(s)), Latest(origin, batch));
  }

  lemma UnionAssociates(a: map<Key, Record>, b: map<Key, Record>, c: map<Key, Record>)
    ensures a + b + c == a + (b + c)
  {
  }

  lemma SameReceivedSound(s: Sys, s': Sys, recv: Core, origin: string)
    requires LinkSound(s, recv, origin)
    requires F.Conserved(s'.fwd) && AppliedFits(s')
    requires Received(s') == Received(s) && Part(View(s'.recv), origin) == Part(View(s.recv), origin)
    ensures LinkSound(s', recv, origin)
  {
  }

  /** More snapshots behind the queue do not change what has been received. */
  lemma EnqueuedSound(s: Sys, s': Sys, recv: Core, origin: string, snaps: seq<Record>)
    requires LinkSound(s, recv, origin)
    requires s'.fwd == F.Act(s.fwd, F.Enqueue(snaps))
    requires s'.recv == s.recv && s'.applied == s.applied
    ensures LinkSound(s', recv, origin)
  {
    F.ActConserves(s.fwd, F.Enqueue(snaps));
    assert Unacked(s'.fwd) == Unacked(s.fwd) + snaps;
    assert Unacked(s'.fwd)[..s.applied] == Unacked(s.fwd)[..s.applied];
    SameReceivedSound(s, s', recv, origin);
  }

  /** Moves of the forwarder alone keep what is unacknowledged as it is. */
  lemma ForwarderSound(s: Sys, s': Sys, recv: Core, origin: string, a: F.Action)
    requires LinkSound(s, recv, origin) && (a.ReadOffset? || a.Drain? || a.SendFailed?)
    requires s' == s.(fwd := s'.fwd, atRead := s'.atRead, atDrain := s'.atDrain) && s'.fwd == F.Act(s.fwd, a)
    ensures LinkSound(s', recv, origin)
  {
    F.ActConserves(s.fwd, a);
    assert Unacked(s'.fwd) == Unacked(s.fwd);
    SameReceivedSound(s, s', recv, origin);
  }

  lemma NextLinkSound(s: Sys, recv: Core, origin: string, m: Move)
    requires LinkSound(s, recv, origin) && InRange(s.store)
    ensures LinkSound(Next(s, origin, m), recv, origin)
  {
    var s' := Next(s, origin, m);
    match m
    case Update(e) => EnqueuedSound(s, s', recv, origin, Apply(s.store, e).snaps);
    case LineDone =>
      if |s.marks| < |s.lines| && NextRecords(s) != [] {
        EnqueuedSound(s, s', recv, origin, Apply(s.store, Mail(NextRecords(s))).snaps);
      } else {
        SameReceivedSound(s, s', recv, origin);
      }
    case Delivered(acked) =>
      if s.fwd.phase.Sending? {
        DeliveredSound(s, recv, origin, acked);
      }
    case OtherServer(name, batch) =>
      if name != origin {
        PartOfIngest(s.recv, origin, name, batch);
        SameReceivedSound(s, s', recv, origin);
      }
    case Advance(_) => SameReceivedSound(s, s', recv, origin);
    case ReadOffset =>
      if s.fwd.phase.Idle? {
        ForwarderSound(s, s', recv, origin, F.ReadOffset(|s.lines|));
      }
    case Drain(heartbeat) =>
      if s.fwd.phase.Ready? {
        ForwarderSound(s, s', recv, origin, F.Drain(heartbeat));
      }
    case Lost => ForwarderSound(s, s', recv, origin, F.SendFailed);
  }

  lemma RunSnoc(events: seq<Event>, e: Event)
    ensures Run(events + [e]) == Step(Apply(Run(events).core, e).core, Run(events).snaps + Apply(Run(events).core, e).snaps)
  {
    assert (events + [e])[..|events|] == events;
  }

  lemma UpdatedSound(s: Sys, e: Event)
    requires StoreSound(s) && InRange(s.store)
    ensures StoreSound(Updated(s, e))
  {
    RunSnoc(s.events, e);
  }

  /** The other moves do not touch the store, its history or what was enqueued. */
  lemma OthersLeaveStore(s: Sys, origin: string, m: Move)
    requires InRange(s.store) && !m.Update? && !m.LineDone?
    ensures var s' := Next(s, origin, m);
      s'.store == s.store && s'.events == s.events && s'.fwd.enqueued == s.fwd.enqueued
  {
  }

  lemma NextStoreSound(s: Sys, origin: string, m: Move)
    requires StoreSound(s) && InRange(s.store)
    ensures StoreSound(Next(s, origin, m))
  {
    if m.Update? {
      UpdatedSound(s, m.event);
    } else if m.LineDone? {
      if |s.marks| < |s.lines| && NextRecords(s) != [] {
        UpdatedSound(s, Mail(NextRecords(s)));
      }
    } else {
      OthersLeaveStore(s, origin, m);
    }
  }

  lemma {:induction false} MovesSound(recv: Core, origin: string, moves: seq<Move>)
    ensures LinkSound(Moves(recv, origin, moves), recv, origin) && StoreSound(Moves(recv, origin, moves))
  {
    if moves == [] {
      assert Latest(origin, []) == map[];
      assert Received(Start(recv)) == [];
    } else {
      var front := Moves(recv, origin, moves[..|moves| - 1]);
      MovesSound(recv, origin, moves[..|moves| - 1]);
      NextLinkSound(front, recv, origin, moves[|moves| - 1]);
      NextStoreSound(front, origin, moves[|moves| - 1]);
    }
  }

  ghost predicate Drained(s: Sys) {
    s.fwd.queue == [] && !s.fwd.phase.Sending?
  }

  /**
   Exactly once: whenever nothing is queued or in flight, the receiver lists for this
   server the last listed snapshot of every key the store ever flushed, each once,
   whatever was lost, repeated or sent by others on the way.
   */
  lemma ExactlyOnce(recv: Core, origin: string, moves: seq<Move>)
    ensures var s := Moves(recv, origin, moves);
      Drained(s) ==> Part(View(s.recv), origin) == Part(View(recv), origin) + Latest(origin, Run(s.events).snaps)
  {
    MovesSound(recv, origin, moves);
    var s := Moves(recv, origin, moves);
    if Drained(s) {
      assert Unacked(s.fwd) == [] && s.fwd.acked + [] == s.fwd.acked;
      assert Received(s) == s.fwd.acked == s.fwd.enqueued;
    }
  }

  lemma MovesSnoc(recv: Core, origin: string, moves: seq<Move>, m: Move)
    ensures Moves(recv, origin, moves + [m]) == Next(Moves(recv, origin, moves), origin, m)
  {
    assert (moves + [m])[..|moves|] == moves;
  }

  lemma FirstUpdate(recv: Core, origin: string, e: Event)
    ensures var s, step := Moves(recv, origin, [Update(e)]), Apply(EMPTY, e);
      && s.store == step.core && s.fwd.queue == s.fwd.enqueued == step.snaps && s.fwd.phase.Idle?
      && s.recv == recv && s.lines == [] && s.marks == []
  {
    MovesSnoc(recv, origin, [], Update(e));
    assert [] + [Update(e)] == [Update(e)] && [] + Apply(EMPTY, e).snaps == Apply(EMPTY, e).snaps;
  }

  /** One full round of the send loop. */
  lemma Round(recv: Core, origin: string, moves: seq<Move>)
    requires var s := Moves(recv, origin, moves); s.fwd.queue != [] && s.fwd.phase.Idle?
    ensures var s, t := Moves(recv, origin, moves), Moves(recv, origin, moves + [ReadOffset, Drain(false), Delivered(true)]);
      && t.lines == s.lines && t.marks == s.marks && t.tail == s.tail && t.store == s.store && t.events == s.events
      && t.recv == StoreSpec.Ingest(s.recv, origin, s.fwd.queue) && Drained(t) && t.fwd.checkpoint == Some(|s.lines|)
      && t.fwd.enqueued == s.fwd.enqueued && t.savedAt == |s.marks|
  {
    var s := Moves(recv, origin, moves);
    MovesSnoc(recv, origin, moves, ReadOffset);
    MovesSnoc(recv, origin, moves + [ReadOffset], Drain(false));
    MovesSnoc(recv, origin, moves + [ReadOffset] + [Drain(false)], Delivered(true));
    assert moves + [ReadOffset, Drain(false), Delivered(true)] == moves + [ReadOffset] + [Drain(false)] + [Delivered(true)];
    RoundState(s, origin);
  }

  lemma RoundState(s: Sys, origin: string)
    requires InRange(s.store) && s.fwd.queue != [] && s.fwd.phase.Idle?
    ensures var t := Next(Next(Next(s, origin, ReadOffset), origin, Drain(false)), origin, Delivered(true));
      && t.lines == s.lines && t.marks == s.marks && t.tail == s.tail && t.store == s.store && t.events == s.events
      && t.recv == StoreSpec.Ingest(s.recv, origin, s.fwd.queue) && Drained(t) && t.fwd.checkpoint == Some(|s.lines|)
      && t.fwd.enqueued == s.fwd.enqueued && t.savedAt == |s.marks|
  {
    var ready := Next(s, origin, ReadOffset);
    assert ready == s.(fwd := ready.fwd, atRead := |s.marks|) && ready.fwd.phase == F.Ready(|s.lines|);
    var sending := Next(ready, origin, Drain(false));
    assert sending == ready.(fwd := sending.fwd, atDrain := |s.marks|) && sending.fwd.phase == F.Sending(s.fwd.queue, |s.lines|);
  }
}
