/**
 The forwarder: snapshots queue up, are drained into one batch at a time, and come
 back to the front of the queue when the send fails. The history fields record what
 was enqueued and acknowledged, for the statements only.
 */
module Forwarder {
  import opened Text
  import opened Records

  /** Where the send loop stands: before reading the offset, before draining, or with a batch out. */
  datatype Phase =
    | Idle
    | Ready(offset: nat)
    | Sending(batch: seq<Record>, offset: nat)

  /**
   History: all snapshots enqueued and acknowledged, how many had been enqueued when the
   offset was last read, and when the offset of the saved checkpoint was read.
   */
  datatype Fwd = Fwd(
    queue: seq<Record>, phase: Phase, backoff: nat, checkpoint: Option<nat>,
    enqueued: seq<Record>, acked: seq<Record>, seen: nat, covered: nat)

  const STARTED := Fwd([], Idle, 1, None, [], [], 0, 0)

  datatype Action =
    | Enqueue(records: seq<Record>)
    | ReadOffset(offset: nat)
    | Drain(heartbeat: bool)
    | SendFailed
    | SendAcked

  function InFlight(f: Fwd): seq<Record> {
    if f.phase.Sending? then f.phase.batch else []
  }

  /** One atomic section of the forwarder; an action that does not fit the phase does nothing. */
  function Act(f: Fwd, a: Action): Fwd {
    match a
    case Enqueue(records) => f.(queue := f.queue + records, enqueued := f.enqueued + records)
    case ReadOffset(offset) => if f.phase.Idle? then f.(phase := Ready(offset), seen := |f.enqueued|) else f
    case Drain(heartbeat) =>
      if !f.phase.Ready? then f
      else if f.queue == [] && !heartbeat then f.(phase := Idle)
      else f.(queue := [], phase := Sending(f.queue, f.phase.offset))
    case SendFailed =>
      if !f.phase.Sending? then f
      else f.(queue := f.phase.batch + f.queue, phase := Idle, backoff := if f.backoff < 30 then 2 * f.backoff else f.backoff)
    case SendAcked =>
      if !f.phase.Sending? then f
      else
        var done := f.(phase := Idle, backoff := 1, acked := f.acked + f.phase.batch);
        if f.phase.batch == [] then done else done.(checkpoint := Some(f.phase.offset), covered := f.seen)
  }

  function Acts(actions: seq<Action>): Fwd {
    if actions == [] then STARTED else Act(Acts(actions[..|actions| - 1]), actions[|actions| - 1])
  }

  /** Nothing is lost, duplicated or reordered, and a checkpoint covers acknowledged snapshots only. */
  ghost predicate Conserved(f: Fwd) {
    && f.enqueued == f.acked + InFlight(f) + f.queue
    && f.seen <= |f.enqueued|
    && (f.phase.Sending? ==> f.seen <= |f.acked| + |f.phase.batch|)
    && f.covered <= |f.acked|
    && f.backoff in {1, 2, 4, 8, 16, 32}
  }

  lemma ActConserves(f: Fwd, a: Action)
    requires Conserved(f)
    ensures Conserved(Act(f, a))
    ensures f.acked <= Act(f, a).acked && f.enqueued <= Act(f, a).enqueued
  {
    if a.Enqueue? {
      assert f.acked + InFlight(f) + (f.queue + a.records) == f.acked + InFlight(f) + f.queue + a.records;
    } else if a.SendFailed? && f.phase.Sending? {
      assert f.acked + [] + (f.phase.batch + f.queue) == f.acked + f.phase.batch + f.queue;
    } else if a.SendAcked? && f.phase.Sending? {
      assert f.acked + f.phase.batch + [] + f.queue == f.acked + f.phase.batch + f.queue;
    } else if a.Drain? && f.phase.Ready? {
      assert f.acked + [] + f.queue == f.acked + f.queue + [] == f.acked + f.queue;
    }
  }

  /** In every reachable state: acknowledged, in flight and queued make up all that was enqueued, in order. */
  lemma {:induction false} ActsConserve(actions: seq<Action>)
    ensures Conserved(Acts(actions))
    ensures Acts(actions).enqueued[..Acts(actions).covered] <= Acts(actions).acked
  {
    if actions == [] {
    } else {
      ActsConserve(actions[..|actions| - 1]);
      ActConserves(Acts(actions[..|actions| - 1]), actions[|actions| - 1]);
    }
  }

  // ---- when a batch goes out, and what a run leaves ----

  /**
   One round of the loop: from rest a batch goes out exactly when snapshots are queued or a
   heartbeat is due; it is the whole queue with the offset read before, and nothing stays queued.
   */
  lemma RoundSends(f: Fwd, offset: nat, heartbeat: bool)
    requires f.phase.Idle?
    ensures var g := Act(Act(f, ReadOffset(offset)), Drain(heartbeat));
      && (if f.queue != [] || heartbeat then g.phase == Sending(f.queue, offset) else g.phase == Idle)
      && g.queue == [] && g.seen == |f.enqueued|
      && g.enqueued == f.enqueued && g.acked == f.acked
      && g.backoff == f.backoff && g.checkpoint == f.checkpoint && g.covered == f.covered
  {
  }

  /** A send that fails or is acknowledged; outside a send either has no effect. */
  ghost predicate EndsSend(actions: seq<Action>, i: nat, outcome: Action) {
    i < |actions| && actions[i] == outcome && Acts(actions[..i]).phase.Sending?
  }

  /** The sends that failed since the last acknowledgement. */
  ghost function Failures(actions: seq<Action>): set<nat> {
    set i: nat | i < |actions| && EndsSend(actions, i, SendFailed) && Unanswered(actions, i)
  }

  ghost predicate Unanswered(actions: seq<Action>, i: nat) {
    forall j: nat | i < j < |actions| :: !EndsSend(actions, j, SendAcked)
  }

  function PowerOfTwo(n: nat): nat {
    if n == 0 then 1 else 2 * PowerOfTwo(n - 1)
  }

  lemma EndsEarlier(front: seq<Action>, a: Action, i: nat, outcome: Action)
    ensures EndsSend(front + [a], i, outcome) <==>
      EndsSend(front, i, outcome) || (i == |front| && a == outcome && Acts(front).phase.Sending?)
  {
    if i <= |front| {
      assert (front + [a])[..i] == front[..i];
      assert front[..|front|] == front;
    }
  }

  lemma FailuresStep(front: seq<Action>, a: Action)
    ensures Failures(front + [a]) ==
      if !Acts(front).phase.Sending? then Failures(front)
      else if a == SendFailed then Failures(front) + {|front|}
      else if a == SendAcked then {} else Failures(front)
  {
    var all, n := front + [a], |front|;
    forall i: nat, o
      ensures EndsSend(all, i, o) <==> EndsSend(front, i, o) || (i == n && a == o && Acts(front).phase.Sending?)
    {
      EndsEarlier(front, a, i, o);
    }
    forall i: nat | i < n
      ensures Unanswered(all, i) <==> Unanswered(front, i) && !EndsSend(all, n, SendAcked)
    {
    }
  }

  /** The waiting time after a number of failures in a row. */
  function Wait(failures: nat): nat {
    if failures <= 5 then PowerOfTwo(failures) else 32
  }

  lemma WaitGrows(n: nat)
    ensures Wait(0) == 1 && Wait(n + 1) == if Wait(n) < 30 then 2 * Wait(n) else Wait(n)
  {
    assert PowerOfTwo(3) == 8 && PowerOfTwo(4) == 2 * PowerOfTwo(3) && PowerOfTwo(5) == 2 * PowerOfTwo(4);
  }

  /** The number of failures in a row after one more action. */
  function FailuresAfter(sending: bool, a: Action, n: nat): nat {
    if sending && a == SendFailed then n + 1 else if sending && a == SendAcked then 0 else n
  }

  lemma BackoffStep(f: Fwd, a: Action, n: nat)
    requires f.backoff == Wait(n)
    ensures Act(f, a).backoff == Wait(FailuresAfter(f.phase.Sending?, a, n))
  {
    WaitGrows(n);
  }

  lemma CountStep(front: seq<Action>, a: Action)
    ensures |Failures(front + [a])| == FailuresAfter(Acts(front).phase.Sending?, a, |Failures(front)|)
  {
    FailuresStep(front, a);
    assert |front| !in Failures(front);
  }

  /** The waiting time doubles with every failed send since the last acknowledgement, up to 32 seconds. */
  lemma {:induction false} BackoffDoubles(actions: seq<Action>)
    ensures Acts(actions).backoff == if |Failures(actions)| <= 5 then PowerOfTwo(|Failures(actions)|) else 32
  {
    if actions == [] {
    } else {
      var front, a := actions[..|actions| - 1], actions[|actions| - 1];
      assert actions == front + [a];
      BackoffDoubles(front);
      CountStep(front, a);
      BackoffStep(Acts(front), a, |Failures(front)|);
    }
  }

  /** The acknowledgement that saved the checkpoint: the last one of a batch with snapshots. */
  ghost predicate Saves(actions: seq<Action>, i: nat, offset: nat) {
    && EndsSend(actions, i, SendAcked) && Acts(actions[..i]).phase.batch != [] && Acts(actions[..i]).phase.offset == offset
  }

  /** The saved checkpoint is the offset of the last acknowledged batch with snapshots; heartbeats save nothing. */
  lemma {:induction false} CheckpointIsLastShipped(actions: seq<Action>, offset: nat)
    ensures Acts(actions).checkpoint == Some(offset) <==>
      exists i: nat :: Saves(actions, i, offset) && forall j: nat, o | i < j :: !Saves(actions, j, o)
  {
    if actions != [] {
      var front, a := actions[..|actions| - 1], actions[|actions| - 1];
      var n := |front|;
      assert actions == front + [a] && actions[..n] == front;
      CheckpointIsLastShipped(front, offset);
      forall i: nat, o
        ensures Saves(actions, i, o) <==> Saves(front, i, o) || (i == n && Saves(actions, n, o))
      {
        EndsEarlier(front, a, i, SendAcked);
        if i < n {
          assert actions[..i] == front[..i];
        }
      }
      if exists o :: Saves(actions, n, o) {
        assert Saves(actions, n, Acts(front).phase.offset);
      } else {
        assert !Acts(front).phase.Sending? || a != SendAcked || Acts(front).phase.batch == [] by {
          EndsEarlier(front, a, n, SendAcked);
          if Acts(front).phase.Sending? && a == SendAcked && Acts(front).phase.batch != [] {
            assert Saves(actions, n, Acts(front).phase.offset);
          }
        }
        assert Acts(actions).checkpoint == Acts(front).checkpoint;
      }
    }
  }

  class Forwarder {
    var queue: seq<Record>
    var phase: Phase
    var backoff: nat
    var checkpoint: Option<nat>
    ghost var enqueued: seq<Record>
    ghost var acked: seq<Record>
    ghost var seen: nat
    ghost var covered: nat

    ghost function State(): Fwd
      reads this
    {
      Fwd(queue, phase, backoff, checkpoint, enqueued, acked, seen, covered)
    }

    constructor ()
      ensures State() == STARTED
    {
      queue, phase, backoff, checkpoint := [], Idle, 1, None;
      enqueued, acked, seen, covered := [], [], 0, 0;
    }

    method EnqueueRecords(records: seq<Record>)
      modifies this
      ensures State() == Act(old(State()), Enqueue(records))
    {
      if |records| == 0 {
        assert queue + records == queue && enqueued + records == enqueued;
        return;
      }
      queue := queue + records;
      enqueued := enqueued + records;
    }

    /** Reads the offset, then takes the whole queue; false when there is nothing to send. */
    method NextBatch(offset: nat, heartbeat: bool) returns (sending: bool)
      requires phase.Idle?
      modifies this
      ensures State() == Act(Act(old(State()), ReadOffset(offset)), Drain(heartbeat))
      ensures sending <==> old(queue) != [] || heartbeat
      ensures phase == (if sending then Sending(old(queue), offset) else Idle) && queue == []
    {
      seen := |enqueued|;
      var batch := queue;
      queue := [];
      if |batch| == 0 && !heartbeat {
        return false;
      }
      phase := Sending(batch, offset);
      return true;
    }

    /** A failed send puts the batch back in front of what arrived meanwhile. */
    method Requeue()
      requires phase.Sending?
      modifies this
      ensures State() == Act(old(State()), SendFailed)
    {
      if |phase.batch| > 0 {
        queue := phase.batch + queue;
      } else {
        assert phase.batch + queue == queue;
      }
      phase := Idle;
      if backoff < 30 {
        backoff := 2 * backoff;
      }
    }

    /** An acknowledged batch saves the checkpoint, unless it was only a heartbeat. */
    method Acknowledge()
      requires phase.Sending?
      modifies this
      ensures State() == Act(old(State()), SendAcked)
    {
      acked := acked + phase.batch;
      backoff := 1;
      if |phase.batch| > 0 {
        checkpoint := Some(phase.offset);
        covered := seen;
      }
      phase := Idle;
    }
  }
}
