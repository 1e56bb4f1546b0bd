/** Nothing can get stuck on the way out: whatever has happened, a shutdown can still run to its end. */
module PoolCompletion {
  import opened Options
  import R = Ring
  import opened Ring
  import opened Counting
  import opened TaskQueue
  import opened QueueBase
  import opened QueueDrain
  import opened QueueWake
  import PT = PoolTheorems
  import opened PoolRuns

  /** The scheduler lets thread `t` perform its next operation; a spinning worker whose `try_pop`
      found nothing stops spinning. */
  function Turn(s: Pool, t: nat): Move
    requires Ready(s) && t < |s.thr|
  { Move(t, s.thr[t].Spin? && s.ring.ops[t].AtRest(), 0) }

  /** Everybody but `t` stays where he is. */
  ghost predicate Alone(s: Pool, t: nat, z: Pool) {
    && SameShape(s, z) && t < |s.thr| && (s.stopped ==> z.stopped)
    && Ready(s) && Ready(z)
    && forall u :: 0 <= u < |s.thr| && u != t ==> z.thr[u] == s.thr[u] && z.ring.ops[u] == s.ring.ops[u]
  }

  /** A call of `shutdown` that waits for the workers stays where it is. */
  ghost predicate JoinersStay(s: Pool, z: Pool) {
    SameShape(s, z) && forall u :: 0 <= u < |s.thr| && s.thr[u].CloseJoin? ==> z.thr[u] == s.thr[u]
  }

  lemma OthersStay(s: Pool, t: nat)
    requires Ready(s) && t < |s.thr| && !s.thr[t].Notify? && !s.thr[t].CloseNotify?
    ensures Alone(s, t, Advance(s, Turn(s, t)))
  {
    StepOps(s.ring, t, Turn(s, t).flip);
  }

  lemma StepOps(r: State, t: nat, spurious: bool)
    requires t < |r.ops| && |r.cells| > 0
    ensures R.Step(r, t, spurious).ops == r.ops[t := R.Step(r, t, spurious).ops[t]]
  {}

  lemma TurnAlone(s: Pool, t: nat)
    requires PT.Inv(s) && t < |s.thr| && !s.thr[t].Notify? && !s.thr[t].CloseNotify?
    ensures PT.Inv(Advance(s, Turn(s, t))) && Alone(s, t, Advance(s, Turn(s, t)))
  {
    PT.AdvanceInv(s, Turn(s, t));
    OthersStay(s, t);
  }

  // ------------------------------------------------------------------ the lock

  /** How far the holder of the lock is from its release. */
  function LockRank(pc: Pc): nat {
    match pc
    case SizeTail => 4
    case SizeHead(_) => 3
    case AskStop => 2
    case _ => 1
  }

  lemma UnlockStep(s: Pool, t: nat)
    requires Ready(s) && t < |s.thr| && s.thr[t].HoldsLock()
    ensures
      var z := Advance(s, Turn(s, t));
      && (z.thr[t].HoldsLock() ==> LockRank(z.thr[t]) < LockRank(s.thr[t]))
      && (!z.thr[t].HoldsLock() ==> z.mutex.None?)
      && z.shuttingDown == s.shuttingDown && z.shutdown == s.shutdown
  {}

  lemma {:induction false} UnlockBy(p: Pool -> bool, s: Pool, t: nat) returns (z: Pool)
    requires Closed(p) && p(s) && PT.Inv(s) && t < |s.thr| && s.thr[t].HoldsLock()
    ensures p(z) && PT.Inv(z) && Alone(s, t, z) && z.mutex.None?
    ensures z.shuttingDown == s.shuttingDown && z.shutdown == s.shutdown
    decreases LockRank(s.thr[t])
  {
    TurnAlone(s, t);
    UnlockStep(s, t);
    z := Advance(s, Turn(s, t));
    if z.thr[t].HoldsLock() { z := UnlockBy(p, z, t); }
  }

  /** Whoever holds the lock can release it. */
  lemma Release(p: Pool -> bool, s: Pool) returns (z: Pool)
    requires Closed(p) && p(s) && PT.Inv(s)
    ensures p(z) && PT.Inv(z) && SameShape(s, z) && z.mutex.None?
    ensures z.shuttingDown == s.shuttingDown && z.shutdown == s.shutdown && (s.stopped ==> z.stopped)
    ensures forall u :: 0 <= u < |s.thr| && !s.thr[u].HoldsLock() ==>
              z.thr[u] == s.thr[u] && z.ring.ops[u] == s.ring.ops[u]
  {
    z := s;
    if s.mutex.Some? { z := UnlockBy(p, s, s.mutex.value); }
  }

  // ------------------------------------------------------------------ pushes under way

  /** How far a push is from the end of its in-flight section, once the queue is shut down. */
  function PushRank(pc: Pc, op: Op, tail: nat): nat {
    match pc
    case Gate(_) => 20
    case Leave(_, _) => 4
    case Regate(_) => 2
    case Abort(_) => 1
    case _ => TryPushRank(op, tail)
  }

  function TryPushRank(op: Op, tail: nat): nat {
    match op
    case PushSeq(_, pos) => if pos == tail then 9 else 12
    case PushCas(_, pos) => if pos == tail then 8 else 11
    case PushLoad(_) => 10
    case PushWrite(_, _) => 7
    case PushPublish(_, _) => 6
    case PushOk(_, _) => 5
    case _ => 3
  }

  /** The cell at `tail_` is never ahead of it. */
  lemma TailNotAhead(r: State)
    requires R.Inv(r)
    ensures CellAt(r, r.tail).seqno <= r.tail
  {
    if r.tail < r.head + |r.cells| {
      assert R.FreeAt(r, r.tail);
    } else {
      assert Slot(r.head + |r.cells|, |r.cells|) == Slot(r.head, |r.cells|);
      assert R.FullAt(r, r.head);
    }
  }

  lemma TryPushStep(r: State, t: nat, j: Job)
    requires R.Inv(r) && t < |r.ops| && PushKind(r.ops[t], j) && !r.ops[t].AtRest()
    ensures TryPushRank(R.Step(r, t, false).ops[t], R.Step(r, t, false).tail) < TryPushRank(r.ops[t], r.tail)
  {
    TailNotAhead(r);
  }

  /** A push outside the ring, once the queue is shut down: towards the end of its section. */
  lemma PushNextRank(s: Pool, t: nat)
    requires Ready(s) && t < |s.thr| && s.shutdown && InFlight(s.thr[t]) && s.ring.ops[t].AtRest()
    requires OpFits(s.thr[t], s.ring.ops[t])
    ensures
      var next := NextPc(s, Turn(s, t));
      InFlight(next) ==> !next.Calling() && PushRank(next, s.ring.ops[t], s.ring.tail)
                                            < PushRank(s.thr[t], s.ring.ops[t], s.ring.tail)
  {}

  lemma InFlightStep(s: Pool, t: nat)
    requires Base(s) && Counters(s) && t < |s.thr| && s.shutdown && InFlight(s.thr[t])
    ensures
      var z := Advance(s, Turn(s, t));
      && z.mutex == s.mutex
      && (InFlight(z.thr[t]) ==> PushRank(z.thr[t], z.ring.ops[t], z.ring.tail)
                                 < PushRank(s.thr[t], s.ring.ops[t], s.ring.tail))
      && z.inFlight == s.inFlight - B(!InFlight(z.thr[t]))
  {
    var m := Turn(s, t);
    AdvanceCases(s, m);
    assert OpFits(s.thr[t], s.ring.ops[t]);
    if Rings(s, m) {
      TryPushStep(s.ring, t, s.thr[t].j);
    } else {
      PushNextRank(s, t);
      NextPcCounters(s, m);
    }
  }

  lemma {:induction false} LeaveSection(p: Pool -> bool, s: Pool, t: nat) returns (z: Pool)
    requires Closed(p) && p(s) && PT.Inv(s) && s.stopped && t < |s.thr| && InFlight(s.thr[t])
    ensures p(z) && PT.Inv(z) && Alone(s, t, z) && z.mutex == s.mutex && z.inFlight == s.inFlight - 1
    decreases PushRank(s.thr[t], s.ring.ops[t], s.ring.tail)
  {
    TurnAlone(s, t);
    InFlightStep(s, t);
    z := Advance(s, Turn(s, t));
    if InFlight(z.thr[t]) { z := LeaveSection(p, z, t); }
  }

  /** Every push under way can end its in-flight section. */
  lemma {:induction false} AllLeave(p: Pool -> bool, s: Pool) returns (z: Pool)
    requires Closed(p) && p(s) && PT.Inv(s) && s.stopped
    ensures p(z) && PT.Inv(z) && z.stopped && JoinersStay(s, z) && z.mutex == s.mutex && z.inFlight == 0
    decreases Count(s.thr, InFlight)
  {
    z := s;
    CountPositive(s.thr, InFlight);
    if t :| 0 <= t < |s.thr| && InFlight(s.thr[t]) {
      z := LeaveSection(p, s, t);
      z := AllLeave(p, z);
    }
  }

  // ------------------------------------------------------------------ workers

  /** How far a worker is from leaving, if it finds no further job. */
  function WorkRank(pc: Pc, op: Op, head: nat): nat {
    if pc.Calling() then
      if op.PopRead? then 87 else if op.PopClear? then 86 else if op.PopRelease? then 85 else if op.PopOk? then 84
      else TryPopRank(op, head) + (if pc.Spin? then 60 else if pc.Recheck? then 30 else 10)
    else IdleRank(pc)
  }

  function IdleRank(pc: Pc): nat {
    match pc
    case Woken => 95
    case ParkLock => 95
    case SizeTail => 94
    case SizeHead(_) => 93
    case AskStop => 92
    case ParkUnlock => 91
    case Unpark => 90
    case SpinOutGot(_, _) => 83
    case UnannounceGot(_, _) => 83
    case Execute(_, _) => 82
    case Tally => 81
    case SpinIn => 70
    case SpinOut => 50
    case Announce => 49
    case AskShutdown => 29
    case AskInFlight => 28
    case Unannounce => 27
    case _ => 0
  }

  function TryPopRank(op: Op, head: nat): nat {
    match op
    case PopSeq(pos) => if pos == head then 4 else 7
    case PopCas(pos) => if pos == head then 3 else 6
    case PopLoad => 5
    case _ => 2
  }

  /** The cell at `head_` is never more than one ahead of it. */
  lemma HeadNotAhead(r: State)
    requires R.Inv(r)
    ensures CellAt(r, r.head).seqno <= r.head + 1
  {
    if r.head < r.tail { assert R.FullAt(r, r.head); } else { assert R.FreeAt(r, r.head); }
  }

  lemma TryPopStep(r: State, t: nat, pc: Pc)
    requires R.Inv(r) && t < |r.ops| && PopKind(r.ops[t]) && !r.ops[t].AtRest() && pc.Calling()
    ensures
      var z := R.Step(r, t, false);
      && z.tail == r.tail
      && (z.head == r.head + 1 || (z.head == r.head && WorkRank(pc, z.ops[t], z.head) < WorkRank(pc, r.ops[t], r.head)))
  {
    HeadNotAhead(r);
  }

  /** A worker outside the ring, once the queue is shut down and no push is under way. */
  lemma WorkNextRank(s: Pool, t: nat)
    requires Ready(s) && t < |s.thr| && s.shutdown && s.inFlight == 0 && s.ring.ops[t].AtRest()
    requires OpFits(s.thr[t], s.ring.ops[t])
    requires s.thr[t].Worker() && !s.thr[t].Exited? && !s.thr[t].Park? && !s.thr[t].Parked?
    requires s.thr[t].HoldsLock() || s.mutex.None?
    ensures
      var next := NextPc(s, Turn(s, t));
      WorkRank(next, Opening(next, s.ring.ops[t]), s.ring.head) < WorkRank(s.thr[t], s.ring.ops[t], s.ring.head)
  {}

  /** Shut down, no push under way, and nobody but `t` may hold the lock. */
  ghost predicate Free(s: Pool, t: nat) {
    s.stopped && s.inFlight == 0 && (s.mutex.None? || s.mutex == Some(t))
  }

  lemma ActRanks(s: Pool, t: nat)
    requires Base(s) && t < s.workers && Acts(s, Turn(s, t))
    requires Locking(s) && Stop(s) && Free(s, t) && !s.thr[t].Exited?
    ensures
      var z := Advance(s, Turn(s, t));
      && z.ring.head == s.ring.head && z.ring.tail == s.ring.tail
      && WorkRank(z.thr[t], z.ring.ops[t], z.ring.head) < WorkRank(s.thr[t], s.ring.ops[t], s.ring.head)
  {
    var m := Turn(s, t);
    assert s.thr[t].Worker() && OpFits(s.thr[t], s.ring.ops[t]);
    AdvanceCases(s, m);
    NextPcBase(s, m);
    WorkNextRank(s, t);
    ActIsActed(s, t, m.flip, NextPc(s, m));
  }

  lemma ActFree(s: Pool, t: nat)
    requires Base(s) && Locking(s) && Free(s, t) && t < s.workers
    ensures Free(Advance(s, Turn(s, t)), t)
  {
    var m := Turn(s, t);
    AdvanceCases(s, m);
    assert s.thr[t].Worker();
    assert s.thr[t].HoldsLock() <==> s.mutex == Some(t);
  }

  lemma WorkStep(s: Pool, t: nat)
    requires Base(s) && Locking(s) && Stop(s) && Free(s, t) && t < s.workers && !s.thr[t].Exited?
    ensures
      var z := Advance(s, Turn(s, t));
      && z.ring.tail == s.ring.tail
      && (z.ring.head == s.ring.head + 1
          || (z.ring.head == s.ring.head && WorkRank(z.thr[t], z.ring.ops[t], z.ring.head)
                                            < WorkRank(s.thr[t], s.ring.ops[t], s.ring.head)))
  {
    var m := Turn(s, t);
    AdvanceCases(s, m);
    if Rings(s, m) {
      assert s.thr[t].Worker() && OpFits(s.thr[t], s.ring.ops[t]);
      TryPopStep(s.ring, t, s.thr[t]);
    } else {
      ActRanks(s, t);
    }
  }

  /** A worker alone takes the remaining jobs and leaves. */
  lemma {:induction false} LeaveLoop(p: Pool -> bool, s: Pool, t: nat) returns (z: Pool)
    requires Closed(p) && p(s) && PT.Inv(s) && Free(s, t) && t < s.workers
    ensures p(z) && PT.Inv(z) && Alone(s, t, z) && z.stopped && z.inFlight == 0 && z.mutex.None? && z.thr[t].Exited?
    decreases s.ring.tail - s.ring.head, WorkRank(s.thr[t], s.ring.ops[t], s.ring.head)
  {
    z := s;
    if !s.thr[t].Exited? {
      TurnAlone(s, t);
      ActFree(s, t);
      WorkStep(s, t);
      z := Advance(s, Turn(s, t));
      z := LeaveLoop(p, z, t);
    }
  }

  /** One worker after another. */
  lemma {:induction false} LeaveAll(p: Pool -> bool, s: Pool, k: nat) returns (z: Pool)
    requires Closed(p) && p(s) && PT.Inv(s) && s.stopped && s.inFlight == 0 && s.mutex.None? && k <= s.workers
    requires forall w :: 0 <= w < k ==> s.thr[w].Exited?
    ensures p(z) && PT.Inv(z) && JoinersStay(s, z) && PT.AllExited(z)
    decreases s.workers - k
  {
    z := s;
    if k < s.workers {
      assert s.thr[k].Worker();
      z := LeaveLoop(p, s, k);
      z := LeaveAll(p, z, k + 1);
    }
  }

  /** Once `shutdown` has notified everybody, all workers can leave. */
  lemma Finish(p: Pool -> bool, s: Pool) returns (z: Pool)
    requires Closed(p) && p(s) && PT.Inv(s) && s.stopped
    ensures p(z) && JoinersStay(s, z) && Ready(z) && PT.AllExited(z)
  {
    var s1 := Release(p, s);
    assert JoinersStay(s, s1);
    var s2 := AllLeave(p, s1);
    z := LeaveAll(p, s2, 0);
    StayTwice(s, s1, s2);
    StayTwice(s, s2, z);
  }

  lemma StayTwice(s: Pool, s1: Pool, s2: Pool)
    requires JoinersStay(s, s1) && JoinersStay(s1, s2)
    ensures JoinersStay(s, s2)
  {}

  lemma {:induction false} JoinAll(p: Pool -> bool, s: Pool, c: nat) returns (z: Pool)
    requires Closed(p) && p(s) && Ready(s) && PT.AllExited(s) && c < |s.thr| && s.thr[c].CloseJoin?
    ensures p(z) && PT.AllExited(z) && z.joined
    decreases if s.thr[c].k < s.workers then s.workers - s.thr[c].k else 0
  {
    OthersStay(s, c);
    z := Advance(s, Turn(s, c));
    if s.thr[c].k < s.workers { z := JoinAll(p, z, c); }
  }

  // ------------------------------------------------------------------ a new call of shutdown

  /** Client `c` is inside a call of `shutdown` and finds what it needs. */
  ghost predicate Closing(s: Pool, c: nat) {
    && Ready(s) && c < |s.thr| && s.thr[c].InClose()
    && (s.thr[c].CloseCas? ==> !s.shuttingDown)
    && (s.thr[c].CloseCas? || s.thr[c].CloseStore? || s.thr[c].CloseLock? ==> s.mutex.None?)
    && (s.thr[c].CloseJoin? ==> s.stopped)
  }

  function CloseRank(pc: Pc): nat {
    match pc
    case CloseCas => 5
    case CloseStore => 4
    case CloseLock => 3
    case CloseUnlock => 2
    case CloseNotify => 1
    case _ => 0
  }

  lemma CallShutdown(s: Pool, c: nat)
    requires Ready(s) && c < |s.thr| && s.thr[c].Rest? && s.mutex.None? && !s.shuttingDown
    ensures Closing(Advance(s, Move(c, true, 0)), c)
  {}

  lemma CloseNextRank(s: Pool, c: nat)
    requires Closing(s, c) && !s.thr[c].CloseJoin?
    ensures
      var pc, next := s.thr[c], NextPc(s, Turn(s, c));
      && next.InClose() && !next.CloseCas? && CloseRank(next) < CloseRank(pc)
      && (next.CloseStore? || next.CloseLock? ==> pc.CloseCas? || pc.CloseStore?)
      && (next.CloseJoin? ==> pc.CloseNotify?)
  {}

  lemma CloseStep(s: Pool, c: nat)
    requires Closing(s, c) && !s.thr[c].CloseJoin?
    ensures
      var z := Advance(s, Turn(s, c));
      Closing(z, c) && CloseRank(z.thr[c]) < CloseRank(s.thr[c])
  {
    CloseNextRank(s, c);
    ActThreads(s, Turn(s, c), NextPc(s, Turn(s, c)));
  }

  /** The call goes on up to the joining of the workers. */
  lemma {:induction false} CloseQueue(p: Pool -> bool, s: Pool, c: nat) returns (z: Pool)
    requires Closed(p) && p(s) && PT.Inv(s) && Closing(s, c)
    ensures p(z) && PT.Inv(z) && c < |z.thr| && z.thr[c].CloseJoin? && z.stopped
    decreases CloseRank(s.thr[c])
  {
    z := s;
    if !s.thr[c].CloseJoin? {
      CloseStep(s, c);
      PT.AdvanceInv(s, Turn(s, c));
      z := CloseQueue(p, Advance(s, Turn(s, c)), c);
    }
  }

  // ------------------------------------------------------------------ theorems

  /** From every reachable state in which `shutdown` has notified the workers, whatever they and the
      clients are doing, some continuation brings every worker out of its loop. */
  lemma WorkersCanLeave(s: Pool) returns (moves: seq<Move>)
    requires PT.Reachable(s) && s.stopped
    ensures Ready(s) && PT.AllExited(RunAll(s, moves))
  {
    PT.ReachableInv(s);
    ReachesClosed(s);
    var z := Finish(s' => Reaches(s, s'), s);
    moves :| RunAll(s, moves) == z;
  }

  /** And the call that performs the shutdown can return. */
  lemma ShutdownCanReturn(s: Pool, c: nat) returns (moves: seq<Move>)
    requires PT.Reachable(s) && s.stopped && c < |s.thr| && s.thr[c].CloseJoin?
    ensures Ready(s) && PT.AllExited(RunAll(s, moves)) && RunAll(s, moves).joined
  {
    PT.ReachableInv(s);
    ReachesClosed(s);
    var z := Finish(s' => Reaches(s, s'), s);
    z := JoinAll(s' => Reaches(s, s'), z, c);
    moves :| RunAll(s, moves) == z;
  }

  /** From every reachable state with an idle client and no shutdown begun, that client can call
      `shutdown`, and the call can run to its end: all workers gone and joined. */
  lemma ShutdownCanRun(s: Pool, c: nat) returns (moves: seq<Move>)
    requires PT.Reachable(s) && c < |s.thr| && s.thr[c].Rest? && !s.shuttingDown
    ensures Ready(s) && PT.AllExited(RunAll(s, moves)) && RunAll(s, moves).joined
  {
    PT.ReachableInv(s);
    ReachesClosed(s);
    var z := RunShutdown(s' => Reaches(s, s'), s, c);
    moves :| RunAll(s, moves) == z;
  }

  lemma RunShutdown(p: Pool -> bool, s: Pool, c: nat) returns (z: Pool)
    requires Closed(p) && p(s) && PT.Inv(s) && c < |s.thr| && s.thr[c].Rest? && !s.shuttingDown
    ensures p(z) && PT.AllExited(z) && z.joined
  {
    z := Release(p, s);
    CallShutdown(z, c);
    PT.AdvanceInv(z, Move(c, true, 0));
    z := CloseQueue(p, Advance(z, Move(c, true, 0)), c);
    z := Finish(p, z);
    z := JoinAll(p, z, c);
  }
}
