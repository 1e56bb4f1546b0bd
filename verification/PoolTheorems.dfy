/** What the queue and the thread pool guarantee in every run: any number of workers and clients,
    any interleaving, at least two ring cells. */
module PoolTheorems {
  import R = Ring
  import opened Ring
  import opened Counting
  import opened TaskQueue
  import opened QueueBase
  import opened QueueDrain
  import opened QueueWake
  import opened QueueJobs

  /** `shutdown` has returned only after every worker has left its loop. */
  ghost predicate Joined(s: Pool) {
    && s.workers <= |s.thr|
    && (s.joined ==> forall w :: 0 <= w < s.workers ==> s.thr[w].Exited?)
    && (forall t :: 0 <= t < |s.thr| ==> JoinAt(s, t))
  }

  ghost predicate JoinAt(s: Pool, t: nat)
    requires t < |s.thr| && s.workers <= |s.thr|
  {
    s.thr[t].CloseJoin? ==> forall w :: 0 <= w < s.thr[t].k && w < s.workers ==> s.thr[w].Exited?
  }

  ghost predicate Inv(s: Pool) {
    Base(s) && Counters(s) && Locking(s) && Drain(s) && Wake(s) && Stop(s) && Jobs(s) && Joined(s)
  }

  lemma NextPcJoin(s: Pool, m: Move)
    requires Ready(s) && m.t < |s.thr|
    ensures
      var pc, next := s.thr[m.t], NextPc(s, m);
      && (pc.Exited? ==> next.Exited?)
      && (next.CloseJoin? ==>
            || next.k == 0
            || (pc.CloseJoin? && (next.k == pc.k || (next.k == pc.k + 1 && pc.k < |s.thr| && s.thr[pc.k].Exited?))))
  {}

  lemma ActJoined(s: Pool, m: Move, next: Pc)
    requires Ready(s) && m.t < |s.thr| && Joined(s)
    requires s.thr[m.t].Exited? ==> next.Exited?
    requires next.CloseJoin? ==>
               || next.k == 0
               || (s.thr[m.t].CloseJoin? && (next.k == s.thr[m.t].k ||
                     (next.k == s.thr[m.t].k + 1 && s.thr[m.t].k < |s.thr| && s.thr[s.thr[m.t].k].Exited?)))
    ensures Joined(Act(s, m, next))
  {
    var z := Act(s, m, next);
    ActThreads(s, m, next);
    assert JoinAt(s, m.t);
    forall u | 0 <= u < |z.thr| ensures JoinAt(z, u) { assert JoinAt(s, u); }
  }

  lemma AdvanceJoined(s: Pool, m: Move)
    requires Base(s) && Joined(s)
    ensures Joined(Advance(s, m))
  {
    AdvanceCases(s, m);
    if Acts(s, m) {
      NextPcJoin(s, m);
      ActJoined(s, m, NextPc(s, m));
    } else if Rings(s, m) {
      var z := RingMove(s, m.t, m.flip);
      forall u | 0 <= u < |z.thr| ensures JoinAt(z, u) { assert JoinAt(s, u); }
    }
  }

  /** Every step of every thread keeps the whole invariant. */
  lemma AdvanceInv(s: Pool, m: Move)
    requires Inv(s)
    ensures Inv(Advance(s, m))
  {
    AdvanceBase(s, m);
    AdvanceCounters(s, m);
    AdvanceLocking(s, m);
    AdvanceDrain(s, m);
    AdvanceWake(s, m);
    AdvanceStop(s, m);
    AdvanceJobs(s, m);
    AdvanceJoined(s, m);
  }

  lemma StartTallied(n: nat, workers: nat, clients: nat, maxSpinners: nat)
    requires n >= 1
    ensures Tallied(Start(n, workers, clients, maxSpinners))
  {
    var s := Start(n, workers, clients, maxSpinners);
    forall i | 0 <= i < |s.thr| ensures !Holder(Zip(s)[i]) && !Placed(Zip(s)[i]) && !IsTally(s.thr[i]) {
      assert Zip(s)[i] == (s.thr[i], Idle);
    }
    NobodyCounts(Zip(s), Holder);
    NobodyCounts(Zip(s), Placed);
    NobodyCounts(s.thr, IsTally);
  }

  lemma StartJobs(n: nat, workers: nat, clients: nat, maxSpinners: nat)
    requires n >= 1
    ensures Jobs(Start(n, workers, clients, maxSpinners))
  {
    StartTallied(n, workers, clients, maxSpinners);
    StartTickets(n, workers, clients, maxSpinners);
  }

  lemma StartTickets(n: nat, workers: nat, clients: nat, maxSpinners: nat)
    requires n >= 1
    ensures
      var s := Start(n, workers, clients, maxSpinners);
      Light(s) && Logged(s) && Ran(s) && forall t :: 0 <= t < |s.thr| ==> TicketAt(s, t)
  {
    var s := Start(n, workers, clients, maxSpinners);
    forall t | 0 <= t < |s.thr| ensures TicketAt(s, t) { assert s.thr[t].SpinIn? || s.thr[t].Rest?; }
  }

  lemma StartBase(n: nat, workers: nat, clients: nat, maxSpinners: nat)
    requires n >= 2 && workers >= 1
    ensures Base(Start(n, workers, clients, maxSpinners))
  {
    R.InitInv(n, workers + clients);
  }

  lemma StartCounters(n: nat, workers: nat, clients: nat, maxSpinners: nat)
    ensures Counters(Start(n, workers, clients, maxSpinners))
  {
    var s := Start(n, workers, clients, maxSpinners);
    NobodyCounts(s.thr, Sleeping);
    NobodyCounts(s.thr, Spinning);
    NobodyCounts(s.thr, InFlight);
  }

  lemma StartInv(n: nat, workers: nat, clients: nat, maxSpinners: nat)
    requires n >= 2 && workers >= 1
    ensures Inv(Start(n, workers, clients, maxSpinners))
  {
    StartBase(n, workers, clients, maxSpinners);
    StartCounters(n, workers, clients, maxSpinners);
    StartJobs(n, workers, clients, maxSpinners);
  }

  lemma {:induction false} RunInv(s: Pool, moves: seq<Move>)
    requires Inv(s)
    ensures Inv(RunAll(s, moves))
    decreases |moves|
  {
    if moves != [] {
      RunInv(s, moves[..|moves| - 1]);
      AdvanceInv(RunAll(s, moves[..|moves| - 1]), moves[|moves| - 1]);
    }
  }

  /** A state that some schedule reaches from a fresh pool. */
  ghost predicate Reachable(s: Pool) {
    exists n, workers, clients, maxSpinners, moves ::
      IsRun(n, workers, clients, maxSpinners, moves, s)
  }

  ghost predicate IsRun(n: nat, workers: nat, clients: nat, maxSpinners: nat, moves: seq<Move>, s: Pool) {
    n >= 2 && workers >= 1 && s == RunAll(Start(n, workers, clients, maxSpinners), moves)
  }

  lemma ReachableInv(s: Pool)
    requires Reachable(s)
    ensures Inv(s)
  {
    var n, workers, clients, maxSpinners, moves :| IsRun(n, workers, clients, maxSpinners, moves, s);
    StartInv(n, workers, clients, maxSpinners);
    RunInv(Start(n, workers, clients, maxSpinners), moves);
  }

  // ------------------------------------------------------------------ no lost wake-up

  /** A job that is in the ring and whose push has ended its wake-up step is heeded: some worker
      is neither blocked nor about to block without looking at the ring again. */
  lemma NoLostWakeup(s: Pool, q: nat)
    requires Reachable(s) && s.ring.head <= q < s.ring.tail
    ensures q < |s.ring.log| && s.ring.log[q].who < |s.thr| == |s.ring.ops|
    ensures Pending(s, s.ring.log[q].who, q) || exists w :: 0 <= w < s.workers <= |s.thr| && s.thr[w].Heeds(q)
  {
    ReachableInv(s);
    assert CaredFor(s, q);
    if Heeded(s, q) {
      var w :| 0 <= w < |s.thr| && s.thr[w].Heeds(q);
      assert s.thr[w].Worker() <==> w < s.workers;
    }
  }

  lemma HeedsAct(s: Pool, m: Move, w: nat, q: nat)
    requires Inv(s) && Acts(s, m) && w < |s.thr| && s.thr[w].Heeds(q) && q < s.ring.tail && s.ring.head <= q
    requires Drain(Act(s, m, NextPc(s, m)))
    ensures Act(s, m, NextPc(s, m)).thr[w].Heeds(q)
  {
    var z := Act(s, m, NextPc(s, m));
    NextPcBase(s, m);
    ActRing(s, m, NextPc(s, m));
    ActThreads(s, m, NextPc(s, m));
    NextPcHeeds(s, m, q);
    assert DrainAt(z, w);
  }

  lemma HeedsStep(s: Pool, m: Move, w: nat, q: nat)
    requires Inv(s) && w < |s.thr| && s.thr[w].Heeds(q) && q < s.ring.tail
    requires Advance(s, m).ring.head <= q
    ensures Advance(s, m).thr[w].Heeds(q) && q < Advance(s, m).ring.tail && s.ring.head <= q
  {
    var z := Advance(s, m);
    AdvanceInv(s, m);
    AdvanceCases(s, m);
    if Acts(s, m) {
      ActRing(s, m, NextPc(s, m));
      HeedsAct(s, m, w, q);
    } else if Rings(s, m) {
      RingStepFrame(s.ring, m.t, m.flip);
    }
  }

  /** What heeding means: as long as position `q` is unclaimed, in whatever way the run goes on,
      the worker does not block. */
  lemma {:induction false} HeedingWorkerStaysAwake(s: Pool, w: nat, q: nat, moves: seq<Move>)
    requires Inv(s) && w < |s.thr| && s.thr[w].Heeds(q) && s.ring.head <= q < s.ring.tail
    requires RunAll(s, moves).ring.head <= q
    ensures Inv(RunAll(s, moves)) && q < RunAll(s, moves).ring.tail
    ensures RunAll(s, moves).thr[w].Heeds(q)
    decreases |moves|
  {
    if moves != [] {
      var before := RunAll(s, moves[..|moves| - 1]);
      var m := moves[|moves| - 1];
      RunInv(s, moves[..|moves| - 1]);
      HeadMonotone(before, m);
      HeedingWorkerStaysAwake(s, w, q, moves[..|moves| - 1]);
      HeedsStep(before, m, w, q);
      AdvanceInv(before, m);
    }
  }

  lemma HeadMonotone(s: Pool, m: Move)
    requires Inv(s)
    ensures s.ring.head <= Advance(s, m).ring.head
  {
    AdvanceCases(s, m);
    if Acts(s, m) {
      NextPcBase(s, m);
      ActRing(s, m, NextPc(s, m));
    } else if Rings(s, m) {
      RingStepFrame(s.ring, m.t, m.flip);
    }
  }

  /** The bad state of a lost wake-up, every worker blocked with work in the ring and no push
      under way, is not reachable. */
  lemma NeverAllParked(s: Pool)
    requires Reachable(s) && s.ring.head < s.ring.tail
    requires forall t, q :: 0 <= t < |s.thr| == |s.ring.ops| && 0 <= q ==> !Pending(s, t, q)
    ensures exists w :: 0 <= w < s.workers <= |s.thr| && !s.thr[w].Parked? && !s.thr[w].Exited?
  {
    ReachableInv(s);
    NoLostWakeup(s, s.ring.head);
    var w :| 0 <= w < s.workers <= |s.thr| && s.thr[w].Heeds(s.ring.head);
  }

  /** Once `LockFreeTaskQueue::shutdown` has returned, no worker is blocked or will block. */
  lemma NobodyParkedAfterShutdown(s: Pool, w: nat)
    requires Reachable(s) && s.stopped && w < |s.thr|
    ensures s.shutdown && !s.thr[w].Parked? && !s.thr[w].Park?
  {
    ReachableInv(s);
  }

  // ------------------------------------------------------------------ drain on shutdown

  lemma {:induction false} SealedFuture(s: Pool, moves: seq<Move>)
    requires Inv(s) && Sealed(s) && s.ring.head == s.ring.tail
    ensures
      var z := RunAll(s, moves);
      Inv(z) && Sealed(z) && z.ring.log == s.ring.log && z.ring.tail == z.ring.head == s.ring.tail
    decreases |moves|
  {
    if moves != [] {
      SealedFuture(s, moves[..|moves| - 1]);
      SealedStable(RunAll(s, moves[..|moves| - 1]), moves[|moves| - 1]);
      AdvanceInv(RunAll(s, moves[..|moves| - 1]), moves[|moves| - 1]);
    }
  }

  /** When a worker has left, every job that was or ever will be accepted had already been
      claimed by a consumer, whatever happens afterwards. */
  lemma DrainedBeforeExit(s: Pool, t: nat, moves: seq<Move>, j: Job)
    requires Reachable(s) && t < |s.thr| && s.thr[t].Exited?
    requires 0 <= j < |RunAll(s, moves).status| && RunAll(s, moves).status[j].Claimed?
    ensures s.ring.head == s.ring.tail && RunAll(s, moves).ring.tail == s.ring.tail
    ensures 0 <= j < |s.status| && s.status[j].Claimed? && s.status[j].pos < s.ring.head
  {
    ReachableInv(s);
    assert DrainAt(s, t);
    SealedFuture(s, moves);
    var z := RunAll(s, moves);
    var p := z.status[j].pos;
    assert z.ring.log[p].item == j;
    assert Is(s.status, s.ring.log[p].item, Claimed(p));
  }

  // ------------------------------------------------------------------ exactly-once execution

  predicate AllExited(s: Pool) {
    s.workers <= |s.thr| && forall w :: 0 <= w < s.workers ==> s.thr[w].Exited?
  }

  lemma NobodyHolds(s: Pool)
    requires Inv(s) && AllExited(s)
    ensures Count(Zip(s), Holder) == 0 && Count(s.thr, IsTally) == 0
  {
    forall t | 0 <= t < |s.thr| ensures !Holder(Zip(s)[t]) && !IsTally(s.thr[t]) {
      assert s.thr[t].Worker() <==> t < s.workers;
    }
    NobodyCounts(Zip(s), Holder);
    NobodyCounts(s.thr, IsTally);
  }

  lemma RanIffClaimed(s: Pool, j: Job)
    requires Inv(s) && AllExited(s) && 0 <= j < |s.status|
    ensures j in s.ran <==> s.status[j].Claimed?
  {
    assert s.thr[0].Exited? && DrainAt(s, 0);
    if s.status[j].Claimed? {
      var p := s.status[j].pos;
      assert RanAt(s, p);
      assert s.ring.takers[p] < |s.thr|;
      var w := s.ring.takers[p];
      assert s.thr[w].Worker() <==> w < s.workers;
    }
  }

  /** Once all workers have left: the jobs that ran are exactly the accepted ones, each ran once,
      no refused job ran, and `completed_` is the number of accepted submissions, counting those
      whose `submit` is still about to return true. */
  lemma ExactlyOnce(s: Pool)
    requires Reachable(s) && AllExited(s)
    ensures forall j :: 0 <= j < |s.status| ==> (j in s.ran <==> s.status[j].Claimed?)
    ensures forall j :: 0 <= j < |s.status| && s.status[j].Refused? ==> j !in s.ran
    ensures forall i, k :: 0 <= i < k < |s.ran| ==> s.ran[i] != s.ran[k]
    ensures forall i :: 0 <= i < |s.ran| ==> 0 <= s.ran[i] < |s.status|
    ensures |s.thr| == |s.ring.ops| && |s.ring.cells| > 0
    ensures s.completed == |s.ran| == s.ring.tail == s.accepts + Count(Zip(s), Placed)
    ensures (forall t :: s.workers <= t < |s.thr| ==> s.thr[t].Rest?) ==> s.completed == s.accepts
  {
    ReachableInv(s);
    NobodyHolds(s);
    assert s.thr[0].Exited? && DrainAt(s, 0);
    forall j | 0 <= j < |s.status| ensures j in s.ran <==> s.status[j].Claimed? { RanIffClaimed(s, j); }
    if forall t :: s.workers <= t < |s.thr| ==> s.thr[t].Rest? {
      forall t | 0 <= t < |s.thr| ensures !Placed(Zip(s)[t]) { }
      NobodyCounts(Zip(s), Placed);
    }
  }

  /** The call of `ThreadPool::shutdown` that performed the shutdown returns only when all that
      holds. */
  lemma JoinedMeansDone(s: Pool)
    requires Reachable(s) && s.joined
    ensures AllExited(s)
  {
    ReachableInv(s);
  }
}
