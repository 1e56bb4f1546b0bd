/** The bookkeeping that every step of the queue machine keeps: thread roles, the pairing of a
    queue program counter with a ring operation, the three counters and the parking lock. */
module QueueBase {
  import opened Options
  import R = Ring
  import opened Ring
  import opened Counting
  import opened TaskQueue

  ghost predicate PopKind(op: Op) {
    || op.PopLoad? || op.PopSeq? || op.PopCas? || op.PopRead? || op.PopClear? || op.PopRelease?
    || op.PopOk? || op.PopEmpty?
  }

  ghost predicate PushKind(op: Op, j: Job) {
    && (op.PushLoad? || op.PushSeq? || op.PushCas? || op.PushWrite? || op.PushPublish? || op.PushOk? || op.PushFull?)
    && op.x == j
  }

  /** The ring operation that goes with a program counter. */
  ghost predicate OpFits(pc: Pc, op: Op) {
    if pc.Trying? then PushKind(op, pc.j)
    else if pc.Calling() then PopKind(op)
    else op.AtRest()
  }

  ghost predicate Base(s: Pool) {
    && Ready(s)
    && R.Inv(s.ring)
    && 1 <= s.workers <= |s.thr|
    && (forall t :: 0 <= t < |s.thr| ==> (s.thr[t].Worker() <==> t < s.workers))
    && (forall t :: 0 <= t < |s.thr| ==> OpFits(s.thr[t], s.ring.ops[t]))
  }

  ghost predicate Counters(s: Pool) {
    && s.sleepers == Count(s.thr, Sleeping)
    && s.spinners == Count(s.thr, Spinning)
    && s.inFlight == Count(s.thr, InFlight)
  }

  ghost predicate Locking(s: Pool) {
    && (s.mutex.Some? ==> s.mutex.value < |s.thr|)
    && forall t :: 0 <= t < |s.thr| ==> (s.thr[t].HoldsLock() <==> s.mutex == Some(t))
  }

  /** Thread m.t performs an operation outside the ring. */
  ghost predicate Acts(s: Pool, m: Move) {
    && Base(s) && m.t < |s.thr| && !(s.thr[m.t].Calling() && !s.ring.ops[m.t].AtRest())
  }

  /** Thread m.t performs an operation inside the ring. */
  ghost predicate Rings(s: Pool, m: Move) {
    && Base(s) && m.t < |s.thr| && s.thr[m.t].Calling() && !s.ring.ops[m.t].AtRest()
  }

  lemma AdvanceCases(s: Pool, m: Move)
    requires Base(s)
    ensures m.t >= |s.thr| ==> Advance(s, m) == s
    ensures Acts(s, m) ==> Advance(s, m) == Act(s, m, NextPc(s, m))
    ensures Rings(s, m) ==> Advance(s, m) == RingMove(s, m.t, m.flip)
    ensures m.t < |s.thr| ==> Acts(s, m) || Rings(s, m)
  {}

  // ------------------------------------------------------------------ roles and ring operations

  /** What a ring step of thread `t` does not touch, and how it moves `tail_` and `head_`. */
  lemma RingStepFrame(r: State, t: nat, spurious: bool)
    requires R.Inv(r) && t < |r.ops|
    ensures
      var z := R.Step(r, t, spurious);
      && (forall u :: 0 <= u < |r.ops| && u != t ==> z.ops[u] == r.ops[u])
      && r.log <= z.log && r.takers <= z.takers
      && (z.tail == r.tail || (z.tail == r.tail + 1 && r.ops[t].PushCas? && z.head == r.head
                               && z.log == r.log + [Entry(r.ops[t].x, t)]
                               && z.ops[t] == PushWrite(r.ops[t].x, r.tail)))
      && (z.head == r.head || (z.head == r.head + 1 && r.ops[t].PopCas? && z.tail == r.tail
                               && z.takers == r.takers + [t] && z.ops[t] == PopRead(r.head)))
  {
    assert R.ThreadOk(r, t);
  }

  lemma RingStepFits(r: State, t: nat, spurious: bool, pc: Pc)
    requires R.Inv(r) && t < |r.ops| && OpFits(pc, r.ops[t]) && pc.Calling() && !r.ops[t].AtRest()
    ensures OpFits(pc, R.Step(r, t, spurious).ops[t])
  {}

  lemma RingMoveBase(s: Pool, m: Move)
    requires Rings(s, m)
    ensures Base(RingMove(s, m.t, m.flip))
  {
    R.StepInv(s.ring, m.t, m.flip);
    RingStepFrame(s.ring, m.t, m.flip);
    RingStepFits(s.ring, m.t, m.flip, s.thr[m.t]);
  }

  lemma NextPcBase(s: Pool, m: Move)
    requires Acts(s, m)
    ensures NextPc(s, m).Worker() == s.thr[m.t].Worker()
    ensures s.ring.ops[m.t].AtRest()
  {}

  /** What an operation outside the ring does to the ring: at most, it starts a call. */
  lemma ActRing(s: Pool, m: Move, next: Pc)
    requires Acts(s, m) && s.ring.ops[m.t].AtRest()
    ensures
      var r := Act(s, m, next).ring;
      && R.Inv(r) && r == s.ring.(ops := r.ops)
      && |r.ops| == |s.ring.ops| && r.ops == s.ring.ops[m.t := r.ops[m.t]]
      && OpFits(next, r.ops[m.t])
      && (next.Calling() ==> !r.ops[m.t].AtRest())
      && (r.ops[m.t] == s.ring.ops[m.t] || r.ops[m.t].PushLoad? || r.ops[m.t].PopLoad?)
  {
    if next.Trying? {
      R.GotoInv(s.ring, m.t, PushLoad(next.j));
    } else if next.Calling() {
      R.GotoInv(s.ring, m.t, PopLoad);
    }
  }

  /** What it does to the threads. */
  lemma ActThreads(s: Pool, m: Move, next: Pc)
    requires Ready(s) && m.t < |s.thr|
    ensures
      var z := Act(s, m, next);
      && |z.thr| == |s.thr| && z.thr[m.t] == next
      && forall u :: 0 <= u < |s.thr| && u != m.t ==>
           z.thr[u] == s.thr[u] || (s.thr[u].Parked? && z.thr[u].Woken?)
  {}

  lemma ActBase(s: Pool, m: Move, next: Pc)
    requires Acts(s, m) && s.ring.ops[m.t].AtRest()
    requires next.Worker() == s.thr[m.t].Worker()
    ensures Base(Act(s, m, next))
  {
    var z := Act(s, m, next);
    ActRing(s, m, next);
    ActThreads(s, m, next);
    forall u | 0 <= u < |z.thr| ensures (z.thr[u].Worker() <==> u < z.workers) && OpFits(z.thr[u], z.ring.ops[u]) {
      assert s.thr[u].Worker() <==> u < s.workers;
      assert OpFits(s.thr[u], s.ring.ops[u]);
    }
  }

  lemma AdvanceBase(s: Pool, m: Move)
    requires Base(s)
    ensures Base(Advance(s, m))
  {
    AdvanceCases(s, m);
    if Acts(s, m) {
      NextPcBase(s, m);
      ActBase(s, m, NextPc(s, m));
    } else if Rings(s, m) {
      RingMoveBase(s, m);
    }
  }

  // ------------------------------------------------------------------ counters

  lemma NextPcSleepers(s: Pool, m: Move)
    requires Ready(s) && m.t < |s.thr|
    ensures SleepersDelta(s.thr[m.t]) == B(Sleeping(NextPc(s, m))) - B(Sleeping(s.thr[m.t]))
  {}

  lemma NextPcCounters(s: Pool, m: Move)
    requires Ready(s) && m.t < |s.thr|
    ensures SpinnersDelta(s.thr[m.t]) == B(Spinning(NextPc(s, m))) - B(Spinning(s.thr[m.t]))
    ensures InFlightDelta(s.thr[m.t]) == B(InFlight(NextPc(s, m))) - B(InFlight(s.thr[m.t]))
  {}

  /** Notifications do not change any count, and thread m.t itself is not notified. */
  lemma RousedCount(s: Pool, m: Move, f: Pc -> bool)
    requires m.t < |s.thr| && f(Parked) == f(Woken)
    ensures Count(Roused(s, m), f) == Count(s.thr, f) && Roused(s, m)[m.t] == s.thr[m.t]
  {
    if s.thr[m.t].Notify? && PicksParked(s, m) {
      CountUpdate(s.thr, m.pick, Woken, f);
    } else {
      CountSame(s.thr, Roused(s, m), f);
    }
  }

  lemma ActCount(s: Pool, m: Move, next: Pc, f: Pc -> bool)
    requires Ready(s) && m.t < |s.thr| && f(Parked) == f(Woken)
    ensures Count(Act(s, m, next).thr, f) == Count(s.thr, f) + B(f(next)) - B(f(s.thr[m.t]))
  {
    RousedCount(s, m, f);
    CountUpdate(Roused(s, m), m.t, next, f);
  }

  lemma ActCounters(s: Pool, m: Move, next: Pc)
    requires Ready(s) && m.t < |s.thr| && Counters(s)
    requires SleepersDelta(s.thr[m.t]) == B(Sleeping(next)) - B(Sleeping(s.thr[m.t]))
    requires SpinnersDelta(s.thr[m.t]) == B(Spinning(next)) - B(Spinning(s.thr[m.t]))
    requires InFlightDelta(s.thr[m.t]) == B(InFlight(next)) - B(InFlight(s.thr[m.t]))
    ensures Counters(Act(s, m, next))
  {
    ActCount(s, m, next, Sleeping);
    ActCount(s, m, next, Spinning);
    ActCount(s, m, next, InFlight);
  }

  lemma ActKeepsCounters(s: Pool, m: Move)
    requires Acts(s, m) && Counters(s)
    ensures Counters(Act(s, m, NextPc(s, m)))
  {
    NextPcSleepers(s, m);
    NextPcCounters(s, m);
    ActCounters(s, m, NextPc(s, m));
  }

  lemma AdvanceCounters(s: Pool, m: Move)
    requires Base(s) && Counters(s)
    ensures Counters(Advance(s, m))
  {
    AdvanceCases(s, m);
    if Acts(s, m) { ActKeepsCounters(s, m); } else if Rings(s, m) { RingKeepsCounters(s, m); }
  }

  lemma RingKeepsCounters(s: Pool, m: Move)
    requires Rings(s, m) && Counters(s)
    ensures Counters(RingMove(s, m.t, m.flip))
  {
    assert RingMove(s, m.t, m.flip).thr == s.thr;
  }

  // ------------------------------------------------------------------ the parking lock

  /** How the lock moves with the program counter of thread `t`. */
  ghost predicate LockMoves(mutex: Option<nat>, t: nat, pc: Pc, next: Pc) {
    var after := MutexAfter(mutex, t, pc);
    || (pc.HoldsLock() == next.HoldsLock() && after == mutex)
    || (!pc.HoldsLock() && mutex.None? && next.HoldsLock() && after == Some(t))
    || (pc.HoldsLock() && !next.HoldsLock() && after.None?)
  }

  lemma NextPcLock(s: Pool, m: Move)
    requires Ready(s) && m.t < |s.thr|
    ensures LockMoves(s.mutex, m.t, s.thr[m.t], NextPc(s, m))
  {}

  lemma ActLocking(s: Pool, m: Move, next: Pc)
    requires Acts(s, m) && Locking(s) && LockMoves(s.mutex, m.t, s.thr[m.t], next)
    ensures Locking(Act(s, m, next))
  {
    var z := Act(s, m, next);
    forall u | 0 <= u < |z.thr| ensures z.thr[u].HoldsLock() <==> z.mutex == Some(u) {
      assert s.thr[u].HoldsLock() <==> s.mutex == Some(u);
      assert s.thr[m.t].HoldsLock() <==> s.mutex == Some(m.t);
    }
  }

  lemma ActKeepsLocking(s: Pool, m: Move)
    requires Acts(s, m) && Locking(s)
    ensures Locking(Act(s, m, NextPc(s, m)))
  {
    NextPcLock(s, m);
    ActLocking(s, m, NextPc(s, m));
  }

  lemma RingKeepsLocking(s: Pool, m: Move)
    requires Rings(s, m) && Locking(s)
    ensures Locking(RingMove(s, m.t, m.flip))
  {
    assert RingMove(s, m.t, m.flip).thr == s.thr;
  }

  lemma AdvanceLocking(s: Pool, m: Move)
    requires Base(s) && Locking(s)
    ensures Locking(Advance(s, m))
  {
    AdvanceCases(s, m);
    if Acts(s, m) { ActKeepsLocking(s, m); } else if Rings(s, m) { RingKeepsLocking(s, m); }
  }
}
