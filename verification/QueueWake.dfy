/** No lost wake-up: a job whose push is over is always looked after by a worker that is not
    blocked, and after `shutdown` nobody stays blocked. */
module QueueWake {
  import opened Options
  import R = Ring
  import opened Ring
  import opened Counting
  import opened TaskQueue
  import opened QueueBase
  import opened QueueDrain

  /** The push of thread `t` has claimed position `q` and has not ended its wake-up step. */
  ghost predicate Pending(s: Pool, t: nat, q: nat)
    requires Ready(s) && t < |s.thr|
  {
    || (s.thr[t].Trying? && (s.ring.ops[t].Fills(q) || (s.ring.ops[t].PushOk? && s.ring.ops[t].pos == q)))
    || (s.thr[t].Waking() && s.thr[t].pos == q)
  }

  /** Some worker will look at the ring again before it blocks, as long as `q` is unclaimed. */
  ghost predicate Heeded(s: Pool, q: nat) {
    exists w :: 0 <= w < |s.thr| && s.thr[w].Heeds(q)
  }

  ghost predicate CaredFor(s: Pool, q: nat)
    requires Ready(s) && q < |s.ring.log| && s.ring.log[q].who < |s.thr|
  {
    Pending(s, s.ring.log[q].who, q) || Heeded(s, q)
  }

  /** Between the lock and the notification of a push, no worker is about to block on a stale
      view of its position. */
  ghost predicate AlertAt(s: Pool, t: nat)
    requires t < |s.thr|
  {
    var pc := s.thr[t];
    && (pc.Waking() ==> pc.pos < s.ring.tail)
    && ((pc.WakeUnlock? || pc.Notify?) && s.ring.head <= pc.pos ==>
          forall w :: 0 <= w < |s.thr| ==> !s.thr[w].Dozing(pc.pos))
  }

  ghost predicate Wake(s: Pool)
    requires Base(s)
  {
    && (forall q :: s.ring.head <= q < s.ring.tail ==> CaredFor(s, q))
    && (forall t :: 0 <= t < |s.thr| ==> AlertAt(s, t))
  }

  // ------------------------------------------------------------------ what a program counter does

  lemma NextPcHeeds(s: Pool, m: Move, q: nat)
    requires Ready(s) && m.t < |s.thr| && s.ring.head <= q < s.ring.tail
    ensures s.thr[m.t].Heeds(q) ==> NextPc(s, m).Heeds(q) || NextPc(s, m).Exited?
    ensures !s.thr[m.t].Dozing(q) ==> !NextPc(s, m).Dozing(q)
  {}

  /** Why a push may return without waking anybody. */
  ghost predicate MayFinish(s: Pool, m: Move)
    requires m.t < |s.thr|
  {
    || (s.thr[m.t].AskSleepers? && s.sleepers <= 0)
    || (s.thr[m.t].AskSpinners? && s.spinners != 0)
    || (s.thr[m.t].Notify? && (PicksParked(s, m) || !AnyParked(s.thr)))
  }

  lemma NextPcWaking(s: Pool, m: Move)
    requires Ready(s) && m.t < |s.thr|
    ensures
      var pc, op, next := s.thr[m.t], s.ring.ops[m.t], NextPc(s, m);
      && (pc.Waking() ==> (next.Waking() && next.pos == pc.pos) || MayFinish(s, m))
      && (pc.Trying? && op.PushOk? ==> next.Waking() && next.pos == op.pos)
      && (next.Waking() ==> (pc.Waking() && next.pos == pc.pos) || (pc.Trying? && op.PushOk? && next.pos == op.pos))
      && (next.WakeUnlock? ==> s.mutex.None?)
      && (next.Notify? ==> (pc.WakeUnlock? || pc.Notify?) && next.pos == pc.pos)
  {}

  // ------------------------------------------------------------------ the end of a push

  lemma NobodySleeps(s: Pool, q: nat)
    requires |s.thr| > 0 && Counters(s) && s.sleepers <= 0
    ensures !s.thr[0].Parked? && !s.thr[0].Dozing(q)
  {
    CountPositive(s.thr, Sleeping);
    assert !Sleeping(s.thr[0]);
  }

  lemma SomebodySpins(s: Pool, q: nat) returns (w: nat)
    requires Counters(s) && s.spinners != 0
    ensures w < |s.thr| && s.thr[w].Heeds(q)
  {
    CountPositive(s.thr, Spinning);
    w :| 0 <= w < |s.thr| && Spinning(s.thr[w]);
  }

  /** A push that returns leaves a worker that heeds its position. */
  lemma FinishHeeded(s: Pool, m: Move, next: Pc)
    requires Ready(s) && Counters(s) && m.t < |s.thr| && AlertAt(s, m.t) && MayFinish(s, m)
    requires s.thr[0].Worker() && !s.thr[0].Exited? && s.ring.head <= s.thr[m.t].pos
    ensures Heeded(Act(s, m, next), s.thr[m.t].pos)
  {
    var z := Act(s, m, next);
    var q := s.thr[m.t].pos;
    ActThreads(s, m, next);
    if s.thr[m.t].AskSleepers? {
      NobodySleeps(s, q);
      assert z.thr[0].Heeds(q);
    } else if s.thr[m.t].AskSpinners? {
      var w := SomebodySpins(s, q);
      assert z.thr[w].Heeds(q);
    } else if PicksParked(s, m) {
      assert z.thr[m.pick].Heeds(q);
    } else {
      assert !s.thr[0].Parked? && !s.thr[0].Dozing(q);
      assert z.thr[0].Heeds(q);
    }
  }

  // ------------------------------------------------------------------ preservation

  lemma HeededStable(s: Pool, m: Move, next: Pc, q: nat)
    requires Acts(s, m) && Heeded(s, q)
    requires s.thr[m.t].Heeds(q) ==> next.Heeds(q)
    ensures Heeded(Act(s, m, next), q)
  {
    var z := Act(s, m, next);
    ActThreads(s, m, next);
    var w :| 0 <= w < |s.thr| && s.thr[w].Heeds(q);
    assert z.thr[w].Heeds(q);
  }

  /** A heeded position stays heeded: the thread that moves goes on heeding it. */
  lemma ActHeeded(s: Pool, m: Move, q: nat)
    requires Acts(s, m) && Drain(Act(s, m, NextPc(s, m))) && s.ring.head <= q < s.ring.tail && Heeded(s, q)
    ensures Heeded(Act(s, m, NextPc(s, m)), q)
  {
    var next := NextPc(s, m);
    var z := Act(s, m, next);
    NextPcBase(s, m);
    NextPcHeeds(s, m, q);
    ActRing(s, m, next);
    ActThreads(s, m, next);
    assert DrainAt(z, m.t);
    HeededStable(s, m, next, q);
  }

  /** A position in the hands of its push stays there, or a worker heeds it when the push ends. */
  lemma ActPending(s: Pool, m: Move, u: nat, q: nat)
    requires Acts(s, m) && Counters(s) && Drain(s) && Wake(s)
    requires s.ring.head <= q < s.ring.tail && u < |s.thr| && Pending(s, u, q)
    ensures Pending(Act(s, m, NextPc(s, m)), u, q) || Heeded(Act(s, m, NextPc(s, m)), q)
  {
    var next := NextPc(s, m);
    NextPcWaking(s, m);
    NextPcBase(s, m);
    ActRing(s, m, next);
    ActThreads(s, m, next);
    if u == m.t && s.thr[u].Waking() && MayFinish(s, m) {
      assert AlertAt(s, m.t);
      assert s.thr[0].Worker() && DrainAt(s, 0);
      FinishHeeded(s, m, next);
    }
  }

  lemma ActCaredFor(s: Pool, m: Move, q: nat)
    requires Acts(s, m) && Counters(s) && Drain(s) && Wake(s)
    requires s.ring.head <= q < s.ring.tail
    ensures Act(s, m, NextPc(s, m)).ring.log == s.ring.log
    ensures CaredFor(Act(s, m, NextPc(s, m)), q)
  {
    NextPcBase(s, m);
    ActRing(s, m, NextPc(s, m));
    assert CaredFor(s, q);
    if Heeded(s, q) {
      ActDrain(s, m);
      ActHeeded(s, m, q);
    } else {
      ActPending(s, m, s.ring.log[q].who, q);
    }
  }

  lemma ActAlert(s: Pool, m: Move, u: nat)
    requires Acts(s, m) && Locking(s) && Wake(s) && u < |s.thr|
    ensures AlertAt(Act(s, m, NextPc(s, m)), u)
  {
    var next := NextPc(s, m);
    var z := Act(s, m, next);
    NextPcBase(s, m);
    NextPcWaking(s, m);
    ActRing(s, m, next);
    ActThreads(s, m, next);
    assert AlertAt(s, u) && AlertAt(s, m.t) && R.ThreadOk(s.ring, m.t);
    if (z.thr[u].WakeUnlock? || z.thr[u].Notify?) && s.ring.head <= z.thr[u].pos {
      var q := z.thr[u].pos;
      NextPcHeeds(s, m, q);
      forall w | 0 <= w < |z.thr| ensures !z.thr[w].Dozing(q) {
        assert s.thr[w].HoldsLock() <==> s.mutex == Some(w);
      }
    }
  }

  /** A ring step keeps the pending push pending and does not disturb the workers' views. */
  lemma RingCaredFor(s: Pool, z: Pool, t: nat, q: nat)
    requires Ready(s) && Ready(z) && z.thr == s.thr && t < |s.thr|
    requires q < |s.ring.log| && s.ring.log <= z.ring.log && s.ring.log[q].who < |s.thr|
    requires forall u :: 0 <= u < |s.thr| && u != t ==> z.ring.ops[u] == s.ring.ops[u]
    requires CaredFor(s, q) && (Pending(s, t, q) ==> Pending(z, t, q))
    ensures CaredFor(z, q)
  {
    if Heeded(s, q) {
      var w :| 0 <= w < |s.thr| && s.thr[w].Heeds(q);
      assert z.thr[w].Heeds(q);
    }
  }

  lemma RingPending(s: Pool, m: Move, q: nat)
    requires Ready(s) && m.t < |s.thr| && Pending(s, m.t, q)
    requires s.thr[m.t].Calling() && !s.ring.ops[m.t].AtRest()
    ensures Pending(RingMove(s, m.t, m.flip), m.t, q)
  {}

  /** A position that a ring step claims is in the hands of its push. */
  lemma RingNew(s: Pool, m: Move, q: nat)
    requires Rings(s, m) && s.ring.tail <= q < RingMove(s, m.t, m.flip).ring.tail
    ensures
      var z := RingMove(s, m.t, m.flip);
      q < |z.ring.log| && z.ring.log[q].who == m.t && Pending(z, m.t, q)
  {
    RingStepFrame(s.ring, m.t, m.flip);
    assert OpFits(s.thr[m.t], s.ring.ops[m.t]);
  }

  lemma RingOld(s: Pool, m: Move, q: nat)
    requires Rings(s, m) && Wake(s) && s.ring.head <= q < s.ring.tail
    ensures
      var z := RingMove(s, m.t, m.flip);
      q < |z.ring.log| && z.ring.log[q].who < |z.thr| && CaredFor(z, q)
  {
    RingStepFrame(s.ring, m.t, m.flip);
    assert CaredFor(s, q);
    if Pending(s, m.t, q) { RingPending(s, m, q); }
    RingCaredFor(s, RingMove(s, m.t, m.flip), m.t, q);
  }

  lemma RingWake(s: Pool, m: Move)
    requires Rings(s, m) && Wake(s)
    ensures Base(RingMove(s, m.t, m.flip)) && Wake(RingMove(s, m.t, m.flip))
  {
    var z := RingMove(s, m.t, m.flip);
    RingMoveBase(s, m);
    RingStepFrame(s.ring, m.t, m.flip);
    forall q | z.ring.head <= q < z.ring.tail ensures CaredFor(z, q) {
      if q < s.ring.tail { RingOld(s, m, q); } else { RingNew(s, m, q); }
    }
    forall t | 0 <= t < |z.thr| ensures AlertAt(z, t) { assert AlertAt(s, t); }
  }

  lemma AdvanceWake(s: Pool, m: Move)
    requires Base(s) && Counters(s) && Locking(s) && Drain(s) && Wake(s)
    ensures Base(Advance(s, m)) && Wake(Advance(s, m))
  {
    AdvanceCases(s, m);
    AdvanceBase(s, m);
    if Acts(s, m) {
      var z := Act(s, m, NextPc(s, m));
      NextPcBase(s, m);
      ActRing(s, m, NextPc(s, m));
      forall q | z.ring.head <= q < z.ring.tail ensures CaredFor(z, q) { ActCaredFor(s, m, q); }
      forall t | 0 <= t < |z.thr| ensures AlertAt(z, t) { ActAlert(s, m, t); }
    } else if Rings(s, m) {
      RingWake(s, m);
    }
  }

  // ------------------------------------------------------------------ shutdown reaches everybody

  /** After `shutdown` has taken the lock nobody can be about to block, and after its
      notification nobody is blocked. */
  ghost predicate Stop(s: Pool) {
    && (s.stopped ==> s.shutdown && forall w :: 0 <= w < |s.thr| ==> !s.thr[w].Park? && !s.thr[w].Parked?)
    && forall t :: 0 <= t < |s.thr| ==> StopAt(s, t)
  }

  ghost predicate StopAt(s: Pool, t: nat)
    requires t < |s.thr|
  {
    s.thr[t].CloseUnlock? || s.thr[t].CloseNotify? ==>
      s.shutdown && forall w :: 0 <= w < |s.thr| ==> !s.thr[w].Park?
  }

  lemma NextPcStop(s: Pool, m: Move)
    requires Ready(s) && m.t < |s.thr|
    ensures
      var pc, next := s.thr[m.t], NextPc(s, m);
      && (next.Park? ==> pc.AskStop? && !s.shutdown)
      && (next.Parked? ==> pc.Park? || pc.Parked?)
      && (next.CloseUnlock? ==> pc.CloseLock? && s.mutex.None?)
      && (next.CloseNotify? ==> pc.CloseUnlock?)
      && (pc.CloseNotify? ==> next.CloseJoin?)
  {}

  lemma AdvanceStop(s: Pool, m: Move)
    requires Base(s) && Locking(s) && Drain(s) && Stop(s)
    ensures Stop(Advance(s, m))
  {
    AdvanceCases(s, m);
    if Acts(s, m) {
      NextPcStop(s, m);
      assert DrainAt(s, m.t);
      ActStop(s, m, NextPc(s, m));
    } else if Rings(s, m) {
      var z := RingMove(s, m.t, m.flip);
      forall t | 0 <= t < |z.thr| ensures StopAt(z, t) { assert StopAt(s, t); }
    }
  }

  lemma ActStop(s: Pool, m: Move, next: Pc)
    requires Ready(s) && m.t < |s.thr| && Locking(s) && DrainAt(s, m.t) && Stop(s)
    requires next.Park? ==> s.thr[m.t].AskStop? && !s.shutdown
    requires next.Parked? ==> s.thr[m.t].Park? || s.thr[m.t].Parked?
    requires next.CloseUnlock? ==> s.thr[m.t].CloseLock? && s.mutex.None?
    requires next.CloseNotify? ==> s.thr[m.t].CloseUnlock?
    requires s.thr[m.t].CloseNotify? ==> next.CloseJoin?
    ensures Stop(Act(s, m, next))
  {
    var z := Act(s, m, next);
    ActThreads(s, m, next);
    assert StopAt(s, m.t);
    forall u | 0 <= u < |z.thr| ensures StopAt(z, u) {
      assert StopAt(s, u);
      if next.CloseUnlock? {
        forall w | 0 <= w < |z.thr| ensures !z.thr[w].Park? {
          assert s.thr[w].HoldsLock() <==> s.mutex == Some(w);
        }
      }
    }
  }
}
