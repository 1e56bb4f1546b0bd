/** Shutdown: a worker leaves only when every accepted job has been claimed, and nobody stays
    blocked. */
module QueueDrain {
  import RT = RingTheorems
  import opened Counting
  import opened TaskQueue
  import opened QueueBase

  /** Shut down, and no push is between its shutdown check and the end of its in-flight section:
      no position can be claimed any more. */
  ghost predicate Sealed(s: Pool) {
    s.shutdown && forall t :: 0 <= t < |s.thr| ==> !s.thr[t].Committed()
  }

  ghost predicate DrainAt(s: Pool, t: nat)
    requires Ready(s) && t < |s.thr|
  {
    var pc := s.thr[t];
    && (pc.AskInFlight? || pc.CloseLock? || pc.CloseUnlock? || pc.CloseNotify? || pc.CloseJoin? ==> s.shutdown)
    && (pc.Unannounce? || pc.LastTry? || pc.Exited? ==> Sealed(s))
    && (pc.Exited? || (pc.LastTry? && s.ring.ops[t].PopEmpty?) ==> s.ring.head == s.ring.tail)
  }

  ghost predicate Drain(s: Pool) {
    Ready(s) && forall t :: 0 <= t < |s.thr| ==> DrainAt(s, t)
  }

  lemma NextPcDrain(s: Pool, m: Move)
    requires Ready(s) && m.t < |s.thr|
    ensures
      var pc, next := s.thr[m.t], NextPc(s, m);
      && (next.Committed() ==> pc.Committed() || !s.shutdown)
      && (next.AskInFlight? ==> s.shutdown)
      && (next.Unannounce? ==> pc.AskInFlight? && s.inFlight == 0)
      && (next.LastTry? ==> pc.Unannounce?)
      && (next.Exited? ==> pc.Exited? || (pc.LastTry? && !s.ring.ops[m.t].PopOk?))
      && (next.CloseLock? || next.CloseUnlock? || next.CloseNotify? || next.CloseJoin? ==>
            pc.CloseStore? || pc.CloseLock? || pc.CloseUnlock? || pc.CloseNotify? || pc.CloseJoin?)
  {}

  lemma SealedAct(s: Pool, m: Move, next: Pc)
    requires Acts(s, m) && Sealed(s) && (next.Committed() ==> s.thr[m.t].Committed())
    ensures Sealed(Act(s, m, next))
  {
    ActThreads(s, m, next);
  }

  /** Once sealed, for ever sealed: the tail does not move. */
  lemma SealedStable(s: Pool, m: Move)
    requires Base(s) && Sealed(s)
    ensures Sealed(Advance(s, m))
    ensures Advance(s, m).ring.tail == s.ring.tail && Advance(s, m).ring.log == s.ring.log
    ensures s.ring.head <= Advance(s, m).ring.head <= s.ring.tail
  {
    AdvanceCases(s, m);
    AdvanceBase(s, m);
    if Acts(s, m) {
      NextPcBase(s, m);
      NextPcDrain(s, m);
      SealedAct(s, m, NextPc(s, m));
      ActRing(s, m, NextPc(s, m));
    } else if Rings(s, m) {
      RingStepFrame(s.ring, m.t, m.flip);
      assert !s.thr[m.t].Committed();
      assert OpFits(s.thr[m.t], s.ring.ops[m.t]);
    }
  }

  lemma NobodyInFlight(s: Pool)
    requires Counters(s) && s.inFlight == 0 && s.shutdown
    ensures Sealed(s)
  {
    CountPositive(s.thr, InFlight);
    forall t | 0 <= t < |s.thr| ensures !s.thr[t].Committed() { assert !InFlight(s.thr[t]); }
  }

  lemma ActDrain(s: Pool, m: Move)
    requires Acts(s, m) && Counters(s) && Drain(s)
    ensures Drain(Act(s, m, NextPc(s, m)))
  {
    var next := NextPc(s, m);
    var z := Act(s, m, next);
    NextPcBase(s, m);
    NextPcDrain(s, m);
    ActRing(s, m, next);
    ActThreads(s, m, next);
    assert DrainAt(s, m.t) && OpFits(s.thr[m.t], s.ring.ops[m.t]);
    if next.Unannounce? { NobodyInFlight(s); }
    if Sealed(s) { SealedAct(s, m, next); }
    forall u | 0 <= u < |z.thr| ensures DrainAt(z, u) {
      assert DrainAt(s, u);
    }
  }

  lemma RingDrain(s: Pool, m: Move)
    requires Rings(s, m) && Drain(s)
    ensures Drain(RingMove(s, m.t, m.flip))
  {
    var z := RingMove(s, m.t, m.flip);
    RingMoveBase(s, m);
    RingStepFrame(s.ring, m.t, m.flip);
    assert OpFits(s.thr[m.t], s.ring.ops[m.t]);
    if s.thr[m.t].LastTry? && z.ring.ops[m.t].PopEmpty? { LastTryEmpty(s, m); }
    forall u | 0 <= u < |z.thr| ensures DrainAt(z, u) {
      assert DrainAt(s, u);
    }
  }

  /** The last `try_pop` of a leaving worker fails only on a ring with nothing left to claim. */
  lemma LastTryEmpty(s: Pool, m: Move)
    requires Rings(s, m) && Drain(s) && s.thr[m.t].LastTry?
    requires RingMove(s, m.t, m.flip).ring.ops[m.t].PopEmpty?
    ensures s.ring.head == s.ring.tail
  {
    assert DrainAt(s, m.t) && OpFits(s.thr[m.t], s.ring.ops[m.t]);
    RT.PopRefusalJustified(s.ring, m.t, m.flip);
    NobodyFills(s);
  }

  lemma NobodyFills(s: Pool)
    requires Base(s) && Sealed(s)
    ensures forall t :: 0 <= t < |s.ring.ops| ==> !s.ring.ops[t].Filling()
  {
    forall t | 0 <= t < |s.ring.ops| ensures !s.ring.ops[t].Filling() {
      assert OpFits(s.thr[t], s.ring.ops[t]);
    }
  }

  lemma AdvanceDrain(s: Pool, m: Move)
    requires Base(s) && Counters(s) && Drain(s)
    ensures Drain(Advance(s, m))
  {
    AdvanceCases(s, m);
    if Acts(s, m) { ActDrain(s, m); } else if Rings(s, m) { RingDrain(s, m); }
  }
}
