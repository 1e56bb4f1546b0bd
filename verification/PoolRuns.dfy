/** Building runs of the pool step by step. */
module PoolRuns {
  import opened Options
  import R = Ring
  import opened Ring
  import opened TaskQueue

  /** Some schedule leads from `s0` to `s`. */
  ghost predicate Reaches(s0: Pool, s: Pool) {
    Ready(s0) && exists moves :: RunAll(s0, moves) == s
  }

  /** A set of states that no step leaves. The steps below are taken inside any such set; the
      states that can be reached from a given one are the set that matters. */
  ghost predicate Closed(p: Pool -> bool) {
    forall s, m {:trigger Advance(s, m)} :: p(s) && Ready(s) ==> p(Advance(s, m))
  }

  lemma ReachesClosed(s0: Pool)
    requires Ready(s0)
    ensures Reaches(s0, s0) && Closed(s => Reaches(s0, s))
  {
    assert RunAll(s0, []) == s0;
    forall s, m | Reaches(s0, s) && Ready(s) ensures Reaches(s0, Advance(s, m)) {
      var moves :| RunAll(s0, moves) == s;
      var more := moves + [m];
      assert more[..|more| - 1] == moves;
      assert RunAll(s0, more) == Advance(s, m);
    }
  }

  /** Thread `t` at `pc`, with ring operation `op`. */
  function Put(s: Pool, t: nat, pc: Pc, op: Op): (z: Pool)
    requires Ready(s) && t < |s.thr|
    ensures Ready(z) && |z.thr| == |s.thr| && z.thr[t] == pc && z.ring.ops[t] == op
  { s.(thr := s.thr[t := pc], ring := R.Goto(s.ring, t, op)) }

  lemma PutPut(s: Pool, t: nat, pc: Pc, op: Op, pc': Pc, op': Op)
    requires Ready(s) && t < |s.thr|
    ensures Put(Put(s, t, pc, op), t, pc', op') == Put(s, t, pc', op')
  {
    assert s.thr[t := pc][t := pc'] == s.thr[t := pc'];
    assert s.ring.ops[t := op][t := op'] == s.ring.ops[t := op'];
  }

  lemma PutSame(s: Pool, t: nat)
    requires Ready(s) && t < |s.thr|
    ensures Put(s, t, s.thr[t], s.ring.ops[t]) == s
  {}

  /** What an operation outside the ring that wakes nobody does to thread `t`, which then goes to
      `next`, and to the shared variables. */
  function Acted(s: Pool, t: nat, flip: bool, next: Pc, op: Op): Pool
    requires Ready(s) && t < |s.thr|
  {
    var pc := s.thr[t];
    Put(s, t, next, op).(
      shutdown := s.shutdown || pc.CloseStore?,
      sleepers := s.sleepers + SleepersDelta(pc),
      spinners := s.spinners + SpinnersDelta(pc),
      inFlight := s.inFlight + InFlightDelta(pc),
      mutex := MutexAfter(s.mutex, t, pc),
      shuttingDown := s.shuttingDown || pc.CloseCas?,
      completed := s.completed + (if pc.Tally? then 1 else 0),
      status := StatusAfter(s.status, Move(t, flip, 0), pc),
      ran := if pc.Execute? then s.ran + [pc.j] else s.ran,
      accepts := s.accepts + (if pc.Accept? then 1 else 0),
      joined := s.joined || (pc.CloseJoin? && pc.k >= s.workers))
  }

  /** The ring operation that goes with `next`. */
  function Opening(next: Pc, op: Op): Op {
    if next.Trying? then PushLoad(next.j) else if next.Calling() then PopLoad else op
  }

  lemma ActIsActed(s: Pool, t: nat, flip: bool, next: Pc)
    requires Ready(s) && t < |s.thr| && !s.thr[t].Notify? && !s.thr[t].CloseNotify?
    ensures Act(s, Move(t, flip, 0), next) == Acted(s, t, flip, next, Opening(next, s.ring.ops[t]))
  {
    PutSame(s, t);
  }

  lemma Outside(p: Pool -> bool, s: Pool, t: nat, flip: bool, next: Pc, op: Op)
    requires Closed(p) && p(s) && Ready(s) && t < |s.thr| && s.ring.ops[t].AtRest()
    requires !s.thr[t].Notify? && !s.thr[t].CloseNotify?
    requires next == NextPc(s, Move(t, flip, 0)) && op == Opening(next, s.ring.ops[t])
    ensures p(Acted(s, t, flip, next, op))
  {
    var z := Advance(s, Move(t, flip, 0));
    ActIsActed(s, t, flip, next);
  }

  /** Thread `t` performs an operation inside the ring. */
  lemma Inside(p: Pool -> bool, s: Pool, t: nat, r: State)
    requires Closed(p) && p(s) && Ready(s) && t < |s.thr| && s.thr[t].Calling() && !s.ring.ops[t].AtRest()
    requires r == R.Step(s.ring, t, false) && r.tail == s.ring.tail
    ensures p(s.(ring := r))
  {
    var z := Advance(s, Move(t, false, 0));
  }
}
