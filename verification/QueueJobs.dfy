/** Where every submitted job is: offered by its client, in the ring, held by a worker, run, or
    refused. Nothing is lost and nothing runs twice. */
module QueueJobs {
  import R = Ring
  import opened Ring
  import opened Counting
  import opened TaskQueue
  import opened QueueBase

  ghost predicate Is(status: seq<Status>, j: Job, v: Status) { 0 <= j < |status| && status[j] == v }

  /** A client that holds a job which is not in the ring yet. */
  predicate Pre(pc: Pc) { pc.Enter? || pc.Gate? || pc.Regate? || pc.Abort? }

  /** A client whose push has succeeded and not returned. */
  predicate Post(pc: Pc) { pc.Waking() || pc.Accept? }

  /** A worker that has popped a job and not run it. */
  predicate Held(pc: Pc) { pc.SpinOutGot? || pc.UnannounceGot? || pc.Execute? }

  predicate PopCall(pc: Pc) { pc.Spin? || pc.Recheck? || pc.LastTry? }

  /** The push of this thread has claimed its position and not returned. */
  predicate Placed(x: (Pc, Op)) { Post(x.0) || (x.0.Trying? && (x.1.Filling() || x.1.PushOk?)) }

  /** The worker has claimed position `p` and not run its job. */
  predicate Holds(pc: Pc, op: Op, p: nat) {
    (Held(pc) && pc.pos == p) || (PopCall(pc) && (op.Draining() || op.PopOk?) && op.pos == p)
  }

  predicate Holder(x: (Pc, Op)) { Held(x.0) || (PopCall(x.0) && (x.1.Draining() || x.1.PopOk?)) }

  predicate IsTally(pc: Pc) { pc.Tally? }

  function Zip(s: Pool): (z: seq<(Pc, Op)>)
    requires Ready(s)
    ensures |z| == |s.thr|
  { seq(|s.thr|, i requires 0 <= i < |s.thr| => (s.thr[i], s.ring.ops[i])) }

  /** The shape that the statements below need. */
  ghost predicate Light(s: Pool) {
    && Ready(s) && |s.ring.takers| == s.ring.head <= s.ring.tail == |s.ring.log|
    && (forall p :: 0 <= p < s.ring.head ==> s.ring.takers[p] < |s.thr|)
  }

  ghost predicate TicketAt(s: Pool, t: nat)
    requires Light(s) && t < |s.thr|
  {
    var pc, op := s.thr[t], s.ring.ops[t];
    && (Pre(pc) ==> Is(s.status, pc.j, Offered(t)))
    && (pc.Trying? && !Placed((pc, op)) ==> Is(s.status, pc.j, Offered(t)))
    && (pc.Trying? && Placed((pc, op)) ==> Is(s.status, pc.j, Claimed(op.pos)))
    && (Post(pc) ==> Is(s.status, pc.j, Claimed(pc.pos)))
    && (Held(pc) ==> pc.pos < s.ring.head && s.ring.takers[pc.pos] == t && s.ring.log[pc.pos].item == pc.j)
  }

  /** Jobs in the log and claimed tickets are the same thing. */
  ghost predicate Logged(s: Pool)
    requires Light(s)
  {
    && (forall p :: 0 <= p < s.ring.tail ==> Is(s.status, s.ring.log[p].item, Claimed(p)))
    && (forall j :: 0 <= j < |s.status| && s.status[j].Claimed? ==>
          s.status[j].pos < s.ring.tail && s.ring.log[s.status[j].pos].item == j)
  }

  ghost predicate RanAt(s: Pool, p: nat)
    requires Light(s) && p < s.ring.head
  {
    s.ring.log[p].item in s.ran <==> !Holds(s.thr[s.ring.takers[p]], s.ring.ops[s.ring.takers[p]], p)
  }

  /** A popped job has run, or the thread that popped it still holds it; no job ran twice. */
  ghost predicate Ran(s: Pool)
    requires Light(s)
  {
    && (forall p :: 0 <= p < s.ring.head ==> RanAt(s, p))
    && RanList(s.ran, s.status, s.ring.head)
  }

  ghost predicate RanList(ran: seq<Job>, status: seq<Status>, head: nat) {
    && (forall i :: 0 <= i < |ran| ==>
          0 <= ran[i] < |status| && status[ran[i]].Claimed? && status[ran[i]].pos < head)
    && (forall i, k :: 0 <= i < k < |ran| ==> ran[i] != ran[k])
  }

  lemma RanListGrows(ran: seq<Job>, status: seq<Status>, status': seq<Status>, head: nat, head': nat)
    requires RanList(ran, status, head) && head <= head'
    requires forall j :: 0 <= j < |status| && status[j].Claimed? ==> Is(status', j, status[j])
    ensures RanList(ran, status', head')
  {
    forall i | 0 <= i < |ran|
      ensures 0 <= ran[i] < |status'| && status'[ran[i]].Claimed? && status'[ran[i]].pos < head'
    {
      assert Is(status', ran[i], status[ran[i]]);
    }
  }

  ghost predicate Tallied(s: Pool)
    requires Light(s)
  {
    && |s.ran| + Count(Zip(s), Holder) == s.ring.head
    && s.completed + Count(s.thr, IsTally) == |s.ran|
    && s.accepts + Count(Zip(s), Placed) == s.ring.tail
  }

  ghost predicate Jobs(s: Pool) {
    && Light(s)
    && Logged(s) && Ran(s) && Tallied(s)
    && forall t :: 0 <= t < |s.thr| ==> TicketAt(s, t)
  }

  // ------------------------------------------------------------------ what a program counter does

  /** How a client's job travels with its program counter. */
  ghost predicate TicketMoves(pc: Pc, op: Op, next: Pc, ticket: Job, flip: bool) {
    && (Pre(next) || next.Trying? ==>
          || (pc.Rest? && !flip && next == Enter(ticket))
          || (Pre(pc) && !pc.Abort? && next.j == pc.j)
          || (pc.Trying? && !op.PushOk? && next.j == pc.j))
    && (Post(next) ==>
          || (pc.Trying? && op.PushOk? && next.j == pc.j && next.pos == op.pos)
          || (Post(pc) && !pc.Accept? && next.j == pc.j && next.pos == pc.pos))
    && (Post(pc) ==> pc.Accept? || Post(next))
    && (pc.Trying? && op.PushOk? ==> Post(next))
    && (pc.Accept? ==> next.Rest?)
  }

  /** How a worker's job travels with its program counter. */
  ghost predicate HeldMoves(pc: Pc, op: Op, next: Pc) {
    && (Held(next) ==>
          || (Held(pc) && !pc.Execute? && next.j == pc.j && next.pos == pc.pos)
          || (PopCall(pc) && op.PopOk? && next.j == op.x && next.pos == op.pos))
    && (Held(pc) ==> (pc.Execute? && next.Tally?) || (Held(next) && next.pos == pc.pos))
    && (PopCall(pc) && op.PopOk? ==> Held(next) && next.pos == op.pos)
    && (next.Tally? <==> pc.Execute?)
  }

  lemma NextPcTicket(s: Pool, m: Move)
    requires Acts(s, m)
    ensures TicketMoves(s.thr[m.t], s.ring.ops[m.t], NextPc(s, m), |s.status|, m.flip)
  {}

  lemma NextPcHeld(s: Pool, m: Move)
    requires Acts(s, m)
    ensures HeldMoves(s.thr[m.t], s.ring.ops[m.t], NextPc(s, m))
  {}

  // ------------------------------------------------------------------ any step

  /** All threads but `t` stay where they are, except for notifications. */
  ghost predicate OthersStay(s: Pool, t: nat, z: Pool) {
    && Ready(s) && Ready(z) && t < |s.thr| == |z.thr|
    && (forall u :: 0 <= u < |s.thr| && u != t ==> z.ring.ops[u] == s.ring.ops[u])
    && (forall u :: 0 <= u < |s.thr| && u != t ==> z.thr[u] == s.thr[u] || (s.thr[u].Parked? && z.thr[u].Woken?))
  }

  lemma ZipStep(s: Pool, t: nat, z: Pool, f: ((Pc, Op)) -> bool)
    requires OthersStay(s, t, z) && forall op :: f((Parked, op)) == f((Woken, op))
    ensures Count(Zip(z), f)
         == Count(Zip(s), f) + B(f((z.thr[t], z.ring.ops[t]))) - B(f((s.thr[t], s.ring.ops[t])))
  {
    var x := (z.thr[t], z.ring.ops[t]);
    CountUpdate(Zip(s), t, x, f);
    CountSame(Zip(s)[t := x], Zip(z), f);
  }

  // ------------------------------------------------------------------ operations outside the ring

  /** A step outside the ring, with all that is needed of it. */
  ghost predicate Moved(s: Pool, m: Move, z: Pool) {
    && Light(s) && Light(z) && OthersStay(s, m.t, z) && z.ring == s.ring.(ops := z.ring.ops)
    && var pc, op, next, op' := s.thr[m.t], s.ring.ops[m.t], z.thr[m.t], z.ring.ops[m.t];
    && op.AtRest() && OpFits(pc, op) && OpFits(next, op')
    && (if next.Calling() then op'.PushLoad? || op'.PopLoad? else op' == op)
    && (op.PopOk? ==> op.pos < s.ring.head && s.ring.takers[op.pos] == m.t && op.x == s.ring.log[op.pos].item)
    && z.status == StatusAfter(s.status, m, pc)
    && z.ran == (if pc.Execute? then s.ran + [pc.j] else s.ran)
    && z.completed == s.completed + B(pc.Tally?)
    && z.accepts == s.accepts + B(pc.Accept?)
    && TicketMoves(pc, op, next, |s.status|, m.flip)
    && HeldMoves(pc, op, next)
  }

  lemma ActMoved(s: Pool, m: Move)
    requires Acts(s, m)
    ensures Moved(s, m, Act(s, m, NextPc(s, m)))
  {
    NextPcBase(s, m);
    NextPcTicket(s, m);
    NextPcHeld(s, m);
    ActMovedTo(s, m, NextPc(s, m));
  }

  lemma ActMovedTo(s: Pool, m: Move, next: Pc)
    requires Acts(s, m) && s.ring.ops[m.t].AtRest()
    requires TicketMoves(s.thr[m.t], s.ring.ops[m.t], next, |s.status|, m.flip)
    requires HeldMoves(s.thr[m.t], s.ring.ops[m.t], next)
    ensures Moved(s, m, Act(s, m, next))
  {
    ActRing(s, m, next);
    ActThreads(s, m, next);
    assert R.ThreadOk(s.ring, m.t) && OpFits(s.thr[m.t], s.ring.ops[m.t]);
  }

  lemma OwnTicket(s: Pool, m: Move, z: Pool)
    requires Moved(s, m, z) && TicketAt(s, m.t)
    ensures TicketAt(z, m.t)
  {}

  lemma OtherTicket(s: Pool, m: Move, z: Pool, u: nat)
    requires Moved(s, m, z) && TicketAt(s, m.t) && u < |s.thr| && u != m.t && TicketAt(s, u)
    ensures TicketAt(z, u)
  {}

  lemma MovedLogged(s: Pool, m: Move, z: Pool)
    requires Moved(s, m, z) && TicketAt(s, m.t) && Logged(s)
    ensures Logged(z)
  {}

  lemma MovedRanAt(s: Pool, m: Move, z: Pool, p: nat)
    requires Moved(s, m, z) && TicketAt(s, m.t) && Logged(s) && p < s.ring.head && RanAt(s, p)
    ensures RanAt(z, p)
  {
    if s.thr[m.t].Execute? {
      assert Is(s.status, s.ring.log[p].item, Claimed(p));
      assert Is(s.status, s.ring.log[s.thr[m.t].pos].item, Claimed(s.thr[m.t].pos));
    }
  }

  /** A job about to run has not run. */
  lemma ExecuteFresh(s: Pool, t: nat)
    requires Light(s) && t < |s.thr| && s.thr[t].Execute? && TicketAt(s, t) && Logged(s) && Ran(s)
    ensures s.thr[t].j !in s.ran && Is(s.status, s.thr[t].j, Claimed(s.thr[t].pos)) && s.thr[t].pos < s.ring.head
  {
    var p := s.thr[t].pos;
    assert RanAt(s, p) && Is(s.status, s.ring.log[p].item, Claimed(p));
  }

  lemma MovedRan(s: Pool, m: Move, z: Pool)
    requires Moved(s, m, z) && TicketAt(s, m.t) && Logged(s) && Ran(s)
    ensures Ran(z)
  {
    forall p | 0 <= p < z.ring.head ensures RanAt(z, p) { MovedRanAt(s, m, z, p); }
    MovedRanList(s, m, z);
  }

  lemma MovedRanList(s: Pool, m: Move, z: Pool)
    requires Moved(s, m, z) && TicketAt(s, m.t) && Logged(s) && Ran(s)
    ensures RanList(z.ran, z.status, z.ring.head)
  {
    MovedStatus(s, m, z);
    RanListGrows(s.ran, s.status, z.status, s.ring.head, z.ring.head);
    if s.thr[m.t].Execute? { ExecuteFresh(s, m.t); }
  }

  /** A claimed ticket stays claimed. */
  lemma MovedStatus(s: Pool, m: Move, z: Pool)
    requires Moved(s, m, z) && TicketAt(s, m.t)
    ensures forall j :: 0 <= j < |s.status| && s.status[j].Claimed? ==> Is(z.status, j, s.status[j])
  {}

  lemma MovedTallied(s: Pool, m: Move, z: Pool)
    requires Moved(s, m, z) && Tallied(s)
    requires Count(z.thr, IsTally) == Count(s.thr, IsTally) + B(IsTally(z.thr[m.t])) - B(IsTally(s.thr[m.t]))
    ensures Tallied(z)
  {
    ZipStep(s, m.t, z, Holder);
    ZipStep(s, m.t, z, Placed);
    HolderMoves(s, m, z);
    PlacedMoves(s, m, z);
  }

  lemma HolderMoves(s: Pool, m: Move, z: Pool)
    requires Moved(s, m, z)
    ensures B(Holder((z.thr[m.t], z.ring.ops[m.t])))
         == B(Holder((s.thr[m.t], s.ring.ops[m.t]))) - B(s.thr[m.t].Execute?)
  {}

  lemma PlacedMoves(s: Pool, m: Move, z: Pool)
    requires Moved(s, m, z)
    ensures B(Placed((z.thr[m.t], z.ring.ops[m.t])))
         == B(Placed((s.thr[m.t], s.ring.ops[m.t]))) - B(s.thr[m.t].Accept?)
  {}

  lemma ActJobs(s: Pool, m: Move)
    requires Acts(s, m) && Jobs(s)
    ensures Jobs(Act(s, m, NextPc(s, m)))
  {
    var z := Act(s, m, NextPc(s, m));
    ActMoved(s, m);
    ActCount(s, m, NextPc(s, m), IsTally);
    assert TicketAt(s, m.t);
    MovedLogged(s, m, z);
    MovedRan(s, m, z);
    MovedTallied(s, m, z);
    OwnTicket(s, m, z);
    forall u | 0 <= u < |s.thr| && u != m.t ensures TicketAt(z, u) {
      assert TicketAt(s, u);
      OtherTicket(s, m, z, u);
    }
  }

  // ------------------------------------------------------------------ ring operations

  /** A ring step that claims nothing. */
  ghost predicate Quiet(op: Op, op': Op) {
    && (if op.Filling() then (op'.Filling() || op'.PushOk?) && op'.pos == op.pos else !op'.Filling() && !op'.PushOk?)
    && (if op.Draining() then (op'.Draining() || op'.PopOk?) && op'.pos == op.pos else !op'.Draining() && !op'.PopOk?)
  }

  /** A step inside the ring, with all that is needed of it. */
  ghost predicate Rang(s: Pool, t: nat, z: Pool) {
    && Light(s) && Light(z) && OthersStay(s, t, z)
    && z.thr == s.thr && z.ran == s.ran && z.completed == s.completed && z.accepts == s.accepts
    && var pc, op, op' := s.thr[t], s.ring.ops[t], z.ring.ops[t];
    && pc.Calling() && !op.AtRest() && OpFits(pc, op) && OpFits(pc, op')
    && var r, r' := s.ring, z.ring;
    && ((r'.tail == r.tail && r'.head == r.head && r'.log == r.log && r'.takers == r.takers
         && z.status == s.status && Quiet(op, op'))
        || (op.PushCas? && op' == PushWrite(op.x, r.tail) && r'.tail == r.tail + 1 && r'.head == r.head
            && r'.log == r.log + [Entry(op.x, t)] && r'.takers == r.takers
            && 0 <= op.x < |s.status| && z.status == s.status[op.x := Claimed(r.tail)])
        || (op.PopCas? && op' == PopRead(r.head) && r'.head == r.head + 1 && r'.tail == r.tail
            && r'.log == r.log && r'.takers == r.takers + [t] && z.status == s.status))
  }

  lemma RingRang(s: Pool, m: Move)
    requires Rings(s, m) && Light(s) && TicketAt(s, m.t)
    ensures Rang(s, m.t, RingMove(s, m.t, m.flip))
  {
    RingMoveBase(s, m);
    RingStepFrame(s.ring, m.t, m.flip);
    assert OpFits(s.thr[m.t], s.ring.ops[m.t]);
    RingQuiet(s.ring, m.t, m.flip);
  }

  lemma RingQuiet(r: State, t: nat, spurious: bool)
    requires R.Inv(r) && t < |r.ops| && !r.ops[t].AtRest()
    ensures
      var z := R.Step(r, t, spurious);
      z.tail == r.tail && z.head == r.head ==>
        z.log == r.log && z.takers == r.takers && Quiet(r.ops[t], z.ops[t])
  {
    assert R.ThreadOk(r, t);
  }

  lemma RangTicket(s: Pool, t: nat, z: Pool, u: nat)
    requires Rang(s, t, z) && TicketAt(s, t) && u < |s.thr| && TicketAt(s, u)
    ensures TicketAt(z, u)
  {}

  lemma RangLogged(s: Pool, t: nat, z: Pool)
    requires Rang(s, t, z) && TicketAt(s, t) && Logged(s)
    ensures Logged(z)
  {}

  lemma RangRanAt(s: Pool, t: nat, z: Pool, p: nat)
    requires Rang(s, t, z) && Logged(s) && Ran(s) && p < z.ring.head
    ensures RanAt(z, p)
  {
    if p < s.ring.head {
      assert RanAt(s, p);
    } else {
      assert Is(s.status, s.ring.log[p].item, Claimed(p));
    }
  }

  lemma RangRan(s: Pool, t: nat, z: Pool)
    requires Rang(s, t, z) && TicketAt(s, t) && Logged(s) && Ran(s)
    ensures Ran(z)
  {
    forall p | 0 <= p < z.ring.head ensures RanAt(z, p) { RangRanAt(s, t, z, p); }
    RanListGrows(s.ran, s.status, z.status, s.ring.head, z.ring.head);
  }

  lemma RangTallied(s: Pool, t: nat, z: Pool)
    requires Rang(s, t, z) && Tallied(s)
    ensures Tallied(z)
  {
    ZipStep(s, t, z, Holder);
    ZipStep(s, t, z, Placed);
    RangOwn(s, t, z);
  }

  lemma RangOwn(s: Pool, t: nat, z: Pool)
    requires Rang(s, t, z)
    ensures B(Holder((z.thr[t], z.ring.ops[t]))) == B(Holder((s.thr[t], s.ring.ops[t]))) + z.ring.head - s.ring.head
    ensures B(Placed((z.thr[t], z.ring.ops[t]))) == B(Placed((s.thr[t], s.ring.ops[t]))) + z.ring.tail - s.ring.tail
  {}

  lemma RingJobs(s: Pool, m: Move)
    requires Rings(s, m) && Jobs(s)
    ensures Jobs(RingMove(s, m.t, m.flip))
  {
    var t, z := m.t, RingMove(s, m.t, m.flip);
    assert TicketAt(s, t);
    RingRang(s, m);
    RangLogged(s, t, z);
    RangRan(s, t, z);
    RangTallied(s, t, z);
    forall u | 0 <= u < |s.thr| ensures TicketAt(z, u) {
      assert TicketAt(s, u);
      RangTicket(s, t, z, u);
    }
  }

  lemma AdvanceJobs(s: Pool, m: Move)
    requires Base(s) && Jobs(s)
    ensures Jobs(Advance(s, m))
  {
    AdvanceCases(s, m);
    if Acts(s, m) { ActJobs(s, m); } else if Rings(s, m) { RingJobs(s, m); }
  }
}
