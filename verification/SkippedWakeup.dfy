/** A push that finds a spinning worker wakes nobody. Whether that worker then looks for the job
    before it does something else: when it must, and a run where it does not. */
module SkippedWakeup {
  import opened Options
  import R = Ring
  import opened Ring
  import opened TaskQueue
  import opened PoolRuns
  import opened QueueWake
  import opened PoolTheorems

  // ------------------------------------------------------------------ a worker goes to sleep

  /** To a `try_pop` the ring looks empty. */
  predicate LooksEmpty(r: State) { |r.cells| > 0 && r.head == r.tail && CellAt(r, r.head).seqno == r.head }

  /** An operation outside the ring that only moves the thread. */
  predicate Still(pc: Pc) {
    || pc.Gate? || pc.Trying? || pc.AskSleepers? || pc.AskSpinners? || pc.AskShutdown? || pc.SizeTail?
    || pc.SizeHead? || pc.AskStop? || pc.Spin? || pc.Recheck?
  }

  lemma StillActed(s: Pool, t: nat, flip: bool, next: Pc, op: Op)
    requires Ready(s) && t < |s.thr| && Still(s.thr[t])
    ensures Acted(s, t, flip, next, op) == Put(s, t, next, op)
  {}

  lemma Plain(p: Pool -> bool, b: Pool, t: nat, pc: Pc, op: Op, flip: bool, next: Pc)
    requires Closed(p) && Ready(b) && t < |b.thr| && op.AtRest() && Still(pc) && p(Put(b, t, pc, op))
    requires next == NextPc(Put(b, t, pc, op), Move(t, flip, 0)) && !next.Calling()
    ensures p(Put(b, t, next, op))
  {
    Outside(p, Put(b, t, pc, op), t, flip, next, op);
    StillActed(Put(b, t, pc, op), t, flip, next, op);
    PutPut(b, t, pc, op, next, op);
  }

  /** An operation inside the ring that only moves the thread. */
  lemma Looks(p: Pool -> bool, b: Pool, t: nat, pc: Pc, op: Op, next: Op)
    requires Closed(p) && Ready(b) && t < |b.thr| && pc.Calling() && !op.AtRest() && p(Put(b, t, pc, op))
    requires R.Step(Put(b, t, pc, op).ring, t, false) == R.Goto(Put(b, t, pc, op).ring, t, next)
    ensures p(Put(b, t, pc, next))
  {
    Inside(p, Put(b, t, pc, op), t, R.Goto(Put(b, t, pc, op).ring, t, next));
    PutPut(b, t, pc, op, pc, next);
  }

  /** A `try_pop` that finds nothing. */
  lemma EmptyPop(p: Pool -> bool, b: Pool, t: nat, pc: Pc)
    requires Ready(b) && t < |b.thr| && (pc.Spin? || pc.Recheck?) && LooksEmpty(b.ring)
    requires Closed(p) && p(Put(b, t, pc, PopLoad))
    ensures p(Put(b, t, pc, PopEmpty(b.ring.head)))
  {
    Looks(p, b, t, pc, PopLoad, PopSeq(b.ring.head));
    Looks(p, b, t, pc, PopSeq(b.ring.head), PopEmpty(b.ring.head));
  }

  /** A worker enters `pop`. */
  lemma EnterSpin(p: Pool -> bool, b: Pool, t: nat)
    requires Closed(p) && p(b) && Ready(b) && t < |b.thr| && b.thr[t].SpinIn? && b.ring.ops[t].AtRest()
    ensures
      var b1 := b.(spinners := b.spinners + 1);
      p(if b.spinners < b.maxSpinners then Put(b1, t, Spin, PopLoad) else Put(b1, t, SpinOut, b.ring.ops[t]))
  {
    if b.spinners < b.maxSpinners {
      Outside(p, b, t, false, Spin, PopLoad);
    } else {
      Outside(p, b, t, false, SpinOut, b.ring.ops[t]);
    }
  }

  /** It ends its spinning phase without a job. */
  lemma SpinInVain(p: Pool -> bool, b: Pool, t: nat) returns (op: Op)
    requires Closed(p) && p(b) && Ready(b) && t < |b.thr| && b.thr[t].SpinIn? && b.ring.ops[t].AtRest()
    requires LooksEmpty(b.ring)
    ensures op.AtRest() && p(Put(b.(spinners := b.spinners + 1), t, SpinOut, op))
  {
    EnterSpin(p, b, t);
    if b.spinners < b.maxSpinners {
      var b1 := b.(spinners := b.spinners + 1);
      EmptyPop(p, b1, t, Spin);
      op := PopEmpty(b.ring.head);
      Plain(p, b1, t, Spin, op, true, SpinOut);
    } else {
      op := b.ring.ops[t];
    }
  }

  /** It gives up its place among the spinners. */
  lemma LeaveSpin(p: Pool -> bool, b: Pool, t: nat, op: Op)
    requires Ready(b) && t < |b.thr| && op.AtRest() && Closed(p) && p(Put(b, t, SpinOut, op))
    ensures p(Put(b.(spinners := b.spinners - 1), t, Announce, op))
  {
    Outside(p, Put(b, t, SpinOut, op), t, false, Announce, op);
    PutPut(b, t, SpinOut, op, Announce, op);
  }

  /** It announces itself. */
  lemma AnnounceSleep(p: Pool -> bool, b: Pool, t: nat, op: Op)
    requires Ready(b) && t < |b.thr| && op.AtRest() && Closed(p) && p(Put(b, t, Announce, op))
    ensures p(Put(b.(sleepers := b.sleepers + 1), t, Recheck, PopLoad))
  {
    Outside(p, Put(b, t, Announce, op), t, false, Recheck, PopLoad);
    PutPut(b, t, Announce, op, Recheck, PopLoad);
  }

  /** Nothing there, and no shutdown. */
  lemma CheckAnnounced(p: Pool -> bool, b: Pool, t: nat, op: Op)
    requires Ready(b) && t < |b.thr| && op.PopEmpty? && !b.shutdown && Closed(p) && p(Put(b, t, Recheck, op))
    ensures p(Put(b, t, ParkLock, op))
  {
    Plain(p, b, t, Recheck, op, false, AskShutdown);
    Plain(p, b, t, AskShutdown, op, false, ParkLock);
  }

  /** It locks. */
  lemma Lock(p: Pool -> bool, b: Pool, t: nat, op: Op)
    requires Ready(b) && t < |b.thr| && op.AtRest() && b.mutex.None? && Closed(p) && p(Put(b, t, ParkLock, op))
    ensures p(Put(b.(mutex := Some(t)), t, SizeTail, op))
  {
    Outside(p, Put(b, t, ParkLock, op), t, false, SizeTail, op);
    PutPut(b, t, ParkLock, op, SizeTail, op);
  }

  /** Nothing there under the lock either. */
  lemma CheckLocked(p: Pool -> bool, b: Pool, t: nat, op: Op)
    requires Ready(b) && t < |b.thr| && op.AtRest() && b.ring.head == b.ring.tail
    requires Closed(p) && p(Put(b, t, SizeTail, op))
    ensures p(Put(b, t, AskStop, op))
  {
    var h := b.ring.head;
    Plain(p, b, t, SizeTail, op, false, SizeHead(h));
    Plain(p, b, t, SizeHead(h), op, false, AskStop);
  }

  /** It blocks. */
  lemma Block(p: Pool -> bool, b: Pool, t: nat, op: Op)
    requires Ready(b) && t < |b.thr| && op.AtRest() && !b.shutdown
    requires Closed(p) && p(Put(b, t, AskStop, op))
    ensures p(Put(b.(mutex := None), t, Parked, op))
  {
    Plain(p, b, t, AskStop, op, false, Park);
    Outside(p, Put(b, t, Park, op), t, false, Parked, op);
    PutPut(b, t, Park, op, Parked, op);
  }

  lemma FallAsleep(p: Pool -> bool, b: Pool, t: nat)
    requires Closed(p) && p(b) && Ready(b) && t < |b.thr| && b.thr[t].SpinIn? && b.ring.ops[t].AtRest()
    requires LooksEmpty(b.ring) && !b.shutdown && b.mutex.None?
    ensures p(Put(b.(sleepers := b.sleepers + 1), t, Parked, PopEmpty(b.ring.head)))
  {
    var op := SpinInVain(p, b, t);
    LeaveSpin(p, b.(spinners := b.spinners + 1), t, op);
    assert p(Put(b, t, Announce, op));
    AnnounceSleep(p, b, t, op);
    var b1 := b.(sleepers := b.sleepers + 1);
    assert p(Put(b1, t, Recheck, PopLoad));
    SleepOn(p, b1, t);
  }

  lemma SleepOn(p: Pool -> bool, b: Pool, t: nat)
    requires Closed(p) && Ready(b) && t < |b.thr| && p(Put(b, t, Recheck, PopLoad))
    requires LooksEmpty(b.ring) && !b.shutdown && b.mutex.None?
    ensures p(Put(b, t, Parked, PopEmpty(b.ring.head)))
  {
    var op := PopEmpty(b.ring.head);
    EmptyPop(p, b, t, Recheck);
    CheckAnnounced(p, b, t, op);
    Lock(p, b, t, op);
    var b1 := b.(mutex := Some(t));
    CheckLocked(p, b1, t, op);
    Block(p, b1, t, op);
    assert b1.(mutex := None) == b;
  }

  // ------------------------------------------------------------------ a push that wakes nobody

  /** The ring after thread `t` has claimed the next position for job `x`. */
  function WithClaim(r: State, t: nat, x: Job): State { r.(tail := r.tail + 1, log := r.log + [Entry(x, t)]) }

  lemma CallPush(p: Pool -> bool, b: Pool, t: nat, op: Op)
    requires Closed(p) && Ready(b) && t < |b.thr| && op.AtRest() && p(Put(b, t, Rest, op))
    ensures p(Put(b.(status := b.status + [Offered(t)]), t, Enter(|b.status|), op))
  {
    Outside(p, Put(b, t, Rest, op), t, false, Enter(|b.status|), op);
    PutPut(b, t, Rest, op, Enter(|b.status|), op);
  }

  lemma EnterPush(p: Pool -> bool, b: Pool, t: nat, j: Job, op: Op)
    requires Closed(p) && Ready(b) && t < |b.thr| && op.AtRest() && p(Put(b, t, Enter(j), op))
    ensures p(Put(b.(inFlight := b.inFlight + 1), t, Gate(j), op))
  {
    Outside(p, Put(b, t, Enter(j), op), t, false, Gate(j), op);
    PutPut(b, t, Enter(j), op, Gate(j), op);
  }

  lemma StartPush(p: Pool -> bool, b: Pool, t: nat, j: Job, op: Op)
    requires Closed(p) && Ready(b) && t < |b.thr| && op.AtRest() && !b.shutdown && p(Put(b, t, Gate(j), op))
    ensures p(Put(b, t, Trying(j), PushLoad(j)))
  {
    var s := Put(b, t, Gate(j), op);
    Outside(p, s, t, false, Trying(j), PushLoad(j));
    StillActed(s, t, false, Trying(j), PushLoad(j));
    PutPut(b, t, Gate(j), op, Trying(j), PushLoad(j));
  }

  lemma FindFree(p: Pool -> bool, b: Pool, t: nat, j: Job)
    requires Closed(p) && Ready(b) && t < |b.thr| && p(Put(b, t, Trying(j), PushLoad(j)))
    requires CellAt(b.ring, b.ring.tail).seqno == b.ring.tail
    ensures p(Put(b, t, Trying(j), PushCas(j, b.ring.tail)))
  {
    var pos := b.ring.tail;
    Looks(p, b, t, Trying(j), PushLoad(j), PushSeq(j, pos));
    Looks(p, b, t, Trying(j), PushSeq(j, pos), PushCas(j, pos));
  }

  lemma ClaimIt(p: Pool -> bool, b: Pool, t: nat, j: Job)
    requires Closed(p) && Ready(b) && t < |b.thr| && p(Put(b, t, Trying(j), PushCas(j, b.ring.tail)))
    requires 0 <= j < |b.status|
    ensures p(Put(b.(ring := WithClaim(b.ring, t, j), status := b.status[j := Claimed(b.ring.tail)]), t, Trying(j),
                  PushWrite(j, b.ring.tail)))
  {
    var pos := b.ring.tail;
    var s := Put(b, t, Trying(j), PushCas(j, pos));
    var z := Advance(s, Move(t, false, 0));
    assert s.ring.ops[t := PushWrite(j, pos)] == b.ring.ops[t := PushWrite(j, pos)];
  }

  /** An operation inside the ring that writes the cell of position `pos`. */
  lemma Writes(p: Pool -> bool, b: Pool, t: nat, pc: Pc, op: Op, pos: nat, c: Cell, next: Op)
    requires Closed(p) && Ready(b) && t < |b.thr| && pc.Calling() && !op.AtRest() && p(Put(b, t, pc, op))
    requires
      var r := Put(b, t, pc, op).ring;
      R.Step(r, t, false) == R.Goto(R.SetCell(r, pos, c), t, next)
    ensures p(Put(b.(ring := R.SetCell(b.ring, pos, c)), t, pc, next))
  {
    var r := Put(b, t, pc, op).ring;
    Inside(p, Put(b, t, pc, op), t, R.Goto(R.SetCell(r, pos, c), t, next));
    PutPut(b, t, pc, op, pc, next);
  }

  lemma SetTwice(r: State, pos: nat, c: Cell, c': Cell)
    requires |r.cells| > 0
    ensures R.SetCell(R.SetCell(r, pos, c), pos, c') == R.SetCell(r, pos, c')
  {
    var i := Slot(pos, |r.cells|);
    assert r.cells[i := c][i := c'] == r.cells[i := c'];
  }

  lemma FillIt(p: Pool -> bool, b: Pool, t: nat, j: Job, pos: nat)
    requires Closed(p) && Ready(b) && t < |b.thr| && p(Put(b, t, Trying(j), PushWrite(j, pos)))
    ensures p(Put(b.(ring := R.SetCell(b.ring, pos, Cell(pos + 1, Some(j)))), t, Trying(j), PushOk(j, pos)))
  {
    var c, c' := Cell(CellAt(b.ring, pos).seqno, Some(j)), Cell(pos + 1, Some(j));
    Writes(p, b, t, Trying(j), PushWrite(j, pos), pos, c, PushPublish(j, pos));
    Writes(p, b.(ring := R.SetCell(b.ring, pos, c)), t, Trying(j), PushPublish(j, pos), pos, c', PushOk(j, pos));
    SetTwice(b.ring, pos, c, c');
  }

  lemma LeavePush(p: Pool -> bool, b: Pool, t: nat, j: Job, pos: nat)
    requires Closed(p) && Ready(b) && t < |b.thr| && p(Put(b, t, Trying(j), PushOk(j, pos)))
    ensures p(Put(b.(inFlight := b.inFlight - 1), t, AskSleepers(j, pos), PushOk(j, pos)))
  {
    var op := PushOk(j, pos);
    Plain(p, b, t, Trying(j), op, false, Leave(j, pos));
    Outside(p, Put(b, t, Leave(j, pos), op), t, false, AskSleepers(j, pos), op);
    PutPut(b, t, Leave(j, pos), op, AskSleepers(j, pos), op);
  }

  /** Somebody sleeps and somebody spins: return without waking anybody. */
  lemma SkipWake(p: Pool -> bool, b: Pool, t: nat, j: Job, pos: nat, op: Op)
    requires Closed(p) && Ready(b) && t < |b.thr| && op.AtRest() && p(Put(b, t, AskSleepers(j, pos), op))
    requires b.sleepers > 0 && b.spinners != 0
    ensures p(Put(b.(accepts := b.accepts + 1), t, Rest, op))
  {
    Plain(p, b, t, AskSleepers(j, pos), op, false, AskSpinners(j, pos));
    Plain(p, b, t, AskSpinners(j, pos), op, false, Accept(j, pos));
    Outside(p, Put(b, t, Accept(j, pos), op), t, false, Rest, op);
    PutPut(b, t, Accept(j, pos), op, Rest, op);
  }

  /** The ring with job `x` of thread `t` published at the next position. */
  function Pushed(r: State, t: nat, x: Job): (z: State)
    requires |r.cells| > 0
    ensures |z.cells| == |r.cells| && z.ops == r.ops
  { R.SetCell(WithClaim(r, t, x), r.tail, Cell(r.tail + 1, Some(x))) }

  lemma PushIt(p: Pool -> bool, b: Pool, t: nat, j: Job)
    requires Closed(p) && Ready(b) && t < |b.thr| && p(Put(b, t, Trying(j), PushLoad(j))) && 0 <= j < |b.status|
    requires CellAt(b.ring, b.ring.tail).seqno == b.ring.tail
    ensures p(Put(b.(ring := Pushed(b.ring, t, j), status := b.status[j := Claimed(b.ring.tail)]), t, Trying(j),
                  PushOk(j, b.ring.tail)))
  {
    FindFree(p, b, t, j);
    ClaimIt(p, b, t, j);
    FillIt(p, b.(ring := WithClaim(b.ring, t, j), status := b.status[j := Claimed(b.ring.tail)]), t, j, b.ring.tail);
  }

  /** A push up to its successful `try_push`. */
  lemma PushHalf(p: Pool -> bool, b: Pool, t: nat)
    requires Closed(p) && p(b) && Ready(b) && t < |b.thr| && b.thr[t].Rest? && b.ring.ops[t].AtRest()
    requires CellAt(b.ring, b.ring.tail).seqno == b.ring.tail && !b.shutdown
    ensures p(Put(b.(ring := Pushed(b.ring, t, |b.status|), status := b.status + [Claimed(b.ring.tail)],
                     inFlight := b.inFlight + 1), t, Trying(|b.status|), PushOk(|b.status|, b.ring.tail)))
  {
    var j, op := |b.status|, b.ring.ops[t];
    PutSame(b, t);
    CallPush(p, b, t, op);
    var b1 := b.(status := b.status + [Offered(t)]);
    EnterPush(p, b1, t, j, op);
    var b2 := b1.(inFlight := b1.inFlight + 1);
    StartPush(p, b2, t, j, op);
    PushIt(p, b2, t, j);
    assert b2.status[j := Claimed(b.ring.tail)] == b.status + [Claimed(b.ring.tail)];
  }

  /** A whole push while somebody sleeps and somebody spins. */
  lemma PushQuietly(p: Pool -> bool, b: Pool, t: nat)
    requires Closed(p) && p(b) && Ready(b) && t < |b.thr| && b.thr[t].Rest? && b.ring.ops[t].AtRest()
    requires CellAt(b.ring, b.ring.tail).seqno == b.ring.tail && !b.shutdown && b.sleepers > 0 && b.spinners != 0
    ensures p(Put(b.(ring := Pushed(b.ring, t, |b.status|), status := b.status + [Claimed(b.ring.tail)],
                     accepts := b.accepts + 1), t, Rest, PushOk(|b.status|, b.ring.tail)))
  {
    var j, pos := |b.status|, b.ring.tail;
    PushHalf(p, b, t);
    var b1 := b.(ring := Pushed(b.ring, t, j), status := b.status + [Claimed(pos)], inFlight := b.inFlight + 1);
    LeavePush(p, b1, t, j, pos);
    SkipWake(p, b1.(inFlight := b1.inFlight - 1), t, j, pos, PushOk(j, pos));
  }

  // ------------------------------------------------------------------ a pop that succeeds

  lemma ClaimOldest(p: Pool -> bool, b: Pool, t: nat)
    requires Closed(p) && Ready(b) && t < |b.thr| && p(Put(b, t, Recheck, PopCas(b.ring.head)))
    ensures p(Put(b.(ring := b.ring.(head := b.ring.head + 1, takers := b.ring.takers + [t])), t, Recheck,
                  PopRead(b.ring.head)))
  {
    var s := Put(b, t, Recheck, PopCas(b.ring.head));
    assert s.ring.ops[t := PopRead(b.ring.head)] == b.ring.ops[t := PopRead(b.ring.head)];
    Inside(p, s, t, R.Step(s.ring, t, false));
  }

  lemma ClaimHeadJob(p: Pool -> bool, b: Pool, t: nat)
    requires Closed(p) && Ready(b) && t < |b.thr| && p(Put(b, t, Recheck, PopLoad))
    requires CellAt(b.ring, b.ring.head).seqno == b.ring.head + 1
    ensures p(Put(b.(ring := b.ring.(head := b.ring.head + 1, takers := b.ring.takers + [t])), t, Recheck,
                  PopRead(b.ring.head)))
  {
    var pos := b.ring.head;
    Looks(p, b, t, Recheck, PopLoad, PopSeq(pos));
    Looks(p, b, t, Recheck, PopSeq(pos), PopCas(pos));
    ClaimOldest(p, b, t);
  }

  lemma DrainJob(p: Pool -> bool, b: Pool, t: nat, x: Job, pos: nat)
    requires Closed(p) && Ready(b) && t < |b.thr| && p(Put(b, t, Recheck, PopRead(pos)))
    requires CellAt(b.ring, pos).data == Some(x)
    ensures p(Put(b.(ring := R.SetCell(b.ring, pos, Cell(pos + |b.ring.cells|, None))), t, Recheck, PopOk(x, pos)))
  {
    Looks(p, b, t, Recheck, PopRead(pos), PopClear(x, pos));
    ReleaseJob(p, b, t, x, pos);
  }

  lemma ReleaseJob(p: Pool -> bool, b: Pool, t: nat, x: Job, pos: nat)
    requires Closed(p) && Ready(b) && t < |b.thr| && p(Put(b, t, Recheck, PopClear(x, pos)))
    ensures p(Put(b.(ring := R.SetCell(b.ring, pos, Cell(pos + |b.ring.cells|, None))), t, Recheck, PopOk(x, pos)))
  {
    var c, c' := Cell(CellAt(b.ring, pos).seqno, None), Cell(pos + |b.ring.cells|, None);
    Writes(p, b, t, Recheck, PopClear(x, pos), pos, c, PopRelease(x, pos));
    Writes(p, b.(ring := R.SetCell(b.ring, pos, c)), t, Recheck, PopRelease(x, pos), pos, c', PopOk(x, pos));
    SetTwice(b.ring, pos, c, c');
  }

  lemma LeaveWithJob(p: Pool -> bool, b: Pool, t: nat, x: Job, pos: nat)
    requires Closed(p) && Ready(b) && t < |b.thr| && p(Put(b, t, Recheck, PopOk(x, pos)))
    ensures p(Put(b.(sleepers := b.sleepers - 1), t, Execute(x, pos), PopOk(x, pos)))
  {
    var op := PopOk(x, pos);
    Plain(p, b, t, Recheck, op, false, UnannounceGot(x, pos));
    Outside(p, Put(b, t, UnannounceGot(x, pos), op), t, false, Execute(x, pos), op);
    PutPut(b, t, UnannounceGot(x, pos), op, Execute(x, pos), op);
  }

  /** The ring after thread `t` has taken the oldest job. */
  function Popped(r: State, t: nat): (z: State)
    requires |r.cells| > 0
    ensures |z.cells| == |r.cells| && z.ops == r.ops
  {
    R.SetCell(r.(head := r.head + 1, takers := r.takers + [t]), r.head, Cell(r.head + |r.cells|, None))
  }

  lemma PopIt(p: Pool -> bool, b: Pool, t: nat, x: Job)
    requires Closed(p) && Ready(b) && t < |b.thr| && p(Put(b, t, Recheck, PopLoad))
    requires CellAt(b.ring, b.ring.head) == Cell(b.ring.head + 1, Some(x))
    ensures p(Put(b.(ring := Popped(b.ring, t)), t, Recheck, PopOk(x, b.ring.head)))
  {
    ClaimHeadJob(p, b, t);
    var b1 := b.(ring := b.ring.(head := b.ring.head + 1, takers := b.ring.takers + [t]));
    DrainJob(p, b1, t, x, b.ring.head);
  }

  /** A worker that has stopped spinning announces itself, finds the oldest job and runs it. */
  lemma TakeJob(p: Pool -> bool, b: Pool, t: nat, op: Op, x: Job)
    requires Closed(p) && Ready(b) && t < |b.thr| && op.AtRest() && p(Put(b, t, SpinOut, op))
    requires CellAt(b.ring, b.ring.head) == Cell(b.ring.head + 1, Some(x))
    ensures p(Put(b.(ring := Popped(b.ring, t), spinners := b.spinners - 1), t, Execute(x, b.ring.head),
                  PopOk(x, b.ring.head)))
  {
    LeaveSpin(p, b, t, op);
    var b1 := b.(spinners := b.spinners - 1);
    AnnounceSleep(p, b1, t, op);
    var b2 := b1.(sleepers := b1.sleepers + 1);
    PopIt(p, b2, t, x);
    LeaveWithJob(p, b2.(ring := Popped(b.ring, t)), t, x, b.ring.head);
  }

  // ------------------------------------------------------------------ the whole run

  /** The workers 1 .. k - 1 are blocked, the others are about to enter `pop`, and no client has
      called anything. */
  ghost predicate Dozy(s: Pool, n: nat, k: nat) {
    && Ready(s) && 1 <= k <= s.workers < |s.thr| && n >= 2
    && s.ring == R.Init(n, 0).(ops := s.ring.ops)
    && !s.shutdown && s.mutex.None? && s.status == [] && s.spinners == 0 && s.sleepers == k - 1
    && (forall t :: 0 <= t < |s.thr| ==> s.ring.ops[t].AtRest())
    && (forall t :: 0 <= t < |s.thr| ==>
          s.thr[t] == if 0 < t < k then Parked else if t < s.workers then SpinIn else Rest)
  }

  lemma OneDozes(p: Pool -> bool, s: Pool, n: nat, k: nat) returns (z: Pool)
    requires Closed(p) && p(s) && Dozy(s, n, k) && k < s.workers
    ensures p(z) && Dozy(z, n, k + 1) && z.workers == s.workers
  {
    FallAsleep(p, s, k);
    z := Put(s.(sleepers := s.sleepers + 1), k, Parked, PopEmpty(s.ring.head));
  }

  lemma {:induction false} AllDoze(p: Pool -> bool, s: Pool, n: nat, k: nat) returns (z: Pool)
    requires Closed(p) && p(s) && Dozy(s, n, k)
    ensures p(z) && Dozy(z, n, z.workers) && z.workers == s.workers
    decreases s.workers - k
  {
    z := s;
    if k < s.workers {
      z := OneDozes(p, s, n, k);
      z := AllDoze(p, z, n, k + 1);
    }
  }

  /** A job is in the ring and its push is over, some worker is blocked, and no worker is looking
      for a job: all others are running one, counting one, or gone. */
  ghost predicate LeftWaiting(s: Pool) {
    && Ready(s) && s.workers <= |s.thr| && s.ring.head < s.ring.tail
    && (forall t, q :: 0 <= t < |s.thr| && 0 <= q ==> !Pending(s, t, q))
    && (exists w :: 0 <= w < s.workers && s.thr[w].Parked?)
    && (forall w :: 0 <= w < s.workers ==>
          s.thr[w].Parked? || s.thr[w].Execute? || s.thr[w].Tally? || s.thr[w].Exited?)
  }

  /** Worker 0 has stopped spinning and is still counted, all other workers are blocked, and `k`
      pushes have skipped the wake-up. */
  ghost predicate Skipped(s: Pool, n: nat, k: nat) {
    && Ready(s) && 2 <= s.workers < |s.thr| && |s.ring.cells| == n >= 2
    && s.thr[0].SpinOut? && s.ring.head == 0 && s.ring.tail == |s.status| == k <= n
    && !s.shutdown && s.spinners == 1 && s.sleepers > 0
    && (forall i :: 0 <= i < n ==> s.ring.cells[i].seqno == if i < k then i + 1 else i)
    && (k > 0 ==> s.ring.cells[0].data == Some(0))
    && (forall t :: 0 <= t < |s.thr| ==> s.ring.ops[t].AtRest())
    && (forall t :: 0 < t < |s.thr| ==> s.thr[t] == if t < s.workers then Parked else Rest)
  }

  lemma SkipOne(p: Pool -> bool, s: Pool, n: nat, k: nat) returns (z: Pool)
    requires Closed(p) && p(s) && Skipped(s, n, k) && k < n
    ensures p(z) && Skipped(z, n, k + 1)
  {
    var c := s.workers;
    assert Slot(k, n) == k;
    PushQuietly(p, s, c);
    z := Put(s.(ring := Pushed(s.ring, c, k), status := s.status + [Claimed(k)], accepts := s.accepts + 1), c, Rest,
             PushOk(k, k));
  }

  lemma StartSkipping(p: Pool -> bool, s: Pool, n: nat) returns (z: Pool)
    requires Closed(p) && p(s) && Dozy(s, n, s.workers) && s.workers >= 2
    ensures p(z) && Skipped(z, n, 0)
  {
    var op := SpinInVain(p, s, 0);
    z := Put(s.(spinners := s.spinners + 1), 0, SpinOut, op);
  }

  /** Worker 0 takes the first of several jobs. */
  lemma TakeFirst(p: Pool -> bool, s: Pool, n: nat, k: nat) returns (z: Pool)
    requires Closed(p) && p(s) && Skipped(s, n, k) && k >= 2
    ensures p(z) && LeftWaiting(z)
  {
    PutSame(s, 0);
    assert CellAt(s.ring, 0) == Cell(1, Some(0));
    TakeJob(p, s, 0, s.ring.ops[0], 0);
    z := Put(s.(ring := Popped(s.ring, 0), spinners := s.spinners - 1), 0, Execute(0, 0), PopOk(0, 0));
    assert z.thr[1].Parked?;
  }

  /** One spinning worker is counted by two pushes, which both wake nobody; then it takes the
      first job and leaves the second one. For every pool with two workers or more, every number of
      clients and every capacity. */
  lemma JobLeftWaiting(n: nat, workers: nat, clients: nat, maxSpinners: nat) returns (moves: seq<Move>)
    requires n >= 2 && workers >= 2 && clients >= 1
    ensures LeftWaiting(RunAll(Start(n, workers, clients, maxSpinners), moves))
  {
    var s0 := Start(n, workers, clients, maxSpinners);
    ReachesClosed(s0);
    var z := LeaveWaiting(s => Reaches(s0, s), s0, n);
    moves :| RunAll(s0, moves) == z;
  }

  lemma LeaveWaiting(p: Pool -> bool, s: Pool, n: nat) returns (z: Pool)
    requires Closed(p) && p(s) && Dozy(s, n, 1) && s.workers >= 2
    ensures p(z) && LeftWaiting(z)
  {
    z := AllDoze(p, s, n, 1);
    z := StartSkipping(p, z, n);
    z := SkipOne(p, z, n, 0);
    z := SkipOne(p, z, n, 1);
    z := TakeFirst(p, z, n, 2);
  }

  /** What a schedule leads to is not such a state. */
  ghost predicate LooksAfter(s0: Pool, moves: seq<Move>)
    requires Ready(s0)
  { !LeftWaiting(RunAll(s0, moves)) }

  /** "A job whose push is over never waits while one worker is blocked and no worker is looking for
      a job": this holds in every run exactly for a pool of one worker. */
  lemma NeverLeftWaitingIff(n: nat, workers: nat, clients: nat, maxSpinners: nat)
    requires n >= 2 && workers >= 1 && clients >= 1
    ensures (forall moves :: LooksAfter(Start(n, workers, clients, maxSpinners), moves)) <==> workers == 1
  {
    var s0 := Start(n, workers, clients, maxSpinners);
    if workers == 1 {
      forall moves ensures LooksAfter(s0, moves) {
        assert IsRun(n, workers, clients, maxSpinners, moves, RunAll(s0, moves));
        OneWorkerLooks(RunAll(s0, moves));
      }
    } else {
      var moves := JobLeftWaiting(n, workers, clients, maxSpinners);
      assert !LooksAfter(s0, moves);
    }
  }

  lemma OneWorkerLooks(s: Pool)
    requires Reachable(s) && s.workers == 1
    ensures !LeftWaiting(s)
  {
    if LeftWaiting(s) { NeverAllParked(s); }
  }
}
