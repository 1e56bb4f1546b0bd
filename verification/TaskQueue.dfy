/** The blocking job queue and the thread pool (include/LockFreeTaskQueue.hpp and
    include/ThreadPool.hpp) as one state machine on top of the ring: any number of workers that
    run `workerLoop`, any number of client threads that call `submit` and `shutdown`, one atomic
    operation per step. Threads 0 .. workers-1 are the workers.

    `status`, `ran`, `accepts`, `stopped` and `joined` are history variables. A job is the number
    of its `submit` call, so every submission is a job of its own, as in
    include/InlineJob.hpp, where a job object can only be moved. */
module TaskQueue {
  import opened Options
  import R = Ring
  import opened Ring

  /** The next operation of a thread. */
  datatype Pc =
    // client threads
    | Rest                            // outside any call
    | Enter(j: Job)                   // pushersInFlight_ += 1
    | Gate(j: Job)                    // load shutdown_
    | Trying(j: Job)                  // inside ring_.try_push
    | Regate(j: Job)                  // ring full: load shutdown_
    | Abort(j: Job)                   // pushersInFlight_ -= 1, return false
    | Leave(j: Job, pos: nat)         // pushersInFlight_ -= 1
    | AskSleepers(j: Job, pos: nat)   // sleepers_.fetch_add(0)
    | AskSpinners(j: Job, pos: nat)   // load spinners_
    | WakeLock(j: Job, pos: nat)      // lock parkMtx_
    | WakeUnlock(j: Job, pos: nat)    // unlock parkMtx_
    | Notify(j: Job, pos: nat)        // parkCv_.notify_one
    | Accept(j: Job, pos: nat)        // return true
    | CloseCas                        // CAS shuttingDown_
    | CloseStore                      // shutdown_ = true
    | CloseLock                       // lock parkMtx_
    | CloseUnlock                     // unlock parkMtx_
    | CloseNotify                     // parkCv_.notify_all
    | CloseJoin(k: nat)               // join worker k
    // workers
    | SpinIn                          // spinners_ += 1
    | Spin                            // inside ring_.try_pop, spinning
    | SpinOutGot(j: Job, pos: nat)    // spinners_ -= 1, return the job
    | SpinOut                         // spinners_ -= 1
    | Announce                        // sleepers_ += 1
    | Recheck                         // inside ring_.try_pop, announced
    | UnannounceGot(j: Job, pos: nat) // sleepers_ -= 1, return the job
    | AskShutdown                     // load shutdown_
    | AskInFlight                     // load pushersInFlight_
    | Unannounce                      // sleepers_ -= 1
    | LastTry                         // inside ring_.try_pop, drained?
    | ParkLock                        // lock parkMtx_
    | SizeTail                        // wait predicate: load tail_
    | SizeHead(seen: nat)             // wait predicate: load head_
    | AskStop                         // wait predicate: load shutdown_
    | Park                            // predicate false: block, releasing parkMtx_
    | Parked                          // blocked, not notified
    | Woken                           // notified: lock parkMtx_ again
    | ParkUnlock                      // predicate true: unlock parkMtx_
    | Unpark                          // sleepers_ -= 1
    | Execute(j: Job, pos: nat)       // run the job
    | Tally                           // completed_ += 1
    | Exited                          // left workerLoop
  {
    predicate InPush() { Rest? || Enter? || Gate? || Trying? || Regate? || Abort? || Leave? }

    predicate InWake() {
      AskSleepers? || AskSpinners? || WakeLock? || WakeUnlock? || Notify? || Accept?
    }

    predicate InClose() {
      CloseCas? || CloseStore? || CloseLock? || CloseUnlock? || CloseNotify? || CloseJoin?
    }

    predicate InSpin() {
      SpinIn? || Spin? || SpinOutGot? || SpinOut? || Announce? || Recheck? || UnannounceGot?
    }

    predicate InExit() { AskShutdown? || AskInFlight? || Unannounce? || LastTry? }

    predicate InPark() {
      || ParkLock? || SizeTail? || SizeHead? || AskStop? || Park? || Parked? || Woken?
      || ParkUnlock? || Unpark?
    }

    predicate Worker() { !InPush() && !InWake() && !InClose() }

    /** Inside a ring operation. */
    predicate Calling() { Trying? || Spin? || Recheck? || LastTry? }

    predicate HoldsLock() {
      WakeUnlock? || CloseUnlock? || SizeTail? || SizeHead? || AskStop? || Park? || ParkUnlock?
    }

    /** Past the shutdown check of `push` and not yet out of the in-flight section. */
    predicate Committed() { Trying? || Regate? || Leave? }

    /** In the wake-up half of a push. */
    predicate Waking() {
      Leave? || AskSleepers? || AskSpinners? || WakeLock? || WakeUnlock? || Notify?
    }

    /** A worker that will look at the ring again before it blocks, provided position `q` is
        claimed by a push and not by a pop. */
    predicate Heeds(q: nat) {
      Worker() && !Exited? && !Parked? && !Dozing(q)
    }

    /** Inside the wait predicate, with a verdict that ignores position `q`. */
    predicate Dozing(q: nat) { AskStop? || Park? || (SizeHead? && seen <= q) }
  }

  predicate Sleeping(pc: Pc) {
    || pc.Recheck? || pc.UnannounceGot? || pc.AskShutdown? || pc.AskInFlight? || pc.Unannounce?
    || pc.ParkLock? || pc.SizeTail? || pc.SizeHead? || pc.AskStop? || pc.Park? || pc.Parked?
    || pc.Woken? || pc.ParkUnlock? || pc.Unpark?
  }

  predicate Spinning(pc: Pc) { pc.Spin? || pc.SpinOutGot? || pc.SpinOut? }

  predicate InFlight(pc: Pc) { pc.Gate? || pc.Trying? || pc.Regate? || pc.Abort? || pc.Leave? }

  datatype Status = Offered(t: nat) | Claimed(pos: nat) | Refused

  datatype Pool = Pool(
    ring: State, thr: seq<Pc>, workers: nat, maxSpinners: nat,
    shutdown: bool, sleepers: int, spinners: int, inFlight: int, mutex: Option<nat>,
    shuttingDown: bool, completed: nat,
    status: seq<Status>, ran: seq<Job>, accepts: nat, stopped: bool, joined: bool)

  /** The scheduler's choice: thread `t` moves; `flip` resolves a spurious CAS failure, a
      spurious wake-up, the end of the spin loop or what an idle client calls; `pick` is the
      thread that `notify_one` wakes. */
  datatype Move = Move(t: nat, flip: bool, pick: nat)

  function Start(n: nat, workers: nat, clients: nat, maxSpinners: nat): Pool {
    Pool(R.Init(n, workers + clients),
         seq(workers + clients, i => if i < workers then SpinIn else Rest), workers, maxSpinners,
         false, 0, 0, 0, None, false, 0, [], [], 0, false, false)
  }

  predicate Ready(s: Pool) { |s.thr| == |s.ring.ops| && |s.ring.cells| > 0 }

  predicate SameShape(s: Pool, z: Pool) {
    && |z.thr| == |s.thr| && |z.ring.ops| == |s.ring.ops| && |z.ring.cells| == |s.ring.cells|
    && z.workers == s.workers
  }

  // ------------------------------------------------------------------ control flow
  // Where thread m.t goes next; a thread that cannot move stays where it is.

  /** `push` up to the end of its in-flight section, and an idle client's next call. */
  function PushNext(s: Pool, m: Move, pc: Pc, op: Op): Pc {
    match pc
    case Rest => if m.flip then CloseCas else Enter(|s.status|)
    case Enter(j) => Gate(j)
    case Gate(j) => if s.shutdown then Abort(j) else Trying(j)
    case Trying(j) => if op.PushOk? then Leave(j, op.pos) else Regate(j)
    case Regate(j) => if s.shutdown then Abort(j) else Trying(j)
    case Abort(j) => Rest
    case Leave(j, pos) => AskSleepers(j, pos)
    case _ => pc
  }

  /** The wake-up half of `push`. `notify_one` wakes a blocked worker if there is one. */
  function WakeNext(s: Pool, m: Move, pc: Pc): Pc {
    match pc
    case AskSleepers(j, pos) => if s.sleepers > 0 then AskSpinners(j, pos) else Accept(j, pos)
    case AskSpinners(j, pos) => if s.spinners == 0 then WakeLock(j, pos) else Accept(j, pos)
    case WakeLock(j, pos) => if s.mutex.None? then WakeUnlock(j, pos) else pc
    case WakeUnlock(j, pos) => Notify(j, pos)
    case Notify(j, pos) => if PicksParked(s, m) || !AnyParked(s.thr) then Accept(j, pos) else pc
    case Accept(j, pos) => Rest
    case _ => pc
  }

  /** `ThreadPool::shutdown` around `LockFreeTaskQueue::shutdown`. */
  function CloseNext(s: Pool, pc: Pc): Pc {
    match pc
    case CloseCas => if s.shuttingDown then Rest else CloseStore
    case CloseStore => CloseLock
    case CloseLock => if s.mutex.None? then CloseUnlock else pc
    case CloseUnlock => CloseNotify
    case CloseNotify => CloseJoin(0)
    case CloseJoin(k) =>
      if k >= s.workers then Rest
      else if k < |s.thr| && s.thr[k].Exited? then CloseJoin(k + 1)
      else pc
    case _ => pc
  }

  /** `pop`, steps 1 and 2: spin, then announce and check once more. The loop may stop spinning
      after any number of tries. */
  function SpinNext(s: Pool, m: Move, pc: Pc, op: Op): Pc {
    match pc
    case SpinIn => if s.spinners < s.maxSpinners then Spin else SpinOut
    case Spin => if op.PopOk? then SpinOutGot(op.x, op.pos) else if m.flip then SpinOut else Spin
    case SpinOutGot(j, pos) => Execute(j, pos)
    case SpinOut => Announce
    case Announce => Recheck
    case Recheck => if op.PopOk? then UnannounceGot(op.x, op.pos) else AskShutdown
    case UnannounceGot(j, pos) => Execute(j, pos)
    case _ => pc
  }

  /** `pop`, step 3: leave when shut down, no push half-done and the ring empty. */
  function ExitNext(s: Pool, pc: Pc, op: Op): Pc {
    match pc
    case AskShutdown => if s.shutdown then AskInFlight else ParkLock
    case AskInFlight => if s.inFlight == 0 then Unannounce else ParkLock
    case Unannounce => LastTry
    case LastTry => if op.PopOk? then Execute(op.x, op.pos) else Exited
    case _ => pc
  }

  /** `pop`, step 4: wait on the condition variable, with the predicate checked under the lock.
      A blocked worker may wake up spuriously. */
  function ParkNext(s: Pool, m: Move, pc: Pc): Pc {
    match pc
    case ParkLock => if s.mutex.None? then SizeTail else pc
    case SizeTail => SizeHead(s.ring.tail)
    case SizeHead(seen) => if seen > s.ring.head then ParkUnlock else AskStop
    case AskStop => if s.shutdown then ParkUnlock else Park
    case Park => Parked
    case Parked => if m.flip then Woken else pc
    case Woken => if s.mutex.None? then SizeTail else pc
    case ParkUnlock => Unpark
    case Unpark => SpinIn
    case _ => pc
  }

  /** `workerLoop`: run the job and count it. An exception of the job is caught and counted too. */
  function JobNext(pc: Pc): Pc {
    match pc
    case Execute(j, pos) => Tally
    case Tally => SpinIn
    case _ => pc
  }

  function NextPc(s: Pool, m: Move): Pc
    requires Ready(s) && m.t < |s.thr|
  {
    var pc, op := s.thr[m.t], s.ring.ops[m.t];
    if pc.InPush() then PushNext(s, m, pc, op)
    else if pc.InWake() then WakeNext(s, m, pc)
    else if pc.InClose() then CloseNext(s, pc)
    else if pc.InSpin() then SpinNext(s, m, pc, op)
    else if pc.InExit() then ExitNext(s, pc, op)
    else if pc.InPark() then ParkNext(s, m, pc)
    else JobNext(pc)
  }

  predicate AnyParked(thr: seq<Pc>) { exists i :: 0 <= i < |thr| && thr[i].Parked? }

  predicate PicksParked(s: Pool, m: Move) { m.pick < |s.thr| && s.thr[m.pick].Parked? }

  // ------------------------------------------------------------------ effects on shared state
  // What the operation named by a program counter does to each shared variable.

  function SleepersDelta(pc: Pc): int {
    if pc.Announce? then 1 else if pc.UnannounceGot? || pc.Unannounce? || pc.Unpark? then -1 else 0
  }

  function SpinnersDelta(pc: Pc): int {
    if pc.SpinIn? then 1 else if pc.SpinOutGot? || pc.SpinOut? then -1 else 0
  }

  function InFlightDelta(pc: Pc): int {
    if pc.Enter? then 1 else if pc.Abort? || pc.Leave? then -1 else 0
  }

  /** Locking a free lock takes it; blocking on the condition variable releases it. */
  function MutexAfter(mutex: Option<nat>, t: nat, pc: Pc): Option<nat> {
    if pc.WakeLock? || pc.CloseLock? || pc.ParkLock? || pc.Woken? then
      if mutex.None? then Some(t) else mutex
    else if pc.WakeUnlock? || pc.CloseUnlock? || pc.ParkUnlock? || pc.Park? then None
    else mutex
  }

  /** The threads after the notifications of this step. */
  function Roused(s: Pool, m: Move): (thr: seq<Pc>)
    requires m.t < |s.thr|
    ensures |thr| == |s.thr|
  {
    if s.thr[m.t].Notify? && PicksParked(s, m) then s.thr[m.pick := Woken]
    else if s.thr[m.t].CloseNotify? then
      seq(|s.thr|, i requires 0 <= i < |s.thr| => if s.thr[i].Parked? then Woken else s.thr[i])
    else s.thr
  }

  /** A new submission gets the next ticket; an aborted one is recorded as refused. */
  function StatusAfter(status: seq<Status>, m: Move, pc: Pc): seq<Status> {
    if pc.Rest? && !m.flip then status + [Offered(m.t)]
    else if pc.Abort? && 0 <= pc.j < |status| then status[pc.j := Refused]
    else status
  }

  /** One operation outside the ring, by thread m.t, which then goes to `next`. */
  function Act(s: Pool, m: Move, next: Pc): (z: Pool)
    requires Ready(s) && m.t < |s.thr|
    ensures SameShape(s, z)
  {
    var t, pc := m.t, s.thr[m.t];
    Pool(if next.Trying? then R.Goto(s.ring, t, PushLoad(next.j))
         else if next.Calling() then R.Goto(s.ring, t, PopLoad)
         else s.ring,
         Roused(s, m)[t := next],
         s.workers,
         s.maxSpinners,
         s.shutdown || pc.CloseStore?,
         s.sleepers + SleepersDelta(pc),
         s.spinners + SpinnersDelta(pc),
         s.inFlight + InFlightDelta(pc),
         MutexAfter(s.mutex, t, pc),
         s.shuttingDown || pc.CloseCas?,
         s.completed + (if pc.Tally? then 1 else 0),
         StatusAfter(s.status, m, pc),
         if pc.Execute? then s.ran + [pc.j] else s.ran,
         s.accepts + (if pc.Accept? then 1 else 0),
         s.stopped || pc.CloseNotify?,
         s.joined || (pc.CloseJoin? && pc.k >= s.workers))
  }

  /** One atomic operation inside a ring operation. A push takes its position with its claim. */
  function RingMove(s: Pool, t: nat, spurious: bool): (z: Pool)
    requires Ready(s) && t < |s.thr|
    ensures SameShape(s, z)
  {
    var op, r := s.ring.ops[t], R.Step(s.ring, t, spurious);
    if r.tail > s.ring.tail && op.PushCas? && 0 <= op.x < |s.status| then
      s.(ring := r, status := s.status[op.x := Claimed(s.ring.tail)])
    else
      s.(ring := r)
  }

  function Advance(s: Pool, m: Move): (z: Pool)
    requires Ready(s)
    ensures SameShape(s, z)
  {
    if m.t >= |s.thr| then s
    else if s.thr[m.t].Calling() && !s.ring.ops[m.t].AtRest() then RingMove(s, m.t, m.flip)
    else Act(s, m, NextPc(s, m))
  }

  /** The state after a whole schedule. */
  function RunAll(s: Pool, moves: seq<Move>): (z: Pool)
    requires Ready(s)
    ensures SameShape(s, z)
    decreases |moves|
  {
    if moves == [] then s else Advance(RunAll(s, moves[..|moves| - 1]), moves[|moves| - 1])
  }
}
