/** Nobody is turned away: whatever has happened, as long as there is no shutdown, a job that a client
    has offered can still be accepted, and its `submit` can return true. */
module PoolProgress {
  import opened Options
  import R = Ring
  import opened Ring
  import opened Counting
  import opened TaskQueue
  import opened QueueBase
  import opened QueueDrain
  import opened QueueWake
  import QJ = QueueJobs
  import RT = RingTheorems
  import PT = PoolTheorems
  import PC = PoolCompletion
  import PP = PoolPromises
  import opened PoolRuns

  // ------------------------------------------------------------------ one thread alone

  /** A thread that `notify_one` may wake. */
  ghost function Waiter(s: Pool): nat {
    if AnyParked(s.thr) then var i :| 0 <= i < |s.thr| && s.thr[i].Parked?; i else 0
  }

  ghost function Turn(s: Pool, t: nat): Move { Move(t, false, Waiter(s)) }

  /** Only `t` moves; somebody may be woken. */
  ghost predicate Solo(s: Pool, t: nat, z: Pool) {
    && Ready(s) && Ready(z) && SameShape(s, z) && t < |s.thr|
    && forall u :: 0 <= u < |s.thr| && u != t ==>
         && z.ring.ops[u] == s.ring.ops[u]
         && (z.thr[u] == s.thr[u] || (s.thr[u].Parked? && z.thr[u].Woken?))
  }

  lemma SoloAct(s: Pool, t: nat, next: Pc)
    requires Ready(s) && t < |s.thr|
    ensures Solo(s, t, Act(s, Turn(s, t), next))
  {
    ActThreads(s, Turn(s, t), next);
  }

  lemma SoloRing(s: Pool, t: nat)
    requires Ready(s) && t < |s.thr|
    ensures Solo(s, t, RingMove(s, t, false))
  {
    PC.StepOps(s.ring, t, false);
  }

  lemma SoloTurn(s: Pool, t: nat)
    requires Ready(s) && t < |s.thr|
    ensures Solo(s, t, Advance(s, Turn(s, t)))
    ensures !s.thr[t].CloseStore? ==> Advance(s, Turn(s, t)).shutdown == s.shutdown
  {
    SoloAct(s, t, NextPc(s, Turn(s, t)));
    SoloRing(s, t);
  }

  lemma SoloTwice(s: Pool, t: nat, s1: Pool, z: Pool)
    requires Solo(s, t, s1) && Solo(s1, t, z)
    ensures Solo(s, t, z)
  {}

  /** The pool is open: nobody has shut it down. */
  ghost predicate Open(p: Pool -> bool, s: Pool) { p(s) && PT.Inv(s) && !s.shutdown }

  lemma OpenTurn(p: Pool -> bool, s: Pool, t: nat)
    requires Closed(p) && Open(p, s) && t < |s.thr| && !s.thr[t].CloseStore?
    ensures Open(p, Advance(s, Turn(s, t))) && Solo(s, t, Advance(s, Turn(s, t)))
  {
    PT.AdvanceInv(s, Turn(s, t));
    SoloTurn(s, t);
  }

  /** Nobody but `t` may hold the lock. */
  predicate FreeFor(s: Pool, t: nat) { s.mutex.None? || s.mutex == Some(t) }

  // ------------------------------------------------------------------ a pop that has claimed its job

  function DrainRank(op: Op): nat {
    if op.PopRead? then 3 else if op.PopClear? then 2 else if op.PopRelease? then 1 else 0
  }

  lemma DrainStep(r: State, t: nat)
    requires R.Inv(r) && t < |r.ops| && r.ops[t].Draining()
    ensures
      var z, pos := R.Step(r, t, false), r.ops[t].pos;
      && z.tail == r.tail && z.head == r.head && |z.cells| == |r.cells|
      && (z.ops[t].Drains(pos) || (z.ops[t].PopOk? && CellAt(z, pos).seqno == pos + |r.cells|))
      && DrainRank(z.ops[t]) < DrainRank(r.ops[t])
  {}

  /** A pop that has claimed a position can release its cell. */
  lemma {:induction false} FinishPop(p: Pool -> bool, s: Pool, u: nat, pos: nat) returns (z: Pool)
    requires Closed(p) && Open(p, s) && u < |s.thr| && s.ring.ops[u].Drains(pos)
    ensures Open(p, z) && Solo(s, u, z) && z.thr == s.thr && z.mutex == s.mutex && z.ring.tail == s.ring.tail
    ensures CellAt(z.ring, pos).seqno == pos + |z.ring.cells|
    decreases DrainRank(s.ring.ops[u])
  {
    assert OpFits(s.thr[u], s.ring.ops[u]);
    OpenTurn(p, s, u);
    DrainStep(s.ring, u);
    AdvanceCases(s, Turn(s, u));
    var s1 := Advance(s, Turn(s, u));
    z := s1;
    if s1.ring.ops[u].Draining() {
      z := FinishPop(p, s1, u, pos);
      SoloTwice(s, u, s1, z);
    }
  }

  // ------------------------------------------------------------------ a push that has placed its job

  /** How far a push that has claimed its position is from returning. */
  function ReturnRank(pc: Pc, op: Op): nat {
    match pc
    case Trying(_) => if op.PushWrite? then 20 else if op.PushPublish? then 19 else 18
    case Leave(_, _) => 17
    case AskSleepers(_, _) => 16
    case AskSpinners(_, _) => 15
    case WakeLock(_, _) => 14
    case WakeUnlock(_, _) => 13
    case Notify(_, _) => 12
    case _ => 11
  }

  predicate PlacedBy(s: Pool, u: nat)
    requires Ready(s) && u < |s.thr|
  { QJ.Placed((s.thr[u], s.ring.ops[u])) }

  lemma ReturnNext(s: Pool, u: nat)
    requires Ready(s) && u < |s.thr| && PlacedBy(s, u) && !s.thr[u].Accept? && s.ring.ops[u].AtRest()
    requires s.thr[u].HoldsLock() || s.mutex.None?
    ensures
      var next := NextPc(s, Turn(s, u));
      && QJ.Post(next) && next.j == s.thr[u].j && ReturnRank(next, s.ring.ops[u]) < ReturnRank(s.thr[u], s.ring.ops[u])
  {}

  lemma FillStep(r: State, u: nat)
    requires R.Inv(r) && u < |r.ops| && r.ops[u].Filling()
    ensures
      var z := R.Step(r, u, false);
      && z.tail == r.tail && z.head == r.head && z.log == r.log && |z.cells| == |r.cells|
      && (z.ops[u].PushPublish? || z.ops[u].PushOk?)
      && (r.ops[u].PushWrite? <==> z.ops[u].PushPublish?)
  {}

  /** One step of a push that has placed its job. */
  ghost predicate Returning(s: Pool, u: nat, z: Pool)
    requires Ready(s) && Ready(z) && u < |s.thr| == |z.thr|
  {
    && PlacedBy(s, u) && PlacedBy(z, u) && z.thr[u].j == s.thr[u].j && FreeFor(z, u)
    && z.ring.tail == s.ring.tail && z.ring.head == s.ring.head && z.ring.log == s.ring.log
    && ReturnRank(z.thr[u], z.ring.ops[u]) < ReturnRank(s.thr[u], s.ring.ops[u])
  }

  lemma ReturnRing(s: Pool, u: nat)
    requires Rings(s, Turn(s, u)) && PlacedBy(s, u) && FreeFor(s, u)
    ensures Returning(s, u, RingMove(s, u, false))
  {
    assert OpFits(s.thr[u], s.ring.ops[u]);
    FillStep(s.ring, u);
  }

  lemma ReturnAct(s: Pool, u: nat)
    requires Acts(s, Turn(s, u)) && Locking(s) && PlacedBy(s, u) && !s.thr[u].Accept? && FreeFor(s, u)
    ensures Returning(s, u, Act(s, Turn(s, u), NextPc(s, Turn(s, u))))
  {
    var m := Turn(s, u);
    assert OpFits(s.thr[u], s.ring.ops[u]) && (s.thr[u].HoldsLock() <==> s.mutex == Some(u));
    ReturnNext(s, u);
    NextPcLock(s, m);
    ActRing(s, m, NextPc(s, m));
    ActThreads(s, m, NextPc(s, m));
  }

  lemma ReturnStep(s: Pool, u: nat)
    requires Base(s) && Locking(s) && u < |s.thr| && PlacedBy(s, u) && !s.thr[u].Accept? && FreeFor(s, u)
    ensures Returning(s, u, Advance(s, Turn(s, u)))
  {
    AdvanceCases(s, Turn(s, u));
    if Rings(s, Turn(s, u)) { ReturnRing(s, u); } else { ReturnAct(s, u); }
  }

  /** A push that has placed its job can end its wake-up step. */
  lemma {:induction false} EndWake(p: Pool -> bool, s: Pool, u: nat) returns (z: Pool)
    requires Closed(p) && Open(p, s) && u < |s.thr| && PlacedBy(s, u) && FreeFor(s, u)
    ensures Open(p, z) && Solo(s, u, z) && z.thr[u].Accept? && z.thr[u].j == s.thr[u].j && z.mutex.None?
    ensures z.ring.tail == s.ring.tail && z.ring.head == s.ring.head && z.ring.log == s.ring.log
    decreases ReturnRank(s.thr[u], s.ring.ops[u])
  {
    if s.thr[u].Accept? {
      z := s;
      assert s.thr[u].HoldsLock() <==> s.mutex == Some(u);
    } else {
      OpenTurn(p, s, u);
      ReturnStep(s, u);
      var s1 := Advance(s, Turn(s, u));
      z := EndWake(p, s1, u);
      SoloTwice(s, u, s1, z);
    }
  }

  // ------------------------------------------------------------------ a worker looking for a job

  /** How far a worker is from claiming the oldest job, if that is published and nobody else moves. */
  function HuntRank(pc: Pc, op: Op, head: nat): nat {
    if pc.Calling() then
      if op.PopRead? then 67 else if op.PopClear? then 66 else if op.PopRelease? then 65 else if op.PopOk? then 64
      else if op.PopEmpty? then (if pc.Spin? then 39 else 58)
      else PC.TryPopRank(op, head) + (if pc.Spin? then 30 else 10)
    else AwayRank(pc)
  }

  function AwayRank(pc: Pc): nat {
    match pc
    case SpinOutGot(_, _) => 63
    case UnannounceGot(_, _) => 63
    case Execute(_, _) => 62
    case Tally => 61
    case AskShutdown => 57
    case ParkLock => 56
    case Woken => 56
    case SizeTail => 55
    case SizeHead(_) => 54
    case ParkUnlock => 53
    case Unpark => 52
    case SpinIn => 50
    case SpinOut => 45
    case _ => 44
  }

  /** A worker that is not on its way out. */
  predicate Staying(pc: Pc) { !pc.LastTry? && !pc.AskInFlight? && !pc.Unannounce? && !pc.Exited? }

  lemma HuntNext(s: Pool, w: nat)
    requires Ready(s) && w < |s.thr| && !s.shutdown && s.ring.ops[w].AtRest() && OpFits(s.thr[w], s.ring.ops[w])
    requires s.thr[w].Heeds(s.ring.head) && s.ring.head < s.ring.tail && Staying(s.thr[w])
    requires s.thr[w].HoldsLock() || s.mutex.None?
    ensures
      var next := NextPc(s, Turn(s, w));
      HuntRank(next, Opening(next, s.ring.ops[w]), s.ring.head) < HuntRank(s.thr[w], s.ring.ops[w], s.ring.head)
  {}

  /** The oldest job is published. */
  predicate Ripe(r: State) { |r.cells| > 0 && r.head < r.tail && CellAt(r, r.head).seqno == r.head + 1 }

  lemma HuntRing(r: State, w: nat, pc: Pc)
    requires R.Inv(r) && w < |r.ops| && PopKind(r.ops[w]) && !r.ops[w].AtRest() && pc.Calling() && Ripe(r)
    ensures
      var z := R.Step(r, w, false);
      || (z.head == r.head + 1 && z.tail == r.tail && z.ops[w] == PopRead(r.head))
      || (z.head == r.head && z.tail == r.tail && HuntRank(pc, z.ops[w], z.head) < HuntRank(pc, r.ops[w], r.head))
  {
    assert R.ThreadOk(r, w);
    if r.ops[w].PopSeq? && r.ops[w].pos < r.head { assert R.PastAt(r, r.ops[w].pos); }
  }

  lemma StaysRipe(r: State, w: nat)
    requires R.Inv(r) && w < |r.ops| && Ripe(r) && R.Step(r, w, false).head == r.head
    ensures R.Step(r, w, false).tail >= r.tail && Ripe(R.Step(r, w, false))
  {
    RT.SeqnoMonotone(r, RT.Act(w, RT.Go(false)));
    RT.NothingOverwritten(r, RT.Act(w, RT.Go(false)));
  }

  /** Worker `w` is after the oldest job. */
  ghost predicate Hunting(s: Pool, w: nat) {
    && Ready(s) && w < |s.thr| && s.thr[w].Worker() && s.thr[w].Heeds(s.ring.head) && Ripe(s.ring) && FreeFor(s, w)
  }

  /** It claims the job, or comes nearer to it. */
  ghost predicate Hunted(s: Pool, w: nat, z: Pool)
    requires Ready(s) && Ready(z) && w < |s.thr| == |z.thr|
  {
    && z.ring.tail == s.ring.tail
    && (|| (z.ring.head == s.ring.head + 1 && z.ring.ops[w] == PopRead(s.ring.head) && z.mutex.None?)
        || (z.ring.head == s.ring.head && Ripe(z.ring) && FreeFor(z, w)
            && HuntRank(z.thr[w], z.ring.ops[w], z.ring.head) < HuntRank(s.thr[w], s.ring.ops[w], s.ring.head)))
  }

  lemma HuntInRing(s: Pool, w: nat)
    requires Rings(s, Turn(s, w)) && Locking(s) && Hunting(s, w)
    ensures Hunted(s, w, RingMove(s, w, false))
  {
    assert OpFits(s.thr[w], s.ring.ops[w]) && (s.thr[w].HoldsLock() <==> s.mutex == Some(w));
    HuntRing(s.ring, w, s.thr[w]);
    if R.Step(s.ring, w, false).head == s.ring.head { StaysRipe(s.ring, w); }
  }

  lemma HuntOutside(s: Pool, w: nat)
    requires Acts(s, Turn(s, w)) && Locking(s) && Drain(s) && Hunting(s, w) && !s.shutdown
    ensures Hunted(s, w, Act(s, Turn(s, w), NextPc(s, Turn(s, w))))
  {
    var m := Turn(s, w);
    assert OpFits(s.thr[w], s.ring.ops[w]) && DrainAt(s, w) && (s.thr[w].HoldsLock() <==> s.mutex == Some(w));
    NextPcBase(s, m);
    HuntNext(s, w);
    NextPcLock(s, m);
    ActThreads(s, m, NextPc(s, m));
    ActOpens(s, m, NextPc(s, m));
  }

  lemma ActOpens(s: Pool, m: Move, next: Pc)
    requires Ready(s) && m.t < |s.thr|
    ensures
      var r := Act(s, m, next).ring;
      && r.ops[m.t] == Opening(next, s.ring.ops[m.t])
      && r.cells == s.ring.cells && r.head == s.ring.head && r.tail == s.ring.tail
  {}

  lemma HuntStep(s: Pool, w: nat)
    requires Base(s) && Locking(s) && Drain(s) && Hunting(s, w) && !s.shutdown
    ensures Hunted(s, w, Advance(s, Turn(s, w)))
  {
    AdvanceCases(s, Turn(s, w));
    if Rings(s, Turn(s, w)) { HuntInRing(s, w); } else { HuntOutside(s, w); }
  }

  /** A worker that heeds the oldest job, once that is published, can claim it. */
  lemma {:induction false} Hunt(p: Pool -> bool, s: Pool, w: nat) returns (z: Pool)
    requires Closed(p) && Open(p, s) && Hunting(s, w)
    ensures Open(p, z) && Solo(s, w, z) && z.mutex.None? && z.ring.tail == s.ring.tail
    ensures z.ring.head == s.ring.head + 1 && z.ring.ops[w].Drains(s.ring.head)
    decreases HuntRank(s.thr[w], s.ring.ops[w], s.ring.head)
  {
    OpenTurn(p, s, w);
    HuntStep(s, w);
    var s1 := Advance(s, Turn(s, w));
    z := s1;
    if s1.ring.head == s.ring.head {
      PT.HeedsStep(s, Turn(s, w), w, s.ring.head);
      z := Hunt(p, s1, w);
      SoloTwice(s, w, s1, z);
    }
  }

  // ------------------------------------------------------------------ making room

  /** The next push will find its cell free. */
  predicate Room(r: State) { |r.cells| > 0 && CellAt(r, r.tail).seqno == r.tail }

  /** Client `t` offers job `j` and has not placed it. */
  ghost predicate Offers(s: Pool, t: nat, j: Job) {
    && Ready(s) && t < |s.thr|
    && ((s.thr[t].Enter? || s.thr[t].Gate? || s.thr[t].Regate? || s.thr[t].Trying?) && s.thr[t].j == j)
    && !PlacedBy(s, t)
  }

  /** Why there is no room: the cell is being drained, or the ring is full. */
  lemma NoRoom(r: State)
    requires R.Inv(r) && !Room(r)
    ensures r.tail >= |r.cells|
    ensures r.tail < r.head + |r.cells| ==> r.ops[r.takers[r.tail - |r.cells|]].Drains(r.tail - |r.cells|)
  {
    if r.tail < r.head + |r.cells| { assert R.FreeAt(r, r.tail); }
  }

  lemma DrainedRoom(r: State, pos: nat)
    requires |r.cells| > 0 && r.tail == pos + |r.cells| && CellAt(r, pos).seqno == pos + |r.cells|
    ensures Room(r)
  {
    assert Slot(pos + |r.cells|, |r.cells|) == Slot(pos, |r.cells|);
  }

  /** A job that no push is waking for is published and heeded. */
  lemma Heedful(s: Pool) returns (w: nat)
    requires PT.Inv(s) && s.ring.head < s.ring.tail && s.mutex.None?
    requires !Pending(s, s.ring.log[s.ring.head].who, s.ring.head)
    ensures Hunting(s, w)
  {
    var q := s.ring.head;
    var u := s.ring.log[q].who;
    assert CaredFor(s, q) && R.FullAt(s.ring, q) && OpFits(s.thr[u], s.ring.ops[u]);
    w :| 0 <= w < |s.thr| && s.thr[w].Heeds(q);
  }

  lemma PendingPlaced(s: Pool, u: nat, q: nat)
    requires Base(s) && u < |s.thr| && Pending(s, u, q)
    ensures PlacedBy(s, u)
  {}

  lemma AcceptNotPending(s: Pool, u: nat, q: nat)
    requires Ready(s) && u < |s.thr| && s.thr[u].Accept?
    ensures !Pending(s, u, q)
  {}

  /** The push of the oldest job can end its wake-up step. */
  lemma EndPending(p: Pool -> bool, s: Pool, u: nat) returns (z: Pool)
    requires Closed(p) && Open(p, s) && s.mutex.None? && s.ring.head < s.ring.tail
    requires u == s.ring.log[s.ring.head].who
    ensures Open(p, z) && z.mutex.None? && z.ring.log == s.ring.log
    ensures z.ring.tail == s.ring.tail && z.ring.head == s.ring.head
    ensures z == s || (PlacedBy(s, u) && Solo(s, u, z))
    ensures u < |z.thr| && !Pending(z, u, z.ring.head)
  {
    z := s;
    if Pending(s, u, s.ring.head) {
      PendingPlaced(s, u, s.ring.head);
      z := EndWake(p, s, u);
      AcceptNotPending(z, u, z.ring.head);
    }
  }

  lemma StillOffers(s: Pool, u: nat, z: Pool, t: nat, j: Job)
    requires Offers(s, t, j) && u < |s.thr| && u != t && Solo(s, u, z)
    ensures Offers(z, t, j)
  {}

  /** Full ring: the oldest job can be taken and its cell released. */
  lemma TakeOldest(p: Pool -> bool, s: Pool, t: nat, j: Job) returns (z: Pool)
    requires Closed(p) && Open(p, s) && Offers(s, t, j) && s.mutex.None? && s.ring.tail == s.ring.head + |s.ring.cells|
    ensures Open(p, z) && Offers(z, t, j) && z.mutex.None? && Room(z.ring)
  {
    var q, u := s.ring.head, s.ring.log[s.ring.head].who;
    var s1 := EndPending(p, s, u);
    if s1 != s { StillOffers(s, u, s1, t, j); }
    var w := Heedful(s1);
    var s2 := Hunt(p, s1, w);
    StillOffers(s1, w, s2, t, j);
    z := FinishPop(p, s2, w, q);
    StillOffers(s2, w, z, t, j);
    DrainedRoom(z.ring, q);
  }

  /** Whatever fills the ring, room can be made for the next push. */
  lemma MakeRoom(p: Pool -> bool, s: Pool, t: nat, j: Job) returns (z: Pool)
    requires Closed(p) && Open(p, s) && Offers(s, t, j) && s.mutex.None?
    ensures Open(p, z) && Offers(z, t, j) && z.mutex.None? && Room(z.ring)
  {
    z := s;
    if !Room(s.ring) {
      NoRoom(s.ring);
      var pos := s.ring.tail - |s.ring.cells|;
      if s.ring.tail < s.ring.head + |s.ring.cells| {
        var u := s.ring.takers[pos];
        z := FinishPop(p, s, u, pos);
        DrainerIsWorker(s, u, t, j);
        StillOffers(s, u, z, t, j);
        DrainedRoom(z.ring, pos);
      } else {
        z := TakeOldest(p, s, t, j);
      }
    }
  }

  lemma DrainerIsWorker(s: Pool, u: nat, t: nat, j: Job)
    requires Base(s) && u < |s.thr| && s.ring.ops[u].Draining() && Offers(s, t, j)
    ensures u != t
  {
    assert OpFits(s.thr[u], s.ring.ops[u]);
  }

  // ------------------------------------------------------------------ placing the job

  /** How far an offered job is from its position, if there is room and nobody else moves. */
  function OfferRank(pc: Pc, op: Op, tail: nat): nat {
    match pc
    case Enter(_) => 30
    case Gate(_) => 29
    case Regate(_) => 21
    case _ => if op.PushFull? then 22 else PC.TryPushRank(op, tail)
  }

  lemma OfferNext(s: Pool, t: nat, j: Job)
    requires Offers(s, t, j) && !s.shutdown && s.ring.ops[t].AtRest() && OpFits(s.thr[t], s.ring.ops[t])
    ensures
      var next := NextPc(s, Turn(s, t));
      && (next.Gate? || next.Trying? || next.Regate?) && next.j == j
      && OfferRank(next, Opening(next, s.ring.ops[t]), s.ring.tail) < OfferRank(s.thr[t], s.ring.ops[t], s.ring.tail)
      && (next.Trying? ==> Opening(next, s.ring.ops[t]).PushLoad?)
  {}

  lemma OfferRing(r: State, t: nat, j: Job)
    requires R.Inv(r) && t < |r.ops| && PushKind(r.ops[t], j) && !r.ops[t].AtRest() && !r.ops[t].Filling() && Room(r)
    ensures
      var z := R.Step(r, t, false);
      || z.ops[t].Filling()
      || (z.cells == r.cells && z.tail == r.tail && PushKind(z.ops[t], j) && !z.ops[t].AtRest()
          && PC.TryPushRank(z.ops[t], z.tail) < PC.TryPushRank(r.ops[t], r.tail))
  {
    assert R.ThreadOk(r, t);
    if r.ops[t].PushSeq? && r.ops[t].pos < r.tail { assert R.PastAt(r, r.ops[t].pos); }
  }

  /** The job is placed, or comes nearer to its position. */
  ghost predicate NearerOrPlaced(s: Pool, t: nat, j: Job, z: Pool)
    requires Ready(s) && Ready(z) && t < |s.thr| == |z.thr|
  {
    && z.mutex == s.mutex
    && (|| (PlacedBy(z, t) && z.thr[t].Trying? && z.thr[t].j == j)
        || (Offers(z, t, j) && Room(z.ring)
            && OfferRank(z.thr[t], z.ring.ops[t], z.ring.tail) < OfferRank(s.thr[t], s.ring.ops[t], s.ring.tail)))
  }

  lemma OfferInRing(s: Pool, t: nat, j: Job)
    requires Rings(s, Turn(s, t)) && Offers(s, t, j) && Room(s.ring)
    ensures NearerOrPlaced(s, t, j, RingMove(s, t, false))
  {
    assert OpFits(s.thr[t], s.ring.ops[t]);
    OfferRing(s.ring, t, j);
  }

  lemma OfferOutside(s: Pool, t: nat, j: Job)
    requires Acts(s, Turn(s, t)) && Offers(s, t, j) && Room(s.ring) && !s.shutdown
    ensures NearerOrPlaced(s, t, j, Act(s, Turn(s, t), NextPc(s, Turn(s, t))))
  {
    var m := Turn(s, t);
    assert OpFits(s.thr[t], s.ring.ops[t]);
    NextPcBase(s, m);
    OfferNext(s, t, j);
    ActThreads(s, m, NextPc(s, m));
    ActOpens(s, m, NextPc(s, m));
  }

  lemma OfferStep(s: Pool, t: nat, j: Job)
    requires Base(s) && Offers(s, t, j) && Room(s.ring) && !s.shutdown
    ensures NearerOrPlaced(s, t, j, Advance(s, Turn(s, t)))
  {
    AdvanceCases(s, Turn(s, t));
    if Rings(s, Turn(s, t)) { OfferInRing(s, t, j); } else { OfferOutside(s, t, j); }
  }

  lemma {:induction false} PlaceJob(p: Pool -> bool, s: Pool, t: nat, j: Job) returns (z: Pool)
    requires Closed(p) && Open(p, s) && Offers(s, t, j) && Room(s.ring) && s.mutex.None?
    ensures Open(p, z) && z.mutex.None? && SameShape(s, z) && PlacedBy(z, t) && z.thr[t].j == j
    decreases OfferRank(s.thr[t], s.ring.ops[t], s.ring.tail)
  {
    OpenTurn(p, s, t);
    OfferStep(s, t, j);
    z := Advance(s, Turn(s, t));
    if !PlacedBy(z, t) { z := PlaceJob(p, z, t, j); }
  }

  /** The push returns true. */
  lemma ReturnTrue(p: Pool -> bool, s: Pool, t: nat) returns (z: Pool)
    requires Closed(p) && Open(p, s) && t < |s.thr| && s.thr[t].Accept?
    ensures Open(p, z) && SameShape(s, z) && z.thr[t].Rest? && QJ.Is(z.status, s.thr[t].j, Claimed(s.thr[t].pos))
  {
    OpenTurn(p, s, t);
    assert QJ.TicketAt(s, t);
    AcceptStep(s, t);
    z := Advance(s, Turn(s, t));
  }

  lemma AcceptStep(s: Pool, t: nat)
    requires Ready(s) && t < |s.thr| && s.thr[t].Accept?
    ensures Advance(s, Turn(s, t)).thr[t].Rest? && Advance(s, Turn(s, t)).status == s.status
  {}

  lemma FreeLock(p: Pool -> bool, s: Pool, t: nat, j: Job) returns (z: Pool)
    requires Closed(p) && Open(p, s) && Offers(s, t, j)
    ensures Open(p, z) && Offers(z, t, j) && z.mutex.None?
  {
    z := PC.Release(p, s);
  }

  lemma Conclude(p: Pool -> bool, s: Pool, t: nat, j: Job) returns (z: Pool)
    requires Closed(p) && Open(p, s) && t < |s.thr| && PlacedBy(s, t) && s.thr[t].j == j && s.mutex.None?
    ensures Open(p, z) && t < |z.thr| && z.thr[t].Rest? && 0 <= j < |z.status| && z.status[j].Claimed?
  {
    z := EndWake(p, s, t);
    z := ReturnTrue(p, z, t);
  }

  lemma Succeed(p: Pool -> bool, s: Pool, t: nat, j: Job) returns (z: Pool)
    requires Closed(p) && Open(p, s) && Offers(s, t, j)
    ensures Open(p, z) && t < |z.thr| && z.thr[t].Rest? && 0 <= j < |z.status| && z.status[j].Claimed?
  {
    z := FreeLock(p, s, t, j);
    z := MakeRoom(p, z, t, j);
    z := PlaceJob(p, z, t, j);
    z := Conclude(p, z, t, j);
  }

  // ------------------------------------------------------------------ every offered job has its client

  predicate Carries(pc: Pc, j: Job) {
    (pc.Enter? || pc.Gate? || pc.Trying? || pc.Regate? || pc.Abort?) && pc.j == j
  }

  ghost predicate CarriedAt(s: Pool, j: nat)
    requires j < |s.status|
  { s.status[j].Offered? ==> s.status[j].t < |s.thr| && Carries(s.thr[s.status[j].t], j) }

  ghost predicate Carried(s: Pool) { forall j :: 0 <= j < |s.status| ==> CarriedAt(s, j) }

  lemma NextCarries(s: Pool, m: Move, j: Job)
    requires Ready(s) && m.t < |s.thr| && Carries(s.thr[m.t], j)
    ensures Carries(NextPc(s, m), j) || s.thr[m.t].Abort? || (s.thr[m.t].Trying? && s.ring.ops[m.t].PushOk?)
  {}

  lemma ActCarriedAt(s: Pool, m: Move, j: nat)
    requires PT.Inv(s) && Acts(s, m) && Carried(s) && j < |Act(s, m, NextPc(s, m)).status|
    ensures CarriedAt(Act(s, m, NextPc(s, m)), j)
  {
    ActThreads(s, m, NextPc(s, m));
    assert QJ.TicketAt(s, m.t);
    if j < |s.status| {
      assert CarriedAt(s, j);
      if s.status[j] == Offered(m.t) { NextCarries(s, m, j); }
    }
  }

  lemma RingCarriedAt(s: Pool, t: nat, spurious: bool, j: nat)
    requires Ready(s) && t < |s.thr| && Carried(s) && j < |s.status|
    ensures j < |RingMove(s, t, spurious).status| && CarriedAt(RingMove(s, t, spurious), j)
  {
    assert CarriedAt(s, j);
  }

  lemma AdvanceCarried(s: Pool, m: Move)
    requires PT.Inv(s) && Carried(s)
    ensures Carried(Advance(s, m))
  {
    AdvanceCases(s, m);
    if Acts(s, m) {
      forall j | 0 <= j < |Act(s, m, NextPc(s, m)).status| ensures CarriedAt(Act(s, m, NextPc(s, m)), j) {
        ActCarriedAt(s, m, j);
      }
    } else if Rings(s, m) {
      forall j | 0 <= j < |s.status| ensures CarriedAt(RingMove(s, m.t, m.flip), j) {
        RingCarriedAt(s, m.t, m.flip, j);
      }
    }
  }

  lemma {:induction false} RunCarried(s: Pool, moves: seq<Move>)
    requires PT.Inv(s) && Carried(s)
    ensures Carried(RunAll(s, moves))
    decreases |moves|
  {
    if moves != [] {
      RunCarried(s, moves[..|moves| - 1]);
      PT.RunInv(s, moves[..|moves| - 1]);
      AdvanceCarried(RunAll(s, moves[..|moves| - 1]), moves[|moves| - 1]);
    }
  }

  lemma ReachableCarried(s: Pool)
    requires PT.Reachable(s)
    ensures Carried(s)
  {
    var n, workers, clients, maxSpinners, moves :| PT.IsRun(n, workers, clients, maxSpinners, moves, s);
    PT.StartInv(n, workers, clients, maxSpinners);
    RunCarried(Start(n, workers, clients, maxSpinners), moves);
  }

  lemma OfferedOffers(s: Pool, j: nat)
    requires PT.Inv(s) && PP.Honest(s) && !s.shutdown && j < |s.status| && s.status[j].Offered? && CarriedAt(s, j)
    ensures Offers(s, s.status[j].t, j)
  {
    assert QJ.TicketAt(s, s.status[j].t);
  }

  /** From every reachable state without a shutdown, whatever all threads are doing and however full
      the ring is: a job that a client has offered can still be accepted, and its `submit` return. */
  lemma SubmitCanSucceed(s: Pool, j: nat) returns (moves: seq<Move>)
    requires PT.Reachable(s) && !s.shutdown && j < |s.status| && s.status[j].Offered?
    ensures
      var t := s.status[j].t;
      && Ready(s) && t < |s.thr| && !RunAll(s, moves).shutdown && RunAll(s, moves).thr[t].Rest?
      && j < |RunAll(s, moves).status| && RunAll(s, moves).status[j].Claimed?
  {
    PT.ReachableInv(s);
    ReachableCarried(s);
    PP.RefusedOnlyByShutdown(s);
    assert CarriedAt(s, j);
    OfferedOffers(s, j);
    ReachesClosed(s);
    var z := Succeed(s' => Reaches(s, s'), s, s.status[j].t, j);
    moves :| RunAll(s, moves) == z;
  }
}
