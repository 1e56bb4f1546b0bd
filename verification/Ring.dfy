/** The bounded lock-free ring (include/LockFreeRing.hpp) as a state machine: any number of
    threads, one atomic memory operation per step, sequentially consistent memory, and a weak
    compare-and-swap that may fail spuriously.

    Two fields are history variables, written but never read by a step's control flow:
    `log` records every push in the order of the successful CAS on `tail_`, and `takers` every
    pop in the order of the successful CAS on `head_`. */
module Ring {
  import opened Options

  /** A job is opaque to the ring: it is moved, never inspected. */
  type Job = int

  datatype Cell = Cell(seqno: nat, data: Option<Job>)

  /** One claimed position: the job pushed there and the thread that pushed it. */
  datatype Entry = Entry(item: Job, who: nat)

  /** Where a thread stands inside `try_push` or `try_pop`; the name is the NEXT operation. */
  datatype Op =
    | Idle
    | PushLoad(x: Job)                  // load tail_
    | PushSeq(x: Job, pos: nat)         // load cell.seq and compare
    | PushCas(x: Job, pos: nat)         // CAS tail_ from pos to pos + 1
    | PushWrite(x: Job, pos: nat)       // move the item into the cell
    | PushPublish(x: Job, pos: nat)     // store seq = pos + 1
    | PushOk(x: Job, pos: nat)          // returned true
    | PushFull(x: Job, pos: nat)        // returned false
    | PopLoad                           // load head_
    | PopSeq(pos: nat)                  // load cell.seq and compare
    | PopCas(pos: nat)                  // CAS head_ from pos to pos + 1
    | PopRead(pos: nat)                 // move the item out of the cell
    | PopClear(x: Job, pos: nat)        // reset the cell's item
    | PopRelease(x: Job, pos: nat)      // store seq = pos + mask_ + 1
    | PopOk(x: Job, pos: nat)           // returned true
    | PopEmpty(pos: nat)                // returned false
  {
    /** Not inside a call. */
    predicate AtRest() { Idle? || PushOk? || PushFull? || PopOk? || PopEmpty? }

    /** Between the claim of a position by a push and its publication. */
    predicate Filling() { PushWrite? || PushPublish? }
    predicate Fills(p: nat) { Filling() && pos == p }

    /** Between the claim of a position by a pop and its release. */
    predicate Draining() { PopRead? || PopClear? || PopRelease? }
    predicate Drains(p: nat) { Draining() && pos == p }
  }

  datatype State = State(
    cells: seq<Cell>, tail: nat, head: nat, ops: seq<Op>,
    log: seq<Entry>, takers: seq<nat>)
  {
    /** The abstract queue: every job pushed and not yet claimed by a pop, oldest first. */
    function Queue(): (q: seq<Job>)
      requires head <= tail == |log|
      ensures |q| == tail - head
    { seq(tail - head, i requires 0 <= i < tail - head => log[head + i].item) }
  }

  /** The cell of position `p`: p mod n, by repeated subtraction (see SlotIsMod). */
  function Slot(p: nat, n: nat): (i: nat)
    requires n > 0
    ensures i < n
  { if p < n then p else Slot(p - n, n) }

  function CellAt(r: State, p: nat): Cell
    requires |r.cells| > 0
  { r.cells[Slot(p, |r.cells|)] }

  function SetCell(r: State, p: nat, c: Cell): State
    requires |r.cells| > 0
  { r.(cells := r.cells[Slot(p, |r.cells|) := c]) }

  function Goto(r: State, t: nat, op: Op): State
    requires t < |r.ops|
  { r.(ops := r.ops[t := op]) }

  /** The constructor's result: cell i carries sequence number i. */
  function Init(n: nat, threads: nat): State {
    State(seq(n, i requires 0 <= i < n => Cell(i, None)), 0, 0, seq(threads, _ => Idle), [], [])
  }

  /** One atomic operation of thread `t`. `spurious` makes a weak CAS fail for no reason. */
  function Step(r: State, t: nat, spurious: bool): State
    requires t < |r.ops| && |r.cells| > 0
  {
    match r.ops[t]
    case PushLoad(x) => Goto(r, t, PushSeq(x, r.tail))
    case PushSeq(x, pos) =>
      var v := CellAt(r, pos).seqno;
      if v == pos then Goto(r, t, PushCas(x, pos))
      else if v < pos then Goto(r, t, PushFull(x, pos))
      else Goto(r, t, PushLoad(x))
    case PushCas(x, pos) =>
      if r.tail == pos && !spurious then ClaimTail(r, t, x)
      else Goto(r, t, PushSeq(x, r.tail))
    case PushWrite(x, pos) =>
      Goto(SetCell(r, pos, CellAt(r, pos).(data := Some(x))), t, PushPublish(x, pos))
    case PushPublish(x, pos) =>
      Goto(SetCell(r, pos, CellAt(r, pos).(seqno := pos + 1)), t, PushOk(x, pos))
    case PopLoad => Goto(r, t, PopSeq(r.head))
    case PopSeq(pos) =>
      var v := CellAt(r, pos).seqno;
      if v == pos + 1 then Goto(r, t, PopCas(pos))
      else if v < pos + 1 then Goto(r, t, PopEmpty(pos))
      else Goto(r, t, PopLoad)
    case PopCas(pos) =>
      if r.head == pos && !spurious then ClaimHead(r, t)
      else Goto(r, t, PopSeq(r.head))
    case PopRead(pos) =>
      var d := CellAt(r, pos).data;
      Goto(r, t, PopClear(if d.Some? then d.value else 0, pos))
    case PopClear(x, pos) =>
      Goto(SetCell(r, pos, CellAt(r, pos).(data := None)), t, PopRelease(x, pos))
    case PopRelease(x, pos) =>
      Goto(SetCell(r, pos, CellAt(r, pos).(seqno := pos + |r.cells|)), t, PopOk(x, pos))
    case _ => r
  }

  function ClaimTail(r: State, t: nat, x: Job): State
    requires t < |r.ops|
  {
    Goto(r, t, PushWrite(x, r.tail)).(tail := r.tail + 1, log := r.log + [Entry(x, t)])
  }

  function ClaimHead(r: State, t: nat): State
    requires t < |r.ops|
  {
    Goto(r, t, PopRead(r.head)).(head := r.head + 1, takers := r.takers + [t])
  }

  // ------------------------------------------------------------------ invariant

  ghost predicate Shape(r: State) {
    && 2 <= |r.cells|
    && r.head <= r.tail <= r.head + |r.cells|
    && |r.log| == r.tail && |r.takers| == r.head
    && (forall p :: 0 <= p < r.tail ==> r.log[p].who < |r.ops|)
    && (forall p :: 0 <= p < r.head ==> r.takers[p] < |r.ops|)
  }

  /** Position `p` is claimed by a push and not by a pop: it is published, or being filled by
      the thread that claimed it. */
  ghost predicate FullAt(r: State, p: nat)
    requires Shape(r) && p < r.tail
  {
    var c := CellAt(r, p);
    || (c.seqno == p + 1 && c.data == Some(r.log[p].item))
    || (c.seqno == p && r.ops[r.log[p].who].Fills(p))
  }

  /** Position `p` is the next use of its cell: the cell is free and empty, or still being drained
      of position p - N by the thread that claimed it. */
  ghost predicate FreeAt(r: State, p: nat)
    requires Shape(r) && p < r.head + |r.cells|
  {
    var n := |r.cells|;
    var c := CellAt(r, p);
    (c.seqno == p && c.data.None?) || (p >= n && c.seqno == p - n + 1 && r.ops[r.takers[p - n]].Drains(p - n))
  }

  /** A claimed position leaves its mark on its cell for ever. */
  ghost predicate PastAt(r: State, p: nat)
    requires Shape(r)
  {
    CellAt(r, p).seqno >= if p < r.head then p + 1 else p
  }

  ghost predicate ThreadOk(r: State, t: nat)
    requires Shape(r) && t < |r.ops|
  {
    var n := |r.cells|;
    match r.ops[t]
    case PushSeq(x, pos) => pos <= r.tail
    case PushCas(x, pos) => pos <= r.tail && (pos == r.tail ==> CellAt(r, pos).seqno == pos)
    case PushWrite(x, pos) =>
      r.head <= pos < r.tail && r.log[pos] == Entry(x, t) && CellAt(r, pos) == Cell(pos, None)
    case PushPublish(x, pos) =>
      r.head <= pos < r.tail && r.log[pos] == Entry(x, t) && CellAt(r, pos) == Cell(pos, Some(x))
    case PushOk(x, pos) => pos < r.tail && r.log[pos] == Entry(x, t)
    case PopSeq(pos) => pos <= r.head
    case PopCas(pos) =>
      pos <= r.head && (pos == r.head ==> pos < r.tail && CellAt(r, pos).seqno == pos + 1)
    case PopRead(pos) =>
      pos < r.head && r.tail <= pos + n && r.takers[pos] == t
      && CellAt(r, pos) == Cell(pos + 1, Some(r.log[pos].item))
    case PopClear(x, pos) =>
      pos < r.head && r.tail <= pos + n && r.takers[pos] == t && CellAt(r, pos).seqno == pos + 1
      && x == r.log[pos].item
    case PopRelease(x, pos) =>
      pos < r.head && r.tail <= pos + n && r.takers[pos] == t && CellAt(r, pos) == Cell(pos + 1, None)
      && x == r.log[pos].item
    case PopOk(x, pos) => pos < r.head && r.takers[pos] == t && x == r.log[pos].item
    case _ => true
  }

  ghost predicate Cells(r: State)
    requires Shape(r)
  {
    && (forall p :: r.head <= p < r.tail ==> FullAt(r, p))
    && (forall p :: r.tail <= p < r.head + |r.cells| ==> FreeAt(r, p))
    && (forall p :: 0 <= p < r.tail ==> PastAt(r, p))
  }

  /** A thread fills one position at a time: the last one it claimed. */
  ghost predicate LatestOk(r: State, t: nat)
    requires Shape(r) && t < |r.ops|
  {
    r.ops[t].Filling() ==> forall q :: r.ops[t].pos < q < r.tail ==> r.log[q].who != t
  }

  ghost predicate Inv(r: State) {
    && Shape(r)
    && Cells(r)
    && (forall t :: 0 <= t < |r.ops| ==> ThreadOk(r, t))
    && (forall t :: 0 <= t < |r.ops| ==> LatestOk(r, t))
  }

  // ------------------------------------------------------------------ slot arithmetic

  lemma {:induction false} SlotInjective(n: nat, p: nat, q: nat)
    requires n > 0 && p <= q < p + n && Slot(p, n) == Slot(q, n)
    ensures p == q
  {
    if p >= n { SlotInjective(n, p - n, q - n); }
  }

  lemma {:induction false} SlotIsMod(n: nat, p: nat)
    requires n > 0
    ensures Slot(p, n) == p % n
  {
    if p >= n {
      SlotIsMod(n, p - n);
      var k := (p - n) / n;
      assert p == n * (k + 1) + (p - n) % n;
      ModUnique(n, p, k + 1, (p - n) % n);
    }
  }

  lemma ModUnique(n: nat, p: nat, k: nat, m: nat)
    requires n > 0 && p == n * k + m && m < n
    ensures p % n == m
  {
    var d := k - p / n;
    assert n * d == p % n - m;
    assert d == 0 by {
      if d >= 1 { MulAtLeast(n, d); assert false; }
      if d <= -1 { var e := -d; assert n * e == m - p % n; MulAtLeast(n, e); assert false; }
    }
  }

  lemma MulAtLeast(n: nat, d: nat)
    requires d >= 1
    ensures n * d >= n
  {
    assert n * d == n * (d - 1) + n;
  }

  /** Two different positions less than N apart have different cells. */
  lemma SlotsDiffer(n: nat, p: nat, q: nat)
    requires p != q && p < q + n && q < p + n
    ensures Slot(p, n) != Slot(q, n)
  {
    if Slot(p, n) == Slot(q, n) {
      if p < q { SlotInjective(n, p, q); } else { SlotInjective(n, q, p); }
    }
  }

  // ------------------------------------------------------------------ preservation

  lemma InitInv(n: nat, threads: nat)
    requires n >= 2
    ensures Inv(Init(n, threads))
  {
    var r := Init(n, threads);
    forall p: nat | p < n ensures FreeAt(r, p) { assert Slot(p, n) == p; }
  }

  lemma GotoInv(r: State, t: nat, op: Op)
    requires Inv(r) && t < |r.ops|
    requires !r.ops[t].Filling() && !r.ops[t].Draining()
    requires !op.Filling() && ThreadOk(Goto(r, t, op), t)
    ensures Inv(Goto(r, t, op))
  {
    var s := Goto(r, t, op);
    forall u | 0 <= u < |s.ops| ensures ThreadOk(s, u) {
      if u != t { assert ThreadOk(r, u); }
    }
    forall u | 0 <= u < |s.ops| ensures LatestOk(s, u) { assert LatestOk(r, u); }
    forall p | s.head <= p < s.tail ensures FullAt(s, p) { assert FullAt(r, p); }
    forall p | s.tail <= p < s.head + |s.cells| ensures FreeAt(s, p) { assert FreeAt(r, p); }
    forall p | 0 <= p < s.tail ensures PastAt(s, p) { assert PastAt(r, p); }
  }

  lemma ClaimTailRoom(r: State, t: nat, x: Job)
    requires Inv(r) && t < |r.ops| && r.ops[t] == PushCas(x, r.tail)
    ensures r.tail < r.head + |r.cells| && CellAt(r, r.tail) == Cell(r.tail, None)
  {
    assert ThreadOk(r, t);
    assert Slot(r.head + |r.cells|, |r.cells|) == Slot(r.head, |r.cells|);
    if r.head < r.tail { assert FullAt(r, r.head); }
    assert FreeAt(r, r.tail);
  }

  lemma ClaimTailThread(r: State, t: nat, x: Job, u: nat)
    requires Inv(r) && t < |r.ops| && u < |r.ops| && r.ops[t] == PushCas(x, r.tail)
    requires r.tail < r.head + |r.cells| && CellAt(r, r.tail) == Cell(r.tail, None)
    ensures ThreadOk(ClaimTail(r, t, x), u)
  {
    var n := |r.cells|;
    if u != t {
      assert ThreadOk(r, u);
      if r.ops[u].Draining() { assert Slot(r.ops[u].pos + n, n) == Slot(r.ops[u].pos, n); }
    }
  }

  lemma ClaimTailInv(r: State, t: nat, x: Job)
    requires Inv(r) && t < |r.ops| && r.ops[t] == PushCas(x, r.tail)
    ensures Inv(ClaimTail(r, t, x))
  {
    var s := ClaimTail(r, t, x);
    ClaimTailRoom(r, t, x);
    forall u | 0 <= u < |s.ops| ensures ThreadOk(s, u) { ClaimTailThread(r, t, x, u); }
    forall u | 0 <= u < |s.ops| ensures LatestOk(s, u) { assert LatestOk(r, u); }
    forall p | s.head <= p < s.tail ensures FullAt(s, p) { if p < r.tail { assert FullAt(r, p); } }
    forall p | s.tail <= p < s.head + |r.cells| ensures FreeAt(s, p) { assert FreeAt(r, p); }
    forall p | 0 <= p < s.tail ensures PastAt(s, p) { if p < r.tail { assert PastAt(r, p); } }
  }

  lemma ClaimHeadThread(r: State, t: nat, u: nat)
    requires Inv(r) && t < |r.ops| && u < |r.ops| && r.ops[t] == PopCas(r.head)
    ensures Shape(ClaimHead(r, t)) && ThreadOk(ClaimHead(r, t), u)
  {
    assert ThreadOk(r, t) && ThreadOk(r, u);
    assert FullAt(r, r.head);
  }

  lemma ClaimHeadInv(r: State, t: nat)
    requires Inv(r) && t < |r.ops| && r.ops[t] == PopCas(r.head)
    ensures Inv(ClaimHead(r, t))
  {
    var s := ClaimHead(r, t);
    var n := |r.cells|;
    assert ThreadOk(r, t);
    forall u | 0 <= u < |s.ops| ensures ThreadOk(s, u) { ClaimHeadThread(r, t, u); }
    forall u | 0 <= u < |s.ops| ensures LatestOk(s, u) { assert LatestOk(r, u); }
    forall p | s.head <= p < s.tail ensures FullAt(s, p) { assert FullAt(r, p); }
    forall p | s.tail <= p < s.head + n ensures FreeAt(s, p) {
      if p < r.head + n { assert FreeAt(r, p); }
      else { assert Slot(p, n) == Slot(r.head, n); }
    }
    forall p | 0 <= p < s.tail ensures PastAt(s, p) { assert PastAt(r, p); }
  }

  /** The position whose turn the owned cell is at: the claimed one for a push, the next lap
      for a pop. Owned cells are told apart by it. */
  function Turn(r: State, op: Op): nat
    requires op.Filling() || op.Draining()
  { if op.Filling() then op.pos else op.pos + |r.cells| }

  lemma TurnInWindow(r: State, t: nat)
    requires Inv(r) && t < |r.ops| && (r.ops[t].Filling() || r.ops[t].Draining())
    ensures r.head <= Turn(r, r.ops[t]) < r.head + |r.cells|
    ensures Slot(Turn(r, r.ops[t]), |r.cells|) == Slot(r.ops[t].pos, |r.cells|)
    ensures r.ops[t].Filling() <==> Turn(r, r.ops[t]) < r.tail
  {
    assert ThreadOk(r, t);
  }

  /** Two threads that own a cell own different cells. */
  lemma OwnersDiffer(r: State, t: nat, u: nat)
    requires Inv(r) && t < |r.ops| && u < |r.ops| && t != u
    requires r.ops[t].Filling() || r.ops[t].Draining()
    requires r.ops[u].Filling() || r.ops[u].Draining()
    ensures Slot(r.ops[t].pos, |r.cells|) != Slot(r.ops[u].pos, |r.cells|)
  {
    TurnInWindow(r, t);
    TurnInWindow(r, u);
    assert ThreadOk(r, t) && ThreadOk(r, u);
    SlotsDiffer(|r.cells|, Turn(r, r.ops[t]), Turn(r, r.ops[u]));
  }

  /** The cell a thread owns is not the cell any other thread relies on. */
  lemma OtherThread(r: State, t: nat, u: nat, c: Cell, op: Op)
    requires Inv(r) && t < |r.ops| && u < |r.ops| && t != u
    requires r.ops[t].Filling() || r.ops[t].Draining()
    ensures ThreadOk(Goto(SetCell(r, r.ops[t].pos, c), t, op), u)
  {
    assert ThreadOk(r, u);
    var pos := r.ops[t].pos;
    if r.ops[u].Filling() || r.ops[u].Draining() {
      OwnersDiffer(r, t, u);
      UntouchedCell(r, pos, r.ops[u].pos, c);
    } else if (r.ops[u].PushCas? && r.ops[u].pos == r.tail) || (r.ops[u].PopCas? && r.ops[u].pos == r.head) {
      CasCell(r, t, u);
      UntouchedCell(r, pos, r.ops[u].pos, c);
    }
  }

  lemma UntouchedCell(r: State, pos: nat, other: nat, c: Cell)
    requires |r.cells| > 0 && Slot(pos, |r.cells|) != Slot(other, |r.cells|)
    ensures CellAt(SetCell(r, pos, c), other) == CellAt(r, other)
  {}

  lemma CasCell(r: State, t: nat, u: nat)
    requires Inv(r) && t < |r.ops| && u < |r.ops|
    requires r.ops[t].Filling() || r.ops[t].Draining()
    requires r.ops[u].PushCas? || r.ops[u].PopCas?
    requires r.ops[u].pos == if r.ops[u].PushCas? then r.tail else r.head
    ensures Slot(r.ops[t].pos, |r.cells|) != Slot(r.ops[u].pos, |r.cells|)
  {
    var n := |r.cells|;
    assert ThreadOk(r, t) && ThreadOk(r, u);
    TurnInWindow(r, t);
    var pos := r.ops[u].pos;
    if pos < r.head + n && pos != Turn(r, r.ops[t]) { SlotsDiffer(n, pos, Turn(r, r.ops[t])); }
  }

  /** What the write of an owned cell leaves alone. */
  lemma OtherPositions(r: State, t: nat, c: Cell, op: Op)
    requires Inv(r) && t < |r.ops| && (r.ops[t].Filling() || r.ops[t].Draining())
    requires op.Filling() ==> r.ops[t].Filling() && op.pos == r.ops[t].pos
    requires c.seqno >= CellAt(r, r.ops[t].pos).seqno
    ensures
      var s := Goto(SetCell(r, r.ops[t].pos, c), t, op);
      && Shape(s)
      && (forall p :: s.head <= p < s.tail && p != Turn(r, r.ops[t]) ==> FullAt(s, p))
      && (forall p :: s.tail <= p < s.head + |s.cells| && p != Turn(r, r.ops[t]) ==> FreeAt(s, p))
      && (forall p :: 0 <= p < s.tail ==> PastAt(s, p))
      && (forall u :: 0 <= u < |s.ops| ==> LatestOk(s, u))
  {
    var s := Goto(SetCell(r, r.ops[t].pos, c), t, op);
    var w := Turn(r, r.ops[t]);
    TurnInWindow(r, t);
    forall p | s.head <= p < s.tail && p != w ensures FullAt(s, p) {
      assert FullAt(r, p);
      SlotsDiffer(|r.cells|, p, w);
    }
    forall p | s.tail <= p < s.head + |s.cells| && p != w ensures FreeAt(s, p) {
      assert FreeAt(r, p);
      SlotsDiffer(|r.cells|, p, w);
    }
    forall p | 0 <= p < s.tail ensures PastAt(s, p) { assert PastAt(r, p); }
    forall u | 0 <= u < |s.ops| ensures LatestOk(s, u) { assert LatestOk(r, u); }
  }

  /** A thread writes the cell of a position it has claimed: the invariant needs looking at only
      for that thread and that cell. */
  lemma OwnerWrites(r: State, t: nat, c: Cell, op: Op)
    requires Inv(r) && t < |r.ops| && (r.ops[t].Filling() || r.ops[t].Draining())
    requires op.Filling() ==> r.ops[t].Filling() && op.pos == r.ops[t].pos
    requires c.seqno >= CellAt(r, r.ops[t].pos).seqno
    requires
      var s, w := Goto(SetCell(r, r.ops[t].pos, c), t, op), Turn(r, r.ops[t]);
      ThreadOk(s, t) && if w < r.tail then FullAt(s, w) else w < r.head + |r.cells| && FreeAt(s, w)
    ensures Inv(Goto(SetCell(r, r.ops[t].pos, c), t, op))
  {
    var s := Goto(SetCell(r, r.ops[t].pos, c), t, op);
    OtherPositions(r, t, c, op);
    forall u | 0 <= u < |s.ops| && u != t ensures ThreadOk(s, u) { OtherThread(r, t, u, c, op); }
  }

  /** Steps that write the cell of a position the thread has claimed. */
  lemma OwnerInv(r: State, t: nat)
    requires Inv(r) && t < |r.ops| && (r.ops[t].Filling() || r.ops[t].PopClear? || r.ops[t].PopRelease?)
    ensures Inv(Step(r, t, false)) && Step(r, t, true) == Step(r, t, false)
  {
    var s := Step(r, t, false);
    assert ThreadOk(r, t);
    TurnInWindow(r, t);
    OwnerWrites(r, t, CellAt(s, r.ops[t].pos), s.ops[t]);
  }

  lemma LocalInv(r: State, t: nat, spurious: bool)
    requires Inv(r) && t < |r.ops|
    requires !r.ops[t].Filling() && !r.ops[t].Draining()
    requires Step(r, t, spurious).tail == r.tail && Step(r, t, spurious).head == r.head
    ensures Inv(Step(r, t, spurious))
  {
    var op := r.ops[t];
    assert ThreadOk(r, t);
    if op.PopSeq? && op.pos == r.tail { assert FreeAt(r, r.tail); }
    if !op.AtRest() {
      GotoInv(r, t, Step(r, t, spurious).ops[t]);
    }
  }

  lemma StepInv(r: State, t: nat, spurious: bool)
    requires Inv(r) && t < |r.ops|
    ensures Inv(Step(r, t, spurious))
  {
    var op := r.ops[t];
    assert ThreadOk(r, t);
    if op.PushCas? && r.tail == op.pos && !spurious {
      ClaimTailInv(r, t, op.x);
    } else if op.PopCas? && r.head == op.pos && !spurious {
      ClaimHeadInv(r, t);
    } else if op.Filling() || op.PopClear? || op.PopRelease? {
      OwnerInv(r, t);
    } else if op.PopRead? {
      ReadInv(r, t);
    } else {
      LocalInv(r, t, spurious);
    }
  }

  lemma ReadInv(r: State, t: nat)
    requires Inv(r) && t < |r.ops| && r.ops[t].PopRead?
    ensures Inv(Step(r, t, false)) && Step(r, t, true) == Step(r, t, false)
  {
    var s := Step(r, t, false);
    var pos := r.ops[t].pos;
    assert ThreadOk(r, t);
    TurnInWindow(r, t);
    assert s == Goto(SetCell(r, pos, CellAt(r, pos)), t, s.ops[t]);
    OtherPositions(r, t, CellAt(r, pos), s.ops[t]);
    assert FreeAt(s, Turn(r, r.ops[t]));
    forall u | 0 <= u < |s.ops| ensures ThreadOk(s, u) { assert ThreadOk(r, u); }
  }
}
