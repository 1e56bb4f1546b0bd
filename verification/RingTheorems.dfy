/** What every interleaving of `try_push` and `try_pop` guarantees. */
module RingTheorems {
  import opened Options
  import opened Ring
  import opened RingIndex

  /** A scheduler's move: thread `t` calls an operation, or performs its next atomic step. */
  datatype Cmd = CallPush(x: Job) | CallPop | Go(spurious: bool)
  datatype Act = Act(t: nat, cmd: Cmd)

  /** A move that is not possible leaves the state unchanged. */
  function Next(r: State, a: Act): (s: State)
    requires |r.cells| > 0
    ensures |s.cells| == |r.cells| && |s.ops| == |r.ops|
  {
    if a.t >= |r.ops| then r
    else match a.cmd
      case Go(spurious) => Step(r, a.t, spurious)
      case CallPush(x) => if r.ops[a.t].AtRest() then Goto(r, a.t, PushLoad(x)) else r
      case CallPop => if r.ops[a.t].AtRest() then Goto(r, a.t, PopLoad) else r
  }

  /** The state after a whole schedule. */
  function Run(r: State, acts: seq<Act>): (s: State)
    requires |r.cells| > 0
    ensures |s.cells| == |r.cells|
    decreases |acts|
  {
    if acts == [] then r else Next(Run(r, acts[..|acts| - 1]), acts[|acts| - 1])
  }

  lemma NextInv(r: State, a: Act)
    requires Inv(r)
    ensures Inv(Next(r, a))
  {
    if a.t < |r.ops| {
      match a.cmd
      case Go(spurious) => StepInv(r, a.t, spurious);
      case CallPush(x) => if r.ops[a.t].AtRest() { GotoInv(r, a.t, PushLoad(x)); }
      case CallPop => if r.ops[a.t].AtRest() { GotoInv(r, a.t, PopLoad); }
    }
  }

  /** Every reachable state of a ring of at least two cells satisfies the invariant. */
  lemma {:induction false} RunInv(n: nat, threads: nat, acts: seq<Act>)
    requires n >= 2
    ensures Inv(Run(Init(n, threads), acts))
    decreases |acts|
  {
    if acts == [] {
      InitInv(n, threads);
    } else {
      RunInv(n, threads, acts[..|acts| - 1]);
      NextInv(Run(Init(n, threads), acts[..|acts| - 1]), acts[|acts| - 1]);
    }
  }

  // ------------------------------------------------------------------ FIFO refinement

  datatype Event = Enq(x: Job) | Deq(x: Job)

  /** The specification: a FIFO queue of at most `n` jobs. None if some event is not allowed. */
  function Fifo(n: nat, events: seq<Event>): Option<seq<Job>>
    decreases |events|
  {
    if events == [] then Some([])
    else
      var q := Fifo(n, events[..|events| - 1]);
      if q.None? then None
      else match events[|events| - 1]
        case Enq(x) => if |q.value| < n then Some(q.value + [x]) else None
        case Deq(x) => if |q.value| > 0 && q.value[0] == x then Some(q.value[1..]) else None
  }

  function Enqs(events: seq<Event>): seq<Job>
    decreases |events|
  {
    if events == [] then []
    else Enqs(events[..|events| - 1])
         + (if events[|events| - 1].Enq? then [events[|events| - 1].x] else [])
  }

  function Deqs(events: seq<Event>): seq<Job>
    decreases |events|
  {
    if events == [] then []
    else Deqs(events[..|events| - 1])
         + (if events[|events| - 1].Deq? then [events[|events| - 1].x] else [])
  }

  /** A push takes effect at its successful CAS on `tail_`, a pop at its successful CAS on
      `head_`, where it takes the job at position `head_`. */
  function EventOf(r: State, a: Act): seq<Event>
    requires |r.cells| > 0
  {
    if a.t >= |r.ops| || !a.cmd.Go? || a.cmd.spurious then []
    else
      var op := r.ops[a.t];
      if op.PushCas? && r.tail == op.pos then [Enq(op.x)]
      else if op.PopCas? && r.head == op.pos && r.head < |r.log| then [Deq(r.log[r.head].item)]
      else []
  }

  function Trace(r: State, acts: seq<Act>): seq<Event>
    requires |r.cells| > 0
    decreases |acts|
  {
    if acts == [] then []
    else Trace(r, acts[..|acts| - 1]) + EventOf(Run(r, acts[..|acts| - 1]), acts[|acts| - 1])
  }

  function Items(log: seq<Entry>): (q: seq<Job>)
    ensures |q| == |log|
  { seq(|log|, i requires 0 <= i < |log| => log[i].item) }

  ghost predicate Refines(r: State, events: seq<Event>)
  {
    && Inv(r)
    && Fifo(|r.cells|, events) == Some(r.Queue())
    && Enqs(events) == Items(r.log)
    && Deqs(events) == Items(r.log[..r.head])
  }

  lemma EnqRefines(r: State, t: nat, events: seq<Event>)
    requires Refines(r, events) && t < |r.ops|
    requires r.ops[t].PushCas? && r.ops[t].pos == r.tail
    ensures Refines(Step(r, t, false), events + [Enq(r.ops[t].x)])
  {
    var s, x := Step(r, t, false), r.ops[t].x;
    StepInv(r, t, false);
    var all := events + [Enq(x)];
    assert all[..|all| - 1] == events;
    assert s.Queue() == r.Queue() + [x];
    assert s.log[..s.head] == r.log[..r.head];
    assert Items(s.log) == Items(r.log) + [x];
  }

  lemma DeqRefines(r: State, t: nat, events: seq<Event>)
    requires Refines(r, events) && t < |r.ops|
    requires r.ops[t].PopCas? && r.ops[t].pos == r.head
    ensures r.head < r.tail
    ensures Refines(Step(r, t, false), events + [Deq(r.log[r.head].item)])
  {
    var s := Step(r, t, false);
    assert ThreadOk(r, t);
    StepInv(r, t, false);
    var all := events + [Deq(r.log[r.head].item)];
    assert all[..|all| - 1] == events;
    assert s.Queue() == r.Queue()[1..];
    assert s.log[..s.head] == r.log[..r.head] + [r.log[r.head]];
    assert Items(s.log[..s.head]) == Items(r.log[..r.head]) + [r.log[r.head].item];
  }

  lemma SilentFrame(r: State, a: Act)
    requires Inv(r) && EventOf(r, a) == []
    ensures Next(r, a).tail == r.tail && Next(r, a).head == r.head && Next(r, a).log == r.log
  {
    if a.t < |r.ops| { assert ThreadOk(r, a.t); }
  }

  lemma NextRefines(r: State, a: Act, events: seq<Event>)
    requires Refines(r, events)
    ensures Refines(Next(r, a), events + EventOf(r, a))
  {
    if EventOf(r, a) == [] {
      NextInv(r, a);
      assert events + [] == events;
      SilentFrame(r, a);
      assert Next(r, a).Queue() == r.Queue();
    } else if r.ops[a.t].PushCas? {
      EnqRefines(r, a.t, events);
    } else {
      DeqRefines(r, a.t, events);
    }
  }

  /** FIFO refinement, for every schedule of any number of threads: the events form a legal run
      of a FIFO queue of at most n jobs whose content is the ring's. */
  lemma {:induction false} FifoRefinement(n: nat, threads: nat, acts: seq<Act>)
    requires n >= 2
    ensures Refines(Run(Init(n, threads), acts), Trace(Init(n, threads), acts))
    decreases |acts|
  {
    var r0 := Init(n, threads);
    if acts == [] {
      InitInv(n, threads);
      assert r0.Queue() == [];
    } else {
      var before := acts[..|acts| - 1];
      FifoRefinement(n, threads, before);
      NextRefines(Run(r0, before), acts[|acts| - 1], Trace(r0, before));
    }
  }

  /** A pop that returned has the job of its own position, which is what was enqueued there. */
  lemma PopReturnsItsItem(n: nat, threads: nat, acts: seq<Act>, t: nat)
    requires n >= 2
    requires t < |Run(Init(n, threads), acts).ops| && Run(Init(n, threads), acts).ops[t].PopOk?
    ensures
      var events := Trace(Init(n, threads), acts);
      var PopOk(x, pos) := Run(Init(n, threads), acts).ops[t];
      && pos < |Deqs(events)| <= |Enqs(events)|
      && x == Deqs(events)[pos] == Enqs(events)[pos]
      && pos < |Run(Init(n, threads), acts).takers|
      && Run(Init(n, threads), acts).takers[pos] == t
  {
    FifoRefinement(n, threads, acts);
    var r := Run(Init(n, threads), acts);
    assert ThreadOk(r, t);
  }

  // ------------------------------------------------------------------ ownership

  /** Two threads between claim and publish never share a cell. */
  lemma ExclusiveOwnership(r: State, t: nat, u: nat)
    requires Inv(r) && t < |r.ops| && u < |r.ops| && t != u
    requires r.ops[t].Filling() || r.ops[t].Draining()
    requires r.ops[u].Filling() || r.ops[u].Draining()
    ensures Slot(r.ops[t].pos, |r.cells|) != Slot(r.ops[u].pos, |r.cells|)
  {
    OwnersDiffer(r, t, u);
  }

  /** A cell's sequence number tells its phase: being filled or published while a push has its
      position, being drained or free while none has. */
  lemma SeqnoFixesPhase(r: State, p: nat)
    requires Inv(r) && r.head <= p < r.head + |r.cells|
    ensures p < r.tail ==>
              && (CellAt(r, p).seqno == p <==> r.ops[r.log[p].who].Fills(p))
              && (CellAt(r, p).seqno == p + 1 <==> !r.ops[r.log[p].who].Fills(p))
    ensures r.tail <= p ==>
              var draining := p >= |r.cells| && r.ops[r.takers[p - |r.cells|]].Drains(p - |r.cells|);
              && (CellAt(r, p).seqno == p <==> !draining)
              && (CellAt(r, p).seqno == p + 1 - |r.cells| <==> draining)
  {
    var n := |r.cells|;
    if p < r.tail {
      assert FullAt(r, p) && ThreadOk(r, r.log[p].who);
    } else {
      assert FreeAt(r, p);
      if p >= n {
        assert Slot(p - n + n, n) == Slot(p - n, n);
        assert ThreadOk(r, r.takers[p - n]);
      }
    }
  }

  lemma SeqnoMonotone(r: State, a: Act)
    requires Inv(r)
    ensures forall i :: 0 <= i < |r.cells| ==> r.cells[i].seqno <= Next(r, a).cells[i].seqno
    ensures r.head <= Next(r, a).head && r.tail <= Next(r, a).tail
    ensures r.log <= Next(r, a).log
  {
    if a.t < |r.ops| { assert ThreadOk(r, a.t); }
  }

  /** Sequence numbers never decrease, and a published job that no pop has claimed stays in its
      cell: nothing overwrites it. */
  lemma NothingOverwritten(r: State, a: Act)
    requires Inv(r)
    ensures forall i :: 0 <= i < |r.cells| ==> r.cells[i].seqno <= Next(r, a).cells[i].seqno
    ensures forall p :: Next(r, a).head <= p < r.tail && CellAt(r, p).seqno == p + 1 ==>
              CellAt(Next(r, a), p) == CellAt(r, p) == Cell(p + 1, Some(r.log[p].item))
  {
    var s := Next(r, a);
    NextInv(r, a);
    SeqnoMonotone(r, a);
    forall p | s.head <= p < r.tail && CellAt(r, p).seqno == p + 1
      ensures CellAt(s, p) == CellAt(r, p) == Cell(p + 1, Some(r.log[p].item))
    {
      assert FullAt(r, p) && FullAt(s, p);
      assert CellAt(s, p).seqno >= CellAt(r, p).seqno;
    }
  }

  /** No cell keeps a job that has left the ring: what a cell holds is a job that no pop has claimed,
      or one that its pop is just moving out. */
  lemma NoJobKept(r: State, i: nat)
    requires Inv(r) && i < |r.cells| && r.cells[i].data.Some?
    ensures
      || (exists p :: r.head <= p < r.tail && Slot(p, |r.cells|) == i && r.cells[i].data == Some(r.log[p].item))
      || (exists t :: 0 <= t < |r.ops| && (r.ops[t].PopRead? || r.ops[t].PopClear?)
                      && Slot(r.ops[t].pos, |r.cells|) == i)
  {
    var n := |r.cells|;
    var p := WindowCovers(n, r.head, i);
    if p < r.tail {
      assert FullAt(r, p) && ThreadOk(r, r.log[p].who);
    } else {
      assert FreeAt(r, p);
      assert Slot(p - n + n, n) == Slot(p - n, n);
      assert ThreadOk(r, r.takers[p - n]);
    }
  }

  // ------------------------------------------------------------------ refusals

  /** `try_push` gives up only when `tail_` is still the position it looked at and the job
      N positions back has not left its cell. */
  lemma PushRefusalJustified(r: State, t: nat, spurious: bool)
    requires Inv(r) && t < |r.ops| && r.ops[t].PushSeq?
    ensures Step(r, t, spurious).ops[t].PushFull? <==>
              && r.tail == r.ops[t].pos
              && |r.cells| <= r.tail
              && (r.tail - |r.cells| < r.head ==>
                    r.ops[r.takers[r.tail - |r.cells|]].Drains(r.tail - |r.cells|))
  {
    var n := |r.cells|;
    var pos := r.ops[t].pos;
    assert ThreadOk(r, t);
    if pos < r.tail {
      assert PastAt(r, pos);
    } else if r.tail < r.head + n {
      assert FreeAt(r, pos);
      if n <= r.tail {
        assert Slot(pos - n + n, n) == Slot(pos - n, n);
        assert ThreadOk(r, r.takers[pos - n]);
      }
    } else {
      assert Slot(r.head + n, n) == Slot(r.head, n);
      assert FullAt(r, r.head);
    }
  }

  /** `try_pop` gives up exactly when `head_` is still the position it looked at and that
      position has no published job: nobody has claimed it, or its push is still filling it. */
  lemma PopRefusalJustified(r: State, t: nat, spurious: bool)
    requires Inv(r) && t < |r.ops| && r.ops[t].PopSeq?
    ensures Step(r, t, spurious).ops[t].PopEmpty? <==>
              && r.head == r.ops[t].pos
              && (r.head < r.tail ==> r.ops[r.log[r.head].who].Fills(r.head))
  {
    var pos := r.ops[t].pos;
    assert ThreadOk(r, t);
    if pos < r.head {
      assert PastAt(r, pos);
    } else if r.head < r.tail {
      assert FullAt(r, pos);
      assert ThreadOk(r, r.log[pos].who);
    } else {
      assert FreeAt(r, pos);
    }
  }

  /** With a single producer a refused pop means that no published job was unclaimed. */
  lemma SingleProducerPopRefusal(r: State, t: nat, spurious: bool, w: nat)
    requires Inv(r) && t < |r.ops| && r.ops[t].PopSeq?
    requires forall p :: 0 <= p < r.tail ==> r.log[p].who == w
    requires Step(r, t, spurious).ops[t].PopEmpty?
    ensures forall p :: r.head <= p < r.tail ==> CellAt(r, p).seqno == p
  {
    PopRefusalJustified(r, t, spurious);
    if r.head < r.tail {
      assert LatestOk(r, w) && ThreadOk(r, w);
      forall p | r.head <= p < r.tail ensures CellAt(r, p).seqno == p { assert FullAt(r, p); }
    }
  }

  // ------------------------------------------------------------------ capacity one

  ghost predicate Bounded(r: State) { r.head <= r.tail <= r.head + |r.cells| }

  /** A state of the ring of one cell with one thread. */
  function OneCell(c: Cell, tail: nat, op: Op, log: seq<Entry>): State {
    State([c], tail, 0, [op], log, [])
  }

  lemma Extend(acts: seq<Act>, r: State, cmd: Cmd) returns (more: seq<Act>)
    requires Run(Init(1, 1), acts) == r
    ensures Run(Init(1, 1), more) == Next(r, Act(0, cmd))
  {
    more := acts + [Act(0, cmd)];
    assert more[..|more| - 1] == acts;
  }

  lemma FirstClaim(x: Job) returns (acts: seq<Act>)
    ensures Run(Init(1, 1), acts) == OneCell(Cell(0, None), 1, PushWrite(x, 0), [Entry(x, 0)])
  {
    assert Run(Init(1, 1), []) == OneCell(Cell(0, None), 0, Idle, []);
    acts := Extend([], OneCell(Cell(0, None), 0, Idle, []), CallPush(x));
    acts := Extend(acts, OneCell(Cell(0, None), 0, PushLoad(x), []), Go(false));
    acts := Extend(acts, OneCell(Cell(0, None), 0, PushSeq(x, 0), []), Go(false));
    acts := Extend(acts, OneCell(Cell(0, None), 0, PushCas(x, 0), []), Go(false));
  }

  lemma FirstPush(x: Job) returns (acts: seq<Act>)
    ensures Run(Init(1, 1), acts) == OneCell(Cell(1, Some(x)), 1, PushOk(x, 0), [Entry(x, 0)])
  {
    acts := FirstClaim(x);
    acts := Extend(acts, OneCell(Cell(0, None), 1, PushWrite(x, 0), [Entry(x, 0)]), Go(false));
    acts := Extend(acts, OneCell(Cell(0, Some(x)), 1, PushPublish(x, 0), [Entry(x, 0)]), Go(false));
  }

  /** With one cell the second push does not see the ring as full and overwrites the first job. */
  lemma OneCellOverwrites(x: Job, y: Job) returns (acts: seq<Act>)
    ensures
      var s := Run(Init(1, 1), acts);
      s.head == 0 && s.tail == 2 && s.cells == [Cell(1, Some(y))] && s.log == [Entry(x, 0), Entry(y, 0)]
  {
    var e := Entry(x, 0);
    acts := FirstPush(x);
    acts := Extend(acts, OneCell(Cell(1, Some(x)), 1, PushOk(x, 0), [e]), CallPush(y));
    acts := Extend(acts, OneCell(Cell(1, Some(x)), 1, PushLoad(y), [e]), Go(false));
    assert Slot(1, 1) == 0;
    acts := Extend(acts, OneCell(Cell(1, Some(x)), 1, PushSeq(y, 1), [e]), Go(false));
    acts := Extend(acts, OneCell(Cell(1, Some(x)), 1, PushCas(y, 1), [e]), Go(false));
    acts := Extend(acts, OneCell(Cell(1, Some(x)), 2, PushWrite(y, 1), [e, Entry(y, 0)]), Go(false));
  }

  /** The bound head_ <= tail_ <= head_ + N holds in every run exactly when N >= 2. */
  lemma BoundedIffTwoCells(n: nat)
    requires n > 0
    ensures (forall threads: nat, acts: seq<Act> :: Bounded(Run(Init(n, threads), acts))) <==> n >= 2
  {
    if n >= 2 {
      forall threads: nat, acts: seq<Act> ensures Bounded(Run(Init(n, threads), acts)) {
        RunInv(n, threads, acts);
      }
    } else {
      var acts := OneCellOverwrites(0, 1);
      assert !Bounded(Run(Init(1, 1), acts));
    }
  }

  /** In a ring of any size the enqueue events are the jobs logged, and at most head_ jobs were
      dequeued. */
  lemma {:induction false} EventsAreLogged(n: nat, threads: nat, acts: seq<Act>)
    requires n > 0
    ensures
      var r, events := Run(Init(n, threads), acts), Trace(Init(n, threads), acts);
      |Enqs(events)| == |r.log| && |Deqs(events)| <= r.head
    decreases |acts|
  {
    if acts != [] {
      var before := acts[..|acts| - 1];
      EventsAreLogged(n, threads, before);
      EventCounts(Trace(Init(n, threads), before), Run(Init(n, threads), before), acts[|acts| - 1]);
    }
  }

  lemma EventCounts(events: seq<Event>, r: State, a: Act)
    requires |r.cells| > 0 && |Enqs(events)| == |r.log| && |Deqs(events)| <= r.head
    ensures |Enqs(events + EventOf(r, a))| == |Next(r, a).log| && |Deqs(events + EventOf(r, a))| <= Next(r, a).head
  {
    EventMoves(r, a);
    if EventOf(r, a) == [] { assert events + [] == events; } else { OneEvent(events, EventOf(r, a)[0]); }
  }

  lemma OneEvent(events: seq<Event>, e: Event)
    ensures |Enqs(events + [e])| == |Enqs(events)| + (if e.Enq? then 1 else 0)
    ensures |Deqs(events + [e])| == |Deqs(events)| + (if e.Deq? then 1 else 0)
  {
    assert (events + [e])[..|events|] == events;
  }

  lemma EventMoves(r: State, a: Act)
    requires |r.cells| > 0
    ensures
      var e, s := EventOf(r, a), Next(r, a);
      && (e == [] ==> |s.log| == |r.log| && s.head >= r.head)
      && (e != [] ==> e == [e[0]] && |s.log| == |r.log| + (if e[0].Enq? then 1 else 0)
                      && s.head == r.head + (if e[0].Deq? then 1 else 0))
  {}

  /** What a FIFO queue holds is what came in and did not go out, and never more than n jobs. */
  lemma {:induction false} FifoSize(n: nat, events: seq<Event>)
    requires Fifo(n, events).Some?
    ensures |Fifo(n, events).value| == |Enqs(events)| - |Deqs(events)| <= n
    decreases |events|
  {
    if events != [] { FifoSize(n, events[..|events| - 1]); }
  }

  /** Every run is a run of a FIFO queue of at most N jobs exactly when N >= 2. */
  lemma FifoIffTwoCells(n: nat)
    requires n > 0
    ensures (forall threads: nat, acts: seq<Act> :: Fifo(n, Trace(Init(n, threads), acts)).Some?) <==> n >= 2
  {
    if n >= 2 {
      forall threads: nat, acts: seq<Act> ensures Fifo(n, Trace(Init(n, threads), acts)).Some? {
        FifoRefinement(n, threads, acts);
      }
    } else {
      var acts := OneCellOverwrites(0, 1);
      EventsAreLogged(1, 1, acts);
      NotFifo(Trace(Init(1, 1), acts));
    }
  }

  lemma NotFifo(events: seq<Event>)
    requires |Enqs(events)| - |Deqs(events)| > 1
    ensures Fifo(1, events).None?
  {
    if Fifo(1, events).Some? { FifoSize(1, events); }
  }
}
