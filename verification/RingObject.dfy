/** The ring as an object: constructor, `try_push` and `try_pop` on the cell array, with whole
    operations of other threads between their steps, against the sequence of jobs it holds. */
module RingObject {
  import opened Options
  import opened Words
  import opened Ring
  import opened RingIndex

  /** The cells of a ring that nobody is working on hold the jobs log[head..tail]. */
  ghost predicate Quiet(cells: seq<Cell>, head: nat, tail: nat, log: seq<Job>) {
    && 2 <= |cells| && head <= tail <= head + |cells| && |log| == tail
    && (forall p :: head <= p < tail ==> At(cells, p) == Cell(p + 1, Some(log[p])))
    && (forall p :: tail <= p < head + |cells| ==> At(cells, p) == Cell(p, None))
  }

  ghost function At(cells: seq<Cell>, p: nat): Cell
    requires |cells| > 0
  { cells[Slot(p, |cells|)] }

  lemma PushQuiet(cells: seq<Cell>, head: nat, tail: nat, log: seq<Job>, x: Job)
    requires Quiet(cells, head, tail, log) && tail < head + |cells|
    ensures Quiet(cells[Slot(tail, |cells|) := Cell(tail + 1, Some(x))], head, tail + 1, log + [x])
  {
    var after := cells[Slot(tail, |cells|) := Cell(tail + 1, Some(x))];
    forall p | head <= p < head + |cells| && p != tail ensures At(after, p) == At(cells, p) {
      SlotsDiffer(|cells|, p, tail);
    }
  }

  lemma PopQuiet(cells: seq<Cell>, head: nat, tail: nat, log: seq<Job>)
    requires Quiet(cells, head, tail, log) && head < tail
    ensures Quiet(cells[Slot(head, |cells|) := Cell(head + |cells|, None)], head + 1, tail, log)
  {
    var n := |cells|;
    var after := cells[Slot(head, n) := Cell(head + n, None)];
    assert Slot(head + n, n) == Slot(head, n);
    forall p | head < p < head + n ensures At(after, p) == At(cells, p) { SlotsDiffer(n, p, head); }
  }

  /** The cell at `tail` is free exactly when the ring is not full. */
  lemma TailCell(cells: seq<Cell>, head: nat, tail: nat, log: seq<Job>)
    requires Quiet(cells, head, tail, log)
    ensures At(cells, tail).seqno == tail <==> tail < head + |cells|
    ensures At(cells, head).seqno == head + 1 <==> head < tail
    ensures head < tail ==> At(cells, head).data == Some(log[head])
  {
    assert Slot(head + |cells|, |cells|) == Slot(head, |cells|);
    assert tail == head + |cells| ==> At(cells, tail) == At(cells, head);
  }

  /** A cell that a push looks at too late is ahead of it; at `tail` it is free or behind. */
  lemma StaleTail(cells: seq<Cell>, head: nat, tail: nat, log: seq<Job>, pos: nat)
    requires Quiet(cells, head, tail, log) && pos <= tail
    ensures pos < tail ==> At(cells, pos).seqno > pos
    ensures pos == tail ==> At(cells, pos).seqno <= pos
  {
    TailCell(cells, head, tail, log);
    if pos < head {
      var p := WindowCovers(|cells|, head, Slot(pos, |cells|));
      assert At(cells, p) == At(cells, pos);
    } else if pos == tail == head + |cells| {
      assert At(cells, tail) == At(cells, head);
    }
  }

  /** The same for a pop. */
  lemma StaleHead(cells: seq<Cell>, head: nat, tail: nat, log: seq<Job>, pos: nat)
    requires Quiet(cells, head, tail, log) && pos <= head
    ensures pos < head ==> At(cells, pos).seqno > pos + 1
    ensures pos == head ==> At(cells, pos).seqno <= pos + 1
  {
    TailCell(cells, head, tail, log);
    if pos < head {
      var p := WindowCovers(|cells|, head, Slot(pos, |cells|));
      assert At(cells, p) == At(cells, pos);
      if p < pos + |cells| { SlotsDiffer(|cells|, p, pos); }
    }
  }

  // ------------------------------------------------------------------ what other threads do

  datatype Operation = OtherPush(x: Job) | OtherPop

  /** In one round of a retry loop other threads complete `early` before the load of `seq` and
      `late` before the compare-and-swap, which may also fail for no reason. */
  datatype Turn = Turn(early: seq<Operation>, late: seq<Operation>, spurious: bool)

  /** What a ring with `q` holds after these operations: the specification of the ring. */
  function Effect(q: seq<Job>, cap: nat, others: seq<Operation>): seq<Job> {
    if others == [] then q
    else
      var p := Effect(q, cap, others[..|others| - 1]);
      match others[|others| - 1]
      case OtherPush(x) => if |p| < cap then p + [x] else p
      case OtherPop => if p != [] then p[1..] else p
  }

  lemma EffectNext(q: seq<Job>, cap: nat, others: seq<Operation>, i: nat)
    requires i < |others|
    ensures
      var p := Effect(q, cap, others[..i]);
      Effect(q, cap, others[..i + 1])
        == if others[i].OtherPush? then (if |p| < cap then p + [others[i].x] else p)
           else (if p != [] then p[1..] else p)
  {
    assert others[..i + 1][..i] == others[..i];
  }

  lemma {:induction false} EffectAppend(q: seq<Job>, cap: nat, a: seq<Operation>, b: seq<Operation>)
    ensures Effect(q, cap, a + b) == Effect(Effect(q, cap, a), cap, b)
    decreases |b|
  {
    if b == [] {
      assert a + b == a;
    } else {
      var n := |b| - 1;
      assert (a + b)[..|a + b| - 1] == a + b[..n];
      EffectAppend(q, cap, a, b[..n]);
    }
  }

  /** All that other threads do, in order. */
  function AllOf(turns: seq<Turn>): seq<Operation> {
    if turns == [] then []
    else AllOf(turns[..|turns| - 1]) + turns[|turns| - 1].early + turns[|turns| - 1].late
  }

  lemma {:induction false} AllOfPrefix(turns: seq<Turn>, i: nat)
    requires i <= |turns|
    ensures AllOf(turns[..i]) <= AllOf(turns)
    decreases |turns|
  {
    if i == |turns| {
      assert turns[..i] == turns;
    } else {
      var rest := turns[..|turns| - 1];
      assert rest[..i] == turns[..i];
      AllOfPrefix(rest, i);
    }
  }

  /** One more round. */
  lemma TurnMet(q: seq<Job>, cap: nat, turns: seq<Turn>, i: nat, met: seq<Operation>)
    requires i <= |turns| && met == AllOf(turns[..i])
    ensures
      var turn := if i < |turns| then turns[i] else Turn([], [], false);
      && met + turn.early <= AllOf(turns)
      && met + turn.early + turn.late == AllOf(turns[..if i < |turns| then i + 1 else i]) <= AllOf(turns)
      && Effect(q, cap, met + turn.early) == Effect(Effect(q, cap, met), cap, turn.early)
      && Effect(q, cap, met + turn.early + turn.late) == Effect(Effect(q, cap, met + turn.early), cap, turn.late)
  {
    var turn := if i < |turns| then turns[i] else Turn([], [], false);
    if i < |turns| {
      assert turns[..i + 1][..i] == turns[..i];
      AllOfPrefix(turns, i + 1);
    } else {
      AllOfPrefix(turns, i);
    }
    EffectAppend(q, cap, met, turn.early);
    EffectAppend(q, cap, met + turn.early, turn.late);
  }

  class LockFreeRing {
    var cells: array<Cell>
    var tail: nat
    var head: nat
    ghost var log: seq<Job>

    ghost predicate Valid()
      reads this, cells
    { Quiet(cells[..], head, tail, log) }

    ghost function Contents(): seq<Job>
      requires Valid()
      reads this, cells
    { log[head..] }

    /** A ring for more than one job is ready for use, and its cells are those of the state
        machine's initial state. */
    constructor (minCapacity: nat)
      requires minCapacity <= TWO_63
      ensures fresh(cells) && minCapacity <= cells.Length && exists k: nat :: cells.Length == Pow2(k)
      ensures forall i: nat :: minCapacity <= Pow2(i) ==> cells.Length <= Pow2(i)
      ensures cells[..] == Init(cells.Length, 0).cells && head == tail == 0
      ensures 2 <= minCapacity ==> Valid() && Contents() == []
    {
      var cap, k := RoundUp(minCapacity);
      var fill := new Cell[cap](_ => Cell(0, None));
      var i := 0;
      while i < cap
        invariant i <= cap && forall j :: 0 <= j < i ==> fill[j] == Cell(j, None)
      {
        fill[i] := Cell(i, None);
        i := i + 1;
      }
      cells, tail, head, log := fill, 0, 0, [];
      new;
      assert cells.Length == Pow2(k);
    }

    /** Claim the next position, fill its cell and publish it. */
    method Fill(x: Job)
      requires Valid() && tail < head + cells.Length
      modifies this, cells
      ensures Valid() && cells == old(cells) && tail == old(tail) + 1 && head == old(head)
      ensures Contents() == old(Contents()) + [x]
    {
      PushQuiet(cells[..], head, tail, log, x);
      cells[Slot(tail, cells.Length)] := Cell(tail + 1, Some(x));
      tail, log := tail + 1, log + [x];
    }

    /** Claim the oldest position, empty its cell and release it. */
    method Drain() returns (x: Job)
      requires Valid() && head < tail
      modifies this, cells
      ensures Valid() && cells == old(cells) && tail == old(tail) && head == old(head) + 1
      ensures old(Contents()) == [x] + Contents()
    {
      PopQuiet(cells[..], head, tail, log);
      TailCell(cells[..], head, tail, log);
      var i := Slot(head, cells.Length);
      x := cells[i].data.value;
      cells[i] := Cell(head + cells.Length, None);
      head := head + 1;
    }

    /** Other threads complete these operations. */
    method Interfere(others: seq<Operation>)
      requires Valid()
      modifies this, cells
      ensures Valid() && cells == old(cells) && tail >= old(tail) && head >= old(head)
      ensures Contents() == Effect(old(Contents()), cells.Length, others)
      ensures others == [] ==> tail == old(tail) && head == old(head)
    {
      for i := 0 to |others|
        invariant Valid() && cells == old(cells) && tail >= old(tail) && head >= old(head)
        invariant Contents() == Effect(old(Contents()), cells.Length, others[..i])
        invariant i == 0 ==> tail == old(tail) && head == old(head)
      {
        EffectNext(old(Contents()), cells.Length, others, i);
        if others[i].OtherPush? {
          if tail < head + cells.Length { Fill(others[i].x); }
        } else if head < tail {
          var x := Drain();
        }
      }
      assert others[..|others|] == others;
    }

    /** One round of the loop of `try_push` from the position `pos` it has loaded. */
    method PushRound(x: Job, pos: nat, turn: Turn) returns (done: bool, ok: bool)
      requires Valid() && pos <= tail
      modifies this, cells
      ensures Valid() && cells == old(cells)
      ensures
        var q := Effect(old(Contents()), cells.Length, turn.early);
        var p := Effect(q, cells.Length, turn.late);
        && (done && !ok ==> |q| == cells.Length && Contents() == q)
        && (done && ok ==> |p| < cells.Length && Contents() == p + [x])
        && (!done ==> Contents() == p && pos <= tail)
      ensures !done && turn == Turn([], [], false) ==> pos < old(tail) && tail == old(tail)
    {
      Interfere(turn.early);
      StaleTail(cells[..], head, tail, log, pos);
      TailCell(cells[..], head, tail, log);
      var seqno := cells[Slot(pos, cells.Length)].seqno;
      if seqno < pos { return true, false; }
      assert seqno == pos ==> pos == tail < head + cells.Length;
      Interfere(turn.late);
      if seqno == pos && tail == pos && !turn.spurious {
        Fill(x);
        return true, true;
      }
      return false, false;
    }

    /** Whatever other threads complete between its steps: at some moment, after their operations
        `met`, the ring is found full and left alone, or the job is appended to what it holds. */
    method TryPush(x: Job, turns: seq<Turn>) returns (ok: bool, ghost met: seq<Operation>)
      requires Valid()
      modifies this, cells
      ensures Valid() && cells == old(cells) && met <= AllOf(turns)
      ensures
        var q := Effect(old(Contents()), cells.Length, met);
        (ok <==> |q| < cells.Length) && Contents() == if ok then q + [x] else q
    {
      met := [];
      var pos: nat := tail;
      var i := 0;
      while true
        invariant Valid() && cells == old(cells) && pos <= tail && i <= |turns| && met == AllOf(turns[..i])
        invariant Contents() == Effect(old(Contents()), cells.Length, met)
        decreases |turns| - i, tail - pos
      {
        var turn := if i < |turns| then turns[i] else Turn([], [], false);
        TurnMet(old(Contents()), cells.Length, turns, i, met);
        var done;
        done, ok := PushRound(x, pos, turn);
        if done { return ok, if ok then met + turn.early + turn.late else met + turn.early; }
        met := met + turn.early + turn.late;
        pos := tail;
        if i < |turns| { i := i + 1; }
      }
      ok := false;
    }

    /** One round of the loop of `try_pop`. */
    method PopRound(pos: nat, turn: Turn) returns (done: bool, r: Option<Job>)
      requires Valid() && pos <= head
      modifies this, cells
      ensures Valid() && cells == old(cells)
      ensures
        var q := Effect(old(Contents()), cells.Length, turn.early);
        var p := Effect(q, cells.Length, turn.late);
        && (done && r.None? ==> q == [] && Contents() == q)
        && (done && r.Some? ==> p == [r.value] + Contents())
        && (!done ==> Contents() == p && pos <= head)
      ensures !done && turn == Turn([], [], false) ==> pos < old(head) && head == old(head)
    {
      Interfere(turn.early);
      StaleHead(cells[..], head, tail, log, pos);
      TailCell(cells[..], head, tail, log);
      var seqno := cells[Slot(pos, cells.Length)].seqno;
      if seqno < pos + 1 { return true, None; }
      assert seqno == pos + 1 ==> pos == head < tail;
      Interfere(turn.late);
      if seqno == pos + 1 && head == pos && !turn.spurious {
        var x := Drain();
        return true, Some(x);
      }
      return false, None;
    }

    /** Likewise: at some moment, after the operations `met` of other threads, the ring is found
        empty, or the oldest job is taken off what it holds. */
    method TryPop(turns: seq<Turn>) returns (r: Option<Job>, ghost met: seq<Operation>)
      requires Valid()
      modifies this, cells
      ensures Valid() && cells == old(cells) && met <= AllOf(turns)
      ensures
        var q := Effect(old(Contents()), cells.Length, met);
        if q == [] then r.None? && Contents() == [] else r.Some? && q == [r.value] + Contents()
    {
      met := [];
      var pos: nat := head;
      var i := 0;
      while true
        invariant Valid() && cells == old(cells) && pos <= head && i <= |turns| && met == AllOf(turns[..i])
        invariant Contents() == Effect(old(Contents()), cells.Length, met)
        decreases |turns| - i, head - pos
      {
        var turn := if i < |turns| then turns[i] else Turn([], [], false);
        TurnMet(old(Contents()), cells.Length, turns, i, met);
        var done;
        done, r := PopRound(pos, turn);
        if done { return r, if r.Some? then met + turn.early + turn.late else met + turn.early; }
        met := met + turn.early + turn.late;
        pos := head;
        if i < |turns| { i := i + 1; }
      }
      r := None;
    }
  }
}
