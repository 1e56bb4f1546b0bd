/** The index arithmetic of the ring: capacity rounding, `pos & mask_`, and the signed 64-bit
    differences, against the unbounded arithmetic of the state machine. */
module RingIndex {
  import opened Words
  import opened Ring

  function Pow2(k: nat): (p: nat)
    ensures p > 0
  { if k == 0 then 1 else 2 * Pow2(k - 1) }

  lemma {:induction false} Pow2Monotone(i: nat, k: nat)
    requires i <= k
    ensures Pow2(i) <= Pow2(k)
    decreases k - i
  {
    if i < k { Pow2Monotone(i, k - 1); }
  }

  lemma Pow2At16()
    ensures Pow2(16) == 0x1_0000
  {
    assert Pow2(4) == 16;
    Pow2Sum(4, 4);
    Pow2Sum(8, 8);
  }

  lemma Pow2At32()
    ensures Pow2(32) == 0x1_0000_0000 && Pow2(31) == 0x8000_0000
  {
    Pow2At16();
    Pow2Sum(16, 16);
    assert Pow2(32) == 2 * Pow2(31);
  }

  lemma Pow2Of63()
    ensures Pow2(63) == TWO_63
  {
    Pow2At32();
    Pow2Sum(32, 31);
  }

  lemma {:induction false} Pow2Sum(i: nat, k: nat)
    ensures Pow2(i + k) == Pow2(i) * Pow2(k)
    decreases k
  {
    if k > 0 {
      Pow2Sum(i, k - 1);
      assert Pow2(i) * (2 * Pow2(k - 1)) == 2 * (Pow2(i) * Pow2(k - 1));
    }
  }

  /** The constructor's loop, in 64-bit arithmetic: the least power of two not below
      `minCapacity`. */
  method RoundUp(minCapacity: nat) returns (cap: nat, ghost k: nat)
    requires minCapacity <= TWO_63
    ensures cap == Pow2(k) && minCapacity <= cap <= TWO_63
    ensures forall i: nat :: minCapacity <= Pow2(i) ==> cap <= Pow2(i)
  {
    cap := 1;
    k := 0;
    Pow2Of63();
    while cap < minCapacity
      invariant cap == Pow2(k) && k <= 63
      invariant k > 0 ==> Pow2(k - 1) < minCapacity
      decreases 63 - k
    {
      if k == 63 { assert false; }
      Pow2Monotone(k + 1, 63);
      cap := cap * 2 % TWO_64;
      k := k + 1;
    }
    Pow2Monotone(k, 63);
    forall i: nat | minCapacity <= Pow2(i) ensures cap <= Pow2(i) {
      if i < k { Pow2Monotone(i, k - 1); } else { Pow2Monotone(k, i); }
    }
  }

  // ------------------------------------------------------------------ pos & mask_

  /** Bitwise and of two naturals. */
  function And(a: nat, b: nat): nat
    decreases a
  {
    if a == 0 || b == 0 then 0
    else (if a % 2 == 1 && b % 2 == 1 then 1 else 0) + 2 * And(a / 2, b / 2)
  }

  lemma {:induction false} AndMask(pos: nat, k: nat)
    ensures And(pos, Pow2(k) - 1) == pos % Pow2(k)
    decreases k
  {
    if k > 0 && pos > 0 {
      AndMask(pos / 2, k - 1);
      AndOdd(pos, Pow2(k - 1));
      HalfMod(pos, Pow2(k - 1));
    } else if pos == 0 {
      ModUnique(Pow2(k), 0, 0, 0);
    }
  }

  lemma AndOdd(a: nat, n: nat)
    requires n > 0
    ensures And(a, 2 * n - 1) == a % 2 + 2 * And(a / 2, n - 1)
  {
    assert (2 * n - 1) / 2 == n - 1 && (2 * n - 1) % 2 == 1;
  }

  lemma HalfMod(pos: nat, n: nat)
    requires n > 0
    ensures pos % (2 * n) == pos % 2 + 2 * (pos / 2 % n)
  {
    var q, r := pos / 2 / n, pos / 2 % n;
    assert pos / 2 == n * q + r;
    assert pos == 2 * (n * q + r) + pos % 2;
    assert 2 * (n * q) == (2 * n) * q;
    ModUnique(2 * n, pos, q, 2 * r + pos % 2);
  }

  /** With a power-of-two capacity the code's `pos & mask_` is the model's cell index. */
  lemma MaskIsSlot(pos: nat, k: nat)
    ensures And(pos, Pow2(k) - 1) == Slot(pos, Pow2(k))
  {
    AndMask(pos, k);
    SlotIsMod(Pow2(k), pos);
  }

  // ------------------------------------------------------------------ signed differences

  /** `static_cast<intptr_t>` of a 64-bit unsigned value. */
  function ToSigned(x: nat): int
    requires x < TWO_64
  { if x < TWO_63 then x else x - TWO_64 }

  /** `static_cast<intptr_t>(seq) - static_cast<intptr_t>(pos)`. */
  function Diff(s: nat, pos: nat): int
    requires s < TWO_64 && pos < TWO_64
  { ToSigned(s) - ToSigned(pos) }

  /** Every cell is the cell of some position of the current window. */
  lemma {:induction false} WindowCovers(n: nat, base: nat, i: nat) returns (p: nat)
    requires i < n
    ensures base <= p < base + n && Slot(p, n) == i
    decreases base
  {
    if base == 0 {
      p := i;
    } else {
      p := WindowCovers(n, base - 1, i);
      if p == base - 1 { p := p + n; }
    }
  }

  lemma SeqnoBound(r: State, i: nat)
    requires Inv(r) && i < |r.cells|
    ensures r.cells[i].seqno <= r.head + |r.cells|
  {
    var p := WindowCovers(|r.cells|, r.head, i);
    if p < r.tail { assert FullAt(r, p); } else { assert FreeAt(r, p); }
  }

  /** While `tail_` stays below 2^63 minus the capacity, the code's tests on its 64-bit
      differences come out as the model's comparisons, in every reachable state. */
  lemma DifferencesAgree(r: State, t: nat)
    requires Inv(r) && t < |r.ops| && r.tail + |r.cells| < TWO_63
    ensures r.ops[t].PushSeq? ==>
              var s, pos := CellAt(r, r.ops[t].pos).seqno, r.ops[t].pos;
              s < TWO_64 && pos < TWO_64 && (Diff(s, pos) == 0 <==> s == pos) && (Diff(s, pos) < 0 <==> s < pos)
    ensures r.ops[t].PopSeq? ==>
              var s, pos := CellAt(r, r.ops[t].pos).seqno, r.ops[t].pos;
              s < TWO_64 && pos + 1 < TWO_64 && (Diff(s, pos + 1) == 0 <==> s == pos + 1)
              && (Diff(s, pos + 1) < 0 <==> s < pos + 1)
  {
    assert ThreadOk(r, t);
    if r.ops[t].PushSeq? || r.ops[t].PopSeq? { SeqnoBound(r, Slot(r.ops[t].pos, |r.cells|)); }
  }
}
