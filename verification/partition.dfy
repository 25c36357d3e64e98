/**
 * How the handler cuts `total` records into write batches of at most
 * `size` records: `ceil(total / size)` batches, batch `i` starting at
 * `i * size`, every batch but the last holding `size` records and the last
 * holding what remains.
 */
module Partition {

  /** `Math.ceil(total / size)`: the least batch count whose batches hold all records. */
  function LoopTotal(total: nat, size: nat): (n: nat)
    requires size >= 1
    ensures n * size >= total
    ensures n > 0 ==> (n - 1) * size < total
  {
    var n := (total + size - 1) / size;
    DivBounds(total + size - 1, size, n);
    n
  }

  /** Helper: the defining inequalities of integer division. */
  lemma DivBounds(a: nat, b: nat, q: nat)
    requires b >= 1 && q == a / b
    ensures q * b <= a < q * b + b
  {
  }

  /** `offset`: the first record of batch `i`. */
  function Offset(i: nat, size: nat): nat
  {
    i * size
  }

  /**
   * The first record of batch `i` belongs to batch `i` itself: it is `i`
   * whole batches in, so the batch index `k / size` of `BatchContaining`
   * maps `Offset(i, size)` back to `i`.
   */
  lemma OffsetInOwnBatch(i: nat, size: nat)
    requires size >= 1
    ensures Offset(i, size) / size == i && Offset(i, size) % size == 0
  {
    var q := (i * size) / size;
    DivBounds(i * size, size, q);
    assert (q + 1) * size == q * size + size;
    MulLe(q, i, size);
    MulLe(i, q, size);
  }

  /** Helper: comparing multiples of the same positive factor compares the multipliers. */
  lemma MulLe(a: nat, b: nat, c: nat)
    requires c >= 1 && a * c <= b * c
    ensures a <= b
  {
  }

  /**
   * `handleSize`: `size`, except for the last batch, which takes what is left
   * of `total`. Never more than `size`, and at least one for every batch the
   * loop visits.
   */
  function HandleSize(i: nat, total: nat, size: nat): (h: int)
    requires size >= 1
    ensures h <= size
    ensures i < LoopTotal(total, size) ==> h >= 1
  {
    if i < LoopTotal(total, size) - 1 then size
    else
      LastBatchFits(i, total, size);
      total - Offset(i, size)
  }

  /** Helper: from the last batch on, what is left of `total` fits in one batch. */
  lemma LastBatchFits(i: nat, total: nat, size: nat)
    requires size >= 1 && i + 1 >= LoopTotal(total, size)
    ensures total - Offset(i, size) <= size
    ensures i < LoopTotal(total, size) ==> total - Offset(i, size) >= 1
  {
    var n := LoopTotal(total, size);
    if n >= 1 {
      MonotoneOffset(n - 1, i, size);
      assert Offset(n - 1, size) + size == n * size;
    }
  }

  /**
   * Every batch holds between one and `size` records and lies inside the
   * table; each batch but the last ends where the next begins, and the last
   * ends at `total`.
   */
  lemma BatchBounds(i: nat, total: nat, size: nat)
    requires size >= 1 && i < LoopTotal(total, size)
    ensures 1 <= HandleSize(i, total, size) <= size
    ensures Offset(i, size) + HandleSize(i, total, size) <= total
    ensures i + 1 < LoopTotal(total, size) ==> Offset(i, size) + HandleSize(i, total, size) == Offset(i + 1, size)
    ensures i + 1 == LoopTotal(total, size) ==> Offset(i, size) + HandleSize(i, total, size) == total
    ensures Offset(i, size) + HandleSize(i, total, size) <= Offset(i + 1, size)
  {
    var n := LoopTotal(total, size);
    assert Offset(i + 1, size) == Offset(i, size) + size;
    if i + 1 < n {
      MonotoneOffset(i + 1, n - 1, size);
    }
  }

  /** Helper: later batches start later. */
  lemma MonotoneOffset(i: nat, j: nat, size: nat)
    requires i <= j
    ensures Offset(i, size) <= Offset(j, size)
  {
  }

  /** Record `k` of the table falls in batch `k / size`, and in no other. */
  lemma BatchContaining(k: nat, total: nat, size: nat)
    requires size >= 1 && k < total
    ensures k / size < LoopTotal(total, size)
    ensures Offset(k / size, size) <= k < Offset(k / size, size) + HandleSize(k / size, total, size)
    ensures forall i :: 0 <= i < LoopTotal(total, size) && Offset(i, size) <= k < Offset(i, size) + HandleSize(i, total, size) ==> i == k / size
  {
    var b := k / size;
    DivBounds(k, size, b);
    var n := LoopTotal(total, size);
    if b >= n {
      MonotoneOffset(n, b, size);
      assert false;
    }
    BatchBounds(b, total, size);
    forall i | 0 <= i < n && Offset(i, size) <= k < Offset(i, size) + HandleSize(i, total, size)
      ensures i == b
    {
      BatchBounds(i, total, size);
      if i < b {
        MonotoneOffset(i + 1, b, size);
      } else if i > b {
        MonotoneOffset(b + 1, i, size);
      }
    }
  }

  /** How many leading records the first `b` batches hold. */
  function Covered(b: nat, total: nat, size: nat): nat
    requires size >= 1
  {
    if b < LoopTotal(total, size) then Offset(b, size) else total
  }

  /** Batch `b - 1` runs from where the first `b - 1` batches end to where the first `b` end. */
  lemma CoveredBounds(b: nat, total: nat, size: nat)
    requires size >= 1 && b <= LoopTotal(total, size)
    ensures Covered(b, total, size) <= total
    ensures b == 0 ==> Covered(b, total, size) == 0
    ensures b > 0 ==> Covered(b - 1, total, size) == Offset(b - 1, size)
    ensures b > 0 ==> Covered(b, total, size) == Offset(b - 1, size) + HandleSize(b - 1, total, size)
  {
    if b > 0 {
      BatchBounds(b - 1, total, size);
    } else if LoopTotal(total, size) == 0 {
      assert total == 0;
    }
    if 0 < b < LoopTotal(total, size) {
      BatchBounds(b, total, size);
    }
  }

  /** The batches of 25 records in groups of 10 have sizes 10, 10 and 5. */
  lemma TwentyFiveByTen()
    ensures LoopTotal(25, 10) == 3
    ensures HandleSize(0, 25, 10) == 10 && HandleSize(1, 25, 10) == 10 && HandleSize(2, 25, 10) == 5
  {
  }
}
