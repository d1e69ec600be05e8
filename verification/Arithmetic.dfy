/** Facts about dividing an image into blocks: floor division and rounding up. */
module Arithmetic {
  /** Sizes and counts that the configuration requires to be at least one. */
  type Pos = n: nat | 0 < n witness 1

  function Min(a: int, b: int): int {
    if a < b then a else b
  }

  function Max(a: int, b: int): int {
    if a < b then b else a
  }

  /** The indexes from `lo` up to but excluding `hi`. */
  function Range(lo: nat, hi: nat): (r: set<nat>)
    ensures forall k :: k in r <==> lo <= k < hi
    decreases hi - lo
  {
    if hi <= lo then {} else {lo} + Range(lo + 1, hi)
  }

  /** The offset of block `i` when blocks have size `d`; by recursion, to keep proofs linear. */
  function At(i: nat, d: Pos): nat {
    if i == 0 then 0 else At(i - 1, d) + d
  }

  /** The block that position `k` lies in. */
  function BlockOf(k: nat, d: Pos): nat {
    if k < d then 0 else 1 + BlockOf(k - d, d)
  }

  lemma {:induction false} AtIsProduct(i: nat, d: Pos)
    ensures At(i, d) == i * d
  {
    if i == 0 {
    } else {
      AtIsProduct(i - 1, d);
      assert i * d == (i - 1) * d + d;
    }
  }

  /** Offsets grow by at least one block from one index to a later one. */
  lemma {:induction false} AtMono(a: nat, b: nat, d: Pos)
    requires a <= b
    ensures At(a, d) <= At(b, d)
    ensures a < b ==> At(a, d) + d <= At(b, d)
  {
    if a < b {
      AtMono(a, b - 1, d);
    }
  }

  lemma {:induction false} BlockOfBounds(k: nat, d: Pos)
    ensures At(BlockOf(k, d), d) <= k < At(BlockOf(k, d), d) + d
  {
    if k < d {
    } else {
      BlockOfBounds(k - d, d);
    }
  }

  /** The block of a position is the only one whose bounds the position meets. */
  lemma {:induction false} BlockOfUnique(k: nat, d: Pos, i: nat)
    requires At(i, d) <= k < At(i, d) + d
    ensures BlockOf(k, d) == i
  {
    BlockOfBounds(k, d);
    var q := BlockOf(k, d);
    if q < i { AtMono(q, i, d); }
    if i < q { AtMono(i, q, d); }
  }

  lemma {:induction false} BlockOfIsQuotient(k: nat, d: Pos)
    ensures BlockOf(k, d) == k / d
    ensures k - At(BlockOf(k, d), d) == k % d
  {
    AtIsProduct(k / d, d);
    BlockOfUnique(k, d, k / d);
  }

  /** `n * d <= a < (n + 1) * d` pins down the quotient. */
  lemma {:induction false} DivUnique(a: int, d: Pos, n: int)
    requires n * d <= a < n * d + d
    ensures a / d == n && a % d == a - n * d
  {
    var q := a / d;
    if q < n {
      MulMono(q + 1, n, d);
    } else if n < q {
      MulMono(n + 1, q, d);
    }
  }

  lemma {:induction false} MulMono(a: int, b: int, d: Pos)
    requires a <= b
    ensures a * d <= b * d
  {
    assert 0 <= (b - a) * d;
  }

  lemma {:induction false} DivMono(a: int, b: int, d: Pos)
    requires a <= b
    ensures a / d <= b / d
  {
    if b / d < a / d {
      MulMono(b / d + 1, a / d, d);
    }
  }

  /** The floor of `a / d`, as an inequality on both sides. */
  lemma {:induction false} DivBounds(a: int, d: Pos)
    ensures (a / d) * d <= a < (a / d) * d + d
  {
  }
}
