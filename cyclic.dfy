/**
 * The index arithmetic shared by the rotating components: JavaScript's
 * truncating `%` and the next/previous steps built from it.
 */
module Cyclic {

  /** JavaScript `a % n`: the sign follows the dividend. */
  function JsRem(a: int, n: int): (r: int)
    requires n > 0
    ensures a >= 0 ==> 0 <= r < n && r == a % n
  {
    if a >= 0 then a % n else -((-a) % n)
  }

  /** `(n + 1) % size` */
  function Next(n: int, size: int): (r: int)
    requires size > 0
    ensures 0 <= n < size ==> 0 <= r < size
  {
    JsRem(n + 1, size)
  }

  /** `(n - 1 + size) % size` */
  function Prev(n: int, size: int): (r: int)
    requires size > 0
    ensures 0 <= n < size ==> 0 <= r < size
  {
    JsRem(n - 1 + size, size)
  }

  lemma MulAtLeast(k: int, n: int)
    requires k >= 1 && n > 0
    ensures k * n >= n
  {
  }

  /** Euclidean division leaves a unique remainder. */
  lemma ModUnique(a: int, n: int, q: int, r: int)
    requires n > 0 && 0 <= r < n && a == q * n + r
    ensures a % n == r
  {
    var q', r' := a / n, a % n;
    assert a == q' * n + r';
    assert (q - q') * n == r' - r;
    if q > q' { MulAtLeast(q - q', n); }
    if q' > q { MulAtLeast(q' - q, n); }
  }

  /** Inside the range a step moves by one, wrapping at the ends. */
  lemma StepValues(n: int, size: int)
    requires 0 <= n < size
    ensures Next(n, size) == if n + 1 == size then 0 else n + 1
    ensures Prev(n, size) == if n == 0 then size - 1 else n - 1
  {
    if n + 1 == size { ModUnique(n + 1, size, 1, 0); } else { ModUnique(n + 1, size, 0, n + 1); }
    if n == 0 { ModUnique(n - 1 + size, size, 0, size - 1); } else { ModUnique(n - 1 + size, size, 1, n - 1); }
  }

  /** One step forward and one back, in either order, return to the start. */
  lemma NextPrevInverse(n: int, size: int)
    requires 0 <= n < size
    ensures Prev(Next(n, size), size) == n
    ensures Next(Prev(n, size), size) == n
  {
    StepValues(n, size);
    if n + 1 == size {
      StepValues(0, size);
    } else {
      StepValues(n + 1, size);
    }
    if n == 0 {
      StepValues(size - 1, size);
    } else {
      StepValues(n - 1, size);
    }
  }

  /** `k` forward steps from `n`. */
  function Advance(n: int, size: int, k: nat): int
    requires size > 0
  {
    if k == 0 then n else Next(Advance(n, size, k - 1), size)
  }

  /** `k` forward steps land on `(n + k) % size`. */
  lemma {:induction false} AdvanceMod(n: int, size: int, k: nat)
    requires 0 <= n < size
    ensures Advance(n, size, k) == (n + k) % size
  {
    if k > 0 {
      AdvanceMod(n, size, k - 1);
      NextOfMod(n + k - 1, size);
    }
  }

  /** Stepping from `a % size` is stepping from `a`, then reducing. */
  lemma NextOfMod(a: nat, size: int)
    requires size > 0
    ensures Next(a % size, size) == (a + 1) % size
  {
    var q, r := a / size, a % size;
    assert a == q * size + r;
    if r + 1 < size {
      ModUnique(r + 1, size, 0, r + 1);
      ModUnique(a + 1, size, q, r + 1);
    } else {
      ModUnique(r + 1, size, 1, 0);
      assert a + 1 == (q + 1) * size + 0;
      ModUnique(a + 1, size, q + 1, 0);
    }
  }

  /** `size` forward steps make a full turn. */
  lemma FullTurn(n: int, size: int)
    requires 0 <= n < size
    ensures Advance(n, size, size) == n
  {
    AdvanceMod(n, size, size);
    ModUnique(n + size, size, 1, n);
  }

  /** The row of indicator dots under a carousel: `true` marks the dot drawn highlighted. */
  function DotRow(size: nat, active: int): (row: seq<bool>)
    ensures |row| == size
  {
    seq(size, idx requires 0 <= idx < size => idx == active)
  }

  /** With the active index in range, exactly one dot of the row is highlighted: the active one. */
  lemma OneDotHighlighted(size: nat, active: int)
    requires 0 <= active < size
    ensures var row := DotRow(size, active);
      row[active] && (set idx | 0 <= idx < size && row[idx]) == {active}
  {
    var row := DotRow(size, active);
    assert row[active];
    forall idx | 0 <= idx < size && row[idx]
      ensures idx == active
    {
    }
  }
}
