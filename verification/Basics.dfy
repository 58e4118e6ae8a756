/// Small shared vocabulary: optional values, integer helpers and the cells of
/// a ring.
module Basics {

  type Byte = b: int | 0 <= b < 256

  datatype Option<+T> = None | Some(value: T)

  function Min(a: int, b: int): int { if a < b then a else b }

  function Max(a: int, b: int): int { if a < b then b else a }

  /// Integer division as C++ has it, truncating towards zero.
  function TruncDiv(a: int, b: int): int
    requires b > 0
  {
    if a >= 0 then a / b else -((-a) / b)
  }

  /// The cell of a ring of `size` that free-running position `p` falls on.
  function Cell(p: nat, size: nat): (c: nat)
    requires 0 < size
    ensures c < size
  {
    if p < size then p else Cell(p - size, size)
  }

  lemma {:induction false} CellIsMod(p: nat, size: nat)
    requires 0 < size
    ensures Cell(p, size) == p % size
  {
    if p >= size {
      CellIsMod(p - size, size);
      ModIs(p, (p - size) / size + 1, (p - size) % size, size);
    }
  }

  lemma ModIs(x: nat, q: nat, r: nat, size: nat)
    requires r < size && x == q * size + r
    ensures x / size == q && x % size == r
  {
    var d := x / size - q;
    assert d * size == r - x % size by { assert d * size == (x / size) * size - q * size; }
    assert d >= 1 ==> d * size >= size;
    assert d <= -1 ==> d * size <= -1 * size;
  }

  /// Advancing by at most a ring wraps at most once.
  lemma {:induction false} CellAdvances(a: nat, d: nat, size: nat)
    requires 0 < size && d <= size
    ensures Cell(a + d, size) == if Cell(a, size) + d < size then Cell(a, size) + d else Cell(a, size) + d - size
    decreases a
  {
    if a >= size {
      CellAdvances(a - size, d, size);
      assert Cell(a + d, size) == Cell(a + d - size, size);
    } else if a + d >= size {
      assert Cell(a + d, size) == Cell(a + d - size, size);
    }
  }

  /// Two positions less than a whole ring apart fall on different cells.
  lemma CellsDiffer(a: nat, b: nat, size: nat)
    requires a < b < a + size
    ensures Cell(a, size) != Cell(b, size)
  {
    CellAdvances(a, b - a, size);
  }

  /// The cursor arithmetic: adding and wrapping a cell.
  lemma CellWraps(a: nat, d: nat, size: nat)
    requires 0 < size && d <= size
    ensures (Cell(a, size) + d) % size == Cell(a + d, size)
  {
    CellIsMod(Cell(a, size) + d, size);
    CellAdvances(a, d, size);
    CellAdvances(Cell(a, size), d, size);
  }

  /// A run of `count` cells starting at `a`'s, without wrapping, holds none of
  /// the positions that are before `a` and within a ring of the run's end.
  lemma OutsideRun(p: nat, a: nat, count: nat, size: nat)
    requires 0 < size && Cell(a, size) + count <= size && p < a && a + count <= p + size
    ensures !(Cell(a, size) <= Cell(p, size) < Cell(a, size) + count)
  {
    forall q: nat | a <= q < a + count ensures Cell(q, size) == Cell(a, size) + (q - a) && Cell(q, size) != Cell(p, size) {
      CellAdvances(a, q - a, size);
      CellsDiffer(p, q, size);
    }
    if Cell(a, size) <= Cell(p, size) {
      var q := a + (Cell(p, size) - Cell(a, size));
      var c := Cell(q, size);
    }
  }

  /// `n * k` as repeated addition: row and frame offsets without non-linear
  /// arithmetic.
  function Times(n: nat, k: nat): nat {
    if n == 0 then 0 else Times(n - 1, k) + k
  }

  lemma {:induction false} TimesIs(n: nat, k: nat)
    ensures Times(n, k) == n * k
  {
    if n > 0 { TimesIs(n - 1, k); }
  }

  lemma {:induction false} TimesGrows(a: nat, b: nat, k: nat)
    requires a < b
    ensures Times(a, k) + k <= Times(b, k)
    decreases b
  {
    if a < b - 1 { TimesGrows(a, b - 1, k); }
  }
}
