/** Cells of 32 bits. */
module Cells {

  const CELL_RANGE: int := 0x1_0000_0000
  const SIGN_BIT: int := 0x8000_0000

  type Cell = c: int | 0 <= c < CELL_RANGE

  /** The cell that holds x modulo 2^32. */
  function Wrap(x: int): Cell {
    x % CELL_RANGE
  }

  /** The two's complement reading of a cell. */
  function Signed(c: Cell): (n: int)
    ensures -SIGN_BIT <= n < SIGN_BIT && Wrap(n) == c
  {
    if c < SIGN_BIT then c else c - CELL_RANGE
  }

  lemma SignedWrap(x: int)
    requires -SIGN_BIT <= x < SIGN_BIT
    ensures Signed(Wrap(x)) == x
  {
  }

  lemma Times(a: int, b: int, k: int)
    requires a <= b && k >= 0
    ensures a * k <= b * k
  {
  }

  lemma Multiples(d: int, s: int)
    requires s > 0
    ensures d > 0 ==> d * s >= s
    ensures d < 0 ==> d * s <= -s
  {
  }
}
