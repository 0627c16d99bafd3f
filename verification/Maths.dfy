/** Double-cell arithmetic: signed products, and truncating and flooring division. */
module Maths {
  import opened Cells

  predicate Fits(x: int) {
    -SIGN_BIT <= x < SIGN_BIT
  }

  /** A double number, low cell first. */
  datatype Double = Double(low: Cell, high: Cell)
  {
    function Unsigned(): int {
      high * CELL_RANGE + low
    }

    function Value(): int {
      Signed(high) * CELL_RANGE + low
    }
  }

  // ----- words -----

  /** um+ : the sum and the carry. */
  function UmPlus(a: Cell, b: Cell): Double {
    if a + b < CELL_RANGE then Double(a + b, 0) else Double(a + b - CELL_RANGE, 1)
  }

  function Plus(a: Cell, b: Cell): Cell {
    UmPlus(a, b).low
  }

  function Invert(a: Cell): Cell {
    CELL_RANGE - 1 - a
  }

  function Negate(a: Cell): Cell {
    Plus(Invert(a), 1)
  }

  /** Below zero when it is read as signed: the test 0< . */
  predicate Below(a: Cell) {
    a >= SIGN_BIT
  }

  function Absolute(a: Cell): Cell {
    if Below(a) then Negate(a) else a
  }

  /** The word um* : all 64 bits of the product of two unsigned cells. */
  function UmTimes(a: Cell, b: Cell): Double {
    ProductFits(a, b);
    Double(a * b % CELL_RANGE, a * b / CELL_RANGE)
  }

  /** The word dnegate: all bits turned around, and one added across both cells. */
  function DNegate(d: Double): Double {
    var high := Invert(d.high);
    var sum := UmPlus(Invert(d.low), 1);
    Double(sum.low, Plus(sum.high, high))
  }

  /** The word s>d : a cell as a double number; zero goes the way of the negative numbers. */
  function SToD(n: Cell): Double {
    if 0 < n < SIGN_BIT then Double(n, 0) else DNegate(Double(Negate(n), 0))
  }

  /** The word m* : the product of the absolute values, negated when the signs differ. */
  function MTimes(a: Cell, b: Cell): Double {
    var negative := Below(a) != Below(b);
    var product := UmTimes(Absolute(b), Absolute(a));
    if negative then DNegate(product) else product
  }

  /** How a division ends: the processor refuses quotients that do not fit. */
  datatype Division = Divided(r: Cell, q: Cell) | ByZero | Refused

  /** The quotient nearer to zero. */
  function Truncated(d: int, n: int): int
    requires n != 0
  {
    if (d < 0) == (n < 0) then Abs(d) / Abs(n) else -(Abs(d) / Abs(n))
  }

  /** The quotient below. */
  function Floored(d: int, n: int): int
    requires n != 0
  {
    if n > 0 then d / n else (-d) / (-n)
  }

  function Abs(x: int): nat {
    if x < 0 then -x else x
  }

  function SmRem(d: Double, n: Cell): Division {
    if n == 0 then ByZero
    else
      var q := Truncated(d.Value(), Signed(n));
      if !Fits(q) then Refused else Divided(Wrap(d.Value() - q * Signed(n)), Wrap(q))
  }

  /** The word fm/mod: truncated division, and when the signs differ and something
      remains, the quotient goes down by one and the remainder up by the divisor. */
  function FmMod(d: Double, n: Cell): Division {
    match SmRem(d, n)
    case Divided(r, q) =>
      if r != 0 && Below(d.high) != Below(n) then Divided(Plus(r, n), Wrap(q - 1)) else Divided(r, q)
    case other => other
  }

  /** The word /mod: the dividend is widened to a double number first. */
  function SlashMod(a: Cell, n: Cell): Division {
    SmRem(SToD(a), n)
  }

  /** The dividend is a product of two cells, with all its bits. */
  function StarSlashMod(a: Cell, b: Cell, n: Cell): Division {
    SmRem(MTimes(a, b), n)
  }

  // ----- products -----

  lemma ProductFits(a: Cell, b: Cell)
    ensures 0 <= a * b < CELL_RANGE * CELL_RANGE && 0 <= a * b / CELL_RANGE < CELL_RANGE
    ensures 0 <= a * b % CELL_RANGE < CELL_RANGE
  {
    Times(0, a, b);
    Times(a, CELL_RANGE - 1, b);
    assert (CELL_RANGE - 1) * b < CELL_RANGE * CELL_RANGE;
  }

  lemma NegateValue(a: Cell)
    ensures Negate(a) == (if a == 0 then 0 else CELL_RANGE - a)
    ensures Absolute(a) == Abs(Signed(a)) <= SIGN_BIT
  {
  }

  /** dnegate changes the sign of every double but the least. */
  lemma DNegateValue(d: Double)
    ensures DNegate(d).Value() == -d.Value() <==> d.Value() != -0x8000_0000_0000_0000
  {
  }

  /** m* gives the exact product of any two signed cells. */
  lemma MTimesExact(a: Cell, b: Cell)
    ensures MTimes(a, b).Value() == Signed(a) * Signed(b)
  {
    var x, y := Abs(Signed(a)), Abs(Signed(b));
    NegateValue(a);
    NegateValue(b);
    var product := UmTimes(Absolute(b), Absolute(a));
    ProductFits(Absolute(b), Absolute(a));
    assert product.Unsigned() == y * x;
    Times(y, SIGN_BIT, x);
    Times(0, y, x);
    assert SIGN_BIT * x <= SIGN_BIT * SIGN_BIT;
    assert product.Value() == product.Unsigned() by { SmallHigh(product); }
    if Below(a) != Below(b) {
      DNegateValue(product);
    }
    SignsOfProduct(Signed(a), Signed(b));
  }

  lemma SmallHigh(d: Double)
    requires d.Unsigned() <= SIGN_BIT * SIGN_BIT
    ensures d.high < SIGN_BIT && d.Value() == d.Unsigned()
  {
  }

  lemma SignsOfProduct(a: int, b: int)
    ensures a * b == if (a < 0) != (b < 0) then -(Abs(b) * Abs(a)) else Abs(b) * Abs(a)
  {
  }

  /** s>d keeps the value. */
  lemma SToDExact(n: Cell)
    ensures SToD(n).Value() == Signed(n)
  {
    NegateValue(n);
  }

  // ----- quotients -----

  /** Both quotients, and what is left over. */
  lemma Quotients(d: int, n: int)
    requires n != 0
    ensures var q := Truncated(d, n); var r := d - q * n;
      && Abs(r) < Abs(n) && (r != 0 ==> (r < 0 <==> d < 0))
      && Floored(d, n) == (if r != 0 && (d < 0) != (n < 0) then q - 1 else q)
  {
    var a: int, b: int := Abs(d), Abs(n);
    var q0: int, r0: int := a / b, a % b;
    DivisionFacts(a, b);
    var q := Truncated(d, n);
    assert q == if (d < 0) == (n < 0) then q0 else -q0;
    FlooredCases(d, n);
    hide Truncated, Floored;
    SignsOfProduct(q, n);
    assert Abs(q) * Abs(n) == q0 * b;
    assert d - q * n == if d < 0 then -r0 else r0;
  }

  lemma DivisionFacts(a: int, b: int)
    requires a >= 0 && b > 0
    ensures a == a / b * b + a % b && 0 <= a % b < b && a / b >= 0
  {
  }

  lemma FlooredCases(d: int, n: int)
    requires n != 0
    ensures var a, b := Abs(d), Abs(n);
      Floored(d, n) == if (d < 0) == (n < 0) then a / b else if a % b == 0 then -(a / b) else -(a / b) - 1
  {
    if (d < 0) != (n < 0) {
      FlooredOpposite(Abs(d), Abs(n));
    }
  }

  /** For opposite signs the floor of the quotient is one lower unless the division is exact. */
  lemma FlooredOpposite(a: int, b: int)
    requires b > 0 && a >= 0
    ensures (-a) / b == if a % b == 0 then -(a / b) else -(a / b) - 1
  {
    var q, r := a / b, a % b;
    assert a == q * b + r;
    var q2, r2 := (-a) / b, (-a) % b;
    assert -a == q2 * b + r2 && 0 <= r2 < b;
    var k := q + q2;
    assert k * b == -(r + r2);
    Multiple(k, b);
  }

  lemma Multiple(k: int, b: int)
    requires b > 0 && -2 * b < k * b <= 0
    ensures k == 0 || k == -1
    ensures k == 0 ==> k * b == 0
    ensures k == -1 ==> k * b == -b
  {
    if k > 0 { Times(1, k, b); }
    if k < -1 { Times(k, -2, b); }
  }

  /** sm/rem : the truncated quotient and a remainder with the sign of the dividend,
      whenever the quotient fits. */
  lemma SmRemTruncates(d: Double, n: Cell)
    requires n != 0
    ensures var q := Truncated(d.Value(), Signed(n)); var s := SmRem(d, n);
      if !(-0x8000_0000 <= q < 0x8000_0000) then s == Refused
      else
        && s.Divided? && Signed(s.q) == q && d.Value() == Signed(s.q) * Signed(n) + Signed(s.r)
        && Abs(Signed(s.r)) < Abs(Signed(n)) && (Signed(s.r) != 0 ==> (Signed(s.r) < 0 <==> d.Value() < 0))
  {
    var q := Truncated(d.Value(), Signed(n));
    Quotients(d.Value(), Signed(n));
    if Fits(q) {
      SignedWrap(q);
      SignedWrap(d.Value() - q * Signed(n));
    }
  }

  /** Division by zero is an exception of its own, for all four words and for no other
      divisor. */
  lemma ByZeroOnly(d: Double, a: Cell, b: Cell, n: Cell)
    ensures n == 0 <==> SmRem(d, n) == ByZero
    ensures n == 0 <==> FmMod(d, n) == ByZero
    ensures n == 0 <==> SlashMod(a, n) == ByZero
    ensures n == 0 <==> StarSlashMod(a, b, n) == ByZero
  {
    hide SToD, MTimes;
  }

  /** fm/mod is floored division exactly when the floored quotient fits: then the
      remainder is zero or has the sign of the divisor. */
  lemma FmModFloors(d: Double, n: Cell)
    requires n != 0
    ensures FmMod(d, n).Divided? && Signed(FmMod(d, n).q) == Floored(d.Value(), Signed(n)) <==>
      Fits(Floored(d.Value(), Signed(n)))
    ensures Fits(Floored(d.Value(), Signed(n))) ==>
      var s := FmMod(d, n);
      && d.Value() == Signed(s.q) * Signed(n) + Signed(s.r)
      && Abs(Signed(s.r)) < Abs(Signed(n)) && (Signed(s.r) != 0 ==> (Signed(s.r) < 0 <==> Signed(n) < 0))
  {
    var v, m := d.Value(), Signed(n);
    var q := Truncated(v, m);
    Quotients(v, m);
    SmRemTruncates(d, n);
    hide Truncated, Floored;
    if Fits(q) {
      var t := SmRem(d, n);
      if t.r != 0 && Below(d.high) != Below(n) {
        Stepped(v, m, q, t.r, n);
      }
    }
  }

  lemma Stepped(v: int, m: int, q: int, r: Cell, n: Cell)
    requires m == Signed(n) && n != 0 && v == q * m + Signed(r) && Abs(Signed(r)) < Abs(m) && r != 0 && Fits(q)
    requires Signed(r) < 0 <==> m > 0
    ensures Signed(Plus(r, n)) == Signed(r) + m && v == (q - 1) * m + Signed(Plus(r, n))
    ensures Abs(Signed(Plus(r, n))) < Abs(m) && Signed(Plus(r, n)) != 0 && (Signed(Plus(r, n)) < 0 <==> m < 0)
    ensures Fits(q - 1) <==> Signed(Wrap(Wrap(q) - 1)) == q - 1
  {
    OneLess(q, m);
    SumOfSigns(r, n);
    BelowQuotient(q);
    hide Wrap, Signed, Plus;
  }

  lemma OneLess(q: int, m: int)
    ensures (q - 1) * m == q * m - m
  {
  }

  lemma SumOfSigns(r: Cell, n: Cell)
    requires n != 0 && r != 0 && (Signed(r) < 0 <==> Signed(n) > 0)
    ensures Signed(Plus(r, n)) == Signed(r) + Signed(n)
  {
  }

  lemma BelowQuotient(q: int)
    requires Fits(q)
    ensures Fits(q - 1) <==> Signed(Wrap(Wrap(q) - 1)) == q - 1
  {
  }

  /** Floored and truncated division refuse a quotient, or get it wrong, in this case. */
  lemma LeastQuotient(d: Double, n: Cell)
    requires d.Value() == -SIGN_BIT * 2 - 1 && n == 2
    ensures FmMod(d, n).Divided? && Signed(FmMod(d, n).q) == SIGN_BIT - 1
    ensures Floored(d.Value(), Signed(n)) == -SIGN_BIT - 1
  {
  }

  /** /mod divides any two cells, but for the least one by minus one. */
  lemma SlashModExact(a: Cell, n: Cell)
    requires n != 0
    ensures var s := SlashMod(a, n);
      if a == SIGN_BIT && n == CELL_RANGE - 1 then s == Refused
      else
        && s.Divided? && Signed(a) == Signed(s.q) * Signed(n) + Signed(s.r)
        && Abs(Signed(s.r)) < Abs(Signed(n)) && (Signed(s.r) != 0 ==> (Signed(s.r) < 0 <==> Signed(a) < 0))
  {
    SToDExact(a);
    SmRemTruncates(SToD(a), n);
    CellQuotient(Signed(a), Signed(n));
  }

  lemma CellQuotient(a: int, n: int)
    requires Fits(a) && Fits(n) && n != 0
    ensures Fits(Truncated(a, n)) <==> !(a == -SIGN_BIT && n == -1)
  {
    var x, y := Abs(a), Abs(n);
    DivisionFacts(x, y);
    SmallerQuotient(x, y);
  }

  lemma SmallerQuotient(x: int, y: int)
    requires 0 <= x <= SIGN_BIT && y > 0
    ensures 0 <= x / y <= x && (y == 1 ==> x / y == x) && (y > 1 ==> x / y < SIGN_BIT)
  {
    DivisionFacts(x, y);
    var q := x / y;
    if y > 1 { Times(2, y, q); }
    Times(1, y, q);
  }

  /** * /mod loses nothing between multiplying and dividing. */
  lemma StarSlashModExact(a: Cell, b: Cell, n: Cell)
    requires n != 0
    ensures var s, q := StarSlashMod(a, b, n), Truncated(Signed(a) * Signed(b), Signed(n));
      if !Fits(q) then s == Refused
      else
        && s.Divided? && Signed(s.q) == q && Signed(a) * Signed(b) == Signed(s.q) * Signed(n) + Signed(s.r)
        && Abs(Signed(s.r)) < Abs(Signed(n))
        && (Signed(s.r) != 0 ==> (Signed(s.r) < 0 <==> Signed(a) * Signed(b) < 0))
  {
    MTimesExact(a, b);
    SmRemTruncates(MTimes(a, b), n);
  }
}
