/** Printing and reading numbers. */
module NumberIO {
  import opened Cells

  const BUFFER: nat := 84

  // ----- division -----

  function Quotient(u: int, base: int): int
    requires base > 0
  {
    u / base
  }

  function Remainder(u: int, base: int): int
    requires base > 0
  {
    u % base
  }

  lemma Division(u: int, base: int)
    requires u >= 0 && base >= 2
    ensures u == Quotient(u, base) * base + Remainder(u, base)
    ensures 0 <= Remainder(u, base) < base && 0 <= Quotient(u, base) <= u
    ensures if u < base then Quotient(u, base) == 0 && Remainder(u, base) == u else 0 < Quotient(u, base) < u
  {
  }

  // ----- numerals -----

  /** The character for a digit, with letters from ten on. */
  function Digit(n: int, ansi: bool): char
    requires 0 <= n < 36
  {
    if n <= 9 then (48 + n) as char else if ansi then (55 + n) as char else (87 + n) as char
  }

  /** The numeral of u without leading zeros. */
  function Numeral(u: nat, base: int, ansi: bool): string
    requires 2 <= base <= 36
    decreases u
  {
    Division(u, base);
    (if u < base then [] else Numeral(Quotient(u, base), base, ansi)) + [Digit(Remainder(u, base), ansi)]
  }

  // ----- characters -----

  predicate IsLower(c: char) {
    'a' <= c <= 'z'
  }

  function Upper(c: char): char {
    if IsLower(c) then (c as int - 32) as char else c
  }

  predicate IsDigitChar(c: char) {
    '0' <= Upper(c) <= '9' || 'A' <= Upper(c) <= 'Z'
  }

  /** What a digit is worth. */
  function DigitValue(c: char): (n: int)
    requires IsDigitChar(c)
    ensures 0 <= n < 36
  {
    if Upper(c) > '9' then Upper(c) as int - 55 else Upper(c) as int - 48
  }

  lemma DigitWorth(n: int, ansi: bool)
    requires 0 <= n < 36
    ensures IsDigitChar(Digit(n, ansi)) && DigitValue(Digit(n, ansi)) == n
  {
  }

  // ----- digits, by their characters -----

  /** The number that a digit or letter stands for. */
  function Worth(c: char): (n: nat)
    ensures n < 36
  {
    if '0' <= c <= '9' then c as int - '0' as int
    else if 'a' <= c <= 'z' then c as int - 'a' as int + 10
    else if 'A' <= c <= 'Z' then c as int - 'A' as int + 10
    else 0
  }

  predicate IsDigitOf(c: char, base: int) {
    ('0' <= c <= '9' || 'a' <= c <= 'z' || 'A' <= c <= 'Z') && Worth(c) < base
  }

  /** The number that digits stand for when they follow those of start. */
  function ValueFrom(start: nat, s: string, base: int): nat
    requires base > 0
  {
    if s == "" then start else ValueFrom(start, s[..|s| - 1], base) * base + Worth(s[|s| - 1])
  }

  lemma WorthIs(c: char, base: int)
    requires base <= 36
    ensures IsDigitOf(c, base) <==> IsDigitChar(c) && DigitValue(c) < base
    ensures IsDigitChar(c) ==> DigitValue(c) == Worth(c)
  {
  }

  // ----- reading -----

  datatype Reading = Reading(low: Cell, high: Cell, rest: string)

  /** Digits of the base are added to the number from the left until something else
      comes; the high cell of a product is dropped. */
  function Converted(s: string, base: int, low: Cell, high: Cell): Reading
    requires 2 <= base <= 36
  {
    if s == "" || !IsDigitChar(s[0]) || DigitValue(s[0]) >= base then Reading(low, high, s)
    else
      var sum := low * base % CELL_RANGE + DigitValue(s[0]);
      Converted(s[1..], base, sum % CELL_RANGE, sum / CELL_RANGE)
  }

  /** The first k characters of s are digits of the base, and no more; they have been
      added to a number that was low.  The high cell gets what the last digit makes
      flow over. */
  ghost predicate Reads(s: string, base: int, low: Cell, high: Cell, k: nat, r: Reading)
    requires base > 0
  {
    && k <= |s| && r.rest == s[k..]
    && (forall i :: 0 <= i < k ==> IsDigitOf(s[i], base)) && (k < |s| ==> !IsDigitOf(s[k], base))
    && r.low == ValueFrom(low, s[..k], base) % CELL_RANGE
    && (if k == 0 then r.high == high
        else
          var product := ValueFrom(low, s[..k - 1], base) * base % CELL_RANGE;
          r.high * CELL_RANGE + r.low == product + Worth(s[k - 1]))
  }

  /** One more character. */
  lemma {:induction false} ConvertedMore(s: string, t: string, base: int, low: Cell, high: Cell)
    requires 2 <= base <= 36 && Converted(s, base, low, high).rest == ""
    ensures var r := Converted(s, base, low, high);
      Converted(s + t, base, low, high) == Converted(t, base, r.low, r.high)
    decreases |s|
  {
    hide IsDigitChar, DigitValue;
    if s == "" {
      assert s + t == t;
    } else {
      assert (s + t)[0] == s[0] && (s + t)[1..] == s[1..] + t;
      var sum := low * base % CELL_RANGE + DigitValue(s[0]);
      ConvertedMore(s[1..], t, base, sum % CELL_RANGE, sum / CELL_RANGE);
    }
  }

  lemma ConvertedOne(c: char, base: int, low: Cell, high: Cell)
    requires 2 <= base <= 36
    ensures Converted([c], base, low, high) ==
      if !IsDigitOf(c, base) then Reading(low, high, [c])
      else
        var sum := low * base % CELL_RANGE + Worth(c);
        Reading(sum % CELL_RANGE, sum / CELL_RANGE, "")
  {
    WorthIs(c, base);
    hide IsDigitChar, DigitValue, IsDigitOf, Worth;
    assert [c][1..] == "";
  }

  lemma ConvertedNone(s: string, base: int, low: Cell, high: Cell)
    requires 2 <= base <= 36 && (s == "" || !IsDigitOf(s[0], base))
    ensures Converted(s, base, low, high) == Reading(low, high, s)
  {
    if s != "" { WorthIs(s[0], base); }
  }

  lemma SameProduct(v: nat, base: nat)
    ensures (v % CELL_RANGE) * base % CELL_RANGE == v * base % CELL_RANGE
  {
    var q, m := v / CELL_RANGE, v % CELL_RANGE;
    assert v == q * CELL_RANGE + m;
    assert v * base == m * base + (q * base) * CELL_RANGE;
  }

  /** One digit more. */
  lemma ReadsMore(front: string, c: char, base: int, low: Cell, high: Cell, r: Reading)
    requires 2 <= base <= 36 && Reads(front, base, low, high, |front|, r) && IsDigitOf(c, base)
    ensures var sum := r.low * base % CELL_RANGE + Worth(c);
      Reads(front + [c], base, low, high, |front| + 1, Reading(sum % CELL_RANGE, sum / CELL_RANGE, ""))
  {
    hide IsDigitOf, Worth, ValueFrom;
    var s, v := front + [c], ValueFrom(low, front, base);
    assert s[..|s|] == s && s[..|front|] == front && front[..|front|] == front && s[|s|..] == "";
    ValueMore(low, front, c, base);
    SameProduct(v, base);
    SumParts(v * base, Worth(c));
    forall i | 0 <= i < |s| ensures IsDigitOf(s[i], base) {
      if i < |front| { assert s[i] == front[i]; }
    }
  }

  lemma ValueMore(start: nat, front: string, c: char, base: int)
    requires base > 0
    ensures ValueFrom(start, front + [c], base) == ValueFrom(start, front, base) * base + Worth(c)
  {
    assert (front + [c])[..|front|] == front;
  }

  lemma SumParts(v: nat, d: nat)
    requires d < 36
    ensures var sum := v % CELL_RANGE + d;
      sum % CELL_RANGE == (v + d) % CELL_RANGE && sum / CELL_RANGE * CELL_RANGE + sum % CELL_RANGE == sum
      && 0 <= sum / CELL_RANGE < CELL_RANGE
  {
  }

  /** Digits on their own. */
  lemma {:induction false} ConvertedDigits(s: string, base: int, low: Cell, high: Cell)
    requires 2 <= base <= 36 && forall i :: 0 <= i < |s| ==> IsDigitOf(s[i], base)
    ensures Reads(s, base, low, high, |s|, Converted(s, base, low, high))
    decreases |s|
  {
    hide IsDigitOf, Worth, Converted, ValueFrom;
    if s == "" {
      ConvertedNone(s, base, low, high);
      NoneRead(base, low, high);
    } else {
      var front, c := s[..|s| - 1], s[|s| - 1];
      assert s == front + [c];
      ConvertedDigits(front, base, low, high);
      assert front[|front|..] == "";
      ConvertedMore(front, [c], base, low, high);
      var r := Converted(front, base, low, high);
      ReadsMore(front, c, base, low, high, r);
      hide Reads;
      ConvertedOne(c, base, r.low, r.high);
    }
  }

  lemma NoneRead(base: int, low: Cell, high: Cell)
    requires base > 0
    ensures Reads("", base, low, high, 0, Reading(low, high, ""))
  {
  }

  function CountDigits(s: string, base: int): (k: nat)
    ensures k <= |s| && forall i :: 0 <= i < k ==> IsDigitOf(s[i], base)
    ensures k < |s| ==> !IsDigitOf(s[k], base)
  {
    if s == "" || !IsDigitOf(s[0], base) then 0 else 1 + CountDigits(s[1..], base)
  }

  /** What follows the digits is left over. */
  lemma ReadsUpTo(s: string, base: int, low: Cell, high: Cell, k: nat, r: Reading)
    requires base > 0 && k <= |s| && Reads(s[..k], base, low, high, k, r) && (k < |s| ==> !IsDigitOf(s[k], base))
    ensures Reads(s, base, low, high, k, Reading(r.low, r.high, s[k..]))
  {
    hide IsDigitOf, ValueFrom, Worth;
    assert s[..k][..k] == s[..k];
    if k > 0 { assert s[..k][..k - 1] == s[..k - 1]; }
    forall i | 0 <= i < k ensures IsDigitOf(s[i], base) { assert s[..k][i] == s[i]; }
  }

  /** >number takes all the digits there are, and nothing else. */
  lemma ConvertedReads(s: string, base: int, low: Cell, high: Cell)
    requires 2 <= base <= 36
    ensures Reads(s, base, low, high, CountDigits(s, base), Converted(s, base, low, high))
  {
    hide IsDigitOf, Converted, Reads;
    var k := CountDigits(s, base);
    assert s[..k] + s[k..] == s;
    ConvertedDigits(s[..k], base, low, high);
    DigitsRest(s[..k], base, low, high);
    ConvertedMore(s[..k], s[k..], base, low, high);
    var r := Converted(s[..k], base, low, high);
    ReadsUpTo(s, base, low, high, k, r);
    ConvertedNone(s[k..], base, r.low, r.high);
  }

  lemma DigitsRest(s: string, base: int, low: Cell, high: Cell)
    requires 2 <= base <= 36 && Reads(s, base, low, high, |s|, Converted(s, base, low, high))
    ensures Converted(s, base, low, high).rest == ""
  {
    hide Converted;
  }

  /** Digits of a number that fits in a cell, read from zero, give the number, and
      nothing in the high cell. */
  lemma ReadFromZero(s: string, base: int, k: nat, r: Reading)
    requires 2 <= base <= 36 && Reads(s, base, 0, 0, k, r) && ValueFrom(0, s[..k], base) < CELL_RANGE
    ensures r.low == ValueFrom(0, s[..k], base) && r.high == 0
  {
    if k > 0 {
      assert s[..k][..k - 1] == s[..k - 1];
      var v := ValueFrom(0, s[..k - 1], base) * base;
      assert 0 <= v <= ValueFrom(0, s[..k], base);
    }
  }

  class Converter {
    var base: int
    var ansi: bool
    const buffer: array<char>
    var hld: int

    constructor ()
      ensures Valid() && fresh(buffer) && base == 10 && !ansi
    {
      base, ansi, hld := 10, false, BUFFER;
      buffer := new char[BUFFER];
    }

    predicate Valid()
      reads this
    {
      buffer.Length == BUFFER && 0 <= hld <= BUFFER && 2 <= base <= 36
    }

    /** What has been held so far. */
    function Text(): string
      reads this, buffer
      requires Valid()
    {
      buffer[hld..]
    }

    /** <# */
    method Start()
      requires Valid()
      modifies this`hld
      ensures Valid() && Text() == ""
    {
      hld := BUFFER;
    }

    method Hold(c: char)
      requires Valid() && hld > 0
      modifies this`hld, buffer
      ensures Valid() && Text() == [c] + old(Text()) && hld == old(hld) - 1
    {
      hld := hld - 1;
      buffer[hld] := c;
    }

    /** # : hold the last digit of a double number and divide it by the base. */
    method Hash(low: Cell, high: Cell) returns (low2: Cell, high2: Cell)
      requires Valid() && hld > 0 && high < base
      modifies this`hld, buffer
      ensures var u := high * CELL_RANGE + low;
        && Valid() && low2 == Quotient(u, base) && high2 == 0 && hld == old(hld) - 1
        && Text() == [Digit(Remainder(u, base), ansi)] + old(Text())
    {
      var u := high * CELL_RANGE + low;
      Division(u, base);
      QuotientFits(low, high, base);
      var quotient, remainder := Quotient(u, base), Remainder(u, base);
      var c := remainder;
      if remainder > 9 {
        c := c + (if ansi then 65 else 97) - 1 - 57;
      }
      Hold((c + 48) as char);
      return quotient, 0;
    }

    /** #s : all digits of a number.  The test for the end is signed: when the first
        quotient has its sign bit set, it ends after one digit, and that is never
        the numeral. */
    method HashS(low: Cell, high: Cell) returns (low2: Cell, high2: Cell)
      requires Valid() && high < base && hld >= 32
      modifies this`hld, buffer
      ensures Valid()
      ensures var u := high * CELL_RANGE + low;
        if Quotient(u, base) < SIGN_BIT then
          low2 == high2 == 0 && Text() == Numeral(u, base, ansi) + old(Text()) && hld >= old(hld) - 32
        else
          && low2 == Quotient(u, base) && high2 == 0 && Text() == [Digit(Remainder(u, base), ansi)] + old(Text())
          && Text() != Numeral(u, base, ansi) + old(Text())
    {
      hide Quotient, Remainder, Numeral, Digit, Power2, Printed, Front;
      ghost var u := high * CELL_RANGE + low;
      Division(u, base);
      ghost var before := Text();
      low2, high2 := Hash(low, high);
      ghost var digits: nat, held := 31, [Digit(Remainder(u, base), ansi)];
      SignPower();
      PrintedStart(u, base, ansi);
      while 0 < low2 < SIGN_BIT
        invariant Valid() && base == old(base) && ansi == old(ansi) && high2 == 0
        invariant Text() == held + before && Printed(u, base, ansi, low2, held)
        invariant low2 < SIGN_BIT ==> hld >= digits + old(hld) - 32 && low2 < Power2(digits)
        decreases low2
      {
        Division(low2, base);
        PowerHalves(digits, low2, base);
        PrintedNext(u, base, ansi, low2, held);
        Glued(Digit(Remainder(low2, base), ansi), held, before);
        held := [Digit(Remainder(low2, base), ansi)] + held;
        low2, high2 := Hash(low2, high2);
        digits := digits - 1;
      }
      PrintedEnd(u, base, ansi, low2, held);
      NotOneDigit(u, base, ansi);
      assert Quotient(u, base) >= SIGN_BIT ==> |Text()| < |Numeral(u, base, ansi) + before|;
    }

    /** #> */
    method Finish() returns (s: string)
      requires Valid()
      ensures s == Text()
    {
      s := buffer[hld..];
    }

    /** Print a cell, with the words for pictured numbers, and read it back. */
    method PrintAndRead(u: Cell) returns (s: string, r: Reading)
      requires Valid()
      modifies this`hld, buffer
      ensures Valid() && s == Numeral(u, base, ansi) && r == Reading(u, 0, "")
    {
      hide Reads;
      Start();
      SmallQuotient(u, base);
      var low, high := HashS(u, 0);
      s := Finish();
      r := ToNumber(0, 0, s);
      assert s == Numeral(u, base, ansi) + "";
      PrintThenRead(u, base, ansi, s);
    }

    /** >number */
    method ToNumber(low: Cell, high: Cell, s: string) returns (r: Reading)
      requires Valid()
      ensures r == Converted(s, base, low, high)
      ensures exists k: nat :: Reads(s, base, low, high, k, r)
    {
      hide Reads;
      ConvertedReads(s, base, low, high);
      var l: Cell, h: Cell, i := low, high, 0;
      assert s[0..] == s;
      while i < |s|
        invariant 0 <= i <= |s|
        invariant Converted(s[i..], base, l, h) == Converted(s, base, low, high)
      {
        var x := s[i];
        if 'a' <= x <= 'z' {
          x := (x as int - 97 + 65) as char;
        }
        if !('0' <= x <= '9' || 'A' <= x <= 'Z') {
          return Reading(l, h, s[i..]);
        }
        var digit := if x > '9' then x as int - 65 + 10 else x as int - 48;
        if !(digit < base) {
          return Reading(l, h, s[i..]);
        }
        var sum := l * base % CELL_RANGE + digit;
        assert s[i..][1..] == s[i + 1..];
        l, h, i := sum % CELL_RANGE, sum / CELL_RANGE, i + 1;
      }
      return Reading(l, h, s[i..]);
    }
  }

  // ----- printing -----

  lemma Glued(c: char, held: string, before: string)
    ensures [c] + (held + before) == ([c] + held) + before
  {
  }

  lemma QuotientFits(low: Cell, high: Cell, base: int)
    requires 2 <= base <= 36 && high < base
    ensures 0 <= (high * CELL_RANGE + low) / base < CELL_RANGE
  {
    var u := high * CELL_RANGE + low;
    assert u < base * CELL_RANGE;
    assert u == Quotient(u, base) * base + Remainder(u, base);
    NoMore(Quotient(u, base), base, CELL_RANGE);
  }

  lemma NoMore(q: int, base: int, limit: int)
    requires base > 0 && q * base < base * limit
    ensures q < limit
  {
    if q >= limit { Times(limit, q, base); }
  }

  function Power2(n: nat): nat {
    if n == 0 then 1 else 2 * Power2(n - 1)
  }

  lemma SignPower()
    ensures Power2(31) == SIGN_BIT
  {
    assert Power2(8) == 256;
    assert Power2(16) == 65536;
    assert Power2(24) == 0x100_0000;
  }

  lemma PowerHalves(digits: nat, u: nat, base: int)
    requires 0 < u < Power2(digits) && 2 <= base
    ensures digits > 0 && 0 <= Quotient(u, base) < Power2(digits - 1)
  {
    Division(u, base);
    hide Quotient, Remainder;
    Times(2, base, Quotient(u, base));
  }

  /** The digits of u before its last one, if there are any. */
  function Front(u: nat, base: int, ansi: bool): string
    requires 2 <= base <= 36
  {
    if u == 0 then [] else Numeral(u, base, ansi)
  }

  /** A numeral is the digits before the last one, and the last one. */
  lemma NumeralSplit(u: nat, base: int, ansi: bool, held: string)
    requires 2 <= base <= 36
    ensures Quotient(u, base) >= 0 && 0 <= Remainder(u, base) < base
    ensures Numeral(u, base, ansi) == Front(Quotient(u, base), base, ansi) + [Digit(Remainder(u, base), ansi)]
    ensures Numeral(u, base, ansi) + held ==
      Front(Quotient(u, base), base, ansi) + ([Digit(Remainder(u, base), ansi)] + held)
  {
    Division(u, base);
    hide Quotient, Remainder, Digit;
  }

  /** What has been held of the numeral of u when low is left to print; when the
      first quotient is too large it is all that will ever be. */
  ghost predicate Printed(u: nat, base: int, ansi: bool, low: nat, held: string)
    requires 2 <= base <= 36
  {
    if Quotient(u, base) < SIGN_BIT then low < SIGN_BIT && Numeral(u, base, ansi) == Front(low, base, ansi) + held
    else
      low == Quotient(u, base) && 0 <= Remainder(u, base) < base && held == [Digit(Remainder(u, base), ansi)]
  }

  lemma PrintedStart(u: nat, base: int, ansi: bool)
    requires 2 <= base <= 36
    ensures 0 <= Quotient(u, base) && 0 <= Remainder(u, base) < base
    ensures Printed(u, base, ansi, Quotient(u, base), [Digit(Remainder(u, base), ansi)])
  {
    NumeralSplit(u, base, ansi, []);
    hide Quotient, Remainder, Digit;
  }

  lemma PrintedNext(u: nat, base: int, ansi: bool, low: nat, held: string)
    requires 2 <= base <= 36 && 0 < low < SIGN_BIT && Printed(u, base, ansi, low, held)
    ensures 0 <= Quotient(low, base) < low && 0 <= Remainder(low, base) < base
    ensures Printed(u, base, ansi, Quotient(low, base), [Digit(Remainder(low, base), ansi)] + held)
  {
    Division(low, base);
    NumeralSplit(low, base, ansi, held);
    hide Quotient, Remainder, Digit, Numeral;
  }

  lemma PrintedEnd(u: nat, base: int, ansi: bool, low: nat, held: string)
    requires 2 <= base <= 36 && Printed(u, base, ansi, low, held) && (low == 0 || low >= SIGN_BIT)
    ensures 0 <= Remainder(u, base) < base
    ensures if Quotient(u, base) < SIGN_BIT then low == 0 && held == Numeral(u, base, ansi)
      else low == Quotient(u, base) && held == [Digit(Remainder(u, base), ansi)]
  {
    Division(u, base);
    hide Quotient, Remainder, Digit, Numeral;
  }

  lemma SmallQuotient(u: Cell, base: int)
    requires base >= 2
    ensures 0 <= Quotient(u, base) < SIGN_BIT
  {
    assert u == Quotient(u, base) * base + Remainder(u, base);
    if Quotient(u, base) >= SIGN_BIT {
      Times(2, base, Quotient(u, base));
    }
  }

  /** A numeral has one digit only below the base. */
  lemma NotOneDigit(u: nat, base: int, ansi: bool)
    requires 2 <= base <= 36
    ensures |Numeral(u, base, ansi)| >= 1
    ensures |Numeral(u, base, ansi)| == 1 <==> Quotient(u, base) == 0
  {
    Division(u, base);
    hide Quotient, Remainder, Digit;
    if u >= base {
      Division(Quotient(u, base), base);
    }
  }

  /** A double number that #s does not print: its first quotient is 2^31. */
  lemma SignEndsEarly(ansi: bool)
    ensures var u := 5 * CELL_RANGE;
      Quotient(u, 10) == SIGN_BIT && [Digit(Remainder(u, 10), ansi)] == "0" && Numeral(u, 10, ansi) != "0"
  {
    NotOneDigit(5 * CELL_RANGE, 10, ansi);
  }

  // ----- what printing and reading promise -----

  /** A numeral read from zero gives its number back, whatever follows it. */
  lemma {:induction false} ReadNumeral(u: nat, base: int, ansi: bool, t: string)
    requires 2 <= base <= 36 && u < CELL_RANGE
    ensures Converted(Numeral(u, base, ansi) + t, base, 0, 0) == Converted(t, base, u, 0)
    decreases u
  {
    hide Quotient, Remainder, Numeral, Digit, DigitValue, IsDigitChar;
    Division(u, base);
    NumeralSplit(u, base, ansi, t);
    ReadDigit(u, base, ansi, t);
    if u >= base {
      ReadNumeral(Quotient(u, base), base, ansi, [Digit(Remainder(u, base), ansi)] + t);
    } else {
      assert [] + ([Digit(Remainder(u, base), ansi)] + t) == [Digit(Remainder(u, base), ansi)] + t;
    }
  }

  lemma SmallSum(p: int, d: int, u: int)
    requires 0 <= p && 0 <= d && p + d == u < CELL_RANGE
    ensures p % CELL_RANGE == p && (p % CELL_RANGE + d) % CELL_RANGE == u && (p % CELL_RANGE + d) / CELL_RANGE == 0
  {
  }

  /** One digit more. */
  lemma ReadDigit(u: nat, base: int, ansi: bool, t: string)
    requires 2 <= base <= 36 && u < CELL_RANGE
    ensures 0 <= Remainder(u, base) < base && 0 <= Quotient(u, base) < CELL_RANGE
    ensures Converted([Digit(Remainder(u, base), ansi)] + t, base, Quotient(u, base), 0) == Converted(t, base, u, 0)
  {
    Division(u, base);
    hide Quotient, Remainder;
    var q, d := Quotient(u, base), Digit(Remainder(u, base), ansi);
    DigitWorth(Remainder(u, base), ansi);
    assert ([d] + t)[0] == d && ([d] + t)[1..] == t;
    Times(0, q, base);
    SmallSum(q * base, Remainder(u, base), u);
  }

  /** The same letters, some of them in the other case. */
  predicate SameButCase(s: string, t: string) {
    |s| == |t| && forall i :: 0 <= i < |s| ==> Upper(s[i]) == Upper(t[i])
  }

  /** Reading does not look at the case of letters. */
  lemma {:induction false} ReadAnyCase(s: string, t: string, base: int, low: Cell, high: Cell)
    requires 2 <= base <= 36 && SameButCase(s, t)
    ensures var a, b := Converted(s, base, low, high), Converted(t, base, low, high);
      a.low == b.low && a.high == b.high && SameButCase(a.rest, b.rest)
    decreases |s|
  {
    if s != "" && IsDigitChar(s[0]) && DigitValue(s[0]) < base {
      var sum := low * base % CELL_RANGE + DigitValue(s[0]);
      ReadAnyCase(s[1..], t[1..], base, sum % CELL_RANGE, sum / CELL_RANGE);
    }
  }

  /** Printing a cell and reading it back, in any mixture of cases, gives the cell,
      with a zero above it and nothing left over. */
  lemma PrintThenRead(u: Cell, base: int, ansi: bool, s: string)
    requires 2 <= base <= 36 && SameButCase(Numeral(u, base, ansi), s)
    ensures Converted(s, base, 0, 0) == Reading(u, 0, "")
  {
    var n := Numeral(u, base, ansi);
    ReadNumeral(u, base, ansi, "");
    assert n + "" == n;
    ReadAnyCase(n, s, base, 0, 0);
  }

  /** A cell never takes more than 32 digits. */
  lemma {:induction false} NumeralLength(u: nat, base: int, ansi: bool, digits: nat)
    requires 2 <= base <= 36 && u < Power2(digits) && digits > 0
    ensures 1 <= |Numeral(u, base, ansi)| <= digits
    decreases u
  {
    hide Quotient, Remainder;
    Division(u, base);
    if u >= base {
      PowerHalves(digits, u, base);
      NumeralLength(Quotient(u, base), base, ansi, digits - 1);
    }
  }

  lemma CellLength(u: Cell, base: int, ansi: bool)
    requires 2 <= base <= 36
    ensures 1 <= |Numeral(u, base, ansi)| <= 32 < BUFFER
  {
    SignPower();
    assert Power2(32) == 2 * Power2(31);
    NumeralLength(u, base, ansi, 32);
  }

  // ----- the numeral is the only one -----

  /** Digits of the base; the letters are capitals or not. */
  predicate IsNumeral(s: string, base: int, ansi: bool) {
    forall i :: 0 <= i < |s| ==> IsDigitOf(s[i], base) && if ansi then !('a' <= s[i] <= 'z') else !('A' <= s[i] <= 'Z')
  }

  function ValueOf(s: string, base: int): nat
    requires base > 0
  {
    ValueFrom(0, s, base)
  }

  /** Numerals are made of digits of the base, have the value of their number, and
      start with zero only when that is all. */
  lemma {:induction false} NumeralIsNumeral(u: nat, base: int, ansi: bool)
    requires 2 <= base <= 36
    ensures var s := Numeral(u, base, ansi);
      IsNumeral(s, base, ansi) && s != "" && ValueOf(s, base) == u && (s[0] == '0' ==> u == 0 && |s| == 1)
    decreases u
  {
    hide Quotient, Remainder, Numeral, Digit, IsNumeral, ValueFrom;
    var s := Numeral(u, base, ansi);
    Division(u, base);
    NumeralSplit(u, base, ansi, []);
    var front, n := Front(Quotient(u, base), base, ansi), Remainder(u, base);
    DigitLetter(n, base, ansi);
    if u >= base {
      NumeralIsNumeral(Quotient(u, base), base, ansi);
      assert front[0] == s[0];
    } else {
      NoDigits(base, ansi);
    }
    IsNumeralMore(front, Digit(n, ansi), base, ansi);
  }

  lemma NoDigits(base: int, ansi: bool)
    requires base > 0
    ensures IsNumeral("", base, ansi) && ValueFrom(0, "", base) == 0
  {
  }

  lemma IsNumeralMore(front: string, c: char, base: int, ansi: bool)
    requires base > 0
    ensures IsNumeral(front + [c], base, ansi) <==> IsNumeral(front, base, ansi) && IsNumeral([c], base, ansi)
    ensures ValueFrom(0, front + [c], base) == ValueFrom(0, front, base) * base + Worth(c)
  {
    hide IsDigitOf, Worth, ValueFrom;
    var s := front + [c];
    ValueMore(0, front, c, base);
    assert forall i :: 0 <= i < |front| ==> s[i] == front[i];
    assert s[|front|] == c && [c][0] == c && |s| == |front| + 1;
  }

  /** Every number below the base has one character, and every such character is one. */
  lemma DigitLetter(n: int, base: int, ansi: bool)
    requires 0 <= n < base <= 36
    ensures IsNumeral([Digit(n, ansi)], base, ansi) && Worth(Digit(n, ansi)) == n
    ensures Digit(n, ansi) == '0' <==> n == 0
  {
  }

  lemma LetterDigit(c: char, base: int, ansi: bool)
    requires 2 <= base <= 36 && IsNumeral([c], base, ansi)
    ensures Worth(c) < base && Digit(Worth(c), ansi) == c && (c == '0' <==> Worth(c) == 0)
  {
    assert [c][0] == c;
  }

  /** And there is no other string like that. */
  lemma {:induction false} OnlyNumeral(s: string, base: int, ansi: bool)
    requires 2 <= base <= 36 && IsNumeral(s, base, ansi) && s != "" && (s[0] == '0' ==> |s| == 1)
    ensures Numeral(ValueOf(s, base), base, ansi) == s
    ensures s[0] != '0' ==> ValueOf(s, base) > 0
    decreases |s|
  {
    hide Quotient, Remainder, Numeral, Digit, Worth, IsNumeral, ValueFrom;
    var front, c := s[..|s| - 1], s[|s| - 1];
    assert s == front + [c];
    IsNumeralMore(front, c, base, ansi);
    LetterDigit(c, base, ansi);
    NoDigits(base, ansi);
    var q, d := ValueOf(front, base), Worth(c);
    if front == "" {
      assert s == [c];
      Division(d, base);
      NumeralSplit(d, base, ansi, []);
    } else {
      assert front[0] == s[0];
      OnlyNumeral(front, base, ansi);
      DivMod(q, d, base);
      NumeralSplit(q * base + d, base, ansi, []);
    }
  }

  lemma DivMod(q: int, d: int, base: int)
    requires 2 <= base && 0 <= d < base && q > 0
    ensures Quotient(q * base + d, base) == q && Remainder(q * base + d, base) == d && q * base + d > 0
  {
    var u := q * base + d;
    assert u == Quotient(u, base) * base + Remainder(u, base);
    var k := Quotient(u, base) - q;
    assert k * base == d - Remainder(u, base);
    Multiples(k, base);
    Times(1, q, base);
  }
}
