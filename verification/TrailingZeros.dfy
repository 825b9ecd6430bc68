/** Stripping decimal zeros without a division: multiply by a modular inverse, rotate, compare.

    Words are naturals below a power of two and every wrap-around is written out. */
module TrailingZeros {
  import opened BlockArithmetic
  import opened BitMasks
  import Digits

  const W32: nat := 0x1_0000_0000
  const W64: nat := 0x1_0000_0000_0000_0000
  const TEN8: nat := 100_000_000

  // Words.

  /** Bitwise or. */
  function Or(x: nat, y: nat): nat
    decreases x + y
  {
    if x == 0 && y == 0 then 0
    else (if x % 2 == 1 || y % 2 == 1 then 1 else 0) + 2 * Or(x / 2, y / 2)
  }

  function Pow2(k: nat): (p: nat)
    ensures p >= 1
  {
    if k == 0 then 1 else 2 * Pow2(k - 1)
  }

  /** Bits that do not overlap add up. */
  lemma {:induction false} OrDisjoint(x: nat, y: nat, m: nat)
    requires x < Pow2(m)
    ensures Or(x, y * Pow2(m)) == x + y * Pow2(m)
    decreases m, y
  {
    if m == 0 {
      OrZero(y);
    } else {
      var z := y * Pow2(m - 1);
      assert y * Pow2(m) == 2 * z by {
        assert y * (2 * Pow2(m - 1)) == 2 * (y * Pow2(m - 1));
      }
      OrDisjoint(x / 2, y, m - 1);
    }
  }

  lemma {:induction false} OrZero(y: nat)
    ensures Or(0, y) == y
  {
    if y > 0 {
      OrZero(y / 2);
    }
  }

  lemma {:induction false} OrOne(s: nat)
    ensures Or(s, 1) == if s % 2 == 0 then s + 1 else s
  {
    assert Or(s, 1) == 1 + 2 * Or(s / 2, 0);
    OrRightZero(s / 2);
  }

  lemma {:induction false} OrRightZero(x: nat)
    ensures Or(x, 0) == x
  {
    if x > 0 {
      OrRightZero(x / 2);
    }
  }

  function Quotient(a: nat, b: nat): (q: nat)
    requires b > 0
  {
    a / b
  }

  function Remainder(a: nat, b: nat): (r: nat)
    requires b > 0
    ensures r < b && a == b * Quotient(a, b) + r
  {
    a % b
  }

  /** The two are determined by the equation they satisfy. */
  lemma DivisionUnique(x: nat, m: nat, q: int, r: int)
    requires m > 0 && x == m * q + r && 0 <= r < m
    ensures Quotient(x, m) == q && Remainder(x, m) == r
  {
    QuotientUnique(x, m, q, r);
  }

  /** (n >> r) | (n << (bits - r)) in a word of `bits` bits. */
  function Rotr(n: nat, r: nat, bits: nat): nat
    requires r <= bits
  {
    Or(Quotient(n, Pow2(r)), Remainder(n * Pow2(bits - r), Pow2(bits)))
  }

  lemma {:induction false} Pow2Adds(a: nat, b: nat)
    ensures Pow2(a + b) == Pow2(a) * Pow2(b)
  {
    if a > 0 {
      Pow2Adds(a - 1, b);
      assert Pow2(a) * Pow2(b) == 2 * (Pow2(a - 1) * Pow2(b));
    }
  }

  lemma ScaledUp(n: nat, p: nat, h: nat, q: nat, low: nat)
    requires n == p * q + low && low < p && h > 0 && n < p * h
    ensures n * h == (p * h) * q + low * h && 0 <= low * h < p * h && q < h
  {
    Distribute(p * q, low, h);
    Regrouped(p, q, h);
    Distribute(p - low, low, h);
    Multiple(h, p - low);
    if q >= h {
      Grows(p, h, q);
    }
  }

  lemma Distribute(a: int, b: int, c: int)
    ensures (a + b) * c == a * c + b * c
  {
  }

  lemma Regrouped(a: int, b: int, c: int)
    ensures (a * b) * c == (a * c) * b == a * (b * c)
  {
  }

  lemma SameTimes(a: int, x: int, y: int)
    requires x == y
    ensures a * x == a * y
  {
  }

  /** What is shifted out at the top of a word of p * h values is what the remainder drops. */
  lemma ShiftedUp(n: nat, p: nat, h: nat)
    requires p > 0 && h > 0 && n < p * h
    ensures p * h > 0 && Remainder(n * h, p * h) == Remainder(n, p) * h && Quotient(n, p) < h
  {
    hide Quotient, Remainder;
    var q, low := Quotient(n, p), Remainder(n, p);
    ScaledUp(n, p, h, q, low);
    DivisionUnique(n * h, p * h, q, low * h);
  }

  lemma Grows(p: nat, a: nat, b: nat)
    requires a <= b
    ensures p * a <= p * b
  {
    assert p * (b - a) >= 0;
    assert p * (b - a) == p * b - p * a;
  }

  /** A rotation puts the low r bits on top of the others. */
  lemma RotrMoves(n: nat, r: nat, bits: nat)
    requires r <= bits && n < Pow2(bits)
    ensures Rotr(n, r, bits) == Rotated(n, Pow2(r), Pow2(bits - r))
  {
    Pow2Adds(r, bits - r);
    ShiftedUp(n, Pow2(r), Pow2(bits - r));
    OrDisjoint(Quotient(n, Pow2(r)), Remainder(n, Pow2(r)), bits - r);
  }

  function Rotated(n: nat, p: nat, h: nat): nat
    requires p > 0
  {
    Quotient(n, p) + Remainder(n, p) * h
  }

  // The rotate-and-compare test.

  /** inv is the inverse of d among the residues of w. */
  predicate Inverse(d: nat, inv: nat, w: nat) {
    w > 0 && Remainder(d * inv, w) == 1
  }

  lemma Cancelled(n: int, d: int, inv: int, w: int, x: int, k: int, j: int) returns (z: int)
    requires n * inv == w * k + x && d * inv == w * j + 1
    ensures x * d == w * z + n
  {
    z := n * j - d * k;
    SameTimes(n, d * inv, w * j + 1);
    SameTimes(d, n * inv, w * k + x);
    Distribute(w * j, 1, n);
    Distribute(w * k, x, d);
    Regrouped(n, d, inv);
    Regrouped(d, n, inv);
    Regrouped(w, j, n);
    Regrouped(w, k, d);
    Distribute(n * j, -(d * k), w);
  }

  /** Multiplying by the inverse and by d again gives back n. */
  lemma InverseCancels(n: nat, d: nat, inv: nat, w: nat)
    requires Inverse(d, inv, w) && n < w
    ensures Remainder(Remainder(n * inv, w) * d, w) == n
  {
    hide Quotient, Remainder;
    var x := Remainder(n * inv, w);
    var z := Cancelled(n, d, inv, w, x, Quotient(n * inv, w), Quotient(d * inv, w));
    DivisionUnique(x * d, w, z, n);
  }

  /** Two residues with the same product with d are the same. */
  lemma InverseUnique(x: nat, n: nat, d: nat, inv: nat, w: nat)
    requires Inverse(d, inv, w) && x < w && x * d == n
    ensures x == Remainder(n * inv, w)
  {
    hide Quotient, Remainder;
    var j := Quotient(d * inv, w);
    assert n * inv == w * (x * j) + x by {
      assert x * (d * inv) == x * (w * j + 1);
      assert x * (w * j + 1) == w * (x * j) + x;
      assert (x * d) * inv == x * (d * inv);
    }
    DivisionUnique(n * inv, w, x * j, x);
  }

  lemma SmallProduct(q: nat, e: nat, w: nat)
    requires e > 0 && w > 0
    ensures q <= Quotient(w - 1, e) <==> q * e < w
  {
    hide Quotient, Remainder;
    var l, m := Quotient(w - 1, e), Remainder(w - 1, e);
    assert q * e == e * q;
    if q <= l {
      Grows(e, q, l);
    } else {
      Grows(e, l + 1, q);
      assert e * (l + 1) == e * l + e;
    }
  }

  lemma TooLarge(q: nat, d: nat, p: nat, h: nat)
    requires q >= h > 0 && d > 0 && p > 0
    ensures q * (d * p) >= p * h
  {
    Multiple(p * h, d);
    Regrouped(d, p, h);
    Grows(d * p, h, q);
  }

  /** A rotated word that is small has no low bits set. */
  lemma LowBitsClear(x: nat, d: nat, p: nat, h: nat)
    requires p > 0 && h > 0 && d > 1
    requires Rotated(x, p, h) * (d * p) < p * h
    ensures x == p * Rotated(x, p, h)
  {
    hide Quotient, Remainder;
    var low, q := Remainder(x, p), Rotated(x, p, h);
    if low > 0 {
      Multiple(h, low);
      TooLarge(q, d, p, h);
    }
  }

  lemma DivisibleCase(n: nat, d: nat, inv: nat, p: nat, h: nat, w: nat, m: nat)
    requires p > 0 && h > 0 && d > 1 && w == p * h && n < w && Inverse(d, inv, w)
    requires n == (d * p) * m
    ensures Rotated(Remainder(n * inv, w), p, h) == m
  {
    hide Quotient, Remainder;
    var y := p * m;
    assert y * d == n;
    assert y < w by {
      Multiple(y, d);
    }
    InverseUnique(y, n, d, inv, w);
    DivisionUnique(y, p, m, 0);
  }

  lemma SmallCase(n: nat, d: nat, inv: nat, p: nat, h: nat, w: nat)
    requires p > 0 && h > 0 && d > 1 && w == p * h && n < w && Inverse(d, inv, w)
    requires Rotated(Remainder(n * inv, w), p, h) * (d * p) < w
    ensures n == (d * p) * Rotated(Remainder(n * inv, w), p, h)
  {
    hide Quotient, Remainder, Inverse, Rotated;
    var x := Remainder(n * inv, w);
    var q := Rotated(x, p, h);
    LowBitsClear(x, d, p, h);
    SameTimes(d, x, p * q);
    Regrouped(d, p, q);
    InverseCancels(n, d, inv, w);
    DivisionUnique(x * d, w, 0, x * d);
  }

  /** The test in terms of remainders: p and h are powers of two whose product is the range of the word. */
  lemma RotateCompare(n: nat, d: nat, inv: nat, p: nat, h: nat, w: nat)
    requires p > 0 && h > 0 && d > 1 && w == p * h && n < w && Inverse(d, inv, w)
    ensures d * p > 0
    ensures var q := Rotated(Remainder(n * inv, w), p, h);
      && (q <= Quotient(w - 1, d * p) <==> Remainder(n, d * p) == 0)
      && (Remainder(n, d * p) == 0 ==> q == Quotient(n, d * p))
  {
    hide Quotient, Remainder;
    Multiple(d, p);
    var q := Rotated(Remainder(n * inv, w), p, h);
    SmallProduct(q, d * p, w);
    if Remainder(n, d * p) == 0 {
      DivisibleCase(n, d, inv, p, h, w, Quotient(n, d * p));
    }
    if q * (d * p) < w {
      SmallCase(n, d, inv, p, h, w);
      DivisionUnique(n, d * p, q, 0);
    }
  }

  function Test(n: nat, inv: nat, r: nat, bits: nat): nat
    requires r <= bits
  {
    Rotr(Remainder(n * inv, Pow2(bits)), r, bits)
  }

  lemma TestRotates(n: nat, inv: nat, r: nat, bits: nat)
    requires r <= bits
    ensures Test(n, inv, r, bits) == Rotated(Remainder(n * inv, Pow2(bits)), Pow2(r), Pow2(bits - r))
  {
    hide Remainder, Rotr, Rotated;
    RotrMoves(Remainder(n * inv, Pow2(bits)), r, bits);
  }

  /** For an odd d with inverse inv: the rotated product is at most (2^bits - 1) / (d * 2^r) exactly if n
      is divisible by d * 2^r, and then it is the quotient. */
  lemma RotateTest(n: nat, d: nat, inv: nat, r: nat, bits: nat)
    requires r <= bits && n < Pow2(bits) && d > 1 && Inverse(d, inv, Pow2(bits))
    ensures d * Pow2(r) > 0
    ensures Test(n, inv, r, bits) <= Quotient(Pow2(bits) - 1, d * Pow2(r)) <==> Remainder(n, d * Pow2(r)) == 0
    ensures Remainder(n, d * Pow2(r)) == 0 ==> Test(n, inv, r, bits) == Quotient(n, d * Pow2(r))
  {
    hide Quotient, Remainder, Rotated, Pow2, Test, Inverse;
    TestRotates(n, inv, r, bits);
    Pow2Adds(r, bits - r);
    RotateCompare(n, d, inv, Pow2(r), Pow2(bits - r), Pow2(bits));
  }

  // Counting zeros.

  /** The number of zeros at the end of n. */
  function Zeros(n: nat): nat
    requires n > 0
  {
    if n % 10 == 0 then 1 + Zeros(n / 10) else 0
  }

  /** n without the zeros at its end. */
  function Core(n: nat): (c: nat)
    requires n > 0
    ensures c > 0
  {
    if n % 10 == 0 then Core(n / 10) else n
  }

  /** The two functions are determined by what a caller wants of them. */
  lemma {:induction false} StrippedUniquely(n: nat, c: nat, k: nat)
    requires n > 0
    ensures n == c * Digits.Pow10(k) && c % 10 != 0 <==> c == Core(n) && k == Zeros(n)
    decreases n
  {
    hide Digits.Pow10;
    if k > 0 {
      TenMore(c, k);
      Tens(n, c * Digits.Pow10(k - 1));
      if n % 10 == 0 {
        StrippedUniquely(n / 10, c, k - 1);
      }
    } else {
      NoTens(c);
      if n % 10 == 0 {
        CoreHasNoZero(n);
      }
    }
  }

  lemma TenMore(c: nat, k: nat)
    requires k > 0
    ensures c * Digits.Pow10(k) == 10 * (c * Digits.Pow10(k - 1))
  {
  }

  lemma NoTens(c: nat)
    ensures c * Digits.Pow10(0) == c
  {
  }

  lemma Tens(n: nat, m: nat)
    ensures n == 10 * m <==> n % 10 == 0 && n / 10 == m
  {
  }

  lemma {:induction false} CoreHasNoZero(n: nat)
    requires n > 0
    ensures Core(n) % 10 != 0
  {
    if n % 10 == 0 {
      CoreHasNoZero(n / 10);
    }
  }

  lemma TwoZeros(n: nat)
    requires n > 0 && n % 100 == 0
    ensures n / 100 > 0 && Zeros(n) == 2 + Zeros(n / 100) && Core(n) == Core(n / 100)
  {
    var m := n / 100;
    assert n == 10 * (10 * m);
    assert n / 10 == 10 * m && n % 10 == 0;
    assert 10 * m / 10 == m && 10 * m % 10 == 0;
  }

  lemma AtMostOneZero(n: nat)
    requires n > 0 && n % 100 != 0
    ensures n % 10 != 0 ==> Zeros(n) == 0 && Core(n) == n
    ensures n % 10 == 0 ==> Zeros(n) == 1 && Core(n) == n / 10
  {
    if n % 10 == 0 {
      if n / 10 % 10 == 0 {
        Hundred(n);
      } else {
        assert Zeros(n / 10) == 0 && Core(n / 10) == n / 10;
      }
    }
  }

  lemma Hundred(n: nat)
    requires n % 10 == 0 && n / 10 % 10 == 0
    ensures n % 100 == 0
  {
    assert n == 100 * (n / 10 / 10);
  }

  /** The two tests of the loop in decimal terms. */
  lemma DecimalTests(n: nat, inv25: nat, inv5: nat, bits: nat)
    requires n < Pow2(bits) && bits >= 2
    requires Inverse(25, inv25, Pow2(bits)) && Inverse(5, inv5, Pow2(bits))
    ensures Test(n, inv25, 2, bits) <= Quotient(Pow2(bits) - 1, 100) <==> n % 100 == 0
    ensures n % 100 == 0 ==> Test(n, inv25, 2, bits) == n / 100
    ensures Test(n, inv5, 1, bits) <= Quotient(Pow2(bits) - 1, 10) <==> n % 10 == 0
    ensures n % 10 == 0 ==> Test(n, inv5, 1, bits) == n / 10
  {
    assert Pow2(1) == 2 && Pow2(2) == 2 * Pow2(1);
    RotateTest(n, 25, inv25, 2, bits);
    RotateTest(n, 5, inv5, 1, bits);
  }

  // The procedures.

  /** The number of zeros counted so far fits what is left. */
  ghost predicate Consistent(n0: nat, s0: nat, n: nat, s: nat)
    requires n0 > 0
  {
    && n > 0 && s >= s0 && (s - s0) % 2 == 0
    && Zeros(n0) == s - s0 + Zeros(n) && Core(n0) == Core(n)
  }

  lemma StepConsistent(n0: nat, s0: nat, n: nat, s: nat)
    requires n0 > 0 && Consistent(n0, s0, n, s) && n % 100 == 0
    ensures Consistent(n0, s0, n / 100, s + 2) && n / 100 < n
  {
    TwoZeros(n);
  }

  lemma LastStep(n0: nat, s0: nat, n: nat, s: nat)
    requires n0 > 0 && Consistent(n0, s0, n, s) && n % 100 != 0
    ensures Core(n0) == if n % 10 == 0 then n / 10 else n
    ensures var s' := if n % 10 == 0 then Or(s, 1) else s;
      s' == s0 + Zeros(n0) - (if s0 % 2 == 1 && Zeros(n0) % 2 == 1 then 1 else 0)
  {
    AtMostOneZero(n);
    OrOne(s);
    Parity(s0, s, Zeros(n0), Zeros(n), Or(s, 1));
  }

  /** Setting the lowest bit adds one to an even number only. */
  lemma Parity(s0: nat, s: nat, total: nat, last: nat, s1: nat)
    requires s >= s0 && (s - s0) % 2 == 0 && total == s - s0 + last && last <= 1
    requires s1 == if s % 2 == 0 then s + 1 else s
    ensures (if last == 1 then s1 else s) == s0 + total - (if s0 % 2 == 1 && total % 2 == 1 then 1 else 0)
  {
  }

  /** The loop and the final `if` shared by both widths. */
  method StripByRotation(n0: nat, s0: nat, inv25: nat, inv5: nat, bits: nat) returns (n: nat, s: nat)
    requires 0 < n0 < Pow2(bits) && bits >= 2
    requires Inverse(25, inv25, Pow2(bits)) && Inverse(5, inv5, Pow2(bits))
    ensures n == Core(n0)
    ensures s == s0 + Zeros(n0) - (if s0 % 2 == 1 && Zeros(n0) % 2 == 1 then 1 else 0)
  {
    n, s := n0, s0;
    while true
      invariant Consistent(n0, s0, n, s) && n < Pow2(bits)
      decreases n
    {
      DecimalTests(n, inv25, inv5, bits);
      var q := Test(n, inv25, 2, bits);
      if q > Quotient(Pow2(bits) - 1, 100) {
        break;
      }
      StepConsistent(n0, s0, n, s);
      n := q;
      s := s + 2;
    }
    DecimalTests(n, inv25, inv5, bits);
    LastStep(n0, s0, n, s);
    var q := Test(n, inv5, 1, bits);
    if q <= Quotient(Pow2(bits) - 1, 10) {
      n := q;
      s := Or(s, 1);
    }
  }

  const MOD_INV_5_32: nat := 0xcccc_cccd
  const MOD_INV_25_32: nat := 0xc28f_5c29
  const MOD_INV_5_64: nat := 0xcccc_cccc_cccc_cccd
  const MOD_INV_25_64: nat := 0x8f5c_28f5_c28f_5c29

  lemma Sixteen()
    ensures Pow2(4) == 16
  {
  }

  lemma Widths()
    ensures Pow2(32) == W32 && Pow2(64) == W64
  {
    hide Pow2;
    Sixteen();
    Pow2Adds(4, 4);
    Pow2Adds(8, 8);
    Pow2Adds(16, 16);
    Pow2Adds(32, 32);
  }

  lemma Inverses()
    ensures Inverse(5, MOD_INV_5_32, W32) && Inverse(25, MOD_INV_25_32, W32)
    ensures Inverse(5, MOD_INV_5_64, W64) && Inverse(25, MOD_INV_25_64, W64)
  {
  }

  /** The 32-bit version: all zeros are removed and, for an even start, exactly their number is added; an
      odd start loses one when that number is odd. */
  method RemoveTrailingZeros32(n0: nat, s0: nat) returns (n: nat, s: nat)
    requires 0 < n0 < W32
    ensures n0 == n * Digits.Pow10(Zeros(n0)) && n % 10 != 0
    ensures s == s0 + Zeros(n0) <==> s0 % 2 == 0 || Zeros(n0) % 2 == 0
    ensures s == s0 + Zeros(n0) || s == s0 + Zeros(n0) - 1
  {
    Widths();
    Inverses();
    n, s := StripByRotation(n0, s0, MOD_INV_25_32, MOD_INV_5_32, 32);
    StrippedUniquely(n0, n, Zeros(n0));
  }

  // Division by multiplication.

  /** magic = (p + e) / d. With a small error the product holds the quotient above p and, below it, the
      remainder in units of magic. */
  lemma MagicDivision(n: nat, d: nat, magic: nat, e: nat, p: nat)
    requires d > 0 && p > 0 && d * magic == p + e
    requires Quotient(n, d) * e + Remainder(n, d) * magic < p
    ensures Quotient(n * magic, p) == Quotient(n, d)
    ensures Remainder(n * magic, p) == Quotient(n, d) * e + Remainder(n, d) * magic
  {
    hide Quotient, Remainder;
    var m, r := Quotient(n, d), Remainder(n, d);
    var below := m * e + r * magic;
    assert m * e >= 0 && r * magic >= 0;
    assert n * magic == p * m + below by {
      assert (d * m + r) * magic == (d * magic) * m + r * magic;
      assert (p + e) * m == p * m + m * e;
    }
    DivisionUnique(n * magic, p, m, below);
  }

  /** Divisibility shows below p: the part there is less than magic exactly if nothing is left over. */
  lemma MagicTest(n: nat, d: nat, magic: nat, e: nat, p: nat)
    requires d > 0 && p > 0 && d * magic == p + e
    requires Quotient(n, d) * e + Remainder(n, d) * magic < p && Quotient(n, d) * e < magic
    ensures Remainder(n * magic, p) < magic <==> Remainder(n, d) == 0
  {
    hide Quotient, Remainder;
    MagicDivision(n, d, magic, e, p);
    if Remainder(n, d) > 0 {
      Multiple(magic, Remainder(n, d));
    }
  }

  // The 64-bit version.

  const P26: nat := 0x400_0000
  const P90: nat := 0x400_0000_0000_0000_0000_0000
  const MAGIC_10_8: nat := 12379400392853802749

  lemma {:induction false} Pow2IsPowerOfTwo(k: nat)
    ensures IsPowerOfTwo(Pow2(k))
  {
    if k > 0 {
      Pow2IsPowerOfTwo(k - 1);
      assert Pow2(k) / 2 == Pow2(k - 1) && Pow2(k) % 2 == 0;
    }
  }

  lemma Two()
    ensures Pow2(2) == 4
  {
  }

  lemma Mask26(x: nat)
    ensures And(x, P26 - 1) == Remainder(x, P26)
  {
    hide Pow2;
    Pow2IsPowerOfTwo(26);
    Sixteen();
    Two();
    Pow2Adds(4, 4);
    Pow2Adds(8, 8);
    Pow2Adds(8, 2);
    Pow2Adds(16, 10);
    MaskIsRemainder(x, P26);
  }

  /** Looking at a 128-bit product through its two halves. */
  lemma Halves(nm: nat)
    ensures var high, low := Quotient(nm, W64), Remainder(nm, W64);
      && Quotient(nm, P90) == Quotient(high, P26)
      && Remainder(nm, P90) == Remainder(high, P26) * W64 + low
  {
    var high, low := Quotient(nm, W64), Remainder(nm, W64);
    var t, u := Quotient(high, P26), Remainder(high, P26);
    assert nm == P90 * t + (u * W64 + low);
    DivisionUnique(nm, P90, t, u * W64 + low);
  }

  /** The test of the 64-bit version finds the multiples of 10^8, and the high half then holds the quotient. */
  lemma MultipleOfTen8(n: nat)
    requires n < W64
    ensures var nm := n * MAGIC_10_8; var high := Quotient(nm, W64);
      && (And(high, P26 - 1) == 0 && Remainder(nm, W64) < MAGIC_10_8 <==> Remainder(n, TEN8) == 0)
      && Quotient(high, P26) == Quotient(n, TEN8)
  {
    var nm := n * MAGIC_10_8;
    var high := Quotient(nm, W64);
    Mask26(high);
    Halves(nm);
    var m, r := Quotient(n, TEN8), Remainder(n, TEN8);
    assert m * TEN8 + r < W64 && r < TEN8;
    assert m <= 184467440737;
    MagicTest(n, TEN8, MAGIC_10_8, 875776, P90);
    MagicDivision(n, TEN8, MAGIC_10_8, 875776, P90);
  }

  lemma {:induction false} Pow10Adds(a: nat, b: nat)
    ensures Digits.Pow10(a + b) == Digits.Pow10(a) * Digits.Pow10(b)
  {
    if a > 0 {
      Pow10Adds(a - 1, b);
      assert Digits.Pow10(a) * Digits.Pow10(b) == 10 * (Digits.Pow10(a - 1) * Digits.Pow10(b));
    }
  }

  lemma EightMore(m: nat, c: nat, k: nat)
    requires m == c * Digits.Pow10(k)
    ensures m * TEN8 == c * Digits.Pow10(8 + k)
  {
    assert Digits.Pow10(4) == 10_000;
    Pow10Adds(4, 4);
    Pow10Adds(8, k);
    assert c * (TEN8 * Digits.Pow10(k)) == (c * Digits.Pow10(k)) * TEN8;
  }

  /** What the 64-bit version strips: of a multiple of 10^8 only the lower word of the quotient. */
  function Stripped64(n: nat): nat {
    if Remainder(n, TEN8) == 0 then Remainder(Quotient(n, TEN8), W32) * TEN8 else n
  }

  lemma StrippedPart(n: nat)
    ensures Remainder(n, TEN8) == 0 ==> Stripped64(n) == Remainder(Quotient(n, TEN8), W32) * TEN8
    ensures Remainder(n, TEN8) != 0 ==> Stripped64(n) == n
  {
  }

  lemma StrippedIsAll(n: nat)
    ensures Stripped64(n) == n <==> Remainder(n, TEN8) != 0 || n < W32 * TEN8
  {
  }

  /** An input that is not stripped but cut off: 10^8 is left of (2^32 + 1) * 10^8. */
  lemma CutOff()
    ensures 429496729700000000 < W64 && 429496729700000000 == (W32 + 1) * TEN8
    ensures Remainder(429496729700000000, TEN8) == 0 && Remainder(Quotient(429496729700000000, TEN8), W32) != 0
    ensures Stripped64(429496729700000000) == TEN8
  {
    DivisionUnique(429496729700000000, TEN8, W32 + 1, 0);
    DivisionUnique(W32 + 1, W32, 1, 1);
  }

  /** All zeros are removed and counted, unless a multiple of 10^8 has a quotient that the 32-bit procedure
      cannot take; a quotient that is zero there violates that procedure's assertion. */
  method RemoveTrailingZeros64(n0: nat) returns (n: nat, s: nat)
    requires 0 < n0 < W64
    requires Remainder(n0, TEN8) == 0 ==> Remainder(Quotient(n0, TEN8), W32) != 0
    ensures Stripped64(n0) == n * Digits.Pow10(s) && n % 10 != 0
    ensures n0 == n * Digits.Pow10(s) <==> Remainder(n0, TEN8) != 0 || n0 < W32 * TEN8
  {
    hide Quotient, Remainder, And, Digits.Pow10, Zeros, Stripped64, Inverse, Core;
    MultipleOfTen8(n0);
    StrippedIsAll(n0);
    StrippedPart(n0);
    var nm := n0 * MAGIC_10_8;
    var high, low := Quotient(nm, W64), Remainder(nm, W64);
    if And(high, P26 - 1) == 0 && low < MAGIC_10_8 {
      var n32 := Remainder(Quotient(high, P26), W32);
      n, s := RemoveTrailingZeros32(n32, 8);
      EightMore(n32, n, Zeros(n32));
    } else {
      Widths();
      Inverses();
      n, s := StripByRotation(n0, 0, MOD_INV_25_64, MOD_INV_5_64, 64);
      StrippedUniquely(n0, n, Zeros(n0));
    }
  }

  // The other divisions by multiplication.

  /** Exact for every 32-bit n. */
  lemma DivideBy100(n: nat)
    requires n < W32
    ensures Quotient(n * 1374389535, 0x20_0000_0000) == Quotient(n, 100)
  {
    MagicDivision(n, 100, 1374389535, 28, 0x20_0000_0000);
  }

  const MAGIC_1000: nat := 2361183241434822607
  const P71: nat := 0x80_0000_0000_0000_0000

  /** umul128_upper64(n, magic) >> 7 for a 64-bit n: one too large exactly when the last three digits are
      999 and the rest is at least 15534100272597517. */
  lemma DivideBy1000(n: nat)
    requires n < W64
    ensures Quotient(Quotient(n * MAGIC_1000, W64), 128)
            == Quotient(n, 1000) + (if Remainder(n, 1000) == 999 && Quotient(n, 1000) >= 15534100272597517 then 1 else 0)
  {
    var nm := n * MAGIC_1000;
    var high, low := Quotient(nm, W64), Remainder(nm, W64);
    var t, u := Quotient(high, 128), Remainder(high, 128);
    assert nm == P71 * t + (u * W64 + low);
    DivisionUnique(nm, P71, t, u * W64 + low);
    var m, r := Quotient(n, 1000), Remainder(n, 1000);
    assert nm == P71 * m + (m * 152 + r * MAGIC_1000);
    if r == 999 && m >= 15534100272597517 {
      DivisionUnique(nm, P71, m + 1, m * 152 + r * MAGIC_1000 - P71);
    } else {
      DivisionUnique(nm, P71, m, m * 152 + r * MAGIC_1000);
    }
  }

  /** The least input for which it is one too large. */
  lemma DivideBy1000Fails()
    ensures 15534100272597517999 < W64 && Quotient(15534100272597517999, 1000) == 15534100272597517
    ensures Quotient(Quotient(15534100272597517999 * MAGIC_1000, W64), 128) == 15534100272597518
    ensures forall n: nat :: n < 15534100272597517999 ==>
      Quotient(Quotient(n * MAGIC_1000, W64), 128) == Quotient(n, 1000)
  {
    DivisionUnique(15534100272597517999, 1000, 15534100272597517, 999);
    DivideBy1000(15534100272597517999);
    forall n: nat | n < 15534100272597517999
      ensures Quotient(Quotient(n * MAGIC_1000, W64), 128) == Quotient(n, 1000)
    {
      DivideBy1000(n);
    }
  }

  /** check_divisibility_and_divide_by_pow10 on all it accepts. */
  lemma DivideBySmallPower(n: nat, d: nat, magic: nat)
    requires (d == 10 && magic == 6554) || (d == 100 && magic == 656)
    requires n <= d * 10
    ensures Quotient(n * magic, 0x1_0000) == Quotient(n, d)
    ensures Remainder(n * magic, 0x1_0000) < magic <==> Remainder(n, d) == 0
    ensures magic == 0x1_0000 / d + 1
  {
    if d == 10 {
      MagicTest(n, 10, magic, 4, 0x1_0000);
      MagicDivision(n, 10, magic, 4, 0x1_0000);
    } else {
      MagicTest(n, 100, magic, 64, 0x1_0000);
      MagicDivision(n, 100, magic, 64, 0x1_0000);
    }
  }
}
