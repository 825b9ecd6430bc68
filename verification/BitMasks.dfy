/** The bit masks of the program, on unbounded naturals: for a power of two n, `x & (n - 1)` is the
    remainder and `x & ~(n - 1)` clears it. */
module BitMasks {
  import opened BlockArithmetic

  function And(x: nat, y: nat): nat {
    if x == 0 || y == 0 then 0 else (x % 2) * (y % 2) + 2 * And(x / 2, y / 2)
  }

  lemma {:induction false} MaskIsRemainder(x: nat, n: nat)
    requires n > 0 && IsPowerOfTwo(n)
    ensures And(x, n - 1) == x % n
    decreases n
  {
    if n == 1 {
    } else if x == 0 {
      QuotientUnique(0, n, 0, 0);
    } else {
      var h := n / 2;
      MaskIsRemainder(x / 2, h);
      assert n - 1 == 2 * (h - 1) + 1;
      assert (n - 1) / 2 == h - 1 && (n - 1) % 2 == 1;
      HalfRemainder(x, h);
      if h == 1 {
        assert And(x / 2, 0) == 0;
      }
    }
  }

  lemma HalfRemainder(x: nat, h: nat)
    requires h > 0
    ensures x % (2 * h) == x % 2 + 2 * (x / 2 % h)
  {
    var q, r := x / 2 / h, x / 2 % h;
    assert x / 2 == h * q + r;
    assert x == 2 * (h * q + r) + x % 2;
    assert 2 * (h * q) == (2 * h) * q;
    QuotientUnique(x, 2 * h, q, x % 2 + 2 * r);
  }

  /** Within words of w values, a power of two, the complement of n - 1 is w - n. */
  lemma {:induction false} ClearedIsBase(x: nat, n: nat, w: nat)
    requires n > 0 && IsPowerOfTwo(n) && IsPowerOfTwo(w) && n <= w && x < w
    ensures And(x, w - n) == x - x % n
    decreases w
  {
    if n == w {
      QuotientUnique(x, n, 0, x);
    } else if n == 1 {
      AllOnes(x, w);
    } else if x == 0 {
      QuotientUnique(0, n, 0, 0);
    } else {
      var h, v := n / 2, w / 2;
      assert w - n == 2 * (v - h);
      assert (w - n) / 2 == v - h && (w - n) % 2 == 0;
      ClearedIsBase(x / 2, h, v);
      HalfRemainder(x, h);
    }
  }

  lemma {:induction false} AllOnes(x: nat, w: nat)
    requires w > 0 && IsPowerOfTwo(w) && x < w
    ensures And(x, w - 1) == x
  {
    MaskIsRemainder(x, w);
    QuotientUnique(x, w, 0, x);
  }

  /** The masks that the queue applies to indices. */
  lemma BlockMasks(i: nat, w: nat)
    requires IsPowerOfTwo(w) && i < w && BLOCK_SIZE <= w
    ensures And(i, BLOCK_SIZE - 1) == Off(i)
    ensures And(i, w - BLOCK_SIZE) == Base(Blk(i))
  {
    MaskIsRemainder(i, BLOCK_SIZE);
    ClearedIsBase(i, BLOCK_SIZE, w);
    BlockIsQuotient(i);
  }
}
