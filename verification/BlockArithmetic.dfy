/** Index arithmetic shared by both kinds of sub-queue: positions within blocks and in circular arrays.

    The functions are recursive so that proofs about them stay linear; `BlockIsQuotient`,
    `OffsetIsRemainder`, `SignedQuotientTruncates` and `ModIsRemainder` tie them to the operators of the
    program, and module `BitMasks` ties those to its bit masks. */
module BlockArithmetic {

  predicate IsPowerOfTwo(n: nat) {
    n == 1 || (n > 1 && n % 2 == 0 && IsPowerOfTwo(n / 2))
  }

  /** Any power of two that is at least two. */
  type BlockSize = n: nat | n >= 2 && IsPowerOfTwo(n) witness 2

  const BLOCK_SIZE: BlockSize

  // Positions in a circular array.

  function Mod(x: int, m: nat): (r: nat)
    requires m > 0
    ensures r < m
    decreases if x < 0 then m - x else x
  {
    if x < 0 then Mod(x + m, m) else if x < m then x else Mod(x - m, m)
  }

  lemma {:induction false} ModShift(x: int, m: nat)
    requires m > 0
    ensures Mod(x + m, m) == Mod(x, m)
    decreases if x < 0 then m - x else x
  {
    if x < 0 {
    } else {
      assert x + m - m == x;
    }
  }

  lemma {:induction false} ModNext(x: int, m: nat)
    requires m > 0
    ensures Mod(x + 1, m) == if Mod(x, m) + 1 == m then 0 else Mod(x, m) + 1
    decreases if x < 0 then m - x else x
  {
    if x < 0 {
      ModNext(x + m, m);
      ModShift(x + 1, m);
    } else if x >= m {
      ModNext(x - m, m);
      ModShift(x - m + 1, m);
    } else if x + 1 == m {
      assert Mod(x + 1, m) == Mod(0, m);
    }
  }

  lemma {:induction false} ModAdd(x: int, d: int, m: nat)
    requires m > 0
    ensures Mod(Mod(x, m) + d, m) == Mod(x + d, m)
    decreases if x < 0 then m - x else x
  {
    if x < 0 {
      ModAdd(x + m, d, m);
      ModShift(x + d, m);
    } else if x >= m {
      ModAdd(x - m, d, m);
      ModShift(x + d - m, m);
    }
  }

  /** Fewer than m apart, two positions are in different slots. */
  lemma {:induction false} ModDistinct(x: int, y: int, m: nat)
    requires x < y < x + m
    ensures Mod(x, m) != Mod(y, m)
    decreases if x < 0 then m - x else x
  {
    if x < 0 {
      ModDistinct(x + m, y + m, m);
      ModShift(x, m);
      ModShift(y, m);
    } else if x >= m {
      ModDistinct(x - m, y - m, m);
      ModShift(x - m, m);
      ModShift(y - m, m);
    } else if y >= m {
      ModShift(y - m, m);
    }
  }

  lemma {:induction false} ModIsRemainder(x: int, m: nat)
    requires m > 0
    ensures Mod(x, m) == x % m
    decreases if x < 0 then m - x else x
  {
    if x < 0 {
      ModIsRemainder(x + m, m);
      RemainderShift(x, m);
    } else if x >= m {
      ModIsRemainder(x - m, m);
      RemainderShift(x - m, m);
    } else {
      QuotientUnique(x, m, 0, x);
    }
  }

  /** The quotient and the remainder are determined by the equation they satisfy. */
  lemma QuotientUnique(x: int, m: nat, q: int, r: int)
    requires m > 0 && x == m * q + r && 0 <= r < m
    ensures x / m == q && x % m == r
  {
    Separated(m, q, r, x / m, x % m);
  }

  lemma Separated(m: nat, q: int, r: int, q': int, r': int)
    requires 0 <= r < m && 0 <= r' < m && m * q + r == m * q' + r'
    ensures q == q' && r == r'
  {
    assert m * (q - q') == m * q - m * q';
    assert m * (q' - q) == m * q' - m * q;
    if q > q' {
      Multiple(m, q - q');
    } else if q < q' {
      Multiple(m, q' - q);
    }
  }

  lemma Multiple(m: nat, k: int)
    requires k >= 1
    ensures m * k >= m
  {
    assert m * (k - 1) >= 0;
    assert m * (k - 1) == m * k - m;
  }

  lemma RemainderShift(x: int, m: nat)
    requires m > 0
    ensures (x + m) % m == x % m && (x + m) / m == x / m + 1
  {
    assert x + m == m * (x / m + 1) + x % m;
    QuotientUnique(x + m, m, x / m + 1, x % m);
  }

  // Blocks.

  /** The number of the block that holds index i, counting from the start of the sub-queue. */
  function Blk(i: nat): nat {
    if i < BLOCK_SIZE then 0 else 1 + Blk(i - BLOCK_SIZE)
  }

  /** The offset of index i in its block: `i & (BLOCK_SIZE - 1)`. */
  function Off(i: nat): (o: nat)
    ensures o < BLOCK_SIZE
  {
    if i < BLOCK_SIZE then i else Off(i - BLOCK_SIZE)
  }

  /** The first index of block q. */
  function Base(q: nat): nat {
    if q == 0 then 0 else Base(q - 1) + BLOCK_SIZE
  }

  lemma OffsetIsMod(i: nat)
    ensures Off(i) == Mod(i, BLOCK_SIZE)
  {
    hide Off, Mod;
    BlockIsQuotient(i);
    ModIsRemainder(i, BLOCK_SIZE);
  }

  /** Signed division by the block size, rounding toward zero. */
  function SignedQuotient(d: int): int
    decreases if d < 0 then -d else d
  {
    if d >= BLOCK_SIZE then 1 + SignedQuotient(d - BLOCK_SIZE)
    else if d + BLOCK_SIZE <= 0 then SignedQuotient(d + BLOCK_SIZE) - 1
    else 0
  }

  lemma {:induction false} Split(i: nat)
    ensures Base(Blk(i)) + Off(i) == i
    ensures Base(Blk(i)) <= i < Base(Blk(i) + 1)
  {
    if i >= BLOCK_SIZE {
      Split(i - BLOCK_SIZE);
    }
  }

  lemma {:induction false} BaseGrows(p: nat, q: nat)
    requires p <= q
    ensures Base(p) + (q - p) <= Base(q)
    ensures p < q ==> Base(p) + BLOCK_SIZE <= Base(q)
  {
    if p < q {
      BaseGrows(p, q - 1);
    }
  }

  /** Being below the start of block q is being in an earlier block. */
  lemma BelowBase(i: nat, q: nat)
    ensures i < Base(q) <==> Blk(i) < q
  {
    Split(i);
    if Blk(i) < q {
      BaseGrows(Blk(i) + 1, q);
    } else {
      BaseGrows(q, Blk(i));
    }
  }

  lemma Located(q: nat, o: nat)
    requires o < BLOCK_SIZE
    ensures Blk(Base(q) + o) == q && Off(Base(q) + o) == o
  {
    var i := Base(q) + o;
    Split(i);
    BelowBase(i, q);
    BelowBase(i, q + 1);
  }

  lemma NextInBlock(i: nat)
    ensures Off(i) + 1 < BLOCK_SIZE ==> Blk(i + 1) == Blk(i) && Off(i + 1) == Off(i) + 1
    ensures Off(i) + 1 == BLOCK_SIZE ==> Blk(i + 1) == Blk(i) + 1 && Off(i + 1) == 0
    ensures Off(i) == 0 <==> i == Base(Blk(i))
  {
    Split(i);
    if Off(i) + 1 < BLOCK_SIZE {
      Located(Blk(i), Off(i) + 1);
    } else {
      Located(Blk(i) + 1, 0);
    }
  }

  lemma {:induction false} QuotientOfBases(p: nat, q: nat)
    ensures SignedQuotient(Base(q) - Base(p)) == q - p
    decreases p + q
  {
    if p < q {
      QuotientOfBases(p, q - 1);
      BaseGrows(p, q);
      BaseGrows(p, q - 1);
      assert Base(q) - Base(p) - BLOCK_SIZE == Base(q - 1) - Base(p);
    } else if q < p {
      QuotientOfBases(p - 1, q);
      BaseGrows(q, p);
      BaseGrows(q, p - 1);
      assert Base(q) - Base(p) + BLOCK_SIZE == Base(q) - Base(p - 1);
    }
  }

  lemma {:induction false} BlockIsQuotient(i: nat)
    ensures Blk(i) == i / BLOCK_SIZE && Off(i) == i % BLOCK_SIZE
    ensures Base(Blk(i)) == i - i % BLOCK_SIZE
  {
    if i >= BLOCK_SIZE {
      BlockIsQuotient(i - BLOCK_SIZE);
      RemainderShift(i - BLOCK_SIZE, BLOCK_SIZE);
    } else {
      QuotientUnique(i, BLOCK_SIZE, 0, i);
    }
    Split(i);
  }

  lemma {:induction false} SignedQuotientTruncates(d: int)
    ensures SignedQuotient(d) == if d >= 0 then d / BLOCK_SIZE else -((-d) / BLOCK_SIZE)
    decreases if d < 0 then -d else d
  {
    if d >= BLOCK_SIZE {
      SignedQuotientTruncates(d - BLOCK_SIZE);
      RemainderShift(d - BLOCK_SIZE, BLOCK_SIZE);
    } else if d + BLOCK_SIZE <= 0 {
      SignedQuotientTruncates(d + BLOCK_SIZE);
      RemainderShift(-d - BLOCK_SIZE, BLOCK_SIZE);
    } else if d >= 0 {
      QuotientUnique(d, BLOCK_SIZE, 0, d);
    } else {
      QuotientUnique(-d, BLOCK_SIZE, 0, -d);
    }
  }
}
