/** The counters of the program are 64-bit words that wrap around; the other modules count without bound.
    Here the two are shown to agree: as long as the live counters lie in a window of less than half the
    range, the unsigned protocol makes the same decisions and finds the same slots. */
module Wraparound {
  import opened BlockArithmetic
  import Tickets

  const RANGE: int := 0x1_0000_0000_0000_0000
  const HALF: int := 0x8000_0000_0000_0000

  function Wrap(x: int): (w: nat)
    ensures w < RANGE
  {
    x % RANGE
  }

  function Minus(a: nat, b: nat): nat {
    Wrap(a - b)
  }

  /** The reading of a word as a signed number of the same width. */
  function Signed(a: nat): int {
    if a < HALF then a else a - RANGE
  }

  /** circular_less_than. */
  predicate CircularLess(a: nat, b: nat) {
    Minus(a, b) > HALF
  }

  lemma WrapDifference(x: int, y: int)
    ensures Wrap(Wrap(x) - Wrap(y)) == Wrap(x - y)
    ensures Wrap(Wrap(x) + Wrap(y)) == Wrap(x + y)
    ensures Wrap(Wrap(x) + y) == Wrap(x + y)
  {
    var a, b := x / RANGE, y / RANGE;
    WholeTurns(x - y, -a + b);
    WholeTurns(x + y, -a - b);
    WholeTurns(x + y, -a);
  }

  lemma WholeTurns(x: int, k: int)
    ensures Wrap(x + RANGE * k) == Wrap(x)
  {
    assert x == RANGE * (x / RANGE) + Wrap(x);
    assert RANGE * (x / RANGE + k) == RANGE * (x / RANGE) + RANGE * k;
    QuotientUnique(x + RANGE * k, RANGE, x / RANGE + k, Wrap(x));
  }

  lemma WrapSmall(x: int)
    ensures 0 <= x < RANGE ==> Wrap(x) == x
    ensures -RANGE <= x < 0 ==> Wrap(x) == x + RANGE
  {
  }

  /** circular_less_than orders two wrapped counters correctly exactly up to half the range apart. */
  lemma CircularLessExact(x: int, y: int)
    requires -RANGE < x - y < RANGE
    ensures (CircularLess(Wrap(x), Wrap(y)) <==> x < y) <==> -HALF < x - y <= HALF
  {
    WrapDifference(x, y);
    WrapSmall(x - y);
  }

  lemma SignedExact(d: int)
    requires -HALF <= d < HALF
    ensures Signed(Wrap(d)) == d
  {
    WrapSmall(d);
  }

  // The room check of enqueue.

  /** The check on the head refuses a new block exactly when the filled block could put the tail half the
      range or more ahead of the head that was read. */
  lemma RoomCheckExact(head: nat, tail: nat)
    requires head <= tail && tail + BLOCK_SIZE - head < RANGE
    ensures CircularLess(Wrap(head), Wrap(Wrap(tail) + BLOCK_SIZE)) <==> tail + BLOCK_SIZE - head < HALF
  {
    WrapDifference(tail, BLOCK_SIZE);
    WrapDifference(head, tail + BLOCK_SIZE);
    WrapSmall(head - (tail + BLOCK_SIZE));
  }

  // The slot of a block.

  /** Every power of two up to the range divides the range. */
  lemma {:induction false} DividesRange(n: nat, w: nat) returns (k: nat)
    requires n > 0 && IsPowerOfTwo(n) && IsPowerOfTwo(w) && n <= w
    ensures w == n * k
    decreases w
  {
    if n == 1 {
      k := w;
    } else {
      k := DividesRange(n / 2, w / 2);
      assert 2 * ((n / 2) * k) == (2 * (n / 2)) * k;
    }
  }

  lemma {:induction false} PowersMultiply(a: nat, b: nat)
    requires IsPowerOfTwo(a) && IsPowerOfTwo(b)
    ensures IsPowerOfTwo(a * b)
  {
    if b > 1 {
      PowersMultiply(a, b / 2);
      TwiceProduct(a, b / 2);
    }
  }

  lemma TwiceProduct(a: nat, h: nat)
    ensures a * (2 * h) == 2 * (a * h)
  {
  }

  lemma Sixteen()
    ensures IsPowerOfTwo(16)
  {
  }

  lemma RangeIsPowerOfTwo()
    ensures IsPowerOfTwo(RANGE)
  {
    hide IsPowerOfTwo;
    Sixteen();
    PowersMultiply(16, 16);
    PowersMultiply(0x100, 0x100);
    PowersMultiply(0x1_0000, 0x1_0000);
    PowersMultiply(0x1_0000_0000, 0x1_0000_0000);
  }

  lemma RemainderTwice(x: int, w: nat, n: nat, k: nat)
    requires n > 0 && w > 0 && w == n * k
    ensures (x % w) % n == x % n
  {
    var j, r := x / w, x % w;
    assert x == w * j + r;
    var i, u := r / n, r % n;
    assert r == n * i + u;
    Regroup(n, k, j, i);
    QuotientUnique(x, n, k * j + i, u);
  }

  lemma Regroup(n: int, k: int, j: int, i: int)
    ensures (n * k) * j + n * i == n * (k * j + i)
  {
    assert (n * k) * j == n * (k * j);
  }

  /** Wrapping does not change the remainder modulo a power of two. */
  lemma WrapThenMod(x: int, n: nat)
    requires n > 0 && IsPowerOfTwo(n) && n <= RANGE
    ensures Mod(Wrap(x), n) == Mod(x, n)
  {
    RangeIsPowerOfTwo();
    var k := DividesRange(n, RANGE);
    RemainderTwice(x, RANGE, n, k);
    ModIsRemainder(x, n);
    ModIsRemainder(Wrap(x), n);
  }

  /** The slot that the program computes: signed division of the wrapped distance between the wrapped
      bases, cast back to unsigned, added to the front and masked. */
  function SlotOf(front: nat, blockBase: nat, headBase: nat, size: nat): nat
    requires size > 0
  {
    Mod(Wrap(front + Wrap(SignedQuotient(Signed(Minus(blockBase, headBase))))), size)
  }

  /** It is the slot that the unbounded protocol computes (`ExplicitIndex.ComputedSlot` and
      `ImplicitIndex.ComputedSlot`), for blocks less than half the range apart. */
  lemma SameSlot(front: nat, q: nat, p: nat, size: nat)
    requires size > 0 && IsPowerOfTwo(size) && size <= RANGE
    requires -HALF <= Base(q) - Base(p) < HALF
    ensures SlotOf(front, Wrap(Base(q)), Wrap(Base(p)), size) == Mod(front + (q - p), size)
    ensures SlotOf(front, Wrap(Base(q)), Wrap(Base(p)), size) == Mod(front + SignedQuotient(Base(q) - Base(p)), size)
  {
    hide Wrap, Signed, Base, Mod, SignedQuotient;
    WrapDifference(Base(q), Base(p));
    SignedExact(Base(q) - Base(p));
    QuotientOfBases(p, q);
    WrapDifference(q - p, front);
    WrapThenMod(front + (q - p), size);
  }

  // Indices held in words.

  /** Two indices less than the range apart are the same if their words are. */
  lemma SameWord(x: int, y: int)
    requires -RANGE < x - y < RANGE
    ensures Wrap(x) == Wrap(y) <==> x == y
  {
    if Wrap(x) == Wrap(y) {
      WrapDifference(x, y);
      WrapSmall(x - y);
    }
  }

  lemma OffsetOfWord(x: nat)
    requires BLOCK_SIZE <= RANGE
    ensures Off(Wrap(x)) == Off(x)
  {
    hide Wrap, Off, Mod;
    WrapThenMod(x, BLOCK_SIZE);
    OffsetIsMod(x);
    OffsetIsMod(Wrap(x));
  }

  /** The offset in a block and the base of the block, computed from the word. */
  lemma WordInBlock(x: nat)
    requires BLOCK_SIZE <= RANGE
    ensures Off(Wrap(x)) == Off(x) && Base(Blk(Wrap(x))) == Wrap(Base(Blk(x)))
  {
    hide Wrap, Base, Blk, Off;
    OffsetOfWord(x);
    Split(x);
    Split(Wrap(x));
    WrapDifference(x, 0 - Off(x));
    WrapSmall(Wrap(x) - Off(x));
  }

  /** endIndex of dequeue_bulk: the end of the claim or of the block, whichever comes first. */
  function EndIndex(end: nat, index: nat): nat {
    var blockEnd := Wrap(Base(Blk(index)) + BLOCK_SIZE);
    if CircularLess(end, blockEnd) then end else blockEnd
  }

  lemma EndIndexExact(end: nat, index: nat)
    requires BLOCK_SIZE <= RANGE && -HALF < end - (Base(Blk(index)) + BLOCK_SIZE) < HALF
    ensures EndIndex(Wrap(end), Wrap(index)) == Wrap(if end < Base(Blk(index)) + BLOCK_SIZE then end else Base(Blk(index)) + BLOCK_SIZE)
  {
    hide Wrap, Base, Blk, CircularLess;
    WordInBlock(index);
    WrapDifference(Base(Blk(index)), BLOCK_SIZE);
    CircularLessExact(end, Base(Blk(index)) + BLOCK_SIZE);
  }

  /** The slot computed from the word of an index. */
  lemma SlotOfWord(front: nat, index: nat, p: nat, size: nat)
    requires BLOCK_SIZE <= RANGE && size > 0 && IsPowerOfTwo(size) && size <= RANGE
    requires -HALF <= Base(Blk(index)) - Base(p) < HALF
    ensures SlotOf(front, Base(Blk(Wrap(index))), Wrap(Base(p)), size) == Mod(front + SignedQuotient(Base(Blk(index)) - Base(p)), size)
  {
    WordInBlock(index);
    SameSlot(front, Blk(index), p, size);
  }

  lemma DistanceExact(x: int, y: int)
    requires 0 <= x - y < RANGE
    ensures Minus(Wrap(x), Wrap(y)) == x - y
  {
    WrapDifference(x, y);
    WrapSmall(x - y);
  }

  /** Counting a word down to another one. */
  lemma PreviousWord(x: nat, y: nat)
    requires BLOCK_SIZE <= RANGE && y < x && x - y < RANGE
    ensures Minus(Wrap(x), 1) == Wrap(x - 1) && Off(Wrap(x - 1)) == Off(x - 1)
    ensures Wrap(x - 1) == Wrap(y) <==> x - 1 == y
  {
    WrapDifference(x, -1);
    WordInBlock(x - 1);
    SameWord(x - 1, y);
  }

  // The ticket protocol on words.

  datatype Local = Local(
    pc: Tickets.Pc, max: nat, tail: nat, overcommit: nat, desired: nat, myCount: nat, actual: nat, first: nat, got: nat)

  datatype State = State(tail: nat, head: nat, optimistic: nat, overcommit: nat, threads: seq<Local>)

  function WithThread(s: State, t: nat, l: Local): State
    requires t < |s.threads|
  {
    s.(threads := s.threads[t := l])
  }

  /** The steps of dequeue_bulk with its unsigned arithmetic and its comparisons. */
  function StepThread(s: State, t: nat, max: nat): State
    requires t < |s.threads|
  {
    var l := s.threads[t];
    match l.pc
    case Idle =>
      WithThread(s, t, l.(pc := Tickets.ReadOvercommit, max := max, tail := s.tail, got := 0))
    case ReadOvercommit =>
      WithThread(s, t, l.(pc := Tickets.ReadOptimistic, overcommit := s.overcommit))
    case ReadOptimistic =>
      var desired := Minus(l.tail, Minus(s.optimistic, l.overcommit));
      if CircularLess(0, desired) then
        WithThread(s, t, l.(pc := Tickets.Draw, desired := Tickets.Min(desired, l.max)))
      else WithThread(s, t, l.(pc := Tickets.Idle))
    case Draw =>
      WithThread(s, t, l.(pc := Tickets.ReadTail, myCount := s.optimistic)).(optimistic := Wrap(s.optimistic + l.desired))
    case ReadTail =>
      var available := Minus(s.tail, Minus(l.myCount, l.overcommit));
      if CircularLess(0, available) then
        var actual := Tickets.Min(l.desired, available);
        WithThread(s, t,
          l.(pc := if actual < l.desired then Tickets.ReturnSurplus else Tickets.ClaimHead, tail := s.tail, actual := actual))
      else WithThread(s, t, l.(pc := Tickets.ReturnAll, tail := s.tail, actual := 0))
    case ReturnSurplus =>
      WithThread(s, t, l.(pc := Tickets.ClaimHead)).(overcommit := Wrap(s.overcommit + Minus(l.desired, l.actual)))
    case ReturnAll =>
      WithThread(s, t, l.(pc := Tickets.Idle)).(overcommit := Wrap(s.overcommit + l.desired))
    case ClaimHead =>
      WithThread(s, t, l.(pc := Tickets.Idle, first := s.head, got := l.actual)).(head := Wrap(s.head + l.actual))
  }

  function Step(s: State, e: Tickets.Event): State {
    match e
    case Publish(count) => s.(tail := Wrap(s.tail + count))
    case Run(t, max) => if t < |s.threads| then StepThread(s, t, max) else s
  }

  /** The words that hold a state of the unbounded protocol. */
  function WrapLocal(l: Tickets.Local): Local {
    Local(l.pc, l.max, Wrap(l.tail), Wrap(l.overcommit), l.desired, Wrap(l.myCount), l.actual, Wrap(l.first), l.got)
  }

  function WrapState(s: Tickets.State): State {
    State(Wrap(s.tail), Wrap(s.head), Wrap(s.optimistic), Wrap(s.overcommit),
      seq(|s.threads|, t requires 0 <= t < |s.threads| => WrapLocal(s.threads[t])))
  }

  /** The counters that thread l is about to compare lie less than half the range apart, and a count it
      is about to hand back is a word. */
  predicate InWindow(s: Tickets.State, l: Tickets.Local) {
    match l.pc
    case ReadOptimistic => -HALF < l.tail - (s.optimistic - l.overcommit) < HALF
    case ReadTail => -HALF < s.tail - (l.myCount - l.overcommit) < HALF
    case ReturnSurplus => l.desired < RANGE
    case _ => true
  }

  /** An unsigned three-term difference compared with zero. */
  lemma CompareExact(t: int, a: int, b: int)
    requires -HALF < t - (a - b) < HALF
    ensures var d := Minus(Wrap(t), Minus(Wrap(a), Wrap(b)));
      && (CircularLess(0, d) <==> t - (a - b) > 0)
      && (t - (a - b) > 0 ==> d == t - (a - b))
  {
    WrapDifference(a, b);
    WrapDifference(t, a - b);
    WrapSmall(t - (a - b));
    WrapSmall(0 - Wrap(t - (a - b)));
  }

  /** One step of the word protocol from a wrapped state is the wrapped step of the unbounded protocol. */
  lemma StepsAgree(s: Tickets.State, e: Tickets.Event)
    requires Tickets.Inv(s)
    requires e.Run? && e.t < |s.threads| ==> InWindow(s, s.threads[e.t])
    ensures WrapState(Tickets.Step(s, e)) == Step(WrapState(s), e)
  {
    match e
    case Publish(count) => WrapDifference(s.tail, count);
    case Run(t, max) =>
      if t < |s.threads| {
        assert Tickets.ThreadOk(s, s.threads[t]);
        ThreadsAgree(s, t, max);
      }
  }

  lemma ThreadsAgree(s: Tickets.State, t: nat, max: nat)
    requires t < |s.threads| && InWindow(s, s.threads[t])
    requires s.threads[t].pc == Tickets.ReturnSurplus ==> s.threads[t].actual <= s.threads[t].desired
    ensures WrapState(Tickets.StepThread(s, t, max)) == StepThread(WrapState(s), t, max)
  {
    hide Wrap, Minus, CircularLess, InWindow;
    var l := s.threads[t];
    assert WrapState(s).threads[t] == WrapLocal(l);
    match l.pc {
      case ReadOptimistic => OptimisticAgrees(s, t, max);
      case ReadTail => TailAgrees(s, t, max);
      case Draw => WrapDifference(s.optimistic, l.desired);
      case ReturnAll => WrapDifference(s.overcommit, l.desired);
      case ReturnSurplus => SurplusAgrees(s, l);
      case ClaimHead => WrapDifference(s.head, l.actual);
      case _ =>
    }
    assert WrapState(Tickets.StepThread(s, t, max)).threads == StepThread(WrapState(s), t, max).threads;
  }

  lemma SurplusAgrees(s: Tickets.State, l: Tickets.Local)
    requires InWindow(s, l) && l.pc == Tickets.ReturnSurplus && l.actual <= l.desired
    ensures Wrap(Wrap(s.overcommit) + Minus(l.desired, l.actual)) == Wrap(s.overcommit + (l.desired - l.actual))
  {
    WrapSmall(l.desired - l.actual);
    WrapDifference(s.overcommit, l.desired - l.actual);
  }

  lemma OptimisticAgrees(s: Tickets.State, t: nat, max: nat)
    requires t < |s.threads| && s.threads[t].pc == Tickets.ReadOptimistic && InWindow(s, s.threads[t])
    ensures WrapState(Tickets.StepThread(s, t, max)) == StepThread(WrapState(s), t, max)
  {
    var l := s.threads[t];
    CompareExact(l.tail, s.optimistic, l.overcommit);
    hide Wrap, Minus, CircularLess;
    assert WrapState(s).threads[t] == WrapLocal(l);
    assert WrapState(Tickets.StepThread(s, t, max)).threads == StepThread(WrapState(s), t, max).threads;
  }

  lemma TailAgrees(s: Tickets.State, t: nat, max: nat)
    requires t < |s.threads| && s.threads[t].pc == Tickets.ReadTail && InWindow(s, s.threads[t])
    ensures WrapState(Tickets.StepThread(s, t, max)) == StepThread(WrapState(s), t, max)
  {
    var l := s.threads[t];
    CompareExact(s.tail, l.myCount, l.overcommit);
    hide Wrap, Minus, CircularLess;
    assert WrapState(s).threads[t] == WrapLocal(l);
    assert WrapState(Tickets.StepThread(s, t, max)).threads == StepThread(WrapState(s), t, max).threads;
  }

  function Execute(s: State, schedule: seq<Tickets.Event>): State {
    if schedule == [] then s
    else Step(Execute(s, schedule[..|schedule| - 1]), schedule[|schedule| - 1])
  }

  /** Every comparison along the schedule is between counters less than half the range apart. */
  ghost predicate StaysInWindow(n: nat, schedule: seq<Tickets.Event>) {
    schedule != [] ==>
      var before, e := schedule[..|schedule| - 1], schedule[|schedule| - 1];
      && StaysInWindow(n, before)
      && (e.Run? && e.t < |Tickets.Execute(Tickets.Init(n), before).threads| ==>
            InWindow(Tickets.Execute(Tickets.Init(n), before), Tickets.Execute(Tickets.Init(n), before).threads[e.t]))
  }

  /** Whole runs agree: with wrapping counters every thread makes the decisions, gets the counts and claims
      the (wrapped) indices of the unbounded protocol, so what `Tickets` proves of the latter carries over. */
  lemma {:induction false} RunsAgree(n: nat, schedule: seq<Tickets.Event>)
    requires StaysInWindow(n, schedule)
    ensures WrapState(Tickets.Execute(Tickets.Init(n), schedule)) == Execute(WrapState(Tickets.Init(n)), schedule)
  {
    if schedule != [] {
      var before := schedule[..|schedule| - 1];
      RunsAgree(n, before);
      Tickets.EveryRun(n, before);
      StepsAgree(Tickets.Execute(Tickets.Init(n), before), schedule[|schedule| - 1]);
    }
  }

  // Which runs stay in the window.

  predicate LocalBelow(l: Tickets.Local, b: nat, m: nat) {
    l.tail <= b && l.overcommit <= b && l.myCount <= b && l.max <= m && l.desired <= m
  }

  /** No counter exceeds `b`, and no dequeue in progress asks for more than `m`. */
  ghost predicate Below(s: Tickets.State, b: nat, m: nat) {
    && s.tail <= b && s.optimistic <= b && s.overcommit <= b
    && forall t :: 0 <= t < |s.threads| ==> LocalBelow(s.threads[t], b, m)
  }

  /** At most `m` elements are enqueued or asked for. */
  predicate Moderate(e: Tickets.Event, m: nat) {
    match e
    case Publish(count) => count <= m
    case Run(_, max) => max <= m
  }

  lemma ThreadBelow(s: Tickets.State, t: nat, max: nat, b: nat, m: nat)
    requires t < |s.threads| && max <= m && s.tail <= b && s.optimistic <= b && s.overcommit <= b
    requires LocalBelow(s.threads[t], b, m)
    ensures var s' := Tickets.StepThread(s, t, max);
      && s'.threads == s.threads[t := s'.threads[t]] && LocalBelow(s'.threads[t], b, m)
      && s'.tail == s.tail && s'.optimistic <= b + m && s'.overcommit <= b + m
  {
    hide Tickets.Recorded, Tickets.HandedBack, Tickets.Taken, Tickets.Repeat;
  }

  lemma StepBelow(s: Tickets.State, e: Tickets.Event, b: nat, m: nat)
    requires Below(s, b, m) && Moderate(e, m)
    ensures Below(Tickets.Step(s, e), b + m, m)
  {
    hide Tickets.StepThread;
    match e
    case Publish(count) =>
    case Run(t, max) =>
      if t < |s.threads| {
        ThreadBelow(s, t, max, b, m);
      }
  }

  lemma {:induction false} RunBelow(n: nat, schedule: seq<Tickets.Event>, m: nat)
    requires forall i :: 0 <= i < |schedule| ==> Moderate(schedule[i], m)
    ensures Below(Tickets.Execute(Tickets.Init(n), schedule), |schedule| * m, m)
  {
    hide Tickets.Step, Moderate;
    if schedule != [] {
      var before := schedule[..|schedule| - 1];
      RunBelow(n, before, m);
      StepBelow(Tickets.Execute(Tickets.Init(n), before), schedule[|schedule| - 1], |before| * m, m);
      OneMoreTime(|before|, m);
    }
  }

  lemma OneMoreTime(k: nat, m: nat)
    ensures (k + 1) * m == k * m + m && k * m <= (k + 1) * m && m <= (k + 1) * m
  {
    assert k * m >= 0;
  }

  lemma StillBelow(s: Tickets.State, b: nat, b': nat, m: nat)
    requires Below(s, b, m) && b <= b'
    ensures Below(s, b', m)
  {
    forall t | 0 <= t < |s.threads| ensures LocalBelow(s.threads[t], b', m) {
      assert LocalBelow(s.threads[t], b, m);
    }
  }

  lemma BelowIsNear(s: Tickets.State, t: nat, b: nat, m: nat)
    requires Below(s, b, m) && 2 * b < HALF && m < RANGE && t < |s.threads|
    ensures InWindow(s, s.threads[t])
  {
    assert LocalBelow(s.threads[t], b, m);
  }

  /** No run leaves the window in which fewer than a quarter of the range of elements can have been
      enqueued or asked for: that many steps of at most `m` elements each. */
  lemma {:induction false} ShortRunsStay(n: nat, schedule: seq<Tickets.Event>, m: nat)
    requires forall i :: 0 <= i < |schedule| ==> Moderate(schedule[i], m)
    requires 2 * (|schedule| * m) < HALF
    ensures StaysInWindow(n, schedule)
  {
    hide Tickets.Execute, Tickets.Init, Moderate, InWindow, Below;
    if schedule != [] {
      var before, e := schedule[..|schedule| - 1], schedule[|schedule| - 1];
      OneMoreTime(|before|, m);
      ShortRunsStay(n, before, m);
      RunBelow(n, before, m);
      if e.Run? && e.t < |Tickets.Execute(Tickets.Init(n), before).threads| {
        BelowIsNear(Tickets.Execute(Tickets.Init(n), before), e.t, |before| * m, m);
      }
    }
  }
}
