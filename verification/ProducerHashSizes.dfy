/** How large the tables of producers get, and when a thread is added without waiting for a larger one. */
module ProducerHashSizes {
  import opened Options
  import opened BlockArithmetic
  import opened Tally
  import opened ProducerHash
  import ProducerHashCalls

  // Growth.

  lemma {:induction false} GrownFits(capacity: nat, newCount: nat)
    requires capacity > 0 && capacity % 2 == 0 && capacity <= 4 * newCount
    ensures Grown(capacity, newCount) <= 4 * newCount
    decreases if newCount >= capacity / 2 then newCount + 1 - capacity / 2 else 0
  {
    if newCount >= capacity / 2 {
      GrownFits(2 * capacity, newCount);
    }
  }

  /** A new table has at most four slots for each thread counted so far and at least twice as many as the last. */
  predicate SizeOk(tables: seq<Table>, count: nat, g: nat)
    requires 0 < g < |tables|
  {
    2 * tables[g - 1].capacity <= tables[g].capacity <= 4 * count
  }

  ghost predicate SizesOk(tables: seq<Table>, count: nat) {
    forall g :: 0 < g < |tables| ==> SizeOk(tables, count, g)
  }

  /** A thread about to publish a table has seen the last one at least half spoken for. */
  predicate Entitled(tables: seq<Table>, l: Local) {
    l.pc == PublishTable ==> l.main < |tables| && tables[l.main].capacity <= 2 * l.newCount
  }

  ghost predicate AllEntitled(s: State) {
    forall t {:trigger s.threads[t]} :: 0 <= t < |s.threads| ==> Entitled(s.tables, s.threads[t])
  }

  /** The tables keep their sizes; a new one is appended only by a thread that publishes. */
  ghost predicate Sizes(s: State, s': State, t: nat)
    requires t < |s.threads|
  {
    && |s'.threads| == |s.threads| && s'.threads == s.threads[t := s'.threads[t]] && s.count <= s'.count
    && |s.tables| <= |s'.tables| && (forall g :: 0 <= g < |s.tables| ==> s'.tables[g].capacity == s.tables[g].capacity)
    && var l, l' := s.threads[t], s'.threads[t];
      && (|s'.tables| > |s.tables| ==>
            && l.pc == PublishTable && l.main < |s.tables| && s.tables[l.main].capacity > 0
            && |s'.tables| == |s.tables| + 1
            && s'.tables[|s.tables|].capacity == Grown(2 * s.tables[l.main].capacity, l.newCount))
      && (l'.pc == PublishTable ==>
            && l'.newCount == l.newCount
            && (l.pc == ReloadMain ==>
                  l'.main < |s.tables| && l.newCount >= s.tables[l'.main].capacity / 2)
            && (l.pc != ReloadMain ==> l' == l))
  }

  lemma PublishSizes(s: State, t: nat)
    requires t < |s.threads| && |s.tables| > 0 && CanStep(s, t) && s.threads[t].pc == PublishTable
    ensures Sizes(s, StepThread(s, t), t)
  {
    hide Grown;
  }

  lemma StoreSizes(s: State, t: nat)
    requires t < |s.threads| && |s.tables| > 0 && CanStep(s, t)
    requires s.threads[t].pc in {Reinsert, WriteBack, Insert, WriteValue}
    ensures Sizes(s, StepThread(s, t), t)
  {
    hide Mod;
  }

  lemma RegisterSizes(s: State, t: nat)
    requires t < |s.threads| && |s.tables| > 0 && CanStep(s, t)
    requires s.threads[t].pc in {Idle, LoadMain, Probe, DrawCount, TryLock, ReloadMain, Unlock, CheckAdd, Create}
    ensures Sizes(s, StepThread(s, t), t)
  {
    hide Mod;
  }

  lemma StepSizes(s: State, t: nat)
    requires t < |s.threads| && |s.tables| > 0 && CanStep(s, t)
    ensures Sizes(s, Step(s, t), t)
  {
    hide StepThread, Sizes, CanStep;
    match s.threads[t].pc
    case PublishTable => PublishSizes(s, t);
    case Reinsert => StoreSizes(s, t);
    case WriteBack => StoreSizes(s, t);
    case Insert => StoreSizes(s, t);
    case WriteValue => StoreSizes(s, t);
    case _ => RegisterSizes(s, t);
  }

  /** What the invariant adds: whose count it is, and that the table about to be outgrown is the last one. */
  lemma CountsKnown(s: State, t: nat)
    requires Inv(s) && t < |s.threads|
    ensures CanStep(s, t) && |s.tables| > 0
    ensures var l := s.threads[t];
      && l.newCount <= s.count
      && (l.pc == PublishTable ==> l.main + 1 == |s.tables|)
      && (l.pc in {ReloadMain, PublishTable} ==> l.newCount > 0)
    ensures forall g :: 0 <= g < |s.tables| ==> s.tables[g].capacity == 1 || s.tables[g].capacity % 2 == 0
  {
    ProducerHashCalls.CanGoOn(s, t);
    assert ThreadOk(s, t);
    forall g | 0 <= g < |s.tables| ensures s.tables[g].capacity == 1 || s.tables[g].capacity % 2 == 0 {
      assert TableOk(s.tables[g], g, s.threads, s.owner);
    }
  }

  lemma SizesStay(s: State, t: nat)
    requires Inv(s) && SizesOk(s.tables, s.count) && AllEntitled(s)
    ensures SizesOk(Step(s, t).tables, Step(s, t).count) && AllEntitled(Step(s, t))
  {
    if t < |s.threads| {
      CountsKnown(s, t);
      StepSizes(s, t);
      hide Inv, Step, CanStep;
      TablesStay(s, Step(s, t), t);
      EntitledStay(s, Step(s, t), t);
    }
  }

  lemma TablesStay(s: State, s': State, t: nat)
    requires t < |s.threads| && Sizes(s, s', t) && |s.tables| > 0
    requires SizesOk(s.tables, s.count) && AllEntitled(s)
    requires s.threads[t].newCount <= s.count
    requires s.threads[t].pc == PublishTable ==> s.threads[t].main + 1 == |s.tables|
    ensures SizesOk(s'.tables, s'.count)
  {
    forall g | 0 < g < |s'.tables| ensures SizeOk(s'.tables, s'.count, g) {
      if g < |s.tables| {
        SizeStays(s, s', t, g);
      } else {
        NewSize(s, s', t);
      }
    }
  }

  lemma SizeStays(s: State, s': State, t: nat, g: nat)
    requires t < |s.threads| && Sizes(s, s', t) && 0 < g < |s.tables| && SizesOk(s.tables, s.count)
    ensures SizeOk(s'.tables, s'.count, g)
  {
    assert SizeOk(s.tables, s.count, g);
    assert s'.tables[g].capacity == s.tables[g].capacity && s'.tables[g - 1].capacity == s.tables[g - 1].capacity;
    hide SizesOk, Sizes;
  }

  lemma NewSize(s: State, s': State, t: nat)
    requires t < |s.threads| && Sizes(s, s', t) && AllEntitled(s) && 0 < |s.tables| < |s'.tables|
    requires s.threads[t].newCount <= s.count
    requires s.threads[t].pc == PublishTable ==> s.threads[t].main + 1 == |s.tables|
    ensures |s'.tables| == |s.tables| + 1 && SizeOk(s'.tables, s'.count, |s.tables|)
  {
    hide Grown;
    var l := s.threads[t];
    assert Entitled(s.tables, l);
    GrownFits(2 * s.tables[l.main].capacity, l.newCount);
    assert s'.tables[l.main].capacity == s.tables[l.main].capacity;
  }

  lemma EntitledStay(s: State, s': State, t: nat)
    requires t < |s.threads| && Sizes(s, s', t) && AllEntitled(s)
    requires s.threads[t].pc in {ReloadMain, PublishTable} ==> s.threads[t].newCount > 0
    requires forall g :: 0 <= g < |s.tables| ==> s.tables[g].capacity == 1 || s.tables[g].capacity % 2 == 0
    ensures AllEntitled(s')
  {
    hide Grown;
    forall u | 0 <= u < |s'.threads| ensures Entitled(s'.tables, s'.threads[u]) {
      assert Entitled(s.tables, s.threads[u]);
    }
  }

  lemma {:induction false} SizesInRun(hashes: seq<nat>, capacity: nat, schedule: seq<nat>)
    requires capacity > 0 && IsPowerOfTwo(capacity)
    ensures var s := Execute(Init(hashes, capacity), schedule); SizesOk(s.tables, s.count) && AllEntitled(s)
  {
    hide Inv, Step;
    if schedule != [] {
      var before := schedule[..|schedule| - 1];
      SizesInRun(hashes, capacity, before);
      EveryRun(hashes, capacity, before);
      SizesStay(Execute(Init(hashes, capacity), before), schedule[|before|]);
    }
  }

  lemma {:induction false} SameThreads(hashes: seq<nat>, capacity: nat, schedule: seq<nat>)
    requires capacity > 0 && IsPowerOfTwo(capacity)
    ensures |Execute(Init(hashes, capacity), schedule).threads| == |hashes|
  {
    hide Inv, Step;
    if schedule != [] {
      var before := schedule[..|schedule| - 1];
      SameThreads(hashes, capacity, before);
      EveryRun(hashes, capacity, before);
      var s := Execute(Init(hashes, capacity), before);
      var t := schedule[|before|];
      if t < |s.threads| {
        CountsKnown(s, t);
        StepSizes(s, t);
      } else {
        NobodySteps(s, t);
      }
    }
  }

  lemma NobodySteps(s: State, t: nat)
    requires t >= |s.threads|
    ensures Step(s, t) == s
  {
  }

  /** In every run each table is at least twice as large as the one before it, and none but the first has more than
      four slots for each thread, however the threads race to grow it. */
  lemma TablesFitTheThreads(hashes: seq<nat>, capacity: nat, schedule: seq<nat>, g: nat)
    requires capacity > 0 && IsPowerOfTwo(capacity)
    ensures var tables := Execute(Init(hashes, capacity), schedule).tables;
      0 < g < |tables| ==> 2 * tables[g - 1].capacity <= tables[g].capacity <= 4 * |hashes|
  {
    SizesInRun(hashes, capacity, schedule);
    ProducerHashCalls.RunCounted(hashes, capacity, schedule);
    SameThreads(hashes, capacity, schedule);
    hide Execute, Init;
    var s := Execute(Init(hashes, capacity), schedule);
    SumAtMost(s.threads, ProducerHashCalls.Drawn, 1);
    if 0 < g < |s.tables| {
      assert SizeOk(s.tables, s.count, g);
    }
  }

  // The resize lock.

  /** A taken lock is held by a thread that is growing the table or about to let go of it. */
  ghost predicate LockHeld(s: State) {
    s.lock.Some? ==>
      s.lock.value < |s.threads| && s.threads[s.lock.value].pc in {ReloadMain, PublishTable, Unlock}
  }

  lemma LockStays(s: State, t: nat)
    requires LockHeld(s)
    ensures LockHeld(Step(s, t))
  {
    hide Mod, Grown, SlotOf;
  }

  /** Between calls the resize lock is free. */
  lemma {:induction false} LockFreeBetweenCalls(hashes: seq<nat>, capacity: nat, schedule: seq<nat>)
    requires capacity > 0
    ensures var s := Execute(Init(hashes, capacity), schedule);
      LockHeld(s) && ((forall t :: 0 <= t < |s.threads| ==> s.threads[t].pc == Idle) ==> s.lock == None)
  {
    hide Step;
    if schedule != [] {
      LockFreeBetweenCalls(hashes, capacity, schedule[..|schedule| - 1]);
      LockStays(Execute(Init(hashes, capacity), schedule[..|schedule| - 1]), schedule[|schedule| - 1]);
    }
  }

  // Adding a thread while another one grows the table.

  /** With the resize lock taken by another thread, a thread is added to the table it knows exactly if the table, as
      the count stands, stays less than three quarters full; otherwise it looks again. */
  lemma AddedDuringGrowth(s: State, t: nat)
    requires Inv(s) && t < |s.threads| && s.threads[t].pc == TryLock && s.lock.Some?
    ensures s.threads[t].main < |s.tables|
    ensures var s' := Step(Step(s, t), t); var l, l' := s.threads[t], s'.threads[t];
      var table := s.tables[l.main];
      && s' == s.(threads := s'.threads) && |s'.threads| == |s.threads| && s'.threads == s.threads[t := l']
      && (table.capacity >= 4 ==> (l'.pc == Create <==> 4 * l.newCount < 3 * table.capacity))
      && (l'.pc != Create ==> l'.pc == TryLock && l'.main + 1 == |s.tables|)
  {
    CountsKnown(s, t);
    assert ThreadOk(s, t);
    assert TableOk(s.tables[s.threads[t].main], s.threads[t].main, s.threads, s.owner);
    QuarterOf(s.tables[s.threads[t].main].capacity);
    hide Inv, ThreadOk, TableOk;
  }

  lemma QuarterOf(capacity: nat)
    requires IsPowerOfTwo(capacity)
    ensures capacity >= 4 ==> capacity % 4 == 0
  {
    if capacity >= 4 {
      assert IsPowerOfTwo(capacity / 2);
    }
  }
}
