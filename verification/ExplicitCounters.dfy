/** The explicit sub-queue when its blocks are too large for flags: each block counts the elements that are
    gone. A consumer adds the number of elements it took out of a block in one step, and the producer
    compares the counter of the block ahead with BLOCK_SIZE in one step.

    The queue with flags of `ExplicitProducer` is kept beside the counters as history: no step branches on a
    flag. Every run with counters turns out to be a run with flags, in which the steps that set the flags of
    one part of a claim, or that scan the block ahead, follow each other without interruption. */
module ExplicitCounters {
  import opened BlockArithmetic
  import opened Tally
  import opened Options
  import opened CallLog
  import Tickets
  import Index = ExplicitIndex
  import Queue = ExplicitProducer

  /** `counts` are the fields elementsCompletelyDequeued. */
  datatype State = State(queue: Queue.State, counts: seq<nat>)

  function Init(threads: nat, half: nat, ok: bool): State {
    State(Queue.Init(threads, half, ok), [])
  }

  /** History: all the flags of the part of the claim that consumer c has moved out. */
  function SetFlags(s: Index.State, c: nat): Index.State
    requires c < |s.consumers|
    decreases if s.consumers[c].pc == Index.SetFlag then s.consumers[c].mark else 0
  {
    if s.consumers[c].pc == Index.SetFlag && Index.ConsumerCanStep(s, c)
    then SetFlags(Index.StepConsumer(s, c), c)
    else s
  }

  /** is_empty. */
  function Compare(s: State): State {
    var store := s.queue.store;
    if Index.Ahead(store) < |s.counts| then
      var empty := s.counts[Index.Ahead(store)] == BLOCK_SIZE;
      s.(queue := s.queue.(store := Index.WithProducer(store, if empty then Index.Reuse else Index.CheckRoom)))
    else s
  }

  /** set_empty and set_many_empty. */
  function Add(s: State, t: nat): State
    requires t < |s.queue.store.consumers|
  {
    var k := s.queue.store.consumers[t];
    if k.block < |s.counts| && k.start <= k.stop then
      State(s.queue.(store := SetFlags(s.queue.store, t)),
        s.counts[k.block := s.counts[k.block] + (k.stop - k.start)])
    else s
  }

  function Step(s: State, e: Queue.Event): State {
    var store := s.queue.store;
    match e
    case Enqueue(_) => s.(queue := Queue.Step(s.queue, e))
    case Produce(ok) =>
      if store.producer.pc.Scan? then Compare(s)
      else if store.producer.pc.Reuse? && Index.Ahead(store) < |s.counts| then
        State(Queue.Step(s.queue, e), s.counts[Index.Ahead(store) := 0])
      else if store.producer.pc.Requisition? && ok then State(Queue.Step(s.queue, e), s.counts + [0])
      else s.(queue := Queue.Step(s.queue, e))
    case Dequeue(t, _) =>
      if t < |store.consumers| && store.consumers[t].pc == Index.SetFlag then Add(s, t)
      else s.(queue := Queue.Step(s.queue, e))
  }

  function Execute(s: State, schedule: seq<Queue.Event>): State {
    if schedule == [] then s
    else Step(Execute(s, schedule[..|schedule| - 1]), schedule[|schedule| - 1])
  }

  // Counting flags.

  function One(flag: bool): int {
    if flag then 1 else 0
  }

  function Ones(flags: seq<bool>): int {
    Sum(flags, One)
  }

  lemma {:induction false} OnesBounded(flags: seq<bool>)
    ensures 0 <= Ones(flags) <= |flags|
    ensures Ones(flags) == |flags| <==> forall i :: 0 <= i < |flags| ==> flags[i]
    ensures (forall i :: 0 <= i < |flags| ==> !flags[i]) ==> Ones(flags) == 0
  {
    if flags != [] {
      var last := |flags| - 1;
      OnesBounded(flags[..last]);
      assert forall i :: 0 <= i < last ==> flags[..last][i] == flags[i];
      assert Ones(flags) == Ones(flags[..last]) + One(flags[last]);
    }
  }

  // The invariant.

  ghost predicate CountsOk(blocks: seq<Index.Block>, counts: seq<nat>) {
    && |counts| == |blocks|
    && forall b :: 0 <= b < |blocks| ==> counts[b] == Ones(blocks[b].empty)
  }

  /** Nobody is in the middle of setting or scanning flags. */
  ghost predicate AllOrNothing(s: Index.State) {
    && (s.producer.pc.Scan? ==> s.producer.pc.i == 0)
    && forall c :: 0 <= c < |s.consumers| && s.consumers[c].pc == Index.SetFlag ==> s.consumers[c].mark == s.consumers[c].stop
  }

  ghost predicate Inv(s: State) {
    && Queue.Inv(s.queue)
    && CountsOk(s.queue.store.blocks, s.counts)
    && AllOrNothing(s.queue.store)
  }

  // Runs of equal steps.

  function Repeat(e: Queue.Event, n: nat): seq<Queue.Event> {
    if n == 0 then [] else [e] + Repeat(e, n - 1)
  }

  lemma {:induction false} ExecuteAppend(s: Queue.State, a: seq<Queue.Event>, b: seq<Queue.Event>)
    ensures Queue.Execute(s, a + b) == Queue.Execute(Queue.Execute(s, a), b)
    decreases |b|
  {
    if b == [] {
      assert a + b == a;
    } else {
      var last := |b| - 1;
      assert (a + b)[..|a + b| - 1] == a + b[..last];
      ExecuteAppend(s, a, b[..last]);
    }
  }

  lemma FirstOfMany(s: Queue.State, e: Queue.Event, n: nat)
    requires n > 0
    ensures Queue.Execute(s, Repeat(e, n)) == Queue.Execute(Queue.Step(s, e), Repeat(e, n - 1))
  {
    assert [e][..0] == [];
    assert Queue.Execute(s, [e]) == Queue.Step(Queue.Execute(s, []), e);
    ExecuteAppend(s, [e], Repeat(e, n - 1));
  }

  // One comparison is a scan.

  /** How many flags a scan from the i-th on looks at. */
  function ScanLength(flags: seq<bool>, i: nat): (n: nat)
    decreases |flags| - i
  {
    if i >= |flags| then 0
    else if !flags[i] || i + 1 == |flags| then 1
    else 1 + ScanLength(flags, i + 1)
  }

  predicate AllSet(flags: seq<bool>, i: nat) {
    forall j :: i <= j < |flags| ==> flags[j]
  }

  /** The queue with its producer elsewhere in enqueue. */
  function At(q: Queue.State, pc: Index.ProducerPc): Queue.State {
    q.(store := Index.WithProducer(q.store, pc))
  }

  function AheadFlags(q: Queue.State): seq<bool> {
    var b := Index.Ahead(q.store);
    if b < |q.store.blocks| then q.store.blocks[b].empty else []
  }

  lemma ScanOne(q: Queue.State, ok: bool, i: nat)
    requires i < BLOCK_SIZE == |AheadFlags(q)|
    ensures Queue.Step(At(q, Index.Scan(i)), Queue.Produce(ok)) == At(q,
      if !AheadFlags(q)[i] then Index.CheckRoom else if i + 1 == BLOCK_SIZE then Index.Reuse else Index.Scan(i + 1))
  {
    hide Index.ReuseBlock, Index.DoubleIndex, Index.InsertBlock;
  }

  lemma {:induction false} ScanIsCompare(q: Queue.State, ok: bool, i: nat)
    requires i < BLOCK_SIZE == |AheadFlags(q)|
    ensures var flags := AheadFlags(q);
      Queue.Execute(At(q, Index.Scan(i)), Repeat(Queue.Produce(ok), ScanLength(flags, i)))
      == At(q, if AllSet(flags, i) then Index.Reuse else Index.CheckRoom)
    decreases BLOCK_SIZE - i
  {
    hide Queue.Step, Queue.Execute, At, AheadFlags, Repeat;
    var flags := AheadFlags(q);
    var e := Queue.Produce(ok);
    ScanOne(q, ok, i);
    FirstOfMany(At(q, Index.Scan(i)), e, ScanLength(flags, i));
    NoMore(At(q, Index.CheckRoom), e);
    NoMore(At(q, Index.Reuse), e);
    if flags[i] && i + 1 < BLOCK_SIZE {
      ScanIsCompare(q, ok, i + 1);
    }
  }

  lemma NoMore(s: Queue.State, e: Queue.Event)
    ensures Queue.Execute(s, Repeat(e, 0)) == s
  {
  }

  // One addition is a run of flags.

  /** The step that sets one flag, as far as the counting goes. */
  ghost predicate SetsOne(s: Index.State, s': Index.State, t: nat)
    requires t < |s.consumers| == |s'.consumers| && |s.blocks| == |s'.blocks|
  {
    var k, k' := s.consumers[t], s'.consumers[t];
    && s'.producer == s.producer && s'.consumers == s.consumers[t := k']
    && k.start < k.mark && k.block < |s.blocks|
    && (forall b :: 0 <= b < |s.blocks| && b != k.block ==> s'.blocks[b] == s.blocks[b])
    && Ones(s'.blocks[k.block].empty) == Ones(s.blocks[k.block].empty) + 1
    && (if k.mark - 1 > k.start then k' == k.(mark := k.mark - 1) else k'.pc != Index.SetFlag)
  }

  lemma OneFlag(s: Index.State, t: nat)
    requires t < |s.consumers| && s.consumers[t].pc == Index.SetFlag && Index.ConsumerCanStep(s, t)
    requires s.consumers[t].start < s.consumers[t].mark
    requires !s.blocks[s.consumers[t].block].empty[Index.FlagSlot(s.consumers[t].mark - 1)]
    ensures var s' := Index.StepConsumer(s, t);
      |s'.consumers| == |s.consumers| && |s'.blocks| == |s.blocks| && SetsOne(s, s', t)
  {
    var k := s.consumers[t];
    SumUpdate(s.blocks[k.block].empty, One, Index.FlagSlot(k.mark - 1), true);
  }

  lemma MarkAhead(s: Index.State, t: nat)
    requires Index.Inv(s) && t < |s.consumers| && s.consumers[t].pc == Index.SetFlag
    ensures s.consumers[t].start < s.consumers[t].mark
  {
    assert Index.ConsumerOk(s, s.consumers[t]);
  }

  lemma FlagsAreSet(q: Queue.State, t: nat, max: nat)
    requires Queue.Inv(q) && t < |q.store.consumers| && q.store.consumers[t].pc == Index.SetFlag
    ensures Index.ConsumerCanStep(q.store, t)
    ensures var s' := Index.StepConsumer(q.store, t);
      && Queue.Step(q, Queue.Dequeue(t, max)) == q.(store := s') && Queue.Inv(q.(store := s'))
      && |s'.consumers| == |q.store.consumers| && |s'.blocks| == |q.store.blocks| && SetsOne(q.store, s', t)
  {
    Queue.SameThreads(q);
    Queue.DequeueKeeps(q, t, max);
    hide Queue.Inv, Queue.Step;
    StoreSetsOne(q.store, t);
    StepsStore(q, t, max);
    hide Index.StepConsumer, Index.ConsumerCanStep, SetsOne;
  }

  lemma StepsStore(q: Queue.State, t: nat, max: nat)
    requires t < |q.store.consumers| == |q.tickets.threads| && q.store.consumers[t].pc == Index.SetFlag
    requires Index.ConsumerCanStep(q.store, t)
    ensures Queue.Step(q, Queue.Dequeue(t, max)) == q.(store := Index.StepConsumer(q.store, t))
  {
    hide Index.StepConsumer, Index.ConsumerCanStep;
  }

  lemma StoreSetsOne(s: Index.State, t: nat)
    requires Index.Inv(s) && t < |s.consumers| && s.consumers[t].pc == Index.SetFlag
    ensures Index.ConsumerCanStep(s, t)
    ensures var s' := Index.StepConsumer(s, t);
      |s'.consumers| == |s.consumers| && |s'.blocks| == |s.blocks| && SetsOne(s, s', t)
  {
    MarkAhead(s, t);
    Index.BlocksRecycledSafely(s);
    hide Index.Inv;
    OneFlag(s, t);
  }

  /** What consumer t's addition does to the flags, and how many of them it sets. */
  lemma {:induction false} FlagsAreAdd(q: Queue.State, t: nat, max: nat)
    requires Queue.Inv(q) && t < |q.store.consumers| && q.store.consumers[t].pc == Index.SetFlag
    ensures q.store.consumers[t].start < q.store.consumers[t].mark
    ensures Queue.Execute(q, Repeat(Queue.Dequeue(t, max), q.store.consumers[t].mark - q.store.consumers[t].start))
            == q.(store := SetFlags(q.store, t))
    ensures Queue.Inv(q.(store := SetFlags(q.store, t))) && SetsAll(q.store, SetFlags(q.store, t), t)
    decreases q.store.consumers[t].mark
  {
    hide Queue.Inv, Queue.Step, Queue.Execute, Index.StepConsumer, Index.ConsumerCanStep, SetFlags, Repeat, SetsAll;
    var k := q.store.consumers[t];
    var e := Queue.Dequeue(t, max);
    FlagsAreSet(q, t, max);
    var q' := q.(store := Index.StepConsumer(q.store, t));
    FirstOfMany(q, e, k.mark - k.start);
    SetFlagsFrom(q.store, t);
    if k.mark - 1 > k.start {
      FlagsAreAdd(q', t, max);
      OneMore(q.store, q'.store, SetFlags(q.store, t), t);
    } else {
      NoMore(q', e);
      OnlyOne(q.store, q'.store, t);
    }
  }

  lemma SetFlagsFrom(s: Index.State, t: nat)
    requires t < |s.consumers| && s.consumers[t].pc == Index.SetFlag && Index.ConsumerCanStep(s, t)
    requires t < |Index.StepConsumer(s, t).consumers|
    ensures SetFlags(s, t) == SetFlags(Index.StepConsumer(s, t), t)
    ensures var s' := Index.StepConsumer(s, t); s'.consumers[t].pc != Index.SetFlag ==> SetFlags(s', t) == s'
  {
  }

  /** All the flags of one part of a claim, as far as the counting goes. */
  ghost predicate SetsAll(s: Index.State, s': Index.State, t: nat)
    requires t < |s.consumers|
  {
    var k := s.consumers[t];
    && |s'.consumers| == |s.consumers| && |s'.blocks| == |s.blocks| && s'.producer == s.producer
    && s'.consumers == s.consumers[t := s'.consumers[t]] && s'.consumers[t].pc != Index.SetFlag
    && k.start <= k.mark && k.block < |s.blocks|
    && (forall b :: 0 <= b < |s.blocks| && b != k.block ==> s'.blocks[b] == s.blocks[b])
    && Ones(s'.blocks[k.block].empty) == Ones(s.blocks[k.block].empty) + (k.mark - k.start)
  }

  lemma OneMore(s: Index.State, s': Index.State, s'': Index.State, t: nat)
    requires t < |s.consumers| == |s'.consumers| && |s.blocks| == |s'.blocks|
    requires SetsOne(s, s', t) && s.consumers[t].mark - 1 > s.consumers[t].start && SetsAll(s', s'', t)
    ensures SetsAll(s, s'', t)
  {
  }

  lemma OnlyOne(s: Index.State, s': Index.State, t: nat)
    requires t < |s.consumers| == |s'.consumers| && |s.blocks| == |s'.blocks|
    requires SetsOne(s, s', t) && s.consumers[t].mark - 1 == s.consumers[t].start
    ensures SetsAll(s, s', t)
  {
  }

  // Every step with counters is a run with flags.

  function Unrolled(s: State, e: Queue.Event): seq<Queue.Event> {
    var store := s.queue.store;
    if e.Produce? && store.producer.pc.Scan? then Repeat(e, ScanLength(AheadFlags(s.queue), 0))
    else if e.Dequeue? && e.t < |store.consumers| && store.consumers[e.t].pc == Index.SetFlag then
      var k := store.consumers[e.t];
      Repeat(e, if k.start <= k.mark then k.mark - k.start else 0)
    else [e]
  }

  lemma QueueStepKeeps(q: Queue.State, e: Queue.Event)
    requires Queue.Inv(q)
    ensures Queue.Inv(Queue.Step(q, e))
  {
    hide Queue.Inv;
    match e
    case Dequeue(t, max) => if t < |q.store.consumers| { Queue.DequeueKeeps(q, t, max); }
    case _ =>
      hide Queue.Step;
      Queue.ProducerKeeps(q, e);
  }

  lemma {:induction false} QueueRunKeeps(q: Queue.State, schedule: seq<Queue.Event>)
    requires Queue.Inv(q)
    ensures Queue.Inv(Queue.Execute(q, schedule))
  {
    hide Queue.Inv, Queue.Step;
    if schedule != [] {
      var last := |schedule| - 1;
      QueueRunKeeps(q, schedule[..last]);
      QueueStepKeeps(Queue.Execute(q, schedule[..last]), schedule[last]);
    }
  }

  lemma OneStep(q: Queue.State, e: Queue.Event)
    ensures Queue.Execute(q, [e]) == Queue.Step(q, e)
  {
    assert [e][..0] == [];
    assert Queue.Execute(q, [e]) == Queue.Step(Queue.Execute(q, []), e);
  }

  lemma AheadThere(s: Index.State)
    requires Index.Inv(s) && (s.producer.pc.Scan? || s.producer.pc.Reuse?)
    ensures Index.Ahead(s) < |s.blocks| && |s.blocks[Index.Ahead(s)].empty| == BLOCK_SIZE
  {
    Index.AheadIsOldest(s);
  }

  lemma CompareIsARun(s: State, ok: bool)
    requires Inv(s) && s.queue.store.producer.pc.Scan?
    ensures Queue.Execute(s.queue, Unrolled(s, Queue.Produce(ok))) == Compare(s).queue && Inv(Compare(s))
  {
    var q := s.queue;
    AheadThere(q.store);
    OnesBounded(AheadFlags(q));
    assert At(q, Index.Scan(0)) == q;
    ScanIsCompare(q, ok, 0);
    hide Queue.Execute, Queue.Inv, Repeat;
    QueueRunKeeps(q, Unrolled(s, Queue.Produce(ok)));
  }

  lemma AddIsARun(s: State, t: nat, max: nat)
    requires Inv(s) && t < |s.queue.store.consumers| && s.queue.store.consumers[t].pc == Index.SetFlag
    ensures Queue.Execute(s.queue, Unrolled(s, Queue.Dequeue(t, max))) == Add(s, t).queue && Inv(Add(s, t))
    ensures var k := s.queue.store.consumers[t];
      k.block < |s.counts| && k.start < k.stop && Add(s, t).counts[k.block] == s.counts[k.block] + (k.stop - k.start)
  {
    hide Queue.Execute, Queue.Inv, Repeat, SetFlags;
    FlagsAreAdd(s.queue, t, max);
  }

  // The other steps.

  ghost predicate SameFlags(s: Index.State, s': Index.State) {
    && |s'.blocks| == |s.blocks|
    && forall b :: 0 <= b < |s.blocks| ==> s'.blocks[b].empty == s.blocks[b].empty
  }

  lemma StartFlags(s: Index.State, value: int)
    requires AllOrNothing(s)
    ensures var s' := Index.Step(s, Index.Enqueue(value)); SameFlags(s, s') && AllOrNothing(s')
  {
  }

  lemma ProduceFlags(s: Index.State, ok: bool)
    requires AllOrNothing(s) && !s.producer.pc.Scan? && !s.producer.pc.Reuse? && !(s.producer.pc.Requisition? && ok)
    ensures var s' := Index.Step(s, Index.Produce(ok)); SameFlags(s, s') && AllOrNothing(s')
  {
    hide Index.CopiedEntries, Index.FreshEntries, Index.Increment, Index.Ahead, Off;
    match s.producer.pc
    case NewIndex =>
    case WriteBase =>
    case StoreFront =>
    case Construct =>
    case _ =>
  }

  lemma ReuseFlags(s: State, ok: bool)
    requires Inv(s) && s.queue.store.producer.pc.Reuse?
    ensures var store' := Index.Step(s.queue.store, Index.Produce(ok)); var b := Index.Ahead(s.queue.store);
      b < |s.counts| && CountsOk(store'.blocks, s.counts[b := 0]) && AllOrNothing(store')
  {
    AheadThere(s.queue.store);
    Index.ProduceKeeps(s.queue.store, ok);
    OnesBounded(seq(BLOCK_SIZE, _ => false));
    hide Queue.Inv, Index.Inv;
  }

  lemma InsertFlags(s: Index.State, counts: seq<nat>)
    requires Index.Inv(s) && s.producer.pc.Requisition? && CountsOk(s.blocks, counts) && AllOrNothing(s)
    ensures var s' := Index.Step(s, Index.Produce(true)); CountsOk(s'.blocks, counts + [0]) && AllOrNothing(s')
  {
    Index.ProduceKeeps(s, true);
    OnesBounded(seq(BLOCK_SIZE, _ => false));
    hide Index.Inv;
  }

  lemma ConsumeFlags(s: Index.State, c: nat)
    requires Index.Inv(s) && AllOrNothing(s) && c < |s.consumers| && s.consumers[c].pc != Index.SetFlag
    ensures var s' := Index.Step(s, Index.Consume(c)); SameFlags(s, s') && AllOrNothing(s')
  {
    assert Index.ConsumerOk(s, s.consumers[c]);
    hide Index.Inv, Index.ClaimOk, Index.ConsumerCanStep;
  }

  lemma ClaimFlags(s: Index.State, c: nat, count: nat)
    requires AllOrNothing(s)
    ensures var s' := Index.Step(s, Index.Claim(c, count)); SameFlags(s, s') && AllOrNothing(s')
  {
  }

  lemma ProduceIsOneStep(s: State, ok: bool)
    requires Inv(s) && !s.queue.store.producer.pc.Scan?
    ensures var s' := Step(s, Queue.Produce(ok)); CountsOk(s'.queue.store.blocks, s'.counts) && AllOrNothing(s'.queue.store)
    ensures Step(s, Queue.Produce(ok)).queue == Queue.Step(s.queue, Queue.Produce(ok))
  {
    var store := s.queue.store;
    if store.producer.pc.Reuse? {
      ReuseFlags(s, ok);
    } else if store.producer.pc.Requisition? && ok {
      InsertFlags(store, s.counts);
    } else {
      ProduceFlags(store, ok);
    }
    hide Index.Step, Index.Inv, Tickets.Inv;
  }

  lemma DequeueIsOneStep(s: State, t: nat, max: nat)
    requires Inv(s) && (t < |s.queue.store.consumers| ==> s.queue.store.consumers[t].pc != Index.SetFlag)
    ensures var s' := Step(s, Queue.Dequeue(t, max)); CountsOk(s'.queue.store.blocks, s'.counts) && AllOrNothing(s'.queue.store)
  {
    var store := s.queue.store;
    if t < |store.consumers| {
      ConsumeFlags(store, t);
      if t < |s.queue.tickets.threads| {
        ClaimFlags(store, t, s.queue.tickets.threads[t].actual);
      }
    }
    hide Index.Step, Queue.Inv, Tickets.Step;
  }

  lemma EnqueueIsOneStep(s: State, value: int)
    requires Inv(s)
    ensures var s' := Step(s, Queue.Enqueue(value)); CountsOk(s'.queue.store.blocks, s'.counts) && AllOrNothing(s'.queue.store)
    ensures Step(s, Queue.Enqueue(value)).queue == Queue.Step(s.queue, Queue.Enqueue(value))
  {
    StartFlags(s.queue.store, value);
    hide Index.Step, Queue.Inv, Tickets.Inv;
  }

  lemma StepIsARun(s: State, e: Queue.Event)
    requires Inv(s)
    ensures Queue.Execute(s.queue, Unrolled(s, e)) == Step(s, e).queue && Inv(Step(s, e))
  {
    hide Queue.Inv, Queue.Execute, Queue.Step, Repeat, Compare, Add, CountsOk, AllOrNothing;
    QueueStepKeeps(s.queue, e);
    OneStep(s.queue, e);
    match e
    case Enqueue(value) =>
      EnqueueIsOneStep(s, value);
    case Produce(ok) =>
      if s.queue.store.producer.pc.Scan? { CompareIsARun(s, ok); } else { ProduceIsOneStep(s, ok); }
    case Dequeue(t, max) =>
      if t < |s.queue.store.consumers| && s.queue.store.consumers[t].pc == Index.SetFlag { AddIsARun(s, t, max); }
      else { DequeueIsOneStep(s, t, max); }
  }

  // Main results.

  /** Every run with counters is a run with flags, whatever the schedule: all that `ExplicitIndex` and
      `ExplicitProducer` prove of runs holds with counters as well. */
  lemma {:induction false} EveryRunIsARun(threads: nat, half: nat, ok: bool, schedule: seq<Queue.Event>)
    returns (flags: seq<Queue.Event>)
    requires half > 0 && IsPowerOfTwo(half)
    ensures var s := Execute(Init(threads, half, ok), schedule);
      Inv(s) && s.queue == Queue.Execute(Queue.Init(threads, half, ok), flags)
  {
    hide Queue.Inv, Queue.Execute, Queue.Init, Step;
    if schedule == [] {
      flags := [];
      Queue.EveryRun(threads, half, ok, []);
      InitCounts(threads, half, ok);
    } else {
      var last := |schedule| - 1;
      var s := Execute(Init(threads, half, ok), schedule[..last]);
      var before := EveryRunIsARun(threads, half, ok, schedule[..last]);
      StepIsARun(s, schedule[last]);
      flags := before + Unrolled(s, schedule[last]);
      ExecuteAppend(Queue.Init(threads, half, ok), before, Unrolled(s, schedule[last]));
    }
  }

  lemma InitCounts(threads: nat, half: nat, ok: bool)
    ensures var q := Queue.Init(threads, half, ok);
      Queue.Execute(q, []) == q && CountsOk(q.store.blocks, []) && AllOrNothing(q.store)
  {
  }

  /** The counter of a block is BLOCK_SIZE exactly when all its elements are gone, and neither assert about
      the counters fires: they never exceed BLOCK_SIZE, and no addition takes them there. */
  lemma CountsAreExact(s: State, b: nat)
    requires Inv(s) && b < |s.queue.store.blocks|
    ensures b < |s.counts| && s.counts[b] <= BLOCK_SIZE
    ensures forall q :: s.queue.store.lo <= q < |s.queue.store.seqs| && s.queue.store.seqs[q] == b ==>
      (s.counts[b] == BLOCK_SIZE <==> Finished(s.queue.store, q))
    ensures forall t :: 0 <= t < |s.queue.store.consumers| && s.queue.store.consumers[t].pc == Index.SetFlag ==>
      var k := s.queue.store.consumers[t];
      k.block == b ==> k.start < k.stop && s.counts[b] + (k.stop - k.start) <= BLOCK_SIZE
  {
    FlagCount(s, b);
    forall q | s.queue.store.lo <= q < |s.queue.store.seqs| && s.queue.store.seqs[q] == b
      ensures s.counts[b] == BLOCK_SIZE <==> Finished(s.queue.store, q)
    {
      FlagsOfStretch(s.queue.store, q);
    }
    forall t | 0 <= t < |s.queue.store.consumers| && s.queue.store.consumers[t].pc == Index.SetFlag
      ensures var k := s.queue.store.consumers[t];
        k.block == b ==> k.start < k.stop && s.counts[b] + (k.stop - k.start) <= BLOCK_SIZE
    {
      AddIsARun(s, t, 0);
      if s.queue.store.consumers[t].block == b && b < |Add(s, t).queue.store.blocks| {
        FlagCount(Add(s, t), b);
      }
    }
  }

  ghost predicate Finished(s: Index.State, q: nat) {
    forall i :: Base(q) <= i < Base(q + 1) ==> i in s.done
  }

  lemma FlagCount(s: State, b: nat)
    requires Inv(s) && b < |s.queue.store.blocks|
    ensures b < |s.counts| && |s.queue.store.blocks[b].empty| == BLOCK_SIZE && s.counts[b] <= BLOCK_SIZE
    ensures s.counts[b] == BLOCK_SIZE <==> forall i :: 0 <= i < BLOCK_SIZE ==> s.queue.store.blocks[b].empty[i]
  {
    OnesBounded(s.queue.store.blocks[b].empty);
  }

  lemma FlagsOfStretch(s: Index.State, q: nat)
    requires Index.Inv(s) && s.lo <= q < |s.seqs|
    ensures s.seqs[q] < |s.blocks| && |s.blocks[s.seqs[q]].empty| == BLOCK_SIZE
    ensures (forall i :: 0 <= i < BLOCK_SIZE ==> s.blocks[s.seqs[q]].empty[i]) <==> Finished(s, q)
  {
    var flags := s.blocks[s.seqs[q]].empty;
    forall i | 0 <= i < BLOCK_SIZE ensures flags[i] <==> Base(q) + (BLOCK_SIZE - 1 - i) in s.done {
      assert Index.CellOk(s, q, BLOCK_SIZE - 1 - i);
    }
    if Finished(s, q) {
    } else {
      var i :| Base(q) <= i < Base(q + 1) && i !in s.done;
      assert !flags[BLOCK_SIZE - 1 - (i - Base(q))];
    }
    if forall i :: 0 <= i < BLOCK_SIZE ==> flags[i] {
      forall i | Base(q) <= i < Base(q + 1) ensures i in s.done {
        assert flags[BLOCK_SIZE - 1 - (i - Base(q))];
      }
    }
  }

  // The calls of enqueue.

  /** A call begins when its thread is not in another one. */
  function Begun(s: State, e: Queue.Event): Option<int> {
    if e.Enqueue? && s.queue.store.producer.pc.Ready? then Some(e.value) else None
  }

  /** The calls of a whole run: one succeeds when the tail moves. */
  function Calls(s: State, schedule: seq<Queue.Event>): Log {
    if schedule == [] then EMPTY
    else
      var before := schedule[..|schedule| - 1];
      Observe(Calls(s, before), Begun(Execute(s, before), schedule[|before|]),
        Execute(s, schedule).queue.store.tail != Execute(s, before).queue.store.tail)
  }

  lemma {:induction false} FlagsLeaveTail(s: Index.State, t: nat)
    requires t < |s.consumers|
    ensures var s' := SetFlags(s, t); s'.producer == s.producer && s'.enq == s.enq && s'.tail == s.tail
    decreases if s.consumers[t].pc == Index.SetFlag then s.consumers[t].mark else 0
  {
    hide Off;
    if s.consumers[t].pc == Index.SetFlag && Index.ConsumerCanStep(s, t) {
      FlagsLeaveTail(Index.StepConsumer(s, t), t);
    }
  }

  lemma StepRecords(s: State, e: Queue.Event, log: Log)
    requires Index.Recorded(s.queue.store, log)
    ensures var s' := Step(s, e);
      Index.Recorded(s'.queue.store, Observe(log, Begun(s, e), s'.queue.store.tail != s.queue.store.tail))
  {
    hide Queue.Step, SetFlags;
    Queue.StepRecords(s.queue, e, log);
    if e.Dequeue? && e.t < |s.queue.store.consumers| {
      FlagsLeaveTail(s.queue.store, e.t);
    }
  }

  lemma {:induction false} RunRecords(s: State, schedule: seq<Queue.Event>)
    requires s.queue.store.enq == [] && s.queue.store.producer.pc.Ready?
    ensures Index.Recorded(Execute(s, schedule).queue.store, Calls(s, schedule))
  {
    hide Step, Index.Recorded, Observe;
    if schedule == [] {
      Index.NothingRecorded(s.queue.store);
    } else {
      var before := schedule[..|schedule| - 1];
      RunRecords(s, before);
      StepRecords(Execute(s, before), schedule[|before|], Calls(s, before));
    }
  }

  lemma EnqueuedInOrder(threads: nat, half: nat, ok: bool, schedule: seq<Queue.Event>)
    ensures Execute(Init(threads, half, ok), schedule).queue.store.enq == Calls(Init(threads, half, ok), schedule).succeeded
  {
    hide Execute, Calls;
    RunRecords(Init(threads, half, ok), schedule);
  }

  /** End to end with counters: what a finished dequeue has delivered, and that nothing is lost. */
  lemma DequeuesDeliver(threads: nat, half: nat, ok: bool, schedule: seq<Queue.Event>, t: nat, i: nat)
    requires half > 0 && IsPowerOfTwo(half)
    ensures var s := Execute(Init(threads, half, ok), schedule).queue;
      && s.store.enq == Calls(Init(threads, half, ok), schedule).succeeded
      && s.tickets.head <= |s.store.enq|
      && (Queue.HasClaim(s, t, true) ==>
            var l := s.tickets.threads[t];
            && l.first + l.got <= s.tickets.head
            && s.store.consumers[t].got == s.store.enq[l.first..l.first + l.got])
      && (i < s.tickets.head && (forall c :: 0 <= c < |s.store.consumers| ==> s.store.consumers[c].pc == Index.Idle) ==>
            i in s.store.taken && i in s.store.done)
  {
    hide Execute, Init, Calls, Queue.Calls, Queue.Execute, Queue.Init, Inv, Tickets.ClaimedOnce, Tickets.Covers;
    EnqueuedInOrder(threads, half, ok, schedule);
    var flags := EveryRunIsARun(threads, half, ok, schedule);
    Queue.DequeuesDeliver(threads, half, ok, flags, t, i);
    Queue.NothingIsLost(threads, half, ok, flags, i);
  }
}
