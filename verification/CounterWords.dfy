/** The explicit sub-queue with counters on 64-bit words that wrap around. As in `ExplicitCounters`, the
    flags are kept beside the counters as history and no step branches on them. */
module CounterWords {
  import opened BlockArithmetic
  import opened Options
  import opened CallLog
  import W = Wraparound
  import Tickets
  import Index = ExplicitIndex
  import Queue = ExplicitProducer
  import Counters = ExplicitCounters
  import Words = ExplicitWords

  datatype State = State(queue: Words.State, counts: seq<nat>)

  /** The words that hold a state with unbounded indices. A counter is a word anyway. */
  function WordsOf(s: Counters.State): State {
    State(Words.Words(s.queue), s.counts)
  }

  function Init(threads: nat, half: nat, ok: bool): State {
    State(Words.State(W.WrapState(Tickets.Init(threads)), Index.Init(threads, half, ok)), [])
  }

  // The steps of the program.

  /** History: n flags of the part of the claim that consumer t has moved out. */
  function SetFlags(w: Index.State, t: nat, n: nat): Index.State
    requires t < |w.consumers|
    decreases n
  {
    if n > 0 && Words.ConsumerCanStep(w, t) && t < |Words.Consume(w, t).consumers|
    then SetFlags(Words.Consume(w, t), t, n - 1)
    else w
  }

  /** is_empty. */
  function Compare(w: State): State {
    var store := w.queue.store;
    if Index.Ahead(store) < |w.counts| then
      var empty := w.counts[Index.Ahead(store)] == BLOCK_SIZE;
      w.(queue := w.queue.(store := Index.WithProducer(store, if empty then Index.Reuse else Index.CheckRoom)))
    else w
  }

  /** set_empty and set_many_empty: the number of elements is an unsigned difference. */
  function Add(w: State, t: nat): State
    requires t < |w.queue.store.consumers|
  {
    var k := w.queue.store.consumers[t];
    var n := W.Minus(k.stop, k.start);
    if k.block < |w.counts| then
      State(w.queue.(store := SetFlags(w.queue.store, t, n)),
        w.counts[k.block := W.Wrap(w.counts[k.block] + n)])
    else w
  }

  function Step(w: State, e: Queue.Event): State {
    var store := w.queue.store;
    match e
    case Enqueue(_) => w.(queue := Words.Step(w.queue, e))
    case Produce(ok) =>
      if store.producer.pc.Scan? then Compare(w)
      else if store.producer.pc.Reuse? && Index.Ahead(store) < |w.counts| then
        State(Words.Step(w.queue, e), w.counts[Index.Ahead(store) := 0])
      else if store.producer.pc.Requisition? && ok then State(Words.Step(w.queue, e), w.counts + [0])
      else w.(queue := Words.Step(w.queue, e))
    case Dequeue(t, _) =>
      if t < |store.consumers| && store.consumers[t].pc == Index.SetFlag then Add(w, t)
      else w.(queue := Words.Step(w.queue, e))
  }

  function Execute(w: State, schedule: seq<Queue.Event>): State {
    if schedule == [] then w
    else Step(Execute(w, schedule[..|schedule| - 1]), schedule[|schedule| - 1])
  }

  // One addition.

  /** Setting a flag changes nothing that a window or the size of an index depends on. */
  ghost predicate SameIndex(s: Index.State, s': Index.State) {
    && s'.tail == s.tail && s'.lo == s.lo && s'.headers == s.headers && s'.seqs == s.seqs && s'.producer == s.producer
  }

  lemma FlagKeepsIndex(s: Index.State, t: nat)
    requires t < |s.consumers| && s.consumers[t].pc == Index.SetFlag && Index.ConsumerCanStep(s, t)
    ensures SameIndex(s, Index.StepConsumer(s, t))
    ensures Index.Step(s, Index.Consume(t)) == Index.StepConsumer(s, t)
  {
    hide Index.ConsumerCanStep;
  }

  lemma OneFlagAgrees(q: Queue.State, t: nat)
    requires Queue.Inv(q) && Words.InWindow(q.store)
    requires t < |q.store.consumers| && q.store.consumers[t].pc == Index.SetFlag
    ensures Index.ConsumerCanStep(q.store, t) && Words.ConsumerCanStep(Words.Word(q.store), t)
    ensures Words.Word(Index.StepConsumer(q.store, t)) == Words.Consume(Words.Word(q.store), t)
    ensures SameIndex(q.store, Index.StepConsumer(q.store, t))
  {
    hide Index.StepConsumer, Index.Step, Index.Inv, Tickets.Inv, Words.Word, Words.Consume, Words.ConsumerCanStep, Words.InWindow,
      Index.ConsumerCanStep, SameIndex;
    Counters.FlagsAreSet(q, t, 0);
    Words.ConsumerAgrees(q.store, t);
    FlagKeepsIndex(q.store, t);
  }

  lemma SameWindow(s: Index.State, s': Index.State)
    requires SameIndex(s, s') && Words.InWindow(s)
    ensures Words.InWindow(s')
  {
  }

  lemma SameTwice(s: Index.State, s': Index.State, s'': Index.State)
    requires SameIndex(s, s') && SameIndex(s', s'')
    ensures SameIndex(s, s'')
  {
  }

  lemma SetFlagsOnce(w: Index.State, t: nat, n: nat)
    requires t < |w.consumers| && n > 0 && Words.ConsumerCanStep(w, t) && t < |Words.Consume(w, t).consumers|
    ensures SetFlags(w, t, n) == SetFlags(Words.Consume(w, t), t, n - 1)
  {
  }

  lemma WordConsumers(s: Index.State)
    ensures |Words.Word(s).consumers| == |s.consumers|
  {
  }

  /** All the flags of one part of a claim. */
  lemma {:induction false} FlagsAgree(q: Queue.State, t: nat, n: nat)
    requires Queue.Inv(q) && Words.InWindow(q.store)
    requires t < |q.store.consumers| && q.store.consumers[t].pc == Index.SetFlag
    requires q.store.consumers[t].mark == q.store.consumers[t].start + n
    ensures Words.Word(Counters.SetFlags(q.store, t)) == SetFlags(Words.Word(q.store), t, n)
    ensures SameIndex(q.store, Counters.SetFlags(q.store, t))
    decreases n
  {
    hide Queue.Inv, Words.InWindow, Index.StepConsumer, Index.ConsumerCanStep, Words.Word, Words.Consume, Words.ConsumerCanStep,
      SameIndex, SetFlags, Counters.SetFlags;
    Counters.FlagsAreSet(q, t, 0);
    OneFlagAgrees(q, t);
    var s' := Index.StepConsumer(q.store, t);
    WordConsumers(q.store);
    WordConsumers(s');
    Counters.SetFlagsFrom(q.store, t);
    SetFlagsOnce(Words.Word(q.store), t, n);
    SameWindow(q.store, s');
    if n > 1 {
      FlagsAgree(q.(store := s'), t, n - 1);
      SameTwice(q.store, s', Counters.SetFlags(s', t));
    } else {
      NoMoreFlags(Words.Word(s'), t);
    }
  }

  lemma NoMoreFlags(w: Index.State, t: nat)
    requires t < |w.consumers|
    ensures SetFlags(w, t, 0) == w
  {
  }

  /** The claim that consumer t is marking, as words. */
  lemma PartOfClaim(s: Counters.State, t: nat)
    requires Counters.Inv(s) && Words.InWindow(s.queue.store)
    requires t < |s.queue.store.consumers| && s.queue.store.consumers[t].pc == Index.SetFlag
    ensures var k := s.queue.store.consumers[t];
      && k.block < |s.counts| && k.start < k.stop == k.mark
      && W.Minus(W.Wrap(k.stop), W.Wrap(k.start)) == k.stop - k.start
      && s.counts[k.block] + (k.stop - k.start) <= BLOCK_SIZE < W.RANGE
  {
    hide Queue.Inv, Counters.Step, Counters.Add, Counters.CountsOk, W.Wrap, W.Minus;
    var k := s.queue.store.consumers[t];
    Counters.AddIsARun(s, t, 0);
    SameBlocks(s);
    Counters.CountsAreExact(s, k.block);
    StoreInv(s.queue);
    Words.WindowFits(s.queue.store);
    W.DistanceExact(k.stop, k.start);
  }

  lemma SameBlocks(s: Counters.State)
    requires Counters.Inv(s)
    ensures |s.counts| == |s.queue.store.blocks|
  {
  }

  lemma StoreInv(q: Queue.State)
    requires Queue.Inv(q)
    ensures Index.Inv(q.store)
  {
  }

  lemma AddAgrees(s: Counters.State, t: nat)
    requires Counters.Inv(s) && Words.InWindow(s.queue.store)
    requires t < |s.queue.store.consumers| && s.queue.store.consumers[t].pc == Index.SetFlag
    ensures t < |WordsOf(s).queue.store.consumers| && WordsOf(Counters.Add(s, t)) == Add(WordsOf(s), t)
  {
    hide Queue.Inv, Words.Word, Words.InWindow, W.Wrap, W.Minus, Counters.SetFlags, SetFlags, Counters.CountsOk, W.WrapState,
      SameIndex;
    var k := s.queue.store.consumers[t];
    PartOfClaim(s, t);
    FlagsAgree(s.queue, t, k.stop - k.start);
    WordConsumers(s.queue.store);
    Words.SameConsumer(s.queue.store, t);
    W.WrapSmall(s.counts[k.block] + (k.stop - k.start));
  }

  // One step.

  lemma SameProducer(s: Index.State, pc: Index.ProducerPc)
    ensures Words.Word(s).producer == s.producer && Words.Word(s).blocks == s.blocks
    ensures Words.Word(Index.WithProducer(s, pc)) == Index.WithProducer(Words.Word(s), pc)
  {
  }

  lemma CompareAgrees(s: Counters.State)
    ensures WordsOf(Counters.Compare(s)) == Compare(WordsOf(s))
  {
    hide Words.Word, W.WrapState;
    SameProducer(s.queue.store, Index.Reuse);
    SameProducer(s.queue.store, Index.CheckRoom);
  }

  /** One step with counters on words is the wrapped step with counters. */
  lemma StepAgrees(s: Counters.State, e: Queue.Event)
    requires Counters.Inv(s) && Words.StepInWindow(s.queue, e)
    ensures WordsOf(Counters.Step(s, e)) == Step(WordsOf(s), e)
  {
    hide Queue.Inv, Words.Word, Queue.Step, Words.Step, Counters.Compare, Compare, Counters.Add, Add, Counters.CountsOk,
      Words.InWindow, W.InWindow, W.WrapState;
    Words.StepAgrees(s.queue, e);
    SameProducer(s.queue.store, Index.Reuse);
    WordConsumers(s.queue.store);
    match e
    case Enqueue(_) =>
    case Produce(_) =>
      CompareAgrees(s);
    case Dequeue(t, _) =>
      if t < |s.queue.store.consumers| {
        Words.SameConsumer(s.queue.store, t);
        if s.queue.store.consumers[t].pc == Index.SetFlag {
          AddAgrees(s, t);
        }
      }
  }

  // Whole runs.

  ghost predicate StaysInWindow(threads: nat, half: nat, ok: bool, schedule: seq<Queue.Event>) {
    schedule != [] ==>
      var before := schedule[..|schedule| - 1];
      && StaysInWindow(threads, half, ok, before)
      && Words.StepInWindow(Counters.Execute(Counters.Init(threads, half, ok), before).queue, schedule[|schedule| - 1])
  }

  lemma InitWordsOf(threads: nat, half: nat, ok: bool)
    ensures WordsOf(Counters.Init(threads, half, ok)) == Init(threads, half, ok)
  {
    Words.InitWordsOf(threads, half, ok);
  }

  /** Whole runs agree: on words the counters take the same values, the same blocks are found empty and
      reused, and the same elements are delivered. */
  lemma {:induction false} RunsAgree(threads: nat, half: nat, ok: bool, schedule: seq<Queue.Event>)
    requires half > 0 && IsPowerOfTwo(half) && StaysInWindow(threads, half, ok, schedule)
    ensures WordsOf(Counters.Execute(Counters.Init(threads, half, ok), schedule)) == Execute(Init(threads, half, ok), schedule)
  {
    hide WordsOf, Step, Counters.Step, Counters.Inv, Words.StepInWindow, Init, Counters.Init;
    if schedule == [] {
      InitWordsOf(threads, half, ok);
    } else {
      var before := schedule[..|schedule| - 1];
      RunsAgree(threads, half, ok, before);
      var flags := Counters.EveryRunIsARun(threads, half, ok, before);
      StepAgrees(Counters.Execute(Counters.Init(threads, half, ok), before), schedule[|schedule| - 1]);
    }
  }

  // The calls of enqueue.

  /** A call begins when its thread is not in another one. */
  function Begun(w: State, e: Queue.Event): Option<int> {
    if e.Enqueue? && w.queue.store.producer.pc.Ready? then Some(e.value) else None
  }

  /** The calls of a whole run: one succeeds when the word of the tail changes. */
  function Calls(w: State, schedule: seq<Queue.Event>): Log {
    if schedule == [] then EMPTY
    else
      var before := schedule[..|schedule| - 1];
      Observe(Calls(w, before), Begun(Execute(w, before), schedule[|before|]),
        Execute(w, schedule).queue.store.tail != Execute(w, before).queue.store.tail)
  }

  lemma TailMoves(s: Counters.State, e: Queue.Event, log: Log)
    requires Counters.Inv(s) && Index.Recorded(s.queue.store, log) && Counters.Inv(Counters.Step(s, e))
    ensures var s' := Counters.Step(s, e);
      W.Wrap(s'.queue.store.tail) != W.Wrap(s.queue.store.tail) <==> s'.queue.store.tail != s.queue.store.tail
  {
    hide Counters.Step, Index.Inv, Tickets.Inv, W.Wrap, Counters.CountsOk, Counters.AllOrNothing;
    var s' := Counters.Step(s, e);
    Counters.StepRecords(s, e, log);
    Queue.StoreLength(s.queue.store);
    Queue.StoreLength(s'.queue.store);
    W.SameWord(s'.queue.store.tail, s.queue.store.tail);
  }

  lemma RunInv(threads: nat, half: nat, ok: bool, schedule: seq<Queue.Event>)
    requires half > 0 && IsPowerOfTwo(half)
    ensures Counters.Inv(Counters.Execute(Counters.Init(threads, half, ok), schedule))
  {
    var flags := Counters.EveryRunIsARun(threads, half, ok, schedule);
  }

  lemma NewRecords(threads: nat, half: nat, ok: bool, schedule: seq<Queue.Event>)
    ensures var s := Counters.Init(threads, half, ok);
      Index.Recorded(Counters.Execute(s, schedule).queue.store, Counters.Calls(s, schedule))
  {
    Counters.RunRecords(Counters.Init(threads, half, ok), schedule);
  }

  lemma {:induction false} CallsAgree(threads: nat, half: nat, ok: bool, schedule: seq<Queue.Event>)
    requires half > 0 && IsPowerOfTwo(half) && StaysInWindow(threads, half, ok, schedule)
    ensures Calls(Init(threads, half, ok), schedule) == Counters.Calls(Counters.Init(threads, half, ok), schedule)
  {
    hide Counters.Step, Step, Counters.Inv, Words.StepInWindow, Observe, W.Wrap, Index.Recorded, Init, Counters.Init;
    if schedule != [] {
      var before := schedule[..|schedule| - 1];
      var s := Counters.Init(threads, half, ok);
      CallsAgree(threads, half, ok, before);
      RunsAgree(threads, half, ok, before);
      RunsAgree(threads, half, ok, schedule);
      RunInv(threads, half, ok, before);
      RunInv(threads, half, ok, schedule);
      NewRecords(threads, half, ok, before);
      TailMoves(Counters.Execute(s, before), schedule[|before|], Counters.Calls(s, before));
    }
  }

  /** A dequeue that has finished on words has delivered the elements enqueued at the indices it claimed. */
  lemma WordsDeliver(threads: nat, half: nat, ok: bool, schedule: seq<Queue.Event>, t: nat)
    requires half > 0 && IsPowerOfTwo(half) && StaysInWindow(threads, half, ok, schedule)
    ensures var s := Counters.Execute(Counters.Init(threads, half, ok), schedule).queue;
      var w := Execute(Init(threads, half, ok), schedule).queue;
      && s.store.enq == Calls(Init(threads, half, ok), schedule).succeeded
      && (t < |w.store.consumers| && t < |w.tickets.threads| && w.store.consumers[t].pc == Index.Idle
          && w.tickets.threads[t].pc == Tickets.Idle && w.tickets.threads[t].got > 0 ==>
        && t < |s.tickets.threads| && s.tickets.threads[t].got == w.tickets.threads[t].got
        && W.Wrap(s.tickets.threads[t].first) == w.tickets.threads[t].first
        && s.tickets.threads[t].first + s.tickets.threads[t].got <= |s.store.enq|
        && w.store.consumers[t].got
           == s.store.enq[s.tickets.threads[t].first..s.tickets.threads[t].first + s.tickets.threads[t].got])
  {
    hide Counters.Execute, Counters.Init, Counters.Calls, Execute, Init, Calls, W.Wrap;
    CallsAgree(threads, half, ok, schedule);
    RunsAgree(threads, half, ok, schedule);
    var s := Counters.Execute(Counters.Init(threads, half, ok), schedule).queue;
    Counters.DequeuesDeliver(threads, half, ok, schedule, t, 0);
    var w := Words.Words(s);
    assert t < |s.store.consumers| ==> w.store.consumers[t] == Words.WordConsumer(s.store.consumers[t]);
    assert t < |s.tickets.threads| ==> w.tickets.threads[t] == W.WrapLocal(s.tickets.threads[t]);
  }

  // Which runs stay in the window.

  lemma SameSizes(s: Index.State, s': Index.State, half: nat, k: nat)
    requires Words.SizesBelow(s, half, k)
    requires |s'.seqs| == |s.seqs| && s'.headers == s.headers && s'.producer.size == s.producer.size
    ensures Words.SizesBelow(s', half, k + 1)
  {
  }

  lemma NextReached(q: Queue.State, q': Queue.State, half: nat, k: nat, m: nat)
    requires Words.Reached(q, half, k, m) && q'.tickets == q.tickets
    requires |q'.store.seqs| == |q.store.seqs| && q'.store.headers == q.store.headers
    requires q'.store.producer.size == q.store.producer.size
    ensures Words.Reached(q', half, k + 1, m)
  {
    hide Words.SizesBelow, W.Below;
    SameSizes(q.store, q'.store, half, k);
    W.OneMoreTime(k, m);
    W.StillBelow(q.tickets, k * m, (k + 1) * m, m);
  }

  lemma StepReaches(s: Counters.State, e: Queue.Event, half: nat, k: nat, m: nat)
    requires Counters.Inv(s) && Words.InWindow(s.queue.store)
    requires Words.Reached(s.queue, half, k, m) && Words.Moderate(e, m) && m > 0
    ensures Words.Reached(Counters.Step(s, e).queue, half, k + 1, m)
  {
    hide Queue.Inv, Queue.Step, Words.Reached, Words.Moderate, Counters.SetFlags, Counters.CountsOk, Words.InWindow;
    Words.StepReaches(s.queue, e, half, k, m);
    var s' := Counters.Step(s, e);
    if e.Produce? && s.queue.store.producer.pc.Scan? {
      NextReached(s.queue, s'.queue, half, k, m);
    } else if e.Dequeue? && e.t < |s.queue.store.consumers| && s.queue.store.consumers[e.t].pc == Index.SetFlag {
      PartOfClaim(s, e.t);
      FlagsAgree(s.queue, e.t, s.queue.store.consumers[e.t].stop - s.queue.store.consumers[e.t].start);
      NextReached(s.queue, s'.queue, half, k, m);
    }
  }

  lemma {:induction false} RunReaches(threads: nat, half: nat, ok: bool, schedule: seq<Queue.Event>, m: nat)
    requires half > 0 && IsPowerOfTwo(half) && m > 0 && StaysInWindow(threads, half, ok, schedule)
    requires forall i :: 0 <= i < |schedule| ==> Words.Moderate(schedule[i], m)
    ensures Words.Reached(Counters.Execute(Counters.Init(threads, half, ok), schedule).queue, half, |schedule|, m)
  {
    hide Counters.Step, Counters.Inv, Words.Moderate, Words.Reached, Words.InWindow, Queue.Init;
    if schedule == [] {
      Words.InitReaches(threads, half, ok, m);
    } else {
      var before := schedule[..|schedule| - 1];
      RunReaches(threads, half, ok, before, m);
      var flags := Counters.EveryRunIsARun(threads, half, ok, before);
      StepReaches(Counters.Execute(Counters.Init(threads, half, ok), before), schedule[|schedule| - 1], half, |before|, m);
    }
  }

  /** No run leaves the window in which fewer than about a quarter of the range of elements can have been
      enqueued or asked for: that many steps of at most m elements each. */
  lemma {:induction false} ShortRunsStay(threads: nat, half: nat, ok: bool, schedule: seq<Queue.Event>, m: nat)
    requires half > 0 && IsPowerOfTwo(half) && m > 0
    requires forall i :: 0 <= i < |schedule| ==> Words.Moderate(schedule[i], m)
    requires 2 * (|schedule| * m) + BLOCK_SIZE < W.HALF && 2 * half + 2 * |schedule| <= W.RANGE
    ensures StaysInWindow(threads, half, ok, schedule)
  {
    hide Counters.Execute, Counters.Init, Queue.Inv, Words.Moderate, Words.StepInWindow, Words.Reached;
    if schedule != [] {
      var before := schedule[..|schedule| - 1];
      W.OneMoreTime(|before|, m);
      ShortRunsStay(threads, half, ok, before, m);
      RunReaches(threads, half, ok, before, m);
      var flags := Counters.EveryRunIsARun(threads, half, ok, before);
      Words.ReachedIsNear(
        Counters.Execute(Counters.Init(threads, half, ok), before).queue, schedule[|schedule| - 1], half, |before|, m);
    }
  }
}
