/** The explicit sub-queue on 64-bit words that wrap around. The unbounded sub-queue of `ExplicitProducer`
    and the one that the program runs are shown to go through the same states, up to wrapping. */
module ExplicitWords {
  import opened BlockArithmetic
  import opened Options
  import opened CallLog
  import W = Wraparound
  import Tickets
  import Index = ExplicitIndex
  import Queue = ExplicitProducer

  // The words that hold a state of the store.

  function WordEntries(entries: seq<Index.Entry>): (r: seq<Index.Entry>)
    ensures |r| == |entries|
  {
    seq(|entries|, k requires 0 <= k < |entries| => Index.Entry(W.Wrap(entries[k].base), entries[k].block))
  }

  function WordHeader(hd: Index.Header): Index.Header {
    Index.Header(hd.size, hd.front, WordEntries(hd.entries), 0, 0, 0)
  }

  function WordConsumer(k: Index.Consumer): Index.Consumer {
    k.(first := W.Wrap(k.first), end := W.Wrap(k.end), start := W.Wrap(k.start), cur := W.Wrap(k.cur),
       mark := W.Wrap(k.mark), stop := W.Wrap(k.stop), seen := 0)
  }

  function Word(s: Index.State): (w: Index.State)
    ensures |w.headers| == |s.headers| && |w.consumers| == |s.consumers|
  {
    Index.State(W.Wrap(s.tail), W.Wrap(s.head),
      seq(|s.headers|, h requires 0 <= h < |s.headers| => WordHeader(s.headers[h])),
      s.blocks, s.producer,
      seq(|s.consumers|, c requires 0 <= c < |s.consumers| => WordConsumer(s.consumers[c])),
      [], [], 0, {}, {})
  }

  /** The program keeps no history. */
  function Forget(w: Index.State): (w': Index.State)
    ensures |w'.headers| == |w.headers| && |w'.consumers| == |w.consumers|
  {
    Index.State(w.tail, w.head,
      seq(|w.headers|, h requires 0 <= h < |w.headers| => w.headers[h].(org := 0, lo := 0, pub := 0)),
      w.blocks, w.producer,
      seq(|w.consumers|, c requires 0 <= c < |w.consumers| => w.consumers[c].(seen := 0)),
      [], [], 0, {}, {})
  }

  // The steps of the program.

  function Produce(w: Index.State, ok: bool): Index.State {
    if w.producer.pc.Publish? then Index.WithProducer(w, Index.Ready).(tail := W.Wrap(w.tail + 1))
    else if Index.ProducerCanStep(w) then Forget(Index.StepProducer(w, ok))
    else w
  }

  function Claim(w: Index.State, c: nat, count: nat): Index.State
    requires c < |w.consumers|
  {
    var first, end := w.head, W.Wrap(w.head + count);
    Index.WithConsumer(w, c,
      w.consumers[c].(pc := Index.LoadIndex, first := first, end := end, start := first, cur := first,
                      mark := first, stop := first, got := []))
    .(head := end)
  }

  predicate ConsumerCanStep(w: Index.State, c: nat)
    requires c < |w.consumers|
  {
    var k := w.consumers[c];
    match k.pc
    case LoadBase => Index.ConsumerCanStep(w, c) && w.headers[k.header].entries[k.front].base >= 0
    case SetFlag => k.header < |w.headers| && k.block < |w.blocks| && |w.blocks[k.block].empty| == BLOCK_SIZE
    case _ => Index.ConsumerCanStep(w, c)
  }

  function Consume(w: Index.State, c: nat): Index.State
    requires c < |w.consumers| && ConsumerCanStep(w, c)
  {
    var k := w.consumers[c];
    match k.pc
    case LoadBase =>
      var hd := w.headers[k.header];
      Index.WithConsumer(w, c,
        k.(pc := Index.LoadBlock, slot := W.SlotOf(k.front, Base(Blk(k.first)), hd.entries[k.front].base, hd.size)))
    case LoadBlock =>
      var stop := W.EndIndex(k.end, k.cur);
      Index.WithConsumer(w, c,
        k.(pc := Index.Take, block := w.headers[k.header].entries[k.slot].block, stop := stop, mark := stop))
    case Take =>
      var b := w.blocks[k.block];
      var next := W.Wrap(k.cur + 1);
      Index.WithConsumer(w, c,
        k.(pc := if next == k.stop then Index.SetFlag else Index.Take, cur := next, got := k.got + [b.cells[Off(k.cur)].value]))
      .(blocks := w.blocks[k.block := b.(cells := b.cells[Off(k.cur) := None])])
    case SetFlag =>
      var b := w.blocks[k.block];
      var i := W.Minus(k.mark, 1);
      var k' := if i != k.start then k.(mark := i)
                else if k.stop == k.end then k.(pc := Index.Idle)
                else k.(pc := Index.LoadBlock, start := k.stop, mark := k.stop,
                        slot := Index.Increment(k.slot, w.headers[k.header].size));
      Index.WithConsumer(w, c, k').(blocks := w.blocks[k.block := b.(empty := b.empty[Index.FlagSlot(i) := true])])
    case _ => Forget(Index.StepConsumer(w, c))
  }

  // One step.

  /** The live indices lie less than half the range apart, and the sizes of the index are words. */
  predicate InWindow(s: Index.State) {
    && s.tail + BLOCK_SIZE - Base(s.lo) < W.HALF
    && forall h :: 0 <= h < |s.headers| ==> s.headers[h].size <= W.RANGE
  }

  lemma WordEntryUpdate(entries: seq<Index.Entry>, i: nat, e: Index.Entry)
    requires i < |entries|
    ensures WordEntries(entries[i := e]) == WordEntries(entries)[i := Index.Entry(W.Wrap(e.base), e.block)]
  {
  }

  lemma CopyAgrees(entries: seq<Index.Entry>, front: nat, used: nat)
    requires |entries| > 0
    ensures WordEntries(Index.CopiedEntries(entries, front, used)) == Index.CopiedEntries(WordEntries(entries), front, used)
  {
    var copied, copied' := Index.CopiedEntries(entries, front, used), Index.CopiedEntries(WordEntries(entries), front, used);
    forall j | 0 <= j < 2 * |entries| ensures WordEntries(copied)[j] == copied'[j] {
      if j < used {
        var m := Mod(front - used + j, |entries|);
        assert copied[j] == entries[m] && copied'[j] == WordEntries(entries)[m];
      }
    }
  }

  lemma FreshAgrees(size: nat)
    ensures WordEntries(Index.FreshEntries(size)) == Index.FreshEntries(size)
  {
  }

  /** Doubling the index. */
  lemma NewIndexAgrees(s: Index.State, ok: bool)
    requires Index.ProducerCanStep(s) && s.producer.pc.NewIndex?
    ensures Word(Index.StepProducer(s, ok)) == Produce(Word(s), ok)
  {
    if |s.headers| > 0 {
      CopyAgrees(s.headers[Index.Mine(s)].entries, s.producer.front, s.producer.used);
    } else {
      FreshAgrees(2 * s.producer.size);
    }
    hide Index.CopiedEntries, Index.FreshEntries, WordEntries, W.Wrap;
    assert Word(Index.StepProducer(s, ok)).headers == Produce(Word(s), ok).headers;
    assert Word(Index.StepProducer(s, ok)).consumers == Produce(Word(s), ok).consumers;
  }

  /** Writing an entry of the index and publishing it. */
  lemma WriteAgrees(s: Index.State, ok: bool)
    requires Index.ProducerCanStep(s) && (s.producer.pc.WriteBase? || s.producer.pc.WriteBlock? || s.producer.pc.StoreFront?)
    ensures Word(Index.StepProducer(s, ok)) == Produce(Word(s), ok)
  {
    var p, hd := s.producer, s.headers[Index.Mine(s)];
    if p.pc.WriteBase? {
      WordEntryUpdate(hd.entries, p.front, hd.entries[p.front].(base := s.tail));
    } else if p.pc.WriteBlock? {
      WordEntryUpdate(hd.entries, p.front, hd.entries[p.front].(block := p.tailBlock.value));
    }
    hide W.Wrap, Index.Increment;
    assert Word(Index.StepProducer(s, ok)).headers == Produce(Word(s), ok).headers;
    assert Word(Index.StepProducer(s, ok)).consumers == Produce(Word(s), ok).consumers;
  }

  /** A block for the next stretch. */
  lemma BlockAgrees(s: Index.State, ok: bool)
    requires Index.ProducerCanStep(s) && (s.producer.pc.Reuse? || s.producer.pc.Requisition?)
    ensures Word(Index.StepProducer(s, ok)) == Produce(Word(s), ok)
  {
    hide W.Wrap, WordEntries, Off;
    assert Word(Index.StepProducer(s, ok)).headers == Produce(Word(s), ok).headers;
    assert Word(Index.StepProducer(s, ok)).consumers == Produce(Word(s), ok).consumers;
  }

  /** The other steps of enqueue but the last. */
  lemma OtherAgrees(s: Index.State, ok: bool)
    requires Index.ProducerCanStep(s)
    requires s.producer.pc.Ready? || s.producer.pc.Scan? || s.producer.pc.CheckRoom? || s.producer.pc.Construct?
    requires s.producer.pc.Construct? ==> Off(W.Wrap(s.tail)) == Off(s.tail)
    ensures Word(Index.StepProducer(s, ok)) == Produce(Word(s), ok)
  {
    hide W.Wrap, WordEntries, Off;
    assert Word(Index.StepProducer(s, ok)).headers == Produce(Word(s), ok).headers;
    assert Word(Index.StepProducer(s, ok)).consumers == Produce(Word(s), ok).consumers;
  }

  lemma WindowFits(s: Index.State)
    requires Index.Inv(s) && InWindow(s)
    ensures BLOCK_SIZE < W.HALF && Base(s.lo) <= s.tail && s.head <= s.tail
    ensures Index.Opened(s.producer.pc) ==> |s.seqs| > 0
  {
    if |s.seqs| > 0 {
      BaseInWindow(s, s.lo);
    }
  }

  lemma BaseInWindow(s: Index.State, q: nat)
    requires Index.TailOk(s) && s.lo <= q < |s.seqs|
    ensures Base(s.lo) <= Base(q) <= s.tail
  {
    BaseGrows(s.lo, q);
    BaseGrows(q, |s.seqs| - 1);
    BaseGrows(|s.seqs| - 1, |s.seqs|);
  }

  lemma ProducerAgrees(s: Index.State, ok: bool)
    requires Index.Inv(s) && InWindow(s)
    ensures Word(Index.Step(s, Index.Produce(ok))) == Produce(Word(s), ok)
  {
    Index.ProduceKeeps(s, ok);
    WindowFits(s);
    W.WordInBlock(s.tail);
    hide Index.Inv, Word, Index.StepProducer, Index.ProducerCanStep, Produce;
    match s.producer.pc
    case Reuse => BlockAgrees(s, ok);
    case Requisition => BlockAgrees(s, ok);
    case NewIndex => NewIndexAgrees(s, ok);
    case WriteBase => WriteAgrees(s, ok);
    case WriteBlock => WriteAgrees(s, ok);
    case StoreFront => WriteAgrees(s, ok);
    case Publish => PublishAgrees(s, ok);
    case _ => OtherAgrees(s, ok);
  }

  lemma PublishAgrees(s: Index.State, ok: bool)
    requires s.producer.pc.Publish? && Index.ProducerCanStep(s)
    ensures Word(Index.StepProducer(s, ok)) == Produce(Word(s), ok)
  {
    W.WrapDifference(s.tail, 1);
    hide W.Wrap, WordEntries;
  }

  lemma StartAgrees(s: Index.State, value: int)
    requires s.producer.pc.Ready? && BLOCK_SIZE <= W.RANGE
    ensures Word(Index.StartEnqueue(s, value)) == Index.StartEnqueue(Word(s), value)
  {
    W.WordInBlock(s.tail);
    hide W.Wrap, WordEntries;
  }

  // The consumers.

  lemma ConsumerUpdates(s: Index.State, c: nat, k: Index.Consumer)
    requires c < |s.consumers|
    ensures Word(Index.WithConsumer(s, c, k)) == Index.WithConsumer(Word(s), c, WordConsumer(k))
  {
    assert Word(Index.WithConsumer(s, c, k)).consumers == Index.WithConsumer(Word(s), c, WordConsumer(k)).consumers;
  }

  lemma ClaimAgrees(s: Index.State, c: nat, count: nat)
    requires c < |s.consumers| && s.consumers[c].pc == Index.Idle && count > 0 && s.head + count <= s.tail
    ensures Word(Index.ClaimRange(s, c, count)) == Claim(Word(s), c, count)
  {
    W.WrapDifference(s.head, count);
    hide W.Wrap, WordEntries;
    assert Word(Index.ClaimRange(s, c, count)).consumers == Claim(Word(s), c, count).consumers;
  }

  lemma LoadsAgree(s: Index.State, c: nat)
    requires c < |s.consumers| && s.consumers[c].pc in {Index.Idle, Index.LoadIndex, Index.LoadFront} && Index.ConsumerCanStep(s, c)
    ensures ConsumerCanStep(Word(s), c) && Word(Index.StepConsumer(s, c)) == Consume(Word(s), c)
  {
    hide W.Wrap, WordEntries;
    assert Word(Index.StepConsumer(s, c)).consumers == Consume(Word(s), c).consumers;
    assert Word(Index.StepConsumer(s, c)).headers == Consume(Word(s), c).headers;
  }

  /** What the words of a claim rely on. */
  ghost predicate Near(s: Index.State, k: Index.Consumer) {
    && BLOCK_SIZE < W.HALF && s.tail + BLOCK_SIZE - Base(s.lo) < W.HALF
    && Base(s.lo) <= Base(Blk(k.start)) <= k.start <= k.cur <= k.end <= s.tail && k.start < k.end
    && k.start <= k.mark <= k.stop <= k.end
    && (k.pc == Index.LoadBlock ==> k.cur == k.start)
    && (k.pc == Index.Take ==> k.cur < k.stop)
    && (k.pc == Index.SetFlag ==> k.start < k.mark)
    && (k.pc == Index.LoadBase ==>
          && k.first == k.start && k.header < |s.headers| && Base(s.lo) <= Base(k.seen) <= s.tail
          && 0 < s.headers[k.header].size <= W.RANGE && IsPowerOfTwo(s.headers[k.header].size)
          && k.front < |s.headers[k.header].entries| && s.headers[k.header].entries[k.front].base == Base(k.seen))
  }

  lemma ClaimIsNear(s: Index.State, c: nat)
    requires Index.Inv(s) && InWindow(s) && c < |s.consumers|
    requires s.consumers[c].pc in {Index.LoadBase, Index.LoadBlock, Index.Take, Index.SetFlag}
    ensures Near(s, s.consumers[c])
  {
    var k := s.consumers[c];
    assert Index.ConsumerOk(s, k);
    WindowFits(s);
    Index.StretchesInUse(s, k);
    BaseInWindow(s, Blk(k.start));
    Split(k.start);
    if k.pc == Index.LoadBase {
      var hd := s.headers[k.header];
      assert Index.HeaderOk(s.seqs, s.lo, hd);
      assert Index.EntryOk(s.seqs, hd, k.seen);
      BaseInWindow(s, k.seen);
    }
    hide Index.CellsOk, Index.RingOk, Index.BlocksOk, Index.ScanOk, Index.Disjoint, Index.ConsumersOk, Index.EntryOk;
  }

  /** The signed division of words leads to the same slot. */
  lemma LoadBaseAgrees(s: Index.State, c: nat)
    requires c < |s.consumers| && s.consumers[c].pc == Index.LoadBase && Near(s, s.consumers[c])
    requires Index.ConsumerCanStep(s, c)
    ensures ConsumerCanStep(Word(s), c) && Word(Index.StepConsumer(s, c)) == Consume(Word(s), c)
  {
    hide W.Wrap, W.SlotOf, Base, Blk, SignedQuotient, Mod;
    var k := s.consumers[c];
    Split(k.first);
    W.SlotOfWord(k.front, k.first, k.seen, s.headers[k.header].size);
    ConsumerUpdates(s, c, Index.StepConsumer(s, c).consumers[c]);
  }

  /** The comparison of words finds the end of the part in the block. */
  lemma LoadBlockAgrees(s: Index.State, c: nat)
    requires c < |s.consumers| && s.consumers[c].pc == Index.LoadBlock && Near(s, s.consumers[c])
    requires Index.ConsumerCanStep(s, c)
    ensures ConsumerCanStep(Word(s), c) && Word(Index.StepConsumer(s, c)) == Consume(Word(s), c)
  {
    hide W.Wrap, W.EndIndex, Base, Blk;
    var k := s.consumers[c];
    Split(k.cur);
    W.EndIndexExact(k.end, k.cur);
    ConsumerUpdates(s, c, Index.StepConsumer(s, c).consumers[c]);
  }

  lemma SameConsumer(s: Index.State, c: nat)
    requires c < |s.consumers|
    ensures Word(s).consumers[c] == WordConsumer(s.consumers[c])
    ensures Word(s).blocks == s.blocks
  {
  }

  lemma TakeAgrees(s: Index.State, c: nat)
    requires c < |s.consumers| && s.consumers[c].pc == Index.Take && Near(s, s.consumers[c])
    requires Index.ConsumerCanStep(s, c)
    ensures ConsumerCanStep(Word(s), c) && Word(Index.StepConsumer(s, c)) == Consume(Word(s), c)
  {
    hide W.Wrap, Base, Blk, Off, WordEntries, WordHeader;
    var k := s.consumers[c];
    W.WordInBlock(k.cur);
    W.WrapDifference(k.cur, 1);
    W.SameWord(k.cur + 1, k.stop);
    SameConsumer(s, c);
    ConsumerUpdates(s, c, Index.StepConsumer(s, c).consumers[c]);
  }

  lemma SetFlagAgrees(s: Index.State, c: nat)
    requires c < |s.consumers| && s.consumers[c].pc == Index.SetFlag && Near(s, s.consumers[c])
    requires Index.ConsumerCanStep(s, c)
    ensures ConsumerCanStep(Word(s), c) && Word(Index.StepConsumer(s, c)) == Consume(Word(s), c)
  {
    hide W.Wrap, W.Minus, Base, Blk, Off;
    var k := s.consumers[c];
    W.PreviousWord(k.mark, k.start);
    W.SameWord(k.stop, k.end);
    ConsumerUpdates(s, c, Index.StepConsumer(s, c).consumers[c]);
  }

  lemma ConsumerAgrees(s: Index.State, c: nat)
    requires Index.Inv(s) && InWindow(s) && c < |s.consumers|
    ensures ConsumerCanStep(Word(s), c) && Word(Index.Step(s, Index.Consume(c))) == Consume(Word(s), c)
  {
    hide Index.Inv, Word, Index.StepConsumer, Index.ConsumerCanStep, Consume, ConsumerCanStep, Near, InWindow;
    Index.ConsumeKeeps(s, c);
    if s.consumers[c].pc in {Index.LoadBase, Index.LoadBlock, Index.Take, Index.SetFlag} {
      ClaimIsNear(s, c);
    }
    match s.consumers[c].pc
    case LoadBase => LoadBaseAgrees(s, c);
    case LoadBlock => LoadBlockAgrees(s, c);
    case Take => TakeAgrees(s, c);
    case SetFlag => SetFlagAgrees(s, c);
    case _ => LoadsAgree(s, c);
  }

  // The whole sub-queue.

  datatype State = State(tickets: W.State, store: Index.State)

  function Words(s: Queue.State): State {
    State(W.WrapState(s.tickets), Word(s.store))
  }

  function Step(w: State, e: Queue.Event): State {
    match e
    case Enqueue(value) => if w.store.producer.pc.Ready? then w.(store := Index.StartEnqueue(w.store, value)) else w
    case Produce(ok) =>
      var w' := w.(store := Produce(w.store, ok));
      if w.store.producer.pc.Publish? then w'.(tickets := W.Step(w.tickets, Tickets.Publish(1))) else w'
    case Dequeue(t, max) =>
      if t < |w.store.consumers| && t < |w.tickets.threads| then
        if w.store.consumers[t].pc != Index.Idle then
          if ConsumerCanStep(w.store, t) then w.(store := Consume(w.store, t)) else w
        else
          var w' := w.(tickets := W.Step(w.tickets, Tickets.Run(t, max)));
          if w.tickets.threads[t].pc == Tickets.ClaimHead && w.tickets.threads[t].actual > 0 then
            w'.(store := Claim(w.store, t, w.tickets.threads[t].actual))
          else w'
      else w
  }

  function Execute(w: State, schedule: seq<Queue.Event>): State {
    if schedule == [] then w
    else Step(Execute(w, schedule[..|schedule| - 1]), schedule[|schedule| - 1])
  }

  /** All that the next step compares lies less than half the range apart. */
  predicate StepInWindow(s: Queue.State, e: Queue.Event) {
    && InWindow(s.store)
    && (e.Dequeue? && e.t < |s.tickets.threads| ==> W.InWindow(s.tickets, s.tickets.threads[e.t]))
  }

  lemma ConsumeAgrees(s: Queue.State, t: nat, max: nat)
    requires Queue.Inv(s) && InWindow(s.store) && t < |s.store.consumers| && s.store.consumers[t].pc != Index.Idle
    ensures Words(Queue.Step(s, Queue.Dequeue(t, max))) == Step(Words(s), Queue.Dequeue(t, max))
  {
    hide Index.Inv, Tickets.Inv, Index.Step, Consume, ConsumerCanStep;
    ConsumerAgrees(s.store, t);
  }

  lemma TicketsAgree(s: Queue.State, t: nat, max: nat)
    requires Queue.Inv(s) && StepInWindow(s, Queue.Dequeue(t, max))
    requires t < |s.store.consumers| && s.store.consumers[t].pc == Index.Idle
    ensures Words(Queue.Step(s, Queue.Dequeue(t, max))) == Step(Words(s), Queue.Dequeue(t, max))
  {
    hide Index.Inv, Tickets.Inv, Tickets.Step, W.Step, Claim, W.InWindow;
    var l := s.tickets.threads[t];
    W.StepsAgree(s.tickets, Tickets.Run(t, max));
    if l.pc == Tickets.ClaimHead {
      Tickets.ClaimFits(s.tickets, t);
      if l.actual > 0 {
        ClaimAgrees(s.store, t, l.actual);
      }
    }
    assert W.WrapState(s.tickets).threads[t] == W.WrapLocal(l);
  }

  lemma StepAgrees(s: Queue.State, e: Queue.Event)
    requires Queue.Inv(s) && StepInWindow(s, e)
    ensures Words(Queue.Step(s, e)) == Step(Words(s), e)
  {
    match e
    case Enqueue(value) =>
      WindowFits(s.store);
      if s.store.producer.pc.Ready? {
        StartAgrees(s.store, value);
      }
    case Produce(ok) =>
      ProducerAgrees(s.store, ok);
      W.StepsAgree(s.tickets, Tickets.Publish(1));
    case Dequeue(t, max) =>
      Queue.SameThreads(s);
      if t < |s.store.consumers| {
        if s.store.consumers[t].pc != Index.Idle { ConsumeAgrees(s, t, max); } else { TicketsAgree(s, t, max); }
      }
  }

  lemma InitWords(threads: nat, half: nat, ok: bool)
    ensures Word(Index.Init(threads, half, ok)) == Index.Init(threads, half, ok)
  {
    FreshAgrees(2 * half);
    hide WordEntries, Index.FreshEntries;
    assert Word(Index.Init(threads, half, ok)).consumers == Index.Init(threads, half, ok).consumers;
    assert Word(Index.Init(threads, half, ok)).headers == Index.Init(threads, half, ok).headers;
  }

  ghost predicate StaysInWindow(threads: nat, half: nat, ok: bool, schedule: seq<Queue.Event>) {
    schedule != [] ==>
      var before := schedule[..|schedule| - 1];
      && StaysInWindow(threads, half, ok, before)
      && StepInWindow(Queue.Execute(Queue.Init(threads, half, ok), before), schedule[|schedule| - 1])
  }

  /** Whole runs agree: with wrapping indices the program goes through the wrapped states of the unbounded
      sub-queue, so that all the lookups, all the blocks reused and all the elements delivered are the same. */
  lemma {:induction false} RunsAgree(threads: nat, half: nat, ok: bool, schedule: seq<Queue.Event>)
    requires half > 0 && IsPowerOfTwo(half) && StaysInWindow(threads, half, ok, schedule)
    ensures Words(Queue.Execute(Queue.Init(threads, half, ok), schedule))
            == Execute(Init(threads, half, ok), schedule)
  {
    hide Words, Step, Queue.Step, Queue.Inv, StepInWindow;
    if schedule == [] {
      InitWordsOf(threads, half, ok);
    } else {
      var before := schedule[..|schedule| - 1];
      RunsAgree(threads, half, ok, before);
      Queue.EveryRun(threads, half, ok, before);
      StepAgrees(Queue.Execute(Queue.Init(threads, half, ok), before), schedule[|schedule| - 1]);
    }
  }

  function Init(threads: nat, half: nat, ok: bool): State
  {
    State(W.WrapState(Tickets.Init(threads)), Index.Init(threads, half, ok))
  }

  lemma InitWordsOf(threads: nat, half: nat, ok: bool)
    ensures Words(Queue.Init(threads, half, ok)) == Init(threads, half, ok)
  {
    InitWords(threads, half, ok);
  }

  // The calls of enqueue.

  /** A call begins when its thread is not in another one. */
  function Begun(w: State, e: Queue.Event): Option<int> {
    if e.Enqueue? && w.store.producer.pc.Ready? then Some(e.value) else None
  }

  /** The calls of a whole run: one succeeds when the word of the tail changes. */
  function Calls(w: State, schedule: seq<Queue.Event>): Log {
    if schedule == [] then EMPTY
    else
      var before := schedule[..|schedule| - 1];
      Observe(Calls(w, before), Begun(Execute(w, before), schedule[|before|]),
        Execute(w, schedule).store.tail != Execute(w, before).store.tail)
  }

  /** The tail moves by one at most, which its word shows. */
  lemma TailMoves(s: Queue.State, e: Queue.Event, log: Log)
    requires Queue.Inv(s) && Index.Recorded(s.store, log) && Queue.Inv(Queue.Step(s, e))
    ensures W.Wrap(Queue.Step(s, e).store.tail) != W.Wrap(s.store.tail) <==> Queue.Step(s, e).store.tail != s.store.tail
  {
    hide Queue.Step, Index.Inv, Tickets.Inv, W.Wrap;
    var s' := Queue.Step(s, e);
    Queue.StepRecords(s, e, log);
    Queue.StoreLength(s.store);
    Queue.StoreLength(s'.store);
    W.SameWord(s'.store.tail, s.store.tail);
  }

  lemma {:induction false} CallsAgree(threads: nat, half: nat, ok: bool, schedule: seq<Queue.Event>)
    requires half > 0 && IsPowerOfTwo(half) && StaysInWindow(threads, half, ok, schedule)
    ensures Calls(Init(threads, half, ok), schedule) == Queue.Calls(Queue.Init(threads, half, ok), schedule)
  {
    hide Queue.Step, Step, Queue.Inv, StepInWindow, Observe, W.Wrap, Index.Recorded, Index.Init, Tickets.Init;
    if schedule != [] {
      var before := schedule[..|schedule| - 1];
      CallsAgree(threads, half, ok, before);
      RunsAgree(threads, half, ok, before);
      RunsAgree(threads, half, ok, schedule);
      Queue.EveryRun(threads, half, ok, before);
      Queue.EveryRun(threads, half, ok, schedule);
      NewRecords(threads, half, ok, before);
      TailMoves(Queue.Execute(Queue.Init(threads, half, ok), before), schedule[|before|], Queue.Calls(Queue.Init(threads, half, ok), before));
    }
  }

  lemma NewRecords(threads: nat, half: nat, ok: bool, schedule: seq<Queue.Event>)
    ensures var s := Queue.Init(threads, half, ok); Index.Recorded(Queue.Execute(s, schedule).store, Queue.Calls(s, schedule))
  {
    Queue.RunRecords(Queue.Init(threads, half, ok), schedule);
  }

  /** A dequeue that has finished on words has delivered the elements enqueued at the indices it claimed. */
  lemma WordsDeliver(threads: nat, half: nat, ok: bool, schedule: seq<Queue.Event>, t: nat)
    requires half > 0 && IsPowerOfTwo(half) && StaysInWindow(threads, half, ok, schedule)
    ensures var s := Queue.Execute(Queue.Init(threads, half, ok), schedule);
      var w := Execute(Init(threads, half, ok), schedule);
      && s.store.enq == Calls(Init(threads, half, ok), schedule).succeeded
      && (t < |w.store.consumers| && t < |w.tickets.threads| && w.store.consumers[t].pc == Index.Idle
          && w.tickets.threads[t].pc == Tickets.Idle && w.tickets.threads[t].got > 0 ==>
        && t < |s.tickets.threads| && s.tickets.threads[t].got == w.tickets.threads[t].got
        && W.Wrap(s.tickets.threads[t].first) == w.tickets.threads[t].first
        && s.tickets.threads[t].first + s.tickets.threads[t].got <= |s.store.enq|
        && w.store.consumers[t].got
           == s.store.enq[s.tickets.threads[t].first..s.tickets.threads[t].first + s.tickets.threads[t].got])
  {
    CallsAgree(threads, half, ok, schedule);
    RunsAgree(threads, half, ok, schedule);
    var s := Queue.Execute(Queue.Init(threads, half, ok), schedule);
    hide Queue.Execute, Queue.Init, Execute, Init, Calls, Queue.Calls, Tickets.ClaimedOnce, Tickets.Covers, W.Wrap;
    Queue.DequeuesDeliver(threads, half, ok, schedule, t, 0);
    var w := Words(s);
    assert t < |s.store.consumers| ==> w.store.consumers[t] == WordConsumer(s.store.consumers[t]);
    assert t < |s.tickets.threads| ==> w.tickets.threads[t] == W.WrapLocal(s.tickets.threads[t]);
  }

  // Which runs stay in the window.

  /** At most `m` elements are asked for. */
  predicate Moderate(e: Queue.Event, m: nat) {
    e.Dequeue? ==> e.max <= m
  }

  /** After k steps: so many stretches have been opened, and no index is larger than that. */
  ghost predicate SizesBelow(s: Index.State, half: nat, k: nat) {
    && |s.seqs| <= k
    && (|s.headers| == 0 ==> s.producer.size <= half) && s.producer.size <= 2 * half + 2 * k
    && forall h :: 0 <= h < |s.headers| ==> s.headers[h].size <= 2 * half + 2 * k
  }

  lemma ProduceSizes(s: Index.State, e: Index.Event, half: nat, k: nat)
    requires Index.Inv(s) && SizesBelow(s, half, k) && (e.Enqueue? || e.Produce?)
    ensures SizesBelow(Index.Step(s, e), half, k + 1)
  {
    hide Index.CopiedEntries, Index.FreshEntries, Index.ResetFlags, Index.Increment, Off, Index.BlocksOk,
      Index.CellsOk, Index.TailOk, Index.ScanOk, Index.DoneOk, Index.ConsumersOk, Index.Disjoint, Index.HeaderOk;
    match s.producer.pc
    case Reuse =>
    case NewIndex =>
    case Requisition =>
    case WriteBase =>
    case WriteBlock =>
    case StoreFront =>
    case _ =>
  }

  /** Consumers open no stretch and double no index. */
  lemma ConsumeSizes(s: Index.State, e: Index.Event)
    requires e.Claim? || e.Consume?
    ensures var s' := Index.Step(s, e);
      s'.seqs == s.seqs && s'.producer == s.producer && s'.headers == s.headers
  {
    hide Base, Blk, Off, SignedQuotient, Mod;
  }

  /** How far a run can have come after k steps of at most m elements each. */
  ghost predicate Reached(s: Queue.State, half: nat, k: nat, m: nat) {
    W.Below(s.tickets, k * m, m) && SizesBelow(s.store, half, k)
  }

  lemma StepReaches(s: Queue.State, e: Queue.Event, half: nat, k: nat, m: nat)
    requires Queue.Inv(s) && Reached(s, half, k, m) && Moderate(e, m) && m > 0
    ensures Reached(Queue.Step(s, e), half, k + 1, m)
  {
    hide Index.Step, Tickets.Step, Index.Inv, Tickets.Inv;
    W.OneMoreTime(k, m);
    W.StillBelow(s.tickets, k * m, (k + 1) * m, m);
    match e
    case Enqueue(value) =>
      ProduceSizes(s.store, Index.Enqueue(value), half, k);
    case Produce(ok) =>
      ProduceSizes(s.store, Index.Produce(ok), half, k);
      W.StepBelow(s.tickets, Tickets.Publish(1), k * m, m);
    case Dequeue(t, max) =>
      if t < |s.tickets.threads| {
        W.StepBelow(s.tickets, Tickets.Run(t, max), k * m, m);
        ConsumeSizes(s.store, Index.Consume(t));
        ConsumeSizes(s.store, Index.Claim(t, s.tickets.threads[t].actual));
      }
  }

  lemma {:induction false} RunReaches(threads: nat, half: nat, ok: bool, schedule: seq<Queue.Event>, m: nat)
    requires half > 0 && IsPowerOfTwo(half) && m > 0
    requires forall i :: 0 <= i < |schedule| ==> Moderate(schedule[i], m)
    ensures Reached(Queue.Execute(Queue.Init(threads, half, ok), schedule), half, |schedule|, m)
  {
    hide Queue.Step, Queue.Inv, Moderate, Reached;
    if schedule == [] {
      InitReaches(threads, half, ok, m);
    } else {
      var before := schedule[..|schedule| - 1];
      RunReaches(threads, half, ok, before, m);
      Queue.EveryRun(threads, half, ok, before);
      StepReaches(Queue.Execute(Queue.Init(threads, half, ok), before), schedule[|schedule| - 1], half, |before|, m);
    }
  }

  lemma InitReaches(threads: nat, half: nat, ok: bool, m: nat)
    ensures Reached(Queue.Init(threads, half, ok), half, 0, m)
  {
  }

  lemma ReachedIsNear(s: Queue.State, e: Queue.Event, half: nat, k: nat, m: nat)
    requires Queue.Inv(s) && Reached(s, half, k, m) && m < W.RANGE
    requires 2 * half + 2 * k <= W.RANGE && 2 * (k * m) + BLOCK_SIZE < W.HALF
    ensures StepInWindow(s, e)
  {
    hide Index.Inv, Tickets.Inv, W.InWindow, W.LocalBelow;
    if e.Dequeue? && e.t < |s.tickets.threads| {
      W.BelowIsNear(s.tickets, e.t, k * m, m);
    }
  }

  /** No run leaves the window in which fewer than about a quarter of the range of elements can have been
      enqueued or asked for: that many steps of at most m elements each. */
  lemma {:induction false} ShortRunsStay(threads: nat, half: nat, ok: bool, schedule: seq<Queue.Event>, m: nat)
    requires half > 0 && IsPowerOfTwo(half) && m > 0
    requires forall i :: 0 <= i < |schedule| ==> Moderate(schedule[i], m)
    requires 2 * (|schedule| * m) + BLOCK_SIZE < W.HALF && 2 * half + 2 * |schedule| <= W.RANGE
    ensures StaysInWindow(threads, half, ok, schedule)
  {
    hide Queue.Execute, Queue.Init, Queue.Inv, Moderate, StepInWindow, Reached;
    if schedule != [] {
      var before := schedule[..|schedule| - 1];
      W.OneMoreTime(|before|, m);
      ShortRunsStay(threads, half, ok, before, m);
      RunReaches(threads, half, ok, before, m);
      Queue.EveryRun(threads, half, ok, before);
      ReachedIsNear(Queue.Execute(Queue.Init(threads, half, ok), before), schedule[|schedule| - 1], half, |before|, m);
    }
  }
}
