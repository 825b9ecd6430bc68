/** The implicit sub-queue on 64-bit words that wrap around, shown to go through the wrapped states of the
    unbounded sub-queue of `ImplicitProducer`. */
module ImplicitWords {
  import opened BlockArithmetic
  import opened Options
  import opened CallLog
  import W = Wraparound
  import Tickets
  import Index = ImplicitIndex
  import Queue = ImplicitProducer

  // The words that hold a state of the store.

  function WordEntry(e: Index.Entry): Index.Entry {
    if e.key.Some? then e.(key := Some(W.Wrap(e.key.value))) else e
  }

  function WordConsumer(k: Index.Consumer): Index.Consumer {
    k.(first := W.Wrap(k.first), end := W.Wrap(k.end), start := W.Wrap(k.start), cur := W.Wrap(k.cur),
       stop := W.Wrap(k.stop), seen := 0)
  }

  /** Which stretch a block is for is history; that it is free is what the free list knows. */
  function PlainPlace(p: Index.Place): Index.Place {
    match p
    case Live(_) => Index.Live(0)
    case Closing(_, c) => Index.Closing(0, c)
    case _ => p
  }

  function PlainHeader(hd: Index.Header): Index.Header {
    hd.(org := 0, lo := 0, hi := 0, pub := 0, count := 0)
  }

  function Word(s: Index.State): (w: Index.State)
    ensures |w.headers| == |s.headers| && |w.consumers| == |s.consumers| && |w.entries| == |s.entries| && |w.place| == |s.place|
  {
    Index.State(W.Wrap(s.tail), W.Wrap(s.head),
      seq(|s.entries|, e requires 0 <= e < |s.entries| => WordEntry(s.entries[e])),
      seq(|s.headers|, h requires 0 <= h < |s.headers| => PlainHeader(s.headers[h])),
      s.blocks, s.producer,
      seq(|s.consumers|, c requires 0 <= c < |s.consumers| => WordConsumer(s.consumers[c])),
      [], [], [], 0, {},
      seq(|s.place|, b requires 0 <= b < |s.place| => PlainPlace(s.place[b])), {}, {})
  }

  /** The program keeps no history. */
  function Forget(w: Index.State): (w': Index.State)
    ensures |w'.headers| == |w.headers| && |w'.consumers| == |w.consumers| && |w'.place| == |w.place|
  {
    Index.State(w.tail, w.head, w.entries,
      seq(|w.headers|, h requires 0 <= h < |w.headers| => PlainHeader(w.headers[h])),
      w.blocks, w.producer,
      seq(|w.consumers|, c requires 0 <= c < |w.consumers| => w.consumers[c].(seen := 0)),
      [], [], [], 0, {},
      seq(|w.place|, b requires 0 <= b < |w.place| => PlainPlace(w.place[b])), {}, {})
  }

  // The steps of the program.

  function Produce(w: Index.State, ok: bool, pick: nat): Index.State {
    if w.producer.pc.Publish? then Index.WithProducer(w, Index.Ready).(tail := W.Wrap(w.tail + 1))
    else if Index.ProducerCanStep(w) then Forget(Index.StepProducer(w, ok, pick))
    else w
  }

  function Claim(w: Index.State, c: nat, count: nat): Index.State
    requires c < |w.consumers|
  {
    var first, end := w.head, W.Wrap(w.head + count);
    Index.WithConsumer(w, c,
      w.consumers[c].(pc := Index.LoadIndex, first := first, end := end, start := first, cur := first, stop := first, got := []))
    .(head := end)
  }

  predicate ConsumerCanStep(w: Index.State, c: nat)
    requires c < |w.consumers|
  {
    var k := w.consumers[c];
    match k.pc
    case LoadKey => Index.ConsumerCanStep(w, c) && Index.KeyAt(w, k.header, k.tail).value >= 0
    case AddCount => k.block < |w.blocks| && k.block < |w.place| && k.header < |w.headers|
    case _ => Index.ConsumerCanStep(w, c)
  }

  function Consume(w: Index.State, c: nat): Index.State
    requires c < |w.consumers| && ConsumerCanStep(w, c)
  {
    var k := w.consumers[c];
    match k.pc
    case LoadKey =>
      Index.WithConsumer(w, c,
        k.(pc := Index.LoadValue,
           slot := W.SlotOf(k.tail, Base(Blk(k.first)), Index.KeyAt(w, k.header, k.tail).value, w.headers[k.header].capacity)))
    case LoadValue =>
      Index.WithConsumer(w, c,
        k.(pc := Index.Take, entry := w.headers[k.header].index[k.slot],
           block := Index.ValueAt(w, k.header, k.slot).value, stop := W.EndIndex(k.end, k.cur)))
    case Take =>
      var b := w.blocks[k.block];
      var next := W.Wrap(k.cur + 1);
      Index.WithConsumer(w, c,
        k.(pc := if next == k.stop then Index.AddCount else Index.Take, cur := next, got := k.got + [b.cells[Off(k.cur)].value]))
      .(blocks := w.blocks[k.block := b.(cells := b.cells[Off(k.cur) := None])])
    case AddCount =>
      var b := w.blocks[k.block];
      var finished := b.finished + W.Minus(k.stop, k.start);
      var w' := w.(blocks := w.blocks[k.block := b.(finished := finished)]);
      if finished == BLOCK_SIZE then
        Index.WithConsumer(w', c, k.(pc := Index.ClearEntry)).(place := w.place[k.block := Index.Closing(0, c)])
      else Index.WithConsumer(w', c, Index.NextBlock(w, k))
    case _ => Forget(Index.StepConsumer(w, c))
  }

  // One step of the producer.

  /** The live indices lie less than half the range apart, and the sizes of blocks and index are words. */
  predicate InWindow(s: Index.State) {
    && BLOCK_SIZE < W.HALF
    && s.tail + BLOCK_SIZE - Base(s.lo) < W.HALF
    && forall h :: 0 <= h < |s.headers| ==> s.headers[h].capacity <= W.RANGE
  }

  /** The value that marks an entry without a key is not the word of any base. */
  lemma InvalidIsNoBase(q: nat)
    requires BLOCK_SIZE <= W.RANGE
    ensures W.Wrap(Base(q)) != 1
  {
    Located(q, 0);
    W.WordInBlock(Base(q));
  }

  /** Steps that write neither entries nor places. */
  lemma LocalAgrees(s: Index.State, ok: bool, pick: nat)
    requires Index.ProducerCanStep(s) && (s.producer.pc.Ready? || s.producer.pc.CheckRoom? || s.producer.pc.Construct?)
    requires s.producer.pc.Construct? ==> Off(W.Wrap(s.tail)) == Off(s.tail)
    ensures Word(Index.StepProducer(s, ok, pick)) == Produce(Word(s), ok, pick)
  {
    hide W.Wrap, WordEntry, Off, Index.Increment, Index.Decrement;
    var w, w' := Word(Index.StepProducer(s, ok, pick)), Produce(Word(s), ok, pick);
    assert w.headers == w'.headers;
    assert w.consumers == w'.consumers;
    assert w.place == w'.place;
    assert w.entries == w'.entries;
  }

  /** A change of the producer alone is the same change on words. */
  lemma ProducerOnly(s: Index.State, p: Index.Producer)
    ensures Word(s.(producer := p)) == Word(s).(producer := p) && Forget(Word(s).(producer := p)) == Word(s).(producer := p)
  {
    hide W.Wrap, WordEntry;
    assert Forget(Word(s)).headers == Word(s).headers;
    assert Forget(Word(s)).consumers == Word(s).consumers;
    assert Forget(Word(s)).place == Word(s).place;
  }

  lemma EntriesAgree(s: Index.State, e: nat)
    requires e < |s.entries|
    ensures Word(s).entries[e].key == None <==> s.entries[e].key == None
    ensures Word(s).entries[e].value == s.entries[e].value
  {
  }

  /** The two reads of a probe. */
  lemma ProbedEntry(s: Index.State)
    requires Index.ProducerCanStep(s) && s.producer.pc.Probe? && |s.headers| > 0
    ensures var hd := s.headers[Index.Mine(s)];
      var i := Index.Increment(hd.tail, hd.capacity);
      && i < |hd.index| && hd.index[i] < |s.entries|
      && Index.HasIndex(Word(s)) && Index.ProducerCanStep(Word(s))
      && Word(s).headers[Index.Mine(s)].tail == hd.tail && Word(s).headers[Index.Mine(s)].capacity == hd.capacity
      && Word(s).headers[Index.Mine(s)].index == hd.index
  {
    hide W.Wrap, WordEntry;
  }

  lemma SameProducer(s: Index.State)
    ensures Word(s).producer == s.producer && |Word(s).headers| == |s.headers|
  {
  }

  lemma ProbeAgrees(s: Index.State, ok: bool, pick: nat)
    requires Index.ProducerCanStep(s) && s.producer.pc.Probe?
    ensures Word(Index.StepProducer(s, ok, pick)) == Produce(Word(s), ok, pick)
  {
    hide W.Wrap, WordEntry, PlainPlace, PlainHeader, Word, Forget, Index.Increment, Index.HasIndex;
    if |s.headers| > 0 {
      ProbedEntry(s);
      var hd := s.headers[Index.Mine(s)];
      EntriesAgree(s, hd.index[Index.Increment(hd.tail, hd.capacity)]);
    }
    ProducerOnly(s, Index.StepProducer(s, ok, pick).producer);
    SameProducer(s);
  }

  lemma TailAgrees(s: Index.State, ok: bool, pick: nat)
    requires Index.ProducerCanStep(s) && (s.producer.pc.StoreTail? || s.producer.pc.Rewind?)
    ensures Word(Index.StepProducer(s, ok, pick)) == Produce(Word(s), ok, pick)
  {
    hide W.Wrap, WordEntry, Off, Index.Increment, Index.Decrement;
    var w, w' := Word(Index.StepProducer(s, ok, pick)), Produce(Word(s), ok, pick);
    assert w.headers == w'.headers;
    assert w.consumers == w'.consumers;
    assert w.place == w'.place;
    assert w.entries == w'.entries;
  }

  lemma DoublingAgrees(hd: Index.Header, firstNew: nat)
    requires hd.capacity > 0 && |hd.index| == hd.capacity
    ensures Index.DoubledIndex(PlainHeader(hd), firstNew) == Index.DoubledIndex(hd, firstNew)
  {
    forall i | 0 <= i < 2 * hd.capacity
      ensures Index.DoubledIndex(PlainHeader(hd), firstNew)[i] == Index.DoubledIndex(hd, firstNew)[i]
    {
      assert Index.DoubledAt(PlainHeader(hd), firstNew, i) == Index.DoubledAt(hd, firstNew, i);
    }
  }

  lemma NewIndexAgrees(s: Index.State, ok: bool, pick: nat)
    requires Index.ProducerCanStep(s) && s.producer.pc.NewIndex?
    ensures Word(Index.StepProducer(s, ok, pick)) == Produce(Word(s), ok, pick)
  {
    hide W.Wrap, Index.Increment, Index.DoubledIndex;
    DoublingAgrees(s.headers[Index.Mine(s)], |s.entries|);
    var w, w' := Word(Index.StepProducer(s, ok, pick)), Produce(Word(s), ok, pick);
    assert w.headers == w'.headers;
    assert w.consumers == w'.consumers;
    assert w.place == w'.place;
    assert w.entries == w'.entries;
  }

  lemma StoreKeyAgrees(s: Index.State, ok: bool, pick: nat)
    requires Index.ProducerCanStep(s) && s.producer.pc.StoreKey?
    ensures Word(Index.StepProducer(s, ok, pick)) == Produce(Word(s), ok, pick)
  {
    hide W.Wrap;
    var w, w' := Word(Index.StepProducer(s, ok, pick)), Produce(Word(s), ok, pick);
    assert w.headers == w'.headers;
    assert w.consumers == w'.consumers;
    assert w.place == w'.place;
    assert w.entries == w'.entries;
  }

  lemma StoreValueAgrees(s: Index.State, ok: bool, pick: nat)
    requires Index.ProducerCanStep(s) && (s.producer.pc.ClearValue? || s.producer.pc.StoreValue?)
    ensures Word(Index.StepProducer(s, ok, pick)) == Produce(Word(s), ok, pick)
  {
    hide W.Wrap;
    var w, w' := Word(Index.StepProducer(s, ok, pick)), Produce(Word(s), ok, pick);
    assert w.headers == w'.headers;
    assert w.consumers == w'.consumers;
    assert w.place == w'.place;
    assert w.entries == w'.entries;
  }

  lemma RequisitionAgrees(s: Index.State, ok: bool, pick: nat)
    requires Index.ProducerCanStep(s) && s.producer.pc.Requisition?
    ensures Word(Index.StepProducer(s, ok, pick)) == Produce(Word(s), ok, pick)
  {
    hide W.Wrap, WordEntry;
    var w, w' := Word(Index.StepProducer(s, ok, pick)), Produce(Word(s), ok, pick);
    assert w.headers == w'.headers && w.consumers == w'.consumers && w.place == w'.place && w.entries == w'.entries;
  }

  lemma PublishAgrees(s: Index.State, ok: bool, pick: nat)
    requires s.producer.pc.Publish? && Index.ProducerCanStep(s)
    ensures Word(Index.StepProducer(s, ok, pick)) == Produce(Word(s), ok, pick)
  {
    W.WrapDifference(s.tail, 1);
    hide W.Wrap;
  }

  lemma StartAgrees(s: Index.State, value: int)
    requires s.producer.pc.Ready? && BLOCK_SIZE <= W.RANGE
    ensures Word(Index.StartEnqueue(s, value)) == Index.StartEnqueue(Word(s), value)
  {
    W.WordInBlock(s.tail);
    hide W.Wrap;
  }

  lemma ProducerAgrees(s: Index.State, ok: bool, pick: nat)
    requires Index.Inv(s) && InWindow(s)
    ensures Word(Index.Step(s, Index.Produce(ok, pick))) == Produce(Word(s), ok, pick)
  {
    Index.ProduceKeeps(s, ok, pick);
    W.WordInBlock(s.tail);
    hide Index.Inv, Word, Index.StepProducer, Index.ProducerCanStep, Produce;
    match s.producer.pc
    case Probe => ProbeAgrees(s, ok, pick);
    case NewIndex => NewIndexAgrees(s, ok, pick);
    case StoreKey => StoreKeyAgrees(s, ok, pick);
    case ClearValue => StoreValueAgrees(s, ok, pick);
    case StoreValue => StoreValueAgrees(s, ok, pick);
    case Requisition => RequisitionAgrees(s, ok, pick);
    case Publish => PublishAgrees(s, ok, pick);
    case StoreTail => TailAgrees(s, ok, pick);
    case Rewind => TailAgrees(s, ok, pick);
    case _ => LocalAgrees(s, ok, pick);
  }

  // One step of a consumer.

  lemma ConsumerUpdates(s: Index.State, c: nat, k: Index.Consumer)
    requires c < |s.consumers|
    ensures Word(Index.WithConsumer(s, c, k)) == Index.WithConsumer(Word(s), c, WordConsumer(k))
  {
    assert Word(Index.WithConsumer(s, c, k)).consumers == Index.WithConsumer(Word(s), c, WordConsumer(k)).consumers;
  }

  lemma ClaimAgrees(s: Index.State, c: nat, count: nat)
    requires c < |s.consumers| && s.consumers[c].pc == Index.Idle && count > 0 && s.head + count <= s.tail
    ensures Word(Index.ClaimRange(s, c, count)) == Claim(Word(s), c, count)
  {
    W.WrapDifference(s.head, count);
    hide W.Wrap, WordEntry, PlainPlace, PlainHeader;
    assert Word(Index.ClaimRange(s, c, count)).consumers == Claim(Word(s), c, count).consumers;
  }

  /** What the words of a claim rely on. */
  ghost predicate Near(s: Index.State, k: Index.Consumer) {
    && BLOCK_SIZE < W.HALF && s.tail + BLOCK_SIZE - Base(s.lo) < W.HALF
    && k.start <= k.cur <= k.end <= s.tail
    && (k.pc == Index.Release ==> k.stop <= k.end && (k.stop < k.end ==> Base(s.lo) <= k.stop))
    && (k.pc in {Index.LoadKey, Index.LoadValue, Index.Take, Index.AddCount} ==>
          Base(s.lo) <= Base(Blk(k.start)) <= k.start < k.end)
    && (k.pc == Index.LoadValue ==> k.cur == k.start)
    && (k.pc == Index.Take ==> k.cur < k.stop <= k.end)
    && (k.pc == Index.AddCount ==> k.start < k.stop <= k.end)
    && (k.pc == Index.LoadKey ==>
          && k.first == k.start && k.header < |s.headers| && Base(s.lo) <= Base(k.seen) <= s.tail + BLOCK_SIZE
          && 0 < s.headers[k.header].capacity <= W.RANGE && IsPowerOfTwo(s.headers[k.header].capacity)
          && Index.KeyAt(s, k.header, k.tail) == Some(Base(k.seen)))
  }

  lemma ClaimIsNear(s: Index.State, c: nat)
    requires Index.Inv(s) && InWindow(s) && c < |s.consumers|
    requires s.consumers[c].pc in {Index.LoadKey, Index.LoadValue, Index.Take, Index.AddCount, Index.Release}
    ensures Near(s, s.consumers[c])
  {
    var k := s.consumers[c];
    assert Index.ConsumerOk(s, c, k);
    if k.pc == Index.Release {
      if k.stop < k.end {
        Index.UnfinishedStretch(s, k.stop);
        BaseGrows(s.lo, Blk(k.stop));
      }
    } else {
      Index.StretchesInUse(s, k);
      BaseGrows(s.lo, Blk(k.start));
      Split(k.start);
      if k.pc == Index.LoadKey {
        TailKeyIsNear(s, k);
      }
    }
    hide Index.IndexOk, Index.BlocksOk, Index.CellsOk, Index.InsertOk, Index.Disjoint, Index.ConsumersOk;
  }

  lemma TailKeyIsNear(s: Index.State, k: Index.Consumer)
    requires Index.IndexOk(s) && Index.TailOk(s) && InWindow(s) && k.pc == Index.LoadKey && k.end > 0
    requires Index.LookupOk(s.seqs, s.entryOf, s.headers, k) && s.lo <= Blk(k.end - 1)
    ensures k.header < |s.headers| && Base(s.lo) <= Base(k.seen) <= s.tail + BLOCK_SIZE
    ensures 0 < s.headers[k.header].capacity <= W.RANGE && IsPowerOfTwo(s.headers[k.header].capacity)
    ensures Index.KeyAt(s, k.header, k.tail) == Some(Base(k.seen))
  {
    var n := |s.seqs|;
    assert Index.HeaderOk(s.entryOf, s.lo, s.headers[k.header]);
    assert Index.EntryOk(s.entries, s.entryOf, s.seqs, s.nulled, k.seen);
    Index.EntryAt(s, k.header, k.seen);
    BaseGrows(s.lo, k.seen);
    BaseGrows(k.seen, n);
    if n > 0 {
      BaseGrows(n - 1, n);
    }
  }

  lemma LoadsAgree(s: Index.State, c: nat)
    requires c < |s.consumers| && s.consumers[c].pc in {Index.Idle, Index.LoadIndex, Index.LoadTail} && Index.ConsumerCanStep(s, c)
    ensures ConsumerCanStep(Word(s), c) && Word(Index.StepConsumer(s, c)) == Consume(Word(s), c)
  {
    hide W.Wrap, WordEntry;
    var w, w' := Word(Index.StepConsumer(s, c)), Consume(Word(s), c);
    assert w.consumers == w'.consumers;
    assert w.headers == w'.headers;
    assert w.place == w'.place;
  }

  lemma KeyAgrees(s: Index.State, h: nat, slot: nat)
    ensures Index.KeyAt(s, h, slot).Some? ==>
      && h < |s.headers| && slot < |s.headers[h].index|
      && Index.KeyAt(Word(s), h, slot) == Some(W.Wrap(Index.KeyAt(s, h, slot).value))
    ensures Index.ValueAt(Word(s), h, slot) == Index.ValueAt(s, h, slot)
  {
  }

  lemma SameIndex(s: Index.State, h: nat)
    requires h < |s.headers|
    ensures Word(s).headers[h].capacity == s.headers[h].capacity && Word(s).headers[h].index == s.headers[h].index
  {
  }

  lemma SameConsumer(s: Index.State, c: nat)
    requires c < |s.consumers|
    ensures Word(s).consumers[c] == WordConsumer(s.consumers[c])
  {
  }

  /** The signed division of words leads to the same slot. */
  lemma LoadKeyAgrees(s: Index.State, c: nat)
    requires c < |s.consumers| && s.consumers[c].pc == Index.LoadKey && Near(s, s.consumers[c])
    requires Index.ConsumerCanStep(s, c)
    ensures ConsumerCanStep(Word(s), c) && Word(Index.StepConsumer(s, c)) == Consume(Word(s), c)
  {
    hide W.Wrap, W.SlotOf, Base, Blk, SignedQuotient, Mod, Index.KeyAt, WordEntry, PlainPlace, PlainHeader, IsPowerOfTwo, Word;
    var k := s.consumers[c];
    Split(k.first);
    KeyAgrees(s, k.header, k.tail);
    SameIndex(s, k.header);
    SameConsumer(s, c);
    W.SlotOfWord(k.tail, k.first, k.seen, s.headers[k.header].capacity);
    ConsumerUpdates(s, c, Index.StepConsumer(s, c).consumers[c]);
  }

  /** The key found is the word of the wanted base, so that the asserts of the lookup hold on words too. */
  lemma LoadValueAgrees(s: Index.State, c: nat)
    requires c < |s.consumers| && s.consumers[c].pc == Index.LoadValue && Near(s, s.consumers[c])
    requires Index.ConsumerCanStep(s, c)
    ensures ConsumerCanStep(Word(s), c) && Word(Index.StepConsumer(s, c)) == Consume(Word(s), c)
  {
    hide W.Wrap, W.EndIndex, Base, Blk, Index.KeyAt, Index.ValueAt, WordEntry, PlainPlace;
    var k := s.consumers[c];
    Split(k.cur);
    KeyAgrees(s, k.header, k.slot);
    W.WordInBlock(k.cur);
    W.EndIndexExact(k.end, k.cur);
    ConsumerUpdates(s, c, Index.StepConsumer(s, c).consumers[c]);
  }

  lemma TakeAgrees(s: Index.State, c: nat)
    requires c < |s.consumers| && s.consumers[c].pc == Index.Take && Near(s, s.consumers[c])
    requires Index.ConsumerCanStep(s, c)
    ensures ConsumerCanStep(Word(s), c) && Word(Index.StepConsumer(s, c)) == Consume(Word(s), c)
  {
    hide W.Wrap, Base, Blk, Off, WordEntry, PlainPlace, PlainHeader;
    var k := s.consumers[c];
    W.WordInBlock(k.cur);
    W.WrapDifference(k.cur, 1);
    W.SameWord(k.cur + 1, k.stop);
    ConsumerUpdates(s, c, Index.StepConsumer(s, c).consumers[c]);
  }

  /** On to the next block, or out. */
  lemma NextAgrees(s: Index.State, k: Index.Consumer)
    requires k.header < |s.headers| && k.stop <= k.end && k.end - k.stop < W.RANGE
    ensures WordConsumer(Index.NextBlock(s, k)) == Index.NextBlock(Word(s), WordConsumer(k))
  {
    W.SameWord(k.stop, k.end);
  }

  lemma AddCountAgrees(s: Index.State, c: nat)
    requires c < |s.consumers| && s.consumers[c].pc == Index.AddCount && Near(s, s.consumers[c])
    requires Index.ConsumerCanStep(s, c)
    ensures ConsumerCanStep(Word(s), c) && Word(Index.StepConsumer(s, c)) == Consume(Word(s), c)
  {
    hide W.Wrap, W.Minus, Base, Blk, Index.NextBlock, WordEntry, PlainHeader;
    var k := s.consumers[c];
    W.DistanceExact(k.stop, k.start);
    NextAgrees(s, k);
    var w, w' := Word(Index.StepConsumer(s, c)), Consume(Word(s), c);
    assert w.consumers == w'.consumers;
    assert w.place == w'.place;
  }

  lemma ClosingAgrees(s: Index.State, c: nat)
    requires c < |s.consumers| && s.consumers[c].pc in {Index.ClearEntry, Index.Release}
    requires s.consumers[c].pc == Index.Release ==> Near(s, s.consumers[c])
    requires Index.ConsumerCanStep(s, c)
    ensures ConsumerCanStep(Word(s), c) && Word(Index.StepConsumer(s, c)) == Consume(Word(s), c)
  {
    hide W.Wrap, Base, Blk, Index.NextBlock;
    var k := s.consumers[c];
    if k.pc == Index.Release {
      NextAgrees(s, k);
    }
    var w, w' := Word(Index.StepConsumer(s, c)), Consume(Word(s), c);
    assert w.consumers == w'.consumers;
    assert w.headers == w'.headers;
    assert w.place == w'.place;
    assert w.entries == w'.entries;
  }

  lemma ConsumerAgrees(s: Index.State, c: nat)
    requires Index.Inv(s) && InWindow(s) && c < |s.consumers|
    ensures ConsumerCanStep(Word(s), c) && Word(Index.Step(s, Index.Consume(c))) == Consume(Word(s), c)
  {
    hide Index.Inv, Word, Index.StepConsumer, Index.ConsumerCanStep, Consume, ConsumerCanStep, Near, InWindow;
    Index.ConsumeKeeps(s, c);
    if s.consumers[c].pc in {Index.LoadKey, Index.LoadValue, Index.Take, Index.AddCount, Index.Release} {
      ClaimIsNear(s, c);
    }
    match s.consumers[c].pc
    case LoadKey => LoadKeyAgrees(s, c);
    case LoadValue => LoadValueAgrees(s, c);
    case Take => TakeAgrees(s, c);
    case AddCount => AddCountAgrees(s, c);
    case ClearEntry => ClosingAgrees(s, c);
    case Release => ClosingAgrees(s, c);
    case _ => LoadsAgree(s, c);
  }

  // The whole sub-queue.

  datatype State = State(tickets: W.State, store: Index.State)

  function Words(s: Queue.State): State {
    State(W.WrapState(s.tickets), Word(s.store))
  }

  function Step(w: State, e: Queue.Event): State {
    match e
    case Enqueue(value) => if w.store.producer.pc.Ready? then w.(store := Index.StartEnqueue(w.store, value)) else w
    case Produce(ok, pick) =>
      var w' := w.(store := Produce(w.store, ok, pick));
      if w.store.producer.pc.Publish? then w'.(tickets := W.Step(w.tickets, Tickets.Publish(1))) else w'
    case Dequeue(t, max) =>
      if t < |w.store.consumers| && t < |w.tickets.threads| then
        if w.store.consumers[t].pc != Index.Idle then
          if ConsumerCanStep(w.store, t) then w.(store := Consume(w.store, t)) else w
        else
          var w' := w.(tickets := W.Step(w.tickets, Tickets.Run(t, max)));
          if w.tickets.threads[t].pc == Tickets.ClaimHead && w.tickets.threads[t].actual > 0 then
            w'.(store := Claim(w.store, t, w.tickets.threads[t].actual))
          else w'
      else w
  }

  function Execute(w: State, schedule: seq<Queue.Event>): State {
    if schedule == [] then w
    else Step(Execute(w, schedule[..|schedule| - 1]), schedule[|schedule| - 1])
  }

  /** All that the next step compares lies less than capacity the range apart. */
  predicate StepInWindow(s: Queue.State, e: Queue.Event) {
    && InWindow(s.store)
    && (e.Dequeue? && e.t < |s.tickets.threads| ==> W.InWindow(s.tickets, s.tickets.threads[e.t]))
  }

  lemma ConsumeAgrees(s: Queue.State, t: nat, max: nat)
    requires Queue.Inv(s) && InWindow(s.store) && t < |s.store.consumers| && s.store.consumers[t].pc != Index.Idle
    ensures Words(Queue.Step(s, Queue.Dequeue(t, max))) == Step(Words(s), Queue.Dequeue(t, max))
  {
    hide Index.Inv, Tickets.Inv, Index.Step, Consume, ConsumerCanStep;
    ConsumerAgrees(s.store, t);
  }

  lemma TicketsAgree(s: Queue.State, t: nat, max: nat)
    requires Queue.Inv(s) && StepInWindow(s, Queue.Dequeue(t, max))
    requires t < |s.store.consumers| && s.store.consumers[t].pc == Index.Idle
    ensures Words(Queue.Step(s, Queue.Dequeue(t, max))) == Step(Words(s), Queue.Dequeue(t, max))
  {
    hide Index.Inv, Tickets.Inv, Tickets.Step, W.Step, Claim, W.InWindow;
    var l := s.tickets.threads[t];
    W.StepsAgree(s.tickets, Tickets.Run(t, max));
    if l.pc == Tickets.ClaimHead {
      Tickets.ClaimFits(s.tickets, t);
      if l.actual > 0 {
        ClaimAgrees(s.store, t, l.actual);
      }
    }
    assert W.WrapState(s.tickets).threads[t] == W.WrapLocal(l);
  }

  lemma StepAgrees(s: Queue.State, e: Queue.Event)
    requires Queue.Inv(s) && StepInWindow(s, e)
    ensures Words(Queue.Step(s, e)) == Step(Words(s), e)
  {
    match e
    case Enqueue(value) =>
      if s.store.producer.pc.Ready? {
        StartAgrees(s.store, value);
      }
    case Produce(ok, pick) =>
      ProducerAgrees(s.store, ok, pick);
      W.StepsAgree(s.tickets, Tickets.Publish(1));
    case Dequeue(t, max) =>
      Queue.SameThreads(s);
      if t < |s.store.consumers| {
        if s.store.consumers[t].pc != Index.Idle { ConsumeAgrees(s, t, max); } else { TicketsAgree(s, t, max); }
      }
  }

  lemma InitWords(threads: nat, capacity: nat, ok: bool)
    requires capacity > 0
    ensures Word(Index.Init(threads, capacity, ok)) == Index.Init(threads, capacity, ok)
  {
    var s := Index.Init(threads, capacity, ok);
    assert Word(s).consumers == s.consumers;
    assert Word(s).headers == s.headers;
    assert Word(s).entries == s.entries;
  }

  ghost predicate StaysInWindow(threads: nat, capacity: nat, ok: bool, schedule: seq<Queue.Event>)
    requires capacity > 0
  {
    schedule != [] ==>
      var before := schedule[..|schedule| - 1];
      && StaysInWindow(threads, capacity, ok, before)
      && StepInWindow(Queue.Execute(Queue.Init(threads, capacity, ok), before), schedule[|schedule| - 1])
  }

  /** Whole runs agree: with wrapping indices the program goes through the wrapped states of the unbounded
      sub-queue, so that all the lookups, all the blocks reused and all the elements delivered are the same. */
  lemma {:induction false} RunsAgree(threads: nat, capacity: nat, ok: bool, schedule: seq<Queue.Event>)
    requires capacity > 0 && IsPowerOfTwo(capacity) && StaysInWindow(threads, capacity, ok, schedule)
    ensures Words(Queue.Execute(Queue.Init(threads, capacity, ok), schedule))
            == Execute(Init(threads, capacity, ok), schedule)
  {
    hide Words, Step, Queue.Step, Queue.Inv, StepInWindow;
    if schedule == [] {
      InitWordsOf(threads, capacity, ok);
    } else {
      var before := schedule[..|schedule| - 1];
      RunsAgree(threads, capacity, ok, before);
      Queue.EveryRun(threads, capacity, ok, before);
      StepAgrees(Queue.Execute(Queue.Init(threads, capacity, ok), before), schedule[|schedule| - 1]);
    }
  }

  function Init(threads: nat, capacity: nat, ok: bool): State
    requires capacity > 0
  {
    State(W.WrapState(Tickets.Init(threads)), Index.Init(threads, capacity, ok))
  }

  lemma InitWordsOf(threads: nat, capacity: nat, ok: bool)
    requires capacity > 0
    ensures Words(Queue.Init(threads, capacity, ok)) == Init(threads, capacity, ok)
  {
    InitWords(threads, capacity, ok);
  }

  // The calls of enqueue.

  /** A call begins when its thread is not in another one. */
  function Begun(w: State, e: Queue.Event): Option<int> {
    if e.Enqueue? && w.store.producer.pc.Ready? then Some(e.value) else None
  }

  /** The calls of a whole run: one succeeds when the word of the tail changes. */
  function Calls(w: State, schedule: seq<Queue.Event>): Log {
    if schedule == [] then EMPTY
    else
      var before := schedule[..|schedule| - 1];
      Observe(Calls(w, before), Begun(Execute(w, before), schedule[|before|]),
        Execute(w, schedule).store.tail != Execute(w, before).store.tail)
  }

  /** The tail moves by one at most, which its word shows. */
  lemma TailMoves(s: Queue.State, e: Queue.Event, log: Log)
    requires Queue.Inv(s) && Index.Recorded(s.store, log) && Queue.Inv(Queue.Step(s, e))
    ensures W.Wrap(Queue.Step(s, e).store.tail) != W.Wrap(s.store.tail) <==> Queue.Step(s, e).store.tail != s.store.tail
  {
    hide Queue.Step, Index.Inv, Tickets.Inv, W.Wrap;
    var s' := Queue.Step(s, e);
    Queue.StepRecords(s, e, log);
    Queue.StoreLength(s.store);
    Queue.StoreLength(s'.store);
    W.SameWord(s'.store.tail, s.store.tail);
  }

  lemma {:induction false} CallsAgree(threads: nat, capacity: nat, ok: bool, schedule: seq<Queue.Event>)
    requires capacity > 0 && IsPowerOfTwo(capacity) && StaysInWindow(threads, capacity, ok, schedule)
    ensures Calls(Init(threads, capacity, ok), schedule) == Queue.Calls(Queue.Init(threads, capacity, ok), schedule)
  {
    hide Queue.Step, Step, Queue.Inv, StepInWindow, Observe, W.Wrap, Index.Recorded, Index.Init, Tickets.Init;
    if schedule != [] {
      var before := schedule[..|schedule| - 1];
      CallsAgree(threads, capacity, ok, before);
      RunsAgree(threads, capacity, ok, before);
      RunsAgree(threads, capacity, ok, schedule);
      Queue.EveryRun(threads, capacity, ok, before);
      Queue.EveryRun(threads, capacity, ok, schedule);
      NewRecords(threads, capacity, ok, before);
      TailMoves(Queue.Execute(Queue.Init(threads, capacity, ok), before), schedule[|before|], Queue.Calls(Queue.Init(threads, capacity, ok), before));
    }
  }

  lemma NewRecords(threads: nat, capacity: nat, ok: bool, schedule: seq<Queue.Event>)
    requires capacity > 0
    ensures var s := Queue.Init(threads, capacity, ok); Index.Recorded(Queue.Execute(s, schedule).store, Queue.Calls(s, schedule))
  {
    Queue.RunRecords(Queue.Init(threads, capacity, ok), schedule);
  }

  /** A dequeue that has finished on words has delivered the elements enqueued at the indices it claimed. */
  lemma WordsDeliver(threads: nat, capacity: nat, ok: bool, schedule: seq<Queue.Event>, t: nat)
    requires capacity > 0 && IsPowerOfTwo(capacity) && StaysInWindow(threads, capacity, ok, schedule)
    ensures var s := Queue.Execute(Queue.Init(threads, capacity, ok), schedule);
      var w := Execute(Init(threads, capacity, ok), schedule);
      && s.store.enq == Calls(Init(threads, capacity, ok), schedule).succeeded
      && (t < |w.store.consumers| && t < |w.tickets.threads| && w.store.consumers[t].pc == Index.Idle
          && w.tickets.threads[t].pc == Tickets.Idle && w.tickets.threads[t].got > 0 ==>
        && t < |s.tickets.threads| && s.tickets.threads[t].got == w.tickets.threads[t].got
        && W.Wrap(s.tickets.threads[t].first) == w.tickets.threads[t].first
        && s.tickets.threads[t].first + s.tickets.threads[t].got <= |s.store.enq|
        && w.store.consumers[t].got
           == s.store.enq[s.tickets.threads[t].first..s.tickets.threads[t].first + s.tickets.threads[t].got])
  {
    CallsAgree(threads, capacity, ok, schedule);
    RunsAgree(threads, capacity, ok, schedule);
    var s := Queue.Execute(Queue.Init(threads, capacity, ok), schedule);
    hide Queue.Execute, Queue.Init, Execute, Init, Calls, Queue.Calls, Tickets.ClaimedOnce, Tickets.Covers, W.Wrap;
    Queue.DequeuesDeliver(threads, capacity, ok, schedule, t, 0);
    var w := Words(s);
    assert t < |s.store.consumers| ==> w.store.consumers[t] == WordConsumer(s.store.consumers[t]);
    assert t < |s.tickets.threads| ==> w.tickets.threads[t] == W.WrapLocal(s.tickets.threads[t]);
  }

  // Which runs stay in the window.

  /** At most `m` elements are asked for. */
  predicate Moderate(e: Queue.Event, m: nat) {
    e.Dequeue? ==> e.max <= m
  }

  /** After k steps: so many stretches have been opened, and no index is larger than that. */
  ghost predicate SizesBelow(s: Index.State, capacity: nat, k: nat) {
    && |s.seqs| <= k
    && forall h :: 0 <= h < |s.headers| ==> s.headers[h].capacity <= 2 * capacity + 2 * k
  }

  lemma ProduceSizes(s: Index.State, e: Index.Event, capacity: nat, k: nat)
    requires Index.Inv(s) && SizesBelow(s, capacity, k) && (e.Enqueue? || e.Produce?)
    ensures SizesBelow(Index.Step(s, e), capacity, k + 1)
  {
    hide Index.DoubledIndex, Index.FreshEntries, Index.Increment, Index.Decrement, Index.ProducerCanStep, Off, Index.BlocksOk,
      Index.CellsOk, Index.TailOk, Index.DoneOk, Index.ConsumersOk, Index.Disjoint, Index.HeaderOk, Index.EntryOk;
    match s.producer.pc
    case NewIndex =>
    case StoreKey =>
    case StoreTail =>
    case Requisition =>
    case Rewind =>
    case StoreValue =>
    case _ =>
  }

  /** Consumers open no stretch and double no index. */
  lemma ConsumeSizes(s: Index.State, e: Index.Event)
    requires e.Claim? || e.Consume?
    ensures var s' := Index.Step(s, e);
      s'.seqs == s.seqs && s'.producer == s.producer && s'.headers == s.headers
  {
    hide Base, Blk, Off, SignedQuotient, Mod, Index.Range;
  }

  /** How far a run can have come after k steps of at most m elements each. */
  ghost predicate Reached(s: Queue.State, capacity: nat, k: nat, m: nat) {
    W.Below(s.tickets, k * m, m) && SizesBelow(s.store, capacity, k)
  }

  lemma StepReaches(s: Queue.State, e: Queue.Event, capacity: nat, k: nat, m: nat)
    requires Queue.Inv(s) && Reached(s, capacity, k, m) && Moderate(e, m) && m > 0
    ensures Reached(Queue.Step(s, e), capacity, k + 1, m)
  {
    hide Index.Step, Tickets.Step, Index.Inv, Tickets.Inv;
    W.OneMoreTime(k, m);
    W.StillBelow(s.tickets, k * m, (k + 1) * m, m);
    match e
    case Enqueue(value) =>
      ProduceSizes(s.store, Index.Enqueue(value), capacity, k);
    case Produce(ok, pick) =>
      ProduceSizes(s.store, Index.Produce(ok, pick), capacity, k);
      W.StepBelow(s.tickets, Tickets.Publish(1), k * m, m);
    case Dequeue(t, max) =>
      if t < |s.tickets.threads| {
        W.StepBelow(s.tickets, Tickets.Run(t, max), k * m, m);
        ConsumeSizes(s.store, Index.Consume(t));
        ConsumeSizes(s.store, Index.Claim(t, s.tickets.threads[t].actual));
      }
  }

  lemma {:induction false} RunReaches(threads: nat, capacity: nat, ok: bool, schedule: seq<Queue.Event>, m: nat)
    requires capacity > 0 && IsPowerOfTwo(capacity) && m > 0
    requires forall i :: 0 <= i < |schedule| ==> Moderate(schedule[i], m)
    ensures Reached(Queue.Execute(Queue.Init(threads, capacity, ok), schedule), capacity, |schedule|, m)
  {
    hide Queue.Step, Queue.Inv, Moderate, Reached;
    if schedule == [] {
      InitReaches(threads, capacity, ok, m);
    } else {
      var before := schedule[..|schedule| - 1];
      RunReaches(threads, capacity, ok, before, m);
      Queue.EveryRun(threads, capacity, ok, before);
      StepReaches(Queue.Execute(Queue.Init(threads, capacity, ok), before), schedule[|schedule| - 1], capacity, |before|, m);
    }
  }

  lemma InitReaches(threads: nat, capacity: nat, ok: bool, m: nat)
    requires capacity > 0
    ensures Reached(Queue.Init(threads, capacity, ok), capacity, 0, m)
  {
  }

  lemma ReachedIsNear(s: Queue.State, e: Queue.Event, capacity: nat, k: nat, m: nat)
    requires Queue.Inv(s) && Reached(s, capacity, k, m) && m < W.RANGE
    requires 2 * capacity + 2 * k <= W.RANGE && 2 * (k * m) + BLOCK_SIZE < W.HALF
    ensures StepInWindow(s, e)
  {
    hide Index.Inv, Tickets.Inv, W.InWindow, W.LocalBelow;
    if e.Dequeue? && e.t < |s.tickets.threads| {
      W.BelowIsNear(s.tickets, e.t, k * m, m);
    }
  }

  /** No run leaves the window in which fewer than about a quarter of the range of elements can have been
      enqueued or asked for: that many steps of at most m elements each. */
  lemma {:induction false} ShortRunsStay(threads: nat, capacity: nat, ok: bool, schedule: seq<Queue.Event>, m: nat)
    requires capacity > 0 && IsPowerOfTwo(capacity) && m > 0
    requires forall i :: 0 <= i < |schedule| ==> Moderate(schedule[i], m)
    requires 2 * (|schedule| * m) + BLOCK_SIZE < W.HALF && 2 * capacity + 2 * |schedule| <= W.RANGE
    ensures StaysInWindow(threads, capacity, ok, schedule)
  {
    hide Queue.Execute, Queue.Init, Queue.Inv, Moderate, StepInWindow, Reached;
    if schedule != [] {
      var before := schedule[..|schedule| - 1];
      W.OneMoreTime(|before|, m);
      ShortRunsStay(threads, capacity, ok, before, m);
      RunReaches(threads, capacity, ok, before, m);
      Queue.EveryRun(threads, capacity, ok, before);
      ReachedIsNear(Queue.Execute(Queue.Init(threads, capacity, ok), before), schedule[|schedule| - 1], capacity, |before|, m);
    }
  }
}
