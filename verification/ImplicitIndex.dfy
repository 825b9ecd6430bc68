/** The blocks of an implicit producer and the circular index through which consumers find them.

    One producer enqueues single elements whose construction does not throw; any number of consumers
    first claim a range of indices (how, is the subject of module `Tickets`) and then look up the block of
    each index. A block goes back to the free list as soon as its last element is gone. The entries of the
    index are shared by all the headers that were ever published: doubling copies pointers, not entries.
    Each step is one access to shared memory.

    History, which no step branches on: `seqs` and `entryOf` (the block and the index entry of the q-th
    stretch of BLOCK_SIZE indices), `lo` (stretches below it have lost their entry), `nulled` (stretches
    whose entry has been cleared), `enq`, `taken`, `done`, the fields `org`, `lo`, `hi`, `pub`, `count` of a
    header and `seen` of a consumer. `place` says who has each block: the free ones are the free list, which
    the requisition of a block looks at; the rest is history. */
module ImplicitIndex {
  import opened Options
  import opened BlockArithmetic
  import opened Sequences
  import opened CallLog

  /** A BlockIndexEntry; a missing key is INVALID_BLOCK_BASE and a missing value is nullptr. */
  datatype Entry = Entry(key: Option<int>, value: Option<nat>)

  /** A BlockIndexHeader: `index` points to entries and `tail` is the slot last inserted. Slot k is for
      stretch q when k == Mod(q - org, capacity). The stretches [lo, hi) have had their key written, `pub`
      have got a block and `count` are at or before the tail slot. */
  datatype Header = Header(
    capacity: nat, tail: nat, index: seq<nat>, org: int, lo: nat, hi: nat, pub: nat, count: nat)

  datatype Block = Block(cells: seq<Option<int>>, finished: nat)

  datatype Place = Free | Pending | Live(q: nat) | Closing(q: nat, c: nat) | Releasing(c: nat)

  /** The producer's next action within enqueue. */
  datatype ProducerPc =
    | Ready
    | CheckRoom
    | Probe
    | NewIndex
    | StoreKey
    | StoreTail
    | Requisition
    | Rewind
    | ClearValue
    | StoreValue
    | Construct
    | Publish

  datatype Producer = Producer(pc: ProducerPc, value: int, tailBlock: nat, entry: nat, newTail: nat)

  datatype ConsumerPc =
    | Idle | LoadIndex | LoadTail | LoadKey | LoadValue | Take | AddCount | ClearEntry | Release

  /** A claim of [first, end); [start, stop) is the part in the current block and `cur` the next index. */
  datatype Consumer = Consumer(
    pc: ConsumerPc, first: nat, end: nat, start: nat, cur: nat, stop: nat,
    header: nat, tail: nat, slot: nat, entry: nat, block: nat, got: seq<int>, seen: nat)

  datatype State = State(
    tail: nat, head: nat, entries: seq<Entry>, headers: seq<Header>, blocks: seq<Block>,
    producer: Producer, consumers: seq<Consumer>,
    enq: seq<int>, seqs: seq<nat>, entryOf: seq<nat>, lo: nat, nulled: set<nat>, place: seq<Place>,
    taken: set<nat>, done: set<nat>)

  /** `ok` resolves whether the size limit and the allocators let the producer go on; `pick` names the
      block that the free list yields, if it is a free one; otherwise a new block is allocated. */
  datatype Event =
    | Enqueue(value: int)
    | Produce(ok: bool, pick: nat)
    | Claim(c: nat, count: nat)
    | Consume(c: nat)

  function FreshEntries(n: nat): (r: seq<Entry>)
    ensures |r| == n
  {
    seq(n, _ => Entry(None, None))
  }

  function IdleConsumer(): Consumer {
    Consumer(Idle, 0, 0, 0, 0, 0, 0, 0, 0, 0, 0, [], 0)
  }

  /** The constructor allocates an index of `capacity` entries; `ok` says whether that succeeds. */
  function Init(consumers: nat, capacity: nat, ok: bool): State
    requires capacity > 0
  {
    State(0, 0, if ok then FreshEntries(capacity) else [],
      if ok then [Header(capacity, capacity - 1, seq(capacity, i => i), 0, 0, 0, 0, 0)] else [], [],
      Producer(Ready, 0, 0, 0, 0), seq(consumers, _ => IdleConsumer()),
      [], [], [], 0, {}, [], {}, {})
  }

  function Increment(i: nat, size: nat): nat {
    if i + 1 == size then 0 else i + 1
  }

  function Decrement(i: nat, size: nat): nat {
    if i == 0 then (if size > 0 then size - 1 else 0) else i - 1
  }

  // The producer.

  function Mine(s: State): nat {
    if |s.headers| > 0 then |s.headers| - 1 else 0
  }

  function WithProducer(s: State, pc: ProducerPc): State {
    s.(producer := s.producer.(pc := pc))
  }

  function WithHeader(s: State, hd: Header): State
    requires |s.headers| > 0
  {
    s.(headers := s.headers[Mine(s) := hd])
  }

  function WithEntry(s: State, e: nat, entry: Entry): State
    requires e < |s.entries|
  {
    s.(entries := s.entries[e := entry])
  }

  function StartEnqueue(s: State, value: int): State {
    var s' := s.(producer := s.producer.(value := value));
    WithProducer(s', if Off(s.tail) == 0 then CheckRoom else Construct)
  }

  /** new_block_index: the old pointers from the slot after the tail on, then as many new entries. */
  function DoubledIndex(hd: Header, firstNew: nat): (r: seq<nat>)
    requires hd.capacity > 0 && |hd.index| == hd.capacity
    ensures |r| == 2 * hd.capacity
  {
    seq(2 * hd.capacity, (i: nat) => DoubledAt(hd, firstNew, i))
  }

  function DoubledAt(hd: Header, firstNew: nat, i: nat): nat
    requires hd.capacity > 0 && |hd.index| == hd.capacity
  {
    if i < hd.capacity then hd.index[Mod(hd.tail + 1 + i, hd.capacity)] else firstNew + (i - hd.capacity)
  }

  function DoubleIndex(s: State): State
    requires |s.headers| > 0 && s.headers[Mine(s)].capacity > 0 && |s.headers[Mine(s)].index| == s.headers[Mine(s)].capacity
  {
    var hd := s.headers[Mine(s)];
    var index := DoubledIndex(hd, |s.entries|);
    var newTail := Increment(hd.capacity - 1, 2 * hd.capacity);
    s.(entries := s.entries + FreshEntries(hd.capacity),
       headers := s.headers
         + [Header(2 * hd.capacity, hd.capacity - 1, index, s.lo, s.lo, |s.entryOf|, |s.seqs|, |s.seqs|)],
       producer := s.producer.(pc := StoreKey, newTail := newTail, entry := index[newTail]))
  }

  predicate HasIndex(s: State) {
    && |s.headers| > 0
    && s.headers[Mine(s)].capacity > 0 && |s.headers[Mine(s)].index| == s.headers[Mine(s)].capacity
    && s.headers[Mine(s)].tail < s.headers[Mine(s)].capacity
  }

  /** Whether the shared structures have the shape that the producer's next action reads or writes. */
  predicate ProducerCanStep(s: State) {
    var p := s.producer;
    match p.pc
    case Probe => |s.headers| > 0 ==>
      HasIndex(s) && s.headers[Mine(s)].index[Increment(s.headers[Mine(s)].tail, s.headers[Mine(s)].capacity)] < |s.entries|
    case NewIndex => HasIndex(s)
    case StoreKey => HasIndex(s) && p.entry < |s.entries|
    case StoreTail => HasIndex(s)
    case Requisition => |s.place| == |s.blocks|
    case Rewind => HasIndex(s)
    case ClearValue => p.entry < |s.entries|
    case StoreValue => HasIndex(s) && p.entry < |s.entries| && p.tailBlock < |s.place|
    case Construct => p.tailBlock < |s.blocks| && Off(s.tail) < |s.blocks[p.tailBlock].cells|
    case _ => true
  }

  function StepProducer(s: State, ok: bool, pick: nat): State
    requires ProducerCanStep(s)
  {
    var p := s.producer;
    match p.pc
    case Ready => s
    case CheckRoom => WithProducer(s, if ok then Probe else Ready)
    case Probe =>
      if |s.headers| == 0 then WithProducer(s, Ready)
      else
        var hd := s.headers[Mine(s)];
        var newTail := Increment(hd.tail, hd.capacity);
        var e := hd.index[newTail];
        if s.entries[e].key == None || s.entries[e].value == None then
          s.(producer := p.(pc := StoreKey, entry := e, newTail := newTail))
        else WithProducer(s, NewIndex)
    case NewIndex => if ok then DoubleIndex(s) else WithProducer(s, Ready)
    case StoreKey =>
      var s' := WithProducer(WithEntry(s, p.entry, s.entries[p.entry].(key := Some(s.tail))), StoreTail);
      OpenStretch(s', p.entry)
    case StoreTail =>
      var hd := s.headers[Mine(s)];
      WithProducer(WithHeader(s, hd.(tail := p.newTail, count := hd.count + 1)), Requisition)
    case Requisition =>
      if !ok then WithProducer(s, Rewind)
      else if pick < |s.blocks| && s.place[pick] == Free then
        s.(producer := p.(pc := StoreValue, tailBlock := pick),
           blocks := s.blocks[pick := s.blocks[pick].(finished := 0)], place := s.place[pick := Pending])
      else
        s.(producer := p.(pc := StoreValue, tailBlock := |s.blocks|),
           blocks := s.blocks + [Block(seq(BLOCK_SIZE, _ => None), 0)], place := s.place + [Pending])
    case Rewind =>
      var hd := s.headers[Mine(s)];
      WithProducer(
        WithHeader(s, hd.(tail := Decrement(hd.tail, hd.capacity), count := if hd.count > 0 then hd.count - 1 else 0)), ClearValue)
    case ClearValue => WithProducer(WithEntry(s, p.entry, s.entries[p.entry].(value := None)), Ready)
    case StoreValue =>
      var hd := s.headers[Mine(s)];
      WithProducer(WithEntry(WithHeader(s, hd.(pub := hd.pub + 1)), p.entry, s.entries[p.entry].(value := Some(p.tailBlock))), Construct)
        .(seqs := s.seqs + [p.tailBlock], place := s.place[p.tailBlock := Live(|s.seqs|)])
    case Construct =>
      var b := p.tailBlock;
      WithProducer(s, Publish)
        .(blocks := s.blocks[b := s.blocks[b].(cells := s.blocks[b].cells[Off(s.tail) := Some(p.value)])])
    case Publish => WithProducer(s, Ready).(tail := s.tail + 1, enq := s.enq + [p.value])
  }

  /** History of a key being written for the next stretch: a new one takes over the slot of the stretch
      `capacity` before it; one that had been rewound has its slot already. */
  function OpenStretch(s: State, e: nat): State
    requires |s.headers| > 0
  {
    if |s.entryOf| > |s.seqs| then s
    else
      var hd := s.headers[Mine(s)];
      var lo := if |s.entryOf| + 1 - s.lo > hd.capacity then s.lo + 1 else s.lo;
      WithHeader(s, hd.(lo := lo, hi := hd.hi + 1)).(entryOf := s.entryOf + [e], lo := lo)
  }

  // The consumers.

  function WithConsumer(s: State, c: nat, k: Consumer): State
    requires c < |s.consumers|
  {
    s.(consumers := s.consumers[c := k])
  }

  function ClaimRange(s: State, c: nat, count: nat): State
    requires c < |s.consumers|
  {
    var k := s.consumers[c];
    if k.pc == Idle && count > 0 && s.head + count <= s.tail then
      WithConsumer(s, c,
        k.(pc := LoadIndex, first := s.head, end := s.head + count, start := s.head, cur := s.head, stop := s.head, got := []))
      .(head := s.head + count)
    else s
  }

  function KeyAt(s: State, h: nat, slot: nat): Option<int> {
    if h < |s.headers| && slot < |s.headers[h].index| && s.headers[h].index[slot] < |s.entries|
    then s.entries[s.headers[h].index[slot]].key else None
  }

  function ValueAt(s: State, h: nat, slot: nat): Option<nat> {
    if h < |s.headers| && slot < |s.headers[h].index| && s.headers[h].index[slot] < |s.entries|
    then s.entries[s.headers[h].index[slot]].value else None
  }

  /** Whether the structures have the shape that the consumer's next action reads or writes. For the
      lookup this includes both asserts of get_block_index_index_for_index. */
  predicate ConsumerCanStep(s: State, c: nat)
    requires c < |s.consumers|
  {
    var k := s.consumers[c];
    match k.pc
    case LoadIndex => |s.headers| > 0
    case LoadTail => k.header < |s.headers|
    case LoadKey => KeyAt(s, k.header, k.tail).Some? && s.headers[k.header].capacity > 0
    case LoadValue =>
      KeyAt(s, k.header, k.slot) == Some(Base(Blk(k.cur))) && ValueAt(s, k.header, k.slot).Some?
    case Take => k.block < |s.blocks| && Off(k.cur) < |s.blocks[k.block].cells| && s.blocks[k.block].cells[Off(k.cur)].Some?
    case AddCount => k.block < |s.blocks| && k.block < |s.place| && k.start <= k.stop && k.header < |s.headers|
    case ClearEntry => k.entry < |s.entries| && k.block < |s.place|
    case Release => k.block < |s.place| && k.header < |s.headers|
    case _ => true
  }

  function Smaller(a: nat, b: nat): nat {
    if a < b then a else b
  }

  function Range(a: nat, b: nat): (r: set<nat>)
    ensures forall i :: i in r <==> a <= i < b
  {
    if b <= a then {} else Range(a, b - 1) + {(b - 1) as nat}
  }

  /** On to the next block of the claim, or out. */
  function NextBlock(s: State, k: Consumer): Consumer
    requires k.header < |s.headers|
  {
    if k.stop == k.end then k.(pc := Idle)
    else k.(pc := LoadValue, start := k.stop, cur := k.stop, slot := Increment(k.slot, s.headers[k.header].capacity))
  }

  function StepConsumer(s: State, c: nat): State
    requires c < |s.consumers| && ConsumerCanStep(s, c)
  {
    var k := s.consumers[c];
    match k.pc
    case Idle => s
    case LoadIndex => WithConsumer(s, c, k.(pc := LoadTail, header := Mine(s)))
    case LoadTail =>
      var hd := s.headers[k.header];
      WithConsumer(s, c, k.(pc := LoadKey, tail := hd.tail, seen := if hd.count > 0 then hd.count - 1 else 0))
    case LoadKey =>
      var offset := SignedQuotient(Base(Blk(k.first)) - KeyAt(s, k.header, k.tail).value);
      WithConsumer(s, c, k.(pc := LoadValue, slot := Mod(k.tail + offset, s.headers[k.header].capacity)))
    case LoadValue =>
      var stop := Smaller(k.end, Base(Blk(k.cur)) + BLOCK_SIZE);
      WithConsumer(s, c,
        k.(pc := Take, entry := s.headers[k.header].index[k.slot], block := ValueAt(s, k.header, k.slot).value, stop := stop))
    case Take =>
      var b := s.blocks[k.block];
      WithConsumer(s, c,
        k.(pc := if k.cur + 1 == k.stop then AddCount else Take, cur := k.cur + 1, got := k.got + [b.cells[Off(k.cur)].value]))
      .(blocks := s.blocks[k.block := b.(cells := b.cells[Off(k.cur) := None])], taken := s.taken + {k.cur})
    case AddCount =>
      var b := s.blocks[k.block];
      var finished := b.finished + (k.stop - k.start);
      var s' := s.(blocks := s.blocks[k.block := b.(finished := finished)], done := s.done + Range(k.start, k.stop));
      if finished == BLOCK_SIZE then
        WithConsumer(s', c, k.(pc := ClearEntry)).(place := s.place[k.block := Closing(Blk(k.start), c)])
      else WithConsumer(s', c, NextBlock(s, k))
    case ClearEntry =>
      WithConsumer(WithEntry(s, k.entry, s.entries[k.entry].(value := None)), c, k.(pc := Release))
        .(nulled := s.nulled + {Blk(k.start)}, place := s.place[k.block := Releasing(c)])
    case Release =>
      WithConsumer(s, c, NextBlock(s, k)).(place := s.place[k.block := Free])
  }

  function Step(s: State, e: Event): State {
    match e
    case Enqueue(value) => if s.producer.pc.Ready? then StartEnqueue(s, value) else s
    case Produce(ok, pick) => if ProducerCanStep(s) then StepProducer(s, ok, pick) else s
    case Claim(c, count) => if c < |s.consumers| then ClaimRange(s, c, count) else s
    case Consume(c) => if c < |s.consumers| && ConsumerCanStep(s, c) then StepConsumer(s, c) else s
  }

  function Execute(s: State, schedule: seq<Event>): State {
    if schedule == [] then s
    else Step(Execute(s, schedule[..|schedule| - 1]), schedule[|schedule| - 1])
  }

  // The invariant.

  function Slot(hd: Header, q: int): nat
    requires hd.capacity > 0
  {
    Mod(q - hd.org, hd.capacity)
  }

  /** Stretch q's slot in this header points to stretch q's entry. */
  ghost predicate PointsTo(entryOf: seq<nat>, hd: Header, q: nat) {
    && q < |entryOf| && hd.capacity > 0 && Slot(hd, q) < |hd.index|
    && hd.index[Slot(hd, q)] == entryOf[q]
  }

  ghost predicate HeaderOk(entryOf: seq<nat>, lo: nat, hd: Header) {
    && hd.capacity > 0 && |hd.index| == hd.capacity && IsPowerOfTwo(hd.capacity)
    && hd.lo <= hd.pub <= hd.count <= hd.hi <= |entryOf| && hd.lo <= lo
    && hd.tail == Slot(hd, hd.count - 1)
    && (forall q {:trigger PointsTo(entryOf, hd, q)} :: hd.lo <= q < hd.hi ==> PointsTo(entryOf, hd, q))
  }

  /** The pointers of the current header lead to different entries, and the slots ahead of the window have
      never been used. */
  ghost predicate Unused(entries: seq<Entry>, hd: Header, q: nat) {
    && hd.capacity > 0 && Slot(hd, q) < |hd.index| && hd.index[Slot(hd, q)] < |entries|
    && entries[hd.index[Slot(hd, q)]] == Entry(None, None)
  }

  ghost predicate CurrentOk(entries: seq<Entry>, n: nat, lo: nat, hi: nat, tentative: nat, hd: Header) {
    && hd.lo == lo && hd.hi == hi && hd.pub == n && hd.count == n + tentative
    && hi - lo <= hd.capacity
    && (forall i :: 0 <= i < |hd.index| ==> hd.index[i] < |entries|)
    && (forall i, j :: 0 <= i < j < |hd.index| ==> hd.index[i] != hd.index[j])
    && (forall q {:trigger Unused(entries, hd, q)} :: hi <= q < lo + hd.capacity ==> Unused(entries, hd, q))
  }

  /** Keys of the stretches in the window are consecutive; an entry has a value exactly from the moment its
      stretch gets a block until the last consumer clears it. */
  ghost predicate EntryOk(entries: seq<Entry>, entryOf: seq<nat>, seqs: seq<nat>, nulled: set<nat>, q: nat) {
    && q < |entryOf| && entryOf[q] < |entries|
    && entries[entryOf[q]].key == Some(Base(q))
    && entries[entryOf[q]].value == (if q < |seqs| && q !in nulled then Some(seqs[q]) else None)
  }

  /** The slot of a new stretch has been made public, its block has not. */
  predicate Tentative(pc: ProducerPc) {
    pc.Requisition? || pc.Rewind? || pc.StoreValue?
  }

  predicate KeyWritten(pc: ProducerPc) {
    Tentative(pc) || pc.StoreTail? || pc.ClearValue?
  }

  ghost predicate IndexOk(s: State) {
    var p := s.producer;
    && s.lo <= |s.seqs| <= |s.entryOf| <= |s.seqs| + 1
    && (forall h :: 0 <= h < |s.headers| ==> HeaderOk(s.entryOf, s.lo, s.headers[h]))
    && (|s.entryOf| > 0 ==> |s.headers| > 0)
    && (|s.headers| > 0 ==>
          CurrentOk(s.entries, |s.seqs|, s.lo, |s.entryOf|, if Tentative(p.pc) then 1 else 0, s.headers[Mine(s)]))
    && (forall q {:trigger EntryOk(s.entries, s.entryOf, s.seqs, s.nulled, q)} :: s.lo <= q < |s.entryOf| ==>
          EntryOk(s.entries, s.entryOf, s.seqs, s.nulled, q))
  }

  /** What the producer knows about the entry it is working on. */
  ghost predicate InsertOk(s: State) {
    var p, n := s.producer, |s.seqs|;
    && (p.pc.NewIndex? || p.pc.StoreKey? || KeyWritten(p.pc) ==> |s.headers| > 0)
    && (p.pc.NewIndex? ==> |s.entryOf| == n && n - s.lo == s.headers[Mine(s)].capacity)
    && (p.pc.StoreKey? || KeyWritten(p.pc) ==>
          && s.headers[Mine(s)].capacity > 0 && p.newTail == Slot(s.headers[Mine(s)], n)
          && p.newTail < |s.headers[Mine(s)].index| && p.entry == s.headers[Mine(s)].index[p.newTail])
    && (p.pc.StoreKey? && |s.entryOf| == n && n - s.lo == s.headers[Mine(s)].capacity ==> s.lo in s.nulled)
    && (KeyWritten(p.pc) ==> |s.entryOf| == n + 1)
  }

  ghost predicate TailOk(s: State) {
    var n, pc := |s.seqs|, s.producer.pc;
    && |s.enq| == s.tail && s.head <= s.tail
    && if pc.Construct? || pc.Publish? then
         n > 0 && Base(n - 1) <= s.tail < Base(n) && s.producer.tailBlock == s.seqs[n - 1]
       else
         && (n > 0 ==> Base(n - 1) < s.tail <= Base(n) && (s.tail == Base(n) || s.producer.tailBlock == s.seqs[n - 1]))
         && (n == 0 ==> s.tail == 0)
         && (!pc.Ready? ==> s.tail == Base(n))
  }

  // Blocks.

  /** How many of the indices [a, b) are done. */
  function CountDone(done: set<nat>, a: nat, b: nat): (r: nat)
    ensures r <= if a < b then b - a else 0
    decreases b
  {
    if b <= a then 0 else CountDone(done, a, b - 1) + (if b - 1 in done then 1 else 0)
  }

  function Content(s: State, i: nat): Option<int> {
    if i < s.tail then
      if i in s.taken || i >= |s.enq| then None else Some(s.enq[i])
    else if s.producer.pc.Publish? && i == s.tail then Some(s.producer.value)
    else None
  }

  /** A stretch whose entry has not been cleared still owns its block. */
  ghost predicate StretchOk(s: State, q: nat) {
    && q < |s.seqs| && s.seqs[q] < |s.blocks| && s.seqs[q] < |s.place|
    && (s.place[s.seqs[q]] == Live(q) || (s.place[s.seqs[q]].Closing? && s.place[s.seqs[q]].q == q))
    && s.blocks[s.seqs[q]].finished == CountDone(s.done, Base(q), Base(q + 1))
    && (s.place[s.seqs[q]] == Live(q) <==> s.blocks[s.seqs[q]].finished < BLOCK_SIZE)
  }

  ghost predicate CellOk(s: State, q: nat, o: nat) {
    && q < |s.seqs| && s.seqs[q] < |s.blocks| && o < |s.blocks[s.seqs[q]].cells|
    && s.blocks[s.seqs[q]].cells[o] == Content(s, Base(q) + o)
  }

  predicate Detached(p: Place) {
    p.Free? || p.Pending? || p.Releasing?
  }

  ghost predicate BlockOk(s: State, b: nat)
    requires b < |s.blocks| && b < |s.place|
  {
    && |s.blocks[b].cells| == BLOCK_SIZE
    && (Detached(s.place[b]) ==> forall o :: 0 <= o < BLOCK_SIZE ==> s.blocks[b].cells[o] == None)
    && (s.place[b].Live? || s.place[b].Closing? ==>
          s.place[b].q < |s.seqs| && s.seqs[s.place[b].q] == b && s.place[b].q !in s.nulled)
    && (s.place[b].Closing? ==>
          var c := s.place[b].c;
          c < |s.consumers| && s.consumers[c].pc == ClearEntry && s.consumers[c].block == b)
    && (s.place[b].Releasing? ==>
          var c := s.place[b].c;
          c < |s.consumers| && s.consumers[c].pc == Release && s.consumers[c].block == b)
    && (s.place[b].Pending? ==> s.producer.pc.StoreValue? && s.producer.tailBlock == b)
  }

  ghost predicate BlocksOk(s: State) {
    && |s.place| == |s.blocks|
    && (forall b :: 0 <= b < |s.blocks| ==> BlockOk(s, b))
    && (forall q {:trigger StretchOk(s, q)} :: 0 <= q < |s.seqs| && q !in s.nulled ==> StretchOk(s, q))
    && (s.producer.pc.StoreValue? ==>
          && s.producer.tailBlock < |s.place| && s.place[s.producer.tailBlock] == Pending
          && s.blocks[s.producer.tailBlock].finished == 0)
  }

  ghost predicate CellsOk(s: State) {
    forall q, o {:trigger CellOk(s, q, o)} ::
      0 <= q < |s.seqs| && q !in s.nulled && 0 <= o < BLOCK_SIZE ==> CellOk(s, q, o)
  }

  ghost predicate DoneOk(s: State) {
    && s.done <= s.taken
    && (forall i :: i in s.taken ==> i < s.head)
    && (forall q :: q in s.nulled ==> q < |s.seqs|)
    && (forall q :: 0 <= q < s.lo ==> q in s.nulled)
    && (forall q {:trigger Finished(s.done, q)} :: q in s.nulled ==> Finished(s.done, q))
  }

  ghost predicate Finished(done: set<nat>, q: nat) {
    forall i :: Base(q) <= i < Base(q + 1) ==> i in done
  }

  // Consumers.

  ghost predicate ClaimOk(head: nat, enq: seq<int>, taken: set<nat>, done: set<nat>, k: Consumer) {
    && k.first <= k.start <= k.cur <= k.end <= head
    && (k.pc in {ClearEntry, Release} ==>
          && k.start < k.cur == k.stop <= k.end
          && (forall i :: k.stop <= i < k.end ==> i !in done))
    && (k.pc !in {ClearEntry, Release} ==>
          && k.start < k.end
          && (forall i :: k.start <= i < k.end ==> i !in done))
    && (k.pc in {LoadIndex, LoadTail, LoadKey, LoadValue} ==> k.start == k.cur)
    && (k.pc == Take ==> k.cur < k.stop <= k.end)
    && (k.pc == AddCount ==> k.start < k.cur == k.stop <= k.end)
    && (forall i :: k.cur <= i < k.end ==> i !in taken)
    && (forall i :: k.first <= i < k.cur ==> i in taken)
    && k.cur <= |enq| && k.got == enq[k.first..k.cur]
  }

  ghost predicate LookupOk(seqs: seq<nat>, entryOf: seq<nat>, headers: seq<Header>, k: Consumer)
    requires k.end > 0
  {
    && (k.pc in {LoadIndex, LoadTail, LoadKey} ==> k.start == k.first)
    && (k.pc != LoadIndex ==>
          && k.header < |headers| && headers[k.header].capacity > 0 && Blk(k.end - 1) < headers[k.header].pub
          && (k.pc != LoadTail ==>
                Blk(k.end - 1) <= k.seen < headers[k.header].hi && k.tail == Slot(headers[k.header], k.seen))
          && (k.pc in {LoadValue, Take, AddCount, ClearEntry, Release} ==>
                k.slot == Slot(headers[k.header], Blk(k.start))))
    && (k.pc in {Take, AddCount, ClearEntry, Release} ==>
          && Blk(k.start) < |seqs| && k.block == seqs[Blk(k.start)]
          && Blk(k.start) < |entryOf| && k.entry == entryOf[Blk(k.start)]
          && k.stop == Smaller(k.end, Base(Blk(k.start) + 1)))
  }

  ghost predicate Delivered(enq: seq<int>, k: Consumer) {
    k.first <= k.end <= |enq| && k.got == enq[k.first..k.end]
  }

  ghost predicate ClosingOk(place: seq<Place>, nulled: set<nat>, c: nat, k: Consumer) {
    && (k.pc == ClearEntry ==>
          k.block < |place| && place[k.block] == Closing(Blk(k.start), c) && Blk(k.start) !in nulled)
    && (k.pc == Release ==> k.block < |place| && place[k.block] == Releasing(c))
  }

  ghost predicate ConsumerOk(s: State, c: nat, k: Consumer) {
    if k.pc == Idle then Delivered(s.enq, k)
    else
      && k.end > 0 && ClaimOk(s.head, s.enq, s.taken, s.done, k) && LookupOk(s.seqs, s.entryOf, s.headers, k)
      && ClosingOk(s.place, s.nulled, c, k)
  }

  ghost predicate ConsumersOk(s: State) {
    forall c :: 0 <= c < |s.consumers| ==> ConsumerOk(s, c, s.consumers[c])
  }

  ghost predicate Disjoint(s: State) {
    forall c, d :: 0 <= c < d < |s.consumers| && s.consumers[c].pc != Idle && s.consumers[d].pc != Idle ==>
      s.consumers[c].end <= s.consumers[d].first || s.consumers[d].end <= s.consumers[c].first
  }

  ghost predicate Inv(s: State) {
    && IndexOk(s) && InsertOk(s) && TailOk(s) && BlocksOk(s) && CellsOk(s) && DoneOk(s)
    && ConsumersOk(s) && Disjoint(s)
  }

  // Facts about single states.

  /** A stretch with an unfinished index still has its entry and its block. */
  lemma UnfinishedStretch(s: State, i: nat)
    requires TailOk(s) && BlocksOk(s) && DoneOk(s) && i < s.tail && i !in s.done
    ensures Blk(i) < |s.seqs| && Blk(i) !in s.nulled && s.lo <= Blk(i)
    ensures StretchOk(s, Blk(i)) && s.place[s.seqs[Blk(i)]] == Live(Blk(i))
    ensures Base(Blk(i)) + Off(i) == i
  {
    Split(i);
    BelowBase(i, |s.seqs|);
    assert Blk(i) in s.nulled ==> Finished(s.done, Blk(i));
    assert StretchOk(s, Blk(i));
    NotAllDone(s.done, Base(Blk(i)), Base(Blk(i) + 1), i);
  }

  lemma {:induction false} NotAllDone(done: set<nat>, a: nat, b: nat, i: nat)
    requires a <= i < b && i !in done
    ensures CountDone(done, a, b) < b - a
    decreases b
  {
    if i < b - 1 {
      NotAllDone(done, a, b - 1, i);
    }
  }

  lemma {:induction false} AllDone(done: set<nat>, a: nat, b: nat)
    requires a <= b && CountDone(done, a, b) == b - a
    ensures forall i :: a <= i < b ==> i in done
    decreases b
  {
    if a < b {
      AllDone(done, a, b - 1);
    }
  }

  /** Marking [x, y), none of it done before, adds what of it lies in [a, b). */
  lemma {:induction false} CountAfter(done: set<nat>, a: nat, b: nat, x: nat, y: nat)
    requires a <= b && x <= y
    requires forall i :: x <= i < y ==> i !in done
    requires y <= a || b <= x || (a <= x && y <= b)
    ensures CountDone(done + Range(x, y), a, b) == CountDone(done, a, b) + (if a <= x && y <= b then y - x else 0)
    decreases b
  {
    if a < b {
      if y <= b - 1 || b - 1 < x {
        CountAfter(done, a, b - 1, x, y);
      } else {
        CountUpTo(done, a, b, x);
      }
    }
  }

  lemma {:induction false} CountUpTo(done: set<nat>, a: nat, b: nat, x: nat)
    requires a <= x <= b
    requires forall i :: x <= i < b ==> i !in done
    ensures CountDone(done + Range(x, b), a, b) == CountDone(done, a, b) + (b - x)
    decreases b
  {
    if x < b {
      CountUpTo(done, a, b - 1, x);
      SameCount(done + Range(x, b), done + Range(x, b - 1), a, b - 1);
    } else {
      assert done + Range(x, b) == done;
    }
  }

  lemma {:induction false} SameCount(d: set<nat>, d': set<nat>, a: nat, b: nat)
    requires forall i :: a <= i < b ==> (i in d <==> i in d')
    ensures CountDone(d, a, b) == CountDone(d', a, b)
    decreases b
  {
    if a < b {
      SameCount(d, d', a, b - 1);
    }
  }

  /** Where the stretches of a claim lie. */
  lemma StretchesInUse(s: State, k: Consumer)
    requires TailOk(s) && BlocksOk(s) && DoneOk(s)
    requires k.pc !in {Idle, ClearEntry, Release} && k.end > 0 && ClaimOk(s.head, s.enq, s.taken, s.done, k)
    ensures s.lo <= Blk(k.start) <= Blk(k.end - 1) < |s.seqs| && Blk(k.start) !in s.nulled
  {
    UnfinishedStretch(s, k.start);
    var last := k.end - 1;
    BelowBase(last, |s.seqs|);
    Split(last);
    BelowBase(k.start, Blk(last) + 1);
  }

  /** A header leads from the slot of a stretch in the window to the key and the value of its entry. */
  lemma EntryAt(s: State, h: nat, q: nat)
    requires h < |s.headers| && HeaderOk(s.entryOf, s.lo, s.headers[h])
    requires s.headers[h].lo <= q < s.headers[h].hi && EntryOk(s.entries, s.entryOf, s.seqs, s.nulled, q)
    ensures Slot(s.headers[h], q) < |s.headers[h].index| && s.headers[h].index[Slot(s.headers[h], q)] == s.entryOf[q]
    ensures KeyAt(s, h, Slot(s.headers[h], q)) == Some(Base(q))
    ensures ValueAt(s, h, Slot(s.headers[h], q)) == s.entries[s.entryOf[q]].value
  {
    assert PointsTo(s.entryOf, s.headers[h], q);
  }

  /** Two stretches in the window of the current header have different entries. */
  lemma EntriesDiffer(s: State, q: nat, r: nat)
    requires IndexOk(s) && s.lo <= q < r < |s.entryOf|
    ensures s.entryOf[q] != s.entryOf[r]
  {
    var hd := s.headers[Mine(s)];
    assert HeaderOk(s.entryOf, s.lo, hd);
    assert PointsTo(s.entryOf, hd, q) && PointsTo(s.entryOf, hd, r);
    ModDistinct(q - hd.org, r - hd.org, hd.capacity);
  }

  // What one consumer keeps while others move.

  ghost predicate Evolves(s: State, s': State) {
    && s.enq <= s'.enq && s.seqs <= s'.seqs && s.entryOf <= s'.entryOf && s.head <= s'.head && s.taken <= s'.taken
    && |s.headers| <= |s'.headers|
    && (forall h :: 0 <= h < |s.headers| ==>
          && s'.headers[h].capacity == s.headers[h].capacity && s'.headers[h].org == s.headers[h].org
          && s.headers[h].pub <= s'.headers[h].pub && s.headers[h].hi <= s'.headers[h].hi)
  }

  lemma ConsumerKept(s: State, s': State, c: nat, k: Consumer)
    requires ConsumerOk(s, c, k) && Evolves(s, s')
    requires forall i :: k.pc != Idle && k.cur <= i < k.end && i in s'.taken ==> i in s.taken
    requires forall i :: k.pc != Idle && k.start <= i < k.end && i in s'.done ==> i in s.done
    requires k.pc != Idle ==> ClosingOk(s'.place, s'.nulled, c, k)
    ensures ConsumerOk(s', c, k)
  {
    SameSlices(s.enq, s'.enq);
    if k.pc != Idle {
      if k.pc != LoadIndex {
        assert s'.headers[k.header].capacity == s.headers[k.header].capacity;
      }
    }
  }

  lemma ConsumersKept(s: State, s': State)
    requires ConsumersOk(s) && Evolves(s, s')
    requires s'.consumers == s.consumers && s'.taken == s.taken && s'.done == s.done && s'.nulled == s.nulled
    requires |s.place| <= |s'.place|
    requires forall b :: 0 <= b < |s.place| && (s.place[b].Closing? || s.place[b].Releasing?) ==> s'.place[b] == s.place[b]
    ensures ConsumersOk(s')
  {
    forall c | 0 <= c < |s'.consumers| ensures ConsumerOk(s', c, s'.consumers[c]) {
      assert ConsumerOk(s, c, s.consumers[c]);
      ConsumerKept(s, s', c, s.consumers[c]);
    }
  }

  /** Nothing about cells, stretches or entries differs. */
  lemma StoreKept(s: State, s': State)
    requires BlocksOk(s) && CellsOk(s)
    requires s' == s.(headers := s'.headers, producer := s'.producer, consumers := s'.consumers, head := s'.head)
    requires s'.producer.value == s.producer.value && s'.producer.tailBlock == s.producer.tailBlock
    requires s'.producer.pc.Publish? == s.producer.pc.Publish? && s'.producer.pc.StoreValue? == s.producer.pc.StoreValue?
    requires |s'.consumers| == |s.consumers|
    requires forall c :: 0 <= c < |s.consumers| && s.consumers[c].pc in {ClearEntry, Release} ==> s'.consumers[c] == s.consumers[c]
    ensures BlocksOk(s') && CellsOk(s')
  {
    forall b | 0 <= b < |s'.blocks| ensures BlockOk(s', b) {
      assert BlockOk(s, b);
    }
    forall q | 0 <= q < |s'.seqs| && q !in s'.nulled ensures StretchOk(s', q) {
      assert StretchOk(s, q);
    }
    forall q, o | 0 <= q < |s'.seqs| && q !in s'.nulled && 0 <= o < BLOCK_SIZE ensures CellOk(s', q, o) {
      assert CellOk(s, q, o);
    }
  }

  // Consumers' steps.

  /** What remains to be shown of a step of consumer c. */
  lemma ConsumerDone(s: State, s': State, c: nat)
    requires Inv(s) && c < |s.consumers| == |s'.consumers|
    requires s' == s.(consumers := s'.consumers, blocks := s'.blocks, entries := s'.entries, place := s'.place,
                      nulled := s'.nulled, taken := s'.taken, done := s'.done)
    requires s'.consumers == s.consumers[c := s'.consumers[c]] && s.consumers[c].pc != Idle
    requires s'.consumers[c].first == s.consumers[c].first && s'.consumers[c].end == s.consumers[c].end
    requires IndexOk(s') && InsertOk(s') && BlocksOk(s') && CellsOk(s') && DoneOk(s')
    requires ConsumerOk(s', c, s'.consumers[c]) && s.taken <= s'.taken && |s.place| == |s'.place|
    requires forall i :: i in s'.taken && i !in s.taken ==> s.consumers[c].first <= i < s.consumers[c].end
    requires forall i :: i in s'.done && i !in s.done ==> s.consumers[c].first <= i < s.consumers[c].end
    requires forall d :: 0 <= d < |s.consumers| && d != c && s.consumers[d].pc != Idle ==>
               ClosingOk(s'.place, s'.nulled, d, s.consumers[d])
    ensures Inv(s')
  {
    hide InsertOk, BlocksOk, CellsOk, DoneOk, IndexOk, ClosingOk;
    forall d | 0 <= d < |s'.consumers| ensures ConsumerOk(s', d, s'.consumers[d]) {
      if d != c {
        assert ConsumerOk(s, c, s.consumers[c]) && ConsumerOk(s, d, s.consumers[d]);
        ConsumerKept(s, s', d, s.consumers[d]);
      }
    }
  }

  lemma ClosingKept(s: State, c: nat)
    requires ConsumersOk(s)
    ensures forall d :: 0 <= d < |s.consumers| && d != c && s.consumers[d].pc != Idle ==>
              ClosingOk(s.place, s.nulled, d, s.consumers[d])
  {
    forall d | 0 <= d < |s.consumers| && d != c && s.consumers[d].pc != Idle
      ensures ClosingOk(s.place, s.nulled, d, s.consumers[d])
    {
      assert ConsumerOk(s, d, s.consumers[d]);
    }
  }

  lemma ClaimConsumers(s: State, s': State, c: nat)
    requires ConsumersOk(s) && c < |s.consumers|
    requires |s'.consumers| == |s.consumers|
    requires s' == s.(consumers := s.consumers[c := s'.consumers[c]], head := s'.head) && s.head <= s'.head
    requires ConsumerOk(s', c, s'.consumers[c])
    ensures ConsumersOk(s')
    ensures forall d :: 0 <= d < |s.consumers| && s.consumers[d].pc != Idle ==> s.consumers[d].end <= s.head
  {
    forall d | 0 <= d < |s.consumers|
      ensures ConsumerOk(s', d, s'.consumers[d]) && (s.consumers[d].pc != Idle ==> s.consumers[d].end <= s.head)
    {
      assert ConsumerOk(s, d, s.consumers[d]);
      if d != c {
        ConsumerKept(s, s', d, s.consumers[d]);
      }
    }
  }

  lemma ClaimKeeps(s: State, c: nat, count: nat)
    requires Inv(s) && c < |s.consumers|
    ensures Inv(ClaimRange(s, c, count))
  {
    var s' := ClaimRange(s, c, count);
    if s' != s {
      StoreKept(s, s');
      hide IndexOk, InsertOk, BlocksOk, CellsOk;
      ClaimConsumers(s, s', c);
    }
  }

  /** Only consumer c changes, and not by reaching or leaving the release of a block. */
  lemma LookupKeeps(s: State, c: nat, k: Consumer)
    requires Inv(s) && c < |s.consumers|
    requires s.consumers[c].pc !in {Idle, ClearEntry, Release}
    requires k.first == s.consumers[c].first && k.end == s.consumers[c].end
    requires ConsumerOk(s, c, k)
    ensures Inv(WithConsumer(s, c, k))
  {
    var s' := WithConsumer(s, c, k);
    StoreKept(s, s');
    ClosingKept(s, c);
    ConsumerKept(s, s', c, k);
    ConsumerDone(s, s', c);
  }

  lemma LoadIndexKeeps(s: State, c: nat)
    requires Inv(s) && c < |s.consumers| && s.consumers[c].pc == LoadIndex
    ensures ConsumerCanStep(s, c) && Inv(StepConsumer(s, c))
  {
    var k := s.consumers[c];
    assert ConsumerOk(s, c, k);
    StretchesInUse(s, k);
    LookupKeeps(s, c, k.(pc := LoadTail, header := Mine(s)));
  }

  lemma LoadTailKeeps(s: State, c: nat)
    requires Inv(s) && c < |s.consumers| && s.consumers[c].pc == LoadTail
    ensures ConsumerCanStep(s, c) && Inv(StepConsumer(s, c))
  {
    hide InsertOk, BlocksOk, CellsOk, DoneOk, TailOk, Disjoint, Slot;
    var k := s.consumers[c];
    assert ConsumerOk(s, c, k);
    var hd := s.headers[k.header];
    assert HeaderOk(s.entryOf, s.lo, hd);
    LookupKeeps(s, c, k.(pc := LoadKey, tail := hd.tail, seen := hd.count - 1));
  }

  /** The key at an observed tail slot is still that of the stretch the slot was filled for, whatever has
      been rewound, reused or doubled since; so the slot computed for stretch q is that of stretch q. */
  lemma ComputedSlot(s: State, h: nat, tail: nat, seen: nat, q: nat)
    requires h < |s.headers| && HeaderOk(s.entryOf, s.lo, s.headers[h])
    requires s.headers[h].lo <= seen < s.headers[h].hi && tail == Slot(s.headers[h], seen)
    requires EntryOk(s.entries, s.entryOf, s.seqs, s.nulled, seen)
    ensures KeyAt(s, h, tail).Some?
    ensures Mod(tail + SignedQuotient(Base(q) - KeyAt(s, h, tail).value), s.headers[h].capacity) == Slot(s.headers[h], q)
  {
    EntryAt(s, h, seen);
    QuotientOfBases(seen, q);
    ModAdd(seen - s.headers[h].org, q - seen, s.headers[h].capacity);
  }

  lemma TailKey(s: State, k: Consumer)
    requires IndexOk(s) && TailOk(s) && BlocksOk(s) && DoneOk(s)
    requires k.pc == LoadKey && k.end > 0
    requires ClaimOk(s.head, s.enq, s.taken, s.done, k) && LookupOk(s.seqs, s.entryOf, s.headers, k)
    ensures KeyAt(s, k.header, k.tail).Some?
    ensures Mod(k.tail + SignedQuotient(Base(Blk(k.first)) - KeyAt(s, k.header, k.tail).value), s.headers[k.header].capacity)
            == Slot(s.headers[k.header], Blk(k.first))
  {
    StretchesInUse(s, k);
    assert HeaderOk(s.entryOf, s.lo, s.headers[k.header]);
    assert EntryOk(s.entries, s.entryOf, s.seqs, s.nulled, k.seen);
    ComputedSlot(s, k.header, k.tail, k.seen, Blk(k.first));
  }

  lemma SlotFound(s: State, c: nat, k: Consumer)
    requires k.pc == LoadKey && ConsumerOk(s, c, k)
    ensures ConsumerOk(s, c, k.(pc := LoadValue, slot := Slot(s.headers[k.header], Blk(k.first))))
  {
  }

  lemma LoadKeyKeeps(s: State, c: nat)
    requires Inv(s) && c < |s.consumers| && s.consumers[c].pc == LoadKey
    ensures ConsumerCanStep(s, c) && Inv(StepConsumer(s, c))
  {
    hide InsertOk, BlocksOk, CellsOk, DoneOk, TailOk, IndexOk, Disjoint, Slot;
    var k := s.consumers[c];
    assert ConsumerOk(s, c, k);
    TailKey(s, k);
    SlotFound(s, c, k);
    LookupKeeps(s, c, k.(pc := LoadValue, slot := Slot(s.headers[k.header], Blk(k.first))));
  }

  /** The entry found has the key of the wanted block and a value: both asserts of the lookup hold. */
  lemma LookedUp(s: State, c: nat)
    requires IndexOk(s) && TailOk(s) && BlocksOk(s) && DoneOk(s)
    requires c < |s.consumers| && s.consumers[c].pc == LoadValue && ConsumerOk(s, c, s.consumers[c])
    ensures ConsumerCanStep(s, c)
    ensures Blk(s.consumers[c].start) < |s.seqs| && Blk(s.consumers[c].start) < |s.entryOf|
    ensures ValueAt(s, s.consumers[c].header, s.consumers[c].slot) == Some(s.seqs[Blk(s.consumers[c].start)])
    ensures s.headers[s.consumers[c].header].index[s.consumers[c].slot] == s.entryOf[Blk(s.consumers[c].start)]
  {
    var k := s.consumers[c];
    StretchesInUse(s, k);
    assert HeaderOk(s.entryOf, s.lo, s.headers[k.header]);
    assert EntryOk(s.entries, s.entryOf, s.seqs, s.nulled, Blk(k.start));
    EntryAt(s, k.header, Blk(k.start));
  }

  lemma AfterValue(s: State, c: nat)
    requires IndexOk(s) && TailOk(s) && BlocksOk(s) && DoneOk(s)
    requires c < |s.consumers| && s.consumers[c].pc == LoadValue && ConsumerOk(s, c, s.consumers[c])
    ensures ConsumerCanStep(s, c)
    ensures StepConsumer(s, c) == WithConsumer(s, c, StepConsumer(s, c).consumers[c])
    ensures ConsumerOk(s, c, StepConsumer(s, c).consumers[c])
  {
    LookedUp(s, c);
    hide TailOk, BlocksOk, DoneOk, IndexOk, KeyAt, ValueAt;
    var k := s.consumers[c];
    var k' := StepConsumer(s, c).consumers[c];
    Split(k.start);
    ClaimAfterValue(s.head, s.enq, s.taken, s.done, k, k');
    LookupCompletes(s.seqs, s.entryOf, s.headers, k, k');
    hide ClaimOk, LookupOk, Slot;
  }

  lemma LookupCompletes(seqs: seq<nat>, entryOf: seq<nat>, headers: seq<Header>, k: Consumer, k': Consumer)
    requires k.end > 0 && LookupOk(seqs, entryOf, headers, k) && k.pc == LoadValue
    requires Blk(k.start) < |seqs| && Blk(k.start) < |entryOf|
    requires k' == k.(pc := Take, entry := entryOf[Blk(k.start)], block := seqs[Blk(k.start)],
                      stop := Smaller(k.end, Base(Blk(k.start) + 1)))
    ensures LookupOk(seqs, entryOf, headers, k')
  {
    hide Slot;
  }

  lemma ClaimAfterValue(head: nat, enq: seq<int>, taken: set<nat>, done: set<nat>, k: Consumer, k': Consumer)
    requires ClaimOk(head, enq, taken, done, k) && k.pc == LoadValue && k.start < k'.stop <= k.end
    requires k' == k.(pc := Take, entry := k'.entry, block := k'.block, stop := k'.stop)
    ensures ClaimOk(head, enq, taken, done, k')
  {
  }

  lemma LoadValueKeeps(s: State, c: nat)
    requires Inv(s) && c < |s.consumers| && s.consumers[c].pc == LoadValue
    ensures ConsumerCanStep(s, c) && Inv(StepConsumer(s, c))
  {
    assert ConsumerOk(s, c, s.consumers[c]);
    AfterValue(s, c);
    LookupKeeps(s, c, StepConsumer(s, c).consumers[c]);
  }

  /** The indices of the consumer's current stretch are in the block that it has looked up. */
  lemma InLookedUpBlock(s: State, k: Consumer, i: nat)
    requires TailOk(s) && BlocksOk(s) && DoneOk(s) && CellsOk(s)
    requires k.pc in {Take, AddCount} && k.end > 0 && k.start <= i < k.stop
    requires ClaimOk(s.head, s.enq, s.taken, s.done, k) && LookupOk(s.seqs, s.entryOf, s.headers, k)
    ensures Blk(i) == Blk(k.start) < |s.seqs| && Blk(i) !in s.nulled && s.seqs[Blk(i)] == k.block < |s.blocks|
    ensures StretchOk(s, Blk(i)) && s.place[k.block] == Live(Blk(i))
    ensures i < s.head && CellOk(s, Blk(i), Off(i)) && Base(Blk(i)) + Off(i) == i
  {
    UnfinishedStretch(s, k.start);
    UnfinishedStretch(s, i);
    Split(k.start);
    BelowBase(i, Blk(k.start));
    BelowBase(i, Blk(k.start) + 1);
    assert CellOk(s, Blk(i), Off(i));
  }

  lemma SameBlockSameStretch(s: State, p: nat, q: nat)
    requires BlocksOk(s) && p < |s.seqs| && q < |s.seqs| && p !in s.nulled && q !in s.nulled && s.seqs[p] == s.seqs[q]
    ensures p == q
  {
    assert StretchOk(s, p) && StretchOk(s, q);
  }

  lemma TakeReady(s: State, k: Consumer)
    requires TailOk(s) && BlocksOk(s) && DoneOk(s) && CellsOk(s)
    requires k.pc == Take && k.end > 0
    requires ClaimOk(s.head, s.enq, s.taken, s.done, k) && LookupOk(s.seqs, s.entryOf, s.headers, k)
    ensures k.cur < |s.enq| && k.cur < s.head
    ensures Blk(k.cur) < |s.seqs| && Blk(k.cur) !in s.nulled && s.seqs[Blk(k.cur)] == k.block < |s.blocks| == |s.place|
    ensures Off(k.cur) < |s.blocks[k.block].cells| == BLOCK_SIZE && s.place[k.block].Live?
    ensures s.blocks[k.block].cells[Off(k.cur)] == Some(s.enq[k.cur])
  {
    InLookedUpBlock(s, k, k.cur);
    assert BlockOk(s, k.block);
  }

  lemma TakeCells(s: State, s': State, i: nat)
    requires BlocksOk(s) && CellsOk(s) && i < s.tail
    requires Blk(i) < |s.seqs| && Blk(i) !in s.nulled && s.seqs[Blk(i)] < |s.blocks| == |s'.blocks|
    requires Off(i) < |s.blocks[s.seqs[Blk(i)]].cells|
    requires s'.blocks == s.blocks[s.seqs[Blk(i)] :=
      s.blocks[s.seqs[Blk(i)]].(cells := s.blocks[s.seqs[Blk(i)]].cells[Off(i) := None])]
    requires s'.taken == s.taken + {i} && s'.seqs == s.seqs && s'.nulled == s.nulled && s'.producer == s.producer
    requires s'.tail == s.tail && s'.enq == s.enq
    ensures CellsOk(s')
  {
    forall q, o | 0 <= q < |s'.seqs| && q !in s'.nulled && 0 <= o < BLOCK_SIZE ensures CellOk(s', q, o) {
      assert CellOk(s, q, o);
      Located(q, o);
      Split(i);
      if s.seqs[q] == s.seqs[Blk(i)] {
        SameBlockSameStretch(s, q, Blk(i));
      }
    }
  }

  /** Emptying cells of a block in use, or counting in it, does not disturb who has which block. */
  lemma BlocksAfterTake(s: State, s': State, b: nat)
    requires BlocksOk(s) && b < |s.blocks| && !Detached(s.place[b])
    requires |s'.blocks| == |s.blocks|
    requires s' == s.(blocks := s.blocks[b := s'.blocks[b]], taken := s'.taken, consumers := s'.consumers)
    requires |s'.blocks[b].cells| == BLOCK_SIZE && s'.blocks[b].finished == s.blocks[b].finished
    requires |s'.consumers| == |s.consumers|
    requires forall c :: 0 <= c < |s.consumers| && s.consumers[c].pc in {ClearEntry, Release} ==> s'.consumers[c] == s.consumers[c]
    ensures BlocksOk(s')
  {
    forall d | 0 <= d < |s'.blocks| ensures BlockOk(s', d) {
      assert BlockOk(s, d);
    }
    forall q | 0 <= q < |s'.seqs| && q !in s'.nulled ensures StretchOk(s', q) {
      assert StretchOk(s, q);
    }
  }

  lemma ClaimAfterTake(head: nat, enq: seq<int>, taken: set<nat>, done: set<nat>, k: Consumer)
    requires ClaimOk(head, enq, taken, done, k) && k.pc == Take && k.cur < |enq|
    ensures ClaimOk(head, enq, taken + {k.cur}, done,
              k.(pc := if k.cur + 1 == k.stop then AddCount else Take, cur := k.cur + 1, got := k.got + [enq[k.cur]]))
  {
    assert enq[k.first..k.cur + 1] == enq[k.first..k.cur] + [enq[k.cur]];
  }

  lemma DoneAfterTake(s: State, s': State, i: nat)
    requires DoneOk(s) && i < s.head == s'.head && s'.taken == s.taken + {i}
    requires s'.done == s.done && s'.nulled == s.nulled && s'.seqs == s.seqs && s'.lo == s.lo
    ensures DoneOk(s')
  {
    forall q | q in s'.nulled ensures Finished(s'.done, q) {
      assert Finished(s.done, q);
    }
  }

  lemma ConsumerAfterTake(s: State, c: nat)
    requires c < |s.consumers| && s.consumers[c].pc == Take && ConsumerOk(s, c, s.consumers[c]) && ConsumerCanStep(s, c)
    requires s.consumers[c].cur < |s.enq|
    requires s.blocks[s.consumers[c].block].cells[Off(s.consumers[c].cur)] == Some(s.enq[s.consumers[c].cur])
    ensures var s' := StepConsumer(s, c); ConsumerOk(s', c, s'.consumers[c])
  {
    ClaimAfterTake(s.head, s.enq, s.taken, s.done, s.consumers[c]);
  }

  lemma AfterTake(s: State, c: nat)
    requires TailOk(s) && BlocksOk(s) && DoneOk(s) && CellsOk(s)
    requires c < |s.consumers| && s.consumers[c].pc == Take && ConsumerOk(s, c, s.consumers[c])
    ensures ConsumerCanStep(s, c)
    ensures s.consumers[c].cur < |s.enq| && s.consumers[c].cur < s.head
    ensures s.blocks[s.consumers[c].block].cells[Off(s.consumers[c].cur)] == Some(s.enq[s.consumers[c].cur])
    ensures BlocksOk(StepConsumer(s, c)) && CellsOk(StepConsumer(s, c))
  {
    var k := s.consumers[c];
    TakeReady(s, k);
    var s' := StepConsumer(s, c);
    BlocksAfterTake(s, s', k.block);
    TakeCells(s, s', k.cur);
  }

  lemma TakeKeeps(s: State, c: nat)
    requires Inv(s) && c < |s.consumers| && s.consumers[c].pc == Take
    ensures ConsumerCanStep(s, c) && Inv(StepConsumer(s, c))
  {
    assert ConsumerOk(s, c, s.consumers[c]);
    AfterTake(s, c);
    ConsumerAfterTake(s, c);
    DoneAfterTake(s, StepConsumer(s, c), s.consumers[c].cur);
    ClosingKept(s, c);
    ConsumerDone(s, StepConsumer(s, c), c);
  }

  // Counting the finished elements.

  /** [x, y) in the stretch p has been counted, and if that completes the block, p is closing. */
  ghost predicate Counted(s: State, s': State, c: nat, p: nat, x: nat, y: nat) {
    && x < y && Blk(x) == p && y <= Base(p + 1) && (forall i :: x <= i < y ==> i !in s.done)
    && p < |s.seqs| && p !in s.nulled && s.seqs[p] < |s.blocks| == |s.place|
    && s.place[s.seqs[p]] == Live(p)
    && var b := s.seqs[p];
    && s'.seqs == s.seqs && s'.nulled == s.nulled && s'.producer == s.producer && s'.done == s.done + Range(x, y)
    && |s'.blocks| == |s.blocks| && |s'.place| == |s.place|
    && s'.blocks == s.blocks[b := s.blocks[b].(finished := s.blocks[b].finished + (y - x))]
    && s'.place == s.place[b := if s'.blocks[b].finished == BLOCK_SIZE then Closing(p, c) else Live(p)]
  }

  lemma StretchAfterCount(s: State, s': State, c: nat, p: nat, x: nat, y: nat, q: nat)
    requires BlocksOk(s) && Counted(s, s', c, p, x, y) && q < |s.seqs| && q !in s.nulled
    ensures StretchOk(s', q)
  {
    assert StretchOk(s, q) && StretchOk(s, p);
    Split(x);
    if q < p {
      BaseGrows(q + 1, p);
    } else if p < q {
      BaseGrows(p + 1, q);
    }
    CountAfter(s.done, Base(q), Base(q + 1), x, y);
    if q != p {
      assert s.seqs[q] != s.seqs[p];
    }
  }

  lemma BlocksAfterCount(s: State, s': State, c: nat, p: nat, x: nat, y: nat)
    requires BlocksOk(s) && Counted(s, s', c, p, x, y)
    requires c < |s.consumers| == |s'.consumers| && s.consumers[c].pc == AddCount
    requires s'.consumers == s.consumers[c := s'.consumers[c]]
    requires s'.blocks[s.seqs[p]].finished == BLOCK_SIZE ==> s'.consumers[c].pc == ClearEntry && s'.consumers[c].block == s.seqs[p]
    ensures BlocksOk(s')
  {
    forall q | 0 <= q < |s'.seqs| && q !in s'.nulled ensures StretchOk(s', q) {
      StretchAfterCount(s, s', c, p, x, y, q);
    }
    forall b | 0 <= b < |s'.blocks| ensures BlockOk(s', b) {
      assert BlockOk(s, b);
    }
  }

  lemma CountReady(s: State, c: nat)
    requires TailOk(s) && BlocksOk(s) && DoneOk(s) && CellsOk(s)
    requires c < |s.consumers| && s.consumers[c].pc == AddCount && ConsumerOk(s, c, s.consumers[c])
    ensures ConsumerCanStep(s, c)
    ensures var k := s.consumers[c]; Counted(s, StepConsumer(s, c), c, Blk(k.start), k.start, k.stop)
    ensures s.consumers[c].block == s.seqs[Blk(s.consumers[c].start)]
  {
    var k := s.consumers[c];
    InLookedUpBlock(s, k, k.start);
    CountsIn(s, c, Blk(k.start));
  }

  lemma CountsIn(s: State, c: nat, p: nat)
    requires c < |s.consumers| && s.consumers[c].pc == AddCount
    requires var k := s.consumers[c];
      && k.start < k.stop && Blk(k.start) == p && k.stop <= Base(p + 1) && k.header < |s.headers|
      && (forall i :: k.start <= i < k.stop ==> i !in s.done)
      && p < |s.seqs| && p !in s.nulled && s.seqs[p] == k.block < |s.blocks| == |s.place| && s.place[k.block] == Live(p)
    ensures ConsumerCanStep(s, c)
    ensures var k := s.consumers[c]; Counted(s, StepConsumer(s, c), c, p, k.start, k.stop)
  {
    assert s.place[s.consumers[c].block := Live(p)] == s.place;
  }

  lemma DoneAfterCount(s: State, x: nat, y: nat)
    requires DoneOk(s) && forall i :: x <= i < y ==> i in s.taken
    ensures DoneOk(s.(done := s.done + Range(x, y)))
  {
    forall q | q in s.nulled ensures Finished(s.done + Range(x, y), q) {
      assert Finished(s.done, q);
    }
  }

  lemma ClaimAfterCount(head: nat, enq: seq<int>, taken: set<nat>, done: set<nat>, k: Consumer, k': Consumer)
    requires ClaimOk(head, enq, taken, done, k) && k.pc == AddCount
    requires k' == k.(pc := ClearEntry)
      || (k.stop < k.end && k' == k.(pc := LoadValue, start := k.stop, cur := k.stop, slot := k'.slot))
    ensures ClaimOk(head, enq, taken, done + Range(k.start, k.stop), k')
  {
  }

  lemma AfterCount(s: State, c: nat)
    requires IndexOk(s)
    requires c < |s.consumers| && s.consumers[c].pc == AddCount && ConsumerOk(s, c, s.consumers[c])
    requires ConsumerCanStep(s, c) && Blk(s.consumers[c].start) !in s.nulled
    ensures var s' := StepConsumer(s, c); ConsumerOk(s', c, s'.consumers[c])
  {
    var k := s.consumers[c];
    var k' := StepConsumer(s, c).consumers[c];
    if k'.pc == Idle {
    } else {
      if k'.pc == LoadValue {
        AfterBlock(s, k);
      }
      ClaimAfterCount(s.head, s.enq, s.taken, s.done, k, k');
      LookupGoesOn(s.seqs, s.entryOf, s.headers, k, k');
      hide IndexOk, Slot, ConsumerCanStep, ClaimOk, LookupOk;
    }
  }

  lemma LookupGoesOn(seqs: seq<nat>, entryOf: seq<nat>, headers: seq<Header>, k: Consumer, k': Consumer)
    requires k.end > 0 && LookupOk(seqs, entryOf, headers, k) && k.pc in {AddCount, ClearEntry, Release}
    requires k' == k.(pc := ClearEntry)
      || (k.stop < k.end && k' == k.(pc := LoadValue, start := k.stop, cur := k.stop, slot := Slot(headers[k.header], Blk(k.stop))))
    ensures LookupOk(seqs, entryOf, headers, k')
  {
    hide Slot;
  }

  /** The next stretch of a claim is in the next slot. */
  lemma AfterBlock(s: State, k: Consumer)
    requires IndexOk(s) && k.end > 0 && LookupOk(s.seqs, s.entryOf, s.headers, k)
    requires k.pc in {AddCount, ClearEntry, Release} && k.stop < k.end
    ensures Increment(k.slot, s.headers[k.header].capacity) == Slot(s.headers[k.header], Blk(k.stop))
  {
    Located(Blk(k.start) + 1, 0);
    var hd := s.headers[k.header];
    ModNext(Blk(k.start) - hd.org, hd.capacity);
  }

  lemma CountClosing(s: State, s': State, c: nat, p: nat, x: nat, y: nat)
    requires ConsumersOk(s) && Counted(s, s', c, p, x, y)
    ensures forall d :: 0 <= d < |s.consumers| && d != c && s.consumers[d].pc != Idle ==>
              ClosingOk(s'.place, s'.nulled, d, s.consumers[d])
  {
    ClosingKept(s, c);
  }

  lemma AddCountKeeps(s: State, c: nat)
    requires Inv(s) && c < |s.consumers| && s.consumers[c].pc == AddCount
    ensures ConsumerCanStep(s, c) && Inv(StepConsumer(s, c))
  {
    var k := s.consumers[c];
    assert ConsumerOk(s, c, k);
    CountReady(s, c);
    var s' := StepConsumer(s, c);
    BlocksAfterCount(s, s', c, Blk(k.start), k.start, k.stop);
    CountClosing(s, s', c, Blk(k.start), k.start, k.stop);
    DoneAfterCount(s, k.start, k.stop);
    AfterCount(s, c);
    CellsAfterCount(s, c);
    CountOnly(s, c);
    hide StepConsumer, BlocksOk, CellsOk, TailOk, Disjoint, ConsumerOk, IndexOk, InsertOk, DoneOk, Counted;
    ConsumerDone(s, s', c);
  }

  /** What counting leaves alone. */
  lemma CountOnly(s: State, c: nat)
    requires c < |s.consumers| && s.consumers[c].pc == AddCount && ConsumerCanStep(s, c)
    requires IndexOk(s) && InsertOk(s) && DoneOk(s.(done := s.done + Range(s.consumers[c].start, s.consumers[c].stop)))
    requires s.consumers[c].first <= s.consumers[c].start && s.consumers[c].stop <= s.consumers[c].end
    ensures var s' := StepConsumer(s, c); var k, k' := s.consumers[c], s'.consumers[c];
      && s' == s.(consumers := s'.consumers, blocks := s'.blocks, place := s'.place, done := s'.done)
      && s'.consumers == s.consumers[c := k'] && k'.first == k.first && k'.end == k.end
      && IndexOk(s') && InsertOk(s') && DoneOk(s') && |s'.place| == |s.place|
      && (forall i :: i in s'.done && i !in s.done ==> k.first <= i < k.end)
  {
  }

  lemma CellsAfterCount(s: State, c: nat)
    requires CellsOk(s) && c < |s.consumers| && s.consumers[c].pc == AddCount && ConsumerCanStep(s, c)
    ensures CellsOk(StepConsumer(s, c))
  {
    var s' := StepConsumer(s, c);
    forall q, o | 0 <= q < |s'.seqs| && q !in s'.nulled && 0 <= o < BLOCK_SIZE ensures CellOk(s', q, o) {
      assert CellOk(s, q, o);
    }
  }

  // Giving a block back.

  /** The consumer that counted the last element of a block: the stretch is finished, its cells are bare. */
  lemma ClosingStretch(s: State, c: nat)
    requires TailOk(s) && BlocksOk(s) && DoneOk(s) && CellsOk(s)
    requires c < |s.consumers| && s.consumers[c].pc == ClearEntry && ConsumerOk(s, c, s.consumers[c])
    ensures var k := s.consumers[c]; var q := Blk(k.start);
      && q < |s.seqs| && k.block == s.seqs[q] < |s.blocks| == |s.place| && q !in s.nulled
      && s.place[k.block] == Closing(q, c) && Finished(s.done, q) && |s.blocks[k.block].cells| == BLOCK_SIZE
      && forall o :: 0 <= o < BLOCK_SIZE ==> s.blocks[k.block].cells[o] == None
  {
    var k := s.consumers[c];
    var q := Blk(k.start);
    assert StretchOk(s, q);
    BaseGrows(q, q + 1);
    AllDone(s.done, Base(q), Base(q + 1));
    assert BlockOk(s, k.block);
    forall o | 0 <= o < BLOCK_SIZE ensures s.blocks[k.block].cells[o] == None {
      assert CellOk(s, q, o);
      assert Base(q) + o in s.done;
    }
  }

  /** The bare block of a finished stretch can change hands. */
  lemma BareBlockLeft(s: State, s': State, c: nat)
    requires BlocksOk(s) && c < |s.consumers| && s.consumers[c].pc == ClearEntry && ConsumerCanStep(s, c)
    requires s' == StepConsumer(s, c)
    requires var k := s.consumers[c]; var q := Blk(k.start);
      && q < |s.seqs| && k.block == s.seqs[q] < |s.blocks| == |s.place| && q !in s.nulled && s.place[k.block] == Closing(q, c)
      && forall o :: 0 <= o < BLOCK_SIZE ==> o < |s.blocks[k.block].cells| && s.blocks[k.block].cells[o] == None
    ensures BlocksOk(s')
  {
    forall b | 0 <= b < |s'.blocks| ensures BlockOk(s', b) {
      assert BlockOk(s, b);
    }
    forall q | 0 <= q < |s'.seqs| && q !in s'.nulled ensures StretchOk(s', q) {
      assert StretchOk(s, q);
    }
  }

  lemma ClearBlocks(s: State, c: nat)
    requires TailOk(s) && BlocksOk(s) && DoneOk(s) && CellsOk(s)
    requires c < |s.consumers| && s.consumers[c].pc == ClearEntry && ConsumerOk(s, c, s.consumers[c])
    requires s.consumers[c].entry < |s.entries|
    ensures ConsumerCanStep(s, c)
    ensures BlocksOk(StepConsumer(s, c)) && CellsOk(StepConsumer(s, c)) && DoneOk(StepConsumer(s, c))
  {
    ClosingStretch(s, c);
    var s' := StepConsumer(s, c);
    BareBlockLeft(s, s', c);
    hide BlocksOk;
    forall q, o | 0 <= q < |s'.seqs| && q !in s'.nulled && 0 <= o < BLOCK_SIZE ensures CellOk(s', q, o) {
      assert CellOk(s, q, o);
    }
    forall q | q in s'.nulled ensures Finished(s'.done, q) {
      assert q in s.nulled ==> Finished(s.done, q);
    }
  }

  /** Clearing the entry of a finished stretch leaves the keys and the other values alone. */
  lemma ClearIndex(s: State, c: nat)
    requires IndexOk(s) && InsertOk(s) && DoneOk(s)
    requires c < |s.consumers| && s.consumers[c].pc == ClearEntry && ConsumerOk(s, c, s.consumers[c])
    ensures s.consumers[c].entry < |s.entries|
    ensures ConsumerCanStep(s, c) ==> IndexOk(StepConsumer(s, c)) && InsertOk(StepConsumer(s, c))
  {
    var k := s.consumers[c];
    var q := Blk(k.start);
    assert EntryOk(s.entries, s.entryOf, s.seqs, s.nulled, q);
    if ConsumerCanStep(s, c) {
      var s' := StepConsumer(s, c);
      EntriesAfterClear(s, s'.entries, q);
      hide HeaderOk, EntryOk;
      var hd := s.headers[Mine(s)];
      forall r | |s'.entryOf| <= r < s'.lo + hd.capacity ensures Unused(s'.entries, hd, r) {
        assert Unused(s.entries, hd, r);
      }
    }
  }

  lemma EntriesAfterClear(s: State, entries': seq<Entry>, q: nat)
    requires IndexOk(s) && s.lo <= q < |s.seqs| && s.entryOf[q] < |s.entries|
    requires entries' == s.entries[s.entryOf[q] := s.entries[s.entryOf[q]].(value := None)]
    ensures forall r {:trigger EntryOk(entries', s.entryOf, s.seqs, s.nulled + {q}, r)} :: s.lo <= r < |s.entryOf| ==>
              EntryOk(entries', s.entryOf, s.seqs, s.nulled + {q}, r)
  {
    forall r | s.lo <= r < |s.entryOf| ensures EntryOk(entries', s.entryOf, s.seqs, s.nulled + {q}, r) {
      assert EntryOk(s.entries, s.entryOf, s.seqs, s.nulled, r);
      if r < q {
        EntriesDiffer(s, r, q);
      } else if q < r {
        EntriesDiffer(s, q, r);
      }
    }
  }

  lemma ClearClosing(s: State, c: nat)
    requires ConsumersOk(s) && c < |s.consumers| && s.consumers[c].pc == ClearEntry && ConsumerCanStep(s, c)
    requires s.place[s.consumers[c].block] == Closing(Blk(s.consumers[c].start), c)
    requires forall d :: 0 <= d < |s.consumers| && d != c && s.consumers[d].pc == ClearEntry ==>
               Blk(s.consumers[d].start) != Blk(s.consumers[c].start)
    ensures var s' := StepConsumer(s, c);
      forall d :: 0 <= d < |s.consumers| && d != c && s.consumers[d].pc != Idle ==>
        ClosingOk(s'.place, s'.nulled, d, s.consumers[d])
  {
    ClosingKept(s, c);
  }

  /** No two consumers close the same stretch. */
  lemma OneCloses(s: State, c: nat, d: nat)
    requires c < |s.consumers| && d < |s.consumers| && c != d
    requires s.consumers[c].pc == ClearEntry && ConsumerOk(s, c, s.consumers[c])
    requires s.consumers[d].pc == ClearEntry && ConsumerOk(s, d, s.consumers[d])
    ensures Blk(s.consumers[d].start) != Blk(s.consumers[c].start)
  {
  }

  lemma ClearEntryKeeps(s: State, c: nat)
    requires Inv(s) && c < |s.consumers| && s.consumers[c].pc == ClearEntry
    ensures ConsumerCanStep(s, c) && Inv(StepConsumer(s, c))
  {
    var k := s.consumers[c];
    assert ConsumerOk(s, c, k);
    ClearIndex(s, c);
    ClearBlocks(s, c);
    ClosingStretch(s, c);
    var s' := StepConsumer(s, c);
    forall d | 0 <= d < |s.consumers| && d != c && s.consumers[d].pc == ClearEntry
      ensures Blk(s.consumers[d].start) != Blk(k.start)
    {
      assert ConsumerOk(s, d, s.consumers[d]);
      OneCloses(s, c, d);
    }
    ClearClosing(s, c);
    EntryCleared(s, c);
    hide StepConsumer, BlocksOk, CellsOk, IndexOk, InsertOk, DoneOk, TailOk, ConsumersOk, Disjoint, ConsumerOk;
    ConsumerDone(s, s', c);
  }

  lemma EntryCleared(s: State, c: nat)
    requires c < |s.consumers| && s.consumers[c].pc == ClearEntry && ConsumerOk(s, c, s.consumers[c]) && ConsumerCanStep(s, c)
    ensures var s' := StepConsumer(s, c); var k, k' := s.consumers[c], s'.consumers[c];
      && s' == s.(consumers := s.consumers[c := k'], entries := s'.entries, nulled := s'.nulled, place := s'.place)
      && |s'.place| == |s.place| && k'.first == k.first && k'.end == k.end && ConsumerOk(s', c, k')
  {
  }

  lemma ReleaseBlocks(s: State, c: nat)
    requires BlocksOk(s) && CellsOk(s)
    requires c < |s.consumers| && s.consumers[c].pc == Release && ConsumerOk(s, c, s.consumers[c])
    ensures ConsumerCanStep(s, c)
    ensures BlocksOk(StepConsumer(s, c)) && CellsOk(StepConsumer(s, c))
  {
    var k := s.consumers[c];
    var s' := StepConsumer(s, c);
    forall b | 0 <= b < |s'.blocks| ensures BlockOk(s', b) {
      assert BlockOk(s, b);
    }
    forall q | 0 <= q < |s'.seqs| && q !in s'.nulled ensures StretchOk(s', q) {
      assert StretchOk(s, q);
    }
    forall q, o | 0 <= q < |s'.seqs| && q !in s'.nulled && 0 <= o < BLOCK_SIZE ensures CellOk(s', q, o) {
      assert CellOk(s, q, o);
    }
  }

  lemma AfterRelease(s: State, c: nat)
    requires IndexOk(s)
    requires c < |s.consumers| && s.consumers[c].pc == Release && ConsumerOk(s, c, s.consumers[c]) && ConsumerCanStep(s, c)
    ensures var s' := StepConsumer(s, c);
      && ConsumerOk(s', c, s'.consumers[c])
      && (ConsumersOk(s) ==> forall d :: 0 <= d < |s.consumers| && d != c && s.consumers[d].pc != Idle ==>
            ClosingOk(s'.place, s'.nulled, d, s.consumers[d]))
  {
    var k := s.consumers[c];
    if k.stop < k.end {
      AfterBlock(s, k);
      LookupGoesOn(s.seqs, s.entryOf, s.headers, k, NextBlock(s, k));
    }
    hide IndexOk, Slot, LookupOk;
    if ConsumersOk(s) {
      ClosingKept(s, c);
    }
  }

  lemma ReleaseKeeps(s: State, c: nat)
    requires Inv(s) && c < |s.consumers| && s.consumers[c].pc == Release
    ensures ConsumerCanStep(s, c) && Inv(StepConsumer(s, c))
  {
    assert ConsumerOk(s, c, s.consumers[c]);
    ReleaseBlocks(s, c);
    AfterRelease(s, c);
    hide BlocksOk, CellsOk, ConsumersOk, Disjoint;
    ConsumerDone(s, StepConsumer(s, c), c);
  }

  // The producer's steps.

  /** What remains to be shown of a step of the producer. */
  lemma ProducerDone(s: State, s': State)
    requires Inv(s)
    requires s' == s.(tail := s'.tail, headers := s'.headers, blocks := s'.blocks, entries := s'.entries,
                      producer := s'.producer, enq := s'.enq, seqs := s'.seqs, entryOf := s'.entryOf, lo := s'.lo,
                      place := s'.place)
    requires Evolves(s, s') && |s.place| <= |s'.place|
    requires forall b :: 0 <= b < |s.place| && (s.place[b].Closing? || s.place[b].Releasing?) ==> s'.place[b] == s.place[b]
    requires IndexOk(s') && InsertOk(s') && TailOk(s') && BlocksOk(s') && CellsOk(s') && DoneOk(s')
    ensures Inv(s')
  {
    ConsumersKept(s, s');
  }

  /** The producer moves on without touching anything shared. */
  lemma ProducerMoves(s: State, p: Producer)
    requires Inv(s)
    requires p.tailBlock == s.producer.tailBlock
    requires !p.pc.Publish? && !s.producer.pc.Publish? && !p.pc.StoreValue? && !s.producer.pc.StoreValue?
    requires Tentative(p.pc) == Tentative(s.producer.pc)
    requires TailOk(s.(producer := p)) && InsertOk(s.(producer := p))
    ensures Inv(s.(producer := p))
  {
    var s' := s.(producer := p);
    StoreMoves(s, s');
    ProducerDone(s, s');
  }

  lemma StoreMoves(s: State, s': State)
    requires BlocksOk(s) && CellsOk(s) && s' == s.(producer := s'.producer)
    requires !s'.producer.pc.Publish? && !s.producer.pc.Publish? && !s'.producer.pc.StoreValue? && !s.producer.pc.StoreValue?
    ensures BlocksOk(s') && CellsOk(s')
  {
    forall b | 0 <= b < |s'.blocks| ensures BlockOk(s', b) {
      assert BlockOk(s, b);
    }
    forall q | 0 <= q < |s'.seqs| && q !in s'.nulled ensures StretchOk(s', q) {
      assert StretchOk(s, q);
    }
    forall q, o | 0 <= q < |s'.seqs| && q !in s'.nulled && 0 <= o < BLOCK_SIZE ensures CellOk(s', q, o) {
      assert CellOk(s, q, o);
    }
  }

  /** At the start of enqueue the tail is either inside the newest stretch or just behind it. */
  lemma StartTail(s: State, value: int)
    requires TailOk(s) && s.producer.pc.Ready?
    ensures TailOk(StartEnqueue(s, value))
  {
    var n := |s.seqs|;
    NextInBlock(s.tail);
    Split(s.tail);
    Located(n, 0);
    if n > 0 {
      BelowBase(s.tail, n);
      BelowBase(s.tail, n - 1);
    }
  }

  lemma StartKeeps(s: State, value: int)
    requires Inv(s) && s.producer.pc.Ready?
    ensures Inv(StartEnqueue(s, value))
  {
    StartTail(s, value);
    ProducerMoves(s, StartEnqueue(s, value).producer);
  }

  lemma CheckRoomKeeps(s: State, ok: bool, pick: nat)
    requires Inv(s) && s.producer.pc.CheckRoom?
    ensures ProducerCanStep(s) && Inv(StepProducer(s, ok, pick))
  {
    ProducerMoves(s, StepProducer(s, ok, pick).producer);
  }

  /** What the producer finds in the slot after the tail. */
  lemma NextSlot(s: State)
    requires IndexOk(s) && |s.headers| > 0 && !Tentative(s.producer.pc)
    ensures HasIndex(s)
    ensures var hd := s.headers[Mine(s)]; var n := |s.seqs|;
      && Increment(hd.tail, hd.capacity) == Slot(hd, n) < |hd.index| && hd.index[Slot(hd, n)] < |s.entries|
      && (var e := s.entries[hd.index[Slot(hd, n)]];
          && (|s.entryOf| > n ==> e.value == None && e.key == Some(Base(n)) && hd.index[Slot(hd, n)] == s.entryOf[n])
          && (|s.entryOf| == n && n - s.lo < hd.capacity ==> e == Entry(None, None))
          && (|s.entryOf| == n && n - s.lo == hd.capacity ==>
                && n > s.lo && hd.index[Slot(hd, n)] == s.entryOf[s.lo] && e.key == Some(Base(s.lo))
                && e.value == (if s.lo !in s.nulled then Some(s.seqs[s.lo]) else None)))
  {
    var hd := s.headers[Mine(s)];
    var n := |s.seqs|;
    assert HeaderOk(s.entryOf, s.lo, hd);
    ModNext(n - 1 - hd.org, hd.capacity);
    if |s.entryOf| > n {
      assert PointsTo(s.entryOf, hd, n) && EntryOk(s.entries, s.entryOf, s.seqs, s.nulled, n);
    } else if n - s.lo < hd.capacity {
      assert Unused(s.entries, hd, n);
    } else {
      assert PointsTo(s.entryOf, hd, s.lo) && EntryOk(s.entries, s.entryOf, s.seqs, s.nulled, s.lo);
      ModShift(s.lo - hd.org, hd.capacity);
      assert n - hd.org == s.lo - hd.org + hd.capacity;
    }
  }

  lemma ProbeKeeps(s: State, ok: bool, pick: nat)
    requires Inv(s) && s.producer.pc.Probe?
    ensures ProducerCanStep(s) && Inv(StepProducer(s, ok, pick))
  {
    if |s.headers| > 0 {
      NextSlot(s);
    }
    ProducerMoves(s, StepProducer(s, ok, pick).producer);
  }

  // Doubling the index.

  /** The copied pointers are those of the stretches lo, lo + 1, .. of a full index, in this order. */
  lemma CopiedPointer(entryOf: seq<nat>, lo: nat, hd: Header, firstNew: nat, i: nat)
    requires HeaderOk(entryOf, lo, hd) && hd.lo == lo && hd.hi == hd.count == |entryOf| && |entryOf| - lo == hd.capacity
    requires i < hd.capacity
    ensures DoubledAt(hd, firstNew, i) == entryOf[lo + i]
  {
    assert PointsTo(entryOf, hd, lo + i);
    var n := |entryOf|;
    ModAdd(n - 1 - hd.org, 1 + i, hd.capacity);
    ModShift(lo + i - hd.org, hd.capacity);
    assert n + i - hd.org == lo + i - hd.org + hd.capacity;
    assert hd.tail + 1 + i == hd.tail + (1 + i);
  }

  lemma DoubledHeaderOk(s: State, hd': Header)
    requires IndexOk(s) && |s.headers| > 0 && !Tentative(s.producer.pc)
    requires |s.entryOf| == |s.seqs| && |s.seqs| - s.lo == s.headers[Mine(s)].capacity
    requires HasIndex(s) && hd' == DoubleIndex(s).headers[|s.headers|]
    ensures HeaderOk(s.entryOf, s.lo, hd')
  {
    var hd := s.headers[Mine(s)];
    assert HeaderOk(s.entryOf, s.lo, hd);
    forall q | hd'.lo <= q < hd'.hi ensures PointsTo(s.entryOf, hd', q) {
      CopiedPointer(s.entryOf, s.lo, hd, |s.entries|, q - s.lo);
    }
    assert IsPowerOfTwo(hd'.capacity);
  }

  lemma DoubledDistinct(s: State, i: nat, j: nat)
    requires IndexOk(s) && |s.headers| > 0 && HasIndex(s)
    requires i < j < 2 * s.headers[Mine(s)].capacity
    ensures DoubledAt(s.headers[Mine(s)], |s.entries|, i) != DoubledAt(s.headers[Mine(s)], |s.entries|, j)
    ensures DoubledAt(s.headers[Mine(s)], |s.entries|, i) < |s.entries| + s.headers[Mine(s)].capacity
  {
    var hd := s.headers[Mine(s)];
    if j < hd.capacity {
      ModDistinct(hd.tail + 1 + i, hd.tail + 1 + j, hd.capacity);
    }
  }

  lemma DoubledCurrentOk(s: State)
    requires IndexOk(s) && |s.headers| > 0 && !Tentative(s.producer.pc) && HasIndex(s)
    requires |s.entryOf| == |s.seqs| && |s.seqs| - s.lo == s.headers[Mine(s)].capacity
    ensures var s' := DoubleIndex(s);
      CurrentOk(s'.entries, |s.seqs|, s.lo, |s.entryOf|, 0, s'.headers[|s.headers|])
  {
    var s' := DoubleIndex(s);
    var hd, hd' := s.headers[Mine(s)], s'.headers[|s.headers|];
    forall i, j | 0 <= i < j < |hd'.index| ensures hd'.index[i] != hd'.index[j] {
      DoubledDistinct(s, i, j);
    }
    forall i | 0 <= i < |hd'.index| ensures hd'.index[i] < |s'.entries| {
      if i + 1 < |hd'.index| {
        DoubledDistinct(s, i, i + 1);
      }
    }
    forall q | |s.entryOf| <= q < s.lo + hd'.capacity ensures Unused(s'.entries, hd', q) {
    }
  }

  lemma DoubleKeepsIndex(s: State)
    requires IndexOk(s) && InsertOk(s) && s.producer.pc.NewIndex?
    ensures HasIndex(s)
    ensures IndexOk(DoubleIndex(s)) && InsertOk(DoubleIndex(s))
  {
    var n := |s.seqs|;
    var hd := s.headers[Mine(s)];
    assert HeaderOk(s.entryOf, s.lo, hd);
    var s' := DoubleIndex(s);
    DoubledHeaderOk(s, s'.headers[|s.headers|]);
    DoubledCurrentOk(s);
    forall q | s'.lo <= q < |s'.entryOf| ensures EntryOk(s'.entries, s'.entryOf, s'.seqs, s'.nulled, q) {
      assert EntryOk(s.entries, s.entryOf, s.seqs, s.nulled, q);
    }
  }

  /** The assert after doubling: the slot after the tail of the new index has no key yet. */
  lemma NewSlotInvalid(s: State)
    requires IndexOk(s) && InsertOk(s) && s.producer.pc.NewIndex?
    ensures HasIndex(s)
    ensures var s' := DoubleIndex(s); s'.producer.entry < |s'.entries| && s'.entries[s'.producer.entry].key == None
  {
    assert HeaderOk(s.entryOf, s.lo, s.headers[Mine(s)]);
    DoubleKeepsIndex(s);
    NextSlot(DoubleIndex(s));
  }

  lemma NewIndexKeeps(s: State, ok: bool, pick: nat)
    requires Inv(s) && s.producer.pc.NewIndex?
    ensures ProducerCanStep(s) && Inv(StepProducer(s, ok, pick))
  {
    DoubleKeepsIndex(s);
    var s' := StepProducer(s, ok, pick);
    if ok {
      StoreSame(s, s');
      ProducerDone(s, s');
    } else {
      ProducerMoves(s, s'.producer);
    }
  }

  /** Entries and headers do not matter to blocks and cells. */
  lemma StoreSame(s: State, s': State)
    requires BlocksOk(s) && CellsOk(s)
    requires s' == s.(entries := s'.entries, headers := s'.headers, producer := s'.producer, entryOf := s'.entryOf, lo := s'.lo)
    requires !s'.producer.pc.Publish? && !s.producer.pc.Publish? && !s'.producer.pc.StoreValue? && !s.producer.pc.StoreValue?
    ensures BlocksOk(s') && CellsOk(s')
  {
    forall b | 0 <= b < |s'.blocks| ensures BlockOk(s', b) {
      assert BlockOk(s, b);
    }
    forall q | 0 <= q < |s'.seqs| && q !in s'.nulled ensures StretchOk(s', q) {
      assert StretchOk(s, q);
    }
    forall q, o | 0 <= q < |s'.seqs| && q !in s'.nulled && 0 <= o < BLOCK_SIZE ensures CellOk(s', q, o) {
      assert CellOk(s, q, o);
    }
  }

  // Opening a stretch.

  /** The entry the producer is about to write, seen from the stretches that are in the window. */
  lemma KeyTarget(s: State)
    requires IndexOk(s) && InsertOk(s) && TailOk(s) && s.producer.pc.StoreKey?
    ensures |s.headers| > 0 && s.producer.entry < |s.entries|
    ensures forall q :: s.lo <= q < |s.seqs| && (q > s.lo || |s.seqs| - s.lo < s.headers[Mine(s)].capacity) ==>
              s.entryOf[q] != s.producer.entry
    ensures |s.entryOf| > |s.seqs| ==> s.entryOf[|s.seqs|] == s.producer.entry
    ensures s.entries[s.producer.entry].value == None
    ensures s.tail == Base(|s.seqs|)
  {
    NextSlot(s);
    var hd := s.headers[Mine(s)];
    var n := |s.seqs|;
    assert HeaderOk(s.entryOf, s.lo, hd);
    forall q | s.lo <= q < n && (q > s.lo || n - s.lo < hd.capacity) ensures s.entryOf[q] != s.producer.entry {
      assert PointsTo(s.entryOf, hd, q);
      ModDistinct(q - hd.org, n - hd.org, hd.capacity);
    }
  }

  lemma KeyEntries(s: State, s': State)
    requires IndexOk(s) && InsertOk(s) && TailOk(s) && s.producer.pc.StoreKey?
    requires s.producer.entry < |s.entries| && |s.headers| > 0
    requires s'.entries == s.entries[s.producer.entry := s.entries[s.producer.entry].(key := Some(s.tail))]
    requires s'.seqs == s.seqs && s'.nulled == s.nulled
    requires s'.entryOf == (if |s.entryOf| > |s.seqs| then s.entryOf else s.entryOf + [s.producer.entry])
    requires s'.lo == (if |s.entryOf| == |s.seqs| && |s.seqs| - s.lo == s.headers[Mine(s)].capacity then s.lo + 1 else s.lo)
    ensures forall q {:trigger EntryOk(s'.entries, s'.entryOf, s'.seqs, s'.nulled, q)} :: s'.lo <= q < |s'.entryOf| ==>
              EntryOk(s'.entries, s'.entryOf, s'.seqs, s'.nulled, q)
  {
    KeyTarget(s);
    forall q | s'.lo <= q < |s'.entryOf| ensures EntryOk(s'.entries, s'.entryOf, s'.seqs, s'.nulled, q) {
      if q < |s.entryOf| {
        assert EntryOk(s.entries, s.entryOf, s.seqs, s.nulled, q);
      }
    }
  }

  /** Taking over the slot of the next stretch keeps the current header's pointers. */
  lemma KeyHeader(s: State, entryOf': seq<nat>, lo': nat, hd: Header)
    requires HeaderOk(s.entryOf, s.lo, hd) && s.entryOf <= entryOf' && s.lo <= lo'
    ensures HeaderOk(entryOf', lo', hd)
  {
    forall q | hd.lo <= q < hd.hi ensures PointsTo(entryOf', hd, q) {
      assert PointsTo(s.entryOf, hd, q);
    }
  }

  lemma KeyCurrent(s: State, s': State, lo': nat, e: nat)
    requires IndexOk(s) && InsertOk(s) && TailOk(s) && s.producer.pc.StoreKey? && |s.entryOf| == |s.seqs|
    requires |s.headers| > 0 && e == s.producer.entry < |s.entries| == |s'.entries|
    requires lo' == (if |s.seqs| - s.lo == s.headers[Mine(s)].capacity then s.lo + 1 else s.lo)
    requires s'.entries == s.entries[e := s'.entries[e]]
    ensures var hd' := s.headers[Mine(s)].(lo := lo', hi := s.headers[Mine(s)].hi + 1);
      && HeaderOk(s.entryOf + [e], lo', hd')
      && CurrentOk(s'.entries, |s.seqs|, lo', |s.seqs| + 1, 0, hd')
  {
    var hd := s.headers[Mine(s)];
    var n := |s.seqs|;
    var entryOf' := s.entryOf + [e];
    var hd' := hd.(lo := lo', hi := hd.hi + 1);
    assert HeaderOk(s.entryOf, s.lo, hd);
    forall q | hd'.lo <= q < hd'.hi ensures PointsTo(entryOf', hd', q) {
      if q < n {
        assert PointsTo(s.entryOf, hd, q);
        assert Slot(hd', q) == Slot(hd, q);
      }
    }
    forall q | n + 1 <= q < lo' + hd'.capacity ensures Unused(s'.entries, hd', q) {
      assert Unused(s.entries, hd, q);
      ModDistinct(n - hd.org, q - hd.org, hd.capacity);
      assert Slot(hd', q) == Slot(hd, q);
    }
  }

  /** A key rewritten with the value it already has changes nothing. */
  lemma KeyAgain(s: State, entries': seq<Entry>)
    requires IndexOk(s) && InsertOk(s) && TailOk(s) && s.producer.pc.StoreKey? && |s.entryOf| > |s.seqs|
    requires s.producer.entry < |s.entries|
    requires entries' == s.entries[s.producer.entry := s.entries[s.producer.entry].(key := Some(s.tail))]
    ensures entries' == s.entries
  {
    NextSlot(s);
    KeyTarget(s);
  }

  lemma WindowOfEntries(s: State)
    requires IndexOk(s) && |s.headers| > 0
    ensures s.lo <= |s.seqs| <= |s.entryOf| <= |s.seqs| + 1 && |s.entryOf| - s.lo <= s.headers[Mine(s)].capacity
  {
  }

  /** All that storing a key changes. */
  lemma StoredKey(s: State, ok: bool, pick: nat)
    requires s.producer.pc.StoreKey? && HasIndex(s) && s.producer.entry < |s.entries|
    requires s.lo <= |s.seqs| <= |s.entryOf| <= |s.seqs| + 1 && |s.entryOf| - s.lo <= s.headers[Mine(s)].capacity
    ensures ProducerCanStep(s)
    ensures var hd, e := s.headers[Mine(s)], s.producer.entry;
      var lo' := if |s.seqs| - s.lo == hd.capacity then s.lo + 1 else s.lo;
      var s' := s.(entries := s.entries[e := s.entries[e].(key := Some(s.tail))], producer := s.producer.(pc := StoreTail));
      StepProducer(s, ok, pick) ==
        if |s.entryOf| > |s.seqs| then s'
        else s'.(headers := s.headers[Mine(s) := hd.(lo := lo', hi := hd.hi + 1)], entryOf := s.entryOf + [e], lo := lo')
  {
  }

  lemma StoreKeyIndex(s: State, ok: bool, pick: nat)
    requires IndexOk(s) && InsertOk(s) && TailOk(s) && s.producer.pc.StoreKey?
    ensures ProducerCanStep(s)
    ensures var s' := StepProducer(s, ok, pick); IndexOk(s') && InsertOk(s')
  {
    hide HeaderOk, CurrentOk, EntryOk, Unused, PointsTo, StepProducer, ProducerCanStep;
    KeyTarget(s);
    NextSlot(s);
    WindowOfEntries(s);
    StoredKey(s, ok, pick);
    var s' := StepProducer(s, ok, pick);
    KeyEntries(s, s');
    forall h | 0 <= h < |s.headers| ensures HeaderOk(s'.entryOf, s'.lo, s.headers[h]) {
      KeyHeader(s, s'.entryOf, s'.lo, s.headers[h]);
    }
    if |s.entryOf| > |s.seqs| {
      KeyAgain(s, s'.entries);
    } else {
      KeyCurrent(s, s', s'.lo, s.producer.entry);
    }
  }

  lemma StoreKeyKeeps(s: State, ok: bool, pick: nat)
    requires Inv(s) && s.producer.pc.StoreKey?
    ensures ProducerCanStep(s) && Inv(StepProducer(s, ok, pick))
  {
    hide IndexOk, BlocksOk, CellsOk, ConsumersOk, Disjoint, Finished, Evolves, StepProducer;
    StoreKeyIndex(s, ok, pick);
    WindowOfEntries(s);
    KeyStored(s, ok, pick);
    var s' := StepProducer(s, ok, pick);
    assert s'.lo != s.lo ==> s.lo in s.nulled;
    StoreSame(s, s');
    ProducerDone(s, s');
  }

  lemma KeyStored(s: State, ok: bool, pick: nat)
    requires s.producer.pc.StoreKey? && ProducerCanStep(s)
    requires s.lo <= |s.seqs| <= |s.entryOf| && |s.entryOf| - s.lo <= s.headers[Mine(s)].capacity
    ensures var s' := StepProducer(s, ok, pick);
      && s' == s.(entries := s'.entries, headers := s'.headers, producer := s.producer.(pc := StoreTail),
                  entryOf := s'.entryOf, lo := s'.lo)
      && Evolves(s, s') && s.lo <= s'.lo
      && (s'.lo != s.lo ==> s'.lo == s.lo + 1 && |s.entryOf| == |s.seqs| && |s.seqs| - s.lo == s.headers[Mine(s)].capacity)
  {
  }

  /** The current header with its tail slot on the tentative stretch or on the one before. */
  function TailAt(s: State, tentative: bool): Header
    requires |s.headers| > 0 && s.headers[Mine(s)].capacity > 0
  {
    var hd, n := s.headers[Mine(s)], |s.seqs|;
    hd.(tail := Slot(hd, if tentative then n else n - 1), count := if tentative then n + 1 else n)
  }

  /** Moving the public tail slot forward onto a written key, or back. */
  lemma TailMoves(s: State, s': State)
    requires IndexOk(s) && InsertOk(s) && KeyWritten(s.producer.pc) && KeyWritten(s'.producer.pc)
    requires |s.headers| > 0 && s.headers[Mine(s)].capacity > 0
    requires s' == s.(producer := s.producer.(pc := s'.producer.pc), headers := s.headers[Mine(s) := TailAt(s, Tentative(s'.producer.pc))])
    ensures IndexOk(s') && InsertOk(s')
  {
    var hd, hd' := s.headers[Mine(s)], s'.headers[Mine(s)];
    assert HeaderOk(s.entryOf, s.lo, hd);
    forall q | hd'.lo <= q < hd'.hi ensures PointsTo(s'.entryOf, hd', q) {
      assert PointsTo(s.entryOf, hd, q);
    }
    forall q | |s'.entryOf| <= q < s'.lo + hd'.capacity ensures Unused(s'.entries, hd', q) {
      assert Unused(s.entries, hd, q);
    }
    assert HeaderOk(s'.entryOf, s'.lo, hd');
  }

  lemma StoreTailKeeps(s: State, ok: bool, pick: nat)
    requires Inv(s) && s.producer.pc.StoreTail?
    ensures ProducerCanStep(s) && Inv(StepProducer(s, ok, pick))
  {
    assert HeaderOk(s.entryOf, s.lo, s.headers[Mine(s)]);
    var s' := StepProducer(s, ok, pick);
    TailMoves(s, s');
    hide StepProducer, IndexOk, InsertOk;
    StoreSame(s, s');
    hide BlocksOk, CellsOk, ConsumersOk, Disjoint;
    ProducerDone(s, s');
  }

  lemma RewindKeeps(s: State, ok: bool, pick: nat)
    requires Inv(s) && s.producer.pc.Rewind?
    ensures ProducerCanStep(s) && Inv(StepProducer(s, ok, pick))
  {
    var hd := s.headers[Mine(s)];
    assert HeaderOk(s.entryOf, s.lo, hd);
    ModNext(|s.seqs| - 1 - hd.org, hd.capacity);
    var s' := StepProducer(s, ok, pick);
    assert s' == s.(producer := s.producer.(pc := ClearValue), headers := s.headers[Mine(s) := TailAt(s, false)]);
    TailMoves(s, s');
    hide StepProducer, IndexOk, InsertOk;
    StoreSame(s, s');
    hide BlocksOk, CellsOk, ConsumersOk, Disjoint;
    ProducerDone(s, s');
  }

  lemma ClearValueKeeps(s: State, ok: bool, pick: nat)
    requires Inv(s) && s.producer.pc.ClearValue?
    ensures ProducerCanStep(s) && Inv(StepProducer(s, ok, pick))
  {
    TentativeEntry(s);
    var s' := StepProducer(s, ok, pick);
    assert s'.entries == s.entries;
    ProducerMoves(s, s'.producer);
  }

  lemma TentativeEntry(s: State)
    requires IndexOk(s) && InsertOk(s) && KeyWritten(s.producer.pc)
    ensures s.producer.entry < |s.entries| && s.entryOf[|s.seqs|] == s.producer.entry
    ensures s.entries[s.producer.entry] == Entry(Some(Base(|s.seqs|)), None)
  {
    var hd := s.headers[Mine(s)];
    assert HeaderOk(s.entryOf, s.lo, hd);
    assert PointsTo(s.entryOf, hd, |s.seqs|);
    assert EntryOk(s.entries, s.entryOf, s.seqs, s.nulled, |s.seqs|);
  }

  // A block for the stretch.

  lemma RequisitionBlocks(s: State, pick: nat)
    requires BlocksOk(s) && CellsOk(s) && s.producer.pc.Requisition?
    ensures ProducerCanStep(s)
    ensures var s' := StepProducer(s, true, pick); BlocksOk(s') && CellsOk(s')
  {
    var s' := StepProducer(s, true, pick);
    forall b | 0 <= b < |s'.blocks| ensures BlockOk(s', b) {
      if b < |s.blocks| {
        assert BlockOk(s, b);
      }
    }
    forall q | 0 <= q < |s'.seqs| && q !in s'.nulled ensures StretchOk(s', q) {
      assert StretchOk(s, q);
    }
    forall q, o | 0 <= q < |s'.seqs| && q !in s'.nulled && 0 <= o < BLOCK_SIZE ensures CellOk(s', q, o) {
      assert CellOk(s, q, o) && StretchOk(s, q);
    }
  }

  lemma Requisitioned(s: State, pick: nat)
    requires |s.place| == |s.blocks| && s.producer.pc.Requisition?
    ensures var s' := StepProducer(s, true, pick);
      && s' == s.(blocks := s'.blocks, place := s'.place, producer := s.producer.(pc := StoreValue, tailBlock := s'.producer.tailBlock))
      && |s.place| <= |s'.place|
      && (forall b :: 0 <= b < |s.place| && s.place[b] != Free ==> s'.place[b] == s.place[b])
  {
  }

  lemma RequisitionKeeps(s: State, ok: bool, pick: nat)
    requires Inv(s) && s.producer.pc.Requisition?
    ensures ProducerCanStep(s) && Inv(StepProducer(s, ok, pick))
  {
    if ok {
      RequisitionBlocks(s, pick);
      Requisitioned(s, pick);
      hide StepProducer, BlocksOk, CellsOk, ConsumersOk, Disjoint;
      ProducerDone(s, StepProducer(s, ok, pick));
    } else {
      ProducerMoves(s, StepProducer(s, ok, pick).producer);
    }
  }

  lemma {:induction false} NoneDone(done: set<nat>, a: nat, b: nat)
    requires forall i :: i in done ==> i < a
    ensures CountDone(done, a, b) == 0
    decreases b
  {
    if a < b {
      NoneDone(done, a, b - 1);
    }
  }

  lemma StoreValueBlocks(s: State, ok: bool, pick: nat)
    requires BlocksOk(s) && CellsOk(s) && TailOk(s) && DoneOk(s) && s.producer.pc.StoreValue? && ProducerCanStep(s)
    ensures var s' := StepProducer(s, ok, pick); BlocksOk(s') && CellsOk(s')
  {
    var s' := StepProducer(s, ok, pick);
    var b0, n := s.producer.tailBlock, |s.seqs|;
    assert BlockOk(s, b0);
    NoneDone(s.done, Base(n), Base(n + 1));
    forall b | 0 <= b < |s'.blocks| ensures BlockOk(s', b) {
      assert BlockOk(s, b);
    }
    forall q | 0 <= q < |s'.seqs| && q !in s'.nulled ensures StretchOk(s', q) {
      assert q < n ==> StretchOk(s, q);
    }
    forall q, o | 0 <= q < |s'.seqs| && q !in s'.nulled && 0 <= o < BLOCK_SIZE ensures CellOk(s', q, o) {
      assert q < n ==> CellOk(s, q, o);
    }
  }

  lemma StoreValueIndex(s: State, ok: bool, pick: nat)
    requires IndexOk(s) && InsertOk(s) && DoneOk(s) && s.producer.pc.StoreValue? && s.producer.tailBlock < |s.place|
    ensures ProducerCanStep(s)
    ensures var s' := StepProducer(s, ok, pick); IndexOk(s') && InsertOk(s')
  {
    TentativeEntry(s);
    var hd := s.headers[Mine(s)];
    assert HeaderOk(s.entryOf, s.lo, hd);
    var s' := StepProducer(s, ok, pick);
    var n := |s.seqs|;
    forall q | s'.lo <= q < |s'.entryOf| ensures EntryOk(s'.entries, s'.entryOf, s'.seqs, s'.nulled, q) {
      assert EntryOk(s.entries, s.entryOf, s.seqs, s.nulled, q);
      if q < n {
        EntriesDiffer(s, q, n);
      }
    }
    StoreValueHeader(s, s'.entries, hd);
  }

  lemma StoreValueHeader(s: State, entries': seq<Entry>, hd: Header)
    requires HeaderOk(s.entryOf, s.lo, hd) && CurrentOk(s.entries, |s.seqs|, s.lo, |s.entryOf|, 1, hd)
    requires |s.entryOf| == |s.seqs| + 1 && s.lo <= |s.seqs|
    requires s.producer.entry < |s.entries| && s.producer.entry == s.entryOf[|s.seqs|]
    requires |entries'| == |s.entries| && forall e :: 0 <= e < |s.entries| && e != s.producer.entry ==> entries'[e] == s.entries[e]
    ensures HeaderOk(s.entryOf, s.lo, hd.(pub := hd.pub + 1))
    ensures CurrentOk(entries', |s.seqs| + 1, s.lo, |s.entryOf|, 0, hd.(pub := hd.pub + 1))
  {
    var hd' := hd.(pub := hd.pub + 1);
    forall q | hd'.lo <= q < hd'.hi ensures PointsTo(s.entryOf, hd', q) {
      assert PointsTo(s.entryOf, hd, q);
    }
    assert PointsTo(s.entryOf, hd, |s.seqs|);
    forall q | |s.entryOf| <= q < s.lo + hd'.capacity ensures Unused(entries', hd', q) {
      assert Unused(s.entries, hd, q);
      ModDistinct(|s.seqs| - hd.org, q - hd.org, hd.capacity);
    }
  }

  lemma StoreValueKeeps(s: State, ok: bool, pick: nat)
    requires Inv(s) && s.producer.pc.StoreValue?
    ensures ProducerCanStep(s) && Inv(StepProducer(s, ok, pick))
  {
    StoreValueIndex(s, ok, pick);
    StoreValueBlocks(s, ok, pick);
    BaseGrows(|s.seqs|, |s.seqs| + 1);
    var s' := StepProducer(s, ok, pick);
    DoneSame(s, s');
    hide BlocksOk, CellsOk, ConsumersOk, Disjoint, IndexOk, InsertOk, DoneOk;
    ProducerDone(s, s');
  }

  lemma DoneSame(s: State, s': State)
    requires DoneOk(s) && s'.done == s.done && s'.taken == s.taken && s'.nulled == s.nulled && s'.lo == s.lo
    requires s'.head == s.head && |s.seqs| <= |s'.seqs|
    ensures DoneOk(s')
  {
    forall q | q in s'.nulled ensures Finished(s'.done, q) {
      assert Finished(s.done, q);
    }
  }

  // Constructing and publishing the element.

  lemma TailStretch(s: State)
    requires BlocksOk(s) && TailOk(s) && CellsOk(s) && DoneOk(s) && (s.producer.pc.Construct? || s.producer.pc.Publish?)
    ensures |s.seqs| > 0 && Blk(s.tail) == |s.seqs| - 1 && Base(|s.seqs| - 1) + Off(s.tail) == s.tail
    ensures |s.seqs| - 1 !in s.nulled && s.producer.tailBlock == s.seqs[|s.seqs| - 1] < |s.blocks| == |s.place|
    ensures StretchOk(s, |s.seqs| - 1) && CellOk(s, |s.seqs| - 1, Off(s.tail)) && s.tail !in s.taken
  {
    var n := |s.seqs|;
    Split(s.tail);
    BelowBase(s.tail, n);
    BelowBase(s.tail, n - 1);
    assert s.tail !in s.taken && s.tail !in s.done;
    NotFinished(s.done, n - 1, s.tail);
    assert n - 1 !in s.nulled;
    assert StretchOk(s, n - 1);
    assert CellOk(s, n - 1, Off(s.tail));
  }

  lemma NotFinished(done: set<nat>, q: nat, i: nat)
    requires Base(q) <= i < Base(q + 1) && i !in done
    ensures !Finished(done, q)
  {
  }

  lemma ConstructReady(s: State)
    requires BlocksOk(s) && TailOk(s) && CellsOk(s) && DoneOk(s) && s.producer.pc.Construct?
    ensures ProducerCanStep(s)
    ensures s.blocks[s.producer.tailBlock].cells[Off(s.tail)] == None
    ensures !Detached(s.place[s.producer.tailBlock]) && |s.blocks[s.producer.tailBlock].cells| == BLOCK_SIZE
  {
    TailStretch(s);
    assert BlockOk(s, s.producer.tailBlock);
  }

  lemma ConstructCells(s: State, ok: bool, pick: nat)
    requires BlocksOk(s) && TailOk(s) && CellsOk(s) && DoneOk(s) && s.producer.pc.Construct? && ProducerCanStep(s)
    ensures CellsOk(StepProducer(s, ok, pick))
  {
    TailStretch(s);
    var n := |s.seqs|;
    var s' := StepProducer(s, ok, pick);
    forall q, o | 0 <= q < |s'.seqs| && q !in s'.nulled && 0 <= o < BLOCK_SIZE ensures CellOk(s', q, o) {
      assert CellOk(s, q, o);
      Located(q, o);
      if s.seqs[q] == s.seqs[n - 1] {
        SameBlockSameStretch(s, q, n - 1);
      }
    }
  }

  lemma ConstructBlocks(s: State, ok: bool, pick: nat)
    requires BlocksOk(s) && s.producer.pc.Construct? && ProducerCanStep(s)
    requires !Detached(s.place[s.producer.tailBlock]) && |s.blocks[s.producer.tailBlock].cells| == BLOCK_SIZE
    ensures BlocksOk(StepProducer(s, ok, pick))
  {
    var s' := StepProducer(s, ok, pick);
    forall b | 0 <= b < |s'.blocks| ensures BlockOk(s', b) {
      assert BlockOk(s, b);
    }
    forall q | 0 <= q < |s'.seqs| && q !in s'.nulled ensures StretchOk(s', q) {
      assert StretchOk(s, q);
    }
  }

  lemma ConstructKeeps(s: State, ok: bool, pick: nat)
    requires Inv(s) && s.producer.pc.Construct?
    ensures ProducerCanStep(s) && Inv(StepProducer(s, ok, pick))
  {
    ConstructReady(s);
    ConstructCells(s, ok, pick);
    ConstructBlocks(s, ok, pick);
    var s' := StepProducer(s, ok, pick);
    DoneSame(s, s');
    ProducerDone(s, s');
  }

  lemma PublishStore(s: State, ok: bool, pick: nat)
    requires BlocksOk(s) && TailOk(s) && CellsOk(s) && DoneOk(s) && s.producer.pc.Publish?
    ensures BlocksOk(StepProducer(s, ok, pick)) && CellsOk(StepProducer(s, ok, pick)) && DoneOk(StepProducer(s, ok, pick))
  {
    TailStretch(s);
    var s' := StepProducer(s, ok, pick);
    forall b | 0 <= b < |s'.blocks| ensures BlockOk(s', b) {
      assert BlockOk(s, b);
    }
    forall q | 0 <= q < |s'.seqs| && q !in s'.nulled ensures StretchOk(s', q) {
      assert StretchOk(s, q);
    }
    forall q, o | 0 <= q < |s'.seqs| && q !in s'.nulled && 0 <= o < BLOCK_SIZE ensures CellOk(s', q, o) {
      assert CellOk(s, q, o);
    }
    DoneSame(s, s');
  }

  lemma PublishKeeps(s: State, ok: bool, pick: nat)
    requires Inv(s) && s.producer.pc.Publish?
    ensures ProducerCanStep(s) && Inv(StepProducer(s, ok, pick))
  {
    PublishStore(s, ok, pick);
    ProducerDone(s, StepProducer(s, ok, pick));
  }

  /** Indices of the claim not yet counted as done. */
  predicate Unmarked(k: Consumer, i: nat) {
    (if k.pc in {ClearEntry, Release} then k.stop else k.start) <= i < k.end
  }

  /** Consumer c is still going to deal with index i. */
  predicate StillToDo(cs: seq<Consumer>, c: nat, i: nat) {
    c < |cs| && cs[c].pc != Idle && Unmarked(cs[c], i)
  }

  /** Every claimed index is done or somebody's to do. */
  ghost predicate NoneLost(s: State) {
    forall i: nat {:trigger i in s.done} :: i < s.head && i !in s.done ==> exists c :: StillToDo(s.consumers, c, i)
  }

  /** Consumer c passes on only what is done. */
  lemma ConsumerLosesNothing(s: State, s': State, c: nat)
    requires NoneLost(s) && c < |s.consumers| == |s'.consumers| && s'.head == s.head && s.done <= s'.done
    requires s'.consumers == s.consumers[c := s'.consumers[c]]
    requires forall i: nat :: StillToDo(s.consumers, c, i) && i !in s'.done ==> StillToDo(s'.consumers, c, i)
    ensures NoneLost(s')
  {
    forall i: nat | i < s'.head && i !in s'.done ensures exists d :: StillToDo(s'.consumers, d, i) {
      assert i !in s.done;
      var d :| StillToDo(s.consumers, d, i);
      assert StillToDo(s'.consumers, d, i);
    }
  }

  lemma ConsumeLosesNothing(s: State, c: nat)
    requires c < |s.consumers| && s.consumers[c].pc != Idle && ConsumerOk(s, c, s.consumers[c]) && ConsumerCanStep(s, c)
    ensures var s' := StepConsumer(s, c);
      && s'.head == s.head && s.done <= s'.done && |s'.consumers| == |s.consumers|
      && s'.consumers == s.consumers[c := s'.consumers[c]]
      && forall i: nat :: StillToDo(s.consumers, c, i) && i !in s'.done ==> StillToDo(s'.consumers, c, i)
  {
  }

  lemma ClaimLosesNothing(s: State, c: nat, count: nat)
    requires NoneLost(s) && c < |s.consumers|
    ensures NoneLost(ClaimRange(s, c, count))
  {
    var s' := ClaimRange(s, c, count);
    if s' != s {
      forall i: nat | i < s'.head && i !in s'.done ensures exists d :: StillToDo(s'.consumers, d, i) {
        if i < s.head {
          assert i !in s.done;
          var d :| StillToDo(s.consumers, d, i);
          assert StillToDo(s'.consumers, d, i);
        } else {
          assert StillToDo(s'.consumers, c, i);
        }
      }
    }
  }

  lemma StepLosesNothing(s: State, e: Event)
    requires Inv(s) && NoneLost(s)
    ensures NoneLost(Step(s, e))
  {
    match e
    case Claim(c, count) => if c < |s.consumers| { ClaimLosesNothing(s, c, count); }
    case Consume(c) =>
      if c < |s.consumers| && ConsumerCanStep(s, c) && s.consumers[c].pc != Idle {
        assert ConsumerOk(s, c, s.consumers[c]);
        ConsumeLosesNothing(s, c);
        ConsumerLosesNothing(s, StepConsumer(s, c), c);
      }
    case _ => ProducerLosesNothing(s, e);
  }

  lemma ProducerLosesNothing(s: State, e: Event)
    requires NoneLost(s) && (e.Enqueue? || e.Produce?)
    ensures NoneLost(Step(s, e))
  {
    ProducerLeaves(s, e);
    hide Step;
  }

  lemma ProducerLeaves(s: State, e: Event)
    requires e.Enqueue? || e.Produce?
    ensures Step(s, e).consumers == s.consumers && Step(s, e).head == s.head && Step(s, e).done == s.done
  {
    hide ProducerCanStep, DoubledIndex, FreshEntries, Increment, Decrement, Off;
    match s.producer.pc
    case NewIndex =>
    case StoreKey =>
    case Requisition =>
    case _ =>
  }

  lemma OnlyPublishMovesTail(s: State, e: Event)
    requires e.Enqueue? || e.Produce?
    ensures Step(s, e).tail == s.tail + (if e.Produce? && s.producer.pc.Publish? then 1 else 0)
  {
    hide DoubledIndex, FreshEntries, Increment, Decrement, Off;
    match s.producer.pc
    case NewIndex =>
    case StoreKey =>
    case Requisition =>
    case Publish =>
    case _ =>
  }

  /** With no claim in progress every claimed index has been moved out and marked. */
  lemma AllDelivered(s: State, i: nat)
    requires Inv(s) && NoneLost(s) && i < s.head
    requires forall c :: 0 <= c < |s.consumers| ==> s.consumers[c].pc == Idle
    ensures i in s.taken && i in s.done
  {
    assert forall c {:trigger StillToDo(s.consumers, c, i)} :: !StillToDo(s.consumers, c, i);
    assert i in s.done;
  }

  // Main results.

  lemma ConsumeKeeps(s: State, c: nat)
    requires Inv(s) && c < |s.consumers|
    ensures ConsumerCanStep(s, c) && Inv(StepConsumer(s, c))
  {
    match s.consumers[c].pc
    case Idle =>
    case LoadIndex => LoadIndexKeeps(s, c);
    case LoadTail => LoadTailKeeps(s, c);
    case LoadKey => LoadKeyKeeps(s, c);
    case LoadValue => LoadValueKeeps(s, c);
    case Take => TakeKeeps(s, c);
    case AddCount => AddCountKeeps(s, c);
    case ClearEntry => ClearEntryKeeps(s, c);
    case Release => ReleaseKeeps(s, c);
  }

  lemma ProduceKeeps(s: State, ok: bool, pick: nat)
    requires Inv(s)
    ensures ProducerCanStep(s) && Inv(StepProducer(s, ok, pick))
  {
    match s.producer.pc
    case Ready =>
    case CheckRoom => CheckRoomKeeps(s, ok, pick);
    case Probe => ProbeKeeps(s, ok, pick);
    case NewIndex => NewIndexKeeps(s, ok, pick);
    case StoreKey => StoreKeyKeeps(s, ok, pick);
    case StoreTail => StoreTailKeeps(s, ok, pick);
    case Requisition => RequisitionKeeps(s, ok, pick);
    case Rewind => RewindKeeps(s, ok, pick);
    case ClearValue => ClearValueKeeps(s, ok, pick);
    case StoreValue => StoreValueKeeps(s, ok, pick);
    case Construct => ConstructKeeps(s, ok, pick);
    case Publish => PublishKeeps(s, ok, pick);
  }

  lemma StepKeeps(s: State, e: Event)
    requires Inv(s)
    ensures Inv(Step(s, e))
  {
    match e
    case Enqueue(value) => if s.producer.pc.Ready? { StartKeeps(s, value); }
    case Produce(ok, pick) => ProduceKeeps(s, ok, pick);
    case Claim(c, count) => if c < |s.consumers| { ClaimKeeps(s, c, count); }
    case Consume(c) => if c < |s.consumers| { ConsumeKeeps(s, c); }
  }

  lemma InitInv(consumers: nat, capacity: nat, ok: bool)
    requires capacity > 0 && IsPowerOfTwo(capacity)
    ensures Inv(Init(consumers, capacity, ok))
  {
    var s := Init(consumers, capacity, ok);
    if ok {
      var hd := s.headers[0];
      forall q | 0 <= q < capacity ensures Unused(s.entries, hd, q) {
      }
      assert Mod(-1, capacity) == capacity - 1;
    }
  }

  lemma {:induction false} EveryRun(consumers: nat, capacity: nat, ok: bool, schedule: seq<Event>)
    requires capacity > 0 && IsPowerOfTwo(capacity)
    ensures Inv(Execute(Init(consumers, capacity, ok), schedule))
  {
    if schedule == [] {
      InitInv(consumers, capacity, ok);
    } else {
      var last := |schedule| - 1;
      EveryRun(consumers, capacity, ok, schedule[..last]);
      StepKeeps(Execute(Init(consumers, capacity, ok), schedule[..last]), schedule[last]);
    }
  }

  // The calls of enqueue.

  /** A call begins when its thread is not in another one. */
  function Begun(s: State, e: Event): Option<int> {
    if e.Enqueue? && s.producer.pc.Ready? then Some(e.value) else None
  }

  /** The calls of a whole run: one succeeds when the tail moves. */
  function Calls(s: State, schedule: seq<Event>): Log {
    if schedule == [] then EMPTY
    else
      var before := schedule[..|schedule| - 1];
      Observe(Calls(s, before), Begun(Execute(s, before), schedule[|before|]), Execute(s, schedule).tail != Execute(s, before).tail)
  }

  /** The elements are the values of the calls that succeeded, and a call in progress still has its own. */
  ghost predicate Recorded(s: State, log: Log) {
    s.enq == log.succeeded && (!s.producer.pc.Ready? ==> s.producer.value == log.value)
  }

  lemma ProducerRecords(s: State, e: Event, log: Log)
    requires Recorded(s, log) && (e.Enqueue? || e.Produce?)
    ensures Recorded(Step(s, e), Observe(log, Begun(s, e), Step(s, e).tail != s.tail))
  {
    hide DoubledIndex, FreshEntries, Increment, Decrement, ProducerCanStep, Off;
    match s.producer.pc
    case Probe =>
    case NewIndex =>
    case StoreKey =>
    case StoreTail =>
    case Requisition =>
    case Rewind =>
    case ClearValue =>
    case StoreValue =>
    case Construct =>
    case Publish =>
    case _ =>
  }

  lemma ConsumerRecords(s: State, e: Event, log: Log)
    requires Recorded(s, log) && (e.Claim? || e.Consume?)
    ensures Recorded(Step(s, e), Observe(log, Begun(s, e), Step(s, e).tail != s.tail))
  {
    hide Base, Blk, Off, SignedQuotient, Mod, Range;
  }

  lemma {:induction false} RunRecords(s: State, schedule: seq<Event>)
    requires s.enq == [] && s.producer.pc.Ready?
    ensures Recorded(Execute(s, schedule), Calls(s, schedule))
  {
    hide Step, Recorded, Observe;
    if schedule == [] {
      NothingRecorded(s);
    } else {
      var before := schedule[..|schedule| - 1];
      var e := schedule[|before|];
      RunRecords(s, before);
      if e.Enqueue? || e.Produce? {
        ProducerRecords(Execute(s, before), e, Calls(s, before));
      } else {
        ConsumerRecords(Execute(s, before), e, Calls(s, before));
      }
    }
  }

  lemma NothingRecorded(s: State)
    requires s.enq == [] && s.producer.pc.Ready?
    ensures Recorded(s, EMPTY)
  {
  }

  /** In every run the elements of the queue are the values of the calls of enqueue that have succeeded, in the
      order of the calls. */
  lemma EnqueuedInOrder(consumers: nat, capacity: nat, ok: bool, schedule: seq<Event>)
    requires capacity > 0
    ensures Execute(Init(consumers, capacity, ok), schedule).enq == Calls(Init(consumers, capacity, ok), schedule).succeeded
  {
    hide Execute, Calls;
    RunRecords(Init(consumers, capacity, ok), schedule);
  }

  /** A lookup that is complete but for reading the value: the slot holds the key of the wanted block and
      the block itself, whatever tail slot the consumer had observed. */
  ghost predicate LookupSucceeds(s: State, k: Consumer) {
    && KeyAt(s, k.header, k.slot) == Some(Base(Blk(k.cur)))
    && Blk(k.cur) < |s.seqs| && ValueAt(s, k.header, k.slot) == Some(s.seqs[Blk(k.cur)])
  }

  ghost predicate FindsItsElement(s: State, k: Consumer) {
    && k.block < |s.blocks| && Off(k.cur) < |s.blocks[k.block].cells| && k.cur < |s.enq|
    && s.blocks[k.block].cells[Off(k.cur)] == Some(s.enq[k.cur])
    && k.cur !in s.taken
  }

  /** In every interleaving both asserts of the lookup hold, every consumer about to move an element out
      finds the one enqueued at its index, and what a finished claim has delivered is the elements
      enqueued at the claimed indices, in order. */
  lemma EveryConsumerIsServed(consumers: nat, capacity: nat, ok: bool, schedule: seq<Event>, c: nat)
    requires capacity > 0 && IsPowerOfTwo(capacity)
    ensures var s := Execute(Init(consumers, capacity, ok), schedule);
      && s.enq == Calls(Init(consumers, capacity, ok), schedule).succeeded
      && (c < |s.consumers| ==>
        && ConsumerCanStep(s, c)
        && (s.consumers[c].pc == LoadValue ==> LookupSucceeds(s, s.consumers[c]))
        && (s.consumers[c].pc == Take ==> FindsItsElement(s, s.consumers[c]))
        && (s.consumers[c].pc == Idle ==> Delivered(s.enq, s.consumers[c])))
  {
    EnqueuedInOrder(consumers, capacity, ok, schedule);
    hide Calls;
    EveryRun(consumers, capacity, ok, schedule);
    var s := Execute(Init(consumers, capacity, ok), schedule);
    if c < |s.consumers| {
      assert ConsumerOk(s, c, s.consumers[c]);
      ConsumeKeeps(s, c);
      if s.consumers[c].pc == LoadValue {
        LookedUp(s, c);
      }
      if s.consumers[c].pc == Take {
        AfterTake(s, c);
      }
    }
  }

  /** The keys in the slots of the current window are those of consecutive stretches. */
  lemma KeysConsecutive(s: State, q: nat)
    requires Inv(s) && |s.headers| > 0 && s.lo <= q < |s.entryOf|
    ensures s.headers[Mine(s)].capacity > 0
    ensures KeyAt(s, Mine(s), Slot(s.headers[Mine(s)], q)) == Some(Base(q))
    ensures Slot(s.headers[Mine(s)], q + 1) == Increment(Slot(s.headers[Mine(s)], q), s.headers[Mine(s)].capacity)
  {
    var hd := s.headers[Mine(s)];
    assert HeaderOk(s.entryOf, s.lo, hd);
    assert EntryOk(s.entries, s.entryOf, s.seqs, s.nulled, q);
    EntryAt(s, Mine(s), q);
    ModNext(q - hd.org, hd.capacity);
  }

  /** Storage is recycled safely: a block is handed to the free list only bare and only after all its
      elements are done, by the one consumer that counted the last of them; the producer constructs only in
      bare cells; and the slot after a doubling has no key yet. */
  lemma BlocksRecycledSafely(s: State)
    requires Inv(s)
    ensures forall c :: 0 <= c < |s.consumers| && s.consumers[c].pc == ClearEntry ==>
      var k := s.consumers[c];
      && k.block < |s.place| == |s.blocks| && s.place[k.block] == Closing(Blk(k.start), c)
      && Finished(s.done, Blk(k.start))
    ensures forall b :: 0 <= b < |s.blocks| && b < |s.place| && s.place[b] == Free ==>
      forall o :: 0 <= o < |s.blocks[b].cells| ==> s.blocks[b].cells[o] == None
    ensures s.producer.pc.Construct? ==>
      ProducerCanStep(s) && s.blocks[s.producer.tailBlock].cells[Off(s.tail)] == None
    ensures s.producer.pc.NewIndex? ==>
      && HasIndex(s)
      && var s' := DoubleIndex(s); s'.producer.entry < |s'.entries| && s'.entries[s'.producer.entry].key == None
  {
    forall c | 0 <= c < |s.consumers| && s.consumers[c].pc == ClearEntry
      ensures var k := s.consumers[c];
        && k.block < |s.place| == |s.blocks| && s.place[k.block] == Closing(Blk(k.start), c)
        && Finished(s.done, Blk(k.start))
    {
      assert ConsumerOk(s, c, s.consumers[c]);
      ClosingStretch(s, c);
    }
    forall b | 0 <= b < |s.blocks| && b < |s.place| && s.place[b] == Free
      ensures forall o :: 0 <= o < |s.blocks[b].cells| ==> s.blocks[b].cells[o] == None
    {
      assert BlockOk(s, b);
    }
    if s.producer.pc.Construct? {
      ConstructReady(s);
    }
    if s.producer.pc.NewIndex? {
      NewSlotInvalid(s);
    }
  }
}
