/** The blocks of an explicit producer and the index through which consumers find them.

    One producer enqueues single elements whose construction does not throw; any number of consumers
    first claim a range of indices (how, is the subject of module `Tickets`), then look up the block of
    each index, move the elements out and mark them empty. Each step is one access to shared memory;
    purely local computation rides along. A single dequeue is a claim of one.

    History, which no step branches on: `seqs` (the block used for the q-th stretch of BLOCK_SIZE
    indices), `lo` (the first stretch whose block is still in use), `enq` (everything enqueued),
    `taken` and `done` (indices moved out and indices marked empty), and the fields `org`, `lo`, `pub`
    of a header and `seen` of a consumer. */
module ExplicitIndex {
  import opened Options
  import opened BlockArithmetic
  import opened Sequences
  import opened CallLog

  datatype Entry = Entry(base: int, block: nat)

  /** A BlockIndexHeader. Slot k of `entries` is for stretch q when k == Mod(q - org, size); the
      stretches [lo, pub) are in it. */
  datatype Header = Header(size: nat, front: int, entries: seq<Entry>, org: int, lo: nat, pub: nat)

  datatype Block = Block(cells: seq<Option<int>>, empty: seq<bool>, next: nat)

  /** The producer's next action within enqueue. */
  datatype ProducerPc =
    | Ready
    | Scan(i: nat)
    | Reuse
    | CheckRoom
    | NewIndex
    | Requisition
    | WriteBase
    | WriteBlock
    | StoreFront
    | Construct
    | Publish

  /** `used`, `size` and `front` are pr_blockIndexSlotsUsed, pr_blockIndexSize and pr_blockIndexFront. */
  datatype Producer = Producer(
    pc: ProducerPc, value: int, tailBlock: Option<nat>, used: nat, size: nat, front: nat)

  datatype ConsumerPc = Idle | LoadIndex | LoadFront | LoadBase | LoadBlock | Take | SetFlag

  /** A claim of [first, end): [start, stop) is the part in the current block, `cur` the next index to
      move out, and the indices of the current block from `mark` on have been marked empty. */
  datatype Consumer = Consumer(
    pc: ConsumerPc, first: nat, end: nat, start: nat, cur: nat, mark: nat, stop: nat,
    header: nat, front: nat, slot: nat, block: nat, got: seq<int>, seen: nat)

  datatype State = State(
    tail: nat, head: nat, headers: seq<Header>, blocks: seq<Block>, producer: Producer, consumers: seq<Consumer>,
    enq: seq<int>, seqs: seq<nat>, lo: nat, taken: set<nat>, done: set<nat>)

  /** `ok` resolves whether the size limit and the allocator let the producer go on. */
  datatype Event =
    | Enqueue(value: int)
    | Produce(ok: bool)
    | Claim(c: nat, count: nat)
    | Consume(c: nat)

  function FreshEntries(size: nat): seq<Entry> {
    seq(size, _ => Entry(0, 0))
  }

  function IdleConsumer(): Consumer {
    Consumer(Idle, 0, 0, 0, 0, 0, 0, 0, 0, 0, 0, [], 0)
  }

  /** The constructor allocates an index of twice `half` entries; `ok` says whether that succeeds. */
  function Init(consumers: nat, half: nat, ok: bool): State {
    State(0, 0,
      if ok then [Header(2 * half, -1, FreshEntries(2 * half), 0, 0, 0)] else [], [],
      Producer(Ready, 0, None, 0, if ok then 2 * half else half, 0),
      seq(consumers, _ => IdleConsumer()), [], [], 0, {}, {})
  }

  function Increment(i: nat, size: nat): nat {
    if i + 1 == size then 0 else i + 1
  }

  /** new_block_index: the used entries, oldest first, then uninitialised ones. */
  function CopiedEntries(entries: seq<Entry>, front: nat, used: nat): (r: seq<Entry>)
    requires |entries| > 0
    ensures |r| == 2 * |entries|
  {
    seq(2 * |entries|, j => if 0 <= j < used then entries[Mod(front - used + j, |entries|)] else Entry(0, 0))
  }

  // The producer.

  function Mine(s: State): nat {
    if |s.headers| > 0 then |s.headers| - 1 else 0
  }

  function WithProducer(s: State, pc: ProducerPc): State {
    s.(producer := s.producer.(pc := pc))
  }

  /** The block ahead in the ring. */
  function Ahead(s: State): nat {
    match s.producer.tailBlock
    case Some(b) => if b < |s.blocks| then s.blocks[b].next else 0
    case None => 0
  }

  function StartEnqueue(s: State, value: int): State {
    var s' := s.(producer := s.producer.(value := value));
    if Off(s.tail) != 0 then WithProducer(s', Construct)
    else if s.producer.tailBlock.Some? then WithProducer(s', Scan(0))
    else WithProducer(s', CheckRoom)
  }

  function ResetFlags(b: Block): Block {
    b.(empty := seq(BLOCK_SIZE, _ => false))
  }

  /** Move the tail onto the (empty) block ahead. */
  function ReuseBlock(s: State): State
    requires Ahead(s) < |s.blocks| && |s.headers| > 0
  {
    var b, h := Ahead(s), Mine(s);
    s.(producer := s.producer.(pc := WriteBase, tailBlock := Some(b)),
       blocks := s.blocks[b := ResetFlags(s.blocks[b])],
       headers := s.headers[h := s.headers[h].(lo := s.lo + 1)],
       seqs := s.seqs + [b], lo := s.lo + 1)
  }

  /** Double the index and publish it. */
  function DoubleIndex(s: State): State
    requires |s.headers| > 0 ==> |s.headers[Mine(s)].entries| > 0
  {
    var p := s.producer;
    var size := 2 * p.size;
    var entries := if |s.headers| == 0 then FreshEntries(size)
                   else CopiedEntries(s.headers[Mine(s)].entries, p.front, p.used);
    s.(producer := p.(pc := Requisition, size := size, front := p.used),
       headers := s.headers + [Header(size, p.used - 1, entries, s.lo, s.lo, |s.seqs|)])
  }

  /** Insert a new block behind the tail of the ring. Its flags have been reset. */
  function InsertBlock(s: State): State
    requires s.producer.tailBlock.Some? ==> s.producer.tailBlock.value < |s.blocks|
  {
    var b := |s.blocks|;
    var added := Block(seq(BLOCK_SIZE, _ => None), seq(BLOCK_SIZE, _ => false), if s.producer.tailBlock.Some? then Ahead(s) else b);
    var linked := match s.producer.tailBlock
      case Some(t) => s.blocks[t := s.blocks[t].(next := b)]
      case None => s.blocks;
    s.(producer := s.producer.(pc := WriteBase, tailBlock := Some(b), used := s.producer.used + 1),
       blocks := linked + [added], seqs := s.seqs + [b])
  }

  function WithHeader(s: State, hd: Header): State
    requires |s.headers| > 0
  {
    s.(headers := s.headers[Mine(s) := hd])
  }

  /** Whether the shared structures have the shape that the producer's next action reads or writes. */
  predicate ProducerCanStep(s: State) {
    var p := s.producer;
    match p.pc
    case Scan(i) => Ahead(s) < |s.blocks| && i < |s.blocks[Ahead(s)].empty|
    case Reuse => Ahead(s) < |s.blocks| && |s.headers| > 0
    case NewIndex => |s.headers| > 0 ==> |s.headers[Mine(s)].entries| > 0
    case Requisition => p.tailBlock.Some? ==> p.tailBlock.value < |s.blocks|
    case WriteBase => |s.headers| > 0 && p.front < |s.headers[Mine(s)].entries|
    case WriteBlock => |s.headers| > 0 && p.front < |s.headers[Mine(s)].entries| && p.tailBlock.Some?
    case StoreFront => |s.headers| > 0
    case Construct => p.tailBlock.Some? && p.tailBlock.value < |s.blocks| && Off(s.tail) < |s.blocks[p.tailBlock.value].cells|
    case _ => true
  }

  function StepProducer(s: State, ok: bool): State
    requires ProducerCanStep(s)
  {
    var p := s.producer;
    match p.pc
    case Ready => s
    case Scan(i) =>
      if !s.blocks[Ahead(s)].empty[i] then WithProducer(s, CheckRoom)
      else if i + 1 == BLOCK_SIZE then WithProducer(s, Reuse)
      else WithProducer(s, Scan(i + 1))
    case Reuse => ReuseBlock(s)
    case CheckRoom =>
      if !ok then WithProducer(s, Ready)
      else if |s.headers| == 0 || p.used == p.size then WithProducer(s, NewIndex)
      else WithProducer(s, Requisition)
    case NewIndex => if ok then DoubleIndex(s) else WithProducer(s, Ready)
    case Requisition => if ok then InsertBlock(s) else WithProducer(s, Ready)
    case WriteBase =>
      var hd := s.headers[Mine(s)];
      WithProducer(WithHeader(s, hd.(entries := hd.entries[p.front := hd.entries[p.front].(base := s.tail)])), WriteBlock)
    case WriteBlock =>
      var hd := s.headers[Mine(s)];
      WithProducer(
        WithHeader(s, hd.(entries := hd.entries[p.front := hd.entries[p.front].(block := p.tailBlock.value)])), StoreFront)
    case StoreFront =>
      var hd := s.headers[Mine(s)];
      WithHeader(s, hd.(front := p.front, pub := hd.pub + 1))
        .(producer := p.(pc := Construct, front := Increment(p.front, p.size)))
    case Construct =>
      var b := p.tailBlock.value;
      WithProducer(s, Publish)
        .(blocks := s.blocks[b := s.blocks[b].(cells := s.blocks[b].cells[Off(s.tail) := Some(p.value)])])
    case Publish => WithProducer(s, Ready).(tail := s.tail + 1, enq := s.enq + [p.value])
  }

  // The consumers.

  function WithConsumer(s: State, c: nat, k: Consumer): State
    requires c < |s.consumers|
  {
    s.(consumers := s.consumers[c := k])
  }

  function ClaimRange(s: State, c: nat, count: nat): State
    requires c < |s.consumers|
  {
    var k := s.consumers[c];
    if k.pc == Idle && count > 0 && s.head + count <= s.tail then
      WithConsumer(s, c,
        k.(pc := LoadIndex, first := s.head, end := s.head + count, start := s.head, cur := s.head,
           mark := s.head, stop := s.head, got := []))
      .(head := s.head + count)
    else s
  }

  /** Whether the structures have the shape that the consumer's next action reads or writes. */
  predicate ConsumerCanStep(s: State, c: nat)
    requires c < |s.consumers|
  {
    var k := s.consumers[c];
    match k.pc
    case LoadFront => k.header < |s.headers| && s.headers[k.header].front >= 0
    case LoadBase =>
      k.header < |s.headers| && s.headers[k.header].size > 0 && k.front < |s.headers[k.header].entries|
    case LoadBlock => k.header < |s.headers| && k.slot < |s.headers[k.header].entries|
    case Take => k.block < |s.blocks| && Off(k.cur) < |s.blocks[k.block].cells| && s.blocks[k.block].cells[Off(k.cur)].Some?
    case SetFlag => k.header < |s.headers| && k.block < |s.blocks| && k.mark > 0 && |s.blocks[k.block].empty| == BLOCK_SIZE
    case _ => true
  }

  function FlagSlot(i: nat): nat {
    BLOCK_SIZE - 1 - Off(i)
  }

  function Smaller(a: nat, b: nat): nat {
    if a < b then a else b
  }

  function StepConsumer(s: State, c: nat): State
    requires c < |s.consumers| && ConsumerCanStep(s, c)
  {
    var k := s.consumers[c];
    match k.pc
    case Idle => s
    case LoadIndex => WithConsumer(s, c, k.(pc := LoadFront, header := Mine(s)))
    case LoadFront =>
      var hd := s.headers[k.header];
      WithConsumer(s, c, k.(pc := LoadBase, front := hd.front, seen := if hd.pub > 0 then hd.pub - 1 else 0))
    case LoadBase =>
      var hd := s.headers[k.header];
      var offset := SignedQuotient(Base(Blk(k.first)) - hd.entries[k.front].base);
      WithConsumer(s, c, k.(pc := LoadBlock, slot := Mod(k.front + offset, hd.size)))
    case LoadBlock =>
      var stop := Smaller(k.end, Base(Blk(k.cur)) + BLOCK_SIZE);
      WithConsumer(s, c, k.(pc := Take, block := s.headers[k.header].entries[k.slot].block, stop := stop, mark := stop))
    case Take =>
      var b := s.blocks[k.block];
      WithConsumer(s, c,
        k.(pc := if k.cur + 1 == k.stop then SetFlag else Take, cur := k.cur + 1, got := k.got + [b.cells[Off(k.cur)].value]))
      .(blocks := s.blocks[k.block := b.(cells := b.cells[Off(k.cur) := None])], taken := s.taken + {k.cur})
    case SetFlag =>
      var b := s.blocks[k.block];
      var i := k.mark - 1;
      var k' := if i > k.start then k.(mark := i)
                else if k.stop == k.end then k.(pc := Idle)
                else k.(pc := LoadBlock, start := k.stop, mark := k.stop, slot := Increment(k.slot, s.headers[k.header].size));
      WithConsumer(s, c, k')
      .(blocks := s.blocks[k.block := b.(empty := b.empty[FlagSlot(i) := true])], done := s.done + {i})
  }

  function Step(s: State, e: Event): State {
    match e
    case Enqueue(value) => if s.producer.pc.Ready? then StartEnqueue(s, value) else s
    case Produce(ok) => if ProducerCanStep(s) then StepProducer(s, ok) else s
    case Claim(c, count) => if c < |s.consumers| then ClaimRange(s, c, count) else s
    case Consume(c) => if c < |s.consumers| && ConsumerCanStep(s, c) then StepConsumer(s, c) else s
  }

  function Execute(s: State, schedule: seq<Event>): State {
    if schedule == [] then s
    else Step(Execute(s, schedule[..|schedule| - 1]), schedule[|schedule| - 1])
  }

  // The invariant.

  function Slot(hd: Header, q: int): nat
    requires hd.size > 0
  {
    Mod(q - hd.org, hd.size)
  }

  /** A new stretch has been opened but is not yet in the index. */
  predicate Opening(pc: ProducerPc) {
    pc.WriteBase? || pc.WriteBlock? || pc.StoreFront?
  }

  /** The stretch that holds the tail has been opened. */
  predicate Opened(pc: ProducerPc) {
    Opening(pc) || pc.Construct? || pc.Publish?
  }

  ghost predicate BlocksOk(s: State) {
    && |s.enq| == s.tail && s.head <= s.tail
    && (forall b :: 0 <= b < |s.blocks| ==>
          |s.blocks[b].cells| == BLOCK_SIZE && |s.blocks[b].empty| == BLOCK_SIZE)
    && (forall q :: 0 <= q < |s.seqs| ==> s.seqs[q] < |s.blocks|)
    && (forall p, q :: s.lo <= p < q < |s.seqs| ==> s.seqs[p] != s.seqs[q])
  }

  /** The ring of blocks, from the oldest stretch still in use to the newest and round again. */
  ghost predicate RingOk(s: State) {
    && s.lo <= |s.seqs|
    && (|s.seqs| > 0 ==> s.lo < |s.seqs|)
    && s.producer.used == |s.seqs| - s.lo
    && s.producer.tailBlock == (if |s.seqs| == 0 then None else Some(s.seqs[|s.seqs| - 1]))
    && (forall q {:trigger RingLink(s, q)} :: s.lo <= q < |s.seqs| ==> RingLink(s, q))
  }

  ghost predicate RingLink(s: State, q: nat) {
    && s.lo <= q < |s.seqs| && s.seqs[q] < |s.blocks|
    && s.blocks[s.seqs[q]].next == RingNext(s, q)
  }

  function RingNext(s: State, q: nat): nat
    requires s.lo <= q < |s.seqs|
  {
    if q + 1 < |s.seqs| then s.seqs[q + 1] else s.seqs[s.lo]
  }

  ghost predicate TailOk(s: State) {
    var n, pc := |s.seqs|, s.producer.pc;
    if Opened(pc) then n > 0 && Base(n - 1) <= s.tail < Base(n) && (Opening(pc) ==> s.tail == Base(n - 1))
    else
      && (n > 0 ==> Base(n - 1) < s.tail <= Base(n))
      && (n == 0 ==> s.tail == 0)
      && (!pc.Ready? ==> s.tail == Base(n))
      && (pc.Scan? || pc.Reuse? ==> n > 0)
  }

  ghost predicate EntryOk(seqs: seq<nat>, hd: Header, q: nat) {
    && q < |seqs| && hd.size > 0 && Slot(hd, q) < |hd.entries|
    && hd.entries[Slot(hd, q)] == Entry(Base(q), seqs[q])
  }

  ghost predicate HeaderOk(seqs: seq<nat>, lo: nat, hd: Header) {
    && hd.size > 0 && |hd.entries| == hd.size && IsPowerOfTwo(hd.size)
    && hd.lo <= hd.pub <= |seqs| && hd.lo <= lo
    && (hd.pub > 0 ==> hd.front == Slot(hd, hd.pub - 1))
    && (forall q {:trigger EntryOk(seqs, hd, q)} :: hd.lo <= q < hd.pub ==> EntryOk(seqs, hd, q))
  }

  ghost predicate IndexOk(s: State) {
    var p := s.producer;
    && IsPowerOfTwo(p.size) && p.size > 0 && p.used <= p.size
    && (forall h :: 0 <= h < |s.headers| ==> HeaderOk(s.seqs, s.lo, s.headers[h]))
    && (|s.seqs| > 0 || p.pc.Requisition? ==> |s.headers| > 0)
    && (p.pc.Requisition? ==> p.used < p.size)
    && (p.pc.NewIndex? ==> |s.headers| == 0 || p.used == p.size)
    && (|s.headers| == 0 ==> p.front == 0)
    && (|s.headers| > 0 ==> CurrentOk(s, s.headers[Mine(s)]))
  }

  ghost predicate CurrentOk(s: State, hd: Header) {
    var p := s.producer;
    && hd.size == p.size > 0 && hd.lo == s.lo
    && hd.pub == |s.seqs| - (if Opening(p.pc) then 1 else 0)
    && p.front == Slot(hd, hd.pub)
    && (p.pc.WriteBlock? ==> p.front < |hd.entries| && hd.entries[p.front].base == s.tail)
    && (p.pc.StoreFront? ==> p.front < |hd.entries| && |s.seqs| > 0 && hd.entries[p.front] == Entry(s.tail, s.seqs[|s.seqs| - 1]))
  }

  /** What the producer has established while scanning the flags of the block ahead. */
  ghost predicate ScanOk(s: State) {
    match s.producer.pc
    case Scan(i) => i < BLOCK_SIZE && FlagsUpTo(s, i)
    case Reuse => FlagsUpTo(s, BLOCK_SIZE)
    case _ => true
  }

  ghost predicate FlagsUpTo(s: State, i: nat) {
    && s.lo < |s.seqs| && s.seqs[s.lo] < |s.blocks| && i <= |s.blocks[s.seqs[s.lo]].empty|
    && forall j :: 0 <= j < i ==> s.blocks[s.seqs[s.lo]].empty[j]
  }

  /** What the cell of index i holds: the element from its construction until it is moved out. */
  function Content(s: State, i: nat): Option<int> {
    if i < s.tail then
      if i in s.taken || i >= |s.enq| then None else Some(s.enq[i])
    else if s.producer.pc.Publish? && i == s.tail then Some(s.producer.value)
    else None
  }

  /** Offset o of stretch q: its cell and its flag. */
  ghost predicate CellOk(s: State, q: nat, o: nat) {
    && q < |s.seqs| && s.seqs[q] < |s.blocks| && o < BLOCK_SIZE
    && o < |s.blocks[s.seqs[q]].cells| && BLOCK_SIZE - 1 - o < |s.blocks[s.seqs[q]].empty|
    && s.blocks[s.seqs[q]].cells[o] == Content(s, Base(q) + o)
    && (s.blocks[s.seqs[q]].empty[BLOCK_SIZE - 1 - o] <==> Base(q) + o in s.done)
  }

  ghost predicate CellsOk(s: State) {
    forall q, o {:trigger CellOk(s, q, o)} :: s.lo <= q < |s.seqs| && 0 <= o < BLOCK_SIZE ==> CellOk(s, q, o)
  }

  ghost predicate DoneOk(s: State) {
    && s.done <= s.taken
    && (forall i :: i in s.taken ==> i < s.head)
    && (forall i :: 0 <= i < Base(s.lo) ==> i in s.done)
  }

  /** Indices of the claim not yet marked empty. */
  predicate Unmarked(k: Consumer, i: nat) {
    k.start <= i < k.mark || k.stop <= i < k.end
  }

  ghost predicate ClaimOk(head: nat, enq: seq<int>, taken: set<nat>, done: set<nat>, k: Consumer) {
    && k.first <= k.start < k.end <= head
    && k.start <= k.cur <= k.end && k.start <= k.mark <= k.stop <= k.end
    && (k.start < k.mark || k.stop == k.start)
    && (forall i :: Unmarked(k, i) ==> i !in done)
    && (forall i :: k.cur <= i < k.end ==> i !in taken)
    && (forall i :: k.first <= i < k.cur ==> i in taken)
    && k.cur <= |enq| && k.got == enq[k.first..k.cur]
  }

  /** How far the lookup has got, relative to the header the consumer is looking at. */
  ghost predicate LookupOk(seqs: seq<nat>, headers: seq<Header>, k: Consumer)
    requires k.end > 0
  {
    && (k.pc in {LoadIndex, LoadFront, LoadBase, LoadBlock} ==> k.cur == k.start == k.mark == k.stop)
    && (k.pc in {LoadIndex, LoadFront, LoadBase} ==> k.start == k.first)
    && (k.pc != LoadIndex ==>
          && k.header < |headers| && headers[k.header].size > 0 && Blk(k.end - 1) < headers[k.header].pub
          && (k.pc != LoadFront ==>
                Blk(k.end - 1) <= k.seen < headers[k.header].pub && k.front == Slot(headers[k.header], k.seen))
          && (k.pc in {LoadBlock, Take, SetFlag} ==> k.slot == Slot(headers[k.header], Blk(k.start))))
    && (k.pc in {Take, SetFlag} ==>
          && Blk(k.start) < |seqs| && k.block == seqs[Blk(k.start)]
          && k.stop == Smaller(k.end, Base(Blk(k.start) + 1)) && k.start < k.stop)
    && (k.pc == Take ==> k.cur < k.stop && k.mark == k.stop)
    && (k.pc == SetFlag ==> k.cur == k.stop && k.start < k.mark)
  }

  ghost predicate ConsumerOk(s: State, k: Consumer) {
    if k.pc == Idle then Delivered(s.enq, k)
    else k.end > 0 && ClaimOk(s.head, s.enq, s.taken, s.done, k) && LookupOk(s.seqs, s.headers, k)
  }

  /** What a consumer has got from its last claim: the elements enqueued at the indices it claimed. */
  ghost predicate Delivered(enq: seq<int>, k: Consumer) {
    k.first <= k.end <= |enq| && k.got == enq[k.first..k.end]
  }

  ghost predicate Disjoint(s: State) {
    forall c, d :: 0 <= c < d < |s.consumers| && s.consumers[c].pc != Idle && s.consumers[d].pc != Idle ==>
      s.consumers[c].end <= s.consumers[d].first || s.consumers[d].end <= s.consumers[c].first
  }

  ghost predicate ConsumersOk(s: State) {
    forall c :: 0 <= c < |s.consumers| ==> ConsumerOk(s, s.consumers[c])
  }

  ghost predicate Inv(s: State) {
    && BlocksOk(s) && RingOk(s) && TailOk(s) && IndexOk(s) && ScanOk(s) && CellsOk(s) && DoneOk(s)
    && ConsumersOk(s) && Disjoint(s)
  }

  // Facts about single states.

  /** No unfinished index lies in a block that has been given up, and every claimed index lies in a stretch
      that is in the current index. */
  lemma StretchesInUse(s: State, k: Consumer)
    requires BlocksOk(s) && TailOk(s) && DoneOk(s)
    requires k.pc != Idle && k.end > 0 && ClaimOk(s.head, s.enq, s.taken, s.done, k)
    ensures s.lo <= Blk(k.start) <= Blk(k.end - 1) < |s.seqs|
    ensures Opening(s.producer.pc) ==> Blk(k.end - 1) + 1 < |s.seqs|
  {
    var last := k.end - 1;
    var n := |s.seqs|;
    assert Unmarked(k, k.start);
    BelowBase(k.start, s.lo);
    BelowBase(last, n);
    if n > 0 {
      BelowBase(last, n - 1);
    }
    Split(last);
    BelowBase(k.start, Blk(last) + 1);
  }

  /** Distinct stretches in use live in distinct blocks. */
  lemma SameBlockSameStretch(s: State, p: nat, q: nat)
    requires BlocksOk(s) && s.lo <= p < |s.seqs| && s.lo <= q < |s.seqs| && s.seqs[p] == s.seqs[q]
    ensures p == q
  {
  }

  lemma AheadIsOldest(s: State)
    requires BlocksOk(s) && RingOk(s) && |s.seqs| > 0
    ensures Ahead(s) == s.seqs[s.lo] < |s.blocks|
  {
    var n := |s.seqs|;
    assert RingLink(s, n - 1);
  }

  // What one consumer keeps while others move.

  /** The shared structures only grow between s and s' as far as a lookup can tell. */
  ghost predicate Evolves(s: State, s': State) {
    && s.enq <= s'.enq && s.seqs <= s'.seqs && s.head <= s'.head && s.taken <= s'.taken
    && |s.headers| <= |s'.headers|
    && (forall h :: 0 <= h < |s.headers| ==>
          s'.headers[h].size == s.headers[h].size && s'.headers[h].org == s.headers[h].org && s.headers[h].pub <= s'.headers[h].pub)
  }

  lemma ConsumerKept(s: State, s': State, k: Consumer)
    requires ConsumerOk(s, k) && Evolves(s, s')
    requires forall i :: k.pc != Idle && k.cur <= i < k.end && i in s'.taken ==> i in s.taken
    requires forall i :: k.pc != Idle && Unmarked(k, i) && i in s'.done ==> i in s.done
    ensures ConsumerOk(s', k)
  {
    SameSlices(s.enq, s'.enq);
    if k.pc != Idle {
      if k.pc != LoadIndex {
        assert s'.headers[k.header].size == s.headers[k.header].size;
      }
    }
  }

  lemma ConsumersKept(s: State, s': State)
    requires ConsumersOk(s)
    requires Evolves(s, s') && s'.consumers == s.consumers && s'.taken == s.taken && s'.done == s.done
    ensures ConsumersOk(s')
  {
    forall c | 0 <= c < |s'.consumers| ensures ConsumerOk(s', s'.consumers[c]) {
      ConsumerKept(s, s', s.consumers[c]);
    }
  }

  /** Only what producers and consumers keep to themselves differs: cells and flags are as before. */
  lemma CellsKept(s: State, s': State)
    requires CellsOk(s) && s'.lo == s.lo && s'.seqs == s.seqs && s'.blocks == s.blocks
    requires s'.done == s.done && s'.taken == s.taken && s'.tail == s.tail && s'.enq == s.enq
    requires s'.producer.pc.Publish? == s.producer.pc.Publish?
    requires s.producer.pc.Publish? ==> s'.producer.value == s.producer.value
    ensures CellsOk(s')
  {
    forall q, o | s'.lo <= q < |s'.seqs| && 0 <= o < BLOCK_SIZE ensures CellOk(s', q, o) {
      assert CellOk(s, q, o);
    }
  }

  /** Blocks differ at most in their cells and flags. */
  ghost predicate SameLinks(blocks: seq<Block>, blocks': seq<Block>) {
    && |blocks'| == |blocks|
    && forall b :: 0 <= b < |blocks| ==>
         && blocks'[b].next == blocks[b].next
         && |blocks'[b].cells| == |blocks[b].cells| && |blocks'[b].empty| == |blocks[b].empty|
  }

  lemma LinksKept(s: State, s': State)
    requires RingOk(s) && SameLinks(s.blocks, s'.blocks)
    requires s'.seqs == s.seqs && s'.lo == s.lo
    requires s'.producer.used == s.producer.used && s'.producer.tailBlock == s.producer.tailBlock
    ensures RingOk(s')
  {
    forall q | s'.lo <= q < |s'.seqs| ensures RingLink(s', q) {
      assert RingLink(s, q);
    }
  }

  // Consumers' steps.

  /** What remains to be shown of a step of consumer c. */
  lemma ConsumerDone(s: State, s': State, c: nat)
    requires Inv(s) && c < |s.consumers| == |s'.consumers|
    requires s' == s.(consumers := s'.consumers, blocks := s'.blocks, taken := s'.taken, done := s'.done)
    requires s'.consumers == s.consumers[c := s'.consumers[c]]
    requires s.consumers[c].pc != Idle
    requires s'.consumers[c].first == s.consumers[c].first && s'.consumers[c].end == s.consumers[c].end
    requires SameLinks(s.blocks, s'.blocks)
    requires CellsOk(s') && DoneOk(s') && ScanOk(s') && ConsumerOk(s', s'.consumers[c]) && s.taken <= s'.taken
    requires forall i :: i in s'.taken && i !in s.taken ==> s.consumers[c].first <= i < s.consumers[c].end
    requires forall i :: i in s'.done && i !in s.done ==> s.consumers[c].first <= i < s.consumers[c].end
    ensures Inv(s')
  {
    LinksKept(s, s');
    assert BlocksOk(s') && TailOk(s') && IndexOk(s');
    hide CellsOk, ScanOk, DoneOk, IndexOk, RingOk, BlocksOk, TailOk, SameLinks, ConsumerOk;
    OthersKept(s, s', c);
  }

  lemma OthersKept(s: State, s': State, c: nat)
    requires ConsumersOk(s) && Disjoint(s) && c < |s.consumers| == |s'.consumers| && Evolves(s, s')
    requires s'.consumers == s.consumers[c := s'.consumers[c]] && s.consumers[c].pc != Idle
    requires ConsumerOk(s', s'.consumers[c])
    requires forall i :: i in s'.taken && i !in s.taken ==> s.consumers[c].first <= i < s.consumers[c].end
    requires forall i :: i in s'.done && i !in s.done ==> s.consumers[c].first <= i < s.consumers[c].end
    ensures ConsumersOk(s')
  {
    hide LookupOk, Evolves;
    forall d | 0 <= d < |s'.consumers| ensures ConsumerOk(s', s'.consumers[d]) {
      if d != c {
        assert ConsumerOk(s, s.consumers[c]) && ConsumerOk(s, s.consumers[d]);
        ConsumerKept(s, s', s.consumers[d]);
      }
    }
  }

  lemma ClaimKeeps(s: State, c: nat, count: nat)
    requires Inv(s) && c < |s.consumers|
    ensures Inv(ClaimRange(s, c, count))
  {
    hide RingOk, CellsOk;
    var s' := ClaimRange(s, c, count);
    if s' != s {
      forall d | 0 <= d < |s'.consumers| ensures ConsumerOk(s', s'.consumers[d]) {
        if d != c {
          ConsumerKept(s, s', s.consumers[d]);
        }
      }
      forall d | 0 <= d < |s.consumers| && s.consumers[d].pc != Idle ensures s.consumers[d].end <= s.head {
        assert ConsumerOk(s, s.consumers[d]);
      }
      CellsKept(s, s');
      LinksKept(s, s');
    }
  }

  /** Only consumer c changes. */
  lemma LookupKeeps(s: State, c: nat, k: Consumer)
    requires Inv(s) && c < |s.consumers|
    requires s.consumers[c].pc != Idle && k.first == s.consumers[c].first && k.end == s.consumers[c].end
    requires ConsumerOk(s, k)
    ensures Inv(WithConsumer(s, c, k))
  {
    var s' := WithConsumer(s, c, k);
    CellsKept(s, s');
    ConsumerKept(s, s', k);
    ConsumerDone(s, s', c);
  }

  lemma LoadIndexKeeps(s: State, c: nat)
    requires Inv(s) && c < |s.consumers| && s.consumers[c].pc == LoadIndex
    ensures Inv(StepConsumer(s, c))
  {
    var k := s.consumers[c];
    assert ConsumerOk(s, k);
    StretchesInUse(s, k);
    LookupKeeps(s, c, k.(pc := LoadFront, header := Mine(s)));
  }

  lemma AfterFront(s: State, c: nat)
    requires IndexOk(s)
    requires c < |s.consumers| && s.consumers[c].pc == LoadFront && ConsumerOk(s, s.consumers[c])
    ensures ConsumerCanStep(s, c)
    ensures StepConsumer(s, c) == WithConsumer(s, c, StepConsumer(s, c).consumers[c])
    ensures ConsumerOk(s, StepConsumer(s, c).consumers[c])
  {
    hide ClaimOk, EntryOk, CurrentOk, IsPowerOfTwo;
    var k := s.consumers[c];
    assert HeaderOk(s.seqs, s.lo, s.headers[k.header]);
    ClaimElsewhere(s.head, s.enq, s.taken, s.done, k, StepConsumer(s, c).consumers[c]);
  }

  lemma LoadFrontKeeps(s: State, c: nat)
    requires Inv(s) && c < |s.consumers| && s.consumers[c].pc == LoadFront
    ensures ConsumerCanStep(s, c) && Inv(StepConsumer(s, c))
  {
    assert ConsumerOk(s, s.consumers[c]);
    AfterFront(s, c);
    hide BlocksOk, RingOk, TailOk, IndexOk, ScanOk, CellsOk, DoneOk, ConsumersOk, Disjoint, ConsumerOk;
    LookupKeeps(s, c, StepConsumer(s, c).consumers[c]);
  }

  /** Where the consumer looks does not concern its claim. */
  lemma ClaimElsewhere(head: nat, enq: seq<int>, taken: set<nat>, done: set<nat>, k: Consumer, k': Consumer)
    requires ClaimOk(head, enq, taken, done, k)
    requires k' == k.(pc := k'.pc, header := k'.header, front := k'.front, slot := k'.slot, block := k'.block, seen := k'.seen)
    ensures ClaimOk(head, enq, taken, done, k')
  {
    assert forall i {:trigger Unmarked(k', i)} :: Unmarked(k', i) ==> Unmarked(k, i);
  }

  /** The slot that the consumer computes from the base it reads at the front it has observed. */
  lemma ComputedSlot(seqs: seq<nat>, lo: nat, hd: Header, front: nat, seen: nat, q: nat)
    requires HeaderOk(seqs, lo, hd) && hd.lo <= seen < hd.pub && front == Slot(hd, seen)
    ensures Mod(front + SignedQuotient(Base(q) - hd.entries[front].base), hd.size) == Slot(hd, q)
  {
    assert EntryOk(seqs, hd, seen);
    QuotientOfBases(seen, q);
    ModAdd(seen - hd.org, q - seen, hd.size);
  }

  lemma AfterBase(s: State, c: nat)
    requires BlocksOk(s) && TailOk(s) && DoneOk(s) && IndexOk(s)
    requires c < |s.consumers| && s.consumers[c].pc == LoadBase && ConsumerOk(s, s.consumers[c])
    ensures ConsumerCanStep(s, c)
    ensures StepConsumer(s, c) == WithConsumer(s, c, StepConsumer(s, c).consumers[c])
    ensures ConsumerOk(s, StepConsumer(s, c).consumers[c])
  {
    var k := s.consumers[c];
    StretchesInUse(s, k);
    hide ClaimOk, EntryOk, CurrentOk, IsPowerOfTwo, BlocksOk, TailOk, DoneOk;
    var hd := s.headers[k.header];
    assert HeaderOk(s.seqs, s.lo, hd);
    ComputedSlot(s.seqs, s.lo, hd, k.front, k.seen, Blk(k.first));
    ClaimElsewhere(s.head, s.enq, s.taken, s.done, k, StepConsumer(s, c).consumers[c]);
  }

  lemma LoadBaseKeeps(s: State, c: nat)
    requires Inv(s) && c < |s.consumers| && s.consumers[c].pc == LoadBase
    ensures ConsumerCanStep(s, c) && Inv(StepConsumer(s, c))
  {
    assert ConsumerOk(s, s.consumers[c]);
    AfterBase(s, c);
    LookupKeeps(s, c, StepConsumer(s, c).consumers[c]);
  }

  lemma LookedUp(s: State, k: Consumer)
    requires BlocksOk(s) && TailOk(s) && DoneOk(s) && IndexOk(s) && ConsumerOk(s, k) && k.pc == LoadBlock
    ensures k.header < |s.headers| && k.slot < |s.headers[k.header].entries| && Blk(k.start) < |s.seqs|
    ensures s.headers[k.header].entries[k.slot].block == s.seqs[Blk(k.start)]
  {
    StretchesInUse(s, k);
    var hd := s.headers[k.header];
    assert HeaderOk(s.seqs, s.lo, hd);
    assert EntryOk(s.seqs, hd, Blk(k.start));
  }

  lemma AfterLookup(s: State, c: nat)
    requires BlocksOk(s) && TailOk(s) && DoneOk(s) && IndexOk(s)
    requires c < |s.consumers| && s.consumers[c].pc == LoadBlock && ConsumerOk(s, s.consumers[c])
    ensures ConsumerCanStep(s, c)
    ensures StepConsumer(s, c) == WithConsumer(s, c, StepConsumer(s, c).consumers[c])
    ensures ConsumerOk(s, StepConsumer(s, c).consumers[c])
  {
    var k := s.consumers[c];
    LookedUp(s, k);
    StretchesInUse(s, k);
    hide BlocksOk, TailOk, DoneOk, IndexOk;
    Split(k.start);
    var k' := StepConsumer(s, c).consumers[c];
    ClaimAfterLookup(s.head, s.enq, s.taken, s.done, k, k');
    LookupCompletes(s.seqs, s.headers, k, k');
    hide ClaimOk, LookupOk;
  }

  lemma LookupCompletes(seqs: seq<nat>, headers: seq<Header>, k: Consumer, k': Consumer)
    requires k.end > 0 && LookupOk(seqs, headers, k) && k.pc == LoadBlock
    requires Blk(k.start) < |seqs| && k.start < Smaller(k.end, Base(Blk(k.start) + 1))
    requires k' == k.(pc := Take, block := seqs[Blk(k.start)], stop := Smaller(k.end, Base(Blk(k.start) + 1)),
                      mark := Smaller(k.end, Base(Blk(k.start) + 1)))
    ensures LookupOk(seqs, headers, k')
  {
    hide Slot;
  }

  lemma ClaimAfterLookup(head: nat, enq: seq<int>, taken: set<nat>, done: set<nat>, k: Consumer, k': Consumer)
    requires ClaimOk(head, enq, taken, done, k) && k.cur == k.start == k.mark == k.stop < k'.stop <= k.end
    requires k' == k.(pc := k'.pc, block := k'.block, stop := k'.stop, mark := k'.stop)
    ensures ClaimOk(head, enq, taken, done, k')
  {
    forall i | Unmarked(k', i) ensures i !in done {
      assert Unmarked(k, i);
    }
  }

  lemma LoadBlockKeeps(s: State, c: nat)
    requires Inv(s) && c < |s.consumers| && s.consumers[c].pc == LoadBlock
    ensures ConsumerCanStep(s, c) && Inv(StepConsumer(s, c))
  {
    assert ConsumerOk(s, s.consumers[c]);
    AfterLookup(s, c);
    LookupKeeps(s, c, StepConsumer(s, c).consumers[c]);
  }

  /** The indices of the consumer's current stretch are in the block that it has looked up. */
  lemma InLookedUpBlock(s: State, k: Consumer, i: nat)
    requires BlocksOk(s) && TailOk(s) && DoneOk(s) && CellsOk(s) && ConsumerOk(s, k)
    requires k.pc in {Take, SetFlag} && k.start <= i < k.stop
    ensures s.lo <= Blk(i) == Blk(k.start) < |s.seqs|
    ensures s.seqs[Blk(i)] == k.block < |s.blocks|
    ensures i < s.head && CellOk(s, Blk(i), Off(i)) && Base(Blk(i)) + Off(i) == i
  {
    StretchesInUse(s, k);
    hide BlocksOk, TailOk, DoneOk;
    SameStretch(k.start, i, k.stop);
    assert CellOk(s, Blk(i), Off(i));
  }

  lemma SameStretch(start: nat, i: nat, stop: nat)
    requires start <= i < stop <= Base(Blk(start) + 1)
    ensures Blk(i) == Blk(start) && Base(Blk(i)) + Off(i) == i
  {
    Split(start);
    Split(i);
    BelowBase(i, Blk(start));
    BelowBase(i, Blk(start) + 1);
  }

  /** Changing one cell and one flag of the block of stretch p leaves all other places as they were. */
  lemma OtherCellsKept(s: State, s': State, p: nat, at: nat)
    requires BlocksOk(s) && CellsOk(s) && s.lo <= p < |s.seqs| && at < BLOCK_SIZE
    requires s'.lo == s.lo && s'.seqs == s.seqs && |s'.blocks| == |s.blocks|
    requires s'.tail == s.tail && s'.enq == s.enq && s'.producer == s.producer
    requires forall b :: 0 <= b < |s.blocks| && b != s.seqs[p] ==> s'.blocks[b] == s.blocks[b]
    requires |s'.blocks[s.seqs[p]].cells| == |s'.blocks[s.seqs[p]].empty| == BLOCK_SIZE
    requires forall o :: 0 <= o < BLOCK_SIZE && o != at ==> s'.blocks[s.seqs[p]].cells[o] == s.blocks[s.seqs[p]].cells[o]
    requires forall o :: 0 <= o < BLOCK_SIZE && o != BLOCK_SIZE - 1 - at ==>
               s'.blocks[s.seqs[p]].empty[o] == s.blocks[s.seqs[p]].empty[o]
    requires forall i :: i != Base(p) + at ==> (i in s'.taken <==> i in s.taken) && (i in s'.done <==> i in s.done)
    requires CellOk(s', p, at)
    ensures CellsOk(s')
  {
    forall q, o | s'.lo <= q < |s'.seqs| && 0 <= o < BLOCK_SIZE ensures CellOk(s', q, o) {
      assert CellOk(s, q, o);
      Located(q, o);
      Located(p, at);
      if s.seqs[q] == s.seqs[p] {
        SameBlockSameStretch(s, q, p);
      }
    }
  }

  lemma AfterTake(s: State, c: nat)
    requires BlocksOk(s) && TailOk(s) && DoneOk(s) && CellsOk(s)
    requires c < |s.consumers| && s.consumers[c].pc == Take && ConsumerOk(s, s.consumers[c])
    ensures ConsumerCanStep(s, c)
    ensures s.consumers[c].cur < |s.enq|
    ensures s.blocks[s.consumers[c].block].cells[Off(s.consumers[c].cur)] == Some(s.enq[s.consumers[c].cur])
    ensures var s' := StepConsumer(s, c); CellsOk(s') && DoneOk(s')
  {
    var k := s.consumers[c];
    InLookedUpBlock(s, k, k.cur);
    OtherCellsKept(s, StepConsumer(s, c), Blk(k.cur), Off(k.cur));
  }

  lemma ClaimAfterTake(head: nat, enq: seq<int>, taken: set<nat>, done: set<nat>, k: Consumer, k': Consumer)
    requires ClaimOk(head, enq, taken, done, k) && k.cur < k.stop == k.mark && k.cur < |enq|
    requires k' == k.(pc := k'.pc, cur := k.cur + 1, got := k.got + [enq[k.cur]])
    ensures ClaimOk(head, enq, taken + {k.cur}, done, k')
  {
    assert enq[k.first..k.cur + 1] == enq[k.first..k.cur] + [enq[k.cur]];
    forall i | Unmarked(k', i) ensures i !in done {
      assert Unmarked(k, i);
    }
  }

  lemma TakeKeeps(s: State, c: nat)
    requires Inv(s) && c < |s.consumers| && s.consumers[c].pc == Take
    ensures ConsumerCanStep(s, c) && Inv(StepConsumer(s, c))
  {
    assert ConsumerOk(s, s.consumers[c]);
    AfterTake(s, c);
    Taken(s, c);
    hide StepConsumer, BlocksOk, RingOk, TailOk, IndexOk, ScanOk, CellsOk, DoneOk, ConsumersOk, Disjoint, ConsumerOk;
    ConsumerDone(s, StepConsumer(s, c), c);
  }

  lemma Taken(s: State, c: nat)
    requires BlocksOk(s) && ScanOk(s)
    requires c < |s.consumers| && s.consumers[c].pc == Take && ConsumerOk(s, s.consumers[c]) && ConsumerCanStep(s, c)
    requires s.consumers[c].cur < |s.enq|
    requires s.blocks[s.consumers[c].block].cells[Off(s.consumers[c].cur)] == Some(s.enq[s.consumers[c].cur])
    ensures var s' := StepConsumer(s, c); var k, k' := s.consumers[c], s'.consumers[c];
      && s' == s.(consumers := s.consumers[c := k'], blocks := s'.blocks, taken := s.taken + {k.cur})
      && SameLinks(s.blocks, s'.blocks) && ScanOk(s')
      && k.first <= k.cur < k.end && k'.first == k.first && k'.end == k.end && ConsumerOk(s', k')
  {
    var s' := StepConsumer(s, c);
    var k, k' := s.consumers[c], s'.consumers[c];
    ScanKept(s, s');
    hide BlocksOk, ScanOk;
    ClaimAfterTake(s.head, s.enq, s.taken, s.done, k, k');
    assert k.first <= k.cur < k.end;
    hide ClaimOk;
  }

  lemma ScanKept(s: State, s': State)
    requires ScanOk(s) && BlocksOk(s) && s'.lo == s.lo && s'.seqs == s.seqs && s'.producer == s.producer
    requires SameLinks(s.blocks, s'.blocks)
    requires forall b, o :: 0 <= b < |s.blocks| && 0 <= o < |s.blocks[b].empty| && s.blocks[b].empty[o] ==> s'.blocks[b].empty[o]
    ensures ScanOk(s')
  {
  }

  lemma FlagCells(s: State, c: nat)
    requires BlocksOk(s) && TailOk(s) && DoneOk(s) && CellsOk(s)
    requires c < |s.consumers| && s.consumers[c].pc == SetFlag && ConsumerOk(s, s.consumers[c])
    requires s.consumers[c].header < |s.headers|
    ensures ConsumerCanStep(s, c)
    ensures !s.blocks[s.consumers[c].block].empty[FlagSlot(s.consumers[c].mark - 1)]
    ensures var s' := StepConsumer(s, c); CellsOk(s') && DoneOk(s')
  {
    var k := s.consumers[c];
    var m := k.mark - 1;
    InLookedUpBlock(s, k, m);
    assert Unmarked(k, m) && m in s.taken;
    hide TailOk, ClaimOk, LookupOk;
    OtherCellsKept(s, StepConsumer(s, c), Blk(m), Off(m));
  }

  lemma SetFlagKeeps(s: State, c: nat)
    requires Inv(s) && c < |s.consumers| && s.consumers[c].pc == SetFlag
    ensures ConsumerCanStep(s, c) && Inv(StepConsumer(s, c))
  {
    assert ConsumerOk(s, s.consumers[c]);
    FlagCells(s, c);
    AfterFlag(s, c);
    var s' := StepConsumer(s, c);
    ScanKept(s, s');
    hide BlocksOk, RingOk, TailOk, IndexOk, ScanOk, CellsOk, DoneOk, ConsumersOk, Disjoint;
    ConsumerDone(s, s', c);
  }

  lemma ClaimAfterFlag(head: nat, enq: seq<int>, taken: set<nat>, done: set<nat>, k: Consumer, k': Consumer)
    requires ClaimOk(head, enq, taken, done, k) && k.cur == k.stop && k.start < k.mark
    requires if k.mark - 1 > k.start then k' == k.(mark := k.mark - 1)
             else k.stop < k.end && k' == k.(pc := k'.pc, start := k.stop, mark := k.stop, slot := k'.slot)
    ensures ClaimOk(head, enq, taken, done + {(k.mark - 1) as nat}, k')
  {
    forall i | Unmarked(k', i) ensures i !in done && i != k.mark - 1 {
      assert Unmarked(k, i);
    }
  }

  /** The next stretch of a claim is in the next slot. */
  lemma AfterFlag(s: State, c: nat)
    requires BlocksOk(s) && TailOk(s) && DoneOk(s) && IndexOk(s)
    requires c < |s.consumers| && s.consumers[c].pc == SetFlag && ConsumerOk(s, s.consumers[c]) && ConsumerCanStep(s, c)
    ensures var s' := StepConsumer(s, c); ConsumerOk(s', s'.consumers[c])
  {
    hide BlocksOk, TailOk, DoneOk, IndexOk;
    var k := s.consumers[c];
    var k' := StepConsumer(s, c).consumers[c];
    if k'.pc != Idle {
      ClaimAfterFlag(s.head, s.enq, s.taken, s.done, k, k');
    }
    if k'.pc == LoadBlock {
      NextStretch(k.start, k.stop);
      var hd := s.headers[k.header];
      ModNext(Blk(k.start) - hd.org, hd.size);
    }
  }

  lemma NextStretch(start: nat, stop: nat)
    requires stop == Base(Blk(start) + 1)
    ensures Blk(stop) == Blk(start) + 1
  {
    Located(Blk(start) + 1, 0);
  }

  // The producer's steps.

  /** What remains to be shown of a step of the producer. */
  lemma ProducerDone(s: State, s': State)
    requires Inv(s)
    requires s' == s.(tail := s'.tail, headers := s'.headers, blocks := s'.blocks, producer := s'.producer,
                      enq := s'.enq, seqs := s'.seqs, lo := s'.lo)
    requires Evolves(s, s')
    requires BlocksOk(s') && RingOk(s') && TailOk(s') && IndexOk(s') && ScanOk(s') && CellsOk(s') && DoneOk(s')
    ensures Inv(s')
  {
    ConsumersKept(s, s');
  }

  /** The producer moves on without touching anything shared. */
  lemma ProducerMoves(s: State, p: Producer)
    requires Inv(s)
    requires p == s.producer.(pc := p.pc, value := p.value)
    requires Opened(p.pc) == Opened(s.producer.pc) && Opening(p.pc) == Opening(s.producer.pc) == false
    requires !p.pc.Publish? && !s.producer.pc.Publish?
    requires TailOk(s.(producer := p)) && ScanOk(s.(producer := p))
    requires p.pc.Requisition? ==> |s.headers| > 0 && p.used < p.size
    requires p.pc.NewIndex? ==> |s.headers| == 0 || p.used == p.size
    ensures Inv(s.(producer := p))
  {
    var s' := s.(producer := p);
    CellsKept(s, s');
    LinksKept(s, s');
    hide CellsOk, RingOk, ConsumersOk, Disjoint, TailOk, ScanOk;
    ProducerDone(s, s');
  }

  lemma StartKeeps(s: State, value: int)
    requires Inv(s) && s.producer.pc.Ready?
    ensures Inv(StartEnqueue(s, value))
  {
    var n := |s.seqs|;
    NextInBlock(s.tail);
    Split(s.tail);
    if n > 0 {
      BelowBase(s.tail, n);
      BelowBase(s.tail, n - 1);
    }
    var s' := StartEnqueue(s, value);
    if s'.producer.pc.Construct? {
      StartInBlock(s, s');
    } else {
      ProducerMoves(s, s'.producer);
    }
  }

  /** The tail is inside a block: no new stretch is needed. */
  lemma StartInBlock(s: State, s': State)
    requires Inv(s) && s.producer.pc.Ready? && Off(s.tail) != 0
    requires s' == s.(producer := s.producer.(pc := Construct, value := s'.producer.value))
    ensures Inv(s')
  {
    InsideBlock(s, s');
    CellsKept(s, s');
    LinksKept(s, s');
    hide TailOk, CellsOk, RingOk, ConsumersOk, Disjoint;
    ProducerDone(s, s');
  }

  lemma InsideBlock(s: State, s': State)
    requires TailOk(s) && s.producer.pc.Ready? && Off(s.tail) != 0
    requires s'.tail == s.tail && s'.seqs == s.seqs && s'.producer.pc.Construct?
    ensures TailOk(s')
  {
    var n := |s.seqs|;
    NextInBlock(s.tail);
    Split(s.tail);
    if n > 0 {
      BelowBase(s.tail, n);
      BelowBase(s.tail, n - 1);
    }
    Located(n, 0);
  }

  lemma ScanKeeps(s: State, ok: bool)
    requires Inv(s) && s.producer.pc.Scan?
    ensures ProducerCanStep(s) && Inv(StepProducer(s, ok))
  {
    AheadIsOldest(s);
    hide BlocksOk, RingOk, CellsOk, DoneOk, ConsumersOk, Disjoint, IndexOk;
    ProducerMoves(s, StepProducer(s, ok).producer);
  }

  lemma CheckRoomKeeps(s: State, ok: bool)
    requires Inv(s) && s.producer.pc.CheckRoom?
    ensures ProducerCanStep(s) && Inv(StepProducer(s, ok))
  {
    ProducerMoves(s, StepProducer(s, ok).producer);
  }

  // Reusing the block ahead.

  /** A full scan means that every index of the oldest stretch is done and its cells are bare. */
  lemma OldestIsFinished(s: State, o: nat)
    requires BlocksOk(s) && CellsOk(s) && DoneOk(s) && ScanOk(s) && s.producer.pc.Reuse? && o < BLOCK_SIZE
    ensures s.lo < |s.seqs| && s.seqs[s.lo] < |s.blocks|
    ensures Base(s.lo) + o in s.done
    ensures s.blocks[s.seqs[s.lo]].cells[o] == None
  {
    assert CellOk(s, s.lo, o);
    assert s.blocks[s.seqs[s.lo]].empty[BLOCK_SIZE - 1 - o];
  }

  lemma ReuseDone(s: State)
    requires BlocksOk(s) && CellsOk(s) && DoneOk(s) && ScanOk(s) && s.producer.pc.Reuse?
    ensures forall i :: 0 <= i < Base(s.lo + 1) ==> i in s.done
  {
    forall i | 0 <= i < Base(s.lo + 1) ensures i in s.done {
      if i >= Base(s.lo) {
        OldestIsFinished(s, i - Base(s.lo));
      }
    }
  }

  lemma ReuseRing(s: State)
    requires BlocksOk(s) && RingOk(s) && |s.seqs| > 0 && |s.headers| > 0 && Ahead(s) == s.seqs[s.lo] < |s.blocks|
    ensures BlocksOk(ReuseBlock(s)) && RingOk(ReuseBlock(s))
  {
    var s' := ReuseBlock(s);
    var n := |s.seqs|;
    assert RingLink(s, n - 1) && RingLink(s, s.lo);
    forall q | s'.lo <= q < |s'.seqs| ensures RingLink(s', q) {
      if q < n {
        assert RingLink(s, q);
      }
    }
  }

  /** A freshly opened stretch: nothing in it has been enqueued, so nothing of it is taken or done. */
  lemma FreshStretch(s: State, o: nat)
    requires BlocksOk(s) && DoneOk(s) && s.tail == Base(|s.seqs|)
    ensures Base(|s.seqs|) + o !in s.done
  {
  }

  lemma ReuseCells(s: State)
    requires BlocksOk(s) && CellsOk(s) && DoneOk(s) && ScanOk(s) && s.producer.pc.Reuse?
    requires |s.headers| > 0 && s.tail == Base(|s.seqs|) && Ahead(s) == s.seqs[s.lo] < |s.blocks|
    ensures CellsOk(ReuseBlock(s))
  {
    var s' := ReuseBlock(s);
    var n := |s.seqs|;
    forall q, o | s'.lo <= q < |s'.seqs| && 0 <= o < BLOCK_SIZE ensures CellOk(s', q, o) {
      if q < n {
        assert CellOk(s, q, o);
        assert s.seqs[q] != s.seqs[s.lo];
      } else {
        OldestIsFinished(s, o);
        FreshStretch(s, o);
      }
    }
  }

  lemma HeadersKept(s: State, s': State)
    requires IndexOk(s) && s.seqs <= s'.seqs && s.lo <= s'.lo
    ensures forall h :: 0 <= h < |s.headers| ==> HeaderOk(s'.seqs, s'.lo, s.headers[h])
  {
    forall h | 0 <= h < |s.headers| ensures HeaderOk(s'.seqs, s'.lo, s.headers[h]) {
      HeaderKept(s.seqs, s.lo, s'.seqs, s'.lo, s.headers[h]);
    }
  }

  lemma HeaderKept(seqs: seq<nat>, lo: nat, seqs': seq<nat>, lo': nat, hd: Header)
    requires HeaderOk(seqs, lo, hd) && seqs <= seqs' && lo <= lo'
    ensures HeaderOk(seqs', lo', hd)
  {
    forall q | hd.lo <= q < hd.pub ensures EntryOk(seqs', hd, q) {
      assert EntryOk(seqs, hd, q);
    }
  }

  lemma ReuseIndex(s: State)
    requires IndexOk(s) && RingOk(s) && s.producer.pc.Reuse? && |s.seqs| > 0 && |s.headers| > 0 && Ahead(s) < |s.blocks|
    ensures IndexOk(ReuseBlock(s))
  {
    var s' := ReuseBlock(s);
    HeadersKept(s, s');
    var hd, hd' := s.headers[Mine(s)], s'.headers[Mine(s)];
    assert HeaderOk(s.seqs, s.lo, hd);
    forall q | hd'.lo <= q < hd'.pub ensures EntryOk(s'.seqs, hd', q) {
      assert EntryOk(s.seqs, hd, q);
    }
    assert forall q {:trigger Slot(hd', q)} :: Slot(hd', q) == Slot(hd, q);
  }

  lemma ReuseKeeps(s: State, ok: bool)
    requires Inv(s) && s.producer.pc.Reuse?
    ensures ProducerCanStep(s) && Inv(StepProducer(s, ok))
  {
    AheadIsOldest(s);
    assert StepProducer(s, ok) == ReuseBlock(s);
    hide StepProducer;
    ReuseRing(s);
    ReuseCells(s);
    ReuseIndex(s);
    ReuseRest(s);
    hide ReuseBlock, CellsOk, RingOk, BlocksOk, TailOk, ScanOk, DoneOk, ConsumersOk, Disjoint, IndexOk, Evolves;
    ProducerDone(s, ReuseBlock(s));
  }

  lemma ReuseRest(s: State)
    requires BlocksOk(s) && TailOk(s) && CellsOk(s) && DoneOk(s) && ScanOk(s) && s.producer.pc.Reuse?
    requires Ahead(s) < |s.blocks| && |s.headers| > 0
    ensures var s' := ReuseBlock(s);
      && s' == s.(headers := s'.headers, blocks := s'.blocks, producer := s'.producer, seqs := s'.seqs, lo := s'.lo)
      && Evolves(s, s') && TailOk(s') && ScanOk(s') && DoneOk(s')
  {
    ReuseDone(s);
    hide CellsOk, BlocksOk;
  }

  // Doubling the index.

  /** The copy puts stretch q of the old index into the q-th used slot of the new one. */
  lemma CopiedHeaderOk(seqs: seq<nat>, lo: nat, hd: Header, front: nat)
    requires HeaderOk(seqs, lo, hd) && hd.lo == lo && hd.pub == |seqs| && lo < |seqs|
    requires front == Slot(hd, |seqs|) && |seqs| - lo == hd.size
    ensures var size := 2 * hd.size;
      HeaderOk(seqs, lo, Header(size, hd.size - 1, CopiedEntries(hd.entries, front, hd.size), lo, lo, |seqs|))
  {
    var n := |seqs|;
    var size := 2 * hd.size;
    var hd' := Header(size, hd.size - 1, CopiedEntries(hd.entries, front, hd.size), lo, lo, n);
    forall q | lo <= q < n ensures EntryOk(seqs, hd', q) {
      assert EntryOk(seqs, hd, q);
      ModAdd(n - hd.org, q - n, hd.size);
      assert front - hd.size + (q - lo) == front + (q - n);
    }
  }

  /** The index is full when it is doubled, if there is one. */
  lemma FullIndex(s: State)
    requires IndexOk(s) && RingOk(s) && s.producer.pc.NewIndex?
    ensures |s.seqs| > 0 <==> |s.headers| > 0
    ensures ProducerCanStep(s) && s.producer.used == |s.seqs| - s.lo
    ensures s.producer.size > 0 && IsPowerOfTwo(2 * s.producer.size)
    ensures |s.headers| == 0 ==> |s.seqs| == s.lo == 0 && s.producer.front == 0
    ensures |s.headers| > 0 ==>
      var hd := s.headers[Mine(s)];
      && HeaderOk(s.seqs, s.lo, hd) && hd.lo == s.lo < |s.seqs| == hd.pub && s.producer.front == Slot(hd, |s.seqs|)
      && |s.seqs| - s.lo == hd.size == s.producer.size == |hd.entries|
  {
    hide HeaderOk, RingLink;
    if |s.headers| > 0 {
      assert HeaderOk(s.seqs, s.lo, s.headers[Mine(s)]);
      SizeOfHeader(s.seqs, s.lo, s.headers[Mine(s)]);
    }
  }

  lemma SizeOfHeader(seqs: seq<nat>, lo: nat, hd: Header)
    requires HeaderOk(seqs, lo, hd)
    ensures hd.size == |hd.entries| > 0
  {
  }

  lemma FreshHeaderOk(size: nat)
    requires size > 0 && IsPowerOfTwo(size)
    ensures HeaderOk([], 0, Header(size, -1, FreshEntries(size), 0, 0, 0))
  {
  }

  lemma NewHeaderOk(s: State)
    requires IndexOk(s) && RingOk(s) && s.producer.pc.NewIndex?
    ensures ProducerCanStep(s)
    ensures var s' := DoubleIndex(s);
      |s'.headers| == |s.headers| + 1 && HeaderOk(s.seqs, s.lo, s'.headers[|s.headers|])
  {
    hide HeaderOk, IndexOk, RingOk, CopiedEntries, FreshEntries, IsPowerOfTwo;
    FullIndex(s);
    if |s.headers| > 0 {
      CopiedHeaderOk(s.seqs, s.lo, s.headers[Mine(s)], s.producer.front);
    } else {
      FreshHeaderOk(2 * s.producer.size);
    }
  }

  lemma NewCurrentOk(s: State)
    requires IndexOk(s) && RingOk(s) && s.producer.pc.NewIndex?
    ensures ProducerCanStep(s)
    ensures var s' := DoubleIndex(s); |s'.headers| > 0 && CurrentOk(s', s'.headers[Mine(s')]) && s'.producer.used < s'.producer.size
  {
    hide HeaderOk, IndexOk, RingOk, CopiedEntries, FreshEntries, IsPowerOfTwo;
    FullIndex(s);
  }

  lemma DoubleKeepsIndex(s: State)
    requires IndexOk(s) && RingOk(s) && s.producer.pc.NewIndex?
    ensures ProducerCanStep(s) && IndexOk(DoubleIndex(s))
  {
    hide HeaderOk, CurrentOk, RingOk, CopiedEntries, FreshEntries, IsPowerOfTwo;
    FullIndex(s);
    NewHeaderOk(s);
    NewCurrentOk(s);
  }

  lemma NewIndexKeeps(s: State, ok: bool)
    requires Inv(s) && s.producer.pc.NewIndex?
    ensures ProducerCanStep(s) && Inv(StepProducer(s, ok))
  {
    DoubleKeepsIndex(s);
    var s' := StepProducer(s, ok);
    if ok {
      CellsKept(s, s');
      LinksKept(s, s');
      ProducerDone(s, s');
    } else {
      ProducerMoves(s, s'.producer);
    }
  }

  // A new block.

  lemma InsertRing(s: State)
    requires BlocksOk(s) && RingOk(s)
    ensures s.producer.tailBlock.Some? ==> s.producer.tailBlock.value < |s.blocks|
    ensures BlocksOk(InsertBlock(s)) && RingOk(InsertBlock(s))
  {
    var s' := InsertBlock(s);
    var n := |s.seqs|;
    if n > 0 {
      AheadIsOldest(s);
      assert RingLink(s, n - 1);
    }
    forall q | s'.lo <= q < |s'.seqs| ensures RingLink(s', q) {
      if q < n - 1 {
        assert RingLink(s, q);
        assert s.seqs[q] != s.seqs[n - 1];
      }
    }
  }

  lemma InsertCells(s: State)
    requires BlocksOk(s) && CellsOk(s) && DoneOk(s) && s.tail == Base(|s.seqs|) && !s.producer.pc.Publish?
    requires s.producer.tailBlock.Some? ==> s.producer.tailBlock.value < |s.blocks|
    ensures CellsOk(InsertBlock(s))
  {
    var s' := InsertBlock(s);
    forall q, o | s'.lo <= q < |s'.seqs| && 0 <= o < BLOCK_SIZE ensures CellOk(s', q, o) {
      if q < |s.seqs| {
        assert CellOk(s, q, o);
      } else {
        FreshStretch(s, o);
      }
    }
  }

  lemma InsertIndex(s: State)
    requires IndexOk(s) && s.producer.pc.Requisition?
    requires s.producer.tailBlock.Some? ==> s.producer.tailBlock.value < |s.blocks|
    ensures IndexOk(InsertBlock(s))
  {
    HeadersKept(s, InsertBlock(s));
  }

  lemma InsertRest(s: State)
    requires TailOk(s) && DoneOk(s) && s.producer.pc.Requisition?
    requires s.producer.tailBlock.Some? ==> s.producer.tailBlock.value < |s.blocks|
    ensures var s' := InsertBlock(s);
      && s' == s.(blocks := s'.blocks, producer := s'.producer, seqs := s'.seqs)
      && Evolves(s, s') && TailOk(s') && ScanOk(s') && DoneOk(s')
  {
  }

  lemma RequisitionKeeps(s: State, ok: bool)
    requires Inv(s) && s.producer.pc.Requisition?
    ensures ProducerCanStep(s) && Inv(StepProducer(s, ok))
  {
    InsertRing(s);
    var s' := StepProducer(s, ok);
    assert s' == if ok then InsertBlock(s) else WithProducer(s, Ready);
    hide StepProducer;
    if ok {
      InsertCells(s);
      InsertIndex(s);
      hide InsertBlock, CellsOk, RingOk, BlocksOk, ConsumersOk, Disjoint, IndexOk;
      InsertRest(s);
      ProducerDone(s, s');
    } else {
      ProducerMoves(s, s'.producer);
    }
  }

  // Publishing the stretch in the index.

  /** Writing the slot that is next in line disturbs no stretch that is in use. */
  lemma SlotFree(s: State, hd: Header, entry: Entry)
    requires HeaderOk(s.seqs, s.lo, hd) && hd.pub - hd.lo < hd.size
    ensures Slot(hd, hd.pub) < |hd.entries|
    ensures HeaderOk(s.seqs, s.lo, hd.(entries := hd.entries[Slot(hd, hd.pub) := entry]))
  {
    var hd' := hd.(entries := hd.entries[Slot(hd, hd.pub) := entry]);
    forall q | hd'.lo <= q < hd'.pub ensures EntryOk(s.seqs, hd', q) {
      assert EntryOk(s.seqs, hd, q);
      ModDistinct(q - hd.org, hd.pub - hd.org, hd.size);
    }
    assert forall q {:trigger Slot(hd', q)} :: Slot(hd', q) == Slot(hd, q);
  }

  lemma WriteEntryKeeps(s: State, ok: bool)
    requires Inv(s) && (s.producer.pc.WriteBase? || s.producer.pc.WriteBlock?)
    ensures ProducerCanStep(s) && Inv(StepProducer(s, ok))
  {
    EntryWritten(s, ok);
    hide StepProducer, IndexOk;
    var s' := StepProducer(s, ok);
    CellsKept(s, s');
    LinksKept(s, s');
    hide CellsOk, RingOk, ConsumersOk, Disjoint;
    ProducerDone(s, s');
  }

  lemma EntryWritten(s: State, ok: bool)
    requires IndexOk(s) && RingOk(s) && |s.seqs| > 0 && (s.producer.pc.WriteBase? || s.producer.pc.WriteBlock?)
    ensures ProducerCanStep(s)
    ensures var s' := StepProducer(s, ok);
      && s' == s.(headers := s'.headers, producer := s'.producer)
      && s'.producer == s.producer.(pc := if s.producer.pc.WriteBase? then WriteBlock else StoreFront)
      && Evolves(s, s') && IndexOk(s')
  {
    hide RingLink, IsPowerOfTwo;
    var hd := s.headers[Mine(s)];
    assert HeaderOk(s.seqs, s.lo, hd);
    var s' := StepProducer(s, ok);
    SlotFree(s, hd, s'.headers[Mine(s)].entries[s.producer.front]);
    hide HeaderOk;
  }

  lemma PublishedHeader(seqs: seq<nat>, lo: nat, hd: Header)
    requires HeaderOk(seqs, lo, hd) && hd.pub < |seqs|
    requires hd.entries[Slot(hd, hd.pub)] == Entry(Base(hd.pub), seqs[hd.pub])
    ensures HeaderOk(seqs, lo, hd.(front := Slot(hd, hd.pub), pub := hd.pub + 1))
    ensures Increment(Slot(hd, hd.pub), hd.size) == Slot(hd, hd.pub + 1)
  {
    var hd' := hd.(front := Slot(hd, hd.pub), pub := hd.pub + 1);
    forall q | hd'.lo <= q < hd'.pub ensures EntryOk(seqs, hd', q) {
      if q < hd.pub {
        assert EntryOk(seqs, hd, q);
      }
    }
    ModNext(hd.pub - hd.org, hd.size);
  }

  lemma StoreFrontKeeps(s: State, ok: bool)
    requires Inv(s) && s.producer.pc.StoreFront?
    ensures ProducerCanStep(s) && Inv(StepProducer(s, ok))
  {
    FrontStored(s, ok);
    hide StepProducer, IndexOk;
    var s' := StepProducer(s, ok);
    CellsKept(s, s');
    LinksKept(s, s');
    hide CellsOk, RingOk, ConsumersOk, Disjoint;
    ProducerDone(s, s');
  }

  lemma FrontStored(s: State, ok: bool)
    requires IndexOk(s) && |s.seqs| > 0 && s.producer.pc.StoreFront? && s.tail == Base(|s.seqs| - 1)
    ensures ProducerCanStep(s)
    ensures var s' := StepProducer(s, ok);
      && s' == s.(headers := s'.headers, producer := s.producer.(pc := Construct, front := s'.producer.front))
      && Evolves(s, s') && IndexOk(s')
  {
    var hd := s.headers[Mine(s)];
    assert HeaderOk(s.seqs, s.lo, hd);
    PublishedHeader(s.seqs, s.lo, hd);
    hide HeaderOk, EntryOk, IsPowerOfTwo;
  }

  // Constructing and publishing the element.

  lemma TailStretch(s: State)
    requires BlocksOk(s) && TailOk(s) && RingOk(s) && CellsOk(s) && DoneOk(s) && Opened(s.producer.pc)
    ensures |s.seqs| > 0 && Blk(s.tail) == |s.seqs| - 1 && Base(|s.seqs| - 1) + Off(s.tail) == s.tail
    ensures s.producer.tailBlock == Some(s.seqs[|s.seqs| - 1]) && s.seqs[|s.seqs| - 1] < |s.blocks|
    ensures CellOk(s, |s.seqs| - 1, Off(s.tail)) && s.tail !in s.taken
  {
    var n := |s.seqs|;
    Split(s.tail);
    BelowBase(s.tail, n);
    BelowBase(s.tail, n - 1);
    assert CellOk(s, n - 1, Off(s.tail));
  }

  lemma ConstructCells(s: State)
    requires BlocksOk(s) && TailOk(s) && RingOk(s) && CellsOk(s) && DoneOk(s) && s.producer.pc.Construct?
    ensures ProducerCanStep(s)
    ensures s.blocks[s.producer.tailBlock.value].cells[Off(s.tail)] == None
    ensures CellsOk(StepProducer(s, true)) && SameLinks(s.blocks, StepProducer(s, true).blocks)
  {
    TailStretch(s);
    var n := |s.seqs|;
    var s' := StepProducer(s, true);
    forall q, o | s'.lo <= q < |s'.seqs| && 0 <= o < BLOCK_SIZE ensures CellOk(s', q, o) {
      assert CellOk(s, q, o);
      Located(q, o);
      if s.seqs[q] == s.seqs[n - 1] {
        SameBlockSameStretch(s, q, n - 1);
      }
    }
  }

  lemma ConstructKeeps(s: State, ok: bool)
    requires Inv(s) && s.producer.pc.Construct?
    ensures ProducerCanStep(s) && Inv(StepProducer(s, ok))
  {
    ConstructCells(s);
    var s' := StepProducer(s, ok);
    LinksKept(s, s');
    hide CellsOk, RingOk, ConsumersOk, Disjoint, ScanOk;
    ProducerDone(s, s');
  }

  lemma PublishCells(s: State)
    requires BlocksOk(s) && TailOk(s) && RingOk(s) && CellsOk(s) && DoneOk(s) && s.producer.pc.Publish?
    ensures CellsOk(StepProducer(s, true))
  {
    TailStretch(s);
    var s' := StepProducer(s, true);
    forall q, o | s'.lo <= q < |s'.seqs| && 0 <= o < BLOCK_SIZE ensures CellOk(s', q, o) {
      assert CellOk(s, q, o);
    }
  }

  lemma PublishKeeps(s: State, ok: bool)
    requires Inv(s) && s.producer.pc.Publish?
    ensures ProducerCanStep(s) && Inv(StepProducer(s, ok))
  {
    PublishCells(s);
    var s' := StepProducer(s, ok);
    LinksKept(s, s');
    hide CellsOk, RingOk, ConsumersOk, Disjoint;
    ProducerDone(s, s');
  }

  lemma ConsumeKeeps(s: State, c: nat)
    requires Inv(s) && c < |s.consumers|
    ensures ConsumerCanStep(s, c) && Inv(StepConsumer(s, c))
  {
    match s.consumers[c].pc
    case Idle =>
    case LoadIndex => LoadIndexKeeps(s, c);
    case LoadFront => LoadFrontKeeps(s, c);
    case LoadBase => LoadBaseKeeps(s, c);
    case LoadBlock => LoadBlockKeeps(s, c);
    case Take => TakeKeeps(s, c);
    case SetFlag => SetFlagKeeps(s, c);
  }

  lemma ProduceKeeps(s: State, ok: bool)
    requires Inv(s)
    ensures ProducerCanStep(s) && Inv(StepProducer(s, ok))
  {
    match s.producer.pc
    case Ready =>
    case Scan(_) => ScanKeeps(s, ok);
    case Reuse => ReuseKeeps(s, ok);
    case CheckRoom => CheckRoomKeeps(s, ok);
    case NewIndex => NewIndexKeeps(s, ok);
    case Requisition => RequisitionKeeps(s, ok);
    case WriteBase => WriteEntryKeeps(s, ok);
    case WriteBlock => WriteEntryKeeps(s, ok);
    case StoreFront => StoreFrontKeeps(s, ok);
    case Construct => ConstructKeeps(s, ok);
    case Publish => PublishKeeps(s, ok);
  }

  lemma StepKeeps(s: State, e: Event)
    requires Inv(s)
    ensures Inv(Step(s, e))
  {
    match e
    case Enqueue(value) => if s.producer.pc.Ready? { StartKeeps(s, value); }
    case Produce(ok) => ProduceKeeps(s, ok);
    case Claim(c, count) => if c < |s.consumers| { ClaimKeeps(s, c, count); }
    case Consume(c) => if c < |s.consumers| { ConsumeKeeps(s, c); }
  }

  lemma InitInv(consumers: nat, half: nat, ok: bool)
    requires half > 0 && IsPowerOfTwo(half)
    ensures Inv(Init(consumers, half, ok))
  {
    hide IsPowerOfTwo;
    var s := Init(consumers, half, ok);
    DoubledPower(half);
    InitIndex(consumers, half, ok);
    InitRest(consumers, half, ok);
  }

  lemma DoubledPower(half: nat)
    requires half > 0 && IsPowerOfTwo(half)
    ensures IsPowerOfTwo(2 * half)
  {
    assert 2 * half / 2 == half && 2 * half % 2 == 0;
  }

  lemma InitIndex(consumers: nat, half: nat, ok: bool)
    requires half > 0 && IsPowerOfTwo(half) && IsPowerOfTwo(2 * half)
    ensures IndexOk(Init(consumers, half, ok))
  {
    hide IsPowerOfTwo;
  }

  lemma InitRest(consumers: nat, half: nat, ok: bool)
    requires half > 0 && IsPowerOfTwo(half)
    ensures var s := Init(consumers, half, ok);
      && BlocksOk(s) && RingOk(s) && TailOk(s) && ScanOk(s) && CellsOk(s) && DoneOk(s) && ConsumersOk(s) && Disjoint(s)
  {
    hide IsPowerOfTwo;
  }

  /** Consumer c is still going to deal with index i. */
  predicate StillToDo(cs: seq<Consumer>, c: nat, i: nat) {
    c < |cs| && cs[c].pc != Idle && Unmarked(cs[c], i)
  }

  /** Every claimed index is done or somebody's to do. */
  ghost predicate NoneLost(s: State) {
    forall i: nat {:trigger i in s.done} :: i < s.head && i !in s.done ==> exists c :: StillToDo(s.consumers, c, i)
  }

  /** Consumer c passes on only what is done. */
  lemma ConsumerLosesNothing(s: State, s': State, c: nat)
    requires NoneLost(s) && c < |s.consumers| == |s'.consumers| && s'.head == s.head && s.done <= s'.done
    requires s'.consumers == s.consumers[c := s'.consumers[c]]
    requires forall i: nat :: StillToDo(s.consumers, c, i) && i !in s'.done ==> StillToDo(s'.consumers, c, i)
    ensures NoneLost(s')
  {
    forall i: nat | i < s'.head && i !in s'.done ensures exists d :: StillToDo(s'.consumers, d, i) {
      assert i !in s.done;
      var d :| StillToDo(s.consumers, d, i);
      assert StillToDo(s'.consumers, d, i);
    }
  }

  lemma ConsumeLosesNothing(s: State, c: nat)
    requires c < |s.consumers| && s.consumers[c].pc != Idle && ConsumerOk(s, s.consumers[c]) && ConsumerCanStep(s, c)
    ensures var s' := StepConsumer(s, c);
      && s'.head == s.head && s.done <= s'.done && |s'.consumers| == |s.consumers|
      && s'.consumers == s.consumers[c := s'.consumers[c]]
      && forall i: nat :: StillToDo(s.consumers, c, i) && i !in s'.done ==> StillToDo(s'.consumers, c, i)
  {
  }

  lemma ClaimLosesNothing(s: State, c: nat, count: nat)
    requires NoneLost(s) && c < |s.consumers|
    ensures NoneLost(ClaimRange(s, c, count))
  {
    var s' := ClaimRange(s, c, count);
    if s' != s {
      forall i: nat | i < s'.head && i !in s'.done ensures exists d :: StillToDo(s'.consumers, d, i) {
        if i < s.head {
          assert i !in s.done;
          var d :| StillToDo(s.consumers, d, i);
          assert StillToDo(s'.consumers, d, i);
        } else {
          assert StillToDo(s'.consumers, c, i);
        }
      }
    }
  }

  lemma StepLosesNothing(s: State, e: Event)
    requires Inv(s) && NoneLost(s)
    ensures NoneLost(Step(s, e))
  {
    match e
    case Claim(c, count) => if c < |s.consumers| { ClaimLosesNothing(s, c, count); }
    case Consume(c) =>
      if c < |s.consumers| && ConsumerCanStep(s, c) && s.consumers[c].pc != Idle {
        assert ConsumerOk(s, s.consumers[c]);
        ConsumeLosesNothing(s, c);
        ConsumerLosesNothing(s, StepConsumer(s, c), c);
      }
    case _ => ProducerLosesNothing(s, e);
  }

  lemma ProducerLosesNothing(s: State, e: Event)
    requires NoneLost(s) && (e.Enqueue? || e.Produce?)
    ensures NoneLost(Step(s, e))
  {
    assert Step(s, e).consumers == s.consumers && Step(s, e).head == s.head && Step(s, e).done == s.done;
  }

  /** With no claim in progress every claimed index has been moved out and marked. */
  lemma AllDelivered(s: State, i: nat)
    requires Inv(s) && NoneLost(s) && i < s.head
    requires forall c :: 0 <= c < |s.consumers| ==> s.consumers[c].pc == Idle
    ensures i in s.taken && i in s.done
  {
    assert forall c {:trigger StillToDo(s.consumers, c, i)} :: !StillToDo(s.consumers, c, i);
    assert i in s.done;
  }

  // Main results.

  lemma {:induction false} EveryRun(consumers: nat, half: nat, ok: bool, schedule: seq<Event>)
    requires half > 0 && IsPowerOfTwo(half)
    ensures Inv(Execute(Init(consumers, half, ok), schedule))
  {
    if schedule == [] {
      InitInv(consumers, half, ok);
    } else {
      var last := |schedule| - 1;
      EveryRun(consumers, half, ok, schedule[..last]);
      StepKeeps(Execute(Init(consumers, half, ok), schedule[..last]), schedule[last]);
    }
  }

  // The calls of enqueue.

  /** A call begins when its thread is not in another one. */
  function Begun(s: State, e: Event): Option<int> {
    if e.Enqueue? && s.producer.pc.Ready? then Some(e.value) else None
  }

  /** The calls of a whole run: one succeeds when the tail moves. */
  function Calls(s: State, schedule: seq<Event>): Log {
    if schedule == [] then EMPTY
    else
      var before := schedule[..|schedule| - 1];
      Observe(Calls(s, before), Begun(Execute(s, before), schedule[|before|]), Execute(s, schedule).tail != Execute(s, before).tail)
  }

  /** The elements are the values of the calls that succeeded, and a call in progress still has its own. */
  ghost predicate Recorded(s: State, log: Log) {
    s.enq == log.succeeded && (!s.producer.pc.Ready? ==> s.producer.value == log.value)
  }

  lemma ProducerRecords(s: State, e: Event, log: Log)
    requires Recorded(s, log) && (e.Enqueue? || e.Produce?)
    ensures Recorded(Step(s, e), Observe(log, Begun(s, e), Step(s, e).tail != s.tail))
  {
    hide CopiedEntries, FreshEntries, ResetFlags, Increment, ProducerCanStep, Off, Ahead;
    match s.producer.pc
    case Scan(_) =>
    case Reuse =>
    case NewIndex =>
    case Requisition =>
    case WriteBase =>
    case WriteBlock =>
    case StoreFront =>
    case Construct =>
    case Publish =>
    case _ =>
  }

  lemma ConsumerRecords(s: State, e: Event, log: Log)
    requires Recorded(s, log) && (e.Claim? || e.Consume?)
    ensures Recorded(Step(s, e), Observe(log, Begun(s, e), Step(s, e).tail != s.tail))
  {
    hide Base, Blk, Off, SignedQuotient, Mod;
  }

  lemma {:induction false} RunRecords(s: State, schedule: seq<Event>)
    requires s.enq == [] && s.producer.pc.Ready?
    ensures Recorded(Execute(s, schedule), Calls(s, schedule))
  {
    hide Step, Recorded, Observe;
    if schedule == [] {
      NothingRecorded(s);
    } else {
      var before := schedule[..|schedule| - 1];
      var e := schedule[|before|];
      RunRecords(s, before);
      if e.Enqueue? || e.Produce? {
        ProducerRecords(Execute(s, before), e, Calls(s, before));
      } else {
        ConsumerRecords(Execute(s, before), e, Calls(s, before));
      }
    }
  }

  lemma NothingRecorded(s: State)
    requires s.enq == [] && s.producer.pc.Ready?
    ensures Recorded(s, EMPTY)
  {
  }

  /** In every run the elements of the queue are the values of the calls of enqueue that have succeeded, in the
      order of the calls. */
  lemma EnqueuedInOrder(consumers: nat, half: nat, ok: bool, schedule: seq<Event>)
    ensures Execute(Init(consumers, half, ok), schedule).enq == Calls(Init(consumers, half, ok), schedule).succeeded
  {
    hide Execute, Calls;
    RunRecords(Init(consumers, half, ok), schedule);
  }

  /** What a consumer that is about to move out index `cur` finds in the block its lookup led to. */
  ghost predicate FindsItsElement(s: State, k: Consumer) {
    && k.block < |s.blocks| && Off(k.cur) < |s.blocks[k.block].cells| && k.cur < |s.enq|
    && s.blocks[k.block].cells[Off(k.cur)] == Some(s.enq[k.cur])
    && k.cur !in s.taken
  }

  /** In every interleaving no lookup is ever out of bounds, every consumer about to move an element out
      finds the one enqueued at its index, still in place, and what a finished claim has delivered is the
      elements enqueued at the claimed indices, in order. */
  lemma EveryConsumerIsServed(consumers: nat, half: nat, ok: bool, schedule: seq<Event>, c: nat)
    requires half > 0 && IsPowerOfTwo(half)
    ensures var s := Execute(Init(consumers, half, ok), schedule);
      && s.enq == Calls(Init(consumers, half, ok), schedule).succeeded
      && (c < |s.consumers| ==>
        && ConsumerCanStep(s, c)
        && (s.consumers[c].pc == Take ==> FindsItsElement(s, s.consumers[c]))
        && (s.consumers[c].pc == Idle ==> Delivered(s.enq, s.consumers[c])))
  {
    EnqueuedInOrder(consumers, half, ok, schedule);
    hide Calls;
    EveryRun(consumers, half, ok, schedule);
    var s := Execute(Init(consumers, half, ok), schedule);
    if c < |s.consumers| {
      assert ConsumerOk(s, s.consumers[c]);
      ConsumeKeeps(s, c);
      if s.consumers[c].pc == Take {
        AfterTake(s, c);
      }
    }
  }

  /** Storage is recycled safely: a block is reused only when every index it held has been marked empty
      and its cells are bare, an element is constructed only in a bare cell, and the flag that a consumer
      sets is always still clear (the assert in set_empty). */
  lemma BlocksRecycledSafely(s: State)
    requires Inv(s)
    ensures s.producer.pc.Reuse? ==>
      && s.lo < |s.seqs| && Ahead(s) == s.seqs[s.lo] < |s.blocks|
      && (forall i :: Base(s.lo) <= i < Base(s.lo + 1) ==> i in s.done)
      && (forall o :: 0 <= o < BLOCK_SIZE ==> s.blocks[Ahead(s)].cells[o] == None)
    ensures s.producer.pc.Construct? ==>
      && ProducerCanStep(s) && s.blocks[s.producer.tailBlock.value].cells[Off(s.tail)] == None
    ensures forall c :: 0 <= c < |s.consumers| && s.consumers[c].pc == SetFlag ==>
      && ConsumerCanStep(s, c)
      && !s.blocks[s.consumers[c].block].empty[FlagSlot(s.consumers[c].mark - 1)]
  {
    if s.producer.pc.Reuse? {
      AheadIsOldest(s);
      ReuseDone(s);
      forall o | 0 <= o < BLOCK_SIZE ensures s.blocks[Ahead(s)].cells[o] == None {
        OldestIsFinished(s, o);
      }
    }
    if s.producer.pc.Construct? {
      ConstructCells(s);
    }
    forall c | 0 <= c < |s.consumers| && s.consumers[c].pc == SetFlag
      ensures ConsumerCanStep(s, c) && !s.blocks[s.consumers[c].block].empty[FlagSlot(s.consumers[c].mark - 1)]
    {
      assert ConsumerOk(s, s.consumers[c]);
      FlagCells(s, c);
    }
  }

  /** Positions less than a round apart that share a slot are the same. */
  lemma ModOnce(x: int, front: nat, left: nat, size: nat)
    requires left <= size && left == front - x && front < size && Mod(x, size) == front
    ensures left == 0 || left == size
  {
    if 0 < left < size {
      ModDistinct(x, front, size);
    }
  }

  /** The copying loop of new_block_index, in place over the two arrays. */
  method CopyIndex(entries: array<Entry>, front: nat, used: nat) returns (copied: array<Entry>)
    requires entries.Length > 0 && front < entries.Length && used <= entries.Length
    ensures fresh(copied) && copied[..] == CopiedEntries(entries[..], front, used)
  {
    var size := entries.Length;
    copied := new Entry[2 * size](_ => Entry(0, 0));
    if used != 0 {
      var i, j := Mod(front - used, size), 0;
      copied[j] := entries[i];
      ModNext(front - used, size);
      i, j := Increment(i, size), 1;
      while i != front
        invariant 1 <= j <= used && i == Mod(front - used + j, size)
        invariant forall k :: 0 <= k < 2 * size ==>
          copied[k] == if k < j then entries[Mod(front - used + k, size)] else Entry(0, 0)
        decreases used - j
      {
        copied[j] := entries[i];
        ModNext(front - used + j, size);
        i, j := Increment(i, size), j + 1;
      }
      ModOnce(front - used + j, front, used - j, size);
    }
    assert copied[..] == CopiedEntries(entries[..], front, used);
  }
}
