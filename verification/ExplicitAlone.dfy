/** What one thread of the explicit sub-queue achieves by its own accesses: an enqueue that is not
    interrupted, and a dequeue that is not interrupted. */
module ExplicitAlone {
  import opened BlockArithmetic
  import Tickets
  import Index = ExplicitIndex
  import Queue = ExplicitProducer

  // Enqueueing.

  /** A call of enqueue and n accesses of its own; every request for room or memory is answered with `ok`. */
  function Enqueueing(value: int, ok: bool, n: nat): seq<Index.Event> {
    [Index.Enqueue(value)] + seq(n, _ => Index.Produce(ok))
  }

  /** All elements of the oldest block are gone. */
  ghost predicate OldestDone(s: Index.State) {
    |s.seqs| > 0 && forall i {:trigger i in s.done} :: Base(s.lo) <= i < Base(s.lo + 1) ==> i in s.done
  }

  /** A call can do without new room if the tail is inside a block or the oldest block is free again. */
  ghost predicate CanEnqueue(s: Index.State, ok: bool) {
    ok || Off(s.tail) != 0 || OldestDone(s)
  }

  /** Whether the call in progress is going to succeed. */
  ghost predicate Succeeding(s: Index.State, ok: bool) {
    match s.producer.pc
    case Ready => false
    case Scan(_) => ok || OldestDone(s)
    case CheckRoom => ok
    case NewIndex => ok
    case Requisition => ok
    case _ => true
  }

  /** No more accesses than these are left. */
  function Left(pc: Index.ProducerPc): nat {
    match pc
    case Ready => 0
    case Scan(i) => 8 + if i < BLOCK_SIZE then BLOCK_SIZE - i else 0
    case CheckRoom => 8
    case NewIndex => 7
    case Requisition => 6
    case Reuse => 6
    case WriteBase => 5
    case WriteBlock => 4
    case StoreFront => 3
    case Construct => 2
    case Publish => 1
  }

  /** Flag j of the oldest block is that of the index so far from its end. */
  lemma FlagMeans(s: Index.State, j: nat)
    requires Index.CellsOk(s) && s.lo < |s.seqs| && j < BLOCK_SIZE
    ensures s.seqs[s.lo] < |s.blocks| && j < |s.blocks[s.seqs[s.lo]].empty|
    ensures s.blocks[s.seqs[s.lo]].empty[j] <==> Base(s.lo) + (BLOCK_SIZE - 1 - j) in s.done
  {
    assert Index.CellOk(s, s.lo, BLOCK_SIZE - 1 - j);
  }

  lemma AllFlags(s: Index.State)
    requires Index.CellsOk(s) && s.lo < |s.seqs| && Index.FlagsUpTo(s, BLOCK_SIZE)
    ensures OldestDone(s)
  {
    forall i | Base(s.lo) <= i < Base(s.lo + 1) ensures i in s.done {
      FlagMeans(s, BLOCK_SIZE - 1 - (i - Base(s.lo)));
    }
  }

  lemma OneFlagClear(s: Index.State, j: nat)
    requires Index.CellsOk(s) && s.lo < |s.seqs| && j < BLOCK_SIZE
    requires s.seqs[s.lo] < |s.blocks| && j < |s.blocks[s.seqs[s.lo]].empty| && !s.blocks[s.seqs[s.lo]].empty[j]
    ensures !OldestDone(s)
  {
    FlagMeans(s, j);
  }

  lemma Scanning(s: Index.State)
    requires Index.Inv(s) && s.producer.pc.Scan?
    ensures s.producer.pc.i < BLOCK_SIZE && Index.FlagsUpTo(s, s.producer.pc.i) && Index.CellsOk(s) && |s.seqs| > 0
    ensures Index.Ahead(s) == s.seqs[s.lo]
  {
    Index.AheadIsOldest(s);
  }

  /** A scan finds the oldest block in use exactly if it is. */
  lemma ScanDecides(s: Index.State)
    requires Index.Inv(s) && s.producer.pc.Scan?
    ensures var i := s.producer.pc.i; var b := Index.Ahead(s);
      && |s.seqs| > 0 && i < BLOCK_SIZE && b < |s.blocks| && i < |s.blocks[b].empty|
      && (!s.blocks[b].empty[i] ==> !OldestDone(s))
      && (s.blocks[b].empty[i] && i + 1 == BLOCK_SIZE ==> OldestDone(s))
  {
    hide Index.Inv, Index.CellsOk, OldestDone, Index.Ahead;
    Scanning(s);
    var i := s.producer.pc.i;
    FlagMeans(s, i);
    if !s.blocks[s.seqs[s.lo]].empty[i] {
      OneFlagClear(s, i);
    } else if i + 1 == BLOCK_SIZE {
      AllFlags(s);
    }
  }

  /** What one access of a call leaves alone. */
  ghost predicate Frame(s: Index.State, s': Index.State) {
    s'.consumers == s.consumers && s'.head == s.head && s'.done == s.done && s'.producer.value == s.producer.value
  }

  /** What one access of a call does to it. */
  ghost predicate Advanced(s: Index.State, ok: bool, s': Index.State) {
    && Frame(s, s')
    && (s.producer.pc.Publish? ==> s'.producer.pc.Ready? && s'.tail == s.tail + 1 && s'.enq == s.enq + [s.producer.value])
    && (!s.producer.pc.Publish? ==> s'.tail == s.tail && s'.enq == s.enq)
    && (Succeeding(s, ok) && !s.producer.pc.Publish? ==>
          !s'.producer.pc.Ready? && Succeeding(s', ok) && Left(s'.producer.pc) < Left(s.producer.pc))
    && (!Succeeding(s, ok) ==>
          && s' == s.(producer := s.producer.(pc := s'.producer.pc))
          && (s'.producer.pc.Ready? || (!Succeeding(s', ok) && Left(s'.producer.pc) < Left(s.producer.pc))))
  }

  lemma ScanAdvances(s: Index.State, ok: bool)
    requires Index.Inv(s) && s.producer.pc.Scan?
    ensures Advanced(s, ok, Index.Step(s, Index.Produce(ok)))
  {
    hide Index.Inv, Index.Ahead, OldestDone;
    ScanDecides(s);
    SameOldest(s, Index.Step(s, Index.Produce(ok)));
  }

  lemma SameOldest(s: Index.State, s': Index.State)
    ensures s'.seqs == s.seqs && s'.lo == s.lo && s'.done == s.done ==> (OldestDone(s') <==> OldestDone(s))
  {
  }

  lemma BlockAdvances(s: Index.State, ok: bool)
    requires Index.ProducerCanStep(s)
    requires s.producer.pc.Reuse? || s.producer.pc.CheckRoom? || s.producer.pc.NewIndex? || s.producer.pc.Requisition?
    ensures Advanced(s, ok, Index.Step(s, Index.Produce(ok)))
  {
    hide Index.CopiedEntries, Index.FreshEntries, Index.ResetFlags, Index.Ahead, OldestDone;
  }

  lemma OtherAdvances(s: Index.State, ok: bool)
    requires Index.ProducerCanStep(s)
    requires Index.Opened(s.producer.pc)
    ensures Advanced(s, ok, Index.Step(s, Index.Produce(ok)))
  {
    hide Index.Increment, Off, OldestDone;
  }

  lemma Advances(s: Index.State, ok: bool)
    requires Index.Inv(s) && !s.producer.pc.Ready?
    ensures Advanced(s, ok, Index.Step(s, Index.Produce(ok)))
  {
    hide Index.Inv, Index.Step, Advanced, Index.ProducerCanStep;
    Index.ProduceKeeps(s, ok);
    match s.producer.pc
    case Scan(_) => ScanAdvances(s, ok);
    case Reuse => BlockAdvances(s, ok);
    case CheckRoom => BlockAdvances(s, ok);
    case NewIndex => BlockAdvances(s, ok);
    case Requisition => BlockAdvances(s, ok);
    case _ => OtherAdvances(s, ok);
  }

  /** Where a call stands after n accesses. */
  ghost predicate Underway(s: Index.State, value: int, ok: bool, n: nat, s': Index.State) {
    && Index.Inv(s') && s'.consumers == s.consumers && s'.head == s.head && s'.done == s.done
    && (!s'.producer.pc.Ready? ==>
          && Left(s'.producer.pc) + n <= BLOCK_SIZE + 8 && s'.producer.value == value
          && s'.tail == s.tail && s'.enq == s.enq && (Succeeding(s', ok) <==> CanEnqueue(s, ok)))
    && (s'.producer.pc.Ready? && CanEnqueue(s, ok) ==> s'.tail == s.tail + 1 && s'.enq == s.enq + [value])
    && (!CanEnqueue(s, ok) ==> s' == s.(producer := s.producer.(value := value, pc := s'.producer.pc)))
  }

  lemma Starts(s: Index.State, value: int, ok: bool)
    requires Index.Inv(s) && s.producer.pc.Ready?
    ensures Underway(s, value, ok, 0, Index.Step(s, Index.Enqueue(value)))
  {
    Index.StepKeeps(s, Index.Enqueue(value));
    SameOldest(s, Index.Step(s, Index.Enqueue(value)));
    NoOldest(s);
    hide Index.Inv, OldestDone, Off;
  }

  lemma NoOldest(s: Index.State)
    requires Index.Inv(s)
    ensures s.producer.tailBlock.None? ==> !OldestDone(s)
  {
  }

  lemma GoesOn(s: Index.State, value: int, ok: bool, n: nat, s': Index.State)
    requires Underway(s, value, ok, n, s')
    ensures Underway(s, value, ok, n + 1, Index.Step(s', Index.Produce(ok)))
  {
    hide Index.Inv, CanEnqueue, Succeeding;
    Index.StepKeeps(s', Index.Produce(ok));
    if !s'.producer.pc.Ready? {
      Advances(s', ok);
      hide Index.Step;
    }
  }

  lemma {:induction false} AfterAccesses(s: Index.State, value: int, ok: bool, n: nat)
    requires Index.Inv(s) && s.producer.pc.Ready?
    ensures Underway(s, value, ok, n, Index.Execute(s, Enqueueing(value, ok, n)))
  {
    hide Index.Inv, Index.Step, Underway;
    var calls := Enqueueing(value, ok, n);
    if n == 0 {
      assert calls[..0] == [] && calls == [Index.Enqueue(value)];
      Starts(s, value, ok);
    } else {
      AfterAccesses(s, value, ok, n - 1);
      assert calls[..n] == Enqueueing(value, ok, n - 1);
      GoesOn(s, value, ok, n - 1, Index.Execute(s, Enqueueing(value, ok, n - 1)));
    }
  }

  /** A call that is not interrupted returns within BLOCK_SIZE + 8 accesses. It appends its value, unless it is
      refused room or memory and needs it, as the tail is at the end of its block and the block ahead still in
      use; then it changes nothing. */
  lemma LoneEnqueue(s: Index.State, value: int, ok: bool, n: nat)
    requires Index.Inv(s) && s.producer.pc.Ready? && n >= BLOCK_SIZE + 8
    ensures var s' := Index.Execute(s, Enqueueing(value, ok, n));
      && s'.producer.pc.Ready? && s'.consumers == s.consumers && s'.head == s.head && s'.done == s.done
      && (CanEnqueue(s, ok) ==> s'.enq == s.enq + [value] && s'.tail == s.tail + 1)
      && (!CanEnqueue(s, ok) ==> s' == s.(producer := s.producer.(value := value)))
  {
    AfterAccesses(s, value, ok, n);
    hide Index.Inv, Index.Execute, CanEnqueue, Succeeding;
  }

  // Dequeueing.

  /** No more accesses than these are left to a consumer. */
  function Remaining(k: Index.Consumer): int {
    match k.pc
    case Idle => 0
    case LoadIndex => 3 * (k.end - k.start) + 3
    case LoadFront => 3 * (k.end - k.start) + 2
    case LoadBase => 3 * (k.end - k.start) + 1
    case LoadBlock => 3 * (k.end - k.start)
    case Take => 3 * (k.end - k.stop) + (k.stop - k.cur) + (k.stop - k.start)
    case SetFlag => 3 * (k.end - k.stop) + (k.mark - k.start)
  }

  lemma ClaimLeft(s: Index.State, c: nat)
    requires Index.Inv(s) && c < |s.consumers| && s.consumers[c].pc != Index.Idle
    ensures Index.ConsumerCanStep(s, c)
    ensures var k := s.consumers[c];
      && k.start < k.end && k.start <= k.mark <= k.stop <= k.end
      && (k.pc == Index.LoadBlock ==> k.cur == k.start)
      && (k.pc == Index.Take ==> k.cur < k.stop && k.mark == k.stop && k.start < k.stop)
      && (k.pc == Index.SetFlag ==> k.start < k.mark && k.cur == k.stop)
      && (k.pc in {Index.LoadIndex, Index.LoadFront, Index.LoadBase} ==> k.first == k.start)
  {
    assert Index.ConsumerOk(s, s.consumers[c]);
    Index.ConsumeKeeps(s, c);
    hide Index.Inv, Index.StepConsumer, Index.ConsumerCanStep;
  }

  /** What one access of a consumer does to it, and leaves alone. */
  ghost predicate Consumed(s: Index.State, c: nat, s': Index.State)
    requires c < |s.consumers|
  {
    && |s'.consumers| == |s.consumers| && s'.consumers == s.consumers[c := s'.consumers[c]]
    && s'.tail == s.tail && s'.head == s.head && s'.enq == s.enq && s'.producer == s.producer
    && s'.consumers[c].first == s.consumers[c].first && s'.consumers[c].end == s.consumers[c].end
    && Remaining(s'.consumers[c]) < Remaining(s.consumers[c])
  }

  lemma LookConsumes(s: Index.State, c: nat)
    requires c < |s.consumers| && Index.ConsumerCanStep(s, c)
    requires s.consumers[c].pc in {Index.LoadIndex, Index.LoadFront, Index.LoadBase}
    ensures Consumed(s, c, Index.Step(s, Index.Consume(c)))
  {
    hide Off, SignedQuotient, Mod, Base, Blk;
  }

  lemma BlockConsumes(s: Index.State, c: nat)
    requires c < |s.consumers| && Index.ConsumerCanStep(s, c) && s.consumers[c].pc == Index.LoadBlock
    requires s.consumers[c].cur == s.consumers[c].start < s.consumers[c].end
    ensures Consumed(s, c, Index.Step(s, Index.Consume(c)))
  {
    Split(s.consumers[c].cur);
    hide Base, Blk, Off;
  }

  lemma TakeConsumes(s: Index.State, c: nat)
    requires c < |s.consumers| && Index.ConsumerCanStep(s, c) && s.consumers[c].pc == Index.Take
    requires s.consumers[c].cur < s.consumers[c].stop == s.consumers[c].mark && s.consumers[c].start < s.consumers[c].stop
    ensures Consumed(s, c, Index.Step(s, Index.Consume(c)))
  {
    hide Off;
  }

  lemma FlagConsumes(s: Index.State, c: nat)
    requires c < |s.consumers| && Index.ConsumerCanStep(s, c) && s.consumers[c].pc == Index.SetFlag
    requires s.consumers[c].start < s.consumers[c].mark <= s.consumers[c].stop <= s.consumers[c].end
    ensures Consumed(s, c, Index.Step(s, Index.Consume(c)))
  {
    hide Off, Index.Increment;
  }

  lemma Consumes(s: Index.State, c: nat)
    requires Index.Inv(s) && c < |s.consumers| && s.consumers[c].pc != Index.Idle
    ensures Consumed(s, c, Index.Step(s, Index.Consume(c)))
  {
    hide Index.Inv, Index.ConsumerCanStep, Index.Step, Consumed;
    ClaimLeft(s, c);
    match s.consumers[c].pc
    case LoadBlock => BlockConsumes(s, c);
    case Take => TakeConsumes(s, c);
    case SetFlag => FlagConsumes(s, c);
    case _ => LookConsumes(s, c);
  }

  /** The same event n times. */
  function Again(q: Queue.State, e: Queue.Event, n: nat): Queue.State {
    if n == 0 then q else Queue.Step(Again(q, e, n - 1), e)
  }

  function Turns(e: Queue.Event, n: nat): seq<Queue.Event> {
    seq(n, _ => e)
  }

  lemma {:induction false} AgainIsASchedule(q: Queue.State, e: Queue.Event, n: nat)
    ensures Again(q, e, n) == Queue.Execute(q, Turns(e, n))
  {
    hide Queue.Step;
    if n > 0 {
      AgainIsASchedule(q, e, n - 1);
      assert Turns(e, n)[..n - 1] == Turns(e, n - 1);
    }
  }

  lemma {:induction false} AgainAdds(q: Queue.State, e: Queue.Event, m: nat, n: nat)
    ensures Again(Again(q, e, m), e, n) == Again(q, e, m + n)
  {
    hide Queue.Step;
    if n > 0 {
      AgainAdds(q, e, m, n - 1);
    }
  }

  /** A dequeue that has its claim and moves on with it. */
  ghost predicate Moved(q: Queue.State, t: nat, q': Queue.State)
    requires t < |q.store.consumers|
  {
    && Queue.Inv(q') && q'.tickets == q.tickets && Consumed(q.store, t, q'.store)
  }

  lemma StoreOf(q: Queue.State)
    requires Queue.Inv(q)
    ensures Index.Inv(q.store)
  {
  }

  lemma Moves(q: Queue.State, t: nat, max: nat)
    requires Queue.Inv(q) && t < |q.store.consumers| && q.store.consumers[t].pc != Index.Idle
    ensures Moved(q, t, Queue.Step(q, Queue.Dequeue(t, max)))
  {
    hide Queue.Inv, Index.Step, Consumed;
    Queue.SameThreads(q);
    Queue.DequeueKeeps(q, t, max);
    StoreOf(q);
    Consumes(q.store, t);
  }

  lemma ConsumerDone(k: Index.Consumer)
    requires k.pc != Index.Idle && k.start < k.end && k.start <= k.mark <= k.stop <= k.end
    requires k.pc == Index.Take ==> k.cur < k.stop
    ensures Remaining(k) >= 0
  {
  }

  /** By its own accesses a claim is moved out in the end. */
  lemma {:induction false} MovesOut(q: Queue.State, t: nat, max: nat) returns (n: nat)
    requires Queue.Inv(q) && t < |q.store.consumers|
    ensures var q' := Again(q, Queue.Dequeue(t, max), n); var k := q.store.consumers[t];
      && Queue.Inv(q') && q'.tickets == q.tickets && |q'.store.consumers| == |q.store.consumers|
      && q'.store.enq == q.store.enq && q'.store.head == q.store.head && q'.store.tail == q.store.tail
      && q'.store.producer == q.store.producer
      && q'.store.consumers[t].pc == Index.Idle
      && q'.store.consumers[t].first == k.first && q'.store.consumers[t].end == k.end
      && n <= if k.pc == Index.Idle then 0 else Remaining(k)
    decreases if q.store.consumers[t].pc == Index.Idle then 0 else Remaining(q.store.consumers[t]) + 1
  {
    hide Queue.Inv, Queue.Step, Remaining;
    n := 0;
    if q.store.consumers[t].pc != Index.Idle {
      var e := Queue.Dequeue(t, max);
      var q' := Queue.Step(q, e);
      Moves(q, t, max);
      StillLeft(q, t);
      assert Again(q, e, 1) == q';
      if q'.store.consumers[t].pc != Index.Idle {
        StillLeft(q', t);
      } else {
        NothingLeft(q'.store.consumers[t]);
      }
      var m := MovesOut(q', t, max);
      AgainAdds(q, e, 1, m);
      n := 1 + m;
    }
  }

  lemma NothingLeft(k: Index.Consumer)
    requires k.pc == Index.Idle
    ensures Remaining(k) == 0
  {
  }

  lemma StillLeft(q: Queue.State, t: nat)
    requires Queue.Inv(q) && t < |q.store.consumers| && q.store.consumers[t].pc != Index.Idle
    ensures Remaining(q.store.consumers[t]) >= 0
  {
    ClaimLeft(q.store, t);
    hide Queue.Inv;
    ConsumerDone(q.store.consumers[t]);
  }

  /** Before its claim a dequeue only goes through the ticket protocol. */
  lemma {:induction false} DrawsItsTicket(q: Queue.State, t: nat, max: nat, i: nat)
    requires Queue.Inv(q) && t < |q.tickets.threads| && t < |q.store.consumers| && q.store.consumers[t].pc == Index.Idle
    requires forall j :: 0 <= j < i ==> Tickets.Alone(q.tickets, t, max, j).threads[t].pc != Tickets.ClaimHead
    ensures Again(q, Queue.Dequeue(t, max), i) == Queue.State(Tickets.Alone(q.tickets, t, max, i), q.store)
    ensures Queue.Inv(Again(q, Queue.Dequeue(t, max), i))
  {
    hide Queue.Inv, Tickets.StepThread, Index.Step;
    if i > 0 {
      DrawsItsTicket(q, t, max, i - 1);
      Queue.DequeueKeeps(Again(q, Queue.Dequeue(t, max), i - 1), t, max);
    }
  }

  /** What a claim of `count` elements makes of the store. */
  lemma ClaimsInStore(s: Index.State, t: nat, count: nat)
    requires t < |s.consumers| && s.consumers[t].pc == Index.Idle && s.head + count <= s.tail
    ensures var s' := Index.Step(s, Index.Claim(t, count));
      && |s'.consumers| == |s.consumers| && s'.head == s.head + count && s'.enq == s.enq && s'.tail == s.tail
      && (count == 0 ==> s'.consumers[t].pc == Index.Idle)
      && (count > 0 ==>
            && s'.consumers[t].pc == Index.LoadIndex && s'.consumers[t].first == s'.consumers[t].start == s.head
            && s'.consumers[t].end == s.head + count)
  {
  }

  lemma QueueFacts(q: Queue.State)
    requires Queue.Inv(q)
    ensures Tickets.Inv(q.tickets) && q.tickets.head == q.store.head <= q.tickets.tail == q.store.tail == |q.store.enq|
    ensures |q.tickets.threads| == |q.store.consumers|
  {
    Queue.StoreLength(q.store);
    Tickets.HeadBehindTail(q.tickets);
  }

  lemma GotIsDelivered(q: Queue.State, t: nat)
    requires Queue.Inv(q) && t < |q.store.consumers| && q.store.consumers[t].pc == Index.Idle
    ensures Index.Delivered(q.store.enq, q.store.consumers[t])
  {
    assert Index.ConsumerOk(q.store, q.store.consumers[t]);
  }

  /** The claim, and everything after it. */
  lemma ClaimsAndMoves(q: Queue.State, t: nat, max: nat, count: nat) returns (n: nat)
    requires Queue.Inv(q) && t < |q.store.consumers| && q.store.consumers[t].pc == Index.Idle
    requires t < |q.tickets.threads| && q.tickets.threads[t].pc == Tickets.ClaimHead && q.tickets.threads[t].actual == count
    requires q.store.head + count <= q.store.tail
    ensures var q' := Again(q, Queue.Dequeue(t, max), n);
      && q'.tickets == Tickets.StepThread(q.tickets, t, max) && q'.store.enq == q.store.enq
      && q.store.head + count <= |q.store.enq|
      && t < |q'.store.consumers| && q'.store.consumers[t].pc == Index.Idle
      && (count > 0 ==> q'.store.consumers[t].got == q.store.enq[q.store.head..q.store.head + count])
      && n <= 4 + 3 * count
  {
    hide Queue.Inv, Index.Step, Tickets.StepThread, Tickets.Inv;
    var e := Queue.Dequeue(t, max);
    QueueFacts(q);
    Queue.DequeueKeeps(q, t, max);
    var q1 := Queue.Step(q, e);
    ClaimsInStore(q.store, t, count);
    assert Again(q, e, 1) == q1;
    var m := MovesOut(q1, t, max);
    AgainAdds(q, e, 1, m);
    n := 1 + m;
    GotIsDelivered(Again(q1, e, m), t);
  }

  /** A dequeue, single or bulk, that is not interrupted, while no other dequeue is at its tickets: it returns
      min(max, tail - head) elements, those enqueued at the head. */
  lemma LoneDequeue(q: Queue.State, t: nat, max: nat) returns (n: nat)
    requires Queue.Inv(q) && Tickets.Quiescent(q.tickets)
    requires t < |q.tickets.threads| && t < |q.store.consumers|
    requires q.tickets.threads[t].pc == Tickets.Idle && q.store.consumers[t].pc == Index.Idle
    ensures q.tickets.head <= q.tickets.tail == |q.store.enq|
    ensures var q' := Queue.Execute(q, Turns(Queue.Dequeue(t, max), n));
      var count := Tickets.Min(max, q.tickets.tail - q.tickets.head);
      && Queue.HasClaim(q', t, true) == (count > 0) && t < |q'.tickets.threads| && q'.tickets.threads[t].got == count
      && q'.tickets.head == q.tickets.head + count && q'.store.enq == q.store.enq
      && (count > 0 ==> q'.store.consumers[t].got == q.store.enq[q.tickets.head..q.tickets.head + count])
      && n <= 9 + 3 * count
  {
    hide Queue.Inv, Queue.Step, Queue.Execute, Tickets.StepThread, Tickets.Inv;
    var e := Queue.Dequeue(t, max);
    QueueFacts(q);
    Tickets.LoneSequence(q.tickets, t, max);
    if q.tickets.head == q.tickets.tail {
      DrawsItsTicket(q, t, max, 3);
      n := 3;
    } else {
      DrawsItsTicket(q, t, max, 5);
      var m := ClaimsAndMoves(Again(q, e, 5), t, max, Tickets.Min(max, q.tickets.tail - q.tickets.head));
      AgainAdds(q, e, 5, m);
      n := 5 + m;
      SixthIsLast(q.tickets, t, max);
    }
    AgainIsASchedule(q, e, n);
  }

  lemma SixthIsLast(s: Tickets.State, t: nat, max: nat)
    requires t < |s.threads|
    ensures Tickets.Alone(s, t, max, 6) == Tickets.StepThread(Tickets.Alone(s, t, max, 5), t, max)
  {
  }
}
