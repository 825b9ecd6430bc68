/** What one thread of the implicit sub-queue achieves by its own accesses: an enqueue that is not
    interrupted, and a dequeue that is not interrupted. */
module ImplicitAlone {
  import opened BlockArithmetic
  import Tickets
  import Index = ImplicitIndex
  import Queue = ImplicitProducer

  // Enqueueing.

  /** The answer to a request for room or memory, and the block that the free list would yield. */
  datatype Answer = Answer(ok: bool, pick: nat)

  /** A call of enqueue and accesses of its own. */
  function Enqueueing(value: int, answers: seq<Answer>): seq<Index.Event> {
    [Index.Enqueue(value)] + seq(|answers|, i requires 0 <= i < |answers| => Index.Produce(answers[i].ok, answers[i].pick))
  }

  predicate Granted(answers: seq<Answer>) {
    forall i :: 0 <= i < |answers| ==> answers[i].ok
  }

  /** A new block needs an index, which the constructor may have failed to allocate. */
  predicate CanEnqueue(s: Index.State) {
    Off(s.tail) != 0 || |s.headers| > 0
  }

  /** No more accesses than these are left. */
  function Left(pc: Index.ProducerPc): nat {
    match pc
    case Ready => 0
    case CheckRoom => 9
    case Probe => 8
    case NewIndex => 7
    case StoreKey => 6
    case StoreTail => 5
    case Requisition => 4
    case StoreValue => 3
    case Rewind => 2
    case ClearValue => 1
    case Construct => 2
    case Publish => 1
  }

  predicate Undoing(pc: Index.ProducerPc) {
    pc.Rewind? || pc.ClearValue?
  }

  /** What one access of a call does to it, and leaves alone. */
  ghost predicate Advanced(s: Index.State, ok: bool, s': Index.State) {
    && s'.consumers == s.consumers && s'.head == s.head && s'.done == s.done && s'.producer.value == s.producer.value
    && |s.headers| <= |s'.headers|
    && (s.producer.pc.Publish? ==> s'.producer.pc.Ready? && s'.tail == s.tail + 1 && s'.enq == s.enq + [s.producer.value])
    && (!s.producer.pc.Publish? ==> s'.tail == s.tail && s'.enq == s.enq)
    && Left(s'.producer.pc) < Left(s.producer.pc)
    && (ok && !Undoing(s.producer.pc) && !s.producer.pc.Publish? && (s.producer.pc.Probe? ==> |s.headers| > 0) ==>
          !s'.producer.pc.Ready? && !Undoing(s'.producer.pc))
    && (s.producer.pc.Probe? && |s.headers| == 0 ==> s' == s.(producer := s.producer.(pc := Index.Ready)))
    && (s.producer.pc.CheckRoom? ==>
          && s' == s.(producer := s.producer.(pc := s'.producer.pc))
          && s'.producer.pc == if ok then Index.Probe else Index.Ready)
  }

  lemma RoomAdvances(s: Index.State, ok: bool, pick: nat)
    requires Index.ProducerCanStep(s) && (s.producer.pc.CheckRoom? || s.producer.pc.Probe? || s.producer.pc.NewIndex?)
    ensures Advanced(s, ok, Index.Step(s, Index.Produce(ok, pick)))
  {
    hide Index.DoubledIndex, Index.FreshEntries, Index.Increment, Index.Decrement;
  }

  lemma IndexAdvances(s: Index.State, ok: bool, pick: nat)
    requires Index.ProducerCanStep(s) && (s.producer.pc.StoreKey? || s.producer.pc.StoreTail? || Undoing(s.producer.pc))
    ensures Advanced(s, ok, Index.Step(s, Index.Produce(ok, pick)))
  {
    hide Index.Increment, Index.Decrement;
  }

  lemma BlockAdvances(s: Index.State, ok: bool, pick: nat)
    requires Index.ProducerCanStep(s)
    requires s.producer.pc.Requisition? || s.producer.pc.StoreValue? || s.producer.pc.Construct? || s.producer.pc.Publish?
    ensures Advanced(s, ok, Index.Step(s, Index.Produce(ok, pick)))
  {
    hide Off;
  }

  lemma Advances(s: Index.State, ok: bool, pick: nat)
    requires Index.Inv(s) && !s.producer.pc.Ready?
    ensures Advanced(s, ok, Index.Step(s, Index.Produce(ok, pick)))
  {
    hide Index.Inv, Index.Step, Advanced, Index.ProducerCanStep;
    Index.ProduceKeeps(s, ok, pick);
    match s.producer.pc
    case CheckRoom => RoomAdvances(s, ok, pick);
    case Probe => RoomAdvances(s, ok, pick);
    case NewIndex => RoomAdvances(s, ok, pick);
    case Requisition => BlockAdvances(s, ok, pick);
    case StoreValue => BlockAdvances(s, ok, pick);
    case Construct => BlockAdvances(s, ok, pick);
    case Publish => BlockAdvances(s, ok, pick);
    case _ => IndexAdvances(s, ok, pick);
  }

  /** Where a call stands after n accesses, `granted` if nothing has been refused. */
  ghost predicate Underway(s: Index.State, value: int, granted: bool, n: nat, s': Index.State) {
    && Index.Inv(s') && s'.consumers == s.consumers && s'.head == s.head && s'.done == s.done && |s.headers| <= |s'.headers|
    && (!s'.producer.pc.Ready? ==>
          && Left(s'.producer.pc) + n <= 9 && s'.producer.value == value && s'.tail == s.tail && s'.enq == s.enq)
    && (s'.producer.pc.Ready? ==>
          || (s'.tail == s.tail + 1 && s'.enq == s.enq + [value] && CanEnqueue(s))
          || (s'.tail == s.tail && s'.enq == s.enq && !(granted && CanEnqueue(s))))
    && (granted && CanEnqueue(s) ==> !Undoing(s'.producer.pc))
    && (CanEnqueue(s) && (s'.producer.pc.CheckRoom? || s'.producer.pc.Probe?) ==> |s'.headers| > 0)
    && (!CanEnqueue(s) ==>
          (s'.producer.pc.CheckRoom? || s'.producer.pc.Probe? || s'.producer.pc.Ready?) && s'.headers == s.headers && s'.tail == s.tail)
  }

  lemma Starts(s: Index.State, value: int)
    requires Index.Inv(s) && s.producer.pc.Ready?
    ensures Underway(s, value, true, 0, Index.Step(s, Index.Enqueue(value)))
  {
    hide Index.Inv, Off;
    Index.StepKeeps(s, Index.Enqueue(value));
  }

  lemma GoesOn(s: Index.State, value: int, granted: bool, n: nat, s': Index.State, a: Answer)
    requires Underway(s, value, granted, n, s')
    ensures Underway(s, value, granted && a.ok, n + 1, Index.Step(s', Index.Produce(a.ok, a.pick)))
  {
    hide Index.Inv, Off;
    Index.StepKeeps(s', Index.Produce(a.ok, a.pick));
    if !s'.producer.pc.Ready? {
      Advances(s', a.ok, a.pick);
      hide Index.Step;
    }
  }

  lemma {:induction false} AfterAccesses(s: Index.State, value: int, answers: seq<Answer>)
    requires Index.Inv(s) && s.producer.pc.Ready?
    ensures Underway(s, value, Granted(answers), |answers|, Index.Execute(s, Enqueueing(value, answers)))
    decreases |answers|
  {
    hide Index.Inv, Index.Step, Underway;
    var calls, n := Enqueueing(value, answers), |answers|;
    if n == 0 {
      assert calls[..0] == [] && calls == [Index.Enqueue(value)];
      Starts(s, value);
    } else {
      var before := answers[..n - 1];
      AfterAccesses(s, value, before);
      assert calls[..n] == Enqueueing(value, before);
      GoesOn(s, value, Granted(before), n - 1, Index.Execute(s, Enqueueing(value, before)), answers[n - 1]);
      assert Granted(answers) <==> Granted(before) && answers[n - 1].ok;
    }
  }

  /** A call that is not interrupted returns within nine accesses. It appends its value if it is refused neither
      room nor memory and an index could be allocated at the beginning, or none is needed; otherwise it appends
      its value or nothing. */
  lemma LoneEnqueue(s: Index.State, value: int, answers: seq<Answer>)
    requires Index.Inv(s) && s.producer.pc.Ready? && |answers| >= 9
    ensures var s' := Index.Execute(s, Enqueueing(value, answers));
      && s'.producer.pc.Ready? && s'.consumers == s.consumers && s'.head == s.head && s'.done == s.done
      && ((s'.enq == s.enq + [value] && s'.tail == s.tail + 1) || (s'.enq == s.enq && s'.tail == s.tail))
      && (Granted(answers) ==> (s'.tail == s.tail + 1 <==> CanEnqueue(s)))
  {
    AfterAccesses(s, value, answers);
    hide Index.Inv, Index.Execute, CanEnqueue;
  }

  /** A call that is refused room for a new block changes nothing. */
  lemma RefusedRoom(s: Index.State, value: int, pick: nat)
    requires Index.Inv(s) && s.producer.pc.Ready? && Off(s.tail) == 0
    ensures Index.Step(Index.Step(s, Index.Enqueue(value)), Index.Produce(false, pick)) == s.(producer := s.producer.(value := value))
  {
    hide Index.Inv;
  }

  // Dequeueing.

  /** No more accesses than these are left to a consumer. */
  function Remaining(k: Index.Consumer): int {
    match k.pc
    case Idle => 0
    case LoadIndex => 5 * (k.end - k.start) + 3
    case LoadTail => 5 * (k.end - k.start) + 2
    case LoadKey => 5 * (k.end - k.start) + 1
    case LoadValue => 5 * (k.end - k.start)
    case Take => 5 * (k.end - k.stop) + (k.stop - k.cur) + 3
    case AddCount => 5 * (k.end - k.stop) + 3
    case ClearEntry => 5 * (k.end - k.stop) + 2
    case Release => 5 * (k.end - k.stop) + 1
  }

  lemma ClaimLeft(s: Index.State, c: nat)
    requires Index.Inv(s) && c < |s.consumers| && s.consumers[c].pc != Index.Idle
    ensures Index.ConsumerCanStep(s, c)
    ensures var k := s.consumers[c];
      && k.start <= k.end
      && (k.pc in {Index.Take, Index.AddCount, Index.ClearEntry, Index.Release} ==> k.stop <= k.end)
      && (k.pc == Index.LoadValue ==> k.cur == k.start < k.end)
      && (k.pc == Index.Take ==> k.cur < k.stop)
      && (k.pc in {Index.LoadIndex, Index.LoadTail, Index.LoadKey} ==> k.first == k.start)
  {
    assert Index.ConsumerOk(s, c, s.consumers[c]);
    Index.ConsumeKeeps(s, c);
    hide Index.Inv, Index.StepConsumer, Index.ConsumerCanStep;
  }

  /** What one access of a consumer does to it, and leaves alone. */
  ghost predicate Consumed(s: Index.State, c: nat, s': Index.State)
    requires c < |s.consumers|
  {
    && |s'.consumers| == |s.consumers| && s'.consumers == s.consumers[c := s'.consumers[c]]
    && s'.tail == s.tail && s'.head == s.head && s'.enq == s.enq && s'.producer == s.producer
    && s'.consumers[c].first == s.consumers[c].first && s'.consumers[c].end == s.consumers[c].end
    && Remaining(s'.consumers[c]) < Remaining(s.consumers[c])
  }

  lemma LookConsumes(s: Index.State, c: nat)
    requires c < |s.consumers| && Index.ConsumerCanStep(s, c)
    requires s.consumers[c].pc in {Index.LoadIndex, Index.LoadTail, Index.LoadKey}
    ensures Consumed(s, c, Index.Step(s, Index.Consume(c)))
  {
    hide Off, SignedQuotient, Mod, Base, Blk, Index.KeyAt, Index.ValueAt;
  }

  lemma BlockConsumes(s: Index.State, c: nat)
    requires c < |s.consumers| && Index.ConsumerCanStep(s, c) && s.consumers[c].pc == Index.LoadValue
    requires s.consumers[c].cur == s.consumers[c].start < s.consumers[c].end
    ensures Consumed(s, c, Index.Step(s, Index.Consume(c)))
  {
    Split(s.consumers[c].cur);
    hide Base, Blk, Off;
  }

  lemma TakeConsumes(s: Index.State, c: nat)
    requires c < |s.consumers| && Index.ConsumerCanStep(s, c) && s.consumers[c].pc == Index.Take
    requires s.consumers[c].cur < s.consumers[c].stop
    ensures Consumed(s, c, Index.Step(s, Index.Consume(c)))
  {
    hide Off;
  }

  lemma CountConsumes(s: Index.State, c: nat)
    requires c < |s.consumers| && Index.ConsumerCanStep(s, c)
    requires s.consumers[c].pc in {Index.AddCount, Index.ClearEntry, Index.Release}
    requires s.consumers[c].stop <= s.consumers[c].end
    ensures Consumed(s, c, Index.Step(s, Index.Consume(c)))
  {
    hide Blk, Index.Range, Index.Increment;
  }

  lemma Consumes(s: Index.State, c: nat)
    requires Index.Inv(s) && c < |s.consumers| && s.consumers[c].pc != Index.Idle
    ensures Consumed(s, c, Index.Step(s, Index.Consume(c)))
  {
    hide Index.Inv, Index.ConsumerCanStep, Index.Step, Consumed;
    ClaimLeft(s, c);
    match s.consumers[c].pc
    case LoadValue => BlockConsumes(s, c);
    case Take => TakeConsumes(s, c);
    case AddCount => CountConsumes(s, c);
    case ClearEntry => CountConsumes(s, c);
    case Release => CountConsumes(s, c);
    case _ => LookConsumes(s, c);
  }

  /** The same event n times. */
  function Again(q: Queue.State, e: Queue.Event, n: nat): Queue.State {
    if n == 0 then q else Queue.Step(Again(q, e, n - 1), e)
  }

  function Turns(e: Queue.Event, n: nat): seq<Queue.Event> {
    seq(n, _ => e)
  }

  lemma {:induction false} AgainIsASchedule(q: Queue.State, e: Queue.Event, n: nat)
    ensures Again(q, e, n) == Queue.Execute(q, Turns(e, n))
  {
    hide Queue.Step;
    if n > 0 {
      AgainIsASchedule(q, e, n - 1);
      assert Turns(e, n)[..n - 1] == Turns(e, n - 1);
    }
  }

  lemma {:induction false} AgainAdds(q: Queue.State, e: Queue.Event, m: nat, n: nat)
    ensures Again(Again(q, e, m), e, n) == Again(q, e, m + n)
  {
    hide Queue.Step;
    if n > 0 {
      AgainAdds(q, e, m, n - 1);
    }
  }

  /** A dequeue that has its claim and moves on with it. */
  ghost predicate Moved(q: Queue.State, t: nat, q': Queue.State)
    requires t < |q.store.consumers|
  {
    && Queue.Inv(q') && q'.tickets == q.tickets && Consumed(q.store, t, q'.store)
  }

  lemma StoreOf(q: Queue.State)
    requires Queue.Inv(q)
    ensures Index.Inv(q.store)
  {
  }

  lemma Moves(q: Queue.State, t: nat, max: nat)
    requires Queue.Inv(q) && t < |q.store.consumers| && q.store.consumers[t].pc != Index.Idle
    ensures Moved(q, t, Queue.Step(q, Queue.Dequeue(t, max)))
  {
    hide Queue.Inv, Index.Step, Consumed;
    Queue.SameThreads(q);
    Queue.DequeueKeeps(q, t, max);
    StoreOf(q);
    Consumes(q.store, t);
  }

  lemma ConsumerDone(k: Index.Consumer)
    requires k.pc != Index.Idle && k.start <= k.end
    requires k.pc in {Index.Take, Index.AddCount, Index.ClearEntry, Index.Release} ==> k.stop <= k.end
    requires k.pc == Index.Take ==> k.cur < k.stop
    ensures Remaining(k) >= 0
  {
  }

  /** By its own accesses a claim is moved out in the end. */
  lemma {:induction false} MovesOut(q: Queue.State, t: nat, max: nat) returns (n: nat)
    requires Queue.Inv(q) && t < |q.store.consumers|
    ensures var q' := Again(q, Queue.Dequeue(t, max), n); var k := q.store.consumers[t];
      && Queue.Inv(q') && q'.tickets == q.tickets && |q'.store.consumers| == |q.store.consumers|
      && q'.store.enq == q.store.enq && q'.store.head == q.store.head && q'.store.tail == q.store.tail
      && q'.store.producer == q.store.producer
      && q'.store.consumers[t].pc == Index.Idle
      && q'.store.consumers[t].first == k.first && q'.store.consumers[t].end == k.end
      && n <= if k.pc == Index.Idle then 0 else Remaining(k)
    decreases if q.store.consumers[t].pc == Index.Idle then 0 else Remaining(q.store.consumers[t]) + 1
  {
    hide Queue.Inv, Queue.Step, Remaining;
    n := 0;
    if q.store.consumers[t].pc != Index.Idle {
      var e := Queue.Dequeue(t, max);
      var q' := Queue.Step(q, e);
      Moves(q, t, max);
      StillLeft(q, t);
      assert Again(q, e, 1) == q';
      if q'.store.consumers[t].pc != Index.Idle {
        StillLeft(q', t);
      } else {
        NothingLeft(q'.store.consumers[t]);
      }
      var m := MovesOut(q', t, max);
      AgainAdds(q, e, 1, m);
      n := 1 + m;
    }
  }

  lemma NothingLeft(k: Index.Consumer)
    requires k.pc == Index.Idle
    ensures Remaining(k) == 0
  {
  }

  lemma StillLeft(q: Queue.State, t: nat)
    requires Queue.Inv(q) && t < |q.store.consumers| && q.store.consumers[t].pc != Index.Idle
    ensures Remaining(q.store.consumers[t]) >= 0
  {
    ClaimLeft(q.store, t);
    hide Queue.Inv;
    ConsumerDone(q.store.consumers[t]);
  }

  /** Before its claim a dequeue only goes through the ticket protocol. */
  lemma {:induction false} DrawsItsTicket(q: Queue.State, t: nat, max: nat, i: nat)
    requires Queue.Inv(q) && t < |q.tickets.threads| && t < |q.store.consumers| && q.store.consumers[t].pc == Index.Idle
    requires forall j :: 0 <= j < i ==> Tickets.Alone(q.tickets, t, max, j).threads[t].pc != Tickets.ClaimHead
    ensures Again(q, Queue.Dequeue(t, max), i) == Queue.State(Tickets.Alone(q.tickets, t, max, i), q.store)
    ensures Queue.Inv(Again(q, Queue.Dequeue(t, max), i))
  {
    hide Queue.Inv, Tickets.StepThread, Index.Step;
    if i > 0 {
      DrawsItsTicket(q, t, max, i - 1);
      Queue.DequeueKeeps(Again(q, Queue.Dequeue(t, max), i - 1), t, max);
    }
  }

  /** What a claim of `count` elements makes of the store. */
  lemma ClaimsInStore(s: Index.State, t: nat, count: nat)
    requires t < |s.consumers| && s.consumers[t].pc == Index.Idle && s.head + count <= s.tail
    ensures var s' := Index.Step(s, Index.Claim(t, count));
      && |s'.consumers| == |s.consumers| && s'.head == s.head + count && s'.enq == s.enq && s'.tail == s.tail
      && (count == 0 ==> s'.consumers[t].pc == Index.Idle)
      && (count > 0 ==>
            && s'.consumers[t].pc == Index.LoadIndex && s'.consumers[t].first == s'.consumers[t].start == s.head
            && s'.consumers[t].end == s.head + count)
  {
  }

  lemma QueueFacts(q: Queue.State)
    requires Queue.Inv(q)
    ensures Tickets.Inv(q.tickets) && q.tickets.head == q.store.head <= q.tickets.tail == q.store.tail == |q.store.enq|
    ensures |q.tickets.threads| == |q.store.consumers|
  {
    Queue.StoreLength(q.store);
    Tickets.HeadBehindTail(q.tickets);
  }

  lemma GotIsDelivered(q: Queue.State, t: nat)
    requires Queue.Inv(q) && t < |q.store.consumers| && q.store.consumers[t].pc == Index.Idle
    ensures Index.Delivered(q.store.enq, q.store.consumers[t])
  {
    assert Index.ConsumerOk(q.store, t, q.store.consumers[t]);
  }

  /** The claim, and everything after it. */
  lemma ClaimsAndMoves(q: Queue.State, t: nat, max: nat, count: nat) returns (n: nat)
    requires Queue.Inv(q) && t < |q.store.consumers| && q.store.consumers[t].pc == Index.Idle
    requires t < |q.tickets.threads| && q.tickets.threads[t].pc == Tickets.ClaimHead && q.tickets.threads[t].actual == count
    requires q.store.head + count <= q.store.tail
    ensures var q' := Again(q, Queue.Dequeue(t, max), n);
      && q'.tickets == Tickets.StepThread(q.tickets, t, max) && q'.store.enq == q.store.enq
      && q.store.head + count <= |q.store.enq|
      && t < |q'.store.consumers| && q'.store.consumers[t].pc == Index.Idle
      && (count > 0 ==> q'.store.consumers[t].got == q.store.enq[q.store.head..q.store.head + count])
      && n <= 4 + 5 * count
  {
    hide Queue.Inv, Index.Step, Tickets.StepThread, Tickets.Inv;
    var e := Queue.Dequeue(t, max);
    QueueFacts(q);
    Queue.DequeueKeeps(q, t, max);
    var q1 := Queue.Step(q, e);
    ClaimsInStore(q.store, t, count);
    assert Again(q, e, 1) == q1;
    var m := MovesOut(q1, t, max);
    AgainAdds(q, e, 1, m);
    n := 1 + m;
    GotIsDelivered(Again(q1, e, m), t);
  }

  /** A dequeue, single or bulk, that is not interrupted, while no other dequeue is at its tickets: it returns
      min(max, tail - head) elements, those enqueued at the head. */
  lemma LoneDequeue(q: Queue.State, t: nat, max: nat) returns (n: nat)
    requires Queue.Inv(q) && Tickets.Quiescent(q.tickets)
    requires t < |q.tickets.threads| && t < |q.store.consumers|
    requires q.tickets.threads[t].pc == Tickets.Idle && q.store.consumers[t].pc == Index.Idle
    ensures q.tickets.head <= q.tickets.tail == |q.store.enq|
    ensures var q' := Queue.Execute(q, Turns(Queue.Dequeue(t, max), n));
      var count := Tickets.Min(max, q.tickets.tail - q.tickets.head);
      && Queue.HasClaim(q', t, true) == (count > 0) && t < |q'.tickets.threads| && q'.tickets.threads[t].got == count
      && q'.tickets.head == q.tickets.head + count && q'.store.enq == q.store.enq
      && (count > 0 ==> q'.store.consumers[t].got == q.store.enq[q.tickets.head..q.tickets.head + count])
      && n <= 9 + 5 * count
  {
    hide Queue.Inv, Queue.Step, Queue.Execute, Tickets.StepThread, Tickets.Inv;
    var e := Queue.Dequeue(t, max);
    QueueFacts(q);
    Tickets.LoneSequence(q.tickets, t, max);
    if q.tickets.head == q.tickets.tail {
      DrawsItsTicket(q, t, max, 3);
      n := 3;
    } else {
      DrawsItsTicket(q, t, max, 5);
      var m := ClaimsAndMoves(Again(q, e, 5), t, max, Tickets.Min(max, q.tickets.tail - q.tickets.head));
      AgainAdds(q, e, 5, m);
      n := 5 + m;
      SixthIsLast(q.tickets, t, max);
    }
    AgainIsASchedule(q, e, n);
  }

  lemma SixthIsLast(s: Tickets.State, t: nat, max: nat)
    requires t < |s.threads|
    ensures Tickets.Alone(s, t, max, 6) == Tickets.StepThread(Tickets.Alone(s, t, max, 5), t, max)
  {
  }
}
