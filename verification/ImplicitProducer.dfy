/** A whole implicit sub-queue: the ticket protocol of `Tickets` decides which indices a dequeue gets and
    the block index of `ImplicitIndex` leads to their elements. The two share the tail and head counters,
    so the producer's publication and a consumer's claim are steps of both. */
module ImplicitProducer {
  import Tickets
  import ImplicitIndex
  import opened BlockArithmetic
  import opened Options
  import opened CallLog

  datatype State = State(tickets: Tickets.State, store: ImplicitIndex.State)

  datatype Event =
    | Enqueue(value: int)
    | Produce(ok: bool, pick: nat)
    | Dequeue(t: nat, max: nat)

  function Init(threads: nat, capacity: nat, ok: bool): State
    requires capacity > 0
  {
    State(Tickets.Init(threads), ImplicitIndex.Init(threads, capacity, ok))
  }

  function Step(s: State, e: Event): State {
    match e
    case Enqueue(value) => s.(store := ImplicitIndex.Step(s.store, ImplicitIndex.Enqueue(value)))
    case Produce(ok, pick) =>
      var s' := s.(store := ImplicitIndex.Step(s.store, ImplicitIndex.Produce(ok, pick)));
      if s.store.producer.pc.Publish? then s'.(tickets := Tickets.Step(s.tickets, Tickets.Publish(1))) else s'
    case Dequeue(t, max) =>
      if t < |s.store.consumers| && t < |s.tickets.threads| then
        if s.store.consumers[t].pc != ImplicitIndex.Idle then
          s.(store := ImplicitIndex.Step(s.store, ImplicitIndex.Consume(t)))
        else
          var s' := s.(tickets := Tickets.Step(s.tickets, Tickets.Run(t, max)));
          if s.tickets.threads[t].pc == Tickets.ClaimHead then
            s'.(store := ImplicitIndex.Step(s.store, ImplicitIndex.Claim(t, s.tickets.threads[t].actual)))
          else s'
      else s
  }

  function Execute(s: State, schedule: seq<Event>): State {
    if schedule == [] then s
    else Step(Execute(s, schedule[..|schedule| - 1]), schedule[|schedule| - 1])
  }

  /** A thread that is between dequeues, or still moving its elements out, has claimed the range that its
      last ticket got; a claim of nothing leaves no trace in the store. */
  ghost predicate Linked(l: Tickets.Local, k: ImplicitIndex.Consumer) {
    && (k.pc != ImplicitIndex.Idle ==> l.pc == Tickets.Idle && l.got > 0)
    && (l.pc == Tickets.Idle && l.got > 0 ==> k.first == l.first && k.end == l.first + l.got)
    && (l.pc != Tickets.Idle ==> l.got == 0)
  }

  ghost predicate Inv(s: State) {
    && Tickets.Inv(s.tickets) && ImplicitIndex.Inv(s.store)
    && Tickets.ClaimsRecorded(s.tickets) && ImplicitIndex.NoneLost(s.store)
    && s.tickets.tail == s.store.tail && s.tickets.head == s.store.head
    && |s.tickets.threads| == |s.store.consumers|
    && forall t :: 0 <= t < |s.store.consumers| ==> Linked(s.tickets.threads[t], s.store.consumers[t])
  }

  lemma ProducerFrame(s: ImplicitIndex.State, e: ImplicitIndex.Event)
    requires e.Enqueue? || e.Produce?
    ensures var s' := ImplicitIndex.Step(s, e);
      && s'.consumers == s.consumers && s'.head == s.head
      && s'.tail == s.tail + (if e.Produce? && s.producer.pc.Publish? then 1 else 0)
  {
    ImplicitIndex.ProducerLeaves(s, e);
    ImplicitIndex.OnlyPublishMovesTail(s, e);
    hide ImplicitIndex.Step;
  }

  lemma ConsumerFrame(s: ImplicitIndex.State, t: nat)
    requires t < |s.consumers|
    ensures var s' := ImplicitIndex.Step(s, ImplicitIndex.Consume(t));
      && s'.tail == s.tail && s'.head == s.head && |s'.consumers| == |s.consumers|
      && s'.consumers == s.consumers[t := s'.consumers[t]]
      && s'.consumers[t].first == s.consumers[t].first && s'.consumers[t].end == s.consumers[t].end
      && (s.consumers[t].pc == ImplicitIndex.Idle ==> s'.consumers[t] == s.consumers[t])
  {
    hide ImplicitIndex.ConsumerCanStep, ImplicitIndex.Range, ImplicitIndex.KeyAt, ImplicitIndex.ValueAt;
    match s.consumers[t].pc
    case AddCount =>
    case ClearEntry =>
    case Release =>
    case _ =>
  }

  lemma ProducerKeeps(s: State, e: Event)
    requires Inv(s) && (e.Enqueue? || e.Produce?)
    ensures Inv(Step(s, e))
  {
    var e' := if e.Enqueue? then ImplicitIndex.Enqueue(e.value) else ImplicitIndex.Produce(e.ok, e.pick);
    ImplicitIndex.StepKeeps(s.store, e');
    ImplicitIndex.StepLosesNothing(s.store, e');
    ProducerFrame(s.store, e');
    Tickets.StepKeeps(s.tickets, Tickets.Publish(1));
    Tickets.StepRecords(s.tickets, Tickets.Publish(1));
  }

  /** The ticket protocol guarantees what the store asks of a claim. */
  lemma ClaimKeeps(s: State, t: nat, max: nat)
    requires Inv(s) && t < |s.store.consumers|
    requires s.store.consumers[t].pc == ImplicitIndex.Idle && s.tickets.threads[t].pc == Tickets.ClaimHead
    ensures Inv(Step(s, Dequeue(t, max)))
  {
    hide ImplicitIndex.Inv, Tickets.Inv, Tickets.ClaimsRecorded, ImplicitIndex.NoneLost;
    Tickets.ClaimFits(s.tickets, t);
    Tickets.StepKeeps(s.tickets, Tickets.Run(t, max));
    Tickets.StepRecords(s.tickets, Tickets.Run(t, max));
    ImplicitIndex.StepKeeps(s.store, ImplicitIndex.Claim(t, s.tickets.threads[t].actual));
    ImplicitIndex.StepLosesNothing(s.store, ImplicitIndex.Claim(t, s.tickets.threads[t].actual));
    assert Linked(s.tickets.threads[t], s.store.consumers[t]);
  }

  /** The store goes on with a claim. */
  lemma ConsumeKeeps(s: State, t: nat, max: nat)
    requires Inv(s) && t < |s.store.consumers| && s.store.consumers[t].pc != ImplicitIndex.Idle
    ensures Inv(Step(s, Dequeue(t, max)))
  {
    hide ImplicitIndex.Inv, Tickets.Inv, Tickets.ClaimsRecorded, ImplicitIndex.NoneLost, ImplicitIndex.Step;
    ImplicitIndex.StepKeeps(s.store, ImplicitIndex.Consume(t));
    ImplicitIndex.StepLosesNothing(s.store, ImplicitIndex.Consume(t));
    ConsumerFrame(s.store, t);
    assert Linked(s.tickets.threads[t], s.store.consumers[t]);
  }

  /** The ticket protocol moves on before a claim. */
  lemma TicketKeeps(s: State, t: nat, max: nat)
    requires Inv(s) && t < |s.store.consumers|
    requires s.store.consumers[t].pc == ImplicitIndex.Idle && s.tickets.threads[t].pc != Tickets.ClaimHead
    ensures Inv(Step(s, Dequeue(t, max)))
  {
    hide ImplicitIndex.Inv, Tickets.Inv, Tickets.ClaimsRecorded, ImplicitIndex.NoneLost;
    Tickets.StepKeeps(s.tickets, Tickets.Run(t, max));
    Tickets.StepRecords(s.tickets, Tickets.Run(t, max));
    assert Linked(s.tickets.threads[t], s.store.consumers[t]);
  }

  lemma DequeueKeeps(s: State, t: nat, max: nat)
    requires Inv(s) && t < |s.store.consumers|
    ensures Inv(Step(s, Dequeue(t, max)))
  {
    hide Inv, Step;
    if s.store.consumers[t].pc != ImplicitIndex.Idle {
      ConsumeKeeps(s, t, max);
    } else if t < |s.tickets.threads| && s.tickets.threads[t].pc == Tickets.ClaimHead {
      ClaimKeeps(s, t, max);
    } else {
      SameThreads(s);
      TicketKeeps(s, t, max);
    }
  }

  lemma SameThreads(s: State)
    requires Inv(s)
    ensures |s.tickets.threads| == |s.store.consumers|
  {
  }

  lemma {:induction false} EveryRun(threads: nat, capacity: nat, ok: bool, schedule: seq<Event>)
    requires capacity > 0 && IsPowerOfTwo(capacity)
    ensures Inv(Execute(Init(threads, capacity, ok), schedule))
  {
    if schedule == [] {
      Tickets.InitInv(threads);
      ImplicitIndex.InitInv(threads, capacity, ok);
    } else {
      var last := |schedule| - 1;
      var s := Execute(Init(threads, capacity, ok), schedule[..last]);
      EveryRun(threads, capacity, ok, schedule[..last]);
      match schedule[last]
      case Dequeue(t, max) => if t < |s.store.consumers| { DequeueKeeps(s, t, max); }
      case e => ProducerKeeps(s, e);
    }
  }

  /** A dequeue that has claimed something and, if `moved`, has moved it out as well. */
  predicate HasClaim(s: State, t: nat, moved: bool) {
    && t < |s.tickets.threads| && t < |s.store.consumers|
    && s.tickets.threads[t].pc == Tickets.Idle && s.tickets.threads[t].got > 0
    && (moved ==> s.store.consumers[t].pc == ImplicitIndex.Idle)
  }

  lemma ClaimDelivers(s: State, t: nat)
    requires Inv(s) && HasClaim(s, t, true)
    ensures var l := s.tickets.threads[t];
      && l.first + l.got <= s.tickets.head <= |s.store.enq|
      && s.store.consumers[t].got == s.store.enq[l.first..l.first + l.got]
      && Tickets.Inv(s.tickets) && Tickets.ClaimsRecorded(s.tickets)
  {
    var l := s.tickets.threads[t];
    assert Linked(l, s.store.consumers[t]);
    assert ImplicitIndex.ConsumerOk(s.store, t, s.store.consumers[t]);
    StoreLength(s.store);
    hide ImplicitIndex.Inv;
    Tickets.HeadBehindTail(s.tickets);
    Tickets.OwnRange(s.tickets, t, l.first + l.got - 1);
  }

  // The calls of enqueue.

  /** A call begins when its thread is not in another one. */
  function Begun(s: State, e: Event): Option<int> {
    if e.Enqueue? && s.store.producer.pc.Ready? then Some(e.value) else None
  }

  /** The calls of a whole run: one succeeds when the tail moves. */
  function Calls(s: State, schedule: seq<Event>): Log {
    if schedule == [] then EMPTY
    else
      var before := schedule[..|schedule| - 1];
      Observe(Calls(s, before), Begun(Execute(s, before), schedule[|before|]),
        Execute(s, schedule).store.tail != Execute(s, before).store.tail)
  }

  lemma StepRecords(s: State, e: Event, log: Log)
    requires ImplicitIndex.Recorded(s.store, log)
    ensures var s' := Step(s, e);
      ImplicitIndex.Recorded(s'.store, Observe(log, Begun(s, e), s'.store.tail != s.store.tail))
  {
    hide ImplicitIndex.Step, ImplicitIndex.Recorded, Tickets.Step;
    match e
    case Enqueue(value) => ImplicitIndex.ProducerRecords(s.store, ImplicitIndex.Enqueue(value), log);
    case Produce(ok, pick) => ImplicitIndex.ProducerRecords(s.store, ImplicitIndex.Produce(ok, pick), log);
    case Dequeue(t, max) =>
      ImplicitIndex.ConsumerRecords(s.store, ImplicitIndex.Consume(t), log);
      if t < |s.tickets.threads| {
        ImplicitIndex.ConsumerRecords(s.store, ImplicitIndex.Claim(t, s.tickets.threads[t].actual), log);
      }
  }

  lemma {:induction false} RunRecords(s: State, schedule: seq<Event>)
    requires s.store.enq == [] && s.store.producer.pc.Ready?
    ensures ImplicitIndex.Recorded(Execute(s, schedule).store, Calls(s, schedule))
  {
    hide Step, ImplicitIndex.Recorded, Observe;
    if schedule == [] {
      ImplicitIndex.NothingRecorded(s.store);
    } else {
      var before := schedule[..|schedule| - 1];
      RunRecords(s, before);
      StepRecords(Execute(s, before), schedule[|before|], Calls(s, before));
    }
  }

  lemma EnqueuedInOrder(threads: nat, capacity: nat, ok: bool, schedule: seq<Event>)
    requires capacity > 0
    ensures Execute(Init(threads, capacity, ok), schedule).store.enq == Calls(Init(threads, capacity, ok), schedule).succeeded
  {
    hide Execute, Calls;
    RunRecords(Init(threads, capacity, ok), schedule);
  }

  lemma HeadDelivers(s: State, i: nat)
    requires Inv(s)
    ensures s.tickets.head <= |s.store.enq|
    ensures i < s.tickets.head ==> Tickets.ClaimedOnce(s.tickets, i)
  {
    hide ImplicitIndex.Inv;
    StoreLength(s.store);
    Tickets.HeadBehindTail(s.tickets);
    if i < s.tickets.head {
      assert Tickets.Covers(s.tickets.tickets[s.tickets.owner[i]], i);
    }
  }

  lemma OwnIndices(s: State, t: nat, i: nat)
    requires Inv(s) && HasClaim(s, t, true)
    ensures var l := s.tickets.threads[t];
      l.first <= i < l.first + l.got ==>
        forall k :: 0 <= k < |s.tickets.tickets| ==> (Tickets.Covers(s.tickets.tickets[k], i) <==> k == l.ticket)
  {
    hide ImplicitIndex.Inv, Tickets.Inv, Tickets.Covers;
    var l := s.tickets.threads[t];
    if l.first <= i < l.first + l.got {
      Tickets.OwnRange(s.tickets, t, i);
    }
  }

  /** End to end, in every interleaving of one enqueuer with any number of single and bulk dequeuers: a
      dequeue that has finished with a count of `got` has delivered exactly the elements enqueued at the
      indices first, .., first + got - 1, which are the values of the calls of enqueue that have succeeded, and
      each of these indices was claimed by its ticket alone. */
  lemma DequeuesDeliver(threads: nat, capacity: nat, ok: bool, schedule: seq<Event>, t: nat, i: nat)
    requires capacity > 0 && IsPowerOfTwo(capacity)
    ensures var s := Execute(Init(threads, capacity, ok), schedule);
      && s.store.enq == Calls(Init(threads, capacity, ok), schedule).succeeded
      && s.tickets.head <= |s.store.enq|
      && (i < s.tickets.head ==> Tickets.ClaimedOnce(s.tickets, i))
      && (HasClaim(s, t, true) ==>
            var l := s.tickets.threads[t];
            && l.first + l.got <= s.tickets.head
            && s.store.consumers[t].got == s.store.enq[l.first..l.first + l.got]
            && (l.first <= i < l.first + l.got ==>
                  forall k :: 0 <= k < |s.tickets.tickets| ==> (Tickets.Covers(s.tickets.tickets[k], i) <==> k == l.ticket)))
  {
    hide Execute, Init, Calls, Inv, Tickets.ClaimedOnce, Tickets.Covers;
    EveryRun(threads, capacity, ok, schedule);
    EnqueuedInOrder(threads, capacity, ok, schedule);
    var s := Execute(Init(threads, capacity, ok), schedule);
    HeadDelivers(s, i);
    if HasClaim(s, t, true) {
      ClaimDelivers(s, t);
      OwnIndices(s, t, i);
    }
  }

  lemma StoreLength(s: ImplicitIndex.State)
    requires ImplicitIndex.Inv(s)
    ensures |s.enq| == s.tail
  {
  }

  /** No two dequeues, finished or still moving their elements out, have an index in common. */
  lemma DequeuesAreDisjoint(threads: nat, capacity: nat, ok: bool, schedule: seq<Event>, t: nat, u: nat)
    requires capacity > 0 && IsPowerOfTwo(capacity)
    ensures var s := Execute(Init(threads, capacity, ok), schedule);
      t != u && HasClaim(s, t, false) && HasClaim(s, u, false) ==>
        var l, m := s.tickets.threads[t], s.tickets.threads[u];
        l.first + l.got <= m.first || m.first + m.got <= l.first
  {
    EveryRun(threads, capacity, ok, schedule);
    var s := Execute(Init(threads, capacity, ok), schedule);
    if t != u && HasClaim(s, t, false) && HasClaim(s, u, false) {
      Tickets.RangesDisjoint(s.tickets, t, u);
    }
  }

  /** Nothing is lost: when no dequeue is moving elements out, every index below the head has been moved out
      of its cell and marked. */
  lemma NothingIsLost(threads: nat, capacity: nat, ok: bool, schedule: seq<Event>, i: nat)
    requires capacity > 0 && IsPowerOfTwo(capacity)
    ensures var s := Execute(Init(threads, capacity, ok), schedule);
      i < s.tickets.head && (forall t :: 0 <= t < |s.store.consumers| ==> s.store.consumers[t].pc == ImplicitIndex.Idle) ==>
        i in s.store.taken && i in s.store.done
  {
    EveryRun(threads, capacity, ok, schedule);
    var s := Execute(Init(threads, capacity, ok), schedule);
    if i < s.tickets.head && forall t :: 0 <= t < |s.store.consumers| ==> s.store.consumers[t].pc == ImplicitIndex.Idle {
      ImplicitIndex.AllDelivered(s.store, i);
    }
  }
}
