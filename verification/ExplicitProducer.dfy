/** A whole explicit sub-queue: the ticket protocol of `Tickets` decides which indices a dequeue gets and
    the block index of `ExplicitIndex` leads to their elements. The two share the tail and head counters,
    so the producer's publication and a consumer's claim are steps of both. */
module ExplicitProducer {
  import Tickets
  import ExplicitIndex
  import opened BlockArithmetic
  import opened Options
  import opened CallLog

  datatype State = State(tickets: Tickets.State, store: ExplicitIndex.State)

  datatype Event =
    | Enqueue(value: int)
    | Produce(ok: bool)
    | Dequeue(t: nat, max: nat)

  function Init(threads: nat, half: nat, ok: bool): State {
    State(Tickets.Init(threads), ExplicitIndex.Init(threads, half, ok))
  }

  function Step(s: State, e: Event): State {
    match e
    case Enqueue(value) => s.(store := ExplicitIndex.Step(s.store, ExplicitIndex.Enqueue(value)))
    case Produce(ok) =>
      var s' := s.(store := ExplicitIndex.Step(s.store, ExplicitIndex.Produce(ok)));
      if s.store.producer.pc.Publish? then s'.(tickets := Tickets.Step(s.tickets, Tickets.Publish(1))) else s'
    case Dequeue(t, max) =>
      if t < |s.store.consumers| && t < |s.tickets.threads| then
        if s.store.consumers[t].pc != ExplicitIndex.Idle then
          s.(store := ExplicitIndex.Step(s.store, ExplicitIndex.Consume(t)))
        else
          var s' := s.(tickets := Tickets.Step(s.tickets, Tickets.Run(t, max)));
          if s.tickets.threads[t].pc == Tickets.ClaimHead then
            s'.(store := ExplicitIndex.Step(s.store, ExplicitIndex.Claim(t, s.tickets.threads[t].actual)))
          else s'
      else s
  }

  function Execute(s: State, schedule: seq<Event>): State {
    if schedule == [] then s
    else Step(Execute(s, schedule[..|schedule| - 1]), schedule[|schedule| - 1])
  }

  /** A thread that is between dequeues, or still moving its elements out, has claimed the range that its
      last ticket got; a claim of nothing leaves no trace in the store. */
  ghost predicate Linked(l: Tickets.Local, k: ExplicitIndex.Consumer) {
    && (k.pc != ExplicitIndex.Idle ==> l.pc == Tickets.Idle && l.got > 0)
    && (l.pc == Tickets.Idle && l.got > 0 ==> k.first == l.first && k.end == l.first + l.got)
    && (l.pc != Tickets.Idle ==> l.got == 0)
  }

  ghost predicate Inv(s: State) {
    && Tickets.Inv(s.tickets) && ExplicitIndex.Inv(s.store)
    && Tickets.ClaimsRecorded(s.tickets) && ExplicitIndex.NoneLost(s.store)
    && s.tickets.tail == s.store.tail && s.tickets.head == s.store.head
    && |s.tickets.threads| == |s.store.consumers|
    && forall t :: 0 <= t < |s.store.consumers| ==> Linked(s.tickets.threads[t], s.store.consumers[t])
  }

  lemma ProducerFrame(s: ExplicitIndex.State, e: ExplicitIndex.Event)
    requires ExplicitIndex.Inv(s) && (e.Enqueue? || e.Produce?)
    ensures var s' := ExplicitIndex.Step(s, e);
      && s'.consumers == s.consumers && s'.head == s.head
      && s'.tail == s.tail + (if e.Produce? && s.producer.pc.Publish? then 1 else 0)
  {
  }

  lemma ConsumerFrame(s: ExplicitIndex.State, t: nat)
    requires ExplicitIndex.Inv(s) && t < |s.consumers|
    ensures var s' := ExplicitIndex.Step(s, ExplicitIndex.Consume(t));
      && s'.tail == s.tail && s'.head == s.head && |s'.consumers| == |s.consumers|
      && s'.consumers == s.consumers[t := s'.consumers[t]]
      && s'.consumers[t].first == s.consumers[t].first && s'.consumers[t].end == s.consumers[t].end
      && (s.consumers[t].pc == ExplicitIndex.Idle ==> s'.consumers[t] == s.consumers[t])
  {
  }

  lemma ProducerKeeps(s: State, e: Event)
    requires Inv(s) && (e.Enqueue? || e.Produce?)
    ensures Inv(Step(s, e))
  {
    var e' := if e.Enqueue? then ExplicitIndex.Enqueue(e.value) else ExplicitIndex.Produce(e.ok);
    ExplicitIndex.StepKeeps(s.store, e');
    ExplicitIndex.StepLosesNothing(s.store, e');
    ProducerFrame(s.store, e');
    Tickets.StepKeeps(s.tickets, Tickets.Publish(1));
    Tickets.StepRecords(s.tickets, Tickets.Publish(1));
  }

  /** The ticket protocol guarantees what the store asks of a claim. */
  lemma ClaimKeeps(s: State, t: nat, max: nat)
    requires Inv(s) && t < |s.store.consumers|
    requires s.store.consumers[t].pc == ExplicitIndex.Idle && s.tickets.threads[t].pc == Tickets.ClaimHead
    ensures Inv(Step(s, Dequeue(t, max)))
  {
    hide ExplicitIndex.Inv, Tickets.Inv, Tickets.ClaimsRecorded, ExplicitIndex.NoneLost;
    Tickets.ClaimFits(s.tickets, t);
    Tickets.StepKeeps(s.tickets, Tickets.Run(t, max));
    Tickets.StepRecords(s.tickets, Tickets.Run(t, max));
    ExplicitIndex.StepKeeps(s.store, ExplicitIndex.Claim(t, s.tickets.threads[t].actual));
    ExplicitIndex.StepLosesNothing(s.store, ExplicitIndex.Claim(t, s.tickets.threads[t].actual));
    assert Linked(s.tickets.threads[t], s.store.consumers[t]);
  }

  /** The store goes on with a claim. */
  lemma ConsumeKeeps(s: State, t: nat, max: nat)
    requires Inv(s) && t < |s.store.consumers| && s.store.consumers[t].pc != ExplicitIndex.Idle
    ensures Inv(Step(s, Dequeue(t, max)))
  {
    hide ExplicitIndex.Inv, Tickets.Inv, Tickets.ClaimsRecorded, ExplicitIndex.NoneLost, ExplicitIndex.Step;
    ExplicitIndex.StepKeeps(s.store, ExplicitIndex.Consume(t));
    ExplicitIndex.StepLosesNothing(s.store, ExplicitIndex.Consume(t));
    ConsumerFrame(s.store, t);
    assert Linked(s.tickets.threads[t], s.store.consumers[t]);
  }

  /** The ticket protocol moves on before a claim. */
  lemma TicketKeeps(s: State, t: nat, max: nat)
    requires Inv(s) && t < |s.store.consumers|
    requires s.store.consumers[t].pc == ExplicitIndex.Idle && s.tickets.threads[t].pc != Tickets.ClaimHead
    ensures Inv(Step(s, Dequeue(t, max)))
  {
    hide ExplicitIndex.Inv, Tickets.Inv, Tickets.ClaimsRecorded, ExplicitIndex.NoneLost;
    Tickets.StepKeeps(s.tickets, Tickets.Run(t, max));
    Tickets.StepRecords(s.tickets, Tickets.Run(t, max));
    assert Linked(s.tickets.threads[t], s.store.consumers[t]);
  }

  lemma DequeueKeeps(s: State, t: nat, max: nat)
    requires Inv(s) && t < |s.store.consumers|
    ensures Inv(Step(s, Dequeue(t, max)))
  {
    hide Inv, Step;
    if s.store.consumers[t].pc != ExplicitIndex.Idle {
      ConsumeKeeps(s, t, max);
    } else if t < |s.tickets.threads| && s.tickets.threads[t].pc == Tickets.ClaimHead {
      ClaimKeeps(s, t, max);
    } else {
      SameThreads(s);
      TicketKeeps(s, t, max);
    }
  }

  lemma SameThreads(s: State)
    requires Inv(s)
    ensures |s.tickets.threads| == |s.store.consumers|
  {
  }

  lemma {:induction false} EveryRun(threads: nat, half: nat, ok: bool, schedule: seq<Event>)
    requires half > 0 && IsPowerOfTwo(half)
    ensures Inv(Execute(Init(threads, half, ok), schedule))
  {
    if schedule == [] {
      Tickets.InitInv(threads);
      ExplicitIndex.InitInv(threads, half, ok);
    } else {
      var last := |schedule| - 1;
      var s := Execute(Init(threads, half, ok), schedule[..last]);
      EveryRun(threads, half, ok, schedule[..last]);
      match schedule[last]
      case Dequeue(t, max) => if t < |s.store.consumers| { DequeueKeeps(s, t, max); }
      case e => ProducerKeeps(s, e);
    }
  }

  /** A dequeue that has claimed something and, if `moved`, has moved it out as well. */
  predicate HasClaim(s: State, t: nat, moved: bool) {
    && t < |s.tickets.threads| && t < |s.store.consumers|
    && s.tickets.threads[t].pc == Tickets.Idle && s.tickets.threads[t].got > 0
    && (moved ==> s.store.consumers[t].pc == ExplicitIndex.Idle)
  }

  lemma ClaimDelivers(s: State, t: nat)
    requires Inv(s) && HasClaim(s, t, true)
    ensures var l := s.tickets.threads[t];
      && l.first + l.got <= s.tickets.head <= |s.store.enq|
      && s.store.consumers[t].got == s.store.enq[l.first..l.first + l.got]
      && Tickets.Inv(s.tickets) && Tickets.ClaimsRecorded(s.tickets)
  {
    var l := s.tickets.threads[t];
    assert Linked(l, s.store.consumers[t]);
    assert ExplicitIndex.ConsumerOk(s.store, s.store.consumers[t]);
    StoreLength(s.store);
    hide ExplicitIndex.Inv;
    Tickets.HeadBehindTail(s.tickets);
    Tickets.OwnRange(s.tickets, t, l.first + l.got - 1);
  }

  // The calls of enqueue.

  /** A call begins when its thread is not in another one. */
  function Begun(s: State, e: Event): Option<int> {
    if e.Enqueue? && s.store.producer.pc.Ready? then Some(e.value) else None
  }

  /** The calls of a whole run: one succeeds when the tail moves. */
  function Calls(s: State, schedule: seq<Event>): Log {
    if schedule == [] then EMPTY
    else
      var before := schedule[..|schedule| - 1];
      Observe(Calls(s, before), Begun(Execute(s, before), schedule[|before|]),
        Execute(s, schedule).store.tail != Execute(s, before).store.tail)
  }

  lemma StepRecords(s: State, e: Event, log: Log)
    requires ExplicitIndex.Recorded(s.store, log)
    ensures var s' := Step(s, e);
      ExplicitIndex.Recorded(s'.store, Observe(log, Begun(s, e), s'.store.tail != s.store.tail))
  {
    hide ExplicitIndex.Step, ExplicitIndex.Recorded, Tickets.Step;
    match e
    case Enqueue(value) => ExplicitIndex.ProducerRecords(s.store, ExplicitIndex.Enqueue(value), log);
    case Produce(ok) => ExplicitIndex.ProducerRecords(s.store, ExplicitIndex.Produce(ok), log);
    case Dequeue(t, max) =>
      ExplicitIndex.ConsumerRecords(s.store, ExplicitIndex.Consume(t), log);
      if t < |s.tickets.threads| {
        ExplicitIndex.ConsumerRecords(s.store, ExplicitIndex.Claim(t, s.tickets.threads[t].actual), log);
      }
  }

  lemma {:induction false} RunRecords(s: State, schedule: seq<Event>)
    requires s.store.enq == [] && s.store.producer.pc.Ready?
    ensures ExplicitIndex.Recorded(Execute(s, schedule).store, Calls(s, schedule))
  {
    hide Step, ExplicitIndex.Recorded, Observe;
    if schedule == [] {
      ExplicitIndex.NothingRecorded(s.store);
    } else {
      var before := schedule[..|schedule| - 1];
      RunRecords(s, before);
      StepRecords(Execute(s, before), schedule[|before|], Calls(s, before));
    }
  }

  lemma EnqueuedInOrder(threads: nat, half: nat, ok: bool, schedule: seq<Event>)
    ensures Execute(Init(threads, half, ok), schedule).store.enq == Calls(Init(threads, half, ok), schedule).succeeded
  {
    hide Execute, Calls;
    RunRecords(Init(threads, half, ok), schedule);
  }

  lemma HeadDelivers(s: State, i: nat)
    requires Inv(s)
    ensures s.tickets.head <= |s.store.enq|
    ensures i < s.tickets.head ==> Tickets.ClaimedOnce(s.tickets, i)
  {
    hide ExplicitIndex.Inv;
    StoreLength(s.store);
    Tickets.HeadBehindTail(s.tickets);
    if i < s.tickets.head {
      assert Tickets.Covers(s.tickets.tickets[s.tickets.owner[i]], i);
    }
  }

  lemma OwnIndices(s: State, t: nat, i: nat)
    requires Inv(s) && HasClaim(s, t, true)
    ensures var l := s.tickets.threads[t];
      l.first <= i < l.first + l.got ==>
        forall k :: 0 <= k < |s.tickets.tickets| ==> (Tickets.Covers(s.tickets.tickets[k], i) <==> k == l.ticket)
  {
    hide ExplicitIndex.Inv, Tickets.Inv, Tickets.Covers;
    var l := s.tickets.threads[t];
    if l.first <= i < l.first + l.got {
      Tickets.OwnRange(s.tickets, t, i);
    }
  }

  /** End to end, in every interleaving of one enqueuer with any number of single and bulk dequeuers: a
      dequeue that has finished with a count of `got` has delivered exactly the elements enqueued at the
      indices first, .., first + got - 1, which are the values of the calls of enqueue that have succeeded, and
      each of these indices was claimed by its ticket alone. */
  lemma DequeuesDeliver(threads: nat, half: nat, ok: bool, schedule: seq<Event>, t: nat, i: nat)
    requires half > 0 && IsPowerOfTwo(half)
    ensures var s := Execute(Init(threads, half, ok), schedule);
      && s.store.enq == Calls(Init(threads, half, ok), schedule).succeeded
      && s.tickets.head <= |s.store.enq|
      && (i < s.tickets.head ==> Tickets.ClaimedOnce(s.tickets, i))
      && (HasClaim(s, t, true) ==>
            var l := s.tickets.threads[t];
            && l.first + l.got <= s.tickets.head
            && s.store.consumers[t].got == s.store.enq[l.first..l.first + l.got]
            && (l.first <= i < l.first + l.got ==>
                  forall k :: 0 <= k < |s.tickets.tickets| ==> (Tickets.Covers(s.tickets.tickets[k], i) <==> k == l.ticket)))
  {
    hide Execute, Init, Calls, Inv, Tickets.ClaimedOnce, Tickets.Covers;
    EveryRun(threads, half, ok, schedule);
    EnqueuedInOrder(threads, half, ok, schedule);
    var s := Execute(Init(threads, half, ok), schedule);
    HeadDelivers(s, i);
    if HasClaim(s, t, true) {
      ClaimDelivers(s, t);
      OwnIndices(s, t, i);
    }
  }

  lemma StoreLength(s: ExplicitIndex.State)
    requires ExplicitIndex.Inv(s)
    ensures |s.enq| == s.tail
  {
  }

  /** No two dequeues, finished or still moving their elements out, have an index in common. */
  lemma DequeuesAreDisjoint(threads: nat, half: nat, ok: bool, schedule: seq<Event>, t: nat, u: nat)
    requires half > 0 && IsPowerOfTwo(half)
    ensures var s := Execute(Init(threads, half, ok), schedule);
      t != u && HasClaim(s, t, false) && HasClaim(s, u, false) ==>
        var l, m := s.tickets.threads[t], s.tickets.threads[u];
        l.first + l.got <= m.first || m.first + m.got <= l.first
  {
    EveryRun(threads, half, ok, schedule);
    var s := Execute(Init(threads, half, ok), schedule);
    if t != u && HasClaim(s, t, false) && HasClaim(s, u, false) {
      Tickets.RangesDisjoint(s.tickets, t, u);
    }
  }

  /** Nothing is lost: when no dequeue is moving elements out, every index below the head has been moved out
      of its cell and marked. */
  lemma NothingIsLost(threads: nat, half: nat, ok: bool, schedule: seq<Event>, i: nat)
    requires half > 0 && IsPowerOfTwo(half)
    ensures var s := Execute(Init(threads, half, ok), schedule);
      i < s.tickets.head && (forall t :: 0 <= t < |s.store.consumers| ==> s.store.consumers[t].pc == ExplicitIndex.Idle) ==>
        i in s.store.taken && i in s.store.done
  {
    EveryRun(threads, half, ok, schedule);
    var s := Execute(Init(threads, half, ok), schedule);
    if i < s.tickets.head && forall t :: 0 <= t < |s.store.consumers| ==> s.store.consumers[t].pc == ExplicitIndex.Idle {
      ExplicitIndex.AllDelivered(s.store, i);
    }
  }
}
