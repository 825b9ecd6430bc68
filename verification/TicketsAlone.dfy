/** How much a consumer of one sub-queue comes back with: what a ticket is granted is settled by the
    tail its thread sees after drawing it, and a thread that then goes on alone takes exactly that. */
module TicketsAlone {
  import opened Tickets

  /** What the tickets drawn before the k-th leave below the tail, by the overcommit the drawer of the
      k-th had seen. */
  function Left(s: State, k: nat): int
    requires k < |s.tickets|
  {
    s.tail - (Sum(s.tickets, Width, k) - s.tickets[k].seen)
  }

  /** As much of that as the ticket asks for. */
  function Share(s: State, k: nat): nat
    requires k < |s.tickets|
  {
    if Left(s, k) <= 0 then 0 else Min(s.tickets[k].width, Left(s, k))
  }

  ghost predicate KnowsItsTicket(s: State, l: Local) {
    && l.ticket < |s.tickets| && l.desired == s.tickets[l.ticket].width
    && l.myCount - l.overcommit == Sum(s.tickets, Width, l.ticket) - s.tickets[l.ticket].seen
  }

  lemma HoldsTicket(s: State, t: nat)
    requires Inv(s) && t < |s.threads| && Holding(s.threads[t].pc)
    ensures KnowsItsTicket(s, s.threads[t])
  {
    assert ThreadOk(s, s.threads[t]);
  }

  /** How many elements a schedule publishes. */
  function Published(schedule: seq<Event>): nat {
    if schedule == [] then 0
    else
      Published(schedule[..|schedule| - 1])
      + match schedule[|schedule| - 1]
        case Publish(count) => count
        case Run(_, _) => 0
  }

  /** The tail is what was published, however the consumers move. */
  lemma {:induction false} TailIsPublished(n: nat, schedule: seq<Event>)
    ensures Execute(Init(n), schedule).tail == Published(schedule)
  {
    if schedule != [] {
      TailIsPublished(n, schedule[..|schedule| - 1]);
    }
  }

  /** The step in which thread t reads the tail again. */
  predicate Decides(s: State, e: Event) {
    e.Run? && e.t < |s.threads| && s.threads[e.t].pc == ReadTail
  }

  /** A drawn ticket is granted its share of what is left when its thread reads the tail, by that step
      and by no other. */
  lemma GrantedOnce(s: State, e: Event, k: nat)
    requires Inv(s) && k < |s.tickets|
    ensures k < |Step(s, e).tickets|
    ensures Step(s, e).tickets[k].granted ==
      if Decides(s, e) && s.threads[e.t].ticket == k then Share(s, k) else s.tickets[k].granted
  {
    if e.Run? && e.t < |s.threads| && Holding(s.threads[e.t].pc) {
      HoldsTicket(s, e.t);
      assert ThreadOk(s, s.threads[e.t]);
    }
  }

  /** A ticket nobody holds any more took all it was granted and handed back the rest. */
  lemma TakesItsGrant(n: nat, schedule: seq<Event>, k: nat)
    ensures var s := Execute(Init(n), schedule);
      k < |s.tickets| && !Held(s, k) ==>
        s.tickets[k].claimed == s.tickets[k].granted && s.tickets[k].granted + s.tickets[k].returned == s.tickets[k].width
  {
    EveryRun(n, schedule);
  }

  /** How many accesses a thread makes from reading the tail on. */
  function StepsToFinish(s: State, k: nat): nat
    requires k < |s.tickets|
  {
    if 0 < Left(s, k) < s.tickets[k].width then 3 else 2
  }

  lemma FinishesWithNothing(s: State, t: nat, k: nat, max: nat)
    requires t < |s.threads| && s.threads[t].pc == ReadTail && s.threads[t].ticket == k < |s.tickets|
    requires KnowsItsTicket(s, s.threads[t]) && Left(s, k) <= 0
    requires s.threads[t].got == 0
    ensures FinishedAs(s, Alone(s, t, max, 2), t, k)
  {
    hide Sum;
    var s1 := StepThread(s, t, max);
    assert Alone(s, t, max, 1) == s1;
    assert Alone(s, t, max, 2) == StepThread(s1, t, max);
    assert s.owner == s.owner + Repeat(k, 0);
  }

  lemma FinishesWithAPart(s: State, t: nat, k: nat, max: nat)
    requires t < |s.threads| && s.threads[t].pc == ReadTail && s.threads[t].ticket == k < |s.tickets|
    requires KnowsItsTicket(s, s.threads[t]) && 0 < Left(s, k) < s.tickets[k].width
    ensures FinishedAs(s, Alone(s, t, max, 3), t, k)
  {
    hide Sum;
    var s1 := StepThread(s, t, max);
    var s2 := StepThread(s1, t, max);
    assert Alone(s, t, max, 1) == s1;
    assert Alone(s, t, max, 2) == s2;
    assert Alone(s, t, max, 3) == StepThread(s2, t, max);
  }

  lemma FinishesWithAll(s: State, t: nat, k: nat, max: nat)
    requires t < |s.threads| && s.threads[t].pc == ReadTail && s.threads[t].ticket == k < |s.tickets|
    requires KnowsItsTicket(s, s.threads[t]) && 0 < Left(s, k) && s.tickets[k].width <= Left(s, k)
    ensures FinishedAs(s, Alone(s, t, max, 2), t, k)
  {
    hide Sum;
    var s1 := StepThread(s, t, max);
    assert Alone(s, t, max, 1) == s1;
    assert Alone(s, t, max, 2) == StepThread(s1, t, max);
  }

  /** A thread that has drawn its ticket and goes on alone, whatever the others are in the middle of:
      it comes back with exactly its share, taken at the head, and has handed the rest back. */
  lemma LoneFinish(s: State, t: nat, max: nat)
    requires Inv(s) && ClaimsRecorded(s) && t < |s.threads| && s.threads[t].pc == ReadTail
    ensures var k := s.threads[t].ticket;
      && k < |s.tickets|
      && FinishedAs(s, Execute(s, Turns(t, max, StepsToFinish(s, k))), t, k)
  {
    HoldsTicket(s, t);
    var k := s.threads[t].ticket;
    assert RecordOk(s.tickets, s.threads[t]);
    AloneIsASchedule(s, t, max, StepsToFinish(s, k));
    hide Inv, ClaimsRecorded, RecordOk, StepThread, FinishedAs;
    if Left(s, k) <= 0 {
      FinishesWithNothing(s, t, k, max);
    } else if Left(s, k) < s.tickets[k].width {
      FinishesWithAPart(s, t, k, max);
    } else {
      FinishesWithAll(s, t, k, max);
    }
  }

  ghost predicate FinishedAs(s: State, e: State, t: nat, k: nat)
    requires t < |s.threads| && k < |s.tickets|
  {
    && |e.threads| == |s.threads|
    && (forall u :: 0 <= u < |s.threads| && u != t ==> e.threads[u] == s.threads[u])
    && e.threads[t].pc == Idle && e.threads[t].got == Share(s, k)
    && (Share(s, k) > 0 ==> e.threads[t].first == s.head)
    && e.owner == s.owner + Repeat(k, Share(s, k))
    && e.head == s.head + Share(s, k)
    && e.overcommit == s.overcommit + s.tickets[k].width - Share(s, k)
    && e.optimistic == s.optimistic && e.tail == s.tail
  }
}
