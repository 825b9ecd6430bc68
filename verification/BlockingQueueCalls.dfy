/** What the callers of the blocking queue get: what a dequeue returns in terms of what it was asked for, and
    what one call achieves while the other threads pause. */
module BlockingQueueCalls {
  import Sema = LightweightSemaphore
  import SemaphoreAlone
  import Tickets
  import opened BlockingQueue

  // What was asked for.

  datatype Ask = Ask(max: nat, timeout: Sema.Timeout, retry: bool)

  /** The last dequeue that thread t has been asked for. */
  function LastAsk(s: State, schedule: seq<Event>, t: nat): Ask {
    if schedule == [] then Ask(0, Sema.TryOnly, false)
    else
      var before, e := schedule[..|schedule| - 1], schedule[|schedule| - 1];
      Asked(Execute(s, before), e, t, LastAsk(s, before, t))
  }

  function Asked(s: State, e: Event, t: nat, ask: Ask): Ask {
    if e.t == t < |s.threads| && s.threads[t].phase == Idle && e.action.Dequeue?
    then Ask(e.action.max, e.action.timeout, e.action.retry) else ask
  }

  /** How far the thread has got with it. */
  ghost predicate AskOk(v: View, ask: Ask) {
    match v.l.phase
    case Acquiring =>
      && v.l.max == ask.max && v.l.timeout == ask.timeout && v.l.retry == ask.retry
      && v.w.max == ask.max && v.w.timeout == ask.timeout && Sema.InWait(v.w.pc)
    case _ => v.l.want <= ask.max
  }

  ghost predicate AsksOk(s: State, t: nat, ask: Ask) {
    Shaped(s) && t < |s.threads| && AskOk(View(s.threads[t], s.sema.threads[t]), ask)
  }

  lemma SemaTouchesOne(s: Sema.State, u: nat, request: Sema.Request, choice: bool)
    requires u < |s.threads|
    ensures var s' := Sema.StepThread(s, u, request, choice); |s'.threads| == |s.threads| && s'.threads == s.threads[u := s'.threads[u]]
  {
  }

  /** Only thread u has moved. */
  ghost predicate MovesOnly(s: State, s': State, u: nat)
    requires u < |s.threads| == |s.sema.threads|
  {
    && |s'.threads| == |s.threads| == |s'.sema.threads|
    && s'.threads == s.threads[u := s'.threads[u]] && s'.sema.threads == s.sema.threads[u := s'.sema.threads[u]]
  }

  lemma IdleMoves(s: State, u: nat, action: Action)
    requires Shaped(s) && u < |s.threads| && s.threads[u].phase in {Idle, Releasing}
    ensures MovesOnly(s, StepThread(s, u, action), u)
  {
    hide Sema.StepThread, Tickets.Step;
    SemaTouchesOne(s.sema, u, Sema.Signal(0), false);
    match action {
      case Enqueue(_, amount) => SemaTouchesOne(s.sema, u, Sema.Signal(amount), false);
      case Dequeue(max, timeout, _) => SemaTouchesOne(s.sema, u, Sema.WaitMany(max, timeout), false);
      case _ =>
    }
  }

  lemma WaitMoves(s: State, u: nat, action: Action)
    requires Shaped(s) && u < |s.threads| && s.threads[u].phase == Acquiring
    ensures MovesOnly(s, StepThread(s, u, action), u)
  {
    hide Sema.StepThread;
    var choice := action.Continue? && action.choice;
    var l, sema := s.threads[u], Sema.StepThread(s.sema, u, Sema.Signal(0), choice);
    SemaTouchesOne(s.sema, u, Sema.Signal(0), choice);
    SemaTouchesOne(sema, u, Sema.WaitMany(l.max, l.timeout), false);
  }

  lemma FetchMoves(s: State, u: nat, action: Action)
    requires Shaped(s) && u < |s.threads| && s.threads[u].phase in {Choosing, Taking}
    ensures MovesOnly(s, StepThread(s, u, action), u)
  {
    hide Tickets.StepThread;
  }

  /** A step of another thread. */
  lemma OtherThread(s: State, e: Event, t: nat)
    requires Inv(s) && t < |s.threads| && e.t != t
    ensures var s' := Step(s, e);
      && Inv(s') && |s'.threads| == |s.threads| == |s.sema.threads| == |s'.sema.threads|
      && s'.threads[t] == s.threads[t] && s'.sema.threads[t] == s.sema.threads[t]
  {
    hide Inv, StepThread;
    StepKeeps(s, e);
    ShapeOf(s);
    if e.t < |s.threads| {
      match s.threads[e.t].phase
      case Idle => IdleMoves(s, e.t, e.action);
      case Releasing => IdleMoves(s, e.t, e.action);
      case Acquiring => WaitMoves(s, e.t, e.action);
      case _ => FetchMoves(s, e.t, e.action);
    }
  }

  lemma ShapeOf(s: State)
    requires Inv(s)
    ensures Shaped(s) && |s.sema.threads| == |s.threads|
  {
  }

  // The answer.

  /** How a wait ends for the caller: with all that was asked for or with no token left free; and with nothing,
      which ends the call unless it retries, only as a try that saw no token free or by giving the decrement
      back at a negative count. */
  ghost predicate WaitEnds(s: State, s': State, t: nat, ask: Ask)
    requires t < |s.threads| && t < |s'.threads|
  {
    var want := s'.threads[t].want;
    && 0 <= want <= ask.max && (want == ask.max || s'.sema.count <= 0)
    && (s'.threads[t].phase == Choosing <==> want > 0)
    && (want == 0 ==>
          && s'.threads[t].phase == Idle && s'.threads[t].count == 0 && !ask.retry
          && (ask.max > 0 ==>
                || (ask.timeout == Sema.TryOnly && s.sema.count <= 0 && s'.sema.count == s.sema.count)
                || (ask.timeout != Sema.TryOnly && s.sema.count < 0 && s'.sema.count == s.sema.count + 1)))
  }

  /** One step of the thread itself, as far as its request goes. */
  ghost predicate Answers(s: State, e: Event, ask: Ask)
    requires e.t < |s.threads|
  {
    var s', ask' := Step(s, e), Asked(s, e, e.t, ask);
    && AsksOk(s', e.t, ask')
    && (s.threads[e.t].phase == Acquiring && s'.threads[e.t].phase != Acquiring ==> WaitEnds(s, s', e.t, ask))
  }

  lemma IdleAnswers(s: State, e: Event, ask: Ask)
    requires Inv(s) && AsksOk(s, e.t, ask) && s.threads[e.t].phase in {Idle, Releasing}
    ensures Answers(s, e, ask)
  {
    StepKeeps(s, e);
    assert ThreadOk(s, e.t);
    hide Inv, Tickets.Step;
  }

  lemma FetchAnswers(s: State, e: Event, ask: Ask)
    requires Inv(s) && AsksOk(s, e.t, ask) && s.threads[e.t].phase in {Choosing, Taking}
    ensures Answers(s, e, ask)
  {
    hide Inv, Tickets.StepThread, Shaped;
    StepKeeps(s, e);
    ShapeOf(Step(s, e));
    ShapeOf(s);
  }

  /** What a step of a wait makes of the thread. */
  lemma WaitStep(s: State, e: Event)
    requires Shaped(s) && e.t < |s.threads| && s.threads[e.t].phase == Acquiring
    ensures var sema := Sema.StepThread(s.sema, e.t, Sema.Signal(0), e.action.Continue? && e.action.choice);
      var l, w := s.threads[e.t], sema.threads[e.t];
      Step(s, e) ==
        if w.pc != Sema.Idle then s.(sema := sema)
        else if w.got == 0 && l.retry then s.(sema := Sema.StepThread(sema, e.t, Sema.WaitMany(l.max, l.timeout), false))
        else s.(sema := sema, threads := s.threads[e.t := l.(phase := if w.got == 0 then Idle else Choosing, want := w.got)])
  {
    hide Sema.StepThread;
  }

  /** What a step of the semaphore's wait means for the request. */
  lemma SemaAnswers(s: Sema.State, t: nat, choice: bool)
    requires Sema.Inv(s) && t < |s.threads| && Sema.InWait(s.threads[t].pc)
    ensures var s' := Sema.StepThread(s, t, Sema.Signal(0), choice); var w, w' := s.threads[t], s'.threads[t];
      && |s'.threads| == |s.threads| && s'.threads == s.threads[t := w'] && w'.max == w.max && w'.timeout == w.timeout
      && (w'.pc == Sema.Idle || Sema.InWait(w'.pc))
      && (w'.pc == Sema.Idle ==>
            && 0 <= w'.got <= w.max && (w'.got == w.max || s'.count <= 0)
            && (w'.got == 0 && w.max > 0 ==>
                  || (w.timeout == Sema.TryOnly && s.count <= 0 && s'.count == s.count)
                  || (w.timeout != Sema.TryOnly && s.count < 0 && s'.count == s.count + 1)))
  {
    hide Sema.Inv, Sema.StepThread, Sema.InWait;
    Sema.WaitGoesOn(s, Sema.Event(t, Sema.Signal(0), choice));
    SemaTouchesOne(s, t, Sema.Signal(0), choice);
    StaysInWait(s, t, choice);
  }

  lemma WaitAnswers(s: State, e: Event, ask: Ask)
    requires Inv(s) && AsksOk(s, e.t, ask) && s.threads[e.t].phase == Acquiring
    ensures Answers(s, e, ask)
  {
    hide Inv, Shaped, Step, Sema.StepThread, Sema.Inv, Sema.InWait;
    StepKeeps(s, e);
    ShapeOf(s);
    ShapeOf(Step(s, e));
    SemaInv(s);
    NoCountYet(s, e.t);
    WaitStep(s, e);
    var choice := e.action.Continue? && e.action.choice;
    var l, sema := s.threads[e.t], Sema.StepThread(s.sema, e.t, Sema.Signal(0), choice);
    SemaAnswers(s.sema, e.t, choice);
    if sema.threads[e.t].pc == Sema.Idle {
      StartsWait(sema, e.t, l.max, l.timeout);
      SemaTouchesOne(sema, e.t, Sema.WaitMany(l.max, l.timeout), false);
    }
  }

  lemma SemaInv(s: State)
    requires Inv(s)
    ensures Sema.Inv(s.sema)
  {
  }

  lemma NoCountYet(s: State, t: nat)
    requires Inv(s) && t < |s.threads| && s.threads[t].phase == Acquiring
    ensures s.threads[t].count == 0
  {
    assert ThreadOk(s, t);
  }

  lemma StaysInWait(s: Sema.State, t: nat, choice: bool)
    requires t < |s.threads| && Sema.InWait(s.threads[t].pc)
    ensures var pc := Sema.StepThread(s, t, Sema.Signal(0), choice).threads[t].pc; pc == Sema.Idle || Sema.InWait(pc)
  {
  }

  lemma StartsWait(s: Sema.State, t: nat, max: nat, timeout: Sema.Timeout)
    requires t < |s.threads| && s.threads[t].pc == Sema.Idle
    ensures var w := Sema.StepThread(s, t, Sema.WaitMany(max, timeout), false).threads[t];
      w.max == max && w.timeout == timeout && Sema.InWait(w.pc)
  {
  }

  lemma StepAnswers(s: State, e: Event, ask: Ask)
    requires Inv(s) && AsksOk(s, e.t, ask)
    ensures Answers(s, e, ask)
  {
    hide Inv, Answers, Step;
    match s.threads[e.t].phase
    case Idle => IdleAnswers(s, e, ask);
    case Releasing => IdleAnswers(s, e, ask);
    case Acquiring => WaitAnswers(s, e, ask);
    case _ => FetchAnswers(s, e, ask);
  }

  lemma {:induction false} RunAsks(n: nat, subqueues: nat, schedule: seq<Event>, t: nat)
    requires t < n
    ensures AsksOk(Execute(Init(n, subqueues), schedule), t, LastAsk(Init(n, subqueues), schedule, t))
  {
    hide Inv, Step, AskOk;
    var s0 := Init(n, subqueues);
    if schedule == [] {
      NothingAsked(n, subqueues, t);
    } else {
      var before, e := schedule[..|schedule| - 1], schedule[|schedule| - 1];
      RunAsks(n, subqueues, before, t);
      EveryRun(n, subqueues, before);
      if e.t == t {
        StepAnswers(Execute(s0, before), e, LastAsk(s0, before, t));
      } else {
        OtherThread(Execute(s0, before), e, t);
        ShapeOf(Step(Execute(s0, before), e));
      }
    }
  }

  lemma NothingAsked(n: nat, subqueues: nat, t: nat)
    requires t < n
    ensures AsksOk(Init(n, subqueues), t, Ask(0, Sema.TryOnly, false))
  {
  }

  /** In every run: how the wait of a dequeue ends, in terms of what the dequeue was asked for; and a dequeue that
      is through has returned no more than that. */
  lemma DequeueAnswersItsCaller(n: nat, subqueues: nat, schedule: seq<Event>, e: Event)
    ensures var s := Execute(Init(n, subqueues), schedule); var s' := Step(s, e);
      var ask := LastAsk(Init(n, subqueues), schedule, e.t);
      e.t < n && |s.threads| == n ==>
        && (s.threads[e.t].phase == Acquiring && e.t < |s'.threads| && s'.threads[e.t].phase != Acquiring ==> WaitEnds(s, s', e.t, ask))
        && (s.threads[e.t].phase in {Choosing, Taking} ==> s.threads[e.t].want <= ask.max)
  {
    hide Inv, Step, Asked, AskOk, WaitEnds;
    if e.t < n {
      EveryRun(n, subqueues, schedule);
      RunAsks(n, subqueues, schedule, e.t);
      StepAnswers(Execute(Init(n, subqueues), schedule), e, LastAsk(Init(n, subqueues), schedule, e.t));
      WantsAtMost(Execute(Init(n, subqueues), schedule), e.t, LastAsk(Init(n, subqueues), schedule, e.t));
    }
  }

  lemma WantsAtMost(s: State, t: nat, ask: Ask)
    requires AsksOk(s, t, ask)
    ensures s.threads[t].phase in {Choosing, Taking} ==> s.threads[t].want <= ask.max
  {
  }

  // One call alone.

  /** n accesses of thread t. */
  function Waiting(t: nat, n: nat): seq<Event> {
    seq(n, _ => Event(t, Continue(false, 0)))
  }

  /** The last access of the wait, if it has got something. */
  lemma WaitSucceeds(s: State, t: nat)
    requires Inv(s) && t < |s.threads| && s.threads[t].phase == Acquiring
    requires var w := Sema.StepThread(s.sema, t, Sema.Signal(0), false).threads[t]; w.pc == Sema.Idle && w.got > 0
    ensures var s' := Step(s, Event(t, Continue(false, 0))); var sema := Sema.StepThread(s.sema, t, Sema.Signal(0), false);
      && Inv(s') && s'.inner == s.inner && s'.sema == sema && |s'.threads| == |s.threads|
      && s'.threads == s.threads[t := s'.threads[t]]
      && s'.threads[t].phase == Choosing && s'.threads[t].want == sema.threads[t].got
  {
    hide Inv, Step, Shaped, Sema.StepThread;
    StepKeeps(s, Event(t, Continue(false, 0)));
    ShapeOf(s);
    WaitStep(s, Event(t, Continue(false, 0)));
  }

  lemma DequeueBegins(s: State, t: nat, max: nat, timeout: Sema.Timeout, retry: bool)
    requires Inv(s) && t < |s.threads| && s.threads[t].phase == Idle
    ensures var s' := Step(s, Event(t, Dequeue(max, timeout, retry)));
      && Inv(s') && s'.inner == s.inner && |s'.threads| == |s.threads| && s'.threads == s.threads[t := s'.threads[t]]
      && s'.threads[t].phase == Acquiring && |s'.sema.threads| == |s.threads|
      && s'.sema.threads[t].pc == Sema.TryLoad && s'.sema.threads[t].max == max && s'.sema.threads[t].got == 0
      && s'.sema.count == s.sema.count
  {
    StepKeeps(s, Event(t, Dequeue(max, timeout, retry)));
    assert ThreadOk(s, t);
    hide Inv;
  }

  lemma TryTakes(s: Sema.State, t: nat)
    requires t < |s.threads| && s.threads[t].pc == Sema.TryLoad && s.threads[t].got == 0 && s.count > 0 && s.threads[t].max > 0
    ensures var s1 := Sema.StepThread(s, t, Sema.Signal(0), false); var s2 := Sema.StepThread(s1, t, Sema.Signal(0), false);
      && s1.threads[t].pc == Sema.TryCas
      && s2.threads[t].pc == Sema.Idle && s2.threads[t].got == SemaphoreAlone.Least(s.threads[t].max, s.count)
  {
  }

  /** The wait of a dequeue that finds tokens free takes as many as it asked for, or all, with its third access. */
  lemma DequeueWaits(s: State, t: nat, max: nat, timeout: Sema.Timeout, retry: bool)
    requires Inv(s) && t < |s.threads| && s.threads[t].phase == Idle && s.sema.count > 0 && max > 0
    ensures var e := Event(t, Continue(false, 0));
      var s' := Execute(s, [Event(t, Dequeue(max, timeout, retry)), e, e]);
      && Inv(s') && s'.inner == s.inner && |s'.threads| == |s.threads| && s'.threads == s.threads[t := s'.threads[t]]
      && s'.threads[t].phase == Choosing && s'.threads[t].want == SemaphoreAlone.Least(max, s.sema.count)
  {
    hide Inv, Step, Shaped, Sema.StepThread;
    var b, e := Event(t, Dequeue(max, timeout, retry)), Event(t, Continue(false, 0));
    assert [b, e, e][..2] == [b, e] && [b, e][..1] == [b] && [b][..0] == [];
    assert Execute(s, [b]) == Step(s, b);
    assert Execute(s, [b, e]) == Step(Step(s, b), e);
    DequeueBegins(s, t, max, timeout, retry);
    var s1 := Step(s, b);
    TryTakes(s1.sema, t);
    ShapeOf(s1);
    WaitStep(s1, e);
    StepKeeps(s1, e);
    WaitSucceeds(Step(s1, e), t);
  }

  lemma StillNobody(s: State, s': State, t: nat)
    requires NobodyElseInside(s, t) && t < |s.threads| == |s'.threads| && s'.threads == s.threads[t := s'.threads[t]]
    ensures NobodyElseInside(s', t)
  {
  }

  /** A dequeue that begins while tokens are free, with no other dequeue inside a sub-queue, returns as many
      elements as it asked for, or as there are tokens, by its own accesses: three for its wait, then one pass
      over the sub-queues in any order. */
  lemma LoneDequeue(s: State, t: nat, max: nat, timeout: Sema.Timeout, retry: bool, order: seq<nat>) returns (own: seq<Event>)
    requires Inv(s) && NobodyElseInside(s, t) && t < |s.threads| && s.threads[t].phase == Idle
    requires s.sema.count > 0 && max > 0 && VisitsAll(order, |s.inner|)
    ensures own != [] && own[0] == Event(t, Dequeue(max, timeout, retry)) && OnlyMoves(own[1..], t)
    ensures var s' := Execute(s, own);
      && |s'.threads| == |s.threads| && s'.threads[t].phase == Idle
      && s'.threads[t].count == SemaphoreAlone.Least(max, s.sema.count)
  {
    hide Inv, Step, NobodyElseInside, OnlyMoves, VisitsAll, PassSchedule, DriveSchedule, Execute;
    var e := Event(t, Continue(false, 0));
    var wait := [Event(t, Dequeue(max, timeout, retry)), e, e];
    DequeueWaits(s, t, max, timeout, retry);
    var s1 := Execute(s, wait);
    StillNobody(s, s1, t);
    var steps := HolderCompletesFrom(s1, t, order);
    var rest := DriveSchedule(t, 0, steps) + PassSchedule(Execute(s1, DriveSchedule(t, 0, steps)), t, order);
    own := wait + rest;
    ExecuteAppend(s, wait, rest);
    assert own[1..] == [e, e] + rest;
    MoreMoves(t, e, rest);
  }

  lemma MoreMoves(t: nat, e: Event, rest: seq<Event>)
    requires OnlyMoves(rest, t) && e.t == t && e.action.Continue?
    ensures OnlyMoves([e, e] + rest, t)
  {
  }

  lemma EnqueueBegins(s: State, t: nat, q: nat, amount: nat)
    requires Inv(s) && t < |s.threads| && s.threads[t].phase == Idle && q < |s.inner|
    ensures var s' := Step(s, Event(t, Enqueue(q, amount)));
      && Inv(s') && s'.sema == Sema.Step(s.sema, Sema.Event(t, Sema.Signal(amount), false))
      && s'.inner == s.inner[q := Tickets.Step(s.inner[q], Tickets.Publish(amount))]
      && |s'.threads| == |s.threads| && s'.threads == s.threads[t := s'.threads[t]] && s'.threads[t].phase == Releasing
      && s.sema.threads[t].pc == Sema.Idle && |s.sema.threads| == |s.threads|
  {
    StepKeeps(s, Event(t, Enqueue(q, amount)));
    assert ThreadOk(s, t);
    hide Inv;
  }

  lemma ReleaseStep(s: State, t: nat)
    requires Shaped(s) && t < |s.threads| && s.threads[t].phase == Releasing
    ensures var sema := Sema.Step(s.sema, SemaphoreAlone.Turn(t));
      && |sema.threads| == |s.threads|
      && Step(s, Event(t, Continue(false, 0)))
         == s.(sema := sema, threads := s.threads[t := s.threads[t].(phase := if sema.threads[t].pc == Sema.Idle then Idle else Releasing)])
  {
    SemaTouchesOne(s.sema, t, Sema.Signal(0), false);
    hide Sema.StepThread;
  }

  /** While thread t alone goes on with its signal, the queue follows the semaphore. */
  lemma {:induction false} Releases(s: State, t: nat, n: nat)
    requires Inv(s) && t < |s.threads| && s.threads[t].phase == Releasing && n > 0
    requires forall j :: 0 <= j < n ==> |SemaphoreAlone.Alone(s.sema, t, j).threads| == |s.threads|
                                        && SemaphoreAlone.Alone(s.sema, t, j).threads[t].pc != Sema.Idle
    ensures var sema := SemaphoreAlone.Alone(s.sema, t, n); var s' := Execute(s, Waiting(t, n));
      && Inv(s') && |sema.threads| == |s.threads|
      && s' == s.(sema := sema, threads := s.threads[t := s.threads[t].(phase := if sema.threads[t].pc == Sema.Idle then Idle else Releasing)])
  {
    hide Inv, Step, Shaped, Sema.Step, SemaphoreAlone.Alone;
    var e := Event(t, Continue(false, 0));
    var s1 := Execute(s, Waiting(t, n - 1));
    assert Waiting(t, n)[..n - 1] == Waiting(t, n - 1);
    SemaphoreAlone.First(s.sema, t);
    if n == 1 {
      assert Waiting(t, 0) == [] && s1 == s;
    } else {
      Releases(s, t, n - 1);
      SemaphoreAlone.AloneAdds(s.sema, t, n - 1, 1);
      SemaphoreAlone.First(SemaphoreAlone.Alone(s.sema, t, n - 1), t);
    }
    ShapeOf(s1);
    ReleaseStep(s1, t);
    StepKeeps(s1, e);
  }

  /** An enqueue as a schedule of one thread. */
  function Enqueueing(s: State, t: nat, q: nat, amount: nat): seq<Event> {
    var woken := SemaphoreAlone.Woken(s.sema, amount);
    [Event(t, Enqueue(q, amount))] + Waiting(t, if woken == 0 then 1 else 2 + woken)
  }

  /** The elements are stored and as many tokens are free, but for those that go to sleepers. */
  ghost predicate Enqueued(s: State, s': State, t: nat, q: nat, amount: nat)
    requires t < |s.threads| && q < |s.inner|
  {
    var woken := SemaphoreAlone.Woken(s.sema, amount);
    && |s'.threads| == |s.threads| && s'.threads[t].phase == Idle
    && s'.sema.count == s.sema.count + amount && s'.sema.kernel == s.sema.kernel + woken
    && |s'.inner| == |s.inner| && s'.inner == s.inner[q := s'.inner[q]]
    && s'.inner[q].tail == s.inner[q].tail + amount && s'.inner[q].head == s.inner[q].head
  }

  /** An enqueue that is not interrupted. */
  lemma LoneEnqueue(s: State, t: nat, q: nat, amount: nat)
    requires Inv(s) && t < |s.threads| && s.threads[t].phase == Idle && q < |s.inner|
    ensures Enqueued(s, Execute(s, Enqueueing(s, t, q, amount)), t, q, amount)
  {
    hide Inv, Step, Shaped, Sema.Step, SemaphoreAlone.Woken, SemaphoreAlone.Alone;
    var b, woken := Event(t, Enqueue(q, amount)), SemaphoreAlone.Woken(s.sema, amount);
    var n := if woken == 0 then 1 else 2 + woken;
    EnqueueBegins(s, t, q, amount);
    var s1 := Step(s, b);
    SemaphoreAlone.LoneSignal(s.sema, t, amount, false);
    Releases(s1, t, n);
    assert [b][..0] == [];
    ExecuteAppend(s, [b], Waiting(t, n));
    assert Execute(s, [b]) == s1;
  }
}
