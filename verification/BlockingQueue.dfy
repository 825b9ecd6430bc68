/** The blocking queue: a semaphore whose tokens stand for the elements of the inner queue.

    The inner queue is any number of sub-queues with the ticket protocol of module `Tickets`; the
    semaphore is that of module `LightweightSemaphore`. A step is one shared access of one of the two.
    Which sub-queue the inner `try_dequeue` turns to next is left to the schedule. */
module BlockingQueue {
  import Sema = LightweightSemaphore
  import Tickets
  import opened Tally

  /** Releasing: in sema->signal.  Acquiring: in a wait.  Choosing, Taking: in the loop around the inner
      dequeue, between two sub-queues or inside sub-queue `q`. */
  datatype Phase = Idle | Releasing | Acquiring | Choosing | Taking

  /** `want` is the number of tokens taken and `count` the number of elements fetched with them. */
  datatype Local = Local(phase: Phase, retry: bool, max: nat, timeout: Sema.Timeout, want: int, count: int, q: nat)

  datatype State = State(sema: Sema.State, inner: seq<Tickets.State>, threads: seq<Local>)

  /** `Enqueue` is the moment at which the inner enqueue publishes `amount` elements. `retry` says that
      the caller waits again when a wait came back empty-handed. */
  datatype Action =
    | Enqueue(target: nat, amount: nat)
    | Dequeue(max: nat, timeout: Sema.Timeout, retry: bool)
    | Continue(choice: bool, next: nat)

  datatype Event = Event(t: nat, action: Action)

  function Init(n: nat, subqueues: nat): State {
    State(Sema.Init(n, 0), seq(subqueues, _ => Tickets.Init(n)),
      seq(n, _ => Local(Idle, false, 0, Sema.TryOnly, 0, 0, 0)))
  }

  predicate Shaped(s: State) {
    && |s.sema.threads| == |s.threads|
    && forall q :: 0 <= q < |s.inner| ==> |s.inner[q].threads| == |s.threads|
  }

  function StepThread(s: State, t: nat, action: Action): State
    requires Shaped(s) && t < |s.threads|
  {
    var l := s.threads[t];
    match l.phase
    case Idle =>
      (match action
       case Enqueue(q, amount) =>
         if q < |s.inner| then
           s.(inner := s.inner[q := Tickets.Step(s.inner[q], Tickets.Publish(amount))],
              sema := Sema.StepThread(s.sema, t, Sema.Signal(amount), false),
              threads := s.threads[t := l.(phase := Releasing)])
         else s
       case Dequeue(max, timeout, retry) =>
         s.(sema := Sema.StepThread(s.sema, t, Sema.WaitMany(max, timeout), false),
            threads := s.threads[t := l.(phase := Acquiring, max := max, timeout := timeout, retry := retry, count := 0)])
       case Continue(_, _) => s)
    case Releasing =>
      var sema := Sema.StepThread(s.sema, t, Sema.Signal(0), false);
      s.(sema := sema, threads := s.threads[t := l.(phase := if sema.threads[t].pc == Sema.Idle then Idle else Releasing)])
    case Acquiring =>
      var sema := Sema.StepThread(s.sema, t, Sema.Signal(0), action.Continue? && action.choice);
      var w := sema.threads[t];
      if w.pc != Sema.Idle then s.(sema := sema)
      else if w.got == 0 && l.retry then
        s.(sema := Sema.StepThread(sema, t, Sema.WaitMany(l.max, l.timeout), false))
      else
        s.(sema := sema, threads := s.threads[t := l.(phase := if w.got == 0 then Idle else Choosing, want := w.got)])
    case Choosing =>
      if action.Continue? && action.next < |s.inner| then
        var q := action.next;
        s.(inner := s.inner[q := Tickets.StepThread(s.inner[q], t, Remaining(l))],
           threads := s.threads[t := l.(phase := Taking, q := q)])
      else s
    case Taking =>
      if l.q < |s.inner| then
        var sub := Tickets.StepThread(s.inner[l.q], t, 0);
        s.(inner := s.inner[l.q := sub], threads := s.threads[t := Fetched(l, sub.threads[t])])
      else s
  }

  function Remaining(l: Local): nat {
    if l.count <= l.want then l.want - l.count else 0
  }

  /** Back from the sub-queue, the loop goes on until `count == want`. */
  function Fetched(l: Local, sub: Tickets.Local): Local {
    if sub.pc != Tickets.Idle then l
    else l.(count := l.count + sub.got, phase := if l.count + sub.got == l.want then Idle else Choosing)
  }

  function Step(s: State, e: Event): State {
    if Shaped(s) && e.t < |s.threads| then StepThread(s, e.t, e.action) else s
  }

  function Execute(s: State, schedule: seq<Event>): State {
    if schedule == [] then s
    else Step(Execute(s, schedule[..|schedule| - 1]), schedule[|schedule| - 1])
  }

  // The accounts.

  /** A thread together with its state inside the semaphore. */
  datatype View = View(l: Local, w: Sema.Local)

  function Views(s: State): seq<View>
    requires Shaped(s)
  {
    seq(|s.threads|, t requires 0 <= t < |s.threads| => View(s.threads[t], s.sema.threads[t]))
  }

  /** Tokens a thread has taken and not yet turned into elements. */
  function Held(v: View): int {
    match v.l.phase
    case Acquiring => v.w.got
    case Choosing => Remaining(v.l)
    case Taking => Remaining(v.l)
    case _ => 0
  }

  /** Elements a thread has enqueued and not yet signalled. */
  function Unsignalled(v: View): int {
    if v.l.phase == Releasing && v.w.pc == Sema.SignalAdd then v.w.amount else 0
  }

  function Tail(sub: Tickets.State): int {
    sub.tail
  }

  function Head(sub: Tickets.State): int {
    sub.head
  }

  function StoredIn(sub: Tickets.State): int {
    sub.tail - sub.head
  }

  function Stored(s: State): int {
    Sum(s.inner, StoredIn)
  }

  function Tokens(s: State): int {
    Sema.Positive(s.sema.count) + s.sema.kernel + Sema.Pending(s.sema)
  }

  predicate ViewOk(v: View) {
    && (v.l.phase != Acquiring ==> v.l.want == v.w.got)
    && match v.l.phase
       case Idle => v.w.pc == Sema.Idle && v.l.count == v.l.want
       case Releasing => v.w.pc in {Sema.SignalAdd, Sema.Post} && v.l.count == v.l.want
       case Acquiring => v.w.pc !in {Sema.Idle, Sema.SignalAdd, Sema.Post} && v.l.count == 0
       case Choosing => v.w.pc == Sema.Idle && 0 <= v.l.count < v.l.want
       case Taking => v.w.pc == Sema.Idle && 0 <= v.l.count < v.l.want
  }

  /** What a thread is doing inside sub-queue q. */
  predicate SubOk(l: Local, q: nat, sub: Tickets.Local) {
    && (sub.pc != Tickets.Idle <==> l.phase == Taking && l.q == q)
    && (sub.pc != Tickets.Idle ==>
          && sub.got == 0 && sub.max == Remaining(l)
          && (sub.pc == Tickets.Draw || Tickets.Holding(sub.pc) ==> sub.desired <= sub.max)
          && (sub.pc in {Tickets.ClaimHead, Tickets.ReturnSurplus} ==> sub.actual <= sub.max))
  }

  ghost predicate SubsOk(s: State, q: nat)
    requires q < |s.inner|
  {
    && Tickets.Inv(s.inner[q])
    && |s.inner[q].threads| == |s.threads|
    && forall t {:trigger s.threads[t]} {:trigger s.inner[q].threads[t]} :: 0 <= t < |s.threads| ==> SubOk(s.threads[t], q, s.inner[q].threads[t])
  }

  ghost predicate ThreadOk(s: State, t: nat)
    requires t < |s.threads| && |s.sema.threads| == |s.threads|
  {
    && ViewOk(View(s.threads[t], s.sema.threads[t]))
    && (s.threads[t].phase == Taking ==> s.threads[t].q < |s.inner|)
  }

  ghost predicate Inv(s: State) {
    && Shaped(s) && Sema.Inv(s.sema) && s.sema.initial == 0
    && (forall t {:trigger ThreadOk(s, t)} :: 0 <= t < |s.threads| ==> ThreadOk(s, t))
    && (forall q {:trigger SubsOk(s, q)} :: 0 <= q < |s.inner| ==> SubsOk(s, q))
    && Sum(s.inner, Tail) == s.sema.signalled + Sum(Views(s), Unsignalled)
    && Sum(s.inner, Head) == s.sema.acquired - Sum(Views(s), Held)
  }

  lemma {:induction false} InitSums(n: nat, m: nat)
    ensures Sum(Views(Init(n, m)), Held) == Sum(Views(Init(n, m)), Unsignalled) == 0
    ensures Sum(Init(n, m).inner, Head) == Sum(Init(n, m).inner, Tail) == 0
    decreases n + m
  {
    if n > 0 {
      InitSums(n - 1, 0);
      assert Views(Init(n, m))[..n - 1] == Views(Init(n - 1, 0));
    }
    InitInner(n, m);
  }

  lemma {:induction false} InitInner(n: nat, m: nat)
    ensures Sum(Init(n, m).inner, Head) == Sum(Init(n, m).inner, Tail) == 0
  {
    if m > 0 {
      InitInner(n, m - 1);
      assert Init(n, m).inner[..m - 1] == Init(n, m - 1).inner;
    }
  }

  lemma InitInv(n: nat, m: nat)
    ensures Inv(Init(n, m))
  {
    hide Sema.Inv, Tickets.Inv;
    Sema.InitInv(n, 0);
    Tickets.InitInv(n);
    InitSums(n, m);
    forall q | 0 <= q < m ensures SubsOk(Init(n, m), q) {
      assert Init(n, m).inner[q] == Tickets.Init(n);
    }
  }

  // What one step of a component does to the accounts.

  lemma Waits(s: Sema.State, t: nat, choice: bool)
    requires Sema.Inv(s)
    requires t < |s.threads| && s.threads[t].pc !in {Sema.Idle, Sema.SignalAdd, Sema.Post}
    ensures var s' := Sema.StepThread(s, t, Sema.Signal(0), choice); var w, w' := s.threads[t], s'.threads[t];
      && Sema.Inv(s') && s'.threads == s.threads[t := w'] && s'.signalled == s.signalled
      && s'.acquired - s.acquired == w'.got - w.got && w'.pc !in {Sema.SignalAdd, Sema.Post}
      && (w'.pc == Sema.Idle ==> w'.got >= 0)
  {
    assert Sema.LocalOk(s.threads[t]);
    WaitMoves(s, t, choice);
    Sema.StepKeeps(s, Sema.Event(t, Sema.Signal(0), choice));
    hide Sema.Inv, Sema.LocalOk, Sema.StepThread;
  }

  lemma WaitMoves(s: Sema.State, t: nat, choice: bool)
    requires t < |s.threads| && s.threads[t].pc !in {Sema.Idle, Sema.SignalAdd, Sema.Post} && Sema.LocalOk(s.threads[t])
    ensures var s' := Sema.StepThread(s, t, Sema.Signal(0), choice); var w, w' := s.threads[t], s'.threads[t];
      && s'.threads == s.threads[t := w'] && s'.signalled == s.signalled
      && s'.acquired - s.acquired == w'.got - w.got && w'.pc !in {Sema.SignalAdd, Sema.Post}
      && (w'.pc == Sema.Idle ==> w'.got >= 0)
  {
  }

  lemma Signals(s: Sema.State, t: nat)
    requires Sema.Inv(s)
    requires t < |s.threads| && s.threads[t].pc in {Sema.SignalAdd, Sema.Post}
    ensures var s' := Sema.StepThread(s, t, Sema.Signal(0), false); var w, w' := s.threads[t], s'.threads[t];
      && Sema.Inv(s') && s'.threads == s.threads[t := w'] && s'.acquired == s.acquired && w'.got == w.got
      && s'.signalled - s.signalled == (if w.pc == Sema.SignalAdd then w.amount else 0)
      && w'.pc in {Sema.Idle, Sema.Post}
  {
    Sema.StepKeeps(s, Sema.Event(t, Sema.Signal(0), false));
  }

  lemma Begins(s: Sema.State, t: nat, request: Sema.Request)
    requires Sema.Inv(s)
    requires t < |s.threads| && s.threads[t].pc == Sema.Idle
    ensures var s' := Sema.StepThread(s, t, request, false); var w' := s'.threads[t];
      && Sema.Inv(s') && s'.threads == s.threads[t := w'] && s'.acquired == s.acquired && s'.signalled == s.signalled
      && (request.WaitMany? ==> w'.pc == Sema.TryLoad && w'.got == 0)
      && (request.Signal? ==> w'.pc == Sema.SignalAdd && w'.amount == request.amount && w'.got == s.threads[t].got)
  {
    Sema.StepKeeps(s, Sema.Event(t, request, false));
  }

  lemma TakesOrMoves(sub: Tickets.State, t: nat, max: nat)
    requires t < |sub.threads|
    ensures var sub' := Tickets.StepThread(sub, t, max); var x, x' := sub.threads[t], sub'.threads[t];
      && |sub'.threads| == |sub.threads| && sub'.threads == sub.threads[t := x'] && sub'.tail == sub.tail
      && (x.pc == Tickets.Idle ==> x'.pc == Tickets.ReadOvercommit && x'.max == max && x'.got == 0 && sub'.head == sub.head)
      && (x.pc != Tickets.Idle && x.got == 0 ==> sub'.head - sub.head == x'.got && (x'.pc != Tickets.Idle ==> x'.got == 0))
  {
  }

  /** One access inside a sub-queue: the head moves by what the thread comes back with. */
  lemma Takes(sub: Tickets.State, t: nat, max: nat)
    requires Tickets.Inv(sub) && t < |sub.threads|
    ensures var sub' := Tickets.StepThread(sub, t, max); var x, x' := sub.threads[t], sub'.threads[t];
      && Tickets.Inv(sub') && sub'.threads == sub.threads[t := x'] && sub'.tail == sub.tail
      && (x.pc == Tickets.Idle ==> x'.pc == Tickets.ReadOvercommit && x'.max == max && x'.got == 0 && sub'.head == sub.head)
      && (x.pc != Tickets.Idle && x.got == 0 ==> sub'.head - sub.head == x'.got && (x'.pc != Tickets.Idle ==> x'.got == 0))
  {
    hide Tickets.Inv, Tickets.StepThread;
    Tickets.StepKeeps(sub, Tickets.Run(t, max));
    TakesOrMoves(sub, t, max);
  }

  lemma StaysWithin(sub: Tickets.State, l: Local, q: nat, t: nat)
    requires t < |sub.threads| && SubOk(l, q, sub.threads[t]) && sub.threads[t].pc != Tickets.Idle
    ensures var x' := Tickets.StepThread(sub, t, 0).threads[t];
      if x'.pc == Tickets.Idle then x'.got <= Remaining(l) else SubOk(l, q, x')
  {
  }

  lemma ViewsAfter(s: State, s': State, t: nat)
    requires Shaped(s) && Shaped(s') && t < |s.threads| == |s'.threads|
    requires s'.threads == s.threads[t := s'.threads[t]] && s'.sema.threads == s.sema.threads[t := s'.sema.threads[t]]
    ensures var v, v' := View(s.threads[t], s.sema.threads[t]), View(s'.threads[t], s'.sema.threads[t]);
      && Sum(Views(s'), Held) == Sum(Views(s), Held) - Held(v) + Held(v')
      && Sum(Views(s'), Unsignalled) == Sum(Views(s), Unsignalled) - Unsignalled(v) + Unsignalled(v')
  {
    var v' := View(s'.threads[t], s'.sema.threads[t]);
    assert Views(s') == Views(s)[t := v'];
    SumUpdate(Views(s), Held, t, v');
    SumUpdate(Views(s), Unsignalled, t, v');
  }

  /** A step of thread t that leaves the sub-queues alone. */
  lemma OutsideKeeps(s: State, s': State, t: nat)
    requires Inv(s)
    requires t < |s.threads| == |s'.threads| == |s'.sema.threads|
    requires s'.threads == s.threads[t := s'.threads[t]] && s'.sema.threads == s.sema.threads[t := s'.sema.threads[t]]
    requires s'.inner == s.inner && Sema.Inv(s'.sema) && s'.sema.initial == 0
    requires s.threads[t].phase != Taking && s'.threads[t].phase != Taking && ThreadOk(s', t)
    requires var v, v' := View(s.threads[t], s.sema.threads[t]), View(s'.threads[t], s'.sema.threads[t]);
      && s'.sema.signalled - s.sema.signalled == Unsignalled(v) - Unsignalled(v')
      && s'.sema.acquired - s.sema.acquired == Held(v') - Held(v)
    ensures Inv(s')
  {
    ViewsAfter(s, s', t);
    forall u | 0 <= u < |s'.threads| ensures ThreadOk(s', u) {
      assert ThreadOk(s, u);
    }
    forall q | 0 <= q < |s'.inner| ensures SubsOk(s', q) {
      assert SubsOk(s, q);
    }
  }

  lemma ThreadsKept(s: State, s': State, t: nat)
    requires Shaped(s) && forall u {:trigger ThreadOk(s, u)} :: 0 <= u < |s.threads| ==> ThreadOk(s, u)
    requires t < |s.threads| == |s'.threads| == |s'.sema.threads| && |s'.inner| == |s.inner|
    requires s'.threads == s.threads[t := s'.threads[t]] && s'.sema.threads == s.sema.threads[t := s'.sema.threads[t]]
    requires ThreadOk(s', t)
    ensures forall u {:trigger ThreadOk(s', u)} :: 0 <= u < |s'.threads| ==> ThreadOk(s', u)
  {
    forall u | 0 <= u < |s'.threads| ensures ThreadOk(s', u) {
      assert ThreadOk(s, u);
    }
  }

  lemma SubsKept(s: State, s': State, t: nat, q: nat)
    requires forall r {:trigger SubsOk(s, r)} :: 0 <= r < |s.inner| ==> SubsOk(s, r)
    requires t < |s.threads| == |s'.threads| && q < |s.inner| == |s'.inner|
    requires s'.threads == s.threads[t := s'.threads[t]] && s'.inner == s.inner[q := s'.inner[q]]
    requires Tickets.Inv(s'.inner[q]) && |s'.inner[q].threads| == |s.inner[q].threads| == |s.threads|
    requires s'.inner[q].threads == s.inner[q].threads[t := s'.inner[q].threads[t]]
    requires SubOk(s'.threads[t], q, s'.inner[q].threads[t])
    requires s.threads[t].phase == Taking ==> s.threads[t].q == q
    requires s'.threads[t].phase == Taking ==> s'.threads[t].q == q
    ensures forall r {:trigger SubsOk(s', r)} :: 0 <= r < |s'.inner| ==> SubsOk(s', r)
  {
    hide Tickets.Inv;
    forall r | 0 <= r < |s'.inner| ensures SubsOk(s', r) {
      assert SubsOk(s, r);
    }
  }

  /** What a thread comes back with leaves the sub-queue and the tokens it holds. */
  lemma InsideSums(s: State, s': State, t: nat, q: nat)
    requires Shaped(s) && Shaped(s') && t < |s.threads| == |s'.threads| && q < |s.inner| == |s'.inner|
    requires s'.sema == s.sema && s'.threads == s.threads[t := s'.threads[t]] && s'.inner == s.inner[q := s'.inner[q]]
    requires s'.inner[q].tail == s.inner[q].tail && ThreadOk(s, t) && ThreadOk(s', t)
    requires s.threads[t].phase in {Choosing, Taking} && s'.threads[t].phase in {Choosing, Taking, Idle}
    requires s'.threads[t].want == s.threads[t].want
    requires s'.inner[q].head - s.inner[q].head == s'.threads[t].count - s.threads[t].count
    ensures Sum(s'.inner, Tail) == Sum(s.inner, Tail) && Sum(Views(s'), Unsignalled) == Sum(Views(s), Unsignalled)
    ensures Sum(s'.inner, Head) + Sum(Views(s'), Held) == Sum(s.inner, Head) + Sum(Views(s), Held)
  {
    ViewsAfter(s, s', t);
    SumUpdate(s.inner, Tail, q, s'.inner[q]);
    SumUpdate(s.inner, Head, q, s'.inner[q]);
  }

  /** A step of thread t in sub-queue q. */
  lemma InsideKeeps(s: State, s': State, t: nat, q: nat)
    requires Inv(s)
    requires t < |s.threads| == |s'.threads| && q < |s.inner| == |s'.inner| && s'.sema == s.sema
    requires s'.threads == s.threads[t := s'.threads[t]]
    requires s'.inner == s.inner[q := s'.inner[q]] && Tickets.Inv(s'.inner[q]) && s'.inner[q].tail == s.inner[q].tail
    requires |s'.inner[q].threads| == |s.threads|
    requires s'.inner[q].threads == s.inner[q].threads[t := s'.inner[q].threads[t]]
    requires ThreadOk(s', t) && SubOk(s'.threads[t], q, s'.inner[q].threads[t])
    requires s.threads[t].phase == Taking ==> s.threads[t].q == q
    requires s'.threads[t].phase == Taking ==> s'.threads[t].q == q
    requires s.threads[t].phase in {Choosing, Taking} && s'.threads[t].phase in {Choosing, Taking, Idle}
    requires s'.threads[t].want == s.threads[t].want
    requires s'.inner[q].head - s.inner[q].head == s'.threads[t].count - s.threads[t].count
    ensures Inv(s')
  {
    assert ThreadOk(s, t) && SubsOk(s, q);
    SubsKept(s, s', t, q);
    ThreadsKept(s, s', t);
    InsideSums(s, s', t, q);
    hide SubsOk, ThreadOk, Sema.Inv, Tickets.Inv;
  }

  lemma Published(sub: Tickets.State, amount: nat)
    ensures var sub' := Tickets.Step(sub, Tickets.Publish(amount));
      sub'.threads == sub.threads && sub'.head == sub.head && sub'.tail == sub.tail + amount
  {
  }

  lemma EnqueueKeeps(s: State, t: nat, q: nat, amount: nat)
    requires Inv(s)
    requires t < |s.threads| && s.threads[t].phase == Idle && q < |s.inner|
    ensures Inv(StepThread(s, t, Enqueue(q, amount)))
  {
    hide Sema.Inv, Tickets.Inv, Sema.StepThread, Tickets.Step, Sum;
    var s' := StepThread(s, t, Enqueue(q, amount));
    assert ThreadOk(s, t);
    Begins(s.sema, t, Sema.Signal(amount));
    assert SubsOk(s, q);
    Tickets.StepKeeps(s.inner[q], Tickets.Publish(amount));
    Published(s.inner[q], amount);
    SubsKept(s, s', t, q);
    ThreadsKept(s, s', t);
    ViewsAfter(s, s', t);
    hide SubsOk, ThreadOk;
    InitialStays(s.sema, t, Sema.Signal(amount), false);
    SumUpdate(s.inner, Tail, q, s'.inner[q]);
    SumUpdate(s.inner, Head, q, s'.inner[q]);
  }

  lemma WaitKeeps(s: State, t: nat, action: Action)
    requires Inv(s)
    requires t < |s.threads| && s.threads[t].phase == Acquiring
    ensures Inv(StepThread(s, t, action))
  {
    assert ThreadOk(s, t);
    WaitAccounts(s, t, action);
    hide StepThread, Sema.Inv, SubsOk;
    OutsideKeeps(s, StepThread(s, t, action), t);
  }

  lemma WaitAccounts(s: State, t: nat, action: Action)
    requires Shaped(s) && Sema.Inv(s.sema) && s.sema.initial == 0
    requires t < |s.threads| && s.threads[t].phase == Acquiring && ThreadOk(s, t)
    ensures var s' := StepThread(s, t, action);
      && |s'.threads| == |s.threads| == |s'.sema.threads| && s'.inner == s.inner && Sema.Inv(s'.sema) && s'.sema.initial == 0
      && s'.threads == s.threads[t := s'.threads[t]] && s'.sema.threads == s.sema.threads[t := s'.sema.threads[t]]
      && s'.threads[t].phase != Taking && ThreadOk(s', t)
      && var v, v' := View(s.threads[t], s.sema.threads[t]), View(s'.threads[t], s'.sema.threads[t]);
      && s'.sema.signalled - s.sema.signalled == Unsignalled(v) - Unsignalled(v')
      && s'.sema.acquired - s.sema.acquired == Held(v') - Held(v)
  {
    hide Sema.Inv, Sema.StepThread, Tickets.Inv;
    var l := s.threads[t];
    var choice := action.Continue? && action.choice;
    Waits(s.sema, t, choice);
    var sema := Sema.StepThread(s.sema, t, Sema.Signal(0), choice);
    InitialStays(s.sema, t, Sema.Signal(0), choice);
    if sema.threads[t].pc == Sema.Idle && sema.threads[t].got == 0 && l.retry {
      Begins(sema, t, Sema.WaitMany(l.max, l.timeout));
      InitialStays(sema, t, Sema.WaitMany(l.max, l.timeout), false);
    }
  }

  lemma InitialStays(s: Sema.State, t: nat, request: Sema.Request, choice: bool)
    requires t < |s.threads|
    ensures Sema.StepThread(s, t, request, choice).initial == s.initial
  {
  }

  lemma FetchKeeps(s: State, t: nat, action: Action)
    requires Inv(s)
    requires t < |s.threads| && s.threads[t].phase in {Choosing, Taking}
    ensures Inv(StepThread(s, t, action))
  {
    var l, s' := s.threads[t], StepThread(s, t, action);
    assert ThreadOk(s, t);
    if l.phase == Taking || (action.Continue? && action.next < |s.inner|) {
      var q := if l.phase == Taking then l.q else action.next;
      assert SubsOk(s, q);
      FetchAccounts(s, t, action, q);
      hide StepThread, SubsOk, Sema.Inv, Tickets.Inv;
      InsideKeeps(s, s', t, q);
    }
  }

  lemma FetchAccounts(s: State, t: nat, action: Action, q: nat)
    requires Shaped(s) && t < |s.threads| && s.threads[t].phase in {Choosing, Taking} && ThreadOk(s, t)
    requires q < |s.inner| && SubsOk(s, q)
    requires s.threads[t].phase == Choosing ==> action.Continue? && action.next == q
    requires s.threads[t].phase == Taking ==> s.threads[t].q == q
    ensures var s' := StepThread(s, t, action);
      && |s'.threads| == |s.threads| && |s'.inner| == |s.inner| && s'.sema == s.sema
      && s'.threads == s.threads[t := s'.threads[t]]
      && s'.inner == s.inner[q := s'.inner[q]] && Tickets.Inv(s'.inner[q]) && s'.inner[q].tail == s.inner[q].tail
      && |s'.inner[q].threads| == |s.threads| == |s.inner[q].threads|
      && s'.inner[q].threads == s.inner[q].threads[t := s'.inner[q].threads[t]]
      && ThreadOk(s', t) && SubOk(s'.threads[t], q, s'.inner[q].threads[t])
      && (s'.threads[t].phase == Taking ==> s'.threads[t].q == q)
      && s'.threads[t].phase in {Choosing, Taking, Idle} && s'.threads[t].want == s.threads[t].want
      && s'.inner[q].head - s.inner[q].head == s'.threads[t].count - s.threads[t].count
  {
    hide Tickets.Inv, Tickets.StepThread;
    var l := s.threads[t];
    Takes(s.inner[q], t, if l.phase == Taking then 0 else Remaining(l));
    if l.phase == Taking {
      StaysWithin(s.inner[q], l, q, t);
    }
  }

  lemma StepKeeps(s: State, e: Event)
    requires Inv(s)
    ensures Inv(Step(s, e))
  {
    if e.t < |s.threads| {
      var t := e.t;
      assert ThreadOk(s, t);
      match s.threads[t].phase
      case Idle =>
        match e.action {
          case Enqueue(q, amount) =>
            if q < |s.inner| {
              EnqueueKeeps(s, t, q, amount);
            }
          case Dequeue(max, timeout, _) =>
            Begins(s.sema, t, Sema.WaitMany(max, timeout));
            OutsideKeeps(s, Step(s, e), t);
          case Continue(_, _) =>
        }
      case Releasing =>
        Signals(s.sema, t);
        OutsideKeeps(s, Step(s, e), t);
      case Acquiring => WaitKeeps(s, t, e.action);
      case Choosing => FetchKeeps(s, t, e.action);
      case Taking => FetchKeeps(s, t, e.action);
    }
  }

  lemma {:induction false} EveryRun(n: nat, subqueues: nat, schedule: seq<Event>)
    ensures Inv(Execute(Init(n, subqueues), schedule))
  {
    if schedule == [] {
      InitInv(n, subqueues);
    } else {
      var last := |schedule| - 1;
      EveryRun(n, subqueues, schedule[..last]);
      StepKeeps(Execute(Init(n, subqueues), schedule[..last]), schedule[last]);
    }
  }

  // Tokens and elements agree.

  lemma {:induction false} StoredIsDifference(inner: seq<Tickets.State>)
    ensures Sum(inner, StoredIn) == Sum(inner, Tail) - Sum(inner, Head)
  {
    if inner != [] {
      StoredIsDifference(inner[..|inner| - 1]);
    }
  }

  lemma Agreement(s: State)
    requires Inv(s)
    ensures Tokens(s) + Sum(Views(s), Held) + Sum(Views(s), Unsignalled) == Stored(s)
  {
    StoredIsDifference(s.inner);
  }

  /** In every run: free tokens, tokens held by threads still in their dequeue loop and elements not yet
      signalled add up to the elements stored; and no sub-queue hands out more than was put in. */
  lemma TokensMatchElements(n: nat, subqueues: nat, schedule: seq<Event>)
    ensures var s := Execute(Init(n, subqueues), schedule);
      && Shaped(s)
      && Tokens(s) + Sum(Views(s), Held) + Sum(Views(s), Unsignalled) == Stored(s)
      && forall q :: 0 <= q < |s.inner| ==> s.inner[q].head <= s.inner[q].tail
  {
    EveryRun(n, subqueues, schedule);
    var s := Execute(Init(n, subqueues), schedule);
    Agreement(s);
    forall q | 0 <= q < |s.inner| ensures s.inner[q].head <= s.inner[q].tail {
      assert SubsOk(s, q);
      Tickets.HeadBehindTail(s.inner[q]);
    }
  }

  /** When a dequeue returns, it returns as many elements as the tokens that its wait took: between none
      and `max`; none only where the wait itself came back with nothing, and then never if it retries. */
  lemma DequeueReturnsItsTokens(n: nat, subqueues: nat, schedule: seq<Event>, e: Event)
    ensures var s := Execute(Init(n, subqueues), schedule); var s' := Step(s, e);
      e.t < |s.threads| && s.threads[e.t].phase in {Acquiring, Taking} && s'.threads[e.t].phase == Idle ==>
        && s'.threads[e.t].count == s'.threads[e.t].want == s'.sema.threads[e.t].got
        && 0 <= s'.threads[e.t].count <= s'.sema.threads[e.t].max
        && (s.threads[e.t].phase == Taking <==> s'.threads[e.t].count > 0)
        && (s'.threads[e.t].count == 0 ==> !s'.threads[e.t].retry)
  {
    EveryRun(n, subqueues, schedule);
    var s := Execute(Init(n, subqueues), schedule);
    var s' := Step(s, e);
    StepKeeps(s, e);
    if e.t < |s.threads| {
      assert ThreadOk(s, e.t) && ThreadOk(s', e.t);
      assert Sema.LocalOk(s'.sema.threads[e.t]);
    }
  }

  // A token holder running alone completes its loop.

  /** No other dequeue is in flight inside any sub-queue. */
  ghost predicate NobodyElseInside(s: State, t: nat) {
    forall u {:trigger s.threads[u]} :: 0 <= u < |s.threads| && u != t ==> s.threads[u].phase != Taking
  }

  /** Thread t's next `steps` accesses, all in sub-queue q. */
  function Drive(s: State, t: nat, q: nat, steps: nat): (s': State)
    ensures |s'.threads| == |s.threads| && |s'.inner| == |s.inner|
  {
    if steps == 0 then s else Step(Drive(s, t, q, steps - 1), Event(t, Continue(false, q)))
  }

  lemma {:induction false} Mirror(s: State, t: nat, q: nat, steps: nat)
    requires Shaped(s) && t < |s.threads| && q < |s.inner|
    requires s.threads[t].phase == Choosing && steps > 0 && s.inner[q].threads[t].pc == Tickets.Idle
    requires forall i :: 1 <= i < steps ==> Tickets.Alone(s.inner[q], t, Remaining(s.threads[t]), i).threads[t].pc != Tickets.Idle
    ensures var l := s.threads[t]; var sub := Tickets.Alone(s.inner[q], t, Remaining(l), steps);
      Drive(s, t, q, steps) == s.(
        inner := s.inner[q := sub],
        threads := s.threads[t := Fetched(l.(phase := Taking, q := q), sub.threads[t])])
  {
    hide Tickets.StepThread, Sema.StepThread;
    var l := s.threads[t];
    var max := Remaining(l);
    if steps == 1 {
      assert Drive(s, t, q, 0) == s;
      FirstStepStarts(s.inner[q], t, max);
      assert Tickets.Alone(s.inner[q], t, max, 0) == s.inner[q];
      assert Tickets.Alone(s.inner[q], t, max, 1) == Tickets.StepThread(s.inner[q], t, max);
    } else {
      Mirror(s, t, q, steps - 1);
      var sub := Tickets.Alone(s.inner[q], t, max, steps - 1);
      MaxOnlyMattersAtTheStart(sub, t, max, 0);
    }
  }

  lemma FirstStepStarts(sub: Tickets.State, t: nat, max: nat)
    requires t < |sub.threads| && sub.threads[t].pc == Tickets.Idle
    ensures Tickets.StepThread(sub, t, max).threads[t].pc != Tickets.Idle
  {
  }

  lemma MaxOnlyMattersAtTheStart(sub: Tickets.State, t: nat, max: nat, other: nat)
    requires t < |sub.threads| && sub.threads[t].pc != Tickets.Idle
    ensures Tickets.StepThread(sub, t, max) == Tickets.StepThread(sub, t, other)
  {
  }

  /** What a visit to sub-queue q by a thread running alone achieves. */
  ghost predicate Visited(s: State, s': State, t: nat, q: nat)
    requires t < |s.threads| == |s'.threads| && q < |s.inner| == |s'.inner|
  {
    var l, l' := s.threads[t], s'.threads[t];
    && NobodyElseInside(s', t)
    && l'.want == l.want
    && (forall r :: 0 <= r < |s.inner| && r != q ==> s'.inner[r] == s.inner[r])
    && (l'.phase == Idle || l'.phase == Choosing)
    && (l'.phase == Idle ==> l'.count == l.want)
    && (l'.phase == Choosing ==> StoredIn(s'.inner[q]) == 0)
  }

  lemma Visit(s: State, t: nat, q: nat)
    requires Inv(s) && NobodyElseInside(s, t)
    requires t < |s.threads| && q < |s.inner| && s.threads[t].phase == Choosing
    ensures Visited(s, Drive(s, t, q, Tickets.LoneSteps(s.inner[q])), t, q)
  {
    assert ThreadOk(s, t);
    assert SubsOk(s, q);
    var l, sub := s.threads[t], s.inner[q];
    forall u | 0 <= u < |sub.threads| ensures !Tickets.Holding(sub.threads[u].pc) {
      assert SubOk(s.threads[u], q, sub.threads[u]);
    }
    assert SubOk(l, q, sub.threads[t]);
    Tickets.LoneSequence(sub, t, Remaining(l));
    Mirror(s, t, q, Tickets.LoneSteps(sub));
  }

  lemma {:induction false} DriveKeeps(s: State, t: nat, q: nat, steps: nat)
    requires Inv(s)
    ensures Inv(Drive(s, t, q, steps))
  {
    if steps > 0 {
      DriveKeeps(s, t, q, steps - 1);
      StepKeeps(Drive(s, t, q, steps - 1), Event(t, Continue(false, q)));
    }
  }

  /** Thread t visits sub-queues in the given order until it has what it wants. */
  function Pass(s: State, t: nat, order: seq<nat>): (s': State)
    ensures |s'.threads| == |s.threads|
    decreases |order|
  {
    if order == [] || t >= |s.threads| || s.threads[t].phase != Choosing || order[0] >= |s.inner| then s
    else Pass(Drive(s, t, order[0], Tickets.LoneSteps(s.inner[order[0]])), t, order[1..])
  }

  predicate Targets(order: seq<nat>, subqueues: nat) {
    forall i :: 0 <= i < |order| ==> order[i] < subqueues
  }

  ghost predicate EmptyOutside(s: State, order: seq<nat>) {
    forall q {:trigger s.inner[q]} :: 0 <= q < |s.inner| && q !in order ==> StoredIn(s.inner[q]) == 0
  }

  lemma OneFewer(s: State, s1: State, t: nat, order: seq<nat>)
    requires order != [] && Targets(order, |s.inner|) && EmptyOutside(s, order)
    requires t < |s.threads| == |s1.threads| && |s1.inner| == |s.inner|
    requires Visited(s, s1, t, order[0]) && s1.threads[t].phase == Choosing
    ensures EmptyOutside(s1, order[1..]) && Targets(order[1..], |s1.inner|)
    ensures NobodyElseInside(s1, t) && s1.threads[t].want == s.threads[t].want
  {
    forall r | 0 <= r < |s1.inner| && r !in order[1..] ensures StoredIn(s1.inner[r]) == 0 {
      assert order == [order[0]] + order[1..];
      if r != order[0] {
        assert s1.inner[r] == s.inner[r];
      }
    }
  }

  lemma PassUnfolds(s: State, t: nat, order: seq<nat>)
    requires order != [] && t < |s.threads| && s.threads[t].phase == Choosing && order[0] < |s.inner|
    ensures var s1 := Drive(s, t, order[0], Tickets.LoneSteps(s.inner[order[0]]));
      && Pass(s, t, order) == Pass(s1, t, order[1..])
      && (s1.threads[t].phase != Choosing ==> Pass(s, t, order) == s1)
  {
  }

  lemma {:induction false} HolderCompletesWith(s: State, t: nat, order: seq<nat>)
    requires Inv(s) && NobodyElseInside(s, t)
    requires t < |s.threads| && s.threads[t].phase == Choosing
    requires EmptyOutside(s, order)
    requires Targets(order, |s.inner|)
    ensures var s' := Pass(s, t, order);
      s'.threads[t].phase == Idle && s'.threads[t].count == s.threads[t].want
    decreases |order|, 1
  {
    SomethingIsLeft(s, t);
    if order == [] {
      NothingStored(s.inner);
    } else {
      VisitAndGoOn(s, t, order);
    }
  }

  lemma {:induction false} VisitAndGoOn(s: State, t: nat, order: seq<nat>)
    requires Inv(s) && NobodyElseInside(s, t)
    requires t < |s.threads| && s.threads[t].phase == Choosing
    requires order != [] && EmptyOutside(s, order)
    requires Targets(order, |s.inner|)
    ensures var s' := Pass(s, t, order);
      s'.threads[t].phase == Idle && s'.threads[t].count == s.threads[t].want
    decreases |order|, 0
  {
    var q := order[0];
    var steps := Tickets.LoneSteps(s.inner[q]);
    var s1 := Drive(s, t, q, steps);
    Visit(s, t, q);
    DriveKeeps(s, t, q, steps);
    PassUnfolds(s, t, order);
    if s1.threads[t].phase == Choosing {
      OneFewer(s, s1, t, order);
      HolderCompletesWith(s1, t, order[1..]);
    }
  }

  /** A held token is backed by a stored element. */
  lemma SomethingIsLeft(s: State, t: nat)
    requires Inv(s)
    requires t < |s.threads| && s.threads[t].phase == Choosing
    ensures Stored(s) > 0
  {
    Agreement(s);
    var heldBy := (v: View) => if Held(v) > 0 then Held(v) else 0;
    assert ThreadOk(s, t);
    HeldNonNegative(s);
    SameHeld(s, Views(s), heldBy);
    assert Views(s)[t] == View(s.threads[t], s.sema.threads[t]);
    SumAtLeast(Views(s), heldBy, t);
    SumNonNegative(Views(s), Unsignalled);
    SumNonNegative(s.sema.threads, Sema.ToPost);
  }

  lemma HeldNonNegative(s: State)
    requires Inv(s)
    ensures forall v :: v in Views(s) ==> Held(v) >= 0
  {
    forall u | 0 <= u < |s.threads| ensures Held(Views(s)[u]) >= 0 {
      assert ThreadOk(s, u);
      assert Sema.LocalOk(s.sema.threads[u]);
    }
  }

  lemma {:induction false} SameHeld(s: State, views: seq<View>, f: View -> int)
    requires forall v :: v in views ==> f(v) == Held(v)
    ensures Sum(views, f) == Sum(views, Held)
  {
    if views != [] {
      SameHeld(s, views[..|views| - 1], f);
    }
  }

  lemma {:induction false} NothingStored(inner: seq<Tickets.State>)
    requires forall q :: 0 <= q < |inner| ==> StoredIn(inner[q]) == 0
    ensures Sum(inner, StoredIn) == 0
  {
    if inner != [] {
      NothingStored(inner[..|inner| - 1]);
    }
  }

  ghost predicate VisitsAll(order: seq<nat>, subqueues: nat) {
    forall q: nat :: q < subqueues <==> q in order
  }

  // The same as schedules.

  lemma {:induction false} ExecuteAppend(s: State, a: seq<Event>, b: seq<Event>)
    ensures Execute(s, a + b) == Execute(Execute(s, a), b)
  {
    if b == [] {
      assert a + b == a;
    } else {
      var last := |b| - 1;
      assert (a + b)[..|a + b| - 1] == a + b[..last];
      ExecuteAppend(s, a, b[..last]);
    }
  }

  /** Only thread t moves. */
  predicate OnlyMoves(schedule: seq<Event>, t: nat) {
    forall i :: 0 <= i < |schedule| ==> schedule[i].t == t && schedule[i].action.Continue?
  }

  function DriveSchedule(t: nat, q: nat, steps: nat): seq<Event> {
    seq(steps, _ => Event(t, Continue(false, q)))
  }

  lemma {:induction false} DriveIsASchedule(s: State, t: nat, q: nat, steps: nat)
    ensures Drive(s, t, q, steps) == Execute(s, DriveSchedule(t, q, steps))
  {
    if steps > 0 {
      DriveIsASchedule(s, t, q, steps - 1);
      assert DriveSchedule(t, q, steps)[..steps - 1] == DriveSchedule(t, q, steps - 1);
    }
  }

  function PassSchedule(s: State, t: nat, order: seq<nat>): seq<Event>
    decreases |order|
  {
    if order == [] || t >= |s.threads| || s.threads[t].phase != Choosing || order[0] >= |s.inner| then []
    else
      var steps := Tickets.LoneSteps(s.inner[order[0]]);
      DriveSchedule(t, order[0], steps) + PassSchedule(Drive(s, t, order[0], steps), t, order[1..])
  }

  lemma {:induction false} PassIsASchedule(s: State, t: nat, order: seq<nat>)
    ensures Pass(s, t, order) == Execute(s, PassSchedule(s, t, order)) && OnlyMoves(PassSchedule(s, t, order), t)
    decreases |order|
  {
    if order != [] && t < |s.threads| && s.threads[t].phase == Choosing && order[0] < |s.inner| {
      var steps := Tickets.LoneSteps(s.inner[order[0]]);
      var s1 := Drive(s, t, order[0], steps);
      PassIsASchedule(s1, t, order[1..]);
      DriveIsASchedule(s, t, order[0], steps);
      ExecuteAppend(s, DriveSchedule(t, order[0], steps), PassSchedule(s1, t, order[1..]));
    }
  }

  // A holder that is left alone in the middle of a sub-queue.

  /** How many accesses a dequeue still makes inside a sub-queue at most. */
  function Rank(pc: Tickets.Pc): nat {
    match pc
    case Idle => 0
    case ClaimHead => 1
    case ReturnAll => 1
    case ReturnSurplus => 2
    case ReadTail => 3
    case Draw => 4
    case ReadOptimistic => 5
    case ReadOvercommit => 6
  }

  lemma RankFalls(sub: Tickets.State, t: nat)
    requires t < |sub.threads| && sub.threads[t].pc != Tickets.Idle
    ensures Rank(Tickets.StepThread(sub, t, 0).threads[t].pc) < Rank(sub.threads[t].pc)
  {
  }

  /** How far thread t is from leaving its sub-queue. */
  function Inside(s: State, t: nat): nat {
    if Shaped(s) && t < |s.threads| && s.threads[t].phase == Taking && s.threads[t].q < |s.inner| then
      Rank(s.inner[s.threads[t].q].threads[t].pc)
    else 0
  }

  /** One more access on the way out: the thread is further, or out and either done or between sub-queues. */
  lemma LeaveOnce(s: State, t: nat)
    requires Inv(s) && NobodyElseInside(s, t) && t < |s.threads| && s.threads[t].phase == Taking
    ensures var s' := Step(s, Event(t, Continue(false, 0)));
      && Inv(s') && |s'.threads| == |s.threads| && |s'.inner| == |s.inner| && NobodyElseInside(s', t)
      && s'.threads[t].want == s.threads[t].want && s'.threads[t].phase in {Taking, Choosing, Idle}
      && (s'.threads[t].phase == Idle ==> s'.threads[t].count == s'.threads[t].want)
      && (s'.threads[t].phase == Taking ==> Inside(s', t) < Inside(s, t))
  {
    StepKeeps(s, Event(t, Continue(false, 0)));
    assert ThreadOk(s, t);
    var q := s.threads[t].q;
    assert SubsOk(s, q);
    assert SubOk(s.threads[t], q, s.inner[q].threads[t]);
    RankFalls(s.inner[q], t);
  }

  /** From inside a sub-queue or between two: some schedule of thread t's own accesses, no longer than
      `Inside` says, takes it out, done or ready to choose. */
  lemma {:induction false} Leaves(s: State, t: nat) returns (steps: nat)
    requires Inv(s) && NobodyElseInside(s, t) && t < |s.threads| && s.threads[t].phase in {Taking, Choosing}
    ensures var s' := Drive(s, t, 0, steps);
      && Inv(s') && NobodyElseInside(s', t) && s'.threads[t].want == s.threads[t].want
      && s'.threads[t].phase in {Choosing, Idle}
      && (s'.threads[t].phase == Idle ==> s'.threads[t].count == s'.threads[t].want)
    ensures steps <= Inside(s, t)
    decreases Inside(s, t)
  {
    hide Inv, Inside, Step, NobodyElseInside;
    if s.threads[t].phase == Choosing {
      steps := 0;
    } else {
      var e := Event(t, Continue(false, 0));
      LeaveOnce(s, t);
      StillInside(s, t);
      var s1 := Step(s, e);
      if s1.threads[t].phase == Taking {
        var more := Leaves(s1, t);
        steps := more + 1;
        DriveShift(s, t, 0, more);
      } else {
        steps := 1;
        DriveShift(s, t, 0, 0);
      }
    }
  }

  lemma InsideAtMostSix(s: State, t: nat)
    ensures Inside(s, t) <= 6
  {
  }

  lemma StillInside(s: State, t: nat)
    requires Inv(s) && t < |s.threads| && s.threads[t].phase == Taking
    ensures Inside(s, t) > 0
  {
    assert ThreadOk(s, t);
    var q := s.threads[t].q;
    assert SubsOk(s, q);
    assert SubOk(s.threads[t], q, s.inner[q].threads[t]);
  }

  lemma {:induction false} DriveShift(s: State, t: nat, q: nat, steps: nat)
    ensures Drive(s, t, q, steps + 1) == Drive(Step(s, Event(t, Continue(false, q))), t, q, steps)
  {
    hide Step;
    if steps > 0 {
      DriveShift(s, t, q, steps - 1);
    } else {
      assert Drive(s, t, q, 0) == s;
    }
  }

  /** With no other dequeue in flight a token holder, wherever it is in its loop, gets all the elements it
      holds tokens for by its own accesses: first those that take it out of the sub-queue it is in, at most
      six, then one pass over the sub-queues in any order. */
  lemma HolderCompletes(n: nat, subqueues: nat, schedule: seq<Event>, t: nat, order: seq<nat>) returns (steps: nat)
    requires var s := Execute(Init(n, subqueues), schedule);
      t < |s.threads| && s.threads[t].phase in {Choosing, Taking} && NobodyElseInside(s, t)
    requires VisitsAll(order, subqueues)
    ensures steps <= 6
    ensures var s := Execute(Init(n, subqueues), schedule);
      var s1 := Execute(s, DriveSchedule(t, 0, steps));
      var own := DriveSchedule(t, 0, steps) + PassSchedule(s1, t, order);
      var s' := Execute(s, own);
      && OnlyMoves(own, t) && |s'.threads| == |s.threads|
      && s'.threads[t].phase == Idle && s'.threads[t].count == s.threads[t].want
  {
    EveryRun(n, subqueues, schedule);
    SameSubqueues(Init(n, subqueues), schedule);
    steps := HolderCompletesFrom(Execute(Init(n, subqueues), schedule), t, order);
  }

  lemma HolderCompletesFrom(s: State, t: nat, order: seq<nat>) returns (steps: nat)
    requires Inv(s) && NobodyElseInside(s, t)
    requires t < |s.threads| && s.threads[t].phase in {Choosing, Taking}
    requires VisitsAll(order, |s.inner|)
    ensures steps <= 6
    ensures var s1 := Execute(s, DriveSchedule(t, 0, steps));
      var own := DriveSchedule(t, 0, steps) + PassSchedule(s1, t, order);
      var s' := Execute(s, own);
      && OnlyMoves(own, t) && |s'.threads| == |s.threads|
      && s'.threads[t].phase == Idle && s'.threads[t].count == s.threads[t].want
  {
    InsideAtMostSix(s, t);
    steps := Leaves(s, t);
    hide Inv, Drive, Execute, PassSchedule, Pass, DriveSchedule, NobodyElseInside, OnlyMoves;
    var s1 := Drive(s, t, 0, steps);
    var leave, pass := DriveSchedule(t, 0, steps), PassSchedule(s1, t, order);
    DriveIsASchedule(s, t, 0, steps);
    PassIsASchedule(s1, t, order);
    ExecuteAppend(s, leave, pass);
    BothMove(t, steps, pass);
    if s1.threads[t].phase == Choosing {
      PassCompletes(s1, t, order);
    } else {
      NothingToDo(s1, t, order);
    }
  }

  lemma BothMove(t: nat, steps: nat, pass: seq<Event>)
    requires OnlyMoves(pass, t)
    ensures OnlyMoves(DriveSchedule(t, 0, steps) + pass, t)
  {
  }

  lemma NothingToDo(s: State, t: nat, order: seq<nat>)
    requires t < |s.threads| && s.threads[t].phase != Choosing
    ensures Pass(s, t, order) == s
  {
  }

  lemma PassCompletes(s: State, t: nat, order: seq<nat>)
    requires Inv(s) && NobodyElseInside(s, t)
    requires t < |s.threads| && s.threads[t].phase == Choosing
    requires VisitsAll(order, |s.inner|)
    ensures var s' := Pass(s, t, order);
      s'.threads[t].phase == Idle && s'.threads[t].count == s.threads[t].want
  {
    forall i | 0 <= i < |order| ensures order[i] < |s.inner| {
      assert order[i] in order;
    }
    HolderCompletesWith(s, t, order);
  }

  lemma {:induction false} SameSubqueues(s: State, schedule: seq<Event>)
    ensures |Execute(s, schedule).inner| == |s.inner|
  {
    if schedule != [] {
      SameSubqueues(s, schedule[..|schedule| - 1]);
    }
  }
}
