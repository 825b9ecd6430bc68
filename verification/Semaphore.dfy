/** The light-weight semaphore: a signed count that runs ahead of a kernel semaphore.

    `wait` is `waitMany` with `max == 1` and `tryWait` is `tryWaitMany(1)`, so one family of steps
    covers all waits. The kernel semaphore is a counter with wait, try_wait and post. */
module LightweightSemaphore {
  import opened Tally

  /** The next shared access of a thread.
      TryLoad, TryCas: tryWaitMany.  SpinLoad, SpinCas: the spin loop.  Subtract: the fetch_sub.
      Blocked: in the kernel.  RepairLoad, RepairTry, RepairCas: the loop after a timeout.
      MoreLoad, MoreCas: the tryWaitMany(max - 1) that follows the first token.  Post: releasing. */
  datatype Pc =
    | Idle
    | TryLoad | TryCas
    | SpinLoad | SpinCas
    | Subtract
    | Blocked
    | RepairLoad | RepairTry | RepairCas
    | MoreLoad | MoreCas
    | SignalAdd
    | Post

  /** The three ways in which the callers use the timeout. */
  datatype Timeout = TryOnly | Immediate | MayBlock

  datatype Local = Local(pc: Pc, max: nat, timeout: Timeout, seen: int, got: int, amount: nat, gaveUp: bool)

  /** `initial`, `signalled` and `acquired` are history. */
  datatype State = State(
    count: int, kernel: nat, threads: seq<Local>, initial: nat, signalled: nat, acquired: int)

  datatype Request = WaitMany(max: nat, timeout: Timeout) | Signal(amount: nat)

  /** `choice` resolves what the code leaves to its surroundings: a spurious failure of the weak CAS,
      the end of spinning, a timeout of the kernel wait. */
  datatype Event = Event(t: nat, request: Request, choice: bool)

  function IdleThread(): Local {
    Local(Idle, 0, TryOnly, 0, 0, 0, false)
  }

  function Init(n: nat, initial: nat): State {
    State(initial, 0, seq(n, _ => IdleThread()), initial, 0, 0)
  }

  function NewCount(seen: int, max: int): int {
    if seen > max then seen - max else 0
  }

  function With(s: State, t: nat, l: Local): State
    requires t < |s.threads|
  {
    s.(threads := s.threads[t := l])
  }

  /** Leaving tryWaitMany(max) with nothing: the caller either stops or starts spinning. */
  function AfterTry(l: Local): Local {
    if l.timeout == TryOnly || l.max == 0 then l.(pc := Idle) else l.(pc := SpinLoad)
  }

  /** The thread has its first token; it asks for the rest, if any. */
  function AfterFirst(l: Local): Local {
    if l.max > 1 then l.(pc := MoreLoad, got := 1) else l.(pc := Idle, got := 1)
  }

  function StepThread(s: State, t: nat, request: Request, choice: bool): (s': State)
    requires t < |s.threads|
    ensures s'.initial == s.initial && |s'.threads| == |s.threads|
  {
    var l := s.threads[t];
    match l.pc
    case Idle =>
      (match request
       case WaitMany(max, timeout) =>
         With(s, t, l.(pc := TryLoad, max := max, timeout := timeout, got := 0, gaveUp := false))
       case Signal(amount) =>
         With(s, t, l.(pc := SignalAdd, amount := amount)))
    case TryLoad =>
      With(s, t, if s.count > 0 then l.(pc := TryCas, seen := s.count) else AfterTry(l))
    case TryCas =>
      if s.count == l.seen && !choice then
        var taken := l.seen - NewCount(l.seen, l.max);
        With(s, t, if taken == 0 then AfterTry(l) else l.(pc := Idle, got := taken))
          .(count := NewCount(l.seen, l.max), acquired := s.acquired + taken)
      else
        With(s, t, if s.count > 0 then l.(seen := s.count) else AfterTry(l))
    case SpinLoad =>
      if choice then With(s, t, l.(pc := Subtract))
      else With(s, t, if s.count > 0 then l.(pc := SpinCas, seen := s.count) else l)
    case SpinCas =>
      if s.count == l.seen then
        var taken := l.seen - NewCount(l.seen, l.max);
        With(s, t, l.(pc := Idle, got := taken))
          .(count := NewCount(l.seen, l.max), acquired := s.acquired + taken)
      else With(s, t, l.(pc := SpinLoad))
    case Subtract =>
      var s' := s.(count := s.count - 1);
      if s.count > 0 then With(s', t, AfterFirst(l)).(acquired := s.acquired + 1)
      else if l.timeout == MayBlock then With(s', t, l.(pc := Blocked))
      else With(s', t, l.(pc := RepairLoad, gaveUp := true))
    case Blocked =>
      if choice then With(s, t, l.(pc := RepairLoad, gaveUp := true))
      else if s.kernel > 0 then
        With(s, t, AfterFirst(l)).(kernel := s.kernel - 1, acquired := s.acquired + 1)
      else s
    case RepairLoad =>
      With(s, t, l.(pc := if s.count >= 0 then RepairTry else RepairCas, seen := s.count))
    case RepairTry =>
      if s.kernel > 0 then
        With(s, t, AfterFirst(l)).(kernel := s.kernel - 1, acquired := s.acquired + 1)
      else With(s, t, l.(pc := RepairLoad))
    case RepairCas =>
      if s.count == l.seen then With(s, t, l.(pc := Idle)).(count := s.count + 1)
      else With(s, t, l.(pc := RepairLoad))
    case MoreLoad =>
      With(s, t, if s.count > 0 then l.(pc := MoreCas, seen := s.count) else l.(pc := Idle))
    case MoreCas =>
      if s.count == l.seen && !choice then
        var taken := l.seen - NewCount(l.seen, l.max - 1);
        With(s, t, l.(pc := Idle, got := 1 + taken))
          .(count := NewCount(l.seen, l.max - 1), acquired := s.acquired + taken)
      else With(s, t, if s.count > 0 then l.(seen := s.count) else l.(pc := Idle))
    case SignalAdd =>
      var release := ToRelease(s.count, l.amount);
      With(s, t, if release > 0 then l.(pc := Post, amount := release) else l.(pc := Idle))
        .(count := s.count + l.amount, signalled := s.signalled + l.amount)
    case Post =>
      if l.amount == 0 then With(s, t, l.(pc := Idle))
      else With(s, t, l.(amount := l.amount - 1)).(kernel := s.kernel + 1)
  }

  function ToRelease(seen: int, amount: nat): int {
    if -seen < amount then -seen else amount
  }

  function Step(s: State, e: Event): State {
    if e.t < |s.threads| then StepThread(s, e.t, e.request, e.choice) else s
  }

  function Execute(s: State, schedule: seq<Event>): State {
    if schedule == [] then s
    else Step(Execute(s, schedule[..|schedule| - 1]), schedule[|schedule| - 1])
  }

  // The accounting.

  predicate Waiting(l: Local) {
    l.pc == Blocked || l.pc == RepairLoad || l.pc == RepairTry || l.pc == RepairCas
  }

  function Waits(l: Local): int {
    if Waiting(l) then 1 else 0
  }

  function ToPost(l: Local): int {
    if l.pc == Post then l.amount else 0
  }

  function Waiters(s: State): int {
    Sum(s.threads, Waits)
  }

  function Pending(s: State): int {
    Sum(s.threads, ToPost)
  }

  function Positive(x: int): int {
    if x > 0 then x else 0
  }

  ghost predicate LocalOk(l: Local) {
    && (l.pc == TryCas ==> l.seen > 0)
    && (l.pc == SpinCas ==> l.seen > 0)
    && (l.pc == MoreCas ==> l.seen > 0)
    && (l.pc == RepairCas ==> l.seen < 0)
    && (l.pc in {SpinLoad, SpinCas, Subtract} || Waiting(l) ==> l.max > 0 && l.got == 0 && l.timeout != TryOnly)
    && (l.pc in {TryLoad, TryCas} ==> l.got == 0)
    && (l.pc in {MoreLoad, MoreCas} ==> l.max > 1 && l.got == 1)
    && (l.pc in {RepairLoad, RepairTry, RepairCas} ==> l.gaveUp)
    && (l.gaveUp && l.timeout == Immediate ==> l.pc != Blocked)
    && (l.pc in {Idle, SignalAdd, Post} ==> 0 <= l.got <= l.max && (l.got == 0 ==> l.timeout == TryOnly || l.max == 0 || l.gaveUp))
  }

  ghost predicate Inv(s: State) {
    && (forall t :: 0 <= t < |s.threads| ==> LocalOk(s.threads[t]))
    && Waiters(s) == s.kernel + Pending(s) + Positive(-s.count)
    && s.initial + s.signalled == s.acquired + Positive(s.count) + s.kernel + Pending(s)
  }

  lemma {:induction false} IdleSums(n: nat)
    ensures Sum(seq(n, _ => IdleThread()), Waits) == 0
    ensures Sum(seq(n, _ => IdleThread()), ToPost) == 0
  {
    if n > 0 {
      IdleSums(n - 1);
      var xs := seq(n, _ => IdleThread());
      assert xs[..n - 1] == seq(n - 1, _ => IdleThread());
    }
  }

  lemma InitInv(n: nat, initial: nat)
    ensures Inv(Init(n, initial))
  {
    IdleSums(n);
  }

  /** The effect of one thread's move on the two sums. */
  lemma MoveThread(s: State, t: nat, l: Local)
    requires t < |s.threads|
    ensures Sum(s.threads[t := l], Waits) == Waiters(s) - Waits(s.threads[t]) + Waits(l)
    ensures Sum(s.threads[t := l], ToPost) == Pending(s) - ToPost(s.threads[t]) + ToPost(l)
  {
    SumUpdate(s.threads, Waits, t, l);
    SumUpdate(s.threads, ToPost, t, l);
  }

  /** What one step does to the thread and to the shared counters keeps both accounts balanced. */
  ghost predicate Balanced(s: State, t: nat, l: Local, s': State)
    requires t < |s.threads|
  {
    && s'.threads == s.threads[t := l]
    && s'.initial == s.initial
    && LocalOk(l)
    && Waits(l) - Waits(s.threads[t])
       == s'.kernel - s.kernel + ToPost(l) - ToPost(s.threads[t]) + Positive(-s'.count) - Positive(-s.count)
    && s'.signalled - s.signalled
       == s'.acquired - s.acquired + Positive(s'.count) - Positive(s.count) + s'.kernel - s.kernel
          + ToPost(l) - ToPost(s.threads[t])
  }

  lemma BalancedKeeps(s: State, t: nat, l: Local, s': State)
    requires Inv(s)
    requires t < |s.threads| && Balanced(s, t, l, s')
    ensures Inv(s')
  {
    MoveThread(s, t, l);
  }

  lemma TryBalanced(s: State, t: nat, request: Request, choice: bool)
    requires t < |s.threads| && LocalOk(s.threads[t])
    requires s.threads[t].pc in {Idle, TryLoad, TryCas, MoreLoad, MoreCas}
    ensures var s' := StepThread(s, t, request, choice); Balanced(s, t, s'.threads[t], s')
  {
  }

  lemma SpinBalanced(s: State, t: nat, request: Request, choice: bool)
    requires t < |s.threads| && LocalOk(s.threads[t])
    requires s.threads[t].pc in {SpinLoad, SpinCas}
    ensures var s' := StepThread(s, t, request, choice); Balanced(s, t, s'.threads[t], s')
  {
  }

  lemma SlowBalanced(s: State, t: nat, request: Request, choice: bool)
    requires t < |s.threads| && LocalOk(s.threads[t])
    requires s.threads[t].pc in {Subtract, Blocked, RepairLoad, RepairTry, RepairCas}
    ensures var s' := StepThread(s, t, request, choice); Balanced(s, t, s'.threads[t], s')
  {
  }

  lemma SignalBalanced(s: State, t: nat, request: Request, choice: bool)
    requires t < |s.threads| && LocalOk(s.threads[t])
    requires s.threads[t].pc in {SignalAdd, Post}
    ensures var s' := StepThread(s, t, request, choice); Balanced(s, t, s'.threads[t], s')
  {
  }

  lemma StepKeeps(s: State, e: Event)
    requires Inv(s)
    ensures Inv(Step(s, e))
  {
    if e.t < |s.threads| {
      var s' := Step(s, e);
      assert LocalOk(s.threads[e.t]);
      hide StepThread, Inv, LocalOk, Balanced;
      match s.threads[e.t].pc {
        case Subtract => SlowBalanced(s, e.t, e.request, e.choice);
        case Blocked => SlowBalanced(s, e.t, e.request, e.choice);
        case RepairLoad => SlowBalanced(s, e.t, e.request, e.choice);
        case RepairTry => SlowBalanced(s, e.t, e.request, e.choice);
        case RepairCas => SlowBalanced(s, e.t, e.request, e.choice);
        case SignalAdd => SignalBalanced(s, e.t, e.request, e.choice);
        case Post => SignalBalanced(s, e.t, e.request, e.choice);
        case SpinLoad => SpinBalanced(s, e.t, e.request, e.choice);
        case SpinCas => SpinBalanced(s, e.t, e.request, e.choice);
        case _ => TryBalanced(s, e.t, e.request, e.choice);
      }
      BalancedKeeps(s, e.t, s'.threads[e.t], s');
    }
  }

  lemma {:induction false} EveryRun(n: nat, initial: nat, schedule: seq<Event>)
    ensures Inv(Execute(Init(n, initial), schedule))
  {
    if schedule == [] {
      InitInv(n, initial);
    } else {
      var last := |schedule| - 1;
      EveryRun(n, initial, schedule[..last]);
      StepKeeps(Execute(Init(n, initial), schedule[..last]), schedule[last]);
    }
  }

  // What the accounts say.

  /** In every interleaving: each slow-path waiter is matched by a kernel token, a release still to be
      posted or a unit of debt, and no token is lost or invented. */
  lemma Conservation(n: nat, initial: nat, schedule: seq<Event>)
    ensures var s := Execute(Init(n, initial), schedule);
      && Waiters(s) == s.kernel + Pending(s) + Positive(-s.count)
      && initial + s.signalled == s.acquired + Positive(s.count) + s.kernel + Pending(s)
  {
    EveryRun(n, initial, schedule);
    InitialIsKept(Init(n, initial), schedule);
  }

  lemma {:induction false} InitialIsKept(s: State, schedule: seq<Event>)
    ensures Execute(s, schedule).initial == s.initial
    ensures |Execute(s, schedule).threads| == |s.threads|
  {
    if schedule != [] {
      InitialIsKept(s, schedule[..|schedule| - 1]);
    }
  }

  /** Tokens are free for the taking only once every sleeper has one of its own on the way; and a signal
      never posts more often than there are threads. */
  lemma NoLostWakeUp(s: State)
    requires Inv(s)
    ensures s.count >= 0 ==> Waiters(s) == s.kernel + Pending(s)
    ensures 0 <= Pending(s) <= Waiters(s) <= |s.threads|
  {
    SumNonNegative(s.threads, ToPost);
    SumAtMost(s.threads, Waits, 1);
  }

  /** A timed-out waiter that sees a non-negative count has a kernel token or a pending release to take. */
  lemma TimedOutWaiterHasToken(s: State, t: nat)
    requires Inv(s)
    requires t < |s.threads| && Waiting(s.threads[t]) && s.count >= 0
    ensures s.kernel + Pending(s) >= 1
  {
    SumAtLeast(s.threads, Waits, t);
  }

  function TwoSteps(s: State, t: nat): State
    requires t < |s.threads|
  {
    var e := Event(t, Signal(0), false);
    Step(Step(s, e), e)
  }

  /** One round of the repair loop run without interference: the waiter takes its decrement back and
      reports a timeout exactly if the count is negative; it takes a token exactly if the count is not
      negative and a kernel token is there; it goes round again only while some signal is between its
      fetch_add and its last post. */
  lemma RepairRound(s: State, t: nat)
    requires Inv(s)
    requires t < |s.threads| && s.threads[t].pc == RepairLoad
    ensures var s' := TwoSteps(s, t); var l := s'.threads[t];
      && (l.pc == Idle && l.got == 0 <==> s.count < 0)
      && (l.pc != RepairLoad && l.got == 1 <==> s.count >= 0 && s.kernel > 0)
      && (s.count < 0 ==> s'.count == s.count + 1 && s'.kernel == s.kernel)
      && (l.pc == RepairLoad <==> s.count >= 0 && s.kernel == 0)
      && (l.pc == RepairLoad ==> s'.count == s.count && s'.kernel == s.kernel == 0 && Pending(s) > 0)
  {
    assert LocalOk(s.threads[t]);
    if s.count >= 0 {
      TimedOutWaiterHasToken(s, t);
    }
  }

  /** A finished wait holds between 0 and max tokens, and holds none only if it was a mere try, asked for
      none, or stopped waiting in the kernel. */
  ghost predicate FinishedProperly(l: Local) {
    l.pc == Idle ==>
      && 0 <= l.got <= l.max
      && (l.got == 0 ==> l.timeout == TryOnly || l.max == 0 || l.gaveUp)
  }

  predicate InWait(pc: Pc) {
    pc != Idle && pc != SignalAdd && pc != Post
  }

  /** One access of a wait. What it took it has counted; and when it ends, it has got what it asked for or
      has left no token free. It comes back empty-handed only as a mere try that saw none free, or by taking
      its decrement back at a negative count. */
  ghost predicate WaitsOn(s: State, s': State, l: Local, l': Local) {
    && l'.max == l.max && l'.timeout == l.timeout
    && l'.got - l.got == s'.acquired - s.acquired
    && (l'.pc == Idle ==>
          && 0 <= l'.got <= l.max && (l'.got == l.max || s'.count <= 0)
          && (l'.got == 0 && l.max > 0 ==>
                || (l.timeout == TryOnly && s.count <= 0 && s'.count == s.count)
                || (l.timeout != TryOnly && s.count < 0 && s'.count == s.count + 1)))
  }

  lemma TryWaitsOn(s: State, t: nat, choice: bool)
    requires t < |s.threads| && LocalOk(s.threads[t])
    requires s.threads[t].pc in {TryLoad, TryCas, SpinLoad, SpinCas, MoreLoad, MoreCas}
    ensures var s' := StepThread(s, t, Signal(0), choice); WaitsOn(s, s', s.threads[t], s'.threads[t])
  {
  }

  lemma SlowWaitsOn(s: State, t: nat, choice: bool)
    requires t < |s.threads| && LocalOk(s.threads[t])
    requires s.threads[t].pc in {Subtract, Blocked, RepairLoad, RepairTry, RepairCas}
    ensures var s' := StepThread(s, t, Signal(0), choice); WaitsOn(s, s', s.threads[t], s'.threads[t])
  {
  }

  /** What is asked for matters to an idle thread only. */
  lemma RequestIgnored(s: State, t: nat, request: Request, choice: bool)
    requires t < |s.threads| && s.threads[t].pc != Idle
    ensures StepThread(s, t, request, choice) == StepThread(s, t, Signal(0), choice)
  {
  }

  lemma WaitGoesOn(s: State, e: Event)
    requires Inv(s) && e.t < |s.threads| && InWait(s.threads[e.t].pc)
    ensures WaitsOn(s, Step(s, e), s.threads[e.t], Step(s, e).threads[e.t])
  {
    assert LocalOk(s.threads[e.t]);
    hide Inv, LocalOk, StepThread, WaitsOn;
    RequestIgnored(s, e.t, e.request, e.choice);
    match s.threads[e.t].pc
    case Subtract => SlowWaitsOn(s, e.t, e.choice);
    case Blocked => SlowWaitsOn(s, e.t, e.choice);
    case RepairLoad => SlowWaitsOn(s, e.t, e.choice);
    case RepairTry => SlowWaitsOn(s, e.t, e.choice);
    case RepairCas => SlowWaitsOn(s, e.t, e.choice);
    case _ => TryWaitsOn(s, e.t, e.choice);
  }

  /** In every run: what each access of a wait does, and what a finished wait holds. */
  lemma WaitResult(n: nat, initial: nat, schedule: seq<Event>, e: Event)
    ensures var s := Execute(Init(n, initial), schedule);
      && (e.t < |s.threads| && InWait(s.threads[e.t].pc) ==>
            WaitsOn(s, Step(s, e), s.threads[e.t], Step(s, e).threads[e.t]))
      && forall t :: 0 <= t < |s.threads| ==> FinishedProperly(s.threads[t])
  {
    EveryRun(n, initial, schedule);
    var s := Execute(Init(n, initial), schedule);
    if e.t < |s.threads| && InWait(s.threads[e.t].pc) {
      WaitGoesOn(s, e);
    }
    forall t | 0 <= t < |s.threads| ensures FinishedProperly(s.threads[t]) {
      assert LocalOk(s.threads[t]);
    }
  }
}
