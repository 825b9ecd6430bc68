/** What a wait or a signal of the light-weight semaphore achieves while the other threads pause. */
module SemaphoreAlone {
  import opened LightweightSemaphore

  /** The next access of thread t. */
  function Turn(t: nat): Event {
    Event(t, Signal(0), false)
  }

  function Turns(t: nat, n: nat): seq<Event> {
    seq(n, _ => Turn(t))
  }

  /** n accesses of thread t. */
  function Alone(s: State, t: nat, n: nat): State {
    if n == 0 then s else Step(Alone(s, t, n - 1), Turn(t))
  }

  lemma {:induction false} AloneIsASchedule(s: State, t: nat, n: nat)
    ensures Alone(s, t, n) == Execute(s, Turns(t, n))
  {
    hide Step;
    if n > 0 {
      AloneIsASchedule(s, t, n - 1);
      assert Turns(t, n)[..n - 1] == Turns(t, n - 1);
    }
  }

  lemma {:induction false} AloneAdds(s: State, t: nat, m: nat, n: nat)
    ensures Alone(Alone(s, t, m), t, n) == Alone(s, t, m + n)
  {
    hide Step;
    if n > 0 {
      AloneAdds(s, t, m, n - 1);
    }
  }

  // Waiting.

  function Least(a: int, b: int): int {
    if a < b then a else b
  }

  /** The tokens that a wait finds at this point. */
  function Within(s: State, l: Local): int {
    match l.pc
    case MoreLoad => 1 + Positive(s.count)
    case MoreCas => 1 + Positive(s.count)
    case Blocked => 1 + Positive(s.count)
    case RepairLoad => 1 + Positive(s.count)
    case RepairTry => 1 + Positive(s.count)
    case RepairCas => 1 + Positive(s.count)
    case _ => s.count
  }

  /** There is a token for the wait: a free one, or one in the kernel if it has gone there. */
  predicate HasToken(s: State, l: Local) {
    match l.pc
    case TryLoad => s.count > 0
    case TryCas => s.count > 0
    case SpinLoad => s.count > 0
    case SpinCas => s.count > 0
    case Subtract => s.count > 0
    case MoreLoad => true
    case MoreCas => true
    case Blocked => s.kernel > 0
    case RepairLoad => s.count >= 0 && s.kernel > 0
    case RepairTry => s.count >= 0 && s.kernel > 0
    case RepairCas => s.count >= 0 && s.kernel > 0
    case _ => false
  }

  /** No more accesses than these are left. */
  function Left(s: State, l: Local): nat {
    match l.pc
    case TryLoad => 2
    case TryCas => if s.count == l.seen then 1 else 2
    case SpinLoad => 2
    case SpinCas => if s.count == l.seen then 1 else 3
    case Subtract => 3
    case MoreLoad => 2
    case MoreCas => if s.count == l.seen then 1 else 2
    case Blocked => 3
    case RepairTry => 3
    case RepairLoad => 4
    case RepairCas => 5
    case _ => 0
  }

  /** One access brings the wait nearer to what it is going to get. */
  ghost predicate Nearer(s: State, s': State, t: nat)
    requires t < |s.threads|
  {
    && |s'.threads| == |s.threads| && s'.threads == s.threads[t := s'.threads[t]]
    && var l, l' := s.threads[t], s'.threads[t];
      && l'.max == l.max && l'.timeout == l.timeout && l'.gaveUp == l.gaveUp
      && (if l'.pc == Idle then l'.got == Least(l.max, Within(s, l))
          else Left(s', l') < Left(s, l) && InWait(l'.pc) && HasToken(s', l')
               && Least(l.max, Within(s', l')) == Least(l.max, Within(s, l)))
  }

  lemma TryNearer(s: State, t: nat)
    requires t < |s.threads| && LocalOk(s.threads[t]) && HasToken(s, s.threads[t])
    requires s.threads[t].pc in {TryLoad, TryCas, SpinLoad, SpinCas, MoreLoad, MoreCas}
    ensures Nearer(s, Step(s, Turn(t)), t)
  {
  }

  lemma SlowNearer(s: State, t: nat)
    requires t < |s.threads| && LocalOk(s.threads[t]) && HasToken(s, s.threads[t])
    requires s.threads[t].pc in {Subtract, Blocked, RepairLoad, RepairTry, RepairCas}
    ensures Nearer(s, Step(s, Turn(t)), t)
  {
  }

  lemma GetsNearer(s: State, t: nat)
    requires Inv(s) && t < |s.threads| && InWait(s.threads[t].pc) && HasToken(s, s.threads[t])
    ensures Nearer(s, Step(s, Turn(t)), t) && Inv(Step(s, Turn(t)))
  {
    assert LocalOk(s.threads[t]);
    hide Inv, LocalOk, Step, Nearer, HasToken;
    StepKeeps(s, Turn(t));
    match s.threads[t].pc
    case Subtract => SlowNearer(s, t);
    case Blocked => SlowNearer(s, t);
    case RepairLoad => SlowNearer(s, t);
    case RepairTry => SlowNearer(s, t);
    case RepairCas => SlowNearer(s, t);
    case _ => TryNearer(s, t);
  }

  lemma NearerMeans(s: State, s': State, t: nat)
    requires t < |s.threads| && Nearer(s, s', t)
    ensures |s'.threads| == |s.threads| && s'.threads == s.threads[t := s'.threads[t]]
    ensures s'.threads[t].pc == Idle ==> s'.threads[t].got == Least(s.threads[t].max, Within(s, s.threads[t]))
    ensures s'.threads[t].pc != Idle ==>
      && InWait(s'.threads[t].pc) && HasToken(s', s'.threads[t]) && s'.threads[t].max == s.threads[t].max
      && Left(s', s'.threads[t]) < Left(s, s.threads[t])
      && Least(s.threads[t].max, Within(s', s'.threads[t])) == Least(s.threads[t].max, Within(s, s.threads[t]))
  {
  }

  /** A wait for which there is a token, wherever it is, ends by its own accesses: with all that it asked for, or
      with all that there is. Until then it is not idle. */
  lemma {:induction false} TakesAlone(s: State, t: nat) returns (n: nat)
    requires Inv(s) && t < |s.threads| && InWait(s.threads[t].pc) && HasToken(s, s.threads[t])
    ensures n <= Left(s, s.threads[t])
    ensures var s' := Alone(s, t, n);
      && Inv(s') && |s'.threads| == |s.threads| && s'.threads == s.threads[t := s'.threads[t]]
      && s'.threads[t].pc == Idle && s'.threads[t].got == Least(s.threads[t].max, Within(s, s.threads[t]))
    ensures forall j :: 0 <= j < n ==> |Alone(s, t, j).threads| == |s.threads| && InWait(Alone(s, t, j).threads[t].pc)
    decreases Left(s, s.threads[t])
  {
    hide Inv, Step, Nearer, HasToken, Left, Within, InWait;
    GetsNearer(s, t);
    var s1 := Step(s, Turn(t));
    NearerMeans(s, s1, t);
    assert Alone(s, t, 0) == s && Alone(s, t, 1) == s1;
    if s1.threads[t].pc == Idle {
      n := 1;
      SomethingLeft(s, s.threads[t]);
    } else {
      var m := TakesAlone(s1, t);
      AloneAdds(s, t, 1, m);
      n := 1 + m;
      forall j | 0 <= j < n ensures |Alone(s, t, j).threads| == |s.threads| && InWait(Alone(s, t, j).threads[t].pc) {
        if j > 0 {
          AloneAdds(s, t, 1, j - 1);
        }
      }
    }
  }

  lemma SomethingLeft(s: State, l: Local)
    requires HasToken(s, l)
    ensures Left(s, l) >= 1
  {
  }

  /** The first two accesses of a wait that begins while tokens are free, or the first one if none is. */
  lemma Begins(s: State, t: nat, max: nat, timeout: Timeout, choice: bool)
    requires Inv(s) && t < |s.threads| && s.threads[t].pc == Idle
    ensures var s' := Step(s, Event(t, WaitMany(max, timeout), choice));
      && Inv(s') && |s'.threads| == |s.threads| && s'.threads == s.threads[t := s'.threads[t]]
      && s'.threads[t].pc == TryLoad && s'.threads[t].max == max && s'.threads[t].timeout == timeout
      && s'.count == s.count && s'.kernel == s.kernel && s'.acquired == s.acquired
  {
    StepKeeps(s, Event(t, WaitMany(max, timeout), choice));
    hide Inv;
  }

  /** Any wait that begins while tokens are free and is not interrupted takes as many as it asked for, or all
      there are, with its third access, whatever its timeout. */
  lemma LoneWait(s: State, t: nat, max: nat, timeout: Timeout, choice: bool)
    requires Inv(s) && t < |s.threads| && s.threads[t].pc == Idle && s.count > 0
    ensures var s' := Execute(s, [Event(t, WaitMany(max, timeout), choice)] + Turns(t, 2));
      && |s'.threads| == |s.threads| && s'.threads == s.threads[t := s'.threads[t]]
      && s'.threads[t].pc == Idle && s'.threads[t].got == Least(max, s.count)
      && s'.count == s.count - Least(max, s.count) && s'.kernel == s.kernel
  {
    var e := Event(t, WaitMany(max, timeout), choice);
    var schedule := [e] + Turns(t, 2);
    assert schedule == [e, Turn(t), Turn(t)] && schedule[..2] == [e, Turn(t)] && schedule[..2][..1] == [e] && [e][..0] == [];
    Begins(s, t, max, timeout, choice);
    var s1 := Step(s, e);
    assert Execute(s, [e]) == s1;
    assert Execute(s, schedule[..2]) == Step(s1, Turn(t));
    TakesTwice(s1, t);
  }

  lemma TakesTwice(s: State, t: nat)
    requires t < |s.threads| && s.threads[t].pc == TryLoad && s.count > 0
    ensures var s' := Step(Step(s, Turn(t)), Turn(t)); var taken := Least(s.threads[t].max, s.count);
      && |s'.threads| == |s.threads| && s'.threads == s.threads[t := s'.threads[t]]
      && (s.threads[t].got == 0 ==> s'.threads[t].pc == Idle && s'.threads[t].got == taken)
      && s'.count == s.count - taken && s'.kernel == s.kernel
  {
  }

  /** A mere try that finds no token free, like a wait for none at all, comes back with its second access and
      leaves everything as it was. */
  lemma LoneTryFails(s: State, t: nat, max: nat, timeout: Timeout, choice: bool)
    requires Inv(s) && t < |s.threads| && s.threads[t].pc == Idle && s.count <= 0 && (timeout == TryOnly || max == 0)
    ensures var s' := Execute(s, [Event(t, WaitMany(max, timeout), choice), Turn(t)]);
      && s' == s.(threads := s'.threads) && |s'.threads| == |s.threads| && s'.threads == s.threads[t := s'.threads[t]]
      && s'.threads[t].pc == Idle && s'.threads[t].got == 0
  {
    var e := Event(t, WaitMany(max, timeout), choice);
    assert [e, Turn(t)][..1] == [e] && [e][..0] == [];
    assert Execute(s, [e]) == Step(s, e);
    hide Inv;
  }

  /** Four accesses of a wait: the call, its try, the end of its spinning and its decrement. */
  function GivesUpSpinning(t: nat, max: nat, timeout: Timeout): seq<Event> {
    [Event(t, WaitMany(max, timeout), true), Turn(t), Event(t, Signal(0), true), Turn(t)]
  }

  lemma AfterSpinning(s: State, t: nat, max: nat, timeout: Timeout)
    requires t < |s.threads| && s.threads[t].pc == Idle && s.count <= 0 && timeout != TryOnly && max > 0
    ensures var s' := Execute(s, GivesUpSpinning(t, max, timeout));
      && |s'.threads| == |s.threads| && s'.threads == s.threads[t := s'.threads[t]]
      && s'.count == s.count - 1 && s'.kernel == s.kernel
      && s'.threads[t].pc == (if timeout == MayBlock then Blocked else RepairLoad) && s'.threads[t].got == 0
  {
    var schedule := GivesUpSpinning(t, max, timeout);
    assert schedule[..3][..2] == schedule[..2] && schedule[..2][..1] == schedule[..1] && schedule[..1][..0] == [];
    var s1 := Step(s, schedule[0]);
    assert Execute(s, schedule[..1]) == s1;
    assert Execute(s, schedule[..2]) == Step(s1, Turn(t));
    assert Execute(s, schedule[..3]) == Step(Step(s1, Turn(t)), schedule[2]);
  }

  /** A wait that finds no token free and stops spinning sleeps until a post comes, if it may block; otherwise it
      takes its decrement back and comes back with nothing. */
  lemma LoneWaitInVain(s: State, t: nat, max: nat, timeout: Timeout)
    requires t < |s.threads| && s.threads[t].pc == Idle && s.count <= 0 && timeout != TryOnly && max > 0
    ensures var s' := Execute(s, GivesUpSpinning(t, max, timeout));
      && |s'.threads| == |s.threads|
      && (timeout == MayBlock ==>
            && s'.threads[t].pc == Blocked && s'.count == s.count - 1 && s'.kernel == s.kernel
            && (s'.kernel == 0 ==> Step(s', Turn(t)) == s'))
      && (timeout == Immediate ==>
            var s'' := Execute(s', Turns(t, 2));
            && s''.count == s.count && s''.kernel == s.kernel && |s''.threads| == |s.threads|
            && s''.threads[t].pc == Idle && s''.threads[t].got == 0)
  {
    AfterSpinning(s, t, max, timeout);
    hide Execute;
    var s' := Execute(s, GivesUpSpinning(t, max, timeout));
    AloneIsASchedule(s', t, 2);
    assert Alone(s', t, 1) == Step(Alone(s', t, 0), Turn(t)) == Step(s', Turn(t));
    assert Alone(s', t, 2) == Step(Step(s', Turn(t)), Turn(t));
  }

  // Signalling.

  lemma PostsOnce(s: State, t: nat)
    requires t < |s.threads| && s.threads[t].pc == Post
    ensures var l := s.threads[t];
      Step(s, Turn(t)) ==
        if l.amount == 0 then s.(threads := s.threads[t := l.(pc := Idle)])
        else s.(threads := s.threads[t := l.(amount := l.amount - 1)], kernel := s.kernel + 1)
  {
  }

  lemma First(s: State, t: nat)
    ensures Alone(s, t, 0) == s && Alone(s, t, 1) == Step(s, Turn(t))
  {
    hide Step;
  }

  lemma {:induction false} PostsAlone(s: State, t: nat, n: nat)
    requires t < |s.threads| && s.threads[t].pc == Post && s.threads[t].amount == n
    ensures var s' := Alone(s, t, n + 1);
      && s' == s.(kernel := s.kernel + n, threads := s'.threads)
      && |s'.threads| == |s.threads| && s'.threads == s.threads[t := s'.threads[t]] && s'.threads[t].pc == Idle
    ensures forall j :: 0 <= j <= n ==> |Alone(s, t, j).threads| == |s.threads| && Alone(s, t, j).threads[t].pc == Post
    decreases n
  {
    hide Step, Alone;
    First(s, t);
    PostsOnce(s, t);
    if n > 0 {
      PostsAlone(Step(s, Turn(t)), t, n - 1);
      AloneAdds(s, t, 1, n);
      forall j | 0 <= j <= n ensures |Alone(s, t, j).threads| == |s.threads| && Alone(s, t, j).threads[t].pc == Post {
        if j > 0 {
          AloneAdds(s, t, 1, j - 1);
        }
      }
    }
  }

  /** How many sleepers a signal of `amount` wakes. */
  function Woken(s: State, amount: nat): nat {
    Least(Positive(-s.count), amount)
  }

  lemma AddsItsAmount(s: State, t: nat, amount: nat, choice: bool)
    requires t < |s.threads| && s.threads[t].pc == Idle
    ensures var s1 := Step(s, Event(t, Signal(amount), choice)); var s2 := Step(s1, Turn(t));
      && s2 == s.(threads := s2.threads, count := s.count + amount, signalled := s.signalled + amount)
      && |s2.threads| == |s.threads| && s2.threads == s.threads[t := s2.threads[t]]
      && |s1.threads| == |s.threads| && s1.threads[t].pc == SignalAdd
      && (Woken(s, amount) == 0 ==> s2.threads[t].pc == Idle)
      && (Woken(s, amount) > 0 ==> s2.threads[t].pc == Post && s2.threads[t].amount == Woken(s, amount))
  {
  }

  /** A signal that is not interrupted adds its amount to the count and posts once for every sleeper that is
      owed a token now. */
  lemma LoneSignal(s: State, t: nat, amount: nat, choice: bool)
    requires t < |s.threads| && s.threads[t].pc == Idle
    ensures var s1 := Step(s, Event(t, Signal(amount), choice));
      var s' := Alone(s1, t, if Woken(s, amount) == 0 then 1 else 2 + Woken(s, amount));
      && s'.count == s.count + amount && s'.kernel == s.kernel + Woken(s, amount)
      && s'.signalled == s.signalled + amount && s'.acquired == s.acquired
      && |s'.threads| == |s.threads| && s'.threads == s.threads[t := s'.threads[t]] && s'.threads[t].pc == Idle
    ensures var s1 := Step(s, Event(t, Signal(amount), choice));
      forall j :: 0 <= j < (if Woken(s, amount) == 0 then 1 else 2 + Woken(s, amount)) ==>
        |Alone(s1, t, j).threads| == |s.threads| && Alone(s1, t, j).threads[t].pc != Idle
  {
    hide Step, Alone, Woken;
    var s1 := Step(s, Event(t, Signal(amount), choice));
    AddsItsAmount(s, t, amount, choice);
    First(s1, t);
    if Woken(s, amount) > 0 {
      PostsAlone(Step(s1, Turn(t)), t, Woken(s, amount));
      AloneAdds(s1, t, 1, Woken(s, amount) + 1);
      forall j | 1 <= j < 2 + Woken(s, amount)
        ensures |Alone(s1, t, j).threads| == |s.threads| && Alone(s1, t, j).threads[t].pc != Idle
      {
        AloneAdds(s1, t, 1, j - 1);
      }
    }
  }
}
