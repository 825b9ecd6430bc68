/** What the callers of the free list get: the result of each try_get, and what a thread achieves by its own
    accesses while the others pause. */
module FreeListCalls {
  import opened Options
  import opened Tally
  import opened FreeList

  // The results of the calls.

  /** What an observer of the shared list knows of the last call of a thread: whether it is a try_get, which
      node the thread has taken off the list in it, and the head it looked at last. */
  datatype Call = Call(getting: bool, took: Option<nat>, head: Option<nat>)

  function Observe(call: Call, s: State, s': State, t: nat, request: Request): Call
    requires t < |s.threads| && t < |s'.threads|
  {
    if s.threads[t].pc == Idle then
      if s'.threads[t].pc == Idle then call else Call(request.Get?, None, None)
    else
      Call(call.getting,
        if |s'.list| < |s.list| then Some(s.list[0]) else call.took,
        if s.threads[t].pc in {LoadHead, CasHead} then s.head else call.head)
  }

  function LastCall(s: State, schedule: seq<Event>, t: nat): Call
    requires Shaped(s) && t < |s.threads|
  {
    if schedule == [] then Call(false, None, None)
    else
      var before, e := schedule[..|schedule| - 1], schedule[|schedule| - 1];
      if e.t == t then Observe(LastCall(s, before, t), Execute(s, before), Execute(s, schedule), t, e.request)
      else LastCall(s, before, t)
  }

  /** What a thread's registers have to do with its call. */
  ghost predicate CallOk(l: Local, call: Call) {
    && (l.pc != Idle ==> l.getting == call.getting)
    && (l.pc in {LoadHead, LoadRefs, CasRefs, LoadNext, CasHead, CheckTaken, SubTwo, DropRef} ==> l.getting)
    && (l.pc == AddFlag ==> !l.getting)
    && (l.pc != Idle && l.pc != LoadHead && l.getting ==> l.head == call.head)
    && (l.pc in {LoadRefs, CasRefs, LoadNext, CasHead} ==> l.head == Some(l.node))
    && (l.pc in {CheckTaken, SubTwo} ==> call.took == Some(l.node))
    && (l.pc != Idle && l.pc !in {CheckTaken, SubTwo} ==> call.took == None)
    && (l.pc == Idle && call.getting ==> l.got == call.took && (l.got == None ==> call.head == None))
  }

  /** The list gets shorter only when a thread takes its first node off. */
  lemma Takes(s: State, e: Event)
    requires Inv(s) && e.t < |s.threads|
    ensures var s' := Step(s, e); var l := s.threads[e.t];
      if l.pc == CasHead && s.head == Some(l.node) then |s'.list| < |s.list| && s.list[0] == l.node
      else |s'.list| >= |s.list|
  {
    if s.head.Some? {
      HeadInRange(s.head, s.next, s.list);
    }
    NodeInRange(s, e.t);
    hide Inv, Plus;
    match s.threads[e.t].pc
    case CasHead =>
    case CasTop =>
    case _ =>
  }

  ghost predicate Observed(s: State, e: Event, call: Call)
    requires Shaped(s) && e.t < |s.threads|
  {
    CallOk(Step(s, e).threads[e.t], Observe(call, s, Step(s, e), e.t, e.request))
  }

  lemma GetObserved(s: State, e: Event, call: Call)
    requires Inv(s) && e.t < |s.threads| && CallOk(s.threads[e.t], call)
    requires s.threads[e.t].pc in {Idle, LoadHead, LoadRefs, CasRefs, LoadNext, CasHead, CheckTaken, SubTwo}
    ensures Observed(s, e, call)
  {
    Takes(s, e);
    NodeInRange(s, e.t);
    hide Inv, Plus;
  }

  lemma PutObserved(s: State, e: Event, call: Call)
    requires Inv(s) && e.t < |s.threads| && CallOk(s.threads[e.t], call)
    requires s.threads[e.t].pc in {DropRef, AddFlag, LoadTop, StoreNext, StoreRefs, CasTop, RestoreFlag}
    ensures Observed(s, e, call)
  {
    Takes(s, e);
    NodeInRange(s, e.t);
    hide Inv, Plus;
  }

  lemma NodeInRange(s: State, t: nat)
    requires Inv(s) && t < |s.threads|
    ensures s.threads[t].pc != Idle && s.threads[t].pc != LoadHead ==> s.threads[t].node < |s.refs|
  {
    assert ThreadOk(s, t);
  }

  lemma StepObserved(s: State, e: Event, call: Call)
    requires Inv(s) && e.t < |s.threads| && CallOk(s.threads[e.t], call)
    ensures Observed(s, e, call)
  {
    hide CallOk, Observed;
    match s.threads[e.t].pc
    case DropRef => PutObserved(s, e, call);
    case AddFlag => PutObserved(s, e, call);
    case LoadTop => PutObserved(s, e, call);
    case StoreNext => PutObserved(s, e, call);
    case StoreRefs => PutObserved(s, e, call);
    case CasTop => PutObserved(s, e, call);
    case RestoreFlag => PutObserved(s, e, call);
    case _ => GetObserved(s, e, call);
  }

  lemma OtherThread(s: State, e: Event, t: nat)
    requires Shaped(s) && t < |s.threads| && e.t != t
    ensures Step(s, e).threads[t] == s.threads[t]
  {
    hide Plus;
  }

  lemma {:induction false} RunObserved(threads: nat, nodes: nat, schedule: seq<Event>, t: nat)
    requires threads + 1 < SHOULD_BE_ON_FREELIST && t < threads
    ensures CallOk(Execute(Init(threads, nodes), schedule).threads[t], LastCall(Init(threads, nodes), schedule, t))
  {
    hide Step, CallOk, Observe, Inv;
    if schedule == [] {
      Unused(threads, nodes, t);
    } else {
      var before := schedule[..|schedule| - 1];
      var s := Execute(Init(threads, nodes), before);
      RunObserved(threads, nodes, before, t);
      EveryRun(threads, nodes, before);
      if schedule[|before|].t == t {
        StepObserved(s, schedule[|before|], LastCall(Init(threads, nodes), before, t));
      } else {
        OtherThread(s, schedule[|before|], t);
      }
    }
  }

  lemma Unused(threads: nat, nodes: nat, t: nat)
    requires t < threads
    ensures CallOk(Init(threads, nodes).threads[t], Call(false, None, None))
  {
  }

  /** In every run a finished try_get returns the node that this call has taken off the list, and nothing only
      if it took none and the last head it saw was null. */
  lemma GetReturnsWhatItTook(threads: nat, nodes: nat, schedule: seq<Event>, t: nat)
    requires threads + 1 < SHOULD_BE_ON_FREELIST && t < threads
    ensures var l := Execute(Init(threads, nodes), schedule).threads[t];
      var call := LastCall(Init(threads, nodes), schedule, t);
      l.pc == Idle && call.getting ==> l.got == call.took && (l.got == None ==> call.head == None)
  {
    RunObserved(threads, nodes, schedule, t);
  }

  // One thread alone.

  /** What resuming try_get with head `h` costs at most, while no one else moves. */
  function ResumeCost(s: State, h: Option<nat>): nat {
    if h == None then 0 else if h == s.head then 6 else if h.value in s.list then 11 else 20
  }

  /** The same once another node has been put in front. */
  function LaterCost(s: State, l: Local): nat {
    if !l.getting || l.head == None then 0 else if l.head.value in s.list then 11 else 20
  }

  /** What reading and referencing node x costs, `soFar` accesses on. */
  function ReferenceCost(s: State, x: nat, soFar: nat): nat
    requires soFar <= 3
  {
    (if s.head == Some(x) then 6 else if x in s.list then 11 else 20) - soFar
  }

  /** No more accesses than these are left to thread t. */
  function Left(s: State, t: nat): nat
    requires Shaped(s) && t < |s.threads|
  {
    var l := s.threads[t];
    var x := l.node;
    match l.pc
    case Idle => 0
    case LoadHead => 7
    case LoadRefs => ReferenceCost(s, x, 0)
    case CasRefs => if x < |s.refs| && s.refs[x] == l.seen then ReferenceCost(s, x, 1) else 8
    case LoadNext => ReferenceCost(s, x, 2)
    case CasHead => ReferenceCost(s, x, 3)
    case CheckTaken => 2
    case SubTwo => 1
    case DropRef =>
      if x < |s.refs| && s.refs[x] == SHOULD_BE_ON_FREELIST + 1 then 5 + LaterCost(s, l) else 1 + ResumeCost(s, l.head)
    case AddFlag => if x < |s.refs| && s.refs[x] == 0 then 5 else 1
    case LoadTop => 4 + LaterCost(s, l)
    case StoreNext => (if l.top == s.head then 3 else 7) + LaterCost(s, l)
    case StoreRefs => (if l.top == s.head then 2 else 6) + LaterCost(s, l)
    case CasTop => (if l.top == s.head then 1 else 5) + LaterCost(s, l)
    case RestoreFlag => (if l.top == s.head then 4 else 8) + LaterCost(s, l)
  }

  lemma LeftBounded(s: State, t: nat)
    requires Shaped(s) && t < |s.threads|
    ensures Left(s, t) <= 28
  {
  }

  /** The word of a listed node counts references only, at least the list's own. */
  lemma ListedRefs(s: State, x: nat)
    requires Inv(s) && x < |s.refs|
    ensures x in s.list ==> 0 < s.refs[x] < SHOULD_BE_ON_FREELIST
    ensures s.head.Some? ==> s.head.value < |s.refs| && s.head.value in s.list
  {
    assert NodeOk(s, x);
    CountFitsBelowFlag(s, x);
    if s.head.Some? {
      HeadInRange(s.head, s.next, s.list);
    }
    if x in s.list {
      ReferencesPositive(s, x);
    }
  }

  lemma ReferencesPositive(s: State, x: nat)
    requires Inv(s) && x < |s.refs| && s.place[x] == OnList
    ensures References(s, x) > 0
  {
    SumNonNegative(s.threads, WeightOn(x));
  }

  /** A thread that has just got in. */
  predicate Alright(l: Local) {
    && (l.pc in {LoadRefs, CasRefs, LoadNext, CasHead} ==> l.head == Some(l.node))
    && (l.pc in {LoadHead, LoadRefs, CasRefs, LoadNext, CasHead, CheckTaken, SubTwo, DropRef} ==> l.getting)
    && (l.pc == AddFlag ==> !l.getting)
  }

  lemma GetDescends(s: State, t: nat, request: Request)
    requires Inv(s) && t < |s.threads| && Alright(s.threads[t])
    requires s.threads[t].pc in {LoadHead, LoadRefs, CasRefs, LoadNext, CasHead, CheckTaken, SubTwo}
    ensures Left(Step(s, Event(t, request)), t) < Left(s, t) && Alright(Step(s, Event(t, request)).threads[t])
  {
    NodeInRange(s, t);
    if s.threads[t].pc == LoadHead {
      HeadListed(s);
    } else {
      ListedRefs(s, s.threads[t].node);
    }
    hide Inv, Plus;
  }

  lemma HeadListed(s: State)
    requires Inv(s)
    ensures s.head.Some? ==> s.head.value < |s.refs| && s.head.value in s.list
  {
    if s.head.Some? {
      HeadInRange(s.head, s.next, s.list);
    }
  }

  lemma DropDescends(s: State, t: nat, request: Request)
    requires Inv(s) && t < |s.threads| && Alright(s.threads[t]) && s.threads[t].pc == DropRef
    ensures Left(Step(s, Event(t, request)), t) < Left(s, t) && Alright(Step(s, Event(t, request)).threads[t])
  {
    NodeInRange(s, t);
    hide Inv, Plus;
  }

  /** In front of a longer list nothing gets cheaper than foreseen. */
  lemma PushCost(s: State, t: nat)
    requires Inv(s) && t < |s.threads|
    ensures var l := s.threads[t]; var s' := s.(head := Some(l.node), list := [l.node] + s.list);
      l.getting ==> ResumeCost(s', l.head) <= LaterCost(s, l)
  {
    HeadListed(s);
    hide Inv;
  }

  lemma LaterEnough(s: State, l: Local)
    requires Inv(s)
    ensures l.getting ==> ResumeCost(s, l.head) <= LaterCost(s, l)
  {
    HeadListed(s);
    hide Inv;
  }

  lemma PutDescends(s: State, t: nat, request: Request)
    requires Inv(s) && t < |s.threads| && Alright(s.threads[t])
    requires s.threads[t].pc in {AddFlag, LoadTop, StoreNext, StoreRefs}
    ensures Left(Step(s, Event(t, request)), t) < Left(s, t) && Alright(Step(s, Event(t, request)).threads[t])
  {
    NodeInRange(s, t);
    hide Inv, Plus, ResumeCost;
  }

  lemma TopDescends(s: State, t: nat, request: Request)
    requires Inv(s) && t < |s.threads| && Alright(s.threads[t]) && s.threads[t].pc == CasTop
    ensures Left(Step(s, Event(t, request)), t) < Left(s, t) && Alright(Step(s, Event(t, request)).threads[t])
  {
    NodeInRange(s, t);
    PushCost(s, t);
    hide Inv, Plus;
  }

  lemma FlagDescends(s: State, t: nat, request: Request)
    requires Inv(s) && t < |s.threads| && Alright(s.threads[t]) && s.threads[t].pc == RestoreFlag
    ensures Left(Step(s, Event(t, request)), t) < Left(s, t) && Alright(Step(s, Event(t, request)).threads[t])
  {
    NodeInRange(s, t);
    LaterEnough(s, s.threads[t]);
    hide Inv, Plus;
  }

  lemma Descends(s: State, t: nat, request: Request)
    requires Inv(s) && t < |s.threads| && Alright(s.threads[t]) && s.threads[t].pc != Idle
    ensures Left(Step(s, Event(t, request)), t) < Left(s, t) && Alright(Step(s, Event(t, request)).threads[t])
  {
    hide Inv, Step, Left, Alright;
    match s.threads[t].pc
    case DropRef => DropDescends(s, t, request);
    case AddFlag => PutDescends(s, t, request);
    case LoadTop => PutDescends(s, t, request);
    case StoreNext => PutDescends(s, t, request);
    case StoreRefs => PutDescends(s, t, request);
    case CasTop => TopDescends(s, t, request);
    case RestoreFlag => FlagDescends(s, t, request);
    case _ => GetDescends(s, t, request);
  }

  /** Thread t goes on for n accesses and begins nothing new: there is no such node to add. */
  function Turns(s: State, t: nat, n: nat): seq<Event> {
    seq(n, _ => Event(t, Add(|s.refs|)))
  }

  lemma InvShaped(s: State)
    requires Inv(s)
    ensures Shaped(s)
  {
  }

  lemma Pauses(s: State, t: nat, y: nat)
    requires Shaped(s) && t < |s.threads| && s.threads[t].pc == Idle && y >= |s.refs|
    ensures Step(s, Event(t, Add(y))) == s
  {
  }

  lemma {:induction false} AfterTurns(s: State, t: nat, n: nat)
    requires Inv(s) && t < |s.threads| && Alright(s.threads[t])
    ensures var s' := Execute(s, Turns(s, t, n));
      Inv(s') && Alright(s'.threads[t]) && (s'.threads[t].pc == Idle || Left(s', t) + n <= Left(s, t))
  {
    hide Inv, Step, Left, Alright;
    InvShaped(s);
    if n > 0 {
      AfterTurns(s, t, n - 1);
      assert Turns(s, t, n)[..n - 1] == Turns(s, t, n - 1);
      var s' := Execute(s, Turns(s, t, n - 1));
      StepKeeps(s', Event(t, Add(|s.refs|)));
      if s'.threads[t].pc != Idle {
        Descends(s', t, Add(|s.refs|));
      } else {
        Pauses(s', t, |s.refs|);
      }
    } else {
      assert Turns(s, t, 0) == [];
    }
  }

  lemma CallIsAlright(l: Local, call: Call)
    requires CallOk(l, call)
    ensures Alright(l)
  {
  }

  /** From any point of any run a thread that goes on while the others pause finishes its call within 28
      accesses, wherever the others have stopped. */
  lemma EveryCallEnds(threads: nat, nodes: nat, schedule: seq<Event>, t: nat, n: nat)
    requires threads + 1 < SHOULD_BE_ON_FREELIST && t < threads && n >= 28
    ensures var s := Execute(Init(threads, nodes), schedule); Execute(s, Turns(s, t, n)).threads[t].pc == Idle
  {
    hide Inv, Left, Alright, CallOk;
    var s := Execute(Init(threads, nodes), schedule);
    EveryRun(threads, nodes, schedule);
    RunObserved(threads, nodes, schedule, t);
    CallIsAlright(s.threads[t], LastCall(Init(threads, nodes), schedule, t));
    AfterTurns(s, t, n);
    LeftBounded(s, t);
    if Execute(s, Turns(s, t, n)).threads[t].pc != Idle {
      StillAtWork(Execute(s, Turns(s, t, n)), t);
    }
  }

  lemma StillAtWork(s: State, t: nat)
    requires Shaped(s) && t < |s.threads| && s.threads[t].pc != Idle
    ensures Left(s, t) > 0
  {
  }

  // A whole call alone.

  /** On the way to the first node of the list. */
  ghost predicate Trying(s: State, t: nat, s': State)
    requires t < |s.threads|
  {
    && Shaped(s') && |s'.refs| == |s.refs| && |s'.threads| == |s.threads|
    && s'.threads == s.threads[t := s'.threads[t]] && s'.list == s.list && s'.head == s.head
    && var l := s'.threads[t];
      && l.getting && l.pc in {LoadHead, LoadRefs, CasRefs, LoadNext, CasHead}
      && (l.pc != LoadHead ==> s.head == Some(l.node) == l.head)
      && (l.pc == CasRefs ==> l.node < |s'.refs| && s'.refs[l.node] == l.seen)
  }

  /** The first node is off the list. */
  ghost predicate Taking(s: State, t: nat, s': State)
    requires t < |s.threads|
  {
    && Shaped(s') && |s'.refs| == |s.refs| && |s'.threads| == |s.threads|
    && s'.threads == s.threads[t := s'.threads[t]] && s.list != [] && s'.list == s.list[1..]
    && s'.threads[t].pc in {CheckTaken, SubTwo} && s'.threads[t].node == s.list[0] && s'.threads[t].getting
  }

  ghost predicate HasGot(s: State, t: nat, s': State)
    requires t < |s.threads|
  {
    && Shaped(s') && |s'.refs| == |s.refs| && |s'.threads| == |s.threads|
    && s'.threads == s.threads[t := s'.threads[t]] && s'.threads[t].pc == Idle
    && if s.list == [] then s'.list == [] && s'.threads[t].got == None
       else s'.list == s.list[1..] && s'.threads[t].got == Some(s.list[0])
            && s.list[0] < |s'.place| && s'.place[s.list[0]] == Owned
  }

  lemma TryGoesOn(s: State, t: nat, s': State, request: Request)
    requires Inv(s) && Inv(s') && t < |s.threads| && Trying(s, t, s')
    ensures var s'' := Step(s', Event(t, request)); Trying(s, t, s'') || Taking(s, t, s'') || HasGot(s, t, s'')
  {
    HeadIsFirst(s);
    HeadListed(s');
    if s'.threads[t].pc != LoadHead {
      ListedRefs(s', s'.threads[t].node);
    }
    hide Inv, Plus;
  }

  lemma HeadIsFirst(s: State)
    requires Inv(s)
    ensures s.head == if s.list == [] then None else Some(s.list[0])
  {
  }

  lemma TakeGoesOn(s: State, t: nat, s': State, request: Request)
    requires Inv(s') && t < |s.threads| && Taking(s, t, s')
    ensures var s'' := Step(s', Event(t, request)); Taking(s, t, s'') || HasGot(s, t, s'')
  {
    NodeInRange(s', t);
    hide Inv, Plus;
  }

  function Getting(s: State, t: nat, n: nat): seq<Event> {
    [Event(t, Get)] + Turns(s, t, n)
  }

  ghost predicate OnItsWay(s: State, t: nat, n: nat, s': State)
    requires t < |s.threads|
  {
    && Inv(s')
    && (HasGot(s, t, s') || ((Trying(s, t, s') || Taking(s, t, s')) && Left(s', t) + n <= 7 && Alright(s'.threads[t])))
  }

  lemma GetGoesOn(s: State, t: nat, n: nat, s': State)
    requires Inv(s) && t < |s.threads| && OnItsWay(s, t, n, s')
    ensures OnItsWay(s, t, n + 1, Step(s', Event(t, Add(|s.refs|))))
  {
    hide Inv, Step, Left, Alright, HasGot, Trying, Taking;
    var e := Event(t, Add(|s.refs|));
    StepKeeps(s', e);
    if HasGot(s, t, s') {
      GotIsIdle(s, t, s');
      Pauses(s', t, |s.refs|);
    } else {
      WayIsBusy(s, t, s');
      Descends(s', t, Add(|s.refs|));
      if Trying(s, t, s') { TryGoesOn(s, t, s', Add(|s.refs|)); } else { TakeGoesOn(s, t, s', Add(|s.refs|)); }
    }
  }

  lemma GotIsIdle(s: State, t: nat, s': State)
    requires t < |s.threads| && HasGot(s, t, s')
    ensures Shaped(s') && |s'.refs| == |s.refs| && t < |s'.threads| && s'.threads[t].pc == Idle
  {
  }

  lemma WayIsBusy(s: State, t: nat, s': State)
    requires t < |s.threads| && (Trying(s, t, s') || Taking(s, t, s'))
    ensures Shaped(s') && t < |s'.threads| && s'.threads[t].pc != Idle
  {
  }

  lemma GetStarts(s: State, t: nat)
    requires Inv(s) && t < |s.threads| && s.threads[t].pc == Idle
    ensures OnItsWay(s, t, 0, Step(s, Event(t, Get)))
  {
    StepKeeps(s, Event(t, Get));
    hide Inv, Plus, Taking, HasGot;
  }

  lemma {:induction false} GetAfter(s: State, t: nat, n: nat)
    requires Inv(s) && t < |s.threads| && s.threads[t].pc == Idle
    ensures OnItsWay(s, t, n, Execute(s, Getting(s, t, n)))
  {
    hide Inv, Step, OnItsWay;
    InvShaped(s);
    if n == 0 {
      assert Getting(s, t, 0)[..0] == [] && Getting(s, t, 0) == [Event(t, Get)];
      GetStarts(s, t);
    } else {
      GetAfter(s, t, n - 1);
      assert Getting(s, t, n)[..n] == Getting(s, t, n - 1);
      GetGoesOn(s, t, n - 1, Execute(s, Getting(s, t, n - 1)));
    }
  }

  /** A try_get that is not interrupted returns the first node of the list and leaves the rest, or nothing from
      an empty list; no other thread is disturbed. */
  lemma LoneGet(s: State, t: nat, n: nat)
    requires Inv(s) && t < |s.threads| && s.threads[t].pc == Idle && n >= 7
    ensures var s' := Execute(s, Getting(s, t, n)); var l := s'.threads[t];
      && s'.threads == s.threads[t := l] && l.pc == Idle
      && (s.list == [] ==> l.got == None && s'.list == [])
      && (s.list != [] ==>
            && l.got == Some(s.list[0]) && s'.list == s.list[1..]
            && s.list[0] < |s'.place| && s'.place[s.list[0]] == Owned)
  {
    hide Inv, Execute, Left, Trying, Taking, Alright;
    InvShaped(s);
    GetAfter(s, t, n);
    var s' := Execute(s, Getting(s, t, n));
    if Trying(s, t, s') || Taking(s, t, s') {
      WayIsBusy(s, t, s');
      StillAtWork(s', t);
    }
  }

  // An add alone.

  ghost predicate Adding(s: State, t: nat, y: nat, s': State)
    requires t < |s.threads| && y < |s.refs|
  {
    && Shaped(s') && |s'.refs| == |s.refs| && |s'.threads| == |s.threads|
    && s'.threads == s.threads[t := s'.threads[t]] && s'.list == s.list && s'.head == s.head
    && var l := s'.threads[t];
      && !l.getting && l.node == y && l.pc in {AddFlag, LoadTop, StoreNext, StoreRefs, CasTop}
      && (l.pc in {StoreNext, StoreRefs, CasTop} ==> l.top == s.head)
      && (if l.pc == AddFlag then s'.refs[y] == s.refs[y] else s.refs[y] == 0)
  }

  ghost predicate Added(s: State, t: nat, y: nat, s': State)
    requires t < |s.threads| && y < |s.refs|
  {
    && Shaped(s') && |s'.refs| == |s.refs| && |s'.threads| == |s.threads|
    && s'.threads == s.threads[t := s'.threads[t]] && s'.threads[t].pc == Idle
    && if s.refs[y] == 0 then s'.list == [y] + s.list && s'.head == Some(y)
       else s'.list == s.list && s'.head == s.head && s'.place[y] == Awaiting
  }

  function Putting(s: State, t: nat, y: nat, n: nat): seq<Event> {
    [Event(t, Add(y))] + Turns(s, t, n)
  }

  ghost predicate OnItsWayBack(s: State, t: nat, y: nat, n: nat, s': State)
    requires t < |s.threads| && y < |s.refs|
  {
    && Inv(s')
    && (Added(s, t, y, s') || (Adding(s, t, y, s') && Left(s', t) + n <= 5 && Alright(s'.threads[t])))
  }

  lemma AddStarts(s: State, t: nat, y: nat)
    requires Inv(s) && t < |s.threads| && s.threads[t].pc == Idle && y < |s.refs| && s.place[y] == Owned
    ensures OnItsWayBack(s, t, y, 0, Step(s, Event(t, Add(y))))
  {
    StepKeeps(s, Event(t, Add(y)));
    hide Inv, Plus, Added;
  }

  lemma AddingGoesOn(s: State, t: nat, y: nat, s': State, request: Request)
    requires t < |s.threads| && y < |s.refs| && Adding(s, t, y, s')
    ensures var s'' := Step(s', Event(t, request)); Adding(s, t, y, s'') || Added(s, t, y, s'')
  {
    hide Plus;
  }

  lemma AddGoesOn(s: State, t: nat, y: nat, n: nat, s': State)
    requires t < |s.threads| && y < |s.refs| && OnItsWayBack(s, t, y, n, s')
    ensures OnItsWayBack(s, t, y, n + 1, Step(s', Event(t, Add(|s.refs|))))
  {
    hide Inv, Step, Left, Alright, Adding, Added;
    StepKeeps(s', Event(t, Add(|s.refs|)));
    AddShape(s, t, y, s');
    if Added(s, t, y, s') {
      Pauses(s', t, |s.refs|);
    } else {
      Descends(s', t, Add(|s.refs|));
      AddingGoesOn(s, t, y, s', Add(|s.refs|));
    }
  }

  lemma AddShape(s: State, t: nat, y: nat, s': State)
    requires t < |s.threads| && y < |s.refs|
    ensures Added(s, t, y, s') ==> Shaped(s') && |s'.refs| == |s.refs| && t < |s'.threads| && s'.threads[t].pc == Idle
    ensures Adding(s, t, y, s') ==> Shaped(s') && |s'.refs| == |s.refs| && t < |s'.threads| && s'.threads[t].pc != Idle
  {
  }

  lemma {:induction false} AddAfter(s: State, t: nat, y: nat, n: nat)
    requires Inv(s) && t < |s.threads| && s.threads[t].pc == Idle && y < |s.refs| && s.place[y] == Owned
    ensures OnItsWayBack(s, t, y, n, Execute(s, Putting(s, t, y, n)))
  {
    hide Inv, Step, OnItsWayBack;
    InvShaped(s);
    if n == 0 {
      assert Putting(s, t, y, 0)[..0] == [] && Putting(s, t, y, 0) == [Event(t, Add(y))];
      AddStarts(s, t, y);
    } else {
      AddAfter(s, t, y, n - 1);
      assert Putting(s, t, y, n)[..n] == Putting(s, t, y, n - 1);
      AddGoesOn(s, t, y, n - 1, Execute(s, Putting(s, t, y, n - 1)));
    }
  }

  /** An add that is not interrupted puts its node in front of the list, unless some thread still refers to the
      node: then it leaves that to the last of them. */
  lemma LoneAdd(s: State, t: nat, y: nat, n: nat)
    requires Inv(s) && t < |s.threads| && s.threads[t].pc == Idle && y < |s.refs| && s.place[y] == Owned && n >= 5
    ensures var s' := Execute(s, Putting(s, t, y, n));
      && s'.threads == s.threads[t := s'.threads[t]] && s'.threads[t].pc == Idle
      && (s.refs[y] == 0 ==> s'.list == [y] + s.list && s'.head == Some(y))
      && (s.refs[y] != 0 ==> s'.list == s.list && s'.head == s.head && s'.place[y] == Awaiting)
  {
    hide Inv, Execute, Left, Adding, Alright;
    InvShaped(s);
    AddAfter(s, t, y, n);
    var s' := Execute(s, Putting(s, t, y, n));
    AddShape(s, t, y, s');
    if Adding(s, t, y, s') {
      StillAtWork(s', t);
    }
  }
}
