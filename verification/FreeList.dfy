/** The lock-free free list of blocks: a CAS-based stack whose nodes carry a reference count and a
    should-be-on-free-list bit in one 32-bit word.

    Threads come and go in any interleaving; each step is one atomic access. `list` is history: the chain
    hanging from the head. So is `place`, where each node currently belongs, except that it also holds
    the clients to their discipline: the step that starts an add looks whether the client owns the node. */
module FreeList {
  import opened Options
  import opened Tally

  const SHOULD_BE_ON_FREELIST: nat := 0x8000_0000
  const WORD: nat := 0x1_0000_0000

  /** The next atomic access of a thread. LoadHead .. DropRef belong to try_get, AddFlag to add and
      LoadTop .. RestoreFlag to add_knowing_refcount_is_zero. */
  datatype Pc =
    | Idle
    | LoadHead | LoadRefs | CasRefs | LoadNext | CasHead | CheckTaken | SubTwo | DropRef
    | AddFlag
    | LoadTop | StoreNext | StoreRefs | CasTop | RestoreFlag

  datatype Local = Local(
    pc: Pc, getting: bool, node: nat, head: Option<nat>, seen: nat, next: Option<nat>, top: Option<nat>,
    got: Option<nat>)

  datatype Place = OnList | Owned | HeldBy(t: nat) | Awaiting

  datatype State = State(
    head: Option<nat>, refs: seq<nat>, next: seq<Option<nat>>, threads: seq<Local>,
    place: seq<Place>, list: seq<nat>)

  /** An idle thread may start try_get, or add a node that its client owns. */
  datatype Request = Get | Add(node: nat)

  datatype Event = Event(t: nat, request: Request)

  function IdleThread(): Local {
    Local(Idle, false, 0, None, 0, None, None, None)
  }

  function Init(threads: nat, nodes: nat): State {
    State(None, seq(nodes, _ => 0), seq(nodes, _ => None), seq(threads, _ => IdleThread()), seq(nodes, _ => Owned), [])
  }

  function With(s: State, t: nat, l: Local): (s': State)
    requires t < |s.threads|
  {
    s.(threads := s.threads[t := l])
  }

  function Plus(word: nat, amount: int): nat {
    (word + amount) % WORD
  }

  function Put(s: State, x: nat, word: nat): State
    requires x < |s.refs|
  {
    s.(refs := s.refs[x := word])
  }

  function Move(s: State, x: nat, p: Place): State
    requires x < |s.place|
  {
    s.(place := s.place[x := p])
  }

  /** Round the loop of try_get with the head value in hand. */
  function Resume(l: Local): Local {
    match l.head
    case None => l.(pc := Idle, got := None)
    case Some(x) => l.(pc := LoadRefs, node := x)
  }

  function AfterAdd(l: Local): Local {
    if l.getting then Resume(l) else l.(pc := Idle)
  }

  predicate Shaped(s: State) {
    |s.refs| == |s.next| == |s.place|
  }

  function StepThread(s: State, t: nat, request: Request): (s': State)
    requires Shaped(s) && t < |s.threads|
    ensures Shaped(s') && |s'.threads| == |s.threads| && |s'.refs| == |s.refs|
  {
    var l := s.threads[t];
    var x := l.node;
    if l.pc != Idle && l.pc != LoadHead && x >= |s.refs| then s else
    match l.pc
    case Idle =>
      (match request
       case Get => With(s, t, l.(pc := LoadHead, getting := true, node := 0))
       case Add(y) =>
         if y < |s.refs| && s.place[y] == Owned then
           Move(With(s, t, l.(pc := AddFlag, getting := false, node := y)), y, HeldBy(t))
         else s)
    case LoadHead => With(s, t, Resume(l.(head := s.head)))
    case LoadRefs =>
      With(s, t, l.(pc := if s.refs[x] % SHOULD_BE_ON_FREELIST == 0 then LoadHead else CasRefs, seen := s.refs[x]))
    case CasRefs =>
      if s.refs[x] == l.seen then Put(With(s, t, l.(pc := LoadNext)), x, Plus(s.refs[x], 1))
      else With(s, t, l.(pc := LoadHead))
    case LoadNext => With(s, t, l.(pc := CasHead, next := s.next[x]))
    case CasHead =>
      if s.head == Some(x) then
        Move(With(s, t, l.(pc := CheckTaken)), x, HeldBy(t))
          .(head := l.next, list := if s.list == [] then [] else s.list[1..])
      else With(s, t, l.(pc := DropRef, head := s.head))
    case CheckTaken => With(s, t, l.(pc := SubTwo))
    case SubTwo =>
      Put(Move(With(s, t, l.(pc := Idle, got := Some(x))), x, Owned), x, Plus(s.refs[x], -2))
    case DropRef =>
      var s' := Put(s, x, Plus(s.refs[x], -1));
      if s.refs[x] == SHOULD_BE_ON_FREELIST + 1 then Move(With(s', t, l.(pc := LoadTop)), x, HeldBy(t))
      else With(s', t, Resume(l))
    case AddFlag =>
      var s' := Put(s, x, Plus(s.refs[x], SHOULD_BE_ON_FREELIST));
      if s.refs[x] == 0 then With(s', t, l.(pc := LoadTop))
      else Move(With(s', t, l.(pc := Idle)), x, Awaiting)
    case LoadTop => With(s, t, l.(pc := StoreNext, top := s.head))
    case StoreNext => With(s, t, l.(pc := StoreRefs)).(next := s.next[x := l.top])
    case StoreRefs => Put(With(s, t, l.(pc := CasTop)), x, 1)
    case CasTop =>
      if s.head == l.top then
        Move(With(s, t, AfterAdd(l)), x, OnList).(head := Some(x), list := [x] + s.list)
      else With(s, t, l.(pc := RestoreFlag, top := s.head))
    case RestoreFlag =>
      var s' := Put(s, x, Plus(s.refs[x], SHOULD_BE_ON_FREELIST - 1));
      if s.refs[x] == 1 then With(s', t, l.(pc := StoreNext))
      else Move(With(s', t, AfterAdd(l)), x, Awaiting)
  }

  function Step(s: State, e: Event): (s': State)
    requires Shaped(s)
    ensures Shaped(s') && |s'.threads| == |s.threads| && |s'.refs| == |s.refs|
  {
    if e.t < |s.threads| then StepThread(s, e.t, e.request) else s
  }

  function Execute(s: State, schedule: seq<Event>): (s': State)
    requires Shaped(s)
    ensures Shaped(s') && |s'.threads| == |s.threads| && |s'.refs| == |s.refs|
  {
    if schedule == [] then s
    else Step(Execute(s, schedule[..|schedule| - 1]), schedule[|schedule| - 1])
  }

  // The invariant.

  /** References that a thread contributes to the count of node x. Taking a node off the list turns the
      list's own reference into one of the taker's. */
  function Weight(l: Local, x: nat): int {
    if l.node != x then 0
    else match l.pc
      case LoadNext => 1
      case CasHead => 1
      case DropRef => 1
      case CasTop => 1
      case RestoreFlag => 1
      case CheckTaken => 2
      case SubTwo => 2
      case _ => 0
  }

  function WeightOn(x: nat): Local -> int {
    (l: Local) => Weight(l, x)
  }

  function References(s: State, x: nat): int
    requires x < |s.place|
  {
    Sum(s.threads, WeightOn(x)) + (if s.place[x] == OnList then 1 else 0)
  }

  /** Program points at which a thread has a node to itself. */
  predicate Holds(pc: Pc) {
    pc in {AddFlag, LoadTop, StoreNext, StoreRefs, CasTop, RestoreFlag, CheckTaken, SubTwo}
  }

  predicate Rebuilding(pc: Pc) {
    pc in {LoadTop, StoreNext, StoreRefs}
  }

  /** The flag says that the node is out of the list and whoever drops the last reference must add it. */
  ghost predicate Flagged(s: State, x: nat)
    requires x < |s.place|
  {
    match s.place[x]
    case Awaiting => true
    case HeldBy(t) => t < |s.threads| && Rebuilding(s.threads[t].pc)
    case _ => false
  }

  ghost predicate NodeOk(s: State, x: nat)
    requires Shaped(s) && x < |s.refs|
  {
    && s.refs[x] == References(s, x) + (if Flagged(s, x) then SHOULD_BE_ON_FREELIST else 0)
    && (s.place[x] == OnList <==> x in s.list)
    && (s.place[x] == Awaiting ==> References(s, x) > 0)
    && (s.place[x].HeldBy? ==>
          var t := s.place[x].t;
          && t < |s.threads| && s.threads[t].node == x && Holds(s.threads[t].pc)
          && (Rebuilding(s.threads[t].pc) ==> References(s, x) == 0))
  }

  ghost predicate ThreadOk(s: State, t: nat)
    requires Shaped(s) && t < |s.threads|
  {
    var l := s.threads[t];
    && (l.pc != Idle && l.pc != LoadHead ==> l.node < |s.refs|)
    && (l.head.Some? ==> l.head.value < |s.refs|)
    && (Holds(l.pc) ==> l.node < |s.refs| && s.place[l.node] == HeldBy(t))
    && (l.pc == CasRefs ==> l.seen % SHOULD_BE_ON_FREELIST != 0)
    && (l.pc == CasHead ==> l.node < |s.refs| && l.next == s.next[l.node])
    && (l.pc == CasTop ==> l.node < |s.refs| && s.next[l.node] == l.top)
    && (l.pc == StoreRefs ==> l.node < |s.refs| && s.next[l.node] == l.top)
  }

  function Successor(list: seq<nat>, i: nat): Option<nat> {
    if i + 1 < |list| then Some(list[i + 1]) else None
  }

  ghost predicate LinkOk(next: seq<Option<nat>>, list: seq<nat>, i: nat)
    requires i < |list|
  {
    list[i] < |next| && next[list[i]] == Successor(list, i)
  }

  /** `list` is the chain from the head, link by link, and visits no node twice. */
  ghost predicate Chain(head: Option<nat>, next: seq<Option<nat>>, list: seq<nat>) {
    && head == (if list == [] then None else Some(list[0]))
    && (forall i, j :: 0 <= i < j < |list| ==> list[i] != list[j])
    && (forall i :: 0 <= i < |list| ==> LinkOk(next, list, i))
  }

  ghost predicate Linked(s: State) {
    Chain(s.head, s.next, s.list)
  }

  ghost predicate Inv(s: State) {
    && Shaped(s)
    && |s.threads| + 1 < SHOULD_BE_ON_FREELIST
    && (forall x :: 0 <= x < |s.refs| ==> NodeOk(s, x))
    && (forall t :: 0 <= t < |s.threads| ==> ThreadOk(s, t))
    && Linked(s)
  }

  // The word.

  lemma PlusExact(word: nat, amount: int)
    requires 0 <= word + amount < WORD
    ensures Plus(word, amount) == word + amount
  {
  }

  /** Masking the flag off leaves the count. */
  lemma MaskedCount(count: nat, flagged: bool)
    requires count < SHOULD_BE_ON_FREELIST
    ensures (count + (if flagged then SHOULD_BE_ON_FREELIST else 0)) % SHOULD_BE_ON_FREELIST == count
  {
  }

  // The chain.

  lemma HeadInRange(head: Option<nat>, next: seq<Option<nat>>, list: seq<nat>)
    requires Chain(head, next, list) && head.Some?
    ensures list != [] && head.value == list[0] < |next|
  {
    assert LinkOk(next, list, 0);
  }

  lemma ChainPop(head: Option<nat>, next: seq<Option<nat>>, list: seq<nat>)
    requires Chain(head, next, list) && head.Some?
    ensures list != [] && list[0] == head.value < |next|
    ensures Chain(next[list[0]], next, list[1..])
    ensures forall y :: y in list <==> y == list[0] || y in list[1..]
    ensures list[0] !in list[1..]
  {
    assert LinkOk(next, list, 0);
    forall i | 0 <= i < |list[1..]| ensures LinkOk(next, list[1..], i) {
      assert LinkOk(next, list, i + 1);
    }
    assert list == [list[0]] + list[1..];
  }

  lemma ChainPush(head: Option<nat>, next: seq<Option<nat>>, list: seq<nat>, x: nat)
    requires Chain(head, next, list) && x !in list && x < |next| && next[x] == head
    ensures Chain(Some(x), next, [x] + list)
    ensures forall y :: y in [x] + list <==> y == x || y in list
  {
    forall i | 0 <= i < |[x] + list| ensures LinkOk(next, [x] + list, i) {
      if i > 0 {
        assert LinkOk(next, list, i - 1);
      }
    }
  }

  lemma ChainElsewhere(head: Option<nat>, next: seq<Option<nat>>, list: seq<nat>, x: nat, v: Option<nat>)
    requires Chain(head, next, list) && x !in list && x < |next|
    ensures Chain(head, next[x := v], list)
  {
    var next' := next[x := v];
    forall i | 0 <= i < |list| ensures LinkOk(next', list, i) {
      assert LinkOk(next, list, i);
    }
  }

  // Counting references.

  lemma ReferencesNonNegative(s: State, x: nat)
    requires x < |s.place|
    ensures References(s, x) >= 0
  {
    SumNonNegative(s.threads, WeightOn(x));
  }

  /** A thread with a reference keeps the count positive. */
  lemma CountsMine(s: State, x: nat, t: nat)
    requires x < |s.place| && t < |s.threads|
    ensures References(s, x) >= Weight(s.threads[t], x)
  {
    SumAtLeast(s.threads, WeightOn(x), t);
  }

  /** Only the holder of a node can weigh more than one. */
  lemma {:induction false} WeightsBounded(xs: seq<Local>, x: nat, holder: nat)
    requires forall t :: 0 <= t < |xs| && t != holder ==> Weight(xs[t], x) <= 1
    ensures Sum(xs, WeightOn(x)) <= |xs| + (if holder < |xs| then 1 else 0)
  {
    if xs != [] {
      WeightsBounded(xs[..|xs| - 1], x, holder);
    }
  }

  /** The reference count never exceeds the number of threads by more than one, so that with fewer than
      2^31 - 1 threads it stays clear of the flag bit. */
  lemma CountFitsBelowFlag(s: State, x: nat)
    requires Inv(s) && x < |s.refs|
    ensures 0 <= References(s, x) <= |s.threads| + 1 < SHOULD_BE_ON_FREELIST
    ensures forall t :: 0 <= t < |s.threads| && Weight(s.threads[t], x) == 0 ==> References(s, x) <= |s.threads|
  {
    ReferencesNonNegative(s, x);
    var holder := if s.place[x].HeldBy? then s.place[x].t else |s.threads|;
    assert NodeOk(s, x);
    forall t | 0 <= t < |s.threads| && t != holder ensures Weight(s.threads[t], x) <= 1 {
      assert ThreadOk(s, t);
    }
    WeightsBounded(s.threads, x, holder);
    forall t | 0 <= t < |s.threads| && Weight(s.threads[t], x) == 0 ensures References(s, x) <= |s.threads| {
      var l := s.threads[t].(pc := LoadNext, node := x);
      SumUpdate(s.threads, WeightOn(x), t, l);
      WeightsBounded(s.threads[t := l], x, holder);
    }
  }

  // Preservation.

  lemma {:induction false} NobodyWeighs(n: nat, x: nat)
    ensures Sum(seq(n, _ => IdleThread()), WeightOn(x)) == 0
  {
    if n > 0 {
      NobodyWeighs(n - 1, x);
      assert seq(n, _ => IdleThread())[..n - 1] == seq(n - 1, _ => IdleThread());
    }
  }

  lemma InitInv(threads: nat, nodes: nat)
    requires threads + 1 < SHOULD_BE_ON_FREELIST
    ensures Inv(Init(threads, nodes))
  {
    forall x | 0 <= x < nodes ensures NodeOk(Init(threads, nodes), x) {
      NobodyWeighs(threads, x);
    }
  }

  /** s' differs from s in thread t, in the word, the place and the link of node x, and in the list. */
  ghost predicate Touches(s: State, s': State, t: nat, x: nat)
    requires Shaped(s) && t < |s.threads| && x < |s.refs|
  {
    && Shaped(s') && |s'.refs| == |s.refs| && |s'.threads| == |s.threads|
    && s'.threads == s.threads[t := s'.threads[t]]
    && s'.refs == s.refs[x := s'.refs[x]]
    && s'.place == s.place[x := s'.place[x]]
    && s'.next == s.next[x := s'.next[x]]
    && (Weight(s.threads[t], x) > 0 || Holds(s.threads[t].pc) ==> s.threads[t].node == x)
    && (forall y :: 0 <= y < |s.refs| && y != x ==> Weight(s.threads[t], y) == Weight(s'.threads[t], y) == 0)
    && (Holds(s.threads[t].pc) ==> s.threads[t].node == x)
    && (Holds(s'.threads[t].pc) ==> s'.threads[t].node == x)
  }

  lemma ReferencesAfter(s: State, s': State, t: nat, x: nat, y: nat)
    requires Shaped(s) && t < |s.threads| && x < |s.refs| && y < |s.refs|
    requires Touches(s, s', t, x)
    ensures Sum(s'.threads, WeightOn(y)) == Sum(s.threads, WeightOn(y)) - Weight(s.threads[t], y) + Weight(s'.threads[t], y)
  {
    SumUpdate(s.threads, WeightOn(y), t, s'.threads[t]);
  }

  lemma OtherNodesOk(s: State, s': State, t: nat, x: nat, y: nat)
    requires Inv(s) && t < |s.threads| && x < |s.refs| && y < |s.refs| && y != x
    requires Touches(s, s', t, x)
    requires y in s'.list <==> y in s.list
    ensures NodeOk(s', y)
  {
    assert NodeOk(s, y);
    ReferencesAfter(s, s', t, x, y);
  }

  /** What remains to be shown of a step once its effect on node x and thread t is known. */
  lemma StepDone(s: State, s': State, t: nat, x: nat)
    requires Inv(s) && t < |s.threads| && x < |s.refs|
    requires Touches(s, s', t, x)
    requires forall y :: 0 <= y < |s.refs| && y != x ==> (y in s'.list <==> y in s.list)
    requires s'.place[x] == s.place[x] || !s.place[x].HeldBy? || s.place[x].t == t
    requires s'.next[x] == s.next[x] || (References(s, x) == 0 && s.place[x] == HeldBy(t))
    requires NodeOk(s', x) && ThreadOk(s', t) && Linked(s')
    ensures Inv(s')
  {
    forall y | 0 <= y < |s'.refs| ensures NodeOk(s', y) {
      if y != x {
        OtherNodesOk(s, s', t, x, y);
      }
    }
    forall u | 0 <= u < |s'.threads| ensures ThreadOk(s', u) {
      if u != t {
        assert ThreadOk(s, u);
        CountsMine(s, x, u);
      }
    }
  }

  /** A thread in the middle of an operation touches only its node. */
  lemma TouchesOwn(s: State, t: nat, request: Request)
    requires Shaped(s) && t < |s.threads| && s.threads[t].pc !in {Idle, LoadHead} && ThreadOk(s, t)
    ensures Touches(s, StepThread(s, t, request), t, s.threads[t].node)
  {
  }

  lemma StartKeeps(s: State, t: nat, request: Request)
    requires Inv(s) && t < |s.threads| && s.threads[t].pc == Idle
    ensures Inv(StepThread(s, t, request))
  {
    var s' := StepThread(s, t, request);
    if request.Add? && request.node < |s.refs| && s.place[request.node] == Owned {
      var x := request.node;
      assert ThreadOk(s, t) && NodeOk(s, x);
      ReferencesAfter(s, s', t, x, x);
      StepDone(s, s', t, x);
    } else if |s.refs| > 0 {
      assert ThreadOk(s, t) && NodeOk(s, 0);
      ReferencesAfter(s, s', t, 0, 0);
      StepDone(s, s', t, 0);
    } else {
      forall u | 0 <= u < |s'.threads| ensures ThreadOk(s', u) {
        assert ThreadOk(s, u);
      }
    }
  }

  lemma LoadHeadKeeps(s: State, t: nat, request: Request)
    requires Inv(s) && t < |s.threads| && s.threads[t].pc == LoadHead
    ensures Inv(StepThread(s, t, request))
  {
    var s' := StepThread(s, t, request);
    assert ThreadOk(s, t);
    if s.head.Some? {
      HeadInRange(s.head, s.next, s.list);
    }
    if |s.refs| > 0 {
      assert NodeOk(s, 0);
      ReferencesAfter(s, s', t, 0, 0);
      StepDone(s, s', t, 0);
    } else {
      forall u | 0 <= u < |s'.threads| ensures ThreadOk(s', u) {
        assert ThreadOk(s, u);
      }
    }
  }

  /** What thread t and its node look like after a step on it: all that StepDone asks. */
  ghost predicate Settled(s: State, s': State, t: nat, x: nat)
    requires Shaped(s) && Shaped(s') && t < |s.threads| == |s'.threads| && x < |s.refs| == |s'.refs|
  {
    && (forall y :: 0 <= y < |s.refs| && y != x ==> (y in s'.list <==> y in s.list))
    && (s'.place[x] == s.place[x] || !s.place[x].HeldBy? || s.place[x].t == t)
    && (s'.next[x] == s.next[x] || (References(s, x) == 0 && s.place[x] == HeldBy(t)))
    && NodeOk(s', x) && ThreadOk(s', t) && Linked(s')
  }

  /** The loads and the assert: only the thread moves. */
  lemma LoadKeeps(s: State, t: nat, request: Request)
    requires Inv(s) && t < |s.threads|
    requires s.threads[t].pc in {LoadRefs, LoadNext, CheckTaken, LoadTop}
    ensures Inv(StepThread(s, t, request))
  {
    var x := s.threads[t].node;
    assert ThreadOk(s, t) && NodeOk(s, x);
    TouchesOwn(s, t, request);
    Loaded(s, t, request);
    hide StepThread, Touches, NodeOk, ThreadOk, Linked;
    StepDone(s, StepThread(s, t, request), t, x);
  }

  lemma Loaded(s: State, t: nat, request: Request)
    requires Shaped(s) && t < |s.threads| && s.threads[t].pc in {LoadRefs, LoadNext, CheckTaken, LoadTop}
    requires ThreadOk(s, t) && NodeOk(s, s.threads[t].node) && Linked(s)
    requires Touches(s, StepThread(s, t, request), t, s.threads[t].node)
    ensures Settled(s, StepThread(s, t, request), t, s.threads[t].node)
  {
    var x := s.threads[t].node;
    ReferencesAfter(s, StepThread(s, t, request), t, x, x);
    if s.head.Some? {
      HeadInRange(s.head, s.next, s.list);
    }
    hide Touches, Chain;
  }

  /** A reference is only ever added while the count is positive. */
  lemma CasRefsKeeps(s: State, t: nat, request: Request)
    requires Inv(s) && t < |s.threads| && s.threads[t].pc == CasRefs
    ensures Inv(StepThread(s, t, request))
  {
    var s' := StepThread(s, t, request);
    var x := s.threads[t].node;
    assert ThreadOk(s, t) && NodeOk(s, x);
    CountFitsBelowFlag(s, x);
    MaskedCount(References(s, x), Flagged(s, x));
    PlusExact(s.refs[x], 1);
    hide Plus;
    ReferencesAfter(s, s', t, x, x);
    StepDone(s, s', t, x);
  }

  /** The CAS on the head succeeds only for the first node of the list, whose successor the thread has
      read while the link could not change. */
  lemma CasHeadKeeps(s: State, t: nat, request: Request)
    requires Inv(s) && t < |s.threads| && s.threads[t].pc == CasHead
    ensures Inv(StepThread(s, t, request))
  {
    var x := s.threads[t].node;
    assert ThreadOk(s, t) && NodeOk(s, x);
    TouchesOwn(s, t, request);
    TakenOff(s, t, request);
    hide StepThread, Touches, NodeOk, ThreadOk, Linked;
    StepDone(s, StepThread(s, t, request), t, x);
  }

  lemma TakenOff(s: State, t: nat, request: Request)
    requires Shaped(s) && t < |s.threads| && s.threads[t].pc == CasHead
    requires ThreadOk(s, t) && NodeOk(s, s.threads[t].node) && Linked(s)
    requires Touches(s, StepThread(s, t, request), t, s.threads[t].node)
    ensures Settled(s, StepThread(s, t, request), t, s.threads[t].node)
  {
    var x := s.threads[t].node;
    ReferencesAfter(s, StepThread(s, t, request), t, x, x);
    hide Touches;
    if s.head.Some? {
      ChainPop(s.head, s.next, s.list);
    }
    if s.head == Some(x) && s.next[x].Some? {
      HeadInRange(s.next[x], s.next, s.list[1..]);
    }
    hide Chain;
  }

  lemma SubTwoKeeps(s: State, t: nat, request: Request)
    requires Inv(s) && t < |s.threads| && s.threads[t].pc == SubTwo
    ensures Inv(StepThread(s, t, request))
  {
    var s' := StepThread(s, t, request);
    var x := s.threads[t].node;
    assert ThreadOk(s, t) && NodeOk(s, x);
    CountFitsBelowFlag(s, x);
    CountsMine(s, x, t);
    PlusExact(s.refs[x], -2);
    hide Plus;
    ReferencesAfter(s, s', t, x, x);
    StepDone(s, s', t, x);
  }

  /** Whoever drops the last reference to a flagged node, and nobody else, takes over adding it. */
  lemma DropRefKeeps(s: State, t: nat, request: Request)
    requires Inv(s) && t < |s.threads| && s.threads[t].pc == DropRef
    ensures Inv(StepThread(s, t, request))
  {
    var s' := StepThread(s, t, request);
    var x := s.threads[t].node;
    assert ThreadOk(s, t) && NodeOk(s, x);
    CountFitsBelowFlag(s, x);
    CountsMine(s, x, t);
    PlusExact(s.refs[x], -1);
    hide Plus;
    TouchesOwn(s, t, request);
    hide Touches, Linked;
    ReferencesAfter(s, s', t, x, x);
    StepDone(s, s', t, x);
  }

  lemma AddFlagKeeps(s: State, t: nat, request: Request)
    requires Inv(s) && t < |s.threads| && s.threads[t].pc == AddFlag
    ensures Inv(StepThread(s, t, request))
  {
    var s' := StepThread(s, t, request);
    var x := s.threads[t].node;
    assert ThreadOk(s, t) && NodeOk(s, x);
    CountFitsBelowFlag(s, x);
    PlusExact(s.refs[x], SHOULD_BE_ON_FREELIST);
    hide Plus;
    ReferencesAfter(s, s', t, x, x);
    StepDone(s, s', t, x);
  }

  /** The link of a node is written only while nobody refers to the node. */
  lemma RebuildKeeps(s: State, t: nat, request: Request)
    requires Inv(s) && t < |s.threads| && s.threads[t].pc in {StoreNext, StoreRefs}
    ensures Inv(StepThread(s, t, request))
  {
    var s' := StepThread(s, t, request);
    var x := s.threads[t].node;
    assert ThreadOk(s, t) && NodeOk(s, x);
    CountFitsBelowFlag(s, x);
    ChainElsewhere(s.head, s.next, s.list, x, s.threads[t].top);
    ReferencesAfter(s, s', t, x, x);
    StepDone(s, s', t, x);
  }

  lemma CasTopKeeps(s: State, t: nat, request: Request)
    requires Inv(s) && t < |s.threads| && s.threads[t].pc == CasTop
    ensures Inv(StepThread(s, t, request))
  {
    var x := s.threads[t].node;
    assert ThreadOk(s, t) && NodeOk(s, x);
    TouchesOwn(s, t, request);
    PutOn(s, t, request);
    hide StepThread, Touches, NodeOk, ThreadOk, Linked;
    StepDone(s, StepThread(s, t, request), t, x);
  }

  lemma PutOn(s: State, t: nat, request: Request)
    requires Shaped(s) && t < |s.threads| && s.threads[t].pc == CasTop
    requires ThreadOk(s, t) && NodeOk(s, s.threads[t].node) && Linked(s)
    requires Touches(s, StepThread(s, t, request), t, s.threads[t].node)
    ensures Settled(s, StepThread(s, t, request), t, s.threads[t].node)
  {
    var x := s.threads[t].node;
    ReferencesAfter(s, StepThread(s, t, request), t, x, x);
    hide Touches;
    if s.head == s.threads[t].top {
      ChainPush(s.head, s.next, s.list, x);
    } else if s.head.Some? {
      HeadInRange(s.head, s.next, s.list);
    }
    hide Chain;
  }

  lemma RestoreFlagKeeps(s: State, t: nat, request: Request)
    requires Inv(s) && t < |s.threads| && s.threads[t].pc == RestoreFlag
    ensures Inv(StepThread(s, t, request))
  {
    var s' := StepThread(s, t, request);
    assert ThreadOk(s, t) && NodeOk(s, s.threads[t].node);
    TouchesOwn(s, t, request);
    RestoredNode(s, t, request);
    hide Touches, Chain, NodeOk, Plus;
    StepDone(s, s', t, s.threads[t].node);
  }

  lemma RestoredNode(s: State, t: nat, request: Request)
    requires Inv(s) && t < |s.threads| && s.threads[t].pc == RestoreFlag && s.threads[t].node < |s.refs|
    requires Touches(s, StepThread(s, t, request), t, s.threads[t].node)
    ensures NodeOk(StepThread(s, t, request), s.threads[t].node)
  {
    var x := s.threads[t].node;
    assert ThreadOk(s, t) && NodeOk(s, x);
    CountFitsBelowFlag(s, x);
    CountsMine(s, x, t);
    RestoredWord(s, t, request);
  }

  lemma RestoredWord(s: State, t: nat, request: Request)
    requires Shaped(s) && t < |s.threads| && s.threads[t].pc == RestoreFlag && s.threads[t].node < |s.refs|
    requires ThreadOk(s, t) && NodeOk(s, s.threads[t].node)
    requires 0 < References(s, s.threads[t].node) < SHOULD_BE_ON_FREELIST
    requires Touches(s, StepThread(s, t, request), t, s.threads[t].node)
    ensures NodeOk(StepThread(s, t, request), s.threads[t].node)
  {
    var x := s.threads[t].node;
    PlusExact(s.refs[x], SHOULD_BE_ON_FREELIST - 1);
    ReferencesAfter(s, StepThread(s, t, request), t, x, x);
    hide Plus, Touches;
  }

  lemma StepKeeps(s: State, e: Event)
    requires Inv(s)
    ensures Inv(Step(s, e))
  {
    if e.t < |s.threads| {
      match s.threads[e.t].pc
      case Idle => StartKeeps(s, e.t, e.request);
      case LoadHead => LoadHeadKeeps(s, e.t, e.request);
      case CasRefs => CasRefsKeeps(s, e.t, e.request);
      case CasHead => CasHeadKeeps(s, e.t, e.request);
      case SubTwo => SubTwoKeeps(s, e.t, e.request);
      case DropRef => DropRefKeeps(s, e.t, e.request);
      case AddFlag => AddFlagKeeps(s, e.t, e.request);
      case StoreNext => RebuildKeeps(s, e.t, e.request);
      case StoreRefs => RebuildKeeps(s, e.t, e.request);
      case CasTop => CasTopKeeps(s, e.t, e.request);
      case RestoreFlag => RestoreFlagKeeps(s, e.t, e.request);
      case _ => LoadKeeps(s, e.t, e.request);
    }
  }

  // Main results.

  lemma {:induction false} EveryRun(threads: nat, nodes: nat, schedule: seq<Event>)
    requires threads + 1 < SHOULD_BE_ON_FREELIST
    ensures Inv(Execute(Init(threads, nodes), schedule))
  {
    if schedule == [] {
      InitInv(threads, nodes);
    } else {
      var last := |schedule| - 1;
      EveryRun(threads, nodes, schedule[..last]);
      StepKeeps(Execute(Init(threads, nodes), schedule[..last]), schedule[last]);
    }
  }

  /** The assert after a successful removal never fires: the flag of a node just taken is clear. */
  lemma AssertNeverFires(s: State, t: nat)
    requires Inv(s) && t < |s.threads| && s.threads[t].pc == CheckTaken
    ensures s.threads[t].node < |s.refs| && s.refs[s.threads[t].node] < SHOULD_BE_ON_FREELIST
  {
    assert ThreadOk(s, t);
    assert NodeOk(s, s.threads[t].node);
    CountFitsBelowFlag(s, s.threads[t].node);
  }

  /** The link of a node stays what it is while some thread in try_get holds a reference to the node. */
  lemma LinkFixedWhileReferenced(s: State, e: Event, u: nat)
    requires Inv(s) && u < |s.threads| && s.threads[u].pc in {LoadNext, CasHead, DropRef}
    ensures s.threads[u].node < |s.refs|
    ensures Step(s, e).next[s.threads[u].node] == s.next[s.threads[u].node]
  {
    var x := s.threads[u].node;
    assert ThreadOk(s, u);
    if e.t < |s.threads| && s.threads[e.t].pc == StoreNext && s.threads[e.t].node == x {
      assert ThreadOk(s, e.t) && NodeOk(s, x);
      CountsMine(s, x, u);
    }
  }

  /** The ways in which a node can change hands. A client's node leaves it only when the client adds it,
      and try_get hands out nodes that it has itself taken off the list, never a client's. */
  ghost predicate LegalMove(s: State, e: Event, p: Place, p': Place, x: nat)
    requires x < |s.place|
  {
    p' == p || (e.t < |s.threads| && HandOver(s, e, s.threads[e.t], p, p', x))
  }

  /** Which program point moves a node from where to where. Except for a client that begins to add its node,
      it is always the node the thread is working on. */
  ghost predicate HandOver(s: State, e: Event, l: Local, p: Place, p': Place, x: nat)
    requires x < |s.place|
  {
    && (l.pc != Idle ==> l.node == x)
    && match l.pc
       case Idle => p == Owned && p' == HeldBy(e.t) && e.request == Add(x)
       case CasHead => p == OnList && p' == HeldBy(e.t) && s.head == Some(x)
       case SubTwo => p == HeldBy(e.t) && p' == Owned
       case CasTop => p == HeldBy(e.t) && p' == OnList && s.head == l.top
       case AddFlag => p == HeldBy(e.t) && p' == Awaiting && References(s, x) > 0
       case RestoreFlag => p == HeldBy(e.t) && p' == Awaiting && References(s, x) > 1
       case DropRef => p == Awaiting && p' == HeldBy(e.t) && References(s, x) == 1
       case _ => false
  }

  lemma NodesChangeHandsLegally(s: State, e: Event, x: nat)
    requires Inv(s) && x < |s.refs|
    ensures x < |s.place| && LegalMove(s, e, s.place[x], Step(s, e).place[x], x)
    ensures s.place[x].HeldBy? && Step(s, e).place[x] == Owned ==>
      e.t < |s.threads| && Step(s, e).threads[e.t].pc == Idle && Step(s, e).threads[e.t].got == Some(x)
  {
    if e.t < |s.threads| {
      var l := s.threads[e.t];
      assert ThreadOk(s, e.t);
      if l.pc != Idle && l.pc != LoadHead && l.node == x {
        assert NodeOk(s, x);
        CountFitsBelowFlag(s, x);
        CountsMine(s, x, e.t);
        if l.pc == CasHead && s.head == Some(x) {
          ChainPop(s.head, s.next, s.list);
        }
      }
    }
  }

  /** Once every operation has finished, each node is with its client or on the list, where following the
      links from the head reaches it. */
  lemma NothingStranded(s: State, x: nat)
    requires Inv(s) && x < |s.refs|
    requires forall t :: 0 <= t < |s.threads| ==> s.threads[t].pc == Idle
    ensures s.place[x] == Owned || s.place[x] == OnList
    ensures s.place[x] == OnList ==> x in s.list && Chain(s.head, s.next, s.list) && s.refs[x] == 1
    ensures s.place[x] == Owned ==> x !in s.list && s.refs[x] == 0
  {
    assert NodeOk(s, x);
    SumZero(s.threads, WeightOn(x));
  }

  // The limit on the number of threads.

  /** The low 31 bits of every word count the references to the node. */
  ghost predicate CountsExact(s: State) {
    Shaped(s) && forall x :: 0 <= x < |s.refs| ==> s.refs[x] % SHOULD_BE_ON_FREELIST == References(s, x)
  }

  lemma {:induction false} ExecuteAppend(s: State, a: seq<Event>, b: seq<Event>)
    requires Shaped(s)
    ensures Execute(s, a + b) == Execute(Execute(s, a), b)
  {
    if b == [] {
      assert a + b == a;
    } else {
      var last := |b| - 1;
      assert (a + b)[..|a + b| - 1] == a + b[..last];
      ExecuteAppend(s, a, b[..last]);
    }
  }

  /** Thread t makes four steps in a row. */
  function Four(t: nat): seq<Event> {
    [Event(t, Get), Event(t, Get), Event(t, Get), Event(t, Get)]
  }

  /** Thread 0 puts node 0 on the list; then threads 0, 1, .. each take a reference to it. */
  function Crowding(k: nat): seq<Event> {
    if k == 0 then [Event(0, Add(0))] + (Four(0) + [Event(0, Get)]) else Crowding(k - 1) + Four(k - 1)
  }

  ghost predicate Crowded(s: State, threads: nat, k: nat) {
    && Shaped(s) && |s.refs| > 0 && |s.threads| == threads && k <= threads
    && s.head == Some(0) && s.place[0] == OnList && s.refs[0] == 1 + k
    && (forall t :: 0 <= t < k ==> s.threads[t].pc == LoadNext && s.threads[t].node == 0)
    && (forall t :: k <= t < threads ==> s.threads[t].pc == Idle)
  }

  lemma ExecuteFour(s: State, t: nat)
    requires Shaped(s)
    ensures var e := Event(t, Get); Execute(s, Four(t)) == Step(Step(Step(Step(s, e), e), e), e)
  {
    hide Step;
    var e := Event(t, Get);
    assert Four(t)[..3] == [e, e, e];
    assert [e, e, e][..2] == [e, e];
    assert [e, e][..1] == [e];
    assert [e][..0] == [];
    assert Execute(s, [e]) == Step(s, e);
    assert Execute(s, [e, e]) == Step(Step(s, e), e);
    assert Execute(s, [e, e, e]) == Step(Step(Step(s, e), e), e);
  }

  lemma OneJoins(s: State, threads: nat, k: nat)
    requires Crowded(s, threads, k) && k < threads && 1 + k < SHOULD_BE_ON_FREELIST
    ensures Crowded(Execute(s, Four(k)), threads, k + 1)
  {
    ExecuteFour(s, k);
    var e := Event(k, Get);
    var s1 := Step(s, e);
    assert s1.threads[k].pc == LoadHead;
    var s2 := Step(s1, e);
    assert s2.threads[k].pc == LoadRefs && s2.threads[k].node == 0;
    var s3 := Step(s2, e);
    assert s3.threads[k].pc == CasRefs && s3.threads[k].seen == s3.refs[0];
    PlusExact(s3.refs[0], 1);
  }

  /** A lone add of a node by thread 0, step by step. */
  lemma LoneAdd(s: State)
    requires Shaped(s) && |s.threads| > 0 && |s.refs| > 0
    requires s.threads[0].pc == AddFlag && s.threads[0].node == 0 && !s.threads[0].getting
    requires s.head == None && s.refs[0] == 0
    ensures var s' := Execute(s, Four(0) + [Event(0, Get)]);
      && s'.head == Some(0) && s'.place[0] == OnList && s'.refs[0] == 1
      && s'.threads == s.threads[0 := s'.threads[0]] && s'.threads[0].pc == Idle
  {
    hide StepThread, Execute, Four;
    var e := Event(0, Get);
    var s1 := Step(s, e);
    LoneFlag(s);
    var s2 := Step(s1, e);
    LoneLoad(s1);
    var s3 := Step(s2, e);
    LoneNext(s2);
    var s4 := Step(s3, e);
    LoneRefs(s3);
    LoneTop(s4);
    ExecuteFour(s, 0);
    ExecuteAppend(s, Four(0), [e]);
    ExecuteOne(s4, e);
  }

  lemma ExecuteOne(s: State, e: Event)
    requires Shaped(s)
    ensures Execute(s, [e]) == Step(s, e)
  {
    assert [e][..0] == [];
  }

  /** Nothing but thread 0 and node 0 differs, and thread 0 has come to `pc`. */
  ghost predicate LoneState(s: State, s': State, pc: Pc) {
    && Shaped(s) && Shaped(s') && |s.threads| == |s'.threads| > 0 && |s.refs| > 0
    && s'.threads == s.threads[0 := s'.threads[0]] && s'.head == s.head && |s'.refs| == |s.refs|
    && s'.threads[0].pc == pc && s'.threads[0].node == 0 && !s'.threads[0].getting
  }

  lemma LoneFlag(s: State)
    requires LoneState(s, s, AddFlag) && s.refs[0] == 0
    ensures LoneState(s, Step(s, Event(0, Get)), LoadTop)
  {
  }

  lemma LoneLoad(s: State)
    requires LoneState(s, s, LoadTop)
    ensures LoneState(s, Step(s, Event(0, Get)), StoreNext) && Step(s, Event(0, Get)).threads[0].top == s.head
  {
  }

  lemma LoneNext(s: State)
    requires LoneState(s, s, StoreNext)
    ensures LoneState(s, Step(s, Event(0, Get)), StoreRefs) && Step(s, Event(0, Get)).threads[0].top == s.threads[0].top
  {
  }

  lemma LoneRefs(s: State)
    requires LoneState(s, s, StoreRefs)
    ensures LoneState(s, Step(s, Event(0, Get)), CasTop) && Step(s, Event(0, Get)).threads[0].top == s.threads[0].top
    ensures Step(s, Event(0, Get)).refs[0] == 1
  {
  }

  lemma LoneTop(s: State)
    requires LoneState(s, s, CasTop) && s.head == s.threads[0].top && s.refs[0] == 1
    ensures var s' := Step(s, Event(0, Get));
      && Shaped(s') && |s'.refs| == |s.refs| && s'.head == Some(0) && s'.place[0] == OnList && s'.refs[0] == 1
      && s'.threads == s.threads[0 := s'.threads[0]] && s'.threads[0].pc == Idle
  {
  }

  lemma StartAdd(threads: nat, nodes: nat)
    requires threads > 0 && nodes > 0
    ensures var s := Init(threads, nodes); var s' := Execute(s, [Event(0, Add(0))]);
      && |s'.threads| == threads && s'.threads == s.threads[0 := s'.threads[0]]
      && s'.threads[0].pc == AddFlag && s'.threads[0].node == 0 && !s'.threads[0].getting
      && s'.head == None && |s'.refs| == nodes && s'.refs[0] == 0
  {
    var a := Event(0, Add(0));
    assert [a][..0] == [];
    assert Execute(Init(threads, nodes), [a]) == Step(Init(threads, nodes), a);
  }

  lemma FirstAdd(threads: nat, nodes: nat)
    requires threads > 0 && nodes > 0
    ensures Crowded(Execute(Init(threads, nodes), Crowding(0)), threads, 0)
  {
    var s := Init(threads, nodes);
    StartAdd(threads, nodes);
    LoneAdd(Execute(s, [Event(0, Add(0))]));
    ExecuteAppend(s, [Event(0, Add(0))], Four(0) + [Event(0, Get)]);
  }

  lemma {:induction false} ManyJoin(threads: nat, nodes: nat, k: nat)
    requires threads > 0 && nodes > 0 && k <= threads && k < SHOULD_BE_ON_FREELIST
    ensures Crowded(Execute(Init(threads, nodes), Crowding(k)), threads, k)
  {
    if k == 0 {
      FirstAdd(threads, nodes);
    } else {
      ManyJoin(threads, nodes, k - 1);
      OneJoins(Execute(Init(threads, nodes), Crowding(k - 1)), threads, k - 1);
      ExecuteAppend(Init(threads, nodes), Crowding(k - 1), Four(k - 1));
    }
  }

  /** One thread more than the count can hold: the crowded count runs into the flag, and thread 0 takes the
      node off the list with its flag set. */
  lemma FlagOfATakenNode(threads: nat, nodes: nat)
    requires nodes > 0 && threads + 1 >= SHOULD_BE_ON_FREELIST
    ensures exists schedule :: !AssertHolds(Execute(Init(threads, nodes), schedule))
  {
    var k := SHOULD_BE_ON_FREELIST - 1;
    ManyJoin(threads, nodes, k);
    var s := Execute(Init(threads, nodes), Crowding(k));
    var e := Event(0, Get);
    var schedule := Crowding(k) + [e, e];
    ExecuteAppend(Init(threads, nodes), Crowding(k), [e, e]);
    assert [e, e][..1] == [e] && [e][..0] == [];
    assert Execute(s, [e]) == Step(s, e);
    assert Execute(s, [e, e]) == Step(Step(s, e), e);
    TakesCrowded(s, threads, k);
    assert !AssertHolds(Execute(Init(threads, nodes), schedule));
  }

  lemma TakesCrowded(s: State, threads: nat, k: nat)
    requires Crowded(s, threads, k) && k == SHOULD_BE_ON_FREELIST - 1
    ensures !AssertHolds(Step(Step(s, Event(0, Get)), Event(0, Get)))
  {
    var s1 := Step(s, Event(0, Get));
    assert s1.threads[0].pc == CasHead && s1.threads[0].node == 0 && s1.head == Some(0);
    var s2 := Step(s1, Event(0, Get));
    assert s2.threads[0].pc == CheckTaken && s2.refs[0] == SHOULD_BE_ON_FREELIST;
  }

  /** The assert in try_get: the flag of a node just taken is clear. */
  ghost predicate AssertHolds(s: State) {
    forall t :: 0 <= t < |s.threads| && s.threads[t].pc == CheckTaken && s.threads[t].node < |s.refs| ==>
      s.refs[s.threads[t].node] < SHOULD_BE_ON_FREELIST
  }

  /** And so is the limit for the assert: it holds in every run if and only if there are at most 2^31 - 2
      threads. */
  lemma AssertLimit(threads: nat, nodes: nat)
    requires nodes > 0
    ensures (forall schedule :: AssertHolds(Execute(Init(threads, nodes), schedule)))
            <==> threads + 1 < SHOULD_BE_ON_FREELIST
  {
    if threads + 1 < SHOULD_BE_ON_FREELIST {
      forall schedule ensures AssertHolds(Execute(Init(threads, nodes), schedule)) {
        EveryRun(threads, nodes, schedule);
        var s := Execute(Init(threads, nodes), schedule);
        forall t | 0 <= t < |s.threads| && s.threads[t].pc == CheckTaken
          ensures s.threads[t].node < |s.refs| && s.refs[s.threads[t].node] < SHOULD_BE_ON_FREELIST
        {
          AssertNeverFires(s, t);
        }
      }
    } else {
      FlagOfATakenNode(threads, nodes);
    }
  }

  ghost predicate CountsExactAlways(threads: nat, nodes: nat) {
    forall schedule :: CountsExact(Execute(Init(threads, nodes), schedule))
  }

  /** The 31-bit count is exact in every run if and only if there are at most 2^31 - 2 threads: one more,
      and all of them can hold a reference to a listed node at once, which carries into the flag bit. */
  lemma ThreadLimit(threads: nat, nodes: nat)
    requires nodes > 0
    ensures CountsExactAlways(threads, nodes) <==> threads + 1 < SHOULD_BE_ON_FREELIST
  {
    if threads + 1 < SHOULD_BE_ON_FREELIST {
      forall schedule ensures CountsExact(Execute(Init(threads, nodes), schedule)) {
        EveryRun(threads, nodes, schedule);
        var s := Execute(Init(threads, nodes), schedule);
        forall x | 0 <= x < |s.refs| ensures s.refs[x] % SHOULD_BE_ON_FREELIST == References(s, x) {
          assert NodeOk(s, x);
          CountFitsBelowFlag(s, x);
          MaskedCount(References(s, x), Flagged(s, x));
        }
      }
    } else {
      var k := SHOULD_BE_ON_FREELIST - 1;
      ManyJoin(threads, nodes, k);
      var s := Execute(Init(threads, nodes), Crowding(k));
      SumNonNegative(s.threads, WeightOn(0));
      assert References(s, 0) > 0 && s.refs[0] % SHOULD_BE_ON_FREELIST == 0;
      assert !CountsExact(s);
    }
  }
}
