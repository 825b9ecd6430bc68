/** How consumers of one sub-queue agree on who takes which index.

    A consumer draws a ticket from `dequeueOptimisticCount`, reads the tail again and then either
    claims indices from `headIndex` or hands its surplus back through `dequeueOvercommit`.
    `Step` performs exactly one shared-memory access, so a schedule is an interleaving. The
    single-element `dequeue` is the bulk one with `max == 1`.

    `tickets` and `owner` are history: they record what happened and no step branches on them. */
module Tickets {

  /** A ticket in draw order: its width, the overcommit its thread had read before drawing, what it
      was granted, what it has handed back, and what it has claimed from the head so far. */
  datatype Ticket = Ticket(width: nat, seen: nat, granted: nat, returned: nat, first: nat, claimed: nat)

  /** The next shared access a thread is going to make. */
  datatype Pc =
    | Idle
    | ReadOvercommit
    | ReadOptimistic
    | Draw
    | ReadTail
    | ReturnSurplus
    | ClaimHead
    | ReturnAll

  datatype Local = Local(
    pc: Pc, max: nat, tail: nat, overcommit: nat, desired: nat, myCount: nat, actual: nat,
    ticket: nat, first: nat, got: nat)

  datatype State = State(
    tail: nat, head: nat, optimistic: nat, overcommit: nat,
    threads: seq<Local>, tickets: seq<Ticket>, owner: seq<nat>)

  /** `Publish` is the producer's store to `tailIndex`; `Run` lets thread `t` take its next step and
      `max` matters only when it begins a new dequeue. */
  datatype Event = Publish(count: nat) | Run(t: nat, max: nat)

  function IdleThread(): Local {
    Local(Idle, 0, 0, 0, 0, 0, 0, 0, 0, 0)
  }

  function Init(n: nat): State {
    State(0, 0, 0, 0, seq(n, _ => IdleThread()), [], [])
  }

  function Min(a: nat, b: nat): nat {
    if a < b then a else b
  }

  function WithThread(s: State, t: nat, l: Local): State
    requires t < |s.threads|
  {
    s.(threads := s.threads[t := l])
  }

  function Repeat(k: nat, n: nat): seq<nat> {
    seq(n, _ => k)
  }

  function StepThread(s: State, t: nat, max: nat): State
    requires t < |s.threads|
  {
    var l := s.threads[t];
    match l.pc
    case Idle =>
      WithThread(s, t, l.(pc := ReadOvercommit, max := max, tail := s.tail, got := 0))
    case ReadOvercommit =>
      WithThread(s, t, l.(pc := ReadOptimistic, overcommit := s.overcommit))
    case ReadOptimistic =>
      var available: int := l.tail - (s.optimistic - l.overcommit);
      if available > 0 then
        WithThread(s, t, l.(pc := Draw, desired := Min(available, l.max)))
      else
        WithThread(s, t, l.(pc := Idle))
    case Draw =>
      WithThread(s, t, l.(pc := ReadTail, myCount := s.optimistic, ticket := |s.tickets|))
        .(optimistic := s.optimistic + l.desired,
          tickets := s.tickets + [Ticket(l.desired, l.overcommit, 0, 0, 0, 0)])
    case ReadTail =>
      var available: int := s.tail - (l.myCount - l.overcommit);
      if available > 0 then
        var actual := Min(l.desired, available);
        var next := if actual < l.desired then ReturnSurplus else ClaimHead;
        WithThread(s, t, l.(pc := next, tail := s.tail, actual := actual))
          .(tickets := Recorded(s.tickets, l.ticket, actual))
      else
        WithThread(s, t, l.(pc := ReturnAll, tail := s.tail, actual := 0))
    case ReturnSurplus =>
      WithThread(s, t, l.(pc := ClaimHead))
        .(overcommit := s.overcommit + Surplus(l), tickets := HandedBack(s.tickets, l.ticket, Surplus(l)))
    case ReturnAll =>
      WithThread(s, t, l.(pc := Idle))
        .(overcommit := s.overcommit + l.desired, tickets := HandedBack(s.tickets, l.ticket, l.desired))
    case ClaimHead =>
      WithThread(s, t, l.(pc := Idle, first := s.head, got := l.actual))
        .(head := s.head + l.actual, owner := s.owner + Repeat(l.ticket, l.actual),
          tickets := Taken(s.tickets, l.ticket, s.head, l.actual))
  }

  function Surplus(l: Local): nat {
    if l.actual < l.desired then l.desired - l.actual else 0
  }

  // History updates.

  function Recorded(ts: seq<Ticket>, k: nat, actual: nat): seq<Ticket> {
    if k < |ts| then ts[k := ts[k].(granted := actual)] else ts
  }

  function HandedBack(ts: seq<Ticket>, k: nat, amount: nat): seq<Ticket> {
    if k < |ts| then ts[k := ts[k].(returned := amount)] else ts
  }

  function Taken(ts: seq<Ticket>, k: nat, first: nat, amount: nat): seq<Ticket> {
    if k < |ts| then ts[k := ts[k].(first := first, claimed := amount)] else ts
  }

  function Step(s: State, e: Event): State {
    match e
    case Publish(count) => s.(tail := s.tail + count)
    case Run(t, max) => if t < |s.threads| then StepThread(s, t, max) else s
  }

  /** The state after a whole schedule, oldest event first. */
  function Execute(s: State, schedule: seq<Event>): State {
    if schedule == [] then s
    else Step(Execute(s, schedule[..|schedule| - 1]), schedule[|schedule| - 1])
  }

  // Sums over the tickets drawn before the k-th.

  datatype Column = Width | Granted | Returned | Claimed

  function Cell(x: Ticket, c: Column): nat {
    match c
    case Width => x.width
    case Granted => x.granted
    case Returned => x.returned
    case Claimed => x.claimed
  }

  function Sum(ts: seq<Ticket>, c: Column, k: nat): nat
    requires k <= |ts|
  {
    if k == 0 then 0 else Sum(ts, c, k - 1) + Cell(ts[k - 1], c)
  }

  lemma {:induction false} SumUpdate(ts: seq<Ticket>, c: Column, i: nat, v: Ticket, k: nat)
    requires i < |ts| && k <= |ts|
    ensures Sum(ts[i := v], c, k) == Sum(ts, c, k) + (if i < k then Cell(v, c) - Cell(ts[i], c) else 0)
  {
    if k > 0 {
      SumUpdate(ts, c, i, v, k - 1);
    }
  }

  lemma {:induction false} SumExtend(ts: seq<Ticket>, c: Column, v: Ticket, k: nat)
    requires k <= |ts|
    ensures Sum(ts + [v], c, k) == Sum(ts, c, k)
  {
    if k > 0 {
      SumExtend(ts, c, v, k - 1);
    }
  }

  lemma SumLast(ts: seq<Ticket>, c: Column, v: Ticket)
    ensures Sum(ts + [v], c, |ts| + 1) == Sum(ts, c, |ts|) + Cell(v, c)
  {
    SumExtend(ts, c, v, |ts|);
  }

  // The invariant.

  ghost predicate TicketOk(s: State, k: nat)
    requires k < |s.tickets|
  {
    var x := s.tickets[k];
    && x.granted + x.returned <= x.width
    && x.seen <= Sum(s.tickets, Returned, k)
    && (x.granted > 0 ==> Sum(s.tickets, Width, k) + x.granted - x.seen <= s.tail)
    && (x.claimed == 0 || x.claimed == x.granted)
    && x.first + x.claimed <= s.head
  }

  predicate Holding(pc: Pc) {
    pc == ReadTail || pc == ReturnSurplus || pc == ReturnAll || pc == ClaimHead
  }

  ghost predicate ThreadOk(s: State, l: Local) {
    && (l.pc in {ReadOptimistic, Draw} ==> l.overcommit <= s.overcommit)
    && (Holding(l.pc) ==>
          && l.ticket < |s.tickets|
          && l.myCount == Sum(s.tickets, Width, l.ticket)
          && HeldTicketOk(s.tickets[l.ticket], l))
  }

  ghost predicate HeldTicketOk(x: Ticket, l: Local) {
    && x.width == l.desired
    && x.seen == l.overcommit
    && x.claimed == 0
    && match l.pc
       case ReadTail => x.granted == 0 && x.returned == 0
       case ReturnAll => x.granted == 0 && x.returned == 0
       case ReturnSurplus => x.granted == l.actual < l.desired && x.returned == 0
       case ClaimHead => x.granted == l.actual && x.granted + x.returned == x.width
       case _ => true
  }

  ghost predicate Held(s: State, k: nat) {
    exists t :: 0 <= t < |s.threads| && Holding(s.threads[t].pc) && s.threads[t].ticket == k
  }

  predicate Settled(x: Ticket) {
    x.claimed == x.granted && x.granted + x.returned == x.width
  }

  ghost predicate Inv(s: State) {
    && s.optimistic == Sum(s.tickets, Width, |s.tickets|)
    && s.overcommit == Sum(s.tickets, Returned, |s.tickets|)
    && s.head == Sum(s.tickets, Claimed, |s.tickets|)
    && (forall k :: 0 <= k < |s.tickets| ==> TicketOk(s, k))
    && (forall t :: 0 <= t < |s.threads| ==> ThreadOk(s, s.threads[t]))
    && (forall t, u :: 0 <= t < u < |s.threads| && Holding(s.threads[t].pc) && Holding(s.threads[u].pc)
          ==> s.threads[t].ticket != s.threads[u].ticket)
    && (forall k :: 0 <= k < |s.tickets| && !Held(s, k) ==> Settled(s.tickets[k]))
    && OwnersOk(s)
  }

  /** Index i was claimed by ticket owner[i] and by no other. */
  ghost predicate OwnersOk(s: State) {
    && |s.owner| == s.head
    && (forall i :: 0 <= i < |s.owner| ==> s.owner[i] < |s.tickets|)
    && (forall i, k :: 0 <= i < |s.owner| && 0 <= k < |s.tickets| ==>
          (s.owner[i] == k <==> Covers(s.tickets[k], i)))
  }

  predicate Covers(x: Ticket, i: int) {
    x.first <= i < x.first + x.claimed
  }

  // The counting argument.

  /** Everything granted to the first k tickets is below the tail: at the last ticket that was granted
      anything, all the overcommit it had seen was handed back by tickets before it. */
  lemma {:induction false} GrantsFitTail(s: State, k: nat)
    requires k <= |s.tickets|
    requires forall j :: 0 <= j < |s.tickets| ==> TicketOk(s, j)
    ensures Sum(s.tickets, Granted, k) <= s.tail
    ensures Sum(s.tickets, Granted, k) + Sum(s.tickets, Returned, k) <= Sum(s.tickets, Width, k)
  {
    if k > 0 {
      GrantsFitTail(s, k - 1);
      assert TicketOk(s, k - 1);
    }
  }

  lemma {:induction false} ClaimsWithinGrants(ts: seq<Ticket>, k: nat)
    requires k <= |ts|
    requires forall j :: 0 <= j < |ts| ==> ts[j].claimed <= ts[j].granted
    ensures Sum(ts, Claimed, k) <= Sum(ts, Granted, k)
  {
    if k > 0 {
      ClaimsWithinGrants(ts, k - 1);
    }
  }

  lemma {:induction false} UnclaimedGrantFits(ts: seq<Ticket>, i: nat, k: nat)
    requires i < k <= |ts|
    requires forall j :: 0 <= j < |ts| ==> ts[j].claimed <= ts[j].granted
    ensures Sum(ts, Claimed, k) + ts[i].granted - ts[i].claimed <= Sum(ts, Granted, k)
  {
    if k - 1 == i {
      ClaimsWithinGrants(ts, i);
    } else {
      UnclaimedGrantFits(ts, i, k - 1);
    }
  }

  /** A thread about to claim `actual` indices finds that many published ones ahead of the head. */
  lemma ClaimFits(s: State, t: nat)
    requires Inv(s)
    requires t < |s.threads| && s.threads[t].pc == ClaimHead
    ensures s.head + s.threads[t].actual <= s.tail
  {
    var l := s.threads[t];
    assert ThreadOk(s, l);
    forall j | 0 <= j < |s.tickets| ensures s.tickets[j].claimed <= s.tickets[j].granted {
      assert TicketOk(s, j);
    }
    UnclaimedGrantFits(s.tickets, l.ticket, |s.tickets|);
    GrantsFitTail(s, |s.tickets|);
  }

  /** The head never passes the tail. */
  lemma HeadBehindTail(s: State)
    requires Inv(s)
    ensures s.head <= s.tail
  {
    forall j | 0 <= j < |s.tickets| ensures s.tickets[j].claimed <= s.tickets[j].granted {
      assert TicketOk(s, j);
    }
    ClaimsWithinGrants(s.tickets, |s.tickets|);
    GrantsFitTail(s, |s.tickets|);
  }

  // Preservation, one lemma per kind of step.

  lemma InitInv(n: nat)
    ensures Inv(Init(n))
  {
  }

  /** Replacing one ticket by one of the same draw that has handed back no less keeps the others. */
  lemma OtherTicketsOk(s: State, s': State, k: nat, v: Ticket)
    requires k < |s.tickets| && s'.tickets == s.tickets[k := v]
    requires v.width == s.tickets[k].width && v.returned >= s.tickets[k].returned
    requires s.tail <= s'.tail && s.head <= s'.head
    requires forall j :: 0 <= j < |s.tickets| ==> TicketOk(s, j)
    ensures forall j :: 0 <= j < |s.tickets| && j != k ==> TicketOk(s', j)
    ensures Sum(s'.tickets, Returned, k) == Sum(s.tickets, Returned, k)
    ensures forall j :: 0 <= j <= |s.tickets| ==> Sum(s'.tickets, Width, j) == Sum(s.tickets, Width, j)
  {
    forall j | 0 <= j <= |s.tickets|
      ensures Sum(s'.tickets, Width, j) == Sum(s.tickets, Width, j)
      ensures Sum(s'.tickets, Returned, j) >= Sum(s.tickets, Returned, j)
    {
      SumUpdate(s.tickets, Width, k, v, j);
      SumUpdate(s.tickets, Returned, k, v, j);
    }
    SumUpdate(s.tickets, Returned, k, v, k);
    forall j | 0 <= j < |s.tickets| && j != k ensures TicketOk(s', j) {
      assert TicketOk(s, j);
    }
  }

  /** Who holds a ticket after thread t has moved from l to l'. */
  lemma HeldAfter(s: State, s': State, t: nat, k: nat)
    requires t < |s.threads| && |s'.threads| == |s.threads|
    requires forall u :: 0 <= u < |s.threads| && u != t ==> s'.threads[u] == s.threads[u]
    ensures Held(s, k) && !Held(s', k) ==> Holding(s.threads[t].pc) && s.threads[t].ticket == k
  {
    if Held(s, k) {
      var u :| 0 <= u < |s.threads| && Holding(s.threads[u].pc) && s.threads[u].ticket == k;
      if u != t {
        assert Holding(s'.threads[u].pc) && s'.threads[u].ticket == k;
      }
    }
  }

  lemma PublishKeeps(s: State, count: nat)
    requires Inv(s)
    ensures Inv(Step(s, Publish(count)))
  {
    var s' := Step(s, Publish(count));
    forall k | 0 <= k < |s'.tickets| ensures TicketOk(s', k) {
      assert TicketOk(s, k);
    }
    forall k | 0 <= k < |s'.tickets| ensures Held(s, k) == Held(s', k) {
    }
    forall t | 0 <= t < |s'.threads| ensures ThreadOk(s', s'.threads[t]) {
      assert ThreadOk(s, s.threads[t]);
    }
  }

  lemma LocalMove(s: State, t: nat, max: nat)
    requires t < |s.threads| && s.threads[t].pc in {Idle, ReadOvercommit, ReadOptimistic} && ThreadOk(s, s.threads[t])
    ensures var s' := StepThread(s, t, max); var l' := s'.threads[t];
      && |s'.threads| == |s.threads| && s' == s.(threads := s.threads[t := l'])
      && !Holding(l'.pc) && ThreadOk(s', l')
  {
  }

  lemma SameOwners(s: State, s': State)
    requires OwnersOk(s) && s'.owner == s.owner && s'.head == s.head && s'.tickets == s.tickets
    ensures OwnersOk(s')
  {
  }

  /** Steps that touch no ticket and no shared variable. */
  lemma LocalStepKeeps(s: State, t: nat, max: nat)
    requires Inv(s)
    requires t < |s.threads| && s.threads[t].pc in {Idle, ReadOvercommit, ReadOptimistic}
    ensures Inv(StepThread(s, t, max))
  {
    LocalMove(s, t, max);
    hide StepThread, OwnersOk;
    var s' := StepThread(s, t, max);
    forall k | 0 <= k < |s'.tickets| ensures TicketOk(s', k) {
      assert TicketOk(s, k);
    }
    forall u | 0 <= u < |s'.threads| ensures ThreadOk(s', s'.threads[u]) {
      assert ThreadOk(s, s.threads[u]);
    }
    forall k | 0 <= k < |s'.tickets| && !Held(s', k) ensures Settled(s'.tickets[k]) {
      HeldAfter(s, s', t, k);
    }
    assert OwnersOk(s') by {
      assert OwnersOk(s);
      SameOwners(s, s');
    }
  }

  /** A ticket appended to the history leaves the tickets before it and their holders as they were. */
  lemma DrawnTickets(s: State, s': State, v: Ticket)
    requires Inv(s)
    requires s'.tickets == s.tickets + [v] && s'.tail == s.tail && s'.head == s.head && s'.overcommit == s.overcommit
    requires v.granted == v.returned == v.claimed == v.first == 0 && v.seen <= s.overcommit
    ensures forall k :: 0 <= k < |s'.tickets| ==> TicketOk(s', k)
    ensures forall t :: 0 <= t < |s.threads| ==> ThreadOk(s', s.threads[t])
    ensures forall t :: 0 <= t < |s.threads| && Holding(s.threads[t].pc) ==> s.threads[t].ticket < |s.tickets|
    ensures Sum(s'.tickets, Width, |s.tickets|) == s.optimistic
    ensures Sum(s'.tickets, Width, |s'.tickets|) == s.optimistic + v.width
    ensures Sum(s'.tickets, Returned, |s'.tickets|) == s.overcommit
    ensures Sum(s'.tickets, Claimed, |s'.tickets|) == s.head
  {
    hide Sum, Held;
    var n := |s.tickets|;
    forall k | 0 <= k <= n
      ensures Sum(s'.tickets, Width, k) == Sum(s.tickets, Width, k)
      ensures Sum(s'.tickets, Returned, k) == Sum(s.tickets, Returned, k)
    {
      SumExtend(s.tickets, Width, v, k);
      SumExtend(s.tickets, Returned, v, k);
    }
    SumLast(s.tickets, Width, v);
    SumLast(s.tickets, Returned, v);
    SumLast(s.tickets, Claimed, v);
    forall k | 0 <= k < |s'.tickets| ensures TicketOk(s', k) {
      assert k < n ==> TicketOk(s, k);
    }
    forall u | 0 <= u < |s.threads|
      ensures ThreadOk(s', s.threads[u])
      ensures Holding(s.threads[u].pc) ==> s.threads[u].ticket < n
    {
      assert ThreadOk(s, s.threads[u]);
    }
  }

  lemma DrawKeeps(s: State, t: nat, max: nat)
    requires Inv(s)
    requires t < |s.threads| && s.threads[t].pc == Draw
    ensures Inv(StepThread(s, t, max))
  {
    var s' := StepThread(s, t, max);
    var n := |s.tickets|;
    assert ThreadOk(s, s.threads[t]);
    DrawnTickets(s, s', s'.tickets[n]);
    forall u | 0 <= u < |s'.threads| ensures ThreadOk(s', s'.threads[u]) {
      if u != t {
        assert ThreadOk(s', s.threads[u]);
      }
    }
    assert Holding(s'.threads[t].pc) && s'.threads[t].ticket == n;
    assert Held(s', n);
    forall k | 0 <= k < |s'.tickets| && !Held(s', k) ensures Settled(s'.tickets[k]) {
      HeldAfter(s, s', t, k);
    }
  }

  /** Steps in which thread t rewrites its own ticket. */
  lemma TicketStepKeeps(s: State, s': State, t: nat, v: Ticket)
    requires Inv(s)
    requires t < |s.threads| && Holding(s.threads[t].pc)
    requires |s'.threads| == |s.threads|
    requires forall u :: 0 <= u < |s.threads| && u != t ==> s'.threads[u] == s.threads[u]
    requires s.threads[t].ticket < |s.tickets| && s'.tickets == s.tickets[s.threads[t].ticket := v]
    requires s'.threads[t].ticket == s.threads[t].ticket && s'.threads[t].myCount == s.threads[t].myCount
    requires v.width == s.tickets[s.threads[t].ticket].width && v.seen == s.tickets[s.threads[t].ticket].seen
    requires v.returned >= s.tickets[s.threads[t].ticket].returned
    requires s'.optimistic == s.optimistic && s'.tail == s.tail
    requires s'.head - s.head == v.claimed - s.tickets[s.threads[t].ticket].claimed >= 0
    requires s'.overcommit - s.overcommit == v.returned - s.tickets[s.threads[t].ticket].returned
    requires TicketOk(s', s.threads[t].ticket)
    requires if Holding(s'.threads[t].pc) then HeldTicketOk(v, s'.threads[t]) else s'.threads[t].pc == Idle && Settled(v)
    requires OwnersOk(s')
    ensures Inv(s')
  {
    var k0 := s.threads[t].ticket;
    var n := |s.tickets|;
    OtherTicketsOk(s, s', k0, v);
    SumUpdate(s.tickets, Returned, k0, v, n);
    SumUpdate(s.tickets, Claimed, k0, v, n);
    forall u | 0 <= u < |s'.threads| ensures ThreadOk(s', s'.threads[u]) {
      assert ThreadOk(s, s.threads[u]);
    }
    forall k | 0 <= k < n && !Held(s', k) ensures Settled(s'.tickets[k]) {
      HeldAfter(s, s', t, k);
    }
  }

  lemma DecideKeeps(s: State, t: nat, max: nat)
    requires Inv(s)
    requires t < |s.threads| && s.threads[t].pc == ReadTail
    ensures Inv(StepThread(s, t, max))
  {
    var s' := StepThread(s, t, max);
    var k := s.threads[t].ticket;
    assert ThreadOk(s, s.threads[t]) && TicketOk(s, k);
    var v := s'.tickets[k];
    assert s'.tickets == s.tickets[k := v];
    OtherTicketsOk(s, s', k, v);
    assert TicketOk(s', k);
    TicketStepKeeps(s, s', t, v);
  }

  lemma ReturnKeeps(s: State, t: nat, max: nat)
    requires Inv(s)
    requires t < |s.threads| && s.threads[t].pc in {ReturnSurplus, ReturnAll}
    ensures Inv(StepThread(s, t, max))
  {
    var s' := StepThread(s, t, max);
    var k := s.threads[t].ticket;
    assert ThreadOk(s, s.threads[t]) && TicketOk(s, k);
    var v := s'.tickets[k];
    assert s'.tickets == s.tickets[k := v];
    OtherTicketsOk(s, s', k, v);
    assert TicketOk(s', k);
    TicketStepKeeps(s, s', t, v);
  }

  lemma ClaimOwners(s: State, t: nat, max: nat)
    requires Inv(s)
    requires t < |s.threads| && s.threads[t].pc == ClaimHead
    ensures OwnersOk(StepThread(s, t, max))
  {
    var s' := StepThread(s, t, max);
    var l := s.threads[t];
    assert ThreadOk(s, l);
    forall i, k | 0 <= i < |s'.owner| && 0 <= k < |s'.tickets|
      ensures s'.owner[i] == k <==> Covers(s'.tickets[k], i)
    {
      if i < |s.owner| {
        assert s'.owner[i] == s.owner[i];
        assert s.owner[i] == k <==> Covers(s.tickets[k], i);
      } else {
        assert s'.owner[i] == l.ticket;
        assert TicketOk(s, k);
      }
    }
  }

  lemma ClaimKeeps(s: State, t: nat, max: nat)
    requires Inv(s)
    requires t < |s.threads| && s.threads[t].pc == ClaimHead
    ensures Inv(StepThread(s, t, max))
  {
    var s' := StepThread(s, t, max);
    var k := s.threads[t].ticket;
    assert ThreadOk(s, s.threads[t]) && TicketOk(s, k);
    var v := s'.tickets[k];
    assert s'.tickets == s.tickets[k := v];
    OtherTicketsOk(s, s', k, v);
    assert TicketOk(s', k);
    ClaimOwners(s, t, max);
    TicketStepKeeps(s, s', t, v);
  }

  lemma StepKeeps(s: State, e: Event)
    requires Inv(s)
    ensures Inv(Step(s, e))
  {
    match e
    case Publish(count) => PublishKeeps(s, count);
    case Run(t, max) =>
      if t < |s.threads| {
        match s.threads[t].pc
        case Draw => DrawKeeps(s, t, max);
        case ReadTail => DecideKeeps(s, t, max);
        case ReturnSurplus => ReturnKeeps(s, t, max);
        case ReturnAll => ReturnKeeps(s, t, max);
        case ClaimHead => ClaimKeeps(s, t, max);
        case _ => LocalStepKeeps(s, t, max);
      }
  }

  // Whose claim is whose.

  /** Thread states with a ticket of their own: still holding it, or back with what it got. */
  predicate Owns(l: Local) {
    Holding(l.pc) || l.got > 0
  }

  /** What a thread has come back with is what its ticket claimed. */
  ghost predicate RecordOk(tickets: seq<Ticket>, l: Local) {
    && (l.pc != Idle ==> l.got == 0)
    && (Owns(l) ==> l.ticket < |tickets|)
    && (l.got > 0 ==> tickets[l.ticket].first == l.first && tickets[l.ticket].claimed == l.got)
  }

  /** Finished dequeues included, no two threads have the same ticket. */
  ghost predicate ClaimsRecorded(s: State) {
    && (forall t {:trigger s.threads[t]} :: 0 <= t < |s.threads| ==> RecordOk(s.tickets, s.threads[t]))
    && (forall t, u :: 0 <= t < u < |s.threads| && Owns(s.threads[t]) && Owns(s.threads[u]) ==>
          s.threads[t].ticket != s.threads[u].ticket)
  }

  lemma StepRecords(s: State, e: Event)
    requires Inv(s) && ClaimsRecorded(s)
    ensures ClaimsRecorded(Step(s, e))
  {
    if e.Run? && e.t < |s.threads| {
      assert ThreadOk(s, s.threads[e.t]) && RecordOk(s.tickets, s.threads[e.t]);
      RecordAfter(s, e.t, e.max);
    }
  }

  lemma RecordAfter(s: State, t: nat, max: nat)
    requires ClaimsRecorded(s) && t < |s.threads| && ThreadOk(s, s.threads[t])
    ensures ClaimsRecorded(StepThread(s, t, max))
  {
    var s' := StepThread(s, t, max);
    forall u | 0 <= u < |s'.threads| ensures RecordOk(s'.tickets, s'.threads[u]) {
      assert RecordOk(s.tickets, s.threads[u]);
    }
  }

  /** Each index that a thread has come back with belongs to its ticket alone. */
  lemma OwnRange(s: State, t: nat, i: nat)
    requires Inv(s) && ClaimsRecorded(s) && t < |s.threads| && s.threads[t].got > 0
    requires s.threads[t].first <= i < s.threads[t].first + s.threads[t].got
    ensures i < s.head && s.threads[t].ticket < |s.tickets|
    ensures forall k :: 0 <= k < |s.tickets| ==> (Covers(s.tickets[k], i) <==> k == s.threads[t].ticket)
  {
    var k := s.threads[t].ticket;
    assert RecordOk(s.tickets, s.threads[t]) && TicketOk(s, k);
    assert Covers(s.tickets[k], i) && s.owner[i] == k;
  }

  /** So the ranges of two threads do not meet. */
  lemma RangesDisjoint(s: State, t: nat, u: nat)
    requires Inv(s) && ClaimsRecorded(s) && t < |s.threads| && u < |s.threads| && t != u
    requires s.threads[t].got > 0 && s.threads[u].got > 0
    ensures var l, m := s.threads[t], s.threads[u];
      l.first + l.got <= m.first || m.first + m.got <= l.first
  {
    var l, m := s.threads[t], s.threads[u];
    var i := if l.first < m.first then m.first else l.first;
    if i < l.first + l.got && i < m.first + m.got {
      OwnRange(s, t, i);
      OwnRange(s, u, i);
    }
  }

  // Main results.

  lemma {:induction false} EveryRun(n: nat, schedule: seq<Event>)
    ensures Inv(Execute(Init(n), schedule))
  {
    if schedule == [] {
      InitInv(n);
    } else {
      var last := |schedule| - 1;
      EveryRun(n, schedule[..last]);
      StepKeeps(Execute(Init(n), schedule[..last]), schedule[last]);
    }
  }

  /** Each index below the head lies in the claim of one ticket and of no other. */
  ghost predicate ClaimedOnce(s: State, i: nat) {
    && (exists k :: 0 <= k < |s.tickets| && Covers(s.tickets[k], i))
    && (forall j, k :: 0 <= j < |s.tickets| && 0 <= k < |s.tickets| && Covers(s.tickets[j], i) && Covers(s.tickets[k], i)
          ==> j == k)
  }

  /** In every interleaving the head stays behind the tail, the claim any thread is about to make stays
      behind it too, and each index below the head has been claimed exactly once. */
  lemma ClaimsAreExclusive(n: nat, schedule: seq<Event>, t: nat, i: nat)
    ensures var s := Execute(Init(n), schedule);
      && s.head <= s.tail
      && (t < |s.threads| && s.threads[t].pc == ClaimHead ==> s.head + s.threads[t].actual <= s.tail)
      && (i < s.head <==> exists k :: 0 <= k < |s.tickets| && Covers(s.tickets[k], i))
      && (i < s.head ==> ClaimedOnce(s, i))
  {
    var s := Execute(Init(n), schedule);
    EveryRun(n, schedule);
    HeadBehindTail(s);
    if t < |s.threads| && s.threads[t].pc == ClaimHead {
      ClaimFits(s, t);
    }
    if i < s.head {
      assert Covers(s.tickets[s.owner[i]], i);
    }
    forall k | 0 <= k < |s.tickets| ensures Covers(s.tickets[k], i) ==> i < s.head {
      assert TicketOk(s, k);
    }
  }

  /** No dequeue between its draw and its last update. */
  ghost predicate Quiescent(s: State) {
    forall t :: 0 <= t < |s.threads| ==> !Holding(s.threads[t].pc)
  }

  lemma {:induction false} SettledSums(ts: seq<Ticket>, k: nat)
    requires k <= |ts|
    requires forall j :: 0 <= j < |ts| ==> Settled(ts[j])
    ensures Sum(ts, Width, k) == Sum(ts, Claimed, k) + Sum(ts, Returned, k)
  {
    if k > 0 {
      SettledSums(ts, k - 1);
    }
  }

  /** The effective dequeue count is exact once every drawn ticket is settled. */
  lemma QuiescentCount(s: State)
    requires Inv(s) && Quiescent(s)
    ensures s.optimistic - s.overcommit == s.head
  {
    forall k | 0 <= k < |s.tickets| ensures Settled(s.tickets[k]) {
      assert !Held(s, k);
    }
    SettledSums(s.tickets, |s.tickets|);
  }

  /** The next `steps` accesses of thread t, with no other event in between. */
  function Alone(s: State, t: nat, max: nat, steps: nat): (s': State)
    requires t < |s.threads|
    ensures |s'.threads| == |s.threads|
  {
    if steps == 0 then s else StepThread(Alone(s, t, max, steps - 1), t, max)
  }

  /** That as a schedule. */
  function Turns(t: nat, max: nat, steps: nat): seq<Event> {
    seq(steps, _ => Run(t, max))
  }

  lemma {:induction false} AloneIsASchedule(s: State, t: nat, max: nat, steps: nat)
    requires t < |s.threads|
    ensures Alone(s, t, max, steps) == Execute(s, Turns(t, max, steps))
  {
    if steps > 0 {
      AloneIsASchedule(s, t, max, steps - 1);
      assert Turns(t, max, steps)[..steps - 1] == Turns(t, max, steps - 1);
    }
  }

  /** How many accesses a dequeue with no other one in flight makes. */
  function LoneSteps(s: State): nat {
    if s.head == s.tail then 3 else 6
  }

  /** With no other dequeue in flight a dequeue takes exactly min(max, tail - head) consecutive elements
      starting at the head, and it gives up at its third access exactly on an empty sub-queue. */
  lemma LoneDequeue(s: State, t: nat, max: nat)
    requires Inv(s) && Quiescent(s)
    requires t < |s.threads| && s.threads[t].pc == Idle
    ensures s.head <= s.tail
    ensures var e := Execute(s, Turns(t, max, LoneSteps(s)));
      && |e.threads| == |s.threads|
      && e.threads[t].pc == Idle
      && e.threads[t].got == Min(max, s.tail - s.head)
      && (s.head < s.tail ==> e.threads[t].first == s.head)
      && e.head == s.head + Min(max, s.tail - s.head)
      && e.tail == s.tail
  {
    AloneIsASchedule(s, t, max, LoneSteps(s));
    LoneSequence(s, t, max);
  }

  lemma LoneSequence(s: State, t: nat, max: nat)
    requires Inv(s) && Quiescent(s)
    requires t < |s.threads| && s.threads[t].pc == Idle
    ensures s.head <= s.tail
    ensures forall i :: 1 <= i < LoneSteps(s) ==> Alone(s, t, max, i).threads[t].pc != Idle
    ensures forall i :: 0 <= i < LoneSteps(s) ==>
              (Alone(s, t, max, i).threads[t].pc == ClaimHead <==> i == 5)
    ensures s.head < s.tail ==> Alone(s, t, max, 5).threads[t].actual == Min(max, s.tail - s.head)
    ensures var e := Alone(s, t, max, LoneSteps(s));
      && e.threads[t].pc == Idle
      && e.threads[t].got == Min(max, s.tail - s.head)
      && (s.head < s.tail ==> e.threads[t].first == s.head)
      && e.head == s.head + Min(max, s.tail - s.head)
      && e.tail == s.tail
  {
    HeadBehindTail(s);
    QuiescentCount(s);
    var s2 := StepThread(StepThread(s, t, max), t, max);
    var s3 := StepThread(s2, t, max);
    assert Alone(s, t, max, 1) == StepThread(s, t, max);
    assert Alone(s, t, max, 2) == s2;
    assert Alone(s, t, max, 3) == s3;
    if s.head < s.tail {
      assert s3.threads[t].pc == Draw;
      var s5 := StepThread(StepThread(s3, t, max), t, max);
      assert s5.threads[t].pc == ClaimHead;
      assert Alone(s, t, max, 4) == StepThread(s3, t, max);
      assert Alone(s, t, max, 5) == s5;
      assert Alone(s, t, max, 6) == StepThread(s5, t, max);
      forall i | 1 <= i < 6
        ensures Alone(s, t, max, i).threads[t].pc != Idle && (Alone(s, t, max, i).threads[t].pc == ClaimHead <==> i == 5)
      {
        assert i == 1 || i == 2 || i == 3 || i == 4 || i == 5;
      }
    } else {
      forall i | 1 <= i < 3
        ensures Alone(s, t, max, i).threads[t].pc != Idle && Alone(s, t, max, i).threads[t].pc != ClaimHead
      {
        assert i == 1 || i == 2;
      }
    }
  }
}
