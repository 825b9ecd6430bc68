/** What one call for a producer achieves while the other threads pause, and what the common count counts. */
module ProducerHashCalls {
  import opened Options
  import opened BlockArithmetic
  import opened Tally
  import opened ProducerHash

  /** n accesses of thread t. */
  function Alone(s: State, t: nat, n: nat): State {
    if n == 0 then s else Step(Alone(s, t, n - 1), t)
  }

  function Turns(t: nat, n: nat): seq<nat> {
    seq(n, _ => t)
  }

  lemma {:induction false} AloneIsASchedule(s: State, t: nat, n: nat)
    ensures Alone(s, t, n) == Execute(s, Turns(t, n))
  {
    hide Step;
    if n > 0 {
      AloneIsASchedule(s, t, n - 1);
      assert Turns(t, n)[..n - 1] == Turns(t, n - 1);
    }
  }

  lemma {:induction false} AloneAdds(s: State, t: nat, m: nat, n: nat)
    ensures Alone(Alone(s, t, m), t, n) == Alone(s, t, m + n)
  {
    hide Step;
    if n > 0 {
      AloneAdds(s, t, m, n - 1);
    }
  }

  lemma First(s: State, t: nat)
    ensures Alone(s, t, 0) == s && Alone(s, t, 1) == Step(s, t)
  {
    hide Step;
  }

  /** The thread is busy all the time until its n-th access. */
  ghost predicate BusyUntil(s: State, t: nat, n: nat) {
    forall j {:trigger Alone(s, t, j)} :: 0 <= j < n ==> t < |Alone(s, t, j).threads| && Alone(s, t, j).threads[t].pc != Idle
  }

  lemma BusyOn(s: State, t: nat, m: nat, n: nat)
    requires BusyUntil(s, t, m) && BusyUntil(Alone(s, t, m), t, n)
    ensures BusyUntil(s, t, m + n) && Alone(s, t, m + n) == Alone(Alone(s, t, m), t, n)
  {
    hide Step;
    AloneAdds(s, t, m, n);
    forall j | 0 <= j < m + n ensures t < |Alone(s, t, j).threads| && Alone(s, t, j).threads[t].pc != Idle {
      if j >= m {
        AloneAdds(s, t, m, j - m);
      }
    }
  }

  lemma BusyOnce(s: State, t: nat)
    requires t < |s.threads| && s.threads[t].pc != Idle
    ensures BusyUntil(s, t, 1) && Alone(s, t, 1) == Step(s, t)
  {
    First(s, t);
  }

  lemma BusyNot(s: State, t: nat)
    ensures BusyUntil(s, t, 0) && Alone(s, t, 0) == s
  {
  }

  /** Only thread t's own registers have changed. */
  ghost predicate OnlyRegisters(s: State, s': State, t: nat)
    requires t < |s.threads|
  {
    && |s'.threads| == |s.threads| && s' == s.(threads := s.threads[t := s'.threads[t]])
    && s'.threads[t].hash == s.threads[t].hash && s'.threads[t].newCount == s.threads[t].newCount
    && s'.threads[t].main == s.threads[t].main
  }

  lemma OnlyRegistersTwice(s: State, s': State, s'': State, t: nat)
    requires t < |s.threads| && OnlyRegisters(s, s', t) && OnlyRegisters(s', s'', t)
    ensures OnlyRegisters(s, s'', t)
  {
  }

  // The search.

  /** What a probe changes. */
  lemma ProbeShape(s: State, t: nat)
    requires t < |s.threads| && CanStep(s, t) && s.threads[t].pc == Probe
    ensures var s' := Step(s, t); var l, l' := s.threads[t], s'.threads[t]; var table := s.tables[l.h];
      var probed := table.keys[SlotOf(l, table)];
      && OnlyRegisters(s, s', t)
      && (probed == Some(t) ==> (if l.h != l.main then l'.pc == Reinsert else l'.pc == Idle && l'.result == table.values[SlotOf(l, table)]))
      && (probed == None ==> (if l.h == 0 then l'.pc == DrawCount else l'.pc == Probe && l'.h < l.h))
      && (probed != None && probed != Some(t) ==> l'.pc == Probe && l'.h == l.h && l'.d == l.d + 1)
  {
    hide Mod;
  }

  /** The thread's own slot has its producer. */
  lemma OwnSlot(s: State, t: nat)
    requires Inv(s) && t < |s.threads| && s.threads[t].pc == Probe
    ensures CanStep(s, t)
    ensures var l := s.threads[t]; var table := s.tables[l.h];
      table.keys[SlotOf(l, table)] == Some(t) ==>
        t in table.at && s.home[t].Some? && table.values[SlotOf(l, table)] == s.owner[t] && s.owner[t].Some?
  {
    InvReady(s, t);
    var l := s.threads[t];
    assert TableOk(s.tables[l.h], l.h, s.threads, s.owner);
    if s.tables[l.h].keys[SlotOf(l, s.tables[l.h])] == Some(t) {
      FoundOwn(s.tables[l.h], l.h, s.threads, s.owner, t, SlotOf(l, s.tables[l.h]));
    }
    hide TableOk, PassedOver, Increasing, Distinct, Absent;
  }

  /** A search never runs out of slots. */
  lemma SearchBounded(s: State, t: nat)
    requires Inv(s) && t < |s.threads|
    ensures |s.home| == |s.owner| == |s.threads| && |s.tables| > 0
    ensures var l := s.threads[t];
      && (l.pc == Probe ==> l.h < |s.tables| && l.d < s.tables[l.h].capacity && l.h <= l.main < |s.tables|)
      && (l.pc in {Reinsert, Insert} ==> l.main < |s.tables| && l.d < s.tables[l.main].capacity)
      && (l.pc == DrawCount ==> s.home[t] == None)
      && (l.pc == Reinsert ==> l.value == s.owner[t])
  {
    InvReady(s, t);
    var l := s.threads[t];
    if l.pc == Probe {
      FreeSlot(s, l.h);
      ProbesBounded(s.tables[l.h], l.hash, t, l.d);
    } else if l.pc == Reinsert || l.pc == Insert {
      FreeSlot(s, l.main);
      ProbesBounded(s.tables[l.main], l.hash, t, l.d);
    }
  }

  /** One probe: it finds the thread's own slot, or an empty one, or passes over one. */
  ghost predicate Probed(s: State, s': State, t: nat)
    requires t < |s.threads|
  {
    && Inv(s') && OnlyRegisters(s, s', t) && t < |s.home| && t < |s.owner|
    && var l, l' := s.threads[t], s'.threads[t];
      && l.h < |s.tables| && l.main < |s.tables|
      && match l'.pc
         case Probe => (l'.h == l.h && l.d < l'.d < s.tables[l.h].capacity) || l'.h < l.h
         case DrawCount => s.home[t] == None
         case Reinsert => s.home[t].Some? && l.h != l.main
         case Idle => s.home[t].Some? && l'.result == s.owner[t]
         case _ => false
  }

  lemma ProbesOnce(s: State, t: nat)
    requires Inv(s) && t < |s.threads| && s.threads[t].pc == Probe
    ensures Probed(s, Step(s, t), t)
  {
    hide Inv, Step, TableShape, Mod;
    StepKeeps(s, t);
    OwnSlot(s, t);
    ProbeShape(s, t);
    SearchBounded(s, t);
    SearchBounded(Step(s, t), t);
  }

  /** The whole search of thread t, from table l.h down. */
  ghost predicate Searched(s: State, s': State, t: nat)
    requires t < |s.threads|
  {
    && Inv(s') && OnlyRegisters(s, s', t) && t < |s.home| && t < |s.owner|
    && match s'.threads[t].pc
       case DrawCount => s.home[t] == None
       case Reinsert => s.home[t].Some?
       case Idle => s.home[t].Some? && s'.threads[t].result == s.owner[t]
       case _ => false
  }

  function SlotsLeft(s: State, l: Local): int {
    if l.h < |s.tables| then s.tables[l.h].capacity - l.d else 0
  }

  lemma {:induction false} Searches(s: State, t: nat) returns (n: nat)
    requires Inv(s) && t < |s.threads| && s.threads[t].pc == Probe
    ensures Searched(s, Alone(s, t, n), t) && BusyUntil(s, t, n)
    decreases s.threads[t].h, SlotsLeft(s, s.threads[t])
  {
    hide Inv, Step, Alone, BusyUntil, SlotOf;
    ProbesOnce(s, t);
    BusyOnce(s, t);
    SearchBounded(s, t);
    var s1 := Step(s, t);
    n := 1;
    if s1.threads[t].pc == Probe {
      SearchBounded(s1, t);
      var m := Searches(s1, t);
      BusyOn(s, t, 1, m);
      n := 1 + m;
      OnlyRegistersTwice(s, s1, Alone(s, t, n), t);
    }
  }

  // Taking a slot.

  /** What storing an entry leaves alone. */
  ghost predicate Kept(s: State, s': State, t: nat)
    requires t < |s.threads|
  {
    && |s'.threads| == |s.threads| && s'.threads == s.threads[t := s'.threads[t]]
    && |s'.tables| == |s.tables| && (forall g :: 0 <= g < |s.tables| ==> s'.tables[g].capacity == s.tables[g].capacity)
    && s'.count == s.count && s'.lock == s.lock && s'.nextProducer == s.nextProducer && s'.owner == s.owner
    && s'.threads[t].main == s.threads[t].main && s'.threads[t].value == s.threads[t].value
  }

  lemma KeptTwice(s: State, s': State, s'': State, t: nat)
    requires t < |s.threads| && Kept(s, s', t) && Kept(s', s'', t)
    ensures Kept(s, s'', t)
  {
  }

  lemma SlotOnce(s: State, t: nat)
    requires t < |s.threads| && CanStep(s, t) && s.threads[t].pc in {Reinsert, Insert}
    ensures var s' := Step(s, t); var l, l' := s.threads[t], s'.threads[t];
      && Kept(s, s', t) && |s'.home| == |s.home|
      && ((l'.pc == l.pc && l'.d == l.d + 1)
          || (l'.pc in {WriteBack, WriteValue} && t < |s'.home| && s'.home[t] == Some(l.main)))
  {
    hide Mod;
  }

  lemma WriteOnce(s: State, t: nat)
    requires t < |s.threads| && CanStep(s, t) && s.threads[t].pc in {WriteBack, WriteValue}
    ensures var s' := Step(s, t);
      Kept(s, s', t) && s'.home == s.home && s'.threads[t].pc == Idle && s'.threads[t].result == s.threads[t].value
  {
    hide Mod;
  }

  ghost predicate Stored(s: State, s': State, t: nat)
    requires t < |s.threads|
  {
    && Inv(s') && Kept(s, s', t) && s'.threads[t].pc == Idle && s'.threads[t].result == s.threads[t].value
    && t < |s'.home| && s'.home[t] == Some(s.threads[t].main)
  }

  lemma CanGoOn(s: State, t: nat)
    requires Inv(s) && t < |s.threads|
    ensures CanStep(s, t) && |s.home| == |s.owner| == |s.threads| && |s.tables| > 0
  {
    InvReady(s, t);
  }

  lemma {:induction false} Stores(s: State, t: nat) returns (n: nat)
    requires Inv(s) && t < |s.threads| && s.threads[t].pc in {Reinsert, Insert}
    ensures Stored(s, Alone(s, t, n), t) && BusyUntil(s, t, n)
    decreases if s.threads[t].main < |s.tables| then s.tables[s.threads[t].main].capacity - s.threads[t].d else 0
  {
    hide Inv, Step, Alone, BusyUntil, SlotOf, CanStep;
    CanGoOn(s, t);
    StepKeeps(s, t);
    SearchBounded(s, t);
    SlotOnce(s, t);
    BusyOnce(s, t);
    var s1 := Step(s, t);
    SearchBounded(s1, t);
    if s1.threads[t].pc in {WriteBack, WriteValue} {
      CanGoOn(s1, t);
      StepKeeps(s1, t);
      WriteOnce(s1, t);
      BusyOnce(s1, t);
      BusyOn(s, t, 1, 1);
      n := 2;
      KeptTwice(s, s1, Alone(s, t, n), t);
    } else {
      var m := Stores(s1, t);
      BusyOn(s, t, 1, m);
      n := 1 + m;
      KeptTwice(s, s1, Alone(s, t, n), t);
    }
  }

  // A new thread.

  /** Whether one thread more asks for a larger table: half of the slots are spoken for. */
  predicate AsksForGrowth(s: State) {
    |s.tables| > 0 && s.count + 1 >= s.tables[|s.tables| - 1].capacity / 2
  }

  /** The tables after a call of a new thread: one more, the least doubling of which the count is below half, or
      the same. */
  ghost predicate GrownOnce(s: State, tables: seq<Table>)
    requires |s.tables| > 0
  {
    if AsksForGrowth(s) then
      && |tables| == |s.tables| + 1 && (forall g :: 0 <= g < |s.tables| ==> tables[g].capacity == s.tables[g].capacity)
      && var c, c' := s.tables[|s.tables| - 1].capacity, tables[|s.tables|].capacity;
        c' >= 2 * c && s.count + 1 < c' / 2 && (c' == 2 * c || s.count + 1 >= c' / 4)
    else |tables| == |s.tables| && forall g :: 0 <= g < |s.tables| ==> tables[g].capacity == s.tables[g].capacity
  }

  /** A new thread has its producer and looks for a slot in the last table. */
  ghost predicate Registered(s: State, s': State, t: nat)
    requires t < |s.threads| && |s.owner| == |s.threads| && |s.tables| > 0
  {
    && |s'.threads| == |s.threads| && s'.threads == s.threads[t := s'.threads[t]]
    && s'.count == s.count + 1 && s'.lock == None && s'.nextProducer == s.nextProducer + 1
    && s'.owner == s.owner[t := Some(s.nextProducer)] && GrownOnce(s, s'.tables)
    && s'.threads[t].pc == Insert && s'.threads[t].value == Some(s.nextProducer) && s'.threads[t].main + 1 == |s'.tables|
  }

  /** The state in the middle of a registration: nothing but thread t, the count, the lock and the tables. */
  ghost predicate Midway(s: State, s': State, t: nat, pc: Pc, lock: Option<nat>)
    requires t < |s.threads|
  {
    && |s'.threads| == |s.threads| && s' == s.(threads := s.threads[t := s'.threads[t]], count := s.count + 1, lock := lock, tables := s'.tables)
    && s'.threads[t].pc == pc && s'.threads[t].newCount == s.count + 1 && s'.threads[t].main + 1 == |s'.tables|
  }

  lemma Draws(s: State, t: nat)
    requires t < |s.threads| && CanStep(s, t) && s.threads[t].pc == DrawCount && s.lock == None && s.threads[t].main + 1 == |s.tables|
    ensures var s1 := Step(s, t); Midway(s, s1, t, TryLock, None) && s1.tables == s.tables
  {
  }

  lemma TriesLock(s: State, s1: State, t: nat)
    requires t < |s.threads| && Midway(s, s1, t, TryLock, None) && CanStep(s1, t) && s1.tables == s.tables
    ensures var s2 := Step(s1, t);
      s2.tables == s.tables && if AsksForGrowth(s) then Midway(s, s2, t, ReloadMain, Some(t)) else Midway(s, s2, t, CheckAdd, None)
  {
  }

  lemma Reloads(s: State, s2: State, t: nat)
    requires t < |s.threads| && Midway(s, s2, t, ReloadMain, Some(t)) && CanStep(s2, t) && s2.tables == s.tables && AsksForGrowth(s)
    ensures var s3 := Step(s2, t); s3.tables == s.tables && Midway(s, s3, t, PublishTable, Some(t))
  {
  }

  lemma Publishes(s: State, s3: State, t: nat)
    requires t < |s.threads| && Midway(s, s3, t, PublishTable, Some(t)) && CanStep(s3, t) && s3.tables == s.tables && AsksForGrowth(s)
    ensures var s4 := Step(s3, t);
      Midway(s, s4, t, Unlock, Some(t)) && GrownOnce(s, s4.tables) && s.count + 1 < s4.tables[|s4.tables| - 1].capacity / 2
  {
  }

  lemma Unlocks(s: State, s4: State, t: nat)
    requires t < |s.threads| && Midway(s, s4, t, Unlock, Some(t)) && CanStep(s4, t)
    ensures var s5 := Step(s4, t); Midway(s, s5, t, CheckAdd, None) && s5.tables == s4.tables
  {
  }

  lemma ChecksAndCreates(s: State, s5: State, t: nat)
    requires t < |s.threads| && Midway(s, s5, t, CheckAdd, None) && CanStep(s5, t)
    requires |s.owner| == |s.threads| && |s.tables| > 0 && GrownOnce(s, s5.tables)
    requires s.count + 1 < s5.tables[|s5.tables| - 1].capacity / 2
    ensures |Step(s5, t).threads| == |s.threads|
    ensures Step(s5, t).threads[t].pc == Create && (CanStep(Step(s5, t), t) ==> Registered(s, Step(Step(s5, t), t), t))
  {
    hide GrownOnce;
  }

  ghost predicate RegisteredSafely(s: State, s': State, t: nat)
    requires t < |s.threads|
  {
    Inv(s') && |s.owner| == |s.threads| && |s.tables| > 0 && Registered(s, s', t)
  }

  lemma OnceMore(s: State, t: nat)
    requires Inv(s) && t < |s.threads| && s.threads[t].pc != Idle
    ensures CanStep(s, t) && Inv(Step(s, t)) && BusyUntil(s, t, 1) && Alone(s, t, 1) == Step(s, t)
    ensures |s.home| == |s.owner| == |s.threads| && |s.tables| > 0
  {
    CanGoOn(s, t);
    StepKeeps(s, t);
    BusyOnce(s, t);
  }

  lemma Pc(s: State, s': State, t: nat, pc: Pc, lock: Option<nat>)
    requires t < |s.threads| && Midway(s, s', t, pc, lock)
    ensures t < |s'.threads| && s'.threads[t].pc == pc
  {
  }

  /** From the lock to the new table and back. */
  lemma Grows(s: State, t: nat)
    requires t < |s.threads| && BusyUntil(s, t, 2) && Inv(Alone(s, t, 2)) && Midway(s, Alone(s, t, 2), t, ReloadMain, Some(t))
    requires Alone(s, t, 2).tables == s.tables && AsksForGrowth(s)
    ensures var s5 := Alone(s, t, 5);
      && BusyUntil(s, t, 5) && Inv(s5) && Midway(s, s5, t, CheckAdd, None) && |s.tables| > 0
      && GrownOnce(s, s5.tables) && s.count + 1 < s5.tables[|s5.tables| - 1].capacity / 2
  {
    hide Inv, Step, Alone, BusyUntil, CanStep, Midway, GrownOnce, AsksForGrowth;
    var s2 := Alone(s, t, 2);
    Pc(s, s2, t, ReloadMain, Some(t));
    OnceMore(s2, t);
    Reloads(s, s2, t);
    var s3 := Step(s2, t);
    Pc(s, s3, t, PublishTable, Some(t));
    OnceMore(s3, t);
    Publishes(s, s3, t);
    var s4 := Step(s3, t);
    Pc(s, s4, t, Unlock, Some(t));
    OnceMore(s4, t);
    Unlocks(s, s4, t);
    BusyOn(s, t, 2, 1);
    BusyOn(s, t, 3, 1);
    BusyOn(s, t, 4, 1);
  }

  /** From the count to the slot. */
  lemma Registers(s: State, t: nat) returns (n: nat)
    requires Inv(s) && t < |s.threads| && s.threads[t].pc == DrawCount && s.lock == None && s.threads[t].main + 1 == |s.tables|
    ensures RegisteredSafely(s, Alone(s, t, n), t) && BusyUntil(s, t, n)
  {
    hide Inv, Step, Alone, BusyUntil, CanStep, Midway, Registered, GrownOnce, AsksForGrowth;
    OnceMore(s, t);
    Draws(s, t);
    var s1 := Step(s, t);
    Pc(s, s1, t, TryLock, None);
    OnceMore(s1, t);
    TriesLock(s, s1, t);
    BusyOn(s, t, 1, 1);
    if AsksForGrowth(s) {
      Grows(s, t);
      n := CreatesFrom(s, t, 5);
    } else {
      NotGrown(s, s.tables);
      n := CreatesFrom(s, t, 2);
    }
  }

  lemma NotGrown(s: State, tables: seq<Table>)
    requires |s.tables| > 0 && !AsksForGrowth(s) && tables == s.tables
    ensures GrownOnce(s, tables) && s.count + 1 < tables[|tables| - 1].capacity / 2
  {
  }

  lemma CreatesFrom(s: State, t: nat, m: nat) returns (n: nat)
    requires t < |s.threads| && BusyUntil(s, t, m) && Inv(Alone(s, t, m)) && Midway(s, Alone(s, t, m), t, CheckAdd, None)
    requires |s.owner| == |s.threads| && |s.tables| > 0 && GrownOnce(s, Alone(s, t, m).tables)
    requires s.count + 1 < Alone(s, t, m).tables[|Alone(s, t, m).tables| - 1].capacity / 2
    ensures RegisteredSafely(s, Alone(s, t, n), t) && BusyUntil(s, t, n)
  {
    hide Inv, Step, Alone, BusyUntil, CanStep, Midway, Registered, GrownOnce;
    var s5 := Alone(s, t, m);
    Pc(s, s5, t, CheckAdd, None);
    OnceMore(s5, t);
    ChecksAndCreates(s, s5, t);
    OnceMore(Step(s5, t), t);
    BusyOn(s, t, m, 1);
    BusyOn(s, t, m + 1, 1);
    n := m + 2;
  }

  // A whole call.

  /** What a call that is not interrupted returns and leaves. A thread that has a producer gets it again; a new one
      gets the next producer, and the tables grow exactly if half of the last one is spoken for. */
  ghost predicate Called(s: State, s': State, t: nat)
    requires t < |s.threads| && |s.home| == |s.owner| == |s.threads| && |s.tables| > 0
  {
    && Inv(s') && |s'.threads| == |s.threads| && s'.threads == s.threads[t := s'.threads[t]] && s'.threads[t].pc == Idle
    && s'.lock == None && |s'.home| == |s.home|
    && if s.home[t].Some? then
         && s'.threads[t].result == s.owner[t] && s'.owner == s.owner
         && s'.nextProducer == s.nextProducer && s'.count == s.count && |s'.tables| == |s.tables|
       else
         && s'.threads[t].result == Some(s.nextProducer) && s'.owner == s.owner[t := Some(s.nextProducer)]
         && s'.nextProducer == s.nextProducer + 1 && s'.count == s.count + 1
         && GrownOnce(s, s'.tables) && s'.home[t] == Some(|s'.tables| - 1)
  }

  lemma Begins(s: State, t: nat)
    requires Inv(s) && t < |s.threads| && s.threads[t].pc == Idle
    ensures var s2 := Step(Step(s, t), t);
      && Inv(s2) && Alone(s, t, 2) == s2 && s2 == s.(threads := s2.threads) && |s2.threads| == |s.threads|
      && s2.threads == s.threads[t := s2.threads[t]]
      && s2.threads[t].pc == Probe && s2.threads[t].main + 1 == |s.tables|
      && |Step(s, t).threads| == |s.threads| && Step(s, t).threads[t].pc == LoadMain
  {
    CanGoOn(s, t);
    StepKeeps(s, t);
    CanGoOn(Step(s, t), t);
    StepKeeps(Step(s, t), t);
    First(s, t);
    hide Inv;
  }

  lemma SameGrowth(s: State, s2: State, tables: seq<Table>)
    requires |s.tables| > 0 && s2.tables == s.tables && s2.count == s.count
    ensures GrownOnce(s, tables) == GrownOnce(s2, tables)
  {
  }

  lemma FoundCalls(s: State, s2: State, s3: State, s': State, t: nat)
    requires t < |s.threads| && |s.home| == |s.owner| == |s.threads| && |s.tables| > 0 && s.lock == None
    requires s2 == s.(threads := s2.threads) && |s2.threads| == |s.threads| && s2.threads == s.threads[t := s2.threads[t]]
    requires Searched(s2, s3, t) && s.home[t].Some?
    requires if s3.threads[t].pc == Idle then s' == s3
             else Stored(s3, s', t) && |s'.home| == |s.home| && s3.threads[t].value == s.owner[t]
    ensures Called(s, s', t)
  {
    hide Inv;
  }

  lemma NewCalls(s: State, s2: State, s3: State, s4: State, s': State, t: nat)
    requires t < |s.threads| && |s.home| == |s.owner| == |s.threads| && |s.tables| > 0 && s.home[t] == None
    requires s2 == s.(threads := s2.threads) && |s2.threads| == |s.threads| && s2.threads == s.threads[t := s2.threads[t]]
    requires Searched(s2, s3, t) && RegisteredSafely(s3, s4, t) && Stored(s4, s', t) && |s'.home| == |s.home|
    ensures Called(s, s', t)
  {
    hide Inv;
    SameGrowth(s, s3, s4.tables);
    SameSizes(s, s4.tables, s'.tables);
    hide GrownOnce;
  }

  lemma SameSizes(s: State, tables: seq<Table>, tables': seq<Table>)
    requires |s.tables| > 0 && |tables'| == |tables| && forall g :: 0 <= g < |tables| ==> tables'[g].capacity == tables[g].capacity
    ensures GrownOnce(s, tables) ==> GrownOnce(s, tables')
  {
  }

  lemma HomesKept(s: State)
    requires Inv(s)
    ensures |s.home| == |s.owner| == |s.threads|
  {
  }

  /** A whole call with the resize lock free and no other thread moving. */
  lemma LoneCall(s: State, t: nat) returns (n: nat)
    requires Inv(s) && t < |s.threads| && s.threads[t].pc == Idle && s.lock == None
    ensures |s.home| == |s.owner| == |s.threads| && |s.tables| > 0
    ensures n > 0 && Called(s, Execute(s, Turns(t, n)), t)
    ensures BusyUntil(Step(s, t), t, n - 1)
  {
    hide Inv, Step, Alone, BusyUntil, CanStep, Searched, Stored, Registered, Called, Execute;
    CanGoOn(s, t);
    Begins(s, t);
    var s2 := Step(Step(s, t), t);
    var m := Searches(s2, t);
    var s3 := Alone(s2, t, m);
    SearchFacts(s, s2, s3, t);
    var k := 0;
    if s3.threads[t].pc == DrawCount {
      var r := Registers(s3, t);
      var s4 := Alone(s3, t, r);
      SlotFacts(s3, s4, t);
      var w := Stores(s4, t);
      BusyOn(s3, t, r, w);
      k := r + w;
      StoredFacts(s4, Alone(s4, t, w), t);
      NewCalls(s, s2, s3, s4, Alone(s3, t, k), t);
    } else if s3.threads[t].pc == Reinsert {
      SearchBounded(s3, t);
      var w := Stores(s3, t);
      k := w;
      StoredFacts(s3, Alone(s3, t, w), t);
      FoundCalls(s, s2, s3, Alone(s3, t, k), t);
    } else {
      BusyNot(s3, t);
      FoundCalls(s, s2, s3, s3, t);
    }
    BusyOn(s2, t, m, k);
    n := 2 + (m + k);
    AloneAdds(s, t, 2, m + k);
    AloneIsASchedule(s, t, n);
    BusyFrom(s, t, m + k);
  }

  lemma BusyFrom(s: State, t: nat, n: nat)
    requires t < |Step(s, t).threads| && Step(s, t).threads[t].pc != Idle && BusyUntil(Step(Step(s, t), t), t, n)
    ensures BusyUntil(Step(s, t), t, 1 + n)
  {
    hide Step, Alone, BusyUntil;
    BusyOnce(Step(s, t), t);
    BusyOn(Step(s, t), t, 1, n);
  }

  lemma SearchFacts(s: State, s2: State, s3: State, t: nat)
    requires Inv(s) && t < |s.threads| && s2 == s.(threads := s2.threads) && |s2.threads| == |s.threads| && Searched(s2, s3, t)
    ensures Inv(s3) && t < |s3.threads| == |s.threads| && s3.lock == s.lock && s3.threads[t].main == s2.threads[t].main
    ensures |s3.tables| == |s.tables| && s3.owner == s.owner && |s.home| == |s.threads| && s3.home == s.home
    ensures s3.threads[t].pc in {DrawCount, Reinsert, Idle}
    ensures s3.threads[t].pc == DrawCount ==> s.home[t] == None
    ensures s3.threads[t].pc != DrawCount ==> s.home[t].Some?
  {
    HomesKept(s);
    hide Inv;
  }

  lemma SlotFacts(s3: State, s4: State, t: nat)
    requires t < |s3.threads| && RegisteredSafely(s3, s4, t)
    ensures Inv(s4) && t < |s4.threads| == |s3.threads| && s4.threads[t].pc == Insert
  {
  }

  lemma StoredFacts(s: State, s': State, t: nat)
    requires t < |s.threads| && Stored(s, s', t)
    ensures |s'.home| == |s.threads|
  {
    HomesKept(s');
    hide Inv;
  }

  // What the count counts.

  function Drawn(l: Local): int {
    if l.newCount > 0 then 1 else 0
  }

  /** The count is the number of threads that have drawn from it, and of those that are not busy with it each has
      its place in a table. */
  ghost predicate Counted(s: State) {
    && |s.home| == |s.threads|
    && s.count == Sum(s.threads, Drawn)
    && forall t :: 0 <= t < |s.threads| ==> PlaceFor(s.threads[t], s.home[t])
  }

  predicate PlaceFor(l: Local, home: Option<nat>) {
    l.newCount > 0 ==> ProducerHash.Registering(l.pc) || home.Some?
  }

  /** One step of thread t, as far as the count goes. */
  ghost predicate Counts(s: State, s': State, t: nat)
    requires t < |s.threads| && t < |s.home|
  {
    && |s'.threads| == |s.threads| && s'.threads == s.threads[t := s'.threads[t]]
    && |s'.home| == |s.home| && s'.home == s.home[t := s'.home[t]]
    && s'.count - s.count == Drawn(s'.threads[t]) - Drawn(s.threads[t])
    && PlaceFor(s'.threads[t], s'.home[t])
  }

  lemma StepCounts(s: State, t: nat)
    requires t < |s.threads| && CanStep(s, t) && |s.home| == |s.threads| && PlaceFor(s.threads[t], s.home[t])
    requires s.threads[t].pc == DrawCount ==> s.home[t] == None
    ensures Counts(s, Step(s, t), t)
  {
    hide Mod, Grown;
  }

  lemma StaysCounted(s: State, t: nat)
    requires Inv(s) && Counted(s)
    ensures Counted(Step(s, t))
  {
    if t < |s.threads| {
      CanGoOn(s, t);
      SearchBounded(s, t);
      hide Inv, Step, CanStep;
      StepCounts(s, t);
      SumUpdate(s.threads, Drawn, t, Step(s, t).threads[t]);
    }
  }

  lemma {:induction false} NoneDrawn(ls: seq<Local>)
    requires forall t :: 0 <= t < |ls| ==> ls[t].newCount == 0
    ensures Sum(ls, Drawn) == 0
  {
    if ls != [] {
      NoneDrawn(ls[..|ls| - 1]);
    }
  }

  lemma {:induction false} RunCounted(hashes: seq<nat>, capacity: nat, schedule: seq<nat>)
    requires capacity > 0 && IsPowerOfTwo(capacity)
    ensures Counted(Execute(Init(hashes, capacity), schedule))
  {
    hide Inv, Step, Counted;
    if schedule == [] {
      StartCounted(hashes, capacity);
    } else {
      var before := schedule[..|schedule| - 1];
      RunCounted(hashes, capacity, before);
      EveryRun(hashes, capacity, before);
      StaysCounted(Execute(Init(hashes, capacity), before), schedule[|before|]);
    }
  }

  lemma StartCounted(hashes: seq<nat>, capacity: nat)
    requires capacity > 0
    ensures Counted(Init(hashes, capacity))
  {
    NoneDrawn(Init(hashes, capacity).threads);
  }

  function Placed(home: Option<nat>): int {
    if home.Some? then 1 else 0
  }

  lemma {:induction false} SameSums(ls: seq<Local>, homes: seq<Option<nat>>)
    requires |ls| == |homes| && forall t :: 0 <= t < |ls| ==> (ls[t].newCount > 0 <==> homes[t].Some?)
    ensures Sum(ls, Drawn) == Sum(homes, Placed)
  {
    if ls != [] {
      SameSums(ls[..|ls| - 1], homes[..|ls| - 1]);
    }
  }

  /** Between calls the common count is the number of threads that have a producer. */
  lemma CountIsThreads(hashes: seq<nat>, capacity: nat, schedule: seq<nat>)
    requires capacity > 0 && IsPowerOfTwo(capacity)
    ensures var s := Execute(Init(hashes, capacity), schedule);
      (forall t :: 0 <= t < |s.threads| ==> s.threads[t].pc == Idle) ==> s.count == Sum(s.home, Placed)
  {
    RunCounted(hashes, capacity, schedule);
    EveryRun(hashes, capacity, schedule);
    var s := Execute(Init(hashes, capacity), schedule);
    HomesKept(s);
    hide Execute, Init;
    if forall t :: 0 <= t < |s.threads| ==> s.threads[t].pc == Idle {
      forall t | 0 <= t < |s.threads| ensures s.threads[t].newCount > 0 <==> s.home[t].Some? {
        assert ThreadOk(s, t);
        assert PlaceFor(s.threads[t], s.home[t]);
      }
      SameSums(s.threads, s.home);
    }
  }
}
