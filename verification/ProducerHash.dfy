/** The hash from thread ids to implicit producers: linear probing in a chain of tables that grows without
    moving entries. Slot reuse at thread exit is compiled out and allocations succeed.

    Each step is one access to shared memory. Thread t's id is t itself and its hash is arbitrary.
    History, which no step branches on: `at` (how far from its hash a thread's slot is in a table),
    `owner` (the producer made for a thread) and `home` (a table that has the thread). */
module ProducerHash {
  import opened Options
  import opened BlockArithmetic

  datatype Table = Table(capacity: nat, keys: seq<Option<nat>>, values: seq<Option<nat>>, at: map<nat, nat>)

  datatype Pc =
    | Idle
    | LoadMain
    | Probe
    | Reinsert
    | WriteBack
    | DrawCount
    | TryLock
    | ReloadMain
    | PublishTable
    | Unlock
    | CheckAdd
    | Create
    | Insert
    | WriteValue

  /** `main` is the table loaded last, `h` the one being searched and `d` the number of slots probed. */
  datatype Local = Local(
    pc: Pc, hash: nat, main: nat, h: nat, d: nat, newCount: nat, value: Option<nat>, result: Option<nat>)

  datatype State = State(
    tables: seq<Table>, count: nat, lock: Option<nat>, nextProducer: nat, threads: seq<Local>,
    owner: seq<Option<nat>>, home: seq<Option<nat>>)

  function EmptyTable(capacity: nat): Table {
    Table(capacity, seq(capacity, _ => None), seq(capacity, _ => None), map[])
  }

  /** Any hash for each thread; the initial table has any power of two of slots. */
  function Init(hashes: seq<nat>, capacity: nat): State {
    State([EmptyTable(capacity)], 0, None, 0,
      seq(|hashes|, t requires 0 <= t < |hashes| => Local(Idle, hashes[t], 0, 0, 0, 0, None, None)),
      seq(|hashes|, _ => None), seq(|hashes|, _ => None))
  }

  function With(s: State, t: nat, l: Local): State
    requires t < |s.threads|
  {
    s.(threads := s.threads[t := l])
  }

  function SlotOf(l: Local, table: Table): nat
    requires table.capacity > 0
  {
    Mod(l.hash + l.d, table.capacity)
  }

  /** A thread may be added while the table is less than three quarters full. */
  function Limit(capacity: nat): nat {
    capacity / 2 + capacity / 4
  }

  function Last(s: State): nat {
    if |s.tables| > 0 then |s.tables| - 1 else 0
  }

  /** Doubling until the count is below half. */
  function Grown(capacity: nat, newCount: nat): (c: nat)
    requires capacity > 0
    ensures c >= capacity && newCount < c / 2 && (c == capacity || newCount >= c / 4)
    decreases if newCount >= capacity / 2 then newCount + 1 - capacity / 2 else 0
  {
    if newCount >= capacity / 2 then
      if capacity == 1 then Grown(2, newCount) else Grown(2 * capacity, newCount)
    else capacity
  }

  predicate CanStep(s: State, t: nat)
    requires t < |s.threads|
  {
    var l := s.threads[t];
    && |s.owner| == |s.home| == |s.threads|
    && match l.pc
       case Idle => true
       case LoadMain => true
       case Probe => l.h < |s.tables| && TableShape(s.tables[l.h])
       case _ => l.main < |s.tables| && TableShape(s.tables[l.main])
  }

  predicate TableShape(table: Table) {
    table.capacity > 0 && |table.keys| == |table.values| == table.capacity
  }

  /** compare_exchange_strong(empty, id) on the slot the thread is at. */
  function CasSlot(s: State, t: nat, found: Local): State
    requires t < |s.threads| && s.threads[t].main < |s.tables| && TableShape(s.tables[s.threads[t].main])
    requires |s.home| == |s.threads|
  {
    var l := s.threads[t];
    var table := s.tables[l.main];
    if table.keys[SlotOf(l, table)] == None then
      With(s, t, found).(
        tables := s.tables[l.main := table.(keys := table.keys[SlotOf(l, table) := Some(t)], at := table.at[t := l.d])],
        home := s.home[t := Some(l.main)])
    else With(s, t, l.(d := l.d + 1))
  }

  function StoreValue(s: State, t: nat, done: Local): State
    requires t < |s.threads| && s.threads[t].main < |s.tables| && TableShape(s.tables[s.threads[t].main])
  {
    var l := s.threads[t];
    var table := s.tables[l.main];
    With(s, t, done).(tables := s.tables[l.main := table.(values := table.values[SlotOf(l, table) := l.value])])
  }

  function StepThread(s: State, t: nat): State
    requires t < |s.threads| && CanStep(s, t)
  {
    var l := s.threads[t];
    match l.pc
    case Idle => With(s, t, l.(pc := LoadMain))
    case LoadMain => With(s, t, l.(pc := Probe, main := Last(s), h := Last(s), d := 0))
    case Probe =>
      var table := s.tables[l.h];
      var probed := table.keys[SlotOf(l, table)];
      if probed == Some(t) then
        var value := table.values[SlotOf(l, table)];
        if l.h != l.main then With(s, t, l.(pc := Reinsert, d := 0, value := value))
        else With(s, t, l.(pc := Idle, value := value, result := value))
      else if probed == None then
        if l.h == 0 then With(s, t, l.(pc := DrawCount)) else With(s, t, l.(h := l.h - 1, d := 0))
      else With(s, t, l.(d := l.d + 1))
    case Reinsert => CasSlot(s, t, l.(pc := WriteBack))
    case WriteBack => StoreValue(s, t, l.(pc := Idle, result := l.value))
    case DrawCount => With(s, t, l.(pc := TryLock, newCount := 1 + s.count)).(count := s.count + 1)
    case TryLock =>
      if l.newCount >= s.tables[l.main].capacity / 2 && s.lock == None then
        With(s, t, l.(pc := ReloadMain)).(lock := Some(t))
      else With(s, t, l.(pc := CheckAdd))
    case ReloadMain =>
      With(s, t,
        l.(pc := if Last(s) < |s.tables| && l.newCount >= s.tables[Last(s)].capacity / 2 then PublishTable else Unlock, main := Last(s)))
    case PublishTable =>
      With(s, t, l.(pc := Unlock, main := |s.tables|))
        .(tables := s.tables + [EmptyTable(Grown(2 * s.tables[l.main].capacity, l.newCount))])
    case Unlock => With(s, t, l.(pc := CheckAdd)).(lock := None)
    case CheckAdd =>
      if l.newCount < Limit(s.tables[l.main].capacity) then With(s, t, l.(pc := Create))
      else With(s, t, l.(pc := TryLock, main := Last(s)))
    case Create =>
      With(s, t, l.(pc := Insert, d := 0, value := Some(s.nextProducer)))
        .(nextProducer := s.nextProducer + 1, owner := s.owner[t := Some(s.nextProducer)])
    case Insert => CasSlot(s, t, l.(pc := WriteValue))
    case WriteValue => StoreValue(s, t, l.(pc := Idle, result := l.value))
  }

  function Step(s: State, t: nat): State {
    if t < |s.threads| && CanStep(s, t) then StepThread(s, t) else s
  }

  /** A schedule says whose turn it is. */
  function Execute(s: State, schedule: seq<nat>): State {
    if schedule == [] then s
    else Step(Execute(s, schedule[..|schedule| - 1]), schedule[|schedule| - 1])
  }

  // The invariant.

  predicate Registering(pc: Pc) {
    pc in {TryLock, ReloadMain, PublishTable, Unlock, CheckAdd, Create, Insert}
  }

  /** Slots passed over so far, all taken by other threads. */
  ghost predicate PassedOver(table: Table, hash: nat, t: nat, d: nat) {
    && TableShape(table)
    && forall e {:trigger Taken(table, hash, t, e)} :: 0 <= e < d ==> Taken(table, hash, t, e)
  }

  ghost predicate Taken(table: Table, hash: nat, t: nat, e: nat) {
    && TableShape(table)
    && table.keys[Mod(hash + e, table.capacity)].Some? && table.keys[Mod(hash + e, table.capacity)] != Some(t)
  }

  /** Thread u's entry in table g: where it is, what lies on the way, and why there was room for it. */
  ghost predicate EntryOk(table: Table, g: nat, threads: seq<Local>, owner: seq<Option<nat>>, u: nat) {
    && TableShape(table)
    && u < |threads| && u < |owner| && u in table.at
    && var l, slot := threads[u], Mod(threads[u].hash + table.at[u], table.capacity);
    && table.keys[slot] == Some(u)
    && PassedOver(table, l.hash, u, table.at[u])
    && 0 < l.newCount < Limit(table.capacity)
    && owner[u].Some?
    && (Writing(l, g) || table.values[slot] == owner[u])
  }

  predicate Writing(l: Local, g: nat) {
    l.pc in {WriteBack, WriteValue} && l.main == g
  }

  /** Slot k, if taken, is the slot of its thread's entry. */
  ghost predicate SlotOk(table: Table, threads: seq<Local>, k: nat) {
    TableShape(table) && k < table.capacity && table.keys[k].Some? ==>
      var u := table.keys[k].value;
      u in table.at && u < |threads| && k == Mod(threads[u].hash + table.at[u], table.capacity)
  }

  ghost predicate TableOk(table: Table, g: nat, threads: seq<Local>, owner: seq<Option<nat>>) {
    && TableShape(table) && IsPowerOfTwo(table.capacity)
    && (forall u {:trigger EntryOk(table, g, threads, owner, u)} :: u in table.at ==> EntryOk(table, g, threads, owner, u))
    && (forall k {:trigger SlotOk(table, threads, k)} :: 0 <= k < table.capacity ==> SlotOk(table, threads, k))
  }

  ghost predicate TablesOk(tables: seq<Table>, threads: seq<Local>, owner: seq<Option<nat>>) {
    forall g {:trigger tables[g]} :: 0 <= g < |tables| ==> TableOk(tables[g], g, threads, owner)
  }

  ghost predicate Increasing(tables: seq<Table>) {
    forall f, g :: 0 <= f < g < |tables| ==> tables[f].capacity < tables[g].capacity
  }

  ghost predicate Absent(s: State, t: nat, from: int, to: int) {
    forall g :: from <= g < to && 0 <= g < |s.tables| ==> t !in s.tables[g].at
  }

  ghost predicate ThreadOk(s: State, t: nat)
    requires t < |s.threads| && |s.owner| == |s.home| == |s.threads|
  {
    var l := s.threads[t];
    && (s.home[t].Some? ==> s.home[t].value < |s.tables| && t in s.tables[s.home[t].value].at)
    && (l.pc !in {Create, Insert} ==> (s.owner[t].Some? <==> s.home[t].Some?))
    && (l.pc !in {Idle, LoadMain} ==> l.main < |s.tables| && Absent(s, t, l.main + 1, |s.tables|))
    && (l.pc == Idle ==> l.result.None? || l.result == s.owner[t])
    && l.newCount <= s.count && (l.newCount > 0 || s.home[t].None?)
    && (l.pc == Probe ==>
          && l.h <= l.main && Absent(s, t, l.h + 1, |s.tables|) && PassedOver(s.tables[l.h], l.hash, t, l.d))
    && (l.pc == Reinsert ==>
          && l.h < l.main && t in s.tables[l.h].at && t !in s.tables[l.main].at
          && l.value == s.owner[t] && PassedOver(s.tables[l.main], l.hash, t, l.d))
    && (l.pc in {WriteBack, WriteValue} ==>
          && t in s.tables[l.main].at && s.tables[l.main].at[t] == l.d && l.value == s.owner[t])
    && (l.pc == DrawCount || Registering(l.pc) ==> s.home[t].None? && Absent(s, t, 0, |s.tables|))
    && (Registering(l.pc) ==> l.newCount > 0)
    && (l.pc in {Create, Insert} ==> l.newCount < Limit(s.tables[l.main].capacity))
    && (l.pc == Create ==> s.owner[t].None?)
    && (l.pc == Insert ==> s.owner[t].Some? && l.value == s.owner[t] && PassedOver(s.tables[l.main], l.hash, t, l.d))
    && (l.pc in {ReloadMain, PublishTable, Unlock} ==> s.lock == Some(t))
    && (l.pc == PublishTable ==> l.main == Last(s))
  }

  /** Producers belong to one thread each, and so do the values drawn from the common count. */
  ghost predicate Distinct(s: State) {
    && (forall t :: 0 <= t < |s.owner| && s.owner[t].Some? ==> s.owner[t].value < s.nextProducer)
    && (forall t, u :: 0 <= t < u < |s.owner| && s.owner[t].Some? && s.owner[u].Some? ==> s.owner[t] != s.owner[u])
    && (forall t, u :: 0 <= t < u < |s.threads| && s.threads[t].newCount > 0 && s.threads[u].newCount > 0 ==>
          s.threads[t].newCount != s.threads[u].newCount)
  }

  ghost predicate ThreadsOk(s: State)
    requires |s.owner| == |s.home| == |s.threads|
  {
    forall t {:trigger ThreadOk(s, t)} :: 0 <= t < |s.threads| ==> ThreadOk(s, t)
  }

  ghost predicate Inv(s: State) {
    && |s.tables| > 0 && |s.owner| == |s.home| == |s.threads|
    && Increasing(s.tables)
    && TablesOk(s.tables, s.threads, s.owner)
    && ThreadsOk(s)
    && Distinct(s)
  }

  lemma InitInv(hashes: seq<nat>, capacity: nat)
    requires capacity > 0 && IsPowerOfTwo(capacity)
    ensures Inv(Init(hashes, capacity))
  {
  }

  // Steps that change no table and no owner.

  lemma LocalKeepsTable(table: Table, g: nat, threads: seq<Local>, owner: seq<Option<nat>>, t: nat, l: Local)
    requires TableOk(table, g, threads, owner)
    requires t < |threads| && l.hash == threads[t].hash && !Writing(threads[t], g)
    requires l.newCount == threads[t].newCount || t !in table.at
    ensures TableOk(table, g, threads[t := l], owner)
  {
    var after := threads[t := l];
    forall u | u in table.at ensures EntryOk(table, g, after, owner, u) {
      assert EntryOk(table, g, threads, owner, u);
    }
    forall k | 0 <= k < table.capacity ensures SlotOk(table, after, k) {
      assert SlotOk(table, threads, k);
    }
  }

  /** What a step may do besides changing thread t: take or release the lock and draw a count. */
  ghost predicate OnlyLocal(s: State, t: nat, s': State)
    requires t < |s.threads|
  {
    && |s'.threads| == |s.threads| && s' == s.(threads := s.threads[t := s'.threads[t]], count := s'.count, lock := s'.lock)
    && s'.count >= s.count
    && (s'.lock == s.lock || s.lock == None || s.lock == Some(t))
    && var l, l' := s.threads[t], s'.threads[t];
    && l'.hash == l.hash
    && l.pc !in {WriteBack, WriteValue}
    && ((l'.newCount == l.newCount) || (l'.newCount == s.count + 1 <= s'.count && Absent(s, t, 0, |s.tables|)))
  }

  lemma LocalStep(s: State, t: nat, s': State)
    requires Inv(s)
    requires t < |s.threads| && OnlyLocal(s, t, s') && ThreadOk(s', t)
    ensures Inv(s')
  {
    forall g | 0 <= g < |s'.tables| ensures TableOk(s'.tables[g], g, s'.threads, s'.owner) {
      assert TableOk(s.tables[g], g, s.threads, s.owner);
      LocalKeepsTable(s.tables[g], g, s.threads, s.owner, t, s'.threads[t]);
    }
    hide TableOk, TableShape, PassedOver;
    forall u | 0 <= u < |s'.threads| ensures ThreadOk(s', u) {
      assert ThreadOk(s, u);
    }
    assert forall u :: 0 <= u < |s.threads| ==> ThreadOk(s, u) && s.threads[u].newCount <= s.count;
  }

  lemma FoundOwn(table: Table, g: nat, threads: seq<Local>, owner: seq<Option<nat>>, t: nat, slot: nat)
    requires TableOk(table, g, threads, owner)
    requires t < |threads| && slot < table.capacity && table.keys[slot] == Some(t)
    ensures t in table.at && slot == Mod(threads[t].hash + table.at[t], table.capacity)
    ensures EntryOk(table, g, threads, owner, t)
  {
    assert SlotOk(table, threads, slot);
  }

  lemma Passed(table: Table, hash: nat, t: nat, d: nat, e: nat)
    requires PassedOver(table, hash, t, d) && e < d
    ensures Taken(table, hash, t, e)
  {
  }

  /** Reaching an empty slot proves that the thread has no entry in the table. */
  lemma NotHere(table: Table, g: nat, threads: seq<Local>, owner: seq<Option<nat>>, t: nat, d: nat)
    requires TableOk(table, g, threads, owner)
    requires t < |threads| && PassedOver(table, threads[t].hash, t, d)
    requires table.keys[Mod(threads[t].hash + d, table.capacity)] == None
    ensures t !in table.at
  {
    if t in table.at {
      var e := table.at[t];
      var found := EntryOk(table, g, threads, owner, t);
      if e < d {
        Passed(table, threads[t].hash, t, d, e);
      } else if found && d < e {
        Passed(table, threads[t].hash, t, e, d);
      }
    }
  }

  /** What every state gives the thread that moves. */
  ghost predicate Ready(s: State, t: nat) {
    && |s.tables| > 0 && |s.owner| == |s.home| == |s.threads| && t < |s.threads|
    && (forall g {:trigger s.tables[g]} :: 0 <= g < |s.tables| ==> TableShape(s.tables[g]))
    && ThreadOk(s, t)
  }

  lemma InvReady(s: State, t: nat)
    requires Inv(s) && t < |s.threads|
    ensures Ready(s, t) && CanStep(s, t)
  {
    assert ThreadOk(s, t);
    assert forall g {:trigger s.tables[g]} :: 0 <= g < |s.tables| ==> TableOk(s.tables[g], g, s.threads, s.owner);
  }

  lemma Starts(s: State, t: nat)
    requires Ready(s, t) && CanStep(s, t)
    requires s.threads[t].pc in {Idle, LoadMain, DrawCount}
    ensures OnlyLocal(s, t, StepThread(s, t)) && ThreadOk(StepThread(s, t), t)
  {
    hide Mod, Grown, CasSlot, StoreValue;
  }

  lemma Locks(s: State, t: nat)
    requires Ready(s, t) && CanStep(s, t)
    requires s.threads[t].pc in {TryLock, ReloadMain, Unlock, CheckAdd}
    ensures OnlyLocal(s, t, StepThread(s, t)) && ThreadOk(StepThread(s, t), t)
  {
    hide Mod, Grown, CasSlot, StoreValue;
  }

  lemma ProbedOwn(s: State, t: nat)
    requires Ready(s, t) && CanStep(s, t) && s.threads[t].pc == Probe
    requires var l := s.threads[t]; var table := s.tables[l.h];
      table.keys[SlotOf(l, table)] == Some(t) && t in table.at && table.values[SlotOf(l, table)] == s.owner[t]
    ensures OnlyLocal(s, t, StepThread(s, t)) && ThreadOk(StepThread(s, t), t)
  {
  }

  lemma ProbedEmpty(s: State, t: nat)
    requires Ready(s, t) && CanStep(s, t) && s.threads[t].pc == Probe
    requires var l := s.threads[t]; var table := s.tables[l.h];
      table.keys[SlotOf(l, table)] == None && t !in table.at
    ensures OnlyLocal(s, t, StepThread(s, t)) && ThreadOk(StepThread(s, t), t)
  {
    var l := s.threads[t];
    assert StepThread(s, t) == With(s, t, if l.h == 0 then l.(pc := DrawCount) else l.(h := l.h - 1, d := 0));
    hide StepThread, Mod, Limit;
    assert Absent(s, t, l.h, |s.tables|);
  }

  lemma ProbedOther(s: State, t: nat)
    requires Ready(s, t) && CanStep(s, t) && s.threads[t].pc == Probe
    requires var l := s.threads[t]; Taken(s.tables[l.h], l.hash, t, l.d)
    ensures OnlyLocal(s, t, StepThread(s, t)) && ThreadOk(StepThread(s, t), t)
  {
  }

  lemma Probed(s: State, t: nat)
    requires Ready(s, t) && CanStep(s, t) && s.threads[t].pc == Probe
    requires TableOk(s.tables[s.threads[t].h], s.threads[t].h, s.threads, s.owner)
    ensures OnlyLocal(s, t, StepThread(s, t)) && ThreadOk(StepThread(s, t), t)
  {
    var l := s.threads[t];
    var table := s.tables[l.h];
    var probed := table.keys[SlotOf(l, table)];
    if probed == Some(t) {
      FoundOwn(table, l.h, s.threads, s.owner, t, SlotOf(l, table));
      ProbedOwn(s, t);
    } else if probed == None {
      NotHere(table, l.h, s.threads, s.owner, t, l.d);
      ProbedEmpty(s, t);
    } else {
      ProbedOther(s, t);
    }
  }

  // compare_exchange on a slot.

  lemma CasFails(s: State, t: nat)
    requires Ready(s, t) && CanStep(s, t)
    requires s.threads[t].pc in {Reinsert, Insert}
    requires TableOk(s.tables[s.threads[t].main], s.threads[t].main, s.threads, s.owner)
    requires var l := s.threads[t]; s.tables[l.main].keys[SlotOf(l, s.tables[l.main])] != None
    ensures OnlyLocal(s, t, StepThread(s, t)) && ThreadOk(StepThread(s, t), t)
  {
    hide StepThread, Limit, TableOk, PassedOver;
    CasMisses(s, t);
    PassesOne(s.tables[s.threads[t].main], s.threads[t].main, s.threads, s.owner, t, s.threads[t]);
  }

  /** A taken slot is another thread's. */
  lemma PassesOne(table: Table, g: nat, threads: seq<Local>, owner: seq<Option<nat>>, t: nat, l: Local)
    requires TableOk(table, g, threads, owner) && t !in table.at
    requires PassedOver(table, l.hash, t, l.d) && table.keys[SlotOf(l, table)] != None
    ensures PassedOver(table, l.hash, t, l.d + 1)
  {
    assert SlotOk(table, threads, SlotOf(l, table));
    assert Taken(table, l.hash, t, l.d);
  }

  lemma CasMisses(s: State, t: nat)
    requires t < |s.threads| && CanStep(s, t) && s.threads[t].pc in {Reinsert, Insert}
    requires var l := s.threads[t]; s.tables[l.main].keys[SlotOf(l, s.tables[l.main])] != None
    ensures StepThread(s, t) == With(s, t, s.threads[t].(d := s.threads[t].d + 1))
  {
  }

  function Claimed(table: Table, t: nat, hash: nat, d: nat): Table
    requires TableShape(table)
  {
    table.(keys := table.keys[Mod(hash + d, table.capacity) := Some(t)], at := table.at[t := d])
  }

  /** Taking a free slot moves no other entry and opens no gap. */
  lemma StillPassed(table: Table, t: nat, hash: nat, d: nat, u: nat, uHash: nat, e: nat)
    requires PassedOver(table, uHash, u, e)
    requires TableShape(table) && table.keys[Mod(hash + d, table.capacity)] == None
    ensures PassedOver(Claimed(table, t, hash, d), uHash, u, e)
  {
    forall i | 0 <= i < e ensures Taken(Claimed(table, t, hash, d), uHash, u, i) {
      assert Taken(table, uHash, u, i);
    }
  }

  lemma ClaimKeepsTable(table: Table, g: nat, threads: seq<Local>, owner: seq<Option<nat>>, t: nat, l: Local)
    requires TableOk(table, g, threads, owner)
    requires t < |threads| && t < |owner| && owner[t].Some? && 0 < l.newCount < Limit(table.capacity)
    requires t !in table.at && PassedOver(table, threads[t].hash, t, l.d)
    requires table.keys[Mod(threads[t].hash + l.d, table.capacity)] == None
    requires l.hash == threads[t].hash && Writing(l, g)
    ensures TableOk(Claimed(table, t, l.hash, l.d), g, threads[t := l], owner)
  {
    var after, claimed := threads[t := l], Claimed(table, t, l.hash, l.d);
    forall u | u in claimed.at ensures EntryOk(claimed, g, after, owner, u) {
      StillPassed(table, t, l.hash, l.d, u, after[if u == t || u >= |after| then t else u].hash, if u == t then l.d else 0);
      if u != t {
        assert EntryOk(table, g, threads, owner, u);
        StillPassed(table, t, l.hash, l.d, u, threads[u].hash, table.at[u]);
      }
    }
    forall k | 0 <= k < claimed.capacity ensures SlotOk(claimed, after, k) {
      assert SlotOk(table, threads, k);
    }
  }

  /** Another thread's view of a table that a step changes. */
  ghost predicate SameTable(table: Table, table': Table, u: nat) {
    && TableShape(table) && TableShape(table') && table'.capacity == table.capacity
    && (u in table.at <==> u in table'.at)
    && (u in table.at ==> table'.at[u] == table.at[u])
    && (forall hash, e :: PassedOver(table, hash, u, e) ==> PassedOver(table', hash, u, e))
  }

  ghost predicate SameTables(tables: seq<Table>, tables': seq<Table>, u: nat) {
    && |tables| <= |tables'|
    && (forall g {:trigger tables[g]} {:trigger tables'[g]} :: 0 <= g < |tables| ==> SameTable(tables[g], tables'[g], u))
    && (forall g {:trigger tables'[g]} :: |tables| <= g < |tables'| ==> u !in tables'[g].at)
  }

  lemma OtherThread(s: State, s': State, u: nat)
    requires Ready(s, u)
    requires |s'.owner| == |s'.home| == |s'.threads| == |s.threads|
    requires s'.threads[u] == s.threads[u] && s'.owner[u] == s.owner[u] && s'.home[u] == s.home[u]
    requires s'.count == s.count && s'.lock == s.lock
    requires SameTables(s.tables, s'.tables, u)
    requires s.threads[u].pc == PublishTable ==> |s'.tables| == |s.tables|
    ensures ThreadOk(s', u)
  {
  }

  lemma ClaimIsSame(table: Table, t: nat, hash: nat, d: nat, u: nat)
    requires TableShape(table) && table.keys[Mod(hash + d, table.capacity)] == None && u != t
    ensures SameTable(table, Claimed(table, t, hash, d), u)
  {
    forall uHash, e | PassedOver(table, uHash, u, e) ensures PassedOver(Claimed(table, t, hash, d), uHash, u, e) {
      StillPassed(table, t, hash, d, u, uHash, e);
    }
  }

  lemma CasSucceeds(s: State, t: nat)
    requires Inv(s)
    requires t < |s.threads| && s.threads[t].pc in {Reinsert, Insert} && CanStep(s, t)
    requires var l := s.threads[t]; s.tables[l.main].keys[SlotOf(l, s.tables[l.main])] == None
    ensures Inv(StepThread(s, t))
  {
    InvReady(s, t);
    var l, s' := s.threads[t], StepThread(s, t);
    var table := s.tables[l.main];
    Admitted(s, t);
    CasSucceedsTables(s, t);
    CasSucceedsOthers(s, t);
    Claims(s, t);
  }

  /** What a successful exchange changes. */
  lemma CasTakes(s: State, t: nat)
    requires t < |s.threads| && CanStep(s, t) && s.threads[t].pc in {Reinsert, Insert}
    requires var l := s.threads[t]; s.tables[l.main].keys[SlotOf(l, s.tables[l.main])] == None
    ensures var l, s' := s.threads[t], StepThread(s, t);
      && s' == s.(tables := s.tables[l.main := Claimed(s.tables[l.main], t, l.hash, l.d)], home := s.home[t := Some(l.main)],
                  threads := s.threads[t := l.(pc := if l.pc == Reinsert then WriteBack else WriteValue)])
  {
  }

  lemma CasSucceedsTables(s: State, t: nat)
    requires Inv(s)
    requires t < |s.threads| && s.threads[t].pc in {Reinsert, Insert} && CanStep(s, t) && Ready(s, t)
    requires var l := s.threads[t]; s.tables[l.main].keys[SlotOf(l, s.tables[l.main])] == None
    ensures var s' := StepThread(s, t); TablesOk(s'.tables, s'.threads, s'.owner)
  {
    hide StepThread, Claimed, TableOk, Increasing, ThreadsOk, Distinct, Limit;
    Admitted(s, t);
    CasTakes(s, t);
    ClaimKeepsTables(s.tables, s.threads, s.owner, t, StepThread(s, t).threads[t]);
  }

  lemma ClaimKeepsTables(tables: seq<Table>, threads: seq<Local>, owner: seq<Option<nat>>, t: nat, l: Local)
    requires TablesOk(tables, threads, owner) && t < |threads| && t < |owner| && owner[t].Some? && l.main < |tables|
    requires l.main == threads[t].main && l.hash == threads[t].hash && l.newCount == threads[t].newCount
    requires threads[t].pc !in {WriteBack, WriteValue} && l.pc in {WriteBack, WriteValue}
    requires TableShape(tables[l.main]) && 0 < l.newCount < Limit(tables[l.main].capacity)
    requires t !in tables[l.main].at && PassedOver(tables[l.main], l.hash, t, l.d)
    requires tables[l.main].keys[Mod(l.hash + l.d, tables[l.main].capacity)] == None
    ensures TablesOk(tables[l.main := Claimed(tables[l.main], t, l.hash, l.d)], threads[t := l], owner)
  {
    hide TableOk, Claimed, PassedOver, Limit;
    var tables' := tables[l.main := Claimed(tables[l.main], t, l.hash, l.d)];
    forall g | 0 <= g < |tables'| ensures TableOk(tables'[g], g, threads[t := l], owner) {
      assert TableOk(tables[g], g, threads, owner);
      if g == l.main {
        ClaimKeepsTable(tables[g], g, threads, owner, t, l);
      } else {
        LocalKeepsTable(tables[g], g, threads, owner, t, l);
      }
    }
  }

  lemma CasSucceedsOthers(s: State, t: nat)
    requires Inv(s)
    requires t < |s.threads| && s.threads[t].pc in {Reinsert, Insert} && CanStep(s, t) && Ready(s, t)
    requires var l := s.threads[t]; s.tables[l.main].keys[SlotOf(l, s.tables[l.main])] == None
    ensures var s' := StepThread(s, t); |s'.owner| == |s'.home| == |s'.threads| == |s.threads|
    ensures forall u :: 0 <= u < |s.threads| && u != t ==> ThreadOk(StepThread(s, t), u)
  {
    hide StepThread, Inv, ThreadOk, TableOk, SameTable, Claimed, PassedOver;
    CasTakes(s, t);
    var l, s' := s.threads[t], StepThread(s, t);
    forall u | 0 <= u < |s'.threads| && u != t ensures ThreadOk(s', u) {
      InvReady(s, u);
      ClaimIsSame(s.tables[l.main], t, l.hash, l.d, u);
      AllSame(s.tables, u);
      OtherThread(s, s', u);
    }
  }

  lemma AllSame(tables: seq<Table>, u: nat)
    requires forall g {:trigger tables[g]} :: 0 <= g < |tables| ==> TableShape(tables[g])
    ensures forall g {:trigger tables[g]} :: 0 <= g < |tables| ==> SameTable(tables[g], tables[g], u)
  {
  }

  /** There is room for the thread that inserts: its count was drawn before, and later tables are larger. */
  lemma Admitted(s: State, t: nat)
    requires Inv(s)
    requires t < |s.threads| && s.threads[t].pc in {Reinsert, Insert}
    ensures s.threads[t].main < |s.tables| && t !in s.tables[s.threads[t].main].at && s.owner[t].Some?
    ensures 0 < s.threads[t].newCount < Limit(s.tables[s.threads[t].main].capacity)
  {
    assert ThreadOk(s, t);
    var l := s.threads[t];
    if l.pc == Reinsert {
      assert TableOk(s.tables[l.h], l.h, s.threads, s.owner);
      assert EntryOk(s.tables[l.h], l.h, s.threads, s.owner, t);
    }
  }

  lemma Claims(s: State, t: nat)
    requires Ready(s, t) && CanStep(s, t)
    requires s.threads[t].pc in {Reinsert, Insert} && s.owner[t].Some?
    requires var l := s.threads[t]; s.tables[l.main].keys[SlotOf(l, s.tables[l.main])] == None
    ensures ThreadOk(StepThread(s, t), t)
  {
  }

  // Writing the value.

  lemma StoreKeepsTable(table: Table, g: nat, threads: seq<Local>, owner: seq<Option<nat>>, t: nat, l: Local)
    requires TableOk(table, g, threads, owner)
    requires t < |threads| && t < |owner| && t in table.at && l.hash == threads[t].hash && l.newCount == threads[t].newCount
    requires threads[t].d == table.at[t]
    ensures var slot := SlotOf(threads[t], table);
      TableOk(table.(values := table.values[slot := owner[t]]), g, threads[t := l], owner)
  {
    var after, slot := threads[t := l], SlotOf(threads[t], table);
    var table' := table.(values := table.values[slot := owner[t]]);
    assert EntryOk(table, g, threads, owner, t);
    forall u | u in table.at ensures EntryOk(table', g, after, owner, u) {
      assert EntryOk(table, g, threads, owner, u);
      SameKeys(table, table', threads[u].hash, u, table.at[u]);
    }
    forall k | 0 <= k < table.capacity ensures SlotOk(table', after, k) {
      assert SlotOk(table, threads, k);
    }
  }

  lemma SameKeys(table: Table, table': Table, hash: nat, u: nat, e: nat)
    requires TableShape(table') && table'.keys == table.keys && table'.capacity == table.capacity
    requires PassedOver(table, hash, u, e)
    ensures PassedOver(table', hash, u, e)
  {
    forall i | 0 <= i < e ensures Taken(table', hash, u, i) {
      assert Taken(table, hash, u, i);
    }
  }

  lemma StoreStep(s: State, t: nat)
    requires Inv(s)
    requires t < |s.threads| && s.threads[t].pc in {WriteBack, WriteValue}
    ensures CanStep(s, t) && Inv(StepThread(s, t))
  {
    InvReady(s, t);
    StoreTables(s, t);
    StoreOthers(s, t);
    StoreOwn(s, t);
    hide TablesOk, ThreadOk;
  }

  lemma StoreTables(s: State, t: nat)
    requires Inv(s) && Ready(s, t) && CanStep(s, t) && s.threads[t].pc in {WriteBack, WriteValue}
    ensures var s' := StepThread(s, t); TablesOk(s'.tables, s'.threads, s'.owner)
  {
    hide ThreadsOk, Distinct, TableOk;
    var l, s' := s.threads[t], StepThread(s, t);
    forall g | 0 <= g < |s'.tables| ensures TableOk(s'.tables[g], g, s'.threads, s'.owner) {
      assert TableOk(s.tables[g], g, s.threads, s.owner);
      if g == l.main {
        StoreKeepsTable(s.tables[g], g, s.threads, s.owner, t, s'.threads[t]);
      } else {
        LocalKeepsTable(s.tables[g], g, s.threads, s.owner, t, s'.threads[t]);
      }
    }
  }

  lemma StoreOwn(s: State, t: nat)
    requires Ready(s, t) && CanStep(s, t) && s.threads[t].pc in {WriteBack, WriteValue}
    ensures ThreadOk(StepThread(s, t), t)
  {
  }

  lemma StoreOthers(s: State, t: nat)
    requires Inv(s) && Ready(s, t) && CanStep(s, t) && s.threads[t].pc in {WriteBack, WriteValue}
    ensures var s' := StepThread(s, t); |s'.owner| == |s'.home| == |s'.threads| == |s.threads|
    ensures forall u :: 0 <= u < |s.threads| && u != t ==> ThreadOk(StepThread(s, t), u)
  {
    var l, s' := s.threads[t], StepThread(s, t);
    var table := s.tables[l.main];
    forall u | 0 <= u < |s'.threads| && u != t ensures ThreadOk(s', u) {
      hide ThreadOk, Distinct, TableOk;
      InvReady(s, u);
      AllSame(s.tables, u);
      forall uHash, e | PassedOver(table, uHash, u, e) ensures PassedOver(s'.tables[l.main], uHash, u, e) {
        SameKeys(table, s'.tables[l.main], uHash, u, e);
      }
      OtherThread(s, s', u);
    }
  }

  // Publishing a table and creating a producer.

  lemma {:induction false} GrownIsPowerOfTwo(capacity: nat, newCount: nat)
    requires capacity > 0 && IsPowerOfTwo(capacity)
    ensures IsPowerOfTwo(Grown(capacity, newCount))
    decreases if newCount >= capacity / 2 then newCount + 1 - capacity / 2 else 0
  {
    if newCount >= capacity / 2 {
      assert 2 * capacity / 2 == capacity && 2 * capacity % 2 == 0;
      if capacity == 1 {
        assert IsPowerOfTwo(2);
        GrownIsPowerOfTwo(2, newCount);
      } else {
        GrownIsPowerOfTwo(2 * capacity, newCount);
      }
    }
  }

  lemma PublishTables(s: State, t: nat)
    requires Inv(s) && Ready(s, t) && CanStep(s, t) && s.threads[t].pc == PublishTable
    ensures var s' := StepThread(s, t); TablesOk(s'.tables, s'.threads, s'.owner) && Increasing(s'.tables)
  {
    hide ThreadsOk, Distinct, TableOk;
    var l, s' := s.threads[t], StepThread(s, t);
    var table := s.tables[l.main];
    assert TableOk(table, l.main, s.threads, s.owner);
    FreshTable(table, l.main, s.threads, s.owner, l.newCount, |s.tables|, s'.threads);
    forall g | 0 <= g < |s'.tables| ensures TableOk(s'.tables[g], g, s'.threads, s'.owner) {
      if g < |s.tables| {
        assert TableOk(s.tables[g], g, s.threads, s.owner);
        LocalKeepsTable(s.tables[g], g, s.threads, s.owner, t, s'.threads[t]);
      }
    }
  }

  lemma FreshTable(table: Table, g: nat, threads: seq<Local>, owner: seq<Option<nat>>, newCount: nat, h: nat, after: seq<Local>)
    requires TableOk(table, g, threads, owner)
    ensures 2 * table.capacity > table.capacity > 0
    ensures TableOk(EmptyTable(Grown(2 * table.capacity, newCount)), h, after, owner)
  {
    var c := table.capacity;
    assert 2 * c / 2 == c && 2 * c % 2 == 0;
    GrownIsPowerOfTwo(2 * c, newCount);
    hide Grown, IsPowerOfTwo, EntryOk;
  }

  lemma PublishStep(s: State, t: nat)
    requires Inv(s)
    requires t < |s.threads| && s.threads[t].pc == PublishTable
    ensures CanStep(s, t) && Inv(StepThread(s, t))
  {
    InvReady(s, t);
    PublishTables(s, t);
    PublishOthers(s, t);
    hide TableOk, TablesOk;
  }

  lemma PublishOthers(s: State, t: nat)
    requires Inv(s)
    requires t < |s.threads| && s.threads[t].pc == PublishTable && CanStep(s, t) && Ready(s, t)
    ensures forall u :: 0 <= u < |s.threads| && u != t ==> ThreadOk(StepThread(s, t), u)
  {
    var s' := StepThread(s, t);
    forall u | 0 <= u < |s'.threads| && u != t ensures ThreadOk(s', u) {
      InvReady(s, u);
      OtherThread(s, s', u);
    }
  }

  lemma CreateKeepsTable(table: Table, g: nat, threads: seq<Local>, owner: seq<Option<nat>>, t: nat, p: nat)
    requires TableOk(table, g, threads, owner)
    requires t < |owner| && t !in table.at
    ensures TableOk(table, g, threads, owner[t := Some(p)])
  {
    forall u | u in table.at ensures EntryOk(table, g, threads, owner[t := Some(p)], u) {
      assert EntryOk(table, g, threads, owner, u);
    }
  }

  lemma CreateStep(s: State, t: nat)
    requires Inv(s)
    requires t < |s.threads| && s.threads[t].pc == Create
    ensures CanStep(s, t) && Inv(StepThread(s, t))
  {
    InvReady(s, t);
    var l, s' := s.threads[t], StepThread(s, t);
    forall g | 0 <= g < |s'.tables| ensures TableOk(s'.tables[g], g, s'.threads, s'.owner) {
      assert TableOk(s.tables[g], g, s.threads, s.owner);
      LocalKeepsTable(s.tables[g], g, s.threads, s.owner, t, s'.threads[t]);
      CreateKeepsTable(s.tables[g], g, s'.threads, s.owner, t, s.nextProducer);
    }
    forall u | 0 <= u < |s'.threads| && u != t ensures ThreadOk(s', u) {
      InvReady(s, u);
      OtherThread(s, s', u);
    }
  }

  lemma StepKeeps(s: State, t: nat)
    requires Inv(s)
    ensures Inv(Step(s, t))
  {
    if t < |s.threads| {
      InvReady(s, t);
      var l := s.threads[t];
      match l.pc {
        case Probe =>
          Probed(s, t);
          LocalStep(s, t, StepThread(s, t));
        case WriteBack => StoreStep(s, t);
        case WriteValue => StoreStep(s, t);
        case PublishTable => PublishStep(s, t);
        case Create => CreateStep(s, t);
        case Reinsert => CasStep(s, t);
        case Insert => CasStep(s, t);
        case _ =>
          if l.pc in {Idle, LoadMain, DrawCount} { Starts(s, t); } else { Locks(s, t); }
          LocalStep(s, t, StepThread(s, t));
      }
    }
  }

  lemma CasStep(s: State, t: nat)
    requires Inv(s)
    requires t < |s.threads| && s.threads[t].pc in {Reinsert, Insert} && CanStep(s, t)
    ensures Inv(StepThread(s, t))
  {
    var l := s.threads[t];
    if s.tables[l.main].keys[SlotOf(l, s.tables[l.main])] == None {
      CasSucceeds(s, t);
    } else {
      InvReady(s, t);
      assert TableOk(s.tables[l.main], l.main, s.threads, s.owner);
      CasFails(s, t);
      LocalStep(s, t, StepThread(s, t));
    }
  }

  lemma {:induction false} EveryRun(hashes: seq<nat>, capacity: nat, schedule: seq<nat>)
    requires capacity > 0 && IsPowerOfTwo(capacity)
    ensures Inv(Execute(Init(hashes, capacity), schedule))
  {
    if schedule == [] {
      InitInv(hashes, capacity);
    } else {
      var last := |schedule| - 1;
      EveryRun(hashes, capacity, schedule[..last]);
      StepKeeps(Execute(Init(hashes, capacity), schedule[..last]), schedule[last]);
    }
  }

  // Every table keeps a free slot, so all probe loops end.

  /** That many different naturals do not fit below a smaller bound. */
  lemma {:induction false} Pigeonhole(xs: seq<nat>, bound: nat)
    requires forall i :: 0 <= i < |xs| ==> xs[i] < bound
    requires forall i, j :: 0 <= i < j < |xs| ==> xs[i] != xs[j]
    ensures |xs| <= bound
  {
    assert |xs| > 0 ==> xs[0] < bound;
    if bound > 0 {
      if i :| 0 <= i < |xs| && xs[i] == bound - 1 {
        Pigeonhole(xs[..i] + xs[i + 1..], bound - 1);
      } else {
        Pigeonhole(xs, bound - 1);
      }
    }
  }

  ghost predicate HasFreeSlot(table: Table) {
    TableShape(table) && exists k :: 0 <= k < table.capacity && table.keys[k] == None
  }

  /** The counts drawn by the threads in table g, slot by slot. */
  function CountsOf(s: State, table: Table): seq<nat>
    requires TableShape(table)
    requires forall k :: 0 <= k < table.capacity ==> table.keys[k].Some? && table.keys[k].value < |s.threads|
  {
    seq(table.capacity, k requires 0 <= k < table.capacity => s.threads[table.keys[k].value].newCount)
  }

  lemma SlotCount(s: State, g: nat, k: nat)
    requires Inv(s)
    requires g < |s.tables| && k < s.tables[g].capacity && TableShape(s.tables[g]) && s.tables[g].keys[k].Some?
    ensures var u := s.tables[g].keys[k].value;
      && u < |s.threads| && 0 < s.threads[u].newCount < Limit(s.tables[g].capacity)
      && u in s.tables[g].at && k == Mod(s.threads[u].hash + s.tables[g].at[u], s.tables[g].capacity)
  {
    var table := s.tables[g];
    assert TableOk(table, g, s.threads, s.owner);
    assert SlotOk(table, s.threads, k);
    assert EntryOk(table, g, s.threads, s.owner, table.keys[k].value);
  }

  lemma FreeSlot(s: State, g: nat)
    requires Inv(s)
    requires g < |s.tables|
    ensures HasFreeSlot(s.tables[g])
  {
    var table := s.tables[g];
    assert TableOk(table, g, s.threads, s.owner);
    if !HasFreeSlot(table) {
      forall k | 0 <= k < table.capacity
        ensures table.keys[k].Some? && table.keys[k].value < |s.threads|
        ensures 0 < s.threads[table.keys[k].value].newCount < Limit(table.capacity)
      {
        assert table.keys[k] != None;
        SlotCount(s, g, k);
      }
      var xs := CountsOf(s, table);
      forall i, j | 0 <= i < j < |xs| ensures xs[i] != xs[j] {
        SlotCount(s, g, i);
        SlotCount(s, g, j);
        assert table.keys[i].value != table.keys[j].value;
      }
      Pigeonhole(xs, Limit(table.capacity));
    }
  }

  /** Every slot is reached within `capacity` probes. */
  lemma Reached(hash: nat, capacity: nat, k: nat) returns (e: nat)
    requires k < capacity
    ensures e < capacity && Mod(hash + e, capacity) == k
  {
    e := Mod(k - Mod(hash, capacity), capacity);
    var r := Mod(hash, capacity);
    ModAdd(hash, e, capacity);
    if k < r {
      ModShift(k - r, capacity);
      ModShift(k, capacity);
    }
  }

  lemma ProbesBounded(table: Table, hash: nat, t: nat, d: nat)
    requires HasFreeSlot(table) && PassedOver(table, hash, t, d)
    ensures d < table.capacity
  {
    var k :| 0 <= k < table.capacity && table.keys[k] == None;
    var e := Reached(hash, table.capacity, k);
    if e < d {
      Passed(table, hash, t, d, e);
    }
  }

  /** In every run every table has a free slot, and no probe loop ever makes `capacity` probes in vain. */
  lemma EveryTableKeepsAFreeSlot(hashes: seq<nat>, capacity: nat, schedule: seq<nat>)
    requires capacity > 0 && IsPowerOfTwo(capacity)
    ensures var s := Execute(Init(hashes, capacity), schedule);
      && (forall g :: 0 <= g < |s.tables| ==> HasFreeSlot(s.tables[g]))
      && (forall t :: 0 <= t < |s.threads| ==> ProbingIsBounded(s, s.threads[t]))
  {
    EveryRun(hashes, capacity, schedule);
    var s := Execute(Init(hashes, capacity), schedule);
    forall g | 0 <= g < |s.tables| ensures HasFreeSlot(s.tables[g]) {
      FreeSlot(s, g);
    }
    forall t | 0 <= t < |s.threads| ensures ProbingIsBounded(s, s.threads[t]) {
      InvReady(s, t);
      var l := s.threads[t];
      if l.pc == Probe {
        ProbesBounded(s.tables[l.h], l.hash, t, l.d);
      } else if l.pc == Reinsert || l.pc == Insert {
        ProbesBounded(s.tables[l.main], l.hash, t, l.d);
      }
    }
  }

  ghost predicate ProbingIsBounded(s: State, l: Local) {
    && (l.pc == Probe ==> l.h < |s.tables| && l.d < s.tables[l.h].capacity)
    && (l.pc in {Reinsert, Insert} ==> l.main < |s.tables| && l.d < s.tables[l.main].capacity)
  }

  // A thread's producer is its own and stays so.

  lemma OwnerIsForever(s: State, t: nat, u: nat)
    requires Inv(s)
    requires u < |s.threads| && s.owner[u].Some?
    ensures u < |Step(s, t).owner| && Step(s, t).owner[u] == s.owner[u]
  {
    if t < |s.threads| {
      InvReady(s, t);
    }
  }

  lemma {:induction false} OwnerThroughRun(s: State, schedule: seq<nat>, u: nat)
    requires Inv(s)
    requires u < |s.threads| && s.owner[u].Some?
    ensures Inv(Execute(s, schedule)) && u < |Execute(s, schedule).threads|
    ensures Execute(s, schedule).owner[u] == s.owner[u]
  {
    if schedule != [] {
      var last := |schedule| - 1;
      OwnerThroughRun(s, schedule[..last], u);
      StepKeeps(Execute(s, schedule[..last]), schedule[last]);
      OwnerIsForever(Execute(s, schedule[..last]), schedule[last], u);
    }
  }

  predicate Returned(s: State, t: nat) {
    t < |s.threads| && s.threads[t].pc == Idle && s.threads[t].result.Some?
  }

  /** However the tables grow in between: a thread gets the same producer from every call, and no two
      threads are ever given the same one. */
  lemma OneProducerPerThread(hashes: seq<nat>, capacity: nat, before: seq<nat>, later: seq<nat>, t: nat, u: nat)
    requires capacity > 0 && IsPowerOfTwo(capacity)
    requires Returned(Execute(Init(hashes, capacity), before), t)
    requires Returned(Execute(Execute(Init(hashes, capacity), before), later), u)
    ensures var s := Execute(Init(hashes, capacity), before);
      s.threads[t].result == Execute(s, later).threads[u].result <==> t == u
  {
    EveryRun(hashes, capacity, before);
    var s := Execute(Init(hashes, capacity), before);
    var s' := Execute(s, later);
    assert ThreadOk(s, t);
    OwnerThroughRun(s, later, t);
    assert ThreadOk(s', u);
  }

  /** Finishing a call always yields a producer. */
  lemma CallsReturnAProducer(s: State, t: nat)
    requires Inv(s)
    requires t < |s.threads| && s.threads[t].pc != Idle
    requires t < |Step(s, t).threads| && Step(s, t).threads[t].pc == Idle
    ensures Returned(Step(s, t), t) && Step(s, t).threads[t].result == s.owner[t]
  {
    InvReady(s, t);
    StepKeeps(s, t);
    OwnEntry(s, t);
    hide Inv, TableOk, Mod, PassedOver, Absent;
  }

  /** Where a call that is about to return has found or put its producer. */
  lemma OwnEntry(s: State, t: nat)
    requires Inv(s) && t < |s.threads| && Ready(s, t) && CanStep(s, t) && s.threads[t].pc != Idle && StepThread(s, t).threads[t].pc == Idle
    ensures var l := s.threads[t];
      && (l.pc == Probe ==> var table := s.tables[l.h]; table.values[SlotOf(l, table)] == s.owner[t])
      && (l.pc in {WriteBack, WriteValue} ==> l.value == s.owner[t])
      && s.owner[t].Some? && l.pc in {Probe, WriteBack, WriteValue}
  {
    var l := s.threads[t];
    if l.pc == Probe {
      assert TableOk(s.tables[l.h], l.h, s.threads, s.owner);
      FoundOwn(s.tables[l.h], l.h, s.threads, s.owner, t, SlotOf(l, s.tables[l.h]));
    } else {
      assert TableOk(s.tables[l.main], l.main, s.threads, s.owner);
      assert EntryOk(s.tables[l.main], l.main, s.threads, s.owner, t);
    }
    hide TableOk, PassedOver, Increasing, Distinct, Absent;
  }

  /** Growth moves nothing: tables stay, and a slot once taken keeps its thread. */
  lemma NothingMoves(s: State, t: nat, g: nat, k: nat)
    requires Inv(s)
    requires g < |s.tables| && TableShape(s.tables[g]) && k < s.tables[g].capacity && s.tables[g].keys[k].Some?
    ensures var s' := Step(s, t);
      && |s.tables| <= |s'.tables| <= |s.tables| + 1
      && s'.tables[g].capacity == s.tables[g].capacity && |s'.tables[g].keys| == s.tables[g].capacity
      && s'.tables[g].keys[k] == s.tables[g].keys[k]
  {
    hide Inv, Grown, Mod;
  }
}
