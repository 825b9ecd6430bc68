/** One poll of the logger: a k-way merge of the threads' queues with a binary heap of queue heads.

    `streams[tb]` is everything thread tb ever pushes, in order, and `pos[tb]` how much of it has been
    popped. Producers run at the same time, so `front()` may or may not see the next message yet: the
    functions `arrived` and `exited` say what the k-th call finds. Time stamps and ids are plain numbers. */
module LogMerge {
  import opened Options

  datatype Msg = Msg(ts: int, logId: nat, body: int)

  /** A queue and the message loaded from its front, if any. */
  datatype Node = Node(tb: nat, header: Option<Msg>)

  datatype Entry = Entry(tb: nat, msg: Msg)

  // Heaps in which a missing header counts as infinity.

  predicate Less(a: Node, b: Node) {
    a.header.Some? && (b.header.None? || a.header.value.ts < b.header.value.ts)
  }

  predicate HeapAt(ns: seq<Node>, j: nat) {
    forall ch :: 2 * j + 1 <= ch <= 2 * j + 2 && ch < |ns| ==> !Less(ns[ch], ns[j])
  }

  predicate HeapFrom(ns: seq<Node>, i: nat) {
    forall j {:trigger HeapAt(ns, j)} :: i <= j < |ns| ==> HeapAt(ns, j)
  }

  /** No header is older than the root's. */
  lemma {:induction false} RootIsOldest(ns: seq<Node>, k: nat)
    requires HeapFrom(ns, 0) && k < |ns|
    ensures !Less(ns[k], ns[0])
  {
    if k > 0 {
      var parent := (k - 1) / 2;
      assert HeapAt(ns, parent);
      RootIsOldest(ns, parent);
    }
  }

  predicate Oldest(ns: seq<Node>, i: nat, m: nat, end: nat)
    requires i < |ns| && m < |ns| && end <= |ns|
  {
    && !Less(ns[i], ns[m])
    && (forall ch :: 2 * i + 1 <= ch < end ==> !Less(ns[ch], ns[m]))
    && (m == i || (2 * i + 1 <= m < end && Less(ns[m], ns[i])))
  }

  /** The child that the loop goes on with after looking at `ch`. */
  function Older(ns: seq<Node>, m: nat, ch: nat): nat
    requires m < |ns| && ch < |ns|
  {
    if Less(ns[ch], ns[m]) then ch else m
  }

  lemma OldestAtFirst(ns: seq<Node>, i: nat, end: nat)
    requires i < |ns| && end <= |ns| && end <= 2 * i + 1
    ensures Oldest(ns, i, i, end)
  {
  }

  lemma OldestNext(ns: seq<Node>, i: nat, m: nat, ch: nat)
    requires i < |ns| && m < |ns| && 2 * i + 1 <= ch < |ns| && Oldest(ns, i, m, ch)
    ensures Oldest(ns, i, Older(ns, m, ch), ch + 1)
  {
  }

  lemma OldestMeans(ns: seq<Node>, i: nat, m: nat)
    requires i < |ns| && m < |ns| && Oldest(ns, i, m, LastChild(ns, i)) && m != i
    ensures 2 * i + 1 <= m <= 2 * i + 2 && Less(ns[m], ns[i])
    ensures forall ch :: 2 * i + 1 <= ch <= 2 * i + 2 && ch < |ns| ==> !Less(ns[ch], ns[m])
  {
  }

  /** One behind the last child of node i. */
  function LastChild(ns: seq<Node>, i: nat): (end: nat)
    ensures end <= |ns|
  {
    if i * 2 + 3 < |ns| then i * 2 + 3 else |ns|
  }

  /** Sinking below index c: everything from `from` on is in order except perhaps at c, whose children are
      already no older than its parent. */
  ghost predicate Sinking(ns: seq<Node>, from: nat, c: nat) {
    && from <= c < |ns|
    && (forall j {:trigger HeapAt(ns, j)} :: from <= j < |ns| && j != c ==> HeapAt(ns, j))
    && (c > from ==> from <= (c - 1) / 2)
    && (c > from ==> forall ch :: 2 * c + 1 <= ch <= 2 * c + 2 && ch < |ns| ==> !Less(ns[ch], ns[(c - 1) / 2]))
  }

  lemma SinkOnce(ns: seq<Node>, from: nat, c: nat, m: nat)
    requires Sinking(ns, from, c)
    requires m < |ns| && 2 * c + 1 <= m <= 2 * c + 2 && Less(ns[m], ns[c])
    requires forall ch :: 2 * c + 1 <= ch <= 2 * c + 2 && ch < |ns| ==> !Less(ns[ch], ns[m])
    ensures Sinking(ns[c := ns[m]][m := ns[c]], from, m)
  {
    var ns' := ns[c := ns[m]][m := ns[c]];
    forall j | from <= j < |ns'| && j != m ensures HeapAt(ns', j) {
      if j != c {
        assert HeapAt(ns, j);
      }
    }
    assert HeapAt(ns, m);
    assert (m - 1) / 2 == c;
  }

  lemma SinkStart(ns: seq<Node>, start: nat)
    requires start < |ns| && HeapFrom(ns, start + 1)
    ensures Sinking(ns, start, start)
  {
  }

  /** No child is older: the heap is complete. */
  lemma Sunk(ns: seq<Node>, start: nat, i: nat)
    requires Sinking(ns, start, i)
    requires i < |ns| && Oldest(ns, i, i, LastChild(ns, i))
    ensures HeapFrom(ns, start)
  {
    assert HeapAt(ns, i);
  }

  /** `a` and `b` are rearrangements of each other. */
  predicate Permuted(a: seq<Node>, b: seq<Node>) {
    multiset(a) == multiset(b)
  }

  lemma SwapPermutes(ns: seq<Node>, i: nat, j: nat, before: seq<Node>)
    requires i < |ns| && j < |ns| && Permuted(ns, before)
    ensures Permuted(ns[i := ns[j]][j := ns[i]], before)
  {
  }

  /** The part of a log that comes from one thread. */
  function From(log: seq<Entry>, tb: nat): seq<Msg> {
    if log == [] then []
    else
      var rest, last := From(log[..|log| - 1], tb), log[|log| - 1];
      if last.tb == tb then rest + [last.msg] else rest
  }

  predicate Nondecreasing(log: seq<Entry>) {
    forall i, j :: 0 <= i < j < |log| ==> log[i].msg.ts <= log[j].msg.ts
  }

  predicate SortedStream(stream: seq<Msg>) {
    forall i, j :: 0 <= i < j < |stream| ==> stream[i].ts <= stream[j].ts
  }

  predicate SortedStreams(streams: seq<seq<Msg>>) {
    forall tb :: 0 <= tb < |streams| ==> SortedStream(streams[tb])
  }

  /** A loaded header is the front of its queue. */
  predicate Loaded(streams: seq<seq<Msg>>, pos: seq<nat>, n: Node) {
    && n.tb < |streams| == |pos|
    && pos[n.tb] <= |streams[n.tb]|
    && (n.header.Some? ==> pos[n.tb] < |streams[n.tb]| && n.header.value == streams[n.tb][pos[n.tb]])
  }

  predicate DistinctBuffers(ns: seq<Node>) {
    forall i, j :: 0 <= i < j < |ns| ==> ns[i].tb != ns[j].tb
  }

  ghost predicate AllLoaded(streams: seq<seq<Msg>>, pos: seq<nat>, ns: seq<Node>) {
    forall n {:trigger n in ns} :: n in ns ==> Loaded(streams, pos, n)
  }

  /** varq.front(): the next message, if it has been pushed already. */
  function Front(stream: seq<Msg>, pos: nat, arrived: bool): Option<Msg> {
    if arrived && pos < |stream| then Some(stream[pos]) else None
  }

  /** What is still in the queues. */
  function Left(streams: seq<seq<Msg>>, pos: seq<nat>): int
    requires |streams| == |pos|
  {
    if streams == [] then 0
    else Left(streams[..|streams| - 1], pos[..|pos| - 1]) + |streams[|streams| - 1]| - pos[|pos| - 1]
  }

  lemma {:induction false} LeftShrinks(streams: seq<seq<Msg>>, pos: seq<nat>, tb: nat)
    requires tb < |streams| == |pos|
    ensures Left(streams, pos[tb := pos[tb] + 1]) == Left(streams, pos) - 1
  {
    var n := |pos| - 1;
    if tb < n {
      LeftShrinks(streams[..n], pos[..n], tb);
      assert pos[tb := pos[tb] + 1][..n] == pos[..n][tb := pos[tb] + 1];
    } else {
      assert pos[tb := pos[tb] + 1][..n] == pos[..n];
    }
  }

  lemma {:induction false} LeftNonNegative(streams: seq<seq<Msg>>, pos: seq<nat>)
    requires |streams| == |pos| && forall tb :: 0 <= tb < |pos| ==> pos[tb] <= |streams[tb]|
    ensures Left(streams, pos) >= 0
  {
    if streams != [] {
      LeftNonNegative(streams[..|streams| - 1], pos[..|pos| - 1]);
    }
  }

  function Buffers(ns: seq<Node>): set<nat> {
    set n | n in ns :: n.tb
  }

  lemma PermutedMembers(a: seq<Node>, b: seq<Node>)
    requires Permuted(a, b)
    ensures |a| == |b|
    ensures forall n :: n in a <==> n in b
    ensures Buffers(a) == Buffers(b)
  {
    assert |multiset(a)| == |a| && |multiset(b)| == |b|;
    forall n ensures n in a <==> n in b {
      assert n in a <==> n in multiset(a);
      assert n in b <==> n in multiset(b);
    }
  }

  /** Buffers are distinct exactly if there are as many as nodes, so a rearrangement keeps them so. */
  lemma {:induction false} DistinctByCount(ns: seq<Node>)
    ensures DistinctBuffers(ns) <==> |Buffers(ns)| == |ns|
    ensures |Buffers(ns)| <= |ns|
  {
    if ns != [] {
      var init, last := ns[..|ns| - 1], ns[|ns| - 1];
      DistinctByCount(init);
      assert ns == init + [last];
      BuffersOfAll(init, last);
      DistinctOfAll(init, last);
    }
  }

  lemma BuffersOfAll(init: seq<Node>, last: Node)
    ensures Buffers(init + [last]) == Buffers(init) + {last.tb}
    ensures |Buffers(init + [last])| == |Buffers(init)| + (if last.tb in Buffers(init) then 0 else 1)
  {
    assert Buffers(init + [last]) == Buffers(init) + {last.tb};
    if last.tb in Buffers(init) {
      assert Buffers(init) + {last.tb} == Buffers(init);
    }
  }

  lemma DistinctOfAll(init: seq<Node>, last: Node)
    ensures DistinctBuffers(init + [last]) <==> DistinctBuffers(init) && last.tb !in Buffers(init)
  {
    var ns := init + [last];
    assert forall i :: 0 <= i < |init| ==> ns[i] == init[i] && init[i] in init;
    if last.tb in Buffers(init) {
      var i :| 0 <= i < |init| && init[i].tb == last.tb;
      assert ns[i].tb == ns[|init|].tb;
    }
  }

  lemma PermutedDistinct(a: seq<Node>, b: seq<Node>)
    requires Permuted(a, b) && DistinctBuffers(b)
    ensures DistinctBuffers(a)
  {
    PermutedMembers(a, b);
    DistinctByCount(a);
    DistinctByCount(b);
  }

  /** The front() calls made so far by a refresh: who was asked and what the k-th call finds. */
  datatype Polled = Polled(streams: seq<seq<Msg>>, pos: seq<nat>, calls: seq<nat>, arrived: nat -> bool, exited: nat -> bool)

  /** The k-th call asked node o, which had no header: it now has what the call returned, unless the queue
      was empty and its thread gone. */
  ghost predicate Asked(p: Polled, o: Node, k: nat, kept: seq<Node>, all: seq<Node>) {
    && o.tb < |p.streams| == |p.pos| && k < |p.calls| && p.calls[k] == o.tb
    && var h := Front(p.streams[o.tb], p.pos[o.tb], p.arrived(k));
    if h.None? && p.exited(k) then o.tb !in Buffers(all) else Node(o.tb, h) in kept
  }

  ghost predicate Refreshed(p: Polled, o: Node, kept: seq<Node>, all: seq<Node>) {
    if o.header.Some? then o in kept
    else exists k :: 0 <= k < |p.calls| && Asked(p, o, k, kept, all)
  }

  /** Nodes before i have been refreshed and the rest is as it was. */
  ghost predicate Progress(p: Polled, before: seq<Node>, ns: seq<Node>, i: nat) {
    && i <= |ns|
    && AllLoaded(p.streams, p.pos, ns) && DistinctBuffers(ns)
    && (forall j {:trigger ns[j]} :: i <= j < |ns| ==> ns[j] in before)
    && (forall o {:trigger o in before} :: o in before ==> o in ns[i..] || Refreshed(p, o, ns[..i], ns))
    && Buffers(ns) <= Buffers(before)
    && CallsOk(p.calls, before)
    && (forall j {:trigger ns[j]} :: i <= j < |ns| ==> ns[j].tb !in p.calls)
  }

  /** Only nodes without a header were asked, and none of them twice. */
  ghost predicate CallsOk(calls: seq<nat>, before: seq<Node>) {
    && (forall tb {:trigger tb in calls} :: tb in calls ==> Node(tb, None) in before)
    && (forall a, b :: 0 <= a < b < |calls| ==> calls[a] != calls[b])
  }

  lemma OneMoreCall(calls: seq<nat>, before: seq<Node>, tb: nat)
    requires CallsOk(calls, before) && tb !in calls && Node(tb, None) in before
    ensures CallsOk(calls + [tb], before)
  {
    var calls' := calls + [tb];
    forall a, b | 0 <= a < b < |calls'| ensures calls'[a] != calls'[b] {
      assert calls[a] in calls;
    }
  }

  /** A whole refresh: exactly the nodes without a header were asked, once each, and every node has been
      dealt with. */
  ghost predicate AllRefreshed(p: Polled, before: seq<Node>, ns: seq<Node>) {
    && (forall o {:trigger o in before} :: o in before ==> Refreshed(p, o, ns, ns))
    && Buffers(ns) <= Buffers(before)
    && CallsOk(p.calls, before)
  }

  /** Each queue that was asked, by what was there for it: its next message if that had been pushed, otherwise
      nothing, in which case the buffer is gone if its thread had ended. */
  ghost predicate ArrivedAreLoaded(p: Polled, ns: seq<Node>) {
    forall k {:trigger p.calls[k]} :: 0 <= k < |p.calls| ==> FoundBy(p, k, ns)
  }

  ghost predicate FoundBy(p: Polled, k: nat, ns: seq<Node>)
    requires k < |p.calls|
  {
    var tb := p.calls[k];
    && tb < |p.streams| == |p.pos|
    && if p.arrived(k) && p.pos[tb] < |p.streams[tb]| then Node(tb, Some(p.streams[tb][p.pos[tb]])) in ns
       else if p.exited(k) then tb !in Buffers(ns)
       else Node(tb, None) in ns
  }

  lemma AskedOnce(p: Polled, before: seq<Node>, ns: seq<Node>)
    requires AllRefreshed(p, before, ns)
    ensures ArrivedAreLoaded(p, ns)
  {
    forall k | 0 <= k < |p.calls| ensures FoundBy(p, k, ns) {
      var tb := p.calls[k];
      assert tb in p.calls;
      var o := Node(tb, None);
      assert o in before && Refreshed(p, o, ns, ns);
      var j :| 0 <= j < |p.calls| && Asked(p, o, j, ns, ns);
      assert j == k;
    }
  }

  lemma Started(p: Polled, ns: seq<Node>)
    requires p.calls == [] && AllLoaded(p.streams, p.pos, ns) && DistinctBuffers(ns)
    ensures Progress(p, ns, ns, 0)
  {
    assert ns[0..] == ns;
  }

  lemma Finished(p: Polled, before: seq<Node>, ns: seq<Node>)
    requires Progress(p, before, ns, |ns|)
    ensures AllRefreshed(p, before, ns) && AllLoaded(p.streams, p.pos, ns) && DistinctBuffers(ns)
  {
    assert ns[..|ns|] == ns && ns[|ns|..] == [];
  }

  /** More calls, more refreshed nodes and fewer buffers leave what is refreshed refreshed. */
  lemma StillRefreshed(p: Polled, p': Polled, o: Node, kept: seq<Node>, all: seq<Node>, kept': seq<Node>, all': seq<Node>)
    requires Refreshed(p, o, kept, all)
    requires p' == p.(calls := p'.calls) && p.calls <= p'.calls
    requires kept <= kept' && Buffers(all') <= Buffers(all)
    ensures Refreshed(p', o, kept', all')
  {
    if o.header.None? {
      var k :| 0 <= k < |p.calls| && Asked(p, o, k, kept, all);
      assert Asked(p', o, k, kept', all');
    }
  }

  lemma KeepLoaded(p: Polled, before: seq<Node>, ns: seq<Node>, i: nat)
    requires Progress(p, before, ns, i) && i < |ns| && ns[i].header.Some?
    ensures Progress(p, before, ns, i + 1)
  {
    assert ns[..i + 1] == ns[..i] + [ns[i]];
    assert ns[i..] == [ns[i]] + ns[i + 1..];
    forall o | o in before ensures o in ns[i + 1..] || Refreshed(p, o, ns[..i + 1], ns) {
      if o !in ns[i..] {
        StillRefreshed(p, p, o, ns[..i], ns, ns[..i + 1], ns);
      }
    }
  }

  lemma KeepAsked(p: Polled, before: seq<Node>, ns: seq<Node>, i: nat)
    requires Progress(p, before, ns, i) && i < |ns| && ns[i].header.None?
    requires ns[i].tb < |p.streams| == |p.pos|
    requires var h := Front(p.streams[ns[i].tb], p.pos[ns[i].tb], p.arrived(|p.calls|)); !(h.None? && p.exited(|p.calls|))
    ensures var h := Front(p.streams[ns[i].tb], p.pos[ns[i].tb], p.arrived(|p.calls|));
      Progress(p.(calls := p.calls + [ns[i].tb]), before, ns[i := ns[i].(header := h)], i + 1)
  {
    var o0, k := ns[i], |p.calls|;
    var h := Front(p.streams[o0.tb], p.pos[o0.tb], p.arrived(k));
    var p', ns' := p.(calls := p.calls + [o0.tb]), ns[i := o0.(header := h)];
    assert ns'[..i + 1] == ns[..i] + [Node(o0.tb, h)];
    assert ns[i..] == [o0] + ns[i + 1..] && ns'[i + 1..] == ns[i + 1..];
    assert Asked(p', o0, k, ns'[..i + 1], ns');
    OneMoreCall(p.calls, before, o0.tb);
    SameBuffers(ns, i, h);
    forall n | n in ns' ensures Loaded(p.streams, p.pos, n) {
      if n !in ns {
        assert Loaded(p.streams, p.pos, o0);
      }
    }
    forall o | o in before ensures o in ns'[i + 1..] || Refreshed(p', o, ns'[..i + 1], ns') {
      if o !in ns[i..] {
        StillRefreshed(p, p', o, ns[..i], ns, ns'[..i + 1], ns');
      }
    }
  }

  lemma SameBuffers(ns: seq<Node>, i: nat, h: Option<Msg>)
    requires i < |ns|
    ensures Buffers(ns[i := ns[i].(header := h)]) == Buffers(ns)
  {
    var ns' := ns[i := ns[i].(header := h)];
    forall tb ensures tb in Buffers(ns') <==> tb in Buffers(ns) {
      if tb in Buffers(ns) {
        var j :| 0 <= j < |ns| && ns[j].tb == tb;
        assert ns'[j] in ns';
      }
      if tb in Buffers(ns') {
        var j :| 0 <= j < |ns| && ns'[j].tb == tb;
        assert ns[j] in ns;
      }
    }
  }

  /** Node i is overwritten by the last one. */
  function Without(ns: seq<Node>, i: nat): seq<Node>
    requires i < |ns|
  {
    ns[i := ns[|ns| - 1]][..|ns| - 1]
  }

  lemma WithoutNode(ns: seq<Node>, i: nat)
    requires i < |ns|
    ensures var ns' := Without(ns, i);
      && |ns'| == |ns| - 1 && (i < |ns'| || i == |ns| - 1)
      && (forall j :: 0 <= j < |ns'| ==> ns'[j] == ns[if j == i then |ns| - 1 else j])
      && (i <= |ns'| ==> ns'[..i] == ns[..i])
      && (forall n :: n in ns' ==> n in ns)
      && (forall o :: o in ns[i..] && o != ns[i] ==> o in ns'[i..])
  {
    var ns' := Without(ns, i);
    forall o | o in ns[i..] && o != ns[i] ensures o in ns'[i..] {
      var j :| i < j < |ns| && ns[j] == o;
      assert ns'[if j == |ns| - 1 then i else j] == o;
    }
  }

  lemma WithoutBuffer(ns: seq<Node>, i: nat)
    requires i < |ns| && DistinctBuffers(ns)
    ensures DistinctBuffers(Without(ns, i)) && Buffers(Without(ns, i)) <= Buffers(ns) && ns[i].tb !in Buffers(Without(ns, i))
  {
    WithoutNode(ns, i);
    hide Without;
    var ns' := Without(ns, i);
    forall tb | tb in Buffers(ns') ensures tb in Buffers(ns) && tb != ns[i].tb {
      var j :| 0 <= j < |ns'| && ns'[j].tb == tb;
      assert ns'[j] == ns[if j == i then |ns| - 1 else j];
    }
  }

  lemma NotAsked(ns: seq<Node>, i: nat, j: nat)
    requires i < j < |ns| && DistinctBuffers(ns)
    ensures ns[j].tb != ns[i].tb
  {
  }

  lemma DroppedIsRefreshed(p: Polled, o: Node, k: nat, kept: seq<Node>, all: seq<Node>)
    requires o.header.None? && Asked(p, o, k, kept, all)
    ensures Refreshed(p, o, kept, all)
  {
  }

  lemma DropAsked(p: Polled, before: seq<Node>, ns: seq<Node>, i: nat)
    requires Progress(p, before, ns, i) && i < |ns| && ns[i].header.None?
    requires ns[i].tb < |p.streams| == |p.pos|
    requires Front(p.streams[ns[i].tb], p.pos[ns[i].tb], p.arrived(|p.calls|)).None? && p.exited(|p.calls|)
    ensures Progress(p.(calls := p.calls + [ns[i].tb]), before, ns[i := ns[|ns| - 1]][..|ns| - 1], i)
  {
    var o0, k, last := ns[i], |p.calls|, |ns| - 1;
    var p', ns' := p.(calls := p.calls + [o0.tb]), Without(ns, i);
    WithoutNode(ns, i);
    WithoutBuffer(ns, i);
    OneMoreCall(p.calls, before, o0.tb);
    hide Buffers, DistinctBuffers, CallsOk, Front, Without, Refreshed;
    forall n | n in ns' ensures Loaded(p.streams, p.pos, n) {
      assert n in ns;
    }
    forall j | i <= j < |ns'| ensures ns'[j] in before && ns'[j].tb !in p'.calls {
      assert ns'[j] == ns[if j == i then last else j];
      NotAsked(ns, i, if j == i then last else j);
    }
    forall o | o in before ensures o in ns'[i..] || Refreshed(p', o, ns'[..i], ns') {
      if o in ns[i..] {
        if o == o0 {
          DroppedIsRefreshed(p', o0, k, ns'[..i], ns');
        }
      } else {
        StillRefreshed(p, p', o, ns[..i], ns, ns'[..i], ns');
      }
    }
  }

  /** What one round of the refresh loop does at node i. */
  ghost predicate After(p: Polled, ns: seq<Node>, i: nat, p': Polled, ns': seq<Node>, i': nat)
    requires i < |ns| && ns[i].tb < |p.streams| == |p.pos|
  {
    var tb, k := ns[i].tb, |p.calls|;
    var h := Front(p.streams[tb], p.pos[tb], p.arrived(k));
    if ns[i].header.Some? then p' == p && ns' == ns && i' == i + 1
    else
      && p' == p.(calls := p.calls + [tb])
      && if h.None? && p.exited(k) then ns' == ns[i := ns[|ns| - 1]][..|ns| - 1] && i' == i
         else ns' == ns[i := ns[i].(header := h)] && i' == i + 1
  }

  lemma AdvanceKeeps(p: Polled, before: seq<Node>, ns: seq<Node>, i: nat)
    requires Progress(p, before, ns, i) && i < |ns|
    ensures ns[i].tb < |p.streams| == |p.pos|
    ensures forall p', ns', i' :: After(p, ns, i, p', ns', i') ==> Progress(p', before, ns', i')
  {
    assert ns[i] in ns;
    if ns[i].header.Some? {
      KeepLoaded(p, before, ns, i);
    } else if Front(p.streams[ns[i].tb], p.pos[ns[i].tb], p.arrived(|p.calls|)).None? && p.exited(|p.calls|) {
      DropAsked(p, before, ns, i);
    } else {
      KeepAsked(p, before, ns, i);
    }
  }

  function Slice(stream: seq<Msg>, from: nat, to: nat): seq<Msg> {
    if from <= to <= |stream| then stream[from..to] else []
  }

  /** What a merge has logged so far, `done`, from the queues as they were at `start`. */
  ghost predicate Merged(streams: seq<seq<Msg>>, start: seq<nat>, pos: seq<nat>, done: seq<Entry>, known: nat, cutoff: int) {
    && |streams| == |start| == |pos|
    && (forall tb {:trigger pos[tb]} :: 0 <= tb < |pos| ==> start[tb] <= pos[tb] <= |streams[tb]|)
    && (forall tb {:trigger From(done, tb)} :: 0 <= tb < |pos| ==> From(done, tb) == Slice(streams[tb], start[tb], pos[tb]))
    && (forall e :: e in done ==> e.msg.ts < cutoff && e.msg.logId < known)
  }

  /** The log is in order and nothing loaded is older than its end. */
  ghost predicate InOrder(done: seq<Entry>, ns: seq<Node>) {
    && Nondecreasing(done)
    && (done != [] ==> forall n :: n in ns && n.header.Some? ==> done[|done| - 1].msg.ts <= n.header.value.ts)
  }

  lemma FromAppends(done: seq<Entry>, e: Entry, tb: nat)
    ensures From(done + [e], tb) == if e.tb == tb then From(done, tb) + [e.msg] else From(done, tb)
  {
    assert (done + [e])[..|done|] == done;
  }

  lemma OneLonger(stream: seq<Msg>, from: nat, to: nat)
    requires from <= to < |stream|
    ensures Slice(stream, from, to + 1) == Slice(stream, from, to) + [stream[to]]
  {
  }

  lemma LogOne(streams: seq<seq<Msg>>, start: seq<nat>, pos: seq<nat>, done: seq<Entry>, known: nat, cutoff: int, root: Node)
    requires Merged(streams, start, pos, done, known, cutoff)
    requires Loaded(streams, pos, root) && root.header.Some?
    requires root.header.value.ts < cutoff && root.header.value.logId < known
    ensures Merged(streams, start, pos[root.tb := pos[root.tb] + 1], done + [Entry(root.tb, root.header.value)], known, cutoff)
  {
    hide Slice, From;
    OneLonger(streams[root.tb], start[root.tb], pos[root.tb]);
    var pos', done' := pos[root.tb := pos[root.tb] + 1], done + [Entry(root.tb, root.header.value)];
    forall tb | 0 <= tb < |pos'| ensures From(done', tb) == Slice(streams[tb], start[tb], pos'[tb]) {
      assert From(done, tb) == Slice(streams[tb], start[tb], pos[tb]);
      FromAppends(done, Entry(root.tb, root.header.value), tb);
    }
  }

  /** Popping the oldest message keeps the log in order, whatever has arrived behind it. */
  lemma StaysInOrder(streams: seq<seq<Msg>>, pos: seq<nat>, done: seq<Entry>, ns: seq<Node>, h: Option<Msg>)
    requires SortedStreams(streams) && InOrder(done, ns) && HeapFrom(ns, 0) && ns != []
    requires Loaded(streams, pos, ns[0]) && ns[0].header.Some?
    requires h.Some? ==> pos[ns[0].tb] + 1 < |streams[ns[0].tb]| && h.value == streams[ns[0].tb][pos[ns[0].tb] + 1]
    ensures InOrder(done + [Entry(ns[0].tb, ns[0].header.value)], ns[0 := ns[0].(header := h)])
  {
    var root := ns[0];
    assert root in ns;
    var ns' := ns[0 := root.(header := h)];
    forall n | n in ns' && n.header.Some? ensures root.header.value.ts <= n.header.value.ts {
      var k :| 0 <= k < |ns'| && ns'[k] == n;
      if k == 0 {
        assert SortedStream(streams[root.tb]);
      } else {
        RootIsOldest(ns, k);
      }
    }
  }

  /** Popping moves one queue; the headers of the others stay loaded. */
  lemma PopKeepsLoaded(streams: seq<seq<Msg>>, pos: seq<nat>, ns: seq<Node>, arrived: bool)
    requires ns != [] && AllLoaded(streams, pos, ns) && DistinctBuffers(ns)
    requires ns[0].tb < |streams| == |pos| && pos[ns[0].tb] < |streams[ns[0].tb]|
    ensures var tb := ns[0].tb; var pos' := pos[tb := pos[tb] + 1];
      var ns' := ns[0 := ns[0].(header := Front(streams[tb], pos[tb] + 1, arrived))];
      AllLoaded(streams, pos', ns') && DistinctBuffers(ns')
  {
    var tb := ns[0].tb;
    var ns' := ns[0 := ns[0].(header := Front(streams[tb], pos[tb] + 1, arrived))];
    forall n | n in ns' ensures Loaded(streams, pos[tb := pos[tb] + 1], n) {
      var k :| 0 <= k < |ns'| && ns'[k] == n;
      if k > 0 {
        assert ns[k] in ns;
      }
    }
  }

  /** When a merge stops: an old enough message is left only behind one whose format is not known yet. */
  ghost predicate Stopped(ns: seq<Node>, known: nat, cutoff: int) {
    && ns != []
    && forall n :: n in ns && n.header.Some? && n.header.value.ts < cutoff ==>
         ns[0].header.Some? && ns[0].header.value.logId >= known && ns[0].header.value.ts <= n.header.value.ts
  }

  lemma StopsProperly(ns: seq<Node>, known: nat, cutoff: int)
    requires ns != [] && HeapFrom(ns, 0)
    requires ns[0].header.None? || ns[0].header.value.logId >= known || ns[0].header.value.ts >= cutoff
    ensures Stopped(ns, known, cutoff)
  {
    forall n | n in ns && n.header.Some? && n.header.value.ts < cutoff
      ensures ns[0].header.Some? && ns[0].header.value.logId >= known && ns[0].header.value.ts <= n.header.value.ts
    {
      var k :| 0 <= k < |ns| && ns[k] == n;
      RootIsOldest(ns, k);
    }
  }

  /** Which entry of a log is the last of thread tb. */
  function LastFrom(log: seq<Entry>, tb: nat): Option<nat> {
    if log == [] then None
    else if log[|log| - 1].tb == tb then Some(|log| - 1)
    else LastFrom(log[..|log| - 1], tb)
  }

  /** What a merge does to the header of a node: nothing if the node was never popped, otherwise it is what
      front() returned at its last pop. */
  function HeaderAfter(streams: seq<seq<Msg>>, pos: seq<nat>, done: seq<Entry>, arrived: nat -> bool, o: Node): Option<Msg>
    requires o.tb < |streams| == |pos|
  {
    match LastFrom(done, o.tb)
    case None => o.header
    case Some(k) => Front(streams[o.tb], pos[o.tb], arrived(k))
  }

  ghost predicate CarriedOne(
    streams: seq<seq<Msg>>, pos: seq<nat>, done: seq<Entry>, arrived: nat -> bool, o: Node, ns: seq<Node>)
  {
    o.tb < |streams| == |pos| && Node(o.tb, HeaderAfter(streams, pos, done, arrived, o)) in ns
  }

  /** No node is lost, and none is unloaded. */
  ghost predicate Carried(
    streams: seq<seq<Msg>>, pos: seq<nat>, done: seq<Entry>, arrived: nat -> bool, before: seq<Node>, ns: seq<Node>)
  {
    && |ns| == |before|
    && forall o {:trigger o in before} :: o in before ==> CarriedOne(streams, pos, done, arrived, o, ns)
  }

  lemma {:induction false} LastFromMeans(log: seq<Entry>, tb: nat)
    ensures var last := LastFrom(log, tb);
      && (last == None ==> From(log, tb) == [] && forall k :: 0 <= k < |log| ==> log[k].tb != tb)
      && (last.Some? ==>
            && last.value < |log| && log[last.value].tb == tb && From(log, tb) != []
            && forall k :: last.value < k < |log| ==> log[k].tb != tb)
  {
    if log != [] {
      LastFromMeans(log[..|log| - 1], tb);
    }
  }

  /** After a merge the node of a queue holds the next message of the queue, if each pop found the one behind it
      pushed already; and nothing if none did. */
  lemma NextIsLoaded(streams: seq<seq<Msg>>, start: seq<nat>, pos: seq<nat>, done: seq<Entry>, known: nat, cutoff: int,
                     arrived: nat -> bool, before: seq<Node>, ns: seq<Node>, o: Node)
    requires Merged(streams, start, pos, done, known, cutoff) && Carried(streams, pos, done, arrived, before, ns)
    requires o in before && Loaded(streams, start, o) && o.header.Some?
    ensures o.tb < |pos| && pos[o.tb] <= |streams[o.tb]|
    ensures (forall k :: 0 <= k < |done| && done[k].tb == o.tb ==> arrived(k)) ==>
      (if pos[o.tb] < |streams[o.tb]| then Node(o.tb, Some(streams[o.tb][pos[o.tb]])) in ns else Node(o.tb, None) in ns)
    ensures pos[o.tb] > start[o.tb] && (forall k :: 0 <= k < |done| && done[k].tb == o.tb ==> !arrived(k)) ==> Node(o.tb, None) in ns
  {
    assert CarriedOne(streams, pos, done, arrived, o, ns);
    assert From(done, o.tb) == Slice(streams[o.tb], start[o.tb], pos[o.tb]);
    LastFromMeans(done, o.tb);
  }

  /** So a poll to which everything has arrived logs everything old enough: what is left of a queue begins with a
      message that is too young, or waits behind a root of unknown format that is no younger. */
  lemma NothingOldIsLeft(streams: seq<seq<Msg>>, start: seq<nat>, pos: seq<nat>, done: seq<Entry>, known: nat, cutoff: int,
                         arrived: nat -> bool, before: seq<Node>, ns: seq<Node>, o: Node)
    requires Merged(streams, start, pos, done, known, cutoff) && Carried(streams, pos, done, arrived, before, ns)
    requires Stopped(ns, known, cutoff)
    requires o in before && Loaded(streams, start, o) && o.header.Some? && SortedStreams(streams)
    requires forall k :: 0 <= k < |done| && done[k].tb == o.tb ==> arrived(k)
    ensures forall i :: start[o.tb] <= i < |streams[o.tb]| && streams[o.tb][i].ts < cutoff ==>
      || i < pos[o.tb]
      || (ns[0].header.Some? && ns[0].header.value.logId >= known && ns[0].header.value.ts <= streams[o.tb][i].ts)
  {
    NextIsLoaded(streams, start, pos, done, known, cutoff, arrived, before, ns, o);
    forall i | pos[o.tb] <= i < |streams[o.tb]| && streams[o.tb][i].ts < cutoff
      ensures ns[0].header.Some? && ns[0].header.value.logId >= known && ns[0].header.value.ts <= streams[o.tb][i].ts
    {
      assert SortedStream(streams[o.tb]);
      assert streams[o.tb][pos[o.tb]].ts <= streams[o.tb][i].ts;
      assert Node(o.tb, Some(streams[o.tb][pos[o.tb]])) in ns;
    }
  }

  lemma NothingInOrder(ns: seq<Node>)
    ensures InOrder([], ns)
  {
  }

  lemma NothingCarried(streams: seq<seq<Msg>>, pos: seq<nat>, arrived: nat -> bool, ns: seq<Node>)
    requires AllLoaded(streams, pos, ns)
    ensures Carried(streams, pos, [], arrived, ns, ns)
  {
    forall o | o in ns ensures CarriedOne(streams, pos, [], arrived, o, ns) {
      assert Loaded(streams, pos, o);
    }
  }

  /** Popping the root once more. */
  lemma CarryOne(streams: seq<seq<Msg>>, pos: seq<nat>, done: seq<Entry>, arrived: nat -> bool,
                 before: seq<Node>, ns: seq<Node>, e: Entry, pos': seq<nat>, ns': seq<Node>)
    requires Carried(streams, pos, done, arrived, before, ns)
    requires ns != [] && ns[0].tb == e.tb < |streams| == |pos| && pos' == pos[e.tb := pos[e.tb] + 1]
    requires Permuted(ns', ns[0 := ns[0].(header := Front(streams[e.tb], pos'[e.tb], arrived(|done|)))])
    ensures Carried(streams, pos', done + [e], arrived, before, ns')
  {
    var done', popped := done + [e], ns[0 := ns[0].(header := Front(streams[e.tb], pos'[e.tb], arrived(|done|)))];
    PermutedMembers(ns', popped);
    assert done'[..|done|] == done;
    forall o | o in before ensures CarriedOne(streams, pos', done', arrived, o, ns') {
      assert CarriedOne(streams, pos, done, arrived, o, ns);
      if o.tb == e.tb {
        assert popped[0] in popped;
      } else {
        var j :| 0 <= j < |ns| && ns[j] == Node(o.tb, HeaderAfter(streams, pos, done, arrived, o));
        assert popped[j] == ns[j] && popped[j] in popped;
      }
    }
  }

  lemma CarryPermuted(streams: seq<seq<Msg>>, pos: seq<nat>, done: seq<Entry>, arrived: nat -> bool,
                      before: seq<Node>, start: seq<Node>, ns: seq<Node>)
    requires Carried(streams, pos, done, arrived, start, ns) && Permuted(start, before)
    ensures Carried(streams, pos, done, arrived, before, ns)
  {
    PermutedMembers(start, before);
    forall o | o in before ensures CarriedOne(streams, pos, done, arrived, o, ns) {
      assert o in start;
    }
  }

  /** A message older than the cut-off that was loaded beforehand has been logged, unless one at least as old
      and of unknown format is in the way. */
  ghost predicate OldOnesLogged(before: seq<Node>, done: seq<Entry>, ns: seq<Node>, known: nat, cutoff: int) {
    forall o :: o in before && o.header.Some? && o.header.value.ts < cutoff ==>
      || Entry(o.tb, o.header.value) in done
      || (ns != [] && Blocking(ns[0], known) && ns[0].header.value.ts <= o.header.value.ts)
  }

  predicate Blocking(root: Node, known: nat) {
    root.header.Some? && root.header.value.logId >= known
  }

  lemma {:induction false} FirstFrom(log: seq<Entry>, tb: nat)
    requires LastFrom(log, tb).Some?
    ensures From(log, tb) != [] && Entry(tb, From(log, tb)[0]) in log
  {
    var init := log[..|log| - 1];
    assert log == init + [log[|log| - 1]];
    if LastFrom(init, tb).Some? {
      FirstFrom(init, tb);
    } else {
      NeverFrom(init, tb);
    }
  }

  lemma {:induction false} NeverFrom(log: seq<Entry>, tb: nat)
    requires LastFrom(log, tb).None?
    ensures From(log, tb) == []
  {
    if log != [] {
      NeverFrom(log[..|log| - 1], tb);
    }
  }

  lemma LogsOldOnes(streams: seq<seq<Msg>>, start: seq<nat>, pos: seq<nat>, done: seq<Entry>, known: nat, cutoff: int,
                    arrived: nat -> bool, before: seq<Node>, ns: seq<Node>)
    requires Merged(streams, start, pos, done, known, cutoff) && AllLoaded(streams, start, before)
    requires Carried(streams, pos, done, arrived, before, ns) && Stopped(ns, known, cutoff)
    ensures OldOnesLogged(before, done, ns, known, cutoff)
  {
    forall o | o in before && o.header.Some? && o.header.value.ts < cutoff
      ensures Entry(o.tb, o.header.value) in done
        || (Blocking(ns[0], known) && ns[0].header.value.ts <= o.header.value.ts)
    {
      assert Loaded(streams, start, o) && CarriedOne(streams, pos, done, arrived, o, ns);
      if LastFrom(done, o.tb).Some? {
        FirstFrom(done, o.tb);
        assert From(done, o.tb) == Slice(streams[o.tb], start[o.tb], pos[o.tb]);
      } else {
        assert o == Node(o.tb, o.header);
      }
    }
  }

  class Merger {
    const streams: seq<seq<Msg>>
    var pos: seq<nat>
    var nodes: seq<Node>
    var log: seq<Entry>

    ghost predicate Valid()
      reads this
    {
      && |pos| == |streams| && (forall tb :: 0 <= tb < |pos| ==> pos[tb] <= |streams[tb]|)
      && AllLoaded(streams, pos, nodes)
      && DistinctBuffers(nodes)
    }

    constructor (streams: seq<seq<Msg>>)
      ensures Valid() && this.streams == streams && nodes == [] && log == []
      ensures forall tb :: 0 <= tb < |pos| ==> pos[tb] == 0
    {
      this.streams := streams;
      pos, nodes, log := seq(|streams|, _ => 0), [], [];
    }

    method AdjustHeap(start: nat)
      requires start < |nodes| && HeapFrom(nodes, start + 1)
      modifies `nodes
      ensures Permuted(nodes, old(nodes))
      ensures HeapFrom(nodes, start)
      ensures |nodes| == |old(nodes)| && nodes[..start] == old(nodes)[..start]
    {
      SinkStart(nodes, start);
      assert Permuted(nodes, nodes);
      hide HeapFrom, HeapAt, Sinking, Permuted, Oldest;
      var i: nat := start;
      while true
        invariant Sinking(nodes, start, i) && start <= i < |nodes|
        invariant Permuted(nodes, old(nodes))
        invariant |nodes| == |old(nodes)| && nodes[..start] == old(nodes)[..start]
        decreases |nodes| - i
      {
        var minI: nat, ch: nat := i, i * 2 + 1;
        var end := if i * 2 + 3 < |nodes| then i * 2 + 3 else |nodes|;
        OldestAtFirst(nodes, i, if ch <= end then ch else end);
        while ch < end
          modifies {}
          invariant 2 * i + 1 <= ch && (ch <= end || ch == 2 * i + 1)
          invariant minI < |nodes|
          invariant Oldest(nodes, i, minI, if ch <= end then ch else end)
          decreases end - ch
        {
          OldestNext(nodes, i, minI, ch);
          if nodes[ch].header.Some?
             && (nodes[minI].header.None? || nodes[ch].header.value.ts < nodes[minI].header.value.ts) {
            minI := ch;
          }
          ch := ch + 1;
        }
        if minI == i {
          Sunk(nodes, start, i);
          break;
        }
        OldestMeans(nodes, i, minI);
        SinkOnce(nodes, start, i, minI);
        SwapPermutes(nodes, i, minI, old(nodes));
        nodes := nodes[i := nodes[minI]][minI := nodes[i]];
        i := minI;
      }
    }

    /** Overwrites node i with the last one and pops that. */
    method RemoveNode(i: nat)
      requires i < |nodes|
      modifies `nodes
      ensures nodes == old(nodes)[i := old(nodes)[|old(nodes)| - 1]][..|old(nodes)| - 1]
    {
      nodes := nodes[i := nodes[|nodes| - 1]];
      nodes := nodes[..|nodes| - 1];
    }

    /** Fills in the missing headers and drops the buffers of threads that have ended. */
    method Refresh(arrived: nat -> bool, exited: nat -> bool) returns (calls: seq<nat>)
      requires Valid()
      modifies `nodes
      ensures Valid()
      ensures AllRefreshed(Polled(streams, pos, calls, arrived, exited), old(nodes), nodes)
      ensures ArrivedAreLoaded(Polled(streams, pos, calls, arrived, exited), nodes)
    {
      hide Progress, AllRefreshed, ArrivedAreLoaded;
      calls := [];
      Started(Polled(streams, pos, calls, arrived, exited), nodes);
      var i: nat := 0;
      while i < |nodes|
        invariant |pos| == |streams| && (forall tb :: 0 <= tb < |pos| ==> pos[tb] <= |streams[tb]|)
        invariant i <= |nodes| && Progress(Polled(streams, pos, calls, arrived, exited), old(nodes), nodes, i)
        decreases |nodes| - i
      {
        ghost var p, before, i0 := Polled(streams, pos, calls, arrived, exited), nodes, i;
        AdvanceKeeps(p, old(nodes), nodes, i);
        var node := nodes[i];
        if node.header.Some? {
          i := i + 1;
        } else {
          var k := |calls|;
          var h := Front(streams[node.tb], pos[node.tb], arrived(k));
          calls := calls + [node.tb];
          if h.None? && exited(k) {
            RemoveNode(i);
          } else {
            nodes := nodes[i := node.(header := h)];
            i := i + 1;
          }
        }
        assert After(p, before, i0, Polled(streams, pos, calls, arrived, exited), nodes, i);
      }
      Finished(Polled(streams, pos, calls, arrived, exited), old(nodes), nodes);
      AskedOnce(Polled(streams, pos, calls, arrived, exited), old(nodes), nodes);
    }

    method BuildHeap()
      requires Valid() && nodes != []
      modifies `nodes
      ensures Valid() && HeapFrom(nodes, 0) && Permuted(nodes, old(nodes)) && |nodes| == |old(nodes)|
    {
      var i: int := |nodes| / 2;
      while i >= 0
        invariant -1 <= i < |nodes| == |old(nodes)|
        invariant HeapFrom(nodes, (i + 1) as nat)
        invariant Permuted(nodes, old(nodes))
      {
        AdjustHeap(i as nat);
        i := i - 1;
      }
      PermutedMembers(nodes, old(nodes));
      PermutedDistinct(nodes, old(nodes));
    }

    /** Logs the root's message, loads the next one of its queue and lets the root sink. */
    method LogRoot(arrived: bool)
      requires Valid() && nodes != [] && HeapFrom(nodes, 0) && nodes[0].header.Some?
      modifies this
      ensures Valid() && HeapFrom(nodes, 0)
      ensures var root := old(nodes)[0];
        && root.tb < |streams| && root.tb < |old(pos)|
        && log == old(log) + [Entry(root.tb, root.header.value)]
        && pos == old(pos)[root.tb := old(pos)[root.tb] + 1]
        && Permuted(nodes, old(nodes)[0 := root.(header := Front(streams[root.tb], pos[root.tb], arrived))])
    {
      var root := nodes[0];
      assert root in nodes;
      PopKeepsLoaded(streams, pos, nodes, arrived);
      log := log + [Entry(root.tb, root.header.value)];
      pos := pos[root.tb := pos[root.tb] + 1];
      nodes := nodes[0 := root.(header := Front(streams[root.tb], pos[root.tb], arrived))];
      HeapBelow(old(nodes), nodes);
      ghost var loaded := nodes;
      AdjustHeap(0);
      PermutedMembers(nodes, loaded);
      PermutedDistinct(nodes, loaded);
    }

    /** Logs the oldest loaded message again and again, until there is none, its format is unknown or it is
        too young. `arrived(k)` says whether the k-th pop finds the next message already pushed. */
    method Merge(known: nat, cutoff: int, arrived: nat -> bool) returns (ghost done: seq<Entry>)
      requires Valid() && nodes != [] && HeapFrom(nodes, 0)
      modifies this
      ensures Valid() && HeapFrom(nodes, 0) && Buffers(nodes) == Buffers(old(nodes))
      ensures log == old(log) + done && Merged(streams, old(pos), pos, done, known, cutoff)
      ensures SortedStreams(streams) ==> InOrder(done, nodes)
      ensures Carried(streams, pos, done, arrived, old(nodes), nodes)
      ensures Stopped(nodes, known, cutoff) && OldOnesLogged(old(nodes), done, nodes, known, cutoff)
    {
      hide Carried, Merged, InOrder, Stopped, OldOnesLogged, HeapFrom, Buffers, Permuted, Left;
      done := [];
      var k := 0;
      LeftNonNegative(streams, pos);
      NothingCarried(streams, pos, arrived, nodes);
      NothingInOrder(nodes);
      NothingMerged(streams, pos, known, cutoff);
      while true
        invariant k == |done| && Carried(streams, pos, done, arrived, old(nodes), nodes)
        invariant Valid() && nodes != [] && HeapFrom(nodes, 0) && Buffers(nodes) == Buffers(old(nodes))
        invariant log == old(log) + done && Merged(streams, old(pos), pos, done, known, cutoff)
        invariant SortedStreams(streams) ==> InOrder(done, nodes)
        invariant Left(streams, pos) >= 0
        decreases Left(streams, pos)
      {
        var h := nodes[0].header;
        if h.None? || h.value.logId >= known || h.value.ts >= cutoff {
          StopsProperly(nodes, known, cutoff);
          LogsOldOnes(streams, old(pos), pos, done, known, cutoff, arrived, old(nodes), nodes);
          break;
        }
        ghost var pos0, ns := pos, nodes;
        assert ns[0] in ns;
        LogRoot(arrived(k));
        OneRound(streams, old(pos), pos0, done, known, cutoff, ns, arrived(k), pos, nodes);
        CarryOne(streams, pos0, done, arrived, old(nodes), ns, Entry(ns[0].tb, h.value), pos, nodes);
        done := done + [Entry(ns[0].tb, h.value)];
        LeftNonNegative(streams, pos);
        k := k + 1;
      }
    }

    /** One poll. Its first part adds the buffers of new threads, which `added` lists. `calls` are the queues
        that the refresh asked, `refreshed` the nodes that it left, and `done` what the merge logged. */
    method Poll(added: seq<nat>, known: nat, cutoff: int, arrived: nat -> bool, exited: nat -> bool, later: nat -> bool)
      returns (ghost calls: seq<nat>, ghost refreshed: seq<Node>, ghost done: seq<Entry>)
      requires Valid()
      requires (forall tb :: tb in added ==> tb < |streams| && tb !in Buffers(nodes))
      requires forall i, j :: 0 <= i < j < |added| ==> added[i] != added[j]
      modifies this
      ensures Valid()
      ensures log == old(log) + done && Merged(streams, old(pos), pos, done, known, cutoff)
      ensures SortedStreams(streams) ==> InOrder(done, nodes)
      ensures AllRefreshed(Polled(streams, old(pos), calls, arrived, exited), old(nodes) + Unasked(added), refreshed)
      ensures ArrivedAreLoaded(Polled(streams, old(pos), calls, arrived, exited), refreshed)
      ensures DistinctBuffers(refreshed) && Carried(streams, pos, done, later, refreshed, nodes)
      ensures nodes != [] ==> Stopped(nodes, known, cutoff)
      ensures OldOnesLogged(refreshed, done, nodes, known, cutoff)
    {
      done := [];
      var i := 0;
      while i < |added|
        invariant i <= |added| && unchanged(`pos) && unchanged(`log)
        invariant nodes == old(nodes) + Unasked(added[..i])
        invariant Valid()
        invariant forall k :: i <= k < |added| ==> added[k] !in Buffers(nodes)
      {
        assert added[i] in added;
        AddBuffer(streams, pos, nodes, added[i]);
        nodes := nodes + [Node(added[i], None)];
        i := i + 1;
        assert Unasked(added[..i]) == Unasked(added[..i - 1]) + [Node(added[i - 1], None)];
      }
      assert added[..i] == added;
      calls := Refresh(arrived, exited);
      refreshed := nodes;
      NothingMerged(streams, pos, known, cutoff);
      NothingCarried(streams, pos, later, nodes);
      if nodes == [] {
        return;
      }
      BuildHeap();
      ghost var heap := nodes;
      done := Merge(known, cutoff, later);
      CarryPermuted(streams, pos, done, later, refreshed, heap, nodes);
      PermutedMembers(heap, refreshed);
    }
  }

  /** Nodes of threads that have just been added. */
  function Unasked(added: seq<nat>): seq<Node> {
    seq(|added|, i requires 0 <= i < |added| => Node(added[i], None))
  }

  lemma AddBuffer(streams: seq<seq<Msg>>, pos: seq<nat>, ns: seq<Node>, tb: nat)
    requires AllLoaded(streams, pos, ns) && DistinctBuffers(ns)
    requires tb < |streams| == |pos| && tb !in Buffers(ns) && pos[tb] <= |streams[tb]|
    ensures AllLoaded(streams, pos, ns + [Node(tb, None)]) && DistinctBuffers(ns + [Node(tb, None)])
    ensures Buffers(ns + [Node(tb, None)]) == Buffers(ns) + {tb}
  {
    forall i | 0 <= i < |ns| ensures ns[i].tb != tb {
      assert ns[i] in ns;
    }
  }

  lemma NothingMerged(streams: seq<seq<Msg>>, pos: seq<nat>, known: nat, cutoff: int)
    requires |streams| == |pos| && forall tb :: 0 <= tb < |pos| ==> pos[tb] <= |streams[tb]|
    ensures Merged(streams, pos, pos, [], known, cutoff)
  {
  }

  lemma InOrderPermuted(done: seq<Entry>, a: seq<Node>, b: seq<Node>)
    requires Permuted(a, b) && InOrder(done, b)
    ensures InOrder(done, a)
  {
    PermutedMembers(a, b);
  }

  lemma BuffersKept(ns: seq<Node>, h: Option<Msg>, ns': seq<Node>)
    requires ns != [] && Permuted(ns', ns[0 := ns[0].(header := h)])
    ensures ns' != [] && Buffers(ns') == Buffers(ns)
  {
    SameBuffers(ns, 0, h);
    PermutedMembers(ns', ns[0 := ns[0].(header := h)]);
  }

  /** What logging the root does to the three accounts of a merge. */
  lemma OneRound(streams: seq<seq<Msg>>, start: seq<nat>, pos: seq<nat>, done: seq<Entry>, known: nat, cutoff: int,
                 ns: seq<Node>, arrived: bool, pos': seq<nat>, ns': seq<Node>)
    requires Merged(streams, start, pos, done, known, cutoff)
    requires ns != [] && HeapFrom(ns, 0) && Loaded(streams, pos, ns[0])
    requires ns[0].header.Some? && ns[0].header.value.ts < cutoff && ns[0].header.value.logId < known
    requires SortedStreams(streams) ==> InOrder(done, ns)
    requires var tb := ns[0].tb;
      && pos' == pos[tb := pos[tb] + 1]
      && Permuted(ns', ns[0 := ns[0].(header := Front(streams[tb], pos'[tb], arrived))])
    ensures Merged(streams, start, pos', done + [Entry(ns[0].tb, ns[0].header.value)], known, cutoff)
    ensures Left(streams, pos') == Left(streams, pos) - 1
    ensures ns' != [] && Buffers(ns') == Buffers(ns)
    ensures SortedStreams(streams) ==> InOrder(done + [Entry(ns[0].tb, ns[0].header.value)], ns')
  {
    hide Merged, InOrder, HeapFrom, Permuted;
    var tb := ns[0].tb;
    var h := Front(streams[tb], pos'[tb], arrived);
    LogOne(streams, start, pos, done, known, cutoff, ns[0]);
    LeftShrinks(streams, pos, tb);
    BuffersKept(ns, h, ns');
    if SortedStreams(streams) {
      StaysInOrder(streams, pos, done, ns, h);
      InOrderPermuted(done + [Entry(tb, ns[0].header.value)], ns', ns[0 := ns[0].(header := h)]);
    }
  }

  lemma HeapBelow(before: seq<Node>, ns: seq<Node>)
    requires before != [] && HeapFrom(before, 0) && ns != [] && ns == before[0 := ns[0]]
    ensures HeapFrom(ns, 1)
  {
    forall j | 1 <= j < |ns| ensures HeapAt(ns, j) {
      assert HeapAt(before, j);
    }
  }
}
