/** The list of per-thread data that asynchronous sockets share,
    `InitAsyncSocketExInstance` and `FreeAsyncSocketExInstance` in
    `xproto/AsyncSocketEx.cpp`. */
module ThreadRegistry {
  import opened Common

  type ThreadId = nat

  datatype Entry = Entry(thread: ThreadId, count: nat)

  /** A list node together with the thread data it owns: the two are made and
      deleted together. The helper window is left out. */
  class ThreadNode {
    var pNext: ThreadNode?
    var nInstanceCount: nat
    const nThreadId: ThreadId

    constructor (next: ThreadNode?, thread: ThreadId, count: nat)
      ensures pNext == next && nThreadId == thread && nInstanceCount == count
    {
      pNext, nThreadId, nInstanceCount := next, thread, count;
    }
  }

  class AsyncSocket {
    var local: ThreadNode?

    constructor ()
      ensures local == null
    {
      local := null;
    }
  }

  // ------------------------------------------------------------ specification

  /** The entries in list order, and the thread on which each live socket was
      initialised. */
  datatype Registry = Registry(entries: seq<Entry>, live: map<AsyncSocket, ThreadId>)

  function Find(entries: seq<Entry>, thread: ThreadId): (k: nat)
    ensures k <= |entries|
    ensures k < |entries| ==> entries[k].thread == thread
    ensures forall i :: 0 <= i < k ==> entries[i].thread != thread
  {
    if |entries| == 0 || entries[0].thread == thread then 0 else 1 + Find(entries[1..], thread)
  }

  function Init(r: Registry, s: AsyncSocket, thread: ThreadId): Registry {
    if s in r.live then r
    else
      var k := Find(r.entries, thread);
      var entries := if k < |r.entries| then r.entries[k := Entry(thread, r.entries[k].count + 1)]
                     else [Entry(thread, 1)] + r.entries;
      Registry(entries, r.live[s := thread])
  }

  function Free(r: Registry, s: AsyncSocket): Registry {
    if s !in r.live then r
    else
      var k := Find(r.entries, r.live[s]);
      if k == |r.entries| then r
      else
        var e := r.entries[k];
        Registry(if e.count <= 1 then Without(r.entries, k) else r.entries[k := e.(count := e.count - 1)], r.live - {s})
  }

  /** The live sockets initialised on one thread. */
  function On(live: map<AsyncSocket, ThreadId>, thread: ThreadId): set<AsyncSocket> {
    set s | s in live && live[s] == thread
  }

  ghost predicate OnePerThread(entries: seq<Entry>) {
    forall i, j :: 0 <= i < j < |entries| ==> entries[i].thread != entries[j].thread
  }

  /** The instance count recorded for a thread, 0 without an entry. */
  function CountOf(entries: seq<Entry>, thread: ThreadId): nat {
    var k := Find(entries, thread);
    if k < |entries| then entries[k].count else 0
  }

  /** At most one entry per thread, every entry counts something, and what is
      recorded for each thread is the number of its live sockets. */
  ghost predicate Inv(r: Registry) {
    && OnePerThread(r.entries)
    && (forall i :: 0 <= i < |r.entries| ==> r.entries[i].count > 0)
    && (forall thread :: CountOf(r.entries, thread) == |On(r.live, thread)|)
  }

  lemma FindUpdated(entries: seq<Entry>, k: nat, count: nat)
    requires OnePerThread(entries) && k < |entries|
    ensures var after := entries[k := Entry(entries[k].thread, count)];
            && OnePerThread(after)
            && (forall x :: Find(after, x) == Find(entries, x))
            && (forall x :: CountOf(after, x) == if x == entries[k].thread then count else CountOf(entries, x))
  {
    var after := entries[k := Entry(entries[k].thread, count)];
    forall x ensures Find(after, x) == Find(entries, x) {
      FindIs(after, x, Find(entries, x));
    }
  }

  lemma FindIs(entries: seq<Entry>, x: ThreadId, k: nat)
    requires k <= |entries| && (k < |entries| ==> entries[k].thread == x)
    requires forall i :: 0 <= i < k ==> entries[i].thread != x
    ensures Find(entries, x) == k
  {
  }

  lemma FindPrepended(entries: seq<Entry>, e: Entry)
    requires OnePerThread(entries) && Find(entries, e.thread) == |entries|
    ensures var after := [e] + entries;
            && OnePerThread(after)
            && (forall x :: Find(after, x) == if x == e.thread then 0 else Find(entries, x) + 1)
            && (forall x :: CountOf(after, x) == if x == e.thread then e.count else CountOf(entries, x))
  {
    assert ([e] + entries)[1..] == entries;
  }

  lemma FindWithout(entries: seq<Entry>, k: nat)
    requires OnePerThread(entries) && k < |entries|
    ensures OnePerThread(Without(entries, k))
    ensures forall x :: CountOf(Without(entries, k), x) == if x == entries[k].thread then 0 else CountOf(entries, x)
  {
    ThreadsWithout(entries, k);
    forall x ensures CountOf(Without(entries, k), x) == if x == entries[k].thread then 0 else CountOf(entries, x) {
      FindWithoutOne(entries, k, x);
    }
  }

  lemma EntryWithout(entries: seq<Entry>, k: nat, i: nat)
    requires k < |entries| && i + 1 < |entries|
    ensures Without(entries, k)[i] == entries[if i < k then i else i + 1]
  {
  }

  lemma ThreadsWithout(entries: seq<Entry>, k: nat)
    requires OnePerThread(entries) && k < |entries|
    ensures OnePerThread(Without(entries, k))
  {
    var after := Without(entries, k);
    forall i, j | 0 <= i < j < |after| ensures after[i].thread != after[j].thread {
      EntryWithout(entries, k, i);
      EntryWithout(entries, k, j);
    }
  }

  lemma FindWithoutOne(entries: seq<Entry>, k: nat, x: ThreadId)
    requires OnePerThread(entries) && k < |entries|
    ensures CountOf(Without(entries, k), x) == if x == entries[k].thread then 0 else CountOf(entries, x)
  {
    var after, j := Without(entries, k), Find(entries, x);
    var f := if j == k || j == |entries| then |after| else if j < k then j else j - 1;
    forall i | 0 <= i < f ensures after[i].thread != x {
      EntryWithout(entries, k, i);
    }
    if f < |after| {
      EntryWithout(entries, k, f);
    }
    FindIs(after, x, f);
    FindIs(entries, entries[k].thread, k);
  }

  lemma OnAfterInit(live: map<AsyncSocket, ThreadId>, s: AsyncSocket, thread: ThreadId, other: ThreadId)
    requires s !in live
    ensures |On(live[s := thread], other)| == |On(live, other)| + if other == thread then 1 else 0
  {
    var after := On(live[s := thread], other);
    if other == thread {
      assert after == On(live, other) + {s};
    } else {
      assert after == On(live, other);
    }
  }

  lemma OnAfterFree(live: map<AsyncSocket, ThreadId>, s: AsyncSocket, other: ThreadId)
    requires s in live
    ensures |On(live - {s}, other)| == |On(live, other)| - if other == live[s] then 1 else 0
  {
    var after := On(live - {s}, other);
    if other == live[s] {
      assert On(live, other) == after + {s};
    } else {
      assert after == On(live, other);
    }
  }

  /** The thread of a live socket has an entry. */
  lemma LiveIsListed(r: Registry, s: AsyncSocket)
    requires Inv(r) && s in r.live
    ensures Find(r.entries, r.live[s]) < |r.entries|
  {
    assert s in On(r.live, r.live[s]);
    assert CountOf(r.entries, r.live[s]) > 0;
  }

  lemma InitKeepsInv(r: Registry, s: AsyncSocket, thread: ThreadId)
    requires Inv(r)
    ensures Inv(Init(r, s, thread))
  {
    if s !in r.live {
      var k := Find(r.entries, thread);
      if k < |r.entries| {
        FindUpdated(r.entries, k, r.entries[k].count + 1);
      } else {
        FindPrepended(r.entries, Entry(thread, 1));
      }
      var t := Init(r, s, thread);
      forall x ensures CountOf(t.entries, x) == |On(t.live, x)| {
        OnAfterInit(r.live, s, thread, x);
        assert CountOf(r.entries, x) == |On(r.live, x)|;
      }
    }
  }

  lemma FreeKeepsInv(r: Registry, s: AsyncSocket)
    requires Inv(r)
    ensures Inv(Free(r, s))
  {
    if s in r.live {
      LiveIsListed(r, s);
      var k := Find(r.entries, r.live[s]);
      if r.entries[k].count == 1 {
        FindWithout(r.entries, k);
      } else {
        FindUpdated(r.entries, k, r.entries[k].count - 1);
      }
      var t := Free(r, s);
      forall x ensures CountOf(t.entries, x) == |On(t.live, x)| {
        OnAfterFree(r.live, s, x);
        assert CountOf(r.entries, x) == |On(r.live, x)|;
      }
    }
  }

  lemma LastOnThread(r: Registry, s: AsyncSocket, k: nat)
    requires Inv(r) && s in r.live && k == Find(r.entries, r.live[s]) < |r.entries| && r.entries[k].count == 1
    ensures On(r.live, r.live[s]) == {s}
    ensures forall u :: u in r.live && u != s ==> r.live[u] != r.live[s]
  {
    var on := On(r.live, r.live[s]);
    assert CountOf(r.entries, r.live[s]) == |on|;
    assert s in on && |on - {s}| == 0;
    forall u | u in r.live && u != s ensures r.live[u] != r.live[s] {
      assert u !in on - {s};
    }
  }

  /** Freeing counts one down and unlinks the entry when that leaves none. */
  lemma FreeIsLeaveOrUnlink(r: Registry, s: AsyncSocket, k: nat)
    requires Inv(r) && s in r.live && k == Find(r.entries, r.live[s]) < |r.entries|
    ensures r.entries[k].thread == r.live[s] && r.entries[k].count > 0
    ensures var left := r.entries[k := Entry(r.live[s], r.entries[k].count - 1)];
            if left[k].count == 0 then
              && Free(r, s) == Registry(Without(left, k), r.live - {s})
              && forall u :: u in r.live - {s} ==> r.live[u] != left[k].thread
            else Free(r, s) == Registry(left, r.live - {s})
  {
    var left := r.entries[k := Entry(r.live[s], r.entries[k].count - 1)];
    if left[k].count == 0 {
      LastOnThread(r, s, k);
      assert Without(left, k) == Without(r.entries, k);
    }
  }

  datatype Op = Create(socket: AsyncSocket, thread: ThreadId) | Close(socket: AsyncSocket)

  function RunOps(ops: seq<Op>): Registry {
    if |ops| == 0 then Registry([], map[])
    else
      var r := RunOps(ops[..|ops| - 1]);
      match ops[|ops| - 1]
      case Create(s, thread) => Init(r, s, thread)
      case Close(s) => Free(r, s)
  }

  /** Under any run of socket creations and closings there is at most one
      entry per thread, and it records the number of live sockets of its
      thread, which is positive. */
  lemma {:induction false} RegistryCountsLiveSockets(ops: seq<Op>)
    ensures Inv(RunOps(ops))
  {
    if |ops| == 0 {
    } else {
      RegistryCountsLiveSockets(ops[..|ops| - 1]);
      var r := RunOps(ops[..|ops| - 1]);
      match ops[|ops| - 1]
      case Create(s, thread) => InitKeepsInv(r, s, thread);
      case Close(s) => FreeKeepsInv(r, s);
    }
  }

  /** Freeing a socket removes the entry of its thread exactly when it was the
      last live socket there, and leaves every other entry as it was. */
  lemma FreeingLastUnlinksOnlyIt(r: Registry, s: AsyncSocket)
    requires Inv(r) && s in r.live
    ensures var (k, t) := (Find(r.entries, r.live[s]), Free(r, s));
            && k < |r.entries|
            && (if On(r.live, r.live[s]) == {s} then t.entries == r.entries[..k] + r.entries[k + 1..]
                else t.entries == r.entries[..k] + [Entry(r.live[s], |On(r.live, r.live[s])| - 1)] + r.entries[k + 1..])
  {
    LiveIsListed(r, s);
    var k, t := Find(r.entries, r.live[s]), Free(r, s);
    var on := On(r.live, r.live[s]);
    assert CountOf(r.entries, r.live[s]) == |on|;
    assert s in on;
    if r.entries[k].count == 1 {
      LastOnThread(r, s, k);
    } else {
      assert |{s}| == 1;
      assert t.entries == r.entries[..k] + [t.entries[k]] + r.entries[k + 1..];
    }
  }

  // ------------------------------------------------ what the operations say

  /** A first initialisation makes the socket live on its thread and changes no
      other socket or entry; a repeated one changes nothing. */
  lemma InitCountsOnOwnThread(r: Registry, s: AsyncSocket, thread: ThreadId, other: ThreadId)
    requires Inv(r)
    ensures var t := Init(r, s, thread);
            && t.live == (if s in r.live then r.live else r.live[s := thread])
            && CountOf(t.entries, other)
               == CountOf(r.entries, other) + if s !in r.live && other == thread then 1 else 0
  {
    if s in r.live {
    } else {
      var k := Find(r.entries, thread);
      if k < |r.entries| {
        FindUpdated(r.entries, k, r.entries[k].count + 1);
      } else {
        FindPrepended(r.entries, Entry(thread, 1));
      }
    }
  }

  /** Freeing takes the socket out and counts one down on its thread. */
  lemma FreeCountsOnOwnThread(r: Registry, s: AsyncSocket, other: ThreadId)
    requires Inv(r)
    ensures var t := Free(r, s);
            && t.live == r.live - {s}
            && CountOf(t.entries, other)
               == CountOf(r.entries, other) - if s in r.live && other == r.live[s] then 1 else 0
  {
    if s in r.live {
      FreeKeepsInv(r, s);
      LiveIsListed(r, s);
      OnAfterFree(r.live, s, other);
      assert CountOf(Free(r, s).entries, other) == |On(r.live - {s}, other)|;
      assert CountOf(r.entries, other) == |On(r.live, other)|;
    } else {
      assert r.live - {s} == r.live;
    }
  }

  /** From the operations alone: the thread on which a socket is live, the one
      of its first creation since it was last closed. */
  function LiveOn(ops: seq<Op>, s: AsyncSocket): Option<ThreadId> {
    if |ops| == 0 then None
    else
      var before := LiveOn(ops[..|ops| - 1], s);
      match ops[|ops| - 1]
      case Create(u, thread) => if u == s && before == None then Some(thread) else before
      case Close(u) => if u == s then None else before
  }

  /** Under any run exactly the sockets that the operations say are live, each
      on the thread that they say. */
  lemma {:induction false} LiveIsAsTheOperationsSay(ops: seq<Op>, s: AsyncSocket)
    ensures var live := RunOps(ops).live;
            LiveOn(ops, s) == if s in live then Some(live[s]) else None
  {
    if |ops| == 0 {
    } else {
      var front := ops[..|ops| - 1];
      var r := RunOps(front);
      LiveIsAsTheOperationsSay(front, s);
      RegistryCountsLiveSockets(front);
      match ops[|ops| - 1]
      case Create(u, thread) => InitCountsOnOwnThread(r, u, thread, thread);
      case Close(u) => FreeCountsOnOwnThread(r, u, 0);
    }
  }

  /** So the node of a thread counts the sockets created on it and not closed
      since: the one socket more or less that an operation makes live there. */
  lemma NodeCountsCreations(ops: seq<Op>, thread: ThreadId)
    ensures CountOf(RunOps(ops).entries, thread) == |On(RunOps(ops).live, thread)|
    ensures forall s :: s in On(RunOps(ops).live, thread) <==> LiveOn(ops, s) == Some(thread)
  {
    RegistryCountsLiveSockets(ops);
    forall s ensures s in On(RunOps(ops).live, thread) <==> LiveOn(ops, s) == Some(thread) {
      LiveIsAsTheOperationsSay(ops, s);
    }
  }

  // -------------------------------------------------------------- the list

  /** The static list of all threads' data. `nodes`, `entries` and `live`
      describe it: the nodes in order, what they record, and the sockets that
      are alive. */
  class ThreadDataList {
    var head: ThreadNode?
    ghost var nodes: seq<ThreadNode>
    ghost var entries: seq<Entry>
    ghost var live: map<AsyncSocket, ThreadId>

    ghost function View(): Registry
      reads this
    {
      Registry(entries, live)
    }

    /** The node at position `k`, null at the end of the list. */
    static ghost function NodeAt(nodes: seq<ThreadNode>, k: nat): ThreadNode? {
      if k < |nodes| then nodes[k] else null
    }

    ghost predicate Chained()
      reads `head, `nodes, nodes`pNext
    {
      && head == NodeAt(nodes, 0)
      && Distinct(nodes)
      && (forall i :: 0 <= i < |nodes| ==> nodes[i].pNext == NodeAt(nodes, i + 1))
    }

    ghost predicate Counted()
      reads `nodes, `entries, nodes`nInstanceCount
    {
      && |nodes| == |entries|
      && (forall i :: 0 <= i < |nodes| ==> Entry(nodes[i].nThreadId, nodes[i].nInstanceCount) == entries[i])
    }

    ghost predicate Homed()
      reads `nodes, `live, live.Keys`local
    {
      forall s :: s in live ==> s.local != null && s.local.nThreadId == live[s] && s.local in nodes
    }

    ghost predicate Valid()
      reads this, nodes, live.Keys
    {
      Chained() && Counted() && Homed() && Inv(View())
    }

    constructor ()
      ensures Valid() && View() == Registry([], map[])
    {
      head, nodes, entries, live := null, [], [], map[];
    }

    method InitInstance(s: AsyncSocket, id: ThreadId)
      requires Valid()
      requires s.local != null <==> s in live
      modifies this, nodes`nInstanceCount, s
      ensures Valid()
      ensures View() == Init(old(View()), s, id)
    {
      if s.local != null {
        return;
      }
      InitKeepsInv(View(), s, id);
      ghost var k;
      var prev, p;
      prev, p, k := Locate(id);
      if p != null {
        Share(s, p, k);
      } else {
        Prepend(s, id);
      }
    }

    /** Walks the list to the node of a thread; `prev` trails one behind. */
    method Locate(id: ThreadId) returns (prev: ThreadNode?, p: ThreadNode?, ghost k: nat)
      requires Chained() && Counted()
      ensures k == Find(entries, id) <= |nodes|
      ensures p == NodeAt(nodes, k)
      ensures prev == if k == 0 then null else nodes[k - 1]
    {
      prev, p, k := null, head, 0;
      while p != null
        invariant k <= |nodes| && p == NodeAt(nodes, k)
        invariant prev == if k == 0 then null else nodes[k - 1]
        invariant forall i :: 0 <= i < k ==> entries[i].thread != id
        decreases |nodes| - k
      {
        if p.nThreadId == id {
          break;
        }
        prev := p;
        p := p.pNext;
        k := k + 1;
      }
      FindIs(entries, id, k);
    }

    /** One more socket on a thread that has a node, at position `k`. */
    method Share(s: AsyncSocket, p: ThreadNode, ghost k: nat)
      requires Chained() && Counted() && Homed() && s !in live
      requires k < |nodes| && nodes[k] == p
      modifies `entries, `live, p`nInstanceCount, s
      ensures Chained() && Counted() && Homed()
      ensures entries == old(entries)[k := Entry(p.nThreadId, old(entries)[k].count + 1)]
      ensures live == old(live)[s := p.nThreadId]
    {
      Recount(p, k, 1);
      Settle(s, p);
    }

    /** The socket points to its thread's node from now on. */
    method Settle(s: AsyncSocket, p: ThreadNode)
      requires Homed() && s !in live && p in nodes
      modifies `live, s
      ensures Homed() && live == old(live)[s := p.nThreadId]
    {
      s.local := p;
      live := live[s := p.nThreadId];
    }

    /** One instance more or less on the node at position `k`. */
    method Recount(p: ThreadNode, ghost k: nat, change: int)
      requires Chained() && Counted() && k < |nodes| && nodes[k] == p && entries[k].count + change >= 0
      modifies `entries, p`nInstanceCount
      ensures Chained() && Counted()
      ensures entries == old(entries)[k := Entry(p.nThreadId, old(entries)[k].count + change)]
    {
      assert Entry(p.nThreadId, p.nInstanceCount) == entries[k];
      p.nInstanceCount := p.nInstanceCount + change;
      entries := entries[k := Entry(p.nThreadId, p.nInstanceCount)];
    }

    /** The first socket of a thread puts a new node in front. */
    method Prepend(s: AsyncSocket, id: ThreadId)
      requires Chained() && Counted() && Homed() && s !in live
      modifies this, s
      ensures Chained() && Counted() && Homed()
      ensures View() == Registry([Entry(id, 1)] + old(entries), old(live)[s := id])
    {
      var node := new ThreadNode(head, id, 1);
      head := node;
      s.local := node;
      nodes, entries, live := [node] + nodes, [Entry(id, 1)] + entries, live[s := id];
      forall i | 0 < i < |nodes| ensures nodes[i].pNext == NodeAt(nodes, i + 1) {
        assert nodes[i] == old(nodes)[i - 1];
      }
    }

    method FreeInstance(s: AsyncSocket)
      requires Valid()
      requires s.local != null <==> s in live
      modifies this, nodes
      ensures Valid()
      ensures View() == Free(old(View()), s)
    {
      if s.local == null {
        return;
      }
      ghost var k;
      var prev, p;
      prev, p, k := Locate(s.local.nThreadId);
      Departing(s, k);
      Depart(s, prev, p, k, entries[k := Entry(p.nThreadId, entries[k].count - 1)]);
    }

    /** Counts the socket out and unlinks its node if it was the last one. */
    method Depart(s: AsyncSocket, prev: ThreadNode?, p: ThreadNode, ghost k: nat, ghost left: seq<Entry>)
      requires Chained() && Counted() && Homed() && s in live && s.local == p
      requires k < |nodes| && nodes[k] == p && prev == (if k == 0 then null else nodes[k - 1])
      requires entries[k].count > 0 && left == entries[k := Entry(p.nThreadId, entries[k].count - 1)]
      requires left[k].count == 0 ==> forall u :: u in live && u != s ==> live[u] != p.nThreadId
      modifies this, p, prev
      ensures Chained() && Counted() && Homed()
      ensures entries == if left[k].count == 0 then Without(left, k) else left
      ensures live == old(live) - {s}
    {
      Leave(s, k);
      if p.nInstanceCount == 0 {
        Unlink(prev, p, k);
      }
    }

    /** One socket less on its thread. */
    method Leave(s: AsyncSocket, ghost k: nat)
      requires Chained() && Counted() && Homed() && s in live && s.local != null
      requires k < |nodes| && nodes[k] == s.local && entries[k].count > 0
      modifies `entries, `live, s.local`nInstanceCount
      ensures Chained() && Counted() && Homed()
      ensures entries == old(entries)[k := Entry(s.local.nThreadId, old(entries)[k].count - 1)]
      ensures live == old(live) - {s}
    {
      Recount(s.local, k, -1);
      live := live - {s};
    }

    /** The node found for a live socket's thread is the one it points to. */
    lemma OwnEntry(s: AsyncSocket, k: nat)
      requires Valid() && s in live && s.local != null && k == Find(entries, s.local.nThreadId)
      ensures k < |nodes| && nodes[k] == s.local
    {
      var j :| 0 <= j < |nodes| && nodes[j] == s.local;
      FindIs(entries, entries[j].thread, j);
    }

    /** What freeing a live socket comes to, for its node at position `k`. */
    lemma Departing(s: AsyncSocket, k: nat)
      requires Valid() && s in live && s.local != null && k == Find(entries, s.local.nThreadId)
      ensures k < |nodes| && nodes[k] == s.local && entries[k].count > 0
      ensures var left := entries[k := Entry(s.local.nThreadId, entries[k].count - 1)];
              && (left[k].count == 0 ==> forall u :: u in live && u != s ==> live[u] != s.local.nThreadId)
              && Free(View(), s) == Registry(if left[k].count == 0 then Without(left, k) else left, live - {s})
              && Inv(Free(View(), s))
    {
      OwnEntry(s, k);
      FreeKeepsInv(View(), s);
      FreeIsLeaveOrUnlink(View(), s, k);
    }

    /** Takes the node at position `k` out of the list; no live socket points
        to it any more. */
    method Unlink(prev: ThreadNode?, p: ThreadNode, ghost k: nat)
      requires Chained() && Counted() && Homed()
      requires k < |nodes| && p == nodes[k] && prev == if k == 0 then null else nodes[k - 1]
      requires forall u :: u in live ==> live[u] != entries[k].thread
      modifies `head, `nodes, `entries, prev
      ensures Chained() && Counted() && Homed()
      ensures View() == Registry(Without(old(entries), k), old(live))
    {
      WithoutKeeps(nodes, k);
      Skip(prev, p, k);
      entries := Without(entries, k);
    }

    method Skip(prev: ThreadNode?, p: ThreadNode, ghost k: nat)
      requires Chained()
      requires k < |nodes| && p == nodes[k] && prev == if k == 0 then null else nodes[k - 1]
      modifies `head, `nodes, prev
      ensures Chained() && nodes == Without(old(nodes), k)
      ensures forall n :: n in nodes ==> n.nInstanceCount == old(n.nInstanceCount)
    {
      WithoutKeeps(nodes, k);
      if prev != null {
        prev.pNext := p.pNext;
      } else {
        head := p.pNext;
      }
      ghost var before := nodes;
      nodes := Without(nodes, k);
      forall i | 0 <= i < |nodes| ensures nodes[i].pNext == NodeAt(nodes, i + 1) {
        assert nodes[i] == before[if i < k then i else i + 1];
      }
    }
  }
}
