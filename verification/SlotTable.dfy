/** The socket slots of one helper window, `CAsyncSocketExHelperWindow` in
    `xproto/AsyncSocketEx.cpp`. */
module SlotTable {
  import opened Common

  const WM_SOCKETEX_NOTIFY: nat := 0x400 + 2
  const MAX_SOCKETS: nat := 0xBFFF - WM_SOCKETEX_NOTIFY + 1
  const CHUNK: nat := 512
  const SPARE: nat := 10

  /** `index` is -1 while the socket is not attached. */
  class Socket {
    var index: int

    constructor ()
      ensures index == -1
    {
      index := -1;
    }
  }

  /** The abstract state: the slots, where the next scan starts, the counter. */
  datatype Table = Table(slots: seq<Socket?>, pos: nat, count: nat)

  // ------------------------------------------------------------ specification

  function Occupied(slots: seq<Socket?>): (n: nat)
    ensures n <= |slots|
  {
    if |slots| == 0 then 0 else (if slots[0] == null then 0 else 1) + Occupied(slots[1..])
  }

  function FreeSlots(n: nat): (r: seq<Socket?>)
    ensures |r| == n && forall i :: 0 <= i < n ==> r[i] == null
  {
    if n == 0 then [] else FreeSlots(n - 1) + [null]
  }

  function Grown(t: Table): seq<Socket?> {
    if t.count + SPARE >= |t.slots| then
      var size := if |t.slots| + CHUNK > MAX_SOCKETS then MAX_SOCKETS else |t.slots| + CHUNK;
      if size > |t.slots| then t.slots + FreeSlots(size - |t.slots|) else t.slots
    else t.slots
  }

  /** Position `d` places after `pos` on a circle of `n` slots. */
  function At(pos: nat, d: nat, n: nat): (k: nat)
    requires pos < n && d < n
    ensures k < n
  {
    (pos + d) % n
  }

  /** How far from `pos` the scan finds a free slot, the number of slots if
      there is none. */
  function FreeFrom(slots: seq<Socket?>, pos: nat, d: nat): (r: nat)
    requires pos < |slots| && d <= |slots|
    ensures d <= r <= |slots|
    ensures r < |slots| ==> slots[At(pos, r, |slots|)] == null
    ensures forall e :: d <= e < r ==> slots[At(pos, e, |slots|)] != null
    decreases |slots| - d
  {
    if d == |slots| || slots[At(pos, d, |slots|)] == null then d else FreeFrom(slots, pos, d + 1)
  }

  /** Puts a socket into the first free slot on the circle. */
  function Placed(t: Table, s: Socket): (r: (Table, Option<nat>))
    requires t.pos < |t.slots|
  {
    var d := FreeFrom(t.slots, t.pos, 0);
    if d < |t.slots| then
      var k := At(t.pos, d, |t.slots|);
      (Table(t.slots[k := s], (k + 1) % |t.slots|, t.count + 1), Some(k))
    else (t, None)
  }

  /** Attaches a socket that is not attached yet. */
  function Add(t: Table, s: Socket): (r: (Table, Option<nat>))
    requires t.pos < |t.slots|
  {
    Placed(t.(slots := Grown(t)), s)
  }

  function Remove(t: Table, k: nat): Table
    requires k < |t.slots| && t.count > 0
  {
    t.(slots := t.slots[k := null], count := t.count - 1)
  }

  predicate Exact(t: Table) {
    && CHUNK <= |t.slots| <= MAX_SOCKETS
    && t.pos < |t.slots|
    && t.count == Occupied(t.slots)
  }

  const EMPTY: Table := Table(FreeSlots(CHUNK), 0, 0)

  // -------------------------------------------------------------- slot counts

  lemma {:induction false} OccupiedUpdate(slots: seq<Socket?>, k: nat, s: Socket?)
    requires k < |slots|
    ensures Occupied(slots[k := s])
            == Occupied(slots) - (if slots[k] == null then 0 else 1) + (if s == null then 0 else 1)
  {
    if k == 0 {
      assert slots[0 := s][1..] == slots[1..];
    } else {
      OccupiedUpdate(slots[1..], k - 1, s);
      assert slots[k := s][1..] == slots[1..][k - 1 := s];
    }
  }

  lemma {:induction false} OccupiedAppend(a: seq<Socket?>, b: seq<Socket?>)
    ensures Occupied(a + b) == Occupied(a) + Occupied(b)
  {
    if |a| == 0 {
      assert a + b == b;
    } else {
      assert (a + b)[1..] == a[1..] + b;
      OccupiedAppend(a[1..], b);
    }
  }

  lemma {:induction false} OccupiedNone(slots: seq<Socket?>)
    ensures (Occupied(slots) == 0) == (forall i :: 0 <= i < |slots| ==> slots[i] == null)
  {
    if |slots| == 0 {
    } else {
      OccupiedNone(slots[1..]);
    }
  }

  lemma {:induction false} FreeSlotExists(slots: seq<Socket?>) returns (k: nat)
    requires Occupied(slots) < |slots|
    ensures k < |slots| && slots[k] == null
  {
    if slots[0] == null {
      k := 0;
    } else {
      var j := FreeSlotExists(slots[1..]);
      k := j + 1;
    }
  }

  lemma {:induction false} FullHasNoFreeSlot(slots: seq<Socket?>, k: nat)
    requires k < |slots| && Occupied(slots) == |slots|
    ensures slots[k] != null
  {
    if k == 0 {
    } else {
      FullHasNoFreeSlot(slots[1..], k - 1);
    }
  }

  /** From any start, the circular scan passes every slot. */
  lemma CircleReaches(pos: nat, k: nat, n: nat) returns (d: nat)
    requires pos < n && k < n
    ensures d < n && At(pos, d, n) == k
  {
    d := if k >= pos then k - pos else k - pos + n;
    DivisionIsUnique(pos + d, n, if k >= pos then 0 else 1, k);
  }

  /** The scan finds a free slot, wherever it starts, exactly when one exists. */
  lemma ScanFindsFree(slots: seq<Socket?>, pos: nat)
    requires pos < |slots|
    ensures FreeFrom(slots, pos, 0) < |slots| <==> Occupied(slots) < |slots|
  {
    if Occupied(slots) < |slots| {
      var k := FreeSlotExists(slots);
      var d := CircleReaches(pos, k, |slots|);
    } else if FreeFrom(slots, pos, 0) < |slots| {
      FullHasNoFreeSlot(slots, At(pos, FreeFrom(slots, pos, 0), |slots|));
    }
  }

  // ------------------------------------------------------------ one operation

  lemma GrowthKeeps(t: Table)
    requires Exact(t)
    ensures var g := Grown(t);
            && |t.slots| <= |g| <= MAX_SOCKETS
            && g[..|t.slots|] == t.slots
            && (forall i :: |t.slots| <= i < |g| ==> g[i] == null)
            && Occupied(g) == t.count
            && (t.count == |g| ==> |g| == MAX_SOCKETS)
  {
    var g := Grown(t);
    var more := g[|t.slots|..];
    assert g == t.slots + more;
    OccupiedAppend(t.slots, more);
    OccupiedNone(more);
  }

  /** `AddSocket` fails only when all `MAX_SOCKETS` slots are taken; otherwise
      it fills a slot that was free and changes no other slot. */
  lemma AddFailsOnlyWhenFull(t: Table, s: Socket)
    requires Exact(t)
    ensures Exact(Add(t, s).0)
    ensures Add(t, s).1.None? <==> t.count == MAX_SOCKETS
    ensures Add(t, s).1.None? ==> Add(t, s).0 == t
    ensures Add(t, s).1.Some? ==>
              var (u, k) := (Add(t, s).0, Add(t, s).1.value);
              && k < |u.slots|
              && u.slots[k] == s
              && (k < |t.slots| ==> t.slots[k] == null)
              && (forall i :: 0 <= i < |t.slots| && i != k ==> u.slots[i] == t.slots[i])
              && (forall i :: |t.slots| <= i < |u.slots| && i != k ==> u.slots[i] == null)
              && u.count == t.count + 1
  {
    var g := Grown(t);
    GrowthKeeps(t);
    ScanFindsFree(g, t.pos);
    var d := FreeFrom(g, t.pos, 0);
    if d < |g| {
      OccupiedUpdate(g, At(t.pos, d, |g|), s);
      FreeSlotMeansNotFull(g, At(t.pos, d, |g|));
      assert forall i :: 0 <= i < |t.slots| ==> g[i] == g[..|t.slots|][i];
    } else {
      assert g[..|t.slots|] == g;
    }
  }

  lemma FreeSlotMeansNotFull(slots: seq<Socket?>, k: nat)
    requires k < |slots| && slots[k] == null
    ensures Occupied(slots) < |slots|
  {
    if Occupied(slots) == |slots| {
      FullHasNoFreeSlot(slots, k);
    }
  }

  // ------------------------------------------------------------ whole runs

  datatype Op = Attach(socket: Socket) | Detach(socket: Socket)

  /** The table together with the index each attached socket holds. */
  datatype Window = Window(table: Table, index: map<Socket, nat>)

  ghost predicate Inv(w: Window) {
    && Exact(w.table)
    && |w.index| == w.table.count
    && (forall s :: s in w.index ==> w.index[s] < |w.table.slots| && w.table.slots[w.index[s]] == s)
    && (forall i :: 0 <= i < |w.table.slots| && w.table.slots[i] != null ==>
          w.table.slots[i] in w.index && w.index[w.table.slots[i]] == i)
  }

  function Apply(w: Window, op: Op): (r: Window)
    requires Inv(w)
  {
    match op
    case Attach(s) =>
      if s in w.index then w
      else
        var (t, k) := Add(w.table, s);
        if k.None? then w.(table := t) else Window(t, w.index[s := k.value])
    case Detach(s) =>
      if s !in w.index then w
      else
        OccupiedAtLeastOne(w.table.slots, w.index[s]);
        Window(Remove(w.table, w.index[s]), w.index - {s})
  }

  lemma OccupiedAtLeastOne(slots: seq<Socket?>, k: nat)
    requires k < |slots| && slots[k] != null
    ensures Occupied(slots) >= 1
  {
    OccupiedNone(slots);
  }

  lemma AttachKeeps(w: Window, s: Socket)
    requires Inv(w) && s !in w.index
    ensures Inv(Apply(w, Attach(s)))
    ensures s in Apply(w, Attach(s)).index <==> |w.index| < MAX_SOCKETS
    ensures forall u :: u in w.index ==> u in Apply(w, Attach(s)).index && Apply(w, Attach(s)).index[u] == w.index[u]
  {
    AddFailsOnlyWhenFull(w.table, s);
    var (t, k) := Add(w.table, s);
    var v := Apply(w, Attach(s));
    if k.Some? {
      assert v.index.Keys == w.index.Keys + {s};
      forall i | 0 <= i < |t.slots| && t.slots[i] != null ensures t.slots[i] in v.index && v.index[t.slots[i]] == i {
        if i != k.value {
          assert t.slots[i] == w.table.slots[i];
        }
      }
      forall u | u in v.index ensures v.index[u] < |t.slots| && t.slots[v.index[u]] == u {
        if u != s {
          assert v.index[u] == w.index[u] && w.index[u] < |w.table.slots|;
        }
      }
    }
  }

  lemma DetachKeeps(w: Window, s: Socket)
    requires Inv(w) && s in w.index
    ensures Inv(Apply(w, Detach(s)))
  {
    var k := w.index[s];
    OccupiedAtLeastOne(w.table.slots, k);
    OccupiedUpdate(w.table.slots, k, null);
    var v := Apply(w, Detach(s));
    assert w.index.Keys == v.index.Keys + {s};
  }

  function RunOps(ops: seq<Op>): (w: Window)
    ensures Inv(w)
  {
    if |ops| == 0 then
      OccupiedNone(EMPTY.slots);
      Window(EMPTY, map[])
    else
      var before := RunOps(ops[..|ops| - 1]);
      var op := ops[|ops| - 1];
      ApplyKeeps(before, op);
      Apply(before, op)
  }

  lemma ApplyKeeps(w: Window, op: Op)
    requires Inv(w)
    ensures Inv(Apply(w, op))
  {
    match op
    case Attach(s) => if s !in w.index { AttachKeeps(w, s); }
    case Detach(s) => if s in w.index { DetachKeeps(w, s); }
  }

  /** Under any run of attaches and detaches the table is exact: the counter is
      the number of occupied slots and of attached sockets, and an attached
      socket's index names its own slot. */
  lemma RunsStayExact(ops: seq<Op>, s: Socket)
    ensures var w := RunOps(ops);
            && |w.index| == w.table.count == Occupied(w.table.slots)
            && (s in w.index <==> s in w.table.slots)
            && (s in w.index ==> w.index[s] < |w.table.slots| && w.table.slots[w.index[s]] == s)
  {
    var w := RunOps(ops);
    if s in w.table.slots {
      var i :| 0 <= i < |w.table.slots| && w.table.slots[i] == s;
    }
  }

  /** No operation moves a socket: an index given out stays the same until its
      own socket is detached. */
  lemma {:induction false} IndexIsStable(ops: seq<Op>, attached: nat, now: nat, s: Socket)
    requires attached <= now <= |ops|
    requires s in RunOps(ops[..attached]).index
    requires forall i :: attached <= i < now ==> ops[i] != Op.Detach(s)
    ensures s in RunOps(ops[..now]).index
    ensures RunOps(ops[..now]).index[s] == RunOps(ops[..attached]).index[s]
    decreases now
  {
    if attached < now {
      IndexIsStable(ops, attached, now - 1, s);
      RunOpsOneMore(ops, now - 1);
      ApplyStable(RunOps(ops[..now - 1]), ops[now - 1], s);
    }
  }

  lemma RunOpsOneMore(ops: seq<Op>, n: nat)
    requires n < |ops|
    ensures RunOps(ops[..n + 1]) == Apply(RunOps(ops[..n]), ops[n])
  {
    var all := ops[..n + 1];
    assert all[..|all| - 1] == ops[..n] && all[|all| - 1] == ops[n];
  }

  lemma ApplyStable(w: Window, op: Op, s: Socket)
    requires Inv(w) && s in w.index && op != Op.Detach(s)
    ensures s in Apply(w, op).index && Apply(w, op).index[s] == w.index[s]
  {
    if op.Attach? && op.socket !in w.index {
      AttachKeeps(w, op.socket);
    }
  }

  // ------------------------------------------------------ what the operations say

  /** Detaching empties exactly the socket's own slot and leaves the rest, also
      where the next scan starts. */
  lemma DetachTakesOut(w: Window, s: Socket)
    requires Inv(w) && s in w.index
    ensures var u := Apply(w, Detach(s));
            && u.index == w.index - {s}
            && u.table == Table(w.table.slots[w.index[s] := null], w.table.pos, w.table.count - 1)
  {
  }

  /** From the operations alone: whether a socket was attached last. */
  predicate AttachedBy(ops: seq<Op>, s: Socket) {
    if |ops| == 0 then false
    else
      match ops[|ops| - 1]
      case Attach(u) => u == s || AttachedBy(ops[..|ops| - 1], s)
      case Detach(u) => u != s && AttachedBy(ops[..|ops| - 1], s)
  }

  /** As long as there were no more operations than slots, exactly the sockets
      that they say are attached. */
  lemma {:induction false} AttachedIsAsTheOperationsSay(ops: seq<Op>, s: Socket)
    requires |ops| <= MAX_SOCKETS
    ensures |RunOps(ops).index| <= |ops|
    ensures s in RunOps(ops).index <==> AttachedBy(ops, s)
  {
    if |ops| == 0 {
    } else {
      var w := RunOps(ops[..|ops| - 1]);
      AttachedIsAsTheOperationsSay(ops[..|ops| - 1], s);
      match ops[|ops| - 1]
      case Attach(u) =>
        if u !in w.index {
          AttachIsEntered(w, u);
        }
      case Detach(u) =>
        if u in w.index {
          DetachTakesOut(w, u);
        }
    }
  }

  lemma AttachIsEntered(w: Window, u: Socket)
    requires Inv(w) && u !in w.index && |w.index| < MAX_SOCKETS
    ensures var v := Apply(w, Attach(u)).index;
            u in v && |v| == |w.index| + 1 && forall x :: x != u ==> (x in v <==> x in w.index)
  {
    AttachKeeps(w, u);
    var v := Apply(w, Attach(u)).index;
    assert v == w.index[u := v[u]];
    assert v.Keys == w.index.Keys + {u};
  }

  /** The table grows by 512 slots when fewer than eleven would be left free, up
      to the 48126 that window messages can tell apart. */
  lemma GrowsBy512(t: Table)
    requires Exact(t)
    ensures |Grown(t)|
            == if t.count + 10 < |t.slots| then |t.slots|
               else if |t.slots| + 512 <= 48126 then |t.slots| + 512 else 48126
  {
  }

  /** A slot given out last is the last to be given out again: freed at once, it
      is not what the next socket gets. */
  lemma FreedSlotWaits(t: Table, s: Socket, x: Socket)
    requires Exact(t) && t.count + 11 < |t.slots|
    ensures var (u, k) := Add(t, s);
            k.Some? && k.value < |u.slots| && u.count > 0
            && Add(Remove(u, k.value), x).1.Some? && Add(Remove(u, k.value), x).1 != k
  {
    AddFailsOnlyWhenFull(t, s);
    var (u, k) := Add(t, s);
    var n := |t.slots|;
    assert Grown(t) == t.slots && |u.slots| == n;
    var v := Remove(u, k.value);
    assert v.slots == t.slots;
    OccupiedUpdate(t.slots, k.value, s);
    var i := FreeSlotExists(t.slots[k.value := s]);
    FarthestIsLast(v.slots, k.value, i);
    assert Grown(v) == v.slots;
  }

  /** From the place after `k`, any other free slot is found before `k`. */
  lemma FarthestIsLast(slots: seq<Socket?>, k: nat, i: nat)
    requires k < |slots| && i < |slots| && i != k && slots[i] == null
    ensures var (n, pos) := (|slots|, (k + 1) % |slots|);
            FreeFrom(slots, pos, 0) < n && At(pos, FreeFrom(slots, pos, 0), n) != k
  {
    var n, pos := |slots|, (k + 1) % |slots|;
    var d := CircleReaches(pos, i, n);
    ModSmall(k + 1, n);
    ModSmall(pos + d, n);
    var r := FreeFrom(slots, pos, 0);
    ModSmall(pos + r, n);
    assert r <= d;
  }

  // ----------------------------------------------------------- the helper window

  class HelperWindow {
    var data: array<Socket?>
    var pos: nat
    var count: nat

    ghost function View(): Table
      reads this, data
    {
      Table(data[..], pos, count)
    }

    ghost predicate Valid()
      reads this, data, data[..]
    {
      Exact(View()) && forall i :: 0 <= i < data.Length && data[i] != null ==> data[i].index == i
    }

    constructor ()
      ensures Valid() && fresh(data) && View() == EMPTY
    {
      data := new Socket?[CHUNK](_ => null);
      pos, count := 0, 0;
      new;
      OccupiedNone(data[..]);
      assert data[..] == EMPTY.slots;
    }

    method AddSocket(s: Socket) returns (ok: bool)
      requires Valid()
      requires s.index != -1 ==> 0 <= s.index < data.Length && data[s.index] == s
      requires s.index == -1 ==> s !in data[..]
      modifies this, data, s`index
      ensures Valid()
      ensures old(s.index) != -1 ==> ok && View() == old(View()) && s.index == old(s.index)
      ensures old(s.index) == -1 ==>
                var (t, k) := Add(old(View()), s);
                View() == t && ok == k.Some? && s.index == if ok then k.value else -1
    {
      if s.index != -1 {
        return true;
      }
      ok := Attach(s);
    }

    /** `AddSocket` for a socket that has no slot yet. */
    method Attach(s: Socket) returns (ok: bool)
      requires Valid() && s.index == -1 && s !in data[..]
      modifies this, data, s`index
      ensures Valid()
      ensures var (t, k) := Add(old(View()), s);
              View() == t && ok == k.Some? && s.index == if ok then k.value else -1
    {
      AddFailsOnlyWhenFull(View(), s);
      GrowthKeeps(View());
      if count + SPARE >= data.Length {
        Grow();
      }
      ok := Place(s);
    }

    /** Takes the first free slot on the circle. */
    method Place(s: Socket) returns (ok: bool)
      requires pos < data.Length && s.index == -1 && s !in data[..]
      requires forall i :: 0 <= i < data.Length && data[i] != null ==> data[i].index == i
      modifies this`pos, this`count, data, s`index
      ensures var (t, k) := Placed(old(View()), s);
              View() == t && ok == k.Some? && s.index == if ok then k.value else -1
      ensures forall i :: 0 <= i < data.Length && data[i] != null ==> data[i].index == i
    {
      var n := data.Length;
      var i := Search();
      if i == n + pos {
        return false;
      }
      NextSlot(i, n);
      Fill(s, i % n, (i + 1) % n);
      return true;
    }

    /** Scans once around the circle for a free slot, from `pos` on. */
    method Search() returns (i: nat)
      requires 0 <= pos < data.Length
      ensures i == pos + FreeFrom(data[..], pos, 0)
    {
      var n := data.Length;
      i := pos;
      while i < n + pos
        invariant pos <= i <= n + pos
        invariant FreeFrom(data[..], pos, i - pos) == FreeFrom(data[..], pos, 0)
      {
        assert At(pos, i - pos, n) == i % n;
        if data[i % n] == null {
          return;
        }
        i := i + 1;
      }
    }

    /** Fills the free slot `k` and sets where the next scan starts. */
    method Fill(s: Socket, k: nat, next: nat)
      requires k < data.Length && s !in data[..] && data[k] == null
      requires forall i :: 0 <= i < data.Length && data[i] != null ==> data[i].index == i
      modifies this`pos, this`count, data, s`index
      ensures View() == Table(old(data[..])[k := s], next, old(count) + 1) && s.index == k
      ensures forall i :: 0 <= i < data.Length && data[i] != null ==> data[i].index == i
    {
      forall i | 0 <= i < data.Length ensures data[i] != s {
        assert data[i] in data[..];
      }
      data[k] := s;
      s.index := k;
      pos := next;
      count := count + 1;
    }

    /** Moves the slots to a larger array; every socket keeps its place. */
    method Grow()
      requires Exact(View()) && count + SPARE >= data.Length
      modifies this`data
      ensures fresh(data)
      ensures data[..] == Grown(old(View()))
    {
      var size := data.Length + CHUNK;
      if size > MAX_SOCKETS {
        size := MAX_SOCKETS;
      }
      var bigger := new Socket?[size](_ => null);
      forall i | 0 <= i < data.Length {
        bigger[i] := data[i];
      }
      assert bigger[..] == Grown(View());
      data := bigger;
    }

    method RemoveSocket(s: Socket)
      requires Valid()
      requires s.index != -1 ==> 0 <= s.index < data.Length && data[s.index] == s
      modifies this, data, s`index
      ensures Valid() && s.index == -1 && data == old(data)
      ensures old(s.index) == -1 ==> View() == old(View())
      ensures old(s.index) != -1 ==> old(View()).count > 0 && View() == Remove(old(View()), old(s.index))
    {
      if s.index == -1 {
        return;
      }
      OccupiedAtLeastOne(data[..], s.index);
      OccupiedUpdate(data[..], s.index, null);
      ghost var k := s.index;
      data[s.index] := null;
      s.index := -1;
      count := count - 1;
      assert data[..] == old(data[..])[k := null];
    }
  }

  lemma ModSmall(i: nat, n: nat)
    requires n > 0 && i < 2 * n
    ensures i % n == if i < n then i else i - n
  {
    DivisionIsUnique(i, n, if i < n then 0 else 1, if i < n then i else i - n);
  }

  lemma NextSlot(i: nat, n: nat)
    requires n > 0 && i + 1 < 2 * n
    ensures (i + 1) % n == (i % n + 1) % n
  {
    ModSmall(i, n);
    ModSmall(i + 1, n);
    ModSmall(i % n + 1, n);
  }
}
