/** The block-growing byte buffer and the lazy-erase cursor of
    `include/common/blockbuffer.h`. */
module BlockBuffers {
  import opened Common

  type Byte = bv8

  // ------------------------------------------------------ capacity arithmetic

  /** Blocks that hold `n` bytes, as `increase_capacity` computes it. */
  function BlocksFor(n: nat, blocksize: nat): nat
    requires blocksize >= 1
  {
    n / blocksize + if n % blocksize > 0 then 1 else 0
  }

  /** `BlocksFor` is the ceiling: `k` blocks hold `n` bytes exactly when `k` is
      at least that number. */
  lemma BlocksForIsLeast(n: nat, blocksize: nat, k: nat)
    requires blocksize >= 1
    ensures n <= k * blocksize <==> BlocksFor(n, blocksize) <= k
  {
    var q, r := n / blocksize, n % blocksize;
    assert n == blocksize * q + r;
    assert k * blocksize == blocksize * k;
    if k >= q + 1 {
      MulAtLeast(blocksize, k - q);
      assert blocksize * k == blocksize * q + blocksize * (k - q);
    } else if k < q {
      MulAtLeast(blocksize, q - k);
      assert blocksize * q == blocksize * k + blocksize * (q - k);
    }
  }

  /** Growing by the missing bytes ends at the blocks for all the bytes. */
  lemma GrowthIsExact(block: nat, missing: nat, blocksize: nat)
    requires blocksize >= 1
    ensures block + BlocksFor(missing, blocksize) == BlocksFor(block * blocksize + missing, blocksize)
  {
    var q, r := missing / blocksize, missing % blocksize;
    assert missing == blocksize * q + r;
    assert block * blocksize + missing == blocksize * (block + q) + r;
    DivisionIsUnique(block * blocksize + missing, blocksize, block + q, r);
  }

  // -------------------------------------------------------- the static totals

  function Sum(s: seq<nat>): nat {
    if |s| == 0 then 0 else s[0] + Sum(s[1..])
  }

  lemma {:induction false} SumUpdate(s: seq<nat>, i: nat, v: nat)
    requires i < |s|
    ensures Sum(s[i := v]) == Sum(s) - s[i] + v
    ensures s[i] <= Sum(s)
  {
    if i == 0 {
      assert s[0 := v][1..] == s[1..];
    } else {
      SumUpdate(s[1..], i - 1, v);
      assert s[i := v][1..] == s[1..][i - 1 := v];
    }
  }

  lemma {:induction false} SumPush(s: seq<nat>, v: nat)
    ensures Sum(s + [v]) == Sum(s) + v
  {
    if |s| == 0 {
      assert s + [v] == [v];
    } else {
      assert (s + [v])[1..] == s[1..] + [v];
      SumPush(s[1..], v);
    }
  }

  /** The static members shared by all buffers of one type. `held[i]` is the
      number of blocks of the i-th buffer ever made, 0 once it is destroyed. */
  class Totals {
    var current: nat
    var peak: nat
    ghost var held: seq<nat>

    ghost predicate Valid()
      reads this
    {
      current == Sum(held) && current <= peak
    }

    constructor ()
      ensures Valid() && held == [] && current == 0
    {
      current, peak, held := 0, 0, [];
    }
  }

  // -------------------------------------------------------------- byte values

  function Erased(s: seq<Byte>, pos: nat, n: nat): seq<Byte>
    requires pos <= |s|
  {
    if n >= |s| - pos then s[..pos] else s[..pos] + s[pos + n..]
  }

  function Replaced(s: seq<Byte>, pos: nat, rep: seq<Byte>): seq<Byte> {
    if pos >= |s| then s + rep
    else if pos + |rep| >= |s| then s[..pos] + rep
    else s[..pos] + rep + s[pos + |rep|..]
  }

  function Resized(s: seq<Byte>, n: nat, c: Byte): seq<Byte> {
    if n <= |s| then s[..n] else s + seq(n - |s|, _ => c)
  }

  /** Erasing takes out the `n` bytes from `pos` on, or all that are there. */
  lemma ErasedIs(s: seq<Byte>, pos: nat, n: nat, k: nat)
    requires pos <= |s|
    ensures |Erased(s, pos, n)| == if pos + n <= |s| then |s| - n else pos
    ensures k < |Erased(s, pos, n)| ==> Erased(s, pos, n)[k] == if k < pos then s[k] else s[k + n]
  {
  }

  /** Replacing puts the bytes at `pos`: inside the text in place of what is
      there, at its end it makes it longer, past the end it appends. */
  lemma ReplacedIs(s: seq<Byte>, pos: nat, rep: seq<Byte>, k: nat)
    ensures var (r, at) := (Replaced(s, pos, rep), if pos < |s| then pos else |s|);
            && |r| == (if at + |rep| < |s| then |s| else at + |rep|)
            && (k < |r| ==> r[k] == if at <= k < at + |rep| then rep[k - at] else s[k])
  {
  }

  /** Resizing cuts the end off or fills up with `c`. */
  lemma ResizedIs(s: seq<Byte>, n: nat, c: Byte, k: nat)
    ensures |Resized(s, n, c)| == n
    ensures k < n ==> Resized(s, n, c)[k] == if k < |s| then s[k] else c
  {
  }

  // --------------------------------------------------------------- the buffer

  class BlockBuffer {
    const blocksize: nat
    const maxBlocks: nat
    const totals: Totals
    ghost const id: nat
    var data: array<Byte>
    var size: nat
    var block: nat

    ghost predicate Valid()
      reads this, totals
    {
      && blocksize >= 1
      && data.Length == block * blocksize
      && size <= data.Length
      && block <= maxBlocks
      && id < |totals.held|
      && totals.held[id] == block
      && totals.Valid()
    }

    ghost function Contents(): seq<Byte>
      requires size <= data.Length
      reads this, data
    {
      data[..size]
    }

    constructor (blocksize: nat, maxBlocks: nat, totals: Totals)
      requires blocksize >= 1 && totals.Valid()
      modifies totals
      ensures Valid() && fresh(this) && fresh(data) && Contents() == [] && block == 0
      ensures this.blocksize == blocksize && this.maxBlocks == maxBlocks && this.totals == totals
      ensures id == |old(totals.held)| && totals.held == old(totals.held) + [0]
    {
      this.blocksize, this.maxBlocks, this.totals := blocksize, maxBlocks, totals;
      id := |totals.held|;
      data := new Byte[0];
      size, block := 0, 0;
      new;
      SumPush(totals.held, 0);
      totals.held := totals.held + [0];
    }

    /** Makes room for `n` more bytes; `allocates` is the allocator's answer. */
    method IncreaseCapacity(n: nat, allocates: bool) returns (ok: bool)
      requires Valid()
      modifies this`data, this`block, totals
      ensures Valid() && Contents() == old(Contents()) && (data == old(data) || fresh(data))
      ensures ok <==> n <= old(data.Length) - size || (allocates && size + n <= maxBlocks * blocksize)
      ensures ok ==> size + n <= data.Length
      ensures block == if ok && n > old(data.Length) - size then BlocksFor(size + n, blocksize) else old(block)
      ensures totals.held == old(totals.held)[id := block]
      ensures totals.peak == if totals.current > old(totals.peak) then totals.current else old(totals.peak)
    {
      assert totals.held[id := block] == totals.held;
      if n == 0 {
        return true;
      }
      var newblock := block;
      var free := block * blocksize - size;
      if free >= n {
        return true;
      }
      var missing := n - free;
      newblock := newblock + missing / blocksize;
      if missing % blocksize > 0 {
        newblock := newblock + 1;
      }
      GrowthIsExact(block, missing, blocksize);
      BlocksForIsLeast(size + n, blocksize, maxBlocks);
      BlocksForIsLeast(size + n, blocksize, newblock);
      if newblock > maxBlocks || !allocates {
        return false;
      }
      ghost var before := Contents();
      var newdata := new Byte[newblock * blocksize];
      forall k | 0 <= k < size {
        newdata[k] := data[k];
      }
      SumUpdate(totals.held, id, newblock);
      totals.current := totals.current + newblock - block;
      if totals.current > totals.peak {
        totals.peak := totals.current;
      }
      totals.held := totals.held[id := newblock];
      data := newdata;
      block := newblock;
      assert Contents() == before;
      return true;
    }

    method Append(app: seq<Byte>, allocates: bool) returns (ok: bool)
      requires Valid()
      modifies this, data, totals
      ensures Valid() && (data == old(data) || fresh(data))
      ensures ok <==> |app| <= old(data.Length - size) || (allocates && old(size) + |app| <= maxBlocks * blocksize)
      ensures Contents() == if ok then old(Contents()) + app else old(Contents())
      ensures block == if ok && |app| > old(data.Length - size) then BlocksFor(size, blocksize) else old(block)
      ensures totals.held == old(totals.held)[id := block]
    {
      assert totals.held[id := block] == totals.held;
      if |app| == 0 {
        assert old(Contents()) + app == old(Contents());
        return true;
      }
      ok := IncreaseCapacity(|app|, allocates);
      if ok {
        forall k | 0 <= k < |app| {
          data[size + k] := app[k];
        }
        size := size + |app|;
        assert Contents()[..old(size)] == old(Contents());
        assert Contents() == old(Contents()) + app;
      }
    }

    method Resize(n: nat, c: Byte, allocates: bool) returns (ok: bool)
      requires Valid()
      modifies this, data, totals
      ensures Valid() && (data == old(data) || fresh(data))
      ensures ok <==> n <= old(data.Length) || (allocates && n <= maxBlocks * blocksize)
      ensures Contents() == if ok then Resized(old(Contents()), n, c) else old(Contents())
      ensures block == if ok && n > old(data.Length) then BlocksFor(n, blocksize) else old(block)
      ensures totals.held == old(totals.held)[id := block]
    {
      assert totals.held[id := block] == totals.held;
      if n > size {
        var len := n - size;
        var grown := IncreaseCapacity(len, allocates);
        if !grown {
          return false;
        }
        forall k | 0 <= k < len {
          data[size + k] := c;
        }
        assert data[..size] == old(Contents());
      }
      size := n;
      assert Contents() == Resized(old(Contents()), n, c);
      return true;
    }

    /** On failure the contents are unchanged, or already cut at `pos`; the
        blocks are those for the new end when it did not fit before. */
    method Replace(pos: nat, rep: seq<Byte>, allocates: bool) returns (ok: bool)
      requires Valid()
      modifies this, data, totals
      ensures Valid() && (data == old(data) || fresh(data))
      ensures var start := if pos < old(size) then if pos + |rep| >= old(size) then pos else 0 else old(size);
              ok <==> start + |rep| <= old(data.Length) || (allocates && start + |rep| <= maxBlocks * blocksize)
      ensures Contents() == if ok then Replaced(old(Contents()), pos, rep)
                            else if pos < old(size) then old(Contents())[..pos] else old(Contents())
      ensures var start := if pos < old(size) then if pos + |rep| >= old(size) then pos else 0 else old(size);
              block == if ok && start + |rep| > old(data.Length) then BlocksFor(start + |rep|, blocksize)
                       else old(block)
      ensures totals.held == old(totals.held)[id := block]
    {
      assert totals.held[id := block] == totals.held;
      if pos >= size {
        ok := Append(rep, allocates);
        return;
      }
      if pos + |rep| >= size {
        size := pos;
        assert Contents() == old(Contents())[..pos];
        ok := Append(rep, allocates);
        return;
      }
      forall k | 0 <= k < |rep| {
        data[pos + k] := rep[k];
      }
      assert Contents() == Replaced(old(Contents()), pos, rep);
      return true;
    }

    method Erase(pos: nat, n: nat, hold: bool)
      requires Valid() && pos <= size
      modifies this, data, totals
      ensures Valid() && (data == old(data) || fresh(data))
      ensures Contents() == Erased(old(Contents()), pos, n)
      ensures block == if size == 0 && !hold then 0 else old(block)
      ensures totals.held == old(totals.held)[id := block]
    {
      assert totals.held[id := block] == totals.held;
      Cut(pos, n);
      if size == 0 && !hold {
        Free();
      }
    }

    /** The erasure of the bytes themselves. */
    method Cut(pos: nat, n: nat)
      requires pos <= size <= data.Length
      modifies this`size, data
      ensures size <= old(size) && Contents() == Erased(old(Contents()), pos, n)
    {
      var m := size - pos;
      if n >= m {
        size := pos;
        assert data[..pos] == data[..old(size)][..pos];
      } else {
        ghost var before := Contents();
        CloseGap(pos, n);
        assert Contents() == before[..pos] + before[pos + n..];
      }
    }

    /** Moves the bytes after an erased stretch down. */
    method CloseGap(pos: nat, n: nat)
      requires pos + n < size <= data.Length
      modifies this`size, data
      ensures size == old(size) - n
      ensures forall k :: 0 <= k < size ==> data[k] == old(data[if k < pos then k else k + n])
    {
      size := size - n;
      forall k | pos <= k < size {
        data[k] := data[k + n];
      }
    }

    /** Gives the blocks back; the caller has emptied the buffer or is
        destroying it, so the size is left alone. */
    method Free()
      requires blocksize >= 1 && data.Length == block * blocksize
      requires id < |totals.held| && totals.held[id] == block && totals.Valid()
      modifies this`data, this`block, totals
      ensures block == 0 && data.Length == 0 && (data == old(data) || fresh(data))
      ensures totals.Valid() && totals.held == old(totals.held)[id := 0]
      ensures totals.peak == old(totals.peak)
    {
      SumUpdate(totals.held, id, 0);
      if block > 0 {
        totals.current := totals.current - block;
        totals.held := totals.held[id := 0];
        data := new Byte[0];
        block := 0;
      }
    }
  }

  // ------------------------------------------------ several buffers together

  datatype Op =
    | Append(app: seq<Byte>)
    | Resize(n: nat, c: Byte)
    | Replace(pos: nat, rep: seq<Byte>)
    | Erase(from: nat, count: nat, hold: bool)

  /** What an operation makes of the bytes; `ok` is its answer. A stretch beyond
      the end is not erased. */
  function Effect(s: seq<Byte>, op: Op, ok: bool): seq<Byte> {
    match op
    case Append(app) => if ok then s + app else s
    case Resize(n, c) => if ok then Resized(s, n, c) else s
    case Replace(pos, rep) => if ok then Replaced(s, pos, rep) else if pos < |s| then s[..pos] else s
    case Erase(from, count, _) => if from <= |s| then Erased(s, from, count) else s
  }

  /** The live buffers of one type: each is in order, none shares its bytes with
      another, and every buffer that is not among them holds no block. */
  ghost predicate Pool(pool: seq<BlockBuffer>, totals: Totals)
    reads pool, totals
  {
    && totals.Valid()
    && (forall i :: 0 <= i < |pool| ==> pool[i].totals == totals && pool[i].Valid())
    && (forall i, j :: 0 <= i < j < |pool| ==> pool[i].id != pool[j].id && pool[i].data != pool[j].data)
    && (forall k :: 0 <= k < |totals.held| && totals.held[k] > 0 ==>
          exists i :: 0 <= i < |pool| && pool[i].id == k)
  }

  /** With the blocks of the buffers `ids`, and none elsewhere, the sum is
      theirs. */
  lemma {:induction false} SumOfLive(held: seq<nat>, ids: seq<nat>)
    requires Distinct(ids) && forall i :: 0 <= i < |ids| ==> ids[i] < |held|
    requires forall k :: 0 <= k < |held| && held[k] > 0 ==> k in ids
    ensures Sum(held) == Sum(seq(|ids|, i requires 0 <= i < |ids| => held[ids[i]]))
    decreases |ids|
  {
    if |ids| == 0 {
      SumOfZeros(held);
    } else {
      var rest, k := ids[1..], ids[0];
      var others := held[k := 0];
      SumUpdate(held, k, 0);
      SumOfLive(others, rest);
      var blocks := seq(|ids|, i requires 0 <= i < |ids| => held[ids[i]]);
      assert blocks[1..] == seq(|rest|, i requires 0 <= i < |rest| => others[rest[i]]);
    }
  }

  lemma {:induction false} SumOfZeros(s: seq<nat>)
    requires forall k :: 0 <= k < |s| ==> s[k] == 0
    ensures Sum(s) == 0
  {
    if |s| == 0 {
    } else {
      SumOfZeros(s[1..]);
    }
  }

  function Blocks(pool: seq<BlockBuffer>): seq<nat>
    reads pool
  {
    seq(|pool|, i requires 0 <= i < |pool| reads pool => pool[i].block)
  }

  /** The shared total is the sum of the blocks over the live buffers. */
  lemma PoolTotal(pool: seq<BlockBuffer>, totals: Totals)
    requires Pool(pool, totals)
    ensures totals.current == Sum(Blocks(pool))
  {
    var held := totals.held;
    var ids := seq(|pool|, i requires 0 <= i < |pool| => pool[i].id);
    forall k | 0 <= k < |held| && held[k] > 0 ensures k in ids {
      var i :| 0 <= i < |pool| && pool[i].id == k;
      assert ids[i] == k;
    }
    SumOfLive(held, ids);
    assert Blocks(pool) == seq(|ids|, i requires 0 <= i < |ids| => held[ids[i]]);
  }

  /** Any operation on one buffer keeps all that and leaves every other buffer
      alone. */
  method Apply(pool: seq<BlockBuffer>, ghost totals: Totals, i: nat, op: Op, allocates: bool) returns (ok: bool)
    requires Pool(pool, totals) && i < |pool|
    modifies pool[i], pool[i].data, totals
    ensures Pool(pool, totals)
    ensures pool[i].Contents() == Effect(old(pool[i].Contents()), op, ok)
    ensures pool[i].data == old(pool[i].data) || fresh(pool[i].data)
    ensures forall j :: 0 <= j < |pool| && j != i ==>
              pool[j].data == old(pool[j].data) && pool[j].Contents() == old(pool[j].Contents())
              && pool[j].block == old(pool[j].block)
    ensures totals.current == old(totals.current) + pool[i].block - old(pool[i].block)
  {
    ghost var held := totals.held;
    ok := ApplyTo(pool[i], op, allocates);
    SumUpdate(held, pool[i].id, pool[i].block);
  }

  datatype Call = Call(i: nat, op: Op, allocates: bool)

  /** The bytes of buffer `i` after the calls, given their answers. */
  function Effects(s: seq<Byte>, i: nat, calls: seq<Call>, oks: seq<bool>): seq<Byte>
    requires |oks| == |calls|
    decreases |calls|
  {
    if |calls| == 0 then s
    else Effects(if calls[0].i == i then Effect(s, calls[0].op, oks[0]) else s, i, calls[1..], oks[1..])
  }

  /** Any operations on any of the buffers, one after the other: every buffer
      holds the bytes of its own operations, and the shared total is the sum of
      the blocks over all of them. */
  method ApplyAll(pool: seq<BlockBuffer>, ghost totals: Totals, calls: seq<Call>) returns (oks: seq<bool>)
    requires Pool(pool, totals) && forall c :: c in calls ==> c.i < |pool|
    modifies pool, set i | 0 <= i < |pool| :: pool[i].data, totals
    ensures Pool(pool, totals) && |oks| == |calls|
    ensures forall i :: 0 <= i < |pool| ==> pool[i].Contents() == Effects(old(pool[i].Contents()), i, calls, oks)
    ensures totals.current == Sum(Blocks(pool))
    decreases |calls|
  {
    if |calls| == 0 {
      PoolTotal(pool, totals);
      return [];
    }
    var call := calls[0];
    var ok := Apply(pool, totals, call.i, call.op, call.allocates);
    var others := ApplyAll(pool, totals, calls[1..]);
    oks := [ok] + others;
    assert oks[1..] == others;
  }

  /** A new buffer joins the others. */
  method Open(ghost pool: seq<BlockBuffer>, totals: Totals, blocksize: nat, maxBlocks: nat) returns (b: BlockBuffer)
    requires Pool(pool, totals) && blocksize >= 1
    modifies totals
    ensures fresh(b) && Pool(pool + [b], totals) && b.Valid() && b.Contents() == []
  {
    b := new BlockBuffer(blocksize, maxBlocks, totals);
    ghost var all := pool + [b];
    forall k | 0 <= k < |totals.held| && totals.held[k] > 0
      ensures exists i :: 0 <= i < |all| && all[i].id == k
    {
      var i :| 0 <= i < |pool| && pool[i].id == k;
      assert all[i].id == k;
    }
  }

  /** A buffer is destroyed: its blocks leave the total, the others stay. */
  method Close(ghost pool: seq<BlockBuffer>, ghost totals: Totals, ghost i: nat, b: BlockBuffer)
    requires Pool(pool, totals) && i < |pool| && b == pool[i]
    modifies b`data, b`block, totals
    ensures Pool(Without(pool, i), totals)
  {
    b.Free();
    ghost var left := Without(pool, i);
    assert forall j :: 0 <= j < |left| ==> left[j] == pool[if j < i then j else j + 1];
    forall k | 0 <= k < |totals.held| && totals.held[k] > 0
      ensures exists j :: 0 <= j < |left| && left[j].id == k
    {
      var j :| 0 <= j < |pool| && pool[j].id == k;
      assert left[if j < i then j else j - 1].id == k;
    }
  }

  method ApplyTo(b: BlockBuffer, op: Op, allocates: bool) returns (ok: bool)
    requires b.Valid()
    modifies b, b.data, b.totals
    ensures b.Valid() && (b.data == old(b.data) || fresh(b.data))
    ensures b.Contents() == Effect(old(b.Contents()), op, ok)
    ensures b.totals.held == old(b.totals.held)[b.id := b.block]
  {
    ok := true;
    match op
    case Append(app) => ok := b.Append(app, allocates);
    case Resize(n, c) => ok := b.Resize(n, c, allocates);
    case Replace(pos, rep) => ok := b.Replace(pos, rep, allocates);
    case Erase(from, count, hold) =>
      if from <= b.size {
        b.Erase(from, count, hold);
      } else {
        assert b.totals.held == b.totals.held[b.id := b.block];
      }
  }

  class ForwardBuffer {
    var sb: BlockBuffer?
    var pos: nat

    ghost predicate Valid()
      reads this, sb, if sb == null then {} else {sb.totals}
    {
      sb != null ==> sb.Valid() && pos <= sb.size
    }

    /** The bytes the cursor still shows. */
    ghost function View(): seq<Byte>
      requires Valid() && sb != null
      reads this, sb, sb.data, sb.totals
    {
      sb.Contents()[pos..]
    }

    constructor (sb: BlockBuffer)
      requires sb.Valid()
      ensures Valid() && this.sb == sb && View() == sb.Contents()
    {
      this.sb := sb;
      pos := 0;
    }

    method Erase(p: nat, n: nat)
      requires Valid() && sb != null
      requires if p == 0 then n <= |View()| else p <= |View()|
      modifies this`pos, sb, sb.data, sb.totals
      ensures Valid() && sb == old(sb)
      ensures View() == Erased(old(View()), p, n)
      ensures p == 0 ==> sb.Contents() == old(sb.Contents())
      ensures sb.data == old(sb.data) || fresh(sb.data)
    {
      ghost var before := sb.Contents();
      if p == 0 {
        pos := pos + n;
      } else {
        sb.Erase(pos + p, n, false);
        ErasedBeyond(before, pos, p, n);
      }
    }

    method Release()
      modifies this
      ensures Valid() && sb == null
    {
      sb := null;
    }

    /** The destructor: the buffer ends up with exactly what the cursor
        showed, and holds no block when that is nothing. */
    method Destroy()
      requires Valid()
      modifies if sb == null then {} else {sb, sb.data, sb.totals}
      ensures sb != null ==> sb.Valid() && sb.Contents() == old(if sb == null then [] else View())
      ensures sb != null && sb.size == 0 ==> sb.block == 0
    {
      if sb != null {
        ghost var before := sb.Contents();
        sb.Erase(0, pos, false);
        assert Erased(before, 0, pos) == before[pos..];
      }
    }
  }

  lemma ErasedBeyond(s: seq<Byte>, pos: nat, p: nat, n: nat)
    requires pos + p <= |s|
    ensures pos <= |Erased(s, pos + p, n)|
    ensures Erased(s, pos + p, n)[pos..] == Erased(s[pos..], p, n)
  {
  }

  lemma ErasedFront(s: seq<Byte>, pos: nat, n: nat)
    requires pos + n <= |s|
    ensures Erased(s[pos..], 0, n) == s[pos + n..]
  {
  }

  datatype Erasure = Erasure(pos: nat, n: nat)

  /** The erasures a caller may make on a view of `len` bytes. */
  predicate Allowed(s: seq<Byte>, ops: seq<Erasure>)
    decreases |ops|
  {
    |ops| == 0 ||
    (&& (if ops[0].pos == 0 then ops[0].n <= |s| else ops[0].pos <= |s|)
     && Allowed(Erased(s, ops[0].pos, ops[0].n), ops[1..]))
  }

  function Eager(s: seq<Byte>, ops: seq<Erasure>): seq<Byte>
    requires Allowed(s, ops)
    decreases |ops|
  {
    if |ops| == 0 then s else Eager(Erased(s, ops[0].pos, ops[0].n), ops[1..])
  }

  /** One erasure through the cursor: at the front only the cursor moves. */
  function LazyErase(s: seq<Byte>, pos: nat, e: Erasure): (r: (seq<Byte>, nat))
    requires pos <= |s| && (if e.pos == 0 then e.n <= |s| - pos else e.pos <= |s| - pos)
    ensures r.1 <= |r.0|
  {
    if e.pos == 0 then (s, pos + e.n) else (Erased(s, pos + e.pos, e.n), pos)
  }

  lemma LazyEraseShows(s: seq<Byte>, pos: nat, e: Erasure)
    requires pos <= |s| && (if e.pos == 0 then e.n <= |s| - pos else e.pos <= |s| - pos)
    ensures var r := LazyErase(s, pos, e); r.0[r.1..] == Erased(s[pos..], e.pos, e.n)
  {
    if e.pos == 0 {
      ErasedFront(s, pos, e.n);
    } else {
      ErasedBeyond(s, pos, e.pos, e.n);
    }
  }

  /** The whole buffer and the cursor position after lazy erasures. */
  function Lazy(s: seq<Byte>, pos: nat, ops: seq<Erasure>): (r: (seq<Byte>, nat))
    requires pos <= |s| && Allowed(s[pos..], ops)
    ensures r.1 <= |r.0|
    decreases |ops|
  {
    if |ops| == 0 then (s, pos)
    else
      LazyEraseShows(s, pos, ops[0]);
      var next := LazyErase(s, pos, ops[0]);
      Lazy(next.0, next.1, ops[1..])
  }

  /** Erasing lazily and flushing once gives what erasing each time gives. */
  lemma {:induction false} LazyIsEager(s: seq<Byte>, pos: nat, ops: seq<Erasure>)
    requires pos <= |s| && Allowed(s[pos..], ops)
    ensures var (bytes, cursor) := Lazy(s, pos, ops);
            Erased(bytes, 0, cursor) == Eager(s[pos..], ops)
    decreases |ops|
  {
    if |ops| == 0 {
    } else {
      LazyEraseShows(s, pos, ops[0]);
      var next := LazyErase(s, pos, ops[0]);
      LazyIsEager(next.0, next.1, ops[1..]);
    }
  }
}
