/**
The buffer cache (bio.c): NBUF buffers on a doubly linked ring in order of last use,
in front of the disk. `View` is what the rest of the kernel sees: the cached data of
a block when a buffer holds it, the disk otherwise.
*/
module Bio {
  import opened Param
  import opened Blocks

  const HEAD := NBUF // index of bcache.head in the link arrays
  const DEV := 1     // ROOTDEV, the only disk

  type Disk = seq<Block>

  /** Every state the disk has been in, the latest outermost; one `Then` per block write. */
  datatype History = Start(disk: Disk) | Then(before: History, disk: Disk)

  /** The flags word is the pair (valid, dirty); `locked` is b->lock.locked. */
  datatype Buf = Buf(dev: nat, blockno: nat, valid: bool, dirty: bool, locked: bool, refcnt: nat, data: Block)

  /* ---------------- the ring ---------------- */

  function At(order: seq<nat>, i: int): (b: nat)
  {
    if 0 <= i < |order| then order[i] else HEAD
  }

  /** `next` and `prev` form one ring through the head and exactly the nodes of `order`, in that order. */
  ghost predicate IsRing(order: seq<nat>, next: seq<nat>, prev: seq<nat>)
  {
    && |next| == NBUF + 1 && |prev| == NBUF + 1
    && (forall i :: 0 <= i < |order| ==> order[i] < NBUF)
    && (forall i, j :: 0 <= i < j < |order| ==> order[i] != order[j])
    && (forall i {:trigger next[At(order, i)]} :: -1 <= i < |order| ==> next[At(order, i)] == At(order, i + 1))
    && (forall i {:trigger prev[At(order, i)]} :: 0 <= i <= |order| ==> prev[At(order, i)] == At(order, i - 1))
  }

  function Removed(order: seq<nat>, k: nat): (r: seq<nat>)
    requires k < |order|
  {
    order[..k] + order[k + 1..]
  }

  lemma Neighbours(order: seq<nat>, next: seq<nat>, prev: seq<nat>, i: int)
    requires IsRing(order, next, prev)
    ensures |next| == |prev| == NBUF + 1 && At(order, i) <= NBUF
    ensures -1 <= i < |order| ==> next[At(order, i)] == At(order, i + 1) <= NBUF
    ensures 0 <= i <= |order| ==> prev[At(order, i)] == At(order, i - 1) <= NBUF
  {
  }

  lemma Apart(order: seq<nat>, next: seq<nat>, prev: seq<nat>, i: int, j: int)
    requires IsRing(order, next, prev) && i != j && -1 <= i <= |order| && -1 <= j <= |order|
    requires !(i == -1 && j == |order|) && !(j == -1 && i == |order|)
    ensures At(order, i) != At(order, j)
  {
  }

  lemma UnlinkNext(order: seq<nat>, next: seq<nat>, prev: seq<nat>, k: nat, i: int)
    requires IsRing(order, next, prev) && k < |order| && -1 <= i < |order| - 1
    requires next[order[k]] <= NBUF && prev[order[k]] <= NBUF
    ensures var r := Removed(order, k);
            At(r, i) <= NBUF && next[prev[order[k]] := next[order[k]]][At(r, i)] == At(r, i + 1)
  {
    hide IsRing;
    var o := if i < k then i else i + 1;
    Neighbours(order, next, prev, k);
    Neighbours(order, next, prev, o);
    assert order[k] == At(order, k) && At(Removed(order, k), i) == At(order, o);
    assert At(Removed(order, k), i + 1) == At(order, if o == k - 1 then k + 1 else o + 1);
    if o != k - 1 { Apart(order, next, prev, o, k - 1); }
  }

  lemma UnlinkPrev(order: seq<nat>, next: seq<nat>, prev: seq<nat>, k: nat, i: int)
    requires IsRing(order, next, prev) && k < |order| && 0 <= i <= |order| - 1
    requires next[order[k]] <= NBUF && prev[order[k]] <= NBUF
    ensures var r := Removed(order, k);
            At(r, i) <= NBUF && prev[next[order[k]] := prev[order[k]]][At(r, i)] == At(r, i - 1)
  {
    hide IsRing;
    var o := if i < k then i else i + 1;
    Neighbours(order, next, prev, k);
    Neighbours(order, next, prev, o);
    assert order[k] == At(order, k) && At(Removed(order, k), i) == At(order, o);
    assert At(Removed(order, k), i - 1) == At(order, if o == k + 1 then k - 1 else o - 1);
    if o != k + 1 { Apart(order, next, prev, o, k + 1); }
  }

  lemma UnlinkKeepsRing(order: seq<nat>, next: seq<nat>, prev: seq<nat>, k: nat)
    requires IsRing(order, next, prev) && k < |order|
    ensures next[order[k]] <= NBUF && prev[order[k]] <= NBUF
    ensures IsRing(Removed(order, k), next[prev[order[k]] := next[order[k]]], prev[next[order[k]] := prev[order[k]]])
  {
    var b, r := order[k], Removed(order, k);
    Neighbours(order, next, prev, k);
    forall i | -1 <= i < |r| ensures next[prev[b] := next[b]][At(r, i)] == At(r, i + 1) {
      UnlinkNext(order, next, prev, k, i);
    }
    forall i | 0 <= i <= |r| ensures prev[next[b] := prev[b]][At(r, i)] == At(r, i - 1) {
      UnlinkPrev(order, next, prev, k, i);
    }
  }

  lemma PushFrontKeepsRing(order: seq<nat>, next: seq<nat>, prev: seq<nat>, b: nat)
    requires IsRing(order, next, prev) && b < NBUF && b !in order
    ensures next[HEAD] <= NBUF
    ensures IsRing([b] + order, next[b := next[HEAD]][HEAD := b], prev[b := HEAD][next[HEAD] := b])
  {
    var r := [b] + order;
    assert At(order, -1) == HEAD && next[HEAD] == At(order, 0);
    forall i | -1 <= i < |r| ensures next[b := next[HEAD]][HEAD := b][At(r, i)] == At(r, i + 1) {
      assert i >= 0 ==> At(r, i + 1) == At(order, i);
      assert i > 0 ==> At(r, i) == At(order, i - 1);
    }
    forall i | 0 <= i <= |r| ensures prev[b := HEAD][next[HEAD] := b][At(r, i)] == At(r, i - 1) {
      assert i > 0 ==> At(r, i) == At(order, i - 1);
      assert i > 1 ==> At(r, i - 1) == At(order, i - 2);
    }
  }

  /* ---------------- buffers and the view ---------------- */

  ghost predicate Holds(buf: seq<Buf>, i: int, blockno: nat)
  {
    0 <= i < |buf| && buf[i].dev == DEV && buf[i].blockno == blockno
  }

  /** The cache agrees with the disk. A buffer that nobody has locked and that is not
      pinned by the log equals its block; a buffer never used has device 0. */
  ghost predicate Agrees(buf: seq<Buf>, disk: Disk)
  {
    && |buf| == NBUF
    && (forall i :: 0 <= i < NBUF ==> (buf[i].dev == DEV && buf[i].blockno < |disk|)
                                      || (buf[i].dev == 0 && buf[i].refcnt == 0 && !buf[i].valid))
    && (forall i, j :: 0 <= i < j < NBUF && buf[i].dev == DEV && buf[j].dev == DEV ==> buf[i].blockno != buf[j].blockno)
    && (forall i :: 0 <= i < NBUF && buf[i].dirty ==> buf[i].valid)
    && (forall i :: 0 <= i < NBUF && buf[i].locked ==> buf[i].refcnt > 0)
    && (forall i :: 0 <= i < NBUF && buf[i].valid && !buf[i].dirty && !buf[i].locked ==>
          buf[i].data == disk[buf[i].blockno])
  }

  ghost function ViewOf(buf: seq<Buf>, disk: Disk, blockno: nat): (b: Block)
    requires blockno < |disk|
  {
    if exists i :: Holds(buf, i, blockno) && buf[i].valid
    then var i :| Holds(buf, i, blockno) && buf[i].valid; buf[i].data
    else disk[blockno]
  }

  predicate Recyclable(b: Buf) { b.refcnt == 0 && !b.dirty }

  /** Buffers bget may not recycle. */
  ghost function Busy(buf: seq<Buf>): (s: set<nat>)
  {
    set i | 0 <= i < |buf| && !Recyclable(buf[i])
  }

  lemma ViewHit(buf: seq<Buf>, disk: Disk, i: int)
    requires Agrees(buf, disk) && 0 <= i < NBUF && buf[i].dev == DEV && buf[i].valid
    ensures ViewOf(buf, disk, buf[i].blockno) == buf[i].data
  {
    assert Holds(buf, i, buf[i].blockno) && buf[i].valid;
  }

  /** Replacing one buffer changes the view at most at the blocks the old and new one hold. */
  lemma ViewElsewhere(buf: seq<Buf>, disk: Disk, b: int, x: Buf, blockno: nat)
    requires 0 <= b < |buf| && blockno < |disk|
    requires !Holds(buf, b, blockno) && !(x.dev == DEV && x.blockno == blockno)
    requires Agrees(buf, disk)
    ensures ViewOf(buf[b := x], disk, blockno) == ViewOf(buf, disk, blockno)
  {
    var buf' := buf[b := x];
    assert forall i :: Holds(buf, i, blockno) && buf[i].valid <==> Holds(buf', i, blockno) && buf'[i].valid;
  }

  /** A recycled buffer held a copy of its block, so forgetting it changes nothing that is seen. */
  lemma RecycleKeepsView(buf: seq<Buf>, disk: Disk, b: int, x: Buf, blockno: nat)
    requires Agrees(buf, disk) && 0 <= b < NBUF && Recyclable(buf[b]) && !buf[b].locked
    requires x.dev == DEV && !x.valid && blockno < |disk|
    requires !exists i :: Holds(buf, i, x.blockno)
    ensures ViewOf(buf[b := x], disk, blockno) == ViewOf(buf, disk, blockno)
  {
    if blockno != x.blockno && !Holds(buf, b, blockno) {
      ViewElsewhere(buf, disk, b, x, blockno);
    } else if Holds(buf, b, blockno) && buf[b].valid {
      ViewHit(buf, disk, b);
    }
  }

  /** Taking or dropping a reference changes no data. */
  lemma LockKeepsView(buf: seq<Buf>, disk: Disk, b: int, x: Buf)
    requires Agrees(buf, disk) && 0 <= b < NBUF
    requires x.dev == buf[b].dev && x.blockno == buf[b].blockno && x.valid == buf[b].valid && x.data == buf[b].data
    ensures forall c: nat :: c < |disk| ==> ViewOf(buf[b := x], disk, c) == ViewOf(buf, disk, c)
  {
    forall c: nat | c < |disk| ensures ViewOf(buf[b := x], disk, c) == ViewOf(buf, disk, c) {
      var buf' := buf[b := x];
      assert forall i :: Holds(buf, i, c) && buf[i].valid <==> Holds(buf', i, c) && buf'[i].valid;
    }
  }

  /** Filling a buffer with what its block is seen to hold changes no data. */
  lemma FillKeepsView(buf: seq<Buf>, disk: Disk, b: int, x: Buf)
    requires Agrees(buf, disk) && 0 <= b < NBUF && buf[b].dev == DEV
    requires x.dev == DEV && x.blockno == buf[b].blockno && x.valid
    requires x.data == (if buf[b].valid then buf[b].data else disk[x.blockno])
    ensures forall c: nat :: c < |disk| ==> ViewOf(buf[b := x], disk, c) == ViewOf(buf, disk, c)
  {
    forall c: nat | c < |disk| ensures ViewOf(buf[b := x], disk, c) == ViewOf(buf, disk, c) {
      if c == x.blockno {
        assert Holds(buf[b := x], b, c) && buf[b := x][b].valid;
        assert forall i :: Holds(buf, i, c) ==> i == b;
      } else {
        ViewElsewhere(buf, disk, b, x, c);
      }
    }
  }

  lemma WriteElsewhere(buf: seq<Buf>, disk: Disk, b: int, x: Buf, d: Disk, c: nat)
    requires Agrees(buf, disk) && 0 <= b < NBUF && buf[b].dev == DEV && c < |disk| && c != buf[b].blockno
    requires x.dev == DEV && x.blockno == buf[b].blockno && d == disk[x.blockno := x.data]
    ensures ViewOf(buf[b := x], d, c) == ViewOf(buf, disk, c)
  {
    var buf' := buf[b := x];
    assert forall i :: Holds(buf, i, c) && buf[i].valid <==> Holds(buf', i, c) && buf'[i].valid;
  }

  /** Blocks pinned in the cache by log_write. */
  ghost function DirtyBlocks(buf: seq<Buf>): (s: set<nat>)
  {
    set i | 0 <= i < |buf| && buf[i].dirty :: buf[i].blockno
  }

  lemma DirtyAfter(buf: seq<Buf>, disk: Disk, b: nat, x: Buf)
    requires Agrees(buf, disk) && b < NBUF
    requires x.dirty && buf[b].dirty ==> x.blockno == buf[b].blockno
    ensures DirtyBlocks(buf[b := x]) == DirtyBlocks(buf) - (if buf[b].dirty then {buf[b].blockno} else {})
                                                         + (if x.dirty then {x.blockno} else {})
  {
    var buf' := buf[b := x];
    forall c: nat | c in DirtyBlocks(buf) && !(buf[b].dirty && c == buf[b].blockno) ensures c in DirtyBlocks(buf') {
      var i :| 0 <= i < NBUF && buf[i].dirty && buf[i].blockno == c;
      assert buf'[i] == buf[i];
    }
    assert x.dirty ==> buf'[b].dirty;
  }

  function Indices(n: nat): (s: set<nat>)
    ensures forall i: nat :: i in s <==> i < n
    ensures |s| == n
  {
    if n == 0 then {} else Indices(n - 1) + {n - 1}
  }

  /** Fewer than NBUF busy buffers: one can be recycled, and it is on the ring. */
  lemma SomeRecyclable(buf: seq<Buf>, order: seq<nat>, next: seq<nat>, prev: seq<nat>)
    requires |buf| == NBUF == |order| && IsRing(order, next, prev) && |Busy(buf)| < NBUF
    ensures exists k :: 0 <= k < NBUF && Recyclable(buf[order[k]])
  {
    if forall k :: 0 <= k < NBUF ==> !Recyclable(buf[order[k]]) {
      var img := set k | 0 <= k < NBUF :: order[k];
      InjectiveImage(order, NBUF);
      assert img <= Busy(buf);
      SubsetSize(img, Busy(buf));
    }
  }

  lemma AllBusy(buf: seq<Buf>)
    requires |buf| == NBUF
    ensures |Busy(buf)| <= NBUF && (|Busy(buf)| == NBUF ==> forall i :: 0 <= i < NBUF ==> !Recyclable(buf[i]))
  {
    var all := Indices(NBUF);
    assert Busy(buf) <= all;
    SubsetSize(Busy(buf), all);
    forall i | 0 <= i < NBUF && Recyclable(buf[i]) ensures |Busy(buf)| < NBUF {
      assert Busy(buf) <= all - {i};
      SubsetSize(Busy(buf), all - {i});
    }
  }

  lemma {:induction false} InjectiveImage(order: seq<nat>, n: nat)
    requires n <= |order|
    requires forall i, j :: 0 <= i < j < |order| ==> order[i] != order[j]
    ensures |set k | 0 <= k < n :: order[k]| == n
  {
    if n > 0 {
      InjectiveImage(order, n - 1);
      assert (set k | 0 <= k < n :: order[k]) == (set k | 0 <= k < n - 1 :: order[k]) + {order[n - 1]};
    }
  }

  /** n distinct numbers below n are all of them. */
  lemma OnRing(order: seq<nat>, n: nat)
    requires |order| == n && forall i :: 0 <= i < |order| ==> order[i] < n
    requires forall i, j :: 0 <= i < j < |order| ==> order[i] != order[j]
    ensures forall b: nat :: b < n ==> b in order
  {
    var img, all := set k | 0 <= k < n :: order[k], Indices(n);
    InjectiveImage(order, n);
    assert img <= all;
    assert |all - img| == |all| - |img|;
    forall b: nat | b < n ensures b in order {
      assert b in all && b !in all - img;
    }
  }

  class Cache {
    var disk: Disk
    ghost var history: History
    var buf: seq<Buf>
    var next: seq<nat>
    var prev: seq<nat>
    ghost var order: seq<nat>    // the ring, most recently used first

    ghost predicate Valid()
      reads this
    {
      && Agrees(buf, disk)
      && |order| == NBUF && IsRing(order, next, prev)
      && history.disk == disk
    }

    ghost function View(): (v: Disk)
      reads this
      ensures |v| == |disk|
    {
      seq(|disk|, b requires 0 <= b < |disk| reads this => ViewOf(buf, disk, b))
    }

    ghost predicate Cached(blockno: nat)
      reads this
    {
      exists i :: Holds(buf, i, blockno)
    }

    /** binit: the buffers start clean and unused, each one linked in front of the last. */
    constructor (d: Disk)
      ensures Valid() && disk == d && history == Start(d) && View() == d && Busy(buf) == {}
      ensures forall i :: 0 <= i < NBUF ==> order[i] == NBUF - 1 - i
    {
      disk, history := d, Start(d);
      buf := seq(NBUF, _ => Buf(0, 0, false, false, false, 0, ZeroBlock()));
      next, prev := seq(NBUF + 1, _ => HEAD), seq(NBUF + 1, _ => HEAD);
      order := [];
      new;
      for b := 0 to NBUF
        invariant IsRing(order, next, prev) && |order| == b
        invariant forall i :: 0 <= i < b ==> order[i] == b - 1 - i
        invariant disk == d && history == Start(d)
        invariant buf == seq(NBUF, _ => Buf(0, 0, false, false, false, 0, ZeroBlock()))
      {
        PushFrontKeepsRing(order, next, prev, b);
        next := next[b := next[HEAD]];
        prev := prev[b := HEAD];
        prev := prev[next[HEAD] := b];
        next := next[HEAD := b];
        order := [b] + order;
      }
      assert forall x :: 0 <= x < |d| ==> ViewOf(buf, disk, x) == d[x];
    }

    /** The first loop of bget: walk the ring forward for the block. */
    method FindCached(blockno: nat) returns (b: nat)
      requires Valid()
      ensures b <= NBUF
      ensures b < NBUF ==> Holds(buf, b, blockno)
      ensures b == HEAD ==> !Cached(blockno)
    {
      ghost var k := 0;
      assert At(order, -1) == HEAD && At(order, 0) == next[HEAD];
      b := next[HEAD];
      while b != HEAD
        invariant 0 <= k <= NBUF && b == At(order, k)
        invariant forall i :: 0 <= i < k ==> !Holds(buf, order[i], blockno)
        decreases NBUF - k
      {
        if buf[b].dev == DEV && buf[b].blockno == blockno { return; }
        b := next[b];
        k := k + 1;
      }
      OnRing(order, NBUF);
      assert forall i: nat :: i in order ==> !Holds(buf, i, blockno);
    }

    /** The second loop of bget: walk the ring backward for a buffer to recycle. */
    method FindVictim() returns (b: nat)
      requires Valid()
      ensures b == HEAD <==> |Busy(buf)| == NBUF
      ensures b != HEAD ==>
                && b < NBUF && Recyclable(buf[b])
                && exists k :: 0 <= k < NBUF && order[k] == b && forall j :: k < j < NBUF ==> !Recyclable(buf[order[j]])
    {
      AllBusy(buf);
      if |Busy(buf)| < NBUF { SomeRecyclable(buf, order, next, prev); }
      ghost var k := NBUF - 1;
      assert At(order, NBUF) == HEAD && At(order, NBUF - 1) == prev[HEAD];
      b := prev[HEAD];
      while b != HEAD
        invariant -1 <= k < NBUF && b == At(order, k)
        invariant forall j :: k < j < NBUF ==> !Recyclable(buf[order[j]])
        decreases k
      {
        if buf[b].refcnt == 0 && !buf[b].dirty { return; }
        b := prev[b];
        k := k - 1;
      }
    }

    /** bget, up to the point where the caller holds the buffer. A locked buffer would make
        the caller sleep, so here it is not locked. HEAD stands for the panic "no buffers". */
    method Bget(blockno: nat) returns (b: nat)
      requires Valid() && blockno < |disk|
      requires forall i :: 0 <= i < NBUF && Holds(buf, i, blockno) ==> !buf[i].locked
      modifies this`buf
      ensures Valid() && View() == old(View())
      ensures b == HEAD <==> !old(Cached(blockno)) && old(|Busy(buf)|) == NBUF
      ensures b == HEAD ==> buf == old(buf)
      ensures b != HEAD ==> b < NBUF && Holds(buf, b, blockno) && buf[b].locked && buf == old(buf)[b := buf[b]]
      ensures old(Cached(blockno)) ==> buf[b] == old(buf[b]).(locked := true, refcnt := old(buf[b].refcnt) + 1)
      ensures b != HEAD && !old(Cached(blockno)) ==>
                && old(Recyclable(buf[b])) && buf[b].refcnt == 1 && !buf[b].valid && !buf[b].dirty
                && exists k :: 0 <= k < NBUF && order[k] == b
                               && forall j :: k < j < NBUF ==> !Recyclable(old(buf)[order[j]])
    {
      b := FindCached(blockno);
      if b != HEAD {
        assert Cached(blockno);
        var x := buf[b].(refcnt := buf[b].refcnt + 1, locked := true);
        LockKeepsView(buf, disk, b, x);
        buf := buf[b := x];
        return;
      }
      b := FindVictim();
      if b == HEAD { return; }
      var x := buf[b].(dev := DEV, blockno := blockno, valid := false, dirty := false, refcnt := 1, locked := true);
      forall c: nat | c < |disk| ensures ViewOf(buf[b := x], disk, c) == ViewOf(buf, disk, c) {
        RecycleKeepsView(buf, disk, b, x, c);
      }
      forall i | 0 <= i < NBUF && buf[i].dev == DEV ensures buf[i].blockno != blockno {
        assert !Holds(buf, i, blockno);
      }
      buf := buf[b := x];
    }

    /** The read of bread: the disk is asked only for a buffer that is not valid. */
    method Load(b: nat)
      requires Valid() && b < NBUF && buf[b].dev == DEV && buf[b].locked
      modifies this`buf
      ensures Valid() && View() == old(View()) && buf[b].valid && buf[b].data == View()[buf[b].blockno]
      ensures buf == old(buf)[b := old(buf)[b].(data := buf[b].data, valid := true)]
    {
      hide IsRing, ViewOf;
      if !buf[b].valid {
        var x := buf[b].(data := disk[buf[b].blockno], valid := true);
        FillKeepsView(buf, disk, b, x);
        buf := buf[b := x];
      }
      ViewHit(buf, disk, b);
    }

    /** bread: a locked buffer with the contents of the block, reading the disk if need be. */
    method Bread(blockno: nat) returns (b: nat)
      requires Valid() && blockno < |disk|
      requires forall i :: 0 <= i < NBUF && Holds(buf, i, blockno) ==> !buf[i].locked
      modifies this`buf
      ensures Valid() && View() == old(View())
      ensures b == HEAD <==> !old(Cached(blockno)) && old(|Busy(buf)|) == NBUF
      ensures b == HEAD ==> buf == old(buf)
      ensures b != HEAD ==>
                && b < NBUF && Holds(buf, b, blockno) && buf[b].locked && buf[b].valid
                && buf == old(buf)[b := buf[b]] && DirtyBlocks(buf) == old(DirtyBlocks(buf))
                && buf[b].data == View()[blockno]
      ensures old(Cached(blockno)) ==> Holds(old(buf), b, blockno)
                                       && buf[b].refcnt == old(buf[b].refcnt) + 1 && buf[b].dirty == old(buf[b].dirty)
      ensures b != HEAD && !old(Cached(blockno)) ==> old(Recyclable(buf[b])) && buf[b].refcnt == 1 && !buf[b].dirty
    {
      hide IsRing, ViewOf, View, Busy;
      b := Bget(blockno);
      if b == HEAD { return; }
      Load(b);
      DirtyAfter(old(buf), disk, b, buf[b]);
    }

    /** The holder of a buffer overwrites its data (memmove into b->data). */
    method SetData(b: nat, data: Block)
      requires Valid() && b < NBUF && buf[b].dev == DEV && buf[b].locked && buf[b].valid
      modifies this`buf
      ensures Valid() && buf == old(buf)[b := old(buf)[b].(data := data)]
      ensures View() == old(View())[buf[b].blockno := data]
      ensures DirtyBlocks(buf) == old(DirtyBlocks(buf))
    {
      DirtyAfter(buf, disk, b, buf[b].(data := data));
      var x := buf[b].(data := data);
      forall c: nat | c < |disk| && c != x.blockno ensures ViewOf(buf[b := x], disk, c) == ViewOf(buf, disk, c) {
        ViewElsewhere(buf, disk, b, x, c);
      }
      buf := buf[b := x];
      ViewHit(buf, disk, b);
    }

    /** bwrite, with the disk's iderw: the block reaches the disk and the buffer is clean. */
    method Bwrite(b: nat)
      requires Valid() && b < NBUF && buf[b].dev == DEV && buf[b].locked && buf[b].valid
      modifies this`buf, this`disk, this`history
      ensures buf == old(buf)[b := old(buf)[b].(dirty := false)]
      ensures Valid() && View() == old(View())
      ensures disk == old(disk)[buf[b].blockno := buf[b].data]
      ensures history == Then(old(history), disk)
      ensures DirtyBlocks(buf) == old(DirtyBlocks(buf)) - (if old(buf)[b].dirty then {buf[b].blockno} else {})
    {
      DirtyAfter(buf, disk, b, buf[b].(dirty := false));
      var x := buf[b].(dirty := false);
      var d := disk[x.blockno := x.data];
      forall c: nat | c < |disk| ensures ViewOf(buf[b := x], d, c) == ViewOf(buf, disk, c) {
        if c == x.blockno {
          ViewHit(buf, disk, b);
          assert Holds(buf[b := x], b, c) && buf[b := x][b].valid;
        } else {
          WriteElsewhere(buf, disk, b, x, d, c);
        }
      }
      buf, disk := buf[b := x], d;
      history := Then(history, disk);
    }

    /** The last line of log_write: pin a modified buffer until the log has installed it. */
    method Pin(b: nat)
      requires Valid() && b < NBUF && buf[b].dev == DEV && buf[b].locked && buf[b].valid
      modifies this`buf
      ensures Valid() && View() == old(View())
      ensures buf == old(buf)[b := old(buf)[b].(dirty := true)]
      ensures DirtyBlocks(buf) == old(DirtyBlocks(buf)) + {buf[b].blockno}
    {
      DirtyAfter(buf, disk, b, buf[b].(dirty := true));
      var x := buf[b].(dirty := true);
      FillKeepsView(buf, disk, b, x);
      buf := buf[b := x];
    }

    /** brelse: only a clean copy of its block or a pinned buffer may be let go. */
    method Brelse(b: nat)
      requires Valid() && b < NBUF && buf[b].locked && buf[b].valid
      requires buf[b].dirty || buf[b].data == disk[buf[b].blockno]
      modifies this`buf, this`next, this`prev, this`order
      ensures Valid() && View() == old(View())
      ensures buf == old(buf)[b := old(buf)[b].(locked := false, refcnt := old(buf)[b].refcnt - 1)]
      ensures DirtyBlocks(buf) == old(DirtyBlocks(buf))
      ensures buf[b].refcnt > 0 ==> order == old(order)
      ensures buf[b].refcnt == 0 ==>
                exists k :: 0 <= k < NBUF && old(order)[k] == b && order == [b] + Removed(old(order), k)
    {
      hide IsRing, ViewOf;
      var x := buf[b].(locked := false, refcnt := buf[b].refcnt - 1);
      LockKeepsView(buf, disk, b, x);
      DirtyAfter(buf, disk, b, x);
      buf := buf[b := x];
      if x.refcnt == 0 {
        MoveToFront(b);
      }
    }

    method MoveToFront(b: nat)
      requires Valid() && b < NBUF
      modifies this`next, this`prev, this`order
      ensures |order| == NBUF && IsRing(order, next, prev)
      ensures exists k :: 0 <= k < NBUF && old(order)[k] == b && order == [b] + Removed(old(order), k)
    {
      OnRing(order, NBUF);
      assert b in order;
      ghost var k :| 0 <= k < NBUF && order[k] == b;
      UnlinkKeepsRing(order, next, prev, k);
      ghost var rest := Removed(order, k);
      prev := prev[next[b] := prev[b]];
      next := next[prev[b] := next[b]];
      PushFrontKeepsRing(rest, next, prev, b);
      next := next[b := next[HEAD]];
      prev := prev[b := HEAD];
      prev := prev[next[HEAD] := b];
      next := next[HEAD := b];
      order := [b] + rest;
    }
  }
}
