/**
The write-ahead log (log.c) running on the buffer cache. Each method is tied to the
block-by-block account of `LogSpec` through the cache's disk history, so what is proved
there of every crash point holds of this code.
*/
module Log {
  import opened Param
  import opened Blocks
  import opened Bio
  import opened LogSpec
  import P = LogProtocol
  import R = LogRuns

  function Elems(s: seq<nat>): (r: set<nat>) { set b | b in s }

  /** Nobody is using a buffer. */
  ghost predicate Idle(buf: seq<Buf>)
  {
    forall i :: 0 <= i < |buf| ==> buf[i].refcnt == 0
  }

  /** Buffers of distinct blocks cannot outnumber the blocks. */
  lemma {:induction false} NoMoreBuffersThanBlocks(buf: seq<Buf>, s: set<nat>, hdr: seq<nat>)
    requires forall i :: i in s ==> i < |buf| && buf[i].blockno in hdr
    requires forall i, j :: i in s && j in s && i != j ==> buf[i].blockno != buf[j].blockno
    ensures |s| <= |hdr|
  {
    if |hdr| > 0 {
      var m := |hdr| - 1;
      var s' := set i | i in s && buf[i].blockno != hdr[m];
      NoMoreBuffersThanBlocks(buf, s', hdr[..m]);
      if i :| i in s && buf[i].blockno == hdr[m] {
        assert s == s' + {i};
      } else {
        assert s == s';
      }
    } else {
      assert s == {};
    }
  }

  lemma BusyBound(buf: seq<Buf>, disk: Disk, hdr: seq<nat>)
    requires Agrees(buf, disk) && Idle(buf) && DirtyBlocks(buf) <= Elems(hdr)
    ensures |Busy(buf)| <= |hdr|
  {
    forall i | i in Busy(buf) ensures buf[i].blockno in hdr {
      assert buf[i].blockno in DirtyBlocks(buf);
    }
    NoMoreBuffersThanBlocks(buf, Busy(buf), hdr);
  }

  /** As many buffers are pinned as there are blocks in the header. */
  lemma {:induction false} AsManyBuffers(buf: seq<Buf>, hdr: seq<nat>, k: nat) returns (s: set<nat>)
    requires k <= |hdr| && Elems(hdr) <= DirtyBlocks(buf) && forall i, j :: 0 <= i < j < |hdr| ==> hdr[i] != hdr[j]
    ensures |s| == k && s <= Busy(buf) && forall i :: i in s ==> i < |buf| && buf[i].blockno in hdr[..k]
  {
    if k == 0 {
      s := {};
    } else {
      s := AsManyBuffers(buf, hdr, k - 1);
      assert hdr[k - 1] in DirtyBlocks(buf);
      var i :| 0 <= i < |buf| && buf[i].dirty && buf[i].blockno == hdr[k - 1];
      assert i !in s && i in Busy(buf);
      s := s + {i};
    }
  }

  /** The bread that write_log begins with finds no buffer exactly when the header has as many blocks as the cache has
      buffers: every buffer is then pinned, and none of them holds a block of the log. */
  lemma NoBufferIff(buf: seq<Buf>, disk: Disk, g: Geometry, hdr: seq<nat>, b: nat)
    requires Agrees(buf, disk) && Idle(buf) && DirtyBlocks(buf) == Elems(hdr) && WfHeader(hdr, g, |disk|) && InLog(g, b)
    ensures (forall i :: !Holds(buf, i, b)) && |Busy(buf)| == NBUF <==> |hdr| == NBUF
  {
    BusyBound(buf, disk, hdr);
    AllBusy(buf);
    if |hdr| == NBUF {
      var s := AsManyBuffers(buf, hdr, NBUF);
      SubsetSize(s, Busy(buf));
      assert forall i :: 0 <= i < NBUF ==> buf[i].dirty && buf[i].blockno in DirtyBlocks(buf);
    }
  }

  /** Holding one more buffer leaves the home block reachable. */
  lemma StillRoom(buf: seq<Buf>, buf': seq<Buf>, disk: Disk, x: nat, home: nat)
    requires Agrees(buf, disk) && Agrees(buf', disk) && x < NBUF
    requires buf' == buf[x := buf'[x]] && DirtyBlocks(buf') == DirtyBlocks(buf)
    requires home in DirtyBlocks(buf) || |Busy(buf)| + 1 < NBUF
    ensures (exists i :: Holds(buf', i, home)) || |Busy(buf')| < NBUF
  {
    if home in DirtyBlocks(buf') {
      var i :| 0 <= i < NBUF && buf'[i].dirty && buf'[i].blockno == home;
      assert Holds(buf', i, home);
    } else {
      assert Busy(buf') <= Busy(buf) + {x};
      SubsetSize(Busy(buf'), Busy(buf) + {x});
    }
  }

  /** A block nobody has pinned is seen as it is on disk. */
  lemma CleanView(buf: seq<Buf>, disk: Disk, b: nat)
    requires Agrees(buf, disk) && Idle(buf) && b < |disk| && b !in DirtyBlocks(buf)
    ensures ViewOf(buf, disk, b) == disk[b]
  {
    if i :| Holds(buf, i, b) && buf[i].valid {
      assert 0 <= i < |buf| && (buf[i].dirty ==> b in DirtyBlocks(buf));
    }
  }

  lemma HeaderWords(hdr: seq<nat>, g: Geometry, d: Disk)
    requires Fits(g, d) && WfHeader(hdr, g, |d|)
    ensures |hdr| <= LOGSIZE && forall i :: 0 <= i < |hdr| ==> hdr[i] < UINT_MOD
  {
  }

  lemma HeaderFits(hdr: seq<nat>, g: Geometry, nblocks: nat, t: nat)
    requires WfHeader(hdr, g, nblocks) && t < |hdr|
    ensures |hdr| < g.size && hdr[t] < nblocks && !InLog(g, hdr[t])
    ensures forall b :: b in hdr ==> !InLog(g, b)
    ensures forall b :: InLog(g, b) ==> b !in Elems(hdr)
    ensures InLog(g, g.start) && InLog(g, g.start + t + 1)
  {
  }

  lemma EmptyElems()
    ensures Elems([]) == {}
  {
  }

  lemma DirtyIsListed(buf: seq<Buf>, i: nat)
    requires i < |buf|
    ensures buf[i].dirty ==> buf[i].blockno in DirtyBlocks(buf)
  {
  }

  lemma ListedIsDirty(buf: seq<Buf>, d: Disk, i: nat)
    requires Agrees(buf, d) && i < |buf| && buf[i].valid && buf[i].dev == DEV && buf[i].blockno in DirtyBlocks(buf)
    ensures buf[i].dirty
  {
  }

  lemma SameHomeRefl(v: Disk, g: Geometry)
    ensures SameHome(v, v, g)
  {
  }

  /** Copying a home block into the log changes nothing at home. */
  lemma LogCopyStep(w: Disk, v: Disk, g: Geometry, hdr: seq<nat>, t: nat, nblocks: nat)
    requires WfHeader(hdr, g, nblocks) && t < |hdr| && |v| == nblocks && g.start + g.size <= nblocks
    requires SameHome(w, v, g)
    ensures hdr[t] < nblocks && w[hdr[t]] == v[hdr[t]]
    ensures SameHome(w[g.start + t + 1 := w[hdr[t]]], v, g)
  {
  }

  /** The blocks still to install after one more turn. */
  lemma HeaderShrinks(hdr: seq<nat>, g: Geometry, nblocks: nat, t: nat)
    requires WfHeader(hdr, g, nblocks) && t < |hdr|
    ensures hdr[t] in Elems(hdr[t..]) && Elems(hdr[t..]) <= Elems(hdr)
    ensures Elems(hdr[t..]) - {hdr[t]} == Elems(hdr[t + 1..])
  {
    assert hdr[t..] == [hdr[t]] + hdr[t + 1..];
    assert hdr[t] !in hdr[t + 1..];
  }

  lemma AbsorbFacts(hdr: seq<nat>, g: Geometry, nblocks: nat, b: nat)
    requires WfHeader(hdr, g, nblocks) && b < nblocks && !InLog(g, b) && |hdr| < LOGSIZE && |hdr| + 1 < g.size
    ensures WfHeader(Absorb(hdr, b), g, nblocks) && Elems(Absorb(hdr, b)) == Elems(hdr) + {b}
  {
  }

  lemma RecoveredIsEmpty(d: Disk, g: Geometry)
    requires WfDisk(d, g)
    ensures WfDisk(Recovered(d, g), g) && HeaderOf(Recovered(d, g)[g.start]) == []
  {
    hide HeaderOf, PutHeader, Installed, WfHeader;
    var hdr := HeaderOf(d[g.start]);
    RecoveryRestarts(d, g, |hdr| + 1);
    HeaderRoundTrip(Installed(d, g, hdr, |hdr|)[g.start], []);
  }

  /** Between commits the header on the disk is empty and the cache differs from the disk only at the logged blocks. */
  lemma QuietDisk(s: P.State, d: Disk, g: Geometry)
    requires P.Tracks(s, d, g) && (s.committing ==> s.base == s.disk)
    ensures WfDisk(s.disk, g) && HeaderOf(s.disk[g.start]) == [] && |s.view| == |s.disk|
    ensures P.DiffersOnlyAt(s.view, s.disk, s.hdr, g)
  {
  }

  /** A commit looks at the cache only for the logged blocks, which are all home blocks. */
  lemma {:induction false} SameCommit(h: History, d: Disk, g: Geometry, hdr: seq<nat>, v: Disk, w: Disk, k: nat)
    requires Fits(g, d) && WfHeader(hdr, g, |d|) && |v| == |w| == |d| && SameHome(v, w, g) && k <= 2 * |hdr| + 2
    ensures CommitState(d, g, hdr, v, k) == CommitState(d, g, hdr, w, k)
    ensures CommitTrace(h, d, g, hdr, v, k) == CommitTrace(h, d, g, hdr, w, k)
  {
    hide Installed, Headed;
    SameCopies(d, g, hdr, v, w, if k <= |hdr| then k else |hdr|);
    if k > 0 { SameCommit(h, d, g, hdr, v, w, k - 1); }
  }

  lemma {:induction false} SameCopies(d: Disk, g: Geometry, hdr: seq<nat>, v: Disk, w: Disk, k: nat)
    requires Fits(g, d) && WfHeader(hdr, g, |d|) && |v| == |w| == |d| && SameHome(v, w, g) && k <= |hdr|
    ensures LogCopied(d, g, hdr, v, k) == LogCopied(d, g, hdr, w, k)
  {
    if k > 0 { SameCopies(d, g, hdr, v, w, k - 1); }
  }

  /** After the last write of a commit the home blocks are what the cache held. */
  lemma CommittedView(d: Disk, g: Geometry, hdr: seq<nat>, v: Disk)
    requires WfDisk(d, g) && HeaderOf(d[g.start]) == [] && WfHeader(hdr, g, |d|) && |v| == |d|
    requires P.DiffersOnlyAt(v, d, hdr, g)
    ensures hdr == [] ==> SameHome(d, v, g)
    ensures SameHome(CommitState(d, g, hdr, v, 2 * |hdr| + 2), v, g)
  {
    hide CommitState;
    CommitCompletes(d, g, hdr, v);
    P.AppliedView(v, d, hdr, g);
  }

  lemma SameHomeTrans(a: Disk, b: Disk, c: Disk, g: Geometry)
    ensures SameHome(a, b, g) ==> SameHome(b, a, g)
    ensures SameHome(a, b, g) && SameHome(b, c, g) ==> SameHome(a, c, g) && |a| == |b| == |c|
  {
  }

  /** What the commit of the protocol leaves, told with the cache that the log copies from. */
  lemma CommitOutcome(past: History, start: Disk, g: Geometry, budget: nat, run: seq<P.Action>, v: Disk)
    requires P.Legal(start, g, budget, run) && budget <= MAXOPBLOCKS
    requires var s := P.Exec(start, g, budget, run);
             s.committing && s.base == s.disk && s.done == 0 && s.outstanding == map[] && SameHome(s.view, v, g)
    ensures var s, h := P.Exec(start, g, budget, run), R.Disks(past, start, g, budget, run);
            var n, all := |s.hdr|, run + R.CommitRun(|s.hdr|);
            && Fits(g, s.disk) && WfHeader(s.hdr, g, |s.disk|) && |v| == |s.disk| && P.Legal(start, g, budget, all)
            && var r := P.Exec(start, g, budget, all);
            && r.hdr == [] && r.outstanding == map[] && !r.committing && SameHome(r.view, r.disk, g)
            && SameHome(r.disk, v, g)
            && r.disk == (if n == 0 then s.disk else CommitState(s.disk, g, s.hdr, v, 2 * n + 2))
            && R.Disks(past, start, g, budget, all) ==
                 if n == 0 then h else CommitTrace(h, s.disk, g, s.hdr, v, 2 * n + 2)
  {
    hide WfHeader, Fits, CommitState, CommitTrace, HeaderOf, P.Legal, P.Exec, R.Disks, R.CommitRun, SameHome, P.Whole,
         P.Reserved;
    var s := P.Exec(start, g, budget, run);
    P.Invariants(start, g, budget, run);
    P.TracksShape(s, start, g);
    QuietDisk(s, start, g);
    R.CommitsAll(past, start, g, budget, run);
    SameHomeTrans(s.view, v, v, g);
    CommittedView(s.disk, g, s.hdr, s.view);
    SameCommit(R.Disks(past, start, g, budget, run), s.disk, g, s.hdr, s.view, v, 2 * |s.hdr| + 2);
    var r := P.Exec(start, g, budget, run + R.CommitRun(|s.hdr|));
    SameHomeTrans(r.disk, s.view, v, g);
  }

  class Log {
    const g: Geometry
    const cache: Cache
    var n: nat            // lh.n
    var block: seq<nat>   // lh.block
    var outstanding: nat
    var committing: bool
    ghost const budget: nat         // how many blocks an operation may add to the header
    ghost var start: Disk           // the disk after initlog
    ghost var past: History         // how it came about
    ghost var run: seq<P.Action>    // the steps of the group-commit protocol taken since

    ghost function Header(): (hdr: seq<nat>)
      reads this
    {
      if n <= |block| then block[..n] else []
    }

    ghost predicate Core()
      reads this, cache
    {
      && cache.Valid() && Idle(cache.buf) && Fits(g, cache.disk)
      && |block| == LOGSIZE && n <= LOGSIZE && WfHeader(Header(), g, |cache.disk|)
    }

    /** The state between two file system steps: the pinned buffers are those of the logged blocks. */
    ghost predicate Valid()
      reads this, cache
    {
      Core() && DirtyBlocks(cache.buf) == Elems(Header())
    }

    /** The state of the protocol after the steps taken so far. */
    ghost function Now(): (s: P.State)
      reads this
    {
      P.Exec(start, g, budget, run)
    }

    /** The log is where a legal run of the protocol has brought it, and has written the disks of that run. */
    ghost predicate Follows()
      reads this, cache
    {
      && budget <= MAXOPBLOCKS && past.disk == start && P.Legal(start, g, budget, run)
      && Now().disk == cache.disk && Now().hdr == Header() && |Header()| == n && SameHome(Now().view, cache.View(), g)
      && |Now().outstanding| == outstanding && Now().committing == committing
      && cache.history == R.Disks(past, start, g, budget, run)
    }

    /** What the methods below need of the invariant. */
    lemma CoreFacts()
      requires Core()
      ensures cache.Valid() && Agrees(cache.buf, cache.disk) && Idle(cache.buf) && |cache.buf| == NBUF
      ensures Fits(g, cache.disk) && g.start < |cache.disk|
      ensures WfHeader(Header(), g, |cache.disk|) && |block| == LOGSIZE && |Header()| == n < g.size && n <= LOGSIZE
      ensures forall i :: 0 <= i < n ==> block[i] == Header()[i]
    {
    }

    lemma ValidFacts()
      requires Valid()
      ensures Core() && DirtyBlocks(cache.buf) == Elems(Header()) && 0 < NBUF
    {
    }

    lemma ValidBecause()
      requires Core() && DirtyBlocks(cache.buf) == Elems(Header())
      ensures Valid()
    {
    }

    /** initlog: recover, then start with an empty log. */
    constructor (c: Cache, geometry: Geometry, ghost b: nat)
      requires b <= MAXOPBLOCKS && c.Valid() && Idle(c.buf) && DirtyBlocks(c.buf) == {}
      requires WfDisk(c.disk, geometry)
      modifies c
      ensures Valid() && Follows() && run == [] && cache == c && g == geometry && budget == b && n == 0
      ensures outstanding == 0 && !committing
      ensures start == c.disk == Recovered(old(c.disk), g)
    {
      cache, g, n, block, outstanding, committing := c, geometry, 0, seq(LOGSIZE, _ => 0), 0, false;
      budget := b;
      new;
      hide *;
      FirstRun();
    }

    /** The recovery, and the start of the first run. */
    method FirstRun()
      requires cache.Valid() && Idle(cache.buf) && DirtyBlocks(cache.buf) == {} && |block| == LOGSIZE
      requires WfDisk(cache.disk, g) && budget <= MAXOPBLOCKS && outstanding == 0 && !committing
      modifies this`n, this`block, this`start, this`past, this`run, cache
      ensures Valid() && Follows() && run == [] && n == 0 && start == cache.disk == Recovered(old(cache.disk), g)
    {
      hide Cache.Valid, Agrees, Idle, DirtyBlocks, Cache.View, Recovered, RecoveryTrace, HeaderOf, WfHeader, Follows;
      RecoveredIsEmpty(cache.disk, g);
      RecoverFromLog();
      start, past, run := cache.disk, cache.history, [];
      StartsRun();
    }

    /** A run of no steps. */
    lemma StartsRun()
      requires Valid() && n == 0 && outstanding == 0 && !committing && budget <= MAXOPBLOCKS
      requires start == cache.disk && past == cache.history && run == []
      requires WfDisk(start, g) && HeaderOf(start[g.start]) == []
      ensures Follows()
    {
      hide IsRing, ViewOf, Cache.View, Agrees, HeaderOf, WfHeader, DirtyBlocks, Idle;
      AllClean();
      SameHomeRefl(start, g);
    }

    /** With nothing logged, the cache shows the disk. */
    lemma AllClean()
      requires Valid() && n == 0
      ensures cache.View() == cache.disk
    {
      hide IsRing, ViewOf;
      forall b: nat | b < |cache.disk| ensures cache.View()[b] == cache.disk[b] {
        CleanView(cache.buf, cache.disk, b);
      }
    }

    lemma PinnedIff(b: nat)
      requires cache.Valid() && b < NBUF && cache.buf[b].valid && cache.buf[b].dev == DEV
      ensures cache.buf[b].dirty <==> cache.buf[b].blockno in DirtyBlocks(cache.buf)
    {
      hide IsRing;
      if cache.buf[b].blockno in DirtyBlocks(cache.buf) { ListedIsDirty(cache.buf, cache.disk, b); }
    }

    /** Buffer b is held once, and no other. */
    ghost predicate HoldsOne(b: nat)
      reads cache
    {
      && |cache.buf| == NBUF && b < NBUF && cache.buf[b].dev == DEV && cache.buf[b].locked && cache.buf[b].valid
      && forall i :: 0 <= i < NBUF ==> cache.buf[i].refcnt == if i == b then 1 else 0
    }

    /** bread of a block, nothing else being held. */
    method Acquire(blockno: nat) returns (b: nat)
      requires cache.Valid() && Idle(cache.buf) && blockno < |cache.disk| && |Busy(cache.buf)| < NBUF
      modifies cache`buf
      ensures cache.Valid() && HoldsOne(b) && cache.buf[b].blockno == blockno
      ensures cache.buf[b].data == cache.View()[blockno] && (cache.buf[b].dirty ==> blockno in DirtyBlocks(cache.buf))
      ensures cache.View() == old(cache.View()) && DirtyBlocks(cache.buf) == old(DirtyBlocks(cache.buf))
    {
      hide IsRing, ViewOf, Cache.View, Busy, DirtyBlocks;
      b := cache.Bread(blockno);
      DirtyIsListed(cache.buf, b);
    }

    /** brelse of the one buffer held. */
    method Release(b: nat)
      requires cache.Valid() && HoldsOne(b) && cache.buf[b].blockno < |cache.disk|
      requires cache.buf[b].dirty || cache.buf[b].data == cache.disk[cache.buf[b].blockno]
      modifies cache`buf, cache`next, cache`prev, cache`order
      ensures cache.Valid() && Idle(cache.buf)
      ensures cache.View() == old(cache.View()) && DirtyBlocks(cache.buf) == old(DirtyBlocks(cache.buf))
    {
      hide IsRing, ViewOf, Cache.View, DirtyBlocks;
      cache.Brelse(b);
    }

    /** Buffers x and y are held once each, and no other. */
    ghost predicate HoldsOnly(x: nat, y: nat)
      reads cache
    {
      && x < |cache.buf| && y < |cache.buf| && x != y
      && (forall i :: 0 <= i < |cache.buf| ==> cache.buf[i].refcnt == if i == x || i == y then 1 else 0)
      && cache.buf[x].locked && cache.buf[y].locked && cache.buf[x].valid && cache.buf[y].valid
    }

    /** bread of a log block and then of a home block; HEAD stands for the panic of the first. */
    method ReadPair(copy: nat, home: nat) returns (x: nat, y: nat)
      requires cache.Valid() && Idle(cache.buf) && copy < |cache.disk| && home < |cache.disk| && copy != home
      requires home in DirtyBlocks(cache.buf) || |Busy(cache.buf)| + 1 < NBUF
      modifies cache`buf
      ensures x == HEAD <==> !old(cache.Cached(copy)) && old(|Busy(cache.buf)|) == NBUF
      ensures cache.Valid() && cache.View() == old(cache.View())
      ensures DirtyBlocks(cache.buf) == old(DirtyBlocks(cache.buf))
      ensures x == HEAD ==> cache.buf == old(cache.buf)
      ensures x != HEAD ==>
                && HoldsOnly(x, y) && Holds(cache.buf, x, copy) && Holds(cache.buf, y, home)
                && x < NBUF && cache.buf[x].data == cache.View()[copy]
                && y < NBUF && cache.buf[y].data == cache.View()[home]
    {
      hide IsRing, ViewOf, Cache.View, Busy, DirtyBlocks, Cache.Cached;
      ghost var buf0 := cache.buf;
      x := cache.Bread(copy);
      if x == HEAD { return x, HEAD; }
      StillRoom(buf0, cache.buf, cache.disk, x, home);
      CachedIff(home);
      y := cache.Bread(home);
    }

    lemma CachedIff(b: nat)
      ensures cache.Cached(b) <==> exists i :: Holds(cache.buf, i, b)
    {
    }

    /** brelse of the two buffers held. */
    method ReleasePair(x: nat, y: nat)
      requires cache.Valid() && HoldsOnly(x, y)
      requires cache.buf[x].dirty || cache.buf[x].data == cache.disk[cache.buf[x].blockno]
      requires cache.buf[y].dirty || cache.buf[y].data == cache.disk[cache.buf[y].blockno]
      modifies cache`buf, cache`next, cache`prev, cache`order
      ensures cache.Valid() && Idle(cache.buf)
      ensures cache.View() == old(cache.View()) && DirtyBlocks(cache.buf) == old(DirtyBlocks(cache.buf))
    {
      cache.Brelse(x);
      cache.Brelse(y);
    }

    /** One turn of the loop of write_log. */
    method WriteLogBlock(tail: nat) returns (ok: bool)
      requires Valid() && tail < n
      modifies cache
      ensures Valid() && (ok <==> n < NBUF)
      ensures !ok ==> cache.disk == old(cache.disk) && cache.history == old(cache.history)
                      && cache.View() == old(cache.View())
      ensures ok ==>
                && cache.disk == old(cache.disk)[g.start + tail + 1 := old(cache.View())[block[tail]]]
                && cache.View() == old(cache.View())[g.start + tail + 1 := old(cache.View())[block[tail]]]
                && cache.history == Then(old(cache.history), cache.disk)
    {
      hide IsRing, ViewOf, Cache.View, WfHeader, DirtyBlocks, Busy, InLog, Agrees, Idle, Cache.Cached;
      CoreFacts();
      HeaderFits(Header(), g, |cache.disk|, tail);
      NoBufferIff(cache.buf, cache.disk, g, Header(), g.start + tail + 1);
      CachedIff(g.start + tail + 1);
      assert Header()[tail] == block[tail] && !InLog(g, block[tail]) && block[tail] in DirtyBlocks(cache.buf);
      var to, from := ReadPair(g.start + tail + 1, block[tail]);
      if to == HEAD { return false; }
      DirtyIsListed(cache.buf, to);
      ListedIsDirty(cache.buf, cache.disk, from);
      CopyOut(from, to);
      ReleasePair(from, to);
      ok := true;
    }

    /** false stands for the panic of bget. */
    method WriteLog() returns (ok: bool)
      requires Valid()
      modifies cache
      ensures Valid() && |cache.disk| == old(|cache.disk|) && (ok <==> n < NBUF)
      ensures !ok ==> cache.disk == old(cache.disk) && cache.history == old(cache.history)
                      && cache.View() == old(cache.View())
      ensures ok ==>
                && cache.disk == LogCopied(old(cache.disk), g, Header(), old(cache.View()), n)
                && cache.history == LogTrace(old(cache.history), old(cache.disk), g, Header(), old(cache.View()), n)
                && SameHome(cache.View(), old(cache.View()), g)
    {
      hide *;
      ghost var d, v, h, hdr := cache.disk, cache.View(), cache.history, Header();
      ValidFacts();
      CoreFacts();
      SameHomeRefl(v, g);
      TracesStart(h, d, g, hdr, v);
      for tail := 0 to n
        invariant Valid() && Header() == hdr && |cache.disk| == |d|
        invariant cache.disk == LogCopied(d, g, hdr, v, tail)
        invariant cache.history == LogTrace(h, d, g, hdr, v, tail)
        invariant SameHome(cache.View(), v, g) && (if tail == 0 then cache.View() == v else n < NBUF)
      {
        LogCopyStep(cache.View(), v, g, hdr, tail, |d|);
        LogStep(h, d, g, hdr, v, tail);
        ValidFacts();
        CoreFacts();
        ok := WriteLogBlock(tail);
        if !ok { return; }
      }
      ok := true;
    }

    /** memmove from one held buffer to another, then bwrite it. */
    method CopyOut(from: nat, to: nat)
      requires cache.Valid() && from < NBUF && to < NBUF && from != to
      requires cache.buf[from].valid && cache.buf[to].valid && cache.buf[to].locked && cache.buf[to].dev == DEV
      modifies cache`buf, cache`disk, cache`history
      ensures cache.Valid()
      ensures cache.buf == old(cache.buf)[to := old(cache.buf)[to].(data := old(cache.buf)[from].data, dirty := false)]
      ensures cache.disk == old(cache.disk)[cache.buf[to].blockno := cache.buf[to].data]
      ensures cache.View() == old(cache.View())[cache.buf[to].blockno := cache.buf[to].data]
      ensures cache.history == Then(old(cache.history), cache.disk)
      ensures DirtyBlocks(cache.buf) ==
                old(DirtyBlocks(cache.buf)) - (if old(cache.buf)[to].dirty then {cache.buf[to].blockno} else {})
    {
      cache.SetData(to, cache.buf[from].data);
      cache.Bwrite(to);
    }

    /** One turn of the loop of install_trans. In a commit the home block is still pinned; in recovery nothing is. */
    method InstallBlock(tail: nat)
      requires Core() && tail < n
      requires DirtyBlocks(cache.buf) == {}
               || (block[tail] in DirtyBlocks(cache.buf) && DirtyBlocks(cache.buf) <= Elems(Header()) && n < NBUF)
      modifies cache
      ensures Core()
      ensures cache.disk == old(cache.disk)[block[tail] := old(cache.disk)[g.start + tail + 1]]
      ensures cache.history == Then(old(cache.history), cache.disk)
      ensures DirtyBlocks(cache.buf) == old(DirtyBlocks(cache.buf)) - {block[tail]}
    {
      hide Cache.Valid, Agrees, Idle, ViewOf, WfHeader, Busy, InLog, DirtyBlocks;
      CoreFacts();
      EmptyElems();
      HeaderFits(Header(), g, |cache.disk|, tail);
      BusyBound(cache.buf, cache.disk, if DirtyBlocks(cache.buf) == {} then [] else Header());
      assert Header()[tail] == block[tail];
      CleanView(cache.buf, cache.disk, g.start + tail + 1);
      var lbuf, dbuf := ReadPair(g.start + tail + 1, block[tail]);
      DirtyIsListed(cache.buf, lbuf);
      PinnedIff(dbuf);
      CopyOut(lbuf, dbuf);
      ReleasePair(lbuf, dbuf);
    }

    method InstallTrans()
      requires Core() && (DirtyBlocks(cache.buf) == {} || (DirtyBlocks(cache.buf) == Elems(Header()) && n < NBUF))
      modifies cache
      ensures Core() && |cache.disk| == old(|cache.disk|) && DirtyBlocks(cache.buf) == {}
      ensures cache.disk == Installed(old(cache.disk), g, Header(), n)
      ensures cache.history == InstallTrace(old(cache.history), old(cache.disk), g, Header(), n)
    {
      hide *;
      ghost var d, h, hdr := cache.disk, cache.history, Header();
      ghost var pinned := DirtyBlocks(cache.buf) != {};
      CoreFacts();
      TracesStart(h, d, g, hdr, d);
      assert hdr[0..] == hdr && hdr[n..] == [];
      EmptyElems();
      for tail := 0 to n
        invariant Core() && Header() == hdr && |cache.disk| == |d|
        invariant cache.disk == Installed(d, g, hdr, tail)
        invariant cache.history == InstallTrace(h, d, g, hdr, tail)
        invariant DirtyBlocks(cache.buf) == if pinned then Elems(hdr[tail..]) else {}
      {
        CoreFacts();
        HeaderShrinks(hdr, g, |d|, tail);
        InstallStep(h, d, g, hdr, tail);
        InstallBlock(tail);
      }
    }

    /** The loop of write_head, on the contents of the header buffer. */
    method BuildHeader(b: Block) returns (data: Block)
      requires |block| == LOGSIZE && n <= LOGSIZE && forall i :: 0 <= i < n ==> block[i] < UINT_MOD
      ensures data == PutHeader(b, Header(), n)
    {
      data := PutWord(b, 0, n);
      for i := 0 to n
        invariant data == PutHeader(b, Header(), i)
      {
        data := PutWord(data, i + 1, block[i]);
      }
    }

    method WriteHead()
      requires Core() && |Busy(cache.buf)| < NBUF && g.start !in DirtyBlocks(cache.buf)
      modifies cache
      ensures Core()
      ensures cache.disk == Headed(old(cache.disk), g, Header())
      ensures cache.history == Then(old(cache.history), cache.disk)
      ensures DirtyBlocks(cache.buf) == old(DirtyBlocks(cache.buf))
      ensures cache.View() == old(cache.View())[g.start := cache.disk[g.start]]
    {
      hide Cache.Valid, Agrees, Idle, ViewOf, DirtyBlocks, WfHeader, HeaderOf, PutHeader, Busy;
      CoreFacts();
      HeaderWords(Header(), g, cache.disk);
      CleanView(cache.buf, cache.disk, g.start);
      var b := Acquire(g.start);
      var data := BuildHeader(cache.buf[b].data);
      cache.SetData(b, data);
      cache.Bwrite(b);
      Release(b);
    }

    /** `log.lh.n = 0; write_head();`, the end of both commit and recovery. */
    method ClearHead()
      requires Core() && DirtyBlocks(cache.buf) == {}
      modifies this`n, cache
      ensures Valid() && n == 0
      ensures cache.disk == Headed(old(cache.disk), g, [])
      ensures cache.history == Then(old(cache.history), cache.disk)
    {
      hide IsRing, ViewOf, Agrees, DirtyBlocks, Idle, Cache.Valid;
      CoreFacts();
      n := 0;
      BusyBound(cache.buf, cache.disk, []);
      WriteHead();
    }

    /** The first half of commit, up to and including the write that commits. */
    method WriteTransaction() returns (ok: bool)
      requires Valid() && n > 0
      modifies cache
      ensures Valid() && |cache.disk| == old(|cache.disk|) && (ok <==> n < NBUF)
      ensures !ok ==> cache.disk == old(cache.disk) && cache.history == old(cache.history)
                      && cache.View() == old(cache.View())
      ensures ok ==>
                && cache.disk == CommitState(old(cache.disk), g, Header(), old(cache.View()), n + 1)
                && cache.history == CommitTrace(old(cache.history), old(cache.disk), g, Header(), old(cache.View()),
                                                n + 1)
    {
      hide *;
      ghost var d, v, h, hdr := cache.disk, cache.View(), cache.history, Header();
      ValidFacts();
      CoreFacts();
      ok := WriteLog();
      if !ok { return; }
      ValidFacts();
      CoreFacts();
      LogTraceIsCommitTrace(h, d, g, hdr, v, n);
      CommitHeaderWrites(h, d, g, hdr, v);
      HeaderFits(hdr, g, |d|, 0);
      BusyBound(cache.buf, cache.disk, hdr);
      WriteHead();
      ValidBecause();
    }

    /** commit: the history gains exactly the states of `CommitState`, in order, and the log ends up empty. With as many
        blocks in the header as there are buffers it panics at its first bread, and has written nothing. */
    method Commit() returns (ok: bool)
      requires Valid() && WfDisk(cache.disk, g)
      modifies this`n, cache
      ensures Valid() && |cache.disk| == old(|cache.disk|) && (ok <==> old(n) < NBUF)
      ensures !ok ==>
                && n == old(n) && cache.disk == old(cache.disk) && cache.history == old(cache.history)
                && cache.View() == old(cache.View())
      ensures ok ==> n == 0
      ensures old(n) == 0 ==> cache.disk == old(cache.disk) && cache.history == old(cache.history)
      ensures ok && old(n) > 0 ==>
                && cache.disk == CommitState(old(cache.disk), g, old(Header()), old(cache.View()), 2 * old(n) + 2)
                && cache.history == CommitTrace(old(cache.history), old(cache.disk), g, old(Header()),
                                                old(cache.View()), 2 * old(n) + 2)
    {
      hide *;
      ValidFacts();
      EmptyElems();
      ok := true;
      if n > 0 {
        ghost var d, v, h, hdr := cache.disk, cache.View(), cache.history, Header();
        CoreFacts();
        ok := WriteTransaction();
        if !ok { return; }
        ValidFacts();
        InstallTrans();
        InstallTraceIsCommitTrace(h, d, g, hdr, v, n);
        CommitHeaderWrites(h, d, g, hdr, v);
        ClearHead();
      }
    }

    /** The loop of read_head, on the contents of the header buffer. */
    method LoadHeader(data: Block)
      requires |block| == LOGSIZE && Word(data, 0) <= LOGSIZE
      modifies this`n, this`block
      ensures |block| == LOGSIZE && n <= LOGSIZE && Header() == HeaderOf(data)
    {
      n := Word(data, 0);
      for i := 0 to n
        invariant |block| == LOGSIZE && n == Word(data, 0)
        invariant forall j :: 0 <= j < i ==> block[j] == Word(data, 1 + j)
      {
        block := block[i := Word(data, i + 1)];
      }
    }

    method ReadHead()
      requires cache.Valid() && Idle(cache.buf) && DirtyBlocks(cache.buf) == {} && |block| == LOGSIZE
      requires WfDisk(cache.disk, g)
      modifies this`n, this`block, cache
      ensures Core() && DirtyBlocks(cache.buf) == {}
      ensures Header() == HeaderOf(cache.disk[g.start])
      ensures cache.disk == old(cache.disk) && cache.history == old(cache.history)
    {
      hide IsRing, Agrees, Idle, ViewOf, DirtyBlocks, HeaderOf, Busy;
      CleanView(cache.buf, cache.disk, g.start);
      EmptyElems();
      BusyBound(cache.buf, cache.disk, []);
      var b := Acquire(g.start);
      LoadHeader(cache.buf[b].data);
      Release(b);
    }

    /** recover_from_log, from whatever disk the machine came up with. */
    method RecoverFromLog()
      requires cache.Valid() && Idle(cache.buf) && DirtyBlocks(cache.buf) == {} && |block| == LOGSIZE
      requires WfDisk(cache.disk, g)
      modifies this`n, this`block, cache
      ensures Valid() && n == 0 && |cache.disk| == old(|cache.disk|)
      ensures cache.disk == Recovered(old(cache.disk), g)
      ensures cache.history == RecoveryTrace(old(cache.history), old(cache.disk), g,
                                             |HeaderOf(old(cache.disk)[g.start])| + 1)
    {
      hide Agrees, IsRing, ViewOf, DirtyBlocks, Idle, Cache.Valid;
      ghost var d, h := cache.disk, cache.history;
      ReadHead();
      InstallTrans();
      InstallTraceIsRecoveryTrace(h, d, g, n);
      ClearHead();
    }

    /** log_write, by the holder of buffer b; false stands for its two panics. */
    method LogWrite(b: nat) returns (ok: bool)
      requires cache.Valid() && |block| == LOGSIZE && n <= LOGSIZE
      requires b < NBUF && cache.buf[b].dev == DEV && cache.buf[b].locked && cache.buf[b].valid
      modifies this`n, this`block, cache`buf
      ensures ok <==> old(n) < LOGSIZE && old(n) < g.size - 1 && outstanding >= 1
      ensures !ok ==> n == old(n) && block == old(block) && cache.buf == old(cache.buf)
      ensures ok ==>
                && cache.buf == old(cache.buf)[b := old(cache.buf)[b].(dirty := true)]
                && |block| == LOGSIZE && n <= LOGSIZE && Header() == Absorb(old(Header()), cache.buf[b].blockno)
                && DirtyBlocks(cache.buf) == old(DirtyBlocks(cache.buf)) + {cache.buf[b].blockno}
                && cache.Valid() && cache.View() == old(cache.View())
    {
      hide IsRing, ViewOf, DirtyBlocks;
      if n >= LOGSIZE || n >= g.size - 1 { return false; }
      if outstanding < 1 { return false; }
      Record(cache.buf[b].blockno);
      cache.Pin(b);
      ok := true;
    }

    /** The scan of log_write: a block already logged keeps its place. */
    method Record(blockno: nat)
      requires |block| == LOGSIZE && n < LOGSIZE
      modifies this`n, this`block
      ensures |block| == LOGSIZE && n <= LOGSIZE && Header() == Absorb(old(Header()), blockno)
    {
      var i := 0;
      while i < n
        invariant i <= n && forall j :: 0 <= j < i ==> block[j] != blockno
      {
        if block[i] == blockno { break; }
        i := i + 1;
      }
      assert i < n ==> Header()[i] == blockno;
      block := block[i := blockno];
      if i == n { n := n + 1; }
    }

    /** The use of the log prescribed to file system code, inside operation op: bread, modify, log_write, brelse. It is
        the log_write step of the protocol. */
    method Update(ghost op: nat, blockno: nat, data: Block)
      requires Valid() && Follows() && P.Enabled(Now(), P.LogWrite(op, blockno, data), g, budget)
      modifies this`n, this`block, this`run, cache
      ensures Valid() && Follows() && run == old(run) + [P.LogWrite(op, blockno, data)]
      ensures Header() == Absorb(old(Header()), blockno)
      ensures cache.disk == old(cache.disk) && cache.history == old(cache.history)
      ensures cache.View() == old(cache.View())[blockno := data]
    {
      hide IsRing, ViewOf, WfHeader, Absorb, Agrees, P.Legal, P.Exec, R.Disks, Idle, DirtyBlocks;
      R.Extended(past, start, g, budget, run, P.LogWrite(op, blockno, data));
      InOperation(op);
      Store(blockno, data);
      run := run + [P.LogWrite(op, blockno, data)];
    }

    lemma InOperation(op: nat)
      requires Follows() && op in Now().outstanding
      ensures outstanding >= 1 && !committing
    {
      P.Invariants(start, g, budget, run);
      assert op in Now().outstanding.Keys;
    }

    method Store(blockno: nat, data: Block)
      requires Valid() && blockno < |cache.disk| && !InLog(g, blockno)
      requires n < LOGSIZE && n < g.size - 1 && outstanding >= 1
      modifies this`n, this`block, cache
      ensures Valid() && Header() == Absorb(old(Header()), blockno)
      ensures cache.disk == old(cache.disk) && cache.history == old(cache.history)
      ensures cache.View() == old(cache.View())[blockno := data]
    {
      hide Cache.Valid, Agrees, Idle, ViewOf, Cache.View, WfHeader, Absorb, Busy, DirtyBlocks, InLog;
      CoreFacts();
      BusyBound(cache.buf, cache.disk, Header());
      AbsorbFacts(Header(), g, |cache.disk|, blockno);
      var b := Acquire(blockno);
      cache.SetData(b, data);
      var ok := LogWrite(b);
      Release(b);
    }

    /** One pass of the loop of begin_op; false means the caller sleeps and tries again. The pass is the begin step of
        the protocol, taken exactly when the protocol allows it; afterwards the header still has room for everything
        that the operations inside may add. */
    method BeginOp(ghost op: nat) returns (ok: bool)
      requires Follows() && op !in Now().begun
      modifies this`outstanding, this`run
      ensures Follows() && (old(Valid()) ==> Valid()) && ok == P.Enabled(old(Now()), P.BeginOp(op), g, budget)
      ensures run == if ok then old(run) + [P.BeginOp(op)] else old(run)
      ensures P.Reserved(Now(), budget, MAXOPBLOCKS, LOGSIZE)
      ensures (ok ==> op in Now().outstanding && Now().outstanding[op] == 0)
    {
      hide P.Legal, P.Exec, R.Disks, P.Tracks, P.Whole, P.Reserved;
      P.Invariants(start, g, budget, run);
      P.WholeFacts(Now());
      if committing { return false; }
      if n + (outstanding + 1) * MAXOPBLOCKS > LOGSIZE { return false; }
      R.Extended(past, start, g, budget, run, P.BeginOp(op));
      run := run + [P.BeginOp(op)];
      P.Invariants(start, g, budget, run);
      outstanding := outstanding + 1;
      ok := true;
    }

    /** The end of end_op once the last operation is out. */
    method CommitAll() returns (ok: bool)
      requires Valid() && Follows() && committing && outstanding == 0 && Now().base == Now().disk && Now().done == 0
      modifies this`n, this`committing, this`run, cache
      ensures Valid() && Follows() && |cache.disk| == old(|cache.disk|) && (ok <==> old(n) < NBUF)
      ensures !ok ==>
                && committing && n == old(n) && run == old(run)
                && cache.disk == old(cache.disk) && cache.history == old(cache.history)
      ensures ok ==>
                && !committing && n == 0 && run == old(run) + R.CommitRun(old(n))
                && SameHome(cache.disk, old(cache.View()), g) && SameHome(cache.View(), old(cache.View()), g)
    {
      hide Agrees, IsRing, ViewOf, DirtyBlocks, Idle, WfHeader, Fits, CommitState, CommitTrace, Cache.Valid, HeaderOf,
           P.Legal, P.Exec, R.Disks, P.Tracks, P.Whole, P.Reserved, R.CommitRun, SameHome, Cache.View, WfDisk;
      ghost var s, r := Now(), run + R.CommitRun(n);
      CoreFacts();
      P.Invariants(start, g, budget, run);
      QuietDisk(s, start, g);
      CommitOutcome(past, start, g, budget, run, cache.View());
      ok := Commit();
      if !ok { return; }
      committing, run := false, r;
      AllClean();
    }

    /** end_op: the last operation out commits what all of them logged; the others write nothing. The commit is the
        commit of the protocol, block write by block write. false stands for its panic, which takes a header of NBUF
        blocks; the disk is then the one before. */
    method EndOp(ghost op: nat) returns (ok: bool)
      requires Valid() && Follows() && op in Now().outstanding
      modifies this`n, this`outstanding, this`committing, this`run, cache
      ensures Valid() && Follows() && outstanding == old(outstanding) - 1 && |cache.disk| == old(|cache.disk|)
      ensures ok <==> outstanding > 0 || old(n) < NBUF
      ensures !ok ==>
                && committing && n == old(n) && run == old(run) + [P.EndOp(op)]
                && cache.disk == old(cache.disk) && cache.history == old(cache.history)
      ensures ok ==> !committing && run == old(run) + [P.EndOp(op)] + if outstanding == 0 then R.CommitRun(old(n))
                                                                      else []
      ensures outstanding > 0 ==> n == old(n) && cache.disk == old(cache.disk) && cache.history == old(cache.history)
      ensures ok && outstanding == 0 ==>
                n == 0 && SameHome(cache.disk, old(cache.View()), g) && SameHome(cache.View(), old(cache.View()), g)
    {
      hide Agrees, IsRing, ViewOf, DirtyBlocks, Idle, WfHeader, Fits, Applied, CommitState, CommitTrace, Cache.Valid,
           HeaderOf, P.Legal, P.Exec, R.Disks, P.Tracks, P.Whole, P.Reserved, R.CommitRun, SameHome, Cache.View;
      ghost var d, v, hdr, s := cache.disk, cache.View(), Header(), Now();
      CoreFacts();
      P.Invariants(start, g, budget, run);
      InOperation(op);
      QuietDisk(s, start, g);
      R.Extended(past, start, g, budget, run, P.EndOp(op));
      ghost var run1 := run + [P.EndOp(op)];
      outstanding := outstanding - 1;
      assert s.outstanding.Keys == (s.outstanding - {op}).Keys + {op};
      run, ok := run1, true;
      if outstanding == 0 {
        committing := true;
        ok := CommitAll();
      } else {
        assert run == run1 + [];
      }
    }

    /** Any moment with the log idle can serve as the start of the run. */
    ghost method Restart()
      requires Valid() && Follows() && n == 0 && outstanding == 0 && !committing
      modifies this`start, this`past, this`run
      ensures Valid() && Follows() && run == [] && start == cache.disk && past == cache.history
    {
      hide P.Tracks, P.Whole, P.Reserved, P.Legal, P.Exec, R.Disks, Cache.View, Cache.Valid, ViewOf, HeaderOf, WfHeader,
           DirtyBlocks, Idle, SameHome;
      P.Invariants(start, g, budget, run);
      QuietDisk(Now(), start, g);
      start, past, run := cache.disk, cache.history, [];
      StartsRun();
    }

    /** Nor can end_op, then. */
    lemma RoomForCommit()
      requires Follows() && budget < MAXOPBLOCKS
      ensures n < NBUF
    {
      hide P.Legal, P.Exec, P.Left;
      P.SmallOperationsFit(start, g, budget, run);
      P.LeftBounds(Now().outstanding, MAXOPBLOCKS - 1);
    }

    /** log_write cannot panic inside an operation as long as operations log fewer than MAXOPBLOCKS blocks each. */
    lemma RoomForOperation(op: nat, blockno: nat, data: Block)
      requires Follows() && budget < MAXOPBLOCKS && g.size >= LOGSIZE && op in Now().outstanding
      requires blockno < |cache.disk| && !InLog(g, blockno) && (blockno in Header() || Now().outstanding[op] < budget)
      ensures n < LOGSIZE && n < g.size - 1 && P.Enabled(Now(), P.LogWrite(op, blockno, data), g, budget)
    {
      hide P.Legal, P.Exec, P.Left;
      P.SmallOperationsFit(start, g, budget, run);
      P.LeftBounds(Now().outstanding, MAXOPBLOCKS - 1);
    }

    /** A machine that stopped j block writes ago, since initlog, comes up after recovery with a prefix of the writes
        made through Update, and that prefix splits no operation. */
    lemma CrashSplitsNothing(j: nat) returns (m: nat)
      requires Follows() && j <= R.DiskWrites(run)
      ensures m <= |run| && P.Legal(start, g, budget, run[..m])
      ensures var e, s := Back(cache.history, j), P.Exec(start, g, budget, run[..m]);
              && WfDisk(e, g) && |s.commits| > 0 && P.Durable(s) <= |s.events|
              && SameHome(Recovered(e, g), P.Replay(start, s.events[..P.Durable(s)]), g)
              && forall i, k :: 0 <= i < P.Durable(s) <= k < |s.events| ==> s.events[i].op != s.events[k].op
    {
      m := R.CrashBefore(past, start, g, budget, run, j);
    }
  }
}
