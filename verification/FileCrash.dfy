/**
What a crash in the middle of a write leaves of a file. filewrite (file.c) writes a chunk at a time, each inside
begin_op and end_op; the log (log.c) commits when it can. Whatever the log has done when the machine stops, the
recovered disk holds a well-formed file system in which the file has a whole number of chunks and all other files are as
they were.
*/
module FileCrash {
  import opened Param
  import opened Blocks
  import opened Bio
  import opened LogSpec
  import opened FsSpec
  import opened FileSteps
  import opened Fs
  import P = LogProtocol
  import R = LogRuns
  import L = Log

  /** The calls of log_write that log ws. */
  function WriteCalls(op: nat, ws: seq<Write>): (c: seq<P.Action>)
    ensures |c| == |ws|
  {
    seq(|ws|, t requires 0 <= t < |ws| => P.LogWrite(op, ws[t].block, ws[t].data))
  }

  function Transaction(op: nat, ws: seq<Write>): (c: seq<P.Action>)
  {
    [P.BeginOp(op)] + WriteCalls(op, ws) + [P.EndOp(op)]
  }

  /** All the calls that one filewrite makes, chunk after chunk. */
  function Program(txs: seq<seq<Write>>): (c: seq<P.Action>)
  {
    if txs == [] then [] else Program(txs[..|txs| - 1]) + Transaction(|txs| - 1, txs[|txs| - 1])
  }

  /** The calls in a run of the log; the other steps are the log's own. */
  function Calls(run: seq<P.Action>): (c: seq<P.Action>)
  {
    if run == [] then [] else
      var a := run[|run| - 1];
      Calls(run[..|run| - 1]) + if a.CommitWrite? || a.CommitEnd? then [] else [a]
  }

  function Ended(run: seq<P.Action>): (n: nat)
  {
    if run == [] then 0 else Ended(run[..|run| - 1]) + if run[|run| - 1].EndOp? then 1 else 0
  }

  function Labelled(op: nat, ws: seq<Write>): (e: seq<P.Event>)
    ensures |e| == |ws|
  {
    seq(|ws|, t requires 0 <= t < |ws| => P.Event(op, ws[t].block, ws[t].data))
  }

  /** The writes of the chunks in the order they are made. */
  function Events(txs: seq<seq<Write>>): (e: seq<P.Event>)
  {
    if txs == [] then [] else Events(txs[..|txs| - 1]) + Labelled(|txs| - 1, txs[|txs| - 1])
  }

  /* ---------------- where the program is ---------------- */

  /** Chunks before k are done; t is None between chunks and else the number of writes made in chunk k. */
  ghost function CallsAt(txs: seq<seq<Write>>, k: nat, t: Option<nat>): (c: seq<P.Action>)
    requires k <= |txs| && (t.Some? ==> k < |txs| && t.value <= |txs[k]|)
  {
    Program(txs[..k]) + if t.None? then [] else [P.BeginOp(k)] + WriteCalls(k, txs[k][..t.value])
  }

  ghost function EventsAt(txs: seq<seq<Write>>, k: nat, t: Option<nat>): (e: seq<P.Event>)
    requires k <= |txs| && (t.Some? ==> k < |txs| && t.value <= |txs[k]|)
  {
    Events(txs[..k]) + if t.None? then [] else Labelled(k, txs[k][..t.value])
  }

  lemma {:induction false} ProgramPrefix(txs: seq<seq<Write>>, k: nat)
    requires k <= |txs|
    ensures Program(txs[..k]) <= Program(txs)
    decreases |txs|
  {
    if k < |txs| {
      ProgramPrefix(txs[..|txs| - 1], k);
      assert txs[..|txs| - 1][..k] == txs[..k];
    } else {
      assert txs[..k] == txs;
    }
  }

  lemma ProgramStep(txs: seq<seq<Write>>, k: nat)
    requires k < |txs|
    ensures Program(txs[..k + 1]) == Program(txs[..k]) + Transaction(k, txs[k])
    ensures Events(txs[..k + 1]) == Events(txs[..k]) + Labelled(k, txs[k])
  {
    assert txs[..k + 1][..k] == txs[..k];
  }

  /** The call that comes next is the one the program makes there. */
  lemma NextCall(txs: seq<seq<Write>>, k: nat, t: Option<nat>, a: P.Action)
    requires k <= |txs| && (t.Some? ==> k < |txs| && t.value <= |txs[k]|)
    requires CallsAt(txs, k, t) + [a] <= Program(txs)
    ensures k < |txs|
    ensures a == if t.None? then P.BeginOp(k) else if t.value == |txs[k]| then P.EndOp(k)
                 else P.LogWrite(k, txs[k][t.value].block, txs[k][t.value].data)
  {
    hide Program, Events;
    var c := CallsAt(txs, k, t);
    assert txs[..|txs|] == txs;
    if k < |txs| {
      ProgramStep(txs, k);
      ProgramPrefix(txs, k + 1);
      var n := |c|;
      assert a == (c + [a])[n] == Program(txs)[n];
      assert n < |Program(txs[..k + 1])| && Program(txs[..k + 1])[n] == Transaction(k, txs[k])[n - |Program(txs[..k])|];
    }
  }

  /** One process making the calls of the program: which operation is open, and what has been written. */
  lemma {:induction false} Position(d: Disk, g: Geometry, budget: nat, run: seq<P.Action>, txs: seq<seq<Write>>)
    returns (k: nat, t: Option<nat>)
    requires P.Legal(d, g, budget, run) && budget <= MAXOPBLOCKS && Calls(run) <= Program(txs)
    ensures k <= |txs| && (t.Some? ==> k < |txs| && t.value <= |txs[k]|)
    ensures Calls(run) == CallsAt(txs, k, t) && Ended(run) == k
    ensures var s := P.Exec(d, g, budget, run);
            s.outstanding.Keys == (if t.None? then {} else {k}) && s.events == EventsAt(txs, k, t)
    decreases |run|
  {
    hide P.Enabled, P.Shape, P.Do;
    if run == [] {
      k, t := 0, None;
      assert txs[..0] == [];
    } else {
      var m := |run| - 1;
      var a := run[m];
      k, t := Position(d, g, budget, run[..m], txs);
      assert run[..m] + [a] == run;
      P.Invariants(d, g, budget, run[..m]);
      P.TracksShape(P.Exec(d, g, budget, run[..m]), d, g);
      k, t := PositionStep(P.Exec(d, g, budget, run[..m]), a, g, budget, txs, k, t, Calls(run[..m]));
    }
  }

  lemma PositionStep(s: P.State, a: P.Action, g: Geometry, budget: nat, txs: seq<seq<Write>>, k: nat, t: Option<nat>,
                     c: seq<P.Action>)
    returns (k': nat, t': Option<nat>)
    requires P.Shape(s, g) && P.Enabled(s, a, g, budget)
    requires k <= |txs| && (t.Some? ==> k < |txs| && t.value <= |txs[k]|) && c == CallsAt(txs, k, t)
    requires a.CommitWrite? || a.CommitEnd? || c + [a] <= Program(txs)
    requires s.outstanding.Keys == (if t.None? then {} else {k}) && s.events == EventsAt(txs, k, t)
    ensures k' <= |txs| && (t'.Some? ==> k' < |txs| && t'.value <= |txs[k']|) && k' == k + if a.EndOp? then 1 else 0
    ensures (c + if a.CommitWrite? || a.CommitEnd? then [] else [a]) == CallsAt(txs, k', t')
    ensures var r := P.Do(s, a, g, budget);
            r.outstanding.Keys == (if t'.None? then {} else {k'}) && r.events == EventsAt(txs, k', t')
  {
    hide Program, Events;
    k', t' := k, t;
    if !a.CommitWrite? && !a.CommitEnd? {
      NextCall(txs, k, t, a);
      if t.None? {
        t' := Some(0);
        assert txs[k][..0] == [];
      } else if t.value < |txs[k]| {
        t' := Some(t.value + 1);
        assert txs[k][..t.value + 1] == txs[k][..t.value] + [txs[k][t.value]];
      } else {
        k', t' := k + 1, None;
        ProgramStep(txs, k);
        assert txs[k][..t.value] == txs[k];
        assert |s.outstanding| == |s.outstanding.Keys| == 1;
      }
    }
  }

  /* ---------------- what has been committed ---------------- */

  /** A point that no operation straddles lies between two chunks. */
  lemma {:induction false} Boundary(txs: seq<seq<Write>>, n: nat) returns (j: nat)
    requires n <= |Events(txs)|
    requires forall x, y :: 0 <= x < n <= y < |Events(txs)| ==> Events(txs)[x].op != Events(txs)[y].op
    ensures j <= |txs| && Events(txs)[..n] == Events(txs[..j])
    decreases |txs|
  {
    var e := Events(txs);
    if n == |e| {
      j := |txs|;
      assert txs[..j] == txs && e[..n] == e;
    } else {
      var m := |txs| - 1;
      var before := Events(txs[..m]);
      assert forall x :: |before| <= x < |e| ==> e[x].op == m;
      assert n > 0 ==> e[n - 1].op != e[n].op;
      if n <= |before| {
        assert forall x :: 0 <= x < |before| ==> before[x] == e[x];
        j := Boundary(txs[..m], n);
        assert txs[..m][..j] == txs[..j];
      } else {
        assert false;
      }
    }
  }

  lemma {:induction false} ReplayLabelled(d: Disk, e: seq<P.Event>, op: nat, ws: seq<Write>)
    ensures P.Replay(d, e + Labelled(op, ws)) == Apply(P.Replay(d, e), ws)
    decreases |ws|
  {
    if ws == [] {
      assert e + Labelled(op, ws) == e;
    } else {
      var m := |ws| - 1;
      ReplayLabelled(d, e, op, ws[..m]);
      assert (e + Labelled(op, ws))[..|e| + m] == e + Labelled(op, ws[..m]);
    }
  }

  lemma {:induction false} ApplyHome(v: Disk, w: Disk, ws: seq<Write>, g: Geometry)
    requires SameHome(v, w, g)
    ensures SameHome(Apply(v, ws), Apply(w, ws), g)
    decreases |ws|
  {
    if ws != [] { ApplyHome(v, w, ws[..|ws| - 1], g); }
  }

  /** The writes of the first j chunks make the blocks those of point j, outside the log. */
  lemma {:induction false} ReplayPoint(sb: Super, g: Geometry, d: Disk, points: seq<Point>, txs: seq<seq<Write>>,
                                       i: nat, off: nat, src: seq<Byte>, j: nat)
    requires Trail(sb, points, txs, i, off, src) && j <= |txs| && SameHome(d, points[0].blocks, g)
    ensures SameHome(P.Replay(d, Events(txs[..j])), points[j].blocks, g)
    decreases j
  {
    hide Reached, Touched, Chunk;
    if j > 0 {
      ReplayPoint(sb, g, d, points, txs, i, off, src, j - 1);
      ProgramStep(txs, j - 1);
      ReplayLabelled(d, Events(txs[..j - 1]), j - 1, txs[j - 1]);
      ApplyHome(P.Replay(d, Events(txs[..j - 1])), points[j - 1].blocks, txs[j - 1], g);
      assert Traced(sb, points[j - 1].blocks, txs[j - 1], points[j].blocks, Touched(txs[j - 1]));
    }
  }

  /* ---------------- what recovery shows ---------------- */

  /** Two disks that agree outside the log hold the same file system. */
  lemma SameFileSystem(sb: Super, g: Geometry, d: Disk, e: Disk, ino: seq<Inode>, owner: Owners)
    requires Wf(sb, d, ino, owner) && Synced(sb, d, ino) && SameHome(e, d, g) && g.start + g.size <= sb.inodestart
    ensures Wf(sb, e, ino, owner) && Synced(sb, e, ino)
    ensures forall i :: 0 <= i < |ino| ==> Contents(e, ino, i) == Contents(d, ino, i)
  {
    hide Slot, Bit, InodeIn;
    OwnedUntouched(sb, d, ino, owner, e);
    forall b: nat | b < sb.size ensures Used(sb, e, b) == Used(sb, d, b) { }
    forall i: nat | i < |ino| ensures InodeBlock(sb, i) < |e| && DiskInode(sb, e, i) == ino[i] {
      InodeBlockIsMeta(sb, |ino|, i);
    }
    forall i | 0 <= i < |ino| ensures Contents(e, ino, i) == Contents(d, ino, i) {
      forall k | 0 <= k < ino[i].size ensures Contents(e, ino, i)[k] == Contents(d, ino, i)[k] {
        assert FileBlock(e, ino, i, k / BSIZE) == FileBlock(d, ino, i, k / BSIZE);
      }
    }
  }

  /** All inodes as the disk has them. */
  function DiskInodes(sb: Super, blocks: seq<Block>, n: nat): (r: seq<Inode>)
    requires Room(sb, n) && sb.bmapstart <= |blocks|
    ensures |r| == n && forall x :: 0 <= x < n ==> |r[x].addrs| == NDIRECT + 1
  {
    seq(n, x requires 0 <= x < n => InodeBlockIsMeta(sb, n, x); DiskInode(sb, blocks, x))
  }

  /** The disk r holds, by its own inodes, a well-formed file system in which `done` has been written to file i of p0 at
      off, and nothing else. */
  ghost predicate FileAfter(sb: Super, r: Disk, owner: Owners, p0: Point, i: nat, off: nat, done: seq<Byte>)
  {
    && Room(sb, |p0.ino|) && sb.bmapstart <= |r| && i < |p0.ino|
    && var n := DiskInodes(sb, r, |p0.ino|);
    && Wf(sb, r, n, owner) && Inodes(p0.ino)
    && off <= p0.ino[i].size && Contents(r, n, i) == Splice(Contents(p0.blocks, p0.ino, i), off, done)
    && forall x :: 0 <= x < |n| && x != i ==> n[x] == p0.ino[x] && Contents(r, n, x) == Contents(p0.blocks, p0.ino, x)
  }

  /** Reading the inodes from the disk gives those of point p. */
  lemma Decoded(sb: Super, r: Disk, p0: Point, p: Point, i: nat, off: nat, done: seq<Byte>)
    requires Reached(sb, p0, p, i, off, done) && off <= p0.ino[i].size
    requires Wf(sb, r, p.ino, p.owner) && Synced(sb, r, p.ino)
    requires Inodes(p.ino) && forall x :: 0 <= x < |p.ino| ==> Contents(r, p.ino, x) == Contents(p.blocks, p.ino, x)
    ensures FileAfter(sb, r, p.owner, p0, i, off, done)
  {
    hide Contents, Splice, FileBlock, Owned, InUse, NoHoles, InodeIn;
    assert DiskInodes(sb, r, |p0.ino|) == p.ino;
    forall x | 0 <= x < |p.ino| && x != i ensures Contents(p.blocks, p.ino, x) == Contents(p0.blocks, p0.ino, x) {
      SameContents(p0.blocks, p0.ino, p.blocks, p.ino, x);
    }
  }

  lemma SameContents(blocks0: seq<Block>, ino0: seq<Inode>, blocks: seq<Block>, ino: seq<Inode>, x: nat)
    requires Inodes(ino0) && Inodes(ino) && x < |ino| == |ino0| && ino[x] == ino0[x]
    requires SameBytes(blocks0, ino0, blocks, ino, x)
    ensures Contents(blocks, ino, x) == Contents(blocks0, ino0, x)
  {
    hide FileBlock;
    forall k | 0 <= k < ino[x].size ensures Contents(blocks, ino, x)[k] == Contents(blocks0, ino0, x)[k] {
      assert ByteAt(blocks, ino, x, k) == ByteAt(blocks0, ino0, x, k);
    }
  }

  lemma PointFacts(sb: Super, points: seq<Point>, txs: seq<seq<Write>>, i: nat, off: nat, src: seq<Byte>, j: nat)
    requires Trail(sb, points, txs, i, off, src) && j <= |txs| && Synced(sb, points[0].blocks, points[0].ino)
    ensures var p := points[j];
            && Reached(sb, points[0], p, i, off, src[..Done(j, |src|)])
            && Wf(sb, p.blocks, p.ino, p.owner) && Synced(sb, p.blocks, p.ino) && Inodes(p.ino)
  {
    hide Contents, Splice, Owned, InUse, NoHoles, SameBytes, Synced;
  }

  /** What survives a crash is what the first j chunks wrote, for some j. */
  lemma CommittedChunks(d: Disk, g: Geometry, budget: nat, run: seq<P.Action>, txs: seq<seq<Write>>) returns (j: nat)
    requires P.Legal(d, g, budget, run) && budget <= MAXOPBLOCKS && Calls(run) <= Program(txs)
    ensures var s := P.Exec(d, g, budget, run);
            && j <= Ended(run) <= |txs| && (s.outstanding == map[] && !s.committing ==> j == Ended(run))
            && WfDisk(s.disk, g) && SameHome(Recovered(s.disk, g), P.Replay(d, Events(txs[..j])), g)
  {
    hide Program, Calls, Events, P.Legal, P.Exec, P.Replay, Recovered, WfDisk;
    var s := P.Exec(d, g, budget, run);
    var k, t := Position(d, g, budget, run, txs);
    P.Invariants(d, g, budget, run);
    P.CrashKeepsWholeOperations(d, g, budget, run);
    if s.outstanding == map[] && !s.committing {
      j := k;
      P.IdleLogIsDurable(d, g, budget, run);
      assert t.None?;
      assert SameHome(s.view, P.Replay(d, s.events), g);
    } else {
      var n, before := P.Durable(s), Events(txs[..k]);
      assert |before| < |s.events| ==> s.events[|before|].op == k && k in s.outstanding;
      assert forall x :: 0 <= x < |before| ==> before[x] == s.events[x];
      j := Boundary(txs[..k], n);
      assert txs[..k][..j] == txs[..j] && s.events[..n] == before[..n];
    }
  }

  /** The crash theorem for filewrite. Take any run of the log in which the calls made are those of one filewrite, as
      far as it has come, and the log's own steps come where they will; `more` stands for the writes of a chunk cut
      short by the panic "out of blocks", and is empty for one that writei refuses, which then ends as well. If the
      machine stops there and recovers, the disk holds a well-formed file system with all its inodes; in it the file is
      as filewrite leaves it after some whole number j of chunks, none of them unfinished, and every other file is as it
      was. If the log was idle, no finished chunk is missing. d is the disk before the call. */
  lemma FilewriteSurvivesCrash(sb: Super, g: Geometry, budget: nat, d: Disk, run: seq<P.Action>, points: seq<Point>,
                               txs: seq<seq<Write>>, more: seq<Write>, i: nat, off: nat, src: seq<Byte>)
    returns (j: nat)
    requires Trail(sb, points, txs, i, off, src) && g.start + g.size <= sb.inodestart
    requires var p0 := points[0]; Synced(sb, p0.blocks, p0.ino) && off <= p0.ino[i].size && SameHome(d, p0.blocks, g)
    requires P.Legal(d, g, budget, run) && budget <= MAXOPBLOCKS
    requires Calls(run) <= Program(txs + [more]) && (Ended(run) <= |txs| || more == [])
    ensures var s, n := P.Exec(d, g, budget, run), Least(Ended(run), |txs|);
            && j <= n && (s.outstanding == map[] && !s.committing ==> j == n)
            && WfDisk(s.disk, g)
            && FileAfter(sb, Recovered(s.disk, g), points[j].owner, points[0], i, off, src[..Done(j, |src|)])
  {
    hide Trail, Reached, Program, Calls, Events, P.Legal, P.Exec, Wf, Synced, P.Tracks, P.Whole, P.Replay, Recovered,
         WfDisk, SameHome;
    TrailEnd(sb, points, txs, i, off, src);
    var s := P.Exec(d, g, budget, run);
    j := CommittedChunks(d, g, budget, run, txs + [more]);
    if j == |txs| + 1 {
      NoEvents(txs);
      j := |txs|;
    } else {
      assert (txs + [more])[..j] == txs[..j];
    }
    ReplayPoint(sb, g, d, points, txs, i, off, src, j);
    PointFacts(sb, points, txs, i, off, src, j);
    var r := Recovered(s.disk, g);
    L.SameHomeTrans(r, P.Replay(d, Events(txs[..j])), points[j].blocks, g);
    SameFileSystem(sb, g, points[j].blocks, r, points[j].ino, points[j].owner);
    Decoded(sb, r, points[0], points[j], i, off, src[..Done(j, |src|)]);
  }

  /** An empty transaction writes nothing. */
  lemma NoEvents(txs: seq<seq<Write>>)
    ensures Events((txs + [[]])[..|txs| + 1]) == Events(txs[..|txs|])
  {
    assert (txs + [[]])[..|txs| + 1] == txs + [[]] && (txs + [[]])[..|txs|] == txs == txs[..|txs|];
    assert Labelled(|txs|, []) == [];
  }

  /* ---------------- the calls are allowed ---------------- */

  /** The log between two operations. */
  ghost predicate Idle(s: P.State, k: nat)
  {
    s.outstanding == map[] && !s.committing && s.hdr == [] && forall op :: op in s.begun ==> op < k
  }

  /** In operation k, after the writes ws. */
  ghost predicate Busy(s: P.State, k: nat, ws: seq<Write>)
  {
    && s.outstanding == map[k := |s.hdr|] && !s.committing && (forall op :: op in s.begun ==> op <= k)
    && (forall b :: b in s.hdr <==> b in Touched(ws))
  }

  lemma {:induction false} DistinctSize(h: seq<nat>, t: set<nat>)
    requires (forall x, y :: 0 <= x < y < |h| ==> h[x] != h[y]) && forall b :: b in h ==> b in t
    ensures |h| <= |t|
    decreases |h|
  {
    if h != [] {
      var m := |h| - 1;
      assert forall b :: b in h[..m] ==> b in h && b != h[m];
      DistinctSize(h[..m], t - {h[m]});
    }
  }

  lemma CallsMore(run: seq<P.Action>, a: P.Action)
    ensures Calls(run + [a]) == Calls(run) + if a.CommitWrite? || a.CommitEnd? then [] else [a]
  {
    assert (run + [a])[..|run|] == run;
  }

  lemma {:induction false} NoCalls(run: seq<P.Action>, n: nat)
    ensures Calls(run + R.CommitWrites(n)) == Calls(run)
  {
    if n == 0 {
      assert run + R.CommitWrites(0) == run;
    } else {
      NoCalls(run, n - 1);
      assert run + R.CommitWrites(n) == run + R.CommitWrites(n - 1) + [P.CommitWrite];
      CallsMore(run + R.CommitWrites(n - 1), P.CommitWrite);
    }
  }

  lemma CommitIsNoCall(run: seq<P.Action>, n: nat)
    ensures Calls(run + R.CommitRun(n)) == Calls(run)
  {
    var c := if n == 0 then [] else R.CommitWrites(2 * n + 2);
    NoCalls(run, 2 * n + 2);
    assert run + [] == run;
    assert run + R.CommitRun(n) == run + c + [P.CommitEnd];
    CallsMore(run + c, P.CommitEnd);
  }

  lemma BeginAllowed(s: P.State, g: Geometry, budget: nat, k: nat)
    requires P.Shape(s, g) && Idle(s, k)
    ensures P.Enabled(s, P.BeginOp(k), g, budget) && Busy(P.Do(s, P.BeginOp(k), g, budget), k, [])
  {
  }

  lemma EndAllowed(s: P.State, g: Geometry, budget: nat, k: nat, ws: seq<Write>)
    requires P.Shape(s, g) && Busy(s, k, ws)
    ensures P.Enabled(s, P.EndOp(k), g, budget)
    ensures var r := P.Do(s, P.EndOp(k), g, budget);
            && r.committing && r.base == r.disk && r.done == 0 && r.outstanding == map[] && r.hdr == s.hdr
            && P.Shape(r, g) && forall op :: op in r.begun ==> op < k + 1
  {
    assert |s.outstanding| == 1;
  }

  /** One more log_write of a chunk that stays within the budget is allowed. */
  lemma WriteAllowed(s: P.State, g: Geometry, budget: nat, k: nat, ws: seq<Write>, w: Write, all: seq<Write>)
    requires P.Shape(s, g) && Busy(s, k, ws) && ws + [w] <= all && |Touched(all)| <= budget <= MAXOPBLOCKS
    requires g.size > MAXOPBLOCKS + 1 && w.block < |s.disk| && !InLog(g, w.block)
    ensures var a := P.LogWrite(k, w.block, w.data);
            P.Enabled(s, a, g, budget) && Busy(P.Do(s, a, g, budget), k, ws + [w])
  {
    assert w in all by { assert all[|ws|] == (ws + [w])[|ws|]; }
    assert forall x :: x in ws ==>
             x in all by { assert forall t :: 0 <= t < |ws| ==> all[t] == (ws + [w])[t] == ws[t]; }
    DistinctSize(Absorb(s.hdr, w.block), Touched(all));
    TouchedMore(ws, w);
  }

  /** end_op of the only operation, and the commit that follows it. */
  lemma ChunkEnds(d: Disk, g: Geometry, budget: nat, run: seq<P.Action>, k: nat, ws: seq<Write>)
    returns (run': seq<P.Action>)
    requires P.Legal(d, g, budget, run) && Busy(P.Exec(d, g, budget, run), k, ws) && budget <= MAXOPBLOCKS
    ensures P.Legal(d, g, budget, run') && Idle(P.Exec(d, g, budget, run'), k + 1)
    ensures Calls(run') == Calls(run) + [P.EndOp(k)]
    ensures run' == run + [P.EndOp(k)] + R.CommitRun(|P.Exec(d, g, budget, run).hdr|)
  {
    hide P.Legal, P.Exec, P.Do, P.Enabled, Calls, P.Tracks, P.Whole, P.Reserved, Busy, CommitState, CommitTrace;
    var s, h := P.Exec(d, g, budget, run), Start(d);
    P.Invariants(d, g, budget, run);
    P.TracksShape(s, d, g);
    EndAllowed(s, g, budget, k, ws);
    R.Extended(h, d, g, budget, run, P.EndOp(k));
    var ended := run + [P.EndOp(k)];
    CallsMore(run, P.EndOp(k));
    R.CommitsAll(h, d, g, budget, ended);
    var n := |P.Exec(d, g, budget, ended).hdr|;
    run' := ended + R.CommitRun(n);
    CommitIsNoCall(ended, n);
  }

  lemma ChunkWrites(sb: Super, points: seq<Point>, txs: seq<seq<Write>>, i: nat, off: nat, src: seq<Byte>, k: nat)
    requires Trail(sb, points, txs, i, off, src) && k < |txs|
    ensures |Touched(txs[k])| <= ChunkBudget(NMap(sb))
    ensures forall w :: w in txs[k] ==> sb.inodestart <= w.block < |points[0].blocks|
  {
    hide Wf, Synced, Contents, Splice, SameBytes, Touched, Chunk, ChunkBudget, NMap;
    assert Reached(sb, points[0], points[k], i, off, src[..Done(k, |src|)]);
    ChunkSize(sb, txs[k]);
    assert Traced(sb, points[k].blocks, txs[k], points[k + 1].blocks, Touched(txs[k]));
  }

  /* ---------------- the file system on top of the log ---------------- */

  lemma WrittenOne(v: Disk, ws: seq<Write>, t: nat)
    requires t < |ws| && ws[t].block < |v|
    ensures Apply(v, ws[..t + 1]) == Apply(v, ws[..t])[ws[t].block := ws[t].data]
  {
    assert ws[..t + 1] == ws[..t] + [ws[t]];
    ApplyMore(v, ws[..t], ws[t]);
  }

  lemma WrittenNothing(v: Disk)
    ensures Apply(v, []) == v
  {
  }

  lemma StateShape(l: L.Log)
    requires l.Follows()
    ensures P.Legal(l.start, l.g, l.budget, l.run) && l.budget <= MAXOPBLOCKS
    ensures P.Shape(l.Now(), l.g) && l.Now().disk == l.cache.disk && |l.Now().hdr| == l.n
    ensures |l.Now().outstanding| == l.outstanding
    ensures forall op :: op in l.Now().outstanding ==> l.Now().outstanding[op] <= l.budget
  {
    hide P.Tracks, P.Whole, P.Shape, P.Left, P.Legal, P.Exec;
    P.Invariants(l.start, l.g, l.budget, l.run);
    P.TracksShape(l.Now(), l.start, l.g);
  }

  lemma BusyFacts(s: P.State, k: nat, ws: seq<Write>)
    requires Busy(s, k, ws)
    ensures k in s.outstanding && |s.outstanding| == 1 && s.outstanding[k] == |s.hdr|
  {
  }

  /** begin_op with nothing else in the log. */
  method LogBegin(l: L.Log, ghost op: nat)
    requires l.Valid() && l.Follows() && Idle(l.Now(), op)
    modifies l`outstanding, l`run
    ensures l.Valid() && l.Follows() && Busy(l.Now(), op, []) && l.run == old(l.run) + [P.BeginOp(op)]
    ensures Calls(l.run) == old(Calls(l.run)) + [P.BeginOp(op)]
  {
    hide L.Log.Core, L.Log.Valid, P.Legal, P.Exec, P.Do, P.Enabled, Calls, P.Reserved, P.Shape, Busy;
    StateShape(l);
    BeginAllowed(l.Now(), l.g, l.budget, op);
    R.Extended(l.past, l.start, l.g, l.budget, l.run, P.BeginOp(op));
    CallsMore(l.run, P.BeginOp(op));
    var ok := l.BeginOp(op);
  }

  /** One log_write of a chunk. */
  method LogOne(l: L.Log, ghost op: nat, ghost ws: seq<Write>, w: Write, ghost all: seq<Write>)
    requires l.Valid() && l.Follows() && Busy(l.Now(), op, ws) && ws + [w] <= all && |Touched(all)| <= l.budget
    requires l.g.size > MAXOPBLOCKS + 1 && l.g.start + l.g.size <= w.block < |l.cache.disk|
    modifies l`n, l`block, l`run, l.cache
    ensures l.Valid() && l.Follows() && Busy(l.Now(), op, ws + [w]) && |l.cache.disk| == old(|l.cache.disk|)
    ensures Calls(l.run) == old(Calls(l.run)) + [P.LogWrite(op, w.block, w.data)]
    ensures l.cache.View() == old(l.cache.View())[w.block := w.data]
  {
    hide L.Log.Core, L.Log.Valid, P.Legal, P.Exec, P.Do, P.Enabled, Calls, P.Reserved, P.Shape, Busy, Touched,
         Cache.View;
    StateShape(l);
    WriteAllowed(l.Now(), l.g, l.budget, op, ws, w, all);
    R.Extended(l.past, l.start, l.g, l.budget, l.run, P.LogWrite(op, w.block, w.data));
    CallsMore(l.run, P.LogWrite(op, w.block, w.data));
    l.Update(op, w.block, w.data);
  }

  /** end_op of the only operation. */
  method LogEnd(l: L.Log, ghost op: nat, ghost ws: seq<Write>)
    requires l.Valid() && l.Follows() && Busy(l.Now(), op, ws)
    modifies l`n, l`outstanding, l`committing, l`run, l.cache
    ensures l.Valid() && l.Follows() && Idle(l.Now(), op + 1) && |l.cache.disk| == old(|l.cache.disk|)
    ensures Calls(l.run) == old(Calls(l.run)) + [P.EndOp(op)] && SameHome(l.cache.View(), old(l.cache.View()), l.g)
  {
    hide L.Log.Core, L.Log.Valid, P.Legal, P.Exec, P.Do, P.Enabled, Calls, P.Reserved, P.Shape, Busy, SameHome,
         Cache.View;
    StateShape(l);
    BusyFacts(l.Now(), op, ws);
    ghost var run := ChunkEnds(l.start, l.g, l.budget, l.run, op, ws);
    var ok := l.EndOp(op);
  }

  /** begin_op, the log_write calls and end_op of one chunk: the cache shows its writes. */
  method LogChunk(l: L.Log, ghost op: nat, ws: seq<Write>)
    requires l.Valid() && l.Follows() && Idle(l.Now(), op) && |Touched(ws)| <= l.budget && l.g.size > MAXOPBLOCKS + 1
    requires forall w :: w in ws ==> l.g.start + l.g.size <= w.block < |l.cache.disk|
    modifies l`n, l`block, l`outstanding, l`committing, l`run, l.cache
    ensures l.Valid() && l.Follows() && Idle(l.Now(), op + 1) && |l.cache.disk| == old(|l.cache.disk|)
    ensures Calls(l.run) == old(Calls(l.run)) + Transaction(op, ws)
    ensures SameHome(l.cache.View(), Apply(old(l.cache.View()), ws), l.g)
  {
    hide L.Log.Follows, L.Log.Valid, Calls, Busy, Idle, SameHome, Apply, Touched, Cache.View, P.Exec;
    ghost var v := l.cache.View();
    LogBegin(l, op);
    var t := 0;
    assert ws[..0] == [];
    WrittenNothing(v);
    while t < |ws|
      invariant 0 <= t <= |ws| && l.Valid() && l.Follows() && Busy(l.Now(), op, ws[..t])
      invariant |l.cache.disk| == |v| && l.cache.View() == Apply(v, ws[..t])
      invariant Calls(l.run) == old(Calls(l.run)) + [P.BeginOp(op)] + WriteCalls(op, ws[..t])
    {
      assert ws[..t] + [ws[t]] == ws[..t + 1];
      WrittenOne(v, ws, t);
      assert WriteCalls(op, ws[..t + 1]) == WriteCalls(op, ws[..t]) + [P.LogWrite(op, ws[t].block, ws[t].data)];
      LogOne(l, op, ws[..t], ws[t], ws);
      t := t + 1;
    }
    assert ws[..|ws|] == ws;
    LogEnd(l, op, ws);
  }

  lemma NextPoint(sb: Super, points: seq<Point>, txs: seq<seq<Write>>, i: nat, off: nat, src: seq<Byte>, k: nat,
                  v: Disk, w: Disk, g: Geometry)
    requires Trail(sb, points, txs, i, off, src) && k < |txs| && SameHome(v, points[k].blocks, g)
    requires SameHome(w, Apply(v, txs[k]), g)
    ensures SameHome(w, points[k + 1].blocks, g)
  {
    hide Reached, Apply, Touched;
    ApplyHome(v, points[k].blocks, txs[k], g);
    assert Traced(sb, points[k].blocks, txs[k], points[k + 1].blocks, Touched(txs[k]));
  }

  lemma FreshLog(l: L.Log)
    requires l.Valid() && l.Follows() && l.run == []
    ensures Idle(l.Now(), 0) && l.cache.disk == l.start && Calls(l.run) == []
    ensures SameHome(l.cache.View(), l.start, l.g)
  {
    hide L.Log.Valid, Cache.View, P.Legal, R.Disks;
    var d := l.start;
    assert P.Exec(d, l.g, l.budget, []) == P.Initial(d);
    L.SameHomeTrans(d, l.cache.View(), d, l.g);
    assert Calls([]) == [] && Program([]) == [];
  }

  /** The transactions of filewrite, with the empty one of a chunk that writei refuses. */
  function Made(txs: seq<seq<Write>>, refused: bool): (r: seq<seq<Write>>) { if refused then txs + [[]] else txs }

  /** filewrite over an idle log. The calls are those of the program, none of them finds the log too full, and in the
      end the log is idle again and the disk shows the file system with all the chunks in it. */
  method WriteFile(fs: FileSystem, l: L.Log, i: nat, src: seq<Byte>, off: nat)
    returns (r: Option<int>, off': nat, ghost points: seq<Point>, txs: seq<seq<Write>>)
    requires fs.Valid() && i < |fs.ino| && off < UINT_MOD && |src| < UINT_MOD
    requires l.Valid() && l.Follows() && l.n == 0 && l.outstanding == 0 && !l.committing
    requires SameHome(l.cache.disk, fs.blocks, l.g)
    requires l.g.start + l.g.size <= fs.sb.inodestart && l.g.size > MAXOPBLOCKS + 1
    requires ChunkBudget(NMap(fs.sb)) <= l.budget
    modifies fs`blocks, fs`ino, fs`owner, fs`logged, fs`writes, fs`base
    modifies l`n, l`block, l`outstanding, l`committing, l`run, l`start, l`past, l.cache
    ensures l.start == old(l.cache.disk) && l.past == old(l.cache.history)
    ensures fs.Valid() && l.Valid() && l.Follows() && l.n == 0 && l.outstanding == 0 && !l.committing
    ensures Calls(l.run) == Program(Made(txs, r == Some(-1))) && Idle(l.Now(), |Made(txs, r == Some(-1))|)
    ensures Trail(fs.sb, points, txs, i, off, src) && points[0] == old(Point(fs.blocks, fs.ino, fs.owner))
    ensures off' == off + Done(|txs|, |src|) && (r.None? ==> Full(fs.sb, fs.blocks))
    ensures off <= old(fs.ino)[i].size && r == Some(-1) ==>
              off' <= MAXFILE * BSIZE < off' + Least(CHUNK, |src| - (off' - off))
    ensures off <= old(fs.ino)[i].size && off + |src| <= MAXFILE * BSIZE && r.Some? ==> r == Some(|src|)
    ensures r.Some? ==> points[|txs|] == Point(fs.blocks, fs.ino, fs.owner)
    ensures SameHome(l.cache.disk, points[|txs|].blocks, l.g) && SameHome(l.cache.View(), points[|txs|].blocks, l.g)
  {
    hide FileSystem.Valid, L.Log.Valid, L.Log.Follows, Calls, Program, Idle, SameHome, Trail, P.Exec, Cache.View,
         ChunkBudget, NMap, Touched, Full, Apply, Transaction;
    l.Restart();
    FreshLog(l);
    L.SameHomeTrans(l.cache.View(), l.start, fs.blocks, l.g);
    r, off', points, txs := fs.Filewrite(i, src, off);
    TrailEnd(fs.sb, points, txs, i, off, src);
    LogAll(l, fs.sb, points, txs, i, off, src);
    if r == Some(-1) {
      ghost var v := l.cache.View();
      NothingTouched();
      LogChunk(l, |txs|, []);
      WrittenNothing(v);
      ProgramStep(Made(txs, true), |txs|);
      assert Made(txs, true)[..|txs|] == txs && Made(txs, true)[..|txs| + 1] == Made(txs, true);
      L.SameHomeTrans(l.cache.View(), v, points[|txs|].blocks, l.g);
    }
    IdleShows(l, if r == Some(-1) then |txs| + 1 else |txs|, points[|txs|].blocks);
  }

  /** The transactions, one after the other. */
  method LogAll(l: L.Log, sb: Super, ghost points: seq<Point>, txs: seq<seq<Write>>, ghost i: nat, ghost off: nat,
                ghost src: seq<Byte>)
    requires Trail(sb, points, txs, i, off, src) && |points| == |txs| + 1
    requires l.Valid() && l.Follows() && Idle(l.Now(), 0) && Calls(l.run) == []
    requires SameHome(l.cache.View(), points[0].blocks, l.g)
    requires l.g.start + l.g.size <= sb.inodestart && l.g.size > MAXOPBLOCKS + 1 && ChunkBudget(NMap(sb)) <= l.budget
    requires |l.cache.disk| == |points[0].blocks|
    modifies l`n, l`block, l`outstanding, l`committing, l`run, l.cache
    ensures l.Valid() && l.Follows() && Idle(l.Now(), |txs|) && Calls(l.run) == Program(txs)
    ensures SameHome(l.cache.View(), points[|txs|].blocks, l.g) && |l.cache.disk| == old(|l.cache.disk|)
  {
    hide L.Log.Valid, L.Log.Follows, Calls, Idle, SameHome, Trail, P.Exec, Cache.View, ChunkBudget, NMap, Touched,
         Apply, Transaction;
    var k := 0;
    assert txs[..0] == [];
    while k < |txs|
      invariant 0 <= k <= |txs| && l.Valid() && l.Follows() && Idle(l.Now(), k) && |l.cache.disk| == |points[0].blocks|
      invariant Calls(l.run) == Program(txs[..k]) && SameHome(l.cache.View(), points[k].blocks, l.g)
      modifies l`n, l`block, l`outstanding, l`committing, l`run, l.cache
    {
      ghost var v := l.cache.View();
      ChunkWrites(sb, points, txs, i, off, src, k);
      LogChunk(l, k, txs[k]);
      NextPoint(sb, points, txs, i, off, src, k, v, l.cache.View(), l.g);
      ProgramStep(txs, k);
      k := k + 1;
    }
    assert txs[..|txs|] == txs;
  }

  /** An idle log has put everything home. */
  lemma IdleShows(l: L.Log, k: nat, blocks: seq<Block>)
    requires l.Follows() && Idle(l.Now(), k) && SameHome(l.cache.View(), blocks, l.g)
    ensures l.n == 0 && l.outstanding == 0 && !l.committing && SameHome(l.cache.disk, blocks, l.g)
  {
    hide P.Legal, P.Exec, R.Disks, Cache.View, SameHome, WfDisk;
    P.IdleLogIsDurable(l.start, l.g, l.budget, l.run);
    L.SameHomeTrans(l.cache.disk, l.Now().view, l.cache.View(), l.g);
    L.SameHomeTrans(l.cache.disk, l.cache.View(), blocks, l.g);
  }

  lemma {:induction false} CallsPrefix(run: seq<P.Action>, m: nat)
    requires m <= |run|
    ensures Calls(run[..m]) <= Calls(run) && Ended(run[..m]) <= Ended(run)
    decreases |run|
  {
    if m < |run| {
      CallsPrefix(run[..|run| - 1], m);
      assert run[..|run| - 1][..m] == run[..m];
    } else {
      assert run[..m] == run;
    }
  }

  /** The same theorem for the disk itself, whose every state is kept: whichever block write of the whole call was the
      last to be made, recovery shows a whole number of chunks and all other files as they were. */
  lemma CrashDuringWrite(l: L.Log, sb: Super, points: seq<Point>, txs: seq<seq<Write>>, refused: bool, i: nat, off: nat,
                         src: seq<Byte>, j: nat)
    returns (k: nat)
    requires Trail(sb, points, txs, i, off, src) && l.g.start + l.g.size <= sb.inodestart
    requires var p0 := points[0];
             Synced(sb, p0.blocks, p0.ino) && off <= p0.ino[i].size && SameHome(l.start, p0.blocks, l.g)
    requires l.Follows() && Calls(l.run) == Program(Made(txs, refused)) && j <= R.DiskWrites(l.run)
    ensures var e := Back(l.cache.history, j);
            k <= |txs| && WfDisk(e, l.g)
            && FileAfter(sb, Recovered(e, l.g), points[k].owner, points[0], i, off, src[..Done(k, |src|)])
  {
    hide Trail, Synced, Calls, Program, P.Legal, P.Exec, FileAfter, WfDisk, Recovered, R.Disks, R.DiskWrites, SameHome,
         Back, Cache.View;
    TrailEnd(sb, points, txs, i, off, src);
    var m := R.DiskOfPrefix(l.past, l.start, l.g, l.budget, l.run, j);
    CallsPrefix(l.run, m);
    ProgramPrefix(txs + [[]], |txs|);
    assert (txs + [[]])[..|txs|] == txs;
    k := FilewriteSurvivesCrash(sb, l.g, l.budget, l.start, l.run[..m], points, txs, [], i, off, src);
  }
}
