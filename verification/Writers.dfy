/**
Any number of processes writing files at once (file.c, fs.c, log.c). Each transaction of a filewrite begins when the log
lets it in, locks its inode, goes through writei one log_write at a time, unlocks and ends; the steps of all of them,
and those of the log, come in any order. In every state the file system is well formed, and whatever state the machine
stops in, recovery shows the files with a number of whole writes in them, in the order in which they were made.
*/
module Writers {
  import opened Param
  import opened Blocks
  import opened Bio
  import opened LogSpec
  import opened FsSpec
  import opened FileSteps
  import opened Fs
  import opened WriterSteps
  import opened LogLoad
  import P = LogProtocol
  import L = Log
  import F = FileCrash

  /** A transaction: let in by begin_op, inside writei, or with the inode unlocked again and `log` logged. */
  datatype Op =
    | Waiting(job: Job)
    | Writing(task: Task)
    | Over(log: seq<Write>)

  /** done lists the writes made, in the order in which the inodes were unlocked. saved and kept are the file system and
      the number of writes made when the header of the log was last written. */
  datatype Sys = Sys(log: P.State, p: Point, ops: map<nat, Op>, done: seq<Job>, saved: Point, kept: nat)

  datatype Act =
    | Begin(op: nat, job: Job)
    | Lock(op: nat)
    | Call(op: nat, w: Write, q: Point, at: Phase)
    | Unlock(op: nat)
    | End(op: nat)
    | CommitWrite
    | CommitEnd

  /** Operation op is inside writei on file i. */
  predicate Writes(x: Sys, op: nat, i: nat) { op in x.ops && x.ops[op].Writing? && x.ops[op].task.job.i == i }

  ghost predicate InWritei(x: Sys, i: nat) { exists op :: Writes(x, op, i) }

  ghost predicate Can(sb: Super, g: Geometry, x: Sys, a: Act)
  {
    match a
    case Begin(op, job) =>
      P.Enabled(x.log, P.BeginOp(op), g, MAXOPBLOCKS) && job.i < |x.p.ino| && |job.src| <= CHUNK
    case Lock(op) => op in x.ops && x.ops[op].Waiting? && !InWritei(x, x.ops[op].job.i)
    case Call(op, w, q, at) =>
      && op in x.ops && x.ops[op].Writing? && Step(sb, x.ops[op].task.job, x.p, x.ops[op].task.at, w, q, at)
      && P.Enabled(x.log, P.LogWrite(op, w.block, w.data), g, MAXOPBLOCKS)
    case Unlock(op) =>
      && op in x.ops && x.ops[op].Writing? && x.ops[op].task.job.i < |x.p.ino|
      && Finished(x.p, x.ops[op].task.job, x.ops[op].task.at)
    case End(op) => op in x.ops && x.ops[op].Over? && P.Enabled(x.log, P.EndOp(op), g, MAXOPBLOCKS)
    case CommitWrite => P.Enabled(x.log, P.CommitWrite, g, MAXOPBLOCKS)
    case CommitEnd => P.Enabled(x.log, P.CommitEnd, g, MAXOPBLOCKS)
  }

  /** writei returns -1 at once. */
  predicate Refused(p: Point, job: Job)
  {
    job.i >= |p.ino| || job.off > p.ino[job.i].size || job.off + |job.src| > MAXFILE * BSIZE
  }

  ghost function Do(sb: Super, g: Geometry, x: Sys, a: Act): (y: Sys)
    requires P.Shape(x.log, g) && Can(sb, g, x, a)
  {
    match a
    case Begin(op, job) => x.(log := P.Do(x.log, P.BeginOp(op), g, MAXOPBLOCKS), ops := x.ops[op := Waiting(job)])
    case Lock(op) =>
      var job := x.ops[op].job;
      x.(ops := x.ops[op := if Refused(x.p, job) then Over([]) else Writing(Task(job, Loop(0), x.p, []))])
    case Call(op, w, q, at) =>
      var t := x.ops[op].task;
      x.(log := P.Do(x.log, P.LogWrite(op, w.block, w.data), g, MAXOPBLOCKS), p := q,
         ops := x.ops[op := Writing(t.(at := at, log := t.log + [w]))])
    case Unlock(op) => x.(ops := x.ops[op := Over(x.ops[op].task.log)], done := x.done + [x.ops[op].task.job])
    case End(op) => x.(log := P.Do(x.log, P.EndOp(op), g, MAXOPBLOCKS), ops := x.ops - {op})
    case CommitWrite =>
      var y := x.(log := P.Do(x.log, P.CommitWrite, g, MAXOPBLOCKS));
      if x.log.done == |x.log.hdr| then y.(saved := x.p, kept := |x.done|) else y
    case CommitEnd => x.(log := P.Do(x.log, P.CommitEnd, g, MAXOPBLOCKS))
  }

  ghost function Initial(p0: Point): (x: Sys) { Sys(P.Initial(p0.blocks), p0, map[], [], p0, 0) }

  /** A recovered disk with a well-formed file system on it, whose inodes are in memory. */
  ghost predicate Ready(sb: Super, g: Geometry, p0: Point)
  {
    && WfDisk(p0.blocks, g) && HeaderOf(p0.blocks[g.start]) == [] && g.start + g.size <= sb.inodestart
    && Wf(sb, p0.blocks, p0.ino, p0.owner) && Synced(sb, p0.blocks, p0.ino)
  }

  ghost predicate Legal(sb: Super, g: Geometry, p0: Point, acts: seq<Act>)
  {
    if acts == [] then Ready(sb, g, p0)
    else
      var m := |acts| - 1;
      Legal(sb, g, p0, acts[..m]) && Can(sb, g, Exec(sb, g, p0, acts[..m]), acts[m])
  }

  ghost function Exec(sb: Super, g: Geometry, p0: Point, acts: seq<Act>): (x: Sys)
  {
    if acts == [] then Initial(p0)
    else
      var x := Exec(sb, g, p0, acts[..|acts| - 1]);
      var a := acts[|acts| - 1];
      if P.Shape(x.log, g) && Can(sb, g, x, a) then Do(sb, g, x, a) else x
  }

  /** What file i holds after the writes of `done`, one after the other. */
  ghost function Played(p0: Point, done: seq<Job>, i: nat): (c: seq<Byte>)
    requires Inodes(p0.ino) && i < |p0.ino|
  {
    if done == [] then Contents(p0.blocks, p0.ino, i)
    else
      var job, c := done[|done| - 1], Played(p0, done[..|done| - 1], i);
      if job.i == i && job.off <= |c| then Splice(c, job.off, job.src) else c
  }

  /* ---------------- the invariant ---------------- */

  ghost predicate LogSound(g: Geometry, d: Disk, s: P.State)
  {
    P.Tracks(s, d, g) && P.Whole(s) && P.Reserved(s, MAXOPBLOCKS, MAXOPBLOCKS, LOGSIZE)
  }

  /** The log shows the file system, and its open operations are those here. */
  ghost predicate Agree(sb: Super, g: Geometry, p0: Point, x: Sys)
  {
    && Wf(sb, x.p.blocks, x.p.ino, x.p.owner) && Inodes(x.p.ino) && |x.p.ino| == |p0.ino| && Inodes(p0.ino)
    && SameHome(x.log.view, x.p.blocks, g) && x.ops.Keys == x.log.outstanding.Keys
  }

  /** Each writei is on course, on a file of its own and with a block of its own. */
  ghost predicate Tasks(sb: Super, x: Sys)
  {
    && (forall op {:trigger x.ops[op]} :: op in x.ops && x.ops[op].Writing? ==> Mine(sb, x.p, x.ops[op].task))
    && (forall op, k {:trigger x.ops[op], x.ops[k]} ::
          op in x.ops && k in x.ops && op != k && x.ops[op].Writing? && x.ops[k].Writing? ==>
          Separate(x.ops[op].task, x.ops[k].task))
  }

  predicate Separate(t: Task, u: Task) { t.job.i != u.job.i && Pending(t.at) !! Pending(u.at) }

  /** The disk has the inodes that nobody is writing to. */
  ghost predicate Quiet(sb: Super, x: Sys)
  {
    forall i: nat {:trigger InWritei(x, i)} :: i < |x.p.ino| && !InWritei(x, i) ==>
      InodeBlock(sb, i) < |x.p.blocks| && DiskInode(sb, x.p.blocks, i) == x.p.ino[i]
  }

  /** Every file holds the writes made, but for what a writei under way has written to it. */
  ghost predicate Told(p0: Point, x: Sys)
    requires Inodes(p0.ino) && Inodes(x.p.ino) && |x.p.ino| == |p0.ino|
  {
    && (forall i: nat {:trigger InWritei(x, i)} :: i < |x.p.ino| && !InWritei(x, i) ==>
          Contents(x.p.blocks, x.p.ino, i) == Played(p0, x.done, i))
    && (forall op {:trigger x.ops[op]} :: op in x.ops && x.ops[op].Writing? ==>
          var t := x.ops[op].task;
          && Inodes(t.from.ino) && t.job.i < |t.from.ino| == |p0.ino|
          && Contents(t.from.blocks, t.from.ino, t.job.i) == Played(p0, x.done, t.job.i))
  }

  /** Every write was made at an offset that its file had then. */
  ghost predicate Placed(p0: Point, done: seq<Job>)
    requires Inodes(p0.ino)
  {
    forall k {:trigger done[k]} :: 0 <= k < |done| ==>
      done[k].i < |p0.ino| && done[k].off <= |Played(p0, done[..k], done[k].i)|
  }

  function LogMade(o: Op): (ws: seq<Write>)
  {
    match o
    case Waiting(_) => []
    case Writing(t) => t.log
    case Over(log) => log
  }

  /** The log has the calls of each operation, and no operation has made more than it may. */
  ghost predicate Noted(sb: Super, x: Sys)
  {
    forall op {:trigger x.ops[op]} :: op in x.ops ==>
      && WritesOf(x.log.events, op) == LogMade(x.ops[op])
      && (x.ops[op].Over? ==> Modest(sb, x.ops[op].log)) && (x.ops[op].Waiting? ==> |x.ops[op].job.src| <= CHUNK)
  }

  ghost predicate Modest(sb: Super, log: seq<Write>)
  {
    |Touched(log) - MapBlocks(sb)| <= 6 && |Touched(log) - {}| <= MAXOPBLOCKS
  }

  /** What recovery will show. */
  ghost predicate Stable(sb: Super, g: Geometry, p0: Point, x: Sys)
    requires Inodes(p0.ino) && |x.log.commits| > 0
  {
    && P.Durable(x.log) <= |x.log.events| && x.kept <= |x.done|
    && SavedAs(sb, p0, x.saved, x.done[..x.kept])
    && SameHome(P.Replay(p0.blocks, x.log.events[..P.Durable(x.log)]), x.saved.blocks, g)
  }

  /** q is a file system, inodes on disk and all, with exactly the writes of `done` in it. */
  ghost predicate SavedAs(sb: Super, p0: Point, q: Point, done: seq<Job>)
    requires Inodes(p0.ino)
  {
    && Wf(sb, q.blocks, q.ino, q.owner) && Synced(sb, q.blocks, q.ino) && Inodes(q.ino) && |q.ino| == |p0.ino|
    && forall i: nat :: i < |p0.ino| ==> Contents(q.blocks, q.ino, i) == Played(p0, done, i)
  }

  ghost predicate Sound(sb: Super, g: Geometry, p0: Point, x: Sys)
  {
    && LogSound(g, p0.blocks, x.log) && P.Shape(x.log, g) && Agree(sb, g, p0, x) && g.start + g.size <= sb.inodestart
    && Tasks(sb, x) && Quiet(sb, x) && Told(p0, x) && Placed(p0, x.done) && Noted(sb, x) && Stable(sb, g, p0, x)
  }

  lemma SoundInitial(sb: Super, g: Geometry, p0: Point)
    requires Ready(sb, g, p0)
    ensures Sound(sb, g, p0, Initial(p0))
  {
    hide Wf, HeaderOf, P.Replay, DiskInode;
    WfInodes(sb, p0.blocks, p0.ino, p0.owner);
    P.InitialHolds(p0.blocks, g, MAXOPBLOCKS);
    P.TracksShape(P.Initial(p0.blocks), p0.blocks, g);
    ReplayNone(p0.blocks);
  }

  lemma ReplayNone(d: Disk)
    ensures P.Replay(d, []) == d
  {
  }

  /* ---------------- every step keeps it ---------------- */

  lemma LogStep(g: Geometry, d: Disk, s: P.State, a: P.Action)
    requires LogSound(g, d, s) && P.Enabled(s, a, g, MAXOPBLOCKS)
    ensures P.Shape(s, g) && var r := P.Do(s, a, g, MAXOPBLOCKS); LogSound(g, d, r) && P.Shape(r, g)
  {
    hide P.Tracks, P.Whole, P.Reserved, P.Enabled, P.Do, P.Shape;
    P.StepInvariants(s, a, d, g, MAXOPBLOCKS);
    P.TracksShape(P.Do(s, a, g, MAXOPBLOCKS), d, g);
  }

  /** The same operations are inside writei. */
  ghost predicate SameWriters(x: Sys, y: Sys)
  {
    && y.p == x.p && y.done == x.done
    && (forall op {:trigger y.ops[op]} :: op in y.ops && y.ops[op].Writing? ==> op in x.ops && x.ops[op] == y.ops[op])
    && (forall op {:trigger x.ops[op]} :: op in x.ops && x.ops[op].Writing? ==> op in y.ops && y.ops[op] == x.ops[op])
  }

  lemma WritersSame(sb: Super, g: Geometry, p0: Point, x: Sys, y: Sys)
    requires SameWriters(x, y) && Agree(sb, g, p0, x) && Tasks(sb, x) && Quiet(sb, x) && Told(p0, x)
    ensures Tasks(sb, y) && Quiet(sb, y) && Told(p0, y)
  {
    hide Wf, SameHome, Mine, Contents, Played, DiskInode, Separate;
    forall i: nat ensures InWritei(y, i) <==> InWritei(x, i) {
      if op :| Writes(x, op, i) { assert Writes(y, op, i); }
      if op :| Writes(y, op, i) { assert Writes(x, op, i); }
    }
  }

  lemma BeginSound(sb: Super, g: Geometry, p0: Point, x: Sys, op: nat, job: Job)
    requires Sound(sb, g, p0, x) && Can(sb, g, x, Begin(op, job))
    ensures Sound(sb, g, p0, Do(sb, g, x, Begin(op, job)))
  {
    hide LogSound, P.Shape, Wf, SameHome, Tasks, Quiet, Told, Placed, P.Replay, SavedAs, WritesOf, Modest;
    var y := Do(sb, g, x, Begin(op, job));
    LogStep(g, p0.blocks, x.log, P.BeginOp(op));
    FreshOp(g, p0.blocks, x.log, op);
    WritersSame(sb, g, p0, x, y);
  }

  lemma FreshOp(g: Geometry, d: Disk, s: P.State, op: nat)
    requires LogSound(g, d, s) && op !in s.begun
    ensures WritesOf(s.events, op) == [] && op !in s.outstanding
  {
    hide P.Tracks, P.Reserved;
    NoWrites(s.events, op);
  }

  lemma EndSound(sb: Super, g: Geometry, p0: Point, x: Sys, op: nat)
    requires Sound(sb, g, p0, x) && Can(sb, g, x, End(op))
    ensures Sound(sb, g, p0, Do(sb, g, x, End(op)))
  {
    hide LogSound, P.Shape, Wf, SameHome, Tasks, Quiet, Told, Placed, P.Replay, SavedAs, WritesOf, Modest;
    var y := Do(sb, g, x, End(op));
    LogStep(g, p0.blocks, x.log, P.EndOp(op));
    assert (x.log.outstanding - {op}).Keys == x.log.outstanding.Keys - {op} == (x.ops - {op}).Keys;
    WritersSame(sb, g, p0, x, y);
  }

  lemma Entered(sb: Super, g: Geometry, p0: Point, x: Sys, op: nat, y: Sys)
    requires Agree(sb, g, p0, x) && Tasks(sb, x) && Quiet(sb, x) && Told(p0, x)
    requires op in x.ops && x.ops[op].Waiting? && !InWritei(x, x.ops[op].job.i) && |x.ops[op].job.src| <= CHUNK
    requires !Refused(x.p, x.ops[op].job)
    requires y == x.(ops := x.ops[op := Writing(Task(x.ops[op].job, Loop(0), x.p, []))])
    ensures Tasks(sb, y) && Quiet(sb, y) && Told(p0, y)
  {
    hide Wf, SameHome, Mine, Contents, Played, DiskInode;
    var job := x.ops[op].job;
    StartMine(sb, x.p, job);
    assert y.p == x.p && y.ops[op] == Writing(Task(job, Loop(0), x.p, []));
    forall k | k in x.ops && x.ops[k].Writing? ensures x.ops[k].task.job.i != job.i {
      assert !Writes(x, k, job.i);
    }
    forall i: nat ensures InWritei(y, i) <==> InWritei(x, i) || i == job.i {
      if k :| Writes(x, k, i) { assert Writes(y, k, i); }
      if k :| Writes(y, k, i) { assert k == op || Writes(x, k, i); }
      assert Writes(y, op, job.i);
    }
  }

  lemma LockNoted(sb: Super, x: Sys, op: nat, y: Sys)
    requires Noted(sb, x) && op in x.ops && x.ops[op].Waiting? && y.log == x.log
    requires op in y.ops && y.ops == x.ops[op := y.ops[op]]
    requires y.ops[op] == Over([]) || (y.ops[op].Writing? && y.ops[op].task.log == [])
    ensures Noted(sb, y) && |x.ops[op].job.src| <= CHUNK
  {
    hide WritesOf, Touched, MapBlocks;
    NothingTouched();
  }

  lemma LockSound(sb: Super, g: Geometry, p0: Point, x: Sys, op: nat)
    requires Sound(sb, g, p0, x) && Can(sb, g, x, Lock(op))
    ensures Sound(sb, g, p0, Do(sb, g, x, Lock(op)))
  {
    hide LogSound, P.Shape, Wf, SameHome, Tasks, Quiet, Told, Placed, Noted, P.Replay, SavedAs, WritesOf, InWritei;
    var y, job := Do(sb, g, x, Lock(op)), x.ops[op].job;
    LockNoted(sb, x, op, y);
    if Refused(x.p, job) {
      WritersSame(sb, g, p0, x, y);
    } else {
      Entered(sb, g, p0, x, op, y);
    }
  }

  /* ---------------- a call of log_write ---------------- */

  lemma OthersApart(sb: Super, x: Sys, op: nat, k: nat)
    requires Tasks(sb, x) && op in x.ops && k in x.ops && op != k && x.ops[op].Writing? && x.ops[k].Writing?
    ensures Separate(x.ops[op].task, x.ops[k].task) && Mine(sb, x.p, x.ops[k].task) && Mine(sb, x.p, x.ops[op].task)
  {
    hide Mine, Separate;
  }

  lemma CallTasks(sb: Super, x: Sys, op: nat, w: Write, q: Point, at: Phase, y: Sys)
    requires Wf(sb, x.p.blocks, x.p.ino, x.p.owner) && Tasks(sb, x) && op in x.ops && x.ops[op].Writing?
    requires Step(sb, x.ops[op].task.job, x.p, x.ops[op].task.at, w, q, at) && y.p == q
    requires y.ops == x.ops[op := Writing(x.ops[op].task.(at := at, log := x.ops[op].task.log + [w]))]
    ensures Wf(sb, q.blocks, q.ino, q.owner) && Kept(sb, x.p, q, x.ops[op].task.job.i, Pending(x.ops[op].task.at))
    ensures sb.inodestart <= w.block && Tasks(sb, y)
  {
    hide Wf, Mine, Kept, Step, Pending, Used;
    var t := x.ops[op].task;
    StepKeeps(sb, x.p, t, w, q, at);
    forall k | k in x.ops && k != op && x.ops[k].Writing?
      ensures Mine(sb, q, x.ops[k].task) && Separate(y.ops[op].task, x.ops[k].task)
      ensures Separate(x.ops[k].task, y.ops[op].task)
    {
      OthersApart(sb, x, op, k);
      OtherKept(sb, x.p, q, t.job.i, Pending(t.at), x.ops[k].task);
      PendingUsed(sb, x.p, x.ops[k].task);
    }
  }

  lemma PendingUsed(sb: Super, p: Point, t: Task)
    requires Mine(sb, p, t)
    ensures forall b :: b in Pending(t.at) ==> Layout(sb, |p.blocks|) && Used(sb, p.blocks, b)
  {
    hide Used, Wf, Slotted, Filled, LogOf, Touched;
  }

  /** Files that nobody is writing to are as they were. */
  lemma CallOthers(sb: Super, p0: Point, x: Sys, op: nat, q: Point, mine: set<nat>, y: Sys)
    requires Inodes(p0.ino) && Inodes(x.p.ino) && Inodes(q.ino) && |x.p.ino| == |p0.ino| == |q.ino|
    requires op in x.ops && x.ops[op].Writing? && Kept(sb, x.p, q, x.ops[op].task.job.i, mine)
    requires Quiet(sb, x) && Told(p0, x) && y.p == q && y.done == x.done && op in y.ops && y.ops[op].Writing?
    requires y.ops == x.ops[op := y.ops[op]]
    requires y.ops[op].task.job == x.ops[op].task.job && y.ops[op].task.from == x.ops[op].task.from
    ensures Quiet(sb, y) && Told(p0, y)
  {
    hide Contents, Played, SameBytes, SameSlots, Used, InodeIn;
    forall i: nat ensures InWritei(y, i) <==> InWritei(x, i) {
      if k :| Writes(x, k, i) { assert Writes(y, k, i); }
      if k :| Writes(y, k, i) { assert Writes(x, k, i); }
    }
    assert Writes(x, op, x.ops[op].task.job.i);
    forall i: nat | i < |q.ino| && !InWritei(y, i)
      ensures InodeBlock(sb, i) < |q.blocks| && DiskInode(sb, q.blocks, i) == q.ino[i]
      ensures Contents(q.blocks, q.ino, i) == Played(p0, y.done, i)
    {
      assert !InWritei(x, i) && SameFile(sb, x.p, q, i);
      F.SameContents(x.p.blocks, x.p.ino, q.blocks, q.ino, i);
    }
  }

  lemma CallNoted(sb: Super, x: Sys, op: nat, w: Write, y: Sys)
    requires Noted(sb, x) && op in x.ops && x.ops[op].Writing?
    requires op in y.ops && y.ops == x.ops[op := y.ops[op]] && y.ops[op].Writing?
    requires y.ops[op].task.log == x.ops[op].task.log + [w]
    requires y.log.events == x.log.events + [P.Event(op, w.block, w.data)]
    ensures Noted(sb, y)
  {
    hide WritesOf, Modest;
    forall k | k in x.ops ensures WritesOf(y.log.events, k) == LogMade(y.ops[k]) {
      WritesMore(x.log.events, P.Event(op, w.block, w.data), k);
      if k != op { assert LogMade(x.ops[k]) + [] == LogMade(x.ops[k]); }
    }
  }

  lemma CallSound(sb: Super, g: Geometry, p0: Point, x: Sys, op: nat, w: Write, q: Point, at: Phase)
    requires Sound(sb, g, p0, x) && Can(sb, g, x, Call(op, w, q, at))
    ensures Sound(sb, g, p0, Do(sb, g, x, Call(op, w, q, at)))
  {
    hide LogSound, P.Shape, Wf, SameHome, Tasks, Quiet, Told, Placed, Noted, Step, P.Replay, SavedAs, WritesOf, Kept,
         Absorb;
    var y := Do(sb, g, x, Call(op, w, q, at));
    LogStep(g, p0.blocks, x.log, P.LogWrite(op, w.block, w.data));
    CallTasks(sb, x, op, w, q, at, y);
    WfInodes(sb, q.blocks, q.ino, q.owner);
    KeptSizes(sb, x.p, q, x.ops[op].task.job.i, Pending(x.ops[op].task.at));
    CallOthers(sb, p0, x, op, q, Pending(x.ops[op].task.at), y);
    CallNoted(sb, x, op, w, y);
    StepBlocks(sb, x.ops[op].task.job, x.p, x.ops[op].task.at, w, q, at);
    ViewSize(x.log.view, x.p.blocks, g);
    P.WriteBoth(x.log.view, x.p.blocks, g, w.block, w.data);
    Committed(x.log, g);
    assert y.log.events[..P.Durable(y.log)] == x.log.events[..P.Durable(x.log)];
    assert x.log.outstanding.Keys == y.log.outstanding.Keys;
  }

  lemma Committed(s: P.State, g: Geometry)
    requires P.Shape(s, g)
    ensures |s.commits| > 0
  {
  }

  lemma KeptSizes(sb: Super, p: Point, q: Point, i: nat, mine: set<nat>)
    requires Kept(sb, p, q, i, mine)
    ensures |q.ino| == |p.ino| && |q.blocks| == |p.blocks|
  {
  }

  lemma StepBlocks(sb: Super, job: Job, p: Point, at: Phase, w: Write, q: Point, at': Phase)
    requires Step(sb, job, p, at, w, q, at')
    ensures w.block < |p.blocks| && q.blocks == p.blocks[w.block := w.data]
  {
  }

  lemma ViewSize(v: Disk, w: Disk, g: Geometry)
    requires SameHome(v, w, g)
    ensures |v| == |w|
  {
  }

  /* ---------------- the end of a writei ---------------- */

  lemma PlayedMore(p0: Point, done: seq<Job>, job: Job, i: nat)
    requires Inodes(p0.ino) && i < |p0.ino|
    ensures var c := Played(p0, done, i);
            Played(p0, done + [job], i) == if job.i == i && job.off <= |c| then Splice(c, job.off, job.src) else c
  {
    assert (done + [job])[..|done|] == done;
  }

  lemma UnlockSound(sb: Super, g: Geometry, p0: Point, x: Sys, op: nat)
    requires Sound(sb, g, p0, x) && Can(sb, g, x, Unlock(op))
    ensures Sound(sb, g, p0, Do(sb, g, x, Unlock(op)))
  {
    hide LogSound, P.Shape, Wf, SameHome, Quiet, Told, Placed, Noted, Tasks, P.Replay, SavedAs, WritesOf, Mine,
         Finished;
    var y := Do(sb, g, x, Unlock(op));
    TaskMine(sb, x, op);
    UnlockTasks(sb, x, op, y);
    UnlockTold(sb, g, p0, x, op, y);
    PlacedMore(p0, x.done, x.ops[op].task.job);
    UnlockNoted(sb, x, op, y);
    assert y.done[..x.kept] == x.done[..x.kept];
  }

  lemma PlacedMore(p0: Point, done: seq<Job>, job: Job)
    requires Inodes(p0.ino) && Placed(p0, done) && job.i < |p0.ino| && job.off <= |Played(p0, done, job.i)|
    ensures Placed(p0, done + [job])
  {
    hide Played;
    var all := done + [job];
    forall k | 0 <= k < |all| ensures all[k].i < |p0.ino| && all[k].off <= |Played(p0, all[..k], all[k].i)| {
      assert all[..k] == done[..k] && done[..|done|] == done;
      if k < |done| { assert all[k] == done[k]; }
    }
  }

  lemma TaskMine(sb: Super, x: Sys, op: nat)
    requires Tasks(sb, x) && op in x.ops && x.ops[op].Writing?
    ensures Mine(sb, x.p, x.ops[op].task)
  {
    hide Mine, Separate;
  }

  lemma UnlockTasks(sb: Super, x: Sys, op: nat, y: Sys)
    requires Tasks(sb, x) && op in x.ops && x.ops[op].Writing? && y.p == x.p
    requires y.ops == x.ops[op := Over(x.ops[op].task.log)]
    ensures Tasks(sb, y)
  {
    hide Mine, Separate;
  }

  lemma UnlockNoted(sb: Super, x: Sys, op: nat, y: Sys)
    requires Noted(sb, x) && op in x.ops && x.ops[op].Writing? && y.log == x.log
    requires Wf(sb, x.p.blocks, x.p.ino, x.p.owner) && Mine(sb, x.p, x.ops[op].task)
    requires y.ops == x.ops[op := Over(x.ops[op].task.log)]
    ensures Noted(sb, y)
  {
    hide WritesOf, Mine, Wf, Touched, MapBlocks, NMap;
    var log := x.ops[op].task.log;
    LogBound(sb, x.p, x.ops[op].task);
    assert Touched(log) - {} == Touched(log);
  }

  lemma UnlockTold(sb: Super, g: Geometry, p0: Point, x: Sys, op: nat, y: Sys)
    requires Agree(sb, g, p0, x) && Tasks(sb, x) && Quiet(sb, x) && Told(p0, x) && op in x.ops && x.ops[op].Writing?
    requires Mine(sb, x.p, x.ops[op].task) && x.ops[op].task.job.i < |x.p.ino|
    requires Finished(x.p, x.ops[op].task.job, x.ops[op].task.at)
    requires y.ops == x.ops[op := Over(x.ops[op].task.log)] && y.p == x.p && y.done == x.done + [x.ops[op].task.job]
    ensures Quiet(sb, y) && Told(p0, y)
    ensures x.ops[op].task.job.off <= |Played(p0, x.done, x.ops[op].task.job.i)|
  {
    hide Wf, SameHome, Mine, Contents, Played, Splice, InodeIn, Finished;
    var t := x.ops[op].task;
    FinishedFile(sb, x.p, t);
    PlayedMore(p0, x.done, t.job, t.job.i);
    forall k | k in x.ops && k != op && x.ops[k].Writing? ensures x.ops[k].task.job.i != t.job.i {
      OthersApart(sb, x, op, k);
    }
    forall i: nat | i != t.job.i ensures InWritei(y, i) <==> InWritei(x, i) {
      if k :| Writes(x, k, i) { assert Writes(y, k, i); }
      if k :| Writes(y, k, i) { assert Writes(x, k, i); }
    }
    forall i: nat | i < |p0.ino| && i != t.job.i ensures Played(p0, y.done, i) == Played(p0, x.done, i) {
      PlayedMore(p0, x.done, t.job, i);
    }
    assert Contents(x.p.blocks, x.p.ino, t.job.i) == Played(p0, y.done, t.job.i);
  }

  /* ---------------- the steps of the log ---------------- */

  /** With nobody inside, the file system is as if the writes had been made one after the other. */
  lemma AllQuiet(sb: Super, g: Geometry, p0: Point, x: Sys)
    requires Agree(sb, g, p0, x) && Quiet(sb, x) && Told(p0, x) && x.ops == map[]
    ensures SavedAs(sb, p0, x.p, x.done)
  {
    hide Owned, InUse, NoHoles, SameHome, Contents, Played, InodeIn;
    forall i: nat | i < |p0.ino|
      ensures InodeBlock(sb, i) < |x.p.blocks| && DiskInode(sb, x.p.blocks, i) == x.p.ino[i]
      ensures Contents(x.p.blocks, x.p.ino, i) == Played(p0, x.done, i)
    {
      assert !InWritei(x, i);
    }
    WfSize(sb, x.p);
  }

  lemma WfSize(sb: Super, p: Point)
    requires Wf(sb, p.blocks, p.ino, p.owner)
    ensures Room(sb, |p.ino|) && sb.bmapstart <= |p.blocks|
  {
  }

  lemma CommitSound(sb: Super, g: Geometry, p0: Point, x: Sys, a: Act)
    requires Sound(sb, g, p0, x) && Can(sb, g, x, a) && (a.CommitWrite? || a.CommitEnd?)
    ensures Sound(sb, g, p0, Do(sb, g, x, a))
  {
    hide LogSound, P.Shape, Wf, SameHome, Tasks, Quiet, Told, Placed, Noted, P.Replay, SavedAs, WritesOf, CommitState;
    var y := Do(sb, g, x, a);
    LogStep(g, p0.blocks, x.log, if a.CommitWrite? then P.CommitWrite else P.CommitEnd);
    WritersSame(sb, g, p0, x, y);
    SameNoted(sb, x, y);
    Committed(x.log, g);
    LogFacts(g, p0.blocks, x.log);
    if a.CommitWrite? && x.log.done == |x.log.hdr| {
      assert x.ops.Keys == {};
      AllQuiet(sb, g, p0, x);
      L.SameHomeTrans(P.Replay(p0.blocks, x.log.events), x.log.view, x.p.blocks, g);
      L.SameHomeTrans(x.log.view, P.Replay(p0.blocks, x.log.events), x.p.blocks, g);
      assert x.log.events[..|x.log.events|] == x.log.events && x.done[..|x.done|] == x.done;
    }
  }

  lemma SameNoted(sb: Super, x: Sys, y: Sys)
    requires Noted(sb, x) && y.ops == x.ops && y.log.events == x.log.events
    ensures Noted(sb, y)
  {
    hide WritesOf, Modest;
  }

  lemma LogFacts(g: Geometry, d: Disk, s: P.State)
    requires LogSound(g, d, s)
    ensures s.committing ==> s.outstanding == map[]
    ensures SameHome(s.view, P.Replay(d, s.events), g)
  {
    hide P.Replay, HeaderOf, SameHome, CommitState;
  }

  /* ---------------- every run ---------------- */

  lemma StepSound(sb: Super, g: Geometry, p0: Point, x: Sys, a: Act)
    requires Sound(sb, g, p0, x) && Can(sb, g, x, a)
    ensures P.Shape(x.log, g) && Sound(sb, g, p0, Do(sb, g, x, a))
  {
    hide Can, Do, LogSound, P.Shape, Agree, Tasks, Quiet, Told, Placed, Noted, Stable;
    match a
    case Begin(op, job) => BeginSound(sb, g, p0, x, op, job);
    case Lock(op) => LockSound(sb, g, p0, x, op);
    case Call(op, w, q, at) => CallSound(sb, g, p0, x, op, w, q, at);
    case Unlock(op) => UnlockSound(sb, g, p0, x, op);
    case End(op) => EndSound(sb, g, p0, x, op);
    case _ => CommitSound(sb, g, p0, x, a);
  }

  lemma {:induction false} SoundRun(sb: Super, g: Geometry, p0: Point, acts: seq<Act>)
    requires Legal(sb, g, p0, acts)
    ensures Sound(sb, g, p0, Exec(sb, g, p0, acts))
    decreases |acts|
  {
    hide Can, Do, Sound, Ready, Initial;
    if acts == [] {
      SoundInitial(sb, g, p0);
    } else {
      var m := |acts| - 1;
      SoundRun(sb, g, p0, acts[..m]);
      StepSound(sb, g, p0, Exec(sb, g, p0, acts[..m]), acts[m]);
    }
  }

  /** The disk r holds, by its own inodes, a well-formed file system with exactly the writes of `done` in its files. */
  ghost predicate FilesAfter(sb: Super, r: Disk, owner: Owners, p0: Point, done: seq<Job>)
  {
    && Room(sb, |p0.ino|) && sb.bmapstart <= |r| && Inodes(p0.ino)
    && var n := F.DiskInodes(sb, r, |p0.ino|);
    && Wf(sb, r, n, owner) && Inodes(n)
    && forall i: nat :: i < |p0.ino| ==> Contents(r, n, i) == Played(p0, done, i)
  }

  lemma Shown(sb: Super, g: Geometry, p0: Point, q: Point, done: seq<Job>, r: Disk)
    requires Inodes(p0.ino) && SavedAs(sb, p0, q, done) && SameHome(r, q.blocks, g) && g.start + g.size <= sb.inodestart
    ensures FilesAfter(sb, r, q.owner, p0, done)
  {
    hide Owned, InUse, NoHoles, SameHome, Contents, Played, InodeIn;
    F.SameFileSystem(sb, g, q.blocks, r, q.ino, q.owner);
    WfSize(sb, q.(blocks := r));
    assert F.DiskInodes(sb, r, |p0.ino|) == q.ino;
  }

  /** Whatever any number of processes are doing when the machine stops: recovery shows a well-formed file system
      whose files hold the first m of the writes made, in their order, and nothing of any other; and all of them if
      the log was idle. As a process makes its writes one after the other, each file has a whole number of the chunks
      of each. */
  lemma WritersSurviveCrash(sb: Super, g: Geometry, p0: Point, acts: seq<Act>) returns (m: nat, owner: Owners)
    requires Legal(sb, g, p0, acts)
    ensures var x := Exec(sb, g, p0, acts);
            && m <= |x.done| && (x.log.outstanding == map[] && !x.log.committing ==> m == |x.done|)
            && Inodes(p0.ino) && Placed(p0, x.done)
            && WfDisk(x.log.disk, g) && FilesAfter(sb, Recovered(x.log.disk, g), owner, p0, x.done[..m])
  {
    hide Legal, Exec, LogSound, P.Shape, Wf, SameHome, Tasks, Quiet, Told, Placed, Noted, P.Replay, SavedAs, Recovered,
         WfDisk, FilesAfter;
    var x := Exec(sb, g, p0, acts);
    SoundRun(sb, g, p0, acts);
    Committed(x.log, g);
    LogCrash(g, p0.blocks, x.log);
    var r := Recovered(x.log.disk, g);
    if x.log.outstanding == map[] && !x.log.committing {
      m, owner := |x.done|, x.p.owner;
      assert x.ops.Keys == {};
      AllQuiet(sb, g, p0, x);
      assert x.done[..m] == x.done;
      L.SameHomeTrans(r, x.log.view, x.p.blocks, g);
      Shown(sb, g, p0, x.p, x.done, r);
    } else {
      m, owner := x.kept, x.saved.owner;
      L.SameHomeTrans(r, P.Replay(p0.blocks, x.log.events[..P.Durable(x.log)]), x.saved.blocks, g);
      Shown(sb, g, p0, x.saved, x.done[..m], r);
    }
  }

  lemma LogCrash(g: Geometry, d: Disk, s: P.State)
    requires LogSound(g, d, s) && |s.commits| > 0 && P.Durable(s) <= |s.events|
    ensures WfDisk(s.disk, g) && SameHome(Recovered(s.disk, g), P.Replay(d, s.events[..P.Durable(s)]), g)
    ensures s.outstanding == map[] && !s.committing ==> SameHome(Recovered(s.disk, g), s.view, g)
  {
    hide P.Replay, HeaderOf, SameHome, CommitState, Recovered;
    P.TracksSurvivesCrash(s, d, g);
    if s.outstanding == map[] && !s.committing {
      assert s.hdr == [] && P.Durable(s) == |s.events| && s.events[..|s.events|] == s.events;
      L.SameHomeTrans(s.view, P.Replay(d, s.events), s.view, g);
      L.SameHomeTrans(Recovered(s.disk, g), P.Replay(d, s.events), s.view, g);
    }
  }
}
