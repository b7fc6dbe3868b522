/**
When the log is large enough for processes that write files (file.c, log.c). begin_op reserves MAXOPBLOCKS blocks for
each transaction, but log_write panics one block short of LOGSIZE in a log of that size, and in a longer one the commit
of a full log finds no buffer to copy with. With at most seven blocks of free map neither can happen, in any
interleaving.
*/
module FileLoad {
  import opened Param
  import opened Blocks
  import opened Bio
  import opened LogSpec
  import opened FsSpec
  import opened FileSteps
  import opened Fs
  import opened WriterSteps
  import opened LogLoad
  import opened Writers
  import P = LogProtocol

  /** A process is about to call log_write, which panics with "too big a transaction". */
  ghost predicate TooBigCall(sb: Super, g: Geometry, x: Sys)
  {
    P.TooBig(x.log, g) && exists op, w, q, at :: Calls(sb, x, op, w, q, at)
  }

  /** Operation op is inside writei, and its next step is to log w. */
  ghost predicate Calls(sb: Super, x: Sys, op: nat, w: Write, q: Point, at: Phase)
  {
    op in x.ops && x.ops[op].Writing? && Step(sb, x.ops[op].task.job, x.p, x.ops[op].task.at, w, q, at)
  }

  /** A commit has begun with as many blocks pinned as there are buffers, so that the first bread of write_log panics
      with "no buffers". */
  predicate NoBufferLeft(x: Sys) { x.log.committing && |x.log.hdr| >= NBUF }

  ghost predicate LogPanic(sb: Super, g: Geometry, x: Sys) { TooBigCall(sb, g, x) || NoBufferLeft(x) }

  /** However many processes write files, and however their steps interleave, the log does not panic. */
  ghost predicate NeverPanics(sb: Super, g: Geometry, p0: Point)
  {
    forall acts {:trigger Exec(sb, g, p0, acts)} :: Legal(sb, g, p0, acts) ==> !LogPanic(sb, g, Exec(sb, g, p0, acts))
  }

  /* ---------------- how much there is in the log ---------------- */

  ghost predicate Light(sb: Super, s: P.State)
  {
    Loaded(s, MapBlocks(sb), 6, 22) && Loaded(s, {}, MAXOPBLOCKS, LOGSIZE) && Charged(s)
  }

  /** What each operation has logged is what a writei may have. */
  lemma AllWithin(sb: Super, g: Geometry, p0: Point, x: Sys)
    requires Sound(sb, g, p0, x)
    ensures Within(x.log, MapBlocks(sb), 6) && Within(x.log, {}, MAXOPBLOCKS)
  {
    hide LogSound, P.Shape, Wf, SameHome, Mine, Quiet, Told, Placed, Stable, WritesOf, Touched, MapBlocks, NMap,
         Separate;
    forall op | op in x.log.outstanding
      ensures Count(x.log.events, op, MapBlocks(sb)) <= 6 && Count(x.log.events, op, {}) <= MAXOPBLOCKS
    {
      assert op in x.ops;
      match x.ops[op]
      case Waiting(_) => NothingTouched();
      case Writing(t) =>
        LogBound(sb, x.p, t);
        assert Touched(t.log) - {} == Touched(t.log);
      case Over(_) =>
    }
  }

  lemma LightStep(sb: Super, g: Geometry, p0: Point, x: Sys, a: P.Action)
    requires Sound(sb, g, p0, x) && Light(sb, x.log) && P.Enabled(x.log, a, g, MAXOPBLOCKS)
    ensures P.Shape(x.log, g) && Light(sb, P.Do(x.log, a, g, MAXOPBLOCKS))
  {
    hide P.Shape, P.Enabled, P.Do, Agree, Tasks, Quiet, Told, Placed, Noted, Stable, Loaded, Within, MapBlocks, Charged,
         P.Tracks, P.Whole, P.Reserved;
    AllWithin(sb, g, p0, x);
    LoadedStep(x.log, a, g, MapBlocks(sb), 6, 22);
    LoadedStep(x.log, a, g, {}, MAXOPBLOCKS, LOGSIZE);
    LoadedLists(x.log, {}, MAXOPBLOCKS, LOGSIZE);
    ChargedStep(x.log, a, g);
  }

  lemma LoadedLists(s: P.State, m: set<nat>, p: nat, limit: nat)
    requires Loaded(s, m, p, limit)
    ensures Listed(s)
  {
  }

  lemma {:induction false} LightRun(sb: Super, g: Geometry, p0: Point, acts: seq<Act>)
    requires Legal(sb, g, p0, acts)
    ensures Light(sb, Exec(sb, g, p0, acts).log)
    decreases |acts|
  {
    hide Sound, Light, Ready, P.Shape, P.Enabled, P.Do, Step, InWritei;
    if acts == [] {
      LightStart(sb, p0.blocks);
    } else {
      var m := |acts| - 1;
      LightRun(sb, g, p0, acts[..m]);
      SoundRun(sb, g, p0, acts[..m]);
      var x := Exec(sb, g, p0, acts[..m]);
      ShapeOf(sb, g, p0, x);
      match acts[m]
      case Begin(op, _) => LightStep(sb, g, p0, x, P.BeginOp(op));
      case Call(op, w, _, _) => LightStep(sb, g, p0, x, P.LogWrite(op, w.block, w.data));
      case End(op) => LightStep(sb, g, p0, x, P.EndOp(op));
      case CommitWrite => LightStep(sb, g, p0, x, P.CommitWrite);
      case CommitEnd => LightStep(sb, g, p0, x, P.CommitEnd);
      case _ =>
    }
  }

  lemma ShapeOf(sb: Super, g: Geometry, p0: Point, x: Sys)
    requires Sound(sb, g, p0, x)
    ensures P.Shape(x.log, g)
  {
    hide LogSound, P.Shape, Agree, Tasks, Quiet, Told, Placed, Noted, Stable;
  }

  lemma LightStart(sb: Super, d: Disk)
    ensures Light(sb, P.Initial(d))
  {
    hide Loaded, MapBlocks;
    NothingLoaded(d, MapBlocks(sb), 6, 22);
    NothingLoaded(d, {}, MAXOPBLOCKS, LOGSIZE);
  }

  /* ---------------- the calls are allowed ---------------- */

  /** Before a call, the header has fewer than LOGSIZE blocks, and fewer than 22 outside the free map. */
  lemma RoomForCall(sb: Super, g: Geometry, p0: Point, x: Sys, op: nat, w: Write, q: Point, at: Phase)
    requires Sound(sb, g, p0, x) && Light(sb, x.log) && Calls(sb, x, op, w, q, at)
    ensures op in x.log.outstanding && x.log.outstanding[op] < MAXOPBLOCKS
    ensures |Outside(x.log.hdr, MapBlocks(sb))| < 22 && |Outside(x.log.hdr, {})| < LOGSIZE
  {
    hide Sound, Within, Loaded, MapBlocks, Outside, Count, WritesOf, Touched, MarkStep, ZeroStep, WordStep, DataStep,
         GrowStep, Missing;
    AllWithin(sb, g, p0, x);
    CountSoFar(sb, g, p0, x, op);
    RoomLeft(x.log, op, MapBlocks(sb), 6, 22);
    RoomLeft(x.log, op, {}, MAXOPBLOCKS, LOGSIZE);
  }

  /** An operation that has not written its inode yet has logged less than it may. */
  lemma CountSoFar(sb: Super, g: Geometry, p0: Point, x: Sys, op: nat)
    requires Sound(sb, g, p0, x) && op in x.ops && x.ops[op].Writing? && !x.ops[op].task.at.Ended?
    ensures op in x.log.outstanding && Count(x.log.events, op, MapBlocks(sb)) < 6
    ensures Count(x.log.events, op, {}) < MAXOPBLOCKS && |Touched(WritesOf(x.log.events, op))| < MAXOPBLOCKS
  {
    hide P.Shape, Wf, SameHome, Mine, Quiet, Told, Placed, Stable, WritesOf, Touched, MapBlocks, NMap, Separate, Modest,
         LogSound, Tasks;
    var t := x.ops[op].task;
    TaskMine(sb, x, op);
    LogBound(sb, x.p, t);
    assert WritesOf(x.log.events, op) == t.log && Touched(t.log) - {} == Touched(t.log);
  }

  /** A call that does not meet the guard of log_write is a step of the log. */
  lemma CallAllowed(sb: Super, g: Geometry, p0: Point, x: Sys, op: nat, w: Write, q: Point, at: Phase)
    requires Sound(sb, g, p0, x) && Light(sb, x.log) && Calls(sb, x, op, w, q, at) && !P.TooBig(x.log, g)
    ensures Can(sb, g, x, Call(op, w, q, at))
  {
    hide LogSound, Wf, Mine, Quiet, Told, Placed, Stable, Noted, MapBlocks, Light, Step, Outside, SameHome, Tasks;
    RoomForCall(sb, g, p0, x, op, w, q, at);
    StepBlocks(sb, x.ops[op].task.job, x.p, x.ops[op].task.at, w, q, at);
    ViewSize(x.log.view, x.p.blocks, g);
    TaskMine(sb, x, op);
    StepKeeps(sb, x.p, x.ops[op].task, w, q, at);
  }

  lemma HeaderOf7(sb: Super, s: P.State, limit: nat)
    requires |Outside(s.hdr, MapBlocks(sb))| < limit && NMap(sb) <= 7
    requires forall a, b :: 0 <= a < b < |s.hdr| ==> s.hdr[a] != s.hdr[b]
    ensures |s.hdr| < limit + 7
  {
    hide Outside, MapBlocks, NMap;
    HeaderSize(s.hdr, MapBlocks(sb));
    MapSize(sb);
  }

  lemma Distinct(s: P.State, g: Geometry)
    requires P.Shape(s, g)
    ensures forall a, b :: 0 <= a < b < |s.hdr| ==> s.hdr[a] != s.hdr[b]
  {
  }

  /** With at most seven blocks of free map, the log never panics. */
  lemma FilewritesFit(sb: Super, g: Geometry, p0: Point)
    requires NMap(sb) <= 7 && g.size >= LOGSIZE
    ensures NeverPanics(sb, g, p0)
  {
    hide Sound, Light, Calls, Outside, MapBlocks, NMap, P.Shape;
    forall acts | Legal(sb, g, p0, acts) ensures !LogPanic(sb, g, Exec(sb, g, p0, acts)) {
      var x := Exec(sb, g, p0, acts);
      SoundRun(sb, g, p0, acts);
      LightRun(sb, g, p0, acts);
      ShapeOf(sb, g, p0, x);
      Distinct(x.log, g);
      if op, w, q, at :| Calls(sb, x, op, w, q, at) {
        RoomForCall(sb, g, p0, x, op, w, q, at);
        HeaderOf7(sb, x.log, 22);
      }
      FullCommit(sb, g, p0, x);
      HeaderOf7(sb, x.log, 23);
    }
  }

  /** Whenever, the header has at most 22 blocks outside the free map. */
  lemma FullCommit(sb: Super, g: Geometry, p0: Point, x: Sys)
    requires Sound(sb, g, p0, x) && Light(sb, x.log)
    ensures |Outside(x.log.hdr, MapBlocks(sb))| < 23
  {
    hide P.Shape, Agree, Tasks, Quiet, Told, Placed, Noted, Stable, MapBlocks, Outside, P.Tracks, P.Whole, P.Reserved,
         P.Left, Listed, Count;
    AllWithin(sb, g, p0, x);
    FewLeft(Counts(x.log, MapBlocks(sb)), 6);
  }
}
