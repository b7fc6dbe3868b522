/**
Group commit (begin_op, log_write, end_op and commit of log.c) as a state machine whose steps
may interleave in any order: several operations write into one transaction, the last one out
commits it, one block write at a time. A crash may come after any step.
*/
module LogProtocol {
  import opened Param
  import opened Blocks
  import opened Bio
  import opened LogSpec

  datatype Event = Event(op: nat, block: nat, data: Block)

  /**
  outstanding maps each operation inside begin_op/end_op to the number of header entries it has added;
  base and done describe the running commit: the disk it started from and the block writes it has made;
  events is every log_write so far, and commits the points of that list at which a header was written.
  */
  datatype State = State(
    disk: Disk,
    view: Disk,
    hdr: seq<nat>,
    outstanding: map<nat, nat>,
    begun: set<nat>,
    committing: bool,
    base: Disk,
    done: nat,
    events: seq<Event>,
    commits: seq<nat>)

  datatype Action =
    | BeginOp(op: nat)
    | LogWrite(op: nat, block: nat, data: Block)
    | EndOp(op: nat)
    | CommitWrite
    | CommitEnd

  /** log_write would panic with "too big a transaction". */
  predicate TooBig(s: State, g: Geometry)
  {
    |s.hdr| >= LOGSIZE || |s.hdr| >= g.size - 1
  }

  /** Which steps the code allows. An operation adds at most `budget` blocks to the header;
      a new operation has a number not used before. */
  ghost predicate Enabled(s: State, a: Action, g: Geometry, budget: nat)
  {
    match a
    case BeginOp(op) =>
      !s.committing && op !in s.begun && |s.hdr| + (|s.outstanding| + 1) * MAXOPBLOCKS <= LOGSIZE
    case LogWrite(op, b, _) =>
      && op in s.outstanding && !TooBig(s, g)
      && b < |s.disk| && !InLog(g, b) && (b in s.hdr || s.outstanding[op] < budget)
    case EndOp(op) => op in s.outstanding
    case CommitWrite => s.committing && |s.hdr| > 0 && s.done < 2 * |s.hdr| + 2
    case CommitEnd => s.committing && (|s.hdr| == 0 || s.done == 2 * |s.hdr| + 2)
  }

  /** What can be said of the shape of every state; it makes `Do` total. */
  ghost predicate Shape(s: State, g: Geometry)
  {
    && Fits(g, s.disk) && |s.view| == |s.disk| == |s.base|
    && WfHeader(s.hdr, g, |s.disk|) && |s.commits| > 0
  }

  ghost function Do(s: State, a: Action, g: Geometry, budget: nat): (r: State)
    requires Shape(s, g) && Enabled(s, a, g, budget)
  {
    match a
    case BeginOp(op) => s.(outstanding := s.outstanding[op := 0], begun := s.begun + {op})
    case LogWrite(op, b, data) =>
      s.(hdr := Absorb(s.hdr, b),
         outstanding := s.outstanding[op := s.outstanding[op] + if b in s.hdr then 0 else 1],
         view := s.view[b := data],
         events := s.events + [Event(op, b, data)])
    case EndOp(op) =>
      if |s.outstanding| == 1
      then s.(outstanding := s.outstanding - {op}, committing := true, base := s.disk, done := 0)
      else s.(outstanding := s.outstanding - {op})
    case CommitWrite =>
      s.(disk := CommitState(s.base, g, s.hdr, s.view, s.done + 1), done := s.done + 1,
         commits := if s.done == |s.hdr| then s.commits + [|s.events|] else s.commits)
    case CommitEnd => s.(hdr := [], committing := false)
  }

  ghost function Initial(d: Disk): (s: State)
  {
    State(d, d, [], map[], {}, false, d, 0, [], [0])
  }

  /** A run from a freshly recovered disk. */
  ghost predicate Legal(d: Disk, g: Geometry, budget: nat, run: seq<Action>)
  {
    if run == [] then WfDisk(d, g) && HeaderOf(d[g.start]) == []
    else
      var m := |run| - 1;
      Legal(d, g, budget, run[..m]) && Enabled(Exec(d, g, budget, run[..m]), run[m], g, budget)
  }

  ghost function Exec(d: Disk, g: Geometry, budget: nat, run: seq<Action>): (s: State)
  {
    if run == [] then Initial(d)
    else
      var s := Exec(d, g, budget, run[..|run| - 1]);
      var a := run[|run| - 1];
      if Shape(s, g) && Enabled(s, a, g, budget) then Do(s, a, g, budget) else s
  }

  /** The home blocks after the writes of `events`, in order. */
  ghost function Replay(d: Disk, events: seq<Event>): (r: Disk)
    ensures |r| == |d|
  {
    if events == [] then d
    else
      var e := events[|events| - 1];
      var p := Replay(d, events[..|events| - 1]);
      if e.block < |p| then p[e.block := e.data] else p
  }

  ghost function Durable(s: State): (n: nat)
    requires |s.commits| > 0
  {
    s.commits[|s.commits| - 1]
  }

  /* ---------------- what a crash leaves ---------------- */

  /** b is outside the log, and so a block the log may be asked to write. */
  predicate Home(b: nat, g: Geometry, nblocks: nat) { b < nblocks && !InLog(g, b) }

  /** e shows d with exactly the blocks of hdr possibly changed. */
  ghost predicate DiffersOnlyAt(e: Disk, d: Disk, hdr: seq<nat>, g: Geometry)
  {
    |e| == |d| && forall b :: 0 <= b < |d| && !InLog(g, b) && b !in hdr ==> e[b] == d[b]
  }

  ghost predicate Quiet(s: State, d: Disk, g: Geometry, here: Disk)
    requires |s.commits| > 0 && Durable(s) <= |s.events|
  {
    && WfDisk(here, g) && HeaderOf(here[g.start]) == []
    && SameHome(here, Replay(d, s.events[..Durable(s)]), g)
  }

  /** The link between the disk, the cache and the list of writes. d is the disk at the start. */
  ghost predicate Tracks(s: State, d: Disk, g: Geometry)
  {
    && Shape(s, g) && |s.disk| == |d|
    && (forall i :: 0 <= i < |s.events| ==> Home(s.events[i].block, g, |d|))
    && SameHome(s.view, Replay(d, s.events), g)
    && Durable(s) <= |s.events|
    && (s.hdr == [] ==> Durable(s) == |s.events|)
    && (!s.committing ==> Quiet(s, d, g, s.disk) && DiffersOnlyAt(s.view, s.disk, s.hdr, g))
    && (s.committing ==>
          && s.done <= 2 * |s.hdr| + 2 && (s.hdr == [] ==> s.done == 0)
          && WfDisk(s.base, g) && HeaderOf(s.base[g.start]) == []
          && s.disk == CommitState(s.base, g, s.hdr, s.view, s.done)
          && DiffersOnlyAt(s.view, s.base, s.hdr, g)
          && if s.done <= |s.hdr| then SameHome(s.base, Replay(d, s.events[..Durable(s)]), g)
             else Durable(s) == |s.events|)
  }

  /** The crash theorem for one state: recovery shows exactly the writes covered by a written header. */
  lemma TracksSurvivesCrash(s: State, d: Disk, g: Geometry)
    requires Tracks(s, d, g)
    ensures WfDisk(s.disk, g)
    ensures SameHome(Recovered(s.disk, g), Replay(d, s.events[..Durable(s)]), g)
  {
    if !s.committing {
      NothingToRecover(s.disk, g);
    } else {
      CommitStateRecovers(s.base, g, s.hdr, s.view, s.done);
      assert s.events[..|s.events|] == s.events;
    }
  }

  lemma InitialTracks(d: Disk, g: Geometry)
    requires WfDisk(d, g) && HeaderOf(d[g.start]) == []
    ensures Tracks(Initial(d), d, g)
  {
  }

  lemma ReplayOneMore(d: Disk, events: seq<Event>, e: Event)
    requires e.block < |d|
    ensures Replay(d, events + [e]) == Replay(d, events)[e.block := e.data]
  {
    assert (events + [e])[..|events|] == events;
  }

  lemma WriteTracks(s: State, a: Action, d: Disk, g: Geometry, budget: nat)
    requires Tracks(s, d, g) && a.LogWrite? && !s.committing && Enabled(s, a, g, budget)
    ensures Tracks(Do(s, a, g, budget), d, g)
  {
    hide Replay, Absorb, WfHeader, SameHome, DiffersOnlyAt, HeaderOf, CommitState;
    var r := Do(s, a, g, budget);
    ReplayOneMore(d, s.events, Event(a.op, a.block, a.data));
    assert r.events[..Durable(s)] == s.events[..Durable(s)];
    AbsorbWf(s.hdr, g, |d|, a.block);
    WriteBoth(s.view, Replay(d, s.events), g, a.block, a.data);
    WriteAbsorbed(s.view, s.disk, s.hdr, g, a.block, a.data);
  }

  lemma AbsorbWf(hdr: seq<nat>, g: Geometry, nblocks: nat, b: nat)
    requires WfHeader(hdr, g, nblocks) && Home(b, g, nblocks) && |hdr| < LOGSIZE && |hdr| + 1 < g.size
    ensures WfHeader(Absorb(hdr, b), g, nblocks) && Absorb(hdr, b) != []
  {
  }

  lemma WriteBoth(v: Disk, w: Disk, g: Geometry, b: nat, data: Block)
    requires SameHome(v, w, g) && b < |v|
    ensures |v| == |w| && SameHome(v[b := data], w[b := data], g)
  {
  }

  lemma WriteAbsorbed(v: Disk, d: Disk, hdr: seq<nat>, g: Geometry, b: nat, data: Block)
    requires DiffersOnlyAt(v, d, hdr, g) && b < |v|
    ensures DiffersOnlyAt(v[b := data], d, Absorb(hdr, b), g)
  {
  }

  lemma CommitWriteTracks(s: State, d: Disk, g: Geometry, budget: nat)
    requires Tracks(s, d, g) && Enabled(s, CommitWrite, g, budget)
    ensures Tracks(Do(s, CommitWrite, g, budget), d, g)
  {
    hide Replay, HeaderOf, SameHome, DiffersOnlyAt, WfHeader, CommitState;
    assert s.events[..|s.events|] == s.events;
  }

  lemma CommitEndTracks(s: State, d: Disk, g: Geometry, budget: nat)
    requires Tracks(s, d, g) && Enabled(s, CommitEnd, g, budget)
    ensures Tracks(Do(s, CommitEnd, g, budget), d, g)
  {
    assert s.events[..|s.events|] == s.events;
    if s.hdr == [] {
      assert s.disk == s.base;
    } else {
      CommitCompletes(s.base, g, s.hdr, s.view);
      AppliedView(s.view, s.base, s.hdr, g);
    }
  }

  lemma AppliedView(v: Disk, d: Disk, hdr: seq<nat>, g: Geometry)
    requires DiffersOnlyAt(v, d, hdr, g)
    ensures SameHome(Applied(d, hdr, v), v, g)
  {
  }

  lemma StepTracks(s: State, a: Action, d: Disk, g: Geometry, budget: nat)
    requires Tracks(s, d, g) && Enabled(s, a, g, budget) && (s.committing ==> s.outstanding == map[])
    ensures Tracks(Do(s, a, g, budget), d, g)
  {
    match a
    case LogWrite(_, _, _) => WriteTracks(s, a, d, g, budget);
    case BeginOp(_) =>
    case EndOp(op) =>
      assert op in s.outstanding;
    case CommitWrite => CommitWriteTracks(s, d, g, budget);
    case CommitEnd => CommitEndTracks(s, d, g, budget);
  }

  /* ---------------- no operation is split ---------------- */

  /** An operation in progress has written nothing that is already committed; hence no commit point
      ever falls between two writes of one operation. */
  ghost predicate Whole(s: State)
  {
    && |s.commits| > 0
    && (s.committing ==> s.outstanding == map[])
    && (forall op :: op in s.outstanding ==> op in s.begun)
    && (forall i :: 0 <= i < |s.events| ==> s.events[i].op in s.begun)
    && Durable(s) <= |s.events| && (forall c :: c in s.commits ==> c <= Durable(s))
    && (forall i :: 0 <= i < Durable(s) ==> s.events[i].op !in s.outstanding)
    && (forall c, i, j :: c in s.commits && 0 <= i < c && c <= j < |s.events| ==> s.events[i].op != s.events[j].op)
  }

  lemma WriteWhole(s: State, a: Action, g: Geometry, budget: nat)
    requires Whole(s) && Shape(s, g) && Enabled(s, a, g, budget) && a.LogWrite?
    ensures Whole(Do(s, a, g, budget))
  {
    hide CommitState, WfHeader, Fits;
    var r := Do(s, a, g, budget);
    assert r.outstanding.Keys == s.outstanding.Keys;
    forall i | 0 <= i < |r.events| ensures r.events[i].op in s.begun {
      if i < |s.events| { assert r.events[i] == s.events[i]; } else { assert r.events[i].op == a.op; }
    }
    forall i | 0 <= i < Durable(s) ensures r.events[i].op !in s.outstanding {
      assert r.events[i] == s.events[i];
    }
    forall c, i, j | c in s.commits && 0 <= i < c && c <= j < |r.events| ensures r.events[i].op != r.events[j].op {
      assert c <= Durable(s);
      assert r.events[i] == s.events[i];
      if j < |s.events| { assert r.events[j] == s.events[j]; } else { assert r.events[j].op in s.outstanding; }
    }
  }

  lemma CommitWriteWhole(s: State, g: Geometry, budget: nat)
    requires Whole(s) && Shape(s, g) && Enabled(s, CommitWrite, g, budget)
    ensures Whole(Do(s, CommitWrite, g, budget))
  {
    hide CommitState, WfHeader, Fits;
    var r := Do(s, CommitWrite, g, budget);
    assert r.events == s.events;
    forall c | c in r.commits ensures c in s.commits || c == |s.events| {
    }
    forall c, i, j | c in r.commits && 0 <= i < c && c <= j < |s.events| ensures s.events[i].op != s.events[j].op {
      assert c in s.commits;
    }
  }

  /** Steps that write and commit nothing. */
  lemma WholeStill(s: State, r: State)
    requires Whole(s) && r.events == s.events && r.commits == s.commits && s.begun <= r.begun
    requires r.committing ==> r.outstanding == map[]
    requires forall op :: op in r.outstanding ==> op in r.begun && (op in s.outstanding || op !in s.begun)
    ensures Whole(r)
  {
    assert Durable(r) == Durable(s);
    forall i | 0 <= i < Durable(s) ensures s.events[i].op !in r.outstanding {
    }
  }

  lemma StepWhole(s: State, a: Action, g: Geometry, budget: nat)
    requires Whole(s) && Shape(s, g) && Enabled(s, a, g, budget)
    ensures Whole(Do(s, a, g, budget))
  {
    hide CommitState, WfHeader, Fits, Whole;
    WholeFacts(s);
    var r := Do(s, a, g, budget);
    match a
    case BeginOp(_) => WholeStill(s, r);
    case LogWrite(_, _, _) => WriteWhole(s, a, g, budget);
    case EndOp(op) =>
      assert s.outstanding.Keys == r.outstanding.Keys + {op};
      WholeStill(s, r);
    case CommitWrite => CommitWriteWhole(s, g, budget);
    case CommitEnd => WholeStill(s, r);
  }

  lemma WholeFacts(s: State)
    requires Whole(s)
    ensures (s.committing ==> s.outstanding == map[]) && forall op :: op in s.outstanding ==> op in s.begun
  {
  }

  /* ---------------- the header never overflows ---------------- */

  /** What the operations of m may still add, of p entries promised to each. */
  ghost function Left(m: map<nat, nat>, p: nat): (n: int)
  {
    if m == map[] then 0 else
      var k :| k in m;
      p - m[k] + Left(m - {k}, p)
  }

  lemma {:induction false} LeftWithout(m: map<nat, nat>, p: nat, k: nat)
    requires k in m
    ensures Left(m, p) == p - m[k] + Left(m - {k}, p)
    decreases |m|
  {
    var j :| j in m && Left(m, p) == p - m[j] + Left(m - {j}, p);
    if j != k {
      LeftWithout(m - {j}, p, k);
      LeftWithout(m - {k}, p, j);
      assert m - {j} - {k} == m - {k} - {j};
    }
  }

  lemma LeftUpdate(m: map<nat, nat>, p: nat, k: nat, v: nat)
    ensures Left(m[k := v], p) == Left(m, p) - v + if k in m then m[k] else p
  {
    LeftWithout(m[k := v], p, k);
    assert m[k := v] - {k} == m - {k};
    if k in m {
      LeftWithout(m, p, k);
    } else {
      assert m - {k} == m;
    }
  }

  lemma {:induction false} LeftBounds(m: map<nat, nat>, p: nat)
    requires p == MAXOPBLOCKS || p == MAXOPBLOCKS - 1
    requires forall k :: k in m ==> m[k] <= p
    ensures 0 <= Left(m, p) <= |m| * p
    decreases |m|
  {
    if m != map[] {
      var k :| k in m;
      LeftWithout(m, p, k);
      assert m.Keys == (m - {k}).Keys + {k};
      LeftBounds(m - {k}, p);
    }
  }

  /** What the outstanding operations may still add is reserved: each was promised p entries, out of `limit` in all. */
  ghost predicate Reserved(s: State, budget: nat, p: nat, limit: nat)
  {
    && (forall op :: op in s.outstanding ==> s.outstanding[op] <= budget)
    && (s.outstanding == map[] && !s.committing ==> s.hdr == [])
    && |s.hdr| + Left(s.outstanding, p) <= limit
  }

  lemma BeginReserved(s: State, op: nat, g: Geometry, budget: nat, p: nat, limit: nat)
    requires Shape(s, g) && Enabled(s, BeginOp(op), g, budget) && Reserved(s, budget, p, limit) && budget <= p
    requires (p == MAXOPBLOCKS && limit == LOGSIZE) || (p == MAXOPBLOCKS - 1 && limit == LOGSIZE - 2)
    ensures Reserved(Do(s, BeginOp(op), g, budget), budget, p, limit)
  {
    LeftUpdate(s.outstanding, p, op, 0);
    LeftBounds(s.outstanding, p);
  }

  lemma WriteReserved(s: State, a: Action, g: Geometry, budget: nat, p: nat, limit: nat)
    requires a.LogWrite? && Shape(s, g) && Enabled(s, a, g, budget) && Reserved(s, budget, p, limit) && budget <= p
    requires s.committing ==> s.outstanding == map[]
    ensures Reserved(Do(s, a, g, budget), budget, p, limit)
  {
    hide CommitState, WfHeader, Left;
    var r, v := Do(s, a, g, budget), s.outstanding[a.op] + if a.block in s.hdr then 0 else 1;
    LeftUpdate(s.outstanding, p, a.op, v);
    assert r.outstanding == s.outstanding[a.op := v] && a.op in r.outstanding;
    assert |r.hdr| == |s.hdr| + if a.block in s.hdr then 0 else 1;
    forall op | op in r.outstanding ensures r.outstanding[op] <= budget {
      if op != a.op { assert op in s.outstanding; }
    }
  }

  lemma StepReserved(s: State, a: Action, g: Geometry, budget: nat, p: nat, limit: nat)
    requires Shape(s, g) && Enabled(s, a, g, budget) && Reserved(s, budget, p, limit) && budget <= p
    requires s.committing ==> s.outstanding == map[]
    requires (p == MAXOPBLOCKS && limit == LOGSIZE) || (p == MAXOPBLOCKS - 1 && limit == LOGSIZE - 2)
    ensures Reserved(Do(s, a, g, budget), budget, p, limit)
  {
    hide CommitState, WfHeader;
    match a
    case BeginOp(op) => BeginReserved(s, op, g, budget, p, limit);
    case LogWrite(_, _, _) => WriteReserved(s, a, g, budget, p, limit);
    case EndOp(op) =>
      LeftWithout(s.outstanding, p, op);
      assert s.outstanding.Keys == (s.outstanding - {op}).Keys + {op};
    case _ =>
  }

  /* ---------------- every run ---------------- */

  /** Every state of every run: the disk tracks the writes, no operation is split, the header has room for
      what is promised. */
  lemma {:induction false} Invariants(d: Disk, g: Geometry, budget: nat, run: seq<Action>)
    requires Legal(d, g, budget, run) && budget <= MAXOPBLOCKS
    ensures var s := Exec(d, g, budget, run);
            Tracks(s, d, g) && Whole(s) && Reserved(s, budget, MAXOPBLOCKS, LOGSIZE)
  {
    hide Tracks, Whole, Reserved, Enabled, Do;
    if run == [] {
      InitialHolds(d, g, budget);
    } else {
      var m := |run| - 1;
      Invariants(d, g, budget, run[..m]);
      StepInvariants(Exec(d, g, budget, run[..m]), run[m], d, g, budget);
    }
  }

  lemma InitialHolds(d: Disk, g: Geometry, budget: nat)
    requires WfDisk(d, g) && HeaderOf(d[g.start]) == []
    ensures Tracks(Initial(d), d, g) && Whole(Initial(d)) && Reserved(Initial(d), budget, MAXOPBLOCKS, LOGSIZE)
    ensures Reserved(Initial(d), budget, MAXOPBLOCKS - 1, LOGSIZE - 2)
  {
    InitialTracks(d, g);
  }

  lemma StepInvariants(s: State, a: Action, d: Disk, g: Geometry, budget: nat)
    requires Tracks(s, d, g) && Whole(s) && Reserved(s, budget, MAXOPBLOCKS, LOGSIZE)
    requires Enabled(s, a, g, budget) && budget <= MAXOPBLOCKS
    ensures Shape(s, g) && var r := Do(s, a, g, budget);
            Tracks(r, d, g) && Whole(r) && Reserved(r, budget, MAXOPBLOCKS, LOGSIZE)
  {
    hide Quiet, DiffersOnlyAt, WfHeader, WfDisk, Replay, SameHome, Do, Enabled;
    StepTracks(s, a, d, g, budget);
    StepWhole(s, a, g, budget);
    StepReserved(s, a, g, budget, MAXOPBLOCKS, LOGSIZE);
  }

  /** Group commit is atomic in every interleaving. Whatever has happened, a crash now followed by recovery
      leaves the home blocks with the writes up to the last commit point, in the order they were made, and
      no others; and that point never separates two writes of the same operation. */
  lemma CrashKeepsWholeOperations(d: Disk, g: Geometry, budget: nat, run: seq<Action>)
    requires Legal(d, g, budget, run) && budget <= MAXOPBLOCKS
    ensures var s := Exec(d, g, budget, run);
            && |s.commits| > 0 && Durable(s) <= |s.events|
            && WfDisk(s.disk, g)
            && SameHome(Recovered(s.disk, g), Replay(d, s.events[..Durable(s)]), g)
            && forall i, j :: 0 <= i < Durable(s) <= j < |s.events| ==> s.events[i].op != s.events[j].op
  {
    Invariants(d, g, budget, run);
    var s := Exec(d, g, budget, run);
    TracksSurvivesCrash(s, d, g);
    assert Durable(s) in s.commits;
  }

  /** In every interleaving: a commit runs alone, and the header never holds more than LOGSIZE distinct blocks. */
  lemma CommitRunsAlone(d: Disk, g: Geometry, budget: nat, run: seq<Action>)
    requires Legal(d, g, budget, run) && budget <= MAXOPBLOCKS
    ensures var s := Exec(d, g, budget, run);
            && (s.committing ==> s.outstanding == map[])
            && |s.hdr| <= LOGSIZE && forall i, j :: 0 <= i < j < |s.hdr| ==> s.hdr[i] != s.hdr[j]
  {
    Invariants(d, g, budget, run);
  }

  /** Durability: once the log is idle, nothing is lost by a crash. */
  lemma IdleLogIsDurable(d: Disk, g: Geometry, budget: nat, run: seq<Action>)
    requires Legal(d, g, budget, run) && budget <= MAXOPBLOCKS
    ensures var s := Exec(d, g, budget, run);
            s.outstanding == map[] && !s.committing ==>
              WfDisk(s.disk, g) && SameHome(Recovered(s.disk, g), s.view, g) && SameHome(s.disk, s.view, g)
  {
    Invariants(d, g, budget, run);
    var s := Exec(d, g, budget, run);
    TracksSurvivesCrash(s, d, g);
    assert s.events[..|s.events|] == s.events;
  }

  /* ---------------- when "too big a transaction" can happen ---------------- */

  /** In no run does an operation find the log too full to write, whether or not the block is already logged. */
  ghost predicate NeverTooBig(d: Disk, g: Geometry, budget: nat)
  {
    forall run :: Legal(d, g, budget, run) ==>
      var s := Exec(d, g, budget, run); s.outstanding != map[] ==> !TooBig(s, g)
  }

  lemma {:induction false} SmallOperationsFit(d: Disk, g: Geometry, budget: nat, run: seq<Action>)
    requires Legal(d, g, budget, run) && budget < MAXOPBLOCKS
    ensures Reserved(Exec(d, g, budget, run), budget, MAXOPBLOCKS - 1, LOGSIZE - 2)
  {
    hide Tracks, Whole, Reserved, Enabled, Do;
    if run == [] {
      InitialHolds(d, g, budget);
    } else {
      var m := |run| - 1;
      var s := Exec(d, g, budget, run[..m]);
      SmallOperationsFit(d, g, budget, run[..m]);
      Invariants(d, g, budget, run[..m]);
      WholeFacts(s);
      TracksShape(s, d, g);
      StepReserved(s, run[m], g, budget, MAXOPBLOCKS - 1, LOGSIZE - 2);
    }
  }

  lemma TracksShape(s: State, d: Disk, g: Geometry)
    requires Tracks(s, d, g)
    ensures Shape(s, g) && |s.disk| == |d|
  {
  }

  /** Three operations of MAXOPBLOCKS blocks each are let in together; with k blocks logged between them: */
  ghost predicate Filling(s: State, g: Geometry, k: nat)
  {
    && !s.committing && s.outstanding.Keys == {0, 1, 2} && |s.hdr| == k
    && (forall i :: 0 <= i < k ==> s.hdr[i] == g.start + g.size + i)
    && s.outstanding[0] == (if k <= 10 then k else 10)
    && s.outstanding[1] == (if k <= 10 then 0 else if k <= 20 then k - 10 else 10)
    && s.outstanding[2] == (if k <= 20 then 0 else k - 20)
  }

  lemma Extend(d: Disk, g: Geometry, budget: nat, run: seq<Action>, a: Action)
    requires Legal(d, g, budget, run) && budget <= MAXOPBLOCKS && Enabled(Exec(d, g, budget, run), a, g, budget)
    ensures Shape(Exec(d, g, budget, run), g) && Legal(d, g, budget, run + [a])
    ensures Exec(d, g, budget, run + [a]) == Do(Exec(d, g, budget, run), a, g, budget)
  {
    hide Tracks, Whole, Reserved, Enabled, Do;
    assert (run + [a])[..|run|] == run;
    Invariants(d, g, budget, run);
    TracksShape(Exec(d, g, budget, run), d, g);
  }

  function Zeros(j: nat): (m: map<nat, nat>) { if j == 0 then map[] else Zeros(j - 1)[j - 1 := 0] }

  /** Operations 0 to j - 1 have begun and written nothing. */
  ghost predicate Begun(s: State, j: nat)
  {
    && !s.committing && s.hdr == [] && s.outstanding == Zeros(j)
    && |s.outstanding| == j && forall op :: op in s.begun ==> op < j
  }

  lemma NoneBegun(d: Disk, g: Geometry, budget: nat)
    requires WfDisk(d, g) && HeaderOf(d[g.start]) == []
    ensures Legal(d, g, budget, []) && Begun(Exec(d, g, budget, []), 0)
  {
  }

  lemma {:induction false} ZerosBelow(j: nat)
    ensures forall op :: op in Zeros(j) ==> op < j
  {
    if j > 0 { ZerosBelow(j - 1); }
  }

  lemma BeginStep(s: State, g: Geometry, budget: nat, j: nat)
    requires Shape(s, g) && Begun(s, j) && j < 3
    ensures Enabled(s, BeginOp(j), g, budget) && Begun(Do(s, BeginOp(j), g, budget), j + 1)
  {
    hide Shape;
    ZerosBelow(j);
    assert s.outstanding[j := 0].Keys == s.outstanding.Keys + {j};
  }

  lemma BeginNext(d: Disk, g: Geometry, budget: nat, run: seq<Action>, j: nat) returns (run': seq<Action>)
    requires Legal(d, g, budget, run) && budget <= MAXOPBLOCKS && Begun(Exec(d, g, budget, run), j) && j < 3
    ensures Legal(d, g, budget, run') && Begun(Exec(d, g, budget, run'), j + 1)
  {
    hide Legal, Exec, Enabled, Do, Begun, Shape, Tracks, Whole, Reserved;
    Invariants(d, g, budget, run);
    TracksShape(Exec(d, g, budget, run), d, g);
    BeginStep(Exec(d, g, budget, run), g, budget, j);
    Extend(d, g, budget, run, BeginOp(j));
    run' := run + [BeginOp(j)];
  }

  lemma AllBegun(s: State, g: Geometry)
    requires Begun(s, 3)
    ensures Filling(s, g, 0)
  {
    assert Zeros(3) == map[0 := 0, 1 := 0, 2 := 0];
  }

  lemma ThreeBegin(d: Disk, g: Geometry) returns (run: seq<Action>)
    requires WfDisk(d, g) && HeaderOf(d[g.start]) == []
    ensures Legal(d, g, MAXOPBLOCKS, run) && Filling(Exec(d, g, MAXOPBLOCKS, run), g, 0)
  {
    var b := MAXOPBLOCKS;
    NoneBegun(d, g, b);
    var r1 := BeginNext(d, g, b, [], 0);
    var r2 := BeginNext(d, g, b, r1, 1);
    run := BeginNext(d, g, b, r2, 2);
    AllBegun(Exec(d, g, b, run), g);
  }

  lemma OneMoreBlock(s: State, g: Geometry, k: nat)
    requires Filling(s, g, k) && Shape(s, g) && g.size >= LOGSIZE && k < LOGSIZE && k < g.size - 1
    requires g.start + g.size + LOGSIZE <= |s.disk|
    ensures var a := LogWrite(k / 10, g.start + g.size + k, ZeroBlock());
            Enabled(s, a, g, MAXOPBLOCKS) && Filling(Do(s, a, g, MAXOPBLOCKS), g, k + 1)
  {
    assert g.start + g.size + k !in s.hdr;
  }

  lemma {:induction false} FillUp(d: Disk, g: Geometry, k: nat) returns (run: seq<Action>)
    requires WfDisk(d, g) && HeaderOf(d[g.start]) == []
    requires g.size >= LOGSIZE && g.start + g.size + LOGSIZE <= |d| && k <= LOGSIZE && k <= g.size - 1
    ensures Legal(d, g, MAXOPBLOCKS, run) && Filling(Exec(d, g, MAXOPBLOCKS, run), g, k)
  {
    hide Filling, Enabled, Do;
    if k == 0 {
      run := ThreeBegin(d, g);
    } else {
      run := FillUp(d, g, k - 1);
      var s := Exec(d, g, MAXOPBLOCKS, run);
      Invariants(d, g, MAXOPBLOCKS, run);
      TracksShape(s, d, g);
      OneMoreBlock(s, g, k - 1);
      var a := LogWrite((k - 1) / 10, g.start + g.size + (k - 1), ZeroBlock());
      Extend(d, g, MAXOPBLOCKS, run, a);
      run := run + [a];
    }
  }

  /** begin_op reserves MAXOPBLOCKS per operation, but log_write stops one short of the room there is.
      So with a log as large as mkfs makes it, the panic is out of reach if and only if operations
      log fewer than MAXOPBLOCKS blocks each. */
  lemma PanicUnreachableIff(d: Disk, g: Geometry, budget: nat)
    requires WfDisk(d, g) && HeaderOf(d[g.start]) == [] && budget <= MAXOPBLOCKS
    requires g.size >= LOGSIZE && g.start + g.size + LOGSIZE <= |d|
    ensures NeverTooBig(d, g, budget) <==> budget < MAXOPBLOCKS
  {
    if budget < MAXOPBLOCKS {
      forall run | Legal(d, g, budget, run)
        ensures var s := Exec(d, g, budget, run); s.outstanding != map[] ==> !TooBig(s, g)
      {
        SmallOperationsFit(d, g, budget, run);
        LeftBounds(Exec(d, g, budget, run).outstanding, MAXOPBLOCKS - 1);
      }
    } else {
      var run := FillUp(d, g, if g.size == LOGSIZE then LOGSIZE - 1 else LOGSIZE);
      var s := Exec(d, g, budget, run);
      assert 0 in s.outstanding && TooBig(s, g);
    }
  }
}
