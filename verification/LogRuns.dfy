/**
Runs of the log, extended step by step: what the disk goes through in a run, and the stretch of a run that one
commit is.
*/
module LogRuns {
  import opened Param
  import opened Blocks
  import opened Bio
  import opened LogSpec
  import opened LogProtocol

  /** The history h extended by every disk the run writes. */
  ghost function Disks(h: History, d: Disk, g: Geometry, budget: nat, run: seq<Action>): (t: History)
    decreases |run|
  {
    if run == [] then h
    else
      var before := Disks(h, d, g, budget, run[..|run| - 1]);
      if run[|run| - 1].CommitWrite? then Then(before, Exec(d, g, budget, run).disk) else before
  }

  /** One more step of a legal run. */
  lemma Extended(h: History, d: Disk, g: Geometry, budget: nat, run: seq<Action>, a: Action)
    requires Legal(d, g, budget, run) && budget <= MAXOPBLOCKS && Enabled(Exec(d, g, budget, run), a, g, budget)
    ensures Legal(d, g, budget, run + [a]) && Shape(Exec(d, g, budget, run), g)
    ensures Exec(d, g, budget, run + [a]) == Do(Exec(d, g, budget, run), a, g, budget)
    ensures var t := Disks(h, d, g, budget, run);
            Disks(h, d, g, budget, run + [a]) == if a.CommitWrite? then Then(t, Exec(d, g, budget, run + [a]).disk)
                                                 else t
  {
    hide Enabled, Do, Tracks, Whole, Reserved;
    Invariants(d, g, budget, run);
    TracksShape(Exec(d, g, budget, run), d, g);
    assert (run + [a])[..|run|] == run;
  }

  /** k block writes of a commit. */
  function CommitWrites(k: nat): (r: seq<Action>)
    ensures |r| == k
  {
    seq(k, _ => CommitWrite)
  }

  /** A commit that has begun, after k block writes. */
  ghost function Committed(s: State, g: Geometry, k: nat): (r: State)
    requires Shape(s, g) && k <= 2 * |s.hdr| + 2
  {
    s.(disk := if k == 0 then s.disk else CommitState(s.disk, g, s.hdr, s.view, k), done := k,
       commits := if k <= |s.hdr| then s.commits else s.commits + [|s.events|])
  }

  lemma {:induction false} CommitSteps(h: History, d: Disk, g: Geometry, budget: nat, run: seq<Action>, k: nat)
    requires Legal(d, g, budget, run) && budget <= MAXOPBLOCKS
    requires var s := Exec(d, g, budget, run);
             && Shape(s, g) && s.committing && s.base == s.disk && s.done == 0
             && |s.hdr| > 0 && k <= 2 * |s.hdr| + 2
    ensures Legal(d, g, budget, run + CommitWrites(k))
    ensures var s := Exec(d, g, budget, run);
            && Exec(d, g, budget, run + CommitWrites(k)) == Committed(s, g, k)
            && Disks(h, d, g, budget, run + CommitWrites(k)) ==
                 CommitTrace(Disks(h, d, g, budget, run), s.disk, g, s.hdr, s.view, k)
  {
    hide CommitState, Legal, Exec, Disks;
    if k == 0 {
      assert run + CommitWrites(0) == run;
    } else {
      CommitSteps(h, d, g, budget, run, k - 1);
      assert run + CommitWrites(k) == run + CommitWrites(k - 1) + [CommitWrite];
      Extended(h, d, g, budget, run + CommitWrites(k - 1), CommitWrite);
    }
  }

  /** What follows the end_op of the last operation: the block writes of the commit, if there is anything to commit. */
  function CommitRun(n: nat): (r: seq<Action>)
  {
    (if n == 0 then [] else CommitWrites(2 * n + 2)) + [CommitEnd]
  }

  /** A whole commit: the log is empty afterwards and every write so far is durable. */
  lemma CommitsAll(h: History, d: Disk, g: Geometry, budget: nat, run: seq<Action>)
    requires Legal(d, g, budget, run) && budget <= MAXOPBLOCKS
    requires var s := Exec(d, g, budget, run); Shape(s, g) && s.committing && s.base == s.disk && s.done == 0
    ensures var s := Exec(d, g, budget, run);
            var n := |s.hdr|;
            && Legal(d, g, budget, run + CommitRun(n))
            && Exec(d, g, budget, run + CommitRun(n)) ==
               (if n == 0 then s else Committed(s, g, 2 * n + 2)).(hdr := [], committing := false)
            && Disks(h, d, g, budget, run + CommitRun(n)) ==
               if n == 0 then Disks(h, d, g, budget, run)
               else CommitTrace(Disks(h, d, g, budget, run), s.disk, g, s.hdr, s.view, 2 * n + 2)
  {
    hide CommitState, Legal, Exec, Disks, CommitTrace;
    var n := |Exec(d, g, budget, run).hdr|;
    if n == 0 {
      assert run + CommitRun(0) == run + [CommitEnd];
      Extended(h, d, g, budget, run, CommitEnd);
    } else {
      CommitSteps(h, d, g, budget, run, 2 * n + 2);
      assert run + CommitRun(n) == run + CommitWrites(2 * n + 2) + [CommitEnd];
      Extended(h, d, g, budget, run + CommitWrites(2 * n + 2), CommitEnd);
    }
  }

  function DiskWrites(run: seq<Action>): (n: nat)
  {
    if run == [] then 0 else DiskWrites(run[..|run| - 1]) + if run[|run| - 1].CommitWrite? then 1 else 0
  }

  /** Every disk the run has written, or started from, is that of one of its prefixes. */
  lemma {:induction false} DiskOfPrefix(h: History, d: Disk, g: Geometry, budget: nat, run: seq<Action>, j: nat)
    returns (m: nat)
    requires Legal(d, g, budget, run) && h.disk == d && j <= DiskWrites(run)
    ensures m <= |run| && Legal(d, g, budget, run[..m])
    ensures Back(Disks(h, d, g, budget, run), j) == Exec(d, g, budget, run[..m]).disk
    decreases |run|
  {
    hide Enabled, Do, Shape;
    assert run[..|run|] == run;
    if run == [] || (j == 0 && run[|run| - 1].CommitWrite?) {
      m := |run|;
    } else {
      var before := run[..|run| - 1];
      m := DiskOfPrefix(h, d, g, budget, before, if run[|run| - 1].CommitWrite? then j - 1 else j);
      assert before[..m] == run[..m];
    }
  }

  /** The crash theorem for any moment of a run, as the disk remembers it: a machine that stopped j block writes ago
      and recovered shows a prefix of the writes of the run, and that prefix splits no operation. */
  lemma CrashBefore(h: History, d: Disk, g: Geometry, budget: nat, run: seq<Action>, j: nat) returns (m: nat)
    requires Legal(d, g, budget, run) && budget <= MAXOPBLOCKS && h.disk == d && j <= DiskWrites(run)
    ensures m <= |run| && Legal(d, g, budget, run[..m])
    ensures var e, s := Back(Disks(h, d, g, budget, run), j), Exec(d, g, budget, run[..m]);
            && WfDisk(e, g) && |s.commits| > 0 && Durable(s) <= |s.events|
            && SameHome(Recovered(e, g), Replay(d, s.events[..Durable(s)]), g)
            && forall i, k :: 0 <= i < Durable(s) <= k < |s.events| ==> s.events[i].op != s.events[k].op
  {
    m := DiskOfPrefix(h, d, g, budget, run, j);
    CrashKeepsWholeOperations(d, g, budget, run[..m]);
  }
}
