/**
What the write-ahead log (log.c) does to the disk, one block write at a time, and why
a crash between any two of those writes is harmless. A disk is a sequence of blocks;
everything else is lost in a crash.
*/
module LogSpec {
  import opened Param
  import opened Blocks
  import opened Bio

  /** The log occupies blocks start .. start + size - 1: the header, then the copies. */
  datatype Geometry = Geometry(start: nat, size: nat)

  predicate InLog(g: Geometry, b: nat) { g.start <= b < g.start + g.size }

  predicate Fits(g: Geometry, d: Disk)
  {
    g.size > 0 && g.start + g.size <= |d| <= UINT_MOD
  }

  /** Block numbers recorded in a header: distinct, outside the log, on the disk, no more than the log can copy. */
  ghost predicate WfHeader(hdr: seq<nat>, g: Geometry, nblocks: nat)
  {
    && |hdr| <= LOGSIZE && |hdr| < g.size
    && (forall i :: 0 <= i < |hdr| ==> hdr[i] < nblocks && !InLog(g, hdr[i]))
    && (forall i, j :: 0 <= i < j < |hdr| ==> hdr[i] != hdr[j])
  }

  /** Log absorption: a block already in the header keeps its place. */
  function Absorb(hdr: seq<nat>, b: nat): (r: seq<nat>)
  {
    if b in hdr then hdr else hdr + [b]
  }

  /** read_head: the header block as a list of block numbers. */
  function HeaderOf(b: Block): (hdr: seq<nat>)
  {
    if Word(b, 0) <= LOGSIZE then seq(Word(b, 0), i requires 0 <= i < LOGSIZE => Word(b, 1 + i)) else []
  }

  /** write_head: the count, then the first k block numbers; the rest of the block keeps what it had. */
  function PutHeader(b: Block, hdr: seq<nat>, k: nat): (r: Block)
    requires k <= |hdr| <= LOGSIZE && forall i :: 0 <= i < |hdr| ==> hdr[i] < UINT_MOD
  {
    if k == 0 then PutWord(b, 0, |hdr|) else PutWord(PutHeader(b, hdr, k - 1), k, hdr[k - 1])
  }

  ghost predicate WfDisk(d: Disk, g: Geometry)
  {
    Fits(g, d) && Word(d[g.start], 0) <= LOGSIZE && WfHeader(HeaderOf(d[g.start]), g, |d|)
  }

  /** write_log after k block writes: copy t holds what the cache holds for block hdr[t]. */
  ghost function LogCopied(d: Disk, g: Geometry, hdr: seq<nat>, v: Disk, k: nat): (r: Disk)
    requires Fits(g, d) && WfHeader(hdr, g, |d|) && |v| == |d| && k <= |hdr|
    ensures |r| == |d|
  {
    if k == 0 then d else LogCopied(d, g, hdr, v, k - 1)[g.start + k := v[hdr[k - 1]]]
  }

  /** install_trans after k block writes. */
  ghost function Installed(d: Disk, g: Geometry, hdr: seq<nat>, k: nat): (r: Disk)
    requires Fits(g, d) && WfHeader(hdr, g, |d|) && k <= |hdr|
    ensures |r| == |d|
  {
    if k == 0 then d else
      var p := Installed(d, g, hdr, k - 1);
      p[hdr[k - 1] := p[g.start + k]]
  }

  ghost function Headed(d: Disk, g: Geometry, hdr: seq<nat>): (r: Disk)
    requires Fits(g, d) && WfHeader(hdr, g, |d|)
    ensures |r| == |d|
  {
    d[g.start := PutHeader(d[g.start], hdr, |hdr|)]
  }

  /** The disk that a completed recover_from_log leaves. */
  ghost function Recovered(d: Disk, g: Geometry): (r: Disk)
    requires WfDisk(d, g)
    ensures |r| == |d|
  {
    var hdr := HeaderOf(d[g.start]);
    Headed(Installed(d, g, hdr, |hdr|), g, [])
  }

  /** The disk after the first k block writes of recover_from_log. */
  ghost function RecoveryState(d: Disk, g: Geometry, k: nat): (r: Disk)
    requires WfDisk(d, g) && k <= |HeaderOf(d[g.start])| + 1
    ensures |r| == |d|
  {
    var hdr := HeaderOf(d[g.start]);
    if k <= |hdr| then Installed(d, g, hdr, k) else Recovered(d, g)
  }

  /** The disk after the first k block writes of commit, where the cache holds v for the blocks of hdr. */
  ghost function CommitState(d: Disk, g: Geometry, hdr: seq<nat>, v: Disk, k: nat): (r: Disk)
    requires Fits(g, d) && WfHeader(hdr, g, |d|) && |v| == |d| && k <= 2 * |hdr| + 2
    ensures |r| == |d|
  {
    var n := |hdr|;
    if k <= n then LogCopied(d, g, hdr, v, k) else
      var h := Headed(LogCopied(d, g, hdr, v, n), g, hdr);
      if k <= 2 * n + 1 then Installed(h, g, hdr, k - n - 1)
      else Headed(Installed(h, g, hdr, n), g, [])
  }

  /** The history h extended by the first k block writes of write_log. */
  ghost function LogTrace(h: History, d: Disk, g: Geometry, hdr: seq<nat>, v: Disk, k: nat): (t: History)
    requires Fits(g, d) && WfHeader(hdr, g, |d|) && |v| == |d| && k <= |hdr|
  {
    if k == 0 then h else Then(LogTrace(h, d, g, hdr, v, k - 1), LogCopied(d, g, hdr, v, k))
  }

  /** The history h extended by the first k block writes of install_trans. */
  ghost function InstallTrace(h: History, d: Disk, g: Geometry, hdr: seq<nat>, k: nat): (t: History)
    requires Fits(g, d) && WfHeader(hdr, g, |d|) && k <= |hdr|
  {
    if k == 0 then h else Then(InstallTrace(h, d, g, hdr, k - 1), Installed(d, g, hdr, k))
  }

  /** The history h extended by the first k block writes of commit. */
  ghost function CommitTrace(h: History, d: Disk, g: Geometry, hdr: seq<nat>, v: Disk, k: nat): (t: History)
    requires Fits(g, d) && WfHeader(hdr, g, |d|) && |v| == |d| && k <= 2 * |hdr| + 2
  {
    if k == 0 then h else Then(CommitTrace(h, d, g, hdr, v, k - 1), CommitState(d, g, hdr, v, k))
  }

  /** The history h extended by the first k block writes of recover_from_log. */
  ghost function RecoveryTrace(h: History, d: Disk, g: Geometry, k: nat): (t: History)
    requires WfDisk(d, g) && k <= |HeaderOf(d[g.start])| + 1
  {
    if k == 0 then h else Then(RecoveryTrace(h, d, g, k - 1), RecoveryState(d, g, k))
  }

  /** All that lies outside the log. */
  ghost predicate SameHome(d: Disk, e: Disk, g: Geometry)
  {
    |d| == |e| && forall b :: 0 <= b < |d| && !InLog(g, b) ==> d[b] == e[b]
  }

  /** The home blocks once a transaction is applied. */
  ghost function Applied(d: Disk, hdr: seq<nat>, v: Disk): (r: Disk)
    requires |v| == |d|
    ensures |r| == |d|
  {
    seq(|d|, b requires 0 <= b < |d| => if b in hdr then v[b] else d[b])
  }

  /** Crash after crash: each disk is left by an unfinished (or finished) recovery of the one before. */
  ghost predicate CrashRun(ds: seq<Disk>, g: Geometry)
  {
    && |ds| > 0 && WfDisk(ds[0], g)
    && (forall i {:trigger ds[i]} :: 0 < i < |ds| ==> CrashedInRecovery(ds[i - 1], ds[i], g))
  }

  ghost predicate CrashedInRecovery(d: Disk, e: Disk, g: Geometry)
  {
    WfDisk(d, g) && exists k :: 0 <= k <= |HeaderOf(d[g.start])| + 1 && e == RecoveryState(d, g, k)
  }

  lemma TracesStart(h: History, d: Disk, g: Geometry, hdr: seq<nat>, v: Disk)
    requires Fits(g, d) && WfHeader(hdr, g, |d|) && |v| == |d|
    ensures LogCopied(d, g, hdr, v, 0) == d && LogTrace(h, d, g, hdr, v, 0) == h
    ensures Installed(d, g, hdr, 0) == d && InstallTrace(h, d, g, hdr, 0) == h
  {
  }

  lemma LogStep(h: History, d: Disk, g: Geometry, hdr: seq<nat>, v: Disk, k: nat)
    requires Fits(g, d) && WfHeader(hdr, g, |d|) && |v| == |d| && k < |hdr|
    ensures g.start + k + 1 < |d| && hdr[k] < |d|
    ensures LogCopied(d, g, hdr, v, k + 1) == LogCopied(d, g, hdr, v, k)[g.start + k + 1 := v[hdr[k]]]
    ensures LogTrace(h, d, g, hdr, v, k + 1) == Then(LogTrace(h, d, g, hdr, v, k), LogCopied(d, g, hdr, v, k + 1))
  {
  }

  lemma InstallStep(h: History, d: Disk, g: Geometry, hdr: seq<nat>, k: nat)
    requires Fits(g, d) && WfHeader(hdr, g, |d|) && k < |hdr|
    ensures g.start + k + 1 < |d| && hdr[k] < |d|
    ensures Installed(d, g, hdr, k + 1) == Installed(d, g, hdr, k)[hdr[k] := Installed(d, g, hdr, k)[g.start + k + 1]]
    ensures InstallTrace(h, d, g, hdr, k + 1) == Then(InstallTrace(h, d, g, hdr, k), Installed(d, g, hdr, k + 1))
  {
  }

  lemma {:induction false} LogTraceIsCommitTrace(h: History, d: Disk, g: Geometry, hdr: seq<nat>, v: Disk, k: nat)
    requires Fits(g, d) && WfHeader(hdr, g, |d|) && |v| == |d| && k <= |hdr|
    ensures LogTrace(h, d, g, hdr, v, k) == CommitTrace(h, d, g, hdr, v, k)
  {
    if k > 0 { LogTraceIsCommitTrace(h, d, g, hdr, v, k - 1); }
  }

  lemma {:induction false} InstallTraceIsCommitTrace(h: History, d: Disk, g: Geometry, hdr: seq<nat>, v: Disk, k: nat)
    requires Fits(g, d) && WfHeader(hdr, g, |d|) && |v| == |d| && k <= |hdr|
    ensures InstallTrace(CommitTrace(h, d, g, hdr, v, |hdr| + 1), CommitState(d, g, hdr, v, |hdr| + 1), g, hdr, k)
         == CommitTrace(h, d, g, hdr, v, |hdr| + 1 + k)
  {
    if k > 0 { InstallTraceIsCommitTrace(h, d, g, hdr, v, k - 1); }
  }

  /** The two header writes of commit. */
  lemma CommitHeaderWrites(h: History, d: Disk, g: Geometry, hdr: seq<nat>, v: Disk)
    requires Fits(g, d) && WfHeader(hdr, g, |d|) && |v| == |d| && |hdr| > 0
    ensures var n := |hdr|;
            && CommitState(d, g, hdr, v, n + 1) == Headed(LogCopied(d, g, hdr, v, n), g, hdr)
            && CommitTrace(h, d, g, hdr, v, n + 1) ==
                 Then(CommitTrace(h, d, g, hdr, v, n), CommitState(d, g, hdr, v, n + 1))
            && CommitState(d, g, hdr, v, 2 * n + 2) ==
                 Headed(Installed(CommitState(d, g, hdr, v, n + 1), g, hdr, n), g, [])
            && CommitTrace(h, d, g, hdr, v, 2 * n + 2)
               == Then(CommitTrace(h, d, g, hdr, v, n + 1 + n), CommitState(d, g, hdr, v, 2 * n + 2))
  {
  }

  lemma {:induction false} InstallTraceIsRecoveryTrace(h: History, d: Disk, g: Geometry, k: nat)
    requires WfDisk(d, g) && k <= |HeaderOf(d[g.start])|
    ensures InstallTrace(h, d, g, HeaderOf(d[g.start]), k) == RecoveryTrace(h, d, g, k)
  {
    if k > 0 { InstallTraceIsRecoveryTrace(h, d, g, k - 1); }
  }

  /** The state the disk was in j block writes ago. */
  ghost function Back(h: History, j: nat): (d: Disk)
    decreases j
  {
    if j == 0 || h.Start? then h.disk else Back(h.before, j - 1)
  }

  /** The history a commit leaves consists of the commit states, so `CommitIsAtomic` speaks of every disk in it. */
  lemma {:induction false} CommitTraceStates(h: History, d: Disk, g: Geometry, hdr: seq<nat>, v: Disk, m: nat, j: nat)
    requires Fits(g, d) && WfHeader(hdr, g, |d|) && |v| == |d| && j < m <= 2 * |hdr| + 2
    ensures Back(CommitTrace(h, d, g, hdr, v, m), j) == CommitState(d, g, hdr, v, m - j)
  {
    if j > 0 { CommitTraceStates(h, d, g, hdr, v, m - 1, j - 1); }
  }

  /* ---------------- pointwise facts ---------------- */

  lemma {:induction false} PutHeaderWords(b: Block, hdr: seq<nat>, k: nat)
    requires k <= |hdr| <= LOGSIZE && forall i :: 0 <= i < |hdr| ==> hdr[i] < UINT_MOD
    ensures Word(PutHeader(b, hdr, k), 0) == |hdr|
    ensures forall i {:trigger hdr[i]} :: 0 <= i < k ==> Word(PutHeader(b, hdr, k), i + 1) == hdr[i]
  {
    if k > 0 { PutHeaderWords(b, hdr, k - 1); }
  }

  lemma HeaderRoundTrip(b: Block, hdr: seq<nat>)
    requires |hdr| <= LOGSIZE && forall i :: 0 <= i < |hdr| ==> hdr[i] < UINT_MOD
    ensures HeaderOf(PutHeader(b, hdr, |hdr|)) == hdr
  {
    PutHeaderWords(b, hdr, |hdr|);
  }

  lemma {:induction false} LogCopiedAt(d: Disk, g: Geometry, hdr: seq<nat>, v: Disk, k: nat, b: nat)
    requires Fits(g, d) && WfHeader(hdr, g, |d|) && |v| == |d| && k <= |hdr| && b < |d|
    ensures LogCopied(d, g, hdr, v, k)[b] == if g.start < b <= g.start + k then v[hdr[b - g.start - 1]] else d[b]
  {
    if k > 0 { LogCopiedAt(d, g, hdr, v, k - 1, b); }
  }

  lemma {:induction false} InstalledAt(d: Disk, g: Geometry, hdr: seq<nat>, k: nat, b: nat)
    requires Fits(g, d) && WfHeader(hdr, g, |d|) && k <= |hdr| && b < |d|
    ensures b !in hdr[..k] ==> Installed(d, g, hdr, k)[b] == d[b]
    ensures forall j :: 0 <= j < k && hdr[j] == b ==> Installed(d, g, hdr, k)[b] == d[g.start + 1 + j]
  {
    if k > 0 {
      InstalledAt(d, g, hdr, k - 1, b);
      assert hdr[..k] == hdr[..k - 1] + [hdr[k - 1]];
      InstalledAt(d, g, hdr, k - 1, g.start + k);
      assert forall i :: 0 <= i < k - 1 ==> hdr[..k - 1][i] == hdr[i] != g.start + k;
    }
  }

  /** Installing leaves the log alone. */
  lemma InstalledLog(d: Disk, g: Geometry, hdr: seq<nat>, k: nat, b: nat)
    requires Fits(g, d) && WfHeader(hdr, g, |d|) && k <= |hdr| && InLog(g, b)
    ensures Installed(d, g, hdr, k)[b] == d[b]
  {
    assert forall i :: 0 <= i < k ==> hdr[..k][i] == hdr[i];
    InstalledAt(d, g, hdr, k, b);
  }

  /* ---------------- recovery can be restarted ---------------- */

  /** Starting the installation over after k blocks gives the same as never having stopped. */
  lemma ReinstallAfterPrefix(d: Disk, g: Geometry, hdr: seq<nat>, k: nat)
    requires Fits(g, d) && WfHeader(hdr, g, |d|) && k <= |hdr|
    ensures Installed(Installed(d, g, hdr, k), g, hdr, |hdr|) == Installed(d, g, hdr, |hdr|)
  {
    var e, n := Installed(d, g, hdr, k), |hdr|;
    forall b: nat | b < |d| ensures Installed(e, g, hdr, n)[b] == Installed(d, g, hdr, n)[b] {
      InstalledAt(e, g, hdr, n, b);
      InstalledAt(d, g, hdr, n, b);
      InstalledAt(d, g, hdr, k, b);
      assert hdr[..n] == hdr;
      if j :| 0 <= j < n && hdr[j] == b {
        InstalledLog(d, g, hdr, k, g.start + 1 + j);
      } else {
        assert b !in hdr[..k];
      }
    }
  }

  /** However far a recovery got, recovering again ends in the same disk. */
  lemma RecoveryRestarts(d: Disk, g: Geometry, k: nat)
    requires WfDisk(d, g) && k <= |HeaderOf(d[g.start])| + 1
    ensures WfDisk(RecoveryState(d, g, k), g)
    ensures Recovered(RecoveryState(d, g, k), g) == Recovered(d, g)
  {
    var hdr := HeaderOf(d[g.start]);
    if k <= |hdr| {
      var e := Installed(d, g, hdr, k);
      InstalledLog(d, g, hdr, k, g.start);
      InstalledLog(d, g, hdr, |hdr|, g.start);
      ReinstallAfterPrefix(d, g, hdr, k);
    } else {
      var e := Recovered(d, g);
      InstalledLog(d, g, hdr, |hdr|, g.start);
      HeaderRoundTrip(d[g.start], []);
      PutHeaderWords(d[g.start], [], 0);
      assert HeaderOf(e[g.start]) == [];
      var c := PutHeader(d[g.start], [], 0);
      assert e[g.start] == c && PutHeader(c, [], 0) == c;
      assert Recovered(e, g) == e;
    }
  }

  lemma OneMoreCrash(d: Disk, e: Disk, g: Geometry)
    requires WfDisk(d, g) && CrashedInRecovery(d, e, g)
    ensures WfDisk(e, g) && Recovered(e, g) == Recovered(d, g)
  {
    var k :| 0 <= k <= |HeaderOf(d[g.start])| + 1 && e == RecoveryState(d, g, k);
    RecoveryRestarts(d, g, k);
  }

  /** Any number of crashes during recovery: the final completed recovery is as if there had been none. */
  lemma {:induction false} RepeatedCrashes(ds: seq<Disk>, g: Geometry, m: nat)
    requires CrashRun(ds, g) && m < |ds|
    ensures WfDisk(ds[m], g) && Recovered(ds[m], g) == Recovered(ds[0], g)
  {
    hide WfDisk, Recovered, CrashedInRecovery;
    if m > 0 {
      RepeatedCrashes(ds, g, m - 1);
      OneMoreCrash(ds[m - 1], ds[m], g);
    }
  }

  /* ---------------- a commit is atomic ---------------- */

  /** Up to the header write a crash loses the transaction whole. */
  lemma CrashBeforeHeader(d: Disk, g: Geometry, hdr: seq<nat>, v: Disk, k: nat)
    requires WfDisk(d, g) && HeaderOf(d[g.start]) == [] && WfHeader(hdr, g, |d|) && |v| == |d|
    requires k <= |hdr|
    ensures WfDisk(CommitState(d, g, hdr, v, k), g)
    ensures SameHome(Recovered(CommitState(d, g, hdr, v, k), g), d, g)
  {
    var e := LogCopied(d, g, hdr, v, k);
    forall b: nat | b < |d| && (b == g.start || !InLog(g, b)) ensures e[b] == d[b] {
      LogCopiedAt(d, g, hdr, v, k, b);
    }
  }

  /** From the header write on, a crash keeps the transaction whole. */
  lemma CrashAtHeader(d: Disk, g: Geometry, hdr: seq<nat>, v: Disk)
    requires Fits(g, d) && WfHeader(hdr, g, |d|) && |v| == |d|
    ensures WfDisk(CommitState(d, g, hdr, v, |hdr| + 1), g)
    ensures HeaderOf(CommitState(d, g, hdr, v, |hdr| + 1)[g.start]) == hdr
    ensures SameHome(Installed(CommitState(d, g, hdr, v, |hdr| + 1), g, hdr, |hdr|), Applied(d, hdr, v), g)
  {
    var n := |hdr|;
    var c := LogCopied(d, g, hdr, v, n);
    var h := Headed(c, g, hdr);
    HeaderRoundTrip(c[g.start], hdr);
    PutHeaderWords(c[g.start], hdr, n);
    forall b: nat | b < |d| && !InLog(g, b) ensures Installed(h, g, hdr, n)[b] == Applied(d, hdr, v)[b] {
      InstalledIsApplied(d, g, hdr, v, PutHeader(c[g.start], hdr, n), b);
    }
  }

  lemma InstalledIsApplied(d: Disk, g: Geometry, hdr: seq<nat>, v: Disk, x: Block, b: nat)
    requires Fits(g, d) && WfHeader(hdr, g, |d|) && |v| == |d| && b < |d| && !InLog(g, b)
    ensures Installed(LogCopied(d, g, hdr, v, |hdr|)[g.start := x], g, hdr, |hdr|)[b] == if b in hdr then v[b] else d[b]
  {
    hide LogCopied, Installed;
    var n := |hdr|;
    var h := LogCopied(d, g, hdr, v, n)[g.start := x];
    InstalledAt(h, g, hdr, n, b);
    if b in hdr {
      var j :| 0 <= j < n && hdr[j] == b;
      LogCopiedAt(d, g, hdr, v, n, g.start + 1 + j);
    } else {
      assert b !in hdr[..n];
      LogCopiedAt(d, g, hdr, v, n, b);
    }
  }

  /** Commit is atomic: whichever block write the crash follows, and however often recovery is itself
      cut short, a completed recovery shows all of the transaction or none of it; which one is decided
      by the header write alone. */
  lemma CommitIsAtomic(d: Disk, g: Geometry, hdr: seq<nat>, v: Disk, k: nat, ds: seq<Disk>)
    requires WfDisk(d, g) && HeaderOf(d[g.start]) == [] && WfHeader(hdr, g, |d|) && |v| == |d|
    requires k <= 2 * |hdr| + 2
    requires CrashRun(ds, g) && ds[0] == CommitState(d, g, hdr, v, k)
    ensures WfDisk(ds[|ds| - 1], g)
    ensures SameHome(Recovered(ds[|ds| - 1], g), if k <= |hdr| then d else Applied(d, hdr, v), g)
  {
    RepeatedCrashes(ds, g, |ds| - 1);
    CommitStateRecovers(d, g, hdr, v, k);
  }

  /** After the header write, commit goes on exactly as a recovery would. */
  lemma CommitIsRecovery(d: Disk, g: Geometry, hdr: seq<nat>, v: Disk, k: nat)
    requires Fits(g, d) && WfHeader(hdr, g, |d|) && |v| == |d| && |hdr| < k <= 2 * |hdr| + 2
    ensures var h := CommitState(d, g, hdr, v, |hdr| + 1);
            WfDisk(h, g) && HeaderOf(h[g.start]) == hdr
            && CommitState(d, g, hdr, v, k) == RecoveryState(h, g, k - |hdr| - 1)
  {
    CrashAtHeader(d, g, hdr, v);
  }

  lemma CommitStateRecovers(d: Disk, g: Geometry, hdr: seq<nat>, v: Disk, k: nat)
    requires WfDisk(d, g) && HeaderOf(d[g.start]) == [] && WfHeader(hdr, g, |d|) && |v| == |d|
    requires k <= 2 * |hdr| + 2
    ensures WfDisk(CommitState(d, g, hdr, v, k), g)
    ensures SameHome(Recovered(CommitState(d, g, hdr, v, k), g), if k <= |hdr| then d else Applied(d, hdr, v), g)
  {
    var n := |hdr|;
    if k <= n {
      CrashBeforeHeader(d, g, hdr, v, k);
    } else {
      CrashAtHeader(d, g, hdr, v);
      var h := CommitState(d, g, hdr, v, n + 1);
      CommitIsRecovery(d, g, hdr, v, k);
      RecoveryRestarts(h, g, k - n - 1);
      InstalledLog(h, g, hdr, n, g.start);
    }
  }

  lemma NothingToRecover(d: Disk, g: Geometry)
    requires WfDisk(d, g) && HeaderOf(d[g.start]) == []
    ensures SameHome(Recovered(d, g), d, g)
  {
  }

  /** A finished commit leaves an empty log and every block at home. */
  lemma CommitCompletes(d: Disk, g: Geometry, hdr: seq<nat>, v: Disk)
    requires WfDisk(d, g) && HeaderOf(d[g.start]) == [] && WfHeader(hdr, g, |d|) && |v| == |d|
    ensures var e := CommitState(d, g, hdr, v, 2 * |hdr| + 2);
            WfDisk(e, g) && HeaderOf(e[g.start]) == [] && SameHome(e, Applied(d, hdr, v), g)
  {
    var n := |hdr|;
    CrashAtHeader(d, g, hdr, v);
    var h := CommitState(d, g, hdr, v, n + 1);
    InstalledLog(h, g, hdr, n, g.start);
    HeaderRoundTrip(h[g.start], []);
    PutHeaderWords(h[g.start], [], 0);
  }
}
