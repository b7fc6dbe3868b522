/**
sleep and wakeup (proc.c) under every interleaving, with the sleep lock (sleeplock.c) as their client. A process
waits for a condition guarded by the spin lock lk; each step below is one statement, and the processes take their
steps in any order. The condition is that the sleep lock is not taken.
*/
module SleepWakeup {

  /** Where a process is. The names before Asleep are acquiresleep and the entry to sleep, those after it the way
      out of sleep; from Release on, releasesleep. */
  datatype Pc =
    | Idle
    | Acquire     // acquiresleep: acquire(lk)
    | Test        // while (locked)
    | EnterSleep  // sleep: acquire(ptable.lock)
    | DropLk      // release(lk)
    | FallAsleep  // state = SLEEPING; sched(), which gives ptable.lock to the scheduler
    | Asleep
    | Ready       // RUNNABLE, not yet picked
    | Tidy        // picked, with ptable.lock: chan = 0; release(ptable.lock)
    | Retake      // acquire(lk)
    | Taken       // locked = 1 done; release(lk)
    | Inside      // holds the sleep lock
    | Release     // releasesleep: acquire(lk)
    | Unlock      // locked = 0
    | EnterWakeup // wakeup: acquire(ptable.lock)
    | Wake        // wakeup1
    | LeaveWakeup // release(ptable.lock)
    | Leave       // release(lk)

  datatype Holder = Free | By(i: nat)
  datatype Sys = Sys(pcs: seq<Pc>, lk: Holder, table: Holder, locked: bool)

  /** Run(i): process i takes its next step. Signal(i): an idle process, not the owner, unlocks. Kill(i): a sleeping
      process is made runnable by kill. */
  datatype Step = Run(i: nat) | Signal(i: nat) | Kill(i: nat)

  predicate HasLk(pc: Pc)
  {
    pc.Test? || pc.EnterSleep? || pc.DropLk? || pc.Taken? || pc.Unlock? || pc.EnterWakeup? || pc.Wake?
    || pc.LeaveWakeup? || pc.Leave?
  }

  predicate HasTable(pc: Pc) { pc.DropLk? || pc.FallAsleep? || pc.Tidy? || pc.Wake? || pc.LeaveWakeup? }

  predicate Owns(pc: Pc) { pc.Taken? || pc.Inside? || pc.Release? || pc.Unlock? }

  predicate Enabled(s: Sys, step: Step)
  {
    && step.i < |s.pcs|
    && match step
       case Signal(i) => s.pcs[i].Idle?
       case Kill(i) => s.pcs[i].Asleep? && s.table.Free?
       case Run(i) =>
         match s.pcs[i]
         case Acquire | Retake | Release => s.lk.Free?
         case EnterSleep | Ready | EnterWakeup => s.table.Free?
         case Asleep => false
         case _ => true
  }

  function Roused(pcs: seq<Pc>): (r: seq<Pc>)
    ensures |r| == |pcs|
    ensures forall i {:trigger r[i]} :: 0 <= i < |r| ==> r[i] == if pcs[i].Asleep? then Ready else pcs[i]
  {
    seq(|pcs|, i requires 0 <= i < |pcs| => if pcs[i].Asleep? then Ready else pcs[i])
  }

  function At(s: Sys, i: nat, pc: Pc): (r: Sys)
    requires i < |s.pcs|
  {
    s.(pcs := s.pcs[i := pc])
  }

  function Do(s: Sys, step: Step): (r: Sys)
    requires Enabled(s, step)
    ensures |r.pcs| == |s.pcs|
  {
    var i := step.i;
    match step
    case Signal(_) => At(s, i, Release)
    case Kill(_) => At(s, i, Ready)
    case Run(_) =>
      match s.pcs[i]
      case Idle => At(s, i, Acquire)
      case Acquire => At(s, i, Test).(lk := By(i))
      case Test => if s.locked then At(s, i, EnterSleep) else At(s, i, Taken).(locked := true)
      case EnterSleep => At(s, i, DropLk).(table := By(i))
      case DropLk => At(s, i, FallAsleep).(lk := Free)
      case FallAsleep => At(s, i, Asleep).(table := Free)
      case Asleep => s
      case Ready => At(s, i, Tidy).(table := By(i))
      case Tidy => At(s, i, Retake).(table := Free)
      case Retake => At(s, i, Test).(lk := By(i))
      case Taken => At(s, i, Inside).(lk := Free)
      case Inside => At(s, i, Release)
      case Release => At(s, i, Unlock).(lk := By(i))
      case Unlock => At(s, i, EnterWakeup).(locked := false)
      case EnterWakeup => At(s, i, Wake).(table := By(i))
      case Wake => At(s.(pcs := Roused(s.pcs)), i, LeaveWakeup)
      case LeaveWakeup => At(s, i, Leave).(table := Free)
      case Leave => At(s, i, Idle).(lk := Free)
  }

  function Start(n: nat): (s: Sys) { Sys(seq(n, _ => Idle), Free, Free, false) }

  predicate Legal(s: Sys, run: seq<Step>)
    decreases |run|
  {
    run == [] || (Enabled(s, run[0]) && Legal(Do(s, run[0]), run[1..]))
  }

  function Exec(s: Sys, run: seq<Step>): (r: Sys)
    requires Legal(s, run)
    ensures |r.pcs| == |s.pcs|
    decreases |run|
  {
    if run == [] then s else Exec(Do(s, run[0]), run[1..])
  }

  /* ---------------- what every step keeps ---------------- */

  /** Each spin lock is held by exactly the process that is where it should hold it. */
  ghost predicate Spin(s: Sys)
  {
    forall i {:trigger s.pcs[i]} :: 0 <= i < |s.pcs| ==>
      (HasLk(s.pcs[i]) <==> s.lk == By(i)) && (HasTable(s.pcs[i]) <==> s.table == By(i))
  }

  /** A process on its way to sleep has seen the lock taken, and until it lets go of lk that is still so. */
  ghost predicate Seen(s: Sys)
  {
    forall i {:trigger s.pcs[i]} :: 0 <= i < |s.pcs| && (s.pcs[i].EnterSleep? || s.pcs[i].DropLk?) ==> s.locked
  }

  /** A wakeup is still to come, from a process that has changed the condition. */
  ghost predicate WakeupDue(s: Sys) { exists j :: 0 <= j < |s.pcs| && (s.pcs[j].EnterWakeup? || s.pcs[j].Wake?) }

  /** Nobody sleeps, or is about to, on a condition that is true and that nobody will announce. */
  ghost predicate NoneLost(s: Sys)
  {
    !s.locked && !WakeupDue(s) ==> forall i {:trigger s.pcs[i]} :: 0 <= i < |s.pcs| ==>
      !s.pcs[i].Asleep? && !s.pcs[i].FallAsleep?
  }

  lemma SpinStep(s: Sys, step: Step)
    requires Spin(s) && Enabled(s, step)
    ensures Spin(Do(s, step))
  {
    var r := Do(s, step);
    forall i {:trigger r.pcs[i]} | 0 <= i < |r.pcs|
      ensures (HasLk(r.pcs[i]) <==> r.lk == By(i)) && (HasTable(r.pcs[i]) <==> r.table == By(i))
    {
      assert s.pcs[i] == s.pcs[i] && s.pcs[step.i] == s.pcs[step.i];
    }
  }

  lemma SeenStep(s: Sys, step: Step)
    requires Spin(s) && Seen(s) && Enabled(s, step)
    ensures Seen(Do(s, step))
  {
    var r := Do(s, step);
    forall i {:trigger r.pcs[i]} | 0 <= i < |r.pcs| && (r.pcs[i].EnterSleep? || r.pcs[i].DropLk?) ensures r.locked {
      assert s.pcs[i] == s.pcs[i] && s.pcs[step.i] == s.pcs[step.i];
    }
  }

  /** A due wakeup stays due until it happens, and then nobody is asleep. */
  lemma DueUntilDone(s: Sys, step: Step)
    requires Spin(s) && Enabled(s, step) && WakeupDue(s) && !(step.Run? && s.pcs[step.i].Wake?)
    ensures WakeupDue(Do(s, step))
  {
    var j :| 0 <= j < |s.pcs| && (s.pcs[j].EnterWakeup? || s.pcs[j].Wake?);
    var r := Do(s, step);
    assert r.pcs[j].EnterWakeup? || r.pcs[j].Wake?;
  }

  lemma AllAwake(s: Sys, step: Step)
    requires Spin(s) && Enabled(s, step) && step.Run? && s.pcs[step.i].Wake?
    ensures var r := Do(s, step); forall i {:trigger r.pcs[i]} :: 0 <= i < |s.pcs| ==>
              !r.pcs[i].Asleep? && !r.pcs[i].FallAsleep?
  {
    var r := Do(s, step);
    forall i {:trigger r.pcs[i]} | 0 <= i < |s.pcs| ensures !r.pcs[i].Asleep? && !r.pcs[i].FallAsleep? {
      assert Roused(s.pcs)[i] == if s.pcs[i].Asleep? then Ready else s.pcs[i];
      assert HasTable(s.pcs[i]) ==> i == step.i;
    }
  }

  lemma NoneLostStep(s: Sys, step: Step)
    requires Spin(s) && Seen(s) && NoneLost(s) && Enabled(s, step)
    ensures NoneLost(Do(s, step))
  {
    var r := Do(s, step);
    if step.Run? && s.pcs[step.i].Wake? {
      AllAwake(s, step);
    } else if WakeupDue(s) {
      DueUntilDone(s, step);
    } else if step.Run? && s.pcs[step.i].Unlock? {
      assert r.pcs[step.i].EnterWakeup?;
    } else if !r.locked {
      forall i {:trigger r.pcs[i]} | 0 <= i < |r.pcs| ensures !r.pcs[i].Asleep? && !r.pcs[i].FallAsleep? {
        assert !s.pcs[i].Asleep? && !s.pcs[i].FallAsleep?;
      }
    }
  }

  /** No lost wakeup, in every interleaving of any number of waiters, wakers and kills. */
  lemma {:induction false} NoLostWakeup(s: Sys, run: seq<Step>)
    requires Spin(s) && Seen(s) && NoneLost(s) && Legal(s, run)
    ensures var r := Exec(s, run); Spin(r) && Seen(r) && NoneLost(r)
    decreases |run|
  {
    hide Spin, Seen, NoneLost, Enabled, Do;
    if run != [] {
      SpinStep(s, run[0]);
      SeenStep(s, run[0]);
      NoneLostStep(s, run[0]);
      NoLostWakeup(Do(s, run[0]), run[1..]);
    }
  }

  /* ---------------- the sleep lock ---------------- */

  /** Only the owner unlocks. */
  predicate Proper(run: seq<Step>) { forall k :: 0 <= k < |run| ==> !run[k].Signal? }

  /** One process owns the lock, or it is free. */
  ghost predicate Exclusive(s: Sys)
  {
    && (forall i, j {:trigger s.pcs[i], s.pcs[j]} :: 0 <= i < j < |s.pcs| ==> !(Owns(s.pcs[i]) && Owns(s.pcs[j])))
    && (forall i {:trigger s.pcs[i]} :: 0 <= i < |s.pcs| && Owns(s.pcs[i]) ==> s.locked)
  }

  lemma ExclusiveStep(s: Sys, step: Step)
    requires Spin(s) && Exclusive(s) && Enabled(s, step) && !step.Signal?
    ensures Exclusive(Do(s, step))
  {
    var r := Do(s, step);
    forall i, j {:trigger r.pcs[i], r.pcs[j]} | 0 <= i < j < |r.pcs| ensures !(Owns(r.pcs[i]) && Owns(r.pcs[j])) {
      assert s.pcs[i] == s.pcs[i] && s.pcs[j] == s.pcs[j];
    }
    forall i {:trigger r.pcs[i]} | 0 <= i < |r.pcs| && Owns(r.pcs[i]) ensures r.locked {
      assert s.pcs[i] == s.pcs[i] && s.pcs[step.i] == s.pcs[step.i];
    }
  }

  ghost predicate Owned(s: Sys) { s.locked ==> exists i :: 0 <= i < |s.pcs| && Owns(s.pcs[i]) }

  lemma OwnedStep(s: Sys, step: Step)
    requires Exclusive(s) && Owned(s) && Enabled(s, step) && !step.Signal?
    ensures Owned(Do(s, step))
  {
    var r := Do(s, step);
    if s.locked && r.locked {
      var i :| 0 <= i < |s.pcs| && Owns(s.pcs[i]);
      assert Owns(r.pcs[i]);
    } else if r.locked {
      assert Owns(r.pcs[step.i]);
    }
  }

  /** When only owners release, no two processes are ever inside, and a taken lock has an owner. */
  lemma {:induction false} MutualExclusion(s: Sys, run: seq<Step>)
    requires Spin(s) && Exclusive(s) && Owned(s) && Legal(s, run) && Proper(run)
    ensures Exclusive(Exec(s, run)) && Owned(Exec(s, run))
    decreases |run|
  {
    hide Spin, Exclusive, Owned, Enabled, Do;
    if run != [] {
      SpinStep(s, run[0]);
      ExclusiveStep(s, run[0]);
      OwnedStep(s, run[0]);
      MutualExclusion(Do(s, run[0]), run[1..]);
    }
  }

  /** Some process that has work to do can do it now. */
  ghost predicate CanMove(s: Sys) { exists i: nat :: i < |s.pcs| && !s.pcs[i].Idle? && Enabled(s, Run(i)) }

  /** A process is held up by a spin lock only while its holder can go on. */
  lemma HolderMoves(s: Sys, i: nat)
    requires Spin(s) && i < |s.pcs| && (HasLk(s.pcs[i]) || HasTable(s.pcs[i])) && (s.table.By? ==> s.table.i < |s.pcs|)
    ensures CanMove(s)
  {
    if !Enabled(s, Run(i)) {
      var j := s.table.i;
      assert HasTable(s.pcs[j]) && Enabled(s, Run(j));
    } else {
      assert !s.pcs[i].Idle? && Enabled(s, Run(i));
    }
  }

  lemma DueHoldsLk(s: Sys)
    requires Spin(s)
    ensures WakeupDue(s) ==> s.lk.By?
  {
    if WakeupDue(s) {
      var j :| 0 <= j < |s.pcs| && (s.pcs[j].EnterWakeup? || s.pcs[j].Wake?);
      assert HasLk(s.pcs[j]);
    }
  }

  ghost predicate Holders(s: Sys) { (s.lk.By? ==> s.lk.i < |s.pcs|) && (s.table.By? ==> s.table.i < |s.pcs|) }

  /** No deadlock: unless every process is idle, one that is not can take a step. */
  lemma NeverStuck(s: Sys)
    requires Spin(s) && NoneLost(s) && Owned(s) && Holders(s) && exists i :: 0 <= i < |s.pcs| && !s.pcs[i].Idle?
    ensures CanMove(s)
  {
    if s.lk.By? {
      HolderMoves(s, s.lk.i);
    } else if s.table.By? {
      HolderMoves(s, s.table.i);
    } else {
      var i :| 0 <= i < |s.pcs| && !s.pcs[i].Idle?;
      if s.pcs[i].Asleep? {
        DueHoldsLk(s);
        var j :| 0 <= j < |s.pcs| && Owns(s.pcs[j]);
        assert Enabled(s, Run(j)) && !s.pcs[j].Idle?;
      } else {
        assert Enabled(s, Run(i));
      }
    }
  }

  lemma {:induction false} HoldersKept(s: Sys, run: seq<Step>)
    requires Holders(s) && Legal(s, run)
    ensures Holders(Exec(s, run))
    decreases |run|
  {
    if run != [] { HoldersKept(Do(s, run[0]), run[1..]); }
  }

  /** From the start, in every proper run: at most one process is inside, a process asleep on a free lock has a wakeup
      coming, and the system cannot come to a halt while a process has work to do. */
  lemma SleepLockCorrect(n: nat, run: seq<Step>)
    requires Legal(Start(n), run) && Proper(run)
    ensures var r := Exec(Start(n), run);
            && Exclusive(r)
            && (forall i {:trigger r.pcs[i]} :: 0 <= i < |r.pcs| && r.pcs[i].Asleep? && !r.locked ==> WakeupDue(r))
            && ((exists i :: 0 <= i < |r.pcs| && !r.pcs[i].Idle?) ==> CanMove(r))
  {
    hide Legal, Exec, CanMove;
    NoLostWakeup(Start(n), run);
    MutualExclusion(Start(n), run);
    HoldersKept(Start(n), run);
    if exists i :: 0 <= i < |Exec(Start(n), run).pcs| && !Exec(Start(n), run).pcs[i].Idle? {
      NeverStuck(Exec(Start(n), run));
    }
  }

  /* ---------------- every process in turn ---------------- */

  /** What a process is doing with the sleep lock: nothing, getting it, holding it, or giving it back. */
  datatype Phase = Out | Getting | Holding | Giving

  function PhaseOf(pc: Pc): (p: Phase)
  {
    match pc
    case Idle => Out
    case Inside => Holding
    case Release | Unlock | EnterWakeup | Wake | LeaveWakeup | Leave => Giving
    case _ => Getting
  }

  function Following(p: Phase): (q: Phase)
  {
    match p
    case Out => Getting
    case Getting => Holding
    case Holding => Giving
    case Giving => Out
  }

  /** A step moves nobody but the process that takes it to another phase, and that one to the phase that follows. */
  lemma PhaseStep(s: Sys, step: Step, i: nat)
    requires Enabled(s, step) && i < |s.pcs|
    ensures var p, q := PhaseOf(s.pcs[i]), PhaseOf(Do(s, step).pcs[i]);
            q == p || (step.i == i && q == if step.Signal? then Giving else Following(p))
  {
  }

  /** In every run of acquiresleep and releasesleep a process goes through the phases in turn: it leaves one only for
      the next. So a waiter that is woken, or killed, does not come back without having held the lock, and who gives the
      lock back does not hold it again without having asked. */
  lemma {:induction false} InTurn(s: Sys, run: seq<Step>, i: nat) returns (k: nat)
    requires Legal(s, run) && Proper(run) && i < |s.pcs|
    requires PhaseOf(Exec(s, run).pcs[i]) != PhaseOf(s.pcs[i])
    ensures 0 < k <= |run| && Legal(s, run[..k])
    ensures PhaseOf(Exec(s, run[..k]).pcs[i]) == Following(PhaseOf(s.pcs[i]))
    decreases |run|
  {
    hide Enabled, Do, PhaseOf, Following;
    var t := Do(s, run[0]);
    PhaseStep(s, run[0], i);
    if PhaseOf(t.pcs[i]) != PhaseOf(s.pcs[i]) {
      k := 1;
      assert run[..1] == [run[0]] && run[..1][1..] == [];
    } else {
      var j := InTurn(t, run[1..], i);
      k := j + 1;
      assert run[..k][1..] == run[1..][..j];
    }
  }

  /** acquiresleep returns with the lock: a process that has set out to get it and is idle again has been inside. */
  lemma HeldBeforeBack(s: Sys, run: seq<Step>, i: nat) returns (k: nat)
    requires Legal(s, run) && Proper(run) && i < |s.pcs|
    requires s.pcs[i].Acquire? && Exec(s, run).pcs[i].Idle?
    ensures k <= |run| && Legal(s, run[..k]) && Exec(s, run[..k]).pcs[i].Inside?
  {
    k := InTurn(s, run, i);
  }

  /** How many statements a process is away from the end of its phase, at most, if nobody is in its way. */
  function Away(pc: Pc): (n: nat)
  {
    match pc
    case EnterSleep => 9
    case DropLk => 8
    case FallAsleep => 7
    case Asleep => 6
    case Ready => 5
    case Tidy => 4
    case Acquire | Retake => 3
    case Test => 2
    case Taken => 1
    case Release => 6
    case Unlock => 5
    case EnterWakeup => 4
    case Wake => 3
    case LeaveWakeup => 2
    case Leave => 1
    case Idle | Inside => 0
  }

  ghost predicate OthersIdle(s: Sys, i: nat)
  {
    forall j {:trigger s.pcs[j]} :: 0 <= j < |s.pcs| && j != i ==> s.pcs[j].Idle?
  }

  /** A process that is getting or giving back the lock, with everybody else idle, can take a step, and it is a step
      forward. */
  lemma StepForward(s: Sys, i: nat)
    requires Spin(s) && Seen(s) && NoneLost(s) && Owned(s) && Holders(s) && i < |s.pcs| && OthersIdle(s, i)
    requires PhaseOf(s.pcs[i]).Getting? || PhaseOf(s.pcs[i]).Giving?
    ensures Enabled(s, Run(i)) && Away(Do(s, Run(i)).pcs[i]) < Away(s.pcs[i]) && OthersIdle(Do(s, Run(i)), i)
  {
    assert s.lk.By? ==> HasLk(s.pcs[s.lk.i]);
    assert s.table.By? ==> HasTable(s.pcs[s.table.i]);
    assert s.locked ==> Owns(s.pcs[i]);
    assert WakeupDue(s) ==> s.pcs[i].EnterWakeup? || s.pcs[i].Wake?;
  }

  /** And so it gets it, or has given it back, by its own steps alone: a waiter does not depend on anybody once the lock
      is free. */
  lemma {:induction false} Unhindered(s: Sys, i: nat) returns (run: seq<Step>)
    requires Spin(s) && Seen(s) && NoneLost(s) && Exclusive(s) && Owned(s) && Holders(s) && i < |s.pcs|
    requires OthersIdle(s, i) && (PhaseOf(s.pcs[i]).Getting? || PhaseOf(s.pcs[i]).Giving?)
    ensures |run| <= 9 && (forall k :: 0 <= k < |run| ==> run[k] == Run(i)) && Legal(s, run)
    ensures Exec(s, run).pcs[i] == if PhaseOf(s.pcs[i]).Getting? then Inside else Idle
    ensures |run| <= Away(s.pcs[i])
    decreases Away(s.pcs[i])
  {
    hide Spin, Seen, NoneLost, Exclusive, Owned, Holders, Enabled, Do, OthersIdle;
    StepForward(s, i);
    PhaseStep(s, Run(i), i);
    SpinStep(s, Run(i));
    SeenStep(s, Run(i));
    NoneLostStep(s, Run(i));
    ExclusiveStep(s, Run(i));
    OwnedStep(s, Run(i));
    HoldersStep(s, Run(i));
    var t := Do(s, Run(i));
    if PhaseOf(t.pcs[i]) == PhaseOf(s.pcs[i]) {
      var more := Unhindered(t, i);
      run := [Run(i)] + more;
      assert run[1..] == more;
    } else {
      run := [Run(i)];
      assert run[1..] == [];
    }
  }

  lemma HoldersStep(s: Sys, step: Step)
    requires Holders(s) && Enabled(s, step)
    ensures Holders(Do(s, step))
  {
  }
}
