/**
The process table and its run queues (proc.c). Every method is one stretch under ptable.lock; a context switch is
the change of state it amounts to.
*/
module Proc {
  import opened Param
  import opened RunQueues

  /** wait sleeps on the address of the waiting process; the null process has address 0. */
  function ProcChan(p: nat): (chan: nat) { if p == NIL then 0 else p + 1 }

  /** Only the links differ. */
  ghost predicate OnlyLinks(proc: seq<Proc>, proc': seq<Proc>)
  {
    |proc| == |proc'| == NPROC
    && forall x {:trigger proc'[x]} :: 0 <= x < NPROC ==> proc'[x] == proc[x].(sigprio := proc'[x].sigprio)
  }

  /** Only process p differs, links aside. */
  ghost predicate OnlyProc(proc: seq<Proc>, proc': seq<Proc>, p: nat)
  {
    |proc| == |proc'| == NPROC
    && forall x {:trigger proc'[x]} :: 0 <= x < NPROC && x != p ==> proc'[x] == proc[x].(sigprio := proc'[x].sigprio)
  }

  /** Pids are handed out once: no two processes share one. */
  ghost predicate Pids(proc: seq<Proc>, nextpid: int)
  {
    && nextpid > 0
    && (forall x {:trigger proc[x]} :: 0 <= x < |proc| ==> 0 <= proc[x].pid < nextpid)
    && (forall x, y {:trigger proc[x], proc[y]} ::
          0 <= x < y < |proc| && !proc[x].state.Unused? && !proc[y].state.Unused? ==>
          proc[x].pid != proc[y].pid)
  }

  /** No exit goes unnoticed: nobody sleeps in wait who has a zombie child. */
  ghost predicate Heard(proc: seq<Proc>)
  {
    forall p, c {:trigger proc[p], proc[c]} ::
      0 <= p < |proc| && 0 <= c < |proc| && SleepsOn(proc[p], ProcChan(p)) && proc[c].state.Zombie? ==>
      proc[c].parent != p
  }

  lemma HeardSame(proc: seq<Proc>, proc': seq<Proc>)
    requires Heard(proc) && |proc| == |proc'|
    requires forall x {:trigger proc'[x]} :: 0 <= x < |proc| && proc'[x].state.Zombie? ==>
               proc[x].state.Zombie? && proc'[x].parent == proc[x].parent
    requires forall x {:trigger proc'[x]} :: 0 <= x < |proc| && SleepsOn(proc'[x], ProcChan(x)) ==>
               SleepsOn(proc[x], ProcChan(x))
    ensures Heard(proc')
  {
  }

  lemma HeardWoken(proc: seq<Proc>, proc': seq<Proc>, init: nat)
    requires Heard(proc) && |proc| == |proc'| && init < |proc| && !SleepsOn(proc'[init], ProcChan(init))
    requires forall x {:trigger proc'[x]} :: 0 <= x < |proc| && proc'[x].state.Zombie? ==>
               proc[x].state.Zombie? && (proc'[x].parent == proc[x].parent || proc'[x].parent == init)
    requires forall x {:trigger proc'[x]} :: 0 <= x < |proc| && SleepsOn(proc'[x], ProcChan(x)) ==>
               SleepsOn(proc[x], ProcChan(x))
    ensures Heard(proc')
  {
  }

  lemma HeardChange(proc: seq<Proc>, p: nat, q: Proc)
    requires Heard(proc) && p < |proc|
    requires q.state.Zombie? ==> q.parent >= |proc| || q.parent == p || !SleepsOn(proc[q.parent], ProcChan(q.parent))
    requires SleepsOn(q, ProcChan(p)) ==> forall c :: 0 <= c < |proc| && c != p && proc[c].state.Zombie? ==>
               proc[c].parent != p
    ensures Heard(proc[p := q])
  {
  }

  lemma PidsSame(proc: seq<Proc>, proc': seq<Proc>, nextpid: int)
    requires Pids(proc, nextpid) && |proc| == |proc'|
    requires forall x {:trigger proc'[x]} :: 0 <= x < |proc| ==>
               proc'[x].pid == proc[x].pid && (proc'[x].state.Unused? <==> proc[x].state.Unused?)
    ensures Pids(proc', nextpid)
  {
  }

  /** One slot taken into use with the next pid, or given up. */
  lemma PidsChange(proc: seq<Proc>, nextpid: int, p: nat, q: Proc)
    requires Pids(proc, nextpid) && p < |proc|
    ensures q.state.Unused? && 0 <= q.pid < nextpid ==> Pids(proc[p := q], nextpid)
    ensures q.pid == nextpid ==> Pids(proc[p := q], nextpid + 1)
    ensures q.pid == proc[p].pid && !proc[p].state.Unused? ==> Pids(proc[p := q], nextpid)
  {
  }

  predicate SleepsOn(p: Proc, chan: nat) { p.state.Sleeping? && p.chan == chan }

  function Awake(p: Proc, chan: nat): (r: Proc) { if SleepsOn(p, chan) then p.(state := Runnable) else p }

  /** The queues after wakeup1 has gone over the first n processes. */
  function Woken(proc: seq<Proc>, queues: seq<seq<nat>>, chan: nat, n: nat): (r: seq<seq<nat>>)
    requires |queues| == NPRIO && n <= |proc| && forall x :: 0 <= x < |proc| ==> proc[x].prio < NPRIO
    ensures |r| == NPRIO
  {
    if n == 0 then queues
    else
      var r := Woken(proc, queues, chan, n - 1);
      if SleepsOn(proc[n - 1], chan) then Enqueued(r, n - 1, proc[n - 1].prio) else r
  }

  /** wakeup1 looks at the state, the channel and the priority of each process and at nothing else. */
  lemma {:induction false} WokenSame(proc: seq<Proc>, proc': seq<Proc>, queues: seq<seq<nat>>, chan: nat, n: nat)
    requires |queues| == NPRIO && n <= |proc| == |proc'| && forall x :: 0 <= x < |proc| ==> proc[x].prio < NPRIO
    requires forall x {:trigger proc'[x]} :: 0 <= x < |proc| ==>
               SleepsOn(proc'[x], chan) == SleepsOn(proc[x], chan) && proc'[x].prio == proc[x].prio
    ensures Woken(proc', queues, chan, n) == Woken(proc, queues, chan, n)
  {
    if n != 0 { WokenSame(proc, proc', queues, chan, n - 1); }
  }

  /** A second wakeup finds nobody. */
  lemma {:induction false} WokenNone(proc: seq<Proc>, queues: seq<seq<nat>>, chan: nat, n: nat)
    requires |queues| == NPRIO && n <= |proc| && forall x :: 0 <= x < |proc| ==> proc[x].prio < NPRIO
    requires forall x :: 0 <= x < |proc| ==> !SleepsOn(proc[x], chan)
    ensures Woken(proc, queues, chan, n) == queues
  {
    if n != 0 { WokenNone(proc, queues, chan, n - 1); }
  }

  /** wakeup1 is a run of insertions, so what is proved of runs of the queues covers it. */
  lemma {:induction false} WokenIsRun(proc: seq<Proc>, queues: seq<seq<nat>>, chan: nat, n: nat)
    returns (run: seq<Step>)
    requires |queues| == NPRIO && n <= |proc| && forall x :: 0 <= x < |proc| ==> proc[x].prio < NPRIO
    ensures (forall k :: 0 <= k < |run| ==> run[k].Enqueue?) && CanAll(queues, run)
    ensures DoAll(queues, run) == Woken(proc, queues, chan, n)
  {
    if n == 0 {
      run := [];
    } else {
      var first := WokenIsRun(proc, queues, chan, n - 1);
      var q := Woken(proc, queues, chan, n - 1);
      run := if SleepsOn(proc[n - 1], chan) then first + [Enqueue(n - 1, proc[n - 1].prio)] else first;
      if SleepsOn(proc[n - 1], chan) { DoAllThen(queues, first, Enqueue(n - 1, proc[n - 1].prio)); }
    }
  }

  /** cur has a zombie among the first n processes. */
  predicate ZombieChild(proc: seq<Proc>, cur: nat, n: nat)
    requires n <= |proc|
  {
    exists c :: 0 <= c < n && proc[c].parent == cur && proc[c].state.Zombie?
  }

  function AwakeAll(proc: seq<Proc>, chan: nat): (r: seq<Proc>)
    ensures |r| == |proc| && forall x {:trigger r[x]} :: 0 <= x < |r| ==> r[x] == Awake(proc[x], chan)
  {
    seq(|proc|, x requires 0 <= x < |proc| => Awake(proc[x], chan))
  }

  /** The queues after exit: those waiting for the parent first, then, for a zombie child, those waiting for init. */
  function ExitQueues(proc: seq<Proc>, queues: seq<seq<nat>>, cur: nat, init: nat): (r: seq<seq<nat>>)
    requires |queues| == NPRIO && |proc| == NPROC && cur < NPROC && forall x :: 0 <= x < |proc| ==> proc[x].prio < NPRIO
    ensures |r| == NPRIO
  {
    var q := Woken(proc, queues, ProcChan(proc[cur].parent), NPROC);
    if ZombieChild(proc, cur, NPROC) then Woken(AwakeAll(proc, ProcChan(proc[cur].parent)), q, ProcChan(init), NPROC)
    else q
  }

  /** exit, too, is a run of insertions as far as the queues go. */
  lemma ExitIsRun(proc: seq<Proc>, queues: seq<seq<nat>>, cur: nat, init: nat) returns (run: seq<Step>)
    requires |queues| == NPRIO && |proc| == NPROC && cur < NPROC && forall x :: 0 <= x < |proc| ==> proc[x].prio < NPRIO
    ensures (forall k :: 0 <= k < |run| ==> run[k].Enqueue?) && CanAll(queues, run)
    ensures DoAll(queues, run) == ExitQueues(proc, queues, cur, init)
  {
    hide Woken, CanAll, DoAll;
    var chan := ProcChan(proc[cur].parent);
    run := WokenIsRun(proc, queues, chan, NPROC);
    if ZombieChild(proc, cur, NPROC) {
      var q := Woken(proc, queues, chan, NPROC);
      var more := WokenIsRun(AwakeAll(proc, chan), q, ProcChan(init), NPROC);
      DoAllAppend(queues, run, more);
      run := run + more;
    }
  }

  /** w lists those of the first n processes that sleep on chan and belong to level l, in the order of the table. */
  ghost predicate Sleepers(proc: seq<Proc>, chan: nat, n: nat, l: nat, w: seq<nat>)
    requires n <= |proc|
  {
    && (forall i, j :: 0 <= i < j < |w| ==> w[i] < w[j])
    && (forall x: nat :: x in w <==> x < n && SleepsOn(proc[x], chan) && proc[x].prio == l)
  }

  /** An exit overtakes nobody: every level keeps those waiting in it, in order, and behind them come those that wait
      for the parent, then, if cur leaves a zombie, those that wait for init, each in the order of the table. */
  lemma ExitBehind(proc: seq<Proc>, queues: seq<seq<nat>>, cur: nat, init: nat, l: nat)
    returns (w: seq<nat>, w': seq<nat>)
    requires |queues| == NPRIO && |proc| == NPROC && cur < NPROC && l < NPRIO
    requires forall x :: 0 <= x < |proc| ==> proc[x].prio < NPRIO
    ensures ExitQueues(proc, queues, cur, init)[l] == queues[l] + w + w'
    ensures var chan := ProcChan(proc[cur].parent);
            && Sleepers(proc, chan, NPROC, l, w)
            && if ZombieChild(proc, cur, NPROC) && chan != ProcChan(init)
               then Sleepers(proc, ProcChan(init), NPROC, l, w') else w' == []
  {
    hide Woken, SleepsOn;
    var chan := ProcChan(proc[cur].parent);
    var q := Woken(proc, queues, chan, NPROC);
    w := WokenBehind(proc, queues, chan, NPROC, l);
    w' := [];
    if ZombieChild(proc, cur, NPROC) {
      w' := WokenBehind(AwakeAll(proc, chan), q, ProcChan(init), NPROC, l);
      AwakeSleepers(proc, chan, ProcChan(init), l, w');
    } else {
      assert q[l] + [] == q[l];
    }
  }

  lemma AwakeSleepers(proc: seq<Proc>, chan: nat, chan': nat, l: nat, w: seq<nat>)
    requires |proc| == NPROC && Sleepers(AwakeAll(proc, chan), chan', NPROC, l, w)
    ensures if chan == chan' then w == [] else Sleepers(proc, chan', NPROC, l, w)
  {
    forall x: nat | x < NPROC
      ensures SleepsOn(AwakeAll(proc, chan)[x], chan') <==> chan != chan' && SleepsOn(proc[x], chan')
      ensures AwakeAll(proc, chan)[x].prio == proc[x].prio
    {
    }
    if w != [] { assert w[0] in w; }
  }

  /** Nobody who was waiting is overtaken by those who wake, and these come in the order of the table. */
  lemma {:induction false} WokenBehind(proc: seq<Proc>, queues: seq<seq<nat>>, chan: nat, n: nat, l: nat)
    returns (w: seq<nat>)
    requires |queues| == NPRIO && n <= |proc| && (forall x :: 0 <= x < |proc| ==> proc[x].prio < NPRIO) && l < NPRIO
    ensures Woken(proc, queues, chan, n)[l] == queues[l] + w && Sleepers(proc, chan, n, l, w)
  {
    w := [];
    if n != 0 {
      w := WokenBehind(proc, queues, chan, n - 1, l);
      if SleepsOn(proc[n - 1], chan) && proc[n - 1].prio == l {
        assert forall x :: x in w + [n - 1] <==> x in w || x == n - 1;
        forall i | 0 <= i < |w| ensures w[i] < n - 1 { assert w[i] in w; }
        w := w + [n - 1];
      }
    }
  }

  datatype WaitResult = Reaped(pid: int, status: int) | NoChildren | Slept

  class ProcTable {
    var proc: seq<Proc>
    var primero: seq<nat>
    var ultimo: seq<nat>
    var nextpid: int
    var locked: bool
    ghost var queues: seq<seq<nat>>

    ghost predicate Valid()
      reads this
    {
      Queued() && Heard(proc)
    }

    /** The part of Valid that wakeup1 keeps without the rest. */
    ghost predicate Queued()
      reads this
    {
      Linked(proc, primero, ultimo, queues) && Partition(proc, queues) && Pids(proc, nextpid)
    }

    constructor ()
      ensures Valid() && !locked && nextpid == 1
      ensures |proc| == NPROC && forall p :: 0 <= p < NPROC ==> proc[p].state.Unused?
      ensures |queues| == NPRIO && forall l :: 0 <= l < NPRIO ==> queues[l] == []
    {
      proc := seq(NPROC, _ => Proc(Unused, 0, NIL, 0, false, 0, 0, NIL));
      primero, ultimo, queues := seq(NPRIO, _ => NIL), seq(NPRIO, _ => NIL), seq(NPRIO, _ => []);
      nextpid, locked := 1, false;
    }

    /** insertProc: p goes to the end of level prio, found by way of ultimo. */
    method InsertProc(p: nat, prio: nat)
      requires |proc| == NPROC && |primero| == |ultimo| == |queues| == NPRIO && p < NPROC && prio < NPRIO
      requires ultimo[prio] <= NIL
      modifies this`proc, this`primero, this`ultimo, this`queues
      ensures OnlyLinks(old(proc), proc)
      ensures old(Linked(proc, primero, ultimo, queues) && Away(queues, p)) ==> Linked(proc, primero, ultimo, queues)
      ensures queues == Enqueued(old(queues), p, prio) && ultimo == old(ultimo)[prio := p]
      ensures primero == if old(ultimo)[prio] == NIL then old(primero)[prio := p] else old(primero)
    {
      hide Pids, Heard, IsQueue, NoDup, Disjoint, Away, Enqueued, Linked;
      if ultimo[prio] == NIL {
        primero := primero[prio := p];
        ultimo := ultimo[prio := p];
        proc := proc[p := proc[p].(sigprio := NIL)];
      } else {
        var tmp := ultimo[prio];
        proc := proc[tmp := proc[tmp].(sigprio := p)];
        ultimo := ultimo[prio := p];
        proc := proc[p := proc[p].(sigprio := NIL)];
      }
      if old(Linked(proc, primero, ultimo, queues) && Away(queues, p)) {
        LastAway(old(proc), old(primero), old(ultimo), queues, p, prio);
        Appended(old(proc), proc, old(primero), old(ultimo), queues, p, prio);
      }
      queues := Enqueued(queues, p, prio);
    }

    /** quitarProc: takes p off level prio if it is the first there. */
    method QuitarProc(p: nat, prio: nat) returns (ok: bool)
      requires Linked(proc, primero, ultimo, queues) && p < NPROC && prio < NPRIO
      modifies this`proc, this`primero, this`ultimo, this`queues
      ensures Linked(proc, primero, ultimo, queues) && OnlyLinks(old(proc), proc)
      ensures ok <==> old(queues)[prio] != [] && old(queues)[prio][0] == p
      ensures queues == if ok then old(queues)[prio := old(queues)[prio][1..]] else old(queues)
      ensures ok ==> Away(queues, p)
    {
      hide Pids, Heard, IsQueue, NoDup, Disjoint, Away;
      LastIn(proc, primero[prio], ultimo[prio], queues[prio]);
      if primero[prio] != p { return false; }
      var tmp2 := proc[p].sigprio;
      primero := primero[prio := tmp2];
      proc := proc[p := proc[p].(sigprio := NIL)];
      if ultimo[prio] == p {
        ultimo := ultimo[prio := NIL];
      }
      Popped(old(proc), proc, old(primero), old(ultimo), queues, prio);
      queues := queues[prio := queues[prio][1..]];
      ok := true;
    }

    /** One round of scheduler: the first process of the lowest-numbered non-empty level runs, if there is any. */
    method Pick() returns (p: nat)
      requires Valid()
      modifies this`proc, this`primero, this`ultimo, this`queues
      ensures Valid() && queues == Dispatched(old(queues)) && Settled(old(proc), proc)
      ensures p == NIL <==> forall l :: 0 <= l < NPRIO ==> old(queues)[l] == []
      ensures p == NIL ==> proc == old(proc)
      ensures p != NIL ==>
                && var l := Lowest(old(queues), 0);
                && l < NPRIO && p == old(queues)[l][0] && p < NPROC && OnlyProc(old(proc), proc, p)
                && proc[p] == old(proc)[p].(state := Running, sigprio := proc[p].sigprio)
    {
      hide Pids, Heard, IsQueue, NoDup, Disjoint, Away, Settled;
      SettledNone(proc);
      for pi := 0 to NPRIO
        invariant Valid() && proc == old(proc) && queues == old(queues) && Lowest(queues, 0) == Lowest(queues, pi)
      {
        LastIn(proc, primero[pi], ultimo[pi], queues[pi]);
        if primero[pi] != NIL {
          p := primero[pi];
          assert p in queues[pi];
          if proc[p].state.Runnable? {
            proc := proc[p := proc[p].(state := Running)];
            LinkedSame(old(proc), proc, primero, ultimo, queues);
            var _ := QuitarProc(p, proc[p].prio);
            RemoveHead(old(queues)[pi]);
            PartitionTake(old(proc), proc, old(queues), pi, 0);
            PidsSame(old(proc), proc, nextpid);
            HeardSame(old(proc), proc);
            SettledIf(old(proc), proc, p);
            return;
          }
        }
      }
      p := NIL;
    }

    /** The state change and queueing that fork, yield, wakeup1 and kill share. */
    method MakeRunnable(p: nat)
      requires Queued() && p < NPROC && !proc[p].state.Runnable? && !proc[p].state.Unused?
      modifies this`proc, this`primero, this`ultimo, this`queues
      ensures Queued() && (old(Heard(proc)) ==> Heard(proc))
      ensures queues == Enqueued(old(queues), p, proc[p].prio) && OnlyProc(old(proc), proc, p)
      ensures proc[p] == old(proc)[p].(state := Runnable, sigprio := proc[p].sigprio)
    {
      hide Pids, Heard, IsQueue, NoDup, Disjoint, Away, Enqueued;
      NotQueued(proc, queues, p);
      proc := proc[p := proc[p].(state := Runnable)];
      LinkedSame(old(proc), proc, primero, ultimo, queues);
      LevelFacts(proc, primero, ultimo, queues, proc[p].prio);
      InsertProc(p, proc[p].prio);
      PartitionAdd(old(proc), proc, old(queues), p);
      PidsSame(old(proc), proc, nextpid);
      if old(Heard(proc)) { HeardSame(old(proc), proc); }
    }

    /** A change to a process that is not runnable, before or after, leaves the queues alone. */
    method Change(p: nat, q: Proc)
      requires Linked(proc, primero, ultimo, queues) && Partition(proc, queues)
      requires p < NPROC && !proc[p].state.Runnable? && !q.state.Runnable? && q.prio < NPRIO
      requires q.sigprio == proc[p].sigprio
      requires Pids(proc[p := q], nextpid) && Heard(proc[p := q])
      modifies this`proc
      ensures Valid() && proc == old(proc)[p := q]
    {
      proc := proc[p := q];
      LinkedSame(old(proc), proc, primero, ultimo, queues);
      PartitionSame(old(proc), proc, queues);
    }

    method Yield(p: nat)
      requires Valid() && p < NPROC && proc[p].state.Running?
      modifies this`proc, this`primero, this`ultimo, this`queues
      ensures Valid() && queues == Enqueued(old(queues), p, proc[p].prio) && OnlyProc(old(proc), proc, p)
      ensures Settled(old(proc), proc)
      ensures proc[p] == old(proc)[p].(state := Runnable, sigprio := proc[p].sigprio)
    {
      hide Pids, Heard, Linked, Partition, Enqueued, Settled;
      MakeRunnable(p);
      SettledIf(old(proc), proc, p);
    }

    /** sleep, from state = SLEEPING to the switch. Only wait sleeps on its own process, and only without a zombie
        child. */
    method Sleep(p: nat, chan: nat)
      requires Valid() && p < NPROC && proc[p].state.Running?
      requires chan == ProcChan(p) ==> forall c :: 0 <= c < NPROC && proc[c].state.Zombie? ==> proc[c].parent != p
      modifies this`proc
      ensures Valid() && Settled(old(proc), proc)
      ensures proc == old(proc)[p := old(proc)[p].(chan := chan, state := Sleeping)]
    {
      PidsChange(proc, nextpid, p, proc[p].(chan := chan, state := Sleeping));
      HeardChange(proc, p, proc[p].(chan := chan, state := Sleeping));
      Change(p, proc[p].(chan := chan, state := Sleeping));
      SettledIf(old(proc), proc, p);
    }

    /** wakeup1: everyone asleep on chan becomes runnable, at the end of its own level, in table order. */
    method Wakeup1(chan: nat)
      requires Queued()
      modifies this`proc, this`primero, this`ultimo, this`queues
      ensures Queued() && (old(Heard(proc)) ==> Heard(proc))
      ensures forall x :: 0 <= x < NPROC ==> old(proc)[x].prio < NPRIO
      ensures queues == Woken(old(proc), old(queues), chan, NPROC) && Settled(old(proc), proc)
      ensures forall x {:trigger proc[x]} :: 0 <= x < NPROC ==>
                proc[x] == Awake(old(proc)[x], chan).(sigprio := proc[x].sigprio)
    {
      hide Pids, Heard, IsQueue, NoDup, Disjoint, Away, Enqueued;
      for p := 0 to NPROC
        invariant Queued() && (old(Heard(proc)) ==> Heard(proc)) && queues == Woken(old(proc), old(queues), chan, p)
        invariant forall x {:trigger proc[x]} :: 0 <= x < NPROC ==>
                    proc[x] == (if x < p then Awake(old(proc)[x], chan) else old(proc)[x]).(sigprio := proc[x].sigprio)
      {
        if SleepsOn(proc[p], chan) {
          MakeRunnable(p);
        }
      }
    }

    /** kill: the process with that pid is marked, and woken if it sleeps. */
    method Kill(pid: int) returns (r: int)
      requires Valid()
      modifies this`proc, this`primero, this`ultimo, this`queues
      ensures Valid() && Settled(old(proc), proc)
      ensures r == -1 ==> proc == old(proc) && queues == old(queues)
                          && forall x :: 0 <= x < NPROC ==> proc[x].pid != pid
      ensures r == 0 || r == -1
      ensures r == 0 ==> exists p: nat :: p < NPROC && FirstWith(old(proc), pid, p)
                                          && Killed(old(proc), proc, old(queues), queues, p)
    {
      hide Pids, Heard, IsQueue, NoDup, Disjoint, Away, Enqueued;
      SettledNone(proc);
      for p := 0 to NPROC
        invariant Valid() && proc == old(proc) && queues == old(queues) && forall x :: 0 <= x < p ==> proc[x].pid != pid
      {
        if proc[p].pid == pid {
          proc := proc[p := proc[p].(killed := true)];
          LinkedSame(old(proc), proc, primero, ultimo, queues);
          PartitionSame(old(proc), proc, queues);
          PidsSame(old(proc), proc, nextpid);
          HeardSame(old(proc), proc);
          if proc[p].state.Sleeping? {
            MakeRunnable(p);
          }
          SettledIf(old(proc), proc, p);
          assert FirstWith(old(proc), pid, p) && Killed(old(proc), proc, old(queues), queues, p);
          return 0;
        }
      }
      r := -1;
    }

    /** allocproc up to the release of the lock: the first unused slot becomes an embryo at priority 5. */
    method Allocproc() returns (p: nat)
      requires Valid()
      modifies this`proc, this`nextpid
      ensures Valid() && p <= NPROC
      ensures p == NIL ==> proc == old(proc) && nextpid == old(nextpid)
                           && forall x :: 0 <= x < NPROC ==> !proc[x].state.Unused?
      ensures p != NIL ==>
                && old(proc)[p].state.Unused? && (forall x :: 0 <= x < p ==> !old(proc)[x].state.Unused?)
                && proc == old(proc)[p := old(proc)[p].(state := Embryo, pid := old(nextpid), prio := 5)]
                && nextpid == old(nextpid) + 1
    {
      for i := 0 to NPROC
        invariant Valid() && proc == old(proc) && nextpid == old(nextpid)
        invariant forall x :: 0 <= x < i ==> !proc[x].state.Unused?
      {
        if proc[i].state.Unused? {
          PidsChange(proc, nextpid, i, proc[i].(state := Embryo, pid := nextpid, prio := 5));
          HeardChange(proc, i, proc[i].(state := Embryo, pid := nextpid, prio := 5));
          nextpid := nextpid + 1;
          Change(i, proc[i].(state := Embryo, pid := nextpid - 1, prio := 5));
          return i;
        }
      }
      p := NIL;
    }

    /** userinit: the first process, at priority 5, in a table with a free slot. */
    method Userinit()
      requires Valid() && |proc| == NPROC && proc[0].state.Unused?
      modifies this`proc, this`primero, this`ultimo, this`queues, this`nextpid
      ensures Valid() && |queues| == |old(queues)| == NPRIO && queues == Enqueued(old(queues), 0, 5)
      ensures OnlyProc(old(proc), proc, 0)
      ensures proc[0] == old(proc)[0].(state := Runnable, pid := old(nextpid), prio := 5, sigprio := proc[0].sigprio)
    {
      hide Pids, Heard, IsQueue, NoDup, Disjoint, Away, Enqueued, Partition, Linked;
      TableSize(proc, primero, ultimo, queues);
      var p := Allocproc();
      MakeRunnable(p);
      TableSize(proc, primero, ultimo, queues);
    }

    /** The next step of a fork by cur; others may have been at the table since the one before, but an embryo stays one
        with its pid, as `Settled` says of each of them. The slot is taken under the lock. Then, without the lock,
        it is given back or filled in: `stack` and `memory` say whether kalloc and copyuvm found what they need. In the
        end, under the lock again, the child is queued at the priority it has by then. */
    method ForkStep(f: Forking, cur: nat, stack: bool, memory: bool) returns (f': Forking)
      requires Valid() && cur < NPROC && proc[cur].state.Running? && !f.Returned?
      requires f.Filling? || f.Filled? ==> f.p < NPROC && proc[f.p].state.Embryo?
      modifies this`proc, this`primero, this`ultimo, this`queues, this`nextpid
      ensures Valid() && |proc| == |old(proc)| == NPROC && |old(queues)| == NPRIO
      ensures f'.Filling? || f'.Filled? ==> f'.p < NPROC && proc[f'.p].state.Embryo?
      ensures f.Entering? ==>
                && queues == old(queues)
                && (f' == Returned(-1) <==> forall x :: 0 <= x < NPROC ==> !old(proc)[x].state.Unused?)
                && (f' == Returned(-1) ==> proc == old(proc) && nextpid == old(nextpid))
                && (f' != Returned(-1) ==>
                      && f'.Filling? && old(proc)[f'.p].state.Unused? && nextpid == old(nextpid) + 1
                      && (forall x :: 0 <= x < f'.p ==> !old(proc)[x].state.Unused?)
                      && proc == old(proc)[f'.p := old(proc)[f'.p].(state := Embryo, pid := old(nextpid), prio := 5)])
      ensures f.Filling? ==>
                && queues == old(queues) && nextpid == old(nextpid)
                && (if stack && memory then
                      && f' == Filled(f.p)
                      && proc == old(proc)[f.p := old(proc)[f.p].(parent := cur, prio := old(proc)[cur].prio)]
                    else f' == Returned(-1) && proc == old(proc)[f.p := old(proc)[f.p].(state := Unused)])
      ensures f.Filled? ==>
                && f' == Returned(old(proc)[f.p].pid) && nextpid == old(nextpid) && old(proc)[f.p].prio < NPRIO
                && queues == Enqueued(old(queues), f.p, old(proc)[f.p].prio) && OnlyProc(old(proc), proc, f.p)
                && proc[f.p] == old(proc)[f.p].(state := Runnable, sigprio := proc[f.p].sigprio)
    {
      hide Pids, Heard, IsQueue, NoDup, Disjoint, Away, Enqueued, Partition, Linked;
      TableSize(proc, primero, ultimo, queues);
      match f
      case Entering =>
        var p := Allocproc();
        return if p == NIL then Returned(-1) else Filling(p);
      case Filling(p) =>
        var ok := stack && memory;
        ghost var q := if ok then proc[p].(parent := cur, prio := proc[cur].prio) else proc[p].(state := Unused);
        PidsChange(proc, nextpid, p, q);
        HeardChange(proc, p, q);
        if !ok {
          Change(p, proc[p].(state := Unused));
          return Returned(-1);
        }
        Change(p, proc[p].(parent := cur, prio := proc[cur].prio));
        return Filled(p);
      case Filled(p) =>
        var pid := proc[p].pid;
        MakeRunnable(p);
        return Returned(pid);
    }

    /** fork with nobody else at the table meanwhile. */
    method Fork(cur: nat, stack: bool, memory: bool) returns (pid: int)
      requires Valid() && cur < NPROC && proc[cur].state.Running?
      modifies this`proc, this`primero, this`ultimo, this`queues, this`nextpid
      ensures Valid() && Settled(old(proc), proc)
      ensures pid == -1 ==> queues == old(queues)
      ensures (forall x :: 0 <= x < NPROC ==> !old(proc)[x].state.Unused?) ==> pid == -1 && proc == old(proc)
      ensures pid == -1 ==> forall x {:trigger proc[x]} :: 0 <= x < NPROC ==> proc[x].state == old(proc)[x].state
      ensures pid != -1 ==> pid == old(nextpid) && stack && memory
      ensures pid != -1 ==> exists p: nat :: p < NPROC && Forked(old(proc), proc, old(queues), queues, cur, p, pid)
      ensures stack && memory && (exists x :: 0 <= x < NPROC && old(proc)[x].state.Unused?) ==> pid != -1
    {
      hide Pids, Heard, IsQueue, NoDup, Disjoint, Away, Enqueued, Partition, Linked;
      TableSize(proc, primero, ultimo, queues);
      PidsPositive(proc, nextpid, cur);
      var f := ForkStep(Entering, cur, stack, memory);
      if f.Returned? { return -1; }
      ghost var p := f.p;
      f := ForkStep(f, cur, stack, memory);
      if f.Returned? { return -1; }
      f := ForkStep(f, cur, stack, memory);
      pid := f.pid;
      SettledIf(old(proc), proc, p);
      assert Forked(old(proc), proc, old(queues), queues, cur, p, pid);
    }

    /** The loop of exit over the children of cur: they go to init, which is woken if one is a zombie. */
    method Abandon(cur: nat, init: nat)
      requires Valid() && cur < NPROC && init < NPROC && init != cur && proc[cur].state.Running?
      modifies this`proc, this`primero, this`ultimo, this`queues
      ensures Valid() && |proc| == |old(proc)| == NPROC && proc[cur].state.Running?
      ensures |old(queues)| == NPRIO && forall x :: 0 <= x < NPROC ==> old(proc)[x].prio < NPRIO
      ensures queues == if ZombieChild(old(proc), cur, NPROC) then Woken(old(proc), old(queues), ProcChan(init), NPROC)
                        else old(queues)
      ensures forall x {:trigger proc[x]} :: 0 <= x < NPROC ==>
                proc[x].parent == if old(proc)[x].parent == cur then init else old(proc)[x].parent
      ensures forall x {:trigger proc[x]} :: 0 <= x < NPROC ==>
                && proc[x].pid == old(proc)[x].pid
                && (proc[x].state == old(proc)[x].state || (SleepsOn(old(proc)[x], ProcChan(init))
                                                            && proc[x].state.Runnable?))
                && proc[x] == old(proc)[x].(state := proc[x].state, parent := proc[x].parent,
                                            sigprio := proc[x].sigprio)
      ensures forall x, c {:trigger proc[x], old(proc)[c]} ::
                0 <= x < NPROC && 0 <= c < NPROC && SleepsOn(old(proc)[x], ProcChan(init)) ==>
                old(proc)[c].parent == cur && old(proc)[c].state.Zombie? ==> proc[x].state.Runnable?
    {
      hide Pids, Heard, IsQueue, NoDup, Disjoint, Away, Linked, Partition, Woken;
      TableSize(proc, primero, ultimo, queues);
      for p := 0 to NPROC
        invariant Valid() && |proc| == NPROC && proc[cur].state.Running?
        invariant queues == if ZombieChild(old(proc), cur, p) then Woken(old(proc), old(queues), ProcChan(init), NPROC)
                            else old(queues)
        invariant !ZombieChild(old(proc), cur, p) ==> forall x {:trigger proc[x]} :: 0 <= x < NPROC ==>
                    proc[x].state == old(proc)[x].state
        invariant forall x {:trigger proc[x]} :: 0 <= x < NPROC ==>
                    proc[x].parent == if x < p && old(proc)[x].parent == cur then init else old(proc)[x].parent
        invariant forall x {:trigger proc[x]} :: 0 <= x < NPROC ==>
                    && (proc[x].state == old(proc)[x].state || (SleepsOn(old(proc)[x], ProcChan(init))
                                                                && proc[x].state.Runnable?))
                    && proc[x] == old(proc)[x].(state := proc[x].state, parent := proc[x].parent,
                                                sigprio := proc[x].sigprio)
        invariant forall x, c {:trigger proc[x], old(proc)[c]} ::
                    0 <= x < NPROC && 0 <= c < p && SleepsOn(old(proc)[x], ProcChan(init)) ==>
                    old(proc)[c].parent == cur && old(proc)[c].state.Zombie? ==> proc[x].state.Runnable?
      {
        if proc[p].parent == cur {
          ghost var proc1, queues1 := proc, queues;
          TableSize(proc, primero, ultimo, queues);
          if proc[p].state.Zombie? {
            if ZombieChild(old(proc), cur, p) {
              WokenNone(proc1, queues1, ProcChan(init), NPROC);
            } else {
              WokenSame(old(proc), proc1, queues1, ProcChan(init), NPROC);
            }
          }
          Adopt(p, init);
        }
      }
    }

    /** One child goes to init, which is woken if that child is a zombie. */
    method Adopt(p: nat, init: nat)
      requires Valid() && p < NPROC && init < NPROC
      modifies this`proc, this`primero, this`ultimo, this`queues
      ensures Valid() && |proc| == NPROC
      ensures |old(queues)| == NPRIO && |old(proc)| == NPROC && forall x :: 0 <= x < NPROC ==> old(proc)[x].prio < NPRIO
      ensures queues == if old(proc)[p].state.Zombie? then Woken(old(proc), old(queues), ProcChan(init), NPROC)
                        else old(queues)
      ensures forall x {:trigger proc[x]} :: 0 <= x < NPROC ==>
                && proc[x].parent == (if x == p then init else old(proc)[x].parent)
                && proc[x].state == (if old(proc)[p].state.Zombie? then Awake(old(proc)[x], ProcChan(init))
                                     else old(proc)[x]).state
                && proc[x] == old(proc)[x].(state := proc[x].state, parent := proc[x].parent,
                                            sigprio := proc[x].sigprio)
    {
      hide Pids, Heard, IsQueue, NoDup, Disjoint, Away, Linked, Partition, Woken;
      TableSize(proc, primero, ultimo, queues);
      ghost var before := proc;
      proc := proc[p := proc[p].(parent := init)];
      LinkedSame(before, proc, primero, ultimo, queues);
      PartitionSame(before, proc, queues);
      PidsSame(before, proc, nextpid);
      if proc[p].state.Zombie? {
        WokenSame(before, proc, queues, ProcChan(init), NPROC);
        Wakeup1(ProcChan(init));
        TableSize(proc, primero, ultimo, queues);
        HeardWoken(before, proc, init);
      } else {
        HeardSame(before, proc);
      }
    }

    /** exit, from the wakeup of the parent on. */
    method Exit(cur: nat, init: nat, status: int)
      requires Valid() && cur < NPROC && init < NPROC && init != cur && proc[cur].state.Running?
      requires proc[cur].parent != cur
      modifies this`proc, this`primero, this`ultimo, this`queues
      ensures Valid() && |proc| == NPROC
      ensures |old(queues)| == NPRIO && |old(proc)| == NPROC && forall x :: 0 <= x < NPROC ==> old(proc)[x].prio < NPRIO
      ensures queues == ExitQueues(old(proc), old(queues), cur, init) && EmbryosStay(old(proc), proc)
      ensures proc[cur] == old(proc)[cur].(state := Zombie, status := status, sigprio := proc[cur].sigprio)
      ensures forall x {:trigger proc[x]} :: 0 <= x < NPROC && x != cur ==>
                proc[x].parent == if old(proc)[x].parent == cur then init else old(proc)[x].parent
      ensures forall x {:trigger proc[x]} :: 0 <= x < NPROC
                                             && SleepsOn(old(proc)[x], ProcChan(old(proc)[cur].parent)) ==>
                                                  proc[x].state.Runnable?
      ensures forall x, c {:trigger proc[x], old(proc)[c]} ::
                0 <= x < NPROC && 0 <= c < NPROC && SleepsOn(old(proc)[x], ProcChan(init)) ==>
                old(proc)[c].parent == cur && old(proc)[c].state.Zombie? ==> proc[x].state.Runnable?
      ensures forall x {:trigger proc[x]} :: 0 <= x < NPROC && x != cur ==>
                && (proc[x].state == old(proc)[x].state || (old(proc)[x].state.Sleeping? && proc[x].state.Runnable?))
                && proc[x] == old(proc)[x].(state := proc[x].state, parent := proc[x].parent,
                                            sigprio := proc[x].sigprio)
    {
      hide Pids, Heard, IsQueue, NoDup, Disjoint, Away, Woken, Linked, Partition;
      TableSize(proc, primero, ultimo, queues);
      PidsChange(proc, nextpid, cur, proc[cur].(status := status));
      HeardChange(proc, cur, proc[cur].(status := status));
      Change(cur, proc[cur].(status := status));
      WokenSame(old(proc), proc, queues, ProcChan(proc[cur].parent), NPROC);
      Wakeup1(ProcChan(proc[cur].parent));
      ghost var mid := proc;
      TableSize(mid, primero, ultimo, queues);
      WokenSame(AwakeAll(old(proc), ProcChan(proc[cur].parent)), mid, queues, ProcChan(init), NPROC);
      assert ZombieChild(mid, cur, NPROC) == ZombieChild(old(proc), cur, NPROC) by {
        SameZombies(old(proc), mid, cur, NPROC);
      }
      Abandon(cur, init);
      TableSize(proc, primero, ultimo, queues);
      forall x, c {:trigger proc[x], old(proc)[c]} | 0 <= x < NPROC && 0 <= c < NPROC
                                                     && SleepsOn(old(proc)[x], ProcChan(init))
        ensures old(proc)[c].parent == cur && old(proc)[c].state.Zombie? ==> proc[x].state.Runnable?
      {
        assert mid[c].parent == old(proc)[c].parent && (old(proc)[c].state.Zombie? ==> mid[c].state.Zombie?);
        assert mid[x].state.Runnable? || SleepsOn(mid[x], ProcChan(init));
      }
      assert proc[cur].parent < NPROC ==> !SleepsOn(mid[proc[cur].parent], ProcChan(proc[cur].parent));
      PidsChange(proc, nextpid, cur, proc[cur].(state := Zombie));
      HeardChange(proc, cur, proc[cur].(state := Zombie));
      Change(cur, proc[cur].(state := Zombie));
    }

    /** One pass of wait: the first zombie child is reaped; without any, the caller gets -1 or goes to sleep. */
    method Wait(cur: nat) returns (r: WaitResult)
      requires Valid() && cur < NPROC && proc[cur].state.Running?
      modifies this`proc
      ensures Valid() && |proc| == |old(proc)| == NPROC && EmbryosStay(old(proc), proc)
      ensures !r.Reaped? ==> ZombiesStay(old(proc), proc)
      ensures r.Reaped? <==> exists x :: 0 <= x < NPROC && old(proc)[x].parent == cur && old(proc)[x].state.Zombie?
      ensures r.Reaped? ==>
                exists x: nat :: x < NPROC && Buried(old(proc), proc, cur, x)
                                 && r == Reaped(old(proc)[x].pid, old(proc)[x].status)
      ensures r.NoChildren? ==> proc == old(proc)
      ensures !r.Reaped? ==>
                (r.NoChildren? <==> old(proc)[cur].killed || forall x :: 0 <= x < NPROC ==> old(proc)[x].parent != cur)
      ensures r.Slept? ==> proc == old(proc)[cur := old(proc)[cur].(chan := ProcChan(cur), state := Sleeping)]
    {
      hide Pids, Heard, IsQueue, NoDup, Disjoint, Away, Linked, Partition;
      TableSize(proc, primero, ultimo, queues);
      var havekids := false;
      for p := 0 to NPROC
        invariant Valid() && proc == old(proc)
        invariant havekids <==> exists x :: 0 <= x < p && proc[x].parent == cur
        invariant forall x :: 0 <= x < p ==> !(proc[x].parent == cur && proc[x].state.Zombie?)
      {
        if proc[p].parent == cur {
          havekids := true;
          if proc[p].state.Zombie? {
            r := Reaped(proc[p].pid, proc[p].status);
            PidsPositive(proc, nextpid, p);
            PidsChange(proc, nextpid, p, proc[p].(pid := 0, parent := NIL, killed := false, state := Unused));
            HeardChange(proc, p, proc[p].(pid := 0, parent := NIL, killed := false, state := Unused));
            Change(p, proc[p].(pid := 0, parent := NIL, killed := false, state := Unused));
            assert Buried(old(proc), proc, cur, p);
            return;
          }
        }
      }
      if !havekids || proc[cur].killed { return NoChildren; }
      Sleep(cur, ProcChan(cur));
      r := Slept;
    }

    /** Whatever has happened since the child in slot x died, as long as it is the first dead child of cur: wait returns
        its pid and status and frees the slot, and no other. */
    method Reap(cur: nat, x: nat, ghost pid: int, ghost status: int) returns (r: WaitResult)
      requires Valid() && cur < NPROC && proc[cur].state.Running? && x < NPROC && Dead(proc, x, cur, pid, status)
      requires forall y :: 0 <= y < x && proc[y].state.Zombie? ==> proc[y].parent != cur
      modifies this`proc
      ensures Valid() && r == Reaped(pid, status) && |old(proc)| == NPROC
      ensures proc == old(proc)[x := old(proc)[x].(pid := 0, parent := NIL, killed := false, state := Unused)]
    {
      hide Pids, Heard, IsQueue, NoDup, Disjoint, Away, Linked, Partition;
      TableSize(proc, primero, ultimo, queues);
      r := Wait(cur);
      ghost var y: nat :| y < NPROC && Buried(old(proc), proc, cur, y)
                          && r == Reaped(old(proc)[y].pid, old(proc)[y].status);
      assert y == x;
    }

    /** exit by a child and wait by its parent, running on another processor. */
    method ExitThenReap(cur: nat, init: nat, status: int) returns (r: WaitResult)
      requires Valid() && cur < NPROC && init < NPROC && init != cur && proc[cur].state.Running?
      requires var p := proc[cur].parent; p < NPROC && p != cur && proc[p].state.Running?
      requires forall y :: 0 <= y < cur && proc[y].state.Zombie? ==>
                 proc[y].parent != proc[cur].parent && (proc[y].parent == cur ==> init != proc[cur].parent)
      modifies this`proc, this`primero, this`ultimo, this`queues
      ensures Valid() && |old(proc)| == |proc| == NPROC
      ensures r == Reaped(old(proc)[cur].pid, status) && proc[cur].state.Unused?
    {
      hide Pids, Heard, IsQueue, NoDup, Disjoint, Away, Linked, Partition, ExitQueues;
      TableSize(proc, primero, ultimo, queues);
      var p := proc[cur].parent;
      Exit(cur, init, status);
      r := Reap(p, cur, old(proc)[cur].pid, status);
    }

    /** The walk of setNewPrio along level l to p, which is not the head: the process before it. NIL when the walk comes
        to the null process and would go on through it, which is when p does not wait there. */
    method Previous(p: nat, l: nat) returns (anterior: nat)
      requires Linked(proc, primero, ultimo, queues) && l < NPRIO && p < NPROC && primero[l] != p
      ensures anterior == NIL <==> p !in queues[l]
      ensures anterior != NIL ==>
                exists k: nat :: 0 < k < |queues[l]| && queues[l][k] == p && queues[l][k - 1] == anterior
    {
      hide IsQueue, NoDup, Disjoint, Linked;
      LevelFacts(proc, primero, ultimo, queues, l);
      if primero[l] == NIL { return NIL; }
      anterior := proc[primero[l]].sigprio;
      var actual := primero[l];
      ghost var i := 0;
      while actual != p
        invariant 0 <= i < |queues[l]| && actual == queues[l][i] && (i > 0 ==> anterior == queues[l][i - 1])
        invariant p !in queues[l][..i]
        decreases |queues[l]| - i
      {
        LinkAt(proc, primero, ultimo, queues, l, i);
        anterior := actual;
        actual := proc[actual].sigprio;
        assert queues[l][..i + 1] == queues[l][..i] + [queues[l][i]];
        if actual == NIL {
          NextTo(queues[l], i);
          assert queues[l][..i + 1] == queues[l];
          return NIL;
        }
        i := i + 1;
      }
    }

    /** setNewPrio under its lock; l is the level of p as it was read before the lock was taken. Unless p waits at that
        level, and the new level exists, the code goes through a null process or outside the table (`wild`, where the
        model stops). Behind the head, the code drops the last process's link by storing null in ultimo instead of the
        new last process, so the table survives exactly when p is not such a process. */
    method SetNewPrio(p: nat, l: nat, prio: nat) returns (wild: bool)
      requires Valid() && p < NPROC && l < NPRIO
      modifies this`proc, this`primero, this`ultimo, this`queues
      ensures |old(proc)| == NPROC && |old(primero)| == |old(ultimo)| == NPRIO
      ensures wild <==> !(old(proc)[p].state.Runnable? && old(proc)[p].prio == l && prio < NPRIO)
      ensures !wild ==>
                && |primero| == |ultimo| == NPRIO && Repriced(old(proc), proc, p, prio)
                && (Sound(proc, primero, ultimo) <==> old(primero)[l] == p || old(ultimo)[l] != p)
      ensures !wild && Sound(proc, primero, ultimo) ==> Valid() && Requeued(old(queues), queues, l, p, prio)
      ensures !wild && !Sound(proc, primero, ultimo) ==> TailLost(old(primero), primero, ultimo, l, p, prio)
    {
      hide Pids, Heard, IsQueue, NoDup, Disjoint, Away, Linked, Partition, Remove, Enqueued, Sound, Moved, TailLost;
      TableSize(proc, primero, ultimo, queues);
      LevelFacts(proc, primero, ultimo, queues, l);
      Waits(proc, queues, p, l);
      wild := prio >= NPRIO;
      if primero[l] == p {
        if wild { return; }
        MoveHead(p, prio);
      } else {
        var anterior := Previous(p, l);
        wild := wild || anterior == NIL;
        if wild { return; }
        ghost var k: nat :| 0 < k < |queues[l]| && queues[l][k] == p && queues[l][k - 1] == anterior;
        SamePlace(queues[l], k, |queues[l]| - 1);
        MoveBehind(p, prio, anterior, k);
      }
      ValidIsSound(proc, primero, ultimo, queues);
    }

    /** setNewPrio on the head of its level. */
    method MoveHead(p: nat, prio: nat)
      requires Valid() && p < NPROC && proc[p].state.Runnable? && prio < NPRIO && proc[p].prio < NPRIO
      requires primero[proc[p].prio] == p
      modifies this`proc, this`primero, this`ultimo, this`queues
      ensures Valid() && |primero| == |ultimo| == NPRIO
      ensures OnlyProc(old(proc), proc, p) && proc[p] == old(proc)[p].(prio := prio, sigprio := proc[p].sigprio)
      ensures |old(queues)[old(proc)[p].prio]| > 0 && old(queues)[old(proc)[p].prio][0] == p
      ensures queues == Moved(old(queues), old(proc)[p].prio, 0, prio)
    {
      hide Pids, Heard, IsQueue, NoDup, Disjoint, Away, Linked, Partition, Remove, Enqueued, Moved;
      TableSize(proc, primero, ultimo, queues);
      ghost var proc0, queues0, l := proc, queues, proc[p].prio;
      LevelFacts(proc, primero, ultimo, queues, l);
      var _ := QuitarProc(p, proc[p].prio);
      LevelFacts(proc, primero, ultimo, queues, prio);
      InsertProc(p, prio);
      ghost var proc1 := proc;
      proc := proc[p := proc[p].(prio := prio)];
      LinkedSame(proc1, proc, primero, ultimo, queues);
      RemoveHead(queues0[l]);
      MovedIs(queues0, l, 0, prio);
      PartitionMoved(proc0, proc, queues0, l, 0, prio);
      PidsSame(proc0, proc, nextpid);
      HeardSame(proc0, proc);
    }

    /** setNewPrio behind the head, at place k of the level. */
    method MoveBehind(p: nat, prio: nat, anterior: nat, ghost k: nat)
      requires Valid() && p < NPROC && proc[p].state.Runnable? && prio < NPRIO && proc[p].prio < NPRIO
      requires 0 < k < |queues[proc[p].prio]| && queues[proc[p].prio][k] == p && queues[proc[p].prio][k - 1] == anterior
      modifies this`proc, this`primero, this`ultimo, this`queues
      ensures |primero| == |ultimo| == NPRIO
      ensures OnlyProc(old(proc), proc, p) && proc[p] == old(proc)[p].(prio := prio, sigprio := proc[p].sigprio)
      ensures k < |old(queues)[old(proc)[p].prio]| - 1 ==>
                Valid() && queues == Moved(old(queues), old(proc)[p].prio, k, prio)
      ensures k == |old(queues)[old(proc)[p].prio]| - 1 ==>
                !Sound(proc, primero, ultimo) && TailLost(old(primero), primero, ultimo, old(proc)[p].prio, p, prio)
    {
      hide Pids, Heard, IsQueue, NoDup, Disjoint, Away, Linked, Partition, Remove, Enqueued, Sound, Moved, NextIn;
      TableSize(proc, primero, ultimo, queues);
      ghost var proc0, queues0 := proc, queues;
      var l := proc[p].prio;
      LevelFacts(proc, primero, ultimo, queues, l);
      LevelFacts(proc, primero, ultimo, queues, prio);
      LinkAt(proc, primero, ultimo, queues, l, k);
      LinkAt(proc, primero, ultimo, queues, l, k - 1);
      SamePlace(queues[l], k - 1, k);
      var actual := p;
      NextTo(queues[l], k);
      proc := proc[anterior := proc[anterior].(sigprio := proc[actual].sigprio)];
      if proc[anterior].sigprio == NIL {
        ultimo := ultimo[l := proc[anterior].sigprio];
      }
      proc := proc[actual := proc[actual].(sigprio := NIL, prio := prio)];
      MovedIs(queues0, l, k, prio);
      if k < |queues0[l]| - 1 {
        Unlinked(proc0, proc, primero, ultimo, queues0, l, k);
      }
      queues := queues[l := Remove(queues[l], k)];
      InsertProc(p, proc[actual].prio);
      if k < |queues0[l]| - 1 {
        PartitionMoved(proc0, proc, queues0, l, k, prio);
        PidsSame(proc0, proc, nextpid);
        HeardSame(proc0, proc);
      } else {
        MemberAt(proc0, queues0, l, 0);
        SamePlace(queues0[l], 0, k);
        LostUnsound(proc, primero, ultimo, l, p, prio, queues0[l][0]);
      }
    }

    /** getProcbyPID: the first slot with that pid; without one, the lock is not given back. */
    method GetProcByPid(pid: int) returns (p: nat)
      requires |proc| == NPROC && !locked
      modifies this`locked
      ensures p <= NIL && locked == (p == NIL)
      ensures p == NIL ==> forall x :: 0 <= x < NPROC ==> proc[x].pid != pid
      ensures p != NIL ==> FirstWith(proc, pid, p)
    {
      locked := true;
      p := 0;
      while p < NPROC
        invariant p <= NPROC && forall x :: 0 <= x < p ==> proc[x].pid != pid
      {
        if proc[p].pid == pid {
          locked := false;
          return;
        }
        p := p + 1;
      }
    }

    /** The store of sys_setprio for a process that was not runnable when it was tested, without the lock. The process
        may have been queued since; then it stays in the queue of its old level. */
    method StorePrio(p: nat, prio: nat)
      requires Valid() && p < NPROC
      modifies this`proc
      ensures |old(proc)| == NPROC && proc == old(proc)[p := old(proc)[p].(prio := prio)]
      ensures Sound(proc, primero, ultimo) <==>
                prio < NPRIO && (!old(proc)[p].state.Runnable? || prio == old(proc)[p].prio)
      ensures Sound(proc, primero, ultimo) ==> Valid()
    {
      hide Pids, Heard, IsQueue, NoDup, Disjoint, Away, Linked, Partition, Sound;
      TableSize(proc, primero, ultimo, queues);
      ghost var proc0 := proc;
      proc := proc[p := proc[p].(prio := prio)];
      if proc0[p].state.Runnable? && prio != proc0[p].prio {
        MisfiledUnsound(proc0, proc, primero, ultimo, queues, p);
      } else if prio >= NPRIO {
        NoSuchLevel(proc, primero, ultimo, p);
      } else {
        if proc0[p].state.Runnable? {
          assert proc == proc0;
        } else {
          PrioOnly(proc0, proc, primero, ultimo, queues, nextpid, p);
        }
        ValidIsSound(proc, primero, ultimo, queues);
      }
    }

    /** The next step of a sys_setprio call; anything may happen to the table between two of them. The two tests read
        the table without the lock. A step spoils the table, or leaves it, exactly when `Keeps` says so of the table as
        it stands when the step is taken. */
    method SetprioStep(c: Setprio, prio: nat) returns (c': Setprio, wild: bool)
      requires Valid() && !c.Finished? && c.p < NPROC && (c.Levelled? ==> c.l < NPRIO)
      modifies this`proc, this`primero, this`ultimo, this`queues
      ensures |old(proc)| == NPROC && |old(primero)| == |old(ultimo)| == NPRIO
      ensures !wild && Valid() <==> Keeps(old(proc), old(primero), old(ultimo), c, prio)
      ensures wild <==> c.Levelled? && !(old(proc)[c.p].state.Runnable? && old(proc)[c.p].prio == c.l && prio < NPRIO)
      ensures !wild && !Valid() ==> !Sound(proc, primero, ultimo)
      ensures c' == Following(old(proc), c) && (!wild ==> Settled(old(proc), proc))
      ensures c'.Finished? && !wild ==> Repriced(old(proc), proc, c.p, prio)
      ensures c.Tested? && !c.runnable ==> queues == old(queues)
      ensures c.Levelled? && !wild && Valid() ==> Requeued(old(queues), queues, c.l, c.p, prio)
      ensures !c'.Finished? ==> proc == old(proc) && primero == old(primero) && ultimo == old(ultimo)
                                && queues == old(queues) && (c'.Levelled? ==> c'.l < NPRIO)
    {
      hide Pids, Heard, IsQueue, NoDup, Disjoint, Away, Linked, Partition, Sound, Moved, TailLost;
      TableSize(proc, primero, ultimo, queues);
      ValidIsSound(proc, primero, ultimo, queues);
      c', wild := Following(proc, c), false;
      match c
      case Looked(p) =>
      case Tested(p, true) =>
      case Tested(p, false) =>
        StorePrio(p, prio);
        ValidIsSound(proc, primero, ultimo, queues);
      case Levelled(p, l) =>
        wild := SetNewPrio(p, l, prio);
        ValidIsSound(proc, primero, ultimo, queues);
    }

    /** sys_setprio with nobody else at the table meanwhile. The code does not check the priority: for a runnable
        process a level that does not exist is written to, and any other process is left with a priority it cannot be
        queued at. */
    method SysSetprio(pid: int, prio: nat) returns (r: int, wild: bool)
      requires Valid() && !locked
      modifies this
      ensures r == -1 || r == prio
      ensures r == -1 ==>
                && !wild && Valid() && locked && proc == old(proc) && queues == old(queues)
                && forall x :: 0 <= x < NPROC ==> proc[x].pid != pid
      ensures r != -1 ==> !locked && |old(proc)| == NPROC && |old(primero)| == |old(ultimo)| == NPRIO
      ensures r != -1 ==>
                exists p: nat :: p < NPROC && old(proc)[p].prio < NPRIO && FirstWith(old(proc), pid, p)
                                 && (wild <==> old(proc)[p].state.Runnable? && prio >= NPRIO)
                                 && (!wild ==> Repriced(old(proc), proc, p, prio))
                                 && (!wild && Valid() <==>
                                       prio < NPRIO && !(old(proc)[p].state.Runnable?
                                                         && old(primero)[old(proc)[p].prio] != p
                                                         && old(ultimo)[old(proc)[p].prio] == p))
                                 && (!wild && Valid() ==>
                                       if old(proc)[p].state.Runnable?
                                       then Requeued(old(queues), queues, old(proc)[p].prio, p, prio)
                                       else queues == old(queues))
    {
      hide Pids, Heard, IsQueue, NoDup, Disjoint, Away, Linked, Partition, Sound, Moved;
      TableSize(proc, primero, ultimo, queues);
      var p := GetProcByPid(pid);
      if p == NIL { return -1, false; }
      r := prio;
      var c;
      c, wild := SetprioStep(Looked(p), prio);
      if c.runnable { c, wild := SetprioStep(c, prio); }
      c, wild := SetprioStep(c, prio);
    }
  }

  /** Where a fork is: at its start, with a slot to fill in, with the slot filled in, or back with its result. */
  datatype Forking = Entering | Filling(p: nat) | Filled(p: nat) | Returned(pid: int)

  /** What belongs to someone else is left to them: a slot that a fork has taken stays an embryo with its pid, and a
      dead process stays a zombie, with all that its parent is to be told. */
  ghost predicate Settled(proc: seq<Proc>, proc': seq<Proc>)
  {
    |proc| == |proc'| == NPROC && EmbryosStay(proc, proc') && ZombiesStay(proc, proc')
  }

  ghost predicate EmbryosStay(proc: seq<Proc>, proc': seq<Proc>)
    requires |proc| == |proc'| == NPROC
  {
    forall x {:trigger proc'[x]} :: 0 <= x < NPROC && proc[x].state.Embryo? ==>
      proc'[x].state.Embryo? && proc'[x].pid == proc[x].pid
  }

  ghost predicate ZombiesStay(proc: seq<Proc>, proc': seq<Proc>)
    requires |proc| == |proc'| == NPROC
  {
    forall x {:trigger proc'[x]} :: 0 <= x < NPROC && proc[x].state.Zombie? ==>
      && proc'[x].state.Zombie? && proc'[x].parent == proc[x].parent && proc'[x].pid == proc[x].pid
      && proc'[x].status == proc[x].status
  }

  lemma SettledNone(proc: seq<Proc>)
    requires |proc| == NPROC
    ensures Settled(proc, proc)
  {
  }

  lemma SettledIf(proc: seq<Proc>, proc': seq<Proc>, p: nat)
    requires p < NPROC && OnlyProc(proc, proc', p)
    requires (!proc[p].state.Embryo? && !proc[p].state.Zombie?)
             || (proc'[p].state == proc[p].state && proc'[p].pid == proc[p].pid && proc'[p].parent == proc[p].parent
                 && proc'[p].status == proc[p].status)
    ensures Settled(proc, proc')
  {
  }

  /** Slot x holds a dead child of parent. */
  predicate Dead(proc: seq<Proc>, x: nat, parent: nat, pid: int, status: int)
    requires x < |proc|
  {
    proc[x].state.Zombie? && proc[x].parent == parent && proc[x].pid == pid && proc[x].status == status
  }

  /** Where a sys_setprio call is: it has the process, it has tested its state, or it has read its level for
      setNewPrio. */
  datatype Setprio = Looked(p: nat) | Tested(p: nat, runnable: bool) | Levelled(p: nat, l: nat) | Finished

  /** Process p has the new priority; links aside, nothing else has changed. */
  ghost predicate Repriced(proc: seq<Proc>, proc': seq<Proc>, p: nat, prio: nat)
    requires |proc| == NPROC && p < NPROC
  {
    OnlyProc(proc, proc', p) && proc'[p] == proc[p].(prio := prio, sigprio := proc'[p].sigprio)
  }

  /** Process p has gone from its place at level l to the end of level prio. */
  ghost predicate Requeued(queues: seq<seq<nat>>, queues': seq<seq<nat>>, l: nat, p: nat, prio: nat)
  {
    l < |queues| && prio < |queues|
    && exists k: nat :: k < |queues[l]| && queues[l][k] == p && queues' == Moved(queues, l, k, prio)
  }

  function Following(proc: seq<Proc>, c: Setprio): (r: Setprio)
    requires !c.Finished? && c.p < |proc|
  {
    match c
    case Looked(p) => Tested(p, proc[p].state.Runnable?)
    case Tested(p, runnable) => if runnable then Levelled(p, proc[p].prio) else Finished
    case Levelled(_, _) => Finished
  }

  /** The next step of the call leaves a sound table: at the store, p does not wait at another level; under the lock of
      setNewPrio, p waits at the level that was read and is not its tail behind the head. */
  predicate Keeps(proc: seq<Proc>, primero: seq<nat>, ultimo: seq<nat>, c: Setprio, prio: nat)
    requires |proc| == NPROC && |primero| == |ultimo| == NPRIO && !c.Finished? && c.p < NPROC
  {
    match c
    case Looked(_) => true
    case Tested(p, runnable) =>
      runnable || (prio < NPRIO && (!proc[p].state.Runnable? || prio == proc[p].prio))
    case Levelled(p, l) =>
      && l < NPRIO && proc[p].state.Runnable? && proc[p].prio == l && prio < NPRIO
      && (primero[l] == p || ultimo[l] != p)
  }

  lemma {:induction false} SameQueue(proc: seq<Proc>, first: nat, last: nat, q: seq<nat>, last': nat, q': seq<nat>)
    requires |proc| == NPROC && IsQueue(proc, first, last, q) && IsQueue(proc, first, last', q')
    ensures q == q'
    decreases |q|
  {
    if q != [] {
      assert q' != [];
      SameNext(proc, first, last, q);
      SameNext(proc, first, last', q');
      assert q[0] == q'[0];
      var f := proc[first].sigprio;
      SameQueue(proc, f, if |q| == 1 then NIL else last, q[1..], if |q'| == 1 then NIL else last', q'[1..]);
      assert q == [q[0]] + q[1..] && q' == [q'[0]] + q'[1..];
    }
  }

  lemma SameNext(proc: seq<Proc>, first: nat, last: nat, q: seq<nat>)
    requires |proc| == NPROC && q != [] && IsQueue(proc, first, last, q)
    ensures first < NPROC && IsQueue(proc, proc[first].sigprio, if |q| == 1 then NIL else last, q[1..])
  {
    assert proc[q[0]].sigprio == NextIn(q, 0);
    forall i {:trigger NextIn(q[1..], i)} | 0 <= i < |q| - 1 ensures proc[q[1..][i]].sigprio == NextIn(q[1..], i) {
      assert proc[q[i + 1]].sigprio == NextIn(q, i + 1);
    }
  }

  /** A process that waits at one level with the priority of another: no ten queues make sense of that. */
  lemma MisfiledUnsound(proc: seq<Proc>, proc': seq<Proc>, primero: seq<nat>, ultimo: seq<nat>, queues: seq<seq<nat>>,
                        p: nat)
    requires Linked(proc, primero, ultimo, queues) && Partition(proc, queues) && |proc'| == NPROC
    requires p < NPROC && proc[p].state.Runnable? && proc' == proc[p := proc[p].(prio := proc'[p].prio)]
    requires proc'[p].prio != proc[p].prio
    ensures !Sound(proc', primero, ultimo)
  {
    hide IsQueue, NoDup, Disjoint;
    var l := proc[p].prio;
    forall r ensures !(Linked(proc', primero, ultimo, r) && Partition(proc', r)) {
      if Linked(proc', primero, ultimo, r) && Partition(proc', r) {
        LinkedSame(proc, proc', primero, ultimo, queues);
        SameQueue(proc', primero[l], ultimo[l], queues[l], ultimo[l], r[l]);
        assert false;
      }
    }
  }

  lemma NoSuchLevel(proc: seq<Proc>, primero: seq<nat>, ultimo: seq<nat>, p: nat)
    requires |proc| == NPROC && p < NPROC && proc[p].prio >= NPRIO
    ensures !Sound(proc, primero, ultimo)
  {
  }

  /** p waits at level l if and only if it is runnable with that priority. */
  lemma Waits(proc: seq<Proc>, queues: seq<seq<nat>>, p: nat, l: nat)
    requires Partition(proc, queues) && p < NPROC && l < NPRIO
    ensures p in queues[l] <==> proc[p].state.Runnable? && proc[p].prio == l
  {
  }

  /** The priority of a process that is not queued: any level will do, and nothing else. */
  lemma PrioOnly(proc: seq<Proc>, proc': seq<Proc>, primero: seq<nat>, ultimo: seq<nat>, queues: seq<seq<nat>>,
                 nextpid: int, p: nat)
    requires Linked(proc, primero, ultimo, queues) && Partition(proc, queues) && Pids(proc, nextpid) && Heard(proc)
    requires p < NPROC && !proc[p].state.Runnable? && |proc'| == NPROC
    requires proc' == proc[p := proc[p].(prio := proc'[p].prio)]
    ensures Linked(proc', primero, ultimo, queues) && Pids(proc', nextpid) && Heard(proc')
    ensures Partition(proc', queues) <==> proc'[p].prio < NPRIO
  {
    hide IsQueue, NoDup, Disjoint;
    LinkedSame(proc, proc', primero, ultimo, queues);
    PidsSame(proc, proc', nextpid);
    HeardSame(proc, proc');
    if proc'[p].prio < NPRIO { PartitionSame(proc, proc', queues); }
  }

  lemma ValidIsSound(proc: seq<Proc>, primero: seq<nat>, ultimo: seq<nat>, queues: seq<seq<nat>>)
    ensures Linked(proc, primero, ultimo, queues) && Partition(proc, queues) ==> Sound(proc, primero, ultimo)
  {
  }

  /** A table setNewPrio spoils: two processes wait at level 5 and the second is to move. */
  lemma TailExample() returns (proc: seq<Proc>, primero: seq<nat>, ultimo: seq<nat>, queues: seq<seq<nat>>)
    ensures Linked(proc, primero, ultimo, queues) && Partition(proc, queues) && Pids(proc, 3) && Heard(proc)
    ensures proc[1].state.Runnable? && proc[1].prio == 5 && primero[5] != 1 && ultimo[5] == 1
  {
    var none := Proc(Unused, 0, NIL, 0, false, 0, 5, NIL);
    var proc0: seq<Proc> := seq(NPROC, _ => none);
    var free: seq<nat> := seq(NPRIO, _ => NIL);
    var empty: seq<seq<nat>> := seq(NPRIO, _ => []);
    queues := empty[5 := [0, 1]];
    proc := proc0[0 := none.(state := Runnable, pid := 1, sigprio := 1)][1 := none.(state := Runnable, pid := 2)];
    primero, ultimo := free[5 := 0], free[5 := 1];
  }

  /** That table is reached: the first process is picked, forks twice, and its second child is given another
      priority. No ten queues make sense of the links after that. */
  method SpoilTable() returns (t: ProcTable)
    ensures fresh(t) && !Sound(t.proc, t.primero, t.ultimo)
    ensures |t.proc| == NPROC && t.proc[1].state.Runnable? && t.proc[2].state.Runnable? && t.proc[1].prio == 5
    ensures t.proc[2].prio == 3
  {
    hide Pids, Heard, IsQueue, NoDup, Disjoint, Away, Linked, Partition, Sound, Moved, TailLost;
    t := TwoChildren();
    LevelFacts(t.proc, t.primero, t.ultimo, t.queues, 5);
    MemberAt(t.proc, t.queues, 5, 0);
    MemberAt(t.proc, t.queues, 5, 1);
    var _ := t.SetNewPrio(2, 5, 3);
  }

  /** A running process is tested, yields, and is then stored to: it waits at level 5 with priority 3. */
  method SpoilByStore() returns (t: ProcTable)
    ensures fresh(t) && !Sound(t.proc, t.primero, t.ultimo)
  {
    hide Pids, Heard, IsQueue, NoDup, Disjoint, Away, Linked, Partition, Sound;
    t := FirstRuns();
    var c, wild := t.SetprioStep(Looked(0), 3);
    t.Yield(0);
    TableSize(t.proc, t.primero, t.ultimo, t.queues);
    c, wild := t.SetprioStep(c, 3);
  }

  /** A runnable process is tested and its level read; it is picked before setNewPrio has the lock, and the walk along
      its old level goes through the null process. */
  method WalkOffTheEnd() returns (t: ProcTable, wild: bool)
    ensures fresh(t) && wild
  {
    hide Pids, Heard, IsQueue, NoDup, Disjoint, Away, Linked, Partition, Sound;
    t := TwoChildren();
    TableSize(t.proc, t.primero, t.ultimo, t.queues);
    Waits(t.proc, t.queues, 1, 5);
    var c;
    c, wild := t.SetprioStep(Looked(1), 3);
    c, wild := t.SetprioStep(c, 3);
    var p := t.Pick();
    assert p == 1;
    TableSize(t.proc, t.primero, t.ultimo, t.queues);
    c, wild := t.SetprioStep(c, 3);
  }

  /** The first process, picked. */
  method FirstRuns() returns (t: ProcTable)
    ensures fresh(t) && t.Valid() && |t.proc| == NPROC && |t.queues| == NPRIO
    ensures t.proc[0].state.Running? && t.proc[0].prio == 5 && forall x :: 0 < x < NPROC ==> t.proc[x].state.Unused?
    ensures forall l :: 0 <= l < NPRIO ==> t.queues[l] == []
  {
    hide Pids, Heard, IsQueue, NoDup, Disjoint, Away, Linked, Partition;
    t := new ProcTable();
    TableSize(t.proc, t.primero, t.ultimo, t.queues);
    t.Userinit();
    TableSize(t.proc, t.primero, t.ultimo, t.queues);
    assert t.queues[5] == [0] && forall l :: 0 <= l < NPRIO && l != 5 ==> t.queues[l] == [];
    var p := t.Pick();
    assert p == 0;
    TableSize(t.proc, t.primero, t.ultimo, t.queues);
  }

  method TwoChildren() returns (t: ProcTable)
    ensures fresh(t) && t.Valid() && |t.queues| == NPRIO && t.queues[5] == [1, 2]
    ensures forall l :: 0 <= l < NPRIO && l != 5 ==> t.queues[l] == []
  {
    hide Pids, Heard, IsQueue, NoDup, Disjoint, Away, Linked, Partition;
    t := FirstRuns();
    ghost var proc1, queues1 := t.proc, t.queues;
    assert proc1[1].state.Unused?;
    var a := t.Fork(0, true, true);
    TableSize(t.proc, t.primero, t.ultimo, t.queues);
    ghost var c: nat :| c < NPROC && Forked(proc1, t.proc, queues1, t.queues, 0, c, a);
    assert c == 1 && t.queues[5] == [1];
    ghost var proc2, queues2 := t.proc, t.queues;
    assert proc2[2].state.Unused?;
    var b := t.Fork(0, true, true);
    TableSize(t.proc, t.primero, t.ultimo, t.queues);
    ghost var d: nat :| d < NPROC && Forked(proc2, t.proc, queues2, t.queues, 0, d, b);
    assert d == 2 && t.queues[5] == [1, 2];
  }

  /** What is left of level l when its last process is moved from behind the head: nothing insertProc could find. */
  predicate TailLost(primero: seq<nat>, primero': seq<nat>, ultimo': seq<nat>, l: nat, p: nat, prio: nat)
    requires |primero| == |primero'| == |ultimo'| == NPRIO && l < NPRIO
  {
    if prio == l then primero'[l] == p && ultimo'[l] == p else primero'[l] == primero[l] && ultimo'[l] == NIL
  }

  /** A level whose ultimo is null, or is one process, while others wait in it. */
  lemma LostUnsound(proc: seq<Proc>, primero: seq<nat>, ultimo: seq<nat>, l: nat, p: nat, prio: nat, x: nat)
    requires |proc| == NPROC && |primero| == |ultimo| == NPRIO && l < NPRIO && x < NPROC && x != p
    requires proc[x].state.Runnable? && proc[x].prio == l
    requires if prio == l then primero[l] == p && ultimo[l] == p else ultimo[l] == NIL
    ensures !Sound(proc, primero, ultimo)
  {
    forall queues ensures !(Linked(proc, primero, ultimo, queues) && Partition(proc, queues)) {
      if Linked(proc, primero, ultimo, queues) && Partition(proc, queues) {
        assert x in queues[l];
        assert IsQueue(proc, primero[l], ultimo[l], queues[l]) && NoDup(queues[l]);
        var k :| 0 <= k < |queues[l]| && queues[l][k] == x;
      }
    }
  }

  lemma SamePlace(q: seq<nat>, i: nat, k: nat)
    requires NoDup(q) && i < |q| && k < |q|
    ensures q[i] == q[k] <==> i == k
  {
  }

  lemma MemberAt(proc: seq<Proc>, queues: seq<seq<nat>>, l: nat, i: nat)
    requires Partition(proc, queues) && l < NPRIO && i < |queues[l]|
    ensures queues[l][i] < NPROC && proc[queues[l][i]].state.Runnable? && proc[queues[l][i]].prio == l
  {
    assert queues[l][i] in queues[l];
  }

  lemma NextTo(q: seq<nat>, k: nat)
    requires k < |q| && forall i :: 0 <= i < |q| ==> q[i] < NPROC
    ensures NextIn(q, k) == NIL <==> k == |q| - 1
  {
  }

  lemma LinkAt(proc: seq<Proc>, primero: seq<nat>, ultimo: seq<nat>, queues: seq<seq<nat>>, l: nat, i: nat)
    requires Linked(proc, primero, ultimo, queues) && l < NPRIO && i < |queues[l]|
    ensures queues[l][i] < NPROC && proc[queues[l][i]].sigprio == NextIn(queues[l], i)
  {
    assert IsQueue(proc, primero[l], ultimo[l], queues[l]);
  }

  lemma MovedIs(queues: seq<seq<nat>>, l: nat, k: nat, m: nat)
    requires l < |queues| && m < |queues| && k < |queues[l]|
    ensures Moved(queues, l, k, m) == Enqueued(queues[l := Remove(queues[l], k)], queues[l][k], m)
  {
  }

  lemma PartitionMoved(proc: seq<Proc>, proc': seq<Proc>, queues: seq<seq<nat>>, l: nat, k: nat, m: nat)
    requires Partition(proc, queues) && |proc'| == NPROC && l < NPRIO && m < NPRIO && k < |queues[l]|
    requires NoDup(queues[l]) && queues[l][k] < NPROC
    requires proc'[queues[l][k]].state.Runnable? && proc'[queues[l][k]].prio == m
    requires forall x :: 0 <= x < NPROC && x != queues[l][k] ==>
               proc'[x].state == proc[x].state && proc'[x].prio == proc[x].prio
    ensures Partition(proc', Moved(queues, l, k, m))
  {
    hide Partition, Remove, Enqueued, NoDup;
    PartitionSizes(proc, queues);
    var p := queues[l][k];
    var mid := proc[p := proc[p].(state := Running)];
    PartitionTake(proc, mid, queues, l, k);
    PartitionAdd(mid, proc', queues[l := Remove(queues[l], k)], p);
  }

  lemma PartitionSizes(proc: seq<Proc>, queues: seq<seq<nat>>)
    requires Partition(proc, queues)
    ensures |proc| == NPROC && |queues| == NPRIO && forall p :: 0 <= p < NPROC ==> proc[p].prio < NPRIO
  {
  }

  lemma LevelFacts(proc: seq<Proc>, primero: seq<nat>, ultimo: seq<nat>, queues: seq<seq<nat>>, l: nat)
    requires Linked(proc, primero, ultimo, queues) && l < NPRIO
    ensures |proc| == NPROC && |queues| == |primero| == |ultimo| == NPRIO && Disjoint(queues)
    ensures IsQueue(proc, primero[l], ultimo[l], queues[l]) && NoDup(queues[l])
    ensures queues[l] == [] ==> primero[l] == ultimo[l] == NIL
    ensures queues[l] != [] ==> primero[l] == queues[l][0] < NPROC && ultimo[l] == queues[l][|queues[l]| - 1] < NPROC
    ensures forall i :: 0 <= i < |queues[l]| ==> queues[l][i] < NPROC
  {
  }

  ghost predicate Buried(proc: seq<Proc>, proc': seq<Proc>, cur: nat, x: nat)
    requires |proc| == |proc'| == NPROC && x < NPROC
  {
    && proc[x].parent == cur && proc[x].state.Zombie?
    && (forall y :: 0 <= y < x ==> !(proc[y].parent == cur && proc[y].state.Zombie?))
    && proc' == proc[x := proc[x].(pid := 0, parent := NIL, killed := false, state := Unused)]
  }

  /** p is the first slot with that pid. */
  predicate FirstWith(proc: seq<Proc>, pid: int, p: nat)
    requires p < |proc|
  {
    proc[p].pid == pid && forall x :: 0 <= x < p ==> proc[x].pid != pid
  }

  lemma SameZombies(proc: seq<Proc>, proc': seq<Proc>, cur: nat, n: nat)
    requires n <= |proc| == |proc'|
    requires forall x {:trigger proc'[x]} :: 0 <= x < n ==>
               proc'[x].parent == proc[x].parent && proc'[x].state.Zombie? == proc[x].state.Zombie?
    ensures ZombieChild(proc', cur, n) == ZombieChild(proc, cur, n)
  {
    if c :| 0 <= c < n && proc[c].parent == cur && proc[c].state.Zombie? { assert proc'[c].state.Zombie?; }
  }

  ghost predicate Killed(proc: seq<Proc>, proc': seq<Proc>, queues: seq<seq<nat>>, queues': seq<seq<nat>>, p: nat)
    requires |proc| == |proc'| == NPROC && p < NPROC
  {
    && OnlyProc(proc, proc', p)
    && proc'[p] == proc[p].(killed := true, state := if proc[p].state.Sleeping? then Runnable
                                                     else proc[p].state, sigprio := proc'[p].sigprio)
    && |queues| == NPRIO && proc[p].prio < NPRIO && queues' ==
         if proc[p].state.Sleeping? then Enqueued(queues, p, proc[p].prio) else queues
  }

  ghost predicate Forked(proc: seq<Proc>, proc': seq<Proc>, queues: seq<seq<nat>>, queues': seq<seq<nat>>, cur: nat,
                         p: nat, pid: int)
    requires |proc| == |proc'| == NPROC && p < NPROC && cur < NPROC
  {
    && OnlyProc(proc, proc', p) && proc[p].state.Unused? && (forall x :: 0 <= x < p ==> !proc[x].state.Unused?)
    && |queues| == NPRIO && proc[cur].prio < NPRIO
    && proc'[p] == proc[p].(state := Runnable, pid := pid, parent := cur, prio := proc[cur].prio,
                            sigprio := proc'[p].sigprio)
    && queues' == Enqueued(queues, p, proc[cur].prio)
  }

  lemma TableSize(proc: seq<Proc>, primero: seq<nat>, ultimo: seq<nat>, queues: seq<seq<nat>>)
    requires Linked(proc, primero, ultimo, queues) && Partition(proc, queues)
    ensures |proc| == NPROC && |queues| == NPRIO && |primero| == |ultimo| == NPRIO
    ensures forall x :: 0 <= x < NPROC ==> proc[x].prio < NPRIO
  {
  }

  lemma PidsPositive(proc: seq<Proc>, nextpid: int, p: nat)
    requires Pids(proc, nextpid) && p < |proc|
    ensures nextpid > 0 && 0 <= proc[p].pid < nextpid
  {
  }

  lemma LastAway(proc: seq<Proc>, primero: seq<nat>, ultimo: seq<nat>, queues: seq<seq<nat>>, p: nat, l: nat)
    requires Linked(proc, primero, ultimo, queues) && Away(queues, p) && l < NPRIO
    ensures ultimo[l] != p || p == NIL
  {
    assert IsQueue(proc, primero[l], ultimo[l], queues[l]);
  }
}
