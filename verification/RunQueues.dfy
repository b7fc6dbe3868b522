/**
The ten run queues of proc.c, as values: singly linked through the sigprio field of the processes, with a first
and a last process each. `queues` is what the links spell out.
*/
module RunQueues {
  import opened Param

  const NPRIO := 10
  const NIL := NPROC  // the null process

  datatype State = Unused | Embryo | Sleeping | Runnable | Running | Zombie
  datatype Proc = Proc(state: State, pid: int, parent: nat, chan: nat, killed: bool, status: int, prio: nat,
                       sigprio: nat)

  /** What follows place i of q. */
  function NextIn(q: seq<nat>, i: nat): (p: nat) { if i + 1 < |q| then q[i + 1] else NIL }

  /** first and last bound the list q spelled out by the links. */
  ghost predicate IsQueue(proc: seq<Proc>, first: nat, last: nat, q: seq<nat>)
    requires |proc| == NPROC
  {
    && (forall i :: 0 <= i < |q| ==> q[i] < NPROC)
    && first == (if q == [] then NIL else q[0])
    && last == (if q == [] then NIL else q[|q| - 1])
    && (forall i {:trigger NextIn(q, i)} :: 0 <= i < |q| ==> proc[q[i]].sigprio == NextIn(q, i))
  }

  ghost predicate NoDup(q: seq<nat>)
  {
    forall i, j :: 0 <= i < j < |q| ==> q[i] != q[j]
  }

  ghost predicate Disjoint(queues: seq<seq<nat>>)
  {
    forall l, m, x: nat {:trigger x in queues[l], x in queues[m]} :: 0 <= l < m < |queues| && x in queues[l] ==>
      x !in queues[m]
  }

  /** p waits in no queue. */
  ghost predicate Away(queues: seq<seq<nat>>, p: nat)
  {
    forall m {:trigger queues[m]} :: 0 <= m < |queues| ==> p !in queues[m]
  }

  /** The links are ten separate lists without cycles. */
  ghost predicate Linked(proc: seq<Proc>, first: seq<nat>, last: seq<nat>, queues: seq<seq<nat>>)
  {
    && |proc| == NPROC && |first| == |last| == |queues| == NPRIO && Disjoint(queues)
    && (forall l :: 0 <= l < NPRIO ==> IsQueue(proc, first[l], last[l], queues[l]) && NoDup(queues[l]))
  }

  /** The queues hold exactly the runnable processes, each at its own priority. */
  ghost predicate Partition(proc: seq<Proc>, queues: seq<seq<nat>>)
  {
    && |proc| == NPROC && |queues| == NPRIO
    && (forall p :: 0 <= p < NPROC ==> proc[p].prio < NPRIO)
    && (forall p: nat :: p < NPROC && proc[p].state.Runnable? ==> p in queues[proc[p].prio])
    && (forall l, p: nat {:trigger p in queues[l]} :: 0 <= l < NPRIO && p in queues[l] ==>
          p < NPROC && proc[p].state.Runnable? && proc[p].prio == l)
  }

  /** The invariant of the table: some ten lists make sense of the links. */
  ghost predicate Sound(proc: seq<Proc>, first: seq<nat>, last: seq<nat>)
  {
    exists queues :: Linked(proc, first, last, queues) && Partition(proc, queues)
  }

  /* ---------------- what happens to the queues ---------------- */

  function Enqueued(queues: seq<seq<nat>>, p: nat, l: nat): (r: seq<seq<nat>>)
    requires l < |queues|
  {
    queues[l := queues[l] + [p]]
  }

  function Remove(q: seq<nat>, k: nat): (r: seq<nat>)
    requires k < |q|
  {
    q[..k] + q[k + 1..]
  }

  /** The process at place k of level l goes to the end of level m. */
  function Moved(queues: seq<seq<nat>>, l: nat, k: nat, m: nat): (r: seq<seq<nat>>)
    requires l < |queues| && m < |queues| && k < |queues[l]|
  {
    Enqueued(queues[l := Remove(queues[l], k)], queues[l][k], m)
  }

  /** The lowest-numbered non-empty level from l on. */
  function Lowest(queues: seq<seq<nat>>, l: nat): (r: nat)
    requires l <= |queues|
    ensures l <= r <= |queues| && (r < |queues| ==> queues[r] != [])
    ensures forall m :: l <= m < r ==> queues[m] == []
    decreases |queues| - l
  {
    if l == |queues| || queues[l] != [] then l else Lowest(queues, l + 1)
  }

  function Dispatched(queues: seq<seq<nat>>): (r: seq<seq<nat>>)
  {
    var l := Lowest(queues, 0);
    if l == |queues| then queues else queues[l := queues[l][1..]]
  }

  /* ---------------- the links keep up ---------------- */

  lemma QueueFrame(proc: seq<Proc>, proc': seq<Proc>, first: nat, last: nat, q: seq<nat>)
    requires |proc| == |proc'| == NPROC && IsQueue(proc, first, last, q)
    requires forall x: nat :: x < NPROC && x in q ==> proc'[x].sigprio == proc[x].sigprio
    ensures IsQueue(proc', first, last, q)
  {
    forall i {:trigger NextIn(q, i)} | 0 <= i < |q| ensures proc'[q[i]].sigprio == NextIn(q, i) {
      assert q[i] in q;
    }
  }

  /** insertProc on one queue */
  lemma AppendQueue(proc: seq<Proc>, proc': seq<Proc>, first: nat, last: nat, q: seq<nat>, p: nat)
    requires |proc| == |proc'| == NPROC && IsQueue(proc, first, last, q) && NoDup(q) && p < NPROC && p !in q
    requires proc'[p].sigprio == NIL && (q != [] ==> proc'[last].sigprio == p)
    requires forall x: nat :: x < NPROC && x in q && x != last ==> proc'[x].sigprio == proc[x].sigprio
    ensures IsQueue(proc', if q == [] then p else first, p, q + [p]) && NoDup(q + [p])
  {
    var r := q + [p];
    forall i {:trigger NextIn(r, i)} | 0 <= i < |r| ensures proc'[r[i]].sigprio == NextIn(r, i) {
      if i < |q| - 1 {
        assert q[i] in q && q[i] != q[|q| - 1] && NextIn(q, i) == NextIn(r, i);
      }
    }
  }

  /** quitarProc on one queue */
  lemma PopQueue(proc: seq<Proc>, proc': seq<Proc>, first: nat, last: nat, q: seq<nat>)
    requires |proc| == |proc'| == NPROC && IsQueue(proc, first, last, q) && NoDup(q) && q != []
    requires forall x: nat :: x < NPROC && x in q && x != first ==> proc'[x].sigprio == proc[x].sigprio
    ensures IsQueue(proc', proc[first].sigprio, if last == first then NIL else last, q[1..]) && NoDup(q[1..])
    ensures last == first <==> |q| == 1
  {
    var r := q[1..];
    forall i {:trigger NextIn(r, i)} | 0 <= i < |r| ensures proc'[r[i]].sigprio == NextIn(r, i) {
      assert r[i] == q[i + 1] && q[i + 1] in q && q[0] != q[i + 1] && NextIn(q, i + 1) == NextIn(r, i);
    }
    assert |q| > 1 ==> q[0] != q[|q| - 1];
    assert NextIn(q, 0) == if |q| > 1 then q[1] else NIL;
  }

  /** The unlinking of setNewPrio behind the head: right for a process that is not the last. */
  lemma UnlinkQueue(proc: seq<Proc>, proc': seq<Proc>, first: nat, last: nat, q: seq<nat>, k: nat)
    requires |proc| == |proc'| == NPROC && IsQueue(proc, first, last, q) && NoDup(q) && 0 < k < |q| - 1
    requires proc'[q[k - 1]].sigprio == proc[q[k]].sigprio
    requires forall x: nat :: x < NPROC && x in q && x != q[k] && x != q[k - 1] ==> proc'[x].sigprio == proc[x].sigprio
    ensures IsQueue(proc', first, last, Remove(q, k)) && NoDup(Remove(q, k))
  {
    RemoveAt(q, k);
    var r := Remove(q, k);
    forall i {:trigger NextIn(r, i)} | 0 <= i < |r| ensures proc'[r[i]].sigprio == NextIn(r, i) {
      var j := if i < k then i else i + 1;
      assert r[i] == q[j] && q[j] in q && q[j] != q[k];
      if i == k - 1 { assert NextIn(q, k) == NextIn(r, i); }
      else { assert q[j] != q[k - 1] && NextIn(q, j) == NextIn(r, i); }
    }
  }

  lemma RemoveAt(q: seq<nat>, k: nat)
    requires k < |q| && NoDup(q)
    ensures |Remove(q, k)| == |q| - 1 && NoDup(Remove(q, k))
    ensures forall i :: 0 <= i < |q| - 1 ==> Remove(q, k)[i] == q[if i < k then i else i + 1]
  {
  }

  lemma DisjointAt(queues: seq<seq<nat>>, l: nat, m: nat, x: nat)
    requires Disjoint(queues) && l < |queues| && m < |queues| && l != m && x in queues[l]
    ensures x !in queues[m]
  {
  }

  lemma DisjointAdd(queues: seq<seq<nat>>, p: nat, l: nat)
    requires Disjoint(queues) && l < |queues| && Away(queues, p)
    ensures Disjoint(Enqueued(queues, p, l))
  {
    var r := Enqueued(queues, p, l);
    forall a, b, x: nat {:trigger x in r[a], x in r[b]} | 0 <= a < b < |r| && x in r[a] ensures x !in r[b] {
      if x != p { assert x in queues[a]; }
    }
  }

  lemma DisjointLess(queues: seq<seq<nat>>, l: nat, q: seq<nat>)
    requires Disjoint(queues) && l < |queues| && forall x :: x in q ==> x in queues[l]
    ensures Disjoint(queues[l := q])
  {
    var r := queues[l := q];
    forall a, b, x: nat {:trigger x in r[a], x in r[b]} | 0 <= a < b < |r| && x in r[a] ensures x !in r[b] {
      assert x in queues[a];
    }
  }

  lemma OthersKeep(proc: seq<Proc>, proc': seq<Proc>, first: seq<nat>, last: seq<nat>, queues: seq<seq<nat>>, l: nat,
                   p: nat, s: nat)
    requires Linked(proc, first, last, queues) && |proc'| == NPROC && l < NPRIO
    requires p in queues[l] || Away(queues, p)
    requires s in queues[l] || s == p
    requires forall x :: 0 <= x < NPROC && x != p && x != s ==> proc'[x].sigprio == proc[x].sigprio
    ensures forall m :: 0 <= m < NPRIO && m != l ==> IsQueue(proc', first[m], last[m], queues[m]) && NoDup(queues[m])
  {
    forall m | 0 <= m < NPRIO && m != l ensures IsQueue(proc', first[m], last[m], queues[m]) && NoDup(queues[m]) {
      assert p !in queues[m] by { if p in queues[l] { DisjointAt(queues, l, m, p); } }
      assert s !in queues[m] by { if s in queues[l] { DisjointAt(queues, l, m, s); } }
      QueueFrame(proc, proc', first[m], last[m], queues[m]);
    }
  }

  lemma Appended(proc: seq<Proc>, proc': seq<Proc>, first: seq<nat>, last: seq<nat>, queues: seq<seq<nat>>, p: nat,
                 l: nat)
    requires Linked(proc, first, last, queues) && |proc'| == NPROC && p < NPROC && l < NPRIO
    requires Away(queues, p)
    requires proc'[p].sigprio == NIL && (last[l] != NIL ==> last[l] < NPROC && proc'[last[l]].sigprio == p)
    requires forall x :: 0 <= x < NPROC && x != p && x != last[l] ==> proc'[x].sigprio == proc[x].sigprio
    ensures Linked(proc', if last[l] == NIL then first[l := p] else first, last[l := p], Enqueued(queues, p, l))
  {
    hide IsQueue, NoDup, Disjoint;
    LastIn(proc, first[l], last[l], queues[l]);
    AppendQueue(proc, proc', first[l], last[l], queues[l], p);
    DisjointAdd(queues, p, l);
    OthersKeep(proc, proc', first, last, queues, l, p, if queues[l] == [] then p else last[l]);
  }

  lemma LastIn(proc: seq<Proc>, first: nat, last: nat, q: seq<nat>)
    requires |proc| == NPROC && IsQueue(proc, first, last, q)
    ensures q == [] ==> last == NIL && first == NIL
    ensures q != [] ==> last in q && first in q && last < NPROC && first < NPROC && first == q[0] && last == q[|q| - 1]
    ensures forall x :: x in q ==> x < NPROC
  {
  }

  lemma Popped(proc: seq<Proc>, proc': seq<Proc>, first: seq<nat>, last: seq<nat>, queues: seq<seq<nat>>, l: nat)
    requires Linked(proc, first, last, queues) && |proc'| == NPROC && l < NPRIO && queues[l] != [] && first[l] < NPROC
    requires forall x :: 0 <= x < NPROC && x != first[l] ==> proc'[x].sigprio == proc[x].sigprio
    ensures Linked(proc', first[l := proc[first[l]].sigprio], if last[l] == first[l] then last[l := NIL]
                                                              else last, queues[l := queues[l][1..]])
    ensures Away(queues[l := queues[l][1..]], first[l])
  {
    hide IsQueue, NoDup, Disjoint, Remove, Away;
    LastIn(proc, first[l], last[l], queues[l]);
    PopQueue(proc, proc', first[l], last[l], queues[l]);
    DisjointLess(queues, l, queues[l][1..]);
    OthersKeep(proc, proc', first, last, queues, l, first[l], first[l]);
    GoneAfter(queues, l, 0);
    RemoveHead(queues[l]);
    var first', last' := first[l := proc[first[l]].sigprio], if last[l] == first[l] then last[l := NIL] else last;
    assert last'[l] == if last[l] == first[l] then NIL else last[l];
    forall m | 0 <= m < NPRIO && m != l ensures IsQueue(proc', first'[m], last'[m], queues[m]) {
      assert IsQueue(proc', first[m], last[m], queues[m]);
    }
  }

  lemma RemoveHead(q: seq<nat>)
    requires q != []
    ensures Remove(q, 0) == q[1..]
  {
  }

  lemma GoneAfter(queues: seq<seq<nat>>, l: nat, k: nat)
    requires |queues| == NPRIO && l < NPRIO && NoDup(queues[l]) && Disjoint(queues) && k < |queues[l]|
    ensures Away(queues[l := Remove(queues[l], k)], queues[l][k])
  {
    var r := queues[l := Remove(queues[l], k)];
    forall m {:trigger r[m]} | 0 <= m < |r| ensures queues[l][k] !in r[m] {
      if m != l { DisjointAt(queues, l, m, queues[l][k]); }
    }
  }

  lemma Unlinked(proc: seq<Proc>, proc': seq<Proc>, first: seq<nat>, last: seq<nat>, queues: seq<seq<nat>>, l: nat,
                 k: nat)
    requires Linked(proc, first, last, queues) && |proc'| == NPROC && l < NPRIO && 0 < k < |queues[l]| - 1
    requires queues[l][k] < NPROC && queues[l][k - 1] < NPROC
    requires proc'[queues[l][k - 1]].sigprio == proc[queues[l][k]].sigprio
    requires forall x :: 0 <= x < NPROC && x != queues[l][k] && x != queues[l][k - 1] ==>
               proc'[x].sigprio == proc[x].sigprio
    ensures Linked(proc', first, last, queues[l := Remove(queues[l], k)])
    ensures Away(queues[l := Remove(queues[l], k)], queues[l][k])
  {
    hide IsQueue, NoDup, Disjoint;
    UnlinkQueue(proc, proc', first[l], last[l], queues[l], k);
    DisjointLess(queues, l, Remove(queues[l], k));
    OthersKeep(proc, proc', first, last, queues, l, queues[l][k], queues[l][k - 1]);
    GoneAfter(queues, l, k);
  }

  /* ---------------- the runnable processes stay in step ---------------- */

  lemma NotQueued(proc: seq<Proc>, queues: seq<seq<nat>>, p: nat)
    requires Partition(proc, queues) && p < NPROC && !proc[p].state.Runnable?
    ensures Away(queues, p)
  {
  }

  /** A process made runnable and queued at its own priority. */
  lemma PartitionAdd(proc: seq<Proc>, proc': seq<Proc>, queues: seq<seq<nat>>, p: nat)
    requires Partition(proc, queues) && |proc'| == NPROC && p < NPROC && !proc[p].state.Runnable?
    requires proc'[p].state.Runnable? && proc'[p].prio < NPRIO
    requires forall x :: 0 <= x < NPROC && x != p ==> proc'[x].state == proc[x].state && proc'[x].prio == proc[x].prio
    ensures Partition(proc', Enqueued(queues, p, proc'[p].prio))
  {
    var r := Enqueued(queues, p, proc'[p].prio);
    forall l, x: nat {:trigger x in r[l]} | 0 <= l < NPRIO && x in r[l]
      ensures x < NPROC && proc'[x].state.Runnable? && proc'[x].prio == l
    {
      if x != p { assert x in queues[l]; }
    }
    forall x: nat | x < NPROC && proc'[x].state.Runnable? ensures x in r[proc'[x].prio] {
      if x != p { assert x in queues[proc[x].prio]; }
    }
  }

  /** A process taken off its queue that is no longer runnable. */
  lemma PartitionTake(proc: seq<Proc>, proc': seq<Proc>, queues: seq<seq<nat>>, l: nat, k: nat)
    requires Partition(proc, queues) && |proc'| == NPROC && l < NPRIO && k < |queues[l]| && NoDup(queues[l])
    requires queues[l][k] < NPROC
    requires !proc'[queues[l][k]].state.Runnable? && proc'[queues[l][k]].prio < NPRIO
    requires forall x :: 0 <= x < NPROC && x != queues[l][k] ==>
               proc'[x].state == proc[x].state && proc'[x].prio == proc[x].prio
    ensures Partition(proc', queues[l := Remove(queues[l], k)])
  {
    var p, r := queues[l][k], queues[l := Remove(queues[l], k)];
    forall m, x: nat {:trigger x in r[m]} | 0 <= m < NPRIO && x in r[m]
      ensures x < NPROC && proc'[x].state.Runnable? && proc'[x].prio == m
    {
      assert x in queues[m];
      assert p in queues[l];
    }
    forall x: nat | x < NPROC && proc'[x].state.Runnable? ensures x in r[proc'[x].prio] {
      assert x in queues[proc[x].prio];
      if proc[x].prio == l {
        var j :| 0 <= j < |queues[l]| && queues[l][j] == x;
        assert Remove(queues[l], k)[if j < k then j else j - 1] == x;
      }
    }
  }

  /** Changes that touch no runnable process and no priority of one. */
  lemma PartitionSame(proc: seq<Proc>, proc': seq<Proc>, queues: seq<seq<nat>>)
    requires Partition(proc, queues) && |proc'| == NPROC
    requires forall x :: 0 <= x < NPROC ==>
               proc'[x].prio < NPRIO && (proc'[x].state.Runnable? <==> proc[x].state.Runnable?)
    requires forall x :: 0 <= x < NPROC && proc[x].state.Runnable? ==> proc'[x].prio == proc[x].prio
    ensures Partition(proc', queues)
  {
  }

  lemma LinkedSame(proc: seq<Proc>, proc': seq<Proc>, first: seq<nat>, last: seq<nat>, queues: seq<seq<nat>>)
    requires Linked(proc, first, last, queues) && |proc'| == NPROC
    requires forall x :: 0 <= x < NPROC ==> proc'[x].sigprio == proc[x].sigprio
    ensures Linked(proc', first, last, queues)
  {
    forall l | 0 <= l < NPRIO ensures IsQueue(proc', first[l], last[l], queues[l]) {
      QueueFrame(proc, proc', first[l], last[l], queues[l]);
    }
  }

  /* ---------------- the order of dispatch ---------------- */

  /** What the methods of the process table do to the queues. */
  datatype Step = Enqueue(p: nat, l: nat) | Dispatch | Move(l: nat, k: nat, m: nat)

  predicate Can(queues: seq<seq<nat>>, s: Step)
  {
    match s
    case Enqueue(p, l) => l < |queues|
    case Dispatch => true
    case Move(l, k, m) => l < |queues| && m < |queues| && k < |queues[l]|
  }

  function Do(queues: seq<seq<nat>>, s: Step): (r: seq<seq<nat>>)
    requires Can(queues, s)
    ensures |r| == |queues|
  {
    match s
    case Enqueue(p, l) => Enqueued(queues, p, l)
    case Dispatch => Dispatched(queues)
    case Move(l, k, m) => Moved(queues, l, k, m)
  }

  predicate CanAll(queues: seq<seq<nat>>, run: seq<Step>)
    decreases |run|
  {
    run == [] || (Can(queues, run[0]) && CanAll(Do(queues, run[0]), run[1..]))
  }

  function DoAll(queues: seq<seq<nat>>, run: seq<Step>): (r: seq<seq<nat>>)
    requires CanAll(queues, run)
    decreases |run|
  {
    if run == [] then queues else DoAll(Do(queues, run[0]), run[1..])
  }

  lemma {:induction false} DoAllThen(queues: seq<seq<nat>>, run: seq<Step>, s: Step)
    requires CanAll(queues, run) && Can(DoAll(queues, run), s)
    ensures CanAll(queues, run + [s]) && DoAll(queues, run + [s]) == Do(DoAll(queues, run), s)
    decreases |run|
  {
    hide Can, Do;
    if run == [] {
      assert [s][1..] == [] && run + [s] == [s];
    } else {
      assert (run + [s])[1..] == run[1..] + [s];
      DoAllThen(Do(queues, run[0]), run[1..], s);
    }
  }

  lemma {:induction false} DoAllAppend(queues: seq<seq<nat>>, run: seq<Step>, more: seq<Step>)
    requires CanAll(queues, run) && CanAll(DoAll(queues, run), more)
    ensures CanAll(queues, run + more) && DoAll(queues, run + more) == DoAll(DoAll(queues, run), more)
    decreases |run|
  {
    hide Can, Do;
    if run == [] {
      assert run + more == more;
    } else {
      assert (run + more)[1..] == run[1..] + more;
      DoAllAppend(Do(queues, run[0]), run[1..], more);
    }
  }

  function Dispatches(run: seq<Step>): (n: nat)
  {
    if run == [] then 0 else (if run[0].Dispatch? then 1 else 0) + Dispatches(run[1..])
  }

  /** A run in which p is not moved by setNewPrio, and whenever a process is picked, the levels before L are empty. */
  predicate Quiet(queues: seq<seq<nat>>, run: seq<Step>, L: nat, p: nat)
    decreases |run|
  {
    run == [] ||
    (&& Can(queues, run[0])
     && (run[0].Dispatch? ==> L <= Lowest(queues, 0))
     && (run[0].Move? ==> queues[run[0].l][run[0].k] != p)
     && Quiet(Do(queues, run[0]), run[1..], L, p))
  }

  predicate PickedNow(queues: seq<seq<nat>>, s: Step, p: nat)
  {
    s.Dispatch? && var l := Lowest(queues, 0); l < |queues| && queues[l][0] == p
  }

  predicate Picked(queues: seq<seq<nat>>, run: seq<Step>, L: nat, p: nat)
    requires Quiet(queues, run, L, p)
    decreases |run|
  {
    run != [] && (PickedNow(queues, run[0], p) || Picked(Do(queues, run[0]), run[1..], L, p))
  }

  /** One step brings p no further back, and a dispatch brings it one place forward, or picks it. */
  lemma PlaceAfter(queues: seq<seq<nat>>, s: Step, L: nat, p: nat, k: nat) returns (j: nat)
    requires L < |queues| && k < |queues[L]| && queues[L][k] == p && Can(queues, s) && !PickedNow(queues, s, p)
    requires s.Dispatch? ==> L <= Lowest(queues, 0)
    requires s.Move? ==> queues[s.l][s.k] != p
    ensures j + Dispatches([s]) <= k && j < |Do(queues, s)[L]| && Do(queues, s)[L][j] == p
  {
    assert [s][1..] == [];
    match s {
      case Enqueue(_, _) => j := k;
      case Dispatch =>
        assert Lowest(queues, 0) == L;
        j := k - 1;
      case Move(l, i, m) =>
        j := if l == L && i < k then k - 1 else k;
    }
  }

  /** A process with k others ahead of it at level L is picked by the (k + 1)-st dispatch at the latest, as long as
      it stays queued and no lower-numbered level becomes non-empty, whoever else comes, goes or is moved. */
  lemma {:induction false} DispatchOrder(queues: seq<seq<nat>>, run: seq<Step>, L: nat, p: nat, k: nat)
    requires L < |queues| && k < |queues[L]| && queues[L][k] == p && Quiet(queues, run, L, p)
    ensures Dispatches(run) > k ==> Picked(queues, run, L, p)
    decreases |run|
  {
    hide Lowest, Can, Do;
    if run != [] && !PickedNow(queues, run[0], p) {
      var j := PlaceAfter(queues, run[0], L, p, k);
      SameLevels(queues, run[0]);
      DispatchOrder(Do(queues, run[0]), run[1..], L, p, j);
      assert [run[0]][1..] == [];
    }
  }

  lemma SameLevels(queues: seq<seq<nat>>, s: Step)
    requires Can(queues, s)
    ensures |Do(queues, s)| == |queues|
  {
  }
}
