/**
Open files and the descriptors that name them (file.c, the descriptor calls of sysfile.c, and the opening and
closing of pipes in pipe.c), with the reference counts that tie them together.
*/
module Descriptors {
  import opened Param
  import opened Pipe

  const NIL := NFILE // the null file

  datatype Kind = FdNone | FdPipe | FdInode
  datatype File = File(kind: Kind, ref: int, readable: bool, writable: bool, pipe: nat)

  /** Descriptor fd of process p, in the row of all descriptors. */
  function Slot(p: nat, fd: nat): (i: nat)
    requires p < NPROC && fd < NOFILE
    ensures i < NPROC * NOFILE
  {
    p * NOFILE + fd
  }

  /** Each file's count is the number of descriptors that hold it, and `extra` for what a call in progress holds. */
  ghost predicate Counted(file: seq<File>, slots: seq<nat>, extra: seq<int>)
  {
    && |file| == |extra| == NFILE && |slots| == NPROC * NOFILE && (forall i :: 0 <= i < |slots| ==> slots[i] <= NIL)
    && (forall f: nat {:trigger file[f]} :: f < NFILE ==> file[f].ref == multiset(slots)[f] + extra[f])
  }

  /** File f is an open end of pipe q. */
  predicate IsEnd(file: seq<File>, f: nat, q: nat, writable: bool)
  {
    f < |file| && file[f].ref > 0 && file[f].kind.FdPipe? && file[f].pipe == q && file[f].writable == writable
  }

  /** The file at each end of a pipe. */
  datatype Pair = Pair(rf: nat, wf: nat)

  function EndOf(p: Pair, writable: bool): (f: nat) { if writable then p.wf else p.rf }

  /** A pipe's page is in use as long as one of its ends is open, and each open end is exactly one open file. */
  ghost predicate Ends(file: seq<File>, pipes: map<nat, Open>, ends: map<nat, Pair>)
  {
    && |file| == NFILE
    && (forall f {:trigger file[f]} :: 0 <= f < NFILE ==>
          file[f].ref >= 0 && (file[f].ref == 0 ==> file[f].kind.FdNone?))
    && (forall f {:trigger file[f].kind} :: 0 <= f < NFILE && file[f].kind.FdPipe? ==>
          && file[f].pipe in pipes && file[f].pipe in ends
          && IsOpen(pipes[file[f].pipe], file[f].writable) && f == EndOf(ends[file[f].pipe], file[f].writable))
    && (forall q {:trigger q in pipes} :: q in pipes ==>
          && q != 0 && (pipes[q].read || pipes[q].write) && q in ends
          && (pipes[q].read ==> IsEnd(file, ends[q].rf, q, false))
          && (pipes[q].write ==> IsEnd(file, ends[q].wf, q, true)))
  }

  /** No file has been opened, and one that is still open has changed in its count at most. */
  ghost predicate OnlyCounts(file: seq<File>, file': seq<File>)
  {
    |file| == |file'| == NFILE
    && forall x {:trigger file'[x]} :: 0 <= x < NFILE && file'[x].ref > 0 ==>
         file[x].ref > 0 && file'[x] == file[x].(ref := file'[x].ref)
  }

  /** The count of x after one descriptor changes. */
  lemma CountUpdate(slots: seq<nat>, i: nat, f: nat)
    requires i < |slots|
    ensures forall x: nat :: multiset(slots[i := f])[x] ==
              multiset(slots)[x] - (if slots[i] == x then 1 else 0) + (if f == x then 1 else 0)
  {
    var s := slots[i := f];
    assert slots == slots[..i] + [slots[i]] + slots[i + 1..];
    assert s == slots[..i] + [f] + slots[i + 1..];
  }

  lemma NoneHeld(slots: seq<nat>)
    requires forall i :: 0 <= i < |slots| ==> slots[i] == NIL
    ensures forall f: nat :: f < NFILE ==> multiset(slots)[f] == 0
  {
    assert forall f: nat :: f in multiset(slots) ==> f in slots;
  }

  lemma CountsHeld(slots: seq<nat>, i: nat)
    requires i < |slots|
    ensures multiset(slots)[slots[i]] >= 1
  {
    assert slots[i] in multiset(slots);
  }

  /** A file some descriptor holds has a count. */
  lemma HeldRef(file: seq<File>, slots: seq<nat>, extra: seq<int>, i: nat)
    requires Counted(file, slots, extra) && i < |slots| && slots[i] != NIL && extra[slots[i]] >= 0
    ensures file[slots[i]].ref >= 1
  {
    CountsHeld(slots, i);
  }

  lemma CountedUpdate(file: seq<File>, slots: seq<nat>, extra: seq<int>, i: nat, f: nat, extra': seq<int>)
    requires Counted(file, slots, extra) && i < |slots| && f <= NIL && |extra'| == NFILE
    requires forall x :: 0 <= x < NFILE ==>
               extra'[x] == extra[x] + (if slots[i] == x then 1 else 0) - (if f == x then 1 else 0)
    ensures Counted(file, slots[i := f], extra')
  {
    CountUpdate(slots, i, f);
  }

  /** Counts that go up and down above 0, and new files, leave the pipes alone. */
  lemma EndsKept(file: seq<File>, file': seq<File>, pipes: map<nat, Open>, ends: map<nat, Pair>)
    requires Ends(file, pipes, ends) && |file'| == NFILE
    requires forall x {:trigger file'[x]} :: 0 <= x < NFILE ==>
               file'[x] == file[x].(ref := file'[x].ref) && (file[x].ref > 0 ==> file'[x].ref > 0) && file'[x].ref >= 0
    ensures Ends(file', pipes, ends)
  {
  }

  /** The state pipeclose leaves: one end less, or no pipe at all. */
  function Closed(pipes: map<nat, Open>, q: nat, writable: bool): (r: map<nat, Open>)
    requires q in pipes
  {
    if IsOpen(pipes[q], !writable) then pipes[q := Shut(pipes[q], writable)] else pipes - {q}
  }

  lemma EndsClose(file: seq<File>, pipes: map<nat, Open>, ends: map<nat, Pair>, f: nat)
    requires Ends(file, pipes, ends) && f < NFILE && file[f].ref == 1
    ensures file[f].kind.FdPipe? ==> file[f].pipe in pipes && file[f].pipe != 0
    ensures var file' := file[f := file[f].(ref := 0, kind := FdNone)];
            Ends(file', if file[f].kind.FdPipe? then Closed(pipes, file[f].pipe, file[f].writable) else pipes, ends)
  {
    hide IsOpen, EndOf, Ends;
    FilesOfPipe(file, pipes, ends, f);
    if !file[f].kind.FdPipe? {
      CloseOther(file, pipes, ends, f);
    } else if IsOpen(pipes[file[f].pipe], !file[f].writable) {
      CloseFirst(file, pipes, ends, f);
    } else {
      CloseLast(file, pipes, ends, f);
    }
  }

  lemma FilesOfPipe(file: seq<File>, pipes: map<nat, Open>, ends: map<nat, Pair>, f: nat)
    requires Ends(file, pipes, ends) && f < NFILE
    ensures |file| == NFILE && (file[f].kind.FdPipe? ==> file[f].pipe in pipes && file[f].pipe != 0)
  {
  }

  lemma CloseOther(file: seq<File>, pipes: map<nat, Open>, ends: map<nat, Pair>, f: nat)
    requires Ends(file, pipes, ends) && f < NFILE && !file[f].kind.FdPipe?
    ensures Ends(file[f := file[f].(ref := 0, kind := FdNone)], pipes, ends)
  {
  }

  lemma CloseFirst(file: seq<File>, pipes: map<nat, Open>, ends: map<nat, Pair>, f: nat)
    requires Ends(file, pipes, ends) && f < NFILE && file[f].kind.FdPipe?
    requires IsOpen(pipes[file[f].pipe], !file[f].writable)
    ensures Ends(file[f := file[f].(ref := 0, kind := FdNone)], Closed(pipes, file[f].pipe, file[f].writable), ends)
  {
    var q, file' := file[f].pipe, file[f := file[f].(ref := 0, kind := FdNone)];
    var pipes' := Closed(pipes, q, file[f].writable);
    forall r {:trigger r in pipes'} | r in pipes'
      ensures r in pipes && (pipes'[r].read ==> IsEnd(file', ends[r].rf, r, false))
      ensures (pipes'[r].write ==> IsEnd(file', ends[r].wf, r, true))
    {
      assert r in pipes && (r != q ==> pipes'[r] == pipes[r]);
    }
  }

  lemma CloseLast(file: seq<File>, pipes: map<nat, Open>, ends: map<nat, Pair>, f: nat)
    requires Ends(file, pipes, ends) && f < NFILE && file[f].kind.FdPipe?
    requires !IsOpen(pipes[file[f].pipe], !file[f].writable)
    ensures Ends(file[f := file[f].(ref := 0, kind := FdNone)], Closed(pipes, file[f].pipe, file[f].writable), ends)
  {
    hide Ends;
    OneFileEach(file, pipes, ends, f);
    WithoutPipe(file, pipes, ends, f);
  }

  lemma OneFileEach(file: seq<File>, pipes: map<nat, Open>, ends: map<nat, Pair>, f: nat)
    requires Ends(file, pipes, ends) && f < NFILE && file[f].kind.FdPipe?
    ensures |file| == NFILE && file[f].pipe in pipes
    ensures !IsOpen(pipes[file[f].pipe], !file[f].writable) ==>
              forall g :: 0 <= g < NFILE && g != f && file[g].kind.FdPipe? ==> file[g].pipe != file[f].pipe
  {
  }

  lemma WithoutPipe(file: seq<File>, pipes: map<nat, Open>, ends: map<nat, Pair>, f: nat)
    requires Ends(file, pipes, ends) && f < NFILE && file[f].kind.FdPipe?
    requires forall g :: 0 <= g < NFILE && g != f && file[g].kind.FdPipe? ==> file[g].pipe != file[f].pipe
    ensures Ends(file[f := file[f].(ref := 0, kind := FdNone)], pipes - {file[f].pipe}, ends)
  {
    hide IsOpen, EndOf;
    var q, pipes', file' := file[f].pipe, pipes - {file[f].pipe}, file[f := file[f].(ref := 0, kind := FdNone)];
    forall r | r in pipes'
      ensures pipes[r].read ==> IsEnd(file', ends[r].rf, r, false)
      ensures pipes[r].write ==> IsEnd(file', ends[r].wf, r, true)
    {
      assert r in pipes && r != q;
    }
  }

  class FileTable {
    var file: seq<File>
    var slots: seq<nat>
    var pipes: map<nat, Open>
    ghost var extra: seq<int>
    ghost var ends: map<nat, Pair>

    ghost predicate Inv()
      reads this
    {
      Counted(file, slots, extra) && Ends(file, pipes, ends)
    }

    /** Between calls: every count is the number of descriptors. */
    ghost predicate Valid()
      reads this
    {
      Inv() && forall f :: 0 <= f < NFILE ==> extra[f] == 0
    }

    constructor ()
      ensures Valid() && pipes == map[] && forall i :: 0 <= i < NPROC * NOFILE ==> slots[i] == NIL
    {
      file := seq(NFILE, _ => File(FdNone, 0, false, false, 0));
      slots := seq(NPROC * NOFILE, _ => NIL);
      pipes, ends, extra := map[], map[], seq(NFILE, _ => 0);
      new;
      NoneHeld(slots);
    }

    method FileAlloc() returns (f: nat)
      requires Inv()
      modifies this`file, this`extra
      ensures Inv() && f <= NIL
      ensures f == NIL ==> file == old(file) && extra == old(extra) && forall x :: 0 <= x < NFILE ==> file[x].ref != 0
      ensures f != NIL ==>
                && old(file)[f].ref == 0 && (forall x :: 0 <= x < f ==> old(file)[x].ref != 0)
                && file == old(file)[f := old(file)[f].(ref := 1)] && file[f].kind.FdNone?
                && extra == old(extra)[f := old(extra)[f] + 1]
    {
      f := 0;
      while f < NFILE
        invariant f <= NFILE && file == old(file) && extra == old(extra) && Inv()
        invariant forall x :: 0 <= x < f ==> file[x].ref != 0
      {
        if file[f].ref == 0 {
          file := file[f := file[f].(ref := 1)];
          extra := extra[f := extra[f] + 1];
          EndsKept(old(file), file, pipes, ends);
          return;
        }
        f := f + 1;
      }
    }

    method FileDup(f: nat)
      requires Inv() && f < NFILE && file[f].ref >= 1
      modifies this`file, this`extra
      ensures Inv() && file == old(file)[f := old(file)[f].(ref := old(file)[f].ref + 1)]
      ensures extra == old(extra)[f := old(extra)[f] + 1]
    {
      file := file[f := file[f].(ref := file[f].ref + 1)];
      extra := extra[f := extra[f] + 1];
      EndsKept(old(file), file, pipes, ends);
    }

    /** fileclose. Returns the page of the pipe if both its ends are now gone, and 0 otherwise. */
    method FileClose(f: nat) returns (freed: nat)
      requires Inv() && f < NFILE && file[f].ref >= 1
      modifies this`file, this`pipes, this`extra
      ensures Inv() && extra == old(extra)[f := old(extra)[f] - 1]
      ensures file == old(file)[f := if old(file)[f].ref > 1 then old(file)[f].(ref := old(file)[f].ref - 1)
                                     else old(file)[f].(ref := 0, kind := FdNone)]
      ensures !(old(file)[f].ref == 1 && old(file)[f].kind.FdPipe?) ==> pipes == old(pipes) && freed == 0
      ensures old(file)[f].ref == 1 && old(file)[f].kind.FdPipe? ==>
                && var q := old(file)[f].pipe;
                && q in old(pipes) && q != 0 && pipes == Closed(old(pipes), q, old(file)[f].writable)
                && freed == if IsOpen(old(pipes)[q], !old(file)[f].writable) then 0 else q
    {
      extra := extra[f := extra[f] - 1];
      freed := 0;
      if file[f].ref > 1 {
        file := file[f := file[f].(ref := file[f].ref - 1)];
        EndsKept(old(file), file, pipes, ends);
        return;
      }
      var ff := file[f];
      EndsClose(file, pipes, ends, f);
      file := file[f := file[f].(ref := 0, kind := FdNone)];
      if ff.kind.FdPipe? {
        freed := PipeClose(ff.pipe, ff.writable);
      }
    }

    /** pipeclose of one end, and of the page with the other */
    method PipeClose(q: nat, writable: bool) returns (freed: nat)
      requires q in pipes && q != 0
      modifies this`pipes
      ensures pipes == Closed(old(pipes), q, writable) && freed == if IsOpen(old(pipes)[q], !writable) then 0 else q
    {
      pipes := pipes[q := Shut(pipes[q], writable)];
      freed := 0;
      if !pipes[q].read && !pipes[q].write {
        pipes := pipes - {q};
        freed := q;
        assert pipes == old(pipes) - {q};
      }
    }

    /** fdalloc: the lowest free descriptor of process p; it takes the caller's reference to f. */
    method FdAlloc(p: nat, f: nat) returns (fd: int)
      requires Inv() && p < NPROC && f < NFILE
      modifies this`slots, this`extra
      ensures Inv() && -1 <= fd < NOFILE
      ensures fd == -1 ==> slots == old(slots) && extra == old(extra)
                           && forall d: nat :: d < NOFILE ==> slots[Slot(p, d)] != NIL
      ensures fd >= 0 ==>
                && old(slots)[Slot(p, fd)] == NIL && (forall d: nat :: d < fd ==> old(slots)[Slot(p, d)] != NIL)
                && slots == old(slots)[Slot(p, fd) := f] && extra == old(extra)[f := old(extra)[f] - 1]
    {
      hide Ends;
      fd := 0;
      while fd < NOFILE
        invariant 0 <= fd <= NOFILE && slots == old(slots) && extra == old(extra) && Inv()
        invariant forall d: nat :: d < fd ==> slots[Slot(p, d)] != NIL
      {
        if slots[Slot(p, fd)] == NIL {
          PutSlot(p, fd, f);
          return;
        }
        fd := fd + 1;
      }
      fd := -1;
    }

    /** `ofile[fd] = f`; what the descriptor held, if anything, is now the caller's. */
    method PutSlot(p: nat, fd: nat, f: nat)
      requires Inv() && p < NPROC && fd < NOFILE && f <= NIL
      modifies this`slots, this`extra
      ensures Inv() && slots == old(slots)[Slot(p, fd) := f]
      ensures extra == Released(Claimed(old(extra), f), old(slots)[Slot(p, fd)])
    {
      hide Ends;
      ghost var g := slots[Slot(p, fd)];
      CountedUpdate(file, slots, extra, Slot(p, fd), f, Released(Claimed(extra, f), g));
      extra := Released(Claimed(extra, f), g);
      slots := slots[Slot(p, fd) := f];
    }

    /** argfd: the file of descriptor fd, or the null file. */
    method ArgFd(p: nat, fd: int) returns (f: nat)
      requires Inv() && p < NPROC
      ensures f <= NIL && f == if 0 <= fd < NOFILE then slots[Slot(p, fd)] else NIL
      ensures f != NIL && extra[f] >= 0 ==> file[f].ref >= 1
    {
      hide Ends;
      if fd < 0 || fd >= NOFILE { return NIL; }
      CountsHeld(slots, Slot(p, fd));
      f := slots[Slot(p, fd)];
    }

    method SysDup(p: nat, oldfd: int) returns (fd: int)
      requires Valid() && p < NPROC
      modifies this`file, this`slots, this`extra
      ensures Valid() && -1 <= fd < NOFILE
      ensures fd == -1 ==> slots == old(slots) && file == old(file)
      ensures fd == -1 <==>
                (!(0 <= oldfd < NOFILE && old(slots)[Slot(p, oldfd)] != NIL)
                 || forall d: nat :: d < NOFILE ==> old(slots)[Slot(p, d)] != NIL)
      ensures fd >= 0 ==> old(slots)[Slot(p, fd)] == NIL
                          && slots == old(slots)[Slot(p, fd) := old(slots)[Slot(p, oldfd)]]
      ensures fd >= 0 ==> (forall d: nat :: d < fd ==> old(slots)[Slot(p, d)] != NIL) && OnlyCounts(old(file), file)
    {
      hide Ends;
      var f := ArgFd(p, oldfd);
      if f == NIL { return -1; }
      fd := FdAlloc(p, f);
      if fd < 0 { return; }
      FileDup(f);
    }

    method SysDup2(p: nat, oldfd: int, newfd: int) returns (fd: int, freed: nat)
      requires Valid() && p < NPROC
      modifies this`file, this`slots, this`extra, this`pipes
      ensures Valid() && (fd == -1 || fd == newfd)
      ensures fd == -1 <==> !(0 <= oldfd < NOFILE && old(slots)[Slot(p, oldfd)] != NIL) || !(0 <= newfd < NOFILE)
      ensures fd == -1 ==> slots == old(slots) && file == old(file) && pipes == old(pipes)
      ensures fd >= 0 ==> slots == old(slots)[Slot(p, newfd) := old(slots)[Slot(p, oldfd)]]
                          && OnlyCounts(old(file), file)
      ensures freed != 0 ==> freed in old(pipes) && pipes == old(pipes) - {freed}
      ensures freed == 0 ==> pipes.Keys == old(pipes).Keys
    {
      hide Ends, Counted;
      Sizes(file, slots, extra);
      freed := 0;
      var f := ArgFd(p, oldfd);
      if f == NIL { return -1, 0; }
      if newfd < 0 || newfd >= NOFILE { return -1, 0; }
      var g := slots[Slot(p, newfd)];
      if f == g { return newfd, 0; }
      if g != NIL {
        HeldRef(file, slots, extra, Slot(p, newfd));
        PutSlot(p, newfd, NIL);
        freed := FileClose(g);
      }
      PutSlot(p, newfd, f);
      FileDup(f);
      fd := newfd;
    }

    method SysClose(p: nat, fd: int) returns (r: int, freed: nat)
      requires Valid() && p < NPROC
      modifies this`file, this`slots, this`extra, this`pipes
      ensures Valid() && (r == 0 || r == -1)
      ensures r == -1 <==> !(0 <= fd < NOFILE && old(slots)[Slot(p, fd)] != NIL)
      ensures r == -1 ==> slots == old(slots) && file == old(file) && pipes == old(pipes) && freed == 0
      ensures r == 0 ==> slots == old(slots)[Slot(p, fd) := NIL]
      ensures OnlyCounts(old(file), file)
      ensures freed != 0 ==> freed in old(pipes) && pipes == old(pipes) - {freed}
      ensures freed == 0 ==> pipes.Keys == old(pipes).Keys
    {
      hide Ends;
      var f := ArgFd(p, fd);
      if f == NIL { return -1, 0; }
      PutSlot(p, fd, NIL);
      freed := FileClose(f);
      r := 0;
    }

    /** pipealloc: two files for the two ends of a new pipe on the given page (0 when kalloc found none). */
    method PipeAlloc(page: nat) returns (ok: bool, rf: nat, wf: nat)
      requires Inv() && page !in pipes
      modifies this`file, this`pipes, this`extra, this`ends
      ensures Inv()
      ensures !ok ==> file == old(file) && pipes == old(pipes) && extra == old(extra)
      ensures ok <==> page != 0 && TwoFiles(old(file))
      ensures ok ==>
                && rf < NFILE && wf < NFILE && rf != wf && old(file)[rf].ref == 0 && old(file)[wf].ref == 0
                && pipes == old(pipes)[page := Open(true, true)]
                && extra == old(extra)[rf := old(extra)[rf] + 1][wf := old(extra)[wf] + 1]
                && file == old(file)[rf := File(FdPipe, 1, true, false, page)][wf := File(FdPipe, 1, false, true, page)]
    {
      hide Ends, Counted;
      Sizes(file, slots, extra);
      rf := FileAlloc();
      wf := NIL;
      if rf != NIL { wf := FileAlloc(); }
      Sizes(file, slots, extra);
      if rf == NIL || wf == NIL || page == 0 {
        if rf != NIL { var _ := FileClose(rf); }
        if wf != NIL { var _ := FileClose(wf); }
        return false, rf, wf;
      }
      NewPipe(file, slots, extra, pipes, ends, rf, wf, page);
      pipes := pipes[page := Open(true, true)];
      ends := ends[page := Pair(rf, wf)];
      file := file[rf := file[rf].(kind := FdPipe, readable := true, writable := false, pipe := page)];
      file := file[wf := file[wf].(kind := FdPipe, readable := false, writable := true, pipe := page)];
      ok := true;
    }

    /** sys_pipe. When a descriptor is missing both ends are closed again, and with them goes the page. */
    method SysPipe(p: nat, page: nat) returns (r: int, fd0: int, fd1: int, freed: nat)
      requires Valid() && p < NPROC && page !in pipes
      modifies this`file, this`slots, this`extra, this`pipes, this`ends
      ensures Valid() && (r == 0 || r == -1)
      ensures r == -1 ==> slots == old(slots) && pipes == old(pipes) && OnlyCounts(old(file), file)
      ensures r == 0 ==>
                && 0 <= fd0 < fd1 < NOFILE && old(slots)[Slot(p, fd0)] == NIL && old(slots)[Slot(p, fd1)] == NIL
                && pipes == old(pipes)[page := Open(true, true)] && freed == 0
                && (forall d: nat :: d < fd1 && d != fd0 ==> old(slots)[Slot(p, d)] != NIL)
                && exists rf: nat, wf: nat :: rf < NFILE && wf < NFILE && rf != wf
                                              && slots == old(slots)[Slot(p, fd0) := rf][Slot(p, fd1) := wf]
                     && file == old(file)[rf := File(FdPipe, 1, true, false, page)]
                                [wf := File(FdPipe, 1, false, true, page)]
                     && old(file)[rf].ref == 0 && old(file)[wf].ref == 0
      ensures freed != 0 ==> freed == page && r == -1
      ensures page != 0 && TwoFiles(old(file)) && TwoSlots(old(slots), p) ==> r == 0
      ensures r == -1 && page != 0 && TwoFiles(old(file)) ==> freed == page
    {
      hide Ends, Counted, OnlyCounts, TwoFiles, TwoSlots;
      Sizes(file, slots, extra);
      SameCounts(file);
      r, fd0, fd1, freed := -1, -1, -1, 0;
      var ok, rf, wf := PipeAlloc(page);
      if !ok { return; }
      Sizes(file, slots, extra);
      ok, fd0, fd1 := TwoFds(p, rf, wf);
      if !ok {
        freed := FileClose(rf);
        freed := FileClose(wf);
        assert pipes == old(pipes);
        BackAgain(old(file), file, rf, wf);
        return;
      }
      r := 0;
    }

    /** The descriptors of both ends, or of neither. */
    method TwoFds(p: nat, rf: nat, wf: nat) returns (ok: bool, fd0: int, fd1: int)
      requires Inv() && p < NPROC && rf < NFILE && wf < NFILE && rf != wf
      modifies this`slots, this`extra
      ensures Inv() && (ok <==> TwoSlots(old(slots), p))
      ensures !ok ==> slots == old(slots) && extra == old(extra)
      ensures ok ==>
                && 0 <= fd0 < fd1 < NOFILE && old(slots)[Slot(p, fd0)] == NIL && old(slots)[Slot(p, fd1)] == NIL
                && (forall d: nat :: d < fd1 && d != fd0 ==> old(slots)[Slot(p, d)] != NIL)
                && slots == old(slots)[Slot(p, fd0) := rf][Slot(p, fd1) := wf]
                && extra == old(extra)[rf := old(extra)[rf] - 1][wf := old(extra)[wf] - 1]
    {
      hide Ends, Counted;
      Sizes(file, slots, extra);
      ok, fd1 := false, -1;
      fd0 := FdAlloc(p, rf);
      if fd0 < 0 { return; }
      fd1 := FdAlloc(p, wf);
      if fd1 < 0 {
        PutSlot(p, fd0, NIL);
        return;
      }
      ok := true;
    }

    /** The descriptor part of sys_open, once the inode is there. */
    method SysOpen(p: nat, readable: bool, writable: bool) returns (fd: int)
      requires Valid() && p < NPROC
      modifies this`file, this`slots, this`extra, this`pipes
      ensures Valid() && -1 <= fd < NOFILE && pipes == old(pipes)
      ensures fd == -1 ==> slots == old(slots) && file == old(file)
      ensures fd == -1 <==> (forall x :: 0 <= x < NFILE ==> old(file)[x].ref != 0)
                            || forall d: nat :: d < NOFILE ==> old(slots)[Slot(p, d)] != NIL
      ensures fd >= 0 ==>
                && old(slots)[Slot(p, fd)] == NIL && (forall d: nat :: d < fd ==> old(slots)[Slot(p, d)] != NIL)
                && exists f: nat :: f < NFILE && old(file)[f].ref == 0 && slots == old(slots)[Slot(p, fd) := f]
                     && file == old(file)[f := old(file)[f].(ref := 1, kind := FdInode, readable := readable,
                                                             writable := writable)]
    {
      hide Ends, Counted;
      Sizes(file, slots, extra);
      var f := FileAlloc();
      if f == NIL { return -1; }
      Sizes(file, slots, extra);
      fd := FdAlloc(p, f);
      if fd < 0 {
        var _ := FileClose(f);
        return;
      }
      NewInode(file, slots, extra, pipes, ends, f, readable, writable);
      file := file[f := file[f].(kind := FdInode, readable := readable, writable := writable)];
    }

    /** The loop of fork over the descriptors: the child gets a reference to every file of the parent. */
    method ForkFiles(p: nat, np: nat)
      requires Valid() && p < NPROC && np < NPROC && p != np
      requires forall d: nat :: d < NOFILE ==> slots[Slot(np, d)] == NIL
      modifies this`file, this`slots, this`extra
      ensures Valid() && OnlyCounts(old(file), file)
      ensures forall d: nat :: d < NOFILE ==> slots[Slot(np, d)] == old(slots)[Slot(p, d)]
      ensures forall q: nat, d: nat :: q < NPROC && d < NOFILE && q != np ==>
                slots[Slot(q, d)] == old(slots)[Slot(q, d)]
    {
      hide Ends, Counted;
      Sizes(file, slots, extra);
      for i := 0 to NOFILE
        invariant Valid() && |slots| == |old(slots)| == NPROC * NOFILE && OnlyCounts(old(file), file)
        invariant forall d: nat :: d < NOFILE ==> slots[Slot(np, d)] == if d < i then old(slots)[Slot(p, d)] else NIL
        invariant forall q: nat, d: nat :: q < NPROC && d < NOFILE && q != np ==>
                    slots[Slot(q, d)] == old(slots)[Slot(q, d)]
      {
        var f := ArgFd(p, i);
        Sizes(file, slots, extra);
        if f != NIL {
          FileDup(f);
          PutSlot(np, i, f);
        }
      }
    }

    /** The loop of exit over the descriptors. Returns the pages of the pipes that are gone with them, each once. */
    method ExitFiles(p: nat) returns (pages: seq<nat>)
      requires Valid() && p < NPROC
      modifies this`file, this`slots, this`extra, this`pipes
      ensures Valid() && OnlyCounts(old(file), file)
      ensures forall d: nat :: d < NOFILE ==> slots[Slot(p, d)] == NIL
      ensures forall q: nat, d: nat :: q < NPROC && d < NOFILE && q != p ==> slots[Slot(q, d)] == old(slots)[Slot(q, d)]
      ensures pipes.Keys <= old(pipes).Keys && forall x: nat :: x in pages <==> x in old(pipes) && x !in pipes
      ensures forall i, j :: 0 <= i < j < |pages| ==> pages[i] != pages[j]
    {
      hide Ends, Counted;
      Sizes(file, slots, extra);
      pages := [];
      for fd := 0 to NOFILE
        invariant Valid() && |slots| == |old(slots)| == NPROC * NOFILE && OnlyCounts(old(file), file)
        invariant forall d: nat :: d < fd ==> slots[Slot(p, d)] == NIL
        invariant forall q: nat, d: nat :: q < NPROC && d < NOFILE && q != p ==>
                    slots[Slot(q, d)] == old(slots)[Slot(q, d)]
        invariant pipes.Keys <= old(pipes).Keys && forall x: nat :: x in pages <==> x in old(pipes) && x !in pipes
        invariant forall i, j :: 0 <= i < j < |pages| ==> pages[i] != pages[j]
      {
        ghost var pipes1 := pipes;
        var r, freed := SysClose(p, fd);
        assert forall x: nat :: x in pipes <==> x in pipes1 && (freed == 0 || x != freed);
        if freed != 0 { pages := pages + [freed]; }
      }
    }
  }

  predicate TwoFiles(file: seq<File>)
    requires |file| == NFILE
  {
    exists f, g :: 0 <= f < g < NFILE && file[f].ref == 0 && file[g].ref == 0
  }

  predicate TwoSlots(slots: seq<nat>, p: nat)
    requires |slots| == NPROC * NOFILE && p < NPROC
  {
    exists d: nat, e: nat :: d < e < NOFILE && slots[Slot(p, d)] == NIL && slots[Slot(p, e)] == NIL
  }

  lemma SameCounts(file: seq<File>)
    requires |file| == NFILE
    ensures OnlyCounts(file, file)
  {
  }

  lemma BackAgain(file: seq<File>, file': seq<File>, f: nat, g: nat)
    requires |file| == |file'| == NFILE && f < NFILE && g < NFILE && file'[f].ref == 0 && file'[g].ref == 0
    requires forall x {:trigger file'[x]} :: 0 <= x < NFILE && x != f && x != g ==> file'[x] == file[x]
    ensures OnlyCounts(file, file')
  {
  }

  lemma Sizes(file: seq<File>, slots: seq<nat>, extra: seq<int>)
    requires Counted(file, slots, extra)
    ensures |file| == |extra| == NFILE && |slots| == NPROC * NOFILE && forall i :: 0 <= i < |slots| ==> slots[i] <= NIL
  {
  }

  lemma NewPipe(file: seq<File>, slots: seq<nat>, extra: seq<int>, pipes: map<nat, Open>, ends: map<nat, Pair>,
                rf: nat, wf: nat, page: nat)
    requires Counted(file, slots, extra) && Ends(file, pipes, ends) && rf < NFILE && wf < NFILE && rf != wf
    requires page !in pipes && page != 0
    requires file[rf].ref > 0 && file[wf].ref > 0 && file[rf].kind.FdNone? && file[wf].kind.FdNone?
    ensures var file1 := file[rf := file[rf].(kind := FdPipe, readable := true, writable := false, pipe := page)];
            var file2 := file1[wf := file1[wf].(kind := FdPipe, readable := false, writable := true, pipe := page)];
            Counted(file2, slots, extra) && Ends(file2, pipes[page := Open(true, true)], ends[page := Pair(rf, wf)])
  {
  }

  lemma NewInode(file: seq<File>, slots: seq<nat>, extra: seq<int>, pipes: map<nat, Open>, ends: map<nat, Pair>,
                 f: nat, readable: bool, writable: bool)
    requires Counted(file, slots, extra) && Ends(file, pipes, ends) && f < NFILE && file[f].ref > 0
    requires file[f].kind.FdNone?
    ensures var file1 := file[f := file[f].(kind := FdInode, readable := readable, writable := writable)];
            Counted(file1, slots, extra) && Ends(file1, pipes, ends)
  {
  }

  /** The caller's references after it has put f into a descriptor. */
  ghost function Claimed(extra: seq<int>, f: nat): (r: seq<int>)
  {
    if f < |extra| then extra[f := extra[f] - 1] else extra
  }

  /** The caller's references after it has taken f from a descriptor. */
  ghost function Released(extra: seq<int>, f: nat): (r: seq<int>)
  {
    if f < |extra| then extra[f := extra[f] + 1] else extra
  }
}
