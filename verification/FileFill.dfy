/**
Filling the log with file writes. On a well-formed file system with eight blocks of free map, whose inodes are on disk,
five writes to three files bring the log to a panic: one begins and waits, three overwrite ten blocks in all and end,
and when a fifth is let in the two that are open log ten blocks each, all different. Each write finds the file system as
the one before left it, and the whole is one run of the processes of Writers.
*/
module FileFill {
  import opened Param
  import opened Blocks
  import opened Bio
  import opened LogSpec
  import opened FsSpec
  import opened FileSteps
  import opened Fs
  import opened WriterSteps
  import opened LogLoad
  import opened Writers
  import opened FileLoad
  import P = LogProtocol

  /* ---------------- runs, step by step ---------------- */

  /** A run that has come to file system p, with the blocks h in the header and the operations ops. */
  ghost predicate At(sb: Super, g: Geometry, p0: Point, acts: seq<Act>, h: set<nat>, p: Point, ops: map<nat, Op>,
                     begun: set<nat>)
  {
    && Legal(sb, g, p0, acts)
    && var x := Exec(sb, g, p0, acts);
    && x.p == p && x.ops == ops && !x.log.committing && x.log.begun == begun
    && Elements(x.log.hdr) == h && |x.log.hdr| == |h|
  }

  lemma StartAt(sb: Super, g: Geometry, p0: Point)
    requires Ready(sb, g, p0)
    ensures At(sb, g, p0, [], {}, p0, map[], {})
  {
    hide Ready;
    assert Elements([]) == {};
  }

  lemma Further(sb: Super, g: Geometry, p0: Point, acts: seq<Act>, a: Act)
    requires Legal(sb, g, p0, acts)
    ensures var x := Exec(sb, g, p0, acts);
            && Sound(sb, g, p0, x) && Light(sb, x.log) && P.Shape(x.log, g)
            && (Can(sb, g, x, a) ==> Legal(sb, g, p0, acts + [a]) && Exec(sb, g, p0, acts + [a]) == Do(sb, g, x, a))
  {
    hide Sound, Light, P.Shape, Can, Do, Ready, Initial;
    SoundRun(sb, g, p0, acts);
    LightRun(sb, g, p0, acts);
    ShapeOf(sb, g, p0, Exec(sb, g, p0, acts));
    assert (acts + [a])[..|acts|] == acts;
  }

  lemma OpsOf(sb: Super, g: Geometry, p0: Point, x: Sys)
    requires Sound(sb, g, p0, x)
    ensures x.ops.Keys == x.log.outstanding.Keys && |x.ops| == |x.log.outstanding|
  {
    hide LogSound, P.Shape, Wf, Tasks, Quiet, Told, Placed, Noted, Stable, SameHome;
    assert |x.ops| == |x.ops.Keys| && |x.log.outstanding| == |x.log.outstanding.Keys|;
  }

  lemma BeginAt(sb: Super, g: Geometry, p0: Point, acts: seq<Act>, h: set<nat>, p: Point, ops: map<nat, Op>,
                begun: set<nat>, op: nat, job: Job)
    requires At(sb, g, p0, acts, h, p, ops, begun) && op !in begun && |h| + (|ops| + 1) * MAXOPBLOCKS <= LOGSIZE
    requires job.i < |p.ino| && |job.src| <= CHUNK
    ensures At(sb, g, p0, acts + [Begin(op, job)], h, p, ops[op := Waiting(job)], begun + {op})
  {
    hide Legal, Exec, Sound, Light, P.Shape, Elements;
    Further(sb, g, p0, acts, Begin(op, job));
    OpsOf(sb, g, p0, Exec(sb, g, p0, acts));
  }

  lemma LockAt(sb: Super, g: Geometry, p0: Point, acts: seq<Act>, h: set<nat>, p: Point, ops: map<nat, Op>,
               begun: set<nat>, op: nat)
    requires At(sb, g, p0, acts, h, p, ops, begun) && op in ops && ops[op].Waiting? && !Refused(p, ops[op].job)
    requires forall k :: k in ops && ops[k].Writing? ==> ops[k].task.job.i != ops[op].job.i
    ensures At(sb, g, p0, acts + [Lock(op)], h, p, ops[op := Writing(Task(ops[op].job, Loop(0), p, []))], begun)
  {
    hide Legal, Exec, Sound, Light, P.Shape, Elements;
    Further(sb, g, p0, acts, Lock(op));
    assert !InWritei(Exec(sb, g, p0, acts), ops[op].job.i);
  }

  lemma UnlockAt(sb: Super, g: Geometry, p0: Point, acts: seq<Act>, h: set<nat>, p: Point, ops: map<nat, Op>,
                 begun: set<nat>, op: nat)
    requires At(sb, g, p0, acts, h, p, ops, begun) && op in ops && ops[op].Writing? && ops[op].task.job.i < |p.ino|
    requires Finished(p, ops[op].task.job, ops[op].task.at)
    ensures At(sb, g, p0, acts + [Unlock(op)], h, p, ops[op := Over(ops[op].task.log)], begun)
  {
    hide Legal, Exec, Sound, Light, P.Shape, Elements, Finished;
    Further(sb, g, p0, acts, Unlock(op));
  }

  lemma EndAt(sb: Super, g: Geometry, p0: Point, acts: seq<Act>, h: set<nat>, p: Point, ops: map<nat, Op>,
              begun: set<nat>, op: nat)
    requires At(sb, g, p0, acts, h, p, ops, begun) && op in ops && ops[op].Over? && |ops| > 1
    ensures At(sb, g, p0, acts + [End(op)], h, p, ops - {op}, begun)
  {
    hide Legal, Exec, Sound, Light, P.Shape, Elements;
    Further(sb, g, p0, acts, End(op));
    OpsOf(sb, g, p0, Exec(sb, g, p0, acts));
  }

  /** How many blocks the header may hold for log_write not to panic. */
  function Guard(g: Geometry): (n: int) { if LOGSIZE <= g.size - 1 then LOGSIZE else g.size - 1 }

  lemma CallAt(sb: Super, g: Geometry, p0: Point, acts: seq<Act>, h: set<nat>, p: Point, ops: map<nat, Op>,
               begun: set<nat>, op: nat, w: Write, q: Point, at: Phase)
    requires At(sb, g, p0, acts, h, p, ops, begun) && op in ops && ops[op].Writing? && |h| < Guard(g)
    requires Step(sb, ops[op].task.job, p, ops[op].task.at, w, q, at)
    ensures At(sb, g, p0, acts + [Call(op, w, q, at)], h + {w.block}, q,
               ops[op := Writing(ops[op].task.(at := at, log := ops[op].task.log + [w]))], begun)
  {
    hide Legal, Exec, Sound, Light, P.Shape, Elements, Step, Absorb, Outside;
    var x := Exec(sb, g, p0, acts);
    Further(sb, g, p0, acts, Call(op, w, q, at));
    CallAllowed(sb, g, p0, x, op, w, q, at);
    OutsideMore(x.log.hdr, w.block, {});
    InHeader(x.log.hdr, w.block);
    AbsorbSize(x.log.hdr, w.block);
    AddOne(h, w.block);
  }

  /** Operation op has gone on inside writei. */
  function Advanced(ops: map<nat, Op>, op: nat, at: Phase, ws: seq<Write>): (r: map<nat, Op>)
    requires op in ops && ops[op].Writing?
    ensures r.Keys == ops.Keys && r[op].Writing?
  {
    ops[op := Writing(ops[op].task.(at := at, log := ops[op].task.log + ws))]
  }

  lemma AdvancedOn(ops: map<nat, Op>, op: nat, at: Phase, ws: seq<Write>, at': Phase, w: Write)
    requires op in ops && ops[op].Writing?
    ensures var mid := Advanced(ops, op, at, ws);
            && mid[op].task == ops[op].task.(at := at, log := ops[op].task.log + ws)
            && mid[op := Writing(mid[op].task.(at := at', log := mid[op].task.log + [w]))] ==
               Advanced(ops, op, at', ws + [w])
  {
    assert ops[op].task.log + ws + [w] == ops[op].task.log + (ws + [w]);
  }

  lemma AdvancedNot(ops: map<nat, Op>, op: nat)
    requires op in ops && ops[op].Writing?
    ensures Advanced(ops, op, ops[op].task.at, []) == ops
  {
    assert ops[op].task.log + [] == ops[op].task.log;
  }

  /** The calls of one writei, with nobody in between. */
  lemma {:induction false} Alone(sb: Super, g: Geometry, p0: Point, acts: seq<Act>, h: set<nat>, p: Point,
                                 ops: map<nat, Op>, begun: set<nat>, op: nat, ws: seq<Write>, q: Point, at: Phase)
    returns (acts': seq<Act>)
    requires At(sb, g, p0, acts, h, p, ops, begun) && op in ops && ops[op].Writing?
    requires Went(sb, ops[op].task.job, p, ops[op].task.at, ws, q, at)
    requires ws != [] ==> |h + Touched(ws[..|ws| - 1])| < Guard(g)
    ensures At(sb, g, p0, acts', h + Touched(ws), q, Advanced(ops, op, at, ws), begun)
    decreases |ws|
  {
    hide At, Step, Touched, Advanced, Guard;
    if ws == [] {
      acts' := acts;
      NothingTouched();
      AdvancedNot(ops, op);
      assert h + {} == h;
    } else {
      var m := |ws| - 1;
      var before, job := ws[..m], ops[op].task.job;
      var n, y :| Went(sb, job, p, ops[op].task.at, before, n, y) && Step(sb, job, n, y, ws[m], q, at);
      ShorterFits(h, before, Guard(g));
      acts' := Alone(sb, g, p0, acts, h, p, ops, begun, op, before, n, y);
      AdvancedOn(ops, op, y, before, at, ws[m]);
      CallAt(sb, g, p0, acts', h + Touched(before), n, Advanced(ops, op, y, before), begun, op, ws[m], q, at);
      acts' := acts' + [Call(op, ws[m], q, at)];
      TouchedMore(before, ws[m]);
      assert before + [ws[m]] == ws;
      assert h + Touched(before) + {ws[m].block} == h + Touched(ws);
    }
  }

  lemma ShorterFits(h: set<nat>, ws: seq<Write>, n: int)
    requires |h + Touched(ws)| < n
    ensures ws != [] ==> |h + Touched(ws[..|ws| - 1])| < n
  {
    hide Touched;
    if ws != [] {
      TouchedPrefix(ws[..|ws| - 1], ws, {});
      SubsetSize(h + Touched(ws[..|ws| - 1]), h + Touched(ws));
    }
  }

  /** A call of writei that takes the file system from one point to another. */
  datatype Leg = Leg(job: Job, from: Point, ws: seq<Write>, to: Point, at: Phase)

  /** It does so step by step, from the first to the last. */
  ghost predicate Whole(sb: Super, l: Leg)
  {
    && l.job.i < |l.from.ino| && l.job.i < |l.to.ino| && |l.job.src| <= CHUNK && !Refused(l.from, l.job)
    && Went(sb, l.job, l.from, Loop(0), l.ws, l.to, l.at) && Finished(l.to, l.job, l.at)
  }

  /** An operation locks its inode and makes all its calls. */
  lemma Enters(sb: Super, g: Geometry, p0: Point, acts: seq<Act>, h: set<nat>, ops: map<nat, Op>, begun: set<nat>,
               op: nat, l: Leg)
    returns (acts': seq<Act>)
    requires At(sb, g, p0, acts, h, l.from, ops, begun) && op in ops && ops[op] == Waiting(l.job) && Whole(sb, l)
    requires forall k :: k in ops && ops[k].Writing? ==> ops[k].task.job.i != l.job.i
    requires |h + Touched(l.ws)| < Guard(g)
    ensures At(sb, g, p0, acts', h + Touched(l.ws), l.to, ops[op := Writing(Task(l.job, l.at, l.from, l.ws))], begun)
  {
    hide At, Step, Touched, Went, Finished, Refused, Guard;
    LockAt(sb, g, p0, acts, h, l.from, ops, begun, op);
    var locked := ops[op := Writing(Task(l.job, Loop(0), l.from, []))];
    ShorterFits(h, l.ws, Guard(g));
    acts' := Alone(sb, g, p0, acts + [Lock(op)], h, l.from, locked, begun, op, l.ws, l.to, l.at);
    assert [] + l.ws == l.ws;
    assert Advanced(locked, op, l.at, l.ws) == ops[op := Writing(Task(l.job, l.at, l.from, l.ws))];
  }

  /** A transaction from beginning to end while another waits. */
  lemma Passes(sb: Super, g: Geometry, p0: Point, acts: seq<Act>, h: set<nat>, ops: map<nat, Op>, begun: set<nat>,
               op: nat, l: Leg)
    returns (acts': seq<Act>)
    requires At(sb, g, p0, acts, h, l.from, ops, begun) && op !in begun && op !in ops && |ops| == 1 && |h| <= 10
    requires (forall k :: k in ops ==> ops[k].Waiting?) && Whole(sb, l) && |h + Touched(l.ws)| < Guard(g)
    ensures At(sb, g, p0, acts', h + Touched(l.ws), l.to, ops, begun + {op})
  {
    hide At, Step, Touched, Went, Finished, Refused, Guard;
    BeginAt(sb, g, p0, acts, h, l.from, ops, begun, op, l.job);
    var o, b := ops[op := Waiting(l.job)], begun + {op};
    acts' := Enters(sb, g, p0, acts + [Begin(op, l.job)], h, o, b, op, l);
    o := o[op := Writing(Task(l.job, l.at, l.from, l.ws))];
    UnlockAt(sb, g, p0, acts', h + Touched(l.ws), l.to, o, b, op);
    o := o[op := Over(l.ws)];
    assert |o.Keys| == 2 by { assert o.Keys == ops.Keys + {op}; }
    EndAt(sb, g, p0, acts' + [Unlock(op)], h + Touched(l.ws), l.to, o, b, op);
    assert o - {op} == ops;
    acts' := acts' + [Unlock(op)] + [End(op)];
  }

  lemma AddOne(h: set<nat>, b: nat)
    ensures |h + {b}| == |h| + if b in h then 0 else 1
  {
    if b in h { assert h + {b} == h; }
  }

  lemma InHeader(hdr: seq<nat>, b: nat)
    ensures b in hdr <==> b in Elements(hdr)
  {
  }

  lemma AbsorbSize(hdr: seq<nat>, b: nat)
    ensures |Absorb(hdr, b)| == |hdr| + if b in hdr then 0 else 1
  {
  }

  /** The first call after which h and what has been logged are n blocks. */
  lemma {:induction false} FirstAt(h: set<nat>, ws: seq<Write>, n: nat) returns (t: nat)
    requires |h| <= n <= |h + Touched(ws)|
    ensures t <= |ws| && |h + Touched(ws[..t])| == n && (t > 0 ==> |h + Touched(ws[..t - 1])| < n)
    decreases |ws|
  {
    hide Touched;
    assert ws[..|ws|] == ws;
    NothingTouched();
    assert h + {} == h;
    if ws == [] {
      t := 0;
    } else {
      var m := |ws| - 1;
      assert ws == ws[..m] + [ws[m]];
      TouchedMore(ws[..m], ws[m]);
      assert h + Touched(ws) == h + Touched(ws[..m]) + {ws[m].block};
      if n <= |h + Touched(ws[..m])| {
        t := FirstAt(h, ws[..m], n);
        assert ws[..m][..t] == ws[..t] && (t > 0 ==> ws[..m][..t - 1] == ws[..t - 1]);
      } else {
        t := |ws|;
      }
    }
  }

  /** A part of the steps, and the step that comes next. */
  lemma {:induction false} Halfway(sb: Super, job: Job, p: Point, at: Phase, ws: seq<Write>, q: Point, at': Phase,
                                   t: nat)
    returns (n: Point, y: Phase, n': Point, y': Phase)
    requires Went(sb, job, p, at, ws, q, at') && t < |ws|
    ensures Went(sb, job, p, at, ws[..t], n, y) && Step(sb, job, n, y, ws[t], n', y')
    decreases |ws|
  {
    hide Step;
    var m := |ws| - 1;
    var k, z :| Went(sb, job, p, at, ws[..m], k, z) && Step(sb, job, k, z, ws[m], q, at');
    if t == m {
      n, y, n', y' := k, z, q, at';
    } else {
      n, y, n', y' := Halfway(sb, job, p, at, ws[..m], k, z, t);
      assert ws[..m][..t] == ws[..t];
    }
  }

  /** The last operation ends, and the commit begins with what the header holds. */
  lemma LastEnd(sb: Super, g: Geometry, p0: Point, acts: seq<Act>, h: set<nat>, p: Point, ops: map<nat, Op>,
                begun: set<nat>, op: nat)
    requires At(sb, g, p0, acts, h, p, ops, begun) && op in ops && ops[op].Over? && |ops| == 1 && |h| >= NBUF
    ensures Legal(sb, g, p0, acts + [End(op)]) && LogPanic(sb, g, Exec(sb, g, p0, acts + [End(op)]))
  {
    hide Legal, Exec, Sound, Light, P.Shape, Elements, TooBigCall;
    Further(sb, g, p0, acts, End(op));
    OpsOf(sb, g, p0, Exec(sb, g, p0, acts));
  }

  /** Two operations inside writei, the second at its last call and the header full: the first has ended too, so both
      unlock and end, and the commit finds no buffer. */
  lemma BothEnd(sb: Super, g: Geometry, p0: Point, acts: seq<Act>, h: set<nat>, p: Point, ops: map<nat, Op>,
                begun: set<nat>, op: nat, op': nat)
    returns (acts': seq<Act>)
    requires At(sb, g, p0, acts, h, p, ops, begun) && op != op' && ops.Keys == {op, op'} && |h| >= NBUF
    requires forall k :: k in ops ==> ops[k].Writing? && ops[k].task.job.i < |p.ino|
                                      && Finished(p, ops[k].task.job, ops[k].task.at)
    ensures Legal(sb, g, p0, acts') && LogPanic(sb, g, Exec(sb, g, p0, acts'))
  {
    hide At, Finished, LogPanic, Legal, Exec;
    UnlockAt(sb, g, p0, acts, h, p, ops, begun, op);
    acts' := acts + [Unlock(op)];
    var o := ops[op := Over(ops[op].task.log)];
    UnlockAt(sb, g, p0, acts', h, p, o, begun, op');
    acts' := acts' + [Unlock(op')];
    o := o[op' := Over(ops[op'].task.log)];
    assert o.Keys == {op, op'} && |o.Keys| == |o| == 2;
    EndAt(sb, g, p0, acts', h, p, o, begun, op);
    acts' := acts' + [End(op)];
    o := o - {op};
    assert o.Keys == {op'} && |o.Keys| == |o| == 1;
    LastEnd(sb, g, p0, acts', h, p, o, begun, op');
    acts' := acts' + [End(op')];
  }

  /** A call that would find the guard of log_write met. */
  lemma Met(sb: Super, g: Geometry, p0: Point, acts: seq<Act>, h: set<nat>, p: Point, ops: map<nat, Op>,
            begun: set<nat>, op: nat, w: Write, q: Point, at: Phase)
    requires At(sb, g, p0, acts, h, p, ops, begun) && op in ops && ops[op].Writing? && |h| >= Guard(g)
    requires Step(sb, ops[op].task.job, p, ops[op].task.at, w, q, at)
    ensures LogPanic(sb, g, Exec(sb, g, p0, acts))
  {
    hide Legal, Exec, Step, Elements;
    assert Calls(sb, Exec(sb, g, p0, acts), op, w, q, at);
  }

  /** The second of two writers, whose blocks fill the header while it is inside writei. */
  lemma Fills(sb: Super, g: Geometry, p0: Point, acts: seq<Act>, h: set<nat>, ops: map<nat, Op>, begun: set<nat>,
              o: Leg, n: Leg)
    returns (acts': seq<Act>)
    requires At(sb, g, p0, acts, h, n.from, ops, begun) && ops.Keys == {0, 4} && g.size >= LOGSIZE
    requires ops[0] == Writing(Task(o.job, Ended, o.from, o.ws)) && ops[4] == Writing(Task(n.job, Loop(0), n.from, []))
    requires o.job.i < |n.to.ino| && Whole(sb, n) && |h| <= 20 && |h + Touched(n.ws)| == LOGSIZE
    ensures Legal(sb, g, p0, acts') && LogPanic(sb, g, Exec(sb, g, p0, acts'))
  {
    hide At, Step, Touched, Went, Refused, LogPanic, Legal, Exec, Advanced;
    var t := FirstAt(h, n.ws, Guard(g));
    if t < |n.ws| {
      var m, y, m', y' := Halfway(sb, n.job, n.from, Loop(0), n.ws, n.to, n.at, t);
      if t > 0 {
        assert n.ws[..t][..t - 1] == n.ws[..t - 1];
      }
      acts' := Alone(sb, g, p0, acts, h, n.from, ops, begun, 4, n.ws[..t], m, y);
      var now := Advanced(ops, 4, y, n.ws[..t]);
      AdvancedOn(ops, 4, y, n.ws[..t], y, n.ws[t]);
      Met(sb, g, p0, acts', h + Touched(n.ws[..t]), m, now, begun, 4, n.ws[t], m', y');
      LegalAt(sb, g, p0, acts', h + Touched(n.ws[..t]), m, now, begun);
    } else {
      assert n.ws[..t] == n.ws;
      acts' := Alone(sb, g, p0, acts, h, n.from, ops, begun, 4, n.ws, n.to, n.at);
      BothThere(ops, o, n);
      acts' := BothEnd(sb, g, p0, acts', h + Touched(n.ws), n.to, Advanced(ops, 4, n.at, n.ws), begun, 0, 4);
    }
  }

  lemma BothThere(ops: map<nat, Op>, o: Leg, n: Leg)
    requires ops.Keys == {0, 4} && ops[0] == Writing(Task(o.job, Ended, o.from, o.ws))
    requires ops[4] == Writing(Task(n.job, Loop(0), n.from, []))
    ensures var r := Advanced(ops, 4, n.at, n.ws);
            r.Keys == {0, 4} && r[0] == ops[0] && r[4].task.job == n.job && r[4].task.at == n.at
  {
  }

  lemma LegalAt(sb: Super, g: Geometry, p0: Point, acts: seq<Act>, h: set<nat>, p: Point, ops: map<nat, Op>,
                begun: set<nat>)
    requires At(sb, g, p0, acts, h, p, ops, begun)
    ensures Legal(sb, g, p0, acts)
  {
  }

  /** Five transactions, one after another on the same file system: the first three while the fourth waits to enter
      writei, the fifth beside the fourth. If they log thirty blocks between them, the log panics. */
  lemma GuardMet(sb: Super, g: Geometry, p0: Point, a: Leg, b: Leg, c: Leg, o: Leg, n: Leg)
    returns (acts: seq<Act>)
    requires Ready(sb, g, p0) && g.size >= LOGSIZE && Whole(sb, a) && Whole(sb, b) && Whole(sb, c) && Whole(sb, o)
    requires Whole(sb, n) && o.at == Ended && o.job.i != n.job.i
    requires a.from == p0 && b.from == a.to && c.from == b.to && o.from == c.to && n.from == o.to
    requires |p0.ino| == |c.to.ino| == |n.to.ino|
    requires |Touched(a.ws)| <= 4 && |Touched(b.ws)| <= 4 && |Touched(c.ws)| <= 2 && |Touched(o.ws)| <= 10
    requires |Touched(a.ws) + Touched(b.ws) + Touched(c.ws) + Touched(o.ws) + Touched(n.ws)| == LOGSIZE
    ensures Legal(sb, g, p0, acts) && LogPanic(sb, g, Exec(sb, g, p0, acts))
  {
    hide At, Step, Touched, Went, Finished, LogPanic, Legal, Exec, Ready, Refused;
    var h: set<nat>, ops := {}, map[0 := Waiting(o.job)];
    StartAt(sb, g, p0);
    BeginAt(sb, g, p0, [], {}, p0, map[], {}, 0, o.job);
    assert map[][0 := Waiting(o.job)] == ops && {} + {0} == {0};
    acts := Passes(sb, g, p0, [] + [Begin(0, o.job)], h, ops, {0}, 1, a);
    h := h + Touched(a.ws);
    acts := Passes(sb, g, p0, acts, h, ops, {0} + {1}, 2, b);
    h := h + Touched(b.ws);
    acts := Passes(sb, g, p0, acts, h, ops, {0} + {1} + {2}, 3, c);
    h := h + Touched(c.ws);
    acts := TwoEnter(sb, g, p0, acts, h, {0} + {1} + {2} + {3}, o, n);
  }

  lemma TwoEnter(sb: Super, g: Geometry, p0: Point, acts: seq<Act>, h: set<nat>, begun: set<nat>, o: Leg, n: Leg)
    returns (acts': seq<Act>)
    requires At(sb, g, p0, acts, h, o.from, map[0 := Waiting(o.job)], begun) && 4 !in begun && g.size >= LOGSIZE
    requires Whole(sb, o) && Whole(sb, n) && o.at == Ended && n.from == o.to && o.job.i != n.job.i
    requires n.job.i < |o.from.ino| && o.job.i < |n.to.ino|
    requires |h| <= 10 && |Touched(o.ws)| <= 10 && |h + Touched(o.ws) + Touched(n.ws)| == LOGSIZE
    ensures Legal(sb, g, p0, acts') && LogPanic(sb, g, Exec(sb, g, p0, acts'))
  {
    hide At, Touched, Went, Finished, LogPanic, Legal, Exec, Refused;
    var ops, b := map[0 := Waiting(o.job)], begun + {4};
    BeginAt(sb, g, p0, acts, h, o.from, ops, begun, 4, n.job);
    ops := map[0 := Waiting(o.job), 4 := Waiting(n.job)];
    assert map[0 := Waiting(o.job)][4 := Waiting(n.job)] == ops;
    acts' := Enters(sb, g, p0, acts + [Begin(4, n.job)], h, ops, b, 0, o);
    ops := ops[0 := Writing(Task(o.job, Ended, o.from, o.ws))];
    LockAt(sb, g, p0, acts', h + Touched(o.ws), o.to, ops, b, 4);
    ops := ops[4 := Writing(Task(n.job, Loop(0), n.from, []))];
    acts' := Fills(sb, g, p0, acts' + [Lock(4)], h + Touched(o.ws), ops, b, o, n);
  }

  /* ---------------- the disk ---------------- */

  /** A layout with eight or more blocks of free map and three of inodes, the log in front. */
  predicate Suits(sb: Super, g: Geometry)
  {
    && Layout(sb, sb.size) && sb.inodestart + 3 <= sb.bmapstart && sb.datastart + 50 < BPB && sb.size > 7 * BPB
    && 0 < g.size && g.start + g.size <= sb.inodestart
  }

  /** The eight free blocks, each with its bit in another block of the free map. */
  predicate IsFree(sb: Super, b: nat) { b == sb.datastart + 50 || (b % BPB == 0 && 1 <= b / BPB <= 7) }

  function FullBlock(): (b: Block) { Block(seq(BSIZE, _ => 255)) }

  lemma FullBits(k: nat)
    requires k < BPB
    ensures Bit(FullBlock(), k)
  {
    AllOnes(k % 8);
    assert FullBlock().bytes[k / 8] == 255;
  }

  lemma AllOnes(j: nat)
    requires j < 8
    ensures TestBit(255, j)
  {
    assert TestBit(255, 0) && TestBit(127, 0) && TestBit(63, 0) && TestBit(31, 0);
    assert TestBit(15, 0) && TestBit(7, 0) && TestBit(3, 0) && TestBit(1, 0);
    assert TestBit(3, 1) && TestBit(7, 2) && TestBit(15, 3);
    assert TestBit(31, 4) && TestBit(63, 5) && TestBit(127, 6) && TestBit(255, 7);
  }

  /** Block j of the free map. */
  function MapBlock(sb: Super, j: nat): (b: Block)
    requires sb.datastart + 50 < BPB
  {
    if j == 0 then PutBlockBit(FullBlock(), sb.datastart + 50, false)
    else if j < 8 then PutBlockBit(FullBlock(), 0, false) else FullBlock()
  }

  lemma OneBit(k: nat, j: nat)
    requires k < BPB && j < BPB
    ensures Bit(PutBlockBit(FullBlock(), k, false), j) == if j == k then false else Bit(FullBlock(), j)
  {
    hide FullBlock;
  }

  function Addrs(base: nat, n: nat): (a: seq<nat>)
    ensures |a| == NDIRECT + 1 && forall t :: 0 <= t <= NDIRECT ==> a[t] == if t < n then base + t else 0
  {
    seq(NDIRECT + 1, t requires 0 <= t <= NDIRECT => if t < n then base + t else 0)
  }

  /** A file of ten blocks, and two that end inside their twelfth. */
  function File(sb: Super, i: nat): (n: Inode)
  {
    if i == 0 then Inode(10 * BSIZE, Addrs(sb.datastart, 10))
    else if i == 8 then Inode(11 * BSIZE + 1, Addrs(sb.datastart + 10, 12))
    else if i == 16 then Inode(11 * BSIZE + 1, Addrs(sb.datastart + 22, 12))
    else Inode(0, Addrs(0, 0))
  }

  function Inodes0(sb: Super): (r: seq<Inode>)
    ensures |r| == 17 && forall i :: 0 <= i < 17 ==> r[i] == File(sb, i)
  {
    seq(17, i requires 0 <= i < 17 => File(sb, i))
  }

  /** The first three inode blocks hold a file each, the free map follows, and all else is zero. */
  function DiskBlock(sb: Super, b: nat): (r: Block)
    requires sb.datastart + 50 < BPB
  {
    if sb.bmapstart <= b < sb.datastart then MapBlock(sb, b - sb.bmapstart)
    else if sb.inodestart <= b < sb.inodestart + 3 then PutInode(ZeroBlock(), 0, File(sb, IPB * (b - sb.inodestart)))
    else ZeroBlock()
  }

  function Blocks0(sb: Super): (r: seq<Block>)
    requires sb.datastart + 50 < BPB
    ensures |r| == sb.size
  {
    seq(sb.size, b requires 0 <= b < sb.size => DiskBlock(sb, b))
  }

  lemma UsedButFree(sb: Super, g: Geometry, b: nat)
    requires Suits(sb, g) && b < sb.size
    ensures Used(sb, Blocks0(sb), b) <==> !IsFree(sb, b)
  {
    hide Bit, PutBlockBit, FullBlock;
    BitmapBlockIsMeta(sb, sb.size, b);
    FullBits(b % BPB);
    var j := b / BPB;
    assert Blocks0(sb)[BitmapBlock(sb, b)] == MapBlock(sb, j);
    if j == 0 {
      OneBit(sb.datastart + 50, b % BPB);
    } else {
      OneBit(0, b % BPB);
    }
  }

  function OwnerOf(sb: Super, b: nat): (o: (nat, nat))
    requires sb.datastart <= b
  {
    if b < sb.datastart + 10 then (0, b - sb.datastart)
    else if b < sb.datastart + 22 then (8, b - sb.datastart - 10) else (16, b - sb.datastart - 22)
  }

  function Owner0(sb: Super): (o: Owners) { map b: nat | sb.datastart <= b < sb.datastart + 34 :: OwnerOf(sb, b) }

  lemma Start(sb: Super, g: Geometry)
    requires Suits(sb, g)
    ensures Wf(sb, Blocks0(sb), Inodes0(sb), Owner0(sb)) && Synced(sb, Blocks0(sb), Inodes0(sb))
  {
    hide Used, Blocks0, Synced;
    OnDisk(sb, g);
    var blocks, ino, owner := Blocks0(sb), Inodes0(sb), Owner0(sb);
    assert Inodes(ino);
    forall i, s {:trigger Slot(blocks, ino, i, s)} | 0 <= i < 17 && 0 <= s <= INDIRECT && Slot(blocks, ino, i, s) != 0
      ensures Slot(blocks, ino, i, s) in owner && owner[Slot(blocks, ino, i, s)] == (i, s)
    {
      assert s < NDIRECT && Slot(blocks, ino, i, s) == File(sb, i).addrs[s];
    }
    forall b | b in owner
      ensures Slot(blocks, ino, owner[b].0, owner[b].1) == b
    {
    }
    forall b: nat | b < sb.datastart || b in owner ensures Used(sb, blocks, b) {
      UsedButFree(sb, g, b);
    }
  }

  /** The disk has the three files and the empty inodes between them. */
  lemma OnDisk(sb: Super, g: Geometry)
    requires Suits(sb, g)
    ensures Synced(sb, Blocks0(sb), Inodes0(sb))
  {
    hide InodeBlock, DiskInode, Blocks0, File;
    forall i: nat | i < 17 ensures InodeBlock(sb, i) < sb.size && DiskInode(sb, Blocks0(sb), i) == File(sb, i) {
      OneOnDisk(sb, g, i);
    }
  }

  lemma OneOnDisk(sb: Super, g: Geometry, i: nat)
    requires Suits(sb, g) && i < 17
    ensures InodeBlock(sb, i) < sb.size && DiskInode(sb, Blocks0(sb), i) == File(sb, i)
  {
    hide PutInode, InodeIn, MapBlock, File;
    var first := IPB * (i / IPB);
    FileWords(sb, first);
    InodeRoundTrip(ZeroBlock(), 0, File(sb, first));
    assert Blocks0(sb)[InodeBlock(sb, i)] == PutInode(ZeroBlock(), 0, File(sb, first));
    if i % IPB != 0 { NoFile(sb, i); }
  }

  lemma FileWords(sb: Super, i: nat)
    requires sb.datastart + 50 < BPB
    ensures |File(sb, i).addrs| == NDIRECT + 1 && File(sb, i).size < UINT_MOD
    ensures forall t :: 0 <= t < NDIRECT + 1 ==> File(sb, i).addrs[t] < UINT_MOD
  {
  }

  lemma NoFile(sb: Super, i: nat)
    requires i % IPB != 0
    ensures InodeIn(ZeroBlock(), i % IPB) == File(sb, i)
  {
    assert forall k {:trigger Word(ZeroBlock(), k)} :: 0 <= k < WORDS ==> Word(ZeroBlock(), k) == 0;
    assert InodeIn(ZeroBlock(), i % IPB).addrs == File(sb, i).addrs;
  }

  lemma EmptyLog(sb: Super, g: Geometry)
    requires Suits(sb, g)
    ensures WfDisk(Blocks0(sb), g) && HeaderOf(Blocks0(sb)[g.start]) == []
  {
    assert Blocks0(sb)[g.start] == ZeroBlock() && Word(ZeroBlock(), 0) == 0;
  }

  /* ---------------- the writes ---------------- */

  ghost function FreeBlocks(sb: Super, blocks: seq<Block>): (s: set<nat>)
    requires Layout(sb, |blocks|)
  {
    set b: nat | b < sb.size && !Used(sb, blocks, b)
  }

  /** Overwriting blocks lo to hi - 1 of file 0 logs those blocks and nothing else. */
  lemma OverwriteLog(sb: Super, b0: seq<Block>, blocks: seq<Block>, ino: seq<Inode>, off: nat, n: nat)
    requires Inodes(ino) && |ino| == 17 && ino[0] == File(sb, 0) && 0 < n && off + n <= 10 * BSIZE
    requires EndBlock(off, n) <= 10 && off / BSIZE <= 10
    ensures WriteLog(sb, b0, ino, blocks, ino, 0, off, n) ==
            Interval(sb.datastart + off / BSIZE, EndBlock(off, n) - off / BSIZE)
    ensures Gained(b0, ino, blocks, ino, 0) == {}
  {
    hide EndBlock, Interval;
    var lo, hi := off / BSIZE, EndBlock(off, n);
    forall t | 0 <= t <= INDIRECT ensures Slot(b0, ino, 0, t) == Slot(blocks, ino, 0, t) {
    }
    assert Gained(b0, ino, blocks, ino, 0) == {};
    assert AllocLog(sb, b0, ino, blocks, ino, 0) == {};
    IntervalIs(sb.datastart + lo, hi - lo);
    var data := DataIn(blocks, ino, 0, lo, hi);
    forall b ensures b in data <==> b in Interval(sb.datastart + lo, hi - lo) {
      if b in Interval(sb.datastart + lo, hi - lo) {
        assert Slot(blocks, ino, 0, b - sb.datastart) == b;
      }
    }
  }

  lemma IntervalIs(lo: nat, n: nat)
    ensures |Interval(lo, n)| == n && forall x :: x in Interval(lo, n) <==> lo <= x < lo + n
  {
  }

  lemma FileZero(sb: Super)
    ensures File(sb, 0).size == 10 * BSIZE
  {
  }

  lemma SameFree(sb: Super, b0: seq<Block>, i0: seq<Inode>, blocks: seq<Block>, ino: seq<Inode>, i: nat)
    requires Inodes(i0) && Inodes(ino) && i < |i0| && i < |ino| && MapGrows(sb, b0, i0, blocks, ino, i)
    ensures Layout(sb, |b0|) && Layout(sb, |blocks|)
    ensures FreeBlocks(sb, blocks) == FreeBlocks(sb, b0) - Gained(b0, i0, blocks, ino, i)
    ensures Gained(b0, i0, blocks, ino, i) <= FreeBlocks(sb, b0)
  {
    hide Used, Gained;
  }

  const TAIL := 11 * BSIZE + 1 // where files 8 and 16 end

  /** The last block of file 8 or 16. */
  function LastBlock(sb: Super, i: nat): (b: nat) { if i == 8 then sb.datastart + 21 else sb.datastart + 33 }

  /** A chunk written at the end of such a file meets its last block and three new ones, reached through a new indirect
      block. */
  lemma AppendGains(sb: Super, p: Point, q: Point, i: nat)
    requires Wf(sb, p.blocks, p.ino, p.owner) && Wf(sb, q.blocks, q.ino, q.owner) && Inodes(p.ino) && Inodes(q.ino)
    requires (i == 8 || i == 16) && |p.ino| == |q.ino| == 17 && p.ino[i] == File(sb, i) && q.ino[i].size == TAIL + CHUNK
    requires SlotsGrow(p.blocks, p.ino, q.blocks, q.ino) && GainsAt(p.blocks, p.ino, q.blocks, q.ino, i, 11, 15)
    ensures var g := Gained(p.blocks, p.ino, q.blocks, q.ino, i);
            && |g| == 4 && q.ino[i].addrs[NDIRECT] in g && Through(p.blocks, p.ino, q.blocks, q.ino, i) <= g
            && DataIn(q.blocks, q.ino, i, 11, 15) + Through(p.blocks, p.ino, q.blocks, q.ino, i) ==
                 g + {LastBlock(sb, i)}
  {
    hide Wf, GainsAt, SlotsGrow, Slot, Gained, Through, DataIn, File;
    AppendSlots(sb, p, q, i);
    FourGained(p.blocks, p.ino, q.blocks, q.ino, i);
    FourApart(sb, q, i);
  }

  lemma AppendSlots(sb: Super, p: Point, q: Point, i: nat)
    requires Wf(sb, p.blocks, p.ino, p.owner) && Wf(sb, q.blocks, q.ino, q.owner) && Inodes(p.ino) && Inodes(q.ino)
    requires (i == 8 || i == 16) && |p.ino| == |q.ino| == 17 && p.ino[i] == File(sb, i) && q.ino[i].size == TAIL + CHUNK
    requires SlotsGrow(p.blocks, p.ino, q.blocks, q.ino)
    ensures forall t :: 11 <= t < 15 ==> Slot(q.blocks, q.ino, i, t) != 0
    ensures forall t :: NDIRECT <= t <= INDIRECT ==> Slot(p.blocks, p.ino, i, t) == 0
    ensures Slot(p.blocks, p.ino, i, 11) == LastBlock(sb, i) == Slot(q.blocks, q.ino, i, 11)
  {
    hide Owned, InUse, Layout, NoHoles;
    forall t | 11 <= t < 15 ensures Slot(q.blocks, q.ino, i, t) != 0 {
      NoHoleAt(sb, q.blocks, q.ino, q.owner, i, t * BSIZE);
    }
    forall t | NDIRECT <= t <= INDIRECT ensures Slot(p.blocks, p.ino, i, t) == 0 {
    }
    assert Slot(p.blocks, p.ino, i, 11) != 0;
  }

  lemma FourGained(b0: seq<Block>, i0: seq<Inode>, blocks: seq<Block>, ino: seq<Inode>, i: nat)
    requires Inodes(i0) && Inodes(ino) && i < |i0| == |ino| && GainsAt(b0, i0, blocks, ino, i, 11, 15)
    requires forall t :: 11 <= t < 15 ==> Slot(blocks, ino, i, t) != 0
    requires forall t :: NDIRECT <= t <= INDIRECT ==> Slot(b0, i0, i, t) == 0
    requires Slot(b0, i0, i, 11) == Slot(blocks, ino, i, 11)
    ensures ino[i].addrs[NDIRECT] != 0 && Slot(blocks, ino, i, INDIRECT) == ino[i].addrs[NDIRECT]
    ensures Gained(b0, i0, blocks, ino, i) ==
              {Slot(blocks, ino, i, 12), Slot(blocks, ino, i, 13), Slot(blocks, ino, i, 14), ino[i].addrs[NDIRECT]}
    ensures Through(b0, i0, blocks, ino, i) == {ino[i].addrs[NDIRECT]}
    ensures DataIn(blocks, ino, i, 11, 15) ==
              {Slot(blocks, ino, i, 11), Slot(blocks, ino, i, 12), Slot(blocks, ino, i, 13), Slot(blocks, ino, i, 14)}
  {
    assert Slot(blocks, ino, i, 12) != 0 && Slot(blocks, ino, i, INDIRECT) == ino[i].addrs[NDIRECT] != 0;
    FourOf(b0, i0, blocks, ino, i);
  }

  lemma FourOf(b0: seq<Block>, i0: seq<Inode>, blocks: seq<Block>, ino: seq<Inode>, i: nat)
    requires Inodes(i0) && Inodes(ino) && i < |i0| == |ino| && GainsAt(b0, i0, blocks, ino, i, 11, 15)
    requires forall t :: 11 <= t < 15 ==> Slot(blocks, ino, i, t) != 0
    requires forall t :: NDIRECT <= t <= INDIRECT ==> Slot(b0, i0, i, t) == 0
    requires Slot(b0, i0, i, 11) == Slot(blocks, ino, i, 11) && Slot(blocks, ino, i, INDIRECT) != 0
    ensures Gained(b0, i0, blocks, ino, i) ==
              {Slot(blocks, ino, i, 12), Slot(blocks, ino, i, 13), Slot(blocks, ino, i, 14),
               Slot(blocks, ino, i, INDIRECT)}
    ensures DataIn(blocks, ino, i, 11, 15) ==
              {Slot(blocks, ino, i, 11), Slot(blocks, ino, i, 12), Slot(blocks, ino, i, 13), Slot(blocks, ino, i, 14)}
    ensures Through(b0, i0, blocks, ino, i) == {ino[i].addrs[NDIRECT]}
  {
    hide Slot;
    assert Slot(b0, i0, i, INDIRECT) == 0;
    forall b | b in Gained(b0, i0, blocks, ino, i)
      ensures b in {Slot(blocks, ino, i, 12), Slot(blocks, ino, i, 13), Slot(blocks, ino, i, 14),
                    Slot(blocks, ino, i, INDIRECT)}
    {
      var t :| 0 <= t <= INDIRECT && Slot(b0, i0, i, t) == 0 && Slot(blocks, ino, i, t) != 0
               && Slot(blocks, ino, i, t) == b;
      assert 11 <= t < 15 || t == INDIRECT;
      assert t != 11;
    }
    forall b | b in DataIn(blocks, ino, i, 11, 15)
      ensures b in {Slot(blocks, ino, i, 11), Slot(blocks, ino, i, 12), Slot(blocks, ino, i, 13),
                    Slot(blocks, ino, i, 14)}
    {
      var t :| 11 <= t < 15 && Slot(blocks, ino, i, t) == b;
    }
  }

  lemma FourApart(sb: Super, q: Point, i: nat)
    requires Wf(sb, q.blocks, q.ino, q.owner) && Inodes(q.ino) && i < |q.ino|
    requires forall t :: 12 <= t < 15 ==> Slot(q.blocks, q.ino, i, t) != 0
    requires Slot(q.blocks, q.ino, i, INDIRECT) != 0
    ensures |{Slot(q.blocks, q.ino, i, 12), Slot(q.blocks, q.ino, i, 13), Slot(q.blocks, q.ino, i, 14),
              Slot(q.blocks, q.ino, i, INDIRECT)}| == 4
  {
    hide Slot, InUse, NoHoles, Layout;
    var a, b, c, d := Slot(q.blocks, q.ino, i, 12), Slot(q.blocks, q.ino, i, 13), Slot(q.blocks, q.ino, i, 14),
      Slot(q.blocks, q.ino, i, INDIRECT);
    assert q.owner[a] == (i, 12) && q.owner[b] == (i, 13) && q.owner[c] == (i, 14) && q.owner[d] == (i, INDIRECT);
    FourSize(a, b, c, d);
  }

  /** What an append logs, range by range: ten blocks. */
  ghost function AppendSet(sb: Super, g: set<nat>, last: nat, ib: nat): (s: set<nat>)
  {
    Joined(g, last, MapOf(sb, g), ib)
  }

  ghost function Joined(g: set<nat>, last: nat, mg: set<nat>, ib: nat): (s: set<nat>) { g + {last} + mg + {ib} }

  lemma EndsAt(sb: Super, i: nat)
    requires i == 8 || i == 16
    ensures File(sb, i).size == TAIL && TAIL / BSIZE == 11 && EndBlock(TAIL, CHUNK) == 15
  {
  }

  lemma TailSlot(sb: Super, p: Point, i: nat)
    requires (i == 8 || i == 16) && Inodes(p.ino) && |p.ino| == 17 && p.ino[i] == File(sb, i)
    ensures Slot(p.blocks, p.ino, i, 11) == LastBlock(sb, i)
  {
  }

  lemma GrownTo(sb: Super, p: Point, q: Point, i: nat, src: seq<Byte>)
    requires Inodes(p.ino) && Inodes(q.ino) && i < |p.ino| == |q.ino| && p.ino[i].size == TAIL && |src| == CHUNK
    requires Contents(q.blocks, q.ino, i) == Splice(Contents(p.blocks, p.ino, i), TAIL, src)
    ensures q.ino[i].size == TAIL + CHUNK
  {
    hide Contents;
    assert |Contents(q.blocks, q.ino, i)| == q.ino[i].size && |Contents(p.blocks, p.ino, i)| == TAIL;
  }

  lemma AppendLog(sb: Super, p: Point, q: Point, i: nat)
    requires Inodes(p.ino) && Inodes(q.ino) && i < |p.ino| == |q.ino| && p.ino[i].size == TAIL
    requires DataIn(q.blocks, q.ino, i, 11, 15) + Through(p.blocks, p.ino, q.blocks, q.ino, i) ==
             Gained(p.blocks, p.ino, q.blocks, q.ino, i) + {LastBlock(sb, i)}
    ensures TAIL / BSIZE == 11 && EndBlock(TAIL, CHUNK) == 15
    ensures var g := Gained(p.blocks, p.ino, q.blocks, q.ino, i);
            WriteLog(sb, p.blocks, p.ino, q.blocks, q.ino, i, TAIL, CHUNK) ==
            g + {LastBlock(sb, i)} + MapOf(sb, g) + {InodeBlock(sb, i)}
  {
    hide DataIn, Through, Gained, MapOf, LastBlock, InodeBlock;
  }

  /** With four free blocks a chunk cannot run out of them: it takes fewer than four before it needs the last. */
  lemma NoRoom(sb: Super, p: Point, q: Point, i: nat)
    requires Inodes(p.ino) && Inodes(q.ino) && i < |p.ino| == |q.ino|
    requires MapGrows(sb, p.blocks, p.ino, q.blocks, q.ino, i)
    requires Slot(p.blocks, p.ino, i, 11) != 0 && GainsAt(p.blocks, p.ino, q.blocks, q.ino, i, 11, 15)
    requires Lacks(q.blocks, q.ino, i, 11, 15) && Layout(sb, |p.blocks|) && Layout(sb, |q.blocks|)
    requires Fs.Full(sb, q.blocks)
    requires SlotsGrow(p.blocks, p.ino, q.blocks, q.ino)
    ensures |FreeBlocks(sb, p.blocks)| < 4
  {
    var b0, i0, blocks, ino := p.blocks, p.ino, q.blocks, q.ino;
    var g := Gained(b0, i0, blocks, ino, i);
    SameFree(sb, b0, i0, blocks, ino, i);
    NoneFree(sb, blocks);
    LackingGains(b0, i0, blocks, ino, i);
    SubsetSize(FreeBlocks(sb, b0), g);
  }

  lemma NoneFree(sb: Super, blocks: seq<Block>)
    requires Layout(sb, |blocks|) && Fs.Full(sb, blocks)
    ensures FreeBlocks(sb, blocks) == {}
  {
    hide Used;
  }

  lemma LackingGains(b0: seq<Block>, i0: seq<Inode>, blocks: seq<Block>, ino: seq<Inode>, i: nat)
    requires Inodes(i0) && Inodes(ino) && i < |i0| == |ino| && GainsAt(b0, i0, blocks, ino, i, 11, 15)
    requires Slot(b0, i0, i, 11) != 0 && Lacks(blocks, ino, i, 11, 15) && SlotsGrow(b0, i0, blocks, ino)
    ensures |Gained(b0, i0, blocks, ino, i)| <= 3
  {
    hide Slot;
    var u :| 11 <= u < 15 && Slot(blocks, ino, i, u) == 0;
    assert u != 11;
    var x, y := if u == 12 then 13 else 12, if u == 14 then 13 else 14;
    var most := {Slot(blocks, ino, i, x), Slot(blocks, ino, i, y), Slot(blocks, ino, i, INDIRECT)};
    forall b | b in Gained(b0, i0, blocks, ino, i) ensures b in most {
      var t :| 0 <= t <= INDIRECT && Slot(b0, i0, i, t) == 0 && Slot(blocks, ino, i, t) != 0
               && Slot(blocks, ino, i, t) == b;
      assert 11 <= t < 15 || t == INDIRECT;
      assert t == x || t == y || t == INDIRECT;
    }
    ThreeAtMost(Slot(blocks, ino, i, x), Slot(blocks, ino, i, y), Slot(blocks, ino, i, INDIRECT));
    SubsetSize(Gained(b0, i0, blocks, ino, i), most);
  }

  lemma ThreeAtMost(a: nat, b: nat, c: nat)
    ensures |{a, b, c}| <= 3
  {
    assert {a, b, c} == {a} + {b} + {c};
  }

  /* ---------------- the log filled ---------------- */

  function Zeros(n: nat): (s: seq<Byte>)
    ensures |s| == n
  {
    seq(n, _ => 0)
  }

  /** Eight blocks are free, and no two of them have their bit in the same block of the free map. */
  lemma EightFree(sb: Super, g: Geometry)
    requires Suits(sb, g)
    ensures |FreeBlocks(sb, Blocks0(sb))| == 8
    ensures forall b :: b in FreeBlocks(sb, Blocks0(sb)) ==> b < sb.size && IsFree(sb, b)
  {
    hide Used, Blocks0, IsFree;
    var f := FreeBlocks(sb, Blocks0(sb));
    forall b: nat | b < sb.size ensures Used(sb, Blocks0(sb), b) <==> !IsFree(sb, b) {
      UsedButFree(sb, g, b);
    }
    var low, high := {sb.datastart + 50, BPB, 2 * BPB, 3 * BPB}, {4 * BPB, 5 * BPB, 6 * BPB, 7 * BPB};
    forall b ensures b in f <==> b in low + high { FreeOnes(sb, b); }
    FourSize(sb.datastart + 50, BPB, 2 * BPB, 3 * BPB);
    FourSize(4 * BPB, 5 * BPB, 6 * BPB, 7 * BPB);
    assert f == low + high && low !! high;
  }

  lemma FreeOnes(sb: Super, b: nat)
    ensures IsFree(sb, b) <==>
              b in {sb.datastart + 50, BPB, 2 * BPB, 3 * BPB} + {4 * BPB, 5 * BPB, 6 * BPB, 7 * BPB}
  {
    assert b == BPB * (b / BPB) + b % BPB;
  }

  lemma FourSize(a: nat, b: nat, c: nat, d: nat)
    requires a != b && a != c && a != d && b != c && b != d && c != d
    ensures |{a, b, c, d}| == 4
  {
    assert |{a, b, c}| == 3 && d !in {a, b, c} && {a, b, c, d} == {a, b, c} + {d};
  }

  /** Free blocks have bits in different blocks of the free map. */
  lemma {:induction false} MapsApart(sb: Super, g: set<nat>)
    requires sb.datastart + 50 < BPB && forall b :: b in g ==> IsFree(sb, b)
    ensures |MapOf(sb, g)| == |g|
    decreases |g|
  {
    if b :| b in g {
      MapsApart(sb, g - {b});
      assert MapOf(sb, g) == MapOf(sb, g - {b}) + {BitmapBlock(sb, b)};
      forall c | c in g - {b} ensures BitmapBlock(sb, c) != BitmapBlock(sb, b) {
        if BitmapBlock(sb, c) == BitmapBlock(sb, b) { SameMapSame(sb, b, c); }
      }
    }
  }

  lemma SameMapSame(sb: Super, b: nat, c: nat)
    requires sb.datastart + 50 < BPB && IsFree(sb, b) && IsFree(sb, c) && b / BPB == c / BPB
    ensures b == c
  {
    assert b == BPB * (b / BPB) + b % BPB && c == BPB * (c / BPB) + c % BPB;
  }

  /** Free blocks lie above the files, their free-map blocks below the data and above the inodes. */
  lemma FreeRanges(sb: Super, ge: Geometry, g: set<nat>)
    requires Suits(sb, ge) && forall b :: b in g ==> b < sb.size && IsFree(sb, b)
    ensures forall b :: b in g ==> b >= sb.datastart + 34
    ensures forall b :: b in MapOf(sb, g) ==> sb.bmapstart <= b < sb.datastart
  {
    forall b | b in MapOf(sb, g) ensures sb.bmapstart <= b < sb.datastart {
      var c :| c in g && BitmapBlock(sb, c) == b;
      BitmapBlockIsMeta(sb, sb.size, c);
    }
  }

  lemma BothMapsApart(sb: Super, ge: Geometry, g: set<nat>, h: set<nat>)
    requires Suits(sb, ge) && g !! h && |g| == |h| == 4
    requires forall b :: b in g + h ==> IsFree(sb, b)
    ensures |MapOf(sb, g)| == |MapOf(sb, h)| == 4 && MapOf(sb, g) !! MapOf(sb, h)
  {
    hide MapOf, IsFree;
    assert (forall b :: b in g ==> b in g + h) && forall b :: b in h ==> b in g + h;
    MapsApart(sb, g + h);
    MapsApart(sb, g);
    MapsApart(sb, h);
    MapOfBoth(sb, g, h);
    assert |g + h| == 8;
    Disjointness(MapOf(sb, g), MapOf(sb, h));
  }

  lemma Disjointness(a: set<nat>, b: set<nat>)
    requires |a + b| == |a| + |b|
    ensures a !! b
  {
    assert |a * b| == 0;
    assert a * b == {};
    forall x | x in a ensures x !in b {
      assert x in a * b <==> x in b;
    }
  }

  /** Two appends and the overwriting of ten blocks log thirty different blocks. */
  lemma ThirtyBlocks(sb: Super, ge: Geometry, g: set<nat>, h: set<nat>)
    requires Suits(sb, ge) && g !! h && |g| == |h| == 4
    requires (forall b :: b in g ==> b < sb.size && IsFree(sb, b))
    requires forall b :: b in h ==> b < sb.size && IsFree(sb, b)
    ensures var o := AppendSet(sb, g, sb.datastart + 21, sb.inodestart + 1);
            var n := AppendSet(sb, h, sb.datastart + 33, sb.inodestart + 2);
            |o| == 10 && |n| == 10 && |Interval(sb.datastart, 10) + o + n| == 30
  {
    hide Interval, MapOf, IsFree, Layout, Suits, Joined;
    IntervalIs(sb.datastart, 10);
    FreeRanges(sb, ge, g);
    FreeRanges(sb, ge, h);
    BothMapsApart(sb, ge, g, h);
    SuitsLayout(sb, ge);
    Thirty(sb, Interval(sb.datastart, 10), g, h, MapOf(sb, g), MapOf(sb, h));
  }

  lemma Thirty(sb: Super, files: set<nat>, g: set<nat>, h: set<nat>, mg: set<nat>, mh: set<nat>)
    requires g !! h && mg !! mh && sb.inodestart + 3 <= sb.bmapstart <= sb.datastart
    requires |g| == |h| == |mg| == |mh| == 4 && |files| == 10
    requires forall b :: b in files ==> sb.datastart <= b < sb.datastart + 10
    requires (forall b :: b in g ==> b >= sb.datastart + 34) && forall b :: b in h ==> b >= sb.datastart + 34
    requires forall b :: b in mg ==> sb.bmapstart <= b < sb.datastart
    requires forall b :: b in mh ==> sb.bmapstart <= b < sb.datastart
    ensures var o := Joined(g, sb.datastart + 21, mg, sb.inodestart + 1);
            var n := Joined(h, sb.datastart + 33, mh, sb.inodestart + 2);
            |o| == 10 && |n| == 10 && |files + o + n| == 30
  {
    hide Joined;
    TenApart(sb, g, mg, sb.datastart + 21, sb.inodestart + 1);
    TenApart(sb, h, mh, sb.datastart + 33, sb.inodestart + 2);
    AllApart(sb, files, g, h, mg, mh);
  }

  lemma TenApart(sb: Super, g: set<nat>, mg: set<nat>, last: nat, ib: nat)
    requires |g| == |mg| == 4 && sb.datastart <= last < sb.datastart + 34 && ib < sb.bmapstart
    requires (forall b :: b in g ==> b >= sb.datastart + 34) && forall b :: b in mg ==> sb.bmapstart <= b < sb.datastart
    ensures |Joined(g, last, mg, ib)| == 10
  {
    assert |g + {last}| == 5;
    assert |g + {last} + mg| == 9 by { assert g + {last} !! mg; }
  }

  lemma AllApart(sb: Super, files: set<nat>, g: set<nat>, h: set<nat>, mg: set<nat>, mh: set<nat>)
    requires g !! h && mg !! mh && sb.inodestart + 3 <= sb.bmapstart <= sb.datastart
    requires forall b :: b in files ==> sb.datastart <= b < sb.datastart + 10
    requires (forall b :: b in g ==> b >= sb.datastart + 34) && forall b :: b in h ==> b >= sb.datastart + 34
    requires forall b :: b in mg ==> sb.bmapstart <= b < sb.datastart
    requires forall b :: b in mh ==> sb.bmapstart <= b < sb.datastart
    ensures var o := Joined(g, sb.datastart + 21, mg, sb.inodestart + 1);
            var n := Joined(h, sb.datastart + 33, mh, sb.inodestart + 2);
            |files + o + n| == |files| + |o| + |n|
  {
    var o := Joined(g, sb.datastart + 21, mg, sb.inodestart + 1);
    var n := Joined(h, sb.datastart + 33, mh, sb.inodestart + 2);
    forall b ensures !(b in files && b in o) { }
    forall b ensures !(b in files + o && b in n) { }
  }

  lemma ThreeIntervals(lo: nat)
    ensures Interval(lo, 4) + Interval(lo + 4, 4) + Interval(lo + 8, 2) == Interval(lo, 10)
    ensures |Interval(lo, 4)| == |Interval(lo + 4, 4)| == 4 && |Interval(lo + 8, 2)| == 2
  {
    hide Interval;
    IntervalIs(lo, 4);
    IntervalIs(lo + 4, 4);
    IntervalIs(lo + 8, 2);
    IntervalIs(lo, 10);
  }

  lemma InodeBlocks(sb: Super)
    ensures InodeBlock(sb, 8) == sb.inodestart + 1 && InodeBlock(sb, 16) == sb.inodestart + 2
    ensures LastBlock(sb, 8) == sb.datastart + 21 && LastBlock(sb, 16) == sb.datastart + 33
  {
  }

  lemma Meets()
    ensures 1 / BSIZE == 0 && EndBlock(1, 1536) == 4 && 2049 / BSIZE == 4 && EndBlock(2049, 1536) == 8
    ensures 4096 / BSIZE == 8 && EndBlock(4096, 1024) == 10
  {
  }

  lemma TwoParts(free: set<nat>, g: set<nat>, h: set<nat>)
    requires g <= free && h <= free - g
    ensures g !! h && g + h <= free
  {
  }

  lemma Remaining(free: set<nat>, g: set<nat>)
    requires g <= free && |g| == 4 && |free| >= 8
    ensures |free - g| >= 4
  {
    assert free == g + (free - g);
  }

  lemma AllSizes(sb: Super, ge: Geometry, a: set<nat>, b: set<nat>, c: set<nat>, o: set<nat>, n: set<nat>, g: set<nat>,
                 h: set<nat>)
    requires Suits(sb, ge) && g !! h && |g| == |h| == 4
    requires (forall b :: b in g ==> b < sb.size && IsFree(sb, b))
    requires forall b :: b in h ==> b < sb.size && IsFree(sb, b)
    requires a == Interval(sb.datastart, 4) && b == Interval(sb.datastart + 4, 4) && c == Interval(sb.datastart + 8, 2)
    requires o == AppendSet(sb, g, sb.datastart + 21, sb.inodestart + 1)
    requires n == AppendSet(sb, h, sb.datastart + 33, sb.inodestart + 2)
    ensures |a| <= 4 && |b| <= 4 && |c| <= 2 && |o| <= 10 && |n| <= 10 && |a + b + c + o + n| == LOGSIZE
  {
    hide AppendSet, Interval, IsFree, Suits;
    ThreeIntervals(sb.datastart);
    ThirtyBlocks(sb, ge, g, h);
  }

  lemma SuitsLayout(sb: Super, g: Geometry)
    requires Suits(sb, g)
    ensures Layout(sb, sb.size) && g.start + g.size <= sb.inodestart && sb.bmapstart <= sb.datastart
    ensures sb.datastart + 50 < BPB && sb.inodestart + 3 <= sb.bmapstart
  {
  }

  lemma FilesOf(sb: Super)
    ensures var ino := Inodes0(sb);
            |ino| == 17 && ino[0] == File(sb, 0) && ino[8] == File(sb, 8) && ino[16] == File(sb, 16)
  {
  }

  /* ---------------- a file system and a run ---------------- */

  /** A write inside file 0. */
  method Overwrite(fs: FileSystem, off: nat, src: seq<Byte>) returns (ghost l: Leg)
    requires fs.Valid() && |fs.ino| == 17 && fs.ino[0] == File(fs.sb, 0) && 0 < |src| <= CHUNK
    requires off + |src| <= 10 * BSIZE
    requires EndBlock(off, |src|) <= 10 && off / BSIZE <= 10 && Layout(fs.sb, |fs.blocks|)
    modifies fs`blocks, fs`ino, fs`owner, fs`logged, fs`writes, fs`base
    ensures fs.Valid() && fs.ino == old(fs.ino) && |fs.blocks| == old(|fs.blocks|)
    ensures Whole(fs.sb, l) && l.from == old(fs.Here()) && l.to == fs.Here()
    ensures Touched(l.ws) == Interval(fs.sb.datastart + off / BSIZE, EndBlock(off, |src|) - off / BSIZE)
    ensures FreeBlocks(fs.sb, fs.blocks) == FreeBlocks(fs.sb, old(fs.blocks))
  {
    hide Wf, Traced, Chunk, WriteLog, SameBytes, Contents, Splice, Synced, SlotsGrow, GainsAt, Slot, Full, Lacks,
         EndBlock, Interval, Touched, File, Went;
    WfInodes(fs.sb, fs.blocks, fs.ino, fs.owner);
    ghost var p := fs.Here();
    FileZero(fs.sb);
    var r := fs.WriteOne(0, src, off);
    WfInodes(fs.sb, fs.blocks, fs.ino, fs.owner);
    l := Leg(Job(0, off, src), p, fs.writes, fs.Here(), Loop(|src|));
    OverwriteLog(fs.sb, p.blocks, fs.blocks, fs.ino, off, |src|);
    SameFree(fs.sb, p.blocks, p.ino, fs.blocks, fs.ino, 0);
  }

  /** A chunk appended to file 8 or 16: it takes four free blocks, and logs these and their free-map blocks, the last
      block of the file and the inode block. */
  method Append(fs: FileSystem, i: nat, src: seq<Byte>) returns (ghost l: Leg, ghost g: set<nat>)
    requires fs.Valid() && (i == 8 || i == 16) && |fs.ino| == 17 && fs.ino[i] == File(fs.sb, i) && |src| == CHUNK
    requires Layout(fs.sb, |fs.blocks|) && |FreeBlocks(fs.sb, fs.blocks)| >= 4
    modifies fs`blocks, fs`ino, fs`owner, fs`logged, fs`writes, fs`base
    ensures fs.Valid() && |fs.ino| == 17 && |fs.blocks| == old(|fs.blocks|)
    ensures forall j :: 0 <= j < 17 && j != i ==> fs.ino[j] == old(fs.ino)[j]
    ensures Whole(fs.sb, l) && l.job.i == i && l.from == old(fs.Here()) && l.to == fs.Here() && l.at == Ended
    ensures |g| == 4 && g <= FreeBlocks(fs.sb, old(fs.blocks))
    ensures FreeBlocks(fs.sb, fs.blocks) == FreeBlocks(fs.sb, old(fs.blocks)) - g
    ensures Touched(l.ws) == AppendSet(fs.sb, g, LastBlock(fs.sb, i), InodeBlock(fs.sb, i))
  {
    hide Wf, Traced, Chunk, SameBytes, Contents, Synced, SlotsGrow, GainsAt, Slot, Full, Lacks, Touched, MapGrows,
         Gained, Through, DataIn, MapOf, EndBlock, FreeBlocks, File, Went;
    WfInodes(fs.sb, fs.blocks, fs.ino, fs.owner);
    ghost var p := fs.Here();
    EndsAt(fs.sb, i);
    TailSlot(fs.sb, p, i);
    var r := fs.WriteOne(i, src, TAIL);
    WfInodes(fs.sb, fs.blocks, fs.ino, fs.owner);
    ghost var q := fs.Here();
    g, l := Gained(p.blocks, p.ino, q.blocks, q.ino, i), Leg(Job(i, TAIL, src), p, fs.writes, q, Ended);
    SameFree(fs.sb, p.blocks, p.ino, q.blocks, q.ino, i);
    if r.None? {
      NoRoom(fs.sb, p, q, i);
      assert false;
    }
    GrownTo(fs.sb, p, q, i, src);
    AppendGains(fs.sb, p, q, i);
    AppendLog(fs.sb, p, q, i);
  }

  /** Three writes inside file 0 that meet its ten blocks. */
  method OverwriteAll(fs: FileSystem) returns (ghost a: Leg, ghost b: Leg, ghost c: Leg)
    requires fs.Valid() && |fs.ino| == 17 && fs.ino[0] == File(fs.sb, 0) && Layout(fs.sb, |fs.blocks|)
    modifies fs`blocks, fs`ino, fs`owner, fs`logged, fs`writes, fs`base
    ensures fs.Valid() && fs.ino == old(fs.ino) && |fs.blocks| == old(|fs.blocks|)
    ensures FreeBlocks(fs.sb, fs.blocks) == FreeBlocks(fs.sb, old(fs.blocks))
    ensures Whole(fs.sb, a) && Whole(fs.sb, b) && Whole(fs.sb, c)
    ensures a.from == old(fs.Here()) && b.from == a.to && c.from == b.to && c.to == fs.Here()
    ensures Touched(a.ws) == Interval(fs.sb.datastart, 4) && Touched(b.ws) == Interval(fs.sb.datastart + 4, 4)
    ensures Touched(c.ws) == Interval(fs.sb.datastart + 8, 2)
  {
    hide Wf, Touched, FreeBlocks, File, Interval, EndBlock, Layout, Zeros, FileSystem.Valid, Whole;
    Meets();
    a := Overwrite(fs, 1, Zeros(1536));
    b := Overwrite(fs, 2049, Zeros(1536));
    c := Overwrite(fs, 4096, Zeros(1024));
  }

  /** Both long files grow. */
  method AppendBoth(fs: FileSystem) returns (ghost o: Leg, ghost n: Leg, ghost gained: set<nat>, ghost more: set<nat>)
    requires fs.Valid() && |fs.ino| == 17 && fs.ino[8] == File(fs.sb, 8) && fs.ino[16] == File(fs.sb, 16)
    requires Layout(fs.sb, |fs.blocks|) && |FreeBlocks(fs.sb, fs.blocks)| >= 8
    modifies fs`blocks, fs`ino, fs`owner, fs`logged, fs`writes, fs`base
    ensures Whole(fs.sb, o) && Whole(fs.sb, n) && o.job.i == 8 && n.job.i == 16 && o.at == Ended
    ensures o.from == old(fs.Here()) && n.from == o.to && |n.to.ino| == 17
    ensures |gained| == |more| == 4 && gained !! more && gained + more <= FreeBlocks(fs.sb, old(fs.blocks))
    ensures Touched(o.ws) == AppendSet(fs.sb, gained, fs.sb.datastart + 21, fs.sb.inodestart + 1)
    ensures Touched(n.ws) == AppendSet(fs.sb, more, fs.sb.datastart + 33, fs.sb.inodestart + 2)
  {
    hide Wf, Touched, FreeBlocks, File, MapOf, InodeBlock, LastBlock, Layout, Zeros, FileSystem.Valid, AppendSet, Whole;
    InodeBlocks(fs.sb);
    ghost var free := FreeBlocks(fs.sb, fs.blocks);
    o, gained := Append(fs, 8, Zeros(CHUNK));
    Remaining(free, gained);
    n, more := Append(fs, 16, Zeros(CHUNK));
    TwoParts(free, gained, more);
  }

  /** The point at which the five writes start. */
  function Point0(sb: Super): (p: Point)
    requires sb.datastart + 50 < BPB
  {
    Point(Blocks0(sb), Inodes0(sb), Owner0(sb))
  }

  lemma Starts(sb: Super, g: Geometry)
    requires Suits(sb, g)
    ensures Ready(sb, g, Point0(sb))
  {
    hide Wf, Synced, Blocks0, Inodes0, Owner0, WfDisk, HeaderOf, Layout;
    Start(sb, g);
    EmptyLog(sb, g);
  }

  /** Five calls of writei, each where the one before left the file system, that between them log thirty blocks. */
  method FiveWrites(sb: Super, g: Geometry)
    returns (ghost a: Leg, ghost b: Leg, ghost c: Leg, ghost o: Leg, ghost n: Leg)
    requires Suits(sb, g)
    ensures Whole(sb, a) && Whole(sb, b) && Whole(sb, c) && Whole(sb, o) && Whole(sb, n)
    ensures a.from == Point0(sb) && b.from == a.to && c.from == b.to && o.from == c.to && n.from == o.to
    ensures o.at == Ended && o.job.i == 8 && n.job.i == 16 && |c.to.ino| == |n.to.ino| == 17
    ensures |Touched(a.ws)| <= 4 && |Touched(b.ws)| <= 4 && |Touched(c.ws)| <= 2 && |Touched(o.ws)| <= 10
    ensures |Touched(a.ws) + Touched(b.ws) + Touched(c.ws) + Touched(o.ws) + Touched(n.ws)| == LOGSIZE
  {
    hide Wf, Touched, FreeBlocks, Blocks0, Inodes0, Owner0, File, Interval, MapOf, IsFree, InodeBlock, LastBlock,
         Layout, Suits, Zeros, FileSystem.Valid, AppendSet, Whole, Synced;
    Start(sb, g);
    FilesOf(sb);
    SuitsLayout(sb, g);
    EightFree(sb, g);
    InodeBlocks(sb);
    var fs := new FileSystem(sb, Blocks0(sb), Inodes0(sb), Owner0(sb));
    a, b, c := OverwriteAll(fs);
    ghost var gained, more;
    o, n, gained, more := AppendBoth(fs);
    AllSizes(sb, g, Touched(a.ws), Touched(b.ws), Touched(c.ws), Touched(o.ws), Touched(n.ws), gained, more);
  }

  /** From that file system, a run in which the log panics. */
  method FillLog(sb: Super, g: Geometry) returns (ghost acts: seq<Act>)
    requires Suits(sb, g) && g.size >= LOGSIZE
    ensures Ready(sb, g, Point0(sb)) && Legal(sb, g, Point0(sb), acts)
    ensures LogPanic(sb, g, Exec(sb, g, Point0(sb), acts))
  {
    hide Touched, Blocks0, Owner0, File, Ready, Legal, Exec, LogPanic, Whole, Suits;
    SuitsLayout(sb, g);
    ghost var a, b, c, o, n := FiveWrites(sb, g);
    Starts(sb, g);
    acts := GuardMet(sb, g, Point0(sb), a, b, c, o, n);
  }

  /** When operations are transactions of filewrite, the log is out of reach of its panics, from whatever file system
      the processes start, if and only if the free map has at most seven blocks; the disk that mkfs makes has one. A log
      longer than LOGSIZE makes no difference. Otherwise p is a file system from which they can be met. */
  method FilewritesFitIff(sb: Super, g: Geometry) returns (ghost p: Point)
    requires Layout(sb, sb.size) && sb.inodestart + 3 <= sb.bmapstart && sb.datastart + 50 < BPB
    requires LOGSIZE <= g.size && g.start + g.size <= sb.inodestart
    ensures NMap(sb) > 7 ==> Ready(sb, g, p)
    ensures NeverPanics(sb, g, p) <==> NMap(sb) <= 7
    ensures (forall q :: NeverPanics(sb, g, q)) <==> NMap(sb) <= 7
  {
    hide NeverPanics, Ready;
    p := Point0(sb);
    if NMap(sb) <= 7 {
      forall q ensures NeverPanics(sb, g, q) {
        FilewritesFit(sb, g, q);
      }
    } else {
      ghost var acts := FillLog(sb, g);
      Panics(sb, g, p, acts);
    }
  }

  lemma Panics(sb: Super, g: Geometry, p0: Point, acts: seq<Act>)
    requires Legal(sb, g, p0, acts) && LogPanic(sb, g, Exec(sb, g, p0, acts))
    ensures !NeverPanics(sb, g, p0)
  {
    hide Legal, Exec, LogPanic;
  }
}
