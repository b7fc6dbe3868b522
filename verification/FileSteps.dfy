/**
writei (fs.c) step by step. A step is one call of log_write, made while the buffer of the block is locked; between two
steps other processes may take theirs, on other files, since the inode is locked throughout. Changes to the inode in
memory, which nobody else sees, are part of the step next to them.
*/
module FileSteps {
  import opened Param
  import opened Blocks
  import opened FsSpec

  /** What bread shows of every block, the inodes in memory, and who owns which block. */
  datatype Point = Point(blocks: seq<Block>, ino: seq<Inode>, owner: Owners)

  /** writei of src at offset off of file i. */
  datatype Job = Job(i: nat, off: nat, src: seq<Byte>)

  /** Where writei is: in its loop with tot bytes written; in balloc for slot s, with block b marked in use; back from
      balloc with b zeroed, but its number not yet in the indirect block; past iupdate. */
  datatype Phase =
    | Loop(tot: nat)
    | Taken(tot: nat, s: nat, b: nat)
    | Cleared(tot: nat, s: nat, b: nat)
    | Ended

  /** The slot bmap has to fill first to find file block bn. */
  function Missing(p: Point, i: nat, bn: nat): (s: Option<nat>)
    requires i < |p.ino| && |p.ino[i].addrs| == NDIRECT + 1 && bn < MAXFILE
  {
    if bn >= NDIRECT && p.ino[i].addrs[NDIRECT] == 0 then Some(INDIRECT)
    else if Slot(p.blocks, p.ino, i, bn) == 0 then Some(bn) else None
  }

  /** The write ends past the end of the file. */
  predicate Grows(p: Point, job: Job)
    requires job.i < |p.ino|
  {
    |job.src| > 0 && job.off + |job.src| > p.ino[job.i].size
  }

  predicate Finished(p: Point, job: Job, at: Phase)
    requires job.i < |p.ino|
  {
    at == Ended || (at == Loop(|job.src|) && !Grows(p, job))
  }

  /** How much of n bytes from o on is in the block of o. */
  function Part(o: nat, n: nat): (m: nat)
    ensures m <= n && o % BSIZE + m <= BSIZE && (n > 0 ==> m > 0)
  {
    if n < BSIZE - o % BSIZE then n else BSIZE - o % BSIZE
  }

  /** The lowest free block. */
  ghost predicate Lowest(sb: Super, blocks: seq<Block>, b: nat)
    requires Layout(sb, |blocks|)
  {
    b < sb.size && !Used(sb, blocks, b) && forall c :: 0 <= c < b ==> Used(sb, blocks, c)
  }

  /** balloc marks the lowest free block. */
  ghost predicate MarkStep(sb: Super, p: Point, tot: nat, s: nat, w: Write, p': Point, at': Phase)
  {
    && at'.Taken? && at'.tot == tot && at'.s == s && p'.ino == p.ino && p'.owner == p.owner
    && Layout(sb, |p.blocks|) && Lowest(sb, p.blocks, at'.b) && w.block == BitmapBlock(sb, at'.b) < |p.blocks|
    && w.data == PutBlockBit(p.blocks[w.block], at'.b % BPB, true)
  }

  /** balloc zeroes it, and bmap puts it into the inode if that is where it belongs. */
  ghost predicate ZeroStep(p: Point, i: nat, tot: nat, s: nat, b: nat, w: Write, p': Point, at': Phase)
    requires i < |p.ino| && |p.ino[i].addrs| == NDIRECT + 1
  {
    && w == Write(b, ZeroBlock()) && s <= INDIRECT
    && if NDIRECT <= s < MAXFILE then p'.ino == p.ino && p'.owner == p.owner && at' == Cleared(tot, s, b)
       else
         var t := if s == INDIRECT then NDIRECT else s;
         && p'.ino == p.ino[i := p.ino[i].(addrs := p.ino[i].addrs[t := b])]
         && p'.owner == p.owner[b := (i, s)] && at' == Loop(tot)
  }

  /** bmap puts its number into the indirect block. */
  ghost predicate WordStep(p: Point, i: nat, tot: nat, s: nat, b: nat, w: Write, p': Point, at': Phase)
    requires i < |p.ino| && |p.ino[i].addrs| == NDIRECT + 1
  {
    && w.block == p.ino[i].addrs[NDIRECT] < |p.blocks| && NDIRECT <= s < MAXFILE && b < UINT_MOD
    && w.data == PutWord(p.blocks[w.block], s - NDIRECT, b)
    && p'.ino == p.ino && p'.owner == p.owner[b := (i, s)] && at' == Loop(tot)
  }

  /** writei copies what belongs into one block. */
  ghost predicate DataStep(p: Point, job: Job, tot: nat, w: Write, p': Point, at': Phase)
    requires job.i < |p.ino| && |p.ino[job.i].addrs| == NDIRECT + 1 && (job.off + tot) / BSIZE < MAXFILE
    requires tot < |job.src|
  {
    var o, m := job.off + tot, Part(job.off + tot, |job.src| - tot);
    && w.block == Slot(p.blocks, p.ino, job.i, o / BSIZE) < |p.blocks|
    && w.data == Overlay(p.blocks[w.block], o % BSIZE, job.src[tot..tot + m])
    && p'.ino == p.ino && p'.owner == p.owner && at' == Loop(tot + m)
  }

  function Overlay(b: Block, q: nat, part: seq<Byte>): (r: Block)
    requires q + |part| <= BSIZE
  {
    Block(b.bytes[..q] + part + b.bytes[q + |part|..])
  }

  /** The inode gets its new size, and iupdate writes it. */
  ghost predicate GrowStep(sb: Super, p: Point, job: Job, w: Write, p': Point, at': Phase)
    requires job.i < |p.ino| && |p.ino[job.i].addrs| == NDIRECT + 1
  {
    var n := p.ino[job.i].(size := job.off + |job.src|);
    && Grows(p, job) && n.size < UINT_MOD && (forall t :: 0 <= t < |n.addrs| ==> n.addrs[t] < UINT_MOD)
    && w.block == InodeBlock(sb, job.i) < |p.blocks| && w.data == PutInode(p.blocks[w.block], job.i % IPB, n)
    && p'.ino == p.ino[job.i := n] && p'.owner == p.owner && at' == Ended
  }

  ghost predicate Step(sb: Super, job: Job, p: Point, at: Phase, w: Write, p': Point, at': Phase)
  {
    && job.i < |p.ino| && |p.ino[job.i].addrs| == NDIRECT + 1
    && w.block < |p.blocks| && p'.blocks == p.blocks[w.block := w.data]
    && match at
       case Loop(tot) =>
         if tot < |job.src| then
           var bn := (job.off + tot) / BSIZE;
           bn < MAXFILE && match Missing(p, job.i, bn)
                           case Some(s) => MarkStep(sb, p, tot, s, w, p', at')
                           case None => DataStep(p, job, tot, w, p', at')
         else tot == |job.src| && GrowStep(sb, p, job, w, p', at')
       case Taken(tot, s, b) => ZeroStep(p, job.i, tot, s, b, w, p', at')
       case Cleared(tot, s, b) => WordStep(p, job.i, tot, s, b, w, p', at')
       case Ended => false
  }

  /** Steps of one writei with nobody else in between, and what they log. */
  ghost predicate Went(sb: Super, job: Job, p: Point, at: Phase, ws: seq<Write>, q: Point, at': Phase)
    decreases |ws|
  {
    if ws == [] then p == q && at == at'
    else
      exists m: Point, x: Phase {:trigger Step(sb, job, m, x, ws[|ws| - 1], q, at')} ::
        Went(sb, job, p, at, ws[..|ws| - 1], m, x) && Step(sb, job, m, x, ws[|ws| - 1], q, at')
  }

  lemma WentMore(sb: Super, job: Job, p: Point, at: Phase, ws: seq<Write>, m: Point, x: Phase, w: Write, q: Point,
                 at': Phase)
    requires Went(sb, job, p, at, ws, m, x) && Step(sb, job, m, x, w, q, at')
    ensures Went(sb, job, p, at, ws + [w], q, at')
  {
    hide Step;
    var all := ws + [w];
    assert all[..|all| - 1] == ws && Step(sb, job, m, x, all[|all| - 1], q, at');
  }

  lemma {:induction false} WentOn(sb: Super, job: Job, p: Point, at: Phase, ws: seq<Write>, m: Point, x: Phase,
                                  ws': seq<Write>, q: Point, at': Phase)
    requires Went(sb, job, p, at, ws, m, x) && Went(sb, job, m, x, ws', q, at')
    ensures Went(sb, job, p, at, ws + ws', q, at')
    decreases |ws'|
  {
    hide Step;
    if ws' == [] {
      assert ws + ws' == ws;
    } else {
      var k := |ws'| - 1;
      var n, y :| Went(sb, job, m, x, ws'[..k], n, y) && Step(sb, job, n, y, ws'[k], q, at');
      WentOn(sb, job, p, at, ws, m, x, ws'[..k], n, y);
      WentMore(sb, job, p, at, ws + ws'[..k], n, y, ws'[k], q, at');
      assert ws + ws'[..k] + [ws'[k]] == ws + ws';
    }
  }

  /** Steps of one writei during which the list of calls has grown from ws to ws'. */
  ghost predicate Moves(sb: Super, job: Job, p: Point, at: Phase, ws: seq<Write>, q: Point, at': Phase, ws': seq<Write>)
  {
    |ws| <= |ws'| && ws'[..|ws|] == ws && Went(sb, job, p, at, ws'[|ws|..], q, at')
  }

  lemma MovesNot(sb: Super, job: Job, p: Point, at: Phase, ws: seq<Write>)
    ensures Moves(sb, job, p, at, ws, p, at, ws)
  {
  }

  lemma MovesOne(sb: Super, job: Job, p: Point, at: Phase, ws: seq<Write>, w: Write, q: Point, at': Phase)
    requires Step(sb, job, p, at, w, q, at')
    ensures Moves(sb, job, p, at, ws, q, at', ws + [w])
  {
    hide Step;
    WentMore(sb, job, p, at, [], p, at, w, q, at');
    assert (ws + [w])[|ws|..] == [] + [w];
  }

  lemma MovesOn(sb: Super, job: Job, p: Point, at: Phase, ws: seq<Write>, m: Point, x: Phase, ws1: seq<Write>, q: Point,
                at': Phase, ws2: seq<Write>)
    requires Moves(sb, job, p, at, ws, m, x, ws1) && Moves(sb, job, m, x, ws1, q, at', ws2)
    ensures Moves(sb, job, p, at, ws, q, at', ws2)
  {
    hide Went;
    WentOn(sb, job, p, at, ws1[|ws|..], m, x, ws2[|ws1|..], q, at');
    assert ws2[|ws|..] == ws1[|ws|..] + ws2[|ws1|..];
  }
}
