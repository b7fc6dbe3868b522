/**
What one step of a writei does to the file system, whoever else is in the middle of another: every other file is as it
was, and so are the blocks others have taken and not yet put anywhere.
*/
module WriterSteps {
  import opened Param
  import opened Blocks
  import opened FsSpec
  import opened FileSteps
  import opened Fs

  /* ---------------- what stays ---------------- */

  ghost predicate SameSlots(p: Point, q: Point, j: nat)
    requires Inodes(p.ino) && Inodes(q.ino) && j < |p.ino| == |q.ino|
  {
    forall t {:trigger Slot(q.blocks, q.ino, j, t)} :: 0 <= t <= INDIRECT ==>
      Slot(q.blocks, q.ino, j, t) == Slot(p.blocks, p.ino, j, t)
  }

  ghost predicate SameDisk(sb: Super, p: Point, q: Point, j: nat)
  {
    InodeBlock(sb, j) < |p.blocks| == |q.blocks| && DiskInode(sb, q.blocks, j) == DiskInode(sb, p.blocks, j)
  }

  /** File j is what it was: its inode in memory and on the disk, its blocks and its bytes. */
  ghost predicate SameFile(sb: Super, p: Point, q: Point, j: nat)
  {
    && j < |p.ino| == |q.ino| && Inodes(p.ino) && Inodes(q.ino) && q.ino[j] == p.ino[j]
    && SameSlots(p, q, j) && SameBytes(p.blocks, p.ino, q.blocks, q.ino, j) && SameDisk(sb, p, q, j)
  }

  /** All files but i are what they were, no block has become free, and blocks in use that no file owns, those of mine
      aside, keep what they hold. */
  ghost predicate Kept(sb: Super, p: Point, q: Point, i: nat, mine: set<nat>)
  {
    && Layout(sb, |p.blocks|) && |q.blocks| == |p.blocks| && |q.ino| == |p.ino|
    && (forall j {:trigger SameFile(sb, p, q, j)} :: 0 <= j < |p.ino| && j != i ==> SameFile(sb, p, q, j))
    && (forall c: nat {:trigger Used(sb, q.blocks, c)} :: Used(sb, p.blocks, c) ==> Used(sb, q.blocks, c))
    && (forall b: nat {:trigger Away(sb, p, mine, b)} :: Away(sb, p, mine, b) ==>
          b !in q.owner && b < |p.blocks| && q.blocks[b] == p.blocks[b])
  }

  /** Block b is in use, but not part of any file. */
  ghost predicate Away(sb: Super, p: Point, mine: set<nat>, b: nat)
    requires Layout(sb, |p.blocks|)
  {
    sb.datastart <= b < sb.size && Used(sb, p.blocks, b) && b !in p.owner && b !in mine
  }

  /* ---------------- the changes ---------------- */

  /** Blocks before the data decide about the free map and the inodes on the disk. */
  lemma MetaSame(sb: Super, p: Point, q: Point)
    requires Layout(sb, |p.blocks|) && Room(sb, |p.ino|) && |q.blocks| == |p.blocks|
    requires forall c :: 0 <= c < sb.datastart ==> q.blocks[c] == p.blocks[c]
    ensures forall c: nat {:trigger Used(sb, q.blocks, c)} :: Used(sb, q.blocks, c) == Used(sb, p.blocks, c)
    ensures forall j: nat :: j < |p.ino| ==> SameDisk(sb, p, q, j)
  {
    hide Bit, InodeIn;
    forall c: nat ensures Used(sb, q.blocks, c) == Used(sb, p.blocks, c) {
      if c < sb.size { BitmapBlockIsMeta(sb, |p.blocks|, c); }
    }
    forall j: nat | j < |p.ino| ensures SameDisk(sb, p, q, j) {
      InodeBlockIsMeta(sb, |p.ino|, j);
    }
  }

  lemma AllBytes(p: Point, q: Point)
    requires Inodes(p.ino) && Inodes(q.ino) && SameFiles(p.blocks, p.ino, q.blocks, q.ino)
    ensures forall j: nat :: j < |p.ino| ==> SameBytes(p.blocks, p.ino, q.blocks, q.ino, j)
  {
    hide FileBlock;
    forall j, k {:trigger ByteAt(q.blocks, q.ino, j, k)} | 0 <= j < |p.ino| && 0 <= k < MAXFILE * BSIZE
      ensures ByteAt(q.blocks, q.ino, j, k) == ByteAt(p.blocks, p.ino, j, k)
    {
      assert FileBlock(q.blocks, q.ino, j, k / BSIZE) == FileBlock(p.blocks, p.ino, j, k / BSIZE);
    }
  }

  /** Marking a free block. */
  lemma MarkKept(sb: Super, p: Point, b: nat, i: nat)
    requires Wf(sb, p.blocks, p.ino, p.owner) && b < sb.size && !Used(sb, p.blocks, b)
    ensures var q := p.(blocks := Marked(sb, p.blocks, b, true));
            && Wf(sb, q.blocks, q.ino, q.owner) && Kept(sb, p, q, i, {})
            && (forall j: nat :: j < |p.ino| ==> SameFile(sb, p, q, j))
            && Used(sb, q.blocks, b) && b !in p.owner && sb.datastart <= b
  {
    hide Owned, NoHoles, Used, Slot, FileBlock, InodeIn, PutBlockBit, SameSlots, SameBytes;
    var q := p.(blocks := Marked(sb, p.blocks, b, true));
    FreeIsData(sb, p.blocks, p.owner, b);
    BitmapBlockIsMeta(sb, |p.blocks|, b);
    NotOwned(sb, p, b);
    OwnedIsData(sb, p);
    OwnedUntouched(sb, p.blocks, p.ino, p.owner, q.blocks);
    AllBytes(p, q);
    forall c: nat ensures Used(sb, q.blocks, c) == (c == b || Used(sb, p.blocks, c)) {
      UsedIsInside(sb, p.blocks, c);
      UsedIsInside(sb, q.blocks, c);
      if c < sb.size { MarkedAt(sb, p.blocks, b, true, c); }
    }
    SlotsNoHoles(p, q);
    forall j: nat | j < |p.ino| ensures SameFile(sb, p, q, j) {
      SlotsSameAt(p, q, j);
      BelowMap(sb, p, q, j);
    }
  }

  lemma NotOwned(sb: Super, p: Point, b: nat)
    requires Wf(sb, p.blocks, p.ino, p.owner) && b < sb.size && !Used(sb, p.blocks, b)
    ensures b !in p.owner
  {
  }

  lemma OwnedIsData(sb: Super, p: Point)
    requires Wf(sb, p.blocks, p.ino, p.owner)
    ensures forall b :: b in p.owner ==> sb.datastart <= b < sb.size <= |p.blocks|
  {
  }

  lemma UsedIsInside(sb: Super, blocks: seq<Block>, c: nat)
    requires Layout(sb, |blocks|)
    ensures Used(sb, blocks, c) ==> c < sb.size
  {
  }

  lemma SlotsSameAt(p: Point, q: Point, j: nat)
    requires Inodes(p.ino) && Inodes(q.ino) && |p.ino| == |q.ino| && j < |p.ino|
    requires forall i, s {:trigger Slot(q.blocks, q.ino, i, s)} :: 0 <= i < |p.ino| && 0 <= s <= INDIRECT ==>
               Slot(q.blocks, q.ino, i, s) == Slot(p.blocks, p.ino, i, s)
    ensures SameSlots(p, q, j)
  {
    hide Slot;
  }

  lemma SlotsNoHoles(p: Point, q: Point)
    requires Inodes(p.ino) && q.ino == p.ino && NoHoles(p.blocks, p.ino)
    requires forall i, s {:trigger Slot(q.blocks, q.ino, i, s)} :: 0 <= i < |p.ino| && 0 <= s <= INDIRECT ==>
               Slot(q.blocks, q.ino, i, s) == Slot(p.blocks, p.ino, i, s)
    ensures NoHoles(q.blocks, q.ino)
  {
    hide Slot;
  }

  /** The inodes on the disk are before the free map. */
  lemma BelowMap(sb: Super, p: Point, q: Point, j: nat)
    requires Layout(sb, |p.blocks|) && Room(sb, |p.ino|) && SameMeta(sb, p.blocks, q.blocks) && j < |p.ino|
    ensures SameDisk(sb, p, q, j)
  {
    hide InodeIn;
    InodeBlockIsMeta(sb, |p.ino|, j);
  }

  /** Zeroing a block that is not part of any file. */
  lemma ZeroKept(sb: Super, p: Point, b: nat, i: nat)
    requires Wf(sb, p.blocks, p.ino, p.owner) && Away(sb, p, {}, b)
    ensures var q := p.(blocks := p.blocks[b := ZeroBlock()]);
            && Wf(sb, q.blocks, q.ino, q.owner) && Kept(sb, p, q, i, {b}) && Fresh(sb, q.blocks, q.owner, b)
            && (forall j: nat :: j < |p.ino| ==> SameFile(sb, p, q, j))
  {
    hide Owned, NoHoles, Used, Slot, FileBlock, InodeIn, SameSlots, SameBytes;
    var q := p.(blocks := p.blocks[b := ZeroBlock()]);
    OwnedIsData(sb, p);
    OwnedUntouched(sb, p.blocks, p.ino, p.owner, q.blocks);
    AllBytes(p, q);
    MetaSame(sb, p, q);
    SlotsNoHoles(p, q);
    forall j: nat | j < |p.ino| ensures SameFile(sb, p, q, j) {
      SlotsSameAt(p, q, j);
    }
  }

  /** Putting a taken block into an empty slot of file i. */
  lemma AttachKept(sb: Super, p: Point, i: nat, s: nat, b: nat, q: Point)
    requires Wf(sb, p.blocks, p.ino, p.owner)
    requires Attached(sb, p.blocks, p.ino, p.owner, i, s, b, q.blocks, q.ino) && q.owner == p.owner[b := (i, s)]
    requires forall j :: 0 <= j < |p.ino| && j != i ==> q.ino[j] == p.ino[j]
    ensures Wf(sb, q.blocks, q.ino, q.owner) && Kept(sb, p, q, i, {b})
    ensures SameBytes(p.blocks, p.ino, q.blocks, q.ino, i) && SameDisk(sb, p, q, i)
  {
    hide Owned, NoHoles, Used, Slot, FileBlock, InodeIn, SameSlots, SameBytes, Fresh;
    AttachKeepsFiles(sb, p.blocks, p.ino, p.owner, i, s, b, q.blocks, q.ino);
    OwnedIsData(sb, p);
    AllBytes(p, q);
    forall c | 0 <= c < sb.datastart ensures q.blocks[c] == p.blocks[c] {
    }
    MetaSame(sb, p, q);
    forall j: nat | j < |p.ino| && j != i ensures SameFile(sb, p, q, j) {
      OtherSlots(p, q, i, s, b, j);
    }
    forall c: nat | Away(sb, p, {b}, c) ensures q.blocks[c] == p.blocks[c] {
    }
  }

  lemma OtherSlots(p: Point, q: Point, i: nat, s: nat, b: nat, j: nat)
    requires Inodes(p.ino) && Inodes(q.ino) && |p.ino| == |q.ino| && j < |p.ino| && j != i
    requires forall j, t {:trigger Slot(q.blocks, q.ino, j, t)} :: 0 <= j < |p.ino| && 0 <= t <= INDIRECT ==>
               Slot(q.blocks, q.ino, j, t) == if j == i && t == s then b else Slot(p.blocks, p.ino, j, t)
    ensures SameSlots(p, q, j)
  {
    hide Slot;
  }

  /** Overwriting a data block of file i. */
  lemma DataKept(sb: Super, p: Point, i: nat, bn: nat, data: Block)
    requires Wf(sb, p.blocks, p.ino, p.owner) && i < |p.ino| && bn < MAXFILE && Slot(p.blocks, p.ino, i, bn) != 0
    ensures var a := Slot(p.blocks, p.ino, i, bn);
            && a < |p.blocks|
            && var q := p.(blocks := p.blocks[a := data]);
            && Wf(sb, q.blocks, q.ino, q.owner) && Kept(sb, p, q, i, {}) && SameSlots(p, q, i) && SameDisk(sb, p, q, i)
            && (forall t {:trigger FileBlock(q.blocks, q.ino, i, t)} :: 0 <= t < MAXFILE ==>
                  FileBlock(q.blocks, q.ino, i, t) == if t == bn then data else FileBlock(p.blocks, p.ino, i, t))
  {
    hide Owned, NoHoles, Used, Slot, FileBlock, InodeIn, SameSlots, SameBytes, Fresh;
    var a := Slot(p.blocks, p.ino, i, bn);
    DataBlock(sb, p.blocks, p.ino, p.owner, i, bn);
    WriteData(sb, p.blocks, p.ino, p.owner, i, bn, data);
    var q := p.(blocks := p.blocks[a := data]);
    MetaSame(sb, p, q);
    SlotOwned(sb, p, i, bn);
    SlotsSameAt(p, q, i);
    forall j: nat | j < |p.ino| && j != i ensures SameFile(sb, p, q, j) {
      SlotsSameAt(p, q, j);
      BytesByBlock(p, q, j);
    }
  }

  lemma SlotOwned(sb: Super, p: Point, i: nat, s: nat)
    requires Wf(sb, p.blocks, p.ino, p.owner) && i < |p.ino| && s <= INDIRECT && Slot(p.blocks, p.ino, i, s) != 0
    ensures Slot(p.blocks, p.ino, i, s) in p.owner
  {
  }

  lemma BytesByBlock(p: Point, q: Point, j: nat)
    requires Inodes(p.ino) && Inodes(q.ino) && |p.ino| == |q.ino| && j < |p.ino|
    requires forall t :: 0 <= t < MAXFILE ==> FileBlock(q.blocks, q.ino, j, t) == FileBlock(p.blocks, p.ino, j, t)
    ensures SameBytes(p.blocks, p.ino, q.blocks, q.ino, j)
  {
    hide FileBlock;
  }

  /** Raising the size of file i over blocks that are all there, and writing its inode. */
  lemma GrowKept(sb: Super, p: Point, i: nat, off: nat, size: nat, q: Point)
    requires Wf(sb, p.blocks, p.ino, p.owner) && i < |p.ino| && off <= p.ino[i].size < size <= MAXFILE * BSIZE
    requires Inodes(p.ino) && Covered(p.blocks, p.ino, i, off, size)
    requires q.ino == p.ino[i := p.ino[i].(size := size)] && q.owner == p.owner && InodeBlock(sb, i) < |p.blocks|
    requires InodeFits(q.ino[i])
    requires q.blocks == p.blocks[InodeBlock(sb, i) := PutInode(p.blocks[InodeBlock(sb, i)], i % IPB, q.ino[i])]
    ensures Wf(sb, q.blocks, q.ino, q.owner) && Kept(sb, p, q, i, {}) && SameSlots(p, q, i)
    ensures SameBytes(p.blocks, p.ino, q.blocks, q.ino, i) && DiskInode(sb, q.blocks, i) == q.ino[i]
  {
    hide Owned, NoHoles, Used, Slot, FileBlock, InodeIn, PutInode, SameBytes, SameSlots;
    var m := p.(ino := q.ino);
    Resized(sb, p, i, off, size);
    InodeBlockIsMeta(sb, |p.ino|, i);
    InodeWritten(sb, p.blocks, m.ino, p.owner, i, q.blocks[InodeBlock(sb, i)]);
    SizeOnly(p.blocks, p.ino, q.ino, i);
    forall j: nat | j < |p.ino| ensures SameSlots(p, q, j) && SameBytes(p.blocks, p.ino, q.blocks, q.ino, j) {
      ThroughMid(p, m, q, j);
    }
    assert DiskInode(sb, q.blocks, i) == q.ino[i];
    forall j: nat | j < |p.ino| && j != i ensures SameFile(sb, p, q, j) {
      InodeBlockIsMeta(sb, |p.ino|, j);
      assert DiskInode(sb, q.blocks, j) == DiskInode(sb, p.blocks, j);
    }
    forall c: nat | Used(sb, p.blocks, c) ensures Used(sb, q.blocks, c) {
      UsedIsInside(sb, p.blocks, c);
    }
  }

  lemma Resized(sb: Super, p: Point, i: nat, off: nat, size: nat)
    requires Wf(sb, p.blocks, p.ino, p.owner) && i < |p.ino| && off <= p.ino[i].size < size <= MAXFILE * BSIZE
    requires Covered(p.blocks, p.ino, i, off, size)
    ensures Wf(sb, p.blocks, p.ino[i := p.ino[i].(size := size)], p.owner)
  {
    WfInodes(sb, p.blocks, p.ino, p.owner);
    WriteNothing(sb, p.blocks, p.ino, p.owner, i, off);
    GrowFile(sb, p.blocks, p.ino, p.owner, p.blocks, p.ino, p.owner, i, off, size);
  }

  lemma ThroughMid(p: Point, m: Point, q: Point, j: nat)
    requires Inodes(p.ino) && Inodes(m.ino) && m.ino == q.ino && |p.ino| == |m.ino| && j < |p.ino|
    requires m.blocks == p.blocks
    requires forall j, t {:trigger Slot(m.blocks, m.ino, j, t)} :: 0 <= j < |p.ino| && 0 <= t <= INDIRECT ==>
               Slot(m.blocks, m.ino, j, t) == Slot(p.blocks, p.ino, j, t)
    requires forall j, k {:trigger ByteAt(m.blocks, m.ino, j, k)} :: 0 <= j < |p.ino| && 0 <= k < MAXFILE * BSIZE ==>
               ByteAt(m.blocks, m.ino, j, k) == ByteAt(p.blocks, p.ino, j, k)
    requires forall j, t {:trigger Slot(q.blocks, q.ino, j, t)} :: 0 <= j < |p.ino| && 0 <= t <= INDIRECT ==>
               Slot(q.blocks, q.ino, j, t) == Slot(m.blocks, m.ino, j, t)
    requires SameBytes(m.blocks, m.ino, q.blocks, q.ino, j)
    ensures SameSlots(p, q, j) && SameBytes(p.blocks, p.ino, q.blocks, q.ino, j)
  {
    hide Slot, FileBlock, ByteAt;
  }

  lemma SameFileTrans(sb: Super, p: Point, m: Point, q: Point, j: nat)
    requires SameFile(sb, p, m, j) && SameFile(sb, m, q, j)
    ensures SameFile(sb, p, q, j)
  {
    hide Slot, FileBlock, ByteAt, DiskInode;
    forall k {:trigger ByteAt(q.blocks, q.ino, j, k)} | 0 <= k < MAXFILE * BSIZE
      ensures ByteAt(q.blocks, q.ino, j, k) == ByteAt(p.blocks, p.ino, j, k)
    {
      assert ByteAt(m.blocks, m.ino, j, k) == ByteAt(p.blocks, p.ino, j, k);
    }
    forall t {:trigger Slot(q.blocks, q.ino, j, t)} | 0 <= t <= INDIRECT
      ensures Slot(q.blocks, q.ino, j, t) == Slot(p.blocks, p.ino, j, t)
    {
      assert Slot(m.blocks, m.ino, j, t) == Slot(p.blocks, p.ino, j, t);
    }
  }

  lemma KeptTrans(sb: Super, p: Point, m: Point, q: Point, i: nat, mine: set<nat>)
    requires Kept(sb, p, m, i, mine) && Kept(sb, m, q, i, mine)
    ensures Kept(sb, p, q, i, mine)
  {
    hide SameFile, Used;
    forall j | 0 <= j < |p.ino| && j != i ensures SameFile(sb, p, q, j) {
      SameFileTrans(sb, p, m, q, j);
    }
    forall c: nat | Used(sb, p.blocks, c) ensures Used(sb, q.blocks, c) {
      assert Used(sb, m.blocks, c);
    }
    forall b: nat | Away(sb, p, mine, b) ensures b !in q.owner && b < |p.blocks| && q.blocks[b] == p.blocks[b] {
      assert Used(sb, m.blocks, b);
      assert Away(sb, m, mine, b);
    }
  }

  /* ---------------- a writei under way ---------------- */

  /** A writei that started at point `from` and has logged `log` since. */
  datatype Task = Task(job: Job, at: Phase, from: Point, log: seq<Write>)

  /** The bytes written so far. */
  function Tot(t: Task): (n: nat) { if t.at.Ended? then |t.job.src| else t.at.tot }

  /** The block that is marked in use but in no slot yet. */
  function Pending(at: Phase): (s: set<nat>) { if at.Taken? || at.Cleared? then {at.b} else {} }

  ghost predicate Under(sb: Super, p: Point, t: Task)
  {
    var i, f, off, n := t.job.i, t.from, t.job.off, |t.job.src|;
    && i < |p.ino| == |f.ino| && Inodes(p.ino) && Wf(sb, f.blocks, f.ino, f.owner) && Inodes(f.ino)
    && off <= f.ino[i].size && off + n <= MAXFILE * BSIZE && n <= CHUNK
    && Tot(t) <= n && (Tot(t) == 0 || Tot(t) == n || (off + Tot(t)) % BSIZE == 0)
    && (t.at.Ended? ==> n > 0 && off + n > f.ino[i].size)
    && p.ino[i].size == (if t.at.Ended? then off + n else f.ino[i].size)
    && (off + n <= f.ino[i].size ==> p.ino[i] == f.ino[i])
    && InodeBlock(sb, i) < |p.blocks| && DiskInode(sb, p.blocks, i) == if t.at.Ended? then p.ino[i] else f.ino[i]
  }

  /** The slots of the file are those it had, and new ones in the range of the write. */
  ghost predicate Slotted(p: Point, t: Task)
    requires Inodes(p.ino) && Inodes(t.from.ino) && t.job.i < |p.ino| == |t.from.ino|
  {
    var i, f, off := t.job.i, t.from, t.job.off;
    && (forall s {:trigger Slot(p.blocks, p.ino, i, s)} :: 0 <= s <= INDIRECT && Slot(f.blocks, f.ino, i, s) != 0 ==>
          Slot(p.blocks, p.ino, i, s) == Slot(f.blocks, f.ino, i, s))
    && GainsAt(f.blocks, f.ino, p.blocks, p.ino, i, off / BSIZE, EndBlock(off, |t.job.src|))
    && Covered(p.blocks, p.ino, i, off, off + Tot(t))
  }

  /** The bytes of the file are those it had, and those written so far. */
  ghost predicate Filled(p: Point, t: Task)
    requires Inodes(p.ino) && Inodes(t.from.ino) && t.job.i < |p.ino| == |t.from.ino| && Tot(t) <= |t.job.src|
  {
    var i, f, off := t.job.i, t.from, t.job.off;
    forall k {:trigger ByteAt(p.blocks, p.ino, i, k)} :: 0 <= k < MAXFILE * BSIZE ==>
      ByteAt(p.blocks, p.ino, i, k) == if off <= k < off + Tot(t) then t.job.src[k - off]
                                       else ByteAt(f.blocks, f.ino, i, k)
  }

  /** The block on its way into a slot. */
  ghost predicate Holding(sb: Super, p: Point, t: Task)
    requires Inodes(p.ino) && t.job.i < |p.ino|
  {
    t.at.Taken? || t.at.Cleared? ==>
      var bn := (t.job.off + t.at.tot) / BSIZE;
      && t.at.tot < |t.job.src| && bn < MAXFILE && Missing(p, t.job.i, bn) == Some(t.at.s)
      && Layout(sb, |p.blocks|) && Away(sb, p, {}, t.at.b)
      && (t.at.Cleared? ==> NDIRECT <= t.at.s < MAXFILE && p.blocks[t.at.b] == ZeroBlock())
  }

  /** What has been logged: the blocks written, those allocated and their free-map blocks, the indirect block if a slot
      in it was filled, and in the end the inode block. */
  ghost function LogOf(sb: Super, p: Point, t: Task): (s: set<nat>)
    requires Inodes(p.ino) && Inodes(t.from.ino) && t.job.i < |p.ino| == |t.from.ino|
    requires EndBlock(t.job.off, Tot(t)) <= MAXFILE
  {
    var i, f, off := t.job.i, t.from, t.job.off;
    var gained := Gained(f.blocks, f.ino, p.blocks, p.ino, i);
    DataIn(p.blocks, p.ino, i, off / BSIZE, EndBlock(off, Tot(t))) + gained + MapOf(sb, gained)
    + Through(f.blocks, f.ino, p.blocks, p.ino, i) + MapOf(sb, Pending(t.at))
    + (if t.at.Cleared? then {t.at.b} else {}) + if t.at.Ended? then {InodeBlock(sb, i)} else {}
  }

  ghost predicate Mine(sb: Super, p: Point, t: Task)
  {
    && Under(sb, p, t) && Slotted(p, t) && Filled(p, t) && Holding(sb, p, t)
    && EndBlock(t.job.off, Tot(t)) <= MAXFILE && Touched(t.log) == LogOf(sb, p, t)
  }

  /** A step on another file leaves all that as it is. */
  lemma OtherKept(sb: Super, p: Point, q: Point, i: nat, mine: set<nat>, t: Task)
    requires Mine(sb, p, t) && Kept(sb, p, q, i, mine) && t.job.i != i && Pending(t.at) !! mine
    ensures Mine(sb, q, t)
  {
    hide Wf, Used, Slot, FileBlock, ByteAt, InodeIn, Touched, MapOf, EndBlock;
    var j := t.job.i;
    assert SameFile(sb, p, q, j);
    SameLog(sb, p, q, t);
    OtherSlotted(p, q, t);
    OtherFilled(p, q, t);
    OtherHolding(sb, p, q, i, mine, t);
  }

  lemma SameLog(sb: Super, p: Point, q: Point, t: Task)
    requires Inodes(p.ino) && Inodes(q.ino) && Inodes(t.from.ino) && t.job.i < |p.ino| == |t.from.ino| == |q.ino|
    requires EndBlock(t.job.off, Tot(t)) <= MAXFILE && SameSlots(p, q, t.job.i)
    ensures LogOf(sb, q, t) == LogOf(sb, p, t)
  {
    hide Slot, MapOf, EndBlock, Through;
    var i, f, lo, hi := t.job.i, t.from, t.job.off / BSIZE, EndBlock(t.job.off, Tot(t));
    assert Gained(f.blocks, f.ino, q.blocks, q.ino, i) == Gained(f.blocks, f.ino, p.blocks, p.ino, i);
    IndirectAgrees(p.blocks, p.ino, q.blocks, q.ino, i);
    ThroughAgrees(f.blocks, f.ino, p.blocks, p.ino, q.blocks, q.ino, i);
    assert DataIn(q.blocks, q.ino, i, lo, hi) == DataIn(p.blocks, p.ino, i, lo, hi);
  }

  lemma OtherSlotted(p: Point, q: Point, t: Task)
    requires Inodes(p.ino) && Inodes(q.ino) && Inodes(t.from.ino) && t.job.i < |p.ino| == |t.from.ino| == |q.ino|
    requires Slotted(p, t) && SameSlots(p, q, t.job.i)
    ensures Slotted(q, t)
  {
    hide Slot, EndBlock;
  }

  lemma OtherFilled(p: Point, q: Point, t: Task)
    requires Inodes(p.ino) && Inodes(q.ino) && Inodes(t.from.ino) && t.job.i < |p.ino| == |t.from.ino| == |q.ino|
    requires Tot(t) <= |t.job.src| && Filled(p, t) && SameBytes(p.blocks, p.ino, q.blocks, q.ino, t.job.i)
    ensures Filled(q, t)
  {
    hide ByteAt;
    var i := t.job.i;
    forall k {:trigger ByteAt(q.blocks, q.ino, i, k)} | 0 <= k < MAXFILE * BSIZE
      ensures ByteAt(q.blocks, q.ino, i, k) == ByteAt(p.blocks, p.ino, i, k)
    {
    }
  }

  lemma OtherHolding(sb: Super, p: Point, q: Point, i: nat, mine: set<nat>, t: Task)
    requires Inodes(p.ino) && Inodes(q.ino) && t.job.i < |p.ino| == |q.ino| && q.ino[t.job.i] == p.ino[t.job.i]
    requires Holding(sb, p, t) && Kept(sb, p, q, i, mine) && SameSlots(p, q, t.job.i) && Pending(t.at) !! mine
    ensures Holding(sb, q, t)
  {
    hide Slot, Used, SameFile;
    if t.at.Taken? || t.at.Cleared? {
      var b := t.at.b;
      assert b in Pending(t.at) && Away(sb, p, mine, b);
      assert Used(sb, q.blocks, b) && Away(sb, q, {}, b);
    }
  }

  /* ---------------- its own steps ---------------- */

  /** A slot is missing only where the write goes past the end of the file. */
  lemma MissingPastEnd(sb: Super, p: Point, i: nat, o: nat)
    requires Wf(sb, p.blocks, p.ino, p.owner) && i < |p.ino| && o / BSIZE < MAXFILE && Missing(p, i, o / BSIZE).Some?
    ensures o >= p.ino[i].size
  {
    if o < p.ino[i].size {
      NoHoleAt(sb, p.blocks, p.ino, p.owner, i, o);
      assert false;
    }
  }

  /** The file is what it was; only where writei is changes, and the log. */
  lemma SameMine(sb: Super, p: Point, q: Point, t: Task, t': Task)
    requires Mine(sb, p, t) && SameFile(sb, p, q, t.job.i) && !t.at.Ended? && !t'.at.Ended?
    requires t'.job == t.job && t'.from == t.from && Tot(t') == Tot(t) && Holding(sb, q, t')
    requires Touched(t'.log) == LogOf(sb, q, t')
    ensures Mine(sb, q, t')
  {
    hide Wf, Used, Slot, FileBlock, ByteAt, InodeIn, Touched, MapOf, EndBlock, LogOf;
    OtherSlotted(p, q, t);
    OtherFilled(p, q, t);
  }

  lemma MarkMine(sb: Super, p: Point, t: Task, w: Write, q: Point, at': Phase)
    requires Wf(sb, p.blocks, p.ino, p.owner) && Mine(sb, p, t) && t.at.Loop? && t.at.tot < |t.job.src|
    requires (t.job.off + t.at.tot) / BSIZE < MAXFILE
    requires Missing(p, t.job.i, (t.job.off + t.at.tot) / BSIZE).Some?
    requires MarkStep(sb, p, t.at.tot, Missing(p, t.job.i, (t.job.off + t.at.tot) / BSIZE).value, w, q, at')
    requires q.blocks == p.blocks[w.block := w.data]
    ensures Wf(sb, q.blocks, q.ino, q.owner) && Kept(sb, p, q, t.job.i, {}) && sb.inodestart <= w.block
    ensures Mine(sb, q, t.(at := at', log := t.log + [w]))
    ensures at'.Taken? && Layout(sb, |p.blocks|) && !Used(sb, p.blocks, at'.b)
  {
    hide Wf, Used, Slot, FileBlock, ByteAt, InodeIn, Touched, MapOf, EndBlock, Kept, SameFile, Gained, Through, DataIn,
         PutBlockBit;
    var t', i := t.(at := at', log := t.log + [w]), t.job.i;
    MarkKept(sb, p, at'.b, i);
    assert q == p.(blocks := Marked(sb, p.blocks, at'.b, true));
    SameParts(sb, p, q, i);
    SameLog(sb, p, q, t);
    TouchedMore(t.log, w);
    MapOfOne(sb, at'.b);
    NoPending(sb);
    SameMine(sb, p, q, t, t');
  }

  lemma SameParts(sb: Super, p: Point, q: Point, i: nat)
    requires SameFile(sb, p, q, i)
    ensures i < |p.ino| == |q.ino| && Inodes(p.ino) && Inodes(q.ino) && q.ino[i] == p.ino[i] && SameSlots(p, q, i)
    ensures forall t :: 0 <= t <= INDIRECT ==> Slot(q.blocks, q.ino, i, t) == Slot(p.blocks, p.ino, i, t)
    ensures forall bn: nat :: bn < MAXFILE ==> Missing(q, i, bn) == Missing(p, i, bn)
  {
    hide Slot;
  }

  lemma MapOfOne(sb: Super, b: nat)
    ensures MapOf(sb, {b}) == {BitmapBlock(sb, b)}
  {
  }

  lemma NoPending(sb: Super)
    ensures MapOf(sb, {}) == {}
  {
  }

  lemma ClearMine(sb: Super, p: Point, t: Task, w: Write, q: Point, at': Phase)
    requires Wf(sb, p.blocks, p.ino, p.owner) && Mine(sb, p, t) && t.at.Taken? && NDIRECT <= t.at.s < MAXFILE
    requires ZeroStep(p, t.job.i, t.at.tot, t.at.s, t.at.b, w, q, at') && w.block < |p.blocks|
    requires q.blocks == p.blocks[w.block := w.data]
    ensures Wf(sb, q.blocks, q.ino, q.owner) && Kept(sb, p, q, t.job.i, Pending(t.at)) && sb.inodestart <= w.block
    ensures Mine(sb, q, t.(at := at', log := t.log + [w]))
  {
    hide Wf, Used, Slot, FileBlock, ByteAt, InodeIn, Touched, MapOf, EndBlock, Kept, SameFile, Gained, Through, DataIn;
    var t', i, b := t.(at := at', log := t.log + [w]), t.job.i, t.at.b;
    ZeroKept(sb, p, b, i);
    assert q == p.(blocks := p.blocks[b := ZeroBlock()]);
    SameParts(sb, p, q, i);
    SameLog(sb, p, q, t);
    TouchedMore(t.log, w);
    WfInodes(sb, p.blocks, p.ino, p.owner);
    SameMine(sb, p, q, t, t');
  }

  /** A block goes into its slot: z is the file system with the block zeroed. */
  lemma AttachMine(sb: Super, z: Point, t: Task, q: Point, log': seq<Write>)
    requires Wf(sb, z.blocks, z.ino, z.owner) && Under(sb, z, t) && Slotted(z, t) && Filled(z, t) && Holding(sb, z, t)
    requires (t.at.Taken? || t.at.Cleared?) && EndBlock(t.job.off, t.at.tot) <= MAXFILE
    requires Attached(sb, z.blocks, z.ino, z.owner, t.job.i, t.at.s, t.at.b, q.blocks, q.ino) && t.at.b != 0
    requires q.owner == z.owner[t.at.b := (t.job.i, t.at.s)]
    requires forall j :: 0 <= j < |z.ino| && j != t.job.i ==> q.ino[j] == z.ino[j]
    requires Touched(log') == LogOf(sb, z, t) + {t.at.b}
                              + if NDIRECT <= t.at.s < MAXFILE then {z.ino[t.job.i].addrs[NDIRECT]} else {}
    requires NDIRECT <= t.at.s < MAXFILE ==> q.ino == z.ino
    ensures Wf(sb, q.blocks, q.ino, q.owner) && Kept(sb, z, q, t.job.i, Pending(t.at))
    ensures Mine(sb, q, t.(at := Loop(t.at.tot), log := log'))
  {
    hide Wf, Used, Slot, FileBlock, ByteAt, InodeIn, Touched, MapOf, EndBlock, Kept, SameFile, Gained, Through, DataIn,
         Missing, Slotted, LogOf, Away;
    var i, s, b, o := t.job.i, t.at.s, t.at.b, t.job.off + t.at.tot;
    var t' := t.(at := Loop(t.at.tot), log := log');
    AttachKept(sb, z, i, s, b, q);
    MissingPastEnd(sb, z, i, o);
    MissingIs(z, i, o / BSIZE, s);
    OtherFilled(z, q, t);
    AttachSlotted(z, t, q, t');
    AttachLog(sb, z, t, q, t');
  }

  lemma MissingIs(p: Point, i: nat, bn: nat, s: nat)
    requires i < |p.ino| && |p.ino[i].addrs| == NDIRECT + 1 && bn < MAXFILE && Missing(p, i, bn) == Some(s)
    ensures Slot(p.blocks, p.ino, i, s) == 0 && (s == bn || s == INDIRECT)
    ensures s == INDIRECT ==> forall t {:trigger Slot(p.blocks, p.ino, i, t)} :: NDIRECT <= t <= INDIRECT ==>
              Slot(p.blocks, p.ino, i, t) == 0
    ensures NDIRECT <= s < MAXFILE ==> p.ino[i].addrs[NDIRECT] != 0
  {
  }

  ghost predicate OneSlot(z: Point, q: Point, i: nat, s: nat, b: nat)
    requires Inodes(z.ino) && Inodes(q.ino) && i < |z.ino| == |q.ino|
  {
    forall t {:trigger Slot(q.blocks, q.ino, i, t)} :: 0 <= t <= INDIRECT ==>
      Slot(q.blocks, q.ino, i, t) == if t == s then b else Slot(z.blocks, z.ino, i, t)
  }

  lemma AttachSlotted(z: Point, t: Task, q: Point, t': Task)
    requires Inodes(z.ino) && Inodes(q.ino) && Inodes(t.from.ino) && t.job.i < |z.ino| == |t.from.ino| == |q.ino|
    requires (t.at.Taken? || t.at.Cleared?) && t.at.tot < |t.job.src| && t.at.b != 0 && Slotted(z, t)
    requires (t.at.tot == 0 || (t.job.off + t.at.tot) % BSIZE == 0) && t.at.s <= INDIRECT
    requires t.at.s == (t.job.off + t.at.tot) / BSIZE || t.at.s == INDIRECT
    requires Slot(z.blocks, z.ino, t.job.i, t.at.s) == 0 && OneSlot(z, q, t.job.i, t.at.s, t.at.b)
    requires t' == t.(at := Loop(t.at.tot), log := t'.log)
    ensures Slotted(q, t')
  {
    hide Slot, EndBlock;
    var o, n := t.job.off + t.at.tot, |t.job.src|;
    TurnStep(t.job.off, t.at.tot, n, Part(o, n - t.at.tot));
  }

  lemma AttachLog(sb: Super, z: Point, t: Task, q: Point, t': Task)
    requires Inodes(z.ino) && Inodes(q.ino) && Inodes(t.from.ino) && t.job.i < |z.ino| == |t.from.ino| == |q.ino|
    requires (t.at.Taken? || t.at.Cleared?) && t.at.b != 0 && Slotted(z, t) && t.at.s <= INDIRECT
    requires t' == t.(at := Loop(t.at.tot), log := t'.log)
    requires Slot(z.blocks, z.ino, t.job.i, t.at.s) == 0 && OneSlot(z, q, t.job.i, t.at.s, t.at.b)
    requires t.at.s == INDIRECT ==>
               forall x {:trigger Slot(z.blocks, z.ino, t.job.i, x)} :: NDIRECT <= x <= INDIRECT ==>
               Slot(z.blocks, z.ino, t.job.i, x) == 0
    requires NDIRECT <= t.at.s < MAXFILE ==> z.ino[t.job.i].addrs[NDIRECT] != 0
    requires EndBlock(t.job.off, t.at.tot) <= MAXFILE
    ensures LogOf(sb, q, t') == LogOf(sb, z, t) + {t.at.b}
                                + if NDIRECT <= t.at.s < MAXFILE then {z.ino[t.job.i].addrs[NDIRECT]} else {}
  {
    hide Slot, EndBlock, MapOf, Through, Gained;
    var i, s, b, f, lo, hi := t.job.i, t.at.s, t.at.b, t.from, t.job.off / BSIZE, EndBlock(t.job.off, t.at.tot);
    var g := Gained(f.blocks, f.ino, z.blocks, z.ino, i);
    AttachGained(z, t, q);
    MapOfMore(sb, g, b);
    NoPending(sb);
    DataStill(z, t, q, lo, hi);
    AttachThrough(z, t, q);
    IndirectSlots(z, q, i);
  }

  lemma IndirectSlots(z: Point, q: Point, i: nat)
    requires Inodes(z.ino) && Inodes(q.ino) && i < |z.ino| && i < |q.ino|
    ensures Slot(z.blocks, z.ino, i, INDIRECT) == z.ino[i].addrs[NDIRECT]
    ensures Slot(q.blocks, q.ino, i, INDIRECT) == q.ino[i].addrs[NDIRECT]
  {
  }

  lemma MapOfMore(sb: Super, g: set<nat>, b: nat)
    ensures MapOf(sb, g + {b}) == MapOf(sb, g) + MapOf(sb, {b})
  {
  }

  lemma AttachGained(z: Point, t: Task, q: Point)
    requires Inodes(z.ino) && Inodes(q.ino) && Inodes(t.from.ino) && t.job.i < |z.ino| == |t.from.ino| == |q.ino|
    requires (t.at.Taken? || t.at.Cleared?) && t.at.b != 0 && Slotted(z, t) && t.at.s <= INDIRECT
    requires Slot(z.blocks, z.ino, t.job.i, t.at.s) == 0 && OneSlot(z, q, t.job.i, t.at.s, t.at.b)
    ensures Gained(t.from.blocks, t.from.ino, q.blocks, q.ino, t.job.i) ==
              Gained(t.from.blocks, t.from.ino, z.blocks, z.ino, t.job.i) + {t.at.b}
  {
    hide Slot, EndBlock;
    var i, f, s, b := t.job.i, t.from, t.at.s, t.at.b;
    assert Slot(f.blocks, f.ino, i, s) == 0 && Slot(q.blocks, q.ino, i, s) == b;
    forall x | x in Gained(f.blocks, f.ino, z.blocks, z.ino, i)
      ensures x in Gained(f.blocks, f.ino, q.blocks, q.ino, i)
    {
      var u :| 0 <= u <= INDIRECT && Slot(f.blocks, f.ino, i, u) == 0 && Slot(z.blocks, z.ino, i, u) != 0
               && Slot(z.blocks, z.ino, i, u) == x;
      assert Slot(q.blocks, q.ino, i, u) == x;
    }
  }

  lemma DataStill(z: Point, t: Task, q: Point, lo: nat, hi: nat)
    requires Inodes(z.ino) && Inodes(q.ino) && Inodes(t.from.ino) && t.job.i < |z.ino| == |t.from.ino| == |q.ino|
    requires (t.at.Taken? || t.at.Cleared?) && Slotted(z, t) && lo == t.job.off / BSIZE
    requires hi == EndBlock(t.job.off, t.at.tot) <= MAXFILE
    requires t.at.s <= INDIRECT && Slot(z.blocks, z.ino, t.job.i, t.at.s) == 0
    requires OneSlot(z, q, t.job.i, t.at.s, t.at.b)
    ensures DataIn(q.blocks, q.ino, t.job.i, lo, hi) == DataIn(z.blocks, z.ino, t.job.i, lo, hi)
  {
    hide Slot;
    var i := t.job.i;
    forall u | lo <= u < hi ensures Slot(q.blocks, q.ino, i, u) == Slot(z.blocks, z.ino, i, u) {
      assert u * BSIZE < t.job.off + t.at.tot;
      assert Slot(z.blocks, z.ino, i, u) != 0;
    }
  }

  lemma AttachThrough(z: Point, t: Task, q: Point)
    requires Inodes(z.ino) && Inodes(q.ino) && Inodes(t.from.ino) && t.job.i < |z.ino| == |t.from.ino| == |q.ino|
    requires (t.at.Taken? || t.at.Cleared?) && t.at.b != 0 && Slotted(z, t) && t.at.s <= INDIRECT
    requires Slot(z.blocks, z.ino, t.job.i, t.at.s) == 0 && OneSlot(z, q, t.job.i, t.at.s, t.at.b)
    requires t.at.s == INDIRECT ==>
               forall x {:trigger Slot(z.blocks, z.ino, t.job.i, x)} :: NDIRECT <= x <= INDIRECT ==>
               Slot(z.blocks, z.ino, t.job.i, x) == 0
    ensures Through(t.from.blocks, t.from.ino, q.blocks, q.ino, t.job.i) ==
              if t.at.s == INDIRECT then {t.at.b}
              else if t.at.s >= NDIRECT then {z.ino[t.job.i].addrs[NDIRECT]}
              else Through(t.from.blocks, t.from.ino, z.blocks, z.ino, t.job.i)
    ensures t.at.s == INDIRECT ==> Through(t.from.blocks, t.from.ino, z.blocks, z.ino, t.job.i) == {}
    ensures t.at.s < INDIRECT && t.at.s >= NDIRECT ==>
              Through(t.from.blocks, t.from.ino, z.blocks, z.ino, t.job.i) <= {z.ino[t.job.i].addrs[NDIRECT]}
  {
    hide Slot, EndBlock;
    var i, f, s := t.job.i, t.from, t.at.s;
    IndirectSlots(z, q, i);
    assert Slot(f.blocks, f.ino, i, s) == 0 && Slot(q.blocks, q.ino, i, s) == t.at.b;
    if s < NDIRECT {
      forall u | NDIRECT <= u <= INDIRECT ensures Slot(q.blocks, q.ino, i, u) == Slot(z.blocks, z.ino, i, u) {
      }
      assert (exists u {:trigger Slot(z.blocks, z.ino, i, u)} ::
                NDIRECT <= u <= INDIRECT && Slot(f.blocks, f.ino, i, u) == 0 && Slot(z.blocks, z.ino, i, u) != 0) <==>
             exists u {:trigger Slot(q.blocks, q.ino, i, u)} ::
                NDIRECT <= u <= INDIRECT && Slot(f.blocks, f.ino, i, u) == 0 && Slot(q.blocks, q.ino, i, u) != 0;
    }
  }

  lemma ZeroAttachMine(sb: Super, p: Point, t: Task, w: Write, q: Point, at': Phase)
    requires Wf(sb, p.blocks, p.ino, p.owner) && Mine(sb, p, t) && t.at.Taken? && !(NDIRECT <= t.at.s < MAXFILE)
    requires ZeroStep(p, t.job.i, t.at.tot, t.at.s, t.at.b, w, q, at') && w.block < |p.blocks|
    requires q.blocks == p.blocks[w.block := w.data]
    ensures Wf(sb, q.blocks, q.ino, q.owner) && Kept(sb, p, q, t.job.i, Pending(t.at)) && sb.inodestart <= w.block
    ensures Mine(sb, q, t.(at := at', log := t.log + [w]))
  {
    hide Wf, Used, Slot, FileBlock, ByteAt, InodeIn, Touched, MapOf, EndBlock, Kept, SameFile, Gained, Through, DataIn,
         Slotted, Filled, LogOf, Attached;
    var i, s, b := t.job.i, t.at.s, t.at.b;
    WfInodes(sb, p.blocks, p.ino, p.owner);
    ZeroKept(sb, p, b, i);
    var z := p.(blocks := p.blocks[b := ZeroBlock()]);
    OtherMine(sb, p, z, t);
    MissingSlot(z, i, (t.job.off + t.at.tot) / BSIZE, s);
    if s < NDIRECT {
      SetDirect(sb, z.blocks, z.ino, z.owner, i, s, b);
    } else {
      SetIndirect(sb, z.blocks, z.ino, z.owner, i, b);
    }
    TouchedMore(t.log, w);
    AttachMine(sb, z, t, q, t.log + [w]);
    KeptTrans(sb, p, z, q, i, Pending(t.at));
  }

  lemma MissingSlot(p: Point, i: nat, bn: nat, s: nat)
    requires i < |p.ino| && |p.ino[i].addrs| == NDIRECT + 1 && bn < MAXFILE && Missing(p, i, bn) == Some(s)
    ensures s <= INDIRECT && (s < NDIRECT ==> p.ino[i].addrs[s] == 0)
    ensures s == INDIRECT ==> p.ino[i].addrs[NDIRECT] == 0
    ensures NDIRECT <= s < MAXFILE ==> p.ino[i].addrs[NDIRECT] != 0 && Slot(p.blocks, p.ino, i, s) == 0
  {
  }

  /** Zeroing the block leaves the task where it was. */
  lemma OtherMine(sb: Super, p: Point, z: Point, t: Task)
    requires Mine(sb, p, t) && SameFile(sb, p, z, t.job.i) && t.at.Taken? && Layout(sb, |p.blocks|)
    requires z == p.(blocks := z.blocks) && |z.blocks| == |p.blocks| && Used(sb, z.blocks, t.at.b)
    ensures Under(sb, z, t) && Slotted(z, t) && Filled(z, t) && Holding(sb, z, t) && LogOf(sb, z, t) == LogOf(sb, p, t)
  {
    hide Wf, Used, Slot, FileBlock, ByteAt, InodeIn, Touched, MapOf, EndBlock, LogOf, Gained, Through, DataIn;
    SameParts(sb, p, z, t.job.i);
    SameLog(sb, p, z, t);
    OtherSlotted(p, z, t);
    OtherFilled(p, z, t);
  }

  lemma WordMine(sb: Super, p: Point, t: Task, w: Write, q: Point, at': Phase)
    requires Wf(sb, p.blocks, p.ino, p.owner) && Mine(sb, p, t) && t.at.Cleared?
    requires WordStep(p, t.job.i, t.at.tot, t.at.s, t.at.b, w, q, at') && q.blocks == p.blocks[w.block := w.data]
    ensures Wf(sb, q.blocks, q.ino, q.owner) && Kept(sb, p, q, t.job.i, Pending(t.at)) && sb.inodestart <= w.block
    ensures Mine(sb, q, t.(at := at', log := t.log + [w]))
  {
    hide Wf, Used, Slot, FileBlock, ByteAt, InodeIn, Touched, MapOf, EndBlock, Kept, SameFile, Gained, Through, DataIn,
         Slotted, Filled, Attached, PutWord;
    var i, s, b := t.job.i, t.at.s, t.at.b;
    WfInodes(sb, p.blocks, p.ino, p.owner);
    MissingSlot(p, i, (t.job.off + t.at.tot) / BSIZE, s);
    SetWord(sb, p.blocks, p.ino, p.owner, i, s, b);
    IndirectSlots(p, p, i);
    DataBlock(sb, p.blocks, p.ino, p.owner, i, INDIRECT);
    TouchedMore(t.log, w);
    AttachMine(sb, p, t, q, t.log + [w]);
  }

  lemma DataMine(sb: Super, p: Point, t: Task, w: Write, q: Point, at': Phase)
    requires Wf(sb, p.blocks, p.ino, p.owner) && Mine(sb, p, t) && t.at.Loop? && t.at.tot < |t.job.src|
    requires (t.job.off + t.at.tot) / BSIZE < MAXFILE
    requires Missing(p, t.job.i, (t.job.off + t.at.tot) / BSIZE).None?
    requires DataStep(p, t.job, t.at.tot, w, q, at') && q.blocks == p.blocks[w.block := w.data]
    ensures Wf(sb, q.blocks, q.ino, q.owner) && Kept(sb, p, q, t.job.i, {}) && sb.inodestart <= w.block
    ensures Mine(sb, q, t.(at := at', log := t.log + [w])) && Pending(at') == {}
  {
    hide Wf, Used, Slot, FileBlock, ByteAt, InodeIn, Touched, MapOf, EndBlock, Kept, SameFile, Gained, Through, DataIn,
         Slotted, Filled, LogOf, Overlay;
    var i, off, tot, n := t.job.i, t.job.off, t.at.tot, |t.job.src|;
    var o, m := off + tot, Part(off + tot, n - tot);
    var t' := t.(at := at', log := t.log + [w]);
    TurnStep(off, tot, n, m);
    DataThere(p, i, o / BSIZE);
    DataKept(sb, p, i, o / BSIZE, w.data);
    DataBlock(sb, p.blocks, p.ino, p.owner, i, o / BSIZE);
    assert q == p.(blocks := p.blocks[w.block := w.data]);
    DataSlotted(p, t, q, t', m);
    BlockThere(p, i, o / BSIZE);
    DataFilled(p, t, q, t', m);
    TouchedMore(t.log, w);
    DataLog(sb, p, t, q, t', m);
  }

  lemma DataThere(p: Point, i: nat, bn: nat)
    requires i < |p.ino| && |p.ino[i].addrs| == NDIRECT + 1 && bn < MAXFILE && Missing(p, i, bn).None?
    ensures Slot(p.blocks, p.ino, i, bn) != 0
  {
  }

  lemma BlockThere(p: Point, i: nat, bn: nat)
    requires i < |p.ino| && |p.ino[i].addrs| == NDIRECT + 1 && bn < MAXFILE
    requires 0 != Slot(p.blocks, p.ino, i, bn) < |p.blocks|
    ensures FileBlock(p.blocks, p.ino, i, bn) == p.blocks[Slot(p.blocks, p.ino, i, bn)]
  {
  }

  lemma DataSlotted(p: Point, t: Task, q: Point, t': Task, m: nat)
    requires Inodes(p.ino) && Inodes(q.ino) && Inodes(t.from.ino) && t.job.i < |p.ino| == |t.from.ino| == |q.ino|
    requires t.at.Loop? && Slotted(p, t) && SameSlots(p, q, t.job.i)
    requires t' == t.(at := Loop(t.at.tot + m), log := t'.log)
    requires var o := t.job.off + t.at.tot;
             && 0 < m && o % BSIZE + m <= BSIZE && o + m <= MAXFILE * BSIZE && o / BSIZE < MAXFILE
             && Slot(p.blocks, p.ino, t.job.i, o / BSIZE) != 0
    ensures Slotted(q, t')
  {
    hide Slot, EndBlock;
    var i, off, o := t.job.i, t.job.off, t.job.off + t.at.tot;
    forall bn {:trigger Slot(q.blocks, q.ino, i, bn)} | off / BSIZE <= bn && bn * BSIZE < o + m
      ensures Slot(q.blocks, q.ino, i, bn) != 0
    {
      assert bn == o / BSIZE || bn * BSIZE < o;
    }
  }

  lemma DataFilled(p: Point, t: Task, q: Point, t': Task, m: nat)
    requires Inodes(p.ino) && Inodes(q.ino) && Inodes(t.from.ino) && t.job.i < |p.ino| == |t.from.ino| == |q.ino|
    requires t.at.Loop? && t.at.tot + m <= |t.job.src| && Filled(p, t)
    requires t' == t.(at := Loop(t.at.tot + m), log := t'.log)
    requires var o := t.job.off + t.at.tot;
             && o % BSIZE + m <= BSIZE && o / BSIZE < MAXFILE
             && forall u {:trigger FileBlock(q.blocks, q.ino, t.job.i, u)} :: 0 <= u < MAXFILE ==>
                  FileBlock(q.blocks, q.ino, t.job.i, u) ==
                  if u == o / BSIZE
                  then Overlay(FileBlock(p.blocks, p.ino, t.job.i, u), o % BSIZE, t.job.src[t.at.tot..t.at.tot + m])
                  else FileBlock(p.blocks, p.ino, t.job.i, u)
    ensures Filled(q, t')
  {
    hide FileBlock;
    var i, f, off, o := t.job.i, t.from, t.job.off, t.job.off + t.at.tot;
    forall k {:trigger ByteAt(q.blocks, q.ino, i, k)} | 0 <= k < MAXFILE * BSIZE
      ensures ByteAt(q.blocks, q.ino, i, k) == if off <= k < o + m then t.job.src[k - off]
                                               else ByteAt(f.blocks, f.ino, i, k)
    {
      assert ByteAt(p.blocks, p.ino, i, k) == if off <= k < o then t.job.src[k - off]
                                              else ByteAt(f.blocks, f.ino, i, k);
      if k / BSIZE == o / BSIZE {
        assert o <= k < o + m <==> o % BSIZE <= k % BSIZE < o % BSIZE + m;
      }
    }
  }

  lemma DataLog(sb: Super, p: Point, t: Task, q: Point, t': Task, m: nat)
    requires Inodes(p.ino) && Inodes(q.ino) && Inodes(t.from.ino) && t.job.i < |p.ino| == |t.from.ino| == |q.ino|
    requires t.at.Loop? && SameSlots(p, q, t.job.i)
    requires t' == t.(at := Loop(t.at.tot + m), log := t'.log)
    requires var bn := (t.job.off + t.at.tot) / BSIZE;
             EndBlock(t.job.off, t.at.tot) == bn < MAXFILE && EndBlock(t.job.off, t.at.tot + m) == bn + 1
    requires t.job.off / BSIZE <= (t.job.off + t.at.tot) / BSIZE
    ensures LogOf(sb, q, t') == LogOf(sb, p, t) + {Slot(p.blocks, p.ino, t.job.i, (t.job.off + t.at.tot) / BSIZE)}
  {
    hide Slot, EndBlock, MapOf, Through, Gained;
    var i, lo, bn := t.job.i, t.job.off / BSIZE, (t.job.off + t.at.tot) / BSIZE;
    SameLog(sb, p, q, t);
    assert DataIn(q.blocks, q.ino, i, lo, bn + 1) ==
             DataIn(q.blocks, q.ino, i, lo, bn) + {Slot(q.blocks, q.ino, i, bn)};
  }

  lemma GrowMine(sb: Super, p: Point, t: Task, w: Write, q: Point, at': Phase)
    requires Wf(sb, p.blocks, p.ino, p.owner) && Mine(sb, p, t) && t.at == Loop(|t.job.src|)
    requires GrowStep(sb, p, t.job, w, q, at') && q.blocks == p.blocks[w.block := w.data]
    ensures Wf(sb, q.blocks, q.ino, q.owner) && Kept(sb, p, q, t.job.i, {}) && sb.inodestart <= w.block
    ensures Mine(sb, q, t.(at := at', log := t.log + [w])) && Pending(at') == {}
  {
    hide Wf, Used, Slot, FileBlock, ByteAt, InodeIn, Touched, MapOf, EndBlock, Kept, SameFile, Gained, Through, DataIn,
         PutInode, LogOf;
    var i, off, n := t.job.i, t.job.off, |t.job.src|;
    var t' := t.(at := at', log := t.log + [w]);
    GrowKept(sb, p, i, off, off + n, q);
    TouchedMore(t.log, w);
    OtherSlotted(p, q, t);
    OtherFilled(p, q, t);
    SameLog(sb, p, q, t);
    EndedLog(sb, q, t, t');
  }

  lemma EndedLog(sb: Super, q: Point, t: Task, t': Task)
    requires Inodes(q.ino) && Inodes(t.from.ino) && t.job.i < |q.ino| == |t.from.ino| && t.at == Loop(|t.job.src|)
    requires t' == t.(at := Ended, log := t'.log) && EndBlock(t.job.off, |t.job.src|) <= MAXFILE
    ensures LogOf(sb, q, t') == LogOf(sb, q, t) + {InodeBlock(sb, t.job.i)}
  {
  }

  /** One step: the file system stays well formed, all other files stay what they were, and the writei stays on
      course. */
  lemma StepKeeps(sb: Super, p: Point, t: Task, w: Write, q: Point, at': Phase)
    requires Wf(sb, p.blocks, p.ino, p.owner) && Mine(sb, p, t) && Step(sb, t.job, p, t.at, w, q, at')
    ensures Wf(sb, q.blocks, q.ino, q.owner) && Kept(sb, p, q, t.job.i, Pending(t.at)) && sb.inodestart <= w.block
    ensures Mine(sb, q, t.(at := at', log := t.log + [w]))
    ensures forall b :: b in Pending(at') && b !in Pending(t.at) ==> Layout(sb, |p.blocks|) && !Used(sb, p.blocks, b)
  {
    hide Wf, Mine, Kept, MarkStep, ZeroStep, WordStep, DataStep, GrowStep, Missing, Used;
    MineAt(sb, p, t);
    MarkedWhere(sb, p, t, w, q, at');
    match t.at
    case Loop(tot) =>
      if tot < |t.job.src| {
        if Missing(p, t.job.i, (t.job.off + tot) / BSIZE).Some? {
          MarkMine(sb, p, t, w, q, at');
        } else {
          DataMine(sb, p, t, w, q, at');
        }
      } else {
        GrowMine(sb, p, t, w, q, at');
      }
    case Taken(_, s, _) =>
      if NDIRECT <= s < MAXFILE { ClearMine(sb, p, t, w, q, at'); } else { ZeroAttachMine(sb, p, t, w, q, at'); }
    case Cleared(_, _, _) => WordMine(sb, p, t, w, q, at');
    case Ended =>
  }

  lemma MineAt(sb: Super, p: Point, t: Task)
    requires Mine(sb, p, t)
    ensures t.job.i < |p.ino| && Tot(t) <= |t.job.src|
  {
  }

  lemma MarkedWhere(sb: Super, p: Point, t: Task, w: Write, q: Point, at': Phase)
    requires Step(sb, t.job, p, t.at, w, q, at')
    ensures t.at.Loop? || Pending(at') <= Pending(t.at)
  {
  }

  /* ---------------- its beginning and its end ---------------- */

  lemma Range(off: nat, n: nat)
    requires off + n <= MAXFILE * BSIZE
    ensures EndBlock(off, n) <= MAXFILE && off / BSIZE <= EndBlock(off, n)
  {
  }

  lemma StartMine(sb: Super, p: Point, job: Job)
    requires Wf(sb, p.blocks, p.ino, p.owner) && job.i < |p.ino| && |job.src| <= CHUNK
    requires job.off <= p.ino[job.i].size && job.off + |job.src| <= MAXFILE * BSIZE
    requires InodeBlock(sb, job.i) < |p.blocks| && DiskInode(sb, p.blocks, job.i) == p.ino[job.i]
    ensures Mine(sb, p, Task(job, Loop(0), p, []))
  {
    hide Wf, Slot, FileBlock, ByteAt, InodeIn, Touched, MapOf, Covered;
    var i, t := job.i, Task(job, Loop(0), p, []);
    WfInodes(sb, p.blocks, p.ino, p.owner);
    UnalignedIsAllocated(sb, p.blocks, p.ino, p.owner, i, job.off);
    Range(job.off, 0);
    NothingTouched();
    NoPending(sb);
    NoneGained(p, i);
    assert DataIn(p.blocks, p.ino, i, job.off / BSIZE, EndBlock(job.off, 0)) == {};
  }

  lemma NoneGained(p: Point, i: nat)
    requires Inodes(p.ino) && i < |p.ino|
    ensures Gained(p.blocks, p.ino, p.blocks, p.ino, i) == {} && Through(p.blocks, p.ino, p.blocks, p.ino, i) == {}
  {
    hide Slot;
  }

  /** When writei returns, the file is what the write makes of it, and the disk has its inode. */
  lemma FinishedFile(sb: Super, p: Point, t: Task)
    requires Wf(sb, p.blocks, p.ino, p.owner) && Mine(sb, p, t) && t.job.i < |p.ino| && Finished(p, t.job, t.at)
    ensures InodeBlock(sb, t.job.i) < |p.blocks| && DiskInode(sb, p.blocks, t.job.i) == p.ino[t.job.i]
    ensures var i, f := t.job.i, t.from;
            && Inodes(p.ino) && Inodes(f.ino) && i < |f.ino| && t.job.off <= f.ino[i].size
            && Contents(p.blocks, p.ino, i) == Splice(Contents(f.blocks, f.ino, i), t.job.off, t.job.src)
  {
    hide Wf, Slot, FileBlock, InodeIn, Touched, LogOf, Slotted, Holding;
    var i, f, off, n := t.job.i, t.from, t.job.off, |t.job.src|;
    var c, w := Contents(p.blocks, p.ino, i), Splice(Contents(f.blocks, f.ino, i), off, t.job.src);
    assert |c| == |w|;
    forall k | 0 <= k < |c| ensures c[k] == w[k] {
      assert c[k] == ByteAt(p.blocks, p.ino, i, k);
      if !(off <= k < off + n) { assert w[k] == Contents(f.blocks, f.ino, i)[k] == ByteAt(f.blocks, f.ino, i, k); }
    }
  }

  /* ---------------- how much it logs ---------------- */

  /** What slot u holds, or is about to. */
  ghost function Soon(p: Point, t: Task, u: nat): (b: nat)
    requires t.job.i < |p.ino| && |p.ino[t.job.i].addrs| == NDIRECT + 1 && u <= INDIRECT
  {
    if (t.at.Taken? || t.at.Cleared?) && t.at.s == u then t.at.b else Slot(p.blocks, p.ino, t.job.i, u)
  }

  ghost function SoonIn(p: Point, t: Task, lo: nat, hi: nat): (s: set<nat>)
    requires Inodes(p.ino) && t.job.i < |p.ino| && hi <= MAXFILE
  {
    set u | lo <= u < hi :: Soon(p, t, u)
  }

  lemma {:induction false} SoonSize(p: Point, t: Task, lo: nat, hi: nat)
    requires Inodes(p.ino) && t.job.i < |p.ino| && lo <= hi <= MAXFILE
    ensures |SoonIn(p, t, lo, hi)| <= hi - lo
    decreases hi
  {
    hide Soon;
    if lo < hi {
      SoonSize(p, t, lo, hi - 1);
      assert SoonIn(p, t, lo, hi) == SoonIn(p, t, lo, hi - 1) + {Soon(p, t, hi - 1)};
    }
  }

  /** The slot of the pending block is in the range of the write, and empty. */
  ghost predicate HoldsSlot(p: Point, t: Task)
    requires Inodes(p.ino) && t.job.i < |p.ino|
  {
    t.at.Taken? || t.at.Cleared? ==>
      && (EndBlock(t.job.off, t.at.tot) <= t.at.s < EndBlock(t.job.off, |t.job.src|) <= MAXFILE || t.at.s == INDIRECT)
      && Slot(p.blocks, p.ino, t.job.i, t.at.s) == 0
      && (t.at.s == INDIRECT ==> forall u {:trigger Slot(p.blocks, p.ino, t.job.i, u)} :: NDIRECT <= u <= INDIRECT ==>
            Slot(p.blocks, p.ino, t.job.i, u) == 0)
  }

  lemma HoldsIn(sb: Super, p: Point, t: Task)
    requires Mine(sb, p, t)
    ensures HoldsSlot(p, t) && EndBlock(t.job.off, |t.job.src|) <= MAXFILE
  {
    hide Wf, Slot, LogOf, Touched, EndBlock, Slotted, Filled, Away, Missing;
    Range(t.job.off, |t.job.src|);
    if t.at.Taken? || t.at.Cleared? {
      var o, n := t.job.off + t.at.tot, |t.job.src|;
      MissingIs(p, t.job.i, o / BSIZE, t.at.s);
      TurnStep(t.job.off, t.at.tot, n, Part(o, n - t.at.tot));
    }
  }

  lemma MapOfBoth(sb: Super, a: set<nat>, b: set<nat>)
    ensures MapOf(sb, a + b) == MapOf(sb, a) + MapOf(sb, b)
  {
  }

  lemma LogParts(log: set<nat>, map0: set<nat>, plain: set<nat>, maps: set<nat>, ended: set<nat>)
    requires log <= plain + maps + ended && maps <= map0
    ensures |log - map0| <= |plain| + |ended| && |log| <= |plain| + |maps| + |ended|
  {
    SubsetSize(log - map0, plain + ended);
    UnionSize(plain, ended);
    SubsetSize(log, plain + maps + ended);
    UnionSize(plain, maps);
    UnionSize(plain + maps, ended);
  }

  lemma PlainLog(p: Point, t: Task, lo: nat, hi: nat)
    requires Inodes(p.ino) && Inodes(t.from.ino) && t.job.i < |p.ino| == |t.from.ino| && Slotted(p, t)
    requires lo == t.job.off / BSIZE && hi == EndBlock(t.job.off, |t.job.src|) <= MAXFILE && HoldsSlot(p, t)
    requires EndBlock(t.job.off, Tot(t)) <= hi
    ensures DataIn(p.blocks, p.ino, t.job.i, lo, EndBlock(t.job.off, Tot(t))) <= SoonIn(p, t, lo, hi)
    ensures var s := SoonIn(p, t, lo, hi) + {Soon(p, t, INDIRECT)};
            && Gained(t.from.blocks, t.from.ino, p.blocks, p.ino, t.job.i) <= s
            && Through(t.from.blocks, t.from.ino, p.blocks, p.ino, t.job.i) <= s
            && (t.at.Cleared? ==> t.at.b in s)
  {
    hide Slot, EndBlock, Covered;
    var i, f := t.job.i, t.from;
    forall u | 0 <= u <= INDIRECT && Slot(p.blocks, p.ino, i, u) != 0
      ensures Soon(p, t, u) == Slot(p.blocks, p.ino, i, u)
    {
    }
    forall u | lo <= u < EndBlock(t.job.off, Tot(t)) ensures Slot(p.blocks, p.ino, i, u) in SoonIn(p, t, lo, hi) {
      assert Soon(p, t, u) == Slot(p.blocks, p.ino, i, u);
    }
    IndirectSlots(p, p, i);
    if t.at.Cleared? { assert Soon(p, t, t.at.s) == t.at.b; }
  }

  lemma FreshLog(sb: Super, p: Point, t: Task, at: nat, hi: nat)
    requires Wf(sb, p.blocks, p.ino, p.owner) && Mine(sb, p, t) && HoldsSlot(p, t)
    requires hi == EndBlock(t.job.off, |t.job.src|) <= MAXFILE && t.job.off / BSIZE <= at <= hi
    requires forall u :: t.job.off / BSIZE <= u < at ==> Slot(t.from.blocks, t.from.ino, t.job.i, u) != 0
    ensures var taken := Gained(t.from.blocks, t.from.ino, p.blocks, p.ino, t.job.i) + Pending(t.at);
            |taken| <= hi - at + 1 && forall b :: b in taken ==> b < sb.size
  {
    hide Slot, EndBlock, Covered, LogOf, Touched, Filled, Used, Missing, InUse, NoHoles;
    var i, f := t.job.i, t.from;
    var taken := Gained(f.blocks, f.ino, p.blocks, p.ino, i) + Pending(t.at);
    var most := SoonIn(p, t, at, hi) + {Soon(p, t, INDIRECT)};
    forall b | b in taken ensures b in most && b < sb.size {
      if b in Pending(t.at) {
        assert Soon(p, t, t.at.s) == b;
        assert t.at.s == INDIRECT || at <= t.at.s < hi;
      } else {
        var u :| 0 <= u <= INDIRECT && Slot(f.blocks, f.ino, i, u) == 0 && Slot(p.blocks, p.ino, i, u) != 0
                 && Slot(p.blocks, p.ino, i, u) == b;
        assert Soon(p, t, u) == b && (u == INDIRECT || at <= u < hi);
      }
    }
    SoonSize(p, t, at, hi);
    UnionSize(SoonIn(p, t, at, hi), {Soon(p, t, INDIRECT)});
    SubsetSize(taken, most);
  }

  lemma StillThere(sb: Super, t: Task, lo: nat, at: nat)
    requires Wf(sb, t.from.blocks, t.from.ino, t.from.owner) && t.job.i < |t.from.ino|
    requires t.job.off <= t.from.ino[t.job.i].size && t.job.off <= MAXFILE * BSIZE && lo == t.job.off / BSIZE
    requires at == if t.job.off % BSIZE == 0 then lo else lo + 1
    ensures forall u :: lo <= u < at ==> u < MAXFILE && Slot(t.from.blocks, t.from.ino, t.job.i, u) != 0
  {
    hide Slot;
    UnalignedIsAllocated(sb, t.from.blocks, t.from.ino, t.from.owner, t.job.i, t.job.off);
  }

  /** Before the inode is written, at most five blocks outside the free map and four of it. */
  lemma LogBound(sb: Super, p: Point, t: Task)
    requires Wf(sb, p.blocks, p.ino, p.owner) && Mine(sb, p, t)
    ensures !t.at.Ended? ==> |Touched(t.log) - MapBlocks(sb)| <= 5 && |Touched(t.log)| <= 5 + Least(4, NMap(sb))
    ensures |Touched(t.log) - MapBlocks(sb)| <= 6 && |Touched(t.log)| <= 6 + Least(4, NMap(sb))
  {
    hide Wf, Touched, MapOf, MapBlocks, NMap, Mine, Allocated;
    var plain := PlainPart(sb, p, t);
    MapPart(sb, p, t);
    var ended: set<nat> := if t.at.Ended? then {InodeBlock(sb, t.job.i)} else {};
    LogParts(Touched(t.log), MapBlocks(sb), plain, MapOf(sb, Allocated(p, t)), ended);
  }

  /** The blocks taken so far, the pending one included. */
  ghost function Allocated(p: Point, t: Task): (s: set<nat>)
    requires Inodes(p.ino) && Inodes(t.from.ino) && t.job.i < |p.ino| == |t.from.ino|
  {
    Gained(t.from.blocks, t.from.ino, p.blocks, p.ino, t.job.i) + Pending(t.at)
  }

  /** What has been logged outside the free map: the data blocks and the indirect block, and in the end the inode. */
  lemma PlainPart(sb: Super, p: Point, t: Task) returns (plain: set<nat>)
    requires Mine(sb, p, t)
    ensures Inodes(p.ino) && Inodes(t.from.ino) && t.job.i < |p.ino| == |t.from.ino| && |plain| <= 5
    ensures Touched(t.log) <= plain + MapOf(sb, Allocated(p, t)) + if t.at.Ended? then {InodeBlock(sb, t.job.i)} else {}
  {
    hide Wf, Slot, Touched, MapOf, EndBlock, Slotted, Filled, Holding, SoonIn, Soon, HoldsSlot, Gained, Through, DataIn;
    var off, n := t.job.off, |t.job.src|;
    var lo, hi := off / BSIZE, EndBlock(off, n);
    HoldsIn(sb, p, t);
    BlocksMet(off, n);
    Range(off, n);
    EndLater(off, Tot(t), n);
    PlainLog(p, t, lo, hi);
    plain := SoonIn(p, t, lo, hi) + {Soon(p, t, INDIRECT)};
    SoonSize(p, t, lo, hi);
    UnionSize(SoonIn(p, t, lo, hi), {Soon(p, t, INDIRECT)});
    MapOfBoth(sb, Gained(t.from.blocks, t.from.ino, p.blocks, p.ino, t.job.i), Pending(t.at));
  }

  /** And in the free map: at most four blocks. */
  lemma MapPart(sb: Super, p: Point, t: Task)
    requires Wf(sb, p.blocks, p.ino, p.owner) && Mine(sb, p, t)
    ensures Inodes(p.ino) && Inodes(t.from.ino) && t.job.i < |p.ino| == |t.from.ino|
    ensures var maps := MapOf(sb, Allocated(p, t)); maps <= MapBlocks(sb) && |maps| <= Least(4, NMap(sb))
  {
    hide Wf, Slot, Touched, MapOf, MapBlocks, NMap, EndBlock, Slotted, Filled, Holding, HoldsSlot, Gained, LogOf;
    var off, n := t.job.off, |t.job.src|;
    var lo, hi := off / BSIZE, EndBlock(off, n);
    HoldsIn(sb, p, t);
    BlocksMet(off, n);
    Range(off, n);
    EndLater(off, n, n);
    StillThere(sb, t, lo, if off % BSIZE == 0 then lo else lo + 1);
    FreshLog(sb, p, t, if off % BSIZE == 0 || n == 0 then lo else lo + 1, hi);
    MapOfSize(sb, Allocated(p, t));
    MapSize(sb);
    SubsetSize(MapOf(sb, Allocated(p, t)), MapBlocks(sb));
  }

  lemma EndLater(off: nat, tot: nat, n: nat)
    requires tot <= n
    ensures EndBlock(off, tot) <= EndBlock(off, n) && (n > 0 ==> off / BSIZE < EndBlock(off, n))
  {
  }
}
