/**
The on-disk file system of fs.c seen as a value: a free map with one bit per block, and inodes
whose direct and indirect slots point at blocks. `Wf` says that every slot owns its block alone,
that owned blocks are marked in use, and that a file has no holes below its size.
*/
module FsSpec {
  import opened Param
  import opened Blocks

  const NDIRECT := 12
  const NINDIRECT := 128
  const MAXFILE := 140            // NDIRECT + NINDIRECT
  const INDIRECT := MAXFILE       // slot number of the indirect block itself
  const BPB := 4096               // bits per free-map block
  const IPB := 8                  // inodes per block

  datatype Super = Super(size: nat, inodestart: nat, bmapstart: nat, datastart: nat)

  /** addrs has NDIRECT block numbers and the number of the indirect block; 0 is no block. */
  datatype Inode = Inode(size: nat, addrs: seq<nat>)

  type Owners = map<nat, (nat, nat)>

  /** Inode blocks, free map and data follow one another on the disk. */
  predicate Layout(sb: Super, nblocks: nat)
  {
    0 < sb.datastart <= sb.size <= nblocks <= UINT_MOD && sb.inodestart <= sb.bmapstart
    && sb.bmapstart + (sb.size - 1) / BPB < sb.datastart
  }

  /** The inodes fit in their blocks. */
  predicate Room(sb: Super, ninodes: nat)
  {
    sb.inodestart <= sb.bmapstart && ninodes <= (sb.bmapstart - sb.inodestart) * IPB
  }

  /** BBLOCK: the free-map block that holds the bit of block b. */
  function BitmapBlock(sb: Super, b: nat): (r: nat) { b / BPB + sb.bmapstart }

  lemma BitmapBlockIsMeta(sb: Super, nblocks: nat, b: nat)
    requires Layout(sb, nblocks) && b < sb.size
    ensures BitmapBlock(sb, b) < sb.datastart
  {
  }

  ghost predicate Used(sb: Super, blocks: seq<Block>, b: nat)
    requires Layout(sb, |blocks|)
  {
    b < sb.size && BitmapBlock(sb, b) < |blocks| && Bit(blocks[BitmapBlock(sb, b)], b % BPB)
  }

  ghost function Marked(sb: Super, blocks: seq<Block>, b: nat, v: bool): (r: seq<Block>)
    requires Layout(sb, |blocks|) && b < sb.size
    ensures |r| == |blocks|
  {
    BitmapBlockIsMeta(sb, |blocks|, b);
    blocks[BitmapBlock(sb, b) := PutBlockBit(blocks[BitmapBlock(sb, b)], b % BPB, v)]
  }

  lemma MarkedAt(sb: Super, blocks: seq<Block>, b: nat, v: bool, c: nat)
    requires Layout(sb, |blocks|) && b < sb.size && c < sb.size
    ensures Used(sb, Marked(sb, blocks, b, v), c) == if c == b then v else Used(sb, blocks, c)
  {
    BitmapBlockIsMeta(sb, |blocks|, b);
    BitmapBlockIsMeta(sb, |blocks|, c);
    if c != b && BitmapBlock(sb, c) == BitmapBlock(sb, b) {
      assert c % BPB != b % BPB;
    }
  }

  /** The block number in slot s of inode i: direct, through the indirect block, or the indirect block itself. */
  function Slot(blocks: seq<Block>, ino: seq<Inode>, i: nat, s: nat): (b: nat)
    requires i < |ino| && |ino[i].addrs| == NDIRECT + 1 && s <= INDIRECT
  {
    var a := ino[i].addrs;
    if s < NDIRECT then a[s]
    else if s == INDIRECT then a[NDIRECT]
    else if a[NDIRECT] == 0 || a[NDIRECT] >= |blocks| then 0
    else Word(blocks[a[NDIRECT]], s - NDIRECT)
  }

  ghost predicate Inodes(ino: seq<Inode>)
  {
    forall i :: 0 <= i < |ino| ==> |ino[i].addrs| == NDIRECT + 1 && ino[i].size <= MAXFILE * BSIZE
  }

  ghost predicate Owned(sb: Super, blocks: seq<Block>, ino: seq<Inode>, owner: Owners)
    requires Inodes(ino)
  {
    && (forall i, s {:trigger Slot(blocks, ino, i, s)} ::
          0 <= i < |ino| && 0 <= s <= INDIRECT && Slot(blocks, ino, i, s) != 0 ==>
          Slot(blocks, ino, i, s) in owner && owner[Slot(blocks, ino, i, s)] == (i, s))
    && (forall b :: b in owner ==>
          && sb.datastart <= b < sb.size
          && owner[b].0 < |ino| && owner[b].1 <= INDIRECT && Slot(blocks, ino, owner[b].0, owner[b].1) == b)
  }

  ghost predicate InUse(sb: Super, blocks: seq<Block>, owner: Owners)
    requires Layout(sb, |blocks|)
  {
    && (forall b :: 0 <= b < sb.datastart ==> Used(sb, blocks, b))
    && (forall b :: b in owner ==> Used(sb, blocks, b))
  }

  ghost predicate NoHoles(blocks: seq<Block>, ino: seq<Inode>)
    requires Inodes(ino)
  {
    forall i, bn {:trigger Slot(blocks, ino, i, bn)} ::
      0 <= i < |ino| && 0 <= bn < MAXFILE && bn * BSIZE < ino[i].size ==>
      Slot(blocks, ino, i, bn) != 0
  }

  ghost predicate Wf(sb: Super, blocks: seq<Block>, ino: seq<Inode>, owner: Owners)
  {
    && Layout(sb, |blocks|) && Room(sb, |ino|) && Inodes(ino)
    && Owned(sb, blocks, ino, owner) && InUse(sb, blocks, owner) && NoHoles(blocks, ino)
  }

  /** Block bn of file i as bytes; a block not allocated reads as zeros. */
  ghost function FileBlock(blocks: seq<Block>, ino: seq<Inode>, i: nat, bn: nat): (b: Block)
    requires i < |ino| && |ino[i].addrs| == NDIRECT + 1 && bn < MAXFILE
  {
    if Slot(blocks, ino, i, bn) != 0 && Slot(blocks, ino, i, bn) < |blocks| then blocks[Slot(blocks, ino, i, bn)]
    else ZeroBlock()
  }

  /** The file as the sequence of its bytes. */
  ghost function Contents(blocks: seq<Block>, ino: seq<Inode>, i: nat): (c: seq<Byte>)
    requires i < |ino| && |ino[i].addrs| == NDIRECT + 1 && ino[i].size <= MAXFILE * BSIZE
    ensures |c| == ino[i].size
  {
    seq(ino[i].size, k requires 0 <= k < ino[i].size => FileBlock(blocks, ino, i, k / BSIZE).bytes[k % BSIZE])
  }

  /** Nothing that can be read of any file differs. */
  ghost predicate SameFiles(blocks: seq<Block>, ino: seq<Inode>, blocks': seq<Block>, ino': seq<Inode>)
    requires Inodes(ino) && Inodes(ino')
  {
    && |ino| == |ino'|
    && (forall i :: 0 <= i < |ino| ==> ino[i].size == ino'[i].size)
    && (forall i, bn {:trigger FileBlock(blocks', ino', i, bn)} :: 0 <= i < |ino| && 0 <= bn < MAXFILE ==>
          FileBlock(blocks', ino', i, bn) == FileBlock(blocks, ino, i, bn))
  }

  /* ---------------- the inodes on the disk ---------------- */

  /** IBLOCK: the block that holds inode i. */
  function InodeBlock(sb: Super, i: nat): (b: nat) { i / IPB + sb.inodestart }

  lemma InodeBlockIsMeta(sb: Super, ninodes: nat, i: nat)
    requires Room(sb, ninodes) && i < ninodes
    ensures sb.inodestart <= InodeBlock(sb, i) < sb.bmapstart
  {
  }

  const DWORDS := 16 // words of a struct dinode: type and major, minor and nlink, size, addrs

  /** Inode k of an inode block. */
  function InodeIn(b: Block, k: nat): (n: Inode)
    requires k < IPB
    ensures |n.addrs| == NDIRECT + 1
  {
    Inode(Word(b, DWORDS * k + 2), AddrsIn(b, k))
  }

  function AddrsIn(b: Block, k: nat): (a: seq<nat>)
    requires k < IPB
    ensures |a| == NDIRECT + 1 && forall t :: 0 <= t < |a| ==> a[t] == AddrIn(b, k, t)
  {
    seq(NDIRECT + 1, t requires 0 <= t < NDIRECT + 1 => AddrIn(b, k, t))
  }

  function AddrIn(b: Block, k: nat, t: nat): (a: nat)
    requires k < IPB && t <= NDIRECT
  {
    Word(b, DWORDS * k + 3 + t)
  }

  /** The first m block numbers of inode k. */
  function PutAddrs(b: Block, k: nat, addrs: seq<nat>, m: nat): (r: Block)
    requires k < IPB && m <= NDIRECT + 1 == |addrs| && forall t :: 0 <= t < |addrs| ==> addrs[t] < UINT_MOD
  {
    if m == 0 then b else PutWord(PutAddrs(b, k, addrs, m - 1), DWORDS * k + 3 + (m - 1), addrs[m - 1])
  }

  function PutInode(b: Block, k: nat, n: Inode): (r: Block)
    requires k < IPB && |n.addrs| == NDIRECT + 1 && n.size < UINT_MOD
    requires forall t :: 0 <= t < |n.addrs| ==> n.addrs[t] < UINT_MOD
  {
    PutAddrs(PutWord(b, DWORDS * k + 2, n.size), k, n.addrs, NDIRECT + 1)
  }

  lemma {:induction false} PutAddrsAt(b: Block, k: nat, addrs: seq<nat>, m: nat, w: nat)
    requires k < IPB && m <= NDIRECT + 1 == |addrs| && (forall t :: 0 <= t < |addrs| ==> addrs[t] < UINT_MOD)
    requires w < WORDS
    ensures var t := w - DWORDS * k - 3;
            Word(PutAddrs(b, k, addrs, m), w) == if 0 <= t < m then addrs[t] else Word(b, w)
  {
    hide Word, PutWord;
    if m != 0 { PutAddrsAt(b, k, addrs, m - 1, w); }
  }

  /** An inode written to its block reads back, and the other seven and its own type and link count stay. */
  lemma InodeRoundTrip(b: Block, k: nat, n: Inode)
    requires k < IPB && |n.addrs| == NDIRECT + 1 && n.size < UINT_MOD
    requires forall t :: 0 <= t < |n.addrs| ==> n.addrs[t] < UINT_MOD
    ensures InodeIn(PutInode(b, k, n), k) == n
    ensures forall j :: 0 <= j < IPB && j != k ==> InodeIn(PutInode(b, k, n), j) == InodeIn(b, j)
    ensures Word(PutInode(b, k, n), DWORDS * k) == Word(b, DWORDS * k)
    ensures Word(PutInode(b, k, n), DWORDS * k + 1) == Word(b, DWORDS * k + 1)
  {
    hide Word, PutWord, PutAddrs;
    var c := PutWord(b, DWORDS * k + 2, n.size);
    forall w: nat | w < WORDS ensures Word(PutInode(b, k, n), w) ==
      if w == DWORDS * k + 2 then n.size else if 0 <= w - DWORDS * k - 3 < NDIRECT + 1 then n.addrs[w - DWORDS * k - 3]
      else Word(b, w)
    {
      PutAddrsAt(c, k, n.addrs, NDIRECT + 1, w);
    }
    assert InodeIn(PutInode(b, k, n), k).addrs == n.addrs;
    forall j | 0 <= j < IPB && j != k ensures InodeIn(PutInode(b, k, n), j) == InodeIn(b, j) {
      assert InodeIn(PutInode(b, k, n), j).addrs == InodeIn(b, j).addrs;
    }
  }

  /** Inode i as the disk has it. */
  function DiskInode(sb: Super, blocks: seq<Block>, i: nat): (n: Inode)
    requires InodeBlock(sb, i) < |blocks|
    ensures |n.addrs| == NDIRECT + 1
  {
    InodeIn(blocks[InodeBlock(sb, i)], i % IPB)
  }

  /** Nothing before the free map differs: the inode blocks, in particular. */
  ghost predicate SameMeta(sb: Super, blocks: seq<Block>, blocks': seq<Block>)
  {
    |blocks'| == |blocks| && forall b :: 0 <= b < sb.bmapstart && b < |blocks| ==> blocks'[b] == blocks[b]
  }

  /** The disk has every inode as memory has it. */
  ghost predicate Synced(sb: Super, blocks: seq<Block>, ino: seq<Inode>)
  {
    Room(sb, |ino|) && sb.bmapstart <= |blocks|
    && forall i: nat :: i < |ino| ==> InodeBlock(sb, i) < |blocks| && DiskInode(sb, blocks, i) == ino[i]
  }

  /* ---------------- the writes of a transaction ---------------- */

  /** A block as log_write was given it. */
  datatype Write = Write(block: nat, data: Block)

  ghost function Apply(blocks: seq<Block>, writes: seq<Write>): (r: seq<Block>)
    ensures |r| == |blocks|
  {
    if writes == [] then blocks
    else
      var w, p := writes[|writes| - 1], Apply(blocks, writes[..|writes| - 1]);
      if w.block < |p| then p[w.block := w.data] else p
  }

  ghost function Touched(writes: seq<Write>): (r: set<nat>)
  {
    set w | w in writes :: w.block
  }

  /** The blocks are those of base with the writes made since, all outside the log, and logged lists their blocks. */
  ghost predicate Traced(sb: Super, base: seq<Block>, writes: seq<Write>, blocks: seq<Block>, logged: set<nat>)
  {
    && |base| == |blocks| && blocks == Apply(base, writes) && logged == Touched(writes)
    && forall w :: w in writes ==> sb.inodestart <= w.block < |base|
  }

  lemma OneMoreWrite(sb: Super, base: seq<Block>, writes: seq<Write>, blocks: seq<Block>, logged: set<nat>, b: nat,
                     data: Block)
    requires Traced(sb, base, writes, blocks, logged) && sb.inodestart <= b < |blocks|
    ensures Traced(sb, base, writes + [Write(b, data)], blocks[b := data], logged + {b})
  {
    hide Apply, Touched;
    ApplyMore(base, writes, Write(b, data));
    TouchedMore(writes, Write(b, data));
  }

  lemma ApplyMore(base: seq<Block>, writes: seq<Write>, w: Write)
    requires w.block < |base|
    ensures Apply(base, writes + [w]) == Apply(base, writes)[w.block := w.data]
  {
    assert (writes + [w])[..|writes|] == writes;
  }

  lemma TouchedMore(writes: seq<Write>, w: Write)
    ensures Touched(writes + [w]) == Touched(writes) + {w.block}
  {
    assert forall x :: x in writes + [w] <==> x in writes || x == w;
    assert w in writes + [w];
  }

  /* ---------------- elementary changes ---------------- */

  /** A block that no file owns, and whose bit is set: what balloc returns. */
  ghost predicate Fresh(sb: Super, blocks: seq<Block>, owner: Owners, b: nat)
    requires Layout(sb, |blocks|)
  {
    sb.datastart <= b < sb.size && b !in owner && Used(sb, blocks, b) && blocks[b] == ZeroBlock()
  }

  /** Taking a block out of the free map. */
  lemma AllocKeepsFiles(sb: Super, blocks: seq<Block>, ino: seq<Inode>, owner: Owners, b: nat)
    requires Wf(sb, blocks, ino, owner) && b < sb.size && !Used(sb, blocks, b)
    ensures var r := Marked(sb, blocks, b, true)[b := ZeroBlock()];
            Wf(sb, r, ino, owner) && Fresh(sb, r, owner, b) && SameFiles(blocks, ino, r, ino)
            && (forall i, s {:trigger Slot(r, ino, i, s)} :: 0 <= i < |ino| && 0 <= s <= INDIRECT ==>
                  Slot(r, ino, i, s) == Slot(blocks, ino, i, s))
  {
    var m := Marked(sb, blocks, b, true);
    var r := m[b := ZeroBlock()];
    assert b !in owner && b >= sb.datastart;
    BitmapBlockIsMeta(sb, |blocks|, b);
    forall c: nat | c < sb.size ensures Used(sb, r, c) == (c == b || Used(sb, blocks, c)) {
      MarkedAt(sb, blocks, b, true, c);
      BitmapBlockIsMeta(sb, |blocks|, c);
    }
    OwnedUntouched(sb, blocks, ino, owner, r);
  }

  /** If every owned block keeps its contents, so do all slots and files. */
  lemma OwnedUntouched(sb: Super, blocks: seq<Block>, ino: seq<Inode>, owner: Owners, r: seq<Block>)
    requires Layout(sb, |blocks|) && Inodes(ino) && Owned(sb, blocks, ino, owner) && |r| == |blocks|
    requires forall b :: b in owner ==> r[b] == blocks[b]
    ensures forall i, s {:trigger Slot(r, ino, i, s)} :: 0 <= i < |ino| && 0 <= s <= INDIRECT ==>
              Slot(r, ino, i, s) == Slot(blocks, ino, i, s)
    ensures Owned(sb, r, ino, owner) && SameFiles(blocks, ino, r, ino)
  {
    forall i, s {:trigger Slot(r, ino, i, s)} | 0 <= i < |ino| && 0 <= s <= INDIRECT
      ensures Slot(r, ino, i, s) == Slot(blocks, ino, i, s)
    {
      assert Slot(blocks, ino, i, INDIRECT) == ino[i].addrs[NDIRECT];
    }
  }

  /** Slot s of inode i now holds the fresh block b, and nothing else about any slot, size or block changed
      that can be seen through the files. */
  ghost predicate Attached(sb: Super, blocks: seq<Block>, ino: seq<Inode>, owner: Owners, i: nat, s: nat, b: nat,
                           blocks': seq<Block>, ino': seq<Inode>)
    requires Layout(sb, |blocks|) && Inodes(ino)
  {
    && i < |ino| && s <= INDIRECT && Slot(blocks, ino, i, s) == 0 && Fresh(sb, blocks, owner, b)
    && |blocks'| == |blocks| && Inodes(ino') && |ino'| == |ino|
    && (forall j :: 0 <= j < |ino| ==> ino'[j].size == ino[j].size)
    && (forall j, t {:trigger Slot(blocks', ino', j, t)} :: 0 <= j < |ino| && 0 <= t <= INDIRECT ==>
          Slot(blocks', ino', j, t) == if j == i && t == s then b else Slot(blocks, ino, j, t))
    && (forall c {:trigger blocks'[c]} :: 0 <= c < |blocks| ==>
          blocks'[c] == blocks[c] || (c in owner && owner[c].1 == INDIRECT))
  }

  lemma AttachKeepsFiles(sb: Super, blocks: seq<Block>, ino: seq<Inode>, owner: Owners, i: nat, s: nat, b: nat,
                         blocks': seq<Block>, ino': seq<Inode>)
    requires Wf(sb, blocks, ino, owner) && Attached(sb, blocks, ino, owner, i, s, b, blocks', ino')
    ensures Wf(sb, blocks', ino', owner[b := (i, s)]) && SameFiles(blocks, ino, blocks', ino')
  {
    var owner' := owner[b := (i, s)];
    forall c: nat | c < sb.size ensures Used(sb, blocks', c) == Used(sb, blocks, c) {
      BitmapBlockIsMeta(sb, |blocks|, c);
      assert blocks'[BitmapBlock(sb, c)] == blocks[BitmapBlock(sb, c)];
    }
    forall j, bn {:trigger FileBlock(blocks', ino', j, bn)} | 0 <= j < |ino| && 0 <= bn < MAXFILE
      ensures FileBlock(blocks', ino', j, bn) == FileBlock(blocks, ino, j, bn)
    {
      AttachKeepsBlock(sb, blocks, ino, owner, i, s, b, blocks', ino', j, bn);
    }
  }

  lemma AttachKeepsBlock(sb: Super, blocks: seq<Block>, ino: seq<Inode>, owner: Owners, i: nat, s: nat, b: nat,
                         blocks': seq<Block>, ino': seq<Inode>, j: nat, bn: nat)
    requires Wf(sb, blocks, ino, owner) && Attached(sb, blocks, ino, owner, i, s, b, blocks', ino')
    requires j < |ino| && bn < MAXFILE
    ensures FileBlock(blocks', ino', j, bn) == FileBlock(blocks, ino, j, bn)
  {
    hide InUse, NoHoles;
    var a := Slot(blocks', ino', j, bn);
    if j == i && bn == s {
      assert a == b && blocks'[b] == blocks[b];
    } else if a != 0 {
      assert a == Slot(blocks, ino, j, bn) && owner[a] == (j, bn);
      assert blocks'[a] == blocks[a];
    }
  }

  lemma SetDirect(sb: Super, blocks: seq<Block>, ino: seq<Inode>, owner: Owners, i: nat, s: nat, b: nat)
    requires Wf(sb, blocks, ino, owner) && Fresh(sb, blocks, owner, b)
    requires i < |ino| && s < NDIRECT && ino[i].addrs[s] == 0
    ensures Attached(sb, blocks, ino, owner, i, s, b, blocks, ino[i := ino[i].(addrs := ino[i].addrs[s := b])])
  {
    assert Slot(blocks, ino, i, s) == 0;
  }

  lemma SetIndirect(sb: Super, blocks: seq<Block>, ino: seq<Inode>, owner: Owners, i: nat, b: nat)
    requires Wf(sb, blocks, ino, owner) && Fresh(sb, blocks, owner, b)
    requires i < |ino| && ino[i].addrs[NDIRECT] == 0
    ensures Attached(sb, blocks, ino, owner, i, INDIRECT, b, blocks,
                     ino[i := ino[i].(addrs := ino[i].addrs[NDIRECT := b])])
  {
    assert Slot(blocks, ino, i, INDIRECT) == 0;
    assert forall k {:trigger Word(ZeroBlock(), k)} :: 0 <= k < WORDS ==> Word(ZeroBlock(), k) == 0;
  }

  lemma SetWord(sb: Super, blocks: seq<Block>, ino: seq<Inode>, owner: Owners, i: nat, s: nat, b: nat)
    requires Wf(sb, blocks, ino, owner) && Fresh(sb, blocks, owner, b)
    requires i < |ino| && NDIRECT <= s < MAXFILE && ino[i].addrs[NDIRECT] != 0 && Slot(blocks, ino, i, s) == 0
    ensures var a := ino[i].addrs[NDIRECT];
            a < |blocks|
            && Attached(sb, blocks, ino, owner, i, s, b, blocks[a := PutWord(blocks[a], s - NDIRECT, b)], ino)
  {
    var a := ino[i].addrs[NDIRECT];
    assert Slot(blocks, ino, i, INDIRECT) == a;
    var r := blocks[a := PutWord(blocks[a], s - NDIRECT, b)];
    forall j, t {:trigger Slot(r, ino, j, t)} | 0 <= j < |ino| && 0 <= t <= INDIRECT
      ensures Slot(r, ino, j, t) == if j == i && t == s then b else Slot(blocks, ino, j, t)
    {
      assert Slot(blocks, ino, j, INDIRECT) == ino[j].addrs[NDIRECT];
    }
  }

  /** Overwriting a data block: that block of that file changes, and nothing else. */
  lemma WriteData(sb: Super, blocks: seq<Block>, ino: seq<Inode>, owner: Owners, i: nat, bn: nat, data: Block)
    requires Wf(sb, blocks, ino, owner) && i < |ino| && bn < MAXFILE && Slot(blocks, ino, i, bn) != 0
    ensures var a := Slot(blocks, ino, i, bn);
            && a < |blocks| && Wf(sb, blocks[a := data], ino, owner)
            && (forall j, t {:trigger Slot(blocks[a := data], ino, j, t)} :: 0 <= j < |ino| && 0 <= t <= INDIRECT ==>
                  Slot(blocks[a := data], ino, j, t) == Slot(blocks, ino, j, t))
            && (forall j, t {:trigger FileBlock(blocks[a := data], ino, j, t)} :: 0 <= j < |ino| && 0 <= t < MAXFILE ==>
                  FileBlock(blocks[a := data], ino, j, t) == if j == i && t == bn then data
                                                             else FileBlock(blocks, ino, j, t))
  {
    var a := Slot(blocks, ino, i, bn);
    assert owner[a] == (i, bn);
    var r := blocks[a := data];
    forall j, t {:trigger Slot(r, ino, j, t)} | 0 <= j < |ino| && 0 <= t <= INDIRECT
      ensures Slot(r, ino, j, t) == Slot(blocks, ino, j, t)
    {
      assert Slot(blocks, ino, j, INDIRECT) == ino[j].addrs[NDIRECT];
    }
    forall c: nat | c < sb.size ensures Used(sb, r, c) == Used(sb, blocks, c) {
      BitmapBlockIsMeta(sb, |blocks|, c);
    }
    forall j, t {:trigger FileBlock(r, ino, j, t)} | 0 <= j < |ino| && 0 <= t < MAXFILE
      ensures FileBlock(r, ino, j, t) == if j == i && t == bn then data else FileBlock(blocks, ino, j, t)
    {
      assert Slot(r, ino, j, t) == Slot(blocks, ino, j, t);
    }
  }
}
