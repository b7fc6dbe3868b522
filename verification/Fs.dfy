/**
Block allocation and inode contents (fs.c), and the chunking of filewrite (file.c). `blocks` is what
bread shows of every block, through the buffer cache and the log; `logged` is what the current
transaction has passed to log_write.
*/
module Fs {
  import opened Param
  import opened Blocks
  import opened FsSpec
  import opened FileSteps

  const CHUNK := 1536 // max in filewrite: ((MAXOPBLOCKS - 1 - 1 - 2) / 2) * 512

  /** No block is free. */
  ghost predicate Full(sb: Super, blocks: seq<Block>)
  {
    Layout(sb, |blocks|) && forall b :: 0 <= b < sb.size ==> Used(sb, blocks, b)
  }

  /** What balloc logs when it takes block b. */
  ghost function TakeWrites(sb: Super, blocks: seq<Block>, b: nat): (ws: seq<Write>)
    requires Layout(sb, |blocks|) && b < sb.size
  {
    BitmapBlockIsMeta(sb, |blocks|, b);
    var k := BitmapBlock(sb, b);
    [Write(k, PutBlockBit(blocks[k], b % BPB, true)), Write(b, ZeroBlock())]
  }

  class FileSystem {
    const sb: Super
    var blocks: seq<Block>
    var ino: seq<Inode> // inodes in memory
    ghost var owner: Owners
    ghost var logged: set<nat>
    ghost var base: seq<Block>    // the blocks when the current transaction began
    var writes: seq<Write>        // what it has passed to log_write since

    ghost predicate Valid()
      reads this
    {
      Wf(sb, blocks, ino, owner) && Logs()
    }

    ghost predicate Logs()
      reads this
    {
      Traced(sb, base, writes, blocks, logged)
    }

    constructor (sb0: Super, blocks0: seq<Block>, ino0: seq<Inode>, ghost owner0: Owners)
      requires Wf(sb0, blocks0, ino0, owner0)
      ensures Valid() && sb == sb0 && blocks == base == blocks0 && ino == ino0 && owner == owner0 && logged == {}
      ensures writes == []
    {
      sb, blocks, ino, owner, logged, base, writes := sb0, blocks0, ino0, owner0, {}, blocks0, [];
    }

    ghost function Here(): (p: Point)
      reads this
    {
      Point(blocks, ino, owner)
    }

    /** A write that is not done yet has come to a block of file i. */
    ghost predicate Seeks(job: Job, tot: nat, i: nat)
      reads this
    {
      job.i == i < |ino| && tot < |job.src| && (job.off + tot) / BSIZE < MAXFILE && Inodes(ino)
    }

    /** A change to a buffer followed by log_write. */
    method LogBlock(b: nat, data: Block)
      requires Logs() && sb.inodestart <= b < |blocks|
      modifies this`blocks, this`logged, this`writes
      ensures Logs() && blocks == old(blocks)[b := data] && logged == old(logged) + {b}
      ensures writes == old(writes) + [Write(b, data)]
    {
      OneMoreWrite(sb, base, writes, blocks, logged, b, data);
      blocks := blocks[b := data];
      logged := logged + {b};
      writes := writes + [Write(b, data)];
    }

    /** A free block is marked in use and zeroed. */
    method Take(b: nat)
      requires Valid() && b < sb.size && !Used(sb, blocks, b)
      modifies this`blocks, this`logged, this`writes
      ensures Logs() && SameMeta(sb, old(blocks), blocks)
      ensures blocks == Marked(sb, old(blocks), b, true)[b := ZeroBlock()]
      ensures logged == old(logged) + {BitmapBlock(sb, b), b} && writes == old(writes) + TakeWrites(sb, old(blocks), b)
    {
      hide InUse, Owned, NoHoles, Traced;
      BitmapBlockIsMeta(sb, |blocks|, b);
      FreeIsData(sb, blocks, owner, b);
      LogBlock(b / BPB + sb.bmapstart, PutBlockBit(blocks[b / BPB + sb.bmapstart], b % BPB, true));
      LogBlock(b, ZeroBlock());
    }

    /** balloc: the lowest free block, marked and zeroed; None stands for the panic "out of blocks". */
    method Balloc() returns (r: Option<nat>)
      requires Valid()
      modifies this`blocks, this`logged, this`writes
      ensures Logs() && SameMeta(sb, old(blocks), blocks)
      ensures r.None? ==> blocks == old(blocks) && logged == old(logged) && writes == old(writes) && Full(sb, blocks)
      ensures r.Some? ==>
                && r.value < sb.size && !Used(sb, old(blocks), r.value) && Lowest(sb, old(blocks), r.value)
                && writes == old(writes) + TakeWrites(sb, old(blocks), r.value)
                && blocks == Marked(sb, old(blocks), r.value, true)[r.value := ZeroBlock()]
                && logged == old(logged) + {BitmapBlock(sb, r.value), r.value}
    {
      hide Owned, InUse, NoHoles, Traced, SameMeta, Marked;
      NoMeta(sb, blocks);
      var b := 0;
      while b < sb.size
        invariant b % BPB == 0
        invariant blocks == old(blocks) && logged == old(logged) && writes == old(writes)
        invariant forall c :: 0 <= c < b && c < sb.size ==> Used(sb, blocks, c)
        decreases sb.size - b
      {
        BitmapBlockIsMeta(sb, |blocks|, b);
        var bp := blocks[b / BPB + sb.bmapstart];
        var bi := 0;
        while bi < BPB && b + bi < sb.size
          invariant 0 <= bi <= BPB
          invariant blocks == old(blocks) && logged == old(logged) && writes == old(writes)
          invariant forall c :: 0 <= c < b + bi && c < sb.size ==> Used(sb, blocks, c)
          decreases BPB - bi
        {
          InSameBitmapBlock(sb, b, bi);
          if !TestBit(bp.bytes[bi / 8], bi % 8) {
            Take(b + bi);
            return Some(b + bi);
          }
          bi := bi + 1;
        }
        b := b + BPB;
      }
      r := None;
    }

    /** The number of a fresh block goes into the empty slot s of inode i. */
    method PutSlot(i: nat, s: nat, b: nat)
      requires Valid() && Fresh(sb, blocks, owner, b) && i < |ino| && s <= INDIRECT && Slot(blocks, ino, i, s) == 0
      requires NDIRECT <= s < MAXFILE ==> ino[i].addrs[NDIRECT] != 0
      modifies this`blocks, this`ino, this`logged, this`writes
      ensures Logs() && Attached(sb, old(blocks), old(ino), owner, i, s, b, blocks, ino)
      ensures SameMeta(sb, old(blocks), blocks) && |ino| == old(|ino|) && ino == old(ino)[i := ino[i]]
      ensures forall c :: 0 <= c < sb.datastart ==> blocks[c] == old(blocks)[c]
      ensures AttachedAt(old(Here()), i, s, b, blocks, ino, old(writes), writes)
      ensures logged == old(logged) + if NDIRECT <= s < MAXFILE then {ino[i].addrs[NDIRECT]} else {}
    {
      hide Owned, InUse, NoHoles, Used, Fresh, Traced, SameMeta, Attached;
      NoMeta(sb, blocks);
      if s < NDIRECT {
        SetDirect(sb, blocks, ino, owner, i, s, b);
        ino := ino[i := ino[i].(addrs := ino[i].addrs[s := b])];
      } else if s == INDIRECT {
        SetIndirect(sb, blocks, ino, owner, i, b);
        ino := ino[i := ino[i].(addrs := ino[i].addrs[NDIRECT := b])];
      } else {
        SetWord(sb, blocks, ino, owner, i, s, b);
        var a := ino[i].addrs[NDIRECT];
        DataBlock(sb, blocks, ino, owner, i, INDIRECT);
        MetaWrite(sb, blocks, blocks, a, PutWord(blocks[a], s - NDIRECT, b));
        LogBlock(a, PutWord(blocks[a], s - NDIRECT, b));
      }
    }

    /** The empty slot s of inode i gets a block: `*slot = addr = balloc(dev)` in its three places in bmap.
        A direct slot and the indirect block's number live in the inode, the others in the indirect block,
        which is then logged. */
    method FillSlot(i: nat, s: nat, ghost job: Job, ghost tot: nat) returns (r: Option<nat>)
      requires Valid() && Seeks(job, tot, i) && Missing(Here(), i, (job.off + tot) / BSIZE) == Some(s)
      modifies this`blocks, this`ino, this`owner, this`logged, this`writes
      ensures Valid() && |blocks| == old(|blocks|) && |ino| == old(|ino|) && SameMeta(sb, old(blocks), blocks)
      ensures SameFiles(old(blocks), old(ino), blocks, ino) && MapGrows(sb, old(blocks), old(ino), blocks, ino, i)
      ensures r.None? ==> blocks == old(blocks) && ino == old(ino) && owner == old(owner) && logged == old(logged)
                          && Full(sb, blocks)
      ensures r.Some? ==>
                && 0 < r.value < sb.size && owner == old(owner)[r.value := (i, s)]
                && ino == old(ino)[i := ino[i]] && ino[i].size == old(ino)[i].size
                && (forall j, t {:trigger Slot(blocks, ino, j, t)} :: 0 <= j < |ino| && 0 <= t <= INDIRECT ==>
                      Slot(blocks, ino, j, t) == if j == i && t == s then r.value
                                                 else Slot(old(blocks), old(ino), j, t))
                && logged == old(logged) + {r.value} + AllocLog(sb, old(blocks), old(ino), blocks, ino, i)
                && GainsAt(old(blocks), old(ino), blocks, ino, i, s, s + 1)
      ensures Moves(sb, job, old(Here()), Loop(tot), old(writes), Here(), Loop(tot), writes)
    {
      hide Owned, InUse, NoHoles, Used, Marked, Fresh, Full, Traced, SameMeta, MapGrows, AllocLog, GainsAt, Moves,
           Lowest, AttachedAt, TakeWrites;
      ghost var p, ws := Here(), writes;
      MovesNot(sb, job, p, Loop(tot), ws);
      r := Balloc();
      FilesAreFiles(sb, old(blocks), ino, owner);
      GainNone(sb, old(blocks), ino, i);
      if r.Some? {
        var b := r.value;
        AllocKeepsFiles(sb, old(blocks), ino, owner, b);
        ghost var blocks0, ino0 := blocks, ino;
        PutSlot(i, s, b);
        SameMetaTrans(sb, old(blocks), blocks0, blocks);
        AttachKeepsFiles(sb, blocks0, ino0, owner, i, s, b, blocks, ino);
        SameFilesTrans(old(blocks), ino0, blocks0, ino0, blocks, ino);
        FreeIsData(sb, old(blocks), owner, b);
        TakenIsMarked(sb, old(blocks), blocks0, blocks, b);
        GainOne(sb, old(blocks), ino0, blocks, ino, i, s, b);
        assert Slot(blocks, ino, i, INDIRECT) == ino[i].addrs[NDIRECT];
        owner := owner[b := (i, s)];
        FillMoves(sb, job, tot, s, b, p, blocks0, Here(), ws, writes);
      }
    }

    /** The part of bmap that finds or allocates the indirect block. */
    method EnsureIndirect(i: nat, ghost job: Job, ghost tot: nat) returns (r: Option<nat>)
      requires Valid() && Seeks(job, tot, i) && (job.off + tot) / BSIZE >= NDIRECT
      modifies this`blocks, this`ino, this`owner, this`logged, this`writes
      ensures Valid() && |blocks| == old(|blocks|) && |ino| == old(|ino|) && SameMeta(sb, old(blocks), blocks)
      ensures SameFiles(old(blocks), old(ino), blocks, ino) && ino == old(ino)[i := ino[i]]
      ensures SlotsGrow(old(blocks), old(ino), blocks, ino) && MapGrows(sb, old(blocks), old(ino), blocks, ino, i)
      ensures GainsAt(old(blocks), old(ino), blocks, ino, i, INDIRECT, INDIRECT)
      ensures r.None? ==> blocks == old(blocks) && ino == old(ino) && owner == old(owner) && logged == old(logged)
                          && Full(sb, blocks)
      ensures r.None? ==> ino[i].addrs[NDIRECT] == 0
      ensures r.Some? ==>
                && r.value == ino[i].addrs[NDIRECT] != 0
                && (forall t :: 0 <= t < MAXFILE ==> Slot(blocks, ino, i, t) == Slot(old(blocks), old(ino), i, t))
                && logged == old(logged) + AllocLog(sb, old(blocks), old(ino), blocks, ino, i)
                && (old(ino)[i].addrs[NDIRECT] != 0 ==>
                      blocks == old(blocks) && ino == old(ino) && owner == old(owner) && logged == old(logged))
      ensures Moves(sb, job, old(Here()), Loop(tot), old(writes), Here(), Loop(tot), writes)
    {
      hide Wf, Owned, InUse, NoHoles, Full, Traced, SameMeta, MapBlocks, Layout, MapGrows, AllocLog, GainsAt, Moves;
      MovesNot(sb, job, Here(), Loop(tot), writes);
      WfInodes(sb, blocks, ino, owner);
      FilesAreFiles(sb, blocks, ino, owner);
      GainNone(sb, blocks, ino, i);
      if ino[i].addrs[NDIRECT] != 0 { return Some(ino[i].addrs[NDIRECT]); }
      assert Slot(blocks, ino, i, INDIRECT) == 0;
      r := FillSlot(i, INDIRECT, job, tot);
      WfInodes(sb, blocks, ino, owner);
      assert Slot(blocks, ino, i, INDIRECT) == ino[i].addrs[NDIRECT];
      if r.Some? { GainsIndirect(sb, old(blocks), old(ino), blocks, ino, i); }
    }

    /** The part of bmap that looks in the indirect block. */
    method BmapIndirect(i: nat, bn: nat, ghost job: Job, ghost tot: nat) returns (r: Option<nat>)
      requires Valid() && Seeks(job, tot, i) && NDIRECT <= bn == (job.off + tot) / BSIZE && ino[i].addrs[NDIRECT] != 0
      modifies this`blocks, this`ino, this`owner, this`logged, this`writes
      ensures Valid() && |blocks| == old(|blocks|) && |ino| == old(|ino|) && SameMeta(sb, old(blocks), blocks)
      ensures SameFiles(old(blocks), old(ino), blocks, ino) && ino == old(ino)[i := ino[i]]
      ensures SlotsGrow(old(blocks), old(ino), blocks, ino) && MapGrows(sb, old(blocks), old(ino), blocks, ino, i)
      ensures GainsAt(old(blocks), old(ino), blocks, ino, i, bn, bn + 1)
      ensures r.Some? ==> r.value == Slot(blocks, ino, i, bn) != 0
      ensures r.None? ==> Full(sb, blocks) && Slot(blocks, ino, i, bn) == 0
      ensures Slot(old(blocks), old(ino), i, bn) != 0 ==>
                r.Some? && blocks == old(blocks) && ino == old(ino) && owner == old(owner) && logged == old(logged)
      ensures r.Some? ==>
                logged == old(logged) + AllocLog(sb, old(blocks), old(ino), blocks, ino, i)
                          + if Slot(old(blocks), old(ino), i, bn) == 0 then {r.value} else {}
      ensures Moves(sb, job, old(Here()), Loop(tot), old(writes), Here(), Loop(tot), writes)
    {
      hide Wf, Owned, InUse, NoHoles, Full, Traced, SameMeta, Layout, MapGrows, AllocLog, GainsAt, Moves;
      MovesNot(sb, job, Here(), Loop(tot), writes);
      WfInodes(sb, blocks, ino, owner);
      FilesAreFiles(sb, blocks, ino, owner);
      GainNone(sb, blocks, ino, i);
      var addr := Word(blocks[ino[i].addrs[NDIRECT]], bn - NDIRECT);
      if addr != 0 { return Some(addr); }
      r := FillSlot(i, bn, job, tot);
      WfInodes(sb, blocks, ino, owner);
    }

    /** bmap: the block of file i that holds file block bn, allocated if need be. None stands for its panics. */
    method Bmap(i: nat, bn: nat, ghost job: Job, ghost tot: nat) returns (r: Option<nat>)
      requires Valid() && i < |ino| && job.i == i && tot < |job.src| && (job.off + tot) / BSIZE == bn
      modifies this`blocks, this`ino, this`owner, this`logged, this`writes
      ensures Valid() && |blocks| == old(|blocks|) && |ino| == old(|ino|) && SameMeta(sb, old(blocks), blocks)
      ensures SameFiles(old(blocks), old(ino), blocks, ino) && ino == old(ino)[i := ino[i]]
      ensures SlotsGrow(old(blocks), old(ino), blocks, ino) && MapGrows(sb, old(blocks), old(ino), blocks, ino, i)
      ensures GainsAt(old(blocks), old(ino), blocks, ino, i, bn, bn + 1)
      ensures bn >= MAXFILE ==> r.None?
      ensures r.None? ==> bn >= MAXFILE || (Full(sb, blocks) && Slot(blocks, ino, i, bn) == 0)
      ensures r.Some? ==> bn < MAXFILE && r.value == Slot(blocks, ino, i, bn) != 0
      ensures bn < MAXFILE && Slot(old(blocks), old(ino), i, bn) != 0 ==>
                r.Some? && blocks == old(blocks) && ino == old(ino) && owner == old(owner) && logged == old(logged)
      ensures r.Some? ==>
                logged == old(logged) + AllocLog(sb, old(blocks), old(ino), blocks, ino, i)
                          + if Slot(old(blocks), old(ino), i, bn) == 0 then {r.value} else {}
      ensures Moves(sb, job, old(Here()), Loop(tot), old(writes), Here(), Loop(tot), writes)
    {
      hide Wf, Owned, InUse, NoHoles, Full, Traced, SameMeta, Layout, MapGrows, AllocLog, GainsAt, Moves;
      MovesNot(sb, job, Here(), Loop(tot), writes);
      WfInodes(sb, blocks, ino, owner);
      FilesAreFiles(sb, blocks, ino, owner);
      GainNone(sb, blocks, ino, i);
      if bn < NDIRECT {
        if ino[i].addrs[bn] != 0 { return Some(ino[i].addrs[bn]); }
        r := FillSlot(i, bn, job, tot);
        WfInodes(sb, blocks, ino, owner);
      } else if bn < MAXFILE {
        var p := EnsureIndirect(i, job, tot);
        if p.None? { GainsWider(old(blocks), old(ino), blocks, ino, i, INDIRECT, INDIRECT, bn, bn + 1); return None; }
        ghost var blocks1, ino1, owner1, writes1 := blocks, ino, owner, writes;
        WfInodes(sb, blocks, ino, owner);
        r := BmapIndirect(i, bn, job, tot);
        WfInodes(sb, blocks, ino, owner);
        MovesOn(sb, job, old(Here()), Loop(tot), old(writes), Point(blocks1, ino1, owner1), Loop(tot), writes1, Here(),
                Loop(tot), writes);
        SameFilesTrans(old(blocks), old(ino), blocks1, ino1, blocks, ino);
        SlotsGrowTrans(old(blocks), old(ino), blocks1, ino1, blocks, ino);
        GainTrans(sb, old(blocks), old(ino), blocks1, ino1, blocks, ino, i);
        GainsWider(old(blocks), old(ino), blocks1, ino1, i, INDIRECT, INDIRECT, bn, bn);
        GainsTrans(old(blocks), old(ino), blocks1, ino1, blocks, ino, i, bn, bn, bn, bn + 1);
        SameMetaTrans(sb, old(blocks), blocks1, blocks);
      } else {
        r := None;
      }
    }

    /** One turn of the loop of readi. */
    method ReadChunk(i: nat, o: nat, m: nat) returns (part: seq<Byte>)
      requires Valid() && i < |ino| && WfInode(ino[i]) && 0 < m && o % BSIZE + m <= BSIZE && o + m <= ino[i].size
      modifies this`blocks, this`ino, this`owner, this`logged, this`writes
      ensures Valid() && blocks == old(blocks) && ino == old(ino) && owner == old(owner) && logged == old(logged)
      ensures part == Contents(blocks, ino, i)[o..o + m]
    {
      hide Wf, Full, Traced, SameMeta, Contents, SlotsGrow, MapGrows, GainsAt, SameFiles, FileBlock;
      NoHoleAt(sb, blocks, ino, owner, i, o);
      ghost var job := Job(i, o, seq(m, _ => 0));
      var a := Bmap(i, o / BSIZE, job, 0);
      ChunkOfContents(blocks, ino, i, o, m);
      part := blocks[a.value].bytes[o % BSIZE..o % BSIZE + m];
    }

    /** readi on a file or directory; off and n are 32-bit unsigned and `off + n` wraps. */
    method Readi(i: nat, off: nat, n: nat) returns (r: int, dst: seq<Byte>)
      requires Valid() && i < |ino| && off < UINT_MOD && n < UINT_MOD
      modifies this`blocks, this`ino, this`owner, this`logged, this`writes
      ensures Valid() && blocks == old(blocks) && ino == old(ino) && owner == old(owner) && logged == old(logged)
      ensures WfInode(ino[i])
      ensures off > ino[i].size || off + n >= UINT_MOD ==> r == -1 && dst == []
      ensures off <= ino[i].size && off + n < UINT_MOD ==>
                && r == (if off + n > ino[i].size then ino[i].size - off else n)
                && dst == Contents(blocks, ino, i)[off..off + r]
    {
      hide Wf, Traced, Layout, Contents;
      WfInodes(sb, blocks, ino, owner);
      dst := [];
      if off > ino[i].size || (off + n) % UINT_MOD < off { return -1, dst; }
      var n := if (off + n) % UINT_MOD > ino[i].size then ino[i].size - off else n;
      ghost var c := Contents(blocks, ino, i);
      var tot, o := 0, off;
      while tot < n
        invariant 0 <= tot <= n && o == off + tot
        invariant Valid() && blocks == old(blocks) && ino == old(ino) && owner == old(owner) && logged == old(logged)
        invariant dst == c[off..o]
      {
        var m := if n - tot < BSIZE - o % BSIZE then n - tot else BSIZE - o % BSIZE;
        var part := ReadChunk(i, o, m);
        assert c[off..o] + c[o..o + m] == c[off..o + m];
        dst := dst + part;
        tot, o := tot + m, o + m;
      }
      r := n;
    }

    /** One turn of the loop of writei: the part of the data that goes into the block holding offset o. */
    method WriteChunk(i: nat, o: nat, src: seq<Byte>, ghost job: Job, ghost tot: nat) returns (ok: bool)
      requires Valid() && i < |ino| && 0 < |src| && o % BSIZE + |src| <= BSIZE && o / BSIZE < MAXFILE
      requires job.i == i && tot < |job.src| && o == job.off + tot
      requires var m := Part(o, |job.src| - tot); src == job.src[tot..tot + m]
      modifies this`blocks, this`ino, this`owner, this`logged, this`writes
      ensures Valid() && |blocks| == old(|blocks|) && |ino| == old(|ino|) && SameMeta(sb, old(blocks), blocks)
      ensures ino == old(ino)[i := ino[i]] && ino[i].size == old(ino)[i].size
      ensures SlotsGrow(old(blocks), old(ino), blocks, ino) && MapGrows(sb, old(blocks), old(ino), blocks, ino, i)
      ensures GainsAt(old(blocks), old(ino), blocks, ino, i, o / BSIZE, o / BSIZE + 1)
      ensures !ok ==> SameFiles(old(blocks), old(ino), blocks, ino) && Full(sb, blocks)
                      && Slot(blocks, ino, i, o / BSIZE) == 0
      ensures Slot(old(blocks), old(ino), i, o / BSIZE) != 0 ==> ok && ino == old(ino)
      ensures ok ==>
                && Slot(blocks, ino, i, o / BSIZE) != 0
                && Written(old(blocks), old(ino), blocks, ino, i, o, src)
                && logged == old(logged) + {Slot(blocks, ino, i, o / BSIZE)}
                             + AllocLog(sb, old(blocks), old(ino), blocks, ino, i)
      ensures ok ==> Moves(sb, job, old(Here()), Loop(tot), old(writes), Here(), Loop(tot + |src|), writes)
    {
      hide Wf, Owned, InUse, NoHoles, Full, Traced, SameMeta, Layout, Written, MapGrows, AllocLog, GainsAt, Moves;
      WfInodes(sb, blocks, ino, owner);
      var r := Bmap(i, o / BSIZE, job, tot);
      ghost var here, ws := Here(), writes;
      WfInodes(sb, blocks, ino, owner);
      ok := r.Some?;
      if ok {
        var p := o % BSIZE;
        SlotInRange(sb, blocks, ino, owner, i, o / BSIZE);
        var was := blocks[r.value].bytes;
        var data := Block(was[..p] + src + was[p + |src|..]);
        WriteData(sb, blocks, ino, owner, i, o / BSIZE, data);
        ChunkWritten(old(blocks), old(ino), blocks, ino, i, o, src, blocks[r.value := data]);
        SlotsSame(old(blocks), old(ino), blocks, ino, blocks[r.value := data]);
        DataBlock(sb, blocks, ino, owner, i, o / BSIZE);
        GainsSame(sb, old(blocks), old(ino), blocks, ino, i, r.value, data, o / BSIZE);
        MetaWrite(sb, old(blocks), blocks, r.value, data);
        LogBlock(r.value, data);
        DataMoves(sb, job, tot, here, Here(), ws);
        MovesOn(sb, job, old(Here()), Loop(tot), old(writes), here, Loop(tot), ws, Here(), Loop(tot + |src|), writes);
      }
    }

    /** The loop of writei, with exactly what it logs. */
    method WriteChunks(i: nat, off: nat, src: seq<Byte>) returns (ok: bool)
      requires Valid() && i < |ino| && off <= ino[i].size && off + |src| <= MAXFILE * BSIZE
      modifies this`blocks, this`ino, this`owner, this`logged, this`writes
      ensures Valid() && |blocks| == old(|blocks|) && |ino| == old(|ino|) && SameMeta(sb, old(blocks), blocks)
      ensures ino == old(ino)[i := ino[i]] && ino[i].size == old(ino)[i].size
      ensures SlotsGrow(old(blocks), old(ino), blocks, ino) && MapGrows(sb, old(blocks), old(ino), blocks, ino, i)
      ensures GainsAt(old(blocks), old(ino), blocks, ino, i, off / BSIZE, EndBlock(off, |src|))
      ensures forall j :: 0 <= j < |ino| && j != i ==> SameBytes(old(blocks), old(ino), blocks, ino, j)
      ensures off + |src| <= old(ino)[i].size ==> ok && ino == old(ino)
      ensures !ok ==> Full(sb, blocks) && Lacks(blocks, ino, i, off / BSIZE, EndBlock(off, |src|))
      ensures ok ==>
                && Written(old(blocks), old(ino), blocks, ino, i, off, src)
                && Covered(blocks, ino, i, off, off + |src|) && EndBlock(off, |src|) <= MAXFILE
                && logged == old(logged) + DataIn(blocks, ino, i, off / BSIZE, EndBlock(off, |src|))
                             + AllocLog(sb, old(blocks), old(ino), blocks, ino, i)
      ensures ok ==> Moves(sb, Job(i, off, src), old(Here()), Loop(0), old(writes), Here(), Loop(|src|), writes)
    {
      hide Wf, Owned, InUse, NoHoles, Traced, SameMeta, Layout, Written, SlotsGrow, SameBytes, SameFiles, Slot, Covered,
           Progress, Full, MapGrows, AllocLog, GainsAt, DataIn, Lacks, Moves;
      WfInodes(sb, blocks, ino, owner);
      ghost var p, ws := Here(), writes;
      MovesNot(sb, Job(i, off, src), p, Loop(0), ws);
      NoProgress(sb, blocks, ino, owner, logged, i, off, src);
      ok := true;
      ghost var blocks0, ino0, logged0 := blocks, ino, logged;
      var tot := 0;
      while tot < |src|
        invariant 0 <= tot <= |src| && Valid() && Inodes(ino) && i < |ino| && off + tot <= MAXFILE * BSIZE
        invariant Progress(sb, blocks0, ino0, logged0, blocks, ino, logged, i, off, src, tot)
        invariant Moves(sb, Job(i, off, src), p, Loop(0), ws, Here(), Loop(tot), writes)
        decreases |src| - tot
      {
        var m;
        ghost var p1, ws1 := Here(), writes;
        ok, m := WriteTurn(i, off, src, tot, blocks0, ino0, logged0);
        if !ok { return; }
        MovesOn(sb, Job(i, off, src), p, Loop(0), ws, p1, Loop(tot), ws1, Here(), Loop(tot + m), writes);
        tot := tot + m;
      }
      Concluded(sb, blocks0, ino0, logged0, blocks, ino, logged, i, off, src, tot);
    }

    /** One turn of that loop, with what it has done so far. */
    method WriteTurn(i: nat, off: nat, src: seq<Byte>, tot: nat, ghost blocks0: seq<Block>, ghost ino0: seq<Inode>,
                     ghost logged0: set<nat>)
      returns (ok: bool, m: nat)
      requires Valid() && i < |ino| && tot < |src| && off + |src| <= MAXFILE * BSIZE && Inodes(ino0) && Inodes(ino)
      requires Progress(sb, blocks0, ino0, logged0, blocks, ino, logged, i, off, src, tot)
      modifies this`blocks, this`ino, this`owner, this`logged, this`writes
      ensures Valid() && Inodes(ino) && i < |ino|
      ensures ok ==> 0 < m <= |src| - tot
                     && Progress(sb, blocks0, ino0, logged0, blocks, ino, logged, i, off, src, tot + m)
      ensures !ok ==> Stopped(sb, blocks0, ino0, blocks, ino, i, off, src) && Full(sb, blocks)
      ensures ok ==> Moves(sb, Job(i, off, src), old(Here()), Loop(tot), old(writes), Here(), Loop(tot + m), writes)
    {
      hide Wf, Owned, InUse, NoHoles, Traced, SameMeta, Layout, Written, SlotsGrow, SameBytes, SameFiles, Slot, Covered,
           Full, Progress, MapGrows, AllocLog, GainsAt, DataIn, EndBlock, Lacks, Moves;
      ProgressFacts(sb, blocks0, ino0, logged0, blocks, ino, logged, i, off, src, tot);
      var o := off + tot;
      m := if |src| - tot < BSIZE - o % BSIZE then |src| - tot else BSIZE - o % BSIZE;
      ghost var blocks1, ino1, logged1 := blocks, ino, logged;
      TurnStep(off, tot, |src|, m);
      if o < ino[i].size { NoHoleAt(sb, blocks, ino, owner, i, o); }
      ok := WriteChunk(i, o, src[tot..tot + m], Job(i, off, src), tot);
      WfInodes(sb, blocks, ino, owner);
      SlotsGrowTrans(blocks0, ino0, blocks1, ino1, blocks, ino);
      SameMetaTrans(sb, blocks0, blocks1, blocks);
      OneInode(ino0, ino1, ino, i);
      GainTrans(sb, blocks0, ino0, blocks1, ino1, blocks, ino, i);
      GainsTrans(blocks0, ino0, blocks1, ino1, blocks, ino, i, off / BSIZE, EndBlock(off, tot), o / BSIZE,
                 o / BSIZE + 1);
      if !ok {
        GainsWider(blocks0, ino0, blocks, ino, i, off / BSIZE, o / BSIZE + 1, off / BSIZE, EndBlock(off, |src|));
        LacksThis(blocks, ino, i, off / BSIZE, EndBlock(off, |src|), o / BSIZE);
        OthersKept(blocks0, ino0, blocks1, ino1, blocks, ino, i, off, src[..tot]);
        return;
      }
      GrownSlots(blocks1, ino1, blocks, ino, i, off, o, m);
      CoveredSlots(blocks1, ino1, i, off, o);
      OneMoreBlock(blocks1, ino1, blocks, ino, i, off / BSIZE, EndBlock(off, tot), o / BSIZE);
      TurnMade(sb, blocks0, ino0, logged0, blocks1, ino1, logged1, blocks, ino, logged, i, off, src, tot, m);
    }

    /** iupdate: afterwards the disk has the inode as memory has it, and the other inodes, files and the free map as
        before. */
    method Iupdate(i: nat)
      requires Valid() && i < |ino|
      modifies this`blocks, this`logged, this`writes
      ensures Valid() && |blocks| == old(|blocks|)
      ensures OnlyInode(sb, old(blocks), blocks, i, ino[i], |ino|) && SameFiles(old(blocks), ino, blocks, ino)
      ensures forall j :: 0 <= j < |ino| ==> SameBytes(old(blocks), ino, blocks, ino, j)
      ensures forall c :: 0 <= c < sb.size ==> Used(sb, blocks, c) == Used(sb, old(blocks), c)
      ensures forall t {:trigger Slot(blocks, ino, i, t)} :: 0 <= t <= INDIRECT ==>
                Slot(blocks, ino, i, t) == Slot(old(blocks), ino, i, t)
      ensures SlotsGrow(old(blocks), ino, blocks, ino)
      ensures logged == old(logged) + {InodeBlock(sb, i)}
      ensures InodeBlock(sb, i) < |old(blocks)| && InodeFits(ino[i])
      ensures writes == old(writes) + [Write(InodeBlock(sb, i),
                                             PutInode(old(blocks)[InodeBlock(sb, i)], i % IPB, ino[i]))]
      ensures blocks == old(blocks)[InodeBlock(sb, i) := PutInode(old(blocks)[InodeBlock(sb, i)], i % IPB, ino[i])]
    {
      hide Owned, InUse, NoHoles, Used, Traced, SameFiles, SameBytes, OnlyInode, Slot, PutInode;
      InodeBlockIsMeta(sb, |ino|, i);
      InodeWords(sb, blocks, ino, owner, i);
      var b := InodeBlock(sb, i);
      InodeWritten(sb, blocks, ino, owner, i, PutInode(blocks[b], i % IPB, ino[i]));
      LogBlock(b, PutInode(blocks[b], i % IPB, ino[i]));
    }

    /** writei on a file or directory, of n = |src| bytes; off and n are 32-bit unsigned. None stands for running
        out of blocks. The inode on disk follows the inode in memory, although writei updates it only when the
        file grows: without holes, a block is only ever allocated by a write that grows the file. */
    method Writei(i: nat, src: seq<Byte>, off: nat) returns (r: Option<int>)
      requires Valid() && i < |ino| && off < UINT_MOD && |src| < UINT_MOD
      modifies this`blocks, this`ino, this`owner, this`logged, this`writes
      ensures Valid() && |blocks| == old(|blocks|) && |ino| == old(|ino|) && WfInode(ino[i]) && WfInode(old(ino)[i])
      ensures Inodes(ino) && Inodes(old(ino))
      ensures off > old(ino)[i].size || off + |src| > MAXFILE * BSIZE ==>
                r == Some(-1) && blocks == old(blocks) && ino == old(ino) && owner == old(owner)
                && logged == old(logged) && writes == old(writes)
      ensures off <= old(ino)[i].size && off + |src| <= MAXFILE * BSIZE && r.Some? ==>
                && r == Some(|src|)
                && Contents(blocks, ino, i) == Splice(Contents(old(blocks), old(ino), i), off, src)
                && (Synced(sb, old(blocks), old(ino)) ==> Synced(sb, blocks, ino))
                && EndBlock(off, |src|) <= MAXFILE
                && logged == old(logged) + WriteLog(sb, old(blocks), old(ino), blocks, ino, i, off, |src|)
                && (|src| <= CHUNK && old(writes) == [] ==> Chunk(sb, writes))
                && Moves(sb, Job(i, off, src), old(Here()), Loop(0), old(writes), Here(), EndOf(old(ino), i, off, src),
                         writes)
      ensures off + |src| <= old(ino)[i].size ==> r.Some? && ino == old(ino)
      ensures r.None? ==> Full(sb, blocks) && Lacks(blocks, ino, i, off / BSIZE, EndBlock(off, |src|))
      ensures SlotsGrow(old(blocks), old(ino), blocks, ino) && MapGrows(sb, old(blocks), old(ino), blocks, ino, i)
      ensures GainsAt(old(blocks), old(ino), blocks, ino, i, off / BSIZE, EndBlock(off, |src|))
      ensures forall j :: 0 <= j < |ino| && j != i ==>
                ino[j] == old(ino)[j] && SameBytes(old(blocks), old(ino), blocks, ino, j)
    {
      hide Wf, Owned, InUse, NoHoles, Full, Traced, SameMeta, Layout, Written, SlotsGrow, SameBytes, Slot, Covered,
           Contents, Splice, Synced, OnlyInode, SameFiles, MapGrows, AllocLog, GainsAt, DataIn, EndBlock, Chunk,
           WriteLog, Lacks, Moves, PutInode;
      WfInodes(sb, blocks, ino, owner);
      NothingWritten(blocks, ino);
      GainNone(sb, blocks, ino, i);
      WriteNothing(sb, blocks, ino, owner, i, off);
      if off > ino[i].size || (off + |src|) % UINT_MOD < off { return Some(-1); }
      if (off + |src|) % UINT_MOD > MAXFILE * BSIZE { return Some(-1); }
      ghost var blocks0, ino0, owner0, logged0 := blocks, ino, owner, logged;
      UnalignedIsAllocated(sb, blocks, ino, owner, i, off);
      var ok := WriteChunks(i, off, src);
      WfInodes(sb, blocks, ino, owner);
      if !ok { return None; }
      ContentsWritten(blocks0, ino0, blocks, ino, i, off, src);
      ghost var blocks1, ino1, log := blocks, ino, writes;
      TracedLog(sb, base, writes, blocks, logged);
      if |src| > 0 && off + |src| > ino[i].size {
        GrowFile(sb, blocks0, ino0, owner0, blocks, ino, owner, i, off, off + |src|);
        ino := ino[i := ino[i].(size := off + |src|)];
        OthersSized(blocks0, ino0, blocks, ino1, ino, i);
        WfInodes(sb, blocks, ino, owner);
        Iupdate(i);
        GrowMoves(sb, Job(i, off, src), Point(blocks1, ino1, owner), Here(), log);
        MovesOn(sb, Job(i, off, src), old(Here()), Loop(0), old(writes), Point(blocks1, ino1, owner), Loop(|src|), log,
                Here(), Ended, writes);
        AfterIupdate(sb, blocks0, ino0, blocks1, blocks, ino, i);
        SlotsUnmoved(sb, blocks0, ino0, blocks1, ino1, blocks, ino, i, off / BSIZE, EndBlock(off, |src|));
      } else {
        StillSynced(sb, blocks0, blocks, ino0);
      }
      WroteLog(sb, blocks0, ino0, blocks1, ino1, blocks, ino, i, off, |src|, logged0, logged);
      if |src| <= CHUNK && old(writes) == [] {
        TracedLog(sb, base, old(writes), blocks0, logged0);
        NothingTouched();
        IsChunk(sb, blocks0, ino0, blocks1, ino1, i, off, |src|, log, writes);
      }
      r := Some(|src|);
    }

    /** bfree; false stands for the panic "freeing free block". */
    method Bfree(b: nat) returns (ok: bool)
      requires Layout(sb, |blocks|) && b < sb.size && Logs()
      modifies this`blocks, this`logged, this`writes
      ensures ok == Used(sb, old(blocks), b) && Logs()
      ensures ok ==> blocks == Marked(sb, old(blocks), b, false) && logged == old(logged) + {BitmapBlock(sb, b)}
      ensures !ok ==> blocks == old(blocks) && logged == old(logged)
    {
      hide Traced;
      BitmapBlockIsMeta(sb, |blocks|, b);
      var bp := blocks[b / BPB + sb.bmapstart];
      var bi := b % BPB;
      if !TestBit(bp.bytes[bi / 8], bi % 8) { return false; }
      LogBlock(b / BPB + sb.bmapstart, PutBlockBit(bp, bi, false));
      ok := true;
    }

    /** The first loop of itrunc. */
    method FreeDirect(i: nat) returns (ok: bool)
      requires Valid() && i < |ino|
      modifies this`blocks, this`ino, this`logged, this`writes
      ensures ok && Layout(sb, |blocks|) && Freed(sb, old(blocks), blocks, owner, i, NDIRECT) && Logs()
      ensures Inodes(ino) && |ino| == old(|ino|) && ino == old(ino)[i := old(ino)[i].(addrs := ino[i].addrs)]
      ensures |blocks| == old(|blocks|) && WfInode(old(ino)[i])
      ensures forall t :: 0 <= t <= NDIRECT ==> ino[i].addrs[t] == if t < NDIRECT then 0 else old(ino)[i].addrs[t]
    {
      hide Wf, Owned, InUse, NoHoles, Slot, Used, Freed, Marked, Traced;
      WfInodes(sb, blocks, ino, owner);
      ghost var blocks0, ino0 := blocks, ino;
      FreedNothing(sb, blocks, owner, i);
      ok := true;
      for k := 0 to NDIRECT
        invariant ok && Logs() && Layout(sb, |blocks|) && |blocks| == |blocks0| && |ino| == |ino0|
        invariant |ino[i].addrs| == NDIRECT + 1
        invariant ino == ino0[i := ino0[i].(addrs := ino[i].addrs)]
        invariant forall t :: 0 <= t <= NDIRECT ==> ino[i].addrs[t] == if t < k then 0 else ino0[i].addrs[t]
        invariant Freed(sb, blocks0, blocks, owner, i, k)
      {
        DirectSlot(blocks0, ino0, i, k);
        FreeStep(sb, blocks0, ino0, owner, blocks, i, k);
        if ino[i].addrs[k] != 0 {
          ok := Bfree(ino[i].addrs[k]);
          ino := ino[i := ino[i].(addrs := ino[i].addrs[k := 0])];
        }
      }
    }

    /** The second half of itrunc: the blocks listed in the indirect block, then that block itself. */
    method FreeIndirect(i: nat, ghost blocks0: seq<Block>, ghost ino0: seq<Inode>) returns (ok: bool)
      requires Logs() && Wf(sb, blocks0, ino0, owner) && Layout(sb, |blocks|)
      requires Freed(sb, blocks0, blocks, owner, i, NDIRECT)
      requires |blocks| == |blocks0| && i < |ino| == |ino0| && Inodes(ino)
      requires ino[i].addrs[NDIRECT] == ino0[i].addrs[NDIRECT]
      modifies this`blocks, this`ino, this`logged, this`writes
      ensures ok && Logs() && Layout(sb, |blocks|) && |blocks| == |blocks0|
      ensures Freed(sb, blocks0, blocks, owner, i, INDIRECT + 1)
      ensures ino == old(ino)[i := old(ino)[i].(addrs := old(ino)[i].addrs[NDIRECT := 0])]
    {
      hide Wf, Owned, InUse, NoHoles, Slot, Used, Freed, Marked, Traced;
      WfInodes(sb, blocks0, ino0, owner);
      var ind := ino[i].addrs[NDIRECT];
      ok := true;
      if ind != 0 {
        IndirectSlot(sb, blocks0, ino0, owner, i, ind);
        FreedData(sb, blocks0, blocks, owner, i, NDIRECT, ind);
        var bp := blocks[ind];
        for j := 0 to NINDIRECT
          invariant ok && Logs() && Layout(sb, |blocks|) && |blocks| == |blocks0| && ino == old(ino)
          invariant Freed(sb, blocks0, blocks, owner, i, NDIRECT + j)
        {
          FreeStep(sb, blocks0, ino0, owner, blocks, i, NDIRECT + j);
          if Word(bp, j) != 0 {
            ok := Bfree(Word(bp, j));
          }
        }
        FreeStep(sb, blocks0, ino0, owner, blocks, i, INDIRECT);
        ok := Bfree(ind);
        ino := ino[i := ino[i].(addrs := ino[i].addrs[NDIRECT := 0])];
      } else {
        NoIndirect(sb, blocks0, ino0, owner, blocks, i);
        assert ino[i].addrs[NDIRECT := 0] == ino[i].addrs;
      }
    }

    /** itrunc never frees a block that is free, empties the file, and gives back exactly the blocks it owned. */
    method Itrunc(i: nat) returns (ok: bool)
      requires Valid() && i < |ino|
      modifies this`blocks, this`ino, this`owner, this`logged, this`writes
      ensures ok && Valid() && |blocks| == old(|blocks|) && |ino| == old(|ino|)
      ensures ino[i] == EmptyInode() && OnlyInode(sb, old(blocks), blocks, i, ino[i], |ino|)
      ensures forall b :: 0 <= b < sb.size ==>
                (Used(sb, blocks, b) <==> Used(sb, old(blocks), b) && !(b in old(owner) && old(owner)[b].0 == i))
      ensures forall j :: 0 <= j < |ino| && j != i ==>
                ino[j] == old(ino)[j] && SameBytes(old(blocks), old(ino), blocks, ino, j)
    {
      hide Wf, Owned, InUse, NoHoles, Slot, SameBytes, Used, Freed, Traced, SameFiles, OnlyInode;
      WfInodes(sb, blocks, ino, owner);
      ghost var blocks0, ino0, owner0 := blocks, ino, owner;
      ok := FreeDirect(i);
      ok := FreeIndirect(i, blocks0, ino0);
      ino := ino[i := ino[i].(size := 0)];
      assert ino[i].addrs == EmptyInode().addrs;
      assert ino == ino0[i := EmptyInode()];
      Truncated(sb, blocks0, ino0, owner0, blocks, i);
      FreedMeta(sb, blocks0, blocks, owner, i);
      owner := map b | b in owner && owner[b].0 != i :: owner[b];
      ghost var blocks1 := blocks;
      Iupdate(i);
      AfterTrunc(sb, blocks0, ino0, blocks1, blocks, ino, i);
    }

    /** One transaction of filewrite: what writei does between begin_op and end_op. */
    method WriteOne(i: nat, src: seq<Byte>, off: nat) returns (r: Option<int>)
      requires Valid() && i < |ino| && off < UINT_MOD && |src| <= CHUNK
      modifies this`blocks, this`ino, this`owner, this`logged, this`writes, this`base
      ensures Valid() && |blocks| == old(|blocks|) && |ino| == old(|ino|) && Inodes(ino) && Inodes(old(ino))
      ensures off > old(ino)[i].size || off + |src| > MAXFILE * BSIZE ==>
                r == Some(-1) && blocks == old(blocks) && ino == old(ino) && owner == old(owner) && writes == []
      ensures off <= old(ino)[i].size && off + |src| <= MAXFILE * BSIZE && r.Some? ==>
                && r == Some(|src|) && EndBlock(off, |src|) <= MAXFILE && Chunk(sb, writes)
                && Contents(blocks, ino, i) == Splice(Contents(old(blocks), old(ino), i), off, src)
                && (Synced(sb, old(blocks), old(ino)) ==> Synced(sb, blocks, ino))
                && Traced(sb, old(blocks), writes, blocks, Touched(writes))
                && Touched(writes) == WriteLog(sb, old(blocks), old(ino), blocks, ino, i, off, |src|)
                && Went(sb, Job(i, off, src), old(Here()), Loop(0), writes, Here(), EndOf(old(ino), i, off, src))
      ensures off + |src| <= old(ino)[i].size ==> r.Some? && ino == old(ino)
      ensures r.None? ==> Full(sb, blocks) && Lacks(blocks, ino, i, off / BSIZE, EndBlock(off, |src|))
      ensures SlotsGrow(old(blocks), old(ino), blocks, ino) && MapGrows(sb, old(blocks), old(ino), blocks, ino, i)
      ensures GainsAt(old(blocks), old(ino), blocks, ino, i, off / BSIZE, EndBlock(off, |src|))
      ensures forall j :: 0 <= j < |ino| && j != i ==>
                ino[j] == old(ino)[j] && SameBytes(old(blocks), old(ino), blocks, ino, j)
    {
      hide Wf, Owned, InUse, NoHoles, Full, Traced, SameMeta, Layout, SlotsGrow, SameBytes, Slot, Contents, Splice,
           Synced, MapGrows, GainsAt, Chunk, WriteLog, Lacks, Touched, Went;
      TransactionStart(sb, blocks);
      base, writes, logged := blocks, [], {};
      r := Writei(i, src, off);
      assert writes[0..] == writes;
      TracedLog(sb, base, writes, blocks, logged);
    }

    /** The inode case of filewrite: one transaction per chunk. All or a prefix of the data is written at the file
        offset, which moves past what was written. `points` are the states between transactions and `txs` what each one
        logs. */
    method Filewrite(i: nat, src: seq<Byte>, off: nat)
      returns (r: Option<int>, off': nat, ghost points: seq<Point>, txs: seq<seq<Write>>)
      requires Valid() && i < |ino| && off < UINT_MOD && |src| < UINT_MOD
      modifies this`blocks, this`ino, this`owner, this`logged, this`writes, this`base
      ensures Valid() && |ino| == old(|ino|) && WfInode(ino[i]) && WfInode(old(ino)[i])
      ensures Trail(sb, points, txs, i, off, src) && points[0] == Point(old(blocks), old(ino), old(owner))
      ensures off' == off + Done(|txs|, |src|)
      ensures r.None? ==>
                && Full(sb, blocks) && off <= old(ino)[i].size && Inodes(ino)
                && Lacks(blocks, ino, i, off' / BSIZE, EndBlock(off', Least(CHUNK, |src| - (off' - off))))
      ensures r.Some? ==>
                && points[|txs|] == Point(blocks, ino, owner)
                && (off > old(ino)[i].size ==> off' == off && ino == old(ino) && blocks == old(blocks))
                && (off <= old(ino)[i].size ==>
                      Contents(blocks, ino, i) == Splice(Contents(old(blocks), old(ino), i), off, src[..off' - off]))
                && r.value == (if off' - off == |src| then |src| else -1)
                && (off <= old(ino)[i].size && off + |src| <= MAXFILE * BSIZE ==> off' == off + |src|)
                && (off <= old(ino)[i].size && r.value == -1 ==>
                      off' <= MAXFILE * BSIZE < off' + Least(CHUNK, |src| - (off' - off)))
      ensures forall j :: 0 <= j < |ino| && j != i ==>
                ino[j] == old(ino)[j] && SameBytes(old(blocks), old(ino), blocks, ino, j)
    {
      hide Wf, Owned, InUse, NoHoles, Full, Traced, SameMeta, Layout, SameBytes, Slot, Contents, Splice, Synced, Trail,
           Reached, Chunk, WriteLog, MapGrows, GainsAt, SlotsGrow, Lacks, Touched, Went;
      WfInodes(sb, blocks, ino, owner);
      NothingWritten(blocks, ino);
      off', points, txs := off, [Point(blocks, ino, owner)], [];
      TrailStart(sb, points[0], i, off, src);
      while off' < off + |src|
        invariant off' == off + Done(|txs|, |src|) && Valid() && |ino| == old(|ino|)
        invariant Trail(sb, points, txs, i, off, src) && |points| == |txs| + 1
        invariant points[0] == Point(old(blocks), old(ino), old(owner)) && points[|txs|] == Point(blocks, ino, owner)
        invariant Inodes(ino)
        invariant forall j :: 0 <= j < |ino| && j != i ==>
                    ino[j] == old(ino)[j] && SameBytes(old(blocks), old(ino), blocks, ino, j)
        decreases off + |src| - off'
      {
        var k := off' - off;
        var n1 := if |src| - k > CHUNK then CHUNK else |src| - k;
        ghost var blocks1, ino1 := blocks, ino;
        TrailEnd(sb, points, txs, i, off, src);
        var w := WriteOne(i, src[k..k + n1], off');
        WfInodes(sb, blocks, ino, owner);
        SameBytesTrans(old(blocks), old(ino), blocks1, ino1, blocks, ino, i);
        if w.None? { return None, off', points, txs; }
        if w.value < 0 { break; }
        TrailMore(sb, points, txs, i, off, src, writes, Point(blocks, ino, owner), Touched(writes));
        points, txs := points + [Point(blocks, ino, owner)], txs + [writes];
        off' := off' + n1;
      }
      TrailEnd(sb, points, txs, i, off, src);
      r := Some(if off' - off == |src| then |src| else -1);
    }
  }

  /** Where writei is when it returns. */
  ghost function EndOf(ino: seq<Inode>, i: nat, off: nat, src: seq<Byte>): (at: Phase)
    requires i < |ino|
  {
    if |src| > 0 && off + |src| > ino[i].size then Ended else Loop(|src|)
  }

  predicate InodeFits(n: Inode)
  {
    |n.addrs| == NDIRECT + 1 && n.size < UINT_MOD && forall t :: 0 <= t < |n.addrs| ==> n.addrs[t] < UINT_MOD
  }

  /** Block b is now in slot s of inode i, through the inode or the indirect block, and the latter has been logged. */
  ghost predicate AttachedAt(p: Point, i: nat, s: nat, b: nat, blocks: seq<Block>, ino: seq<Inode>, ws: seq<Write>,
                             ws': seq<Write>)
    requires i < |p.ino| && |p.ino[i].addrs| == NDIRECT + 1
  {
    if s < NDIRECT || s == INDIRECT then
      var t := if s == INDIRECT then NDIRECT else s;
      blocks == p.blocks && ino == p.ino[i := p.ino[i].(addrs := p.ino[i].addrs[t := b])] && ws' == ws
    else
      var a := p.ino[i].addrs[NDIRECT];
      && s < MAXFILE && b < UINT_MOD && a < |p.blocks| && ino == p.ino
      && blocks == p.blocks[a := PutWord(p.blocks[a], s - NDIRECT, b)]
      && ws' == ws + [Write(a, PutWord(p.blocks[a], s - NDIRECT, b))]
  }

  /** Filling a slot, step by step: the block is marked and zeroed, and its number goes where it belongs. */
  lemma FillMoves(sb: Super, job: Job, tot: nat, s: nat, b: nat, p: Point, taken: seq<Block>, q: Point, ws: seq<Write>,
                  ws': seq<Write>)
    requires job.i < |p.ino| && |p.ino[job.i].addrs| == NDIRECT + 1 && tot < |job.src|
    requires (job.off + tot) / BSIZE < MAXFILE && Missing(p, job.i, (job.off + tot) / BSIZE) == Some(s)
    requires Layout(sb, |p.blocks|) && Lowest(sb, p.blocks, b) && b < sb.size && b < UINT_MOD
    requires taken == Marked(sb, p.blocks, b, true)[b := ZeroBlock()]
    requires q.owner == p.owner[b := (job.i, s)]
    requires AttachedAt(p.(blocks := taken), job.i, s, b, q.blocks, q.ino, ws + TakeWrites(sb, p.blocks, b), ws')
    ensures Moves(sb, job, p, Loop(tot), ws, q, Loop(tot), ws')
  {
    hide Moves, PutBlockBit, Lowest, Used, PutWord, Word;
    var i, w := job.i, TakeWrites(sb, p.blocks, b);
    var p1 := p.(blocks := p.blocks[w[0].block := w[0].data]);
    assert w == [w[0], w[1]];
    MovesOne(sb, job, p, Loop(tot), ws, w[0], p1, Taken(tot, s, b));
    var inode := s < NDIRECT || s == INDIRECT;
    var p2 := if inode then q else p.(blocks := taken);
    var at := if inode then Loop(tot) else Cleared(tot, s, b);
    MovesOne(sb, job, p1, Taken(tot, s, b), ws + [w[0]], w[1], p2, at);
    MovesOn(sb, job, p, Loop(tot), ws, p1, Taken(tot, s, b), ws + [w[0]], p2, at, ws + [w[0]] + [w[1]]);
    assert ws + w == ws + [w[0]] + [w[1]];
    if !inode {
      var v := Write(p.ino[i].addrs[NDIRECT], PutWord(taken[p.ino[i].addrs[NDIRECT]], s - NDIRECT, b));
      MovesOne(sb, job, p2, at, ws + w, v, q, Loop(tot));
      MovesOn(sb, job, p, Loop(tot), ws, p2, at, ws + w, q, Loop(tot), ws');
    }
  }

  lemma DataMoves(sb: Super, job: Job, tot: nat, p: Point, q: Point, ws: seq<Write>)
    requires job.i < |p.ino| && |p.ino[job.i].addrs| == NDIRECT + 1 && tot < |job.src|
    requires (job.off + tot) / BSIZE < MAXFILE && Missing(p, job.i, (job.off + tot) / BSIZE).None?
    requires var o, m := job.off + tot, Part(job.off + tot, |job.src| - tot);
             var a := Slot(p.blocks, p.ino, job.i, o / BSIZE);
             && a < |p.blocks| && q.ino == p.ino && q.owner == p.owner
             && q.blocks == p.blocks[a := Overlay(p.blocks[a], o % BSIZE, job.src[tot..tot + m])]
    ensures var o, m := job.off + tot, Part(job.off + tot, |job.src| - tot);
            var a := Slot(p.blocks, p.ino, job.i, o / BSIZE);
            Moves(sb, job, p, Loop(tot), ws, q, Loop(tot + m),
                  ws + [Write(a, Overlay(p.blocks[a], o % BSIZE, job.src[tot..tot + m]))])
  {
    hide Moves, Slot;
    var o, m := job.off + tot, Part(job.off + tot, |job.src| - tot);
    var a := Slot(p.blocks, p.ino, job.i, o / BSIZE);
    MovesOne(sb, job, p, Loop(tot), ws, Write(a, Overlay(p.blocks[a], o % BSIZE, job.src[tot..tot + m])), q,
             Loop(tot + m));
  }

  lemma GrowMoves(sb: Super, job: Job, p: Point, q: Point, ws: seq<Write>)
    requires job.i < |p.ino| && |p.ino[job.i].addrs| == NDIRECT + 1 && Grows(p, job) && q.owner == p.owner
    requires var n := p.ino[job.i].(size := job.off + |job.src|);
             && InodeFits(n) && q.ino == p.ino[job.i := n] && InodeBlock(sb, job.i) < |p.blocks|
             && q.blocks == p.blocks[InodeBlock(sb, job.i) :=
                                       PutInode(p.blocks[InodeBlock(sb, job.i)], job.i % IPB, n)]
    ensures Moves(sb, job, p, Loop(|job.src|), ws, q, Ended,
                  ws + [Write(InodeBlock(sb, job.i),
                              PutInode(p.blocks[InodeBlock(sb, job.i)], job.i % IPB, q.ino[job.i]))])
  {
    hide Moves, PutInode;
    MovesOne(sb, job, p, Loop(|job.src|), ws,
             Write(InodeBlock(sb, job.i),
                   PutInode(p.blocks[InodeBlock(sb, job.i)], job.i % IPB, q.ino[job.i])), q, Ended);
  }

  /** How much of n bytes k chunks write. */
  function Done(k: nat, n: nat): (r: nat) { Least(k * CHUNK, n) }

  /** p is p0 with `done` written to file i at off, and nothing else: every other file and its inode are as they were,
      and if the disk had all inodes before it has them now. */
  ghost predicate Reached(sb: Super, p0: Point, p: Point, i: nat, off: nat, done: seq<Byte>)
  {
    && Wf(sb, p0.blocks, p0.ino, p0.owner) && Wf(sb, p.blocks, p.ino, p.owner)
    && |p.blocks| == |p0.blocks| && i < |p.ino| == |p0.ino|
    && (Synced(sb, p0.blocks, p0.ino) ==> Synced(sb, p.blocks, p.ino))
    && (off <= p0.ino[i].size ==>
          off + |done| <= p.ino[i].size
          && Contents(p.blocks, p.ino, i) == Splice(Contents(p0.blocks, p0.ino, i), off, done))
    && forall j :: 0 <= j < |p.ino| && j != i ==>
         p.ino[j] == p0.ino[j] && SameBytes(p0.blocks, p0.ino, p.blocks, p.ino, j)
  }

  /** What filewrite goes through: transaction k takes points[k] to points[k + 1] by the writes txs[k], which touch no
      more blocks than a chunk may, all of them outside the log. */
  ghost predicate Trail(sb: Super, points: seq<Point>, txs: seq<seq<Write>>, i: nat, off: nat, src: seq<Byte>)
  {
    && |points| == |txs| + 1 && i < |points[0].ino| && (off > points[0].ino[i].size ==> txs == [])
    && (forall k {:trigger points[k]} :: 0 <= k <= |txs| ==>
          Reached(sb, points[0], points[k], i, off, src[..Done(k, |src|)]))
    && (forall k {:trigger txs[k]} :: 0 <= k < |txs| ==>
          && Traced(sb, points[k].blocks, txs[k], points[k + 1].blocks, Touched(txs[k]))
          && Chunk(sb, txs[k]))
  }

  lemma TransactionStart(sb: Super, blocks: seq<Block>)
    ensures Traced(sb, blocks, [], blocks, {})
  {
  }

  lemma TrailStart(sb: Super, p: Point, i: nat, off: nat, src: seq<Byte>)
    requires Wf(sb, p.blocks, p.ino, p.owner) && i < |p.ino|
    ensures Trail(sb, [p], [], i, off, src)
  {
    hide Wf, Contents, SameBytes, Splice, Synced;
    WfInodes(sb, p.blocks, p.ino, p.owner);
    NothingWritten(p.blocks, p.ino);
    if off <= p.ino[i].size { SpliceNothing(Contents(p.blocks, p.ino, i), off); }
    assert src[..Done(0, |src|)] == [];
  }

  lemma TrailEnd(sb: Super, points: seq<Point>, txs: seq<seq<Write>>, i: nat, off: nat, src: seq<Byte>)
    requires Trail(sb, points, txs, i, off, src)
    ensures |points| == |txs| + 1 && Reached(sb, points[0], points[|txs|], i, off, src[..Done(|txs|, |src|)])
    ensures var p0, p, n := points[0], points[|txs|], Done(|txs|, |src|);
            && Inodes(p0.ino) && Inodes(p.ino) && i < |p0.ino| == |p.ino|
            && (if off > p0.ino[i].size then p == p0 && txs == []
                else off + n <= p.ino[i].size
                     && Contents(p.blocks, p.ino, i) == Splice(Contents(p0.blocks, p0.ino, i), off, src[..n]))
  {
    hide Wf, Contents, SameBytes, Splice, Synced;
    var p0, p := points[0], points[|txs|];
    WfInodes(sb, p0.blocks, p0.ino, p0.owner);
    WfInodes(sb, p.blocks, p.ino, p.owner);
  }

  lemma TrailMore(sb: Super, points: seq<Point>, txs: seq<seq<Write>>, i: nat, off: nat, src: seq<Byte>,
                  writes: seq<Write>, p: Point, logged: set<nat>)
    requires Trail(sb, points, txs, i, off, src) && |points| == |txs| + 1 && Done(|txs|, |src|) < |src|
    requires var q := points[|txs|];
             && Traced(sb, q.blocks, writes, p.blocks, logged) && Chunk(sb, writes)
             && Wf(sb, p.blocks, p.ino, p.owner) && Inodes(q.ino) && Inodes(p.ino) && i < |p.ino| == |q.ino|
             && off + Done(|txs|, |src|) <= q.ino[i].size
             && (Synced(sb, q.blocks, q.ino) ==> Synced(sb, p.blocks, p.ino))
             && Contents(p.blocks, p.ino, i) ==
                Splice(Contents(q.blocks, q.ino, i), off + Done(|txs|, |src|),
                       src[Done(|txs|, |src|)..Done(|txs| + 1, |src|)])
             && forall j :: 0 <= j < |p.ino| && j != i ==>
                  p.ino[j] == q.ino[j] && SameBytes(q.blocks, q.ino, p.blocks, p.ino, j)
    ensures Trail(sb, points + [p], txs + [writes], i, off, src)
  {
    hide Wf, Contents, SameBytes, Splice, Synced, Chunk;
    TrailEnd(sb, points, txs, i, off, src);
    var p0, q, k, n := points[0], points[|txs|], Done(|txs|, |src|), Done(|txs| + 1, |src|) - Done(|txs|, |src|);
    SameBytesTrans(p0.blocks, p0.ino, q.blocks, q.ino, p.blocks, p.ino, i);
    SpliceTwice(Contents(p0.blocks, p0.ino, i), off, src, k, n);
  }

  lemma FreeIsData(sb: Super, blocks: seq<Block>, owner: Owners, b: nat)
    requires Layout(sb, |blocks|) && InUse(sb, blocks, owner) && b < sb.size && !Used(sb, blocks, b)
    ensures b >= sb.datastart && sb.bmapstart < sb.datastart
  {
  }

  lemma DataBlock(sb: Super, blocks: seq<Block>, ino: seq<Inode>, owner: Owners, i: nat, s: nat)
    requires Wf(sb, blocks, ino, owner) && i < |ino| && s <= INDIRECT && Slot(blocks, ino, i, s) != 0
    ensures var b := Slot(blocks, ino, i, s);
            sb.inodestart <= sb.bmapstart < sb.datastart <= b < sb.size && b < |blocks|
            && (s == INDIRECT ==> b == ino[i].addrs[NDIRECT])
  {
  }

  lemma MetaWrite(sb: Super, blocks0: seq<Block>, blocks: seq<Block>, b: nat, data: Block)
    requires SameMeta(sb, blocks0, blocks) && sb.bmapstart <= b < |blocks|
    ensures SameMeta(sb, blocks0, blocks[b := data])
  {
  }

  lemma NoMeta(sb: Super, blocks: seq<Block>)
    ensures SameMeta(sb, blocks, blocks)
  {
  }

  lemma SameMetaTrans(sb: Super, b0: seq<Block>, b1: seq<Block>, b2: seq<Block>)
    requires SameMeta(sb, b0, b1) && SameMeta(sb, b1, b2)
    ensures SameMeta(sb, b0, b2)
  {
  }

  /** The blocks of the free map. */
  ghost function MapBlocks(sb: Super): (s: set<nat>) { Interval(sb.bmapstart, NMap(sb)) }

  function NMap(sb: Super): (n: nat) { if sb.size == 0 then 0 else (sb.size - 1) / BPB + 1 }

  lemma BitIsMapped(sb: Super, b: nat)
    requires b < sb.size
    ensures BitmapBlock(sb, b) in MapBlocks(sb)
  {
  }

  ghost function Interval(lo: nat, n: nat): (s: set<nat>)
    ensures |s| == n && forall x :: x in s <==> lo <= x < lo + n
  {
    if n == 0 then {} else Interval(lo, n - 1) + {lo + n - 1}
  }

  /* ---------------- what an inode gains, and what that logs ---------------- */

  /** The blocks that inode i has gained, the indirect block among them. */
  ghost function Gained(b0: seq<Block>, i0: seq<Inode>, blocks: seq<Block>, ino: seq<Inode>, i: nat): (s: set<nat>)
    requires Inodes(i0) && Inodes(ino) && i < |i0| && i < |ino|
  {
    set t | 0 <= t <= INDIRECT && Slot(b0, i0, i, t) == 0 && Slot(blocks, ino, i, t) != 0 :: Slot(blocks, ino, i, t)
  }

  /** It has gained them in slots lo to hi - 1 and the slot of the indirect block. */
  ghost predicate GainsAt(b0: seq<Block>, i0: seq<Inode>, blocks: seq<Block>, ino: seq<Inode>, i: nat, lo: nat, hi: nat)
    requires Inodes(i0) && Inodes(ino) && i < |i0| && i < |ino|
  {
    forall t {:trigger Slot(blocks, ino, i, t)} ::
      0 <= t <= INDIRECT && Slot(b0, i0, i, t) == 0 && Slot(blocks, ino, i, t) != 0 ==> lo <= t < hi || t == INDIRECT
  }

  /** The indirect block, if any of them is reached through it. */
  ghost function Through(b0: seq<Block>, i0: seq<Inode>, blocks: seq<Block>, ino: seq<Inode>, i: nat): (s: set<nat>)
    requires Inodes(i0) && Inodes(ino) && i < |i0| && i < |ino|
  {
    if exists t {:trigger Slot(blocks, ino, i, t)} ::
         NDIRECT <= t <= INDIRECT && Slot(b0, i0, i, t) == 0 && Slot(blocks, ino, i, t) != 0
    then {ino[i].addrs[NDIRECT]} else {}
  }

  ghost function MapOf(sb: Super, s: set<nat>): (r: set<nat>) { set b | b in s :: BitmapBlock(sb, b) }

  /** What the allocations log besides the blocks themselves. */
  ghost function AllocLog(sb: Super, b0: seq<Block>, i0: seq<Inode>, blocks: seq<Block>, ino: seq<Inode>,
                          i: nat): (s: set<nat>)
    requires Inodes(i0) && Inodes(ino) && i < |i0| && i < |ino|
  {
    MapOf(sb, Gained(b0, i0, blocks, ino, i)) + Through(b0, i0, blocks, ino, i)
  }

  /** The free map has lost exactly the blocks gained, all of them free before. */
  ghost predicate MapGrows(sb: Super, b0: seq<Block>, i0: seq<Inode>, blocks: seq<Block>, ino: seq<Inode>, i: nat)
    requires Inodes(i0) && Inodes(ino) && i < |i0| && i < |ino|
  {
    && Layout(sb, |b0|) && Layout(sb, |blocks|)
    && (forall b: nat :: b < sb.size ==>
          (Used(sb, blocks, b) <==> Used(sb, b0, b) || b in Gained(b0, i0, blocks, ino, i)))
    && (forall b :: b in Gained(b0, i0, blocks, ino, i) ==> b < sb.size && !Used(sb, b0, b))
  }

  lemma GainNone(sb: Super, blocks: seq<Block>, ino: seq<Inode>, i: nat)
    requires Inodes(ino) && i < |ino| && Layout(sb, |blocks|)
    ensures MapGrows(sb, blocks, ino, blocks, ino, i) && AllocLog(sb, blocks, ino, blocks, ino, i) == {}
    ensures forall lo, hi :: GainsAt(blocks, ino, blocks, ino, i, lo, hi)
  {
    hide Slot, Used;
    assert Gained(blocks, ino, blocks, ino, i) == {};
  }

  /** balloc's block and the writes into data blocks after it, as the free map sees them. */
  lemma TakenIsMarked(sb: Super, b0: seq<Block>, b1: seq<Block>, blocks: seq<Block>, b: nat)
    requires Layout(sb, |b0|) && b < sb.size && !Used(sb, b0, b) && b >= sb.datastart
    requires b1 == Marked(sb, b0, b, true)[b := ZeroBlock()]
    requires |blocks| == |b1| && forall c :: 0 <= c < sb.datastart ==> blocks[c] == b1[c]
    ensures forall c: nat :: c < sb.size ==> (Used(sb, blocks, c) <==> Used(sb, b0, c) || c == b)
  {
    hide Bit;
    forall c: nat | c < sb.size ensures Used(sb, blocks, c) <==> Used(sb, b0, c) || c == b {
      MarkedAt(sb, b0, b, true, c);
      BitmapBlockIsMeta(sb, |b0|, c);
    }
  }

  lemma GainOne(sb: Super, b0: seq<Block>, i0: seq<Inode>, blocks: seq<Block>, ino: seq<Inode>, i: nat, s: nat, b: nat)
    requires Inodes(i0) && Inodes(ino) && i < |i0| == |ino| && s <= INDIRECT && Slot(b0, i0, i, s) == 0 && b != 0
    requires Layout(sb, |b0|) && Layout(sb, |blocks|) && b < sb.size && !Used(sb, b0, b)
    requires forall t {:trigger Slot(blocks, ino, i, t)} :: 0 <= t <= INDIRECT ==>
               Slot(blocks, ino, i, t) == if t == s then b else Slot(b0, i0, i, t)
    requires forall c: nat :: c < sb.size ==> (Used(sb, blocks, c) <==> Used(sb, b0, c) || c == b)
    ensures MapGrows(sb, b0, i0, blocks, ino, i) && GainsAt(b0, i0, blocks, ino, i, s, s + 1)
    ensures AllocLog(sb, b0, i0, blocks, ino, i) ==
              {BitmapBlock(sb, b)} + if s >= NDIRECT then {ino[i].addrs[NDIRECT]} else {}
  {
    hide Slot, Used;
    assert Slot(blocks, ino, i, s) == b;
    assert Gained(b0, i0, blocks, ino, i) == {b};
    assert MapOf(sb, {b}) == {BitmapBlock(sb, b)};
  }

  lemma GainsIndirect(sb: Super, b0: seq<Block>, i0: seq<Inode>, blocks: seq<Block>, ino: seq<Inode>, i: nat)
    requires Inodes(i0) && Inodes(ino) && i < |i0| == |ino| && i0[i].addrs[NDIRECT] == 0 != ino[i].addrs[NDIRECT]
    requires GainsAt(b0, i0, blocks, ino, i, INDIRECT, INDIRECT + 1)
    ensures ino[i].addrs[NDIRECT] in AllocLog(sb, b0, i0, blocks, ino, i)
    ensures GainsAt(b0, i0, blocks, ino, i, INDIRECT, INDIRECT)
  {
    assert Slot(b0, i0, i, INDIRECT) == 0 && Slot(blocks, ino, i, INDIRECT) != 0;
  }

  lemma GainedTrans(b0: seq<Block>, i0: seq<Inode>, b1: seq<Block>, i1: seq<Inode>, b2: seq<Block>, i2: seq<Inode>,
                    i: nat)
    requires Inodes(i0) && Inodes(i1) && Inodes(i2) && i < |i0| && SlotsGrow(b0, i0, b1, i1)
    requires SlotsGrow(b1, i1, b2, i2)
    ensures Gained(b0, i0, b2, i2, i) == Gained(b0, i0, b1, i1, i) + Gained(b1, i1, b2, i2, i)
  {
    hide Slot;
    var g01, g12, g02 := Gained(b0, i0, b1, i1, i), Gained(b1, i1, b2, i2, i), Gained(b0, i0, b2, i2, i);
    forall b | b in g02 ensures b in g01 + g12 {
      var t :| 0 <= t <= INDIRECT && Slot(b0, i0, i, t) == 0 && Slot(b2, i2, i, t) != 0 && Slot(b2, i2, i, t) == b;
      assert Slot(b1, i1, i, t) == 0 || Slot(b1, i1, i, t) == b;
    }
    forall b | b in g01 ensures b in g02 {
      var t :| 0 <= t <= INDIRECT && Slot(b0, i0, i, t) == 0 && Slot(b1, i1, i, t) != 0 && Slot(b1, i1, i, t) == b;
      assert Slot(b2, i2, i, t) == b;
    }
    forall b | b in g12 ensures b in g02 {
      var t :| 0 <= t <= INDIRECT && Slot(b1, i1, i, t) == 0 && Slot(b2, i2, i, t) != 0 && Slot(b2, i2, i, t) == b;
      assert Slot(b0, i0, i, t) == 0;
    }
  }

  lemma ThroughTrans(b0: seq<Block>, i0: seq<Inode>, b1: seq<Block>, i1: seq<Inode>, b2: seq<Block>, i2: seq<Inode>,
                     i: nat)
    requires Inodes(i0) && Inodes(i1) && Inodes(i2) && i < |i0| && SlotsGrow(b0, i0, b1, i1)
    requires SlotsGrow(b1, i1, b2, i2)
    ensures Through(b0, i0, b2, i2, i) == Through(b0, i0, b1, i1, i) + Through(b1, i1, b2, i2, i)
  {
    if t :| NDIRECT <= t <= INDIRECT && Slot(b0, i0, i, t) == 0 && Slot(b1, i1, i, t) != 0 {
      assert Slot(b1, i1, i, INDIRECT) == i1[i].addrs[NDIRECT] != 0;
      assert Slot(b2, i2, i, INDIRECT) == i1[i].addrs[NDIRECT] && Slot(b2, i2, i, t) != 0;
    }
    if t :| NDIRECT <= t <= INDIRECT && Slot(b1, i1, i, t) == 0 && Slot(b2, i2, i, t) != 0 {
      assert Slot(b0, i0, i, t) == 0;
    }
    if t :| NDIRECT <= t <= INDIRECT && Slot(b0, i0, i, t) == 0 && Slot(b2, i2, i, t) != 0 {
      assert Slot(b1, i1, i, t) == 0 || Slot(b1, i1, i, t) != 0;
    }
  }

  lemma GainTrans(sb: Super, b0: seq<Block>, i0: seq<Inode>, b1: seq<Block>, i1: seq<Inode>, b2: seq<Block>,
                  i2: seq<Inode>, i: nat)
    requires Inodes(i0) && Inodes(i1) && Inodes(i2) && i < |i0| == |i1| == |i2| && SlotsGrow(b0, i0, b1, i1)
    requires SlotsGrow(b1, i1, b2, i2)
    requires MapGrows(sb, b0, i0, b1, i1, i) && MapGrows(sb, b1, i1, b2, i2, i)
    ensures MapGrows(sb, b0, i0, b2, i2, i)
    ensures AllocLog(sb, b0, i0, b2, i2, i) == AllocLog(sb, b0, i0, b1, i1, i) + AllocLog(sb, b1, i1, b2, i2, i)
  {
    hide Slot, Used, Gained, Through, SlotsGrow;
    GainedTrans(b0, i0, b1, i1, b2, i2, i);
    ThroughTrans(b0, i0, b1, i1, b2, i2, i);
    var g, h := Gained(b0, i0, b1, i1, i), Gained(b1, i1, b2, i2, i);
    assert MapOf(sb, g + h) == MapOf(sb, g) + MapOf(sb, h);
  }

  lemma GainsTrans(b0: seq<Block>, i0: seq<Inode>, b1: seq<Block>, i1: seq<Inode>, b2: seq<Block>, i2: seq<Inode>,
                   i: nat, lo: nat, mid: nat, lo2: nat, hi: nat)
    requires Inodes(i0) && Inodes(i1) && Inodes(i2) && i < |i0| && SlotsGrow(b0, i0, b1, i1)
    requires SlotsGrow(b1, i1, b2, i2)
    requires GainsAt(b0, i0, b1, i1, i, lo, mid) && GainsAt(b1, i1, b2, i2, i, lo2, hi) && lo <= lo2 && mid <= hi
    ensures GainsAt(b0, i0, b2, i2, i, lo, hi)
  {
    hide Slot;
    forall t {:trigger Slot(b2, i2, i, t)} | 0 <= t <= INDIRECT && Slot(b0, i0, i, t) == 0 && Slot(b2, i2, i, t) != 0
      ensures lo <= t < hi || t == INDIRECT
    {
      assert Slot(b1, i1, i, t) == 0 || Slot(b1, i1, i, t) != 0;
    }
  }

  lemma GainsWider(b0: seq<Block>, i0: seq<Inode>, blocks: seq<Block>, ino: seq<Inode>, i: nat, lo: nat, hi: nat,
                   lo': nat, hi': nat)
    requires Inodes(i0) && Inodes(ino) && i < |i0| && i < |ino| && GainsAt(b0, i0, blocks, ino, i, lo, hi)
    requires lo >= hi || (lo' <= lo && hi <= hi')
    ensures GainsAt(b0, i0, blocks, ino, i, lo', hi')
  {
    hide Slot;
  }

  /** Overwriting a data block changes no slot and no bit. */
  lemma GainsSame(sb: Super, b0: seq<Block>, i0: seq<Inode>, blocks: seq<Block>, ino: seq<Inode>, i: nat, b: nat,
                  data: Block, bn: nat)
    requires Inodes(i0) && Inodes(ino) && i < |i0| && i < |ino| && sb.datastart <= b < |blocks|
    requires MapGrows(sb, b0, i0, blocks, ino, i) && GainsAt(b0, i0, blocks, ino, i, bn, bn + 1)
    requires forall j, t {:trigger Slot(blocks[b := data], ino, j, t)} :: 0 <= j < |ino| && 0 <= t <= INDIRECT ==>
               Slot(blocks[b := data], ino, j, t) == Slot(blocks, ino, j, t)
    ensures MapGrows(sb, b0, i0, blocks[b := data], ino, i) && GainsAt(b0, i0, blocks[b := data], ino, i, bn, bn + 1)
    ensures AllocLog(sb, b0, i0, blocks[b := data], ino, i) == AllocLog(sb, b0, i0, blocks, ino, i)
  {
    hide Slot, Bit, MapOf;
    var r := blocks[b := data];
    assert forall t :: 0 <= t <= INDIRECT ==> Slot(r, ino, i, t) == Slot(blocks, ino, i, t);
    assert Gained(b0, i0, r, ino, i) == Gained(b0, i0, blocks, ino, i);
    forall c: nat | c < sb.size ensures Used(sb, r, c) == Used(sb, blocks, c) {
      BitmapBlockIsMeta(sb, |blocks|, c);
    }
    SameThrough(b0, i0, blocks, r, ino, i);
  }

  lemma SameThrough(b0: seq<Block>, i0: seq<Inode>, blocks: seq<Block>, r: seq<Block>, ino: seq<Inode>, i: nat)
    requires Inodes(i0) && Inodes(ino) && i < |i0| && i < |ino|
    requires forall t :: 0 <= t <= INDIRECT ==> Slot(r, ino, i, t) == Slot(blocks, ino, i, t)
    ensures Through(b0, i0, r, ino, i) == Through(b0, i0, blocks, ino, i)
  {
    hide Slot;
    if t :| NDIRECT <= t <= INDIRECT && Slot(b0, i0, i, t) == 0 && Slot(blocks, ino, i, t) != 0 {
      assert Slot(r, ino, i, t) != 0;
    }
    if t :| NDIRECT <= t <= INDIRECT && Slot(b0, i0, i, t) == 0 && Slot(r, ino, i, t) != 0 {
      assert Slot(blocks, ino, i, t) != 0;
    }
  }

  /** The data blocks of file blocks lo to hi - 1. */
  ghost function DataIn(blocks: seq<Block>, ino: seq<Inode>, i: nat, lo: nat, hi: nat): (s: set<nat>)
    requires Inodes(ino) && i < |ino| && hi <= MAXFILE
  {
    set t | lo <= t < hi :: Slot(blocks, ino, i, t)
  }

  /** One past the last file block that n bytes at off meet. */
  function EndBlock(off: nat, n: nat): (e: nat)
    ensures e >= off / BSIZE && (off + n <= MAXFILE * BSIZE && off < MAXFILE * BSIZE ==> e <= MAXFILE)
  {
    if n == 0 then off / BSIZE else (off + n - 1) / BSIZE + 1
  }

  lemma OneMoreBlock(b1: seq<Block>, i1: seq<Inode>, b2: seq<Block>, i2: seq<Inode>, i: nat, lo: nat, hi: nat, bn: nat)
    requires Inodes(i1) && Inodes(i2) && i < |i1| && SlotsGrow(b1, i1, b2, i2) && lo <= hi == bn < MAXFILE
    requires forall t {:trigger Slot(b1, i1, i, t)} :: lo <= t < hi ==> Slot(b1, i1, i, t) != 0
    ensures DataIn(b2, i2, i, lo, bn + 1) == DataIn(b1, i1, i, lo, hi) + {Slot(b2, i2, i, bn)}
  {
    hide Slot;
    forall t | lo <= t < hi ensures Slot(b2, i2, i, t) == Slot(b1, i1, i, t) {
      assert Slot(b1, i1, i, t) != 0;
    }
  }

  /** The loop of writei after tot bytes. */
  ghost predicate Progress(sb: Super, blocks0: seq<Block>, ino0: seq<Inode>, logged0: set<nat>, blocks: seq<Block>,
                           ino: seq<Inode>, logged: set<nat>, i: nat, off: nat, src: seq<Byte>, tot: nat)
    requires Inodes(ino0) && Inodes(ino)
  {
    && tot <= |src| && SameMeta(sb, blocks0, blocks) && i < |ino| == |ino0|
    && ino == ino0[i := ino[i]] && ino[i].size == ino0[i].size && (off + |src| <= ino0[i].size ==> ino == ino0)
    && SlotsGrow(blocks0, ino0, blocks, ino) && Written(blocks0, ino0, blocks, ino, i, off, src[..tot])
    && Covered(blocks, ino, i, off, off + tot) && MapGrows(sb, blocks0, ino0, blocks, ino, i)
    && GainsAt(blocks0, ino0, blocks, ino, i, off / BSIZE, EndBlock(off, tot))
    && (tot == 0 || tot == |src| || (off + tot) % BSIZE == 0) && EndBlock(off, tot) <= MAXFILE
    && logged == logged0 + DataIn(blocks, ino, i, off / BSIZE, EndBlock(off, tot))
                 + AllocLog(sb, blocks0, ino0, blocks, ino, i)
  }

  /** What the loop leaves when it runs out of blocks. */
  ghost predicate Stopped(sb: Super, blocks0: seq<Block>, ino0: seq<Inode>, blocks: seq<Block>, ino: seq<Inode>,
                          i: nat, off: nat, src: seq<Byte>)
    requires Inodes(ino0) && Inodes(ino)
  {
    && |blocks| == |blocks0| && SameMeta(sb, blocks0, blocks)
    && i < |ino| == |ino0| && ino == ino0[i := ino[i]] && ino[i].size == ino0[i].size && off + |src| > ino0[i].size
    && SlotsGrow(blocks0, ino0, blocks, ino) && MapGrows(sb, blocks0, ino0, blocks, ino, i)
    && GainsAt(blocks0, ino0, blocks, ino, i, off / BSIZE, EndBlock(off, |src|))
    && Lacks(blocks, ino, i, off / BSIZE, EndBlock(off, |src|))
    && forall j :: 0 <= j < |ino| && j != i ==> SameBytes(blocks0, ino0, blocks, ino, j)
  }

  /** Some file block from lo to hi - 1 has no block. */
  ghost predicate Lacks(blocks: seq<Block>, ino: seq<Inode>, i: nat, lo: nat, hi: nat)
    requires Inodes(ino) && i < |ino|
  {
    exists t {:trigger Slot(blocks, ino, i, t)} :: lo <= t < hi && t < MAXFILE && Slot(blocks, ino, i, t) == 0
  }

  lemma LacksThis(blocks: seq<Block>, ino: seq<Inode>, i: nat, lo: nat, hi: nat, t: nat)
    requires Inodes(ino) && i < |ino| && lo <= t < hi && t < MAXFILE && Slot(blocks, ino, i, t) == 0
    ensures Lacks(blocks, ino, i, lo, hi)
  {
  }

  lemma ProgressFacts(sb: Super, blocks0: seq<Block>, ino0: seq<Inode>, logged0: set<nat>, blocks: seq<Block>,
                      ino: seq<Inode>, logged: set<nat>, i: nat, off: nat, src: seq<Byte>, tot: nat)
    requires Inodes(ino0) && Inodes(ino)
    requires Progress(sb, blocks0, ino0, logged0, blocks, ino, logged, i, off, src, tot)
    ensures tot <= |src| && SameMeta(sb, blocks0, blocks) && i < |ino| == |ino0|
            && ino == ino0[i := ino[i]] && ino[i].size == ino0[i].size && (off + |src| <= ino0[i].size ==> ino == ino0)
            && SlotsGrow(blocks0, ino0, blocks, ino) && Written(blocks0, ino0, blocks, ino, i, off, src[..tot])
            && Covered(blocks, ino, i, off, off + tot) && MapGrows(sb, blocks0, ino0, blocks, ino, i)
            && GainsAt(blocks0, ino0, blocks, ino, i, off / BSIZE, EndBlock(off, tot))
            && (tot == 0 || tot == |src| || (off + tot) % BSIZE == 0) && EndBlock(off, tot) <= MAXFILE
  {
    hide SlotsGrow, Written, Covered, SameMeta, MapGrows, GainsAt, EndBlock;
  }

  lemma OneInode(ino0: seq<Inode>, ino1: seq<Inode>, ino: seq<Inode>, i: nat)
    requires i < |ino0| == |ino1| == |ino| && ino1 == ino0[i := ino1[i]] && ino == ino1[i := ino[i]]
    ensures ino == ino0[i := ino[i]]
  {
  }

  lemma TurnMade(sb: Super, blocks0: seq<Block>, ino0: seq<Inode>, logged0: set<nat>, blocks1: seq<Block>,
                 ino1: seq<Inode>, logged1: set<nat>, blocks: seq<Block>, ino: seq<Inode>, logged: set<nat>, i: nat,
                 off: nat, src: seq<Byte>, tot: nat, m: nat)
    requires Inodes(ino0) && Inodes(ino1) && Inodes(ino) && tot + m <= |src|
    requires Progress(sb, blocks0, ino0, logged0, blocks1, ino1, logged1, i, off, src, tot)
    requires i < |ino| == |ino0| && ino == ino0[i := ino[i]] && ino[i].size == ino1[i].size
    requires ino == ino1 || ino0[i].size < off + |src|
    requires SameMeta(sb, blocks0, blocks) && SlotsGrow(blocks0, ino0, blocks, ino)
    requires Written(blocks1, ino1, blocks, ino, i, off + tot, src[tot..tot + m])
    requires Covered(blocks, ino, i, off, off + tot + m) && MapGrows(sb, blocks0, ino0, blocks, ino, i)
    requires var bn := (off + tot) / BSIZE;
             && EndBlock(off, tot) == bn < MAXFILE && EndBlock(off, tot + m) == bn + 1
             && GainsAt(blocks0, ino0, blocks, ino, i, off / BSIZE, bn + 1)
             && logged == logged1 + {Slot(blocks, ino, i, bn)} + AllocLog(sb, blocks1, ino1, blocks, ino, i)
             && DataIn(blocks, ino, i, off / BSIZE, bn + 1) ==
                DataIn(blocks1, ino1, i, off / BSIZE, bn) + {Slot(blocks, ino, i, bn)}
    requires AllocLog(sb, blocks0, ino0, blocks, ino, i) ==
               AllocLog(sb, blocks0, ino0, blocks1, ino1, i) + AllocLog(sb, blocks1, ino1, blocks, ino, i)
    requires tot + m == |src| || (off + tot + m) % BSIZE == 0
    ensures Progress(sb, blocks0, ino0, logged0, blocks, ino, logged, i, off, src, tot + m)
  {
    hide SlotsGrow, Written, Covered, SameMeta, MapGrows, GainsAt, EndBlock, DataIn, AllocLog, Slot;
    WrittenTrans(blocks0, ino0, blocks1, ino1, blocks, ino, i, off, src, tot, m);
  }

  lemma NoProgress(sb: Super, blocks: seq<Block>, ino: seq<Inode>, owner: Owners, logged: set<nat>, i: nat, off: nat,
                   src: seq<Byte>)
    requires Wf(sb, blocks, ino, owner) && Inodes(ino) && i < |ino| && off <= ino[i].size && off <= MAXFILE * BSIZE
    ensures Progress(sb, blocks, ino, logged, blocks, ino, logged, i, off, src, 0)
  {
    hide Wf, Written, SlotsGrow, Covered, MapGrows, GainsAt, AllocLog, Slot;
    WfInodes(sb, blocks, ino, owner);
    WriteNothing(sb, blocks, ino, owner, i, off);
    UnalignedIsAllocated(sb, blocks, ino, owner, i, off);
    GainNone(sb, blocks, ino, i);
    assert DataIn(blocks, ino, i, off / BSIZE, off / BSIZE) == {};
    assert src[..0] == [];
  }

  lemma Concluded(sb: Super, blocks0: seq<Block>, ino0: seq<Inode>, logged0: set<nat>, blocks: seq<Block>,
                 ino: seq<Inode>, logged: set<nat>, i: nat, off: nat, src: seq<Byte>, tot: nat)
    requires Inodes(ino0) && Inodes(ino) && tot == |src|
    requires Progress(sb, blocks0, ino0, logged0, blocks, ino, logged, i, off, src, tot)
    ensures |blocks| == |blocks0| && SameMeta(sb, blocks0, blocks) && i < |ino| == |ino0| && ino == ino0[i := ino[i]]
    ensures ino[i].size == ino0[i].size && (off + |src| <= ino0[i].size ==> ino == ino0)
    ensures SlotsGrow(blocks0, ino0, blocks, ino) && Written(blocks0, ino0, blocks, ino, i, off, src)
    ensures Covered(blocks, ino, i, off, off + |src|) && MapGrows(sb, blocks0, ino0, blocks, ino, i)
    ensures GainsAt(blocks0, ino0, blocks, ino, i, off / BSIZE, EndBlock(off, |src|)) && EndBlock(off, |src|) <= MAXFILE
    ensures forall j :: 0 <= j < |ino| && j != i ==> SameBytes(blocks0, ino0, blocks, ino, j)
    ensures logged == logged0 + DataIn(blocks, ino, i, off / BSIZE, EndBlock(off, |src|))
                      + AllocLog(sb, blocks0, ino0, blocks, ino, i)
  {
    hide Written, SlotsGrow, Covered, SameBytes, MapGrows, GainsAt, DataIn, AllocLog, EndBlock;
    assert src[..tot] == src;
    OthersWritten(blocks0, ino0, blocks, ino, i, off, src);
  }

  lemma InSameBitmapBlock(sb: Super, b: nat, bi: nat)
    requires b % BPB == 0 && bi < BPB
    ensures BitmapBlock(sb, b + bi) == b / BPB + sb.bmapstart && (b + bi) % BPB == bi
  {
  }

  lemma FilesAreFiles(sb: Super, blocks: seq<Block>, ino: seq<Inode>, owner: Owners)
    requires Wf(sb, blocks, ino, owner)
    ensures SameFiles(blocks, ino, blocks, ino) && SameMeta(sb, blocks, blocks)
  {
  }

  lemma SameFilesTrans(b0: seq<Block>, i0: seq<Inode>, b1: seq<Block>, i1: seq<Inode>, b2: seq<Block>, i2: seq<Inode>)
    requires Inodes(i0) && Inodes(i1) && Inodes(i2) && SameFiles(b0, i0, b1, i1) && SameFiles(b1, i1, b2, i2)
    ensures SameFiles(b0, i0, b2, i2)
  {
    forall j, bn {:trigger FileBlock(b2, i2, j, bn)} | 0 <= j < |i0| && 0 <= bn < MAXFILE
      ensures FileBlock(b2, i2, j, bn) == FileBlock(b0, i0, j, bn)
    {
      assert FileBlock(b1, i1, j, bn) == FileBlock(b0, i0, j, bn);
    }
  }

  /** A slot that has a block keeps it. */
  ghost predicate SlotsGrow(blocks: seq<Block>, ino: seq<Inode>, blocks': seq<Block>, ino': seq<Inode>)
    requires Inodes(ino) && Inodes(ino')
  {
    && |ino| == |ino'|
    && forall j, t {:trigger Slot(blocks', ino', j, t)} ::
         0 <= j < |ino| && 0 <= t <= INDIRECT && Slot(blocks, ino, j, t) != 0 ==>
         Slot(blocks', ino', j, t) == Slot(blocks, ino, j, t)
  }

  lemma WfInodes(sb: Super, blocks: seq<Block>, ino: seq<Inode>, owner: Owners)
    requires Wf(sb, blocks, ino, owner)
    ensures Layout(sb, |blocks|) && Inodes(ino)
    ensures forall i :: 0 <= i < |ino| && ino[i].addrs[NDIRECT] != 0 ==> ino[i].addrs[NDIRECT] < |blocks|
  {
    forall i | 0 <= i < |ino| && ino[i].addrs[NDIRECT] != 0 ensures ino[i].addrs[NDIRECT] < |blocks| {
      assert Slot(blocks, ino, i, INDIRECT) == ino[i].addrs[NDIRECT];
    }
  }

  lemma SlotsGrowTrans(b0: seq<Block>, i0: seq<Inode>, b1: seq<Block>, i1: seq<Inode>, b2: seq<Block>, i2: seq<Inode>)
    requires Inodes(i0) && Inodes(i1) && Inodes(i2) && SlotsGrow(b0, i0, b1, i1) && SlotsGrow(b1, i1, b2, i2)
    ensures SlotsGrow(b0, i0, b2, i2)
  {
    forall j, t {:trigger Slot(b2, i2, j, t)} | 0 <= j < |i0| && 0 <= t <= INDIRECT && Slot(b0, i0, j, t) != 0
      ensures Slot(b2, i2, j, t) == Slot(b0, i0, j, t)
    {
      assert Slot(b1, i1, j, t) == Slot(b0, i0, j, t);
    }
  }

  ghost predicate WfInode(n: Inode) { |n.addrs| == NDIRECT + 1 && n.size <= MAXFILE * BSIZE }

  lemma NoHoleAt(sb: Super, blocks: seq<Block>, ino: seq<Inode>, owner: Owners, i: nat, o: nat)
    requires Wf(sb, blocks, ino, owner) && i < |ino| && o < ino[i].size
    ensures o / BSIZE < MAXFILE && Slot(blocks, ino, i, o / BSIZE) != 0 && Slot(blocks, ino, i, o / BSIZE) < |blocks|
    ensures FileBlock(blocks, ino, i, o / BSIZE) == blocks[Slot(blocks, ino, i, o / BSIZE)]
  {
  }

  /** A stretch of the file inside one block is a stretch of that block. */
  lemma ChunkOfContents(blocks: seq<Block>, ino: seq<Inode>, i: nat, o: nat, m: nat)
    requires i < |ino| && WfInode(ino[i]) && o + m <= ino[i].size && o % BSIZE + m <= BSIZE && o < ino[i].size
    ensures Contents(blocks, ino, i)[o..o + m] == FileBlock(blocks, ino, i, o / BSIZE).bytes[o % BSIZE..o % BSIZE + m]
  {
    var c := Contents(blocks, ino, i);
    forall k | o <= k < o + m ensures c[k] == FileBlock(blocks, ino, i, o / BSIZE).bytes[k - o + o % BSIZE] {
      assert k / BSIZE == o / BSIZE && k % BSIZE == o % BSIZE + (k - o);
    }
  }

  /** Byte k of file i, whether or not k is below its size. */
  ghost function ByteAt(blocks: seq<Block>, ino: seq<Inode>, i: nat, k: nat): (b: Byte)
    requires i < |ino| && |ino[i].addrs| == NDIRECT + 1 && k < MAXFILE * BSIZE
  {
    FileBlock(blocks, ino, i, k / BSIZE).bytes[k % BSIZE]
  }

  /** Bytes [o, o + |src|) of file i are now src; every other byte of every file is what it was. */
  ghost predicate Written(blocks: seq<Block>, ino: seq<Inode>, blocks': seq<Block>, ino': seq<Inode>, i: nat, o: nat,
                          src: seq<Byte>)
    requires Inodes(ino) && Inodes(ino')
  {
    && |ino'| == |ino|
    && forall j, k {:trigger ByteAt(blocks', ino', j, k)} :: 0 <= j < |ino| && 0 <= k < MAXFILE * BSIZE ==>
         ByteAt(blocks', ino', j, k) == if j == i && o <= k < o + |src| then src[k - o] else ByteAt(blocks, ino, j, k)
  }

  lemma SlotInRange(sb: Super, blocks: seq<Block>, ino: seq<Inode>, owner: Owners, i: nat, s: nat)
    requires Wf(sb, blocks, ino, owner) && i < |ino| && s <= INDIRECT && Slot(blocks, ino, i, s) != 0
    ensures Slot(blocks, ino, i, s) < |blocks|
  {
  }

  lemma SlotsSame(b0: seq<Block>, i0: seq<Inode>, blocks: seq<Block>, ino: seq<Inode>, r: seq<Block>)
    requires Inodes(i0) && Inodes(ino) && SlotsGrow(b0, i0, blocks, ino)
    requires forall j, t {:trigger Slot(r, ino, j, t)} :: 0 <= j < |ino| && 0 <= t <= INDIRECT ==>
               Slot(r, ino, j, t) == Slot(blocks, ino, j, t)
    ensures SlotsGrow(b0, i0, r, ino)
  {
    forall j, t {:trigger Slot(r, ino, j, t)} | 0 <= j < |ino| && 0 <= t <= INDIRECT && Slot(b0, i0, j, t) != 0
      ensures Slot(r, ino, j, t) == Slot(b0, i0, j, t)
    {
      assert Slot(blocks, ino, j, t) == Slot(b0, i0, j, t);
    }
  }

  /** Rewriting part of one block, seen byte by byte. */
  lemma ChunkWritten(b0: seq<Block>, i0: seq<Inode>, blocks: seq<Block>, ino: seq<Inode>, i: nat, o: nat,
                     src: seq<Byte>, r: seq<Block>)
    requires Inodes(i0) && Inodes(ino) && SameFiles(b0, i0, blocks, ino) && i < |ino|
    requires o % BSIZE + |src| <= BSIZE && o / BSIZE < MAXFILE
    requires forall j, t {:trigger FileBlock(r, ino, j, t)} :: 0 <= j < |ino| && 0 <= t < MAXFILE ==>
               FileBlock(r, ino, j, t) == if j == i && t == o / BSIZE
                 then Block(FileBlock(blocks, ino, i, t).bytes[..o % BSIZE] + src
                            + FileBlock(blocks, ino, i, t).bytes[o % BSIZE + |src|..])
                 else FileBlock(blocks, ino, j, t)
    ensures Written(b0, i0, r, ino, i, o, src)
  {
    forall j, k {:trigger ByteAt(r, ino, j, k)} | 0 <= j < |i0| && 0 <= k < MAXFILE * BSIZE
      ensures ByteAt(r, ino, j, k) == if j == i && o <= k < o + |src| then src[k - o] else ByteAt(b0, i0, j, k)
    {
      assert FileBlock(blocks, ino, j, k / BSIZE) == FileBlock(b0, i0, j, k / BSIZE);
      if j == i && k / BSIZE == o / BSIZE {
        assert o <= k < o + |src| <==> o % BSIZE <= k % BSIZE < o % BSIZE + |src|;
      }
    }
  }

  ghost predicate SameBytes(blocks: seq<Block>, ino: seq<Inode>, blocks': seq<Block>, ino': seq<Inode>, j: nat)
    requires Inodes(ino) && Inodes(ino')
  {
    && j < |ino| == |ino'|
    && forall k {:trigger ByteAt(blocks', ino', j, k)} :: 0 <= k < MAXFILE * BSIZE ==>
         ByteAt(blocks', ino', j, k) == ByteAt(blocks, ino, j, k)
  }

  lemma WriteNothing(sb: Super, blocks: seq<Block>, ino: seq<Inode>, owner: Owners, i: nat, off: nat)
    requires Wf(sb, blocks, ino, owner)
    ensures Written(blocks, ino, blocks, ino, i, off, []) && SlotsGrow(blocks, ino, blocks, ino)
  {
  }

  /** A write that starts inside a block finds that block allocated, for a file has no holes. */
  lemma UnalignedIsAllocated(sb: Super, blocks: seq<Block>, ino: seq<Inode>, owner: Owners, i: nat, off: nat)
    requires Wf(sb, blocks, ino, owner) && i < |ino| && off <= ino[i].size && off <= MAXFILE * BSIZE
    ensures off % BSIZE != 0 ==> Slot(blocks, ino, i, off / BSIZE) != 0
    ensures Covered(blocks, ino, i, off, off)
  {
  }

  lemma WrittenTrans(b0: seq<Block>, i0: seq<Inode>, b1: seq<Block>, i1: seq<Inode>, b2: seq<Block>, i2: seq<Inode>,
                     i: nat, off: nat, src: seq<Byte>, tot: nat, m: nat)
    requires Inodes(i0) && Inodes(i1) && Inodes(i2) && tot + m <= |src|
    requires Written(b0, i0, b1, i1, i, off, src[..tot]) && Written(b1, i1, b2, i2, i, off + tot, src[tot..tot + m])
    ensures Written(b0, i0, b2, i2, i, off, src[..tot + m])
  {
    forall j, k {:trigger ByteAt(b2, i2, j, k)} | 0 <= j < |i0| && 0 <= k < MAXFILE * BSIZE
      ensures ByteAt(b2, i2, j, k) == if j == i && off <= k < off + (tot + m) then src[..tot + m][k - off]
                                      else ByteAt(b0, i0, j, k)
    {
      assert ByteAt(b1, i1, j, k) == if j == i && off <= k < off + tot then src[..tot][k - off]
                                     else ByteAt(b0, i0, j, k);
    }
  }

  lemma OthersWritten(b0: seq<Block>, i0: seq<Inode>, b1: seq<Block>, i1: seq<Inode>, i: nat, off: nat, src: seq<Byte>)
    requires Inodes(i0) && Inodes(i1) && Written(b0, i0, b1, i1, i, off, src)
    ensures forall j :: 0 <= j < |i0| && j != i ==> SameBytes(b0, i0, b1, i1, j)
  {
  }

  lemma OthersKept(b0: seq<Block>, i0: seq<Inode>, b1: seq<Block>, i1: seq<Inode>, b2: seq<Block>, i2: seq<Inode>,
                   i: nat, off: nat, src: seq<Byte>)
    requires Inodes(i0) && Inodes(i1) && Inodes(i2) && Written(b0, i0, b1, i1, i, off, src) && SameFiles(b1, i1, b2, i2)
    ensures forall j :: 0 <= j < |i0| && j != i ==> SameBytes(b0, i0, b2, i2, j)
  {
    forall j, k {:trigger ByteAt(b2, i2, j, k)} | 0 <= j < |i0| && 0 <= k < MAXFILE * BSIZE && j != i
      ensures ByteAt(b2, i2, j, k) == ByteAt(b0, i0, j, k)
    {
      assert FileBlock(b2, i2, j, k / BSIZE) == FileBlock(b1, i1, j, k / BSIZE);
      assert ByteAt(b1, i1, j, k) == ByteAt(b0, i0, j, k);
    }
  }

  /** Every file block that meets [off, o) is allocated. */
  ghost predicate Covered(blocks: seq<Block>, ino: seq<Inode>, i: nat, off: nat, o: nat)
    requires Inodes(ino)
  {
    i < |ino| && o <= MAXFILE * BSIZE &&
    forall bn {:trigger Slot(blocks, ino, i, bn)} :: off / BSIZE <= bn && bn * BSIZE < o ==>
      Slot(blocks, ino, i, bn) != 0
  }

  lemma CoveredSlots(blocks: seq<Block>, ino: seq<Inode>, i: nat, off: nat, o: nat)
    requires Inodes(ino) && Covered(blocks, ino, i, off, o)
    ensures forall t {:trigger Slot(blocks, ino, i, t)} :: off / BSIZE <= t < o / BSIZE ==> Slot(blocks, ino, i, t) != 0
  {
    hide Slot;
    forall t | off / BSIZE <= t < o / BSIZE ensures Slot(blocks, ino, i, t) != 0 {
      assert t * BSIZE < o;
    }
  }

  lemma GrownSlots(b1: seq<Block>, i1: seq<Inode>, b2: seq<Block>, i2: seq<Inode>, i: nat, off: nat, o: nat, m: nat)
    requires Inodes(i1) && Inodes(i2) && SlotsGrow(b1, i1, b2, i2) && i < |i1| && off <= o && 0 < m
    requires o % BSIZE + m <= BSIZE
    requires o + m <= MAXFILE * BSIZE && Slot(b2, i2, i, o / BSIZE) != 0
    requires Covered(b1, i1, i, off, o)
    ensures Covered(b2, i2, i, off, o + m)
  {
    forall bn | off / BSIZE <= bn && bn * BSIZE < o + m ensures Slot(b2, i2, i, bn) != 0 {
      if bn != o / BSIZE {
        assert Slot(b1, i1, i, bn) != 0;
        assert Slot(b2, i2, i, bn) == Slot(b1, i1, i, bn);
      }
    }
  }

  lemma Quotient(x: nat, q: nat, r: nat)
    requires x == BSIZE * q + r && r < BSIZE
    ensures x / BSIZE == q && x % BSIZE == r
  {
  }

  lemma TurnStep(off: nat, tot: nat, n: nat, m: nat)
    requires tot < n && (tot == 0 || (off + tot) % BSIZE == 0)
    requires m == var o := off + tot; if n - tot < BSIZE - o % BSIZE then n - tot else BSIZE - o % BSIZE
    ensures 0 < m <= n - tot && (off + tot) % BSIZE + m <= BSIZE && (tot + m == n || (off + tot + m) % BSIZE == 0)
    ensures EndBlock(off, tot) == (off + tot) / BSIZE && EndBlock(off, tot + m) == (off + tot) / BSIZE + 1
    ensures off / BSIZE <= (off + tot) / BSIZE < EndBlock(off, n)
  {
    var o := off + tot;
    var q, r := o / BSIZE, o % BSIZE;
    Quotient(o + m - 1, q, r + m - 1);
    if tot > 0 { Quotient(o - 1, q - 1, BSIZE - 1); }
    if r + m == BSIZE { Quotient(o + m, q + 1, 0); }
    assert off + n - 1 >= o;
  }

  lemma UnionSize(a: set<nat>, b: set<nat>)
    ensures |a + b| <= |a| + |b|
  {
    assert a + b == a + (b - a);
    assert |b| == |b - a| + |b * a| by { assert b == (b - a) + (b * a); }
  }

  /** Sequence c with src written at off, growing c if it ends past it. */
  ghost function Splice(c: seq<Byte>, off: nat, src: seq<Byte>): (r: seq<Byte>)
    requires off <= |c|
  {
    c[..off] + src + if off + |src| < |c| then c[off + |src|..] else []
  }

  lemma NothingWritten(blocks: seq<Block>, ino: seq<Inode>)
    requires Inodes(ino)
    ensures forall j :: 0 <= j < |ino| ==> SameBytes(blocks, ino, blocks, ino, j)
  {
  }

  /** The contents after a write, read with the size that writei then sets. */
  lemma ContentsWritten(b0: seq<Block>, i0: seq<Inode>, blocks: seq<Block>, ino: seq<Inode>, i: nat, off: nat,
                        src: seq<Byte>)
    requires Inodes(i0) && Inodes(ino) && i < |i0| && Written(b0, i0, blocks, ino, i, off, src)
    requires off <= i0[i].size == ino[i].size && off + |src| <= MAXFILE * BSIZE
    ensures var size := if |src| > 0 && off + |src| > i0[i].size then off + |src| else i0[i].size;
            Contents(blocks, ino[i := ino[i].(size := size)], i) == Splice(Contents(b0, i0, i), off, src)
  {
    var size := if |src| > 0 && off + |src| > i0[i].size then off + |src| else i0[i].size;
    var ino' := ino[i := ino[i].(size := size)];
    var c, w := Contents(blocks, ino', i), Splice(Contents(b0, i0, i), off, src);
    assert |c| == |w|;
    SizeOnly(blocks, ino, ino', i);
    forall k | 0 <= k < size ensures c[k] == w[k] {
      assert c[k] == ByteAt(blocks, ino', i, k) == ByteAt(blocks, ino, i, k);
      if off <= k < off + |src| {
        assert w[k] == src[k - off];
      } else {
        assert w[k] == Contents(b0, i0, i)[k] == ByteAt(b0, i0, i, k);
      }
    }
  }

  /** Raising the size of a file over blocks that are all allocated. */
  lemma GrowFile(sb: Super, b0: seq<Block>, i0: seq<Inode>, o0: Owners, blocks: seq<Block>, ino: seq<Inode>,
                 owner: Owners, i: nat, off: nat, size: nat)
    requires Wf(sb, b0, i0, o0) && Wf(sb, blocks, ino, owner) && i < |i0| == |ino|
    requires SlotsGrow(b0, i0, blocks, ino) && Covered(blocks, ino, i, off, size)
    requires off <= i0[i].size == ino[i].size && size <= MAXFILE * BSIZE
    ensures Wf(sb, blocks, ino[i := ino[i].(size := size)], owner)
  {
    var ino' := ino[i := ino[i].(size := size)];
    SizeOnly(blocks, ino, ino', i);
    forall j, bn {:trigger Slot(blocks, ino', j, bn)} | 0 <= j < |ino| && 0 <= bn < MAXFILE && bn * BSIZE < ino'[j].size
      ensures Slot(blocks, ino', j, bn) != 0
    {
      if j == i && bn * BSIZE >= i0[i].size {
        assert off / BSIZE <= bn;
      } else {
        assert Slot(b0, i0, j, bn) == Slot(b0, i0, j, bn);
        assert Slot(blocks, ino, j, bn) != 0;
      }
    }
  }

  lemma SizeOnly(blocks: seq<Block>, ino: seq<Inode>, ino': seq<Inode>, i: nat)
    requires Inodes(ino) && Inodes(ino') && i < |ino| == |ino'| && ino' == ino[i := ino[i].(size := ino'[i].size)]
    ensures forall j, t {:trigger Slot(blocks, ino', j, t)} :: 0 <= j < |ino| && 0 <= t <= INDIRECT ==>
              Slot(blocks, ino', j, t) == Slot(blocks, ino, j, t)
    ensures forall j, k {:trigger ByteAt(blocks, ino', j, k)} :: 0 <= j < |ino| && 0 <= k < MAXFILE * BSIZE ==>
              ByteAt(blocks, ino', j, k) == ByteAt(blocks, ino, j, k)
  {
    forall j, t {:trigger Slot(blocks, ino', j, t)} | 0 <= j < |ino| && 0 <= t <= INDIRECT
      ensures Slot(blocks, ino', j, t) == Slot(blocks, ino, j, t)
    {
    }
  }

  lemma OthersSized(b0: seq<Block>, i0: seq<Inode>, blocks: seq<Block>, ino: seq<Inode>, ino': seq<Inode>, i: nat)
    requires Inodes(i0) && Inodes(ino) && Inodes(ino') && i < |ino| == |ino'|
    requires ino' == ino[i := ino[i].(size := ino'[i].size)]
    requires forall j :: 0 <= j < |ino| && j != i ==> SameBytes(b0, i0, blocks, ino, j)
    ensures forall j :: 0 <= j < |ino| && j != i ==> SameBytes(b0, i0, blocks, ino', j)
  {
    SizeOnly(blocks, ino, ino', i);
    forall j | 0 <= j < |ino| && j != i ensures SameBytes(b0, i0, blocks, ino', j) {
      assert SameBytes(b0, i0, blocks, ino, j);
      forall k {:trigger ByteAt(blocks, ino', j, k)} | 0 <= k < MAXFILE * BSIZE
        ensures ByteAt(blocks, ino', j, k) == ByteAt(b0, i0, j, k)
      {
        assert ByteAt(blocks, ino', j, k) == ByteAt(blocks, ino, j, k);
      }
    }
  }

  /** The log_write calls of one chunk. Up to the last of them, the update of the inode, they name at most five blocks
      outside the free map (four data blocks and the indirect block), and at most four of it (three data blocks and the
      indirect block can be new). */
  ghost predicate Chunk(sb: Super, ws: seq<Write>)
  {
    ws != [] ==>
      var body := Touched(ws[..|ws| - 1]);
      |body - MapBlocks(sb)| <= 5 && |body| <= 5 + Least(4, NMap(sb))
  }

  /** The most blocks a chunk logs, on a disk with m free-map blocks. */
  function ChunkBudget(m: nat): (n: nat)
    ensures n <= MAXOPBLOCKS && (n < MAXOPBLOCKS <==> m <= 3)
  {
    6 + Least(4, m)
  }

  lemma ChunkSize(sb: Super, ws: seq<Write>)
    requires Chunk(sb, ws)
    ensures |Touched(ws)| <= ChunkBudget(NMap(sb)) && |Touched(ws) - MapBlocks(sb)| <= 6
  {
    hide Touched, MapBlocks;
    if ws == [] {
      NothingTouched();
    } else {
      var m := |ws| - 1;
      assert ws == ws[..m] + [ws[m]];
      TouchedMore(ws[..m], ws[m]);
      UnionSize(Touched(ws[..m]), {ws[m].block});
      var body := Touched(ws[..m]) - MapBlocks(sb);
      UnionSize(body, {ws[m].block});
      SubsetSize(Touched(ws) - MapBlocks(sb), body + {ws[m].block});
    }
  }

  lemma NothingTouched()
    ensures Touched([]) == {}
  {
  }

  lemma {:induction false} ImageSize(blocks: seq<Block>, ino: seq<Inode>, i: nat, lo: nat, hi: nat)
    requires Inodes(ino) && i < |ino| && lo <= hi <= MAXFILE
    ensures |DataIn(blocks, ino, i, lo, hi)| <= hi - lo
    decreases hi
  {
    hide Slot;
    if lo < hi {
      ImageSize(blocks, ino, i, lo, hi - 1);
      assert DataIn(blocks, ino, i, lo, hi) == DataIn(blocks, ino, i, lo, hi - 1) + {Slot(blocks, ino, i, hi - 1)};
    }
  }

  /** Three blocks starting at a boundary can be new, or three of four when the first is already there, and the indirect
      block. */
  lemma GainedSize(b0: seq<Block>, i0: seq<Inode>, blocks: seq<Block>, ino: seq<Inode>, i: nat, lo: nat, hi: nat)
    requires Inodes(i0) && Inodes(ino) && i < |i0| == |ino| && lo <= hi <= MAXFILE
    requires GainsAt(b0, i0, blocks, ino, i, lo, hi)
    ensures |Gained(b0, i0, blocks, ino, i)| <= hi - lo + 1
    ensures lo < hi && Slot(b0, i0, i, lo) != 0 ==> |Gained(b0, i0, blocks, ino, i)| <= hi - lo
  {
    var at := if lo < hi && Slot(b0, i0, i, lo) != 0 then lo + 1 else lo;
    ImageSize(blocks, ino, i, at, hi);
    var most := DataIn(blocks, ino, i, at, hi) + {ino[i].addrs[NDIRECT]};
    forall b | b in Gained(b0, i0, blocks, ino, i) ensures b in most {
      var t :| 0 <= t <= INDIRECT && Slot(b0, i0, i, t) == 0 && Slot(blocks, ino, i, t) != 0
      && Slot(blocks, ino, i, t) == b;
      assert t == INDIRECT || at <= t < hi;
    }
    SubsetSize(Gained(b0, i0, blocks, ino, i), most);
  }

  lemma {:induction false} MapOfSize(sb: Super, s: set<nat>)
    requires forall b :: b in s ==> b < sb.size
    ensures |MapOf(sb, s)| <= |s| && MapOf(sb, s) <= MapBlocks(sb)
    decreases |s|
  {
    hide BitmapBlock;
    if b :| b in s {
      MapOfSize(sb, s - {b});
      BitIsMapped(sb, b);
      assert MapOf(sb, s) == MapOf(sb, s - {b}) + {BitmapBlock(sb, b)};
    }
  }

  /** What the loop of writei logs for a chunk: at most four data blocks and the indirect block, and at most four blocks
      of the free map. */
  lemma LogBudget(sb: Super, b0: seq<Block>, i0: seq<Inode>, blocks: seq<Block>, ino: seq<Inode>, i: nat, off: nat,
                  n: nat, log: set<nat>)
    requires Inodes(i0) && Inodes(ino) && i < |i0| == |ino| && EndBlock(off, n) <= MAXFILE && n <= CHUNK
    requires off % BSIZE != 0 ==> Slot(b0, i0, i, off / BSIZE) != 0
    requires MapGrows(sb, b0, i0, blocks, ino, i) && GainsAt(b0, i0, blocks, ino, i, off / BSIZE, EndBlock(off, n))
    requires log == DataIn(blocks, ino, i, off / BSIZE, EndBlock(off, n)) + AllocLog(sb, b0, i0, blocks, ino, i)
    ensures |log - MapBlocks(sb)| <= 5 && |log| <= 5 + Least(4, NMap(sb))
  {
    hide Slot, Gained, GainsAt, DataIn, Through, MapOf, MapBlocks, EndBlock, Used;
    var lo, hi := off / BSIZE, EndBlock(off, n);
    BlocksMet(off, n);
    ImageSize(blocks, ino, i, lo, hi);
    GainedSize(b0, i0, blocks, ino, i, lo, hi);
    var g := Gained(b0, i0, blocks, ino, i);
    MapOfSize(sb, g);
    ThroughSize(b0, i0, blocks, ino, i);
    var data, ind := DataIn(blocks, ino, i, lo, hi), Through(b0, i0, blocks, ino, i);
    UnionSize(data, ind);
    UnionSize(data + ind, MapOf(sb, g));
    assert log == data + ind + MapOf(sb, g);
    SubsetSize(log - MapBlocks(sb), data + ind);
    SubsetSize(MapOf(sb, g), MapBlocks(sb));
    MapSize(sb);
  }

  /** All that writei logs: the data blocks, what the allocations take, and the inode block if the file grows. */
  ghost function WriteLog(sb: Super, b0: seq<Block>, i0: seq<Inode>, blocks: seq<Block>, ino: seq<Inode>, i: nat,
                          off: nat, n: nat): (s: set<nat>)
    requires Inodes(i0) && Inodes(ino) && i < |i0| && i < |ino| && EndBlock(off, n) <= MAXFILE
  {
    DataIn(blocks, ino, i, off / BSIZE, EndBlock(off, n)) + AllocLog(sb, b0, i0, blocks, ino, i)
    + if n > 0 && off + n > i0[i].size then {InodeBlock(sb, i)} else {}
  }

  lemma WroteLog(sb: Super, b0: seq<Block>, i0: seq<Inode>, b1: seq<Block>, i1: seq<Inode>, blocks: seq<Block>,
                 ino: seq<Inode>, i: nat, off: nat, n: nat, logged0: set<nat>, logged: set<nat>)
    requires Inodes(i0) && Inodes(i1) && Inodes(ino) && i < |i0| && i < |i1| && i < |ino| && EndBlock(off, n) <= MAXFILE
    requires forall t :: 0 <= t <= INDIRECT ==> Slot(blocks, ino, i, t) == Slot(b1, i1, i, t)
    requires logged == logged0 + DataIn(b1, i1, i, off / BSIZE, EndBlock(off, n)) + AllocLog(sb, b0, i0, b1, i1, i)
                       + if n > 0 && off + n > i0[i].size then {InodeBlock(sb, i)} else {}
    ensures logged == logged0 + WriteLog(sb, b0, i0, blocks, ino, i, off, n)
  {
    hide Slot, MapOf, EndBlock, Through;
    assert Gained(b0, i0, blocks, ino, i) == Gained(b0, i0, b1, i1, i);
    IndirectAgrees(b1, i1, blocks, ino, i);
    ThroughAgrees(b0, i0, b1, i1, blocks, ino, i);
    assert DataIn(blocks, ino, i, off / BSIZE, EndBlock(off, n)) == DataIn(b1, i1, i, off / BSIZE, EndBlock(off, n));
  }

  lemma IndirectAgrees(b1: seq<Block>, i1: seq<Inode>, blocks: seq<Block>, ino: seq<Inode>, i: nat)
    requires Inodes(i1) && Inodes(ino) && i < |i1| && i < |ino|
    requires Slot(blocks, ino, i, INDIRECT) == Slot(b1, i1, i, INDIRECT)
    ensures ino[i].addrs[NDIRECT] == i1[i].addrs[NDIRECT]
  {
  }

  lemma ThroughAgrees(b0: seq<Block>, i0: seq<Inode>, b1: seq<Block>, i1: seq<Inode>, blocks: seq<Block>,
                      ino: seq<Inode>, i: nat)
    requires Inodes(i0) && Inodes(i1) && Inodes(ino) && i < |i0| && i < |i1| && i < |ino|
    requires forall t :: 0 <= t <= INDIRECT ==> Slot(blocks, ino, i, t) == Slot(b1, i1, i, t)
    requires ino[i].addrs[NDIRECT] == i1[i].addrs[NDIRECT]
    ensures Through(b0, i0, blocks, ino, i) == Through(b0, i0, b1, i1, i)
  {
    hide Slot;
    if t :| NDIRECT <= t <= INDIRECT && Slot(b0, i0, i, t) == 0 && Slot(b1, i1, i, t) != 0 {
      assert Slot(blocks, ino, i, t) != 0;
    }
    if t :| NDIRECT <= t <= INDIRECT && Slot(b0, i0, i, t) == 0 && Slot(blocks, ino, i, t) != 0 {
      assert Slot(b1, i1, i, t) != 0;
    }
  }

  /** Updating the inode on the disk and its size in memory moves no block. */
  lemma SlotsUnmoved(sb: Super, b0: seq<Block>, i0: seq<Inode>, b1: seq<Block>, i1: seq<Inode>, blocks: seq<Block>,
                     ino: seq<Inode>, i: nat, lo: nat, hi: nat)
    requires Inodes(i0) && Inodes(i1) && Inodes(ino) && i < |i0| == |i1| == |ino| && Layout(sb, |b1|)
    requires Layout(sb, |blocks|)
    requires ino == i1[i := i1[i].(size := ino[i].size)] && SlotsGrow(b1, ino, blocks, ino)
    requires forall t {:trigger Slot(blocks, ino, i, t)} :: 0 <= t <= INDIRECT ==>
               Slot(blocks, ino, i, t) == Slot(b1, ino, i, t)
    requires forall c :: 0 <= c < sb.size ==> Used(sb, blocks, c) == Used(sb, b1, c)
    requires SlotsGrow(b0, i0, b1, i1) && MapGrows(sb, b0, i0, b1, i1, i) && GainsAt(b0, i0, b1, i1, i, lo, hi)
    ensures SlotsGrow(b0, i0, blocks, ino) && MapGrows(sb, b0, i0, blocks, ino, i)
    ensures GainsAt(b0, i0, blocks, ino, i, lo, hi)
    ensures forall t :: 0 <= t <= INDIRECT ==> Slot(blocks, ino, i, t) == Slot(b1, i1, i, t)
  {
    hide Slot, Used;
    SizeOnly(b1, i1, ino, i);
    forall t | 0 <= t <= INDIRECT ensures Slot(blocks, ino, i, t) == Slot(b1, i1, i, t) {
      assert Slot(b1, ino, i, t) == Slot(b1, i1, i, t);
    }
    forall j, t {:trigger Slot(blocks, ino, j, t)} | 0 <= j < |i0| && 0 <= t <= INDIRECT && Slot(b0, i0, j, t) != 0
      ensures Slot(blocks, ino, j, t) == Slot(b0, i0, j, t)
    {
      assert Slot(b1, ino, j, t) == Slot(b1, i1, j, t) == Slot(b0, i0, j, t);
    }
    assert Gained(b0, i0, blocks, ino, i) == Gained(b0, i0, b1, i1, i);
  }

  lemma TracedLog(sb: Super, base: seq<Block>, writes: seq<Write>, blocks: seq<Block>, logged: set<nat>)
    requires Traced(sb, base, writes, blocks, logged)
    ensures logged == Touched(writes)
  {
  }

  lemma IsChunk(sb: Super, b0: seq<Block>, i0: seq<Inode>, b1: seq<Block>, i1: seq<Inode>, i: nat, off: nat, n: nat,
                log: seq<Write>, writes: seq<Write>)
    requires Inodes(i0) && Inodes(i1) && i < |i0| == |i1| && EndBlock(off, n) <= MAXFILE && n <= CHUNK
    requires off % BSIZE != 0 ==> Slot(b0, i0, i, off / BSIZE) != 0
    requires MapGrows(sb, b0, i0, b1, i1, i) && GainsAt(b0, i0, b1, i1, i, off / BSIZE, EndBlock(off, n))
    requires Touched(log) == DataIn(b1, i1, i, off / BSIZE, EndBlock(off, n)) + AllocLog(sb, b0, i0, b1, i1, i)
    requires writes == log || (|writes| == |log| + 1 && writes[..|log|] == log)
    ensures Chunk(sb, writes)
  {
    hide Slot, MapGrows, GainsAt, DataIn, AllocLog, MapBlocks, EndBlock, NMap;
    LogBudget(sb, b0, i0, b1, i1, i, off, n, Touched(log));
    if writes != [] {
      var body := Touched(writes[..|writes| - 1]);
      assert body <= Touched(log);
      SubsetSize(body, Touched(log));
      SubsetSize(body - MapBlocks(sb), Touched(log) - MapBlocks(sb));
    }
  }

  lemma MapSize(sb: Super)
    ensures |MapBlocks(sb)| == NMap(sb)
  {
  }

  lemma ThroughSize(b0: seq<Block>, i0: seq<Inode>, blocks: seq<Block>, ino: seq<Inode>, i: nat)
    requires Inodes(i0) && Inodes(ino) && i < |i0| && i < |ino|
    ensures |Through(b0, i0, blocks, ino, i)| <= 1
  {
  }

  lemma BlocksMet(off: nat, n: nat)
    requires n <= CHUNK
    ensures EndBlock(off, n) - off / BSIZE <= 4
    ensures off % BSIZE == 0 ==> EndBlock(off, n) - off / BSIZE <= 3
    ensures n == 0 ==> EndBlock(off, n) == off / BSIZE
  {
    var q, r := off / BSIZE, off % BSIZE;
    if n > 0 {
      var k := r + n - 1;
      assert off + n - 1 == BSIZE * q + k && k <= BSIZE - 1 + CHUNK - 1;
      assert k < 4 * BSIZE && (r == 0 ==> k < 3 * BSIZE);
      Quotient(off + n - 1, q + k / BSIZE, k % BSIZE);
    }
  }

  /** The disk copy of inode i is n, and those of the others, and the free map, are as they were. */
  ghost predicate OnlyInode(sb: Super, blocks: seq<Block>, blocks': seq<Block>, i: nat, n: Inode, ninodes: nat)
  {
    && |blocks'| == |blocks| && Room(sb, ninodes) && sb.bmapstart <= |blocks| && i < ninodes
    && (forall j: nat {:trigger DiskInode(sb, blocks', j)} :: j < ninodes ==>
          DiskInode(sb, blocks', j) == if j == i then n else DiskInode(sb, blocks, j))
  }

  /** What memory holds of an inode fits in its words. */
  lemma InodeWords(sb: Super, blocks: seq<Block>, ino: seq<Inode>, owner: Owners, i: nat)
    requires Wf(sb, blocks, ino, owner) && i < |ino|
    ensures ino[i].size < UINT_MOD && |ino[i].addrs| == NDIRECT + 1
    ensures forall t :: 0 <= t < |ino[i].addrs| ==> ino[i].addrs[t] < UINT_MOD
  {
    forall t | 0 <= t < |ino[i].addrs| ensures ino[i].addrs[t] < UINT_MOD {
      assert Slot(blocks, ino, i, if t < NDIRECT then t else INDIRECT) == ino[i].addrs[t];
    }
  }

  lemma InodeWritten(sb: Super, blocks: seq<Block>, ino: seq<Inode>, owner: Owners, i: nat, data: Block)
    requires Wf(sb, blocks, ino, owner) && i < |ino| && InodeBlock(sb, i) < |blocks|
    requires ino[i].size < UINT_MOD && |ino[i].addrs| == NDIRECT + 1
    requires forall t :: 0 <= t < |ino[i].addrs| ==> ino[i].addrs[t] < UINT_MOD
    requires data == PutInode(blocks[InodeBlock(sb, i)], i % IPB, ino[i])
    ensures var r := blocks[InodeBlock(sb, i) := data];
            && Wf(sb, r, ino, owner) && SameFiles(blocks, ino, r, ino) && OnlyInode(sb, blocks, r, i, ino[i], |ino|)
            && (forall j :: 0 <= j < |ino| ==> SameBytes(blocks, ino, r, ino, j))
            && (forall c :: 0 <= c < sb.size ==> Used(sb, r, c) == Used(sb, blocks, c))
            && (forall j, t {:trigger Slot(r, ino, j, t)} :: 0 <= j < |ino| && 0 <= t <= INDIRECT ==>
                  Slot(r, ino, j, t) == Slot(blocks, ino, j, t))
            && SlotsGrow(blocks, ino, r, ino)
  {
    hide PutInode, InodeIn, Slot, Bit;
    var b := InodeBlock(sb, i);
    var r := blocks[b := data];
    InodeBlockIsMeta(sb, |ino|, i);
    InodeRoundTrip(blocks[b], i % IPB, ino[i]);
    forall j: nat {:trigger DiskInode(sb, r, j)} | j < |ino|
      ensures DiskInode(sb, r, j) == if j == i then ino[i] else DiskInode(sb, blocks, j)
    {
      InodeBlockIsMeta(sb, |ino|, j);
    }
    OwnedUntouched(sb, blocks, ino, owner, r);
    forall c: nat | c < sb.size ensures Used(sb, r, c) == Used(sb, blocks, c) { }
    forall j, k {:trigger ByteAt(r, ino, j, k)} | 0 <= j < |ino| && 0 <= k < MAXFILE * BSIZE
      ensures ByteAt(r, ino, j, k) == ByteAt(blocks, ino, j, k)
    {
      assert FileBlock(r, ino, j, k / BSIZE) == FileBlock(blocks, ino, j, k / BSIZE);
    }
  }

  lemma StillSynced(sb: Super, blocks: seq<Block>, blocks': seq<Block>, ino: seq<Inode>)
    requires SameMeta(sb, blocks, blocks')
    ensures Synced(sb, blocks, ino) ==> Synced(sb, blocks', ino)
  {
    hide InodeIn;
    if Synced(sb, blocks, ino) {
      forall i: nat | i < |ino| ensures InodeBlock(sb, i) < |blocks'| && DiskInode(sb, blocks', i) == ino[i] {
        InodeBlockIsMeta(sb, |ino|, i);
      }
    }
  }

  lemma AfterIupdate(sb: Super, blocks0: seq<Block>, ino0: seq<Inode>, blocks1: seq<Block>, blocks: seq<Block>,
                     ino: seq<Inode>, i: nat)
    requires Inodes(ino0) && Inodes(ino) && i < |ino| == |ino0|
    requires forall j :: 0 <= j < |ino| && j != i ==> ino[j] == ino0[j]
    requires SameMeta(sb, blocks0, blocks1) && OnlyInode(sb, blocks1, blocks, i, ino[i], |ino|)
    requires forall j :: 0 <= j < |ino| && j != i ==> SameBytes(blocks0, ino0, blocks1, ino, j)
    requires forall j :: 0 <= j < |ino| ==> SameBytes(blocks1, ino, blocks, ino, j)
    requires SameFiles(blocks1, ino, blocks, ino)
    ensures Synced(sb, blocks0, ino0) ==> Synced(sb, blocks, ino)
    ensures forall j :: 0 <= j < |ino| && j != i ==> SameBytes(blocks0, ino0, blocks, ino, j)
    ensures Contents(blocks, ino, i) == Contents(blocks1, ino, i)
  {
    hide InodeIn, FileBlock, SameBytes;
    if Synced(sb, blocks0, ino0) {
      forall j: nat | j < |ino| ensures InodeBlock(sb, j) < |blocks| && DiskInode(sb, blocks, j) == ino[j] {
        InodeBlockIsMeta(sb, |ino|, j);
      }
    }
    SameBytesTrans(blocks0, ino0, blocks1, ino, blocks, ino, i);
    forall k | 0 <= k < ino[i].size ensures Contents(blocks, ino, i)[k] == Contents(blocks1, ino, i)[k] {
      assert FileBlock(blocks, ino, i, k / BSIZE) == FileBlock(blocks1, ino, i, k / BSIZE);
    }
  }

  lemma FreedMeta(sb: Super, blocks0: seq<Block>, blocks: seq<Block>, owner: Owners, i: nat)
    requires Layout(sb, |blocks0|) && Layout(sb, |blocks|) && Freed(sb, blocks0, blocks, owner, i, INDIRECT + 1)
    ensures SameMeta(sb, blocks0, blocks)
  {
  }

  lemma AfterTrunc(sb: Super, blocks0: seq<Block>, ino0: seq<Inode>, blocks1: seq<Block>, blocks: seq<Block>,
                   ino: seq<Inode>, i: nat)
    requires Inodes(ino0) && Inodes(ino) && i < |ino| == |ino0|
    requires SameMeta(sb, blocks0, blocks1) && OnlyInode(sb, blocks1, blocks, i, ino[i], |ino|)
    requires forall j :: 0 <= j < |ino| && j != i ==> SameBytes(blocks0, ino0, blocks1, ino, j)
    requires forall j :: 0 <= j < |ino| ==> SameBytes(blocks1, ino, blocks, ino, j)
    ensures OnlyInode(sb, blocks0, blocks, i, ino[i], |ino|)
    ensures forall j :: 0 <= j < |ino| && j != i ==> SameBytes(blocks0, ino0, blocks, ino, j)
  {
    hide InodeIn, SameBytes;
    forall j: nat {:trigger DiskInode(sb, blocks, j)} | j < |ino|
      ensures DiskInode(sb, blocks, j) == if j == i then ino[i] else DiskInode(sb, blocks0, j)
    {
      InodeBlockIsMeta(sb, |ino|, j);
    }
    SameBytesTrans(blocks0, ino0, blocks1, ino, blocks, ino, i);
  }

  function EmptyInode(): (n: Inode)
  {
    Inode(0, seq(NDIRECT + 1, _ => 0))
  }

  /** Since blocks0, exactly the blocks in slots below hi of inode i have been given back; only the free map changed. */
  ghost predicate Freed(sb: Super, blocks0: seq<Block>, blocks: seq<Block>, owner: Owners, i: nat, hi: nat)
    requires Layout(sb, |blocks0|) && Layout(sb, |blocks|)
  {
    && |blocks| == |blocks0|
    && (forall c :: 0 <= c < |blocks| && (c < sb.bmapstart || sb.datastart <= c) ==> blocks[c] == blocks0[c])
    && (forall b :: 0 <= b < sb.size ==>
          (Used(sb, blocks, b) <==> Used(sb, blocks0, b) && !(b in owner && owner[b].0 == i && owner[b].1 < hi)))
  }

  lemma FreedNothing(sb: Super, blocks: seq<Block>, owner: Owners, i: nat)
    requires Layout(sb, |blocks|)
    ensures Freed(sb, blocks, blocks, owner, i, 0)
  {
  }

  lemma FreedData(sb: Super, blocks0: seq<Block>, blocks: seq<Block>, owner: Owners, i: nat, hi: nat, b: nat)
    requires Layout(sb, |blocks0|) && Layout(sb, |blocks|) && Freed(sb, blocks0, blocks, owner, i, hi)
    requires sb.datastart <= b < |blocks|
    ensures blocks[b] == blocks0[b]
  {
  }

  /** The next slot: empty, and there is nothing to do; or it holds a block that is still in use. */
  lemma FreeStep(sb: Super, blocks0: seq<Block>, ino0: seq<Inode>, owner: Owners, blocks: seq<Block>, i: nat, s: nat)
    requires Wf(sb, blocks0, ino0, owner) && Layout(sb, |blocks|) && i < |ino0| && s <= INDIRECT
    requires Freed(sb, blocks0, blocks, owner, i, s)
    ensures var b := Slot(blocks0, ino0, i, s);
            if b == 0 then Freed(sb, blocks0, blocks, owner, i, s + 1)
            else b < sb.size && Used(sb, blocks, b) && Freed(sb, blocks0, Marked(sb, blocks, b, false), owner, i, s + 1)
  {
    hide BitmapBlock, Used, Slot;
    var b := Slot(blocks0, ino0, i, s);
    if b == 0 {
      forall c | c in owner ensures owner[c] != (i, s) {
        assert Slot(blocks0, ino0, owner[c].0, owner[c].1) == c;
      }
    } else {
      assert owner[b] == (i, s);
      var r := Marked(sb, blocks, b, false);
      MarkedMeta(sb, blocks, b, false);
      forall c: nat | c < sb.size ensures Used(sb, r, c) <==> Used(sb, blocks, c) && c != b {
        MarkedAt(sb, blocks, b, false, c);
      }
      forall c | c in owner && owner[c] == (i, s) ensures c == b {
        assert Slot(blocks0, ino0, owner[c].0, owner[c].1) == c;
      }
    }
  }

  lemma MarkedMeta(sb: Super, blocks: seq<Block>, b: nat, v: bool)
    requires Layout(sb, |blocks|) && b < sb.size
    ensures Layout(sb, |Marked(sb, blocks, b, v)|)
    ensures forall c :: 0 <= c < |blocks| && (c < sb.bmapstart || sb.datastart <= c) ==>
              Marked(sb, blocks, b, v)[c] == blocks[c]
  {
    BitmapBlockIsMeta(sb, |blocks|, b);
  }

  lemma DirectSlot(blocks: seq<Block>, ino: seq<Inode>, i: nat, s: nat)
    requires Inodes(ino) && i < |ino| && s < NDIRECT
    ensures Slot(blocks, ino, i, s) == ino[i].addrs[s]
  {
  }

  lemma IndirectSlot(sb: Super, blocks: seq<Block>, ino: seq<Inode>, owner: Owners, i: nat, ind: nat)
    requires Wf(sb, blocks, ino, owner) && i < |ino| && ino[i].addrs[NDIRECT] == ind != 0
    ensures Slot(blocks, ino, i, INDIRECT) == ind && sb.datastart <= ind < |blocks|
    ensures forall j {:trigger Word(blocks[ind], j)} :: 0 <= j < NINDIRECT ==>
              Slot(blocks, ino, i, NDIRECT + j) == Word(blocks[ind], j)
  {
    assert Slot(blocks, ino, i, INDIRECT) == ind;
  }

  lemma NoIndirect(sb: Super, blocks0: seq<Block>, ino0: seq<Inode>, owner: Owners, blocks: seq<Block>, i: nat)
    requires Wf(sb, blocks0, ino0, owner) && Layout(sb, |blocks|) && i < |ino0| && ino0[i].addrs[NDIRECT] == 0
    requires Freed(sb, blocks0, blocks, owner, i, NDIRECT)
    ensures Freed(sb, blocks0, blocks, owner, i, INDIRECT + 1)
  {
    hide Used;
    forall c | c in owner && owner[c].0 == i ensures owner[c].1 < NDIRECT {
      assert Slot(blocks0, ino0, owner[c].0, owner[c].1) == c;
    }
  }

  lemma Truncated(sb: Super, blocks0: seq<Block>, ino0: seq<Inode>, owner: Owners, blocks: seq<Block>, i: nat)
    requires Wf(sb, blocks0, ino0, owner) && Layout(sb, |blocks|) && i < |ino0|
    requires Freed(sb, blocks0, blocks, owner, i, INDIRECT + 1)
    ensures var ino := ino0[i := EmptyInode()];
            && Wf(sb, blocks, ino, map b | b in owner && owner[b].0 != i :: owner[b])
            && (forall j :: 0 <= j < |ino| && j != i ==> SameBytes(blocks0, ino0, blocks, ino, j))
            && (forall b :: 0 <= b < sb.size ==>
                  (Used(sb, blocks, b) <==> Used(sb, blocks0, b) && !(b in owner && owner[b].0 == i)))
  {
    hide Used;
    var ino := ino0[i := EmptyInode()];
    forall j, s {:trigger Slot(blocks, ino, j, s)} | 0 <= j < |ino| && 0 <= s <= INDIRECT
      ensures Slot(blocks, ino, j, s) == if j == i then 0 else Slot(blocks0, ino0, j, s)
    {
      assert Slot(blocks0, ino0, j, INDIRECT) == ino0[j].addrs[NDIRECT];
    }
    assert forall b :: b in owner ==> owner[b].1 < INDIRECT + 1;
    forall j | 0 <= j < |ino| && j != i ensures SameBytes(blocks0, ino0, blocks, ino, j) {
      forall k {:trigger ByteAt(blocks, ino, j, k)} | 0 <= k < MAXFILE * BSIZE
        ensures ByteAt(blocks, ino, j, k) == ByteAt(blocks0, ino0, j, k)
      {
        assert Slot(blocks, ino, j, k / BSIZE) == Slot(blocks0, ino0, j, k / BSIZE);
      }
    }
  }

  lemma SpliceNothing(c: seq<Byte>, off: nat)
    requires off <= |c|
    ensures Splice(c, off, []) == c
  {
  }

  /** Two writes one after the other are one. */
  lemma SpliceTwice(c: seq<Byte>, off: nat, src: seq<Byte>, k: nat, m: nat)
    requires off <= |c| && k + m <= |src|
    ensures off + k <= |Splice(c, off, src[..k])|
    ensures Splice(Splice(c, off, src[..k]), off + k, src[k..k + m]) == Splice(c, off, src[..k + m])
    ensures off + k + m <= |Splice(c, off, src[..k + m])|
  {
    assert src[..k + m] == src[..k] + src[k..k + m];
  }

  lemma SameBytesTrans(b0: seq<Block>, i0: seq<Inode>, b1: seq<Block>, i1: seq<Inode>, b2: seq<Block>, i2: seq<Inode>,
                       i: nat)
    requires Inodes(i0) && Inodes(i1) && Inodes(i2) && |i0| == |i1| == |i2|
    requires forall j :: 0 <= j < |i0| && j != i ==> SameBytes(b0, i0, b1, i1, j)
    requires forall j :: 0 <= j < |i0| && j != i ==> SameBytes(b1, i1, b2, i2, j)
    ensures forall j :: 0 <= j < |i0| && j != i ==> SameBytes(b0, i0, b2, i2, j)
  {
    forall j | 0 <= j < |i0| && j != i ensures SameBytes(b0, i0, b2, i2, j) {
      assert SameBytes(b0, i0, b1, i1, j) && SameBytes(b1, i1, b2, i2, j);
      forall k {:trigger ByteAt(b2, i2, j, k)} | 0 <= k < MAXFILE * BSIZE
        ensures ByteAt(b2, i2, j, k) == ByteAt(b0, i0, j, k)
      {
        assert ByteAt(b2, i2, j, k) == ByteAt(b1, i1, j, k);
      }
    }
  }
}
