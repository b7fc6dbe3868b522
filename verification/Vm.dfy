/**
The page allocator (kalloc.c) and the operations on user address spaces (vm.c). A frame is known by its
number; the contents of a page that a caller fills before mapping it are passed along with its frame.
*/
module Vm {
  import opened Param
  import opened VmSpec

  /** The free list runs from `head` through exactly the frames of `free`. */
  ghost predicate Chain(head: nat, next: map<nat, nat>, free: seq<nat>)
    decreases |free|
  {
    if free == [] then head == 0 else head == free[0] && head in next && Chain(next[head], next, free[1..])
  }

  lemma {:induction false} ChainFrame(head: nat, next: map<nat, nat>, free: seq<nat>, f: nat, x: nat)
    requires Chain(head, next, free) && f !in free
    ensures Chain(head, next[f := x], free)
    decreases |free|
  {
    if free != [] {
      assert free[0] in free;
      ChainFrame(next[head], next, free[1..], f, x);
    }
  }

  lemma PopFree(head: nat, next: map<nat, nat>, owner: map<nat, Owner>, free: seq<nat>, lo: nat, hi: nat)
    requires Conserved(owner, free, lo, hi) && Chain(head, next, free)
    ensures head == 0 <==> free == []
    ensures free != [] ==>
              && head == free[0] && head in next && head !in owner
              && Chain(next[head], next, free[1..]) && Conserved(owner[head := Held], free[1..], lo, hi)
  {
    if free != [] {
      assert head == free[0] && head in free && lo <= head;
      var rest := free[1..];
      assert free == [head] + rest;
      assert head !in rest && forall g: nat :: g in free <==> g == head || g in rest;
    }
  }

  lemma PushFree(head: nat, next: map<nat, nat>, owner: map<nat, Owner>, free: seq<nat>, lo: nat, hi: nat, f: nat)
    requires Conserved(owner, free, lo, hi) && Chain(head, next, free) && f in owner
    ensures Conserved(owner - {f}, [f] + free, lo, hi) && Chain(f, next[f := head], [f] + free)
  {
    ChainFrame(head, next, free, f, head);
    assert ([f] + free)[1..] == free;
  }

  class Machine {
    const lo: nat // first frame after the kernel
    const hi: nat // PHYSTOP
    var next: map<nat, nat> // the link each free frame holds
    var freelist: nat
    var tables: Tables
    var data: Pages
    ghost var free: seq<nat>
    ghost var owner: map<nat, Owner>

    /** The allocator's part of the invariant: no frame is lost and none is in two places. */
    ghost predicate Mem()
      reads this
    {
      Conserved(owner, free, lo, hi) && Chain(freelist, next, free)
    }

    ghost predicate Valid()
      reads this
    {
      Mem() && Wf(tables, data, owner)
    }

    /** kinit: freerange over all frames. */
    constructor (l: nat, h: nat)
      requires 0 < l <= h
      ensures Valid() && lo == l && hi == h && owner == map[] && |free| == h - l
    {
      lo, hi, next, freelist, tables, data, free, owner := l, h, map[], 0, map[], map[], [], map[];
      new;
      var f := l;
      while f + 1 <= h
        invariant l <= f <= h && |free| == f - l && (forall i :: 0 <= i < |free| ==> free[i] == f - 1 - i)
        invariant Chain(freelist, next, free)
        invariant lo == l && hi == h && owner == map[] && tables == map[] && data == map[]
      {
        ChainFrame(freelist, next, free, f, freelist);
        next := next[f := freelist];
        free := [f] + free;
        freelist := f;
        assert free[1..] == free[1..];
        f := f + 1;
      }
      forall g: nat | lo <= g < hi ensures g in free { assert free[hi - 1 - g] == g; }
    }

    method Kalloc() returns (f: nat)
      requires Mem()
      modifies this`freelist, this`free, this`owner
      ensures Mem()
      ensures f == 0 ==> old(free) == [] && free == old(free) && owner == old(owner)
      ensures f != 0 ==> old(free) != [] && f == old(free)[0] && free == old(free)[1..] && f !in old(owner)
                         && owner == old(owner)[f := Held]
    {
      f := freelist;
      PopFree(freelist, next, owner, free, lo, hi);
      if f != 0 {
        freelist := next[f];
        free := free[1..];
        owner := owner[f := Held];
      }
    }

    method Kfree(f: nat)
      requires Mem() && f in owner && owner[f] == Held
      modifies this`freelist, this`next, this`free, this`owner
      ensures Mem() && free == [f] + old(free) && owner == old(owner) - {f}
    {
      PushFree(freelist, next, owner, free, lo, hi, f);
      next := next[f := freelist];
      freelist := f;
      free := [f] + free;
      owner := owner - {f};
    }

    /** walkpgdir: the table for page vpn, made if `alloc`; 0 when there is none. */
    method Walk(d: nat, vpn: nat, alloc: bool) returns (t: nat)
      requires Valid() && IsDir(owner, d) && vpn < NENTRIES * NENTRIES
      modifies this`freelist, this`free, this`owner, this`tables
      ensures Valid() && d in tables && d in old(tables) && Shaped(old(tables)) && Shaped(tables) && IsDir(owner, d)
      ensures t == 0 ==> tables == old(tables) && owner == old(owner) && free == old(free)
                         && !Present(tables[d][vpn / NENTRIES])
      ensures t == 0 && alloc ==> free == []
      ensures t != 0 ==> t in tables && Present(tables[d][vpn / NENTRIES]) && t == Frame(tables[d][vpn / NENTRIES])
      ensures Present(old(tables)[d][vpn / NENTRIES]) ==>
                t != 0 && tables == old(tables) && owner == old(owner) && free == old(free)
      ensures t != 0 && !Present(old(tables)[d][vpn / NENTRIES]) ==>
                && alloc && old(free) != [] && t == old(free)[0] && free == old(free)[1..]
                && t !in old(owner) && owner == old(owner)[t := Tab(d, vpn / NENTRIES)]
      ensures SameEntries(old(tables), tables, old(owner)) && MoreTables(old(owner), owner, d)
      ensures TablesOf(tables, d) == TablesOf(old(tables), d) + if t != 0 then {PageDir(vpn)} else {}
      ensures |free| + |TablesOf(tables, d)| == |old(free)| + |TablesOf(old(tables), d)|
    {
      hide Wf, Conserved, Chain, SameEntries, Entry;
      SameAsBefore(tables, data, owner);
      DirShaped(tables, data, owner, d);
      var i := vpn / NENTRIES;
      if Present(tables[d][i]) {
        TableThere(tables, data, owner, d, i);
        InRange(owner, free, lo, hi, Frame(tables[d][i]));
        return Frame(tables[d][i]);
      }
      if !alloc { return 0; }
      t := NewTable(d, i);
    }

    /** walkpgdir with alloc, where the table is missing. */
    method NewTable(d: nat, i: nat) returns (t: nat)
      requires Valid() && IsDir(owner, d) && d in tables && Shaped(tables) && i < NENTRIES && !Present(tables[d][i])
      modifies this`freelist, this`free, this`owner, this`tables
      ensures Valid() && d in tables && Shaped(tables) && IsDir(owner, d)
      ensures t == 0 ==> free == old(free) == [] && tables == old(tables) && owner == old(owner)
      ensures t != 0 ==>
                && old(free) != [] && t == old(free)[0] && free == old(free)[1..] && t !in old(owner)
                && owner == old(owner)[t := Tab(d, i)]
                && t in tables && Present(tables[d][i]) && t == Frame(tables[d][i])
                && SameEntries(old(tables), tables, old(owner)) && TablesOf(tables, d) == TablesOf(old(tables), d) + {i}
                && |TablesOf(tables, d)| == |TablesOf(old(tables), d)| + 1
    {
      hide Wf, Conserved, Chain, SameEntries, TablesOf, Entry;
      t := Kalloc();
      if t == 0 { return; }
      HeldKeepsWf(tables, data, old(owner), t);
      AddTable(tables, data, owner, d, i, t);
      SameEntriesOwner(tables, tables[t := ZeroTable()][d := Put(tables, d, i, MkPte(t, PTE_WU))[d]], old(owner),
                       owner);
      RetagHeld(free, lo, hi, owner, t, Tab(d, i));
      UnownedIsNoTable(tables, data, old(owner), t);
      OneMoreTable(tables, d, i, t);
      tables := tables[t := ZeroTable()];
      tables := Put(tables, d, i, MkPte(t, PTE_WU));
      owner := owner[t := Tab(d, i)];
    }

    /** The test of mappages for a page that is there already. */
    method Mapped(d: nat, vpn: nat) returns (there: bool)
      requires Valid() && IsDir(owner, d) && d in tables && vpn < NENTRIES * NENTRIES
      ensures Shaped(tables) && there == Present(Entry(tables, d, vpn))
    {
      WfShaped(tables, data, owner);
      var pde := tables[d][vpn / NENTRIES];
      there := Present(pde) && Frame(pde) in tables && Present(tables[Frame(pde)][vpn % NENTRIES]);
    }

    /** mappages for one page: frame f, already filled with `page`, is mapped at page vpn. false when no
        table could be made. Mapping over a present page would panic with "remap". */
    method MapPage(d: nat, vpn: nat, f: nat, page: Page, perm: nat) returns (ok: bool)
      requires Valid() && IsDir(owner, d) && d in tables && vpn < USERPAGES && !Present(Entry(tables, d, vpn))
      requires f in owner && owner[f] == Held && |page.bytes| == PGSIZE && perm < PGSIZE
      modifies this`freelist, this`free, this`owner, this`tables, this`data
      ensures Valid() && d in tables && IsDir(owner, d) && Shaped(old(tables)) && Shaped(tables)
      ensures !ok ==> tables == old(tables) && data == old(data) && owner == old(owner) && free == old(free) == []
                      && PageDir(vpn) !in TablesOf(tables, d)
      ensures ok ==>
                && data == old(data)[f := page] && OnlyEntry(old(tables), tables, old(owner), d, vpn, MkPte(f, perm))
                && MoreTables(old(owner)[f := Usr(d, vpn)], owner, d)
                && TablesOf(tables, d) == TablesOf(old(tables), d) + {PageDir(vpn)}
                && |free| + |TablesOf(tables, d)| == |old(free)| + |TablesOf(old(tables), d)|
    {
      hide UsrOwned, TabsOwned, Conserved, Chain, Kinds, Entry, TablesOf;
      var t := Walk(d, vpn, true);
      if t == 0 { NoTableThere(tables, d, vpn); return false; }
      ghost var tables1, owner1 := tables, owner;
      TableIsNoDir(tables, data, owner, d, vpn, MkPte(f, perm));
      NotPresentStill(old(tables), tables, old(owner), d, vpn);
      SetPage(tables, data, owner, d, vpn, f, page, perm);
      tables := Put(tables, t, vpn % NENTRIES, MkPte(f, perm));
      EntriesThen(old(tables), tables1, tables, old(owner), owner1, d, vpn, MkPte(f, perm));
      RetagHeld(free, lo, hi, owner, f, Usr(d, vpn));
      data := data[f := page];
      owner := owner[f := Usr(d, vpn)];
      ok := true;
    }

    /** One present page of a deallocuvm walk: unmap it and free its frame. */
    method Unmap(d: nat, vpn: nat, t: nat)
      requires Valid() && IsDir(owner, d) && d in tables && vpn < USERPAGES && Present(Entry(tables, d, vpn))
      requires t == Frame(tables[d][vpn / NENTRIES]) && t in tables
      modifies this`freelist, this`next, this`free, this`owner, this`tables, this`data
      ensures Valid() && d in tables && IsDir(owner, d) && Shaped(old(tables)) && Shaped(tables)
      ensures var f := Frame(Entry(old(tables), d, vpn));
              && f in old(owner) && old(owner)[f] == Usr(d, vpn) && owner == old(owner) - {f} && data == old(data) - {f}
              && free == [f] + old(free)
      ensures OnlyEntry(old(tables), tables, old(owner), d, vpn, 0)
    {
      hide UsrOwned, TabsOwned, Conserved, Chain;
      ClearPage(tables, data, owner, d, vpn);
      var f := Frame(tables[t][vpn % NENTRIES]);
      EntryIs(tables, d, vpn, t);
      RetagHeld(free, lo, hi, owner, f, Held);
      tables := Put(tables, t, vpn % NENTRIES, 0);
      data := data - {f};
      owner := owner[f := Held];
      DropHeld(tables, data, owner, f);
      Kfree(f);
      assert owner == old(owner) - {f};
    }

    /** deallocuvm: every present page from PGROUNDUP(newsz) up to oldsz is unmapped and freed, and nothing else
        changes in any address space. Where a whole table is missing the walk jumps to the next one. */
    method Deallocuvm(d: nat, oldsz: nat, newsz: nat) returns (r: nat)
      requires Valid() && IsDir(owner, d) && oldsz <= KERNBASE
      modifies this`freelist, this`next, this`free, this`owner, this`tables, this`data
      ensures Valid() && d in tables && IsDir(owner, d) && Shaped(old(tables)) && Shaped(tables)
      ensures r == if newsz >= oldsz then oldsz else newsz
      ensures newsz >= oldsz ==> tables == old(tables) && data == old(data) && owner == old(owner) && free == old(free)
      ensures newsz < oldsz ==>
                Unmapped(old(tables), old(data), old(owner), tables, data, owner, d, RoundUp(newsz) / PGSIZE,
                         RoundUp(oldsz) / PGSIZE)
    {
      hide Wf, Kinds, UsrOwned, TabsOwned, Conserved, Chain, Entry, Unmapped, OnlyEntry, SameEntries, NonePresent,
           RoundUp, TableEnd, TablesOf, PageDir, MoreTables;
      DirShaped(tables, data, owner, d);
      if newsz >= oldsz { return oldsz; }
      ghost var tables0, data0, owner0, v0, end :=
        tables, data, owner, RoundUp(newsz) / PGSIZE, RoundUp(oldsz) / PGSIZE;
      UnmappedNone(tables, data, owner, d, v0);
      WholePages(newsz, oldsz);
      var a := RoundUp(newsz);
      ghost var v := v0;
      while a < oldsz
        invariant a == v * PGSIZE && v0 <= v
        invariant Valid() && IsDir(owner, d) && d in tables && Shaped(tables)
        invariant Unmapped(tables0, data0, owner0, tables, data, owner, d, v0, Least(v, end))
        decreases KERNBASE + PGSIZE - a
      {
        var vpn := a / PGSIZE;
        PageAt(v, oldsz);
        ghost var tables1, data1, owner1 := tables, data, owner;
        var t := Walk(d, vpn, false);
        EntryOf(tables, d, vpn, t);
        if t == 0 {
          a, v := TableEnd(vpn) * PGSIZE - PGSIZE, TableEnd(vpn) - 1;
          NoTable(tables, d, vpn, Least(v + 1, end));
          UnmappedSkip(tables0, data0, owner0, tables, data, owner, d, v0, vpn, Least(v + 1, end));
        } else if Present(tables[t][vpn % NENTRIES]) {
          Unmap(d, vpn, t);
          UnmappedStep(tables0, data0, owner0, tables1, data1, owner1, tables, data, owner, d, v0, vpn);
        } else {
          NotThere(tables, d, vpn);
          UnmappedSkip(tables0, data0, owner0, tables, data, owner, d, v0, vpn, vpn + 1);
        }
        a, v := a + PGSIZE, v + 1;
      }
      PastEnd(v, oldsz);
      r := newsz;
    }

    /** allocuvm: zero-filled, writable user pages from PGROUNDUP(oldsz) up to newsz, or, when a frame or a
        table is missing, none of them: the pages already added are taken away again. */
    method Allocuvm(d: nat, oldsz: nat, newsz: nat) returns (r: nat)
      requires Valid() && IsDir(owner, d)
      requires newsz < KERNBASE ==>
                 Shaped(tables) && NonePresent(tables, d, RoundUp(oldsz) / PGSIZE, RoundUp(newsz) / PGSIZE)
      modifies this`freelist, this`next, this`free, this`owner, this`tables, this`data
      ensures Valid() && d in tables && IsDir(owner, d) && Shaped(old(tables)) && Shaped(tables)
      ensures r != 0 && newsz < KERNBASE && newsz >= oldsz ==>
                r == newsz && Grew(old(tables), old(data), old(owner), tables, data, owner, d, RoundUp(oldsz) / PGSIZE,
                                   RoundUp(newsz) / PGSIZE)
      ensures newsz >= KERNBASE ==> r == 0
      ensures newsz < KERNBASE && newsz < oldsz ==> r == oldsz
      ensures newsz >= KERNBASE || newsz < oldsz ==>
                tables == old(tables) && data == old(data) && owner == old(owner) && free == old(free)
      ensures r == 0 && newsz > 0 ==>
                SameMappings(old(tables), tables, old(owner)) && data == old(data) && MoreTables(old(owner), owner, d)
      ensures oldsz <= newsz < KERNBASE ==>
                var need := GrowNeeds(old(tables), d, RoundUp(oldsz) / PGSIZE, RoundUp(newsz) / PGSIZE);
                (r == newsz <==> |old(free)| >= need) && (r == newsz ==> |free| == |old(free)| - need)
    {
      hide Wf, Kinds, UsrOwned, TabsOwned, Conserved, Chain, Entry, Unmapped, OnlyEntry, SameEntries, NonePresent,
           RoundUp, Grew, MoreTables, SameMappings, TablesOf, DirsOf, PageDir;
      SameAsBefore(tables, data, owner);
      DirShaped(tables, data, owner, d);
      if newsz >= KERNBASE { NoMoreTables(owner, d); SameEntriesMap(tables, tables, owner); return 0; }
      if newsz < oldsz { return oldsz; }
      ghost var tables0, data0, owner0, v0, end :=
        tables, data, owner, RoundUp(oldsz) / PGSIZE, RoundUp(newsz) / PGSIZE;
      GrewNone(tables, data, owner, d, v0);
      NoDirs(TablesOf(tables, d), v0);
      WholePages(oldsz, newsz);
      var a := RoundUp(oldsz);
      ghost var v := v0;
      while a < newsz
        invariant a == v * PGSIZE && v0 <= v <= end
        invariant Valid() && IsDir(owner, d) && d in tables && Shaped(tables)
        invariant Grew(tables0, data0, owner0, tables, data, owner, d, v0, v)
        invariant TablesOf(tables, d) == TablesOf(tables0, d) + DirsOf(v0, v)
        invariant |free| + |TablesOf(tables, d)| + (v - v0) == |old(free)| + |TablesOf(tables0, d)|
        decreases newsz - a
      {
        var vpn := a / PGSIZE;
        PageAt(v, newsz);
        OneMoreDir(TablesOf(tables0, d), v0, vpn, end);
        ghost var tables1, data1, owner1 := tables, data, owner;
        var mem := Kalloc();
        if mem == 0 {
          var _ := Deallocuvm(d, newsz, oldsz);
          Undone(tables0, data0, owner0, tables1, data1, owner1, tables, data, owner, d, v0, vpn, end);
          return 0;
        }
        HeldKeepsWf(tables, data, owner1, mem);
        StillAbsent(tables0, data0, owner0, tables, data, owner1, d, v0, vpn, end);
        var ok := MapPage(d, vpn, mem, ZeroPage(), PTE_WU);
        if !ok {
          var _ := Deallocuvm(d, newsz, oldsz);
          UnmappedWithout(tables1, data1, owner1, tables, data, owner, d, v0, end, mem);
          DropHeld(tables, data, owner, mem);
          Undone(tables0, data0, owner0, tables1, data1, owner1, tables, data, owner - {mem}, d, v0, vpn, end);
          Kfree(mem);
          return 0;
        }
        HeldNoData(tables1, data1, owner1, mem);
        GrewStep(tables0, data0, owner0, tables1, data1, owner1, tables, data, owner, d, v0, vpn, mem);
        a, v := a + PGSIZE, v + 1;
      }
      PastEnd(v, newsz);
      AllDirs(TablesOf(tables0, d), v0, end);
      r := newsz;
    }

    /** The loop of freevm over the directory: give back every table. */
    method FreeTables(d: nat)
      requires Mem() && Shaped(tables) && TabsOwned(tables, owner) && Kinds(tables, data, owner) && IsDir(owner, d)
      modifies this`freelist, this`next, this`free, this`owner, this`tables
      ensures Mem() && Shaped(old(tables)) && d in tables && IsDir(owner, d)
      ensures Dropped(old(tables), old(owner), tables, owner, d, NENTRIES)
    {
      hide Conserved, Chain, Dropped, TabsOwned, Kinds, Shaped;
      TabsFacts(tables, data, owner, d);
      ghost var tables0, owner0 := tables, owner;
      DroppedNone(tables, owner, d);
      for i := 0 to NENTRIES
        invariant Mem() && d in tables && tables[d] == tables0[d] && IsDir(owner, d)
        invariant Dropped(tables0, owner0, tables, owner, d, i)
      {
        DroppedStep(tables0, data, owner0, tables, owner, d, i);
        if Present(tables[d][i]) {
          var t := Frame(tables[d][i]);
          RetagHeld(free, lo, hi, owner, t, Held);
          owner := owner[t := Held];
          tables := tables - {t};
          Kfree(t);
        }
      }
    }

    /** freevm: the whole address space goes back to the allocator, every frame once. Without `dodealloc` the
        user pages must be gone already, as exit leaves them. */
    method Freevm(d: nat, dodealloc: bool)
      requires Valid() && IsDir(owner, d)
      requires dodealloc || (Shaped(tables) && NonePresent(tables, d, 0, USERPAGES))
      modifies this`freelist, this`next, this`free, this`owner, this`tables, this`data
      ensures Valid() && Shaped(old(tables)) && Shaped(tables)
      ensures SpaceFreed(old(tables), old(data), old(owner), tables, data, owner, d)
    {
      hide Conserved, Chain, Dropped, TabsOwned, UsrOwned, Kinds, Shaped, SpaceFreed, Unmapped, NonePresent, Entry;
      ghost var tables0, data0, owner0 := tables, data, owner;
      DirShaped(tables, data, owner, d);
      UnmappedNone(tables, data, owner, d, 0);
      if dodealloc {
        var _ := Deallocuvm(d, KERNBASE, 0);
      } else {
        UnmappedSkip(tables, data, owner, tables, data, owner, d, 0, 0, USERPAGES);
      }
      assert RoundUp(0) / PGSIZE == 0 && RoundUp(KERNBASE) / PGSIZE == USERPAGES;
      ghost var tables1, data1, owner1 := tables, data, owner;
      FreeTables(d);
      SpaceGone(tables0, data0, owner0, tables1, data1, owner1, tables, owner, d);
      RetagHeld(free, lo, hi, owner, d, Held);
      owner := owner[d := Held];
      tables := tables - {d};
      Kfree(d);
    }

    /** exit frees the user pages, wait frees the rest: together exactly what freevm does in one go. */
    method ExitThenWait(d: nat)
      requires Valid() && IsDir(owner, d)
      modifies this`freelist, this`next, this`free, this`owner, this`tables, this`data
      ensures Valid() && Shaped(old(tables)) && Shaped(tables)
      ensures SpaceFreed(old(tables), old(data), old(owner), tables, data, owner, d)
    {
      hide Wf, Conserved, Chain, SpaceFreed, Unmapped, NonePresent, Entry;
      ghost var tables0, data0, owner0 := tables, data, owner;
      var _ := Deallocuvm(d, KERNBASE, 0);
      assert RoundUp(0) / PGSIZE == 0 && RoundUp(KERNBASE) / PGSIZE == USERPAGES;
      ghost var tables1, data1, owner1 := tables, data, owner;
      AllUnmapped(tables0, data0, owner0, tables, data, owner, d);
      Freevm(d, false);
      FreedInTwo(tables0, data0, owner0, tables1, data1, owner1, tables, data, owner, d);
    }

    /** The directory setupkvm starts from. */
    method EmptyDir(ghost kmap: seq<(nat, nat)>) returns (d: nat)
      requires Valid() && KernelMap(kmap)
      modifies this`freelist, this`free, this`owner, this`tables
      ensures Valid() && Shaped(old(tables)) && Shaped(tables) && SameEntries(old(tables), tables, old(owner))
      ensures d == 0 <==> |old(free)| == 0
      ensures d == 0 ==> tables == old(tables) && owner == old(owner) && free == old(free)
      ensures d != 0 ==> d !in old(owner) && owner == old(owner)[d := Dir] && |free| + 1 == |old(free)| && d in tables
      ensures d != 0 ==> NonePresent(tables, d, 0, USERPAGES) && MappedSoFar(tables, d, kmap, 0)
                         && TablesOf(tables, d) == KernelDirs(kmap, 0) == {}
    {
      hide Wf, Conserved, Chain, NonePresent, Entry, SameEntries, MappedSoFar, TablesOf, KernelDirs, KernelMap;
      ghost var owner0 := owner;
      SameAsBefore(tables, data, owner);
      WfShaped(tables, data, owner);
      d := Kalloc();
      if d == 0 { return; }
      NewDir(tables, data, owner0, d, kmap);
      RetagHeld(free, lo, hi, owner, d, Dir);
      tables := tables[d := ZeroTable()];
      owner := owner[d := Dir];
      assert owner == owner0[d := Dir];
      NoTables(tables, d, kmap);
    }

    /** setupkvm: a new directory with the kernel's mappings, given page by page; or 0, with nothing changed. */
    method Setupkvm(kmap: seq<(nat, nat)>) returns (d: nat)
      requires Valid() && KernelMap(kmap)
      modifies this`freelist, this`next, this`free, this`owner, this`tables, this`data
      ensures Valid() && Shaped(old(tables)) && Shaped(tables)
      ensures d == 0 ==> owner == old(owner) && data == old(data) && SameEntries(old(tables), tables, old(owner))
      ensures d == 0 <==> |old(free)| < 1 + |KernelDirs(kmap, |kmap|)|
      ensures d != 0 ==>
                |free| + 1 + |KernelDirs(kmap, |kmap|)| == |old(free)| && d in tables
                && TablesOf(tables, d) == KernelDirs(kmap, |kmap|)
      ensures d != 0 ==>
                && d !in old(owner) && IsDir(owner, d) && d in tables && data == old(data)
                && SameEntries(old(tables), tables, old(owner))
                && NonePresent(tables, d, 0, USERPAGES) && MoreTables(old(owner)[d := Dir], owner, d)
                && MappedSoFar(tables, d, kmap, |kmap|)
    {
      hide Wf, Conserved, Chain, SpaceFreed, NonePresent, Entry, SameEntries, MoreTables, KernelMap, OnlyEntry,
           MappedSoFar, TablesOf, KernelDirs, PageDir;
      ghost var tables0, data0, owner0 := tables, data, owner;
      d := EmptyDir(kmap);
      if d == 0 { return; }
      NoMoreTables(owner, d);
      var k := 0;
      while k < |kmap|
        invariant 0 <= k <= |kmap|
        invariant Valid() && IsDir(owner, d) && d in tables && Shaped(tables) && data == data0
        invariant SameEntries(tables0, tables, owner0) && NonePresent(tables, d, 0, USERPAGES)
        invariant MoreTables(owner0[d := Dir], owner, d)
        invariant MappedSoFar(tables, d, kmap, k) && TablesOf(tables, d) == KernelDirs(kmap, k)
        invariant |free| + 1 + |KernelDirs(kmap, k)| == |old(free)|
      {
        KernelMapAt(kmap, k);
        OneMoreKernelDir(kmap, k);
        ghost var tables1, owner1 := tables, owner;
        var t := Walk(d, kmap[k].0, true);
        ghost var tables2, owner2 := tables, owner;
        if t == 0 {
          NoTableThere(tables, d, kmap[k].0);
          Freevm(d, false);
          SetupUndone(tables0, data0, owner0, tables1, data0, owner1, tables, data, owner, d);
          return 0;
        }
        KernelEntry(tables, data, owner, d, kmap[k].0, kmap[k].1);
        TableIsNoDir(tables, data, owner, d, kmap[k].0, kmap[k].1);
        tables := Put(tables, t, kmap[k].0 % NENTRIES, kmap[k].1);
        KernelMapped(tables0, owner0, tables1, owner1, tables2, owner2, tables, d, kmap, k);
        k := k + 1;
      }
    }

    /** One page of copyuvm: a frame with the bytes given, mapped at page v of nd; or 0, with nothing changed. */
    method CopyPage(nd: nat, v: nat, page: Page, perm: nat) returns (mem: nat)
      requires Valid() && IsDir(owner, nd) && nd in tables && v < USERPAGES && !Present(Entry(tables, nd, v))
      requires |page.bytes| == PGSIZE && perm < PGSIZE
      modifies this`freelist, this`next, this`free, this`owner, this`tables, this`data
      ensures Valid() && nd in tables && IsDir(owner, nd) && Shaped(old(tables)) && Shaped(tables)
      ensures mem == 0 ==>
                && tables == old(tables) && data == old(data) && owner == old(owner)
                && |old(free)| < 1 + |TablesOf(tables, nd) + {PageDir(v)}| - |TablesOf(tables, nd)|
      ensures mem != 0 ==>
                && mem !in old(owner) && data == old(data)[mem := page]
                && OnlyEntry(old(tables), tables, old(owner)[mem := Held], nd, v, MkPte(mem, perm))
                && MoreTables(old(owner)[mem := Held][mem := Usr(nd, v)], owner, nd)
                && TablesOf(tables, nd) == TablesOf(old(tables), nd) + {PageDir(v)}
                && |free| + |TablesOf(tables, nd)| + 1 == |old(free)| + |TablesOf(old(tables), nd)|
    {
      hide Wf, Conserved, Chain, Entry, TablesOf, PageDir, OnlyEntry, MoreTables;
      WfShaped(tables, data, owner);
      SubsetSize(TablesOf(tables, nd), TablesOf(tables, nd) + {PageDir(v)});
      mem := Kalloc();
      if mem == 0 { return; }
      HeldKeepsWf(tables, data, old(owner), mem);
      var ok := MapPage(nd, v, mem, page, perm);
      if !ok {
        DropHeld(tables, data, owner, mem);
        Kfree(mem);
        assert owner == old(owner);
        mem := 0;
      }
    }

    /** copyuvm: a new address space that shows the same pages with the same flags below sz, on frames of its
        own, and has no page where the parent has none. If memory runs out, every frame taken is given back. */
    method Copyuvm(d: nat, sz: nat, kmap: seq<(nat, nat)>) returns (nd: nat)
      requires Valid() && IsDir(owner, d) && sz <= KERNBASE && KernelMap(kmap)
      modifies this`freelist, this`next, this`free, this`owner, this`tables, this`data
      ensures Valid() && Shaped(old(tables)) && Shaped(tables)
      ensures nd == 0 ==> owner == old(owner) && data == old(data) && SameEntries(old(tables), tables, old(owner))
      ensures d in old(tables) && RoundUp(sz) / PGSIZE <= USERPAGES
      ensures nd == 0 <==> |old(free)| < CopyNeeds(old(tables), d, kmap, RoundUp(sz) / PGSIZE)
      ensures nd != 0 ==> IsDir(owner, nd)
                          && Copied(old(tables), old(data), old(owner), tables, data, owner, d, nd,
                                    RoundUp(sz) / PGSIZE)
      ensures nd != 0 ==> MappedSoFar(tables, nd, kmap, |kmap|)
      ensures nd != 0 && MappedSoFar(old(tables), d, kmap, |kmap|) ==> SameKernel(old(tables), d, tables, nd)
    {
      hide Wf, Kinds, UsrOwned, TabsOwned, Conserved, Chain, SpaceFreed, NonePresent, Entry, SameEntries, MoreTables,
           KernelMap, OnlyEntry, MappedSoFar, Copied, RoundUp, TablesOf, KernelDirs, PageDir, PagesBelow, DirsBelow,
           SameKernel;
      ghost var tables0, data0, owner0, end := tables, data, owner, RoundUp(sz) / PGSIZE;
      DirShaped(tables, data, owner, d);
      RoundUpOrder(sz, KERNBASE);
      assert RoundUp(KERNBASE) / PGSIZE == USERPAGES by { UserTop(); }
      CopyNeedsNone(tables0, d, kmap, end);
      nd := Setupkvm(kmap);
      if nd == 0 { return; }
      CopiedNone(tables0, data0, owner0, tables, owner, d, nd);
      var i := 0;
      ghost var n := 0;
      while i < sz
        invariant i == n * PGSIZE && 0 <= n <= end
        invariant Valid() && IsDir(owner, nd) && nd in tables && Shaped(tables)
        invariant Copied(tables0, data0, owner0, tables, data, owner, d, nd, n) && MappedSoFar(tables, nd, kmap, |kmap|)
        invariant TablesOf(tables, nd) == KernelDirs(kmap, |kmap|) + DirsBelow(tables0, d, n)
        invariant |free| + CopyNeeds(tables0, d, kmap, n) == |old(free)|
        decreases sz - i
      {
        var v := i / PGSIZE;
        PageAt(n, sz);
        CopyNeedsMore(tables0, d, kmap, v, end);
        CopiedFacts(tables0, data0, owner0, tables, data, owner, d, nd, v);
        ghost var tables1, data1, owner1 := tables, data, owner;
        var t := Walk(d, v, false);
        EntryOf(tables, d, v, t);
        if t != 0 && Present(tables[t][v % NENTRIES]) {
          var pte := tables[t][v % NENTRIES];
          PageThere(tables0, data0, owner0, tables, data, d, v);
          var mem := CopyPage(nd, v, data[Frame(pte)], Flags(pte));
          if mem == 0 {
            Freevm(nd, true);
            CopyUndone(tables0, data0, owner0, tables1, data1, owner1, tables, data, owner, d, nd, v);
            return 0;
          }
          HeldNoData(tables1, data1, owner1, mem);
          CopiedStep(tables0, data0, owner0, tables1, data1, owner1, tables, data, owner, d, nd, v, mem, Flags(pte));
          KernelKept(tables1, tables, owner1[mem := Held], nd, v, MkPte(mem, Flags(pte)), kmap);
        } else {
          CopiedSkip(tables0, data0, owner0, tables, data, owner, d, nd, v);
        }
        i, n := i + PGSIZE, n + 1;
      }
      PastEnd(n, sz);
      if MappedSoFar(tables0, d, kmap, |kmap|) { KernelAgrees(tables0, d, tables, nd, kmap); }
    }
  }

  /** The directory entries that the first k kernel pages go through. */
  ghost function KernelDirs(kmap: seq<(nat, nat)>, k: nat): (s: set<nat>)
    requires k <= |kmap|
  {
    set j | 0 <= j < k :: PageDir(kmap[j].0)
  }

  lemma NoTables(tables: Tables, d: nat, kmap: seq<(nat, nat)>)
    requires Shaped(tables) && d in tables && tables[d] == ZeroTable()
    ensures TablesOf(tables, d) == KernelDirs(kmap, 0) == {}
  {
  }

  lemma OneMoreKernelDir(kmap: seq<(nat, nat)>, k: nat)
    requires k < |kmap|
    ensures KernelDirs(kmap, k + 1) == KernelDirs(kmap, k) + {PageDir(kmap[k].0)}
    ensures |KernelDirs(kmap, k)| <= |KernelDirs(kmap, k + 1)| <= |KernelDirs(kmap, |kmap|)|
  {
    SubsetSize(KernelDirs(kmap, k), KernelDirs(kmap, k + 1));
    SubsetSize(KernelDirs(kmap, k + 1), KernelDirs(kmap, |kmap|));
  }

  /** The pages below v that the parent has. */
  ghost function PagesBelow(tables: Tables, d: nat, v: nat): (s: set<nat>)
    requires d in tables && Shaped(tables) && v <= USERPAGES
  {
    set u: nat | u < v && Present(Entry(tables, d, u))
  }

  ghost function DirsBelow(tables: Tables, d: nat, v: nat): (s: set<nat>)
    requires d in tables && Shaped(tables) && v <= USERPAGES
  {
    set u | u in PagesBelow(tables, d, v) :: PageDir(u)
  }

  /** Frames that a copy of the pages below v takes: a directory, a table for each directory entry in use, and one for
      each page. */
  ghost function CopyNeeds(tables: Tables, d: nat, kmap: seq<(nat, nat)>, v: nat): (n: nat)
    requires d in tables && Shaped(tables) && v <= USERPAGES
  {
    1 + |KernelDirs(kmap, |kmap|) + DirsBelow(tables, d, v)| + |PagesBelow(tables, d, v)|
  }

  lemma UserTop()
    ensures RoundUp(KERNBASE) / PGSIZE == USERPAGES
  {
  }

  lemma CopyNeedsNone(tables: Tables, d: nat, kmap: seq<(nat, nat)>, end: nat)
    requires d in tables && Shaped(tables) && end <= USERPAGES
    ensures CopyNeeds(tables, d, kmap, end) >= 1 + |KernelDirs(kmap, |kmap|)|
    ensures KernelDirs(kmap, |kmap|) + DirsBelow(tables, d, 0) == KernelDirs(kmap, |kmap|)
    ensures CopyNeeds(tables, d, kmap, 0) == 1 + |KernelDirs(kmap, |kmap|)|
  {
    assert PagesBelow(tables, d, 0) == {};
    assert KernelDirs(kmap, |kmap|) + DirsBelow(tables, d, 0) == KernelDirs(kmap, |kmap|);
    SubsetSize(KernelDirs(kmap, |kmap|), KernelDirs(kmap, |kmap|) + DirsBelow(tables, d, end));
  }

  lemma BelowMore(tables: Tables, d: nat, v: nat)
    requires d in tables && Shaped(tables) && v < USERPAGES
    ensures var more: set<nat> := if Present(Entry(tables, d, v)) then {v} else {};
            PagesBelow(tables, d, v + 1) == PagesBelow(tables, d, v) + more && v !in PagesBelow(tables, d, v)
    ensures var more: set<nat> := if Present(Entry(tables, d, v)) then {PageDir(v)} else {};
            DirsBelow(tables, d, v + 1) == DirsBelow(tables, d, v) + more
  {
    hide Entry, PageDir;
    var more: set<nat> := if Present(Entry(tables, d, v)) then {v} else {};
    assert PagesBelow(tables, d, v + 1) == PagesBelow(tables, d, v) + more;
  }

  lemma BelowMono(tables: Tables, d: nat, v: nat, end: nat)
    requires d in tables && Shaped(tables) && v <= end <= USERPAGES
    ensures PagesBelow(tables, d, v) <= PagesBelow(tables, d, end)
    ensures DirsBelow(tables, d, v) <= DirsBelow(tables, d, end)
  {
    hide Entry, PageDir;
    assert PagesBelow(tables, d, v) <= PagesBelow(tables, d, end);
  }

  lemma CopyNeedsMore(tables: Tables, d: nat, kmap: seq<(nat, nat)>, v: nat, end: nat)
    requires d in tables && Shaped(tables) && v < end <= USERPAGES
    ensures CopyNeeds(tables, d, kmap, v + 1) <= CopyNeeds(tables, d, kmap, end)
    ensures !Present(Entry(tables, d, v)) ==>
              DirsBelow(tables, d, v + 1) == DirsBelow(tables, d, v)
              && PagesBelow(tables, d, v + 1) == PagesBelow(tables, d, v)
    ensures Present(Entry(tables, d, v)) ==>
              var s := KernelDirs(kmap, |kmap|) + DirsBelow(tables, d, v);
              && KernelDirs(kmap, |kmap|) + DirsBelow(tables, d, v + 1) == s + {PageDir(v)}
              && |PagesBelow(tables, d, v + 1)| == |PagesBelow(tables, d, v)| + 1
              && |s + {PageDir(v)}| >= |s|
  {
    hide Entry, KernelDirs, PagesBelow, DirsBelow, PageDir;
    var k := KernelDirs(kmap, |kmap|);
    BelowMore(tables, d, v);
    BelowMono(tables, d, v + 1, end);
    SubsetSize(PagesBelow(tables, d, v + 1), PagesBelow(tables, d, end));
    SubsetSize(k + DirsBelow(tables, d, v + 1), k + DirsBelow(tables, d, end));
    if Present(Entry(tables, d, v)) {
      var s := k + DirsBelow(tables, d, v);
      assert k + DirsBelow(tables, d, v + 1) == s + {PageDir(v)};
      SubsetSize(s, s + {PageDir(v)});
    }
  }

  /** Frames that growing from page lo to page hi takes: one for each page, and one for each table that is missing. */
  ghost function GrowNeeds(tables: Tables, d: nat, lo: nat, hi: nat): (n: nat)
    requires d in tables && Shaped(tables) && lo <= hi
  {
    hi - lo + |DirsOf(lo, hi) - TablesOf(tables, d)|
  }

  lemma NoDirs(s: set<nat>, v: nat)
    ensures s + DirsOf(v, v) == s
  {
  }

  lemma DirsNext(lo: nat, v: nat, hi: nat)
    requires lo <= v < hi
    ensures DirsOf(lo, v) + {PageDir(v)} == DirsOf(lo, v + 1) <= DirsOf(lo, hi)
  {
    forall i | i in DirsOf(lo, v + 1) ensures i in DirsOf(lo, v) + {PageDir(v)} {
      var u: nat :| lo <= u < v + 1 && PageDir(u) == i;
    }
  }

  lemma Between(s: set<nat>, a: set<nat>, one: set<nat>, all: set<nat>)
    requires a + one <= all
    ensures s + a + one == s + (a + one) && |s + a| <= |s + a + one| <= |s| + |all - s|
  {
    SubsetSize(s + a, s + a + one);
    SubsetSize(s + a + one, s + (all - s));
    assert s !! all - s;
  }

  lemma OneMoreDir(s: set<nat>, lo: nat, v: nat, hi: nat)
    requires lo <= v < hi
    ensures s + DirsOf(lo, v) + {PageDir(v)} == s + DirsOf(lo, v + 1)
    ensures |s + DirsOf(lo, v)| <= |s + DirsOf(lo, v) + {PageDir(v)}| <= |s| + |DirsOf(lo, hi) - s|
  {
    hide DirsOf, PageDir;
    DirsNext(lo, v, hi);
    Between(s, DirsOf(lo, v), {PageDir(v)}, DirsOf(lo, hi));
  }

  lemma AllDirs(s: set<nat>, lo: nat, hi: nat)
    ensures |s + DirsOf(lo, hi)| == |s| + |DirsOf(lo, hi) - s|
  {
    assert s + DirsOf(lo, hi) == s + (DirsOf(lo, hi) - s);
  }

  lemma OneMoreTable(tables: Tables, d: nat, i: nat, t: nat)
    requires Shaped(tables) && d in tables && t !in tables && i < NENTRIES && !Present(tables[d][i])
    ensures var r := Put(tables[t := ZeroTable()], d, i, MkPte(t, PTE_WU));
            Shaped(r) && d in r && TablesOf(r, d) == TablesOf(tables, d) + {i} && i !in TablesOf(tables, d)
  {
  }

  lemma UnownedIsNoTable(tables: Tables, data: Pages, owner: map<nat, Owner>, t: nat)
    requires Wf(tables, data, owner) && t !in owner
    ensures t !in tables
  {
  }

  lemma NoTableThere(tables: Tables, d: nat, vpn: nat)
    requires Shaped(tables) && d in tables && vpn < NENTRIES * NENTRIES && !Present(tables[d][vpn / NENTRIES])
    ensures PageDir(vpn) !in TablesOf(tables, d)
  {
  }

  /** Writing an entry of a table changes no directory. */
  lemma TableIsNoDir(tables: Tables, data: Pages, owner: map<nat, Owner>, d: nat, vpn: nat, pte: nat)
    requires Wf(tables, data, owner) && IsDir(owner, d) && d in tables && vpn < NENTRIES * NENTRIES
    requires Present(tables[d][vpn / NENTRIES]) && Frame(tables[d][vpn / NENTRIES]) in tables
    ensures var r := Put(tables, Frame(tables[d][vpn / NENTRIES]), vpn % NENTRIES, pte);
            Shaped(r) && d in r && TablesOf(r, d) == TablesOf(tables, d)
  {
    TableThere(tables, data, owner, d, vpn / NENTRIES);
  }

  lemma SameAsBefore(tables: Tables, data: Pages, owner: map<nat, Owner>)
    requires Wf(tables, data, owner)
    ensures SameEntries(tables, tables, owner)
  {
  }

  lemma TableThere(tables: Tables, data: Pages, owner: map<nat, Owner>, d: nat, i: nat)
    requires Wf(tables, data, owner) && IsDir(owner, d) && d in tables && i < |tables[d]| && Present(tables[d][i])
    ensures Frame(tables[d][i]) in owner && Frame(tables[d][i]) in tables
  {
    hide UsrOwned;
    assert owner[Frame(tables[d][i])] == Tab(d, i);
  }

  lemma InRange(owner: map<nat, Owner>, free: seq<nat>, lo: nat, hi: nat, f: nat)
    requires Conserved(owner, free, lo, hi) && f in owner
    ensures f > 0
  {
  }

  lemma RetagHeld(free: seq<nat>, lo: nat, hi: nat, owner: map<nat, Owner>, f: nat, o: Owner)
    requires Conserved(owner, free, lo, hi) && f in owner
    ensures Conserved(owner[f := o], free, lo, hi)
  {
  }

  lemma HeldKeepsWf(tables: Tables, data: Pages, owner: map<nat, Owner>, f: nat)
    requires Wf(tables, data, owner) && f !in owner
    ensures Wf(tables, data, owner[f := Held])
  {
    hide TabsOwned, UsrOwned;
    HeldTabs(tables, owner, f);
    HeldUsr(tables, owner, f);
  }

  lemma HeldTabs(tables: Tables, owner: map<nat, Owner>, f: nat)
    requires Shaped(tables) && TabsOwned(tables, owner) && f !in owner
    ensures TabsOwned(tables, owner[f := Held])
  {
    hide Shaped;
  }

  lemma HeldUsr(tables: Tables, owner: map<nat, Owner>, f: nat)
    requires Shaped(tables) && UsrOwned(tables, owner) && f !in owner
    ensures UsrOwned(tables, owner[f := Held])
  {
    hide Shaped, Entry;
  }

  lemma SameEntriesOwner(tables: Tables, tables': Tables, owner: map<nat, Owner>, owner': map<nat, Owner>)
    requires Shaped(tables) && Shaped(tables') && SameEntries(tables, tables', owner')
    requires forall e :: IsDir(owner, e) ==> IsDir(owner', e)
    ensures SameEntries(tables, tables', owner)
  {
  }

  /** The owners are as before, but that directory d may have more tables. */
  ghost predicate MoreTables(owner: map<nat, Owner>, owner': map<nat, Owner>, d: nat)
  {
    && (forall f :: f in owner ==> f in owner' && owner'[f] == owner[f])
    && (forall f :: f in owner' && f !in owner ==> owner'[f].Tab? && owner'[f].d == d)
  }

  lemma NotPresentStill(tables: Tables, tables': Tables, owner: map<nat, Owner>, d: nat, vpn: nat)
    requires Shaped(tables) && Shaped(tables') && SameEntries(tables, tables', owner) && d in tables && IsDir(owner, d)
    requires vpn < USERPAGES
    ensures d in tables' && Entry(tables', d, vpn) == Entry(tables, d, vpn)
  {
  }

  lemma EntriesThen(t0: Tables, t1: Tables, t2: Tables, owner0: map<nat, Owner>, owner1: map<nat, Owner>, d: nat,
                    vpn: nat, pte: nat)
    requires Shaped(t0) && Shaped(t1) && Shaped(t2) && SameEntries(t0, t1, owner0)
    requires OnlyEntry(t1, t2, owner1, d, vpn, pte)
    requires forall e :: IsDir(owner0, e) ==> IsDir(owner1, e)
    ensures OnlyEntry(t0, t2, owner0, d, vpn, pte)
  {
    forall e, v {:trigger Entry(t2, e, v)} | e in t0 && IsDir(owner0, e) && 0 <= v < NENTRIES * NENTRIES
      ensures Entry(t2, e, v) == if e == d && v == vpn then pte else Entry(t0, e, v)
    {
      assert Entry(t1, e, v) == Entry(t0, e, v);
    }
  }

  /** PGROUNDUP, on sizes that do not wrap. */
  function RoundUp(n: nat): (r: nat)
    ensures r % PGSIZE == 0 && n <= r < n + PGSIZE
  {
    (n + PGSIZE - 1) / PGSIZE * PGSIZE
  }

  /** The page after the last that page v shares a table with: `PGADDR(PDX(a) + 1, 0, 0)`, in pages. */
  function TableEnd(v: nat): (r: nat) { (v / NENTRIES + 1) * NENTRIES }

  /** Page v starts below size. */
  lemma PageAt(v: nat, size: nat)
    requires v * PGSIZE < size <= KERNBASE
    ensures v * PGSIZE / PGSIZE == v < RoundUp(size) / PGSIZE <= USERPAGES
    ensures v < TableEnd(v) <= USERPAGES
  {
  }

  /** No page below size is left. */
  lemma PastEnd(v: nat, size: nat)
    requires v * PGSIZE >= size
    ensures v >= RoundUp(size) / PGSIZE
  {
  }

  lemma WholePages(a: nat, b: nat)
    requires a <= b
    ensures RoundUp(a) == RoundUp(a) / PGSIZE * PGSIZE && RoundUp(a) / PGSIZE <= RoundUp(b) / PGSIZE
  {
  }

  lemma EntryIs(tables: Tables, d: nat, vpn: nat, t: nat)
    requires Shaped(tables) && d in tables && vpn < NENTRIES * NENTRIES && Present(tables[d][vpn / NENTRIES])
    requires t == Frame(tables[d][vpn / NENTRIES]) && t in tables
    ensures Entry(tables, d, vpn) == tables[t][vpn % NENTRIES]
  {
  }

  lemma DropHeld(tables: Tables, data: Pages, owner: map<nat, Owner>, f: nat)
    requires Wf(tables, data, owner) && f in owner && owner[f] == Held
    ensures Wf(tables, data, owner - {f})
  {
  }

  lemma DirShaped(tables: Tables, data: Pages, owner: map<nat, Owner>, d: nat)
    requires Wf(tables, data, owner) && IsDir(owner, d)
    ensures Shaped(tables) && d in tables
  {
  }

  /** Pages [lo, hi) of directory d have been unmapped and their frames freed, and all else is as it was. */
  ghost predicate Unmapped(t0: Tables, data0: Pages, owner0: map<nat, Owner>, tables: Tables, data: Pages,
                           owner: map<nat, Owner>, d: nat, lo: nat, hi: nat)
    requires Shaped(t0) && Shaped(tables)
  {
    && (forall e :: e in t0 && IsDir(owner0, e) ==> e in tables)
    && (forall e, v {:trigger Entry(tables, e, v)} :: e in t0 && IsDir(owner0, e) && 0 <= v < NENTRIES * NENTRIES ==>
          Entry(tables, e, v) == if e == d && lo <= v < hi && Present(Entry(t0, e, v)) then 0 else Entry(t0, e, v))
    && (forall f :: f in owner <==> f in owner0 && !GoneFrom(owner0[f], d, lo, hi))
    && (forall f :: f in owner ==> owner[f] == owner0[f])
    && (forall f :: f in data <==> f in data0 && f in owner)
    && (forall f :: f in data ==> data[f] == data0[f])
  }

  predicate GoneFrom(o: Owner, d: nat, lo: nat, hi: nat) { o.Usr? && o.d == d && lo <= o.vpn < hi }

  lemma UnmappedNone(tables: Tables, data: Pages, owner: map<nat, Owner>, d: nat, lo: nat)
    requires Wf(tables, data, owner)
    ensures Unmapped(tables, data, owner, tables, data, owner, d, lo, lo)
  {
  }

  lemma EntryOf(tables: Tables, d: nat, vpn: nat, t: nat)
    requires Shaped(tables) && d in tables && vpn < NENTRIES * NENTRIES
    requires t != 0 ==> t in tables && Present(tables[d][vpn / NENTRIES]) && t == Frame(tables[d][vpn / NENTRIES])
    requires t == 0 ==> !Present(tables[d][vpn / NENTRIES])
    ensures Entry(tables, d, vpn) == if t == 0 then 0 else tables[t][vpn % NENTRIES]
  {
  }

  /** None of the pages [from, to) of directory d is present. */
  ghost predicate NonePresent(tables: Tables, d: nat, from: nat, to: nat)
    requires Shaped(tables)
  {
    d in tables && to <= USERPAGES
    && forall v {:trigger Entry(tables, d, v)} :: from <= v < to ==> !Present(Entry(tables, d, v))
  }

  lemma NoTable(tables: Tables, d: nat, vpn: nat, to: nat)
    requires Shaped(tables) && d in tables && vpn < USERPAGES && !Present(tables[d][vpn / NENTRIES])
    requires to <= TableEnd(vpn)
    ensures NonePresent(tables, d, vpn, to)
  {
    forall v | vpn <= v < to ensures !Present(Entry(tables, d, v)) {
      assert v / NENTRIES == vpn / NENTRIES;
    }
  }

  lemma NotThere(tables: Tables, d: nat, vpn: nat)
    requires Shaped(tables) && d in tables && vpn < USERPAGES && !Present(Entry(tables, d, vpn))
    ensures NonePresent(tables, d, vpn, vpn + 1)
  {
  }

  lemma UnmappedSkip(t0: Tables, data0: Pages, owner0: map<nat, Owner>, tables: Tables, data: Pages,
                     owner: map<nat, Owner>, d: nat, lo: nat, vpn: nat, to: nat)
    requires Wf(t0, data0, owner0) && Shaped(tables) && IsDir(owner0, d) && lo <= vpn <= to
    requires Unmapped(t0, data0, owner0, tables, data, owner, d, lo, vpn) && NonePresent(tables, d, vpn, to)
    ensures Unmapped(t0, data0, owner0, tables, data, owner, d, lo, to)
  {
    assert d in t0;
    forall v | vpn <= v < to ensures !Present(Entry(t0, d, v)) {
      assert Entry(tables, d, v) == Entry(t0, d, v);
    }
    forall f | f in owner0 ensures GoneFrom(owner0[f], d, lo, to) <==> GoneFrom(owner0[f], d, lo, vpn) {
      if owner0[f].Usr? && owner0[f].d == d && vpn <= owner0[f].vpn < to {
        assert Present(Entry(t0, d, owner0[f].vpn));
      }
    }
  }

  lemma UnmappedStep(t0: Tables, data0: Pages, owner0: map<nat, Owner>, t1: Tables, data1: Pages,
                     owner1: map<nat, Owner>, t2: Tables, data2: Pages, owner2: map<nat, Owner>, d: nat, lo: nat,
                     vpn: nat)
    requires Wf(t0, data0, owner0) && Shaped(t1) && Shaped(t2) && IsDir(owner0, d) && lo <= vpn < USERPAGES
    requires Unmapped(t0, data0, owner0, t1, data1, owner1, d, lo, vpn) && d in t1 && Present(Entry(t1, d, vpn))
    requires var f := Frame(Entry(t1, d, vpn));
             f in owner1 && owner1[f] == Usr(d, vpn) && owner2 == owner1 - {f} && data2 == data1 - {f}
    requires OnlyEntry(t1, t2, owner1, d, vpn, 0)
    ensures Unmapped(t0, data0, owner0, t2, data2, owner2, d, lo, vpn + 1)
  {
    hide TabsOwned, Entry;
    var f := Frame(Entry(t1, d, vpn));
    assert d in t0 && Entry(t1, d, vpn) == Entry(t0, d, vpn);
    assert forall e :: IsDir(owner0, e) ==> IsDir(owner1, e);
    forall e, v {:trigger Entry(t2, e, v)} | e in t0 && IsDir(owner0, e) && 0 <= v < NENTRIES * NENTRIES
      ensures Entry(t2, e, v) == if e == d && lo <= v < vpn + 1 && Present(Entry(t0, e, v)) then 0 else Entry(t0, e, v)
    {
      assert Entry(t1, e, v) == if e == d && lo <= v < vpn && Present(Entry(t0, e, v)) then 0 else Entry(t0, e, v);
    }
    forall g | g in owner0 ensures GoneFrom(owner0[g], d, lo, vpn + 1) <==> GoneFrom(owner0[g], d, lo, vpn) || g == f {
      if owner0[g].Usr? && owner0[g].d == d && owner0[g].vpn == vpn {
        assert Frame(Entry(t0, owner0[g].d, owner0[g].vpn)) == g;
      }
    }
  }

  /** Every present mapping of every directory is the same, and no other is present. */
  ghost predicate SameMappings(tables: Tables, tables': Tables, owner: map<nat, Owner>)
    requires Shaped(tables) && Shaped(tables')
  {
    && (forall e :: e in tables && IsDir(owner, e) ==> e in tables')
    && (forall e, v {:trigger Entry(tables', e, v)} ::
          e in tables && IsDir(owner, e) && 0 <= v < NENTRIES * NENTRIES ==>
          (Present(Entry(tables', e, v)) || Present(Entry(tables, e, v)) ==>
             Entry(tables', e, v) == Entry(tables, e, v)))
  }

  lemma SameEntriesMap(tables: Tables, tables': Tables, owner: map<nat, Owner>)
    requires Shaped(tables) && Shaped(tables') && SameEntries(tables, tables', owner)
    ensures SameMappings(tables, tables', owner)
  {
  }

  lemma NoMoreTables(owner: map<nat, Owner>, d: nat)
    ensures MoreTables(owner, owner, d)
  {
  }

  lemma RoundUpOrder(a: nat, b: nat)
    requires a <= b
    ensures RoundUp(a) <= RoundUp(b) && RoundUp(a) / PGSIZE <= RoundUp(b) / PGSIZE
    ensures RoundUp(a) >= b ==> RoundUp(a) / PGSIZE == RoundUp(b) / PGSIZE
  {
  }

  /** Pages [lo, hi) of directory d are new, zero-filled and writable by the user; all else is as it was. */
  ghost predicate Grew(t0: Tables, data0: Pages, owner0: map<nat, Owner>, tables: Tables, data: Pages,
                       owner: map<nat, Owner>, d: nat, lo: nat, hi: nat)
    requires Shaped(t0) && Shaped(tables)
  {
    && hi <= USERPAGES && (forall e :: e in t0 && IsDir(owner0, e) ==> e in tables)
    && (forall e, v {:trigger Entry(tables, e, v)} :: e in t0 && IsDir(owner0, e) && 0 <= v < NENTRIES * NENTRIES ==>
          if e == d && lo <= v < hi
          then Present(Entry(tables, e, v)) && Flags(Entry(tables, e, v)) == PTE_WU + 1
               && Frame(Entry(tables, e, v)) in data && data[Frame(Entry(tables, e, v))] == ZeroPage()
          else Entry(tables, e, v) == Entry(t0, e, v))
    && (forall f :: f in data0 ==> f in data && data[f] == data0[f])
    && (forall f :: f in owner0 ==> f in owner && owner[f] == owner0[f])
    && (forall f :: f in owner && f !in owner0 ==> (owner[f].Tab? && owner[f].d == d) || GoneFrom(owner[f], d, lo, hi))
  }

  lemma GrewNone(tables: Tables, data: Pages, owner: map<nat, Owner>, d: nat, lo: nat)
    requires Wf(tables, data, owner) && lo <= USERPAGES
    ensures Grew(tables, data, owner, tables, data, owner, d, lo, lo)
  {
  }

  lemma StillAbsent(t0: Tables, data0: Pages, owner0: map<nat, Owner>, tables: Tables, data: Pages,
                    owner: map<nat, Owner>, d: nat, lo: nat, vpn: nat, end: nat)
    requires Shaped(t0) && Shaped(tables) && Grew(t0, data0, owner0, tables, data, owner, d, lo, vpn)
    requires IsDir(owner0, d)
    requires NonePresent(t0, d, lo, end) && lo <= vpn < end
    ensures d in tables && vpn < USERPAGES && !Present(Entry(tables, d, vpn))
  {
  }

  lemma HeldNoData(tables: Tables, data: Pages, owner: map<nat, Owner>, f: nat)
    requires Wf(tables, data, owner) && f !in owner
    ensures f !in data && f !in tables
  {
  }

  lemma GrewStep(t0: Tables, data0: Pages, owner0: map<nat, Owner>, t1: Tables, data1: Pages, owner1: map<nat, Owner>,
                 t2: Tables, data2: Pages, owner2: map<nat, Owner>, d: nat, lo: nat, vpn: nat, f: nat)
    requires Shaped(t0) && Shaped(t1) && Shaped(t2) && f !in data1
    requires Grew(t0, data0, owner0, t1, data1, owner1, d, lo, vpn) && IsDir(owner0, d) && lo <= vpn < USERPAGES
    requires f !in owner1
    requires data2 == data1[f := ZeroPage()] && OnlyEntry(t1, t2, owner1[f := Held], d, vpn, MkPte(f, PTE_WU))
    requires MoreTables(owner1[f := Held][f := Usr(d, vpn)], owner2, d)
    ensures Grew(t0, data0, owner0, t2, data2, owner2, d, lo, vpn + 1)
  {
    hide Entry;
    assert forall e :: IsDir(owner0, e) ==> IsDir(owner1[f := Held], e);
    forall e, v {:trigger Entry(t2, e, v)} | e in t0 && IsDir(owner0, e) && 0 <= v < NENTRIES * NENTRIES
      ensures if e == d && lo <= v < vpn + 1
              then Present(Entry(t2, e, v)) && Flags(Entry(t2, e, v)) == PTE_WU + 1
                   && Frame(Entry(t2, e, v)) in data2 && data2[Frame(Entry(t2, e, v))] == ZeroPage()
              else Entry(t2, e, v) == Entry(t0, e, v)
    {
      assert Entry(t2, e, v) == if e == d && v == vpn then MkPte(f, PTE_WU) else Entry(t1, e, v);
    }
  }

  /** Taking the new pages away again leaves every address space as it was at the start. */
  lemma Undone(t0: Tables, data0: Pages, owner0: map<nat, Owner>, t1: Tables, data1: Pages, owner1: map<nat, Owner>,
               t2: Tables, data2: Pages, owner2: map<nat, Owner>, d: nat, lo: nat, vpn: nat, end: nat)
    requires Wf(t0, data0, owner0) && Wf(t1, data1, owner1) && Wf(t2, data2, owner2) && IsDir(owner0, d)
    requires lo <= vpn <= end
    requires Grew(t0, data0, owner0, t1, data1, owner1, d, lo, vpn)
    requires Unmapped(t1, data1, owner1, t2, data2, owner2, d, lo, end)
    requires NonePresent(t0, d, lo, end)
    ensures SameMappings(t0, t2, owner0) && data2 == data0 && MoreTables(owner0, owner2, d)
  {
    assert forall e :: IsDir(owner0, e) ==> IsDir(owner1, e);
    forall e, v {:trigger Entry(t2, e, v)} | e in t0 && IsDir(owner0, e) && 0 <= v < NENTRIES * NENTRIES
      ensures Present(Entry(t2, e, v)) || Present(Entry(t0, e, v)) ==> Entry(t2, e, v) == Entry(t0, e, v)
    {
      assert Entry(t2, e, v) == if e == d && lo <= v < end && Present(Entry(t1, e, v)) then 0 else Entry(t1, e, v);
    }
    UndoneOwners(t0, data0, owner0, t1, data1, owner1, t2, data2, owner2, d, lo, vpn, end);
  }

  lemma UndoneOwners(t0: Tables, data0: Pages, owner0: map<nat, Owner>, t1: Tables, data1: Pages,
                     owner1: map<nat, Owner>, t2: Tables, data2: Pages, owner2: map<nat, Owner>, d: nat, lo: nat,
                     vpn: nat, end: nat)
    requires Wf(t0, data0, owner0) && Wf(t1, data1, owner1) && Wf(t2, data2, owner2) && IsDir(owner0, d)
    requires lo <= vpn <= end
    requires Grew(t0, data0, owner0, t1, data1, owner1, d, lo, vpn)
    requires Unmapped(t1, data1, owner1, t2, data2, owner2, d, lo, end)
    requires NonePresent(t0, d, lo, end)
    ensures data2 == data0 && MoreTables(owner0, owner2, d)
  {
    hide TabsOwned, UsrOwned, Entry, NonePresent;
    NoneBelow(t0, data0, owner0, d, lo, end);
    forall f | f in owner2 && f !in owner0 ensures owner2[f].Tab? && owner2[f].d == d {
      assert f in owner1;
    }
    assert forall f :: f in data2 <==> f in data0;
  }

  lemma NoneBelow(tables: Tables, data: Pages, owner: map<nat, Owner>, d: nat, lo: nat, end: nat)
    requires Wf(tables, data, owner) && NonePresent(tables, d, lo, end)
    ensures forall f :: f in owner ==> !GoneFrom(owner[f], d, lo, end)
  {
    hide TabsOwned, Entry;
    forall f | f in owner ensures !GoneFrom(owner[f], d, lo, end) {
      if owner[f].Usr? && owner[f].d == d { assert Present(Entry(tables, d, owner[f].vpn)); }
    }
  }

  lemma UnmappedWithout(t1: Tables, data1: Pages, owner1: map<nat, Owner>, t2: Tables, data2: Pages,
                        owner2: map<nat, Owner>, d: nat, lo: nat, hi: nat, f: nat)
    requires Wf(t1, data1, owner1) && Shaped(t2) && f !in owner1
    requires Unmapped(t1, data1, owner1[f := Held], t2, data2, owner2, d, lo, hi)
    ensures f in owner2 && owner2[f] == Held && Unmapped(t1, data1, owner1, t2, data2, owner2 - {f}, d, lo, hi)
  {
    assert forall e :: IsDir(owner1, e) ==> IsDir(owner1[f := Held], e);
    assert f !in data1;
  }

  /** The tables in entries below k of directory d are gone, and nothing else. */
  ghost predicate Dropped(t0: Tables, owner0: map<nat, Owner>, tables: Tables, owner: map<nat, Owner>, d: nat, k: nat)
  {
    && (forall f :: f in owner <==> f in owner0 && !(owner0[f].Tab? && owner0[f].d == d && owner0[f].i < k))
    && (forall f :: f in owner ==> owner[f] == owner0[f])
    && (forall f :: f in tables <==> f in t0 && f in owner)
    && (forall f :: f in tables ==> tables[f] == t0[f])
  }

  lemma DroppedNone(tables: Tables, owner: map<nat, Owner>, d: nat)
    requires forall f :: f in tables ==> f in owner
    ensures Dropped(tables, owner, tables, owner, d, 0)
  {
  }

  lemma TabsFacts(tables: Tables, data: Pages, owner: map<nat, Owner>, d: nat)
    requires Kinds(tables, data, owner) && IsDir(owner, d)
    ensures d in tables && |tables[d]| == NENTRIES && forall f :: f in tables ==> f in owner
  {
  }

  lemma DroppedStep(t0: Tables, data: Pages, owner0: map<nat, Owner>, tables: Tables, owner: map<nat, Owner>, d: nat,
                    i: nat)
    requires Shaped(t0) && TabsOwned(t0, owner0) && Kinds(t0, data, owner0) && IsDir(owner0, d) && d in t0
    requires i < NENTRIES
    requires Dropped(t0, owner0, tables, owner, d, i) && d in tables
    ensures if !Present(t0[d][i]) then Dropped(t0, owner0, tables, owner, d, i + 1) else
              var t := Frame(t0[d][i]);
              t in owner && owner[t] == Tab(d, i) && t != d
              && Dropped(t0, owner0, tables - {t}, owner[t := Held] - {t}, d, i + 1)
  {
    hide TabsOwned, Shaped;
    OnlyTable(t0, owner0, d, i);
  }

  lemma OnlyTable(tables: Tables, owner: map<nat, Owner>, d: nat, i: nat)
    requires Shaped(tables) && TabsOwned(tables, owner) && IsDir(owner, d) && d in tables && i < NENTRIES
    ensures |tables[d]| == NENTRIES
    ensures forall f :: f in owner && owner[f] == Tab(d, i) ==> Present(tables[d][i]) && f == Frame(tables[d][i])
    ensures Present(tables[d][i]) ==> Frame(tables[d][i]) in owner && owner[Frame(tables[d][i])] == Tab(d, i)
  {
  }

  /** Frame f is part of the address space of directory d. */
  predicate Belongs(f: nat, o: Owner, d: nat)
  {
    (f == d && o == Dir) || (o.Tab? && o.d == d) || (o.Usr? && o.d == d)
  }

  /** Exactly the frames of directory d have been given up; all other address spaces are as they were. */
  ghost predicate SpaceFreed(t0: Tables, data0: Pages, owner0: map<nat, Owner>, tables: Tables, data: Pages,
                             owner: map<nat, Owner>, d: nat)
    requires Shaped(t0) && Shaped(tables)
  {
    && (forall f :: f in owner <==> f in owner0 && !Belongs(f, owner0[f], d))
    && (forall f :: f in owner ==> owner[f] == owner0[f])
    && (forall f :: f in data ==> f in data0 && data[f] == data0[f])
    && (forall e :: e in t0 && IsDir(owner0, e) && e != d ==> e in tables)
    && (forall e, v {:trigger Entry(tables, e, v)} ::
          e in t0 && IsDir(owner0, e) && e != d && 0 <= v < NENTRIES * NENTRIES ==>
          Entry(tables, e, v) == Entry(t0, e, v))
  }

  /** Directory d has no user page and its tables are out of the way: what is left is t and o. */
  ghost predicate Leftover(t1: Tables, owner1: map<nat, Owner>, t: Tables, o: map<nat, Owner>, d: nat)
  {
    && (forall f :: f in owner1 ==> !(owner1[f].Usr? && owner1[f].d == d))
    && (forall f :: f in o <==> f in owner1 && !Belongs(f, owner1[f], d))
    && (forall f :: f in o ==> o[f] == owner1[f])
    && (forall f :: f in t <==> f in t1 && f in o)
    && (forall f :: f in t ==> t[f] == t1[f])
  }

  lemma EntryKept(t1: Tables, data1: Pages, owner1: map<nat, Owner>, t: Tables, o: map<nat, Owner>, d: nat, e: nat,
                  v: nat)
    requires Shaped(t1) && Shaped(t) && TabsOwned(t1, owner1) && Kinds(t1, data1, owner1)
    requires Leftover(t1, owner1, t, o, d)
    requires e in t1 && IsDir(owner1, e) && e != d && v < NENTRIES * NENTRIES
    ensures e in t && Entry(t, e, v) == Entry(t1, e, v)
  {
    var pde := t1[e][v / NENTRIES];
    assert e in o;
    if Present(pde) { assert owner1[Frame(pde)] == Tab(e, v / NENTRIES); }
  }

  lemma LeftoverShaped(t1: Tables, data1: Pages, owner1: map<nat, Owner>, t: Tables, o: map<nat, Owner>, d: nat)
    requires Kinds(t1, data1, owner1) && Leftover(t1, owner1, t, o, d)
    ensures Kinds(t, data1, o)
  {
  }

  lemma LeftoverTabs(t1: Tables, data1: Pages, owner1: map<nat, Owner>, t: Tables, o: map<nat, Owner>, d: nat)
    requires Wf(t1, data1, owner1) && IsDir(owner1, d) && Shaped(t) && Leftover(t1, owner1, t, o, d)
    ensures TabsOwned(t, o)
  {
    hide UsrOwned;
    forall e, i {:trigger t[e][i]} | e in t && IsDir(o, e) && 0 <= i < NENTRIES && Present(t[e][i])
      ensures Frame(t[e][i]) in o && o[Frame(t[e][i])] == Tab(e, i)
    {
      assert t[e][i] == t1[e][i] && owner1[Frame(t1[e][i])] == Tab(e, i);
    }
    forall u | u in o && o[u].Tab?
      ensures o[u].d in t && IsDir(o, o[u].d) && o[u].i < NENTRIES && Present(t[o[u].d][o[u].i])
      ensures Frame(t[o[u].d][o[u].i]) == u
    {
      assert Present(t1[owner1[u].d][owner1[u].i]);
    }
  }

  lemma LeftoverUsers(t1: Tables, data1: Pages, owner1: map<nat, Owner>, t: Tables, o: map<nat, Owner>, d: nat)
    requires Wf(t1, data1, owner1) && IsDir(owner1, d) && Shaped(t) && Leftover(t1, owner1, t, o, d)
    ensures UsrOwned(t, o)
  {
    hide Entry;
    forall e, v {:trigger Entry(t, e, v)} | e in t && IsDir(o, e) && 0 <= v < USERPAGES && Present(Entry(t, e, v))
      ensures Frame(Entry(t, e, v)) in o && o[Frame(Entry(t, e, v))] == Usr(e, v)
    {
      EntryKept(t1, data1, owner1, t, o, d, e, v);
    }
    forall f | f in o && o[f].Usr?
      ensures o[f].d in t && IsDir(o, o[f].d) && o[f].vpn < USERPAGES
      ensures Present(Entry(t, o[f].d, o[f].vpn)) && Frame(Entry(t, o[f].d, o[f].vpn)) == f
    {
      assert Present(Entry(t1, owner1[f].d, owner1[f].vpn));
      EntryKept(t1, data1, owner1, t, o, d, owner1[f].d, owner1[f].vpn);
    }
  }

  lemma OwnersLeft(t0: Tables, data0: Pages, owner0: map<nat, Owner>, t1: Tables, data1: Pages, owner1: map<nat, Owner>,
                   t2: Tables, owner2: map<nat, Owner>, d: nat)
    requires Wf(t0, data0, owner0) && Wf(t1, data1, owner1) && IsDir(owner0, d)
    requires Unmapped(t0, data0, owner0, t1, data1, owner1, d, 0, USERPAGES)
    requires Dropped(t1, owner1, t2, owner2, d, NENTRIES)
    ensures IsDir(owner1, d) && IsDir(owner2, d) && Leftover(t1, owner1, t2 - {d}, owner2[d := Held] - {d}, d)
    ensures forall f :: f in owner1 && !Belongs(f, owner1[f], d) <==> f in owner0 && !Belongs(f, owner0[f], d)
  {
    hide Entry, Wf;
    Ranges(t0, data0, owner0);
    Ranges(t1, data1, owner1);
  }

  lemma Ranges(tables: Tables, data: Pages, owner: map<nat, Owner>)
    requires Wf(tables, data, owner)
    ensures forall f :: f in owner && owner[f].Usr? ==> owner[f].vpn < USERPAGES
    ensures forall f :: f in owner && owner[f].Tab? ==> owner[f].i < NENTRIES
    ensures Shaped(tables) && forall f :: f in tables <==> f in owner && (owner[f].Dir? || owner[f].Tab?)
  {
    hide Entry;
  }

  lemma SpaceGone(t0: Tables, data0: Pages, owner0: map<nat, Owner>, t1: Tables, data1: Pages, owner1: map<nat, Owner>,
                  t2: Tables, owner2: map<nat, Owner>, d: nat)
    requires Wf(t0, data0, owner0) && Wf(t1, data1, owner1) && IsDir(owner0, d)
    requires Unmapped(t0, data0, owner0, t1, data1, owner1, d, 0, USERPAGES)
    requires Dropped(t1, owner1, t2, owner2, d, NENTRIES)
    ensures IsDir(owner2, d)
    ensures Wf(t2 - {d}, data1, owner2[d := Held] - {d})
    ensures Shaped(t2 - {d}) && SpaceFreed(t0, data0, owner0, t2 - {d}, data1, owner2[d := Held] - {d}, d)
  {
    hide UsrOwned, TabsOwned, Entry, Dropped;
    var t3, o3 := t2 - {d}, owner2[d := Held] - {d};
    OwnersLeft(t0, data0, owner0, t1, data1, owner1, t2, owner2, d);
    LeftoverShaped(t1, data1, owner1, t3, o3, d);
    LeftoverTabs(t1, data1, owner1, t3, o3, d);
    LeftoverUsers(t1, data1, owner1, t3, o3, d);
    forall e, v {:trigger Entry(t3, e, v)} | e in t0 && IsDir(owner0, e) && e != d && 0 <= v < NENTRIES * NENTRIES
      ensures Entry(t3, e, v) == Entry(t0, e, v)
    {
      assert Entry(t1, e, v) == Entry(t0, e, v);
      EntryKept(t1, data1, owner1, t3, o3, d, e, v);
    }
  }

  lemma WfShaped(tables: Tables, data: Pages, owner: map<nat, Owner>)
    requires Wf(tables, data, owner)
    ensures Shaped(tables)
  {
  }

  lemma AllUnmapped(t0: Tables, data0: Pages, owner0: map<nat, Owner>, tables: Tables, data: Pages,
                    owner: map<nat, Owner>, d: nat)
    requires Wf(t0, data0, owner0) && Shaped(tables) && IsDir(owner0, d)
    requires Unmapped(t0, data0, owner0, tables, data, owner, d, 0, USERPAGES)
    ensures NonePresent(tables, d, 0, USERPAGES)
  {
    assert d in t0;
  }

  lemma FreedInTwo(t0: Tables, data0: Pages, owner0: map<nat, Owner>, t1: Tables, data1: Pages, owner1: map<nat, Owner>,
                   t2: Tables, data2: Pages, owner2: map<nat, Owner>, d: nat)
    requires Wf(t0, data0, owner0) && Shaped(t1) && Shaped(t2) && IsDir(owner0, d)
    requires Unmapped(t0, data0, owner0, t1, data1, owner1, d, 0, USERPAGES)
    requires SpaceFreed(t1, data1, owner1, t2, data2, owner2, d)
    ensures SpaceFreed(t0, data0, owner0, t2, data2, owner2, d)
  {
    hide Entry, Wf;
    Ranges(t0, data0, owner0);
    forall e, v {:trigger Entry(t2, e, v)} | e in t0 && IsDir(owner0, e) && e != d && 0 <= v < NENTRIES * NENTRIES
      ensures Entry(t2, e, v) == Entry(t0, e, v)
    {
      assert Entry(t1, e, v) == Entry(t0, e, v);
    }
  }

  /** Kernel pages to map, each once, with the entries to store. */
  ghost predicate KernelMap(kmap: seq<(nat, nat)>)
  {
    && (forall k :: 0 <= k < |kmap| ==> USERPAGES <= kmap[k].0 < NENTRIES * NENTRIES && Present(kmap[k].1))
    && (forall j, k :: 0 <= j < k < |kmap| ==> kmap[j].0 != kmap[k].0)
  }

  lemma KernelMapAt(kmap: seq<(nat, nat)>, k: nat)
    requires KernelMap(kmap) && k < |kmap|
    ensures USERPAGES <= kmap[k].0 < NENTRIES * NENTRIES
  {
  }

  /** The kernel half of d has the first k kernel pages, each on its frame, and no other page. */
  ghost predicate MappedSoFar(tables: Tables, d: nat, kmap: seq<(nat, nat)>, k: nat)
    requires Shaped(tables)
  {
    && d in tables && k <= |kmap| && KernelMap(kmap)
    && (forall j :: 0 <= j < k ==> Entry(tables, d, kmap[j].0) == kmap[j].1)
    && (forall v: nat {:trigger Entry(tables, d, v)} ::
          USERPAGES <= v < NENTRIES * NENTRIES && Present(Entry(tables, d, v)) ==> Mentioned(kmap, k, v))
  }

  ghost predicate Mentioned(kmap: seq<(nat, nat)>, k: nat, v: nat)
    requires k <= |kmap|
  {
    exists j :: 0 <= j < k && kmap[j].0 == v
  }

  /** Two directories have the same pages from KERNBASE on. */
  ghost predicate SameKernel(t0: Tables, d: nat, tables: Tables, nd: nat)
    requires Shaped(t0) && Shaped(tables)
  {
    && d in t0 && nd in tables
    && forall v: nat {:trigger Entry(tables, nd, v)} :: USERPAGES <= v < NENTRIES * NENTRIES ==>
         && Present(Entry(tables, nd, v)) == Present(Entry(t0, d, v))
         && (Present(Entry(t0, d, v)) ==> Entry(tables, nd, v) == Entry(t0, d, v))
  }

  lemma KernelAgrees(t0: Tables, d: nat, tables: Tables, nd: nat, kmap: seq<(nat, nat)>)
    requires Shaped(t0) && Shaped(tables)
    requires MappedSoFar(t0, d, kmap, |kmap|) && MappedSoFar(tables, nd, kmap, |kmap|)
    ensures SameKernel(t0, d, tables, nd)
  {
    hide Entry, KernelMap;
    KernelPages(kmap);
    forall v: nat {:trigger Entry(tables, nd, v)} | USERPAGES <= v < NENTRIES * NENTRIES
      ensures Present(Entry(tables, nd, v)) == Present(Entry(t0, d, v))
      ensures Present(Entry(t0, d, v)) ==> Entry(tables, nd, v) == Entry(t0, d, v)
    {
      if Mentioned(kmap, |kmap|, v) {
        var j :| 0 <= j < |kmap| && kmap[j].0 == v;
        assert Entry(t0, d, kmap[j].0) == Entry(tables, nd, kmap[j].0);
      }
    }
  }

  lemma KernelPages(kmap: seq<(nat, nat)>)
    requires KernelMap(kmap)
    ensures forall k :: 0 <= k < |kmap| ==> USERPAGES <= kmap[k].0 < NENTRIES * NENTRIES && Present(kmap[k].1)
  {
  }

  /** A user page more or less changes nothing in the kernel half. */
  lemma KernelKept(tables: Tables, tables': Tables, owner: map<nat, Owner>, d: nat, vpn: nat, pte: nat,
                   kmap: seq<(nat, nat)>)
    requires Shaped(tables) && Shaped(tables') && OnlyEntry(tables, tables', owner, d, vpn, pte) && vpn < USERPAGES
    requires MappedSoFar(tables, d, kmap, |kmap|) && IsDir(owner, d)
    ensures MappedSoFar(tables', d, kmap, |kmap|)
  {
    hide Entry, KernelMap, Mentioned;
    KernelPages(kmap);
    forall v: nat {:trigger Entry(tables', d, v)} | USERPAGES <= v < NENTRIES * NENTRIES
      ensures d in tables' && Entry(tables', d, v) == Entry(tables, d, v)
    {
    }
  }

  lemma NewDir(tables: Tables, data: Pages, owner: map<nat, Owner>, d: nat, kmap: seq<(nat, nat)>)
    requires Wf(tables, data, owner) && d !in owner && KernelMap(kmap)
    ensures Shaped(tables[d := ZeroTable()]) && Wf(tables[d := ZeroTable()], data, owner[d := Dir])
    ensures SameEntries(tables, tables[d := ZeroTable()], owner)
    ensures NonePresent(tables[d := ZeroTable()], d, 0, USERPAGES)
    ensures MappedSoFar(tables[d := ZeroTable()], d, kmap, 0)
  {
    var r, o := tables[d := ZeroTable()], owner[d := Dir];
    assert d !in tables;
    forall e, v {:trigger Entry(r, e, v)} | e in tables && IsDir(owner, e) && 0 <= v < NENTRIES * NENTRIES
      ensures Entry(r, e, v) == Entry(tables, e, v)
    {
      var pde := tables[e][v / NENTRIES];
      if Present(pde) { assert owner[Frame(pde)] == Tab(e, v / NENTRIES); }
    }
    NewDirOwned(tables, data, owner, d);
  }

  lemma NewDirOwned(tables: Tables, data: Pages, owner: map<nat, Owner>, d: nat)
    requires Wf(tables, data, owner) && d !in owner && Shaped(tables[d := ZeroTable()])
    requires SameEntries(tables, tables[d := ZeroTable()], owner)
    ensures TabsOwned(tables[d := ZeroTable()], owner[d := Dir]) && UsrOwned(tables[d := ZeroTable()], owner[d := Dir])
  {
    hide TabsOwned, UsrOwned, SameEntries;
    NewDirTabs(tables, data, owner, d);
    NewDirUsr(tables, data, owner, d);
  }

  lemma NewDirTabs(tables: Tables, data: Pages, owner: map<nat, Owner>, d: nat)
    requires Wf(tables, data, owner) && d !in owner && Shaped(tables[d := ZeroTable()])
    ensures TabsOwned(tables[d := ZeroTable()], owner[d := Dir])
  {
    hide UsrOwned;
    var r, o := tables[d := ZeroTable()], owner[d := Dir];
    forall u | u in o && o[u].Tab?
      ensures o[u].d in r && IsDir(o, o[u].d) && o[u].i < NENTRIES && Present(r[o[u].d][o[u].i])
      ensures Frame(r[o[u].d][o[u].i]) == u
    {
      assert Present(tables[owner[u].d][owner[u].i]);
    }
  }

  lemma NewDirUsr(tables: Tables, data: Pages, owner: map<nat, Owner>, d: nat)
    requires Wf(tables, data, owner) && d !in owner && Shaped(tables[d := ZeroTable()])
    requires SameEntries(tables, tables[d := ZeroTable()], owner)
    ensures UsrOwned(tables[d := ZeroTable()], owner[d := Dir])
  {
    hide TabsOwned, Entry;
    var r, o := tables[d := ZeroTable()], owner[d := Dir];
    forall vpn | 0 <= vpn < USERPAGES ensures !Present(Entry(r, d, vpn)) {
      NoEntry(r, d, vpn);
    }
    forall f | f in o && o[f].Usr?
      ensures o[f].d in r && IsDir(o, o[f].d) && o[f].vpn < USERPAGES
      ensures Present(Entry(r, o[f].d, o[f].vpn)) && Frame(Entry(r, o[f].d, o[f].vpn)) == f
    {
      assert Present(Entry(tables, owner[f].d, owner[f].vpn));
    }
  }

  lemma NoEntry(tables: Tables, d: nat, vpn: nat)
    requires Shaped(tables) && d in tables && tables[d] == ZeroTable() && vpn < NENTRIES * NENTRIES
    ensures !Present(Entry(tables, d, vpn))
  {
  }

  /** Storing a kernel entry disturbs no user page. */
  lemma KernelEntry(tables: Tables, data: Pages, owner: map<nat, Owner>, d: nat, vpn: nat, pte: nat)
    requires Wf(tables, data, owner) && IsDir(owner, d) && d in tables && USERPAGES <= vpn < NENTRIES * NENTRIES
    requires Present(tables[d][vpn / NENTRIES])
    ensures var t := Frame(tables[d][vpn / NENTRIES]);
            && t in tables && Shaped(Put(tables, t, vpn % NENTRIES, pte))
            && Wf(Put(tables, t, vpn % NENTRIES, pte), data, owner)
            && OnlyEntry(tables, Put(tables, t, vpn % NENTRIES, pte), owner, d, vpn, pte)
            && d in Put(tables, t, vpn % NENTRIES, pte)
  {
    var t := Frame(tables[d][vpn / NENTRIES]);
    assert owner[t] == Tab(d, vpn / NENTRIES);
    UpdateEntry(tables, owner, d, vpn, pte);
    var r := Put(tables, t, vpn % NENTRIES, pte);
    forall f | f in owner && owner[f].Usr?
      ensures owner[f].d in r && Present(Entry(r, owner[f].d, owner[f].vpn))
      ensures Frame(Entry(r, owner[f].d, owner[f].vpn)) == f
    {
      assert Present(Entry(tables, owner[f].d, owner[f].vpn));
    }
  }

  lemma KernelMapped(t0: Tables, owner0: map<nat, Owner>, t1: Tables, owner1: map<nat, Owner>, t2: Tables,
                     owner2: map<nat, Owner>, t3: Tables, d: nat, kmap: seq<(nat, nat)>, k: nat)
    requires Shaped(t0) && Shaped(t1) && Shaped(t2) && Shaped(t3) && KernelMap(kmap) && k < |kmap|
    requires SameEntries(t0, t1, owner0) && NonePresent(t1, d, 0, USERPAGES) && MoreTables(owner0[d := Dir], owner1, d)
    requires IsDir(owner1, d) && d in t1 && d !in owner0 && MoreTables(owner1, owner2, d)
    requires SameEntries(t1, t2, owner1) && OnlyEntry(t2, t3, owner2, d, kmap[k].0, kmap[k].1)
    requires MappedSoFar(t1, d, kmap, k)
    ensures SameEntries(t0, t3, owner0) && NonePresent(t3, d, 0, USERPAGES) && MoreTables(owner0[d := Dir], owner2, d)
    ensures MappedSoFar(t3, d, kmap, k + 1)
  {
    hide Entry;
    assert d in t2 && d in t3;
    forall e, v {:trigger Entry(t3, e, v)} | e in t0 && IsDir(owner0, e) && 0 <= v < NENTRIES * NENTRIES
      ensures e in t3 && Entry(t3, e, v) == Entry(t0, e, v)
    {
      assert IsDir(owner1, e) && Entry(t1, e, v) == Entry(t0, e, v);
      assert Entry(t2, e, v) == Entry(t1, e, v);
    }
    forall v | 0 <= v < NENTRIES * NENTRIES
      ensures Entry(t3, d, v) == if v == kmap[k].0 then kmap[k].1 else Entry(t1, d, v)
    {
      assert Entry(t2, d, v) == Entry(t1, d, v);
    }
  }

  lemma SetupUndone(t0: Tables, data0: Pages, owner0: map<nat, Owner>, t1: Tables, data1: Pages,
                    owner1: map<nat, Owner>, t2: Tables, data2: Pages, owner2: map<nat, Owner>, d: nat)
    requires Wf(t0, data0, owner0) && Shaped(t1) && Wf(t2, data2, owner2) && d !in owner0 && data1 == data0
    requires SameEntries(t0, t1, owner0) && MoreTables(owner0[d := Dir], owner1, d)
    requires SpaceFreed(t1, data1, owner1, t2, data2, owner2, d)
    ensures owner2 == owner0 && data2 == data0 && SameEntries(t0, t2, owner0)
  {
    hide Entry, UsrOwned, TabsOwned;
    NothingBelongs(t0, data0, owner0, d);
    assert forall f :: f in owner2 <==> f in owner0;
    assert forall f :: f in data2 <==> f in data0;
    forall e, v {:trigger Entry(t2, e, v)} | e in t0 && IsDir(owner0, e) && 0 <= v < NENTRIES * NENTRIES
      ensures e in t2 && Entry(t2, e, v) == Entry(t0, e, v)
    {
      assert IsDir(owner1, e) && Entry(t1, e, v) == Entry(t0, e, v);
    }
  }

  lemma NothingBelongs(tables: Tables, data: Pages, owner: map<nat, Owner>, d: nat)
    requires Wf(tables, data, owner) && d !in owner
    ensures forall f :: f in owner ==> !Belongs(f, owner[f], d)
  {
    forall f | f in owner ensures !Belongs(f, owner[f], d) {
      if owner[f].Tab? { assert IsDir(owner, owner[f].d); }
      if owner[f].Usr? { assert IsDir(owner, owner[f].d); }
    }
  }

  /** Directory nd is new, and its first v pages look just as those of d did; nothing else has changed. */
  ghost predicate Copied(t0: Tables, data0: Pages, owner0: map<nat, Owner>, tables: Tables, data: Pages,
                         owner: map<nat, Owner>, d: nat, nd: nat, v: nat)
  {
    && Shaped(t0) && Shaped(tables) && nd !in owner0 && nd in tables && d in t0 && v <= USERPAGES
    && SameEntries(t0, tables, owner0)
    && (forall w {:trigger Look(tables, data, nd, w)} :: 0 <= w < USERPAGES ==>
          Look(tables, data, nd, w) == if w < v then Look(t0, data0, d, w) else Absent)
    && (forall f :: f in data0 ==> f in data && data[f] == data0[f])
    && (forall f :: f in owner0 ==> f in owner && owner[f] == owner0[f])
    && (forall f :: f in owner && f !in owner0 ==> Belongs(f, owner[f], nd))
  }

  lemma CopiedNone(t0: Tables, data0: Pages, owner0: map<nat, Owner>, tables: Tables, owner: map<nat, Owner>, d: nat,
                   nd: nat)
    requires Shaped(t0) && Shaped(tables) && d in t0 && nd in tables && nd !in owner0
    requires SameEntries(t0, tables, owner0) && NonePresent(tables, nd, 0, USERPAGES)
    requires MoreTables(owner0[nd := Dir], owner, nd)
    ensures Copied(t0, data0, owner0, tables, data0, owner, d, nd, 0)
  {
    hide Entry;
    forall w {:trigger Look(tables, data0, nd, w)} | 0 <= w < USERPAGES ensures Look(tables, data0, nd, w) == Absent {
      assert !Present(Entry(tables, nd, w));
    }
  }

  lemma CopiedFacts(t0: Tables, data0: Pages, owner0: map<nat, Owner>, tables: Tables, data: Pages,
                    owner: map<nat, Owner>, d: nat, nd: nat, v: nat)
    requires Wf(t0, data0, owner0) && Wf(tables, data, owner) && IsDir(owner0, d) && v < USERPAGES && IsDir(owner, nd)
    requires Copied(t0, data0, owner0, tables, data, owner, d, nd, v)
    ensures IsDir(owner, d) && d in tables && Entry(tables, d, v) == Entry(t0, d, v)
    ensures nd in tables && !Present(Entry(tables, nd, v)) && d in t0
    ensures forall f :: f in data0 ==> f in data && data[f] == data0[f]
  {
    assert Look(tables, data, nd, v) == Absent;
    PageBacked(tables, data, owner, nd, v);
    assert d in tables;
  }

  lemma PageThere(t0: Tables, data0: Pages, owner0: map<nat, Owner>, tables: Tables, data: Pages, d: nat, v: nat)
    requires Wf(t0, data0, owner0) && Shaped(tables) && IsDir(owner0, d) && d in t0 && v < USERPAGES && d in tables
    requires Present(Entry(t0, d, v)) && Entry(tables, d, v) == Entry(t0, d, v)
    requires forall f :: f in data0 ==> f in data && data[f] == data0[f]
    ensures var f := Frame(Entry(t0, d, v)); f in data0 && f in data && data[f] == data0[f] && |data[f].bytes| == PGSIZE
    ensures Flags(Entry(t0, d, v)) < PGSIZE
  {
    assert owner0[Frame(Entry(t0, d, v))] == Usr(d, v);
  }

  lemma CopiedSkip(t0: Tables, data0: Pages, owner0: map<nat, Owner>, tables: Tables, data: Pages,
                   owner: map<nat, Owner>, d: nat, nd: nat, v: nat)
    requires Shaped(t0) && Shaped(tables) && v < USERPAGES && Copied(t0, data0, owner0, tables, data, owner, d, nd, v)
    requires !Present(Entry(t0, d, v))
    ensures Copied(t0, data0, owner0, tables, data, owner, d, nd, v + 1)
  {
    hide Entry;
    assert Look(t0, data0, d, v) == Absent;
  }

  lemma CopiedStep(t0: Tables, data0: Pages, owner0: map<nat, Owner>, t1: Tables, data1: Pages, owner1: map<nat, Owner>,
                   t2: Tables, data2: Pages, owner2: map<nat, Owner>, d: nat, nd: nat, v: nat, f: nat, perm: nat)
    requires Shaped(t0) && Shaped(t1) && Shaped(t2) && v < USERPAGES && d in t0 && f !in owner1 && f !in data1
    requires Present(Entry(t0, d, v)) && Frame(Entry(t0, d, v)) in data0 && perm == Flags(Entry(t0, d, v)) < PGSIZE
    requires data2 == data1[f := data0[Frame(Entry(t0, d, v))]]
    requires OnlyEntry(t1, t2, owner1[f := Held], nd, v, MkPte(f, perm))
    requires Wf(t1, data1, owner1) && IsDir(owner0, d) && IsDir(owner1, nd)
    requires Copied(t0, data0, owner0, t1, data1, owner1, d, nd, v)
    requires MoreTables(owner1[f := Held][f := Usr(nd, v)], owner2, nd)
    ensures Copied(t0, data0, owner0, t2, data2, owner2, d, nd, v + 1)
  {
    hide Wf, Entry, Look;
    var o := owner1[f := Held];
    assert IsDir(o, nd);
    forall e, w {:trigger Entry(t2, e, w)} | e in t0 && IsDir(owner0, e) && 0 <= w < NENTRIES * NENTRIES
      ensures Entry(t2, e, w) == Entry(t0, e, w)
    {
      assert IsDir(o, e) && e in t1 && Entry(t1, e, w) == Entry(t0, e, w);
    }
    forall w {:trigger Look(t2, data2, nd, w)} | 0 <= w < USERPAGES
      ensures Look(t2, data2, nd, w) == if w < v + 1 then Look(t0, data0, d, w) else Absent
    {
      CopiedLook(t0, data0, t1, data1, owner1, t2, data2, d, nd, v, f, w);
    }
  }

  lemma CopiedLook(t0: Tables, data0: Pages, t1: Tables, data1: Pages, owner1: map<nat, Owner>, t2: Tables,
                   data2: Pages, d: nat, nd: nat, v: nat, f: nat, w: nat)
    requires Shaped(t0) && Shaped(t1) && Shaped(t2) && Wf(t1, data1, owner1) && IsDir(owner1, nd) && f !in data1
    requires d in t0 && nd in t1 && nd in t2 && v < USERPAGES && w < USERPAGES
    requires Present(Entry(t0, d, v)) && Frame(Entry(t0, d, v)) in data0
    requires data2 == data1[f := data0[Frame(Entry(t0, d, v))]]
    requires Entry(t2, nd, w) == if w == v then MkPte(f, Flags(Entry(t0, d, v))) else Entry(t1, nd, w)
    requires w != v ==> Look(t1, data1, nd, w) == if w < v then Look(t0, data0, d, w) else Absent
    ensures Look(t2, data2, nd, w) == if w < v + 1 then Look(t0, data0, d, w) else Absent
  {
    hide Wf, Entry;
    if w == v {
      OddFlags(Entry(t0, d, v));
    } else {
      PageBacked(t1, data1, owner1, nd, w);
    }
  }

  lemma OddFlags(pte: nat)
    requires Present(pte)
    ensures Flags(pte) / 2 * 2 + 1 == Flags(pte) < PGSIZE
  {
  }

  lemma PageBacked(tables: Tables, data: Pages, owner: map<nat, Owner>, d: nat, w: nat)
    requires Wf(tables, data, owner) && d in tables && IsDir(owner, d) && w < USERPAGES
    ensures Present(Entry(tables, d, w)) ==> Frame(Entry(tables, d, w)) in data && Frame(Entry(tables, d, w)) in owner
  {
    if Present(Entry(tables, d, w)) { assert owner[Frame(Entry(tables, d, w))] == Usr(d, w); }
  }

  /** No two pages, of one address space or of two, share a frame; in particular a child's are its own. */
  lemma FramesApart(tables: Tables, data: Pages, owner: map<nat, Owner>, d: nat, v: nat, e: nat, w: nat)
    requires Wf(tables, data, owner) && IsDir(owner, d) && IsDir(owner, e) && d in tables && e in tables
    requires v < USERPAGES && w < USERPAGES
    requires Present(Entry(tables, d, v)) && Present(Entry(tables, e, w))
    ensures Frame(Entry(tables, d, v)) == Frame(Entry(tables, e, w)) <==> d == e && v == w
  {
    assert owner[Frame(Entry(tables, d, v))] == Usr(d, v);
    assert owner[Frame(Entry(tables, e, w))] == Usr(e, w);
  }

  lemma CopyUndone(t0: Tables, data0: Pages, owner0: map<nat, Owner>, t1: Tables, data1: Pages, owner1: map<nat, Owner>,
                   t2: Tables, data2: Pages, owner2: map<nat, Owner>, d: nat, nd: nat, v: nat)
    requires Wf(t0, data0, owner0) && Wf(t1, data1, owner1) && Wf(t2, data2, owner2)
    requires Copied(t0, data0, owner0, t1, data1, owner1, d, nd, v)
    requires SpaceFreed(t1, data1, owner1, t2, data2, owner2, nd)
    ensures owner2 == owner0 && data2 == data0 && SameEntries(t0, t2, owner0)
  {
    hide Entry, UsrOwned, TabsOwned;
    NothingBelongs(t0, data0, owner0, nd);
    assert forall f :: f in owner2 <==> f in owner0;
    assert forall f :: f in data2 <==> f in data0;
    forall e, w {:trigger Entry(t2, e, w)} | e in t0 && IsDir(owner0, e) && 0 <= w < NENTRIES * NENTRIES
      ensures e in t2 && Entry(t2, e, w) == Entry(t0, e, w)
    {
      assert IsDir(owner1, e) && e in t1 && Entry(t1, e, w) == Entry(t0, e, w);
    }
  }
}
