/**
Two-level page tables (vm.c) and the frames they are made of (kalloc.c), as values. Every frame of
physical memory is on the free list or has one owner, and the owner says where it is pointed to from.
*/
module VmSpec {
  import opened Param

  const PGSIZE := 4096
  const NENTRIES := 1024        // NPDENTRIES and NPTENTRIES
  const USERPAGES := 524288     // pages below KERNBASE
  const KERNBASE := 0x8000_0000

  datatype Page = Page(bytes: seq<Byte>)

  function ZeroPage(): (p: Page)
    ensures |p.bytes| == PGSIZE && forall k :: 0 <= k < PGSIZE ==> p.bytes[k] == 0
  {
    Page(seq(PGSIZE, _ => 0))
  }

  /** A page table (or directory) entry: PTE_ADDR above, the flags in the low 12 bits, PTE_P the lowest. */
  predicate Present(pte: nat) { pte % 2 == 1 }
  function Frame(pte: nat): (f: nat) { pte / PGSIZE }
  function Flags(pte: nat): (f: nat) { pte % PGSIZE }

  /** `pa | perm | PTE_P` for the page at frame f */
  function MkPte(f: nat, perm: nat): (pte: nat)
    requires perm < PGSIZE
    ensures Present(pte) && Frame(pte) == f && Flags(pte) == perm / 2 * 2 + 1
  {
    f * PGSIZE + perm / 2 * 2 + 1
  }

  const PTE_WU := 6 // PTE_W | PTE_U

  type Tables = map<nat, seq<nat>>
  type Pages = map<nat, Page>

  /** A frame in use: a page directory, the table in entry i of directory d, user page vpn of directory d,
      or something that is no part of an address space. */
  datatype Owner = Dir | Tab(d: nat, i: nat) | Usr(d: nat, vpn: nat) | Held

  /** What walkpgdir finds for page vpn: the entry, or 0 when there is no table for it. */
  function Entry(tables: Tables, d: nat, vpn: nat): (pte: nat)
    requires d in tables && |tables[d]| == NENTRIES && vpn < NENTRIES * NENTRIES
    requires Shaped(tables)
  {
    var pde := tables[d][vpn / NENTRIES];
    if Present(pde) && Frame(pde) in tables then tables[Frame(pde)][vpn % NENTRIES] else 0
  }

  predicate Shaped(tables: Tables)
  {
    forall t :: t in tables ==> |tables[t]| == NENTRIES
  }

  function PageDir(vpn: nat): (i: nat) { vpn / NENTRIES }

  /** The directory entries of d that have a table. */
  ghost function TablesOf(tables: Tables, d: nat): (s: set<nat>)
    requires d in tables && Shaped(tables)
  {
    set i | 0 <= i < NENTRIES && Present(tables[d][i])
  }

  /** The directory entries that pages lo to hi - 1 go through. */
  ghost function DirsOf(lo: nat, hi: nat): (s: set<nat>) { set u: nat | lo <= u < hi :: PageDir(u) }

  ghost predicate IsDir(owner: map<nat, Owner>, d: nat) { d in owner && owner[d] == Dir }

  /** Frames by kind: tables and directories hold entries, user pages hold bytes. */
  ghost predicate Kinds(tables: Tables, data: Pages, owner: map<nat, Owner>)
  {
    && Shaped(tables)
    && (forall f :: f in tables <==> f in owner && (owner[f].Dir? || owner[f].Tab?))
    && (forall f :: f in data <==> f in owner && owner[f].Usr?)
    && (forall f :: f in data ==> |data[f].bytes| == PGSIZE)
  }

  /** Directory entries and table frames point at each other, and a directory entry never stands in the way of an
      access: what its table allows is allowed. */
  ghost predicate TabsOwned(tables: Tables, owner: map<nat, Owner>)
    requires Shaped(tables)
  {
    && (forall d, i {:trigger tables[d][i]} ::
          d in tables && IsDir(owner, d) && 0 <= i < NENTRIES && Present(tables[d][i]) ==>
          && Frame(tables[d][i]) in owner && owner[Frame(tables[d][i])] == Tab(d, i)
          && Flags(tables[d][i]) == PTE_WU + 1)
    && (forall t :: t in owner && owner[t].Tab? ==>
          && owner[t].d in tables && IsDir(owner, owner[t].d) && owner[t].i < NENTRIES
          && Present(tables[owner[t].d][owner[t].i]) && Frame(tables[owner[t].d][owner[t].i]) == t)
  }

  /** User entries and user frames point at each other. */
  ghost predicate UsrOwned(tables: Tables, owner: map<nat, Owner>)
    requires Shaped(tables)
  {
    && (forall d, vpn {:trigger Entry(tables, d, vpn)} ::
          d in tables && IsDir(owner, d) && 0 <= vpn < USERPAGES && Present(Entry(tables, d, vpn)) ==>
          Frame(Entry(tables, d, vpn)) in owner && owner[Frame(Entry(tables, d, vpn))] == Usr(d, vpn))
    && (forall f :: f in owner && owner[f].Usr? ==>
          && owner[f].d in tables && IsDir(owner, owner[f].d) && owner[f].vpn < USERPAGES
          && Present(Entry(tables, owner[f].d, owner[f].vpn)) && Frame(Entry(tables, owner[f].d, owner[f].vpn)) == f)
  }

  /** Every frame from lo to hi is free or owned, never both. */
  ghost predicate Conserved(owner: map<nat, Owner>, free: seq<nat>, lo: nat, hi: nat)
  {
    && 0 < lo
    && (forall f: nat :: f in owner || f in free <==> lo <= f < hi)
    && (forall f: nat :: f in owner ==> f !in free)
    && (forall i, j :: 0 <= i < j < |free| ==> free[i] != free[j])
  }

  ghost predicate Wf(tables: Tables, data: Pages, owner: map<nat, Owner>)
  {
    Kinds(tables, data, owner) && TabsOwned(tables, owner) && UsrOwned(tables, owner)
  }

  /** What a process sees: the bytes and flags of each user page it has, nothing of pages it has not. */
  datatype View = Absent | Seen(page: Page, flags: nat)

  ghost function Look(tables: Tables, data: Pages, d: nat, vpn: nat): (v: View)
    requires d in tables && Shaped(tables) && vpn < USERPAGES
  {
    if Present(Entry(tables, d, vpn)) && Frame(Entry(tables, d, vpn)) in data
    then Seen(data[Frame(Entry(tables, d, vpn))], Flags(Entry(tables, d, vpn))) else Absent
  }

  /* ---------------- elementary changes ---------------- */

  function ZeroTable(): (t: seq<nat>)
    ensures |t| == NENTRIES && forall k :: 0 <= k < NENTRIES ==> t[k] == 0
  {
    seq(NENTRIES, _ => 0)
  }

  /** `tables[t][j] = pte` */
  function Put(tables: Tables, t: nat, j: nat, pte: nat): (r: Tables)
    requires t in tables && j < |tables[t]|
  {
    var row: seq<nat> := tables[t];
    var row': seq<nat> := row[j := pte];
    tables[t := row']
  }

  /** All entries of all directories are as they were, but for the entry of page vpn of directory d. */
  ghost predicate OnlyEntry(tables: Tables, tables': Tables, owner: map<nat, Owner>, d: nat, vpn: nat, pte: nat)
    requires Shaped(tables) && Shaped(tables')
  {
    && (forall e :: e in tables && IsDir(owner, e) ==> e in tables')
    && (forall e, v {:trigger Entry(tables', e, v)} ::
          e in tables && IsDir(owner, e) && 0 <= v < NENTRIES * NENTRIES ==>
          Entry(tables', e, v) == if e == d && v == vpn then pte else Entry(tables, e, v))
  }

  ghost predicate SameEntries(tables: Tables, tables': Tables, owner: map<nat, Owner>)
    requires Shaped(tables) && Shaped(tables')
  {
    && (forall e :: e in tables && IsDir(owner, e) ==> e in tables')
    && (forall e, v {:trigger Entry(tables', e, v)} ::
          e in tables && IsDir(owner, e) && 0 <= v < NENTRIES * NENTRIES ==>
          Entry(tables', e, v) == Entry(tables, e, v))
  }

  lemma SameTable(v: nat, vpn: nat)
    ensures v / NENTRIES == vpn / NENTRIES && v % NENTRIES == vpn % NENTRIES <==> v == vpn
  {
  }

  lemma UpdateEntry(tables: Tables, owner: map<nat, Owner>, d: nat, vpn: nat, pte: nat)
    requires Shaped(tables) && TabsOwned(tables, owner) && d in tables && IsDir(owner, d) && vpn < NENTRIES * NENTRIES
    requires Present(tables[d][vpn / NENTRIES])
    ensures var t := Frame(tables[d][vpn / NENTRIES]);
            t in tables ==>
              && Shaped(Put(tables, t, vpn % NENTRIES, pte))
              && TabsOwned(Put(tables, t, vpn % NENTRIES, pte), owner)
              && OnlyEntry(tables, Put(tables, t, vpn % NENTRIES, pte), owner, d, vpn, pte)
  {
    var t := Frame(tables[d][vpn / NENTRIES]);
    assert owner[t] == Tab(d, vpn / NENTRIES);
    if t in tables {
      var r := Put(tables, t, vpn % NENTRIES, pte);
      assert forall e :: e in tables && IsDir(owner, e) ==> r[e] == tables[e];
      forall e, v {:trigger Entry(r, e, v)} | e in tables && IsDir(owner, e) && 0 <= v < NENTRIES * NENTRIES
        ensures Entry(r, e, v) == if e == d && v == vpn then pte else Entry(tables, e, v)
      {
        var pde := tables[e][v / NENTRIES];
        SameTable(v, vpn);
        if Present(pde) { assert owner[Frame(pde)] == Tab(e, v / NENTRIES); }
      }
    }
  }

  /** walkpgdir with alloc: an empty table for directory entry i changes no page table entry. */
  lemma AddTable(tables: Tables, data: Pages, owner: map<nat, Owner>, d: nat, i: nat, t: nat)
    requires Wf(tables, data, owner) && IsDir(owner, d) && i < NENTRIES && d in tables && !Present(tables[d][i])
    requires t in owner && owner[t] == Held
    ensures var r := tables[t := ZeroTable()][d := Put(tables, d, i, MkPte(t, PTE_WU))[d]];
            Wf(r, data, owner[t := Tab(d, i)]) && SameEntries(tables, r, owner)
  {
    hide UsrOwned, TabsOwned, Entry;
    AddTableTabs(tables, data, owner, d, i, t);
    AddTableEntries(tables, data, owner, d, i, t);
    var r := tables[t := ZeroTable()][d := Put(tables, d, i, MkPte(t, PTE_WU))[d]];
    assert t !in tables && t != d;
    UsersKept(tables, r, owner, t, Tab(d, i));
  }

  lemma AddTableEntries(tables: Tables, data: Pages, owner: map<nat, Owner>, d: nat, i: nat, t: nat)
    requires Wf(tables, data, owner) && IsDir(owner, d) && i < NENTRIES && d in tables && !Present(tables[d][i])
    requires t in owner && owner[t] == Held
    ensures var r := tables[t := ZeroTable()][d := Put(tables, d, i, MkPte(t, PTE_WU))[d]];
            Shaped(r) && SameEntries(tables, r, owner)
  {
    hide UsrOwned;
    var r := tables[t := ZeroTable()][d := Put(tables, d, i, MkPte(t, PTE_WU))[d]];
    assert t !in tables && t != d;
    forall e, v {:trigger Entry(r, e, v)} | e in tables && IsDir(owner, e) && 0 <= v < NENTRIES * NENTRIES
      ensures Entry(r, e, v) == Entry(tables, e, v)
    {
      var pde := tables[e][v / NENTRIES];
      if Present(pde) { assert owner[Frame(pde)] == Tab(e, v / NENTRIES); }
    }
  }

  /** A frame that held no entries and no page takes on a new role other than a user page. */
  lemma UsersKept(tables: Tables, r: Tables, owner: map<nat, Owner>, f: nat, o: Owner)
    requires Shaped(tables) && Shaped(r) && UsrOwned(tables, owner) && SameEntries(tables, r, owner)
    requires f in owner && owner[f] == Held && !o.Usr? && !o.Dir?
    requires forall e :: e in r && IsDir(owner, e) ==> e in tables
    ensures UsrOwned(r, owner[f := o])
  {
    hide Entry;
    var owner' := owner[f := o];
    assert forall e :: IsDir(owner', e) <==> IsDir(owner, e);
    forall g | g in owner' && owner'[g].Usr?
      ensures owner'[g].d in r && IsDir(owner', owner'[g].d) && owner'[g].vpn < USERPAGES
      ensures Present(Entry(r, owner'[g].d, owner'[g].vpn)) && Frame(Entry(r, owner'[g].d, owner'[g].vpn)) == g
    {
      assert Present(Entry(tables, owner[g].d, owner[g].vpn));
    }
    forall e, v {:trigger Entry(r, e, v)} | e in r && IsDir(owner', e) && 0 <= v < USERPAGES && Present(Entry(r, e, v))
      ensures Frame(Entry(r, e, v)) in owner' && owner'[Frame(Entry(r, e, v))] == Usr(e, v)
    {
      assert Entry(tables, e, v) == Entry(r, e, v);
    }
  }

  /** Frames that are neither directory nor table can change roles among themselves. */
  lemma TabsKept(tables: Tables, owner: map<nat, Owner>, f: nat, o: Owner)
    requires Shaped(tables) && TabsOwned(tables, owner) && f in owner && !owner[f].Dir? && !owner[f].Tab? && !o.Dir?
    requires !o.Tab?
    ensures TabsOwned(tables, owner[f := o])
  {
    assert forall e :: IsDir(owner[f := o], e) <==> IsDir(owner, e);
  }

  lemma AddTableTabs(tables: Tables, data: Pages, owner: map<nat, Owner>, d: nat, i: nat, t: nat)
    requires Wf(tables, data, owner) && IsDir(owner, d) && i < NENTRIES && d in tables && !Present(tables[d][i])
    requires t in owner && owner[t] == Held
    ensures var r := tables[t := ZeroTable()][d := Put(tables, d, i, MkPte(t, PTE_WU))[d]];
            Shaped(r) && TabsOwned(r, owner[t := Tab(d, i)])
  {
    hide UsrOwned;
    var r := tables[t := ZeroTable()][d := Put(tables, d, i, MkPte(t, PTE_WU))[d]];
    var o := owner[t := Tab(d, i)];
    assert t !in tables && t != d && forall e :: IsDir(o, e) <==> IsDir(owner, e);
    forall e, k {:trigger r[e][k]} | e in r && IsDir(o, e) && 0 <= k < NENTRIES && Present(r[e][k])
      ensures Frame(r[e][k]) in o && o[Frame(r[e][k])] == Tab(e, k) && Flags(r[e][k]) == PTE_WU + 1
    {
      assert e in tables;
      if e == d && k == i {
        assert r[e][k] == MkPte(t, PTE_WU);
      } else {
        assert r[e][k] == tables[e][k];
        assert owner[Frame(tables[e][k])] == Tab(e, k);
      }
    }
    forall u | u in o && o[u].Tab? && u != t
      ensures o[u].d in r && IsDir(o, o[u].d) && Present(r[o[u].d][o[u].i]) && Frame(r[o[u].d][o[u].i]) == u
    {
      assert Present(tables[owner[u].d][owner[u].i]);
    }
  }

  /** A held frame becomes user page vpn of directory d, which had none. */
  lemma SetPage(tables: Tables, data: Pages, owner: map<nat, Owner>, d: nat, vpn: nat, f: nat, page: Page, perm: nat)
    requires Wf(tables, data, owner) && IsDir(owner, d) && d in tables && vpn < USERPAGES
    requires Present(tables[d][vpn / NENTRIES]) && !Present(Entry(tables, d, vpn))
    requires f in owner && owner[f] == Held && |page.bytes| == PGSIZE && perm < PGSIZE
    ensures var t := Frame(tables[d][vpn / NENTRIES]);
            && t in tables && var r := Put(tables, t, vpn % NENTRIES, MkPte(f, perm));
            Wf(r, data[f := page], owner[f := Usr(d, vpn)]) && OnlyEntry(tables, r, owner, d, vpn, MkPte(f, perm))
  {
    hide TabsOwned, UsrOwned, OnlyEntry, Entry, MkPte;
    var t := Frame(tables[d][vpn / NENTRIES]);
    TableFrame(tables, data, owner, d, vpn / NENTRIES);
    UpdateEntry(tables, owner, d, vpn, MkPte(f, perm));
    var r := Put(tables, t, vpn % NENTRIES, MkPte(f, perm));
    SetPageOwned(tables, data, owner, d, vpn, f, perm, r);
  }

  lemma TableFrame(tables: Tables, data: Pages, owner: map<nat, Owner>, d: nat, i: nat)
    requires Wf(tables, data, owner) && IsDir(owner, d) && d in tables && i < NENTRIES && Present(tables[d][i])
    ensures Frame(tables[d][i]) in tables && Frame(tables[d][i]) in owner && owner[Frame(tables[d][i])] == Tab(d, i)
  {
    hide UsrOwned;
  }

  lemma SetPageOwned(tables: Tables, data: Pages, owner: map<nat, Owner>, d: nat, vpn: nat, f: nat, perm: nat,
                     r: Tables)
    requires Wf(tables, data, owner) && IsDir(owner, d) && d in tables && vpn < USERPAGES
    requires !Present(Entry(tables, d, vpn))
    requires f in owner && owner[f] == Held && perm < PGSIZE
    requires Shaped(r) && r.Keys == tables.Keys && TabsOwned(r, owner)
    requires OnlyEntry(tables, r, owner, d, vpn, MkPte(f, perm))
    ensures TabsOwned(r, owner[f := Usr(d, vpn)]) && UsrOwned(r, owner[f := Usr(d, vpn)])
  {
    hide TabsOwned, Entry, MkPte;
    TabsKept(r, owner, f, Usr(d, vpn));
    var o := owner[f := Usr(d, vpn)];
    assert forall e :: IsDir(o, e) <==> IsDir(owner, e);
    forall g | g in o && o[g].Usr?
      ensures o[g].d in r && IsDir(o, o[g].d) && o[g].vpn < USERPAGES
      ensures Present(Entry(r, o[g].d, o[g].vpn)) && Frame(Entry(r, o[g].d, o[g].vpn)) == g
    {
      if g != f { assert Present(Entry(tables, owner[g].d, owner[g].vpn)); }
    }
    forall e, v {:trigger Entry(r, e, v)} | e in r && IsDir(o, e) && 0 <= v < USERPAGES && Present(Entry(r, e, v))
      ensures Frame(Entry(r, e, v)) in o && o[Frame(Entry(r, e, v))] == Usr(e, v)
    {
      assert (e == d && v == vpn) || Entry(tables, e, v) == Entry(r, e, v);
    }
  }

  /** User page vpn of directory d is unmapped and its frame is no longer part of the address space. */
  lemma ClearPage(tables: Tables, data: Pages, owner: map<nat, Owner>, d: nat, vpn: nat)
    requires Wf(tables, data, owner) && IsDir(owner, d) && d in tables && vpn < USERPAGES
    requires Present(Entry(tables, d, vpn))
    ensures var t, f := Frame(tables[d][vpn / NENTRIES]), Frame(Entry(tables, d, vpn));
            && t in tables && f in owner && owner[f] == Usr(d, vpn) && f in data
            && var r := Put(tables, t, vpn % NENTRIES, 0);
            Wf(r, data - {f}, owner[f := Held]) && OnlyEntry(tables, r, owner, d, vpn, 0)
  {
    hide TabsOwned, UsrOwned, OnlyEntry, Entry;
    var t, f := Frame(tables[d][vpn / NENTRIES]), Frame(Entry(tables, d, vpn));
    UserFrame(tables, data, owner, d, vpn);
    UpdateEntry(tables, owner, d, vpn, 0);
    var r := Put(tables, t, vpn % NENTRIES, 0);
    ClearPageOwned(tables, data, owner, d, vpn, f, r);
  }

  lemma UserFrame(tables: Tables, data: Pages, owner: map<nat, Owner>, d: nat, vpn: nat)
    requires Wf(tables, data, owner) && IsDir(owner, d) && d in tables && vpn < USERPAGES
    requires Present(Entry(tables, d, vpn))
    ensures var f := Frame(Entry(tables, d, vpn)); f in owner && owner[f] == Usr(d, vpn) && f in data
    ensures Present(tables[d][vpn / NENTRIES]) && Frame(tables[d][vpn / NENTRIES]) in tables
  {
    hide TabsOwned;
    assert owner[Frame(Entry(tables, d, vpn))] == Usr(d, vpn);
  }

  lemma ClearPageOwned(tables: Tables, data: Pages, owner: map<nat, Owner>, d: nat, vpn: nat, f: nat, r: Tables)
    requires Wf(tables, data, owner) && IsDir(owner, d) && d in tables && vpn < USERPAGES
    requires f in owner && owner[f] == Usr(d, vpn)
    requires Shaped(r) && r.Keys == tables.Keys && TabsOwned(r, owner) && OnlyEntry(tables, r, owner, d, vpn, 0)
    ensures TabsOwned(r, owner[f := Held]) && UsrOwned(r, owner[f := Held])
  {
    hide TabsOwned, Entry;
    TabsKept(r, owner, f, Held);
    var o := owner[f := Held];
    assert forall e :: IsDir(o, e) <==> IsDir(owner, e);
    forall g | g in o && o[g].Usr?
      ensures o[g].d in r && IsDir(o, o[g].d) && o[g].vpn < USERPAGES
      ensures Present(Entry(r, o[g].d, o[g].vpn)) && Frame(Entry(r, o[g].d, o[g].vpn)) == g
    {
      assert Present(Entry(tables, owner[g].d, owner[g].vpn));
    }
    forall e, v {:trigger Entry(r, e, v)} | e in r && IsDir(o, e) && 0 <= v < USERPAGES && Present(Entry(r, e, v))
      ensures Frame(Entry(r, e, v)) in o && o[Frame(Entry(r, e, v))] == Usr(e, v)
    {
      assert Entry(tables, e, v) == Entry(r, e, v);
    }
  }
}
