/**
Growing a process without giving it memory (sys_sbrk and the page-fault case of trap), and the eager form it
replaced (growproc). A process sees zeros in a page it was promised and has not touched; under that reading
the two forms cannot be told apart.
*/
module LazyGrowth {
  import opened Param
  import opened VmSpec
  import opened Vm

  /** The user half of an address space: its size, the pages that are mapped, and whether the process is to die. */
  datatype Space = Space(sz: nat, pages: map<nat, Page>, killed: bool)

  function Top(sz: nat): (v: nat) { RoundUp(sz) / PGSIZE }

  function Without(pages: map<nat, Page>, lo: nat, hi: nat): (r: map<nat, Page>)
  {
    map v | v in pages && !(lo <= v < hi) :: pages[v]
  }

  function WithZeros(pages: map<nat, Page>, lo: nat, hi: nat): (r: map<nat, Page>)
    ensures forall v: nat :: v in r <==> v in pages || lo <= v < hi
    ensures forall v: nat :: v in r ==> r[v] == if lo <= v < hi then ZeroPage() else pages[v]
  {
    if lo >= hi then pages else WithZeros(pages, lo, hi - 1)[hi - 1 := ZeroPage()]
  }

  /* ---------------- the two forms of sbrk, and what they share ---------------- */

  /** sys_sbrk: the size changes at once; only a negative n touches the pages. */
  function LazySbrk(s: Space, n: int): (r: (Space, int))
  {
    var size := (s.sz + n) % UINT_MOD;
    var pages := if n < 0 && size < s.sz then Without(s.pages, Top(size), Top(s.sz)) else s.pages;
    (s.(sz := size, pages := pages), s.sz)
  }

  /** sys_sbrk by way of growproc, with enough memory. */
  function EagerSbrk(s: Space, n: int): (r: (Space, int))
  {
    var size := (s.sz + n) % UINT_MOD;
    if n > 0 then
      if size >= KERNBASE then (s, -1)
      else if size < s.sz then (s, s.sz)
      else (s.(sz := size, pages := WithZeros(s.pages, Top(s.sz), Top(size))), s.sz)
    else if n < 0 then
      if size >= s.sz then (s, if s.sz == 0 then -1 else s.sz)
      else if size == 0 then (s.(pages := Without(s.pages, 0, Top(s.sz))), -1)
      else (s.(sz := size, pages := Without(s.pages, Top(size), Top(s.sz))), s.sz)
    else (s, s.sz)
  }

  /** The page-fault case of trap, with enough memory. */
  function Faulted(s: Space, va: nat, err: nat): (r: Space)
  {
    var base := va / PGSIZE * PGSIZE;
    if err % 8 == 7 then s.(killed := true)
    else if base >= s.sz && err / 2 % 4 != 0 then s.(killed := true)
    else if base < s.sz then s.(pages := s.pages[va / PGSIZE := ZeroPage()])
    else s
  }

  const READ_ABSENT := 4   // user mode, page not present
  const WRITE_ABSENT := 6  // user mode, write, page not present

  /** A user access to va, faulting first if the page is not there. */
  function Touched(s: Space, va: nat, err: nat): (r: Space)
  {
    if va / PGSIZE in s.pages then s else Faulted(s, va, err)
  }

  function Stored(s: Space, va: nat, b: Byte): (r: Space)
  {
    var t := Touched(s, va, WRITE_ABSENT);
    if t.killed || va / PGSIZE !in t.pages || |t.pages[va / PGSIZE].bytes| != PGSIZE then t
    else t.(pages := t.pages[va / PGSIZE := Page(t.pages[va / PGSIZE].bytes[va % PGSIZE := b])])
  }

  /** What a load from va returns; -1 if the process does not survive it. */
  function Loaded(s: Space, va: nat): (b: int)
  {
    var t := Touched(s, va, READ_ABSENT);
    if t.killed || va / PGSIZE !in t.pages || |t.pages[va / PGSIZE].bytes| != PGSIZE then -1
    else t.pages[va / PGSIZE].bytes[va % PGSIZE]
  }

  datatype Action = Sbrk(n: int) | Load(va: nat) | Store(va: nat, b: Byte)

  function Sbrked(lazy: bool, s: Space, n: int): (r: (Space, int))
  {
    if lazy then LazySbrk(s, n) else EagerSbrk(s, n)
  }

  function After(lazy: bool, s: Space, a: Action): (r: Space)
  {
    if s.killed then s else
      match a
      case Sbrk(n) => Sbrked(lazy, s, n).0
      case Load(va) => Touched(s, va, READ_ABSENT)
      case Store(va, b) => Stored(s, va, b)
  }

  function Output(lazy: bool, s: Space, a: Action): (r: int)
  {
    if s.killed then -1 else
      match a
      case Sbrk(n) => Sbrked(lazy, s, n).1
      case Load(va) => Loaded(s, va)
      case Store(va, b) => 0
  }

  function Final(lazy: bool, s: Space, run: seq<Action>): (r: Space)
    decreases |run|
  {
    if run == [] then s else Final(lazy, After(lazy, s, run[0]), run[1..])
  }

  /** All a process can see of its run: the result of every call and every load. */
  function Outputs(lazy: bool, s: Space, run: seq<Action>): (r: seq<int>)
    decreases |run|
  {
    if run == [] then [] else [Output(lazy, s, run[0])] + Outputs(lazy, After(lazy, s, run[0]), run[1..])
  }

  /* ---------------- agreement ---------------- */

  /** The bytes promised at page v. */
  function Shown(s: Space, v: nat): (p: Page) { if v in s.pages then s.pages[v] else ZeroPage() }

  ghost predicate Bounded(s: Space)
  {
    && s.sz <= KERNBASE
    && (forall v :: v in s.pages ==> v < Top(s.sz))
    && (forall v :: v in s.pages ==> |s.pages[v].bytes| == PGSIZE)
  }

  /** The lazy space shows what the eager one holds. */
  ghost predicate Agree(l: Space, e: Space)
  {
    && Bounded(l) && Bounded(e) && l.sz == e.sz && l.killed == e.killed
    && (forall v: nat :: v < Top(e.sz) ==> v in e.pages)
    && (forall v: nat :: v < Top(e.sz) ==> Shown(l, v) == Shown(e, v))
  }

  predicate InRange(sz: nat, n: int) { n == 0 || 0 < sz + n < KERNBASE }

  /** Every sbrk of the run, when its turn comes, asks for a size below KERNBASE and above 0. */
  predicate Reasonable(s: Space, run: seq<Action>)
    decreases |run|
  {
    run == [] || ((run[0].Sbrk? && !s.killed ==> InRange(s.sz, run[0].n))
                  && Reasonable(After(true, s, run[0]), run[1..]))
  }

  lemma TopIsPage(sz: nat, v: nat)
    ensures v < Top(sz) <==> v * PGSIZE < sz
    ensures sz <= KERNBASE ==> Top(sz) <= USERPAGES
  {
  }

  lemma SameSize(sz: nat, n: int)
    requires InRange(sz, n) && sz <= KERNBASE
    ensures (sz + n) % UINT_MOD == sz + n
  {
  }

  lemma SbrkAgrees(l: Space, e: Space, n: int)
    requires Agree(l, e) && InRange(l.sz, n)
    ensures LazySbrk(l, n).1 == EagerSbrk(e, n).1 && Agree(LazySbrk(l, n).0, EagerSbrk(e, n).0)
  {
    hide RoundUp, ZeroPage, Agree, Without, WithZeros, Top;
    AgreeSize(l, e);
    SameSize(l.sz, n);
    if n > 0 { GrowAgrees(l, e, l.sz + n); } else if n < 0 { ShrinkAgrees(l, e, l.sz + n); }
  }

  lemma GrowAgrees(l: Space, e: Space, size: nat)
    requires Agree(l, e) && l.sz <= size < KERNBASE
    ensures Agree(l.(sz := size), e.(sz := size, pages := WithZeros(e.pages, Top(e.sz), Top(size))))
  {
    hide RoundUp, ZeroPage;
    RoundUpOrder(l.sz, size);
    ZeroPageIsPage();
    var l', e' := l.(sz := size), e.(sz := size, pages := WithZeros(e.pages, Top(e.sz), Top(size)));
    forall v: nat | v < Top(size) ensures v in e'.pages && Shown(l', v) == Shown(e', v) {
      if v < Top(e.sz) { assert v in e.pages && Shown(l, v) == Shown(e, v); }
    }
  }

  lemma ShrinkAgrees(l: Space, e: Space, size: nat)
    requires Agree(l, e) && size <= l.sz
    ensures Agree(l.(sz := size, pages := Without(l.pages, Top(size), Top(l.sz))),
                  e.(sz := size, pages := Without(e.pages, Top(size), Top(e.sz))))
  {
    hide RoundUp, ZeroPage;
    RoundUpOrder(size, l.sz);
    var l' := l.(sz := size, pages := Without(l.pages, Top(size), Top(l.sz)));
    var e' := e.(sz := size, pages := Without(e.pages, Top(size), Top(e.sz)));
    forall v: nat | v < Top(size) ensures v in e'.pages && Shown(l', v) == Shown(e', v) {
      assert v in e.pages && Shown(l, v) == Shown(e, v);
    }
  }

  lemma ZeroPageIsPage()
    ensures |ZeroPage().bytes| == PGSIZE
  {
  }

  /** Outside that range the two forms differ at once, in the result or in the size. */
  lemma SbrkDiffers(l: Space, e: Space, n: int)
    requires Agree(l, e) && !InRange(l.sz, n) && -0x8000_0000 <= n < 0x8000_0000
    ensures LazySbrk(l, n).1 != EagerSbrk(e, n).1 || LazySbrk(l, n).0.sz != EagerSbrk(e, n).0.sz
  {
    if n < 0 && l.sz + n < 0 {
      assert (l.sz + n) % UINT_MOD == l.sz + n + UINT_MOD;
    } else {
      assert (l.sz + n) % UINT_MOD == l.sz + n;
    }
  }

  /** Lazy and eager sbrk are the same call exactly when the new size is above 0 and below KERNBASE, or n is 0. */
  lemma SbrkAgreesIff(l: Space, e: Space, n: int)
    requires Agree(l, e) && -0x8000_0000 <= n < 0x8000_0000
    ensures LazySbrk(l, n).1 == EagerSbrk(e, n).1 && Agree(LazySbrk(l, n).0, EagerSbrk(e, n).0) <==>
              n == 0 || 0 < l.sz + n < KERNBASE
  {
    hide *;
    InRangeIs(l.sz, n);
    if n == 0 || 0 < l.sz + n < KERNBASE {
      SbrkAgrees(l, e, n);
    } else {
      SbrkDiffers(l, e, n);
      AgreeSize(LazySbrk(l, n).0, EagerSbrk(e, n).0);
    }
  }

  /** One page, given back: lazily the process is left with nothing, eagerly the call fails and the size stays. */
  lemma SbrkDiffersExample() returns (l: Space, e: Space)
    ensures Agree(l, e)
    ensures LazySbrk(l, -PGSIZE) == (Space(0, map[], false), PGSIZE)
    ensures EagerSbrk(e, -PGSIZE) == (Space(PGSIZE, map[], false), -1)
  {
    ZeroPageIsPage();
    l, e := Space(PGSIZE, map[], false), Space(PGSIZE, map[0 := ZeroPage()], false);
    assert Top(PGSIZE) == 1 && Top(0) == 0;
    assert Without(e.pages, 0, 1) == map[];
  }

  lemma InRangeIs(sz: nat, n: int)
    ensures InRange(sz, n) <==> n == 0 || 0 < sz + n < KERNBASE
  {
  }

  lemma AgreeSize(l: Space, e: Space)
    ensures Agree(l, e) ==> l.sz == e.sz <= KERNBASE
  {
  }

  lemma TouchAgrees(l: Space, e: Space, va: nat, err: nat)
    requires Agree(l, e) && (err == READ_ABSENT || err == WRITE_ABSENT)
    ensures Agree(Touched(l, va, err), Touched(e, va, err))
    ensures !Touched(l, va, err).killed && !l.killed ==>
              && va / PGSIZE in Touched(l, va, err).pages && va / PGSIZE in Touched(e, va, err).pages
              && Touched(l, va, err).pages[va / PGSIZE] == Touched(e, va, err).pages[va / PGSIZE]
  {
    hide RoundUp, ZeroPage;
    ZeroPageIsPage();
    TopIsPage(l.sz, va / PGSIZE);
    if va / PGSIZE < Top(l.sz) {
      assert Shown(l, va / PGSIZE) == Shown(e, va / PGSIZE);
    }
    forall v: nat | v < Top(l.sz) ensures Shown(Touched(l, va, err), v) == Shown(Touched(e, va, err), v) {
      assert Shown(l, v) == Shown(e, v);
    }
  }

  lemma StoreAgrees(l: Space, e: Space, va: nat, b: Byte)
    requires Agree(l, e) && !l.killed
    ensures Agree(Stored(l, va, b), Stored(e, va, b))
  {
    hide RoundUp, ZeroPage, Faulted, Touched;
    TouchAgrees(l, e, va, WRITE_ABSENT);
    var l', e' := Touched(l, va, WRITE_ABSENT), Touched(e, va, WRITE_ABSENT);
    forall v: nat | v < Top(l'.sz) ensures Shown(Stored(l, va, b), v) == Shown(Stored(e, va, b), v) {
      assert Shown(l', v) == Shown(e', v);
    }
  }

  lemma StepAgrees(l: Space, e: Space, a: Action)
    requires Agree(l, e) && (a.Sbrk? && !l.killed ==> InRange(l.sz, a.n))
    ensures Agree(After(true, l, a), After(false, e, a)) && Output(true, l, a) == Output(false, e, a)
  {
    hide Agree, LazySbrk, EagerSbrk, Stored, Touched, InRange;
    AgreeKilled(l, e);
    if !l.killed {
      match a {
        case Sbrk(n) => SbrkAgrees(l, e, n);
        case Load(va) => TouchAgrees(l, e, va, READ_ABSENT); AgreeKilled(Touched(l, va, READ_ABSENT),
                                                                         Touched(e, va, READ_ABSENT));
        case Store(va, b) => StoreAgrees(l, e, va, b);
      }
    }
  }

  lemma AgreeKilled(l: Space, e: Space)
    requires Agree(l, e)
    ensures l.killed == e.killed
  {
  }

  /** In any run of sbrk, loads and stores, whatever page faults the lazy form takes on the way, every call and
      every load returns what it would under eager growth, and the memory shown at the end is the same. */
  lemma {:induction false} LazyRefinesEager(l: Space, e: Space, run: seq<Action>)
    requires Agree(l, e) && Reasonable(l, run)
    ensures Outputs(true, l, run) == Outputs(false, e, run)
    ensures Agree(Final(true, l, run), Final(false, e, run))
    decreases |run|
  {
    hide Agree, After, Output, InRange;
    if run != [] {
      StepAgrees(l, e, run[0]);
      LazyRefinesEager(After(true, l, run[0]), After(false, e, run[0]), run[1..]);
    }
  }

  /** A shrink and a regrowth inside one run: the pages given back read as zeros again. */
  lemma RegrownIsZero(l: Space, n: int, va: nat)
    requires Bounded(l) && !l.killed && 0 < n < l.sz < KERNBASE
    requires Top(l.sz - n) <= va / PGSIZE < Top(l.sz)
    ensures Loaded(LazySbrk(LazySbrk(l, -n).0, n).0, va) == 0
    ensures va / PGSIZE !in LazySbrk(l, -n).0.pages
  {
    hide RoundUp;
    TopIsPage(l.sz, va / PGSIZE);
    assert (l.sz - n) % UINT_MOD == l.sz - n && (l.sz - n + n) % UINT_MOD == l.sz;
  }

  /** Either sbrk that the kernel can grant returns the old size and leaves a process with the size asked for, the pages
      it had below it, and zeros above. */
  lemma SbrkShows(lazy: bool, s: Space, n: int)
    requires Bounded(s) && InRange(s.sz, n)
    ensures var (t, r) := Sbrked(lazy, s, n);
            && r == s.sz && t.sz == s.sz + n && t.killed == s.killed && Bounded(t)
            && forall v: nat :: v < Top(t.sz) ==> Shown(t, v) == if v < Top(s.sz) then Shown(s, v) else ZeroPage()
  {
    hide RoundUp, ZeroPage, WithZeros;
    ZeroPageIsPage();
    assert (s.sz + n) % UINT_MOD == s.sz + n;
    if n < 0 { RoundUpOrder(s.sz + n, s.sz); } else { RoundUpOrder(s.sz, s.sz + n); }
  }

  /** A byte stored is the byte loaded, and no other byte below the size changes. */
  lemma StoreThenLoad(s: Space, va: nat, b: Byte, va': nat)
    requires Bounded(s) && !s.killed && va < s.sz && va' < s.sz
    ensures Loaded(Stored(s, va, b), va') == if va' == va then b else Loaded(s, va')
  {
    hide RoundUp, ZeroPage;
    ZeroPageIsPage();
    assert va / PGSIZE * PGSIZE <= va && va' / PGSIZE * PGSIZE <= va';
    assert va == va / PGSIZE * PGSIZE + va % PGSIZE && va' == va' / PGSIZE * PGSIZE + va' % PGSIZE;
  }

  /* ---------------- the code ---------------- */

  /** The mapped user pages of directory d. */
  ghost function PagesOf(tables: Tables, data: Pages, d: nat): (r: map<nat, Page>)
    requires d in tables && Shaped(tables)
  {
    map v: nat | v < USERPAGES && Look(tables, data, d, v).Seen? :: Look(tables, data, d, v).page
  }

  /** Every other address space shows what it did. */
  ghost predicate OthersSame(t0: Tables, data0: Pages, owner0: map<nat, Owner>, tables: Tables, data: Pages, d: nat)
    requires Shaped(t0) && Shaped(tables)
  {
    && (forall e :: e in t0 && IsDir(owner0, e) ==> e in tables)
    && (forall e, v {:trigger Look(tables, data, e, v)} ::
          e in t0 && IsDir(owner0, e) && e != d && 0 <= v < USERPAGES ==>
          Look(tables, data, e, v) == Look(t0, data0, e, v))
  }

  lemma PagesByLook(t0: Tables, data0: Pages, t1: Tables, data1: Pages, d: nat)
    requires Shaped(t0) && Shaped(t1) && d in t0 && d in t1
    requires forall v {:trigger Look(t1, data1, d, v)} :: 0 <= v < USERPAGES ==>
               Look(t1, data1, d, v) == Look(t0, data0, d, v)
    ensures PagesOf(t1, data1, d) == PagesOf(t0, data0, d)
  {
    hide Look;
  }

  lemma UnmappedLook(t0: Tables, data0: Pages, owner0: map<nat, Owner>, tables: Tables, data: Pages,
                     owner: map<nat, Owner>, d: nat, lo: nat, hi: nat, e: nat, v: nat)
    requires Wf(t0, data0, owner0) && Wf(tables, data, owner) && e in t0 && IsDir(owner0, e) && v < USERPAGES
    requires e in tables
    requires Unmapped(t0, data0, owner0, tables, data, owner, d, lo, hi)
    ensures Look(tables, data, e, v) == if e == d && lo <= v < hi then Absent else Look(t0, data0, e, v)
  {
    hide Entry;
    var pte := Entry(t0, e, v);
    assert Entry(tables, e, v) == if e == d && lo <= v < hi && Present(pte) then 0 else pte;
    PageBacked(t0, data0, owner0, e, v);
    if Present(pte) { assert owner0[Frame(pte)] == Usr(e, v); }
  }

  lemma PagesUnmapped(t0: Tables, data0: Pages, owner0: map<nat, Owner>, tables: Tables, data: Pages,
                      owner: map<nat, Owner>, d: nat, lo: nat, hi: nat)
    requires Wf(t0, data0, owner0) && Wf(tables, data, owner) && d in t0 && IsDir(owner0, d) && d in tables
    requires Unmapped(t0, data0, owner0, tables, data, owner, d, lo, hi)
    ensures PagesOf(tables, data, d) == Without(PagesOf(t0, data0, d), lo, hi)
    ensures OthersSame(t0, data0, owner0, tables, data, d)
  {
    hide Look, Entry, TabsOwned, UsrOwned;
    forall e, v {:trigger Look(tables, data, e, v)} | e in t0 && IsDir(owner0, e) && 0 <= v < USERPAGES
      ensures Look(tables, data, e, v) == if e == d && lo <= v < hi then Absent else Look(t0, data0, e, v)
    {
      UnmappedLook(t0, data0, owner0, tables, data, owner, d, lo, hi, e, v);
    }
  }

  lemma GrewLook(t0: Tables, data0: Pages, owner0: map<nat, Owner>, tables: Tables, data: Pages, owner: map<nat, Owner>,
                 d: nat, lo: nat, hi: nat, e: nat, v: nat)
    requires Wf(t0, data0, owner0) && Shaped(tables) && e in t0 && IsDir(owner0, e) && v < USERPAGES && e in tables
    requires Grew(t0, data0, owner0, tables, data, owner, d, lo, hi)
    ensures Look(tables, data, e, v) == if e == d && lo <= v < hi then Seen(ZeroPage(), PTE_WU + 1)
                                        else Look(t0, data0, e, v)
  {
    hide Entry, ZeroPage;
    PageBacked(t0, data0, owner0, e, v);
    assert (e == d && lo <= v < hi) || Entry(tables, e, v) == Entry(t0, e, v);
  }

  lemma PagesGrew(t0: Tables, data0: Pages, owner0: map<nat, Owner>, tables: Tables, data: Pages,
                  owner: map<nat, Owner>, d: nat, lo: nat, hi: nat)
    requires Wf(t0, data0, owner0) && Wf(tables, data, owner) && d in t0 && IsDir(owner0, d) && d in tables
    requires Grew(t0, data0, owner0, tables, data, owner, d, lo, hi)
    ensures PagesOf(tables, data, d) == WithZeros(PagesOf(t0, data0, d), lo, hi)
    ensures OthersSame(t0, data0, owner0, tables, data, d)
  {
    hide Look, Entry, TabsOwned, UsrOwned, ZeroPage, WithZeros, PagesOf;
    forall e, v {:trigger Look(tables, data, e, v)} | e in t0 && IsDir(owner0, e) && 0 <= v < USERPAGES
      ensures Look(tables, data, e, v) == if e == d && lo <= v < hi then Seen(ZeroPage(), PTE_WU + 1)
                                          else Look(t0, data0, e, v)
    {
      GrewLook(t0, data0, owner0, tables, data, owner, d, lo, hi, e, v);
    }
    ZerosByLook(t0, data0, tables, data, d, lo, hi);
  }

  lemma ZerosByLook(t0: Tables, data0: Pages, t1: Tables, data1: Pages, d: nat, lo: nat, hi: nat)
    requires Shaped(t0) && Shaped(t1) && d in t0 && d in t1 && hi <= USERPAGES
    requires forall v {:trigger Look(t1, data1, d, v)} :: 0 <= v < USERPAGES ==>
               Look(t1, data1, d, v) == if lo <= v < hi then Seen(ZeroPage(), PTE_WU + 1) else Look(t0, data0, d, v)
    ensures PagesOf(t1, data1, d) == WithZeros(PagesOf(t0, data0, d), lo, hi)
  {
    hide Look, ZeroPage, WithZeros;
  }

  lemma PagesSame(t0: Tables, data0: Pages, owner0: map<nat, Owner>, tables: Tables, d: nat)
    requires Wf(t0, data0, owner0) && Shaped(tables) && d in t0 && IsDir(owner0, d) && d in tables
    requires SameMappings(t0, tables, owner0)
    ensures PagesOf(tables, data0, d) == PagesOf(t0, data0, d) && OthersSame(t0, data0, owner0, tables, data0, d)
  {
    hide Entry, TabsOwned, UsrOwned;
    PagesByLook(t0, data0, tables, data0, d);
  }

  lemma PagesMapped(t0: Tables, data0: Pages, owner0: map<nat, Owner>, tables: Tables, d: nat, vpn: nat, f: nat,
                    page: Page)
    requires Wf(t0, data0, owner0) && Shaped(tables) && d in t0 && IsDir(owner0, d) && d in tables && vpn < USERPAGES
    requires f !in owner0
    requires OnlyEntry(t0, tables, owner0, d, vpn, MkPte(f, PTE_WU))
    ensures PagesOf(tables, data0[f := page], d) == PagesOf(t0, data0, d)[vpn := page]
    ensures OthersSame(t0, data0, owner0, tables, data0[f := page], d)
  {
    hide Entry, TabsOwned, UsrOwned, Look;
    forall e, v {:trigger Look(tables, data0[f := page], e, v)} | e in t0 && IsDir(owner0, e) && 0 <= v < USERPAGES
      ensures Look(tables, data0[f := page], e, v) == if e == d && v == vpn then Seen(page, PTE_WU + 1)
                                                      else Look(t0, data0, e, v)
    {
      MappedLook(t0, data0, owner0, tables, d, vpn, f, page, e, v);
    }
  }

  lemma MappedLook(t0: Tables, data0: Pages, owner0: map<nat, Owner>, tables: Tables, d: nat, vpn: nat, f: nat,
                   page: Page, e: nat, v: nat)
    requires Wf(t0, data0, owner0) && Shaped(tables) && e in t0 && IsDir(owner0, e) && e in tables && vpn < USERPAGES
    requires f !in owner0 && v < USERPAGES
    requires OnlyEntry(t0, tables, owner0, d, vpn, MkPte(f, PTE_WU))
    ensures Look(tables, data0[f := page], e, v) == if e == d && v == vpn then Seen(page, PTE_WU + 1)
                                                    else Look(t0, data0, e, v)
  {
    hide Entry;
    PageBacked(t0, data0, owner0, e, v);
    assert Entry(tables, e, v) == if e == d && v == vpn then MkPte(f, PTE_WU) else Entry(t0, e, v);
  }

  lemma AboveNone(tables: Tables, data: Pages, owner: map<nat, Owner>, d: nat, top: nat)
    requires Wf(tables, data, owner) && IsDir(owner, d) && d in tables
    ensures NonePresent(tables, d, top, USERPAGES) <==> forall v :: v in PagesOf(tables, data, d) ==> v < top
  {
    hide Entry;
    forall v: nat | v < USERPAGES ensures Present(Entry(tables, d, v)) <==> v in PagesOf(tables, data, d) {
      PageBacked(tables, data, owner, d, v);
    }
  }

  /* ---------------- faults, by what was tried ---------------- */

  /** Who tries to get at a page, and for what. */
  datatype Access = Access(user: bool, write: bool)

  predicate Writable(pte: nat) { pte / 2 % 2 == 1 }  // PTE_W
  predicate ForUser(pte: nat) { pte / 4 % 2 == 1 }   // PTE_U

  /** The processor lets the access through; entry.S has it check the kernel's writes too. */
  predicate Allows(pte: nat, a: Access) { Present(pte) && (a.user ==> ForUser(pte)) && (a.write ==> Writable(pte)) }

  /** The error code that the processor pushes for an access that it does not let through. */
  function ErrorCode(pte: nat, a: Access): (err: nat)
  {
    (if Present(pte) then 1 else 0) + (if a.write then 2 else 0) + if a.user then 4 else 0
  }

  /** The one frame left is taken by the new page, and its table is missing. */
  ghost predicate Short(tables: Tables, d: nat, va: nat, free: nat)
    requires d in tables && Shaped(tables)
  {
    free == 1 && PageDir(va / PGSIZE) !in TablesOf(tables, d)
  }

  /** What becomes of an access that faulted. Afterwards it goes through, or the process is to die, but for a read of
      the kernel beyond the size, which is left to fault again. Nobody dies over an absent page below its size, unless
      memory has run out. That page reads as zero, and every other page is as it was. The kernel panics over any page
      below the size that is there and may not be used like that, unless it is the user writing. */
  ghost predicate Resolved(s0: Space, pte0: nat, s: Space, pte: nat, va: nat, a: Access, ok: bool, short: bool)
  {
    var beyond := va / PGSIZE * PGSIZE >= s0.sz;
    && s.sz == s0.sz && (s0.killed ==> s.killed)
    && (ok && !s.killed ==> Allows(pte, a) || (beyond && !a.user && !a.write && s == s0))
    && (s.killed && !s0.killed ==> beyond || (a.user && a.write && Present(pte0)) || short)
    && (!ok <==> !beyond && Present(pte0) && !(a.user && a.write))
    && s.pages == if !beyond && !Present(pte0) && !short then s0.pages[va / PGSIZE := ZeroPage()] else s0.pages
  }

  lemma ResolvedAll(s0: Space, pte0: nat, s: Space, pte: nat, va: nat, err: nat, ok: bool, short: bool)
    requires !ok <==> err % 8 != 7 && va / PGSIZE * PGSIZE < s0.sz && Present(pte0)
    requires va / PGSIZE * PGSIZE < s0.sz ==> (Present(pte0) <==> va / PGSIZE in s0.pages)
    requires s == if !ok then s0 else if err % 8 != 7 && va / PGSIZE * PGSIZE < s0.sz && short then s0.(killed := true)
                  else Faulted(s0, va, err)
    requires ok && va / PGSIZE in s.pages && va / PGSIZE !in s0.pages ==> exists mem :: pte == MkPte(mem, PTE_WU)
    ensures forall a {:trigger ErrorCode(pte0, a)} :: err % 8 == ErrorCode(pte0, a) && !Allows(pte0, a) ==>
              Resolved(s0, pte0, s, pte, va, a, ok, short)
  {
    forall a {:trigger ErrorCode(pte0, a)} | err % 8 == ErrorCode(pte0, a) && !Allows(pte0, a)
      ensures Resolved(s0, pte0, s, pte, va, a, ok, short)
    {
      CodeBits(err, pte0, a);
      if mem: nat :| pte == MkPte(mem, PTE_WU) { NewPageAllows(mem, a); }
    }
  }

  lemma CodeBits(err: nat, pte: nat, a: Access)
    requires err % 8 == ErrorCode(pte, a)
    ensures (err % 8 == 7 <==> Present(pte) && a.write && a.user) && (err / 2 % 4 != 0 <==> a.write || a.user)
  {
    assert err / 2 % 4 == err % 8 / 2;
  }

  lemma NewPageAllows(mem: nat, a: Access)
    ensures Allows(MkPte(mem, PTE_WU), a)
  {
    Bits(MkPte(mem, PTE_WU), mem * 512);
  }

  lemma Bits(pte: nat, k: nat)
    requires pte == 8 * k + 7
    ensures pte % 2 == 1 && pte / 2 % 2 == 1 && pte / 4 % 2 == 1
  {
    assert pte / 2 == 4 * k + 3 && pte / 4 == 2 * k + 1;
  }

  /** The fields of a process that its memory is about. */
  class Process {
    const m: Machine
    var pgdir: nat
    var sz: nat
    var killed: bool

    ghost predicate Valid()
      reads this, m
    {
      && m.Valid() && IsDir(m.owner, pgdir) && pgdir in m.tables && Shaped(m.tables) && sz <= KERNBASE
      && NonePresent(m.tables, pgdir, Top(sz), USERPAGES)
    }

    ghost function Seen(): (s: Space)
      requires pgdir in m.tables && Shaped(m.tables)
      reads this, m
    {
      Space(sz, PagesOf(m.tables, m.data, pgdir), killed)
    }

    constructor (m: Machine, d: nat, size: nat)
      requires m.Valid() && IsDir(m.owner, d) && d in m.tables && Shaped(m.tables) && size <= KERNBASE
      requires NonePresent(m.tables, d, Top(size), USERPAGES)
      ensures Valid() && this.m == m && pgdir == d && sz == size && !killed
    {
      this.m, pgdir, sz, killed := m, d, size, false;
    }

    method SysSbrk(n: int) returns (addr: nat)
      requires Valid() && -0x8000_0000 <= n < 0x8000_0000
      modifies this`sz, m
      ensures m.Valid() && pgdir in m.tables && Shaped(m.tables) && IsDir(m.owner, pgdir)
      ensures (Seen(), addr) == LazySbrk(old(Seen()), n)
      ensures 0 <= old(sz) + n <= KERNBASE ==> Valid()
      ensures n >= 0 ==> m.owner == old(m.owner) && m.tables == old(m.tables) && m.data == old(m.data)
      ensures Shaped(old(m.tables)) && OthersSame(old(m.tables), old(m.data), old(m.owner), m.tables, m.data, pgdir)
    {
      hide Wf, Conserved, Chain, Entry, NonePresent, PagesOf, Unmapped, Without, RoundUp, OthersSame;
      ghost var tables0, data0, owner0 := m.tables, m.data, m.owner;
      addr := sz;
      sz := (addr + n) % UINT_MOD;
      Wrapped(addr, n);
      UnchangedSpace(tables0, data0, owner0, pgdir);
      AboveNone(tables0, data0, owner0, pgdir, Top(addr));
      if n < 0 {
        var _ := m.Deallocuvm(pgdir, addr, sz);
        if sz < addr {
          PagesUnmapped(tables0, data0, owner0, m.tables, m.data, m.owner, pgdir, Top(sz), Top(addr));
          AboveGone(PagesOf(tables0, data0, pgdir), Top(sz), Top(addr));
        }
      } else {
        RoundUpOrder(addr, addr + n);
      }
      AboveNone(m.tables, m.data, m.owner, pgdir, Top(sz));
    }

    /** The page-fault case of trap at va, for any error code; false stands for the panic "remap". There must be a free
        frame where a page is to be made: the code goes on with address 0 when kalloc fails. For the code that the
        processor gives to an access, `Resolved` says what becomes of the access. */
    method PageFault(va: nat, err: nat) returns (ok: bool)
      requires Valid() && va < UINT_MOD && (err % 8 != 7 && va / PGSIZE * PGSIZE < sz ==> m.free != [])
      modifies this`killed, m
      ensures Valid() && Shaped(old(m.tables)) && pgdir in old(m.tables)
      ensures OthersSame(old(m.tables), old(m.data), old(m.owner), m.tables, m.data, pgdir)
      ensures !ok <==> err % 8 != 7 && va / PGSIZE * PGSIZE < sz && va / PGSIZE in old(Seen()).pages
      ensures if !ok then Seen() == old(Seen())
              else if err % 8 != 7 && va / PGSIZE * PGSIZE < sz && Short(old(m.tables), pgdir, va, |old(m.free)|)
              then Seen() == old(Seen()).(killed := true) && m.free == old(m.free)
              else Seen() == Faulted(old(Seen()), va, err)
      ensures var pte := Entry(old(m.tables), pgdir, va / PGSIZE);
              forall a {:trigger ErrorCode(pte, a)} :: err % 8 == ErrorCode(pte, a) && !Allows(pte, a) ==>
                Resolved(old(Seen()), pte, Seen(), Entry(m.tables, pgdir, va / PGSIZE), va, a, ok,
                         Short(old(m.tables), pgdir, va, |old(m.free)|))
    {
      hide Wf, Conserved, Chain, Entry, NonePresent, PagesOf, RoundUp, OthersSame, OnlyEntry, MoreTables, Short,
           Resolved, Allows, ErrorCode;
      ghost var tables0, data0, owner0, s0 := m.tables, m.data, m.owner, Seen();
      UnchangedSpace(tables0, data0, owner0, pgdir);
      AboveNone(tables0, data0, owner0, pgdir, Top(sz));
      ok := MakePage(va, err);
      ResolvedAll(s0, Entry(tables0, pgdir, va / PGSIZE), Seen(), Entry(m.tables, pgdir, va / PGSIZE), va, err, ok,
                  Short(tables0, pgdir, va, |old(m.free)|));
    }

    /** The body of it. */
    method MakePage(va: nat, err: nat) returns (ok: bool)
      requires Valid() && va < UINT_MOD && (err % 8 != 7 && va / PGSIZE * PGSIZE < sz ==> m.free != [])
      modifies this`killed, m
      ensures Valid() && Shaped(old(m.tables)) && pgdir in old(m.tables) && sz == old(sz)
      ensures OthersSame(old(m.tables), old(m.data), old(m.owner), m.tables, m.data, pgdir)
      ensures !ok <==> err % 8 != 7 && va / PGSIZE * PGSIZE < sz && Present(Entry(old(m.tables), pgdir, va / PGSIZE))
      ensures va / PGSIZE * PGSIZE < sz ==>
                (Present(Entry(old(m.tables), pgdir, va / PGSIZE)) <==> va / PGSIZE in old(Seen()).pages)
      ensures if !ok then Seen() == old(Seen())
              else if err % 8 != 7 && va / PGSIZE * PGSIZE < sz && Short(old(m.tables), pgdir, va, |old(m.free)|)
              then Seen() == old(Seen()).(killed := true) && m.free == old(m.free)
              else Seen() == Faulted(old(Seen()), va, err)
      ensures ok && va / PGSIZE in Seen().pages && va / PGSIZE !in old(Seen()).pages ==>
                exists mem :: Entry(m.tables, pgdir, va / PGSIZE) == MkPte(mem, PTE_WU)
    {
      hide Wf, Conserved, Chain, Entry, NonePresent, PagesOf, RoundUp, OthersSame, OnlyEntry, MoreTables, TablesOf,
           PageDir;
      ghost var tables0, data0, owner0 := m.tables, m.data, m.owner;
      UnchangedSpace(tables0, data0, owner0, pgdir);
      AboveNone(tables0, data0, owner0, pgdir, Top(sz));
      ok := true;
      var v := va / PGSIZE;
      var base := v * PGSIZE;
      if base < sz {
        TopIsPage(sz, v);
        PresentPage(tables0, data0, owner0, pgdir, v);
      }
      if err % 8 == 7 { killed := true; return; }
      if base >= sz && err / 2 % 4 != 0 { killed := true; return; }
      if base < sz {
        var mem := m.Kalloc();
        HeldKeepsWf(tables0, data0, owner0, mem);
        var there := m.Mapped(pgdir, v);
        if there { return false; }
        var done := m.MapPage(pgdir, v, mem, ZeroPage(), PTE_WU);
        if done {
          HeldEntries(tables0, m.tables, owner0, mem, pgdir, v, MkPte(mem, PTE_WU));
          PagesMapped(tables0, data0, owner0, m.tables, pgdir, v, mem, ZeroPage());
          EntryNow(tables0, m.tables, owner0, pgdir, v, MkPte(mem, PTE_WU));
        } else {
          DropHeld(m.tables, m.data, m.owner, mem);
          m.Kfree(mem);
          killed := true;
          assert m.owner == owner0;
        }
        AboveNone(m.tables, m.data, m.owner, pgdir, Top(sz));
      }
    }

    /** growproc: EagerSbrk, unless memory runs out, and then -1 with every page as it was. */
    method Growproc(n: int) returns (r: int)
      requires Valid() && -0x8000_0000 <= n < 0x8000_0000
      modifies this`sz, m
      ensures Valid() && (r == 0 || r == -1)
      ensures pgdir in old(m.tables) && Shaped(old(m.tables)) && Top(old(sz)) <= Top(old(sz) + if n > 0 then n else 0)
      ensures if n > 0 && old(sz) + n < KERNBASE
              && |old(m.free)| < GrowNeeds(old(m.tables), pgdir, Top(old(sz)), Top(old(sz) + n))
              then r == -1 && Seen() == old(Seen())
              else (Seen(), if r == 0 then old(sz) else -1) == EagerSbrk(old(Seen()), n)
      ensures Shaped(old(m.tables)) && OthersSame(old(m.tables), old(m.data), old(m.owner), m.tables, m.data, pgdir)
    {
      hide Wf, Conserved, Chain, Entry, NonePresent, PagesOf, Without, WithZeros, RoundUp, OthersSame, GrowNeeds;
      UnchangedSpace(m.tables, m.data, m.owner, pgdir);
      if n > 0 {
        r := Extend(n);
      } else if n < 0 {
        r := Shrink(n);
      } else {
        Wrapped(sz, n);
        r := 0;
      }
    }

    /** The deallocuvm half of growproc. */
    method Shrink(n: int) returns (r: int)
      requires Valid() && -0x8000_0000 <= n < 0
      modifies this`sz, m
      ensures Valid() && (r == 0 || r == -1)
      ensures (Seen(), if r == 0 then old(sz) else -1) == EagerSbrk(old(Seen()), n)
      ensures Shaped(old(m.tables)) && OthersSame(old(m.tables), old(m.data), old(m.owner), m.tables, m.data, pgdir)
    {
      hide Wf, Conserved, Chain, Entry, NonePresent, PagesOf, Unmapped, Without, WithZeros, RoundUp, OthersSame;
      ghost var tables0, data0, owner0 := m.tables, m.data, m.owner;
      UnchangedSpace(tables0, data0, owner0, pgdir);
      Wrapped(sz, n);
      AboveNone(tables0, data0, owner0, pgdir, Top(sz));
      var size := m.Deallocuvm(pgdir, sz, (sz + n) % UINT_MOD);
      if size < sz {
        PagesUnmapped(tables0, data0, owner0, m.tables, m.data, m.owner, pgdir, Top(size), Top(sz));
        AboveGone(PagesOf(tables0, data0, pgdir), Top(size), Top(sz));
        AboveNone(m.tables, m.data, m.owner, pgdir, Top(size));
        RoundUpOrder(size, sz);
        AboveNone(m.tables, m.data, m.owner, pgdir, Top(sz));
      }
      if size == 0 { return -1; }
      sz := size;
      return 0;
    }

    /** The allocuvm half of growproc. */
    method Extend(n: int) returns (r: int)
      requires Valid() && 0 < n < 0x8000_0000
      modifies this`sz, m
      ensures Valid() && (r == 0 || r == -1)
      ensures pgdir in old(m.tables) && Shaped(old(m.tables)) && Top(old(sz)) <= Top(old(sz) + n)
      ensures if old(sz) + n < KERNBASE
              && |old(m.free)| < GrowNeeds(old(m.tables), pgdir, Top(old(sz)), Top(old(sz) + n))
              then r == -1 && Seen() == old(Seen())
              else (Seen(), if r == 0 then old(sz) else -1) == EagerSbrk(old(Seen()), n)
      ensures Shaped(old(m.tables)) && OthersSame(old(m.tables), old(m.data), old(m.owner), m.tables, m.data, pgdir)
    {
      hide Wf, Conserved, Chain, Entry, NonePresent, PagesOf, Grew, SameMappings, WithZeros, RoundUp, OthersSame,
           MoreTables, GrowNeeds;
      ghost var tables0, data0, owner0, want := m.tables, m.data, m.owner, sz + n;
      UnchangedSpace(tables0, data0, owner0, pgdir);
      AboveNone(tables0, data0, owner0, pgdir, Top(sz));
      Wrapped(sz, n);
      RoundUpOrder(sz, want);
      if want < KERNBASE { NoneBetween(m.tables, pgdir, Top(sz), Top(want), want); }
      var size := m.Allocuvm(pgdir, sz, (sz + n) % UINT_MOD);
      if size == 0 {
        PagesSame(tables0, data0, owner0, m.tables, pgdir);
        AboveNone(m.tables, m.data, m.owner, pgdir, Top(sz));
        return -1;
      }
      PagesGrew(tables0, data0, owner0, m.tables, m.data, m.owner, pgdir, Top(sz), Top(want));
      AboveNone(m.tables, m.data, m.owner, pgdir, Top(want));
      sz := size;
      return 0;
    }
  }

  lemma Wrapped(sz: nat, n: int)
    requires sz <= KERNBASE && -0x8000_0000 <= n < 0x8000_0000
    ensures (sz + n) % UINT_MOD == if sz + n < 0 then sz + n + UINT_MOD else sz + n
    ensures sz + n < 0 ==> sz <= (sz + n) % UINT_MOD
  {
  }

  lemma UnchangedSpace(tables: Tables, data: Pages, owner: map<nat, Owner>, d: nat)
    requires Wf(tables, data, owner) && IsDir(owner, d)
    ensures Shaped(tables) && d in tables && OthersSame(tables, data, owner, tables, data, d)
  {
  }

  lemma AboveGone(pages: map<nat, Page>, lo: nat, hi: nat)
    requires forall v :: v in pages ==> v < hi
    ensures forall v :: v in Without(pages, lo, hi) ==> v < lo
  {
  }

  lemma PresentPage(tables: Tables, data: Pages, owner: map<nat, Owner>, d: nat, v: nat)
    requires Wf(tables, data, owner) && IsDir(owner, d) && d in tables && v < USERPAGES
    ensures Present(Entry(tables, d, v)) <==> v in PagesOf(tables, data, d)
  {
    hide Entry;
    PageBacked(tables, data, owner, d, v);
  }

  lemma EntryNow(t0: Tables, tables: Tables, owner: map<nat, Owner>, d: nat, v: nat, pte: nat)
    requires Shaped(t0) && Shaped(tables) && OnlyEntry(t0, tables, owner, d, v, pte) && d in t0 && IsDir(owner, d)
    requires v < NENTRIES * NENTRIES
    ensures d in tables && Entry(tables, d, v) == pte
  {
    hide Entry;
  }

  lemma HeldEntries(t0: Tables, tables: Tables, owner: map<nat, Owner>, f: nat, d: nat, v: nat, pte: nat)
    requires Shaped(t0) && Shaped(tables) && f !in owner && OnlyEntry(t0, tables, owner[f := Held], d, v, pte)
    ensures OnlyEntry(t0, tables, owner, d, v, pte)
  {
    hide Entry;
    assert forall e :: IsDir(owner, e) ==> IsDir(owner[f := Held], e);
  }

  lemma NoneBetween(tables: Tables, d: nat, lo: nat, hi: nat, size: nat)
    requires Shaped(tables) && NonePresent(tables, d, lo, USERPAGES) && hi == Top(size) && size <= KERNBASE
    ensures NonePresent(tables, d, lo, hi)
  {
  }

  /** A process with one page that is there but not for the user, as exec makes the page below the stack. */
  method Guarded() returns (p: Process)
    ensures p.Valid() && p.sz == PGSIZE && |p.m.free| == 6 && fresh(p) && fresh(p.m)
    ensures var pte := Entry(p.m.tables, p.pgdir, 0); Present(pte) && !ForUser(pte)
  {
    hide Wf, Conserved, Chain, Entry, MoreTables, SameEntries, MappedSoFar, NonePresent, ForUser, MkPte, OnlyEntry;
    var m := new Machine(1, 10);
    var d := m.Setupkvm([]);
    ghost var owner0, tables0 := m.owner, m.tables;
    NoneAtAll(tables0, d);
    var mem := m.Kalloc();
    HeldKeepsWf(tables0, m.data, owner0, mem);
    ghost var owner1 := m.owner;
    var done := m.MapPage(d, 0, mem, ZeroPage(), 2);
    EntryNow(tables0, m.tables, owner1, d, 0, MkPte(mem, 2));
    NoneButOne(tables0, m.tables, owner1, d, MkPte(mem, 2));
    NotForUser(mem);
    p := new Process(m, d, PGSIZE);
  }

  lemma NoneAtAll(tables: Tables, d: nat)
    requires Shaped(tables) && NonePresent(tables, d, 0, USERPAGES)
    ensures d in tables && !Present(Entry(tables, d, 0)) && Top(PGSIZE) == 1
  {
    hide Entry;
  }

  lemma NoneButOne(t0: Tables, tables: Tables, owner: map<nat, Owner>, d: nat, pte: nat)
    requires Shaped(t0) && Shaped(tables) && NonePresent(t0, d, 0, USERPAGES) && IsDir(owner, d) && d in t0
    requires OnlyEntry(t0, tables, owner, d, 0, pte)
    ensures NonePresent(tables, d, 1, USERPAGES)
  {
    hide Entry;
  }

  lemma NotForUser(mem: nat)
    ensures Present(MkPte(mem, 2)) && !ForUser(MkPte(mem, 2))
  {
    assert MkPte(mem, 2) / 4 == mem * 1024;
  }

  /** A load from that page brings the kernel down. */
  method GuardLoad() returns (p: Process, ghost pte: nat, ok: bool)
    ensures Present(pte) && !ForUser(pte) && !ok
  {
    hide Wf, Conserved, Chain, Entry, ForUser, OthersSame, PagesOf, NonePresent, TablesOf, Short;
    p := Guarded();
    pte := Entry(p.m.tables, p.pgdir, 0);
    assert ErrorCode(pte, Access(true, false)) == 5;
    ok := p.PageFault(0, 5);
  }
}
