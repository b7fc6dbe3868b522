/**
The user-level allocator (user/umalloc.c): a circular list of free blocks in address order, each
headed by a link and a size counted in headers. Addresses here are counted in headers too.
*/
module Umalloc {
  import opened Param

  const HEADER := 8 // sizeof(Header)

  /* ---------------- the free list as a value ---------------- */

  /** The element of the ring after position k. */
  function Next(ring: seq<nat>, k: nat): (a: nat)
    requires k < |ring|
  {
    if k + 1 < |ring| then ring[k + 1] else ring[0]
  }

  /** The block at position k: linked to the next, and separated from it by a gap. Only base has size 0. */
  ghost predicate Node(ring: seq<nat>, ptr: map<nat, nat>, size: map<nat, nat>, k: int)
  {
    && 0 <= k < |ring| && ring[k] in ptr && ring[k] in size
    && (if k == 0 then size[ring[k]] == 0 else size[ring[k]] > 0)
    && ptr[ring[k]] == Next(ring, k)
    && (k + 1 < |ring| ==> ring[k] + size[ring[k]] < ring[k + 1])
  }

  /** `ring` lists the free blocks from `base` on: linked in a circle, in address order,
      with a gap between any two, so that no two can be merged. */
  ghost predicate FreeList(ring: seq<nat>, ptr: map<nat, nat>, size: map<nat, nat>, base: nat)
  {
    && |ring| > 0 && ring[0] == base > 0
    && forall k {:trigger Node(ring, ptr, size, k)} :: 0 <= k < |ring| ==> Node(ring, ptr, size, k)
  }

  lemma {:induction false} Ascending(ring: seq<nat>, ptr: map<nat, nat>, size: map<nat, nat>, base: nat, j: nat, k: nat)
    requires FreeList(ring, ptr, size, base) && j < k < |ring|
    ensures ring[j] in size && ring[j] <= ring[j] + size[ring[j]] < ring[k]
  {
    assert Node(ring, ptr, size, j) && Node(ring, ptr, size, k - 1);
    if j < k - 1 { Ascending(ring, ptr, size, base, j, k - 1); }
  }

  lemma DistinctNodes(ring: seq<nat>, ptr: map<nat, nat>, size: map<nat, nat>, base: nat, j: nat, k: nat)
    requires FreeList(ring, ptr, size, base) && j < |ring| && k < |ring|
    ensures ring[j] == ring[k] <==> j == k
    ensures base <= ring[j] && (j > 0 ==> base < ring[j])
  {
    if j < k { Ascending(ring, ptr, size, base, j, k); }
    if k < j { Ascending(ring, ptr, size, base, k, j); }
    if 0 < j { Ascending(ring, ptr, size, base, 0, j); }
  }

  predicate Disjoint(a: nat, n: nat, b: nat, m: nat) { a + n <= b || b + m <= a }

  /** Live blocks overlap neither each other nor the free ones, and all lie between base and the break. */
  ghost predicate Apart(ring: seq<nat>, size: map<nat, nat>, live: map<nat, nat>, base: nat, brk: nat)
  {
    && base < brk
    && (forall a :: a in live ==> base < a && a + live[a] <= brk && live[a] > 0 && a in size && size[a] == live[a])
    && (forall a, b :: a in live && b in live && a != b ==> Disjoint(a, live[a], b, live[b]))
    && (forall b :: b in ring ==> b in size && b + size[b] <= brk)
    && (forall a, b :: a in live && b in ring ==> b in size && Disjoint(a, live[a], b, size[b]))
  }

  /** Position t of the ring is where a block at address bp belongs. */
  ghost predicate Before(ring: seq<nat>, t: nat, bp: nat)
  {
    t < |ring| && ring[t] < bp && (t + 1 < |ring| ==> bp < ring[t + 1])
  }

  lemma {:induction false} PlaceOf(ring: seq<nat>, ptr: map<nat, nat>, size: map<nat, nat>, base: nat, bp: nat, n: nat)
    returns (t: nat)
    requires FreeList(ring, ptr, size, base) && 0 < n <= |ring| && base < bp && bp !in ring
    ensures t < n && ring[t] < bp && (t + 1 < n ==> bp < ring[t + 1])
  {
    if n == 1 || ring[n - 1] < bp {
      t := n - 1;
    } else {
      t := PlaceOf(ring, ptr, size, base, bp, n - 1);
    }
  }

  /** The tests of the search succeed at the right place, and only there. */
  lemma SearchStep(ring: seq<nat>, ptr: map<nat, nat>, size: map<nat, nat>, base: nat, k: nat, t: nat, bp: nat)
    requires FreeList(ring, ptr, size, base) && bp !in ring && Before(ring, t, bp) && k < |ring|
    ensures t < |ring| && ring[k] in ptr && ptr[ring[k]] == Next(ring, k)
    ensures var p := ring[k];
            (bp > p && bp < ptr[p]) || (p >= ptr[p] && (bp > p || bp < ptr[p])) <==> k == t
  {
    assert Node(ring, ptr, size, k);
    DistinctNodes(ring, ptr, size, base, k, t);
    if k < t { Ascending(ring, ptr, size, base, k, t); }
    if k + 1 < t { Ascending(ring, ptr, size, base, k + 1, t); }
    if t + 1 < k { Ascending(ring, ptr, size, base, t + 1, k); }
    if 0 < t { Ascending(ring, ptr, size, base, 0, t); }
  }

  /* ---------------- putting a block back ---------------- */

  /** bp is a block about to be freed that belongs after position t. */
  ghost predicate Freeing(ring: seq<nat>, ptr: map<nat, nat>, size: map<nat, nat>, base: nat, bp: nat, t: nat)
  {
    && FreeList(ring, ptr, size, base) && Node(ring, ptr, size, t) && bp in size && size[bp] > 0 && bp !in ring
    && ring[t] + size[ring[t]] <= bp && (t + 1 < |ring| ==> bp + size[bp] <= ring[t + 1])
  }

  lemma InsertAlone(ring: seq<nat>, ptr: map<nat, nat>, size: map<nat, nat>, base: nat, bp: nat, t: nat)
    requires Freeing(ring, ptr, size, base, bp, t)
    requires ring[t] + size[ring[t]] != bp && bp + size[bp] != Next(ring, t)
    ensures FreeList(ring[..t + 1] + [bp] + ring[t + 1..], ptr[bp := Next(ring, t)][ring[t] := bp], size, base)
  {
    var r := ring[..t + 1] + [bp] + ring[t + 1..];
    var q := ptr[bp := Next(ring, t)][ring[t] := bp];
    forall k {:trigger Node(r, q, size, k)} | 0 <= k < |r| ensures Node(r, q, size, k) {
      if k != t + 1 {
        var j := if k <= t then k else k - 1;
        assert Node(ring, ptr, size, j) && r[k] == ring[j];
        DistinctNodes(ring, ptr, size, base, j, t);
      }
    }
  }

  lemma InsertAndMergeUp(ring: seq<nat>, ptr: map<nat, nat>, size: map<nat, nat>, base: nat, bp: nat, t: nat)
    requires Freeing(ring, ptr, size, base, bp, t)
    requires ring[t] + size[ring[t]] != bp && bp + size[bp] == Next(ring, t)
    ensures t + 1 < |ring| && Next(ring, t) == ring[t + 1] && ring[t + 1] in ptr && ring[t + 1] in size
    ensures FreeList(ring[t + 1 := bp], ptr[bp := ptr[ring[t + 1]]][ring[t] := bp],
                     size[bp := size[bp] + size[ring[t + 1]]], base)
  {
    DistinctNodes(ring, ptr, size, base, t, 0);
    assert t + 1 < |ring|;
    assert Node(ring, ptr, size, t + 1);
    var r := ring[t + 1 := bp];
    var q := ptr[bp := ptr[ring[t + 1]]][ring[t] := bp];
    var z := size[bp := size[bp] + size[ring[t + 1]]];
    forall k {:trigger Node(r, q, z, k)} | 0 <= k < |r| ensures Node(r, q, z, k) {
      assert Node(ring, ptr, size, k);
      DistinctNodes(ring, ptr, size, base, k, t);
    }
  }

  lemma MergeDown(ring: seq<nat>, ptr: map<nat, nat>, size: map<nat, nat>, base: nat, bp: nat, t: nat)
    requires Freeing(ring, ptr, size, base, bp, t)
    requires ring[t] + size[ring[t]] == bp && bp + size[bp] != Next(ring, t)
    ensures FreeList(ring, ptr[bp := Next(ring, t)][ring[t] := Next(ring, t)],
                     size[ring[t] := size[ring[t]] + size[bp]], base)
  {
    assert Node(ring, ptr, size, t);
    var q := ptr[bp := Next(ring, t)][ring[t] := Next(ring, t)];
    var z := size[ring[t] := size[ring[t]] + size[bp]];
    forall k {:trigger Node(ring, q, z, k)} | 0 <= k < |ring| ensures Node(ring, q, z, k) {
      assert Node(ring, ptr, size, k);
      DistinctNodes(ring, ptr, size, base, k, t);
    }
  }

  lemma MergeBoth(ring: seq<nat>, ptr: map<nat, nat>, size: map<nat, nat>, base: nat, bp: nat, t: nat)
    requires Freeing(ring, ptr, size, base, bp, t)
    requires ring[t] + size[ring[t]] == bp && bp + size[bp] == Next(ring, t)
    ensures t + 1 < |ring| && Next(ring, t) == ring[t + 1] && ring[t + 1] in ptr && ring[t + 1] in size
    ensures FreeList(ring[..t + 1] + ring[t + 2..],
                     ptr[bp := ptr[ring[t + 1]]][ring[t] := ptr[ring[t + 1]]],
                     size[bp := size[bp] + size[ring[t + 1]]][ring[t] := size[ring[t]] + size[bp] + size[ring[t + 1]]],
                     base)
  {
    DistinctNodes(ring, ptr, size, base, t, 0);
    assert t + 1 < |ring|;
    assert Node(ring, ptr, size, t + 1);
    var r := ring[..t + 1] + ring[t + 2..];
    var q := ptr[bp := ptr[ring[t + 1]]][ring[t] := ptr[ring[t + 1]]];
    var z := size[bp := size[bp] + size[ring[t + 1]]][ring[t] := size[ring[t]] + size[bp] + size[ring[t + 1]]];
    forall k {:trigger Node(r, q, z, k)} | 0 <= k < |r| ensures Node(r, q, z, k) {
      var j := if k <= t then k else k + 1;
      assert Node(ring, ptr, size, j) && r[k] == ring[j];
      DistinctNodes(ring, ptr, size, base, j, t);
    }
  }

  /* ---------------- units ---------------- */

  ghost predicate Sized(ring: seq<nat>, size: map<nat, nat>) { forall b :: b in ring ==> b in size }

  ghost function FreeUnits(ring: seq<nat>, size: map<nat, nat>): (n: nat)
    requires Sized(ring, size)
  {
    if ring == [] then 0 else
      assert ring[|ring| - 1] in ring;
      FreeUnits(ring[..|ring| - 1], size) + size[ring[|ring| - 1]]
  }

  lemma {:induction false} UnitsConcat(a: seq<nat>, b: seq<nat>, size: map<nat, nat>)
    requires Sized(a, size) && Sized(b, size)
    ensures Sized(a + b, size) && FreeUnits(a + b, size) == FreeUnits(a, size) + FreeUnits(b, size)
  {
    if b == [] {
      assert a + b == a;
    } else {
      var m := |b| - 1;
      UnitsConcat(a, b[..m], size);
      assert (a + b)[..|a + b| - 1] == a + b[..m];
    }
  }

  lemma {:induction false} UnitsFrame(ring: seq<nat>, size: map<nat, nat>, z: map<nat, nat>)
    requires Sized(ring, size) && Sized(ring, z) && forall b :: b in ring ==> z[b] == size[b]
    ensures FreeUnits(ring, z) == FreeUnits(ring, size)
  {
    if ring != [] {
      assert ring[|ring| - 1] in ring;
      UnitsFrame(ring[..|ring| - 1], size, z);
    }
  }

  lemma UnitsAround(a: seq<nat>, b: nat, c: seq<nat>, size: map<nat, nat>)
    requires Sized(a, size) && Sized(c, size) && b in size
    ensures Sized(a + [b] + c, size)
    ensures FreeUnits(a + [b] + c, size) == FreeUnits(a, size) + size[b] + FreeUnits(c, size)
  {
    UnitsConcat(a, [b], size);
    UnitsConcat(a + [b], c, size);
    assert [b][..0] == [];
    assert FreeUnits([b], size) == FreeUnits([], size) + size[b];
  }

  ghost function LiveUnits(live: map<nat, nat>): (n: nat)
  {
    if live.Keys == {} then 0 else
      var a :| a in live.Keys;
      live[a] + LiveUnits(live - {a})
  }

  lemma {:induction false} LiveWithout(live: map<nat, nat>, a: nat)
    requires a in live
    ensures LiveUnits(live) == live[a] + LiveUnits(live - {a})
    decreases |live|
  {
    var b :| b in live.Keys && LiveUnits(live) == live[b] + LiveUnits(live - {b});
    if b != a {
      LiveWithout(live - {b}, a);
      LiveWithout(live - {a}, b);
      assert live - {a} - {b} == live - {b} - {a};
    }
  }

  /** What the invariant says of the blocks, whatever the links. */
  ghost predicate Holds(ring: seq<nat>, size: map<nat, nat>, live: map<nat, nat>, base: nat, brk: nat, total: nat)
  {
    && Apart(ring, size, live, base, brk) && Sized(ring, size)
    && FreeUnits(ring, size) + LiveUnits(live) == total
  }

  /** Freeing bp: the ring A + C becomes A + [b] + C, where the block b takes up what bp and the neighbours
      merged with it took up. */
  lemma HoldsAfterFree(ring: seq<nat>, size: map<nat, nat>, live: map<nat, nat>, base: nat, brk: nat, total: nat,
                       bp: nat, a: seq<nat>, gone: seq<nat>, c: seq<nat>, b: nat, z: map<nat, nat>)
    requires Holds(ring, size, live, base, brk, total) && bp in live
    requires ring == a + gone + c && b in z && z.Keys == size.Keys
    requires forall x :: x in a || x in c ==> x in z && z[x] == size[x]
    requires forall x :: x in live && x != bp ==> z[x] == size[x]
    requires b + z[b] <= brk && z[b] == size[bp] + FreeUnits(gone, size)
    requires forall x :: x in live && x != bp ==> Disjoint(x, live[x], b, z[b])
    ensures Holds(a + [b] + c, z, live - {bp}, base, brk, total)
  {
    hide FreeUnits, LiveUnits;
    var live', r := live - {bp}, a + [b] + c;
    forall x | x in gone ensures x in size {
      assert x in ring;
    }
    assert Sized(a, size) && Sized(c, size) by {
      assert forall x :: x in a || x in c ==> x in ring;
    }
    UnitsConcat(a, gone, size);
    UnitsConcat(a + gone, c, size);
    UnitsFrame(a, size, z);
    UnitsFrame(c, size, z);
    UnitsAround(a, b, c, z);
    LiveWithout(live, bp);
    assert forall x :: x in r ==> x in ring || x == b;
    assert forall x :: x in r && x != b ==> x in a || x in c;
    assert forall x :: x in a || x in c ==> x in ring;
  }

  /** Everything that lies outside bp and each of its merged neighbours lies outside the merged block. */
  lemma Outside(x: nat, n: nat, a: nat, k: nat, m: nat)
    requires n > 0 && Disjoint(x, n, a, k) && Disjoint(x, n, a + k, m)
    ensures Disjoint(x, n, a, k + m)
  {
  }

  /** What free makes of the links and sizes when it files the block bp behind the block p. */
  ghost predicate Relinked(ptr: map<nat, nat>, size: map<nat, nat>, bp: nat, p: nat, q: map<nat, nat>, z: map<nat, nat>)
    requires p in ptr && p in size && bp in size && ptr[p] in ptr && ptr[p] in size
  {
    var up, down := bp + size[bp] == ptr[p], p + size[p] == bp;
    var after, merged := if up then ptr[ptr[p]] else ptr[p], if up then size[bp := size[bp] + size[ptr[p]]] else size;
    && q == ptr[bp := after][p := if down then after else bp]
    && z == if down then merged[p := merged[p] + merged[bp]] else merged
  }

  /** The new list after the assignments at the end of free, in its four cases. */
  lemma LinkFree(ring: seq<nat>, ptr: map<nat, nat>, size: map<nat, nat>, live: map<nat, nat>, base: nat, brk: nat,
                 total: nat, bp: nat, t: nat, q: map<nat, nat>, z: map<nat, nat>)
    returns (r: seq<nat>)
    requires Freeing(ring, ptr, size, base, bp, t) && Holds(ring, size, live, base, brk, total) && bp in live
    requires ptr[ring[t]] in ptr && ptr[ring[t]] in size && Relinked(ptr, size, bp, ring[t], q, z)
    ensures FreeList(r, q, z, base) && Holds(r, z, live - {bp}, base, brk, total) && ring[t] in r
    ensures exists b :: b in r && b in z && z[b] >= size[bp]
  {
    hide Holds, FreeList, Freeing;
    FreeingFacts(ring, ptr, size, base, bp, t);
    var p: nat := ring[t];
    HoldsFacts(ring, size, live, base, brk, total, bp, p);
    if bp + size[bp] == ptr[p] {
      if p + size[p] == bp {
        MergeBoth(ring, ptr, size, base, bp, t);
        r := ring[..t + 1] + ring[t + 2..];
        BothHolds(ring, ptr, size, live, base, brk, total, bp, t, z);
      } else {
        InsertAndMergeUp(ring, ptr, size, base, bp, t);
        r := ring[t + 1 := bp];
        UpHolds(ring, ptr, size, live, base, brk, total, bp, t, z);
      }
    } else if p + size[p] == bp {
      MergeDown(ring, ptr, size, base, bp, t);
      r := ring;
      DownHolds(ring, ptr, size, live, base, brk, total, bp, t, z);
    } else {
      InsertAlone(ring, ptr, size, base, bp, t);
      r := ring[..t + 1] + [bp] + ring[t + 1..];
      AloneHolds(ring, ptr, size, live, base, brk, total, bp, t);
    }
    assert r[t] == p;
    var w: nat := if p + size[p] == bp then p else bp;
    assert w == bp ==> r[t + 1] == bp;
    assert w in r && w in z && z[w] >= size[bp];
  }

  lemma FreeingFacts(ring: seq<nat>, ptr: map<nat, nat>, size: map<nat, nat>, base: nat, bp: nat, t: nat)
    requires Freeing(ring, ptr, size, base, bp, t)
    ensures t < |ring| && ring[t] in ptr && ring[t] in size && ptr[ring[t]] == Next(ring, t) && bp != ring[t]
    ensures bp in size
  {
  }

  lemma HoldsFacts(ring: seq<nat>, size: map<nat, nat>, live: map<nat, nat>, base: nat, brk: nat, total: nat, bp: nat,
                   p: nat)
    requires Holds(ring, size, live, base, brk, total) && bp in live && p in ring
    ensures bp in size && size[bp] == live[bp] && bp + size[bp] <= brk && p in size && p + size[p] <= brk
    ensures forall x :: x in live && x != bp ==>
              Disjoint(x, live[x], bp, size[bp]) && Disjoint(x, live[x], p, size[p]) && live[x] > 0
  {
  }

  lemma AloneHolds(ring: seq<nat>, ptr: map<nat, nat>, size: map<nat, nat>, live: map<nat, nat>, base: nat, brk: nat,
                   total: nat, bp: nat, t: nat)
    requires Holds(ring, size, live, base, brk, total) && bp in live && t < |ring|
    ensures Holds(ring[..t + 1] + [bp] + ring[t + 1..], size, live - {bp}, base, brk, total)
  {
    var a, c := ring[..t + 1], ring[t + 1..];
    assert ring == a + [] + c;
    HoldsAfterFree(ring, size, live, base, brk, total, bp, a, [], c, bp, size);
  }

  lemma SingleUnits(b: nat, size: map<nat, nat>)
    requires b in size
    ensures FreeUnits([b], size) == size[b]
  {
    assert [b][..0] == [];
    assert FreeUnits([b], size) == FreeUnits([], size) + size[b];
  }

  /** The list without position k: nothing left of it has the same address. */
  lemma NodeGone(ring: seq<nat>, ptr: map<nat, nat>, size: map<nat, nat>, live: map<nat, nat>, base: nat, brk: nat,
                 total: nat, k: nat)
    requires FreeList(ring, ptr, size, base) && Holds(ring, size, live, base, brk, total) && k < |ring|
    ensures ring[k] !in ring[..k] && ring[k] !in ring[k + 1..] && ring[k] !in live
    ensures ring == ring[..k] + [ring[k]] + ring[k + 1..]
  {
    assert Node(ring, ptr, size, k);
    forall j | 0 <= j < |ring| ensures ring[j] == ring[k] <==> j == k {
      DistinctNodes(ring, ptr, size, base, j, k);
    }
    assert ring[k] in ring;
  }

  lemma UpHolds(ring: seq<nat>, ptr: map<nat, nat>, size: map<nat, nat>, live: map<nat, nat>, base: nat, brk: nat,
                total: nat, bp: nat, t: nat, z: map<nat, nat>)
    requires Freeing(ring, ptr, size, base, bp, t) && Holds(ring, size, live, base, brk, total) && bp in live
    requires t + 1 < |ring| && bp + size[bp] == ring[t + 1] && ring[t + 1] in size
    requires z == size[bp := size[bp] + size[ring[t + 1]]]
    ensures Holds(ring[t + 1 := bp], z, live - {bp}, base, brk, total)
  {
    hide Holds, FreeList;
    var a, c, nxt := ring[..t + 1], ring[t + 2..], ring[t + 1];
    NodeGone(ring, ptr, size, live, base, brk, total, t + 1);
    HoldsFacts(ring, size, live, base, brk, total, bp, nxt);
    SingleUnits(nxt, size);
    forall x | x in live && x != bp ensures Disjoint(x, live[x], bp, z[bp]) {
      Outside(x, live[x], bp, size[bp], size[nxt]);
    }
    assert forall x :: x in a || x in c ==> x in ring;
    HoldsSized(ring, size, live, base, brk, total);
    HoldsAfterFree(ring, size, live, base, brk, total, bp, a, [nxt], c, bp, z);
    assert ring[t + 1 := bp] == a + [bp] + c;
  }

  lemma DownHolds(ring: seq<nat>, ptr: map<nat, nat>, size: map<nat, nat>, live: map<nat, nat>, base: nat, brk: nat,
                  total: nat, bp: nat, t: nat, z: map<nat, nat>)
    requires Freeing(ring, ptr, size, base, bp, t) && Holds(ring, size, live, base, brk, total) && bp in live
    requires ring[t] + size[ring[t]] == bp && z == size[ring[t] := size[ring[t]] + size[bp]]
    ensures Holds(ring, z, live - {bp}, base, brk, total)
  {
    hide Holds, FreeList;
    var a, c, p := ring[..t], ring[t + 1..], ring[t];
    NodeGone(ring, ptr, size, live, base, brk, total, t);
    HoldsFacts(ring, size, live, base, brk, total, bp, p);
    SingleUnits(p, size);
    forall x | x in live && x != bp ensures Disjoint(x, live[x], p, z[p]) {
      Outside(x, live[x], p, size[p], size[bp]);
    }
    assert forall x :: x in a || x in c ==> x in ring;
    HoldsSized(ring, size, live, base, brk, total);
    HoldsAfterFree(ring, size, live, base, brk, total, bp, a, [p], c, p, z);
  }

  lemma BothHolds(ring: seq<nat>, ptr: map<nat, nat>, size: map<nat, nat>, live: map<nat, nat>, base: nat, brk: nat,
                  total: nat, bp: nat, t: nat, z: map<nat, nat>)
    requires Freeing(ring, ptr, size, base, bp, t) && Holds(ring, size, live, base, brk, total) && bp in live
    requires ring[t] + size[ring[t]] == bp && t + 1 < |ring| && bp + size[bp] == ring[t + 1] && ring[t + 1] in size
    requires z == size[bp := size[bp] + size[ring[t + 1]]][ring[t] := size[ring[t]] + size[bp] + size[ring[t + 1]]]
    ensures Holds(ring[..t + 1] + ring[t + 2..], z, live - {bp}, base, brk, total)
  {
    hide Holds, FreeList;
    var a, c, p, nxt := ring[..t], ring[t + 2..], ring[t], ring[t + 1];
    NodeGone(ring, ptr, size, live, base, brk, total, t);
    HoldsFacts(ring, size, live, base, brk, total, bp, p);
    HoldsFacts(ring, size, live, base, brk, total, bp, nxt);
    SingleUnits(p, size);
    UnitsConcat([p], [nxt], size);
    SingleUnits(nxt, size);
    assert [p] + [nxt] == [p, nxt];
    forall x | x in live && x != bp ensures Disjoint(x, live[x], p, z[p]) {
      Outside(x, live[x], p, size[p], size[bp]);
      Outside(x, live[x], p, size[p] + size[bp], size[nxt]);
    }
    assert ring == a + [p, nxt] + c;
    assert forall x :: x in c ==> x in ring[t + 1..];
    assert forall x :: x in a || x in c ==> x in ring;
    HoldsSized(ring, size, live, base, brk, total);
    HoldsAfterFree(ring, size, live, base, brk, total, bp, a, [p, nxt], c, p, z);
    assert ring[..t + 1] + ring[t + 2..] == a + [p] + c;
  }

  lemma HoldsSized(ring: seq<nat>, size: map<nat, nat>, live: map<nat, nat>, base: nat, brk: nat, total: nat)
    requires Holds(ring, size, live, base, brk, total)
    ensures Sized(ring, size)
    ensures forall x :: x in live ==> x in size && size[x] == live[x]
  {
  }

  /* ---------------- taking a block out ---------------- */

  ghost predicate Taking(ring: seq<nat>, ptr: map<nat, nat>, size: map<nat, nat>, live: map<nat, nat>, base: nat,
                         brk: nat, total: nat, k: nat, n: nat)
  {
    && FreeList(ring, ptr, size, base) && Holds(ring, size, live, base, brk, total)
    && Node(ring, ptr, size, k) && 0 < n <= size[ring[k]]
  }

  /** A block of just the right size leaves the list. */
  lemma TakeWhole(ring: seq<nat>, ptr: map<nat, nat>, size: map<nat, nat>, live: map<nat, nat>, base: nat, brk: nat,
                  total: nat, k: nat, n: nat)
    requires Taking(ring, ptr, size, live, base, brk, total, k, n) && size[ring[k]] == n
    ensures k > 0 && ring[k] !in live
    ensures FreeList(ring[..k] + ring[k + 1..], ptr[ring[k - 1] := ptr[ring[k]]], size, base)
    ensures Holds(ring[..k] + ring[k + 1..], size, live[ring[k] := n], base, brk, total)
  {
    var r, q, p := ring[..k] + ring[k + 1..], ptr[ring[k - 1] := ptr[ring[k]]], ring[k];
    assert Node(ring, ptr, size, k - 1);
    forall j {:trigger Node(r, q, size, j)} | 0 <= j < |r| ensures Node(r, q, size, j) {
      var i := if j < k then j else j + 1;
      assert Node(ring, ptr, size, i) && r[j] == ring[i];
      DistinctNodes(ring, ptr, size, base, i, k - 1);
    }
    TakeWholeHolds(ring, ptr, size, live, base, brk, total, k, n);
  }

  lemma TakenApart(ring: seq<nat>, ptr: map<nat, nat>, size: map<nat, nat>, base: nat, k: nat, b: nat)
    requires FreeList(ring, ptr, size, base) && k < |ring| && b in ring[..k] + ring[k + 1..]
    ensures b in ring && b != ring[k] && b in size && ring[k] in size && Disjoint(ring[k], size[ring[k]], b, size[b])
  {
    var i :| 0 <= i < |ring| - 1 && (ring[..k] + ring[k + 1..])[i] == b;
    var j := if i < k then i else i + 1;
    assert ring[j] == b;
    assert Node(ring, ptr, size, k) && Node(ring, ptr, size, j);
    if j < k { Ascending(ring, ptr, size, base, j, k); } else { Ascending(ring, ptr, size, base, k, j); }
  }

  lemma TakeWholeHolds(ring: seq<nat>, ptr: map<nat, nat>, size: map<nat, nat>, live: map<nat, nat>, base: nat,
                       brk: nat, total: nat, k: nat, n: nat)
    requires Taking(ring, ptr, size, live, base, brk, total, k, n) && size[ring[k]] == n && k > 0
    ensures ring[k] !in live && Holds(ring[..k] + ring[k + 1..], size, live[ring[k] := n], base, brk, total)
  {
    hide FreeList, FreeUnits, LiveUnits;
    var a, c, p := ring[..k], ring[k + 1..], ring[k];
    NodeGone(ring, ptr, size, live, base, brk, total, k);
    UnitsAround(a, p, c, size);
    UnitsConcat(a, c, size);
    LiveWithout(live[p := n], p);
    assert live[p := n] - {p} == live;
    DistinctNodes(ring, ptr, size, base, k, 0);
    forall b | b in a + c ensures b in ring && Disjoint(p, n, b, size[b]) {
      TakenApart(ring, ptr, size, base, k, b);
    }
    assert p in ring;
  }

  /** A larger block gives up its upper end and stays where it is. */
  lemma TakeEnd(ring: seq<nat>, ptr: map<nat, nat>, size: map<nat, nat>, live: map<nat, nat>, base: nat, brk: nat,
                total: nat, k: nat, n: nat)
    requires Taking(ring, ptr, size, live, base, brk, total, k, n) && size[ring[k]] > n
    ensures var p := ring[k];
            var p': nat := p + size[p] - n;
            var z := size[p := size[p] - n][p' := n];
            && p' !in live && FreeList(ring, ptr, z, base) && Holds(ring, z, live[p' := n], base, brk, total)
  {
    hide FreeList, Holds;
    var p: nat := ring[k];
    var p': nat := p + size[p] - n;
    var z := size[p := size[p] - n][p' := n];
    TakeEndList(ring, ptr, size, base, k, n, p', z);
    TakeEndHolds(ring, ptr, size, live, base, brk, total, k, n, p', z);
  }

  lemma TakeEndList(ring: seq<nat>, ptr: map<nat, nat>, size: map<nat, nat>, base: nat, k: nat, n: nat, p': nat,
                    z: map<nat, nat>)
    requires FreeList(ring, ptr, size, base) && Node(ring, ptr, size, k) && 0 < n < size[ring[k]]
    requires p' == ring[k] + size[ring[k]] - n && z == size[ring[k] := size[ring[k]] - n][p' := n]
    ensures p' !in ring && base < p' && FreeList(ring, ptr, z, base)
  {
    var p: nat := ring[k];
    assert p in ring && base <= p by { DistinctNodes(ring, ptr, size, base, k, 0); }
    forall j | 0 <= j < |ring| ensures ring[j] != p' && (ring[j] == p <==> j == k) {
      assert Node(ring, ptr, size, j);
      DistinctNodes(ring, ptr, size, base, j, k);
      if j < k { Ascending(ring, ptr, size, base, j, k); }
      if k < j { Ascending(ring, ptr, size, base, k, j); }
    }
    forall j {:trigger Node(ring, ptr, z, j)} | 0 <= j < |ring| ensures Node(ring, ptr, z, j) {
      assert Node(ring, ptr, size, j);
    }
  }

  lemma TakeEndUnits(ring: seq<nat>, ptr: map<nat, nat>, size: map<nat, nat>, live: map<nat, nat>, base: nat, brk: nat,
                     total: nat, k: nat, n: nat, p': nat, z: map<nat, nat>)
    requires Taking(ring, ptr, size, live, base, brk, total, k, n) && size[ring[k]] > n
    requires z == size[ring[k] := size[ring[k]] - n][p' := n] && p' !in ring
    ensures Sized(ring, size) && Sized(ring, z) && FreeUnits(ring, z) == FreeUnits(ring, size) - n
  {
    hide FreeList, Apart;
    var a, c, p := ring[..k], ring[k + 1..], ring[k];
    NodeGone(ring, ptr, size, live, base, brk, total, k);
    assert p in ring;
    assert forall x :: x in a || x in c ==> x in ring && x != p;
    UnitsAround(a, p, c, size);
    UnitsFrame(a, size, z);
    UnitsFrame(c, size, z);
    UnitsAround(a, p, c, z);
  }

  lemma TakeEndHolds(ring: seq<nat>, ptr: map<nat, nat>, size: map<nat, nat>, live: map<nat, nat>, base: nat, brk: nat,
                     total: nat, k: nat, n: nat, p': nat, z: map<nat, nat>)
    requires Taking(ring, ptr, size, live, base, brk, total, k, n) && size[ring[k]] > n
    requires p' == ring[k] + size[ring[k]] - n && z == size[ring[k] := size[ring[k]] - n][p' := n] && p' !in ring
    requires base < p'
    ensures p' !in live && Holds(ring, z, live[p' := n], base, brk, total)
  {
    hide FreeList, FreeUnits, LiveUnits;
    TakeEndUnits(ring, ptr, size, live, base, brk, total, k, n, p', z);
    TakeEndApart(ring, ptr, size, live, base, brk, total, k, n, p', z);
    LiveWithout(live[p' := n], p');
    assert live[p' := n] - {p'} == live;
  }

  lemma TakeEndApart(ring: seq<nat>, ptr: map<nat, nat>, size: map<nat, nat>, live: map<nat, nat>, base: nat, brk: nat,
                     total: nat, k: nat, n: nat, p': nat, z: map<nat, nat>)
    requires Taking(ring, ptr, size, live, base, brk, total, k, n) && size[ring[k]] > n
    requires p' == ring[k] + size[ring[k]] - n && z == size[ring[k] := size[ring[k]] - n][p' := n] && p' !in ring
    requires base < p'
    ensures p' !in live && Apart(ring, z, live[p' := n], base, brk)
  {
    hide FreeList, FreeUnits, LiveUnits, Apart, Disjoint;
    var p: nat := ring[k];
    assert p in ring;
    NodeGone(ring, ptr, size, live, base, brk, total, k);
    forall b | b in ring && b != p ensures b in size && Disjoint(p, size[p], b, size[b]) {
      assert b in ring[..k] + ring[k + 1..];
      TakenApart(ring, ptr, size, base, k, b);
    }
    EndNotLive(ring, size, live, base, brk, p, p');
    EndApart(ring, size, live, base, brk, p, n, p', z);
  }

  lemma EndNotLive(ring: seq<nat>, size: map<nat, nat>, live: map<nat, nat>, base: nat, brk: nat, p: nat, p': nat)
    requires Apart(ring, size, live, base, brk) && p in ring && p < p' && (p in size ==> p' < p + size[p])
    ensures p' !in live
  {
    assert forall a :: a in live ==> Disjoint(a, live[a], p, size[p]);
  }

  /** The upper n units of the free block p become a live block of their own. */
  lemma EndApart(ring: seq<nat>, size: map<nat, nat>, live: map<nat, nat>, base: nat, brk: nat, p: nat, n: nat, p': nat,
                 z: map<nat, nat>)
    requires Apart(ring, size, live, base, brk) && p in ring && p in size && 0 < n < size[p] && p !in live
    requires p' == p + size[p] - n && z == size[p := size[p] - n][p' := n] && p' !in ring && p' !in live && base < p'
    requires forall b :: b in ring && b != p ==> b in size && Disjoint(p, size[p], b, size[b])
    ensures Apart(ring, z, live[p' := n], base, brk)
  {
    forall b | b in ring ensures b in z && b + z[b] <= brk && Disjoint(p', n, b, z[b]) {
    }
    forall a | a in live ensures z[a] == size[a] && Disjoint(a, live[a], p', n) && Disjoint(p', n, a, live[a]) {
      assert Disjoint(a, live[a], p, size[p]);
    }
    forall a, b | a in live && b in ring ensures Disjoint(a, live[a], b, z[b]) {
      assert Disjoint(a, live[a], b, size[b]);
    }
  }

  /* ---------------- the allocator ---------------- */

  const MINUNITS := 4096

  /** `(nbytes + sizeof(Header) - 1)/sizeof(Header) + 1` in 32-bit unsigned arithmetic. */
  function Units(nbytes: nat): (n: nat)
  {
    (nbytes + HEADER - 1) % UINT_MOD / HEADER + 1
  }

  /** What morecore passes to sbrk: a 32-bit product read as a signed number. */
  function SbrkArg(nu: nat): (n: int)
  {
    var u := (if nu < MINUNITS then MINUNITS else nu) * HEADER % UINT_MOD;
    if u < UINT_MOD / 2 then u else u - UINT_MOD
  }

  /** The block malloc looks for has room for the bytes asked for, if and only if rounding up does not wrap. */
  lemma RoomIff(nbytes: nat)
    requires nbytes < UINT_MOD
    ensures (Units(nbytes) - 1) * HEADER >= nbytes <==> nbytes + HEADER - 1 < UINT_MOD
  {
  }

  /** morecore asks sbrk for the units it then files away, if and only if their size is a positive int. */
  lemma SbrkArgIff(nbytes: nat)
    requires nbytes < UINT_MOD
    ensures SbrkArg(Units(nbytes)) == HEADER * (if Units(nbytes) < MINUNITS then MINUNITS else Units(nbytes))
            <==> nbytes <= UINT_MOD / 2 - 2 * HEADER || nbytes + HEADER - 1 >= UINT_MOD
  {
  }

  /** Steps along the ring from position k to position f. */
  function Steps(k: nat, f: nat, m: nat): (d: nat)
    requires k < m && f < m
  {
    if k <= f then f - k else f + m - k
  }

  class Heap {
    const base: nat
    var ptr: map<nat, nat>
    var size: map<nat, nat>
    var freep: nat // 0 before the first call
    var brk: nat
    ghost var ring: seq<nat>
    ghost var live: map<nat, nat> // blocks handed out and not yet freed, with their sizes
    ghost var total: nat          // units obtained from sbrk

    ghost predicate Valid()
      reads this
    {
      if freep == 0 then live == map[] && total == 0 && 0 < base < brk
      else FreeList(ring, ptr, size, base) && freep in ring && Holds(ring, size, live, base, brk, total)
    }

    constructor (b: nat, end: nat)
      requires 0 < b < end
      ensures Valid() && base == b && live == map[] && total == 0
    {
      base, brk, ptr, size, freep, ring, live, total := b, end, map[], map[], 0, [], map[], 0;
    }

    /** The search loop of free; it ends within one turn round the list. */
    method Search(bp: nat, ghost t: nat) returns (p: nat)
      requires FreeList(ring, ptr, size, base) && freep in ring && bp !in ring && Before(ring, t, bp)
      ensures t < |ring| && p == ring[t]
    {
      hide FreeList, Before;
      p := freep;
      ghost var k: nat :| k < |ring| && ring[k] == freep;
      SearchStep(ring, ptr, size, base, k, t, bp);
      while !(bp > p && bp < ptr[p])
        invariant k < |ring| && p == ring[k] && p in ptr && ptr[p] == Next(ring, k)
        invariant (bp > p && bp < ptr[p]) || (p >= ptr[p] && (bp > p || bp < ptr[p])) <==> k == t
        decreases Steps(k, t, |ring|)
      {
        if p >= ptr[p] && (bp > p || bp < ptr[p]) {
          break;
        }
        p := ptr[p];
        k := if k + 1 < |ring| then k + 1 else 0;
        SearchStep(ring, ptr, size, base, k, t, bp);
      }
    }

    /** The second half of free: the block joins the neighbours it touches. */
    method Relink(bp: nat, p: nat)
      requires p in ptr && p in size && bp in size && ptr[p] in ptr && ptr[p] in size && bp != p
      modifies this`ptr, this`size
      ensures Relinked(old(ptr), old(size), bp, p, ptr, size)
    {
      if bp + size[bp] == ptr[p] {
        size := size[bp := size[bp] + size[ptr[p]]];
        ptr := ptr[bp := ptr[ptr[p]]];
      } else {
        ptr := ptr[bp := ptr[p]];
      }
      if p + size[p] == bp {
        size := size[p := size[p] + size[bp]];
        ptr := ptr[p := ptr[bp]];
      } else {
        ptr := ptr[p := bp];
      }
    }

    method Free(ap: nat)
      requires Valid() && ap > 0 && ap - 1 in live
      modifies this
      ensures Valid() && freep != 0 && live == old(live) - {ap - 1} && total == old(total) && brk == old(brk)
      ensures exists b :: b in ring && b in size && size[b] >= old(live)[ap - 1]
    {
      hide FreeList, Holds, Before, Freeing, Node, Next, Relinked;
      var bp := ap - 1;
      ghost var t := LivePlace(ring, ptr, size, live, base, brk, total, bp);
      var p := Search(bp, t);
      FreeingFacts(ring, ptr, size, base, bp, t);
      NextFacts(ring, ptr, size, base, t);
      HoldsFacts(ring, size, live, base, brk, total, bp, p);
      ghost var ptr0, size0 := ptr, size;
      Relink(bp, p);
      ring := LinkFree(ring, ptr0, size0, live, base, brk, total, bp, t, ptr, size);
      live := live - {bp};
      freep := p;
      FreepNonzero(ring, ptr, size, base, p);
    }

    /** morecore; sbrk may fail, and the memory it grants may start past the end of what it granted before. */
    method Morecore(nu: nat, hp: nat) returns (p: nat)
      requires Valid() && freep != 0 && nu > 0 && (hp == 0 || hp >= brk)
      modifies this
      ensures Valid() && freep != 0 && live == old(live) && (p == 0 <==> hp == 0)
      ensures p == 0 ==> ring == old(ring) && ptr == old(ptr) && size == old(size) && freep == old(freep)
                         && total == old(total) && brk == old(brk)
      ensures p != 0 ==> p == freep && total == old(total) + (if nu < MINUNITS then MINUNITS else nu)
                         && Room(ring, size, nu)
    {
      hide FreeList, Holds, Node;
      var n := if nu < MINUNITS then MINUNITS else nu;
      if hp == 0 { return 0; }
      GrowHeap(ring, ptr, size, live, base, brk, total, hp, n);
      brk := hp + n;
      total := total + n;
      size := size[hp := n];
      live := live[hp := n];
      Free(hp + 1);
      assert live == old(live);
      p := freep;
      FreepNonzero(ring, ptr, size, base, freep);
    }

    /** The end of malloc: the block at p, or its upper end, is taken off the list. */
    method Take(prevp: nat, p: nat, nunits: nat, ghost k: nat) returns (r: nat)
      requires Valid() && freep != 0 && k < |ring| && ring[k] == p && 0 < nunits
      requires prevp in ptr && prevp == ring[if k == 0 then |ring| - 1 else k - 1] && p in size && p in ptr
      requires size[p] >= nunits
      modifies this
      ensures Valid() && freep != 0 && total == old(total)
      ensures r > 0 && r - 1 !in old(live) && live == old(live)[r - 1 := nunits]
    {
      hide FreeList, Holds, Node;
      TakingFacts(ring, ptr, size, live, base, brk, total, k, nunits);
      if size[p] == nunits {
        TakeWhole(ring, ptr, size, live, base, brk, total, k, nunits);
        ptr := ptr[prevp := ptr[p]];
        ghost var r0 := ring[..k] + ring[k + 1..];
        assert r0[k - 1] == prevp;
        ring := r0;
        live := live[p := nunits];
        r := p + 1;
      } else {
        TakeEnd(ring, ptr, size, live, base, brk, total, k, nunits);
        size := size[p := size[p] - nunits];
        var p' := p + size[p];
        size := size[p' := nunits];
        live := live[p' := nunits];
        r := p' + 1;
        assert prevp in ring;
      }
      freep := prevp;
      FreepNonzero(ring, ptr, size, base, prevp);
    }

    /** malloc of nbytes, a 32-bit unsigned number; hp is where sbrk would put the next piece of heap, 0 if it would
        fail. The list is tried first: 0 comes back only when no free block is large enough and sbrk fails, and the
        heap grows only when no free block is large enough. Otherwise the result is the address after the header
        of a block new to the live ones. The precondition on nbytes keeps sbrk's argument positive (see SbrkArgIff). */
    method Malloc(nbytes: nat, hp: nat) returns (r: nat)
      requires Valid() && nbytes < UINT_MOD && (hp == 0 || hp >= brk)
      requires nbytes <= UINT_MOD / 2 - 2 * HEADER || nbytes + HEADER - 1 >= UINT_MOD
      modifies this
      ensures Valid() && freep != 0
      ensures r == 0 <==> hp == 0 && !old(freep != 0 && Room(ring, size, Units(nbytes)))
      ensures r == 0 ==> live == old(live)
      ensures r != 0 ==> r - 1 !in old(live) && live == old(live)[r - 1 := Units(nbytes)]
      ensures total == old(total) + (if hp == 0 || old(freep != 0 && Room(ring, size, Units(nbytes))) then 0
                                     else if Units(nbytes) < MINUNITS then MINUNITS else Units(nbytes))
    {
      hide FreeList, Holds, Node, Visited, Room, Next, Steps;
      var nunits := (nbytes + HEADER - 1) % UINT_MOD / HEADER + 1;
      if freep == 0 {
        StartList();
        SmallBase(base, size, nunits);
      }
      var prevp := freep;
      ghost var room := Room(ring, size, nunits);
      ghost var f: nat :| f < |ring| && ring[f] == freep;
      ghost var k: nat := if f + 1 < |ring| then f + 1 else 0;
      ghost var grown := false;
      Advance(ring, ptr, size, base, f);
      StartVisit(ring, size, f, k, nunits);
      var p := ptr[prevp];
      while true
        invariant Valid() && freep != 0 && live == old(live)
        invariant f < |ring| && k < |ring| && ring[f] == freep && ring[k] == p && p in size && p in ptr
        invariant prevp in ptr && prevp == ring[if k == 0 then |ring| - 1 else k - 1]
        invariant Visited(ring, size, f, k, nunits)
        invariant grown ==> Room(ring, size, nunits) && !room && hp != 0
        invariant !grown ==> room == Room(ring, size, nunits) && (hp == 0 || hp >= brk)
        invariant total == old(total) + if !grown then 0 else if nunits < MINUNITS then MINUNITS else nunits
        decreases !grown, Steps(k, f, |ring|)
      {
        if size[p] >= nunits {
          RoomAt(ring, size, k, nunits);
          r := Take(prevp, p, nunits, k);
          return;
        }
        if p == freep {
          AllVisited(ring, ptr, size, base, f, k, nunits);
          p := Morecore(nunits, hp);
          if p == 0 { return 0; }
          grown := true;
          f :| f < |ring| && ring[f] == freep;
          k := f;
        } else {
          VisitNext(ring, size, f, k, nunits);
        }
        prevp := p;
        Advance(ring, ptr, size, base, k);
        p := ptr[p];
        k := if k + 1 < |ring| then k + 1 else 0;
        StartVisit(ring, size, f, k, nunits);
      }
    }

    /** The first call: a list of the empty block base alone. */
    method StartList()
      requires Valid() && freep == 0
      modifies this`ptr, this`size, this`freep, this`ring
      ensures Valid() && freep == base && ring == [base] && base in size && size[base] == 0
    {
      hide FreeList, Holds, Node;
      ptr := ptr[base := base];
      freep := base;
      size := size[base := 0];
      ring := [base];
      FirstList(ptr, size, base, brk);
    }
  }

  /** Following the link of node k leads to the next node of the ring. */
  lemma Advance(ring: seq<nat>, ptr: map<nat, nat>, size: map<nat, nat>, base: nat, k: nat)
    requires FreeList(ring, ptr, size, base) && k < |ring|
    ensures ring[k] in ptr && ring[k] in size
    ensures var j := if k + 1 < |ring| then k + 1 else 0; ptr[ring[k]] == ring[j] && ring[j] in ptr && ring[j] in size
  {
    NodeFacts(ring, ptr, size, base, k);
    NextFacts(ring, ptr, size, base, k);
  }

  /** Some block of the list has n units. */
  ghost predicate Room(ring: seq<nat>, size: map<nat, nat>, n: nat)
  {
    exists b :: b in ring && b in size && size[b] >= n
  }

  lemma RoomAt(ring: seq<nat>, size: map<nat, nat>, k: nat, n: nat)
    requires k < |ring| && ring[k] in size && size[ring[k]] >= n
    ensures Room(ring, size, n)
  {
    assert ring[k] in ring;
  }

  lemma SmallBase(base: nat, size: map<nat, nat>, n: nat)
    requires base in size && size[base] < n
    ensures !Room([base], size, n)
  {
  }

  lemma LivePlace(ring: seq<nat>, ptr: map<nat, nat>, size: map<nat, nat>, live: map<nat, nat>, base: nat, brk: nat,
                  total: nat, bp: nat)
    returns (t: nat)
    requires FreeList(ring, ptr, size, base) && Holds(ring, size, live, base, brk, total) && bp in live
    ensures Freeing(ring, ptr, size, base, bp, t) && Before(ring, t, bp) && bp !in ring
  {
    forall k | 0 <= k < |ring| ensures ring[k] != bp {
      NodeGone(ring, ptr, size, live, base, brk, total, k);
    }
    t := PlaceOf(ring, ptr, size, base, bp, |ring|);
    assert Node(ring, ptr, size, t) && ring[t] in ring;
    if t + 1 < |ring| {
      assert Node(ring, ptr, size, t + 1) && ring[t + 1] in ring;
    }
  }

  lemma NextFacts(ring: seq<nat>, ptr: map<nat, nat>, size: map<nat, nat>, base: nat, t: nat)
    requires FreeList(ring, ptr, size, base) && t < |ring|
    ensures Next(ring, t) in ptr && Next(ring, t) in size && Next(ring, t) in ring
  {
    var k := if t + 1 < |ring| then t + 1 else 0;
    assert Node(ring, ptr, size, k);
  }

  lemma FreepNonzero(ring: seq<nat>, ptr: map<nat, nat>, size: map<nat, nat>, base: nat, p: nat)
    requires FreeList(ring, ptr, size, base) && p in ring
    ensures p > 0
  {
    var k :| 0 <= k < |ring| && ring[k] == p;
    DistinctNodes(ring, ptr, size, base, k, 0);
  }

  /** A block fresh from sbrk counts as live until it is freed into the list. */
  lemma GrowHeap(ring: seq<nat>, ptr: map<nat, nat>, size: map<nat, nat>, live: map<nat, nat>, base: nat, brk: nat,
                 total: nat, hp: nat, n: nat)
    requires FreeList(ring, ptr, size, base) && Holds(ring, size, live, base, brk, total) && hp >= brk && n > 0
    ensures hp !in live && hp !in ring
    ensures FreeList(ring, ptr, size[hp := n], base)
    ensures Holds(ring, size[hp := n], live[hp := n], base, hp + n, total + n)
  {
    forall k | 0 <= k < |ring| ensures ring[k] != hp {
      assert Node(ring, ptr, size, k) && ring[k] in ring;
      DistinctNodes(ring, ptr, size, base, k, 0);
    }
    forall k {:trigger Node(ring, ptr, size[hp := n], k)} | 0 <= k < |ring| ensures Node(ring, ptr, size[hp := n], k) {
      assert Node(ring, ptr, size, k);
    }
    GrowHolds(ring, size, live, base, brk, total, hp, n);
  }

  lemma GrowHolds(ring: seq<nat>, size: map<nat, nat>, live: map<nat, nat>, base: nat, brk: nat, total: nat, hp: nat,
                  n: nat)
    requires Holds(ring, size, live, base, brk, total) && hp >= brk && n > 0 && hp !in ring
    ensures hp !in live && Holds(ring, size[hp := n], live[hp := n], base, hp + n, total + n)
  {
    hide FreeUnits, LiveUnits;
    assert hp !in live;
    LiveWithout(live[hp := n], hp);
    assert live[hp := n] - {hp} == live;
    UnitsFrame(ring, size, size[hp := n]);
  }

  lemma TakingFacts(ring: seq<nat>, ptr: map<nat, nat>, size: map<nat, nat>, live: map<nat, nat>, base: nat, brk: nat,
                    total: nat, k: nat, n: nat)
    requires FreeList(ring, ptr, size, base) && Holds(ring, size, live, base, brk, total) && k < |ring|
    requires ring[k] in size && 0 < n <= size[ring[k]]
    ensures Taking(ring, ptr, size, live, base, brk, total, k, n) && k > 0
  {
    assert Node(ring, ptr, size, k);
  }

  lemma NodeFacts(ring: seq<nat>, ptr: map<nat, nat>, size: map<nat, nat>, base: nat, k: nat)
    requires FreeList(ring, ptr, size, base) && k < |ring|
    ensures ring[k] in ptr && ring[k] in size && ptr[ring[k]] == Next(ring, k)
  {
    assert Node(ring, ptr, size, k);
  }

  lemma FirstList(ptr: map<nat, nat>, size: map<nat, nat>, base: nat, brk: nat)
    requires 0 < base < brk && base in ptr && ptr[base] == base && base in size && size[base] == 0
    ensures FreeList([base], ptr, size, base) && Holds([base], size, map[], base, brk, 0)
  {
    assert Node([base], ptr, size, 0);
    SingleUnits(base, size);
  }

  /** The positions passed since freep at f, up to k, are all too small. */
  ghost predicate Visited(ring: seq<nat>, size: map<nat, nat>, f: nat, k: nat, n: nat)
  {
    && f < |ring| && k < |ring|
    && forall i :: 0 <= i < |ring| && Steps(i, f, |ring|) > Steps(k, f, |ring|) ==> ring[i] in size && size[ring[i]] < n
  }

  lemma VisitNext(ring: seq<nat>, size: map<nat, nat>, f: nat, k: nat, n: nat)
    requires Visited(ring, size, f, k, n) && k != f && ring[k] in size && size[ring[k]] < n
    ensures Visited(ring, size, f, if k + 1 < |ring| then k + 1 else 0, n)
    ensures Steps(if k + 1 < |ring| then k + 1 else 0, f, |ring|) < Steps(k, f, |ring|)
  {
    forall i | 0 <= i < |ring| && Steps(i, f, |ring|) > Steps(if k + 1 < |ring| then k + 1 else 0, f, |ring|)
      ensures ring[i] in size && size[ring[i]] < n
    {
      if i != k { assert Steps(i, f, |ring|) > Steps(k, f, |ring|); }
    }
  }

  lemma StartVisit(ring: seq<nat>, size: map<nat, nat>, f: nat, k: nat, n: nat)
    requires f < |ring| && k < |ring|
    ensures k == (if f + 1 < |ring| then f + 1 else 0) ==> Visited(ring, size, f, k, n)
  {
  }

  lemma AllVisited(ring: seq<nat>, ptr: map<nat, nat>, size: map<nat, nat>, base: nat, f: nat, k: nat, n: nat)
    requires FreeList(ring, ptr, size, base) && Visited(ring, size, f, k, n) && ring[k] == ring[f] && ring[k] in size
    requires size[ring[k]] < n
    ensures k == f && !Room(ring, size, n)
  {
    DistinctNodes(ring, ptr, size, base, k, f);
    forall b | b in ring ensures b in size && size[b] < n {
      var i :| 0 <= i < |ring| && ring[i] == b;
      if i != k { assert Steps(i, f, |ring|) > Steps(k, f, |ring|); }
    }
  }
}
