/**
How full the log gets when its operations each log only so many blocks (log.c). begin_op reserves MAXOPBLOCKS blocks for
each of them, but blocks of some set may be logged by several operations at once, and then count once.
*/
module LogLoad {
  import opened Param
  import opened Blocks
  import opened Bio
  import opened LogSpec
  import opened FsSpec
  import opened Fs
  import P = LogProtocol

  /** What operation op has logged so far. */
  function WritesOf(events: seq<P.Event>, op: nat): (ws: seq<Write>)
  {
    if events == [] then [] else
      var e := events[|events| - 1];
      WritesOf(events[..|events| - 1], op) + if e.op == op then [Write(e.block, e.data)] else []
  }

  lemma WritesMore(events: seq<P.Event>, e: P.Event, op: nat)
    ensures WritesOf(events + [e], op) == WritesOf(events, op) + if e.op == op then [Write(e.block, e.data)] else []
  {
    assert (events + [e])[..|events|] == events;
  }

  lemma {:induction false} NoWrites(events: seq<P.Event>, op: nat)
    requires forall i :: 0 <= i < |events| ==> events[i].op != op
    ensures WritesOf(events, op) == []
  {
    if events != [] { NoWrites(events[..|events| - 1], op); }
  }

  /* ---------------- how much there is in the header ---------------- */

  /** The blocks of the header outside m. */
  ghost function Outside(hdr: seq<nat>, m: set<nat>): (s: set<nat>) { set b | b in hdr && b !in m }

  /** How many blocks outside m operation op has logged. */
  ghost function Count(events: seq<P.Event>, op: nat, m: set<nat>): (n: nat) { |Touched(WritesOf(events, op)) - m| }

  ghost function Counts(s: P.State, m: set<nat>): (c: map<nat, nat>)
  {
    map op | op in s.outstanding :: Count(s.events, op, m)
  }

  /** What the open operations have logged is in the header. */
  ghost predicate Listed(s: P.State)
  {
    forall op {:trigger op in s.outstanding} :: op in s.outstanding ==>
      Touched(WritesOf(s.events, op)) <= Elements(s.hdr)
  }

  ghost function Elements(hdr: seq<nat>): (s: set<nat>) { set b | b in hdr }

  /** The header has no more than `limit` blocks outside m, even when every open operation has logged p of them. */
  ghost predicate Loaded(s: P.State, m: set<nat>, p: nat, limit: nat)
  {
    Listed(s) && |Outside(s.hdr, m)| + P.Left(Counts(s, m), p) <= limit
  }

  /** No open operation has logged more than p blocks outside m. */
  ghost predicate Within(s: P.State, m: set<nat>, p: nat)
  {
    forall op {:trigger op in s.outstanding} :: op in s.outstanding ==> Count(s.events, op, m) <= p
  }

  lemma LeftOfNone(p: nat)
    ensures P.Left(map[], p) == 0
  {
  }

  lemma {:induction false} FewLeft(c: map<nat, nat>, p: nat)
    requires forall k :: k in c ==> c[k] <= p
    ensures 0 <= P.Left(c, p)
    ensures (|c| == 0 ==> P.Left(c, p) == 0) && (|c| == 1 ==> P.Left(c, p) <= p) && (|c| == 2 ==> P.Left(c, p) <= 2 * p)
    decreases |c|
  {
    hide P.Left;
    LeftOfNone(p);
    if c != map[] {
      var k :| k in c;
      P.LeftWithout(c, p, k);
      assert c.Keys == (c - {k}).Keys + {k};
      FewLeft(c - {k}, p);
    }
  }

  lemma CountMore(events: seq<P.Event>, e: P.Event, op: nat, m: set<nat>)
    ensures var was := Touched(WritesOf(events, op));
            if op != e.op then
              Touched(WritesOf(events + [e], op)) == was && Count(events + [e], op, m) == Count(events, op, m)
            else
              && Touched(WritesOf(events + [e], op)) == was + {e.block}
              && Count(events + [e], op, m) == Count(events, op, m) + if e.block in m || e.block in was then 0 else 1
  {
    hide Touched, WritesOf;
    WritesMore(events, e, op);
    if op == e.op {
      var was := Touched(WritesOf(events, op));
      TouchedMore(WritesOf(events, op), Write(e.block, e.data));
      assert was + {e.block} - m == if e.block in m || e.block in was then was - m else was - m + {e.block};
    } else {
      assert WritesOf(events, op) + [] == WritesOf(events, op);
    }
  }

  lemma NewToAll(s: P.State, op: nat, m: set<nat>)
    requires P.Whole(s) && op !in s.begun
    ensures op !in s.outstanding && Touched(WritesOf(s.events, op)) == {} && Count(s.events, op, m) == 0
  {
    NoWrites(s.events, op);
    NothingTouched();
  }

  lemma LoadedBegin(s: P.State, op: nat, g: Geometry, m: set<nat>, p: nat, limit: nat)
    requires P.Shape(s, g) && P.Enabled(s, P.BeginOp(op), g, MAXOPBLOCKS) && P.Whole(s)
    requires P.Reserved(s, MAXOPBLOCKS, MAXOPBLOCKS, LOGSIZE)
    requires Loaded(s, m, p, limit) && Within(s, m, p) && 10 + 2 * p <= limit && 3 * p <= limit
    ensures Loaded(P.Do(s, P.BeginOp(op), g, MAXOPBLOCKS), m, p, limit)
  {
    hide P.Left, Touched, P.Shape, P.Whole, WritesOf, Outside, Count, Elements;
    var r, c := P.Do(s, P.BeginOp(op), g, MAXOPBLOCKS), Counts(s, m);
    NewToAll(s, op, m);
    assert Counts(r, m) == c[op := 0];
    P.LeftUpdate(c, p, op, 0);
    assert c.Keys == s.outstanding.Keys;
    FewLeft(c, p);
    OutsideSize(s.hdr, m);
  }

  lemma {:induction false} OutsideSize(hdr: seq<nat>, m: set<nat>)
    ensures |Outside(hdr, m)| <= |hdr|
  {
    if hdr != [] {
      var k := |hdr| - 1;
      OutsideSize(hdr[..k], m);
      var more: set<nat> := if hdr[k] in m then {} else {hdr[k]};
      assert Outside(hdr, m) == Outside(hdr[..k], m) + more;
    }
  }

  lemma OutsideMore(hdr: seq<nat>, b: nat, m: set<nat>)
    ensures Elements(Absorb(hdr, b)) == Elements(hdr) + {b}
    ensures |Outside(Absorb(hdr, b), m)| == |Outside(hdr, m)| + if b in m || b in hdr then 0 else 1
  {
    assert Outside(Absorb(hdr, b), m) == if b in m || b in hdr then Outside(hdr, m) else Outside(hdr, m) + {b};
  }

  lemma LoadedWrite(s: P.State, a: P.Action, g: Geometry, m: set<nat>, p: nat, limit: nat)
    requires a.LogWrite? && P.Shape(s, g) && P.Enabled(s, a, g, MAXOPBLOCKS) && Loaded(s, m, p, limit)
    ensures Loaded(P.Do(s, a, g, MAXOPBLOCKS), m, p, limit)
  {
    hide P.Left, Touched, P.Shape, Outside, WritesOf, Count, Absorb;
    var r, c, e := P.Do(s, a, g, MAXOPBLOCKS), Counts(s, m), P.Event(a.op, a.block, a.data);
    forall op | op in s.outstanding
      ensures Touched(WritesOf(r.events, op)) <= Elements(r.hdr)
      ensures op != a.op ==> Count(r.events, op, m) == c[op]
    {
      CountMore(s.events, e, op, m);
      OutsideMore(s.hdr, a.block, m);
    }
    var n := Count(r.events, a.op, m);
    assert Counts(r, m) == c[a.op := n];
    P.LeftUpdate(c, p, a.op, n);
    CountMore(s.events, e, a.op, m);
    OutsideMore(s.hdr, a.block, m);
    assert a.block !in s.hdr ==> a.block !in Touched(WritesOf(s.events, a.op));
  }

  lemma LoadedEnd(s: P.State, op: nat, g: Geometry, m: set<nat>, p: nat, limit: nat)
    requires P.Shape(s, g) && P.Enabled(s, P.EndOp(op), g, MAXOPBLOCKS) && Loaded(s, m, p, limit) && Within(s, m, p)
    ensures Loaded(P.Do(s, P.EndOp(op), g, MAXOPBLOCKS), m, p, limit)
  {
    hide P.Left, Touched, P.Shape, Outside, WritesOf, Count, Elements;
    var r, c := P.Do(s, P.EndOp(op), g, MAXOPBLOCKS), Counts(s, m);
    assert Counts(r, m) == c - {op};
    P.LeftWithout(c, p, op);
  }

  lemma LoadedStep(s: P.State, a: P.Action, g: Geometry, m: set<nat>, p: nat, limit: nat)
    requires P.Shape(s, g) && P.Enabled(s, a, g, MAXOPBLOCKS) && P.Whole(s)
    requires P.Reserved(s, MAXOPBLOCKS, MAXOPBLOCKS, LOGSIZE)
    requires Loaded(s, m, p, limit) && Within(s, m, p) && 10 + 2 * p <= limit && 3 * p <= limit
    ensures Loaded(P.Do(s, a, g, MAXOPBLOCKS), m, p, limit)
  {
    hide P.Left, Touched, P.Shape, WritesOf, Count, CommitState;
    match a
    case BeginOp(op) => LoadedBegin(s, op, g, m, p, limit);
    case LogWrite(_, _, _) => LoadedWrite(s, a, g, m, p, limit);
    case EndOp(op) => LoadedEnd(s, op, g, m, p, limit);
    case CommitWrite => assert Counts(P.Do(s, a, g, MAXOPBLOCKS), m) == Counts(s, m);
    case CommitEnd =>
      assert Counts(P.Do(s, a, g, MAXOPBLOCKS), m) == Counts(s, m) == map[];
      LeftOfNone(p);
      assert Outside([], m) == {};
  }

  lemma TouchedPrefix(ws: seq<Write>, all: seq<Write>, m: set<nat>)
    requires ws <= all
    ensures Touched(ws) <= Touched(all) && |Touched(ws) - m| <= |Touched(all) - m|
  {
    assert forall w :: w in ws ==> w in all;
    SubsetSize(Touched(ws) - m, Touched(all) - m);
  }

  lemma NothingLoaded(d: Disk, m: set<nat>, p: nat, limit: nat)
    ensures Loaded(P.Initial(d), m, p, limit)
  {
    LeftOfNone(p);
    assert Counts(P.Initial(d), m) == map[];
    assert Outside([], m) == {};
  }

  /** Room is left for what op has not logged yet. */
  lemma RoomLeft(s: P.State, op: nat, m: set<nat>, p: nat, limit: nat)
    requires Loaded(s, m, p, limit) && Within(s, m, p) && op in s.outstanding && Count(s.events, op, m) < p
    ensures |Outside(s.hdr, m)| < limit
  {
    hide P.Left, Count, Outside, Elements;
    var c := Counts(s, m);
    P.LeftWithout(c, p, op);
    FewLeft(c - {op}, p);
  }

  lemma HeaderSize(hdr: seq<nat>, m: set<nat>)
    requires forall x, y :: 0 <= x < y < |hdr| ==> hdr[x] != hdr[y]
    ensures |hdr| == |Elements(hdr)| && |hdr| <= |Outside(hdr, m)| + |m| && Outside(hdr, {}) == Elements(hdr)
  {
    ElementsSize(hdr);
    SubsetSize(Elements(hdr), Outside(hdr, m) + m);
    UnionSize(Outside(hdr, m), m);
  }

  lemma {:induction false} ElementsSize(hdr: seq<nat>)
    requires forall x, y :: 0 <= x < y < |hdr| ==> hdr[x] != hdr[y]
    ensures |hdr| == |Elements(hdr)|
  {
    if hdr != [] {
      var k := |hdr| - 1;
      ElementsSize(hdr[..k]);
      assert Elements(hdr) == Elements(hdr[..k]) + {hdr[k]};
    }
  }

  /** An operation has not added more blocks to the header than it has logged. */
  ghost predicate Charged(s: P.State)
  {
    forall op {:trigger op in s.outstanding} :: op in s.outstanding ==>
      s.outstanding[op] <= |Touched(WritesOf(s.events, op))|
  }

  lemma ChargedStep(s: P.State, a: P.Action, g: Geometry)
    requires P.Shape(s, g) && P.Enabled(s, a, g, MAXOPBLOCKS) && Listed(s) && Charged(s) && P.Whole(s)
    ensures Charged(P.Do(s, a, g, MAXOPBLOCKS))
  {
    hide P.Shape, P.Whole, Touched, WritesOf, Elements, CommitState, Absorb;
    var r := P.Do(s, a, g, MAXOPBLOCKS);
    if a.LogWrite? {
      forall op | op in s.outstanding ensures r.outstanding[op] <= |Touched(WritesOf(r.events, op))| {
        CountMore(s.events, P.Event(a.op, a.block, a.data), op, {});
        if op == a.op { NewBlock(s.hdr, Touched(WritesOf(s.events, op)), a.block); }
      }
    }
  }

  lemma NewBlock(hdr: seq<nat>, was: set<nat>, b: nat)
    requires was <= Elements(hdr)
    ensures |was + {b}| >= |was| + if b in hdr then 0 else 1
  {
    if b in hdr {
      SubsetSize(was, was + {b});
    } else {
      assert b !in was;
    }
  }
}
