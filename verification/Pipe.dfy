/**
A pipe (pipe.c): a ring of 512 bytes with two 32-bit counters that wrap around. Each method is one stretch under
the pipe's lock, from its start or from waking up to the next sleep or return; readers and writers may take turns
in any order.
*/
module Pipe {
  import opened Param

  const PIPESIZE := 512

  datatype Status = Done | Asleep | Failed

  /** Which ends of a pipe are open. */
  datatype Open = Open(read: bool, write: bool)

  predicate IsOpen(o: Open, writable: bool) { if writable then o.write else o.read }

  /** pipeclose of one end. */
  function Shut(o: Open, writable: bool): (r: Open)
    ensures !IsOpen(r, writable) && IsOpen(r, !writable) == IsOpen(o, !writable)
  {
    if writable then o.(write := false) else o.(read := false)
  }

  /** The counters can stand for the true counts as long as these differ by at most PIPESIZE. */
  lemma CountersTell(written: nat, read: nat)
    requires read <= written <= read + PIPESIZE
    ensures written % UINT_MOD == (read % UINT_MOD + PIPESIZE) % UINT_MOD <==> written == read + PIPESIZE
    ensures written % UINT_MOD == read % UINT_MOD <==> written == read
  {
    var d := written - read;
    SumMod(read, d);
    SumMod(read, PIPESIZE);
  }

  lemma SumMod(a: nat, b: nat)
    requires b <= PIPESIZE
    ensures (a + b) % UINT_MOD == (a % UINT_MOD + b) % UINT_MOD
    ensures a % UINT_MOD + b < UINT_MOD ==> (a + b) % UINT_MOD == a % UINT_MOD + b
    ensures a % UINT_MOD + b >= UINT_MOD ==> (a + b) % UINT_MOD == a % UINT_MOD + b - UINT_MOD
  {
  }

  /** The slot a counter names is the one its true count names. */
  lemma SlotOf(n: nat)
    ensures n % UINT_MOD % PIPESIZE == n % PIPESIZE
  {
  }

  lemma OtherSlots(k: nat, n: nat)
    requires k < n < k + PIPESIZE
    ensures k % PIPESIZE != n % PIPESIZE
  {
  }

  class Ring {
    const data: array<Byte>
    var nread: nat
    var nwrite: nat
    var open: Open
    ghost var stored: seq<Byte> // every byte ever put in
    ghost var taken: seq<Byte>  // every byte ever read

    /** The bytes read are a prefix of the bytes stored, the rest is in the ring, and never more than PIPESIZE. */
    ghost predicate Valid()
      reads this, data
    {
      && data.Length == PIPESIZE && nread == |taken| % UINT_MOD && nwrite == |stored| % UINT_MOD
      && taken <= stored && |stored| <= |taken| + PIPESIZE
      && forall k: nat {:trigger stored[k]} :: |taken| <= k < |stored| ==> data[k % PIPESIZE] == stored[k]
    }

    constructor ()
      ensures Valid() && fresh(data) && open == Open(true, true) && stored == [] && taken == []
    {
      data := new Byte[PIPESIZE];
      nread, nwrite, open, stored, taken := 0, 0, Open(true, true), [], [];
    }

    /** pipewrite, from byte i of addr on: puts in bytes until all are in or the ring is full; then the writer sleeps,
        or fails if nobody can read any more or it has been killed. */
    method Write(addr: seq<Byte>, i: nat, killed: bool) returns (j: nat, status: Status)
      requires Valid() && i <= |addr|
      modifies this`nwrite, this`stored, data
      ensures Valid() && i <= j <= |addr| && stored == old(stored) + addr[i..j]
      ensures status.Done? <==> j == |addr|
      ensures !status.Done? ==> |stored| == |taken| + PIPESIZE
      ensures status.Failed? <==> j < |addr| && (!open.read || killed)
    {
      j := i;
      while j < |addr|
        invariant Valid() && i <= j <= |addr| && stored == old(stored) + addr[i..j]
      {
        CountersTell(|stored|, |taken|);
        if nwrite == (nread + PIPESIZE) % UINT_MOD {
          return j, if !open.read || killed then Failed else Asleep;
        }
        StoreByte(addr[j]);
        assert addr[i..j + 1] == addr[i..j] + [addr[j]];
        j := j + 1;
      }
      status := Done;
    }

    /** `data[nwrite++ % PIPESIZE] = b` */
    method StoreByte(b: Byte)
      requires Valid() && |stored| < |taken| + PIPESIZE
      modifies this`nwrite, this`stored, data
      ensures Valid() && stored == old(stored) + [b]
    {
      SlotOf(|stored|);
      SumMod(|stored|, 1);
      ghost var n := |stored|;
      data[nwrite % PIPESIZE] := b;
      nwrite := (nwrite + 1) % UINT_MOD;
      stored := stored + [b];
      forall k: nat {:trigger stored[k]} | |taken| <= k < |stored| ensures data[k % PIPESIZE] == stored[k] {
        if k < n { OtherSlots(k, n); }
      }
    }

    /** piperead: sleeps on an empty pipe that can still be written to (fails if killed), and otherwise takes as
        many bytes as there are, up to n, in the order they were stored. */
    method Read(addr: array<Byte>, n: nat, killed: bool) returns (i: nat, status: Status)
      requires Valid() && n <= addr.Length && addr != data
      modifies this`nread, this`taken, addr
      ensures Valid()
      ensures status.Done? <==> old(|taken| < |stored|) || !open.write
      ensures status.Failed? ==> killed
      ensures status.Asleep? ==> !killed
      ensures !status.Done? ==> i == 0
      ensures status.Done? ==> i == if n <= |stored| - |old(taken)| then n else |stored| - |old(taken)|
      ensures taken == old(taken) + addr[..i] && addr[..i] == stored[|old(taken)|..|old(taken)| + i]
      ensures forall k :: i <= k < addr.Length ==> addr[k] == old(addr[k])
    {
      i := 0;
      CountersTell(|stored|, |taken|);
      if nread == nwrite && open.write {
        return 0, if killed then Failed else Asleep;
      }
      status := Done;
      while i < n
        invariant Valid() && 0 <= i <= n && |taken| == |old(taken)| + i
        invariant taken == old(taken) + addr[..i]
        invariant forall k :: i <= k < addr.Length ==> addr[k] == old(addr[k])
      {
        CountersTell(|stored|, |taken|);
        if nread == nwrite { break; }
        SlotOf(|taken|);
        SumMod(|taken|, 1);
        assert data[|taken| % PIPESIZE] == stored[|taken|];
        ghost var before := addr[..i];
        addr[i] := data[nread % PIPESIZE];
        nread := (nread + 1) % UINT_MOD;
        assert addr[..i + 1] == before + [addr[i]];
        taken := taken + [addr[i]];
        i := i + 1;
      }
      assert addr[..i] == taken[|old(taken)|..];
    }

    /** pipeclose of one end; true when the page is given back, which is when the other end is closed already. */
    method Close(writable: bool) returns (freed: bool)
      requires Valid() && IsOpen(open, writable)
      modifies this`open
      ensures Valid() && open == Shut(old(open), writable) && (freed <==> !IsOpen(old(open), !writable))
    {
      open := Shut(open, writable);
      freed := !open.read && !open.write;
    }
  }
}
