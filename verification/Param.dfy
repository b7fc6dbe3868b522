/** The constants of param.h and the basic types the other modules share. */
module Param {

  const NPROC := 64
  const NOFILE := 16
  const NFILE := 100
  const MAXOPBLOCKS := 10
  const LOGSIZE := 30 // MAXOPBLOCKS * 3
  const NBUF := 30    // MAXOPBLOCKS * 3

  const UINT_MOD: nat := 0x1_0000_0000 // uint is 32 bits wide

  type Byte = x: int | 0 <= x < 256

  datatype Option<T> = None | Some(value: T)

  function Least(a: nat, b: nat): (c: nat) { if a <= b then a else b }

  lemma {:induction false} SubsetSize<T>(a: set<T>, b: set<T>)
    requires a <= b
    ensures |a| <= |b|
  {
    if x :| x in a { SubsetSize(a - {x}, b - {x}); }
  }
}
