/** What several modules share. */
module Basics {

  datatype Option<T> = None | Some(value: T)

  function Repeat<T>(x: T, n: nat): (r: seq<T>)
    ensures |r| == n && forall i :: 0 <= i < n ==> r[i] == x
  {
    seq(n, i => x)
  }

  /** Row numbers are passed on in 16 bits. */
  const MAX_ROOM := 0x1_0000

  function Narrow(row: nat): nat {
    row % MAX_ROOM
  }
}
