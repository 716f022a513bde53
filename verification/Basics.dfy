/** What every part of the model shares. */
module Basics {
  datatype Option<+T> = None | Some(value: T)

  /** One more than the largest u64. */
  const U64: nat := 0x1_0000_0000_0000_0000

  function Min(a: int, b: int): int {
    if a <= b then a else b
  }

  ghost function Elems<T>(s: seq<T>): set<T> {
    set x | x in s
  }

  /** A task waker, known by the task it wakes. */
  type Waker = int

  datatype Side = Read | Write

  /** A set of the two sides of a handle, as `mio::Interest` is. */
  datatype Sides = Sides(r: bool, w: bool) {
    predicate Has(s: Side) {
      if s.Read? then r else w
    }
  }
}
