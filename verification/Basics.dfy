/** Types shared by every component of the model. */
module Basics {

  datatype Option<+T> = None | Some(value: T)

  /** One octet of memory or of a socket. */
  type Byte = b: int | 0 <= b < 256

  /** A C string ends at its first NUL. */
  const NUL: Byte := 0

  /** Stated apart, so that proofs about long concatenations need not search for it. */
  lemma Associative<T>(a: seq<T>, b: seq<T>, c: seq<T>)
    ensures (a + b) + c == a + (b + c)
  {
  }
}
