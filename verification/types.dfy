/**
 * Machine types shared by the modules of this model: the C `uint8_t`
 * byte, and the 32-bit unsigned range of `uint32_t`, `size_t` and
 * `unsigned long` on the RP2040 (a 32-bit ARM target).
 */
module Types {

  /** `uint8_t`; a bit-vector so that shifts and masks read as in C. */
  type byte = bv8

  /** 2^32: the modulus of every 32-bit unsigned C type on the target. */
  const U32_MODULUS: int := 0x1_0000_0000

  /** `uint32_t`, `size_t` and `unsigned long` values. */
  type u32 = x: int | 0 <= x < U32_MODULUS

  /** Conversion of any C integer to a 32-bit unsigned type (C 6.3.1.3). */
  function ToU32(x: int): (r: u32)
    ensures (r - x) % U32_MODULUS == 0
  {
    x % U32_MODULUS
  }

  /** A C pointer result that may be NULL, or an optional reading. */
  datatype Option<T> = None | Some(value: T)

  /** Concatenation regroups freely. */
  lemma SeqAssoc<T>(a: seq<T>, b: seq<T>, c: seq<T>)
    ensures a + b + c == a + (b + c)
  {
  }

  /** The first element of an oracle queue, or `dflt` once it is exhausted. */
  function HeadOr(q: seq<int>, dflt: int): int
  {
    if q == [] then dflt else q[0]
  }

  /** The oracle queue after one answer has been taken from it. */
  function TailOf(q: seq<int>): seq<int>
  {
    if q == [] then [] else q[1..]
  }
}
