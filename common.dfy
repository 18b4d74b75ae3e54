/** Shared vocabulary: bytes, fixed-width integer bounds, optional values and
    the outcome of an operation that may abort the process. */
module Common {

  /** An unsigned 8-bit value, as stored in the byte buffers of the program. */
  type byte = x: int | 0 <= x < 256

  /** 2^64: the modulus of `uint64_t` / `u64` / `size_t` arithmetic. */
  const U64_MODULUS: int := 0x1_0000_0000_0000_0000
  const U64_MAX: int := U64_MODULUS - 1

  /** A `uint64_t` value. */
  type u64 = x: int | 0 <= x < U64_MODULUS

  /** A value that may be absent, like a null pointer. */
  datatype Option<+T> = None | Some(value: T)

  /** The result of an operation that either produces a value or aborts the
      process (`abort()`, `LOG_FATAL`, `UNREACHABLE`, `exit(1)`). */
  datatype Result<+T> = Ok(value: T) | Fatal(reason: string)

  /** The bytes of the NUL-terminated C string that starts at `at`: everything
      up to, and excluding, the first NUL byte (or up to the end of `s`). */
  function CString(s: seq<byte>, at: nat): (r: seq<byte>)
    requires at <= |s|
    ensures at + |r| <= |s| && r == s[at..at + |r|]
    ensures forall k :: 0 <= k < |r| ==> r[k] != 0
    ensures at + |r| == |s| || s[at + |r|] == 0
    decreases |s| - at
  {
    if at == |s| || s[at] == 0 then [] else [s[at]] + CString(s, at + 1)
  }

  /** Four sequences concatenated left to right are the first followed by
      the concatenation of the other three. */
  lemma AppendAssociates<T>(a: seq<T>, b: seq<T>, c: seq<T>, d: seq<T>)
    ensures a + b + c + d == a + (b + c + d)
  {
  }

  /** A C string read from a buffer that has a NUL at index `n` ends at or
      before `n`, so it only depends on the bytes before `n`. */
  lemma {:induction false} CStringUpToNul(s: seq<byte>, at: nat, n: nat)
    requires at <= n < |s| && s[n] == 0
    ensures CString(s, at) == CString(s[..n], at)
    decreases n - at
  {
    if at < n && s[at] != 0 {
      CStringUpToNul(s, at + 1, n);
    }
  }
}
