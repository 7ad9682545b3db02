/** Bytes, C strings and the 32-bit little-endian integers of the wire structures. */
module Bytes {

  newtype byte = x: int | 0 <= x < 256

  const NUL: byte := 0
  const SPACE: byte := 32
  const U32_LIMIT := 0x1_0000_0000
  const I32_LIMIT := 0x8000_0000

  datatype Option<+T> = None | Some(value: T)

  predicate IsInt32(i: int) {
    -I32_LIMIT <= i < I32_LIMIT
  }

  /** The unsigned 32-bit value that C stores for a signed one, e.g. `int offset` in a `uint32_t` field. */
  function ToUnsigned(i: int): (u: nat)
    requires IsInt32(i)
    ensures u < U32_LIMIT
  {
    if i < 0 then i + U32_LIMIT else i
  }

  predicate IsUint32(n: int) {
    0 <= n < U32_LIMIT
  }

  /** The result of 32-bit unsigned arithmetic. */
  function Wrap32(x: int): (u: nat)
    ensures IsUint32(u)
    ensures IsUint32(x) ==> u == x
  {
    x % 0x1_0000_0000
  }

  /** The signed value read back out of a `uint32_t`. */
  function ToSigned(u: nat): (i: int)
    requires u < U32_LIMIT
    ensures IsInt32(i)
    ensures ToUnsigned(i) == u
  {
    if u < I32_LIMIT then u else u - U32_LIMIT
  }

  /** The four bytes a `uint32_t` occupies in memory and therefore on the wire. */
  function Le32(u: nat): (b: seq<byte>)
    requires u < U32_LIMIT
    ensures |b| == 4
  {
    [(u % 256) as byte, (u / 256 % 256) as byte, (u / 65536 % 256) as byte, (u / 16777216) as byte]
  }

  function FromLe32(b: seq<byte>): (u: nat)
    requires |b| == 4
    ensures u < U32_LIMIT
  {
    b[0] as int + 256 * (b[1] as int) + 65536 * (b[2] as int) + 16777216 * (b[3] as int)
  }

  lemma Le32RoundTrip(u: nat)
    requires u < U32_LIMIT
    ensures FromLe32(Le32(u)) == u
  {
    assert u / 65536 == u / 256 / 256;
    assert u / 16777216 == u / 65536 / 256;
  }

  /** A byte string without a NUL: what a `char *` argument can carry. */
  predicate NulFree(s: seq<byte>) {
    forall i :: 0 <= i < |s| ==> s[i] != NUL
  }

  /** `strlen(s + from)` as a position: the first NUL at or after `from`, or the end if there is none. */
  function NulAt(s: seq<byte>, from: nat): (k: nat)
    requires from <= |s|
    ensures from <= k <= |s|
    ensures forall i :: from <= i < k ==> s[i] != NUL
    ensures k < |s| ==> s[k] == NUL
    decreases |s| - from
  {
    if from == |s| || s[from] == NUL then from else NulAt(s, from + 1)
  }

  /** The C string that starts at `from`. */
  function CString(s: seq<byte>, from: nat): (r: seq<byte>)
    requires from <= |s|
    ensures NulFree(r)
  {
    s[from..NulAt(s, from)]
  }

  /** The first NUL is determined by what `NulAt` promises of it. */
  lemma NulAtIs(s: seq<byte>, from: nat, k: nat)
    requires from <= k <= |s|
    requires forall i :: from <= i < k ==> s[i] != NUL
    requires k < |s| ==> s[k] == NUL
    ensures NulAt(s, from) == k
  {
  }

  function Min(a: int, b: int): (m: int) {
    if a <= b then a else b
  }

  function Max(a: int, b: int): (m: int) {
    if a <= b then b else a
  }
}
