/** Bytes, little-endian fields, and the slicing facts shared by the archive modules. */
module Bytes {

  type byte = b: int | 0 <= b < 256

  type bytes = seq<byte>

  const UINT16_LIMIT := 0x1_0000
  const UINT32_LIMIT := 0x1_0000_0000

  datatype Option<+T> = None | Some(value: T)

  datatype Result<+T, +E> = Success(value: T) | Failure(error: E)

  /** A DataView 16-bit store: the value is reduced modulo 2^16. */
  function LE16(n: nat): (r: bytes)
    ensures |r| == 2
  {
    [n % 256, n / 256 % 256]
  }

  /** A DataView 32-bit store: the value is reduced modulo 2^32. */
  function LE32(n: nat): (r: bytes)
    ensures |r| == 4
  {
    LE16(n % UINT16_LIMIT) + LE16(n / UINT16_LIMIT)
  }

  function U16(s: bytes): (n: nat)
    requires |s| == 2
  {
    (s[0] as int) + 256 * (s[1] as int)
  }

  function U32(s: bytes): (n: nat)
    requires |s| == 4
  {
    U16(s[..2]) + UINT16_LIMIT * U16(s[2..])
  }

  /** A 16-bit field gives back the value modulo 2^16. */
  lemma U16OfLE16(n: nat)
    ensures U16(LE16(n)) == n % UINT16_LIMIT
  {
    var q := n / 256;
    SplitByte(n);
    SplitByte(q);
    RemainderIs(n, q / 256, 256 * (q % 256) + n % 256);
  }

  lemma SplitByte(n: nat)
    ensures n == 256 * (n / 256) + n % 256
  {
  }

  lemma RemainderIs(n: nat, q: nat, r: nat)
    requires n == UINT16_LIMIT * q + r && r < UINT16_LIMIT
    ensures n % UINT16_LIMIT == r
  {
  }

  /** A 32-bit field gives back the value exactly when the store did not wrap. */
  lemma U32OfLE32(n: nat)
    ensures U32(LE32(n)) == n % UINT32_LIMIT
    ensures U32(LE32(n)) == n <==> n < UINT32_LIMIT
  {
    var low, high := n % UINT16_LIMIT, n / UINT16_LIMIT;
    assert LE32(n)[..2] == LE16(low) && LE32(n)[2..] == LE16(high);
    U16OfLE16(low);
    U16OfLE16(high);
  }

  /** Two bytes read as a 16-bit field are what storing that field writes. */
  lemma LE16OfU16(s: bytes)
    requires |s| == 2
    ensures U16(s) < UINT16_LIMIT && LE16(U16(s)) == s
  {
  }

  /** Four bytes read as a 32-bit field are what storing that field writes. */
  lemma LE32OfU32(s: bytes)
    requires |s| == 4
    ensures U32(s) < UINT32_LIMIT && LE32(U32(s)) == s
  {
    hide U16, LE16;
    var low, high := U16(s[..2]), U16(s[2..]);
    LE16OfU16(s[..2]);
    LE16OfU16(s[2..]);
    RemainderIs(UINT16_LIMIT * high + low, high, low);
    assert (UINT16_LIMIT * high + low) / UINT16_LIMIT == high;
    assert s == s[..2] + s[2..];
  }
}
