/** Bytes and the four-byte length word that prefixes every frame
    (`struct.pack("I", n)` / `struct.unpack("I", b)` in the source). */
module Bytes {

  newtype uint8 = x: int | 0 <= x < 256

  /** One past the largest value an unsigned 32-bit `"I"` word can hold. */
  const UINT32_LIMIT: int := 0x1_0000_0000

  /** `struct.pack("I", n)`: four bytes in the host's native order, which the
      model fixes to least significant byte first. */
  function Pack32(n: int): (b: seq<uint8>)
    requires 0 <= n < UINT32_LIMIT
    ensures |b| == 4
  {
    [(n % 256) as uint8,
     (n / 0x100 % 256) as uint8,
     (n / 0x1_0000 % 256) as uint8,
     (n / 0x100_0000) as uint8]
  }

  /** `struct.unpack("I", b)[0]` for a four-byte string. */
  function Unpack32(b: seq<uint8>): (n: int)
    requires |b| == 4
    ensures 0 <= n < UINT32_LIMIT
  {
    (b[0] as int) + 0x100 * (b[1] as int) + 0x1_0000 * (b[2] as int) + 0x100_0000 * (b[3] as int)
  }

  /** Unpacking a packed length gives the length back. */
  lemma UnpackPack(n: int)
    requires 0 <= n < UINT32_LIMIT
    ensures Unpack32(Pack32(n)) == n
  {
    var b := Pack32(n);
    assert b[0] as int == n % 256;
    assert b[1] as int == n / 0x100 % 256;
    assert b[2] as int == n / 0x1_0000 % 256;
    assert b[3] as int == n / 0x100_0000;
  }

  /** Every four-byte word is the packing of exactly one length: packing the
      unpacked value restores the bytes, so `Pack32` is a bijection. */
  lemma PackUnpack(b: seq<uint8>)
    requires |b| == 4
    ensures Pack32(Unpack32(b)) == b
  {
    var n := Unpack32(b);
    var q1 := (b[1] as int) + 0x100 * (b[2] as int) + 0x1_0000 * (b[3] as int);
    var q2 := (b[2] as int) + 0x100 * (b[3] as int);
    assert n == (b[0] as int) + 256 * q1;
    DigitSplit(b[0] as int, q1);
    assert q1 == (b[1] as int) + 256 * q2;
    DigitSplit(b[1] as int, q2);
    DigitSplit(b[2] as int, b[3] as int);
    assert n / 0x100 == q1;
    assert n / 0x1_0000 == q1 / 256 == q2;
    assert n / 0x100_0000 == q2 / 256 == b[3] as int;
  }

  /** Splitting off the low base-256 digit of `d + 256 * q`. */
  lemma DigitSplit(d: int, q: int)
    requires 0 <= d < 256 && 0 <= q
    ensures (d + 256 * q) % 256 == d && (d + 256 * q) / 256 == q
  {
  }

  /** Distinct lengths never share a prefix word. */
  lemma PackInjective(m: int, n: int)
    requires 0 <= m < UINT32_LIMIT && 0 <= n < UINT32_LIMIT
    requires Pack32(m) == Pack32(n)
    ensures m == n
  {
    UnpackPack(m);
    UnpackPack(n);
  }

  /** `stream.read(n)` on a stream whose unread bytes are `s`: at most `n`
      bytes, fewer only when the stream ends first. */
  function Take(s: seq<uint8>, n: nat): (r: seq<uint8>)
    ensures |r| == (if n < |s| then n else |s|)
    ensures r == s[..|r|]
  {
    if n < |s| then s[..n] else s
  }
}
