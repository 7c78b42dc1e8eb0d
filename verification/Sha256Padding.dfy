/** Message padding of section 5.1.1 of FIPS 180-4, and the digits it writes. */
module Sha256Padding {
  import opened Common

  // ----- Big-endian bytes -----

  function Power256(k: nat): nat { if k == 0 then 1 else 256 * Power256(k - 1) }

  /** The last `k` bytes of `n`, most significant first. */
  function BytesOf(n: nat, k: nat): (d: Bytes)
    ensures |d| == k
  {
    if k == 0 then [] else BytesOf(n / 256, k - 1) + [(n % 256) as byte]
  }

  function ValueOf(d: Bytes): nat {
    if d == [] then 0 else 256 * ValueOf(d[..|d| - 1]) + d[|d| - 1] as int
  }

  lemma {:induction false} BytesOfValue(n: nat, k: nat)
    requires n < Power256(k)
    ensures ValueOf(BytesOf(n, k)) == n
    decreases k
  {
    if k > 0 {
      BytesOfValue(n / 256, k - 1);
      assert BytesOf(n, k)[..k - 1] == BytesOf(n / 256, k - 1);
    }
  }

  // ----- Padding -----

  const U64: nat := 0x1_0000_0000_0000_0000

  /** Length in bits, in the 64-bit arithmetic of the program. */
  function BitLength(bytes: nat): (n: nat)
    ensures n < U64
    ensures 8 * bytes < U64 ==> n == 8 * bytes
  {
    8 * bytes % U64
  }

  function LengthField(bytes: nat): (f: Bytes)
    ensures |f| == 8
  {
    BytesOf(BitLength(bytes), 8)
  }

  function Zeros(k: nat): (z: Bytes)
    ensures |z| == k && forall i :: 0 <= i < k ==> z[i] == 0
  {
    seq(k, i => 0)
  }

  /** Zero bytes between the 0x80 byte and the length field. */
  function ZeroBytes(n: nat): (z: nat)
    ensures (n + 1 + z + 8) % 64 == 0
  {
    (55 - n) % 64
  }

  function Padded(m: Bytes): (p: Bytes)
    ensures |p| % 64 == 0
  {
    m + [0x80] + Zeros(ZeroBytes(|m|)) + LengthField(|m|)
  }

  /**
    The number of zero bits is the least k with l + 1 + k = 448 modulo 512, and the
    length field spells l, as section 5.1.1 of FIPS 180-4 asks for messages below 2^64 bits.
   */
  lemma PaddingFollowsStandard(m: Bytes, fewer: nat)
    requires 8 * |m| < U64
    ensures var l, k := 8 * |m|, 7 + 8 * ZeroBytes(|m|);
            && (l + 1 + k) % 512 == 448
            && (fewer < k ==> (l + 1 + fewer) % 512 != 448)
            && ValueOf(LengthField(|m|)) == l
  {
    LengthFieldValue(|m|);
    hide LengthField;
    PadArithmetic(|m|, fewer);
  }

  lemma PadArithmetic(n: nat, fewer: nat)
    ensures var k := 7 + 8 * ZeroBytes(n);
            (8 * n + 1 + k) % 512 == 448 && (fewer < k ==> (8 * n + 1 + fewer) % 512 != 448)
  {
    var z, t := ZeroBytes(n), (55 - n) / 64;
    var k := 7 + 8 * z;
    assert 55 - n == 64 * t + z;
    assert 8 * n + 1 + k == 448 - 512 * t;
    var x := 8 * n + 1 + fewer;
    assert fewer < k ==> 448 - 512 * t - 511 <= x < 448 - 512 * t;
  }

  lemma LengthFieldValue(n: nat)
    requires 8 * n < U64
    ensures ValueOf(LengthField(n)) == 8 * n
  {
    assert Power256(4) == 0x1_0000_0000;
    assert Power256(8) == U64;
    BytesOfValue(8 * n, 8);
  }
}
