/**
 * Byte-sequence helpers of `pyrogram/utils.py` (`btoi`, `itob`, `xor`) and the
 * fixed-width integer encodings they and `struct` rely on.
 */
module ByteCodec {
  import opened Wrappers

  type byte = b: int | 0 <= b < 256

  /** `itob` always produces this many bytes (a 2048-bit number). */
  const ITOB_LENGTH: nat := 256

  /** 256 to the power n: one more than the largest n-byte unsigned number. */
  function Pow256(n: nat): (r: nat)
    ensures r > 0
  {
    if n == 0 then 1 else 256 * Pow256(n - 1)
  }

  // ---------------------------------------------------------------- big endian

  /** `int.from_bytes(b, "big")`. */
  function FromBytesBE(s: seq<byte>): nat {
    if s == [] then 0 else FromBytesBE(s[..|s| - 1]) * 256 + s[|s| - 1]
  }

  /** `i.to_bytes(n, "big")` for an `i` that fits in `n` bytes. */
  function ToBytesBE(i: nat, n: nat): (r: seq<byte>)
    requires i < Pow256(n)
    ensures |r| == n
  {
    if n == 0 then [] else ToBytesBE(i / 256, n - 1) + [i % 256]
  }

  /** `to_bytes` raises `OverflowError` for a negative number or one that does not fit. */
  datatype OverflowError = OverflowError(value: int)

  /** `btoi`. */
  function Btoi(b: seq<byte>): nat {
    FromBytesBE(b)
  }

  /** `itob`: 256 big-endian bytes, or `OverflowError` when `i` is outside [0, 2^2048). */
  function Itob(i: int): (r: Result<seq<byte>, OverflowError>)
    ensures r.Ok? <==> 0 <= i < Pow256(ITOB_LENGTH)
    ensures r.Ok? ==> |r.value| == ITOB_LENGTH
  {
    if 0 <= i < Pow256(ITOB_LENGTH) then Ok(ToBytesBE(i, ITOB_LENGTH)) else Err(OverflowError(i))
  }

  lemma DivBound(i: nat, n: nat)
    requires n > 0 && i < Pow256(n)
    ensures i / 256 < Pow256(n - 1)
  {
  }

  /** A big-endian n-byte string always denotes a number below 256^n. */
  lemma {:induction false} FromBytesBEBound(s: seq<byte>)
    ensures FromBytesBE(s) < Pow256(|s|)
  {
    if s != [] {
      FromBytesBEBound(s[..|s| - 1]);
    }
  }

  /** Decoding what was encoded gives the number back. */
  lemma {:induction false} FromToBytesBE(i: nat, n: nat)
    requires i < Pow256(n)
    ensures FromBytesBE(ToBytesBE(i, n)) == i
  {
    if n > 0 {
      DivBound(i, n);
      var s := ToBytesBE(i, n);
      assert s[..|s| - 1] == ToBytesBE(i / 256, n - 1);
      FromToBytesBE(i / 256, n - 1);
    }
  }

  /** Encoding what was decoded, at the same width, gives the bytes back. */
  lemma {:induction false} ToFromBytesBE(s: seq<byte>)
    ensures FromBytesBE(s) < Pow256(|s|)
    ensures ToBytesBE(FromBytesBE(s), |s|) == s
  {
    FromBytesBEBound(s);
    if s != [] {
      var init := s[..|s| - 1];
      ToFromBytesBE(init);
      var v := FromBytesBE(s);
      assert v / 256 == FromBytesBE(init);
      assert v % 256 == s[|s| - 1];
      assert s == init + [s[|s| - 1]];
    }
  }

  /** `btoi(itob(i)) == i` for every `i` that `itob` accepts, and `itob` is 256 bytes long. */
  lemma ItobBtoiRoundTrip(i: int)
    requires 0 <= i < Pow256(ITOB_LENGTH)
    ensures Itob(i).Ok? && |Itob(i).value| == ITOB_LENGTH && Btoi(Itob(i).value) == i
  {
    FromToBytesBE(i, ITOB_LENGTH);
  }

  /** `itob(btoi(b)) == b` for every 256-byte string. */
  lemma BtoiItobRoundTrip(b: seq<byte>)
    requires |b| == ITOB_LENGTH
    ensures Itob(Btoi(b)) == Ok(b)
  {
    ToFromBytesBE(b);
  }

  // ------------------------------------------------------------- little endian

  /** Unsigned little-endian value of a byte string (`struct` with `<`). */
  function FromBytesLE(s: seq<byte>): nat {
    if s == [] then 0 else s[0] + 256 * FromBytesLE(s[1..])
  }

  /** The n little-endian bytes of an unsigned number below 256^n. */
  function ToBytesLE(u: nat, n: nat): (r: seq<byte>)
    requires u < Pow256(n)
    ensures |r| == n
  {
    if n == 0 then [] else [u % 256] + ToBytesLE(u / 256, n - 1)
  }

  lemma {:induction false} FromToBytesLE(u: nat, n: nat)
    requires u < Pow256(n)
    ensures FromBytesLE(ToBytesLE(u, n)) == u
  {
    if n > 0 {
      DivBound(u, n);
      var s := ToBytesLE(u, n);
      assert s[1..] == ToBytesLE(u / 256, n - 1);
      FromToBytesLE(u / 256, n - 1);
    }
  }

  /** The smallest and largest value of an n-byte two's-complement number. */
  function SignedMin(n: nat): int
    requires n > 0
  {
    -(Pow256(n) / 2)
  }

  function SignedMax(n: nat): int
    requires n > 0
  {
    Pow256(n) / 2 - 1
  }

  /** Fits in an n-byte signed slot (`struct` format `i` for n = 4, `q` for n = 8). */
  predicate FitsSigned(v: int, n: nat)
    requires n > 0
  {
    SignedMin(n) <= v <= SignedMax(n)
  }

  /** `struct.pack('<' + fmt, v)` for one signed field. */
  function PackSignedLE(v: int, n: nat): (r: seq<byte>)
    requires n > 0 && FitsSigned(v, n)
    ensures |r| == n
  {
    ToBytesLE(if v < 0 then v + Pow256(n) else v, n)
  }

  /** `struct.unpack('<' + fmt, s)` for one signed field. */
  function UnpackSignedLE(s: seq<byte>): int {
    var u := FromBytesLE(s);
    if |s| > 0 && u >= Pow256(|s|) / 2 then u - Pow256(|s|) else u
  }

  lemma Pow256Even(n: nat)
    requires n > 0
    ensures Pow256(n) == 2 * (Pow256(n) / 2)
  {
  }

  /** Unpacking a packed signed field gives the value back. */
  lemma SignedRoundTrip(v: int, n: nat)
    requires n > 0 && FitsSigned(v, n)
    ensures UnpackSignedLE(PackSignedLE(v, n)) == v
  {
    Pow256Even(n);
    var u := if v < 0 then v + Pow256(n) else v;
    FromToBytesLE(u, n);
  }

  // ----------------------------------------------------------------------- xor

  /** 2 to the power k. */
  function Pow2(k: nat): (r: nat)
    ensures r > 0
  {
    if k == 0 then 1 else 2 * Pow2(k - 1)
  }

  /** Bitwise exclusive or of the low k bits, least significant bit first. */
  function XorBits(x: nat, y: nat, k: nat): (r: nat)
    ensures r < Pow2(k)
  {
    if k == 0 then 0 else (x % 2 + y % 2) % 2 + 2 * XorBits(x / 2, y / 2, k - 1)
  }

  /** Python's `i ^ j` on two byte values. */
  function XorByte(x: byte, y: byte): byte {
    assert Pow2(8) == 256;
    XorBits(x, y, 8)
  }

  /** `xor(a, b)`: `zip` stops at the shorter argument. */
  function Xor(a: seq<byte>, b: seq<byte>): (r: seq<byte>)
    ensures |r| == if |a| <= |b| then |a| else |b|
    ensures forall i :: 0 <= i < |r| ==> r[i] == XorByte(a[i], b[i])
  {
    var n := if |a| <= |b| then |a| else |b|;
    seq(n, i requires 0 <= i < n => XorByte(a[i], b[i]))
  }

  lemma LowBitAndRest(b: int, w: nat)
    requires 0 <= b < 2
    ensures (b + 2 * w) % 2 == b && (b + 2 * w) / 2 == w
  {
  }

  lemma HalfBound(x: nat, k: nat)
    requires k > 0 && x < Pow2(k)
    ensures x / 2 < Pow2(k - 1)
  {
  }

  /** One bit xor-ed twice with the same bit is unchanged. */
  lemma BitCancel(a: int, b: int)
    requires 0 <= a < 2 && 0 <= b < 2
    ensures ((a + b) % 2 + b) % 2 == a
  {
  }

  /** Xor-ing twice with the same operand cancels out, bit by bit. */
  lemma {:induction false} XorBitsCancel(x: nat, y: nat, k: nat)
    requires x < Pow2(k)
    ensures XorBits(XorBits(x, y, k), y, k) == x
  {
    if k > 0 {
      var bit, rest := (x % 2 + y % 2) % 2, XorBits(x / 2, y / 2, k - 1);
      var z := XorBits(x, y, k);
      assert z == bit + 2 * rest;
      LowBitAndRest(bit, rest);
      HalfBound(x, k);
      XorBitsCancel(x / 2, y / 2, k - 1);
      BitCancel(x % 2, y % 2);
      assert XorBits(z, y, k) == (bit + y % 2) % 2 + 2 * XorBits(rest, y / 2, k - 1);
      assert XorBits(z, y, k) == x % 2 + 2 * (x / 2);
    }
  }

  lemma XorByteCancel(x: byte, y: byte)
    ensures XorByte(XorByte(x, y), y) == x
  {
    assert Pow2(8) == 256;
    XorBitsCancel(x, y, 8);
  }

  /** Xor-ing twice with the same key restores the shorter-truncated original. */
  lemma XorTwice(a: seq<byte>, b: seq<byte>)
    ensures |a| <= |b| ==> Xor(Xor(a, b), b) == a
    ensures |a| > |b| ==> Xor(Xor(a, b), b) == a[..|b|]
  {
    forall i | 0 <= i < |a| && i < |b| {
      XorByteCancel(a[i], b[i]);
    }
  }
}
