/**
 * The "base64url" encoding (the URL- and filename-safe alphabet of section 5 of
 * RFC 4648) as Python's `base64.urlsafe_b64encode` / `urlsafe_b64decode` apply
 * it, plus the `rstrip("=")` / `"=" * (-len % 4)` padding removal and
 * restoration that `pyrogram/utils.py` wraps around it.
 */
module Base64Url {
  import opened Wrappers
  import opened ByteCodec

  type sextet = v: int | 0 <= v < 64

  const PAD: char := '='

  /** The character for a 6-bit value: A-Z, a-z, 0-9, then '-' and '_'. */
  function EncodeChar(v: sextet): (c: char)
    ensures c != PAD
  {
    if v < 26 then (65 + v) as char
    else if v < 52 then (97 + v - 26) as char
    else if v < 62 then (48 + v - 52) as char
    else if v == 62 then '-'
    else '_'
  }

  /** The 6-bit value of an alphabet character; `None` for anything else. */
  function DecodeChar(c: char): Option<sextet> {
    if 'A' <= c <= 'Z' then Some(c as int - 65)
    else if 'a' <= c <= 'z' then Some(c as int - 97 + 26)
    else if '0' <= c <= '9' then Some(c as int - 48 + 52)
    else if c == '-' then Some(62)
    else if c == '_' then Some(63)
    else None
  }

  lemma DecodeEncodeChar(v: sextet)
    ensures DecodeChar(EncodeChar(v)) == Some(v)
  {
  }

  // The bit layout of one group: 3 bytes b0 b1 b2 are 24 bits read as 4 sextets.

  function Sextet0(b0: byte): sextet { b0 / 4 }
  function Sextet1(b0: byte, b1: byte): sextet { (b0 % 4) * 16 + b1 / 16 }
  function Sextet2(b1: byte, b2: byte): sextet { (b1 % 16) * 4 + b2 / 64 }
  function Sextet3(b2: byte): sextet { b2 % 64 }

  function Byte0(c0: sextet, c1: sextet): byte { c0 * 4 + c1 / 16 }
  function Byte1(c1: sextet, c2: sextet): byte { (c1 % 16) * 16 + c2 / 4 }
  function Byte2(c2: sextet, c3: sextet): byte { (c2 % 4) * 64 + c3 }

  /** The four characters of a full group of three bytes. */
  function EncodeGroup3(b0: byte, b1: byte, b2: byte): (r: string)
    ensures |r| == 4 && PAD !in r
  {
    [EncodeChar(Sextet0(b0)), EncodeChar(Sextet1(b0, b1)), EncodeChar(Sextet2(b1, b2)), EncodeChar(Sextet3(b2))]
  }

  /** The three characters of a final group of two bytes (missing bits are zero). */
  function EncodeGroup2(b0: byte, b1: byte): (r: string)
    ensures |r| == 3 && PAD !in r
  {
    [EncodeChar(Sextet0(b0)), EncodeChar(Sextet1(b0, b1)), EncodeChar(Sextet2(b1, 0))]
  }

  /** The two characters of a final group of one byte. */
  function EncodeGroup1(b0: byte): (r: string)
    ensures |r| == 2 && PAD !in r
  {
    [EncodeChar(Sextet0(b0)), EncodeChar(Sextet1(b0, 0))]
  }

  /** Unpadded encoding: every 3 bytes give 4 characters, a final 1 or 2 bytes give 2 or 3. */
  function EncodeUnpadded(s: seq<byte>): (r: string)
    ensures |r| == (|s| / 3) * 4 + (if |s| % 3 == 0 then 0 else |s| % 3 + 1)
    ensures PAD !in r
  {
    if |s| == 0 then ""
    else if |s| == 1 then EncodeGroup1(s[0])
    else if |s| == 2 then EncodeGroup2(s[0], s[1])
    else EncodeGroup3(s[0], s[1], s[2]) + EncodeUnpadded(s[3..])
  }

  /** The number of '=' that complete the last group of an encoding of n bytes. */
  function PadCount(n: nat): nat {
    if n % 3 == 0 then 0 else 3 - n % 3
  }

  function Repeat(c: char, n: nat): (r: string)
    ensures |r| == n && forall i :: 0 <= i < n ==> r[i] == c
  {
    if n == 0 then "" else [c] + Repeat(c, n - 1)
  }

  /** `base64.urlsafe_b64encode(s).decode()`: padded to a multiple of 4 characters. */
  function Encode(s: seq<byte>): (r: string)
    ensures |r| % 4 == 0
  {
    EncodeUnpadded(s) + Repeat(PAD, PadCount(|s|))
  }

  /** `str.rstrip("=")`. */
  function RStripPad(t: string): (r: string)
    ensures |r| <= |t| && r == t[..|r|]
    ensures r == [] || r[|r| - 1] != PAD
    ensures forall i :: |r| <= i < |t| ==> t[i] == PAD
  {
    if t != [] && t[|t| - 1] == PAD then RStripPad(t[..|t| - 1]) else t
  }

  /** The number of '=' that `-len % 4` asks for (Python's `%` of a negative number is never negative, like Dafny's). */
  function RepadCount(n: nat): (k: nat)
    ensures k < 4 && (n + k) % 4 == 0
    ensures k == if n % 4 == 0 then 0 else 4 - n % 4
  {
    var m: int := n;
    var k: int := (-m) % 4;
    assert n % 4 == 0 ==> k == 0;
    assert n % 4 == 1 ==> k == 3;
    assert n % 4 == 2 ==> k == 2;
    assert n % 4 == 3 ==> k == 1;
    k
  }

  /** `t + "=" * (-len(t) % 4)`. */
  function Repad(t: string): (r: string)
    ensures |r| % 4 == 0
  {
    t + Repeat(PAD, RepadCount(|t|))
  }

  /** The unpadded text `pack_inline_message_id` returns. */
  function EncodeStripped(s: seq<byte>): string {
    RStripPad(Encode(s))
  }

  /** Decoding of a full group of four alphabet characters. */
  function DecodeQuad(g: string): (r: Option<seq<byte>>)
    requires |g| == 4
    ensures r.Some? ==> |r.value| == 3
  {
    var d0, d1, d2, d3 := DecodeChar(g[0]), DecodeChar(g[1]), DecodeChar(g[2]), DecodeChar(g[3]);
    if d0.Some? && d1.Some? && d2.Some? && d3.Some? then
      Some([Byte0(d0.value, d1.value), Byte1(d1.value, d2.value), Byte2(d2.value, d3.value)])
    else None
  }

  /** Decoding of the final group: a full group, or 3 or 2 characters followed by padding. */
  function DecodeLastGroup(g: string): (r: Option<seq<byte>>)
    requires |g| == 4
    ensures r.Some? ==> 1 <= |r.value| <= 3
  {
    var d0, d1, d2 := DecodeChar(g[0]), DecodeChar(g[1]), DecodeChar(g[2]);
    if DecodeQuad(g).Some? then DecodeQuad(g)
    else if d0.Some? && d1.Some? && d2.Some? && g[3] == PAD then
      Some([Byte0(d0.value, d1.value), Byte1(d1.value, d2.value)])
    else if d0.Some? && d1.Some? && g[2] == PAD && g[3] == PAD then
      Some([Byte0(d0.value, d1.value)])
    else None
  }

  /**
   * `base64.urlsafe_b64decode` of a padded text: 4 characters per group,
   * padding only in the last group; anything else is a decoding error.
   */
  function Decode(t: string): (r: Option<seq<byte>>)
    ensures r.Some? ==> |t| % 4 == 0
    decreases |t|
  {
    if |t| == 0 then Some([])
    else if |t| < 4 then None
    else if |t| == 4 then DecodeLastGroup(t)
    else if DecodeQuad(t[..4]).None? then None
    else match Decode(t[4..])
      case Some(rest) => Some(DecodeQuad(t[..4]).value + rest)
      case None => None
  }

  lemma GroupRoundTrip(b0: byte, b1: byte, b2: byte)
    ensures Byte0(Sextet0(b0), Sextet1(b0, b1)) == b0
    ensures Byte1(Sextet1(b0, b1), Sextet2(b1, b2)) == b1
    ensures Byte2(Sextet2(b1, b2), Sextet3(b2)) == b2
  {
  }

  lemma DecodeGroup3(b0: byte, b1: byte, b2: byte)
    ensures DecodeQuad(EncodeGroup3(b0, b1, b2)) == Some([b0, b1, b2])
    ensures DecodeLastGroup(EncodeGroup3(b0, b1, b2)) == Some([b0, b1, b2])
  {
    var v0, v1, v2, v3 := Sextet0(b0), Sextet1(b0, b1), Sextet2(b1, b2), Sextet3(b2);
    var g := [EncodeChar(v0), EncodeChar(v1), EncodeChar(v2), EncodeChar(v3)];
    assert EncodeGroup3(b0, b1, b2) == g;
    DecodeEncodeChar(v0);
    DecodeEncodeChar(v1);
    DecodeEncodeChar(v2);
    DecodeEncodeChar(v3);
    assert DecodeQuad(g) == Some([Byte0(v0, v1), Byte1(v1, v2), Byte2(v2, v3)]);
    GroupRoundTrip(b0, b1, b2);
  }

  lemma DecodeGroup2(b0: byte, b1: byte)
    ensures DecodeLastGroup(EncodeGroup2(b0, b1) + [PAD]) == Some([b0, b1])
  {
    var v0, v1, v2 := Sextet0(b0), Sextet1(b0, b1), Sextet2(b1, 0);
    var g := [EncodeChar(v0), EncodeChar(v1), EncodeChar(v2), PAD];
    assert EncodeGroup2(b0, b1) + [PAD] == g;
    DecodeEncodeChar(v0);
    DecodeEncodeChar(v1);
    DecodeEncodeChar(v2);
    assert DecodeChar(PAD) == None;
    assert DecodeQuad(g) == None;
    assert DecodeLastGroup(g) == Some([Byte0(v0, v1), Byte1(v1, v2)]);
    GroupRoundTrip(b0, b1, 0);
  }

  lemma DecodeGroup1(b0: byte)
    ensures DecodeLastGroup(EncodeGroup1(b0) + [PAD, PAD]) == Some([b0])
  {
    var v0, v1 := Sextet0(b0), Sextet1(b0, 0);
    var g := [EncodeChar(v0), EncodeChar(v1), PAD, PAD];
    assert EncodeGroup1(b0) + [PAD, PAD] == g;
    DecodeEncodeChar(v0);
    DecodeEncodeChar(v1);
    assert DecodeChar(PAD) == None;
    assert DecodeQuad(g) == None;
    assert DecodeLastGroup(g) == Some([Byte0(v0, v1)]);
    GroupRoundTrip(b0, 0, 0);
  }

  /** The encoding of three or more bytes is a full group followed by the encoding of the rest. */
  lemma EncodeSplit(s: seq<byte>)
    requires |s| >= 3
    ensures Encode(s) == EncodeGroup3(s[0], s[1], s[2]) + Encode(s[3..])
  {
    assert PadCount(|s|) == PadCount(|s| - 3);
  }

  /** Decoding a valid full group followed by more text decodes the rest separately. */
  lemma DecodeSplit(g: string, t: string)
    requires |g| == 4 && DecodeQuad(g).Some? && |t| > 0
    ensures Decode(g + t) ==
      match Decode(t)
      case Some(rest) => Some(DecodeQuad(g).value + rest)
      case None => None
  {
    var w := g + t;
    assert w[..4] == g && w[4..] == t;
  }

  /** The round trip for one final group of one, two or three bytes. */
  lemma DecodeEncodeLastGroup(s: seq<byte>)
    requires 1 <= |s| <= 3
    ensures Decode(Encode(s)) == Some(s)
  {
    if |s| == 1 {
      DecodeEncodeOne(s);
    } else if |s| == 2 {
      DecodeEncodeTwo(s);
    } else {
      DecodeEncodeThree(s);
    }
  }

  lemma DecodeEncodeOne(s: seq<byte>)
    requires |s| == 1
    ensures Decode(Encode(s)) == Some(s)
  {
    assert Encode(s) == EncodeGroup1(s[0]) + [PAD, PAD];
    DecodeGroup1(s[0]);
    assert s == [s[0]];
  }

  lemma DecodeEncodeTwo(s: seq<byte>)
    requires |s| == 2
    ensures Decode(Encode(s)) == Some(s)
  {
    assert Encode(s) == EncodeGroup2(s[0], s[1]) + [PAD];
    DecodeGroup2(s[0], s[1]);
    assert s == [s[0], s[1]];
  }

  lemma DecodeEncodeThree(s: seq<byte>)
    requires |s| == 3
    ensures Decode(Encode(s)) == Some(s)
  {
    assert Encode(s) == EncodeGroup3(s[0], s[1], s[2]);
    DecodeGroup3(s[0], s[1], s[2]);
    assert s == [s[0], s[1], s[2]];
  }

  /** Padded decoding undoes padded encoding, for every byte string. */
  lemma {:induction false} DecodeEncode(s: seq<byte>)
    ensures Decode(Encode(s)) == Some(s)
    decreases |s|
  {
    if |s| == 0 {
      assert Encode(s) == "";
    } else if |s| <= 3 {
      DecodeEncodeLastGroup(s);
    } else {
      var g, rest := EncodeGroup3(s[0], s[1], s[2]), s[3..];
      EncodeSplit(s);
      DecodeGroup3(s[0], s[1], s[2]);
      DecodeEncode(rest);
      DecodeSplit(g, Encode(rest));
      assert s == [s[0], s[1], s[2]] + rest;
    }
  }

  /** Stripping trailing '=' from text without '=' followed by k of them gives the text back. */
  lemma {:induction false} StripPadding(u: string, k: nat)
    requires PAD !in u
    ensures RStripPad(u + Repeat(PAD, k)) == u
  {
    var t := u + Repeat(PAD, k);
    if k == 0 {
      assert t == u;
      if u != [] {
        assert u[|u| - 1] in u;
      }
    } else {
      assert t[|t| - 1] == PAD;
      assert t[..|t| - 1] == u + Repeat(PAD, k - 1);
      StripPadding(u, k - 1);
    }
  }

  /** `rstrip("=")` removes exactly the padding of an encoding and `Repad` puts it back. */
  lemma RepadStripped(s: seq<byte>)
    ensures RStripPad(Encode(s)) == EncodeUnpadded(s)
    ensures Repad(EncodeStripped(s)) == Encode(s)
  {
    var u := EncodeUnpadded(s);
    StripPadding(u, PadCount(|s|));
    RepadCountOfEncoding(|s|);
  }

  /** The padding `-len % 4` asks for, after an unpadded encoding of n bytes, is the padding it lost. */
  lemma RepadCountOfEncoding(n: nat)
    ensures RepadCount((n / 3) * 4 + (if n % 3 == 0 then 0 else n % 3 + 1)) == PadCount(n)
  {
    var c := if n % 3 == 0 then 0 else n % 3 + 1;
    GroupsMod4(n / 3, c);
  }

  /** Whole groups of four leave the remainder modulo 4 to the final partial group. */
  lemma {:induction false} GroupsMod4(q: nat, c: nat)
    requires c < 4
    ensures (q * 4 + c) % 4 == c
  {
    if q > 0 {
      GroupsMod4(q - 1, c);
      assert q * 4 + c == ((q - 1) * 4 + c) + 4;
    }
  }

  /** What `unpack_inline_message_id` decodes is what `pack_inline_message_id` encoded. */
  lemma StrippedRoundTrip(s: seq<byte>)
    ensures Decode(Repad(EncodeStripped(s))) == Some(s)
  {
    RepadStripped(s);
    DecodeEncode(s);
  }
}
