/**
 * `pack_inline_message_id` / `unpack_inline_message_id` of `pyrogram/utils.py`:
 * an inline-message id is serialised with `struct` as little-endian signed
 * fields (`<iqq`, 20 bytes, or `<iqiq`, 24 bytes) and the bytes are written in
 * unpadded base64url.
 */
module InlineMessageId {
  import opened Wrappers
  import opened ByteCodec
  import opened Base64Url

  /** The two raw layouts of an inline-message id. */
  datatype InlineMessageId =
    | InputBotInlineMessageID(dcId: int, id: int, accessHash: int)
    | InputBotInlineMessageID64(dcId: int, ownerId: int, id: int, accessHash: int)

  /** `struct.error` (a field does not fit, or the byte count is wrong) and `binascii.Error`. */
  datatype CodecError = StructPackError | StructUnpackError(length: nat) | Base64DecodeError

  const LAYOUT_LENGTH: nat := 20
  const LAYOUT64_LENGTH: nat := 24

  /** Every field fits its slot: `i` is 4 bytes, `q` is 8 bytes. */
  predicate Fits(m: InlineMessageId) {
    match m
    case InputBotInlineMessageID(dc, id, hash) =>
      FitsSigned(dc, 4) && FitsSigned(id, 8) && FitsSigned(hash, 8)
    case InputBotInlineMessageID64(dc, owner, id, hash) =>
      FitsSigned(dc, 4) && FitsSigned(owner, 8) && FitsSigned(id, 4) && FitsSigned(hash, 8)
  }

  /** `struct.pack("<iqq", ...)` or `struct.pack("<iqiq", ...)`. */
  function PackStruct(m: InlineMessageId): (r: seq<byte>)
    requires Fits(m)
    ensures m.InputBotInlineMessageID? ==> |r| == LAYOUT_LENGTH
    ensures m.InputBotInlineMessageID64? ==> |r| == LAYOUT64_LENGTH
  {
    match m
    case InputBotInlineMessageID(dc, id, hash) =>
      PackSignedLE(dc, 4) + PackSignedLE(id, 8) + PackSignedLE(hash, 8)
    case InputBotInlineMessageID64(dc, owner, id, hash) =>
      PackSignedLE(dc, 4) + PackSignedLE(owner, 8) + PackSignedLE(id, 4) + PackSignedLE(hash, 8)
  }

  /** `pack_inline_message_id`: `struct.pack` raises when a field does not fit. */
  function Pack(m: InlineMessageId): (r: Result<string, CodecError>)
    ensures r.Ok? <==> Fits(m)
  {
    if Fits(m) then Ok(EncodeStripped(PackStruct(m))) else Err(StructPackError)
  }

  /** `unpack_inline_message_id`: the decoded length alone picks the layout. */
  function Unpack(t: string): Result<InlineMessageId, CodecError> {
    match Decode(Repad(t))
    case None => Err(Base64DecodeError)
    case Some(d) =>
      if |d| == LAYOUT_LENGTH then
        Ok(InputBotInlineMessageID(UnpackSignedLE(d[0..4]), UnpackSignedLE(d[4..12]), UnpackSignedLE(d[12..20])))
      else if |d| == LAYOUT64_LENGTH then
        Ok(InputBotInlineMessageID64(UnpackSignedLE(d[0..4]), UnpackSignedLE(d[4..12]),
                                     UnpackSignedLE(d[12..16]), UnpackSignedLE(d[16..24])))
      else Err(StructUnpackError(|d|))
  }

  /** Unpacking the raw struct bytes gives the fields back. */
  lemma UnpackStruct(m: InlineMessageId)
    requires Fits(m)
    ensures var d := PackStruct(m);
      match m
      case InputBotInlineMessageID(dc, id, hash) =>
        UnpackSignedLE(d[0..4]) == dc && UnpackSignedLE(d[4..12]) == id && UnpackSignedLE(d[12..20]) == hash
      case InputBotInlineMessageID64(dc, owner, id, hash) =>
        UnpackSignedLE(d[0..4]) == dc && UnpackSignedLE(d[4..12]) == owner &&
        UnpackSignedLE(d[12..16]) == id && UnpackSignedLE(d[16..24]) == hash
  {
    var d := PackStruct(m);
    match m
    case InputBotInlineMessageID(dc, id, hash) =>
      assert d[0..4] == PackSignedLE(dc, 4);
      assert d[4..12] == PackSignedLE(id, 8);
      assert d[12..20] == PackSignedLE(hash, 8);
      SignedRoundTrip(dc, 4);
      SignedRoundTrip(id, 8);
      SignedRoundTrip(hash, 8);
    case InputBotInlineMessageID64(dc, owner, id, hash) =>
      assert d[0..4] == PackSignedLE(dc, 4);
      assert d[4..12] == PackSignedLE(owner, 8);
      assert d[12..16] == PackSignedLE(id, 4);
      assert d[16..24] == PackSignedLE(hash, 8);
      SignedRoundTrip(dc, 4);
      SignedRoundTrip(owner, 8);
      SignedRoundTrip(id, 4);
      SignedRoundTrip(hash, 8);
  }

  /** `unpack_inline_message_id(pack_inline_message_id(m)) == m` for both layouts. */
  lemma PackUnpackRoundTrip(m: InlineMessageId)
    requires Fits(m)
    ensures Pack(m).Ok? && Unpack(Pack(m).value) == Ok(m)
  {
    var d := PackStruct(m);
    StrippedRoundTrip(d);
    UnpackStruct(m);
  }

  /**
   * The decoded length alone picks the outcome: a base64 error, the short
   * layout for 20 bytes, the 64-bit layout for 24, and struct.error otherwise.
   */
  lemma UnpackLayoutByLength(t: string)
    ensures Unpack(t) == Err(Base64DecodeError) <==> Decode(Repad(t)).None?
    ensures Decode(Repad(t)).Some? ==>
      (Unpack(t).Ok? && Unpack(t).value.InputBotInlineMessageID? <==> |Decode(Repad(t)).value| == LAYOUT_LENGTH)
    ensures Decode(Repad(t)).Some? ==>
      (Unpack(t).Ok? && Unpack(t).value.InputBotInlineMessageID64? <==> |Decode(Repad(t)).value| == LAYOUT64_LENGTH)
    ensures Decode(Repad(t)).Some? ==>
      (|Decode(Repad(t)).value| != LAYOUT_LENGTH && |Decode(Repad(t)).value| != LAYOUT64_LENGTH <==>
       Unpack(t) == Err(StructUnpackError(|Decode(Repad(t)).value|)))
  {
  }
}
