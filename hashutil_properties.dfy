/** What wandb/sdk/lib/hashutil.py promises about its digest classes, proved
    of the model in module HashUtil. */
module HashUtilProperties {
  import opened Wrappers
  import opened Encodings
  import opened EncodingProperties
  import opened HashUtil

  /** A `HexMD5` is valid exactly when its text is 32 hex digits. */
  lemma HexMD5Valid(text: string)
    ensures Validate(HexMD5(text)).Ok? <==>
            |text| == 32 && forall i :: 0 <= i < |text| ==> IsHexDigit(text[i])
  {
  }

  /** A `B64MD5` is valid exactly when its text is 22 characters of the
      standard alphabet followed by `==`. */
  lemma B64MD5Valid(text: string)
    ensures Validate(B64MD5(text)).Ok? <==>
            |text| == 24 && text[22] == '=' && text[23] == '=' &&
            forall i :: 0 <= i < 22 ==> IsB64Char(text[i])
  {
    StdB64Sixteen(text);
  }

  /** An ETag is valid exactly when its length is from 24 to 128. */
  lemma ETagValid(text: string)
    ensures Validate(ETag(text)).Ok? <==> 24 <= |text| <= 128
  {
  }

  /** Validation never alters a digest: it returns it or raises. */
  lemma ValidateKeeps(d: Digest)
    ensures Validate(d).Ok? ==> Validate(d).value == d
    ensures Validate(d).Err? ==> Validate(d).error == (if d.ETag? then ETagLength else InvalidMD5)
  {
  }

  /** `from_bytes` of an MD5 class succeeds exactly on 16 bytes, and the
      bytes of what it builds are the bytes it was given. */
  lemma FromBytesRoundTrip(kind: Kind, b: seq<Byte>)
    requires IsMD5Kind(kind)
    ensures FromBytes(kind, b).Ok? <==> |b| == 16
    ensures FromBytes(kind, b).Ok? ==>
              KindOf(FromBytes(kind, b).value) == kind &&
              DigestBytes(FromBytes(kind, b).value) == Ok(b)
  {
    if kind == B64MD5Kind {
      StdB64RoundTrip(b);
    } else {
      HexRoundTrip(b);
    }
  }

  /** `ETag.from_bytes` always raises, and so does `ETag(b)` for bytes. */
  lemma ETagRejectsBytes(b: seq<Byte>)
    ensures FromBytes(ETagKind, b) == Err(ETagFromBytes)
    ensures NewDigest(ETagKind, Raw(b)) == Err(ETagFromBytes)
  {
  }

  /** `ETag(x)` keeps the text of a string or of another digest, and accepts
      it exactly when its length is from 24 to 128. */
  lemma ETagKeepsText(input: DigestInput)
    requires !input.Raw?
    ensures var text := if input.Text? then input.s else input.d.text;
            (NewDigest(ETagKind, input).Ok? <==> 24 <= |text| <= 128) &&
            (NewDigest(ETagKind, input).Ok? ==> NewDigest(ETagKind, input).value == ETag(text))
  {
  }

  /** `HexMD5(B64MD5(t))` is the lower-case hex of the 16 bytes `t`
      decodes to. */
  lemma HexOfB64(text: string)
    requires Validate(B64MD5(text)).Ok?
    ensures var b := StdB64Decode(text).value;
            NewDigest(HexMD5Kind, Other(B64MD5(text))) == Ok(HexMD5(HexEncode(b)))
  {
    var b := StdB64Decode(text).value;
    ConvertOther(HexMD5Kind, B64MD5(text), b);
  }

  /** `B64MD5(HexMD5(h))` is the standard Base64 of the 16 bytes `h`
      decodes to. */
  lemma B64OfHex(text: string)
    requires Validate(HexMD5(text)).Ok?
    ensures var b := HexDecode(text).value;
            NewDigest(B64MD5Kind, Other(HexMD5(text))) == Ok(B64MD5(StdB64Encode(b)))
  {
    var b := HexDecode(text).value;
    ConvertOther(B64MD5Kind, HexMD5(text), b);
  }

  /** A digest of another class standing for sixteen bytes converts to the
      digest of their encoding. */
  lemma ConvertOther(kind: Kind, d: Digest, b: seq<Byte>)
    requires IsMD5Kind(kind) && DigestBytes(d) == Ok(b) && |b| == 16
    ensures NewDigest(kind, Other(d)) ==
            Ok(if kind == B64MD5Kind then B64MD5(StdB64Encode(b)) else HexMD5(HexEncode(b)))
  {
    FromSixteen(kind, b);
  }

  /** Sixteen bytes give the digest of their encoding. */
  lemma FromSixteen(kind: Kind, b: seq<Byte>)
    requires IsMD5Kind(kind) && |b| == 16
    ensures FromBytes(kind, b) ==
            Ok(if kind == B64MD5Kind then B64MD5(StdB64Encode(b)) else HexMD5(HexEncode(b)))
  {
    FromBytesRoundTrip(kind, b);
  }

  /** Converting a hex digest to Base64 and back gives its text in lower
      case. */
  lemma HexB64HexLower(text: string)
    requires Validate(HexMD5(text)).Ok?
    ensures var b64 := NewDigest(B64MD5Kind, Other(HexMD5(text)));
            b64.Ok? && NewDigest(HexMD5Kind, Other(b64.value)) == Ok(HexMD5(Lower(text)))
  {
    var b := HexDecode(text).value;
    B64OfHex(text);
    FromBytesRoundTrip(B64MD5Kind, b);
    FromBytesRoundTrip(HexMD5Kind, b);
    HexDecodeEncode(text);
  }

  /** Whatever bytes an ETag yields are one of its hex, standard Base64 or
      URL-safe Base64 decodings. */
  lemma ETagBytesOneOf(text: string)
    requires ETagBytes(text).Ok?
    ensures var b := ETagBytes(text).value;
            HexDecode(text) == Some(b) || StdB64Decode(text) == Some(b) ||
            UrlSafeB64Decode(text) == Some(b)
  {
  }

  /** An ETag that reads as hex and does not mix case yields the hex bytes,
      whatever else it reads as. */
  lemma ETagHexFirst(text: string)
    requires !MixedCase(text) && HexDecode(text).Some?
    ensures ETagBytes(text) == Ok(HexDecode(text).value)
  {
  }

  /** An ETag that is not read as hex yields the bytes it standard-Base64
      encodes. */
  lemma ETagStdB64(b: seq<Byte>)
    requires var e := StdB64Encode(b); MixedCase(e) || HexDecode(e).None?
    ensures ETagBytes(StdB64Encode(b)) == Ok(b)
  {
    StdB64RoundTrip(b);
  }

  /** An ETag that is not read as hex yields the bytes it URL-safe-Base64
      encodes. */
  lemma ETagUrlSafeB64(b: seq<Byte>)
    requires var e := UrlSafeB64Encode(b); MixedCase(e) || HexDecode(e).None?
    ensures ETagBytes(UrlSafeB64Encode(b)) == Ok(b)
  {
    StdDecodesUrlSafe(b);
    UrlSafeB64RoundTrip(b);
  }

  /** An ETag none of whose decodings succeeds raises. */
  lemma ETagUndecodable(text: string)
    requires MixedCase(text) || HexDecode(text).None?
    requires StdB64Decode(text).None? && UrlSafeB64Decode(text).None?
    ensures ETagBytes(text) == Err(UndecodableETag)
  {
  }
}
