/** The digest classes of wandb/sdk/lib/hashutil.py as values: a digest is
    its text together with the class it was built as. Each class's
    validity check (`__init__`), byte form (`__bytes__`) and construction
    from bytes (`from_bytes`) is a function; the constructor
    (`Digest.__new__`, and the override in `ETag.__new__`) dispatches on
    what it is given. */
module HashUtil {
  import opened Wrappers
  import opened Encodings

  /** The three digest classes. */
  datatype Kind = B64MD5Kind | HexMD5Kind | ETagKind

  datatype Digest = B64MD5(text: string) | HexMD5(text: string) | ETag(text: string)

  /** What a digest constructor is called with. */
  datatype DigestInput = Text(s: string) | Raw(b: seq<Byte>) | Other(d: Digest)

  /** The `ValueError`s the classes raise (`binascii.Error` is one). */
  datatype ValueError =
    | DecodeError          // the text is not in the class's encoding
    | InvalidMD5           // an MD5 digest whose bytes are not 16
    | ETagLength           // an ETag shorter than 24 or longer than 128
    | ETagFromBytes        // an ETag asked for from bytes
    | UndecodableETag      // an ETag none of the three decodings reads

  function KindOf(d: Digest): Kind
  {
    match d
    case B64MD5(_) => B64MD5Kind
    case HexMD5(_) => HexMD5Kind
    case ETag(_) => ETagKind
  }

  function Make(kind: Kind, text: string): (d: Digest)
    ensures KindOf(d) == kind && d.text == text
  {
    match kind
    case B64MD5Kind => B64MD5(text)
    case HexMD5Kind => HexMD5(text)
    case ETagKind => ETag(text)
  }

  /** `True` when the text mixes upper- and lower-case. */
  predicate MixedCase(text: string)
  {
    Lower(text) != text && Upper(text) != text
  }

  /** `ETag.__bytes__`: hex first unless the text mixes case, then the
      standard Base64 alphabet, then the URL-safe one. */
  function ETagBytes(text: string): Result<seq<Byte>, ValueError>
  {
    var hex := if MixedCase(text) then None else HexDecode(text);
    if hex.Some? then Ok(hex.value)
    else if StdB64Decode(text).Some? then Ok(StdB64Decode(text).value)
    else if UrlSafeB64Decode(text).Some? then Ok(UrlSafeB64Decode(text).value)
    else Err(UndecodableETag)
  }

  /** `bytes(d)`. */
  function DigestBytes(d: Digest): Result<seq<Byte>, ValueError>
  {
    match d
    case B64MD5(t) => if StdB64Decode(t).Some? then Ok(StdB64Decode(t).value) else Err(DecodeError)
    case HexMD5(t) => if HexDecode(t).Some? then Ok(HexDecode(t).value) else Err(DecodeError)
    case ETag(t) => ETagBytes(t)
  }

  /** `__init__`: an MD5 digest must stand for 16 bytes; an ETag must be 24
      to 128 characters long. A valid digest is returned unchanged. */
  function Validate(d: Digest): Result<Digest, ValueError>
  {
    match d
    case ETag(t) => if 24 <= |t| <= 128 then Ok(d) else Err(ETagLength)
    case _ =>
      var b := DigestBytes(d);
      if b.Ok? && |b.value| == 16 then Ok(d) else Err(InvalidMD5)
  }

  /** `cls.from_bytes(b)`: the encoding of `b` in the class's alphabet,
      validated; an ETag cannot be built from bytes. */
  function FromBytes(kind: Kind, b: seq<Byte>): Result<Digest, ValueError>
  {
    match kind
    case B64MD5Kind => Validate(B64MD5(StdB64Encode(b)))
    case HexMD5Kind => Validate(HexMD5(HexEncode(b)))
    case ETagKind => Err(ETagFromBytes)
  }

  /** The constructor `cls(digest)`: a digest of another class goes through
      its bytes and bytes go through `from_bytes`, except that an ETag keeps
      the text of a digest and refuses bytes. */
  function NewDigest(kind: Kind, input: DigestInput): Result<Digest, ValueError>
  {
    match input
    case Text(s) => Validate(Make(kind, s))
    case Raw(b) => FromBytes(kind, b)
    case Other(d) =>
      if kind == ETagKind then Validate(ETag(d.text))
      else
        var b := DigestBytes(d);
        if b.Err? then Err(b.error) else FromBytes(kind, b.value)
  }

  /** An MD5 digest in bytes. */
  type Bytes16 = s: seq<Byte> | |s| == 16 witness [0, 0, 0, 0, 0, 0, 0, 0, 0, 0, 0, 0, 0, 0, 0, 0]

  predicate IsMD5Kind(kind: Kind)
  {
    kind == B64MD5Kind || kind == HexMD5Kind
  }
}
