/** The byte encodings wandb/sdk/lib/hashutil.py relies on: `bytes.hex()` and
    `bytes.fromhex`, and the standard and URL-safe Base64 alphabets of
    RFC 4648 (sections 4 and 5), as `base64.standard_b64encode`,
    `standard_b64decode`, `urlsafe_b64encode` and `urlsafe_b64decode` use
    them. The decoders are strict: no whitespace and no character outside
    the alphabet is skipped. */
module Encodings {
  import opened Wrappers

  type Byte = x: int | 0 <= x < 256

  // ---------------------------------------------------------------------------
  // ASCII case
  // ---------------------------------------------------------------------------

  function LowerChar(c: char): char
  {
    if 'A' <= c <= 'Z' then (c as int - 'A' as int + 'a' as int) as char else c
  }

  function UpperChar(c: char): char
  {
    if 'a' <= c <= 'z' then (c as int - 'a' as int + 'A' as int) as char else c
  }

  /** `s.lower()` on ASCII letters. */
  function Lower(s: string): (r: string)
    ensures |r| == |s| && forall i :: 0 <= i < |s| ==> r[i] == LowerChar(s[i])
  {
    if |s| == 0 then "" else [LowerChar(s[0])] + Lower(s[1..])
  }

  /** `s.upper()` on ASCII letters. */
  function Upper(s: string): (r: string)
    ensures |r| == |s| && forall i :: 0 <= i < |s| ==> r[i] == UpperChar(s[i])
  {
    if |s| == 0 then "" else [UpperChar(s[0])] + Upper(s[1..])
  }

  // ---------------------------------------------------------------------------
  // Hexadecimal
  // ---------------------------------------------------------------------------

  predicate IsHexDigit(c: char)
  {
    '0' <= c <= '9' || 'a' <= c <= 'f' || 'A' <= c <= 'F'
  }

  function HexDigitValue(c: char): (v: int)
    requires IsHexDigit(c)
    ensures 0 <= v < 16
  {
    if '0' <= c <= '9' then c as int - '0' as int
    else if 'a' <= c <= 'f' then c as int - 'a' as int + 10
    else c as int - 'A' as int + 10
  }

  /** The lower-case digit for a value below 16. */
  function HexDigit(v: int): (c: char)
    requires 0 <= v < 16
    ensures IsHexDigit(c) && HexDigitValue(c) == v && LowerChar(c) == c
  {
    if v < 10 then ('0' as int + v) as char else ('a' as int + v - 10) as char
  }

  /** `b.hex()`: two lower-case digits per byte, high nibble first. */
  function HexEncode(b: seq<Byte>): (r: string)
    ensures |r| == 2 * |b|
  {
    if |b| == 0 then "" else [HexDigit(b[0] / 16), HexDigit(b[0] % 16)] + HexEncode(b[1..])
  }

  /** `bytes.fromhex(s)`: `None` where Python raises `ValueError`. */
  function HexDecode(s: string): (r: Option<seq<Byte>>)
    ensures r.Some? <==> |s| % 2 == 0 && forall i :: 0 <= i < |s| ==> IsHexDigit(s[i])
    ensures r.Some? ==> 2 * |r.value| == |s|
  {
    if |s| == 0 then Some([])
    else if |s| == 1 || !IsHexDigit(s[0]) || !IsHexDigit(s[1]) then None
    else
      match HexDecode(s[2..])
      case None => None
      case Some(rest) => Some([HexDigitValue(s[0]) * 16 + HexDigitValue(s[1])] + rest)
  }

  // ---------------------------------------------------------------------------
  // Base64, RFC 4648 section 4 (standard) and section 5 (URL-safe)
  // ---------------------------------------------------------------------------

  predicate IsB64Char(c: char)
  {
    'A' <= c <= 'Z' || 'a' <= c <= 'z' || '0' <= c <= '9' || c == '+' || c == '/'
  }

  function B64Value(c: char): (v: int)
    requires IsB64Char(c)
    ensures 0 <= v < 64
  {
    if 'A' <= c <= 'Z' then c as int - 'A' as int
    else if 'a' <= c <= 'z' then c as int - 'a' as int + 26
    else if '0' <= c <= '9' then c as int - '0' as int + 52
    else if c == '+' then 62
    else 63
  }

  /** The character of the standard alphabet for a six-bit value. */
  function B64Char(v: int): (c: char)
    requires 0 <= v < 64
    ensures IsB64Char(c) && B64Value(c) == v
  {
    if v < 26 then ('A' as int + v) as char
    else if v < 52 then ('a' as int + v - 26) as char
    else if v < 62 then ('0' as int + v - 52) as char
    else if v == 62 then '+'
    else '/'
  }

  /** Three bytes as four characters. */
  function EncodeGroup(b0: Byte, b1: Byte, b2: Byte): string
  {
    [B64Char(b0 / 4), B64Char((b0 % 4) * 16 + b1 / 16), B64Char((b1 % 16) * 4 + b2 / 64),
     B64Char(b2 % 64)]
  }

  /** `base64.standard_b64encode(b)`: a final group of one or two bytes is
      padded with `=` to four characters. */
  function StdB64Encode(b: seq<Byte>): (r: string)
    ensures |r| % 4 == 0 && |r| == 4 * ((|b| + 2) / 3)
  {
    if |b| == 0 then ""
    else if |b| == 1 then [B64Char(b[0] / 4), B64Char((b[0] % 4) * 16), '=', '=']
    else if |b| == 2 then
      [B64Char(b[0] / 4), B64Char((b[0] % 4) * 16 + b[1] / 16), B64Char((b[1] % 16) * 4), '=']
    else EncodeGroup(b[0], b[1], b[2]) + StdB64Encode(b[3..])
  }

  /** Four characters of the alphabet as three bytes. */
  function DecodeGroup(c0: char, c1: char, c2: char, c3: char): (r: seq<Byte>)
    requires IsB64Char(c0) && IsB64Char(c1) && IsB64Char(c2) && IsB64Char(c3)
    ensures |r| == 3
  {
    var v0, v1, v2, v3 := B64Value(c0), B64Value(c1), B64Value(c2), B64Value(c3);
    [v0 * 4 + v1 / 16, (v1 % 16) * 16 + v2 / 4, (v2 % 4) * 64 + v3]
  }

  /** The last group of four characters, which may end in one or two `=`.
      Python does not require the bits a padded group drops to be zero, and
      neither does this. */
  function DecodeLast(c0: char, c1: char, c2: char, c3: char): (r: Option<seq<Byte>>)
    ensures r.Some? ==> 1 <= |r.value| <= 3
  {
    if !IsB64Char(c0) || !IsB64Char(c1) then None
    else if c2 == '=' && c3 == '=' then Some([B64Value(c0) * 4 + B64Value(c1) / 16])
    else if !IsB64Char(c2) then None
    else if c3 == '=' then
      Some([B64Value(c0) * 4 + B64Value(c1) / 16, (B64Value(c1) % 16) * 16 + B64Value(c2) / 4])
    else if !IsB64Char(c3) then None
    else Some(DecodeGroup(c0, c1, c2, c3))
  }

  /** `base64.standard_b64decode(s)`: `None` where Python raises
      `binascii.Error`. Padding may only end the last group. */
  function StdB64Decode(s: string): (r: Option<seq<Byte>>)
    ensures r.Some? ==> |s| % 4 == 0
    ensures r.Some? && |s| > 0 ==> 3 * (|s| / 4) - 2 <= |r.value| <= 3 * (|s| / 4)
    ensures r.Some? && |s| == 0 ==> r.value == []
  {
    if |s| == 0 then Some([])
    else if |s| < 4 then None
    else if |s| == 4 then DecodeLast(s[0], s[1], s[2], s[3])
    else if !(IsB64Char(s[0]) && IsB64Char(s[1]) && IsB64Char(s[2]) && IsB64Char(s[3])) then None
    else
      match StdB64Decode(s[4..])
      case None => None
      case Some(rest) => Some(DecodeGroup(s[0], s[1], s[2], s[3]) + rest)
  }

  /** `s.translate` between the two alphabets, which differ only in their
      last two characters. */
  function Translate(s: string, a: char, b: char, c: char, d: char): (r: string)
    ensures |r| == |s|
    ensures forall i :: 0 <= i < |s| ==> r[i] == (if s[i] == a then b else if s[i] == c then d else s[i])
  {
    if |s| == 0 then ""
    else [if s[0] == a then b else if s[0] == c then d else s[0]] + Translate(s[1..], a, b, c, d)
  }

  /** `base64.urlsafe_b64encode(b)`: `+` and `/` become `-` and `_`. */
  function UrlSafeB64Encode(b: seq<Byte>): string
  {
    Translate(StdB64Encode(b), '+', '-', '/', '_')
  }

  /** `base64.urlsafe_b64decode(s)`: `-` and `_` become `+` and `/`, then the
      standard decoder runs, so `+` and `/` are accepted too. */
  function UrlSafeB64Decode(s: string): Option<seq<Byte>>
  {
    StdB64Decode(Translate(s, '-', '+', '_', '/'))
  }
}
