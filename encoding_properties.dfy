/** Round trips and shapes of the hex and Base64 codecs in module Encodings. */
module EncodingProperties {
  import opened Wrappers
  import opened Encodings

  // ---------------------------------------------------------------------------
  // Hexadecimal
  // ---------------------------------------------------------------------------

  lemma ByteNibbles(b: Byte)
    ensures HexDigitValue(HexDigit(b / 16)) * 16 + HexDigitValue(HexDigit(b % 16)) == b
  {
  }

  /** `bytes.fromhex(b.hex()) == b`. */
  lemma {:induction false} HexRoundTrip(b: seq<Byte>)
    ensures HexDecode(HexEncode(b)) == Some(b)
  {
    if |b| > 0 {
      HexRoundTrip(b[1..]);
      var e := HexEncode(b);
      assert e[2..] == HexEncode(b[1..]);
      ByteNibbles(b[0]);
      assert [b[0]] + b[1..] == b;
    }
  }

  lemma DigitOfValue(c: char)
    requires IsHexDigit(c)
    ensures HexDigit(HexDigitValue(c)) == LowerChar(c)
  {
  }

  /** Decoding hex and encoding again gives the lower-case text: hex of the
      bytes of a hex string is that string in lower case. */
  lemma {:induction false} HexDecodeEncode(s: string)
    requires HexDecode(s).Some?
    ensures HexEncode(HexDecode(s).value) == Lower(s)
  {
    if |s| > 0 {
      HexDecodeEncode(s[2..]);
      var rest := HexDecode(s[2..]).value;
      var v := HexDigitValue(s[0]) * 16 + HexDigitValue(s[1]);
      assert HexDecode(s).value == [v] + rest;
      assert ([v] + rest)[1..] == rest;
      assert v / 16 == HexDigitValue(s[0]) && v % 16 == HexDigitValue(s[1]);
      DigitOfValue(s[0]);
      DigitOfValue(s[1]);
      assert Lower(s) == [LowerChar(s[0]), LowerChar(s[1])] + Lower(s[2..]);
    }
  }

  /** `b.hex()` is already lower case. */
  lemma {:induction false} HexEncodeLower(b: seq<Byte>)
    ensures Lower(HexEncode(b)) == HexEncode(b)
  {
    if |b| > 0 {
      HexEncodeLower(b[1..]);
      assert Lower(HexEncode(b)) ==
             [LowerChar(HexEncode(b)[0]), LowerChar(HexEncode(b)[1])] + Lower(HexEncode(b)[2..]);
    }
  }

  // ---------------------------------------------------------------------------
  // Base64
  // ---------------------------------------------------------------------------

  lemma GroupRoundTrip(b0: Byte, b1: Byte, b2: Byte)
    ensures var g := EncodeGroup(b0, b1, b2);
            DecodeGroup(g[0], g[1], g[2], g[3]) == [b0, b1, b2]
  {
    var g := EncodeGroup(b0, b1, b2);
    SixBitDigits(b0, b1, b2);
    assert B64Value(g[0]) == b0 / 4 && B64Value(g[1]) == (b0 % 4) * 16 + b1 / 16;
    assert B64Value(g[2]) == (b1 % 16) * 4 + b2 / 64 && B64Value(g[3]) == b2 % 64;
  }

  /** The four six-bit digits of three bytes give the bytes back. */
  lemma SixBitDigits(b0: Byte, b1: Byte, b2: Byte)
    ensures var v0, v1, v2, v3 := b0 / 4, (b0 % 4) * 16 + b1 / 16, (b1 % 16) * 4 + b2 / 64, b2 % 64;
            v0 * 4 + v1 / 16 == b0 && (v1 % 16) * 16 + v2 / 4 == b1 && (v2 % 4) * 64 + v3 == b2
  {
    var v1 := (b0 % 4) * 16 + b1 / 16;
    var v2 := (b1 % 16) * 4 + b2 / 64;
    assert v1 / 16 == b0 % 4 && v1 % 16 == b1 / 16;
    assert v2 / 4 == b1 % 16 && v2 % 4 == b2 / 64;
  }

  /** `standard_b64decode(standard_b64encode(b)) == b`. */
  lemma {:induction false} StdB64RoundTrip(b: seq<Byte>)
    ensures StdB64Decode(StdB64Encode(b)) == Some(b)
  {
    if |b| > 3 {
      StdB64RoundTrip(b[3..]);
      StdB64Longer(b);
    } else if |b| == 3 {
      StdB64Three(b);
    } else {
      StdB64Short(b);
    }
  }

  /** A padded final group of one or two bytes decodes to those bytes. */
  lemma {:induction false} StdB64Short(b: seq<Byte>)
    requires |b| < 3
    ensures StdB64Decode(StdB64Encode(b)) == Some(b)
  {
    if |b| == 2 {
      assert b == [b[0], b[1]];
    } else if |b| == 1 {
      assert b == [b[0]];
    }
  }

  /** A final group of three bytes decodes to those bytes. */
  lemma {:induction false} StdB64Three(b: seq<Byte>)
    requires |b| == 3
    ensures StdB64Decode(StdB64Encode(b)) == Some(b)
  {
    var g := EncodeGroup(b[0], b[1], b[2]);
    assert b[3..] == [];
    assert StdB64Encode(b) == g;
    GroupRoundTrip(b[0], b[1], b[2]);
    assert b == [b[0], b[1], b[2]];
  }

  /** A group of three bytes in front of more decodes in front of what the
      rest decodes to. */
  lemma {:induction false} StdB64Longer(b: seq<Byte>)
    requires |b| > 3 && StdB64Decode(StdB64Encode(b[3..])) == Some(b[3..])
    ensures StdB64Decode(StdB64Encode(b)) == Some(b)
  {
    var g := EncodeGroup(b[0], b[1], b[2]);
    var rest := StdB64Encode(b[3..]);
    assert StdB64Encode(b) == g + rest;
    DecodeFront(g, rest, b[3..]);
    GroupRoundTrip(b[0], b[1], b[2]);
    assert [b[0], b[1], b[2]] + b[3..] == b;
  }

  /** A full group in front of decodable text decodes in front of it. */
  lemma DecodeFront(g: string, rest: string, r: seq<Byte>)
    requires |g| == 4 && IsB64Char(g[0]) && IsB64Char(g[1]) && IsB64Char(g[2]) && IsB64Char(g[3])
    requires |rest| > 0 && StdB64Decode(rest) == Some(r)
    ensures StdB64Decode(g + rest) == Some(DecodeGroup(g[0], g[1], g[2], g[3]) + r)
  {
    var e := g + rest;
    assert e[4..] == rest;
    assert e[0] == g[0] && e[1] == g[1] && e[2] == g[2] && e[3] == g[3];
  }

  /** Standard Base64 uses neither `-` nor `_`. */
  lemma {:induction false} StdB64EncodeChars(b: seq<Byte>)
    ensures forall i :: 0 <= i < |StdB64Encode(b)| ==>
              IsB64Char(StdB64Encode(b)[i]) || StdB64Encode(b)[i] == '='
  {
    if |b| >= 3 {
      StdB64EncodeChars(b[3..]);
      var e := StdB64Encode(b);
      forall i | 4 <= i < |e| ensures IsB64Char(e[i]) || e[i] == '=' {
        assert e[i] == StdB64Encode(b[3..])[i - 4];
      }
    }
  }

  /** Text that decodes uses only the alphabet and `=`. */
  lemma {:induction false} StdB64DecodeChars(s: string)
    requires StdB64Decode(s).Some?
    ensures forall i :: 0 <= i < |s| ==> IsB64Char(s[i]) || s[i] == '='
  {
    if |s| > 4 {
      StdB64DecodeChars(s[4..]);
      forall i | 4 <= i < |s| ensures IsB64Char(s[i]) || s[i] == '=' {
        assert s[i] == s[4..][i - 4];
      }
    }
  }

  lemma TranslateBack(s: string)
    requires forall i :: 0 <= i < |s| ==> s[i] != '-' && s[i] != '_'
    ensures Translate(Translate(s, '+', '-', '/', '_'), '-', '+', '_', '/') == s
  {
  }

  /** `urlsafe_b64decode(urlsafe_b64encode(b)) == b`. */
  lemma UrlSafeB64RoundTrip(b: seq<Byte>)
    ensures UrlSafeB64Decode(UrlSafeB64Encode(b)) == Some(b)
  {
    StdB64EncodeChars(b);
    StandardBack(StdB64Encode(b));
    StdB64RoundTrip(b);
  }

  /** Standard Base64 text survives the trip to the URL-safe alphabet and
      back. */
  lemma {:induction false} StandardBack(e: string)
    requires forall i :: 0 <= i < |e| ==> IsB64Char(e[i]) || e[i] == '='
    ensures Translate(Translate(e, '+', '-', '/', '_'), '-', '+', '_', '/') == e
  {
    TranslateBack(e);
  }

  /** The standard decoder reads URL-safe text either as the same bytes (when
      it has no `-` or `_`, the two encodings agree) or not at all. */
  lemma StdDecodesUrlSafe(b: seq<Byte>)
    ensures StdB64Decode(UrlSafeB64Encode(b)) == None ||
            StdB64Decode(UrlSafeB64Encode(b)) == Some(b)
  {
    var e := StdB64Encode(b);
    var u := UrlSafeB64Encode(b);
    StdB64EncodeChars(b);
    if StdB64Decode(u).Some? {
      StdB64DecodeChars(u);
      assert u == e by {
        forall i | 0 <= i < |u| ensures u[i] == e[i] {
          assert IsB64Char(u[i]) || u[i] == '=';
        }
      }
      StdB64RoundTrip(b);
    }
  }

  /** Sixteen bytes decode from exactly the 24-character texts made of 22
      characters of the alphabet followed by `==`. */
  lemma {:induction false} StdB64Sixteen(s: string)
    ensures (StdB64Decode(s).Some? && |StdB64Decode(s).value| == 16) <==>
            (|s| == 24 && s[22] == '=' && s[23] == '=' &&
             forall i :: 0 <= i < 22 ==> IsB64Char(s[i]))
  {
    if StdB64Decode(s).Some? && |StdB64Decode(s).value| == 16 {
      assert |s| == 24;
      OneBytePadded(s);
    }
    if |s| == 24 && s[22] == '=' && s[23] == '=' && forall i :: 0 <= i < 22 ==> IsB64Char(s[i]) {
      DecodeFullGroups(s, 0);
    }
  }

  /** Text that decodes to the fewest bytes its length allows ends in `==`,
      after characters of the alphabet only. */
  lemma {:induction false} OneBytePadded(t: string)
    requires |t| >= 4 && StdB64Decode(t).Some? && |StdB64Decode(t).value| == 3 * (|t| / 4) - 2
    ensures t[|t| - 2] == '=' && t[|t| - 1] == '=' && forall i :: 0 <= i < |t| - 2 ==> IsB64Char(t[i])
    decreases |t|
  {
    if |t| == 4 {
      DecodesToOne(t);
    } else {
      var u := t[4..];
      DecodeSplits(t);
      OneBytePadded(u);
      forall i | 4 <= i < |t| ensures t[i] == u[i - 4] {
      }
    }
  }

  /** Decodable text longer than one group starts with a full group, and the
      rest decodes to three bytes fewer. */
  lemma DecodeSplits(t: string)
    requires |t| > 4 && StdB64Decode(t).Some?
    ensures IsB64Char(t[0]) && IsB64Char(t[1]) && IsB64Char(t[2]) && IsB64Char(t[3])
    ensures StdB64Decode(t[4..]).Some? && |StdB64Decode(t[4..]).value| == |StdB64Decode(t).value| - 3
  {
  }

  /** One group that decodes to a single byte ends in two `=`. */
  lemma DecodesToOne(t: string)
    requires |t| == 4 && StdB64Decode(t).Some? && |StdB64Decode(t).value| == 1
    ensures IsB64Char(t[0]) && IsB64Char(t[1]) && t[2] == '=' && t[3] == '='
  {
  }

  /** A 24-character text of the two-`=` shape decodes, group by group. */
  lemma {:induction false} DecodeFullGroups(s: string, k: nat)
    requires |s| == 24 && k <= 5
    requires s[22] == '=' && s[23] == '=' && forall i :: 0 <= i < 22 ==> IsB64Char(s[i])
    ensures StdB64Decode(s[4 * k..]).Some? && |StdB64Decode(s[4 * k..]).value| == 16 - 3 * k
    decreases 5 - k
  {
    var t := s[4 * k..];
    if k < 5 {
      assert t[4..] == s[4 * (k + 1)..];
      DecodeFullGroups(s, k + 1);
      assert IsB64Char(t[0]) && IsB64Char(t[1]) && IsB64Char(t[2]) && IsB64Char(t[3]) by {
        assert t[0] == s[4 * k] && t[1] == s[4 * k + 1] && t[2] == s[4 * k + 2] && t[3] == s[4 * k + 3];
      }
    } else {
      assert t[0] == s[20] && t[1] == s[21] && t[2] == s[22] && t[3] == s[23];
    }
  }
}
