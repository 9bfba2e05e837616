/**
 * Node's `hex` and `base64url` byte-to-text encoders (RFC 4648, sections 8
 * and 5; `base64url` output carries no `=` padding).
 */
module Encoding {
  import Uri

  /** Lower-case hexadecimal digits. */
  predicate IsLowerHex(c: char) {
    ('0' <= c <= '9') || ('a' <= c <= 'f')
  }

  function LowerHexDigit(d: int): (c: char)
    requires 0 <= d < 16
    ensures IsLowerHex(c)
    ensures Uri.HexValue(c) == d
  {
    if d < 10 then ('0' as int + d) as char else ('a' as int + d - 10) as char
  }

  /** `buffer.toString("hex")`. */
  function Hex(bs: seq<int>): (s: string)
    requires Uri.AllBytes(bs)
    ensures |s| == 2 * |bs|
    ensures forall i :: 0 <= i < |s| ==> IsLowerHex(s[i])
  {
    if bs == [] then []
    else
      var rest := Hex(bs[1..]);
      var s := [LowerHexDigit(bs[0] / 16), LowerHexDigit(bs[0] % 16)] + rest;
      assert forall i :: 2 <= i < |s| ==> s[i] == rest[i - 2];
      s
  }

  /** Reads pairs of hexadecimal digits back as bytes. */
  function Unhex(s: string): seq<int>
    requires |s| % 2 == 0
  {
    if s == [] then [] else [Uri.HexValue(s[0]) * 16 + Uri.HexValue(s[1])] + Unhex(s[2..])
  }

  /** `hex` loses nothing: the bytes can be read back from the text. */
  lemma {:induction false} UnhexHex(bs: seq<int>)
    requires Uri.AllBytes(bs)
    ensures Unhex(Hex(bs)) == bs
  {
    if bs != [] {
      var s := Hex(bs);
      assert s[2..] == Hex(bs[1..]);
      UnhexHex(bs[1..]);
      assert [bs[0]] + bs[1..] == bs;
    }
  }

  /** The URL- and filename-safe alphabet of RFC 4648, section 5. */
  function Base64UrlDigit(d: int): (c: char)
    requires 0 <= d < 64
    ensures IsUnreserved(c) && Base64UrlValue(c) == d
  {
    if d < 26 then ('A' as int + d) as char
    else if d < 52 then ('a' as int + d - 26) as char
    else if d < 62 then ('0' as int + d - 52) as char
    else if d == 62 then '-'
    else '_'
  }

  /** The index of a base64url character in its alphabet, or -1. */
  function Base64UrlValue(c: char): (d: int)
    ensures -1 <= d < 64
  {
    if 'A' <= c <= 'Z' then c as int - 'A' as int
    else if 'a' <= c <= 'z' then c as int - 'a' as int + 26
    else if '0' <= c <= '9' then c as int - '0' as int + 52
    else if c == '-' then 62
    else if c == '_' then 63
    else -1
  }

  /** The unreserved characters of RFC 3986, section 2.3, which PKCE verifiers are made of (RFC 7636, section 4.1). */
  predicate IsUnreserved(c: char) {
    ('A' <= c <= 'Z') || ('a' <= c <= 'z') || ('0' <= c <= '9') || c == '-' || c == '.' || c == '_' || c == '~'
  }

  /** `buffer.toString("base64url")`: each 3 bytes become 4 characters; a final 1 or 2 bytes become 2 or 3. */
  function Base64Url(bs: seq<int>): (s: string)
    requires Uri.AllBytes(bs)
    ensures |s| == (4 * |bs| + 2) / 3
    ensures forall i :: 0 <= i < |s| ==> IsUnreserved(s[i])
  {
    if |bs| == 0 then []
    else if |bs| == 1 then
      [Base64UrlDigit(bs[0] / 4), Base64UrlDigit((bs[0] % 4) * 16)]
    else if |bs| == 2 then
      [Base64UrlDigit(bs[0] / 4), Base64UrlDigit((bs[0] % 4) * 16 + bs[1] / 16), Base64UrlDigit((bs[1] % 16) * 4)]
    else
      var rest := Base64Url(bs[3..]);
      var s := [Base64UrlDigit(bs[0] / 4), Base64UrlDigit((bs[0] % 4) * 16 + bs[1] / 16),
                Base64UrlDigit((bs[1] % 16) * 4 + bs[2] / 64), Base64UrlDigit(bs[2] % 64)] + rest;
      assert forall i :: 4 <= i < |s| ==> s[i] == rest[i - 4];
      s
  }

  /**
   * Decoding of unpadded base64url text made of alphabet characters; a lone
   * final character carries no whole byte and is dropped.
   */
  function Base64UrlDecode(s: string): seq<int>
  {
    if |s| < 2 then []
    else
      var d0, d1 := Base64UrlValue(s[0]), Base64UrlValue(s[1]);
      if |s| == 2 then [d0 * 4 + d1 / 16]
      else
        var d2 := Base64UrlValue(s[2]);
        if |s| == 3 then [d0 * 4 + d1 / 16, (d1 % 16) * 16 + d2 / 4]
        else
          var d3 := Base64UrlValue(s[3]);
          [d0 * 4 + d1 / 16, (d1 % 16) * 16 + d2 / 4, (d2 % 4) * 64 + d3] + Base64UrlDecode(s[4..])
  }

  lemma Base64UrlGroup(b0: int, b1: int, b2: int)
    requires Uri.IsByte(b0) && Uri.IsByte(b1) && Uri.IsByte(b2)
    ensures var d0, d1, d2, d3 := b0 / 4, (b0 % 4) * 16 + b1 / 16, (b1 % 16) * 4 + b2 / 64, b2 % 64;
      d0 * 4 + d1 / 16 == b0 && (d1 % 16) * 16 + d2 / 4 == b1 && (d2 % 4) * 64 + d3 == b2
  {
  }

  lemma Base64UrlOneByte(b0: int)
    requires Uri.IsByte(b0)
    ensures Base64UrlDecode(Base64Url([b0])) == [b0]
  {
    var s := [Base64UrlDigit(b0 / 4), Base64UrlDigit((b0 % 4) * 16)];
    assert Base64Url([b0]) == s;
    assert Base64UrlDecode(s) == [b0];
  }

  lemma Base64UrlTwoBytes(b0: int, b1: int)
    requires Uri.IsByte(b0) && Uri.IsByte(b1)
    ensures Base64UrlDecode(Base64Url([b0, b1])) == [b0, b1]
  {
    var s := [Base64UrlDigit(b0 / 4), Base64UrlDigit((b0 % 4) * 16 + b1 / 16), Base64UrlDigit((b1 % 16) * 4)];
    assert Base64Url([b0, b1]) == s;
    assert Base64UrlDecode(s) == [b0, b1];
  }

  lemma Base64UrlShortRoundTrip(bs: seq<int>)
    requires Uri.AllBytes(bs) && |bs| < 3
    ensures Base64UrlDecode(Base64Url(bs)) == bs
  {
    if |bs| == 1 {
      assert bs == [bs[0]];
      Base64UrlOneByte(bs[0]);
    } else if |bs| == 2 {
      assert bs == [bs[0], bs[1]];
      Base64UrlTwoBytes(bs[0], bs[1]);
    }
  }

  /** Decoding reads a leading group of four characters as three bytes. */
  lemma Base64UrlDecodeGroup(s: string, d0: int, d1: int, d2: int, d3: int)
    requires |s| >= 4
    requires Base64UrlValue(s[0]) == d0 && Base64UrlValue(s[1]) == d1
    requires Base64UrlValue(s[2]) == d2 && Base64UrlValue(s[3]) == d3
    ensures Base64UrlDecode(s) == [d0 * 4 + d1 / 16, (d1 % 16) * 16 + d2 / 4, (d2 % 4) * 64 + d3] + Base64UrlDecode(s[4..])
  {
  }

  /** Encoding emits the four characters of a leading group of three bytes, then the rest. */
  lemma Base64UrlCons(b0: int, b1: int, b2: int, tail: seq<int>)
    requires Uri.IsByte(b0) && Uri.IsByte(b1) && Uri.IsByte(b2) && Uri.AllBytes(tail)
    ensures Uri.AllBytes([b0, b1, b2] + tail)
    ensures Base64Url([b0, b1, b2] + tail)
      == [Base64UrlDigit(b0 / 4), Base64UrlDigit((b0 % 4) * 16 + b1 / 16),
          Base64UrlDigit((b1 % 16) * 4 + b2 / 64), Base64UrlDigit(b2 % 64)] + Base64Url(tail)
  {
    var bs := [b0, b1, b2] + tail;
    assert bs[0] == b0 && bs[1] == b1 && bs[2] == b2 && bs[3..] == tail;
  }

  /** A leading group whose characters carry the 6-bit pieces of three bytes decodes to those bytes. */
  lemma Base64UrlDecodeBytes(s: string, b0: int, b1: int, b2: int)
    requires Uri.IsByte(b0) && Uri.IsByte(b1) && Uri.IsByte(b2) && |s| >= 4
    requires Base64UrlValue(s[0]) == b0 / 4 && Base64UrlValue(s[1]) == (b0 % 4) * 16 + b1 / 16
    requires Base64UrlValue(s[2]) == (b1 % 16) * 4 + b2 / 64 && Base64UrlValue(s[3]) == b2 % 64
    ensures Base64UrlDecode(s) == [b0, b1, b2] + Base64UrlDecode(s[4..])
  {
    Base64UrlDecodeGroup(s, b0 / 4, (b0 % 4) * 16 + b1 / 16, (b1 % 16) * 4 + b2 / 64, b2 % 64);
    Base64UrlGroup(b0, b1, b2);
  }

  lemma Base64UrlGroupRoundTrip(b0: int, b1: int, b2: int, tail: seq<int>)
    requires Uri.IsByte(b0) && Uri.IsByte(b1) && Uri.IsByte(b2) && Uri.AllBytes(tail)
    requires Base64UrlDecode(Base64Url(tail)) == tail
    ensures Uri.AllBytes([b0, b1, b2] + tail)
    ensures Base64UrlDecode(Base64Url([b0, b1, b2] + tail)) == [b0, b1, b2] + tail
  {
    Base64UrlCons(b0, b1, b2, tail);
    var s := Base64Url([b0, b1, b2] + tail);
    assert s[4..] == Base64Url(tail);
    Base64UrlDecodeBytes(s, b0, b1, b2);
  }

  /** `base64url` loses nothing: the bytes can be read back from the text. */
  lemma {:induction false} Base64UrlRoundTrip(bs: seq<int>)
    requires Uri.AllBytes(bs)
    ensures Base64UrlDecode(Base64Url(bs)) == bs
  {
    if |bs| < 3 {
      Base64UrlShortRoundTrip(bs);
    } else {
      Base64UrlRoundTrip(bs[3..]);
      Base64UrlGroupRoundTrip(bs[0], bs[1], bs[2], bs[3..]);
      assert bs == [bs[0], bs[1], bs[2]] + bs[3..];
    }
  }

  /** A verifier made from 32 random bytes is 43 characters long, inside the 43-128 range of RFC 7636, section 4.1. */
  lemma VerifierLength(bs: seq<int>)
    requires |bs| == 32 && Uri.AllBytes(bs)
    ensures |Base64Url(bs)| == 43
  {
  }

  /** A state made from 16 random bytes is 32 lower-case hexadecimal characters. */
  lemma StateLength(bs: seq<int>)
    requires |bs| == 16 && Uri.AllBytes(bs)
    ensures |Hex(bs)| == 32
  {
  }
}
