/**
 * Percent-encoding as the application uses it: ECMAScript's
 * `encodeURIComponent` and `decodeURIComponent` (UTF-8 based, the latter
 * failing with a URIError on malformed input), and the
 * application/x-www-form-urlencoded serializer that `URLSearchParams`
 * uses when a URL is turned into text (WHATWG URL Standard, section 5.2).
 * Characters are Unicode scalar values; bytes are integers in [0, 256).
 */
module Uri {
  import opened Wrappers
  import JsText

  predicate IsByte(b: int) {
    0 <= b < 256
  }

  predicate AllBytes(bs: seq<int>) {
    forall i :: 0 <= i < |bs| ==> IsByte(bs[i])
  }

  /** The UTF-8 encoding of one scalar value (RFC 3629, section 3). */
  function Utf8(c: char): (bs: seq<int>)
    ensures 1 <= |bs| <= 4 && AllBytes(bs)
    ensures |bs| == 1 <==> c as int < 0x80
  {
    var cp := c as int;
    if cp < 0x80 then [cp]
    else if cp < 0x800 then [0xC0 + cp / 64, 0x80 + cp % 64]
    else if cp < 0x10000 then [0xE0 + cp / 4096, 0x80 + (cp / 64) % 64, 0x80 + cp % 64]
    else [0xF0 + cp / 262144, 0x80 + (cp / 4096) % 64, 0x80 + (cp / 64) % 64, 0x80 + cp % 64]
  }

  /** The UTF-8 encoding of a string. */
  function Utf8String(s: string): (bs: seq<int>)
    ensures AllBytes(bs)
  {
    if s == [] then [] else Utf8(s[0]) + Utf8String(s[1..])
  }

  function HexDigitUpper(d: int): (c: char)
    requires 0 <= d < 16
    ensures IsComponentSafe(c) && HexValue(c) == d
  {
    if d < 10 then ('0' as int + d) as char else ('A' as int + d - 10) as char
  }

  /** The value of a hexadecimal digit of either case, or -1 for any other character. */
  function HexValue(c: char): (v: int)
    ensures -1 <= v < 16
  {
    if '0' <= c <= '9' then c as int - '0' as int
    else if 'A' <= c <= 'F' then c as int - 'A' as int + 10
    else if 'a' <= c <= 'f' then c as int - 'a' as int + 10
    else -1
  }

  /** `%XX` with upper-case hexadecimal digits. */
  function Escape(b: int): (e: string)
    requires IsByte(b)
    ensures |e| == 3 && e[0] == '%' && IsComponentSafe(e[1]) && IsComponentSafe(e[2])
    ensures HexValue(e[1]) >= 0 && HexValue(e[2]) >= 0 && HexValue(e[1]) * 16 + HexValue(e[2]) == b
  {
    ['%', HexDigitUpper(b / 16), HexDigitUpper(b % 16)]
  }

  function EscapeAll(bs: seq<int>): (e: string)
    requires AllBytes(bs)
    ensures |e| == 3 * |bs|
  {
    if bs == [] then [] else Escape(bs[0]) + EscapeAll(bs[1..])
  }

  /** The characters `encodeURIComponent` leaves as they are: letters, digits and `-_.!~*'()`. */
  predicate IsComponentSafe(c: char) {
    ('A' <= c <= 'Z') || ('a' <= c <= 'z') || ('0' <= c <= '9')
    || c == '-' || c == '_' || c == '.' || c == '!' || c == '~' || c == '*' || c == '\'' || c == '(' || c == ')'
  }

  /** The characters that can appear in the output of `encodeURIComponent`. */
  predicate Encoded(s: string) {
    forall i :: 0 <= i < |s| ==> s[i] == '%' || IsComponentSafe(s[i])
  }

  function EncodeChar(c: char): (e: string)
    ensures e != []
  {
    if IsComponentSafe(c) then [c] else EscapeAll(Utf8(c))
  }

  /** ECMAScript `encodeURIComponent` (a Dafny string holds no lone surrogates, so it never throws). */
  function EncodeURIComponent(s: string): (e: string)
    ensures |e| >= |s|
  {
    if s == [] then [] else EncodeChar(s[0]) + EncodeURIComponent(s[1..])
  }

  /** Reads `n` consecutive `%XX` escapes at the start of `s`. */
  function EscapedBytes(s: string, n: nat): (r: Option<seq<int>>)
    ensures r.Some? ==> |r.value| == n && 3 * n <= |s| && AllBytes(r.value)
  {
    if n == 0 then Some([])
    else if |s| < 3 || s[0] != '%' || HexValue(s[1]) < 0 || HexValue(s[2]) < 0 then None
    else
      match EscapedBytes(s[3..], n - 1)
      case None => None
      case Some(rest) => Some([HexValue(s[1]) * 16 + HexValue(s[2])] + rest)
  }

  /** The length of the UTF-8 sequence that a lead byte announces, or 0 if it cannot start one. */
  function SequenceLength(b: int): (n: nat)
    ensures n <= 4
  {
    if b < 0x80 then 1
    else if 0xC0 <= b < 0xE0 then 2
    else if 0xE0 <= b < 0xF0 then 3
    else if 0xF0 <= b < 0xF8 then 4
    else 0
  }

  predicate IsContinuation(b: int) {
    0x80 <= b < 0xC0
  }

  /** Decodes one complete UTF-8 sequence; overlong forms, surrogates and values above U+10FFFF are rejected. */
  function Utf8Char(bs: seq<int>): (r: Option<char>)
    requires 1 <= |bs| <= 4 && AllBytes(bs)
  {
    if |bs| == 1 then
      if bs[0] < 0x80 then Some(bs[0] as char) else None
    else if !(forall i :: 1 <= i < |bs| ==> IsContinuation(bs[i])) then None
    else if |bs| == 2 then
      var cp := (bs[0] - 0xC0) * 64 + (bs[1] - 0x80);
      if 0xC0 <= bs[0] < 0xE0 && 0x80 <= cp then Some(cp as char) else None
    else if |bs| == 3 then
      var cp := (bs[0] - 0xE0) * 4096 + (bs[1] - 0x80) * 64 + (bs[2] - 0x80);
      if 0xE0 <= bs[0] < 0xF0 && 0x800 <= cp && !(0xD800 <= cp < 0xE000) then Some(cp as char) else None
    else
      var cp := (bs[0] - 0xF0) * 262144 + (bs[1] - 0x80) * 4096 + (bs[2] - 0x80) * 64 + (bs[3] - 0x80);
      if 0xF0 <= bs[0] < 0xF8 && 0x10000 <= cp <= 0x10FFFF then Some(cp as char) else None
  }

  function Cons(c: char, r: Option<string>): Option<string> {
    match r
    case None => None
    case Some(t) => Some([c] + t)
  }

  /** ECMAScript `decodeURIComponent`; `None` stands for the URIError it throws. */
  function DecodeURIComponent(s: string): (r: Option<string>)
    decreases |s|
  {
    if s == [] then Some([])
    else if s[0] != '%' then Cons(s[0], DecodeURIComponent(s[1..]))
    else
      match EscapedBytes(s, 1)
      case None => None
      case Some(lead) =>
        var n := SequenceLength(lead[0]);
        if n == 0 then None
        else
          match EscapedBytes(s, n)
          case None => None
          case Some(bs) =>
            match Utf8Char(bs)
            case None => None
            case Some(c) => Cons(c, DecodeURIComponent(s[3 * n..]))
  }

  lemma AppendAssoc<T>(a: seq<T>, b: seq<T>, c: seq<T>)
    ensures (a + b) + c == a + (b + c)
  {
  }

  /** One escape, read back, in front of `n - 1` further escapes. */
  lemma EscapedBytesOfEscape(b: int, tail: string, n: nat, r: seq<int>)
    requires IsByte(b) && n > 0 && EscapedBytes(tail, n - 1) == Some(r)
    ensures EscapedBytes(Escape(b) + tail, n) == Some([b] + r)
  {
    var e := Escape(b);
    var s := e + tail;
    assert s[0] == e[0] && s[1] == e[1] && s[2] == e[2];
    assert s[3..] == tail;
  }

  lemma EscapedBytesCons(bs: seq<int>, rest: string)
    requires AllBytes(bs) && bs != []
    requires EscapedBytes(EscapeAll(bs[1..]) + rest, |bs| - 1) == Some(bs[1..])
    ensures EscapedBytes(EscapeAll(bs) + rest, |bs|) == Some(bs)
  {
    calc {
      EscapedBytes(EscapeAll(bs) + rest, |bs|);
      == { EscapeAllHead(bs, rest); }
      EscapedBytes(Escape(bs[0]) + (EscapeAll(bs[1..]) + rest), |bs|);
      == { EscapedBytesOfEscape(bs[0], EscapeAll(bs[1..]) + rest, |bs|, bs[1..]); }
      Some([bs[0]] + bs[1..]);
      == { assert [bs[0]] + bs[1..] == bs; }
      Some(bs);
    }
  }

  /** The escapes of a non-empty byte sequence start with the escape of its first byte. */
  lemma EscapeAllHead(bs: seq<int>, rest: string)
    requires AllBytes(bs) && bs != []
    ensures EscapeAll(bs) + rest == Escape(bs[0]) + (EscapeAll(bs[1..]) + rest)
  {
    AppendAssoc(Escape(bs[0]), EscapeAll(bs[1..]), rest);
  }

  /** Reading back the escapes of a byte sequence gives the bytes back, whatever follows them. */
  lemma {:induction false} EscapedBytesOfEscapeAll(bs: seq<int>, rest: string)
    requires AllBytes(bs)
    ensures EscapedBytes(EscapeAll(bs) + rest, |bs|) == Some(bs)
  {
    if bs != [] {
      EscapedBytesOfEscapeAll(bs[1..], rest);
      EscapedBytesCons(bs, rest);
    }
  }

  lemma Utf8TwoBytes(cp: int)
    requires 0x80 <= cp < 0x800
    ensures var bs := [0xC0 + cp / 64, 0x80 + cp % 64];
      0xC0 <= bs[0] < 0xE0 && IsContinuation(bs[1]) && (bs[0] - 0xC0) * 64 + (bs[1] - 0x80) == cp
  {
  }

  lemma Utf8ThreeBytes(cp: int)
    requires 0x800 <= cp < 0x10000
    ensures var bs := [0xE0 + cp / 4096, 0x80 + (cp / 64) % 64, 0x80 + cp % 64];
      0xE0 <= bs[0] < 0xF0 && IsContinuation(bs[1]) && IsContinuation(bs[2])
      && (bs[0] - 0xE0) * 4096 + (bs[1] - 0x80) * 64 + (bs[2] - 0x80) == cp
  {
    var q := cp / 64;
    assert cp == q * 64 + cp % 64;
    assert q == (q / 64) * 64 + q % 64;
    assert q / 64 == cp / 4096;
  }

  lemma Utf8FourBytes(cp: int)
    requires 0x10000 <= cp < 0x110000
    ensures var bs := [0xF0 + cp / 262144, 0x80 + (cp / 4096) % 64, 0x80 + (cp / 64) % 64, 0x80 + cp % 64];
      0xF0 <= bs[0] < 0xF8 && IsContinuation(bs[1]) && IsContinuation(bs[2]) && IsContinuation(bs[3])
      && (bs[0] - 0xF0) * 262144 + (bs[1] - 0x80) * 4096 + (bs[2] - 0x80) * 64 + (bs[3] - 0x80) == cp
  {
    var q := cp / 64;
    var q2 := q / 64;
    assert cp == q * 64 + cp % 64;
    assert q == q2 * 64 + q % 64;
    assert q2 == (q2 / 64) * 64 + q2 % 64;
    assert q2 == cp / 4096;
    assert q2 / 64 == cp / 262144;
  }

  /** Decoding the UTF-8 encoding of a scalar value gives it back. */
  lemma Utf8CharRoundTrip(c: char)
    ensures SequenceLength(Utf8(c)[0]) == |Utf8(c)|
    ensures Utf8Char(Utf8(c)) == Some(c)
  {
    var cp := c as int;
    if cp < 0x80 {
    } else if cp < 0x800 {
      Utf8TwoBytes(cp);
    } else if cp < 0x10000 {
      Utf8ThreeBytes(cp);
    } else {
      Utf8FourBytes(cp);
    }
  }

  lemma DecodeEscapedStep(s: string, bs: seq<int>, c: char)
    requires |s| > 0 && s[0] == '%' && 1 <= |bs| <= 4 && AllBytes(bs)
    requires EscapedBytes(s, 1) == Some(bs[..1]) && EscapedBytes(s, |bs|) == Some(bs)
    requires SequenceLength(bs[0]) == |bs| && Utf8Char(bs) == Some(c)
    ensures 3 * |bs| <= |s| && DecodeURIComponent(s) == Cons(c, DecodeURIComponent(s[3 * |bs|..]))
  {
  }

  /** Fewer escapes can be read wherever more can. */
  lemma {:induction false} EscapedBytesPrefix(s: string, n: nat, m: nat)
    requires m <= n && EscapedBytes(s, n).Some?
    ensures EscapedBytes(s, m) == Some(EscapedBytes(s, n).value[..m])
  {
    if m > 0 {
      EscapedBytesPrefix(s[3..], n - 1, m - 1);
      var r := EscapedBytes(s[3..], n - 1).value;
      assert EscapedBytes(s, n).value == [HexValue(s[1]) * 16 + HexValue(s[2])] + r;
      assert ([HexValue(s[1]) * 16 + HexValue(s[2])] + r)[..m] == [HexValue(s[1]) * 16 + HexValue(s[2])] + r[..m - 1];
    }
  }

  /** Decoding the escapes of a complete UTF-8 sequence, followed by anything else. */
  lemma DecodeEscapes(bs: seq<int>, c: char, rest: string)
    requires 1 <= |bs| <= 4 && AllBytes(bs)
    requires SequenceLength(bs[0]) == |bs| && Utf8Char(bs) == Some(c)
    ensures DecodeURIComponent(EscapeAll(bs) + rest) == Cons(c, DecodeURIComponent(rest))
  {
    var s := EscapeAll(bs) + rest;
    EscapedBytesOfEscapeAll(bs, rest);
    EscapedBytesPrefix(s, |bs|, 1);
    assert s[0] == '%';
    DecodeEscapedStep(s, bs, c);
    assert s[3 * |bs|..] == rest;
  }

  /** Decoding one encoded character followed by anything else. */
  lemma DecodeEncodedChar(c: char, rest: string)
    ensures DecodeURIComponent(EncodeChar(c) + rest) == Cons(c, DecodeURIComponent(rest))
  {
    if IsComponentSafe(c) {
      assert ([c] + rest)[1..] == rest;
    } else {
      Utf8CharRoundTrip(c);
      DecodeEscapes(Utf8(c), c, rest);
    }
  }

  /** `decodeURIComponent(encodeURIComponent(s)) === s`. */
  lemma {:induction false} URIComponentRoundTrip(s: string)
    ensures DecodeURIComponent(EncodeURIComponent(s)) == Some(s)
  {
    if s != [] {
      DecodeEncodedChar(s[0], EncodeURIComponent(s[1..]));
      URIComponentRoundTrip(s[1..]);
      assert [s[0]] + s[1..] == s;
    }
  }

  lemma EncodedConcat(a: string, b: string)
    requires Encoded(a) && Encoded(b)
    ensures Encoded(a + b)
  {
    assert forall i :: |a| <= i < |a + b| ==> (a + b)[i] == b[i - |a|];
  }

  lemma {:induction false} EscapeAllEncoded(bs: seq<int>)
    requires AllBytes(bs)
    ensures Encoded(EscapeAll(bs))
  {
    if bs != [] {
      EscapeAllEncoded(bs[1..]);
      var e := Escape(bs[0]);
      assert Encoded(e) by {
        assert forall i :: 0 <= i < |e| ==> e[i] == e[0] || e[i] == e[1] || e[i] == e[2];
      }
      EncodedConcat(e, EscapeAll(bs[1..]));
    }
  }

  /** Every character of an encoded component is `%` or one that `encodeURIComponent` keeps. */
  lemma {:induction false} EncodedAlphabet(s: string)
    ensures Encoded(EncodeURIComponent(s))
  {
    if s != [] {
      EncodedAlphabet(s[1..]);
      if !IsComponentSafe(s[0]) {
        EscapeAllEncoded(Utf8(s[0]));
      }
      EncodedConcat(EncodeChar(s[0]), EncodeURIComponent(s[1..]));
    }
  }

  /** An encoded component never contains the `;` that separates cookies, nor `=`, `&` or a space. */
  lemma EncodedHasNoSeparators(s: string)
    ensures forall i :: 0 <= i < |EncodeURIComponent(s)| ==> EncodeURIComponent(s)[i] !in {';', '=', '&', ' '}
  {
    EncodedAlphabet(s);
  }

  /** Encoding works character by character, so it distributes over concatenation. */
  lemma {:induction false} EncodeConcat(a: string, b: string)
    ensures EncodeURIComponent(a + b) == EncodeURIComponent(a) + EncodeURIComponent(b)
  {
    if a == [] {
      assert a + b == b;
    } else {
      assert (a + b)[0] == a[0];
      assert (a + b)[1..] == a[1..] + b;
      EncodeConcat(a[1..], b);
    }
  }

  /** A string made only of kept characters is its own encoding. */
  lemma {:induction false} EncodeSafe(s: string)
    requires forall i :: 0 <= i < |s| ==> IsComponentSafe(s[i])
    ensures EncodeURIComponent(s) == s
  {
    if s != [] {
      EncodeSafe(s[1..]);
    }
  }

  lemma EncodeSlash()
    ensures EncodeURIComponent("/") == "%2F"
  {
    assert Utf8('/') == [47];
  }

  /** A two-segment absolute path whose segments need no escaping: only its slashes are escaped. */
  lemma EncodeTwoSegmentPath(a: string, b: string)
    requires forall i :: 0 <= i < |a| ==> IsComponentSafe(a[i])
    requires forall i :: 0 <= i < |b| ==> IsComponentSafe(b[i])
    ensures EncodeURIComponent("/" + a + "/" + b) == "%2F" + a + "%2F" + b
  {
    EncodeSlash();
    EncodeSafe(a);
    EncodeSafe(b);
    EncodeConcat("/" + a + "/", b);
    EncodeConcat("/" + a, "/");
    EncodeConcat("/", a);
  }

  /** The path `/group/abc` is sent as `%2Fgroup%2Fabc`. */
  lemma EncodeGroupPath()
    ensures EncodeURIComponent("/group/abc") == "%2Fgroup%2Fabc"
  {
    EncodeTwoSegmentPath("group", "abc");
    GroupPathJoins();
  }

  /** The path and its encoding, spelled as the joins of their pieces. */
  lemma GroupPathJoins()
    ensures "/" + "group" + "/" + "abc" == "/group/abc"
    ensures "%2F" + "group" + "%2F" + "abc" == "%2Fgroup%2Fabc"
  {
    assert "/" + "group" + "/" + "abc" == "/group/abc";
  }

  /**
   * What the URL parser does to a query string made of `encodeURIComponent`
   * output: of the characters that output may contain, only `'` is in the
   * special-query percent-encode set, so it alone is escaped again.
   */
  function QueryReencode(q: string): (r: string)
    ensures '\'' !in q ==> r == q
    ensures '\'' !in r
  {
    if q == [] then [] else (if q[0] == '\'' then "%27" else [q[0]]) + QueryReencode(q[1..])
  }

  /** The byte serializer of application/x-www-form-urlencoded: space becomes `+`, `*-._` and alphanumerics stay. */
  function FormEncodeBytes(bs: seq<int>): (r: string)
    requires AllBytes(bs)
    ensures forall i :: 0 <= i < |r| ==> r[i] != '&' && r[i] != '=' && r[i] != ' '
  {
    if bs == [] then []
    else
      var b := bs[0];
      var head :=
        if b == 0x20 then "+"
        else if b == 0x2A || b == 0x2D || b == 0x2E || b == 0x5F
             || (0x30 <= b <= 0x39) || (0x41 <= b <= 0x5A) || (0x61 <= b <= 0x7A) then [b as char]
        else Escape(b);
      head + FormEncodeBytes(bs[1..])
  }

  function FormEncode(s: string): (r: string)
    ensures '&' !in r && '=' !in r
  {
    FormEncodeBytes(Utf8String(s))
  }

  /** `URLSearchParams.toString()`: `name=value` pairs joined by `&`. */
  function FormSerialize(ps: seq<(string, string)>): string {
    if ps == [] then []
    else
      FormEncode(ps[0].0) + "=" + FormEncode(ps[0].1) + (if |ps| == 1 then "" else "&" + FormSerialize(ps[1..]))
  }

}
