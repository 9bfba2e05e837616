/**
 * Reading the user's profile out of an ID token without checking it: the
 * payload is the second `.`-separated segment of the JWS compact
 * serialization (RFC 7515, section 7.1), base64url text (RFC 4648,
 * section 5) holding a JSON object of claims. Only four claims are kept,
 * each only when it is a string.
 */
module IdToken {
  import opened Wrappers
  import opened Json

  // ---------------------------------------------------------------------------
  // `token.split(".")`.

  /** `s.split(sep)` for a one-character separator: the pieces between separators, empty ones included. */
  function Split(s: string, sep: char): (parts: seq<string>)
    ensures |parts| >= 1
    decreases |s|
  {
    if s == [] then [[]]
    else
      var rest := Split(s[1..], sep);
      if s[0] == sep then [[]] + rest else [[s[0]] + rest[0]] + rest[1..]
  }

  /** `parts.join(sep)`. */
  function Join(parts: seq<string>, sep: char): string
    requires |parts| >= 1
  {
    if |parts| == 1 then parts[0] else parts[0] + [sep] + Join(parts[1..], sep)
  }

  /** Splitting loses nothing: joining the pieces with the separator gives the text back. */
  lemma {:induction false} JoinSplit(s: string, sep: char)
    ensures Join(Split(s, sep), sep) == s
  {
    if s != [] {
      var rest := Split(s[1..], sep);
      JoinSplit(s[1..], sep);
      if s[0] == sep {
        assert ([[]] + rest)[1..] == rest;
        assert s == [sep] + s[1..];
      } else {
        var parts := [[s[0]] + rest[0]] + rest[1..];
        if |rest| == 1 {
          assert s == [s[0]] + rest[0];
        } else {
          assert parts[1..] == rest[1..];
          assert s == [s[0]] + (rest[0] + [sep] + Join(rest[1..], sep));
        }
      }
    }
  }

  /** No piece contains the separator. */
  lemma {:induction false} SplitPiecesFree(s: string, sep: char)
    ensures forall i :: 0 <= i < |Split(s, sep)| ==> sep !in Split(s, sep)[i]
  {
    if s != [] {
      SplitPiecesFree(s[1..], sep);
      var rest := Split(s[1..], sep);
      if s[0] != sep {
        var parts := [[s[0]] + rest[0]] + rest[1..];
        forall i | 0 <= i < |parts|
          ensures sep !in parts[i]
        {
          if i > 0 {
            assert parts[i] == rest[i];
          }
        }
      } else {
        var parts := [[]] + rest;
        forall i | 0 <= i < |parts|
          ensures sep !in parts[i]
        {
          if i > 0 {
            assert parts[i] == rest[i - 1];
          }
        }
      }
    }
  }

  /** There are at least two pieces exactly when the separator occurs. */
  lemma {:induction false} SplitTwoPieces(s: string, sep: char)
    ensures |Split(s, sep)| >= 2 <==> sep in s
  {
    if s != [] {
      SplitTwoPieces(s[1..], sep);
      assert s == [s[0]] + s[1..];
    }
  }

  // ---------------------------------------------------------------------------
  // The payload and its claims.

  /** `Buffer.from(segment, "base64url").toString("utf-8")`: a library decoder, which does not throw. */
  type SegmentDecoder = string -> string

  /** `JSON.parse`, with `None` where it throws. */
  type Parser = string -> Option<Json>

  /** `decodeJwtPayload`: the parsed second segment, or `None` without one or when it does not parse. */
  function DecodeJwtPayload(token: string, decode: SegmentDecoder, parse: Parser): Option<Json> {
    var parts := Split(token, '.');
    if |parts| < 2 then None else parse(decode(parts[1]))
  }

  datatype User = User(sub: Option<string>, email: Option<string>, name: Option<string>, picture: Option<string>)

  /** `typeof p[key] === "string" ? p[key] : undefined`. */
  function StringClaim(p: Json, key: string): Option<string> {
    match Prop(Defined(p), key)
    case Defined(JStr(s)) => Some(s)
    case _ => None
  }

  /** The display name: `name`, else `given_name` with `" " + family_name` appended when that is a string. */
  function NameClaim(p: Json): Option<string> {
    if StringClaim(p, "name").Some? then StringClaim(p, "name")
    else if StringClaim(p, "given_name").Some? then
      var family := StringClaim(p, "family_name");
      Some(StringClaim(p, "given_name").value + (if family.Some? then " " + family.value else ""))
    else None
  }

  /** The user made from a payload the `!p` test let through. */
  function UserOf(p: Json): User {
    User(StringClaim(p, "sub"), StringClaim(p, "email"), NameClaim(p), StringClaim(p, "picture"))
  }

  /** `getUserFromIdToken`. */
  function GetUserFromIdToken(token: string, decode: SegmentDecoder, parse: Parser): Option<User> {
    var p := DecodeJwtPayload(token, decode, parse);
    if p.None? || !Truthy(Defined(p.value)) then None else Some(UserOf(p.value))
  }

  // ---------------------------------------------------------------------------
  // Properties.

  /** A token without a `.` has fewer than two segments and gives no user. */
  lemma NoSecondSegment(token: string, decode: SegmentDecoder, parse: Parser)
    requires '.' !in token
    ensures GetUserFromIdToken(token, decode, parse) == None
  {
    SplitTwoPieces(token, '.');
  }

  /** A payload that does not parse gives no user. */
  lemma UnparsablePayload(token: string, decode: SegmentDecoder, parse: Parser)
    requires |Split(token, '.')| >= 2
    requires parse(decode(Split(token, '.')[1])).None?
    ensures GetUserFromIdToken(token, decode, parse) == None
  {
  }

  /** Only the second segment is read: tokens that share it give the same user, whatever their other segments. */
  lemma OnlySecondSegment(t1: string, t2: string, decode: SegmentDecoder, parse: Parser)
    requires |Split(t1, '.')| >= 2 && |Split(t2, '.')| >= 2
    requires Split(t1, '.')[1] == Split(t2, '.')[1]
    ensures GetUserFromIdToken(t1, decode, parse) == GetUserFromIdToken(t2, decode, parse)
  {
  }

  /** `sub`, `email` and `picture` are copied exactly when they are strings. */
  lemma StringClaimsCopied(p: Json)
    ensures forall key :: key in ["sub", "email", "picture"] ==>
      var v := (if key == "sub" then UserOf(p).sub else if key == "email" then UserOf(p).email else UserOf(p).picture);
      (v.Some? <==> p.JObj? && key in p.fields && p.fields[key].JStr?)
      && (v.Some? ==> v.value == p.fields[key].s)
  {
  }

  /** A string `name` claim is the name. */
  lemma NameWins(p: Json, name: string)
    requires p.JObj? && "name" in p.fields && p.fields["name"] == JStr(name)
    ensures UserOf(p).name == Some(name)
  {
  }

  /** Without a string `name`, a string `given_name` is the name, followed by a space and `family_name` when that is a string. */
  lemma NameFromGivenName(p: Json, given: string)
    requires StringClaim(p, "name").None?
    requires p.JObj? && "given_name" in p.fields && p.fields["given_name"] == JStr(given)
    ensures StringClaim(p, "family_name").Some? ==> UserOf(p).name == Some(given + " " + p.fields["family_name"].s)
    ensures StringClaim(p, "family_name").None? ==> UserOf(p).name == Some(given)
  {
    assert StringClaim(p, "given_name") == Some(given);
    if StringClaim(p, "family_name").Some? {
      var f := StringClaim(p, "family_name").value;
      assert f == p.fields["family_name"].s;
      assert given + " " + f == given + (" " + f);
    } else {
      assert given + "" == given;
    }
  }

  /** `family_name` alone never makes a name. */
  lemma FamilyNameAlone(p: Json)
    requires StringClaim(p, "name").None? && StringClaim(p, "given_name").None?
    ensures UserOf(p).name.None?
  {
  }

  /** Every other claim is dropped: payloads that agree on the six claims read give the same user. */
  lemma OnlyFourClaims(p1: Json, p2: Json)
    requires forall key :: key in ["sub", "email", "name", "given_name", "family_name", "picture"] ==>
      StringClaim(p1, key) == StringClaim(p2, key)
    ensures UserOf(p1) == UserOf(p2)
  {
    assert StringClaim(p1, "sub") == StringClaim(p2, "sub");
    assert StringClaim(p1, "email") == StringClaim(p2, "email");
    assert StringClaim(p1, "name") == StringClaim(p2, "name");
    assert StringClaim(p1, "given_name") == StringClaim(p2, "given_name");
    assert StringClaim(p1, "family_name") == StringClaim(p2, "family_name");
    assert StringClaim(p1, "picture") == StringClaim(p2, "picture");
  }

  /** A falsy payload (`null`, `false`, `0`, `""`) gives no user; any other payload gives one. */
  lemma FalsyPayload(token: string, decode: SegmentDecoder, parse: Parser)
    requires DecodeJwtPayload(token, decode, parse).Some?
    ensures GetUserFromIdToken(token, decode, parse).Some? <==> Truthy(Defined(DecodeJwtPayload(token, decode, parse).value))
  {
  }
}
