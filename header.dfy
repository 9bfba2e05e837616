/**
 * The header's user badge: the name shown (`displayName`, else the e-mail,
 * else a dash) and the initials drawn from it.
 */
module Header {
  import opened JsText
  import opened Json
  import opened Wrappers

  const Dash: string := "—"

  /** `getInitials(nameOrEmail)`. */
  function GetInitials(nameOrEmail: string): (r: string)
    ensures 1 <= |r| <= 2
  {
    var s := Trim(nameOrEmail);
    if s == [] then Dash
    else if '@' in s then [UpperChar(s[0])]
    else
      var parts := Words(s);
      var first := if |parts| > 0 then [parts[0][0]] else [];
      var last := if |parts| > 1 then [parts[|parts| - 1][0]] else [];
      var u := Upper(first + last);
      if u == [] then Dash else u
  }

  /** A character that is not white space is in a string exactly when it is in its trim. */
  lemma NonSpaceSurvivesTrim(s: string, c: char)
    requires !IsSpace(c)
    ensures c in s <==> c in Trim(s)
  {
    NonSpaceSurvivesTrimStart(s, c);
    NonSpaceSurvivesTrimEnd(TrimStart(s), c);
  }

  lemma {:induction false} NonSpaceSurvivesTrimStart(s: string, c: char)
    requires !IsSpace(c)
    ensures c in s <==> c in TrimStart(s)
    decreases |s|
  {
    if s != [] && IsSpace(s[0]) {
      NonSpaceSurvivesTrimStart(s[1..], c);
      InTail(s, c);
    }
  }

  lemma {:induction false} NonSpaceSurvivesTrimEnd(s: string, c: char)
    requires !IsSpace(c)
    ensures c in s <==> c in TrimEnd(s)
    decreases |s|
  {
    if s != [] && IsSpace(s[|s| - 1]) {
      NonSpaceSurvivesTrimEnd(s[..|s| - 1], c);
      InFront(s, c);
    }
  }

  /** Dropping a first character other than `c` keeps whether `c` occurs. */
  lemma InTail(s: string, c: char)
    requires s != [] && s[0] != c
    ensures c in s <==> c in s[1..]
  {
    assert s == [s[0]] + s[1..];
  }

  /** Dropping a last character other than `c` keeps whether `c` occurs. */
  lemma InFront(s: string, c: char)
    requires s != [] && s[|s| - 1] != c
    ensures c in s <==> c in s[..|s| - 1]
  {
    assert s == s[..|s| - 1] + [s[|s| - 1]];
  }

  /** A blank input, empty or white space only, gives a dash. */
  lemma InitialsOfBlank(nameOrEmail: string)
    requires AllSpace(nameOrEmail)
    ensures GetInitials(nameOrEmail) == Dash
  {
    TrimEmptyIffAllSpace(nameOrEmail);
  }

  /** An input holding an `@` gives its first visible character, upper-cased. */
  lemma InitialsOfEmail(nameOrEmail: string, k: nat)
    requires k < |nameOrEmail| && AllSpace(nameOrEmail[..k]) && !IsSpace(nameOrEmail[k])
    requires '@' in nameOrEmail
    ensures GetInitials(nameOrEmail) == [UpperChar(nameOrEmail[k])]
  {
    TrimFirst(nameOrEmail, k);
    NonSpaceSurvivesTrim(nameOrEmail, '@');
  }

  /**
   * Otherwise the initials are the first letter of the first word, then the
   * first letter of the last word when there are at least two words, each
   * upper-cased: one character for one word, two for more.
   */
  lemma InitialsOfName(nameOrEmail: string, k: nat)
    requires k < |nameOrEmail| && AllSpace(nameOrEmail[..k]) && !IsSpace(nameOrEmail[k])
    requires '@' !in nameOrEmail
    ensures var ws := Words(Trim(nameOrEmail)); var r := GetInitials(nameOrEmail);
      ws != [] && |r| == (if |ws| == 1 then 1 else 2)
      && r[0] == UpperChar(ws[0][0])
      && (|ws| > 1 ==> r[1] == UpperChar(ws[|ws| - 1][0]))
  {
    TrimFirst(nameOrEmail, k);
    NonSpaceSurvivesTrim(nameOrEmail, '@');
    WordsHead(Trim(nameOrEmail));
  }

  /** A string-valued field of the signed-in user; `null`, `undefined` and a missing user give nothing. */
  function TextField(me: Json, key: string): (v: Option<string>)
    ensures v.Some? <==> me.JObj? && key in me.fields && me.fields[key].JStr?
  {
    match Prop(Defined(me), key)
    case Defined(JStr(s)) => Some(s)
    case _ => None
  }

  /** `me?.displayName ?? me?.email ?? '—'`. */
  function DisplayName(me: Json): string {
    if TextField(me, "displayName").Some? then TextField(me, "displayName").value
    else if TextField(me, "email").Some? then TextField(me, "email").value
    else Dash
  }

  /** Only a missing name falls back: an empty `displayName` is kept as it is, and the e-mail is used only without one. */
  lemma DisplayNameFallback(me: Json)
    ensures me.JObj? && "displayName" in me.fields && me.fields["displayName"].JStr? ==>
      DisplayName(me) == me.fields["displayName"].s
    ensures TextField(me, "displayName").None? && me.JObj? && "email" in me.fields && me.fields["email"].JStr? ==>
      DisplayName(me) == me.fields["email"].s
    ensures TextField(me, "displayName").None? && TextField(me, "email").None? ==> DisplayName(me) == Dash
  {
  }
}
