/**
 * The one-letter avatar: the first character of the trimmed name, upper-cased,
 * or `?` when the name is blank. The group panel's initial-type avatars use
 * the same rule.
 */
module Avatar {
  import opened JsText

  /** `name.trim()[0]?.toUpperCase() ?? '?'`. */
  function Initial(name: string): (r: string)
    ensures |r| == 1
  {
    var s := Trim(name);
    if s == [] then "?" else [UpperChar(s[0])]
  }

  /** A blank name, empty or white space only, gives `?`. */
  lemma BlankName(name: string)
    requires AllSpace(name)
    ensures Initial(name) == "?"
  {
    TrimEmptyIffAllSpace(name);
  }

  /**
   * Otherwise the initial is the first character that is not white space,
   * upper-cased: leading white space never becomes the initial.
   */
  lemma FirstVisibleCharacter(name: string, k: nat)
    requires k < |name| && AllSpace(name[..k]) && !IsSpace(name[k])
    ensures Initial(name) == [UpperChar(name[k])]
  {
    TrimFirst(name, k);
  }
}
