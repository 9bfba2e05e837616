/**
 * The button's class list: `cn` keeps the truthy class names in order and
 * joins them with single spaces; the button puts its base classes first, then
 * the variant's, the size's and the caller's.
 */
module Button {
  import opened Wrappers
  import IdToken

  /** A `cn` argument: a string, or `false`/`null`/`undefined` (`None`). */
  type ClassArg = Option<string>

  /** The arguments `filter(Boolean)` keeps: the non-empty strings, in order. */
  function Kept(classes: seq<ClassArg>): (ks: seq<string>)
    ensures forall i :: 0 <= i < |ks| ==> ks[i] != []
    ensures |ks| <= |classes|
  {
    if classes == [] then []
    else if classes[0].Some? && classes[0].value != [] then [classes[0].value] + Kept(classes[1..])
    else Kept(classes[1..])
  }

  /** `cn(...classes)`: `classes.filter(Boolean).join(' ')`. */
  function Cn(classes: seq<ClassArg>): string {
    var ks := Kept(classes);
    if ks == [] then [] else IdToken.Join(ks, ' ')
  }

  /** `Kept` drops exactly the falsy arguments: removing one changes nothing, keeping one puts it in front. */
  lemma KeptCases(c: ClassArg, rest: seq<ClassArg>)
    ensures c.None? || c.value == [] ==> Kept([c] + rest) == Kept(rest)
    ensures c.Some? && c.value != [] ==> Kept([c] + rest) == [c.value] + Kept(rest)
  {
    assert ([c] + rest)[1..] == rest;
  }

  /** `s[i]` splits `s` into the piece before it and the rest. */
  lemma {:induction false} SplitAtSeparator(a: string, b: string, sep: char)
    requires sep !in a
    ensures IdToken.Split(a + [sep] + b, sep) == [a] + IdToken.Split(b, sep)
    decreases |a|
  {
    if a == [] {
      assert [] + [sep] + b == [sep] + b;
      assert ([sep] + b)[1..] == b;
    } else {
      SplitAtSeparator(a[1..], b, sep);
      assert (a + [sep] + b)[1..] == a[1..] + [sep] + b;
      assert [a[0]] + a[1..] == a;
    }
  }

  /** A piece without the separator splits to itself alone. */
  lemma {:induction false} SplitOfPlain(a: string, sep: char)
    requires sep !in a
    ensures IdToken.Split(a, sep) == [a]
    decreases |a|
  {
    if a != [] {
      SplitOfPlain(a[1..], sep);
      assert [a[0]] + a[1..] == a;
    }
  }

  /** Joining pieces that do not contain the separator is undone by splitting. */
  lemma {:induction false} SplitOfJoin(parts: seq<string>, sep: char)
    requires |parts| >= 1 && forall i :: 0 <= i < |parts| ==> sep !in parts[i]
    ensures IdToken.Split(IdToken.Join(parts, sep), sep) == parts
    decreases |parts|
  {
    if |parts| == 1 {
      SplitOfPlain(parts[0], sep);
    } else {
      SplitOfJoin(parts[1..], sep);
      SplitAtSeparator(parts[0], IdToken.Join(parts[1..], sep), sep);
    }
  }

  /** Class names without spaces come back out of the joined list one by one, in order and with the falsy ones gone. */
  lemma CnRoundTrip(classes: seq<ClassArg>)
    requires Kept(classes) != []
    requires forall i :: 0 <= i < |Kept(classes)| ==> ' ' !in Kept(classes)[i]
    ensures IdToken.Split(Cn(classes), ' ') == Kept(classes)
  {
    SplitOfJoin(Kept(classes), ' ');
  }

  datatype Variant = Primary | Secondary | Ghost
  datatype Size = Sm | Md | Lg | IconSize

  /** The Tailwind class texts: the base classes and one text per variant and per size, each non-empty. */
  datatype Styles = Styles(base: string, variants: Variant -> string, sizes: Size -> string)

  predicate WellFormed(st: Styles) {
    st.base != [] && (forall v :: st.variants(v) != []) && (forall z :: st.sizes(z) != [])
  }

  /** The rendered button's `type` and `className`; `None` is a prop not given. */
  datatype Rendered = Rendered(buttonType: string, className: string)

  function RenderButton(st: Styles, variant: Option<Variant>, size: Option<Size>, buttonType: Option<string>, className: ClassArg): Rendered {
    Rendered(buttonType.GetOr("button"),
             Cn([Some(st.base), Some(st.variants(variant.GetOr(Secondary))), Some(st.sizes(size.GetOr(Md))), className]))
  }

  /** Three non-empty leading classes and an optional last one join in that order. */
  lemma CnOfFour(a: string, b: string, c: string, d: ClassArg)
    requires a != [] && b != [] && c != []
    ensures Cn([Some(a), Some(b), Some(c), d]) ==
      a + " " + b + " " + c + (if d.Some? && d.value != [] then " " + d.value else "")
  {
    var xs := [Some(a), Some(b), Some(c), d];
    KeptCases(Some(a), xs[1..]);
    KeptCases(Some(b), xs[2..]);
    KeptCases(Some(c), xs[3..]);
    KeptCases(d, []);
    assert xs[1..] == [Some(b)] + xs[2..];
    assert xs == [Some(a)] + xs[1..];
    assert xs[2..] == [Some(c)] + xs[3..];
    assert xs[3..] == [d] + [];
    var ks := Kept(xs);
    if d.Some? && d.value != [] {
      assert ks == [a, b, c, d.value];
      JoinOfFour(a, b, c, d.value);
    } else {
      assert ks == [a, b, c];
      JoinOfThree(a, b, c);
    }
  }

  lemma JoinOfThree(a: string, b: string, c: string)
    ensures IdToken.Join([a, b, c], ' ') == a + " " + b + " " + c + ""
  {
    var ps := [a, b, c];
    assert ps[1..] == [b, c] && ps[1..][1..] == [c];
    assert IdToken.Join([b, c], ' ') == b + [' '] + c;
    assert IdToken.Join(ps, ' ') == a + [' '] + (b + [' '] + c);
  }

  lemma JoinOfFour(a: string, b: string, c: string, d: string)
    ensures IdToken.Join([a, b, c, d], ' ') == a + " " + b + " " + c + " " + d
  {
    var ps := [a, b, c, d];
    assert ps[1..] == [b, c, d] && ps[1..][1..] == [c, d] && ps[1..][1..][1..] == [d];
    assert IdToken.Join([c, d], ' ') == c + [' '] + d;
    assert IdToken.Join([b, c, d], ' ') == b + [' '] + (c + [' '] + d);
    assert IdToken.Join(ps, ' ') == a + [' '] + (b + [' '] + (c + [' '] + d));
  }

  /**
   * Without props the button is a `secondary`, `md` button of type
   * `button`; the classes come base first, then variant, size and the
   * caller's, the last only when it is a non-empty string.
   */
  lemma ButtonDefaults(st: Styles, variant: Option<Variant>, size: Option<Size>, buttonType: Option<string>, className: ClassArg)
    requires WellFormed(st)
    ensures var r := RenderButton(st, variant, size, buttonType, className);
      r.buttonType == (if buttonType.Some? then buttonType.value else "button")
      && r.className == st.base + " " + st.variants(if variant.Some? then variant.value else Secondary)
           + " " + st.sizes(if size.Some? then size.value else Md)
           + (if className.Some? && className.value != [] then " " + className.value else "")
  {
    CnOfFour(st.base, st.variants(variant.GetOr(Secondary)), st.sizes(size.GetOr(Md)), className);
  }
}
