/**
 * The login panel's client state: the two steps (`email`, then `otp`), the
 * e-mail field, the `loading` flag and the six one-digit slots of the code.
 * Focus movement and rendering are left out; each handler is a method over
 * the panel's state.
 */
module LoginPanel {
  import opened JsText

  // ---------------------------------------------------------------------------
  // `isValidEmail`: the test `/^[^\s@]+@[^\s@]+\.[^\s@]+$/`.

  /** Every character in `s[lo..hi]` matches `[^\s@]`. */
  predicate PlainRange(s: string, lo: nat, hi: nat)
    requires lo <= hi <= |s|
  {
    forall j :: lo <= j < hi ==> !IsSpace(s[j]) && s[j] != '@'
  }

  /**
   * The regular expression matches the whole string: it splits at an `@`
   * (position `i`) and a later `.` (position `k`) into three non-empty runs
   * of characters that are neither white space nor `@`.
   */
  predicate IsValidEmail(s: string) {
    exists i: nat, k: nat :: 0 < i && i + 1 < k && k + 1 < |s| && s[i] == '@' && s[k] == '.'
      && PlainRange(s, 0, i) && PlainRange(s, i + 1, k) && PlainRange(s, k + 1, |s|)
  }

  /** `s[i]` is the only `@` in `s`. */
  predicate OnlyAt(s: string, i: nat) {
    forall j :: 0 <= j < |s| && j != i ==> s[j] != '@'
  }

  /**
   * The same test in words: no white space and exactly one `@`, a non-empty
   * part before it, and a `.` after it that is neither the first nor the
   * last character of the part after the `@`.
   */
  predicate EmailConditions(s: string) {
    NoSpace(s)
    && (exists i: nat :: 0 < i < |s| && s[i] == '@' && OnlyAt(s, i)
         && exists k: nat :: i + 1 < k < |s| - 1 && s[k] == '.')
  }

  lemma EmailValidIffConditions(s: string)
    ensures IsValidEmail(s) <==> EmailConditions(s)
  {
    if IsValidEmail(s) {
      var i: nat, k: nat :| 0 < i && i + 1 < k && k + 1 < |s| && s[i] == '@' && s[k] == '.'
        && PlainRange(s, 0, i) && PlainRange(s, i + 1, k) && PlainRange(s, k + 1, |s|);
      forall j | 0 <= j < |s|
        ensures !IsSpace(s[j]) && (j != i ==> s[j] != '@')
      {
        if j < i {
        } else if j == i {
        } else if j < k {
        } else if j == k {
        } else {
        }
      }
      assert OnlyAt(s, i);
      assert i + 1 < k < |s| - 1 && s[k] == '.';
    }
    if EmailConditions(s) {
      var i: nat :| 0 < i < |s| && s[i] == '@' && OnlyAt(s, i)
        && exists k: nat :: i + 1 < k < |s| - 1 && s[k] == '.';
      var k: nat :| i + 1 < k < |s| - 1 && s[k] == '.';
      assert PlainRange(s, 0, i) && PlainRange(s, i + 1, k) && PlainRange(s, k + 1, |s|);
    }
  }

  /** What the send button and `onSendLink` test: the trimmed, lower-cased field. */
  function Normalized(email: string): (n: string)
    ensures |n| <= |email|
  {
    Lower(Trim(email))
  }

  /** The normalized field is empty exactly when the field is blank, and holds no ASCII capital. */
  lemma NormalizedShape(email: string)
    ensures Normalized(email) == [] <==> AllSpace(email)
    ensures forall i :: 0 <= i < |Normalized(email)| ==> !IsAsciiUpper(Normalized(email)[i])
  {
    TrimEmptyIffAllSpace(email);
  }

  // ---------------------------------------------------------------------------
  // The six code slots.

  /** A slot holds nothing or one ASCII digit. */
  predicate IsSlot(d: string) {
    d == [] || (|d| == 1 && IsAsciiDigit(d[0]))
  }

  predicate ValidSlots(otp: seq<string>) {
    |otp| == 6 && forall i :: 0 <= i < 6 ==> IsSlot(otp[i])
  }

  /** `Array(6).fill('')`. */
  const Blank: seq<string> := ["", "", "", "", "", ""]

  /** `otp.join('')`. */
  function Concat(ss: seq<string>): string {
    if ss == [] then [] else ss[0] + Concat(ss[1..])
  }

  /** `otpValue.length === 6 && otp.every((d) => d !== '')`. */
  predicate CanSubmitOtp(otp: seq<string>) {
    |Concat(otp)| == 6 && forall i :: 0 <= i < |otp| ==> otp[i] != ""
  }

  /** Slots holding at most one character join to a string at most as long as the number of slots, and exactly as long when none is empty. */
  lemma {:induction false} ConcatLength(ss: seq<string>)
    requires forall i :: 0 <= i < |ss| ==> |ss[i]| <= 1
    ensures |Concat(ss)| <= |ss|
    ensures |Concat(ss)| == |ss| <==> forall i :: 0 <= i < |ss| ==> ss[i] != ""
  {
    if ss != [] {
      ConcatLength(ss[1..]);
      assert forall i :: 1 <= i < |ss| ==> ss[1..][i - 1] == ss[i];
    }
  }

  /** For six valid slots the length test is implied: the code can be submitted exactly when every slot is filled. */
  lemma CanSubmitIffAllFilled(otp: seq<string>)
    requires ValidSlots(otp)
    ensures CanSubmitOtp(otp) <==> forall i :: 0 <= i < 6 ==> otp[i] != ""
  {
    ConcatLength(otp);
  }

  /** `raw.replace(/\D/g, '').slice(-1)`: the last decimal digit of `raw`, or `''`. */
  function LastDigit(raw: string): (d: string)
    ensures IsSlot(d)
    ensures d == [] <==> DigitsOf(raw) == []
    ensures d != [] ==> d[0] == DigitsOf(raw)[|DigitsOf(raw)| - 1]
  {
    var ds := DigitsOf(raw);
    if ds == [] then [] else [ds[|ds| - 1]]
  }

  /** `text.replace(/\D/g, '').slice(0, 6)`: the digits a paste keeps. */
  function PastedDigits(text: string): (t: string)
    ensures |t| == (if |DigitsOf(text)| < 6 then |DigitsOf(text)| else 6)
    ensures t == DigitsOf(text)[..|t|]
  {
    var ds := DigitsOf(text);
    if |ds| <= 6 then ds else ds[..6]
  }

  /** The slots after pasting the kept digits `t`: slot `i` is the `i`-th digit, or `''` past the end. */
  function PasteSlots(t: string): seq<string>
    requires |t| <= 6
  {
    seq(6, i requires 0 <= i < 6 => if i < |t| then [t[i]] else "")
  }

  /** Pasting fills the slots with exactly the kept digits, in order: joined again they give those digits back. */
  lemma PasteRoundTrip(text: string)
    ensures ValidSlots(PasteSlots(PastedDigits(text)))
    ensures Concat(PasteSlots(PastedDigits(text))) == PastedDigits(text)
  {
    var t := PastedDigits(text);
    var p := PasteSlots(t);
    assert forall i :: 0 <= i < |t| ==> IsAsciiDigit(t[i]) by {
      assert forall i :: 0 <= i < |t| ==> t[i] == DigitsOf(text)[i];
    }
    PasteSlotsJoin(t, 0);
  }

  /** The slots from `from` on join to the digits from `from` on. */
  lemma {:induction false} PasteSlotsJoin(t: string, from: nat)
    requires |t| <= 6 && from <= 6
    ensures Concat(PasteSlots(t)[from..]) == if from < |t| then t[from..] else []
    decreases 6 - from
  {
    var p := PasteSlots(t);
    if from < 6 {
      var rest := p[from..];
      assert rest[0] == p[from];
      assert rest[1..] == p[from + 1..];
      assert Concat(rest) == p[from] + Concat(p[from + 1..]);
      PasteSlotsJoin(t, from + 1);
      if from < |t| {
        assert p[from] == [t[from]];
        assert t[from..] == [t[from]] + t[from + 1..];
      } else {
        assert p[from] == "";
      }
    } else {
      assert p[from..] == [];
    }
  }

  /** A paste of at least six digits makes the code ready to submit. */
  lemma PasteOfSixFills(text: string)
    requires |DigitsOf(text)| >= 6
    ensures CanSubmitOtp(PasteSlots(PastedDigits(text)))
  {
    PasteRoundTrip(text);
    CanSubmitIffAllFilled(PasteSlots(PastedDigits(text)));
  }

  /** The paste's `next` array: six empty slots, then `next[i] = chars[i] ?? ''` for each of them. */
  method FillSlots(t: string) returns (slots: seq<string>)
    requires |t| <= 6
    ensures slots == PasteSlots(t)
  {
    var next := new string[6](_ => "");
    for i := 0 to 6
      invariant forall j :: 0 <= j < i ==> next[j] == (if j < |t| then [t[j]] else "")
    {
      next[i] := if i < |t| then [t[i]] else "";
    }
    slots := next[..];
  }

  // ---------------------------------------------------------------------------
  // The panel.

  datatype Step = EmailStep | OtpStep

  class Panel {
    var step: Step
    var email: string
    var loading: bool
    var otp: seq<string>

    predicate Valid()
      reads this
    {
      ValidSlots(otp)
    }

    constructor()
      ensures Valid() && step == EmailStep && email == "" && !loading && otp == Blank
    {
      step := EmailStep;
      email := "";
      loading := false;
      otp := Blank;
    }

    /** Typing in the e-mail field: the value is kept as typed. */
    method SetEmail(value: string)
      modifies this
      ensures email == value && step == old(step) && loading == old(loading) && otp == old(otp)
    {
      email := value;
    }

    /**
     * `onSendLink`: an e-mail that does not pass the test once trimmed and
     * lower-cased changes nothing; otherwise the slots are emptied and the
     * panel moves to the code step. The field itself keeps what was typed.
     */
    method SendLink()
      requires Valid()
      modifies this`step, this`loading, this`otp
      ensures Valid()
      ensures !IsValidEmail(Normalized(email)) ==>
        step == old(step) && loading == old(loading) && otp == old(otp)
      ensures IsValidEmail(Normalized(email)) ==> step == OtpStep && !loading && otp == Blank
    {
      var ok := EmailAccepted(email);
      if ok {
        EnterCodeStep();
      }
    }

    /** The guard of `sendLink`, computed apart from the state change. */
    static method EmailAccepted(e: string) returns (ok: bool)
      ensures ok == IsValidEmail(Normalized(e))
    {
      ok := IsValidEmail(Normalized(e));
    }

    /** The state change of a successful `sendLink`: six blank slots and the code step, not loading. */
    method EnterCodeStep()
      modifies this`step, this`loading, this`otp
      ensures Valid() && step == OtpStep && !loading && otp == Blank
    {
      loading := true;
      otp := Blank;
      step := OtpStep;
      loading := false;
    }

    /** `setDigit(index, raw)`: slot `index` becomes the last digit of `raw`, or `''`; no other slot changes. */
    method SetDigit(index: nat, raw: string)
      requires Valid() && index < 6
      modifies this
      ensures Valid() && otp == old(otp)[index := LastDigit(raw)]
      ensures step == old(step) && email == old(email) && loading == old(loading)
    {
      var next := otp;
      next := next[index := LastDigit(raw)];
      otp := next;
    }

    /**
     * Backspace in slot `index`: a filled slot is cleared; on an empty slot
     * the one before is cleared; on the empty first slot nothing changes.
     */
    method Backspace(index: nat)
      requires Valid() && index < 6
      modifies this
      ensures Valid() && step == old(step) && email == old(email) && loading == old(loading)
      ensures old(otp)[index] != "" ==> otp == old(otp)[index := ""]
      ensures old(otp)[index] == "" && index > 0 ==> otp == old(otp)[index - 1 := ""]
      ensures old(otp)[index] == "" && index == 0 ==> otp == old(otp)
    {
      if otp[index] != "" {
        otp := otp[index := ""];
        return;
      }
      if index > 0 {
        otp := otp[index - 1 := ""];
      }
    }

    /** `onPaste`: a paste without digits changes nothing; otherwise every slot is set from the first six digits. */
    method Paste(text: string)
      requires Valid()
      modifies this
      ensures Valid() && step == old(step) && email == old(email) && loading == old(loading)
      ensures PastedDigits(text) == [] ==> otp == old(otp)
      ensures PastedDigits(text) != [] ==> otp == PasteSlots(PastedDigits(text))
    {
      var t := PastedDigits(text);
      if t == [] {
        return;
      }
      otp := FillSlots(t);
      PasteRoundTrip(text);
    }

    /** The "Limpar" button: every slot emptied. */
    method ClearOtp()
      modifies this
      ensures Valid() && otp == Blank && step == old(step) && email == old(email) && loading == old(loading)
    {
      otp := Blank;
    }

    /** `goBackToEmail`: back to the e-mail step with every slot emptied. */
    method GoBackToEmail()
      modifies this
      ensures Valid() && step == EmailStep && otp == Blank && email == old(email) && loading == old(loading)
    {
      step := EmailStep;
      otp := Blank;
    }
  }
}
