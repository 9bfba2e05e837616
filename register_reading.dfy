/**
 * The "register reading" modal: how many pages are left for today, the
 * quick-pick options, the page stepper, and a submit that sends the clamped
 * count once and closes on success or shows the error on failure. The
 * caller's `onSubmit` settles as a parameter.
 */
module RegisterReading {
  import opened Wrappers
  import opened Json
  import opened PageInput

  /** `remaining`: `null` without a goal, else the pages still missing, never below 0. */
  function Remaining(goalPages: int, todayPages: int): (r: Option<int>)
    ensures r.None? <==> goalPages <= 0
    ensures r.Some? ==> r.value >= 0 && r.value >= goalPages - todayPages
    ensures r.Some? ==> (r.value == 0 || r.value == goalPages - todayPages)
  {
    if goalPages <= 0 then None else Some(if goalPages - todayPages > 0 then goalPages - todayPages else 0)
  }

  predicate StrictlyAscending(s: seq<int>) {
    forall i, j :: 0 <= i < j < |s| ==> s[i] < s[j]
  }

  /**
   * `quickOptions`: `Array.from(new Set([1, 5, 10, ...complete])).sort()`,
   * where `complete` is `[remaining]` when that is above 0: the distinct
   * values, smallest first.
   */
  function QuickOptions(remaining: Option<int>): seq<int> {
    if !(remaining.Some? && remaining.value > 0) then [1, 5, 10]
    else
      var r := remaining.value;
      if r == 1 || r == 5 || r == 10 then [1, 5, 10]
      else if r < 5 then [1, r, 5, 10]
      else if r < 10 then [1, 5, r, 10]
      else [1, 5, 10, r]
  }

  /** The options ascend strictly and are exactly `1`, `5`, `10` and `remaining` when that is above 0. */
  lemma QuickOptionsSpec(remaining: Option<int>)
    ensures StrictlyAscending(QuickOptions(remaining))
    ensures forall y :: y in QuickOptions(remaining) <==>
      y == 1 || y == 5 || y == 10 || (remaining.Some? && remaining.value > 0 && y == remaining.value)
  {
  }

  const SubmitFallback: string := "Não consegui registrar agora. Tenta de novo?"

  /** The pages a submit sends: `clamp(Number(pages || 1))`, always in `[1, 999]`. */
  function Delta(pages: Num): (d: real)
    ensures MinPages <= d <= MaxPages
    ensures InRange(pages) ==> d == pages.r
    ensures pages == NaN ==> d == 1.0
  {
    Clamp(OrElse(pages, Finite(1.0))).r
  }

  /** A quick pick above 999 is shown as it is but sends 999. */
  lemma QuickPickAboveMax(n: int)
    requires n > 999
    ensures Delta(Finite(n as real)) == 999.0
  {
  }

  class Modal {
    var open: bool
    var todayPages: int
    var goalPages: int
    var pages: Num
    var submitting: bool
    var error: Option<string>

    /** The stepper holds a number of at least 1, or `NaN`. */
    predicate Valid()
      reads this
    {
      pages == NaN || (pages.Finite? && pages.r >= MinPages)
    }

    constructor(todayPages: int, goalPages: int)
      ensures Valid() && !open && pages == Finite(1.0) && !submitting && error == None
      ensures this.todayPages == todayPages && this.goalPages == goalPages
    {
      open := false;
      this.todayPages := todayPages;
      this.goalPages := goalPages;
      pages := Finite(1.0);
      submitting := false;
      error := None;
    }

    /** The `open` prop changes; opening resets the count to 1 and clears the error. */
    method SetOpen(o: bool)
      requires Valid()
      modifies this`open, this`pages, this`error
      ensures Valid() && open == o && submitting == old(submitting)
      ensures o && !old(open) ==> pages == Finite(1.0) && error == None
      ensures !(o && !old(open)) ==> pages == old(pages) && error == old(error)
    {
      if o && !open {
        error := None;
        pages := Finite(1.0);
      }
      open := o;
    }

    /**
     * New `todayPages` and `goalPages` props, as StreakHero passes after a
     * registration: the quick options follow them, and the stepper, the
     * error and `open` are kept.
     */
    method SetProps(today: int, goal: int)
      requires Valid()
      modifies this`todayPages, this`goalPages
      ensures Valid() && todayPages == today && goalPages == goal
      ensures forall n :: n in QuickOptions(Remaining(goalPages, todayPages)) <==>
        n == 1 || n == 5 || n == 10 || (goal > 0 && goal > today && n == goal - today)
    {
      todayPages := today;
      goalPages := goal;
      QuickOptionsSpec(Remaining(goal, today));
    }

    /** The `-` (`d == -1`) and `+` (`d == 1`) buttons, disabled while submitting. */
    method Step(d: real)
      requires Valid() && (d == 1.0 || d == -1.0)
      modifies this`pages
      ensures Valid() && submitting == old(submitting) && error == old(error) && open == old(open)
      ensures old(submitting) ==> pages == old(pages)
      ensures !old(submitting) ==> pages == Clamp(Shift(old(pages), d))
    {
      if submitting {
        return;
      }
      pages := Clamp(Shift(pages, d));
    }

    /** Typing in the number field, disabled while submitting. */
    method TypeValue(text: string)
      requires Valid()
      modifies this`pages
      ensures Valid()
      ensures old(submitting) ==> pages == old(pages)
      ensures !old(submitting) ==> pages == Typed(text)
    {
      if !submitting {
        pages := Typed(text);
      }
    }

    /** A quick-pick button (the "just 1 page" button picks 1), disabled while submitting. */
    method Pick(n: int)
      requires Valid() && n in QuickOptions(Remaining(goalPages, todayPages))
      modifies this`pages
      ensures Valid() && submitting == old(submitting) && error == old(error) && open == old(open)
      ensures pages == if old(submitting) then old(pages) else Finite(n as real)
    {
      QuickOptionsSpec(Remaining(goalPages, todayPages));
      if submitting {
        return;
      }
      pages := Finite(n as real);
    }

    /** `handleSubmit` up to its `await`: nothing while submitting, otherwise the delta is sent and the error cleared. */
    method StartSubmit() returns (sent: Option<real>)
      requires Valid()
      modifies this`submitting, this`error
      ensures Valid() && pages == old(pages) && open == old(open)
      ensures old(submitting) ==> sent.None? && submitting && error == old(error)
      ensures !old(submitting) ==> sent == Some(Delta(old(pages))) && submitting && error == None
    {
      if submitting {
        return None;
      }
      var delta := Delta(pages);
      submitting := true;
      error := None;
      sent := Some(delta);
    }

    /** `handleSubmit` after its `await`: close on success, keep the error on failure, and stop submitting either way. */
    method FinishSubmit(outcome: Settled) returns (closeCalled: bool)
      requires Valid()
      modifies this`submitting, this`error
      ensures Valid() && pages == old(pages) && open == old(open) && !submitting
      ensures closeCalled <==> outcome.Resolved?
      ensures outcome.Resolved? ==> error == old(error)
      ensures outcome.Rejected? ==> error == Some(MessageOr(outcome.thrown, SubmitFallback))
    {
      closeCalled := false;
      if outcome.Resolved? {
        closeCalled := true;
      } else {
        error := Some(MessageOr(outcome.thrown, SubmitFallback));
      }
      submitting := false;
    }

    /** Escape, a click on the backdrop, the close and the cancel buttons: `onClose` is called only while not submitting. */
    method RequestClose() returns (closeCalled: bool)
      ensures closeCalled <==> open && !submitting
    {
      closeCalled := open && !submitting;
    }
  }
}
