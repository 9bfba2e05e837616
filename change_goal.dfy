/**
 * The "change daily goal" modal: a stepper that starts at the current goal,
 * and a submit that closes without a request when the clamped goal equals
 * the current one, and otherwise sends it once. The caller's `onSubmit`
 * settles as a parameter.
 */
module ChangeGoal {
  import opened Wrappers
  import opened Json
  import opened PageInput

  const SubmitFallback: string := "Não consegui alterar a meta agora. Tenta de novo?"

  /** The presets offered. */
  const Presets: seq<int> := [10, 20, 30, 50]

  /** `clamp(Number(goal || currentGoal))`: the goal a submit would use, always in `[1, 999]`. */
  function NewGoal(goal: Num, currentGoal: int): (g: real)
    ensures MinPages <= g <= MaxPages
    ensures InRange(goal) ==> g == goal.r
    ensures (goal == NaN || goal == Finite(0.0)) ==> g == Clamp(Finite(currentGoal as real)).r
  {
    Clamp(OrElse(goal, Finite(currentGoal as real))).r
  }

  /** What a submit does: nothing while submitting, only `onClose` when the goal would not change, or a request. */
  datatype SubmitAction = Ignored | ClosedUnchanged | Sent(newGoal: real)

  /** The confirm button is disabled while submitting and while the stepper shows the current goal. */
  function ConfirmDisabled(submitting: bool, goal: Num, currentGoal: int): bool {
    submitting || goal == Finite(currentGoal as real)
  }

  /**
   * For a current goal inside `[1, 999]`, the button is enabled exactly when a
   * submit would send a request: whenever the stepper shows another value, the
   * clamped goal differs from the current one.
   */
  lemma ConfirmMatchesSubmit(goal: Num, currentGoal: int)
    requires 1 <= currentGoal <= 999 && InRange(goal)
    ensures !ConfirmDisabled(false, goal, currentGoal) <==> NewGoal(goal, currentGoal) != currentGoal as real
  {
  }

  class Modal {
    var open: bool
    var currentGoal: int
    var goal: Num
    var submitting: bool
    var error: Option<string>

    constructor(currentGoal: int)
      ensures !open && this.currentGoal == currentGoal && goal == Finite(currentGoal as real)
      ensures !submitting && error == None
    {
      open := false;
      this.currentGoal := currentGoal;
      goal := Finite(currentGoal as real);
      submitting := false;
      error := None;
    }

    /** New `open` and `currentGoal` props; while open, a change of either resets the stepper to the current goal and clears the error. */
    method SetProps(o: bool, cg: int)
      modifies this
      ensures open == o && currentGoal == cg && submitting == old(submitting)
      ensures o && (!old(open) || cg != old(currentGoal)) ==> goal == Finite(cg as real) && error == None
      ensures !(o && (!old(open) || cg != old(currentGoal))) ==> goal == old(goal) && error == old(error)
    {
      if o && (!open || cg != currentGoal) {
        error := None;
        goal := Finite(cg as real);
      }
      open := o;
      currentGoal := cg;
    }

    /** The `-` and `+` buttons, disabled while submitting. */
    method Step(d: real)
      requires d == 1.0 || d == -1.0
      modifies this
      ensures submitting == old(submitting) && error == old(error) && open == old(open) && currentGoal == old(currentGoal)
      ensures goal == if old(submitting) then old(goal) else Clamp(Shift(old(goal), d))
    {
      if submitting {
        return;
      }
      goal := Clamp(Shift(goal, d));
    }

    /** Typing in the number field, disabled while submitting. */
    method TypeValue(text: string)
      modifies this`goal
      ensures old(submitting) ==> goal == old(goal)
      ensures !old(submitting) ==> goal == Typed(text)
    {
      if !submitting {
        goal := Typed(text);
      }
    }

    /** A preset button, disabled while submitting. */
    method Pick(n: int)
      requires n in Presets
      modifies this
      ensures submitting == old(submitting) && error == old(error) && open == old(open) && currentGoal == old(currentGoal)
      ensures goal == if old(submitting) then old(goal) else Finite(n as real)
    {
      if submitting {
        return;
      }
      goal := Finite(n as real);
    }

    /**
     * `handleSubmit` up to its `await`: nothing while submitting; `onClose`
     * alone, with no request and no state change, when the new goal equals
     * the current one; otherwise one request with the new goal, and the
     * error cleared.
     */
    method StartSubmit() returns (action: SubmitAction)
      modifies this
      ensures goal == old(goal) && open == old(open) && currentGoal == old(currentGoal)
      ensures old(submitting) ==> action == Ignored && submitting && error == old(error)
      ensures !old(submitting) && NewGoal(old(goal), old(currentGoal)) == old(currentGoal) as real ==>
        action == ClosedUnchanged && !submitting && error == old(error)
      ensures !old(submitting) && NewGoal(old(goal), old(currentGoal)) != old(currentGoal) as real ==>
        action == Sent(NewGoal(old(goal), old(currentGoal))) && submitting && error == None
    {
      if submitting {
        return Ignored;
      }
      var newGoal := NewGoal(goal, currentGoal);
      if newGoal == currentGoal as real {
        return ClosedUnchanged;
      }
      submitting := true;
      error := None;
      action := Sent(newGoal);
    }

    /** `handleSubmit` after its `await`: close on success, keep the error on failure, and stop submitting either way. */
    method FinishSubmit(outcome: Settled) returns (closeCalled: bool)
      modifies this
      ensures goal == old(goal) && open == old(open) && currentGoal == old(currentGoal) && !submitting
      ensures closeCalled <==> outcome.Resolved?
      ensures outcome.Resolved? ==> error == old(error)
      ensures outcome.Rejected? ==> error == Some(MessageOr(outcome.thrown, SubmitFallback))
    {
      closeCalled := false;
      if outcome.Resolved? {
        closeCalled := true;
      } else {
        error := Some(MessageOr(outcome.thrown, SubmitFallback));
      }
      submitting := false;
    }

    /** Escape, a click on the backdrop, the close and the cancel buttons: `onClose` is called only while not submitting. */
    method RequestClose() returns (closeCalled: bool)
      ensures closeCalled <==> open && !submitting
    {
      closeCalled := open && !submitting;
    }
  }
}
