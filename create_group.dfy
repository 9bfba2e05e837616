/**
 * The two-step create-group wizard: an identity step (name, icon, type)
 * and a season step (duration, ranking), over one `GroupData` record that
 * the steps update by merging partial patches. Submitting only shows a
 * toast and hands the data to the caller; a 500 ms timer then closes the
 * dialog. Timers are events of the model.
 */
module CreateGroup {
  import opened Wrappers
  import JsText

  datatype GroupType = InviteOnly | Public

  /** `'daily_checkins' | null`. */
  datatype Ranking = DailyCheckins | NoRanking

  /** `GroupData`; `seasonName` and `durationDays` are optional. */
  datatype GroupData = GroupData(
    name: string,
    icon: string,
    groupType: GroupType,
    seasonName: Option<string>,
    durationDays: Option<int>,
    ranking: Ranking)

  /** The ids of `GROUP_ICON_OPTIONS`, in order. */
  const IconIds: seq<string> := [
    "cat-and-book-icon", "cat-snow-globe-icon", "gold-chest-icon", "hour-glass-icon",
    "magic-teacup-icon", "moon-icon", "spellbook-icon"]

  /** The data of a fresh wizard, also restored whenever the dialog is closed. */
  function InitialData(): GroupData {
    GroupData("", IconIds[0], InviteOnly, None, Some(30), DailyCheckins)
  }

  /**
   * A `Partial<GroupData>`: each field is absent (`None`) or given. An
   * optional field can be given as `undefined`, hence the nested `Option`.
   */
  datatype Patch = Patch(
    name: Option<string>,
    icon: Option<string>,
    groupType: Option<GroupType>,
    seasonName: Option<Option<string>>,
    durationDays: Option<Option<int>>,
    ranking: Option<Ranking>)

  const NoFields: Patch := Patch(None, None, None, None, None, None)

  /** `{ ...prev, ...patch }`: every field the patch gives is taken from it, every other field from `prev`. */
  function Merge(prev: GroupData, patch: Patch): GroupData {
    GroupData(
      patch.name.GetOr(prev.name),
      patch.icon.GetOr(prev.icon),
      patch.groupType.GetOr(prev.groupType),
      patch.seasonName.GetOr(prev.seasonName),
      patch.durationDays.GetOr(prev.durationDays),
      patch.ranking.GetOr(prev.ranking))
  }

  /** The later of two optional field values. */
  function Later<T>(first: Option<T>, second: Option<T>): Option<T> {
    if second.Some? then second else first
  }

  /** One patch followed by another, as a single patch: the second wins on every field it gives. */
  function Then(p: Patch, q: Patch): Patch {
    Patch(Later(p.name, q.name), Later(p.icon, q.icon), Later(p.groupType, q.groupType),
          Later(p.seasonName, q.seasonName), Later(p.durationDays, q.durationDays), Later(p.ranking, q.ranking))
  }

  /** An empty patch changes nothing. */
  lemma MergeNothing(d: GroupData)
    ensures Merge(d, NoFields) == d
  {
  }

  /** Applying the same patch twice is applying it once. */
  lemma MergeIdempotent(d: GroupData, p: Patch)
    ensures Merge(Merge(d, p), p) == Merge(d, p)
  {
  }

  /** Two updates in a row are one update by their combined patch. */
  lemma MergeThen(d: GroupData, p: Patch, q: Patch)
    ensures Merge(Merge(d, p), q) == Merge(d, Then(p, q))
  {
  }

  /** `canContinueIdentity`: a name that is not blank once trimmed, and a non-empty icon. */
  predicate CanContinue(d: GroupData) {
    |JsText.Trim(d.name)| > 0 && d.icon != []
  }

  /** The identity step can be left exactly when the name has a character that is not white space and an icon is chosen. */
  lemma CanContinueIff(d: GroupData)
    ensures CanContinue(d) <==> (exists k :: 0 <= k < |d.name| && !JsText.IsSpace(d.name[k])) && d.icon != []
  {
    JsText.TrimEmptyIffAllSpace(d.name);
  }

  /** A fresh or reset wizard cannot leave the identity step until a name is typed. */
  lemma InitialCannotContinue()
    ensures !CanContinue(InitialData())
  {
  }

  datatype Step = Identity | Season

  class Wizard {
    var open: bool
    var step: Step
    var submitting: bool
    var showToast: bool
    var data: GroupData

    /** The first render, with the `open` prop. */
    constructor(open: bool)
      ensures this.open == open && step == Identity && data == InitialData() && !submitting && !showToast
    {
      this.open := open;
      step := Identity;
      submitting := false;
      showToast := false;
      data := InitialData();
    }

    /** The `open` prop changes; a closed dialog goes back to the identity step with the initial data, and `submitting` is left as it is. */
    method SetOpen(o: bool)
      modifies this`open, this`step, this`data
      ensures open == o
      ensures !o ==> step == Identity && data == InitialData()
      ensures o ==> step == old(step) && data == old(data)
    {
      open := o;
      if !o {
        step := Identity;
        data := InitialData();
      }
    }

    /** `updateData(patch)`. */
    method Update(patch: Patch)
      modifies this`data
      ensures data == Merge(old(data), patch)
    {
      data := Merge(data, patch);
    }

    /** "Continuar": to the season step only when `canContinueIdentity` holds. */
    method ContinueIdentity()
      modifies this`step
      ensures CanContinue(data) ==> step == Season
      ensures !CanContinue(data) ==> step == old(step)
    {
      if !CanContinue(data) {
        return;
      }
      step := Season;
    }

    /** "Voltar", from the season step. */
    method Back()
      modifies this`step
      ensures step == Identity
    {
      step := Identity;
    }

    /**
     * `handleSubmitForm`: nothing while submitting; otherwise submitting
     * starts, the toast shows, and the caller's `onSubmit`, when there is
     * one, receives the current data, once. The 500 ms timer is started.
     */
    method SubmitForm(hasOnSubmit: bool) returns (submitted: Option<GroupData>, timerStarted: bool)
      modifies this`submitting, this`showToast
      ensures old(submitting) ==> submitted == None && !timerStarted && submitting && showToast == old(showToast)
      ensures !old(submitting) ==> timerStarted && submitting && showToast
      ensures !old(submitting) ==> submitted == (if hasOnSubmit then Some(data) else None)
    {
      if submitting {
        return None, false;
      }
      submitting := true;
      showToast := true;
      submitted := if hasOnSubmit then Some(data) else None;
      timerStarted := true;
    }

    /**
     * The 500 ms timer fires: submitting ends and `onClose` is called. The
     * effect that watches `submitting` resets a dialog that is already closed.
     */
    method SubmitTimerFires() returns (closeCalled: bool)
      modifies this`submitting, this`step, this`data
      ensures !submitting && closeCalled
      ensures !open ==> step == Identity && data == InitialData()
      ensures open ==> step == old(step) && data == old(data)
    {
      submitting := false;
      if !open {
        step := Identity;
        data := InitialData();
      }
      closeCalled := true;
    }

    /** The toast's 3600 ms timer, or its own close button. */
    method HideToast()
      modifies this`showToast
      ensures !showToast
    {
      showToast := false;
    }

    /** Escape, a click on the backdrop, or the close button: `onClose` is called only on an open dialog that is not submitting. */
    method RequestClose() returns (closeCalled: bool)
      ensures closeCalled <==> open && !submitting
    {
      closeCalled := open && !submitting;
    }
  }
}
