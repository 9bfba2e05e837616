/**
 * The older copy of the create-group wizard, which draws both steps
 * itself and edits its data one field at a time. Its icons are avatar
 * seeds, its durations 7, 14 or 30 days, and its ranking is always
 * `daily_checkins`, so that field is left out of the data.
 */
module LegacyCreateGroup {
  import opened Wrappers
  import JsText
  import CreateGroup

  /** `GroupData` of this copy, without the constant `ranking`. */
  datatype GroupData = GroupData(
    name: string,
    icon: string,
    groupType: CreateGroup.GroupType,
    seasonName: Option<string>,
    durationDays: Option<int>)

  /** `ICON_SEEDS`. */
  const IconSeeds: seq<string> := ["Sunburst", "MagicOrb", "Moonlight", "Starlight", "Emerald", "Comet", "CozyCat"]

  /** The duration buttons. */
  const Durations: seq<int> := [7, 14, 30]

  /** The data of a fresh wizard, also restored whenever the dialog is closed. */
  function InitialData(): GroupData {
    GroupData("", IconSeeds[0], CreateGroup.InviteOnly, None, Some(30))
  }

  /** What every edit keeps: the icon is one of the seeds and the duration one of the buttons. */
  predicate Allowed(d: GroupData) {
    d.icon in IconSeeds && d.durationDays.Some? && d.durationDays.value in Durations
  }

  /** `canContinueIdentity`: a name that is not blank once trimmed, and a non-empty icon. */
  predicate CanContinue(d: GroupData) {
    |JsText.Trim(d.name)| > 0 && d.icon != []
  }

  /** With an allowed icon, the identity step can be left exactly when the name has a character that is not white space. */
  lemma CanContinueOnName(d: GroupData)
    requires Allowed(d)
    ensures CanContinue(d) <==> exists k :: 0 <= k < |d.name| && !JsText.IsSpace(d.name[k])
  {
    JsText.TrimEmptyIffAllSpace(d.name);
    assert d.icon != [] by {
      var i :| 0 <= i < |IconSeeds| && IconSeeds[i] == d.icon;
      assert |IconSeeds[i]| > 0;
    }
  }

  /** The initial data is allowed, and it cannot leave the identity step until a name is typed. */
  lemma InitialAllowed()
    ensures Allowed(InitialData()) && !CanContinue(InitialData())
  {
  }

  datatype Step = Identity | Season

  class Wizard {
    var open: bool
    var step: Step
    var submitting: bool
    var showToast: bool
    var data: GroupData

    predicate Valid()
      reads this
    {
      Allowed(data)
    }

    /** The first render, with the `open` prop. */
    constructor(open: bool)
      ensures Valid()
      ensures this.open == open && step == Identity && data == InitialData() && !submitting && !showToast
    {
      this.open := open;
      step := Identity;
      submitting := false;
      showToast := false;
      data := InitialData();
    }

    /** The `open` prop changes; a closed dialog goes back to the identity step with the initial data, and `submitting` is left as it is. */
    method SetOpen(o: bool)
      requires Valid()
      modifies this`open, this`step, this`data
      ensures Valid() && open == o
      ensures !o ==> step == Identity && data == InitialData()
      ensures o ==> step == old(step) && data == old(data)
    {
      open := o;
      if !o {
        step := Identity;
        data := InitialData();
      }
    }

    /** Typing the group name, disabled while submitting. */
    method SetName(v: string)
      requires Valid()
      modifies this`data
      ensures Valid() && data == if submitting then old(data) else old(data).(name := v)
    {
      if !submitting {
        data := data.(name := v);
      }
    }

    /** Choosing an icon, disabled while submitting. */
    method PickIcon(seed: string)
      requires Valid() && seed in IconSeeds
      modifies this`data
      ensures Valid() && data == if submitting then old(data) else old(data).(icon := seed)
    {
      if !submitting {
        data := data.(icon := seed);
      }
    }

    /** The "invite only" toggle: on is `invite_only`, off is `public`. It stays enabled while submitting. */
    method SetInviteOnly(checked: bool)
      requires Valid()
      modifies this`data
      ensures Valid()
      ensures data == old(data).(groupType := if checked then CreateGroup.InviteOnly else CreateGroup.Public)
    {
      data := data.(groupType := if checked then CreateGroup.InviteOnly else CreateGroup.Public);
    }

    /** Typing the season name, disabled while submitting; an emptied field stores `""`. */
    method SetSeasonName(v: string)
      requires Valid()
      modifies this`data
      ensures Valid() && data == if submitting then old(data) else old(data).(seasonName := Some(v))
    {
      if !submitting {
        data := data.(seasonName := Some(v));
      }
    }

    /** A duration button, disabled while submitting. */
    method PickDuration(days: int)
      requires Valid() && days in Durations
      modifies this`data
      ensures Valid() && data == if submitting then old(data) else old(data).(durationDays := Some(days))
    {
      if !submitting {
        data := data.(durationDays := Some(days));
      }
    }

    /** "Continuar": disabled while submitting or while `canContinueIdentity` fails; otherwise to the season step. */
    method ContinueIdentity()
      modifies this`step
      ensures !submitting && CanContinue(data) ==> step == Season
      ensures !(!submitting && CanContinue(data)) ==> step == old(step)
    {
      if !submitting && CanContinue(data) {
        step := Season;
      }
    }

    /** "Voltar": disabled while submitting; otherwise to the identity step. */
    method Back()
      modifies this`step
      ensures step == if submitting then old(step) else Identity
    {
      if !submitting {
        step := Identity;
      }
    }

    /**
     * `handleSubmitForm`: nothing while submitting; otherwise submitting
     * starts, the toast shows, and the caller's `onSubmit`, when there is
     * one, receives the current data, once. The 500 ms timer is started.
     */
    method SubmitForm(hasOnSubmit: bool) returns (submitted: Option<GroupData>, timerStarted: bool)
      modifies this`submitting, this`showToast
      ensures old(submitting) ==> submitted == None && !timerStarted && submitting && showToast == old(showToast)
      ensures !old(submitting) ==> timerStarted && submitting && showToast
      ensures !old(submitting) ==> submitted == (if hasOnSubmit then Some(data) else None)
    {
      if submitting {
        return None, false;
      }
      submitting := true;
      showToast := true;
      submitted := if hasOnSubmit then Some(data) else None;
      timerStarted := true;
    }

    /**
     * The 500 ms timer fires: submitting ends and `onClose` is called. The
     * effect that watches `submitting` resets a dialog that is already closed.
     */
    method SubmitTimerFires() returns (closeCalled: bool)
      requires Valid()
      modifies this`submitting, this`step, this`data
      ensures Valid() && !submitting && closeCalled
      ensures !open ==> step == Identity && data == InitialData()
      ensures open ==> step == old(step) && data == old(data)
    {
      submitting := false;
      if !open {
        step := Identity;
        data := InitialData();
      }
      closeCalled := true;
    }

    /** The toast's 3600 ms timer, or its own close button. */
    method HideToast()
      modifies this`showToast
      ensures !showToast
    {
      showToast := false;
    }

    /** Escape, a click on the backdrop, or the close button: `onClose` is called only on an open dialog that is not submitting. */
    method RequestClose() returns (closeCalled: bool)
      ensures closeCalled <==> open && !submitting
    {
      closeCalled := open && !submitting;
    }
  }
}
