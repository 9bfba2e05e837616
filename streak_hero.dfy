/**
 * The streak card of the feed: a local copy of the server's reading
 * snapshot and of the next goal, which the two modals update through the
 * reading API; both requests are parameters (their replies), and the
 * submit of each is split at its `await`.
 */
module StreakHero {
  import opened Wrappers
  import MiniCalendar

  /** Today's entry of a snapshot. */
  datatype DayInfo = DayInfo(date: string, pages: int, goalPages: int)

  /** One day of the snapshot's week. */
  datatype WeekDay = WeekDay(date: string, pages: int, checked: bool)

  /** A `ReadingProgress` snapshot. */
  datatype Progress = Progress(day: DayInfo, streakDays: int, week: seq<WeekDay>)

  /** A `GoalInfo`: a daily page goal and the date it applies from. */
  datatype GoalInfo = GoalInfo(dailyPages: int, validFrom: string)

  /** `isCheckedToday`. */
  predicate IsCheckedToday(p: Progress) {
    p.day.pages > 0
  }

  /** The label of the button that opens the register modal. */
  function RegisterLabel(p: Progress): string {
    if IsCheckedToday(p) then "Adicionar páginas" else "Registrar leitura"
  }

  /** The button offers to add pages exactly when some pages are already logged today, and to register a reading otherwise. */
  lemma RegisterLabelByPages(p: Progress)
    ensures RegisterLabel(p) == "Adicionar páginas" <==> p.day.pages > 0
    ensures RegisterLabel(p) == "Registrar leitura" <==> p.day.pages <= 0
  {
    assert "Adicionar páginas"[0] != "Registrar leitura"[0];
  }

  /** `shouldShowNextGoal`: a next goal is announced when there is one, it is not 0 and it differs from today's goal. */
  predicate ShouldShowNextGoal(next: Option<GoalInfo>, goalPages: int) {
    next.Some? && next.value.dailyPages != 0 && next.value.dailyPages != goalPages
  }

  /** A goal changed to a positive count other than today's goal is announced for tomorrow, whatever date it applies from. */
  lemma ChangedGoalAnnounced(p: Progress, g: GoalInfo)
    requires g.dailyPages >= 1 && g.dailyPages != p.day.goalPages
    ensures ShouldShowNextGoal(Some(g), p.day.goalPages)
  {
  }

  /** A next goal equal to today's goal, or of 0 pages, is never announced. */
  lemma SameGoalNotAnnounced(next: Option<GoalInfo>, goalPages: int)
    requires next.None? || next.value.dailyPages == goalPages || next.value.dailyPages == 0
    ensures !ShouldShowNextGoal(next, goalPages)
  {
  }

  /** The week handed to the calendar: each day's date and flag. */
  function CalendarWeek(p: Progress): (w: seq<MiniCalendar.Day>)
    ensures |w| == |p.week|
  {
    seq(|p.week|, i requires 0 <= i < |p.week| => MiniCalendar.Day(p.week[i].date, p.week[i].checked))
  }

  /** With a seven-day week, the calendar checks exactly the days the snapshot marks as checked. */
  lemma CalendarShowsWeek(p: Progress, i: nat)
    requires |p.week| == 7 && i < 7
    ensures MiniCalendar.Cells(Some(CalendarWeek(p)), None, None)[i] == p.week[i].checked
  {
    MiniCalendar.WeekDecides(CalendarWeek(p), None, None, i);
  }

  /** What `postReading` gives back: it throws, or a reply whose `progress` and `next_goal` may each be missing. */
  datatype PostReply = PostThrew(thrown: Thrown) | PostReturned(progress: Option<Progress>, nextGoal: Option<GoalInfo>)

  /** What `putReadingGoal` gives back: it throws, or a reply with the next goal. */
  datatype PutReply = PutThrew(thrown: Thrown) | PutReturned(nextGoal: GoalInfo)

  class Hero {
    var progress: Progress
    var nextGoal: Option<GoalInfo>
    var open: bool
    var openGoal: bool
    var submitting: bool
    var showToast: bool

    /** The first render: the snapshot and the next goal from the props, every modal and the toast closed. */
    constructor(progress: Progress, initialNextGoal: Option<GoalInfo>)
      ensures this.progress == progress && nextGoal == initialNextGoal
      ensures !open && !openGoal && !submitting && !showToast
    {
      this.progress := progress;
      nextGoal := initialNextGoal;
      open := false;
      openGoal := false;
      submitting := false;
      showToast := false;
    }

    /** A new `progress` prop replaces the local snapshot. */
    method SyncProgress(p: Progress)
      modifies this`progress
      ensures progress == p
    {
      progress := p;
    }

    /** A new `nextGoal` prop replaces the local next goal only when it is defined. */
    method SyncNextGoal(g: Option<GoalInfo>)
      modifies this`nextGoal
      ensures g.Some? ==> nextGoal == g
      ensures g.None? ==> nextGoal == old(nextGoal)
    {
      if g.Some? {
        nextGoal := g;
      }
    }

    /** The "register" button: disabled while a request is in flight. */
    method OpenRegister()
      modifies this`open
      ensures open == (old(open) || !submitting)
    {
      if !submitting {
        open := true;
      }
    }

    /** The "change goal" button: disabled while a request is in flight. */
    method OpenChangeGoal()
      modifies this`openGoal
      ensures openGoal == (old(openGoal) || !submitting)
    {
      if !submitting {
        openGoal := true;
      }
    }

    /** The register modal's `onClose`: ignored while a request is in flight. */
    method CloseRegister()
      modifies this`open
      ensures open == (old(open) && submitting)
    {
      if !submitting {
        open := false;
      }
    }

    /** The change-goal modal's `onClose`: ignored while a request is in flight. */
    method CloseChangeGoal()
      modifies this`openGoal
      ensures openGoal == (old(openGoal) && submitting)
    {
      if !submitting {
        openGoal := false;
      }
    }

    /** The toast's `onClose`. */
    method HideToast()
      modifies this`showToast
      ensures !showToast
    {
      showToast := false;
    }

    /** `handleSubmit` and `handleChangeGoal` up to their request: a request is in flight. */
    method StartRequest()
      modifies this`submitting
      ensures submitting
    {
      submitting := true;
    }

    /**
     * `handleSubmit` once `postReading` settles: on a reply, the snapshot and
     * the next goal are replaced only by the parts the reply has, and the
     * register modal closes; a throw changes neither and reaches the modal.
     * Either way the request is no longer in flight.
     */
    method FinishPost(reply: PostReply) returns (outcome: Settled)
      modifies this`progress, this`nextGoal, this`open, this`submitting
      ensures !submitting
      ensures reply.PostThrew? ==>
        outcome == Rejected(reply.thrown) && progress == old(progress) && nextGoal == old(nextGoal) && open == old(open)
      ensures reply.PostReturned? ==> outcome == Resolved && !open
      ensures reply.PostReturned? ==> progress == reply.progress.GetOr(old(progress))
      ensures reply.PostReturned? ==> nextGoal == (if reply.nextGoal.Some? then reply.nextGoal else old(nextGoal))
    {
      match reply {
        case PostThrew(t) =>
          outcome := Rejected(t);
        case PostReturned(p, g) =>
          if p.Some? {
            progress := p.value;
          }
          if g.Some? {
            nextGoal := g;
          }
          open := false;
          outcome := Resolved;
      }
      submitting := false;
    }

    /**
     * `handleChangeGoal` once `putReadingGoal` settles: on a reply, the next
     * goal is the reply's, the toast shows and the goal modal closes; a throw
     * changes none of them and reaches the modal. Either way the request is
     * no longer in flight.
     */
    method FinishPut(reply: PutReply) returns (outcome: Settled)
      modifies this`nextGoal, this`showToast, this`openGoal, this`submitting
      ensures !submitting
      ensures reply.PutThrew? ==>
        outcome == Rejected(reply.thrown) && nextGoal == old(nextGoal) && showToast == old(showToast) && openGoal == old(openGoal)
      ensures reply.PutReturned? ==>
        outcome == Resolved && nextGoal == Some(reply.nextGoal) && showToast && !openGoal
    {
      match reply {
        case PutThrew(t) =>
          outcome := Rejected(t);
        case PutReturned(g) =>
          nextGoal := Some(g);
          showToast := true;
          openGoal := false;
          outcome := Resolved;
      }
      submitting := false;
    }
  }
}
