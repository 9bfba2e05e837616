/**
 * The week strip: one cell per label, checked either from a week of exactly
 * seven days or, for any other week, for the first `checkedDays` cells.
 */
module MiniCalendar {
  import opened Wrappers

  datatype Day = Day(date: string, checked: bool)

  const DefaultLabels: seq<string> := ["SEG", "TER", "QUA", "QUI", "SEX", "S\U{C3}B", "DOM"]

  /** `days`: the week's own flags when it has seven days, else `i < checkedDays` per label. */
  function Days(week: Option<seq<Day>>, checkedDays: real, labels: seq<string>): (days: seq<bool>)
    ensures week.Some? && |week.value| == 7 ==> |days| == 7
    ensures !(week.Some? && |week.value| == 7) ==> |days| == |labels|
  {
    if week.Some? && |week.value| == 7 then seq(7, i requires 0 <= i < 7 => week.value[i].checked)
    else seq(|labels|, i requires 0 <= i < |labels| => (i as real) < checkedDays)
  }

  /** The cells drawn: one per label, `days[i]?.checked`, so unchecked past the end of `days`. */
  function Cells(week: Option<seq<Day>>, checkedDays: Option<real>, labels: Option<seq<string>>): (cells: seq<bool>)
    ensures |cells| == |labels.GetOr(DefaultLabels)|
  {
    var ls := labels.GetOr(DefaultLabels);
    var days := Days(week, checkedDays.GetOr(0.0), ls);
    seq(|ls|, i requires 0 <= i < |ls| => i < |days| && days[i])
  }

  /** A week of exactly seven days decides every cell it covers; cells past the seventh are unchecked. */
  lemma WeekDecides(week: seq<Day>, checkedDays: Option<real>, labels: Option<seq<string>>, i: nat)
    requires |week| == 7 && i < |labels.GetOr(DefaultLabels)|
    ensures Cells(Some(week), checkedDays, labels)[i] == (i < 7 && week[i].checked)
  {
  }

  /** Any other week, or none, is ignored: cell `i` is checked exactly when `i < checkedDays`, which defaults to 0. */
  lemma CountDecides(week: Option<seq<Day>>, checkedDays: Option<real>, labels: Option<seq<string>>, i: nat)
    requires !(week.Some? && |week.value| == 7) && i < |labels.GetOr(DefaultLabels)|
    ensures Cells(week, checkedDays, labels)[i] == ((i as real) < (if checkedDays.Some? then checkedDays.value else 0.0))
  {
  }

  /** Without labels there are seven cells, and without a week or a count all of them are unchecked. */
  lemma DefaultStrip()
    ensures |Cells(None, None, None)| == 7
    ensures forall i :: 0 <= i < 7 ==> !Cells(None, None, None)[i]
  {
  }
}
