/**
 * The groups panel: the first `maxPreview` groups, and per group row the
 * member count, the non-negative page counts, the progress label, the first
 * three member avatars and the count of the others.
 */
module GroupsPanel {
  import opened Wrappers
  import JsText
  import Avatar

  datatype MemberAvatar =
    | ImageAvatar(src: string, alt: string)
    | InitialAvatar(name: string)
    | Dicebear(seed: string, seedAlt: Option<string>)

  /** The fields of a group the row computes with; the page counts are integers. */
  datatype GroupItem = GroupItem(name: string, membersCount: Option<int>, todayPages: Option<int>,
                                 goalPages: Option<int>, avatars: seq<MemberAvatar>)

  /** `typeof g.membersCount === 'number' ? g.membersCount : g.avatars.length`. */
  function Members(g: GroupItem): int {
    if g.membersCount.Some? then g.membersCount.value else |g.avatars|
  }

  /** `Math.max(0, x ?? 0)`: the larger of 0 and the count, and so one of the two. */
  function NonNegative(x: Option<int>): (n: nat)
    ensures x.Some? ==> n >= x.value
    ensures n == 0 || x == Some(n)
  {
    if x.Some? && x.value > 0 then x.value else 0
  }

  /** `g.avatars.slice(0, 3)`. */
  function Top3(avatars: seq<MemberAvatar>): seq<MemberAvatar> {
    if |avatars| <= 3 then avatars else avatars[..3]
  }

  /** `Math.max(0, g.avatars.length - top3.length)`. */
  function Remaining(avatars: seq<MemberAvatar>): nat {
    var k := |avatars| - |Top3(avatars)|;
    if k > 0 then k else 0
  }

  /** The avatars shown and the `+n` badge together account for every member avatar, and the badge appears exactly past three. */
  lemma AvatarsAccounted(avatars: seq<MemberAvatar>)
    ensures |Top3(avatars)| == (if |avatars| < 3 then |avatars| else 3)
    ensures Top3(avatars) == avatars[..|Top3(avatars)|]
    ensures Top3(avatars) + avatars[|Top3(avatars)|..] == avatars
    ensures |Top3(avatars)| + Remaining(avatars) == |avatars|
    ensures Remaining(avatars) > 0 <==> |avatars| > 3
  {
  }

  /** Without a `membersCount`, the members pill counts exactly the avatars shown plus the `+n` badge. */
  lemma MembersWithoutCount(g: GroupItem)
    requires g.membersCount.None?
    ensures Members(g) == |Top3(g.avatars)| + Remaining(g.avatars)
  {
    AvatarsAccounted(g.avatars);
  }

  /** `${n}` for a non-negative integer. */
  function Text(n: nat): string {
    JsText.Decimal(n)
  }

  /** The progress label: `today / goal` when there is a goal, else `today`. */
  function ProgressLabel(g: GroupItem): string {
    var today := NonNegative(g.todayPages);
    var goal := NonNegative(g.goalPages);
    if goal > 0 then Text(today) + " / " + Text(goal) else Text(today)
  }

  /** The shown reads back as the two counts it shows: the leading digits are today's pages, and after ` / ` come the goal's. */
  lemma ProgressLabelReadsBack(g: GroupItem)
    ensures var today := NonNegative(g.todayPages); var goal := NonNegative(g.goalPages);
      var shown := ProgressLabel(g); var k := |Text(today)|;
      k <= |shown| && shown[..k] == Text(today) && JsText.DigitsValue(shown[..k]) == today
      && (goal == 0 ==> shown == Text(today))
      && (goal > 0 ==> |shown| > k + 3 && shown[k..k + 3] == " / " && JsText.DigitsValue(shown[k + 3..]) == goal)
  {
    var today := NonNegative(g.todayPages);
    var goal := NonNegative(g.goalPages);
    var t := Text(today);
    JsText.DecimalRoundTrip(today);
    JsText.DecimalRoundTrip(goal);
    var shown := ProgressLabel(g);
    assert shown[..|t|] == t;
    if goal > 0 {
      assert shown == t + (" / " + Text(goal));
      assert shown[|t|..][3..] == Text(goal);
    }
  }

  /** What an avatar circle shows as text: the initial of an initial-type avatar, nothing for the image ones. */
  function CircleText(a: MemberAvatar): (t: Option<string>)
    ensures a.InitialAvatar? <==> t.Some?
    ensures t.Some? ==> t.value == Avatar.Initial(a.name) && |t.value| == 1
  {
    if a.InitialAvatar? then Some(Avatar.Initial(a.name)) else None
  }

  /** JavaScript's `slice(0, end)`: a negative end counts from the back. */
  function SliceEnd(n: nat, end: int): (k: nat)
    ensures k <= n
  {
    if end < 0 then (if n + end > 0 then n + end else 0) else if end < n then end else n
  }

  /** `groups.slice(0, maxPreview)`, with `maxPreview` 2 by default. */
  function Preview(groups: seq<GroupItem>, maxPreview: Option<int>): seq<GroupItem> {
    groups[..SliceEnd(|groups|, maxPreview.GetOr(2))]
  }

  /** The preview is the first `maxPreview` groups in their order (all of them when there are fewer), two by default. */
  lemma PreviewIsPrefix(groups: seq<GroupItem>, maxPreview: Option<int>)
    requires maxPreview.None? || maxPreview.value >= 0
    ensures var m := if maxPreview.Some? then maxPreview.value else 2; var p := Preview(groups, maxPreview);
      |p| == (if m < |groups| then m else |groups|)
      && forall i :: 0 <= i < |p| ==> p[i] == groups[i]
  {
  }
}
