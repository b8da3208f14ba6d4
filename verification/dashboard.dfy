/**
 The home screen (views/Dashboard.tsx): the three latest announcements and
 the role-dependent quick actions with their click dispatch. Parsing a
 publish date into a timestamp is a parameter `dateOf`.
 */
module Dashboard {
  import opened Types
  import opened Strings
  import opened Sorting

  // ---------------------------------------------------------------------------
  // latest announcements
  // ---------------------------------------------------------------------------

  /** The comparator: later publish date first, and on the same date the
      greater id first. */
  predicate Newer(dateOf: string -> int, a: Announcement, b: Announcement)
  {
    dateOf(a.publishDate) > dateOf(b.publishDate)
    || (dateOf(a.publishDate) == dateOf(b.publishDate) && LexLess(b.id, a.id))
  }

  function NewerFirst(dateOf: string -> int): (Announcement, Announcement) -> bool
  {
    (a: Announcement, b: Announcement) => Newer(dateOf, a, b)
  }

  lemma {:induction false} NewerFirstIsStrictWeakOrder(dateOf: string -> int)
    ensures StrictWeakOrder(NewerFirst(dateOf))
  {
    var before := NewerFirst(dateOf);
    forall a: Announcement, b: Announcement
      ensures before(a, b) ==> !before(b, a)
    {
      LexTrichotomy(a.id, b.id);
    }
    forall a: Announcement, b: Announcement, c: Announcement
      ensures before(a, c) ==> before(a, b) || before(b, c)
    {
      LexTrichotomy(a.id, b.id);
      if LexLess(c.id, a.id) && LexLess(a.id, b.id) {
        LexLessTransitive(c.id, a.id, b.id);
      }
    }
  }

  /** The whole list in display order; the input is copied, not reordered. */
  function ByNewest(anns: seq<Announcement>, dateOf: string -> int): (r: seq<Announcement>)
    ensures |r| == |anns|
    ensures multiset(r) == multiset(anns)
  {
    SortBy(anns, NewerFirst(dateOf))
  }

  const LatestCount := 3

  /** `latestAnnouncements`: the first three of the sorted copy. */
  function LatestAnnouncements(anns: seq<Announcement>, dateOf: string -> int): (r: seq<Announcement>)
    ensures |r| == if |anns| < LatestCount then |anns| else LatestCount
    ensures forall i :: 0 <= i < |r| ==> r[i] in anns
  {
    var all := ByNewest(anns, dateOf);
    var n := if |all| < LatestCount then |all| else LatestCount;
    assert forall i :: 0 <= i < n ==> all[i] in multiset(anns) by {
      forall i | 0 <= i < n
        ensures all[i] in multiset(anns)
      {
        assert all[i] in multiset(all);
      }
    }
    all[..n]
  }

  /** The shown announcements are in date order, newest first, with equal
      dates in descending id order. */
  lemma {:induction false} LatestOrdered(anns: seq<Announcement>, dateOf: string -> int)
    ensures var r := LatestAnnouncements(anns, dateOf);
      forall i, j :: 0 <= i < j < |r| ==>
        && dateOf(r[i].publishDate) >= dateOf(r[j].publishDate)
        && (dateOf(r[i].publishDate) == dateOf(r[j].publishDate) ==> LexLe(r[j].id, r[i].id))
  {
    NewerFirstIsStrictWeakOrder(dateOf);
    SortBySorted(anns, NewerFirst(dateOf));
    var r := LatestAnnouncements(anns, dateOf);
    forall i, j | 0 <= i < j < |r|
      ensures dateOf(r[i].publishDate) == dateOf(r[j].publishDate) ==> LexLe(r[j].id, r[i].id)
    {
      assert !Newer(dateOf, r[j], r[i]);
      LexTrichotomy(r[i].id, r[j].id);
    }
  }

  /** No announcement left out outranks one that is shown. */
  lemma {:induction false} LatestAreTop(anns: seq<Announcement>, dateOf: string -> int)
    ensures var r := LatestAnnouncements(anns, dateOf);
      var all := ByNewest(anns, dateOf);
      && r == all[..|r|]
      && forall i, j :: 0 <= i < |r| <= j < |all| ==> !Newer(dateOf, all[j], r[i])
  {
    NewerFirstIsStrictWeakOrder(dateOf);
    SortBySorted(anns, NewerFirst(dateOf));
  }

  // ---------------------------------------------------------------------------
  // quick actions
  // ---------------------------------------------------------------------------

  /** A quick action goes to a tab, to an admin sub-page, or runs its action
      property. The only action property in the lists is the password entry's
      empty function: `onUpdatePassword` is received but never called. */
  datatype QuickAction = QuickAction(caption: string, tab: Option<string>, adminSub: Option<string>, hasCallback: bool)

  function ToTab(caption: string, tab: string): QuickAction
  {
    QuickAction(caption, Some(tab), None, false)
  }

  function ToAdmin(caption: string, sub: string): QuickAction
  {
    QuickAction(caption, None, Some(sub), false)
  }

  predicate IsLeader(role: UserRole)
  {
    role == Leader
  }

  predicate IsChief(role: UserRole)
  {
    role == Chief
  }

  /** `getQuickActions`: the leader's list is checked first, then the chief's;
      everybody else shares the default list. */
  function QuickActions(role: UserRole): (actions: seq<QuickAction>)
    ensures |actions| == 4
    ensures IsLeader(role) ==> forall i :: 0 <= i < 4 ==> !actions[i].hasCallback
    ensures !IsLeader(role) ==> forall i :: 0 <= i < 4 ==> actions[i].adminSub.None?
  {
    if IsLeader(role) then [
      ToTab("风险预警", "audit"),
      ToTab("全员考勤", "staff_attendance"),
      ToAdmin("发布公告", "ann"),
      ToAdmin("档案管理", "projects")]
    else if IsChief(role) then [
      ToTab("待办审批", "field"),
      ToTab("项目台账", "ledger"),
      ToTab("现场办公", "field"),
      ToTab("智慧考勤", "attendance")]
    else [
      ToTab("现场填报", "field"),
      ToTab("数字台账", "ledger"),
      ToTab("入场签到", "attendance"),
      QuickAction("修改密码", None, None, true)]
  }

  function Captions(actions: seq<QuickAction>): seq<string>
  {
    seq(|actions|, i requires 0 <= i < |actions| => actions[i].caption)
  }

  /** Every role sees four actions: the leader's, the chief's, or the
      default set shared by everyone else. */
  lemma QuickActionCaptions(role: UserRole)
    ensures role == Leader ==> Captions(QuickActions(role)) == ["风险预警", "全员考勤", "发布公告", "档案管理"]
    ensures role == Chief ==> Captions(QuickActions(role)) == ["待办审批", "项目台账", "现场办公", "智慧考勤"]
    ensures role != Leader && role != Chief ==>
      Captions(QuickActions(role)) == ["现场填报", "数字台账", "入场签到", "修改密码"]
  {
  }

  /** The two role tests never both hold, and the leader's list is the one a
      leader sees. */
  lemma RolesExclusive(role: UserRole)
    ensures !(IsLeader(role) && IsChief(role))
    ensures IsLeader(role) ==> QuickActions(role)[2] == ToAdmin("发布公告", "ann")
    ensures IsChief(role) ==> QuickActions(role)[0] == ToTab("待办审批", "field")
    ensures !IsLeader(role) && !IsChief(role) ==> QuickActions(role) == QuickActions(Assistant)
  {
  }

  /** What a click does. `RunCallback` runs the action property, which for
      every list here is the empty function, so the screen does not change. */
  datatype Effect = OpenAdminPage(sub: string) | OpenTab(tab: string) | RunCallback | NoEffect

  /** The click leads somewhere: an admin page or a tab opens. */
  predicate Navigates(e: Effect)
  {
    e.OpenAdminPage? || e.OpenTab?
  }

  /** The click handler: an admin sub-page wins when the admin navigation is
      available, then the tab, then the callback if there is one. */
  function Click(a: QuickAction, adminNavigation: bool): (e: Effect)
    ensures e.OpenAdminPage? <==> a.adminSub.Some? && a.adminSub.value != "" && adminNavigation
    ensures e.OpenAdminPage? ==> e.sub == a.adminSub.value
    ensures e.OpenTab? ==> a.tab.Some? && e.tab == a.tab.value
    ensures e.OpenTab? <==> !e.OpenAdminPage? && a.tab.Some? && a.tab.value != ""
    ensures e == NoEffect <==> !e.OpenAdminPage? && !e.OpenTab? && !a.hasCallback
  {
    if a.adminSub.Some? && a.adminSub.value != "" && adminNavigation then OpenAdminPage(a.adminSub.value)
    else if a.tab.Some? && a.tab.value != "" then OpenTab(a.tab.value)
    else if a.hasCallback then RunCallback
    else NoEffect
  }

  /** With the admin navigation available every quick action opens a page
      except the default list's 修改密码, which only runs its empty action and
      so changes nothing, with or without the admin navigation. Without the
      admin navigation the leader's two admin shortcuts do nothing either. */
  lemma {:induction false} EveryActionResponds(role: UserRole, i: nat)
    requires i < 4
    ensures Click(QuickActions(role)[i], true) != NoEffect
    ensures Navigates(Click(QuickActions(role)[i], true)) <==> IsLeader(role) || IsChief(role) || i != 3
    ensures !IsLeader(role) && !IsChief(role) && i == 3 ==>
      && Click(QuickActions(role)[i], true) == RunCallback
      && Click(QuickActions(role)[i], false) == RunCallback
    ensures IsLeader(role) ==> (Click(QuickActions(role)[i], false) == NoEffect <==> i >= 2)
  {
  }
}
