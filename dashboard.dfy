/**
 * The dashboard's role-dependent content: the quick actions a user may see, chosen by
 * intersecting permission lists, and the metric cards chosen by the role's title.
 */
module Dashboard {
  import opened Seqs

  /** A quick-action tile: where it leads and which permissions may see it. */
  datatype QuickAction = QuickAction(title: string, path: string, permissions: seq<string>)

  const CreateRunSheet := QuickAction("Create Run Sheet", "/team-scheduling", ["admin", "schedule"])
  const UploadMedia := QuickAction("Upload Media", "/media-library", ["admin", "media"])
  const SendAnnouncement := QuickAction("Send Announcement", "/communication-center", ["admin", "communication"])
  const ManageTeam := QuickAction("Manage Team", "/user-management", ["admin"])
  const ViewSchedule := QuickAction("View Schedule", "/team-scheduling", ["admin", "schedule", "volunteer"])
  const BrowseMedia := QuickAction("Media Library", "/media-library", ["admin", "media", "volunteer"])

  /** The six tiles, in the order the grid shows them. */
  const QuickActions: seq<QuickAction> :=
    [CreateRunSheet, UploadMedia, SendAnnouncement, ManageTeam, ViewSchedule, BrowseMedia]

  /** The signed-in user the page seeds: a media administrator. */
  const CurrentPermissions: seq<string> := ["admin", "schedule", "media", "communication"]
  const CurrentRole := "Media Administrator"

  /** `action.permissions.some(p => user.permissions.includes(p))`. */
  predicate Visible(userPermissions: seq<string>, action: QuickAction) {
    exists p :: p in action.permissions && p in userPermissions
  }

  function VisibleTo(userPermissions: seq<string>): QuickAction -> bool {
    (a: QuickAction) => Visible(userPermissions, a)
  }

  /**
   * `availableActions`: the tiles sharing at least one permission with the user, in grid
   * order; each tile is shown exactly when it shares one.
   */
  function AvailableActions(actions: seq<QuickAction>, userPermissions: seq<string>): (r: seq<QuickAction>)
    ensures forall a :: a in r <==> a in actions && Visible(userPermissions, a)
    ensures |r| <= |actions|
  {
    Filter(actions, VisibleTo(userPermissions))
  }

  /** Shown tiles keep the grid order: the tiles of a front part come before those of the rest. */
  lemma ActionsKeepOrder(front: seq<QuickAction>, back: seq<QuickAction>, userPermissions: seq<string>)
    ensures AvailableActions(front + back, userPermissions) ==
      AvailableActions(front, userPermissions) + AvailableActions(back, userPermissions)
  {
    FilterConcat(front, back, VisibleTo(userPermissions));
  }

  /** A user without permissions sees no tile, and a tile without permissions is never shown. */
  lemma NoPermissionsNoActions(actions: seq<QuickAction>, userPermissions: seq<string>)
    ensures AvailableActions(actions, []) == []
    ensures forall a :: a in actions && a.permissions == [] ==> a !in AvailableActions(actions, userPermissions)
  {
    FilterEmpty(actions, VisibleTo([]));
  }

  /** Every tile lists "admin", so an administrator sees all six in order. */
  lemma AdminSeesAll(userPermissions: seq<string>)
    requires "admin" in userPermissions
    ensures AvailableActions(QuickActions, userPermissions) == QuickActions
  {
    forall a | a in QuickActions ensures Visible(userPermissions, a) {
      assert a.permissions[0] == "admin";
    }
    FilterKeepsAll(QuickActions, VisibleTo(userPermissions));
  }

  /** The seeded user sees every tile. */
  lemma CurrentUserSeesAll()
    ensures AvailableActions(QuickActions, CurrentPermissions) == QuickActions
  {
    AdminSeesAll(CurrentPermissions);
  }

  /** A single permission sees a tile exactly when the tile lists it. */
  lemma SinglePermission(perm: string, a: QuickAction)
    ensures Visible([perm], a) <==> perm in a.permissions
  {
  }

  /** A tile that does not list "volunteer" is hidden from a volunteer. */
  lemma NotListedHidden(a: QuickAction)
    requires "volunteer" !in a.permissions
    ensures !Visible(["volunteer"], a)
  {
    SinglePermission("volunteer", a);
  }

  /** The volunteer's tiles among the first four: none of them lists "volunteer". */
  lemma VolunteerSeesNoneOf(front: seq<QuickAction>)
    requires front == [CreateRunSheet, UploadMedia, SendAnnouncement, ManageTeam]
    ensures AvailableActions(front, ["volunteer"]) == []
  {
    var isShown := VisibleTo(["volunteer"]);
    NotListedHidden(CreateRunSheet);
    NotListedHidden(UploadMedia);
    NotListedHidden(SendAnnouncement);
    NotListedHidden(ManageTeam);
    assert forall i :: 0 <= i < |front| ==> !isShown(front[i]) by {
      assert front[0] == CreateRunSheet && front[1] == UploadMedia;
      assert front[2] == SendAnnouncement && front[3] == ManageTeam;
    }
    FilterEmpty(front, isShown);
  }

  /** When no tile of a front part is shown and every tile of the rest is, the rest is what shows. */
  lemma OnlyBackShown(front: seq<QuickAction>, back: seq<QuickAction>, userPermissions: seq<string>)
    requires AvailableActions(front, userPermissions) == []
    requires AvailableActions(back, userPermissions) == back
    ensures AvailableActions(front + back, userPermissions) == back
  {
    ActionsKeepOrder(front, back, userPermissions);
  }

  /** The last two tiles both list "volunteer". */
  lemma VolunteerSeesBoth(back: seq<QuickAction>)
    requires back == [ViewSchedule, BrowseMedia]
    ensures AvailableActions(back, ["volunteer"]) == back
  {
    var v := "volunteer";
    assert v in ViewSchedule.permissions && v in [v];
    assert v in BrowseMedia.permissions;
    FilterKeepsAll(back, VisibleTo(["volunteer"]));
  }

  /** A volunteer sees only the two tiles that list "volunteer": the schedule and the media library. */
  lemma VolunteerSeesTwo()
    ensures AvailableActions(QuickActions, ["volunteer"]) == [ViewSchedule, BrowseMedia]
  {
    var front := [CreateRunSheet, UploadMedia, SendAnnouncement, ManageTeam];
    var back := [ViewSchedule, BrowseMedia];
    assert QuickActions == front + back;
    VolunteerSeesNoneOf(front);
    VolunteerSeesBoth(back);
    OnlyBackShown(front, back, ["volunteer"]);
  }

  // ---------------------------------------------------------------------
  // Metric cards

  datatype Trend = Up | Neutral

  /** One metric card; the volunteer cards carry no trend. */
  datatype Metric = Metric(icon: string, value: string, caption: string, subtitle: string, color: string,
                           trend: seq<(Trend, string)>)

  const AdminMetrics: seq<Metric> := [
    Metric("Users", "24", "Active Team Members", "3 new this month", "primary", [(Up, "+12%")]),
    Metric("Calendar", "8", "Upcoming Services", "Next 30 days", "secondary", [(Neutral, "0%")]),
    Metric("FolderOpen", "156", "Media Resources", "12 added this week", "success", [(Up, "+8%")]),
    Metric("CheckCircle", "95%", "Service Readiness", "Average preparation", "accent", [(Up, "+5%")])]

  const MemberMetrics: seq<Metric> := [
    Metric("Calendar", "3", "My Assignments", "This week", "primary", []),
    Metric("Clock", "12", "Hours Scheduled", "Next 7 days", "secondary", [])]

  /** `getMetricsForRole`: four overview cards for the exact title "Media Administrator", two personal ones for any other. */
  function MetricsForRole(role: string): (r: seq<Metric>)
    ensures role == "Media Administrator" ==> |r| == 4 && forall i :: 0 <= i < 4 ==> |r[i].trend| == 1
    ensures role != "Media Administrator" ==> |r| == 2 && forall i :: 0 <= i < 2 ==> r[i].trend == []
    ensures role != "Media Administrator" ==> r[0].caption == "My Assignments" && r[1].caption == "Hours Scheduled"
  {
    if role == "Media Administrator" then AdminMetrics else MemberMetrics
  }

  /** The comparison is exact: a lower-cased title gets the member cards. */
  lemma RoleTitleIsExact()
    ensures |MetricsForRole(CurrentRole)| == 4
    ensures |MetricsForRole("media administrator")| == 2
  {
    assert "media administrator"[0] != "Media Administrator"[0];
  }
}
