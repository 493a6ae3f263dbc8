/**
 * The activity view of the user management page: the seeded activity log, its user filter,
 * the user choices offered, the type icons, and the time-range choice that filters nothing.
 */
module ActivityTracker {
  import opened Seqs
  import UserManagement

  /** One log entry; `timestamp` is milliseconds and `kind` is the `type` field. */
  datatype Activity = Activity(
    id: int,
    userId: string,
    userName: string,
    action: string,
    details: string,
    timestamp: int,
    kind: string)

  /** One entry of a select: a value and the text shown for it. */
  datatype Choice = Choice(value: string, caption: string)

  /** `[{ value: '', label: 'All Users' }, ...userOptions]`: 'All Users' and then each user in order. */
  function UserChoices(users: seq<UserManagement.User>): (r: seq<Choice>)
    ensures |r| == |users| + 1 && r[0] == Choice("", "All Users")
    ensures forall i :: 0 <= i < |users| ==> r[i + 1] == Choice(users[i].id, users[i].name)
  {
    [Choice("", "All Users")] + Map(users, (u: UserManagement.User) => Choice(u.id, u.name))
  }

  function ByUser(userId: string): Activity -> bool {
    (a: Activity) => a.userId == userId
  }

  /** `filteredActivities`: the whole log with no user chosen, else that user's entries. */
  function FilteredActivities(log: seq<Activity>, selectedUser: string): (r: seq<Activity>)
    ensures selectedUser == "" ==> r == log
    ensures selectedUser != "" ==> forall i :: 0 <= i < |r| ==> r[i] in log && r[i].userId == selectedUser
    ensures selectedUser != "" ==> forall i :: 0 <= i < |log| && log[i].userId == selectedUser ==> log[i] in r
  {
    if selectedUser != "" then Filter(log, ByUser(selectedUser)) else log
  }

  /** A chosen user keeps the log order: the entries of that user, of two logs, come in turn. */
  lemma FilterKeepsOrder(a: seq<Activity>, b: seq<Activity>, selectedUser: string)
    ensures FilteredActivities(a + b, selectedUser) == FilteredActivities(a, selectedUser) + FilteredActivities(b, selectedUser)
  {
    if selectedUser != "" {
      FilterConcat(a, b, ByUser(selectedUser));
    }
  }

  /** "No activities match" is shown exactly when no entry belongs to the chosen user. */
  lemma NoMatchMessage(log: seq<Activity>, selectedUser: string)
    requires selectedUser != ""
    ensures FilteredActivities(log, selectedUser) == [] <==> forall i :: 0 <= i < |log| ==> log[i].userId != selectedUser
  {
    FilterEmpty(log, ByUser(selectedUser));
  }

  /** `getActivityIcon`; any other type shows 'Activity'. */
  function TrackerIcon(kind: string): (r: string)
    ensures kind !in {"schedule", "media", "communication", "system", "profile"} ==> r == "Activity"
    ensures kind == "schedule" ==> r == "Calendar"
    ensures kind == "media" ==> r == "FolderOpen"
    ensures kind == "communication" ==> r == "MessageSquare"
    ensures kind == "system" ==> r == "LogIn"
    ensures kind == "profile" ==> r == "User"
  {
    if kind == "schedule" then "Calendar"
    else if kind == "media" then "FolderOpen"
    else if kind == "communication" then "MessageSquare"
    else if kind == "system" then "LogIn"
    else if kind == "profile" then "User"
    else "Activity"
  }

  /** `getActivityColor`; any other type is drawn in the foreground colour. */
  function TrackerColor(kind: string): (r: string)
    ensures kind !in {"schedule", "media", "communication", "system", "profile"} ==> r == "text-foreground"
    ensures kind == "schedule" ==> r == "text-primary"
    ensures kind == "media" ==> r == "text-success"
    ensures kind == "communication" ==> r == "text-warning"
    ensures kind == "system" ==> r == "text-muted-foreground"
    ensures kind == "profile" ==> r == "text-secondary"
  {
    if kind == "schedule" then "text-primary"
    else if kind == "media" then "text-success"
    else if kind == "communication" then "text-warning"
    else if kind == "system" then "text-muted-foreground"
    else if kind == "profile" then "text-secondary"
    else "text-foreground"
  }

  /** Each of the five types has its own icon and its own colour, and neither is the fallback. */
  lemma KnownKindsDistinct(a: string, b: string)
    requires a in {"schedule", "media", "communication", "system", "profile"}
    requires b in {"schedule", "media", "communication", "system", "profile"}
    ensures TrackerIcon(a) == TrackerIcon(b) <==> a == b
    ensures TrackerColor(a) == TrackerColor(b) <==> a == b
    ensures TrackerIcon(a) != "Activity" && TrackerColor(a) != "text-foreground"
  {
  }

  class Tracker {
    var selectedUser: string
    var timeRange: string

    /** All users, over the last seven days. */
    constructor ()
      ensures selectedUser == "" && timeRange == "7d"
    {
      selectedUser := "";
      timeRange := "7d";
    }

    /** The entries shown: a function of the chosen user alone. */
    function Shown(log: seq<Activity>): (r: seq<Activity>)
      reads this
      ensures selectedUser == "" ==> r == log
      ensures forall i :: 0 <= i < |r| ==> r[i] in log
    {
      FilteredActivities(log, selectedUser)
    }

    method SelectUser(userId: string)
      modifies this
      ensures selectedUser == userId && timeRange == old(timeRange)
    {
      selectedUser := userId;
    }

    /** The time range is stored but never read: the entries shown stay the same. */
    method SelectTimeRange(range: string, log: seq<Activity>)
      modifies this
      ensures timeRange == range && selectedUser == old(selectedUser)
      ensures Shown(log) == old(Shown(log))
    {
      timeRange := range;
    }
  }
}
