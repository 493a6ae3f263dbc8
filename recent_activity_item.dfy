/**
 * A row of the dashboard's recent activity: the icon and colour of its type and the compact
 * "time ago" label.
 */
module RecentActivityItem {
  import opened Optional
  import TimeAgo

  /** An activity as the row shows it; `at` is its timestamp in milliseconds. */
  datatype Item = Item(user: string, action: string, kind: string, at: int)

  const KnownKinds: set<string> := {"schedule", "media", "team", "communication", "system"}

  /** `getActivityIcon`; any other type shows 'Activity'. */
  function ActivityIcon(kind: string): (r: string)
    ensures kind !in KnownKinds ==> r == "Activity"
    ensures kind == "schedule" ==> r == "Calendar"
    ensures kind == "media" ==> r == "FolderOpen"
    ensures kind == "team" ==> r == "Users"
    ensures kind == "communication" ==> r == "MessageSquare"
    ensures kind == "system" ==> r == "Settings"
  {
    if kind == "schedule" then "Calendar"
    else if kind == "media" then "FolderOpen"
    else if kind == "team" then "Users"
    else if kind == "communication" then "MessageSquare"
    else if kind == "system" then "Settings"
    else "Activity"
  }

  /** `getActivityColor`; any other type is muted. */
  function ActivityTone(kind: string): (r: string)
    ensures kind !in KnownKinds ==> r == "text-muted-foreground bg-muted"
    ensures kind == "schedule" ==> r == "text-primary bg-primary/10"
    ensures kind == "media" ==> r == "text-secondary bg-secondary/10"
    ensures kind == "team" ==> r == "text-success bg-success/10"
    ensures kind == "communication" ==> r == "text-warning bg-warning/10"
    ensures kind == "system" ==> r == "text-accent bg-accent/10"
  {
    if kind == "schedule" then "text-primary bg-primary/10"
    else if kind == "media" then "text-secondary bg-secondary/10"
    else if kind == "team" then "text-success bg-success/10"
    else if kind == "communication" then "text-warning bg-warning/10"
    else if kind == "system" then "text-accent bg-accent/10"
    else "text-muted-foreground bg-muted"
  }

  /** Each known type has an icon and a colour of its own, and neither is the fallback. */
  lemma KnownKindsStyled(a: string, b: string)
    requires a in {"schedule", "media", "team", "communication", "system"}
    requires b in {"schedule", "media", "team", "communication", "system"}
    ensures ActivityIcon(a) == ActivityIcon(b) <==> a == b
    ensures ActivityTone(a) == ActivityTone(b) <==> a == b
    ensures ActivityIcon(a) != "Activity" && ActivityTone(a) != "text-muted-foreground bg-muted"
  {
  }

  /** The row's time label: the compact "Nm/Nh/Nd ago" form. */
  function ItemTime(now: int, i: Item): (r: string)
    ensures i.at <= now ==> TimeAgo.ParseCompact(r) == Some(TimeAgo.MinuteSpan(TimeAgo.ElapsedMinutes(now, i.at)))
  {
    TimeAgo.LabelsAgree(now, i.at);
    TimeAgo.FormatCompact(now, i.at)
  }
}
