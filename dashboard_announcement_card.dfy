/**
 * The dashboard's announcement card: the priority's icon and colour, the long "time ago"
 * label and the unread dot.
 */
module DashboardAnnouncementCard {
  import opened Optional
  import TimeAgo

  /** An announcement as the card shows it; `at` is its timestamp in milliseconds. */
  datatype Card = Card(title: string, message: string, author: string, priority: string, at: int, unread: bool)

  /** `getPriorityIcon`; any other priority shows 'Bell'. */
  function PriorityIcon(priority: string): (r: string)
    ensures priority !in {"high", "medium", "low"} ==> r == "Bell"
    ensures priority == "high" ==> r == "AlertTriangle"
    ensures priority == "medium" ==> r == "Info"
    ensures priority == "low" ==> r == "CheckCircle"
  {
    if priority == "high" then "AlertTriangle"
    else if priority == "medium" then "Info"
    else if priority == "low" then "CheckCircle"
    else "Bell"
  }

  /** `getPriorityColor`; any other priority is muted. */
  function PriorityTone(priority: string): (r: string)
    ensures priority !in {"high", "medium", "low"} ==> r == "text-muted-foreground"
    ensures priority == "high" ==> r == "text-error"
    ensures priority == "medium" ==> r == "text-warning"
    ensures priority == "low" ==> r == "text-success"
  {
    if priority == "high" then "text-error"
    else if priority == "medium" then "text-warning"
    else if priority == "low" then "text-success"
    else "text-muted-foreground"
  }

  /** The three known priorities each have an icon of their own, none of them the fallback. */
  lemma PriorityIconsDistinct()
    ensures PriorityIcon("high") != PriorityIcon("medium")
    ensures PriorityIcon("high") != PriorityIcon("low")
    ensures PriorityIcon("medium") != PriorityIcon("low")
    ensures forall p :: p in {"high", "medium", "low"} ==> PriorityIcon(p) != "Bell"
  {
    assert PriorityIcon("high")[0] == 'A' && PriorityIcon("medium")[0] == 'I' && PriorityIcon("low")[0] == 'C';
  }

  /** The card's time label: the long minute/hour/day form. */
  function CardTime(now: int, c: Card): (r: string)
    ensures c.at <= now ==> TimeAgo.ParseLong(r) == Some(TimeAgo.MinuteSpan(TimeAgo.ElapsedMinutes(now, c.at)))
  {
    TimeAgo.LabelsAgree(now, c.at);
    TimeAgo.FormatLong(now, c.at)
  }

  /** The dot next to the author shows exactly for an unread announcement. */
  predicate ShowsUnreadDot(c: Card) {
    c.unread
  }
}
