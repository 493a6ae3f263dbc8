/**
 * The dashboard's notification centre: the first three notifications, or all of them once
 * expanded, the toggle that appears only when some are hidden, and the unread count over the
 * whole list.
 */
module NotificationCenter {
  import opened Text
  import opened Seqs

  /** A dashboard notification; `at` is its timestamp in milliseconds. */
  datatype Notice = Notice(id: int, title: string, message: string, kind: string, priority: string,
                           at: int, unread: bool)

  /** The number shown while collapsed. */
  const CollapsedCount := 3

  function Min(a: int, b: int): int {
    if a <= b then a else b
  }

  /** `showAll ? notifications : notifications.slice(0, 3)`: a prefix of the list. */
  function Displayed(ns: seq<Notice>, showAll: bool): (r: seq<Notice>)
    ensures r <= ns
    ensures |r| == if showAll then |ns| else Min(CollapsedCount, |ns|)
  {
    if showAll || |ns| <= CollapsedCount then ns else ns[..CollapsedCount]
  }

  /** The "Show All" / "Show Less" button appears only for more than three notifications. */
  predicate ToggleShown(ns: seq<Notice>) {
    |ns| > CollapsedCount
  }

  /** Without the button nothing is hidden; with it, collapsing hides exactly the rest. */
  lemma ToggleOnlyWhenHidden(ns: seq<Notice>)
    ensures !ToggleShown(ns) ==> Displayed(ns, false) == ns
    ensures ToggleShown(ns) ==> Displayed(ns, false) + ns[CollapsedCount..] == ns
    ensures Displayed(ns, true) == ns
  {
    if ToggleShown(ns) {
      assert ns[..CollapsedCount] + ns[CollapsedCount..] == ns;
    }
  }

  /** "No notifications" is shown exactly when the list is empty, whichever way it is shown. */
  lemma EmptyStateIffNoNotices(ns: seq<Notice>, showAll: bool)
    ensures Displayed(ns, showAll) == [] <==> ns == []
  {
  }

  /** The button's text: "Show Less" when expanded, else "Show All (n)" with the full count. */
  function ToggleCaption(showAll: bool, total: nat): (r: string)
    ensures showAll ==> r == "Show Less"
    ensures !showAll ==> |r| >= 12 && r[..10] == "Show All (" && r[|r| - 1] == ')'
    ensures !showAll ==> forall i :: 10 <= i < |r| - 1 ==> '0' <= r[i] <= '9'
    ensures !showAll ==> DigitsValue(r[10..|r| - 1]) == total
  {
    if showAll then "Show Less"
    else
      var digits := NatToString(total);
      var r := "Show All (" + digits + ")";
      assert r[10..|r| - 1] == digits;
      NatToStringRoundTrip(total);
      r
  }

  function IsUnread(n: Notice): bool {
    n.unread
  }

  /** `notifications.filter(n => n.unread).length`, over every notification, shown or not. */
  function UnreadCount(ns: seq<Notice>): (k: nat)
    ensures k <= |ns|
    ensures k == 0 <==> forall i :: 0 <= i < |ns| ==> !ns[i].unread
  {
    FilterEmpty(ns, IsUnread);
    |Filter(ns, IsUnread)|
  }

  /** The count does not depend on what is shown: it counts the hidden ones too. */
  lemma {:induction false} UnreadCountsHidden(ns: seq<Notice>)
    requires ToggleShown(ns)
    ensures UnreadCount(ns) == UnreadCount(Displayed(ns, false)) + UnreadCount(ns[CollapsedCount..])
  {
    ToggleOnlyWhenHidden(ns);
    FilterConcat(Displayed(ns, false), ns[CollapsedCount..], IsUnread);
  }

  /** `getNotificationIcon`; any other type shows 'Info'. */
  function NoticeIcon(kind: string): (r: string)
    ensures kind !in {"schedule", "announcement", "system", "reminder"} ==> r == "Info"
    ensures kind == "schedule" ==> r == "Calendar"
    ensures kind == "announcement" ==> r == "Megaphone"
    ensures kind == "system" ==> r == "Settings"
    ensures kind == "reminder" ==> r == "Bell"
  {
    if kind == "schedule" then "Calendar"
    else if kind == "announcement" then "Megaphone"
    else if kind == "system" then "Settings"
    else if kind == "reminder" then "Bell"
    else "Info"
  }

  /** `getPriorityColor`: high, medium and low have their border; anything else is muted. */
  function PriorityBorder(priority: string): (r: string)
    ensures priority !in {"high", "medium", "low"} ==> r == "border-l-muted-foreground bg-muted/5"
    ensures priority == "high" ==> r == "border-l-error bg-error/5"
    ensures priority == "medium" ==> r == "border-l-warning bg-warning/5"
    ensures priority == "low" ==> r == "border-l-success bg-success/5"
  {
    if priority == "high" then "border-l-error bg-error/5"
    else if priority == "medium" then "border-l-warning bg-warning/5"
    else if priority == "low" then "border-l-success bg-success/5"
    else "border-l-muted-foreground bg-muted/5"
  }

  class Center {
    var showAll: bool

    /** The centre opens collapsed. */
    constructor ()
      ensures !showAll
    {
      showAll := false;
    }

    function Shown(ns: seq<Notice>): (r: seq<Notice>)
      reads this
      ensures r <= ns
    {
      Displayed(ns, showAll)
    }

    /** The toggle button: expands or collapses. */
    method Toggle()
      modifies this
      ensures showAll == !old(showAll)
    {
      showAll := !showAll;
    }
  }

  /** Pressing the button twice shows the same notifications as before. */
  method ToggleTwice(c: Center, ns: seq<Notice>)
    modifies c
    ensures c.Shown(ns) == old(c.Shown(ns))
  {
    c.Toggle();
    c.Toggle();
  }
}
