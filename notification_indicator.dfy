/**
 * The header's notification bell: the list of notifications with their unread flags, the
 * unread badge, the per-item and mark-all read actions, and the open dropdown.
 */
module NotificationIndicator {
  import opened Optional
  import opened Text

  /** `time` is a fixed text in the seed ('5 minutes ago'); `kind` is the `type` field. */
  datatype Note = Note(id: int, title: string, message: string, time: string, kind: string, unread: bool)

  /** `notifications.filter(n => n.unread).length`. */
  function UnreadCount(ns: seq<Note>): (n: nat)
    ensures n <= |ns|
    ensures n == 0 <==> forall i :: 0 <= i < |ns| ==> !ns[i].unread
  {
    if ns == [] then 0
    else
      var rest := UnreadCount(ns[1..]);
      assert forall i :: 1 <= i < |ns| ==> ns[i] == ns[1..][i - 1];
      (if ns[0].unread then 1 else 0) + rest
  }

  /** `markAsRead(id)`: the notifications with that id become read; nothing else changes. */
  function MarkRead(ns: seq<Note>, id: int): (r: seq<Note>)
    ensures |r| == |ns|
    ensures forall i :: 0 <= i < |ns| && ns[i].id != id ==> r[i] == ns[i]
    ensures forall i :: 0 <= i < |ns| && ns[i].id == id ==> r[i] == ns[i].(unread := false)
  {
    seq(|ns|, i requires 0 <= i < |ns| => if ns[i].id == id then ns[i].(unread := false) else ns[i])
  }

  /** `markAllAsRead`: every notification becomes read, in place. */
  function MarkAllRead(ns: seq<Note>): (r: seq<Note>)
    ensures |r| == |ns|
    ensures forall i :: 0 <= i < |ns| ==> r[i] == ns[i].(unread := false)
  {
    seq(|ns|, i requires 0 <= i < |ns| => ns[i].(unread := false))
  }

  /** Reading the same notification twice is reading it once. */
  lemma MarkReadIdempotent(ns: seq<Note>, id: int)
    ensures MarkRead(MarkRead(ns, id), id) == MarkRead(ns, id)
  {
  }

  /** Marking one notification read never raises the unread count. */
  lemma {:induction false} MarkReadNeverIncreases(ns: seq<Note>, id: int)
    ensures UnreadCount(MarkRead(ns, id)) <= UnreadCount(ns)
  {
    if ns != [] {
      MarkReadNeverIncreases(ns[1..], id);
      assert MarkRead(ns, id)[1..] == MarkRead(ns[1..], id);
    }
  }

  /** Marking an unread notification, whose id no other one has, lowers the count by exactly one. */
  lemma {:induction false} MarkUnreadLowersByOne(ns: seq<Note>, k: int)
    requires 0 <= k < |ns| && ns[k].unread
    requires forall j :: 0 <= j < |ns| && j != k ==> ns[j].id != ns[k].id
    ensures UnreadCount(MarkRead(ns, ns[k].id)) == UnreadCount(ns) - 1
  {
    var id := ns[k].id;
    assert MarkRead(ns, id)[1..] == MarkRead(ns[1..], id);
    if k == 0 {
      assert MarkRead(ns[1..], id) == ns[1..];
    } else {
      MarkUnreadLowersByOne(ns[1..], k - 1);
    }
  }

  /** After "Mark all read" nothing is unread and the list keeps its length. */
  lemma MarkAllReadClears(ns: seq<Note>)
    ensures UnreadCount(MarkAllRead(ns)) == 0 && |MarkAllRead(ns)| == |ns|
  {
  }

  /** The badge text: none at zero, the count up to nine, '9+' above. */
  function Badge(unread: nat): (r: Option<string>)
    ensures r.None? <==> unread == 0
    ensures unread > 9 ==> r == Some("9+")
    ensures 1 <= unread <= 9 ==> r == Some([DigitChar(unread)]) && DigitsValue(r.value) == unread
  {
    if unread == 0 then None
    else if unread > 9 then Some("9+")
    else Some(NatToString(unread))
  }

  /** 'Mark all read' is offered only while something is unread. */
  function ShowsMarkAll(ns: seq<Note>): (b: bool)
    ensures b <==> exists i :: 0 <= i < |ns| && ns[i].unread
  {
    UnreadCount(ns) > 0
  }

  /** `getNotificationIcon`; any other type shows 'Info'. */
  function NotificationIcon(kind: string): (r: string)
    ensures kind !in {"success", "warning", "error"} ==> r == "Info"
    ensures kind == "success" ==> r == "CheckCircle"
    ensures kind == "warning" ==> r == "AlertTriangle"
    ensures kind == "error" ==> r == "AlertCircle"
  {
    if kind == "success" then "CheckCircle"
    else if kind == "warning" then "AlertTriangle"
    else if kind == "error" then "AlertCircle"
    else "Info"
  }

  /** `getNotificationColor`; any other type is drawn in the primary colour. */
  function NotificationColor(kind: string): (r: string)
    ensures kind !in {"success", "warning", "error"} ==> r == "text-primary"
    ensures kind == "success" ==> r == "text-success"
    ensures kind == "warning" ==> r == "text-warning"
    ensures kind == "error" ==> r == "text-error"
  {
    if kind == "success" then "text-success"
    else if kind == "warning" then "text-warning"
    else if kind == "error" then "text-error"
    else "text-primary"
  }

  /** Each of the three known types has an icon and a colour of its own, and neither is the fallback. */
  lemma KnownTypesDistinct(a: string, b: string)
    requires a in {"success", "warning", "error"} && b in {"success", "warning", "error"}
    ensures NotificationIcon(a) == NotificationIcon(b) <==> a == b
    ensures NotificationColor(a) == NotificationColor(b) <==> a == b
    ensures NotificationIcon(a) != "Info" && NotificationColor(a) != "text-primary"
  {
  }

  class Indicator {
    var isOpen: bool
    var notifications: seq<Note>

    constructor (seed: seq<Note>)
      ensures !isOpen && notifications == seed
    {
      isOpen := false;
      notifications := seed;
    }

    /** The bell button. */
    method Toggle()
      modifies this
      ensures isOpen == !old(isOpen) && notifications == old(notifications)
    {
      isOpen := !isOpen;
    }

    /** A mouse-down outside the dropdown closes it; one inside changes nothing. */
    method MouseDown(outside: bool)
      modifies this
      ensures isOpen == (old(isOpen) && !outside) && notifications == old(notifications)
    {
      if outside {
        isOpen := false;
      }
    }

    method MarkAsRead(id: int)
      modifies this
      ensures notifications == MarkRead(old(notifications), id) && isOpen == old(isOpen)
      ensures UnreadCount(notifications) <= UnreadCount(old(notifications))
    {
      MarkReadNeverIncreases(notifications, id);
      notifications := MarkRead(notifications, id);
    }

    method MarkAllAsRead()
      modifies this
      ensures notifications == MarkAllRead(old(notifications)) && isOpen == old(isOpen)
      ensures UnreadCount(notifications) == 0 && Badge(UnreadCount(notifications)).None?
    {
      notifications := MarkAllRead(notifications);
    }
  }
}
