/**
 * One announcement in the communication centre list: who may edit it, its actions menu, the
 * "Read more" toggle and the icon and colour lookups of its header.
 */
module AnnouncementCard {
  import opened Optional
  import opened Seqs
  import opened CommunicationCenter

  /** The roles that may edit every announcement. */
  predicate EditorRole(role: string) {
    role == "Admin" || role == "Media Lead"
  }

  /**
   * `canEdit`: an editor role, or the author. Without a signed-in user neither side is defined,
   * and an author always has an id, so nobody may edit.
   */
  function CanEdit(a: Announcement, user: Option<Person>): (r: bool)
    ensures r <==> user.Some? && (EditorRole(user.value.role) || a.author.id == user.value.id)
  {
    match user
    case None => false
    case Some(u) => u.role == "Admin" || u.role == "Media Lead" || a.author.id == u.id
  }

  /** A volunteer may edit only their own announcements. */
  lemma OnlyAuthorsOrEditors(a: Announcement, u: Person)
    requires !EditorRole(u.role)
    ensures CanEdit(a, Some(u)) <==> a.author.id == u.id
  {
  }

  /** The page passes its own signed-in administrator, who may edit every announcement. */
  lemma PageUserEditsAll(a: Announcement)
    ensures CanEdit(a, Some(CurrentUser))
  {
  }

  function EditableBy(user: Option<Person>): Announcement -> bool {
    (a: Announcement) => CanEdit(a, user)
  }

  function WrittenBy(id: int): Announcement -> bool {
    (a: Announcement) => a.author.id == id
  }

  /**
   * The cards of a list that offer the actions menu: none when nobody is signed in, every card for
   * an Admin or a Media Lead, and for anyone else exactly the cards they wrote, in list order.
   */
  lemma EditableAnnouncements(anns: seq<Announcement>, user: Option<Person>)
    ensures user.None? ==> Filter(anns, EditableBy(user)) == []
    ensures user.Some? && EditorRole(user.value.role) ==> Filter(anns, EditableBy(user)) == anns
    ensures user.Some? && !EditorRole(user.value.role) ==>
      Filter(anns, EditableBy(user)) == Filter(anns, WrittenBy(user.value.id))
  {
    FilterEmpty(anns, EditableBy(user));
    if user.Some? {
      if EditorRole(user.value.role) {
        FilterKeepsAll(anns, EditableBy(user));
      } else {
        FilterExt(anns, EditableBy(user), WrittenBy(user.value.id));
      }
    }
  }

  /** Content longer than this offers "Read more". */
  const ReadMoreThreshold := 200

  function OffersReadMore(content: string): (r: bool)
    ensures r <==> |content| > ReadMoreThreshold
  {
    |content| > 200
  }

  /** The card's own state: the actions menu and the expanded content. */
  datatype CardState = CardState(showActions: bool, expanded: bool)

  /** A card starts with its menu closed and its content clamped. */
  const Closed := CardState(false, false)

  /** What a click on the card asks the page to do. */
  datatype Request = NoRequest | EditRequest(a: Announcement) | DeleteRequest(id: int)

  datatype Click = MenuButton | EditItem | DeleteItem | ReadMoreButton

  /** Whether a control is on screen: the menu button as `canEdit`, its items only while open. */
  predicate Shows(a: Announcement, user: Option<Person>, st: CardState, c: Click) {
    match c
    case MenuButton => CanEdit(a, user)
    case EditItem => CanEdit(a, user) && st.showActions
    case DeleteItem => CanEdit(a, user) && st.showActions
    case ReadMoreButton => OffersReadMore(a.content)
  }

  /** A click on a control that is shown: the new card state and the request to the page. */
  function OnClick(a: Announcement, st: CardState, c: Click): (CardState, Request) {
    match c
    case MenuButton => (st.(showActions := !st.showActions), NoRequest)
    case EditItem => (st.(showActions := false), EditRequest(a))
    case DeleteItem => (st.(showActions := false), DeleteRequest(a.id))
    case ReadMoreButton => (st.(expanded := !st.expanded), NoRequest)
  }

  /**
   * A run of clicks on one card: a click on a control that is not on screen cannot happen and
   * leaves the card as it is. Gives the final card state and the requests made, in order.
   */
  function Run(a: Announcement, user: Option<Person>, st: CardState, clicks: seq<Click>): (CardState, seq<Request>)
    decreases |clicks|
  {
    if clicks == [] then (st, [])
    else
      var c := clicks[0];
      var (next, req) := if Shows(a, user, st, c) then OnClick(a, st, c) else (st, NoRequest);
      var (last, reqs) := Run(a, user, next, clicks[1..]);
      (last, (if req == NoRequest then [] else [req]) + reqs)
  }

  /** Content of at most 200 characters has no "Read more" button, so no run of clicks ever expands it. */
  lemma {:induction false} ShortContentNeverExpands(a: Announcement, user: Option<Person>, st: CardState, clicks: seq<Click>)
    requires !OffersReadMore(a.content)
    ensures Run(a, user, st, clicks).0.expanded == st.expanded
    decreases |clicks|
  {
    if clicks != [] {
      var c := clicks[0];
      var next := if Shows(a, user, st, c) then OnClick(a, st, c).0 else st;
      ShortContentNeverExpands(a, user, next, clicks[1..]);
    }
  }

  /** Without the right to edit, no run of clicks on the card asks the page for anything. */
  lemma {:induction false} NoRightNoRequests(a: Announcement, user: Option<Person>, st: CardState, clicks: seq<Click>)
    requires !CanEdit(a, user)
    ensures Run(a, user, st, clicks).1 == []
    decreases |clicks|
  {
    if clicks != [] {
      var c := clicks[0];
      var next := if Shows(a, user, st, c) then OnClick(a, st, c).0 else st;
      NoRightNoRequests(a, user, next, clicks[1..]);
      if Shows(a, user, st, c) {
        NoRightNoRequest(a, user, st, c);
      }
    }
  }

  /** Without the right to edit, no click on the card can ask for an edit or a delete. */
  lemma NoRightNoRequest(a: Announcement, user: Option<Person>, st: CardState, c: Click)
    requires Shows(a, user, st, c) && !CanEdit(a, user)
    ensures OnClick(a, st, c).1 == NoRequest
  {
  }

  /**
   * Edit and Delete pass this announcement (or its id) to the page and close the menu, leaving
   * the content as it was; opening and closing the menu again restores the card.
   */
  lemma MenuItemsClose(a: Announcement, st: CardState)
    ensures OnClick(a, st, EditItem) == (CardState(false, st.expanded), EditRequest(a))
    ensures OnClick(a, st, DeleteItem) == (CardState(false, st.expanded), DeleteRequest(a.id))
    ensures OnClick(a, OnClick(a, st, MenuButton).0, MenuButton).0 == st
  {
  }

  /** `getPriorityColor`: 'urgent', 'high' and 'normal' have their own style; 'low' is the default. */
  function PriorityStyle(priority: string): (r: string)
    ensures priority !in {"urgent", "high", "normal"} ==> r == "text-muted-foreground bg-muted border-border"
    ensures priority == "urgent" ==> r == "text-error bg-error/10 border-error/20"
    ensures priority == "high" ==> r == "text-warning bg-warning/10 border-warning/20"
    ensures priority == "normal" ==> r == "text-primary bg-primary/10 border-primary/20"
  {
    if priority == "urgent" then "text-error bg-error/10 border-error/20"
    else if priority == "high" then "text-warning bg-warning/10 border-warning/20"
    else if priority == "normal" then "text-primary bg-primary/10 border-primary/20"
    else "text-muted-foreground bg-muted border-border"
  }

  /** `getCategoryIcon`; any other category shows 'MessageSquare'. */
  function CategoryIcon(category: string): (r: string)
    ensures category !in {"schedule", "equipment", "training", "event"} ==> r == "MessageSquare"
    ensures category == "schedule" ==> r == "Calendar"
    ensures category == "equipment" ==> r == "Settings"
    ensures category == "training" ==> r == "GraduationCap"
    ensures category == "event" ==> r == "Star"
  {
    if category == "schedule" then "Calendar"
    else if category == "equipment" then "Settings"
    else if category == "training" then "GraduationCap"
    else if category == "event" then "Star"
    else "MessageSquare"
  }

  /** The four known priorities are told apart only down to 'normal': 'low' is drawn as unknown. */
  lemma LowLooksUnknown(other: string)
    requires other !in {"urgent", "high", "normal"}
    ensures PriorityStyle("low") == PriorityStyle(other)
    ensures PriorityStyle("urgent") != PriorityStyle("high")
    ensures PriorityStyle("high") != PriorityStyle("normal")
    ensures PriorityStyle("normal") != PriorityStyle("low")
  {
  }
}
