/**
 * The user management page: the team list with its search and role and status filters, the
 * per-user role and status changes, the save of an edited user, the checkbox selection with
 * its bulk action, and the four counts of the stats cards.
 */
module UserManagement {
  import opened Optional
  import opened Text
  import opened Seqs

  datatype Notifications = Notifications(email: bool, sms: bool, push: bool)

  /** A team member; ids are strings ('user1', ...), `lastActivity` is milliseconds. The avatar is left out. */
  datatype User = User(
    id: string,
    name: string,
    email: string,
    phone: string,
    role: string,
    status: string,
    skills: seq<string>,
    availability: seq<string>,
    lastActivity: int,
    notifications: Notifications,
    bio: string)

  /** The record the detail panel hands to `onSave`: every field it edits. */
  datatype UserForm = UserForm(
    name: string,
    email: string,
    phone: string,
    role: string,
    status: string,
    skills: seq<string>,
    availability: seq<string>,
    notifications: Notifications,
    bio: string)

  /** The editable fields of a user. */
  function FormOf(u: User): UserForm {
    UserForm(u.name, u.email, u.phone, u.role, u.status, u.skills, u.availability, u.notifications, u.bio)
  }

  /** `{ ...user, ...userData }`: the form's fields over the user's; the id and activity stay. */
  function Merge(u: User, f: UserForm): (r: User)
    ensures FormOf(r) == f
    ensures r.id == u.id && r.lastActivity == u.lastActivity
  {
    u.(name := f.name, email := f.email, phone := f.phone, role := f.role, status := f.status,
       skills := f.skills, availability := f.availability, notifications := f.notifications, bio := f.bio)
  }

  /** Saving an unedited form gives back the same user. */
  lemma MergeOwnForm(u: User)
    ensures Merge(u, FormOf(u)) == u
  {
  }

  /** Saving twice is saving the second form. */
  lemma MergeLastWins(u: User, f: UserForm, g: UserForm)
    ensures Merge(Merge(u, f), g) == Merge(u, g)
  {
  }

  // ---------------------------------------------------------------------
  // The filter

  /** The search text and the role and status choices; '' is "all". */
  datatype UserQuery = UserQuery(search: string, role: string, status: string)

  /** The state after "Reset". */
  const NoQuery := UserQuery("", "", "")

  /** Name or e-mail contains the search ignoring case, and role and status equal their choices when set. */
  predicate MatchesUser(u: User, q: UserQuery) {
    && (IncludesIgnoringCase(u.name, q.search) || IncludesIgnoringCase(u.email, q.search))
    && (q.role == "" || u.role == q.role)
    && (q.status == "" || u.status == q.status)
  }

  function MatchesFn(q: UserQuery): User -> bool {
    (u: User) => MatchesUser(u, q)
  }

  /** `filteredUsers`: exactly the matching users, in list order. */
  function FilteredUsers(users: seq<User>, q: UserQuery): (r: seq<User>)
    ensures forall i :: 0 <= i < |r| ==> r[i] in users && MatchesUser(r[i], q)
    ensures forall i :: 0 <= i < |users| && MatchesUser(users[i], q) ==> users[i] in r
    ensures multiset(r) <= multiset(users)
  {
    Filter(users, MatchesFn(q))
  }

  /** After "Reset" every user is listed. */
  lemma ResetListsAll(users: seq<User>)
    ensures FilteredUsers(users, NoQuery) == users
  {
    forall u | u in users ensures MatchesUser(u, NoQuery) {
      EmptyTermMatches(u.name);
    }
    FilterKeepsAll(users, MatchesFn(NoQuery));
  }

  /** A role choice lists only users of that role, whatever the other two parts. */
  lemma RoleChoiceListsRole(users: seq<User>, q: UserQuery)
    requires q.role != ""
    ensures forall i :: 0 <= i < |FilteredUsers(users, q)| ==> FilteredUsers(users, q)[i].role == q.role
  {
  }

  // ---------------------------------------------------------------------
  // Changes to the list

  /** `onRoleChange(userId, newRole)`: the users with that id take the role and nothing else changes. */
  function SetRole(users: seq<User>, userId: string, role: string): (r: seq<User>)
    ensures |r| == |users|
    ensures forall i :: 0 <= i < |users| && users[i].id != userId ==> r[i] == users[i]
    ensures forall i :: 0 <= i < |users| && users[i].id == userId ==>
      r[i].role == role && r[i].(role := users[i].role) == users[i]
  {
    Map(users, (u: User) => if u.id == userId then u.(role := role) else u)
  }

  /** `onStatusChange(userId, newStatus)`: the same for the status. */
  function SetStatus(users: seq<User>, userId: string, status: string): (r: seq<User>)
    ensures |r| == |users|
    ensures forall i :: 0 <= i < |users| && users[i].id != userId ==> r[i] == users[i]
    ensures forall i :: 0 <= i < |users| && users[i].id == userId ==>
      r[i].status == status && r[i].(status := users[i].status) == users[i]
  {
    Map(users, (u: User) => if u.id == userId then u.(status := status) else u)
  }

  /** Choosing the role a user already has changes nothing; choosing twice is choosing once. */
  lemma SetRoleIdempotent(users: seq<User>, userId: string, role: string)
    ensures SetRole(SetRole(users, userId, role), userId, role) == SetRole(users, userId, role)
    ensures (forall i :: 0 <= i < |users| && users[i].id == userId ==> users[i].role == role) ==>
      SetRole(users, userId, role) == users
  {
  }

  /**
   * `handleSaveUser(userData)`: the form is merged into the user whose id is the open user's id;
   * with no user open, `undefined` equals no id and nothing changes.
   */
  function SaveUser(users: seq<User>, openUser: Option<User>, f: UserForm): (r: seq<User>)
    ensures |r| == |users|
    ensures openUser.None? ==> r == users
    ensures openUser.Some? ==> forall i :: 0 <= i < |users| ==>
      (if users[i].id == openUser.value.id then r[i] == Merge(users[i], f) else r[i] == users[i])
  {
    match openUser
    case None => users
    case Some(sel) => Map(users, (u: User) => if u.id == sel.id then Merge(u, f) else u)
  }

  // ---------------------------------------------------------------------
  // The stats cards

  datatype UserStats = UserStats(total: nat, active: nat, admins: nat, pending: nat)

  function CountStatus(users: seq<User>, status: string): nat {
    |Filter(users, (u: User) => u.status == status)|
  }

  function CountRole(users: seq<User>, role: string): nat {
    |Filter(users, (u: User) => u.role == role)|
  }

  /** Total, 'active', 'admin' and 'pending' counts: each bounded by the total. */
  function Stats(users: seq<User>): (st: UserStats)
    ensures st.total == |users|
    ensures st.active <= st.total && st.admins <= st.total && st.pending <= st.total
    ensures st.active == CountStatus(users, "active") && st.pending == CountStatus(users, "pending")
    ensures st.admins == CountRole(users, "admin")
  {
    UserStats(|users|, CountStatus(users, "active"), CountRole(users, "admin"), CountStatus(users, "pending"))
  }

  /** A user has one status, so the active and pending users together are at most the total. */
  lemma ActiveAndPendingBounded(users: seq<User>)
    ensures Stats(users).active + Stats(users).pending <= Stats(users).total
  {
    FilterDisjoint(users, (u: User) => u.status == "active", (u: User) => u.status == "pending");
  }

  /** A role change never moves a user between statuses: the status counts stay. */
  lemma RoleChangeKeepsStatusCounts(users: seq<User>, userId: string, role: string, status: string)
    ensures CountStatus(SetRole(users, userId, role), status) == CountStatus(users, status)
  {
    var r := SetRole(users, userId, role);
    StatusesOfMap(users, r, status);
  }

  /** Two lists that agree on every status have the same count for each. */
  lemma {:induction false} StatusesOfMap(a: seq<User>, b: seq<User>, status: string)
    requires |a| == |b| && forall i :: 0 <= i < |a| ==> a[i].status == b[i].status
    ensures CountStatus(a, status) == CountStatus(b, status)
  {
    if a != [] {
      StatusesOfMap(a[1..], b[1..], status);
    }
  }

  /** The ids of a list of users, in order. */
  function Ids(users: seq<User>): (r: seq<string>)
    ensures |r| == |users| && forall i :: 0 <= i < |r| ==> r[i] == users[i].id
  {
    Map(users, (u: User) => u.id)
  }

  /** One more user of a list adds that user's id to the ids of the prefix. */
  lemma IdsPrefixStep(users: seq<User>, i: int)
    requires 0 <= i < |users|
    ensures Ids(users[..i + 1]) == Ids(users[..i]) + [users[i].id]
  {
    assert users[..i + 1][i] == users[i];
  }

  // ---------------------------------------------------------------------
  // The page state

  class Page {
    var users: seq<User>
    var openUser: Option<User>
    var selectedUsers: seq<string>
    var query: UserQuery

    /** The page starts from the seeded list, with no user open, nothing selected and no filter. */
    constructor (seed: seq<User>)
      ensures users == seed && openUser.None? && selectedUsers == [] && query == NoQuery
    {
      users := seed;
      openUser := None;
      selectedUsers := [];
      query := NoQuery;
    }

    /** The users the table lists. */
    function Listed(): (r: seq<User>)
      reads this
      ensures forall i :: 0 <= i < |r| ==> r[i] in users && MatchesUser(r[i], query)
      ensures forall i :: 0 <= i < |users| && MatchesUser(users[i], query) ==> users[i] in r
    {
      FilteredUsers(users, query)
    }

    /** `handleUserToggle(userId, checked)`: checking appends, unchecking removes every copy. */
    method UserToggle(userId: string, checked: bool)
      modifies this
      ensures checked ==> selectedUsers == old(selectedUsers) + [userId]
      ensures !checked ==> selectedUsers == Without(old(selectedUsers), userId) && userId !in selectedUsers
      ensures users == old(users) && openUser == old(openUser) && query == old(query)
    {
      if checked {
        selectedUsers := selectedUsers + [userId];
      } else {
        selectedUsers := Without(selectedUsers, userId);
      }
    }

    /**
     * The header checkbox of the table: `onUserToggle(user.id, checked)` for each listed user in
     * turn. Checking appends every listed id; unchecking removes every listed id.
     */
    method HeaderToggle(listed: seq<User>, checked: bool)
      modifies this
      ensures checked ==> selectedUsers == old(selectedUsers) + Ids(listed)
      ensures !checked ==> selectedUsers == WithoutAll(old(selectedUsers), Ids(listed))
      ensures users == old(users) && openUser == old(openUser) && query == old(query)
    {
      var start := selectedUsers;
      var i := 0;
      WithoutAllNone(start);
      while i < |listed|
        invariant 0 <= i <= |listed|
        invariant checked ==> selectedUsers == start + Ids(listed[..i])
        invariant !checked ==> selectedUsers == WithoutAll(start, Ids(listed[..i]))
        invariant users == old(users) && openUser == old(openUser) && query == old(query)
      {
        IdsPrefixStep(listed, i);
        if !checked {
          WithoutAllStep(start, Ids(listed[..i]), listed[i].id);
        }
        UserToggle(listed[i].id, checked);
        i := i + 1;
      }
      assert listed[..i] == listed;
    }

    /** `handleBulkAction` and "Clear selection": the selection always empties. */
    method BulkAction()
      modifies this
      ensures selectedUsers == []
      ensures users == old(users) && openUser == old(openUser) && query == old(query)
    {
      selectedUsers := [];
    }

    /** `onUserSelect`: opens the detail panel on that user. */
    method OpenUser(u: User)
      modifies this
      ensures openUser == Some(u)
      ensures users == old(users) && selectedUsers == old(selectedUsers) && query == old(query)
    {
      openUser := Some(u);
    }

    /** The panel's `onClose`. */
    method ClosePanel()
      modifies this
      ensures openUser.None?
      ensures users == old(users) && selectedUsers == old(selectedUsers) && query == old(query)
    {
      openUser := None;
    }

    /** `handleSaveUser(userData)`: the merge into the open user, then the panel closes. */
    method Save(f: UserForm)
      modifies this
      ensures users == SaveUser(old(users), old(openUser), f) && openUser.None?
      ensures selectedUsers == old(selectedUsers) && query == old(query)
    {
      users := SaveUser(users, openUser, f);
      openUser := None;
    }

    method RoleChange(userId: string, role: string)
      modifies this
      ensures users == SetRole(old(users), userId, role)
      ensures openUser == old(openUser) && selectedUsers == old(selectedUsers) && query == old(query)
    {
      users := SetRole(users, userId, role);
    }

    method StatusChange(userId: string, status: string)
      modifies this
      ensures users == SetStatus(old(users), userId, status)
      ensures openUser == old(openUser) && selectedUsers == old(selectedUsers) && query == old(query)
    {
      users := SetStatus(users, userId, status);
    }

    /** The search box and the two selects. */
    method SetQuery(q: UserQuery)
      modifies this
      ensures query == q
      ensures users == old(users) && openUser == old(openUser) && selectedUsers == old(selectedUsers)
    {
      query := q;
    }

    /** "Reset": all three parts of the filter cleared, so every user is listed again. */
    method Reset()
      modifies this
      ensures query == NoQuery && Listed() == users
      ensures users == old(users) && openUser == old(openUser) && selectedUsers == old(selectedUsers)
    {
      query := NoQuery;
      ResetListsAll(users);
    }
  }

  /**
   * The header checkbox compares only lengths. While the selection repeats no id and holds only
   * listed ids, and the listed ids are distinct, that is the same as every listed user being
   * selected.
   */
  function HeaderChecked(selected: seq<string>, listed: seq<User>): (b: bool)
    ensures b <==> |selected| == |listed|
    ensures NoDuplicates(selected) && NoDuplicates(Ids(listed)) && (forall k :: 0 <= k < |selected| ==> selected[k] in Ids(listed)) ==>
      (b <==> forall i :: 0 <= i < |listed| ==> listed[i].id in selected)
  {
    HeaderMeansAllSelected(selected, listed);
    |selected| == |listed|
  }

  lemma HeaderMeansAllSelected(selected: seq<string>, listed: seq<User>)
    ensures NoDuplicates(selected) && NoDuplicates(Ids(listed)) && (forall k :: 0 <= k < |selected| ==> selected[k] in Ids(listed)) ==>
      (|selected| == |listed| <==> forall i :: 0 <= i < |listed| ==> listed[i].id in selected)
  {
    var ids := Ids(listed);
    if NoDuplicates(selected) && NoDuplicates(ids) && (forall k :: 0 <= k < |selected| ==> selected[k] in ids) {
      DistinctElements(selected);
      DistinctElements(ids);
      assert Elements(selected) <= Elements(ids);
      SubsetCard(Elements(selected), Elements(ids));
      if |selected| == |listed| {
        assert |Elements(selected)| == |Elements(ids)|;
        assert Elements(selected) == Elements(ids);
        forall i | 0 <= i < |listed| ensures listed[i].id in selected {
          assert ids[i] == listed[i].id && ids[i] in Elements(ids);
        }
      }
      if forall i :: 0 <= i < |listed| ==> listed[i].id in selected {
        assert Elements(ids) <= Elements(selected) by {
          forall x | x in Elements(ids) ensures x in Elements(selected) {
            var i :| 0 <= i < |ids| && ids[i] == x;
            assert listed[i].id == x;
          }
        }
        assert Elements(ids) == Elements(selected);
        assert |selected| == |ids| == |listed|;
      }
    }
  }

  /** Checking the header from an empty selection selects every listed user and shows it checked. */
  lemma HeaderCheckFromEmpty(listed: seq<User>)
    ensures HeaderChecked(Ids(listed), listed)
    ensures forall i :: 0 <= i < |listed| ==> listed[i].id in Ids(listed)
  {
  }

  /** From a selection that is not empty, checking the header overshoots and it shows unchecked. */
  lemma HeaderCheckOvershoots(selected: seq<string>, listed: seq<User>)
    requires selected != []
    ensures !HeaderChecked(selected + Ids(listed), listed)
  {
  }
}
