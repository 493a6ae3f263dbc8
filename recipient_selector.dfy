/**
 * The recipient picker of the communication centre: a fixed roster and group list, a member
 * search, and the selected users and groups, toggled, filled and cleared by its buttons.
 */
module RecipientSelector {
  import opened Text
  import opened Seqs

  datatype Member = Member(id: int, name: string, role: string, email: string)

  datatype Group = Group(id: string, name: string, count: int)

  /** The roster the picker shows. */
  const TeamMembers: seq<Member> := [
    Member(1, "Sarah Johnson", "Admin", "sarah@church.org"),
    Member(2, "Mike Chen", "Media Lead", "mike@church.org"),
    Member(3, "Emily Davis", "Volunteer", "emily@church.org"),
    Member(4, "David Wilson", "Volunteer", "david@church.org"),
    Member(5, "Lisa Brown", "Media Lead", "lisa@church.org"),
    Member(6, "Tom Anderson", "Volunteer", "tom@church.org")
  ]

  /** The number of members holding `role`. */
  function CountRole(members: seq<Member>, role: string): (n: nat)
    ensures n <= |members|
  {
    |Filter(members, (m: Member) => m.role == role)|
  }

  /** The group list: three role groups counted from the roster and three fixed team sizes. */
  function Groups(members: seq<Member>): (gs: seq<Group>)
    ensures |gs| == 7 && gs[0].id == "all" && gs[0].count == |members|
    ensures gs[1].count == CountRole(members, "Admin") && gs[2].count == CountRole(members, "Media Lead")
    ensures gs[3].count == CountRole(members, "Volunteer")
  {
    [ Group("all", "All Team Members", |members|),
      Group("admins", "Administrators", CountRole(members, "Admin")),
      Group("leads", "Media Leads", CountRole(members, "Media Lead")),
      Group("volunteers", "Volunteers", CountRole(members, "Volunteer")),
      Group("audio", "Audio Team", 8),
      Group("video", "Video Team", 6),
      Group("lighting", "Lighting Team", 4) ]
  }

  predicate KnownRole(m: Member) {
    m.role == "Admin" || m.role == "Media Lead" || m.role == "Volunteer"
  }

  /** When every member has one of the three roles, the role groups add up to 'all'. */
  lemma {:induction false} RoleCountsAddUp(members: seq<Member>)
    requires forall i :: 0 <= i < |members| ==> KnownRole(members[i])
    ensures CountRole(members, "Admin") + CountRole(members, "Media Lead") + CountRole(members, "Volunteer") == |members|
  {
    if members != [] {
      RoleCountsAddUp(members[1..]);
      CountRoleStep(members, "Admin");
      CountRoleStep(members, "Media Lead");
      CountRoleStep(members, "Volunteer");
      RoleNamesDistinct();
    }
  }

  lemma CountRoleStep(members: seq<Member>, role: string)
    requires members != []
    ensures CountRole(members, role) == (if members[0].role == role then 1 else 0) + CountRole(members[1..], role)
  {
  }

  lemma RoleNamesDistinct()
    ensures "Admin" != "Media Lead" && "Admin" != "Volunteer" && "Media Lead" != "Volunteer"
  {
    assert "Admin"[0] != "Media Lead"[0] && "Admin"[0] != "Volunteer"[0] && "Media Lead"[0] != "Volunteer"[0];
  }

  /** The role groups always add up to 'all' on lists of known roles, the roster among them. */
  lemma GroupsAddUp(members: seq<Member>)
    requires forall i :: 0 <= i < |members| ==> KnownRole(members[i])
    ensures var gs := Groups(members);
      gs[1].count + gs[2].count + gs[3].count == gs[0].count
  {
    RoleCountsAddUp(members);
  }

  lemma RosterRolesKnown()
    ensures |TeamMembers| == 6
    ensures forall i :: 0 <= i < |TeamMembers| ==> KnownRole(TeamMembers[i])
  {
  }

  /** Name, e-mail or role contains the search term, ignoring case. */
  predicate MemberMatches(m: Member, term: string) {
    IncludesIgnoringCase(m.name, term) || IncludesIgnoringCase(m.email, term) || IncludesIgnoringCase(m.role, term)
  }

  /** `filteredMembers`: the matching members, in roster order. */
  function FilteredMembers(members: seq<Member>, term: string): (r: seq<Member>)
    ensures forall i :: 0 <= i < |r| ==> r[i] in members && MemberMatches(r[i], term)
    ensures forall i :: 0 <= i < |members| && MemberMatches(members[i], term) ==> members[i] in r
  {
    Filter(members, (m: Member) => MemberMatches(m, term))
  }

  /** An empty search lists the whole roster. */
  lemma EmptySearchListsAll(members: seq<Member>)
    ensures FilteredMembers(members, "") == members
  {
    forall m | m in members ensures MemberMatches(m, "") {
      EmptyTermMatches(m.name);
    }
    FilterKeepsAll(members, (m: Member) => MemberMatches(m, ""));
  }

  function Ids(members: seq<Member>): (r: seq<int>)
    ensures |r| == |members| && forall i :: 0 <= i < |r| ==> r[i] == members[i].id
  {
    Map(members, (m: Member) => m.id)
  }

  /** The roster ids are distinct, so selecting all selects each member once. */
  lemma RosterIdsDistinct()
    ensures NoDuplicates(Ids(TeamMembers))
  {
    RosterIdsArePositions();
    var ids := Ids(TeamMembers);
    assert forall i :: 0 <= i < |ids| ==> ids[i] == i + 1;
  }

  /** The roster numbers its members 1 to 6 in order. */
  lemma RosterIdsArePositions()
    ensures forall i :: 0 <= i < |TeamMembers| ==> TeamMembers[i].id == i + 1
  {
  }

  lemma DistinctCount(users: seq<int>, groups: seq<string>)
    ensures NoDuplicates(users) && NoDuplicates(groups) ==>
      |users| + |groups| == |Elements(users)| + |Elements(groups)|
  {
    if NoDuplicates(users) && NoDuplicates(groups) {
      DistinctElements(users);
      DistinctElements(groups);
    }
  }

  class Selector {
    var searchTerm: string
    var selectedUsers: seq<int>
    var selectedGroups: seq<string>

    /** No user or group is selected twice. */
    ghost predicate Valid()
      reads this
    {
      NoDuplicates(selectedUsers) && NoDuplicates(selectedGroups)
    }

    /** The users start as the `selectedRecipients` prop, the groups empty. */
    constructor (selectedRecipients: seq<int>)
      ensures searchTerm == "" && selectedUsers == selectedRecipients && selectedGroups == []
      ensures NoDuplicates(selectedRecipients) ==> Valid()
    {
      searchTerm := "";
      selectedUsers := selectedRecipients;
      selectedGroups := [];
    }

    /** The "N selected" count: while nothing is selected twice, the number of distinct recipients chosen. */
    function SelectedCount(): (n: nat)
      reads this
      ensures n == |selectedUsers| + |selectedGroups|
      ensures Valid() ==> n == |Elements(selectedUsers)| + |Elements(selectedGroups)|
    {
      DistinctCount(selectedUsers, selectedGroups);
      |selectedUsers| + |selectedGroups|
    }

    /** `handleUserToggle`: a selected user is removed, any other appended; membership flips. */
    method UserToggle(userId: int)
      modifies this
      ensures selectedUsers == Toggle(old(selectedUsers), userId)
      ensures userId in selectedUsers <==> userId !in old(selectedUsers)
      ensures selectedGroups == old(selectedGroups) && searchTerm == old(searchTerm)
      ensures old(Valid()) ==> Valid()
    {
      if Valid() {
        ToggleProperties(selectedUsers, userId);
      }
      if userId in selectedUsers {
        selectedUsers := Without(selectedUsers, userId);
      } else {
        selectedUsers := selectedUsers + [userId];
      }
    }

    /** `handleGroupToggle`: the same on the groups. */
    method GroupToggle(groupId: string)
      modifies this
      ensures selectedGroups == Toggle(old(selectedGroups), groupId)
      ensures groupId in selectedGroups <==> groupId !in old(selectedGroups)
      ensures selectedUsers == old(selectedUsers) && searchTerm == old(searchTerm)
      ensures old(Valid()) ==> Valid()
    {
      if Valid() {
        ToggleProperties(selectedGroups, groupId);
      }
      if groupId in selectedGroups {
        selectedGroups := Without(selectedGroups, groupId);
      } else {
        selectedGroups := selectedGroups + [groupId];
      }
    }

    /** `handleSelectAll`: every roster id, in roster order; the groups stay. */
    method SelectAll()
      modifies this
      ensures selectedUsers == Ids(TeamMembers) && NoDuplicates(selectedUsers)
      ensures selectedGroups == old(selectedGroups) && searchTerm == old(searchTerm)
      ensures old(Valid()) ==> Valid()
    {
      var ids := Ids(TeamMembers);
      RosterIdsDistinct();
      selectedUsers := ids;
      assert selectedGroups == old(selectedGroups);
    }

    /** `handleClearAll`: nothing selected. */
    method ClearAll()
      modifies this
      ensures selectedUsers == [] && selectedGroups == [] && searchTerm == old(searchTerm)
      ensures Valid() && SelectedCount() == 0
    {
      selectedUsers := [];
      selectedGroups := [];
    }

    method Search(term: string)
      modifies this
      ensures searchTerm == term
      ensures selectedUsers == old(selectedUsers) && selectedGroups == old(selectedGroups)
    {
      searchTerm := term;
    }

    /** `handleConfirm`: the selection handed to the page, unchanged. */
    method Confirm() returns (users: seq<int>, groups: seq<string>)
      ensures users == selectedUsers && groups == selectedGroups
      ensures |users| + |groups| == SelectedCount()
    {
      users, groups := selectedUsers, selectedGroups;
    }
  }

  /** Toggling the same user twice leaves the same users selected. */
  lemma ToggleTwiceRestores(s: seq<int>, id: int)
    requires NoDuplicates(s)
    ensures forall x :: x in Toggle(Toggle(s, id), id) <==> x in s
  {
    ToggleProperties(s, id);
    var t := Toggle(Toggle(s, id), id);
    forall x ensures x in t <==> x in s {
      if x in s {
        var i :| 0 <= i < |s| && s[i] == x;
      }
      if x in t {
        var i :| 0 <= i < |t| && t[i] == x;
      }
    }
  }
}
