/**
 * The schedule editor dialog: a buffer of role assignments for one service,
 * edited by the per-role dropdowns and by dragging a volunteer onto a role,
 * with the eligible volunteers, the dropdown options and an advisory list of
 * volunteers with conflicts derived from it.
 */
module ScheduleModal {
  import opened Optional
  import opened Seqs
  import opened Scheduling
  import opened Dates

  // ---------------------------------------------------------------------
  // The assignment buffer

  /** `!volunteerId`: the empty choice '' and the id 0 are both falsy and clear the role. */
  predicate IsFalsy(choice: Option<int>) {
    choice.None? || choice.value == 0
  }

  function NotForRole(roleId: string): Assignment -> bool {
    (x: Assignment) => x.roleId != roleId
  }

  function ForRole(roleId: string): Assignment -> bool {
    (x: Assignment) => x.roleId == roleId
  }

  /** `buffer.filter(a => a.roleId !== roleId)`. */
  function WithoutRole(buffer: seq<Assignment>, roleId: string): (r: seq<Assignment>)
    ensures forall i :: 0 <= i < |r| ==> r[i] in buffer && r[i].roleId != roleId
    ensures |r| <= |buffer|
  {
    Filter(buffer, NotForRole(roleId))
  }

  /** The entries of the buffer for one role, in buffer order. */
  function EntriesFor(buffer: seq<Assignment>, roleId: string): (r: seq<Assignment>)
    ensures forall i :: 0 <= i < |r| ==> r[i] in buffer && r[i].roleId == roleId
  {
    Filter(buffer, ForRole(roleId))
  }

  /** `handleAssignVolunteer`: drop every entry for the role, then append the new one unless the choice is falsy. */
  function Assign(buffer: seq<Assignment>, roleId: string, choice: Option<int>, now: int): seq<Assignment> {
    var others := WithoutRole(buffer, roleId);
    if IsFalsy(choice) then others else others + [Assignment(roleId, choice.value, now)]
  }

  /** At most one entry per role. */
  ghost predicate OnePerRole(buffer: seq<Assignment>) {
    forall i, j :: 0 <= i < j < |buffer| ==> buffer[i].roleId != buffer[j].roleId
  }

  lemma WithoutRoleConcat(a: seq<Assignment>, b: seq<Assignment>, roleId: string)
    ensures WithoutRole(a + b, roleId) == WithoutRole(a, roleId) + WithoutRole(b, roleId)
  {
    FilterConcat(a, b, NotForRole(roleId));
  }

  lemma EntriesForConcat(a: seq<Assignment>, b: seq<Assignment>, roleId: string)
    ensures EntriesFor(a + b, roleId) == EntriesFor(a, roleId) + EntriesFor(b, roleId)
  {
    FilterConcat(a, b, ForRole(roleId));
  }

  /** Removing a role twice is removing it once. */
  lemma {:induction false} WithoutRoleIdempotent(buffer: seq<Assignment>, roleId: string)
    ensures WithoutRole(WithoutRole(buffer, roleId), roleId) == WithoutRole(buffer, roleId)
  {
    if buffer != [] {
      WithoutRoleIdempotent(buffer[1..], roleId);
      var rest := WithoutRole(buffer[1..], roleId);
      if buffer[0].roleId != roleId {
        assert WithoutRole(buffer, roleId) == [buffer[0]] + rest;
        WithoutRoleConcat([buffer[0]], rest, roleId);
        assert WithoutRole([buffer[0]], roleId) == [buffer[0]] + WithoutRole([], roleId);
      } else {
        assert WithoutRole(buffer, roleId) == rest;
      }
    }
  }

  /** Removing one role keeps the entries of every other role as they were. */
  lemma {:induction false} WithoutRoleKeepsOthers(buffer: seq<Assignment>, roleId: string, other: string)
    requires other != roleId
    ensures EntriesFor(WithoutRole(buffer, roleId), other) == EntriesFor(buffer, other)
  {
    if buffer != [] {
      WithoutRoleKeepsOthers(buffer[1..], roleId, other);
      var rest := WithoutRole(buffer[1..], roleId);
      var head := if buffer[0].roleId == other then [buffer[0]] else [];
      assert EntriesFor(buffer, other) == head + EntriesFor(buffer[1..], other);
      if buffer[0].roleId != roleId {
        assert WithoutRole(buffer, roleId) == [buffer[0]] + rest;
        EntriesForConcat([buffer[0]], rest, other);
        assert EntriesFor([buffer[0]], other) == head + EntriesFor([], other);
      } else {
        assert WithoutRole(buffer, roleId) == rest;
      }
    }
  }

  lemma {:induction false} NoEntriesLeft(buffer: seq<Assignment>, roleId: string)
    ensures EntriesFor(WithoutRole(buffer, roleId), roleId) == []
  {
    if buffer != [] {
      NoEntriesLeft(buffer[1..], roleId);
      var rest := WithoutRole(buffer[1..], roleId);
      if buffer[0].roleId != roleId {
        var w := [buffer[0]] + rest;
        assert WithoutRole(buffer, roleId) == w;
        assert w[0] == buffer[0] && w[1..] == rest;
        assert EntriesFor(w, roleId) == [] + EntriesFor(rest, roleId);
      } else {
        assert WithoutRole(buffer, roleId) == [] + rest;
        assert [] + rest == rest;
      }
    }
  }

  /**
   * Assigning a volunteer leaves exactly one entry for the role, naming that volunteer and placed
   * last; the entries of every other role, and their order, are untouched.
   */
  lemma AssignSetsRole(buffer: seq<Assignment>, roleId: string, volunteerId: int, now: int)
    requires !IsFalsy(Some(volunteerId))
    ensures var r := Assign(buffer, roleId, Some(volunteerId), now);
      && EntriesFor(r, roleId) == [Assignment(roleId, volunteerId, now)]
      && r[|r| - 1] == Assignment(roleId, volunteerId, now)
      && WithoutRole(r, roleId) == WithoutRole(buffer, roleId)
      && forall other :: other != roleId ==> EntriesFor(r, other) == EntriesFor(buffer, other)
  {
    var w := WithoutRole(buffer, roleId);
    var x := Assignment(roleId, volunteerId, now);
    var r := w + [x];
    assert Assign(buffer, roleId, Some(volunteerId), now) == r;
    SingleEntry(x, roleId);
    EntriesForConcat(w, [x], roleId);
    NoEntriesLeft(buffer, roleId);
    assert EntriesFor(r, roleId) == [x];
    WithoutRoleConcat(w, [x], roleId);
    WithoutRoleIdempotent(buffer, roleId);
    assert WithoutRole(r, roleId) == w;
    forall other | other != roleId
      ensures EntriesFor(r, other) == EntriesFor(buffer, other)
    {
      SingleEntry(x, other);
      EntriesForConcat(w, [x], other);
      WithoutRoleKeepsOthers(buffer, roleId, other);
    }
  }

  /** A one-entry buffer: its entries for a role, and what removing a role leaves of it. */
  lemma SingleEntry(x: Assignment, roleId: string)
    ensures EntriesFor([x], roleId) == (if x.roleId == roleId then [x] else [])
    ensures WithoutRole([x], roleId) == (if x.roleId != roleId then [x] else [])
  {
    assert [x][0] == x && [x][1..] == [];
  }

  /** The empty choice removes every entry for the role and nothing else. */
  lemma AssignEmptyClearsRole(buffer: seq<Assignment>, roleId: string, choice: Option<int>, now: int)
    requires IsFalsy(choice)
    ensures var r := Assign(buffer, roleId, choice, now);
      && EntriesFor(r, roleId) == []
      && forall other :: other != roleId ==> EntriesFor(r, other) == EntriesFor(buffer, other)
  {
    NoEntriesLeft(buffer, roleId);
    forall other | other != roleId
      ensures EntriesFor(WithoutRole(buffer, roleId), other) == EntriesFor(buffer, other)
    {
      WithoutRoleKeepsOthers(buffer, roleId, other);
    }
  }

  lemma {:induction false} WithoutRoleKeepsOnePerRole(buffer: seq<Assignment>, roleId: string)
    requires OnePerRole(buffer)
    ensures OnePerRole(WithoutRole(buffer, roleId))
  {
    if buffer != [] {
      WithoutRoleKeepsOnePerRole(buffer[1..], roleId);
      var rest := WithoutRole(buffer[1..], roleId);
      forall k | 0 <= k < |rest| ensures rest[k].roleId != buffer[0].roleId {
        var j :| 0 <= j < |buffer[1..]| && buffer[1..][j] == rest[k];
        assert buffer[j + 1] == rest[k];
      }
    }
  }

  /** A buffer with at most one entry per role keeps that shape through every assignment. */
  lemma AssignKeepsOnePerRole(buffer: seq<Assignment>, roleId: string, choice: Option<int>, now: int)
    requires OnePerRole(buffer)
    ensures OnePerRole(Assign(buffer, roleId, choice, now))
  {
    WithoutRoleKeepsOnePerRole(buffer, roleId);
  }

  /** Repeated assignments to one role: the last one wins. */
  lemma LastAssignWins(buffer: seq<Assignment>, roleId: string, first: Option<int>, second: Option<int>, t1: int, t2: int)
    ensures Assign(Assign(buffer, roleId, first, t1), roleId, second, t2) == Assign(buffer, roleId, second, t2)
  {
    var w := WithoutRole(buffer, roleId);
    var once := Assign(buffer, roleId, first, t1);
    WithoutRoleIdempotent(buffer, roleId);
    assert WithoutRole(once, roleId) == w by {
      if !IsFalsy(first) {
        var entry := Assignment(roleId, first.value, t1);
        assert once == w + [entry];
        WithoutRoleConcat(w, [entry], roleId);
        assert [entry][0] == entry && [entry][1..] == [];
        assert WithoutRole([entry], roleId) == [];
      }
    }
  }

  // ---------------------------------------------------------------------
  // Derived views of the buffer

  /** `getAssignedVolunteer`: the volunteer named by the first entry for the role, if both exist. */
  function AssignedVolunteer(buffer: seq<Assignment>, volunteers: seq<Volunteer>, roleId: string): Option<Volunteer> {
    match FindAssignment(buffer, roleId)
    case Some(a) => FindVolunteer(volunteers, a.volunteerId)
    case None => None
  }

  /** After assigning `v`, the role shows the first registered volunteer with id `v`; after clearing, nobody. */
  lemma AssignedAfterAssign(buffer: seq<Assignment>, volunteers: seq<Volunteer>, roleId: string, choice: Option<int>, now: int)
    ensures var r := Assign(buffer, roleId, choice, now);
      AssignedVolunteer(r, volunteers, roleId) == (if IsFalsy(choice) then None else FindVolunteer(volunteers, choice.value))
  {
    var w := WithoutRole(buffer, roleId);
    var r := Assign(buffer, roleId, choice, now);
    if IsFalsy(choice) {
      assert forall i :: 0 <= i < |w| ==> w[i].roleId != roleId;
    } else {
      var x := Assignment(roleId, choice.value, now);
      assert r == w + [x];
      var found := FindAssignment(r, roleId);
      assert found.Some? by {
        assert r[|w|] == x;
      }
      var i :| 0 <= i < |r| && r[i] == found.value && forall j :: 0 <= j < i ==> r[j].roleId != roleId;
      if i < |w| {
        assert false;
      }
      assert found.value == x;
    }
  }

  /** The volunteers free on the service date who hold no entry: the drag sources of the side panel. */
  function DragCandidates(volunteers: seq<Volunteer>, date: Date, buffer: seq<Assignment>): (r: seq<Volunteer>)
    ensures forall i :: 0 <= i < |r| ==> r[i] in volunteers && date in r[i].availability && !HoldsAssignment(buffer, r[i].id)
    ensures forall i :: 0 <= i < |volunteers| && date in volunteers[i].availability && !HoldsAssignment(buffer, volunteers[i].id) ==> volunteers[i] in r
  {
    Filter(volunteers, (v: Volunteer) => date in v.availability && !HoldsAssignment(buffer, v.id))
  }

  datatype SelectOption = SelectOption(value: Option<int>, text: string)

  function OptionOf(v: Volunteer): SelectOption {
    SelectOption(Some(v.id), v.name)
  }

  /** The dropdown of one role: 'Unassigned', the eligible volunteers, then the current holder if any. */
  function VolunteerOptions(buffer: seq<Assignment>, volunteers: seq<Volunteer>, date: Date, roleId: string): seq<SelectOption> {
    var eligible := Eligible(volunteers, roleId, date, buffer);
    var holder := AssignedVolunteer(buffer, volunteers, roleId);
    [SelectOption(None, "Unassigned")] + Map(eligible, OptionOf) + (if holder.Some? then [OptionOf(holder.value)] else [])
  }

  /**
   * The options start with 'Unassigned', list the eligible volunteers in registry order, and end with
   * the current holder, whose id is never also offered among the eligible ones.
   */
  lemma OptionsShape(buffer: seq<Assignment>, volunteers: seq<Volunteer>, date: Date, roleId: string)
    ensures var opts := VolunteerOptions(buffer, volunteers, date, roleId);
      var eligible := Eligible(volunteers, roleId, date, buffer);
      var holder := AssignedVolunteer(buffer, volunteers, roleId);
      && opts[0] == SelectOption(None, "Unassigned")
      && |opts| == 1 + |eligible| + (if holder.Some? then 1 else 0)
      && (forall i :: 0 <= i < |eligible| ==> opts[i + 1] == SelectOption(Some(eligible[i].id), eligible[i].name))
      && (holder.Some? ==> opts[|opts| - 1] == SelectOption(Some(holder.value.id), holder.value.name)
                           && forall i :: 0 <= i < |eligible| ==> eligible[i].id != holder.value.id)
  {
    OptionsLayout(buffer, volunteers, date, roleId);
    HolderNotEligible(buffer, volunteers, date, roleId);
  }

  lemma OptionsLayout(buffer: seq<Assignment>, volunteers: seq<Volunteer>, date: Date, roleId: string)
    ensures var opts := VolunteerOptions(buffer, volunteers, date, roleId);
      var eligible := Eligible(volunteers, roleId, date, buffer);
      var holder := AssignedVolunteer(buffer, volunteers, roleId);
      && opts[0] == SelectOption(None, "Unassigned")
      && |opts| == 1 + |eligible| + (if holder.Some? then 1 else 0)
      && (forall i :: 0 <= i < |eligible| ==> opts[i + 1] == SelectOption(Some(eligible[i].id), eligible[i].name))
      && (holder.Some? ==> opts[|opts| - 1] == SelectOption(Some(holder.value.id), holder.value.name))
  {
    var eligible := Eligible(volunteers, roleId, date, buffer);
    var holder := AssignedVolunteer(buffer, volunteers, roleId);
    var listed := Map(eligible, OptionOf);
    var front := [SelectOption(None, "Unassigned")] + listed;
    var back := if holder.Some? then [OptionOf(holder.value)] else [];
    var opts := front + back;
    assert opts == VolunteerOptions(buffer, volunteers, date, roleId);
    assert opts[0] == front[0];
    forall i | 0 <= i < |eligible| ensures opts[i + 1] == SelectOption(Some(eligible[i].id), eligible[i].name) {
      assert opts[i + 1] == front[i + 1] == listed[i];
    }
    if holder.Some? {
      assert opts[|opts| - 1] == back[0];
    }
  }

  /** The current holder already holds an entry, so the eligibility filter never offers them. */
  lemma HolderNotEligible(buffer: seq<Assignment>, volunteers: seq<Volunteer>, date: Date, roleId: string)
    ensures var eligible := Eligible(volunteers, roleId, date, buffer);
      var holder := AssignedVolunteer(buffer, volunteers, roleId);
      holder.Some? ==> forall i :: 0 <= i < |eligible| ==> eligible[i].id != holder.value.id
  {
    var eligible := Eligible(volunteers, roleId, date, buffer);
    var holder := AssignedVolunteer(buffer, volunteers, roleId);
    if holder.Some? {
      var a := FindAssignment(buffer, roleId).value;
      assert holder.value.id == a.volunteerId;
      var k :| 0 <= k < |buffer| && buffer[k] == a;
      forall i | 0 <= i < |eligible| ensures eligible[i].id != holder.value.id {
        assert !HoldsAssignment(buffer, eligible[i].id);
      }
    }
  }

  // ---------------------------------------------------------------------
  // Conflicts

  datatype Conflict = Conflict(volunteerId: int, volunteerName: string, conflictCount: int)

  /** The conflict, if any, reported for one entry: its volunteer exists and has conflicts. */
  function ConflictFor(a: Assignment, volunteers: seq<Volunteer>): seq<Conflict> {
    match FindVolunteer(volunteers, a.volunteerId)
    case Some(v) => if v.conflicts > 0 then [Conflict(v.id, v.name, v.conflicts)] else []
    case None => []
  }

  /** A report names a volunteer that an entry of the buffer points at, with that volunteer's name and count. */
  ghost predicate Reported(c: Conflict, buffer: seq<Assignment>, volunteers: seq<Volunteer>) {
    && c.conflictCount > 0
    && (exists i :: 0 <= i < |buffer| && buffer[i].volunteerId == c.volunteerId)
    && (exists j :: 0 <= j < |volunteers| && volunteers[j].id == c.volunteerId
          && volunteers[j].name == c.volunteerName && volunteers[j].conflicts == c.conflictCount)
  }

  /** The reports entry by entry, in buffer order. */
  function Reports(buffer: seq<Assignment>, volunteers: seq<Volunteer>): seq<Conflict> {
    if buffer == [] then [] else Reports(buffer[..|buffer| - 1], volunteers) + ConflictFor(buffer[|buffer| - 1], volunteers)
  }

  lemma {:induction false} ReportsSound(buffer: seq<Assignment>, volunteers: seq<Volunteer>)
    ensures var r := Reports(buffer, volunteers);
      && |r| <= |buffer|
      && (forall k :: 0 <= k < |r| ==> Reported(r[k], buffer, volunteers))
      && (forall i, c :: 0 <= i < |buffer| && c in ConflictFor(buffer[i], volunteers) ==> c in r)
  {
    if buffer != [] {
      var init := buffer[..|buffer| - 1];
      var last := buffer[|buffer| - 1];
      ReportsSound(init, volunteers);
      var prev := Reports(init, volunteers);
      var here := ConflictFor(last, volunteers);
      var r := prev + here;
      assert forall i :: 0 <= i < |init| ==> buffer[i] == init[i];
      forall k | 0 <= k < |r| ensures Reported(r[k], buffer, volunteers) {
        if k < |prev| {
          assert r[k] == prev[k];
          assert Reported(prev[k], init, volunteers);
        } else {
          var v := FindVolunteer(volunteers, last.volunteerId).value;
          var j :| 0 <= j < |volunteers| && volunteers[j] == v;
          assert buffer[|buffer| - 1].volunteerId == r[k].volunteerId;
        }
      }
      forall i, c | 0 <= i < |buffer| && c in ConflictFor(buffer[i], volunteers) ensures c in r {
        if i < |init| {
          assert buffer[i] == init[i];
        }
      }
    }
  }

  lemma ReportsSnoc(s: seq<Assignment>, x: Assignment, volunteers: seq<Volunteer>)
    ensures Reports(s + [x], volunteers) == Reports(s, volunteers) + ConflictFor(x, volunteers)
  {
    var c := s + [x];
    assert c[..|c| - 1] == s && c[|c| - 1] == x;
  }

  lemma {:induction false} ReportsConcat(a: seq<Assignment>, b: seq<Assignment>, volunteers: seq<Volunteer>)
    ensures Reports(a + b, volunteers) == Reports(a, volunteers) + Reports(b, volunteers)
    decreases |b|
  {
    if b == [] {
      assert a + b == a;
    } else {
      var init, last := b[..|b| - 1], b[|b| - 1];
      assert a + b == (a + init) + [last] by {
        assert b == init + [last];
      }
      var left := Reports(a, volunteers);
      var here := ConflictFor(last, volunteers);
      ReportsConcat(a, init, volunteers);
      ReportsSnoc(a + init, last, volunteers);
      assert Reports(a + b, volunteers) == left + Reports(init, volunteers) + here;
      ReportsSnoc(init, last, volunteers);
      assert init + [last] == b;
      assert left + Reports(init, volunteers) + here == left + (Reports(init, volunteers) + here);
    }
  }

  /**
   * The advisory conflict list, in buffer order: one report per entry whose volunteer exists and has
   * conflicts, carrying that volunteer's id, name and count; entries without one report nothing.
   */
  function ConflictsOf(buffer: seq<Assignment>, volunteers: seq<Volunteer>): (r: seq<Conflict>)
    ensures |r| <= |buffer|
    ensures forall k :: 0 <= k < |r| ==> Reported(r[k], buffer, volunteers)
    ensures forall i, c :: 0 <= i < |buffer| && c in ConflictFor(buffer[i], volunteers) ==> c in r
  {
    ReportsSound(buffer, volunteers);
    Reports(buffer, volunteers)
  }

  /** One entry reports exactly its own conflict, if it has one. */
  lemma ConflictsOfSingle(x: Assignment, volunteers: seq<Volunteer>)
    ensures ConflictsOf([x], volunteers) == ConflictFor(x, volunteers)
  {
    assert [x][..0] == [];
    assert Reports([x], volunteers) == Reports([], volunteers) + ConflictFor(x, volunteers);
  }

  /**
   * The reports of two buffers joined are the reports of the first followed by those of the
   * second: with `ConflictsOfSingle` this fixes both the order and the number of reports.
   */
  lemma ConflictsOfConcat(a: seq<Assignment>, b: seq<Assignment>, volunteers: seq<Volunteer>)
    ensures ConflictsOf(a + b, volunteers) == ConflictsOf(a, volunteers) + ConflictsOf(b, volunteers)
  {
    ReportsConcat(a, b, volunteers);
  }

  // ---------------------------------------------------------------------
  // The dialog component

  /** `useState(service?.assignments || [])`: the buffer a fresh dialog starts from. */
  function SeedBuffer(service: Option<Service>): seq<Assignment> {
    if service.Some? then service.value.assignments else []
  }

  /** The buffer after a drop on `roleId` with `dragged` in the drag slot. */
  function DropResult(buffer: seq<Assignment>, dragged: Option<Volunteer>, roleId: string, now: int): seq<Assignment> {
    if dragged.Some? && roleId in dragged.value.skills then Assign(buffer, roleId, Some(dragged.value.id), now) else buffer
  }

  /** A drop with nothing dragged, or with a volunteer lacking the skill, leaves the buffer as it was. */
  lemma DropWithoutSkillIsNoop(buffer: seq<Assignment>, dragged: Option<Volunteer>, roleId: string, now: int)
    requires dragged.None? || roleId !in dragged.value.skills
    ensures DropResult(buffer, dragged, roleId, now) == buffer
  {
  }

  /** The dialog's state: the props it was last given, the edit buffer and the drag slot. */
  class Editor {
    var service: Option<Service>
    var volunteers: seq<Volunteer>
    var isOpen: bool
    var assignments: seq<Assignment>
    var dragged: Option<Volunteer>

    /** The buffer is seeded here, once, from the service given at construction. */
    constructor (service: Option<Service>, volunteers: seq<Volunteer>, isOpen: bool)
      ensures this.service == service && this.volunteers == volunteers && this.isOpen == isOpen
      ensures assignments == SeedBuffer(service) && dragged == None
    {
      this.service := service;
      this.volunteers := volunteers;
      this.isOpen := isOpen;
      assignments := SeedBuffer(service);
      dragged := None;
    }

    /** `if (!isOpen || !service) return null`. */
    predicate Rendered()
      reads this
    {
      isOpen && service.Some?
    }

    /** A re-render with new props: the buffer and drag slot are state and keep their values. */
    method ReceiveProps(service: Option<Service>, volunteers: seq<Volunteer>, isOpen: bool)
      modifies this
      ensures this.service == service && this.volunteers == volunteers && this.isOpen == isOpen
      ensures assignments == old(assignments) && dragged == old(dragged)
    {
      this.service := service;
      this.volunteers := volunteers;
      this.isOpen := isOpen;
    }

    /** `getAvailableVolunteers(roleId)` against the current buffer. */
    function Available(roleId: string): (r: seq<Volunteer>)
      reads this
      ensures service.None? ==> r == []
      ensures service.Some? ==> forall i :: 0 <= i < |r| ==>
        r[i] in volunteers && CanFill(r[i], roleId, service.value.date, assignments)
      ensures service.Some? ==> forall i :: 0 <= i < |volunteers| && CanFill(volunteers[i], roleId, service.value.date, assignments) ==>
        volunteers[i] in r
    {
      if service.Some? then Eligible(volunteers, roleId, service.value.date, assignments) else []
    }

    method AssignVolunteer(roleId: string, choice: Option<int>, now: int)
      modifies this
      ensures assignments == Assign(old(assignments), roleId, choice, now)
      ensures service == old(service) && volunteers == old(volunteers) && isOpen == old(isOpen) && dragged == old(dragged)
    {
      assignments := Assign(assignments, roleId, choice, now);
    }

    method DragStart(v: Volunteer)
      modifies this
      ensures dragged == Some(v)
      ensures service == old(service) && volunteers == old(volunteers) && isOpen == old(isOpen) && assignments == old(assignments)
    {
      dragged := Some(v);
    }

    /** `handleDrop`: assign the dragged volunteer if it has the skill; the drag slot is cleared either way. */
    method Drop(roleId: string, now: int)
      modifies this
      ensures assignments == DropResult(old(assignments), old(dragged), roleId, now)
      ensures dragged == None
      ensures service == old(service) && volunteers == old(volunteers) && isOpen == old(isOpen)
    {
      if dragged.Some? && roleId in dragged.value.skills {
        AssignVolunteer(roleId, Some(dragged.value.id), now);
      }
      dragged := None;
    }

    /**
     * `handleSave`: hands the service id and the whole buffer to `onSave`, then `onClose`, which in
     * the page clears the open flag and the selected service. Conflicts do not stop it.
     */
    method Save() returns (serviceId: Option<int>, saved: seq<Assignment>)
      modifies this
      ensures serviceId == (if old(service).Some? then Some(old(service).value.id) else None)
      ensures saved == old(assignments)
      ensures !isOpen && service == None
      ensures assignments == old(assignments) && volunteers == old(volunteers) && dragged == old(dragged)
    {
      serviceId := if service.Some? then Some(service.value.id) else None;
      saved := assignments;
      isOpen := false;
      service := None;
    }

    /** `getConflicts`: walks the buffer and collects one report per conflicted volunteer found. */
    method GetConflicts() returns (conflicts: seq<Conflict>)
      ensures conflicts == ConflictsOf(assignments, volunteers)
    {
      conflicts := [];
      var i := 0;
      while i < |assignments|
        invariant 0 <= i <= |assignments|
        invariant conflicts == ConflictsOf(assignments[..i], volunteers)
      {
        var a := assignments[i];
        var found := FindVolunteer(volunteers, a.volunteerId);
        if found.Some? && found.value.conflicts > 0 {
          conflicts := conflicts + [Conflict(found.value.id, found.value.name, found.value.conflicts)];
        }
        assert assignments[..i + 1][..i] == assignments[..i];
        assert Reports(assignments[..i + 1], volunteers) == Reports(assignments[..i], volunteers) + ConflictFor(a, volunteers);
        i := i + 1;
      }
      assert assignments[..i] == assignments;
    }
  }

  /**
   * The page mounts the dialog once, with no service selected, and later passes the service the user
   * clicked: the buffer stays empty, whatever assignments that service already has.
   */
  method OpenFromPage(clicked: Service, volunteers: seq<Volunteer>) returns (buffer: seq<Assignment>)
    ensures buffer == []
  {
    var editor := new Editor(None, volunteers, false);
    editor.ReceiveProps(Some(clicked), volunteers, true);
    buffer := editor.assignments;
  }
}
