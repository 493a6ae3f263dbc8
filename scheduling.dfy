/**
 * The team-scheduling records shared by the schedule editor, the list and
 * calendar views and the team sidebar: volunteers, services with their
 * required roles and assignments, and the staffing status of a service.
 */
module Scheduling {
  import opened Optional
  import opened Dates
  import opened Seqs

  datatype Role = Role(id: string, name: string, icon: string, required: bool, description: string)

  /** One buffer or service entry: this volunteer holds this role; `assignedAt` is a millisecond timestamp. */
  datatype Assignment = Assignment(roleId: string, volunteerId: int, assignedAt: int)

  /** A team member; a missing `upcomingAssignments` or `conflicts` count is 0. */
  datatype Volunteer = Volunteer(
    id: int, name: string, email: string, role: string,
    skills: seq<string>, availability: seq<Date>,
    upcomingAssignments: int, conflicts: int)

  /** A scheduled service; a missing `conflicts` count is 0. */
  datatype Service = Service(
    id: int, name: string, date: Date, time: string, location: string, description: string,
    conflicts: int, requiredRoles: seq<Role>, assignments: seq<Assignment>)

  // ---------------------------------------------------------------------
  // Staffing status ('none' / 'partial' / 'complete')

  datatype Staffing = Unstaffed | Partial | Complete {
    /** The status key the views compare and style by. */
    function Key(): string {
      match this
      case Unstaffed => "none"
      case Partial => "partial"
      case Complete => "complete"
    }
  }

  /**
   * Staffing is decided by counting entries only: none filled is 'none', fewer than the
   * required roles is 'partial', and anything else, including more entries than roles, is 'complete'.
   */
  function StaffingOf(s: Service): (st: Staffing)
    ensures st == Unstaffed <==> |s.assignments| == 0
    ensures st == Partial <==> 0 < |s.assignments| < |s.requiredRoles|
    ensures st == Complete <==> 0 < |s.assignments| && |s.requiredRoles| <= |s.assignments|
  {
    var filled, total := |s.assignments|, |s.requiredRoles|;
    if filled == 0 then Unstaffed else if filled < total then Partial else Complete
  }

  /** A service without required roles is 'complete' as soon as anything is assigned. */
  lemma NoRolesCompleteOnceAssigned(s: Service)
    requires s.requiredRoles == [] && s.assignments != []
    ensures StaffingOf(s) == Complete
  {
  }

  // ---------------------------------------------------------------------
  // Volunteer lookups

  /** Some entry names this volunteer (`assignments.some(a => a.volunteerId === id)`). */
  predicate HoldsAssignment(assignments: seq<Assignment>, volunteerId: int) {
    exists i :: 0 <= i < |assignments| && assignments[i].volunteerId == volunteerId
  }

  /** Free to fill `roleId` on `date`: has the skill, is available that day and holds no entry yet. */
  predicate CanFill(v: Volunteer, roleId: string, date: Date, assignments: seq<Assignment>) {
    roleId in v.skills && date in v.availability && !HoldsAssignment(assignments, v.id)
  }

  /** The volunteers, in registry order, who can fill the role (`getAvailableVolunteers`). */
  function Eligible(volunteers: seq<Volunteer>, roleId: string, date: Date, assignments: seq<Assignment>): (r: seq<Volunteer>)
    ensures forall i :: 0 <= i < |r| ==> r[i] in volunteers && CanFill(r[i], roleId, date, assignments)
    ensures forall i :: 0 <= i < |volunteers| && CanFill(volunteers[i], roleId, date, assignments) ==> volunteers[i] in r
  {
    Filter(volunteers, v => CanFill(v, roleId, date, assignments))
  }

  /** `volunteers.find(v => v.id === id)`. */
  function FindVolunteer(volunteers: seq<Volunteer>, id: int): (r: Option<Volunteer>)
    ensures r.Some? ==> r.value in volunteers && r.value.id == id
    ensures r.Some? ==> exists i :: 0 <= i < |volunteers| && volunteers[i] == r.value && forall j :: 0 <= j < i ==> volunteers[j].id != id
    ensures r.None? <==> forall i :: 0 <= i < |volunteers| ==> volunteers[i].id != id
  {
    if volunteers == [] then None
    else if volunteers[0].id == id then Some(volunteers[0])
    else
      var r := FindVolunteer(volunteers[1..], id);
      assert forall i :: 0 < i < |volunteers| ==> volunteers[i] == volunteers[1..][i - 1];
      if r.Some? then
        var i :| 0 <= i < |volunteers| - 1 && volunteers[1..][i] == r.value
                 && forall j :: 0 <= j < i ==> volunteers[1..][j].id != id;
        assert volunteers[i + 1] == r.value;
        r
      else
        r
  }

  /** `assignments.find(a => a.roleId === roleId)`. */
  function FindAssignment(assignments: seq<Assignment>, roleId: string): (r: Option<Assignment>)
    ensures r.Some? ==> r.value in assignments && r.value.roleId == roleId
    ensures r.Some? ==> exists i :: 0 <= i < |assignments| && assignments[i] == r.value && forall j :: 0 <= j < i ==> assignments[j].roleId != roleId
    ensures r.None? <==> forall i :: 0 <= i < |assignments| ==> assignments[i].roleId != roleId
  {
    if assignments == [] then None
    else if assignments[0].roleId == roleId then Some(assignments[0])
    else
      var r := FindAssignment(assignments[1..], roleId);
      assert forall i :: 0 < i < |assignments| ==> assignments[i] == assignments[1..][i - 1];
      if r.Some? then
        var i :| 0 <= i < |assignments| - 1 && assignments[1..][i] == r.value
                 && forall j :: 0 <= j < i ==> assignments[1..][j].roleId != roleId;
        assert assignments[i + 1] == r.value;
        r
      else
        r
  }
}
