/**
 * The team sidebar: each volunteer's availability status, the search and
 * status filter over the team, the skill icon table and the collapsed rail.
 */
module TeamSidebar {
  import opened Text
  import opened Seqs
  import opened Scheduling

  datatype VolunteerStatus = Available | Busy | Conflicted {
    function Key(): string {
      match this
      case Available => "available"
      case Busy => "busy"
      case Conflicted => "conflicts"
    }
  }

  /** `getVolunteerStatus`: conflicts take precedence over upcoming assignments. */
  function StatusOf(v: Volunteer): (st: VolunteerStatus)
    ensures v.conflicts > 0 ==> st == Conflicted
    ensures st == Busy <==> v.conflicts <= 0 && v.upcomingAssignments > 0
    ensures st == Available <==> v.conflicts <= 0 && v.upcomingAssignments <= 0
  {
    if v.conflicts > 0 then Conflicted else if v.upcomingAssignments > 0 then Busy else Available
  }

  datatype MemberFilter = AllMembers | WithStatus(status: VolunteerStatus)

  predicate MatchesSearch(v: Volunteer, term: string) {
    IncludesIgnoringCase(v.name, term) || IncludesIgnoringCase(v.email, term)
  }

  predicate Passes(v: Volunteer, term: string, filter: MemberFilter) {
    MatchesSearch(v, term) && (filter.AllMembers? || StatusOf(v) == filter.status)
  }

  /** `filteredVolunteers`. */
  function Filtered(volunteers: seq<Volunteer>, term: string, filter: MemberFilter): (r: seq<Volunteer>)
    ensures forall i :: 0 <= i < |r| ==> r[i] in volunteers && MatchesSearch(r[i], term)
    ensures filter.WithStatus? ==> forall i :: 0 <= i < |r| ==> StatusOf(r[i]) == filter.status
    ensures forall i :: 0 <= i < |volunteers| && Passes(volunteers[i], term, filter) ==> volunteers[i] in r
  {
    Filter(volunteers, (v: Volunteer) => Passes(v, term, filter))
  }

  /** Every search match has exactly one status, so the three status filters split the 'all' list. */
  lemma {:induction false} StatusFiltersPartition(volunteers: seq<Volunteer>, term: string)
    ensures |Filtered(volunteers, term, WithStatus(Available))| + |Filtered(volunteers, term, WithStatus(Busy))|
      + |Filtered(volunteers, term, WithStatus(Conflicted))| == |Filtered(volunteers, term, AllMembers)|
  {
    if volunteers != [] {
      StatusFiltersPartition(volunteers[1..], term);
    }
  }

  /** `getSkillIcon`: the seven known skills have icons, anything else is 'Star'. */
  function SkillIcon(skill: string): (icon: string)
    ensures skill !in {"audio", "video", "lighting", "streaming", "photography", "graphics", "social-media"} ==> icon == "Star"
    ensures skill == "audio" ==> icon == "Volume2"
    ensures skill == "video" ==> icon == "Video"
    ensures skill == "lighting" ==> icon == "Lightbulb"
    ensures skill == "streaming" ==> icon == "Wifi"
    ensures skill == "photography" ==> icon == "Camera"
    ensures skill == "graphics" ==> icon == "Image"
    ensures skill == "social-media" ==> icon == "Share2"
  {
    match skill
    case "audio" => "Volume2"
    case "video" => "Video"
    case "lighting" => "Lightbulb"
    case "streaming" => "Wifi"
    case "photography" => "Camera"
    case "graphics" => "Image"
    case "social-media" => "Share2"
    case _ => "Star"
  }

  /** The collapsed rail: `filteredVolunteers.slice(0, 8)`. */
  function Rail(filtered: seq<Volunteer>): (r: seq<Volunteer>)
    ensures |r| == if |filtered| < 8 then |filtered| else 8
    ensures r <= filtered
  {
    if |filtered| <= 8 then filtered else filtered[..8]
  }
}
