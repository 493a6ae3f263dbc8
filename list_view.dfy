/**
 * The list view of services: a filter mode, a search box and a sort order
 * applied to the service list, plus the per-role "assign first eligible
 * volunteer" shortcut.
 */
module ListView {
  import opened Optional
  import opened Text
  import opened Seqs
  import opened Dates
  import opened Scheduling

  datatype FilterMode = AllServices | Upcoming | Understaffed | HasConflicts
  datatype SortOrder = ByDate | ByName | ByStatus

  /** The first filter: `new Date(date) >= new Date()` compares midnight of the service day with `now` (ms). */
  predicate PassesMode(s: Service, mode: FilterMode, now: int) {
    match mode
    case AllServices => true
    case Upcoming => Millis(s.date) >= now
    case Understaffed => StaffingOf(s) != Complete
    case HasConflicts => s.conflicts > 0
  }

  /** The second filter: name or description contains the term, ignoring case. */
  predicate MatchesSearch(s: Service, term: string) {
    IncludesIgnoringCase(s.name, term) || IncludesIgnoringCase(s.description, term)
  }

  /** The comparator of each sort order, as "does not move the second ahead of the first". */
  function ServiceLe(order: SortOrder): (Service, Service) -> bool {
    match order
    case ByDate => (a: Service, b: Service) => Millis(a.date) <= Millis(b.date)
    case ByName => (a: Service, b: Service) => LexLe(a.name, b.name)
    case ByStatus => (a: Service, b: Service) => LexLe(StaffingOf(a).Key(), StaffingOf(b).Key())
  }

  function ModeTest(mode: FilterMode, now: int): Service -> bool {
    (s: Service) => PassesMode(s, mode, now)
  }

  function SearchTest(term: string): Service -> bool {
    (s: Service) => MatchesSearch(s, term)
  }

  /** Both tests at once: what the two chained filters keep. */
  function BothTests(mode: FilterMode, term: string, now: int): Service -> bool {
    (s: Service) => PassesMode(s, mode, now) && MatchesSearch(s, term)
  }

  function ByMode(services: seq<Service>, mode: FilterMode, now: int): seq<Service> {
    Filter(services, ModeTest(mode, now))
  }

  function BySearch(services: seq<Service>, term: string): seq<Service> {
    Filter(services, SearchTest(term))
  }

  /** `filteredAndSortedServices`: filter by mode, then by search, then a stable sort. */
  function FilteredAndSorted(services: seq<Service>, mode: FilterMode, term: string, order: SortOrder, now: int): (r: seq<Service>)
    ensures multiset(r) == multiset(Filter(services, BothTests(mode, term, now)))
    ensures multiset(r) <= multiset(services)
    ensures forall i :: 0 <= i < |r| ==> PassesMode(r[i], mode, now) && MatchesSearch(r[i], term)
    ensures forall i :: 0 <= i < |services| && PassesMode(services[i], mode, now) && MatchesSearch(services[i], term) ==>
      services[i] in r
  {
    var kept := BySearch(ByMode(services, mode, now), term);
    var r := SortBy(kept, ServiceLe(order));
    PipelineKeeps(services, mode, term, now);
    SameElements(r, kept);
    r
  }

  lemma PipelineKeeps(services: seq<Service>, mode: FilterMode, term: string, now: int)
    ensures var kept := BySearch(ByMode(services, mode, now), term);
      && kept == Filter(services, BothTests(mode, term, now))
      && multiset(kept) <= multiset(services)
      && (forall i :: 0 <= i < |kept| ==> PassesMode(kept[i], mode, now) && MatchesSearch(kept[i], term))
      && (forall i :: 0 <= i < |services| && PassesMode(services[i], mode, now) && MatchesSearch(services[i], term) ==>
            services[i] in kept)
  {
    FilterFilter(services, ModeTest(mode, now), SearchTest(term), BothTests(mode, term, now));
    PipelineSound(services, mode, term, now);
    PipelineComplete(services, mode, term, now);
  }

  lemma PipelineSound(services: seq<Service>, mode: FilterMode, term: string, now: int)
    ensures var kept := BySearch(ByMode(services, mode, now), term);
      && multiset(kept) <= multiset(services)
      && (forall i :: 0 <= i < |kept| ==> PassesMode(kept[i], mode, now) && MatchesSearch(kept[i], term))
  {
    var byMode := ByMode(services, mode, now);
    var kept := BySearch(byMode, term);
    forall i | 0 <= i < |kept| ensures PassesMode(kept[i], mode, now) {
      assert kept[i] in byMode;
    }
  }

  lemma PipelineComplete(services: seq<Service>, mode: FilterMode, term: string, now: int)
    ensures var kept := BySearch(ByMode(services, mode, now), term);
      forall i :: 0 <= i < |services| && PassesMode(services[i], mode, now) && MatchesSearch(services[i], term) ==>
        services[i] in kept
  {
    var byMode := ByMode(services, mode, now);
    var kept := BySearch(byMode, term);
    forall i | 0 <= i < |services| && PassesMode(services[i], mode, now) && MatchesSearch(services[i], term)
      ensures services[i] in kept
    {
      assert services[i] in byMode;
      var k :| 0 <= k < |byMode| && byMode[k] == services[i];
    }
  }

  /** Every sort order is a total preorder, so the result is in order. */
  lemma ServiceLePreorder(order: SortOrder, s: seq<Service>)
    ensures PreorderOn(s, ServiceLe(order))
  {
    LexLeIsTotalPreorder();
  }

  lemma SortedResult(services: seq<Service>, mode: FilterMode, term: string, order: SortOrder, now: int)
    ensures Sorted(FilteredAndSorted(services, mode, term, order, now), ServiceLe(order))
  {
    var kept := BySearch(ByMode(services, mode, now), term);
    ServiceLePreorder(order, kept);
    SortBySorted(kept, ServiceLe(order));
  }

  /** Date order is calendar order of the service days. */
  lemma DateOrderIsCalendarOrder(a: Service, b: Service)
    requires Valid(a.date) && Valid(b.date)
    ensures ServiceLe(ByDate)(a, b) <==> a.date == b.date || Before(a.date, b.date)
  {
    DayNumberOrder(a.date, b.date);
  }

  /** Sorting by status key is alphabetical: 'complete' < 'none' < 'partial'. */
  function StatusRank(st: Staffing): int {
    match st
    case Complete => 0
    case Unstaffed => 1
    case Partial => 2
  }

  lemma StatusKeysAlphabetical(a: Staffing, b: Staffing)
    ensures LexLe(a.Key(), b.Key()) <==> StatusRank(a) <= StatusRank(b)
  {
    LexLeReflexive(a.Key());
  }

  /** In status order, fully staffed services come first, then unstaffed ones, then partially staffed ones. */
  lemma StatusSortRanks(r: seq<Service>)
    requires Sorted(r, ServiceLe(ByStatus))
    ensures forall i, j :: 0 <= i < j < |r| ==> StatusRank(StaffingOf(r[i])) <= StatusRank(StaffingOf(r[j]))
  {
    forall i, j | 0 <= i < j < |r| ensures StatusRank(StaffingOf(r[i])) <= StatusRank(StaffingOf(r[j])) {
      assert ServiceLe(ByStatus)(r[i], r[j]);
      StatusKeysAlphabetical(StaffingOf(r[i]), StaffingOf(r[j]));
    }
  }

  /** With the mode 'all' and an empty search every service is listed, only reordered. */
  lemma ShowAllKeepsEverything(services: seq<Service>, order: SortOrder, now: int)
    ensures multiset(FilteredAndSorted(services, AllServices, "", order, now)) == multiset(services)
  {
    var byMode := ByMode(services, AllServices, now);
    FilterKeepsAll(services, (s: Service) => PassesMode(s, AllServices, now));
    assert byMode == services;
    forall x | x in byMode ensures MatchesSearch(x, "") {
      EmptyTermMatches(x.name);
    }
    FilterKeepsAll(byMode, (s: Service) => MatchesSearch(s, ""));
    assert BySearch(byMode, "") == services;
  }

  // ---------------------------------------------------------------------
  // Quick assign

  /** The volunteers who can fill the role given the service's own assignments (list-view variant). */
  function AvailableFor(service: Service, volunteers: seq<Volunteer>, roleId: string): seq<Volunteer> {
    Eligible(volunteers, roleId, service.date, service.assignments)
  }

  /** The id the 'Assign' button proposes, if the button is shown. */
  function QuickAssign(service: Service, volunteers: seq<Volunteer>, roleId: string): Option<int> {
    var available := AvailableFor(service, volunteers, roleId);
    if FindAssignment(service.assignments, roleId).None? && |available| > 0 then Some(available[0].id) else None
  }

  /**
   * The button exists exactly when the role has no entry and someone can fill it, and it proposes
   * the first volunteer in registry order who can.
   */
  lemma QuickAssignPicksFirst(service: Service, volunteers: seq<Volunteer>, roleId: string)
    ensures var pick := QuickAssign(service, volunteers, roleId);
      && (pick.Some? <==>
            (forall i :: 0 <= i < |service.assignments| ==> service.assignments[i].roleId != roleId)
            && (exists i :: 0 <= i < |volunteers| && CanFill(volunteers[i], roleId, service.date, service.assignments)))
      && (pick.Some? ==>
            exists i :: 0 <= i < |volunteers| && volunteers[i].id == pick.value
              && CanFill(volunteers[i], roleId, service.date, service.assignments)
              && (forall j :: 0 <= j < i ==> !CanFill(volunteers[j], roleId, service.date, service.assignments)))
  {
    var p := (v: Volunteer) => CanFill(v, roleId, service.date, service.assignments);
    FilterEmpty(volunteers, p);
    if Filter(volunteers, p) != [] {
      FilterHead(volunteers, p);
    }
  }
}
