/**
 * The communication centre page: the announcement list, its seven filters, its sort order and
 * the create / edit / delete handlers, plus the submit flow from the editor to the page.
 */
module CommunicationCenter {
  import opened Optional
  import opened Text
  import opened Seqs
  import opened Dates
  import IsoDate
  import opened ComposeAnnouncement

  datatype Person = Person(id: int, name: string, role: string)

  /** The signed-in user the page works as. */
  const CurrentUser := Person(1, "Sarah Johnson", "Admin")

  /** An announcement; `createdAt` and `updatedAt` are milliseconds. */
  datatype Announcement = Announcement(
    id: int,
    title: string,
    content: string,
    author: Person,
    category: string,
    priority: string,
    createdAt: int,
    recipients: seq<string>,
    readCount: int,
    scheduled: bool,
    scheduledDate: string,
    attachments: seq<Attachment>,
    updatedAt: Option<int>)

  /** The filter record; every value is a string and '' means "not set". Dates are `YYYY-MM-DD`. */
  datatype Filters = Filters(
    search: string,
    category: string,
    priority: string,
    author: string,
    status: string,
    fromDate: string,
    toDate: string)

  datatype FilterKey = SearchKey | CategoryKey | PriorityKey | AuthorKey | StatusKey | FromDateKey | ToDateKey

  const NoFilters := Filters("", "", "", "", "", "", "")

  datatype SortOrder = Newest | Oldest | ByPriority | ByTitle

  // ---------------------------------------------------------------------
  // The filters

  /** The author filter's key: the lower-cased name with its FIRST space turned into '-'. */
  function AuthorSlug(name: string): (r: string)
    ensures |r| == |name|
  {
    ReplaceFirst(Lower(name), ' ', '-')
  }

  /** Title, content or author name contains the term, ignoring case. */
  predicate MatchesSearch(a: Announcement, term: string) {
    IncludesIgnoringCase(a.title, term) || IncludesIgnoringCase(a.content, term)
    || IncludesIgnoringCase(a.author.name, term)
  }

  /** `new Date(a.createdAt) >= new Date(from)`; a date string that does not parse compares false. */
  predicate NotBefore(a: Announcement, from: string) {
    IsoDate.AtOrAfter(a.createdAt, from)
  }

  /** `new Date(a.createdAt) <= new Date(to)`: `to` is midnight at the start of that day. */
  predicate NotAfter(a: Announcement, to: string) {
    IsoDate.AtOrBefore(a.createdAt, to)
  }

  /** An announcement is listed when it passes every filter that is set; `status` takes no part. */
  predicate Passes(a: Announcement, f: Filters) {
    && (f.search == "" || MatchesSearch(a, f.search))
    && (f.category == "" || a.category == f.category)
    && (f.priority == "" || a.priority == f.priority)
    && (f.author == "" || AuthorSlug(a.author.name) == f.author)
    && (f.fromDate == "" || NotBefore(a, f.fromDate))
    && (f.toDate == "" || NotAfter(a, f.toDate))
  }

  function PassesFn(f: Filters): Announcement -> bool {
    (a: Announcement) => Passes(a, f)
  }

  /** Priority ranks; any other priority has none (the comparator then yields NaN). */
  function Rank(priority: string): (r: Option<int>)
    ensures r.Some? <==> priority in {"urgent", "high", "normal", "low"}
    ensures r.Some? ==> 1 <= r.value <= 4
  {
    if priority == "urgent" then Some(4)
    else if priority == "high" then Some(3)
    else if priority == "normal" then Some(2)
    else if priority == "low" then Some(1)
    else None
  }

  /** `order[b] - order[a] <= 0`, with a NaN result (an unknown priority) counted as a tie. */
  predicate PriorityLe(a: string, b: string) {
    match (Rank(a), Rank(b))
    case (Some(x), Some(y)) => y - x <= 0
    case _ => true
  }

  /**
   * The comparator of each order as "a may stay ahead of b" (comparator result <= 0).
   * A NaN result from an unknown priority counts as a tie.
   */
  function AnnouncementLe(order: SortOrder): (Announcement, Announcement) -> bool {
    match order
    case Newest => (a: Announcement, b: Announcement) => b.createdAt - a.createdAt <= 0
    case Oldest => (a: Announcement, b: Announcement) => a.createdAt - b.createdAt <= 0
    case ByPriority => (a: Announcement, b: Announcement) => PriorityLe(a.priority, b.priority)
    case ByTitle => (a: Announcement, b: Announcement) => LexLe(a.title, b.title)
  }

  /** The list the page shows: the announcements that pass the filters, stably sorted. */
  function Visible(anns: seq<Announcement>, f: Filters, order: SortOrder): seq<Announcement> {
    SortBy(Filter(anns, PassesFn(f)), AnnouncementLe(order))
  }

  // ---------------------------------------------------------------------
  // The filter effect, stage by stage

  /** Whether stage `k` (1 search, 2 category, 3 priority, 4 author, 5 from, 6 to) is set. */
  predicate Active(f: Filters, k: int) {
    if k == 1 then f.search != ""
    else if k == 2 then f.category != ""
    else if k == 3 then f.priority != ""
    else if k == 4 then f.author != ""
    else if k == 5 then f.fromDate != ""
    else if k == 6 then f.toDate != ""
    else false
  }

  /** The test stage `k` applies when it is set. */
  predicate StageTest(a: Announcement, f: Filters, k: int) {
    if k == 1 then MatchesSearch(a, f.search)
    else if k == 2 then a.category == f.category
    else if k == 3 then a.priority == f.priority
    else if k == 4 then AuthorSlug(a.author.name) == f.author
    else if k == 5 then NotBefore(a, f.fromDate)
    else if k == 6 then NotAfter(a, f.toDate)
    else true
  }

  function Stage(f: Filters, k: int): Announcement -> bool {
    (a: Announcement) => StageTest(a, f, k)
  }

  /** Passes the first `k` stages. */
  predicate PassesUpTo(a: Announcement, f: Filters, k: nat) {
    k == 0 || (PassesUpTo(a, f, k - 1) && (!Active(f, k) || StageTest(a, f, k)))
  }

  function UpTo(f: Filters, k: nat): Announcement -> bool {
    (a: Announcement) => PassesUpTo(a, f, k)
  }

  /** `if (value) filtered = filtered.filter(test)`: a stage narrows only when its value is set. */
  function NarrowIf(active: bool, s: seq<Announcement>, test: Announcement -> bool): seq<Announcement> {
    if active then Filter(s, test) else s
  }

  lemma StageStep(anns: seq<Announcement>, f: Filters, k: nat)
    requires 1 <= k <= 6
    ensures NarrowIf(Active(f, k), Filter(anns, UpTo(f, k - 1)), Stage(f, k)) == Filter(anns, UpTo(f, k))
  {
    if Active(f, k) {
      FilterFilter(anns, UpTo(f, k - 1), Stage(f, k), UpTo(f, k));
    } else {
      FilterExt(anns, UpTo(f, k - 1), UpTo(f, k));
    }
  }

  lemma SixStages(a: Announcement, f: Filters)
    ensures PassesUpTo(a, f, 6) <==> Passes(a, f)
  {
    assert PassesUpTo(a, f, 1) == (PassesUpTo(a, f, 0) && (!Active(f, 1) || StageTest(a, f, 1)));
    assert PassesUpTo(a, f, 2) == (PassesUpTo(a, f, 1) && (!Active(f, 2) || StageTest(a, f, 2)));
    assert PassesUpTo(a, f, 3) == (PassesUpTo(a, f, 2) && (!Active(f, 3) || StageTest(a, f, 3)));
    assert PassesUpTo(a, f, 4) == (PassesUpTo(a, f, 3) && (!Active(f, 4) || StageTest(a, f, 4)));
    assert PassesUpTo(a, f, 5) == (PassesUpTo(a, f, 4) && (!Active(f, 5) || StageTest(a, f, 5)));
    assert PassesUpTo(a, f, 6) == (PassesUpTo(a, f, 5) && (!Active(f, 6) || StageTest(a, f, 6)));
  }

  lemma AllStagesArePasses(anns: seq<Announcement>, f: Filters)
    ensures Filter(anns, UpTo(f, 6)) == Filter(anns, PassesFn(f))
  {
    forall a | a in anns ensures PassesUpTo(a, f, 6) <==> Passes(a, f) {
      SixStages(a, f);
    }
    FilterExt(anns, UpTo(f, 6), PassesFn(f));
  }

  /** The list after the first `k` stages, each narrowing the one before it when it is set. */
  ghost function Staged(anns: seq<Announcement>, f: Filters, k: nat): seq<Announcement> {
    if k == 0 then anns else NarrowIf(Active(f, k), Staged(anns, f, k - 1), Stage(f, k))
  }

  /** One stage of the chain, unfolded. */
  lemma StagedAt(anns: seq<Announcement>, f: Filters, k: nat)
    requires 1 <= k
    ensures Staged(anns, f, k) == NarrowIf(Active(f, k), Staged(anns, f, k - 1), Stage(f, k))
  {
  }

  lemma StagedStart(anns: seq<Announcement>, f: Filters)
    ensures Staged(anns, f, 0) == Filter(anns, UpTo(f, 0))
  {
    FilterKeepsAll(anns, UpTo(f, 0));
  }

  lemma StagedStep(anns: seq<Announcement>, f: Filters, k: nat)
    requires 1 <= k <= 6
    requires Staged(anns, f, k - 1) == Filter(anns, UpTo(f, k - 1))
    ensures Staged(anns, f, k) == Filter(anns, UpTo(f, k))
  {
    StageStep(anns, f, k);
  }

  /** Narrowing stage by stage keeps exactly the announcements that pass every set filter. */
  lemma StagedIsFilter(anns: seq<Announcement>, f: Filters)
    ensures Staged(anns, f, 6) == Filter(anns, PassesFn(f))
  {
    StagedStart(anns, f);
    StagedStep(anns, f, 1);
    StagedStep(anns, f, 2);
    StagedStep(anns, f, 3);
    StagedStep(anns, f, 4);
    StagedStep(anns, f, 5);
    StagedStep(anns, f, 6);
    AllStagesArePasses(anns, f);
  }

  /**
   * The filter effect: a copy of the list narrowed by each filter that is set, in turn, and
   * then sorted.
   */
  method ApplyFilters(anns: seq<Announcement>, f: Filters, order: SortOrder) returns (filtered: seq<Announcement>)
    ensures filtered == Visible(anns, f, order)
  {
    filtered := anns;
    StagedAt(anns, f, 1);
    if f.search != "" {
      filtered := Filter(filtered, Stage(f, 1));
    }
    assert filtered == Staged(anns, f, 1);
    StagedAt(anns, f, 2);
    if f.category != "" {
      filtered := Filter(filtered, Stage(f, 2));
    }
    assert filtered == Staged(anns, f, 2);
    StagedAt(anns, f, 3);
    if f.priority != "" {
      filtered := Filter(filtered, Stage(f, 3));
    }
    assert filtered == Staged(anns, f, 3);
    StagedAt(anns, f, 4);
    if f.author != "" {
      filtered := Filter(filtered, Stage(f, 4));
    }
    assert filtered == Staged(anns, f, 4);
    StagedAt(anns, f, 5);
    if f.fromDate != "" {
      filtered := Filter(filtered, Stage(f, 5));
    }
    assert filtered == Staged(anns, f, 5);
    StagedAt(anns, f, 6);
    if f.toDate != "" {
      filtered := Filter(filtered, Stage(f, 6));
    }
    assert filtered == Staged(anns, f, 6);
    StagedIsFilter(anns, f);
    filtered := SortBy(filtered, AnnouncementLe(order));
  }

  // ---------------------------------------------------------------------
  // Properties of the listed view

  /** The view is a reordering of exactly the announcements that pass the filters. */
  lemma VisibleMembers(anns: seq<Announcement>, f: Filters, order: SortOrder)
    ensures var r := Visible(anns, f, order);
      && multiset(r) <= multiset(anns)
      && (forall i :: 0 <= i < |r| ==> r[i] in anns && Passes(r[i], f))
      && (forall i :: 0 <= i < |anns| && Passes(anns[i], f) ==> anns[i] in r)
  {
    var kept := Filter(anns, PassesFn(f));
    SameElements(Visible(anns, f, order), kept);
  }

  /** With every filter cleared, every announcement is listed. */
  lemma ClearedFiltersListAll(anns: seq<Announcement>, order: SortOrder)
    ensures multiset(Visible(anns, NoFilters, order)) == multiset(anns)
  {
    FilterKeepsAll(anns, PassesFn(NoFilters));
  }

  /** The stored status filter changes nothing in the list. */
  lemma StatusIsIgnored(anns: seq<Announcement>, f: Filters, status: string, order: SortOrder)
    ensures Visible(anns, f.(status := status), order) == Visible(anns, f, order)
  {
    FilterExt(anns, PassesFn(f.(status := status)), PassesFn(f));
  }

  /** `handleFilterChange(key, value)`: only that key's value changes. */
  function SetFilter(f: Filters, key: FilterKey, value: string): (r: Filters)
    ensures key == SearchKey ==> r == f.(search := value)
    ensures key == CategoryKey ==> r == f.(category := value)
    ensures key == PriorityKey ==> r == f.(priority := value)
    ensures key == AuthorKey ==> r == f.(author := value)
    ensures key == StatusKey ==> r == f.(status := value)
    ensures key == FromDateKey ==> r == f.(fromDate := value)
    ensures key == ToDateKey ==> r == f.(toDate := value)
  {
    match key
    case SearchKey => f.(search := value)
    case CategoryKey => f.(category := value)
    case PriorityKey => f.(priority := value)
    case AuthorKey => f.(author := value)
    case StatusKey => f.(status := value)
    case FromDateKey => f.(fromDate := value)
    case ToDateKey => f.(toDate := value)
  }

  /** Setting another value only narrows: clearing any one filter lists at least as much. */
  lemma ClearingAFilterOnlyAdds(anns: seq<Announcement>, f: Filters, key: FilterKey, order: SortOrder)
    ensures multiset(Visible(anns, f, order)) <= multiset(Visible(anns, SetFilter(f, key, ""), order))
  {
    FilterMonotone(anns, PassesFn(f), PassesFn(SetFilter(f, key, "")));
  }

  /** Both date bounds are inclusive, the upper one at midnight starting that day. */
  lemma DateBoundsInclusive(a: Announcement, day: Date)
    requires Valid(day) && 0 <= day.year <= 9999
    ensures a.createdAt == Millis(day) ==> NotBefore(a, IsoDate.Format(day)) && NotAfter(a, IsoDate.Format(day))
    ensures a.createdAt > Millis(day) ==> !NotAfter(a, IsoDate.Format(day))
  {
    IsoDate.DayBounds(a.createdAt, day);
  }

  /**
   * Only the first space of the author's name becomes '-': a later space stays, so a name of
   * three words never equals a slug with two dashes.
   */
  lemma AuthorSlugFirstSpaceOnly(name: string)
    ensures forall j :: 0 <= j < |name| ==>
      (AuthorSlug(name)[j] == '-' <==> name[j] == '-' || (name[j] == ' ' && ' ' !in name[..j]))
  {
    var low := Lower(name);
    forall j | 0 <= j < |name| ensures (' ' in low[..j] <==> ' ' in name[..j]) {
      if ' ' in name[..j] {
        var k :| 0 <= k < j && name[k] == ' ';
        assert low[..j][k] == ' ';
      }
      if ' ' in low[..j] {
        var k :| 0 <= k < j && low[k] == ' ';
        assert name[..j][k] == ' ';
      }
    }
  }

  /** Every order but the priority order is a total preorder on any list. */
  lemma OrderPreorder(order: SortOrder, s: seq<Announcement>)
    requires order == ByPriority ==> forall i :: 0 <= i < |s| ==> Rank(s[i].priority).Some?
    ensures PreorderOn(s, AnnouncementLe(order))
  {
    LexLeIsTotalPreorder();
    if order == ByPriority {
      forall a | a in s ensures Rank(a.priority).Some? {
        var i :| 0 <= i < |s| && s[i] == a;
      }
    }
  }

  /** The view is in comparator order (for 'priority', when every priority is a known one). */
  lemma VisibleSorted(anns: seq<Announcement>, f: Filters, order: SortOrder)
    requires order == ByPriority ==> forall i :: 0 <= i < |anns| ==> Rank(anns[i].priority).Some?
    ensures Sorted(Visible(anns, f, order), AnnouncementLe(order))
  {
    var kept := Filter(anns, PassesFn(f));
    if order == ByPriority {
      forall i | 0 <= i < |kept| ensures Rank(kept[i].priority).Some? {
        var k :| 0 <= k < |anns| && anns[k] == kept[i];
      }
    }
    OrderPreorder(order, kept);
    SortBySorted(kept, AnnouncementLe(order));
  }

  /** 'newest' lists createdAt non-increasing. */
  lemma NewestFirst(anns: seq<Announcement>, f: Filters)
    ensures var r := Visible(anns, f, Newest);
      forall i, j :: 0 <= i < j < |r| ==> r[i].createdAt >= r[j].createdAt
  {
    VisibleSorted(anns, f, Newest);
    var r := Visible(anns, f, Newest);
    forall i, j | 0 <= i < j < |r| ensures r[i].createdAt >= r[j].createdAt {
      assert AnnouncementLe(Newest)(r[i], r[j]);
    }
  }

  /** 'oldest' lists createdAt non-decreasing. */
  lemma OldestFirst(anns: seq<Announcement>, f: Filters)
    ensures var r := Visible(anns, f, Oldest);
      forall i, j :: 0 <= i < j < |r| ==> r[i].createdAt <= r[j].createdAt
  {
    VisibleSorted(anns, f, Oldest);
    var r := Visible(anns, f, Oldest);
    forall i, j | 0 <= i < j < |r| ensures r[i].createdAt <= r[j].createdAt {
      assert AnnouncementLe(Oldest)(r[i], r[j]);
    }
  }

  /** 'title' lists titles in string order. */
  lemma TitleOrder(anns: seq<Announcement>, f: Filters)
    ensures var r := Visible(anns, f, ByTitle);
      forall i, j :: 0 <= i < j < |r| ==> LexLe(r[i].title, r[j].title)
  {
    VisibleSorted(anns, f, ByTitle);
    var r := Visible(anns, f, ByTitle);
    forall i, j | 0 <= i < j < |r| ensures LexLe(r[i].title, r[j].title) {
      assert AnnouncementLe(ByTitle)(r[i], r[j]);
    }
  }

  /** 'priority' lists urgent, then high, then normal, then low, when every priority is known. */
  lemma PriorityOrder(anns: seq<Announcement>, f: Filters)
    requires forall i :: 0 <= i < |anns| ==> Rank(anns[i].priority).Some?
    ensures var r := Visible(anns, f, ByPriority);
      forall i, j :: 0 <= i < j < |r| ==>
        (&& Rank(r[i].priority).Some? && Rank(r[j].priority).Some?
         && Rank(r[i].priority).value >= Rank(r[j].priority).value)
  {
    VisibleSorted(anns, f, ByPriority);
    var r := Visible(anns, f, ByPriority);
    VisibleMembers(anns, f, ByPriority);
    forall i | 0 <= i < |r| ensures Rank(r[i].priority).Some? {
      var k :| 0 <= k < |anns| && anns[k] == r[i];
    }
    forall i, j | 0 <= i < j < |r| ensures Rank(r[i].priority).value >= Rank(r[j].priority).value {
      assert AnnouncementLe(ByPriority)(r[i], r[j]);
    }
  }

  // ---------------------------------------------------------------------
  // Create, edit and delete

  /** `prev.filter(a => a.id !== id)`. */
  function WithoutId(anns: seq<Announcement>, id: int): (r: seq<Announcement>)
    ensures forall i :: 0 <= i < |r| ==> r[i].id != id && r[i] in anns
    ensures forall i :: 0 <= i < |anns| && anns[i].id != id ==> anns[i] in r
    ensures multiset(r) <= multiset(anns)
  {
    Filter(anns, (a: Announcement) => a.id != id)
  }

  /** Deleting twice is deleting once. */
  lemma DeleteIdempotent(anns: seq<Announcement>, id: int)
    ensures WithoutId(WithoutId(anns, id), id) == WithoutId(anns, id)
  {
    var p := (a: Announcement) => a.id != id;
    FilterKeepsAll(Filter(anns, p), p);
  }

  /** `{ ...a, ...formData, updatedAt: now }`: the form's fields over the stored record. */
  function Merge(a: Announcement, form: ComposeForm, now: int): (r: Announcement)
    ensures r.id == a.id && r.author == a.author && r.createdAt == a.createdAt && r.readCount == a.readCount
    ensures r.title == form.title && r.content == form.content && r.category == form.category
    ensures r.priority == form.priority && r.recipients == form.recipients && r.scheduled == form.scheduled
    ensures r.scheduledDate == form.scheduledDate && r.attachments == form.attachments
    ensures r.updatedAt == Some(now)
  {
    a.(title := form.title, content := form.content, category := form.category, priority := form.priority,
       recipients := form.recipients, scheduled := form.scheduled, scheduledDate := form.scheduledDate,
       attachments := form.attachments, updatedAt := Some(now))
  }

  /** The edit: only the records with the edited id take the form's fields. */
  function ApplyEdit(anns: seq<Announcement>, id: int, form: ComposeForm, now: int): (r: seq<Announcement>)
    ensures |r| == |anns|
    ensures forall i :: 0 <= i < |anns| ==> r[i] == (if anns[i].id == id then Merge(anns[i], form, now) else anns[i])
  {
    Map(anns, (a: Announcement) => if a.id == id then Merge(a, form, now) else a)
  }

  /** An edit keeps every id in place, so the list keeps its shape. */
  lemma EditKeepsIds(anns: seq<Announcement>, id: int, form: ComposeForm, now: int)
    ensures var r := ApplyEdit(anns, id, form, now);
      forall i :: 0 <= i < |anns| ==> r[i].id == anns[i].id && r[i].createdAt == anns[i].createdAt
  {
  }

  /** The new record: the form's fields, the current user as author, read by nobody yet. */
  function Created(form: ComposeForm, id: int, now: int): (a: Announcement)
    ensures a.readCount == 0 && a.author == CurrentUser && a.createdAt == now && a.id == id
    ensures a.title == form.title && a.content == form.content && a.recipients == form.recipients
    ensures a.attachments == form.attachments && a.updatedAt.None?
  {
    Announcement(id, form.title, form.content, CurrentUser, form.category, form.priority, now,
                 form.recipients, 0, form.scheduled, form.scheduledDate, form.attachments, None)
  }

  /** `handleSubmitAnnouncement`: an edit when one is in progress, otherwise a new record first. */
  function AfterSubmit(anns: seq<Announcement>, editing: Option<Announcement>, form: ComposeForm, now: int, newId: int): (r: seq<Announcement>)
    ensures editing.None? ==> |r| == |anns| + 1 && r[0] == Created(form, newId, now) && r[1..] == anns
    ensures editing.Some? ==> |r| == |anns|
  {
    match editing
    case Some(e) => ApplyEdit(anns, e.id, form, now)
    case None => [Created(form, newId, now)] + anns
  }

  /** A new announcement is listed at once when no filter is set. */
  lemma CreatedIsListed(anns: seq<Announcement>, form: ComposeForm, now: int, newId: int, order: SortOrder)
    ensures Created(form, newId, now) in Visible(AfterSubmit(anns, None, form, now, newId), NoFilters, order)
  {
    var r := AfterSubmit(anns, None, form, now, newId);
    ClearedFiltersListAll(r, order);
    assert r[0] in multiset(r);
  }

  // ---------------------------------------------------------------------
  // The page state

  class Board {
    var announcements: seq<Announcement>
    var filtered: seq<Announcement>
    var filters: Filters
    var sortBy: SortOrder
    var editing: Option<Announcement>
    var isComposeOpen: bool

    /** The view always shows the current list through the current filters. */
    predicate Shown()
      reads this
    {
      filtered == Visible(announcements, filters, sortBy)
    }

    /** Mount: the seed list, no filters, newest first, the editor closed. */
    constructor (seed: seq<Announcement>)
      ensures announcements == seed && filters == NoFilters && sortBy == Newest
      ensures editing.None? && !isComposeOpen && Shown()
    {
      var view := ApplyFilters(seed, NoFilters, Newest);
      announcements := seed;
      filters := NoFilters;
      sortBy := Newest;
      editing := None;
      isComposeOpen := false;
      filtered := view;
    }

    /** The filter effect, run after every change to the list, the filters or the order. */
    method Refresh()
      modifies this
      ensures announcements == old(announcements) && filters == old(filters) && sortBy == old(sortBy)
      ensures editing == old(editing) && isComposeOpen == old(isComposeOpen)
      ensures Shown()
    {
      filtered := ApplyFilters(announcements, filters, sortBy);
    }

    method ChangeFilter(key: FilterKey, value: string)
      modifies this
      ensures filters == SetFilter(old(filters), key, value)
      ensures announcements == old(announcements) && sortBy == old(sortBy)
      ensures editing == old(editing) && isComposeOpen == old(isComposeOpen)
      ensures Shown()
    {
      filters := SetFilter(filters, key, value);
      Refresh();
    }

    /** `handleClearFilters`: all seven values back to ''. */
    method ClearFilters()
      modifies this
      ensures filters == NoFilters
      ensures announcements == old(announcements) && sortBy == old(sortBy)
      ensures editing == old(editing) && isComposeOpen == old(isComposeOpen)
      ensures Shown()
    {
      filters := NoFilters;
      Refresh();
    }

    method ChangeSort(order: SortOrder)
      modifies this
      ensures sortBy == order
      ensures announcements == old(announcements) && filters == old(filters)
      ensures editing == old(editing) && isComposeOpen == old(isComposeOpen)
      ensures Shown()
    {
      sortBy := order;
      Refresh();
    }

    /** `handleNewAnnouncement`. */
    method NewAnnouncement()
      modifies this
      ensures editing.None? && isComposeOpen
      ensures announcements == old(announcements) && filters == old(filters) && sortBy == old(sortBy)
      ensures filtered == old(filtered)
    {
      editing := None;
      isComposeOpen := true;
    }

    /** `handleEditAnnouncement`. */
    method EditAnnouncement(a: Announcement)
      modifies this
      ensures editing == Some(a) && isComposeOpen
      ensures announcements == old(announcements) && filters == old(filters) && sortBy == old(sortBy)
      ensures filtered == old(filtered)
    {
      editing := Some(a);
      isComposeOpen := true;
    }

    /** The editor's `onClose`. */
    method CloseCompose()
      modifies this
      ensures editing.None? && !isComposeOpen
      ensures announcements == old(announcements) && filters == old(filters) && sortBy == old(sortBy)
      ensures filtered == old(filtered)
    {
      isComposeOpen := false;
      editing := None;
    }

    /** `handleDeleteAnnouncement`: removes the id only when the user confirmed. */
    method DeleteAnnouncement(id: int, confirmed: bool)
      modifies this
      ensures confirmed ==> announcements == WithoutId(old(announcements), id)
      ensures !confirmed ==> announcements == old(announcements)
      ensures filters == old(filters) && sortBy == old(sortBy)
      ensures editing == old(editing) && isComposeOpen == old(isComposeOpen)
      ensures Shown()
    {
      if confirmed {
        announcements := WithoutId(announcements, id);
      }
      Refresh();
    }

    /** `handleSubmitAnnouncement(formData)`, with `Date.now()` given as `now` and `newId`. */
    method SubmitAnnouncement(form: ComposeForm, now: int, newId: int)
      modifies this
      ensures announcements == AfterSubmit(old(announcements), old(editing), form, now, newId)
      ensures filters == old(filters) && sortBy == old(sortBy)
      ensures editing == old(editing) && isComposeOpen == old(isComposeOpen)
      ensures Shown()
    {
      announcements := AfterSubmit(announcements, editing, form, now, newId);
      Refresh();
    }
  }

  /**
   * The editor's `handleSubmit`: validate; only a valid form reaches the page's handler, after
   * which the editor is closed and the form reset.
   */
  method SubmitCompose(composer: Composer, board: Board, now: int, newId: int) returns (submitted: bool)
    modifies composer, board
    ensures submitted <==> ComposeValid(old(composer.form))
    ensures composer.errors == ComposeErrors(old(composer.form))
    ensures !submitted ==>
      (&& composer.form == old(composer.form) && board.announcements == old(board.announcements)
       && board.isComposeOpen == old(board.isComposeOpen) && board.editing == old(board.editing))
    ensures submitted ==>
      (&& composer.form == DefaultForm && !board.isComposeOpen && board.editing.None?
       && board.announcements == AfterSubmit(old(board.announcements), old(board.editing), old(composer.form), now, newId))
  {
    submitted := composer.Validate();
    if submitted {
      board.SubmitAnnouncement(composer.form, now, newId);
      board.CloseCompose();
      composer.Reset();
    }
  }

  /**
   * The page creates its editor once, while nothing is being edited, so the editor's form
   * starts from the defaults; later edits reach it only as a prop it does not read again.
   */
  method MountPage(seed: seq<Announcement>) returns (board: Board, composer: Composer)
    ensures fresh(board) && fresh(composer)
    ensures composer.form == DefaultForm && board.Shown()
  {
    board := new Board(seed);
    composer := new Composer(None);
  }
}
