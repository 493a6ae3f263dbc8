/**
 * The user table: the sort column and direction toggled by the column headers, and the sorted
 * copy of the listed users. Names and roles compare lower-cased, last activity by time.
 */
module UserTable {
  import opened Text
  import opened Seqs
  import opened UserManagement

  datatype SortField = ByName | ByRole | ByLastActivity

  datatype Direction = Asc | Desc

  /** `cmp(a, b) <= 0` of the ascending comparator: `a` may stay ahead of `b`. */
  function AscLe(field: SortField): (User, User) -> bool {
    match field
    case ByName => (a: User, b: User) => LexLe(Lower(a.name), Lower(b.name))
    case ByRole => (a: User, b: User) => LexLe(Lower(a.role), Lower(b.role))
    case ByLastActivity => (a: User, b: User) => a.lastActivity <= b.lastActivity
  }

  /** The comparator of a column and direction; descending swaps the operands. */
  function UserLe(field: SortField, dir: Direction): (User, User) -> bool {
    match dir
    case Asc => AscLe(field)
    case Desc => (a: User, b: User) => AscLe(field)(b, a)
  }

  /** `[...users].sort(cmp)`: a sorted copy with the same users. */
  function SortedUsers(users: seq<User>, field: SortField, dir: Direction): (r: seq<User>)
    ensures |r| == |users| && multiset(r) == multiset(users)
  {
    SortBy(users, UserLe(field, dir))
  }

  /** Each column's comparator, either way round, is a total preorder. */
  lemma UserLePreorder(s: seq<User>, field: SortField, dir: Direction)
    ensures PreorderOn(s, UserLe(field, dir))
  {
    LexLeIsTotalPreorder();
    var le := UserLe(field, dir);
    forall a, b | a in s && b in s ensures le(a, b) || le(b, a) {
      assert AscLe(field)(a, b) || AscLe(field)(b, a);
    }
    forall a, b, c | a in s && b in s && c in s && le(a, b) && le(b, c) ensures le(a, c) {
      if dir == Asc {
        assert AscLe(field)(a, b) && AscLe(field)(b, c);
      } else {
        assert AscLe(field)(c, b) && AscLe(field)(b, a);
      }
    }
  }

  /** The sorted copy is in comparator order. */
  lemma SortedUsersSorted(users: seq<User>, field: SortField, dir: Direction)
    ensures Sorted(SortedUsers(users, field, dir), UserLe(field, dir))
  {
    UserLePreorder(users, field, dir);
    SortBySorted(users, UserLe(field, dir));
  }

  /** By name: ascending is non-decreasing and descending non-increasing in the lower-cased name. */
  lemma NameOrder(users: seq<User>)
    ensures var r := SortedUsers(users, ByName, Asc);
      forall i, j :: 0 <= i < j < |r| ==> LexLe(Lower(r[i].name), Lower(r[j].name))
    ensures var r := SortedUsers(users, ByName, Desc);
      forall i, j :: 0 <= i < j < |r| ==> LexLe(Lower(r[j].name), Lower(r[i].name))
  {
    SortedUsersSorted(users, ByName, Asc);
    SortedUsersSorted(users, ByName, Desc);
    var r := SortedUsers(users, ByName, Asc);
    forall i, j | 0 <= i < j < |r| ensures LexLe(Lower(r[i].name), Lower(r[j].name)) {
      assert UserLe(ByName, Asc)(r[i], r[j]);
    }
    var d := SortedUsers(users, ByName, Desc);
    forall i, j | 0 <= i < j < |d| ensures LexLe(Lower(d[j].name), Lower(d[i].name)) {
      assert UserLe(ByName, Desc)(d[i], d[j]);
    }
  }

  /** By role: the same on the lower-cased role. */
  lemma RoleOrder(users: seq<User>)
    ensures var r := SortedUsers(users, ByRole, Asc);
      forall i, j :: 0 <= i < j < |r| ==> LexLe(Lower(r[i].role), Lower(r[j].role))
    ensures var r := SortedUsers(users, ByRole, Desc);
      forall i, j :: 0 <= i < j < |r| ==> LexLe(Lower(r[j].role), Lower(r[i].role))
  {
    SortedUsersSorted(users, ByRole, Asc);
    SortedUsersSorted(users, ByRole, Desc);
    var r := SortedUsers(users, ByRole, Asc);
    forall i, j | 0 <= i < j < |r| ensures LexLe(Lower(r[i].role), Lower(r[j].role)) {
      assert UserLe(ByRole, Asc)(r[i], r[j]);
    }
    var d := SortedUsers(users, ByRole, Desc);
    forall i, j | 0 <= i < j < |d| ensures LexLe(Lower(d[j].role), Lower(d[i].role)) {
      assert UserLe(ByRole, Desc)(d[i], d[j]);
    }
  }

  /** By last activity: ascending puts the longest-idle first, descending the most recent first. */
  lemma ActivityOrder(users: seq<User>)
    ensures var r := SortedUsers(users, ByLastActivity, Asc);
      forall i, j :: 0 <= i < j < |r| ==> r[i].lastActivity <= r[j].lastActivity
    ensures var r := SortedUsers(users, ByLastActivity, Desc);
      forall i, j :: 0 <= i < j < |r| ==> r[i].lastActivity >= r[j].lastActivity
  {
    SortedUsersSorted(users, ByLastActivity, Asc);
    SortedUsersSorted(users, ByLastActivity, Desc);
    var r := SortedUsers(users, ByLastActivity, Asc);
    forall i, j | 0 <= i < j < |r| ensures r[i].lastActivity <= r[j].lastActivity {
      assert UserLe(ByLastActivity, Asc)(r[i], r[j]);
    }
    var d := SortedUsers(users, ByLastActivity, Desc);
    forall i, j | 0 <= i < j < |d| ensures d[i].lastActivity >= d[j].lastActivity {
      assert UserLe(ByLastActivity, Desc)(d[i], d[j]);
    }
  }

  /** An already sorted list is shown as it is, and sorting the shown list again changes nothing. */
  lemma SortedListUnchanged(users: seq<User>, field: SortField, dir: Direction)
    ensures Sorted(users, UserLe(field, dir)) ==> SortedUsers(users, field, dir) == users
    ensures SortedUsers(SortedUsers(users, field, dir), field, dir) == SortedUsers(users, field, dir)
  {
    if Sorted(users, UserLe(field, dir)) {
      SortBySortedIsIdentity(users, UserLe(field, dir));
    }
    UserLePreorder(users, field, dir);
    SortByIdempotent(users, UserLe(field, dir));
  }

  class Table {
    var sortField: SortField
    var sortDirection: Direction

    /** The table starts sorted by name, ascending. */
    constructor ()
      ensures sortField == ByName && sortDirection == Asc
    {
      sortField := ByName;
      sortDirection := Asc;
    }

    /** `handleSort(field)`: the current column flips direction; another column starts ascending. */
    method HandleSort(field: SortField)
      modifies this
      ensures sortField == field
      ensures old(sortField) == field ==> sortDirection != old(sortDirection)
      ensures old(sortField) != field ==> sortDirection == Asc
    {
      if sortField == field {
        sortDirection := if sortDirection == Asc then Desc else Asc;
      } else {
        sortField := field;
        sortDirection := Asc;
      }
    }

    /** The rows in display order. */
    function Rows(users: seq<User>): (r: seq<User>)
      reads this
      ensures multiset(r) == multiset(users)
      ensures Sorted(r, UserLe(sortField, sortDirection))
    {
      SortedUsersSorted(users, sortField, sortDirection);
      SortedUsers(users, sortField, sortDirection)
    }
  }

  /** Clicking the same header twice restores the direction. */
  method SortTwice(t: Table, field: SortField)
    modifies t
    ensures t.sortField == field
    ensures old(t.sortField) == field ==> t.sortDirection == old(t.sortDirection)
    ensures old(t.sortField) != field ==> t.sortDirection == Desc
  {
    t.HandleSort(field);
    t.HandleSort(field);
  }
}
