/**
 * Sequence operations the components build their derived lists from:
 * `Array.prototype.filter`, the stable `Array.prototype.sort`, and the
 * add-or-remove toggle used by the selection handlers.
 */
module Seqs {

  // ---------------------------------------------------------------------
  // filter

  /** `s.filter(p)`: the elements satisfying `p`, in their original order. */
  function Filter<T>(s: seq<T>, p: T -> bool): (r: seq<T>)
    ensures |r| <= |s|
    ensures forall i :: 0 <= i < |r| ==> r[i] in s && p(r[i])
    ensures forall i :: 0 <= i < |s| && p(s[i]) ==> s[i] in r
    ensures multiset(r) <= multiset(s)
  {
    if s == [] then []
    else
      assert s == [s[0]] + s[1..];
      (if p(s[0]) then [s[0]] else []) + Filter(s[1..], p)
  }

  lemma {:induction false} FilterConcat<T>(a: seq<T>, b: seq<T>, p: T -> bool)
    ensures Filter(a + b, p) == Filter(a, p) + Filter(b, p)
    decreases |a|
  {
    if a == [] {
      assert a + b == b;
    } else {
      assert (a + b)[0] == a[0];
      assert (a + b)[1..] == a[1..] + b;
      FilterConcat(a[1..], b, p);
    }
  }

  /** `Filter` without its contract, so that proofs about long chains of filters stay small. */
  function Kept<T>(s: seq<T>, p: T -> bool): seq<T> {
    if s == [] then [] else (if p(s[0]) then [s[0]] else []) + Kept(s[1..], p)
  }

  lemma {:induction false} KeptIsFilter<T>(s: seq<T>, p: T -> bool)
    ensures Kept(s, p) == Filter(s, p)
  {
    if s != [] {
      KeptIsFilter(s[1..], p);
    }
  }

  lemma {:induction false} KeptKept<T>(s: seq<T>, p: T -> bool, q: T -> bool, pq: T -> bool)
    requires forall x :: x in s ==> (pq(x) <==> p(x) && q(x))
    ensures Kept(Kept(s, p), q) == Kept(s, pq)
  {
    if s != [] {
      var head, tail := s[0], s[1..];
      assert head in s;
      assert forall x :: x in tail ==> x in s;
      KeptKept(tail, p, q, pq);
      var kept := Kept(tail, p);
      if p(head) {
        var once := [head] + kept;
        assert Kept(s, p) == once;
        assert once[0] == head && once[1..] == kept;
        assert Kept(once, q) == (if q(head) then [head] else []) + Kept(kept, q);
      } else {
        assert Kept(s, p) == kept;
      }
    }
  }

  /** Filtering twice is filtering once by the conjunction. */
  lemma FilterFilter<T>(s: seq<T>, p: T -> bool, q: T -> bool, pq: T -> bool)
    requires forall x :: x in s ==> (pq(x) <==> p(x) && q(x))
    ensures Filter(Filter(s, p), q) == Filter(s, pq)
  {
    KeptKept(s, p, q, pq);
    KeptIsFilter(s, p);
    KeptIsFilter(Filter(s, p), q);
    KeptIsFilter(s, pq);
  }

  /** Predicates that agree on the elements give the same result. */
  lemma {:induction false} FilterExt<T>(s: seq<T>, p: T -> bool, q: T -> bool)
    requires forall x :: x in s ==> (p(x) <==> q(x))
    ensures Filter(s, p) == Filter(s, q)
  {
    if s != [] {
      FilterExt(s[1..], p, q);
    }
  }

  /** A predicate true for every element keeps the whole sequence. */
  lemma {:induction false} FilterKeepsAll<T>(s: seq<T>, p: T -> bool)
    requires forall x :: x in s ==> p(x)
    ensures Filter(s, p) == s
  {
    if s != [] {
      FilterKeepsAll(s[1..], p);
      assert s == [s[0]] + s[1..];
    }
  }

  /** Dropping the one element the predicate rejects keeps the rest in order. */
  lemma {:induction false} FilterDropsOne<T>(a: seq<T>, x: T, b: seq<T>, p: T -> bool)
    requires forall y :: y in a ==> p(y)
    requires forall y :: y in b ==> p(y)
    requires !p(x)
    ensures Filter(a + [x] + b, p) == a + b
  {
    calc {
      Filter(a + [x] + b, p);
    == { FilterConcat(a + [x], b, p); }
      Filter(a + [x], p) + Filter(b, p);
    == { FilterConcat(a, [x], p); }
      Filter(a, p) + Filter([x], p) + Filter(b, p);
    == { FilterKeepsAll(a, p); FilterKeepsAll(b, p); assert [x][1..] == []; }
      a + [] + b;
    }
    assert a + [] + b == a + b;
  }

  /** A predicate that holds wherever another does keeps at least the same elements. */
  lemma {:induction false} FilterMonotone<T>(s: seq<T>, p: T -> bool, q: T -> bool)
    requires forall x :: x in s && p(x) ==> q(x)
    ensures multiset(Filter(s, p)) <= multiset(Filter(s, q))
  {
    if s != [] {
      assert forall x :: x in s[1..] ==> x in s;
      FilterMonotone(s[1..], p, q);
    }
  }

  /** A predicate and its negation split a sequence into two parts that add up to it. */
  lemma {:induction false} FilterPartition<T>(s: seq<T>, p: T -> bool, q: T -> bool)
    requires forall x :: x in s ==> (q(x) <==> !p(x))
    ensures |Filter(s, p)| + |Filter(s, q)| == |s|
  {
    if s != [] {
      FilterPartition(s[1..], p, q);
    }
  }

  /** Two predicates that never hold together keep at most the whole sequence between them. */
  lemma {:induction false} FilterDisjoint<T>(s: seq<T>, p: T -> bool, q: T -> bool)
    requires forall x :: x in s ==> !(p(x) && q(x))
    ensures |Filter(s, p)| + |Filter(s, q)| <= |s|
  {
    if s != [] {
      FilterDisjoint(s[1..], p, q);
    }
  }

  /** No element is kept exactly when no element satisfies the predicate. */
  lemma {:induction false} FilterEmpty<T>(s: seq<T>, p: T -> bool)
    ensures Filter(s, p) == [] <==> forall i :: 0 <= i < |s| ==> !p(s[i])
  {
    if s != [] {
      FilterEmpty(s[1..], p);
      assert forall i :: 0 < i < |s| ==> s[i] == s[1..][i - 1];
    }
  }

  /** The first kept element is the first element of `s` that satisfies the predicate. */
  lemma {:induction false} FilterHead<T>(s: seq<T>, p: T -> bool)
    requires Filter(s, p) != []
    ensures exists i :: 0 <= i < |s| && s[i] == Filter(s, p)[0] && p(s[i]) && forall j :: 0 <= j < i ==> !p(s[j])
  {
    if !p(s[0]) {
      FilterHead(s[1..], p);
      var i :| 0 <= i < |s| - 1 && s[1..][i] == Filter(s[1..], p)[0] && p(s[1..][i])
               && forall j :: 0 <= j < i ==> !p(s[1..][j]);
      assert forall j :: 0 < j <= i ==> s[j] == s[1..][j - 1];
      assert s[i + 1] == Filter(s, p)[0];
    } else {
      assert s[0] == Filter(s, p)[0];
    }
  }

  /** `s.map(f)`. */
  function Map<T, U>(s: seq<T>, f: T -> U): (r: seq<U>)
    ensures |r| == |s|
    ensures forall i :: 0 <= i < |s| ==> r[i] == f(s[i])
  {
    if s == [] then [] else [f(s[0])] + Map(s[1..], f)
  }

  // ---------------------------------------------------------------------
  // stable sort

  /** Every earlier element is `le` every later one. */
  ghost predicate Sorted<T>(s: seq<T>, le: (T, T) -> bool) {
    forall i, j :: 0 <= i < j < |s| ==> le(s[i], s[j])
  }

  /** `le` is total and transitive on the elements of `s` (what a comparator must be). */
  ghost predicate PreorderOn<T>(s: seq<T>, le: (T, T) -> bool) {
    && (forall a, b :: a in s && b in s ==> le(a, b) || le(b, a))
    && (forall a, b, c :: a in s && b in s && c in s && le(a, b) && le(b, c) ==> le(a, c))
  }

  /** `x` goes in front of the first element it is `le` to. */
  function Insert<T>(x: T, s: seq<T>, le: (T, T) -> bool): seq<T> {
    if s == [] then [x]
    else if le(x, s[0]) then [x] + s
    else [s[0]] + Insert(x, s[1..], le)
  }

  /** Inserting adds exactly `x`. */
  lemma {:induction false} InsertCount<T>(x: T, s: seq<T>, le: (T, T) -> bool)
    ensures |Insert(x, s, le)| == |s| + 1
    ensures multiset(Insert(x, s, le)) == multiset(s) + multiset{x}
  {
    if s != [] && !le(x, s[0]) {
      assert s == [s[0]] + s[1..];
      InsertCount(x, s[1..], le);
    }
  }

  /**
   * `[...s].sort(cmp)` where `le(a, b)` means `cmp(a, b) <= 0`, i.e. the comparator does
   * not move `b` ahead of `a`. Insertion from the back keeps every element ahead of the
   * later elements it compares equal to, so the sort is stable, as JavaScript's is.
   */
  function SortBy<T>(s: seq<T>, le: (T, T) -> bool): (r: seq<T>)
    ensures |r| == |s|
    ensures multiset(r) == multiset(s)
  {
    if s == [] then []
    else
      assert s == [s[0]] + s[1..];
      InsertCount(s[0], SortBy(s[1..], le), le);
      Insert(s[0], SortBy(s[1..], le), le)
  }

  /** Sequences with the same multiset have the same elements. */
  lemma SameElements<T>(a: seq<T>, b: seq<T>)
    requires multiset(a) == multiset(b)
    ensures forall i :: 0 <= i < |a| ==> a[i] in b
    ensures forall i :: 0 <= i < |b| ==> b[i] in a
  {
    forall i | 0 <= i < |a| ensures a[i] in b {
      assert a[i] in multiset(a);
    }
    forall i | 0 <= i < |b| ensures b[i] in a {
      assert b[i] in multiset(b);
    }
  }

  lemma {:induction false} InsertSorted<T>(x: T, s: seq<T>, le: (T, T) -> bool)
    requires Sorted(s, le)
    requires PreorderOn([x] + s, le)
    ensures Sorted(Insert(x, s, le), le)
  {
    if s != [] && !le(x, s[0]) {
      assert s[0] in [x] + s && x in [x] + s;
      assert le(s[0], x);
      var rest := s[1..];
      assert Sorted(rest, le);
      assert PreorderOn([x] + rest, le) by {
        forall y | y in [x] + rest ensures y in [x] + s {
          if y != x {
            assert y in s;
          }
        }
      }
      InsertSorted(x, rest, le);
      var ins := Insert(x, rest, le);
      InsertCount(x, rest, le);
      assert multiset(ins) == multiset(rest) + multiset{x};
      forall j | 0 <= j < |ins| ensures le(s[0], ins[j]) {
        assert ins[j] in multiset(ins);
        if ins[j] != x {
          assert ins[j] in rest;
        }
      }
    }
  }

  /** With a comparator that is a preorder on the elements, the result is sorted. */
  lemma {:induction false} SortBySorted<T>(s: seq<T>, le: (T, T) -> bool)
    requires PreorderOn(s, le)
    ensures Sorted(SortBy(s, le), le)
  {
    if s != [] {
      var rest := s[1..];
      assert PreorderOn(rest, le);
      SortBySorted(rest, le);
      var sorted := SortBy(rest, le);
      assert PreorderOn([s[0]] + sorted, le) by {
        forall y | y in [s[0]] + sorted ensures y in s {
          if y != s[0] {
            assert y in multiset(sorted);
            assert y in rest;
          }
        }
      }
      InsertSorted(s[0], sorted, le);
    }
  }

  /**
   * Inserting `x` puts it ahead of every element of a class whose members it is `le` to, and
   * leaves the order of that class otherwise alone.
   */
  lemma {:induction false} InsertKept<T>(x: T, t: seq<T>, le: (T, T) -> bool, p: T -> bool)
    requires p(x) ==> forall y :: y in t && p(y) ==> le(x, y)
    ensures Kept(Insert(x, t, le), p) == (if p(x) then [x] else []) + Kept(t, p)
  {
    if t == [] {
      assert [x][0] == x && [x][1..] == [];
    } else if le(x, t[0]) {
      var r := [x] + t;
      assert r[0] == x && r[1..] == t;
    } else {
      var head, tail := t[0], t[1..];
      var rest := Insert(x, tail, le);
      if p(x) {
        forall y | y in tail && p(y) ensures le(x, y) {
          assert y in t;
        }
      }
      InsertKept(x, tail, le, p);
      var r := [head] + rest;
      assert Insert(x, t, le) == r;
      assert r[0] == head && r[1..] == rest;
      var mine := if p(head) then [head] else [];
      assert Kept(r, p) == mine + Kept(rest, p);
      assert Kept(t, p) == mine + Kept(tail, p);
      if p(x) {
        assert head in t;
        assert mine == [];
        assert Kept(r, p) == [x] + Kept(tail, p);
        assert Kept(t, p) == Kept(tail, p);
      } else {
        assert Kept(rest, p) == Kept(tail, p);
      }
    }
  }

  lemma {:induction false} SortByKept<T>(s: seq<T>, le: (T, T) -> bool, p: T -> bool)
    requires forall x, y :: x in s && y in s && p(x) && p(y) ==> le(x, y)
    ensures Kept(SortBy(s, le), p) == Kept(s, p)
  {
    if s != [] {
      var rest := s[1..];
      assert forall y :: y in rest ==> y in s;
      SortByKept(rest, le, p);
      var sorted := SortBy(rest, le);
      forall y | y in sorted ensures y in s {
        assert y in multiset(sorted);
        assert y in multiset(rest);
      }
      InsertKept(s[0], sorted, le, p);
    }
  }

  /**
   * Stability: among elements that all compare equal to one another the sort keeps the input
   * order, so picking any such class out of the result gives it as it was in the input.
   */
  lemma SortByStable<T>(s: seq<T>, le: (T, T) -> bool, p: T -> bool)
    requires forall x, y :: x in s && y in s && p(x) && p(y) ==> le(x, y)
    ensures Filter(SortBy(s, le), p) == Filter(s, p)
  {
    SortByKept(s, le, p);
    KeptIsFilter(s, p);
    KeptIsFilter(SortBy(s, le), p);
  }

  /** Sorting a sequence that is already in order leaves it unchanged. */
  lemma {:induction false} SortBySortedIsIdentity<T>(s: seq<T>, le: (T, T) -> bool)
    requires Sorted(s, le)
    ensures SortBy(s, le) == s
  {
    if s != [] {
      SortBySortedIsIdentity(s[1..], le);
      if |s| > 1 {
        assert le(s[0], s[1]);
      }
      assert s == [s[0]] + s[1..];
    }
  }

  /** Sorting twice is sorting once. */
  lemma SortByIdempotent<T>(s: seq<T>, le: (T, T) -> bool)
    requires PreorderOn(s, le)
    ensures SortBy(SortBy(s, le), le) == SortBy(s, le)
  {
    SortBySorted(s, le);
    SortBySortedIsIdentity(SortBy(s, le), le);
  }

  // ---------------------------------------------------------------------
  // toggle membership

  ghost predicate NoDuplicates<T>(s: seq<T>) {
    forall i, j :: 0 <= i < j < |s| ==> s[i] != s[j]
  }

  /** The values a sequence holds, forgetting order and repetition. */
  ghost function Elements<T>(s: seq<T>): set<T> {
    set x | x in s
  }

  /** A sequence without repetition holds as many distinct values as it has entries. */
  lemma {:induction false} DistinctElements<T>(s: seq<T>)
    requires NoDuplicates(s)
    ensures |Elements(s)| == |s|
  {
    if s != [] {
      var t := s[1..];
      assert NoDuplicates(t) by {
        forall i, j | 0 <= i < j < |t| ensures t[i] != t[j] {
          assert t[i] == s[i + 1] && t[j] == s[j + 1];
        }
      }
      DistinctElements(t);
      assert s[0] !in t by {
        forall k | 0 <= k < |t| ensures t[k] != s[0] {
          assert t[k] == s[k + 1];
        }
      }
      assert Elements(s) == {s[0]} + Elements(t) by {
        assert s == [s[0]] + t;
      }
    }
  }

  /** A subset is no larger than its superset, and one just as large is the whole of it. */
  lemma {:induction false} SubsetCard<T>(a: set<T>, b: set<T>)
    requires a <= b
    ensures |a| <= |b|
    ensures |a| == |b| ==> a == b
    decreases b
  {
    if a != {} {
      var x :| x in a;
      assert |a - {x}| == |a| - 1 && |b - {x}| == |b| - 1;
      SubsetCard(a - {x}, b - {x});
      if |a| == |b| {
        assert a - {x} == b - {x};
        assert a == (a - {x}) + {x} && b == (b - {x}) + {x};
      }
    } else if b != {} {
      var y :| y in b;
      assert |b - {y}| == |b| - 1;
    }
  }

  /** `s.includes(x) ? s.filter(y => y !== x) : [...s, x]`. */
  function Toggle<T(==)>(s: seq<T>, x: T): (r: seq<T>)
    ensures x in r <==> x !in s
    ensures forall i :: 0 <= i < |r| && r[i] != x ==> r[i] in s
    ensures forall i :: 0 <= i < |s| && s[i] != x ==> s[i] in r
  {
    if x in s then Filter(s, y => y != x) else s + [x]
  }

  /** Removing all copies of `x`: `s.filter(y => y !== x)`. */
  function Without<T(==)>(s: seq<T>, x: T): (r: seq<T>)
    ensures x !in r
    ensures forall i :: 0 <= i < |s| && s[i] != x ==> s[i] in r
    ensures multiset(r) <= multiset(s)
  {
    Filter(s, y => y != x)
  }

  function NotIn<T(==)>(xs: seq<T>): T -> bool {
    (y: T) => y !in xs
  }

  /** Removing every element of `xs`: `s.filter(y => !xs.includes(y))`. */
  function WithoutAll<T(==)>(s: seq<T>, xs: seq<T>): (r: seq<T>)
    ensures forall i :: 0 <= i < |r| ==> r[i] in s && r[i] !in xs
    ensures forall i :: 0 <= i < |s| && s[i] !in xs ==> s[i] in r
  {
    Filter(s, NotIn(xs))
  }

  lemma WithoutAllNone<T>(s: seq<T>)
    ensures WithoutAll(s, []) == s
  {
    FilterKeepsAll(s, NotIn([]));
  }

  /** Removing the elements of `xs` and then `x` is removing those of `xs + [x]`. */
  lemma WithoutAllStep<T>(s: seq<T>, xs: seq<T>, x: T)
    ensures Without(WithoutAll(s, xs), x) == WithoutAll(s, xs + [x])
  {
    FilterFilter(s, NotIn(xs), y => y != x, NotIn(xs + [x]));
  }

  lemma {:induction false} FilterNoDuplicates<T>(s: seq<T>, p: T -> bool)
    requires NoDuplicates(s)
    ensures NoDuplicates(Filter(s, p))
  {
    if s != [] {
      FilterNoDuplicates(s[1..], p);
      assert s[0] !in s[1..];
    }
  }

  /** Toggling keeps a duplicate-free selection duplicate-free, and toggling twice restores membership. */
  lemma ToggleProperties<T>(s: seq<T>, x: T)
    requires NoDuplicates(s)
    ensures NoDuplicates(Toggle(s, x))
    ensures forall i :: 0 <= i < |s| ==> s[i] in Toggle(Toggle(s, x), x)
    ensures forall i :: 0 <= i < |Toggle(Toggle(s, x), x)| ==> Toggle(Toggle(s, x), x)[i] in s
  {
    if x in s {
      FilterNoDuplicates(s, y => y != x);
    }
  }
}
