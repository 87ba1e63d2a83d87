/** The contract of Python's `sort` and `sorted`: sorted, a permutation, and stable. */
module StableSort {

  ghost predicate TotalPreorder<T(!new)>(le: (T, T) -> bool) {
    && (forall a, b :: le(a, b) || le(b, a))
    && (forall a, b, c :: le(a, b) && le(b, c) ==> le(a, c))
  }

  ghost predicate Sorted<T>(s: seq<T>, le: (T, T) -> bool) {
    forall i, j :: 0 <= i < j < |s| ==> le(s[i], s[j])
  }

  /** Insertion after everything that is not greater. */
  function Place<T>(x: T, s: seq<T>, le: (T, T) -> bool): seq<T> {
    if s == [] then [x] else if le(s[0], x) then [s[0]] + Place(x, s[1..], le) else [x] + s
  }

  function Sort<T>(s: seq<T>, le: (T, T) -> bool): seq<T> {
    if s == [] then [] else Place(s[|s| - 1], Sort(s[..|s| - 1], le), le)
  }

  lemma {:induction false} PlacePermutes<T>(x: T, s: seq<T>, le: (T, T) -> bool)
    ensures multiset(Place(x, s, le)) == multiset(s) + multiset{x}
  {
    if s != [] {
      assert s == [s[0]] + s[1..];
      if le(s[0], x) { PlacePermutes(x, s[1..], le); }
    }
  }

  lemma {:induction false} SortPermutes<T>(s: seq<T>, le: (T, T) -> bool)
    ensures multiset(Sort(s, le)) == multiset(s)
  {
    if s != [] {
      assert s == s[..|s| - 1] + [s[|s| - 1]];
      SortPermutes(s[..|s| - 1], le);
      PlacePermutes(s[|s| - 1], Sort(s[..|s| - 1], le), le);
    }
  }

  lemma {:induction false} PlaceSorts<T(!new)>(x: T, s: seq<T>, le: (T, T) -> bool)
    requires TotalPreorder(le) && Sorted(s, le)
    ensures Sorted(Place(x, s, le), le)
  {
    if s == [] {
    } else if le(s[0], x) {
      PlaceSorts(x, s[1..], le);
      var rest := Place(x, s[1..], le);
      PlacePermutes(x, s[1..], le);
      forall j | 0 <= j < |rest| ensures le(s[0], rest[j]) {
        assert rest[j] in multiset(rest);
      }
    } else {
      assert le(x, s[0]);
    }
  }

  lemma {:induction false} SortSorts<T(!new)>(s: seq<T>, le: (T, T) -> bool)
    requires TotalPreorder(le)
    ensures Sorted(Sort(s, le), le)
  {
    if s != [] {
      SortSorts(s[..|s| - 1], le);
      PlaceSorts(s[|s| - 1], Sort(s[..|s| - 1], le), le);
    }
  }

  lemma SortMembers<T>(s: seq<T>, le: (T, T) -> bool)
    ensures |Sort(s, le)| == |s|
    ensures forall x :: x in Sort(s, le) <==> x in s
  {
    SortPermutes(s, le);
    assert |multiset(Sort(s, le))| == |multiset(s)|;
    forall x ensures x in Sort(s, le) <==> x in s {
      assert x in multiset(Sort(s, le)) <==> x in multiset(s);
    }
  }

  function Filter<T>(s: seq<T>, p: T -> bool): seq<T> {
    if s == [] then [] else (if p(s[0]) then [s[0]] else []) + Filter(s[1..], p)
  }

  lemma {:induction false} FilterSnoc<T>(s: seq<T>, x: T, p: T -> bool)
    ensures Filter(s + [x], p) == Filter(s, p) + (if p(x) then [x] else [])
  {
    if s == [] {
      assert s + [x] == [x];
    } else {
      FilterSnoc(s[1..], x, p);
      assert (s + [x])[1..] == s[1..] + [x];
    }
  }

  lemma {:induction false} FilterNone<T>(s: seq<T>, p: T -> bool)
    requires forall x :: x in s ==> !p(x)
    ensures Filter(s, p) == []
  {
    if s != [] { FilterNone(s[1..], p); }
  }

  lemma FilterCons<T>(x: T, s: seq<T>, p: T -> bool)
    ensures Filter([x] + s, p) == (if p(x) then [x] else []) + Filter(s, p)
  {
    assert ([x] + s)[1..] == s;
  }

  /** The elements that satisfy `p` count as equal. */
  ghost predicate Tied<T(!new)>(p: T -> bool, le: (T, T) -> bool) {
    forall a, b :: p(a) && p(b) ==> le(a, b)
  }

  lemma NoneTied<T(!new)>(x: T, s: seq<T>, le: (T, T) -> bool, p: T -> bool)
    requires TotalPreorder(le) && Sorted(s, le) && Tied(p, le) && s != [] && !le(s[0], x) && p(x)
    ensures forall y :: y in s ==> !p(y)
  {
    forall y | y in s ensures !p(y) {
      var i :| 0 <= i < |s| && s[i] == y;
      assert le(s[0], y);
    }
  }

  lemma {:induction false} PlaceIsStable<T(!new)>(x: T, s: seq<T>, le: (T, T) -> bool, p: T -> bool)
    requires TotalPreorder(le) && Sorted(s, le) && Tied(p, le)
    ensures Filter(Place(x, s, le), p) == Filter(s, p) + (if p(x) then [x] else [])
  {
    if s == [] {
    } else if le(s[0], x) {
      PlaceIsStable(x, s[1..], le, p);
      FilterCons(s[0], Place(x, s[1..], le), p);
    } else {
      FilterCons(x, s, p);
      if p(x) {
        NoneTied(x, s, le, p);
        FilterNone(s, p);
      }
    }
  }

  lemma OneMoreIsStable<T(!new)>(front: seq<T>, sorted: seq<T>, x: T, le: (T, T) -> bool, p: T -> bool)
    requires TotalPreorder(le) && Sorted(sorted, le) && Tied(p, le) && Filter(sorted, p) == Filter(front, p)
    ensures Filter(Place(x, sorted, le), p) == Filter(front + [x], p)
  {
    PlaceIsStable(x, sorted, le, p);
    FilterSnoc(front, x, p);
  }

  /** Elements that count as equal keep their order. */
  lemma {:induction false} SortIsStable<T(!new)>(s: seq<T>, le: (T, T) -> bool, p: T -> bool)
    requires TotalPreorder(le) && Tied(p, le)
    ensures Filter(Sort(s, le), p) == Filter(s, p)
  {
    if s != [] {
      var front, x := s[..|s| - 1], s[|s| - 1];
      SortIsStable(front, le, p);
      SortSorts(front, le);
      OneMoreIsStable(front, Sort(front, le), x, le, p);
      assert s == front + [x];
    }
  }

  lemma {:induction false} PlaceCounts<T>(x: T, s: seq<T>, le: (T, T) -> bool, p: T -> bool)
    ensures |Filter(Place(x, s, le), p)| == |Filter(s, p)| + (if p(x) then 1 else 0)
  {
    if s == [] {
    } else if le(s[0], x) {
      PlaceCounts(x, s[1..], le, p);
      FilterCons(s[0], Place(x, s[1..], le), p);
    } else {
      FilterCons(x, s, p);
    }
  }

  /** Sorting does not change how many elements satisfy a predicate. */
  lemma {:induction false} SortCounts<T>(s: seq<T>, le: (T, T) -> bool, p: T -> bool)
    ensures |Filter(Sort(s, le), p)| == |Filter(s, p)|
  {
    if s != [] {
      var front, x := s[..|s| - 1], s[|s| - 1];
      SortCounts(front, le, p);
      PlaceCounts(x, Sort(front, le), le, p);
      FilterSnoc(front, x, p);
      assert s == front + [x];
    }
  }

  /** A list in order is left as it is. */
  lemma {:induction false} SortedStays<T(!new)>(s: seq<T>, le: (T, T) -> bool)
    requires Sorted(s, le)
    ensures Sort(s, le) == s
  {
    if s != [] {
      var n := |s| - 1;
      SortedStays(s[..n], le);
      PlaceLast(s[n], s[..n], le);
      assert s == s[..n] + [s[n]];
    }
  }

  lemma {:induction false} PlaceLast<T>(x: T, s: seq<T>, le: (T, T) -> bool)
    requires forall i :: 0 <= i < |s| ==> le(s[i], x)
    ensures Place(x, s, le) == s + [x]
  {
    if s != [] {
      PlaceLast(x, s[1..], le);
      assert s + [x] == [s[0]] + (s[1..] + [x]);
    }
  }
}
