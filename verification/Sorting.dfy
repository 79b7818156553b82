/** What Go's sort.Slice promises, and a fixed rule for what it leaves open: the input order decides
    between elements that the comparison does not separate. */
module Sorting {
  import opened Sequences

  /** The comparisons sort.Slice accepts: strict weak orders. */
  ghost predicate StrictWeakOrder<T(!new)>(less: (T, T) -> bool) {
    && (forall x :: !less(x, x))
    && (forall x, y, z :: less(x, y) && less(y, z) ==> less(x, z))
    && (forall x, y, z :: less(x, z) ==> less(x, y) || less(y, z))
  }

  /** A strict weak order that separates any two different elements. */
  ghost predicate StrictTotalOrder<T(!new)>(less: (T, T) -> bool) {
    && (forall x :: !less(x, x))
    && (forall x, y, z :: less(x, y) && less(y, z) ==> less(x, z))
    && (forall x, y :: less(x, y) || less(y, x) || x == y)
  }

  lemma TotalIsWeak<T(!new)>(less: (T, T) -> bool)
    requires StrictTotalOrder(less)
    ensures StrictWeakOrder(less)
  {
    forall x, y, z | less(x, z) ensures less(x, y) || less(y, z) {
      assert less(x, y) || less(y, x) || x == y;
    }
  }

  ghost predicate SortedBy<T>(s: seq<T>, less: (T, T) -> bool) {
    forall i, j :: 0 <= i < j < |s| ==> !less(s[j], s[i])
  }

  /** All that sort.Slice says of its result: a sorted permutation. */
  ghost predicate SortOf<T>(sorted: seq<T>, s: seq<T>, less: (T, T) -> bool) {
    multiset(sorted) == multiset(s) && SortedBy(sorted, less)
  }

  /** Put x before the first element that must not come before it. */
  function Insert<T>(x: T, s: seq<T>, less: (T, T) -> bool): seq<T> {
    if s == [] then [x]
    else if less(s[0], x) then [s[0]] + Insert(x, s[1..], less)
    else [x] + s
  }

  function Sort<T>(s: seq<T>, less: (T, T) -> bool): seq<T> {
    if s == [] then [] else Insert(s[0], Sort(s[1..], less), less)
  }

  lemma {:induction false} InsertPermutes<T>(x: T, s: seq<T>, less: (T, T) -> bool)
    ensures multiset(Insert(x, s, less)) == multiset(s) + multiset{x}
  {
    if s != [] && less(s[0], x) {
      InsertPermutes(x, s[1..], less);
      assert s == [s[0]] + s[1..];
    }
  }

  lemma {:induction false} SortPermutes<T>(s: seq<T>, less: (T, T) -> bool)
    ensures multiset(Sort(s, less)) == multiset(s)
  {
    if s != [] {
      SortPermutes(s[1..], less);
      InsertPermutes(s[0], Sort(s[1..], less), less);
      assert s == [s[0]] + s[1..];
    }
  }

  lemma SortedCons<T>(x: T, s: seq<T>, less: (T, T) -> bool)
    requires SortedBy(s, less) && forall j :: 0 <= j < |s| ==> !less(s[j], x)
    ensures SortedBy([x] + s, less)
  {
  }

  lemma {:induction false} InsertSorted<T(!new)>(x: T, s: seq<T>, less: (T, T) -> bool)
    requires StrictWeakOrder(less) && SortedBy(s, less)
    ensures SortedBy(Insert(x, s, less), less)
  {
    if s == [] {
    } else if less(s[0], x) {
      var rest := Insert(x, s[1..], less);
      InsertSorted(x, s[1..], less);
      InsertPermutes(x, s[1..], less);
      MultisetMembers(rest, s[1..] + [x]);
      forall j | 0 <= j < |rest| ensures !less(rest[j], s[0]) {
        assert rest[j] in s[1..] + [x];
      }
      SortedCons(s[0], rest, less);
    } else {
      var head := s[0];
      assert forall y :: less(y, x) ==> less(y, head);
      forall j | 0 <= j < |s| ensures !less(s[j], x) {
      }
      SortedCons(x, s, less);
    }
  }

  lemma {:induction false} SortIsSortOf<T(!new)>(s: seq<T>, less: (T, T) -> bool)
    requires StrictWeakOrder(less)
    ensures SortOf(Sort(s, less), s, less)
  {
    if s != [] {
      SortIsSortOf(s[1..], less);
      InsertSorted(s[0], Sort(s[1..], less), less);
      InsertPermutes(s[0], Sort(s[1..], less), less);
      assert s == [s[0]] + s[1..];
    }
  }

  lemma {:induction false} SortedIsFixed<T(!new)>(s: seq<T>, less: (T, T) -> bool)
    requires SortedBy(s, less)
    ensures Sort(s, less) == s
  {
    if s != [] {
      SortedIsFixed(s[1..], less);
      if |s| > 1 { assert !less(s[1], s[0]); }
    }
  }

  lemma HeadsAgree<T(!new)>(a: seq<T>, b: seq<T>, less: (T, T) -> bool)
    requires StrictTotalOrder(less)
    requires multiset(a) == multiset(b) && SortedBy(a, less) && SortedBy(b, less)
    requires a != []
    ensures |a| == |b| && a[0] == b[0]
  {
    MultisetMembers(a, b);
    assert a[0] in b && b[0] in a;
    var i :| 0 <= i < |a| && a[i] == b[0];
    var j :| 0 <= j < |b| && b[j] == a[0];
    assert less(a[0], b[0]) || less(b[0], a[0]) || a[0] == b[0];
  }

  lemma TailsPermute<T>(a: seq<T>, b: seq<T>)
    requires multiset(a) == multiset(b) && a != [] && b != [] && a[0] == b[0]
    ensures multiset(a[1..]) == multiset(b[1..])
  {
    assert a == [a[0]] + a[1..] && b == [b[0]] + b[1..];
    assert multiset(a[1..]) == multiset(a) - multiset{a[0]};
    assert multiset(b[1..]) == multiset(b) - multiset{b[0]};
  }

  /** Under a total order there is only one sorted permutation. */
  lemma {:induction false} SortOfUnique<T(!new)>(a: seq<T>, b: seq<T>, less: (T, T) -> bool)
    requires StrictTotalOrder(less)
    requires multiset(a) == multiset(b) && SortedBy(a, less) && SortedBy(b, less)
    ensures a == b
  {
    if a == [] {
      assert |multiset(b)| == |b|;
    } else {
      HeadsAgree(a, b, less);
      TailsPermute(a, b);
      SortOfUnique(a[1..], b[1..], less);
      assert a == [a[0]] + a[1..] && b == [b[0]] + b[1..];
    }
  }

  // ---- Sorting a part ----

  lemma FirstKeptNotLess<T(!new)>(x: T, s: seq<T>, keep: T -> bool, less: (T, T) -> bool)
    requires StrictWeakOrder(less) && SortedBy(s, less) && s != [] && !less(s[0], x)
    ensures Filter(s, keep) != [] ==> !less(Filter(s, keep)[0], x)
  {
    var kept := Filter(s, keep);
    if kept != [] {
      assert kept[0] in s;
      var i :| 0 <= i < |s| && s[i] == kept[0];
      var head, first := s[0], kept[0];
      assert less(first, x) ==> less(first, head) || less(head, x);
    }
  }

  lemma {:induction false} FilterInsert<T(!new)>(x: T, s: seq<T>, keep: T -> bool, less: (T, T) -> bool)
    requires StrictWeakOrder(less) && SortedBy(s, less)
    ensures Filter(Insert(x, s, less), keep) == if keep(x) then Insert(x, Filter(s, keep), less) else Filter(s, keep)
  {
    if s != [] {
      if less(s[0], x) {
        FilterInsert(x, s[1..], keep, less);
        assert ([s[0]] + Insert(x, s[1..], less))[1..] == Insert(x, s[1..], less);
      } else {
        FirstKeptNotLess(x, s, keep, less);
        assert ([x] + s)[1..] == s;
      }
    }
  }

  /** The chosen elements of a sorted list are the chosen elements, sorted. */
  lemma {:induction false} FilterSort<T(!new)>(s: seq<T>, keep: T -> bool, less: (T, T) -> bool)
    requires StrictWeakOrder(less)
    ensures Filter(Sort(s, less), keep) == Sort(Filter(s, keep), less)
  {
    hide Insert, SortedBy;
    if s != [] {
      FilterSort(s[1..], keep, less);
      SortIsSortOf(s[1..], less);
      FilterInsert(s[0], Sort(s[1..], less), keep, less);
    }
  }

  /** The last of the greatest elements. */
  function LastMax<T>(s: seq<T>, less: (T, T) -> bool): T
    requires s != []
  {
    if |s| == 1 then s[0]
    else
      var rest := LastMax(s[1..], less);
      if less(rest, s[0]) then s[0] else rest
  }

  lemma {:induction false} LastMaxIsMax<T(!new)>(s: seq<T>, less: (T, T) -> bool)
    requires StrictWeakOrder(less) && s != []
    ensures LastMax(s, less) in s
    ensures forall x :: x in s ==> !less(LastMax(s, less), x)
  {
    if |s| > 1 {
      var rest, head := LastMax(s[1..], less), s[0];
      LastMaxIsMax(s[1..], less);
      assert s == [head] + s[1..];
      if less(rest, head) {
        forall x | x in s ensures !less(head, x) {
          assert less(head, x) ==> less(rest, x);
        }
      }
    }
  }

  lemma {:induction false} InsertLast<T(!new)>(x: T, s: seq<T>, less: (T, T) -> bool)
    requires StrictWeakOrder(less) && SortedBy(s, less) && s != []
    ensures |Insert(x, s, less)| == |s| + 1
    ensures Insert(x, s, less)[|s|] == if less(s[|s| - 1], x) then x else s[|s| - 1]
  {
    if less(s[0], x) {
      if |s| > 1 { InsertLast(x, s[1..], less); }
    } else {
      var head, last := s[0], s[|s| - 1];
      assert less(last, x) ==> less(last, head) || less(head, x);
    }
  }

  lemma {:induction false} LastOfSort<T(!new)>(s: seq<T>, less: (T, T) -> bool)
    requires StrictWeakOrder(less) && s != []
    ensures |Sort(s, less)| == |s| && Sort(s, less)[|s| - 1] == LastMax(s, less)
  {
    if |s| == 1 {
      assert Sort(s[1..], less) == [];
    } else {
      LastOfSort(s[1..], less);
      SortIsSortOf(s[1..], less);
      InsertLast(s[0], Sort(s[1..], less), less);
    }
  }

  lemma LaterOfThree<T(!new)>(x: T, y: T, z: T, less: (T, T) -> bool)
    requires StrictWeakOrder(less)
    ensures less(z, y) && less(y, x) ==> less(z, x)
    ensures !less(z, y) && less(z, x) ==> less(z, y) || less(y, x)
    ensures less(z, x) ==> less(z, y) || less(y, x)
  {
  }

  /** Of two lists one after the other, the second has the last word unless its greatest is less. */
  lemma {:induction false} LastMaxAppend<T(!new)>(a: seq<T>, b: seq<T>, less: (T, T) -> bool)
    requires StrictWeakOrder(less) && a != [] && b != []
    ensures LastMax(a + b, less) == if less(LastMax(b, less), LastMax(a, less)) then LastMax(a, less) else LastMax(b, less)
  {
    assert (a + b)[1..] == a[1..] + b;
    if |a| > 1 {
      LastMaxAppend(a[1..], b, less);
      LaterOfThree(a[0], LastMax(a[1..], less), LastMax(b, less), less);
    } else {
      assert a[1..] + b == b;
    }
  }
}
