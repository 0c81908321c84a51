/** Stable sorting by a total preorder, and the lexicographic order of strings. */
module Ordering {

  /** Insertion behind everything that may stand before `x`. */
  function Insert<T>(leq: (T, T) -> bool, s: seq<T>, x: T): seq<T> {
    if s == [] then [x]
    else if leq(s[|s| - 1], x) then s + [x]
    else Insert(leq, s[..|s| - 1], x) + [s[|s| - 1]]
  }

  /** The stable sort: equal elements keep their order. */
  function Sorted<T>(leq: (T, T) -> bool, s: seq<T>): seq<T> {
    if s == [] then [] else Insert(leq, Sorted(leq, s[..|s| - 1]), s[|s| - 1])
  }

  ghost predicate TotalPreorder<T(!new)>(leq: (T, T) -> bool) {
    && (forall a, b :: leq(a, b) || leq(b, a))
    && (forall a, b, c :: leq(a, b) && leq(b, c) ==> leq(a, c))
  }

  predicate IsSorted<T>(leq: (T, T) -> bool, s: seq<T>) {
    forall i, j :: 0 <= i < j < |s| ==> leq(s[i], s[j])
  }

  lemma {:induction false} InsertKeeps<T>(leq: (T, T) -> bool, s: seq<T>, x: T)
    ensures multiset(Insert(leq, s, x)) == multiset(s) + multiset{x}
    ensures |Insert(leq, s, x)| == |s| + 1
  {
    if s != [] && !leq(s[|s| - 1], x) {
      InsertKeeps(leq, s[..|s| - 1], x);
      assert s == s[..|s| - 1] + [s[|s| - 1]];
    }
  }

  lemma {:induction false} SortedKeeps<T>(leq: (T, T) -> bool, s: seq<T>)
    ensures multiset(Sorted(leq, s)) == multiset(s)
    ensures |Sorted(leq, s)| == |s|
  {
    if s != [] {
      SortedKeeps(leq, s[..|s| - 1]);
      InsertKeeps(leq, Sorted(leq, s[..|s| - 1]), s[|s| - 1]);
      assert s == s[..|s| - 1] + [s[|s| - 1]];
    }
  }

  lemma {:induction false} InsertIsSorted<T(!new)>(leq: (T, T) -> bool, s: seq<T>, x: T)
    requires TotalPreorder(leq) && IsSorted(leq, s)
    ensures IsSorted(leq, Insert(leq, s, x))
  {
    if s != [] && !leq(s[|s| - 1], x) {
      var front, last := s[..|s| - 1], s[|s| - 1];
      InsertIsSorted(leq, front, x);
      InsertKeeps(leq, front, x);
      var inner := Insert(leq, front, x);
      forall i | 0 <= i < |inner|
        ensures leq(inner[i], last)
      {
        assert inner[i] in multiset(inner);
        if inner[i] in front {
          var j :| 0 <= j < |front| && front[j] == inner[i];
          assert s[j] == front[j];
        }
      }
    }
  }

  lemma {:induction false} SortedIsSorted<T(!new)>(leq: (T, T) -> bool, s: seq<T>)
    requires TotalPreorder(leq)
    ensures IsSorted(leq, Sorted(leq, s))
  {
    if s != [] {
      SortedIsSorted(leq, s[..|s| - 1]);
      InsertIsSorted(leq, Sorted(leq, s[..|s| - 1]), s[|s| - 1]);
    }
  }

  /** Sorting what is sorted changes nothing. */
  lemma {:induction false} SortedIsStable<T>(leq: (T, T) -> bool, s: seq<T>)
    requires IsSorted(leq, s)
    ensures Sorted(leq, s) == s
  {
    if s != [] {
      SortedIsStable(leq, s[..|s| - 1]);
      assert s == s[..|s| - 1] + [s[|s| - 1]];
    }
  }

  // Two stable sorts in a row

  /** By the second order, and by the first among its ties. */
  predicate Lexicographic<T>(second: (T, T) -> bool, first: (T, T) -> bool, a: T, b: T) {
    second(a, b) && (second(b, a) ==> first(a, b))
  }

  ghost predicate SortedByBoth<T>(second: (T, T) -> bool, first: (T, T) -> bool, s: seq<T>) {
    forall i, j :: 0 <= i < j < |s| ==> Lexicographic(second, first, s[i], s[j])
  }

  lemma {:induction false} InsertStaysSortedByBoth<T(!new)>(second: (T, T) -> bool, first: (T, T) -> bool, s: seq<T>, x: T)
    requires TotalPreorder(second) && SortedByBoth(second, first, s)
    requires forall i :: 0 <= i < |s| ==> first(s[i], x)
    ensures SortedByBoth(second, first, Insert(second, s, x))
  {
    if s != [] {
      var front, last := s[..|s| - 1], s[|s| - 1];
      if second(last, x) {
        assert forall i :: 0 <= i < |s| ==> second(s[i], x);
      } else {
        InsertStaysSortedByBoth(second, first, front, x);
        InsertKeeps(second, front, x);
        var inner := Insert(second, front, x);
        forall i | 0 <= i < |inner|
          ensures Lexicographic(second, first, inner[i], last)
        {
          assert inner[i] in multiset(inner);
          if inner[i] in front {
            var j :| 0 <= j < |front| && front[j] == inner[i];
            assert s[j] == front[j];
          }
        }
      }
    }
  }

  /** A stable sort of a list that was sorted before keeps the earlier order among ties. */
  lemma {:induction false} StableSortKeepsOrder<T(!new)>(second: (T, T) -> bool, first: (T, T) -> bool, s: seq<T>)
    requires TotalPreorder(second) && IsSorted(first, s)
    ensures SortedByBoth(second, first, Sorted(second, s))
  {
    if s != [] {
      var front := s[..|s| - 1];
      StableSortKeepsOrder(second, first, front);
      SortedKeeps(second, front);
      var sorted := Sorted(second, front);
      forall i | 0 <= i < |sorted|
        ensures first(sorted[i], s[|s| - 1])
      {
        assert sorted[i] in multiset(sorted);
        var j :| 0 <= j < |front| && front[j] == sorted[i];
        assert s[j] == front[j];
      }
      InsertStaysSortedByBoth(second, first, sorted, s[|s| - 1]);
    }
  }

  ghost predicate TiesAreEqual<T>(leq: (T, T) -> bool, s: multiset<T>) {
    forall x, y :: x in s && y in s && leq(x, y) && leq(y, x) ==> x == y
  }

  lemma LastIsGreatest<T>(leq: (T, T) -> bool, s: seq<T>, x: T)
    requires IsSorted(leq, s) && x in s
    ensures x == s[|s| - 1] || leq(x, s[|s| - 1])
  {
    var i :| 0 <= i < |s| && s[i] == x;
  }

  lemma LastsAgree<T>(leq: (T, T) -> bool, a: seq<T>, b: seq<T>)
    requires IsSorted(leq, a) && IsSorted(leq, b) && multiset(a) == multiset(b) && a != []
    requires TiesAreEqual(leq, multiset(a))
    ensures b != [] && a[|a| - 1] == b[|b| - 1]
  {
    var x := a[|a| - 1];
    assert x in multiset(a);
    assert x in b;
    var y := b[|b| - 1];
    assert y in multiset(b);
    assert y in a;
    LastIsGreatest(leq, b, x);
    LastIsGreatest(leq, a, y);
  }

  lemma WithoutLast<T>(s: seq<T>)
    requires s != []
    ensures multiset(s[..|s| - 1]) == multiset(s) - multiset{s[|s| - 1]}
  {
    assert s == s[..|s| - 1] + [s[|s| - 1]];
  }

  lemma FrontIsSorted<T>(leq: (T, T) -> bool, s: seq<T>)
    requires s != [] && IsSorted(leq, s)
    ensures IsSorted(leq, s[..|s| - 1])
  {
  }

  lemma FrontTies<T>(leq: (T, T) -> bool, s: seq<T>)
    requires s != [] && TiesAreEqual(leq, multiset(s))
    ensures TiesAreEqual(leq, multiset(s[..|s| - 1]))
  {
    WithoutLast(s);
  }

  lemma SameFronts<T>(a: seq<T>, b: seq<T>)
    requires a != [] && b != [] && multiset(a) == multiset(b) && a[|a| - 1] == b[|b| - 1]
    ensures multiset(a[..|a| - 1]) == multiset(b[..|b| - 1])
  {
    WithoutLast(a);
    WithoutLast(b);
  }

  lemma SameEnds<T>(a: seq<T>, b: seq<T>)
    requires a != [] && b != [] && a[..|a| - 1] == b[..|b| - 1] && a[|a| - 1] == b[|b| - 1]
    ensures a == b
  {
    assert a == a[..|a| - 1] + [a[|a| - 1]] && b == b[..|b| - 1] + [b[|b| - 1]];
  }

  lemma SameMembers<T>(a: seq<T>, b: seq<T>)
    requires multiset(a) == multiset(b)
    ensures a == [] <==> b == []
  {
    if a != [] {
      assert a[0] in multiset(b);
    }
    if b != [] {
      assert b[0] in multiset(a);
    }
  }

  lemma SameLength<T>(a: seq<T>, b: seq<T>)
    requires multiset(a) == multiset(b)
    ensures |a| == |b|
  {
    assert |multiset(a)| == |a| && |multiset(b)| == |b|;
  }

  function Mapped<T, U>(f: T -> U, s: seq<T>): seq<U> {
    if s == [] then [] else Mapped(f, s[..|s| - 1]) + [f(s[|s| - 1])]
  }

  lemma {:induction false} MappedOne<T, U>(f: T -> U, s: seq<T>)
    requires |s| <= 1
    ensures Mapped(f, s) == if s == [] then [] else [f(s[0])]
  {
    if s != [] {
      assert s[..0] == [];
    }
  }

  lemma {:induction false} MappedConcat<T, U>(f: T -> U, a: seq<T>, b: seq<T>)
    ensures Mapped(f, a + b) == Mapped(f, a) + Mapped(f, b)
  {
    if b == [] {
      assert a + b == a;
    } else {
      assert (a + b)[..|a + b| - 1] == a + b[..|b| - 1];
      MappedConcat(f, a, b[..|b| - 1]);
    }
  }

  lemma {:induction false} MappedInAnyOrder<T, U>(f: T -> U, a: seq<T>, b: seq<T>)
    requires multiset(a) == multiset(b)
    ensures multiset(Mapped(f, a)) == multiset(Mapped(f, b))
  {
    SameMembers(a, b);
    if a != [] {
      var left, right := FindLast(a, b);
      MappedInAnyOrder(f, a[..|a| - 1], left + right);
      MappedMiddle(f, left, a[|a| - 1], right);
    }
  }

  lemma {:induction false} MappedMiddle<T, U>(f: T -> U, left: seq<T>, x: T, right: seq<T>)
    ensures multiset(Mapped(f, left + [x] + right)) == multiset(Mapped(f, left + right)) + multiset{f(x)}
  {
    MappedConcat(f, left + [x], right);
    MappedConcat(f, left, right);
    assert (left + [x])[..|left|] == left;
  }

  ghost predicate AllDifferent<T>(s: seq<T>) {
    forall i, j :: 0 <= i < j < |s| ==> s[i] != s[j]
  }

  lemma {:induction false} DifferentByCount<T>(s: seq<T>)
    ensures AllDifferent(s) <==> forall x :: multiset(s)[x] <= 1
  {
    if s != [] {
      var front, last := s[..|s| - 1], s[|s| - 1];
      assert s == front + [last];
      DifferentByCount(front);
      forall x
        ensures multiset(s)[x] == multiset(front)[x] + (if x == last then 1 else 0)
      {
      }
      assert AllDifferent(s) <==> AllDifferent(front) && last !in front;
      assert last in front <==> multiset(front)[last] >= 1;
    }
  }

  lemma DifferentInAnyOrder<T>(a: seq<T>, b: seq<T>)
    requires multiset(a) == multiset(b) && AllDifferent(a)
    ensures AllDifferent(b)
  {
    DifferentByCount(a);
    DifferentByCount(b);
  }

  /** Where the last element of one arrangement stands in another. */
  lemma FindLast<T>(a: seq<T>, b: seq<T>) returns (left: seq<T>, right: seq<T>)
    requires multiset(a) == multiset(b) && a != []
    ensures b == left + [a[|a| - 1]] + right
    ensures multiset(a[..|a| - 1]) == multiset(left + right)
  {
    var x := a[|a| - 1];
    assert x in multiset(b);
    var j :| 0 <= j < |b| && b[j] == x;
    left, right := b[..j], b[j + 1..];
    assert b == left + [x] + right;
    assert multiset(b) == multiset(left) + multiset{x} + multiset(right);
    assert multiset(left + right) == multiset(left) + multiset(right);
    WithoutLast(a);
  }

  /** Two sorted arrangements of the same elements are equal when ties are identical. */
  lemma {:induction false} SortedIsUnique<T>(leq: (T, T) -> bool, a: seq<T>, b: seq<T>)
    requires IsSorted(leq, a) && IsSorted(leq, b) && multiset(a) == multiset(b)
    requires TiesAreEqual(leq, multiset(a))
    ensures a == b
  {
    SameMembers(a, b);
    if a != [] {
      LastsAgree(leq, a, b);
      SameFronts(a, b);
      FrontIsSorted(leq, a);
      FrontIsSorted(leq, b);
      FrontTies(leq, a);
      SortedIsUnique(leq, a[..|a| - 1], b[..|b| - 1]);
      SameEnds(a, b);
    }
  }

  /** Code point by code point, a prefix before its extensions. */
  predicate LexLeq(a: string, b: string) {
    if a == "" then true
    else if b == "" then false
    else if a[0] != b[0] then a[0] < b[0]
    else LexLeq(a[1..], b[1..])
  }

  lemma {:induction false} LexTotal(a: string, b: string)
    ensures LexLeq(a, b) || LexLeq(b, a)
    ensures LexLeq(a, b) && LexLeq(b, a) ==> a == b
  {
    if a != "" && b != "" && a[0] == b[0] {
      LexTotal(a[1..], b[1..]);
      assert a == [a[0]] + a[1..] && b == [b[0]] + b[1..];
    }
  }

  lemma {:induction false} LexTransitive(a: string, b: string, c: string)
    requires LexLeq(a, b) && LexLeq(b, c)
    ensures LexLeq(a, c)
  {
    if a != "" && b != "" && c != "" && a[0] == b[0] && b[0] == c[0] {
      LexTransitive(a[1..], b[1..], c[1..]);
    }
  }

  /** Lexicographic comparison of a key and, for equal keys, of a second one. */
  predicate PairLeq(a: (string, string), b: (string, string)) {
    if a.0 == b.0 then LexLeq(a.1, b.1) else LexLeq(a.0, b.0)
  }

  lemma PairTotal(a: (string, string), b: (string, string))
    ensures PairLeq(a, b) || PairLeq(b, a)
    ensures PairLeq(a, b) && PairLeq(b, a) ==> a == b
  {
    LexTotal(a.0, b.0);
    LexTotal(a.1, b.1);
  }

  lemma PairTransitive(a: (string, string), b: (string, string), c: (string, string))
    requires PairLeq(a, b) && PairLeq(b, c)
    ensures PairLeq(a, c)
  {
    LexTotal(a.0, b.0);
    LexTotal(b.0, c.0);
    if a.0 == b.0 == c.0 {
      LexTransitive(a.1, b.1, c.1);
    } else if LexLeq(a.0, b.0) && LexLeq(b.0, c.0) {
      LexTransitive(a.0, b.0, c.0);
    }
  }
}
