// Ordered reads: `ORDER BY` and `sort_by` return the rows of a bag in an order
// that a total comparison fixes completely.
module Sorting {

  // `le` is a total order of the elements of `d`.
  ghost predicate TotalOn<T>(le: (T, T) -> bool, d: set<T>) {
    && (forall x, y :: x in d && y in d ==> le(x, y) || le(y, x))
    && (forall x, y :: x in d && y in d && le(x, y) && le(y, x) ==> x == y)
    && (forall x, y, z :: x in d && y in d && z in d && le(x, y) && le(y, z) ==> le(x, z))
  }

  ghost predicate Within<T>(s: seq<T>, d: set<T>) {
    forall i :: 0 <= i < |s| ==> s[i] in d
  }

  ghost predicate Sorted<T>(s: seq<T>, le: (T, T) -> bool) {
    forall i, j :: 0 <= i < j < |s| ==> le(s[i], s[j])
  }

  function Insert<T>(x: T, s: seq<T>, le: (T, T) -> bool): (r: seq<T>)
    ensures multiset(r) == multiset(s) + multiset{x}
  {
    if s == [] then [x]
    else if le(x, s[0]) then [x] + s
    else
      assert s == [s[0]] + s[1..];
      [s[0]] + Insert(x, s[1..], le)
  }

  function Sort<T>(s: seq<T>, le: (T, T) -> bool): (r: seq<T>)
    ensures multiset(r) == multiset(s)
  {
    if s == [] then []
    else
      assert s == s[..|s| - 1] + [s[|s| - 1]];
      Insert(s[|s| - 1], Sort(s[..|s| - 1], le), le)
  }

  lemma {:induction false} InsertSorted<T>(x: T, s: seq<T>, le: (T, T) -> bool, d: set<T>)
    requires TotalOn(le, d) && Within(s, d) && x in d && Sorted(s, le)
    ensures Sorted(Insert(x, s, le), le)
  {
    if s != [] && !le(x, s[0]) {
      InsertSorted(x, s[1..], le, d);
      var r := Insert(x, s[1..], le);
      forall k | 0 <= k < |r| ensures le(s[0], r[k]) {
        assert r[k] in multiset(r);
        assert r[k] in multiset(s[1..]) || r[k] == x;
      }
    }
  }

  lemma {:induction false} SortIsSorted<T>(s: seq<T>, le: (T, T) -> bool, d: set<T>)
    requires TotalOn(le, d) && Within(s, d)
    ensures Sorted(Sort(s, le), le) && Within(Sort(s, le), d)
  {
    if s != [] {
      SortIsSorted(s[..|s| - 1], le, d);
      InsertSorted(s[|s| - 1], Sort(s[..|s| - 1], le), le, d);
    }
    forall i | 0 <= i < |s| ensures Sort(s, le)[i] in d {
      assert Sort(s, le)[i] in multiset(s);
    }
  }

  lemma HeadsAgree<T>(s: seq<T>, t: seq<T>, le: (T, T) -> bool, d: set<T>)
    requires TotalOn(le, d) && Within(s, d) && Within(t, d) && Sorted(s, le) && Sorted(t, le)
            && multiset(s) == multiset(t)
    requires s != [] && t != []
    ensures s[0] == t[0]
  {
    assert s[0] in multiset(t) && t[0] in multiset(s);
    var i :| 0 <= i < |t| && t[i] == s[0];
    var j :| 0 <= j < |s| && s[j] == t[0];
    assert i == 0 || le(t[0], s[0]);
    assert j == 0 || le(s[0], t[0]);
  }

  lemma RestOfBag<T>(s: seq<T>, t: seq<T>)
    requires multiset(s) == multiset(t) && s != [] && t != [] && s[0] == t[0]
    ensures multiset(s[1..]) == multiset(t[1..])
  {
    assert s == [s[0]] + s[1..] && t == [t[0]] + t[1..];
    assert multiset(s[1..]) == multiset(s) - multiset{s[0]};
    assert multiset(t[1..]) == multiset(t) - multiset{t[0]};
  }

  // Only one sequence lists a given bag in order.
  lemma {:induction false} SortedIsUnique<T>(s: seq<T>, t: seq<T>, le: (T, T) -> bool, d: set<T>)
    requires TotalOn(le, d) && Within(s, d) && Within(t, d) && Sorted(s, le) && Sorted(t, le)
            && multiset(s) == multiset(t)
    ensures s == t
  {
    if s == [] || t == [] {
      assert |multiset(s)| == |s| && |multiset(t)| == |t|;
    } else {
      HeadsAgree(s, t, le, d);
      RestOfBag(s, t);
      assert Sorted(s[1..], le) && Sorted(t[1..], le);
      SortedIsUnique(s[1..], t[1..], le, d);
      assert s == [s[0]] + s[1..] && t == [t[0]] + t[1..];
    }
  }

  ghost predicate IsLeast<T(!new)>(x: T, d: set<T>, le: (T, T) -> bool) {
    x in d && forall y :: y in d ==> le(x, y)
  }

  lemma SmallerDomain<T>(le: (T, T) -> bool, d: set<T>, e: set<T>)
    requires TotalOn(le, d) && e <= d
    ensures TotalOn(le, e)
  {}

  lemma LeastOfTwo<T(!new)>(x: T, y: T, d: set<T>, le: (T, T) -> bool)
    requires TotalOn(le, d) && x in d && IsLeast(y, d - {x}, le)
    ensures IsLeast(if le(x, y) then x else y, d, le)
  {
    forall z | z in d ensures le(if le(x, y) then x else y, z) {
      assert z == x || z in d - {x};
    }
  }

  lemma {:induction false} SomeLeast<T(!new)>(d: set<T>, le: (T, T) -> bool) returns (least: T)
    requires d != {} && TotalOn(le, d)
    ensures IsLeast(least, d, le)
  {
    var x :| x in d;
    if d - {x} == {} {
      assert d == {x};
      least := x;
    } else {
      SmallerDomain(le, d, d - {x});
      var y := SomeLeast(d - {x}, le);
      LeastOfTwo(x, y, d, le);
      least := if le(x, y) then x else y;
    }
  }

  lemma LeastExists<T(!new)>(d: set<T>, le: (T, T) -> bool)
    requires d != {} && TotalOn(le, d)
    ensures exists x :: x in d && forall y :: y in d ==> le(x, y)
  {
    var x := SomeLeast(d, le);
  }

  function Least<T(!new)>(d: set<T>, le: (T, T) -> bool): (x: T)
    requires d != {} && TotalOn(le, d)
    ensures x in d && forall y :: y in d ==> le(x, y)
  {
    LeastExists(d, le);
    var x :| x in d && forall y :: y in d ==> le(x, y);
    x
  }

  // SELECT ... ORDER BY: every row of the set, once, in order.
  function InOrder<T(!new)>(d: set<T>, le: (T, T) -> bool): (r: seq<T>)
    requires TotalOn(le, d)
    ensures |r| == |d| && (forall x :: x in r <==> x in d) && Sorted(r, le)
    ensures forall i, j :: 0 <= i < j < |r| ==> r[i] != r[j]
    decreases |d|
  {
    if d == {} then []
    else
      var x := Least(d, le);
      SmallerDomain(le, d, d - {x});
      var rest := InOrder(d - {x}, le);
      LeastFirst(d, x, rest, le);
      [x] + rest
  }

  lemma LeastFirst<T(!new)>(d: set<T>, x: T, rest: seq<T>, le: (T, T) -> bool)
    requires IsLeast(x, d, le) && |rest| == |d - {x}| && (forall y :: y in rest <==> y in d - {x}) && Sorted(rest, le)
    requires forall i, j :: 0 <= i < j < |rest| ==> rest[i] != rest[j]
    ensures var r := [x] + rest;
            && |r| == |d| && (forall y :: y in r <==> y in d) && Sorted(r, le)
            && forall i, j :: 0 <= i < j < |r| ==> r[i] != r[j]
  {
    assert forall k :: 0 <= k < |rest| ==> rest[k] in rest && rest[k] in d - {x};
    assert d == (d - {x}) + {x};
  }

  // Comparing two ordered reads decides whether the bags are the same.
  lemma SortDecidesBag<T>(s: seq<T>, t: seq<T>, le: (T, T) -> bool, d: set<T>)
    requires TotalOn(le, d) && Within(s, d) && Within(t, d)
    ensures Sort(s, le) == Sort(t, le) <==> multiset(s) == multiset(t)
  {
    SortIsSorted(s, le, d);
    SortIsSorted(t, le, d);
    if multiset(s) == multiset(t) {
      SortedIsUnique(Sort(s, le), Sort(t, le), le, d);
    }
  }

  // Without repetitions a sequence is known by its set of elements.
  lemma {:induction false} DistinctSeqsAsBags<T>(s: seq<T>, t: seq<T>)
    requires forall i, j :: 0 <= i < j < |s| ==> s[i] != s[j]
    requires forall i, j :: 0 <= i < j < |t| ==> t[i] != t[j]
    requires forall x :: x in s <==> x in t
    ensures multiset(s) == multiset(t)
  {
    forall x ensures multiset(s)[x] == multiset(t)[x] {
      CountsOnce(s, x);
      CountsOnce(t, x);
    }
  }

  lemma {:induction false} CountsOnce<T>(s: seq<T>, x: T)
    requires forall i, j :: 0 <= i < j < |s| ==> s[i] != s[j]
    ensures multiset(s)[x] == if x in s then 1 else 0
  {
    if s != [] {
      CountsOnce(s[1..], x);
      assert s == [s[0]] + s[1..];
    }
  }

  // Lexicographic comparison of texts, the `Ord` of `str`.
  predicate TextLe(s: string, t: string) {
    s == "" || (t != "" && (s[0] < t[0] || (s[0] == t[0] && TextLe(s[1..], t[1..]))))
  }

  lemma {:induction false} TextLeTotal(s: string, t: string)
    ensures TextLe(s, t) || TextLe(t, s)
    ensures TextLe(s, t) && TextLe(t, s) ==> s == t
  {
    if s != "" && t != "" && s[0] == t[0] {
      TextLeTotal(s[1..], t[1..]);
      assert s == [s[0]] + s[1..] && t == [t[0]] + t[1..];
    }
  }

  lemma {:induction false} TextLeTransitive(s: string, t: string, u: string)
    requires TextLe(s, t) && TextLe(t, u)
    ensures TextLe(s, u)
  {
    if s != "" && s[0] == t[0] && t[0] == u[0] {
      TextLeTransitive(s[1..], t[1..], u[1..]);
    }
  }
}
