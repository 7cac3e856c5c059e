/** A total order on scored things and sorting by it. Scores are reals; two scores descend, then two ids ascend. */
module Ranking {

  datatype Rank = Rank(primary: real, secondary: real, major: nat, minor: nat)

  datatype Placed<T> = Placed(rank: Rank, item: T)

  predicate Before(a: Rank, b: Rank) {
    || a.primary > b.primary
    || (a.primary == b.primary && a.secondary > b.secondary)
    || (a.primary == b.primary && a.secondary == b.secondary && a.major < b.major)
    || (a.primary == b.primary && a.secondary == b.secondary && a.major == b.major && a.minor < b.minor)
  }

  /** After everything it does not precede: equals keep their order. */
  function Insert<T>(x: Placed<T>, s: seq<Placed<T>>): seq<Placed<T>> {
    if s == [] || !Before(x.rank, s[|s| - 1].rank) then s + [x]
    else Insert(x, s[..|s| - 1]) + [s[|s| - 1]]
  }

  function Sort<T>(s: seq<Placed<T>>): seq<Placed<T>> {
    if s == [] then [] else Insert(s[|s| - 1], Sort(s[..|s| - 1]))
  }

  ghost predicate StrictlySorted<T>(s: seq<Placed<T>>) {
    forall i, j :: 0 <= i < j < |s| ==> Before(s[i].rank, s[j].rank)
  }

  ghost predicate DistinctRanks<T>(s: seq<Placed<T>>) {
    forall i, j :: 0 <= i < j < |s| ==> s[i].rank != s[j].rank
  }

  ghost predicate SameMembers<T(!new)>(a: seq<Placed<T>>, b: seq<Placed<T>>) {
    forall x :: x in a <==> x in b
  }

  lemma {:induction false} InsertSorts<T(!new)>(x: Placed<T>, s: seq<Placed<T>>)
    requires StrictlySorted(s) && forall y :: y in s ==> y.rank != x.rank
    ensures StrictlySorted(Insert(x, s)) && SameMembers(Insert(x, s), s + [x])
  {
    if s != [] && Before(x.rank, s[|s| - 1].rank) {
      var init, last := s[..|s| - 1], s[|s| - 1];
      InsertSorts(x, init);
      assert s == init + [last];
      assert forall y :: y in Insert(x, init) ==> y in init || y == x;
      forall i | 0 <= i < |Insert(x, init)|
        ensures Before(Insert(x, init)[i].rank, last.rank)
      {
        assert Insert(x, init)[i] in Insert(x, init);
      }
    } else {
      forall i | 0 <= i < |s|
        ensures Before(s[i].rank, x.rank)
      {
        assert s[i] in s && s[|s| - 1] in s;
      }
    }
  }

  lemma {:induction false} SortSorts<T(!new)>(s: seq<Placed<T>>)
    requires DistinctRanks(s)
    ensures StrictlySorted(Sort(s)) && SameMembers(Sort(s), s)
  {
    if s != [] {
      var init, last := s[..|s| - 1], s[|s| - 1];
      SortSorts(init);
      assert forall y :: y in init ==> y.rank != last.rank;
      InsertSorts(last, Sort(init));
      assert s == init + [last];
    }
  }

  lemma {:induction false} LastIsLast<T(!new)>(a: seq<Placed<T>>, b: seq<Placed<T>>)
    requires StrictlySorted(a) && StrictlySorted(b) && SameMembers(a, b) && a != []
    ensures b != [] && a[|a| - 1] == b[|b| - 1]
  {
    assert a[|a| - 1] in b;
    assert b[|b| - 1] in a;
  }

  lemma {:induction false} BothEmpty<T(!new)>(a: seq<Placed<T>>, b: seq<Placed<T>>)
    requires SameMembers(a, b)
    ensures a == [] <==> b == []
  {
    assert a != [] ==> a[0] in a;
    assert b != [] ==> b[0] in b;
  }

  /** A strictly sorted list is determined by its members. */
  lemma {:induction false} SortedUnique<T(!new)>(a: seq<Placed<T>>, b: seq<Placed<T>>)
    requires StrictlySorted(a) && StrictlySorted(b) && SameMembers(a, b)
    ensures a == b
  {
    BothEmpty(a, b);
    if a != [] {
      LastIsLast(a, b);
      var x, a', b' := a[|a| - 1], a[..|a| - 1], b[..|b| - 1];
      assert a == a' + [x] && b == b' + [x];
      NotInInit(a);
      NotInInit(b);
      forall y
        ensures y in a' <==> y in b'
      {
        assert (y in a' <==> y in a && y != x) && (y in b' <==> y in b && y != x);
      }
      SortedUnique(a', b');
    }
  }

  lemma {:induction false} NotInInit<T(!new)>(s: seq<Placed<T>>)
    requires StrictlySorted(s) && s != []
    ensures s[|s| - 1] !in s[..|s| - 1]
  {
  }

  /** Sorting forgets the order it was given. */
  lemma {:induction false} SortDetermined<T(!new)>(a: seq<Placed<T>>, b: seq<Placed<T>>)
    requires DistinctRanks(a) && DistinctRanks(b) && SameMembers(a, b)
    ensures Sort(a) == Sort(b)
  {
    SortSorts(a);
    SortSorts(b);
    SortedUnique(Sort(a), Sort(b));
  }
}
