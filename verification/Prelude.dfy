/** Small shared vocabulary: optional values, results and ordered listings of id sets. */
module Prelude {

  datatype Option<+T> = None | Some(value: T)

  datatype Result<+T, +E> = Ok(value: T) | Err(error: E)

  /** Ordinals are stored through `u32`. */
  const U32_LIMIT: nat := 0x1_0000_0000

  /** A JSON value given for attributes: an object, named, or anything else. */
  datatype AttrsValue = Object(members: nat) | NotObject

  /** Missing attributes are the empty object. */
  function AttrsOr(attrs: Option<AttrsValue>): AttrsValue {
    if attrs.Some? then attrs.value else Object(0)
  }

  function First<T>(s: seq<T>, limit: nat): seq<T> {
    if |s| <= limit then s else s[..limit]
  }

  function Min(a: int, b: int): int { if a <= b then a else b }

  function Max(a: int, b: int): int { if a >= b then a else b }

  predicate Distinct<T(==)>(s: seq<T>) {
    forall i, j :: 0 <= i < j < |s| ==> s[i] != s[j]
  }

  ghost predicate IsLeast(s: set<nat>, m: nat) {
    m in s && forall x :: x in s ==> m <= x
  }

  lemma {:induction false} HasLeast(s: set<nat>)
    requires s != {}
    ensures exists m :: IsLeast(s, m)
  {
    var y :| y in s;
    var least := y;
    if s - {y} != {} {
      HasLeast(s - {y});
      var m :| IsLeast(s - {y}, m);
      least := if m <= y then m else y;
    }
    forall x | x in s
      ensures least <= x
    {
      assert x == y || x in s - {y};
    }
    assert IsLeast(s, least);
  }

  function Least(s: set<nat>): (m: nat)
    requires s != {}
    ensures IsLeast(s, m)
  {
    HasLeast(s);
    var m :| m in s && forall x :: x in s ==> m <= x;
    m
  }

  /** `ORDER BY id`: the members of `s`, each once, ascending. */
  function Ascending(s: set<nat>): seq<nat> {
    if s == {} then []
    else
      [Least(s)] + Ascending(s - {Least(s)})
  }

  lemma {:induction false} AscendingMembers(s: set<nat>)
    ensures |Ascending(s)| == |s|
    ensures forall x :: x in s <==> x in Ascending(s)
  {
    if s != {} {
      AscendingMembers(s - {Least(s)});
      forall x
        ensures x in s <==> x in Ascending(s)
      {
        assert x in s <==> x == Least(s) || x in s - {Least(s)};
      }
    }
  }

  lemma {:induction false} AscendingOrdered(s: set<nat>)
    ensures forall i, j :: 0 <= i < j < |Ascending(s)| ==> Ascending(s)[i] < Ascending(s)[j]
  {
    if s != {} {
      var rest := Ascending(s - {Least(s)});
      AscendingOrdered(s - {Least(s)});
      AscendingMembers(s - {Least(s)});
      forall i | 0 <= i < |rest|
        ensures Least(s) < rest[i]
      {
        assert rest[i] in s - {Least(s)};
      }
    }
  }

  lemma {:induction false} AscendingDistinct(s: set<nat>)
    ensures Distinct(Ascending(s)) && forall x :: x in s <==> x in Ascending(s)
  {
    AscendingMembers(s);
    AscendingOrdered(s);
  }

  lemma {:induction false} DistinctConcat<T>(a: seq<T>, b: seq<T>)
    requires Distinct(a) && Distinct(b) && forall x :: x in a ==> x !in b
    ensures Distinct(a + b)
  {
    var s := a + b;
    forall i, j | 0 <= i < j < |s|
      ensures s[i] != s[j]
    {
      assert s[i] == if i < |a| then a[i] else b[i - |a|];
      assert s[j] == if j < |a| then a[j] else b[j - |a|];
      if i < |a| <= j {
        assert s[i] in a && s[j] in b;
      }
    }
  }

  lemma SubsetSize<T>(a: set<T>, b: set<T>)
    requires a <= b
    ensures |a| <= |b|
  {
    assert b == a + (b - a);
  }

  ghost predicate IsGreatest(s: set<nat>, m: nat) {
    m in s && forall x :: x in s ==> x <= m
  }

  lemma {:induction false} HasGreatest(s: set<nat>)
    requires s != {}
    ensures exists m :: IsGreatest(s, m)
  {
    var y :| y in s;
    if s - {y} == {} {
      assert s == {y};
      assert IsGreatest(s, y);
    } else {
      HasGreatest(s - {y});
      var m: nat :| IsGreatest(s - {y}, m);
      var top := if m <= y then y else m;
      forall x | x in s
        ensures x <= top
      {
        assert x == y || x in s - {y};
      }
      assert IsGreatest(s, top);
    }
  }

  function Greatest(s: set<nat>): (m: nat)
    requires s != {}
    ensures IsGreatest(s, m)
  {
    HasGreatest(s);
    var m :| m in s && forall x :: x in s ==> x <= m;
    m
  }
}
