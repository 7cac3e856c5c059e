/**
 * Hybrid search: full-text rows gathered into one hit per entry, and the fusion of two ranked lists by reciprocal
 * rank. The fused scores come out of a hash map, so equal ones may come in any order; the map's order is a parameter,
 * and when it can be seen is proved exactly. Scores are reals, rounded by functions that stand for the casts to and
 * the sums of 32-bit floats.
 */
module HybridFusion {
  import opened Prelude
  import opened Ranking

  /** The rank of an entry the full-text list does not hold. */
  const U32_MAX: nat := U32_LIMIT - 1

  /** Blocks listed per hit. */
  const IDS_CAP: nat := 64

  /** What the machine makes of an exact quotient, divided wide and cast narrow, and of an exact sum. */
  datatype Rounding = Rounding(cast: real -> real, sum: real -> real)

  /** Two lists of entry ids, best first, their weights, and the arithmetic. */
  datatype Query = Query(fulltext: seq<nat>, semantic: seq<nat>, fulltextWeight: real, semanticWeight: real, rounding: Rounding)

  datatype Scored = Scored(id: nat, score: real)

  function Portion(r: Rounding, weight: real, rank: nat): real {
    r.cast(weight / (60.0 + rank as real))
  }

  /** What a list makes of an entry's score: for every place the entry takes, a portion more. */
  function Summed(r: Rounding, start: real, ids: seq<nat>, weight: real, id: nat): real {
    if ids == [] then start
    else
      var before := Summed(r, start, ids[..|ids| - 1], weight, id);
      if ids[|ids| - 1] == id then r.sum(before + Portion(r, weight, |ids|)) else before
  }

  function FirstRank(ids: seq<nat>, id: nat): Option<nat> {
    if ids == [] then None
    else
      var before := FirstRank(ids[..|ids| - 1], id);
      if before.Some? then before else if ids[|ids| - 1] == id then Some(|ids|) else None
  }

  /** Cast to 32 bits. */
  function FulltextRank(q: Query, id: nat): nat {
    var rank := FirstRank(q.fulltext, id);
    if rank.Some? then rank.value % U32_LIMIT else U32_MAX
  }

  function FulltextScore(q: Query, id: nat): real {
    Summed(q.rounding, 0.0, q.fulltext, q.fulltextWeight, id)
  }

  function Score(q: Query, id: nat): real {
    Summed(q.rounding, FulltextScore(q, id), q.semantic, q.semanticWeight, id)
  }

  function Ids(s: seq<nat>): set<nat> {
    set id | id in s
  }

  function Candidates(q: Query): set<nat> {
    Ids(q.fulltext) + Ids(q.semantic)
  }

  /** Score descending, then full-text rank ascending, and nothing more. */
  function RankOf(q: Query, id: nat): Rank {
    Rank(Score(q, id), -(FulltextRank(q, id) as real), 0, 0)
  }

  function Place(q: Query, id: nat): Placed<nat> {
    Placed(RankOf(q, id), id)
  }

  function Places(q: Query, walk: seq<nat>): seq<Placed<nat>> {
    seq(|walk|, i requires 0 <= i < |walk| => Place(q, walk[i]))
  }

  /** An order in which the map may give its entries. */
  predicate Walks(q: Query, walk: seq<nat>) {
    Distinct(walk) && Ids(walk) == Candidates(q)
  }

  function Output(s: seq<Placed<nat>>): seq<Scored> {
    seq(|s|, i requires 0 <= i < |s| => Scored(s[i].item, s[i].rank.primary))
  }

  function Top(q: Query, walk: seq<nat>, topN: nat): seq<Placed<nat>> {
    First(Sort(Places(q, walk)), topN)
  }

  function Outcome(q: Query, walk: seq<nat>, topN: nat): seq<Scored> {
    Output(Top(q, walk, topN))
  }

  // ---- Sorting with ties ----

  ghost predicate WeaklySorted<T>(s: seq<Placed<T>>) {
    forall i, j :: 0 <= i < j < |s| ==> !Before(s[j].rank, s[i].rank)
  }

  ghost predicate Arranges<T(!new)>(out: seq<Placed<T>>, s: seq<Placed<T>>) {
    WeaklySorted(out) && Distinct(out) && SameMembers(out, s)
  }

  lemma {:induction false} InsertArranges<T(!new)>(x: Placed<T>, s: seq<Placed<T>>)
    requires WeaklySorted(s) && Distinct(s) && x !in s
    ensures Arranges(Insert(x, s), s + [x])
  {
    if s != [] && Before(x.rank, s[|s| - 1].rank) {
      var init, last := s[..|s| - 1], s[|s| - 1];
      InsertArranges(x, init);
      assert s == init + [last];
      forall i | 0 <= i < |Insert(x, init)|
        ensures !Before(last.rank, Insert(x, init)[i].rank) && Insert(x, init)[i] != last
      {
        assert Insert(x, init)[i] in init + [x];
      }
    } else {
      forall i | 0 <= i < |s|
        ensures !Before(x.rank, s[i].rank)
      {
        assert s[i] in s;
      }
    }
  }

  /** A stable sort orders any list of distinct things by rank, ties and all. */
  lemma {:induction false} SortArranges<T(!new)>(s: seq<Placed<T>>)
    requires Distinct(s)
    ensures Arranges(Sort(s), s)
  {
    if s != [] {
      var init, last := s[..|s| - 1], s[|s| - 1];
      SortArranges(init);
      InsertArranges(last, Sort(init));
      assert s == init + [last];
    }
  }

  function Members<T(==)>(s: seq<T>): set<T> {
    set x | x in s
  }

  lemma {:induction false} DistinctSize<T>(s: seq<T>)
    requires Distinct(s)
    ensures |Members(s)| == |s|
  {
    if s != [] {
      var init, last := s[..|s| - 1], s[|s| - 1];
      DistinctSize(init);
      assert s == init + [last];
      assert Members(s) == Members(init) + {last};
    }
  }

  ghost predicate Untied<T(!new)>(s: seq<Placed<T>>, x: Placed<T>) {
    forall p :: p in s && p != x ==> Before(p.rank, x.rank) || Before(x.rank, p.rank)
  }

  /** What stands before an untied member of an arranged list is exactly what ranks before it. */
  lemma {:induction false} BeforeIsEarlier<T(!new)>(s: seq<Placed<T>>, k: nat)
    requires WeaklySorted(s) && Distinct(s) && k < |s| && Untied(s, s[k])
    ensures Members(s[..k]) == set p | p in s && Before(p.rank, s[k].rank)
  {
    forall p
      ensures p in s[..k] <==> p in s && Before(p.rank, s[k].rank)
    {
      if p in s {
        var i :| 0 <= i < |s| && s[i] == p;
        assert i < k ==> s[..k][i] == p;
      }
    }
  }

  /** An untied member has the same place in every arrangement. */
  lemma {:induction false} UntiedKeepsPlace<T(!new)>(s: seq<Placed<T>>, t: seq<Placed<T>>, k: nat)
    requires WeaklySorted(s) && Distinct(s) && WeaklySorted(t) && Distinct(t) && SameMembers(s, t)
    requires k < |s| && Untied(s, s[k])
    ensures k < |t| && t[k] == s[k]
  {
    assert s[k] in t;
    var j :| 0 <= j < |t| && t[j] == s[k];
    BeforeIsEarlier(s, k);
    BeforeIsEarlier(t, j);
    DistinctSize(s[..k]);
    DistinctSize(t[..j]);
    assert Members(s[..k]) == Members(t[..j]);
  }

  lemma {:induction false} ArrangementsAlike<T(!new)>(s: seq<Placed<T>>, t: seq<Placed<T>>)
    requires Distinct(s) && Distinct(t) && SameMembers(s, t)
    ensures |s| == |t|
  {
    DistinctSize(s);
    DistinctSize(t);
    assert Members(s) == Members(t);
  }

  /** When only members of a set stand before its members, they fill the first places. */
  lemma {:induction false} PrefixFilled(items: seq<nat>, ahead: set<nat>, i: nat)
    requires Distinct(items) && ahead <= Members(items) && i < |items|
    requires forall j, k :: 0 <= j < k < |items| && items[k] in ahead ==> items[j] in ahead
    ensures items[i] in ahead <==> i < |ahead|
  {
    if items[i] in ahead {
      DistinctSize(items[..i + 1]);
      SubsetSize(Members(items[..i + 1]), ahead);
    } else {
      DistinctSize(items[..i]);
      forall id | id in ahead
        ensures id in items[..i]
      {
        assert id in Members(items);
        var j :| 0 <= j < |items| && items[j] == id;
        assert items[..i][j] == id;
      }
      SubsetSize(ahead, Members(items[..i]));
    }
  }

  // ---- When the map's order shows ----

  /** The result does not depend on the order the map gives its entries in. */
  ghost predicate Determined(q: Query, topN: nat) {
    forall v, w :: Walks(q, v) && Walks(q, w) ==> Outcome(q, v, topN) == Outcome(q, w, topN)
  }

  ghost predicate Tied(q: Query, a: nat, b: nat) {
    a != b && RankOf(q, a) == RankOf(q, b)
  }

  ghost predicate TopUntied(q: Query, top: seq<Placed<nat>>) {
    forall i, id :: 0 <= i < |top| && id in Candidates(q) ==> !Tied(q, top[i].item, id)
  }

  lemma {:induction false} PlacesHold(q: Query, walk: seq<nat>)
    requires Walks(q, walk)
    ensures Distinct(Places(q, walk))
    ensures forall p :: p in Places(q, walk) <==> p.item in Candidates(q) && p == Place(q, p.item)
  {
    forall p: Placed<nat> | p.item in Candidates(q) && p == Place(q, p.item)
      ensures p in Places(q, walk)
    {
      assert p.item in Ids(walk);
      var i :| 0 <= i < |walk| && walk[i] == p.item;
      assert Places(q, walk)[i] == p;
    }
    forall p | p in Places(q, walk)
      ensures p.item in Candidates(q) && p == Place(q, p.item)
    {
      var i :| 0 <= i < |walk| && Places(q, walk)[i] == p;
      assert walk[i] in Ids(walk);
    }
    forall i, j | 0 <= i < j < |walk|
      ensures Places(q, walk)[i] != Places(q, walk)[j]
    {
      assert Places(q, walk)[i].item == walk[i] && Places(q, walk)[j].item == walk[j];
    }
  }

  ghost predicate IsRanking(q: Query, s: seq<Placed<nat>>) {
    && WeaklySorted(s) && Distinct(s)
    && (forall p :: p in s <==> p.item in Candidates(q) && p == Place(q, p.item))
  }

  /** Whatever the map's order, every candidate is ranked once, by score and then full-text rank. */
  lemma {:induction false} EveryWalkRanks(q: Query, walk: seq<nat>)
    requires Walks(q, walk)
    ensures IsRanking(q, Sort(Places(q, walk)))
  {
    PlacesHold(q, walk);
    SortArranges(Places(q, walk));
  }

  lemma {:induction false} RankingsItems(q: Query, s: seq<Placed<nat>>)
    requires IsRanking(q, s)
    ensures forall i :: 0 <= i < |s| ==> s[i] == Place(q, s[i].item) && s[i].item in Candidates(q)
    ensures forall i, j :: 0 <= i < j < |s| ==> s[i].item != s[j].item
  {
    forall i | 0 <= i < |s|
      ensures s[i] == Place(q, s[i].item) && s[i].item in Candidates(q)
    {
      assert s[i] in s;
    }
  }

  lemma {:induction false} UntiedTopIsFixed(q: Query, s: seq<Placed<nat>>, t: seq<Placed<nat>>, topN: nat)
    requires IsRanking(q, s) && IsRanking(q, t) && TopUntied(q, First(s, topN))
    ensures First(s, topN) == First(t, topN)
  {
    ArrangementsAlike(s, t);
    RankingsItems(q, s);
    forall k | 0 <= k < |First(s, topN)|
      ensures s[k] == t[k]
    {
      assert s[k] in s && First(s, topN)[k] == s[k];
      forall p | p in s && p != s[k]
        ensures Before(p.rank, s[k].rank) || Before(s[k].rank, p.rank)
      {
        assert !Tied(q, s[k].item, p.item);
      }
      UntiedKeepsPlace(s, t, k);
    }
  }

  function Exchange(a: nat, b: nat, id: nat): nat {
    if id == a then b else if id == b then a else id
  }

  function Renamed(a: nat, b: nat, x: Placed<nat>): Placed<nat> {
    x.(item := Exchange(a, b, x.item))
  }

  function AllRenamed(a: nat, b: nat, s: seq<Placed<nat>>): seq<Placed<nat>> {
    seq(|s|, i requires 0 <= i < |s| => Renamed(a, b, s[i]))
  }

  lemma {:induction false} InsertRenamed(a: nat, b: nat, x: Placed<nat>, s: seq<Placed<nat>>)
    ensures Insert(Renamed(a, b, x), AllRenamed(a, b, s)) == AllRenamed(a, b, Insert(x, s))
  {
    if s != [] {
      InsertRenamed(a, b, x, s[..|s| - 1]);
      assert AllRenamed(a, b, s)[..|s| - 1] == AllRenamed(a, b, s[..|s| - 1]);
    }
  }

  /** Sorting looks at ranks only. */
  lemma {:induction false} SortRenamed(a: nat, b: nat, s: seq<Placed<nat>>)
    ensures Sort(AllRenamed(a, b, s)) == AllRenamed(a, b, Sort(s))
  {
    if s != [] {
      var init, last := s[..|s| - 1], s[|s| - 1];
      SortRenamed(a, b, init);
      assert AllRenamed(a, b, s)[..|s| - 1] == AllRenamed(a, b, init);
      InsertRenamed(a, b, last, Sort(init));
    }
  }

  function Exchanged(a: nat, b: nat, walk: seq<nat>): seq<nat> {
    seq(|walk|, i requires 0 <= i < |walk| => Exchange(a, b, walk[i]))
  }

  lemma {:induction false} ExchangedWalks(q: Query, a: nat, b: nat, walk: seq<nat>)
    requires Walks(q, walk) && a in Candidates(q) && b in Candidates(q)
    ensures Walks(q, Exchanged(a, b, walk))
  {
    var other := Exchanged(a, b, walk);
    forall id
      ensures id in Ids(other) <==> id in Candidates(q)
    {
      if id in Ids(other) {
        var i :| 0 <= i < |other| && other[i] == id;
        assert walk[i] in Ids(walk);
      }
      if id in Candidates(q) {
        assert Exchange(a, b, id) in Ids(walk);
        var i :| 0 <= i < |walk| && walk[i] == Exchange(a, b, id);
        assert other[i] == id;
      }
    }
  }

  /** Two tied candidates exchanged in the map's order are exchanged in the result. */
  lemma {:induction false} TieShows(q: Query, a: nat, b: nat, walk: seq<nat>, topN: nat)
    requires Walks(q, walk) && a in Candidates(q) && b in Candidates(q) && Tied(q, a, b)
    ensures Top(q, Exchanged(a, b, walk), topN) == AllRenamed(a, b, Top(q, walk, topN))
  {
    var s := Places(q, walk);
    assert Places(q, Exchanged(a, b, walk)) == AllRenamed(a, b, s);
    SortRenamed(a, b, s);
  }

  /** Main result: the map's order stays invisible exactly when nothing in the result ties with another candidate. */
  lemma {:induction false} DeterminedIffUntied(q: Query, walk: seq<nat>, topN: nat)
    requires Walks(q, walk)
    ensures Determined(q, topN) <==> TopUntied(q, Top(q, walk, topN))
  {
    var top := Top(q, walk, topN);
    EveryWalkRanks(q, walk);
    if TopUntied(q, top) {
      forall v | Walks(q, v)
        ensures Outcome(q, v, topN) == Outcome(q, walk, topN)
      {
        EveryWalkRanks(q, v);
        UntiedTopIsFixed(q, Sort(Places(q, walk)), Sort(Places(q, v)), topN);
      }
    } else {
      var i: nat, b: nat :| i < |top| && b in Candidates(q) && Tied(q, top[i].item, b);
      var a := top[i].item;
      RankingsItems(q, Sort(Places(q, walk)));
      ExchangedWalks(q, a, b, walk);
      TieShows(q, a, b, walk, topN);
      assert Outcome(q, walk, topN)[i].id == a;
      assert Outcome(q, Exchanged(a, b, walk), topN)[i].id == b;
    }
  }

  function ItemsOf(s: seq<Placed<nat>>): seq<nat> {
    seq(|s|, i requires 0 <= i < |s| => s[i].item)
  }

  lemma {:induction false} RankingHolds(q: Query, s: seq<Placed<nat>>)
    requires IsRanking(q, s)
    ensures Distinct(ItemsOf(s)) && Members(ItemsOf(s)) == Candidates(q)
  {
    RankingsItems(q, s);
    var items := ItemsOf(s);
    forall id
      ensures id in items <==> id in Candidates(q)
    {
      if id in Candidates(q) {
        assert Place(q, id) in s;
        var i :| 0 <= i < |s| && s[i] == Place(q, id);
        assert items[i] == id;
      }
    }
  }

  /** The candidates that rank before `a`, whatever the map's order. */
  function Better(q: Query, a: nat): set<nat> {
    set id | id in Candidates(q) && Before(RankOf(q, id), RankOf(q, a))
  }

  /** No tie reaches the result: as many candidates rank before it as there is room for. */
  ghost predicate TiesCutOff(q: Query, topN: nat) {
    forall a, b :: a in Candidates(q) && b in Candidates(q) && Tied(q, a, b) ==> topN <= |Better(q, a)|
  }

  /** The candidates better than one of them fill the first places. */
  lemma {:induction false} BetterComeFirst(q: Query, s: seq<Placed<nat>>, a: nat, i: nat)
    requires IsRanking(q, s) && i < |s|
    ensures s[i].item in Better(q, a) <==> i < |Better(q, a)|
  {
    RankingsItems(q, s);
    RankingHolds(q, s);
    var items := ItemsOf(s);
    forall j, k | 0 <= j < k < |items| && items[k] in Better(q, a)
      ensures items[j] in Better(q, a)
    {
      assert !Before(s[k].rank, s[j].rank);
    }
    PrefixFilled(items, Better(q, a), i);
  }

  /** Behind the better ones comes something that ranks as `a` does. */
  lemma {:induction false} EqualsComeNext(q: Query, s: seq<Placed<nat>>, a: nat)
    requires IsRanking(q, s) && a in Candidates(q)
    ensures |Better(q, a)| < |s| && RankOf(q, s[|Better(q, a)|].item) == RankOf(q, a)
    ensures s[|Better(q, a)|].item in Candidates(q)
  {
    RankingsItems(q, s);
    assert Place(q, a) in s;
    var p :| 0 <= p < |s| && s[p] == Place(q, a);
    BetterComeFirst(q, s, a, p);
    BetterComeFirst(q, s, a, |Better(q, a)|);
  }

  lemma {:induction false} TopTies(q: Query, s: seq<Placed<nat>>, topN: nat)
    requires IsRanking(q, s)
    ensures TopUntied(q, First(s, topN)) <==> TiesCutOff(q, topN)
  {
    var top := First(s, topN);
    RankingsItems(q, s);
    if TiesCutOff(q, topN) {
      forall i: nat, id: nat | i < |top| && id in Candidates(q)
        ensures !Tied(q, top[i].item, id)
      {
        BetterComeFirst(q, s, top[i].item, i);
      }
    } else {
      var a: nat, b: nat :| a in Candidates(q) && b in Candidates(q) && Tied(q, a, b) && topN > |Better(q, a)|;
      EqualsComeNext(q, s, a);
      var c := top[|Better(q, a)|].item;
      assert Tied(q, c, if c == a then b else a);
    }
  }

  /** Main result: for all lists, weights and roundings, exactly when the map's order cannot change the result. */
  lemma {:induction false} FusionIsDeterministic(q: Query, topN: nat)
    ensures Determined(q, topN) <==> TiesCutOff(q, topN)
  {
    var walk := Ascending(Candidates(q));
    AscendingDistinct(Candidates(q));
    assert Ids(walk) == Candidates(q);
    EveryWalkRanks(q, walk);
    DeterminedIffUntied(q, walk, topN);
    TopTies(q, Sort(Places(q, walk)), topN);
  }

  // ---- Lists that name an entry once ----

  /** What the two retrievers give: each entry at most once, and ranks below the stand-in for a missing one. */
  ghost predicate RankedOnce(q: Query) {
    Distinct(q.fulltext) && Distinct(q.semantic) && |q.fulltext| < U32_MAX
  }

  function SemanticOnly(q: Query): set<nat> {
    Ids(q.semantic) - Ids(q.fulltext)
  }

  lemma {:induction false} FirstRankPoints(ids: seq<nat>, id: nat)
    ensures FirstRank(ids, id).Some? <==> id in ids
    ensures id in ids ==> var r := FirstRank(ids, id).value; 1 <= r <= |ids| && ids[r - 1] == id
  {
    if ids != [] {
      FirstRankPoints(ids[..|ids| - 1], id);
      assert ids == ids[..|ids| - 1] + [ids[|ids| - 1]];
    }
  }

  /** An entry listed once gets the portion of its rank, one not listed gets nothing. */
  lemma {:induction false} SummedIsPortion(r: Rounding, start: real, ids: seq<nat>, weight: real, id: nat)
    requires Distinct(ids)
    ensures FirstRank(ids, id).Some? <==> id in ids
    ensures Summed(r, start, ids, weight, id) == if id in ids then r.sum(start + Portion(r, weight, FirstRank(ids, id).value)) else start
  {
    FirstRankPoints(ids, id);
    if ids != [] {
      var init, last := ids[..|ids| - 1], ids[|ids| - 1];
      SummedIsPortion(r, start, init, weight, id);
      FirstRankPoints(init, id);
      assert ids == init + [last];
    }
  }

  /** The rounded portion of a rank in the semantic list, when nothing else is added. */
  function Alone(q: Query, rank: nat): real {
    q.rounding.sum(0.0 + Portion(q.rounding, q.semanticWeight, rank))
  }

  lemma {:induction false} SemanticOnlyScore(q: Query, id: nat)
    requires RankedOnce(q) && id in SemanticOnly(q)
    ensures FirstRank(q.semantic, id).Some? && Score(q, id) == Alone(q, FirstRank(q.semantic, id).value)
  {
    SummedIsPortion(q.rounding, 0.0, q.fulltext, q.fulltextWeight, id);
    SummedIsPortion(q.rounding, 0.0, q.semantic, q.semanticWeight, id);
  }

  /** The full-text list decides every tie: whatever the rounding, only entries it lacks, with equal portions, stay tied. */
  lemma {:induction false} TiesExactly(q: Query, a: nat, b: nat)
    requires RankedOnce(q) && a in Candidates(q) && b in Candidates(q) && a != b
    ensures Tied(q, a, b) <==>
      && a in SemanticOnly(q) && b in SemanticOnly(q) && FirstRank(q.semantic, a).Some? && FirstRank(q.semantic, b).Some?
      && Alone(q, FirstRank(q.semantic, a).value) == Alone(q, FirstRank(q.semantic, b).value)
  {
    FirstRankPoints(q.fulltext, a);
    FirstRankPoints(q.fulltext, b);
    if a in SemanticOnly(q) && b in SemanticOnly(q) {
      SemanticOnlyScore(q, a);
      SemanticOnlyScore(q, b);
    } else {
      assert FulltextRank(q, a) != FulltextRank(q, b);
    }
  }

  // ---- A rounding that is monotone ----

  ghost predicate Monotone(f: real -> real) {
    forall x, y :: x <= y ==> f(x) <= f(y)
  }

  lemma {:induction false} QuotientSign(weight: real, x: real)
    requires x > 0.0
    ensures weight >= 0.0 <==> weight / x >= 0.0
  {
    assert (weight / x) * x == weight;
    if weight / x < 0.0 {
      assert -(weight / x) * x > 0.0;
    }
  }

  lemma {:induction false} QuotientsFall(weight: real, x: real, y: real)
    requires weight >= 0.0 && 0.0 < x <= y
    ensures weight / y <= weight / x
  {
    var p, r := weight / x, weight / y;
    assert p * x == weight && r * y == weight;
    QuotientSign(weight, y);
    assert (p - r) * x == r * (y - x) >= 0.0;
    assert p - r == (p - r) * x / x;
    QuotientSign((p - r) * x, x);
  }

  /** Entries outside the full-text list never score better than those before them in the semantic list. */
  lemma {:induction false} SemanticScoresFall(q: Query, j: nat, k: nat)
    requires Monotone(q.rounding.cast) && Monotone(q.rounding.sum) && q.semanticWeight >= 0.0 && j <= k
    ensures Alone(q, k) <= Alone(q, j)
  {
    QuotientsFall(q.semanticWeight, 60.0 + j as real, 60.0 + k as real);
  }

  /** Under a monotone rounding ties are runs: whoever stands between two tied entries in the semantic list ties with both. */
  lemma {:induction false} TiesAreRuns(q: Query, a: nat, b: nat, c: nat)
    requires RankedOnce(q) && Monotone(q.rounding.cast) && Monotone(q.rounding.sum) && q.semanticWeight >= 0.0
    requires {a, b, c} <= SemanticOnly(q) && Tied(q, a, b) && c != a
    requires FirstRank(q.semantic, a).Some? && FirstRank(q.semantic, b).Some? && FirstRank(q.semantic, c).Some?
    requires FirstRank(q.semantic, a).value <= FirstRank(q.semantic, c).value <= FirstRank(q.semantic, b).value
    ensures Tied(q, a, c)
  {
    TiesExactly(q, a, b);
    TiesExactly(q, a, c);
    SemanticScoresFall(q, FirstRank(q.semantic, a).value, FirstRank(q.semantic, c).value);
    SemanticScoresFall(q, FirstRank(q.semantic, c).value, FirstRank(q.semantic, b).value);
  }

  // ---- Exact arithmetic ----

  ghost predicate Unrounded(r: Rounding) {
    forall x :: r.cast(x) == x && r.sum(x) == x
  }

  lemma {:induction false} QuotientsDiffer(weight: real, x: real, y: real)
    requires x > 0.0 && y > 0.0 && x != y
    ensures weight / x == weight / y <==> weight == 0.0
  {
    assert (weight / x) * x == weight && (weight / y) * y == weight;
    if weight / x == weight / y {
      assert (weight / x) * (x - y) == 0.0;
    }
  }

  /** Unrounded, entries tie exactly when both are outside the full-text list and the semantic weight is zero. */
  lemma {:induction false} UnroundedTies(q: Query, a: nat, b: nat)
    requires RankedOnce(q) && Unrounded(q.rounding) && a in Candidates(q) && b in Candidates(q) && a != b
    ensures Tied(q, a, b) <==> a in SemanticOnly(q) && b in SemanticOnly(q) && q.semanticWeight == 0.0
  {
    TiesExactly(q, a, b);
    FirstRankPoints(q.semantic, a);
    FirstRankPoints(q.semantic, b);
    if a in SemanticOnly(q) && b in SemanticOnly(q) {
      QuotientsDiffer(q.semanticWeight, 60.0 + FirstRank(q.semantic, a).value as real, 60.0 + FirstRank(q.semantic, b).value as real);
    }
  }

  /** With semantic weight zero the sign of the other weight says which kind of entry ranks first. */
  lemma {:induction false} KindsSeparate(q: Query, listed: nat, only: nat)
    requires RankedOnce(q) && Unrounded(q.rounding) && q.semanticWeight == 0.0 && listed in q.fulltext && only in SemanticOnly(q)
    ensures Before(RankOf(q, listed), RankOf(q, only)) <==> q.fulltextWeight >= 0.0
  {
    SummedIsPortion(q.rounding, 0.0, q.fulltext, q.fulltextWeight, listed);
    SummedIsPortion(q.rounding, FulltextScore(q, listed), q.semantic, 0.0, listed);
    SemanticOnlyScore(q, only);
    FirstRankPoints(q.fulltext, listed);
    FirstRankPoints(q.fulltext, only);
    QuotientSign(q.fulltextWeight, 60.0 + FirstRank(q.fulltext, listed).value as real);
  }

  /** The first place an entry outside the full-text list can take under semantic weight zero. */
  function SemanticOnlyFrom(q: Query): nat {
    if q.fulltextWeight >= 0.0 then |q.fulltext| else 0
  }

  predicate OrderCannotShow(q: Query, topN: nat) {
    q.semanticWeight != 0.0 || |SemanticOnly(q)| <= 1 || topN <= SemanticOnlyFrom(q)
  }

  lemma {:induction false} BetterThanUnlisted(q: Query, only: nat)
    requires RankedOnce(q) && Unrounded(q.rounding) && q.semanticWeight == 0.0 && only in SemanticOnly(q)
    ensures |Better(q, only)| == SemanticOnlyFrom(q)
  {
    forall id | id in Candidates(q)
      ensures id in Better(q, only) <==> id in q.fulltext && q.fulltextWeight >= 0.0
    {
      if id in q.fulltext {
        KindsSeparate(q, id, only);
      } else if id != only {
        UnroundedTies(q, id, only);
      }
    }
    DistinctSize(q.fulltext);
    assert Better(q, only) == if q.fulltextWeight >= 0.0 then Members(q.fulltext) else {};
  }

  lemma {:induction false} TieIsCutOff(q: Query, topN: nat, a: nat, b: nat)
    requires RankedOnce(q) && Unrounded(q.rounding) && OrderCannotShow(q, topN)
    requires a in Candidates(q) && b in Candidates(q) && Tied(q, a, b)
    ensures topN <= |Better(q, a)|
  {
    UnroundedTies(q, a, b);
    BetterThanUnlisted(q, a);
    assert {a, b} <= SemanticOnly(q);
    SubsetSize({a, b}, SemanticOnly(q));
  }

  /** Without rounding the map's order stays invisible exactly under a condition on weights and sizes. */
  lemma {:induction false} UnroundedFusion(q: Query, topN: nat)
    requires RankedOnce(q) && Unrounded(q.rounding)
    ensures Determined(q, topN) <==> OrderCannotShow(q, topN)
  {
    FusionIsDeterministic(q, topN);
    if OrderCannotShow(q, topN) {
      forall a: nat, b: nat | a in Candidates(q) && b in Candidates(q) && Tied(q, a, b)
        ensures topN <= |Better(q, a)|
      {
        TieIsCutOff(q, topN, a, b);
      }
    } else {
      var a, b := TwoOf(SemanticOnly(q));
      UnroundedTies(q, a, b);
      BetterThanUnlisted(q, a);
    }
  }

  lemma {:induction false} TwoOf(s: set<nat>) returns (a: nat, b: nat)
    requires |s| > 1
    ensures a in s && b in s && a != b
  {
    a :| a in s;
    var rest := s - {a};
    assert |rest| >= 1;
    b :| b in rest;
  }

  /** Two entries only the semantic list holds, its weight zero, room for one: no rounding can part them. */
  lemma {:induction false} ZeroWeightShowsOrder(r: Rounding)
    ensures var q := Query([], [1, 2], 1.0, 0.0, r); RankedOnce(q) && !Determined(q, 1)
  {
    var q := Query([], [1, 2], 1.0, 0.0, r);
    FirstRankPoints(q.semantic, 1);
    FirstRankPoints(q.semantic, 2);
    TiesExactly(q, 1, 2);
    FusionIsDeterministic(q, 1);
    TiedBetter(q, 1, 2);
  }

  lemma {:induction false} TiedBetter(q: Query, a: nat, b: nat)
    requires Candidates(q) == {a, b} && Tied(q, a, b)
    ensures Better(q, a) == {}
  {
  }

  // ---- The fusion's loops ----

  ghost predicate Possible(q: Query, topN: nat, out: seq<Scored>) {
    exists walk :: Walks(q, walk) && out == Outcome(q, walk, topN)
  }

  ghost predicate Accumulated(fusion: map<nat, real>, q: Query) {
    fusion.Keys == Candidates(q) && forall id :: id in fusion ==> fusion[id] == Score(q, id)
  }

  ghost predicate RanksKept(ranks: map<nat, nat>, ids: seq<nat>) {
    && ranks.Keys == Ids(ids)
    && forall id :: id in ranks ==> FirstRank(ids, id).Some? && ranks[id] == FirstRank(ids, id).value % U32_LIMIT
  }

  function Plus(r: Rounding, m: map<nat, real>, id: nat, portion: real): map<nat, real> {
    m[id := r.sum((if id in m then m[id] else 0.0) + portion)]
  }

  lemma {:induction false} SummedOfAbsent(r: Rounding, start: real, ids: seq<nat>, weight: real, id: nat)
    requires id !in ids
    ensures Summed(r, start, ids, weight, id) == start
  {
    if ids != [] {
      SummedOfAbsent(r, start, ids[..|ids| - 1], weight, id);
    }
  }

  lemma {:induction false} SummedPush(r: Rounding, start: real, ids: seq<nat>, last: nat, weight: real, id: nat)
    ensures Summed(r, start, ids + [last], weight, id) ==
      var before := Summed(r, start, ids, weight, id);
      if last == id then r.sum(before + Portion(r, weight, |ids| + 1)) else before
  {
    assert (ids + [last])[..|ids|] == ids;
  }

  lemma {:induction false} NewcomerScoresNothing(fusion: map<nat, real>, q: Query, id: nat)
    requires Accumulated(fusion, q)
    ensures (if id in fusion then fusion[id] else 0.0) == Score(q, id)
  {
    if id !in fusion {
      assert id !in Ids(q.fulltext) && id !in Ids(q.semantic);
      SummedOfAbsent(q.rounding, 0.0, q.fulltext, q.fulltextWeight, id);
      SummedOfAbsent(q.rounding, 0.0, q.semantic, q.semanticWeight, id);
    }
  }

  /** The longer query lists `id` once more, for one more portion. */
  ghost predicate GainsPortion(q: Query, q': Query, id: nat, portion: real) {
    && Candidates(q') == Candidates(q) + {id}
    && forall other :: Score(q', other) == if id == other then q.rounding.sum(Score(q, other) + portion) else Score(q, other)
  }

  lemma {:induction false} PlusAccumulates(fusion: map<nat, real>, q: Query, q': Query, id: nat, portion: real)
    requires Accumulated(fusion, q) && GainsPortion(q, q', id, portion)
    ensures Accumulated(Plus(q.rounding, fusion, id, portion), q')
  {
    NewcomerScoresNothing(fusion, q, id);
  }

  lemma {:induction false} FulltextPush(q: Query, id: nat)
    requires q.semantic == []
    ensures GainsPortion(q, q.(fulltext := q.fulltext + [id]), id, Portion(q.rounding, q.fulltextWeight, |q.fulltext| + 1))
  {
    var q' := q.(fulltext := q.fulltext + [id]);
    forall other
      ensures Score(q', other) ==
        if id == other then q.rounding.sum(Score(q, other) + Portion(q.rounding, q.fulltextWeight, |q.fulltext| + 1)) else Score(q, other)
    {
      SummedPush(q.rounding, 0.0, q.fulltext, id, q.fulltextWeight, other);
    }
    assert Ids(q'.fulltext) == Ids(q.fulltext) + {id};
  }

  lemma {:induction false} SemanticPush(q: Query, id: nat)
    ensures GainsPortion(q, q.(semantic := q.semantic + [id]), id, Portion(q.rounding, q.semanticWeight, |q.semantic| + 1))
  {
    var q' := q.(semantic := q.semantic + [id]);
    forall other
      ensures Score(q', other) ==
        if id == other then q.rounding.sum(Score(q, other) + Portion(q.rounding, q.semanticWeight, |q.semantic| + 1)) else Score(q, other)
    {
      SummedPush(q.rounding, FulltextScore(q, other), q.semantic, id, q.semanticWeight, other);
    }
    assert Ids(q'.semantic) == Ids(q.semantic) + {id};
  }

  function FulltextUpTo(q: Query, i: nat): Query
    requires i <= |q.fulltext|
  {
    q.(fulltext := q.fulltext[..i], semantic := [])
  }

  function SemanticUpTo(q: Query, i: nat): Query
    requires i <= |q.semantic|
  {
    q.(semantic := q.semantic[..i])
  }

  lemma {:induction false} WholePrefixes(q: Query)
    ensures FulltextUpTo(q, |q.fulltext|) == SemanticUpTo(q, 0) && SemanticUpTo(q, |q.semantic|) == q
    ensures q.fulltext[..|q.fulltext|] == q.fulltext
  {
  }

  lemma {:induction false} FulltextStep(fusion: map<nat, real>, q: Query, i: nat)
    requires i < |q.fulltext| && Accumulated(fusion, FulltextUpTo(q, i))
    ensures Accumulated(Plus(q.rounding, fusion, q.fulltext[i], Portion(q.rounding, q.fulltextWeight, i + 1)), FulltextUpTo(q, i + 1))
  {
    assert q.fulltext[..i + 1] == q.fulltext[..i] + [q.fulltext[i]];
    FulltextPush(FulltextUpTo(q, i), q.fulltext[i]);
    PlusAccumulates(fusion, FulltextUpTo(q, i), FulltextUpTo(q, i + 1), q.fulltext[i], Portion(q.rounding, q.fulltextWeight, i + 1));
  }

  lemma {:induction false} SemanticStep(fusion: map<nat, real>, q: Query, i: nat)
    requires i < |q.semantic| && Accumulated(fusion, SemanticUpTo(q, i))
    ensures Accumulated(Plus(q.rounding, fusion, q.semantic[i], Portion(q.rounding, q.semanticWeight, i + 1)), SemanticUpTo(q, i + 1))
  {
    assert q.semantic[..i + 1] == q.semantic[..i] + [q.semantic[i]];
    SemanticPush(SemanticUpTo(q, i), q.semantic[i]);
    PlusAccumulates(fusion, SemanticUpTo(q, i), SemanticUpTo(q, i + 1), q.semantic[i], Portion(q.rounding, q.semanticWeight, i + 1));
  }

  lemma {:induction false} RankStep(ranks: map<nat, nat>, ids: seq<nat>, i: nat)
    requires i < |ids| && RanksKept(ranks, ids[..i])
    ensures RanksKept(if ids[i] in ranks then ranks else ranks[ids[i] := (i + 1) % U32_LIMIT], ids[..i + 1])
  {
    assert ids[..i + 1] == ids[..i] + [ids[i]];
    RankPush(ranks, ids[..i], ids[i]);
  }

  lemma {:induction false} RankPush(ranks: map<nat, nat>, ids: seq<nat>, id: nat)
    requires RanksKept(ranks, ids)
    ensures RanksKept(if id in ranks then ranks else ranks[id := (|ids| + 1) % U32_LIMIT], ids + [id])
  {
    var all := ids + [id];
    assert all[..|ids|] == ids;
    FirstRankPoints(ids, id);
    assert Ids(all) == Ids(ids) + {id};
  }

  /** The loops and the sort: some order of the map, and the outcome of that order. */
  method RrfFuse(q: Query, topN: nat) returns (out: seq<Scored>)
    ensures Possible(q, topN, out)
  {
    if q.fulltext == [] && q.semantic == [] {
      out := [];
      assert Walks(q, []) && out == Outcome(q, [], topN);
      return;
    }
    var fusion: map<nat, real>, ranks: map<nat, nat> := Contributions(q);
    ghost var walk: seq<nat>;
    var places: seq<Placed<nat>>;
    places, walk := WalkMap(q, fusion, ranks);
    var top := First(Sort(places), topN);
    out := [];
    for i := 0 to |top|
      invariant out == Output(top)[..i]
    {
      out := out + [Scored(top[i].item, top[i].rank.primary)];
    }
    assert out == Outcome(q, walk, topN);
  }

  /** `into_iter` on the map: an order nobody chose. */
  method WalkMap(q: Query, fusion: map<nat, real>, ranks: map<nat, nat>) returns (places: seq<Placed<nat>>, ghost walk: seq<nat>)
    requires Accumulated(fusion, q) && RanksKept(ranks, q.fulltext)
    ensures Walks(q, walk) && places == Places(q, walk)
  {
    places, walk := [], [];
    var left := fusion.Keys;
    while left != {}
      invariant Distinct(walk) && left <= fusion.Keys && Ids(walk) == fusion.Keys - left
      invariant places == Places(q, walk)
      decreases |left|
    {
      var id: nat :| id in left;
      var rank := if id in ranks then ranks[id] else U32_MAX;
      KeptRank(q, ranks, id);
      PlacesPush(q, walk, id);
      assert Place(q, id) == Placed(Rank(fusion[id], -(rank as real), 0, 0), id);
      WalkNext(walk, left, fusion.Keys, id);
      places := places + [Placed(Rank(fusion[id], -(rank as real), 0, 0), id)];
      walk := walk + [id];
      left := left - {id};
    }
  }

  lemma {:induction false} PlacesPush(q: Query, walk: seq<nat>, id: nat)
    ensures Places(q, walk + [id]) == Places(q, walk) + [Place(q, id)]
  {
  }

  lemma {:induction false} KeptRank(q: Query, ranks: map<nat, nat>, id: nat)
    requires RanksKept(ranks, q.fulltext)
    ensures FulltextRank(q, id) == if id in ranks then ranks[id] else U32_MAX
  {
    FirstRankPoints(q.fulltext, id);
    assert id in ranks.Keys <==> id in Ids(q.fulltext);
  }

  lemma {:induction false} WalkNext(walk: seq<nat>, left: set<nat>, keys: set<nat>, id: nat)
    requires Distinct(walk) && left <= keys && Ids(walk) == keys - left && id in left
    ensures Distinct(walk + [id]) && Ids(walk + [id]) == keys - (left - {id})
  {
    assert id !in Ids(walk);
    DistinctConcat(walk, [id]);
    assert Ids(walk + [id]) == Ids(walk) + {id};
  }

  method Contributions(q: Query) returns (fusion: map<nat, real>, ranks: map<nat, nat>)
    ensures Accumulated(fusion, q) && RanksKept(ranks, q.fulltext)
  {
    fusion, ranks := map[], map[];
    for i := 0 to |q.fulltext|
      invariant Accumulated(fusion, FulltextUpTo(q, i))
      invariant RanksKept(ranks, q.fulltext[..i])
    {
      var id := q.fulltext[i];
      FulltextStep(fusion, q, i);
      RankStep(ranks, q.fulltext, i);
      fusion := Plus(q.rounding, fusion, id, Portion(q.rounding, q.fulltextWeight, i + 1));
      if id !in ranks {
        ranks := ranks[id := (i + 1) % U32_LIMIT];
      }
    }
    WholePrefixes(q);
    for i := 0 to |q.semantic|
      invariant Accumulated(fusion, SemanticUpTo(q, i))
    {
      SemanticStep(fusion, q, i);
      fusion := Plus(q.rounding, fusion, q.semantic[i], Portion(q.rounding, q.semanticWeight, i + 1));
    }
  }

  lemma {:induction false} RankingTops(q: Query, s: seq<Placed<nat>>, topN: nat)
    requires IsRanking(q, s)
    ensures var out := Output(First(s, topN)); |out| == Min(topN, |Candidates(q)|) && Reports(q, out)
  {
    RankingsItems(q, s);
    RankingHolds(q, s);
    DistinctSize(ItemsOf(s));
  }

  ghost predicate Reports(q: Query, out: seq<Scored>) {
    && (forall i :: 0 <= i < |out| ==> out[i].id in Candidates(q) && out[i].score == Score(q, out[i].id))
    && (forall i, j :: 0 <= i < j < |out| ==> out[i].id != out[j].id && !Before(RankOf(q, out[j].id), RankOf(q, out[i].id)))
  }

  ghost predicate Reported(out: seq<Scored>, id: nat) {
    exists i :: 0 <= i < |out| && out[i].id == id
  }

  lemma {:induction false} CutRanksAfter(q: Query, s: seq<Placed<nat>>, topN: nat, i: nat, id: nat)
    requires IsRanking(q, s) && id in Candidates(q) && i < |First(s, topN)| && !Reported(Output(First(s, topN)), id)
    ensures !Before(RankOf(q, id), RankOf(q, Output(First(s, topN))[i].id))
  {
    RankingsItems(q, s);
    forall k | 0 <= k < |First(s, topN)|
      ensures Reported(Output(First(s, topN)), s[k].item)
    {
      assert Output(First(s, topN))[k].id == s[k].item;
    }
    assert Place(q, id) in s;
    var k :| 0 <= k < |s| && s[k] == Place(q, id);
  }

  /** The entries reported are candidates, each once and in order, with their scores; what the limit cuts ranks before none of them. */
  lemma {:induction false} ResultIsTopN(q: Query, topN: nat, out: seq<Scored>)
    requires Possible(q, topN, out)
    ensures |out| == Min(topN, |Candidates(q)|) && Reports(q, out)
    ensures forall i, id :: 0 <= i < |out| && id in Candidates(q) && !Reported(out, id) ==> !Before(RankOf(q, id), RankOf(q, out[i].id))
  {
    var walk: seq<nat> :| Walks(q, walk) && out == Outcome(q, walk, topN);
    EveryWalkRanks(q, walk);
    var s := Sort(Places(q, walk));
    RankingTops(q, s, topN);
    forall i: nat, id: nat | i < |out| && id in Candidates(q) && !Reported(out, id)
      ensures !Before(RankOf(q, id), RankOf(q, out[i].id))
    {
      CutRanksAfter(q, s, topN, i, id);
    }
  }

  // ---- What a score and a place mean ----

  /** What one list makes of the sum before it: a portion for the entry's position, or nothing for an entry it lacks. */
  ghost predicate Earns(r: Rounding, ids: seq<nat>, weight: real, id: nat, before: real, after: real) {
    if id in ids then exists i :: 0 <= i < |ids| && ids[i] == id && after == r.sum(before + r.cast(weight / (61.0 + i as real)))
    else after == before
  }

  lemma {:induction false} SummedEarns(r: Rounding, start: real, ids: seq<nat>, weight: real, id: nat)
    requires Distinct(ids)
    ensures Earns(r, ids, weight, id, start, Summed(r, start, ids, weight, id))
  {
    SummedIsPortion(r, start, ids, weight, id);
    FirstRankPoints(ids, id);
    if id in ids {
      var i := FirstRank(ids, id).value - 1;
      assert 60.0 + (i + 1) as real == 61.0 + i as real;
      assert ids[i] == id;
    }
  }

  /** Main result: a score is 0, plus the portion of the full-text position, plus the portion of the semantic one. */
  lemma {:induction false} ScoreIsEarned(q: Query, id: nat) returns (fulltext: real)
    requires RankedOnce(q)
    ensures Earns(q.rounding, q.fulltext, q.fulltextWeight, id, 0.0, fulltext)
    ensures Earns(q.rounding, q.semantic, q.semanticWeight, id, fulltext, Score(q, id))
  {
    fulltext := FulltextScore(q, id);
    SummedEarns(q.rounding, 0.0, q.fulltext, q.fulltextWeight, id);
    SummedEarns(q.rounding, fulltext, q.semantic, q.semanticWeight, id);
  }

  /** The full-text list names `a` before `b`, or `a` alone. */
  ghost predicate NamedFirst(ids: seq<nat>, a: nat, b: nat) {
    exists i :: 0 <= i < |ids| && ids[i] == a && b !in ids[..i]
  }

  lemma {:induction false} LowerRankIsNamedFirst(q: Query, a: nat, b: nat)
    requires RankedOnce(q) && a != b
    ensures FulltextRank(q, a) < FulltextRank(q, b) <==> NamedFirst(q.fulltext, a, b)
  {
    FirstRankPoints(q.fulltext, a);
    FirstRankPoints(q.fulltext, b);
    if a in q.fulltext {
      var i := FirstRank(q.fulltext, a).value - 1;
      assert q.fulltext[i] == a;
      assert forall k :: 0 <= k < |q.fulltext| && q.fulltext[k] == a ==> k == i;
      if b in q.fulltext {
        var j := FirstRank(q.fulltext, b).value - 1;
        assert q.fulltext[j] == b;
        assert j < i ==> q.fulltext[..i][j] == b;
        assert forall k :: 0 <= k < |q.fulltext| && q.fulltext[k] == b ==> k == j;
      }
    }
  }

  lemma {:induction false} RanksAfterExactly(q: Query, a: nat, b: nat)
    requires RankedOnce(q) && a != b
    ensures Before(RankOf(q, b), RankOf(q, a)) <==>
      Score(q, b) > Score(q, a) || (Score(q, b) == Score(q, a) && NamedFirst(q.fulltext, b, a))
  {
    LowerRankIsNamedFirst(q, b, a);
  }

  /** Main result: a result never has a lower score than a later or a left out one, nor an equal one when full text names that first. */
  lemma {:induction false} ResultIsOrdered(q: Query, topN: nat, out: seq<Scored>, i: nat, id: nat)
    requires Possible(q, topN, out) && RankedOnce(q) && i < |out|
    requires id in q.fulltext || id in q.semantic
    requires forall j :: 0 <= j <= i ==> out[j].id != id
    ensures Score(q, id) <= out[i].score == Score(q, out[i].id)
    ensures Score(q, id) == out[i].score ==> !NamedFirst(q.fulltext, id, out[i].id)
  {
    ResultIsTopN(q, topN, out);
    assert id in Candidates(q);
    RanksAfterExactly(q, out[i].id, id);
    if Reported(out, id) {
      var k :| 0 <= k < |out| && out[k].id == id;
      assert i < k;
    }
  }

  // ---- One hit per entry ----

  /** A matching block row; ids that do not parse are absent. */
  datatype Row = Row(entry: Option<nat>, block: Option<nat>, kind: nat, text: nat, rank: real)

  datatype Hit = Hit(entry: nat, score: real, matches: nat, blocks: seq<nat>, best: nat, kind: nat, text: nat)

  predicate Readable(row: Row) {
    row.entry.Some? && row.block.Some?
  }

  /** The readable rows of an entry, in order. */
  function Of(rows: seq<Row>, entry: nat): (own: seq<Row>)
    ensures forall i :: 0 <= i < |own| ==> Readable(own[i])
  {
    if rows == [] then []
    else
      var last := rows[|rows| - 1];
      Of(rows[..|rows| - 1], entry) + if Readable(last) && last.entry.value == entry then [last] else []
  }

  function Blocks(rows: seq<Row>): seq<nat>
    requires forall i :: 0 <= i < |rows| ==> Readable(rows[i])
  {
    if rows == [] then []
    else
      assert Readable(rows[|rows| - 1]);
      Blocks(rows[..|rows| - 1]) + [rows[|rows| - 1].block.value]
  }

  lemma {:induction false} BlocksSize(rows: seq<Row>)
    requires forall i :: 0 <= i < |rows| ==> Readable(rows[i])
    ensures |Blocks(rows)| == |rows|
  {
    if rows != [] {
      BlocksSize(rows[..|rows| - 1]);
    }
  }

  /** Entries in order of their first row. */
  function Entries(rows: seq<Row>): seq<nat> {
    if rows == [] then []
    else
      var before, last := Entries(rows[..|rows| - 1]), rows[|rows| - 1];
      if Readable(last) && last.entry.value !in before then before + [last.entry.value] else before
  }

  function Abs(x: real): real {
    if x < 0.0 then -x else x
  }

  /** All of the entry's rows counted, the first ones listed, the first one shown. */
  function HitOf(own: seq<Row>, entry: nat): Hit
    requires own != [] && forall i :: 0 <= i < |own| ==> Readable(own[i])
  {
    Hit(entry, Abs(own[0].rank), |own|, First(Blocks(own), IDS_CAP), own[0].block.value, own[0].kind, own[0].text)
  }

  lemma {:induction false} EntriesExactly(rows: seq<Row>)
    ensures Distinct(Entries(rows))
    ensures forall e :: e in Entries(rows) <==> Of(rows, e) != []
  {
    if rows != [] {
      EntriesExactly(rows[..|rows| - 1]);
    }
  }

  function Hits(rows: seq<Row>): seq<Hit> {
    EntriesExactly(rows);
    var entries := Entries(rows);
    seq(|entries|, i requires 0 <= i < |entries| => assert entries[i] in entries; HitOf(Of(rows, entries[i]), entries[i]))
  }

  function Readables(rows: seq<Row>): nat {
    if rows == [] then 0
    else
      Readables(rows[..|rows| - 1]) + if Readable(rows[|rows| - 1]) then 1 else 0
  }

  function MatchesOf(rows: seq<Row>, entries: seq<nat>): nat {
    if entries == [] then 0
    else
      MatchesOf(rows, entries[..|entries| - 1]) + |Of(rows, entries[|entries| - 1])|
  }

  lemma {:induction false} MatchesPush(rows: seq<Row>, entries: seq<nat>)
    requires rows != [] && Distinct(entries)
    ensures var last := rows[|rows| - 1];
      MatchesOf(rows, entries) == MatchesOf(rows[..|rows| - 1], entries) +
                                  if Readable(last) && last.entry.value in entries then 1 else 0
  {
    if entries != [] {
      var init := entries[..|entries| - 1];
      MatchesPush(rows, init);
      assert entries == init + [entries[|entries| - 1]];
    }
  }

  /** Main result: every readable row is counted in exactly one entry's hit, however many a limit lets through. */
  lemma {:induction false} EveryRowIsCounted(rows: seq<Row>)
    ensures MatchesOf(rows, Entries(rows)) == Readables(rows)
    ensures forall i :: 0 <= i < |Hits(rows)| ==> Hits(rows)[i].matches == |Of(rows, Entries(rows)[i])|
  {
    if rows != [] {
      var init, last := rows[..|rows| - 1], rows[|rows| - 1];
      EveryRowIsCounted(init);
      EntriesExactly(init);
      EntriesExactly(rows);
      MatchesPush(rows, Entries(init));
      if Readable(last) && last.entry.value !in Entries(init) {
        assert Entries(rows)[..|Entries(init)|] == Entries(init);
        assert Of(init, last.entry.value) == [];
      }
    }
  }

  /** The positions of an entry's readable rows, ascending. */
  ghost predicate OwnRows(rows: seq<Row>, entry: nat, own: seq<nat>) {
    && (forall k :: 0 <= k < |own| ==> own[k] < |rows|)
    && (forall k, l :: 0 <= k < l < |own| ==> own[k] < own[l])
    && (forall i :: 0 <= i < |rows| ==> (i in own <==> rows[i].entry == Some(entry) && rows[i].block.Some?))
  }

  lemma {:induction false} OfPositions(rows: seq<Row>, entry: nat) returns (own: seq<nat>)
    ensures OwnRows(rows, entry, own) && |own| == |Of(rows, entry)|
    ensures forall k :: 0 <= k < |own| ==> Of(rows, entry)[k] == rows[own[k]]
  {
    if rows == [] {
      own := [];
    } else {
      var init, last := rows[..|rows| - 1], rows[|rows| - 1];
      assert rows == init + [last];
      var before := OfPositions(init, entry);
      own := if last.entry == Some(entry) && last.block.Some? then before + [|init|] else before;
      OwnPush(init, last, entry, before, own);
    }
  }

  lemma {:induction false} OwnPush(init: seq<Row>, last: Row, entry: nat, before: seq<nat>, own: seq<nat>)
    requires OwnRows(init, entry, before)
    requires own == if last.entry == Some(entry) && last.block.Some? then before + [|init|] else before
    ensures OwnRows(init + [last], entry, own)
  {
    forall i | 0 <= i < |init + [last]|
      ensures i in own <==> (init + [last])[i].entry == Some(entry) && (init + [last])[i].block.Some?
    {
    }
  }

  lemma {:induction false} BlocksAre(own: seq<Row>)
    requires forall i :: 0 <= i < |own| ==> Readable(own[i])
    ensures |Blocks(own)| == |own| && forall k :: 0 <= k < |own| ==> own[k].block == Some(Blocks(own)[k])
  {
    if own != [] {
      BlocksAre(own[..|own| - 1]);
    }
  }

  /** All of the rows counted, at most 64 listed in order, the first shown, and its rank's magnitude as the score. */
  ghost predicate Sums(hit: Hit, rows: seq<Row>, own: seq<nat>)
    requires forall k :: 0 <= k < |own| ==> own[k] < |rows|
  {
    && own != [] && hit.matches == |own| && |hit.blocks| == Min(64, |own|)
    && (forall k :: 0 <= k < |hit.blocks| ==> rows[own[k]].block == Some(hit.blocks[k]))
    && (var first := rows[own[0]];
        && first.block == Some(hit.best) && hit.kind == first.kind && hit.text == first.text
        && hit.score >= 0.0 && (hit.score == first.rank || hit.score == -first.rank))
  }

  /** Main result: a hit sums up exactly the readable rows of its entry. */
  lemma {:induction false} HitSumsItsRows(rows: seq<Row>, h: nat) returns (own: seq<nat>)
    requires h < |Hits(rows)|
    ensures OwnRows(rows, Hits(rows)[h].entry, own) && Sums(Hits(rows)[h], rows, own)
  {
    var e := Entries(rows)[h];
    EntriesExactly(rows);
    assert e in Entries(rows);
    own := OfPositions(rows, e);
    BlocksAre(Of(rows, e));
    assert Of(rows, e)[0] == rows[own[0]];
  }

  lemma {:induction false} RowHasEntry(rows: seq<Row>, i: nat)
    requires i < |rows| && rows[i].entry.Some? && rows[i].block.Some?
    ensures rows[i].entry.value in Entries(rows)
  {
    EntriesExactly(rows);
    var own := OfPositions(rows, rows[i].entry.value);
    assert i in own;
  }

  /** A readable row of the entry stands before the position. */
  ghost predicate Preceded(rows: seq<Row>, entry: nat, i: nat) {
    exists j :: 0 <= j < i && j < |rows| && rows[j].entry == Some(entry) && rows[j].block.Some?
  }

  lemma {:induction false} InPrefix(init: seq<nat>, all: seq<nat>, g: nat)
    requires init <= all && Distinct(all) && g < |all| && all[g] in init
    ensures g < |init|
  {
    var k :| 0 <= k < |init| && init[k] == all[g];
    assert all[k] == init[k];
  }

  lemma {:induction false} EntriesFollowRows(rows: seq<Row>, h: nat, g: nat, i: nat)
    requires h < g < |Entries(rows)| && i < |rows| && rows[i].entry == Some(Entries(rows)[g]) && rows[i].block.Some?
    ensures Preceded(rows, Entries(rows)[h], i)
  {
    var init, last := rows[..|rows| - 1], rows[|rows| - 1];
    assert rows == init + [last];
    EntriesExactly(rows);
    EntriesExactly(init);
    if i < |init| {
      assert init[i] == rows[i];
      RowHasEntry(init, i);
      InPrefix(Entries(init), Entries(rows), g);
      EntriesFollowRows(init, h, g, i);
      var j :| 0 <= j < i && j < |init| && init[j].entry == Some(Entries(init)[h]) && init[j].block.Some?;
      assert rows[j] == init[j];
    } else {
      assert h < |Entries(init)| && Entries(init)[h] == Entries(rows)[h];
      assert Entries(init)[h] in Entries(init);
      var own := OfPositions(init, Entries(init)[h]);
      assert own[0] in own && rows[own[0]] == init[own[0]];
    }
  }

  /** Hits come in the order of their entries' first readable rows, and every entry with one has a hit. */
  lemma {:induction false} HitsFollowRows(rows: seq<Row>, i: nat)
    requires i < |rows| && rows[i].entry.Some? && rows[i].block.Some?
    ensures exists g :: 0 <= g < |Hits(rows)| && Hits(rows)[g].entry == rows[i].entry.value
    ensures forall h, g :: 0 <= h < g < |Hits(rows)| && Hits(rows)[g].entry == rows[i].entry.value ==>
      Preceded(rows, Hits(rows)[h].entry, i)
  {
    RowHasEntry(rows, i);
    EntryHasHit(rows, rows[i].entry.value);
    forall h, g | 0 <= h < g < |Hits(rows)| && Hits(rows)[g].entry == rows[i].entry.value
      ensures Preceded(rows, Hits(rows)[h].entry, i)
    {
      EntriesFollowRows(rows, h, g, i);
    }
  }

  lemma {:induction false} EntryHasHit(rows: seq<Row>, entry: nat)
    requires entry in Entries(rows)
    ensures exists g :: 0 <= g < |Hits(rows)| && Hits(rows)[g].entry == entry
  {
    var g :| 0 <= g < |Entries(rows)| && Entries(rows)[g] == entry;
    assert Hits(rows)[g].entry == entry;
  }

  /** bm25 orders rows by a rank that is at most zero, the best first. */
  ghost predicate BestFirst(rows: seq<Row>) {
    && (forall i :: 0 <= i < |rows| ==> rows[i].rank <= 0.0)
    && forall i, j :: 0 <= i < j < |rows| ==> rows[i].rank <= rows[j].rank
  }

  function FirstRowRank(rows: seq<Row>, entry: nat): real {
    if Of(rows, entry) == [] then 0.0 else Of(rows, entry)[0].rank
  }

  lemma {:induction false} FirstRowBounded(rows: seq<Row>, entry: nat, bound: real)
    requires Of(rows, entry) != [] && forall i :: 0 <= i < |rows| ==> rows[i].rank <= bound
    ensures FirstRowRank(rows, entry) <= bound
  {
    var init := rows[..|rows| - 1];
    if Of(init, entry) != [] {
      FirstRowBounded(init, entry, bound);
    }
  }

  lemma {:induction false} FirstRowStays(init: seq<Row>, last: Row, entry: nat)
    requires Of(init, entry) != []
    ensures Of(init + [last], entry) != [] && FirstRowRank(init + [last], entry) == FirstRowRank(init, entry)
  {
    assert (init + [last])[..|init|] == init;
  }

  lemma {:induction false} FirstRowsAscend(rows: seq<Row>, i: nat, j: nat)
    requires BestFirst(rows) && i < j < |Entries(rows)|
    ensures FirstRowRank(rows, Entries(rows)[i]) <= FirstRowRank(rows, Entries(rows)[j])
  {
    var init, last := rows[..|rows| - 1], rows[|rows| - 1];
    assert rows == init + [last];
    EntriesExactly(init);
    assert Entries(init)[i] in Entries(init);
    FirstRowStays(init, last, Entries(init)[i]);
    if j < |Entries(init)| {
      FirstRowsAscend(init, i, j);
      assert Entries(init)[j] in Entries(init);
      FirstRowStays(init, last, Entries(init)[j]);
    } else {
      FirstRowBounded(init, Entries(init)[i], last.rank);
      assert Of(init, last.entry.value) == [];
    }
  }

  /** Over rows best first, hits come with scores that never rise. */
  lemma {:induction false} HitScoresFall(rows: seq<Row>)
    requires BestFirst(rows)
    ensures forall i, j :: 0 <= i < j < |Hits(rows)| ==> Hits(rows)[i].score >= Hits(rows)[j].score
  {
    EntriesExactly(rows);
    forall i, j | 0 <= i < j < |Hits(rows)|
      ensures Hits(rows)[i].score >= Hits(rows)[j].score
    {
      assert Entries(rows)[i] in Entries(rows) && Entries(rows)[j] in Entries(rows);
      FirstRowsAscend(rows, i, j);
      FirstRowBounded(rows, Entries(rows)[j], 0.0);
    }
  }

  ghost predicate Gathered(order: seq<nat>, hits: map<nat, Hit>, rows: seq<Row>) {
    && order == Entries(rows) && hits.Keys == Ids(order)
    && forall e :: e in hits ==> HitKept(hits, rows, e)
  }

  /** The hit of a new entry, before its row is counted. */
  function Fresh(row: Row): Hit
    requires Readable(row)
  {
    Hit(row.entry.value, Abs(row.rank), 0, [], row.block.value, row.kind, row.text)
  }

  function Count(hit: Hit, block: nat): Hit {
    hit.(matches := hit.matches + 1, blocks := if |hit.blocks| < IDS_CAP then hit.blocks + [block] else hit.blocks)
  }

  function NextHit(hits: map<nat, Hit>, row: Row): Hit
    requires Readable(row)
  {
    Count(if row.entry.value in hits then hits[row.entry.value] else Fresh(row), row.block.value)
  }

  lemma {:induction false} CountPush(own: seq<Row>, row: Row, entry: nat)
    requires forall i :: 0 <= i < |own| ==> Readable(own[i])
    requires Readable(row) && row.entry.value == entry
    ensures HitOf(own + [row], entry) == Count(if own == [] then Fresh(row) else HitOf(own, entry), row.block.value)
  {
    assert (own + [row])[..|own|] == own;
    BlocksSize(own);
  }

  lemma {:induction false} OfPush(rows: seq<Row>, row: Row, e: nat)
    requires Readable(row)
    ensures Of(rows + [row], e) == if row.entry.value == e then Of(rows, e) + [row] else Of(rows, e)
  {
    assert (rows + [row])[..|rows|] == rows;
  }

  lemma {:induction false} EntriesPush(rows: seq<Row>, row: Row)
    requires Readable(row)
    ensures Entries(rows + [row]) == if row.entry.value in Entries(rows) then Entries(rows) else Entries(rows) + [row.entry.value]
  {
    assert (rows + [row])[..|rows|] == rows;
  }

  lemma {:induction false} CountedHit(order: seq<nat>, hits: map<nat, Hit>, rows: seq<Row>, row: Row)
    requires Gathered(order, hits, rows) && Readable(row)
    ensures Of(rows + [row], row.entry.value) != []
    ensures HitOf(Of(rows + [row], row.entry.value), row.entry.value) == NextHit(hits, row)
  {
    var e := row.entry.value;
    EntriesExactly(rows);
    assert e in hits.Keys <==> e in Ids(order);
    OfPush(rows, row, e);
    CountPush(Of(rows, e), row, e);
  }

  ghost predicate HitKept(hits: map<nat, Hit>, rows: seq<Row>, e: nat) {
    e in hits && Of(rows, e) != [] && hits[e] == HitOf(Of(rows, e), e)
  }

  lemma {:induction false} OthersKept(hits: map<nat, Hit>, rows: seq<Row>, row: Row, x: nat, hit: Hit)
    requires HitKept(hits, rows, x) && Readable(row) && x != row.entry.value
    ensures HitKept(hits[row.entry.value := hit], rows + [row], x)
  {
    OfPush(rows, row, x);
  }

  lemma {:induction false} OrderPush(order: seq<nat>, hits: map<nat, Hit>, rows: seq<Row>, row: Row)
    requires Gathered(order, hits, rows) && Readable(row)
    ensures var e := row.entry.value; var order' := if e in hits then order else order + [e];
      order' == Entries(rows + [row]) && hits.Keys + {e} == Ids(order')
  {
    EntriesPush(rows, row);
    assert row.entry.value in hits.Keys <==> row.entry.value in Ids(order);
    assert Ids(order + [row.entry.value]) == Ids(order) + {row.entry.value};
  }

  lemma {:induction false} HitsPush(order: seq<nat>, hits: map<nat, Hit>, rows: seq<Row>, row: Row, x: nat)
    requires Gathered(order, hits, rows) && Readable(row) && x in hits.Keys + {row.entry.value}
    ensures HitKept(hits[row.entry.value := NextHit(hits, row)], rows + [row], x)
  {
    if x == row.entry.value {
      CountedHit(order, hits, rows, row);
    } else {
      OthersKept(hits, rows, row, x, NextHit(hits, row));
    }
  }

  lemma {:induction false} GatherPush(order: seq<nat>, hits: map<nat, Hit>, rows: seq<Row>, row: Row)
    requires Gathered(order, hits, rows) && Readable(row)
    ensures Gathered(if row.entry.value in hits then order else order + [row.entry.value],
                     hits[row.entry.value := NextHit(hits, row)], rows + [row])
  {
    var hits' := hits[row.entry.value := NextHit(hits, row)];
    OrderPush(order, hits, rows, row);
    assert hits'.Keys == hits.Keys + {row.entry.value};
    forall x: nat | x in hits'.Keys
      ensures HitKept(hits', rows + [row], x)
    {
      HitsPush(order, hits, rows, row, x);
    }
  }

  lemma {:induction false} SkipPush(rows: seq<Row>, row: Row)
    requires !Readable(row)
    ensures Entries(rows + [row]) == Entries(rows) && forall e :: Of(rows + [row], e) == Of(rows, e)
  {
    assert (rows + [row])[..|rows|] == rows;
  }

  method DedupeHits(rows: seq<Row>, limit: nat) returns (out: seq<Hit>)
    ensures out == First(Hits(rows), limit)
  {
    var order: seq<nat>, hits: map<nat, Hit> := Gather(rows);
    EntriesExactly(rows);
    GatheredAre(order, hits, rows);
    out := Take(First(order, limit), hits, First(Hits(rows), limit));
  }

  lemma {:induction false} SetTwice(hits: map<nat, Hit>, e: nat, first: Hit, last: Hit)
    ensures hits[e := first][e := last] == hits[e := last]
  {
  }

  method GatherRow(known: seq<nat>, gathered: map<nat, Hit>, row: Row, ghost rows: seq<Row>) returns (order: seq<nat>, hits: map<nat, Hit>)
    requires Gathered(known, gathered, rows)
    ensures Gathered(order, hits, rows + [row])
  {
    order, hits := known, gathered;
    if Readable(row) {
      GatherPush(known, gathered, rows, row);
      var e := row.entry.value;
      if e !in hits {
        order := order + [e];
        hits := hits[e := Fresh(row)];
      }
      hits := hits[e := Count(hits[e], row.block.value)];
      SetTwice(gathered, e, Fresh(row), NextHit(gathered, row));
    } else {
      SkipPush(rows, row);
    }
  }

  method Gather(rows: seq<Row>) returns (order: seq<nat>, hits: map<nat, Hit>)
    ensures Gathered(order, hits, rows)
  {
    order, hits := [], map[];
    for i := 0 to |rows|
      invariant Gathered(order, hits, rows[..i])
    {
      assert rows[..i + 1] == rows[..i] + [rows[i]];
      order, hits := GatherRow(order, hits, rows[i], rows[..i]);
    }
    assert rows[..|rows|] == rows;
  }

  lemma {:induction false} GatheredAre(order: seq<nat>, hits: map<nat, Hit>, rows: seq<Row>)
    requires Gathered(order, hits, rows)
    ensures |order| == |Hits(rows)| && forall k :: 0 <= k < |order| ==> order[k] in hits && hits[order[k]] == Hits(rows)[k]
  {
    forall k | 0 <= k < |order|
      ensures order[k] in hits
    {
      assert order[k] in Ids(order);
    }
  }

  /** Takes hits out of the map in the given order. */
  method Take(order: seq<nat>, gathered: map<nat, Hit>, ghost wanted: seq<Hit>) returns (out: seq<Hit>)
    requires Distinct(order) && |order| == |wanted|
    requires forall k :: 0 <= k < |order| ==> order[k] in gathered && gathered[order[k]] == wanted[k]
    ensures out == wanted
  {
    var hits := gathered;
    out := [];
    for i := 0 to |order|
      invariant out == wanted[..i]
      invariant forall k :: i <= k < |order| ==> order[k] in hits && hits[order[k]] == wanted[k]
    {
      var e := order[i];
      if e in hits {
        out := out + [hits[e]];
        hits := hits - {e};
      }
    }
  }

  /** The full-text side of the fusion: one place per entry. */
  lemma {:induction false} HitsFeedFusion(rows: seq<Row>, limit: nat)
    ensures forall i, j :: 0 <= i < j < |First(Hits(rows), limit)| ==> First(Hits(rows), limit)[i].entry != First(Hits(rows), limit)[j].entry
    ensures |First(Hits(rows), limit)| == Min(limit, |Entries(rows)|)
  {
    EntriesExactly(rows);
  }
}
