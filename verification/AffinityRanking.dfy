/**
 * Ranking learned query associations: threshold, confidence, order, one hit per entry, at most `limit` hits.
 * Scores are reals; the decay of a row's age is an input of the row.
 */
module AffinityRanking {
  import opened Prelude
  import opened Ranking

  /** `affinity_candidates` passes it for "no limit". */
  const USIZE_MAX: nat := 0xFFFF_FFFF_FFFF_FFFF

  datatype Policy = Policy(threshold: real, weight: real, cap: nat, factors: seq<real>)

  datatype Raw = Raw(id: nat, entry: nat, block: Option<nat>, chunk: Option<nat>, similarity: real, count: nat, decay: real)

  datatype Hit = Hit(entry: nat, block: Option<nat>, chunk: Option<nat>, similarity: real, confidence: real, rank: nat, score: real)

  /** What `MemoryPolicy::validate` demands. */
  ghost predicate ValidPolicy(p: Policy) {
    && 0.0 <= p.threshold < 1.0 && 0.0 <= p.weight
    && |p.factors| == p.cap + 1
    && forall i :: 0 <= i < |p.factors| ==> 0.0 <= p.factors[i]
  }

  /** Decay is clamped between the floor, which is positive, and one. */
  ghost predicate Decayed(raws: seq<Raw>) {
    forall i :: 0 <= i < |raws| ==> 0.0 < raws[i].decay <= 1.0
  }

  /** Rows come from a table keyed by affinity id. */
  ghost predicate DistinctIds(raws: seq<Raw>) {
    forall i, j :: 0 <= i < j < |raws| ==> raws[i].id != raws[j].id
  }

  function Clamp(x: real): real {
    if x < 0.0 then 0.0 else if x > 1.0 then 1.0 else x
  }

  function NormalizedSimilarity(p: Policy, similarity: real): real
    requires p.threshold < 1.0
  {
    Clamp((similarity - p.threshold) / (1.0 - p.threshold))
  }

  function Factor(p: Policy, count: nat): real
    requires |p.factors| == p.cap + 1
  {
    p.factors[if count <= p.cap then count else p.cap]
  }

  function Confidence(p: Policy, raw: Raw): real
    requires ValidPolicy(p)
  {
    NormalizedSimilarity(p, raw.similarity) * raw.decay * Factor(p, raw.count)
  }

  function Place(p: Policy, raw: Raw): Placed<Raw>
    requires ValidPolicy(p)
  {
    Placed(Rank(Confidence(p, raw), raw.similarity, raw.entry, raw.id), raw)
  }

  function Eligible(p: Policy, raws: seq<Raw>): seq<Placed<Raw>>
    requires ValidPolicy(p)
  {
    if raws == [] then []
    else
      var raw := raws[|raws| - 1];
      Eligible(p, raws[..|raws| - 1]) + if raw.similarity >= p.threshold then [Place(p, raw)] else []
  }

  predicate Seen(s: seq<Placed<Raw>>, entry: nat) {
    exists i :: 0 <= i < |s| && s[i].item.entry == entry
  }

  /** The first of each entry. */
  function Dedupe(s: seq<Placed<Raw>>): seq<Placed<Raw>> {
    if s == [] then []
    else
      var init, last := s[..|s| - 1], s[|s| - 1];
      Dedupe(init) + if Seen(init, last.item.entry) then [] else [last]
  }

  /** The loop stops when it has `limit` hits; with limit 0 it never does. */
  function Stop<T>(s: seq<T>, limit: nat): seq<T> {
    if limit == 0 then s else First(s, limit)
  }

  function HitAt(p: Policy, c: Placed<Raw>, rank: nat): Hit
  {
    Hit(c.item.entry, c.item.block, c.item.chunk, c.item.similarity, c.rank.primary, rank,
        p.weight * c.rank.primary / (60.0 + rank as real))
  }

  function HitsOf(p: Policy, s: seq<Placed<Raw>>): seq<Hit> {
    seq(|s|, i requires 0 <= i < |s| => HitAt(p, s[i], i + 1))
  }

  function RankAffinities(p: Policy, raws: seq<Raw>, limit: nat): seq<Hit>
    requires ValidPolicy(p)
  {
    HitsOf(p, Stop(Dedupe(Sort(Eligible(p, raws))), limit))
  }

  // ---- Brute force ----

  /** Nothing eligible of the same entry ranks before it. */
  ghost predicate Best(all: seq<Placed<Raw>>, c: Placed<Raw>) {
    c in all && forall d :: d in all && d.item.entry == c.item.entry ==> !Before(d.rank, c.rank)
  }

  ghost function Bests(all: seq<Placed<Raw>>, within: seq<Placed<Raw>>): seq<Placed<Raw>> {
    if within == [] then []
    else Bests(all, within[..|within| - 1]) + if Best(all, within[|within| - 1]) then [within[|within| - 1]] else []
  }

  lemma {:induction false} BestsMembers(all: seq<Placed<Raw>>, within: seq<Placed<Raw>>)
    ensures forall c :: c in Bests(all, within) <==> c in within && Best(all, c)
    ensures DistinctRanks(within) ==> DistinctRanks(Bests(all, within))
  {
    if within != [] {
      var init, last := within[..|within| - 1], within[|within| - 1];
      BestsMembers(all, init);
      assert within == init + [last];
      if DistinctRanks(within) && Best(all, last) {
        forall i | 0 <= i < |Bests(all, init)|
          ensures Bests(all, init)[i].rank != last.rank
        {
          assert Bests(all, init)[i] in init;
        }
      }
    }
  }

  lemma {:induction false} EligibleMembers(p: Policy, raws: seq<Raw>)
    requires ValidPolicy(p)
    ensures forall c :: c in Eligible(p, raws) <==> c.item in raws && c.item.similarity >= p.threshold && c == Place(p, c.item)
    ensures DistinctIds(raws) ==> DistinctRanks(Eligible(p, raws))
  {
    if raws != [] {
      var init, last := raws[..|raws| - 1], raws[|raws| - 1];
      EligibleMembers(p, init);
      assert raws == init + [last];
      if DistinctIds(raws) {
        forall i | 0 <= i < |Eligible(p, init)|
          ensures Eligible(p, init)[i].rank.minor != last.id
        {
          assert Eligible(p, init)[i] in Eligible(p, init);
        }
      }
    }
  }

  lemma {:induction false} DedupeSorted(s: seq<Placed<Raw>>)
    requires StrictlySorted(s)
    ensures StrictlySorted(Dedupe(s)) && forall c :: c in Dedupe(s) ==> c in s
  {
    if s != [] {
      var init, last := s[..|s| - 1], s[|s| - 1];
      DedupeSorted(init);
      forall i | 0 <= i < |Dedupe(init)|
        ensures Before(Dedupe(init)[i].rank, last.rank)
      {
        assert Dedupe(init)[i] in init;
      }
    }
  }

  /** A candidate after all the others is the best of its entry exactly when that entry was not seen before. */
  lemma {:induction false} LastIsBest(init: seq<Placed<Raw>>, last: Placed<Raw>)
    requires StrictlySorted(init + [last])
    ensures Best(init + [last], last) <==> !Seen(init, last.item.entry)
    ensures forall c :: c in init ==> (Best(init + [last], c) <==> Best(init, c))
    ensures last !in init
  {
    var s := init + [last];
    forall c | c in init
      ensures Before(c.rank, last.rank)
    {
      var i :| 0 <= i < |init| && init[i] == c;
      assert s[i] == c && s[|init|] == last;
    }
    if Seen(init, last.item.entry) {
      var i :| 0 <= i < |init| && init[i].item.entry == last.item.entry;
      assert init[i] in s;
    }
  }

  /** Of a sorted list, keeping the first of each entry keeps exactly the best of each. */
  lemma {:induction false} DedupeKeepsBest(s: seq<Placed<Raw>>)
    requires StrictlySorted(s)
    ensures forall c :: c in Dedupe(s) <==> Best(s, c)
  {
    if s != [] {
      var init, last := s[..|s| - 1], s[|s| - 1];
      assert s == init + [last];
      DedupeKeepsBest(init);
      LastIsBest(init, last);
      forall c
        ensures c in Dedupe(s) <==> Best(s, c)
      {
        assert c in s <==> c in init || c == last;
      }
    }
  }

  /** Main result: the hits are the best candidate of each entry, sorted, cut off at the limit. */
  lemma {:induction false} RankingIsBruteForce(p: Policy, raws: seq<Raw>, limit: nat)
    requires ValidPolicy(p) && DistinctIds(raws) && limit > 0
    ensures var all := Eligible(p, raws);
      RankAffinities(p, raws, limit) == HitsOf(p, First(Sort(Bests(all, all)), limit))
  {
    var all := Eligible(p, raws);
    EligibleMembers(p, raws);
    SortSorts(all);
    DedupeSorted(Sort(all));
    DedupeKeepsBest(Sort(all));
    BestsMembers(all, all);
    SortSorts(Bests(all, all));
    forall c
      ensures c in Dedupe(Sort(all)) <==> c in Sort(Bests(all, all))
    {
      assert Best(Sort(all), c) <==> Best(all, c);
    }
    SortedUnique(Dedupe(Sort(all)), Sort(Bests(all, all)));
  }

  /** A limit of 0 is no limit: every entry's best comes back. */
  lemma {:induction false} ZeroLimitKeepsAll(p: Policy, raws: seq<Raw>)
    requires ValidPolicy(p) && DistinctIds(raws)
    ensures var all := Eligible(p, raws); RankAffinities(p, raws, 0) == HitsOf(p, Sort(Bests(all, all)))
  {
    var ranked := Dedupe(Sort(Eligible(p, raws)));
    RankingIsBruteForce(p, raws, |ranked| + 1);
    var all := Eligible(p, raws);
    HitsAreLong(p, ranked, First(Sort(Bests(all, all)), |ranked| + 1));
  }

  lemma {:induction false} HitsAreLong(p: Policy, s: seq<Placed<Raw>>, t: seq<Placed<Raw>>)
    requires HitsOf(p, s) == HitsOf(p, t)
    ensures |s| == |t|
  {
    assert |HitsOf(p, s)| == |s| && |HitsOf(p, t)| == |t|;
  }

  /** And the order rows arrive in does not matter. */
  lemma {:induction false} RankingIgnoresRowOrder(p: Policy, raws: seq<Raw>, raws': seq<Raw>, limit: nat)
    requires ValidPolicy(p) && DistinctIds(raws) && DistinctIds(raws') && forall r :: r in raws <==> r in raws'
    ensures RankAffinities(p, raws, limit) == RankAffinities(p, raws', limit)
  {
    EligibleMembers(p, raws);
    EligibleMembers(p, raws');
    SortDetermined(Eligible(p, raws), Eligible(p, raws'));
  }

  // ---- Ranks and scores ----

  lemma {:induction false} ConfidenceNonNegative(p: Policy, raw: Raw)
    requires ValidPolicy(p) && 0.0 < raw.decay
    ensures 0.0 <= Confidence(p, raw)
  {
    var n := NormalizedSimilarity(p, raw.similarity);
    ProductNonNegative(n, raw.decay);
    ProductNonNegative(n * raw.decay, Factor(p, raw.count));
  }

  lemma {:induction false} ProductNonNegative(a: real, b: real)
    requires 0.0 <= a && 0.0 <= b
    ensures 0.0 <= a * b
  {
  }

  lemma {:induction false} QuotientMonotone(a: real, b: real, c: real, d: real)
    requires 0.0 <= a <= b && 0.0 < d <= c
    ensures a / c <= b / d
  {
    var x, y := a / c, b / d;
    assert x * c == a && y * d == b;
    ProductNonNegative(y, c - d);
    assert y * c == y * d + y * (c - d);
    assert x * c == y * c + (x - y) * c;
    if x > y {
      PositiveProduct(x - y, c);
    }
  }

  lemma {:induction false} PositiveProduct(a: real, b: real)
    requires 0.0 < a && 0.0 < b
    ensures 0.0 < a * b
  {
  }

  lemma {:induction false} ProductMonotone(w: real, a: real, b: real)
    requires 0.0 <= w && a <= b
    ensures w * a <= w * b
  {
    ProductNonNegative(w, b - a);
    assert w * b == w * a + w * (b - a);
  }

  ghost predicate Descending(hits: seq<Hit>) {
    forall i, j :: 0 <= i < j < |hits| ==> hits[i].score >= hits[j].score && hits[i].confidence >= hits[j].confidence
  }

  ghost predicate OnePerEntry(hits: seq<Hit>) {
    forall i, j :: 0 <= i < j < |hits| ==> hits[i].entry != hits[j].entry
  }

  ghost predicate RanksFromOne(hits: seq<Hit>) {
    forall i :: 0 <= i < |hits| ==> hits[i].rank == i + 1
  }

  lemma {:induction false} DedupeOnePerEntry(s: seq<Placed<Raw>>)
    ensures forall c :: c in Dedupe(s) ==> c in s
    ensures OneEach(Dedupe(s))
  {
    if s != [] {
      var init, last := s[..|s| - 1], s[|s| - 1];
      DedupeOnePerEntry(init);
      if !Seen(init, last.item.entry) {
        forall i | 0 <= i < |Dedupe(init)|
          ensures Dedupe(init)[i].item.entry != last.item.entry
        {
          assert Dedupe(init)[i] in init;
          var k :| 0 <= k < |init| && init[k] == Dedupe(init)[i];
        }
      }
    }
  }

  lemma {:induction false} ScoresFall(p: Policy, a: Placed<Raw>, b: Placed<Raw>, i: nat, j: nat)
    requires ValidPolicy(p) && a.rank.primary >= b.rank.primary >= 0.0 && i < j
    ensures HitAt(p, a, i).score >= HitAt(p, b, j).score
  {
    ProductNonNegative(p.weight, b.rank.primary);
    ProductMonotone(p.weight, b.rank.primary, a.rank.primary);
    QuotientMonotone(p.weight * b.rank.primary, p.weight * a.rank.primary, 60.0 + j as real, 60.0 + i as real);
  }

  lemma {:induction false} SortedHitsDescend(p: Policy, s: seq<Placed<Raw>>)
    requires ValidPolicy(p) && StrictlySorted(s) && forall i :: 0 <= i < |s| ==> s[i].rank.primary >= 0.0
    ensures Descending(HitsOf(p, s)) && RanksFromOne(HitsOf(p, s))
  {
    forall i, j | 0 <= i < j < |s|
      ensures HitsOf(p, s)[i].score >= HitsOf(p, s)[j].score && HitsOf(p, s)[i].confidence >= HitsOf(p, s)[j].confidence
    {
      assert Before(s[i].rank, s[j].rank);
      ScoresFall(p, s[i], s[j], i + 1, j + 1);
    }
  }

  lemma {:induction false} ConfidentMembers(p: Policy, raws: seq<Raw>, s: seq<Placed<Raw>>)
    requires ValidPolicy(p) && Decayed(raws) && forall c :: c in s ==> c in Eligible(p, raws)
    ensures forall i :: 0 <= i < |s| ==> s[i].rank.primary >= 0.0
  {
    EligibleMembers(p, raws);
    forall i | 0 <= i < |s|
      ensures s[i].rank.primary >= 0.0
    {
      assert s[i] in s && s[i].item in raws;
      ConfidenceNonNegative(p, s[i].item);
    }
  }

  ghost predicate OneEach(s: seq<Placed<Raw>>) {
    forall i, j :: 0 <= i < j < |s| ==> s[i].item.entry != s[j].item.entry
  }

  lemma {:induction false} StopKeeps(s: seq<Placed<Raw>>, limit: nat)
    requires StrictlySorted(s) && OneEach(s)
    ensures StrictlySorted(Stop(s, limit)) && OneEach(Stop(s, limit))
    ensures forall c :: c in Stop(s, limit) ==> c in s
    ensures limit > 0 ==> |Stop(s, limit)| <= limit
  {
  }

  /** Hits have ranks 1 to n, one per entry, with confidences and scores that never rise. */
  lemma {:induction false} HitsDescend(p: Policy, raws: seq<Raw>, limit: nat)
    requires ValidPolicy(p) && DistinctIds(raws) && Decayed(raws)
    ensures var hits := RankAffinities(p, raws, limit);
      Descending(hits) && OnePerEntry(hits) && RanksFromOne(hits) && (limit > 0 ==> |hits| <= limit)
  {
    var s := PlacedHits(p, raws, limit);
    SortedHitsDescend(p, s);
    OneEachHits(p, s);
  }

  lemma {:induction false} OneEachHits(p: Policy, s: seq<Placed<Raw>>)
    requires OneEach(s)
    ensures OnePerEntry(HitsOf(p, s))
  {
  }

  lemma {:induction false} PlacedHits(p: Policy, raws: seq<Raw>, limit: nat) returns (s: seq<Placed<Raw>>)
    requires ValidPolicy(p) && DistinctIds(raws) && Decayed(raws)
    ensures RankAffinities(p, raws, limit) == HitsOf(p, s) && (limit > 0 ==> |s| <= limit)
    ensures StrictlySorted(s) && OneEach(s) && forall i :: 0 <= i < |s| ==> s[i].rank.primary >= 0.0
  {
    var all := Eligible(p, raws);
    var d := Dedupe(Sort(all));
    s := Stop(d, limit);
    EligibleMembers(p, raws);
    SortSorts(all);
    DedupeSorted(Sort(all));
    DedupeKeepsBest(Sort(all));
    DedupeOnePerEntry(Sort(all));
    StopKeeps(d, limit);
    ConfidentMembers(p, raws, s);
  }

  // ---- What a hit says ----

  /** At or above the threshold: its part above the threshold, never above one, times decay and the factor of its capped count. */
  function Strength(p: Policy, raw: Raw): real
    requires ValidPolicy(p)
  {
    ((if raw.similarity <= 1.0 then raw.similarity else 1.0) - p.threshold) * raw.decay * p.factors[Min(raw.count, p.cap)]
  }

  lemma {:induction false} ConfidenceScales(p: Policy, raw: Raw)
    requires ValidPolicy(p) && raw.similarity >= p.threshold
    ensures Confidence(p, raw) * (1.0 - p.threshold) == Strength(p, raw)
  {
    var width := 1.0 - p.threshold;
    var part := (if raw.similarity <= 1.0 then raw.similarity else 1.0) - p.threshold;
    NormalizedIsPart(p, raw.similarity);
    var n, d, f := NormalizedSimilarity(p, raw.similarity), raw.decay, Factor(p, raw.count);
    Regroup(n, d, f, width);
  }

  lemma {:induction false} Regroup(n: real, d: real, f: real, w: real)
    ensures n * d * f * w == n * w * d * f
  {
    assert n * d * f * w == n * d * (f * w) == n * (d * (f * w));
    assert n * w * d * f == n * w * (d * f) == n * (w * (d * f));
    assert d * (f * w) == d * f * w;
    assert w * (d * f) == d * f * w;
  }

  lemma {:induction false} NormalizedIsPart(p: Policy, similarity: real)
    requires p.threshold < 1.0 && similarity >= p.threshold
    ensures NormalizedSimilarity(p, similarity) * (1.0 - p.threshold) == (if similarity <= 1.0 then similarity else 1.0) - p.threshold
  {
    var w, x := 1.0 - p.threshold, similarity - p.threshold;
    QuotientAgainstOne(x, w);
    assert x / w * w == x;
  }

  lemma {:induction false} QuotientAgainstOne(x: real, w: real)
    requires 0.0 <= x && 0.0 < w
    ensures 0.0 <= x / w && (x <= w ==> x / w <= 1.0) && (x >= w ==> x / w >= 1.0)
  {
    QuotientMonotone(0.0, x, w, w);
    assert 0.0 / w == 0.0 && w / w == 1.0;
    if x <= w {
      QuotientMonotone(x, w, w, w);
    } else {
      QuotientMonotone(w, x, w, w);
    }
  }

  /** Confidence rises with similarity, with decay and with the factor; it is 0 at the threshold, and at most decay times factor. */
  lemma {:induction false} ConfidenceRises(p: Policy, a: Raw, b: Raw)
    requires ValidPolicy(p) && p.threshold <= a.similarity <= b.similarity && 0.0 < a.decay <= b.decay
    requires p.factors[Min(a.count, p.cap)] <= p.factors[Min(b.count, p.cap)]
    ensures Confidence(p, a) <= Confidence(p, b)
    ensures a.similarity == p.threshold ==> Confidence(p, a) == 0.0
    ensures a.similarity >= 1.0 ==> Confidence(p, a) == a.decay * p.factors[Min(a.count, p.cap)]
  {
    NormalizedRises(p, a.similarity, b.similarity);
    ProductsRise(NormalizedSimilarity(p, a.similarity), NormalizedSimilarity(p, b.similarity), a.decay, b.decay, Factor(p, a.count), Factor(p, b.count));
  }

  lemma {:induction false} NormalizedRises(p: Policy, s: real, t: real)
    requires p.threshold < 1.0 && p.threshold <= s <= t
    ensures 0.0 <= NormalizedSimilarity(p, s) <= NormalizedSimilarity(p, t)
    ensures s == p.threshold ==> NormalizedSimilarity(p, s) == 0.0
    ensures s >= 1.0 ==> NormalizedSimilarity(p, s) == 1.0
  {
    var w := 1.0 - p.threshold;
    QuotientMonotone(s - p.threshold, t - p.threshold, w, w);
    QuotientAgainstOne(s - p.threshold, w);
    assert 0.0 / w == 0.0;
  }

  lemma {:induction false} ProductsRise(m: real, n: real, c: real, d: real, f: real, g: real)
    requires 0.0 <= m <= n && 0.0 <= c <= d && 0.0 <= f <= g
    ensures m * c * f <= n * d * g
    ensures m == 0.0 ==> m * c * f == 0.0
    ensures m == 1.0 ==> m * c * f == c * f
  {
    FactorsMonotone(m, n, c, d);
    ProductNonNegative(m, c);
    FactorsMonotone(m * c, n * d, f, g);
  }

  lemma {:induction false} FactorsMonotone(a: real, b: real, c: real, d: real)
    requires 0.0 <= a <= b && 0.0 <= c <= d
    ensures a * c <= b * d
  {
    ProductMonotone(c, a, b);
    ProductMonotone(b, c, d);
  }

  /** Stronger, then more similar, then of the smaller entry, then of the smaller id. */
  ghost predicate Ahead(p: Policy, a: Raw, b: Raw)
    requires ValidPolicy(p)
  {
    Ranks(Strength(p, a), Strength(p, b), a, b)
  }

  ghost predicate Ranks(s: real, t: real, a: Raw, b: Raw) {
    || s > t
    || (s == t && a.similarity > b.similarity)
    || (s == t && a.similarity == b.similarity && a.entry < b.entry)
    || (s == t && a.similarity == b.similarity && a.entry == b.entry && a.id < b.id)
  }

  lemma {:induction false} SameOrder(c: real, d: real, s: real, t: real, a: Raw, b: Raw)
    requires (c > d <==> s > t) && (c == d <==> s == t)
    ensures Before(Rank(c, a.similarity, a.entry, a.id), Rank(d, b.similarity, b.entry, b.id)) <==> Ranks(s, t, a, b)
  {
  }

  lemma {:induction false} ScaledOrder(a: real, b: real, w: real, s: real, t: real)
    requires w > 0.0 && a * w == s && b * w == t
    ensures (a > b <==> s > t) && (a == b <==> s == t)
  {
    if a > b {
      PositiveProduct(a - b, w);
      assert (a - b) * w == a * w - b * w;
    } else if a < b {
      PositiveProduct(b - a, w);
      assert (b - a) * w == b * w - a * w;
    }
  }

  lemma {:induction false} ConfidenceCompares(p: Policy, a: Raw, b: Raw)
    requires ValidPolicy(p) && a.similarity >= p.threshold && b.similarity >= p.threshold
    ensures Confidence(p, a) > Confidence(p, b) <==> Strength(p, a) > Strength(p, b)
    ensures Confidence(p, a) == Confidence(p, b) <==> Strength(p, a) == Strength(p, b)
  {
    ConfidenceScales(p, a);
    ConfidenceScales(p, b);
    ScaledOrder(Confidence(p, a), Confidence(p, b), 1.0 - p.threshold, Strength(p, a), Strength(p, b));
  }

  lemma {:induction false} BeforeIsAhead(p: Policy, a: Raw, b: Raw)
    requires ValidPolicy(p) && a.similarity >= p.threshold && b.similarity >= p.threshold
    ensures Before(Place(p, a).rank, Place(p, b).rank) <==> Ahead(p, a, b)
  {
    ConfidenceCompares(p, a, b);
    SameOrder(Confidence(p, a), Confidence(p, b), Strength(p, a), Strength(p, b), a, b);
  }

  /** The hit of a row, at a rank: the row's own columns, its strength over the threshold's width, and its share of the weight. */
  ghost predicate Tells(p: Policy, hit: Hit, raw: Raw, rank: nat)
    requires ValidPolicy(p)
  {
    && hit.entry == raw.entry && hit.block == raw.block && hit.chunk == raw.chunk && hit.similarity == raw.similarity
    && hit.confidence * (1.0 - p.threshold) == Strength(p, raw)
    && hit.rank == rank && hit.score * (60.0 + rank as real) == p.weight * hit.confidence
  }

  lemma {:induction false} HitTells(p: Policy, raw: Raw, rank: nat)
    requires ValidPolicy(p) && raw.similarity >= p.threshold
    ensures Tells(p, HitAt(p, Place(p, raw), rank), raw, rank)
  {
    ConfidenceScales(p, raw);
  }

  /** Rows at or above the threshold, one per entry, the strongest first. */
  ghost predicate Ordered(p: Policy, raws: seq<Raw>, picked: seq<Raw>)
    requires ValidPolicy(p)
  {
    && (forall i :: 0 <= i < |picked| ==> picked[i] in raws && picked[i].similarity >= p.threshold)
    && (forall i, j :: 0 <= i < j < |picked| ==> picked[i].entry != picked[j].entry && Ahead(p, picked[i], picked[j]))
  }

  /** Why a row has no hit of its own: another of its entry is ahead of it, or the limit is reached by rows ahead of it. */
  ghost predicate Accounted(p: Policy, picked: seq<Raw>, limit: nat, raw: Raw)
    requires ValidPolicy(p)
  {
    || raw in picked
    || (exists i :: 0 <= i < |picked| && picked[i].entry == raw.entry && Ahead(p, picked[i], raw))
    || (0 < limit == |picked| && forall i :: 0 <= i < |picked| ==> Ahead(p, picked[i], raw))
  }

  /** Main result: the hits are those of the strongest row of each entry, in order, and every other row is accounted for. */
  lemma {:induction false} HitsAreStrongest(p: Policy, raws: seq<Raw>, limit: nat) returns (picked: seq<Raw>)
    requires ValidPolicy(p) && DistinctIds(raws)
    ensures var hits := RankAffinities(p, raws, limit);
      |picked| == |hits| && forall i :: 0 <= i < |hits| ==> Tells(p, hits[i], picked[i], i + 1)
    ensures Ordered(p, raws, picked) && (limit > 0 ==> |picked| <= limit)
    ensures forall raw :: raw in raws && raw.similarity >= p.threshold ==> Accounted(p, picked, limit, raw)
  {
    var all := Eligible(p, raws);
    var d := Dedupe(Sort(all));
    var s := Stop(d, limit);
    EligibleMembers(p, raws);
    SortSorts(all);
    DedupeSorted(Sort(all));
    DedupeKeepsBest(Sort(all));
    DedupeOnePerEntry(Sort(all));
    StopKeeps(d, limit);
    picked := Raws(s);
    forall i | 0 <= i < |s|
      ensures Tells(p, HitsOf(p, s)[i], picked[i], i + 1)
    {
      assert s[i] in s && s[i] in all;
      HitTells(p, picked[i], i + 1);
    }
    assert forall c :: c in d ==> c in all;
    assert forall c :: c in s ==> c in all;
    PickedAreOrdered(p, raws, s);
    PlacesOf(p, raws, d);
    forall raw | raw in raws && raw.similarity >= p.threshold
      ensures Accounted(p, picked, limit, raw)
    {
      assert Place(p, raw) in all;
      RowIsAccounted(p, Sort(all), limit, raw);
    }
  }

  ghost function Raws(s: seq<Placed<Raw>>): seq<Raw> {
    seq(|s|, i requires 0 <= i < |s| => s[i].item)
  }

  lemma {:induction false} PickedAreOrdered(p: Policy, raws: seq<Raw>, s: seq<Placed<Raw>>)
    requires ValidPolicy(p) && StrictlySorted(s) && OneEach(s)
    requires forall c :: c in s ==> c.item in raws && c.item.similarity >= p.threshold && c == Place(p, c.item)
    ensures Ordered(p, raws, Raws(s))
  {
    forall i | 0 <= i < |s|
      ensures s[i].item in raws && s[i].item.similarity >= p.threshold && s[i] == Place(p, s[i].item)
    {
      assert s[i] in s;
    }
    forall i, j | 0 <= i < j < |s|
      ensures Ahead(p, s[i].item, s[j].item)
    {
      BeforeIsAhead(p, s[i].item, s[j].item);
    }
  }

  lemma {:induction false} SeenEarlier(init: seq<Placed<Raw>>, last: Placed<Raw>) returns (c: Placed<Raw>)
    requires StrictlySorted(init + [last]) && Seen(init, last.item.entry)
    ensures c in init && c.item.entry == last.item.entry && Before(c.rank, last.rank)
  {
    var i :| 0 <= i < |init| && init[i].item.entry == last.item.entry;
    var s := init + [last];
    assert s[i] == init[i] && s[|init|] == last;
    c := init[i];
  }

  lemma BeforeTransitive(a: Rank, b: Rank, c: Rank)
    requires Before(a, b) && Before(b, c)
    ensures Before(a, c)
  {
  }

  /** Of the candidates of a row's entry there is a best, the row's own place or one before it. */
  lemma {:induction false} BestOfEntry(s: seq<Placed<Raw>>, c: Placed<Raw>) returns (best: Placed<Raw>)
    requires StrictlySorted(s) && c in s
    ensures best in Dedupe(s) && best.item.entry == c.item.entry && (best == c || Before(best.rank, c.rank))
  {
    var init, last := s[..|s| - 1], s[|s| - 1];
    assert s == init + [last];
    if c in init {
      best := BestOfEntry(init, c);
    } else if Seen(init, c.item.entry) {
      var earlier := SeenEarlier(init, c);
      best := BestOfEntry(init, earlier);
      if best != earlier {
        BeforeTransitive(best.rank, earlier.rank, c.rank);
      }
    } else {
      best := c;
    }
  }

  /** Every candidate is the place of its own row. */
  ghost predicate ArePlaces(p: Policy, s: seq<Placed<Raw>>)
    requires ValidPolicy(p)
  {
    forall i :: 0 <= i < |s| ==> s[i].item.similarity >= p.threshold && s[i] == Place(p, s[i].item)
  }

  lemma {:induction false} PlacesOf(p: Policy, raws: seq<Raw>, d: seq<Placed<Raw>>)
    requires ValidPolicy(p) && forall c :: c in d ==> c in Eligible(p, raws)
    ensures ArePlaces(p, d)
  {
    EligibleMembers(p, raws);
    forall i | 0 <= i < |d|
      ensures d[i].item.similarity >= p.threshold && d[i] == Place(p, d[i].item)
    {
      assert d[i] in d;
    }
  }

  lemma {:induction false} RowIsAccounted(p: Policy, s: seq<Placed<Raw>>, limit: nat, raw: Raw)
    requires ValidPolicy(p) && raw.similarity >= p.threshold
    requires StrictlySorted(s) && Place(p, raw) in s && ArePlaces(p, Dedupe(s))
    ensures Accounted(p, Raws(Stop(Dedupe(s), limit)), limit, raw)
  {
    var d := Dedupe(s);
    DedupeSorted(s);
    var best := BestOfEntry(s, Place(p, raw));
    var k :| 0 <= k < |d| && d[k] == best;
    PlacedAccounts(p, d, limit, raw, k);
  }

  lemma {:induction false} PlacedAccounts(p: Policy, d: seq<Placed<Raw>>, limit: nat, raw: Raw, k: nat)
    requires ValidPolicy(p) && StrictlySorted(d) && raw.similarity >= p.threshold && k < |d|
    requires ArePlaces(p, d)
    requires d[k].item.entry == raw.entry && (d[k] == Place(p, raw) || Before(d[k].rank, Place(p, raw).rank))
    ensures Accounted(p, Raws(Stop(d, limit)), limit, raw)
  {
    var picked := Raws(Stop(d, limit));
    BeforeIsAhead(p, d[k].item, raw);
    if k < |picked| {
      assert picked[k] == d[k].item;
    } else {
      forall i | 0 <= i < |picked|
        ensures Ahead(p, picked[i], raw)
      {
        assert Before(d[i].rank, d[k].rank);
        BeforeIsAhead(p, picked[i], raw);
      }
    }
  }

  // ---- Required entries ----

  function Others(hits: seq<Hit>, required: set<nat>): nat {
    if hits == [] then 0 else Others(hits[..|hits| - 1], required) + if hits[|hits| - 1].entry in required then 0 else 1
  }

  /** Every required hit, and the first `k` of the rest. */
  predicate Chosen(hits: seq<Hit>, required: set<nat>, k: nat, i: nat)
    requires i < |hits|
  {
    hits[i].entry in required || Others(hits[..i], required) < k
  }

  function Select(hits: seq<Hit>, required: set<nat>, k: nat): seq<Hit> {
    if hits == [] then []
    else
      Select(hits[..|hits| - 1], required, k) +
      if Chosen(hits, required, k, |hits| - 1) then [hits[|hits| - 1]] else []
  }

  ghost predicate Picks(hits: seq<Hit>, out: seq<Hit>, at: seq<nat>) {
    && |at| == |out|
    && (forall j :: 0 <= j < |at| ==> at[j] < |hits| && out[j] == hits[at[j]])
    && (forall i, j :: 0 <= i < j < |at| ==> at[i] < at[j])
  }

  lemma {:induction false} PicksPush(init: seq<Hit>, last: Hit, out: seq<Hit>, at: seq<nat>)
    requires Picks(init, out, at)
    ensures Picks(init + [last], out, at) && Picks(init + [last], out + [last], at + [|init|])
  {
  }

  lemma {:induction false} ChosenPrefix(init: seq<Hit>, last: Hit, required: set<nat>, k: nat, i: nat)
    requires i < |init|
    ensures Chosen(init + [last], required, k, i) <==> Chosen(init, required, k, i)
  {
    assert (init + [last])[..i] == init[..i];
  }

  ghost predicate ListsChosen(hits: seq<Hit>, required: set<nat>, k: nat, at: seq<nat>) {
    && (forall j :: 0 <= j < |at| ==> at[j] < |hits|)
    && forall i :: 0 <= i < |hits| ==> (i in at <==> Chosen(hits, required, k, i))
  }

  /** The selection is the chosen hits, unchanged and in order: `at` lists exactly their positions. */
  lemma {:induction false} SelectionPicksChosen(hits: seq<Hit>, required: set<nat>, k: nat) returns (at: seq<nat>)
    ensures Picks(hits, Select(hits, required, k), at) && ListsChosen(hits, required, k, at)
  {
    if hits == [] {
      at := [];
    } else {
      var init, last := hits[..|hits| - 1], hits[|hits| - 1];
      assert hits == init + [last];
      var before := SelectionPicksChosen(init, required, k);
      PicksPush(init, last, Select(init, required, k), before);
      at := if Chosen(hits, required, k, |init|) then before + [|init|] else before;
      ListsChosenPush(init, last, required, k, before, at);
    }
  }

  lemma {:induction false} ListsChosenPush(init: seq<Hit>, last: Hit, required: set<nat>, k: nat, before: seq<nat>, at: seq<nat>)
    requires ListsChosen(init, required, k, before)
    requires at == if Chosen(init + [last], required, k, |init|) then before + [|init|] else before
    ensures ListsChosen(init + [last], required, k, at)
  {
    forall i | 0 <= i < |init|
      ensures i in at <==> Chosen(init + [last], required, k, i)
    {
      ChosenPrefix(init, last, required, k, i);
    }
  }

  /** How many others are chosen: all of them, or `k`. */
  lemma {:induction false} SelectionCountsOthers(hits: seq<Hit>, required: set<nat>, k: nat)
    ensures Others(Select(hits, required, k), required) == Min(k, Others(hits, required))
  {
    if hits != [] {
      var init, last := hits[..|hits| - 1], hits[|hits| - 1];
      SelectionCountsOthers(init, required, k);
      var before := Select(init, required, k);
      if Chosen(hits, required, k, |hits| - 1) {
        assert (before + [last])[..|before|] == before;
      } else {
        assert before + [] == before;
      }
    }
  }

  // ---- The loops ----

  class MemoryRanking {
    const policy: Policy

    constructor (p: Policy)
      ensures policy == p
    {
      policy := p;
    }

    method Rank(raws: seq<Raw>, limit: nat) returns (hits: seq<Hit>)
      requires ValidPolicy(policy)
      ensures hits == RankAffinities(policy, raws, limit)
    {
      var candidates: seq<Placed<Raw>> := [];
      for i := 0 to |raws|
        invariant candidates == Eligible(policy, raws[..i])
      {
        assert raws[..i + 1][..i] == raws[..i];
        if raws[i].similarity >= policy.threshold {
          candidates := candidates + [Place(policy, raws[i])];
        }
      }
      assert raws[..|raws|] == raws;
      hits := TakeHits(Sort(candidates), limit);
    }

    /** Walks the sorted candidates, skipping entries already hit, until there are `limit` hits. */
    method TakeHits(candidates: seq<Placed<Raw>>, limit: nat) returns (hits: seq<Hit>)
      ensures hits == HitsOf(policy, Stop(Dedupe(candidates), limit))
    {
      var seen: set<nat> := {};
      hits := [];
      var i := 0;
      while i < |candidates|
        invariant i <= |candidates|
        invariant forall e :: e in seen <==> Seen(candidates[..i], e)
        invariant hits == HitsOf(policy, Dedupe(candidates[..i]))
        invariant |hits| != limit || limit == 0
        invariant limit > 0 ==> |hits| < limit
      {
        var c := candidates[i];
        ghost var before := candidates[..i];
        assert candidates[..i + 1][..i] == before;
        SeenNext(before, c);
        DedupePrefix(candidates, i + 1);
        i := i + 1;
        assert candidates[..i] == before + [c];
        if c.item.entry !in seen {
          seen := seen + {c.item.entry};
          HitsGrow(policy, Dedupe(before), c);
          hits := hits + [HitAt(policy, c, |hits| + 1)];
          if |hits| == limit {
            return;
          }
        }
      }
      assert candidates[..|candidates|] == candidates;
    }

    /** Ranked without a limit, then filtered with a counter. */
    method WithRequired(raws: seq<Raw>, required: set<nat>, others: nat) returns (out: seq<Hit>)
      requires ValidPolicy(policy)
      ensures out == Select(RankAffinities(policy, raws, USIZE_MAX), required, others)
    {
      var ranked := Rank(raws, USIZE_MAX);
      out := [];
      var selected := 0;
      for i := 0 to |ranked|
        invariant out == Select(ranked[..i], required, others)
        invariant selected == Min(others, Others(ranked[..i], required))
      {
        assert ranked[..i + 1][..i] == ranked[..i];
        if ranked[i].entry in required {
          out := out + [ranked[i]];
        } else if selected < others {
          selected := selected + 1;
          out := out + [ranked[i]];
        }
      }
      assert ranked[..|ranked|] == ranked;
    }
  }

  lemma {:induction false} SeenNext(s: seq<Placed<Raw>>, c: Placed<Raw>)
    ensures forall e :: Seen(s + [c], e) <==> Seen(s, e) || e == c.item.entry
  {
    forall e
      ensures Seen(s + [c], e) <==> Seen(s, e) || e == c.item.entry
    {
      if Seen(s, e) {
        var i :| 0 <= i < |s| && s[i].item.entry == e;
        assert (s + [c])[i].item.entry == e;
      }
      assert (s + [c])[|s|] == c;
    }
  }

  /** What the first few candidates yield is a prefix of what all yield. */
  lemma {:induction false} DedupePrefix(s: seq<Placed<Raw>>, n: nat)
    requires n <= |s|
    ensures |Dedupe(s[..n])| <= |Dedupe(s)| && Dedupe(s[..n]) == Dedupe(s)[..|Dedupe(s[..n])|]
  {
    if n == |s| {
      assert s[..n] == s;
    } else {
      DedupePrefix(s[..|s| - 1], n);
      assert s[..|s| - 1][..n] == s[..n];
    }
  }

  lemma {:induction false} HitsGrow(p: Policy, s: seq<Placed<Raw>>, c: Placed<Raw>)
    ensures HitsOf(p, s + [c]) == HitsOf(p, s) + [HitAt(p, c, |s| + 1)]
  {
  }
}
