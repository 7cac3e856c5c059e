/**
 * Fusing cached base candidates with live affinity, memory and transient signals. The code walks hash maps,
 * whose order is arbitrary; the result must not depend on it.
 */
module AdaptiveSearch {
  import opened Prelude
  import opened Ranking

  /** A search result as JSON: its entry id and fusion score when they can be read, and the rest. */
  datatype Item = Item(entry: Option<nat>, fusion: Option<real>, body: nat)

  datatype AffinityHit = AffinityHit(entry: nat, score: real, detail: nat)

  datatype Signal = Signal(count: nat, last: int, factor: real)

  datatype Candidate = Candidate(item: Item, fusion: real)

  datatype Fused = Fused(item: Item, score: real, affinity: real, factor: real, matched: bool, signal: Option<Signal>)

  type Candidates = map<nat, Candidate>

  // ---- What is computed ----

  /** The best affinity score of each entry; only a strictly better hit replaces one. */
  function Scores(affinities: seq<AffinityHit>): map<nat, real> {
    if affinities == [] then map[]
    else
      var m, hit := Scores(affinities[..|affinities| - 1]), affinities[|affinities| - 1];
      if hit.entry in m && m[hit.entry] >= hit.score then m else m[hit.entry := hit.score]
  }

  function FusionOf(item: Item): real {
    if item.fusion.Some? then item.fusion.value else 0.0
  }

  /** Base items: unreadable ids are skipped, the first of an entry stays. */
  function WithBase(m: Candidates, item: Item): Candidates {
    if item.entry.None? || item.entry.value in m then m else m[item.entry.value := Candidate(item, FusionOf(item))]
  }

  function FromBase(base: seq<Item>): Candidates {
    if base == [] then map[] else WithBase(FromBase(base[..|base| - 1]), base[|base| - 1])
  }

  datatype Admission = Admission(candidates: Candidates, added: nat)

  predicate Admissible(m: Candidates, scores: map<nat, real>, item: Item) {
    item.entry.Some? && item.entry.value !in m && item.entry.value in scores
  }

  function Admit(a: Admission, scores: map<nat, real>, item: Item, limit: nat): Admission {
    if a.added == limit || !Admissible(a.candidates, scores, item) then a
    else Admission(a.candidates[item.entry.value := Candidate(item.(fusion := Some(0.0)), 0.0)], a.added + 1)
  }

  function AdmitAll(m: Candidates, scores: map<nat, real>, supplemental: seq<Item>, limit: nat): Admission {
    if supplemental == [] then Admission(m, 0)
    else Admit(AdmitAll(m, scores, supplemental[..|supplemental| - 1], limit), scores, supplemental[|supplemental| - 1], limit)
  }

  function AffinityOf(scores: map<nat, real>, id: nat): real {
    if id in scores then scores[id] else 0.0
  }

  function FactorOf(signals: map<nat, Signal>, id: nat): real {
    if id in signals then signals[id].factor else 1.0
  }

  function TransientFactor(transient: set<nat>, id: nat): real {
    if id in transient then 0.5 else 1.0
  }

  function Score(c: Candidate, id: nat, scores: map<nat, real>, signals: map<nat, Signal>, transient: set<nat>): real {
    (c.fusion + AffinityOf(scores, id)) * FactorOf(signals, id) * TransientFactor(transient, id)
  }

  function Fuse(c: Candidate, id: nat, scores: map<nat, real>, signals: map<nat, Signal>, transient: set<nat>): Placed<Fused> {
    var score := Score(c, id, scores, signals, transient);
    Placed(Rank(score, c.fusion, id, 0),
           Fused(c.item, score, AffinityOf(scores, id), FactorOf(signals, id), id in scores,
                 if id in signals then Some(signals[id]) else None))
  }

  predicate Lists(ids: seq<nat>, m: Candidates) {
    Distinct(ids) && (forall id :: id in ids ==> id in m) && forall id :: id in m ==> id in ids
  }

  /** The candidates, fused, in the order `ids` gives. */
  function FuseAll(m: Candidates, ids: seq<nat>, scores: map<nat, real>, signals: map<nat, Signal>, transient: set<nat>): seq<Placed<Fused>>
    requires forall id :: id in ids ==> id in m
  {
    seq(|ids|, i requires 0 <= i < |ids| => Fuse(m[ids[i]], ids[i], scores, signals, transient))
  }

  function Items(s: seq<Placed<Fused>>): seq<Fused> {
    seq(|s|, i requires 0 <= i < |s| => s[i].item)
  }

  function Pool(base: seq<Item>, supplemental: seq<Item>, scores: map<nat, real>, supplementLimit: nat): Candidates {
    AdmitAll(FromBase(base), scores, supplemental, supplementLimit).candidates
  }

  /** Fused and ranked in full, the map read in the order of the ids. */
  function Ranked(m: Candidates, scores: map<nat, real>, signals: map<nat, Signal>, transient: set<nat>): seq<Placed<Fused>> {
    AscendingMembers(m.Keys);
    Sort(FuseAll(m, Ascending(m.Keys), scores, signals, transient))
  }

  function RankCandidates(base: seq<Item>, supplemental: seq<Item>, affinities: seq<AffinityHit>, signals: map<nat, Signal>,
                          transient: set<nat>, limit: nat, supplementLimit: nat): seq<Fused>
  {
    var scores := Scores(affinities);
    Items(First(Ranked(Pool(base, supplemental, scores, supplementLimit), scores, signals, transient), limit))
  }

  // ---- No dependence on map or affinity order ----

  lemma {:induction false} FusedRanks(m: Candidates, ids: seq<nat>, scores: map<nat, real>, signals: map<nat, Signal>, transient: set<nat>)
    requires Lists(ids, m)
    ensures DistinctRanks(FuseAll(m, ids, scores, signals, transient))
    ensures forall p :: p in FuseAll(m, ids, scores, signals, transient) <==>
      p.rank.major in m && p == Fuse(m[p.rank.major], p.rank.major, scores, signals, transient)
  {
    var all := FuseAll(m, ids, scores, signals, transient);
    forall i, j | 0 <= i < j < |all|
      ensures all[i].rank.major != all[j].rank.major
    {
    }
    forall id | id in m
      ensures Fuse(m[id], id, scores, signals, transient) in all
    {
      var i :| 0 <= i < |ids| && ids[i] == id;
      assert all[i] == Fuse(m[id], id, scores, signals, transient);
    }
  }

  /** Main result: whatever order the map is walked in, sorting gives the same list. */
  lemma {:induction false} WalkOrderDoesNotMatter(m: Candidates, ids: seq<nat>, scores: map<nat, real>, signals: map<nat, Signal>, transient: set<nat>)
    requires Lists(ids, m)
    ensures Sort(FuseAll(m, ids, scores, signals, transient)) == Ranked(m, scores, signals, transient)
  {
    AscendingDistinct(m.Keys);
    FusedRanks(m, ids, scores, signals, transient);
    FusedRanks(m, Ascending(m.Keys), scores, signals, transient);
    SortDetermined(FuseAll(m, ids, scores, signals, transient), FuseAll(m, Ascending(m.Keys), scores, signals, transient));
  }

  ghost predicate Attains(affinities: seq<AffinityHit>, id: nat, score: real) {
    exists i :: 0 <= i < |affinities| && affinities[i].entry == id && affinities[i].score == score
  }

  /** Each entry's maximum affinity, neither the first nor a sum. */
  lemma {:induction false} ScoresAreMaxima(affinities: seq<AffinityHit>)
    ensures forall i :: 0 <= i < |affinities| ==> affinities[i].entry in Scores(affinities) && affinities[i].score <= Scores(affinities)[affinities[i].entry]
    ensures forall id :: id in Scores(affinities) ==> Attains(affinities, id, Scores(affinities)[id])
  {
    if affinities != [] {
      var init, hit := affinities[..|affinities| - 1], affinities[|affinities| - 1];
      ScoresAreMaxima(init);
      var m := Scores(affinities);
      forall id | id in m
        ensures Attains(affinities, id, m[id])
      {
        if id in Scores(init) && m[id] == Scores(init)[id] {
          var i :| 0 <= i < |init| && init[i].entry == id && init[i].score == m[id];
          assert affinities[i] == init[i];
        } else {
          assert affinities[|affinities| - 1] == hit;
        }
      }
      forall i | 0 <= i < |affinities|
        ensures affinities[i].entry in m && affinities[i].score <= m[affinities[i].entry]
      {
        assert i < |init| ==> init[i] == affinities[i];
      }
    }
  }

  lemma {:induction false} ScoresBelow(a: seq<AffinityHit>, b: seq<AffinityHit>)
    requires forall hit :: hit in a ==> hit in b
    ensures forall id :: id in Scores(a) ==> id in Scores(b) && Scores(a)[id] <= Scores(b)[id]
  {
    ScoresAreMaxima(a);
    ScoresAreMaxima(b);
    forall id | id in Scores(a)
      ensures id in Scores(b) && Scores(a)[id] <= Scores(b)[id]
    {
      assert Attains(a, id, Scores(a)[id]);
      var i :| 0 <= i < |a| && a[i].entry == id && a[i].score == Scores(a)[id];
      assert a[i] in a;
      var j :| 0 <= j < |b| && b[j] == a[i];
    }
  }

  lemma {:induction false} ScoresIgnoreOrder(a: seq<AffinityHit>, b: seq<AffinityHit>)
    requires forall hit :: hit in a <==> hit in b
    ensures Scores(a) == Scores(b)
  {
    ScoresBelow(a, b);
    ScoresBelow(b, a);
  }

  /** Readable entry ids of a base list are distinct. */
  ghost predicate DistinctEntries(base: seq<Item>) {
    forall i, j :: 0 <= i < j < |base| && base[i].entry.Some? ==> base[i].entry != base[j].entry
  }

  ghost predicate Offers(base: seq<Item>, id: nat, item: Item) {
    item in base && item.entry == Some(id)
  }

  lemma {:induction false} BaseHolds(base: seq<Item>)
    requires DistinctEntries(base)
    ensures forall id :: id in FromBase(base) ==> Offers(base, id, FromBase(base)[id].item) && FromBase(base)[id].fusion == FusionOf(FromBase(base)[id].item)
    ensures forall item :: item in base && item.entry.Some? ==> item.entry.value in FromBase(base) && FromBase(base)[item.entry.value].item == item
  {
    if base != [] {
      var init, last := base[..|base| - 1], base[|base| - 1];
      BaseHolds(init);
      assert base == init + [last];
    }
  }

  /** Neither the order of a base list with distinct entries nor that of the affinities changes the result. */
  lemma {:induction false} InputOrderDoesNotMatter(base: seq<Item>, base': seq<Item>, supplemental: seq<Item>,
      affinities: seq<AffinityHit>, affinities': seq<AffinityHit>, signals: map<nat, Signal>, transient: set<nat>, limit: nat, supplementLimit: nat)
    requires DistinctEntries(base) && DistinctEntries(base') && forall item :: item in base <==> item in base'
    requires forall hit :: hit in affinities <==> hit in affinities'
    ensures RankCandidates(base, supplemental, affinities, signals, transient, limit, supplementLimit) ==
            RankCandidates(base', supplemental, affinities', signals, transient, limit, supplementLimit)
  {
    ScoresIgnoreOrder(affinities, affinities');
    BaseHolds(base);
    BaseHolds(base');
    var m, m' := FromBase(base), FromBase(base');
    forall id
      ensures id in m <==> id in m'
      ensures id in m ==> m[id] == m'[id]
    {
      if id in m {
        assert Offers(base, id, m[id].item);
      }
      if id in m' {
        assert Offers(base', id, m'[id].item);
      }
    }
    assert m == m';
  }

  // ---- Supplements ----

  ghost predicate Offered(base: seq<Item>, id: nat) {
    exists item :: Offers(base, id, item)
  }

  /** An entry some supplemental item offers, outside base and backed by an affinity. */
  ghost predicate Eligible(m: Candidates, scores: map<nat, real>, supplemental: seq<Item>, id: nat) {
    id !in m && id in scores && Offered(supplemental, id)
  }

  ghost predicate Extends(m: Candidates, out: Candidates, added: nat) {
    && m.Keys <= out.Keys && (forall id :: id in m ==> out[id] == m[id])
    && |out.Keys - m.Keys| == added
  }

  ghost predicate NewOnesEligible(m: Candidates, scores: map<nat, real>, supplemental: seq<Item>, out: Candidates) {
    forall id :: id in out && id !in m ==> Eligible(m, scores, supplemental, id) && out[id].fusion == 0.0
  }

  ghost predicate NoneLeft(m: Candidates, scores: map<nat, real>, supplemental: seq<Item>, out: Candidates) {
    forall id :: Eligible(m, scores, supplemental, id) ==> id in out
  }

  ghost predicate Admitted(m: Candidates, scores: map<nat, real>, supplemental: seq<Item>, limit: nat, out: Admission) {
    && Extends(m, out.candidates, out.added) && out.added <= limit
    && NewOnesEligible(m, scores, supplemental, out.candidates)
    && (out.added < limit ==> NoneLeft(m, scores, supplemental, out.candidates))
  }

  /** Base entries stay as they are; supplements are eligible, at most `limit`, and fewer only when no more are. */
  lemma {:induction false} SupplementsAdmitted(m: Candidates, scores: map<nat, real>, supplemental: seq<Item>, limit: nat)
    ensures Admitted(m, scores, supplemental, limit, AdmitAll(m, scores, supplemental, limit))
  {
    if supplemental == [] {
      assert m.Keys - m.Keys == {};
    } else {
      var init, last := supplemental[..|supplemental| - 1], supplemental[|supplemental| - 1];
      SupplementsAdmitted(m, scores, init, limit);
      AdmitKeeps(m, scores, init, last, limit, AdmitAll(m, scores, init, limit));
      assert supplemental == init + [last];
    }
  }

  lemma {:induction false} ExtendOne(m: Candidates, out: Candidates, added: nat, id: nat, c: Candidate)
    requires Extends(m, out, added) && id !in out
    ensures Extends(m, out[id := c], added + 1)
  {
    assert out[id := c].Keys == out.Keys + {id};
    OneMore(m.Keys, out.Keys, id);
  }

  lemma {:induction false} OneMore(base: set<nat>, keys: set<nat>, id: nat)
    requires base <= keys && id !in keys
    ensures |keys + {id} - base| == |keys - base| + 1
  {
    assert keys + {id} - base == keys - base + {id};
  }

  lemma {:induction false} OfferedPush(init: seq<Item>, last: Item, id: nat)
    ensures Offered(init + [last], id) <==> Offered(init, id) || last.entry == Some(id)
  {
    if Offered(init, id) {
      var item :| Offers(init, id, item);
      assert Offers(init + [last], id, item);
    }
    if last.entry == Some(id) {
      assert (init + [last])[|init|] == last;
      assert Offers(init + [last], id, last);
    }
    if Offered(init + [last], id) {
      var item :| Offers(init + [last], id, item);
      assert item in init ==> Offers(init, id, item);
    }
  }

  lemma {:induction false} EligibleStays(m: Candidates, scores: map<nat, real>, init: seq<Item>, last: Item, out: Candidates)
    requires NewOnesEligible(m, scores, init, out)
    ensures NewOnesEligible(m, scores, init + [last], out)
  {
    forall id | id in out && id !in m
      ensures Eligible(m, scores, init + [last], id)
    {
      OfferedPush(init, last, id);
    }
  }

  /** Nobody eligible is left out by an item that offers nobody new. */
  lemma {:induction false} NoneLeftStays(m: Candidates, scores: map<nat, real>, init: seq<Item>, last: Item, out: Candidates)
    requires NoneLeft(m, scores, init, out) && (last.entry.None? || last.entry.value in out || last.entry.value !in scores)
    ensures NoneLeft(m, scores, init + [last], out)
  {
    forall id | Eligible(m, scores, init + [last], id)
      ensures id in out
    {
      OfferedPush(init, last, id);
    }
  }

  lemma {:induction false} NoneLeftGrows(m: Candidates, scores: map<nat, real>, init: seq<Item>, out: Candidates, id: nat, c: Candidate)
    requires NoneLeft(m, scores, init, out)
    ensures NoneLeft(m, scores, init, out[id := c])
  {
  }

  lemma {:induction false} NewcomerEligible(m: Candidates, scores: map<nat, real>, init: seq<Item>, last: Item, out: Candidates, id: nat, c: Candidate)
    requires NewOnesEligible(m, scores, init + [last], out) && last.entry == Some(id) && id in scores && c.fusion == 0.0
    ensures NewOnesEligible(m, scores, init + [last], out[id := c])
  {
    OfferedPush(init, last, id);
  }

  lemma {:induction false} AdmitKeeps(m: Candidates, scores: map<nat, real>, init: seq<Item>, last: Item, limit: nat, a: Admission)
    requires Admitted(m, scores, init, limit, a)
    ensures Admitted(m, scores, init + [last], limit, Admit(a, scores, last, limit))
  {
    EligibleStays(m, scores, init, last, a.candidates);
    if a.added < limit {
      if Admissible(a.candidates, scores, last) {
        var id, c := last.entry.value, Candidate(last.(fusion := Some(0.0)), 0.0);
        ExtendOne(m, a.candidates, a.added, id, c);
        NewcomerEligible(m, scores, init, last, a.candidates, id, c);
        NoneLeftGrows(m, scores, init, a.candidates, id, c);
        NoneLeftStays(m, scores, init, last, a.candidates[id := c]);
      } else {
        NoneLeftStays(m, scores, init, last, a.candidates);
      }
    }
  }

  // ---- Whose item is kept ----

  /** Position `i` is the first to offer the entry. */
  ghost predicate FirstOffer(items: seq<Item>, id: nat, i: nat) {
    i < |items| && items[i].entry == Some(id) && forall j :: 0 <= j < i ==> items[j].entry != Some(id)
  }

  ghost predicate FromFirst(base: seq<Item>, id: nat, c: Candidate) {
    exists i: nat :: FirstOffer(base, id, i) && c == Candidate(base[i], if base[i].fusion.Some? then base[i].fusion.value else 0.0)
  }

  lemma {:induction false} FirstOfferStays(init: seq<Item>, last: Item, id: nat, c: Candidate)
    requires FromFirst(init, id, c)
    ensures FromFirst(init + [last], id, c)
  {
    var i: nat :| FirstOffer(init, id, i) && c == Candidate(init[i], if init[i].fusion.Some? then init[i].fusion.value else 0.0);
    assert FirstOffer(init + [last], id, i);
  }

  lemma {:induction false} FirstOfferNew(init: seq<Item>, last: Item, id: nat)
    requires last.entry == Some(id) && !Offered(init, id)
    ensures FirstOffer(init + [last], id, |init|)
  {
    forall j | 0 <= j < |init|
      ensures init[j].entry != Some(id)
    {
      assert init[j] in init;
      assert !Offers(init, id, init[j]);
    }
  }

  /** Every entry a base list offers is a candidate, by its first item, with that item's score or 0. */
  lemma {:induction false} BaseKeepsFirst(base: seq<Item>)
    ensures forall id :: id in FromBase(base) <==> Offered(base, id)
    ensures forall id :: id in FromBase(base) ==> FromFirst(base, id, FromBase(base)[id])
  {
    if base != [] {
      var init, last := base[..|base| - 1], base[|base| - 1];
      BaseKeepsFirst(init);
      assert base == init + [last];
      forall id
        ensures id in FromBase(base) <==> Offered(base, id)
        ensures id in FromBase(base) ==> FromFirst(base, id, FromBase(base)[id])
      {
        OfferedPush(init, last, id);
        if id in FromBase(init) {
          FirstOfferStays(init, last, id, FromBase(init)[id]);
        } else if last.entry == Some(id) {
          FirstOfferNew(init, last, id);
          assert base[|init|] == last;
        }
      }
    }
  }

  /** Admitted by its first offer, its score set to 0, and no entry offered up to there and backed is left out. */
  ghost predicate AdmittedAt(scores: map<nat, real>, supplemental: seq<Item>, out: Candidates, id: nat, i: nat) {
    && FirstOffer(supplemental, id, i) && id in out && out[id] == Candidate(supplemental[i].(fusion := Some(0.0)), 0.0)
    && BackedIn(scores, supplemental[..i], out)
  }

  ghost predicate BackedIn(scores: map<nat, real>, items: seq<Item>, out: Candidates) {
    forall item :: item in items && item.entry.Some? && item.entry.value in scores ==> item.entry.value in out
  }

  ghost predicate InOrder(m: Candidates, scores: map<nat, real>, supplemental: seq<Item>, out: Candidates) {
    forall id :: id in out && id !in m ==> exists i: nat :: AdmittedAt(scores, supplemental, out, id, i)
  }

  lemma {:induction false} AdmittedStays(scores: map<nat, real>, init: seq<Item>, last: Item, out: Candidates, out': Candidates, id: nat)
    requires exists i: nat :: AdmittedAt(scores, init, out, id, i)
    requires out.Keys <= out'.Keys && id in out && out'[id] == out[id]
    ensures exists i: nat :: AdmittedAt(scores, init + [last], out', id, i)
  {
    var i: nat :| AdmittedAt(scores, init, out, id, i);
    assert FirstOffer(init + [last], id, i) && (init + [last])[..i] == init[..i];
    assert AdmittedAt(scores, init + [last], out', id, i);
  }

  lemma {:induction false} NoneLeftBacks(m: Candidates, scores: map<nat, real>, items: seq<Item>, out: Candidates)
    requires NoneLeft(m, scores, items, out) && m.Keys <= out.Keys
    ensures BackedIn(scores, items, out)
  {
    forall item | item in items && item.entry.Some? && item.entry.value in scores
      ensures item.entry.value in out
    {
      assert Offers(items, item.entry.value, item);
      assert item.entry.value in m || Eligible(m, scores, items, item.entry.value);
    }
  }

  lemma {:induction false} NewcomerAdmitted(m: Candidates, scores: map<nat, real>, init: seq<Item>, last: Item, out: Candidates, id: nat)
    requires NoneLeft(m, scores, init, out) && m.Keys <= out.Keys
    requires last.entry == Some(id) && id in scores && id !in out
    ensures AdmittedAt(scores, init + [last], out[id := Candidate(last.(fusion := Some(0.0)), 0.0)], id, |init|)
  {
    NoneLeftBacks(m, scores, init, out);
    assert !Offered(init, id) by {
      assert !Eligible(m, scores, init, id);
    }
    FirstOfferNew(init, last, id);
    assert (init + [last])[..|init|] == init;
  }

  /** Main result: supplements come in by their first offer, in order: none is passed over for a later one. */
  lemma {:induction false} SupplementsInOrder(m: Candidates, scores: map<nat, real>, supplemental: seq<Item>, limit: nat)
    ensures InOrder(m, scores, supplemental, AdmitAll(m, scores, supplemental, limit).candidates)
  {
    if supplemental != [] {
      var init, last := supplemental[..|supplemental| - 1], supplemental[|supplemental| - 1];
      assert supplemental == init + [last];
      SupplementsInOrder(m, scores, init, limit);
      SupplementsAdmitted(m, scores, init, limit);
      AdmitInOrder(m, scores, init, last, limit, AdmitAll(m, scores, init, limit));
    }
  }

  lemma {:induction false} AdmitInOrder(m: Candidates, scores: map<nat, real>, init: seq<Item>, last: Item, limit: nat, a: Admission)
    requires Admitted(m, scores, init, limit, a) && InOrder(m, scores, init, a.candidates)
    ensures InOrder(m, scores, init + [last], Admit(a, scores, last, limit).candidates)
  {
    var out := Admit(a, scores, last, limit).candidates;
    forall id | id in out && id !in m
      ensures exists i: nat :: AdmittedAt(scores, init + [last], out, id, i)
    {
      if id in a.candidates {
        AdmittedStays(scores, init, last, a.candidates, out, id);
      } else {
        NewcomerAdmitted(m, scores, init, last, a.candidates, id);
      }
    }
  }

  // ---- What a result says ----

  /** A candidate is filed under its item's entry, with its item's score. */
  lemma {:induction false} PoolReads(base: seq<Item>, supplemental: seq<Item>, scores: map<nat, real>, limit: nat)
    ensures var pool := Pool(base, supplemental, scores, limit);
      forall id :: id in pool ==> pool[id].item.entry == Some(id) && pool[id].fusion == FusionOf(pool[id].item)
  {
    var m := FromBase(base);
    BaseKeepsFirst(base);
    SupplementsAdmitted(m, scores, supplemental, limit);
    SupplementsInOrder(m, scores, supplemental, limit);
    var pool := Pool(base, supplemental, scores, limit);
    forall id | id in pool
      ensures pool[id].item.entry == Some(id) && pool[id].fusion == FusionOf(pool[id].item)
    {
      if id in m {
        assert FromFirst(base, id, m[id]) && pool[id] == m[id];
      } else {
        var i: nat :| AdmittedAt(scores, supplemental, pool, id, i);
      }
    }
  }

  /** The greatest affinity of an entry, or 0 without one. */
  ghost predicate BestAffinity(affinities: seq<AffinityHit>, id: nat, matched: bool, affinity: real) {
    && (forall i :: 0 <= i < |affinities| && affinities[i].entry == id ==> matched && affinities[i].score <= affinity)
    && (if matched then Attains(affinities, id, affinity) else affinity == 0.0)
  }

  /** The sum of both scores, times the signal's factor, halved for a transient entry. */
  ghost predicate Explained(affinities: seq<AffinityHit>, signals: map<nat, Signal>, transient: set<nat>, f: Fused) {
    && f.item.entry.Some?
    && (var id := f.item.entry.value;
        && BestAffinity(affinities, id, f.matched, f.affinity)
        && (if id in signals then f.signal == Some(signals[id]) && f.factor == signals[id].factor else f.signal == None && f.factor == 1.0)
        && (if id in transient then 2.0 * f.score else f.score) ==
           ((if f.item.fusion.Some? then f.item.fusion.value else 0.0) + f.affinity) * f.factor)
  }

  lemma {:induction false} FuseExplained(affinities: seq<AffinityHit>, signals: map<nat, Signal>, transient: set<nat>, id: nat, c: Candidate)
    requires c.item.entry == Some(id) && c.fusion == FusionOf(c.item)
    ensures Explained(affinities, signals, transient, Fuse(c, id, Scores(affinities), signals, transient).item)
  {
    var scores := Scores(affinities);
    ScoresAreMaxima(affinities);
    Halved((c.fusion + AffinityOf(scores, id)) * FactorOf(signals, id));
  }

  lemma {:induction false} Halved(x: real)
    ensures 2.0 * (x * 0.5) == x
  {
  }

  /** Main result: every result's score is that of its own item, affinity and signal. */
  lemma {:induction false} ResultsExplained(base: seq<Item>, supplemental: seq<Item>, affinities: seq<AffinityHit>, signals: map<nat, Signal>,
                                            transient: set<nat>, limit: nat, supplementLimit: nat)
    ensures forall f :: f in RankCandidates(base, supplemental, affinities, signals, transient, limit, supplementLimit) ==>
      Explained(affinities, signals, transient, f)
  {
    var scores := Scores(affinities);
    var pool := Pool(base, supplemental, scores, supplementLimit);
    PoolReads(base, supplemental, scores, supplementLimit);
    RankedIsTopK(pool, scores, signals, transient, limit);
    var top := First(Ranked(pool, scores, signals, transient), limit);
    forall f | f in Items(top)
      ensures Explained(affinities, signals, transient, f)
    {
      var i :| 0 <= i < |top| && top[i].item == f;
      assert top[i] in Ranked(pool, scores, signals, transient);
      FuseExplained(affinities, signals, transient, top[i].rank.major, pool[top[i].rank.major]);
    }
  }

  /** Two candidates alike but for one being transient: the other is first exactly when the score is positive, or 0 and its id smaller. */
  lemma {:induction false} TransientYields(c: Candidate, d: Candidate, a: nat, b: nat, scores: map<nat, real>, signals: map<nat, Signal>, transient: set<nat>)
    requires c.fusion == d.fusion && AffinityOf(scores, a) == AffinityOf(scores, b) && FactorOf(signals, a) == FactorOf(signals, b)
    requires a !in transient && b in transient
    ensures var x := (c.fusion + AffinityOf(scores, a)) * FactorOf(signals, a);
      Before(Fuse(c, a, scores, signals, transient).rank, Fuse(d, b, scores, signals, transient).rank) <==> x > 0.0 || (x == 0.0 && a < b)
  {
    HalfOrder((c.fusion + AffinityOf(scores, a)) * FactorOf(signals, a), c.fusion, a, b);
  }

  lemma {:induction false} HalfOrder(x: real, fusion: real, a: nat, b: nat)
    ensures Before(Rank(x * 1.0, fusion, a, 0), Rank(x * 0.5, fusion, b, 0)) <==> x > 0.0 || (x == 0.0 && a < b)
  {
  }

  /** Two candidates alike but for the greater factor of one: it is first exactly when the sum is positive, or 0 and its id smaller. */
  lemma {:induction false} FactorsDecide(c: Candidate, d: Candidate, a: nat, b: nat, scores: map<nat, real>, signals: map<nat, Signal>, transient: set<nat>)
    requires c.fusion == d.fusion && AffinityOf(scores, a) == AffinityOf(scores, b) && FactorOf(signals, a) > FactorOf(signals, b)
    requires a in transient <==> b in transient
    ensures var sum := c.fusion + AffinityOf(scores, a);
      Before(Fuse(c, a, scores, signals, transient).rank, Fuse(d, b, scores, signals, transient).rank) <==> sum > 0.0 || (sum == 0.0 && a < b)
  {
    FactorOrder(c.fusion + AffinityOf(scores, a), FactorOf(signals, a), FactorOf(signals, b), TransientFactor(transient, a), c.fusion, a, b);
  }

  lemma {:induction false} FactorOrder(sum: real, f: real, g: real, t: real, fusion: real, a: nat, b: nat)
    requires f > g && t > 0.0
    ensures Before(Rank(sum * f * t, fusion, a, 0), Rank(sum * g * t, fusion, b, 0)) <==> sum > 0.0 || (sum == 0.0 && a < b)
  {
    var x, y := sum * f, sum * g;
    assert x - y == sum * (f - g);
    assert x * t - y * t == (x - y) * t;
    if sum > 0.0 {
      Positive(sum, f - g);
      Positive(x - y, t);
    } else if sum < 0.0 {
      Positive(-sum, f - g);
      Positive(y - x, t);
    }
  }

  lemma {:induction false} Positive(x: real, y: real)
    requires x > 0.0 && y > 0.0
    ensures x * y > 0.0
  {
  }

  // ---- Top k ----

  /** Main result: the ranked list holds each candidate once, strictly ordered; what the limit cuts ranks after what stays. */
  lemma {:induction false} RankedIsTopK(m: Candidates, scores: map<nat, real>, signals: map<nat, Signal>, transient: set<nat>, limit: nat)
    ensures var all := Ranked(m, scores, signals, transient); var top := First(all, limit);
      && StrictlySorted(top) && |top| == Min(limit, |m|)
      && (forall p :: p in all <==> p.rank.major in m && p == Fuse(m[p.rank.major], p.rank.major, scores, signals, transient))
      && (forall i, j :: 0 <= i < j < |top| ==> top[i].rank.major != top[j].rank.major)
      && (forall p, q :: p in top && q in all && q !in top ==> Before(p.rank, q.rank))
  {
    var ids := Ascending(m.Keys);
    AscendingDistinct(m.Keys);
    AscendingMembers(m.Keys);
    FusedRanks(m, ids, scores, signals, transient);
    SortSorts(FuseAll(m, ids, scores, signals, transient));
    SortSize(FuseAll(m, ids, scores, signals, transient));
    var all := Ranked(m, scores, signals, transient);
    assert |m.Keys| == |m|;
    FirstRanksAhead(all, limit);
    OneRankEach(all, m, scores, signals, transient);
  }

  lemma {:induction false} OneRankEach(all: seq<Placed<Fused>>, m: Candidates, scores: map<nat, real>, signals: map<nat, Signal>, transient: set<nat>)
    requires StrictlySorted(all)
    requires forall p :: p in all ==> p.rank.major in m && p == Fuse(m[p.rank.major], p.rank.major, scores, signals, transient)
    ensures forall i, j :: 0 <= i < j < |all| ==> all[i].rank.major != all[j].rank.major
  {
    forall i, j | 0 <= i < j < |all|
      ensures all[i].rank.major != all[j].rank.major
    {
      assert all[i] in all && all[j] in all;
      assert Before(all[i].rank, all[j].rank);
    }
  }

  lemma {:induction false} FirstRanksAhead<T(!new)>(all: seq<Placed<T>>, limit: nat)
    requires StrictlySorted(all)
    ensures StrictlySorted(First(all, limit))
    ensures forall p, q :: p in First(all, limit) && q in all && q !in First(all, limit) ==> Before(p.rank, q.rank)
  {
    var top := First(all, limit);
    forall p, q | p in top && q in all && q !in top
      ensures Before(p.rank, q.rank)
    {
      var i :| 0 <= i < |top| && top[i] == p;
      var j :| 0 <= j < |all| && all[j] == q;
      assert j >= |top|;
    }
  }

  lemma {:induction false} InsertSize<T(!new)>(x: Placed<T>, s: seq<Placed<T>>)
    ensures |Insert(x, s)| == |s| + 1
  {
    if s != [] {
      InsertSize(x, s[..|s| - 1]);
    }
  }

  lemma {:induction false} SortSize<T(!new)>(s: seq<Placed<T>>)
    ensures |Sort(s)| == |s|
  {
    if s != [] {
      SortSize(s[..|s| - 1]);
      InsertSize(s[|s| - 1], Sort(s[..|s| - 1]));
    }
  }

  // ---- The loops ----

  method FuseCandidates(base: seq<Item>, supplemental: seq<Item>, affinities: seq<AffinityHit>, signals: map<nat, Signal>,
                        transient: set<nat>, limit: nat, supplementLimit: nat) returns (out: seq<Fused>)
    ensures out == RankCandidates(base, supplemental, affinities, signals, transient, limit, supplementLimit)
  {
    var byEntry := BestHits(affinities);
    ghost var scores := Scores(affinities);
    var candidates := Gather(base, supplemental, byEntry, scores, supplementLimit);
    var ranked := Walk(candidates, byEntry, scores, signals, transient);
    ranked := First(Sort(ranked), limit);
    out := [];
    for i := 0 to |ranked|
      invariant out == Items(ranked)[..i]
    {
      out := out + [ranked[i].item];
    }
  }

  /** `into_values`: the entries come in an order nobody chose. */
  method Walk(candidates: Candidates, byEntry: map<nat, AffinityHit>, ghost scores: map<nat, real>, signals: map<nat, Signal>,
              transient: set<nat>) returns (fused: seq<Placed<Fused>>)
    requires Carries(byEntry, scores)
    ensures Sort(fused) == Ranked(candidates, scores, signals, transient)
  {
    fused := [];
    var left := candidates.Keys;
    ghost var walked: seq<nat> := [];
    while left != {}
      invariant Walked(walked, left, candidates)
      invariant fused == FuseAll(candidates, walked, scores, signals, transient)
      decreases |left|
    {
      var id: nat :| id in left;
      var affinity := if id in byEntry then byEntry[id].score else 0.0;
      var factor := if id in signals then signals[id].factor else 1.0;
      var score := (candidates[id].fusion + affinity) * factor * (if id in transient then 0.5 else 1.0);
      assert affinity == AffinityOf(scores, id) && factor == FactorOf(signals, id);
      assert score == Score(candidates[id], id, scores, signals, transient);
      FuseNext(candidates, walked, id, scores, signals, transient);
      WalkNext(walked, left, candidates, id);
      fused := fused + [Placed(Rank(score, candidates[id].fusion, id, 0),
                               Fused(candidates[id].item, score, affinity, factor, id in byEntry,
                                     if id in signals then Some(signals[id]) else None))];
      walked := walked + [id];
      left := left - {id};
    }
    WalkOrderDoesNotMatter(candidates, walked, scores, signals, transient);
  }

  ghost predicate Walked(walked: seq<nat>, left: set<nat>, m: Candidates) {
    && Distinct(walked) && left <= m.Keys
    && (forall id :: id in walked ==> id in m)
    && (forall id :: id in m ==> (id in left <==> id !in walked))
  }

  lemma {:induction false} WalkNext(walked: seq<nat>, left: set<nat>, m: Candidates, id: nat)
    requires Walked(walked, left, m) && id in left
    ensures Walked(walked + [id], left - {id}, m)
  {
    DistinctConcat(walked, [id]);
  }

  lemma {:induction false} FuseNext(m: Candidates, walked: seq<nat>, id: nat, scores: map<nat, real>, signals: map<nat, Signal>, transient: set<nat>)
    requires id in m && forall x :: x in walked ==> x in m
    ensures forall x :: x in walked + [id] ==> x in m
    ensures FuseAll(m, walked + [id], scores, signals, transient) ==
            FuseAll(m, walked, scores, signals, transient) + [Fuse(m[id], id, scores, signals, transient)]
  {
  }

  ghost predicate Carries(byEntry: map<nat, AffinityHit>, scores: map<nat, real>) {
    byEntry.Keys == scores.Keys && forall id :: id in byEntry ==> byEntry[id].score == scores[id]
  }

  method BestHits(affinities: seq<AffinityHit>) returns (byEntry: map<nat, AffinityHit>)
    ensures Carries(byEntry, Scores(affinities))
  {
    byEntry := map[];
    for i := 0 to |affinities|
      invariant Carries(byEntry, Scores(affinities[..i]))
    {
      assert affinities[..i + 1][..i] == affinities[..i];
      var hit := affinities[i];
      if hit.entry !in byEntry || hit.score > byEntry[hit.entry].score {
        byEntry := byEntry[hit.entry := hit];
      }
    }
    assert affinities[..|affinities|] == affinities;
  }

  method Gather(base: seq<Item>, supplemental: seq<Item>, byEntry: map<nat, AffinityHit>, ghost scores: map<nat, real>, limit: nat)
    returns (candidates: Candidates)
    requires Carries(byEntry, scores)
    ensures candidates == Pool(base, supplemental, scores, limit)
  {
    candidates := map[];
    for i := 0 to |base|
      invariant candidates == FromBase(base[..i])
    {
      assert base[..i + 1][..i] == base[..i];
      if base[i].entry.Some? && base[i].entry.value !in candidates {
        candidates := candidates[base[i].entry.value := Candidate(base[i], FusionOf(base[i]))];
      }
    }
    assert base[..|base|] == base;
    var added, i := 0, 0;
    while i < |supplemental|
      invariant i <= |supplemental| && added <= limit
      invariant Admission(candidates, added) == AdmitAll(FromBase(base), scores, supplemental[..i], limit)
    {
      if added == limit {
        FullAdmitsNoMore(FromBase(base), scores, supplemental, i, limit);
        return;
      }
      var item := supplemental[i];
      assert supplemental[..i + 1][..i] == supplemental[..i];
      if item.entry.Some? && item.entry.value !in candidates && item.entry.value in byEntry {
        candidates := candidates[item.entry.value := Candidate(item.(fusion := Some(0.0)), 0.0)];
        added := added + 1;
      }
      i := i + 1;
    }
    assert supplemental[..|supplemental|] == supplemental;
  }

  lemma {:induction false} FullAdmitsNoMore(m: Candidates, scores: map<nat, real>, supplemental: seq<Item>, n: nat, limit: nat)
    requires n <= |supplemental| && AdmitAll(m, scores, supplemental[..n], limit).added == limit
    ensures AdmitAll(m, scores, supplemental, limit) == AdmitAll(m, scores, supplemental[..n], limit)
  {
    if n == |supplemental| {
      assert supplemental[..n] == supplemental;
    } else {
      assert supplemental[..|supplemental| - 1][..n] == supplemental[..n];
      FullAdmitsNoMore(m, scores, supplemental[..|supplemental| - 1], n, limit);
    }
  }
}
