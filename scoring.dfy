/**
  The aggregation pipeline of the recommendation service, as pure functions:
  match (per user) -> group by product -> raw score -> count factor -> capped,
  rounded score -> projection -> sort by score, descending.

  Counts, weights and count-factor tiers are exact. The floating-point steps
  (the division by count, the natural logarithm and rounding to two decimal
  places) are uninterpreted: they are the fields of a `FloatOps` value.
 */
module Scoring {
  import opened Models
  import opened Seqs

  // ---------------------------------------------------------------------------
  // Sequence helpers

  predicate NoDuplicates<T(==)>(s: seq<T>) {
    forall i, j :: 0 <= i < j < |s| ==> s[i] != s[j]
  }

  /** The distinct elements of `s`, in order of first occurrence. */
  function Distinct<T(==,!new)>(s: seq<T>): (r: seq<T>)
    ensures NoDuplicates(r)
    ensures forall x :: x in r <==> x in s
  {
    if s == [] then []
    else
      var d := Distinct(s[..|s| - 1]);
      assert s == s[..|s| - 1] + [s[|s| - 1]];
      if s[|s| - 1] in d then d else d + [s[|s| - 1]]
  }

  lemma {:induction false} NoDuplicatesCounts<T>(s: seq<T>)
    requires NoDuplicates(s)
    ensures forall x :: multiset(s)[x] <= 1
  {
    if s != [] {
      assert s == [s[0]] + s[1..];
      assert s[0] !in s[1..];
      NoDuplicatesCounts(s[1..]);
    }
  }

  lemma TwoOccurrences<T>(s: seq<T>, i: nat, j: nat)
    requires i < j < |s|
    ensures s[i] == s[j] ==> multiset(s)[s[i]] >= 2
  {
    assert s == s[..j] + s[j..];
    assert s[i] in s[..j];
    assert s[j] in s[j..];
    assert multiset(s)[s[i]] == multiset(s[..j])[s[i]] + multiset(s[j..])[s[i]];
  }

  lemma CountsNoDuplicates<T>(s: seq<T>)
    requires forall x :: multiset(s)[x] <= 1
    ensures NoDuplicates(s)
  {
    forall i, j | 0 <= i < j < |s|
      ensures s[i] != s[j]
    {
      TwoOccurrences(s, i, j);
    }
  }

  /** A permutation of a sequence without duplicates has no duplicates. */
  lemma PermutationNoDuplicates<T>(a: seq<T>, b: seq<T>)
    requires NoDuplicates(a) && multiset(a) == multiset(b)
    ensures NoDuplicates(b)
  {
    NoDuplicatesCounts(a);
    CountsNoDuplicates(b);
  }

  // ---------------------------------------------------------------------------
  // The $group stage

  /** What `$group` by productId accumulates for one product. */
  datatype ProductStats = ProductStats(
    productId: string,
    count: nat,
    lastInteraction: nat,
    viewCount: nat,
    cartAddCount: nat,
    purchaseCount: nat)

  function ProductIds(events: seq<Event>): (r: seq<string>)
    ensures |r| == |events|
    ensures forall i :: 0 <= i < |events| ==> r[i] == events[i].productId
  {
    seq(|events|, i requires 0 <= i < |events| => events[i].productId)
  }

  function OfProduct(events: seq<Event>, productId: string): seq<Event> {
    Filter(events, (e: Event) => e.productId == productId)
  }

  /** The `$sum` of a `$cond` on `eventType == t`: how many events have type `t`. */
  function CountOfType(events: seq<Event>, t: string): (n: nat)
    ensures n <= |events|
  {
    if events == [] then 0
    else (if events[0].eventType == t then 1 else 0) + CountOfType(events[1..], t)
  }

  /** The `$max` of the timestamps (0 for no events). */
  function LastInteraction(events: seq<Event>): (r: nat)
    ensures forall e :: e in events ==> e.timestamp <= r
    ensures events != [] ==> exists e :: e in events && e.timestamp == r
  {
    if events == [] then 0
    else
      var rest := LastInteraction(events[1..]);
      if events[0].timestamp >= rest then events[0].timestamp else rest
  }

  function StatsOf(events: seq<Event>, productId: string): ProductStats {
    var m := OfProduct(events, productId);
    ProductStats(productId, |m|, LastInteraction(m),
                 CountOfType(m, View), CountOfType(m, CartAdd), CountOfType(m, Purchase))
  }

  /** One entry per distinct productId, in order of first occurrence. */
  function Group(events: seq<Event>): (r: seq<ProductStats>)
  {
    var ids := Distinct(ProductIds(events));
    seq(|ids|, i requires 0 <= i < |ids| => StatsOf(events, ids[i]))
  }

  /** Every event has one of the three known types, so the three `$cond` sums add up to `count`. */
  lemma {:induction false} CountIsSumOfTypes(m: seq<Event>)
    requires forall e :: e in m ==> KnownEventType(e.eventType)
    ensures |m| == CountOfType(m, View) + CountOfType(m, CartAdd) + CountOfType(m, Purchase)
  {
    if m != [] {
      assert m[0] in m;
      CountIsSumOfTypes(m[1..]);
    }
  }

  lemma StatsOfSeenProduct(events: seq<Event>, productId: string)
    requires exists e :: e in events && e.productId == productId
    ensures StatsOf(events, productId).count >= 1
  {
    var e :| e in events && e.productId == productId;
    assert e in OfProduct(events, productId);
  }

  // ---------------------------------------------------------------------------
  // The scoring stages

  /** Per-event weights of the raw score. */
  datatype Weights = Weights(view: nat, cartAdd: nat, purchase: nat)

  /** Per-user recommendations weigh a purchase most. */
  const UserWeights: Weights := Weights(1, 3, 5)
  /** Trending weighs a view most. */
  const TrendingWeights: Weights := Weights(5, 3, 2)

  /** The weighted sum of the per-type counts. */
  function RawScore(s: ProductStats, w: Weights): (r: nat)
    ensures r == 0 <==> (w.view == 0 || s.viewCount == 0) && (w.cartAdd == 0 || s.cartAddCount == 0)
                        && (w.purchase == 0 || s.purchaseCount == 0)
    ensures r >= w.view * s.viewCount && r >= w.cartAdd * s.cartAddCount && r >= w.purchase * s.purchaseCount
  {
    w.view * s.viewCount + w.cartAdd * s.cartAddCount + w.purchase * s.purchaseCount
  }

  /** The count factor in tenths: 2.0, 1.5, 1.2 or 1.0. */
  function CountFactorTenths(count: nat): (f: nat)
    ensures 10 <= f <= 20
  {
    if count >= 100 then 20
    else if count >= 50 then 15
    else if count >= 10 then 12
    else 10
  }

  lemma CountFactorMonotone(a: nat, b: nat)
    requires a <= b
    ensures CountFactorTenths(a) <= CountFactorTenths(b)
  {
  }

  /** Each threshold selects the higher tier; one below it selects the lower one. */
  lemma CountFactorBoundaries()
    ensures CountFactorTenths(9) == 10 && CountFactorTenths(10) == 12
    ensures CountFactorTenths(49) == 12 && CountFactorTenths(50) == 15
    ensures CountFactorTenths(99) == 15 && CountFactorTenths(100) == 20
  {
  }

  /** The floating-point operations the pipeline relies on, left uninterpreted. */
  datatype FloatOps = FloatOps(divide: (nat, nat) -> real, ln: nat -> real, round2: real -> real)

  /** The least a sound implementation of `FloatOps` gives: a non-negative average,
      ln(n) >= 0 for n >= 2, and rounding that stays within [0, 10]. */
  ghost predicate SoundOps(ops: FloatOps) {
    && (forall a: nat, b: nat :: 1 <= b ==> 0.0 <= ops.divide(a, b))
    && (forall n: nat :: 2 <= n ==> 0.0 <= ops.ln(n))
    && (forall x: real :: 0.0 <= x <= ScoreCap ==> 0.0 <= ops.round2(x) <= ScoreCap)
  }

  const ScoreCap: real := 10.0

  /** `$min` of a value and the cap. */
  function Cap(x: real): (r: real)
    ensures r <= ScoreCap
    ensures x <= ScoreCap ==> r == x
    ensures x >= ScoreCap ==> r == ScoreCap
  {
    if x < ScoreCap then x else ScoreCap
  }

  /** (rawScore / count) * countFactor * ln(count + 1), before capping. */
  function Unrounded(s: ProductStats, w: Weights, ops: FloatOps): real {
    ops.divide(RawScore(s, w), s.count) * (CountFactorTenths(s.count) as real / 10.0) * ops.ln(s.count + 1)
  }

  /**
    The capped score rounded to two places: anything at or above the cap rounds
    as the cap itself, and a non-negative value stays in [0, 10] under sound
    operations.
   */
  function Score(s: ProductStats, w: Weights, ops: FloatOps): (r: real)
    ensures Unrounded(s, w, ops) >= ScoreCap ==> r == ops.round2(ScoreCap)
    ensures SoundOps(ops) && 0.0 <= Unrounded(s, w, ops) ==> 0.0 <= r <= ScoreCap
  {
    ops.round2(Cap(Unrounded(s, w, ops)))
  }

  lemma NonNegativeProduct(a: real, b: real, c: real)
    requires 0.0 <= a && 0.0 <= b && 0.0 <= c
    ensures 0.0 <= a * b * c
  {
    assert 0.0 <= a * b;
  }

  /** For every product with at least one event the score lies in [0, 10]. */
  lemma ScoreInRange(s: ProductStats, w: Weights, ops: FloatOps)
    requires SoundOps(ops) && s.count >= 1
    ensures 0.0 <= Score(s, w, ops) <= ScoreCap
  {
    var a := ops.divide(RawScore(s, w), s.count);
    var l := ops.ln(s.count + 1);
    NonNegativeProduct(a, CountFactorTenths(s.count) as real / 10.0, l);
    var c := Cap(Unrounded(s, w, ops));
    assert 0.0 <= c <= ScoreCap;
  }

  /** The projected pipeline output for one product. */
  datatype ProductScore = ProductScore(
    productId: string,
    count: nat,
    lastInteraction: nat,
    viewCount: nat,
    cartAddCount: nat,
    purchaseCount: nat,
    score: real)

  function Scored(s: ProductStats, w: Weights, ops: FloatOps): ProductScore {
    ProductScore(s.productId, s.count, s.lastInteraction, s.viewCount, s.cartAddCount, s.purchaseCount, Score(s, w, ops))
  }

  function ScoreAll(groups: seq<ProductStats>, w: Weights, ops: FloatOps): (r: seq<ProductScore>)
    ensures |r| == |groups|
    ensures forall i :: 0 <= i < |groups| ==> r[i] == Scored(groups[i], w, ops)
  {
    seq(|groups|, i requires 0 <= i < |groups| => Scored(groups[i], w, ops))
  }

  // ---------------------------------------------------------------------------
  // The $sort stage: by score, descending

  predicate SortedDesc(s: seq<ProductScore>) {
    forall i, j :: 0 <= i < j < |s| ==> s[i].score >= s[j].score
  }

  function Insert(x: ProductScore, s: seq<ProductScore>): (r: seq<ProductScore>)
    requires SortedDesc(s)
    ensures SortedDesc(r)
    ensures multiset(r) == multiset(s) + multiset{x}
    ensures |r| == |s| + 1
    ensures r[0] == x || (s != [] && r[0] == s[0])
  {
    if s == [] || x.score >= s[0].score then [x] + s
    else
      var t := Insert(x, s[1..]);
      assert s == [s[0]] + s[1..];
      [s[0]] + t
  }

  function SortByScore(s: seq<ProductScore>): (r: seq<ProductScore>)
    ensures SortedDesc(r)
    ensures multiset(r) == multiset(s)
    ensures |r| == |s|
  {
    if s == [] then []
    else
      assert s == [s[0]] + s[1..];
      Insert(s[0], SortByScore(s[1..]))
  }

  // ---------------------------------------------------------------------------
  // The two pipelines

  function Aggregate(events: seq<Event>, w: Weights, ops: FloatOps): seq<ProductScore> {
    SortByScore(ScoreAll(Group(events), w, ops))
  }

  /** The `$match` on userId. */
  function UserEvents(events: seq<Event>, userId: string): seq<Event> {
    Filter(events, (e: Event) => e.userId == userId)
  }

  /** The per-user pipeline of the bulk recompute. */
  function UserPipeline(events: seq<Event>, userId: string, ops: FloatOps): (r: seq<ProductScore>)
    ensures SortedDesc(r)
    ensures |r| == |Distinct(ProductIds(UserEvents(events, userId)))|
    ensures forall i, j :: 0 <= i < j < |r| ==> r[i].productId != r[j].productId
  {
    AggregateExact(UserEvents(events, userId), UserWeights, ops);
    Aggregate(UserEvents(events, userId), UserWeights, ops)
  }

  /** The trending pipeline: every event, trending weights. */
  function TrendingPipeline(events: seq<Event>, ops: FloatOps): (r: seq<ProductScore>)
    ensures SortedDesc(r)
    ensures |r| == |Distinct(ProductIds(events))|
    ensures forall i, j :: 0 <= i < j < |r| ==> r[i].productId != r[j].productId
  {
    AggregateExact(events, TrendingWeights, ops);
    Aggregate(events, TrendingWeights, ops)
  }

  /** Decoding into the stored record keeps productId, score, count and lastInteraction. */
  function Project(p: ProductScore): (r: ProductRecommendation)
    ensures r.productId == p.productId && r.score == p.score
    ensures r.count == p.count && r.lastInteraction == p.lastInteraction
  {
    ProductRecommendation(p.productId, p.score, p.count, p.lastInteraction)
  }

  function ProjectAll(ps: seq<ProductScore>): (r: seq<ProductRecommendation>)
    ensures |r| == |ps|
    ensures forall i :: 0 <= i < |ps| ==> r[i] == Project(ps[i])
    ensures SortedDesc(ps) ==> forall i, j :: 0 <= i < j < |r| ==> r[i].score >= r[j].score
    ensures (forall i, j :: 0 <= i < j < |ps| ==> ps[i].productId != ps[j].productId) ==>
              forall i, j :: 0 <= i < j < |r| ==> r[i].productId != r[j].productId
  {
    seq(|ps|, i requires 0 <= i < |ps| => Project(ps[i]))
  }

  /** Before sorting: entry i is the scored accumulation of the i-th distinct product. */
  lemma ScoredGroups(events: seq<Event>, w: Weights, ops: FloatOps)
    ensures var ids := Distinct(ProductIds(events));
      var s := ScoreAll(Group(events), w, ops);
      && |s| == |ids|
      && (forall i :: 0 <= i < |s| ==>
            s[i].productId == ids[i] && s[i] == Scored(StatsOf(events, ids[i]), w, ops) && s[i].count >= 1)
      && NoDuplicates(s)
  {
    var ids := Distinct(ProductIds(events));
    var s := ScoreAll(Group(events), w, ops);
    forall i | 0 <= i < |s|
      ensures s[i].count >= 1
    {
      assert ids[i] in ProductIds(events);
      var k :| 0 <= k < |events| && ProductIds(events)[k] == ids[i];
      assert events[k] in events;
      StatsOfSeenProduct(events, ids[i]);
    }
    forall i, j | 0 <= i < j < |s|
      ensures s[i] != s[j]
    {
      assert s[i].productId == ids[i] && s[j].productId == ids[j];
    }
  }

  /**
    The result of a pipeline, whatever the order of grouping: sorted by score,
    exactly one entry per product that has events, and each entry is the
    scored `$group` accumulation of that product's events.
   */
  lemma AggregateExact(events: seq<Event>, w: Weights, ops: FloatOps)
    ensures var r := Aggregate(events, w, ops);
      && SortedDesc(r)
      && |r| == |Distinct(ProductIds(events))|
      && (forall p :: p in r ==> p == Scored(StatsOf(events, p.productId), w, ops) && p.count >= 1)
      && (forall e :: e in events ==> Scored(StatsOf(events, e.productId), w, ops) in r)
      && (forall i, j :: 0 <= i < j < |r| ==> r[i].productId != r[j].productId)
  {
    var ids := Distinct(ProductIds(events));
    var s := ScoreAll(Group(events), w, ops);
    var r := SortByScore(s);
    assert r == Aggregate(events, w, ops);
    assert multiset(r) == multiset(s);
    ScoredGroups(events, w, ops);
    EntriesOfPermutation(events, w, ops, s, r);
    forall e | e in events
      ensures e.productId in ids
    {
      var k :| 0 <= k < |events| && events[k] == e;
      assert ProductIds(events)[k] == e.productId;
    }
    CoveredByPermutation(events, w, ops, ids, s, r);
    PermutationNoDuplicates(s, r);
    forall i, j | 0 <= i < j < |r|
      ensures r[i].productId != r[j].productId
    {
      assert r[i] in r && r[j] in r;
    }
  }

  lemma EntriesOfPermutation(events: seq<Event>, w: Weights, ops: FloatOps, s: seq<ProductScore>, r: seq<ProductScore>)
    requires forall i :: 0 <= i < |s| ==> s[i] == Scored(StatsOf(events, s[i].productId), w, ops) && s[i].count >= 1
    requires multiset(r) == multiset(s)
    ensures forall p :: p in r ==> p == Scored(StatsOf(events, p.productId), w, ops) && p.count >= 1
  {
    forall p | p in r
      ensures p == Scored(StatsOf(events, p.productId), w, ops) && p.count >= 1
    {
      assert p in multiset(s);
    }
  }

  lemma CoveredByPermutation(events: seq<Event>, w: Weights, ops: FloatOps, ids: seq<string>, s: seq<ProductScore>, r: seq<ProductScore>)
    requires forall e :: e in events ==> e.productId in ids
    requires |s| == |ids| && forall i :: 0 <= i < |s| ==> s[i] == Scored(StatsOf(events, ids[i]), w, ops)
    requires multiset(r) == multiset(s)
    ensures forall e :: e in events ==> Scored(StatsOf(events, e.productId), w, ops) in r
  {
    forall e | e in events
      ensures Scored(StatsOf(events, e.productId), w, ops) in r
    {
      var i :| 0 <= i < |ids| && ids[i] == e.productId;
      assert s[i] in multiset(r);
    }
  }

  /** When every recorded event has a known type, each entry's count is the sum of its three per-type counts. */
  lemma AggregateCountsAddUp(events: seq<Event>, w: Weights, ops: FloatOps)
    requires forall e :: e in events ==> KnownEventType(e.eventType)
    ensures forall p :: p in Aggregate(events, w, ops) ==>
              p.count == p.viewCount + p.cartAddCount + p.purchaseCount
  {
    AggregateExact(events, w, ops);
    forall p | p in Aggregate(events, w, ops)
      ensures p.count == p.viewCount + p.cartAddCount + p.purchaseCount
    {
      CountIsSumOfTypes(OfProduct(events, p.productId));
    }
  }

  /** A user's recommendations are computed from that user's events only:
      appending events of other users changes nothing. */
  lemma UserPipelineIgnoresOthers(events: seq<Event>, extra: seq<Event>, userId: string, ops: FloatOps)
    requires forall e :: e in extra ==> e.userId != userId
    ensures UserPipeline(events + extra, userId, ops) == UserPipeline(events, userId, ops)
  {
    var p := (e: Event) => e.userId == userId;
    FilterAppend(events, extra, p);
    FilterNone(extra, p);
    assert UserEvents(events + extra, userId) == UserEvents(events, userId) + [];
    assert UserEvents(events, userId) + [] == UserEvents(events, userId);
  }

  /** Every entry of a user's recommendations counts only that user's events. */
  lemma UserPipelineCounts(events: seq<Event>, userId: string, ops: FloatOps)
    ensures forall p :: p in UserPipeline(events, userId, ops) ==>
      p == Scored(StatsOf(UserEvents(events, userId), p.productId), UserWeights, ops)
      && 1 <= p.count
      && (forall e :: e in OfProduct(UserEvents(events, userId), p.productId) ==> e.userId == userId)
  {
    AggregateExact(UserEvents(events, userId), UserWeights, ops);
  }

  /** Every score either pipeline emits is in [0, 10]. */
  lemma AggregateScoresInRange(events: seq<Event>, w: Weights, ops: FloatOps)
    requires SoundOps(ops)
    ensures forall p :: p in Aggregate(events, w, ops) ==> 0.0 <= p.score <= ScoreCap
  {
    AggregateExact(events, w, ops);
    forall p | p in Aggregate(events, w, ops)
      ensures 0.0 <= p.score <= ScoreCap
    {
      ScoreInRange(StatsOf(events, p.productId), w, ops);
    }
  }
}
