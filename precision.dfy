/**
 * The precision tiers of the game (shared/src/config.ts) and the rule that
 * classifies a guess distance against the tier the player requested.
 */
module Precision {
  import opened Wrappers

  /** The three precision tiers, finest first. */
  datatype PrecisionLevel = EXACT | NARROW | VAGUE

  /** PRECISION_RADII_KM: a guess counts at a tier when it lands within this radius. */
  function RadiusKm(p: PrecisionLevel): (r: nat)
    ensures 0 < r
  {
    match p
    case EXACT => 50
    case NARROW => 100
    case VAGUE => 250
  }

  /** PRECISION_POINTS: what a correct guess at a tier is worth. */
  function Points(p: PrecisionLevel): (r: nat)
    ensures 0 < r
  {
    match p
    case EXACT => 25
    case NARROW => 10
    case VAGUE => 5
  }

  lemma RadiiStrictlyIncrease()
    ensures RadiusKm(EXACT) < RadiusKm(NARROW) < RadiusKm(VAGUE)
  {
  }

  lemma PointsStrictlyDecrease()
    ensures Points(EXACT) > Points(NARROW) > Points(VAGUE)
  {
  }

  /** The two tables agree: a tighter radius is always worth more points. */
  lemma SmallerRadiusMorePoints(a: PrecisionLevel, b: PrecisionLevel)
    ensures RadiusKm(a) < RadiusKm(b) <==> Points(a) > Points(b)
    ensures RadiusKm(a) == RadiusKm(b) <==> a == b
  {
  }

  /** Every tier, coarsest first (the order in which retries are offered). */
  const CoarsestFirst: seq<PrecisionLevel> := [VAGUE, NARROW, EXACT]

  /** Radii strictly decrease along `s`, so `s` is coarsest-first and has no repeats. */
  predicate CoarsestFirstOrdered(s: seq<PrecisionLevel>)
  {
    forall i, j :: 0 <= i < j < |s| ==> RadiusKm(s[i]) > RadiusKm(s[j])
  }

  /** The tiers of `tiers` whose radius is strictly below `bound`, in their original order. */
  function FinerThan(tiers: seq<PrecisionLevel>, bound: nat): (r: seq<PrecisionLevel>)
    ensures forall p :: p in r <==> p in tiers && RadiusKm(p) < bound
    ensures CoarsestFirstOrdered(tiers) ==> CoarsestFirstOrdered(r)
  {
    if tiers == [] then []
    else
      var rest := FinerThan(tiers[1..], bound);
      HeadOutranksTail(tiers);
      if RadiusKm(tiers[0]) < bound then
        PrependKeepsOrder(tiers[0], rest);
        [tiers[0]] + rest
      else
        rest
  }

  /** In a coarsest-first list the head is coarser than every later tier, and the tail is coarsest-first. */
  lemma HeadOutranksTail(tiers: seq<PrecisionLevel>)
    requires tiers != []
    ensures CoarsestFirstOrdered(tiers) ==> CoarsestFirstOrdered(tiers[1..])
    ensures CoarsestFirstOrdered(tiers) ==> forall q :: q in tiers[1..] ==> RadiusKm(q) < RadiusKm(tiers[0])
  {
    if CoarsestFirstOrdered(tiers) {
      forall q | q in tiers[1..]
        ensures RadiusKm(q) < RadiusKm(tiers[0])
      {
        var m :| 0 <= m < |tiers[1..]| && tiers[1..][m] == q;
        assert tiers[m + 1] == q;
      }
    }
  }

  /** A tier coarser than every tier of a coarsest-first list can go in front of it. */
  lemma PrependKeepsOrder(x: PrecisionLevel, rest: seq<PrecisionLevel>)
    ensures CoarsestFirstOrdered(rest) && (forall q :: q in rest ==> RadiusKm(q) < RadiusKm(x)) ==>
      CoarsestFirstOrdered([x] + rest)
  {
    if CoarsestFirstOrdered(rest) && (forall q :: q in rest ==> RadiusKm(q) < RadiusKm(x)) {
      var s := [x] + rest;
      forall i, j | 0 <= i < j < |s|
        ensures RadiusKm(s[i]) > RadiusKm(s[j])
      {
        assert s[j] == rest[j - 1];
        if i > 0 {
          assert s[i] == rest[i - 1];
        }
      }
    }
  }

  /** The outcome of classifying one guess. */
  datatype Evaluation = Evaluation(
    isCorrect: bool,
    achievedPrecision: Option<PrecisionLevel>,
    availablePrecisions: seq<PrecisionLevel>)

  /**
   * The tier rule: a guess is correct at the requested tier exactly when its
   * distance is strictly below that tier's radius; a correct guess achieves
   * exactly the requested tier and opens every strictly finer tier for a
   * retry; a miss achieves nothing and opens nothing.
   */
  function Evaluate(distanceKm: real, requested: PrecisionLevel): (e: Evaluation)
    ensures e.isCorrect <==> distanceKm < RadiusKm(requested) as real
    ensures e.achievedPrecision == (if e.isCorrect then Some(requested) else None)
    ensures !e.isCorrect ==> e.availablePrecisions == []
    ensures e.isCorrect ==>
      forall q :: q in e.availablePrecisions <==> RadiusKm(q) < RadiusKm(requested)
    ensures CoarsestFirstOrdered(e.availablePrecisions)
  {
    if distanceKm < RadiusKm(requested) as real then
      Evaluation(true, Some(requested), FinerThan(CoarsestFirst, RadiusKm(requested)))
    else
      Evaluation(false, None, [])
  }

  /** The retry offers, tier by tier, as the precision-level tests pin them down. */
  lemma RetryOffers(distanceKm: real, requested: PrecisionLevel)
    requires distanceKm < RadiusKm(requested) as real
    ensures Evaluate(distanceKm, requested).availablePrecisions ==
      match requested
      case VAGUE => [NARROW, EXACT]
      case NARROW => [EXACT]
      case EXACT => []
  {
    var tail1, tail2: seq<PrecisionLevel> := [NARROW, EXACT], [EXACT];
    assert CoarsestFirst[1..] == tail1 && tail1[1..] == tail2 && tail2[1..] == [];
    var bound := RadiusKm(requested);
    assert FinerThan(tail2, bound) == if requested == EXACT then [] else [EXACT];
    assert FinerThan(tail1, bound) == if requested == VAGUE then [NARROW, EXACT] else FinerThan(tail2, bound);
  }

  /** A guess exactly on a tier's radius is a miss at that tier. */
  lemma BoundaryIsMiss(requested: PrecisionLevel)
    ensures Evaluate(RadiusKm(requested) as real, requested) ==
      Evaluation(false, None, [])
  {
  }

  /** A perfect guess achieves exactly the requested tier, never a finer one. */
  lemma NoUpgrade(requested: PrecisionLevel)
    ensures Evaluate(0.0, requested).achievedPrecision == Some(requested)
  {
  }

  /** Only the requested tier is tested: a miss at EXACT is not rescued by NARROW. */
  lemma NoFallback(distanceKm: real)
    requires RadiusKm(EXACT) as real <= distanceKm < RadiusKm(NARROW) as real
    ensures !Evaluate(distanceKm, EXACT).isCorrect
    ensures Evaluate(distanceKm, NARROW).isCorrect
  {
  }

  /** Being correct at a tier implies being correct at every coarser tier. */
  lemma CorrectIsMonotone(distanceKm: real, p: PrecisionLevel, q: PrecisionLevel)
    requires Evaluate(distanceKm, p).isCorrect
    requires RadiusKm(p) <= RadiusKm(q)
    ensures Evaluate(distanceKm, q).isCorrect
  {
  }

  /**
   * Retrying at an offered tier can only narrow the offer: its own offers are
   * among the earlier ones and no longer include the tier just retried.
   */
  lemma RetryNarrowsOffer(d1: real, p: PrecisionLevel, d2: real, q: PrecisionLevel)
    requires q in Evaluate(d1, p).availablePrecisions
    ensures forall x :: x in Evaluate(d2, q).availablePrecisions ==>
      x in Evaluate(d1, p).availablePrecisions
    ensures q !in Evaluate(d2, q).availablePrecisions
    ensures |Evaluate(d2, q).availablePrecisions| < |Evaluate(d1, p).availablePrecisions|
  {
    RetryOffers(d1, p);
    if d2 < RadiusKm(q) as real {
      RetryOffers(d2, q);
    }
  }
}
