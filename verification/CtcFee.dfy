/** The cost-to-close safety fee of src/pricingEngine.ts. */
module CtcFee {
  import opened Options
  import opened Reals
  import IvLadder

  type Leg = IvLadder.Leg
  type Snapshot = IvLadder.Snapshot

  // The entries of the risk controls for the tier at hand, defaults filled in.
  datatype Controls = Controls(
    ctcEnabled: bool,
    floorBuckets: seq<real>,
    bufferPct: real,
    marginPct: real,
    opsBuffer: real
  )

  datatype Params = Params(
    tierName: string,
    drawdownPct: real,
    spotPrice: real,
    positionSize: real,
    leverage: real
  )

  datatype CtcResult = CtcResult(feeUsdc: Option<real>, baseIv: Option<real>, hedgeIv: Option<real>)

  datatype Weight = Weight(tenorDays: real, weight: real)

  const WEIGHTS := [Weight(1.0, 0.2), Weight(3.0, 0.3), Weight(7.0, 0.5)]

  predicate Priced(leg: Leg) {
    leg.markPrice.Some? && leg.markPrice.value != 0.0
  }

  function PricedLegs(legs: seq<Leg>): (priced: seq<Leg>)
    ensures forall leg :: leg in priced ==> leg in legs && Priced(leg)
    ensures forall leg :: leg in legs && Priced(leg) ==> leg in priced
  {
    if |legs| == 0 then []
    else
      assert legs == [legs[0]] + legs[1..];
      (if Priced(legs[0]) then [legs[0]] else []) + PricedLegs(legs[1..])
  }

  /** The first bucket nearest to the value, or the value itself when there are no buckets. */
  ghost predicate IsBucket(value: real, buckets: seq<real>, bucket: real) {
    if |buckets| == 0 then bucket == value
    else
      exists k :: 0 <= k < |buckets| && buckets[k] == bucket
        && forall i :: 0 <= i < |buckets| ==>
             if i < k then Abs(value - buckets[i]) > Abs(value - bucket)
             else Abs(value - buckets[i]) >= Abs(value - bucket)
  }

  method SelectClosestBucket(value: real, buckets: seq<real>) returns (best: real)
    ensures IsBucket(value, buckets, best)
  {
    if |buckets| == 0 { return value; }
    best := buckets[0];
    var bestDiff := Abs(value - best);
    ghost var k := 0;
    for n := 0 to |buckets|
      invariant 0 <= k < |buckets| && k <= n && buckets[k] == best && bestDiff == Abs(value - best)
      invariant forall i :: 0 <= i < n ==>
                  if i < k then Abs(value - buckets[i]) > bestDiff else Abs(value - buckets[i]) >= bestDiff
    {
      var diff := Abs(value - buckets[n]);
      if diff < bestDiff { best, bestDiff, k := buckets[n], diff, n; }
    }
  }

  function TenorGap(leg: Leg, tenor: real): real {
    Abs(leg.tenorDays - tenor)
  }

  function FloorGap(leg: Leg, bucket: real): real {
    Abs(leg.floorPct - bucket)
  }

  function Score(leg: Leg, tenor: real, bucket: real): real {
    TenorGap(leg, tenor) * 10.0 + FloorGap(leg, bucket)
  }

  /** legs[k] is the first of the legs with the least score. */
  ghost predicate FirstBest(legs: seq<Leg>, tenor: real, bucket: real, k: nat) {
    k < |legs| && forall i :: 0 <= i < |legs| ==>
      if i < k then Score(legs[i], tenor, bucket) > Score(legs[k], tenor, bucket)
      else Score(legs[i], tenor, bucket) >= Score(legs[k], tenor, bucket)
  }

  ghost predicate Picked(legs: seq<Leg>, tenor: real, bucket: real, leg: Option<Leg>) {
    var priced := PricedLegs(legs);
    if leg.None? then |priced| == 0
    else exists k: nat :: FirstBest(priced, tenor, bucket, k) && priced[k] == leg.value
  }

  method PickLeg(legs: seq<Leg>, tenor: real, bucket: real) returns (leg: Option<Leg>)
    ensures Picked(legs, tenor, bucket, leg)
  {
    var candidates := PricedLegs(legs);
    if |candidates| == 0 { return None; }
    var best, bestScore := candidates[0], None;
    ghost var k: nat := 0;
    for n := 0 to |candidates|
      invariant k < |candidates| && candidates[k] == best
      invariant if n == 0 then bestScore == None else bestScore == Some(Score(best, tenor, bucket)) && k < n
      invariant forall i :: 0 <= i < n ==>
                  if i < k then Score(candidates[i], tenor, bucket) > bestScore.value
                  else Score(candidates[i], tenor, bucket) >= bestScore.value
    {
      var score := Score(candidates[n], tenor, bucket);
      if bestScore.None? || score < bestScore.value { best, bestScore, k := candidates[n], Some(score), n; }
    }
    assert FirstBest(candidates, tenor, bucket, k);
    leg := Some(best);
  }

  lemma PickedUnique(legs: seq<Leg>, tenor: real, bucket: real, a: Option<Leg>, b: Option<Leg>)
    requires Picked(legs, tenor, bucket, a) && Picked(legs, tenor, bucket, b)
    ensures a == b
  {
    if a.Some? && b.Some? {
      var priced := PricedLegs(legs);
      var i: nat :| FirstBest(priced, tenor, bucket, i) && priced[i] == a.value;
      var j: nat :| FirstBest(priced, tenor, bucket, j) && priced[j] == b.value;
      assert priced[i] in priced && priced[j] in priced;
    }
  }

  predicate WholeDays(leg: Leg) {
    leg.tenorDays == leg.tenorDays.Floor as real
  }

  function WholeGap(leg: Leg, tenor: int): int {
    var d := leg.tenorDays.Floor - tenor;
    if d >= 0 then d else -d
  }

  lemma GapIsWhole(leg: Leg, tenor: int)
    requires WholeDays(leg)
    ensures TenorGap(leg, tenor as real) == WholeGap(leg, tenor) as real
  {
  }

  lemma PickedScoresLeast(legs: seq<Leg>, tenor: real, bucket: real, leg: Leg, other: Leg)
    requires Picked(legs, tenor, bucket, Some(leg)) && other in legs && Priced(other)
    ensures Score(leg, tenor, bucket) <= Score(other, tenor, bucket)
  {
    hide Score;
    var priced := PricedLegs(legs);
    var k: nat :| FirstBest(priced, tenor, bucket, k) && priced[k] == leg;
    var i :| 0 <= i < |priced| && priced[i] == other;
  }

  lemma TensFirst(a: int, b: int, x: real, y: real)
    requires 0.0 <= x < 10.0 && 0.0 <= y < 10.0 && a as real * 10.0 + x <= b as real * 10.0 + y
    ensures a < b || (a == b && x <= y)
  {
  }

  /** With whole-day tenors and floor gaps below 10, the picked leg is nearest by tenor, then by floor. */
  lemma PickedIsLexicographicallyNearest(legs: seq<Leg>, tenor: int, bucket: real, leg: Leg, other: Leg)
    requires Picked(legs, tenor as real, bucket, Some(leg)) && other in legs && Priced(other)
    requires WholeDays(leg) && WholeDays(other)
    requires FloorGap(leg, bucket) < 10.0 && FloorGap(other, bucket) < 10.0
    ensures var t, u := TenorGap(leg, tenor as real), TenorGap(other, tenor as real);
            t < u || (t == u && FloorGap(leg, bucket) <= FloorGap(other, bucket))
  {
    hide Picked, Priced, TenorGap, WholeGap;
    PickedScoresLeast(legs, tenor as real, bucket, leg, other);
    GapIsWhole(leg, tenor);
    GapIsWhole(other, tenor);
    TensFirst(WholeGap(leg, tenor), WholeGap(other, tenor), FloorGap(leg, bucket), FloorGap(other, bucket));
  }

  // ---------------------------------------------------------------------------------------------

  function FloorPrice(p: Params): real {
    p.spotPrice * (1.0 - p.drawdownPct)
  }

  function TargetUsd(p: Params, c: Controls): real {
    p.spotPrice * p.positionSize * p.leverage * p.drawdownPct * (1.0 + c.bufferPct)
  }

  /** The size of a leg that is worth its share of the target at the floor. */
  function LegSize(target: real, weight: real, intrinsic: real): real
    requires intrinsic > 0.0
  {
    target * weight / intrinsic
  }

  /** A leg with a weight can be sized when it is priced and strikes above the floor. */
  predicate Sizable(leg: Option<Leg>, floorPrice: real) {
    leg.Some? && Priced(leg.value) && leg.value.strike > floorPrice
  }

  /** No fee is quoted at all: switched off, a fixed-fee account, or no ladder. */
  predicate NotQuoted(p: Params, s: Option<Snapshot>, c: Controls) {
    !c.ctcEnabled || (p.tierName == "Pro (Bronze)" && p.leverage <= 2.0) || s.None? || |s.value.legs| == 0
  }

  /** The legs picked for the three weights are all sizable. */
  ghost predicate AllSizable(p: Params, legs: seq<Leg>, bucket: real, picked: seq<Leg>) {
    && |picked| == |WEIGHTS|
    && FloorPrice(p) > 0.0
    && forall i :: 0 <= i < |WEIGHTS| ==>
         Picked(legs, WEIGHTS[i].tenorDays, bucket, Some(picked[i])) && Sizable(Some(picked[i]), FloorPrice(p))
  }

  /** The sizes bought of the first n picked legs, times a per-leg value. */
  function Bought(picked: seq<Leg>, floorPrice: real, target: real, value: Leg -> real, n: nat): real
    requires n <= |picked| && n <= |WEIGHTS|
    requires forall i :: 0 <= i < n ==> picked[i].strike > floorPrice
  {
    if n == 0 then 0.0
    else
      Bought(picked, floorPrice, target, value, n - 1)
      + value(picked[n - 1]) * LegSize(target, WEIGHTS[n - 1].weight, picked[n - 1].strike - floorPrice)
  }

  /** What a unit of a leg costs now. */
  function UnitCost(p: Params): Leg -> real {
    (leg: Leg) => (if leg.markPrice.Some? then leg.markPrice.value else 0.0) * p.spotPrice
  }

  /** What a unit of a leg is worth at the floor. */
  function UnitIntrinsic(floorPrice: real): Leg -> real {
    (leg: Leg) => leg.strike - floorPrice
  }

  function FeeOf(p: Params, c: Controls, picked: seq<Leg>): real
    requires |picked| == |WEIGHTS| && forall i :: 0 <= i < |picked| ==> picked[i].strike > FloorPrice(p)
  {
    Bought(picked, FloorPrice(p), TargetUsd(p, c), UnitCost(p), |WEIGHTS|) * (1.0 + c.marginPct) + c.opsBuffer
  }

  ghost predicate FeeFor(p: Params, s: Snapshot, c: Controls, bucket: real, fee: Option<real>) {
    match fee
    case Some(f) => exists picked :: AllSizable(p, s.legs, bucket, picked) && f == FeeOf(p, c, picked)
    case None => forall picked :: !AllSizable(p, s.legs, bucket, picked)
  }

  /** The quote over a ladder: its volatilities, and the fee at the closest bucket. */
  ghost predicate QuoteFor(p: Params, s: Snapshot, c: Controls, r: CtcResult) {
    && r.baseIv == Some(s.baseIv) && r.hedgeIv == Some(s.hedgeIv)
    && exists bucket :: IsBucket(p.drawdownPct, c.floorBuckets, bucket) && FeeFor(p, s, c, bucket, r.feeUsdc)
  }

  method CalculateCtcSafetyFee(p: Params, s: Option<Snapshot>, c: Controls) returns (r: CtcResult)
    ensures var fixedFee := p.tierName == "Pro (Bronze)" && p.leverage <= 2.0;
            if !c.ctcEnabled || fixedFee || s.None? || s.value.legs == [] then r == CtcResult(None, None, None)
            else !NotQuoted(p, s, c) && QuoteFor(p, s.value, c, r)
  {
    if !c.ctcEnabled { return CtcResult(None, None, None); }
    if p.tierName == "Pro (Bronze)" && p.leverage <= 2.0 { return CtcResult(None, None, None); }
    if s.None? || |s.value.legs| == 0 { return CtcResult(None, None, None); }
    var bucket := SelectClosestBucket(p.drawdownPct, c.floorBuckets);
    var fee := FeeFromLegs(p, s.value, c, bucket);
    r := CtcResult(fee, Some(s.value.baseIv), Some(s.value.hedgeIv));
  }

  /** The loop over the weights: a leg that cannot be sized ends it without a fee. */
  method FeeFromLegs(p: Params, s: Snapshot, c: Controls, bucket: real) returns (fee: Option<real>)
    ensures FeeFor(p, s, c, bucket, fee)
  {
    hide Picked, Priced, LegSize, TargetUsd;
    var floorPrice := FloorPrice(p);
    if floorPrice <= 0.0 { return None; }
    var target, value := TargetUsd(p, c), UnitCost(p);
    var totalCost := 0.0;
    ghost var picked: seq<Leg> := [];
    for i := 0 to |WEIGHTS|
      invariant |picked| == i
      invariant forall j :: 0 <= j < i ==>
                  Picked(s.legs, WEIGHTS[j].tenorDays, bucket, Some(picked[j])) && Sizable(Some(picked[j]), floorPrice)
      invariant totalCost == Bought(picked, floorPrice, target, value, i)
    {
      var leg := PickLeg(s.legs, WEIGHTS[i].tenorDays, bucket);
      if !Sizable(leg, floorPrice) {
        NoFeeWithout(p, s, c, bucket, i, leg);
        return None;
      }
      var size := LegSize(target, WEIGHTS[i].weight, leg.value.strike - floorPrice);
      var legCost := value(leg.value) * size;
      totalCost := totalCost + legCost;
      BoughtPrefix(picked, leg.value, floorPrice, target, value, i);
      picked := picked + [leg.value];
    }
    fee := Some(totalCost * (1.0 + c.marginPct) + c.opsBuffer);
    assert AllSizable(p, s.legs, bucket, picked);
    assert fee.value == FeeOf(p, c, picked);
  }

  lemma NoFeeWithout(p: Params, s: Snapshot, c: Controls, bucket: real, i: nat, leg: Option<Leg>)
    requires i < |WEIGHTS| && Picked(s.legs, WEIGHTS[i].tenorDays, bucket, leg) && !Sizable(leg, FloorPrice(p))
    ensures FeeFor(p, s, c, bucket, None)
  {
    forall picked
      ensures !AllSizable(p, s.legs, bucket, picked)
    {
      if AllSizable(p, s.legs, bucket, picked) {
        PickedUnique(s.legs, WEIGHTS[i].tenorDays, bucket, leg, Some(picked[i]));
        assert false;
      }
    }
  }

  lemma {:induction false} BoughtPrefix(picked: seq<Leg>, leg: Leg, floorPrice: real, target: real,
                                        value: Leg -> real, n: nat)
    requires n <= |picked| && n <= |WEIGHTS|
    requires forall i :: 0 <= i < n ==> picked[i].strike > floorPrice
    ensures Bought(picked + [leg], floorPrice, target, value, n) == Bought(picked, floorPrice, target, value, n)
  {
    if n > 0 {
      BoughtPrefix(picked, leg, floorPrice, target, value, n - 1);
    }
  }

  /** The weights of the first n tenors. */
  function WeightSum(n: nat): real
    requires n <= |WEIGHTS|
  {
    if n == 0 then 0.0 else WeightSum(n - 1) + WEIGHTS[n - 1].weight
  }

  lemma {:induction false} LegsCoverShare(picked: seq<Leg>, f: real, target: real, n: nat)
    requires n <= |picked| && n <= |WEIGHTS|
    requires forall i :: 0 <= i < n ==> picked[i].strike > f
    ensures Bought(picked, f, target, UnitIntrinsic(f), n) == target * WeightSum(n)
  {
    hide LegSize;
    if n > 0 {
      LegsCoverShare(picked, f, target, n - 1);
      SizeTimesIntrinsic(target, WEIGHTS[n - 1].weight, picked[n - 1].strike - f);
      assert target * WeightSum(n) == target * WeightSum(n - 1) + target * WEIGHTS[n - 1].weight;
    }
  }

  lemma SizeTimesIntrinsic(target: real, weight: real, intrinsic: real)
    requires intrinsic > 0.0
    ensures intrinsic * LegSize(target, weight, intrinsic) == target * weight
  {
  }

  /** The sized legs are together worth exactly the target at the floor. */
  lemma LegsCoverTarget(p: Params, c: Controls, legs: seq<Leg>, bucket: real, picked: seq<Leg>)
    requires AllSizable(p, legs, bucket, picked)
    ensures Bought(picked, FloorPrice(p), TargetUsd(p, c), UnitIntrinsic(FloorPrice(p)), |WEIGHTS|) == TargetUsd(p, c)
  {
    hide Picked, Bought, FloorPrice, TargetUsd;
    LegsCoverShare(picked, FloorPrice(p), TargetUsd(p, c), |WEIGHTS|);
    assert WeightSum(1) == 0.2 && WeightSum(2) == 0.5 && WeightSum(3) == 1.0;
  }

  lemma {:induction false} CostScales(picked: seq<Leg>, floorPrice: real, target: real, k: real,
                                      value: Leg -> real, n: nat)
    requires n <= |picked| && n <= |WEIGHTS|
    requires forall i :: 0 <= i < n ==> picked[i].strike > floorPrice
    ensures Bought(picked, floorPrice, k * target, value, n) == k * Bought(picked, floorPrice, target, value, n)
  {
    hide LegSize;
    if n > 0 {
      CostScales(picked, floorPrice, target, k, value, n - 1);
      SizeScales(target, k, WEIGHTS[n - 1].weight, picked[n - 1].strike - floorPrice, value(picked[n - 1]));
    }
  }

  lemma SizeScales(target: real, k: real, w: real, x: real, v: real)
    requires x > 0.0
    ensures v * LegSize(k * target, w, x) == k * (v * LegSize(target, w, x))
  {
    var size := target * w / x;
    assert size * x == target * w;
    assert k * target * w == k * size * x;
    assert LegSize(k * target, w, x) == k * size;
  }

  lemma FeeOfScales(p: Params, c: Controls, picked: seq<Leg>, k: real)
    requires |picked| == |WEIGHTS| && forall i :: 0 <= i < |picked| ==> picked[i].strike > FloorPrice(p)
    ensures FloorPrice(p.(positionSize := k * p.positionSize)) == FloorPrice(p)
    ensures var q := p.(positionSize := k * p.positionSize);
            FeeOf(q, c, picked) - c.opsBuffer == k * (FeeOf(p, c, picked) - c.opsBuffer)
  {
    hide Bought, TargetUsd;
    var q := p.(positionSize := k * p.positionSize);
    TargetScales(p, c, k);
    SameUnitCost(p, k);
    SameFloorPrice(p, k);
    CostScales(picked, FloorPrice(p), TargetUsd(p, c), k, UnitCost(p), |WEIGHTS|);
    MarginScales(Bought(picked, FloorPrice(p), TargetUsd(p, c), UnitCost(p), |WEIGHTS|), 1.0 + c.marginPct, k);
  }

  lemma MarginScales(cost: real, margin: real, k: real)
    ensures k * cost * margin == k * (cost * margin)
  {
  }

  lemma SameUnitCost(p: Params, k: real)
    ensures UnitCost(p.(positionSize := k * p.positionSize)) == UnitCost(p)
  {
  }

  /** At one bucket, fee less ops buffer scales with the position size; whether there is one does not depend on it. */
  lemma FeeScales(p: Params, s: Snapshot, c: Controls, bucket: real, k: real, fee: Option<real>, scaled: Option<real>)
    requires FeeFor(p, s, c, bucket, fee)
    requires FeeFor(p.(positionSize := k * p.positionSize), s, c, bucket, scaled)
    ensures fee.Some? <==> scaled.Some?
    ensures fee.Some? ==> scaled.value - c.opsBuffer == k * (fee.value - c.opsBuffer)
  {
    hide FeeOf, FloorPrice, Picked;
    var q := p.(positionSize := k * p.positionSize);
    SameFloorPrice(p, k);
    forall picked
      ensures AllSizable(q, s.legs, bucket, picked) <==> AllSizable(p, s.legs, bucket, picked)
    {
    }
    if fee.Some? && scaled.Some? {
      var picked :| AllSizable(p, s.legs, bucket, picked) && fee.value == FeeOf(p, c, picked);
      var others :| AllSizable(q, s.legs, bucket, others) && scaled.value == FeeOf(q, c, others);
      SamePicks(p, s.legs, bucket, picked, others);
      FeeOfScales(p, c, picked, k);
    }
  }

  lemma BucketUnique(value: real, buckets: seq<real>, a: real, b: real)
    requires IsBucket(value, buckets, a) && IsBucket(value, buckets, b)
    ensures a == b
  {
  }

  /**
   * Fee less ops buffer scales with the position size, for any two results of the calculation; whether a fee is
   * quoted does not depend on the size.
   */
  lemma FeeScalesWithPosition(p: Params, s: Option<Snapshot>, c: Controls, k: real, r: CtcResult, scaled: CtcResult)
    requires !NotQuoted(p, s, c) && QuoteFor(p, s.value, c, r)
    requires QuoteFor(p.(positionSize := k * p.positionSize), s.value, c, scaled)
    ensures !NotQuoted(p.(positionSize := k * p.positionSize), s, c)
    ensures r.feeUsdc.Some? <==> scaled.feeUsdc.Some?
    ensures r.feeUsdc.Some? ==> scaled.feeUsdc.value - c.opsBuffer == k * (r.feeUsdc.value - c.opsBuffer)
  {
    hide FeeFor, IsBucket;
    var q := p.(positionSize := k * p.positionSize);
    var bucket :| IsBucket(p.drawdownPct, c.floorBuckets, bucket) && FeeFor(p, s.value, c, bucket, r.feeUsdc);
    var other :| IsBucket(q.drawdownPct, c.floorBuckets, other) && FeeFor(q, s.value, c, other, scaled.feeUsdc);
    BucketUnique(p.drawdownPct, c.floorBuckets, bucket, other);
    FeeScales(p, s.value, c, bucket, k, r.feeUsdc, scaled.feeUsdc);
  }

  lemma SameFloorPrice(p: Params, k: real)
    ensures FloorPrice(p.(positionSize := k * p.positionSize)) == FloorPrice(p)
  {
  }

  lemma TargetScales(p: Params, c: Controls, k: real)
    ensures TargetUsd(p.(positionSize := k * p.positionSize), c) == k * TargetUsd(p, c)
  {
    ProductScales(p.spotPrice, p.positionSize, p.leverage, p.drawdownPct, 1.0 + c.bufferPct, k);
  }

  lemma ProductScales(a: real, b: real, x: real, y: real, z: real, k: real)
    ensures a * (k * b) * x * y * z == k * (a * b * x * y * z)
  {
    assert a * (k * b) == k * (a * b);
    assert k * (a * b) * x == k * (a * b * x);
    assert k * (a * b * x) * y == k * (a * b * x * y);
  }

  lemma SamePicks(p: Params, legs: seq<Leg>, bucket: real, a: seq<Leg>, b: seq<Leg>)
    requires AllSizable(p, legs, bucket, a) && AllSizable(p, legs, bucket, b)
    ensures a == b
  {
    hide Picked;
    forall i | 0 <= i < |WEIGHTS|
      ensures a[i] == b[i]
    {
      PickedUnique(legs, WEIGHTS[i].tenorDays, bucket, Some(a[i]), Some(b[i]));
    }
  }

  // ---------------------------------------------------------------------------------------------
  // The picks and the fee, over the legs and the parameters themselves.

  /** at lists the legs that are priced, in order, and priced is those legs. */
  ghost predicate PricedBy(legs: seq<Leg>, priced: seq<Leg>, at: seq<nat>) {
    && |at| == |priced| && IvLadder.Increasing(at)
    && (forall j :: 0 <= j < |at| ==> at[j] < |legs| && legs[at[j]] == priced[j])
    && (forall i :: 0 <= i < |legs| && Priced(legs[i]) ==> i in at)
  }

  lemma PricedByStep(legs: seq<Leg>, priced: seq<Leg>, rest: seq<nat>)
    requires |legs| > 0 && PricedBy(legs[1..], priced, rest)
    ensures PricedBy(legs, (if Priced(legs[0]) then [legs[0]] else []) + priced,
                     IvLadder.Prefixed(Priced(legs[0]), rest))
  {
    hide Priced, IvLadder.Prefixed, IvLadder.Increasing;
    var first, tail := Priced(legs[0]), legs[1..];
    var at, all := IvLadder.Prefixed(first, rest), (if first then [legs[0]] else []) + priced;
    IvLadder.PrefixedIncreasing(first, rest);
    PrefixedLength(first, rest);
    forall j | 0 <= j < |at|
      ensures at[j] < |legs| && legs[at[j]] == all[j]
    {
      IvLadder.PrefixedAt(first, rest, j);
    }
    forall i | 0 <= i < |legs| && Priced(legs[i])
      ensures i in at
    {
      IvLadder.PrefixedHas(first, rest, i);
      if i > 0 {
        assert tail[i - 1] == legs[i];
      }
    }
  }

  lemma PrefixedLength(first: bool, rest: seq<nat>)
    ensures |IvLadder.Prefixed(first, rest)| == |rest| + if first then 1 else 0
  {
  }

  /** The priced legs are those of the legs that are priced, in order. */
  lemma {:induction false} PricedAt(legs: seq<Leg>) returns (at: seq<nat>)
    ensures PricedBy(legs, PricedLegs(legs), at)
  {
    if |legs| == 0 {
      at := [];
    } else {
      assert PricedLegs(legs) == (if Priced(legs[0]) then [legs[0]] else []) + PricedLegs(legs[1..]);
      hide PricedBy, Priced, PricedLegs;
      var rest := PricedAt(legs[1..]);
      PricedByStep(legs, PricedLegs(legs[1..]), rest);
      at := IvLadder.Prefixed(Priced(legs[0]), rest);
    }
  }

  /** Ten times the distance in days plus the distance in floor. */
  function Distance(leg: Leg, tenor: real, bucket: real): real {
    (if leg.tenorDays >= tenor then leg.tenorDays - tenor else tenor - leg.tenorDays) * 10.0
    + (if leg.floorPct >= bucket then leg.floorPct - bucket else bucket - leg.floorPct)
  }

  predicate HasPrice(leg: Leg) {
    leg.markPrice.Some? && leg.markPrice.value != 0.0
  }

  /** legs[k] is priced, strictly nearer than every priced leg before it, and no farther than any after it. */
  ghost predicate NearestFirst(legs: seq<Leg>, tenor: real, bucket: real, k: nat) {
    && k < |legs| && HasPrice(legs[k])
    && forall i :: 0 <= i < |legs| && HasPrice(legs[i]) ==>
         if i < k then Distance(legs[i], tenor, bucket) > Distance(legs[k], tenor, bucket)
         else Distance(legs[i], tenor, bucket) >= Distance(legs[k], tenor, bucket)
  }

  /** The pick is the first of the nearest priced legs, and there is none exactly when no leg is priced. */
  lemma PickIs(legs: seq<Leg>, tenor: real, bucket: real, leg: Option<Leg>)
    requires Picked(legs, tenor, bucket, leg)
    ensures leg.None? <==> forall x :: x in legs ==> !HasPrice(x)
    ensures leg.Some? ==> exists k: nat :: NearestFirst(legs, tenor, bucket, k) && legs[k] == leg.value
  {
    var priced := PricedLegs(legs);
    if leg.Some? {
      var j: nat :| FirstBest(priced, tenor, bucket, j) && priced[j] == leg.value;
      assert priced[j] in priced;
      var at := PricedAt(legs);
      BestIsNearest(legs, priced, at, tenor, bucket, j);
    } else {
      assert forall x :: x in legs && Priced(x) ==> x in priced;
    }
  }

  lemma BestIsNearest(legs: seq<Leg>, priced: seq<Leg>, at: seq<nat>, tenor: real, bucket: real, j: nat)
    requires PricedBy(legs, priced, at) && FirstBest(priced, tenor, bucket, j) && HasPrice(priced[j])
    ensures NearestFirst(legs, tenor, bucket, at[j])
  {
    hide Score, Distance;
    forall i | 0 <= i < |legs| && HasPrice(legs[i])
      ensures if i < at[j] then Distance(legs[i], tenor, bucket) > Distance(legs[at[j]], tenor, bucket)
              else Distance(legs[i], tenor, bucket) >= Distance(legs[at[j]], tenor, bucket)
    {
      var n :| 0 <= n < |at| && at[n] == i;
      DistanceIsScore(legs[i], tenor, bucket);
      DistanceIsScore(legs[at[j]], tenor, bucket);
      assert i < at[j] ==> n < j;
    }
  }

  lemma DistanceIsScore(leg: Leg, tenor: real, bucket: real)
    ensures Distance(leg, tenor, bucket) == Score(leg, tenor, bucket)
  {
  }

  /** Worth of the target: the drop to the floor on the leveraged position, plus the buffer. */
  lemma TargetIs(p: Params, c: Controls)
    ensures TargetOf(p, c, FloorPrice(p), TargetUsd(p, c))
  {
    var spot, dd, margin := p.spotPrice, p.drawdownPct, 1.0 + c.bufferPct;
    assert spot * (1.0 - dd) == spot - spot * dd;
    assert p.spotPrice * p.positionSize * p.leverage * dd == p.positionSize * p.leverage * (spot * dd);
  }

  /** What a share of the target buys of one leg at its price, and what that is worth at the floor. */
  function SizeOf(target: real, share: real, leg: Leg, floorPrice: real): real
    requires leg.strike > floorPrice
  {
    target * share / (leg.strike - floorPrice)
  }

  /** Three legs in the order of their weights, each striking above the floor. */
  predicate ThreeAbove(picked: seq<Leg>, floorPrice: real) {
    |picked| == 3 && picked[0].strike > floorPrice && picked[1].strike > floorPrice && picked[2].strike > floorPrice
  }

  lemma BoughtIs(picked: seq<Leg>, floorPrice: real, target: real, value: Leg -> real)
    requires ThreeAbove(picked, floorPrice)
    ensures Bought(picked, floorPrice, target, value, 3)
         == value(picked[0]) * SizeOf(target, 0.2, picked[0], floorPrice)
            + value(picked[1]) * SizeOf(target, 0.3, picked[1], floorPrice)
            + value(picked[2]) * SizeOf(target, 0.5, picked[2], floorPrice)
  {
    hide LegSize, SizeOf;
    SameSize(target, 0.2, picked[0], floorPrice);
    SameSize(target, 0.3, picked[1], floorPrice);
    SameSize(target, 0.5, picked[2], floorPrice);
    assert Bought(picked, floorPrice, target, value, 0) == 0.0;
    assert Bought(picked, floorPrice, target, value, 1)
        == value(picked[0]) * LegSize(target, WEIGHTS[0].weight, picked[0].strike - floorPrice);
    assert Bought(picked, floorPrice, target, value, 2)
        == Bought(picked, floorPrice, target, value, 1)
           + value(picked[1]) * LegSize(target, WEIGHTS[1].weight, picked[1].strike - floorPrice);
  }

  lemma SameSize(target: real, share: real, leg: Leg, floorPrice: real)
    requires leg.strike > floorPrice
    ensures LegSize(target, share, leg.strike - floorPrice) == SizeOf(target, share, leg, floorPrice)
  {
  }

  function PriceOf(leg: Leg): real {
    if leg.markPrice.Some? then leg.markPrice.value else 0.0
  }

  /** The fee of three legs: their cost in dollars with margin, plus the ops buffer. */
  predicate FeeOfLegs(p: Params, c: Controls, picked: seq<Leg>, floorPrice: real, target: real, fee: real)
    requires ThreeAbove(picked, floorPrice)
  {
    var cost := PriceOf(picked[0]) * p.spotPrice * SizeOf(target, 0.2, picked[0], floorPrice)
                + PriceOf(picked[1]) * p.spotPrice * SizeOf(target, 0.3, picked[1], floorPrice)
                + PriceOf(picked[2]) * p.spotPrice * SizeOf(target, 0.5, picked[2], floorPrice);
    fee == cost * (1.0 + c.marginPct) + c.opsBuffer
  }

  /** The three legs picked for one, three and seven days. */
  ghost predicate ThreePicks(p: Params, legs: seq<Leg>, bucket: real, picked: seq<Leg>) {
    && |picked| == 3
    && (exists k: nat :: NearestFirst(legs, 1.0, bucket, k) && legs[k] == picked[0])
    && (exists k: nat :: NearestFirst(legs, 3.0, bucket, k) && legs[k] == picked[1])
    && (exists k: nat :: NearestFirst(legs, 7.0, bucket, k) && legs[k] == picked[2])
  }

  lemma SizableArePicks(p: Params, legs: seq<Leg>, bucket: real, picked: seq<Leg>)
    requires AllSizable(p, legs, bucket, picked)
    ensures ThreePicks(p, legs, bucket, picked) && ThreeAbove(picked, FloorPrice(p))
  {
    hide Picked, FloorPrice, NearestFirst;
    assert WEIGHTS[0].tenorDays == 1.0 && WEIGHTS[1].tenorDays == 3.0 && WEIGHTS[2].tenorDays == 7.0;
    PickIs(legs, 1.0, bucket, Some(picked[0]));
    PickIs(legs, 3.0, bucket, Some(picked[1]));
    PickIs(legs, 7.0, bucket, Some(picked[2]));
  }

  /** The legs bought of a target are together worth it at the floor. */
  predicate WorthAtFloor(picked: seq<Leg>, floorPrice: real, target: real)
    requires ThreeAbove(picked, floorPrice)
  {
    (picked[0].strike - floorPrice) * SizeOf(target, 0.2, picked[0], floorPrice)
    + (picked[1].strike - floorPrice) * SizeOf(target, 0.3, picked[1], floorPrice)
    + (picked[2].strike - floorPrice) * SizeOf(target, 0.5, picked[2], floorPrice) == target
  }

  /** The target is the drop of the leveraged position to the floor, plus the buffer. */
  predicate TargetOf(p: Params, c: Controls, floorPrice: real, target: real) {
    && floorPrice == p.spotPrice - p.spotPrice * p.drawdownPct
    && target == p.positionSize * p.leverage * (p.spotPrice - floorPrice) * (1.0 + c.bufferPct)
  }

  ghost predicate FeeBy(p: Params, legs: seq<Leg>, c: Controls, bucket: real, picked: seq<Leg>, fee: real) {
    AllSizable(p, legs, bucket, picked) && fee == FeeOf(p, c, picked)
  }

  lemma FeeHasPicks(p: Params, s: Snapshot, c: Controls, bucket: real, fee: real) returns (picked: seq<Leg>)
    requires FeeFor(p, s, c, bucket, Some(fee))
    ensures FeeBy(p, s.legs, c, bucket, picked, fee)
  {
    picked :| AllSizable(p, s.legs, bucket, picked) && fee == FeeOf(p, c, picked);
  }

  /**
   * A fee that is quoted is that of the legs nearest one, three and seven days, sized to be worth the buffered drop
   * of the leveraged position to the floor.
   */
  lemma FeeIs(p: Params, s: Snapshot, c: Controls, bucket: real, fee: real)
    returns (picked: seq<Leg>, floorPrice: real, target: real)
    requires FeeFor(p, s, c, bucket, Some(fee))
    ensures TargetOf(p, c, floorPrice, target)
    ensures ThreePicks(p, s.legs, bucket, picked) && ThreeAbove(picked, floorPrice)
    ensures FeeOfLegs(p, c, picked, floorPrice, target, fee) && WorthAtFloor(picked, floorPrice, target)
  {
    hide *;
    picked := FeeHasPicks(p, s, c, bucket, fee);
    floorPrice, target := FloorPrice(p), TargetUsd(p, c);
    TargetIs(p, c);
    PicksOfFee(p, s.legs, c, bucket, picked, fee);
  }

  lemma PicksOfFee(p: Params, legs: seq<Leg>, c: Controls, bucket: real, picked: seq<Leg>, fee: real)
    requires FeeBy(p, legs, c, bucket, picked, fee)
    ensures ThreePicks(p, legs, bucket, picked) && ThreeAbove(picked, FloorPrice(p))
    ensures FeeOfLegs(p, c, picked, FloorPrice(p), TargetUsd(p, c), fee)
    ensures WorthAtFloor(picked, FloorPrice(p), TargetUsd(p, c))
  {
    hide Bought, ThreePicks, SizeOf, TargetUsd, FloorPrice, ThreeAbove, FeeOfLegs, WorthAtFloor, Picked;
    SizableArePicks(p, legs, bucket, picked);
    CostIs(p, c, legs, bucket, picked);
    WorthIs(p, c, legs, bucket, picked);
  }

  lemma CostIs(p: Params, c: Controls, legs: seq<Leg>, bucket: real, picked: seq<Leg>)
    requires AllSizable(p, legs, bucket, picked) && ThreeAbove(picked, FloorPrice(p))
    ensures FeeOfLegs(p, c, picked, FloorPrice(p), TargetUsd(p, c), FeeOf(p, c, picked))
  {
    hide Bought, SizeOf, TargetUsd, FloorPrice, Picked;
    BoughtIs(picked, FloorPrice(p), TargetUsd(p, c), UnitCost(p));
  }

  lemma WorthIs(p: Params, c: Controls, legs: seq<Leg>, bucket: real, picked: seq<Leg>)
    requires AllSizable(p, legs, bucket, picked) && ThreeAbove(picked, FloorPrice(p))
    ensures WorthAtFloor(picked, FloorPrice(p), TargetUsd(p, c))
  {
    hide Bought, SizeOf, TargetUsd, FloorPrice, Picked;
    BoughtIs(picked, FloorPrice(p), TargetUsd(p, c), UnitIntrinsic(FloorPrice(p)));
    LegsCoverTarget(p, c, legs, bucket, picked);
  }

  /** No fee is quoted exactly when the floor is not above zero, or a pick is missing or strikes at or below it. */
  lemma NoFeeIff(p: Params, s: Snapshot, c: Controls, bucket: real, fee: Option<real>)
    requires FeeFor(p, s, c, bucket, fee)
    ensures fee.Some? <==> FloorPrice(p) > 0.0 && exists picked ::
              ThreePicks(p, s.legs, bucket, picked) && ThreeAbove(picked, FloorPrice(p))
  {
    hide FloorPrice, FeeOf, NearestFirst, ThreeAbove;
    if fee.Some? {
      var picked :| AllSizable(p, s.legs, bucket, picked) && fee.value == FeeOf(p, c, picked);
      SizableArePicks(p, s.legs, bucket, picked);
    } else if FloorPrice(p) > 0.0 {
      if picked :| ThreePicks(p, s.legs, bucket, picked) && ThreeAbove(picked, FloorPrice(p)) {
        PicksAreSizable(p, s.legs, bucket, picked);
      }
    }
  }

  lemma PicksAreSizable(p: Params, legs: seq<Leg>, bucket: real, picked: seq<Leg>)
    requires FloorPrice(p) > 0.0 && ThreePicks(p, legs, bucket, picked) && ThreeAbove(picked, FloorPrice(p))
    ensures AllSizable(p, legs, bucket, picked)
  {
    hide FloorPrice, NearestFirst, Picked;
    NearestIsPicked(legs, 1.0, bucket, picked[0]);
    NearestIsPicked(legs, 3.0, bucket, picked[1]);
    NearestIsPicked(legs, 7.0, bucket, picked[2]);
    assert WEIGHTS[0].tenorDays == 1.0 && WEIGHTS[1].tenorDays == 3.0 && WEIGHTS[2].tenorDays == 7.0;
  }

  lemma NearestIsPicked(legs: seq<Leg>, tenor: real, bucket: real, leg: Leg)
    requires exists k: nat :: NearestFirst(legs, tenor, bucket, k) && legs[k] == leg
    ensures Picked(legs, tenor, bucket, Some(leg)) && Priced(leg)
  {
    hide PricedLegs, TenorGap, FloorGap;
    var k: nat :| NearestFirst(legs, tenor, bucket, k) && legs[k] == leg;
    var priced := PricedLegs(legs);
    var at := PricedAt(legs);
    var j :| 0 <= j < |at| && at[j] == k;
    forall i | 0 <= i < |priced|
      ensures if i < j then Score(priced[i], tenor, bucket) > Score(priced[j], tenor, bucket)
              else Score(priced[i], tenor, bucket) >= Score(priced[j], tenor, bucket)
    {
      assert priced[i] in priced;
      DistanceIsScore(legs[at[i]], tenor, bucket);
      DistanceIsScore(legs[k], tenor, bucket);
    }
    assert FirstBest(priced, tenor, bucket, j);
  }
}
