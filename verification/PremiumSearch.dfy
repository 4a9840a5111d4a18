/** Break-even, win rate and the least profitable whole premium over a list of backtest windows. */
module PremiumSearch {
  import opened Options
  import opened Reals
  import opened BacktestWindows

  // The second script values a window by holding or by take-profit, the third by its best day.
  datatype Mode = Hold | Tp | Best

  function Recovery(w: Window, mode: Mode): real {
    match mode
    case Hold => w.holdRecovery
    case Tp => w.tpRecovery
    case Best => w.bestRecovery
  }

  function Pnl(w: Window, mode: Mode, premium: real): real {
    premium - w.hedgeCost - w.payout + Recovery(w, mode)
  }

  /** What a window costs before any premium. */
  function Cost(w: Window, mode: Mode): real {
    w.hedgeCost + w.payout - Recovery(w, mode)
  }

  function TotalCost(ws: seq<Window>, mode: Mode): real {
    if |ws| == 0 then 0.0 else TotalCost(ws[..|ws| - 1], mode) + Cost(ws[|ws| - 1], mode)
  }

  /** The windows whose cost the premium covers. */
  function Wins(ws: seq<Window>, mode: Mode, premium: real): (wins: nat)
    ensures wins <= |ws|
  {
    if |ws| == 0 then 0
    else Wins(ws[..|ws| - 1], mode, premium) + if Cost(ws[|ws| - 1], mode) <= premium then 1 else 0
  }

  function OfRegime(ws: seq<Window>, regime: Regime): seq<Window> {
    if |ws| == 0 then []
    else OfRegime(ws[..|ws| - 1], regime) + if ws[|ws| - 1].regime == regime then [ws[|ws| - 1]] else []
  }

  function Mean(total: real, n: nat): real
    requires n > 0
  {
    total / n as real
  }

  lemma MeanLe(a: real, b: real, n: nat)
    requires n > 0 && a <= b
    ensures Mean(a, n) <= Mean(b, n)
  {
    DivAtLeast(b, n as real, Mean(a, n));
  }

  /** The overall break-even premium. */
  function BreakEven(ws: seq<Window>, mode: Mode): real
    requires |ws| > 0
  {
    Mean(TotalCost(ws, mode), |ws|)
  }

  function PnlSum(ws: seq<Window>, mode: Mode, premium: real): real {
    if |ws| == 0 then 0.0 else PnlSum(ws[..|ws| - 1], mode, premium) + Pnl(ws[|ws| - 1], mode, premium)
  }

  lemma {:induction false} PnlSumIsShifted(ws: seq<Window>, mode: Mode, premium: real)
    ensures PnlSum(ws, mode, premium) == |ws| as real * premium - TotalCost(ws, mode)
  {
    if |ws| > 0 {
      PnlSumIsShifted(ws[..|ws| - 1], mode, premium);
      assert |ws| as real * premium == (|ws| - 1) as real * premium + premium;
    }
  }

  /** The mean profit at a premium is the premium less the break-even. */
  lemma MeanPnlIsPremiumLessBreakEven(ws: seq<Window>, mode: Mode, premium: real)
    requires |ws| > 0
    ensures Mean(PnlSum(ws, mode, premium), |ws|) == premium - BreakEven(ws, mode)
  {
    hide TotalCost, PnlSum;
    PnlSumIsShifted(ws, mode, premium);
    MeanOfShifted(|ws| as real, premium, TotalCost(ws, mode));
  }

  lemma MeanOfShifted(n: real, premium: real, total: real)
    requires n > 0.0
    ensures (n * premium - total) / n == premium - total / n
  {
    var mean := total / n;
    assert mean * n == total;
    assert n * premium - total == (premium - mean) * n;
    assert (premium - mean) * n / n == premium - mean;
  }

  // Undefined is the NaN of dividing by an empty list; it compares false with everything.
  datatype Stats = Undefined | Stats(avgPnl: real, winRate: real, winCount: nat, lossCount: nat)

  method PremiumStats(ws: seq<Window>, mode: Mode, premium: real) returns (s: Stats)
    ensures s.Undefined? <==> |ws| == 0
    ensures s.Stats? ==> s.avgPnl == premium - BreakEven(ws, mode)
    ensures s.Stats? ==> s.winCount == Wins(ws, mode, premium) == |ws| - s.lossCount
    ensures s.Stats? ==> s.winRate == Mean(Wins(ws, mode, premium) as real, |ws|)
  {
    hide Mean;
    var pnlSum, wins := 0.0, 0;
    for i := 0 to |ws|
      invariant pnlSum == PnlSum(ws[..i], mode, premium)
      invariant wins == Wins(ws[..i], mode, premium)
    {
      var pnl := Pnl(ws[i], mode, premium);
      pnlSum := pnlSum + pnl;
      if pnl >= 0.0 { wins := wins + 1; }
      assert ws[..i + 1][..i] == ws[..i];
    }
    assert ws[..|ws|] == ws;
    var n := |ws|;
    if n == 0 { return Undefined; }
    MeanPnlIsPremiumLessBreakEven(ws, mode, premium);
    s := Stats(Mean(pnlSum, n), Mean(wins as real, n), wins, n - wins);
  }

  method ComputeBreakEven(ws: seq<Window>, mode: Mode) returns (be: Option<real>)
    ensures be == if |ws| == 0 then None else Some(BreakEven(ws, mode))
  {
    var totalH, totalP, totalR := 0.0, 0.0, 0.0;
    for i := 0 to |ws|
      invariant totalH + totalP - totalR == TotalCost(ws[..i], mode)
    {
      assert ws[..i + 1][..i] == ws[..i];
      totalH, totalP, totalR := totalH + ws[i].hedgeCost, totalP + ws[i].payout, totalR + Recovery(ws[i], mode);
    }
    assert ws[..|ws|] == ws;
    be := if |ws| == 0 then None else Some(Mean(totalH + totalP - totalR, |ws|));
  }

  // The first script averages cost, payout and recovery separately.
  datatype Part = HedgePart | PayoutPart | RecoveryPart

  function PartOf(w: LegacyWindow, part: Part): real {
    match part
    case HedgePart => w.hedgeCost
    case PayoutPart => w.payout
    case RecoveryPart => w.recovery
  }

  function LegacyTotal(ws: seq<LegacyWindow>, part: Part): real {
    if |ws| == 0 then 0.0 else LegacyTotal(ws[..|ws| - 1], part) + PartOf(ws[|ws| - 1], part)
  }

  function LegacyBreakEven(ws: seq<LegacyWindow>): real
    requires |ws| > 0
  {
    Mean(LegacyTotal(ws, HedgePart), |ws|) + Mean(LegacyTotal(ws, PayoutPart), |ws|)
    - Mean(LegacyTotal(ws, RecoveryPart), |ws|)
  }

  function ModeOf(tp: bool): Mode {
    if tp then Tp else Hold
  }

  lemma {:induction false} TotalsAgree(vs: seq<Window>, ws: seq<LegacyWindow>, tp: bool)
    requires |vs| == |ws| && forall j :: 0 <= j < |ws| ==> SameReport(vs[j], ws[j], tp)
    ensures LegacyTotal(ws, HedgePart) + LegacyTotal(ws, PayoutPart) - LegacyTotal(ws, RecoveryPart)
         == TotalCost(vs, ModeOf(tp))
  {
    if |ws| > 0 {
      TotalsAgree(vs[..|vs| - 1], ws[..|ws| - 1], tp);
    }
  }

  /** So the break-even the first script reports is the one the second computes in a single quotient. */
  lemma BreakEvensAgree(vs: seq<Window>, ws: seq<LegacyWindow>, tp: bool)
    requires |vs| == |ws| > 0 && forall j :: 0 <= j < |ws| ==> SameReport(vs[j], ws[j], tp)
    ensures LegacyBreakEven(ws) == BreakEven(vs, ModeOf(tp))
  {
    hide LegacyTotal, TotalCost;
    TotalsAgree(vs, ws, tp);
    SumOfMeans(LegacyTotal(ws, HedgePart), LegacyTotal(ws, PayoutPart), LegacyTotal(ws, RecoveryPart), |ws|);
  }

  lemma SumOfMeans(a: real, b: real, c: real, n: nat)
    requires n > 0
    ensures Mean(a, n) + Mean(b, n) - Mean(c, n) == Mean(a + b - c, n)
  {
  }

  datatype Bucket = Bucket(h: real, p: real, r: real, n: nat)

  datatype RegimeBe = RegimeBe(be: real, count: nat)

  /** The break-even of one regime, zero when it has no windows. */
  function BreakEvenOf(ws: seq<Window>, mode: Mode, regime: Regime): RegimeBe {
    var rw := OfRegime(ws, regime);
    RegimeBe(if |rw| > 0 then BreakEven(rw, mode) else 0.0, |rw|)
  }

  ghost predicate Holds(b: Bucket, ws: seq<Window>, mode: Mode, regime: Regime) {
    b.n == |OfRegime(ws, regime)| && b.h + b.p - b.r == TotalCost(OfRegime(ws, regime), mode)
  }

  lemma OneMoreWindow(ws: seq<Window>, w: Window, mode: Mode, regime: Regime)
    ensures var before, after := OfRegime(ws, regime), OfRegime(ws + [w], regime);
            if w.regime == regime then
              |after| == |before| + 1 && TotalCost(after, mode) == TotalCost(before, mode) + Cost(w, mode)
            else after == before
  {
    assert (ws + [w])[..|ws|] == ws;
    var before := OfRegime(ws, regime);
    assert (before + [w])[..|before|] == before;
  }

  function Add(b: Bucket, w: Window, mode: Mode): Bucket {
    Bucket(b.h + w.hedgeCost, b.p + w.payout, b.r + Recovery(w, mode), b.n + 1)
  }

  function Close(b: Bucket): RegimeBe {
    RegimeBe(if b.n > 0 then Mean(b.h + b.p - b.r, b.n) else 0.0, b.n)
  }

  lemma AddHolds(b: Bucket, ws: seq<Window>, w: Window, mode: Mode, regime: Regime)
    requires Holds(b, ws, mode, regime)
    ensures Holds(if w.regime == regime then Add(b, w, mode) else b, ws + [w], mode, regime)
  {
    OneMoreWindow(ws, w, mode, regime);
  }

  lemma CloseHolds(b: Bucket, ws: seq<Window>, mode: Mode, regime: Regime)
    requires Holds(b, ws, mode, regime)
    ensures Close(b) == BreakEvenOf(ws, mode, regime)
  {
  }

  // A record with one entry per regime.
  datatype PerRegime<T> = PerRegime(calm: T, normal: T, stress: T) {
    function Get(regime: Regime): T {
      match regime
      case Calm => calm
      case Normal => normal
      case Stress => stress
    }

    function Set(regime: Regime, value: T): PerRegime<T> {
      match regime
      case Calm => this.(calm := value)
      case Normal => this.(normal := value)
      case Stress => this.(stress := value)
    }
  }

  /** One pass over the windows fills the three buckets; each is the break-even of the windows of its regime. */
  method RegimeBreakEvens(ws: seq<Window>, mode: Mode) returns (out: PerRegime<RegimeBe>)
    ensures forall r :: out.Get(r) == BreakEvenOf(ws, mode, r)
  {
    hide Add, Close, BreakEvenOf;
    var empty := Bucket(0.0, 0.0, 0.0, 0);
    var buckets := PerRegime(empty, empty, empty);
    for i := 0 to |ws|
      invariant forall r :: Holds(buckets.Get(r), ws[..i], mode, r)
    {
      assert ws[..i + 1] == ws[..i] + [ws[i]];
      var regime := ws[i].regime;
      var next := buckets.Set(regime, Add(buckets.Get(regime), ws[i], mode));
      forall r
        ensures Holds(next.Get(r), ws[..i + 1], mode, r)
      {
        AddHolds(buckets.Get(r), ws[..i], ws[i], mode, r);
      }
      buckets := next;
    }
    assert ws[..|ws|] == ws;
    out := PerRegime(Close(buckets.calm), Close(buckets.normal), Close(buckets.stress));
    forall r
      ensures out.Get(r) == BreakEvenOf(ws, mode, r)
    {
      CloseHolds(buckets.Get(r), ws, mode, r);
    }
  }

  lemma {:induction false} RegimesPartition(ws: seq<Window>, mode: Mode)
    ensures |OfRegime(ws, Calm)| + |OfRegime(ws, Normal)| + |OfRegime(ws, Stress)| == |ws|
    ensures TotalCost(OfRegime(ws, Calm), mode) + TotalCost(OfRegime(ws, Normal), mode)
            + TotalCost(OfRegime(ws, Stress), mode)
         == TotalCost(ws, mode)
  {
    if |ws| > 0 {
      var init, w := ws[..|ws| - 1], ws[|ws| - 1];
      assert ws == init + [w];
      RegimesPartition(init, mode);
      OneMoreWindow(init, w, mode, Calm);
      OneMoreWindow(init, w, mode, Normal);
      OneMoreWindow(init, w, mode, Stress);
    }
  }

  lemma CountTimesMean(ws: seq<Window>, mode: Mode, regime: Regime)
    ensures var b := BreakEvenOf(ws, mode, regime);
            b.count as real * b.be == TotalCost(OfRegime(ws, regime), mode)
  {
    hide TotalCost, OfRegime, Mean;
    var rw := OfRegime(ws, regime);
    if |rw| > 0 {
      TimesMean(TotalCost(rw, mode), |rw|);
    } else {
      NoCost(rw, mode);
    }
  }

  lemma TimesMean(total: real, n: nat)
    requires n > 0
    ensures n as real * Mean(total, n) == total
  {
  }

  lemma NoCost(ws: seq<Window>, mode: Mode)
    requires |ws| == 0
    ensures TotalCost(ws, mode) == 0.0
  {
  }

  /** The regime counts add up, and the regime break-evens weighted by count add up to the overall break-even. */
  lemma RegimesWeighToOverall(ws: seq<Window>, mode: Mode)
    requires |ws| > 0
    ensures var calm, normal := BreakEvenOf(ws, mode, Calm), BreakEvenOf(ws, mode, Normal);
            var stress := BreakEvenOf(ws, mode, Stress);
            && calm.count + normal.count + stress.count == |ws|
            && calm.count as real * calm.be + normal.count as real * normal.be + stress.count as real * stress.be
               == |ws| as real * BreakEven(ws, mode)
  {
    hide TotalCost, OfRegime, BreakEvenOf;
    RegimesPartition(ws, mode);
    CountTimesMean(ws, mode, Calm);
    CountTimesMean(ws, mode, Normal);
    CountTimesMean(ws, mode, Stress);
    CountsOf(ws, mode);
  }

  lemma CountsOf(ws: seq<Window>, mode: Mode)
    ensures BreakEvenOf(ws, mode, Calm).count == |OfRegime(ws, Calm)|
    ensures BreakEvenOf(ws, mode, Normal).count == |OfRegime(ws, Normal)|
    ensures BreakEvenOf(ws, mode, Stress).count == |OfRegime(ws, Stress)|
  {
  }

  // ---------------------------------------------------------------------------------------------

  /** A premium qualifies when it beats the break-even and covers the cost of a large enough share of the windows. */
  predicate Qualifies(ws: seq<Window>, mode: Mode, premium: real, minWinRate: real) {
    && |ws| > 0
    && premium > BreakEven(ws, mode)
    && Mean(Wins(ws, mode, premium) as real, |ws|) >= minWinRate
  }

  predicate QualifiesWhole(ws: seq<Window>, mode: Mode, premium: int, minWinRate: real) {
    Qualifies(ws, mode, premium as real, minWinRate)
  }

  method FindBestPremium(ws: seq<Window>, mode: Mode, maxPer1k: real, minWinRate: real) returns (best: Option<nat>)
    ensures best.Some? ==>
              && 1 <= best.value <= 30 && best.value as real < maxPer1k
              && QualifiesWhole(ws, mode, best.value, minWinRate)
              && forall p :: 1 <= p < best.value ==> !QualifiesWhole(ws, mode, p, minWinRate)
    ensures best.None? ==>
              forall p :: 1 <= p <= 30 && p as real < maxPer1k ==> !QualifiesWhole(ws, mode, p, minWinRate)
  {
    hide Mean, Wins, TotalCost;
    for p := 1 to 31
      invariant forall q :: 1 <= q < p ==> !QualifiesWhole(ws, mode, q, minWinRate)
    {
      if p as real >= maxPer1k { return None; }
      var s := PremiumStats(ws, mode, p as real);
      if s.Stats? && s.avgPnl > 0.0 && s.winRate >= minWinRate { return Some(p); }
    }
    best := None;
  }

  lemma {:induction false} WinsNeverFall(ws: seq<Window>, mode: Mode, p: real, q: real)
    requires p <= q
    ensures Wins(ws, mode, p) <= Wins(ws, mode, q)
  {
    if |ws| > 0 {
      WinsNeverFall(ws[..|ws| - 1], mode, p, q);
    }
  }

  /** Every premium above a qualifying one qualifies too: the search finds the start of an upward-closed set. */
  lemma QualifyingIsUpwardClosed(ws: seq<Window>, mode: Mode, p: real, q: real, minWinRate: real)
    requires Qualifies(ws, mode, p, minWinRate) && p <= q
    ensures Qualifies(ws, mode, q, minWinRate)
  {
    hide Mean, Wins;
    WinsNeverFall(ws, mode, p, q);
    MeanLe(Wins(ws, mode, p) as real, Wins(ws, mode, q) as real, |ws|);
  }

  /** A premium that qualifies when windows recover by take-profit qualifies when they recover by their best day. */
  lemma {:induction false} BetterRecoveryHelps(ws: seq<Window>, premium: real, minWinRate: real)
    requires forall w :: w in ws ==> w.tpRecovery <= w.bestRecovery
    requires Qualifies(ws, Tp, premium, minWinRate)
    ensures Qualifies(ws, Best, premium, minWinRate)
  {
    hide Mean, Wins, TotalCost;
    CostsOrdered(ws, premium);
    MeanLe(TotalCost(ws, Best), TotalCost(ws, Tp), |ws|);
    MeanLe(Wins(ws, Tp, premium) as real, Wins(ws, Best, premium) as real, |ws|);
  }

  lemma {:induction false} CostsOrdered(ws: seq<Window>, premium: real)
    requires forall w :: w in ws ==> w.tpRecovery <= w.bestRecovery
    ensures TotalCost(ws, Best) <= TotalCost(ws, Tp) && Wins(ws, Tp, premium) <= Wins(ws, Best, premium)
  {
    if |ws| > 0 {
      assert ws[|ws| - 1] in ws;
      CostsOrdered(ws[..|ws| - 1], premium);
    }
  }
}
