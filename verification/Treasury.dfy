/** The one-pass treasury simulation of the definitive backtests. */
module Treasury {
  import opened Options
  import opened Reals
  import opened BacktestWindows
  import opened PremiumSearch

  const TREASURY_START := 100000.0
  const PROTECTIONS_PER_DAY := 5.0

  datatype TreasurySim = TreasurySim(
    endTreasury: real,
    minTreasury: real,
    maxDrawdown: real,
    annualPnl: real,
    worstMonthPnl: real,
    worstMonth: string
  )

  function Impact(w: Window, mode: Mode, premium: real): real {
    Pnl(w, mode, premium) * PROTECTIONS_PER_DAY
  }

  /** The balances before and after each of the first n windows. */
  function Balances(ws: seq<Window>, mode: Mode, premium: real, n: nat): (balances: seq<real>)
    requires n <= |ws|
    ensures |balances| == n + 1 && balances[0] == TREASURY_START
  {
    if n == 0 then [TREASURY_START]
    else
      var before := Balances(ws, mode, premium, n - 1);
      before + [before[n - 1] + Impact(ws[n - 1], mode, premium)]
  }

  /** The largest fall from any balance to the same or a later one. */
  ghost predicate IsMaxDrawdown(balances: seq<real>, drawdown: real) {
    && (forall i, j :: 0 <= i <= j < |balances| ==> balances[i] - balances[j] <= drawdown)
    && (exists i, j :: 0 <= i <= j < |balances| && balances[i] - balances[j] == drawdown)
  }

  ghost predicate IsLeast(balances: seq<real>, least: real) {
    least in balances && forall j :: 0 <= j < |balances| ==> least <= balances[j]
  }

  ghost predicate IsPeak(balances: seq<real>, peak: real) {
    peak in balances && forall j :: 0 <= j < |balances| ==> balances[j] <= peak
  }

  function Month(w: Window): string {
    if |w.date| <= 7 then w.date else w.date[..7]
  }

  /** The profit of one month: the impacts of its windows. */
  function MonthTotal(ws: seq<Window>, mode: Mode, premium: real, n: nat, month: string): real
    requires n <= |ws|
  {
    if n == 0 then 0.0
    else
      MonthTotal(ws, mode, premium, n - 1, month)
      + if Month(ws[n - 1]) == month then Impact(ws[n - 1], mode, premium) else 0.0
  }

  /** The months in the order they first occur, which is the order a Map is read back in. */
  function Months(ws: seq<Window>, n: nat): (months: seq<string>)
    requires n <= |ws|
    ensures n > 0 ==> |months| > 0
  {
    if n == 0 then []
    else
      var before := Months(ws, n - 1);
      if Month(ws[n - 1]) in before then before else before + [Month(ws[n - 1])]
  }

  /** The first of the worst months. */
  ghost predicate IsWorstMonth(ws: seq<Window>, mode: Mode, premium: real, month: string) {
    var months := Months(ws, |ws|);
    exists k :: 0 <= k < |months| && months[k] == month
      && forall i :: 0 <= i < |months| ==>
           var total := MonthTotal(ws, mode, premium, |ws|, months[i]);
           var worst := MonthTotal(ws, mode, premium, |ws|, month);
           if i < k then total > worst else total >= worst
  }

  method SimulateTreasury(ws: seq<Window>, mode: Mode, premium: real) returns (sim: TreasurySim)
    ensures var balances := Balances(ws, mode, premium, |ws|);
            && sim.endTreasury == balances[|ws|]
            && IsLeast(balances, sim.minTreasury)
            && IsMaxDrawdown(balances, sim.maxDrawdown)
    ensures |ws| == 0 ==> sim.worstMonthPnl == 0.0 && sim.worstMonth == "" && sim.annualPnl == 0.0
    ensures |ws| > 0 ==> IsWorstMonth(ws, mode, premium, sim.worstMonth)
    ensures |ws| > 0 ==> sim.worstMonthPnl == MonthTotal(ws, mode, premium, |ws|, sim.worstMonth)
    ensures |ws| > 0 ==> sim.annualPnl * (|ws| as real / 365.0) == sim.endTreasury - TREASURY_START
  {
    hide Impact, Month, IsLeast, IsMaxDrawdown, Balances, MonthTotal, Months, KeysAre, MonthBooks, Extremes,
      MonthsTracked, IsWorstMonth, FirstLeast, At, AnnualPnl;
    var treasury, peak, maxDD, minTreasury := TREASURY_START, TREASURY_START, 0.0, TREASURY_START;
    var monthlyPnl: map<string, real> := map[];
    var order: seq<string> := [];
    StartTracking(ws, mode, premium);
    for n := 0 to |ws|
      invariant treasury == Balances(ws, mode, premium, n)[n]
      invariant Extremes(Balances(ws, mode, premium, n), treasury, peak, maxDD, minTreasury)
      invariant MonthsTracked(ws, mode, premium, n, order, monthlyPnl)
    {
      var dailyImpact := Impact(ws[n], mode, premium);
      BalancesStep(ws, mode, premium, n);
      ExtremesStep(Balances(ws, mode, premium, n), treasury + dailyImpact, treasury, peak, maxDD, minTreasury);
      MonthStep(ws, mode, premium, n, monthlyPnl, order);
      treasury := treasury + dailyImpact;
      if treasury < minTreasury { minTreasury := treasury; }
      if treasury > peak { peak := treasury; }
      var dd := peak - treasury;
      if dd > maxDD { maxDD := dd; }
      var month := Month(ws[n]);
      order := if month in monthlyPnl then order else order + [month];
      monthlyPnl := monthlyPnl[month := At(monthlyPnl, month) + dailyImpact];
    }
    ExtremesMean(Balances(ws, mode, premium, |ws|), treasury, peak, maxDD, minTreasury);
    KeysTracked(ws, mode, premium, order, monthlyPnl);
    var worstMonthPnl, worstMonth := WorstMonth(order, monthlyPnl);
    WorstIsWorst(ws, mode, premium, order, monthlyPnl, worstMonthPnl, worstMonth);
    var annual := AnnualPnl(treasury - TREASURY_START, |ws|);
    sim := TreasurySim(treasury, minTreasury, maxDD, annual, if |order| == 0 then 0.0 else worstMonthPnl, worstMonth);
  }

  /** The last balance, the highest, the largest fall and the least. */
  ghost predicate Extremes(balances: seq<real>, treasury: real, peak: real, drawdown: real, least: real) {
    && |balances| > 0 && treasury == balances[|balances| - 1]
    && IsPeak(balances, peak) && IsLeast(balances, least) && IsMaxDrawdown(balances, drawdown)
  }

  /** The month totals, and their months in order of first occurrence. */
  ghost predicate MonthsTracked(ws: seq<Window>, mode: Mode, premium: real, n: nat, order: seq<string>,
                                monthly: map<string, real>)
    requires n <= |ws|
  {
    order == Months(ws, n) && KeysAre(monthly, order) && MonthBooks(ws, mode, premium, n, monthly)
  }

  lemma ExtremesMean(balances: seq<real>, treasury: real, peak: real, drawdown: real, least: real)
    requires Extremes(balances, treasury, peak, drawdown, least)
    ensures IsLeast(balances, least) && IsMaxDrawdown(balances, drawdown)
  {
    hide IsPeak, IsLeast, IsMaxDrawdown;
  }

  lemma KeysTracked(ws: seq<Window>, mode: Mode, premium: real, order: seq<string>, monthly: map<string, real>)
    requires MonthsTracked(ws, mode, premium, |ws|, order, monthly)
    ensures order == Months(ws, |ws|) && KeysAre(monthly, order) && MonthBooks(ws, mode, premium, |ws|, monthly)
  {
  }

  lemma StartTracking(ws: seq<Window>, mode: Mode, premium: real)
    ensures Extremes(Balances(ws, mode, premium, 0), TREASURY_START, TREASURY_START, 0.0, TREASURY_START)
    ensures MonthsTracked(ws, mode, premium, 0, [], map[])
  {
    hide IsPeak, IsLeast, IsMaxDrawdown;
    StartExtremes();
    StartBooks(ws, mode, premium);
  }

  lemma ExtremesStep(balances: seq<real>, x: real, treasury: real, peak: real, drawdown: real, least: real)
    requires Extremes(balances, treasury, peak, drawdown, least)
    ensures var peak' := if x > peak then x else peak;
            Extremes(balances + [x], x, peak', if peak' - x > drawdown then peak' - x else drawdown,
                     if x < least then x else least)
  {
    hide IsPeak, IsLeast, IsMaxDrawdown;
    StepPeak(balances, x, peak, drawdown);
    StepLeast(balances, x, least);
  }

  function AnnualPnl(totalPnl: real, n: nat): (annual: real)
    ensures n > 0 ==> annual * (n as real / 365.0) == totalPnl
    ensures n == 0 ==> annual == 0.0
  {
    var years := n as real / 365.0;
    if years > 0.0 then totalPnl / years else 0.0
  }

  lemma StartExtremes()
    ensures IsPeak([TREASURY_START], TREASURY_START)
    ensures IsLeast([TREASURY_START], TREASURY_START)
    ensures IsMaxDrawdown([TREASURY_START], 0.0)
  {
    var balances := [TREASURY_START];
    assert balances[0] - balances[0] == 0.0;
  }

  lemma StepLeast(balances: seq<real>, x: real, least: real)
    requires IsLeast(balances, least)
    ensures IsLeast(balances + [x], if x < least then x else least)
  {
  }

  /** One more balance moves the peak and the drawdown as the loop does. */
  lemma StepPeak(balances: seq<real>, x: real, peak: real, drawdown: real)
    requires IsPeak(balances, peak) && IsMaxDrawdown(balances, drawdown)
    ensures var peak' := if x > peak then x else peak;
            && IsPeak(balances + [x], peak')
            && IsMaxDrawdown(balances + [x], if peak' - x > drawdown then peak' - x else drawdown)
  {
    var after, last := balances + [x], |balances|;
    assert after[last] == x && forall i :: 0 <= i < last ==> after[i] == balances[i];
    var top :| 0 <= top < last && balances[top] == peak;
    var from, to :| 0 <= from <= to < last && balances[from] - balances[to] == drawdown;
    assert after[from] - after[to] == drawdown;
    assert after[top] - after[last] == peak - x;
    assert after[last] - after[last] == 0.0;
  }

  lemma StartBooks(ws: seq<Window>, mode: Mode, premium: real)
    ensures Balances(ws, mode, premium, 0) == [TREASURY_START]
    ensures Months(ws, 0) == [] && KeysAre(map[], []) && MonthBooks(ws, mode, premium, 0, map[])
  {
  }

  lemma BalancesStep(ws: seq<Window>, mode: Mode, premium: real, n: nat)
    requires n < |ws|
    ensures var before := Balances(ws, mode, premium, n);
            Balances(ws, mode, premium, n + 1) == before + [before[n] + Impact(ws[n], mode, premium)]
  {
  }

  ghost predicate KeysAre(monthly: map<string, real>, order: seq<string>) {
    forall m :: m in monthly <==> m in order
  }

  /** order[k] is the first of the months with the least total. */
  ghost predicate FirstLeast(order: seq<string>, monthly: map<string, real>, k: nat, n: nat)
    requires n <= |order| && KeysAre(monthly, order)
  {
    k < n && forall i :: 0 <= i < n ==>
      if i < k then monthly[order[i]] > monthly[order[k]] else monthly[order[i]] >= monthly[order[k]]
  }

  lemma WorstIsWorst(ws: seq<Window>, mode: Mode, premium: real, order: seq<string>, monthly: map<string, real>,
                     worstPnl: real, worst: string)
    requires order == Months(ws, |ws|) && KeysAre(monthly, order) && MonthBooks(ws, mode, premium, |ws|, monthly)
    requires |order| > 0 ==>
               exists k: nat :: FirstLeast(order, monthly, k, |order|) && order[k] == worst
                 && worstPnl == monthly[worst]
    ensures |ws| == 0 ==> |order| == 0
    ensures |ws| > 0 ==> |order| > 0 && IsWorstMonth(ws, mode, premium, worst)
                         && worstPnl == MonthTotal(ws, mode, premium, |ws|, worst)
  {
    hide MonthTotal;
    if |ws| > 0 {
      var k: nat :| FirstLeast(order, monthly, k, |order|) && order[k] == worst && worstPnl == monthly[worst];
      forall i | 0 <= i < |order|
        ensures monthly[order[i]] == MonthTotal(ws, mode, premium, |ws|, order[i])
      {
        assert At(monthly, order[i]) == MonthTotal(ws, mode, premium, |ws|, order[i]);
      }
    }
  }

  /** The scan over the month map in insertion order. */
  method WorstMonth(order: seq<string>, monthlyPnl: map<string, real>) returns (worstPnl: real, worst: string)
    requires KeysAre(monthlyPnl, order)
    ensures |order| == 0 ==> worst == ""
    ensures |order| > 0 ==>
              exists k: nat :: FirstLeast(order, monthlyPnl, k, |order|) && order[k] == worst
                && worstPnl == monthlyPnl[worst]
  {
    worstPnl, worst := 0.0, "";
    ghost var best: nat := 0;
    for n := 0 to |order|
      invariant n == 0 ==> worst == ""
      invariant n > 0 ==> FirstLeast(order, monthlyPnl, best, n)
      invariant n > 0 ==> order[best] == worst && worstPnl == monthlyPnl[worst]
    {
      if n == 0 || monthlyPnl[order[n]] < worstPnl { worstPnl, worst, best := monthlyPnl[order[n]], order[n], n; }
    }
  }

  lemma MonthStep(ws: seq<Window>, mode: Mode, premium: real, n: nat, monthly: map<string, real>, order: seq<string>)
    requires n < |ws| && MonthsTracked(ws, mode, premium, n, order, monthly)
    ensures var month := Month(ws[n]);
            MonthsTracked(ws, mode, premium, n + 1, if month in monthly then order else order + [month],
                          monthly[month := At(monthly, month) + Impact(ws[n], mode, premium)])
  {
    hide Impact, Month;
    var month := Month(ws[n]);
    var monthly' := monthly[month := At(monthly, month) + Impact(ws[n], mode, premium)];
    forall m
      ensures At(monthly', m) == MonthTotal(ws, mode, premium, n + 1, m)
    {
      assert At(monthly, m) == MonthTotal(ws, mode, premium, n, m);
    }
  }

  /** The month map after n windows. */
  ghost predicate MonthBooks(ws: seq<Window>, mode: Mode, premium: real, n: nat, monthly: map<string, real>)
    requires n <= |ws|
  {
    forall m :: At(monthly, m) == MonthTotal(ws, mode, premium, n, m)
  }

  ghost function Totals(ws: seq<Window>, mode: Mode, premium: real, n: nat): map<string, real>
    requires n <= |ws|
  {
    map m | m in Months(ws, n) :: MonthTotal(ws, mode, premium, n, m)
  }

  lemma TotalsStep(ws: seq<Window>, mode: Mode, premium: real, n: nat)
    requires n < |ws|
    ensures var before, month := Totals(ws, mode, premium, n), Month(ws[n]);
            Totals(ws, mode, premium, n + 1) == before[month := At(before, month) + Impact(ws[n], mode, premium)]
  {
    hide Impact, Month;
    if Month(ws[n]) !in Months(ws, n) {
      UnseenMonth(ws, mode, premium, n, Month(ws[n]));
    }
  }

  /** The month totals partition the change of the balance. */
  lemma {:induction false} MonthsPartition(ws: seq<Window>, mode: Mode, premium: real, n: nat)
    requires n <= |ws|
    ensures SumMap(Totals(ws, mode, premium, n)) == Balances(ws, mode, premium, n)[n] - TREASURY_START
  {
    hide SumMap, Impact, Month, Totals;
    if n == 0 {
      NoMonths(ws, mode, premium);
    } else {
      MonthsPartition(ws, mode, premium, n - 1);
      TotalsStep(ws, mode, premium, n - 1);
      var before, month := Totals(ws, mode, premium, n - 1), Month(ws[n - 1]);
      SumMapUpdate(before, month, At(before, month) + Impact(ws[n - 1], mode, premium));
    }
  }

  lemma NoMonths(ws: seq<Window>, mode: Mode, premium: real)
    ensures SumMap(Totals(ws, mode, premium, 0)) == 0.0
  {
    assert Totals(ws, mode, premium, 0) == map[];
  }

  lemma {:induction false} UnseenMonth(ws: seq<Window>, mode: Mode, premium: real, n: nat, month: string)
    requires n <= |ws| && month !in Months(ws, n)
    ensures MonthTotal(ws, mode, premium, n, month) == 0.0
  {
    if n > 0 {
      UnseenMonth(ws, mode, premium, n - 1, month);
    }
  }

  /** Every rise between two points is at least as large in `high` as in `low`. */
  ghost predicate RisesAtLeast(low: seq<real>, high: seq<real>) {
    |low| == |high| && forall i, j :: 0 <= i <= j < |low| ==> high[j] - high[i] >= low[j] - low[i]
  }

  lemma RiseSnoc(low: seq<real>, high: seq<real>, x: real, y: real)
    requires |low| > 0 && RisesAtLeast(low, high) && x <= y
    ensures RisesAtLeast(low + [low[|low| - 1] + x], high + [high[|high| - 1] + y])
  {
    var last := |low| - 1;
    forall i | 0 <= i <= last
      ensures high[last] + y - high[i] >= low[last] + x - low[i]
    {
      assert high[last] - high[i] >= low[last] - low[i];
    }
  }

  lemma {:induction false} HigherPremiumRises(ws: seq<Window>, mode: Mode, p: real, q: real, n: nat)
    requires n <= |ws| && p <= q
    ensures RisesAtLeast(Balances(ws, mode, p, n), Balances(ws, mode, q, n))
  {
    if n > 0 {
      HigherPremiumRises(ws, mode, p, q, n - 1);
      RiseSnoc(Balances(ws, mode, p, n - 1), Balances(ws, mode, q, n - 1),
               Impact(ws[n - 1], mode, p), Impact(ws[n - 1], mode, q));
    }
  }

  lemma DrawdownEases(low: seq<real>, high: seq<real>, ddLow: real, ddHigh: real)
    requires RisesAtLeast(low, high) && IsMaxDrawdown(low, ddLow) && IsMaxDrawdown(high, ddHigh)
    ensures ddHigh <= ddLow
  {
    var i, j :| 0 <= i <= j < |high| && high[i] - high[j] == ddHigh;
    assert low[i] - low[j] <= ddLow;
  }

  lemma LeastEases(low: seq<real>, high: seq<real>, leastLow: real, leastHigh: real)
    requires |low| > 0 && RisesAtLeast(low, high) && low[0] == high[0]
    requires IsLeast(low, leastLow) && IsLeast(high, leastHigh)
    ensures leastHigh >= leastLow
  {
    var k :| 0 <= k < |high| && high[k] == leastHigh;
    assert high[k] - high[0] >= low[k] - low[0];
  }

  lemma LastEases(low: seq<real>, high: seq<real>)
    requires |low| > 0 && RisesAtLeast(low, high) && low[0] == high[0]
    ensures high[|high| - 1] >= low[|low| - 1]
  {
    assert high[|high| - 1] - high[0] >= low[|low| - 1] - low[0];
  }

  /** Raising the premium never deepens the drawdown and never lowers the minimum or the final balance. */
  lemma PremiumEasesTreasury(ws: seq<Window>, mode: Mode, p: real, q: real, ddP: real, ddQ: real,
                             minP: real, minQ: real)
    requires p <= q
    requires var low, high := Balances(ws, mode, p, |ws|), Balances(ws, mode, q, |ws|);
             && IsMaxDrawdown(low, ddP) && IsMaxDrawdown(high, ddQ) && IsLeast(low, minP) && IsLeast(high, minQ)
    ensures ddQ <= ddP && minQ >= minP
    ensures Balances(ws, mode, q, |ws|)[|ws|] >= Balances(ws, mode, p, |ws|)[|ws|]
  {
    hide IsMaxDrawdown, IsLeast, RisesAtLeast;
    HigherPremiumRises(ws, mode, p, q, |ws|);
    var low, high := Balances(ws, mode, p, |ws|), Balances(ws, mode, q, |ws|);
    DrawdownEases(low, high, ddP, ddQ);
    LeastEases(low, high, minP, minQ);
    LastEases(low, high);
  }
}
