/** The figures of the definitive backtests, window by window and in total, over prices and premiums themselves. */
module BacktestFigures {
  import opened Options
  import opened Reals
  import opened BacktestWindows
  import opened PremiumSearch
  import opened Treasury

  // ---------------------------------------------------------------------------------------------
  // One window.

  /** A price a percentage below another. */
  predicate Below(price: real, percent: real, lower: real) {
    lower == price - price * (percent / 100.0)
  }

  function StrikePercent(s: Setup): real {
    match s.strike
    case AtTrigger => s.sl
    case Mid => s.sl / 2.0
    case Atm => 0.0
  }

  /** The stop that is paid out: net of one percent with the deductible, but not below zero. */
  function PaidPercent(s: Setup): real {
    if s.deductible.NoDeductible? then s.sl else if s.sl >= 1.0 then s.sl - 1.0 else 0.0
  }

  /** What a day recovers of an option struck at k, up to the distance of the lower strike. */
  predicate DayRecovers(k: real, lower: Option<real>, close: real, qty: real, recovery: real) {
    var drop := if close < k then k - close else 0.0;
    if lower.None? then recovery == drop * qty
    else
      var width := if lower.value < k then k - lower.value else 0.0;
      recovery == drop * qty <= width * qty || (recovery == width * qty && width * qty <= drop * qty)
  }

  /** The price of a put on the window, for the whole quantity. */
  function PutCost(m: Market, s: Setup, i: nat, strike: real, qty: real): real
    requires i < |m.closes|
  {
    m.bsPut(m.closes[i], strike, s.tenor as real / 365.0, m.realizedVol(i) * s.volMult) * qty
  }

  /** The option bought less the option sold, never below zero except for a plain put of the third script. */
  predicate CostOf(s: Setup, bought: real, sold: Option<real>, cost: real) {
    var paid := if sold.Some? then bought - sold.value else bought;
    cost == if paid < 0.0 && (s.script.Second? || sold.Some?) then 0.0 else paid
  }

  /** Every figure of the window entered on day i, for strikes k and lower, trigger px and quantity qty. */
  ghost predicate Figures(m: Market, s: Setup, i: nat, k: real, lower: Option<real>, px: real, qty: real, w: Window)
    requires i + s.tenor < |m.closes|
  {
    var entry := m.closes[i];
    && Below(entry, StrikePercent(s), k) && Below(entry, s.sl, px) && entry * qty == 1000.0
    && (lower.Some? <==> s.spreadLowerPct.Some?)
    && (lower.Some? ==> Below(entry, s.spreadLowerPct.value, lower.value))
    && CostOf(s, PutCost(m, s, i, k, qty),
              if lower.Some? then Some(PutCost(m, s, i, lower.value, qty)) else None, w.hedgeCost)
    && w.payout == (if w.triggerDay.Some? then 10.0 * PaidPercent(s) else 0.0)
    && |w.recoveryByDay| == s.tenor + 1
    && (forall d :: 0 <= d <= s.tenor ==> DayRecovers(k, lower, m.closes[i + d], qty, w.recoveryByDay[d]))
    && w.holdRecovery == w.recoveryByDay[s.tenor]
    && (w.regime.Calm? <==> m.realizedVol(i) < 0.4) && (w.regime.Stress? <==> m.realizedVol(i) >= 0.65)
  }

  lemma StrikesBelow(entry: real, s: Setup)
    ensures Below(entry, StrikePercent(s), StrikePrice(entry, s.sl, s.strike))
    ensures Below(entry, s.sl, TriggerPrice(entry, s.sl))
    ensures s.spreadLowerPct.Some? ==> Below(entry, s.spreadLowerPct.value, LowerStrike(entry, s).value)
  {
    TimesOneLess(entry, s.sl / 100.0);
    TimesOneLess(entry, s.sl / 200.0);
    TimesOneLess(entry, 0.0);
    assert s.sl / 2.0 / 100.0 == s.sl / 200.0;
    if s.spreadLowerPct.Some? {
      TimesOneLess(entry, s.spreadLowerPct.value / 100.0);
    }
  }

  lemma TimesOneLess(x: real, share: real)
    ensures x * (1.0 - share) == x - x * share
  {
  }

  lemma IntrinsicRecovers(k: real, lower: Option<real>, close: real, qty: real)
    ensures DayRecovers(k, lower, close, qty, Intrinsic(k, lower, close, qty))
  {
    assert Max(0.0, k - close) == if close < k then k - close else 0.0;
    if lower.Some? {
      assert Max(0.0, k - lower.value) == if lower.value < k then k - lower.value else 0.0;
    }
  }

  lemma CostIs(m: Market, s: Setup, i: nat)
    requires Fits(m, s, i)
    ensures var entry := m.closes[i];
            var lower, qty := LowerStrike(entry, s), Qty(entry);
            CostOf(s, PutCost(m, s, i, StrikePrice(entry, s.sl, s.strike), qty),
                   if lower.Some? then Some(PutCost(m, s, i, lower.value, qty)) else None, HedgeCost(m, s, i))
  {
    PutsAre(m, s, i);
    hide PlainPut, LowerPut, PutCost, StrikePrice, Qty, LowerStrike;
  }

  lemma PutsAre(m: Market, s: Setup, i: nat)
    requires Fits(m, s, i)
    ensures var entry := m.closes[i];
            && PlainPut(m, s, i) == PutCost(m, s, i, StrikePrice(entry, s.sl, s.strike), Qty(entry))
            && (LowerStrike(entry, s).Some? ==>
                  LowerPut(m, s, i, LowerStrike(entry, s).value)
                  == PutCost(m, s, i, LowerStrike(entry, s).value, Qty(entry)))
  {
    hide StrikePrice, Qty, LowerStrike;
  }

  lemma PayoutIs(s: Setup, triggered: bool)
    ensures Payout(s, triggered) == if triggered then 10.0 * PaidPercent(s) else 0.0
  {
  }

  /** What the later scripts report of a window, spelled out. */
  lemma WindowFigures(m: Market, s: Setup, i: nat, w: Window)
    requires Fits(m, s, i) && i < |m.dates| && WindowFor(m, s, i, w)
    ensures var entry := m.closes[i];
            Figures(m, s, i, StrikePrice(entry, s.sl, s.strike), LowerStrike(entry, s), TriggerPrice(entry, s.sl),
                    Qty(entry), w)
  {
    hide DayRecovers, CostOf, PutCost, Below, PaidPercent, StrikePercent, WindowFor, StrikePrice, TriggerPrice, Qty;
    var entry := m.closes[i];
    assert LowerStrike(entry, s).Some? <==> s.spreadLowerPct.Some?;
    hide LowerStrike;
    StrikesBelow(entry, s);
    DayFigures(m, s, i, w);
    CostFigures(m, s, i, w);
  }

  lemma CostFigures(m: Market, s: Setup, i: nat, w: Window)
    requires Fits(m, s, i) && i < |m.dates| && WindowFor(m, s, i, w)
    ensures var entry := m.closes[i];
            var lower, qty := LowerStrike(entry, s), Qty(entry);
            && CostOf(s, PutCost(m, s, i, StrikePrice(entry, s.sl, s.strike), qty),
                      if lower.Some? then Some(PutCost(m, s, i, lower.value, qty)) else None, w.hedgeCost)
            && w.payout == (if w.triggerDay.Some? then 10.0 * PaidPercent(s) else 0.0)
            && (w.regime.Calm? <==> m.realizedVol(i) < 0.4) && (w.regime.Stress? <==> m.realizedVol(i) >= 0.65)
  {
    hide Tabulated, StrikePrice, Payout, CostOf, PutCost, HedgeCost, LowerStrike, Qty, PaidPercent;
    CostIs(m, s, i);
    PayoutIs(s, w.triggerDay.Some?);
  }

  lemma DayFigures(m: Market, s: Setup, i: nat, w: Window)
    requires Fits(m, s, i) && i < |m.dates| && WindowFor(m, s, i, w)
    ensures |w.recoveryByDay| == s.tenor + 1 && w.holdRecovery == w.recoveryByDay[s.tenor]
    ensures var entry := m.closes[i];
            forall d :: 0 <= d <= s.tenor ==>
              DayRecovers(StrikePrice(entry, s.sl, s.strike), LowerStrike(entry, s), m.closes[i + d], Qty(entry),
                          w.recoveryByDay[d])
  {
    hide Intrinsic, DayRecovers, StrikePrice, TriggerPrice, Payout, HedgeCost, SeqMax, TakeProfit, LowerStrike, Qty,
      FirstHit, IsBestDay;
    var entry, path := m.closes[i], Path(m, s, i);
    forall d | 0 <= d <= s.tenor
      ensures DayRecovers(StrikePrice(entry, s.sl, s.strike), LowerStrike(entry, s), m.closes[i + d], Qty(entry),
                          w.recoveryByDay[d])
    {
      assert path[d] == m.closes[i + d];
      IntrinsicRecovers(StrikePrice(entry, s.sl, s.strike), LowerStrike(entry, s), path[d], Qty(entry));
    }
  }

  /** Take-profit recovers the best of the expiry day and of the trigger day and the two after it. */
  lemma TakeProfitIs(recoveryByDay: seq<real>, triggerDay: Option<nat>)
    requires |recoveryByDay| > 0 && (triggerDay.Some? ==> triggerDay.value < |recoveryByDay|)
    ensures var tp, last := TakeProfit(recoveryByDay, triggerDay), |recoveryByDay| - 1;
            && recoveryByDay[last] <= tp
            && (triggerDay.None? ==> tp == recoveryByDay[last])
            && (triggerDay.Some? ==>
                  && (forall d :: triggerDay.value <= d <= triggerDay.value + 2 && d <= last ==>
                        recoveryByDay[d] <= tp)
                  && (tp == recoveryByDay[last]
                      || exists d :: triggerDay.value <= d <= triggerDay.value + 2 && d <= last
                           && tp == recoveryByDay[d]))
  {
    if triggerDay.Some? {
      var last := |recoveryByDay| - 1;
      var held := recoveryByDay[triggerDay.value..Least(triggerDay.value + 2, last) + 1];
      SeqMaxBounds(held);
      hide SeqMax;
      forall d | triggerDay.value <= d <= triggerDay.value + 2 && d <= last
        ensures recoveryByDay[d] <= TakeProfit(recoveryByDay, triggerDay)
      {
        assert held[d - triggerDay.value] == recoveryByDay[d] && held[d - triggerDay.value] in held;
      }
      var n :| 0 <= n < |held| && held[n] == SeqMax(held);
      assert held[n] == recoveryByDay[triggerDay.value + n];
    }
  }

  /** The days below n with a positive price, in order, and no other day. */
  ghost predicate EnteredBelow(m: Market, n: nat, days: seq<nat>)
    requires n <= |m.closes|
  {
    && (forall i :: i in days <==> 0 <= i < n && m.closes[i] > 0.0)
    && (forall j, k :: 0 <= j < k < |days| ==> days[j] < days[k])
  }

  lemma OneMoreDay(m: Market, n: nat, days: seq<nat>)
    requires n < |m.closes| && EnteredBelow(m, n, days)
    ensures EnteredBelow(m, n + 1, if m.closes[n] > 0.0 then days + [n] else days)
  {
    if m.closes[n] > 0.0 {
      assert forall j :: 0 <= j < |days| ==> days[j] in days;
      assert forall i :: i in days + [n] <==> i in days || i == n;
    }
  }

  /** Every day with a positive price is an entry day, in order, and no other is. */
  lemma {:induction false} EntryDaysAre(m: Market, s: Setup, n: nat)
    requires n + s.tenor <= |m.closes|
    ensures EnteredBelow(m, n, EntryDays(m, s, n))
  {
    hide EntryDays, EnteredBelow, Fits;
    if n == 0 {
      NoDaysYet(m, s, n);
    } else {
      EntryDaysAre(m, s, n - 1);
      OneMoreDay(m, n - 1, EntryDays(m, s, n - 1));
      EntryDaysStep(m, s, n - 1);
    }
  }

  lemma NoDaysYet(m: Market, s: Setup, n: nat)
    requires n == 0 && s.tenor <= |m.closes|
    ensures EnteredBelow(m, n, EntryDays(m, s, n))
  {
    assert EntryDays(m, s, n) == [];
  }

  lemma EntryDaysStep(m: Market, s: Setup, n: nat)
    requires n + 1 + s.tenor <= |m.closes|
    ensures EntryDays(m, s, n + 1)
         == if m.closes[n] > 0.0 then EntryDays(m, s, n) + [n] else EntryDays(m, s, n)
  {
    hide Fits;
    var days := EntryDays(m, s, n);
    assert EntryDays(m, s, n + 1) == days + if m.closes[n] > 0.0 then [n] else [];
  }

  /** Months are listed once each, and a later window only adds to the list. */
  lemma {:induction false} MonthsGrow(ws: seq<Window>, n: nat, later: nat)
    requires n <= later <= |ws|
    ensures Months(ws, n) <= Months(ws, later)
    ensures forall j, k :: 0 <= j < k < |Months(ws, later)| ==> Months(ws, later)[j] != Months(ws, later)[k]
    decreases later
  {
    hide Month;
    if n < later {
      MonthsGrow(ws, n, later - 1);
    } else if later > 0 {
      MonthsGrow(ws, later - 1, later - 1);
    }
  }

  // ---------------------------------------------------------------------------------------------
  // Many windows.

  /** What a window earns at a premium, by the recovery its mode names. */
  function Earns(w: Window, mode: Mode, premium: real): real {
    premium - w.hedgeCost - w.payout
    + match mode
      case Hold => w.holdRecovery
      case Tp => w.tpRecovery
      case Best => w.bestRecovery
  }

  function Earned(ws: seq<Window>, mode: Mode, premium: real): real {
    if |ws| == 0 then 0.0 else Earned(ws[..|ws| - 1], mode, premium) + Earns(ws[|ws| - 1], mode, premium)
  }

  /** How many windows do not lose. */
  function NotLosing(ws: seq<Window>, mode: Mode, premium: real): (n: nat)
    ensures n <= |ws|
  {
    if |ws| == 0 then 0
    else NotLosing(ws[..|ws| - 1], mode, premium) + if Earns(ws[|ws| - 1], mode, premium) >= 0.0 then 1 else 0
  }

  lemma {:induction false} EarnedIsPnl(ws: seq<Window>, mode: Mode, premium: real)
    ensures PnlSum(ws, mode, premium) == Earned(ws, mode, premium)
    ensures Wins(ws, mode, premium) == NotLosing(ws, mode, premium)
  {
    if |ws| > 0 {
      EarnedIsPnl(ws[..|ws| - 1], mode, premium);
    }
  }

  predicate AtLeastShare(count: nat, share: real, n: nat) {
    count as real >= share * n as real
  }

  /** A premium qualifies exactly when the windows earn on the whole and a large enough share of them does not lose. */
  lemma QualifiesIff(ws: seq<Window>, mode: Mode, premium: real, minWinRate: real)
    ensures Qualifies(ws, mode, premium, minWinRate)
       <==> Earned(ws, mode, premium) > 0.0 && AtLeastShare(NotLosing(ws, mode, premium), minWinRate, |ws|)
  {
    if |ws| > 0 {
      hide Earned, NotLosing, PnlSum, Wins, TotalCost, Mean, BreakEven, AtLeastShare;
      EarnedIsPnl(ws, mode, premium);
      MeanPnlIsPremiumLessBreakEven(ws, mode, premium);
      MeanSign(PnlSum(ws, mode, premium), |ws|);
      MeanAtLeast(Wins(ws, mode, premium), |ws|, minWinRate);
    } else {
      assert Earned(ws, mode, premium) == 0.0;
    }
  }

  lemma MeanAtLeast(count: nat, n: nat, share: real)
    requires n > 0
    ensures Mean(count as real, n) >= share <==> AtLeastShare(count, share, n)
  {
    DivAtLeast(count as real, n as real, share);
  }

  lemma MeanSign(total: real, n: nat)
    requires n > 0
    ensures Mean(total, n) > 0.0 <==> total > 0.0
  {
    var mean := total / n as real;
    assert mean * n as real == total;
    if mean > 0.0 {
      MulPositive(mean, n as real);
    } else {
      assert (-mean) * n as real >= 0.0;
    }
  }

  /** The break-even is the premium at which the windows earn nothing on the whole. */
  lemma BreakEvenEarnsNothing(ws: seq<Window>, mode: Mode)
    requires |ws| > 0
    ensures Earned(ws, mode, BreakEven(ws, mode)) == 0.0
  {
    hide TotalCost, Earned, PnlSum;
    var b := BreakEven(ws, mode);
    EarnedIsPnl(ws, mode, b);
    PnlSumIsShifted(ws, mode, b);
    assert |ws| as real * b == TotalCost(ws, mode);
  }

  /** The windows of a regime are exactly those of that regime, each as often as it occurs. */
  lemma {:induction false} RegimeIsFilter(ws: seq<Window>, regime: Regime)
    ensures forall w :: w in OfRegime(ws, regime) ==> w.regime == regime
    ensures forall w: Window :: w.regime == regime ==> multiset(OfRegime(ws, regime))[w] == multiset(ws)[w]
  {
    if |ws| > 0 {
      var init, last := ws[..|ws| - 1], ws[|ws| - 1];
      RegimeIsFilter(init, regime);
      assert ws == init + [last];
      assert multiset(ws) == multiset(init) + multiset{last};
      assert multiset(OfRegime(ws, regime))
          == multiset(OfRegime(init, regime)) + if last.regime == regime then multiset{last} else multiset{};
    }
  }

  // ---------------------------------------------------------------------------------------------
  // The treasury.

  /** Every balance is the 100,000 of the start plus five times what the windows so far earned. */
  lemma {:induction false} BalanceIsEarned(ws: seq<Window>, mode: Mode, premium: real, n: nat)
    requires n <= |ws|
    ensures Balances(ws, mode, premium, n)[n] == 100000.0 + 5.0 * Earned(ws[..n], mode, premium)
    ensures forall k :: 0 <= k <= n ==> Balances(ws, mode, premium, n)[k] == Balances(ws, mode, premium, k)[k]
  {
    if n > 0 {
      BalanceIsEarned(ws, mode, premium, n - 1);
      assert ws[..n][..n - 1] == ws[..n - 1];
    }
  }

  predicate SameMonth(a: string, b: string) {
    if |a| > 7 && |b| > 7 then a[..7] == b[..7]
    else (if |a| > 7 then a[..7] else a) == (if |b| > 7 then b[..7] else b)
  }

  /** What the windows whose date shares its first seven characters with the given one earned. */
  function EarnedIn(ws: seq<Window>, mode: Mode, premium: real, date: string): real {
    if |ws| == 0 then 0.0
    else
      EarnedIn(ws[..|ws| - 1], mode, premium, date)
      + if SameMonth(ws[|ws| - 1].date, date) then Earns(ws[|ws| - 1], mode, premium) else 0.0
  }

  /** A month's total is five times that. */
  lemma {:induction false} MonthIsEarned(ws: seq<Window>, mode: Mode, premium: real, n: nat, w: Window)
    requires n <= |ws|
    ensures MonthTotal(ws, mode, premium, n, Month(w)) == 5.0 * EarnedIn(ws[..n], mode, premium, w.date)
  {
    if n > 0 {
      MonthIsEarned(ws, mode, premium, n - 1, w);
      assert ws[..n][..n - 1] == ws[..n - 1];
    }
  }

  /** The months listed are exactly those of the windows. */
  lemma {:induction false} MonthsAreListed(ws: seq<Window>, n: nat)
    requires n <= |ws|
    ensures forall k :: 0 <= k < n ==> Month(ws[k]) in Months(ws, n)
    ensures forall x :: x in Months(ws, n) ==> exists k :: 0 <= k < n && Month(ws[k]) == x
  {
    hide Month;
    if n > 0 {
      MonthsAreListed(ws, n - 1);
    }
  }
}
