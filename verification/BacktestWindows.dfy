/**
 * The two window engines of the definitive backtests: runConfig of the first script, which tracks the lowest close,
 * and runWindows of the second and third, which tabulate the intrinsic value of the hedge day by day.
 */
module BacktestWindows {
  import opened Options
  import opened Reals

  datatype Strike = AtTrigger | Mid | Atm
  datatype Deductible = NoDeductible | OnePct
  datatype Regime = Calm | Normal | Stress

  // The option price and the realized volatility are arbitrary functions.
  datatype Market = Market(
    closes: seq<real>,
    dates: seq<string>,
    bsPut: (real, real, real, real) -> real,
    realizedVol: nat -> real
  )

  // The second script raises every negative hedge cost to zero, the third only that of a spread.
  datatype Script = Second | Third

  datatype Setup = Setup(
    script: Script,
    sl: real,
    strike: Strike,
    deductible: Deductible,
    volMult: real,
    tenor: nat,
    spreadLowerPct: Option<real>
  )

  datatype Window = Window(
    hedgeCost: real,
    payout: real,
    recoveryByDay: seq<real>,
    holdRecovery: real,
    tpRecovery: real,
    bestRecovery: real,
    bestRecoveryDay: nat,
    triggerDay: Option<nat>,
    regime: Regime,
    date: string
  )

  // A window of the first script.
  datatype LegacyWindow = LegacyWindow(
    hedgeCost: real,
    payout: real,
    recovery: real,
    triggered: bool,
    regime: Regime,
    date: string
  )

  const NOTIONAL := 1000.0

  function StrikePrice(entry: real, sl: real, strike: Strike): real {
    match strike
    case AtTrigger => entry * (1.0 - sl / 100.0)
    case Mid => entry * (1.0 - sl / 200.0)
    case Atm => entry
  }

  function TriggerPrice(entry: real, sl: real): real {
    entry * (1.0 - sl / 100.0)
  }

  function ClassifyRegime(vol: real): Regime {
    if vol < 0.4 then Calm else if vol < 0.65 then Normal else Stress
  }

  function EffectiveSl(s: Setup): real {
    if s.deductible.OnePct? then Max(0.0, s.sl - 1.0) else s.sl
  }

  function Payout(s: Setup, triggered: bool): real {
    if triggered then NOTIONAL * EffectiveSl(s) / 100.0 else 0.0
  }

  function SeqMax(s: seq<real>): real
    requires |s| > 0
  {
    if |s| == 1 then s[0] else Max(SeqMax(s[..|s| - 1]), s[|s| - 1])
  }

  function SeqMin(s: seq<real>): real
    requires |s| > 0
  {
    if |s| == 1 then s[0] else Min(SeqMin(s[..|s| - 1]), s[|s| - 1])
  }

  lemma {:induction false} SeqMaxBounds(s: seq<real>)
    requires |s| > 0
    ensures (forall x :: x in s ==> x <= SeqMax(s)) && SeqMax(s) in s
  {
    if |s| > 1 {
      var init, last := s[..|s| - 1], s[|s| - 1];
      SeqMaxBounds(init);
      assert s == init + [last] && SeqMax(s) == Max(SeqMax(init), last);
      hide SeqMax;
    }
  }

  lemma {:induction false} SeqMinBounds(s: seq<real>)
    requires |s| > 0
    ensures (forall x :: x in s ==> SeqMin(s) <= x) && SeqMin(s) in s
  {
    if |s| > 1 {
      var init, last := s[..|s| - 1], s[|s| - 1];
      SeqMinBounds(init);
      assert s == init + [last] && SeqMin(s) == Min(SeqMin(init), last);
      hide SeqMin;
    }
  }

  lemma SeqMaxSnoc(s: seq<real>, d: nat, t: nat)
    requires t <= d < |s|
    ensures SeqMax(s[t..d + 1]) == if d == t then s[d] else Max(SeqMax(s[t..d]), s[d])
  {
    assert s[t..d + 1][..d - t] == s[t..d];
  }

  lemma SeqMinSnoc(s: seq<real>, d: nat, t: nat)
    requires t <= d < |s|
    ensures SeqMin(s[t..d + 1]) == if d == t then s[d] else Min(SeqMin(s[t..d]), s[d])
  {
    assert s[t..d + 1][..d - t] == s[t..d];
  }

  /** The first day of the path at or below the trigger. */
  ghost predicate FirstHit(path: seq<real>, px: real, day: Option<nat>) {
    match day
    case Some(d) => d < |path| && path[d] <= px && forall e :: 0 <= e < d ==> path[e] > px
    case None => forall e :: 0 <= e < |path| ==> path[e] > px
  }

  /** A plain put, or a put spread whose recovery is capped at the width of the spread. */
  function Intrinsic(k: real, lower: Option<real>, close: real, qty: real): real {
    var intrinsic := Max(0.0, k - close) * qty;
    if lower.Some? then Min(intrinsic, Max(0.0, k - lower.value) * qty) else intrinsic
  }

  function LowerStrike(entry: real, s: Setup): Option<real> {
    if s.spreadLowerPct.Some? then Some(entry * (1.0 - s.spreadLowerPct.value / 100.0)) else None
  }

  function Least(a: nat, b: nat): nat {
    if a <= b then a else b
  }

  /** The plain put of a window at the arbitrary option price, for the whole quantity. */
  function PlainPut(m: Market, s: Setup, i: nat): real
    requires i < |m.closes| && m.closes[i] > 0.0
  {
    var entry := m.closes[i];
    var k := StrikePrice(entry, s.sl, s.strike);
    m.bsPut(entry, k, s.tenor as real / 365.0, m.realizedVol(i) * s.volMult) * Qty(entry)
  }

  function LowerPut(m: Market, s: Setup, i: nat, lower: real): real
    requires i < |m.closes| && m.closes[i] > 0.0
  {
    var entry := m.closes[i];
    m.bsPut(entry, lower, s.tenor as real / 365.0, m.realizedVol(i) * s.volMult) * Qty(entry)
  }

  function HedgeCost(m: Market, s: Setup, i: nat): real
    requires i < |m.closes| && m.closes[i] > 0.0
  {
    var lower := LowerStrike(m.closes[i], s);
    if lower.Some? then Max(0.0, PlainPut(m, s, i) - LowerPut(m, s, i, lower.value))
    else if s.script.Second? then Max(0.0, PlainPut(m, s, i))
    else PlainPut(m, s, i)
  }

  /** The window entered on day i of the series spans tenor + 1 closes. */
  predicate Fits(m: Market, s: Setup, i: nat) {
    i + s.tenor < |m.closes| && m.closes[i] > 0.0
  }

  function Path(m: Market, s: Setup, i: nat): (path: seq<real>)
    requires i + s.tenor < |m.closes|
    ensures |path| == s.tenor + 1
  {
    m.closes[i..i + s.tenor + 1]
  }

  /** The expiry day when no day recovers more, otherwise the first of the best days. */
  ghost predicate IsBestDay(recoveryByDay: seq<real>, day: nat)
    requires |recoveryByDay| > 0
  {
    var tenor := |recoveryByDay| - 1;
    && day <= tenor
    && recoveryByDay[day] == SeqMax(recoveryByDay)
    && (day < tenor ==> recoveryByDay[tenor] < recoveryByDay[day])
    && (day < tenor ==> forall e :: 0 <= e < day ==> recoveryByDay[e] < recoveryByDay[day])
  }

  /** Trigger day and recoveries over a path of closes: the tabulated form of the second and third scripts. */
  ghost predicate Tabulated(path: seq<real>, k: real, lower: Option<real>, px: real, qty: real, w: Window)
    requires |path| > 0
  {
    && FirstHit(path, px, w.triggerDay)
    && |w.recoveryByDay| == |path|
    && (forall d :: 0 <= d < |path| ==> w.recoveryByDay[d] == Intrinsic(k, lower, path[d], qty))
    && w.holdRecovery == w.recoveryByDay[|path| - 1]
    && w.tpRecovery == TakeProfit(w.recoveryByDay, w.triggerDay)
    && w.bestRecovery == SeqMax(w.recoveryByDay)
    && IsBestDay(w.recoveryByDay, w.bestRecoveryDay)
  }

  function Qty(entry: real): (qty: real)
    requires entry > 0.0
    ensures qty > 0.0 && entry * qty == NOTIONAL
  {
    NOTIONAL / entry
  }

  /** What the second and third scripts promise of the window entered on day i. */
  ghost predicate WindowFor(m: Market, s: Setup, i: nat, w: Window)
    requires Fits(m, s, i) && i < |m.dates|
  {
    var entry := m.closes[i];
    && Tabulated(Path(m, s, i), StrikePrice(entry, s.sl, s.strike), LowerStrike(entry, s), TriggerPrice(entry, s.sl),
                 Qty(entry), w)
    && w.hedgeCost == HedgeCost(m, s, i)
    && w.payout == Payout(s, w.triggerDay.Some?)
    && w.regime == ClassifyRegime(m.realizedVol(i))
    && w.date == m.dates[i]
  }

  /** The better of holding to expiry and of the best day among the trigger day and the two after it. */
  function TakeProfit(recoveryByDay: seq<real>, triggerDay: Option<nat>): real
    requires |recoveryByDay| > 0 && (triggerDay.Some? ==> triggerDay.value < |recoveryByDay|)
  {
    var tenor := |recoveryByDay| - 1;
    if triggerDay.None? then recoveryByDay[tenor]
    else
      Max(recoveryByDay[tenor], SeqMax(recoveryByDay[triggerDay.value..Least(triggerDay.value + 2, tenor) + 1]))
  }

  lemma FirstHitSnoc(path: seq<real>, px: real, day: Option<nat>, d: nat)
    requires d < |path| && FirstHit(path[..d], px, day)
    ensures FirstHit(path[..d + 1], px, if day.None? && path[d] <= px then Some(d) else day)
  {
    assert path[..d + 1] == path[..d] + [path[d]];
  }

  method FindTrigger(path: seq<real>, px: real) returns (triggerDay: Option<nat>)
    ensures FirstHit(path, px, triggerDay)
  {
    triggerDay := None;
    for d := 0 to |path|
      invariant FirstHit(path[..d], px, triggerDay)
    {
      FirstHitSnoc(path, px, triggerDay, d);
      if triggerDay.None? && path[d] <= px { triggerDay := Some(d); }
    }
    assert path[..|path|] == path;
  }

  method DailyRecovery(path: seq<real>, k: real, lower: Option<real>, qty: real) returns (recoveryByDay: seq<real>)
    ensures |recoveryByDay| == |path|
    ensures forall d :: 0 <= d < |path| ==> recoveryByDay[d] == Intrinsic(k, lower, path[d], qty)
  {
    recoveryByDay := [];
    for d := 0 to |path|
      invariant |recoveryByDay| == d
      invariant forall e :: 0 <= e < d ==> recoveryByDay[e] == Intrinsic(k, lower, path[e], qty)
    {
      var intrinsic := Max(0.0, k - path[d]) * qty;
      if lower.Some? {
        var spreadCap := Max(0.0, k - lower.value) * qty;
        intrinsic := Min(intrinsic, spreadCap);
      }
      recoveryByDay := recoveryByDay + [intrinsic];
    }
  }

  method BestDay(recoveryByDay: seq<real>) returns (best: real, day: nat)
    requires |recoveryByDay| > 0
    ensures best == SeqMax(recoveryByDay) && IsBestDay(recoveryByDay, day)
  {
    var tenor := |recoveryByDay| - 1;
    best, day := recoveryByDay[tenor], tenor;
    for d := 0 to |recoveryByDay|
      invariant day <= tenor && recoveryByDay[day] == best >= recoveryByDay[tenor]
      invariant forall e :: 0 <= e < d ==> recoveryByDay[e] <= best
      invariant if day == tenor then best == recoveryByDay[tenor]
                else best > recoveryByDay[tenor] && forall e :: 0 <= e < day ==> recoveryByDay[e] < best
    {
      if recoveryByDay[d] > best { best, day := recoveryByDay[d], d; }
    }
    SeqMaxBounds(recoveryByDay);
    assert recoveryByDay[day] in recoveryByDay;
  }

  method TakeProfitScan(recoveryByDay: seq<real>, triggerDay: Option<nat>) returns (tp: real)
    requires |recoveryByDay| > 0 && (triggerDay.Some? ==> triggerDay.value < |recoveryByDay|)
    ensures tp == TakeProfit(recoveryByDay, triggerDay)
  {
    var tenor := |recoveryByDay| - 1;
    tp := recoveryByDay[tenor];
    if triggerDay.Some? {
      var t, tpEnd := triggerDay.value, Least(triggerDay.value + 2, tenor);
      for d := t to tpEnd + 1
        invariant tp == if d == t then recoveryByDay[tenor] else Max(recoveryByDay[tenor], SeqMax(recoveryByDay[t..d]))
      {
        SeqMaxSnoc(recoveryByDay, d, t);
        if recoveryByDay[d] > tp { tp := recoveryByDay[d]; }
      }
    }
  }

  /** The days a run keeps: those with a positive entry price and a full tenor ahead. */
  function EntryDays(m: Market, s: Setup, n: nat): (days: seq<nat>)
    requires n + s.tenor <= |m.closes|
    ensures forall j :: 0 <= j < |days| ==> days[j] < n && Fits(m, s, days[j])
  {
    if n == 0 then []
    else EntryDays(m, s, n - 1) + if m.closes[n - 1] > 0.0 then [n - 1] else []
  }

  function WindowCount(m: Market, s: Setup): nat {
    if |m.closes| > s.tenor then |m.closes| - s.tenor else 0
  }

  ghost predicate WindowsFor(m: Market, s: Setup, days: seq<nat>, ws: seq<Window>)
    requires |m.dates| == |m.closes|
  {
    |ws| == |days| && forall j :: 0 <= j < |days| ==> Fits(m, s, days[j]) && WindowFor(m, s, days[j], ws[j])
  }

  lemma NoWindows(m: Market, s: Setup)
    requires |m.dates| == |m.closes|
    ensures WindowsFor(m, s, [], [])
  {
  }

  lemma OneMoreWindow(m: Market, s: Setup, days: seq<nat>, ws: seq<Window>, i: nat, w: Window)
    requires |m.dates| == |m.closes| && WindowsFor(m, s, days, ws)
    requires Fits(m, s, i) && WindowFor(m, s, i, w)
    ensures WindowsFor(m, s, days + [i], ws + [w])
  {
    hide WindowFor;
  }

  method RunWindows(m: Market, s: Setup) returns (results: seq<Window>)
    requires |m.dates| == |m.closes|
    ensures |m.closes| > s.tenor ==> WindowsFor(m, s, EntryDays(m, s, WindowCount(m, s)), results)
    ensures |m.closes| <= s.tenor ==> results == []
  {
    NoWindows(m, s);
    hide WindowFor, WindowsFor;
    results := [];
    var i := 0;
    while i + s.tenor < |m.closes|
      invariant |m.closes| > s.tenor ==> i + s.tenor <= |m.closes|
      invariant |m.closes| <= s.tenor ==> i == 0 && results == []
      invariant |m.closes| > s.tenor ==> WindowsFor(m, s, EntryDays(m, s, i), results)
    {
      if m.closes[i] > 0.0 {
        var w := RunWindow(m, s, i);
        OneMoreWindow(m, s, EntryDays(m, s, i), results, i, w);
        assert EntryDays(m, s, i + 1) == EntryDays(m, s, i) + [i];
        results := results + [w];
      } else {
        assert EntryDays(m, s, i + 1) == EntryDays(m, s, i);
      }
      i := i + 1;
    }
  }

  method RunWindow(m: Market, s: Setup, i: nat) returns (w: Window)
    requires |m.dates| == |m.closes| && Fits(m, s, i)
    ensures WindowFor(m, s, i, w)
  {
    var entry, path := m.closes[i], Path(m, s, i);
    var rawVol := m.realizedVol(i);
    var k := StrikePrice(entry, s.sl, s.strike);
    var triggerPx := TriggerPrice(entry, s.sl);
    var qty := Qty(entry);
    var hedgeCost := HedgeCost(m, s, i);
    var triggerDay := FindTrigger(path, triggerPx);
    var payout := Payout(s, triggerDay.Some?);
    var recoveryByDay := DailyRecovery(path, k, LowerStrike(entry, s), qty);
    var bestRecovery, bestRecoveryDay := BestDay(recoveryByDay);
    var tpRecovery := TakeProfitScan(recoveryByDay, triggerDay);
    w := Window(hedgeCost, payout, recoveryByDay, recoveryByDay[s.tenor], tpRecovery, bestRecovery, bestRecoveryDay,
                triggerDay, ClassifyRegime(rawVol), m.dates[i]);
  }

  // ---------------------------------------------------------------------------------------------
  // The first script.

  /** The lowest close among the trigger day and the two after it. */
  function LowestTp(path: seq<real>, day: nat): real
    requires day < |path|
  {
    SeqMin(path[day..Least(day + 2, |path| - 1) + 1])
  }

  /** Trigger and recovery of the first script, from the lowest close; `tp` selects the take-profit recovery. */
  ghost predicate FromLowest(path: seq<real>, k: real, px: real, qty: real, tp: bool, w: LegacyWindow)
    requires |path| > 0
  {
    var hold := Intrinsic(k, None, path[|path| - 1], qty);
    && w.triggered == (SeqMin(path) <= px)
    && (!(tp && w.triggered) ==> w.recovery == hold)
    && (tp && w.triggered ==>
          forall day: nat :: FirstHit(path, px, Some(day)) ==>
            w.recovery == Max(Intrinsic(k, None, LowestTp(path, day), qty), hold))
  }

  /** What the first script promises of the window entered on day i. */
  ghost predicate LegacyWindowFor(m: Market, s: Setup, tp: bool, i: nat, w: LegacyWindow)
    requires Fits(m, s, i) && i < |m.dates|
  {
    var entry := m.closes[i];
    var k := StrikePrice(entry, s.sl, s.strike);
    && FromLowest(Path(m, s, i), k, TriggerPrice(entry, s.sl), Qty(entry), tp, w)
    && w.hedgeCost == PlainPut(m, s, i)
    && w.payout == Payout(s, w.triggered)
    && w.regime == ClassifyRegime(m.realizedVol(i))
    && w.date == m.dates[i]
  }

  lemma NoHitYet(px: real)
    ensures FirstHit([], px, None)
  {
  }

  method LowestClose(path: seq<real>, px: real) returns (minPx: real, triggerDay: Option<nat>)
    requires |path| > 0
    ensures minPx == SeqMin(path) && FirstHit(path, px, triggerDay)
  {
    minPx, triggerDay := path[0], None;
    NoHitYet(px);
    hide FirstHit, SeqMin;
    for d := 0 to |path|
      invariant minPx == if d == 0 then path[0] else SeqMin(path[0..d])
      invariant FirstHit(path[..d], px, triggerDay)
    {
      SeqMinSnoc(path, d, 0);
      FirstHitSnoc(path, px, triggerDay, d);
      if path[d] < minPx { minPx := path[d]; }
      if triggerDay.None? && path[d] <= px { triggerDay := Some(d); }
    }
    assert path[0..|path|] == path == path[..|path|];
  }

  method LowestAfterTrigger(path: seq<real>, t: nat) returns (lowestTp: real)
    requires t < |path|
    ensures lowestTp == LowestTp(path, t)
  {
    var tpEnd := Least(t + 2, |path| - 1);
    lowestTp := path[t];
    for d := t to tpEnd + 1
      invariant lowestTp == if d == t then path[t] else SeqMin(path[t..d])
    {
      SeqMinSnoc(path, d, t);
      if path[d] < lowestTp { lowestTp := path[d]; }
    }
  }

  method RunLegacyWindow(m: Market, s: Setup, tp: bool, i: nat) returns (w: LegacyWindow)
    requires |m.dates| == |m.closes| && Fits(m, s, i)
    ensures LegacyWindowFor(m, s, tp, i, w)
  {
    var entry, path := m.closes[i], Path(m, s, i);
    var k, px, qty := StrikePrice(entry, s.sl, s.strike), TriggerPrice(entry, s.sl), Qty(entry);
    var hedgeCost := PlainPut(m, s, i);
    var minPx, triggerDay := LowestClose(path, px);
    var triggered := minPx <= px;
    MinimumIsHit(path, px, triggerDay);
    var holdRecovery := Intrinsic(k, None, path[s.tenor], qty);
    var recovery := holdRecovery;
    if tp && triggered && triggerDay.Some? {
      var lowestTp := LowestAfterTrigger(path, triggerDay.value);
      forall day: nat | FirstHit(path, px, Some(day))
        ensures day == triggerDay.value
      {
        FirstHitUnique(path, px, triggerDay, Some(day));
      }
      recovery := Max(Intrinsic(k, None, lowestTp, qty), holdRecovery);
    }
    w := LegacyWindow(hedgeCost, Payout(s, triggered), recovery, triggered, ClassifyRegime(m.realizedVol(i)),
                      m.dates[i]);
  }

  function TriggerCount(ws: seq<LegacyWindow>): nat {
    if |ws| == 0 then 0 else TriggerCount(ws[..|ws| - 1]) + if ws[|ws| - 1].triggered then 1 else 0
  }

  ghost predicate LegacyWindowsFor(m: Market, s: Setup, tp: bool, days: seq<nat>, ws: seq<LegacyWindow>)
    requires |m.dates| == |m.closes|
  {
    |ws| == |days| && forall j :: 0 <= j < |days| ==> Fits(m, s, days[j]) && LegacyWindowFor(m, s, tp, days[j], ws[j])
  }

  lemma NoLegacyWindows(m: Market, s: Setup, tp: bool)
    requires |m.dates| == |m.closes|
    ensures LegacyWindowsFor(m, s, tp, [], []) && TriggerCount([]) == 0
  {
  }

  lemma OneMoreLegacyWindow(m: Market, s: Setup, tp: bool, days: seq<nat>, ws: seq<LegacyWindow>, i: nat,
                            w: LegacyWindow)
    requires |m.dates| == |m.closes| && LegacyWindowsFor(m, s, tp, days, ws)
    requires Fits(m, s, i) && LegacyWindowFor(m, s, tp, i, w)
    ensures LegacyWindowsFor(m, s, tp, days + [i], ws + [w])
    ensures TriggerCount(ws + [w]) == TriggerCount(ws) + if w.triggered then 1 else 0
  {
    hide LegacyWindowFor;
    assert (ws + [w])[..|ws|] == ws;
  }

  method RunLegacyWindows(m: Market, s: Setup, tp: bool) returns (results: seq<LegacyWindow>, triggerCount: nat)
    requires |m.dates| == |m.closes|
    ensures |m.closes| > s.tenor ==> LegacyWindowsFor(m, s, tp, EntryDays(m, s, WindowCount(m, s)), results)
    ensures |m.closes| <= s.tenor ==> results == []
    ensures triggerCount == TriggerCount(results)
  {
    hide LegacyWindowFor, LegacyWindowsFor, TriggerCount;
    results, triggerCount := [], 0;
    NoLegacyWindows(m, s, tp);
    var i := 0;
    while i + s.tenor < |m.closes|
      invariant |m.closes| > s.tenor ==>
                  i + s.tenor <= |m.closes| && LegacyWindowsFor(m, s, tp, EntryDays(m, s, i), results)
      invariant |m.closes| <= s.tenor ==> i == 0 && results == []
      invariant triggerCount == TriggerCount(results)
    {
      if m.closes[i] > 0.0 {
        var w := RunLegacyWindow(m, s, tp, i);
        if w.triggered { triggerCount := triggerCount + 1; }
        OneMoreLegacyWindow(m, s, tp, EntryDays(m, s, i), results, i, w);
        results := results + [w];
      } else {
        assert EntryDays(m, s, i + 1) == EntryDays(m, s, i);
      }
      i := i + 1;
    }
  }

  // ---------------------------------------------------------------------------------------------
  // The engines agree.

  /** "The window minimum is at or below the trigger" is "a first-hit day exists". */
  lemma MinimumIsHit(path: seq<real>, px: real, day: Option<nat>)
    requires |path| > 0 && FirstHit(path, px, day)
    ensures SeqMin(path) <= px <==> day.Some?
  {
    SeqMinBounds(path);
    if day.Some? {
      assert path[day.value] in path;
    }
  }

  lemma FirstHitUnique(path: seq<real>, px: real, a: Option<nat>, b: Option<nat>)
    requires FirstHit(path, px, a) && FirstHit(path, px, b)
    ensures a == b
  {
  }

  lemma IntrinsicAntitone(k: real, a: real, b: real, qty: real)
    requires a <= b && qty >= 0.0
    ensures Intrinsic(k, None, b, qty) <= Intrinsic(k, None, a, qty)
  {
    MulLe(Max(0.0, k - b), Max(0.0, k - a), qty);
  }

  /** The best daily intrinsic value is the intrinsic value at the lowest close. */
  lemma {:induction false} BestIntrinsicAtLowest(k: real, qty: real, path: seq<real>, rec: seq<real>)
    requires |path| == |rec| > 0 && qty >= 0.0
    requires forall d :: 0 <= d < |path| ==> rec[d] == Intrinsic(k, None, path[d], qty)
    ensures SeqMax(rec) == Intrinsic(k, None, SeqMin(path), qty)
  {
    SeqMaxBounds(rec);
    SeqMinBounds(path);
    var low :| 0 <= low < |path| && path[low] == SeqMin(path);
    var high :| 0 <= high < |rec| && rec[high] == SeqMax(rec);
    assert rec[low] in rec && path[high] in path;
    IntrinsicAntitone(k, path[low], path[high], qty);
  }

  /** Over the same path the tabulated engine and the lowest-close engine trigger together and recover the same. */
  lemma FormsAgree(path: seq<real>, k: real, px: real, qty: real, tp: bool, v: Window, w: LegacyWindow)
    requires |path| > 0 && qty >= 0.0
    requires Tabulated(path, k, None, px, qty, v) && FromLowest(path, k, px, qty, tp, w)
    ensures w.triggered <==> v.triggerDay.Some?
    ensures w.recovery == if tp then v.tpRecovery else v.holdRecovery
  {
    hide SeqMax, SeqMin, Intrinsic;
    MinimumIsHit(path, px, v.triggerDay);
    if tp && w.triggered {
      var day := v.triggerDay.value;
      var end := Least(day + 2, |path| - 1) + 1;
      BestIntrinsicAtLowest(k, qty, path[day..end], v.recoveryByDay[day..end]);
    }
  }

  lemma CostsAgree(m: Market, s: Setup, tp: bool, i: nat, v: Window, w: LegacyWindow)
    requires Fits(m, s, i) && i < |m.dates| && s.spreadLowerPct.None?
    requires WindowFor(m, s, i, v) && LegacyWindowFor(m, s, tp, i, w)
    ensures w.hedgeCost == PlainPut(m, s, i) && v.hedgeCost == HedgeCost(m, s, i)
    ensures w.hedgeCost == v.hedgeCost <==> s.script.Third? || w.hedgeCost >= 0.0
  {
    hide Tabulated, FromLowest, PlainPut, LowerPut, Qty, TriggerPrice, StrikePrice, Payout, ClassifyRegime, Path;
  }

  /**
   * For every price series, tenor and strike the first script's engine and the later ones report the same window:
   * trigger, payout, and the recovery of either mode; and the same hedge cost, unless a put priced below zero meets
   * the second script.
   */
  lemma EnginesAgree(m: Market, s: Setup, tp: bool, i: nat, v: Window, w: LegacyWindow)
    requires Fits(m, s, i) && i < |m.dates| && s.spreadLowerPct.None?
    requires WindowFor(m, s, i, v) && LegacyWindowFor(m, s, tp, i, w)
    ensures w.triggered <==> v.triggerDay.Some?
    ensures w.payout == v.payout && w.regime == v.regime && w.date == v.date
    ensures w.hedgeCost == v.hedgeCost <==> s.script.Third? || w.hedgeCost >= 0.0
    ensures w.recovery == if tp then v.tpRecovery else v.holdRecovery
  {
    hide Tabulated, FromLowest, TriggerPrice, StrikePrice, Payout, ClassifyRegime, HedgeCost, PlainPut, Qty;
    var entry := m.closes[i];
    CostsAgree(m, s, tp, i, v, w);
    FormsAgree(Path(m, s, i), StrikePrice(entry, s.sl, s.strike), TriggerPrice(entry, s.sl), Qty(entry), tp, v, w);
  }

  /** One window as both engines report it, hedge cost aside; `tp` selects the recovery. */
  predicate SameWindow(v: Window, w: LegacyWindow, tp: bool) {
    && w.triggered == v.triggerDay.Some?
    && w.payout == v.payout && w.regime == v.regime && w.date == v.date
    && w.recovery == if tp then v.tpRecovery else v.holdRecovery
  }

  predicate SameReport(v: Window, w: LegacyWindow, tp: bool) {
    SameWindow(v, w, tp) && w.hedgeCost == v.hedgeCost
  }

  /** Whole runs of the two engines agree window by window. */
  lemma RunsAgree(m: Market, s: Setup, tp: bool, days: seq<nat>, vs: seq<Window>, ws: seq<LegacyWindow>)
    requires |m.dates| == |m.closes| && s.spreadLowerPct.None?
    requires WindowsFor(m, s, days, vs) && LegacyWindowsFor(m, s, tp, days, ws)
    ensures |vs| == |ws|
    ensures forall j :: 0 <= j < |ws| ==>
              && SameWindow(vs[j], ws[j], tp)
              && (SameReport(vs[j], ws[j], tp) <==> s.script.Third? || ws[j].hedgeCost >= 0.0)
  {
    hide WindowFor, LegacyWindowFor;
    forall j | 0 <= j < |ws|
      ensures SameWindow(vs[j], ws[j], tp)
      ensures SameReport(vs[j], ws[j], tp) <==> s.script.Third? || ws[j].hedgeCost >= 0.0
    {
      EnginesAgree(m, s, tp, days[j], vs[j], ws[j]);
    }
  }

  // ---------------------------------------------------------------------------------------------
  // What take-profit recovers.

  lemma GapInDollars(entry: real, sl: real, x: real)
    requires entry > 0.0
    ensures (entry * (1.0 - x / 100.0) - TriggerPrice(entry, sl)) * Qty(entry) == 10.0 * (sl - x)
  {
    var qty, share := Qty(entry), (sl - x) / 100.0;
    assert entry * (1.0 - x / 100.0) - TriggerPrice(entry, sl) == entry * share;
    assert entry * share * qty == entry * qty * share;
  }

  /** How far the strike is above the trigger, in dollars per window. */
  lemma StrikeGap(entry: real, s: Setup)
    requires entry > 0.0
    ensures (StrikePrice(entry, s.sl, s.strike) - TriggerPrice(entry, s.sl)) * Qty(entry)
         == match s.strike case AtTrigger => 0.0 case Mid => 5.0 * s.sl case Atm => 10.0 * s.sl
  {
    match s.strike
    case AtTrigger => GapInDollars(entry, s.sl, s.sl);
    case Mid =>
      assert s.sl / 200.0 == (s.sl / 2.0) / 100.0;
      GapInDollars(entry, s.sl, s.sl / 2.0);
    case Atm =>
      assert entry * (1.0 - 0.0 / 100.0) == entry;
      GapInDollars(entry, s.sl, 0.0);
  }

  /** The lower strike, when there is one, is at or below the trigger. */
  predicate LowerBelowTrigger(s: Setup) {
    s.spreadLowerPct.Some? ==> s.spreadLowerPct.value >= s.sl
  }

  lemma LowerStrikeBelow(entry: real, s: Setup)
    requires entry > 0.0 && s.spreadLowerPct.Some? && s.spreadLowerPct.value >= s.sl
    ensures LowerStrike(entry, s).value <= TriggerPrice(entry, s.sl)
  {
    MulLe(1.0 - s.spreadLowerPct.value / 100.0, 1.0 - s.sl / 100.0, entry);
  }

  lemma IntrinsicAtTrigger(k: real, lower: Option<real>, close: real, px: real, qty: real)
    requires qty > 0.0 && close <= px && (lower.Some? ==> lower.value <= px)
    ensures Intrinsic(k, lower, close, qty) >= (k - px) * qty
  {
    MulLe(k - px, Max(0.0, k - close), qty);
    if lower.Some? {
      MulLe(k - px, Max(0.0, k - lower.value), qty);
    }
  }

  lemma TakeProfitAtLeast(path: seq<real>, k: real, lower: Option<real>, px: real, qty: real, w: Window)
    requires |path| > 0 && qty > 0.0 && Tabulated(path, k, lower, px, qty, w)
    requires w.triggerDay.Some? && (lower.Some? ==> lower.value <= px)
    ensures w.tpRecovery >= (k - px) * qty
  {
    hide SeqMax, Intrinsic;
    var day := w.triggerDay.value;
    IntrinsicAtTrigger(k, lower, path[day], px, qty);
    var held := w.recoveryByDay[day..Least(day + 2, |path| - 1) + 1];
    SeqMaxBounds(held);
    assert held[0] in held;
  }

  /** On a triggered window take-profit recovers at least the strike's distance to the trigger. */
  lemma TakeProfitCoversGap(m: Market, s: Setup, i: nat, w: Window)
    requires Fits(m, s, i) && i < |m.dates| && WindowFor(m, s, i, w)
    requires w.triggerDay.Some? && LowerBelowTrigger(s)
    ensures var entry := m.closes[i];
            w.tpRecovery >= (StrikePrice(entry, s.sl, s.strike) - TriggerPrice(entry, s.sl)) * Qty(entry)
  {
    hide Tabulated, StrikePrice, TriggerPrice, HedgeCost, Payout;
    var entry := m.closes[i];
    if s.spreadLowerPct.Some? {
      LowerStrikeBelow(entry, s);
    }
    TakeProfitAtLeast(Path(m, s, i), StrikePrice(entry, s.sl, s.strike), LowerStrike(entry, s),
                      TriggerPrice(entry, s.sl), Qty(entry), w);
  }

  /** So an at-the-money hedge recovers the full payout and a mid strike half of the payout without deductible. */
  lemma TakeProfitCoversPayout(m: Market, s: Setup, i: nat, w: Window)
    requires Fits(m, s, i) && i < |m.dates| && WindowFor(m, s, i, w)
    requires w.triggerDay.Some? && LowerBelowTrigger(s) && s.sl >= 0.0
    ensures s.strike.Atm? ==> w.tpRecovery >= w.payout
    ensures s.strike.Mid? ==> w.tpRecovery >= Payout(s.(deductible := NoDeductible), true) / 2.0
  {
    hide Tabulated, StrikePrice, TriggerPrice, HedgeCost, Qty;
    TakeProfitCoversGap(m, s, i, w);
    StrikeGap(m.closes[i], s);
  }

  lemma IntrinsicNotNegative(k: real, lower: Option<real>, close: real, qty: real)
    requires qty > 0.0
    ensures Intrinsic(k, lower, close, qty) >= 0.0
  {
    MulLe(0.0, Max(0.0, k - close), qty);
    if lower.Some? {
      MulLe(0.0, Max(0.0, k - lower.value), qty);
    }
  }

  /** Holding recovers no less than nothing, take-profit no less than holding, and the best day no less than that. */
  lemma RecoveriesOrdered(path: seq<real>, k: real, lower: Option<real>, px: real, qty: real, w: Window)
    requires |path| > 0 && qty > 0.0 && Tabulated(path, k, lower, px, qty, w)
    ensures 0.0 <= w.holdRecovery <= w.tpRecovery <= w.bestRecovery
  {
    hide SeqMax, Intrinsic;
    var last := |path| - 1;
    IntrinsicNotNegative(k, lower, path[last], qty);
    SeqMaxBounds(w.recoveryByDay);
    assert w.recoveryByDay[last] in w.recoveryByDay;
    if w.triggerDay.Some? {
      var held := w.recoveryByDay[w.triggerDay.value..Least(w.triggerDay.value + 2, last) + 1];
      SeqMaxBounds(held);
      assert forall x :: x in held ==> x in w.recoveryByDay;
    }
  }

  /** With an at-the-money hedge no window, triggered or not, loses more than hedge cost less premium. */
  lemma AtmLossBounded(m: Market, s: Setup, i: nat, w: Window, premium: real)
    requires Fits(m, s, i) && i < |m.dates| && WindowFor(m, s, i, w)
    requires s.strike.Atm? && LowerBelowTrigger(s) && s.sl >= 0.0
    ensures premium - w.hedgeCost - w.payout + w.tpRecovery >= premium - w.hedgeCost
  {
    hide Tabulated, StrikePrice, TriggerPrice, HedgeCost, LowerStrike;
    var entry := m.closes[i];
    if w.triggerDay.Some? {
      TakeProfitCoversPayout(m, s, i, w);
    } else {
      RecoveriesOrdered(Path(m, s, i), StrikePrice(entry, s.sl, s.strike), LowerStrike(entry, s),
                        TriggerPrice(entry, s.sl), Qty(entry), w);
    }
  }

  /** At or below the lower strike a spread is worth its whole width. */
  lemma IntrinsicIsWidth(k: real, lower: real, close: real, qty: real)
    requires qty > 0.0
    ensures Intrinsic(k, Some(lower), close, qty) <= Max(0.0, k - lower) * qty
    ensures close <= lower ==> Intrinsic(k, Some(lower), close, qty) == Max(0.0, k - lower) * qty
  {
    if close <= lower {
      MulLe(Max(0.0, k - lower), Max(0.0, k - close), qty);
    }
  }

  /** With the lower strike above the trigger, take-profit recovers the whole width and no more. */
  lemma TakeProfitIsWidth(path: seq<real>, k: real, lower: real, px: real, qty: real, w: Window)
    requires |path| > 0 && qty > 0.0 && Tabulated(path, k, Some(lower), px, qty, w)
    requires w.triggerDay.Some? && px <= lower
    ensures w.tpRecovery == Max(0.0, k - lower) * qty
  {
    hide SeqMax, Intrinsic;
    forall d | 0 <= d < |path|
      ensures w.recoveryByDay[d] <= Max(0.0, k - lower) * qty
      ensures path[d] <= px ==> w.recoveryByDay[d] == Max(0.0, k - lower) * qty
    {
      IntrinsicIsWidth(k, lower, path[d], qty);
    }
    var held := w.recoveryByDay[w.triggerDay.value..Least(w.triggerDay.value + 2, |path| - 1) + 1];
    SeqMaxBounds(held);
    assert held[0] in held;
  }

  lemma LowerStrikeAbove(entry: real, s: Setup)
    requires entry > 0.0 && s.spreadLowerPct.Some? && s.spreadLowerPct.value <= s.sl
    ensures TriggerPrice(entry, s.sl) <= LowerStrike(entry, s).value
  {
    MulLe(1.0 - s.sl / 100.0, 1.0 - s.spreadLowerPct.value / 100.0, entry);
  }

  /** The width of an at-the-money spread, in dollars per window. */
  lemma SpreadWidth(entry: real, s: Setup)
    requires entry > 0.0 && s.spreadLowerPct.Some?
    ensures Max(0.0, entry - LowerStrike(entry, s).value) * Qty(entry) == Max(0.0, 10.0 * s.spreadLowerPct.value)
  {
    var share, qty := s.spreadLowerPct.value / 100.0, Qty(entry);
    var width := entry - LowerStrike(entry, s).value;
    assert width == entry * share;
    assert width * qty == (entry * qty) * share;
    if width < 0.0 {
      assert (-width) * qty >= 0.0;
    } else {
      assert width * qty >= 0.0;
    }
  }

  /** A triggered window pays ten dollars a percent of the effective stop, which is never above the stop itself. */
  lemma PayoutOfTriggered(s: Setup)
    ensures Payout(s, true) == 10.0 * EffectiveSl(s)
    ensures s.sl >= 0.0 ==> 0.0 <= EffectiveSl(s) <= s.sl
    ensures s.sl < 0.0 ==> EffectiveSl(s) <= 0.0
  {
  }

  /**
   * For at-the-money put spreads the lower strike decides: a triggered window recovers its payout exactly when the
   * spread is at least as wide as the stop net of the deductible.
   */
  lemma SpreadCoversPayoutIff(m: Market, s: Setup, i: nat, w: Window)
    requires Fits(m, s, i) && i < |m.dates| && WindowFor(m, s, i, w)
    requires w.triggerDay.Some? && s.strike.Atm? && s.spreadLowerPct.Some?
    ensures w.tpRecovery >= w.payout <==> Max(0.0, s.spreadLowerPct.value) >= EffectiveSl(s)
  {
    hide Tabulated, TriggerPrice, HedgeCost, Payout, EffectiveSl, Qty;
    var entry := m.closes[i];
    PayoutOfTriggered(s);
    if s.sl < 0.0 {
      RecoveriesOrdered(Path(m, s, i), entry, LowerStrike(entry, s), TriggerPrice(entry, s.sl), Qty(entry), w);
    } else if s.spreadLowerPct.value >= s.sl {
      TakeProfitCoversPayout(m, s, i, w);
    } else {
      LowerStrikeAbove(entry, s);
      TakeProfitIsWidth(Path(m, s, i), entry, LowerStrike(entry, s).value, TriggerPrice(entry, s.sl), Qty(entry), w);
      SpreadWidth(entry, s);
    }
  }

  /** It can fall short: a 3% wide spread under a 5% stop, and a close that drops by 10%. */
  method SpreadFallsShort() returns (m: Market, s: Setup, ws: seq<Window>)
    ensures |m.dates| == |m.closes| && s.strike.Atm? && s.spreadLowerPct == Some(3.0) && s.sl == 5.0
    ensures |ws| == 1 && Fits(m, s, 0) && WindowFor(m, s, 0, ws[0])
    ensures ws[0].triggerDay == Some(1) && ws[0].tpRecovery < ws[0].payout
  {
    m := Market([100.0, 90.0], ["2024-01-01", "2024-01-02"], (_, _, _, _) => 0.0, _ => 0.5);
    s := Setup(Third, 5.0, Atm, NoDeductible, 1.0, 1, Some(3.0));
    ws := RunWindows(m, s);
    assert EntryDays(m, s, 1) == [0];
    TriggersOnDayOne(m, s, ws[0]);
    SpreadCoversPayoutIff(m, s, 0, ws[0]);
  }

  lemma TriggersOnDayOne(m: Market, s: Setup, w: Window)
    requires m.closes == [100.0, 90.0] && |m.dates| == 2 && s.tenor == 1 && s.sl == 5.0
    requires WindowFor(m, s, 0, w)
    ensures w.triggerDay == Some(1)
  {
    hide SeqMax, Intrinsic;
    var path := Path(m, s, 0);
    assert path[0] == 100.0 && path[1] == 90.0 && TriggerPrice(100.0, s.sl) == 95.0;
  }
}
