/** The cycle-by-cycle scenario of services/api/scripts/pilotBacktest1Day.ts. */
module CycleBacktest {
  import opened Options
  import opened Reals

  datatype PricePoint = PricePoint(tsMs: int, price: real)

  datatype Reason = NearExpirySalvage | DeepDropTp | BounceRecovery | TakeProfitPrime | TakeProfitLate | ActiveSalvage

  const HOUR_MS := 3600000
  const DAY_MS := 86400000
  const COOLING_HOURS := 0.5
  const DEEP_DROP_COOLING_HOURS := 0.167
  const PRIME_THRESHOLD := 0.25
  const LATE_THRESHOLD := 0.10
  const PRIME_WINDOW_END_HOURS := 8.0

  // bsPut is an arbitrary option price of spot, strike and time, at the scenario's fixed volatility.
  datatype Scenario = Scenario(
    prices: seq<PricePoint>,
    slPct: real,
    premiumPer1k: real,
    notional: real,
    tenorDays: int,
    cycleHours: real,
    bsPut: (real, real, real) -> real
  )

  /** Prices are positive, as the loader keeps only those, and the stop is above zero. */
  predicate Usable(s: Scenario) {
    s.slPct < 1.0 && forall i :: 0 <= i < |s.prices| ==> s.prices[i].price > 0.0
  }

  function Premium(s: Scenario): real {
    s.notional / 1000.0 * s.premiumPer1k
  }

  function Payout(s: Scenario): real {
    s.notional * s.slPct
  }

  /** Math.round: halves go up. */
  function Round(x: real): int {
    (x + 0.5).Floor
  }

  function StrikeFor(floorPrice: real): real {
    var raw := (Round(floorPrice / 500.0) * 500) as real;
    if raw <= floorPrice then raw else raw - 500.0
  }

  /** The strike is the greatest multiple of 500 at or below the floor. */
  lemma StrikeIsGreatestMultiple(floorPrice: real)
    ensures exists k: int :: StrikeFor(floorPrice) == (500 * k) as real && StrikeFor(floorPrice) <= floorPrice
              && forall m: int :: (500 * m) as real <= floorPrice ==> m <= k
  {
    var n := Round(floorPrice / 500.0);
    assert n as real <= floorPrice / 500.0 + 0.5 < n as real + 1.0;
    assert (n * 500) as real == 500.0 * n as real;
    var k := if 500.0 * n as real <= floorPrice then n else n - 1;
    assert StrikeFor(floorPrice) == (500 * k) as real;
    assert floorPrice < 500.0 * (k + 1) as real;
    forall m: int | (500 * m) as real <= floorPrice
      ensures m <= k
    {
      assert (500 * m) as real == 500.0 * m as real;
    }
  }

  // One cycle, entered at index `start`.
  datatype Trade = Trade(entry: real, floorPrice: real, strike: real, expiryTs: int, qty: real, hedgeCost: real)

  function Open(s: Scenario, start: nat): Trade
    requires Usable(s) && start < |s.prices|
  {
    var entry := s.prices[start];
    var floorPrice := entry.price * (1.0 - s.slPct);
    var strike, qty := StrikeFor(floorPrice), s.notional / entry.price;
    Trade(entry.price, floorPrice, strike, entry.tsMs + s.tenorDays * DAY_MS, qty,
          s.bsPut(entry.price, strike, s.tenorDays as real / 365.25) * qty)
  }

  datatype Sale = Sale(reason: Reason, amount: real)

  // triggerTs is set once the floor is hit, sale once the hedge is sold.
  datatype Progress = Progress(triggerTs: Option<int>, sale: Option<Sale>)

  function HedgeValue(s: Scenario, t: Trade, p: PricePoint): real {
    var left := if t.expiryTs > p.tsMs then t.expiryTs - p.tsMs else 0;
    var years := left as real / (365.25 * 24.0 * 3600.0 * 1000.0);
    Max(Max(0.0, t.strike - p.price), s.bsPut(p.price, t.strike, years)) * t.qty
  }

  function Hours(ms: int): real {
    ms as real / HOUR_MS as real
  }

  /** Why a triggered position is sold at a price point, if it is. */
  function SellReason(s: Scenario, t: Trade, p: PricePoint, total: real, triggerTs: int): Option<Reason>
    requires t.floorPrice > 0.0
  {
    var hSince, hToExp := Hours(p.tsMs - triggerTs), Hours(t.expiryTs - p.tsMs);
    var dropFloor := (t.floorPrice - p.price) / t.floorPrice * 100.0;
    var bounced := p.price > t.floorPrice;
    var gapPct := Abs(t.strike - t.floorPrice) / t.floorPrice * 100.0;
    var gapDead := gapPct >= 0.3 && !bounced && p.price > t.strike;
    var effCool := if gapDead then COOLING_HOURS + 0.5 else COOLING_HOURS;
    var prime := total >= Payout(s) * PRIME_THRESHOLD;
    if hToExp < (if s.tenorDays == 1 then 6.0 else 10.0) && total >= 3.0 then Some(NearExpirySalvage)
    else if dropFloor >= 1.5 && hSince >= DEEP_DROP_COOLING_HOURS && prime then Some(DeepDropTp)
    else if hSince >= effCool && bounced && total >= 3.0 then Some(BounceRecovery)
    else if hSince >= effCool && hSince < PRIME_WINDOW_END_HOURS && prime then Some(TakeProfitPrime)
    else if hSince >= PRIME_WINDOW_END_HOURS && total >= Payout(s) * LATE_THRESHOLD then Some(TakeProfitLate)
    else None
  }

  /** One price point: trigger first, then a triggered sale, then the salvage of a position that never triggered. */
  function AtPoint(s: Scenario, t: Trade, p: PricePoint, g: Progress): Progress
    requires t.floorPrice > 0.0
  {
    var total := HedgeValue(s, t, p);
    var g1 := if g.triggerTs.None? && p.price <= t.floorPrice then g.(triggerTs := Some(p.tsMs)) else g;
    if g1.sale.Some? then g1
    else if g1.triggerTs.Some? then
      var reason := SellReason(s, t, p, total, g1.triggerTs.value);
      if reason.Some? then g1.(sale := Some(Sale(reason.value, total))) else g1
    else if Hours(t.expiryTs - p.tsMs) < (if s.tenorDays == 1 then 4.0 else 8.0) && total >= 5.0 then
      g1.(sale := Some(Sale(ActiveSalvage, total)))
    else g1
  }

  /** The walk over the price points after the entry, up to the first one past expiry. */
  function Walk(s: Scenario, t: Trade, i: nat, g: Progress): Progress
    requires t.floorPrice > 0.0 && i <= |s.prices|
    decreases |s.prices| - i
  {
    if i == |s.prices| || s.prices[i].tsMs > t.expiryTs then g
    else Walk(s, t, i + 1, AtPoint(s, t, s.prices[i], g))
  }

  lemma FloorIsPositive(s: Scenario, start: nat)
    requires Usable(s) && start < |s.prices|
    ensures Open(s, start).floorPrice > 0.0
  {
    hide StrikeFor;
    MulPositive(s.prices[start].price, 1.0 - s.slPct);
  }

  function Cycle(s: Scenario, start: nat): Progress
    requires Usable(s) && start < |s.prices|
  {
    FloorIsPositive(s, start);
    Walk(s, Open(s, start), start + 1, Progress(None, None))
  }

  // Counts per reason; a reason that never occurred has none.
  datatype Totals = Totals(
    premium: real,
    hedge: real,
    payouts: real,
    tp: real,
    cycles: nat,
    triggers: nat,
    tpSold: nat,
    reasons: map<Reason, nat>
  )

  function Count(reasons: map<Reason, nat>, r: Reason): nat {
    if r in reasons then reasons[r] else 0
  }

  function CountAll(reasons: map<Reason, nat>): nat {
    Count(reasons, NearExpirySalvage) + Count(reasons, DeepDropTp) + Count(reasons, BounceRecovery)
    + Count(reasons, TakeProfitPrime) + Count(reasons, TakeProfitLate) + Count(reasons, ActiveSalvage)
  }

  function Step(s: Scenario): (step: nat)
    ensures step >= 1
  {
    if s.cycleHours.Floor > 1 then s.cycleHours.Floor else 1
  }

  function AddCycle(s: Scenario, x: Totals, hedgeCost: real, g: Progress): Totals {
    var y := x.(premium := x.premium + Premium(s), hedge := x.hedge + hedgeCost, cycles := x.cycles + 1);
    var z := if g.triggerTs.Some? then y.(triggers := y.triggers + 1, payouts := y.payouts + Payout(s)) else y;
    if g.sale.None? then z
    else
      var Sale(reason, amount) := g.sale.value;
      z.(tp := z.tp + amount, tpSold := z.tpSold + 1, reasons := z.reasons[reason := Count(z.reasons, reason) + 1])
  }

  /** Where the c-th cycle, counted from zero, is entered. */
  function Entry(s: Scenario, c: nat): (start: nat) {
    if c == 0 then 0 else Entry(s, c - 1) + Step(s)
  }

  lemma {:induction false} EntryIsMultiple(s: Scenario, c: nat)
    ensures Entry(s, c) == c * Step(s)
  {
    if c > 0 {
      EntryIsMultiple(s, c - 1);
      assert c * Step(s) == (c - 1) * Step(s) + Step(s);
    }
  }

  /** All of the first c cycles are entered before the last price point. */
  predicate Entered(s: Scenario, c: nat) {
    c > 0 ==> Entry(s, c - 1) < |s.prices| - 1
  }

  /** The totals after the first c cycles. */
  function After(s: Scenario, c: nat): Totals
    requires Usable(s) && Entered(s, c)
  {
    if c == 0 then Totals(0.0, 0.0, 0.0, 0.0, 0, 0, 0, map[])
    else AddCycle(s, After(s, c - 1), Open(s, Entry(s, c - 1)).hedgeCost, Cycle(s, Entry(s, c - 1)))
  }

  datatype Report = Report(totals: Totals, netPnl: real, perCycle: real)

  /** c is (n - 1) / step rounded up, and zero when there are no prices. */
  predicate CyclesFor(s: Scenario, c: nat) {
    c * Step(s) >= |s.prices| - 1 && (c > 0 ==> (c - 1) * Step(s) < |s.prices| - 1)
  }

  method RunScenario(s: Scenario) returns (r: Report)
    requires Usable(s)
    ensures CyclesFor(s, r.totals.cycles) && Entered(s, r.totals.cycles)
    ensures r.totals == After(s, r.totals.cycles)
    ensures r.netPnl == r.totals.premium - r.totals.hedge - r.totals.payouts + r.totals.tp
    ensures r.perCycle == if r.totals.cycles > 0 then r.netPnl / r.totals.cycles as real else 0.0
  {
    hide AddCycle, Open, Cycle;
    var totals := Totals(0.0, 0.0, 0.0, 0.0, 0, 0, 0, map[]);
    var cycleStart := 0;
    while cycleStart < |s.prices| - 1
      invariant cycleStart == Entry(s, totals.cycles) && Entered(s, totals.cycles)
      invariant totals == After(s, totals.cycles)
    {
      var trade := Open(s, cycleStart);
      var g := RunCycle(s, cycleStart);
      CountsCycle(s, totals, trade.hedgeCost, g);
      totals := AddCycle(s, totals, trade.hedgeCost, g);
      cycleStart := cycleStart + Step(s);
    }
    EntryIsMultiple(s, totals.cycles);
    if totals.cycles > 0 {
      EntryIsMultiple(s, totals.cycles - 1);
    }
    var netPnl := totals.premium - totals.hedge - totals.payouts + totals.tp;
    r := Report(totals, netPnl, if totals.cycles > 0 then netPnl / totals.cycles as real else 0.0);
  }

  lemma CountsCycle(s: Scenario, x: Totals, hedgeCost: real, g: Progress)
    ensures AddCycle(s, x, hedgeCost, g).cycles == x.cycles + 1
  {
  }

  method RunCycle(s: Scenario, start: nat) returns (g: Progress)
    requires Usable(s) && start < |s.prices|
    ensures g == Cycle(s, start)
  {
    FloorIsPositive(s, start);
    g := WalkCycle(s, Open(s, start), start);
  }

  method WalkCycle(s: Scenario, t: Trade, start: nat) returns (g: Progress)
    requires t.floorPrice > 0.0 && start < |s.prices|
    ensures g == Walk(s, t, start + 1, Progress(None, None))
  {
    var triggered, triggerTs, tpDone := false, 0, false;
    var sale: Option<Sale> := None;
    g := Progress(None, None);
    var i := start + 1;
    while i < |s.prices|
      invariant start < i <= |s.prices|
      invariant g == Progress(if triggered then Some(triggerTs) else None, sale) && tpDone == sale.Some?
      invariant Walk(s, t, start + 1, Progress(None, None)) == Walk(s, t, i, g)
    {
      var p := s.prices[i];
      if p.tsMs > t.expiryTs { break; }
      ghost var before := g;
      var total := HedgeValue(s, t, p);
      if !triggered && p.price <= t.floorPrice {
        triggered, triggerTs := true, p.tsMs;
      }
      if triggered && !tpDone {
        var reason := SellReason(s, t, p, total, triggerTs);
        if reason.Some? { sale, tpDone := Some(Sale(reason.value, total)), true; }
      }
      if !triggered && !tpDone && Hours(t.expiryTs - p.tsMs) < (if s.tenorDays == 1 then 4.0 else 8.0) && total >= 5.0 {
        sale, tpDone := Some(Sale(ActiveSalvage, total)), true;
      }
      g := Progress(if triggered then Some(triggerTs) else None, sale);
      assert g == AtPoint(s, t, p, before);
      i := i + 1;
    }
  }

  // ---------------------------------------------------------------------------------------------

  /** A price point of the cycle's window at or below the floor: no earlier point after the entry is past expiry. */
  ghost predicate Hit(s: Scenario, t: Trade, from: nat, i: nat) {
    from <= i < |s.prices| && s.prices[i].price <= t.floorPrice
    && forall j :: from <= j <= i ==> s.prices[j].tsMs <= t.expiryTs
  }

  ghost predicate Touches(s: Scenario, t: Trade, from: nat) {
    exists i :: Hit(s, t, from, i)
  }

  lemma TouchesStep(s: Scenario, t: Trade, from: nat)
    ensures Touches(s, t, from) <==>
              from < |s.prices| && s.prices[from].tsMs <= t.expiryTs
              && (s.prices[from].price <= t.floorPrice || Touches(s, t, from + 1))
  {
    if from < |s.prices| && s.prices[from].tsMs <= t.expiryTs {
      if s.prices[from].price <= t.floorPrice {
        assert Hit(s, t, from, from);
      } else if Touches(s, t, from) {
        var i :| Hit(s, t, from, i);
        assert Hit(s, t, from + 1, i);
      } else if Touches(s, t, from + 1) {
        var i :| Hit(s, t, from + 1, i);
        assert Hit(s, t, from, i);
      }
    }
  }

  /** A cycle triggers exactly when its window touches the floor; only a salvage sells an untriggered position. */
  lemma {:induction false} CycleOutcome(s: Scenario, t: Trade, i: nat, g: Progress)
    requires t.floorPrice > 0.0 && i <= |s.prices|
    requires g.sale.Some? && g.sale.value.reason != ActiveSalvage ==> g.triggerTs.Some?
    ensures var w := Walk(s, t, i, g);
            && (w.triggerTs.Some? <==> g.triggerTs.Some? || Touches(s, t, i))
            && (w.sale.Some? && w.sale.value.reason != ActiveSalvage ==> w.triggerTs.Some?)
            && (g.sale.Some? ==> w.sale == g.sale)
    decreases |s.prices| - i
  {
    hide HedgeValue, SellReason, Touches;
    TouchesStep(s, t, i);
    if i < |s.prices| && s.prices[i].tsMs <= t.expiryTs {
      SellReasonIsNotSalvage(s, t, s.prices[i], g);
      CycleOutcome(s, t, i + 1, AtPoint(s, t, s.prices[i], g));
    }
  }

  lemma SellReasonIsNotSalvage(s: Scenario, t: Trade, p: PricePoint, g: Progress)
    requires t.floorPrice > 0.0
    requires g.sale.Some? && g.sale.value.reason != ActiveSalvage ==> g.triggerTs.Some?
    ensures var g1 := AtPoint(s, t, p, g);
            g1.sale.Some? && g1.sale.value.reason != ActiveSalvage ==> g1.triggerTs.Some?
  {
  }

  /** How many of the first c cycles touch their floor. */
  ghost function Hits(s: Scenario, c: nat): nat
    requires Usable(s) && Entered(s, c)
  {
    if c == 0 then 0
    else
      var start := Entry(s, c - 1);
      Hits(s, c - 1) + if Touches(s, Open(s, start), start + 1) then 1 else 0
  }

  lemma CycleTriggersOnHit(s: Scenario, start: nat)
    requires Usable(s) && start < |s.prices|
    ensures var g := Cycle(s, start);
            && (g.triggerTs.Some? <==> Touches(s, Open(s, start), start + 1))
            && (g.sale.Some? && g.sale.value.reason != ActiveSalvage ==> g.triggerTs.Some?)
  {
    hide Open, Walk, Touches;
    FloorIsPositive(s, start);
    CycleOutcome(s, Open(s, start), start + 1, Progress(None, None));
  }

  lemma AddCycleCounts(s: Scenario, x: Totals, hedgeCost: real, g: Progress)
    ensures var y := AddCycle(s, x, hedgeCost, g);
            && y.cycles == x.cycles + 1
            && y.triggers == x.triggers + (if g.triggerTs.Some? then 1 else 0)
            && y.tpSold == x.tpSold + (if g.sale.Some? then 1 else 0)
            && CountAll(y.reasons) == CountAll(x.reasons) + (if g.sale.Some? then 1 else 0)
            && Count(y.reasons, ActiveSalvage) == Count(x.reasons, ActiveSalvage)
               + (if g.sale.Some? && g.sale.value.reason == ActiveSalvage then 1 else 0)
  {
    hide Premium, Payout, CountAll;
    if g.sale.Some? {
      OneMoreReason(x.reasons, g.sale.value.reason);
    }
  }

  lemma OneMoreReason(reasons: map<Reason, nat>, reason: Reason)
    ensures var more := reasons[reason := Count(reasons, reason) + 1];
            && CountAll(more) == CountAll(reasons) + 1
            && Count(more, ActiveSalvage) == Count(reasons, ActiveSalvage) + (if reason == ActiveSalvage then 1 else 0)
  {
    var more := reasons[reason := Count(reasons, reason) + 1];
    forall r: Reason
      ensures Count(more, r) == Count(reasons, r) + (if r == reason then 1 else 0)
    {
    }
  }

  /** Premiums are the cycles' premiums and payouts the triggers' payouts. */
  predicate MoneyBalances(s: Scenario, x: Totals) {
    x.premium == x.cycles as real * Premium(s) && x.payouts == x.triggers as real * Payout(s)
  }

  lemma AddCycleMoney(s: Scenario, x: Totals, hedgeCost: real, g: Progress)
    requires MoneyBalances(s, x)
    ensures MoneyBalances(s, AddCycle(s, x, hedgeCost, g))
  {
    hide Premium, Payout;
    OneMore(x.cycles, Premium(s));
    OneMore(x.triggers, Payout(s));
  }

  lemma OneMore(n: nat, x: real)
    ensures (n + 1) as real * x == n as real * x + x
  {
  }

  /**
   * Premiums are the cycles' premiums and payouts the triggers' payouts; the triggers are the cycles that touch
   * their floor; the reason counts add up to the sales, at most one a cycle, and all sales but the active salvages
   * belong to triggered cycles.
   */
  lemma {:induction false} TotalsBalance(s: Scenario, c: nat)
    requires Usable(s) && Entered(s, c)
    ensures var x := After(s, c);
            && x.cycles == c
            && MoneyBalances(s, x)
            && x.triggers == Hits(s, c) <= c
            && CountAll(x.reasons) == x.tpSold <= c
            && x.tpSold - Count(x.reasons, ActiveSalvage) <= x.triggers
  {
    hide MoneyBalances, Cycle, Open, AddCycle, CountAll, Count, Touches, Entry, After, Hits;
    if c == 0 {
      NothingCounted(s);
    } else {
      OneMoreCycle(s, c);
      TotalsBalance(s, c - 1);
      var start, x := Entry(s, c - 1), After(s, c - 1);
      CycleTriggersOnHit(s, start);
      AddCycleCounts(s, x, Open(s, start).hedgeCost, Cycle(s, start));
      AddCycleMoney(s, x, Open(s, start).hedgeCost, Cycle(s, start));
    }
  }

  lemma OneMoreCycle(s: Scenario, c: nat)
    requires Usable(s) && Entered(s, c) && c > 0
    ensures Entered(s, c - 1) && Entry(s, c - 1) < |s.prices|
    ensures var start := Entry(s, c - 1);
            && After(s, c) == AddCycle(s, After(s, c - 1), Open(s, start).hedgeCost, Cycle(s, start))
            && Hits(s, c) == Hits(s, c - 1) + if Touches(s, Open(s, start), start + 1) then 1 else 0
  {
    hide AddCycle, Open, Cycle, Touches;
  }

  lemma NothingCounted(s: Scenario)
    requires Usable(s)
    ensures After(s, 0) == Totals(0.0, 0.0, 0.0, 0.0, 0, 0, 0, map[]) && Hits(s, 0) == 0
    ensures MoneyBalances(s, After(s, 0)) && CountAll(map[]) == 0 == Count(map[], ActiveSalvage)
  {
  }
}
