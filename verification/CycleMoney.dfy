/**
 * What the cycles of services/api/scripts/pilotBacktest1Day.ts trade and earn: when a position is sold and for how
 * much, and the totals as sums over the cycles.
 */
module CycleMoney {
  import opened Options
  import opened Reals
  import opened CycleBacktest

  // ---------------------------------------------------------------------------------------------
  // One trade.

  /** What a cycle opens: a put at the greatest multiple of 500 at or below the floor, for the whole notional. */
  lemma TradeIs(s: Scenario, start: nat)
    requires Usable(s) && start < |s.prices|
    ensures var t, p := Open(s, start), s.prices[start];
            && t.entry == p.price && t.floorPrice == p.price - p.price * s.slPct
            && t.strike == StrikeFor(t.floorPrice)
            && t.expiryTs == p.tsMs + s.tenorDays * 86400000
            && t.qty * t.entry == s.notional
            && t.hedgeCost == s.bsPut(t.entry, t.strike, s.tenorDays as real / 365.25) * t.qty
  {
    hide StrikeFor;
    var p := s.prices[start];
    assert p.price * (1.0 - s.slPct) == p.price - p.price * s.slPct;
  }

  /** The value of a hedge: its intrinsic value or its option price, whichever is more, for the whole quantity. */
  lemma ValueIs(s: Scenario, t: Trade, p: PricePoint)
    ensures var left := if p.tsMs < t.expiryTs then t.expiryTs - p.tsMs else 0;
            var price := s.bsPut(p.price, t.strike, left as real / 31557600000.0);
            HedgeValue(s, t, p)
            == (if price >= t.strike - p.price && price >= 0.0 then price
                else if p.price < t.strike then t.strike - p.price else 0.0) * t.qty
  {
    assert 365.25 * 24.0 * 3600.0 * 1000.0 == 31557600000.0;
  }

  /** Entries are every whole number of hours of the cycle length, and at least one point apart. */
  lemma StepIs(s: Scenario)
    ensures s.cycleHours < 1.0 ==> Step(s) == 1
    ensures s.cycleHours >= 1.0 ==> Step(s) as real <= s.cycleHours < Step(s) as real + 1.0
  {
  }

  // ---------------------------------------------------------------------------------------------
  // When a position is sold.

  lemma HoursAtLeast(ms: int, hours: real)
    ensures Hours(ms) >= hours <==> ms as real >= hours * 3600000.0
  {
    DivAtLeast(ms as real, 3600000.0, hours);
  }

  /** A share of the floor in percent, as an amount of money. */
  lemma PercentAtLeast(gap: real, floorPrice: real, percent: real)
    requires floorPrice > 0.0
    ensures gap / floorPrice * 100.0 >= percent <==> gap * 100.0 >= percent * floorPrice
  {
    var share := gap / floorPrice;
    DivAtLeast(gap, floorPrice, percent / 100.0);
    assert share * 100.0 >= percent <==> share >= percent / 100.0;
    assert percent / 100.0 * floorPrice * 100.0 == percent * floorPrice;
  }

  /** The rules of a triggered position in milliseconds and dollars, in the order they are tried. */
  function RuleOf(s: Scenario, t: Trade, p: PricePoint, value: real, triggerTs: int): Option<Reason> {
    var since, left, payout := p.tsMs - triggerTs, t.expiryTs - p.tsMs, s.notional * s.slPct;
    var bounced := p.price > t.floorPrice;
    var gap := if t.strike >= t.floorPrice then t.strike - t.floorPrice else t.floorPrice - t.strike;
    var dead := gap * 100.0 >= 0.3 * t.floorPrice && !bounced && p.price > t.strike;
    var cooled := since >= if dead then 3600000 else 1800000;
    if left < (if s.tenorDays == 1 then 21600000 else 36000000) && value >= 3.0 then Some(NearExpirySalvage)
    else if (t.floorPrice - p.price) * 100.0 >= 1.5 * t.floorPrice && since >= 601200 && value >= payout * 0.25 then
      Some(DeepDropTp)
    else if cooled && bounced && value >= 3.0 then Some(BounceRecovery)
    else if cooled && since < 28800000 && value >= payout * 0.25 then Some(TakeProfitPrime)
    else if since >= 28800000 && value >= payout * 0.1 then Some(TakeProfitLate)
    else None
  }

  lemma SellRules(s: Scenario, t: Trade, p: PricePoint, value: real, triggerTs: int)
    requires t.floorPrice > 0.0
    ensures SellReason(s, t, p, value, triggerTs) == RuleOf(s, t, p, value, triggerTs)
  {
    var since, left := p.tsMs - triggerTs, t.expiryTs - p.tsMs;
    HoursAtLeast(left, 6.0);
    HoursAtLeast(left, 10.0);
    HoursAtLeast(since, 0.5);
    HoursAtLeast(since, 1.0);
    HoursAtLeast(since, 0.167);
    HoursAtLeast(since, 8.0);
    PercentAtLeast(t.floorPrice - p.price, t.floorPrice, 1.5);
    PercentAtLeast(Abs(t.strike - t.floorPrice), t.floorPrice, 0.3);
    hide Hours;
    var gapPct, dropFloor := Abs(t.strike - t.floorPrice) / t.floorPrice * 100.0,
      (t.floorPrice - p.price) / t.floorPrice * 100.0;
    SameRules(s, t, p, value, triggerTs, gapPct, dropFloor);
  }

  lemma SameRules(s: Scenario, t: Trade, p: PricePoint, value: real, triggerTs: int, gapPct: real, dropFloor: real)
    requires t.floorPrice > 0.0
    requires gapPct == Abs(t.strike - t.floorPrice) / t.floorPrice * 100.0
    requires dropFloor == (t.floorPrice - p.price) / t.floorPrice * 100.0
    requires gapPct >= 0.3 <==> Abs(t.strike - t.floorPrice) * 100.0 >= 0.3 * t.floorPrice
    requires dropFloor >= 1.5 <==> (t.floorPrice - p.price) * 100.0 >= 1.5 * t.floorPrice
    requires var since, left := p.tsMs - triggerTs, t.expiryTs - p.tsMs;
             && (Hours(left) >= 6.0 <==> left >= 21600000) && (Hours(left) >= 10.0 <==> left >= 36000000)
             && (Hours(since) >= 0.5 <==> since >= 1800000) && (Hours(since) >= 1.0 <==> since >= 3600000)
             && (Hours(since) >= 0.167 <==> since >= 601200) && (Hours(since) >= 8.0 <==> since >= 28800000)
    ensures SellReason(s, t, p, value, triggerTs) == RuleOf(s, t, p, value, triggerTs)
  {
    hide Hours;
  }

  /** A position that never triggered is salvaged in its last hours. */
  predicate Salvages(s: Scenario, t: Trade, p: PricePoint, value: real) {
    t.expiryTs - p.tsMs < (if s.tenorDays == 1 then 14400000 else 28800000) && value >= 5.0
  }

  /** When the floor was first touched, over the points from `from` up to n. */
  function TriggerBefore(s: Scenario, t: Trade, from: nat, n: nat): Option<int>
    requires n <= |s.prices|
    decreases n
  {
    if n <= from then None
    else
      var before := TriggerBefore(s, t, from, n - 1);
      if before.Some? then before
      else if s.prices[n - 1].price <= t.floorPrice then Some(s.prices[n - 1].tsMs)
      else None
  }

  /** It is the time of the first point at or below the floor. */
  lemma {:induction false} TriggerIsFirstTouch(s: Scenario, t: Trade, from: nat, n: nat)
    requires n <= |s.prices|
    ensures TriggerBefore(s, t, from, n).None? <==> forall j :: from <= j < n ==> s.prices[j].price > t.floorPrice
    ensures TriggerBefore(s, t, from, n).Some? ==>
              exists j :: from <= j < n && s.prices[j].price <= t.floorPrice
                && s.prices[j].tsMs == TriggerBefore(s, t, from, n).value
                && forall k :: from <= k < j ==> s.prices[k].price > t.floorPrice
    decreases n
  {
    if n > from {
      TriggerIsFirstTouch(s, t, from, n - 1);
    }
  }

  /** The rule a position meets at a point, the floor touched so far taken into account. */
  function RuleAt(s: Scenario, t: Trade, from: nat, i: nat): Option<Reason>
    requires i < |s.prices|
  {
    var p, trigger := s.prices[i], TriggerBefore(s, t, from, i + 1);
    var value := HedgeValue(s, t, p);
    if trigger.Some? then RuleOf(s, t, p, value, trigger.value)
    else if Salvages(s, t, p, value) then Some(ActiveSalvage)
    else None
  }

  predicate BeforeExpiry(s: Scenario, t: Trade, from: nat, i: nat) {
    from <= i < |s.prices| && forall j :: from <= j <= i ==> s.prices[j].tsMs <= t.expiryTs
  }

  /** The sale is at the first point before expiry that meets a rule, at the value of the hedge there. */
  ghost predicate SoldFirst(s: Scenario, t: Trade, from: nat, sale: Option<Sale>) {
    match sale
    case None => forall i: nat :: BeforeExpiry(s, t, from, i) ==> RuleAt(s, t, from, i).None?
    case Some(Sale(reason, amount)) =>
      exists i: nat :: BeforeExpiry(s, t, from, i) && RuleAt(s, t, from, i) == Some(reason)
        && amount == HedgeValue(s, t, s.prices[i]) && forall j :: from <= j < i ==> RuleAt(s, t, from, j).None?
  }

  lemma PointSells(s: Scenario, t: Trade, from: nat, i: nat, g: Progress)
    requires t.floorPrice > 0.0 && from <= i < |s.prices|
    requires g == Progress(TriggerBefore(s, t, from, i), None)
    ensures var g1, rule := AtPoint(s, t, s.prices[i], g), RuleAt(s, t, from, i);
            && g1.triggerTs == TriggerBefore(s, t, from, i + 1)
            && g1.sale == if rule.Some? then Some(Sale(rule.value, HedgeValue(s, t, s.prices[i]))) else None
  {
    hide HedgeValue, SellReason, RuleOf;
    var p := s.prices[i];
    HoursAtLeast(t.expiryTs - p.tsMs, 4.0);
    HoursAtLeast(t.expiryTs - p.tsMs, 8.0);
    hide Hours;
    if TriggerBefore(s, t, from, i + 1).Some? {
      SellRules(s, t, p, HedgeValue(s, t, p), TriggerBefore(s, t, from, i + 1).value);
    }
  }

  lemma {:induction false} WalkSells(s: Scenario, t: Trade, from: nat, i: nat, g: Progress)
    requires t.floorPrice > 0.0 && from <= i <= |s.prices| && g == Progress(TriggerBefore(s, t, from, i), None)
    requires forall j :: from <= j < i ==> s.prices[j].tsMs <= t.expiryTs && RuleAt(s, t, from, j).None?
    ensures SoldFirst(s, t, from, Walk(s, t, i, g).sale)
    decreases |s.prices| - i
  {
    hide HedgeValue, RuleAt, TriggerBefore, AtPoint;
    if i < |s.prices| && s.prices[i].tsMs <= t.expiryTs {
      PointSells(s, t, from, i, g);
      var g1 := AtPoint(s, t, s.prices[i], g);
      if g1.sale.None? {
        WalkSells(s, t, from, i + 1, g1);
      } else {
        SoldOnce(s, t, i + 1, g1);
        assert BeforeExpiry(s, t, from, i);
      }
    }
  }

  lemma {:induction false} SoldOnce(s: Scenario, t: Trade, i: nat, g: Progress)
    requires t.floorPrice > 0.0 && i <= |s.prices| && g.sale.Some?
    ensures Walk(s, t, i, g).sale == g.sale
    decreases |s.prices| - i
  {
    hide HedgeValue, SellReason;
    if i < |s.prices| && s.prices[i].tsMs <= t.expiryTs {
      SoldOnce(s, t, i + 1, AtPoint(s, t, s.prices[i], g));
    }
  }

  /** A cycle sells its position at the first point that meets a rule, and at none when no point does. */
  lemma CycleSells(s: Scenario, start: nat)
    requires Usable(s) && start < |s.prices|
    ensures SoldFirst(s, Open(s, start), start + 1, Cycle(s, start).sale)
  {
    hide Open, Walk, SoldFirst;
    FloorIsPositive(s, start);
    WalkSells(s, Open(s, start), start + 1, start + 1, Progress(None, None));
  }

  // ---------------------------------------------------------------------------------------------
  // The totals.

  /** The positions of the first c cycles are sold as their points demand. */
  ghost predicate SalesOf(s: Scenario, c: nat, sales: seq<Option<Sale>>)
    requires Usable(s) && Entered(s, c)
  {
    |sales| == c && forall j :: 0 <= j < c ==>
      Entry(s, j) < |s.prices| && SoldFirst(s, Open(s, Entry(s, j)), Entry(s, j) + 1, sales[j])
  }

  /** How many of the sales were made for one reason. */
  function SoldFor(sales: seq<Option<Sale>>, r: Reason): nat {
    if |sales| == 0 then 0
    else
      var last := sales[|sales| - 1];
      SoldFor(sales[..|sales| - 1], r) + if last.Some? && last.value.reason == r then 1 else 0
  }

  function AmountOf(sale: Option<Sale>): real {
    if sale.Some? then sale.value.amount else 0.0
  }

  /** What one cycle earns: its premium less the hedge, less the payout when it touches its floor, plus the sale. */
  ghost function CycleProfit(s: Scenario, start: nat, sale: Option<Sale>): real
    requires Usable(s) && start < |s.prices|
  {
    var t := Open(s, start);
    s.notional * s.premiumPer1k / 1000.0
    - s.bsPut(t.entry, t.strike, s.tenorDays as real / 365.25) * (s.notional / t.entry)
    - (if Touches(s, t, start + 1) then s.notional * s.slPct else 0.0)
    + AmountOf(sale)
  }

  ghost function HedgeSum(s: Scenario, c: nat): real
    requires Usable(s) && Entered(s, c)
  {
    if c == 0 then 0.0
    else
      var t := Open(s, Entry(s, c - 1));
      HedgeSum(s, c - 1) + s.bsPut(t.entry, t.strike, s.tenorDays as real / 365.25) * (s.notional / t.entry)
  }

  function SaleSum(sales: seq<Option<Sale>>): real {
    if |sales| == 0 then 0.0 else SaleSum(sales[..|sales| - 1]) + AmountOf(sales[|sales| - 1])
  }

  ghost function ProfitSum(s: Scenario, c: nat, sales: seq<Option<Sale>>): real
    requires Usable(s) && Entered(s, c) && |sales| == c
  {
    if c == 0 then 0.0
    else ProfitSum(s, c - 1, sales[..c - 1]) + CycleProfit(s, Entry(s, c - 1), sales[c - 1])
  }

  function Net(x: Totals): real {
    x.premium - x.hedge - x.payouts + x.tp
  }

  lemma AddCycleSums(s: Scenario, x: Totals, hedgeCost: real, g: Progress)
    ensures var y := AddCycle(s, x, hedgeCost, g);
            && y.hedge == x.hedge + hedgeCost && y.tp == x.tp + AmountOf(g.sale)
            && Net(y) == Net(x) + s.notional * s.premiumPer1k / 1000.0 - hedgeCost
                         - (if g.triggerTs.Some? then s.notional * s.slPct else 0.0) + AmountOf(g.sale)
  {
    assert s.notional / 1000.0 * s.premiumPer1k == s.notional * s.premiumPer1k / 1000.0;
  }

  lemma HedgeCostIs(s: Scenario, start: nat)
    requires Usable(s) && start < |s.prices|
    ensures var t := Open(s, start);
            t.entry > 0.0
            && t.hedgeCost == s.bsPut(t.entry, t.strike, s.tenorDays as real / 365.25) * (s.notional / t.entry)
  {
    hide StrikeFor;
  }

  /**
   * The hedge total is the sum of the option prices times quantity over the entries, the sale total that of the
   * amounts sold for, and premium less hedge less payouts plus sales the sum of what the cycles earn.
   */
  lemma {:induction false} TotalsAreSums(s: Scenario, c: nat) returns (sales: seq<Option<Sale>>)
    requires Usable(s) && Entered(s, c)
    ensures SalesOf(s, c, sales)
    ensures var x := After(s, c);
            x.hedge == HedgeSum(s, c) && x.tp == SaleSum(sales) && Net(x) == ProfitSum(s, c, sales)
    ensures forall r: Reason :: Count(After(s, c).reasons, r) == SoldFor(sales, r)
  {
    hide Cycle, Open, AddCycle, Touches, Net, Entry, After, HedgeSum, ProfitSum, SaleSum, SalesOf, CycleProfit;
    hide SoldFor, Count;
    hide Usable, Entered;
    if c == 0 {
      sales := [];
      NothingEarned(s, c);
      NothingHedged(s, c);
      NothingSold(s, c, sales);
      forall r: Reason
        ensures Count(After(s, c).reasons, r) == SoldFor(sales, r)
      {
        NoReasons(After(s, c).reasons, sales, r);
      }
    } else {
      OneMoreCycle(s, c);
      var init := TotalsAreSums(s, c - 1);
      var start, x := Entry(s, c - 1), After(s, c - 1);
      var g := Cycle(s, start);
      CycleSells(s, start);
      CycleTriggersOnHit(s, start);
      ProfitOfCycle(s, start, g);
      AddCycleSums(s, x, Open(s, start).hedgeCost, g);
      sales := init + [g.sale];
      OneMoreSale(s, c, init, g.sale);
      forall r: Reason
        ensures Count(After(s, c).reasons, r) == SoldFor(sales, r)
      {
        OneMoreFor(s, x, Open(s, start).hedgeCost, g, init, r);
      }
    }
  }

  lemma OneMoreFor(s: Scenario, x: Totals, hedgeCost: real, g: Progress, init: seq<Option<Sale>>, r: Reason)
    requires Count(x.reasons, r) == SoldFor(init, r)
    ensures Count(AddCycle(s, x, hedgeCost, g).reasons, r) == SoldFor(init + [g.sale], r)
  {
    assert (init + [g.sale])[..|init|] == init;
  }

  lemma ProfitOfCycle(s: Scenario, start: nat, g: Progress)
    requires Usable(s) && start < |s.prices|
    requires g.triggerTs.Some? <==> Touches(s, Open(s, start), start + 1)
    ensures CycleProfit(s, start, g.sale)
         == s.notional * s.premiumPer1k / 1000.0 - Open(s, start).hedgeCost
            - (if g.triggerTs.Some? then s.notional * s.slPct else 0.0) + AmountOf(g.sale)
  {
    hide Open, Touches, AmountOf;
    HedgeCostIs(s, start);
  }

  lemma OneMoreSale(s: Scenario, c: nat, init: seq<Option<Sale>>, sale: Option<Sale>)
    requires Usable(s) && Entered(s, c) && c > 0 && Entered(s, c - 1) && Entry(s, c - 1) < |s.prices|
    requires SalesOf(s, c - 1, init)
    requires SoldFirst(s, Open(s, Entry(s, c - 1)), Entry(s, c - 1) + 1, sale)
    ensures var start, sales := Entry(s, c - 1), init + [sale];
            && SalesOf(s, c, sales)
            && HedgeSum(s, c) == HedgeSum(s, c - 1) + Open(s, start).hedgeCost
            && SaleSum(sales) == SaleSum(init) + AmountOf(sale)
            && ProfitSum(s, c, sales) == ProfitSum(s, c - 1, init) + CycleProfit(s, start, sale)
  {
    hide Open, Entry, SoldFirst, CycleProfit;
    HedgeCostIs(s, Entry(s, c - 1));
    assert (init + [sale])[..c - 1] == init;
  }

  lemma NothingEarned(s: Scenario, c: nat)
    requires Usable(s) && Entered(s, c) && c == 0
    ensures After(s, c).hedge == 0.0 == After(s, c).tp && Net(After(s, c)) == 0.0
    ensures After(s, c).reasons == map[]
  {
    hide Net;
    assert After(s, c) == Totals(0.0, 0.0, 0.0, 0.0, 0, 0, 0, map[]);
    NetOfNothing(After(s, c));
  }

  lemma NetOfNothing(x: Totals)
    requires x.premium == 0.0 && x.hedge == 0.0 && x.payouts == 0.0 && x.tp == 0.0
    ensures Net(x) == 0.0
  {
  }

  lemma NoReasons(reasons: map<Reason, nat>, sales: seq<Option<Sale>>, r: Reason)
    requires reasons == map[] && sales == []
    ensures Count(reasons, r) == 0 == SoldFor(sales, r)
  {
  }

  lemma NothingHedged(s: Scenario, c: nat)
    requires Usable(s) && Entered(s, c) && c == 0
    ensures HedgeSum(s, c) == 0.0
  {
  }

  lemma NothingSold(s: Scenario, c: nat, sales: seq<Option<Sale>>)
    requires Usable(s) && Entered(s, c) && c == 0 && sales == []
    ensures SalesOf(s, c, sales) && SaleSum(sales) == 0.0 && ProfitSum(s, c, sales) == 0.0
  {
  }
}
