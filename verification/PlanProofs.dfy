/** What the selection and the plan of src/executionEngine.ts do, stated over quotes, scores and orders themselves. */
module PlanProofs {
  import opened Options
  import opened Reals
  import opened ExecutionEngine
  import opened ExecutionProofs
  import opened ExecutionPlan

  // ---------------------------------------------------------------------------------------------
  // Which instruments become candidates.

  lemma {:induction false} IncludesMeans(s: string, tag: string)
    ensures Includes(s, tag) <==> exists i :: 0 <= i <= |s| && tag <= s[i..]
  {
    if tag <= s {
      assert s[0..] == s;
    } else if |s| > 0 {
      IncludesMeans(s[1..], tag);
      if i :| 0 <= i <= |s[1..]| && tag <= s[1..][i..] {
        assert s[i + 1..] == s[1..][i..];
      }
      if i :| 0 <= i <= |s| && tag <= s[i..] {
        assert i > 0 && s[1..][i - 1..] == s[i..];
      }
    }
  }

  /** `a || b || 0` on two optional numbers. */
  predicate FirstQuote(first: Option<real>, second: Option<real>, quote: real) {
    FirstReported(first, second, 0.0, quote)
  }

  /** The relative spread is at most the limit; a missing side counts as a spread of 1. */
  predicate SpreadWithin(bid: real, ask: real, limit: real) {
    if bid > 0.0 && ask > 0.0 then (ask - bid) * 2.0 <= limit * (ask + bid) else 1.0 <= limit
  }

  /** The filter, over what the venue says of the instrument. */
  ghost predicate Passes(m: Market, p: PlanRequest, cfg: Config, inst: Instrument, bid: real, ask: real) {
    && inst.optionType == p.optionType
    && inst.name.Some? && (exists i :: 0 <= i <= |inst.name.value| && p.expiryTag <= inst.name.value[i..])
    && (if p.optionType.Put? then inst.strike >= p.spotPrice - p.spotPrice * p.drawdownFloorPct
        else inst.strike <= p.spotPrice + p.spotPrice * p.drawdownFloorPct)
    && inst.openInterest >= cfg.minOpenInterest
    && m.ticker(inst.name.value).Some?
    && var t := m.ticker(inst.name.value).value;
       && FirstQuote(t.bestBid, t.bid, bid) && FirstQuote(t.bestAsk, t.ask, ask)
       && (if t.mark.Some? then t.mark.value else 0.0) >= cfg.minMarkPrice
       && SpreadWithin(bid, ask, cfg.maxBidAskSpread)
  }

  lemma TargetIsFloor(p: PlanRequest)
    ensures TargetStrike(p) == if p.optionType.Put? then p.spotPrice - p.spotPrice * p.drawdownFloorPct
                               else p.spotPrice + p.spotPrice * p.drawdownFloorPct
  {
    var spot, pct := p.spotPrice, p.drawdownFloorPct;
    assert spot * (1.0 - pct) == spot - spot * pct && spot * (1.0 + pct) == spot + spot * pct;
  }

  lemma SpreadIs(bid: real, ask: real, limit: real)
    ensures BidAskSpread(bid, ask) <= limit <==> SpreadWithin(bid, ask, limit)
  {
    if bid > 0.0 && ask > 0.0 {
      var mid := (ask + bid) / 2.0;
      DivAtMost(ask - bid, mid, limit);
      assert limit * mid * 2.0 == limit * (ask + bid);
    }
  }

  lemma DivAtMost(a: real, b: real, c: real)
    requires b > 0.0
    ensures a / b <= c <==> a <= c * b
  {
    assert a / b * b == a;
    QuotientAtLeast(c, b, a / b);
  }

  /** An instrument becomes a candidate exactly when it passes the filter, and the candidate carries its quotes. */
  lemma CandidateIff(m: Market, p: PlanRequest, cfg: Config, inst: Instrument)
    ensures Assess(m, p, cfg, inst).Some? <==> exists bid, ask :: Passes(m, p, cfg, inst, bid, ask)
    ensures forall bid, ask :: Passes(m, p, cfg, inst, bid, ask) ==>
              && Assess(m, p, cfg, inst).Some?
              && var c := Assess(m, p, cfg, inst).value;
                 && c.instrument == inst.name.value && c.strike == inst.strike && c.openInterest == inst.openInterest
                 && c.markPrice == Some(Or(m.ticker(inst.name.value).value.mark, 0.0))
                 && c.askPrice == (if ask > 0.0 then Some(ask) else None)
                 && c.bidPrice == (if bid > 0.0 then Some(bid) else None)
                 && c.bidAskSpread == BidAskSpread(bid, ask)
                 && c.liquidityScore
                    == LiquidityScore(inst.strike, TargetStrike(p), inst.openInterest, c.bidAskSpread, cfg)
  {
    hide Includes, LiquidityScore, BidAskSpread, TargetStrike, SpreadWithin;
    TargetIsFloor(p);
    if inst.name.Some? {
      IncludesMeans(inst.name.value, p.expiryTag);
      if m.ticker(inst.name.value).Some? {
        var t := m.ticker(inst.name.value).value;
        var bid, ask := Or(t.bestBid, Or(t.bid, 0.0)), Or(t.bestAsk, Or(t.ask, 0.0));
        SpreadIs(bid, ask, cfg.maxBidAskSpread);
        assert FirstQuote(t.bestBid, t.bid, bid) && FirstQuote(t.bestAsk, t.ask, ask);
        if Assess(m, p, cfg, inst).Some? {
          assert Includes(inst.name.value, p.expiryTag) && OnTheProtectiveSide(p, inst);
          assert SpreadWithin(bid, ask, cfg.maxBidAskSpread);
          assert Or(t.mark, 0.0) >= cfg.minMarkPrice;
          assert Or(t.mark, 0.0) == if t.mark.Some? then t.mark.value else 0.0;
          assert exists i :: 0 <= i <= |inst.name.value| && p.expiryTag <= inst.name.value[i..];
          assert Passes(m, p, cfg, inst, bid, ask);
        }
      }
    }
  }

  /**
   * The candidates are exactly the instruments that become one: the j-th is that of instrument at[j], at[] is in
   * order, and no instrument that becomes a candidate is missing.
   */
  lemma {:induction false} EveryEligibleIsCandidate(m: Market, p: PlanRequest, cfg: Config, insts: seq<Instrument>)
    returns (at: seq<nat>)
    ensures |at| == |Eligible(m, p, cfg, insts)|
    ensures forall j :: 0 <= j < |at| ==>
              at[j] < |insts| && Assess(m, p, cfg, insts[at[j]]) == Some(Eligible(m, p, cfg, insts)[j])
    ensures forall i, j :: 0 <= i < j < |at| ==> at[i] < at[j]
    ensures forall i :: 0 <= i < |insts| && Assess(m, p, cfg, insts[i]).Some? ==> i in at
  {
    hide Assess;
    if |insts| == 0 {
      at := [];
    } else {
      var init, last := insts[..|insts| - 1], |insts| - 1;
      at := EveryEligibleIsCandidate(m, p, cfg, init);
      assert forall i :: 0 <= i < last ==> init[i] == insts[i];
      if Assess(m, p, cfg, insts[last]).Some? {
        at := at + [last];
        assert at[|at| - 1] == last;
      }
    }
  }

  /** How many of the instruments pass; with none above the limit all of them are tried. */
  lemma SelectionSize(m: Market, p: PlanRequest, cfg: Config, at: seq<nat>)
    requires |at| == |Eligible(m, p, cfg, m.instruments)|
    requires forall cs :: |m.anyOrder(cs)| == |cs|
    ensures |Selection(m, p, cfg)| == if cfg.maxStrikeCandidates < |at| then cfg.maxStrikeCandidates else |at|
  {
    hide Eligible, SortByScore;
    SortIsStable(Eligible(m, p, cfg, m.instruments));
    var es := Eligible(m, p, cfg, m.instruments);
    assert |SortByScore(es)| == |multiset(SortByScore(es))| == |multiset(es)| == |es|;
  }

  // ---------------------------------------------------------------------------------------------
  // The score.

  lemma AtMostOneFinite(x: real)
    ensures AtMostOne(Finite(x)) == Finite(CutAtOne(x))
  {
  }

  function CutAtOne(x: real): real {
    if x <= 1.0 then x else 1.0
  }

  /** 40% for nearness, 30% for open interest, 30% for a tight spread, kept between 0 and 1. */
  function Weigh(distance: real, interest: real, width: real): real {
    var sum := 0.4 * (1.0 - CutAtOne(distance)) + 0.3 * CutAtOne(interest) + 0.3 * (1.0 - CutAtOne(width));
    if sum < 0.0 then 0.0 else if sum > 1.0 then 1.0 else sum
  }

  /** With non-zero divisors the score weighs distance, interest and spread, each as a share of its own limit. */
  lemma ScoreShares(strike: real, target: real, openInterest: real, spread: real, cfg: Config)
    requires target != 0.0 && cfg.minOpenInterest != 0.0 && cfg.maxBidAskSpread != 0.0
    ensures var gap := if strike >= target then strike - target else target - strike;
            LiquidityScore(strike, target, openInterest, spread, cfg)
            == Some(Weigh(gap / target, openInterest / (10.0 * cfg.minOpenInterest), spread / cfg.maxBidAskSpread))
  {
    hide Quotient, LiquidityScore, Weigh;
    var gap := if strike >= target then strike - target else target - strike;
    assert Abs(strike - target) == gap;
    assert cfg.minOpenInterest * 10.0 == 10.0 * cfg.minOpenInterest != 0.0;
    QuotientFinite(gap, target);
    QuotientFinite(openInterest, 10.0 * cfg.minOpenInterest);
    QuotientFinite(spread, cfg.maxBidAskSpread);
    ScoreOfFinite(strike, target, openInterest, spread, cfg, gap / target,
                  openInterest / (10.0 * cfg.minOpenInterest), spread / cfg.maxBidAskSpread);
  }

  lemma QuotientFinite(a: real, b: real)
    requires b != 0.0
    ensures Quotient(a, b) == Finite(a / b)
  {
  }

  lemma ScoreOfFinite(strike: real, target: real, openInterest: real, spread: real, cfg: Config,
                      distance: real, interest: real, width: real)
    requires Quotient(Abs(strike - target), target) == Finite(distance)
    requires Quotient(openInterest, cfg.minOpenInterest * 10.0) == Finite(interest)
    requires Quotient(spread, cfg.maxBidAskSpread) == Finite(width)
    ensures LiquidityScore(strike, target, openInterest, spread, cfg) == Some(Weigh(distance, interest, width))
  {
    hide Quotient, AtMostOne, OneMinus, Weighted, Plus, Clamped, CutAtOne;
    AtMostOneFinite(distance);
    AtMostOneFinite(interest);
    AtMostOneFinite(width);
    SumOfShares(CutAtOne(distance), CutAtOne(interest), CutAtOne(width));
  }

  lemma SumOfShares(d: real, i: real, w: real)
    ensures var sum := 0.4 * (1.0 - d) + 0.3 * i + 0.3 * (1.0 - w);
            Clamped(Plus(Plus(Weighted(OneMinus(Finite(d)), 0.4), Weighted(Finite(i), 0.3)),
                         Weighted(OneMinus(Finite(w)), 0.3)))
            == Some(if sum < 0.0 then 0.0 else if sum > 1.0 then 1.0 else sum)
  {
  }

  // ---------------------------------------------------------------------------------------------
  // The perpetual order and the plan.

  /** What a fallback reports: one market order for the whole target on the given side, booked as answered. */
  lemma PerpReport(w: World, target: real, spot: real, side: Side, ticks: nat, orders: nat)
    ensures var (r, next) := ExecutePerpFallback(w, target, spot, side, ticks, orders);
            var order := Order("BTC-PERPETUAL", target, side, None);
            && next == ticks + 3 && r.executionTimeMs == w.clock(ticks + 2) - w.clock(ticks)
            && |r.attempts| == 1
            && r.attempts[0].instrument == order.instrument && r.attempts[0].requestedSize == target
            && r.attempts[0].filledSize == r.totalFilled && r.attempts[0].fillPrice == r.averageFillPrice
            && match w.venue(orders, order)
               case Threw(message) =>
                 && r.status.Failed? && r.totalFilled == 0.0 == r.totalCostUsdc
                 && r.averageFillPrice.None? && r.finalInstrument.None? && r.coverageRatio == Some(0.0)
                 && !r.attempts[0].success && r.attempts[0].failureReason == Some(message)
               case Answer(filled, nested, average, price, _, orderId) =>
                 && r.status.PerpFallback? && FirstReported(filled, nested, target, r.totalFilled)
                 && (r.averageFillPrice == Some(spot)
                     || (average.Number? && average.value != 0.0 && r.averageFillPrice == Some(average.value))
                     || (average in {Missing, Number(0.0)} && price.Number? && r.averageFillPrice == Some(price.value)))
                 && (average.Number? && average.value != 0.0 ==> r.averageFillPrice == Some(average.value))
                 && (average in {Missing, Number(0.0)} && price.Number? ==> r.averageFillPrice == Some(price.value))
                 && r.totalCostUsdc == r.totalFilled * r.averageFillPrice.value
                 && r.finalInstrument == Some(order.instrument)
                 && (target != 0.0 ==> r.coverageRatio.Some? && r.coverageRatio.value * target == r.totalFilled)
                 && r.attempts[0].success && r.attempts[0].failureReason.None? && r.attempts[0].orderId == orderId
  {
    hide Or;
    var answer := w.venue(orders, Order("BTC-PERPETUAL", target, side, None));
    if answer.Answer? {
      FirstOfTwo(answer.filledAmount, answer.nestedFilledAmount, target);
    }
  }

  lemma FirstOfTwo(first: Option<real>, second: Option<real>, default: real)
    ensures FirstReported(first, second, default, Or(first, Or(second, default)))
  {
  }

  /** The time budget is spent on the selection alone. */
  predicate TooLate(w: World, cfg: Config) {
    w.clock(1) - w.clock(0) > cfg.searchBudgetMs
  }

  /** The option loop's fill of a plan. */
  function OptionFill(w: World, cfg: Config, p: PlanRequest, candidates: seq<Candidate>): real {
    OptionRun(w, cfg, OrderRequest(p, candidates), 2, 0).filled
  }

  /**
   * The perpetual order is sent when it is allowed, the selection was in time, and the options did not reach both 99%
   * and the minimum ratio of a positive target.
   */
  predicate SendsPerp(w: World, cfg: Config, p: PlanRequest, candidates: seq<Candidate>) {
    && !TooLate(w, cfg) && p.allowPerpFallback
    && (|candidates| == 0
        || (OptionFill(w, cfg, p, candidates) < 0.99 * p.targetSize
            && OptionFill(w, cfg, p, candidates) < cfg.minFillRatio * p.targetSize))
  }

  /** Where the clock and the orders stand when the perpetual order is sent. */
  function PerpTicks(w: World, cfg: Config, p: PlanRequest, candidates: seq<Candidate>): nat {
    if |candidates| == 0 then 2 else OptionRun(w, cfg, OrderRequest(p, candidates), 2, 0).ticks + 1
  }

  function PerpOrders(w: World, cfg: Config, p: PlanRequest, candidates: seq<Candidate>): nat {
    if |candidates| == 0 then 0 else OptionRun(w, cfg, OrderRequest(p, candidates), 2, 0).orders
  }

  /** The attempts of the option loop, none when it is not reached. */
  function OptionAttempts(w: World, cfg: Config, p: PlanRequest, candidates: seq<Candidate>): seq<Attempt> {
    if TooLate(w, cfg) || |candidates| == 0 then []
    else AttemptsOf(OptionRun(w, cfg, OrderRequest(p, candidates), 2, 0).steps)
  }

  /**
   * The plan for a positive target: too late, or nothing to try and no fallback allowed, nothing is ordered at all;
   * with a fallback the report is that of one perpetual order, bought for puts and sold for calls, after the option
   * attempts; otherwise it is the option run's.
   */
  lemma PlanCases(w: World, cfg: Config, p: PlanRequest, candidates: seq<Candidate>)
    requires p.targetSize > 0.0
    ensures var r, options := PlanResult(w, cfg, p, candidates), OptionAttempts(w, cfg, p, candidates);
            var side := if p.optionType.Put? then Buy else Sell;
            && (SendsPerp(w, cfg, p, candidates) ==>
                  var (perp, next) := ExecutePerpFallback(w, p.targetSize, p.spotPrice, side,
                                        PerpTicks(w, cfg, p, candidates), PerpOrders(w, cfg, p, candidates));
                  && r == perp.(attempts := options + perp.attempts, executionTimeMs := r.executionTimeMs)
                  && (|candidates| > 0 ==> r.executionTimeMs == w.clock(next) - w.clock(0)))
            && (!SendsPerp(w, cfg, p, candidates) ==>
                  && r.attempts == options && !r.status.PerpFallback?
                  && (TooLate(w, cfg) || |candidates| == 0 ==>
                        r.status.Failed? && r.totalFilled == 0.0 == r.totalCostUsdc && r.finalInstrument.None?)
                  && (!TooLate(w, cfg) && |candidates| > 0 ==>
                        var q := Request(candidates, p.targetSize, p.spotPrice, side);
                        r == ResultOf(w, cfg, q, w.clock(2), OptionRun(w, cfg, q, 2, 0))))
  {
    hide OptionRun, ExecutePerpFallback, AttemptsOf, AveragePrice, Coverage, AtLeast;
    if !TooLate(w, cfg) && |candidates| > 0 {
      var fill := OptionFill(w, cfg, p, candidates);
      CoverageReached(fill, p.targetSize, 0.99);
      CoverageReached(fill, p.targetSize, cfg.minFillRatio);
    }
  }
}
