/** Candidate selection, the perpetual fallback and the plan that chains them (src/executionEngine.ts). */
module ExecutionPlan {
  import opened Options
  import opened Reals
  import opened ExecutionEngine
  import opened ExecutionProofs

  datatype OptionType = Put | Call

  datatype Instrument = Instrument(optionType: OptionType, name: Option<string>, strike: real, openInterest: real)

  datatype Ticker = Ticker(
    mark: Option<real>,
    bestAsk: Option<real>,
    ask: Option<real>,
    bestBid: Option<real>,
    bid: Option<real>
  )

  // A ticker request that fails yields None. anyOrder is how the library sorts when a comparison is NaN, which its
  // specification leaves open.
  datatype Market = Market(
    instruments: seq<Instrument>,
    ticker: string -> Option<Ticker>,
    anyOrder: seq<Candidate> -> seq<Candidate>
  )

  datatype PlanRequest = PlanRequest(
    spotPrice: real,
    drawdownFloorPct: real,
    targetSize: real,
    optionType: OptionType,
    expiryTag: string,
    allowPerpFallback: bool
  )

  function TargetStrike(p: PlanRequest): real {
    if p.optionType.Put? then p.spotPrice * (1.0 - p.drawdownFloorPct) else p.spotPrice * (1.0 + p.drawdownFloorPct)
  }

  predicate Includes(s: string, tag: string) {
    tag <= s || (|s| > 0 && Includes(s[1..], tag))
  }

  predicate OnTheProtectiveSide(p: PlanRequest, inst: Instrument) {
    && inst.optionType == p.optionType
    && inst.name.Some? && Includes(inst.name.value, p.expiryTag)
    && if p.optionType.Put? then inst.strike >= TargetStrike(p) else inst.strike <= TargetStrike(p)
  }

  function BidAskSpread(bid: real, ask: real): real {
    if bid <= 0.0 || ask <= 0.0 then 1.0 else (ask - bid) / ((ask + bid) / 2.0)
  }

  // JavaScript's numbers where the score can divide by zero.
  datatype Extended = Finite(value: real) | PlusInfinity | MinusInfinity | NotANumber

  function Quotient(a: real, b: real): Extended {
    if b != 0.0 then Finite(a / b)
    else if a > 0.0 then PlusInfinity
    else if a < 0.0 then MinusInfinity
    else NotANumber
  }

  /** `Math.min(1, x)`. */
  function AtMostOne(x: Extended): Extended {
    match x
    case Finite(v) => Finite(Min(1.0, v))
    case PlusInfinity => Finite(1.0)
    case _ => x
  }

  function OneMinus(x: Extended): Extended {
    match x
    case Finite(v) => Finite(1.0 - v)
    case PlusInfinity => MinusInfinity
    case MinusInfinity => PlusInfinity
    case NotANumber => NotANumber
  }

  /** A positive weight leaves an infinity as it is. */
  function Weighted(x: Extended, weight: real): Extended {
    if x.Finite? then Finite(x.value * weight) else x
  }

  function Plus(x: Extended, y: Extended): Extended {
    if x.Finite? && y.Finite? then Finite(x.value + y.value)
    else if x.NotANumber? || y.NotANumber? then NotANumber
    else if x.Finite? then y
    else if y.Finite? || x == y then x
    else NotANumber
  }

  /** `Math.max(0, Math.min(1, x))`. */
  function Clamped(x: Extended): Option<real> {
    match x
    case Finite(v) => Some(Max(0.0, Min(1.0, v)))
    case PlusInfinity => Some(1.0)
    case MinusInfinity => Some(0.0)
    case NotANumber => None
  }

  /** The score is a number exactly unless it divides zero by zero or adds opposite infinities. */
  predicate Scorable(strike: real, target: real, openInterest: real, spread: real, cfg: Config) {
    && !(target == 0.0 && strike == target)
    && !(cfg.minOpenInterest == 0.0 && openInterest == 0.0)
    && !(cfg.maxBidAskSpread == 0.0 && spread == 0.0)
    && !(cfg.minOpenInterest == 0.0 && openInterest < 0.0 && cfg.maxBidAskSpread == 0.0 && spread < 0.0)
  }

  function LiquidityScore(strike: real, target: real, openInterest: real, spread: real, cfg: Config)
    : Option<real>
  {
    var proximity := OneMinus(AtMostOne(Quotient(Abs(strike - target), target)));
    var interest := AtMostOne(Quotient(openInterest, cfg.minOpenInterest * 10.0));
    var tightness := OneMinus(AtMostOne(Quotient(spread, cfg.maxBidAskSpread)));
    Clamped(Plus(Plus(Weighted(proximity, 0.4), Weighted(interest, 0.3)), Weighted(tightness, 0.3)))
  }

  lemma ShareKind(a: real, b: real)
    ensures var share := AtMostOne(Quotient(a, b));
            && !share.PlusInfinity?
            && (share.NotANumber? <==> a == 0.0 == b)
            && (share.MinusInfinity? <==> a < 0.0 == b)
  {
  }

  lemma ClampedIsShare(x: Extended)
    ensures Clamped(x).Some? <==> !x.NotANumber?
    ensures Clamped(x).Some? ==> 0.0 <= Clamped(x).value <= 1.0
  {
  }

  /** The score, where it is a number, lies between 0 and 1. */
  lemma ScoreIsShare(strike: real, target: real, openInterest: real, spread: real, cfg: Config)
    ensures var score := LiquidityScore(strike, target, openInterest, spread, cfg);
            && (score.Some? <==> Scorable(strike, target, openInterest, spread, cfg))
            && (score.Some? ==> 0.0 <= score.value <= 1.0)
  {
    hide AtMostOne, Quotient, Clamped;
    var p, i, t := Quotient(Abs(strike - target), target), Quotient(openInterest, cfg.minOpenInterest * 10.0),
      Quotient(spread, cfg.maxBidAskSpread);
    ShareKind(Abs(strike - target), target);
    ShareKind(openInterest, cfg.minOpenInterest * 10.0);
    ShareKind(spread, cfg.maxBidAskSpread);
    ClampedIsShare(Plus(Plus(Weighted(OneMinus(AtMostOne(p)), 0.4), Weighted(AtMostOne(i), 0.3)),
                        Weighted(OneMinus(AtMostOne(t)), 0.3)));
  }

  /** The candidate an instrument becomes, or None when it is passed over. */
  function Assess(m: Market, p: PlanRequest, cfg: Config, inst: Instrument): Option<Candidate>
  {
    if !OnTheProtectiveSide(p, inst) || inst.openInterest < cfg.minOpenInterest then None
    else
      var ticker := m.ticker(inst.name.value);
      if ticker.None? then None
      else
        var mark := Or(ticker.value.mark, 0.0);
        var ask := Or(ticker.value.bestAsk, Or(ticker.value.ask, 0.0));
        var bid := Or(ticker.value.bestBid, Or(ticker.value.bid, 0.0));
        var spread := BidAskSpread(bid, ask);
        if mark < cfg.minMarkPrice || spread > cfg.maxBidAskSpread then None
        else
          Some(Candidate(inst.name.value, inst.strike, Some(mark),
                         if ask > 0.0 then Some(ask) else None, if bid > 0.0 then Some(bid) else None,
                         inst.openInterest, spread,
                         LiquidityScore(inst.strike, TargetStrike(p), inst.openInterest, spread, cfg)))
  }

  function Eligible(m: Market, p: PlanRequest, cfg: Config, insts: seq<Instrument>): seq<Candidate>
  {
    if |insts| == 0 then []
    else
      var rest := Eligible(m, p, cfg, insts[..|insts| - 1]);
      var c := Assess(m, p, cfg, insts[|insts| - 1]);
      if c.Some? then rest + [c.value] else rest
  }

  function Score(c: Candidate): real {
    Or(c.liquidityScore, 0.0)
  }

  predicate AllScored(cs: seq<Candidate>) {
    forall c :: c in cs ==> c.liquidityScore.Some?
  }

  /** The library's stable sort, best score first. */
  function Insert(sorted: seq<Candidate>, c: Candidate): seq<Candidate> {
    if |sorted| == 0 || Score(sorted[|sorted| - 1]) >= Score(c) then sorted + [c]
    else Insert(sorted[..|sorted| - 1], c) + [sorted[|sorted| - 1]]
  }

  function SortByScore(cs: seq<Candidate>): seq<Candidate> {
    if |cs| == 0 then [] else Insert(SortByScore(cs[..|cs| - 1]), cs[|cs| - 1])
  }

  function Top(cs: seq<Candidate>, n: nat): seq<Candidate> {
    if n < |cs| then cs[..n] else cs
  }

  /** The library's sort of any list: stable where every score is a number, some order where one is not. */
  function Ranked(m: Market, cs: seq<Candidate>): seq<Candidate> {
    if AllScored(cs) then SortByScore(cs) else m.anyOrder(cs)
  }

  function Selection(m: Market, p: PlanRequest, cfg: Config): seq<Candidate> {
    Top(Ranked(m, Eligible(m, p, cfg, m.instruments)), cfg.maxStrikeCandidates)
  }

  method SelectStrikeCandidates(m: Market, p: PlanRequest, cfg: Config) returns (selected: seq<Candidate>)
    ensures selected == Selection(m, p, cfg)
  {
    var candidates: seq<Candidate> := [];
    for i := 0 to |m.instruments|
      invariant candidates == Eligible(m, p, cfg, m.instruments[..i])
    {
      assert m.instruments[..i + 1][..i] == m.instruments[..i];
      var c := Assess(m, p, cfg, m.instruments[i]);
      if c.None? { continue; }
      candidates := candidates + [c.value];
    }
    assert m.instruments[..|m.instruments|] == m.instruments;
    selected := Top(Ranked(m, candidates), cfg.maxStrikeCandidates);
  }

  ghost predicate BestFirst(cs: seq<Candidate>) {
    forall i, j :: 0 <= i < j < |cs| ==> Score(cs[i]) >= Score(cs[j])
  }

  /** The candidates with a given score, in order; equal subsequences make a sort stable. */
  function WithScore(cs: seq<Candidate>, score: real): seq<Candidate> {
    if |cs| == 0 then []
    else WithScore(cs[..|cs| - 1], score) + if Score(cs[|cs| - 1]) == score then [cs[|cs| - 1]] else []
  }

  lemma {:induction false} InsertKeepsOrder(sorted: seq<Candidate>, c: Candidate)
    requires BestFirst(sorted)
    ensures var inserted := Insert(sorted, c);
            && BestFirst(inserted) && |inserted| == |sorted| + 1
            && (inserted[|sorted|] == c || (|sorted| > 0 && inserted[|sorted|] == sorted[|sorted| - 1]))
  {
    if |sorted| > 0 && Score(sorted[|sorted| - 1]) < Score(c) {
      InsertKeepsOrder(sorted[..|sorted| - 1], c);
    }
  }

  lemma {:induction false} InsertKeepsElements(sorted: seq<Candidate>, c: Candidate)
    ensures multiset(Insert(sorted, c)) == multiset(sorted) + multiset{c}
  {
    if |sorted| > 0 && Score(sorted[|sorted| - 1]) < Score(c) {
      InsertKeepsElements(sorted[..|sorted| - 1], c);
      assert sorted == sorted[..|sorted| - 1] + [sorted[|sorted| - 1]];
    }
  }

  lemma WithScoreSnoc(cs: seq<Candidate>, c: Candidate, score: real)
    ensures WithScore(cs + [c], score) == WithScore(cs, score) + if Score(c) == score then [c] else []
  {
    assert (cs + [c])[..|cs|] == cs;
  }

  lemma SwapUnlikeScores(cs: seq<Candidate>, c: Candidate, d: Candidate, score: real)
    requires Score(c) != Score(d)
    ensures var one, other := if Score(c) == score then [c] else [], if Score(d) == score then [d] else [];
            cs + one + other == cs + other + one
  {
  }

  lemma {:induction false} InsertIsStable(sorted: seq<Candidate>, c: Candidate, score: real)
    ensures WithScore(Insert(sorted, c), score) == WithScore(sorted + [c], score)
  {
    hide WithScore, Score;
    if |sorted| > 0 && Score(sorted[|sorted| - 1]) < Score(c) {
      var init, last := sorted[..|sorted| - 1], sorted[|sorted| - 1];
      InsertIsStable(init, c, score);
      WithScoreSnoc(Insert(init, c), last, score);
      WithScoreSnoc(sorted, c, score);
      WithScoreSnoc(init, c, score);
      assert sorted == init + [last];
      WithScoreSnoc(init, last, score);
      SwapUnlikeScores(WithScore(init, score), c, last, score);
    }
  }

  lemma {:induction false} SortIsStable(cs: seq<Candidate>)
    ensures BestFirst(SortByScore(cs))
    ensures multiset(SortByScore(cs)) == multiset(cs)
    ensures forall score :: WithScore(SortByScore(cs), score) == WithScore(cs, score)
  {
    hide Insert;
    if |cs| > 0 {
      var init, last := cs[..|cs| - 1], cs[|cs| - 1];
      assert cs == init + [last];
      SortIsStable(init);
      InsertKeepsOrder(SortByScore(init), last);
      InsertKeepsElements(SortByScore(init), last);
      forall score
        ensures WithScore(SortByScore(cs), score) == WithScore(cs, score)
      {
        InsertIsStable(SortByScore(init), last, score);
        WithScoreSnoc(SortByScore(init), last, score);
        WithScoreSnoc(init, last, score);
      }
    }
  }

  /**
   * The selection is as many eligible candidates as allowed; where every score is a number they are the best ones,
   * best first, and nothing left out beats them.
   */
  lemma SelectionIsBest(m: Market, eligible: seq<Candidate>, n: nat)
    requires AllScored(eligible) || multiset(m.anyOrder(eligible)) == multiset(eligible)
    ensures var selected, rest := Top(Ranked(m, eligible), n), Ranked(m, eligible)[|Top(Ranked(m, eligible), n)|..];
            && |selected| == (if n < |eligible| then n else |eligible|)
            && multiset(selected) + multiset(rest) == multiset(eligible)
            && (AllScored(eligible) ==>
                  BestFirst(selected) && forall i, j :: 0 <= i < |selected| && 0 <= j < |rest| ==>
                    Score(selected[i]) >= Score(rest[j]))
  {
    hide SortByScore, WithScore, AllScored, Score;
    SortIsStable(eligible);
    var ranked := Ranked(m, eligible);
    var k := |Top(ranked, n)|;
    assert |ranked| == |multiset(ranked)| == |multiset(eligible)| == |eligible|;
    assert ranked == ranked[..k] + ranked[k..];
  }

  /** Every selected put strikes at or above the drawdown floor, and every call at or below its mirror. */
  lemma {:induction false} EligibleProtects(m: Market, p: PlanRequest, cfg: Config, insts: seq<Instrument>)
    ensures forall c :: c in Eligible(m, p, cfg, insts) ==>
              && (exists inst :: inst in insts && Assess(m, p, cfg, inst) == Some(c))
              && (if p.optionType.Put? then c.strike >= TargetStrike(p) else c.strike <= TargetStrike(p))
              && c.openInterest >= cfg.minOpenInterest && c.bidAskSpread <= cfg.maxBidAskSpread
  {
    if |insts| > 0 {
      EligibleProtects(m, p, cfg, insts[..|insts| - 1]);
      var inst := insts[|insts| - 1];
      var c := Assess(m, p, cfg, inst);
      if c.Some? {
        assert inst in insts && Assess(m, p, cfg, inst) == Some(c.value);
      }
    }
  }

  // ---------------------------------------------------------------------------------------------

  const PERPETUAL := "BTC-PERPETUAL"

  /** One market order for the whole target; the second result is the next clock reading. */
  function ExecutePerpFallback(w: World, target: real, spot: real, side: Side, ticks: nat, orders: nat)
    : (ExecutionResult, nat)
  {
    var start, pushed, now := w.clock(ticks), w.clock(ticks + 1), w.clock(ticks + 2);
    match w.venue(orders, Order(PERPETUAL, target, side, None))
    case Threw(message) =>
      var attempt := Attempt(PERPETUAL, 0.0, 0, target, 0.0, None, false, Some(message), pushed, None);
      (ExecutionResult(Failed, 0.0, 0.0, None, [attempt], None, Some(0.0), now - start), ticks + 3)
    case Answer(filledAmount, nestedFilledAmount, averagePrice, price, _, orderId) =>
      var filled := Or(filledAmount, Or(nestedFilledAmount, target));
      var raw := if averagePrice.Truthy() then averagePrice else price;
      var fillPrice := if raw.Number? then raw.value else spot;
      var attempt := Attempt(PERPETUAL, 0.0, 0, target, filled, Some(fillPrice), true, None, pushed, orderId);
      (ExecutionResult(PerpFallback, filled, filled * fillPrice, Some(fillPrice), [attempt], Some(PERPETUAL),
                       Coverage(filled, target), now - start), ticks + 3)
  }

  /**
   * The reported fill is what the venue says it filled exactly when that is not zero: an answer reporting nothing
   * filled is booked as a fill of the whole target.
   */
  lemma PerpReportsVenueFill(w: World, target: real, spot: real, side: Side, ticks: nat, orders: nat)
    requires w.venue(orders, Order(PERPETUAL, target, side, None)).Answer?
    ensures var answer := w.venue(orders, Order(PERPETUAL, target, side, None));
            var r := ExecutePerpFallback(w, target, spot, side, ticks, orders).0;
            (r.totalFilled == FilledOr(answer, 0.0) <==> FilledOr(answer, 0.0) != 0.0 || target == 0.0)
            && (FilledOr(answer, 0.0) == 0.0 ==> r.totalFilled == target && r.attempts[0].success)
  {
  }

  function NothingDone(executionTimeMs: int): ExecutionResult {
    ExecutionResult(Failed, 0.0, 0.0, None, [], None, Some(0.0), executionTimeMs)
  }

  function SideOf(p: PlanRequest): Side {
    if p.optionType.Put? then Buy else Sell
  }

  function OrderRequest(p: PlanRequest, candidates: seq<Candidate>): Request {
    Request(candidates, p.targetSize, p.spotPrice, SideOf(p))
  }

  predicate ReachesOptions(w: World, cfg: Config, candidates: seq<Candidate>) {
    w.clock(1) - w.clock(0) <= cfg.searchBudgetMs && |candidates| > 0
  }

  function PlanResult(w: World, cfg: Config, p: PlanRequest, candidates: seq<Candidate>): ExecutionResult {
    if w.clock(1) - w.clock(0) > cfg.searchBudgetMs then NothingDone(w.clock(2) - w.clock(0))
    else if |candidates| == 0 then
      if p.allowPerpFallback then ExecutePerpFallback(w, p.targetSize, p.spotPrice, SideOf(p), 2, 0).0
      else NothingDone(w.clock(2) - w.clock(0))
    else
      var q := OrderRequest(p, candidates);
      var run := OptionRun(w, cfg, q, 2, 0);
      var option := ResultOf(w, cfg, q, w.clock(2), run);
      if !option.status.Failed? || !p.allowPerpFallback then option
      else
        var (perp, ticks) := ExecutePerpFallback(w, p.targetSize, p.spotPrice, SideOf(p), run.ticks + 1, run.orders);
        perp.(attempts := option.attempts + perp.attempts, executionTimeMs := w.clock(ticks) - w.clock(0))
  }

  method BuildExecutionPlan(w: World, m: Market, cfg: Config, p: PlanRequest) returns (result: ExecutionResult)
    ensures result == PlanResult(w, cfg, p, Selection(m, p, cfg))
  {
    var startTime := w.clock(0);
    var candidates := SelectStrikeCandidates(m, p, cfg);
    if w.clock(1) - startTime > cfg.searchBudgetMs {
      return NothingDone(w.clock(2) - startTime);
    }
    if |candidates| == 0 {
      if p.allowPerpFallback {
        return ExecutePerpFallback(w, p.targetSize, p.spotPrice, SideOf(p), 2, 0).0;
      }
      return NothingDone(w.clock(2) - startTime);
    }
    var optionResult, ticks, orders := ExecuteMultiStrikeOption(w, cfg, OrderRequest(p, candidates), 2, 0);
    if optionResult.status.Success? || optionResult.status.Partial? {
      return optionResult;
    }
    if p.allowPerpFallback {
      var (perpResult, next) := ExecutePerpFallback(w, p.targetSize, p.spotPrice, SideOf(p), ticks, orders);
      perpResult := perpResult.(attempts := optionResult.attempts + perpResult.attempts,
                                executionTimeMs := w.clock(next) - startTime);
      return perpResult;
    }
    return optionResult;
  }

  /** The option fill a plan drops from its totals: all of it when the perpetual order is sent afterwards. */
  function Abandoned(w: World, cfg: Config, p: PlanRequest, candidates: seq<Candidate>): real {
    if !ReachesOptions(w, cfg, candidates) || !p.allowPerpFallback then 0.0
    else
      var q := OrderRequest(p, candidates);
      var run := OptionRun(w, cfg, q, 2, 0);
      if ResultOf(w, cfg, q, w.clock(2), run).status.Failed? then run.filled else 0.0
  }

  lemma {:induction false} BoughtConcat(a: seq<Attempt>, b: seq<Attempt>)
    ensures Bought(a + b) == Bought(a) + Bought(b)
  {
    if |b| == 0 {
      assert a + b == a;
    } else {
      BoughtConcat(a, b[..|b| - 1]);
      assert (a + b)[..|a + b| - 1] == a + b[..|b| - 1];
    }
  }

  lemma PerpBought(w: World, target: real, spot: real, side: Side, ticks: nat, orders: nat)
    requires Honest(w)
    ensures var r := ExecutePerpFallback(w, target, spot, side, ticks, orders).0;
            Bought(r.attempts) == r.totalFilled && (target > 0.0 ==> 0.0 <= r.totalFilled <= target)
  {
    var answer := w.venue(orders, Order(PERPETUAL, target, side, None));
    assert target > 0.0 ==> 0.0 <= FilledOr(answer, 0.0) <= target;
    var a := ExecutePerpFallback(w, target, spot, side, ticks, orders).0.attempts;
    assert a[..0] == [];
  }

  lemma FailedStaysBelow(cfg: Config, q: Request, run: Run)
    requires Good(cfg, q, run) && StatusOf(Coverage(run.filled, q.targetSize), cfg.minFillRatio).Failed?
    ensures run.filled > 0.0 ==> run.filled < cfg.minFillRatio * q.targetSize
  {
    if run.filled > 0.0 {
      CoverageReached(run.filled, q.targetSize, cfg.minFillRatio);
    }
  }

  /**
   * What the attempts of a plan bought exceeds the reported fill by exactly the abandoned option fill, which is
   * zero or strictly below minFillRatio * target; so the hedge bought stays below (1 + minFillRatio) * target.
   */
  lemma HedgeGap(w: World, cfg: Config, p: PlanRequest, candidates: seq<Candidate>)
    requires Honest(w)
    ensures var r := PlanResult(w, cfg, p, candidates);
            var gap := Bought(r.attempts) - r.totalFilled;
            && gap == Abandoned(w, cfg, p, candidates) >= 0.0
            && (gap > 0.0 ==> gap < cfg.minFillRatio * p.targetSize)
            && (p.targetSize > 0.0 ==> 0.0 <= r.totalFilled <= p.targetSize)
            && (p.targetSize > 0.0 && gap > 0.0 ==> Bought(r.attempts) < (1.0 + cfg.minFillRatio) * p.targetSize)
  {
    hide OptionRun, AttemptsOf, ExecutePerpFallback, Legal, FilledIn, PaidIn, LastFilled;
    if ReachesOptions(w, cfg, candidates) {
      var q := OrderRequest(p, candidates);
      var run := OptionRun(w, cfg, q, 2, 0);
      OptionRunTotals(w, cfg, q, 2, 0);
      if StatusOf(Coverage(run.filled, q.targetSize), cfg.minFillRatio).Failed? {
        FailedStaysBelow(cfg, q, run);
      }
      PerpBought(w, p.targetSize, p.spotPrice, SideOf(p), run.ticks + 1, run.orders);
      BoughtConcat(AttemptsOf(run.steps),
                   ExecutePerpFallback(w, p.targetSize, p.spotPrice, SideOf(p), run.ticks + 1, run.orders).0.attempts);
      assert (1.0 + cfg.minFillRatio) * p.targetSize == p.targetSize + cfg.minFillRatio * p.targetSize;
    } else {
      PerpBought(w, p.targetSize, p.spotPrice, SideOf(p), 2, 0);
    }
  }

  const LONE_PUT := Instrument(Put, Some("put"), 0.9, 1.0)

  lemma FullScore(cfg: Config)
    requires cfg.minOpenInterest == 0.1 && cfg.maxBidAskSpread == 0.05
    ensures LiquidityScore(0.9, 0.9, 1.0, 0.0, cfg) == Some(1.0)
  {
    hide Quotient;
    SimpleQuotients(0.9);
    SimpleQuotients(cfg.minOpenInterest * 10.0);
    SimpleQuotients(cfg.maxBidAskSpread);
    assert Abs(0.9 - 0.9) == 0.0 && cfg.minOpenInterest * 10.0 == 1.0;
    assert OneMinus(AtMostOne(Finite(0.0))) == Finite(1.0) == AtMostOne(Finite(1.0));
    assert Plus(Plus(Weighted(Finite(1.0), 0.4), Weighted(Finite(1.0), 0.3)), Weighted(Finite(1.0), 0.3))
        == Finite(1.0);
  }

  lemma SimpleQuotients(b: real)
    requires b > 0.0
    ensures Quotient(0.0, b) == Finite(0.0) && Quotient(b, b) == Finite(1.0)
  {
    DivExact(0.0, b, 0.0);
    DivExact(b, b, 1.0);
  }

  lemma LonePutAssessed(m: Market, p: PlanRequest, cfg: Config)
    requires m.ticker("put") == Some(Ticker(Some(1.0), Some(1.0), None, Some(1.0), None))
    requires p.optionType.Put? && p.expiryTag == "" && TargetStrike(p) == 0.9
    requires cfg.minOpenInterest == 0.1 && cfg.maxBidAskSpread == 0.05 && cfg.minMarkPrice <= 1.0
    ensures Assess(m, p, cfg, LONE_PUT)
         == Some(Candidate("put", 0.9, Some(1.0), Some(1.0), Some(1.0), 1.0, 0.0, Some(1.0)))
  {
    hide LiquidityScore, TargetStrike;
    FullScore(cfg);
    assert Includes("put", "");
    assert BidAskSpread(1.0, 1.0) == 0.0;
  }

  /** A market of one put, quoted with no spread. */
  lemma LonePutSelected(m: Market, p: PlanRequest, cfg: Config)
    requires m.instruments == [LONE_PUT]
    requires m.ticker("put") == Some(Ticker(Some(1.0), Some(1.0), None, Some(1.0), None))
    requires p.optionType.Put? && p.expiryTag == "" && TargetStrike(p) == 0.9
    requires cfg.maxStrikeCandidates >= 1 && cfg.minOpenInterest == 0.1 && cfg.maxBidAskSpread == 0.05
    requires cfg.minMarkPrice <= 1.0
    ensures Selection(m, p, cfg) == [Candidate("put", 0.9, Some(1.0), Some(1.0), Some(1.0), 1.0, 0.0, Some(1.0))]
  {
    var c := Candidate("put", 0.9, Some(1.0), Some(1.0), Some(1.0), 1.0, 0.0, Some(1.0));
    LonePutAssessed(m, p, cfg);
    hide Assess;
    assert Eligible(m, p, cfg, []) == [];
    assert m.instruments[..0] == [];
    assert Eligible(m, p, cfg, m.instruments) == [c];
    assert [c][..0] == [];
    assert SortByScore([c]) == [c];
  }

  /** A venue that fills 40% of every limit order and all of every market order. */
  function FortyPercent(n: nat, order: Order): Response {
    Answer(Some(if order.limitPrice.Some? then 0.4 * order.amount else order.amount), None,
           Number(1.0), Missing, Missing, None)
  }

  const FORTY := World(_ => 0, FortyPercent)

  lemma FortyIsHonest()
    ensures Honest(FORTY)
  {
  }

  lemma FirstTryFills(cfg: Config, q: Request, r: Run)
    requires |q.candidates| == 1 && cfg.maxRetries == 0 && cfg.searchBudgetMs == 1200
    ensures var (r1, success) := TryCandidate(FORTY, cfg, q, 0, 0, 1.0, 0, r);
            success && r1.filled == r.filled + 0.4
  {
    hide LimitPrice, BasePrice, FillPriceOf;
    var order := OrderFor(q, cfg, 0, 1.0);
    assert FilledOr(FORTY.venue(r.orders, order), 0.0) == 0.4;
    assert OrderStep(q, 0, 0, order, FORTY.venue(r.orders, order), 0).attempt.filledSize == 0.4;
  }

  lemma RunFillsForty(cfg: Config, q: Request)
    requires |q.candidates| == 1 && cfg.maxRetries == 0 && cfg.searchBudgetMs == 1200 && cfg.minFillRatio == 0.5
    requires q.targetSize == 1.0 && BasePrice(q.side, q.candidates[0]) > 0.0
    ensures OptionRun(FORTY, cfg, q, 2, 0).filled == 0.4
  {
    hide TryCandidate, BasePrice, Coverage, AtLeast;
    var r0 := Run([], 0.0, 0.0, None, 3, 0);
    FirstTryFills(cfg, q, r0.(ticks := 4));
    var (r1, success) := TryCandidate(FORTY, cfg, q, 0, 0, 1.0, 0, r0.(ticks := 4));
    CoverageReached(r1.filled, 1.0, 0.5);
    assert Walk(FORTY, cfg, q, 1, 0, r1) == r1;
  }

  lemma OverHedgeOnce(cfg: Config, p: PlanRequest, candidates: seq<Candidate>)
    requires cfg.maxRetries == 0 && cfg.searchBudgetMs == 1200 && cfg.minFillRatio == 0.5
    requires p.targetSize == 1.0 && p.optionType.Put? && p.allowPerpFallback
    requires |candidates| == 1 && candidates[0].askPrice == Some(1.0)
    ensures Bought(PlanResult(FORTY, cfg, p, candidates).attempts) == 1.4
  {
    hide OptionRun, Coverage, AtLeast, AttemptsOf, Bought, Honest;
    var q := OrderRequest(p, candidates);
    var run := OptionRun(FORTY, cfg, q, 2, 0);
    RunFillsForty(cfg, q);
    CoverageReached(run.filled, 1.0, 0.5);
    CoverageReached(run.filled, 1.0, 0.99);
    FortyIsHonest();
    HedgeGap(FORTY, cfg, p, candidates);
  }

  /** The gap is real: with a venue that fills 40% of every limit order the plan buys 1.4 for a target of 1. */
  lemma OverHedgeHappens() returns (w: World, m: Market, cfg: Config, p: PlanRequest)
    ensures Honest(w) && cfg.minFillRatio == 0.5 && p.targetSize == 1.0
    ensures Bought(PlanResult(w, cfg, p, Selection(m, p, cfg)).attempts) == 1.4
  {
    hide Bought, PlanResult, Selection, Honest;
    FortyIsHonest();
    w := FORTY;
    m := Market([LONE_PUT], _ => Some(Ticker(Some(1.0), Some(1.0), None, Some(1.0), None)), cs => cs);
    cfg := Config(0, 0.003, 0.5, 3, 1200, 0.1, 0.05, 0.0001);
    p := PlanRequest(1.0, 0.1, 1.0, Put, "", true);
    LonePutSelected(m, p, cfg);
    OverHedgeOnce(cfg, p, Selection(m, p, cfg));
  }
}
