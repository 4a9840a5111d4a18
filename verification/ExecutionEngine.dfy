/** The option order loop of src/executionEngine.ts against an arbitrary venue and an arbitrary clock. */
module ExecutionEngine {
  import opened Options
  import opened Reals

  datatype Side = Buy | Sell

  // liquidityScore is None where the program computes a NaN.
  datatype Candidate = Candidate(
    instrument: string,
    strike: real,
    markPrice: Option<real>,
    askPrice: Option<real>,
    bidPrice: Option<real>,
    openInterest: real,
    bidAskSpread: real,
    liquidityScore: Option<real>
  )

  datatype Config = Config(
    maxRetries: int,
    slippageTolerance: real,
    minFillRatio: real,
    maxStrikeCandidates: nat,
    searchBudgetMs: int,
    minOpenInterest: real,
    maxBidAskSpread: real,
    minMarkPrice: real
  )

  datatype Attempt = Attempt(
    instrument: string,
    strike: real,
    attemptNumber: int,
    requestedSize: real,
    filledSize: real,
    fillPrice: Option<real>,
    success: bool,
    failureReason: Option<string>,
    timestampMs: int,
    orderId: Option<string>
  )

  datatype Status = Success | Partial | Failed | PerpFallback

  // coverageRatio is None where the program divides by a zero target.
  datatype ExecutionResult = ExecutionResult(
    status: Status,
    totalFilled: real,
    totalCostUsdc: real,
    averageFillPrice: Option<real>,
    attempts: seq<Attempt>,
    finalInstrument: Option<string>,
    coverageRatio: Option<real>,
    executionTimeMs: int
  )

  // A market order has no limit price.
  datatype Order = Order(instrument: string, amount: real, side: Side, limitPrice: Option<real>)

  // A price field of the venue's answer: missing or falsy, a finite number, or something else truthy.
  datatype RawPrice = Missing | Number(value: real) | Junk {
    predicate Truthy() {
      Junk? || (Number? && value != 0.0)
    }
  }

  datatype Response =
    | Threw(message: string)
    | Answer(
        filledAmount: Option<real>,
        nestedFilledAmount: Option<real>,
        averagePrice: RawPrice,
        price: RawPrice,
        fillPrice: RawPrice,
        orderId: Option<string>
      )

  // The n-th reading of the clock and the answer to the n-th order are arbitrary.
  datatype World = World(clock: nat -> int, venue: (nat, Order) -> Response)

  datatype Request = Request(candidates: seq<Candidate>, targetSize: real, spotPrice: real, side: Side)

  /** `a || b` on an optional number. */
  function Or(a: Option<real>, b: real): real {
    if a.Some? && a.value != 0.0 then a.value else b
  }

  function BasePrice(side: Side, c: Candidate): real {
    match side
    case Buy => Or(c.askPrice, Or(c.markPrice, 0.0))
    case Sell => Or(c.bidPrice, Or(c.markPrice, 0.0))
  }

  function LimitPrice(side: Side, cfg: Config, c: Candidate): real {
    BasePrice(side, c) * (if side.Buy? then 1.0 + cfg.slippageTolerance else 1.0 - cfg.slippageTolerance)
  }

  /** `filledAmount || result.filled_amount || fallback`. */
  function FilledOr(answer: Response, fallback: real): real {
    if answer.Threw? then 0.0 else Or(answer.filledAmount, Or(answer.nestedFilledAmount, fallback))
  }

  function FillPriceOf(answer: Response, base: real): Option<real>
    requires answer.Answer?
  {
    var raw :=
      if answer.averagePrice.Truthy() then answer.averagePrice
      else if answer.price.Truthy() then answer.price
      else if answer.fillPrice.Truthy() then answer.fillPrice
      else Number(base);
    if raw.Number? then Some(raw.value) else None
  }

  function Coverage(filled: real, target: real): Option<real> {
    if target == 0.0 then None else Some(filled / target)
  }

  predicate AtLeast(ratio: Option<real>, bound: real) {
    ratio.Some? && ratio.value >= bound
  }

  // ---------------------------------------------------------------------------------------------
  // What a run did: every attempt with the candidate it was made for, the price it is booked at, and the order sent
  // with its answer; no order is sent for a candidate without a price.

  datatype Sent = Sent(order: Order, answer: Response)

  datatype Step = Step(candidate: nat, attempt: Attempt, bookedPrice: real, sent: Option<Sent>)

  datatype Run = Run(
    steps: seq<Step>,
    filled: real,
    cost: real,
    finalInstrument: Option<string>,
    ticks: nat,
    orders: nat
  )

  function AttemptsOf(steps: seq<Step>): (attempts: seq<Attempt>)
    ensures |attempts| == |steps|
    ensures forall i :: 0 <= i < |steps| ==> attempts[i] == steps[i].attempt
  {
    if |steps| == 0 then [] else AttemptsOf(steps[..|steps| - 1]) + [steps[|steps| - 1].attempt]
  }

  function NoPriceStep(q: Request, k: nat, remaining: real, now: int): Step
    requires k < |q.candidates|
  {
    var c := q.candidates[k];
    Step(k, Attempt(c.instrument, c.strike, 0, remaining, 0.0, None, false, Some("no_price_available"), now, None), 0.0,
         None)
  }

  function OrderFor(q: Request, cfg: Config, k: nat, remaining: real): Order
    requires k < |q.candidates|
  {
    Order(q.candidates[k].instrument, remaining, q.side, Some(LimitPrice(q.side, cfg, q.candidates[k])))
  }

  function OrderStep(q: Request, k: nat, retry: int, order: Order, answer: Response, now: int): Step
    requires k < |q.candidates|
  {
    var c := q.candidates[k];
    var base := BasePrice(q.side, c);
    match answer
    case Threw(message) =>
      Step(k, Attempt(c.instrument, c.strike, retry, order.amount, 0.0, None, false, Some(message), now, None), base,
           Some(Sent(order, answer)))
    case Answer(_, _, _, _, _, orderId) =>
      var filled := FilledOr(answer, 0.0);
      var price := FillPriceOf(answer, base);
      Step(k,
           Attempt(c.instrument, c.strike, retry, order.amount, filled, price, filled > 0.0,
                   if filled > 0.0 then None else Some("no_fill"), now, orderId),
           if price.Some? then price.value else base,
           Some(Sent(order, answer)))
  }

  function Book(q: Request, r: Run, s: Step): Run {
    var r1 := r.(steps := r.steps + [s], ticks := r.ticks + 1);
    if s.attempt.success then
      r1.(filled := r.filled + s.attempt.filledSize,
          cost := r.cost + s.attempt.filledSize * s.bookedPrice * q.spotPrice,
          finalInstrument := Some(s.attempt.instrument))
    else r1
  }

  function TryCandidate(w: World, cfg: Config, q: Request, k: nat, start: int, remaining: real, retry: int, r: Run)
    : (Run, bool)
    requires k < |q.candidates|
    decreases cfg.maxRetries + 1 - retry
  {
    if retry > cfg.maxRetries then (r, false)
    else if w.clock(r.ticks) - start > cfg.searchBudgetMs then (r.(ticks := r.ticks + 1), false)
    else
      var order := OrderFor(q, cfg, k, remaining);
      var s := OrderStep(q, k, retry, order, w.venue(r.orders, order), w.clock(r.ticks + 1));
      var r1 := Book(q, r.(ticks := r.ticks + 1, orders := r.orders + 1), s);
      if s.attempt.success then (r1, true) else TryCandidate(w, cfg, q, k, start, remaining, retry + 1, r1)
  }

  function Walk(w: World, cfg: Config, q: Request, k: nat, start: int, r: Run): Run
    requires k <= |q.candidates|
    decreases |q.candidates| - k
  {
    if k == |q.candidates| then r
    else
      var r0 := r.(ticks := r.ticks + 1);
      var remaining := q.targetSize - r.filled;
      if w.clock(r.ticks) - start > cfg.searchBudgetMs || remaining <= 0.0 then r0
      else if BasePrice(q.side, q.candidates[k]) <= 0.0 then
        Walk(w, cfg, q, k + 1, start, Book(q, r0, NoPriceStep(q, k, remaining, w.clock(r0.ticks))))
      else
        var (r1, success) := TryCandidate(w, cfg, q, k, start, remaining, 0, r0);
        if success && AtLeast(Coverage(r1.filled, q.targetSize), cfg.minFillRatio) then r1
        else Walk(w, cfg, q, k + 1, start, r1)
  }

  function OptionRun(w: World, cfg: Config, q: Request, ticks: nat, orders: nat): Run {
    Walk(w, cfg, q, 0, w.clock(ticks), Run([], 0.0, 0.0, None, ticks + 1, orders))
  }

  function AveragePrice(filled: real, cost: real, spot: real): (p: Option<real>)
    ensures p.Some? <==> filled > 0.0 && cost > 0.0 && spot != 0.0
  {
    if filled > 0.0 && cost > 0.0 && spot != 0.0 then Some(cost / filled / spot) else None
  }

  function StatusOf(coverage: Option<real>, minFillRatio: real): Status {
    if AtLeast(coverage, 0.99) then Success
    else if AtLeast(coverage, minFillRatio) then Partial
    else Failed
  }

  function ResultOf(w: World, cfg: Config, q: Request, start: int, r: Run): ExecutionResult {
    var coverage := Coverage(r.filled, q.targetSize);
    ExecutionResult(StatusOf(coverage, cfg.minFillRatio), r.filled, r.cost,
                    AveragePrice(r.filled, r.cost, q.spotPrice), AttemptsOf(r.steps), r.finalInstrument,
                    coverage, w.clock(r.ticks) - start)
  }

  // ---------------------------------------------------------------------------------------------
  // The loops themselves.

  /** The retry loop for one candidate, src/executionEngine.ts:223-320. */
  method RetryCandidate(w: World, cfg: Config, q: Request, k: nat, startTime: int, remainingSize: real, r0: Run)
    returns (r: Run, strikeSuccess: bool)
    requires k < |q.candidates|
    ensures (r, strikeSuccess) == TryCandidate(w, cfg, q, k, startTime, remainingSize, 0, r0)
  {
    hide LimitPrice, OrderStep, Book;
    var candidate := q.candidates[k];
    r, strikeSuccess := r0, false;
    var retry := 0;
    while retry <= cfg.maxRetries
      invariant !strikeSuccess
      invariant TryCandidate(w, cfg, q, k, startTime, remainingSize, 0, r0)
             == TryCandidate(w, cfg, q, k, startTime, remainingSize, retry, r)
    {
      var now := w.clock(r.ticks);
      if now - startTime > cfg.searchBudgetMs {
        r := r.(ticks := r.ticks + 1);
        return;
      }
      var limitPrice := LimitPrice(q.side, cfg, candidate);
      var order := Order(candidate.instrument, remainingSize, q.side, Some(limitPrice));
      var response := w.venue(r.orders, order);
      var s := OrderStep(q, k, retry, order, response, w.clock(r.ticks + 1));
      r := Book(q, r.(ticks := r.ticks + 1, orders := r.orders + 1), s);
      if s.attempt.success {
        strikeSuccess := true;
        return;
      }
      retry := retry + 1;
    }
  }

  /** The candidate loop, src/executionEngine.ts:177-357. */
  method ExecuteMultiStrikeOption(w: World, cfg: Config, q: Request, ticks0: nat, orders0: nat)
    returns (result: ExecutionResult, ticks: nat, orders: nat)
    ensures var run := OptionRun(w, cfg, q, ticks0, orders0);
            result == ResultOf(w, cfg, q, w.clock(ticks0), run) && ticks == run.ticks + 1 && orders == run.orders
  {
    hide BasePrice, Coverage, AtLeast, NoPriceStep, Book, TryCandidate, ResultOf;
    var startTime := w.clock(ticks0);
    var r := Run([], 0.0, 0.0, None, ticks0 + 1, orders0);
    var k := 0;
    while k < |q.candidates|
      invariant k <= |q.candidates|
      invariant OptionRun(w, cfg, q, ticks0, orders0) == Walk(w, cfg, q, k, startTime, r)
    {
      var now := w.clock(r.ticks);
      r := r.(ticks := r.ticks + 1);
      var remainingSize := q.targetSize - r.filled;
      if now - startTime > cfg.searchBudgetMs || remainingSize <= 0.0 { break; }
      if BasePrice(q.side, q.candidates[k]) <= 0.0 {
        r := Book(q, r, NoPriceStep(q, k, remainingSize, w.clock(r.ticks)));
      } else {
        var strikeSuccess;
        r, strikeSuccess := RetryCandidate(w, cfg, q, k, startTime, remainingSize, r);
        if strikeSuccess && AtLeast(Coverage(r.filled, q.targetSize), cfg.minFillRatio) { break; }
      }
      k := k + 1;
    }
    result := ResultOf(w, cfg, q, startTime, r);
    ticks, orders := r.ticks + 1, r.orders;
  }
}
