/** What every run of the option order loop keeps, against every venue that fills between 0 and the request. */
module ExecutionProofs {
  import opened Options
  import opened Reals
  import opened ExecutionEngine

  /** Every answered order is filled between zero and the amount asked for. */
  ghost predicate Honest(w: World) {
    forall n: nat, order: Order {:trigger w.venue(n, order)} ::
      order.amount > 0.0 ==> 0.0 <= FilledOr(w.venue(n, order), 0.0) <= order.amount
  }

  function FilledIn(steps: seq<Step>): real {
    if |steps| == 0 then 0.0 else FilledIn(steps[..|steps| - 1]) + steps[|steps| - 1].attempt.filledSize
  }

  /** Price times size over the fills, in units of the quote price. */
  function PaidIn(steps: seq<Step>): real {
    if |steps| == 0 then 0.0
    else
      var s := steps[|steps| - 1];
      PaidIn(steps[..|steps| - 1]) + s.attempt.filledSize * s.bookedPrice
  }

  /** The size an attempt list says was bought. */
  function Bought(attempts: seq<Attempt>): real {
    if |attempts| == 0 then 0.0 else Bought(attempts[..|attempts| - 1]) + attempts[|attempts| - 1].filledSize
  }

  /** A buyer pays up to the slippage more than the price, a seller takes up to the slippage less. */
  predicate WithinSlippage(side: Side, price: real, slippage: real, limit: real) {
    match side
    case Buy => limit == price + price * slippage
    case Sell => limit == price - price * slippage
  }

  /** The order asks for the size of the attempt, within the slippage allowed of the candidate's price. */
  predicate OrderSent(cfg: Config, q: Request, s: Step)
    requires s.candidate < |q.candidates| && s.sent.Some?
  {
    var order, base := s.sent.value.order, BasePrice(q.side, q.candidates[s.candidate]);
    && order.instrument == s.attempt.instrument && order.amount == s.attempt.requestedSize && order.side == q.side
    && order.limitPrice.Some? && WithinSlippage(q.side, base, cfg.slippageTolerance, order.limitPrice.value)
  }

  /** The attempt holds the first reported size that is not zero, and the first price given, else the candidate's. */
  ghost predicate AnswerBooked(q: Request, s: Step)
    requires s.candidate < |q.candidates| && s.sent.Some?
  {
    match s.sent.value.answer
    case Threw(message) =>
      s.attempt.filledSize == 0.0 && s.attempt.fillPrice.None? && s.attempt.failureReason == Some(message)
    case Answer(filled, nested, average, price, fill, orderId) =>
      && FirstReported(filled, nested, 0.0, s.attempt.filledSize)
      && FirstGiven([average, price, fill], BasePrice(q.side, q.candidates[s.candidate]), s.attempt.fillPrice)
      && s.attempt.failureReason == (if s.attempt.success then None else Some("no_fill"))
      && s.attempt.orderId == orderId
  }

  /** size is the first of the two that is there and not zero, and the default where neither is. */
  predicate FirstReported(first: Option<real>, second: Option<real>, default: real, size: real) {
    || (first == Some(size) && size != 0.0)
    || (first in {None, Some(0.0)} && second == Some(size) && size != 0.0)
    || (first in {None, Some(0.0)} && second in {None, Some(0.0)} && size == default)
  }

  /** The first truthy price, or the default where there is none; None where that price is not a number. */
  ghost predicate FirstGiven(prices: seq<RawPrice>, default: real, price: Option<real>) {
    || (price == Some(default) && forall p :: p in prices ==> p in {Missing, Number(0.0)})
    || (exists i :: 0 <= i < |prices| && prices[i] !in {Missing, Number(0.0)}
          && (forall j :: 0 <= j < i ==> prices[j] in {Missing, Number(0.0)})
          && price == if prices[i].Number? then Some(prices[i].value) else None)
  }

  /** The protocol rule for one attempt, given everything attempted before it. */
  ghost predicate StepOk(cfg: Config, q: Request, before: seq<Step>, s: Step) {
    && s.candidate < |q.candidates|
    && s.attempt.instrument == q.candidates[s.candidate].instrument
    && s.attempt.strike == q.candidates[s.candidate].strike
    // it asks for exactly what is still missing, and gets no more
    && s.attempt.requestedSize == q.targetSize - FilledIn(before) > 0.0
    && 0.0 <= s.attempt.filledSize <= s.attempt.requestedSize
    && s.attempt.success == (s.attempt.filledSize > 0.0)
    && (s.attempt.fillPrice.Some? ==> s.bookedPrice == s.attempt.fillPrice.value)
    && (s.attempt.success && s.attempt.fillPrice.None? ==>
          s.bookedPrice == BasePrice(q.side, q.candidates[s.candidate]))
    // an order is sent exactly for a candidate with a price, and what is booked is what the venue answered
    && (s.sent.Some? <==> BasePrice(q.side, q.candidates[s.candidate]) > 0.0)
    && (if s.sent.Some? then OrderSent(cfg, q, s) && AnswerBooked(q, s)
        else !s.attempt.success && s.attempt.failureReason == Some("no_price_available"))
    // nothing is sent once the fills so far reach the minimum ratio
    && (FilledIn(before) == 0.0 || FilledIn(before) < cfg.minFillRatio * q.targetSize)
    // a candidate is retried only after a failure, and never revisited
    && (if |before| > 0 && before[|before| - 1].candidate == s.candidate then
          var last := before[|before| - 1].attempt;
          !last.success && s.attempt.attemptNumber == last.attemptNumber + 1 <= cfg.maxRetries
        else
          (|before| > 0 ==> before[|before| - 1].candidate < s.candidate) && s.attempt.attemptNumber == 0)
  }

  ghost predicate Legal(cfg: Config, q: Request, steps: seq<Step>) {
    |steps| == 0 ||
    (Legal(cfg, q, steps[..|steps| - 1]) && StepOk(cfg, q, steps[..|steps| - 1], steps[|steps| - 1]))
  }

  function LastFilled(steps: seq<Step>): Option<string> {
    if |steps| == 0 then None
    else if steps[|steps| - 1].attempt.success then Some(steps[|steps| - 1].attempt.instrument)
    else LastFilled(steps[..|steps| - 1])
  }

  /** The running totals are the totals of a legal trace. */
  ghost predicate Good(cfg: Config, q: Request, r: Run) {
    && Legal(cfg, q, r.steps)
    && r.filled == FilledIn(r.steps) >= 0.0
    && (r.filled == 0.0 || r.filled <= q.targetSize)
    && r.cost == PaidIn(r.steps) * q.spotPrice
    && r.finalInstrument == LastFilled(r.steps)
  }

  predicate UpTo(r: Run, k: nat) {
    |r.steps| > 0 ==> r.steps[|r.steps| - 1].candidate < k
  }

  predicate BelowMinimum(cfg: Config, q: Request, r: Run) {
    r.filled == 0.0 || r.filled < cfg.minFillRatio * q.targetSize
  }

  lemma StepSizes(cfg: Config, q: Request, before: seq<Step>, s: Step)
    requires StepOk(cfg, q, before, s)
    ensures 0.0 <= s.attempt.filledSize <= q.targetSize - FilledIn(before)
    ensures s.attempt.success == (s.attempt.filledSize > 0.0)
  {
  }

  lemma CostOfOneMore(paid: real, size: real, price: real, spot: real)
    ensures (paid + size * price) * spot == paid * spot + size * price * spot
    ensures size == 0.0 ==> (paid + size * price) * spot == paid * spot
  {
  }

  lemma BookKeepsGood(cfg: Config, q: Request, r: Run, s: Step)
    requires Good(cfg, q, r) && StepOk(cfg, q, r.steps, s)
    ensures Good(cfg, q, Book(q, r, s))
  {
    hide StepOk, Legal, FilledIn, PaidIn, LastFilled;
    OneMoreStep(cfg, q, r.steps, s);
    StepSizes(cfg, q, r.steps, s);
    CostOfOneMore(PaidIn(r.steps), s.attempt.filledSize, s.bookedPrice, q.spotPrice);
  }

  /** How each figure of a trace moves when one step is appended. */
  lemma OneMoreStep(cfg: Config, q: Request, steps: seq<Step>, s: Step)
    ensures Legal(cfg, q, steps + [s]) <==> Legal(cfg, q, steps) && StepOk(cfg, q, steps, s)
    ensures FilledIn(steps + [s]) == FilledIn(steps) + s.attempt.filledSize
    ensures PaidIn(steps + [s]) == PaidIn(steps) + s.attempt.filledSize * s.bookedPrice
    ensures LastFilled(steps + [s]) == if s.attempt.success then Some(s.attempt.instrument) else LastFilled(steps)
  {
    hide StepOk;
    assert (steps + [s])[..|steps|] == steps;
  }

  lemma NoPriceKeepsGood(cfg: Config, q: Request, r: Run, k: nat, remaining: real, now: int)
    requires k < |q.candidates| && UpTo(r, k) && BelowMinimum(cfg, q, r) && Good(cfg, q, r)
    requires remaining == q.targetSize - r.filled > 0.0 && BasePrice(q.side, q.candidates[k]) <= 0.0
    ensures var r1 := Book(q, r, NoPriceStep(q, k, remaining, now));
            Good(cfg, q, r1) && UpTo(r1, k + 1) && BelowMinimum(cfg, q, r1)
  {
    BookKeepsGood(cfg, q, r, NoPriceStep(q, k, remaining, now));
  }

  /** Where the retry loop stands: the first try of candidate k, or just after a failed try of it. */
  predicate AtRetry(r: Run, k: nat, retry: int) {
    if retry == 0 then UpTo(r, k)
    else
      retry > 0 && |r.steps| > 0 &&
      var last := r.steps[|r.steps| - 1];
      last.candidate == k && !last.attempt.success && last.attempt.attemptNumber == retry - 1
  }

  lemma OrderStepOk(cfg: Config, q: Request, r: Run, k: nat, retry: int, remaining: real, answer: Response, now: int)
    requires k < |q.candidates| && retry <= cfg.maxRetries && AtRetry(r, k, retry) && BelowMinimum(cfg, q, r)
    requires r.filled == FilledIn(r.steps) && remaining == q.targetSize - r.filled > 0.0
    requires 0.0 <= FilledOr(answer, 0.0) <= remaining && BasePrice(q.side, q.candidates[k]) > 0.0
    ensures var s := OrderStep(q, k, retry, OrderFor(q, cfg, k, remaining), answer, now);
            StepOk(cfg, q, r.steps, s) && s.candidate == k && s.attempt.attemptNumber == retry
  {
    hide FirstReported, FirstGiven, BasePrice;
    OrderStepBooks(cfg, q, k, retry, remaining, answer, now);
  }

  lemma OrderStepBooks(cfg: Config, q: Request, k: nat, retry: int, remaining: real, answer: Response, now: int)
    requires k < |q.candidates|
    ensures var s := OrderStep(q, k, retry, OrderFor(q, cfg, k, remaining), answer, now);
            OrderSent(cfg, q, s) && AnswerBooked(q, s)
  {
    hide BasePrice, LimitPrice, WithinSlippage, FirstGiven, FirstReported, FilledOr, FillPriceOf;
    var base := BasePrice(q.side, q.candidates[k]);
    LimitWithinSlippage(q.side, cfg, q.candidates[k]);
    if answer.Answer? {
      FirstSizeReported(answer);
      FirstPriceGiven(answer, base);
    }
  }

  lemma FirstSizeReported(answer: Response)
    requires answer.Answer?
    ensures FirstReported(answer.filledAmount, answer.nestedFilledAmount, 0.0, FilledOr(answer, 0.0))
  {
  }

  lemma SlippageAdds(base: real, slippage: real)
    ensures base * (1.0 + slippage) == base + base * slippage && base * (1.0 - slippage) == base - base * slippage
  {
  }

  lemma LimitWithinSlippage(side: Side, cfg: Config, c: Candidate)
    ensures WithinSlippage(side, BasePrice(side, c), cfg.slippageTolerance, LimitPrice(side, cfg, c))
  {
    hide BasePrice;
    SlippageAdds(BasePrice(side, c), cfg.slippageTolerance);
    if side.Buy? {
      assert LimitPrice(side, cfg, c) == BasePrice(side, c) * (1.0 + cfg.slippageTolerance);
    } else {
      assert LimitPrice(side, cfg, c) == BasePrice(side, c) * (1.0 - cfg.slippageTolerance);
    }
  }

  lemma FirstPriceGiven(answer: Response, base: real)
    requires answer.Answer?
    ensures FirstGiven([answer.averagePrice, answer.price, answer.fillPrice], base, FillPriceOf(answer, base))
  {
    var prices := [answer.averagePrice, answer.price, answer.fillPrice];
    assert prices[0] == answer.averagePrice && prices[1] == answer.price && prices[2] == answer.fillPrice;
  }

  lemma {:induction false} TryCandidateKeepsGood(w: World, cfg: Config, q: Request, k: nat, start: int,
                                                 remaining: real, retry: int, r: Run)
    requires Honest(w) && Good(cfg, q, r) && BelowMinimum(cfg, q, r)
    requires k < |q.candidates| && remaining == q.targetSize - r.filled > 0.0
    requires AtRetry(r, k, retry) && BasePrice(q.side, q.candidates[k]) > 0.0
    ensures var (r1, success) := TryCandidate(w, cfg, q, k, start, remaining, retry, r);
            Good(cfg, q, r1) && UpTo(r1, k + 1) && (!success ==> r1.filled == r.filled)
    decreases cfg.maxRetries + 1 - retry
  {
    hide LimitPrice, BasePrice, FilledOr, OrderStep, StepOk, Legal, FilledIn, PaidIn, LastFilled;
    if retry <= cfg.maxRetries && w.clock(r.ticks) - start <= cfg.searchBudgetMs {
      var order := OrderFor(q, cfg, k, remaining);
      var s := OrderStep(q, k, retry, order, w.venue(r.orders, order), w.clock(r.ticks + 1));
      assert 0.0 <= FilledOr(w.venue(r.orders, order), 0.0) <= remaining;
      var r0 := r.(ticks := r.ticks + 1, orders := r.orders + 1);
      OrderStepOk(cfg, q, r, k, retry, remaining, w.venue(r.orders, order), w.clock(r.ticks + 1));
      BookKeepsGood(cfg, q, r0, s);
      if !s.attempt.success {
        TryCandidateKeepsGood(w, cfg, q, k, start, remaining, retry + 1, Book(q, r0, s));
      }
    }
  }

  /** No reading of the clock is earlier than one before it. */
  ghost predicate ClockForward(w: World) {
    forall i: nat, j: nat :: i <= j ==> w.clock(i) <= w.clock(j)
  }

  /** Every attempt but the last was over within the budget, and the last one by the next reading of the clock. */
  ghost predicate InBudget(w: World, cfg: Config, start: int, r: Run) {
    && (forall i :: 0 <= i < |r.steps| - 1 ==> r.steps[i].attempt.timestampMs - start <= cfg.searchBudgetMs)
    && (|r.steps| > 0 ==> r.steps[|r.steps| - 1].attempt.timestampMs <= w.clock(r.ticks))
  }

  /** A step booked after a reading within the budget, stamped with the reading after that. */
  lemma BookInBudget(w: World, cfg: Config, q: Request, start: int, r: Run, orders: nat, s: Step)
    requires ClockForward(w) && InBudget(w, cfg, start, r)
    requires w.clock(r.ticks) - start <= cfg.searchBudgetMs && s.attempt.timestampMs == w.clock(r.ticks + 1)
    ensures InBudget(w, cfg, start, Book(q, r.(ticks := r.ticks + 1, orders := orders), s))
  {
    var after := Book(q, r.(ticks := r.ticks + 1, orders := orders), s);
    assert after.steps == r.steps + [s] && after.ticks == r.ticks + 2;
    assert w.clock(r.ticks + 1) <= w.clock(r.ticks + 2);
  }

  lemma {:induction false} TryCandidateInBudget(w: World, cfg: Config, q: Request, k: nat, start: int,
                                                remaining: real, retry: int, r: Run)
    requires ClockForward(w) && InBudget(w, cfg, start, r) && k < |q.candidates|
    ensures InBudget(w, cfg, start, TryCandidate(w, cfg, q, k, start, remaining, retry, r).0)
    decreases cfg.maxRetries + 1 - retry
  {
    hide Book, FilledOr, FillPriceOf, BasePrice, LimitPrice;
    if retry <= cfg.maxRetries {
      if w.clock(r.ticks) - start > cfg.searchBudgetMs {
        assert w.clock(r.ticks) <= w.clock(r.ticks + 1);
      } else {
        var order := OrderFor(q, cfg, k, remaining);
        var s := OrderStep(q, k, retry, order, w.venue(r.orders, order), w.clock(r.ticks + 1));
        BookInBudget(w, cfg, q, start, r, r.orders + 1, s);
        if !s.attempt.success {
          TryCandidateInBudget(w, cfg, q, k, start, remaining, retry + 1,
                               Book(q, r.(ticks := r.ticks + 1, orders := r.orders + 1), s));
        }
      }
    }
  }

  lemma TickInBudget(w: World, cfg: Config, start: int, r: Run)
    requires ClockForward(w) && InBudget(w, cfg, start, r)
    ensures InBudget(w, cfg, start, r.(ticks := r.ticks + 1))
  {
    assert w.clock(r.ticks) <= w.clock(r.ticks + 1);
  }

  lemma {:induction false} WalkInBudget(w: World, cfg: Config, q: Request, k: nat, start: int, r: Run)
    requires ClockForward(w) && InBudget(w, cfg, start, r) && k <= |q.candidates|
    ensures InBudget(w, cfg, start, Walk(w, cfg, q, k, start, r))
    decreases |q.candidates| - k
  {
    hide InBudget, ClockForward, Book, BasePrice, TryCandidate, Coverage, AtLeast;
    if k < |q.candidates| {
      var r0 := r.(ticks := r.ticks + 1);
      var remaining := q.targetSize - r.filled;
      TickInBudget(w, cfg, start, r);
      if w.clock(r.ticks) - start > cfg.searchBudgetMs || remaining <= 0.0 {
      } else if BasePrice(q.side, q.candidates[k]) <= 0.0 {
        var s := NoPriceStep(q, k, remaining, w.clock(r0.ticks));
        BookInBudget(w, cfg, q, start, r, r.orders, s);
        WalkInBudget(w, cfg, q, k + 1, start, Book(q, r0, s));
      } else {
        TryCandidateInBudget(w, cfg, q, k, start, remaining, 0, r0);
        var (r1, success) := TryCandidate(w, cfg, q, k, start, remaining, 0, r0);
        if !(success && AtLeast(Coverage(r1.filled, q.targetSize), cfg.minFillRatio)) {
          WalkInBudget(w, cfg, q, k + 1, start, r1);
        }
      }
    }
  }

  /**
   * What the search budget achieves against any venue: with a clock that never goes back, every attempt but the last
   * is over within the budget, because each further one is sent only after a reading that is still within it.
   */
  lemma SearchStaysInBudget(w: World, cfg: Config, q: Request, ticks: nat, orders: nat, i: nat)
    requires ClockForward(w) && i < |AttemptsOf(OptionRun(w, cfg, q, ticks, orders).steps)| - 1
    ensures AttemptsOf(OptionRun(w, cfg, q, ticks, orders).steps)[i].timestampMs - w.clock(ticks) <= cfg.searchBudgetMs
  {
    hide Walk, ClockForward;
    WalkInBudget(w, cfg, q, 0, w.clock(ticks), Run([], 0.0, 0.0, None, ticks + 1, orders));
  }

  lemma CoverageReached(filled: real, target: real, bound: real)
    requires target > 0.0
    ensures AtLeast(Coverage(filled, target), bound) <==> filled >= bound * target
  {
    DivAtLeast(filled, target, bound);
  }

  /** The reported status says how much of the target was bought, whatever the minimum ratio is. */
  lemma StatusReflectsFill(w: World, cfg: Config, q: Request, start: int, r: Run)
    requires q.targetSize > 0.0
    ensures var result := ResultOf(w, cfg, q, start, r);
            && (result.status.Success? <==> result.totalFilled >= 0.99 * q.targetSize)
            && (result.status.Partial? <==>
                cfg.minFillRatio * q.targetSize <= result.totalFilled < 0.99 * q.targetSize)
            && (result.status.Failed? <==>
                result.totalFilled < cfg.minFillRatio * q.targetSize && result.totalFilled < 0.99 * q.targetSize)
  {
    hide Coverage, AtLeast, AveragePrice;
    CoverageReached(r.filled, q.targetSize, 0.99);
    CoverageReached(r.filled, q.targetSize, cfg.minFillRatio);
  }

  lemma {:induction false} WalkKeepsGood(w: World, cfg: Config, q: Request, k: nat, start: int, r: Run)
    requires Honest(w) && Good(cfg, q, r) && BelowMinimum(cfg, q, r)
    requires k <= |q.candidates| && UpTo(r, k)
    ensures Good(cfg, q, Walk(w, cfg, q, k, start, r))
    decreases |q.candidates| - k
  {
    hide LimitPrice, BasePrice, FilledOr, Legal, Coverage, AtLeast, TryCandidate, PaidIn, LastFilled, Book;
    if k < |q.candidates| {
      var r0 := r.(ticks := r.ticks + 1);
      var remaining := q.targetSize - r.filled;
      if w.clock(r.ticks) - start > cfg.searchBudgetMs || remaining <= 0.0 {
      } else if BasePrice(q.side, q.candidates[k]) <= 0.0 {
        NoPriceKeepsGood(cfg, q, r0, k, remaining, w.clock(r0.ticks));
        WalkKeepsGood(w, cfg, q, k + 1, start, Book(q, r0, NoPriceStep(q, k, remaining, w.clock(r0.ticks))));
      } else {
        TryCandidateKeepsGood(w, cfg, q, k, start, remaining, 0, r0);
        var (r1, success) := TryCandidate(w, cfg, q, k, start, remaining, 0, r0);
        CoverageReached(r1.filled, q.targetSize, cfg.minFillRatio);
        if !(success && AtLeast(Coverage(r1.filled, q.targetSize), cfg.minFillRatio)) {
          WalkKeepsGood(w, cfg, q, k + 1, start, r1);
        }
      }
    }
  }

  /** The totals reported are those of the attempts, and never exceed the target. */
  lemma OptionRunTotals(w: World, cfg: Config, q: Request, ticks: nat, orders: nat)
    requires Honest(w)
    ensures var run := OptionRun(w, cfg, q, ticks, orders);
            && Legal(cfg, q, run.steps)
            && run.filled == FilledIn(run.steps) == Bought(AttemptsOf(run.steps))
            && run.cost == PaidIn(run.steps) * q.spotPrice
            && run.finalInstrument == LastFilled(run.steps)
            && 0.0 <= run.filled <= Max(0.0, q.targetSize)
  {
    hide Walk, AttemptsOf;
    var r0 := Run([], 0.0, 0.0, None, ticks + 1, orders);
    assert PaidIn(r0.steps) * q.spotPrice == 0.0;
    WalkKeepsGood(w, cfg, q, 0, w.clock(ticks), r0);
    BoughtIsFilled(OptionRun(w, cfg, q, ticks, orders).steps);
  }

  lemma {:induction false} BoughtIsFilled(steps: seq<Step>)
    ensures Bought(AttemptsOf(steps)) == FilledIn(steps)
  {
    if |steps| > 0 {
      BoughtIsFilled(steps[..|steps| - 1]);
      assert AttemptsOf(steps)[..|steps| - 1] == AttemptsOf(steps[..|steps| - 1]);
    }
  }

  /** The rule holds of every attempt of a legal trace, not just the last one. */
  lemma {:induction false} LegalAt(cfg: Config, q: Request, steps: seq<Step>, i: nat)
    requires Legal(cfg, q, steps) && i < |steps|
    ensures StepOk(cfg, q, steps[..i], steps[i])
  {
    if i < |steps| - 1 {
      LegalAt(cfg, q, steps[..|steps| - 1], i);
      assert steps[..|steps| - 1][..i] == steps[..i];
    }
  }

  lemma {:induction false} CandidatesInOrder(cfg: Config, q: Request, steps: seq<Step>, i: nat, j: nat)
    requires Legal(cfg, q, steps) && i <= j < |steps|
    ensures steps[i].candidate <= steps[j].candidate
    decreases j - i
  {
    if i < j {
      LegalAt(cfg, q, steps, i + 1);
      assert steps[..i + 1][|steps[..i + 1]| - 1] == steps[i];
      CandidatesInOrder(cfg, q, steps, i + 1, j);
    }
  }

  /** A candidate that filled is never tried again, so each candidate fills at most once. */
  lemma OneFillPerCandidate(cfg: Config, q: Request, steps: seq<Step>, i: nat, j: nat)
    requires Legal(cfg, q, steps) && i < j < |steps|
    requires steps[i].attempt.filledSize > 0.0
    ensures steps[i].candidate < steps[j].candidate
  {
    LegalAt(cfg, q, steps, i);
    LegalAt(cfg, q, steps, i + 1);
    assert steps[..i + 1][|steps[..i + 1]| - 1] == steps[i];
    CandidatesInOrder(cfg, q, steps, i + 1, j);
  }

  lemma {:induction false} StepsSoFar(cfg: Config, q: Request, steps: seq<Step>)
    requires Legal(cfg, q, steps) && cfg.maxRetries >= 0 && |steps| > 0
    ensures var last := steps[|steps| - 1];
            && last.candidate < |q.candidates|
            && 0 <= last.attempt.attemptNumber <= cfg.maxRetries
            && |steps| <= last.candidate * (cfg.maxRetries + 1) + last.attempt.attemptNumber + 1
  {
    if |steps| > 1 {
      var init := steps[..|steps| - 1];
      StepsSoFar(cfg, q, init);
      var prev, last := init[|init| - 1], steps[|steps| - 1];
      if prev.candidate < last.candidate {
        BlockBound(prev.candidate, last.candidate, cfg.maxRetries + 1);
      }
    }
  }

  lemma BlockBound(k: nat, n: nat, size: nat)
    requires k < n
    ensures k * size + size <= n * size
  {
    var rest := n - k - 1;
    assert rest * size >= 0;
    assert n * size == (rest + k + 1) * size == rest * size + k * size + size;
  }

  /** There are at most |candidates| * (maxRetries + 1) attempts. */
  lemma AttemptCount(cfg: Config, q: Request, steps: seq<Step>)
    requires Legal(cfg, q, steps) && cfg.maxRetries >= 0
    ensures |AttemptsOf(steps)| <= |q.candidates| * (cfg.maxRetries + 1)
  {
    hide StepOk;
    if |steps| > 0 {
      StepsSoFar(cfg, q, steps);
      var last := steps[|steps| - 1];
      BlockBound(last.candidate, |q.candidates|, cfg.maxRetries + 1);
    }
  }

  /** lo and hi bound the price of every fill. */
  ghost predicate PricesWithin(steps: seq<Step>, lo: real, hi: real) {
    forall i :: 0 <= i < |steps| && steps[i].attempt.success ==> lo <= steps[i].bookedPrice <= hi
  }

  lemma {:induction false} PaidWithin(cfg: Config, q: Request, steps: seq<Step>, lo: real, hi: real)
    requires Legal(cfg, q, steps) && PricesWithin(steps, lo, hi)
    ensures lo * FilledIn(steps) <= PaidIn(steps) <= hi * FilledIn(steps)
  {
    hide StepOk;
    if |steps| > 0 {
      var init, s := steps[..|steps| - 1], steps[|steps| - 1];
      PaidWithin(cfg, q, init, lo, hi);
      StepSizes(cfg, q, init, s);
      MixStaysWithin(lo, hi, FilledIn(init), PaidIn(init), s.attempt.filledSize, s.bookedPrice);
    }
  }

  lemma MixStaysWithin(lo: real, hi: real, size: real, paid: real, more: real, price: real)
    requires lo * size <= paid <= hi * size && more >= 0.0 && (more > 0.0 ==> lo <= price <= hi)
    ensures lo * (size + more) <= paid + more * price <= hi * (size + more)
  {
    assert lo * (size + more) == lo * size + lo * more;
    assert hi * (size + more) == hi * size + hi * more;
    if more > 0.0 {
      MulLe(lo, price, more);
      MulLe(price, hi, more);
    }
  }

  /** The reported average price lies between the smallest and the largest price a fill was booked at. */
  lemma AverageWithinPrices(w: World, cfg: Config, q: Request, ticks: nat, orders: nat, lo: real, hi: real)
    requires Honest(w) && PricesWithin(OptionRun(w, cfg, q, ticks, orders).steps, lo, hi)
    ensures var average := ResultOf(w, cfg, q, w.clock(ticks), OptionRun(w, cfg, q, ticks, orders)).averageFillPrice;
            average.Some? ==> lo <= average.value <= hi
  {
    hide OptionRun, Legal, PaidIn, FilledIn, LastFilled, Coverage, AtLeast, AttemptsOf;
    OptionRunTotals(w, cfg, q, ticks, orders);
    var run := OptionRun(w, cfg, q, ticks, orders);
    if AveragePrice(run.filled, run.cost, q.spotPrice).Some? {
      PaidWithin(cfg, q, run.steps, lo, hi);
      WeightedAverage(run.filled, PaidIn(run.steps), q.spotPrice, lo, hi);
    }
  }

  lemma WeightedAverage(filled: real, paid: real, spot: real, lo: real, hi: real)
    requires filled > 0.0 && spot != 0.0 && lo * filled <= paid <= hi * filled
    ensures lo <= paid * spot / filled / spot <= hi
  {
    var average := paid / filled;
    assert average * filled == paid;
    CancelLe(lo, average, filled);
    CancelLe(average, hi, filled);
    assert paid * spot / filled / spot == average by {
      assert paid * spot == average * spot * filled;
      assert paid * spot / filled == average * spot;
    }
  }
}
