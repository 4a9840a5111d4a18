/**
 * How far the option order loop of src/executionEngine.ts goes: it stops early only for its budget or its target, and
 * what it books is what the venue answered.
 */
module ExecutionSearch {
  import opened Options
  import opened Reals
  import opened ExecutionEngine
  import opened ExecutionProofs

  /** Nothing more is due for the candidate of this step: it filled, has no price, or this was its last retry. */
  predicate Finishes(cfg: Config, s: Step) {
    s.attempt.success || s.sent.None? || s.attempt.attemptNumber == cfg.maxRetries
  }

  ghost predicate Settled(cfg: Config, steps: seq<Step>, k: nat) {
    exists i :: 0 <= i < |steps| && steps[i].candidate == k && Finishes(cfg, steps[i])
  }

  /** The first n candidates are settled; with a negative retry limit only those without a price are tried. */
  ghost predicate AllSettled(cfg: Config, q: Request, steps: seq<Step>, n: nat)
    requires n <= |q.candidates|
  {
    forall k :: 0 <= k < n ==>
      Settled(cfg, steps, k) || (cfg.maxRetries < 0 && BasePrice(q.side, q.candidates[k]) > 0.0)
  }

  /** One of the clock's readings in the range is past the budget. */
  ghost predicate OverBudget(w: World, cfg: Config, start: int, from: nat, to: nat) {
    exists j: nat :: from <= j < to && w.clock(j) - start > cfg.searchBudgetMs
  }

  ghost predicate FilledLast(steps: seq<Step>) {
    |steps| > 0 && steps[|steps| - 1].attempt.success
  }

  lemma SettledKept(cfg: Config, before: seq<Step>, after: seq<Step>, k: nat)
    requires before <= after && Settled(cfg, before, k)
    ensures Settled(cfg, after, k)
  {
    var i :| 0 <= i < |before| && before[i].candidate == k && Finishes(cfg, before[i]);
    assert after[i] == before[i];
  }

  lemma AllSettledNext(cfg: Config, q: Request, before: seq<Step>, after: seq<Step>, n: nat)
    requires n < |q.candidates| && before <= after && AllSettled(cfg, q, before, n)
    requires Settled(cfg, after, n) || (cfg.maxRetries < 0 && BasePrice(q.side, q.candidates[n]) > 0.0)
    ensures AllSettled(cfg, q, after, n + 1)
  {
    hide Settled, BasePrice;
    forall k | 0 <= k < n && Settled(cfg, before, k)
      ensures Settled(cfg, after, k)
    {
      SettledKept(cfg, before, after, k);
    }
  }

  lemma BookAppends(q: Request, r: Run, s: Step)
    ensures Book(q, r, s).steps == r.steps + [s] && Book(q, r, s).ticks == r.ticks + 1
    ensures Book(q, r, s).orders == r.orders
  {
  }

  lemma LastSettles(cfg: Config, steps: seq<Step>, s: Step)
    requires Finishes(cfg, s)
    ensures Settled(cfg, steps + [s], s.candidate)
  {
    assert (steps + [s])[|steps|] == s;
  }

  /** The retries of a candidate end with a fill, the budget, or the last retry allowed. */
  lemma {:induction false} TryCandidateSettles(w: World, cfg: Config, q: Request, k: nat, start: int,
                                               remaining: real, retry: int, r: Run)
    requires k < |q.candidates|
    ensures var (r1, success) := TryCandidate(w, cfg, q, k, start, remaining, retry, r);
            && r.steps <= r1.steps && r.ticks <= r1.ticks
            && (success ==> FilledLast(r1.steps))
            && (retry <= cfg.maxRetries ==> Settled(cfg, r1.steps, k) || OverBudget(w, cfg, start, r.ticks, r1.ticks))
    decreases cfg.maxRetries + 1 - retry
  {
    hide Book, OrderFor, FilledOr, FillPriceOf, BasePrice, Settled;
    if retry <= cfg.maxRetries {
      if w.clock(r.ticks) - start > cfg.searchBudgetMs {
        assert OverBudget(w, cfg, start, r.ticks, r.ticks + 1);
      } else {
        var order := OrderFor(q, cfg, k, remaining);
        var s := OrderStep(q, k, retry, order, w.venue(r.orders, order), w.clock(r.ticks + 1));
        var r1 := Book(q, r.(ticks := r.ticks + 1, orders := r.orders + 1), s);
        BookAppends(q, r.(ticks := r.ticks + 1, orders := r.orders + 1), s);
        if s.attempt.success || retry == cfg.maxRetries {
          LastSettles(cfg, r.steps, s);
        }
        if !s.attempt.success {
          TryCandidateSettles(w, cfg, q, k, start, remaining, retry + 1, r1);
          var r2 := TryCandidate(w, cfg, q, k, start, remaining, retry + 1, r1).0;
          if retry == cfg.maxRetries {
            assert r2 == r1;
          } else if OverBudget(w, cfg, start, r1.ticks, r2.ticks) {
            WiderBudget(w, cfg, start, r.ticks, r1.ticks, r2.ticks, r2.ticks);
          }
        }
      }
    }
  }

  lemma WiderBudget(w: World, cfg: Config, start: int, a: nat, b: nat, c: nat, d: nat)
    requires a <= b && c <= d && OverBudget(w, cfg, start, b, c)
    ensures OverBudget(w, cfg, start, a, d)
  {
  }

  /** Why the loop is over: all candidates are settled, time is up, or enough is filled. */
  ghost predicate Over(w: World, cfg: Config, q: Request, start: int, from: nat, r: Run) {
    || AllSettled(cfg, q, r.steps, |q.candidates|)
    || OverBudget(w, cfg, start, from, r.ticks)
    || r.filled >= q.targetSize
    || (FilledLast(r.steps) && AtLeast(Coverage(r.filled, q.targetSize), cfg.minFillRatio))
  }

  lemma OverSooner(w: World, cfg: Config, q: Request, start: int, from: nat, later: nat, r: Run)
    requires from <= later && Over(w, cfg, q, start, later, r)
    ensures Over(w, cfg, q, start, from, r)
  {
    hide AllSettled, FilledLast, AtLeast, Coverage;
    if OverBudget(w, cfg, start, later, r.ticks) {
      WiderBudget(w, cfg, start, from, later, r.ticks, r.ticks);
    }
  }

  lemma {:induction false} WalkSettles(w: World, cfg: Config, q: Request, k: nat, start: int, r: Run)
    requires k <= |q.candidates| && AllSettled(cfg, q, r.steps, k)
    ensures var r1 := Walk(w, cfg, q, k, start, r);
            r.ticks <= r1.ticks && Over(w, cfg, q, start, r.ticks, r1)
    decreases |q.candidates| - k
  {
    hide Book, BasePrice, TryCandidate, Coverage, AtLeast, AllSettled, Settled, FilledLast;
    if k < |q.candidates| {
      var r0 := r.(ticks := r.ticks + 1);
      var remaining := q.targetSize - r.filled;
      if w.clock(r.ticks) - start > cfg.searchBudgetMs {
        assert OverBudget(w, cfg, start, r.ticks, r.ticks + 1);
      } else if remaining <= 0.0 {
      } else if BasePrice(q.side, q.candidates[k]) <= 0.0 {
        var s := NoPriceStep(q, k, remaining, w.clock(r0.ticks));
        BookAppends(q, r0, s);
        LastSettles(cfg, r.steps, s);
        AllSettledNext(cfg, q, r.steps, r.steps + [s], k);
        WalkSettles(w, cfg, q, k + 1, start, Book(q, r0, s));
        OverSooner(w, cfg, q, start, r.ticks, r.ticks + 2, Walk(w, cfg, q, k, start, r));
      } else {
        TryCandidateSettles(w, cfg, q, k, start, remaining, 0, r0);
        var (r1, success) := TryCandidate(w, cfg, q, k, start, remaining, 0, r0);
        if !(success && AtLeast(Coverage(r1.filled, q.targetSize), cfg.minFillRatio)) {
          if Settled(cfg, r1.steps, k) || cfg.maxRetries < 0 {
            AllSettledNext(cfg, q, r.steps, r1.steps, k);
            WalkSettles(w, cfg, q, k + 1, start, r1);
            OverSooner(w, cfg, q, start, r.ticks, r1.ticks, Walk(w, cfg, q, k, start, r));
          } else {
            WalkTicks(w, cfg, q, k + 1, start, r1);
            WiderBudget(w, cfg, start, r.ticks, r0.ticks, r1.ticks, Walk(w, cfg, q, k, start, r).ticks);
          }
        }
      }
    }
  }

  lemma {:induction false} WalkTicks(w: World, cfg: Config, q: Request, k: nat, start: int, r: Run)
    requires k <= |q.candidates|
    ensures r.ticks <= Walk(w, cfg, q, k, start, r).ticks
    decreases |q.candidates| - k
  {
    hide Book, BasePrice, TryCandidate, Coverage, AtLeast, Settled;
    if k < |q.candidates| {
      var r0 := r.(ticks := r.ticks + 1);
      var remaining := q.targetSize - r.filled;
      if w.clock(r.ticks) - start > cfg.searchBudgetMs || remaining <= 0.0 {
      } else if BasePrice(q.side, q.candidates[k]) <= 0.0 {
        var s := NoPriceStep(q, k, remaining, w.clock(r0.ticks));
        BookAppends(q, r0, s);
        WalkTicks(w, cfg, q, k + 1, start, Book(q, r0, s));
      } else {
        TryCandidateSettles(w, cfg, q, k, start, remaining, 0, r0);
        var (r1, success) := TryCandidate(w, cfg, q, k, start, remaining, 0, r0);
        if !(success && AtLeast(Coverage(r1.filled, q.targetSize), cfg.minFillRatio)) {
          WalkTicks(w, cfg, q, k + 1, start, r1);
        }
      }
    }
  }

  /**
   * The loop never gives up early: when it has filled less than the minimum ratio of its target, and no reading of the
   * clock was past the budget, every candidate was tried until it filled, had no price, or had its last retry.
   */
  lemma SearchIsComplete(w: World, cfg: Config, q: Request, ticks: nat, orders: nat)
    ensures var run := OptionRun(w, cfg, q, ticks, orders);
            run.filled < q.targetSize && run.filled < cfg.minFillRatio * q.targetSize
            && (forall j: nat :: ticks < j < run.ticks ==> w.clock(j) - w.clock(ticks) <= cfg.searchBudgetMs)
            ==> AllSettled(cfg, q, run.steps, |q.candidates|)
    ensures var run := OptionRun(w, cfg, q, ticks, orders);
            AllSettled(cfg, q, run.steps, |q.candidates|) || OverBudget(w, cfg, w.clock(ticks), ticks + 1, run.ticks)
            || run.filled >= q.targetSize || (FilledLast(run.steps) && run.filled >= cfg.minFillRatio * q.targetSize)
  {
    hide AllSettled, FilledLast, Walk, AtLeast, Coverage;
    var r0 := Run([], 0.0, 0.0, None, ticks + 1, orders);
    NoneYet(cfg, q);
    WalkSettles(w, cfg, q, 0, w.clock(ticks), r0);
    if q.targetSize > 0.0 {
      CoverageReached(OptionRun(w, cfg, q, ticks, orders).filled, q.targetSize, cfg.minFillRatio);
    } else {
      NothingToBuy(w, cfg, q, r0, w.clock(ticks));
    }
  }

  lemma NothingToBuy(w: World, cfg: Config, q: Request, r: Run, start: int)
    requires q.targetSize <= r.filled
    ensures Walk(w, cfg, q, 0, start, r).filled == r.filled
  {
  }

  lemma NoneYet(cfg: Config, q: Request)
    ensures AllSettled(cfg, q, [], 0)
  {
  }

  /**
   * What settling a candidate means on a legal trace: its attempts are numbered from zero without a gap up to the one
   * that finishes it, so a candidate with a price that never filled was tried exactly maxRetries + 1 times.
   */
  lemma {:induction false} TriedBefore(cfg: Config, q: Request, steps: seq<Step>, i: nat, n: nat)
    requires Legal(cfg, q, steps) && i < |steps| && n <= i && n <= steps[i].attempt.attemptNumber
    ensures steps[i - n].candidate == steps[i].candidate
    ensures steps[i - n].attempt.attemptNumber == steps[i].attempt.attemptNumber - n
    decreases n
  {
    if n > 0 {
      LegalAt(cfg, q, steps, i);
      assert steps[..i][|steps[..i]| - 1] == steps[i - 1];
      TriedBefore(cfg, q, steps, i - 1, n - 1);
    }
  }

  lemma {:induction false} NumberBelowIndex(cfg: Config, q: Request, steps: seq<Step>, i: nat)
    requires Legal(cfg, q, steps) && i < |steps|
    ensures 0 <= steps[i].attempt.attemptNumber <= i
  {
    LegalAt(cfg, q, steps, i);
    if i > 0 {
      NumberBelowIndex(cfg, q, steps, i - 1);
      assert steps[..i][|steps[..i]| - 1] == steps[i - 1];
    }
  }

  lemma SettledTries(cfg: Config, q: Request, steps: seq<Step>, i: nat)
    requires Legal(cfg, q, steps) && i < |steps| && steps[i].attempt.attemptNumber == cfg.maxRetries
    ensures cfg.maxRetries <= i
    ensures forall j :: i - cfg.maxRetries <= j <= i ==>
              steps[j].candidate == steps[i].candidate && steps[j].attempt.attemptNumber == cfg.maxRetries - (i - j)
  {
    NumberBelowIndex(cfg, q, steps, i);
    forall j | i - cfg.maxRetries <= j <= i
      ensures steps[j].candidate == steps[i].candidate && steps[j].attempt.attemptNumber == cfg.maxRetries - (i - j)
    {
      TriedBefore(cfg, q, steps, i, i - j);
    }
  }

  // ---------------------------------------------------------------------------------------------
  // The orders and their answers.

  function OrdersIn(steps: seq<Step>): nat {
    if |steps| == 0 then 0 else OrdersIn(steps[..|steps| - 1]) + if steps[|steps| - 1].sent.Some? then 1 else 0
  }

  /** Every order is numbered by the orders before it, and its answer is the venue's. */
  predicate AnsweredBy(w: World, orders: nat, steps: seq<Step>) {
    |steps| == 0 ||
    var init, s := steps[..|steps| - 1], steps[|steps| - 1];
    && AnsweredBy(w, orders, init)
    && (s.sent.Some? ==> s.sent.value.answer == w.venue(orders + OrdersIn(init), s.sent.value.order))
  }

  /** The run's answers are the venue's, and the next order gets the next number. */
  predicate Answered(w: World, orders: nat, r: Run) {
    AnsweredBy(w, orders, r.steps) && r.orders == orders + OrdersIn(r.steps)
  }

  lemma BookAnswered(w: World, orders: nat, q: Request, r: Run, ticks: nat, s: Step)
    requires Answered(w, orders, r)
    requires s.sent.Some? ==> s.sent.value.answer == w.venue(r.orders, s.sent.value.order)
    ensures Answered(w, orders, Book(q, r.(ticks := ticks, orders := r.orders + if s.sent.Some? then 1 else 0), s))
  {
    assert (r.steps + [s])[..|r.steps|] == r.steps;
  }

  lemma {:induction false} TryCandidateAnswered(w: World, orders: nat, cfg: Config, q: Request, k: nat, start: int,
                                                remaining: real, retry: int, r: Run)
    requires k < |q.candidates| && Answered(w, orders, r)
    ensures Answered(w, orders, TryCandidate(w, cfg, q, k, start, remaining, retry, r).0)
    decreases cfg.maxRetries + 1 - retry
  {
    hide Book, OrderFor, FilledOr, FillPriceOf, BasePrice, OrdersIn, AnsweredBy;
    if retry <= cfg.maxRetries && w.clock(r.ticks) - start <= cfg.searchBudgetMs {
      var order := OrderFor(q, cfg, k, remaining);
      var s := OrderStep(q, k, retry, order, w.venue(r.orders, order), w.clock(r.ticks + 1));
      BookAnswered(w, orders, q, r, r.ticks + 1, s);
      if !s.attempt.success {
        TryCandidateAnswered(w, orders, cfg, q, k, start, remaining, retry + 1,
                             Book(q, r.(ticks := r.ticks + 1, orders := r.orders + 1), s));
      }
    }
  }

  lemma {:induction false} WalkAnswered(w: World, orders: nat, cfg: Config, q: Request, k: nat, start: int, r: Run)
    requires k <= |q.candidates| && Answered(w, orders, r)
    ensures Answered(w, orders, Walk(w, cfg, q, k, start, r))
    decreases |q.candidates| - k
  {
    hide Book, BasePrice, TryCandidate, Coverage, AtLeast, OrdersIn, AnsweredBy;
    if k < |q.candidates| {
      var r0 := r.(ticks := r.ticks + 1);
      var remaining := q.targetSize - r.filled;
      if w.clock(r.ticks) - start > cfg.searchBudgetMs || remaining <= 0.0 {
      } else if BasePrice(q.side, q.candidates[k]) <= 0.0 {
        var s := NoPriceStep(q, k, remaining, w.clock(r0.ticks));
        BookAnswered(w, orders, q, r, r0.ticks, s);
        WalkAnswered(w, orders, cfg, q, k + 1, start, Book(q, r0, s));
      } else {
        TryCandidateAnswered(w, orders, cfg, q, k, start, remaining, 0, r0);
        var (r1, success) := TryCandidate(w, cfg, q, k, start, remaining, 0, r0);
        if !(success && AtLeast(Coverage(r1.filled, q.targetSize), cfg.minFillRatio)) {
          WalkAnswered(w, orders, cfg, q, k + 1, start, r1);
        }
      }
    }
  }

  /** Every answer booked is the venue's to the order of that attempt, and orders are sent one after the other. */
  lemma AnswersAreTheVenues(w: World, cfg: Config, q: Request, ticks: nat, orders: nat, i: nat)
    requires i < |OptionRun(w, cfg, q, ticks, orders).steps|
    requires OptionRun(w, cfg, q, ticks, orders).steps[i].sent.Some?
    ensures var steps := OptionRun(w, cfg, q, ticks, orders).steps;
            steps[i].sent.value.answer == w.venue(orders + OrdersIn(steps[..i]), steps[i].sent.value.order)
  {
    hide Walk;
    WalkAnswered(w, orders, cfg, q, 0, w.clock(ticks), Run([], 0.0, 0.0, None, ticks + 1, orders));
    AnsweredAt(w, orders, OptionRun(w, cfg, q, ticks, orders).steps, i);
  }

  lemma {:induction false} AnsweredAt(w: World, orders: nat, steps: seq<Step>, i: nat)
    requires AnsweredBy(w, orders, steps) && i < |steps| && steps[i].sent.Some?
    ensures steps[i].sent.value.answer == w.venue(orders + OrdersIn(steps[..i]), steps[i].sent.value.order)
  {
    if i < |steps| - 1 {
      AnsweredAt(w, orders, steps[..|steps| - 1], i);
      assert steps[..|steps| - 1][..i] == steps[..i];
    }
  }

  /** The price a candidate is bought or sold at: its quote on that side, or its mark where the quote is missing. */
  lemma PriceOfSide(c: Candidate)
    ensures var quote := c.askPrice;
            BasePrice(Buy, c) == if quote.Some? && quote.value != 0.0 then quote.value
                                 else if c.markPrice.Some? then c.markPrice.value else 0.0
    ensures var quote := c.bidPrice;
            BasePrice(Sell, c) == if quote.Some? && quote.value != 0.0 then quote.value
                                  else if c.markPrice.Some? then c.markPrice.value else 0.0
  {
  }

  /** The report of a run: its totals, its coverage and the weighted average of the prices its fills were booked at. */
  lemma ReportOfRun(w: World, cfg: Config, q: Request, ticks: nat, orders: nat)
    requires Honest(w)
    ensures var run := OptionRun(w, cfg, q, ticks, orders);
            var result := ResultOf(w, cfg, q, w.clock(ticks), run);
            && result.totalFilled == FilledIn(run.steps) && result.totalCostUsdc == PaidIn(run.steps) * q.spotPrice
            && result.finalInstrument == LastFilled(run.steps) && result.attempts == AttemptsOf(run.steps)
            && result.executionTimeMs == w.clock(run.ticks) - w.clock(ticks)
            && (result.coverageRatio.Some? <==> q.targetSize != 0.0)
            && (result.coverageRatio.Some? ==> result.coverageRatio.value * q.targetSize == result.totalFilled)
            && (result.averageFillPrice.Some? <==> result.totalFilled > 0.0 && result.totalCostUsdc > 0.0)
            && (result.averageFillPrice.Some? ==>
                  result.averageFillPrice.value * result.totalFilled == PaidIn(run.steps))
  {
    hide OptionRun, Legal, PaidIn, FilledIn, LastFilled, AttemptsOf, StatusOf;
    OptionRunTotals(w, cfg, q, ticks, orders);
    var run := OptionRun(w, cfg, q, ticks, orders);
    if run.filled > 0.0 && run.cost > 0.0 {
      AverageTimesSize(run.filled, PaidIn(run.steps), q.spotPrice);
    }
  }

  lemma AverageTimesSize(filled: real, paid: real, spot: real)
    requires filled > 0.0 && paid * spot > 0.0
    ensures spot != 0.0 && paid * spot / filled / spot * filled == paid
  {
    assert spot == 0.0 ==> paid * spot == 0.0;
    WeightedAverage(filled, paid, spot, paid / filled, paid / filled);
  }
}
