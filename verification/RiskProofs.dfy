/** What holds of the risk, liquidity and subsidy state over whole runs of calls. */
module RiskProofs {
  import opened Options
  import opened Reals
  import opened RiskControls

  predicate Booking(e: Event) {
    e.Account? || e.Revenue?
  }

  /** The balance a set of books started from. */
  function Baseline(l: Liquidity): real {
    l.balance - (l.profit - l.hedgeMargin)
  }

  predicate SetsBalance(s: State, e: Event) {
    e.Reset? || (e.Load? && s.configMtime != Some(e.mtime))
  }

  lemma NextKeepsBooks(s: State, e: Event)
    requires s.liquidity.profit == s.liquidity.revenue - s.liquidity.hedgeSpend
    ensures var s' := Next(s, e);
            && s'.liquidity.profit == s'.liquidity.revenue - s'.liquidity.hedgeSpend
            && (!SetsBalance(s, e) ==> Baseline(s'.liquidity) == Baseline(s.liquidity))
            && (e.Reset? ==> Baseline(s'.liquidity) == s.config.initialLiquidity)
            && (SetsBalance(s, e) && e.Load? ==>
                  Baseline(s'.liquidity) == e.config.initialLiquidity - (s.liquidity.profit - s.liquidity.hedgeMargin))
  {
  }

  /** Profit is revenue less hedge spend after every run from the start, reloads and resets included. */
  lemma {:induction false} ProfitIsRevenueLessSpend(day: int, es: seq<Event>)
    ensures var l := Run(Start(day), es).liquidity; l.profit == l.revenue - l.hedgeSpend
  {
    if |es| > 0 {
      ProfitIsRevenueLessSpend(day, es[..|es| - 1]);
      NextKeepsBooks(Run(Start(day), es[..|es| - 1]), es[|es| - 1]);
    }
  }

  /** No call of es, made in sequence from s, reloads the balance or resets. */
  predicate NoBalanceSet(s: State, es: seq<Event>) {
    |es| == 0 || (NoBalanceSet(s, es[..|es| - 1]) && !SetsBalance(Run(s, es[..|es| - 1]), es[|es| - 1]))
  }

  lemma {:induction false} BaselineKept(s: State, es: seq<Event>)
    requires NoBalanceSet(s, es) && s.liquidity.profit == s.liquidity.revenue - s.liquidity.hedgeSpend
    ensures var s' := Run(s, es);
            && Baseline(s'.liquidity) == Baseline(s.liquidity)
            && s'.liquidity.profit == s'.liquidity.revenue - s'.liquidity.hedgeSpend
  {
    if |es| > 0 {
      BaselineKept(s, es[..|es| - 1]);
      NextKeepsBooks(Run(s, es[..|es| - 1]), es[|es| - 1]);
    }
  }

  /** A load of a changed file replaces configuration and balance alone; of an unchanged file, nothing. */
  lemma LoadEffect(s: State, day: int, c: Config, mtime: int)
    ensures var s' := Next(s, Load(day, c, mtime));
            && (s.configMtime == Some(mtime) ==> s' == s)
            && (s.configMtime != Some(mtime) ==>
                  && s'.config == c && s'.configMtime == Some(mtime) && s'.liquidity.balance == c.initialLiquidity
                  && s'.tiers == s.tiers && s'.subsidy == s.subsidy
                  && s'.liquidity.(balance := 0.0) == s.liquidity.(balance := 0.0))
  {
  }

  /** A reset clears tiers, books and subsidies and keeps the configuration. */
  lemma ResetEffect(s: State, day: int)
    ensures var s' := Next(s, Reset(day));
            && s'.config == s.config && s'.configMtime == s.configMtime && s'.tiers == map[]
            && s'.liquidity == Liquidity(s.config.initialLiquidity, 0.0, 0.0, 0.0, 0.0, 0.0, 0.0)
            && s'.subsidy == Subsidy(Decimal(0.0), map[], map[], day)
  {
  }

  /** Since a reset the balance is the initial liquidity plus profit less hedge margin. */
  lemma BalanceSinceReset(s: State, day: int, es: seq<Event>)
    requires NoBalanceSet(Next(s, Reset(day)), es)
    ensures var l := Run(Next(s, Reset(day)), es).liquidity;
            l.balance == s.config.initialLiquidity + l.profit - l.hedgeMargin && l.profit == l.revenue - l.hedgeSpend
  {
    BaselineKept(Next(s, Reset(day)), es);
  }

  /**
   * A reload overwrites the balance alone. Afterwards the balance follows profit and margin from the reload on, and
   * the books of a fresh start (balance = initial + profit - margin) hold again exactly when profit equalled margin
   * at the reload.
   */
  lemma BalanceSinceReload(s: State, day: int, c: Config, mtime: int, es: seq<Event>)
    requires s.liquidity.profit == s.liquidity.revenue - s.liquidity.hedgeSpend
    requires s.configMtime != Some(mtime) && NoBalanceSet(Next(s, Load(day, c, mtime)), es)
    ensures var l := Run(Next(s, Load(day, c, mtime)), es).liquidity;
            && l.balance == c.initialLiquidity + (l.profit - s.liquidity.profit)
                            - (l.hedgeMargin - s.liquidity.hedgeMargin)
            && (l.balance == c.initialLiquidity + l.profit - l.hedgeMargin
                <==> s.liquidity.profit == s.liquidity.hedgeMargin)
  {
    BaselineKept(Next(s, Load(day, c, mtime)), es);
  }

  // ---------------------------------------------------------------------------------------------
  // Order independence.

  function Bookings(c: Config, es: seq<Event>): Liquidity {
    if |es| == 0 then NOTHING else Contribution(c, es[0]).Plus(Bookings(c, es[1..]))
  }

  lemma {:induction false} BookingsSnoc(c: Config, es: seq<Event>, e: Event)
    ensures Bookings(c, es + [e]) == Bookings(c, es).Plus(Contribution(c, e))
  {
    if |es| > 0 {
      BookingsSnoc(c, es[1..], e);
      assert (es + [e])[1..] == es[1..] + [e];
    }
  }

  lemma {:induction false} BookingsRemove(c: Config, es: seq<Event>, k: nat)
    requires k < |es|
    ensures Bookings(c, es) == Contribution(c, es[k]).Plus(Bookings(c, es[..k] + es[k + 1..]))
  {
    hide Contribution, Liquidity.Plus;
    if k == 0 {
      assert es[..0] + es[1..] == es[1..];
    } else {
      var rest, shorter := es[..k] + es[k + 1..], es[1..][..k - 1] + es[1..][k..];
      assert rest[1..] == shorter && rest[0] == es[0];
      BookingsRemove(c, es[1..], k - 1);
      PlusSwaps(Contribution(c, es[0]), Contribution(c, es[k]), Bookings(c, shorter));
    }
  }

  lemma PlusSwaps(a: Liquidity, b: Liquidity, rest: Liquidity)
    ensures a.Plus(b.Plus(rest)) == b.Plus(a.Plus(rest))
  {
  }

  lemma FindFirst(es: seq<Event>, fs: seq<Event>) returns (k: nat)
    requires |es| > 0 && multiset(es) == multiset(fs)
    ensures k < |fs| && fs[k] == es[0]
    ensures multiset(fs[..k] + fs[k + 1..]) == multiset(es[1..])
  {
    assert es[0] in multiset(fs);
    k :| 0 <= k < |fs| && fs[k] == es[0];
    assert fs == fs[..k] + [fs[k]] + fs[k + 1..];
    assert es == [es[0]] + es[1..];
    calc {
      multiset(fs[..k] + fs[k + 1..]);
      multiset(fs[..k]) + multiset(fs[k + 1..]);
      multiset(fs) - multiset{es[0]};
      multiset(es[1..]);
    }
  }

  lemma {:induction false} BookingsPermute(c: Config, es: seq<Event>, fs: seq<Event>)
    requires multiset(es) == multiset(fs)
    ensures Bookings(c, es) == Bookings(c, fs)
  {
    hide Contribution;
    assert |multiset(es)| == |es| && |multiset(fs)| == |fs|;
    if |es| > 0 {
      var k := FindFirst(es, fs);
      BookingsRemove(c, fs, k);
      BookingsPermute(c, es[1..], fs[..k] + fs[k + 1..]);
    }
  }

  lemma NextAddsBooking(s: State, e: Event)
    requires Booking(e)
    ensures Next(s, e).liquidity == s.liquidity.Plus(Contribution(s.config, e)) && Next(s, e).config == s.config
  {
  }

  /** After a run of bookings the liquidity has moved by the sum of what each one adds. */
  lemma {:induction false} RunAddsBookings(s: State, es: seq<Event>)
    requires forall e :: e in es ==> Booking(e)
    ensures Run(s, es).liquidity == s.liquidity.Plus(Bookings(s.config, es))
    ensures Run(s, es).config == s.config
  {
    hide Contribution, Next;
    if |es| > 0 {
      var init, e := es[..|es| - 1], es[|es| - 1];
      assert forall x :: x in init ==> x in es;
      RunAddsBookings(s, init);
      assert es == init + [e] && e in es;
      NextAddsBooking(Run(s, init), e);
      BookingsSnoc(s.config, init, e);
    }
  }

  /** The final liquidity state does not depend on the order of the bookings, nor on the days they fell on. */
  lemma LiquidityIsOrderIndependent(s: State, es: seq<Event>, fs: seq<Event>)
    requires forall e :: e in es ==> Booking(e)
    requires multiset(es) == multiset(fs)
    ensures Run(s, es).liquidity == Run(s, fs).liquidity
  {
    forall e | e in fs
      ensures Booking(e)
    {
      assert e in multiset(fs);
    }
    RunAddsBookings(s, es);
    RunAddsBookings(s, fs);
    BookingsPermute(s.config, es, fs);
  }

  /** The delta a call returns. */
  function Delta(s: State, e: Event): Liquidity {
    Next(s, e).liquidity.Minus(s.liquidity)
  }

  function Deltas(s: State, es: seq<Event>): Liquidity {
    if |es| == 0 then NOTHING else Deltas(s, es[..|es| - 1]).Plus(Delta(Run(s, es[..|es| - 1]), es[|es| - 1]))
  }

  /** The returned deltas add up to what each booking contributes, and to the final less the initial state. */
  lemma {:induction false} DeltasAddUp(s: State, es: seq<Event>)
    requires forall e :: e in es ==> Booking(e)
    ensures Deltas(s, es) == Run(s, es).liquidity.Minus(s.liquidity) == Bookings(s.config, es)
  {
    RunAddsBookings(s, es);
    if |es| > 0 {
      assert forall x :: x in es[..|es| - 1] ==> x in es;
      DeltasAddUp(s, es[..|es| - 1]);
    }
  }

  /** The sum of a figure over the calls. */
  function Sum(es: seq<Event>, figure: Event -> real): real {
    if |es| == 0 then 0.0 else Sum(es[..|es| - 1], figure) + figure(es[|es| - 1])
  }

  function FeeOf(e: Event): real {
    match e
    case Account(_, _, fee, _, _, _) => fee
    case Revenue(_, _, fee) => fee
    case _ => 0.0
  }

  function PremiumOf(e: Event): real {
    if e.Account? then e.premium else 0.0
  }

  function MarginOf(e: Event): real {
    if e.Account? then e.margin else 0.0
  }

  /** The profit of one booking where it is one, nothing where it is a loss. */
  function GainOf(e: Event): real {
    if FeeOf(e) > PremiumOf(e) then FeeOf(e) - PremiumOf(e) else 0.0
  }

  /** How the liquidity figures move when these sums are booked. */
  predicate Moved(c: Config, l: Liquidity, l': Liquidity, fees: real, premiums: real, margins: real, gains: real) {
    && l'.revenue == l.revenue + fees && l'.hedgeSpend == l.hedgeSpend + premiums
    && l'.hedgeMargin == l.hedgeMargin + margins && l'.profit == l.profit + fees - premiums
    && l'.balance == l.balance + fees - premiums - margins
    && l'.reinvest == l.reinvest + c.reinvestPct * gains && l'.reserve == l.reserve + c.reservePct * gains
  }

  lemma MovedTwice(c: Config, a: Liquidity, b: Liquidity, d: Liquidity, fees: real, premiums: real, margins: real,
                   gains: real, fee: real, premium: real, margin: real, gain: real)
    requires Moved(c, a, b, fees, premiums, margins, gains) && Moved(c, b, d, fee, premium, margin, gain)
    ensures Moved(c, a, d, fees + fee, premiums + premium, margins + margin, gains + gain)
  {
    assert c.reinvestPct * (gains + gain) == c.reinvestPct * gains + c.reinvestPct * gain;
    assert c.reservePct * (gains + gain) == c.reservePct * gains + c.reservePct * gain;
  }

  lemma NextMoves(s: State, e: Event)
    requires Booking(e)
    ensures Next(s, e).config == s.config
    ensures Moved(s.config, s.liquidity, Next(s, e).liquidity, FeeOf(e), PremiumOf(e), MarginOf(e), GainOf(e))
  {
    hide Next;
    match e
    case Account(day, tier, fee, premium, notional, margin) =>
      AccountStep(s, day, tier, fee, premium, notional, margin);
    case Revenue(day, tier, fee) =>
      RevenueStep(s, day, tier, fee);
  }

  /** Every liquidity figure after a run of bookings, over the fees, premiums and margins that were booked. */
  lemma {:induction false} BookedTotals(s: State, es: seq<Event>)
    requires forall e :: e in es ==> Booking(e)
    ensures Run(s, es).config == s.config
    ensures Moved(s.config, s.liquidity, Run(s, es).liquidity,
                  Sum(es, FeeOf), Sum(es, PremiumOf), Sum(es, MarginOf), Sum(es, GainOf))
  {
    if |es| > 0 {
      var init, e := es[..|es| - 1], es[|es| - 1];
      assert forall x :: x in init ==> x in es;
      hide Next, Moved, FeeOf, PremiumOf, MarginOf, GainOf, Booking;
      BookedTotals(s, init);
      NextMoves(Run(s, init), e);
      MovedTwice(s.config, s.liquidity, Run(s, init).liquidity, Run(s, es).liquidity,
                 Sum(init, FeeOf), Sum(init, PremiumOf), Sum(init, MarginOf), Sum(init, GainOf),
                 FeeOf(e), PremiumOf(e), MarginOf(e), GainOf(e));
    } else {
      NothingMoved(s.config, s.liquidity);
    }
  }

  lemma NothingMoved(c: Config, l: Liquidity)
    ensures Moved(c, l, l, 0.0, 0.0, 0.0, 0.0)
  {
  }

  /** recordRevenue is applyRiskAccounting with nothing but a fee, exactly for fees that are not negative. */
  lemma RevenueIsAccountingOfFee(s: State, day: int, tier: string, fee: real)
    ensures Next(s, Revenue(day, tier, fee)) == Next(s, Account(day, tier, fee, 0.0, 0.0, 0.0)) <==> fee >= 0.0
    ensures Next(s, Revenue(day, tier, fee)).liquidity == Next(s, Account(day, tier, fee, 0.0, 0.0, 0.0)).liquidity
  {
    var r, a := Next(s, Revenue(day, tier, fee)), Next(s, Account(day, tier, fee, 0.0, 0.0, 0.0));
    assert r.liquidity == a.liquidity;
    var t := TierOn(s.tiers, tier, day);
    assert r.tiers[tier].overage == t.overage;
    assert a.tiers[tier].overage == t.overage + Max(0.0, 0.0 - fee);
    if fee >= 0.0 {
      assert r.tiers[tier] == a.tiers[tier];
    }
  }

  // ---------------------------------------------------------------------------------------------
  // The lazily reset tiers against what was booked today.

  function RevenueColumn(tiers: map<string, RiskState>, day: int): map<string, real> {
    map t | t in tiers && tiers[t].dateKey == day :: tiers[t].revenue
  }

  function OverageColumn(tiers: map<string, RiskState>, day: int): map<string, real> {
    map t | t in tiers && tiers[t].dateKey == day :: tiers[t].overage
  }

  function NotionalColumn(tiers: map<string, RiskState>, day: int): map<string, real> {
    map t | t in tiers && tiers[t].dateKey == day :: tiers[t].notional
  }

  /** The notional booked on one day since the last reset. */
  function NotionalOn(es: seq<Event>, day: int): real {
    if |es| == 0 then 0.0
    else
      var init, e := es[..|es| - 1], es[|es| - 1];
      if e.Reset? then 0.0 else NotionalOn(init, day) + if e.day == day && e.Account? then e.notional else 0.0
  }

  /** What the calls of one day added to the liquidity state since the last reset. */
  function BookedOn(s: State, es: seq<Event>, day: int): Liquidity {
    if |es| == 0 then NOTHING
    else
      var init, e := es[..|es| - 1], es[|es| - 1];
      if e.Reset? then NOTHING
      else if e.day == day then BookedOn(s, init, day).Plus(Delta(Run(s, init), e))
      else BookedOn(s, init, day)
  }

  /** The clock never goes back during es, and `today` is not before it. */
  predicate ClockForward(es: seq<Event>, today: int) {
    |es| == 0 || (es[|es| - 1].day <= today && ClockForward(es[..|es| - 1], es[|es| - 1].day))
  }

  predicate NotAfter(tiers: map<string, RiskState>, day: int) {
    forall t :: t in tiers ==> tiers[t].dateKey <= day
  }

  /** The part of a fee that a booking does not need for its premium; a tier's overage never takes it back. */
  function Surplus(e: Event): real {
    match e
    case Account(_, _, fee, premium, _, _) => Max(0.0, fee - premium)
    case Revenue(_, _, fee) => fee
    case _ => 0.0
  }

  /** The surplus of the calls of one day since the last reset. */
  function SurplusOn(es: seq<Event>, day: int): real {
    if |es| == 0 then 0.0
    else
      var init, e := es[..|es| - 1], es[|es| - 1];
      if e.Reset? then 0.0 else SurplusOn(init, day) + if e.day == day then Surplus(e) else 0.0
  }

  /** Fees recorded by recordRevenue are not negative. */
  predicate RevenueNotNegative(es: seq<Event>) {
    |es| == 0 || (RevenueNotNegative(es[..|es| - 1]) && (es[|es| - 1].Revenue? ==> es[|es| - 1].fee >= 0.0))
  }

  lemma {:induction false} NothingBookedAhead(s: State, es: seq<Event>, before: int, today: int)
    requires ClockForward(es, before) && before < today
    ensures BookedOn(s, es, today) == NOTHING && SurplusOn(es, today) == 0.0 == NotionalOn(es, today)
  {
    if |es| > 0 {
      NothingBookedAhead(s, es[..|es| - 1], es[|es| - 1].day, today);
    }
  }

  lemma NoColumnAhead(tiers: map<string, RiskState>, before: int, today: int)
    requires NotAfter(tiers, before) && before < today
    ensures SumMap(RevenueColumn(tiers, today)) == 0.0 == SumMap(OverageColumn(tiers, today))
    ensures SumMap(NotionalColumn(tiers, today)) == 0.0
  {
    assert RevenueColumn(tiers, today) == map[] == OverageColumn(tiers, today);
    assert NotionalColumn(tiers, today) == map[];
  }

  /** Writing today's state of one tier changes one entry of each column. */
  lemma RevenueUpdate(tiers: map<string, RiskState>, tier: string, st: RiskState)
    ensures SumMap(RevenueColumn(tiers[tier := st], st.dateKey))
         == SumMap(RevenueColumn(tiers, st.dateKey)) - TierOn(tiers, tier, st.dateKey).revenue + st.revenue
  {
    hide SumMap;
    assert RevenueColumn(tiers[tier := st], st.dateKey) == RevenueColumn(tiers, st.dateKey)[tier := st.revenue];
    SumMapUpdate(RevenueColumn(tiers, st.dateKey), tier, st.revenue);
  }

  lemma OverageUpdate(tiers: map<string, RiskState>, tier: string, st: RiskState)
    ensures SumMap(OverageColumn(tiers[tier := st], st.dateKey))
         == SumMap(OverageColumn(tiers, st.dateKey)) - TierOn(tiers, tier, st.dateKey).overage + st.overage
  {
    hide SumMap;
    assert OverageColumn(tiers[tier := st], st.dateKey) == OverageColumn(tiers, st.dateKey)[tier := st.overage];
    SumMapUpdate(OverageColumn(tiers, st.dateKey), tier, st.overage);
  }

  lemma NotionalUpdate(tiers: map<string, RiskState>, tier: string, st: RiskState)
    ensures SumMap(NotionalColumn(tiers[tier := st], st.dateKey))
         == SumMap(NotionalColumn(tiers, st.dateKey)) - TierOn(tiers, tier, st.dateKey).notional + st.notional
  {
    hide SumMap;
    assert NotionalColumn(tiers[tier := st], st.dateKey) == NotionalColumn(tiers, st.dateKey)[tier := st.notional];
    SumMapUpdate(NotionalColumn(tiers, st.dateKey), tier, st.notional);
  }

  predicate Books(e: Event) {
    Booking(e) || e.Touch?
  }

  /** How one call moves the sums over today's tiers, against how it moves the liquidity state. */
  lemma StepMovesColumns(s: State, e: Event)
    requires !e.Reset?
    ensures var tiers, delta := Next(s, e).tiers, Delta(s, e);
            && SumMap(RevenueColumn(tiers, e.day)) == SumMap(RevenueColumn(s.tiers, e.day)) + delta.revenue
            && SumMap(OverageColumn(tiers, e.day))
               == SumMap(OverageColumn(s.tiers, e.day)) + delta.hedgeSpend - delta.revenue + Surplus(e)
            && SumMap(NotionalColumn(tiers, e.day))
               == SumMap(NotionalColumn(s.tiers, e.day)) + if e.Account? then e.notional else 0.0
  {
    hide SumMap, RevenueColumn, OverageColumn, NotionalColumn;
    if Books(e) {
      var st := Next(s, e).tiers[e.tier];
      assert Next(s, e).tiers == s.tiers[e.tier := st] && st.dateKey == e.day;
      RevenueUpdate(s.tiers, e.tier, st);
      OverageUpdate(s.tiers, e.tier, st);
      NotionalUpdate(s.tiers, e.tier, st);
    }
  }

  lemma StepNotAfter(s: State, e: Event)
    requires NotAfter(s.tiers, e.day)
    ensures NotAfter(Next(s, e).tiers, e.day)
  {
  }

  /**
   * With a clock that never goes back, after every run: the tiers dated today sum to exactly the revenue the
   * liquidity state booked today, and their overage to exactly today's hedge spend less that revenue plus today's
   * surplus, and their notional to exactly what was booked today. Tiers nobody touched today stay in the map with an
   * old date and are not counted.
   */
  lemma {:induction false} TiersMatchToday(start: int, es: seq<Event>, today: int)
    requires ClockForward(es, today)
    ensures var tiers, booked := Run(Start(start), es).tiers, BookedOn(Start(start), es, today);
            && NotAfter(tiers, today)
            && SumMap(RevenueColumn(tiers, today)) == booked.revenue
            && SumMap(OverageColumn(tiers, today)) == booked.hedgeSpend - booked.revenue + SurplusOn(es, today)
            && SumMap(NotionalColumn(tiers, today)) == NotionalOn(es, today)
  {
    hide SumMap, Next, Delta;
    var s0 := Start(start);
    if |es| == 0 {
      NoColumnAhead(s0.tiers, today - 1, today);
    } else {
      var init, e := es[..|es| - 1], es[|es| - 1];
      var s := Run(s0, init);
      TiersMatchToday(start, init, e.day);
      StepNotAfter(s, e);
      if e.day < today {
        NoColumnAhead(Next(s, e).tiers, e.day, today);
        NothingBookedAhead(s0, es, e.day, today);
      } else if e.Reset? {
        ResetEmpties(s, e);
        NoColumnAhead(Next(s, e).tiers, today - 1, today);
      } else {
        StepMovesColumns(s, e);
      }
    }
  }

  /** The overage summed over today's tiers is at least today's hedge spend less today's revenue. */
  ghost predicate OverageCoversSpend(start: int, es: seq<Event>, today: int) {
    var tiers, booked := Run(Start(start), es).tiers, BookedOn(Start(start), es, today);
    SumMap(OverageColumn(tiers, today)) >= booked.hedgeSpend - booked.revenue
  }

  /** That holds exactly while today's surplus is not negative, so always when no negative fee was recorded. */
  lemma OverageCoversSpendIff(start: int, es: seq<Event>, today: int)
    requires ClockForward(es, today)
    ensures OverageCoversSpend(start, es, today) <==> SurplusOn(es, today) >= 0.0
    ensures RevenueNotNegative(es) ==> OverageCoversSpend(start, es, today)
  {
    hide SumMap, Run, OverageColumn, RevenueColumn, NotionalColumn, BookedOn;
    TiersMatchToday(start, es, today);
    if RevenueNotNegative(es) {
      SurplusNotNegative(es, today);
    }
  }

  lemma {:induction false} SurplusNotNegative(es: seq<Event>, today: int)
    requires RevenueNotNegative(es)
    ensures SurplusOn(es, today) >= 0.0
  {
    if |es| > 0 {
      SurplusNotNegative(es[..|es| - 1], today);
    }
  }

  /** A negative fee recorded as revenue lowers today's revenue without raising the overage of its tier. */
  lemma NegativeFeeBreaksCover(day: int)
    ensures var es := [Revenue(day, "t", -5.0)];
            ClockForward(es, day) && !OverageCoversSpend(day, es, day)
  {
    hide OverageCoversSpend;
    var es := [Revenue(day, "t", -5.0)];
    assert es[..0] == [];
    assert SurplusOn(es, day) == -5.0;
    OverageCoversSpendIff(day, es, day);
  }

  lemma ResetEmpties(s: State, e: Event)
    requires e.Reset?
    ensures Next(s, e).tiers == map[]
  {
  }

  // ---------------------------------------------------------------------------------------------
  // Subsidy caps.

  // A probe is a check, or a summary, on its own; a grant is a check and, when allowed, the record of the same amount;
  // other calls are those of the interface that neither check, record nor load.
  datatype Op =
    | Probe(day: int)
    | Other(e: Event)
    | Grant(checkDay: int, recordDay: int, tier: string, account: Option<string>, amount: real, iv: Option<real>)

  function ApplyOp(zero: Total, c: Config, s: Subsidy, op: Op): Subsidy {
    match op
    case Probe(day) => EnsureDay(zero, s, day)
    case Other(e) => if e.Reset? then Subsidy(Decimal(0.0), map[], map[], e.day) else s
    case Grant(checkDay, recordDay, tier, account, amount, iv) =>
      var checked := EnsureDay(zero, s, checkDay);
      if CanApply(c, checked, tier, account, amount, iv).Allowed? then
        RecordOn(EnsureDay(zero, checked, recordDay), tier, account, amount)
      else checked
  }

  function RunOps(zero: Total, c: Config, s: Subsidy, ops: seq<Op>): Subsidy {
    if |ops| == 0 then s else ApplyOp(zero, c, RunOps(zero, c, s, ops[..|ops| - 1]), ops[|ops| - 1])
  }

  /** A tier's own cap where one is configured, the daily cap where none is. */
  predicate UnderTierCap(c: Config, tier: string, used: real) {
    && (tier in c.subsidyTierCaps ==> used <= Max(0.0, c.subsidyTierCaps[tier]))
    && (tier !in c.subsidyTierCaps ==> used <= Max(0.0, c.subsidyDailyCap))
  }

  /** Total = sum by tier = sum by account, nothing negative, and every cap respected. */
  ghost predicate WithinCaps(c: Config, s: Subsidy) {
    && s.total.Value() == SumMap(s.byTier) == SumMap(s.byAccount)
    && 0.0 <= s.total.Value() <= Max(0.0, c.subsidyDailyCap)
    && (forall t :: t in s.byTier ==> 0.0 <= s.byTier[t] && UnderTierCap(c, t, s.byTier[t]))
    && (forall a :: a in s.byAccount ==> 0.0 <= s.byAccount[a])
    && (c.subsidyAccountCap > 0.0 ==> forall a :: a in s.byAccount ==> s.byAccount[a] <= c.subsidyAccountCap)
  }

  // ---------------------------------------------------------------------------------------------
  // The check itself, over the configuration.

  /** Implied volatility is known and above the throttle. */
  predicate HighVolatility(c: Config, iv: Option<real>) {
    iv.Some? && iv.value > c.volatilityThrottleIv
  }

  /** The caps a check holds amounts against: as configured, or times the multiplier under high volatility. */
  predicate CapsInForce(c: Config, tier: string, iv: Option<real>, daily: real, ofTier: real, ofAccount: real) {
    var configured := if tier in c.subsidyTierCaps then c.subsidyTierCaps[tier] else c.subsidyDailyCap;
    if HighVolatility(c, iv) then
      && daily == c.subsidyDailyCap * c.volatilityMultiplier
      && ofTier == configured * c.volatilityMultiplier
      && ofAccount == c.subsidyAccountCap * c.volatilityMultiplier
    else daily == c.subsidyDailyCap && ofTier == configured && ofAccount == c.subsidyAccountCap
  }

  /** What the account has used today; calls without an account share one. */
  predicate UsedByAccount(s: Subsidy, account: Option<string>, used: real) {
    var key := if account in {None, Some("")} then "unknown" else account.value;
    used == if key in s.byAccount then s.byAccount[key] else 0.0
  }

  /**
   * The verdict is the first cap in force that the amount breaks, in the order day, tier, account, and Allowed exactly
   * when it breaks none; an account cap of zero or less is no cap.
   */
  lemma VerdictIs(c: Config, s: Subsidy, tier: string, account: Option<string>, amount: real, iv: Option<real>,
                  daily: real, ofTier: real, ofAccount: real, accountUsed: real)
    requires CapsInForce(c, tier, iv, daily, ofTier, ofAccount) && UsedByAccount(s, account, accountUsed)
    ensures var verdict := CanApply(c, s, tier, account, amount, iv);
            var total := if s.total.Decimal? then s.total.value else 0.0;
            var tierUsed := if tier in s.byTier then s.byTier[tier] else 0.0;
            var overDay, overTier := total + amount > daily, tierUsed + amount > ofTier;
            var overAccount := ofAccount > 0.0 && accountUsed + amount > ofAccount;
            && (verdict.Allowed? <==> !overDay && !overTier && !overAccount)
            && (verdict.DailyCap? <==> overDay)
            && (verdict.TierCap? <==> !overDay && overTier)
            && (verdict.AccountCap? <==> !overDay && !overTier && overAccount)
  {
    UsedToday(s, tier, account, accountUsed);
    hide CapsInForce, Multiplier, TierCapOf, CanApply, At, AccountKey, UsedByAccount;
    CapsScaled(c, tier, iv, daily, ofTier, ofAccount);
    VerdictOver(c, s, tier, account, amount, iv, daily, ofTier, ofAccount);
  }

  lemma UsedToday(s: Subsidy, tier: string, account: Option<string>, accountUsed: real)
    requires UsedByAccount(s, account, accountUsed)
    ensures At(s.byAccount, AccountKey(account)) == accountUsed
    ensures At(s.byTier, tier) == if tier in s.byTier then s.byTier[tier] else 0.0
  {
  }

  lemma VerdictOver(c: Config, s: Subsidy, tier: string, account: Option<string>, amount: real, iv: Option<real>,
                    daily: real, ofTier: real, ofAccount: real)
    requires var m := Multiplier(c, iv);
             daily == c.subsidyDailyCap * m && ofTier == TierCapOf(c, tier) * m && ofAccount == c.subsidyAccountCap * m
    ensures CanApply(c, s, tier, account, amount, iv)
         == if s.total.Value() + amount > daily then DailyCap
            else if At(s.byTier, tier) + amount > ofTier then TierCap
            else if ofAccount > 0.0 && At(s.byAccount, AccountKey(account)) + amount > ofAccount then AccountCap
            else Allowed
  {
    hide Multiplier, TierCapOf, At, AccountKey;
  }

  lemma CapsScaled(c: Config, tier: string, iv: Option<real>, daily: real, ofTier: real, ofAccount: real)
    requires CapsInForce(c, tier, iv, daily, ofTier, ofAccount)
    ensures var m := Multiplier(c, iv);
            daily == c.subsidyDailyCap * m && ofTier == TierCapOf(c, tier) * m && ofAccount == c.subsidyAccountCap * m
  {
    if !HighVolatility(c, iv) {
      assert Multiplier(c, iv) == 1.0;
    }
  }

  /** High volatility only tightens the check: what it allows is allowed at any volatility. */
  lemma ThrottleTightens(c: Config, s: Subsidy, tier: string, account: Option<string>, amount: real,
                         high: Option<real>, other: Option<real>)
    requires 0.0 <= c.volatilityMultiplier <= 1.0 && amount >= 0.0 && WithinCaps(c, s)
    requires c.subsidyDailyCap >= 0.0 && (tier in c.subsidyTierCaps ==> c.subsidyTierCaps[tier] >= 0.0)
    requires HighVolatility(c, high)
    requires CanApply(c, s, tier, account, amount, high).Allowed?
    ensures CanApply(c, s, tier, account, amount, other).Allowed?
  {
    if HighVolatility(c, other) {
      SameVolatility(c, s, tier, account, amount, high, other);
    } else {
      hide WithinCaps, CanApply, At, AccountKey;
      AllowedFits(c, s, tier, account, amount, high);
      TierCapIsConfigured(c, tier, At(s.byTier, tier) + amount);
      AllowedUnscaled(c, s, tier, account, amount, other);
    }
  }

  lemma SameVolatility(c: Config, s: Subsidy, tier: string, account: Option<string>, amount: real,
                       iv: Option<real>, other: Option<real>)
    requires HighVolatility(c, iv) && HighVolatility(c, other)
    ensures CanApply(c, s, tier, account, amount, iv) == CanApply(c, s, tier, account, amount, other)
  {
    hide At, AccountKey, TierCapOf;
    assert Multiplier(c, iv) == Multiplier(c, other);
  }

  lemma AllowedUnscaled(c: Config, s: Subsidy, tier: string, account: Option<string>, amount: real, iv: Option<real>)
    requires !HighVolatility(c, iv) && s.total.Value() + amount <= c.subsidyDailyCap
    requires At(s.byTier, tier) + amount <= TierCapOf(c, tier)
    requires c.subsidyAccountCap > 0.0 ==> At(s.byAccount, AccountKey(account)) + amount <= c.subsidyAccountCap
    ensures CanApply(c, s, tier, account, amount, iv).Allowed?
  {
    hide At, AccountKey, TierCapOf;
    assert Multiplier(c, iv) == 1.0;
  }

  /** With the defaults an empty day allows 80 for one account, and under high volatility does not. */
  lemma ThrottleBites(day: int, account: string)
    requires account != ""
    ensures var s := Start(day).subsidy;
            && CanApply(DEFAULTS, s, "t", Some(account), 80.0, None).Allowed?
            && CanApply(DEFAULTS, s, "t", Some(account), 80.0, Some(0.9)).AccountCap?
  {
    var s := Start(day).subsidy;
    VerdictIs(DEFAULTS, s, "t", Some(account), 80.0, None, 500.0, 500.0, 100.0, 0.0);
    VerdictIs(DEFAULTS, s, "t", Some(account), 80.0, Some(0.9), 250.0, 250.0, 50.0, 0.0);
  }

  /** What fits under a scaled cap fits under the cap. */
  lemma FitsScaled(used: real, cap: real, m: real)
    requires 0.0 <= m <= 1.0 && used <= cap * m
    ensures used <= Max(0.0, cap)
  {
    if cap >= 0.0 {
      MulLe(m, 1.0, cap);
    } else {
      assert (-cap) * m >= 0.0;
    }
  }

  /**
   * A zero multiplier switches the account check off, but then only a zero amount passes the daily check.
   */
  lemma FitsAccount(used: real, amount: real, total: real, cap: real, m: real)
    requires 0.0 <= m <= 1.0 && cap > 0.0 && used <= cap && total >= 0.0
    requires if cap * m > 0.0 then used + amount <= cap * m else m == 0.0 ==> total + amount <= 0.0
    ensures used + amount <= cap
  {
    if cap * m > 0.0 {
      FitsScaled(used + amount, cap, m);
    } else {
      assert m > 0.0 ==> cap * m > 0.0;
    }
  }

  lemma EmptyDayWithinCaps(c: Config, zero: Total, day: int)
    requires zero.Value() == 0.0
    ensures WithinCaps(c, Subsidy(zero, map[], map[], day))
  {
  }

  lemma EnsureDayWithinCaps(zero: Total, c: Config, s: Subsidy, day: int)
    requires zero.Value() == 0.0 && WithinCaps(c, s)
    ensures WithinCaps(c, EnsureDay(zero, s, day))
  {
    EmptyDayWithinCaps(c, zero, day);
  }

  lemma AllowedMeans(c: Config, s: Subsidy, tier: string, account: Option<string>, amount: real, iv: Option<real>,
                     m: real)
    requires CanApply(c, s, tier, account, amount, iv).Allowed? && m == Multiplier(c, iv)
    ensures s.total.Value() + amount <= c.subsidyDailyCap * m
    ensures At(s.byTier, tier) + amount <= TierCapOf(c, tier) * m
    ensures var cap, used := c.subsidyAccountCap, At(s.byAccount, AccountKey(account));
            if cap * m > 0.0 then used + amount <= cap * m else m == 0.0 ==> s.total.Value() + amount <= 0.0
  {
  }

  lemma MultiplierIsShare(c: Config, iv: Option<real>)
    requires 0.0 <= c.volatilityMultiplier <= 1.0
    ensures 0.0 <= Multiplier(c, iv) <= 1.0
  {
  }

  lemma TotalNotNegative(c: Config, s: Subsidy)
    requires WithinCaps(c, s)
    ensures s.total.Value() >= 0.0
  {
    hide SumMap;
  }

  lemma UsedWithin(c: Config, s: Subsidy, key: string)
    requires WithinCaps(c, s) && c.subsidyAccountCap > 0.0
    ensures At(s.byAccount, key) <= c.subsidyAccountCap
  {
    hide SumMap, TierCapOf;
  }

  lemma TierCapIsConfigured(c: Config, tier: string, used: real)
    ensures UnderTierCap(c, tier, used) <==> used <= Max(0.0, TierCapOf(c, tier))
  {
  }

  /** What an allowed check guarantees about the unscaled caps. */
  lemma AllowedFits(c: Config, s: Subsidy, tier: string, account: Option<string>, amount: real, iv: Option<real>)
    requires 0.0 <= c.volatilityMultiplier <= 1.0 && amount >= 0.0 && WithinCaps(c, s)
    requires CanApply(c, s, tier, account, amount, iv).Allowed?
    ensures s.total.Value() + amount <= Max(0.0, c.subsidyDailyCap)
    ensures UnderTierCap(c, tier, At(s.byTier, tier) + amount)
    ensures c.subsidyAccountCap > 0.0 ==> At(s.byAccount, AccountKey(account)) + amount <= c.subsidyAccountCap
  {
    hide SumMap, CanApply, AccountKey, TierCapOf, WithinCaps, At, Multiplier, Total.Value;
    var m, used := Multiplier(c, iv), At(s.byAccount, AccountKey(account));
    MultiplierIsShare(c, iv);
    TotalNotNegative(c, s);
    AllowedMeans(c, s, tier, account, amount, iv, m);
    FitsScaled(s.total.Value() + amount, c.subsidyDailyCap, m);
    FitsScaled(At(s.byTier, tier) + amount, TierCapOf(c, tier), m);
    TierCapIsConfigured(c, tier, At(s.byTier, tier) + amount);
    if c.subsidyAccountCap > 0.0 {
      UsedWithin(c, s, AccountKey(account));
      FitsAccount(used, amount, s.total.Value(), c.subsidyAccountCap, m);
    }
  }

  /** Nothing below zero, and each of the three running figures within its cap, once the amount is added. */
  predicate AmountFits(c: Config, s: Subsidy, tier: string, account: Option<string>, amount: real) {
    var total, tierUsed, accountUsed :=
      s.total.Value() + amount, At(s.byTier, tier) + amount, At(s.byAccount, AccountKey(account)) + amount;
    && 0.0 <= total <= Max(0.0, c.subsidyDailyCap)
    && 0.0 <= tierUsed && UnderTierCap(c, tier, tierUsed)
    && 0.0 <= accountUsed
    && (c.subsidyAccountCap > 0.0 ==> accountUsed <= c.subsidyAccountCap)
  }

  /** A record of any amount keeps the caps exactly when nothing is stored or the amount fits at that moment. */
  lemma RecordKeepsCapsIff(c: Config, s: Subsidy, tier: string, account: Option<string>, amount: real)
    requires WithinCaps(c, s)
    ensures WithinCaps(c, RecordOn(s, tier, account, amount))
       <==> s.total.PlainZero? || AmountFits(c, s, tier, account, amount)
  {
    hide SumMap, AccountKey, TierCapOf;
    if s.total.Decimal? {
      var key, after := AccountKey(account), RecordOn(s, tier, account, amount);
      SumMapUpdate(s.byTier, tier, At(s.byTier, tier) + amount);
      SumMapUpdate(s.byAccount, key, At(s.byAccount, key) + amount);
      assert tier in after.byTier && after.byTier[tier] == At(s.byTier, tier) + amount;
      assert key in after.byAccount && after.byAccount[key] == At(s.byAccount, key) + amount;
    }
  }

  lemma AllowedAmountFits(c: Config, s: Subsidy, tier: string, account: Option<string>, amount: real, iv: Option<real>)
    requires 0.0 <= c.volatilityMultiplier <= 1.0 && amount >= 0.0 && WithinCaps(c, s)
    requires CanApply(c, s, tier, account, amount, iv).Allowed?
    ensures AmountFits(c, s, tier, account, amount)
  {
    hide SumMap, CanApply, AccountKey, TierCapOf;
    AllowedFits(c, s, tier, account, amount, iv);
  }

  /** A rollover between check and record only empties the books. */
  lemma LaterStillFits(zero: Total, c: Config, s: Subsidy, day: int, tier: string, account: Option<string>,
                       amount: real)
    requires zero.Value() == 0.0 && amount >= 0.0 && WithinCaps(c, s) && AmountFits(c, s, tier, account, amount)
    ensures AmountFits(c, EnsureDay(zero, s, day), tier, account, amount)
  {
    hide SumMap, AccountKey, TierCapOf;
  }

  lemma OpWithinCaps(zero: Total, c: Config, s: Subsidy, op: Op)
    requires zero.Value() == 0.0 && WithinCaps(c, s)
    requires 0.0 <= c.volatilityMultiplier <= 1.0 && (op.Grant? ==> op.amount >= 0.0)
    ensures WithinCaps(c, ApplyOp(zero, c, s, op))
  {
    hide SumMap, CanApply, RecordOn, AmountFits, WithinCaps, EnsureDay;
    if op.Probe? {
      EnsureDayWithinCaps(zero, c, s, op.day);
    } else if op.Other? {
      EmptyDayWithinCaps(c, Decimal(0.0), op.e.day);
    } else {
      EnsureDayWithinCaps(zero, c, s, op.checkDay);
      var checked := EnsureDay(zero, s, op.checkDay);
      if CanApply(c, checked, op.tier, op.account, op.amount, op.iv).Allowed? {
        AllowedAmountFits(c, checked, op.tier, op.account, op.amount, op.iv);
        LaterStillFits(zero, c, checked, op.recordDay, op.tier, op.account, op.amount);
        EnsureDayWithinCaps(zero, c, checked, op.recordDay);
        RecordKeepsCapsIff(c, EnsureDay(zero, checked, op.recordDay), op.tier, op.account, op.amount);
      }
    }
  }

  /**
   * When every non-negative record follows an allowed check and the volatility multiplier is in [0, 1], the caps
   * hold after every run, on every day, whatever the clock does and whichever checks ran under high volatility;
   * both with the zero the rollover stores as written and with the Decimal zero its type declares.
   */
  lemma {:induction false} CapsHold(zero: Total, c: Config, s: Subsidy, ops: seq<Op>)
    requires zero.Value() == 0.0 && WithinCaps(c, s)
    requires 0.0 <= c.volatilityMultiplier <= 1.0
    requires forall i :: 0 <= i < |ops| && ops[i].Grant? ==> ops[i].amount >= 0.0
    ensures WithinCaps(c, RunOps(zero, c, s, ops))
  {
    if |ops| > 0 {
      CapsHold(zero, c, s, ops[..|ops| - 1]);
      OpWithinCaps(zero, c, RunOps(zero, c, s, ops[..|ops| - 1]), ops[|ops| - 1]);
    }
  }

  // A request for a subsidy, as both the check and the record see it.
  datatype Ask = Ask(tier: string, account: Option<string>, amount: real)

  predicate AllowedAsk(c: Config, s: Subsidy, a: Ask, iv: Option<real>) {
    CanApply(c, s, a.tier, a.account, a.amount, iv).Allowed?
  }

  function RecordAsk(s: Subsidy, a: Ask): Subsidy {
    RecordOn(s, a.tier, a.account, a.amount)
  }

  /** Both amounts together are within the daily cap, and within the tier and account cap where those are shared. */
  predicate BothFit(c: Config, s: Subsidy, a: Ask, b: Ask) {
    && s.total.Value() + a.amount + b.amount <= Max(0.0, c.subsidyDailyCap)
    && (a.tier == b.tier ==> UnderTierCap(c, a.tier, At(s.byTier, a.tier) + a.amount + b.amount))
    && (c.subsidyAccountCap > 0.0 && AccountKey(a.account) == AccountKey(b.account) ==>
          At(s.byAccount, AccountKey(a.account)) + a.amount + b.amount <= c.subsidyAccountCap)
  }

  lemma SecondFits(c: Config, s: Subsidy, a: Ask, b: Ask)
    requires s.total.Decimal? && WithinCaps(c, s) && a.amount >= 0.0 && b.amount >= 0.0
    requires AmountFits(c, s, a.tier, a.account, a.amount) && AmountFits(c, s, b.tier, b.account, b.amount)
    ensures AmountFits(c, RecordAsk(s, a), b.tier, b.account, b.amount) <==> BothFit(c, s, a, b)
  {
    hide SumMap, AccountKey, TierCapOf;
  }

  /**
   * Two checks answered before either amount is recorded: the caps survive both records exactly when the amounts
   * also fit together, or nothing is stored at all. One check at a time is what CapsHold assumes.
   */
  lemma ChecksBeforeRecordsIff(c: Config, s: Subsidy, a: Ask, b: Ask, ivA: Option<real>, ivB: Option<real>)
    requires 0.0 <= c.volatilityMultiplier <= 1.0 && a.amount >= 0.0 && b.amount >= 0.0 && WithinCaps(c, s)
    requires AllowedAsk(c, s, a, ivA) && AllowedAsk(c, s, b, ivB)
    ensures WithinCaps(c, RecordAsk(RecordAsk(s, a), b)) <==> s.total.PlainZero? || BothFit(c, s, a, b)
  {
    hide SumMap, CanApply, WithinCaps, AmountFits, BothFit;
    if s.total.Decimal? {
      AllowedAmountFits(c, s, a.tier, a.account, a.amount, ivA);
      AllowedAmountFits(c, s, b.tier, b.account, b.amount, ivB);
      RecordKeepsCapsIff(c, s, a.tier, a.account, a.amount);
      SecondFits(c, s, a, b);
      RecordKeepsCapsIff(c, RecordAsk(s, a), b.tier, b.account, b.amount);
    }
  }

  /** And they can fail to fit: 300 twice under a daily cap of 500. */
  lemma ChecksBeforeRecordsBreakCap(day: int)
    ensures var c := DEFAULTS.(subsidyAccountCap := 0.0);
            var s, a := Start(day).subsidy, Ask("t", None, 300.0);
            && WithinCaps(c, s)
            && AllowedAsk(c, s, a, None)
            && !WithinCaps(c, RecordAsk(RecordAsk(s, a), a))
  {
    var c := DEFAULTS.(subsidyAccountCap := 0.0);
    var s, a := Start(day).subsidy, Ask("t", None, 300.0);
    EmptyDayWithinCaps(c, Decimal(0.0), day);
    ChecksBeforeRecordsIff(c, s, a, a, None, None);
  }

  // ---------------------------------------------------------------------------------------------
  // The runs above are runs of the class.

  /** The calls an operation stands for: its check, and its record when the check allows it. */
  function CallsOf(s: State, op: Op): (calls: seq<Event>)
    ensures |calls| >= 1
  {
    match op
    case Probe(day) => [Check(day)]
    case Other(e) => [e]
    case Grant(checkDay, recordDay, tier, account, amount, iv) =>
      var checked := Next(s, Check(checkDay));
      if CanApply(s.config, checked.subsidy, tier, account, amount, iv).Allowed? then
        [Check(checkDay), Record(recordDay, tier, account, amount)]
      else [Check(checkDay)]
  }

  function CallsOfAll(s: State, ops: seq<Op>): seq<Event> {
    if |ops| == 0 then []
    else
      var init := CallsOfAll(s, ops[..|ops| - 1]);
      init + CallsOf(Run(s, init), ops[|ops| - 1])
  }

  predicate Outside(e: Event) {
    !e.Load? && !e.Check? && !e.Record?
  }

  lemma RunOfTwo(s: State, e: Event, f: Event)
    ensures Run(s, [e]) == Next(s, e) && Run(s, [e, f]) == Next(Next(s, e), f)
  {
    assert [e][..0] == [] && [e, f][..1] == [e];
  }

  lemma OpIsCalls(s: State, op: Op)
    requires op.Other? ==> Outside(op.e)
    ensures var s' := Run(s, CallsOf(s, op));
            s'.config == s.config && s'.subsidy == ApplyOp(PlainZero, s.config, s.subsidy, op)
  {
    hide CanApply, Run;
    if op.Grant? {
      RunOfTwo(s, Check(op.checkDay), Record(op.recordDay, op.tier, op.account, op.amount));
    } else {
      var e := if op.Probe? then Check(op.day) else op.e;
      RunOfTwo(s, e, e);
    }
  }

  lemma {:induction false} RunConcat(s: State, es: seq<Event>, fs: seq<Event>)
    ensures Run(s, es + fs) == Run(Run(s, es), fs)
  {
    if |fs| == 0 {
      assert es + fs == es;
    } else {
      assert (es + fs)[..|es + fs| - 1] == es + fs[..|fs| - 1];
      RunConcat(s, es, fs[..|fs| - 1]);
    }
  }

  lemma {:induction false} OpsAreCalls(s: State, ops: seq<Op>)
    requires forall i :: 0 <= i < |ops| && ops[i].Other? ==> Outside(ops[i].e)
    ensures var s' := Run(s, CallsOfAll(s, ops));
            s'.config == s.config && s'.subsidy == RunOps(PlainZero, s.config, s.subsidy, ops)
  {
    hide CallsOf, ApplyOp, Next, Outside;
    if |ops| > 0 {
      var init, op := ops[..|ops| - 1], ops[|ops| - 1];
      OpsAreCalls(s, init);
      var s1 := Run(s, CallsOfAll(s, init));
      RunConcat(s, CallsOfAll(s, init), CallsOf(s1, op));
      OpIsCalls(s1, op);
    }
  }

  /** So the caps hold in the module's own state, bookings and resets interleaved. */
  lemma CapsHoldForCalls(s: State, ops: seq<Op>)
    requires WithinCaps(s.config, s.subsidy) && 0.0 <= s.config.volatilityMultiplier <= 1.0
    requires forall i :: 0 <= i < |ops| && ops[i].Grant? ==> ops[i].amount >= 0.0
    requires forall i :: 0 <= i < |ops| && ops[i].Other? ==> Outside(ops[i].e)
    ensures WithinCaps(s.config, Run(s, CallsOfAll(s, ops)).subsidy)
  {
    hide WithinCaps;
    OpsAreCalls(s, ops);
    CapsHold(PlainZero, s.config, s.subsidy, ops);
  }

  /** A record is stored exactly when the total is still a Decimal and the day has not changed since. */
  lemma StoredIff(s: State, day: int, tier: string, account: Option<string>, amount: real)
    ensures var s' := Next(s, Record(day, tier, account, amount));
            (tier in s'.subsidy.byTier && s'.subsidy.byTier[tier] == At(s.subsidy.byTier, tier) + amount
             && AccountKey(account) in s'.subsidy.byAccount
             && s'.subsidy.byAccount[AccountKey(account)] == At(s.subsidy.byAccount, AccountKey(account)) + amount
             && s'.subsidy.total == Decimal(s.subsidy.total.Value() + amount)
             && s'.subsidy.dateKey == s.subsidy.dateKey)
            <==> s.subsidy.total.Decimal? && day == s.subsidy.dateKey
  {
  }

  /** Once the day has rolled over, nothing is stored by any later call until a reset. */
  lemma {:induction false} NothingStoredAfterRollover(s: State, es: seq<Event>)
    requires s.subsidy.total.PlainZero? && s.subsidy.byTier == map[] && s.subsidy.byAccount == map[]
    requires forall i :: 0 <= i < |es| ==> !es[i].Reset?
    ensures var subsidy := Run(s, es).subsidy;
            subsidy.total.PlainZero? && subsidy.byTier == map[] && subsidy.byAccount == map[]
  {
    if |es| > 0 {
      NothingStoredAfterRollover(s, es[..|es| - 1]);
    }
  }
}
