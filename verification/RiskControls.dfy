/** Risk, liquidity and subsidy state of src/riskControls.ts: the module's variables and the calls that change them. */
module RiskControls {
  import opened Options
  import opened Reals

  datatype Config = Config(
    initialLiquidity: real,
    reinvestPct: real,
    reservePct: real,
    subsidyDailyCap: real,
    subsidyTierCaps: map<string, real>,
    subsidyAccountCap: real,
    volatilityThrottleIv: real,
    volatilityMultiplier: real
  )

  const DEFAULTS := Config(20000.0, 0.5, 0.3, 500.0, map[], 100.0, 0.8, 0.5)

  datatype RiskState = RiskState(dateKey: int, revenue: real, overage: real, notional: real)

  datatype Liquidity = Liquidity(
    balance: real,
    hedgeSpend: real,
    hedgeMargin: real,
    revenue: real,
    profit: real,
    reinvest: real,
    reserve: real
  ) {
    function Plus(o: Liquidity): Liquidity {
      Liquidity(balance + o.balance, hedgeSpend + o.hedgeSpend, hedgeMargin + o.hedgeMargin, revenue + o.revenue,
                profit + o.profit, reinvest + o.reinvest, reserve + o.reserve)
    }

    function Minus(o: Liquidity): Liquidity {
      Liquidity(balance - o.balance, hedgeSpend - o.hedgeSpend, hedgeMargin - o.hedgeMargin, revenue - o.revenue,
                profit - o.profit, reinvest - o.reinvest, reserve - o.reserve)
    }
  }

  const NOTHING := Liquidity(0.0, 0.0, 0.0, 0.0, 0.0, 0.0, 0.0)

  // The running subsidy total is a Decimal, except that the day rollover stores the plain number 0, which has no `add`.
  datatype Total = Decimal(value: real) | PlainZero {
    function Value(): real {
      if Decimal? then value else 0.0
    }
  }

  datatype Subsidy = Subsidy(total: Total, byTier: map<string, real>, byAccount: map<string, real>, dateKey: int)

  datatype State = State(
    config: Config,
    configMtime: Option<int>,
    tiers: map<string, RiskState>,
    liquidity: Liquidity,
    subsidy: Subsidy
  )

  datatype Verdict = Allowed | DailyCap | TierCap | AccountCap

  // One call of the module's interface on a given day.
  datatype Event =
    | Load(day: int, config: Config, mtime: int)
    | Reset(day: int)
    | Touch(day: int, tier: string)
    | Account(day: int, tier: string, fee: real, premium: real, notional: real, margin: real)
    | Revenue(day: int, tier: string, fee: real)
    | Check(day: int)
    | Record(day: int, tier: string, account: Option<string>, amount: real)

  function TierOn(tiers: map<string, RiskState>, tier: string, day: int): RiskState {
    if tier in tiers && tiers[tier].dateKey == day then tiers[tier] else RiskState(day, 0.0, 0.0, 0.0)
  }

  function Share(profit: real, pct: real): real {
    if profit > 0.0 then profit * pct else 0.0
  }

  /** What one booking adds to the liquidity state. */
  function Contribution(c: Config, e: Event): Liquidity {
    match e
    case Account(_, _, fee, premium, _, margin) =>
      var profit := fee - premium;
      Liquidity(fee - premium - margin, premium, margin, fee, profit,
                Share(profit, c.reinvestPct), Share(profit, c.reservePct))
    case Revenue(_, _, fee) =>
      Liquidity(fee, 0.0, 0.0, fee, fee, Share(fee, c.reinvestPct), Share(fee, c.reservePct))
    case _ => NOTHING
  }

  function BookTier(tiers: map<string, RiskState>, e: Event): map<string, RiskState> {
    match e
    case Account(day, tier, fee, premium, notional, _) =>
      var t := TierOn(tiers, tier, day);
      tiers[tier := RiskState(day, t.revenue + fee, t.overage + Max(0.0, premium - fee), t.notional + notional)]
    case Revenue(day, tier, fee) =>
      var t := TierOn(tiers, tier, day);
      tiers[tier := t.(revenue := t.revenue + fee)]
    case Touch(day, tier) =>
      tiers[tier := TierOn(tiers, tier, day)]
    case _ => tiers
  }

  /** The rollover; `zero` is what it stores as the total. */
  function EnsureDay(zero: Total, s: Subsidy, day: int): Subsidy {
    if day != s.dateKey then Subsidy(zero, map[], map[], day) else s
  }

  function AccountKey(account: Option<string>): string {
    if account.None? || account.value == "" then "unknown" else account.value
  }

  function TierCapOf(c: Config, tier: string): real {
    if tier in c.subsidyTierCaps then c.subsidyTierCaps[tier] else c.subsidyDailyCap
  }

  function Multiplier(c: Config, iv: Option<real>): real {
    if iv.Some? && iv.value > c.volatilityThrottleIv then c.volatilityMultiplier else 1.0
  }

  function CanApply(c: Config, s: Subsidy, tier: string, account: Option<string>, amount: real, iv: Option<real>)
    : Verdict
  {
    var multiplier := Multiplier(c, iv);
    var accountCap := c.subsidyAccountCap * multiplier;
    if s.total.Value() + amount > c.subsidyDailyCap * multiplier then DailyCap
    else if At(s.byTier, tier) + amount > TierCapOf(c, tier) * multiplier then TierCap
    else if accountCap > 0.0 && At(s.byAccount, AccountKey(account)) + amount > accountCap then AccountCap
    else Allowed
  }

  /** Adding to the plain number 0 throws before anything is stored. */
  function RecordOn(s: Subsidy, tier: string, account: Option<string>, amount: real): Subsidy {
    if s.total.PlainZero? then s
    else
      var key := AccountKey(account);
      Subsidy(Decimal(s.total.value + amount),
              s.byTier[tier := At(s.byTier, tier) + amount],
              s.byAccount[key := At(s.byAccount, key) + amount],
              s.dateKey)
  }

  function Next(s: State, e: Event): State {
    match e
    case Load(_, config, mtime) =>
      if s.configMtime == Some(mtime) then s
      else
        s.(config := config, configMtime := Some(mtime),
           liquidity := s.liquidity.(balance := config.initialLiquidity))
    case Reset(day) =>
      s.(tiers := map[], liquidity := NOTHING.(balance := s.config.initialLiquidity),
         subsidy := Subsidy(Decimal(0.0), map[], map[], day))
    case Check(day) =>
      s.(subsidy := EnsureDay(PlainZero, s.subsidy, day))
    case Record(day, tier, account, amount) =>
      s.(subsidy := RecordOn(EnsureDay(PlainZero, s.subsidy, day), tier, account, amount))
    case _ =>
      s.(tiers := BookTier(s.tiers, e), liquidity := s.liquidity.Plus(Contribution(s.config, e)))
  }

  /** What a booking changes: one tier and the liquidity state. */
  lemma AccountStep(s: State, day: int, tier: string, fee: real, premium: real, notional: real, margin: real)
    ensures var s', t := Next(s, Account(day, tier, fee, premium, notional, margin)), TierOn(s.tiers, tier, day);
            var l, l', profit := s.liquidity, s'.liquidity, fee - premium;
            && s' == s.(tiers := s'.tiers, liquidity := l')
            && s'.tiers == s.tiers[tier := RiskState(day, t.revenue + fee, t.overage + Max(0.0, premium - fee),
                                                     t.notional + notional)]
            && l'.balance == l.balance + fee - premium - margin
            && l'.hedgeSpend == l.hedgeSpend + premium && l'.hedgeMargin == l.hedgeMargin + margin
            && l'.revenue == l.revenue + fee && l'.profit == l.profit + profit
            && l'.reinvest == l.reinvest + Share(profit, s.config.reinvestPct)
            && l'.reserve == l.reserve + Share(profit, s.config.reservePct)
  {
    hide Max, Share, TierOn;
  }

  lemma RevenueStep(s: State, day: int, tier: string, fee: real)
    ensures var s', t := Next(s, Revenue(day, tier, fee)), TierOn(s.tiers, tier, day);
            var l, l' := s.liquidity, s'.liquidity;
            && s' == s.(tiers := s'.tiers, liquidity := l')
            && s'.tiers == s.tiers[tier := t.(revenue := t.revenue + fee)]
            && l'.balance == l.balance + fee && l'.revenue == l.revenue + fee && l'.profit == l.profit + fee
            && l'.hedgeSpend == l.hedgeSpend && l'.hedgeMargin == l.hedgeMargin
            && l'.reinvest == l.reinvest + Share(fee, s.config.reinvestPct)
            && l'.reserve == l.reserve + Share(fee, s.config.reservePct)
  {
    hide Share, TierOn;
  }

  lemma TouchStep(s: State, day: int, tier: string)
    ensures Next(s, Touch(day, tier)) == s.(tiers := s.tiers[tier := TierOn(s.tiers, tier, day)])
    ensures TierOn(s.tiers, tier, day).dateKey == day
  {
  }

  lemma SetTwice<T>(m: map<string, T>, k: string, a: T, b: T)
    ensures m[k := a][k := b] == m[k := b] && m[k := a][k] == a
  {
  }

  function Run(s: State, es: seq<Event>): State {
    if |es| == 0 then s else Next(Run(s, es[..|es| - 1]), es[|es| - 1])
  }

  /** The state when the module is first loaded. */
  function Start(day: int): State {
    State(DEFAULTS, None, map[], NOTHING.(balance := DEFAULTS.initialLiquidity),
          Subsidy(Decimal(0.0), map[], map[], day))
  }

  class Controls {
    var config: Config
    var configMtime: Option<int>
    var stateByTier: map<string, RiskState>
    var liquidityState: Liquidity
    var subsidyDailyTotal: Total
    var subsidyByTier: map<string, real>
    var subsidyByAccount: map<string, real>
    var subsidyDateKey: int

    ghost function Now(): State
      reads this
    {
      State(config, configMtime, stateByTier, liquidityState,
            Subsidy(subsidyDailyTotal, subsidyByTier, subsidyByAccount, subsidyDateKey))
    }

    constructor (day: int)
      ensures Now() == Start(day)
    {
      config, configMtime, stateByTier := DEFAULTS, None, map[];
      liquidityState := NOTHING.(balance := DEFAULTS.initialLiquidity);
      subsidyDailyTotal, subsidyByTier, subsidyByAccount, subsidyDateKey := Decimal(0.0), map[], map[], day;
    }

    method LoadRiskControls(ghost day: int, loaded: Config, mtime: int) returns (current: Config)
      modifies this
      ensures Now() == Next(old(Now()), Load(day, loaded, mtime)) && current == config
    {
      if configMtime == Some(mtime) { return config; }
      config, configMtime := loaded, Some(mtime);
      liquidityState := liquidityState.(balance := loaded.initialLiquidity);
      current := config;
    }

    method EnsureSubsidyDay(day: int)
      modifies this
      ensures Now() == Next(old(Now()), Check(day))
    {
      if day != subsidyDateKey {
        subsidyDateKey, subsidyDailyTotal, subsidyByTier, subsidyByAccount := day, PlainZero, map[], map[];
      }
    }

    method CanApplySubsidy(day: int, tier: string, account: Option<string>, amount: real, iv: Option<real>)
      returns (verdict: Verdict)
      modifies this
      ensures Now() == Next(old(Now()), Check(day))
      ensures verdict == CanApply(config, Now().subsidy, tier, account, amount, iv)
    {
      EnsureSubsidyDay(day);
      verdict := CanApply(config, Subsidy(subsidyDailyTotal, subsidyByTier, subsidyByAccount, subsidyDateKey),
                          tier, account, amount, iv);
    }

    /** stored is false when the call throws. */
    method RecordSubsidy(day: int, tier: string, account: Option<string>, amount: real) returns (stored: bool)
      modifies this
      ensures Now() == Next(old(Now()), Record(day, tier, account, amount))
      ensures stored <==> old(subsidyDailyTotal).Decimal? && day == old(subsidyDateKey)
    {
      EnsureSubsidyDay(day);
      if subsidyDailyTotal.PlainZero? { return false; }
      subsidyDailyTotal := Decimal(subsidyDailyTotal.value + amount);
      subsidyByTier := subsidyByTier[tier := At(subsidyByTier, tier) + amount];
      var key := AccountKey(account);
      subsidyByAccount := subsidyByAccount[key := At(subsidyByAccount, key) + amount];
      return true;
    }

    method GetRiskState(day: int, tier: string) returns (state: RiskState)
      modifies this
      ensures Now() == Next(old(Now()), Touch(day, tier))
      ensures state == stateByTier[tier]
    {
      if tier !in stateByTier || stateByTier[tier].dateKey != day {
        stateByTier := stateByTier[tier := RiskState(day, 0.0, 0.0, 0.0)];
      }
      state := stateByTier[tier];
    }

    method ApplyRiskAccounting(day: int, tier: string, fee: real, premium: real, notional: real, margin: real)
      returns (state: RiskState, delta: Liquidity)
      modifies this
      ensures Now() == Next(old(Now()), Account(day, tier, fee, premium, notional, margin))
      ensures state == stateByTier[tier] && delta == liquidityState.Minus(old(liquidityState))
    {
      hide Next, TierOn, Max;
      ghost var s := Now();
      AccountStep(s, day, tier, fee, premium, notional, margin);
      TouchStep(s, day, tier);
      state := GetRiskState(day, tier);
      var before := liquidityState;
      var touched := state;
      state := state.(revenue := state.revenue + fee,
                      overage := state.overage + Max(0.0, premium - fee),
                      notional := state.notional + notional);
      stateByTier := stateByTier[tier := state];
      SetTwice(s.tiers, tier, touched, state);
      assert stateByTier == s.tiers[tier := state];
      var profit := fee - premium;
      var reinvest := if profit > 0.0 then profit * config.reinvestPct else 0.0;
      var reserve := if profit > 0.0 then profit * config.reservePct else 0.0;
      liquidityState := Liquidity(before.balance + fee - premium - margin, before.hedgeSpend + premium,
                                  before.hedgeMargin + margin, before.revenue + fee, before.profit + profit,
                                  before.reinvest + reinvest, before.reserve + reserve);
      assert liquidityState == Next(s, Account(day, tier, fee, premium, notional, margin)).liquidity;
      delta := liquidityState.Minus(before);
    }

    method RecordRevenue(day: int, tier: string, fee: real) returns (state: RiskState, delta: Liquidity)
      modifies this
      ensures Now() == Next(old(Now()), Revenue(day, tier, fee))
      ensures state == stateByTier[tier] && delta == liquidityState.Minus(old(liquidityState))
    {
      hide Next, TierOn;
      ghost var s := Now();
      RevenueStep(s, day, tier, fee);
      TouchStep(s, day, tier);
      state := GetRiskState(day, tier);
      var before := liquidityState;
      var touched := state;
      state := state.(revenue := state.revenue + fee);
      stateByTier := stateByTier[tier := state];
      SetTwice(s.tiers, tier, touched, state);
      assert stateByTier == s.tiers[tier := state];
      var reinvest := if fee > 0.0 then fee * config.reinvestPct else 0.0;
      var reserve := if fee > 0.0 then fee * config.reservePct else 0.0;
      liquidityState := before.(revenue := before.revenue + fee, profit := before.profit + fee,
                                reinvest := before.reinvest + reinvest, reserve := before.reserve + reserve,
                                balance := before.balance + fee);
      assert liquidityState == Next(s, Revenue(day, tier, fee)).liquidity;
      delta := liquidityState.Minus(before);
    }

    method ResetRiskState(day: int)
      modifies this
      ensures Now() == Next(old(Now()), Reset(day))
    {
      stateByTier := map[];
      liquidityState := NOTHING.(balance := config.initialLiquidity);
      subsidyDailyTotal, subsidyByTier, subsidyByAccount, subsidyDateKey := Decimal(0.0), map[], map[], day;
    }
  }
}
