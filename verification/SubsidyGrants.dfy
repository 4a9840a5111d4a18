/**
 * What subsidy checks let through in one day (src/riskControls.ts): the amounts of allowed grants, against the books
 * that the records keep.
 */
module SubsidyGrants {
  import opened Options
  import opened Reals
  import opened RiskControls
  import opened RiskProofs

  /** Checks, records, summaries and bookings of one day; no reset, no reload. */
  predicate OfDay(op: Op, day: int) {
    match op
    case Probe(d) => d == day
    case Other(e) => Booking(e) || e.Touch?
    case Grant(checkDay, recordDay, _, _, _, _) => checkDay == day == recordDay
  }

  predicate DayOps(ops: seq<Op>, day: int) {
    forall i :: 0 <= i < |ops| ==> OfDay(ops[i], day)
  }

  predicate NotNegative(ops: seq<Op>) {
    forall i :: 0 <= i < |ops| && ops[i].Grant? ==> ops[i].amount >= 0.0
  }

  predicate Allows(c: Config, s: Subsidy, op: Op)
    requires op.Grant?
  {
    CanApply(c, s, op.tier, op.account, op.amount, op.iv).Allowed?
  }

  function GrantedBy(c: Config, s: Subsidy, op: Op): real {
    if op.Grant? && Allows(c, s, op) then op.amount else 0.0
  }

  /** The sum of the amounts whose check is allowed, over a run on the day of s. */
  function Granted(c: Config, s: Subsidy, ops: seq<Op>): real {
    if |ops| == 0 then 0.0
    else
      var init, op := ops[..|ops| - 1], ops[|ops| - 1];
      Granted(c, s, init) + GrantedBy(c, RunOps(PlainZero, c, s, init), op)
  }

  lemma OpRecordsGrant(c: Config, s: Subsidy, op: Op)
    requires s.total.Decimal? && OfDay(op, s.dateKey)
    ensures var s' := ApplyOp(PlainZero, c, s, op);
            s'.dateKey == s.dateKey && s'.total == Decimal(s.total.value + GrantedBy(c, s, op))
  {
    hide CanApply;
  }

  /** While the total is a Decimal, the books of the day grow by exactly what is granted. */
  lemma {:induction false} GrantsAreRecorded(c: Config, s: Subsidy, ops: seq<Op>)
    requires s.total.Decimal? && DayOps(ops, s.dateKey)
    ensures var s' := RunOps(PlainZero, c, s, ops);
            s'.dateKey == s.dateKey && s'.total == Decimal(s.total.value + Granted(c, s, ops))
  {
    hide ApplyOp, GrantedBy, OfDay;
    if |ops| > 0 {
      GrantsAreRecorded(c, s, ops[..|ops| - 1]);
      OpRecordsGrant(c, RunOps(PlainZero, c, s, ops[..|ops| - 1]), ops[|ops| - 1]);
    }
  }

  /** So what is granted in the rest of the day fits into what is left of the daily cap. */
  lemma GrantsWithinCap(c: Config, s: Subsidy, ops: seq<Op>)
    requires s.total.Decimal? && DayOps(ops, s.dateKey) && NotNegative(ops)
    requires WithinCaps(c, s) && 0.0 <= c.volatilityMultiplier <= 1.0
    ensures s.total.value + Granted(c, s, ops) <= Max(0.0, c.subsidyDailyCap)
  {
    hide RunOps, Granted, DayOps;
    GrantsAreRecorded(c, s, ops);
    CapsHold(PlainZero, c, s, ops);
    TotalWithinCap(c, RunOps(PlainZero, c, s, ops));
  }

  lemma TotalWithinCap(c: Config, s: Subsidy)
    requires WithinCaps(c, s)
    ensures s.total.Value() <= Max(0.0, c.subsidyDailyCap)
  {
    hide SumMap;
  }

  // ---------------------------------------------------------------------------------------------
  // The zero a rollover stores.

  /** Then no operation of the day changes the books, and every check is answered as before the first of them. */
  lemma {:induction false} AllowedWithoutEnd(c: Config, s: Subsidy, ops: seq<Op>)
    requires s.total.PlainZero? && DayOps(ops, s.dateKey)
    ensures RunOps(PlainZero, c, s, ops) == s
    ensures forall g: Op :: g.Grant? ==> Allows(c, RunOps(PlainZero, c, s, ops), g) == Allows(c, s, g)
  {
    hide CanApply;
    if |ops| > 0 {
      AllowedWithoutEnd(c, s, ops[..|ops| - 1]);
      assert OfDay(ops[|ops| - 1], s.dateKey);
    }
  }

  function Repeat(op: Op, n: nat): (ops: seq<Op>)
    ensures |ops| == n && forall i :: 0 <= i < n ==> ops[i] == op
  {
    if n == 0 then [] else Repeat(op, n - 1) + [op]
  }

  lemma GrantedSnoc(c: Config, s: Subsidy, init: seq<Op>, op: Op)
    ensures Granted(c, s, init + [op]) == Granted(c, s, init) + GrantedBy(c, RunOps(PlainZero, c, s, init), op)
  {
    hide RunOps, GrantedBy;
    assert (init + [op])[..|init|] == init;
  }

  function Times(n: nat, x: real): real {
    n as real * x
  }

  lemma OneMoreTimes(n: nat, x: real)
    ensures Times(0, x) == 0.0 && Times(n + 1, x) == Times(n, x) + x
  {
  }

  lemma GrantOnceMore(c: Config, s: Subsidy, g: Op, init: seq<Op>)
    requires s.total.PlainZero? && g.Grant? && Allows(c, s, g) && DayOps(init, s.dateKey)
    ensures Granted(c, s, init + [g]) == Granted(c, s, init) + g.amount
  {
    hide RunOps, Allows, Granted, DayOps;
    AllowedWithoutEnd(c, s, init);
    GrantedSnoc(c, s, init, g);
  }

  /** One allowed grant can be granted any number of times. */
  lemma {:induction false} GrantsRepeat(c: Config, s: Subsidy, g: Op, n: nat)
    requires s.total.PlainZero? && g.Grant? && OfDay(g, s.dateKey) && Allows(c, s, g)
    ensures Granted(c, s, Repeat(g, n)) == Times(n, g.amount)
  {
    hide Granted, Allows, OfDay, CanApply, Times;
    if n == 0 {
      OneMoreTimes(0, g.amount);
      NoneGranted(c, s, g);
    } else {
      GrantsRepeat(c, s, g, n - 1);
      GrantOnceMore(c, s, g, Repeat(g, n - 1));
      OneMoreTimes(n - 1, g.amount);
    }
  }

  lemma NoneGranted(c: Config, s: Subsidy, g: Op)
    ensures Granted(c, s, Repeat(g, 0)) == 0.0
  {
  }

  lemma {:induction false} LongerThanAll(keys: set<string>) returns (n: nat)
    ensures n > 0 && forall k :: k in keys ==> |k| < n
    decreases |keys|
  {
    if keys == {} {
      n := 1;
    } else {
      var k :| k in keys;
      var m := LongerThanAll(keys - {k});
      n := if m > |k| then m else |k| + 1;
    }
  }

  function Name(n: nat): (name: string)
    ensures |name| == n
  {
    seq(n, _ => 'x')
  }

  /** With a positive daily cap and nothing recorded, some positive amount is allowed. */
  lemma SomeAllowed(c: Config, s: Subsidy) returns (g: Op)
    requires s.total.PlainZero? && c.subsidyDailyCap > 0.0
    ensures g.Grant? && OfDay(g, s.dateKey) && g.amount > 0.0 && Allows(c, s, g)
  {
    var n := LongerThanAll(c.subsidyTierCaps.Keys + s.byTier.Keys + s.byAccount.Keys);
    var name := Name(n);
    assert name !in c.subsidyTierCaps && name !in s.byTier && name !in s.byAccount;
    assert name != "";
    var amount := if c.subsidyAccountCap > 0.0 then Min(c.subsidyDailyCap, c.subsidyAccountCap) else c.subsidyDailyCap;
    g := Grant(s.dateKey, s.dateKey, name, Some(name), amount, None);
    assert Multiplier(c, None) == 1.0;
  }

  lemma NonePositive(c: Config, s: Subsidy, g: Op)
    requires s.total.PlainZero? && c.subsidyDailyCap <= 0.0 && 0.0 <= c.volatilityMultiplier <= 1.0
    requires g.Grant? && Allows(c, s, g)
    ensures g.amount <= 0.0
  {
    hide CanApply, Multiplier, TierCapOf, AccountKey;
    AllowedMeans(c, s, g.tier, g.account, g.amount, g.iv, Multiplier(c, g.iv));
    MultiplierIsShare(c, g.iv);
    FitsScaled(g.amount, c.subsidyDailyCap, Multiplier(c, g.iv));
  }

  lemma {:induction false} NothingGranted(c: Config, s: Subsidy, ops: seq<Op>)
    requires s.total.PlainZero? && c.subsidyDailyCap <= 0.0 && 0.0 <= c.volatilityMultiplier <= 1.0
    requires DayOps(ops, s.dateKey)
    ensures Granted(c, s, ops) <= 0.0
  {
    hide CanApply, RunOps, Allows;
    if |ops| > 0 {
      var init, op := ops[..|ops| - 1], ops[|ops| - 1];
      NothingGranted(c, s, init);
      AllowedWithoutEnd(c, s, init);
      if op.Grant? && Allows(c, s, op) {
        NonePositive(c, s, op);
      }
    }
  }

  // ---------------------------------------------------------------------------------------------

  /** No run of the rest of the day grants more than the bound. */
  ghost predicate BoundedBy(c: Config, s: Subsidy, bound: real) {
    forall ops :: DayOps(ops, s.dateKey) && NotNegative(ops) ==> Granted(c, s, ops) <= bound
  }

  ghost predicate Bounded(c: Config, s: Subsidy) {
    exists bound: real :: BoundedBy(c, s, bound)
  }

  lemma Unbounded(c: Config, s: Subsidy, bound: real)
    requires s.total.PlainZero? && c.subsidyDailyCap > 0.0
    ensures !BoundedBy(c, s, bound)
  {
    hide Granted, Allows;
    var g := SomeAllowed(c, s);
    var n := Enough(bound, g.amount);
    GrantsRepeat(c, s, g, n);
    assert DayOps(Repeat(g, n), s.dateKey) && NotNegative(Repeat(g, n));
  }

  lemma Enough(bound: real, amount: real) returns (n: nat)
    requires amount > 0.0
    ensures n as real * amount > bound
  {
    var q := bound / amount;
    assert q * amount == bound;
    n := if q < 0.0 then 0 else q.Floor + 1;
    if q < 0.0 {
      assert (-q) * amount > 0.0;
    } else {
      assert (n as real - q) * amount > 0.0;
      assert (n as real - q) * amount == n as real * amount - q * amount;
    }
  }

  /**
   * What the rest of a day can grant is bounded exactly while the total is a Decimal, or when the daily cap allows
   * nothing at all.
   */
  lemma GrantsBoundedIff(c: Config, s: Subsidy)
    requires WithinCaps(c, s) && 0.0 <= c.volatilityMultiplier <= 1.0
    ensures Bounded(c, s) <==> s.total.Decimal? || c.subsidyDailyCap <= 0.0
  {
    hide WithinCaps, Granted, DayOps, NotNegative;
    if s.total.Decimal? {
      var left := Max(0.0, c.subsidyDailyCap) - s.total.value;
      forall ops | DayOps(ops, s.dateKey) && NotNegative(ops)
        ensures Granted(c, s, ops) <= left
      {
        GrantsWithinCap(c, s, ops);
      }
      assert BoundedBy(c, s, left);
    } else if c.subsidyDailyCap <= 0.0 {
      forall ops | DayOps(ops, s.dateKey) && NotNegative(ops)
        ensures Granted(c, s, ops) <= 0.0
      {
        NothingGranted(c, s, ops);
      }
      assert BoundedBy(c, s, 0.0);
    } else {
      forall bound
        ensures !BoundedBy(c, s, bound)
      {
        Unbounded(c, s, bound);
      }
    }
  }

  /** The first check of a new day leaves that day without a bound, and a reset gives it one back. */
  lemma RolloverLosesBound(s: State, day: int)
    requires day != s.subsidy.dateKey && 0.0 <= s.config.volatilityMultiplier <= 1.0
    ensures var rolled, reset := Next(s, Check(day)).subsidy, Next(s, Reset(day)).subsidy;
            && rolled.dateKey == day == reset.dateKey
            && (Bounded(s.config, rolled) <==> s.config.subsidyDailyCap <= 0.0)
            && Bounded(s.config, reset)
  {
    hide Bounded, WithinCaps;
    EmptyDayWithinCaps(s.config, PlainZero, day);
    EmptyDayWithinCaps(s.config, Decimal(0.0), day);
    GrantsBoundedIff(s.config, Next(s, Check(day)).subsidy);
    GrantsBoundedIff(s.config, Next(s, Reset(day)).subsidy);
  }
}
