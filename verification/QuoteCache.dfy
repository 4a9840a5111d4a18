/** The quote cache of src/server.ts over the volatility ladder: what a cached quote was computed for, and its age. */
module QuoteCache {
  import opened Options
  import opened Reals
  import opened IvLadder
  import opened LadderProtocol

  datatype PricingRequest = PricingRequest(
    tierName: string,
    asset: string,
    spotPrice: real,
    drawdownFloorPct: real,
    positionSize: real,
    leverage: real,
    targetDays: real,
    accountId: string
  )

  // `toFixed`: the sign of the number and the rounded count of units of the last digit.
  datatype Fixed = Fixed(negative: bool, units: int)

  datatype Key = Key(
    tierName: string,
    asset: string,
    spot: Fixed,
    drawdown: Fixed,
    positionSize: Fixed,
    leverage: Fixed,
    targetDays: real
  )

  /** `toFixed` of a number given in units of the last digit kept: halves go away from zero. */
  function ToFixed(scaled: real): Fixed {
    Fixed(scaled < 0.0, (Abs(scaled) + 0.5).Floor)
  }

  function UpperChar(c: char): char {
    if 'a' <= c <= 'z' then c - 'a' + 'A' else c
  }

  function Upper(s: string): (upper: string)
    ensures |upper| == |s|
  {
    if |s| == 0 then "" else [UpperChar(s[0])] + Upper(s[1..])
  }

  /** The account is not part of the key. */
  function KeyOf(r: PricingRequest): Key {
    Key(r.tierName, Upper(if r.asset == "" then "BTC" else r.asset),
        ToFixed(r.spotPrice * 100.0), ToFixed(r.drawdownFloorPct * 10000.0), ToFixed(r.positionSize * 1000000.0),
        ToFixed(r.leverage * 100.0), r.targetDays)
  }

  /** Figures that print alike differ by less than one unit of the last digit. */
  lemma SameFixedClose(x: real, y: real)
    requires ToFixed(x) == ToFixed(y)
    ensures Abs(x - y) < 1.0
  {
    var n := ToFixed(x).units as real;
    assert n <= Abs(x) + 0.5 < n + 1.0 && n <= Abs(y) + 0.5 < n + 1.0;
  }

  /**
   * Requests with one key ask for the same tier, tenor and asset up to case, and their figures differ by less than a
   * rounding unit.
   */
  lemma SameKeyClose(a: PricingRequest, b: PricingRequest)
    requires KeyOf(a) == KeyOf(b)
    ensures a.tierName == b.tierName && a.targetDays == b.targetDays
    ensures Upper(if a.asset == "" then "BTC" else a.asset) == Upper(if b.asset == "" then "BTC" else b.asset)
    ensures Abs(a.spotPrice - b.spotPrice) < 0.01 && Abs(a.leverage - b.leverage) < 0.01
    ensures Abs(a.drawdownFloorPct - b.drawdownFloorPct) < 0.0001
    ensures Abs(a.positionSize - b.positionSize) < 0.000001
  {
    SameFixedClose(a.spotPrice * 100.0, b.spotPrice * 100.0);
    SameFixedClose(a.leverage * 100.0, b.leverage * 100.0);
    SameFixedClose(a.drawdownFloorPct * 10000.0, b.drawdownFloorPct * 10000.0);
    SameFixedClose(a.positionSize * 1000000.0, b.positionSize * 1000000.0);
  }

  /** `toFixed` rounds to the nearest unit, halves away from zero, and keeps the sign. */
  lemma ToFixedIs(scaled: real)
    ensures var f := ToFixed(scaled);
            && (f.negative <==> scaled < 0.0)
            && f.units as real - 0.5 <= Abs(scaled) < f.units as real + 0.5
  {
  }

  /** One key exactly for one tier, one tenor, one asset up to case, and figures that round alike; accounts share it. */
  lemma SameKeyIff(a: PricingRequest, b: PricingRequest)
    ensures KeyOf(a) == KeyOf(b) <==>
              && a.tierName == b.tierName && a.targetDays == b.targetDays
              && Upper(if a.asset == "" then "BTC" else a.asset) == Upper(if b.asset == "" then "BTC" else b.asset)
              && ToFixed(a.spotPrice * 100.0) == ToFixed(b.spotPrice * 100.0)
              && ToFixed(a.drawdownFloorPct * 10000.0) == ToFixed(b.drawdownFloorPct * 10000.0)
              && ToFixed(a.positionSize * 1000000.0) == ToFixed(b.positionSize * 1000000.0)
              && ToFixed(a.leverage * 100.0) == ToFixed(b.leverage * 100.0)
  {
    hide ToFixed, Upper;
  }

  lemma {:induction false} UpperAt(s: string, i: nat)
    requires i < |s|
    ensures Upper(s)[i] == if 'a' <= s[i] <= 'z' then s[i] - 'a' + 'A' else s[i]
  {
    if i > 0 {
      UpperAt(s[1..], i - 1);
    }
  }

  // A computed quote with the request it answers, and the ladder snapshot it used, if any, with the time it was read.
  datatype Response = Response(request: PricingRequest, feeUsdc: real, snapshot: Option<Snapshot>, readAt: int)

  datatype Entry = Entry(ts: int, response: Response)

  // A request whose quote is being computed, with the cached entry it saw.
  datatype Pending = Pending(request: PricingRequest, cached: Option<Entry>, snapshot: Option<Snapshot>, readAt: int)

  datatype Reply = MissingFields | Served(response: Response, cacheAge: int) | PricingFailed

  datatype Decision = Answer(reply: Reply) | Compute(pending: Pending)

  // The ladder's age limits and price buffer.
  datatype Limits = Limits(maxAge: int, maxSnapshotAge: int, bufferPct: real)

  /** Every ladder snapshot in use is well backed and was recent enough when it was read. */
  ghost predicate SnapshotRecent(snapshot: Option<Snapshot>, readAt: int, l: Limits) {
    snapshot.Some? ==>
      WellBacked(snapshot.value, l.maxAge, l.bufferPct) && readAt - snapshot.value.ts <= Larger(0, l.maxSnapshotAge)
  }

  ghost predicate EntryFor(key: Key, e: Entry, l: Limits) {
    && KeyOf(e.response.request) == key
    && e.response.readAt <= e.ts
    && SnapshotRecent(e.response.snapshot, e.response.readAt, l)
  }

  ghost predicate PendingOk(p: Pending, l: Limits) {
    && SnapshotRecent(p.snapshot, p.readAt, l)
    && (p.cached.Some? ==> EntryFor(KeyOf(p.request), p.cached.value, l))
  }

  function LimitsOf(ladder: Ladder): Limits {
    Limits(ladder.maxAgeMs, ladder.maxSnapshotAgeMs, ladder.priceBufferPct)
  }

  /** How long it took to compute the quote, from reading the ladder to storing the answer. */
  function Latency(e: Entry): int {
    e.ts - e.response.readAt
  }

  /**
   * A quote served `now` from an entry no older than `window` rests on ticks no older than the window, the
   * snapshot age and the tick age allowed, and the time its computation took.
   */
  lemma ServedTicksRecent(key: Key, e: Entry, now: int, window: int, l: Limits)
    requires EntryFor(key, e, l) && now - e.ts <= window
    ensures e.response.snapshot.Some? ==>
              |e.response.snapshot.value.sources| >= 3
              && forall tick :: tick in e.response.snapshot.value.sources ==>
                   now - tick.ts <= window + Latency(e) + Larger(0, l.maxSnapshotAge) + l.maxAge
  {
  }

  /** Nothing a quote needs is missing or zero. */
  predicate Complete(r: PricingRequest) {
    r.tierName != "" && r.spotPrice != 0.0 && r.drawdownFloorPct != 0.0 && r.positionSize != 0.0 && r.leverage != 0.0
  }

  class PricingServer {
    const cacheTtlMs: int
    const cacheStaleMs: int
    const cacheHardMs: int
    const ladder: Ladder
    var quoteCache: map<Key, Entry>

    ghost predicate Valid()
      reads this, ladder
    {
      && ladder.Valid()
      && forall k :: k in quoteCache ==> EntryFor(k, quoteCache[k], LimitsOf(ladder))
    }

    constructor (ladder: Ladder, ttl: int, stale: int, hard: int)
      requires ladder.Valid()
      ensures Valid() && this.ladder == ladder && quoteCache == map[]
      ensures cacheTtlMs == ttl && cacheStaleMs == stale && cacheHardMs == hard
    {
      this.ladder, quoteCache := ladder, map[];
      cacheTtlMs, cacheStaleMs, cacheHardMs := ttl, stale, hard;
    }

    /** The entry of the request's key, if there is one. */
    function Cached(r: PricingRequest): Option<Entry>
      reads this
    {
      if KeyOf(r) in quoteCache then Some(quoteCache[KeyOf(r)]) else None
    }

    /** Young enough to be served without computing. */
    predicate Usable(e: Option<Entry>, now: int) {
      e.Some? && now - e.value.ts <= Larger(cacheTtlMs, cacheStaleMs)
    }

    /** The first part of a request: serve it from the cache, or read the ladder and start computing. */
    method Begin(r: PricingRequest, now: int) returns (d: Decision)
      requires Valid()
      modifies ladder`lastSnapshot
      ensures Valid()
      ensures d == Answer(MissingFields) <==>
                r.tierName == "" || r.spotPrice == 0.0 || r.drawdownFloorPct == 0.0 || r.positionSize == 0.0
                || r.leverage == 0.0
      ensures d == if !Complete(r) then Answer(MissingFields)
                   else if Usable(Cached(r), now) then
                     Answer(Served(Cached(r).value.response, now - Cached(r).value.ts))
                   else Compute(Pending(r, Cached(r), old(ladder.SnapshotAt(now)), now))
      ensures ladder.lastSnapshot == if d.Compute? && d.pending.snapshot.Some? then d.pending.snapshot
                                     else old(ladder.lastSnapshot)
      ensures d.Compute? ==> PendingOk(d.pending, LimitsOf(ladder))
    {
      if r.tierName == "" || r.spotPrice == 0.0 || r.drawdownFloorPct == 0.0 || r.positionSize == 0.0
         || r.leverage == 0.0 {
        return Answer(MissingFields);
      }
      var key := KeyOf(r);
      var cached: Option<Entry> := if key in quoteCache then Some(quoteCache[key]) else None;
      if cached.Some? && now - cached.value.ts <= cacheTtlMs {
        return Answer(Served(cached.value.response, now - cached.value.ts));
      }
      if cached.Some? && now - cached.value.ts <= cacheStaleMs {
        return Answer(Served(cached.value.response, now - cached.value.ts));
      }
      var snapshot := ladder.GetSnapshot(now);
      return Compute(Pending(r, cached, snapshot, now));
    }

    /** The quote is computed: it is stored under the request's key, with the time of storing. */
    method Finish(p: Pending, feeUsdc: real, now: int) returns (response: Response)
      requires Valid() && PendingOk(p, LimitsOf(ladder))
      requires p.readAt <= now
      modifies this`quoteCache
      ensures Valid()
      ensures response == Response(p.request, feeUsdc, p.snapshot, p.readAt)
      ensures quoteCache == old(quoteCache)[KeyOf(p.request) := Entry(now, response)]
    {
      response := Response(p.request, feeUsdc, p.snapshot, p.readAt);
      quoteCache := quoteCache[KeyOf(p.request) := Entry(now, response)];
    }

    /** Computing the quote failed: the entry seen at the start is served while it is still usable. */
    method Fail(p: Pending, now: int) returns (reply: Reply)
      requires Valid() && PendingOk(p, LimitsOf(ladder))
      ensures reply == if p.cached.Some? && now - p.cached.value.ts <= cacheHardMs
                       then Served(p.cached.value.response, now - p.cached.value.ts) else PricingFailed
      ensures reply.Served? ==> KeyOf(reply.response.request) == KeyOf(p.request)
    {
      if p.cached.Some? && now - p.cached.value.ts <= cacheHardMs {
        return Served(p.cached.value.response, now - p.cached.value.ts);
      }
      return PricingFailed;
    }

    method AdminReset()
      requires Valid()
      modifies this`quoteCache
      ensures Valid() && quoteCache == map[]
    {
      quoteCache := map[];
    }

    /**
     * A quote served from the cache off the error path was computed for a request with the same rounded key and, on
     * the ladder path, rests on ticks as recent as the stale window, the snapshot age, the tick age and its own
     * computing time allow.
     */
    lemma ServedIsRecent(r: PricingRequest, now: int, e: Entry)
      requires Valid() && KeyOf(r) in quoteCache && e == quoteCache[KeyOf(r)]
      requires now - e.ts <= Larger(cacheTtlMs, cacheStaleMs)
      ensures KeyOf(e.response.request) == KeyOf(r)
      ensures e.response.snapshot.Some? ==>
                forall tick :: tick in e.response.snapshot.value.sources ==>
                  now - tick.ts <= Larger(cacheTtlMs, cacheStaleMs) + Latency(e)
                                   + Larger(0, ladder.maxSnapshotAgeMs) + ladder.maxAgeMs
    {
      ServedTicksRecent(KeyOf(r), e, now, Larger(cacheTtlMs, cacheStaleMs), LimitsOf(ladder));
    }
  }

  // ---------------------------------------------------------------------------------------------
  // A run that reaches the bound.

  const NAMES := ["a", "b", "c"]

  function PlainLeg(instrument: string): Leg {
    Leg(7.0, 0.1, instrument, 90000.0, None, None)
  }

  const TICK := IvEntry(50.0, 1.0, 1.0, 1.0, 0)

  /** The ladder quotes the three names, each with the same tick at time 0. */
  ghost predicate TickedAtZero(ladder: Ladder)
    reads ladder
  {
    && ladder.Valid()
    && Instruments(ladder.ladderLegs) == NAMES
    && forall x :: x in NAMES ==> x in ladder.ivByInstrument && ladder.ivByInstrument[x] == TICK
  }

  method SendTick(ladder: Ladder, instrument: string)
    requires ladder.Valid()
    modifies ladder`ivByInstrument
    ensures ladder.Valid() && ladder.ivByInstrument == old(ladder.ivByInstrument)[instrument := TICK]
  {
    hide Ladder.Valid, InstrumentOf, Channel;
    ChannelNamesInstrument(instrument);
    ladder.OnMessage(Tick(Channel(instrument), 50.0, 1.0, 1.0, 1.0), 0);
  }

  method SubscribedLadder(maxAge: int, maxSnapshotAge: int) returns (ladder: Ladder)
    ensures fresh(ladder) && ladder.Valid() && Instruments(ladder.ladderLegs) == NAMES && ladder.lastSnapshot == None
    ensures ladder.maxAgeMs == maxAge && ladder.maxSnapshotAgeMs == maxSnapshotAge
  {
    var legs := [PlainLeg("a"), PlainLeg("b"), PlainLeg("c")];
    assert Instruments(legs) == NAMES;
    hide *;
    ladder := new Ladder(maxAge, maxSnapshotAge, 0.0);
    ladder.UpdateSubscriptions(legs);
  }

  /** Three legs are subscribed and each is ticked once, at time 0. */
  method TickedLadder(maxAge: int, maxSnapshotAge: int) returns (ladder: Ladder)
    ensures fresh(ladder) && TickedAtZero(ladder) && ladder.lastSnapshot == None
    ensures ladder.maxAgeMs == maxAge && ladder.maxSnapshotAgeMs == maxSnapshotAge
  {
    hide Ladder.Valid, Instruments;
    ladder := SubscribedLadder(maxAge, maxSnapshotAge);
    SendTick(ladder, "a");
    SendTick(ladder, "b");
    SendTick(ladder, "c");
  }

  lemma RecentTicks(ticks: map<string, IvEntry>, now: int, maxAge: int)
    requires forall x :: x in NAMES ==> x in ticks && ticks[x] == TICK
    ensures RecentEntries(NAMES, ticks, now, maxAge) == if now <= maxAge then [TICK, TICK, TICK] else []
  {
    var two, one := NAMES[1..], NAMES[2..];
    assert two[1..] == one && one[1..] == [];
    assert one[0] == "c" && "c" in NAMES;
    assert RecentEntries(one, ticks, now, maxAge) == if now <= maxAge then [TICK] else [];
    assert two[0] == "b" && "b" in NAMES;
    assert RecentEntries(two, ticks, now, maxAge) == if now <= maxAge then [TICK, TICK] else [];
    assert NAMES[0] == "a" && "a" in NAMES;
  }

  /** A snapshot is taken when the ticks are maxAge old, and is still answered maxSnapshotAge later. */
  method AgedLadder(maxAge: nat, maxSnapshotAge: nat) returns (ladder: Ladder)
    ensures fresh(ladder) && ladder.Valid()
    ensures ladder.maxAgeMs == maxAge && ladder.maxSnapshotAgeMs == maxSnapshotAge
    ensures var answer := ladder.SnapshotAt(maxAge + maxSnapshotAge);
            answer.Some? && answer.value.sources == [TICK, TICK, TICK]
  {
    hide RecentEntries, Instruments, Sort, WellBacked, ThreeRecent, TakenFrom, Ladder.Valid;
    ladder := TickedLadder(maxAge, maxSnapshotAge);
    RecentTicks(ladder.ivByInstrument, maxAge, maxAge);
    RecentTicks(ladder.ivByInstrument, maxAge + maxSnapshotAge, maxAge);
    var taken := ladder.GetSnapshot(maxAge);
  }

  /**
   * The three windows alone do not bound the age of a tick: with a snapshot taken when the ticks are maxAge old, read
   * maxSnapshotAge later, a quote that took `latency` to compute and a cached answer served `window` after that, the
   * ticks behind the answer are as old as the sum of all four. So ServedIsRecent is tight for every latency.
   */
  method LatencyCounts(r: PricingRequest, window: nat, latency: nat, maxSnapshotAge: nat, maxAge: nat)
    returns (reply: Reply, now: int)
    requires Complete(r)
    ensures reply.Served? && reply.response.request == r && reply.cacheAge == window
    ensures now - reply.cacheAge - reply.response.readAt == latency
    ensures reply.response.snapshot.Some? && reply.response.snapshot.value.sources == [TICK, TICK, TICK]
    ensures now - TICK.ts == window + latency + maxSnapshotAge + maxAge
  {
    hide KeyOf, Complete, WellBacked, Ladder.SnapshotAt, Ladder.Valid, EntryFor, PendingOk;
    var ladder := AgedLadder(maxAge, maxSnapshotAge);
    var server := new PricingServer(ladder, 0, window, window);
    now := maxAge + maxSnapshotAge;
    var decision := server.Begin(r, now);
    now := now + latency;
    var response := server.Finish(decision.pending, 1.0, now);
    now := now + window;
    decision := server.Begin(r, now);
    reply := decision.reply;
  }
}
