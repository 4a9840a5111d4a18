/** The volatility ladder of src/deribitIvLadder.ts: subscriptions, ticks and snapshots over them. */
module IvLadder {
  import opened Options
  import opened Reals
  import opened LadderProtocol

  datatype IvEntry = IvEntry(markIv: real, markPrice: real, askPrice: real, bidPrice: real, ts: int)

  datatype Leg = Leg(
    tenorDays: real,
    floorPct: real,
    instrument: string,
    strike: real,
    markIv: Option<real>,
    markPrice: Option<real>
  )

  // sources are the ticks a snapshot was computed from; the program does not keep them.
  datatype Snapshot = Snapshot(
    baseIv: real,
    hedgeIv: real,
    ts: int,
    instruments: seq<string>,
    legs: seq<Leg>,
    spot: real,
    sources: seq<IvEntry>
  )

  function Instruments(legs: seq<Leg>): (instruments: seq<string>)
    ensures |instruments| == |legs| && forall i :: 0 <= i < |legs| ==> instruments[i] == legs[i].instrument
  {
    if |legs| == 0 then [] else [legs[0].instrument] + Instruments(legs[1..])
  }

  predicate Recent(ticks: map<string, IvEntry>, instrument: string, now: int, maxAge: int) {
    instrument in ticks && now - ticks[instrument].ts <= maxAge
  }

  function RecentEntries(instruments: seq<string>, ticks: map<string, IvEntry>, now: int, maxAge: int)
    : (entries: seq<IvEntry>)
    ensures forall e :: e in entries ==> now - e.ts <= maxAge
    ensures forall x :: x in instruments && Recent(ticks, x, now, maxAge) ==> ticks[x] in entries
  {
    if |instruments| == 0 then []
    else
      assert instruments == [instruments[0]] + instruments[1..];
      (if Recent(ticks, instruments[0], now, maxAge) then [ticks[instruments[0]]] else [])
      + RecentEntries(instruments[1..], ticks, now, maxAge)
  }

  function Ivs(entries: seq<IvEntry>): (ivs: seq<real>)
    ensures |ivs| == |entries|
  {
    if |entries| == 0 then [] else [entries[0].markIv] + Ivs(entries[1..])
  }

  /** The library's numeric sort. */
  function Insert(sorted: seq<real>, x: real): seq<real> {
    if |sorted| == 0 || sorted[|sorted| - 1] <= x then sorted + [x]
    else Insert(sorted[..|sorted| - 1], x) + [sorted[|sorted| - 1]]
  }

  function Sort(values: seq<real>): (sorted: seq<real>)
    ensures |sorted| == |values|
  {
    if |values| == 0 then []
    else
      InsertLength(Sort(values[..|values| - 1]), values[|values| - 1]);
      Insert(Sort(values[..|values| - 1]), values[|values| - 1])
  }

  lemma {:induction false} InsertLength(sorted: seq<real>, x: real)
    ensures |Insert(sorted, x)| == |sorted| + 1
  {
    if |sorted| > 0 {
      InsertLength(sorted[..|sorted| - 1], x);
    }
  }

  function MiddleOf(sorted: seq<real>): real
    requires |sorted| > 0
  {
    var mid := |sorted| / 2;
    if |sorted| % 2 == 0 then (sorted[mid - 1] + sorted[mid]) / 2.0 else sorted[mid]
  }

  function CountAtMost(values: seq<real>, bound: real): nat {
    if |values| == 0 then 0
    else CountAtMost(values[..|values| - 1], bound) + if values[|values| - 1] <= bound then 1 else 0
  }

  function CountAtLeast(values: seq<real>, bound: real): nat {
    if |values| == 0 then 0
    else CountAtLeast(values[..|values| - 1], bound) + if values[|values| - 1] >= bound then 1 else 0
  }

  /** At least half of the values are at most m, and at least half are at least m. */
  predicate IsMedian(values: seq<real>, m: real) {
    2 * CountAtMost(values, m) >= |values| && 2 * CountAtLeast(values, m) >= |values|
  }

  ghost predicate Ascending(values: seq<real>) {
    forall i, j :: 0 <= i <= j < |values| ==> values[i] <= values[j]
  }

  lemma {:induction false} InsertAscending(sorted: seq<real>, x: real)
    requires Ascending(sorted)
    ensures var inserted := Insert(sorted, x);
            && Ascending(inserted) && |inserted| == |sorted| + 1
            && (inserted[|sorted|] == x || (|sorted| > 0 && inserted[|sorted|] == sorted[|sorted| - 1]))
  {
    if |sorted| > 0 && sorted[|sorted| - 1] > x {
      InsertAscending(sorted[..|sorted| - 1], x);
    }
  }

  lemma {:induction false} InsertKeepsCounts(sorted: seq<real>, x: real, bound: real)
    ensures CountAtMost(Insert(sorted, x), bound) == CountAtMost(sorted, bound) + if x <= bound then 1 else 0
    ensures CountAtLeast(Insert(sorted, x), bound) == CountAtLeast(sorted, bound) + if x >= bound then 1 else 0
  {
    if |sorted| == 0 || sorted[|sorted| - 1] <= x {
      assert (sorted + [x])[..|sorted|] == sorted;
    } else {
      var init, last := sorted[..|sorted| - 1], sorted[|sorted| - 1];
      InsertKeepsCounts(init, x, bound);
      assert (Insert(init, x) + [last])[..|Insert(init, x)|] == Insert(init, x);
    }
  }

  lemma {:induction false} SortAscends(values: seq<real>, bound: real)
    ensures Ascending(Sort(values))
    ensures CountAtMost(Sort(values), bound) == CountAtMost(values, bound)
    ensures CountAtLeast(Sort(values), bound) == CountAtLeast(values, bound)
  {
    hide Insert;
    if |values| > 0 {
      var init, last := values[..|values| - 1], values[|values| - 1];
      SortAscends(init, bound);
      InsertAscending(Sort(init), last);
      InsertKeepsCounts(Sort(init), last, bound);
    }
  }

  lemma {:induction false} CountsOfParts(values: seq<real>, bound: real, low: nat, high: nat)
    requires low <= |values| && high <= |values|
    requires forall i :: 0 <= i < low ==> values[i] <= bound
    requires forall i :: high <= i < |values| ==> values[i] >= bound
    ensures CountAtMost(values, bound) >= low && CountAtLeast(values, bound) >= |values| - high
  {
    if |values| > 0 {
      var n := |values| - 1;
      CountsOfParts(values[..n], bound, if low <= n then low else n, if high <= n then high else n);
    }
  }

  /** The middle of the sorted values is a median of the values, and lies between their smallest and largest. */
  lemma MiddleIsMedian(values: seq<real>)
    requires |values| > 0
    ensures var sorted := Sort(values);
            IsMedian(values, MiddleOf(sorted)) && sorted[0] <= MiddleOf(sorted) <= sorted[|sorted| - 1]
  {
    hide Sort, CountAtMost, CountAtLeast;
    var sorted, mid := Sort(values), |values| / 2;
    var m := MiddleOf(sorted);
    SortAscends(values, m);
    assert sorted[0] <= sorted[mid] <= sorted[|sorted| - 1];
    if |values| % 2 == 0 {
      assert sorted[0] <= sorted[mid - 1] <= sorted[mid];
      CountsOfParts(sorted, m, mid, mid);
    } else {
      CountsOfParts(sorted, m, mid + 1, mid);
    }
  }

  lemma {:induction false} CountAll(values: seq<real>, bound: real)
    ensures CountAtMost(values, bound) <= |values| && CountAtLeast(values, bound) <= |values|
    ensures CountAtMost(values, bound) == |values| ==> forall i :: 0 <= i < |values| ==> values[i] <= bound
    ensures CountAtLeast(values, bound) == |values| ==> forall i :: 0 <= i < |values| ==> values[i] >= bound
  {
    if |values| > 0 {
      CountAll(values[..|values| - 1], bound);
    }
  }

  lemma {:induction false} CountWitness(values: seq<real>, bound: real)
    ensures CountAtMost(values, bound) > 0 ==> exists i :: 0 <= i < |values| && values[i] <= bound
    ensures CountAtLeast(values, bound) > 0 ==> exists i :: 0 <= i < |values| && values[i] >= bound
  {
    if |values| > 0 {
      var n := |values| - 1;
      CountWitness(values[..n], bound);
      if CountAtMost(values[..n], bound) > 0 {
        var i :| 0 <= i < n && values[..n][i] <= bound;
        assert values[i] <= bound;
      }
      if CountAtLeast(values[..n], bound) > 0 {
        var i :| 0 <= i < n && values[..n][i] >= bound;
        assert values[i] >= bound;
      }
    }
  }

  /** The last of the sorted values is their maximum and the first their minimum. */
  lemma SortedEnds(values: seq<real>)
    requires |values| > 0
    ensures var sorted := Sort(values);
            && (forall i :: 0 <= i < |values| ==> sorted[0] <= values[i] <= sorted[|sorted| - 1])
            && (exists i :: 0 <= i < |values| && values[i] >= sorted[|sorted| - 1])
  {
    hide Sort, CountAtMost, CountAtLeast;
    var sorted := Sort(values);
    var least, greatest := sorted[0], sorted[|sorted| - 1];
    SortAscends(values, greatest);
    CountsOfParts(sorted, greatest, |sorted|, |sorted| - 1);
    CountAll(values, greatest);
    SortAscends(values, least);
    CountsOfParts(sorted, least, 0, 0);
    CountAll(values, least);
    CountAll(sorted, greatest);
    CountAll(sorted, least);
    CountWitness(values, greatest);
  }

  /**
   * min <= baseIv <= hedgeIv = max over at least three ticks, baseIv a median of them; the ticks were no older than
   * maxAge at the snapshot, and the volatility and the price of every leg with a mark come from one of them, the price
   * being its ask, or its mark where there is no ask, plus the buffer.
   */
  ghost predicate WellBacked(s: Snapshot, maxAge: int, bufferPct: real) {
    var ivs := Ivs(s.sources);
    && |s.sources| >= 3
    && IsMedian(ivs, s.baseIv) && s.baseIv <= s.hedgeIv
    && s.hedgeIv in ivs && (forall i :: 0 <= i < |ivs| ==> ivs[i] <= s.hedgeIv)
    && (exists i :: 0 <= i < |ivs| && ivs[i] <= s.baseIv)
    && (forall e :: e in s.sources ==> s.ts - e.ts <= maxAge)
    && (forall leg :: leg in s.legs ==> LegBacked(leg, s.sources, bufferPct))
  }

  /** The ask, or the mark where there is no ask, plus the buffer. */
  function BufferedPrice(e: IvEntry, bufferPct: real): real {
    (if e.askPrice > 0.0 then e.askPrice else e.markPrice) * (1.0 + bufferPct)
  }

  /** A leg has neither volatility nor price, or both from one tick. */
  ghost predicate LegBacked(leg: Leg, sources: seq<IvEntry>, bufferPct: real) {
    if leg.markIv.None? then leg.markPrice.None?
    else
      exists e :: e in sources && leg.markIv == Some(e.markIv)
        && leg.markPrice == Some(BufferedPrice(e, bufferPct))
  }

  function PricedLeg(leg: Leg, ticks: map<string, IvEntry>, now: int, maxAge: int, bufferPct: real): Leg {
    if !Recent(ticks, leg.instrument, now, maxAge) then leg.(markIv := None, markPrice := None)
    else
      var entry := ticks[leg.instrument];
      leg.(markIv := Some(entry.markIv), markPrice := Some(BufferedPrice(entry, bufferPct)))
  }

  function PricedLegs(legs: seq<Leg>, ticks: map<string, IvEntry>, now: int, maxAge: int, bufferPct: real)
    : (priced: seq<Leg>)
    ensures |priced| == |legs|
    ensures forall i :: 0 <= i < |legs| ==> priced[i] == PricedLeg(legs[i], ticks, now, maxAge, bufferPct)
  {
    if |legs| == 0 then []
    else [PricedLeg(legs[0], ticks, now, maxAge, bufferPct)] + PricedLegs(legs[1..], ticks, now, maxAge, bufferPct)
  }

  function SnapshotOf(legs: seq<Leg>, ticks: map<string, IvEntry>, spot: real, now: int, maxAge: int, bufferPct: real)
    : Snapshot
    requires |RecentEntries(Instruments(legs), ticks, now, maxAge)| >= 3
  {
    var sources := RecentEntries(Instruments(legs), ticks, now, maxAge);
    var sorted := Sort(Ivs(sources));
    Snapshot(MiddleOf(sorted), sorted[|sorted| - 1], now, Instruments(legs),
             PricedLegs(legs, ticks, now, maxAge, bufferPct), spot, sources)
  }

  lemma SnapshotIsWellBacked(legs: seq<Leg>, ticks: map<string, IvEntry>, spot: real, now: int, maxAge: int,
                             bufferPct: real)
    requires |RecentEntries(Instruments(legs), ticks, now, maxAge)| >= 3
    ensures WellBacked(SnapshotOf(legs, ticks, spot, now, maxAge, bufferPct), maxAge, bufferPct)
  {
    hide Sort, MiddleOf, CountAtMost, CountAtLeast, Ivs, LegBacked;
    LegsBacked(legs, ticks, spot, now, maxAge, bufferPct);
    var s := SnapshotOf(legs, ticks, spot, now, maxAge, bufferPct);
    var ivs := Ivs(s.sources);
    MiddleIsMedian(ivs);
    SortedEnds(ivs);
    CountWitness(ivs, s.baseIv);
  }

  lemma PricedLegBacked(leg: Leg, ticks: map<string, IvEntry>, now: int, maxAge: int, bufferPct: real,
                        sources: seq<IvEntry>)
    requires Recent(ticks, leg.instrument, now, maxAge) ==> ticks[leg.instrument] in sources
    ensures LegBacked(PricedLeg(leg, ticks, now, maxAge, bufferPct), sources, bufferPct)
  {
    hide BufferedPrice;
  }

  lemma LegsBacked(legs: seq<Leg>, ticks: map<string, IvEntry>, spot: real, now: int, maxAge: int, bufferPct: real)
    requires |RecentEntries(Instruments(legs), ticks, now, maxAge)| >= 3
    ensures var s := SnapshotOf(legs, ticks, spot, now, maxAge, bufferPct);
            forall leg :: leg in s.legs ==> LegBacked(leg, s.sources, bufferPct)
  {
    hide Sort, MiddleOf, Ivs, LegBacked, PricedLeg;
    var s := SnapshotOf(legs, ticks, spot, now, maxAge, bufferPct);
    forall leg | leg in s.legs
      ensures LegBacked(leg, s.sources, bufferPct)
    {
      var i :| 0 <= i < |legs| && s.legs[i] == leg;
      var x := legs[i].instrument;
      assert Instruments(legs)[i] == x && x in Instruments(legs);
      PricedLegBacked(legs[i], ticks, now, maxAge, bufferPct, s.sources);
    }
  }

  // ---------------------------------------------------------------------------------------------
  // A snapshot over the ladder and the ticks stored.

  predicate Buffered(price: real, bufferPct: real, buffered: real) {
    buffered == price + price * bufferPct
  }

  /** The tick of the leg's own instrument when it is recent enough, with its buffered price; otherwise neither. */
  predicate LegTaken(leg: Leg, taken: Leg, ticks: map<string, IvEntry>, now: int, maxAge: int, bufferPct: real) {
    && taken.(markIv := None, markPrice := None) == leg.(markIv := None, markPrice := None)
    && if leg.instrument in ticks && now - ticks[leg.instrument].ts <= maxAge then
         var e := ticks[leg.instrument];
         && taken.markIv == Some(e.markIv)
         && taken.markPrice.Some?
         && (e.askPrice > 0.0 ==> Buffered(e.askPrice, bufferPct, taken.markPrice.value))
         && (e.askPrice <= 0.0 ==> Buffered(e.markPrice, bufferPct, taken.markPrice.value))
       else taken.markIv.None? && taken.markPrice.None?
  }

  ghost predicate Increasing(at: seq<nat>) {
    forall i, j :: 0 <= i < j < |at| ==> at[i] < at[j]
  }

  /** at lists exactly the instruments with a recent tick, in order. */
  ghost predicate RecentAt(instruments: seq<string>, ticks: map<string, IvEntry>, now: int, maxAge: int, at: seq<nat>) {
    && Increasing(at) && (forall j :: 0 <= j < |at| ==> at[j] < |instruments|)
    && forall i :: 0 <= i < |instruments| ==>
         (i in at <==> instruments[i] in ticks && now - ticks[instruments[i]].ts <= maxAge)
  }

  ghost predicate TicksAt(instruments: seq<string>, ticks: map<string, IvEntry>, at: seq<nat>, entries: seq<IvEntry>) {
    |entries| == |at| && forall j :: 0 <= j < |at| ==>
      at[j] < |instruments| && instruments[at[j]] in ticks && entries[j] == ticks[instruments[at[j]]]
  }

  function Shifted(at: seq<nat>): (shifted: seq<nat>)
    ensures |shifted| == |at| && forall j :: 0 <= j < |at| ==> shifted[j] == at[j] + 1
  {
    if |at| == 0 then [] else [at[0] + 1] + Shifted(at[1..])
  }

  function Prefixed(recent: bool, rest: seq<nat>): seq<nat> {
    (if recent then [0] else []) + Shifted(rest)
  }

  lemma PrefixedAt(first: bool, rest: seq<nat>, j: nat)
    requires j < |Prefixed(first, rest)|
    ensures |Prefixed(first, rest)| == |rest| + if first then 1 else 0
    ensures Prefixed(first, rest)[j]
         == if first then (if j == 0 then 0 else rest[j - 1] + 1) else rest[j] + 1
  {
  }

  lemma PrefixedIncreasing(first: bool, rest: seq<nat>)
    requires Increasing(rest)
    ensures Increasing(Prefixed(first, rest))
  {
  }

  lemma RecentAtStep(instruments: seq<string>, ticks: map<string, IvEntry>, now: int, maxAge: int, rest: seq<nat>)
    requires |instruments| > 0 && RecentAt(instruments[1..], ticks, now, maxAge, rest)
    ensures RecentAt(instruments, ticks, now, maxAge, Prefixed(Recent(ticks, instruments[0], now, maxAge), rest))
  {
    var tail, first := instruments[1..], Recent(ticks, instruments[0], now, maxAge);
    var at := Prefixed(first, rest);
    forall i | 0 <= i < |instruments|
      ensures i in at <==> instruments[i] in ticks && now - ticks[instruments[i]].ts <= maxAge
    {
      PrefixedHas(first, rest, i);
      if i > 0 {
        assert instruments[i] == tail[i - 1];
      }
    }
  }

  lemma PrefixedHas(first: bool, rest: seq<nat>, i: nat)
    ensures i in Prefixed(first, rest) <==> if i == 0 then first else i - 1 in rest
  {
    if i > 0 {
      ShiftedHas(rest, i);
    }
  }

  lemma TicksAtStep(instruments: seq<string>, ticks: map<string, IvEntry>, first: bool, rest: seq<nat>,
                    entries: seq<IvEntry>)
    requires |instruments| > 0 && (first ==> instruments[0] in ticks) && TicksAt(instruments[1..], ticks, rest, entries)
    ensures TicksAt(instruments, ticks, Prefixed(first, rest),
                    (if first then [ticks[instruments[0]]] else []) + entries)
  {
  }

  /** The entries are exactly the recent ticks of the instruments, in ladder order. */
  lemma {:induction false} EntriesAreRecent(instruments: seq<string>, ticks: map<string, IvEntry>, now: int,
                                            maxAge: int)
    returns (at: seq<nat>)
    ensures RecentAt(instruments, ticks, now, maxAge, at)
    ensures TicksAt(instruments, ticks, at, RecentEntries(instruments, ticks, now, maxAge))
  {
    if |instruments| == 0 {
      at := [];
    } else {
      var first := Recent(ticks, instruments[0], now, maxAge);
      var tail := RecentEntries(instruments[1..], ticks, now, maxAge);
      assert RecentEntries(instruments, ticks, now, maxAge) == (if first then [ticks[instruments[0]]] else []) + tail;
      hide RecentAt, TicksAt, RecentEntries, Prefixed;
      var rest := EntriesAreRecent(instruments[1..], ticks, now, maxAge);
      at := Prefixed(first, rest);
      RecentAtStep(instruments, ticks, now, maxAge, rest);
      TicksAtStep(instruments, ticks, first, rest, tail);
    }
  }

  lemma ShiftedHas(at: seq<nat>, i: nat)
    requires i > 0
    ensures i in Shifted(at) <==> i - 1 in at
  {
    if i - 1 in at {
      var j :| 0 <= j < |at| && at[j] == i - 1;
      assert Shifted(at)[j] == i;
    }
  }

  /** r of the values are passed before x: at least r + 1 are at most x, and all but r at least x. */
  predicate IsRank(values: seq<real>, r: nat, x: real)
    requires r < |values|
  {
    CountAtMost(values, x) >= r + 1 && CountAtLeast(values, x) >= |values| - r
  }

  lemma RankOfSorted(values: seq<real>, r: nat)
    requires r < |values|
    ensures IsRank(values, r, Sort(values)[r])
  {
    hide Sort, CountAtMost, CountAtLeast;
    var sorted := Sort(values);
    SortAscends(values, sorted[r]);
    CountsOfParts(sorted, sorted[r], r + 1, r);
  }

  /** The mean of the two middle values, which are one and the same when their number is odd. */
  ghost predicate IsMiddle(values: seq<real>, m: real) {
    exists x, y :: AreMiddle(values, x, y) && m == (x + y) / 2.0
  }

  predicate AreMiddle(values: seq<real>, x: real, y: real) {
    |values| > 0 && IsRank(values, (|values| - 1) / 2, x) && IsRank(values, |values| / 2, y)
  }

  lemma MiddleIsMiddle(values: seq<real>)
    requires |values| > 0
    ensures IsMiddle(values, MiddleOf(Sort(values)))
  {
    hide Sort, IsRank;
    var sorted, n := Sort(values), |values|;
    RankOfSorted(values, (n - 1) / 2);
    RankOfSorted(values, n / 2);
    assert AreMiddle(values, sorted[(n - 1) / 2], sorted[n / 2]);
    assert MiddleOf(sorted) == (sorted[(n - 1) / 2] + sorted[n / 2]) / 2.0;
  }

  /** Everything a snapshot holds, over the ladder and the ticks it is taken from. */
  ghost predicate TakenFrom(s: Snapshot, legs: seq<Leg>, ticks: map<string, IvEntry>, spot: real, now: int, maxAge: int,
                            bufferPct: real) {
    && s.ts == now && s.spot == spot && s.instruments == Instruments(legs) && |s.legs| == |legs|
    && (forall i :: 0 <= i < |legs| ==> LegTaken(legs[i], s.legs[i], ticks, now, maxAge, bufferPct))
    && (exists at :: RecentAt(Instruments(legs), ticks, now, maxAge, at)
          && TicksAt(Instruments(legs), ticks, at, s.sources))
    && IsMiddle(Ivs(s.sources), s.baseIv)
    && WellBacked(s, maxAge, bufferPct)
  }

  lemma PricedLegTaken(leg: Leg, ticks: map<string, IvEntry>, now: int, maxAge: int, bufferPct: real)
    ensures LegTaken(leg, PricedLeg(leg, ticks, now, maxAge, bufferPct), ticks, now, maxAge, bufferPct)
  {
    hide Buffered, BufferedPrice;
    if leg.instrument in ticks {
      BufferAdds(ticks[leg.instrument], bufferPct);
    }
  }

  lemma BufferAdds(e: IvEntry, bufferPct: real)
    ensures e.askPrice > 0.0 ==> Buffered(e.askPrice, bufferPct, BufferedPrice(e, bufferPct))
    ensures e.askPrice <= 0.0 ==> Buffered(e.markPrice, bufferPct, BufferedPrice(e, bufferPct))
  {
    if e.askPrice > 0.0 {
      assert BufferedPrice(e, bufferPct) == e.askPrice * (1.0 + bufferPct);
    } else {
      assert BufferedPrice(e, bufferPct) == e.markPrice * (1.0 + bufferPct);
    }
  }

  lemma SnapshotIsTaken(legs: seq<Leg>, ticks: map<string, IvEntry>, spot: real, now: int, maxAge: int, bufferPct: real)
    requires |RecentEntries(Instruments(legs), ticks, now, maxAge)| >= 3
    ensures TakenFrom(SnapshotOf(legs, ticks, spot, now, maxAge, bufferPct), legs, ticks, spot, now, maxAge, bufferPct)
  {
    hide Sort, Ivs, MiddleOf, IsMiddle, WellBacked, RecentAt, TicksAt, LegTaken, PricedLeg, RecentEntries, Instruments;
    SnapshotIsWellBacked(legs, ticks, spot, now, maxAge, bufferPct);
    var at := EntriesAreRecent(Instruments(legs), ticks, now, maxAge);
    MiddleIsMiddle(Ivs(RecentEntries(Instruments(legs), ticks, now, maxAge)));
    forall i | 0 <= i < |legs|
      ensures LegTaken(legs[i], SnapshotOf(legs, ticks, spot, now, maxAge, bufferPct).legs[i], ticks, now, maxAge,
                       bufferPct)
    {
      PricedLegTaken(legs[i], ticks, now, maxAge, bufferPct);
    }
  }

  predicate ThreeAt(legs: seq<Leg>, ticks: map<string, IvEntry>, now: int, maxAge: int, i: nat, j: nat, k: nat) {
    && i < j < k < |legs|
    && Recent(ticks, legs[i].instrument, now, maxAge) && Recent(ticks, legs[j].instrument, now, maxAge)
    && Recent(ticks, legs[k].instrument, now, maxAge)
  }

  /** Three of the ladder's entries have a recent tick. */
  ghost predicate ThreeRecent(legs: seq<Leg>, ticks: map<string, IvEntry>, now: int, maxAge: int) {
    exists i, j, k :: ThreeAt(legs, ticks, now, maxAge, i, j, k)
  }

  lemma ThreeRecentIff(legs: seq<Leg>, ticks: map<string, IvEntry>, now: int, maxAge: int)
    ensures ThreeRecent(legs, ticks, now, maxAge) <==> |RecentEntries(Instruments(legs), ticks, now, maxAge)| >= 3
  {
    var names := Instruments(legs);
    var at := EntriesAreRecent(names, ticks, now, maxAge);
    hide RecentEntries, Instruments, ThreeRecent;
    if |at| >= 3 {
      ThreeFirst(legs, ticks, now, maxAge, at);
    }
    if ThreeRecent(legs, ticks, now, maxAge) {
      ThreeListed(legs, ticks, now, maxAge, at);
    }
  }

  lemma ThreeFirst(legs: seq<Leg>, ticks: map<string, IvEntry>, now: int, maxAge: int, at: seq<nat>)
    requires RecentAt(Instruments(legs), ticks, now, maxAge, at) && |at| >= 3
    ensures ThreeRecent(legs, ticks, now, maxAge)
  {
    hide RecentAt, Recent, Instruments;
    FirstThreeInOrder(Instruments(legs), ticks, now, maxAge, at);
    ListedIsRecent(legs, ticks, now, maxAge, at, 0);
    ListedIsRecent(legs, ticks, now, maxAge, at, 1);
    ListedIsRecent(legs, ticks, now, maxAge, at, 2);
    assert ThreeAt(legs, ticks, now, maxAge, at[0], at[1], at[2]);
  }

  lemma FirstThreeInOrder(instruments: seq<string>, ticks: map<string, IvEntry>, now: int, maxAge: int, at: seq<nat>)
    requires RecentAt(instruments, ticks, now, maxAge, at) && |at| >= 3
    ensures at[0] < at[1] < at[2]
  {
  }

  lemma ListedIsRecent(legs: seq<Leg>, ticks: map<string, IvEntry>, now: int, maxAge: int, at: seq<nat>, n: nat)
    requires RecentAt(Instruments(legs), ticks, now, maxAge, at) && n < |at|
    ensures at[n] < |legs| && Recent(ticks, legs[at[n]].instrument, now, maxAge)
  {
    hide Instruments;
    var names, i := Instruments(legs), at[n];
    assert i in at;
    assert names[i] == legs[i].instrument;
  }

  lemma ThreeListed(legs: seq<Leg>, ticks: map<string, IvEntry>, now: int, maxAge: int, at: seq<nat>)
    requires RecentAt(Instruments(legs), ticks, now, maxAge, at) && ThreeRecent(legs, ticks, now, maxAge)
    ensures |at| >= 3
  {
    var i, j, k :| ThreeAt(legs, ticks, now, maxAge, i, j, k);
    hide RecentAt, Recent;
    Listed(legs, ticks, now, maxAge, at, i);
    Listed(legs, ticks, now, maxAge, at, j);
    Listed(legs, ticks, now, maxAge, at, k);
    ThreeIn(at, i, j, k);
  }

  lemma Listed(legs: seq<Leg>, ticks: map<string, IvEntry>, now: int, maxAge: int, at: seq<nat>, i: nat)
    requires RecentAt(Instruments(legs), ticks, now, maxAge, at)
    requires i < |legs| && Recent(ticks, legs[i].instrument, now, maxAge)
    ensures i in at
  {
    hide Instruments;
    assert Instruments(legs)[i] == legs[i].instrument;
  }

  lemma ThreeIn(at: seq<nat>, i: nat, j: nat, k: nat)
    requires i in at && j in at && k in at && i < j < k
    ensures |at| >= 3
  {
    var a, b, c :| 0 <= a < |at| && 0 <= b < |at| && 0 <= c < |at| && at[a] == i && at[b] == j && at[c] == k;
    assert a != b && b != c && a != c;
  }

  // A ticker message: the channel and the figures it carries, zero where missing or not finite.
  datatype Tick = Tick(channel: string, markIv: real, markPrice: real, bidPrice: real, askPrice: real)

  function Larger(a: int, b: int): int {
    if a >= b then a else b
  }

  class Ladder {
    const maxAgeMs: int
    const maxSnapshotAgeMs: int
    const priceBufferPct: real

    var socket: Socket
    var ladderInstruments: seq<string>
    var ladderLegs: seq<Leg>
    var ivByInstrument: map<string, IvEntry>
    var lastSnapshot: Option<Snapshot>
    var lastSpot: real
    var reconnectPending: bool
    ghost var wire: seq<Message>

    ghost function Protocol(): State
      reads this
    {
      State(socket, ladderInstruments, wire, reconnectPending)
    }

    ghost predicate Valid()
      reads this
    {
      && InSync(Protocol())
      && ladderInstruments == Instruments(ladderLegs)
      && (lastSnapshot.Some? ==> WellBacked(lastSnapshot.value, maxAgeMs, priceBufferPct))
    }

    constructor (maxAgeMs: int, maxSnapshotAgeMs: int, priceBufferPct: real)
      ensures Valid() && Protocol() == START && lastSnapshot == None
      ensures this.maxAgeMs == maxAgeMs && this.maxSnapshotAgeMs == maxSnapshotAgeMs
      ensures this.priceBufferPct == priceBufferPct
    {
      this.maxAgeMs, this.maxSnapshotAgeMs, this.priceBufferPct := maxAgeMs, maxSnapshotAgeMs, priceBufferPct;
      socket, ladderInstruments, ladderLegs, ivByInstrument := NoSocket, [], [], map[];
      lastSnapshot, lastSpot, reconnectPending, wire := None, 0.0, false, [];
    }

    method SendMessage(m: Message)
      modifies this`wire
      ensures Protocol() == Send(old(Protocol()), m)
    {
      if |m.channels| == 0 || !socket.Open? { return; }
      wire := wire + [m];
    }

    method UpdateSubscriptions(nextLegs: seq<Leg>)
      requires Valid()
      modifies this`wire, this`ladderInstruments, this`ladderLegs
      ensures Valid() && Protocol() == Next(old(Protocol()), Refresh(Instruments(nextLegs))) && ladderLegs == nextLegs
    {
      hide Without, InSync;
      ghost var before := Protocol();
      var next := Instruments(nextLegs);
      var add, remove := Without(next, ladderInstruments), Without(ladderInstruments, next);
      ladderInstruments, ladderLegs := next, nextLegs;
      SendMessage(Subscribe(Channels(add)));
      SendMessage(Unsubscribe(Channels(remove)));
      NextKeepsInSync(before, Refresh(next));
    }

    /** built is None when building the ladder failed; a spot that was read first is kept even then. */
    method RefreshLadder(spot: Option<real>, built: Option<seq<Leg>>)
      requires Valid()
      modifies this`wire, this`ladderInstruments, this`ladderLegs, this`lastSpot
      ensures Valid() && lastSpot == (if spot.Some? then spot.value else old(lastSpot))
      ensures built.None? ==> Protocol() == old(Protocol())
      ensures built.Some? ==> Protocol() == Next(old(Protocol()), Refresh(Instruments(built.value)))
    {
      if spot.Some? { lastSpot := spot.value; }
      if built.Some? { UpdateSubscriptions(built.value); }
    }

    method ConnectSocket()
      requires Valid()
      modifies this`socket, this`wire
      ensures Valid() && Protocol() == Next(old(Protocol()), Connect)
    {
      NextKeepsInSync(Protocol(), Connect);
      socket, wire := Connecting, [];
    }

    method OnOpen()
      requires Valid()
      modifies this`socket, this`wire
      ensures Valid() && Protocol() == Next(old(Protocol()), Opened)
    {
      hide InSync, WellBacked, Instruments;
      NextKeepsInSync(Protocol(), Opened);
      if !socket.Connecting? { return; }
      socket := Open;
      SendMessage(Subscribe(Channels(ladderInstruments)));
    }

    /** The closing handshake begins: the ready state changes before any handler runs. */
    method CloseStarts()
      requires Valid()
      modifies this`socket
      ensures Valid() && Protocol() == Next(old(Protocol()), LadderProtocol.CloseStarts)
    {
      if socket.Connecting? || socket.Open? { socket := Closing; }
    }

    method OnClose()
      requires Valid()
      modifies this`socket, this`reconnectPending
      ensures Valid() && Protocol() == Next(old(Protocol()), Dropped)
    {
      if socket.NoSocket? { return; }
      socket, reconnectPending := Closed, true;
    }

    method OnError()
      requires Valid()
      modifies this`reconnectPending
      ensures Valid() && Protocol() == Next(old(Protocol()), Failed)
    {
      if socket.NoSocket? { return; }
      reconnectPending := true;
    }

    method OnReconnectTimer()
      requires Valid()
      modifies this`socket, this`wire, this`reconnectPending
      ensures Valid() && Protocol() == Next(old(Protocol()), TimerFires)
    {
      if !reconnectPending { return; }
      reconnectPending := false;
      socket, wire := Connecting, [];
    }

    /** A tick of a positive volatility and price is stored under the instrument its channel names. */
    method OnMessage(t: Tick, now: int)
      requires Valid()
      modifies this`ivByInstrument
      ensures Valid()
      ensures var instrument := InstrumentOf(t.channel);
              ivByInstrument ==
                if |instrument| == 0 || t.markIv <= 0.0 || t.markPrice <= 0.0 then old(ivByInstrument)
                else old(ivByInstrument)[instrument[0] := IvEntry(t.markIv, t.markPrice, t.askPrice, t.bidPrice, now)]
    {
      var instrument := InstrumentOf(t.channel);
      if |instrument| == 0 { return; }
      if t.markIv <= 0.0 || t.markPrice <= 0.0 { return; }
      ivByInstrument := ivByInstrument[instrument[0] := IvEntry(t.markIv, t.markPrice, t.askPrice, t.bidPrice, now)];
    }

    /** What a snapshot request answers now: a new snapshot, else the last one while it is young enough. */
    ghost function SnapshotAt(now: int): Option<Snapshot>
      reads this
    {
      if |RecentEntries(Instruments(ladderLegs), ivByInstrument, now, maxAgeMs)| >= 3 then
        Some(SnapshotOf(ladderLegs, ivByInstrument, lastSpot, now, maxAgeMs, priceBufferPct))
      else if lastSnapshot.Some? && now - lastSnapshot.value.ts <= maxSnapshotAgeMs then lastSnapshot
      else None
    }

    method GetSnapshot(now: int) returns (r: Option<Snapshot>)
      requires Valid()
      modifies this`lastSnapshot
      ensures Valid()
      ensures r == old(SnapshotAt(now)) && lastSnapshot == if r.Some? then r else old(lastSnapshot)
      ensures ThreeRecent(ladderLegs, ivByInstrument, now, maxAgeMs) ==>
                r.Some? && TakenFrom(r.value, ladderLegs, ivByInstrument, lastSpot, now, maxAgeMs, priceBufferPct)
      ensures !ThreeRecent(ladderLegs, ivByInstrument, now, maxAgeMs) ==>
                lastSnapshot == old(lastSnapshot)
                && (r.Some? <==> lastSnapshot.Some? && now - lastSnapshot.value.ts <= maxSnapshotAgeMs)
      ensures r.Some? ==>
                WellBacked(r.value, maxAgeMs, priceBufferPct) && now - r.value.ts <= Larger(0, maxSnapshotAgeMs)
    {
      hide ThreeRecent, TakenFrom, WellBacked, RecentEntries, Instruments, InSync, PricedLegs, Sort, MiddleOf, Ivs;
      ThreeRecentIff(ladderLegs, ivByInstrument, now, maxAgeMs);
      var sources := RecentEntries(ladderInstruments, ivByInstrument, now, maxAgeMs);
      if |sources| < 3 {
        if lastSnapshot.Some? && now - lastSnapshot.value.ts <= maxSnapshotAgeMs { return lastSnapshot; }
        return None;
      }
      SnapshotIsWellBacked(ladderLegs, ivByInstrument, lastSpot, now, maxAgeMs, priceBufferPct);
      SnapshotIsTaken(ladderLegs, ivByInstrument, lastSpot, now, maxAgeMs, priceBufferPct);
      lastSnapshot := Some(SnapshotOf(ladderLegs, ivByInstrument, lastSpot, now, maxAgeMs, priceBufferPct));
      r := lastSnapshot;
    }
  }
}
