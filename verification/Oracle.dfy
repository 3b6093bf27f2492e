/** The oracle's state: last observation of every feed, publisher keys and the
    cached aggregate. */
module Oracle {
  import opened Machine
  import opened OrderedMaps
  import opened Aggregation
  import Sorting

  type FeedId = U32
  type PublisherKey = nat
  type Signature = nat

  datatype PriceObservation = PriceObservation(feed: FeedId, price: U64, timestamp: U64, signature: Signature)

  datatype FeedRecord = FeedRecord(lastPrice: U64, lastTimestamp: U64)

  datatype AggregatedPrice = AggregatedPrice(index: U64, computedAt: U64, feedsUsed: U8)

  datatype ObservationError =
    | Stale(observationTs: U64, now: U64, window: U64)
    | FromFuture(observationTs: U64, now: U64)
    | ZeroPrice
    | UnknownFeed(feed: FeedId)
    | InvalidSignature(feed: FeedId)

  /** Signature checking is a function the state machine is given. */
  type Verifier = (PriceObservation, PublisherKey) -> bool

  datatype Table = Table(
    feeds: map<FeedId, FeedRecord>, publishers: map<FeedId, PublisherKey>, current: Option<AggregatedPrice>)

  predicate IsStale(ts: U64, now: U64, window: U64) { ts < SatU64(now - window) }

  /** Why an observation is refused, if it is: checked in this order. */
  function Refusal(t: Table, p: OracleParams, obs: PriceObservation, now: U64): Option<ObservationError> {
    if obs.timestamp > now then Some(FromFuture(obs.timestamp, now))
    else if IsStale(obs.timestamp, now, p.stalenessWindow) then Some(Stale(obs.timestamp, now, p.stalenessWindow))
    else if obs.price == 0 then Some(ZeroPrice)
    else if obs.feed in t.feeds && obs.timestamp < t.feeds[obs.feed].lastTimestamp
    then Some(Stale(obs.timestamp, now, p.stalenessWindow))
    else None
  }

  function SignedRefusal(t: Table, p: OracleParams, verify: Verifier, obs: PriceObservation, now: U64)
    : Option<ObservationError>
  {
    if obs.feed !in t.publishers then Some(UnknownFeed(obs.feed))
    else if !verify(obs, t.publishers[obs.feed]) then Some(InvalidSignature(obs.feed))
    else Refusal(t, p, obs, now)
  }

  function Store(t: Table, obs: PriceObservation): Table {
    t.(feeds := t.feeds[obs.feed := FeedRecord(obs.price, obs.timestamp)])
  }

  function Fresh(records: seq<FeedRecord>, now: U64, window: U64): seq<U64> {
    if records == [] then []
    else (if IsStale(records[0].lastTimestamp, now, window) then [] else [records[0].lastPrice])
         + Fresh(records[1..], now, window)
  }

  function FreshPrices(t: Table, p: OracleParams, now: U64): seq<U64> {
    Fresh(Values(t.feeds), now, p.stalenessWindow)
  }

  /** The new aggregate counts every fresh feed, also those the filter dropped. */
  function Refreshed(t: Table, p: OracleParams, now: U64): Result<AggregatedPrice, AggregationError> {
    var prices := FreshPrices(t, p, now);
    match AggregateIndex(prices, p)
    case Err(e) => Err(e)
    case Ok(index) => Ok(AggregatedPrice(index, now, SatU8(|prices|)))
  }

  function PriceFreshAt(t: Table, p: OracleParams, now: U64): Option<U64> {
    if t.current.None? then None
    else if SatU64(now - t.current.value.computedAt) <= p.aggregateMaxAge then Some(t.current.value.index)
    else None
  }

  datatype Op =
    | Register(feed: FeedId, key: PublisherKey)
    | Revoke(feed: FeedId)
    | Ingest(obs: PriceObservation, now: U64)
    | IngestSigned(obs: PriceObservation, now: U64)
    | Refresh(now: U64)
    | Restore(price: AggregatedPrice)

  function Step(t: Table, p: OracleParams, verify: Verifier, op: Op): Table {
    match op
    case Register(feed, key) => t.(publishers := t.publishers[feed := key])
    case Revoke(feed) => t.(publishers := t.publishers - {feed})
    case Ingest(obs, now) => if Refusal(t, p, obs, now).None? then Store(t, obs) else t
    case IngestSigned(obs, now) => if SignedRefusal(t, p, verify, obs, now).None? then Store(t, obs) else t
    case Refresh(now) =>
      var r := Refreshed(t, p, now);
      if r.Ok? then t.(current := Some(r.value)) else t
    case Restore(price) => t.(current := Some(price))
  }

  function Run(t: Table, p: OracleParams, verify: Verifier, ops: seq<Op>): Table
    decreases |ops|
  {
    if ops == [] then t else Run(Step(t, p, verify, ops[0]), p, verify, ops[1..])
  }

  const EMPTY := Table(map[], map[], None)

  function Refused(e: Option<ObservationError>): Result<(), ObservationError> {
    if e.None? then Ok(()) else Err(e.value)
  }

  class OracleState {
    const params: OracleParams
    const verify: Verifier
    var feeds: map<FeedId, FeedRecord>
    var publishers: map<FeedId, PublisherKey>
    var current: Option<AggregatedPrice>

    function State(): Table reads this { Table(feeds, publishers, current) }

    constructor (params: OracleParams, verify: Verifier)
      ensures State() == EMPTY && this.params == params && this.verify == verify
    {
      this.params := params;
      this.verify := verify;
      feeds, publishers, current := map[], map[], None;
    }

    method RegisterPublisher(feed: FeedId, key: PublisherKey)
      modifies this
      ensures State() == Step(old(State()), params, verify, Register(feed, key))
    {
      publishers := publishers[feed := key];
    }

    method RevokePublisher(feed: FeedId)
      modifies this
      ensures State() == Step(old(State()), params, verify, Revoke(feed))
    {
      publishers := publishers - {feed};
    }

    method Ingest(obs: PriceObservation, now: U64) returns (r: Result<(), ObservationError>)
      modifies this
      ensures r == Refused(Refusal(old(State()), params, obs, now))
      ensures State() == Step(old(State()), params, verify, Op.Ingest(obs, now))
    {
      r := ValidateAndStore(obs, now);
    }

    method IngestSigned(obs: PriceObservation, now: U64) returns (r: Result<(), ObservationError>)
      modifies this
      ensures r == Refused(SignedRefusal(old(State()), params, verify, obs, now))
      ensures State() == Step(old(State()), params, verify, Op.IngestSigned(obs, now))
    {
      if obs.feed !in publishers {
        return Err(UnknownFeed(obs.feed));
      }
      if !verify(obs, publishers[obs.feed]) {
        return Err(InvalidSignature(obs.feed));
      }
      r := ValidateAndStore(obs, now);
    }

    method ValidateAndStore(obs: PriceObservation, now: U64) returns (r: Result<(), ObservationError>)
      modifies this
      ensures r == Refused(Refusal(old(State()), params, obs, now))
      ensures State() == if r.Ok? then Store(old(State()), obs) else old(State())
    {
      if obs.timestamp > now {
        return Err(FromFuture(obs.timestamp, now));
      }
      if IsStale(obs.timestamp, now, params.stalenessWindow) {
        return Err(Stale(obs.timestamp, now, params.stalenessWindow));
      }
      if obs.price == 0 {
        return Err(ZeroPrice);
      }
      if obs.feed in feeds && obs.timestamp < feeds[obs.feed].lastTimestamp {
        return Err(Stale(obs.timestamp, now, params.stalenessWindow));
      }
      feeds := feeds[obs.feed := FeedRecord(obs.price, obs.timestamp)];
      r := Ok(());
    }

    /** A failed refresh keeps the old aggregate. */
    method Refresh(now: U64) returns (r: Result<AggregatedPrice, AggregationError>)
      modifies this
      ensures r == Refreshed(old(State()), params, now)
      ensures State() == Step(old(State()), params, verify, Op.Refresh(now))
    {
      var prices := FreshPrices(State(), params, now);
      var index := AggregateIndex(prices, params);
      if index.Err? {
        return Err(index.error);
      }
      var agg := AggregatedPrice(index.value, now, SatU8(|prices|));
      current := Some(agg);
      r := Ok(agg);
    }

    method RestoreCurrent(price: AggregatedPrice)
      modifies this
      ensures State() == Step(old(State()), params, verify, Restore(price))
    {
      current := Some(price);
    }
  }

  // ------------------------------------------------------ what is accepted

  /** A feed's report is taken exactly when it is not from the future, not older than
      the window, not zero, and not older than what the feed reported before. */
  predicate Admissible(t: Table, p: OracleParams, obs: PriceObservation, now: U64) {
    && obs.timestamp <= now <= obs.timestamp + p.stalenessWindow && obs.price > 0
    && (obs.feed in t.feeds ==> t.feeds[obs.feed].lastTimestamp <= obs.timestamp)
  }

  lemma {:induction false} IngestExactly(t: Table, p: OracleParams, verify: Verifier, obs: PriceObservation, now: U64)
    ensures Step(t, p, verify, Op.Ingest(obs, now))
            == if Admissible(t, p, obs, now)
               then t.(feeds := t.feeds[obs.feed := FeedRecord(obs.price, obs.timestamp)]) else t
  {
  }

  /** The signed way in asks for a registered publisher whose key verifies as well. */
  lemma {:induction false} IngestSignedExactly(
      t: Table, p: OracleParams, verify: Verifier, obs: PriceObservation, now: U64)
    ensures Step(t, p, verify, Op.IngestSigned(obs, now))
            == if obs.feed in t.publishers && verify(obs, t.publishers[obs.feed]) && Admissible(t, p, obs, now)
               then t.(feeds := t.feeds[obs.feed := FeedRecord(obs.price, obs.timestamp)]) else t
  {
  }

  /** Why a report is refused, each reason only after those before it. */
  lemma {:induction false} RefusedBecause(
      t: Table, p: OracleParams, verify: Verifier, obs: PriceObservation, now: U64)
    ensures var why := SignedRefusal(t, p, verify, obs, now);
            if obs.feed !in t.publishers then why == Some(UnknownFeed(obs.feed))
            else if !verify(obs, t.publishers[obs.feed]) then why == Some(InvalidSignature(obs.feed))
            else if obs.timestamp > now then why == Some(FromFuture(obs.timestamp, now))
            else if obs.timestamp + p.stalenessWindow < now
            then why == Some(Stale(obs.timestamp, now, p.stalenessWindow))
            else if obs.price == 0 then why == Some(ZeroPrice)
            else if Admissible(t, p, obs, now) then why == None
            else why == Some(Stale(obs.timestamp, now, p.stalenessWindow))
    ensures obs.feed in t.publishers && verify(obs, t.publishers[obs.feed]) ==>
            SignedRefusal(t, p, verify, obs, now) == Refusal(t, p, obs, now)
  {
  }

  /** Feed f's record comes from call i: a signed report that the key registered for the
      feed at that moment verifies. */
  predicate ComesFrom(p: OracleParams, verify: Verifier, ops: seq<Op>, f: FeedId, i: nat, last: FeedRecord)
    requires i < |ops|
  {
    && ops[i].IngestSigned? && ops[i].obs.feed == f
    && last == FeedRecord(ops[i].obs.price, ops[i].obs.timestamp)
    && var when := Run(EMPTY, p, verify, ops[..i]);
       f in when.publishers && verify(ops[i].obs, when.publishers[f])
  }

  lemma {:induction false} RunAppend(t: Table, p: OracleParams, verify: Verifier, ops: seq<Op>, op: Op)
    ensures Run(t, p, verify, ops + [op]) == Step(Run(t, p, verify, ops), p, verify, op)
    decreases |ops|
  {
    if ops == [] {
      assert [] + [op] == [op] && [op][1..] == [];
      assert Run(t, p, verify, [op]) == Run(Step(t, p, verify, op), p, verify, []);
    } else {
      assert (ops + [op])[1..] == ops[1..] + [op];
      RunAppend(Step(t, p, verify, ops[0]), p, verify, ops[1..], op);
    }
  }

  /** Without the unsigned way in, every price a feed ever has was signed by the key
      registered for it when it came. */
  lemma {:induction false} SignedRunsAreAuthentic(p: OracleParams, verify: Verifier, ops: seq<Op>, f: FeedId)
      returns (i: nat)
    requires forall k :: 0 <= k < |ops| ==> !ops[k].Ingest?
    requires f in Run(EMPTY, p, verify, ops).feeds
    ensures i < |ops| && ComesFrom(p, verify, ops, f, i, Run(EMPTY, p, verify, ops).feeds[f])
    decreases |ops|
  {
    var n := |ops| - 1;
    assert ops == ops[..n] + [ops[n]];
    RunAppend(EMPTY, p, verify, ops[..n], ops[n]);
    var t := Run(EMPTY, p, verify, ops[..n]);
    var op := ops[n];
    if op.IngestSigned? && op.obs.feed == f && SignedRefusal(t, p, verify, op.obs, op.now).None? {
      i := n;
    } else {
      i := SignedRunsAreAuthentic(p, verify, ops[..n], f);
      assert ops[..n][..i] == ops[..i];
    }
  }

  /** And that key was registered by an earlier call, not replaced or revoked since. */
  lemma {:induction false} KeysAreRegistered(p: OracleParams, verify: Verifier, ops: seq<Op>, f: FeedId)
      returns (i: nat)
    requires f in Run(EMPTY, p, verify, ops).publishers
    ensures i < |ops| && ops[i] == Register(f, Run(EMPTY, p, verify, ops).publishers[f])
    ensures forall k :: i < k < |ops| ==> !(ops[k].Register? && ops[k].feed == f) && ops[k] != Revoke(f)
    decreases |ops|
  {
    var n := |ops| - 1;
    assert ops == ops[..n] + [ops[n]];
    RunAppend(EMPTY, p, verify, ops[..n], ops[n]);
    if ops[n].Register? && ops[n].feed == f {
      i := n;
    } else {
      KeyKept(Run(EMPTY, p, verify, ops[..n]), p, verify, ops[n], f);
      i := KeysAreRegistered(p, verify, ops[..n], f);
    }
  }

  lemma {:induction false} KeyKept(t: Table, p: OracleParams, verify: Verifier, op: Op, f: FeedId)
    requires f in Step(t, p, verify, op).publishers && !(op.Register? && op.feed == f)
    ensures f in t.publishers && Step(t, p, verify, op).publishers[f] == t.publishers[f] && op != Revoke(f)
  {
  }

  // --------------------------------------------------------- what is fresh

  /** The feeds of a map that have this price and are within the window. */
  function FreshAt(feeds: map<FeedId, FeedRecord>, now: U64, window: U64, x: U64): set<FeedId> {
    set f | f in feeds && feeds[f].lastPrice == x && now <= feeds[f].lastTimestamp + window
  }

  lemma {:induction false} FreshAtSplit(feeds: map<FeedId, FeedRecord>, k: FeedId, now: U64, window: U64, x: U64)
    requires k in feeds
    ensures |FreshAt(feeds, now, window, x)| == |FreshAt(feeds - {k}, now, window, x)|
            + if feeds[k].lastPrice == x && now <= feeds[k].lastTimestamp + window then 1 else 0
  {
    var here := feeds[k].lastPrice == x && now <= feeds[k].lastTimestamp + window;
    assert FreshAt(feeds, now, window, x) == FreshAt(feeds - {k}, now, window, x) + if here then {k} else {};
    assert k !in FreshAt(feeds - {k}, now, window, x);
  }

  lemma {:induction false} FreshSplit(r: FeedRecord, rest: seq<FeedRecord>, now: U64, window: U64, x: U64)
    ensures multiset(Fresh([r] + rest, now, window))[x] == multiset(Fresh(rest, now, window))[x]
            + if r.lastPrice == x && now <= r.lastTimestamp + window then 1 else 0
  {
    assert ([r] + rest)[1..] == rest;
  }

  lemma {:induction false} FreshCounts(feeds: map<FeedId, FeedRecord>, now: U64, window: U64, x: U64)
    ensures multiset(Fresh(Values(feeds), now, window))[x] == |FreshAt(feeds, now, window, x)|
    decreases |feeds|
  {
    if feeds == map[] {
      assert FreshAt(feeds, now, window, x) == {};
    } else {
      var k: FeedId := First(false, feeds.Keys);
      assert (feeds - {k}).Keys == feeds.Keys - {k};
      FreshCounts(feeds - {k}, now, window, x);
      FreshAtSplit(feeds, k, now, window, x);
      FreshSplit(feeds[k], Values(feeds - {k}), now, window, x);
      ValuesFrom(feeds, k, feeds - {k});
    }
  }

  /** A refresh aggregates, with their multiplicity, exactly the prices of the feeds
      heard from within the window. */
  lemma {:induction false} FreshPricesExactly(t: Table, p: OracleParams, now: U64, x: U64)
    ensures multiset(FreshPrices(t, p, now))[x] == |FreshAt(t.feeds, now, p.stalenessWindow, x)|
  {
    FreshCounts(t.feeds, now, p.stalenessWindow, x);
  }

  /** The cached index counts for as long as its maximum age. */
  lemma {:induction false} PriceFreshExactly(t: Table, p: OracleParams, now: U64)
    ensures PriceFreshAt(t, p, now)
            == if t.current.Some? && now <= t.current.value.computedAt + p.aggregateMaxAge
               then Some(t.current.value.index) else None
  {
  }

  // ------------------------------------------------------ positive prices

  /** No feed's price is zero. */
  ghost predicate FeedsPositive(t: Table) { forall f :: f in t.feeds ==> t.feeds[f].lastPrice > 0 }

  /** Neither is the cached index. */
  ghost predicate Positive(t: Table) { FeedsPositive(t) && (t.current.Some? ==> t.current.value.index > 0) }

  lemma {:induction false} FreshPositive(records: seq<FeedRecord>, now: U64, window: U64)
    requires forall i :: 0 <= i < |records| ==> records[i].lastPrice > 0
    ensures AllPositive(Fresh(records, now, window))
  {
    if records != [] {
      FreshPositive(records[1..], now, window);
    }
  }

  lemma FreshPricesPositive(t: Table, p: OracleParams, now: U64)
    requires FeedsPositive(t)
    ensures AllPositive(FreshPrices(t, p, now))
  {
    var records := Values(t.feeds);
    forall i | 0 <= i < |records|
      ensures records[i].lastPrice > 0
    {
      assert records[i] in records;
    }
    FreshPositive(records, now, p.stalenessWindow);
  }

  /** A successful refresh publishes a positive price near the median of the
      fresh feeds, which is positive too: the deviation is never taken from zero. */
  lemma RefreshNearMedian(t: Table, p: OracleParams, now: U64)
    requires FeedsPositive(t) && Refreshed(t, p, now).Ok?
    ensures var m, agg := Median(FreshPrices(t, p, now)), Refreshed(t, p, now).value;
            && m.Some? && m.value > 0
            && agg.index > 0 && (p.maxDeviationBps < U32_MAX ==> Near(agg.index, m.value, p.maxDeviationBps))
            && agg.computedAt == now && PriceFreshAt(t.(current := Some(agg)), p, now) == Some(agg.index)
  {
    FreshPricesPositive(t, p, now);
    IndexNearMedian(FreshPrices(t, p, now), p);
  }

  /** A restored price is stored unchecked: it is the only way in for a zero. */
  predicate RestoresPositive(op: Op) { op.Restore? ==> op.price.index > 0 }

  lemma StepKeepsPositive(t: Table, p: OracleParams, verify: Verifier, op: Op)
    requires FeedsPositive(t)
    ensures FeedsPositive(Step(t, p, verify, op))
    ensures Positive(t) ==> (Positive(Step(t, p, verify, op)) <==> RestoresPositive(op))
  {
    if op.Refresh? && Refreshed(t, p, op.now).Ok? {
      RefreshNearMedian(t, p, op.now);
    }
  }

  /** Feeds are never zero, whatever is restored. */
  lemma {:induction false} FeedsStayPositive(t: Table, p: OracleParams, verify: Verifier, ops: seq<Op>)
    requires FeedsPositive(t)
    ensures FeedsPositive(Run(t, p, verify, ops))
    decreases |ops|
  {
    if ops != [] {
      StepKeepsPositive(t, p, verify, ops[0]);
      FeedsStayPositive(Step(t, p, verify, ops[0]), p, verify, ops[1..]);
    }
  }

  ghost predicate PositiveThroughout(t: Table, p: OracleParams, verify: Verifier, ops: seq<Op>)
    decreases |ops|
  {
    Positive(t) && (ops == [] || PositiveThroughout(Step(t, p, verify, ops[0]), p, verify, ops[1..]))
  }

  /** Every state of a run has positive prices alone, the cached index included,
      exactly when every price restored in it is positive. */
  lemma {:induction false} StaysPositiveExactly(t: Table, p: OracleParams, verify: Verifier, ops: seq<Op>)
    requires Positive(t)
    ensures PositiveThroughout(t, p, verify, ops) <==> forall i :: 0 <= i < |ops| ==> RestoresPositive(ops[i])
    decreases |ops|
  {
    if ops != [] {
      StepKeepsPositive(t, p, verify, ops[0]);
      assert forall i :: 0 < i < |ops| ==> ops[i] == ops[1..][i - 1];
      if RestoresPositive(ops[0]) {
        StaysPositiveExactly(Step(t, p, verify, ops[0]), p, verify, ops[1..]);
      }
    }
  }

  /** The price a refresh publishes after any history of calls, restores included. */
  lemma {:induction false} ReachableRefresh(p: OracleParams, verify: Verifier, ops: seq<Op>, now: U64)
    requires p.maxDeviationBps < U32_MAX
    ensures var t := Run(EMPTY, p, verify, ops);
            Refreshed(t, p, now).Ok? ==>
              var m := Median(FreshPrices(t, p, now));
              m.Some? && m.value > 0 && Near(Refreshed(t, p, now).value.index, m.value, p.maxDeviationBps)
  {
    FeedsStayPositive(EMPTY, p, verify, ops);
    var t := Run(EMPTY, p, verify, ops);
    if Refreshed(t, p, now).Ok? {
      RefreshNearMedian(t, p, now);
    }
  }

  /** Without feeds a refresh fails, and with feeds it comes out differently exactly
      when one of them is fresh. */
  lemma FeedsDecideRefresh(t: Table, without: Table, p: OracleParams, now: U64)
    requires without.feeds == map[]
    ensures Refreshed(without, p, now).Err?
    ensures Refreshed(t, p, now) != Refreshed(without, p, now) <==> FreshPrices(t, p, now) != []
  {
    MedianOfNone([]);
    MedianOfNone(FreshPrices(t, p, now));
    assert FreshPrices(without, p, now) == [];
  }

  // ---------------------------------------------------------- feeds counted

  /** The feeds whose prices the published median was really taken of. */
  function Contributing(t: Table, p: OracleParams, now: U64): seq<U64> {
    var prices := FreshPrices(t, p, now);
    match Median(prices)
    case None => []
    case Some(m) => FilterByDeviation(prices, m, p.maxDeviationBps)
  }

  /** The count published beside a price is that of the contributing feeds exactly
      when the filter dropped none, or when the count is full either way. */
  lemma FeedsUsedCountsContributingExactly(t: Table, p: OracleParams, now: U64)
    requires Refreshed(t, p, now).Ok?
    ensures var prices, kept := FreshPrices(t, p, now), Contributing(t, p, now);
            && Median(prices).Some?
            && (Refreshed(t, p, now).value.feedsUsed == SatU8(|kept|)
                <==> AllWithin(prices, Median(prices).value, p.maxDeviationBps) || |kept| >= 255)
  {
    var prices := FreshPrices(t, p, now);
    MedianOfNone(prices);
    FilterKeepsAllExactly(prices, Median(prices).value, p.maxDeviationBps);
  }

  lemma ValuesFrom(m: map<FeedId, FeedRecord>, k: FeedId, rest: map<FeedId, FeedRecord>)
    requires IsFirst(false, m.Keys, k) && rest == m - {k}
    ensures Values(m) == [m[k]] + Values(rest)
  {
    assert First(false, m.Keys) == k;
  }

  lemma ValuesOfThree(x: FeedRecord, y: FeedRecord, z: FeedRecord)
    ensures Values(map[1 := x, 2 := y, 3 := z]) == [x, y, z]
  {
    ValuesFrom(map[1 := x, 2 := y, 3 := z], 1, map[2 := y, 3 := z]);
    ValuesFrom(map[2 := y, 3 := z], 2, map[3 := z]);
    ValuesFrom(map[3 := z], 3, map[]);
  }

  /** Two feeds at 100 and one at 200: the third is dropped and still counted. */
  lemma DroppedFeedIsCounted()
    ensures var feeds := map[1 := FeedRecord(100, 9), 2 := FeedRecord(100, 9), 3 := FeedRecord(200, 9)];
            var t, p := Table(feeds, map[], None), OracleParams(60, 2, 100, 60);
            && Contributing(t, p, 9) == [100, 100]
            && Refreshed(t, p, 9) == Ok(AggregatedPrice(100, 9, 3))
  {
    var x, z := FeedRecord(100, 9), FeedRecord(200, 9);
    var t, p := Table(map[1 := x, 2 := x, 3 := z], map[], None), OracleParams(60, 2, 100, 60);
    ValuesOfThree(x, x, z);
    FreshOfThree(x, x, z, 9, 60);
    OneOutlier(t, p);
  }

  lemma OneOutlier(t: Table, p: OracleParams)
    requires FreshPrices(t, p, 9) == [100, 100, 200] && p.maxDeviationBps == 100 && p.minFeedsRequired == 2
    ensures Contributing(t, p, 9) == [100, 100] && Refreshed(t, p, 9) == Ok(AggregatedPrice(100, 9, 3))
  {
    MedianOfSorted([100, 100, 200]);
    FilterOfThree(100, 100, 200, 100, 100);
    MedianOfSorted([100, 100]);
  }

  lemma FreshFrom(r: FeedRecord, rest: seq<FeedRecord>, now: U64, window: U64)
    requires r.lastTimestamp == now
    ensures Fresh([r] + rest, now, window) == [r.lastPrice] + Fresh(rest, now, window)
  {
  }

  lemma FreshOfThree(x: FeedRecord, y: FeedRecord, z: FeedRecord, now: U64, window: U64)
    requires x.lastTimestamp == now && y.lastTimestamp == now && z.lastTimestamp == now
    ensures Fresh([x, y, z], now, window) == [x.lastPrice, y.lastPrice, z.lastPrice]
  {
    FreshFrom(z, [], now, window);
    FreshFrom(y, [z], now, window);
    FreshFrom(x, [y, z], now, window);
    assert [x] + [y, z] == [x, y, z] && [y] + [z] == [y, z] && [z] + [] == [z];
  }

  lemma FilterFrom(x: U64, rest: seq<U64>, m: U64, cap: U32)
    ensures FilterByDeviation([x] + rest, m, cap)
            == (if DeviationBps(x, m) <= cap then [x] else []) + FilterByDeviation(rest, m, cap)
  {
    assert ([x] + rest)[1..] == rest;
  }

  lemma FilterOfThree(x: U64, y: U64, z: U64, m: U64, cap: U32)
    requires DeviationBps(x, m) <= cap && DeviationBps(y, m) <= cap && DeviationBps(z, m) > cap
    ensures FilterByDeviation([x, y, z], m, cap) == [x, y]
  {
    FilterFrom(z, [], m, cap);
    FilterFrom(y, [z], m, cap);
    FilterFrom(x, [y, z], m, cap);
    assert [x] + [y, z] == [x, y, z] && [y] + [z] == [y, z] && [z] + [] == [z];
  }

  lemma MedianOfSorted(s: seq<U64>)
    requires s != [] && Sorting.Sorted(s, AtMost)
    ensures Median(s) == Some(MiddleOf(s))
  {
    SortedPrices(s);
    Sorting.SortedUnique(Sorting.Sort(s, AtMost), s, AtMost);
  }
}
