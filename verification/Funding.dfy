/** Funding: when to settle, at what rate, and who pays whom. */
module Funding {
  import opened Machine
  import opened Clob
  import opened Sums

  const RATE_SCALE := 1_000_000_000

  datatype FundingParams = FundingParams(interval: U64, rateCap: I64, divisor: U32)

  datatype Position = Position(account: AccountId, size: I64)

  datatype Settlement = Settlement(account: AccountId, delta: I64)

  datatype FundingTick = FundingTick(settledAt: U64, premium: I64, rate: I64, settlements: seq<Settlement>)

  // ----------------------------------------------------------------- rates

  function Premium(mark: U64, index: U64): I64 {
    if index == 0 then 0 else SatI64(TruncDiv(SatI128((mark as int - index) * RATE_SCALE), index))
  }

  /** The cap is taken by magnitude; the least i64 is its own magnitude. */
  function Rate(premium: I64, p: FundingParams): I64 {
    if p.divisor == 0 then 0
    else if p.rateCap == I64_MIN then I64_MIN
    else
      var raw := TruncDiv(premium, p.divisor);
      var cap := Abs(p.rateCap);
      if raw < 0 - cap then 0 - cap else if raw > cap then cap else raw
  }

  /** What a position receives, before it is clamped to an i64. */
  function Unclamped(size: I64, mark: U64, rate: I64): int {
    TruncDiv(NegI128(SatI128(SatI128(size * mark) * rate)), RATE_SCALE)
  }

  function Delta(size: I64, mark: U64, rate: I64): I64 { SatI64(Unclamped(size, mark, rate)) }

  /** Flat positions settle nothing. */
  function SettlementOf(pos: Position, mark: U64, rate: I64): seq<Settlement> {
    if pos.size == 0 then [] else [Settlement(pos.account, Delta(pos.size, mark, rate))]
  }

  function Settlements(positions: seq<Position>, mark: U64, rate: I64): seq<Settlement> {
    if positions == [] then []
    else SettlementOf(positions[0], mark, rate) + Settlements(positions[1..], mark, rate)
  }

  function Funded(positions: seq<Position>, mark: U64, rate: I64): seq<Settlement> {
    if rate == 0 then [] else Settlements(positions, mark, rate)
  }

  lemma {:induction false} SettlementsAppend(xs: seq<Position>, pos: Position, mark: U64, rate: I64)
    ensures Settlements(xs + [pos], mark, rate) == Settlements(xs, mark, rate) + SettlementOf(pos, mark, rate)
  {
    if xs == [] {
      assert [pos][1..] == [];
    } else {
      assert (xs + [pos])[1..] == xs[1..] + [pos];
      SettlementsAppend(xs[1..], pos, mark, rate);
      Regroup(SettlementOf(xs[0], mark, rate), Settlements(xs[1..], mark, rate), SettlementOf(pos, mark, rate));
    }
  }

  method ApplyFunding(positions: seq<Position>, mark: U64, rate: I64) returns (settlements: seq<Settlement>)
    ensures settlements == Funded(positions, mark, rate)
  {
    if rate == 0 {
      return [];
    }
    settlements := [];
    for i := 0 to |positions|
      invariant settlements == Settlements(positions[..i], mark, rate)
    {
      assert positions[..i + 1] == positions[..i] + [positions[i]];
      SettlementsAppend(positions[..i], positions[i], mark, rate);
      var pos := positions[i];
      if pos.size == 0 {
        continue;
      }
      var notional := SatI128(pos.size * mark);
      var unscaled := SatI128(notional * rate);
      var scaled := TruncDiv(NegI128(unscaled), RATE_SCALE);
      settlements := settlements + [Settlement(pos.account, SatI64(scaled))];
    }
    assert positions[..|positions|] == positions;
  }

  /** The positions that are open, in order. */
  function OpenOnly(positions: seq<Position>): seq<Position> {
    if positions == [] then []
    else (if positions[0].size != 0 then [positions[0]] else []) + OpenOnly(positions[1..])
  }

  /** At a rate other than zero, positive or negative, the settlements are those of the
      open positions: settlement i is booked to the account of open position i. */
  lemma {:induction false} SettlesOpenPositions(positions: seq<Position>, mark: U64, rate: I64)
    ensures rate == 0 ==> Funded(positions, mark, rate) == []
    ensures var open, settled := OpenOnly(positions), Funded(positions, mark, rate);
            rate != 0 ==>
              && |settled| == |open|
              && forall i :: 0 <= i < |open| ==>
                   settled[i].account == open[i].account && settled[i].delta == Delta(open[i].size, mark, rate)
  {
    if positions != [] && rate != 0 {
      SettlesOpenPositions(positions[1..], mark, rate);
    }
  }

  // ----------------------------------------------------------------- clock

  predicate Due(lastSettledAt: U64, p: FundingParams, now: U64) { now >= SatU64(lastSettledAt + p.interval) }

  function TickOutcome(p: FundingParams, lastSettledAt: U64, now: U64, mark: U64, index: U64, positions: seq<Position>)
    : Option<FundingTick>
  {
    if !Due(lastSettledAt, p, now) then None
    else
      var premium := Premium(mark, index);
      var rate := Rate(premium, p);
      Some(FundingTick(now, premium, rate, Funded(positions, mark, rate)))
  }

  class FundingClock {
    const params: FundingParams
    var lastSettledAt: U64

    constructor (params: FundingParams, genesisTime: U64)
      ensures this.params == params && lastSettledAt == genesisTime
    {
      this.params := params;
      lastSettledAt := genesisTime;
    }

    method Tick(now: U64, mark: U64, index: U64, positions: seq<Position>) returns (r: Option<FundingTick>)
      modifies this
      ensures r == TickOutcome(params, old(lastSettledAt), now, mark, index, positions)
      ensures lastSettledAt == if r.Some? then now else old(lastSettledAt)
    {
      if now < SatU64(lastSettledAt + params.interval) {
        return None;
      }
      var premium := Premium(mark, index);
      var rate := Rate(premium, params);
      var settlements := ApplyFunding(positions, mark, rate);
      lastSettledAt := now;
      r := Some(FundingTick(now, premium, rate, settlements));
    }
  }

  /** The settlement times of a clock that is ticked at these times. */
  function SettlementTimes(p: FundingParams, lastSettledAt: U64, times: seq<U64>): seq<U64>
    decreases |times|
  {
    if times == [] then []
    else if Due(lastSettledAt, p, times[0]) then [times[0]] + SettlementTimes(p, times[0], times[1..])
    else SettlementTimes(p, lastSettledAt, times[1..])
  }

  /** Whatever the tick times and their order, settlement n (counted from 0) comes no
      earlier than n + 1 intervals after genesis, up to the last representable second. */
  lemma {:induction false} NoEarlySettlement(p: FundingParams, genesis: U64, times: seq<U64>, n: nat)
    requires n < |SettlementTimes(p, genesis, times)|
    ensures SettlementTimes(p, genesis, times)[n] >= SatU64(genesis + (n + 1) * p.interval)
    decreases |times|
  {
    if !Due(genesis, p, times[0]) {
      NoEarlySettlement(p, genesis, times[1..], n);
    } else if n > 0 {
      NoEarlySettlement(p, times[0], times[1..], n - 1);
      assert (n + 1) * p.interval == p.interval + n * p.interval;
    }
  }

  /** So the documented spacing holds for a settlement exactly when it does not
      reach past the last representable second. */
  lemma {:induction false} SpacingExactlyWhenItFits(p: FundingParams, genesis: U64, times: seq<U64>, n: nat)
    requires n < |SettlementTimes(p, genesis, times)|
    ensures SettlementTimes(p, genesis, times)[n] >= genesis + (n + 1) * p.interval
            <==> genesis + (n + 1) * p.interval <= U64_MAX
  {
    NoEarlySettlement(p, genesis, times, n);
  }

  /** A clock whose deadline is clamped settles less than an interval after genesis. */
  lemma {:induction false} ClampedDeadlineSettlesEarly()
    ensures SettlementTimes(FundingParams(3600, 0, 8), U64_MAX - 1, [U64_MAX]) == [U64_MAX]
  {
    assert [U64_MAX][1..] == [];
  }

  /** A backlog is settled once: ticks within one interval of a settlement, or
      before it, do nothing. */
  lemma {:induction false} NoCatchUp(p: FundingParams, last: U64, times: seq<U64>)
    requires forall i :: 0 <= i < |times| ==> !Due(last, p, times[i])
    ensures SettlementTimes(p, last, times) == []
  {
    if times != [] {
      NoCatchUp(p, last, times[1..]);
    }
  }

  // --------------------------------------------------- what is charged

  /** The premium is the gap over the index in parts per billion, rounded toward zero,
      up to the i64 ceiling; without an index there is none. */
  lemma {:induction false} PremiumMeaning(mark: U64, index: U64)
    ensures index == 0 ==> Premium(mark, index) == 0
    ensures var x, gap := Premium(mark, index), Abs(mark - index) * RATE_SCALE;
            index > 0 ==> && Abs(x) * index <= gap && (I64_MIN < x < I64_MAX ==> gap < (Abs(x) + 1) * index)
                          && (mark >= index ==> x >= 0) && (mark <= index ==> x <= 0)
  {
    if index > 0 {
      var d := mark - index;
      var q := TruncDivBounds(d * RATE_SCALE, index);
      var x := Premium(mark, index);
      assert SatI128(d * RATE_SCALE) == d * RATE_SCALE && x == SatI64(q);
      PremiumBounds(d * RATE_SCALE, index, q, x);
    }
  }

  lemma {:induction false} PremiumBounds(n: int, index: int, q: int, x: int)
    requires index > 0 && x == SatI64(q)
    requires n >= 0 ==> 0 <= q && q * index <= n < q * index + index
    requires n <= 0 ==> q <= 0 && q * index - index < n <= q * index
    ensures Abs(x) * index <= Abs(n) && (I64_MIN < x < I64_MAX ==> Abs(n) < (Abs(x) + 1) * index)
    ensures (n >= 0 ==> x >= 0) && (n <= 0 ==> x <= 0)
  {
    MulMono(Abs(x), Abs(q), index);
    assert (Abs(x) + 1) * index == Abs(x) * index + index;
    assert q < 0 ==> Abs(q) * index == -(q * index);
  }

  /** The rate is the premium over the divisor, rounded toward zero, as far as the cap
      allows; a zero divisor turns funding off. */
  lemma {:induction false} RateMeaning(premium: I64, p: FundingParams)
    requires CapIsSymmetric(p)
    ensures p.divisor == 0 ==> Rate(premium, p) == 0
    ensures var rate, cap := Rate(premium, p), Abs(p.rateCap);
            p.divisor > 0 ==>
              && (premium >= 0 ==> rate >= 0) && (premium <= 0 ==> rate <= 0)
              && if Abs(premium) < (cap + 1) * p.divisor
                 then Abs(rate) * p.divisor <= Abs(premium) < (Abs(rate) + 1) * p.divisor
                 else Abs(rate) == cap
  {
    if p.divisor > 0 {
      var q := TruncDivBounds(premium, p.divisor);
      RateBounds(premium, p.divisor, q, Abs(p.rateCap));
    }
  }

  lemma {:induction false} RateBounds(n: int, d: int, q: int, cap: nat)
    requires d > 0
    requires n >= 0 ==> 0 <= q && q * d <= n < q * d + d
    requires n <= 0 ==> q <= 0 && q * d - d < n <= q * d
    ensures Abs(q) * d <= Abs(n) < (Abs(q) + 1) * d && (Abs(n) < (cap + 1) * d <==> Abs(q) <= cap)
  {
    assert (Abs(q) + 1) * d == Abs(q) * d + d;
    assert q < 0 ==> Abs(q) * d == -(q * d);
    if Abs(q) <= cap {
      MulMono(Abs(q) + 1, cap + 1, d);
    } else {
      MulMono(cap + 1, Abs(q), d);
    }
  }

  // -------------------------------------------------------------- payments

  /** Clamping to an i128 or i64 never makes a number larger in size. */
  lemma RateWithinCap(premium: I64, p: FundingParams)
    ensures Abs(Rate(premium, p)) <= Abs(p.rateCap)
  {
  }

  lemma ProductBound(size: I64, mark: U64, rate: I64) returns (x: int)
    ensures x == size * mark * rate && Abs(x) == Abs(size) * mark * Abs(rate)
    ensures SatI128(size * mark) == size * mark
  {
    I64TimesU64FitsI128(size, mark);
    x := size * mark * rate;
    SignedProduct(size, mark, rate);
  }

  lemma SignedProduct(a: int, b: nat, c: int)
    ensures Abs(a * b * c) == Abs(a) * b * Abs(c)
  {
    AbsMul(a, b);
    AbsMul(a * b, c);
  }

  /** No payment exceeds the notional times the rate, even where it is clamped. */
  lemma PaymentBound(size: I64, mark: U64, rate: I64)
    ensures Abs(Delta(size, mark, rate)) * RATE_SCALE <= Abs(size) * mark * Abs(rate)
  {
    var x := ProductBound(size, mark, rate);
    var n := NegI128(SatI128(x));
    var q := TruncDivBounds(n, RATE_SCALE);
  }

  /** At any rate a clock can charge, a payment is at most the cap's share. */
  lemma {:induction false} PaymentWithinCap(size: I64, mark: U64, premium: I64, p: FundingParams)
    ensures Abs(Delta(size, mark, Rate(premium, p))) * RATE_SCALE <= Abs(size) * mark * Abs(p.rateCap)
  {
    var rate := Rate(premium, p);
    PaymentBound(size, mark, rate);
    RateWithinCap(premium, p);
    MulMono(0, Abs(size), mark);
    var n := Abs(size) * mark;
    MulMono(Abs(rate), Abs(p.rateCap), n);
    assert n * Abs(rate) == Abs(rate) * n && n * Abs(p.rateCap) == Abs(p.rateCap) * n;
  }

  /** Neither the products nor the result of a payment are clamped. */
  predicate PaymentFits(size: I64, mark: U64, rate: I64) {
    Abs(size * mark * rate) <= I128_MAX && FitsI64(TruncDiv(-(size * mark * rate), RATE_SCALE))
  }

  lemma {:induction false} PaymentExact(size: I64, mark: U64, rate: I64)
    requires PaymentFits(size, mark, rate)
    ensures Delta(size, mark, rate) == TruncDiv(-(size * mark * rate), RATE_SCALE)
  {
    var x := ProductBound(size, mark, rate);
  }

  /** With the mark at or above the index a long receives nothing and a short pays
      nothing; with the mark at or below it, the other way round. */
  predicate RightWay(size: I64, mark: U64, index: U64, delta: I64) {
    && (mark >= index ==> (size >= 0 ==> delta <= 0) && (size <= 0 ==> delta >= 0))
    && (mark <= index ==> (size >= 0 ==> delta >= 0) && (size <= 0 ==> delta <= 0))
  }

  /** The rate has the sign of the premium: the cap has a magnitude, or funding is
      off. At the least i64 for a cap the rate is the least i64 instead. */
  predicate CapIsSymmetric(p: FundingParams) { p.rateCap > I64_MIN || p.divisor == 0 }

  /** A payment goes the right way, clamped or not, exactly when the product stays
      above the least i128: there the negation wraps, and the payment is the
      largest possible one in the wrong direction. At a cap of the least i64 that
      holds below the index only; elsewhere the rate itself is the wrong way. */
  lemma {:induction false} PaymentDirection(size: I64, mark: U64, index: U64, p: FundingParams)
    ensures var rate := Rate(Premium(mark, index), p);
            RightWay(size, mark, index, Delta(size, mark, rate))
            <==> if CapIsSymmetric(p) || mark < index then size * mark * rate > I128_MIN
                 else size * mark == 0 || (mark > index && size * mark * rate <= I128_MIN)
    ensures var rate := Rate(Premium(mark, index), p);
            size * mark * rate <= I128_MIN ==> Delta(size, mark, rate) == I64_MIN
  {
    var premium := Premium(mark, index);
    var rate := Rate(premium, p);
    PremiumDirection(mark, index);
    var x := ProductBound(size, mark, rate);
    ProductDirection(size, mark, rate);
    var q := TruncDivBounds(NegI128(SatI128(x)), RATE_SCALE);
    if CapIsSymmetric(p) {
      RateDirection(premium, p);
    } else {
      LeastRateMoves(size * mark);
      DeltaMoves(x);
    }
  }

  /** At the least i64 for a rate every payment on a live notional is a real one. */
  lemma LeastRateMoves(n: int)
    ensures n > 0 ==> n * I64_MIN <= I64_MIN
    ensures n < 0 ==> n * I64_MIN >= 0 - I64_MIN
    ensures n == 0 ==> n * I64_MIN == 0
  {
  }

  lemma DeltaMoves(x: int)
    requires x <= I64_MIN || x == 0 || x >= 0 - I64_MIN
    ensures var d := SatI64(TruncDiv(NegI128(SatI128(x)), RATE_SCALE));
            && (x == 0 ==> d == 0)
            && (x > 0 || x <= I128_MIN ==> d < 0)
            && (I128_MIN < x < 0 ==> d > 0)
  {
  }

  /** The largest short at the largest mark pays where it should receive. */
  lemma {:induction false} LargestShortPays()
    ensures var p := FundingParams(3600, 40_000_000, 8);
            var rate := Rate(Premium(U64_MAX, U64_MAX / 2), p);
            rate == 40_000_000 && Delta(I64_MIN, U64_MAX, rate) == I64_MIN
  {
    var p := FundingParams(3600, 40_000_000, 8);
    var index := U64_MAX / 2;
    assert Premium(U64_MAX, index) == 1_000_000_000;
    assert I64_MIN * U64_MAX * 40_000_000 <= I128_MIN;
    PaymentDirection(I64_MIN, U64_MAX, index, p);
  }

  lemma PremiumDirection(mark: U64, index: U64)
    ensures mark >= index ==> Premium(mark, index) >= 0
    ensures mark <= index ==> Premium(mark, index) <= 0
  {
    if index > 0 {
      var q := TruncDivBounds((mark as int - index) * RATE_SCALE, index);
    }
  }

  lemma RateDirection(premium: I64, p: FundingParams)
    requires CapIsSymmetric(p)
    ensures premium >= 0 ==> Rate(premium, p) >= 0
    ensures premium <= 0 ==> Rate(premium, p) <= 0
  {
    if p.divisor > 0 {
      var q := TruncDivBounds(premium, p.divisor);
    }
  }

  lemma ProductDirection(a: int, b: nat, c: int)
    ensures (a >= 0 && c >= 0) || (a <= 0 && c <= 0) ==> a * b * c >= 0
    ensures (a >= 0 && c <= 0) || (a <= 0 && c >= 0) ==> a * b * c <= 0
  {
    if a >= 0 {
      MulMono(0, a, b);
    } else {
      MulMono(a, 0, b);
    }
    var ab := a * b;
    if c >= 0 && ab >= 0 {
      MulMono(0, ab, c);
    } else if c >= 0 {
      MulMono(ab, 0, c);
    } else if ab >= 0 {
      MulMono(0, ab, -c);
      assert ab * -c == -(ab * c);
    } else {
      MulMono(ab, 0, -c);
      assert ab * -c == -(ab * c);
    }
  }

  // --------------------------------------------------------------- zero sum

  function SizeOf(p: Position): int { p.size }

  function DeltaOf(s: Settlement): int { s.delta }

  function Live(p: Position): int { if p.size == 0 then 0 else 1 }

  /** A total that pays -x to within a fraction of a unit for each live position. */
  predicate NearlyOwed(total: int, x: int, live: int) {
    Abs(total * RATE_SCALE + x) <= live * (RATE_SCALE - 1)
  }

  lemma NearlyOwedAdds(t0: int, x0: int, l0: int, t1: int, x1: int, l1: int)
    requires NearlyOwed(t0, x0, l0) && NearlyOwed(t1, x1, l1)
    ensures NearlyOwed(t0 + t1, x0 + x1, l0 + l1)
  {
  }

  lemma SettlementRemainder(pos: Position, mark: U64, rate: I64)
    requires PaymentFits(pos.size, mark, rate)
    ensures NearlyOwed(Sum(SettlementOf(pos, mark, rate), DeltaOf), pos.size * mark * rate, Live(pos))
  {
    if pos.size != 0 {
      PaymentExact(pos.size, mark, rate);
      var q := TruncDivBounds(-(pos.size * mark * rate), RATE_SCALE);
      var s := SettlementOf(pos, mark, rate);
      assert s[1..] == [] && Sum(s, DeltaOf) == DeltaOf(s[0]);
    }
  }

  /** What truncation took from the settlements: each keeps less than one unit. */
  lemma {:induction false} SettlementsTotal(positions: seq<Position>, mark: U64, rate: I64)
    requires forall i :: 0 <= i < |positions| ==> PaymentFits(positions[i].size, mark, rate)
    ensures Sum(positions, Live) >= 0
    ensures NearlyOwed(
      Sum(Settlements(positions, mark, rate), DeltaOf), Sum(positions, SizeOf) * mark * rate, Sum(positions, Live))
  {
    if positions != [] {
      var pos, rest := positions[0], positions[1..];
      SettlementsTotal(rest, mark, rate);
      Distributes(pos.size, Sum(rest, SizeOf), mark, rate);
      SettlementRemainder(pos, mark, rate);
      var now, later := SettlementOf(pos, mark, rate), Settlements(rest, mark, rate);
      SumAppend(now, later, DeltaOf);
      NearlyOwedAdds(
        Sum(now, DeltaOf), pos.size * mark * rate, Live(pos),
        Sum(later, DeltaOf), Sum(rest, SizeOf) * mark * rate, Sum(rest, Live));
    }
  }

  lemma Distributes(a: int, b: int, c: int, d: int)
    ensures (a + b) * c * d == a * c * d + b * c * d
  {
    assert (a + b) * c == a * c + b * c;
  }

  /** When position sizes sum to zero, funding creates or destroys less than one
      unit for each live position, and nothing at all when there is none. */
  lemma {:induction false} FundingNearlyZeroSum(positions: seq<Position>, mark: U64, rate: I64)
    requires Sum(positions, SizeOf) == 0
    requires forall i :: 0 <= i < |positions| ==> PaymentFits(positions[i].size, mark, rate)
    ensures var total, live := Sum(Funded(positions, mark, rate), DeltaOf), Sum(positions, Live);
            total == 0 || Abs(total) < live
  {
    SettlementsTotal(positions, mark, rate);
  }
}
