/** Margin classification: truncated ratios of equity to notional, and what the
    classes mean without the division. */
module Margin {
  import opened Machine
  import opened Clob
  import opened Clearing

  /** The liquidation engine's snapshot has the account's own fields. */
  type AccountSnapshot = Account

  datatype LiquidationParams = LiquidationParams(
    initialMarginBps: U32, maintenanceMarginBps: U32, liquidationFeeBps: U32)

  datatype MarginHealth = Safe | AtRisk | Liquidatable | Underwater {
    /** Healthier classes rank higher. */
    function Rank(): nat { if Safe? then 3 else if AtRisk? then 2 else if Liquidatable? then 1 else 0 }
  }

  function NotionalValue(a: AccountSnapshot, mark: U64): U64 { SatU64(Abs(a.positionSize) * mark) }

  function AccountEquity(a: AccountSnapshot, mark: U64): I64 { SatI64(a.collateral + UnrealizedPnl(a, mark)) }

  function MarginRatio(a: AccountSnapshot, mark: U64): I64 {
    var notional := NotionalValue(a, mark);
    if notional == 0 then I64_MAX
    else
      NonNegative(Abs(a.positionSize), mark);
      SatI64(TruncDiv(SatI128(AccountEquity(a, mark) * MARGIN_SCALE), notional))
  }

  function Classify(ratio: I64, p: LiquidationParams): MarginHealth {
    if ratio < 0 then Underwater
    else if ratio < p.maintenanceMarginBps then Liquidatable
    else if ratio < p.initialMarginBps then AtRisk
    else Safe
  }

  function Health(a: AccountSnapshot, mark: U64, p: LiquidationParams): MarginHealth {
    Classify(MarginRatio(a, mark), p)
  }

  // --------------------------------------------------- without the division

  /** The ratio is the truncated quotient of equity and notional as they are,
      clamped or not: its i128 product never saturates. */
  lemma {:induction false} RatioExact(a: AccountSnapshot, mark: U64)
    requires NotionalValue(a, mark) > 0
    ensures MarginRatio(a, mark) == SatI64(TruncDiv(AccountEquity(a, mark) * MARGIN_SCALE, NotionalValue(a, mark)))
  {
    var e := AccountEquity(a, mark);
    assert I64_MIN * MARGIN_SCALE <= e * MARGIN_SCALE <= I64_MAX * MARGIN_SCALE;
  }

  /** A truncated quotient is negative only when the numerator is at least one
      whole divisor below zero, and reaches a threshold b >= 1 exactly when the
      numerator reaches b divisors. */
  lemma TruncatedThresholds(x: int, n: int, b: int)
    requires n > 0
    ensures SatI64(TruncDiv(x, n)) < 0 <==> x + n <= 0
    ensures 1 <= b <= U32_MAX ==> (SatI64(TruncDiv(x, n)) >= b <==> x >= b * n)
  {
    var q := TruncDivBounds(x, n);
    if x + n <= 0 && q >= 0 {
      MulMono(0, q, n);
    }
    if q < 0 {
      MulMono(q, -1, n);
    }
    if q >= b {
      MulMono(b, q, n);
    } else {
      MulMono(q, b - 1, n);
      assert (b - 1) * n == b * n - n;
    }
  }

  /** Equity e covers a margin rate on notional n: that share of it, or for a zero
      rate anything above minus one basis point. */
  predicate Reaches(e: int, n: int, bps: int) {
    if bps == 0 then e * MARGIN_SCALE + n > 0 else e * MARGIN_SCALE >= bps * n
  }

  predicate Covers(a: AccountSnapshot, mark: U64, bps: int) {
    Reaches(AccountEquity(a, mark), NotionalValue(a, mark), bps)
  }

  /** Each class is one of three division-free tests; slightly negative equity
      still covers a zero rate, because the ratio truncates. */
  lemma {:induction false} HealthMeaning(a: AccountSnapshot, mark: U64, p: LiquidationParams)
    requires NotionalValue(a, mark) > 0
    ensures Health(a, mark, p).Underwater? <==> !Covers(a, mark, 0)
    ensures Health(a, mark, p).Rank() >= 2 <==> Covers(a, mark, 0) && Covers(a, mark, p.maintenanceMarginBps)
    ensures Health(a, mark, p).Safe?
            <==> Covers(a, mark, 0) && Covers(a, mark, p.maintenanceMarginBps) && Covers(a, mark, p.initialMarginBps)
  {
    RatioExact(a, mark);
    var x, n := AccountEquity(a, mark) * MARGIN_SCALE, NotionalValue(a, mark);
    TruncatedThresholds(x, n, p.maintenanceMarginBps);
    TruncatedThresholds(x, n, p.initialMarginBps);
  }

  /** A debt of one on a notional of 100000 is Liquidatable, not Underwater. */
  lemma {:induction false} SlightDebtIsLiquidatable(p: LiquidationParams)
    requires p.maintenanceMarginBps > 0
    ensures var a := Account(1, 1000, 100, -1); AccountEquity(a, 100) == -1 && Health(a, 100, p) == Liquidatable
  {
    HealthMeaning(Account(1, 1000, 100, -1), 100, p);
  }

  // --------------------------------------------------------- exact amounts

  /** Notional before any clamp. */
  function Notional(a: AccountSnapshot, mark: int): int { Abs(a.positionSize) * mark }

  /** Nothing the ratio is computed from saturates. */
  predicate Unsaturated(a: AccountSnapshot, mark: U64) {
    FitsI64(Value(a, mark)) && FitsI64(Equity(a, mark)) && Notional(a, mark) <= U64_MAX
  }

  lemma {:induction false} AmountsExact(a: AccountSnapshot, mark: U64)
    requires Unsaturated(a, mark)
    ensures AccountEquity(a, mark) == Equity(a, mark) && NotionalValue(a, mark) == Notional(a, mark)
  {
    NonNegative(Abs(a.positionSize), mark);
  }

  // ------------------------------------------------- monotone in the mark

  /** As the mark rises by d / |size|, notional grows by at most d, clamped or not,
      and profit by d for a long, by -d for a short. */
  lemma {:induction false} MarkMoves(a: AccountSnapshot, lo: U64, hi: U64, d: int)
    requires lo <= hi && d == Abs(a.positionSize) * (hi - lo)
    ensures d >= 0 && 0 <= NotionalValue(a, hi) - NotionalValue(a, lo) <= d
    ensures Value(a, hi) - Value(a, lo) == Sign(a.positionSize) * d
  {
    var k := Abs(a.positionSize);
    NonNegative(k, lo);
    NonNegative(k, hi - lo);
    assert k * hi == k * lo + d;
    assert (hi - a.avgEntry) * a.positionSize == (lo - a.avgEntry) * a.positionSize + (hi - lo) * a.positionSize;
    assert (hi - lo) * a.positionSize == Sign(a.positionSize) * d;
  }

  lemma {:induction false} NotionalPositive(a: AccountSnapshot, mark: U64)
    requires a.positionSize != 0 && mark > 0
    ensures NotionalValue(a, mark) > 0
  {
    MulMono(1, Abs(a.positionSize), mark);
  }

  /** A long's profit and equity stay below the i64 ceiling at this mark. */
  predicate BelowCeiling(a: AccountSnapshot, mark: U64) { Value(a, mark) <= I64_MAX && Equity(a, mark) <= I64_MAX }

  /** Where equity gains at least what notional gains, a rate up to 100% stays covered. */
  lemma RateStaysCovered(e: int, n: int, e': int, n': int, d: int, bps: int)
    requires 0 < n <= n' <= n + d && e' >= e + d && 0 <= bps <= MARGIN_SCALE && Reaches(e, n, bps)
    ensures Reaches(e', n', bps)
  {
    MulMono(bps, MARGIN_SCALE, d);
    MulMono(n', n + d, bps);
    assert bps * (n + d) == bps * n + bps * d;
  }

  lemma {:induction false} LongCovers(a: AccountSnapshot, lo: U64, hi: U64, bps: U32)
    requires a.positionSize > 0 && 0 < lo <= hi && BelowCeiling(a, hi) && bps <= MARGIN_SCALE
    requires Covers(a, lo, bps)
    ensures Covers(a, hi, bps)
  {
    var d := Abs(a.positionSize) * (hi - lo);
    MarkMoves(a, lo, hi, d);
    NotionalPositive(a, lo);
    if bps > 0 {
      MulMono(1, bps, NotionalValue(a, lo));
      RateStaysCovered(AccountEquity(a, lo), NotionalValue(a, lo), AccountEquity(a, hi), NotionalValue(a, hi), d, bps);
    }
  }

  /** As the mark rises a long's class never worsens, while its rates are at most
      100% and its gains stay below the i64 ceiling at the higher mark. */
  lemma {:induction false} LongMonotone(a: AccountSnapshot, lo: U64, hi: U64, p: LiquidationParams)
    requires a.positionSize > 0 && 0 < lo <= hi && BelowCeiling(a, hi)
    requires p.initialMarginBps <= MARGIN_SCALE && p.maintenanceMarginBps <= MARGIN_SCALE
    ensures Health(a, lo, p).Rank() <= Health(a, hi, p).Rank()
  {
    NotionalPositive(a, lo);
    NotionalPositive(a, hi);
    HealthMeaning(a, lo, p);
    HealthMeaning(a, hi, p);
    forall bps: U32 | bps <= MARGIN_SCALE && Covers(a, lo, bps)
      ensures Covers(a, hi, bps)
    {
      LongCovers(a, lo, hi, bps);
    }
  }

  /** A short's profit does not clamp at this mark. */
  predicate ProfitFits(a: AccountSnapshot, mark: U64) { FitsI64(Value(a, mark)) }

  lemma {:induction false} ShortCovers(a: AccountSnapshot, lo: U64, hi: U64, bps: U32)
    requires a.positionSize < 0 && 0 < lo <= hi && ProfitFits(a, lo) && ProfitFits(a, hi)
    requires Covers(a, hi, bps)
    ensures Covers(a, lo, bps)
  {
    var d := Abs(a.positionSize) * (hi - lo);
    MarkMoves(a, lo, hi, d);
    NotionalPositive(a, lo);
    if bps > 0 {
      MulMono(NotionalValue(a, lo), NotionalValue(a, hi), bps);
      assert bps * NotionalValue(a, lo) == NotionalValue(a, lo) * bps
             && bps * NotionalValue(a, hi) == NotionalValue(a, hi) * bps;
    }
  }

  /** A short's class never improves, at any rates, while its profit does not clamp. */
  lemma {:induction false} ShortMonotone(a: AccountSnapshot, lo: U64, hi: U64, p: LiquidationParams)
    requires a.positionSize < 0 && 0 < lo <= hi && ProfitFits(a, lo) && ProfitFits(a, hi)
    ensures Health(a, hi, p).Rank() <= Health(a, lo, p).Rank()
  {
    NotionalPositive(a, lo);
    NotionalPositive(a, hi);
    HealthMeaning(a, lo, p);
    HealthMeaning(a, hi, p);
    forall bps: U32 | Covers(a, hi, bps)
      ensures Covers(a, lo, bps)
    {
      ShortCovers(a, lo, hi, bps);
    }
  }

  /** Long, short or flat: as the mark rises the class of the first never worsens
      and that of the second never improves, under the condition each needs; a
      flat account is always Safe. */
  lemma {:induction false} HealthMonotone(a: AccountSnapshot, lo: U64, hi: U64, p: LiquidationParams)
    requires 0 < lo <= hi
    ensures a.positionSize > 0 && BelowCeiling(a, hi)
            && p.initialMarginBps <= MARGIN_SCALE && p.maintenanceMarginBps <= MARGIN_SCALE
            ==> Health(a, lo, p).Rank() <= Health(a, hi, p).Rank()
    ensures a.positionSize < 0 && ProfitFits(a, lo) && ProfitFits(a, hi) ==>
            Health(a, hi, p).Rank() <= Health(a, lo, p).Rank()
    ensures a.positionSize == 0 ==> Health(a, lo, p) == Health(a, hi, p) == Safe
  {
    if a.positionSize == 0 {
      assert NotionalValue(a, lo) == 0 && NotionalValue(a, hi) == 0;
    } else if a.positionSize < 0 && ProfitFits(a, lo) && ProfitFits(a, hi) {
      ShortMonotone(a, lo, hi, p);
    } else if BelowCeiling(a, hi) && p.initialMarginBps <= MARGIN_SCALE && p.maintenanceMarginBps <= MARGIN_SCALE {
      if a.positionSize > 0 {
        LongMonotone(a, lo, hi, p);
      }
    }
  }

  // ------------------------------------------- how far the monotony goes

  ghost predicate LongsAreMonotone(p: LiquidationParams) {
    forall a: AccountSnapshot, lo: U64, hi: U64 ::
      a.positionSize > 0 && 0 < lo <= hi && BelowCeiling(a, hi) ==> Health(a, lo, p).Rank() <= Health(a, hi, p).Rank()
  }

  lemma {:induction false} LongsMonotoneUpTo100Percent(p: LiquidationParams)
    requires p.initialMarginBps <= MARGIN_SCALE && p.maintenanceMarginBps <= MARGIN_SCALE
    ensures LongsAreMonotone(p)
  {
    forall a: AccountSnapshot, lo: U64, hi: U64 | a.positionSize > 0 && 0 < lo <= hi && BelowCeiling(a, hi)
      ensures Health(a, lo, p).Rank() <= Health(a, hi, p).Rank()
    {
      LongMonotone(a, lo, hi, p);
    }
  }

  /** Below the ceiling the bound on the rates is exact: with a rate above 100% a
      rising mark can worsen a long, because its notional outgrows its equity. */
  lemma {:induction false} LongsMonotoneExactlyUpTo100Percent(p: LiquidationParams)
    ensures LongsAreMonotone(p) <==> p.initialMarginBps <= MARGIN_SCALE && p.maintenanceMarginBps <= MARGIN_SCALE
  {
    if p.initialMarginBps <= MARGIN_SCALE && p.maintenanceMarginBps <= MARGIN_SCALE {
      LongsMonotoneUpTo100Percent(p);
    } else {
      OverMarginedLong(p, Max(p.initialMarginBps, p.maintenanceMarginBps));
    }
  }

  /** One contract bought at zero with just enough collateral at mark 10000. */
  lemma {:induction false} OverMarginedLong(p: LiquidationParams, b: int)
    requires b == Max(p.initialMarginBps, p.maintenanceMarginBps) && b > MARGIN_SCALE
    ensures var a := Account(0, 1, 0, b - MARGIN_SCALE);
            BelowCeiling(a, 10_001) && Health(a, 10_000, p) == Safe && !Health(a, 10_001, p).Safe?
  {
    var a := Account(0, 1, 0, b - MARGIN_SCALE);
    AmountsExact(a, 10_000);
    AmountsExact(a, 10_001);
    HealthMeaning(a, 10_000, p);
    HealthMeaning(a, 10_001, p);
  }

  ghost predicate ClampedLongsAreMonotone(p: LiquidationParams) {
    forall a: AccountSnapshot, lo: U64, hi: U64 ::
      a.positionSize > 0 && 0 < lo <= hi ==> Health(a, lo, p).Rank() <= Health(a, hi, p).Rank()
  }

  /** Beyond the ceiling nothing is left of it: over all longs, clamped ones too,
      the class is monotone exactly when both rates are zero. */
  lemma {:induction false} ClampedLongsMonotoneExactlyAtZero(p: LiquidationParams)
    ensures ClampedLongsAreMonotone(p) <==> p.initialMarginBps == 0 && p.maintenanceMarginBps == 0
  {
    var b := Max(p.initialMarginBps, p.maintenanceMarginBps);
    if b == 0 {
      forall a: AccountSnapshot, lo: U64, hi: U64 | a.positionSize > 0 && 0 < lo <= hi
        ensures Health(a, lo, p).Rank() <= Health(a, hi, p).Rank()
      {
        UnratedLong(a, lo, hi, p);
      }
    } else if b <= MARGIN_SCALE {
      CappedLong(p, b);
    } else {
      OverMarginedLong(p, b);
    }
  }

  lemma {:induction false} UnratedLong(a: AccountSnapshot, lo: U64, hi: U64, p: LiquidationParams)
    requires a.positionSize > 0 && 0 < lo <= hi && p.initialMarginBps == 0 && p.maintenanceMarginBps == 0
    ensures Health(a, lo, p).Rank() <= Health(a, hi, p).Rank()
  {
    MarkMoves(a, lo, hi, Abs(a.positionSize) * (hi - lo));
    NotionalPositive(a, lo);
    NotionalPositive(a, hi);
    HealthMeaning(a, lo, p);
    HealthMeaning(a, hi, p);
  }

  /** The equity that just covers rate b on a notional of I64_MAX. */
  function JustEnough(b: nat): nat { (b * I64_MAX + MARGIN_SCALE - 1) / MARGIN_SCALE }

  lemma {:induction false} CappedAmounts(c: nat)
    requires c <= I64_MAX
    ensures var a := Account(0, 1, 0, c - I64_MAX);
            && AccountEquity(a, I64_MAX) == c && NotionalValue(a, I64_MAX) == I64_MAX
            && AccountEquity(a, U64_MAX) == c && NotionalValue(a, U64_MAX) == U64_MAX
  {
  }

  /** A long whose profit is at the i64 ceiling at mark I64_MAX and stays there,
      while its notional doubles. */
  lemma {:induction false} CappedLong(p: LiquidationParams, b: int)
    requires b == Max(p.initialMarginBps, p.maintenanceMarginBps) && 0 < b <= MARGIN_SCALE
    ensures JustEnough(b) <= I64_MAX
    ensures var a := Account(0, 1, 0, JustEnough(b) - I64_MAX);
            Health(a, I64_MAX, p) == Safe && !Health(a, U64_MAX, p).Safe?
  {
    var c := JustEnough(b);
    FloorBounds(b * I64_MAX + MARGIN_SCALE - 1, MARGIN_SCALE, c);
    CappedAmounts(c);
    var a := Account(0, 1, 0, c - I64_MAX);
    HealthMeaning(a, I64_MAX, p);
    HealthMeaning(a, U64_MAX, p);
    MulMono(p.initialMarginBps, b, I64_MAX);
    MulMono(p.maintenanceMarginBps, b, I64_MAX);
  }

  /** Rates of 60% and 2%, one contract bought at zero without collateral: Safe at
      mark I64_MAX, AtRisk at U64_MAX. */
  lemma {:induction false} CappedLongUnder100Percent()
    ensures var a, p := Account(1, 1, 0, 0), LiquidationParams(6000, 200, 150);
            Health(a, I64_MAX, p) == Safe && Health(a, U64_MAX, p) == AtRisk
  {
    var a, p := Account(1, 1, 0, 0), LiquidationParams(6000, 200, 150);
    assert AccountEquity(a, I64_MAX) == I64_MAX && NotionalValue(a, I64_MAX) == I64_MAX;
    assert AccountEquity(a, U64_MAX) == I64_MAX && NotionalValue(a, U64_MAX) == U64_MAX;
    HealthMeaning(a, I64_MAX, p);
    HealthMeaning(a, U64_MAX, p);
  }

  /** The condition on shorts is needed at every pair of rates: a short whose
      profit is at the ceiling while its debt is one improves as the mark rises. */
  lemma {:induction false} CappedShortImproves(p: LiquidationParams)
    ensures var a := Account(1, -1, U64_MAX, I64_MIN);
            Health(a, 1, p) == Underwater && Health(a, 20_000, p).Rank() > 0
  {
    var a := Account(1, -1, U64_MAX, I64_MIN);
    assert AccountEquity(a, 1) == -1 && NotionalValue(a, 1) == 1;
    assert AccountEquity(a, 20_000) == -1 && NotionalValue(a, 20_000) == 20_000;
    HealthMeaning(a, 1, p);
    HealthMeaning(a, 20_000, p);
  }

  // ------------------------------------------------ the two margin models

  /** The initial-margin requirement before any saturation. */
  function Requirement(a: AccountSnapshot, mark: int, imBps: int): int { Notional(a, mark) * imBps / MARGIN_SCALE }

  predicate RequirementFits(a: AccountSnapshot, mark: U64, imBps: U32) {
    Requirement(a, mark, imBps) <= I64_MAX && FitsI64(Equity(a, mark) - Requirement(a, mark, imBps))
  }

  lemma FreeCollateralExact(a: AccountSnapshot, mark: U64, imBps: U32)
    requires Unsaturated(a, mark) && RequirementFits(a, mark, imBps)
    ensures FreeCollateral(a, mark, imBps) == Equity(a, mark) - Requirement(a, mark, imBps)
  {
    RequirementExact(a, mark, imBps);
  }

  /** The requirement is a whole number, not rounded down. */
  predicate RequirementIsWhole(a: AccountSnapshot, mark: int, imBps: int) {
    Notional(a, mark) * imBps % MARGIN_SCALE == 0
  }

  /** Clearing's free collateral and liquidation's class agree to one unit: an
      account is Safe exactly when it has a unit of free collateral, or none
      and a requirement that was not rounded down. */
  lemma {:induction false} MarginModelsAgree(a: AccountSnapshot, mark: U64, p: LiquidationParams)
    requires Unsaturated(a, mark) && Notional(a, mark) > 0 && RequirementFits(a, mark, p.initialMarginBps)
    requires 1 <= p.initialMarginBps && p.maintenanceMarginBps <= p.initialMarginBps
    ensures var free := FreeCollateral(a, mark, p.initialMarginBps);
            Health(a, mark, p).Safe? <==> free >= 1 || (free == 0 && RequirementIsWhole(a, mark, p.initialMarginBps))
  {
    var n, b, e := Notional(a, mark), p.initialMarginBps, Equity(a, mark);
    FreeCollateralExact(a, mark, b);
    AmountsExact(a, mark);
    HealthMeaning(a, mark, p);
    InitialRateDecides(e * MARGIN_SCALE, n, p.maintenanceMarginBps, b);
    SafeArithmetic(e, n * b, Requirement(a, mark, b));
  }

  /** Covering the larger of two rates covers the smaller one and the zero rate. */
  lemma InitialRateDecides(x: int, n: int, m: nat, b: int)
    requires n > 0 && b >= 1 && m <= b
    ensures b * n == n * b && (x >= b * n ==> x > 0 && x >= m * n)
  {
    MulMono(1, n, b);
    MulMono(m, b, n);
  }

  lemma SafeArithmetic(e: int, x: int, req: int)
    requires req == x / MARGIN_SCALE
    ensures e * MARGIN_SCALE >= x <==> e - req >= 1 || (e == req && x % MARGIN_SCALE == 0)
  {
  }

  /** A withdrawal allowed at a mark leaves the account Safe at that mark or, by
      rounding alone, exactly at zero free collateral. */
  lemma {:induction false} WithdrawalLeavesMargin(a: AccountSnapshot, mark: U64, p: LiquidationParams, amount: nat)
    requires FitsI64(a.collateral - amount) && amount <= WithdrawFreeCollateral(a, Some(mark), p.initialMarginBps)
    requires 1 <= p.initialMarginBps && p.maintenanceMarginBps <= p.initialMarginBps && Notional(a, mark) > 0
    requires var a' := a.(collateral := a.collateral - amount);
             Unsaturated(a', mark) && RequirementFits(a', mark, p.initialMarginBps)
    ensures var a' := a.(collateral := a.collateral - amount);
            var free := FreeCollateral(a', mark, p.initialMarginBps);
            free >= 0 && (Health(a', mark, p).Safe? || (free == 0 && !RequirementIsWhole(a', mark, p.initialMarginBps)))
  {
    var a' := a.(collateral := a.collateral - amount);
    FreeCollateralExact(a', mark, p.initialMarginBps);
    MarginModelsAgree(a', mark, p);
    RequirementExact(a, mark, p.initialMarginBps);
  }

  lemma RequirementExact(a: AccountSnapshot, mark: U64, imBps: U32)
    requires Notional(a, mark) <= U64_MAX && Requirement(a, mark, imBps) <= I64_MAX
    ensures InitialMarginRequirementAt(a, mark, imBps) == Requirement(a, mark, imBps)
  {
    var n := Notional(a, mark);
    NonNegative(Abs(a.positionSize), mark);
    MulMono(n, U64_MAX, imBps);
    MulMono(imBps, U32_MAX, U64_MAX);
    NonNegative(n, imBps);
    assert TruncDiv(n * imBps, MARGIN_SCALE) == Requirement(a, mark, imBps);
    FloorBounds(n * imBps, MARGIN_SCALE, Requirement(a, mark, imBps));
  }
}
