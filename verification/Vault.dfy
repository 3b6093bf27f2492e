/** Share accounting of a vault: proportional minting and burning, rounded down,
    so that rounding always favours those who stay. */
module Vault {
  import opened Machine

  const SHARE_PRICE_BPS_SCALE := 10_000

  datatype DepositError =
    | NonPositiveAssets(provided: I64)
    | BelowMinimum(provided: I64, minimum: I64)
    | InsolventOnDeposit(totalAssets: I64, totalShares: U64)
    | SharesRoundToZero(provided: I64)

  datatype WithdrawError =
    | ZeroShares
    | InsufficientShares(requested: U64, available: U64)
    | InsolventOnWithdraw(totalAssets: I64, totalShares: U64)

  /** Outstanding shares and the assets behind them. */
  datatype Pool = Pool(shares: U64, assets: I64) {
    predicate Insolvent() { shares > 0 && assets <= 0 }

    /** Shares outstanding and assets behind them. */
    predicate Backed() { shares > 0 && assets > 0 }

    predicate Drained() { shares == 0 && assets == 0 }
  }

  datatype DepositResult = DepositResult(sharesMinted: U64, pool: Pool)

  datatype WithdrawResult = WithdrawResult(assetsReturned: I64, pool: Pool)

  // ------------------------------------------------------------ conversions

  function AssetsToShares(assets: I64, totalShares: U64, totalAssets: I64): Option<U64> {
    if assets <= 0 then None
    else if totalShares == 0 then Some(assets)
    else if totalAssets <= 0 then None
    else
      var raw := TruncDiv(SatI128(assets * totalShares), totalAssets);
      if raw < 0 then None else Some(SatU64(raw))
  }

  function SharesToAssets(shares: U64, totalShares: U64, totalAssets: I64): Option<I64> {
    if shares == 0 || totalShares == 0 || totalAssets <= 0 then None
    else
      var raw := TruncDiv(SatI128(shares * totalAssets), totalShares);
      if FitsI64(raw) then Some(raw) else None
  }

  /** Assets per share in basis points, 1.0 for a vault without shares. */
  function SharePriceBps(totalShares: U64, totalAssets: I64): Option<I64> {
    if totalShares == 0 then Some(SHARE_PRICE_BPS_SCALE)
    else if totalAssets <= 0 then None
    else
      var raw := TruncDiv(SatI128(totalAssets * SHARE_PRICE_BPS_SCALE), totalShares);
      if FitsI64(raw) then Some(raw) else None
  }

  /** The minted shares are the floor of the proportional share, up to the u64
      ceiling: the product never saturates. */
  lemma {:induction false} MintBounds(a: I64, s: U64, t: I64) returns (m: int)
    requires a > 0 && s > 0 && t > 0
    ensures m >= 0 && AssetsToShares(a, s, t) == Some(SatU64(m))
    ensures m * t <= a * s < m * t + t
  {
    I64TimesU64FitsI128(a, s);
    MulMono(0, a, s);
    m := TruncDivBounds(a * s, t);
  }

  /** A release is the floor of the proportional assets: it always fits, is all
      of them exactly when every share is burned, and otherwise less. */
  lemma ReleaseBounds(s: U64, total: U64, t: I64) returns (r: int)
    requires 0 < s <= total && t > 0
    ensures 0 <= r <= t && SharesToAssets(s, total, t) == Some(r)
    ensures r * total <= s * t < r * total + total
    ensures r == t <==> s == total
  {
    I64TimesU64FitsI128(t, s);
    MulMono(0, t, s);
    MulMono(s, total, t);
    r := TruncDivBounds(s * t, total);
    QuotientAtMost(r, total, s, t);
  }

  lemma QuotientAtMost(r: int, total: int, s: int, t: int)
    requires 0 < s <= total && t > 0 && 0 <= r && r * total <= s * t < r * total + total
    ensures r <= t && (r == t <==> s == total)
  {
    assert (total - 1) * t == total * t - t && (t - 1) * total == t * total - total;
    if r > t {
      MulMono(t + 1, r, total);
      MulMono(s, total, t);
    } else if r == t && s < total {
      MulMono(s, total - 1, t);
    } else if r < t && s == total {
      MulMono(r, t - 1, total);
    }
  }

  /** When the conversions are defined: some assets or shares to convert, and assets
      behind the shares there are. */
  lemma {:induction false} ConversionsDefinedExactly(a: I64, s: U64, shares: U64, assets: I64)
    ensures AssetsToShares(a, shares, assets).Some? <==> a > 0 && (shares == 0 || assets > 0)
    ensures s <= shares ==> (SharesToAssets(s, shares, assets).Some? <==> s > 0 && assets > 0)
  {
    if a > 0 && shares > 0 && assets > 0 {
      var m := MintBounds(a, shares, assets);
    }
    if 0 < s <= shares && assets > 0 {
      var r := ReleaseBounds(s, shares, assets);
    }
  }

  // ------------------------------------------------------------- operations

  function DepositInto(p: Pool, minDeposit: I64, assets: I64): Result<DepositResult, DepositError> {
    if assets <= 0 then Err(NonPositiveAssets(assets))
    else if assets < minDeposit then Err(BelowMinimum(assets, minDeposit))
    else if p.Insolvent() then Err(InsolventOnDeposit(p.assets, p.shares))
    else
      match AssetsToShares(assets, p.shares, p.assets)
      case None => Err(InsolventOnDeposit(p.assets, p.shares))
      case Some(minted) =>
        if minted == 0 then Err(SharesRoundToZero(assets))
        else Ok(DepositResult(minted, Pool(SatU64(p.shares + minted), SatI64(p.assets + assets))))
  }

  function WithdrawFrom(p: Pool, shares: U64): Result<WithdrawResult, WithdrawError> {
    if shares == 0 then Err(ZeroShares)
    else if shares > p.shares then Err(InsufficientShares(shares, p.shares))
    else if p.Insolvent() then Err(InsolventOnWithdraw(p.assets, p.shares))
    else
      match SharesToAssets(shares, p.shares, p.assets)
      case None => Err(InsolventOnWithdraw(p.assets, p.shares))
      case Some(returned) =>
        Ok(WithdrawResult(returned, Pool(p.shares - shares, SatI64(p.assets - returned))))
  }

  function AfterDeposit(p: Pool, minDeposit: I64, assets: I64): Pool {
    var r := DepositInto(p, minDeposit, assets);
    if r.Ok? then r.value.pool else p
  }

  function AfterWithdraw(p: Pool, shares: U64): Pool {
    var r := WithdrawFrom(p, shares);
    if r.Ok? then r.value.pool else p
  }

  class VaultState {
    const minDeposit: I64
    var totalShares: U64
    var totalAssets: I64

    function State(): Pool reads this { Pool(totalShares, totalAssets) }

    /** A fresh vault is `Restore(minDeposit, 0, 0)`. */
    constructor Restore(minDeposit: I64, totalShares: U64, totalAssets: I64)
      ensures State() == Pool(totalShares, totalAssets) && this.minDeposit == minDeposit
    {
      this.minDeposit := minDeposit;
      this.totalShares := totalShares;
      this.totalAssets := totalAssets;
    }

    method Deposit(assets: I64) returns (r: Result<DepositResult, DepositError>)
      modifies this
      ensures r == DepositInto(old(State()), minDeposit, assets)
      ensures State() == AfterDeposit(old(State()), minDeposit, assets)
    {
      if assets <= 0 {
        return Err(NonPositiveAssets(assets));
      }
      if assets < minDeposit {
        return Err(BelowMinimum(assets, minDeposit));
      }
      if State().Insolvent() {
        return Err(InsolventOnDeposit(totalAssets, totalShares));
      }
      var minted := AssetsToShares(assets, totalShares, totalAssets);
      if minted.None? {
        return Err(InsolventOnDeposit(totalAssets, totalShares));
      }
      if minted.value == 0 {
        return Err(SharesRoundToZero(assets));
      }
      totalShares := SatU64(totalShares + minted.value);
      totalAssets := SatI64(totalAssets + assets);
      r := Ok(DepositResult(minted.value, State()));
    }

    method Withdraw(shares: U64) returns (r: Result<WithdrawResult, WithdrawError>)
      modifies this
      ensures r == WithdrawFrom(old(State()), shares)
      ensures State() == AfterWithdraw(old(State()), shares)
    {
      if shares == 0 {
        return Err(ZeroShares);
      }
      if shares > totalShares {
        return Err(InsufficientShares(shares, totalShares));
      }
      if State().Insolvent() {
        return Err(InsolventOnWithdraw(totalAssets, totalShares));
      }
      var returned := SharesToAssets(shares, totalShares, totalAssets);
      if returned.None? {
        return Err(InsolventOnWithdraw(totalAssets, totalShares));
      }
      totalShares := totalShares - shares;
      totalAssets := SatI64(totalAssets - returned.value);
      r := Ok(WithdrawResult(returned.value, State()));
    }

    method MarkToMarket(newTotalAssets: I64)
      modifies this
      ensures State() == Pool(old(totalShares), newTotalAssets)
    {
      totalAssets := newTotalAssets;
    }
  }

  // ------------------------------------------------- what is accepted

  /** Which deposits are accepted: positive, at least the minimum, into a vault that
      is not insolvent, and large enough to mint a share. The first depositor gets
      one share for each asset. */
  lemma {:induction false} DepositAcceptedExactly(p: Pool, minDeposit: I64, a: I64)
    ensures DepositInto(p, minDeposit, a).Ok?
            <==> a > 0 && a >= minDeposit && (p.shares == 0 || (p.assets > 0 && a * p.shares >= p.assets))
    ensures DepositInto(p, minDeposit, a).Ok? && p.shares == 0 ==> DepositInto(p, minDeposit, a).value.sharesMinted == a
  {
    if a > 0 && p.shares > 0 && p.assets > 0 {
      var m := MintBounds(a, p.shares, p.assets);
      if m > 0 {
        MulMono(1, m, p.assets);
      }
    }
  }

  /** Why a deposit is refused, each reason only after those before it. */
  lemma {:induction false} DepositRefusedBecause(p: Pool, minDeposit: I64, a: I64)
    requires DepositInto(p, minDeposit, a).Err?
    ensures DepositInto(p, minDeposit, a).error
            == if a <= 0 then NonPositiveAssets(a)
               else if a < minDeposit then BelowMinimum(a, minDeposit)
               else if p.assets <= 0 then InsolventOnDeposit(p.assets, p.shares)
               else SharesRoundToZero(a)
  {
    DepositAcceptedExactly(p, minDeposit, a);
    if a > 0 && p.shares > 0 && p.assets > 0 {
      var m := MintBounds(a, p.shares, p.assets);
    }
  }

  /** Which withdrawals are accepted, and why the others are not. */
  lemma {:induction false} WithdrawAcceptedExactly(p: Pool, s: U64)
    ensures WithdrawFrom(p, s).Ok? <==> 0 < s <= p.shares && p.assets > 0
    ensures WithdrawFrom(p, s).Err? ==>
            WithdrawFrom(p, s).error
            == if s == 0 then ZeroShares
               else if s > p.shares then InsufficientShares(s, p.shares)
               else InsolventOnWithdraw(p.assets, p.shares)
  {
    if 0 < s <= p.shares && p.assets > 0 {
      var r := ReleaseBounds(s, p.shares, p.assets);
    }
  }

  /** The reported price is assets per share in basis points, rounded down: undefined
      for an insolvent vault or past the i64 ceiling, one for a vault without shares. */
  lemma {:induction false} SharePriceMeaning(shares: U64, assets: I64)
    ensures shares == 0 ==> SharePriceBps(shares, assets) == Some(10_000)
    ensures shares > 0 && assets <= 0 ==> SharePriceBps(shares, assets) == None
    ensures var price := SharePriceBps(shares, assets);
            shares > 0 && assets > 0 ==>
              if assets * 10_000 >= (I64_MAX + 1) * shares then price == None
              else price.Some? && price.value * shares <= assets * 10_000 < (price.value + 1) * shares
  {
    if shares > 0 && assets > 0 {
      var q := TruncDivBounds(assets * SHARE_PRICE_BPS_SCALE, shares);
      assert (q + 1) * shares == q * shares + shares;
      if q > I64_MAX {
        MulMono(I64_MAX + 1, q, shares);
      } else {
        MulMono(q + 1, I64_MAX + 1, shares);
      }
    }
  }

  // --------------------------------------------------------- assets per share

  /** Assets per share of q are at least those of p, without dividing. */
  predicate PriceAtLeast(q: Pool, p: Pool) { q.assets * p.shares >= p.assets * q.shares }

  lemma PriceTransitive(p: Pool, q: Pool, r: Pool)
    requires PriceAtLeast(q, p) && PriceAtLeast(r, q) && q.shares > 0
    ensures PriceAtLeast(r, p)
  {
    var x, y := r.assets * p.shares, p.assets * r.shares;
    MulMono(q.assets * r.shares, r.assets * q.shares, p.shares);
    MulMono(p.assets * q.shares, q.assets * p.shares, r.shares);
    assert q.assets * r.shares * p.shares == q.assets * p.shares * r.shares;
    assert x * q.shares == r.assets * q.shares * p.shares && y * q.shares == p.assets * q.shares * r.shares;
    assert (y - 1) * q.shares == y * q.shares - q.shares;
    if x < y {
      MulMono(x, y - 1, q.shares);
    }
  }

  /** What a deposit really adds: both totals stop at their ceilings. */
  function SharesAdded(p: Pool, minted: U64): nat { Min(p.shares + minted, U64_MAX) - p.shares }

  function AssetsKept(p: Pool, a: int): int { Min(a, I64_MAX - p.assets) }

  /** A deposit does not dilute: it is refused, or the shares it adds are at most
      proportional to the assets it adds, ceilings included. */
  predicate Undiluting(p: Pool, minDeposit: I64, a: I64) {
    match DepositInto(p, minDeposit, a)
    case Err(_) => true
    case Ok(d) => SharesAdded(p, d.sharesMinted) * p.assets <= AssetsKept(p, a) * p.shares
  }

  lemma AddedArithmetic(s: int, t: int, ds: int, dt: int)
    ensures (t + dt) * s >= t * (s + ds) <==> ds * t <= dt * s
  {
    assert (t + dt) * s == t * s + dt * s && t * (s + ds) == t * s + ds * t;
  }

  /** A deposit on a backed vault leaves it backed, and keeps the assets behind
      each share exactly when it does not dilute. */
  lemma DepositKeepsPriceExactly(p: Pool, minDeposit: I64, a: I64)
    requires p.Backed()
    ensures var q := AfterDeposit(p, minDeposit, a);
            q.Backed() && (PriceAtLeast(q, p) <==> Undiluting(p, minDeposit, a))
  {
    match DepositInto(p, minDeposit, a)
    case Err(_) =>
    case Ok(d) =>
      AddedArithmetic(p.shares, p.assets, SharesAdded(p, d.sharesMinted), AssetsKept(p, a));
  }

  /** An accepted deposit stays below the i64 ceiling on the assets. */
  predicate BelowCeiling(p: Pool, minDeposit: I64, a: I64) {
    DepositInto(p, minDeposit, a).Ok? ==> p.assets + a <= I64_MAX
  }

  /** Only the i64 ceiling on the assets can dilute: a deposit that fits is minted
      at most its proportional shares, whatever happens to the share total. */
  lemma FittingDepositUndiluting(p: Pool, minDeposit: I64, a: I64)
    requires p.Backed() && BelowCeiling(p, minDeposit, a)
    ensures Undiluting(p, minDeposit, a)
  {
    if DepositInto(p, minDeposit, a).Ok? {
      var m := MintBounds(a, p.shares, p.assets);
      MulMono(SharesAdded(p, SatU64(m)), m, p.assets);
    }
  }

  lemma WithdrawKeepsPrice(p: Pool, s: U64)
    requires p.Backed()
    ensures var q := AfterWithdraw(p, s);
            (q.Backed() || q.Drained()) && PriceAtLeast(q, p)
  {
    if WithdrawFrom(p, s).Ok? {
      var r := ReleaseBounds(s, p.shares, p.assets);
      assert (p.assets - r) * p.shares == p.assets * p.shares - r * p.shares;
      assert p.assets * (p.shares - s) == p.assets * p.shares - s * p.assets;
    }
  }

  /** Burning every share of a backed vault succeeds and releases all assets;
      burning fewer leaves both shares and assets. */
  lemma {:induction false} BurnAllReleasesAll(p: Pool, s: U64)
    requires p.Backed() && 0 < s <= p.shares
    ensures var w := WithdrawFrom(p, s);
            && w.Ok? && (s == p.shares <==> w.value.assetsReturned == p.assets)
            && (s == p.shares <==> w.value.pool.Drained())
  {
    var r := ReleaseBounds(s, p.shares, p.assets);
  }

  // -------------------------------------------------------------------- runs

  datatype Op = Deposit(assets: I64) | Withdraw(shares: U64)

  function Step(p: Pool, minDeposit: I64, op: Op): Pool {
    match op
    case Deposit(a) => AfterDeposit(p, minDeposit, a)
    case Withdraw(s) => AfterWithdraw(p, s)
  }

  function Run(p: Pool, minDeposit: I64, ops: seq<Op>): Pool
    decreases |ops|
  {
    if ops == [] then p else Run(Step(p, minDeposit, ops[0]), minDeposit, ops[1..])
  }

  /** Some shares remain after every operation of the run but the last. */
  predicate NeverDrained(p: Pool, minDeposit: I64, ops: seq<Op>)
    decreases |ops|
  {
    ops == [] || (p.shares > 0 && NeverDrained(Step(p, minDeposit, ops[0]), minDeposit, ops[1..]))
  }

  predicate StepUndiluting(p: Pool, minDeposit: I64, op: Op) { op.Deposit? ==> Undiluting(p, minDeposit, op.assets) }

  /** No deposit of the run dilutes, each judged at its own step. */
  predicate NeverDiluted(p: Pool, minDeposit: I64, ops: seq<Op>)
    decreases |ops|
  {
    || ops == []
    || (StepUndiluting(p, minDeposit, ops[0]) && NeverDiluted(Step(p, minDeposit, ops[0]), minDeposit, ops[1..]))
  }

  predicate StepBelowCeiling(p: Pool, minDeposit: I64, op: Op) {
    op.Deposit? ==> BelowCeiling(p, minDeposit, op.assets)
  }

  /** No accepted deposit of the run takes the assets of its own step past an i64. */
  predicate NeverClamped(p: Pool, minDeposit: I64, ops: seq<Op>)
    decreases |ops|
  {
    || ops == []
    || (StepBelowCeiling(p, minDeposit, ops[0]) && NeverClamped(Step(p, minDeposit, ops[0]), minDeposit, ops[1..]))
  }

  /** No step of the run lowers the assets behind each share. */
  predicate NeverCheaper(p: Pool, minDeposit: I64, ops: seq<Op>)
    decreases |ops|
  {
    var q := if ops == [] then p else Step(p, minDeposit, ops[0]);
    ops == [] || (PriceAtLeast(q, p) && NeverCheaper(q, minDeposit, ops[1..]))
  }

  /** A drained vault opens again at one asset a share. */
  lemma DrainedReopens(p: Pool, minDeposit: I64, op: Op)
    requires p.Drained()
    ensures var q := Step(p, minDeposit, op);
            q == p || (op.Deposit? && q == Pool(op.assets, op.assets) && q.Backed())
  {
  }

  /** Any one operation keeps a vault backed or drains it, and keeps the assets
      behind each share exactly when it is not a diluting deposit. */
  lemma StepKeepsPriceExactly(p: Pool, minDeposit: I64, op: Op)
    requires p.Backed()
    ensures var q := Step(p, minDeposit, op);
            (q.Backed() || q.Drained()) && (PriceAtLeast(q, p) <==> StepUndiluting(p, minDeposit, op))
  {
    match op
    case Deposit(a) => DepositKeepsPriceExactly(p, minDeposit, a);
    case Withdraw(s) => WithdrawKeepsPrice(p, s);
  }

  /** A backed vault stays backed until its last share is burned, when nothing is
      left over, through every run of deposits and withdrawals. */
  lemma {:induction false} RunStaysBacked(p: Pool, minDeposit: I64, ops: seq<Op>, r: Pool)
    requires p.Backed() || p.Drained()
    requires r == Run(p, minDeposit, ops)
    ensures r.Backed() || r.Drained()
    decreases |ops|
  {
    if ops != [] {
      if p.Drained() {
        DrainedReopens(p, minDeposit, ops[0]);
      } else {
        StepKeepsPriceExactly(p, minDeposit, ops[0]);
      }
      RunStaysBacked(Step(p, minDeposit, ops[0]), minDeposit, ops[1..], r);
    }
  }

  /** While shares remain, no step of a run lowers the assets behind each share
      exactly when no deposit of the run dilutes. */
  lemma {:induction false} NeverCheaperExactly(p: Pool, minDeposit: I64, ops: seq<Op>)
    requires p.Backed() && NeverDrained(p, minDeposit, ops)
    ensures NeverCheaper(p, minDeposit, ops) <==> NeverDiluted(p, minDeposit, ops)
    decreases |ops|
  {
    if ops != [] {
      var q := Step(p, minDeposit, ops[0]);
      StepKeepsPriceExactly(p, minDeposit, ops[0]);
      if q.Backed() {
        NeverCheaperExactly(q, minDeposit, ops[1..]);
      }
    }
  }

  /** A deposit can dilute only through the i64 ceiling: a run below it never does,
      whatever is rounded away and whatever happens to the share total. */
  lemma {:induction false} UnclampedRunNeverDilutes(p: Pool, minDeposit: I64, ops: seq<Op>)
    requires p.Backed() && NeverDrained(p, minDeposit, ops) && NeverClamped(p, minDeposit, ops)
    ensures NeverDiluted(p, minDeposit, ops)
    decreases |ops|
  {
    if ops != [] {
      var q := Step(p, minDeposit, ops[0]);
      StepKeepsPriceExactly(p, minDeposit, ops[0]);
      if ops[0].Deposit? {
        FittingDepositUndiluting(p, minDeposit, ops[0].assets);
      }
      if q.Backed() {
        UnclampedRunNeverDilutes(q, minDeposit, ops[1..]);
      }
    }
  }

  /** So over any such run assets per share do not fall while shares remain. */
  lemma {:induction false} RunKeepsPrice(p: Pool, minDeposit: I64, ops: seq<Op>, r: Pool)
    requires p.Backed() && NeverDrained(p, minDeposit, ops) && NeverClamped(p, minDeposit, ops)
    requires r == Run(p, minDeposit, ops)
    ensures PriceAtLeast(r, p)
  {
    UnclampedRunNeverDilutes(p, minDeposit, ops);
    UndilutedRunKeepsPrice(p, minDeposit, ops, r);
  }

  lemma {:induction false} UndilutedRunKeepsPrice(p: Pool, minDeposit: I64, ops: seq<Op>, r: Pool)
    requires p.Backed() && NeverDrained(p, minDeposit, ops) && NeverDiluted(p, minDeposit, ops)
    requires r == Run(p, minDeposit, ops)
    ensures PriceAtLeast(r, p)
    decreases |ops|
  {
    if ops != [] {
      var q := Step(p, minDeposit, ops[0]);
      StepKeepsPriceExactly(p, minDeposit, ops[0]);
      if q.shares > 0 {
        UndilutedRunKeepsPrice(q, minDeposit, ops[1..], r);
        PriceTransitive(p, q, r);
      }
    }
  }

  /** The ceiling on the assets is needed: a deposit clamped by it can dilute ... */
  lemma ClampedDepositDilutes()
    ensures var p := Pool(4, I64_MAX - 1);
            !Undiluting(p, 1, I64_MAX - 1) && !PriceAtLeast(AfterDeposit(p, 1, I64_MAX - 1), p)
  {
    assert AssetsToShares(I64_MAX - 1, 4, I64_MAX - 1) == Some(4);
  }

  /** ... but clamping alone does not: this deposit is clamped and the price rises. */
  lemma ClampedDepositCanConcentrate()
    ensures var p := Pool(1, 4_000_000_000_000_000_000);
            && AfterDeposit(p, 1, 6_000_000_000_000_000_000) == Pool(2, I64_MAX)
            && Undiluting(p, 1, 6_000_000_000_000_000_000)
  {
    assert AssetsToShares(6_000_000_000_000_000_000, 1, 4_000_000_000_000_000_000) == Some(1);
  }

  // -------------------------------------------------------------- round trips

  /** The share total is clamped, and what the minted shares are then worth
      exceeds the deposit. */
  predicate ShareCeilingGain(p: Pool, a: I64, minted: U64) {
    p.shares + minted > U64_MAX && minted * Min(p.assets + a, I64_MAX) >= (a + 1) * U64_MAX
  }

  /** Deposit and at once withdraw the shares minted. Of the assets that were
      kept, the loss beyond one unit is always less than one old share price;
      and more comes back than was paid in exactly through the share ceiling. */
  lemma RoundTrip(p: Pool, minDeposit: I64, a: I64)
    requires p.Backed() && DepositInto(p, minDeposit, a).Ok?
    ensures var d := DepositInto(p, minDeposit, a).value;
            var w := WithdrawFrom(d.pool, d.sharesMinted);
            && w.Ok?
            && (AssetsKept(p, a) - w.value.assetsReturned - 1) * (p.shares + d.sharesMinted) < p.assets
            && (w.value.assetsReturned > a <==> ShareCeilingGain(p, a, d.sharesMinted))
  {
    var d := DepositInto(p, minDeposit, a).value;
    var m := MintBounds(a, p.shares, p.assets);
    var r := ReleaseBounds(d.sharesMinted, d.pool.shares, d.pool.assets);
    GainArithmetic(d.sharesMinted, d.pool.shares, d.pool.assets, a, r);
    if m <= U64_MAX {
      LossBound(p.shares, p.assets, a, AssetsKept(p, a), m, d.pool.shares, r);
    } else {
      ClampedLossBound(p.shares, p.assets, AssetsKept(p, a), d.pool.shares, r);
    }
    if p.shares + d.sharesMinted <= U64_MAX {
      NoGainBelowCeiling(p.shares, p.assets, a, AssetsKept(p, a), m, r);
    }
  }

  lemma GainArithmetic(m: int, s: int, t: int, a: int, r: int)
    requires s > 0 && r * s <= m * t < r * s + s
    ensures r > a <==> m * t >= (a + 1) * s
  {
    assert (r + 1) * s == r * s + s;
    if r > a {
      MulMono(a + 1, r, s);
    } else {
      MulMono(r + 1, a + 1, s);
    }
  }

  lemma NoGainBelowCeiling(s: int, t: int, a: int, k: int, m: int, r: int)
    requires m >= 0 && s + m > 0 && k <= a && m * t <= a * s
    requires r * (s + m) <= m * (t + k)
    ensures r <= a
  {
    assert m * (t + k) == m * t + k * m && a * (s + m) == a * s + a * m;
    assert (a + 1) * (s + m) == a * (s + m) + (s + m);
    MulMono(k, a, m);
    if r > a {
      MulMono(a + 1, r, s + m);
    }
  }

  /** All m shares due were minted; s' is the share total kept. */
  lemma LossBound(s: int, t: int, a: int, k: int, m: int, s': int, r: int)
    requires s > 0 && m >= 0 && k <= a && a * s < m * t + t && 0 < s' <= s + m
    requires r >= 0 && m * (t + k) < r * s' + s'
    ensures (k - r - 1) * (s + m) < t
  {
    MulMono(k, a, s);
    MulMono(s', s + m, r + 1);
    assert s' * (r + 1) == r * s' + s' && m * (t + k) == m * t + k * m;
    assert (k - r - 1) * (s + m) == k * s + k * m - (s + m) * (r + 1);
  }

  /** The mint itself was clamped, so it is the whole share total kept. */
  lemma ClampedLossBound(s: int, t: int, k: int, s': int, r: int)
    requires s > 0 && t > 0 && s' > 0 && r * s' <= s' * (t + k) < r * s' + s'
    ensures (k - r - 1) * (s + s') < t
  {
    AllReleased(s', t + k, r);
    MulMono(k - r - 1, 0, s + s');
  }

  lemma AllReleased(s: int, t: int, r: int)
    requires s > 0 && r * s <= s * t < r * s + s
    ensures r == t
  {
    assert (r + 1) * s == r * s + s && (t + 1) * s == t * s + s;
    if r < t {
      MulMono(r + 1, t, s);
    } else if t < r {
      MulMono(t + 1, r, s);
    }
  }

  /** More comes back than was paid in exactly for the first depositor of a vault
      that already held assets (who must pay in less than the largest i64), and
      where the share ceiling swallows shares that stood for assets. */
  lemma RoundTripGainsExactly(p: Pool, minDeposit: I64, a: I64)
    requires DepositInto(p, minDeposit, a).Ok?
    ensures var d := DepositInto(p, minDeposit, a).value;
            var w := WithdrawFrom(d.pool, d.sharesMinted);
            w.Ok? && w.value.assetsReturned > a
            <==> (if p.shares == 0 then p.assets > 0 && a < I64_MAX else ShareCeilingGain(p, a, d.sharesMinted))
  {
    if p.shares > 0 {
      RoundTrip(p, minDeposit, a);
    } else {
      var d := DepositInto(p, minDeposit, a).value;
      if d.pool.assets > 0 {
        BurnAllReleasesAll(d.pool, a);
      }
    }
  }

  /** Four assets paid into a vault at the share ceiling come back as eight ... */
  lemma ShareCeilingGains()
    ensures var d := DepositInto(Pool(U64_MAX, 4), 0, 4);
            d.Ok? && WithdrawFrom(d.value.pool, d.value.sharesMinted) == Ok(WithdrawResult(8, Pool(0, 0)))
  {
    assert AssetsToShares(4, U64_MAX, 4) == Some(U64_MAX);
    assert SharesToAssets(U64_MAX, U64_MAX, 8) == Some(8);
  }

  /** ... and such a vault is reached from an empty one by three deposits and a mark. */
  lemma ShareCeilingReachable()
    ensures AfterDeposit(Pool(0, 0), 0, I64_MAX) == Pool(I64_MAX, I64_MAX)
    ensures AfterDeposit(Pool(I64_MAX, 1), 0, 1) == Pool(U64_MAX - 1, 2)
    ensures AfterDeposit(Pool(U64_MAX - 1, 2), 0, 2) == Pool(U64_MAX, 4)
  {
    assert AssetsToShares(1, I64_MAX, 1) == Some(I64_MAX);
    assert AssetsToShares(2, U64_MAX - 1, 2) == Some(U64_MAX - 1);
  }
}
