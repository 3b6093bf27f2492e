/** What one fill does to one account, and how much of the account can be
    withdrawn. Arithmetic is the source's: widened, saturating, narrowed. */
module Clearing {
  import opened Machine
  import opened Clob

  const MARGIN_SCALE: int := 10_000

  datatype Account = Account(account: AccountId, positionSize: I64, avgEntry: U64, collateral: I64)

  function FlatAccount(id: AccountId): Account { Account(id, 0, 0, 0) }

  function SideSign(side: Side): int { if side.Buy? then 1 else -1 }

  /** The fill is against the open position. */
  predicate Opposes(held: I64, side: Side) { Sign(held) != 0 && Sign(held) != SideSign(side) }

  function ClosedQty(held: I64, qty: U64, side: Side): nat {
    if Opposes(held, side) then Min(Abs(held), qty) else 0
  }

  /** The profit or loss of the closed part before it is narrowed to i64. */
  function ExactRealized(a: Account, price: U64, qty: U64, side: Side): int {
    Sign(a.positionSize) * ClosedQty(a.positionSize, qty, side) * (price - a.avgEntry)
  }

  function WeightedEntry(a: Account, price: U64, added: nat): int {
    var oldAbs := Abs(a.positionSize);
    var notional := SatI128(SatI128(oldAbs * a.avgEntry) + SatI128(added * price));
    if oldAbs + added == 0 then a.avgEntry else TruncDiv(notional, oldAbs + added)
  }

  function NewEntry(a: Account, price: U64, qty: U64, side: Side): int {
    var held := a.positionSize;
    var size := held + SideSign(side) * qty;
    if size == 0 then a.avgEntry
    else if held == 0 then price
    else if Sign(held) == Sign(size) then
      if Opposes(held, side) then a.avgEntry
      else WeightedEntry(a, price, qty - ClosedQty(held, qty, side))
    else price
  }

  /** Open, increase, partly close, close or flip; returns the realized profit. */
  function ApplyFill(a: Account, price: U64, qty: U64, side: Side): (Account, I64) {
    var closed := ClosedQty(a.positionSize, qty, side);
    var realized :=
      if closed > 0 then SatI64(SatI128(SatI128(Sign(a.positionSize) * closed) * (price - a.avgEntry))) else 0;
    var size := a.positionSize + SideSign(side) * qty;
    (a.(positionSize := SatI64(size), avgEntry := SatU64(NewEntry(a, price, qty, side))), realized)
  }

  // ------------------------------------------------------- value of a fill

  /** Unrealized profit at a mark, exactly. */
  function Value(a: Account, mark: int): int { (mark - a.avgEntry) * a.positionSize }

  /** Cash and unrealized profit at a mark, before any clamp. */
  function Equity(a: Account, mark: int): int { a.collateral + Value(a, mark) }

  /** The fill grows the position in its own direction. */
  predicate Grows(a: Account, side: Side) { Sign(a.positionSize) == SideSign(side) }

  /** What flooring the average entry price gives to a long or takes from a
      short: the remainder of the weighted notional. */
  function Remainder(a: Account, price: U64, qty: U64, side: Side): int {
    if Grows(a, side)
    then SideSign(side) * ((Abs(a.positionSize) * a.avgEntry + qty * price) % (Abs(a.positionSize) + qty))
    else 0
  }

  /** The new size and the realized profit fit their fields. */
  predicate FillFits(a: Account, price: U64, qty: U64, side: Side) {
    SizeFits(a, qty, side) && FitsI64(ExactRealized(a, price, qty, side))
  }

  predicate SizeFits(a: Account, qty: U64, side: Side) { FitsI64(a.positionSize + SideSign(side) * qty) }

  /** While the new size fits, the weighted notional fits an i128 and the new
      average fits a u64, so neither clamp is ever reached. */
  lemma {:induction false} WeightedEntryExact(a: Account, price: U64, qty: U64, side: Side)
    requires Grows(a, side) && SizeFits(a, qty, side)
    ensures var n := Abs(a.positionSize) * a.avgEntry + qty * price;
            var t := Abs(a.positionSize) + qty;
            t > 0 && WeightedEntry(a, price, qty) == n / t && 0 <= n / t <= U64_MAX
  {
    var k := Abs(a.positionSize);
    var t := k + qty;
    assert t <= -I64_MIN;
    MulMono(a.avgEntry, U64_MAX, k);
    MulMono(price, U64_MAX, qty);
    NonNegative(k, a.avgEntry);
    NonNegative(qty, price);
    var n := k * a.avgEntry + qty * price;
    assert n <= U64_MAX * t by {
      assert k * U64_MAX + qty * U64_MAX == t * U64_MAX;
    }
    assert n <= U64_MAX * -I64_MIN;
    FloorAtMost(n, t, U64_MAX);
  }

  lemma NonNegative(a: nat, b: nat)
    ensures a * b >= 0
  {
  }

  lemma FloorAtMost(n: nat, t: int, c: int)
    requires t > 0 && n <= c * t
    ensures 0 <= n / t <= c
  {
    FloorBounds(n, t, n / t);
    if n / t > c {
      MulMono(c + 1, n / t, t);
    }
  }

  /** The i128 product of the realized profit never saturates; only the final
      narrowing to i64 can. */
  lemma {:induction false} RealizedExact(a: Account, price: U64, qty: U64, side: Side)
    ensures ApplyFill(a, price, qty, side).1 == SatI64(ExactRealized(a, price, qty, side))
  {
    var closed := ClosedQty(a.positionSize, qty, side);
    if closed > 0 {
      I64TimesU64FitsI128(Sign(a.positionSize) * closed, price - a.avgEntry);
    }
  }

  /** What each kind of fill leaves, clamps out of the way. */
  lemma {:induction false} FillShape(a: Account, price: U64, qty: U64, side: Side)
    requires SizeFits(a, qty, side)
    ensures var (a', realized) := ApplyFill(a, price, qty, side);
            && a' == a.(positionSize := a.positionSize + SideSign(side) * qty, avgEntry := a'.avgEntry)
            && realized == SatI64(ExactRealized(a, price, qty, side))
            && (Grows(a, side) ==>
                  a'.avgEntry == (Abs(a.positionSize) * a.avgEntry + qty * price) / (Abs(a.positionSize) + qty))
            && (a.positionSize == 0 && qty > 0 ==> a'.avgEntry == price)
            && (Opposes(a.positionSize, side) && qty <= Abs(a.positionSize) ==> a'.avgEntry == a.avgEntry)
            && (Opposes(a.positionSize, side) && qty > Abs(a.positionSize) ==> a'.avgEntry == price)
  {
    RealizedExact(a, price, qty, side);
    if Grows(a, side) {
      WeightedEntryExact(a, price, qty, side);
    }
  }

  /** The two laws of a fill: the position moves by the signed quantity, and the
      account's equity at a mark by what that quantity gained since the fill
      price plus the averaging remainder. */
  predicate FillLaws(a: Account, price: U64, qty: U64, side: Side, mark: int) {
    var (a', realized) := ApplyFill(a, price, qty, side);
    && a'.positionSize == a.positionSize + SideSign(side) * qty
    && Value(a', mark) + realized
       == Value(a, mark) + SideSign(side) * qty * (mark - price) + Remainder(a, price, qty, side)
  }

  /** The laws hold at a mark exactly when neither field clamps. */
  lemma {:induction false} FillLawsExactlyWhenFits(a: Account, price: U64, qty: U64, side: Side, mark: int)
    ensures FillLaws(a, price, qty, side, mark) <==> FillFits(a, price, qty, side)
    ensures ApplyFill(a, price, qty, side).0.collateral == a.collateral
  {
    if SizeFits(a, qty, side) {
      FillShape(a, price, qty, side);
      if Grows(a, side) {
        GrowingValue(a, price, qty, side, mark);
      } else if a.positionSize == 0 {
        OpeningValue(a, price, qty, side, mark);
      } else {
        ClosingValue(a, price, qty, side, mark);
      }
    }
  }

  lemma GrowingValue(a: Account, price: U64, qty: U64, side: Side, mark: int)
    requires Grows(a, side) && SizeFits(a, qty, side)
    ensures var (a', realized) := ApplyFill(a, price, qty, side);
            realized == 0 && Value(a', mark)
               == Value(a, mark) + SideSign(side) * qty * (mark - price) + Remainder(a, price, qty, side)
  {
    FillShape(a, price, qty, side);
    var (a', _) := ApplyFill(a, price, qty, side);
    var s, k := SideSign(side), Abs(a.positionSize);
    AverageValue(mark, a.avgEntry, price, k, qty, a'.avgEntry);
    Signed(s, (mark - a'.avgEntry) * (k + qty), (mark - a.avgEntry) * k, qty * (mark - price),
      (k * a.avgEntry + qty * price) % (k + qty));
    Swap(s, mark - a'.avgEntry, k + qty);
    Swap(s, mark - a.avgEntry, k);
    Swap(s, qty, mark - price);
    assert a'.positionSize == s * (k + qty) && a.positionSize == s * k;
  }

  lemma OpeningValue(a: Account, price: U64, qty: U64, side: Side, mark: int)
    requires a.positionSize == 0 && SizeFits(a, qty, side)
    ensures var (a', realized) := ApplyFill(a, price, qty, side);
            realized == 0 && Value(a', mark) == Value(a, mark) + SideSign(side) * qty * (mark - price)
  {
    FillShape(a, price, qty, side);
    Swap(SideSign(side), mark - price, qty);
    Swap(SideSign(side), qty, mark - price);
  }

  lemma Swap(s: int, x: int, k: int)
    ensures s * (x * k) == x * (s * k) == s * x * k
  {
  }

  /** Long case: valuing the floored average leaves exactly the remainder. */
  lemma AverageValue(mark: int, avg: int, price: int, k: nat, q: nat, entry: int)
    requires k + q > 0 && entry == (k * avg + q * price) / (k + q)
    ensures (mark - entry) * (k + q) == (mark - avg) * k + q * (mark - price) + (k * avg + q * price) % (k + q)
  {
    var t := k + q;
    var n := k * avg + q * price;
    assert n == entry * t + n % t;
    assert (mark - entry) * t == mark * t - entry * t;
    assert mark * t == mark * k + mark * q;
    assert (mark - avg) * k == mark * k - k * avg;
    assert q * (mark - price) == mark * q - q * price;
  }

  lemma Signed(s: int, x: int, u: int, v: int, w: int)
    requires x == u + v + w
    ensures s * x == s * u + s * v + s * w
  {
  }

  /** Closing, wholly or in part, or flipping. */
  lemma ClosingValue(a: Account, price: U64, qty: U64, side: Side, mark: int)
    requires Opposes(a.positionSize, side) && SizeFits(a, qty, side)
    ensures Value(ApplyFill(a, price, qty, side).0, mark) + ExactRealized(a, price, qty, side)
            == Value(a, mark) + SideSign(side) * qty * (mark - price)
  {
    FillShape(a, price, qty, side);
    var (a', _) := ApplyFill(a, price, qty, side);
    var held, d := a.positionSize, SideSign(side) * qty;
    if qty <= Abs(held) {
      assert Sign(held) * qty == -d;
      assert (mark - a'.avgEntry) * (held + d) == (mark - a.avgEntry) * (held + d);
      Expand(mark - a.avgEntry, price - a.avgEntry, held, d);
    } else {
      assert Sign(held) * Abs(held) == held;
      Expand(mark - price, a.avgEntry - price, held, d);
    }
  }

  lemma Expand(x: int, y: int, held: int, d: int)
    ensures x * (held + d) + -d * y == x * held + d * (x - y)
    ensures x * (held + d) + held * -y == (x - y) * held + d * x
  {
  }

  /** The remainder is zero unless the position grew, takes the position's sign,
      and is smaller in size than the new position. */
  lemma {:induction false} RemainderBound(a: Account, price: U64, qty: U64, side: Side)
    requires SizeFits(a, qty, side)
    ensures var r := Remainder(a, price, qty, side);
            var size := ApplyFill(a, price, qty, side).0.positionSize;
            && (r != 0 ==> Grows(a, side) && Sign(r) == Sign(size))
            && (Grows(a, side) ==> Abs(r) < Abs(size))
  {
  }

  lemma DivMono(a: nat, b: nat, c: int)
    requires a <= b && c > 0
    ensures a / c <= b / c
  {
    FloorBounds(a, c, a / c);
    FloorBounds(b, c, b / c);
    if b / c < a / c {
      MulMono(b / c + 1, a / c, c);
    }
  }

  // ------------------------------------------------------- free collateral

  function InitialMarginRequirementAt(a: Account, mark: U64, imBps: U32): I64 {
    SatI64(TruncDiv(SatI128(SatI128(Abs(a.positionSize) * mark) * imBps), MARGIN_SCALE))
  }

  function InitialMarginRequirement(a: Account, imBps: U32): I64 {
    InitialMarginRequirementAt(a, a.avgEntry, imBps)
  }

  function UnrealizedPnl(a: Account, mark: U64): (r: I64)
    ensures r == SatI64(Value(a, mark))
  {
    I64TimesU64FitsI128(a.positionSize, mark - a.avgEntry);
    SatI64(SatI128((mark - a.avgEntry) * a.positionSize))
  }

  function FreeCollateral(a: Account, mark: U64, imBps: U32): I64 {
    SatI64(a.collateral + UnrealizedPnl(a, mark) - InitialMarginRequirementAt(a, mark, imBps))
  }

  /** What can be withdrawn: by the mark if there is one, by entry if not. */
  function WithdrawFreeCollateral(a: Account, mark: Option<U64>, imBps: U32): I64 {
    match mark
    case Some(m) => FreeCollateral(a, m, imBps)
    case None => SatI64(a.collateral - InitialMarginRequirement(a, imBps))
  }

  lemma RequirementNonNegative(a: Account, mark: U64, imBps: U32)
    ensures InitialMarginRequirementAt(a, mark, imBps) >= 0
  {
    NonNegative(Abs(a.positionSize), mark);
    NonNegative(SatI128(Abs(a.positionSize) * mark), imBps);
  }

  /** The unchecked subtraction in `withdraw` cannot overflow: an amount within
      the free collateral leaves a balance an i64 can hold. */
  lemma {:induction false} WithdrawFits(a: Account, mark: Option<U64>, imBps: U32, amount: nat)
    requires amount <= WithdrawFreeCollateral(a, mark, imBps)
    ensures FitsI64(a.collateral - amount)
  {
    RequirementNonNegative(a, if mark.Some? then mark.value else a.avgEntry, imBps);
  }
}
