/** The account map under fills: what one fill, and then a list of fills, does
    to the positions and the equity of all accounts together. */
module Accounts {
  import opened Machine
  import opened OrderedMaps
  import opened Clob
  import opened Clearing

  type Ledger = map<AccountId, Account>

  /** `entry(id).or_insert_with(flat)`. */
  function Lookup(l: Ledger, id: AccountId): Account { if id in l then l[id] else FlatAccount(id) }

  function Credit(a: Account, amount: I64): Account { a.(collateral := SatI64(a.collateral + amount)) }

  /** One side of a fill: update the account and credit what it realized. */
  function ApplySide(l: Ledger, id: AccountId, f: Fill, side: Side): Ledger {
    var (a, realized) := ApplyFill(Lookup(l, id), f.price, f.qty, side);
    l[id := Credit(a, realized)]
  }

  /** The maker first, then the taker, who may be the same account. */
  function ApplyOne(l: Ledger, f: Fill): Ledger {
    ApplySide(ApplySide(l, f.makerAccount, f, f.makerSide), f.takerAccount, f, f.makerSide.Opposite())
  }

  function ApplyAll(l: Ledger, fills: seq<Fill>): Ledger
    decreases |fills|
  {
    if fills == [] then l else ApplyAll(ApplyOne(l, fills[0]), fills[1..])
  }

  // --------------------------------------------------------------- totals

  function SizeOf(): Account -> int { (a: Account) => a.positionSize }

  function EquityAt(mark: int): Account -> int { (a: Account) => Equity(a, mark) }

  function OpenInterest(l: Ledger): int { Total(l, SizeOf()) }

  function TotalEquity(l: Ledger, mark: int): int { Total(l, EquityAt(mark)) }

  // ------------------------------------------------------------- one side

  predicate SideFits(l: Ledger, id: AccountId, f: Fill, side: Side) {
    var a := Lookup(l, id);
    FillFits(a, f.price, f.qty, side) && FitsI64(a.collateral + ApplyFill(a, f.price, f.qty, side).1)
  }

  function SideRemainder(l: Ledger, id: AccountId, f: Fill, side: Side): int {
    Remainder(Lookup(l, id), f.price, f.qty, side)
  }

  lemma ApplySideTotals(l: Ledger, id: AccountId, f: Fill, side: Side, mark: int)
    requires SideFits(l, id, f, side)
    ensures var l' := ApplySide(l, id, f, side);
            && OpenInterest(l') == OpenInterest(l) + SideSign(side) * f.qty
            && TotalEquity(l', mark)
               == TotalEquity(l, mark) + SideSign(side) * f.qty * (mark - f.price) + SideRemainder(l, id, f, side)
  {
    var a := Lookup(l, id);
    var l' := ApplySide(l, id, f, side);
    FillLawsExactlyWhenFits(a, f.price, f.qty, side, mark);
    TotalUpdate(l, SizeOf(), id, l'[id]);
    TotalUpdate(l, EquityAt(mark), id, l'[id]);
    assert EquityAt(mark)(l'[id]) == EquityAt(mark)(a)
      + SideSign(side) * f.qty * (mark - f.price) + SideRemainder(l, id, f, side);
  }

  // ------------------------------------------------------------ one fill

  predicate FillFitsBoth(l: Ledger, f: Fill) {
    && SideFits(l, f.makerAccount, f, f.makerSide)
    && SideFits(ApplySide(l, f.makerAccount, f, f.makerSide), f.takerAccount, f, f.makerSide.Opposite())
  }

  /** The averaging remainders of a fill's two sides. */
  function FillRemainder(l: Ledger, f: Fill): int {
    SideRemainder(l, f.makerAccount, f, f.makerSide)
    + SideRemainder(ApplySide(l, f.makerAccount, f, f.makerSide), f.takerAccount, f, f.makerSide.Opposite())
  }

  /** A fill moves contracts between two accounts: no position is created, and
      equity changes only by the averaging remainders. */
  lemma {:induction false} ApplyOneConserves(l: Ledger, f: Fill, mark: int)
    requires FillFitsBoth(l, f)
    ensures OpenInterest(ApplyOne(l, f)) == OpenInterest(l)
    ensures TotalEquity(ApplyOne(l, f), mark) == TotalEquity(l, mark) + FillRemainder(l, f)
  {
    var half := ApplySide(l, f.makerAccount, f, f.makerSide);
    ApplySideTotals(l, f.makerAccount, f, f.makerSide, mark);
    ApplySideTotals(half, f.takerAccount, f, f.makerSide.Opposite(), mark);
    var s := SideSign(f.makerSide);
    assert SideSign(f.makerSide.Opposite()) == -s;
    Cancels(s, f.qty, mark - f.price);
  }

  lemma Cancels(s: int, q: int, d: int)
    ensures s * q * d + -s * q * d == 0
  {
    assert -s * q * d == -(s * q * d);
  }

  // ------------------------------------------------------------ all fills

  predicate FillsFit(l: Ledger, fills: seq<Fill>)
    decreases |fills|
  {
    fills == [] || (FillFitsBoth(l, fills[0]) && FillsFit(ApplyOne(l, fills[0]), fills[1..]))
  }

  function Remainders(l: Ledger, fills: seq<Fill>): int
    decreases |fills|
  {
    if fills == [] then 0 else FillRemainder(l, fills[0]) + Remainders(ApplyOne(l, fills[0]), fills[1..])
  }

  lemma {:induction false} ApplyAllConserves(l: Ledger, fills: seq<Fill>, mark: int)
    requires FillsFit(l, fills)
    ensures OpenInterest(ApplyAll(l, fills)) == OpenInterest(l)
    ensures TotalEquity(ApplyAll(l, fills), mark) == TotalEquity(l, mark) + Remainders(l, fills)
    decreases |fills|
  {
    if fills != [] {
      ApplyOneConserves(l, fills[0], mark);
      ApplyAllConserves(ApplyOne(l, fills[0]), fills[1..], mark);
    }
  }

  /** Each remainder is zero unless that side's position grew, and then it is
      smaller in size than the position the fill left. */
  lemma {:induction false} SideRemainderBound(l: Ledger, id: AccountId, f: Fill, side: Side)
    requires SideFits(l, id, f, side)
    ensures var r := SideRemainder(l, id, f, side);
            var size := ApplySide(l, id, f, side)[id].positionSize;
            && (r != 0 ==> Grows(Lookup(l, id), side) && Sign(r) == Sign(size))
            && Abs(r) <= Abs(size) && (Grows(Lookup(l, id), side) ==> Abs(r) < Abs(size))
  {
    RemainderBound(Lookup(l, id), f.price, f.qty, side);
  }

  /** How far averaging can move equity: for each side that grew, one less than the
      position its fill left. */
  function SideRoom(l: Ledger, id: AccountId, f: Fill, side: Side): nat {
    var size := Abs(ApplySide(l, id, f, side)[id].positionSize);
    if Grows(Lookup(l, id), side) && size > 0 then size - 1 else 0
  }

  function FillRoom(l: Ledger, f: Fill): nat {
    SideRoom(l, f.makerAccount, f, f.makerSide)
    + SideRoom(ApplySide(l, f.makerAccount, f, f.makerSide), f.takerAccount, f, f.makerSide.Opposite())
  }

  function Room(l: Ledger, fills: seq<Fill>): nat
    decreases |fills|
  {
    if fills == [] then 0 else FillRoom(l, fills[0]) + Room(ApplyOne(l, fills[0]), fills[1..])
  }

  lemma {:induction false} FillRemainderBound(l: Ledger, f: Fill)
    requires FillFitsBoth(l, f)
    ensures Abs(FillRemainder(l, f)) <= FillRoom(l, f)
  {
    SideRemainderBound(l, f.makerAccount, f, f.makerSide);
    SideRemainderBound(ApplySide(l, f.makerAccount, f, f.makerSide), f.takerAccount, f, f.makerSide.Opposite());
  }

  /** Over a list of fills the remainders add up to no more than that room. */
  lemma {:induction false} RemaindersBound(l: Ledger, fills: seq<Fill>)
    requires FillsFit(l, fills)
    ensures Abs(Remainders(l, fills)) <= Room(l, fills)
    decreases |fills|
  {
    if fills != [] {
      FillRemainderBound(l, fills[0]);
      RemaindersBound(ApplyOne(l, fills[0]), fills[1..]);
    }
  }

  // --------------------------------------------------- account by account

  /** Which way a fill moves an account: both ways at once if it is on both sides. */
  function Share(f: Fill, id: AccountId): int {
    (if f.makerAccount == id then SideSign(f.makerSide) else 0)
    + (if f.takerAccount == id then SideSign(f.makerSide.Opposite()) else 0)
  }

  /** What a list of fills adds to an account's position. */
  function Moved(fills: seq<Fill>, id: AccountId): int {
    if fills == [] then 0 else Share(fills[0], id) * fills[0].qty + Moved(fills[1..], id)
  }

  /** What it adds to its equity at a mark, averaging apart. */
  function Gained(fills: seq<Fill>, id: AccountId, mark: int): int {
    if fills == [] then 0
    else Share(fills[0], id) * (fills[0].qty * (mark - fills[0].price)) + Gained(fills[1..], id, mark)
  }

  /** The averaging remainders of an account's own sides. */
  function OwnRemainder(l: Ledger, f: Fill, id: AccountId): int {
    var half := ApplySide(l, f.makerAccount, f, f.makerSide);
    (if f.makerAccount == id then SideRemainder(l, id, f, f.makerSide) else 0)
    + (if f.takerAccount == id then SideRemainder(half, id, f, f.makerSide.Opposite()) else 0)
  }

  function OwnRemainders(l: Ledger, fills: seq<Fill>, id: AccountId): int
    decreases |fills|
  {
    if fills == [] then 0 else OwnRemainder(l, fills[0], id) + OwnRemainders(ApplyOne(l, fills[0]), fills[1..], id)
  }

  /** No position of the fills' accounts clamps, each side judged at its own step. */
  predicate SizesFit(l: Ledger, fills: seq<Fill>)
    decreases |fills|
  {
    || fills == []
    || (var f := fills[0];
        var half := ApplySide(l, f.makerAccount, f, f.makerSide);
        && SizeFits(Lookup(l, f.makerAccount), f.qty, f.makerSide)
        && SizeFits(Lookup(half, f.takerAccount), f.qty, f.makerSide.Opposite())
        && SizesFit(ApplyOne(l, f), fills[1..]))
  }

  lemma SidePosition(l: Ledger, id: AccountId, f: Fill, side: Side, x: AccountId)
    requires SizeFits(Lookup(l, id), f.qty, side)
    ensures Lookup(ApplySide(l, id, f, side), x).positionSize
            == Lookup(l, x).positionSize + (if x == id then SideSign(side) * f.qty else 0)
  {
  }

  lemma FillPosition(l: Ledger, f: Fill, id: AccountId)
    requires SizeFits(Lookup(l, f.makerAccount), f.qty, f.makerSide)
    requires var half := ApplySide(l, f.makerAccount, f, f.makerSide);
             SizeFits(Lookup(half, f.takerAccount), f.qty, f.makerSide.Opposite())
    ensures Lookup(ApplyOne(l, f), id).positionSize == Lookup(l, id).positionSize + Share(f, id) * f.qty
  {
    SidePosition(l, f.makerAccount, f, f.makerSide, id);
    SidePosition(ApplySide(l, f.makerAccount, f, f.makerSide), f.takerAccount, f, f.makerSide.Opposite(), id);
    Distribute(if f.makerAccount == id then SideSign(f.makerSide) else 0,
               if f.takerAccount == id then SideSign(f.makerSide.Opposite()) else 0, f.qty);
  }

  /** Every account's position moves by its own sides of the fills. */
  lemma {:induction false} PositionsMove(l: Ledger, fills: seq<Fill>, id: AccountId)
    requires SizesFit(l, fills)
    ensures Lookup(ApplyAll(l, fills), id).positionSize == Lookup(l, id).positionSize + Moved(fills, id)
    decreases |fills|
  {
    if fills != [] {
      FillPosition(l, fills[0], id);
      PositionsMove(ApplyOne(l, fills[0]), fills[1..], id);
    }
  }

  lemma Distribute(a: int, b: int, c: int)
    ensures (a + b) * c == a * c + b * c
  {
  }

  lemma SideEquity(l: Ledger, id: AccountId, f: Fill, side: Side, x: AccountId, mark: int)
    requires SideFits(l, id, f, side)
    ensures Equity(Lookup(ApplySide(l, id, f, side), x), mark)
            == Equity(Lookup(l, x), mark)
               + (if x == id then SideSign(side) * (f.qty * (mark - f.price)) + SideRemainder(l, id, f, side) else 0)
  {
    FillLawsExactlyWhenFits(Lookup(l, id), f.price, f.qty, side, mark);
    RealizedExact(Lookup(l, id), f.price, f.qty, side);
    Swap(SideSign(side), f.qty, mark - f.price);
  }

  lemma FillEquity(l: Ledger, f: Fill, id: AccountId, mark: int)
    requires FillFitsBoth(l, f)
    ensures Equity(Lookup(ApplyOne(l, f), id), mark)
            == Equity(Lookup(l, id), mark) + Share(f, id) * (f.qty * (mark - f.price)) + OwnRemainder(l, f, id)
  {
    var half := ApplySide(l, f.makerAccount, f, f.makerSide);
    SideEquity(l, f.makerAccount, f, f.makerSide, id, mark);
    SideEquity(half, f.takerAccount, f, f.makerSide.Opposite(), id, mark);
    Distribute(if f.makerAccount == id then SideSign(f.makerSide) else 0,
               if f.takerAccount == id then SideSign(f.makerSide.Opposite()) else 0, f.qty * (mark - f.price));
  }

  /** Every account's equity at every mark moves by what its own sides of the fills
      gained since their prices, and its own averaging remainders. */
  lemma {:induction false} EquitiesMove(l: Ledger, fills: seq<Fill>, id: AccountId, mark: int)
    requires FillsFit(l, fills)
    ensures Equity(Lookup(ApplyAll(l, fills), id), mark)
            == Equity(Lookup(l, id), mark) + Gained(fills, id, mark) + OwnRemainders(l, fills, id)
    decreases |fills|
  {
    if fills != [] {
      var next := ApplyOne(l, fills[0]);
      var gained := Share(fills[0], id) * (fills[0].qty * (mark - fills[0].price));
      assert Equity(Lookup(next, id), mark) == Equity(Lookup(l, id), mark) + gained + OwnRemainder(l, fills[0], id) by {
        FillEquity(l, fills[0], id, mark);
      }
      EquitiesMove(next, fills[1..], id, mark);
      assert Gained(fills, id, mark) == gained + Gained(fills[1..], id, mark);
    }
  }

  /** An account on neither side of any fill stays as it is. */
  lemma {:induction false} BystandersStay(l: Ledger, fills: seq<Fill>, id: AccountId)
    requires forall i :: 0 <= i < |fills| ==> fills[i].makerAccount != id && fills[i].takerAccount != id
    ensures (id in ApplyAll(l, fills) <==> id in l) && Lookup(ApplyAll(l, fills), id) == Lookup(l, id)
    decreases |fills|
  {
    if fills != [] {
      assert fills[0].makerAccount != id && fills[0].takerAccount != id;
      BystandersStay(ApplyOne(l, fills[0]), fills[1..], id);
    }
  }

  // ----------------------------------------------------------- snapshots

  /** Every account is filed under its own id. */
  ghost predicate Keyed(l: Ledger) { forall id :: id in l ==> l[id].account == id }

  /** Accounts inserted into the map one after the other. */
  function Inserted(l: Ledger, accounts: seq<Account>): Ledger
    decreases |accounts|
  {
    if accounts == [] then l else Inserted(l[accounts[0].account := accounts[0]], accounts[1..])
  }

  /** Inserting the accounts of a keyed map gives that map back. */
  lemma {:induction false} InsertedValues(l: Ledger, m: Ledger)
    requires Keyed(m)
    ensures Inserted(l, Values(m)) == l + m
    decreases |m|
  {
    if m == map[] {
      assert l + m == l;
    } else {
      var k := First(false, m.Keys);
      ValuesFirst(m, k);
      assert ([m[k]] + Values(m - {k}))[1..] == Values(m - {k});
      InsertedValues(l[k := m[k]], m - {k});
      InsertedFirst(l, m, k);
    }
  }

  lemma ValuesFirst(m: Ledger, k: AccountId)
    requires m != map[] && k == First(false, m.Keys)
    ensures Values(m) == [m[k]] + Values(m - {k})
  {
  }

  lemma InsertedFirst(l: Ledger, m: Ledger, k: AccountId)
    requires k in m
    ensures l[k := m[k]] + (m - {k}) == l + m
  {
  }

  lemma {:induction false} ApplyAllKeyed(l: Ledger, fills: seq<Fill>)
    requires Keyed(l)
    ensures Keyed(ApplyAll(l, fills))
    decreases |fills|
  {
    if fills != [] {
      ApplyAllKeyed(ApplyOne(l, fills[0]), fills[1..]);
    }
  }

  /** Setting an account's collateral moves total equity by the change. */
  lemma BalanceTotals(l: Ledger, id: AccountId, balance: I64, mark: int)
    ensures var l' := l[id := Lookup(l, id).(collateral := balance)];
            && OpenInterest(l') == OpenInterest(l)
            && TotalEquity(l', mark) == TotalEquity(l, mark) + balance - Lookup(l, id).collateral
  {
    var a := Lookup(l, id).(collateral := balance);
    TotalUpdate(l, SizeOf(), id, a);
    TotalUpdate(l, EquityAt(mark), id, a);
  }
}
