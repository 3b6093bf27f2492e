/** What a scan does to the money: the fund's balance is a walk reflected at
    zero, and every fee and every deficit is accounted for. */
module ScanFlows {
  import opened Machine
  import opened Clob
  import opened Clearing
  import opened Margin
  import opened Scanner

  /** What one account pays into the fund and asks of it, before any clamp. */
  datatype Flow = Flow(fee: nat, shortfall: nat)

  function FlowOf(p: LiquidationParams, mark: U64, a: AccountSnapshot): Flow {
    if !IsLiquidated(a, mark, p) then Flow(0, 0)
    else
      var fee, equity := FeeDesired(a, mark, p), AccountEquity(a, mark);
      if equity >= fee then Flow(fee, 0) else Flow(Max(equity, 0), fee - equity)
  }

  function Fees(p: LiquidationParams, mark: U64, accounts: seq<AccountSnapshot>): nat {
    if accounts == [] then 0 else FlowOf(p, mark, accounts[0]).fee + Fees(p, mark, accounts[1..])
  }

  function Shortfalls(p: LiquidationParams, mark: U64, accounts: seq<AccountSnapshot>): nat {
    if accounts == [] then 0 else FlowOf(p, mark, accounts[0]).shortfall + Shortfalls(p, mark, accounts[1..])
  }

  /** Shortfall minus fee, summed over the first n accounts. */
  function Drain(p: LiquidationParams, mark: U64, accounts: seq<AccountSnapshot>, n: nat): int
    requires n <= |accounts|
  {
    if n == 0 then 0
    else
      var f := FlowOf(p, mark, accounts[0]);
      f.shortfall - f.fee + Drain(p, mark, accounts[1..], n - 1)
  }

  /** What of a shortfall neither the fee nor the fund covers. */
  function Uncovered(f: Flow, s: ScanState): nat { Max(0, f.shortfall - f.fee - s.balance) }

  /** One account: deposit its fee, then draw its shortfall down to zero at most. */
  predicate Flowed(f: Flow, s: ScanState, t: ScanState) {
    && t.balance == s.balance + f.fee - f.shortfall + Uncovered(f, s)
    && t.report.fundDeposits == s.report.fundDeposits + f.fee
    && t.report.fundWithdrawals == s.report.fundWithdrawals + f.shortfall - Uncovered(f, s)
    && t.report.unfilledDeficit == s.report.unfilledDeficit + Uncovered(f, s)
  }

  /** The flow clamps nothing: not the shortfall, the fund, or a report total. */
  predicate FlowFits(f: Flow, s: ScanState) {
    && f.shortfall <= I64_MAX && s.balance + f.fee <= I64_MAX
    && s.report.fundDeposits + f.fee <= I64_MAX
    && s.report.fundWithdrawals + f.shortfall - Uncovered(f, s) <= I64_MAX
    && s.report.unfilledDeficit + Uncovered(f, s) <= I64_MAX
  }

  lemma SolventFlow(p: LiquidationParams, mark: U64, s: ScanState, a: AccountSnapshot)
    requires s.balance >= 0
    requires IsLiquidated(a, mark, p) ==> AccountEquity(a, mark) >= FeeDesired(a, mark, p)
    ensures Flowed(FlowOf(p, mark, a), s, ScanOne(p, mark, s, a)) <==> FlowFits(FlowOf(p, mark, a), s)
  {
  }

  lemma UnderwaterFlow(p: LiquidationParams, mark: U64, s: ScanState, a: AccountSnapshot)
    requires s.balance >= 0
    requires IsLiquidated(a, mark, p) && AccountEquity(a, mark) < FeeDesired(a, mark, p)
    ensures Flowed(FlowOf(p, mark, a), s, ScanOne(p, mark, s, a)) <==> FlowFits(FlowOf(p, mark, a), s)
  {
    var f := FlowOf(p, mark, a);
    assert Close(a, mark, p) == UnderwaterClose(f.fee, SatI64(f.shortfall));
    assert FundDeposit(s.balance, f.fee) == SatI64(s.balance + f.fee);
  }

  /** The flow of an account goes through the fund and the report in full exactly
      when nothing clamps. */
  lemma FlowExactlyWhenFits(p: LiquidationParams, mark: U64, s: ScanState, a: AccountSnapshot)
    requires s.balance >= 0
    ensures Flowed(FlowOf(p, mark, a), s, ScanOne(p, mark, s, a)) <==> FlowFits(FlowOf(p, mark, a), s)
  {
    if IsLiquidated(a, mark, p) && AccountEquity(a, mark) < FeeDesired(a, mark, p) {
      UnderwaterFlow(p, mark, s, a);
    } else {
      SolventFlow(p, mark, s, a);
    }
  }

  /** Nothing clamps in the scan, each account judged at its own step. */
  predicate ScanFits(p: LiquidationParams, mark: U64, s: ScanState, accounts: seq<AccountSnapshot>)
    requires s.balance >= 0
    decreases |accounts|
  {
    || accounts == []
    || (FlowFits(FlowOf(p, mark, accounts[0]), s) && ScanFits(p, mark, ScanOne(p, mark, s, accounts[0]), accounts[1..]))
  }

  /** The scan's result from any starting state. */
  ghost predicate Reflected(
      p: LiquidationParams, mark: U64, s: ScanState, accounts: seq<AccountSnapshot>, t: ScanState)
  {
    var unfilled := t.report.unfilledDeficit - s.report.unfilledDeficit;
    && unfilled >= 0
    && (forall n :: 0 <= n <= |accounts| ==> Drain(p, mark, accounts, n) - s.balance <= unfilled)
    && (unfilled > 0 ==> exists n :: 0 <= n <= |accounts| && Drain(p, mark, accounts, n) - s.balance == unfilled)
    && t.balance == s.balance - Drain(p, mark, accounts, |accounts|) + unfilled
  }

  ghost predicate Settled(p: LiquidationParams, mark: U64, s: ScanState, accounts: seq<AccountSnapshot>, t: ScanState) {
    && t.report.fundDeposits == s.report.fundDeposits + Fees(p, mark, accounts)
    && (t.report.fundWithdrawals - s.report.fundWithdrawals) + (t.report.unfilledDeficit - s.report.unfilledDeficit)
       == Shortfalls(p, mark, accounts)
  }

  lemma {:induction false} ScanReflects(p: LiquidationParams, mark: U64, s: ScanState, accounts: seq<AccountSnapshot>)
    requires s.balance >= 0 && ScanFits(p, mark, s, accounts)
    ensures Reflected(p, mark, s, accounts, ScanAll(p, mark, s, accounts))
    ensures Settled(p, mark, s, accounts, ScanAll(p, mark, s, accounts))
    decreases |accounts|
  {
    if accounts != [] {
      var a, rest := accounts[0], accounts[1..];
      FlowExactlyWhenFits(p, mark, s, a);
      ScanReflects(p, mark, ScanOne(p, mark, s, a), rest);
      ReflectStep(p, mark, s, accounts, ScanOne(p, mark, s, a), ScanAll(p, mark, s, accounts));
    } else {
      assert Drain(p, mark, accounts, 0) == 0;
    }
  }

  lemma ReflectStep(
      p: LiquidationParams, mark: U64, s: ScanState, accounts: seq<AccountSnapshot>, u: ScanState, t: ScanState)
    requires accounts != [] && Reflected(p, mark, u, accounts[1..], t) && s.balance >= 0
    requires Flowed(FlowOf(p, mark, accounts[0]), s, u)
    ensures Reflected(p, mark, s, accounts, t)
  {
    var f := FlowOf(p, mark, accounts[0]);
    var x := f.shortfall - f.fee;
    var rest := accounts[1..];
    forall n | 0 <= n <= |accounts|
      ensures Drain(p, mark, accounts, n) == if n == 0 then 0 else x + Drain(p, mark, rest, n - 1)
    {
    }
    var unfilled := t.report.unfilledDeficit - s.report.unfilledDeficit;
    assert Drain(p, mark, rest, 0) == 0;
    if t.report.unfilledDeficit > u.report.unfilledDeficit {
      var n :| 0 <= n <= |rest|
               && Drain(p, mark, rest, n) - u.balance == t.report.unfilledDeficit - u.report.unfilledDeficit;
      assert Drain(p, mark, accounts, n + 1) - s.balance == unfilled;
    } else if unfilled > 0 {
      assert Drain(p, mark, accounts, 1) - s.balance == unfilled;
    }
  }

  /** The unfilled deficit of a scan is the largest amount by which the running
      drain ever exceeds the starting balance, and the final balance is the
      start less the whole drain plus what was left unfilled. */
  lemma {:induction false} ScanIsReflectedWalk(
      p: LiquidationParams, mark: U64, balance: I64, accounts: seq<AccountSnapshot>)
    requires balance >= 0 && ScanFits(p, mark, ScanState(balance, NO_RECORDS), accounts)
    ensures var t := ScanAll(p, mark, ScanState(balance, NO_RECORDS), accounts);
            var unfilled := t.report.unfilledDeficit;
            && unfilled >= 0
            && (forall n :: 0 <= n <= |accounts| ==> Drain(p, mark, accounts, n) - balance <= unfilled)
            && (unfilled > 0 ==> exists n :: 0 <= n <= |accounts| && Drain(p, mark, accounts, n) - balance == unfilled)
            && t.balance == balance - Drain(p, mark, accounts, |accounts|) + unfilled
  {
    ScanReflects(p, mark, ScanState(balance, NO_RECORDS), accounts);
  }

  /** A deficit left unfilled does not always leave the fund empty: it does exactly
      when the drain peaks at the end of the scan, for a later solvent close
      refills the fund with its fee. */
  lemma {:induction false} FundEmptyExactlyWhenDrainPeaksLast(
      p: LiquidationParams, mark: U64, balance: I64, accounts: seq<AccountSnapshot>)
    requires balance >= 0 && ScanFits(p, mark, ScanState(balance, NO_RECORDS), accounts)
    requires ScanAll(p, mark, ScanState(balance, NO_RECORDS), accounts).report.unfilledDeficit > 0
    ensures ScanAll(p, mark, ScanState(balance, NO_RECORDS), accounts).balance == 0
            <==> forall n :: 0 <= n <= |accounts| ==>
                 Drain(p, mark, accounts, n) <= Drain(p, mark, accounts, |accounts|)
  {
    ScanIsReflectedWalk(p, mark, balance, accounts);
    var unfilled := ScanAll(p, mark, ScanState(balance, NO_RECORDS), accounts).report.unfilledDeficit;
    var n :| 0 <= n <= |accounts| && Drain(p, mark, accounts, n) - balance == unfilled;
  }

  const DEBTOR := Account(1, -100, 100, 0)
  const WINNER := Account(2, 1000, 199, 1)

  /** A scan that reports an unfilled deficit and ends with money in the fund. */
  lemma LaterFeeRefillsFund()
    ensures var t := ScanAll(LiquidationParams(1000, 500, 10), 200, ScanState(0, NO_RECORDS), [DEBTOR, WINNER]);
            t.report.unfilledDeficit == 10_020 && t.balance == 200
  {
    var p := LiquidationParams(1000, 500, 10);
    assert Health(DEBTOR, 200, p) == Underwater && Close(DEBTOR, 200, p) == UnderwaterClose(0, 10_020);
    assert Health(WINNER, 200, p) == Liquidatable && Close(WINNER, 200, p) == SolventClose(200, 801);
    ScanTwo(p, 200, ScanState(0, NO_RECORDS), DEBTOR, WINNER);
  }

  lemma ScanTwo(p: LiquidationParams, mark: U64, s: ScanState, a: AccountSnapshot, b: AccountSnapshot)
    requires s.balance >= 0
    ensures ScanAll(p, mark, s, [a, b]) == ScanOne(p, mark, ScanOne(p, mark, s, a), b)
  {
    var t := ScanOne(p, mark, s, a);
    assert [a, b][1..] == [b] && [b][1..] == [];
    assert ScanAll(p, mark, t, [b]) == ScanAll(p, mark, ScanOne(p, mark, t, b), []);
  }

  /** What liquidating an account costs the system: its fee and its debt. */
  function Cost(p: LiquidationParams, mark: U64, a: AccountSnapshot): int {
    if !IsLiquidated(a, mark, p) then 0
    else
      var fee, equity := FeeDesired(a, mark, p), AccountEquity(a, mark);
      fee + Max(0, 0 - equity)
  }

  function Costs(p: LiquidationParams, mark: U64, accounts: seq<AccountSnapshot>): int {
    if accounts == [] then 0 else Cost(p, mark, accounts[0]) + Costs(p, mark, accounts[1..])
  }

  lemma {:induction false} CostsSplit(p: LiquidationParams, mark: U64, accounts: seq<AccountSnapshot>)
    ensures Fees(p, mark, accounts) + Shortfalls(p, mark, accounts) == Costs(p, mark, accounts)
  {
    if accounts != [] {
      CostsSplit(p, mark, accounts[1..]);
    }
  }

  /** Deposits, withdrawals and the unfilled deficit together are exactly the
      fees and debts of the accounts liquidated. */
  lemma {:induction false} ScanConserves(p: LiquidationParams, mark: U64, balance: I64, accounts: seq<AccountSnapshot>)
    requires balance >= 0 && ScanFits(p, mark, ScanState(balance, NO_RECORDS), accounts)
    ensures var r := ScanAll(p, mark, ScanState(balance, NO_RECORDS), accounts).report;
            r.fundDeposits + r.fundWithdrawals + r.unfilledDeficit == Costs(p, mark, accounts)
  {
    ScanReflects(p, mark, ScanState(balance, NO_RECORDS), accounts);
    CostsSplit(p, mark, accounts);
  }

  /** The records are the liquidated accounts in scan order, each closed in full
      against its position. */
  function RecordsOf(p: LiquidationParams, mark: U64, accounts: seq<AccountSnapshot>): seq<LiquidationRecord> {
    if accounts == [] then [] else RecordOf(p, mark, accounts[0]) + RecordsOf(p, mark, accounts[1..])
  }

  function RecordOf(p: LiquidationParams, mark: U64, a: AccountSnapshot): seq<LiquidationRecord> {
    if IsLiquidated(a, mark, p)
    then [LiquidationRecord(a.account, CloseOrder(a), Health(a, mark, p), Close(a, mark, p))]
    else []
  }

  lemma {:induction false} ScanRecords(p: LiquidationParams, mark: U64, s: ScanState, accounts: seq<AccountSnapshot>)
    requires s.balance >= 0
    ensures ScanAll(p, mark, s, accounts).report.records == s.report.records + RecordsOf(p, mark, accounts)
    decreases |accounts|
  {
    if accounts != [] {
      ScanRecords(p, mark, ScanOne(p, mark, s, accounts[0]), accounts[1..]);
    }
  }

  predicate Mentions(records: seq<LiquidationRecord>, id: AccountId) {
    exists i :: 0 <= i < |records| && records[i].account == id
  }

  predicate HasLiquidated(p: LiquidationParams, mark: U64, accounts: seq<AccountSnapshot>, id: AccountId) {
    exists j :: 0 <= j < |accounts| && accounts[j].account == id && IsLiquidated(accounts[j], mark, p)
  }

  lemma {:induction false} MentionsSplit(x: seq<LiquidationRecord>, y: seq<LiquidationRecord>, id: AccountId)
    ensures Mentions(x + y, id) <==> Mentions(x, id) || Mentions(y, id)
  {
    if i :| 0 <= i < |x| && x[i].account == id {
      assert (x + y)[i].account == id;
    }
    if i :| 0 <= i < |y| && y[i].account == id {
      assert (x + y)[|x| + i].account == id;
    }
  }

  lemma {:induction false} HasLiquidatedSplit(
      p: LiquidationParams, mark: U64, a: AccountSnapshot, rest: seq<AccountSnapshot>, id: AccountId)
    ensures HasLiquidated(p, mark, [a] + rest, id)
            <==> (a.account == id && IsLiquidated(a, mark, p)) || HasLiquidated(p, mark, rest, id)
  {
    if j :| 0 <= j < |rest| && rest[j].account == id && IsLiquidated(rest[j], mark, p) {
      assert ([a] + rest)[j + 1] == rest[j];
    }
    assert ([a] + rest)[0] == a;
  }

  lemma {:induction false} MentionsOne(p: LiquidationParams, mark: U64, a: AccountSnapshot, id: AccountId)
    ensures Mentions(RecordOf(p, mark, a), id) <==> a.account == id && IsLiquidated(a, mark, p)
  {
    if a.account == id && IsLiquidated(a, mark, p) {
      assert RecordOf(p, mark, a)[0].account == id;
    }
  }

  lemma {:induction false} RecordsMention(
      p: LiquidationParams, mark: U64, accounts: seq<AccountSnapshot>, id: AccountId)
    ensures Mentions(RecordsOf(p, mark, accounts), id) <==> HasLiquidated(p, mark, accounts, id)
  {
    if accounts != [] {
      var a, rest := accounts[0], accounts[1..];
      RecordsMention(p, mark, rest, id);
      MentionsSplit(RecordOf(p, mark, a), RecordsOf(p, mark, rest), id);
      MentionsOne(p, mark, a, id);
      HasLiquidatedSplit(p, mark, a, rest, id);
      assert accounts == [a] + rest;
    }
  }

  /** A scan closes an id exactly when an account with that id is to be liquidated. */
  lemma {:induction false} ClosedExactly(
      p: LiquidationParams, mark: U64, balance: I64, accounts: seq<AccountSnapshot>, id: AccountId)
    requires balance >= 0
    ensures Mentions(ScanAll(p, mark, ScanState(balance, NO_RECORDS), accounts).report.records, id)
            <==> HasLiquidated(p, mark, accounts, id)
  {
    ScanRecords(p, mark, ScanState(balance, NO_RECORDS), accounts);
    RecordsMention(p, mark, accounts, id);
    assert NO_RECORDS.records + RecordsOf(p, mark, accounts) == RecordsOf(p, mark, accounts);
  }

  /** With distinct ids an id stands for one account. */
  lemma {:induction false} HasLiquidatedOne(
      p: LiquidationParams, mark: U64, accounts: seq<AccountSnapshot>, a: AccountSnapshot)
    requires UniqueIds(accounts) && a in accounts
    ensures HasLiquidated(p, mark, accounts, a.account) <==> IsLiquidated(a, mark, p)
  {
    var i :| 0 <= i < |accounts| && accounts[i] == a;
    if j :| 0 <= j < |accounts| && accounts[j].account == a.account && IsLiquidated(accounts[j], mark, p) {
      assert i == j;
    }
  }

  /** Which accounts are closed, on equity and notional: an open position on a positive
      notional whose equity fails the zero rate or the maintenance rate. */
  predicate FailsMaintenance(a: AccountSnapshot, mark: U64, p: LiquidationParams) {
    && a.positionSize != 0 && NotionalValue(a, mark) > 0
    && !(Reaches(AccountEquity(a, mark), NotionalValue(a, mark), 0)
         && Reaches(AccountEquity(a, mark), NotionalValue(a, mark), p.maintenanceMarginBps))
  }

  lemma {:induction false} LiquidatedMeaning(a: AccountSnapshot, mark: U64, p: LiquidationParams)
    ensures IsLiquidated(a, mark, p) <==> FailsMaintenance(a, mark, p)
  {
    if NotionalValue(a, mark) > 0 {
      HealthMeaning(a, mark, p);
    }
  }

  /** With distinct ids a scan closes an account exactly when it fails maintenance. */
  lemma {:induction false} ClosedExactlyWhenFailing(
      p: LiquidationParams, mark: U64, balance: I64, accounts: seq<AccountSnapshot>, a: AccountSnapshot)
    requires balance >= 0 && UniqueIds(accounts) && a in accounts
    ensures Mentions(ScanAll(p, mark, ScanState(balance, NO_RECORDS), accounts).report.records, a.account)
            <==> FailsMaintenance(a, mark, p)
  {
    ClosedExactly(p, mark, balance, accounts, a.account);
    HasLiquidatedOne(p, mark, accounts, a);
    LiquidatedMeaning(a, mark, p);
  }

  /** Any other account leaves the fund and the whole report as they would be
      without it. */
  lemma {:induction false} OthersLeaveNoTrace(
      p: LiquidationParams, mark: U64, s: ScanState, xs: seq<AccountSnapshot>, a: AccountSnapshot,
      ys: seq<AccountSnapshot>)
    requires s.balance >= 0 && !FailsMaintenance(a, mark, p)
    ensures ScanAll(p, mark, s, xs + [a] + ys) == ScanAll(p, mark, s, xs + ys)
    decreases |xs|
  {
    if xs == [] {
      LiquidatedMeaning(a, mark, p);
      assert [] + [a] + ys == [a] + ys && ([a] + ys)[1..] == ys && [] + ys == ys;
    } else {
      assert (xs + [a] + ys)[1..] == xs[1..] + [a] + ys && (xs + ys)[1..] == xs[1..] + ys;
      OthersLeaveNoTrace(p, mark, ScanOne(p, mark, s, xs[0]), xs[1..], a, ys);
    }
  }

  /** The fee is the rate's share of the notional, rounded down, up to the i64
      ceiling: its i128 product never saturates. */
  lemma {:induction false} FeeMeaning(a: AccountSnapshot, mark: U64, p: LiquidationParams)
    ensures FeeDesired(a, mark, p) == Min(NotionalValue(a, mark) * p.liquidationFeeBps / MARGIN_SCALE, I64_MAX)
  {
    NonNegative(NotionalValue(a, mark), p.liquidationFeeBps);
    MulMono(NotionalValue(a, mark), U64_MAX, p.liquidationFeeBps);
    MulMono(p.liquidationFeeBps, U32_MAX, U64_MAX);
  }

  /** Filling a close order at the mark leaves the account flat and turns its
      equity into collateral. */
  lemma {:induction false} CloseOrderFlattens(a: AccountSnapshot, mark: U64)
    requires a.positionSize != 0 && FitsI64(Value(a, mark))
    ensures var spec := CloseOrder(a);
            var (a', realized) := ApplyFill(a, mark, spec.qty, spec.side);
            spec.account == a.account && a'.positionSize == 0 && a'.collateral + realized == Equity(a, mark)
  {
    var spec := CloseOrder(a);
    var k := Abs(a.positionSize);
    assert Sign(a.positionSize) * k == a.positionSize;
    assert Value(a, mark) == a.positionSize * (mark - a.avgEntry);
    FillLawsExactlyWhenFits(a, mark, spec.qty, spec.side, mark);
    RealizedExact(a, mark, spec.qty, spec.side);
  }

  /** Money in a close: a solvent one divides the equity between fund and
      account; an underwater one pays out of equity what it can, and asks of the
      fund exactly the unpaid fee and the debt. */
  lemma {:induction false} CloseDividesEquity(a: AccountSnapshot, mark: U64, p: LiquidationParams)
    requires FitsI64(FeeDesired(a, mark, p) - AccountEquity(a, mark))
    ensures var fee, equity := FeeDesired(a, mark, p), AccountEquity(a, mark);
            match Close(a, mark, p)
            case SolventClose(paid, residual) => paid == fee && residual >= 0 && paid + residual == equity
            case UnderwaterClose(paid, shortfall) =>
              0 <= paid <= fee && shortfall > 0 && equity + shortfall == fee && (paid > 0 ==> paid == equity)
  {
  }
}
