/** The insurance fund and the liquidation scan that draws on it. */
module Scanner {
  import opened Machine
  import opened Clob
  import opened Clearing
  import opened Margin

  datatype CloseOrderSpec = CloseOrderSpec(account: AccountId, side: Side, qty: U64)

  function CloseOrder(a: AccountSnapshot): CloseOrderSpec {
    CloseOrderSpec(a.account, if a.positionSize > 0 then Sell else Buy, Abs(a.positionSize))
  }

  function LiquidationFee(closedNotional: U64, p: LiquidationParams): I64 {
    if closedNotional == 0 then 0
    else SatI64(TruncDiv(SatI128(closedNotional * p.liquidationFeeBps), MARGIN_SCALE))
  }

  datatype CloseOutcome =
    | SolventClose(feeToFund: I64, residualToAccount: I64)
    | UnderwaterClose(feeToFund: I64, shortfallToFund: I64)

  function FeeDesired(a: AccountSnapshot, mark: U64, p: LiquidationParams): (fee: I64)
    ensures fee >= 0
  {
    NonNegative(NotionalValue(a, mark), p.liquidationFeeBps);
    LiquidationFee(NotionalValue(a, mark), p)
  }

  /** Solvent if equity at the mark pays the whole fee; otherwise what equity
      there is goes to the fee and the fund must find the rest. */
  function Close(a: AccountSnapshot, mark: U64, p: LiquidationParams): CloseOutcome {
    var fee := FeeDesired(a, mark, p);
    var equity := AccountEquity(a, mark);
    if equity >= fee then SolventClose(fee, SatI64(equity - fee))
    else UnderwaterClose(if equity > 0 then equity else 0, SatI64(fee - equity))
  }

  /** Flat accounts are skipped whatever their class. */
  predicate IsLiquidated(a: AccountSnapshot, mark: U64, p: LiquidationParams) {
    var h := Health(a, mark, p);
    (h.Liquidatable? || h.Underwater?) && a.positionSize != 0
  }

  datatype LiquidationRecord = LiquidationRecord(
    account: AccountId, closeOrder: CloseOrderSpec, classification: MarginHealth, outcome: CloseOutcome)

  datatype ScanReport = ScanReport(
    records: seq<LiquidationRecord>, fundDeposits: I64, fundWithdrawals: I64, unfilledDeficit: I64)

  const NO_RECORDS := ScanReport([], 0, 0, 0)

  // --------------------------------------------------------------- the fund

  datatype WithdrawOutcome =
    | Covered(amount: I64)
    | PartiallyDrained(amount: I64, unfilled: I64)
    | Depleted(unfilled: I64)
  {
    function Paid(): I64 { if Depleted? then 0 else amount }

    function Unfilled(): I64 { if Covered? then 0 else unfilled }
  }

  function FundDeposit(balance: I64, fee: I64): I64 { if fee > 0 then SatI64(balance + fee) else balance }

  function FundWithdraw(balance: I64, shortfall: I64): (I64, WithdrawOutcome)
    requires balance >= 0
  {
    if shortfall <= 0 then (balance, Covered(0))
    else if balance == 0 then (balance, Depleted(shortfall))
    else if balance >= shortfall then (balance - shortfall, Covered(shortfall))
    else (0, PartiallyDrained(balance, shortfall - balance))
  }

  class InsuranceFund {
    var balance: I64

    predicate Valid() reads this { balance >= 0 }

    /** A negative starting balance counts as empty. */
    constructor (initial: I64)
      ensures Valid() && balance == Max(initial, 0)
    {
      balance := if initial > 0 then initial else 0;
    }

    method Deposit(fee: I64) returns (r: I64)
      requires Valid()
      modifies this
      ensures Valid() && balance == FundDeposit(old(balance), fee) && r == balance
      ensures balance == if fee > 0 then Min(old(balance) + fee, I64_MAX) else old(balance)
    {
      if fee > 0 {
        balance := SatI64(balance + fee);
      }
      r := balance;
    }

    /** Pays what it can and reports the rest: nothing is lost in between. */
    method WithdrawShortfall(shortfall: I64) returns (r: WithdrawOutcome)
      requires Valid()
      modifies this
      ensures Valid() && (balance, r) == FundWithdraw(old(balance), shortfall)
      ensures balance == old(balance) - r.Paid() && r.Paid() + r.Unfilled() == Max(shortfall, 0)
      ensures r.Unfilled() > 0 ==> balance == 0
      ensures r.Covered? <==> shortfall <= Max(old(balance), 0)
      ensures r.Depleted? <==> shortfall > 0 && old(balance) == 0
    {
      if shortfall <= 0 {
        return Covered(0);
      }
      if balance == 0 {
        return Depleted(shortfall);
      }
      if balance >= shortfall {
        balance := balance - shortfall;
        return Covered(shortfall);
      }
      var prior := balance;
      balance := 0;
      r := PartiallyDrained(prior, shortfall - prior);
    }
  }

  // --------------------------------------------------------------- the scan

  /** No two accounts have the same id. */
  ghost predicate UniqueIds(accounts: seq<AccountSnapshot>) {
    forall i, j :: 0 <= i < j < |accounts| ==> accounts[i].account != accounts[j].account
  }

  datatype ScanState = ScanState(balance: I64, report: ScanReport)

  function ScanOne(p: LiquidationParams, mark: U64, s: ScanState, a: AccountSnapshot): (r: ScanState)
    requires s.balance >= 0
    ensures r.balance >= 0
  {
    if !IsLiquidated(a, mark, p) then s
    else
      var outcome := Close(a, mark, p);
      var balance := FundDeposit(s.balance, outcome.feeToFund);
      var deposits := SatI64(s.report.fundDeposits + outcome.feeToFund);
      var records := s.report.records
        + [LiquidationRecord(a.account, CloseOrder(a), Health(a, mark, p), outcome)];
      match outcome
      case SolventClose(_, _) =>
        ScanState(balance, s.report.(records := records, fundDeposits := deposits))
      case UnderwaterClose(_, shortfall) =>
        var (left, w) := FundWithdraw(balance, shortfall);
        ScanState(left, ScanReport(records, deposits,
          SatI64(s.report.fundWithdrawals + w.Paid()), SatI64(s.report.unfilledDeficit + w.Unfilled())))
  }

  function ScanAll(p: LiquidationParams, mark: U64, s: ScanState, accounts: seq<AccountSnapshot>): (r: ScanState)
    requires s.balance >= 0
    ensures r.balance >= 0
    decreases |accounts|
  {
    if accounts == [] then s else ScanAll(p, mark, ScanOne(p, mark, s, accounts[0]), accounts[1..])
  }

  class LiquidationScanner {
    const params: LiquidationParams
    const fund: InsuranceFund

    predicate Valid() reads this, fund { fund.Valid() }

    constructor (params: LiquidationParams, initialBalance: I64)
      ensures Valid() && this.params == params && fund.balance == Max(initialBalance, 0) && fresh(fund)
    {
      this.params := params;
      fund := new InsuranceFund(initialBalance);
    }

    method Scan(accounts: seq<AccountSnapshot>, mark: U64) returns (report: ScanReport)
      requires Valid()
      modifies fund
      ensures Valid()
      ensures ScanState(fund.balance, report)
              == ScanAll(params, mark, ScanState(old(fund.balance), NO_RECORDS), accounts)
    {
      report := NO_RECORDS;
      var i := 0;
      while i < |accounts|
        invariant i <= |accounts| && Valid()
        invariant ScanAll(params, mark, ScanState(fund.balance, report), accounts[i..])
          == ScanAll(params, mark, ScanState(old(fund.balance), NO_RECORDS), accounts)
      {
        var snapshot := accounts[i];
        assert accounts[i..][0] == snapshot && accounts[i..][1..] == accounts[i + 1..];
        ghost var before := ScanState(fund.balance, report);
        i := i + 1;
        var classification := Health(snapshot, mark, params);
        if classification.Safe? || classification.AtRisk? || snapshot.positionSize == 0 {
          continue;
        }
        var outcome := Close(snapshot, mark, params);
        match outcome {
          case SolventClose(fee, _) =>
            var _ := fund.Deposit(fee);
            report := report.(fundDeposits := SatI64(report.fundDeposits + fee));
          case UnderwaterClose(fee, shortfall) =>
            if fee > 0 {
              var _ := fund.Deposit(fee);
              report := report.(fundDeposits := SatI64(report.fundDeposits + fee));
            }
            var w := fund.WithdrawShortfall(shortfall);
            report := report.(
              fundWithdrawals := SatI64(report.fundWithdrawals + w.Paid()),
              unfilledDeficit := SatI64(report.unfilledDeficit + w.Unfilled()));
        }
        report := report.(records := report.records
          + [LiquidationRecord(snapshot.account, CloseOrder(snapshot), classification, outcome)]);
        assert ScanState(fund.balance, report) == ScanOne(params, mark, before, snapshot);
      }
    }
  }
}
