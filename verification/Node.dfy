/** The integration coordinator: oracle, scanner, auto-deleveraging, vault and
    funding clock, run once a block. */
module Node {
  import opened Machine
  import opened Margin
  import opened Scanner
  import opened Adl
  import Aggregation
  import Funding
  import Oracle
  import Vault

  datatype Config = Config(
    refreshInterval: U64, liquidation: LiquidationParams, oracle: Aggregation.OracleParams,
    minDeposit: I64, funding: Funding.FundingParams, runAdl: bool)

  datatype TickInput = TickInput(
    blockHeight: U64, blockTime: U64, mark: U64, accounts: seq<AccountSnapshot>, vaultTotalAssets: I64)

  datatype TickReport = TickReport(
    blockHeight: U64, blockTime: U64,
    oracle: Option<Result<Oracle.AggregatedPrice, Aggregation.AggregationError>>,
    liquidation: ScanReport, adl: Option<AdlReport>,
    vaultTotalShares: U64, vaultTotalAssets: I64, vaultSharePriceBps: Option<I64>,
    funding: Option<Funding.FundingTick>)

  datatype CoordinatorSnapshot = CoordinatorSnapshot(
    insuranceFundBalance: I64, vaultTotalShares: U64, vaultTotalAssets: I64,
    lastOracleRefreshAt: Option<U64>, fundingLastSettledAt: U64, cachedOraclePrice: Option<Oracle.AggregatedPrice>)

  /** Everything a node remembers between calls. */
  datatype NodeState = NodeState(
    oracle: Oracle.Table, fund: I64, vault: Vault.Pool, lastSettledAt: U64, lastRefreshAt: Option<U64>)

  predicate RefreshDue(last: Option<U64>, interval: U64, now: U64) {
    last.None? || SatU64(now - last.value) >= interval
  }

  function PositionsOf(accounts: seq<AccountSnapshot>): seq<Funding.Position> {
    if accounts == [] then []
    else [Funding.Position(accounts[0].account, accounts[0].positionSize)] + PositionsOf(accounts[1..])
  }

  /** The oracle's price if it is recent enough, else the book's midpoint. */
  function ScanMark(t: Oracle.Table, cfg: Config, input: TickInput): U64 {
    match Oracle.PriceFreshAt(t, cfg.oracle, input.blockTime)
    case Some(index) => index
    case None => input.mark
  }

  datatype RefreshStep = RefreshStep(
    table: Oracle.Table, lastRefreshAt: Option<U64>,
    outcome: Option<Result<Oracle.AggregatedPrice, Aggregation.AggregationError>>)

  /** A failed refresh leaves the deadline where it was. */
  function MaybeRefresh(s: NodeState, cfg: Config, now: U64): RefreshStep {
    if !RefreshDue(s.lastRefreshAt, cfg.refreshInterval, now) then RefreshStep(s.oracle, s.lastRefreshAt, None)
    else
      var r := Oracle.Refreshed(s.oracle, cfg.oracle, now);
      if r.Ok? then RefreshStep(s.oracle.(current := Some(r.value)), Some(now), Some(r))
      else RefreshStep(s.oracle, s.lastRefreshAt, Some(r))
  }

  function AdlOf(cfg: Config, accounts: seq<AccountSnapshot>, mark: U64, unfilled: I64): Option<AdlReport> {
    if cfg.runAdl && unfilled > 0 then Some(AdlOutcome(accounts, mark, unfilled)) else None
  }

  function FundingOf(t: Oracle.Table, cfg: Config, last: U64, input: TickInput): Option<Funding.FundingTick> {
    match Oracle.PriceFreshAt(t, cfg.oracle, input.blockTime)
    case None => None
    case Some(index) =>
      Funding.TickOutcome(cfg.funding, last, input.blockTime, input.mark, index, PositionsOf(input.accounts))
  }

  function TickOf(s: NodeState, cfg: Config, input: TickInput): (NodeState, TickReport)
    requires s.fund >= 0
  {
    var refresh := MaybeRefresh(s, cfg, input.blockTime);
    var mark := ScanMark(refresh.table, cfg, input);
    var scan := ScanAll(cfg.liquidation, mark, ScanState(s.fund, NO_RECORDS), input.accounts);
    var adl := AdlOf(cfg, input.accounts, mark, scan.report.unfilledDeficit);
    var pool := Vault.Pool(s.vault.shares, input.vaultTotalAssets);
    var funding := FundingOf(refresh.table, cfg, s.lastSettledAt, input);
    (NodeState(
       refresh.table, scan.balance, pool,
       if funding.Some? then input.blockTime else s.lastSettledAt, refresh.lastRefreshAt),
     TickReport(
       input.blockHeight, input.blockTime, refresh.outcome, scan.report, adl,
       pool.shares, pool.assets, Vault.SharePriceBps(pool.shares, pool.assets), funding))
  }

  function SnapshotOf(s: NodeState): CoordinatorSnapshot {
    CoordinatorSnapshot(s.fund, s.vault.shares, s.vault.assets, s.lastRefreshAt, s.lastSettledAt, s.oracle.current)
  }

  /** Feeds and publishers are not part of a snapshot and stay as they are; an
      absent price does not clear a present one. */
  function Loaded(s: NodeState, snap: CoordinatorSnapshot): NodeState {
    NodeState(
      if snap.cachedOraclePrice.Some? then s.oracle.(current := snap.cachedOraclePrice) else s.oracle,
      Max(snap.insuranceFundBalance, 0), Vault.Pool(snap.vaultTotalShares, snap.vaultTotalAssets),
      snap.fundingLastSettledAt, snap.lastOracleRefreshAt)
  }

  class OpenHlNode {
    const config: Config
    const oracle: Oracle.OracleState
    var scanner: LiquidationScanner
    var vault: Vault.VaultState
    var fundingClock: Funding.FundingClock
    var lastOracleRefreshAt: Option<U64>

    ghost predicate Valid()
      reads this, scanner, scanner.fund, vault, fundingClock
    {
      && scanner.Valid()
      && scanner.params == config.liquidation && oracle.params == config.oracle
      && vault.minDeposit == config.minDeposit && fundingClock.params == config.funding
    }

    ghost function Parts(): set<object>
      reads this
    {
      {this, oracle, scanner.fund, vault, fundingClock}
    }

    function State(): NodeState
      reads this, oracle, scanner, scanner.fund, vault, fundingClock
    {
      NodeState(oracle.State(), scanner.fund.balance, vault.State(), fundingClock.lastSettledAt, lastOracleRefreshAt)
    }

    constructor (config: Config, verify: Oracle.Verifier)
      ensures Valid() && this.config == config && fresh(Parts())
      ensures State() == NodeState(Oracle.EMPTY, 0, Vault.Pool(0, 0), 0, None)
      ensures oracle.verify == verify
    {
      this.config := config;
      oracle := new Oracle.OracleState(config.oracle, verify);
      scanner := new LiquidationScanner(config.liquidation, 0);
      vault := new Vault.VaultState.Restore(config.minDeposit, 0, 0);
      fundingClock := new Funding.FundingClock(config.funding, 0);
      lastOracleRefreshAt := None;
    }

    method RegisterPublisher(feed: Oracle.FeedId, key: Oracle.PublisherKey)
      requires Valid()
      modifies oracle
      ensures Valid()
      ensures oracle.State()
              == Oracle.Step(old(oracle.State()), config.oracle, oracle.verify, Oracle.Register(feed, key))
    {
      oracle.RegisterPublisher(feed, key);
    }

    method IngestObservation(obs: Oracle.PriceObservation, now: U64) returns (r: Result<(), Oracle.ObservationError>)
      requires Valid()
      modifies oracle
      ensures Valid()
      ensures r == Oracle.Refused(Oracle.Refusal(old(oracle.State()), config.oracle, obs, now))
      ensures oracle.State() == Oracle.Step(old(oracle.State()), config.oracle, oracle.verify, Oracle.Ingest(obs, now))
    {
      r := oracle.Ingest(obs, now);
    }

    method IngestSignedObservation(obs: Oracle.PriceObservation, now: U64)
      returns (r: Result<(), Oracle.ObservationError>)
      requires Valid()
      modifies oracle
      ensures Valid()
      ensures r == Oracle.Refused(Oracle.SignedRefusal(old(oracle.State()), config.oracle, oracle.verify, obs, now))
      ensures oracle.State()
              == Oracle.Step(old(oracle.State()), config.oracle, oracle.verify, Oracle.IngestSigned(obs, now))
    {
      r := oracle.IngestSigned(obs, now);
    }

    method MaybeRefreshOracle(now: U64)
      returns (r: Option<Result<Oracle.AggregatedPrice, Aggregation.AggregationError>>)
      requires Valid()
      modifies this`lastOracleRefreshAt, oracle
      ensures Valid()
      ensures MaybeRefresh(old(State()), config, now) == RefreshStep(oracle.State(), lastOracleRefreshAt, r)
      ensures State() == old(State()).(oracle := oracle.State(), lastRefreshAt := lastOracleRefreshAt)
    {
      var due := lastOracleRefreshAt.None? || SatU64(now - lastOracleRefreshAt.value) >= config.refreshInterval;
      if !due {
        return None;
      }
      var result := oracle.Refresh(now);
      if result.Ok? {
        lastOracleRefreshAt := Some(now);
      }
      r := Some(result);
    }

    method Tick(input: TickInput) returns (report: TickReport)
      requires Valid()
      modifies this`lastOracleRefreshAt, oracle, scanner.fund, vault, fundingClock
      ensures Valid()
      ensures (State(), report) == TickOf(old(State()), config, input)
    {
      var oracleResult := MaybeRefreshOracle(input.blockTime);
      var index := Oracle.PriceFreshAt(oracle.State(), oracle.params, input.blockTime);
      var mark := if index.Some? then index.value else input.mark;
      var scan := scanner.Scan(input.accounts, mark);
      var adl: Option<AdlReport> := None;
      if config.runAdl && scan.unfilledDeficit > 0 {
        var pass := ExecuteAdl(input.accounts, mark, scan.unfilledDeficit);
        adl := Some(pass);
      }
      vault.MarkToMarket(input.vaultTotalAssets);
      var funding: Option<Funding.FundingTick> := None;
      if index.Some? {
        funding := fundingClock.Tick(input.blockTime, input.mark, index.value, PositionsOf(input.accounts));
      }
      report := TickReport(
        input.blockHeight, input.blockTime, oracleResult, scan, adl,
        vault.totalShares, vault.totalAssets, Vault.SharePriceBps(vault.totalShares, vault.totalAssets), funding);
    }

    method Snapshot() returns (snap: CoordinatorSnapshot)
      requires Valid()
      ensures snap == SnapshotOf(State())
    {
      snap := CoordinatorSnapshot(
        scanner.fund.balance, vault.totalShares, vault.totalAssets, lastOracleRefreshAt,
        fundingClock.lastSettledAt, oracle.current);
    }

    method LoadSnapshot(snap: CoordinatorSnapshot)
      requires Valid()
      modifies this, oracle
      ensures Valid() && State() == Loaded(old(State()), snap)
      ensures fresh(scanner) && fresh(scanner.fund) && fresh(vault) && fresh(fundingClock)
    {
      scanner := new LiquidationScanner(config.liquidation, snap.insuranceFundBalance);
      vault := new Vault.VaultState.Restore(config.minDeposit, snap.vaultTotalShares, snap.vaultTotalAssets);
      fundingClock := new Funding.FundingClock(config.funding, snap.fundingLastSettledAt);
      lastOracleRefreshAt := snap.lastOracleRefreshAt;
      if snap.cachedOraclePrice.Some? {
        oracle.RestoreCurrent(snap.cachedOraclePrice.value);
      }
    }
  }
}
