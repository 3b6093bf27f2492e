/** What the coordinator promises over ticks and across a restart. */
module NodeRuns {
  import opened Machine
  import opened Clearing
  import opened Margin
  import opened Scanner
  import opened ScanFlows
  import opened Adl
  import opened Node
  import Aggregation
  import Clob
  import Oracle
  import Sorting
  import Vault

  // -------------------------------------------------------------- one tick

  /** The mark a tick classifies accounts at. */
  function MarkOf(s: NodeState, cfg: Config, input: TickInput): U64 {
    ScanMark(MaybeRefresh(s, cfg, input.blockTime).table, cfg, input)
  }

  /** A refresh is tried exactly when none was ever done or an interval has passed. */
  lemma {:induction false} RefreshesExactlyWhenDue(s: NodeState, cfg: Config, input: TickInput)
    requires s.fund >= 0
    ensures TickOf(s, cfg, input).1.oracle.Some?
            <==> s.lastRefreshAt.None? || cfg.refreshInterval == 0
                 || input.blockTime >= s.lastRefreshAt.value + cfg.refreshInterval
    ensures var (s', report) := TickOf(s, cfg, input);
            if report.oracle.Some? && report.oracle.value.Ok?
            then s'.oracle.current == Some(report.oracle.value.value) && s'.lastRefreshAt == Some(input.blockTime)
                 && report.oracle.value.value.computedAt == input.blockTime
            else s'.oracle.current == s.oracle.current && s'.lastRefreshAt == s.lastRefreshAt
  {
  }

  /** The tick scans and deleverages at this mark. */
  predicate ScansAt(s: NodeState, cfg: Config, input: TickInput, mark: U64)
    requires s.fund >= 0
  {
    var (s', report) := TickOf(s, cfg, input);
    var scan := ScanAll(cfg.liquidation, mark, ScanState(s.fund, NO_RECORDS), input.accounts);
    && s'.fund == scan.balance && report.liquidation == scan.report
    && report.adl == (if cfg.runAdl && scan.report.unfilledDeficit > 0
                      then Some(AdlOutcome(input.accounts, mark, scan.report.unfilledDeficit)) else None)
  }

  /** The mark of a tick: the price just refreshed if there is one, else the cached one
      up to its maximum age, else the book's. */
  lemma {:induction false} TickMark(s: NodeState, cfg: Config, input: TickInput)
    requires s.fund >= 0
    ensures var report := TickOf(s, cfg, input).1;
            var now, cached := input.blockTime, s.oracle.current;
            if report.oracle.Some? && report.oracle.value.Ok? then
              ScansAt(s, cfg, input, report.oracle.value.value.index)
            else if cached.Some? && now <= cached.value.computedAt + cfg.oracle.aggregateMaxAge then
              ScansAt(s, cfg, input, cached.value.index)
            else ScansAt(s, cfg, input, input.mark) && report.funding == None
  {
    RefreshesExactlyWhenDue(s, cfg, input);
    Oracle.PriceFreshExactly(TickOf(s, cfg, input).0.oracle, cfg.oracle, input.blockTime);
    Oracle.PriceFreshExactly(MaybeRefresh(s, cfg, input.blockTime).table, cfg.oracle, input.blockTime);
  }

  /** Funding is settled exactly when there is an oracle price that counts and the
      deadline has passed; then it charges every account's own position at the book's
      mark, for the premium of that mark over the oracle price. */
  lemma {:induction false} TickFunds(s: NodeState, cfg: Config, input: TickInput)
    requires s.fund >= 0
    ensures var (s', report) := TickOf(s, cfg, input);
            var now, cached := input.blockTime, s'.oracle.current;
            && (report.funding.Some?
                <==> && cached.Some? && now <= cached.value.computedAt + cfg.oracle.aggregateMaxAge
                     && now >= Min(s.lastSettledAt + cfg.funding.interval, U64_MAX))
            && (report.funding.Some? ==>
                  && s'.lastSettledAt == now && report.funding.value.settledAt == now
                  && report.funding.value.premium == Funding.Premium(input.mark, cached.value.index)
                  && report.funding.value.rate == Funding.Rate(report.funding.value.premium, cfg.funding)
                  && report.funding.value.settlements
                     == Funding.Funded(PositionsOf(input.accounts), input.mark, report.funding.value.rate))
            && (report.funding.None? ==> s'.lastSettledAt == s.lastSettledAt)
  {
    Oracle.PriceFreshExactly(TickOf(s, cfg, input).0.oracle, cfg.oracle, input.blockTime);
  }

  lemma {:induction false} PositionsAreTheAccounts(accounts: seq<AccountSnapshot>, i: nat)
    requires i < |accounts|
    ensures |PositionsOf(accounts)| == |accounts|
    ensures PositionsOf(accounts)[i] == Funding.Position(accounts[i].account, accounts[i].positionSize)
  {
    if i > 0 {
      PositionsAreTheAccounts(accounts[1..], i - 1);
    } else {
      PositionsLength(accounts);
    }
  }

  lemma {:induction false} PositionsLength(accounts: seq<AccountSnapshot>)
    ensures |PositionsOf(accounts)| == |accounts|
  {
    if accounts != [] {
      PositionsLength(accounts[1..]);
    }
  }

  /** The rest of a report: the block it is for, and the vault at the new assets. */
  lemma {:induction false} TickReportsTheBlock(s: NodeState, cfg: Config, input: TickInput)
    requires s.fund >= 0
    ensures var (s', report) := TickOf(s, cfg, input);
            && report.blockHeight == input.blockHeight && report.blockTime == input.blockTime
            && s'.vault == Vault.Pool(s.vault.shares, input.vaultTotalAssets)
            && report.vaultTotalShares == s.vault.shares && report.vaultTotalAssets == input.vaultTotalAssets
            && report.vaultSharePriceBps == Vault.SharePriceBps(s.vault.shares, input.vaultTotalAssets)
            && s'.oracle.feeds == s.oracle.feeds && s'.oracle.publishers == s.oracle.publishers
  {
  }

  /** Fees and debts of the closed accounts are paid into the fund, out of the
      fund, by profitable traders, or are reported as still open: nothing else. */
  lemma {:induction false} TickAccountsForEveryCost(s: NodeState, cfg: Config, input: TickInput)
    requires s.fund >= 0 && cfg.runAdl
    requires ScanFits(cfg.liquidation, MarkOf(s, cfg, input), ScanState(s.fund, NO_RECORDS), input.accounts)
    ensures var report := TickOf(s, cfg, input).1;
            var scan := report.liquidation;
            var costs := Costs(cfg.liquidation, MarkOf(s, cfg, input), input.accounts);
            match report.adl
            case None => scan.unfilledDeficit == 0 && scan.fundDeposits + scan.fundWithdrawals == costs
            case Some(adl) =>
              && scan.unfilledDeficit > 0
              && adl.deficitAbsorbed + adl.deficitRemaining == scan.unfilledDeficit
              && scan.fundDeposits + scan.fundWithdrawals + adl.deficitAbsorbed + adl.deficitRemaining == costs
  {
    var mark := MarkOf(s, cfg, input);
    ScanConserves(cfg.liquidation, mark, s.fund, input.accounts);
    ScanIsReflectedWalk(cfg.liquidation, mark, s.fund, input.accounts);
    var scan := TickOf(s, cfg, input).1.liquidation;
    if scan.unfilledDeficit > 0 {
      AdlAbsorbs(input.accounts, mark, scan.unfilledDeficit);
    }
  }

  /** Every deleveraged account is one of the tick's accounts with a profit and
      positive equity at the scan mark. */
  lemma DeleveragedAccountsAreFunded(accounts: seq<AccountSnapshot>, mark: U64, deficit: I64, i: nat)
    requires i < |AdlOutcome(accounts, mark, deficit).records|
    ensures var id := AdlOutcome(accounts, mark, deficit).records[i].account;
            exists a :: a in accounts && a.account == id && AccountEquity(a, mark) > 0 && UnrealizedPnl(a, mark) > 0
  {
    AdlAbsorbs(accounts, mark, deficit);
    RankedProfitable(accounts, mark);
    var c := Ranked(accounts, mark)[i];
    assert c in multiset(Ranked(accounts, mark));
    CandidateIsEntry(accounts, mark, c);
    assert c.snapshot in accounts && AccountEquity(c.snapshot, mark) > 0 && UnrealizedPnl(c.snapshot, mark) > 0;
  }

  /** No account that holds nothing at the scan mark is made to pay for others. */
  lemma {:induction false} InsolventNeverDeleveraged(
      s: NodeState, cfg: Config, input: TickInput, a: AccountSnapshot, i: nat)
    requires s.fund >= 0 && DistinctIds(input.accounts) && a in input.accounts
    requires AccountEquity(a, MarkOf(s, cfg, input)) <= 0
    requires var adl := TickOf(s, cfg, input).1.adl; adl.Some? && i < |adl.value.records|
    ensures TickOf(s, cfg, input).1.adl.value.records[i].account != a.account
  {
    var mark := MarkOf(s, cfg, input);
    var deficit := TickOf(s, cfg, input).1.liquidation.unfilledDeficit;
    DeleveragedAccountsAreFunded(input.accounts, mark, deficit, i);
  }

  /** The tick closes the account and takes its profit. */
  predicate ClosedAndDeleveraged(report: TickReport, id: Clob.AccountId) {
    Mentions(report.liquidation.records, id) && report.adl.Some? && Deleveraged(report.adl.value, id)
  }

  /** Being closed does not exempt an account from paying: it does both exactly
      when it is to be liquidated and eligible, and the profits ranked before its
      own do not cover what the fund left unfilled. */
  lemma {:induction false} ClosedAndDeleveragedExactly(s: NodeState, cfg: Config, input: TickInput, a: AccountSnapshot)
    requires s.fund >= 0 && UniqueIds(input.accounts) && a in input.accounts
    ensures var mark := MarkOf(s, cfg, input);
            var report := TickOf(s, cfg, input).1;
            var unfilled := report.liquidation.unfilledDeficit;
            ClosedAndDeleveraged(report, a.account)
            <==> && cfg.runAdl && unfilled > 0
                 && IsLiquidated(a, mark, cfg.liquidation)
                 && Eligible(a, mark) && AheadProfit(input.accounts, a, mark) < unfilled
  {
    var mark := MarkOf(s, cfg, input);
    var unfilled := TickOf(s, cfg, input).1.liquidation.unfilledDeficit;
    ClosedExactly(cfg.liquidation, mark, s.fund, input.accounts, a.account);
    HasLiquidatedOne(cfg.liquidation, mark, input.accounts, a);
    if unfilled > 0 {
      DeleveragedExactly(input.accounts, mark, unfilled, a);
    }
  }

  const NO_FEE := LiquidationParams(1000, 500, 0)

  lemma WinnerIsClosed(s: ScanState)
    requires s.balance == 0
    ensures var t := ScanOne(NO_FEE, 200, s, WINNER);
            && t.report.records == s.report.records
                  + [LiquidationRecord(2, CloseOrder(WINNER), Liquidatable, SolventClose(0, 1001))]
            && t.report.unfilledDeficit == s.report.unfilledDeficit
  {
    assert Health(WINNER, 200, NO_FEE) == Liquidatable;
    assert Close(WINNER, 200, NO_FEE) == SolventClose(0, 1001);
  }

  lemma DebtorIsUnpaid()
    ensures var t := ScanOne(NO_FEE, 200, ScanState(0, NO_RECORDS), DEBTOR);
            t.balance == 0 && t.report.unfilledDeficit == 10_000 && |t.report.records| == 1
  {
    assert Health(DEBTOR, 200, NO_FEE) == Underwater;
    assert Close(DEBTOR, 200, NO_FEE) == UnderwaterClose(0, 10_000);
  }

  lemma WinnerRanks()
    ensures Ranked([DEBTOR, WINNER], 200) != [] && AccountEquity(DEBTOR, 200) < 0
  {
    var accounts := [DEBTOR, WINNER];
    assert Eligible(WINNER, 200);
    CandidateCounts(accounts, 200, EntryOf(WINNER, 200));
    assert accounts[1] == WINNER;
    RankedProfitable(accounts, 200);
    Sorting.SameLength(Ranked(accounts, 200), Candidates(accounts, 200));
  }

  lemma WinnerIsDeleveraged()
    ensures var adl := AdlOutcome([DEBTOR, WINNER], 200, 10_000);
            adl.records != [] && adl.records[0].account == 2
  {
    WinnerRanks();
    assert Ranked([DEBTOR, WINNER], 200)[..0] == [];
    RecordsExactly([DEBTOR, WINNER], 200, 10_000, 0);
    DeleveragedAccountsAreFunded([DEBTOR, WINNER], 200, 10_000, 0);
  }

  /** One such tick. */
  lemma ClosedAccountCanBeDeleveraged(cfg: Config, input: TickInput, s: NodeState)
    requires cfg.liquidation == NO_FEE && cfg.runAdl
    requires input.accounts == [DEBTOR, WINNER] && MarkOf(s, cfg, input) == 200 && s.fund == 0
    ensures ClosedAndDeleveraged(TickOf(s, cfg, input).1, WINNER.account)
  {
    var report := TickOf(s, cfg, input).1;
    DebtorIsUnpaid();
    var first := ScanOne(NO_FEE, 200, ScanState(0, NO_RECORDS), DEBTOR);
    WinnerIsClosed(first);
    ScanTwo(NO_FEE, 200, ScanState(0, NO_RECORDS), DEBTOR, WINNER);
    WinnerIsDeleveraged();
    assert report.liquidation.records[1].account == 2 && report.adl.value.records[0].account == 2;
  }

  // ------------------------------------------------------------ whole runs

  datatype NodeOp =
    | OracleCall(op: Oracle.Op)
    | VaultDeposit(assets: I64)
    | VaultWithdraw(shares: U64)
    | Tick(input: TickInput)

  function Step(s: NodeState, cfg: Config, verify: Oracle.Verifier, op: NodeOp): (r: NodeState)
    requires s.fund >= 0
    ensures r.fund >= 0
  {
    match op
    case OracleCall(call) => s.(oracle := Oracle.Step(s.oracle, cfg.oracle, verify, call))
    case VaultDeposit(assets) => s.(vault := Vault.AfterDeposit(s.vault, cfg.minDeposit, assets))
    case VaultWithdraw(shares) => s.(vault := Vault.AfterWithdraw(s.vault, shares))
    case Tick(input) => TickOf(s, cfg, input).0
  }

  function Run(s: NodeState, cfg: Config, verify: Oracle.Verifier, ops: seq<NodeOp>): (r: NodeState)
    requires s.fund >= 0
    ensures r.fund >= 0
    decreases |ops|
  {
    if ops == [] then s else Run(Step(s, cfg, verify, ops[0]), cfg, verify, ops[1..])
  }

  /** The reports of all the ticks of a run, in order. */
  function Reports(s: NodeState, cfg: Config, verify: Oracle.Verifier, ops: seq<NodeOp>): seq<TickReport>
    requires s.fund >= 0
    decreases |ops|
  {
    if ops == [] then []
    else (if ops[0].Tick? then [TickOf(s, cfg, ops[0].input).1] else [])
         + Reports(Step(s, cfg, verify, ops[0]), cfg, verify, ops[1..])
  }

  // --------------------------------------------------------------- restart

  /** Loading a snapshot brings fund, vault, both clocks and the price, but never clears
      a price or touches feeds and publishers; a negative fund counts as empty. */
  lemma {:induction false} LoadNeverClears(s: NodeState, snap: CoordinatorSnapshot)
    ensures var t := Loaded(s, snap);
            && t.oracle.feeds == s.oracle.feeds && t.oracle.publishers == s.oracle.publishers
            && t.oracle.current == (if snap.cachedOraclePrice.Some? then snap.cachedOraclePrice else s.oracle.current)
            && SnapshotOf(t) == snap.(
                 insuranceFundBalance := if snap.insuranceFundBalance < 0 then 0 else snap.insuranceFundBalance,
                 cachedOraclePrice := t.oracle.current)
  {
  }

  /** A fresh node with the same publishers registered, loaded from a snapshot. */
  function Restarted(s: NodeState): NodeState {
    var blank := NodeState(Oracle.EMPTY.(publishers := s.oracle.publishers), 0, Vault.Pool(0, 0), 0, None);
    Loaded(blank, SnapshotOf(s))
  }

  /** Calls between ticks: everything but a tick or a bare refresh. */
  predicate BetweenTicks(op: NodeOp) { !op.Tick? && !(op.OracleCall? && op.op.Refresh?) }

  /** The feed whose new observation the node accepts, if any. */
  function Renews(s: NodeState, cfg: Config, verify: Oracle.Verifier, op: NodeOp): set<Oracle.FeedId> {
    if !op.OracleCall? then {}
    else
      match op.op
      case Ingest(obs, now) => if Oracle.Refusal(s.oracle, cfg.oracle, obs, now).None? then {obs.feed} else {}
      case IngestSigned(obs, now) =>
        if Oracle.SignedRefusal(s.oracle, cfg.oracle, verify, obs, now).None? then {obs.feed} else {}
      case _ => {}
  }

  function AllRenewed(s: NodeState, cfg: Config, verify: Oracle.Verifier, ops: seq<NodeOp>): set<Oracle.FeedId>
    requires s.fund >= 0
    decreases |ops|
  {
    if ops == [] then {}
    else Renews(s, cfg, verify, ops[0]) + AllRenewed(Step(s, cfg, verify, ops[0]), cfg, verify, ops[1..])
  }

  ghost predicate FeedsAgree(o: map<Oracle.FeedId, Oracle.FeedRecord>, r: map<Oracle.FeedId, Oracle.FeedRecord>,
                             behind: set<Oracle.FeedId>)
  {
    forall f: Oracle.FeedId ::
      if f in behind then f in o && (f in r ==> r[f].lastTimestamp < o[f].lastTimestamp)
      else (f in o <==> f in r) && (f in o ==> o[f] == r[f])
  }

  /** The restarted node r equals the original o, except that on the feeds in
      `behind` it has nothing, or something older than what the original has. */
  ghost predicate Behind(o: NodeState, r: NodeState, behind: set<Oracle.FeedId>) {
    && r == o.(oracle := o.oracle.(feeds := r.oracle.feeds))
    && FeedsAgree(o.oracle.feeds, r.oracle.feeds, behind)
  }

  lemma RestartIsBehind(o: NodeState)
    requires o.fund >= 0
    ensures Behind(o, Restarted(o), o.oracle.feeds.Keys)
  {
  }

  lemma ObservationKeepsBehind(o: Oracle.Table, r: Oracle.Table, p: Aggregation.OracleParams,
                               obs: Oracle.PriceObservation, now: U64, behind: set<Oracle.FeedId>)
    requires FeedsAgree(o.feeds, r.feeds, behind)
    ensures var takes, also := Oracle.Refusal(o, p, obs, now).None?, Oracle.Refusal(r, p, obs, now).None?;
            && (takes ==> also)
            && FeedsAgree((if takes then Oracle.Store(o, obs) else o).feeds,
                          (if also then Oracle.Store(r, obs) else r).feeds,
                          if takes then behind - {obs.feed} else behind)
  {
  }

  lemma {:induction false} IngestKeepsBehind(o: NodeState, r: NodeState, cfg: Config, verify: Oracle.Verifier,
                                             op: NodeOp, behind: set<Oracle.FeedId>)
    requires o.fund >= 0 && Behind(o, r, behind) && op.OracleCall? && op.op.Ingest?
    ensures Behind(Step(o, cfg, verify, op), Step(r, cfg, verify, op), behind - Renews(o, cfg, verify, op))
  {
    ObservationKeepsBehind(o.oracle, r.oracle, cfg.oracle, op.op.obs, op.op.now, behind);
    assert behind - {} == behind;
  }

  lemma {:induction false} SignedKeepsBehind(o: NodeState, r: NodeState, cfg: Config, verify: Oracle.Verifier,
                                             op: NodeOp, behind: set<Oracle.FeedId>)
    requires o.fund >= 0 && Behind(o, r, behind) && op.OracleCall? && op.op.IngestSigned?
    ensures Behind(Step(o, cfg, verify, op), Step(r, cfg, verify, op), behind - Renews(o, cfg, verify, op))
  {
    ObservationKeepsBehind(o.oracle, r.oracle, cfg.oracle, op.op.obs, op.op.now, behind);
    assert behind - {} == behind;
  }

  /** The replay guard keeps the restarted node no newer than the original. */
  lemma {:induction false} StepKeepsBehind(o: NodeState, r: NodeState, cfg: Config, verify: Oracle.Verifier, op: NodeOp,
                                           behind: set<Oracle.FeedId>)
    requires o.fund >= 0 && Behind(o, r, behind) && BetweenTicks(op)
    ensures Behind(Step(o, cfg, verify, op), Step(r, cfg, verify, op), behind - Renews(o, cfg, verify, op))
  {
    if op.OracleCall? && op.op.Ingest? {
      IngestKeepsBehind(o, r, cfg, verify, op, behind);
    } else if op.OracleCall? && op.op.IngestSigned? {
      SignedKeepsBehind(o, r, cfg, verify, op, behind);
    } else {
      assert behind - {} == behind;
    }
  }

  lemma {:induction false} RunKeepsBehind(o: NodeState, r: NodeState, cfg: Config, verify: Oracle.Verifier,
                                          ops: seq<NodeOp>, behind: set<Oracle.FeedId>)
    requires o.fund >= 0 && Behind(o, r, behind)
    requires forall i :: 0 <= i < |ops| ==> BetweenTicks(ops[i])
    ensures Behind(Run(o, cfg, verify, ops), Run(r, cfg, verify, ops), behind - AllRenewed(o, cfg, verify, ops))
    decreases |ops|
  {
    if ops == [] {
      assert behind - {} == behind;
    } else {
      var renews := Renews(o, cfg, verify, ops[0]);
      StepKeepsBehind(o, r, cfg, verify, ops[0], behind);
      var o', r' := Step(o, cfg, verify, ops[0]), Step(r, cfg, verify, ops[0]);
      RunKeepsBehind(o', r', cfg, verify, ops[1..], behind - renews);
      var rest := AllRenewed(o', cfg, verify, ops[1..]);
      assert (behind - renews) - rest == behind - (renews + rest);
    }
  }

  /** A restart becomes invisible exactly when the original has accepted a new
      observation for every feed it held: then, and only then, the two nodes are
      in the same state, whatever else was called in between. */
  lemma {:induction false} RestartHealsExactlyWhenRenewed(
      o: NodeState, cfg: Config, verify: Oracle.Verifier, before: seq<NodeOp>)
    requires o.fund >= 0
    requires forall i :: 0 <= i < |before| ==> BetweenTicks(before[i])
    ensures o.oracle.feeds.Keys <= AllRenewed(o, cfg, verify, before)
            <==> Run(Restarted(o), cfg, verify, before) == Run(o, cfg, verify, before)
  {
    var r := Restarted(o);
    var behind := o.oracle.feeds.Keys - AllRenewed(o, cfg, verify, before);
    RestartIsBehind(o);
    RunKeepsBehind(o, r, cfg, verify, before, o.oracle.feeds.Keys);
    var o', r' := Run(o, cfg, verify, before), Run(r, cfg, verify, before);
    if behind == {} {
      assert o'.oracle.feeds == r'.oracle.feeds;
    } else {
      if forall f :: f !in behind { assert false; }
      var f :| f in behind;
      assert f in o'.oracle.feeds;
    }
  }

  /** A restart shows in the very next tick report exactly when a refresh is due and
      the original still has a fresh feed to refresh from. */
  lemma {:induction false} RestartShowsExactly(o: NodeState, cfg: Config, input: TickInput)
    requires o.fund >= 0
    ensures TickOf(Restarted(o), cfg, input).1 != TickOf(o, cfg, input).1
            <==> && RefreshDue(o.lastRefreshAt, cfg.refreshInterval, input.blockTime)
                 && Oracle.FreshPrices(o.oracle, cfg.oracle, input.blockTime) != []
  {
    var r, now := Restarted(o), input.blockTime;
    Oracle.FeedsDecideRefresh(o.oracle, r.oracle, cfg.oracle, now);
  }

  /** A node with one fresh feed that it has not refreshed from yet. */
  lemma {:induction false} FreshFeedShowsRestart(cfg: Config, input: TickInput, fund: I64)
    requires input.blockTime == 9 && fund >= 0
    ensures var oracle := Oracle.Table(map[1 := Oracle.FeedRecord(100, 9)], map[], None);
            var o := NodeState(oracle, fund, Vault.Pool(0, 0), 0, None);
            TickOf(Restarted(o), cfg, input).1 != TickOf(o, cfg, input).1
  {
    var x := Oracle.FeedRecord(100, 9);
    var o := NodeState(Oracle.Table(map[1 := x], map[], None), fund, Vault.Pool(0, 0), 0, None);
    Oracle.ValuesFrom(map[1 := x], 1, map[]);
    Oracle.FreshFrom(x, [], 9, cfg.oracle.stalenessWindow);
    RestartShowsExactly(o, cfg, input);
  }

  /** From then on both nodes give the same tick reports, whatever happens next. */
  lemma {:induction false} RestartIsInvisible(
      o: NodeState, cfg: Config, verify: Oracle.Verifier, before: seq<NodeOp>, later: seq<NodeOp>)
    requires o.fund >= 0
    requires forall i :: 0 <= i < |before| ==> BetweenTicks(before[i])
    requires o.oracle.feeds.Keys <= AllRenewed(o, cfg, verify, before)
    ensures Reports(Run(Restarted(o), cfg, verify, before), cfg, verify, later)
            == Reports(Run(o, cfg, verify, before), cfg, verify, later)
  {
    RestartHealsExactlyWhenRenewed(o, cfg, verify, before);
  }
}
