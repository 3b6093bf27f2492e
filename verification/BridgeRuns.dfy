/** The bridge on values: matching, clearing and payload building composed, and
    what every run of its operations conserves. */
module BridgeRuns {
  import opened Machine
  import opened OrderedMaps
  import opened Clob
  import opened Clearing
  import opened Accounts
  import opened Chain
  import opened Sums
  import BookRuns

  datatype BridgeState = BridgeState(
    book: FlatBook, accounts: Ledger, pendingFills: seq<Fill>, oracleIndexPrice: Option<U64>, chain: ChainState)

  const GENESIS := BridgeState(EMPTY, map[], [], None, FRESH)

  // ------------------------------------------- what each operation computes

  function SubmitOrder(s: BridgeState, o: Order): (BridgeState, FillResult) {
    var (book, r) := Submit(s.book, o);
    (s.(book := book, pendingFills := s.pendingFills + r.fills, accounts := ApplyAll(s.accounts, r.fills)), r)
  }

  /** Signed, unchecked, saturating. */
  function Deposit(s: BridgeState, id: AccountId, amount: I64): BridgeState {
    s.(accounts := s.accounts[id := Credit(Lookup(s.accounts, id), amount)])
  }

  /** The book's midpoint in u64 arithmetic, which wraps in a release build. */
  function CurrentMark(b: FlatBook): Option<U64> {
    if b.bids == [] || b.asks == [] then None
    else Some((b.bids[0].price + b.asks[0].price) % (U64_MAX + 1) / 2)
  }

  /** The oracle index if one is installed, else the book's midpoint. */
  function EffectiveMark(s: BridgeState): Option<U64> {
    if s.oracleIndexPrice.Some? then s.oracleIndexPrice else CurrentMark(s.book)
  }

  predicate MayWithdraw(s: BridgeState, imBps: U32, id: AccountId, amount: U64) {
    && id in s.accounts && amount <= I64_MAX
    && amount <= WithdrawFreeCollateral(s.accounts[id], EffectiveMark(s), imBps)
  }

  function Withdraw(s: BridgeState, imBps: U32, id: AccountId, amount: U64): (BridgeState, Option<I64>) {
    if !MayWithdraw(s, imBps, id, amount) then (s, None)
    else
      var a := s.accounts[id];
      WithdrawFits(a, EffectiveMark(s), imBps, amount);
      (s.(accounts := s.accounts[id := a.(collateral := a.collateral - amount)]), Some(a.collateral - amount))
  }

  /** Building drains the fill buffer into the payload; a refused build does not. */
  function BuildPayload(spec: ChainSpec, s: BridgeState, parent: Hash, timestamp: nat)
    : (BridgeState, Result<nat, BridgeError>)
  {
    match Build(spec, s.chain, parent, timestamp, s.pendingFills)
    case Err(e) => (s, Err(e))
    case Ok((c, id)) => (s.(chain := c, pendingFills := []), Ok(id))
  }

  function RegisterProposedBlock(spec: ChainSpec, s: BridgeState, bytes: WireBytes)
    : (BridgeState, Result<ExecutedBlock, BridgeError>)
  {
    match Register(spec, s.chain, bytes)
    case Err(e) => (s, Err(e))
    case Ok((c, block)) => (s.(chain := c), Ok(block))
  }

  function CommitBlock(s: BridgeState, hash: Hash): (BridgeState, Result<(), BridgeError>) {
    match Commit(s.chain, hash)
    case Err(e) => (s, Err(e))
    case Ok(c) => (s.(chain := c), Ok(()))
  }

  // ------------------------------------------------------- who trades what

  lemma {:induction false} TakerSideMoves(fills: seq<Fill>, o: Order, id: AccountId)
    requires forall i :: 0 <= i < |fills| ==> fills[i].takerAccount == o.account && fills[i].makerSide != o.side
    ensures var net := (if id == o.account then FilledQty(fills) else 0) - MadeBy(fills, id);
            Moved(fills, id) == if o.side.Buy? then net else 0 - net
  {
    if fills != [] {
      assert fills[0].takerAccount == o.account && fills[0].makerSide != o.side;
      TakerSideMoves(fills[1..], o, id);
    }
  }

  /** An order moves every account's position by what left the other side of the
      book: all of it towards the account that submitted, and away from each maker
      what left its own resting orders. A buy adds, a sell takes away. */
  lemma SubmitMovesPositions(s: BridgeState, o: Order, id: AccountId)
    requires SizesFit(s.accounts, Submit(s.book, o).1.fills)
    ensures var s' := SubmitOrder(s, o).0;
            var was, left := s.book.On(o.side.Opposite()), s'.book.On(o.side.Opposite());
            var net := (if id == o.account then TotalQty(was) - TotalQty(left) else 0)
                       - (HeldBy(was, id) - HeldBy(left, id));
            Lookup(s'.accounts, id).positionSize
            == Lookup(s.accounts, id).positionSize + (if o.side.Buy? then net else 0 - net)
  {
    var fills, was := Submit(s.book, o).1.fills, s.book.On(o.side.Opposite());
    TakeBalances(o, was, o.qty);
    TakeBalancesEach(o, was, o.qty, id);
    forall i | 0 <= i < |fills|
      ensures fills[i].takerAccount == o.account && fills[i].makerSide != o.side
    {
      FillsNameTheirParties(s.book, o, i);
    }
    TakerSideMoves(fills, o, id);
    PositionsMove(s.accounts, fills, id);
  }

  /** A taker that is none of its own makers moves by its side's sign times what it
      filled, and each of its makers the other way by what that maker filled. */
  lemma TakerAndMakersMove(s: BridgeState, o: Order, maker: AccountId)
    requires SizesFit(s.accounts, Submit(s.book, o).1.fills) && maker != o.account
    requires forall f :: f in Submit(s.book, o).1.fills ==> f.makerAccount != o.account
    ensures var (s', r) := SubmitOrder(s, o);
            var sign := if o.side.Buy? then 1 else -1;
            && Lookup(s'.accounts, o.account).positionSize
               == Lookup(s.accounts, o.account).positionSize + sign * FilledQty(r.fills)
            && Lookup(s'.accounts, maker).positionSize
               == Lookup(s.accounts, maker).positionSize - sign * MadeBy(r.fills, maker)
  {
    var fills := Submit(s.book, o).1.fills;
    forall i | 0 <= i < |fills|
      ensures fills[i].takerAccount == o.account && fills[i].makerSide != o.side
    {
      FillsNameTheirParties(s.book, o, i);
    }
    TakerSideMoves(fills, o, o.account);
    TakerSideMoves(fills, o, maker);
    MadeByNone(fills, o.account);
    PositionsMove(s.accounts, fills, o.account);
    PositionsMove(s.accounts, fills, maker);
  }

  lemma {:induction false} MadeByNone(fills: seq<Fill>, id: AccountId)
    requires forall f :: f in fills ==> f.makerAccount != id
    ensures MadeBy(fills, id) == 0
  {
    if fills != [] {
      assert fills[0] in fills;
      MadeByNone(fills[1..], id);
    }
  }

  /** A deposit credits the named account, created flat if absent, and no other. */
  lemma DepositCredits(s: BridgeState, id: AccountId, amount: I64, x: AccountId)
    requires FitsI64(Lookup(s.accounts, id).collateral + amount)
    ensures var s' := Deposit(s, id, amount);
            && s' == s.(accounts := s'.accounts) && (x in s'.accounts <==> x == id || x in s.accounts)
            && Lookup(s'.accounts, x)
               == Lookup(s.accounts, x).(collateral := Lookup(s.accounts, x).collateral + if x == id then amount else 0)
            && (id !in s.accounts ==> s'.accounts[id] == Account(id, 0, 0, amount))
  {
  }

  // ---------------------------------------------------- who may withdraw

  /** The requirement at a price, as the source clamps it: the product saturates
      only where the requirement is past the i64 ceiling anyway. */
  lemma RequirementMeaning(a: Account, price: U64, imBps: U32)
    ensures InitialMarginRequirementAt(a, price, imBps)
            == Min(Abs(a.positionSize) * price * imBps / MARGIN_SCALE, I64_MAX)
  {
    var n := Abs(a.positionSize) * price;
    I64TimesU64FitsI128(Abs(a.positionSize), price);
    NonNegative(Abs(a.positionSize), price);
    NonNegative(n, imBps);
    if n * imBps > I128_MAX {
      DivMono(I128_MAX, n * imBps, MARGIN_SCALE);
    }
  }

  /** Paid in full out of the account, or refused with nothing changed. */
  predicate PaysOnly(s: BridgeState, id: AccountId, amount: U64, pays: bool, outcome: (BridgeState, Option<I64>)) {
    var (s', paid) := outcome;
    if pays then
      && id in s.accounts && paid == Some(s.accounts[id].collateral - amount)
      && s' == s.(accounts := s.accounts[id := s.accounts[id].(collateral := paid.value)])
    else paid == None && s' == s
  }

  /** What the account keeps covers the margin its position needs at the price. */
  predicate KeepsMargin(a: Account, pnl: int, price: U64, imBps: U32, amount: nat) {
    a.collateral + pnl - amount >= Min(Abs(a.positionSize) * price * imBps / MARGIN_SCALE, I64_MAX)
  }

  /** With no oracle price and one side of the book empty, the entry price counts and
      profit does not. */
  lemma WithdrawAtEntryExactly(s: BridgeState, imBps: U32, id: AccountId, amount: U64)
    requires s.oracleIndexPrice.None? && (s.book.bids == [] || s.book.asks == [])
    ensures var pays := id in s.accounts && KeepsMargin(s.accounts[id], 0, s.accounts[id].avgEntry, imBps, amount);
            PaysOnly(s, id, amount, pays, Withdraw(s, imBps, id, amount))
  {
    if id in s.accounts {
      var a := s.accounts[id];
      RequirementMeaning(a, a.avgEntry, imBps);
      RequirementNonNegative(a, a.avgEntry, imBps);
    }
  }

  /** At a price, profit counts too, clamped to an i64. */
  predicate MayPayAt(s: BridgeState, imBps: U32, id: AccountId, amount: U64, price: U64) {
    && id in s.accounts && amount <= I64_MAX
    && var a := s.accounts[id];
       KeepsMargin(a, SatI64((price - a.avgEntry) * a.positionSize), price, imBps, amount)
  }

  lemma WithdrawAtPrice(s: BridgeState, imBps: U32, id: AccountId, amount: U64, price: U64)
    requires EffectiveMark(s) == Some(price)
    ensures PaysOnly(s, id, amount, MayPayAt(s, imBps, id, amount, price), Withdraw(s, imBps, id, amount))
  {
    if id in s.accounts {
      RequirementMeaning(s.accounts[id], price, imBps);
    }
  }

  /** With an oracle price that price counts, whatever the book holds. */
  lemma WithdrawAtOracleExactly(s: BridgeState, imBps: U32, id: AccountId, amount: U64)
    requires s.oracleIndexPrice.Some?
    ensures PaysOnly(s, id, amount, MayPayAt(s, imBps, id, amount, s.oracleIndexPrice.value),
                     Withdraw(s, imBps, id, amount))
  {
    WithdrawAtPrice(s, imBps, id, amount, s.oracleIndexPrice.value);
  }

  /** With both sides of the book and no oracle price, the midpoint of the best prices
      counts, rounded down; their sum wraps in a u64. */
  lemma WithdrawAtMidpointExactly(s: BridgeState, imBps: U32, id: AccountId, amount: U64, price: U64)
    requires s.oracleIndexPrice.None? && s.book.bids != [] && s.book.asks != []
    requires 2 * price <= (s.book.bids[0].price + s.book.asks[0].price) % (U64_MAX + 1) <= 2 * price + 1
    ensures PaysOnly(s, id, amount, MayPayAt(s, imBps, id, amount, price), Withdraw(s, imBps, id, amount))
  {
    WithdrawAtPrice(s, imBps, id, amount, price);
  }

  // -------------------------------------------------------------- snapshots

  /** What survives the process: committed headers, head and accounts. Payloads in
      flight, unattached fills, the book and the oracle price do not. */
  datatype BridgeSnapshot = BridgeSnapshot(chain: map<Hash, Header>, head: Option<Hash>, accounts: seq<Account>)

  function SnapshotOf(s: BridgeState): BridgeSnapshot {
    BridgeSnapshot(s.chain.chain, s.chain.head, Values(s.accounts))
  }

  function Loaded(s: BridgeState, snap: BridgeSnapshot): BridgeState {
    s.(chain := s.chain.(chain := snap.chain, head := snap.head), accounts := Inserted(map[], snap.accounts))
  }

  // ------------------------------------------------------------------ runs

  datatype Op =
    | OpSubmit(order: Order)
    | OpDeposit(id: AccountId, amount: I64)
    | OpWithdraw(from: AccountId, debit: U64)
    | OpOracle(price: Option<U64>)
    | OpBuild(parent: Hash, timestamp: nat)
    | OpRegister(bytes: WireBytes)
    | OpCommit(hash: Hash)

  datatype Config = Config(spec: ChainSpec, imBps: U32)

  function Step(cfg: Config, s: BridgeState, op: Op): BridgeState {
    match op
    case OpSubmit(o) => SubmitOrder(s, o).0
    case OpDeposit(id, amount) => Deposit(s, id, amount)
    case OpWithdraw(id, amount) => Withdraw(s, cfg.imBps, id, amount).0
    case OpOracle(price) => s.(oracleIndexPrice := price)
    case OpBuild(parent, timestamp) => BuildPayload(cfg.spec, s, parent, timestamp).0
    case OpRegister(bytes) => RegisterProposedBlock(cfg.spec, s, bytes).0
    case OpCommit(hash) => CommitBlock(s, hash).0
  }

  /** An installed price is the one that counts for withdrawals, a cleared one is gone,
      and neither changes anything else. */
  lemma {:induction false} InstalledPriceCounts(
      cfg: Config, s: BridgeState, price: Option<U64>, id: AccountId, amount: U64)
    ensures var t := Step(cfg, s, OpOracle(price));
            && t.(oracleIndexPrice := s.oracleIndexPrice) == s
            && match price
               case Some(p) =>
                 PaysOnly(t, id, amount, MayPayAt(t, cfg.imBps, id, amount, p), Withdraw(t, cfg.imBps, id, amount))
               case None => t.oracleIndexPrice == None
  {
    var t := Step(cfg, s, OpOracle(price));
    if price.Some? {
      WithdrawAtOracleExactly(t, cfg.imBps, id, amount);
    }
  }

  /** What a run brought in and out, what averaging added, and every fill made. */
  datatype Audit = Audit(net: int, remainders: int, produced: seq<Fill>)

  const CLEAN := Audit(0, 0, [])

  function Record(cfg: Config, s: BridgeState, t: Audit, op: Op): Audit {
    match op
    case OpSubmit(o) =>
      var fills := Submit(s.book, o).1.fills;
      t.(remainders := t.remainders + Remainders(s.accounts, fills), produced := t.produced + fills)
    case OpDeposit(_, amount) => t.(net := t.net + amount)
    case OpWithdraw(id, amount) => if MayWithdraw(s, cfg.imBps, id, amount) then t.(net := t.net - amount) else t
    case _ => t
  }

  /** No account field clamps in this step. */
  predicate OpFits(s: BridgeState, op: Op) {
    match op
    case OpSubmit(o) => FillsFit(s.accounts, Submit(s.book, o).1.fills)
    case OpDeposit(id, amount) => FitsI64(Lookup(s.accounts, id).collateral + amount)
    case _ => true
  }

  /** The fills attached to payloads, in the order the payloads were made. */
  function Attached(c: ChainState, n: nat): seq<Fill> {
    if n == 0 then []
    else Attached(c, n - 1) + (if n - 1 in c.pending then c.pending[n - 1].fills else [])
  }

  /** Positions cancel, equity is what came in plus the averaging remainders, and
      each fill is attached to one payload or waiting, in order. */
  ghost predicate Balanced(s: BridgeState, t: Audit) {
    && Clob.Valid(s.book)
    && (forall mark: int :: LedgerMatches(s.accounts, t, mark))
    && FillsAttached(s, t)
  }

  ghost predicate FillsAttached(s: BridgeState, t: Audit) {
    && (forall id :: id in s.chain.pending ==> id < s.chain.nextPayloadId)
    && t.produced == Attached(s.chain, s.chain.nextPayloadId) + s.pendingFills
  }

  lemma {:induction false} AttachedSame(c: ChainState, d: ChainState, n: nat)
    requires forall id :: 0 <= id < n ==> (id in c.pending <==> id in d.pending)
    requires forall id :: 0 <= id < n && id in c.pending ==> c.pending[id] == d.pending[id]
    ensures Attached(c, n) == Attached(d, n)
  {
    if n > 0 {
      AttachedSame(c, d, n - 1);
    }
  }

  lemma InsertAttaches(c: ChainState, p: PendingPayload)
    ensures Attached(Insert(c, p), c.nextPayloadId + 1) == Attached(c, c.nextPayloadId) + p.fills
  {
    AttachedSame(c, Insert(c, p), c.nextPayloadId);
  }

  lemma BuildAttaches(cfg: Config, s: BridgeState, t: Audit, parent: Hash, timestamp: nat)
    requires FillsAttached(s, t)
    ensures FillsAttached(BuildPayload(cfg.spec, s, parent, timestamp).0, t)
  {
    match Build(cfg.spec, s.chain, parent, timestamp, s.pendingFills)
    case Ok((d, id)) => InsertAttaches(s.chain, d.pending[id]);
    case Err(_) =>
  }

  lemma RegisterAttaches(cfg: Config, s: BridgeState, t: Audit, bytes: WireBytes)
    requires FillsAttached(s, t)
    ensures FillsAttached(RegisterProposedBlock(cfg.spec, s, bytes).0, t)
  {
    if bytes.Json? {
      InsertAttaches(s.chain, PendingPayload(cfg.spec.hashOf(bytes.wire.header), bytes.wire.header, []));
    }
  }

  lemma CommitAttaches(s: BridgeState, t: Audit, hash: Hash)
    requires FillsAttached(s, t)
    ensures FillsAttached(CommitBlock(s, hash).0, t)
  {
    match Commit(s.chain, hash)
    case Ok(d) => AttachedSame(s.chain, d, s.chain.nextPayloadId);
    case Err(_) =>
  }

  lemma SubmitAttaches(cfg: Config, s: BridgeState, t: Audit, order: Order)
    requires FillsAttached(s, t)
    ensures FillsAttached(SubmitOrder(s, order).0, Record(cfg, s, t, OpSubmit(order)))
  {
    Regroup(Attached(s.chain, s.chain.nextPayloadId), s.pendingFills, Submit(s.book, order).1.fills);
  }

  lemma FillsStayAttached(cfg: Config, s: BridgeState, t: Audit, op: Op)
    requires FillsAttached(s, t)
    ensures FillsAttached(Step(cfg, s, op), Record(cfg, s, t, op))
  {
    match op
    case OpSubmit(order) => SubmitAttaches(cfg, s, t, order);
    case OpBuild(parent, timestamp) => BuildAttaches(cfg, s, t, parent, timestamp);
    case OpRegister(bytes) => RegisterAttaches(cfg, s, t, bytes);
    case OpCommit(hash) => CommitAttaches(s, t, hash);
    case _ =>
  }

  ghost predicate LedgerMatches(l: Ledger, t: Audit, mark: int) {
    OpenInterest(l) == 0 && TotalEquity(l, mark) == t.net + t.remainders
  }

  lemma DepositBalances(s: BridgeState, t: Audit, id: AccountId, amount: I64, mark: int)
    requires LedgerMatches(s.accounts, t, mark) && FitsI64(Lookup(s.accounts, id).collateral + amount)
    ensures LedgerMatches(Deposit(s, id, amount).accounts, t.(net := t.net + amount), mark)
  {
    BalanceTotals(s.accounts, id, Lookup(s.accounts, id).collateral + amount, mark);
  }

  lemma WithdrawBalances(cfg: Config, s: BridgeState, t: Audit, id: AccountId, amount: U64, mark: int)
    requires LedgerMatches(s.accounts, t, mark) && MayWithdraw(s, cfg.imBps, id, amount)
    ensures LedgerMatches(Withdraw(s, cfg.imBps, id, amount).0.accounts, t.(net := t.net - amount), mark)
  {
    var balance := Withdraw(s, cfg.imBps, id, amount).1.value;
    BalanceTotals(s.accounts, id, balance, mark);
    assert balance == s.accounts[id].collateral - amount;
  }

  lemma OthersLeaveAccounts(cfg: Config, s: BridgeState, op: Op)
    requires op.OpOracle? || op.OpBuild? || op.OpRegister? || op.OpCommit?
    ensures Step(cfg, s, op).accounts == s.accounts && Step(cfg, s, op).book == s.book
  {
  }

  lemma LedgerBalances(cfg: Config, s: BridgeState, t: Audit, op: Op, mark: int)
    requires LedgerMatches(s.accounts, t, mark) && OpFits(s, op)
    ensures LedgerMatches(Step(cfg, s, op).accounts, Record(cfg, s, t, op), mark)
  {
    match op
    case OpSubmit(o) => ApplyAllConserves(s.accounts, Submit(s.book, o).1.fills, mark);
    case OpDeposit(id, amount) => DepositBalances(s, t, id, amount, mark);
    case OpWithdraw(id, amount) =>
      if MayWithdraw(s, cfg.imBps, id, amount) {
        WithdrawBalances(cfg, s, t, id, amount, mark);
      }
    case _ => OthersLeaveAccounts(cfg, s, op);
  }

  lemma StepBalances(cfg: Config, s: BridgeState, t: Audit, op: Op)
    requires Balanced(s, t) && OpFits(s, op)
    ensures Balanced(Step(cfg, s, op), Record(cfg, s, t, op))
  {
    FillsStayAttached(cfg, s, t, op);
    if op.OpSubmit? {
      BookRuns.SubmitKeepsValid(s.book, op.order);
    }
    var s', t' := Step(cfg, s, op), Record(cfg, s, t, op);
    forall mark: int
      ensures LedgerMatches(s'.accounts, t', mark)
    {
      LedgerBalances(cfg, s, t, op, mark);
    }
  }

  function Run(cfg: Config, s: BridgeState, t: Audit, ops: seq<Op>): (BridgeState, Audit)
    decreases |ops|
  {
    if ops == [] then (s, t) else Run(cfg, Step(cfg, s, ops[0]), Record(cfg, s, t, ops[0]), ops[1..])
  }

  predicate RunFits(cfg: Config, s: BridgeState, ops: seq<Op>)
    decreases |ops|
  {
    ops == [] || (OpFits(s, ops[0]) && RunFits(cfg, Step(cfg, s, ops[0]), ops[1..]))
  }

  lemma {:induction false} RunBalances(cfg: Config, s: BridgeState, t: Audit, ops: seq<Op>)
    requires Balanced(s, t) && RunFits(cfg, s, ops)
    ensures var (s', t') := Run(cfg, s, t, ops); Balanced(s', t')
    decreases |ops|
  {
    if ops != [] {
      StepBalances(cfg, s, t, ops[0]);
      RunBalances(cfg, Step(cfg, s, ops[0]), Record(cfg, s, t, ops[0]), ops[1..]);
    }
  }

  /** Over any run from genesis in which no account field clamps, positions sum
      to zero, total equity at every mark is net deposits plus the averaging
      remainders, and no fill is lost, repeated or reordered. */
  lemma {:induction false} EveryRunConserves(cfg: Config, ops: seq<Op>, mark: int)
    requires RunFits(cfg, GENESIS, ops)
    ensures var (s, t) := Run(cfg, GENESIS, CLEAN, ops);
            && OpenInterest(s.accounts) == 0
            && TotalEquity(s.accounts, mark) == t.net + t.remainders
            && t.produced == Attached(s.chain, s.chain.nextPayloadId) + s.pendingFills
            && Clob.Valid(s.book)
  {
    RunBalances(cfg, GENESIS, CLEAN, ops);
    var (s, t) := Run(cfg, GENESIS, CLEAN, ops);
    assert LedgerMatches(s.accounts, t, mark);
  }

  /** How far averaging can move total equity in a step, and over a run. */
  lemma {:induction false} RunKeyed(cfg: Config, s: BridgeState, t: Audit, ops: seq<Op>)
    requires Keyed(s.accounts)
    ensures Keyed(Run(cfg, s, t, ops).0.accounts)
    decreases |ops|
  {
    if ops != [] {
      if ops[0].OpSubmit? {
        ApplyAllKeyed(s.accounts, Submit(s.book, ops[0].order).1.fills);
      }
      RunKeyed(cfg, Step(cfg, s, ops[0]), Record(cfg, s, t, ops[0]), ops[1..]);
    }
  }

  /** Loaded onto any bridge, a snapshot taken after any run brings its accounts,
      committed headers and head, and leaves alone what that bridge has in flight. */
  lemma {:induction false} LoadKeepsInFlight(cfg: Config, ops: seq<Op>, s: BridgeState, other: BridgeState)
    requires s == Run(cfg, GENESIS, CLEAN, ops).0
    ensures Loaded(other, SnapshotOf(s))
            == other.(accounts := s.accounts, chain := other.chain.(chain := s.chain.chain, head := s.chain.head))
  {
    RunKeyed(cfg, GENESIS, CLEAN, ops);
    InsertedValues(map[], s.accounts);
    assert map[] + s.accounts == s.accounts;
  }

  /** After any run, a fresh bridge that loads the snapshot has all the accounts,
      committed headers and the head of the one that saved it, nothing in flight,
      and saves the same snapshot again. */
  lemma {:induction false} SnapshotRestores(cfg: Config, ops: seq<Op>, s: BridgeState)
    requires s == Run(cfg, GENESIS, CLEAN, ops).0
    ensures var loaded := Loaded(GENESIS, SnapshotOf(s));
            && loaded == GENESIS.(accounts := s.accounts, chain := FRESH.(chain := s.chain.chain, head := s.chain.head))
            && SnapshotOf(loaded) == SnapshotOf(s)
  {
    LoadKeepsInFlight(cfg, ops, s, GENESIS);
  }

  function StepRoom(s: BridgeState, op: Op): nat {
    if op.OpSubmit? then Room(s.accounts, Submit(s.book, op.order).1.fills) else 0
  }

  function RunRoom(cfg: Config, s: BridgeState, ops: seq<Op>): nat
    decreases |ops|
  {
    if ops == [] then 0 else StepRoom(s, ops[0]) + RunRoom(cfg, Step(cfg, s, ops[0]), ops[1..])
  }

  lemma {:induction false} StepRemaindersBound(cfg: Config, s: BridgeState, t: Audit, op: Op)
    requires OpFits(s, op)
    ensures Abs(Record(cfg, s, t, op).remainders - t.remainders) <= StepRoom(s, op)
  {
    if op.OpSubmit? {
      RemaindersBound(s.accounts, Submit(s.book, op.order).1.fills);
    }
  }

  lemma {:induction false} RunRemaindersBound(cfg: Config, s: BridgeState, t: Audit, ops: seq<Op>, last: Audit)
    requires RunFits(cfg, s, ops) && last == Run(cfg, s, t, ops).1
    ensures Abs(last.remainders - t.remainders) <= RunRoom(cfg, s, ops)
    decreases |ops|
  {
    if ops != [] {
      StepRemaindersBound(cfg, s, t, ops[0]);
      RunRemaindersBound(cfg, Step(cfg, s, ops[0]), Record(cfg, s, t, ops[0]), ops[1..], last);
    }
  }

  /** So total equity at any mark stays that close to net deposits. */
  lemma {:induction false} EquityStaysNearDeposits(cfg: Config, ops: seq<Op>, s: BridgeState, t: Audit, mark: int)
    requires RunFits(cfg, GENESIS, ops) && (s, t) == Run(cfg, GENESIS, CLEAN, ops)
    ensures Abs(TotalEquity(s.accounts, mark) - t.net) <= RunRoom(cfg, GENESIS, ops)
  {
    assert TotalEquity(s.accounts, mark) == t.net + t.remainders by {
      EveryRunConserves(cfg, ops, mark);
    }
    assert Abs(t.remainders) <= RunRoom(cfg, GENESIS, ops) by {
      RunRemaindersBound(cfg, GENESIS, CLEAN, ops, t);
    }
  }
}
