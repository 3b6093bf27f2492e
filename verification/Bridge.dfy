/** The bridge as the source keeps it: one object owning the book, the accounts,
    the fill buffer and the chain state, updated in place. */
module Bridge {
  import opened Machine
  import opened OrderedMaps
  import opened Clob
  import opened Clearing
  import opened Accounts
  import opened Chain
  import opened BridgeRuns
  import OrderBook

  class LiveBridge {
    const cfg: Config
    const clob: OrderBook.Book
    var accounts: Ledger
    var pendingFills: seq<Fill>
    var oracleIndexPrice: Option<U64>
    var state: ChainState

    ghost predicate Valid() reads this, clob { clob.Valid() }

    ghost function State(): BridgeState reads this, clob {
      BridgeState(clob.Flat(), accounts, pendingFills, oracleIndexPrice, state)
    }

    constructor (cfg: Config)
      ensures Valid() && State() == GENESIS && this.cfg == cfg && fresh(clob)
    {
      this.cfg := cfg;
      clob := new OrderBook.Book();
      accounts, pendingFills, oracleIndexPrice, state := map[], [], None, FRESH;
    }

    method SubmitOrder(order: Order) returns (r: FillResult)
      requires Valid()
      modifies this, clob
      ensures Valid() && (State(), r) == BridgeRuns.SubmitOrder(old(State()), order)
    {
      r := clob.Submit(order);
      assert r.fills == [] ==> pendingFills + r.fills == pendingFills;
      if r.fills != [] {
        pendingFills := pendingFills + r.fills;
        ApplyFillsToAccounts(r.fills);
      }
    }

    /** Walk the fills, updating the maker's and then the taker's account. */
    method ApplyFillsToAccounts(fills: seq<Fill>)
      modifies this`accounts
      ensures accounts == ApplyAll(old(accounts), fills)
    {
      var i := 0;
      while i < |fills|
        invariant i <= |fills|
        invariant ApplyAll(accounts, fills[i..]) == ApplyAll(old(accounts), fills)
      {
        var fill := fills[i];
        assert fills[i..][0] == fill && fills[i..][1..] == fills[i + 1..];
        var (maker, makerRealized) := ApplyFill(Lookup(accounts, fill.makerAccount),
          fill.price, fill.qty, fill.makerSide);
        accounts := accounts[fill.makerAccount := Credit(maker, makerRealized)];
        var takerSide := fill.makerSide.Opposite();
        var (taker, takerRealized) := ApplyFill(Lookup(accounts, fill.takerAccount), fill.price, fill.qty, takerSide);
        accounts := accounts[fill.takerAccount := Credit(taker, takerRealized)];
        i := i + 1;
      }
    }

    method Deposit(id: AccountId, amount: I64) returns (balance: I64)
      modifies this`accounts
      ensures State() == BridgeRuns.Deposit(old(State()), id, amount)
      ensures id in accounts && balance == accounts[id].collateral
    {
      accounts := accounts[id := Credit(Lookup(accounts, id), amount)];
      balance := accounts[id].collateral;
    }

    method Withdraw(id: AccountId, amount: U64) returns (balance: Option<I64>)
      requires Valid()
      modifies this`accounts
      ensures (State(), balance) == BridgeRuns.Withdraw(old(State()), cfg.imBps, id, amount)
    {
      var mark := oracleIndexPrice;
      if mark.None? {
        var bid, ask := clob.BestBid(), clob.BestAsk();
        if bid.Some? && ask.Some? {
          mark := Some((bid.value + ask.value) % (U64_MAX + 1) / 2);
        }
      }
      if id !in accounts || amount > I64_MAX {
        return None;
      }
      var a := accounts[id];
      if amount > WithdrawFreeCollateral(a, mark, cfg.imBps) {
        return None;
      }
      WithdrawFits(a, mark, cfg.imBps, amount);
      accounts := accounts[id := a.(collateral := a.collateral - amount)];
      balance := Some(a.collateral - amount);
    }

    method SetOracleIndexPrice(price: U64)
      modifies this`oracleIndexPrice
      ensures State() == BridgeRuns.Step(cfg, old(State()), OpOracle(Some(price)))
    {
      oracleIndexPrice := Some(price);
    }

    method ClearOracleIndexPrice()
      modifies this`oracleIndexPrice
      ensures State() == BridgeRuns.Step(cfg, old(State()), OpOracle(None))
    {
      oracleIndexPrice := None;
    }

    method BuildPayload(parent: Hash, timestamp: nat) returns (r: Result<nat, BridgeError>)
      modifies this`state, this`pendingFills
      ensures (State(), r) == BridgeRuns.BuildPayload(cfg.spec, old(State()), parent, timestamp)
    {
      var parentHeader := ParentHeader(cfg.spec, state, parent);
      if parentHeader.None? {
        return Err(Rejected);
      }
      var id := state.nextPayloadId;
      var header := Child(cfg.spec, parent, parentHeader.value, timestamp);
      var drained := pendingFills;
      pendingFills := [];
      state := Insert(state, PendingPayload(cfg.spec.hashOf(header), header, drained));
      r := Ok(id);
    }

    method Snapshot() returns (snap: BridgeSnapshot)
      ensures snap == SnapshotOf(State())
    {
      snap := BridgeSnapshot(state.chain, state.head, Values(accounts));
    }

    /** Payloads in flight and the fill buffer are left alone. */
    method LoadSnapshot(snap: BridgeSnapshot)
      modifies this`state, this`accounts
      ensures State() == Loaded(old(State()), snap)
    {
      state := state.(chain := snap.chain, head := snap.head);
      accounts := map[];
      var i := 0;
      while i < |snap.accounts|
        invariant i <= |snap.accounts|
        invariant Inserted(accounts, snap.accounts[i..]) == Inserted(map[], snap.accounts)
        modifies this`accounts
      {
        var acct := snap.accounts[i];
        assert snap.accounts[i..][0] == acct && snap.accounts[i..][1..] == snap.accounts[i + 1..];
        accounts := accounts[acct.account := acct];
        i := i + 1;
      }
    }

    method PayloadReady(id: nat) returns (r: Result<ExecutedBlock, BridgeError>)
      ensures r == Ready(state, id)
    {
      if id !in state.pending {
        return Err(Rejected);
      }
      var p := state.pending[id];
      r := Ok(ExecutedBlock(p.hash, p.header.parentHash, p.header.number, p.header.timestamp));
    }

    method EncodeProposedBlock(id: nat) returns (r: Result<WireBytes, BridgeError>)
      ensures r == Encode(state, id)
    {
      if id !in state.pending {
        return Err(Rejected);
      }
      var p := state.pending[id];
      var block := ExecutedBlock(p.hash, p.header.parentHash, p.header.number, p.header.timestamp);
      r := Ok(Json(ProposedBlockWire(p.header, block)));
    }

    method RegisterProposedBlock(bytes: WireBytes) returns (r: Result<ExecutedBlock, BridgeError>)
      modifies this`state
      ensures (State(), r) == BridgeRuns.RegisterProposedBlock(cfg.spec, old(State()), bytes)
    {
      if bytes.Garbage? {
        return Err(Rejected);
      }
      var wire := bytes.wire;
      var computed := cfg.spec.hashOf(wire.header);
      if computed != wire.block.hash {
        return Err(Rejected);
      }
      state := Insert(state, PendingPayload(computed, wire.header, []));
      r := Ok(wire.block);
    }

    /** Search the pending payloads for one with the hash. */
    method FindPending(hash: Hash) returns (found: Option<PendingPayload>)
      ensures found.Some? <==> IdsOf(state, hash) != {}
      ensures found.Some? ==> found.value == state.pending[First(false, IdsOf(state, hash))]
    {
      var todo := state.pending.Keys;
      found := None;
      while todo != {} && found.None?
        invariant todo <= state.pending.Keys
        invariant found.None? ==> IdsOf(state, hash) <= todo
        invariant found.Some? ==>
          IdsOf(state, hash) != {} && found.value == state.pending[First(false, IdsOf(state, hash))]
        decreases |todo|
      {
        var id := First(false, todo);
        if state.pending[id].hash == hash {
          assert id in IdsOf(state, hash) && IsFirst(false, IdsOf(state, hash), id);
          found := Some(state.pending[id]);
        }
        todo := todo - {id};
      }
    }

    method CommitBlock(hash: Hash) returns (r: Result<(), BridgeError>)
      modifies this`state
      ensures (State(), r) == BridgeRuns.CommitBlock(old(State()), hash)
    {
      var found := FindPending(hash);
      if found.None? {
        return Err(Rejected);
      }
      state := state.(chain := state.chain[hash := found.value.header], head := Some(hash));
      r := Ok(());
    }
  }
}
