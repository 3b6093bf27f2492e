/** N honest validators, each running the engine application loop over its own
    bridge. The consensus engine is an assumption: it asks a validator for a
    value at the height that validator is working on, decides one offered value
    per height, and reports decisions to each validator in height order. Network
    messages are delivered in any order, any number of times or never, anybody
    may inject messages of their own making, and a validator may stop, save its
    bridge and start again at any time. */
module Network {
  import opened Machine
  import opened OrderedMaps
  import opened Chain
  import opened Signing
  import opened EngineApp
  import BridgeRuns
  import Validators

  datatype Net = Net(nodes: seq<Node>, decisions: seq<Header>)

  datatype NetStep =
    | AskValue(i: nat, round: Round)
    | Deliver(to: nat, from: nat, k: nat)
    | Inject(victim: nat, peer: PeerId, message: StreamMessage)
    | Decide(header: Header)
    | Report(j: nat)
    | StartRound(at: nat, height: U64)
    | Trade(trader: nat, op: BridgeRuns.Op)
    | Restart(r: nat)

  /** The height at which decision number k is taken. */
  function HeightOf(cfg: Setup, k: nat): nat { cfg.firstHeight + k }

  predicate IsRunning(net: Net, i: nat) { i < |net.nodes| && net.nodes[i].status == Running }

  /** Orders and cash movements reach a bridge between consensus messages. */
  predicate IsTrading(op: BridgeRuns.Op) {
    op.OpSubmit? || op.OpDeposit? || op.OpWithdraw? || op.OpOracle?
  }

  ghost predicate OfferedBy(n: Node, height: int, hash: Hash) {
    exists m :: 0 <= m < |n.offered| && n.offered[m].height == height && n.offered[m].hash == hash
  }

  ghost predicate WasOffered(net: Net, height: int, hash: Hash) {
    exists i :: 0 <= i < |net.nodes| && OfferedBy(net.nodes[i], height, hash)
  }

  ghost predicate Enabled(cfg: Setup, net: Net, step: NetStep) {
    match step
    case AskValue(i, _) => IsRunning(net, i) && HeightOf(cfg, |net.nodes[i].log|) <= U64_MAX
    case Deliver(to, from, k) => IsRunning(net, to) && from < |net.nodes| && k < |net.nodes[from].published|
    case Inject(victim, _, _) => IsRunning(net, victim)
    case Decide(header) =>
      && HeightOf(cfg, |net.decisions|) <= U64_MAX
      && WasOffered(net, HeightOf(cfg, |net.decisions|), cfg.spec.hashOf(header))
    case Report(j) =>
      && IsRunning(net, j) && |net.nodes[j].log| < |net.decisions|
      && HeightOf(cfg, |net.nodes[j].log|) <= U64_MAX
    case StartRound(at, _) => IsRunning(net, at)
    case Trade(trader, op) => trader < |net.nodes| && IsTrading(op)
    case Restart(r) => r < |net.nodes|
  }

  /** The message a step hands to a validator's loop. */
  ghost function MessageOf(cfg: Setup, net: Net, step: NetStep): AppMsg
    requires Enabled(cfg, net, step)
  {
    match step
    case AskValue(i, round) => GetValue(HeightOf(cfg, |net.nodes[i].log|), round)
    case Deliver(_, from, k) => ReceivedProposalPart(from, net.nodes[from].published[k])
    case Inject(_, peer, m) => ReceivedProposalPart(peer, m)
    case Report(j) =>
      var k := |net.nodes[j].log|;
      Decided(HeightOf(cfg, k), cfg.spec.hashOf(net.decisions[k]))
    case StartRound(_, height) => StartedRound(height)
    case _ => Other
  }

  function Target(step: NetStep): nat {
    match step
    case AskValue(i, _) => i
    case Deliver(to, _, _) => to
    case Inject(victim, _, _) => victim
    case Decide(_) => 0
    case Report(j) => j
    case StartRound(at, _) => at
    case Trade(trader, _) => trader
    case Restart(r) => r
  }

  function TradeAt(cfg: Setup, n: Node, op: BridgeRuns.Op): Node {
    n.(bridge := BridgeRuns.Step(BridgeRuns.Config(cfg.spec, cfg.imBps), n.bridge, op))
  }

  /** What a step other than a decision makes of the validator it is about. */
  ghost function NodeAfter(cfg: Setup, net: Net, step: NetStep): Node
    requires cfg.validators != [] && Enabled(cfg, net, step) && !step.Decide?
  {
    var n := net.nodes[Target(step)];
    match step
    case Trade(_, op) => TradeAt(cfg, n, op)
    case Restart(_) => Restarted(cfg, n)
    case _ => Handle(cfg, n, MessageOf(cfg, net, step))
  }

  ghost function Next(cfg: Setup, net: Net, step: NetStep): Net
    requires cfg.validators != []
  {
    if !Enabled(cfg, net, step) then net
    else if step.Decide? then net.(decisions := net.decisions + [step.header])
    else net.(nodes := net.nodes[Target(step) := NodeAfter(cfg, net, step)])
  }

  ghost function RunNet(cfg: Setup, net: Net, steps: seq<NetStep>): Net
    requires cfg.validators != []
    decreases |steps|
  {
    if steps == [] then net else RunNet(cfg, Next(cfg, net, steps[0]), steps[1..])
  }

  function Genesis(cfg: Setup, count: nat): Net {
    Net(seq(count, _ => Boot(cfg, BridgeRuns.GENESIS)), [])
  }

  // ------------------------------------------------------------- invariants

  /** The block that decision number k builds on. */
  function Before(cfg: Setup, ds: seq<Header>, k: nat): Header
    requires k <= |ds|
  {
    if k == 0 then cfg.spec.genesis else ds[k - 1]
  }

  /** The block after its parent: one higher, one second later, with the parent's gas
      limit and the base fee the chain specification prescribes for that time. */
  predicate Extends(spec: ChainSpec, parent: Header, h: Header) {
    && h.parentHash == spec.hashOf(parent) && h.number == parent.number + 1
    && h.timestamp == parent.timestamp + 1 && h.gasLimit == parent.gasLimit
    && h.baseFee == spec.nextBaseFee(parent, h.timestamp)
  }

  predicate LinksBack(cfg: Setup, ds: seq<Header>, k: nat)
    requires k < |ds|
  {
    Extends(cfg.spec, Before(cfg, ds, k), ds[k])
  }

  ghost predicate IsChain(cfg: Setup, ds: seq<Header>) { forall k :: 0 <= k < |ds| ==> LinksBack(cfg, ds, k) }

  function BlockOf(spec: ChainSpec, h: Header): ExecutedBlock {
    ExecutedBlock(spec.hashOf(h), h.parentHash, h.number, h.timestamp)
  }

  function WireOf(spec: ChainSpec, h: Header): WireBytes { Json(ProposedBlockWire(h, BlockOf(spec, h))) }

  /** Bytes an honest proposer sends: a header and the block view of that header. */
  predicate HonestBytes(spec: ChainSpec, bytes: WireBytes) {
    bytes.Json? && bytes == WireOf(spec, bytes.wire.header)
  }

  predicate HonestContent(spec: ChainSpec, c: StreamContent) { c.Data? ==> HonestBytes(spec, c.part.bytes) }

  ghost predicate HonestMail(spec: ChainSpec, published: seq<StreamMessage>) {
    forall m :: 0 <= m < |published| ==> HonestContent(spec, published[m].content)
  }

  /** Two messages were added to what a node sent: a Data part with the header's
      bytes, naming height, round and that round's proposer, and a Fin, both under the
      next stream id. */
  ghost predicate Published(cfg: Setup, before: Node, after: Node, height: U64, round: Round, header: Header)
    requires cfg.validators != []
  {
    var k := |before.published|;
    && |after.published| == k + 2 && after.published[..k] == before.published
    && var id := StreamIdBytes(height, round, before.nextStreamId);
       var proposer := Validators.SelectProposer(cfg.validators, height, round).address;
       && after.published[k]
          == StreamMessage(id, 0, Data(ProposalPart(height, round, Nil, proposer, WireOf(cfg.spec, header))))
       && after.published[k + 1] == StreamMessage(id, 1, Fin)
  }

  /** An offer stands for a header that extends the decision below its height. */
  ghost predicate ValidOffer(cfg: Setup, ds: seq<Header>, o: Offer) {
    && HeightOf(cfg, 0) <= o.height <= HeightOf(cfg, |ds|)
    && forall h: Header ::
         cfg.spec.hashOf(h) == o.hash ==> Extends(cfg.spec, Before(cfg, ds, o.height - HeightOf(cfg, 0)), h)
  }

  ghost predicate ValidOffers(cfg: Setup, ds: seq<Header>, offered: seq<Offer>) {
    forall m :: 0 <= m < |offered| ==> ValidOffer(cfg, ds, offered[m])
  }

  /** Log entry k is decision k, at its height. */
  predicate Logged(cfg: Setup, ds: seq<Header>, log: seq<Committed>, k: nat)
    requires k < |log| && k < |ds|
  {
    log[k].hash == cfg.spec.hashOf(ds[k]) && log[k].height == HeightOf(cfg, k)
  }

  /** A log holds a prefix of the decisions. */
  ghost predicate LogOk(cfg: Setup, ds: seq<Header>, log: seq<Committed>) {
    |log| <= |ds| && forall k :: 0 <= k < |log| ==> Logged(cfg, ds, log, k)
  }

  predicate HookStopped(n: Node) { n.status == Failed(HookFailed) }

  /** How many commits the loop got to record: a failing hook leaves one out. */
  function Recorded(n: Node): int { |n.log| - (if HookStopped(n) then 1 else 0) }

  /** What the loop decided since it was started ends the first k log entries. */
  predicate EndsLog(decided: seq<Hash>, log: seq<Committed>, k: int) {
    |decided| <= k <= |log| && forall j :: 0 <= j < |decided| ==> decided[j] == log[k - |decided| + j].hash
  }

  /** A node has committed a prefix of the decisions and builds on the last it
      recorded. */
  ghost predicate Follows(cfg: Setup, ds: seq<Header>, n: Node) {
    && LogOk(cfg, ds, n.log) && EndsLog(n.decided, n.log, Recorded(n))
    && n.currentParent == cfg.spec.hashOf(Before(cfg, ds, Recorded(n)))
  }

  ghost predicate InLog(log: seq<Committed>, hash: Hash) { exists k :: 0 <= k < |log| && log[k].hash == hash }

  /** The bridge's chain holds just the blocks handed out, the last one its head. */
  ghost predicate ChainIsLog(c: ChainState, log: seq<Committed>) {
    && |c.chain| == |log| && (forall h :: h in c.chain <==> InLog(log, h))
    && c.head == (if log == [] then None else Some(log[|log| - 1].hash))
  }

  /** Every hash with a recorded time is pending, and the hashes a node has vouched
      for since its start are those with a recorded time and some it handed out. */
  ghost predicate Vouched(c: ChainState, times: map<Hash, nat>, replied: set<Hash>, log: seq<Committed>) {
    && (forall h :: h in times ==> IdsOf(c, h) != {})
    && (forall h :: h in times ==> h in replied)
    && (forall h :: h in replied ==> h in times || InLog(log, h))
  }

  /** A node stops after its quota, at a hash it never vouched for, at its hook's
      error, or at bytes its bridge refuses. */
  predicate Orderly(cfg: Setup, n: Node) {
    && (n.status.Running? ==> |n.decided| < Max(cfg.stopAfter, 1))
    && (n.status.Done? ==> |n.decided| == Max(cfg.stopAfter, 1))
    && (n.status.Failed? ==> !n.status.error.ChannelClosed?)
  }

  ghost predicate NodeOk(cfg: Setup, ds: seq<Header>, n: Node) {
    && Sound(cfg.spec, n.bridge.chain) && ChainIsLog(n.bridge.chain, n.log)
    && Vouched(n.bridge.chain, n.blockTimes, n.replied, n.log)
    && HonestMail(cfg.spec, n.published) && ValidOffers(cfg, ds, n.offered)
    && Follows(cfg, ds, n) && Orderly(cfg, n)
  }

  ghost predicate HonestStreams(spec: ChainSpec, streams: map<StreamKey, InProgress>) {
    forall k :: k in streams && streams[k].data.Some? ==> HonestBytes(spec, streams[k].data.value.bytes)
  }

  /** What holds as well while every message is honest: buffered bytes are, and the
      bridge has refused nothing. */
  ghost predicate Unforged(cfg: Setup, n: Node) { HonestStreams(cfg.spec, n.streams) && !BridgeStopped(n) }

  predicate BridgeStopped(n: Node) { n.status.Failed? && n.status.error.BridgeFailed? }

  ghost predicate NodeGood(cfg: Setup, ds: seq<Header>, n: Node, honest: bool) {
    NodeOk(cfg, ds, n) && (honest ==> Unforged(cfg, n))
  }

  /** The network invariant, with or without forged messages. */
  ghost predicate NetOk(cfg: Setup, net: Net, honest: bool) {
    && IsChain(cfg, net.decisions)
    && forall i :: 0 <= i < |net.nodes| ==> NodeGood(cfg, net.decisions, net.nodes[i], honest)
  }

  // ----------------------------------------------------- a value is offered

  /** A running node's parent is known to its bridge: committed, or genesis. */
  lemma ParentKnown(cfg: Setup, ds: seq<Header>, n: Node)
    requires WellFormed(cfg) && NodeOk(cfg, ds, n) && !HookStopped(n)
    ensures ParentHeader(cfg.spec, n.bridge.chain, n.currentParent) == Some(Before(cfg, ds, |n.log|))
  {
    var c, k := n.bridge.chain, |n.log|;
    if k > 0 {
      assert Logged(cfg, ds, n.log, k - 1) && InLog(n.log, n.currentParent);
    }
    if n.currentParent in c.chain {
      assert cfg.spec.hashOf(c.chain[n.currentParent]) == n.currentParent;
    }
  }

  /** A bridge that keeps its chain and its payloads leaves a node in order. */
  lemma KeepingOk(cfg: Setup, ds: seq<Header>, n: Node, b: BridgeRuns.BridgeState, honest: bool)
    requires NodeGood(cfg, ds, n, honest) && Sound(cfg.spec, b.chain) && Keeps(n.bridge.chain, b.chain)
    ensures NodeGood(cfg, ds, n.(bridge := b), honest)
  {
    KeepsIds(n.bridge.chain, b.chain);
  }

  /** Offering a freshly built block. */
  lemma OfferingOk(cfg: Setup, ds: seq<Header>, n: Node, round: Round, header: Header, honest: bool)
    requires WellFormed(cfg) && NodeGood(cfg, ds, n, honest) && n.status == Running
    requires HeightOf(cfg, |n.log|) <= U64_MAX && Extends(cfg.spec, Before(cfg, ds, |n.log|), header)
    requires HasPending(cfg.spec, n.bridge.chain, header)
    ensures NodeGood(cfg, ds, Offering(n, HeightOf(cfg, |n.log|), round, BlockOf(cfg.spec, header)), honest)
  {
    var m := Offering(n, HeightOf(cfg, |n.log|), round, BlockOf(cfg.spec, header));
    assert Vouched(m.bridge.chain, m.blockTimes, m.replied, m.log) by {
      PendingIds(cfg.spec, n.bridge.chain, header);
    }
    assert ValidOffers(cfg, ds, m.offered) by {
      assert ValidOffer(cfg, ds, m.offered[|n.offered|]);
    }
  }

  /** Streaming honest bytes. */
  /** What is sent does not matter to a node, as long as it is honest. */
  lemma SendingOk(cfg: Setup, ds: seq<Header>, n: Node, mail: seq<StreamMessage>, nextId: U64, honest: bool)
    requires NodeGood(cfg, ds, n, honest) && HonestMail(cfg.spec, mail)
    ensures NodeGood(cfg, ds, n.(published := mail, nextStreamId := nextId), honest)
  {
  }

  lemma StreamingOk(cfg: Setup, ds: seq<Header>, n: Node, height: U64, round: Round, bytes: WireBytes, honest: bool)
    requires WellFormed(cfg) && NodeGood(cfg, ds, n, honest) && HonestBytes(cfg.spec, bytes)
    ensures NodeGood(cfg, ds, Streaming(cfg, n, height, round, bytes), honest)
  {
    var m := Streaming(cfg, n, height, round, bytes);
    assert HonestMail(cfg.spec, m.published) by {
      StreamingSends(cfg, n, height, round, bytes);
    }
    SendingOk(cfg, ds, n, m.published, m.nextStreamId, honest);
    assert m == n.(published := m.published, nextStreamId := m.nextStreamId);
  }

  lemma StreamingSends(cfg: Setup, n: Node, height: U64, round: Round, bytes: WireBytes)
    requires cfg.validators != [] && HonestMail(cfg.spec, n.published) && HonestBytes(cfg.spec, bytes)
    ensures HonestMail(cfg.spec, Streaming(cfg, n, height, round, bytes).published)
  {
  }

  /** Offering and streaming a block that was built. */
  lemma BuiltOk(cfg: Setup, ds: seq<Header>, n: Node, round: Round, id: nat, honest: bool)
    requires WellFormed(cfg) && NodeGood(cfg, ds, n, honest) && n.status == Running
    requires HeightOf(cfg, |n.log|) <= U64_MAX && id in n.bridge.chain.pending
    requires Extends(cfg.spec, Before(cfg, ds, |n.log|), n.bridge.chain.pending[id].header)
    ensures var m := OnBuilt(cfg, n, HeightOf(cfg, |n.log|), round, id);
            var header := n.bridge.chain.pending[id].header;
            && NodeGood(cfg, ds, m, honest)
            && m == Streaming(cfg, Offering(n, HeightOf(cfg, |n.log|), round, BlockOf(cfg.spec, header)),
                              HeightOf(cfg, |n.log|), round, WireOf(cfg.spec, header))
  {
    var height, header := HeightOf(cfg, |n.log|), n.bridge.chain.pending[id].header;
    var o := Offering(n, height, round, BlockOf(cfg.spec, header));
    OfferingOk(cfg, ds, n, round, header, honest);
    StreamingOk(cfg, ds, o, height, round, WireOf(cfg.spec, header), honest);
  }

  /** The block a running node builds when it is asked for a value. */
  function NextBlock(cfg: Setup, ds: seq<Header>, n: Node): Header
    requires |n.log| <= |ds|
  {
    Child(cfg.spec, n.currentParent, Before(cfg, ds, |n.log|), DEFAULT_TIMESTAMP)
  }

  /** A running node that is asked for a value builds, offers and streams the next
      block on its own chain; it is never refused. */
  lemma GetValueOk(cfg: Setup, ds: seq<Header>, n: Node, round: Round, honest: bool)
    requires WellFormed(cfg) && NodeGood(cfg, ds, n, honest) && n.status == Running
    requires HeightOf(cfg, |n.log|) <= U64_MAX
    ensures var m := OnGetValue(cfg, n, HeightOf(cfg, |n.log|), round);
            var header := NextBlock(cfg, ds, n);
            && NodeGood(cfg, ds, m, honest) && m.status == Running
            && m.blockTimes == n.blockTimes[cfg.spec.hashOf(header) := header.timestamp] && m.log == n.log
            && m.replied == n.replied + {cfg.spec.hashOf(header)} && m.streams == n.streams
            && m.offered == n.offered + [Offer(HeightOf(cfg, |n.log|), round, cfg.spec.hashOf(header))]
            && Published(cfg, n, m, HeightOf(cfg, |n.log|), round, header)
  {
    ParentKnown(cfg, ds, n);
    BuildSound(cfg.spec, n.bridge.chain, n.currentParent, DEFAULT_TIMESTAMP, n.bridge.pendingFills);
    var (b, built) := BridgeRuns.BuildPayload(cfg.spec, n.bridge, n.currentParent, DEFAULT_TIMESTAMP);
    KeepingOk(cfg, ds, n, b, honest);
    BuiltOk(cfg, ds, n.(bridge := b), round, built.value, honest);
    assert OnGetValue(cfg, n, HeightOf(cfg, |n.log|), round).published[..|n.published|] == n.published;
  }

  // ---------------------------------------------------- a part is delivered

  /** Registering acceptable bytes records the time beside the header, true or not. */
  lemma RegisteringOk(cfg: Setup, ds: seq<Header>, n: Node, bytes: WireBytes, honest: bool)
    requires WellFormed(cfg) && NodeGood(cfg, ds, n, honest) && n.status == Running
    requires Acceptable(cfg.spec, bytes) && (honest ==> HonestBytes(cfg.spec, bytes))
    ensures var m := Registering(cfg, n, bytes);
            && NodeGood(cfg, ds, m, honest) && m.status == Running
            && m.replied == n.replied + {bytes.wire.block.hash} && m.log == n.log
            && m.blockTimes == n.blockTimes[bytes.wire.block.hash := bytes.wire.block.timestamp]
            && HasPending(cfg.spec, m.bridge.chain, bytes.wire.header)
  {
    var wire := bytes.wire;
    RegisterSound(cfg.spec, n.bridge.chain, bytes);
    PendingIds(cfg.spec, Register(cfg.spec, n.bridge.chain, bytes).value.0, wire.header);
    var b := BridgeRuns.RegisterProposedBlock(cfg.spec, n.bridge, bytes).0;
    KeepingOk(cfg, ds, n, b, honest);
  }

  lemma StoppingOk(cfg: Setup, ds: seq<Header>, n: Node, e: EngineError, honest: bool)
    requires NodeGood(cfg, ds, n, honest) && n.status == Running && e != HookFailed && !e.ChannelClosed?
    requires honest ==> !e.BridgeFailed?
    ensures NodeGood(cfg, ds, Fail(n, e), honest)
  {
  }

  lemma BufferingOk(cfg: Setup, ds: seq<Header>, n: Node, streams: map<StreamKey, InProgress>, honest: bool)
    requires NodeGood(cfg, ds, n, honest)
    requires forall k :: k in streams && streams[k].data.Some? ==>
      (k in n.streams && streams[k] == n.streams[k]) || (honest ==> HonestBytes(cfg.spec, streams[k].data.value.bytes))
    ensures NodeGood(cfg, ds, n.(streams := streams), honest)
  {
  }

  /** The part completes its stream. */
  predicate Completes(n: Node, from: PeerId, m: StreamMessage) {
    var entry := Buffered(BufferAt(n, StreamKey(from, m.id)), m.content);
    entry.data.Some? && entry.finSeen
  }

  lemma CompletingOk(cfg: Setup, ds: seq<Header>, n: Node, from: PeerId, m: StreamMessage, honest: bool)
    requires WellFormed(cfg) && NodeGood(cfg, ds, n, honest) && n.status == Running && Completes(n, from, m)
    requires honest ==> HonestContent(cfg.spec, m.content)
    ensures var bytes := Buffered(BufferAt(n, StreamKey(from, m.id)), m.content).data.value.bytes;
            && NodeGood(cfg, ds, OnPart(cfg, n, from, m), honest)
            && OnPart(cfg, n, from, m).status
               == if Acceptable(cfg.spec, bytes) then Running else Failed(BridgeFailed(Rejected))
  {
    var key := StreamKey(from, m.id);
    var n' := n.(streams := n.streams - {key});
    var bytes := Buffered(BufferAt(n, key), m.content).data.value.bytes;
    assert honest ==> HonestBytes(cfg.spec, bytes);
    BufferingOk(cfg, ds, n, n.streams - {key}, honest);
    if Acceptable(cfg.spec, bytes) {
      RegisteringOk(cfg, ds, n', bytes, honest);
    } else {
      StoppingOk(cfg, ds, n', BridgeFailed(Rejected), honest);
    }
  }

  /** A part, honest or forged, keeps a node in order. It stops the node exactly
      when it completes a stream whose bytes are not acceptable. */
  lemma PartOk(cfg: Setup, ds: seq<Header>, n: Node, from: PeerId, m: StreamMessage, honest: bool)
    requires WellFormed(cfg) && NodeGood(cfg, ds, n, honest) && n.status == Running
    requires honest ==> HonestContent(cfg.spec, m.content)
    ensures NodeGood(cfg, ds, OnPart(cfg, n, from, m), honest)
    ensures var entry := Buffered(BufferAt(n, StreamKey(from, m.id)), m.content);
            OnPart(cfg, n, from, m).status
            == if Completes(n, from, m) && !Acceptable(cfg.spec, entry.data.value.bytes)
               then Failed(BridgeFailed(Rejected)) else Running
  {
    if Completes(n, from, m) {
      CompletingOk(cfg, ds, n, from, m, honest);
    } else {
      var key := StreamKey(from, m.id);
      BufferingOk(cfg, ds, n, n.streams[key := Buffered(BufferAt(n, key), m.content)], honest);
    }
  }

  // --------------------------------------------------- a decision is reported

  /** Decisions have growing numbers, so no hash is decided twice. */
  lemma {:induction false} NumbersGrow(cfg: Setup, ds: seq<Header>, k: nat)
    requires IsChain(cfg, ds) && k <= |ds|
    ensures Before(cfg, ds, k).number == cfg.spec.genesis.number + k
  {
    if k > 0 {
      NumbersGrow(cfg, ds, k - 1);
      assert LinksBack(cfg, ds, k - 1);
    }
  }

  lemma DecisionsDiffer(cfg: Setup, ds: seq<Header>, j: nat, k: nat)
    requires WellFormed(cfg) && IsChain(cfg, ds) && j < k < |ds|
    ensures cfg.spec.hashOf(ds[j]) != cfg.spec.hashOf(ds[k])
  {
    NumbersGrow(cfg, ds, j + 1);
    NumbersGrow(cfg, ds, k + 1);
    assert ds[j] != ds[k];
  }

  lemma NotLoggedBefore(cfg: Setup, ds: seq<Header>, log: seq<Committed>)
    requires WellFormed(cfg) && IsChain(cfg, ds) && LogOk(cfg, ds, log) && |log| < |ds|
    ensures !InLog(log, cfg.spec.hashOf(ds[|log|]))
  {
    forall j | 0 <= j < |log|
      ensures log[j].hash != cfg.spec.hashOf(ds[|log|])
    {
      assert Logged(cfg, ds, log, j);
      DecisionsDiffer(cfg, ds, j, |log|);
    }
  }

  lemma InLogOneMore(log: seq<Committed>, entry: Committed)
    ensures forall h :: InLog(log + [entry], h) <==> InLog(log, h) || h == entry.hash
  {
    var more := log + [entry];
    assert more[|log|] == entry;
    forall h | InLog(log, h)
      ensures InLog(more, h)
    {
      var k :| 0 <= k < |log| && log[k].hash == h;
      assert more[k].hash == h;
    }
  }

  lemma LogOneMore(cfg: Setup, ds: seq<Header>, log: seq<Committed>, entry: Committed)
    requires LogOk(cfg, ds, log) && |log| < |ds|
    requires entry.hash == cfg.spec.hashOf(ds[|log|]) && entry.height == HeightOf(cfg, |log|)
    ensures LogOk(cfg, ds, log + [entry])
  {
    forall k | 0 <= k < |log + [entry]|
      ensures Logged(cfg, ds, log + [entry], k)
    {
      assert k < |log| ==> Logged(cfg, ds, log, k);
    }
  }

  lemma FollowsOneMore(cfg: Setup, ds: seq<Header>, n: Node, r: Node, entry: Committed)
    requires Follows(cfg, ds, n) && !HookStopped(n) && |n.log| < |ds| && r.log == n.log + [entry]
    requires entry.hash == cfg.spec.hashOf(ds[|n.log|]) && entry.height == HeightOf(cfg, |n.log|)
    requires if HookStopped(r) then r.decided == n.decided && r.currentParent == n.currentParent
             else r.decided == n.decided + [entry.hash] && r.currentParent == entry.hash
    ensures Follows(cfg, ds, r)
  {
    LogOneMore(cfg, ds, n.log, entry);
  }

  lemma ChainOneMore(c: ChainState, log: seq<Committed>, entry: Committed, header: Header)
    requires ChainIsLog(c, log) && !InLog(log, entry.hash)
    ensures ChainIsLog(c.(chain := c.chain[entry.hash := header], head := Some(entry.hash)), log + [entry])
  {
    assert c.chain[entry.hash := header].Keys == c.chain.Keys + {entry.hash};
    InLogOneMore(log, entry);
  }

  lemma VouchedWithout(c: ChainState, d: ChainState, times: map<Hash, nat>, replied: set<Hash>,
                       log: seq<Committed>, entry: Committed)
    requires Vouched(c, times, replied, log) && d.pending == c.pending
    ensures Vouched(d, times - {entry.hash}, replied, log + [entry])
  {
    InLogOneMore(log, entry);
    assert forall h :: IdsOf(d, h) == IdsOf(c, h);
  }

  /** What a commit and its hook leave behind. */
  lemma CommittedOk(cfg: Setup, ds: seq<Header>, n: Node, r: Node, entry: Committed, honest: bool)
    requires WellFormed(cfg) && IsChain(cfg, ds) && NodeGood(cfg, ds, n, honest) && n.status == Running
    requires |n.log| < |ds| && entry.hash == cfg.spec.hashOf(ds[|n.log|]) && entry.height == HeightOf(cfg, |n.log|)
    requires Sound(cfg.spec, r.bridge.chain) && Orderly(cfg, r) && !BridgeStopped(r)
    requires r.bridge.chain
             == n.bridge.chain.(chain := n.bridge.chain.chain[entry.hash := ds[|n.log|]], head := Some(entry.hash))
    requires r.log == n.log + [entry] && r.blockTimes == n.blockTimes - {entry.hash} && r.replied == n.replied
    requires r.published == n.published && r.offered == n.offered && r.streams == n.streams
    requires if HookStopped(r) then r.decided == n.decided && r.currentParent == n.currentParent
             else r.decided == n.decided + [entry.hash] && r.currentParent == entry.hash
    ensures NodeGood(cfg, ds, r, honest)
  {
    assert Follows(cfg, ds, r) by {
      FollowsOneMore(cfg, ds, n, r, entry);
    }
    assert ChainIsLog(r.bridge.chain, r.log) by {
      NotLoggedBefore(cfg, ds, n.log);
      ChainOneMore(n.bridge.chain, n.log, entry, ds[|n.log|]);
    }
    assert Vouched(r.bridge.chain, r.blockTimes, r.replied, r.log) by {
      VouchedWithout(n.bridge.chain, r.bridge.chain, n.blockTimes, n.replied, n.log, entry);
    }
  }

  lemma CommittingEffect(cfg: Setup, n: Node, height: U64, hash: Hash, time: nat)
    requires n.status == Running && |n.decided| < Max(cfg.stopAfter, 1)
    ensures var r := Committing(cfg, n, height, hash, time);
            && r.bridge == n.bridge && r.blockTimes == n.blockTimes && r.replied == n.replied
            && r.published == n.published && r.offered == n.offered && r.streams == n.streams
            && r.log == n.log + [Committed(hash, height, time)] && Orderly(cfg, r) && !BridgeStopped(r)
            && (if HookStopped(r) then r.decided == n.decided && r.currentParent == n.currentParent
                else r.decided == n.decided + [hash] && r.currentParent == hash)
  {
  }

  lemma CommittingOk(cfg: Setup, ds: seq<Header>, n: Node, b: BridgeRuns.BridgeState, time: nat, honest: bool)
    requires WellFormed(cfg) && IsChain(cfg, ds) && NodeGood(cfg, ds, n, honest) && n.status == Running
    requires |n.log| < |ds| && HeightOf(cfg, |n.log|) <= U64_MAX
    requires var hash := cfg.spec.hashOf(ds[|n.log|]);
             && b.chain == n.bridge.chain.(chain := n.bridge.chain.chain[hash := ds[|n.log|]], head := Some(hash))
             && Sound(cfg.spec, b.chain)
    ensures var k := |n.log|;
            var hash := cfg.spec.hashOf(ds[k]);
            var m := n.(bridge := b, blockTimes := n.blockTimes - {hash});
            NodeGood(cfg, ds, Committing(cfg, m, HeightOf(cfg, k), hash, time), honest)
  {
    var k := |n.log|;
    var hash := cfg.spec.hashOf(ds[k]);
    var m := n.(bridge := b, blockTimes := n.blockTimes - {hash});
    var r := Committing(cfg, m, HeightOf(cfg, k), hash, time);
    var entry := Committed(hash, HeightOf(cfg, k), time);
    CommittingEffect(cfg, m, HeightOf(cfg, k), hash, time);
    CommittedOk(cfg, ds, n, r, entry, honest);
  }

  /** What a report does: it hands the block and the recorded time to the hook, or
      stops for want of a time, which is for want of having vouched for the hash. */
  lemma DecidedEffect(cfg: Setup, ds: seq<Header>, n: Node)
    requires WellFormed(cfg) && IsChain(cfg, ds) && NodeOk(cfg, ds, n) && n.status == Running
    requires |n.log| < |ds| && HeightOf(cfg, |n.log|) <= U64_MAX
    ensures var k := |n.log|;
            var hash := cfg.spec.hashOf(ds[k]);
            var m := OnDecided(cfg, n, HeightOf(cfg, k), hash);
            && (hash in n.replied <==> hash in n.blockTimes)
            && (if hash in n.blockTimes
                then var entry := Committed(hash, HeightOf(cfg, k), n.blockTimes[hash]);
                     && m.log == n.log + [entry] && m.blockTimes == n.blockTimes - {hash}
                     && (if cfg.hook(n.log, entry) then !m.status.Failed? else HookStopped(m))
                else m == Fail(n, NoTimestamp(hash)))
  {
    var hash := cfg.spec.hashOf(ds[|n.log|]);
    NotLoggedBefore(cfg, ds, n.log);
    if hash in n.blockTimes {
      PendingHeader(cfg.spec, n.bridge.chain, ds[|n.log|]);
      CommitFinds(cfg.spec, n.bridge.chain, ds[|n.log|]);
    }
  }

  /** A report is never refused by the bridge: it commits, or meets a hash the node
      neither offered nor completed. */
  lemma DecidedOk(cfg: Setup, ds: seq<Header>, n: Node, honest: bool)
    requires WellFormed(cfg) && IsChain(cfg, ds) && NodeGood(cfg, ds, n, honest) && n.status == Running
    requires |n.log| < |ds| && HeightOf(cfg, |n.log|) <= U64_MAX
    ensures var m := OnDecided(cfg, n, HeightOf(cfg, |n.log|), cfg.spec.hashOf(ds[|n.log|]));
            NodeGood(cfg, ds, m, honest) && !BridgeStopped(m)
  {
    var hash := cfg.spec.hashOf(ds[|n.log|]);
    if hash in n.blockTimes {
      var c := n.bridge.chain.(chain := n.bridge.chain.chain[hash := ds[|n.log|]], head := Some(hash));
      assert Commit(n.bridge.chain, hash) == Ok(c) && Sound(cfg.spec, c) by {
        PendingHeader(cfg.spec, n.bridge.chain, ds[|n.log|]);
        CommitFinds(cfg.spec, n.bridge.chain, ds[|n.log|]);
      }
      CommittingOk(cfg, ds, n, n.bridge.(chain := c), n.blockTimes[hash], honest);
    } else {
      StoppingOk(cfg, ds, n, NoTimestamp(hash), honest);
    }
  }

  // ------------------------------------------------------------ a restart

  /** A restarted node builds on the last block it committed, at the next height:
      its chain has one block for each commit, also where the hook had failed. */
  lemma ResumesAfterLog(cfg: Setup, n: Node)
    requires ChainIsLog(n.bridge.chain, n.log)
    ensures var m := Restarted(cfg, n);
            && m.status == Running && m.log == n.log && m.bridge.chain.chain == n.bridge.chain.chain
            && m.currentParent
               == (if n.log == [] then cfg.spec.hashOf(cfg.spec.genesis) else n.log[|n.log| - 1].hash)
            && m.currentHeight == SatU64(HeightOf(cfg, |n.log|))
  {
  }

  /** What a fresh process on the saved chain needs to be in order. */
  lemma FreshOk(cfg: Setup, ds: seq<Header>, n: Node, r: Node, honest: bool)
    requires NodeGood(cfg, ds, n, honest) && r.status == Running && r.decided == []
    requires r.log == n.log && r.offered == n.offered && r.published == n.published
    requires r.blockTimes == map[] && r.replied == {} && r.streams == map[]
    requires r.bridge.chain == FRESH.(chain := n.bridge.chain.chain, head := n.bridge.chain.head)
    requires r.currentParent == ResumeParent(cfg.spec, n.bridge.chain)
    ensures NodeGood(cfg, ds, r, honest)
  {
    assert Follows(cfg, ds, r) by {
      assert n.log != [] ==> Logged(cfg, ds, n.log, |n.log| - 1);
    }
  }

  lemma RestartOk(cfg: Setup, ds: seq<Header>, n: Node, honest: bool)
    requires NodeGood(cfg, ds, n, honest)
    ensures NodeGood(cfg, ds, Restarted(cfg, n), honest)
  {
    FreshOk(cfg, ds, n, Restarted(cfg, n), honest);
  }

  // ------------------------------------------------------------- every step

  /** A new decision changes nothing for what was already built on the old ones. */
  lemma NodeOkMonotone(cfg: Setup, ds: seq<Header>, d: Header, n: Node)
    requires NodeOk(cfg, ds, n)
    ensures NodeOk(cfg, ds + [d], n)
  {
    forall m | 0 <= m < |n.offered|
      ensures ValidOffer(cfg, ds + [d], n.offered[m])
    {
      assert ValidOffer(cfg, ds, n.offered[m]);
    }
    forall k | 0 <= k < |n.log|
      ensures Logged(cfg, ds + [d], n.log, k)
    {
      assert Logged(cfg, ds, n.log, k);
    }
  }

  lemma ChainGrows(cfg: Setup, ds: seq<Header>, d: Header)
    requires IsChain(cfg, ds) && Extends(cfg.spec, Before(cfg, ds, |ds|), d)
    ensures IsChain(cfg, ds + [d])
  {
    forall k | 0 <= k < |ds + [d]|
      ensures LinksBack(cfg, ds + [d], k)
    {
      assert k < |ds| ==> LinksBack(cfg, ds, k);
    }
  }

  lemma OfferExtends(cfg: Setup, ds: seq<Header>, n: Node, header: Header)
    requires ValidOffers(cfg, ds, n.offered) && OfferedBy(n, HeightOf(cfg, |ds|), cfg.spec.hashOf(header))
    ensures Extends(cfg.spec, Before(cfg, ds, |ds|), header)
  {
    var m :| 0 <= m < |n.offered| && n.offered[m].height == HeightOf(cfg, |ds|)
             && n.offered[m].hash == cfg.spec.hashOf(header);
    assert ValidOffer(cfg, ds, n.offered[m]);
  }

  lemma OfferedExtends(cfg: Setup, net: Net, header: Header, honest: bool)
    requires NetOk(cfg, net, honest) && WasOffered(net, HeightOf(cfg, |net.decisions|), cfg.spec.hashOf(header))
    ensures Extends(cfg.spec, Before(cfg, net.decisions, |net.decisions|), header)
  {
    var height := HeightOf(cfg, |net.decisions|);
    var i :| 0 <= i < |net.nodes| && OfferedBy(net.nodes[i], height, cfg.spec.hashOf(header));
    assert NodeGood(cfg, net.decisions, net.nodes[i], honest);
    OfferExtends(cfg, net.decisions, net.nodes[i], header);
  }

  lemma DecideOk(cfg: Setup, net: Net, header: Header, honest: bool)
    requires NetOk(cfg, net, honest) && WasOffered(net, HeightOf(cfg, |net.decisions|), cfg.spec.hashOf(header))
    ensures NetOk(cfg, net.(decisions := net.decisions + [header]), honest)
  {
    OfferedExtends(cfg, net, header, honest);
    ChainGrows(cfg, net.decisions, header);
    forall j | 0 <= j < |net.nodes|
      ensures NodeGood(cfg, net.decisions + [header], net.nodes[j], honest)
    {
      assert NodeGood(cfg, net.decisions, net.nodes[j], honest);
      NodeOkMonotone(cfg, net.decisions, header, net.nodes[j]);
    }
  }

  /** Trading changes no chain state. */
  lemma TradeOk(cfg: Setup, ds: seq<Header>, n: Node, op: BridgeRuns.Op, honest: bool)
    requires NodeGood(cfg, ds, n, honest) && IsTrading(op)
    ensures NodeGood(cfg, ds, TradeAt(cfg, n, op), honest)
  {
    assert TradeAt(cfg, n, op).bridge.chain == n.bridge.chain;
  }

  lemma StartRoundOk(cfg: Setup, ds: seq<Header>, n: Node, height: U64, honest: bool)
    requires NodeGood(cfg, ds, n, honest)
    ensures NodeGood(cfg, ds, n.(currentHeight := height), honest)
  {
  }

  /** Nothing forged is injected in this step. */
  predicate HonestStep(cfg: Setup, step: NetStep) { step.Inject? ==> HonestContent(cfg.spec, step.message.content) }

  ghost predicate AllHonest(cfg: Setup, steps: seq<NetStep>) {
    forall k :: 0 <= k < |steps| ==> HonestStep(cfg, steps[k])
  }

  lemma AskOk(cfg: Setup, net: Net, i: nat, round: Round, honest: bool)
    requires WellFormed(cfg) && NetOk(cfg, net, honest) && Enabled(cfg, net, AskValue(i, round))
    ensures NodeGood(cfg, net.decisions, NodeAfter(cfg, net, AskValue(i, round)), honest)
  {
    assert NodeGood(cfg, net.decisions, net.nodes[i], honest);
    GetValueOk(cfg, net.decisions, net.nodes[i], round, honest);
  }

  lemma DeliverOk(cfg: Setup, net: Net, to: nat, from: nat, k: nat, honest: bool)
    requires WellFormed(cfg) && NetOk(cfg, net, honest) && Enabled(cfg, net, Deliver(to, from, k))
    ensures NodeGood(cfg, net.decisions, NodeAfter(cfg, net, Deliver(to, from, k)), honest)
  {
    assert NodeGood(cfg, net.decisions, net.nodes[to], honest);
    assert HonestMail(cfg.spec, net.nodes[from].published) by {
      assert NodeGood(cfg, net.decisions, net.nodes[from], honest);
    }
    PartOk(cfg, net.decisions, net.nodes[to], from, net.nodes[from].published[k], honest);
  }

  lemma InjectOk(cfg: Setup, net: Net, victim: nat, peer: PeerId, m: StreamMessage, honest: bool)
    requires WellFormed(cfg) && NetOk(cfg, net, honest) && Enabled(cfg, net, Inject(victim, peer, m))
    requires honest ==> HonestContent(cfg.spec, m.content)
    ensures NodeGood(cfg, net.decisions, NodeAfter(cfg, net, Inject(victim, peer, m)), honest)
  {
    assert NodeGood(cfg, net.decisions, net.nodes[victim], honest);
    PartOk(cfg, net.decisions, net.nodes[victim], peer, m, honest);
  }

  lemma ReportOk(cfg: Setup, net: Net, j: nat, honest: bool)
    requires WellFormed(cfg) && NetOk(cfg, net, honest) && Enabled(cfg, net, Report(j))
    ensures NodeGood(cfg, net.decisions, NodeAfter(cfg, net, Report(j)), honest)
  {
    assert NodeGood(cfg, net.decisions, net.nodes[j], honest);
    DecidedOk(cfg, net.decisions, net.nodes[j], honest);
  }

  /** The steps that bring no consensus message. */
  lemma LocalOk(cfg: Setup, net: Net, step: NetStep, honest: bool)
    requires WellFormed(cfg) && NetOk(cfg, net, honest) && Enabled(cfg, net, step)
    requires step.StartRound? || step.Trade? || step.Restart?
    ensures NodeGood(cfg, net.decisions, NodeAfter(cfg, net, step), honest)
  {
    var ds, n := net.decisions, net.nodes[Target(step)];
    assert NodeGood(cfg, ds, n, honest);
    match step
    case StartRound(_, height) => StartRoundOk(cfg, ds, n, height, honest);
    case Trade(_, op) => TradeOk(cfg, ds, n, op, honest);
    case Restart(_) => RestartOk(cfg, ds, n, honest);
  }

  lemma NodeAfterOk(cfg: Setup, net: Net, step: NetStep, honest: bool)
    requires WellFormed(cfg) && NetOk(cfg, net, honest) && Enabled(cfg, net, step) && !step.Decide?
    requires honest ==> HonestStep(cfg, step)
    ensures NodeGood(cfg, net.decisions, NodeAfter(cfg, net, step), honest)
  {
    match step
    case AskValue(i, round) => AskOk(cfg, net, i, round, honest);
    case Deliver(to, from, k) => DeliverOk(cfg, net, to, from, k, honest);
    case Inject(victim, peer, m) => InjectOk(cfg, net, victim, peer, m, honest);
    case Report(j) => ReportOk(cfg, net, j, honest);
    case _ => LocalOk(cfg, net, step, honest);
  }

  lemma NextSplits(cfg: Setup, net: Net, step: NetStep)
    requires cfg.validators != [] && Enabled(cfg, net, step) && !step.Decide?
    ensures var next, i := Next(cfg, net, step), Target(step);
            && |next.nodes| == |net.nodes| && next.nodes[i] == NodeAfter(cfg, net, step)
            && forall j :: 0 <= j < |net.nodes| && j != i ==> next.nodes[j] == net.nodes[j]
  {
  }

  lemma StepOk(cfg: Setup, net: Net, step: NetStep, honest: bool)
    requires WellFormed(cfg) && NetOk(cfg, net, honest) && (honest ==> HonestStep(cfg, step))
    ensures NetOk(cfg, Next(cfg, net, step), honest) && |Next(cfg, net, step).nodes| == |net.nodes|
  {
    if Enabled(cfg, net, step) {
      if step.Decide? {
        DecideOk(cfg, net, step.header, honest);
      } else {
        NodeAfterOk(cfg, net, step, honest);
        var next := Next(cfg, net, step);
        forall j | 0 <= j < |next.nodes|
          ensures NodeGood(cfg, next.decisions, next.nodes[j], honest)
        {
          assert j != Target(step) ==> next.nodes[j] == net.nodes[j];
        }
      }
    }
  }

  lemma {:induction false} RunOk(cfg: Setup, net: Net, steps: seq<NetStep>, honest: bool)
    requires WellFormed(cfg) && NetOk(cfg, net, honest) && (honest ==> AllHonest(cfg, steps))
    ensures NetOk(cfg, RunNet(cfg, net, steps), honest) && |RunNet(cfg, net, steps).nodes| == |net.nodes|
    decreases |steps|
  {
    if steps != [] {
      StepOk(cfg, net, steps[0], honest);
      RunOk(cfg, Next(cfg, net, steps[0]), steps[1..], honest);
    }
  }

  lemma BootOk(cfg: Setup)
    requires WellFormed(cfg)
    ensures NodeGood(cfg, [], Boot(cfg, BridgeRuns.GENESIS), true)
  {
  }

  lemma GenesisOk(cfg: Setup, count: nat)
    requires WellFormed(cfg)
    ensures NetOk(cfg, Genesis(cfg, count), true)
  {
    BootOk(cfg);
  }

  // ------------------------------------------------------- reached states

  ghost function Reached(cfg: Setup, count: nat, steps: seq<NetStep>): Net
    requires cfg.validators != []
  {
    RunNet(cfg, Genesis(cfg, count), steps)
  }

  lemma ReachedOk(cfg: Setup, count: nat, steps: seq<NetStep>, honest: bool)
    requires WellFormed(cfg) && (honest ==> AllHonest(cfg, steps))
    ensures NetOk(cfg, Reached(cfg, count, steps), honest) && |Reached(cfg, count, steps).nodes| == count
  {
    GenesisOk(cfg, count);
    assert NetOk(cfg, Genesis(cfg, count), honest);
    RunOk(cfg, Genesis(cfg, count), steps, honest);
  }
}
