/** The engine application loop: consensus messages in, bridge calls and network
    messages out. */
module EngineApp {
  import opened Machine
  import opened Chain
  import opened Signing
  import Bridge
  import BridgeRuns
  import Validators

  type PeerId = nat
  type StreamId = Bytes

  datatype ProposalPart = ProposalPart(
    height: U64, round: Round, polRound: Round, proposer: Address, bytes: WireBytes)

  datatype StreamContent = Data(part: ProposalPart) | Fin

  datatype StreamMessage = StreamMessage(id: StreamId, sequence: nat, content: StreamContent)

  datatype InProgress = InProgress(data: Option<ProposalPart>, finSeen: bool)

  datatype StreamKey = StreamKey(peer: PeerId, id: StreamId)

  /** The messages with an effect; the rest only get a fixed reply. */
  datatype AppMsg =
    | GetValue(height: U64, round: Round)
    | ReceivedProposalPart(from: PeerId, part: StreamMessage)
    | Decided(certHeight: U64, hash: Hash)
    | StartedRound(started: U64)
    | Other

  datatype EngineError =
    | NoTimestamp(hash: Hash)
    | BridgeFailed(error: BridgeError)
    | HookFailed
    | ChannelClosed(decisions: nat)

  datatype Status = Running | Done | Failed(error: EngineError)

  /** What the commit hook is handed. */
  datatype Committed = Committed(hash: Hash, height: U64, blockTime: nat)

  /** A value offered to consensus. */
  datatype Offer = Offer(height: U64, round: Round, hash: Hash)

  /** The loop's variables, the bridge it drives, and what it has handed out so
      far: commits, offered values, network messages and hashes vouched for. */
  datatype Node = Node(
    bridge: BridgeRuns.BridgeState,
    decided: seq<Hash>, currentParent: Hash, currentHeight: U64, blockTimes: map<Hash, nat>,
    streams: map<StreamKey, InProgress>, nextStreamId: U64, status: Status,
    log: seq<Committed>, offered: seq<Offer>, published: seq<StreamMessage>, replied: set<Hash>)

  /** The commit hook, by what it was handed before and is handed now: whether it
      returns normally. */
  type Hook = (seq<Committed>, Committed) -> bool

  datatype Setup = Setup(
    spec: ChainSpec, imBps: U32, validators: seq<Validators.Validator>, firstHeight: U64, stopAfter: nat, hook: Hook)

  ghost predicate WellFormed(cfg: Setup) { Injective(cfg.spec) && cfg.validators != [] }

  function Start(bridge: BridgeRuns.BridgeState, parent: Hash, height: U64): Node {
    Node(bridge, [], parent, height, map[], map[], 0, Running, [], [], [], {})
  }

  /** What a process resumes on: the head its bridge knows, or genesis. */
  function ResumeParent(spec: ChainSpec, c: ChainState): Hash {
    if c.head.Some? then c.head.value else spec.hashOf(spec.genesis)
  }

  /** How a process starts: on top of the chain in its bridge, at the height after
      as many blocks as that holds. */
  function Boot(cfg: Setup, bridge: BridgeRuns.BridgeState): Node {
    Start(bridge, ResumeParent(cfg.spec, bridge.chain), SatU64(cfg.firstHeight + |bridge.chain.chain|))
  }

  /** The loop has ended, the process saves its bridge and a new one loads it. What
      was handed out stays handed out; everything else is gone. */
  function Restarted(cfg: Setup, n: Node): Node {
    var bridge := BridgeRuns.Loaded(BridgeRuns.GENESIS, BridgeRuns.SnapshotOf(n.bridge));
    Boot(cfg, bridge).(log := n.log, offered := n.offered, published := n.published)
  }

  const DEFAULT_TIMESTAMP: nat := 0

  function Fail(n: Node, e: EngineError): Node { n.(status := Failed(e)) }

  /** Build, offer, and stream the block as a Data and a Fin message. */
  function OnGetValue(cfg: Setup, n: Node, height: U64, round: Round): Node
    requires cfg.validators != []
  {
    var (bridge, built) := BridgeRuns.BuildPayload(cfg.spec, n.bridge, n.currentParent, DEFAULT_TIMESTAMP);
    match built
    case Err(e) => Fail(n.(bridge := bridge), BridgeFailed(e))
    case Ok(id) => OnBuilt(cfg, n.(bridge := bridge), height, round, id)
  }

  /** Fetch the built block and offer it, then encode and stream it. */
  function OnBuilt(cfg: Setup, n: Node, height: U64, round: Round, id: nat): Node
    requires cfg.validators != []
  {
    match Ready(n.bridge.chain, id)
    case Err(e) => Fail(n, BridgeFailed(e))
    case Ok(block) =>
      var offering := Offering(n, height, round, block);
      match Encode(n.bridge.chain, id)
      case Err(e) => Fail(offering, BridgeFailed(e))
      case Ok(bytes) => Streaming(cfg, offering, height, round, bytes)
  }

  /** Record the block's time and reply with its hash. */
  function Offering(n: Node, height: U64, round: Round, block: ExecutedBlock): Node {
    n.(blockTimes := n.blockTimes[block.hash := block.timestamp],
       offered := n.offered + [Offer(height, round, block.hash)],
       replied := n.replied + {block.hash})
  }

  function Streaming(cfg: Setup, n: Node, height: U64, round: Round, bytes: WireBytes): Node
    requires cfg.validators != []
  {
    var proposer := Validators.SelectProposer(cfg.validators, height, round).address;
    var id := StreamIdBytes(height, round, n.nextStreamId);
    n.(published := n.published + [
         StreamMessage(id, 0, Data(ProposalPart(height, round, Nil, proposer, bytes))), StreamMessage(id, 1, Fin)],
       nextStreamId := (n.nextStreamId + 1) % (U64_MAX + 1))
  }

  function BufferAt(n: Node, key: StreamKey): InProgress {
    if key in n.streams then n.streams[key] else InProgress(None, false)
  }

  function Buffered(e: InProgress, content: StreamContent): InProgress {
    match content
    case Data(part) => e.(data := Some(part))
    case Fin => e.(finSeen := true)
  }

  /** Buffer a part; once both have arrived, register the block and vouch for it. */
  function OnPart(cfg: Setup, n: Node, from: PeerId, m: StreamMessage): Node {
    var key := StreamKey(from, m.id);
    var entry := Buffered(BufferAt(n, key), m.content);
    if entry.data.None? || !entry.finSeen then n.(streams := n.streams[key := entry])
    else Registering(cfg, n.(streams := n.streams - {key}), entry.data.value.bytes)
  }

  function Registering(cfg: Setup, n: Node, bytes: WireBytes): Node {
    var (bridge, r) := BridgeRuns.RegisterProposedBlock(cfg.spec, n.bridge, bytes);
    match r
    case Err(e) => Fail(n.(bridge := bridge), BridgeFailed(e))
    case Ok(block) =>
      n.(bridge := bridge,
         blockTimes := n.blockTimes[block.hash := block.timestamp], replied := n.replied + {block.hash})
  }

  /** Look the time up, commit, report, and stop once enough is decided. */
  function OnDecided(cfg: Setup, n: Node, height: U64, hash: Hash): Node {
    if hash !in n.blockTimes then Fail(n, NoTimestamp(hash))
    else
      var (bridge, r) := BridgeRuns.CommitBlock(n.bridge, hash);
      var n1 := n.(bridge := bridge, blockTimes := n.blockTimes - {hash});
      match r
      case Err(e) => Fail(n1, BridgeFailed(e))
      case Ok(_) => Committing(cfg, n1, height, hash, n.blockTimes[hash])
  }

  /** The hook is called once the bridge has committed; its error ends the loop
      before the decision is recorded. */
  function Committing(cfg: Setup, n: Node, height: U64, hash: Hash, blockTime: nat): Node {
    var entry := Committed(hash, height, blockTime);
    var called := n.(log := n.log + [entry]);
    if !cfg.hook(n.log, entry) then Fail(called, HookFailed)
    else
      var done := |n.decided| + 1 >= cfg.stopAfter;
      called.(decided := n.decided + [hash], currentParent := hash,
              status := if done then Done else Running,
              currentHeight := if done then n.currentHeight else SatU64(height + 1))
  }

  function Handle(cfg: Setup, n: Node, msg: AppMsg): Node
    requires cfg.validators != []
  {
    match msg
    case GetValue(height, round) => OnGetValue(cfg, n, height, round)
    case ReceivedProposalPart(from, part) => OnPart(cfg, n, from, part)
    case Decided(height, hash) => OnDecided(cfg, n, height, hash)
    case StartedRound(height) => n.(currentHeight := height)
    case Other => n
  }

  /** Handle messages until the loop returns or the channel is empty. */
  function HandleAll(cfg: Setup, n: Node, inbox: seq<AppMsg>): Node
    requires cfg.validators != []
    decreases |inbox|
  {
    if inbox == [] || n.status != Running then n else HandleAll(cfg, Handle(cfg, n, inbox[0]), inbox[1..])
  }

  function ResultOf(n: Node): Result<seq<Hash>, EngineError> {
    match n.status
    case Done => Ok(n.decided)
    case Failed(e) => Err(e)
    case Running => Err(ChannelClosed(|n.decided|))
  }

  class Engine {
    const cfg: Setup
    const bridge: Bridge.LiveBridge
    var decided: seq<Hash>
    var currentParent: Hash
    var currentHeight: U64
    var blockTimes: map<Hash, nat>
    var streams: map<StreamKey, InProgress>
    var nextStreamId: U64
    var log: seq<Committed>
    var offered: seq<Offer>
    var published: seq<StreamMessage>
    var replied: set<Hash>

    ghost predicate Valid()
      reads this, bridge, bridge.clob
    {
      bridge.Valid() && bridge.cfg == BridgeRuns.Config(cfg.spec, cfg.imBps) && cfg.validators != []
    }

    ghost function State(status: Status): Node
      reads this, bridge, bridge.clob
    {
      Node(bridge.State(), decided, currentParent, currentHeight, blockTimes, streams, nextStreamId, status,
           log, offered, published, replied)
    }

    constructor (cfg: Setup, bridge: Bridge.LiveBridge, initialParent: Hash, initialHeight: U64)
      requires bridge.Valid() && bridge.cfg == BridgeRuns.Config(cfg.spec, cfg.imBps) && cfg.validators != []
      ensures Valid() && State(Running) == Start(bridge.State(), initialParent, initialHeight)
      ensures this.bridge == bridge && this.cfg == cfg
    {
      this.cfg := cfg;
      this.bridge := bridge;
      decided, currentParent, currentHeight := [], initialParent, initialHeight;
      blockTimes, streams, nextStreamId := map[], map[], 0;
      log, offered, published, replied := [], [], [], {};
    }

    method HandleGetValue(height: U64, round: Round) returns (status: Status)
      requires Valid()
      modifies this, bridge
      ensures Valid() && State(status) == OnGetValue(cfg, old(State(Running)), height, round)
    {
      var built := bridge.BuildPayload(currentParent, DEFAULT_TIMESTAMP);
      match built {
        case Err(e) => status := Failed(BridgeFailed(e));
        case Ok(id) => status := OfferBuilt(height, round, id);
      }
    }

    method OfferBuilt(height: U64, round: Round, id: nat) returns (status: Status)
      requires Valid()
      modifies this
      ensures Valid() && State(status) == OnBuilt(cfg, old(State(Running)), height, round, id)
    {
      var ready := bridge.PayloadReady(id);
      if ready.Err? {
        return Failed(BridgeFailed(ready.error));
      }
      var block := ready.value;
      blockTimes := blockTimes[block.hash := block.timestamp];
      offered := offered + [Offer(height, round, block.hash)];
      replied := replied + {block.hash};
      var encoded := bridge.EncodeProposedBlock(id);
      match encoded {
        case Err(e) => status := Failed(BridgeFailed(e));
        case Ok(bytes) =>
          StreamBlock(height, round, bytes);
          status := Running;
      }
    }

    method StreamBlock(height: U64, round: Round, bytes: WireBytes)
      requires Valid()
      modifies `published, `nextStreamId
      ensures Valid() && State(Running) == Streaming(cfg, old(State(Running)), height, round, bytes)
    {
      ghost var flat := bridge.State();
      var proposer := Validators.SelectProposer(cfg.validators, height, round).address;
      var part := ProposalPart(height, round, Nil, proposer, bytes);
      var id := StreamIdBytes(height, round, nextStreamId);
      nextStreamId := (nextStreamId + 1) % (U64_MAX + 1);
      published := published + [StreamMessage(id, 0, Data(part)), StreamMessage(id, 1, Fin)];
      assert bridge.State() == flat;
    }

    method HandlePart(from: PeerId, m: StreamMessage) returns (status: Status)
      requires Valid()
      modifies this, bridge
      ensures Valid() && State(status) == OnPart(cfg, old(State(Running)), from, m)
    {
      var key := StreamKey(from, m.id);
      var entry := if key in streams then streams[key] else InProgress(None, false);
      match m.content {
        case Data(part) => entry := entry.(data := Some(part));
        case Fin => entry := entry.(finSeen := true);
      }
      if entry.data.None? || !entry.finSeen {
        streams := streams[key := entry];
        return Running;
      }
      streams := streams - {key};
      var r := bridge.RegisterProposedBlock(entry.data.value.bytes);
      match r {
        case Err(e) => return Failed(BridgeFailed(e));
        case Ok(block) =>
          blockTimes := blockTimes[block.hash := block.timestamp];
          replied := replied + {block.hash};
      }
      status := Running;
    }

    method HandleDecided(height: U64, hash: Hash) returns (status: Status)
      requires Valid()
      modifies this, bridge
      ensures Valid() && State(status) == OnDecided(cfg, old(State(Running)), height, hash)
    {
      if hash !in blockTimes {
        return Failed(NoTimestamp(hash));
      }
      var blockTime := blockTimes[hash];
      blockTimes := blockTimes - {hash};
      var r := bridge.CommitBlock(hash);
      match r {
        case Err(e) => status := Failed(BridgeFailed(e));
        case Ok(_) => status := ReportCommit(height, hash, blockTime);
      }
    }

    method ReportCommit(height: U64, hash: Hash, blockTime: nat) returns (status: Status)
      requires Valid()
      modifies `log, `decided, `currentParent, `currentHeight
      ensures Valid() && State(status) == Committing(cfg, old(State(Running)), height, hash, blockTime)
    {
      ghost var flat := bridge.State();
      var entry := Committed(hash, height, blockTime);
      var accepted := cfg.hook(log, entry);
      log := log + [entry];
      if accepted {
        decided := decided + [hash];
        currentParent := hash;
        if |decided| >= cfg.stopAfter {
          status := Done;
        } else {
          currentHeight := SatU64(height + 1);
          status := Running;
        }
      } else {
        status := Failed(HookFailed);
      }
      assert bridge.State() == flat;
    }

    /** The loop, fed with the messages of a channel that then closes. */
    method RunEngineApp(inbox: seq<AppMsg>) returns (r: Result<seq<Hash>, EngineError>, ghost last: Status)
      requires Valid()
      modifies this, bridge
      ensures Valid() && State(last) == HandleAll(cfg, old(State(Running)), inbox)
      ensures r == ResultOf(State(last))
    {
      var status: Status := Running;
      var i := 0;
      while i < |inbox| && status == Running
        invariant i <= |inbox| && Valid()
        invariant HandleAll(cfg, State(status), inbox[i..]) == HandleAll(cfg, old(State(Running)), inbox)
      {
        assert inbox[i..][0] == inbox[i] && inbox[i..][1..] == inbox[i + 1..];
        match inbox[i] {
          case GetValue(height, round) => status := HandleGetValue(height, round);
          case ReceivedProposalPart(from, part) => status := HandlePart(from, part);
          case Decided(height, hash) => status := HandleDecided(height, hash);
          case StartedRound(height) => currentHeight := height;
          case Other =>
        }
        i := i + 1;
      }
      last := status;
      match status {
        case Done => r := Ok(decided);
        case Failed(e) => r := Err(e);
        case Running => r := Err(ChannelClosed(|decided|));
      }
    }
  }
}
