/** The block times validators hand to their hooks. A bridge checks a received header
    against its hash, but takes the timestamp beside it as it comes: these times are
    the headers' exactly while no accepted block comes with another one. */
module BlockTimes {
  import opened Machine
  import opened Chain
  import opened Signing
  import opened EngineApp
  import opened Network
  import opened Replication
  import BridgeRuns

  /** The time is that of whatever header has the hash. */
  ghost predicate TrueTime(spec: ChainSpec, hash: Hash, time: nat) {
    forall h: Header :: spec.hashOf(h) == hash ==> h.timestamp == time
  }

  lemma TrueTimeOf(spec: ChainSpec, header: Header, time: nat)
    requires Injective(spec)
    ensures TrueTime(spec, spec.hashOf(header), time) <==> time == header.timestamp
  {
  }

  ghost predicate TimesTrue(spec: ChainSpec, times: map<Hash, nat>) {
    forall h :: h in times ==> TrueTime(spec, h, times[h])
  }

  ghost predicate LogTrue(spec: ChainSpec, log: seq<Committed>) {
    forall k :: 0 <= k < |log| ==> TrueTime(spec, log[k].hash, log[k].blockTime)
  }

  /** Every time a node has recorded or reported is its header's. */
  ghost predicate NodeTrue(spec: ChainSpec, n: Node) { TimesTrue(spec, n.blockTimes) && LogTrue(spec, n.log) }

  ghost predicate NetTrue(spec: ChainSpec, net: Net) {
    forall i :: 0 <= i < |net.nodes| ==> NodeTrue(spec, net.nodes[i])
  }

  /** Acceptable bytes give the header's time beside the header. */
  predicate Timed(spec: ChainSpec, bytes: WireBytes) {
    Acceptable(spec, bytes) ==> bytes.wire.block.timestamp == bytes.wire.header.timestamp
  }

  /** The part does not complete a stream whose accepted bytes give another time. */
  predicate PartTimed(spec: ChainSpec, n: Node, from: PeerId, m: StreamMessage) {
    Completes(n, from, m) ==> Timed(spec, Buffered(BufferAt(n, StreamKey(from, m.id)), m.content).data.value.bytes)
  }

  ghost predicate StepTimed(cfg: Setup, net: Net, step: NetStep) {
    Enabled(cfg, net, step) ==>
      match step
      case Deliver(to, from, k) => PartTimed(cfg.spec, net.nodes[to], from, net.nodes[from].published[k])
      case Inject(victim, peer, m) => PartTimed(cfg.spec, net.nodes[victim], peer, m)
      case _ => true
  }

  /** No step of the run completes a stream whose accepted bytes give another time. */
  ghost predicate NeverMistimed(cfg: Setup, net: Net, steps: seq<NetStep>)
    requires cfg.validators != []
    decreases |steps|
  {
    || steps == []
    || (StepTimed(cfg, net, steps[0]) && NeverMistimed(cfg, Next(cfg, net, steps[0]), steps[1..]))
  }

  ghost predicate TrueThroughout(cfg: Setup, net: Net, steps: seq<NetStep>)
    requires cfg.validators != []
    decreases |steps|
  {
    NetTrue(cfg.spec, net) && (steps == [] || TrueThroughout(cfg, Next(cfg, net, steps[0]), steps[1..]))
  }

  // ---------------------------------------------------------- exact condition

  lemma PartKeepsTrueExactly(cfg: Setup, ds: seq<Header>, n: Node, from: PeerId, m: StreamMessage)
    requires WellFormed(cfg) && NodeOk(cfg, ds, n) && n.status == Running && NodeTrue(cfg.spec, n)
    ensures NodeTrue(cfg.spec, OnPart(cfg, n, from, m)) <==> PartTimed(cfg.spec, n, from, m)
  {
    if Completes(n, from, m) {
      var key := StreamKey(from, m.id);
      var bytes := Buffered(BufferAt(n, key), m.content).data.value.bytes;
      if Acceptable(cfg.spec, bytes) {
        BufferingOk(cfg, ds, n, n.streams - {key}, false);
        RegisteringOk(cfg, ds, n.(streams := n.streams - {key}), bytes, false);
        RecordKeepsTrueExactly(cfg.spec, n.blockTimes, bytes.wire.header, bytes.wire.block.timestamp);
      }
    }
  }

  lemma RecordKeepsTrueExactly(spec: ChainSpec, times: map<Hash, nat>, header: Header, time: nat)
    requires Injective(spec) && TimesTrue(spec, times)
    ensures TimesTrue(spec, times[spec.hashOf(header) := time]) <==> time == header.timestamp
  {
    TrueTimeOf(spec, header, time);
    assert TimesTrue(spec, times[spec.hashOf(header) := time]) ==> TrueTime(spec, spec.hashOf(header), time) by {
      assert spec.hashOf(header) in times[spec.hashOf(header) := time];
    }
  }

  lemma AskingKeepsTrue(cfg: Setup, ds: seq<Header>, n: Node, round: Round)
    requires WellFormed(cfg) && NodeOk(cfg, ds, n) && n.status == Running && NodeTrue(cfg.spec, n)
    requires HeightOf(cfg, |n.log|) <= U64_MAX
    ensures NodeTrue(cfg.spec, OnGetValue(cfg, n, HeightOf(cfg, |n.log|), round))
  {
    GetValueOk(cfg, ds, n, round, false);
    var header := NextBlock(cfg, ds, n);
    RecordKeepsTrueExactly(cfg.spec, n.blockTimes, header, header.timestamp);
  }

  lemma ReportingKeepsTrue(cfg: Setup, ds: seq<Header>, n: Node)
    requires WellFormed(cfg) && IsChain(cfg, ds) && NodeOk(cfg, ds, n) && n.status == Running && NodeTrue(cfg.spec, n)
    requires |n.log| < |ds| && HeightOf(cfg, |n.log|) <= U64_MAX
    ensures NodeTrue(cfg.spec, OnDecided(cfg, n, HeightOf(cfg, |n.log|), cfg.spec.hashOf(ds[|n.log|])))
  {
    DecidedEffect(cfg, ds, n);
  }

  lemma PartStepKeepsTrueExactly(cfg: Setup, net: Net, step: NetStep)
    requires WellFormed(cfg) && Enabled(cfg, net, step) && (step.Deliver? || step.Inject?)
    requires NodeOk(cfg, net.decisions, net.nodes[Target(step)]) && NodeTrue(cfg.spec, net.nodes[Target(step)])
    ensures NodeTrue(cfg.spec, NodeAfter(cfg, net, step)) <==> StepTimed(cfg, net, step)
  {
    var ds, n := net.decisions, net.nodes[Target(step)];
    match step
    case Deliver(to, from, k) => PartKeepsTrueExactly(cfg, ds, n, from, net.nodes[from].published[k]);
    case Inject(_, peer, m) => PartKeepsTrueExactly(cfg, ds, n, peer, m);
  }

  lemma OtherStepKeepsTrue(cfg: Setup, net: Net, step: NetStep)
    requires WellFormed(cfg) && IsChain(cfg, net.decisions) && Enabled(cfg, net, step)
    requires !step.Decide? && !step.Deliver? && !step.Inject?
    requires NodeOk(cfg, net.decisions, net.nodes[Target(step)]) && NodeTrue(cfg.spec, net.nodes[Target(step)])
    ensures NodeTrue(cfg.spec, NodeAfter(cfg, net, step))
  {
    var ds, n := net.decisions, net.nodes[Target(step)];
    match step
    case AskValue(_, round) => AskingKeepsTrue(cfg, ds, n, round);
    case Report(_) => ReportingKeepsTrue(cfg, ds, n);
    case _ =>
  }

  lemma StepKeepsTrueExactly(cfg: Setup, net: Net, step: NetStep)
    requires WellFormed(cfg) && NetOk(cfg, net, false) && NetTrue(cfg.spec, net)
    ensures NetTrue(cfg.spec, Next(cfg, net, step)) <==> StepTimed(cfg, net, step)
  {
    if Enabled(cfg, net, step) && !step.Decide? {
      var i := Target(step);
      assert NodeTrue(cfg.spec, NodeAfter(cfg, net, step)) <==> StepTimed(cfg, net, step) by {
        assert NodeGood(cfg, net.decisions, net.nodes[i], false);
        if step.Deliver? || step.Inject? {
          PartStepKeepsTrueExactly(cfg, net, step);
        } else {
          OtherStepKeepsTrue(cfg, net, step);
        }
      }
      NextSplits(cfg, net, step);
    }
  }

  /** Over every run, whatever is injected, all recorded and reported times stay those
      of the headers exactly when no step completes a stream whose accepted bytes give
      another time. */
  lemma {:induction false} TrueThroughoutExactly(cfg: Setup, net: Net, steps: seq<NetStep>)
    requires WellFormed(cfg) && NetOk(cfg, net, false) && NetTrue(cfg.spec, net)
    ensures TrueThroughout(cfg, net, steps) <==> NeverMistimed(cfg, net, steps)
    ensures NeverMistimed(cfg, net, steps) ==> NetTrue(cfg.spec, RunNet(cfg, net, steps))
    decreases |steps|
  {
    if steps != [] {
      StepKeepsTrueExactly(cfg, net, steps[0]);
      StepOk(cfg, net, steps[0], false);
      if StepTimed(cfg, net, steps[0]) {
        TrueThroughoutExactly(cfg, Next(cfg, net, steps[0]), steps[1..]);
      }
    }
  }

  lemma GenesisTrue(cfg: Setup, count: nat)
    ensures NetTrue(cfg.spec, Genesis(cfg, count))
  {
  }

  lemma ReachedTrue(cfg: Setup, count: nat, steps: seq<NetStep>, i: nat)
    requires WellFormed(cfg) && i < count && NeverMistimed(cfg, Genesis(cfg, count), steps)
    ensures i < |Reached(cfg, count, steps).nodes| && NodeTrue(cfg.spec, Reached(cfg, count, steps).nodes[i])
  {
    ReachedOk(cfg, count, steps, false);
    GenesisOk(cfg, count);
    GenesisTrue(cfg, count);
    assert NetOk(cfg, Genesis(cfg, count), false);
    TrueThroughoutExactly(cfg, Genesis(cfg, count), steps);
  }

  /** In such a run the block times agree as well: of any two commit logs one is a
      prefix of the other. */
  lemma LogsAgree(cfg: Setup, count: nat, steps: seq<NetStep>, i: nat, j: nat)
    requires WellFormed(cfg) && i < count && j < count && NeverMistimed(cfg, Genesis(cfg, count), steps)
    ensures var nodes := Reached(cfg, count, steps).nodes;
            i < |nodes| && j < |nodes| && (nodes[i].log <= nodes[j].log || nodes[j].log <= nodes[i].log)
  {
    BlocksAgree(cfg, count, steps, i, j);
    ReachedTrue(cfg, count, steps, i);
    ReachedTrue(cfg, count, steps, j);
    ReachedNode(cfg, count, steps, i, false);
    var net := Reached(cfg, count, steps);
    var a, b := net.nodes[i].log, net.nodes[j].log;
    forall k | 0 <= k < |a| && k < |b|
      ensures a[k] == b[k]
    {
      assert Logged(cfg, net.decisions, a, k);
      TrueTimeOf(cfg.spec, net.decisions[k], a[k].blockTime);
      TrueTimeOf(cfg.spec, net.decisions[k], b[k].blockTime);
    }
  }

  lemma CommittedTimeTrue(cfg: Setup, count: nat, steps: seq<NetStep>, i: nat, k: nat)
    requires WellFormed(cfg) && i < count && NeverMistimed(cfg, Genesis(cfg, count), steps)
    requires i < |Reached(cfg, count, steps).nodes| && k < |Reached(cfg, count, steps).nodes[i].log|
    ensures var n := Reached(cfg, count, steps).nodes[i];
            var entry, chain := n.log[k], n.bridge.chain.chain;
            entry.hash in chain && chain[entry.hash].timestamp == entry.blockTime
  {
    var n := Reached(cfg, count, steps).nodes[i];
    assert n.log[k].hash in n.bridge.chain.chain
           && cfg.spec.hashOf(n.bridge.chain.chain[n.log[k].hash]) == n.log[k].hash by {
      CommittedBlocksChain(cfg, count, steps, i, k);
    }
    assert TrueTime(cfg.spec, n.log[k].hash, n.log[k].blockTime) by {
      ReachedTrue(cfg, count, steps, i);
    }
  }

  /** And each committed time is its header's, so the times of a log strictly increase. */
  lemma CommittedTimesIncrease(cfg: Setup, count: nat, steps: seq<NetStep>, i: nat, k: nat)
    requires WellFormed(cfg) && i < count && NeverMistimed(cfg, Genesis(cfg, count), steps)
    requires i < |Reached(cfg, count, steps).nodes| && k < |Reached(cfg, count, steps).nodes[i].log|
    ensures var n := Reached(cfg, count, steps).nodes[i];
            var entry, chain := n.log[k], n.bridge.chain.chain;
            && entry.hash in chain && chain[entry.hash].timestamp == entry.blockTime
            && (k > 0 ==> entry.blockTime > n.log[k - 1].blockTime)
  {
    CommittedTimeTrue(cfg, count, steps, i, k);
    if k > 0 {
      CommittedTimeTrue(cfg, count, steps, i, k - 1);
      var n := Reached(cfg, count, steps).nodes[i];
      assert n.bridge.chain.chain[n.log[k].hash].timestamp > n.bridge.chain.chain[n.log[k - 1].hash].timestamp by {
        CommittedBlocksChain(cfg, count, steps, i, k);
      }
    }
  }

  // ------------------------------------------------- what an injector must do

  /** A message that brings no acceptable bytes with another time: garbage, wrong
      hashes, and views false in their parent or number are all allowed. */
  predicate TimedContent(spec: ChainSpec, c: StreamContent) { c.Data? ==> Timed(spec, c.part.bytes) }

  ghost predicate InjectsTimed(cfg: Setup, steps: seq<NetStep>) {
    forall k :: 0 <= k < |steps| && steps[k].Inject? ==> TimedContent(cfg.spec, steps[k].message.content)
  }

  ghost predicate StreamsTimed(spec: ChainSpec, streams: map<StreamKey, InProgress>) {
    forall k :: k in streams && streams[k].data.Some? ==> Timed(spec, streams[k].data.value.bytes)
  }

  ghost predicate NetStreamsTimed(cfg: Setup, net: Net) {
    forall i :: 0 <= i < |net.nodes| ==> StreamsTimed(cfg.spec, net.nodes[i].streams)
  }

  lemma PartKeepsStreamsTimed(cfg: Setup, n: Node, from: PeerId, m: StreamMessage)
    requires StreamsTimed(cfg.spec, n.streams) && TimedContent(cfg.spec, m.content)
    ensures PartTimed(cfg.spec, n, from, m) && StreamsTimed(cfg.spec, OnPart(cfg, n, from, m).streams)
  {
  }

  lemma PartStepKeepsStreamsTimed(cfg: Setup, net: Net, step: NetStep)
    requires WellFormed(cfg) && Enabled(cfg, net, step) && (step.Deliver? || step.Inject?)
    requires step.Inject? ==> TimedContent(cfg.spec, step.message.content)
    requires step.Deliver? ==> HonestMail(cfg.spec, net.nodes[step.from].published)
    requires StreamsTimed(cfg.spec, net.nodes[Target(step)].streams)
    ensures StepTimed(cfg, net, step) && StreamsTimed(cfg.spec, NodeAfter(cfg, net, step).streams)
  {
    var n := net.nodes[Target(step)];
    match step
    case Deliver(to, from, k) => PartKeepsStreamsTimed(cfg, n, from, net.nodes[from].published[k]);
    case Inject(_, peer, m) => PartKeepsStreamsTimed(cfg, n, peer, m);
  }

  lemma AskingBuffersNothing(cfg: Setup, n: Node, height: U64, round: Round)
    requires cfg.validators != []
    ensures OnGetValue(cfg, n, height, round).streams == n.streams
  {
  }

  /** Nothing else puts a part into a stream. */
  lemma OtherStepBuffersNothing(cfg: Setup, net: Net, step: NetStep)
    requires WellFormed(cfg) && Enabled(cfg, net, step) && !step.Decide? && !step.Deliver? && !step.Inject?
    ensures var streams := NodeAfter(cfg, net, step).streams;
            streams == net.nodes[Target(step)].streams || streams == map[]
  {
    if step.AskValue? {
      var n := net.nodes[Target(step)];
      AskingBuffersNothing(cfg, n, HeightOf(cfg, |n.log|), step.round);
    }
  }

  lemma NodeKeepsStreamsTimed(cfg: Setup, net: Net, step: NetStep)
    requires WellFormed(cfg) && NetOk(cfg, net, false) && NetStreamsTimed(cfg, net)
    requires Enabled(cfg, net, step) && !step.Decide?
    requires step.Inject? ==> TimedContent(cfg.spec, step.message.content)
    ensures StepTimed(cfg, net, step) && StreamsTimed(cfg.spec, NodeAfter(cfg, net, step).streams)
  {
    assert StreamsTimed(cfg.spec, net.nodes[Target(step)].streams);
    if step.Deliver? || step.Inject? {
      assert step.Deliver? ==> HonestMail(cfg.spec, net.nodes[step.from].published) by {
        assert step.Deliver? ==> NodeGood(cfg, net.decisions, net.nodes[step.from], false);
      }
      PartStepKeepsStreamsTimed(cfg, net, step);
    } else {
      OtherStepBuffersNothing(cfg, net, step);
    }
  }

  lemma StepKeepsStreamsTimed(cfg: Setup, net: Net, step: NetStep)
    requires WellFormed(cfg) && NetOk(cfg, net, false) && NetStreamsTimed(cfg, net)
    requires step.Inject? ==> TimedContent(cfg.spec, step.message.content)
    ensures StepTimed(cfg, net, step) && NetStreamsTimed(cfg, Next(cfg, net, step))
  {
    if Enabled(cfg, net, step) && !step.Decide? {
      NodeKeepsStreamsTimed(cfg, net, step);
      NextSplits(cfg, net, step);
      var next := Next(cfg, net, step);
      forall j | 0 <= j < |next.nodes|
        ensures StreamsTimed(cfg.spec, next.nodes[j].streams)
      {
        assert j != Target(step) ==> StreamsTimed(cfg.spec, net.nodes[j].streams);
      }
    }
  }

  /** So it is enough that no injected Data part brings acceptable bytes with another
      time: what honest validators send cannot. */
  lemma {:induction false} TimedInjectionsNeverMistime(cfg: Setup, net: Net, steps: seq<NetStep>)
    requires WellFormed(cfg) && NetOk(cfg, net, false) && NetStreamsTimed(cfg, net) && InjectsTimed(cfg, steps)
    ensures NeverMistimed(cfg, net, steps)
    decreases |steps|
  {
    if steps != [] {
      StepKeepsStreamsTimed(cfg, net, steps[0]);
      StepOk(cfg, net, steps[0], false);
      TimedInjectionsNeverMistime(cfg, Next(cfg, net, steps[0]), steps[1..]);
    }
  }

  lemma TimedInjectionsSuffice(cfg: Setup, count: nat, steps: seq<NetStep>)
    requires WellFormed(cfg) && InjectsTimed(cfg, steps)
    ensures NeverMistimed(cfg, Genesis(cfg, count), steps)
  {
    GenesisOk(cfg, count);
    assert NetOk(cfg, Genesis(cfg, count), false);
    TimedInjectionsNeverMistime(cfg, Genesis(cfg, count), steps);
  }

  lemma PartRecords(cfg: Setup, ds: seq<Header>, n: Node, from: PeerId, m: StreamMessage)
    requires WellFormed(cfg) && NodeOk(cfg, ds, n) && n.status == Running && Completes(n, from, m)
    requires Acceptable(cfg.spec, Buffered(BufferAt(n, StreamKey(from, m.id)), m.content).data.value.bytes)
    ensures var wire := Buffered(BufferAt(n, StreamKey(from, m.id)), m.content).data.value.bytes.wire;
            var times := OnPart(cfg, n, from, m).blockTimes;
            && wire.block.hash in times
            && (TrueTime(cfg.spec, wire.block.hash, times[wire.block.hash])
                <==> wire.block.timestamp == wire.header.timestamp)
  {
    var key := StreamKey(from, m.id);
    var bytes := Buffered(BufferAt(n, key), m.content).data.value.bytes;
    BufferingOk(cfg, ds, n, n.streams - {key}, false);
    RegisteringOk(cfg, ds, n.(streams := n.streams - {key}), bytes, false);
    TrueTimeOf(cfg.spec, bytes.wire.header, bytes.wire.block.timestamp);
  }

  /** Whatever was injected before, the time recorded for a completed and accepted
      stream is its header's exactly when the bytes say so. */
  lemma RecordsTrueTimeExactly(cfg: Setup, count: nat, steps: seq<NetStep>, i: nat, peer: PeerId, m: StreamMessage)
    requires WellFormed(cfg) && IsRunning(Reached(cfg, count, steps), i)
    requires Completes(Reached(cfg, count, steps).nodes[i], peer, m)
    requires var entry := Buffered(BufferAt(Reached(cfg, count, steps).nodes[i], StreamKey(peer, m.id)), m.content);
             Acceptable(cfg.spec, entry.data.value.bytes)
    ensures var net := Reached(cfg, count, steps);
            var wire := Buffered(BufferAt(net.nodes[i], StreamKey(peer, m.id)), m.content).data.value.bytes.wire;
            && i < |Next(cfg, net, Inject(i, peer, m)).nodes|
            && var times := Next(cfg, net, Inject(i, peer, m)).nodes[i].blockTimes;
               && wire.block.hash in times
               && (TrueTime(cfg.spec, wire.block.hash, times[wire.block.hash])
                   <==> wire.block.timestamp == wire.header.timestamp)
  {
    var net := Reached(cfg, count, steps);
    ReachedOk(cfg, count, steps, false);
    assert NodeOk(cfg, net.decisions, net.nodes[i]) by {
      assert NodeGood(cfg, net.decisions, net.nodes[i], false);
    }
    PartRecords(cfg, net.decisions, net.nodes[i], peer, m);
  }

  // -------------------------------------------------------- times that differ

  /** The header's bytes with a time of the sender's choosing: the hash still fits. */
  function Misdated(spec: ChainSpec, header: Header, t: nat): WireBytes {
    Json(ProposedBlockWire(header, BlockOf(spec, header).(timestamp := t)))
  }

  /** A fresh node that gets such a block as Data and Fin, and then its decision, hands
      the sender's time to its hook: for any header, and any time. */
  lemma FreshNodeReportsAnyTime(
      cfg: Setup, header: Header, t: nat, from: PeerId, id: StreamId, part: ProposalPart, height: U64)
    requires WellFormed(cfg) && part.bytes == Misdated(cfg.spec, header, t)
    ensures var n := Boot(cfg, BridgeRuns.GENESIS);
            var data, fin := StreamMessage(id, 0, Data(part)), StreamMessage(id, 1, Fin);
            var half := OnPart(cfg, n, from, data);
            var m := OnPart(cfg, half, from, fin);
            && half.status == Running && m.status == Running && m.log == []
            && OnDecided(cfg, m, height, cfg.spec.hashOf(header)).log
               == [Committed(cfg.spec.hashOf(header), height, t)]
  {
    var n := Boot(cfg, BridgeRuns.GENESIS);
    BootOk(cfg);
    TakesMisdated(cfg, [], n, header, t, from, id, part);
    var half := OnPart(cfg, n, from, StreamMessage(id, 0, Data(part)));
    HandsRecordedTime(cfg, OnPart(cfg, half, from, StreamMessage(id, 1, Fin)), header, height);
  }

  /** A running node takes the misdated block as it comes. */
  lemma TakesMisdated(
      cfg: Setup, ds: seq<Header>, n: Node, header: Header, t: nat, from: PeerId, id: StreamId, part: ProposalPart)
    requires WellFormed(cfg) && NodeOk(cfg, ds, n) && n.status == Running && n.streams == map[]
    requires part.bytes == Misdated(cfg.spec, header, t)
    ensures var half := OnPart(cfg, n, from, StreamMessage(id, 0, Data(part)));
            var m := OnPart(cfg, half, from, StreamMessage(id, 1, Fin));
            var hash := cfg.spec.hashOf(header);
            && half.status == Running && m.status == Running && m.log == n.log && m.decided == n.decided
            && Sound(cfg.spec, m.bridge.chain) && HasPending(cfg.spec, m.bridge.chain, header)
            && hash in m.blockTimes && m.blockTimes[hash] == t
  {
    var streams := n.streams[StreamKey(from, id) := InProgress(Some(part), false)];
    BufferingOk(cfg, ds, n, streams - {StreamKey(from, id)}, false);
    RegisteringOk(cfg, ds, n.(streams := streams - {StreamKey(from, id)}), part.bytes, false);
  }

  /** A report of a pending block hands the recorded time to the hook, true or not. */
  lemma HandsRecordedTime(cfg: Setup, n: Node, header: Header, height: U64)
    requires WellFormed(cfg) && Sound(cfg.spec, n.bridge.chain) && HasPending(cfg.spec, n.bridge.chain, header)
    requires cfg.spec.hashOf(header) in n.blockTimes
    ensures var hash := cfg.spec.hashOf(header);
            OnDecided(cfg, n, height, hash).log == n.log + [Committed(hash, height, n.blockTimes[hash])]
  {
    CommitFinds(cfg.spec, n.bridge.chain, header);
  }

  /** The block validator 0 builds on genesis. */
  function FirstBlock(spec: ChainSpec): Header {
    Child(spec, spec.hashOf(spec.genesis), spec.genesis, DEFAULT_TIMESTAMP)
  }

  /** Validator 0 proposes, somebody sends validator 1 the block with another time,
      the block is decided, and the decision is reported to both. */
  function MisdatingRun(cfg: Setup, round: Round, peer: PeerId, id: StreamId, part: ProposalPart): seq<NetStep> {
    [AskValue(0, round), Inject(1, peer, StreamMessage(id, 0, Data(part)))]
    + ([Inject(1, peer, StreamMessage(id, 1, Fin)), Decide(FirstBlock(cfg.spec))]
       + [Report(0), Report(1)])
  }

  lemma {:induction false} RunConcat(cfg: Setup, net: Net, xs: seq<NetStep>, ys: seq<NetStep>)
    requires cfg.validators != []
    ensures RunNet(cfg, net, xs + ys) == RunNet(cfg, RunNet(cfg, net, xs), ys)
    decreases |xs|
  {
    if xs == [] {
      assert xs + ys == ys;
    } else {
      assert (xs + ys)[1..] == xs[1..] + ys;
      RunConcat(cfg, Next(cfg, net, xs[0]), xs[1..], ys);
    }
  }

  lemma RunSix(cfg: Setup, net: Net, a: NetStep, b: NetStep, c: NetStep, d: NetStep, e: NetStep, f: NetStep)
    requires cfg.validators != []
    ensures RunNet(cfg, net, [a, b] + ([c, d] + [e, f]))
            == Next(cfg, Next(cfg, Next(cfg, Next(cfg, Next(cfg, Next(cfg, net, a), b), c), d), e), f)
  {
    var two := Next(cfg, Next(cfg, net, a), b);
    var four := Next(cfg, Next(cfg, two, c), d);
    RunConcat(cfg, net, [a, b], [c, d] + [e, f]);
    RunConcat(cfg, two, [c, d], [e, f]);
    RunTwo(cfg, net, a, b);
    RunTwo(cfg, two, c, d);
    RunTwo(cfg, four, e, f);
  }

  lemma FirstOffer(cfg: Setup, n: Node, round: Round)
    requires WellFormed(cfg) && NodeOk(cfg, [], n) && n == Boot(cfg, BridgeRuns.GENESIS)
    ensures var m := OnGetValue(cfg, n, HeightOf(cfg, 0), round);
            NodeOk(cfg, [], m) && HasOffered(cfg, m, FirstBlock(cfg.spec))
  {
    GetValueOk(cfg, [], n, round, false);
    assert OnGetValue(cfg, n, HeightOf(cfg, 0), round).offered[0].hash == cfg.spec.hashOf(FirstBlock(cfg.spec));
  }

  lemma FirstIsAsked(cfg: Setup, round: Round)
    requires cfg.validators != []
    ensures var n := Boot(cfg, BridgeRuns.GENESIS);
            Next(cfg, Genesis(cfg, 2), AskValue(0, round)) == Net([OnGetValue(cfg, n, HeightOf(cfg, 0), round), n], [])
  {
    var n := Boot(cfg, BridgeRuns.GENESIS);
    assert Genesis(cfg, 2).nodes == [n, n];
  }

  /** The node has offered the block for the first height and recorded its time. */
  ghost predicate HasOffered(cfg: Setup, n: Node, header: Header) {
    var hash := cfg.spec.hashOf(header);
    && n.status == Running && n.log == [] && OfferedBy(n, HeightOf(cfg, 0), hash)
    && hash in n.blockTimes && n.blockTimes[hash] == header.timestamp
  }

  /** Two parts injected at validator 1 leave validator 0 alone. */
  lemma TwoInjections(cfg: Setup, net: Net, peer: PeerId, a: StreamMessage, b: StreamMessage)
    requires cfg.validators != [] && |net.nodes| == 2 && net.nodes[1].status == Running
    requires OnPart(cfg, net.nodes[1], peer, a).status == Running
    ensures Next(cfg, Next(cfg, net, Inject(1, peer, a)), Inject(1, peer, b))
            == Net([net.nodes[0], OnPart(cfg, OnPart(cfg, net.nodes[1], peer, a), peer, b)], net.decisions)
  {
    var half := Next(cfg, net, Inject(1, peer, a));
    assert half.nodes == [net.nodes[0], OnPart(cfg, net.nodes[1], peer, a)];
    var sent := Next(cfg, half, Inject(1, peer, b));
    assert sent.nodes == [net.nodes[0], OnPart(cfg, half.nodes[1], peer, b)];
  }

  /** The first decision, reported to both. */
  lemma TwoReports(cfg: Setup, n: Node, f: Node, header: Header)
    requires cfg.validators != [] && n.status == Running && f.status == Running && n.log == [] && f.log == []
    requires OfferedBy(n, HeightOf(cfg, 0), cfg.spec.hashOf(header))
    ensures var hash := cfg.spec.hashOf(header);
            var decided := Next(cfg, Net([n, f], []), Decide(header));
            Next(cfg, Next(cfg, decided, Report(0)), Report(1)).nodes
            == [OnDecided(cfg, n, HeightOf(cfg, 0), hash), OnDecided(cfg, f, HeightOf(cfg, 0), hash)]
  {
    var net := Net([n, f], []);
    assert OfferedBy(net.nodes[0], HeightOf(cfg, 0), cfg.spec.hashOf(header));
    var decided := Next(cfg, net, Decide(header));
    assert decided == Net([n, f], [header]);
    var first := Next(cfg, decided, Report(0));
    assert first.nodes == [OnDecided(cfg, n, HeightOf(cfg, 0), cfg.spec.hashOf(header)), f];
  }

  lemma OwnOfferHandsTrueTime(cfg: Setup, n: Node, header: Header)
    requires WellFormed(cfg) && NodeOk(cfg, [], n) && HasOffered(cfg, n, header)
    ensures var hash := cfg.spec.hashOf(header);
            OnDecided(cfg, n, cfg.firstHeight, hash).log == [Committed(hash, cfg.firstHeight, header.timestamp)]
  {
    PendingHeader(cfg.spec, n.bridge.chain, header);
    HandsRecordedTime(cfg, n, header, cfg.firstHeight);
  }

  lemma FreshProposerReports(cfg: Setup, round: Round)
    requires WellFormed(cfg)
    ensures var n := OnGetValue(cfg, Boot(cfg, BridgeRuns.GENESIS), HeightOf(cfg, 0), round);
            var header := FirstBlock(cfg.spec);
            var hash := cfg.spec.hashOf(header);
            && HasOffered(cfg, n, header)
            && OnDecided(cfg, n, cfg.firstHeight, hash).log == [Committed(hash, cfg.firstHeight, header.timestamp)]
  {
    BootOk(cfg);
    FirstOffer(cfg, Boot(cfg, BridgeRuns.GENESIS), round);
    var n := OnGetValue(cfg, Boot(cfg, BridgeRuns.GENESIS), HeightOf(cfg, 0), round);
    OwnOfferHandsTrueTime(cfg, n, FirstBlock(cfg.spec));
  }

  /** The run ends with both validators handling the one report. */
  lemma MisdatingRunEnds(cfg: Setup, round: Round, peer: PeerId, id: StreamId, part: ProposalPart, n: Node, f: Node)
    requires cfg.validators != []
    requires n == OnGetValue(cfg, Boot(cfg, BridgeRuns.GENESIS), HeightOf(cfg, 0), round)
    requires var half := OnPart(cfg, Boot(cfg, BridgeRuns.GENESIS), peer, StreamMessage(id, 0, Data(part)));
             half.status == Running && f == OnPart(cfg, half, peer, StreamMessage(id, 1, Fin))
    requires HasOffered(cfg, n, FirstBlock(cfg.spec)) && f.status == Running && f.log == []
    ensures var hash := cfg.spec.hashOf(FirstBlock(cfg.spec));
            Reached(cfg, 2, MisdatingRun(cfg, round, peer, id, part)).nodes
            == [OnDecided(cfg, n, cfg.firstHeight, hash), OnDecided(cfg, f, cfg.firstHeight, hash)]
  {
    var header := FirstBlock(cfg.spec);
    var data, fin := StreamMessage(id, 0, Data(part)), StreamMessage(id, 1, Fin);
    RunSix(cfg, Genesis(cfg, 2), AskValue(0, round), Inject(1, peer, data), Inject(1, peer, fin), Decide(header),
           Report(0), Report(1));
    FirstIsAsked(cfg, round);
    TwoInjections(cfg, Net([n, Boot(cfg, BridgeRuns.GENESIS)], []), peer, data, fin);
    TwoReports(cfg, n, f, header);
  }

  /** Two validators commit the same block at the same height and hand different
      times to their hooks. */
  lemma TimesCanDiffer(cfg: Setup, round: Round, t: nat, peer: PeerId, id: StreamId, part: ProposalPart)
    requires WellFormed(cfg) && part.bytes == Misdated(cfg.spec, FirstBlock(cfg.spec), t)
    ensures var nodes := Reached(cfg, 2, MisdatingRun(cfg, round, peer, id, part)).nodes;
            var header := FirstBlock(cfg.spec);
            && |nodes| == 2
            && nodes[0].log == [Committed(cfg.spec.hashOf(header), cfg.firstHeight, header.timestamp)]
            && nodes[1].log == [Committed(cfg.spec.hashOf(header), cfg.firstHeight, t)]
  {
    var header, boot := FirstBlock(cfg.spec), Boot(cfg, BridgeRuns.GENESIS);
    var data, fin := StreamMessage(id, 0, Data(part)), StreamMessage(id, 1, Fin);
    var n := OnGetValue(cfg, boot, HeightOf(cfg, 0), round);
    var half := OnPart(cfg, boot, peer, data);
    var f := OnPart(cfg, half, peer, fin);
    FreshProposerReports(cfg, round);
    FreshNodeReportsAnyTime(cfg, header, t, peer, id, part, cfg.firstHeight);
    MisdatingRunEnds(cfg, round, peer, id, part, n, f);
  }
}
