/** What N replicas agree on, and when one of them stops: over every step sequence
    of the network, whatever is injected and whoever restarts. */
module Replication {
  import opened Machine
  import opened Chain
  import opened Signing
  import opened EngineApp
  import opened Network

  lemma ReachedNode(cfg: Setup, count: nat, steps: seq<NetStep>, i: nat, honest: bool)
    requires WellFormed(cfg) && i < count && (honest ==> AllHonest(cfg, steps))
    ensures var net := Reached(cfg, count, steps);
            i < |net.nodes| && IsChain(cfg, net.decisions) && NodeGood(cfg, net.decisions, net.nodes[i], honest)
  {
    ReachedOk(cfg, count, steps, honest);
    var net := Reached(cfg, count, steps);
    assert NodeGood(cfg, net.decisions, net.nodes[i], honest);
  }

  // -------------------------------------------------------------- agreement

  /** The blocks and heights of the shorter log are those of the longer one. */
  ghost predicate SameBlocks(a: seq<Committed>, b: seq<Committed>) {
    forall k :: 0 <= k < |a| && k < |b| ==> a[k].hash == b[k].hash && a[k].height == b[k].height
  }

  /** Over every interleaving, whatever is injected, any two validators hand the
      same blocks at the same heights to their commit hooks. */
  lemma BlocksAgree(cfg: Setup, count: nat, steps: seq<NetStep>, i: nat, j: nat)
    requires WellFormed(cfg) && i < count && j < count
    ensures var nodes := Reached(cfg, count, steps).nodes;
            i < |nodes| && j < |nodes| && SameBlocks(nodes[i].log, nodes[j].log)
  {
    ReachedNode(cfg, count, steps, i, false);
    ReachedNode(cfg, count, steps, j, false);
    var net := Reached(cfg, count, steps);
    var a, b := net.nodes[i].log, net.nodes[j].log;
    forall k | 0 <= k < |a| && k < |b|
      ensures a[k].hash == b[k].hash && a[k].height == b[k].height
    {
      assert Logged(cfg, net.decisions, a, k) && Logged(cfg, net.decisions, b, k);
    }
  }

  lemma LogHeader(cfg: Setup, ds: seq<Header>, n: Node, k: nat)
    requires WellFormed(cfg) && NodeOk(cfg, ds, n) && k < |n.log|
    ensures k < |ds| && n.log[k].height == HeightOf(cfg, k) && n.log[k].hash == cfg.spec.hashOf(ds[k])
    ensures n.log[k].hash in n.bridge.chain.chain && n.bridge.chain.chain[n.log[k].hash] == ds[k]
  {
    assert Logged(cfg, ds, n.log, k) && InLog(n.log, n.log[k].hash);
    assert cfg.spec.hashOf(n.bridge.chain.chain[n.log[k].hash]) == n.log[k].hash;
  }

  /** Whatever is injected, each committed block is in the validator's chain under
      its own hash, builds on the one committed before it (the first on genesis),
      is one higher and strictly later; heights count up from the first. */
  lemma CommittedBlocksChain(cfg: Setup, count: nat, steps: seq<NetStep>, i: nat, k: nat)
    requires WellFormed(cfg) && i < count
    requires i < |Reached(cfg, count, steps).nodes| && k < |Reached(cfg, count, steps).nodes[i].log|
    ensures var n := Reached(cfg, count, steps).nodes[i];
            var entry, chain := n.log[k], n.bridge.chain.chain;
            && entry.hash in chain && cfg.spec.hashOf(chain[entry.hash]) == entry.hash
            && entry.height == cfg.firstHeight + k
            && (k == 0 ==> Extends(cfg.spec, cfg.spec.genesis, chain[entry.hash]))
            && (k > 0 ==> && n.log[k - 1].hash in chain
                          && Extends(cfg.spec, chain[n.log[k - 1].hash], chain[entry.hash]))
  {
    ReachedNode(cfg, count, steps, i, false);
    var net := Reached(cfg, count, steps);
    LogHeader(cfg, net.decisions, net.nodes[i], k);
    if k > 0 {
      LogHeader(cfg, net.decisions, net.nodes[i], k - 1);
    }
    assert LinksBack(cfg, net.decisions, k);
  }

  // ------------------------------------------------------- what is refused

  /** While nothing is forged no build, registration or commit is ever refused: a
      validator that stops with an error met a decision it had never vouched for,
      or its hook failed; one that ends well has committed exactly its quota. */
  lemma NothingIsRejected(cfg: Setup, count: nat, steps: seq<NetStep>, i: nat)
    requires WellFormed(cfg) && i < count && AllHonest(cfg, steps)
    ensures i < |Reached(cfg, count, steps).nodes|
    ensures var n := Reached(cfg, count, steps).nodes[i];
            match n.status
            case Failed(e) => e.NoTimestamp? || e.HookFailed?
            case Done => ResultOf(n) == Ok(n.decided) && |n.decided| == Max(cfg.stopAfter, 1)
            case Running => |n.decided| < Max(cfg.stopAfter, 1)
  {
    ReachedNode(cfg, count, steps, i, true);
  }

  lemma AskedNode(cfg: Setup, net: Net, i: nat, round: Round)
    requires WellFormed(cfg) && NetOk(cfg, net, false) && Enabled(cfg, net, AskValue(i, round))
    ensures |net.nodes[i].log| <= |net.decisions|
    ensures var n, m := net.nodes[i], NodeAfter(cfg, net, AskValue(i, round));
            var header := NextBlock(cfg, net.decisions, n);
            && m.status == Running && Published(cfg, n, m, HeightOf(cfg, |n.log|), round, header)
            && Extends(cfg.spec, Before(cfg, net.decisions, |n.log|), header)
            && m.offered == n.offered + [Offer(HeightOf(cfg, |n.log|), round, cfg.spec.hashOf(header))]
  {
    assert NodeGood(cfg, net.decisions, net.nodes[i], false);
    GetValueOk(cfg, net.decisions, net.nodes[i], round, false);
  }

  /** Whatever is injected, a validator that is asked for a value builds on the last
      block it committed, offers the result and runs on: no build is refused. */
  lemma BuildNeverRefused(cfg: Setup, count: nat, steps: seq<NetStep>, i: nat, round: Round)
    requires WellFormed(cfg) && i < count && Enabled(cfg, Reached(cfg, count, steps), AskValue(i, round))
    ensures var net := Reached(cfg, count, steps);
            && i < |Next(cfg, net, AskValue(i, round)).nodes| && |net.nodes[i].log| <= |net.decisions|
            && var n, m := net.nodes[i], Next(cfg, net, AskValue(i, round)).nodes[i];
               var header := NextBlock(cfg, net.decisions, n);
               && Extends(cfg.spec, Before(cfg, net.decisions, |n.log|), header) && m.status == Running
               && m.offered == n.offered + [Offer(HeightOf(cfg, |n.log|), round, cfg.spec.hashOf(header))]
  {
    ReachedOk(cfg, count, steps, false);
    AskedNode(cfg, Reached(cfg, count, steps), i, round);
    NextSplits(cfg, Reached(cfg, count, steps), AskValue(i, round));
  }

  /** Whatever was injected before, one more injected part makes the bridge refuse,
      and so ends the loop, exactly when it completes a stream whose bytes do not
      decode or claim a wrong hash. */
  lemma RejectedExactlyWhenUnacceptable(
      cfg: Setup, count: nat, steps: seq<NetStep>, i: nat, peer: PeerId, m: StreamMessage)
    requires WellFormed(cfg) && IsRunning(Reached(cfg, count, steps), i)
    ensures var net := Reached(cfg, count, steps);
            var entry := Buffered(BufferAt(net.nodes[i], StreamKey(peer, m.id)), m.content);
            && i < |Next(cfg, net, Inject(i, peer, m)).nodes|
            && (BridgeStopped(Next(cfg, net, Inject(i, peer, m)).nodes[i])
                <==> Completes(net.nodes[i], peer, m) && !Acceptable(cfg.spec, entry.data.value.bytes))
  {
    ReachedOk(cfg, count, steps, false);
    var net := Reached(cfg, count, steps);
    assert NodeGood(cfg, net.decisions, net.nodes[i], false);
    PartOk(cfg, net.decisions, net.nodes[i], peer, m, false);
  }

  /** Whatever is injected, a reported decision is never refused by the bridge, and
      finds no recorded time exactly at a validator that, since it was started, has
      neither offered that block nor completed a stream carrying it. */
  lemma FailsExactlyWhenUnseen(cfg: Setup, count: nat, steps: seq<NetStep>, i: nat)
    requires WellFormed(cfg) && Enabled(cfg, Reached(cfg, count, steps), Report(i))
    ensures var net := Reached(cfg, count, steps);
            var n := net.nodes[i];
            && |n.log| < |net.decisions| && i < |Next(cfg, net, Report(i)).nodes|
            && var hash := cfg.spec.hashOf(net.decisions[|n.log|]);
               var status := Next(cfg, net, Report(i)).nodes[i].status;
               && (status == Failed(NoTimestamp(hash)) <==> hash !in n.replied)
               && (status.Failed? ==> status.error == NoTimestamp(hash) || status.error == HookFailed)
  {
    ReachedOk(cfg, count, steps, false);
    var net := Reached(cfg, count, steps);
    assert NodeGood(cfg, net.decisions, net.nodes[i], false);
    DecidedEffect(cfg, net.decisions, net.nodes[i]);
  }

  /** What the loop returns, whatever was injected: as many hashes as its quota, the
      last ones it handed to its hook, in order; or its error; or, while it still runs,
      that the channel closed after as many decisions as it made. */
  lemma ResultsAreTheLog(cfg: Setup, count: nat, steps: seq<NetStep>, i: nat)
    requires WellFormed(cfg) && i < count
    ensures i < |Reached(cfg, count, steps).nodes|
    ensures var n := Reached(cfg, count, steps).nodes[i];
            var quota, r := Max(cfg.stopAfter, 1), ResultOf(n);
            match n.status
            case Done =>
              && r.Ok? && |r.value| == quota <= |n.log|
              && forall j :: 0 <= j < quota ==> r.value[j] == n.log[|n.log| - quota + j].hash
            case Failed(e) => r == Err(e)
            case Running => r == Err(ChannelClosed(|n.decided|)) && |n.decided| < quota
  {
    ReachedNode(cfg, count, steps, i, false);
    assert EndsLog(Reached(cfg, count, steps).nodes[i].decided, Reached(cfg, count, steps).nodes[i].log,
                   Recorded(Reached(cfg, count, steps).nodes[i]));
  }

  // --------------------------------------------------------------- restarts

  /** A restart loses no commit and repeats none: whatever ended the loop, a failed
      hook included, the new process builds on the last block handed out, at the
      height after it, with all committed headers in its chain. */
  lemma ResumesWhereItStopped(cfg: Setup, count: nat, steps: seq<NetStep>, i: nat)
    requires WellFormed(cfg) && i < count
    ensures var net := Reached(cfg, count, steps);
            && i < |net.nodes| && i < |Next(cfg, net, Restart(i)).nodes|
            && var n, m := net.nodes[i], Next(cfg, net, Restart(i)).nodes[i];
               && m.status == Running && m.log == n.log && m.bridge.chain.chain == n.bridge.chain.chain
               && m.currentParent
                  == (if n.log == [] then cfg.spec.hashOf(cfg.spec.genesis) else n.log[|n.log| - 1].hash)
               && m.currentHeight == SatU64(cfg.firstHeight + |n.log|)
  {
    ReachedNode(cfg, count, steps, i, false);
    ResumesAfterLog(cfg, Reached(cfg, count, steps).nodes[i]);
  }

  /** The step brings validator i no block and no decision. */
  predicate Spares(step: NetStep, i: nat) {
    step.Decide? || step.StartRound? || step.Trade? || Target(step) != i
  }

  lemma {:induction false} SparedNode(cfg: Setup, net: Net, steps: seq<NetStep>, i: nat)
    requires cfg.validators != [] && i < |net.nodes| && forall k :: 0 <= k < |steps| ==> Spares(steps[k], i)
    ensures var last := RunNet(cfg, net, steps);
            && |last.nodes| == |net.nodes| && net.decisions <= last.decisions
            && last.nodes[i].log == net.nodes[i].log && last.nodes[i].status == net.nodes[i].status
            && last.nodes[i].blockTimes == net.nodes[i].blockTimes
    decreases |steps|
  {
    if steps != [] {
      SparedStep(cfg, net, steps[0], i);
      SparedNode(cfg, Next(cfg, net, steps[0]), steps[1..], i);
    }
  }

  lemma SparedStep(cfg: Setup, net: Net, step: NetStep, i: nat)
    requires cfg.validators != [] && i < |net.nodes| && Spares(step, i)
    ensures var next := Next(cfg, net, step);
            && |next.nodes| == |net.nodes| && net.decisions <= next.decisions
            && next.nodes[i].log == net.nodes[i].log && next.nodes[i].status == net.nodes[i].status
            && next.nodes[i].blockTimes == net.nodes[i].blockTimes
  {
  }

  /** But it forgets what it vouched for: until a block reaches it again, whatever else
      happens, the next decision ends it, even if it had proposed that block itself. */
  lemma {:induction false} RestartForgets(cfg: Setup, count: nat, steps: seq<NetStep>, i: nat, later: seq<NetStep>)
    requires WellFormed(cfg) && i < |Reached(cfg, count, steps).nodes|
    requires |Reached(cfg, count, steps).nodes[i].log| < |Reached(cfg, count, steps).decisions|
    requires HeightOf(cfg, |Reached(cfg, count, steps).nodes[i].log|) <= U64_MAX
    requires forall k :: 0 <= k < |later| ==> Spares(later[k], i)
    ensures var net := RunNet(cfg, Next(cfg, Reached(cfg, count, steps), Restart(i)), later);
            && Enabled(cfg, net, Report(i)) && i < |Next(cfg, net, Report(i)).nodes|
            && Next(cfg, net, Report(i)).nodes[i].status
               == Failed(NoTimestamp(cfg.spec.hashOf(net.decisions[|net.nodes[i].log|])))
  {
    SparedNode(cfg, Next(cfg, Reached(cfg, count, steps), Restart(i)), later, i);
  }

  // -------------------------------------------------------------- proposals

  /** The node runs, vouches for a block and could commit it. */
  ghost predicate Knows(cfg: Setup, n: Node, wire: ProposedBlockWire) {
    && n.status == Running && wire.block.hash in n.replied
    && wire.block.hash in n.blockTimes && n.blockTimes[wire.block.hash] == wire.block.timestamp
    && HasPending(cfg.spec, n.bridge.chain, wire.header)
  }

  /** A stream completes in either order of its two parts, with the same result:
      the block is pending, its time recorded, and the validator vouches for it. */
  lemma StreamCompletesInAnyOrder(
      cfg: Setup, ds: seq<Header>, n: Node, from: PeerId, id: StreamId, part: ProposalPart)
    requires WellFormed(cfg) && NodeOk(cfg, ds, n) && n.status == Running && Acceptable(cfg.spec, part.bytes)
    requires StreamKey(from, id) !in n.streams
    ensures var data, fin := StreamMessage(id, 0, Data(part)), StreamMessage(id, 1, Fin);
            var m := OnPart(cfg, OnPart(cfg, n, from, data), from, fin);
            && m == OnPart(cfg, OnPart(cfg, n, from, fin), from, data)
            && m.streams == n.streams && Knows(cfg, m, part.bytes.wire)
  {
    var key := StreamKey(from, id);
    assert n.streams[key := InProgress(Some(part), false)] - {key} == n.streams;
    assert n.streams[key := InProgress(None, true)] - {key} == n.streams;
    assert n.(streams := n.streams) == n;
    RegisteringOk(cfg, ds, n, part.bytes, false);
  }

  /** Sent in order, a Data and a Fin always get through, whatever was buffered or
      injected under the same stream id before. */
  lemma ArrivesInOrder(cfg: Setup, ds: seq<Header>, n: Node, from: PeerId, id: StreamId, part: ProposalPart)
    requires WellFormed(cfg) && NodeOk(cfg, ds, n) && n.status == Running && Acceptable(cfg.spec, part.bytes)
    ensures var m := OnPart(cfg, OnPart(cfg, n, from, StreamMessage(id, 0, Data(part))),
                    from, StreamMessage(id, 1, Fin));
            OnPart(cfg, n, from, StreamMessage(id, 0, Data(part))).status == Running && Knows(cfg, m, part.bytes.wire)
  {
    var key := StreamKey(from, id);
    if BufferAt(n, key).finSeen {
      BufferingOk(cfg, ds, n, n.streams - {key}, false);
      RegisteringOk(cfg, ds, n.(streams := n.streams - {key}), part.bytes, false);
    } else {
      var streams := n.streams[key := Buffered(BufferAt(n, key), Data(part))];
      BufferingOk(cfg, ds, n, streams - {key}, false);
      RegisteringOk(cfg, ds, n.(streams := streams - {key}), part.bytes, false);
    }
  }

  /** A proposal in order, at node level: what the proposer published reaches the
      follower as a block it knows. */
  lemma PublishedArrives(
      cfg: Setup, ds: seq<Header>, n: Node, m: Node, height: U64, round: Round, header: Header, f: Node, from: PeerId)
    requires WellFormed(cfg) && Published(cfg, n, m, height, round, header) && NodeOk(cfg, ds, f) && f.status == Running
    ensures var k := |n.published|;
            && |m.published| == k + 2
            && OnPart(cfg, f, from, m.published[k]).status == Running
            && Knows(cfg, OnPart(cfg, OnPart(cfg, f, from, m.published[k]), from, m.published[k + 1]),
                     WireOf(cfg.spec, header).wire)
  {
    var data := m.published[|n.published|];
    ArrivesInOrder(cfg, ds, f, from, data.id, data.content.part);
  }

  /** What a node has just published, delivered in order. */
  lemma DeliveredInOrder(
      cfg: Setup, net: Net, n: Node, height: U64, round: Round, header: Header, i: nat, j: nat)
    requires WellFormed(cfg) && i != j && i < |net.nodes| && IsRunning(net, j)
    requires NodeOk(cfg, net.decisions, net.nodes[j]) && Published(cfg, n, net.nodes[i], height, round, header)
    ensures var k := |n.published|;
            var sent := RunNet(cfg, net, [Deliver(j, i, k), Deliver(j, i, k + 1)]);
            j < |sent.nodes| && Knows(cfg, sent.nodes[j], WireOf(cfg.spec, header).wire)
  {
    PublishedArrives(cfg, net.decisions, n, net.nodes[i], height, round, header, net.nodes[j], i);
    TwoDeliveries(cfg, net, j, i, |n.published|);
  }

  /** So the block a validator builds when asked becomes known to any running one that
      gets its two messages in order, with the time of its header. */
  lemma ProposalArrives(cfg: Setup, count: nat, steps: seq<NetStep>, i: nat, j: nat, round: Round)
    requires WellFormed(cfg) && i != j && i < count && j < count && IsRunning(Reached(cfg, count, steps), j)
    requires Enabled(cfg, Reached(cfg, count, steps), AskValue(i, round))
    ensures var net := Reached(cfg, count, steps);
            var k := |net.nodes[i].published|;
            var asked := Next(cfg, net, AskValue(i, round));
            var sent := RunNet(cfg, asked, [Deliver(j, i, k), Deliver(j, i, k + 1)]);
            && j < |sent.nodes| && |net.nodes[i].log| <= |net.decisions|
            && Knows(cfg, sent.nodes[j], WireOf(cfg.spec, NextBlock(cfg, net.decisions, net.nodes[i])).wire)
  {
    var net := Reached(cfg, count, steps);
    ReachedOk(cfg, count, steps, false);
    AskedNode(cfg, net, i, round);
    assert NodeOk(cfg, net.decisions, net.nodes[j]) by {
      assert NodeGood(cfg, net.decisions, net.nodes[j], false);
    }
    NextSplits(cfg, net, AskValue(i, round));
    var header := NextBlock(cfg, net.decisions, net.nodes[i]);
    var height := HeightOf(cfg, |net.nodes[i].log|);
    DeliveredInOrder(cfg, Next(cfg, net, AskValue(i, round)), net.nodes[i], height, round, header, i, j);
  }

  lemma TwoDeliveries(cfg: Setup, net: Net, to: nat, from: nat, k: nat)
    requires cfg.validators != [] && from != to && IsRunning(net, to) && from < |net.nodes|
    requires k + 1 < |net.nodes[from].published|
    requires OnPart(cfg, net.nodes[to], from, net.nodes[from].published[k]).status == Running
    ensures var sent := RunNet(cfg, net, [Deliver(to, from, k), Deliver(to, from, k + 1)]);
            var mail := net.nodes[from].published;
            && to < |sent.nodes|
            && sent.nodes[to] == OnPart(cfg, OnPart(cfg, net.nodes[to], from, mail[k]), from, mail[k + 1])
  {
    var half := Next(cfg, net, Deliver(to, from, k));
    assert half.nodes[from] == net.nodes[from];
    RunTwo(cfg, net, Deliver(to, from, k), Deliver(to, from, k + 1));
  }

  lemma RunTwo(cfg: Setup, net: Net, a: NetStep, b: NetStep)
    requires cfg.validators != []
    ensures RunNet(cfg, net, [a, b]) == Next(cfg, Next(cfg, net, a), b)
  {
    assert [a, b][1..] == [b] && [b][1..] == [];
    assert RunNet(cfg, Next(cfg, Next(cfg, net, a), b), []) == Next(cfg, Next(cfg, net, a), b);
  }
}
