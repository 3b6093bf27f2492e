/** The height a validator believes it works on, which it also answers the consensus
    engine with: right after every decision, and throughout a run exactly while no
    round is started at another height. */
module Heights {
  import opened Machine
  import opened Chain
  import opened Signing
  import opened EngineApp
  import opened Network

  /** A running node works on the height after those it committed, up to the last u64. */
  predicate AtHeight(cfg: Setup, n: Node) {
    n.status.Running? ==> n.currentHeight == SatU64(HeightOf(cfg, |n.log|))
  }

  ghost predicate AllAtHeight(cfg: Setup, net: Net) {
    forall i :: 0 <= i < |net.nodes| ==> AtHeight(cfg, net.nodes[i])
  }

  /** A round that is started names the height the validator works on. */
  ghost predicate NamesHeight(cfg: Setup, net: Net, step: NetStep) {
    step.StartRound? && Enabled(cfg, net, step) ==>
      step.height == SatU64(HeightOf(cfg, |net.nodes[step.at].log|))
  }

  ghost predicate AlwaysNamesHeight(cfg: Setup, net: Net, steps: seq<NetStep>)
    requires cfg.validators != []
    decreases |steps|
  {
    || steps == []
    || (NamesHeight(cfg, net, steps[0]) && AlwaysNamesHeight(cfg, Next(cfg, net, steps[0]), steps[1..]))
  }

  ghost predicate AtHeightThroughout(cfg: Setup, net: Net, steps: seq<NetStep>)
    requires cfg.validators != []
    decreases |steps|
  {
    AllAtHeight(cfg, net) && (steps == [] || AtHeightThroughout(cfg, Next(cfg, net, steps[0]), steps[1..]))
  }

  /** A decision that leaves the node running moves it on by one height, whatever
      height it believed in before. */
  lemma {:induction false} DecisionMovesOn(cfg: Setup, ds: seq<Header>, n: Node)
    requires WellFormed(cfg) && IsChain(cfg, ds) && NodeOk(cfg, ds, n) && n.status == Running
    requires |n.log| < |ds| && HeightOf(cfg, |n.log|) <= U64_MAX
    ensures var m := OnDecided(cfg, n, HeightOf(cfg, |n.log|), cfg.spec.hashOf(ds[|n.log|]));
            if m.status != Running then m.currentHeight == n.currentHeight
            else && |m.log| == |n.log| + 1 && m.log[|n.log|].height == HeightOf(cfg, |n.log|)
                 && m.currentHeight == Min(cfg.firstHeight + |m.log|, U64_MAX)
  {
    DecidedEffect(cfg, ds, n);
  }

  /** In any reached state: after a report that leaves a validator running it works on
      the height after that of the block reported. */
  lemma {:induction false} ReportMovesOn(cfg: Setup, count: nat, steps: seq<NetStep>, i: nat)
    requires WellFormed(cfg) && i < count && Enabled(cfg, Reached(cfg, count, steps), Report(i))
    ensures var net := Reached(cfg, count, steps);
            && i < |Next(cfg, net, Report(i)).nodes|
            && var m := Next(cfg, net, Report(i)).nodes[i];
               m.status == Running ==>
                 && |m.log| == |net.nodes[i].log| + 1
                 && m.currentHeight == Min(m.log[|m.log| - 1].height + 1, U64_MAX)
                 && m.currentHeight == Min(cfg.firstHeight + |m.log|, U64_MAX)
  {
    var net := Reached(cfg, count, steps);
    ReachedOk(cfg, count, steps, false);
    assert NodeOk(cfg, net.decisions, net.nodes[i]) by {
      assert NodeGood(cfg, net.decisions, net.nodes[i], false);
    }
    DecisionMovesOn(cfg, net.decisions, net.nodes[i]);
    NextSplits(cfg, net, Report(i));
  }

  lemma {:induction false} PartKeepsHeight(cfg: Setup, n: Node, from: PeerId, m: StreamMessage)
    ensures OnPart(cfg, n, from, m).currentHeight == n.currentHeight && OnPart(cfg, n, from, m).log == n.log
    ensures OnPart(cfg, n, from, m).status == n.status || OnPart(cfg, n, from, m).status.Failed?
  {
  }

  lemma {:induction false} AskingKeepsHeight(cfg: Setup, n: Node, height: U64, round: Round)
    requires cfg.validators != []
    ensures var m := OnGetValue(cfg, n, height, round);
            && m.currentHeight == n.currentHeight && m.log == n.log
            && (m.status == n.status || m.status.Failed?)
  {
  }

  lemma {:induction false} MessageKeepsHeight(cfg: Setup, net: Net, step: NetStep)
    requires WellFormed(cfg) && Enabled(cfg, net, step) && (step.AskValue? || step.Deliver? || step.Inject?)
    requires AtHeight(cfg, net.nodes[Target(step)])
    ensures AtHeight(cfg, NodeAfter(cfg, net, step))
  {
    var n := net.nodes[Target(step)];
    match step
    case AskValue(_, round) => AskingKeepsHeight(cfg, n, HeightOf(cfg, |n.log|), round);
    case Deliver(_, from, k) => PartKeepsHeight(cfg, n, from, net.nodes[from].published[k]);
    case Inject(_, peer, m) => PartKeepsHeight(cfg, n, peer, m);
  }

  lemma {:induction false} OtherStepAtHeight(cfg: Setup, net: Net, step: NetStep)
    requires WellFormed(cfg) && IsChain(cfg, net.decisions) && Enabled(cfg, net, step)
    requires step.Report? || step.StartRound? || step.Trade? || step.Restart?
    requires NodeOk(cfg, net.decisions, net.nodes[Target(step)]) && AtHeight(cfg, net.nodes[Target(step)])
    ensures AtHeight(cfg, NodeAfter(cfg, net, step)) <==> NamesHeight(cfg, net, step)
  {
    var n := net.nodes[Target(step)];
    match step
    case Report(_) => DecisionMovesOn(cfg, net.decisions, n);
    case Restart(_) => ResumesAfterLog(cfg, n);
    case _ =>
  }

  lemma {:induction false} StepAtHeightExactly(cfg: Setup, net: Net, step: NetStep)
    requires WellFormed(cfg) && NetOk(cfg, net, false) && AllAtHeight(cfg, net)
    ensures AllAtHeight(cfg, Next(cfg, net, step)) <==> NamesHeight(cfg, net, step)
  {
    if Enabled(cfg, net, step) && !step.Decide? {
      assert AtHeight(cfg, NodeAfter(cfg, net, step)) <==> NamesHeight(cfg, net, step) by {
        assert NodeGood(cfg, net.decisions, net.nodes[Target(step)], false);
        if step.AskValue? || step.Deliver? || step.Inject? {
          MessageKeepsHeight(cfg, net, step);
        } else {
          OtherStepAtHeight(cfg, net, step);
        }
      }
      NextSplits(cfg, net, step);
    }
  }

  /** Over every run, restarts included, running validators are at the height after
      those they committed throughout exactly when every round started names it. */
  lemma {:induction false} AtHeightExactly(cfg: Setup, net: Net, steps: seq<NetStep>)
    requires WellFormed(cfg) && NetOk(cfg, net, false) && AllAtHeight(cfg, net)
    ensures AtHeightThroughout(cfg, net, steps) <==> AlwaysNamesHeight(cfg, net, steps)
    ensures AlwaysNamesHeight(cfg, net, steps) ==> AllAtHeight(cfg, RunNet(cfg, net, steps))
    decreases |steps|
  {
    if steps != [] {
      StepAtHeightExactly(cfg, net, steps[0]);
      StepOk(cfg, net, steps[0], false);
      if NamesHeight(cfg, net, steps[0]) {
        AtHeightExactly(cfg, Next(cfg, net, steps[0]), steps[1..]);
      }
    }
  }

  /** In such a run from genesis the height a validator is asked for a value at, or told
      a decision at, is the one it works on. */
  lemma {:induction false} AskedAtCurrentHeight(cfg: Setup, count: nat, steps: seq<NetStep>, step: NetStep)
    requires WellFormed(cfg) && AlwaysNamesHeight(cfg, Genesis(cfg, count), steps)
    requires step.AskValue? || step.Report?
    requires Enabled(cfg, Reached(cfg, count, steps), step)
    ensures var net := Reached(cfg, count, steps);
            var n := net.nodes[Target(step)];
            match MessageOf(cfg, net, step)
            case GetValue(height, _) => height == n.currentHeight
            case Decided(height, _) => height == n.currentHeight
            case _ => false
  {
    GenesisOk(cfg, count);
    assert NetOk(cfg, Genesis(cfg, count), false);
    assert AllAtHeight(cfg, Genesis(cfg, count));
    AtHeightExactly(cfg, Genesis(cfg, count), steps);
    ReachedOk(cfg, count, steps, false);
  }
}
