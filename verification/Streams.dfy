/** The streams a validator's process sends its proposals in: each a Data and a Fin
    message under an id of its own. */
module Streams {
  import opened Machine
  import opened Chain
  import opened Signing
  import opened EngineApp
  import BridgeRuns

  /** Stream number j: a Data part and a Fin under one id that carries the number. */
  predicate StreamAt(mail: seq<StreamMessage>, j: nat)
    requires 2 * j + 1 < |mail|
  {
    var id := mail[2 * j].id;
    && mail[2 * j].content.Data? && mail[2 * j].sequence == 0 && mail[2 * j + 1] == StreamMessage(id, 1, Fin)
    && |id| == 24 && BeValue(id[16..]) == j % (U64_MAX + 1)
  }

  /** What a process has sent so far is whole streams, numbered from zero. */
  ghost predicate Numbered(mail: seq<StreamMessage>, next: U64) {
    && |mail| % 2 == 0 && next == |mail| / 2 % (U64_MAX + 1)
    && forall j :: 0 <= j < |mail| / 2 ==> StreamAt(mail, j)
  }

  lemma {:induction false} NextNumber(k: nat)
    ensures (k % (U64_MAX + 1) + 1) % (U64_MAX + 1) == (k + 1) % (U64_MAX + 1)
  {
  }

  lemma {:induction false} StreamStays(mail: seq<StreamMessage>, more: seq<StreamMessage>, j: nat)
    requires 2 * j + 1 < |mail| && StreamAt(mail, j)
    ensures StreamAt(mail + more, j)
  {
  }

  lemma {:induction false} OneMoreStream(mail: seq<StreamMessage>, next: U64, data: StreamMessage, fin: StreamMessage)
    requires Numbered(mail, next) && data.content.Data? && data.sequence == 0 && fin == StreamMessage(data.id, 1, Fin)
    requires |data.id| == 24 && BeValue(data.id[16..]) == next
    ensures Numbered(mail + [data, fin], (next + 1) % (U64_MAX + 1))
  {
    var k, m := |mail| / 2, mail + [data, fin];
    NextNumber(k);
    assert m[2 * k] == data && m[2 * k + 1] == fin;
    forall j | 0 <= j < |m| / 2
      ensures StreamAt(m, j)
    {
      if j < k {
        StreamStays(mail, [data, fin], j);
      }
    }
  }

  lemma {:induction false} StreamingNumbers(cfg: Setup, n: Node, height: U64, round: Round, bytes: WireBytes)
    requires cfg.validators != [] && Numbered(n.published, n.nextStreamId)
    ensures var m := Streaming(cfg, n, height, round, bytes); Numbered(m.published, m.nextStreamId)
  {
    var m := Streaming(cfg, n, height, round, bytes);
    var data, fin := m.published[|n.published|], m.published[|n.published| + 1];
    StreamIdLayout(height, round, n.nextStreamId);
    assert m.published == n.published + [data, fin];
    OneMoreStream(n.published, n.nextStreamId, data, fin);
  }

  /** Only a proposal sends anything. */
  lemma {:induction false} OthersSendNothing(cfg: Setup, n: Node, msg: AppMsg)
    requires cfg.validators != [] && !msg.GetValue?
    ensures Handle(cfg, n, msg).published == n.published && Handle(cfg, n, msg).nextStreamId == n.nextStreamId
  {
  }

  lemma {:induction false} AskingNumbers(cfg: Setup, n: Node, height: U64, round: Round)
    requires cfg.validators != [] && Numbered(n.published, n.nextStreamId)
    ensures var m := OnGetValue(cfg, n, height, round); Numbered(m.published, m.nextStreamId)
  {
    var (bridge, built) := BridgeRuns.BuildPayload(cfg.spec, n.bridge, n.currentParent, DEFAULT_TIMESTAMP);
    if built.Ok? {
      var b := n.(bridge := bridge);
      if Ready(bridge.chain, built.value).Ok? && Encode(bridge.chain, built.value).Ok? {
        var o := Offering(b, height, round, Ready(bridge.chain, built.value).value);
        StreamingNumbers(cfg, o, height, round, Encode(bridge.chain, built.value).value);
      }
    }
  }

  lemma {:induction false} AllNumbered(cfg: Setup, n: Node, inbox: seq<AppMsg>)
    requires cfg.validators != [] && Numbered(n.published, n.nextStreamId)
    ensures var m := HandleAll(cfg, n, inbox); Numbered(m.published, m.nextStreamId)
    decreases |inbox|
  {
    if inbox != [] && n.status == Running {
      if inbox[0].GetValue? {
        AskingNumbers(cfg, n, inbox[0].height, inbox[0].round);
      } else {
        OthersSendNothing(cfg, n, inbox[0]);
      }
      AllNumbered(cfg, Handle(cfg, n, inbox[0]), inbox[1..]);
    }
  }

  lemma {:induction false} NumbersDiffer(mail: seq<StreamMessage>, next: U64, j: nat, k: nat)
    requires Numbered(mail, next) && j < k <= U64_MAX && k < |mail| / 2
    ensures StreamAt(mail, j) && StreamAt(mail, k)
    ensures mail[2 * j].id == mail[2 * j + 1].id != mail[2 * k].id == mail[2 * k + 1].id
  {
    assert StreamAt(mail, j) && StreamAt(mail, k);
    assert BeValue(mail[2 * j].id[16..]) == j && BeValue(mail[2 * k].id[16..]) == k;
  }

  /** Over any inbox, no two of the first 2^64 streams of a process share an id, so
      that a peer never mixes up their parts. */
  lemma {:induction false} StreamsNeverShareAnId(
      cfg: Setup, bridge: BridgeRuns.BridgeState, parent: Hash, height: U64, inbox: seq<AppMsg>, j: nat, k: nat)
    requires cfg.validators != [] && j < k <= U64_MAX
    requires k < |HandleAll(cfg, Start(bridge, parent, height), inbox).published| / 2
    ensures var mail := HandleAll(cfg, Start(bridge, parent, height), inbox).published;
            && |mail| % 2 == 0 && StreamAt(mail, j) && StreamAt(mail, k)
            && mail[2 * j].id == mail[2 * j + 1].id != mail[2 * k].id == mail[2 * k + 1].id
  {
    AllNumbered(cfg, Start(bridge, parent, height), inbox);
    var m := HandleAll(cfg, Start(bridge, parent, height), inbox);
    NumbersDiffer(m.published, m.nextStreamId, j, k);
  }
}
