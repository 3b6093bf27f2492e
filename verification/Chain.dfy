/** The bridge's view of the chain: payloads in flight, committed headers and
    the head. The real payload builder is not part of this model; headers are
    the ones the bridge synthesizes. */
module Chain {
  import opened Machine
  import opened OrderedMaps
  import opened Clob

  type Hash = nat

  datatype Header = Header(parentHash: Hash, number: nat, timestamp: nat, gasLimit: nat, baseFee: nat)

  /** What the bridge is given: the block hash, the chain specification's base
      fee rule, and the provider's only block, genesis. */
  datatype ChainSpec = ChainSpec(hashOf: Header -> Hash, nextBaseFee: (Header, nat) -> nat, genesis: Header)

  ghost predicate Injective(spec: ChainSpec) {
    forall a, b :: spec.hashOf(a) == spec.hashOf(b) ==> a == b
  }

  datatype PendingPayload = PendingPayload(hash: Hash, header: Header, fills: seq<Fill>)

  datatype ExecutedBlock = ExecutedBlock(hash: Hash, parentHash: Hash, number: nat, timestamp: nat)

  /** What a proposer ships: the header and the block view it computed. */
  datatype ProposedBlockWire = ProposedBlockWire(header: Header, block: ExecutedBlock)

  /** What arrives over the network: bytes that decode, or bytes that do not. */
  datatype WireBytes = Json(wire: ProposedBlockWire) | Garbage

  datatype BridgeError = Rejected

  datatype ChainState = ChainState(
    nextPayloadId: nat, pending: map<nat, PendingPayload>, chain: map<Hash, Header>, head: Option<Hash>)

  const FRESH := ChainState(0, map[], map[], None)

  function View(p: PendingPayload): ExecutedBlock {
    ExecutedBlock(p.hash, p.header.parentHash, p.header.number, p.header.timestamp)
  }

  /** Committed blocks first, then the provider. */
  function ParentHeader(spec: ChainSpec, c: ChainState, parent: Hash): Option<Header> {
    if parent in c.chain then Some(c.chain[parent])
    else if parent == spec.hashOf(spec.genesis) then Some(spec.genesis)
    else None
  }

  /** The header built on a parent: one number up, a strictly later time. */
  function Child(spec: ChainSpec, parentHash: Hash, parent: Header, timestamp: nat): Header {
    var t := Max(timestamp, parent.timestamp + 1);
    Header(parentHash, parent.number + 1, t, parent.gasLimit, spec.nextBaseFee(parent, t))
  }

  function Insert(c: ChainState, p: PendingPayload): ChainState {
    c.(nextPayloadId := c.nextPayloadId + 1, pending := c.pending[c.nextPayloadId := p])
  }

  /** `build_payload`: returns the new state and the payload id. */
  function Build(spec: ChainSpec, c: ChainState, parent: Hash, timestamp: nat, drained: seq<Fill>)
    : Result<(ChainState, nat), BridgeError>
  {
    match ParentHeader(spec, c, parent)
    case None => Err(Rejected)
    case Some(h) =>
      var header := Child(spec, parent, h, timestamp);
      Ok((Insert(c, PendingPayload(spec.hashOf(header), header, drained)), c.nextPayloadId))
  }

  function Ready(c: ChainState, id: nat): Result<ExecutedBlock, BridgeError> {
    if id in c.pending then Ok(View(c.pending[id])) else Err(Rejected)
  }

  function Encode(c: ChainState, id: nat): (r: Result<WireBytes, BridgeError>)
    ensures r.Ok? ==> r.value.Json?
  {
    if id in c.pending then Ok(Json(ProposedBlockWire(c.pending[id].header, View(c.pending[id])))) else Err(Rejected)
  }

  /** The bytes decode, and the header hashes to the hash claimed for it. */
  predicate Acceptable(spec: ChainSpec, bytes: WireBytes) {
    bytes.Json? && spec.hashOf(bytes.wire.header) == bytes.wire.block.hash
  }

  /** `register_proposed_block`: decode, re-hash the header, refuse a wrong claim;
      the rest of the block view is taken as it comes. */
  function Register(spec: ChainSpec, c: ChainState, bytes: WireBytes)
    : Result<(ChainState, ExecutedBlock), BridgeError>
  {
    match bytes
    case Garbage => Err(Rejected)
    case Json(wire) =>
      var computed := spec.hashOf(wire.header);
      if computed != wire.block.hash then Err(Rejected)
      else Ok((Insert(c, PendingPayload(computed, wire.header, [])), wire.block))
  }

  function IdsOf(c: ChainState, hash: Hash): set<nat> { set id | id in c.pending && c.pending[id].hash == hash }

  /** `commit`: find a pending payload with this hash and make it the head. */
  function Commit(c: ChainState, hash: Hash): Result<ChainState, BridgeError> {
    var ids := IdsOf(c, hash);
    if ids == {} then Err(Rejected)
    else Ok(c.(chain := c.chain[hash := c.pending[First(false, ids)].header], head := Some(hash)))
  }

  // ------------------------------------------------------------ invariants

  /** Every stored header sits under its own hash, and payload ids are fresh. */
  ghost predicate Sound(spec: ChainSpec, c: ChainState) {
    && (forall id :: id in c.pending ==>
          id < c.nextPayloadId && c.pending[id].hash == spec.hashOf(c.pending[id].header))
    && (forall h :: h in c.chain ==> spec.hashOf(c.chain[h]) == h)
  }

  ghost predicate HasPending(spec: ChainSpec, c: ChainState, header: Header) {
    exists id :: id in c.pending && c.pending[id].header == header && c.pending[id].hash == spec.hashOf(header)
  }

  /** Nothing was committed, and every payload is still in flight. */
  ghost predicate Keeps(c: ChainState, d: ChainState) {
    && d.chain == c.chain && d.head == c.head
    && forall id :: id in c.pending ==> id in d.pending && d.pending[id] == c.pending[id]
  }

  lemma BuildSound(spec: ChainSpec, c: ChainState, parent: Hash, timestamp: nat, drained: seq<Fill>)
    requires Sound(spec, c) && ParentHeader(spec, c, parent).Some?
    ensures Build(spec, c, parent, timestamp, drained).Ok?
    ensures var (c', id) := Build(spec, c, parent, timestamp, drained).value;
            var header := Child(spec, parent, ParentHeader(spec, c, parent).value, timestamp);
            && Sound(spec, c') && Keeps(c, c') && HasPending(spec, c', header)
            && id in c'.pending && c'.pending[id] == PendingPayload(spec.hashOf(header), header, drained)
  {
    var r := Build(spec, c, parent, timestamp, drained).value;
    InsertKeeps(spec, c, r.0.pending[r.1]);
  }

  lemma InsertKeeps(spec: ChainSpec, c: ChainState, p: PendingPayload)
    requires Sound(spec, c) && p.hash == spec.hashOf(p.header)
    ensures Sound(spec, Insert(c, p)) && Keeps(c, Insert(c, p)) && HasPending(spec, Insert(c, p), p.header)
  {
    assert Insert(c, p).pending[c.nextPayloadId] == p;
  }

  /** Acceptable bytes are registered, whoever sent them. */
  lemma RegisterSound(spec: ChainSpec, c: ChainState, bytes: WireBytes)
    requires Sound(spec, c) && Acceptable(spec, bytes)
    ensures Register(spec, c, bytes).Ok?
    ensures var (c', block) := Register(spec, c, bytes).value;
            && block == bytes.wire.block
            && Sound(spec, c') && Keeps(c, c') && HasPending(spec, c', bytes.wire.header)
  {
    InsertKeeps(spec, c, PendingPayload(bytes.wire.block.hash, bytes.wire.header, []));
  }

  /** A registered block is found by a later commit, whoever built it. */
  lemma CommitFinds(spec: ChainSpec, c: ChainState, header: Header)
    requires Injective(spec) && Sound(spec, c) && HasPending(spec, c, header)
    ensures var hash := spec.hashOf(header);
            Commit(c, hash) == Ok(c.(chain := c.chain[hash := header], head := Some(hash)))
    ensures Sound(spec, Commit(c, spec.hashOf(header)).value)
  {
    var hash := spec.hashOf(header);
    var id :| id in c.pending && c.pending[id].header == header && c.pending[id].hash == hash;
    assert id in IdsOf(c, hash);
    var first := First(false, IdsOf(c, hash));
    assert first in c.pending && c.pending[first].hash == hash;
  }

  /** What a proposer encodes, a follower registers as the very same block. */
  lemma EncodeRegisterRoundTrip(spec: ChainSpec, c: ChainState, id: nat, follower: ChainState)
    requires Sound(spec, c) && id in c.pending && Sound(spec, follower)
    ensures Encode(c, id).Ok?
    ensures var p := c.pending[id];
            var r := Register(spec, follower, Encode(c, id).value);
            && r.Ok? && r.value.1 == View(p) && Ready(c, id) == Ok(View(p))
            && Acceptable(spec, Encode(c, id).value)
            && Sound(spec, r.value.0) && Keeps(follower, r.value.0) && HasPending(spec, r.value.0, p.header)
  {
    RegisterSound(spec, follower, Encode(c, id).value);
  }

  lemma PendingIds(spec: ChainSpec, c: ChainState, header: Header)
    requires HasPending(spec, c, header)
    ensures IdsOf(c, spec.hashOf(header)) != {}
  {
    var id :| id in c.pending && c.pending[id].header == header && c.pending[id].hash == spec.hashOf(header);
    assert id in IdsOf(c, spec.hashOf(header));
  }

  lemma KeepsIds(c: ChainState, d: ChainState)
    requires Keeps(c, d)
    ensures forall h :: IdsOf(c, h) != {} ==> IdsOf(d, h) != {}
  {
    forall h | IdsOf(c, h) != {}
      ensures IdsOf(d, h) != {}
    {
      var id := First(false, IdsOf(c, h));
      assert id in IdsOf(d, h);
    }
  }

  /** A pending hash stands for the header that has it. */
  lemma PendingHeader(spec: ChainSpec, c: ChainState, header: Header)
    requires Injective(spec) && Sound(spec, c) && IdsOf(c, spec.hashOf(header)) != {}
    ensures HasPending(spec, c, header)
  {
    var id := First(false, IdsOf(c, spec.hashOf(header)));
    assert id in c.pending && spec.hashOf(c.pending[id].header) == spec.hashOf(header);
  }
}
