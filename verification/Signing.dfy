/** The bytes that votes, proposals and stream ids are reduced to. Two messages
    with the same bytes are the same message. */
module Signing {
  import opened Machine

  type Bytes = seq<U8>

  type BlockHash = s: Bytes | |s| == 32 witness seq(32, _ => 0)

  type Address = s: Bytes | |s| == 20 witness seq(20, _ => 0)

  datatype Round = Nil | Round(number: U32) {
    function AsI64(): I64 { if Nil? then -1 else number }
  }

  datatype NilOrVal = NilValue | Val(hash: BlockHash)

  datatype VoteType = Prevote | Precommit

  datatype Vote = Vote(height: U64, round: Round, valueId: NilOrVal, voteType: VoteType, address: Address)

  datatype Proposal = Proposal(height: U64, round: Round, value: BlockHash, polRound: Round, address: Address)

  // --------------------------------------------------------------- integers

  function Pow256(n: nat): nat { if n == 0 then 1 else 256 * Pow256(n - 1) }

  function LeBytes(n: nat, v: nat): (b: Bytes)
    ensures |b| == n
  {
    if n == 0 then [] else [v % 256] + LeBytes(n - 1, v / 256)
  }

  function BeBytes(n: nat, v: nat): (b: Bytes)
    ensures |b| == n
  {
    if n == 0 then [] else BeBytes(n - 1, v / 256) + [v % 256]
  }

  /** The bit pattern of an i64, read as unsigned. */
  function Unsigned(v: I64): U64 { if v < 0 then v + U64_MAX + 1 else v }

  lemma {:induction false} LeInjective(n: nat, x: nat, y: nat)
    requires x < Pow256(n) && y < Pow256(n) && LeBytes(n, x) == LeBytes(n, y)
    ensures x == y
  {
    if n > 0 {
      Peel([x % 256], LeBytes(n - 1, x / 256), [y % 256], LeBytes(n - 1, y / 256));
      assert [x % 256][0] == [y % 256][0];
      LeInjective(n - 1, x / 256, y / 256);
    }
  }

  lemma {:induction false} BeInjective(n: nat, x: nat, y: nat)
    requires x < Pow256(n) && y < Pow256(n) && BeBytes(n, x) == BeBytes(n, y)
    ensures x == y
  {
    if n > 0 {
      Peel(BeBytes(n - 1, x / 256), [x % 256], BeBytes(n - 1, y / 256), [y % 256]);
      assert [x % 256][0] == [y % 256][0];
      BeInjective(n - 1, x / 256, y / 256);
    }
  }

  /** The number a little-endian byte string stands for. */
  function LeValue(b: Bytes): nat { if b == [] then 0 else b[0] + 256 * LeValue(b[1..]) }

  /** The number a big-endian byte string stands for. */
  function BeValue(b: Bytes): nat { if b == [] then 0 else 256 * BeValue(b[..|b| - 1]) + b[|b| - 1] }

  lemma {:induction false} LeRoundTrip(n: nat, v: nat)
    requires v < Pow256(n)
    ensures LeValue(LeBytes(n, v)) == v
  {
    if n > 0 {
      LeRoundTrip(n - 1, v / 256);
      assert LeBytes(n, v)[1..] == LeBytes(n - 1, v / 256);
    }
  }

  lemma {:induction false} BeRoundTrip(n: nat, v: nat)
    requires v < Pow256(n)
    ensures BeValue(BeBytes(n, v)) == v
  {
    if n > 0 {
      BeRoundTrip(n - 1, v / 256);
      assert BeBytes(n, v)[..n - 1] == BeBytes(n - 1, v / 256);
    }
  }

  lemma EightBytesHoldU64()
    ensures Pow256(8) == U64_MAX + 1
  {
    assert Pow256(2) == 0x1_0000;
    assert Pow256(4) == 0x1_0000_0000;
    assert Pow256(6) == 0x1_0000_0000_0000;
  }

  /** Two concatenations that split at the same place agree on both sides. */
  lemma Peel<T>(a: seq<T>, b: seq<T>, c: seq<T>, d: seq<T>)
    requires |a| == |c| && a + b == c + d
    ensures a == c && b == d
  {
    assert a == (a + b)[..|a|] && c == (c + d)[..|c|];
    assert b == (a + b)[|a|..] && d == (c + d)[|c|..];
  }

  // --------------------------------------------------------------- messages

  function RoundBytes(r: Round): (b: Bytes)
    ensures |b| == 8
  {
    LeBytes(8, Unsigned(r.AsI64()))
  }

  function ValueBytes(v: NilOrVal): Bytes { if v.NilValue? then [0] else [1] + v.hash }

  function TypeByte(t: VoteType): U8 { if t.Prevote? then 0 else 1 }

  function VoteBytes(v: Vote): Bytes {
    LeBytes(8, v.height) + (RoundBytes(v.round) + ([TypeByte(v.voteType)] + (ValueBytes(v.valueId) + v.address)))
  }

  function ProposalBytes(p: Proposal): Bytes {
    LeBytes(8, p.height) + (RoundBytes(p.round) + (p.value + (RoundBytes(p.polRound) + p.address)))
  }

  method VoteSigningBytes(v: Vote) returns (buf: Bytes)
    ensures buf == VoteBytes(v)
    ensures |buf| == if v.valueId.NilValue? then 38 else 70
  {
    buf := LeBytes(8, v.height);
    buf := buf + LeBytes(8, Unsigned(v.round.AsI64()));
    buf := buf + [if v.voteType.Prevote? then 0 else 1];
    match v.valueId {
      case NilValue => buf := buf + [0];
      case Val(hash) =>
        buf := buf + [1];
        buf := buf + hash;
    }
    buf := buf + v.address;
  }

  method ProposalSigningBytes(p: Proposal) returns (buf: Bytes)
    ensures buf == ProposalBytes(p) && |buf| == 76
  {
    buf := LeBytes(8, p.height);
    buf := buf + LeBytes(8, Unsigned(p.round.AsI64()));
    buf := buf + p.value;
    buf := buf + LeBytes(8, Unsigned(p.polRound.AsI64()));
    buf := buf + p.address;
  }

  lemma RoundInjective(x: Round, y: Round)
    requires RoundBytes(x) == RoundBytes(y)
    ensures x == y
  {
    EightBytesHoldU64();
    LeInjective(8, Unsigned(x.AsI64()), Unsigned(y.AsI64()));
  }

  lemma HeightInjective(x: U64, y: U64)
    requires LeBytes(8, x) == LeBytes(8, y)
    ensures x == y
  {
    EightBytesHoldU64();
    LeInjective(8, x, y);
  }

  lemma ValueInjective(x: NilOrVal, a: Address, y: NilOrVal, b: Address)
    requires ValueBytes(x) + a == ValueBytes(y) + b
    ensures x == y && a == b
  {
    assert |ValueBytes(x) + a| == |ValueBytes(y) + b|;
    Peel(ValueBytes(x), a, ValueBytes(y), b);
    if x.Val? {
      Peel([1], x.hash, [1], y.hash);
    }
  }

  /** Vote signing bytes determine the vote. */
  lemma VoteBytesInjective(v: Vote, w: Vote)
    ensures VoteBytes(v) == VoteBytes(w) <==> v == w
  {
    if VoteBytes(v) == VoteBytes(w) {
      var v1, w1 := ValueBytes(v.valueId) + v.address, ValueBytes(w.valueId) + w.address;
      var v2, w2 := [TypeByte(v.voteType)] + v1, [TypeByte(w.voteType)] + w1;
      Peel(LeBytes(8, v.height), RoundBytes(v.round) + v2, LeBytes(8, w.height), RoundBytes(w.round) + w2);
      Peel(RoundBytes(v.round), v2, RoundBytes(w.round), w2);
      Peel([TypeByte(v.voteType)], v1, [TypeByte(w.voteType)], w1);
      assert [TypeByte(v.voteType)][0] == [TypeByte(w.voteType)][0];
      HeightInjective(v.height, w.height);
      RoundInjective(v.round, w.round);
      ValueInjective(v.valueId, v.address, w.valueId, w.address);
    }
  }

  /** Proposal signing bytes determine the proposal. */
  lemma ProposalBytesInjective(p: Proposal, q: Proposal)
    ensures ProposalBytes(p) == ProposalBytes(q) <==> p == q
  {
    if ProposalBytes(p) == ProposalBytes(q) {
      var p1, q1 := RoundBytes(p.polRound) + p.address, RoundBytes(q.polRound) + q.address;
      Peel(LeBytes(8, p.height), RoundBytes(p.round) + (p.value + p1),
           LeBytes(8, q.height), RoundBytes(q.round) + (q.value + q1));
      Peel(RoundBytes(p.round), p.value + p1, RoundBytes(q.round), q.value + q1);
      Peel(p.value, p1, q.value, q1);
      Peel(RoundBytes(p.polRound), p.address, RoundBytes(q.polRound), q.address);
      HeightInjective(p.height, q.height);
      RoundInjective(p.round, q.round);
      RoundInjective(p.polRound, q.polRound);
    }
  }

  /** No signature can stand for both a vote and a proposal. */
  lemma {:induction false} VoteIsNoProposal(v: Vote, p: Proposal)
    ensures VoteBytes(v) != ProposalBytes(p)
  {
    assert |VoteBytes(v)| <= 70 && |ProposalBytes(p)| == 76;
  }

  // -------------------------------------------------------------- stream ids

  function StreamIdBytes(height: U64, round: Round, counter: U64): Bytes {
    BeBytes(8, height) + (BeBytes(8, Unsigned(round.AsI64())) + BeBytes(8, counter))
  }

  /** The counter alone already keeps one validator's stream ids apart. */
  lemma StreamIdsDistinct(h1: U64, r1: Round, c1: U64, h2: U64, r2: Round, c2: U64)
    requires StreamIdBytes(h1, r1, c1) == StreamIdBytes(h2, r2, c2)
    ensures h1 == h2 && r1 == r2 && c1 == c2
  {
    var x, y := Unsigned(r1.AsI64()), Unsigned(r2.AsI64());
    Peel(BeBytes(8, h1), BeBytes(8, x) + BeBytes(8, c1), BeBytes(8, h2), BeBytes(8, y) + BeBytes(8, c2));
    Peel(BeBytes(8, x), BeBytes(8, c1), BeBytes(8, y), BeBytes(8, c2));
    EightBytesHoldU64();
    BeInjective(8, h1, h2);
    BeInjective(8, x, y);
    BeInjective(8, c1, c2);
  }

  // ------------------------------------------------------------------ layout

  /** The number a round is sent as: no round is minus one in two's complement. */
  function RoundNumber(r: Round): U64 { if r.Nil? then U64_MAX else r.number }

  lemma {:induction false} NumberLayout(v: U64)
    ensures LeValue(LeBytes(8, v)) == v && BeValue(BeBytes(8, v)) == v
  {
    EightBytesHoldU64();
    LeRoundTrip(8, v);
    BeRoundTrip(8, v);
  }

  lemma {:induction false} RoundLayout(r: Round)
    ensures LeValue(RoundBytes(r)) == RoundNumber(r) && BeValue(BeBytes(8, Unsigned(r.AsI64()))) == RoundNumber(r)
  {
    NumberLayout(Unsigned(r.AsI64()));
  }

  /** What stands at position i of b, and what behind it. */
  lemma {:induction false} FieldAt(b: Bytes, i: nat, field: Bytes, rest: Bytes)
    requires i <= |b| && b[i..] == field + rest
    ensures i + |field| <= |b| && b[i..i + |field|] == field && b[i + |field|..] == rest
  {
    assert b[i..i + |field|] == b[i..][..|field|] && b[i + |field|..] == b[i..][|field|..];
  }

  /** Where everything is in a vote's bytes: height and round little-endian, the type,
      whether there is a value, the value, and the address. */
  lemma {:induction false} VoteLayout(v: Vote)
    ensures var b := VoteBytes(v);
            && |b| == (if v.valueId.NilValue? then 38 else 70)
            && LeValue(b[..8]) == v.height && LeValue(b[8..16]) == RoundNumber(v.round)
            && b[16] == (if v.voteType.Prevote? then 0 else 1)
            && (if v.valueId.NilValue? then b[17] == 0 && b[18..] == v.address
                else b[17] == 1 && b[18..50] == v.valueId.hash && b[50..] == v.address)
  {
    NumberLayout(v.height);
    RoundLayout(v.round);
    var b, tail := VoteBytes(v), ValueBytes(v.valueId) + v.address;
    assert b[0..] == b;
    FieldAt(b, 0, LeBytes(8, v.height), RoundBytes(v.round) + ([TypeByte(v.voteType)] + tail));
    FieldAt(b, 8, RoundBytes(v.round), [TypeByte(v.voteType)] + tail);
    VoteTail(v, b);
  }

  lemma {:induction false} VoteTail(v: Vote, b: Bytes)
    requires |b| >= 16 && b[16..] == [TypeByte(v.voteType)] + (ValueBytes(v.valueId) + v.address)
    ensures |b| == (if v.valueId.NilValue? then 38 else 70)
    ensures b[16] == (if v.voteType.Prevote? then 0 else 1)
    ensures if v.valueId.NilValue? then b[17] == 0 && b[18..] == v.address
            else b[17] == 1 && b[18..50] == v.valueId.hash && b[50..] == v.address
  {
    FieldAt(b, 16, [TypeByte(v.voteType)], ValueBytes(v.valueId) + v.address);
    FieldAt(b, 17, ValueBytes(v.valueId), v.address);
    assert b[16] == b[16..17][0] && b[17] == b[17..][0];
    if v.valueId.Val? {
      assert b[17..] == [1] + (v.valueId.hash + v.address);
      FieldAt(b, 17, [1], v.valueId.hash + v.address);
      FieldAt(b, 18, v.valueId.hash, v.address);
    }
  }

  /** Where everything is in a proposal's bytes. */
  lemma {:induction false} ProposalLayout(p: Proposal)
    ensures var b := ProposalBytes(p);
            && |b| == 76 && LeValue(b[..8]) == p.height && LeValue(b[8..16]) == RoundNumber(p.round)
            && b[16..48] == p.value && LeValue(b[48..56]) == RoundNumber(p.polRound) && b[56..] == p.address
  {
    NumberLayout(p.height);
    RoundLayout(p.round);
    RoundLayout(p.polRound);
    var b, tail := ProposalBytes(p), RoundBytes(p.polRound) + p.address;
    assert b[0..] == b;
    FieldAt(b, 0, LeBytes(8, p.height), RoundBytes(p.round) + (p.value + tail));
    FieldAt(b, 8, RoundBytes(p.round), p.value + tail);
    FieldAt(b, 16, p.value, tail);
    FieldAt(b, 48, RoundBytes(p.polRound), p.address);
  }

  lemma {:induction false} StreamIdFields(height: U64, round: Round, counter: U64)
    ensures var b := StreamIdBytes(height, round, counter);
            && |b| == 24 && b[..8] == BeBytes(8, height) && b[8..16] == BeBytes(8, Unsigned(round.AsI64()))
            && b[16..] == BeBytes(8, counter)
  {
    var b, number := StreamIdBytes(height, round, counter), BeBytes(8, Unsigned(round.AsI64()));
    assert b[0..] == b;
    FieldAt(b, 0, BeBytes(8, height), number + BeBytes(8, counter));
    FieldAt(b, 8, number, BeBytes(8, counter));
  }

  /** Where everything is in a stream id: height, round and counter, big-endian. */
  lemma {:induction false} StreamIdLayout(height: U64, round: Round, counter: U64)
    ensures var b := StreamIdBytes(height, round, counter);
            && |b| == 24 && BeValue(b[..8]) == height && BeValue(b[8..16]) == RoundNumber(round)
            && BeValue(b[16..]) == counter
  {
    StreamIdFields(height, round, counter);
    NumberLayout(height);
    NumberLayout(counter);
    RoundLayout(round);
  }
}
