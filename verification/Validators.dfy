/** The canonical validator order and the rotation of proposers over it. */
module Validators {
  import opened Machine
  import opened Signing
  import opened Sorting

  type PublicKey = nat

  datatype Validator = Validator(address: Address, publicKey: PublicKey, votingPower: U64)

  /** Byte arrays compare lexicographically. */
  predicate LexAtMost(a: Bytes, b: Bytes) {
    a == [] || (b != [] && (a[0] < b[0] || (a[0] == b[0] && LexAtMost(a[1..], b[1..]))))
  }

  /** More voting power first, lower address on ties. */
  predicate Precedes(a: Validator, b: Validator) {
    a.votingPower > b.votingPower || (a.votingPower == b.votingPower && LexAtMost(a.address, b.address))
  }

  /** The set is its sorted list. */
  function NewSet(validators: seq<Validator>): seq<Validator> { Sort(validators, Precedes) }

  lemma {:induction false} LexTotal(a: Bytes, b: Bytes)
    ensures LexAtMost(a, b) || LexAtMost(b, a)
    ensures LexAtMost(a, b) && LexAtMost(b, a) ==> a == b
  {
    if a != [] && b != [] {
      LexTotal(a[1..], b[1..]);
      assert a == [a[0]] + a[1..] && b == [b[0]] + b[1..];
    }
  }

  lemma {:induction false} LexTransitive(a: Bytes, b: Bytes, c: Bytes)
    requires LexAtMost(a, b) && LexAtMost(b, c)
    ensures LexAtMost(a, c)
  {
    if a != [] && a[0] == b[0] && b[0] == c[0] {
      LexTransitive(a[1..], b[1..], c[1..]);
    }
  }

  lemma PrecedesIsTotal()
    ensures TotalPreorder(Precedes)
  {
    forall a, b
      ensures Precedes(a, b) || Precedes(b, a)
    {
      LexTotal(a.address, b.address);
    }
    forall a, b, c | Precedes(a, b) && Precedes(b, c)
      ensures Precedes(a, c)
    {
      if a.votingPower == c.votingPower {
        LexTransitive(a.address, b.address, c.address);
      }
    }
  }

  ghost predicate DistinctAddresses(vs: seq<Validator>) {
    forall a, b :: a in vs && b in vs && a.address == b.address ==> a == b
  }

  /** Nodes that list the same validators in different orders build equal sets. */
  lemma SetIgnoresOrder(xs: seq<Validator>, ys: seq<Validator>)
    requires multiset(xs) == multiset(ys) && DistinctAddresses(xs)
    ensures NewSet(xs) == NewSet(ys)
    ensures Sorted(NewSet(xs), Precedes) && multiset(NewSet(xs)) == multiset(xs)
  {
    PrecedesIsTotal();
    forall a, b | a in xs && b in xs && Precedes(a, b) && Precedes(b, a)
      ensures a == b
    {
      LexTotal(a.address, b.address);
    }
    SortIgnoresOrder(xs, ys, Precedes);
    SortCorrect(xs, Precedes);
  }

  /** Of two addresses of one length the lower is the one with the lower byte where
      they first differ. */
  lemma {:induction false} LexMeaning(a: Bytes, b: Bytes, k: nat)
    requires k < |a| == |b| && a[..k] == b[..k] && a[k] != b[k]
    ensures LexAtMost(a, b) <==> a[k] < b[k]
    decreases k
  {
    if k > 0 {
      assert a[0] == a[..k][0] && b[0] == b[..k][0];
      assert a[1..][..k - 1] == a[..k][1..] && b[1..][..k - 1] == b[..k][1..];
      LexMeaning(a[1..], b[1..], k - 1);
    }
  }

  /** The set lists more voting power first and, at equal power, lower addresses. */
  lemma {:induction false} SetOrder(vs: seq<Validator>, i: nat, j: nat)
    requires i < j < |NewSet(vs)|
    ensures var a, b := NewSet(vs)[i], NewSet(vs)[j];
            a.votingPower > b.votingPower || (a.votingPower == b.votingPower && LexAtMost(a.address, b.address))
  {
    PrecedesIsTotal();
    SortCorrect(vs, Precedes);
    assert Precedes(NewSet(vs)[i], NewSet(vs)[j]);
  }

  // --------------------------------------------------------------- rotation

  const U64_MOD := U64_MAX + 1

  /** Height plus round in wrapping u64 arithmetic; a nil round counts as zero. */
  function ProposerIndex(height: U64, round: Round, count: nat): nat
    requires count > 0
  {
    (height + Max(round.AsI64(), 0)) % U64_MOD % count
  }

  function SelectProposer(validators: seq<Validator>, height: U64, round: Round): Validator
    requires validators != []
  {
    validators[ProposerIndex(height, round, |validators|)]
  }

  /** Every node of a network picks the same proposer, and it is a validator. */
  lemma SameProposer(xs: seq<Validator>, ys: seq<Validator>, height: U64, round: Round)
    requires multiset(xs) == multiset(ys) && DistinctAddresses(xs) && xs != []
    ensures NewSet(xs) != [] && NewSet(ys) != []
    ensures SelectProposer(NewSet(xs), height, round) == SelectProposer(NewSet(ys), height, round)
    ensures SelectProposer(NewSet(xs), height, round) in xs
  {
    SetIgnoresOrder(xs, ys);
    PrecedesIsTotal();
    SortCorrect(xs, Precedes);
    assert SelectProposer(NewSet(xs), height, round) in multiset(NewSet(xs));
  }

  /** Round r at height h is the turn of height h + r, no round is round 0, and without
      a round the heights count the validators off in their order. */
  lemma {:induction false} RoundsShiftHeights(h: U64, r: U32, count: nat)
    requires count > 0 && h + r <= U64_MAX
    ensures ProposerIndex(h, Round(r), count) == (h + r) % count
    ensures ProposerIndex(h, Nil, count) == h % count
  {
    UniqueModulus(h + r, U64_MOD, 0, h + r);
    UniqueModulus(h, U64_MOD, 0, h);
  }

  /** The proposer k heights after h. */
  function Turn(h: nat, k: nat, round: Round, n: nat): nat
    requires n > 0 && h + k <= U64_MAX
  {
    ProposerIndex(h + k, round, n)
  }

  /** In n consecutive heights from h every one of n validators has its turn, and
      none has two. */
  ghost predicate EachOnce(h: nat, round: Round, n: nat)
    requires n > 0 && h + n - 1 <= U64_MAX
  {
    && (forall j :: 0 <= j < n ==> HasTurn(h, round, n, j))
    && (forall k, l :: 0 <= k < l < n ==> Turn(h, k, round, n) != Turn(h, l, round, n))
  }

  ghost predicate HasTurn(h: nat, round: Round, n: nat, j: nat)
    requires n > 0 && h + n - 1 <= U64_MAX
  {
    exists k :: 0 <= k < n && Turn(h, k, round, n) == j
  }

  /** The sum of height and round passes the largest u64 inside the window. */
  predicate WrapsInside(h: nat, round: Round, n: nat) {
    var x := h + Max(round.AsI64(), 0);
    x <= U64_MAX < x + n - 1
  }

  lemma UniqueModulus(a: int, n: int, q: int, r: int)
    requires n > 0 && a == q * n + r && 0 <= r < n
    ensures a % n == r
  {
    var p := a / n;
    assert a == p * n + a % n;
    assert (q + 1) * n == q * n + n && (p + 1) * n == p * n + n;
    if q < p {
      MulMono(q + 1, p, n);
    } else if p < q {
      MulMono(p + 1, q, n);
    }
  }

  /** Consecutive numbers take every remainder once. */
  lemma ConsecutiveRemainders(x: int, n: int, k: int, l: int)
    requires n > 0 && 0 <= k < l < n
    ensures (x + k) % n != (x + l) % n
  {
    var a, b := (x + k) / n, (x + l) / n;
    assert x + k == a * n + (x + k) % n && x + l == b * n + (x + l) % n;
    assert (a + 1) * n == a * n + n;
    if b <= a {
      MulMono(b, a, n);
    } else {
      MulMono(a + 1, b, n);
    }
  }

  lemma RemainderReached(x: int, n: int, j: int) returns (k: int)
    requires 0 <= j < n
    ensures 0 <= k < n && (x + k) % n == j
  {
    var d, r := x / n, x % n;
    assert x == d * n + r && (d + 1) * n == d * n + n;
    k := if j >= r then j - r else j - r + n;
    UniqueModulus(x + k, n, if j >= r then d else d + 1, j);
  }

  lemma DropMultiple(y: int, m: int, n: int)
    requires n > 0 && m % n == 0
    ensures (y - m) % n == y % n
  {
    var d, q := (y - m) / n, m / n;
    assert y - m == d * n + (y - m) % n && m == q * n;
    assert (d + q) * n == d * n + q * n;
    UniqueModulus(y, n, d + q, (y - m) % n);
  }

  /** The wrapping sum, as the sum or the sum less 2^64. */
  lemma WrappedSum(x: nat)
    requires x < 2 * U64_MOD
    ensures x % U64_MOD == if x > U64_MAX then x - U64_MOD else x
  {
    if x > U64_MAX {
      UniqueModulus(x, U64_MOD, 1, x - U64_MOD);
    } else {
      UniqueModulus(x, U64_MOD, 0, x);
    }
  }

  /** Where the sum does not wrap, or wraps without a seam, the index is the
      remainder of a number that grows with the height. */
  lemma IndexIsRemainder(h: nat, round: Round, n: nat, k: nat)
    requires 0 < n && k < n && h + n - 1 <= U64_MAX
    requires !WrapsInside(h, round, n) || U64_MOD % n == 0
    ensures Turn(h, k, round, n) == (Base(h, round) + k) % n
  {
    var x := h + Max(round.AsI64(), 0);
    WrappedSum(x + k);
    assert Turn(h, k, round, n) == (x + k) % U64_MOD % n;
    if x <= U64_MAX < x + k {
      DropMultiple(x + k, U64_MOD, n);
    }
  }

  function Base(h: nat, round: Round): int {
    var x := h + Max(round.AsI64(), 0);
    if x > U64_MAX then x - U64_MOD else x
  }

  /** The rotation is fair exactly when the wrap-around is not inside the window,
      or the number of validators divides 2^64 so that it leaves no seam. */
  lemma FairRotation(h: nat, round: Round, n: nat)
    requires n > 0 && h + n - 1 <= U64_MAX
    ensures EachOnce(h, round, n) <==> !WrapsInside(h, round, n) || U64_MOD % n == 0
  {
    if !WrapsInside(h, round, n) || U64_MOD % n == 0 {
      var base := Base(h, round);
      forall j | 0 <= j < n
        ensures HasTurn(h, round, n, j)
      {
        var k := RemainderReached(base, n, j);
        IndexIsRemainder(h, round, n, k);
      }
      forall k, l | 0 <= k < l < n
        ensures Turn(h, k, round, n) != Turn(h, l, round, n)
      {
        IndexIsRemainder(h, round, n, k);
        IndexIsRemainder(h, round, n, l);
        ConsecutiveRemainders(base, n, k, l);
      }
    } else {
      SeamIsUnfair(h, round, n);
    }
  }

  /** The index k heights after h when the sum wraps at offset c. */
  lemma TurnAroundWrap(h: nat, round: Round, n: nat, k: nat)
    requires n > 0 && k < n && h + n - 1 <= U64_MAX && WrapsInside(h, round, n)
    ensures var x := h + Max(round.AsI64(), 0);
            Turn(h, k, round, n) == if x + k <= U64_MAX then (x + k) % n else x + k - U64_MOD
  {
    var x := h + Max(round.AsI64(), 0);
    if x + k > U64_MAX {
      UniqueModulus(x + k - U64_MOD, n, 0, x + k - U64_MOD);
    }
  }

  /** At a seam either the last validator is skipped or the first has two turns. */
  lemma SeamIsUnfair(h: nat, round: Round, n: nat)
    requires n > 0 && h + n - 1 <= U64_MAX && WrapsInside(h, round, n) && U64_MOD % n != 0
    ensures !EachOnce(h, round, n)
  {
    var x := h + Max(round.AsI64(), 0);
    var c, q, d := U64_MOD - x, U64_MOD % n, U64_MOD / n;
    assert U64_MOD == d * n + q;
    if q < c {
      UniqueModulus(x + (c - q), n, d, 0);
      TurnAroundWrap(h, round, n, c - q);
      TurnAroundWrap(h, round, n, c);
      assert Turn(h, c - q, round, n) == Turn(h, c, round, n);
    } else {
      forall k | 0 <= k < n
        ensures Turn(h, k, round, n) != n - 1
      {
        TurnAroundWrap(h, round, n, k);
        if k < c {
          UniqueModulus(x + k, n, d, q - c + k);
        }
      }
      assert !HasTurn(h, round, n, n - 1);
    }
  }

  /** Three validators, height 2^64 - 3, round 1: the window crosses a seam. */
  lemma ThreeAtTheSeam()
    ensures !EachOnce(U64_MAX - 2, Round(1), 3)
  {
    assert U64_MOD % 3 == 1;
    FairRotation(U64_MAX - 2, Round(1), 3);
  }
}
