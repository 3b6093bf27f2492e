/** What every sequence of submits and cancels keeps, on the flat book. */
module BookRuns {
  import opened Machine
  import opened Clob

  lemma SubmitKeepsValid(b: FlatBook, o: Order)
    requires Valid(b)
    ensures Valid(Submit(b, o).0)
  {
    var maker := o.side.Opposite();
    var t := Take(o, b.On(maker), o.qty);
    TakeLeavesSuffix(o, b.On(maker), o.qty);
    var swept := b.With(maker, t.rest);
    SweepKeepsValid(b, maker, t.rest);
    if o.orderType.Limit? && t.left > 0 {
      TakeConsumesPrefix(o, b.On(maker), o.qty);
      RestKeepsValid(swept, o, t.left);
    }
  }

  lemma SweepKeepsValid(b: FlatBook, side: Side, r: seq<Entry>)
    requires Valid(b) && SuffixPrices(r, b.On(side))
    ensures Valid(b.With(side, r))
  {
    SuffixSorted(side, r, b.On(side));
  }

  lemma SuffixSorted(side: Side, r: seq<Entry>, s: seq<Entry>)
    requires SuffixPrices(r, s) && Sorted(side, s)
    ensures Sorted(side, r)
  {
  }

  /** A limit order that accepts nothing on the other side can rest. */
  lemma RestKeepsValid(b: FlatBook, o: Order, left: U64)
    requires Valid(b) && o.orderType.Limit? && left > 0
    requires Stops(o, b.On(o.side.Opposite()), left)
    ensures var e := Entry(o.orderType.price, RestingOrder(o.id, o.account, left));
            Valid(b.With(o.side, Enqueue(o.side, b.On(o.side), e)))
  {
    var s := b.On(o.side);
    var other := b.On(o.side.Opposite());
    var e := Entry(o.orderType.price, RestingOrder(o.id, o.account, left));
    AheadSplits(o.side, s, e.price);
    forall j | 0 <= j < |other|
      ensures !Accepts(o, other[j].price)
    {
      assert j == 0 || AtLeastAsGood(o.side.Opposite(), other[0].price, other[j].price);
    }
    InsertKeepsValid(b, o.side, e, Ahead(o.side, s, e.price));
    EnqueueAt(o.side, s, e);
  }

  lemma InsertKeepsValid(b: FlatBook, side: Side, e: Entry, n: nat)
    requires Valid(b) && n <= |b.On(side)| && e.order.qty > 0
    requires forall i :: 0 <= i < n ==> AtLeastAsGood(side, b.On(side)[i].price, e.price)
    requires forall i :: n <= i < |b.On(side)| ==> AtLeastAsGood(side, e.price, b.On(side)[i].price)
    requires var other := b.On(side.Opposite());
             forall j :: 0 <= j < |other| ==> AtLeastAsGood(side, other[j].price, e.price) && other[j].price != e.price
    ensures Valid(b.With(side, b.On(side)[..n] + [e] + b.On(side)[n..]))
  {
    var s := b.On(side);
    var r := s[..n] + [e] + s[n..];
    InsertSorted(side, s, e, n);
    forall i, j | 0 <= i < |r| && 0 <= j < |b.On(side.Opposite())|
      ensures AtLeastAsGood(side, b.On(side.Opposite())[j].price, r[i].price)
      ensures b.On(side.Opposite())[j].price != r[i].price
    {
      assert r[i] == if i < n then s[i] else if i == n then e else s[i - 1];
    }
  }

  lemma InsertSorted(side: Side, s: seq<Entry>, e: Entry, n: nat)
    requires Sorted(side, s) && n <= |s|
    requires forall i :: 0 <= i < n ==> AtLeastAsGood(side, s[i].price, e.price)
    requires forall i :: n <= i < |s| ==> AtLeastAsGood(side, e.price, s[i].price)
    ensures Sorted(side, s[..n] + [e] + s[n..])
  {
  }

  lemma CancelKeepsValid(b: FlatBook, id: OrderId)
    requires Valid(b)
    ensures Valid(Cancel(b, id).0)
  {
    if Contains(b.bids, id) {
      RemoveFirstAt(b.bids, id);
      DropKeepsValid(b, Buy, FirstIndex(b.bids, id));
    } else if Contains(b.asks, id) {
      RemoveFirstAt(b.asks, id);
      DropKeepsValid(b, Sell, FirstIndex(b.asks, id));
    } else {
      RemoveAbsent(b.asks, id);
    }
  }

  lemma DropKeepsValid(b: FlatBook, side: Side, n: nat)
    requires Valid(b) && n < |b.On(side)|
    ensures Valid(b.With(side, b.On(side)[..n] + b.On(side)[n + 1..]))
  {
    var s := b.On(side);
    var r := s[..n] + s[n + 1..];
    assert forall i :: 0 <= i < |r| ==> r[i] == if i < n then s[i] else s[i + 1];
  }

  /** Each submit fills exactly the smaller of its quantity and the liquidity
      on the other side at acceptable prices; only a market order reports a
      remainder, and it is what that liquidity could not cover. */
  lemma SubmitFillsExactly(b: FlatBook, o: Order)
    requires Valid(b)
    ensures var r := Submit(b, o).1;
            var available := Acceptable(o, b.On(o.side.Opposite()));
            && FilledQty(r.fills) == Min(o.qty, available)
            && r.remainingQty == if o.orderType.Market? then Max(0, o.qty - available) else 0
  {
    TakeFillsAvailable(o, b.On(o.side.Opposite()), o.qty);
    TakeBalances(o, b.On(o.side.Opposite()), o.qty);
  }

  // ----------------------------------------------------------- conservation

  datatype Op = SubmitOp(order: Order) | CancelOp(id: OrderId)

  /** Quantity totals over a run. */
  datatype Tally = Tally(submitted: nat, filled: nat, discarded: nat, cancelled: nat)

  const NOTHING := Tally(0, 0, 0, 0)

  function Resting(b: FlatBook): nat { TotalQty(b.bids) + TotalQty(b.asks) }

  /** The quantity of the order a cancel would remove. */
  function QtyOf(b: FlatBook, id: OrderId): nat {
    if Contains(b.bids, id) then b.bids[FirstIndex(b.bids, id)].order.qty
    else if Contains(b.asks, id) then b.asks[FirstIndex(b.asks, id)].order.qty
    else 0
  }

  function Step(b: FlatBook, l: Tally, op: Op): (FlatBook, Tally) {
    match op
    case SubmitOp(o) =>
      var (b', r) := Submit(b, o);
      (b', Tally(l.submitted + o.qty, l.filled + FilledQty(r.fills), l.discarded + r.remainingQty, l.cancelled))
    case CancelOp(id) =>
      (Cancel(b, id).0, l.(cancelled := l.cancelled + QtyOf(b, id)))
  }

  function Run(b: FlatBook, l: Tally, ops: seq<Op>): (FlatBook, Tally)
    decreases |ops|
  {
    if ops == [] then (b, l)
    else var (b1, l1) := Step(b, l, ops[0]); Run(b1, l1, ops[1..])
  }

  /** Every unit submitted is traded (once as taker, once as maker), discarded,
      cancelled or still resting. */
  ghost predicate Conserved(b: FlatBook, l: Tally) {
    l.submitted == 2 * l.filled + l.discarded + l.cancelled + Resting(b)
  }

  lemma StepConserves(b: FlatBook, l: Tally, op: Op)
    requires Conserved(b, l)
    ensures var (b', l') := Step(b, l, op); Conserved(b', l')
  {
    match op
    case SubmitOp(o) =>
      var s := b.On(o.side.Opposite());
      var t := Take(o, s, o.qty);
      TakeBalances(o, s, o.qty);
      if o.orderType.Limit? && t.left > 0 {
        EnqueueQty(o.side, b.On(o.side), Entry(o.orderType.price, RestingOrder(o.id, o.account, t.left)));
      }
    case CancelOp(id) =>
      if Contains(b.bids, id) {
        RemoveFirstQty(b.bids, id);
      } else if Contains(b.asks, id) {
        RemoveFirstQty(b.asks, id);
      } else {
        RemoveAbsent(b.asks, id);
      }
  }

  lemma {:induction false} RunKeeps(b: FlatBook, l: Tally, ops: seq<Op>)
    requires Valid(b) && Conserved(b, l)
    ensures var (b', l') := Run(b, l, ops); Valid(b') && Conserved(b', l')
    decreases |ops|
  {
    if ops != [] {
      match ops[0] {
        case SubmitOp(o) => SubmitKeepsValid(b, o);
        case CancelOp(id) => CancelKeepsValid(b, id);
      }
      StepConserves(b, l, ops[0]);
      var (b1, l1) := Step(b, l, ops[0]);
      RunKeeps(b1, l1, ops[1..]);
    }
  }

  /** Every reachable book is sorted, uncrossed and free of zero quantities,
      and over the whole run the quantities balance. */
  lemma ReachableBookBalances(ops: seq<Op>)
    ensures var (b, l) := Run(EMPTY, NOTHING, ops);
            Valid(b) && l.submitted == 2 * l.filled + l.discarded + l.cancelled + Resting(b)
  {
    RunKeeps(EMPTY, NOTHING, ops);
  }

  // ------------------------------------------------------------ splitting

  /** Takers that accept the same prices walk the same way. */
  ghost predicate Alike(a: Order, b: Order) { a.side == b.side && a.orderType == b.orderType }

  /** Taking x and then y leaves the list that taking x + y leaves. */
  lemma {:induction false} TakeSplits(a: Order, b: Order, ab: Order, s: seq<Entry>, r: seq<Entry>, x: U64, y: U64)
    requires Alike(a, b) && Alike(b, ab) && x + y <= U64_MAX && NoZeroQty(s)
    requires r == Take(a, s, x).rest
    ensures Take(b, r, y).rest == Take(ab, s, x + y).rest
    decreases |s|
  {
    if x == 0 {
      SameWalk(b, ab, s, y);
    } else if y == 0 {
      SameWalk(a, ab, s, x);
    } else if Stops(a, s, x) {
      assert r == s;
    } else if s[0].order.qty <= x {
      TakeSplits(a, b, ab, s[1..], r, x - s[0].order.qty, y);
    } else {
      CutMakerSplits(b, ab, s, r, x, y);
    }
  }

  /** The first order left a cut maker for the second one. */
  lemma CutMakerSplits(b: Order, ab: Order, s: seq<Entry>, r: seq<Entry>, x: U64, y: U64)
    requires Alike(b, ab) && 0 < x && 0 < y && x + y <= U64_MAX
    requires !Stops(b, s, x) && x < s[0].order.qty && r == [Shrunk(s[0], x)] + s[1..]
    ensures Take(b, r, y).rest == Take(ab, s, x + y).rest
  {
    assert r[1..] == s[1..];
    if s[0].order.qty <= x + y {
      SameWalk(b, ab, s[1..], x + y - s[0].order.qty);
    }
  }

  /** The book left behind does not depend on who the taker is. */
  lemma {:induction false} SameWalk(a: Order, b: Order, s: seq<Entry>, want: U64)
    requires Alike(a, b)
    ensures Take(a, s, want).rest == Take(b, s, want).rest
    decreases |s|
  {
    if !Stops(a, s, want) && s[0].order.qty <= want {
      SameWalk(a, b, s[1..], want - s[0].order.qty);
    }
  }

  /** One market order for q1 + q2 leaves the same book as one for q1 followed
      by one for q2, and trades and discards the same totals. */
  lemma MarketOrderSplits(b: FlatBook, o1: Order, o2: Order, o: Order)
    requires Valid(b) && Alike(o1, o2) && Alike(o2, o) && o.orderType.Market?
    requires o.qty == o1.qty + o2.qty
    ensures var (b1, r1) := Submit(b, o1);
            var (b2, r2) := Submit(b1, o2);
            var (b', r) := Submit(b, o);
            && b' == b2
            && FilledQty(r.fills) == FilledQty(r1.fills) + FilledQty(r2.fills)
            && r.remainingQty == r1.remainingQty + r2.remainingQty
  {
    var s := b.On(o.side.Opposite());
    var r := Take(o1, s, o1.qty).rest;
    TakeSplitsTotals(o1, o2, o, s, r);
    assert Submit(b, o1).0.On(o.side.Opposite()) == r;
  }

  /** So the quantities traded and left over add up as well. */
  lemma TakeSplitsTotals(a: Order, b: Order, ab: Order, s: seq<Entry>, r: seq<Entry>)
    requires Alike(a, b) && Alike(b, ab) && ab.qty == a.qty + b.qty && NoZeroQty(s)
    requires r == Take(a, s, a.qty).rest
    ensures var first, second, both := Take(a, s, a.qty), Take(b, r, b.qty), Take(ab, s, ab.qty);
            && both.rest == second.rest
            && FilledQty(both.fills) == FilledQty(first.fills) + FilledQty(second.fills)
            && both.left == first.left + second.left
  {
    TakeSplits(a, b, ab, s, r, a.qty, b.qty);
    TakeBalances(a, s, a.qty);
    TakeBalances(b, r, b.qty);
    TakeBalances(ab, s, ab.qty);
  }
}
