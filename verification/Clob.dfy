/** The order book as a flat price-time list, and what matching means on it.
    One list per side, best price first and oldest first within a price. */
module Clob {
  import opened Machine

  type AccountId = U64
  type OrderId = U64

  datatype Side = Buy | Sell {
    function Opposite(): Side { if Buy? then Sell else Buy }
  }

  datatype OrderType = Limit(price: U64) | Market

  datatype Order = Order(id: OrderId, account: AccountId, side: Side, qty: U64, orderType: OrderType)

  datatype RestingOrder = RestingOrder(id: OrderId, account: AccountId, qty: U64)

  datatype Fill = Fill(
    makerOrderId: OrderId, takerOrderId: OrderId,
    makerAccount: AccountId, takerAccount: AccountId,
    price: U64, qty: U64, makerSide: Side)

  datatype FillResult = FillResult(fills: seq<Fill>, remainingQty: U64)

  /** One resting order in the flat list, with the price of its level. */
  datatype Entry = Entry(price: U64, order: RestingOrder)

  datatype FlatBook = FlatBook(bids: seq<Entry>, asks: seq<Entry>) {
    function On(side: Side): seq<Entry> { if side.Buy? then bids else asks }

    function With(side: Side, s: seq<Entry>): FlatBook {
      if side.Buy? then this.(bids := s) else this.(asks := s)
    }
  }

  const EMPTY := FlatBook([], [])

  // ------------------------------------------------------------- the list

  /** The order of the levels on a side: asks ascend, bids descend. */
  predicate AtLeastAsGood(side: Side, p: U64, q: U64) { if side.Sell? then p <= q else q <= p }

  ghost predicate Sorted(side: Side, s: seq<Entry>) {
    forall i, j :: 0 <= i < j < |s| ==> AtLeastAsGood(side, s[i].price, s[j].price)
  }

  ghost predicate NoZeroQty(s: seq<Entry>) { forall i :: 0 <= i < |s| ==> s[i].order.qty > 0 }

  /** No bid is priced at or above an ask. */
  ghost predicate Uncrossed(bids: seq<Entry>, asks: seq<Entry>) {
    forall i, j :: 0 <= i < |bids| && 0 <= j < |asks| ==> bids[i].price < asks[j].price
  }

  ghost predicate Valid(b: FlatBook) {
    && Sorted(Buy, b.bids) && Sorted(Sell, b.asks)
    && NoZeroQty(b.bids) && NoZeroQty(b.asks)
    && Uncrossed(b.bids, b.asks)
  }

  /** Queue an order behind everything priced at least as well. */
  function Enqueue(side: Side, s: seq<Entry>, e: Entry): seq<Entry> {
    if s == [] || !AtLeastAsGood(side, s[0].price, e.price) then [e] + s
    else [s[0]] + Enqueue(side, s[1..], e)
  }

  /** Remove the first order with this id. */
  function RemoveFirst(s: seq<Entry>, id: OrderId): seq<Entry> {
    if s == [] then [] else if s[0].order.id == id then s[1..] else [s[0]] + RemoveFirst(s[1..], id)
  }

  predicate Contains(s: seq<Entry>, id: OrderId) { exists i :: 0 <= i < |s| && s[i].order.id == id }

  function TotalQty(s: seq<Entry>): nat {
    if s == [] then 0 else s[0].order.qty + TotalQty(s[1..])
  }

  /** Quantity resting at prices a taker accepts. */
  function Acceptable(taker: Order, s: seq<Entry>): nat {
    if s == [] then 0
    else (if Accepts(taker, s[0].price) then s[0].order.qty else 0) + Acceptable(taker, s[1..])
  }

  function FilledQty(fills: seq<Fill>): nat {
    if fills == [] then 0 else fills[0].qty + FilledQty(fills[1..])
  }

  // ------------------------------------------------------------- matching

  /** A buy accepts asks up to its limit, a sell bids down to its limit, and a
      market order any price. */
  predicate Accepts(taker: Order, price: U64) {
    match taker.orderType
    case Market => true
    case Limit(limit) => if taker.side.Buy? then price <= limit else limit <= price
  }

  datatype Taken = Taken(fills: seq<Fill>, rest: seq<Entry>, left: U64)

  function MakeFill(taker: Order, e: Entry, qty: U64): Fill {
    Fill(e.order.id, taker.id, e.order.account, taker.account, e.price, qty, taker.side.Opposite())
  }

  function Shrunk(e: Entry, q: U64): Entry
    requires q <= e.order.qty
  {
    e.(order := e.order.(qty := e.order.qty - q))
  }

  predicate Stops(taker: Order, s: seq<Entry>, want: U64) {
    want == 0 || s == [] || !Accepts(taker, s[0].price)
  }

  /** Trade a taker against the front of the list while the price is acceptable. */
  function Take(taker: Order, s: seq<Entry>, want: U64): Taken {
    if Stops(taker, s, want) then
      Taken([], s, want)
    else if want < s[0].order.qty then
      Taken([MakeFill(taker, s[0], want)], [Shrunk(s[0], want)] + s[1..], 0)
    else
      var t := Take(taker, s[1..], want - s[0].order.qty);
      Taken([MakeFill(taker, s[0], s[0].order.qty)] + t.fills, t.rest, t.left)
  }

  function Submit(b: FlatBook, o: Order): (FlatBook, FillResult) {
    var maker := o.side.Opposite();
    var t := Take(o, b.On(maker), o.qty);
    var swept := b.With(maker, t.rest);
    match o.orderType
    case Market => (swept, FillResult(t.fills, t.left))
    case Limit(price) =>
      if t.left == 0 then (swept, FillResult(t.fills, 0))
      else
        var e := Entry(price, RestingOrder(o.id, o.account, t.left));
        (swept.With(o.side, Enqueue(o.side, swept.On(o.side), e)), FillResult(t.fills, 0))
  }

  /** Bids are searched before asks, and only one order is removed. */
  function Cancel(b: FlatBook, id: OrderId): (FlatBook, bool) {
    if Contains(b.bids, id) then (b.(bids := RemoveFirst(b.bids, id)), true)
    else (b.(asks := RemoveFirst(b.asks, id)), Contains(b.asks, id))
  }

  // -------------------------------------------------- price-time priority

  /** The fill names the resting order as maker and the incoming order as taker, at
      the resting order's price. */
  predicate Between(taker: Order, e: Entry, f: Fill) {
    && f.makerOrderId == e.order.id && f.makerAccount == e.order.account
    && f.takerOrderId == taker.id && f.takerAccount == taker.account
    && f.price == e.price && f.makerSide != taker.side
  }

  /** A fill of the taker against this maker, for a positive part of its quantity. */
  ghost predicate Trades(taker: Order, e: Entry, f: Fill) {
    Between(taker, e, f) && Accepts(taker, e.price) && 0 < f.qty <= e.order.qty
  }

  /** What a list looks like after its first fills: the last maker hit may be
      cut, everything before it is gone and everything behind it untouched. */
  function AfterFills(s: seq<Entry>, fills: seq<Fill>): seq<Entry>
    requires |fills| <= |s|
    requires fills != [] ==> fills[|fills| - 1].qty <= s[|fills| - 1].order.qty
  {
    var n := |fills|;
    if n > 0 && fills[n - 1].qty < s[n - 1].order.qty
    then [Shrunk(s[n - 1], fills[n - 1].qty)] + s[n..]
    else s[n..]
  }

  ghost predicate ConsumesPrefix(taker: Order, s: seq<Entry>, t: Taken) {
    && |t.fills| <= |s|
    && (forall i :: 0 <= i < |t.fills| ==> Trades(taker, s[i], t.fills[i]))
    && (forall i :: 0 <= i < |t.fills| - 1 ==> t.fills[i].qty == s[i].order.qty)
    && t.rest == AfterFills(s, t.fills)
    && (t.left > 0 ==> Stops(taker, t.rest, t.left))
  }

  /** Price-time priority: the makers hit are exactly the front of the list, in
      order and in full except perhaps the last, and the taker stops only when
      it is filled or nothing acceptable is left. */
  lemma {:induction false} TakeConsumesPrefix(taker: Order, s: seq<Entry>, want: U64)
    requires NoZeroQty(s)
    ensures ConsumesPrefix(taker, s, Take(taker, s, want))
    decreases |s|
  {
    if !Stops(taker, s, want) && s[0].order.qty <= want {
      TakeConsumesPrefix(taker, s[1..], want - s[0].order.qty);
      PrefixStep(taker, s, Take(taker, s[1..], want - s[0].order.qty));
    }
  }

  lemma PrefixStep(taker: Order, s: seq<Entry>, u: Taken)
    requires NoZeroQty(s) && s != [] && Accepts(taker, s[0].price)
    requires ConsumesPrefix(taker, s[1..], u)
    ensures ConsumesPrefix(taker, s, Taken([MakeFill(taker, s[0], s[0].order.qty)] + u.fills, u.rest, u.left))
  {
    var fills := [MakeFill(taker, s[0], s[0].order.qty)] + u.fills;
    assert forall i :: 0 < i < |fills| ==> fills[i] == u.fills[i - 1] && s[i] == s[1..][i - 1];
    assert s[1..][|u.fills|..] == s[|fills|..];
  }

  /** What remains is a suffix of the list up to the quantity of its first entry. */
  ghost predicate SuffixPrices(r: seq<Entry>, s: seq<Entry>) {
    |r| <= |s| && forall i :: 0 <= i < |r| ==> r[i].price == s[|s| - |r| + i].price && r[i].order.qty > 0
  }

  lemma WholeSuffix(s: seq<Entry>, n: nat)
    requires NoZeroQty(s) && n <= |s|
    ensures SuffixPrices(s[n..], s)
  {
  }

  lemma CutSuffix(s: seq<Entry>, n: nat, q: U64)
    requires NoZeroQty(s) && n < |s| && q < s[n].order.qty
    ensures SuffixPrices([Shrunk(s[n], q)] + s[n + 1..], s)
  {
    var r := [Shrunk(s[n], q)] + s[n + 1..];
    forall i | 0 <= i < |r|
      ensures r[i].price == s[n + i].price && r[i].order.qty > 0
    {
      assert i > 0 ==> r[i] == s[n + i];
    }
  }

  lemma TakeLeavesSuffix(taker: Order, s: seq<Entry>, want: U64)
    requires NoZeroQty(s)
    ensures SuffixPrices(Take(taker, s, want).rest, s)
  {
    TakeConsumesPrefix(taker, s, want);
    var fills := Take(taker, s, want).fills;
    var n := |fills|;
    if n > 0 && fills[n - 1].qty < s[n - 1].order.qty {
      CutSuffix(s, n - 1, fills[n - 1].qty);
    } else {
      WholeSuffix(s, n);
    }
  }

  // ------------------------------------------------------------ quantities

  lemma FilledQtyCons(f: Fill, fills: seq<Fill>)
    ensures FilledQty([f] + fills) == f.qty + FilledQty(fills)
  {
    assert ([f] + fills)[1..] == fills;
  }

  lemma TotalQtyCons(e: Entry, s: seq<Entry>)
    ensures TotalQty([e] + s) == e.order.qty + TotalQty(s)
  {
    assert ([e] + s)[1..] == s;
  }

  /** What the taker gets leaves the list, and what it does not get is left. */
  lemma {:induction false} TakeBalances(taker: Order, s: seq<Entry>, want: U64)
    ensures var t := Take(taker, s, want);
            t.left == want - FilledQty(t.fills) && TotalQty(t.rest) == TotalQty(s) - FilledQty(t.fills)
    decreases |s|
  {
    if !Stops(taker, s, want) {
      if want < s[0].order.qty {
        FilledQtyCons(MakeFill(taker, s[0], want), []);
        TotalQtyCons(Shrunk(s[0], want), s[1..]);
      } else {
        TakeBalances(taker, s[1..], want - s[0].order.qty);
        FilledQtyCons(MakeFill(taker, s[0], s[0].order.qty), Take(taker, s[1..], want - s[0].order.qty).fills);
      }
    }
  }

  /** A taker gets as much as it wants of the liquidity at acceptable prices. */
  lemma {:induction false} TakeFillsAvailable(taker: Order, s: seq<Entry>, want: U64)
    requires Sorted(taker.side.Opposite(), s)
    ensures FilledQty(Take(taker, s, want).fills) == Min(want, Acceptable(taker, s))
    decreases |s|
  {
    if s == [] || !Accepts(taker, s[0].price) {
      NothingAcceptable(taker, s);
    } else if 0 < want < s[0].order.qty {
      FilledQtyCons(MakeFill(taker, s[0], want), []);
    } else if want > 0 {
      TakeFillsAvailable(taker, s[1..], want - s[0].order.qty);
      FilledQtyCons(MakeFill(taker, s[0], s[0].order.qty), Take(taker, s[1..], want - s[0].order.qty).fills);
    }
  }

  lemma {:induction false} NothingAcceptable(taker: Order, s: seq<Entry>)
    requires Sorted(taker.side.Opposite(), s) && (s == [] || !Accepts(taker, s[0].price))
    ensures Acceptable(taker, s) == 0
  {
    if |s| > 1 {
      assert AtLeastAsGood(taker.side.Opposite(), s[0].price, s[1].price);
      NothingAcceptable(taker, s[1..]);
    }
  }

  // --------------------------------------------------- account by account

  /** What an account has resting in a list. */
  function HeldBy(s: seq<Entry>, id: AccountId): nat {
    if s == [] then 0 else (if s[0].order.account == id then s[0].order.qty else 0) + HeldBy(s[1..], id)
  }

  /** What an account filled as a maker. */
  function MadeBy(fills: seq<Fill>, id: AccountId): nat {
    if fills == [] then 0 else (if fills[0].makerAccount == id then fills[0].qty else 0) + MadeBy(fills[1..], id)
  }

  lemma MadeByCons(f: Fill, fills: seq<Fill>, id: AccountId)
    ensures MadeBy([f] + fills, id) == (if f.makerAccount == id then f.qty else 0) + MadeBy(fills, id)
  {
    assert ([f] + fills)[1..] == fills;
  }

  lemma HeldByCons(e: Entry, s: seq<Entry>, id: AccountId)
    ensures HeldBy([e] + s, id) == (if e.order.account == id then e.order.qty else 0) + HeldBy(s, id)
  {
    assert ([e] + s)[1..] == s;
  }

  /** What an account made is what left its own resting orders. */
  lemma {:induction false} TakeBalancesEach(taker: Order, s: seq<Entry>, want: U64, id: AccountId)
    ensures var t := Take(taker, s, want); HeldBy(t.rest, id) == HeldBy(s, id) - MadeBy(t.fills, id)
    decreases |s|
  {
    if !Stops(taker, s, want) {
      if want < s[0].order.qty {
        MadeByCons(MakeFill(taker, s[0], want), [], id);
        HeldByCons(Shrunk(s[0], want), s[1..], id);
      } else {
        TakeBalancesEach(taker, s[1..], want - s[0].order.qty, id);
        MadeByCons(MakeFill(taker, s[0], s[0].order.qty), Take(taker, s[1..], want - s[0].order.qty).fills, id);
      }
    }
  }

  /** Fill i names the i-th resting order, whatever the list holds. */
  lemma {:induction false} TakeNamesParties(taker: Order, s: seq<Entry>, want: U64, i: nat)
    requires i < |Take(taker, s, want).fills|
    ensures i < |s| && Between(taker, s[i], Take(taker, s, want).fills[i])
    decreases |s|
  {
    if i > 0 {
      TakeNamesParties(taker, s[1..], want - s[0].order.qty, i - 1);
    }
  }

  /** For every book and every submit: fill i has the order id, account and price of
      the i-th resting order on the other side, and the id and account of the order
      submitted. */
  lemma FillsNameTheirParties(b: FlatBook, o: Order, i: nat)
    requires i < |Submit(b, o).1.fills|
    ensures i < |b.On(o.side.Opposite())|
    ensures var e, f := b.On(o.side.Opposite())[i], Submit(b, o).1.fills[i];
            && f.makerOrderId == e.order.id && f.makerAccount == e.order.account && f.price == e.price
            && f.takerOrderId == o.id && f.takerAccount == o.account && f.makerSide != o.side
  {
    TakeNamesParties(o, b.On(o.side.Opposite()), o.qty, i);
  }

  /** What a limit order does not get rests under its own id, account and price,
      behind every order priced at least as well; a market order never rests. */
  lemma RestsUnderItsName(b: FlatBook, o: Order)
    ensures var left := o.qty - FilledQty(Submit(b, o).1.fills);
            var s, s' := b.On(o.side), Submit(b, o).0.On(o.side);
            left >= 0 &&
            match o.orderType
            case Market => s' == s
            case Limit(price) =>
              if left == 0 then s' == s
              else
                var n := Ahead(o.side, s, price);
                s' == s[..n] + [Entry(price, RestingOrder(o.id, o.account, left))] + s[n..]
  {
    var t, s := Take(o, b.On(o.side.Opposite()), o.qty), b.On(o.side);
    assert t.left == o.qty - FilledQty(t.fills) by {
      TakeBalances(o, b.On(o.side.Opposite()), o.qty);
    }
    assert b.With(o.side.Opposite(), t.rest).On(o.side) == s;
    if o.orderType.Limit? && t.left > 0 {
      var e := Entry(o.orderType.price, RestingOrder(o.id, o.account, t.left));
      RestsBehind(b.With(o.side.Opposite(), t.rest), o.side, e);
    }
  }

  lemma {:induction false} RestsBehind(b: FlatBook, side: Side, e: Entry)
    ensures var s := b.On(side);
            var n := Ahead(side, s, e.price);
            b.With(side, Enqueue(side, s, e)).On(side) == s[..n] + [e] + s[n..]
  {
    EnqueueAt(side, b.On(side), e);
  }

  // ---------------------------------------------------- queueing, removing

  /** How many entries are priced at least as well: the queue position a new order gets. */
  function Ahead(side: Side, s: seq<Entry>, price: U64): (n: nat)
    ensures n <= |s|
  {
    if s == [] || !AtLeastAsGood(side, s[0].price, price) then 0 else 1 + Ahead(side, s[1..], price)
  }

  lemma {:induction false} EnqueueAt(side: Side, s: seq<Entry>, e: Entry)
    ensures var n := Ahead(side, s, e.price); Enqueue(side, s, e) == s[..n] + [e] + s[n..]
  {
    if s != [] && AtLeastAsGood(side, s[0].price, e.price) {
      var n := Ahead(side, s[1..], e.price);
      EnqueueAt(side, s[1..], e);
      assert s[1..][..n] == s[1..n + 1] && s[1..][n..] == s[n + 1..];
    }
  }

  /** A resting order goes behind every order priced at least as well and
      ahead of every order priced worse. */
  lemma {:induction false} AheadSplits(side: Side, s: seq<Entry>, price: U64)
    requires Sorted(side, s)
    ensures var n := Ahead(side, s, price);
            && (forall i :: 0 <= i < n ==> AtLeastAsGood(side, s[i].price, price))
            && (forall i :: n <= i < |s| ==> !AtLeastAsGood(side, s[i].price, price))
  {
    if s != [] && AtLeastAsGood(side, s[0].price, price) {
      AheadSplits(side, s[1..], price);
      assert forall i :: 0 < i < |s| ==> s[i] == s[1..][i - 1];
    }
  }

  lemma {:induction false} EnqueueQty(side: Side, s: seq<Entry>, e: Entry)
    ensures TotalQty(Enqueue(side, s, e)) == TotalQty(s) + e.order.qty
  {
    if s == [] || !AtLeastAsGood(side, s[0].price, e.price) {
      TotalQtyCons(e, s);
    } else {
      EnqueueQty(side, s[1..], e);
      TotalQtyCons(s[0], Enqueue(side, s[1..], e));
    }
  }

  function FirstIndex(s: seq<Entry>, id: OrderId): (n: nat)
    requires Contains(s, id)
    ensures n < |s| && s[n].order.id == id
  {
    if s[0].order.id == id then 0
    else
      ContainsTail(s, id);
      1 + FirstIndex(s[1..], id)
  }

  lemma ContainsTail(s: seq<Entry>, id: OrderId)
    requires s != [] && s[0].order.id != id
    ensures Contains(s, id) == Contains(s[1..], id)
  {
    if i :| 0 <= i < |s| && s[i].order.id == id {
      assert s[1..][i - 1] == s[i];
    }
    if i :| 0 <= i < |s[1..]| && s[1..][i].order.id == id {
      assert s[i + 1] == s[1..][i];
    }
  }

  lemma {:induction false} FirstIsFirst(s: seq<Entry>, id: OrderId)
    requires Contains(s, id)
    ensures forall i :: 0 <= i < FirstIndex(s, id) ==> s[i].order.id != id
  {
    if s[0].order.id != id {
      ContainsTail(s, id);
      FirstIsFirst(s[1..], id);
      assert forall i :: 0 < i < |s| ==> s[i] == s[1..][i - 1];
    }
  }

  /** Cancelling takes out the first order with the id and nothing else. */
  lemma {:induction false} RemoveFirstAt(s: seq<Entry>, id: OrderId)
    requires Contains(s, id)
    ensures var n := FirstIndex(s, id); RemoveFirst(s, id) == s[..n] + s[n + 1..]
  {
    if s[0].order.id != id {
      ContainsTail(s, id);
      RemoveFirstAt(s[1..], id);
      var n := FirstIndex(s[1..], id);
      assert s[..n + 1] == [s[0]] + s[1..][..n];
      assert s[n + 2..] == s[1..][n + 1..];
    }
  }

  lemma {:induction false} RemoveFirstQty(s: seq<Entry>, id: OrderId)
    requires Contains(s, id)
    ensures TotalQty(RemoveFirst(s, id)) == TotalQty(s) - s[FirstIndex(s, id)].order.qty
  {
    if s[0].order.id != id {
      ContainsTail(s, id);
      RemoveFirstQty(s[1..], id);
      TotalQtyCons(s[0], RemoveFirst(s[1..], id));
    }
  }

  lemma {:induction false} RemoveAbsent(s: seq<Entry>, id: OrderId)
    requires !Contains(s, id)
    ensures RemoveFirst(s, id) == s
  {
    if s != [] {
      assert s[0].order.id != id;
      ContainsTail(s, id);
      RemoveAbsent(s[1..], id);
    }
  }

  /** A cancel takes the first order with the id off the bids, off the asks only if no
      bid has it, and otherwise does nothing and says so. */
  lemma {:induction false} CancelTakesOne(b: FlatBook, id: OrderId)
    ensures var (b', found) := Cancel(b, id);
            if Contains(b.bids, id) then
              var n := FirstIndex(b.bids, id);
              found && b' == FlatBook(b.bids[..n] + b.bids[n + 1..], b.asks)
            else if Contains(b.asks, id) then
              var n := FirstIndex(b.asks, id);
              found && b' == FlatBook(b.bids, b.asks[..n] + b.asks[n + 1..])
            else !found && b' == b
  {
    if Contains(b.bids, id) {
      RemoveFirstAt(b.bids, id);
    } else if Contains(b.asks, id) {
      RemoveFirstAt(b.asks, id);
    } else {
      RemoveAbsent(b.asks, id);
    }
  }
}
