/** The book as the source stores it: per side an ordered map from price level
    to a FIFO queue, changed in place. Every operation is proved to act on the
    flattened maps exactly as the flat book does. */
module OrderBook {
  import opened Machine
  import opened OrderedMaps
  import opened Clob
  import opened Sums
  import BookRuns

  type Queue = seq<RestingOrder>

  type Levels = map<U64, Queue>

  /** Asks are keyed by price, bids by the reversed price: best first. */
  function Best(side: Side, m: Levels): (k: U64)
    requires m != map[]
    ensures k in m && forall j :: j in m ==> AtLeastAsGood(side, k, j)
  {
    First(side.Buy?, m.Keys)
  }

  function Tag(price: U64, queue: Queue): seq<Entry> {
    if queue == [] then [] else [Entry(price, queue[0])] + Tag(price, queue[1..])
  }

  /** The queues laid end to end in key order. */
  ghost function Flatten(side: Side, m: Levels): seq<Entry>
    decreases |m|
  {
    if m == map[] then []
    else
      var k := Best(side, m);
      assert (m - {k}).Keys == m.Keys - {k};
      Tag(k, m[k]) + Flatten(side, m - {k})
  }

  /** No level is empty. */
  ghost predicate NoEmptyLevel(m: Levels) { forall k :: k in m ==> m[k] != [] }

  // ------------------------------------------------------ about flattening

  lemma {:induction false} TagAppend(price: U64, p: Queue, q: Queue)
    ensures Tag(price, p + q) == Tag(price, p) + Tag(price, q)
  {
    if p == [] {
      assert p + q == q;
    } else {
      TagAppend(price, p[1..], q);
      assert (p + q)[1..] == p[1..] + q;
    }
  }

  lemma {:induction false} TagAt(price: U64, q: Queue)
    ensures |Tag(price, q)| == |q| && forall i :: 0 <= i < |q| ==> Tag(price, q)[i] == Entry(price, q[i])
  {
    if q != [] {
      TagAt(price, q[1..]);
    }
  }

  /** Replacing the queue of the best level changes the front of the list only. */
  lemma FlattenBest(side: Side, m: Levels, q: Queue)
    requires m != map[]
    ensures var k := Best(side, m); Flatten(side, m[k := q]) == Tag(k, q) + Flatten(side, m - {k})
  {
    var k := Best(side, m);
    assert m[k := q].Keys == m.Keys;
    assert m[k := q] - {k} == m - {k};
  }

  lemma FlattenOne(side: Side, price: U64, q: Queue)
    ensures Flatten(side, map[price := q]) == Tag(price, q)
  {
    var m: Levels := map[price := q];
    assert m.Keys == {price} && m - {price} == map[];
  }

  /** Every level of `hi` is strictly worse than every level of `lo`. */
  ghost predicate Precedes(side: Side, lo: Levels, hi: Levels) {
    forall j, k :: j in lo && k in hi ==> !AtLeastAsGood(side, k, j)
  }

  lemma {:induction false} FlattenSplit(side: Side, lo: Levels, hi: Levels)
    requires Precedes(side, lo, hi)
    ensures Flatten(side, lo + hi) == Flatten(side, lo) + Flatten(side, hi)
    decreases |lo|
  {
    if lo == map[] {
      assert lo + hi == hi;
    } else {
      WithoutBest(side, lo, hi);
      FlattenSplit(side, lo - {Best(side, lo)}, hi);
      SplitStep(side, lo, hi);
    }
  }

  lemma SplitStep(side: Side, lo: Levels, hi: Levels)
    requires Precedes(side, lo, hi) && lo != map[]
    requires var rest := lo - {Best(side, lo)};
             Flatten(side, rest + hi) == Flatten(side, rest) + Flatten(side, hi)
    ensures Flatten(side, lo + hi) == Flatten(side, lo) + Flatten(side, hi)
  {
    UnionHead(side, lo, hi);
    var k := Best(side, lo);
    var rest := lo - {k};
    FlattenHead(side, lo, k, rest);
    Regroup(Tag(k, lo[k]), Flatten(side, rest), Flatten(side, hi));
  }

  lemma UnionHead(side: Side, lo: Levels, hi: Levels)
    requires Precedes(side, lo, hi) && lo != map[]
    ensures var k := Best(side, lo); Flatten(side, lo + hi) == Tag(k, lo[k]) + Flatten(side, (lo - {k}) + hi)
  {
    var k := Best(side, lo);
    BestOfUnion(side, lo, hi);
    WithoutBest(side, lo, hi);
    FlattenHead(side, lo + hi, k, (lo - {k}) + hi);
  }

  lemma FlattenHead(side: Side, m: Levels, k: U64, rest: Levels)
    requires m != map[] && Best(side, m) == k && rest == m - {k}
    ensures Flatten(side, m) == Tag(k, m[k]) + Flatten(side, rest)
  {
  }

  lemma WithoutBest(side: Side, lo: Levels, hi: Levels)
    requires Precedes(side, lo, hi) && lo != map[]
    ensures var rest := lo - {Best(side, lo)};
            |rest| < |lo| && Precedes(side, rest, hi) && rest + hi == (lo + hi) - {Best(side, lo)}
  {
    var k := Best(side, lo);
    assert (lo - {k}).Keys == lo.Keys - {k};
    assert k !in hi;
  }

  lemma BestOfUnion(side: Side, lo: Levels, hi: Levels)
    requires Precedes(side, lo, hi) && lo != map[]
    ensures lo + hi != map[] && Best(side, lo + hi) == Best(side, lo)
    ensures Best(side, lo) !in hi && (lo + hi)[Best(side, lo)] == lo[Best(side, lo)]
  {
    var k := Best(side, lo);
    assert k in lo + hi;
  }

  /** Entries at price levels `j` and `k` in the flat list are ordered as the levels are. */
  ghost predicate AllPriced(s: seq<Entry>, m: Levels) {
    forall i :: 0 <= i < |s| ==> s[i].price in m
  }

  lemma {:induction false} FlattenPriced(side: Side, m: Levels)
    ensures AllPriced(Flatten(side, m), m)
    decreases |m|
  {
    if m != map[] {
      var k := Best(side, m);
      assert (m - {k}).Keys == m.Keys - {k};
      FlattenPriced(side, m - {k});
      TagAt(k, m[k]);
    }
  }

  lemma FlattenFront(side: Side, m: Levels)
    requires NoEmptyLevel(m)
    ensures m == map[] <==> Flatten(side, m) == []
    ensures m != map[] ==> Flatten(side, m)[0] == Entry(Best(side, m), m[Best(side, m)][0])
  {
  }

  // -------------------------------------------------------------- resting

  lemma {:induction false} EnqueueBetween(side: Side, a: seq<Entry>, b: seq<Entry>, e: Entry)
    requires forall i :: 0 <= i < |a| ==> AtLeastAsGood(side, a[i].price, e.price)
    requires b == [] || !AtLeastAsGood(side, b[0].price, e.price)
    ensures Enqueue(side, a + b, e) == a + ([e] + b)
  {
    if a == [] {
      assert a + b == b;
    } else {
      EnqueueBetween(side, a[1..], b, e);
      assert (a + b)[1..] == a[1..] + b;
    }
  }

  function QueueAt(m: Levels, price: U64): Queue { if price in m then m[price] else [] }

  /** `entry(price).or_default().push_back(r)`. */
  function Pushed(m: Levels, price: U64, r: RestingOrder): Levels {
    m[price := QueueAt(m, price) + [r]]
  }

  function Better(side: Side, m: Levels, price: U64): Levels {
    map k | k in m && !AtLeastAsGood(side, price, k) :: m[k]
  }

  function Worse(side: Side, m: Levels, price: U64): Levels {
    map k | k in m && !AtLeastAsGood(side, k, price) :: m[k]
  }

  /** A list falls into the better levels, the level itself and the worse levels. */
  lemma FlattenAround(side: Side, m: Levels, price: U64, q: Queue)
    ensures Flatten(side, m[price := q])
            == Flatten(side, Better(side, m, price)) + (Tag(price, q) + Flatten(side, Worse(side, m, price)))
  {
    var lo, hi := Better(side, m, price), Worse(side, m, price);
    var mid: Levels := map[price := q];
    assert m[price := q] == lo + (mid + hi);
    FlattenSplit(side, mid, hi);
    FlattenSplit(side, lo, mid + hi);
    FlattenOne(side, price, q);
  }

  lemma FlattenAroundSelf(side: Side, m: Levels, price: U64)
    ensures Flatten(side, m)
            == Flatten(side, Better(side, m, price))
               + (Tag(price, QueueAt(m, price)) + Flatten(side, Worse(side, m, price)))
  {
    if price in m {
      assert m == m[price := QueueAt(m, price)];
      FlattenAround(side, m, price, QueueAt(m, price));
    } else {
      assert m == Better(side, m, price) + Worse(side, m, price);
      FlattenSplit(side, Better(side, m, price), Worse(side, m, price));
      assert Tag(price, []) + Flatten(side, Worse(side, m, price)) == Flatten(side, Worse(side, m, price));
    }
  }

  /** Behind two parts priced at least as well, ahead of a third priced worse. */
  lemma EnqueueThird(side: Side, a: seq<Entry>, t: seq<Entry>, b: seq<Entry>, e: Entry)
    requires forall i :: 0 <= i < |a| ==> AtLeastAsGood(side, a[i].price, e.price)
    requires forall i :: 0 <= i < |t| ==> t[i].price == e.price
    requires b == [] || !AtLeastAsGood(side, b[0].price, e.price)
    ensures Enqueue(side, a + (t + b), e) == a + ((t + [e]) + b)
  {
    assert a + (t + b) == (a + t) + b;
    assert (a + t) + ([e] + b) == a + ((t + [e]) + b);
    EnqueueBetween(side, a + t, b, e);
  }

  /** Pushing onto a level queues behind everything priced at least as well. */
  lemma FlattenPush(side: Side, m: Levels, price: U64, r: RestingOrder)
    ensures Flatten(side, Pushed(m, price, r)) == Enqueue(side, Flatten(side, m), Entry(price, r))
  {
    var lo, hi := Better(side, m, price), Worse(side, m, price);
    var q := QueueAt(m, price);
    FlattenPriced(side, lo);
    FlattenPriced(side, hi);
    TagAt(price, q);
    EnqueueThird(side, Flatten(side, lo), Tag(price, q), Flatten(side, hi), Entry(price, r));
    FlattenAroundSelf(side, m, price);
    TagPush(price, q, r);
    FlattenAround(side, m, price, q + [r]);
  }

  lemma TagPush(price: U64, q: Queue, r: RestingOrder)
    ensures Tag(price, q + [r]) == Tag(price, q) + [Entry(price, r)]
  {
    TagAppend(price, q, [r]);
    assert Tag(price, [r]) == [Entry(price, r)];
  }

  // ------------------------------------------------------------- matching

  /** A queue after its front order gave up some quantity. */
  function Consumed(queue: Queue, q: U64): Queue
    requires queue != [] && q <= queue[0].qty
  {
    if queue[0].qty == q then queue[1..] else [queue[0].(qty := queue[0].qty - q)] + queue[1..]
  }

  /** Match a taker against the front of one level: the maker shrinks, and
      leaves the queue when nothing of it is left. */
  method MatchAtLevel(taker: Order, price: U64, queue: Queue, remaining: U64)
    returns (fill: Fill, queue': Queue, remaining': U64)
    requires queue != []
    ensures var q := Min(queue[0].qty, remaining);
            && fill.makerOrderId == queue[0].id && fill.makerAccount == queue[0].account
            && fill.takerOrderId == taker.id && fill.takerAccount == taker.account
            && fill.price == price && fill.qty == q && fill.makerSide == taker.side.Opposite()
            && remaining' == remaining - q && queue' == Consumed(queue, q)
  {
    var maker := queue[0];
    var fillQty := Min(maker.qty, remaining);
    fill := Fill(maker.id, taker.id, maker.account, taker.account, price, fillQty, taker.side.Opposite());
    maker := maker.(qty := maker.qty - fillQty);
    remaining' := remaining - fillQty;
    queue' := if maker.qty == 0 then queue[1..] else queue[0 := maker];
  }

  ghost predicate Continues(whole: Taken, fills: seq<Fill>, t: Taken) {
    whole == Taken(fills + t.fills, t.rest, t.left)
  }

  /** One round of the loop is one unfolding of the flat walk. */
  lemma WalkStep(order: Order, price: U64, queue: Queue, tail: seq<Entry>, want: U64)
    requires queue != [] && want > 0 && Accepts(order, price)
    ensures var s := Tag(price, queue) + tail;
            var q := Min(queue[0].qty, want);
            Continues(Take(order, s, want), [MakeFill(order, Entry(price, queue[0]), q)],
              Take(order, Tag(price, Consumed(queue, q)) + tail, want - q))
  {
    if want < queue[0].qty {
      WalkCut(order, price, queue, tail, want);
    } else {
      WalkWhole(order, price, queue, tail, want);
    }
  }

  lemma TagFront(price: U64, queue: Queue, tail: seq<Entry>)
    requires queue != []
    ensures Tag(price, queue) + tail == [Entry(price, queue[0])] + (Tag(price, queue[1..]) + tail)
  {
    Regroup([Entry(price, queue[0])], Tag(price, queue[1..]), tail);
  }

  lemma WalkCut(order: Order, price: U64, queue: Queue, tail: seq<Entry>, want: U64)
    requires queue != [] && 0 < want < queue[0].qty && Accepts(order, price)
    ensures Take(order, Tag(price, queue) + tail, want)
            == Taken([MakeFill(order, Entry(price, queue[0]), want)], Tag(price, Consumed(queue, want)) + tail, 0)
  {
    var cut := Consumed(queue, want);
    TagFront(price, queue, tail);
    TagFront(price, cut, tail);
    assert cut[1..] == queue[1..];
    var s := Tag(price, queue) + tail;
    assert s[0] == Entry(price, queue[0]) && s[1..] == Tag(price, queue[1..]) + tail;
  }

  lemma WalkWhole(order: Order, price: U64, queue: Queue, tail: seq<Entry>, want: U64)
    requires queue != [] && 0 < want && queue[0].qty <= want && Accepts(order, price)
    ensures var t := Take(order, Tag(price, queue[1..]) + tail, want - queue[0].qty);
            Take(order, Tag(price, queue) + tail, want)
            == Taken([MakeFill(order, Entry(price, queue[0]), queue[0].qty)] + t.fills, t.rest, t.left)
  {
    TagFront(price, queue, tail);
    var s := Tag(price, queue) + tail;
    assert s[0] == Entry(price, queue[0]) && s[1..] == Tag(price, queue[1..]) + tail;
  }

  lemma ContinuesStep(whole: Taken, fills: seq<Fill>, t: Taken, fill: Fill, u: Taken)
    requires Continues(whole, fills, t) && Continues(t, [fill], u)
    ensures Continues(whole, fills + [fill], u)
  {
    assert fills + ([fill] + u.fills) == fills + [fill] + u.fills;
  }

  /** The levels after a match at k left this queue there. */
  function AfterMatch(levels: Levels, k: U64, queue: Queue): Levels {
    if queue == [] then levels - {k} else levels[k := queue]
  }

  lemma FlattenAfterMatch(side: Side, levels: Levels, queue: Queue)
    requires NoEmptyLevel(levels) && levels != map[]
    ensures var k := Best(side, levels);
            var next := AfterMatch(levels, k, queue);
            NoEmptyLevel(next) && Flatten(side, next) == Tag(k, queue) + Flatten(side, levels - {k})
  {
    var k := Best(side, levels);
    if queue == [] {
      assert Tag(k, queue) + Flatten(side, levels - {k}) == Flatten(side, levels - {k});
    } else {
      FlattenBest(side, levels, queue);
    }
  }

  /** One round on the levels is one unfolding of the flat walk. */
  lemma WalkRound(order: Order, levels: Levels, want: U64, q: U64)
    requires NoEmptyLevel(levels) && levels != map[] && want > 0
    requires var best := Best(order.side.Opposite(), levels);
             Accepts(order, best) && q == Min(levels[best][0].qty, want)
    ensures var maker := order.side.Opposite();
            var best := Best(maker, levels);
            var next := AfterMatch(levels, best, Consumed(levels[best], q));
            && NoEmptyLevel(next)
            && Continues(Take(order, Flatten(maker, levels), want), [MakeFill(order, Entry(best, levels[best][0]), q)],
                         Take(order, Flatten(maker, next), want - q))
            && want - q + |Flatten(maker, next)| < want + |Flatten(maker, levels)|
  {
    var maker := order.side.Opposite();
    var best := Best(maker, levels);
    var queue, tail := Consumed(levels[best], q), Flatten(maker, levels - {best});
    FlattenAfterMatch(maker, levels, queue);
    FlattenHead(maker, levels, best, levels - {best});
    WalkStep(order, best, levels[best], tail, want);
    RoundShrinks(best, levels[best], q, tail);
  }

  lemma RoundShrinks(k: U64, queue: Queue, q: U64, tail: seq<Entry>)
    requires queue != [] && q <= queue[0].qty
    ensures |Tag(k, Consumed(queue, q)) + tail| <= |Tag(k, queue) + tail|
    ensures q == 0 ==> |Tag(k, Consumed(queue, q)) + tail| < |Tag(k, queue) + tail| || queue[0].qty > 0
  {
    TagAt(k, queue);
    TagAt(k, Consumed(queue, q));
  }

  /** The matching loop: take from the best level while it is acceptable. */
  method Walk(order: Order, levels: Levels) returns (fills: seq<Fill>, levels': Levels, remaining: U64)
    requires NoEmptyLevel(levels)
    ensures NoEmptyLevel(levels')
    ensures var maker := order.side.Opposite();
            Taken(fills, Flatten(maker, levels'), remaining) == Take(order, Flatten(maker, levels), order.qty)
  {
    var maker := order.side.Opposite();
    ghost var whole := Take(order, Flatten(maker, levels), order.qty);
    fills, levels', remaining := [], levels, order.qty;
    while remaining > 0 && levels' != map[]
      invariant NoEmptyLevel(levels')
      invariant Continues(whole, fills, Take(order, Flatten(maker, levels'), remaining))
      decreases remaining + |Flatten(maker, levels')|
    {
      var best := Best(maker, levels');
      FlattenFront(maker, levels');
      if !Accepts(order, best) {
        break;
      }
      ghost var t := Take(order, Flatten(maker, levels'), remaining);
      WalkRound(order, levels', remaining, Min(levels'[best][0].qty, remaining));
      var fill, queue;
      fill, queue, remaining := MatchAtLevel(order, best, levels'[best], remaining);
      levels' := if queue == [] then levels' - {best} else levels'[best := queue];
      ContinuesStep(whole, fills, t, fill, Take(order, Flatten(maker, levels'), remaining));
      fills := fills + [fill];
    }
    FlattenFront(maker, levels');
  }

  // ----------------------------------------------------------- cancelling

  lemma {:induction false} RemovePastPrefix(a: seq<Entry>, b: seq<Entry>, id: OrderId)
    requires !Contains(a, id)
    ensures RemoveFirst(a + b, id) == a + RemoveFirst(b, id) && Contains(a + b, id) == Contains(b, id)
  {
    if a == [] {
      assert a + b == b;
    } else {
      assert a[0].order.id != id;
      ContainsTail(a, id);
      RemovePastPrefix(a[1..], b, id);
      assert (a + b)[1..] == a[1..] + b;
      ContainsTail(a + b, id);
    }
  }

  predicate HasOrder(q: Queue, id: OrderId) { exists i :: 0 <= i < |q| && q[i].id == id }

  function WithoutOrder(q: Queue, id: OrderId): Queue {
    if q == [] then [] else if q[0].id == id then q[1..] else [q[0]] + WithoutOrder(q[1..], id)
  }

  lemma {:induction false} WithoutOrderAt(q: Queue, pos: nat)
    requires pos < |q| && forall i :: 0 <= i < pos ==> q[i].id != q[pos].id
    ensures WithoutOrder(q, q[pos].id) == q[..pos] + q[pos + 1..]
  {
    if pos > 0 {
      WithoutOrderAt(q[1..], pos - 1);
      assert [q[0]] + (q[1..][..pos - 1] + q[1..][pos..]) == q[..pos] + q[pos + 1..];
    }
  }

  lemma {:induction false} RemoveInTag(price: U64, q: Queue, id: OrderId)
    ensures RemoveFirst(Tag(price, q), id) == Tag(price, WithoutOrder(q, id))
  {
    if q != [] && q[0].id != id {
      RemoveInTag(price, q[1..], id);
      assert ([q[0]] + WithoutOrder(q[1..], id))[1..] == WithoutOrder(q[1..], id);
    }
  }

  lemma {:induction false} RemoveInFront(a: seq<Entry>, b: seq<Entry>, id: OrderId)
    requires Contains(a, id)
    ensures RemoveFirst(a + b, id) == RemoveFirst(a, id) + b
  {
    assert (a + b)[1..] == a[1..] + b;
    if a[0].order.id != id {
      ContainsTail(a, id);
      RemoveInFront(a[1..], b, id);
    }
  }

  lemma TagContains(price: U64, q: Queue, id: OrderId)
    ensures Contains(Tag(price, q), id) == HasOrder(q, id)
  {
    TagAt(price, q);
    if HasOrder(q, id) {
      var i :| 0 <= i < |q| && q[i].id == id;
      assert Tag(price, q)[i].order.id == id;
    }
  }

  lemma ContainsInFront(a: seq<Entry>, b: seq<Entry>, id: OrderId)
    requires Contains(a, id)
    ensures Contains(a + b, id)
  {
    var i :| 0 <= i < |a| && a[i].order.id == id;
    assert (a + b)[i].order.id == id;
  }

  /** The cancelling closure on one queue: `position(..)`, then `remove(pos)`. */
  method RetainQueue(queue: Queue, id: OrderId, found: bool) returns (queue': Queue, found': bool)
    ensures found' == (found || HasOrder(queue, id))
    ensures queue' == if !found && HasOrder(queue, id) then WithoutOrder(queue, id) else queue
  {
    queue', found' := queue, found;
    if !found {
      var pos := 0;
      while pos < |queue| && queue[pos].id != id
        invariant pos <= |queue| && forall i :: 0 <= i < pos ==> queue[i].id != id
      {
        pos := pos + 1;
      }
      if pos < |queue| {
        WithoutOrderAt(queue, pos);
        queue', found' := queue[..pos] + queue[pos + 1..], true;
      }
    }
  }

  /** The state of a cancel over the flat list: `done` was visited, `todo` was not. */
  ghost predicate Cancelling(s: seq<Entry>, id: OrderId, found: bool, done: seq<Entry>, todo: seq<Entry>) {
    if found then Contains(s, id) && RemoveFirst(s, id) == done + todo
    else !Contains(done, id) && s == done + todo
  }

  lemma CancellingStep(
      s: seq<Entry>, id: OrderId, found: bool, done: seq<Entry>, price: U64, q: Queue, todo: seq<Entry>)
    requires Cancelling(s, id, found, done, Tag(price, q) + todo)
    ensures var hit := !found && HasOrder(q, id);
            Cancelling(s, id, found || hit, done + Tag(price, if hit then WithoutOrder(q, id) else q), todo)
  {
    var tag := Tag(price, q);
    Regroup(done, tag, todo);
    if !found {
      RemovePastPrefix(done, tag + todo, id);
      RemovePastPrefix(done, tag, id);
      TagContains(price, q, id);
      if HasOrder(q, id) {
        var tag' := Tag(price, WithoutOrder(q, id));
        RemoveInTag(price, q, id);
        RemoveInFront(tag, todo, id);
        ContainsInFront(tag, todo, id);
        Regroup(done, tag', todo);
      }
    }
  }

  /** `retain` with the cancelling closure: visit the levels in key order,
      remove the order from the first queue that has it, drop empty queues. */
  method RetainWithout(side: Side, levels: Levels, id: OrderId) returns (found: bool, levels': Levels)
    requires NoEmptyLevel(levels)
    ensures found == Contains(Flatten(side, levels), id)
    ensures Flatten(side, levels') == RemoveFirst(Flatten(side, levels), id)
    ensures NoEmptyLevel(levels')
  {
    ghost var s := Flatten(side, levels);
    var todo := levels;
    found, levels' := false, map[];
    assert s == Flatten(side, levels') + Flatten(side, todo);
    while todo != map[]
      invariant Precedes(side, levels', todo) && NoEmptyLevel(levels')
      invariant Cancelling(s, id, found, Flatten(side, levels'), Flatten(side, todo))
      decreases |todo|
    {
      var k := Best(side, todo);
      var ahead := todo;
      todo := todo - {k};
      FlattenHead(side, ahead, k, todo);
      CancellingStep(s, id, found, Flatten(side, levels'), k, ahead[k], Flatten(side, todo));
      var queue;
      queue, found := RetainQueue(ahead[k], id, found);
      PlaceLevel(side, levels', ahead, k, queue);
      levels' := WithLevel(levels', k, queue);
    }
    assert Flatten(side, levels') + Flatten(side, todo) == Flatten(side, levels');
    if !found {
      RemoveAbsent(s, id);
    }
  }

  lemma MoveLevel(side: Side, done: Levels, todo: Levels, k: U64, queue: Queue)
    requires Precedes(side, done, todo) && todo != map[] && k == Best(side, todo)
    ensures Precedes(side, done, todo - {k}) && |todo - {k}| < |todo|
    ensures Precedes(side, done[k := queue], todo - {k})
    ensures forall j :: j in done ==> !AtLeastAsGood(side, k, j)
  {
    assert (todo - {k}).Keys == todo.Keys - {k};
  }

  /** Keeping a level only while it holds orders. */
  function WithLevel(levels: Levels, k: U64, queue: Queue): Levels {
    if queue == [] then levels else levels[k := queue]
  }

  lemma AppendLevel(side: Side, done: Levels, k: U64, queue: Queue)
    requires forall j :: j in done ==> !AtLeastAsGood(side, k, j)
    ensures Flatten(side, WithLevel(done, k, queue)) == Flatten(side, done) + Tag(k, queue)
  {
    FlattenOne(side, k, queue);
    FlattenSplit(side, done, map[k := queue]);
    assert done[k := queue] == done + map[k := queue];
  }

  lemma PlaceLevel(side: Side, done: Levels, todo: Levels, k: U64, queue: Queue)
    requires Precedes(side, done, todo) && NoEmptyLevel(done) && todo != map[] && k == Best(side, todo)
    ensures var done' := WithLevel(done, k, queue);
            && Precedes(side, done', todo - {k}) && NoEmptyLevel(done')
            && Flatten(side, done') == Flatten(side, done) + Tag(k, queue)
    ensures |todo - {k}| < |todo|
  {
    MoveLevel(side, done, todo, k, queue);
    AppendLevel(side, done, k, queue);
  }

  // ------------------------------------------------------------- the book

  class Book {
    var bids: Levels
    var asks: Levels

    ghost function Flat(): FlatBook reads this { FlatBook(Flatten(Buy, bids), Flatten(Sell, asks)) }

    /** No level is empty, and the flattened book is a valid flat book. */
    ghost predicate Valid() reads this {
      NoEmptyLevel(bids) && NoEmptyLevel(asks) && Clob.Valid(Flat())
    }

    constructor ()
      ensures Valid() && Flat() == EMPTY
    {
      bids, asks := map[], map[];
    }

    method Submit(order: Order) returns (r: FillResult)
      requires Valid()
      modifies this
      ensures Valid() && (Flat(), r) == Clob.Submit(old(Flat()), order)
    {
      BookRuns.SubmitKeepsValid(Flat(), order);
      match order.orderType
      case Limit(price) => r := SubmitLimit(order, price);
      case Market => r := SubmitMarket(order);
    }

    method SubmitLimit(order: Order, limitPrice: U64) returns (r: FillResult)
      requires NoEmptyLevel(bids) && NoEmptyLevel(asks) && order.orderType == Limit(limitPrice)
      modifies this
      ensures NoEmptyLevel(bids) && NoEmptyLevel(asks) && (Flat(), r) == Clob.Submit(old(Flat()), order)
    {
      var fills, remaining;
      match order.side {
        case Buy => fills, asks, remaining := Walk(order, asks);
        case Sell => fills, bids, remaining := Walk(order, bids);
      }
      if remaining > 0 {
        var resting := RestingOrder(order.id, order.account, remaining);
        match order.side {
          case Buy =>
            FlattenPush(Buy, bids, limitPrice, resting);
            bids := Pushed(bids, limitPrice, resting);
          case Sell =>
            FlattenPush(Sell, asks, limitPrice, resting);
            asks := Pushed(asks, limitPrice, resting);
        }
      }
      r := FillResult(fills, 0);
    }

    method SubmitMarket(order: Order) returns (r: FillResult)
      requires NoEmptyLevel(bids) && NoEmptyLevel(asks) && order.orderType.Market?
      modifies this
      ensures NoEmptyLevel(bids) && NoEmptyLevel(asks) && (Flat(), r) == Clob.Submit(old(Flat()), order)
    {
      var fills, remaining;
      match order.side {
        case Buy => fills, asks, remaining := Walk(order, asks);
        case Sell => fills, bids, remaining := Walk(order, bids);
      }
      r := FillResult(fills, remaining);
    }

    method Cancel(id: OrderId) returns (found: bool)
      requires Valid()
      modifies this
      ensures Valid() && (Flat(), found) == Clob.Cancel(old(Flat()), id)
    {
      BookRuns.CancelKeepsValid(Flat(), id);
      ghost var before := Flat();
      found, bids := RetainWithout(Buy, bids, id);
      if found {
        return;
      }
      RemoveAbsent(before.bids, id);
      found, asks := RetainWithout(Sell, asks, id);
    }

    function BestBid(): (r: Option<U64>)
      requires Valid()
      reads this
      ensures r == BestPrice(Flat().bids)
    {
      FlattenFront(Buy, bids);
      if bids == map[] then None else Some(Best(Buy, bids))
    }

    function BestAsk(): (r: Option<U64>)
      requires Valid()
      reads this
      ensures r == BestPrice(Flat().asks)
    {
      FlattenFront(Sell, asks);
      if asks == map[] then None else Some(Best(Sell, asks))
    }
  }

  function BestPrice(s: seq<Entry>): Option<U64> {
    if s == [] then None else Some(s[0].price)
  }
}
