/**
 * The limit order book: per side, a map from price to the FIFO queue of
 * resting orders and a map from price to the level's aggregate quantity,
 * plus an index from order id to the side and price where the order rests.
 *
 * The queues are sequences and an order is found in its queue by id (the
 * first position holding that id); level totals are `uint64_t` and wrap
 * modulo 2^64. Prices are only compared and used as keys, so they are
 * integers here.
 */
module OrderBooks {
  import opened Base

  type Price = int

  datatype Order = Order(orderId: u64, isBuy: bool, price: Price, quantity: u64, timestampNs: u64)

  datatype PriceLevel = PriceLevel(price: Price, totalQuantity: u64)

  /** An index entry: where the order rests. */
  datatype OrderRef = OrderRef(isBuy: bool, price: Price)

  /** One side of the book: `bids_`/`bid_levels_` or `asks_`/`ask_levels_`. */
  datatype Side = Side(queues: map<Price, seq<Order>>, levels: map<Price, PriceLevel>)

  /** The whole book: both sides and `order_lookup_`. */
  datatype BookState = BookState(bids: Side, asks: Side, lookup: map<u64, OrderRef>)

  const EmptyBook: BookState := BookState(Side(map[], map[]), Side(map[], map[]), map[])

  // ---------------------------------------------------------------------
  // Queues

  /** Sum of the quantities of the orders in `q`. */
  function SumQuantity(q: seq<Order>): nat
  {
    if q == [] then 0 else SumQuantity(q[..|q| - 1]) + q[|q| - 1].quantity
  }

  /** Position of the first order with id `id` in `q`, or |q| when none has it. */
  function Locate(q: seq<Order>, id: u64): (k: nat)
    ensures k <= |q|
    ensures k < |q| ==> q[k].orderId == id
    ensures forall i :: 0 <= i < k ==> q[i].orderId != id
  {
    if q == [] then 0 else if q[0].orderId == id then 0 else 1 + Locate(q[1..], id)
  }

  /** `q` with the order at position `k` erased. */
  function EraseAt(q: seq<Order>, k: nat): (r: seq<Order>)
    requires k < |q|
    ensures |r| == |q| - 1
    ensures forall i :: 0 <= i < k ==> r[i] == q[i]
    ensures forall i :: k <= i < |r| ==> r[i] == q[i + 1]
  {
    q[..k] + q[k + 1..]
  }

  lemma {:induction false} SumQuantityConcat(a: seq<Order>, b: seq<Order>)
    ensures SumQuantity(a + b) == SumQuantity(a) + SumQuantity(b)
  {
    if b == [] {
      assert a + b == a;
    } else {
      assert (a + b)[..|a + b| - 1] == a + b[..|b| - 1];
      SumQuantityConcat(a, b[..|b| - 1]);
    }
  }

  /** Erasing an order takes its quantity out of the queue's sum. */
  lemma SumQuantityErase(q: seq<Order>, k: nat)
    requires k < |q|
    ensures SumQuantity(EraseAt(q, k)) + q[k].quantity == SumQuantity(q)
  {
    var a, b := q[..k], q[k + 1..];
    var tail := [q[k]] + b;
    SplitAt(q, k);
    SumQuantityConcat(a, tail);
    SumQuantityConcat([q[k]], b);
    SumQuantityConcat(a, b);
    SumQuantitySingle(q[k]);
  }

  lemma SplitAt(q: seq<Order>, k: nat)
    requires k < |q|
    ensures q == q[..k] + ([q[k]] + q[k + 1..])
  {
  }

  lemma SumQuantitySingle(o: Order)
    ensures SumQuantity([o]) == o.quantity
  {
    assert [o][..0] == [];
  }

  /** Replacing an order swaps its quantity in the queue's sum. */
  lemma SumQuantityReplace(q: seq<Order>, k: nat, o: Order)
    requires k < |q|
    ensures SumQuantity(q[k := o]) + q[k].quantity == SumQuantity(q) + o.quantity
  {
    SumQuantityErase(q, k);
    SumQuantityErase(q[k := o], k);
    assert EraseAt(q[k := o], k) == EraseAt(q, k);
  }

  /** Wrapping an intermediate result does not change the wrapped total. */
  lemma WrapOfWrap(a: int, b: int)
    ensures Wrap(Wrap(a) + b) == Wrap(a + b)
  {
    var c := a / TWO_TO_64;
    assert Wrap(a) == a - TWO_TO_64 * c;
    assert (a + b) - (Wrap(a) + b) == TWO_TO_64 * c;
    ShiftByModulus(Wrap(a) + b, c);
  }

  lemma ShiftByModulus(x: int, c: int)
    ensures Wrap(x + TWO_TO_64 * c) == Wrap(x)
  {
  }

  // ---------------------------------------------------------------------
  // The invariant

  /** A queue as it rests at price `p` on side `isBuy`: non-empty, every
      order of that side and price, no id twice. */
  ghost predicate QueueValid(q: seq<Order>, isBuy: bool, p: Price)
  {
    && q != []
    && (forall i :: 0 <= i < |q| ==> q[i].isBuy == isBuy && q[i].price == p)
    && (forall i, j :: 0 <= i < j < |q| ==> q[i].orderId != q[j].orderId)
  }

  /** A level exists exactly when its queue does, and its total is the sum
      of the queue's quantities modulo 2^64. */
  ghost predicate SideValid(s: Side, isBuy: bool)
  {
    && s.queues.Keys == s.levels.Keys
    && forall p :: p in s.queues ==>
        && QueueValid(s.queues[p], isBuy, p)
        && s.levels[p] == PriceLevel(p, Wrap(SumQuantity(s.queues[p])))
  }

  /** Every order resting on the side is in the index, at its side and price. */
  ghost predicate SideIndexed(s: Side, isBuy: bool, lookup: map<u64, OrderRef>)
  {
    forall p, i :: p in s.queues && 0 <= i < |s.queues[p]| ==>
      s.queues[p][i].orderId in lookup && lookup[s.queues[p][i].orderId] == OrderRef(isBuy, p)
  }

  function SideOf(st: BookState, isBuy: bool): Side
  {
    if isBuy then st.bids else st.asks
  }

  function WithSide(st: BookState, isBuy: bool, s: Side): (r: BookState)
    ensures SideOf(r, isBuy) == s && SideOf(r, !isBuy) == SideOf(st, !isBuy) && r.lookup == st.lookup
  {
    if isBuy then st.(bids := s) else st.(asks := s)
  }

  /** The order an index entry names rests in the queue it names. */
  ghost predicate Resolves(st: BookState, id: u64, r: OrderRef)
  {
    && r.price in SideOf(st, r.isBuy).queues
    && Locate(SideOf(st, r.isBuy).queues[r.price], id) < |SideOf(st, r.isBuy).queues[r.price]|
  }

  ghost predicate LookupResolves(st: BookState)
  {
    forall id :: id in st.lookup ==> Resolves(st, id, st.lookup[id])
  }

  ghost predicate BookValid(st: BookState)
  {
    && SideValid(st.bids, true) && SideValid(st.asks, false)
    && SideIndexed(st.bids, true, st.lookup) && SideIndexed(st.asks, false, st.lookup)
    && LookupResolves(st)
  }

  /** Where the index of a valid book sends a known id. */
  lemma ResolvedRef(st: BookState, id: u64)
    requires BookValid(st) && id in st.lookup
    ensures var r := st.lookup[id];
      && r.price in SideOf(st, r.isBuy).queues && r.price in SideOf(st, r.isBuy).levels
      && Locate(SideOf(st, r.isBuy).queues[r.price], id) < |SideOf(st, r.isBuy).queues[r.price]|
  {
    assert Resolves(st, id, st.lookup[id]);
  }

  // ---------------------------------------------------------------------
  // The operations on values

  /** `order` pushed to the back of the queue at its price, its quantity
      added to the level (created at zero if missing). */
  function AddToSide(s: Side, o: Order): (r: Side)
    ensures o.price in r.queues && o.price in r.levels
    ensures r.queues - {o.price} == s.queues - {o.price} && r.levels - {o.price} == s.levels - {o.price}
    ensures r.queues[o.price] == (if o.price in s.queues then s.queues[o.price] else []) + [o]
    ensures r.levels[o.price] == PriceLevel(o.price,
      Wrap((if o.price in s.levels then s.levels[o.price].totalQuantity else 0) + o.quantity))
  {
    var q := if o.price in s.queues then s.queues[o.price] else [];
    var total := if o.price in s.levels then s.levels[o.price].totalQuantity else 0;
    Side(s.queues[o.price := q + [o]], s.levels[o.price := PriceLevel(o.price, Wrap(total + o.quantity))])
  }

  /** `addorder`. */
  function Added(st: BookState, o: Order): (r: BookState)
    ensures r.lookup == st.lookup[o.orderId := OrderRef(o.isBuy, o.price)]
    ensures SideOf(r, o.isBuy) == AddToSide(SideOf(st, o.isBuy), o)
    ensures SideOf(r, !o.isBuy) == SideOf(st, !o.isBuy)
  {
    WithSide(st, o.isBuy, AddToSide(SideOf(st, o.isBuy), o)).(lookup := st.lookup[o.orderId := OrderRef(o.isBuy, o.price)])
  }

  /** The order at position `k` of the queue at `p` erased, its quantity
      subtracted from the level; queue and level dropped once empty. */
  function RemoveAt(s: Side, p: Price, k: nat): (r: Side)
    requires p in s.queues && p in s.levels && k < |s.queues[p]|
    ensures r.queues - {p} == s.queues - {p} && r.levels - {p} == s.levels - {p}
    ensures p in r.queues <==> |s.queues[p]| > 1
    ensures p in r.levels <==> |s.queues[p]| > 1
    ensures p in r.queues ==> r.queues[p] == EraseAt(s.queues[p], k)
    ensures p in r.levels ==>
      && r.levels[p].price == s.levels[p].price
      && Wrap(r.levels[p].totalQuantity + s.queues[p][k].quantity) == s.levels[p].totalQuantity
  {
    var q := s.queues[p];
    var rest := EraseAt(q, k);
    if rest == [] then Side(s.queues - {p}, s.levels - {p})
    else
      var level := s.levels[p];
      WrapOfWrap(level.totalQuantity - q[k].quantity, q[k].quantity);
      Side(s.queues[p := rest], s.levels[p := level.(totalQuantity := Wrap(level.totalQuantity - q[k].quantity))])
  }

  /** `cancelorder`: an unknown id changes nothing. */
  function Cancelled(st: BookState, id: u64): (r: BookState)
    requires BookValid(st)
    ensures id !in st.lookup ==> r == st
    ensures r.lookup == st.lookup - {id}
    ensures id in st.lookup ==> SideOf(r, !st.lookup[id].isBuy) == SideOf(st, !st.lookup[id].isBuy)
  {
    if id !in st.lookup then st
    else
      var ref := st.lookup[id];
      var s := SideOf(st, ref.isBuy);
      var k := Locate(s.queues[ref.price], id);
      WithSide(st, ref.isBuy, RemoveAt(s, ref.price, k)).(lookup := st.lookup - {id})
  }

  /** The resting order with id `id`. */
  function Resting(st: BookState, id: u64): (o: Order)
    requires BookValid(st) && id in st.lookup
    ensures o.orderId == id && o.isBuy == st.lookup[id].isBuy && o.price == st.lookup[id].price
  {
    var ref := st.lookup[id];
    var q := SideOf(st, ref.isBuy).queues[ref.price];
    q[Locate(q, id)]
  }

  /** `amendorder`: at a new price, cancel and re-add with the new price
      and quantity; at the same price, the quantity is replaced in place and
      the level total moves by the (wrapped) difference. */
  function Amended(st: BookState, id: u64, newPrice: Price, newQuantity: u64): (r: BookState)
    requires BookValid(st)
    ensures id !in st.lookup ==> r == st
    ensures r.lookup.Keys == st.lookup.Keys
    ensures id in st.lookup ==> SideOf(r, !st.lookup[id].isBuy) == SideOf(st, !st.lookup[id].isBuy)
  {
    if id !in st.lookup then st
    else
      var o := Resting(st, id);
      if newPrice != o.price then Added(Cancelled(st, id), o.(price := newPrice, quantity := newQuantity))
      else
        var s := SideOf(st, o.isBuy);
        WithSide(st, o.isBuy, ReplaceQuantity(s, o.price, Locate(s.queues[o.price], id), newQuantity))
  }
  // ---------------------------------------------------------------------
  // The invariant is preserved

  /** Appending a fresh order to a side keeps it valid and indexed. */
  lemma SideAddValid(s: Side, isBuy: bool, lookup: map<u64, OrderRef>, o: Order)
    requires SideValid(s, isBuy) && SideIndexed(s, isBuy, lookup)
    requires o.orderId !in lookup && o.isBuy == isBuy
    ensures SideValid(AddToSide(s, o), isBuy)
    ensures SideIndexed(AddToSide(s, o), isBuy, lookup[o.orderId := OrderRef(isBuy, o.price)])
  {
    var p := o.price;
    var q := if p in s.queues then s.queues[p] else [];
    var total := if p in s.levels then s.levels[p].totalQuantity else 0;
    var level := PriceLevel(p, Wrap(total + o.quantity));
    var lookup' := lookup[o.orderId := OrderRef(isBuy, p)];
    assert AddToSide(s, o) == Side(s.queues[p := q + [o]], s.levels[p := level]);
    assert forall i :: 0 <= i < |q| ==> q[i].orderId in lookup && lookup[q[i].orderId] == OrderRef(isBuy, p);
    AppendKeepsQueueValid(q, o, isBuy, total);
    SideIndexedExtend(s, isBuy, lookup, o.orderId, OrderRef(isBuy, p));
    SideUpdateValid(s, isBuy, p, q + [o], level);
    SideIndexedUpdate(s, isBuy, lookup', p, q + [o], s.levels[p := level]);
  }

  /** Installing a valid queue at `p`, with the level its sum gives,
      keeps a side valid. */
  lemma SideUpdateValid(s: Side, isBuy: bool, p: Price, q: seq<Order>, level: PriceLevel)
    requires SideValid(s, isBuy) && QueueValid(q, isBuy, p)
    requires level == PriceLevel(p, Wrap(SumQuantity(q)))
    ensures SideValid(Side(s.queues[p := q], s.levels[p := level]), isBuy)
  {
  }

  /** Installing a queue whose orders are all indexed at `p` keeps a side
      indexed, whatever the levels. */
  lemma SideIndexedUpdate(s: Side, isBuy: bool, lookup: map<u64, OrderRef>, p: Price, q: seq<Order>, levels: map<Price, PriceLevel>)
    requires SideIndexed(s, isBuy, lookup)
    requires forall i :: 0 <= i < |q| ==> q[i].orderId in lookup && lookup[q[i].orderId] == OrderRef(isBuy, p)
    ensures SideIndexed(Side(s.queues[p := q], levels), isBuy, lookup)
  {
  }

  /** A queue with a fresh order of its side and price appended is valid,
      and the level total grows by its quantity. */
  lemma AppendKeepsQueueValid(q: seq<Order>, o: Order, isBuy: bool, total: u64)
    requires q == [] || QueueValid(q, isBuy, o.price)
    requires total == Wrap(SumQuantity(q))
    requires o.isBuy == isBuy && forall i :: 0 <= i < |q| ==> q[i].orderId != o.orderId
    ensures QueueValid(q + [o], isBuy, o.price)
    ensures Wrap(total + o.quantity) == Wrap(SumQuantity(q + [o]))
  {
    SumQuantityAppend(q, o);
    WrapOfWrap(SumQuantity(q), o.quantity);
    var q' := q + [o];
    forall i, j | 0 <= i < j < |q'|
      ensures q'[i].orderId != q'[j].orderId
    {
      assert q'[i] == q[i];
    }
  }

  lemma SumQuantityAppend(q: seq<Order>, o: Order)
    ensures SumQuantity(q + [o]) == SumQuantity(q) + o.quantity
  {
    assert (q + [o])[..|q|] == q;
  }

  /** Indexing a new id leaves a side's orders indexed. */
  lemma SideIndexedExtend(s: Side, isBuy: bool, lookup: map<u64, OrderRef>, id: u64, ref: OrderRef)
    requires SideIndexed(s, isBuy, lookup) && id !in lookup
    ensures SideIndexed(s, isBuy, lookup[id := ref])
  {
  }

  /** Dropping an id indexed on the other side leaves a side indexed. */
  lemma SideIndexedShrink(s: Side, isBuy: bool, lookup: map<u64, OrderRef>, id: u64)
    requires SideIndexed(s, isBuy, lookup) && id in lookup && lookup[id].isBuy != isBuy
    ensures SideIndexed(s, isBuy, lookup - {id})
  {
  }

  /** `addorder` of an order whose id is not in the book keeps the book
      valid, and the order then rests last in the queue at its price. */
  lemma AddedValid(st: BookState, o: Order)
    requires BookValid(st) && o.orderId !in st.lookup
    ensures BookValid(Added(st, o))
    ensures o.orderId in Added(st, o).lookup && Resting(Added(st, o), o.orderId) == o
    ensures var q := SideOf(Added(st, o), o.isBuy).queues[o.price]; q[|q| - 1] == o
  {
    AddedSides(st, o);
    AddedResolves(st, o);
    var q := AddedQueue(st, o);
    assert Locate(q + [o], o.orderId) == |q| by {
      assert forall i :: 0 <= i < |q| ==> q[i].orderId in st.lookup;
    }
  }

  /** The queue an order is appended to (empty when its level is new). */
  function AddedQueue(st: BookState, o: Order): (q: seq<Order>)
    ensures SideOf(Added(st, o), o.isBuy).queues[o.price] == q + [o]
  {
    var s := SideOf(st, o.isBuy);
    if o.price in s.queues then s.queues[o.price] else []
  }

  lemma AddedSides(st: BookState, o: Order)
    requires BookValid(st) && o.orderId !in st.lookup
    ensures SideValid(Added(st, o).bids, true) && SideValid(Added(st, o).asks, false)
    ensures SideIndexed(Added(st, o).bids, true, Added(st, o).lookup)
    ensures SideIndexed(Added(st, o).asks, false, Added(st, o).lookup)
  {
    SideAddValid(SideOf(st, o.isBuy), o.isBuy, st.lookup, o);
    SideIndexedExtend(SideOf(st, !o.isBuy), !o.isBuy, st.lookup, o.orderId, OrderRef(o.isBuy, o.price));
  }

  lemma AddedResolves(st: BookState, o: Order)
    requires BookValid(st) && o.orderId !in st.lookup
    ensures LookupResolves(Added(st, o))
  {
    var r := Added(st, o);
    var q := AddedQueue(st, o);
    forall id | id in r.lookup
      ensures Resolves(r, id, r.lookup[id])
    {
      if id == o.orderId {
        assert (q + [o])[|q|].orderId == id;
      } else {
        var ref := st.lookup[id];
        assert Resolves(st, id, ref);
        if ref.isBuy == o.isBuy && ref.price == o.price {
          var k := Locate(q, id);
          assert (q + [o])[k] == q[k];
        }
      }
    }
  }

  /** Erasing one order of a valid queue leaves a valid queue, unless it
      was the last one. */
  lemma EraseKeepsQueueValid(q: seq<Order>, k: nat, isBuy: bool, p: Price)
    requires QueueValid(q, isBuy, p) && k < |q| && |q| > 1
    ensures QueueValid(EraseAt(q, k), isBuy, p)
    ensures forall i :: 0 <= i < |EraseAt(q, k)| ==> EraseAt(q, k)[i].orderId != q[k].orderId
  {
    var r := EraseAt(q, k);
    forall i, j | 0 <= i < j < |r|
      ensures r[i].orderId != r[j].orderId
    {
      var i' := if i < k then i else i + 1;
      var j' := if j < k then j else j + 1;
      assert r[i] == q[i'] && r[j] == q[j'];
    }
    forall i | 0 <= i < |r|
      ensures r[i].orderId != q[k].orderId
    {
      var i' := if i < k then i else i + 1;
      assert r[i] == q[i'];
    }
  }

  /** Erasing a located order from a side keeps the side valid, and indexed
      once its id is dropped from the index. */
  lemma SideRemoveValid(s: Side, isBuy: bool, lookup: map<u64, OrderRef>, id: u64)
    requires SideValid(s, isBuy) && SideIndexed(s, isBuy, lookup)
    requires id in lookup && lookup[id].isBuy == isBuy && lookup[id].price in s.queues
    requires Locate(s.queues[lookup[id].price], id) < |s.queues[lookup[id].price]|
    ensures var p := lookup[id].price;
      var r := RemoveAt(s, p, Locate(s.queues[p], id));
      SideValid(r, isBuy) && SideIndexed(r, isBuy, lookup - {id})
  {
    var p := lookup[id].price;
    var k := Locate(s.queues[p], id);
    SideRemoveStaysValid(s, isBuy, p, k);
    SideRemoveStaysIndexed(s, isBuy, lookup, id, p, k);
  }

  lemma SideRemoveStaysValid(s: Side, isBuy: bool, p: Price, k: nat)
    requires SideValid(s, isBuy) && p in s.queues && k < |s.queues[p]|
    ensures SideValid(RemoveAt(s, p, k), isBuy)
  {
    var q := s.queues[p];
    var r := RemoveAt(s, p, k);
    var rest := EraseAt(q, k);
    if rest != [] {
      EraseKeepsQueueValid(q, k, isBuy, p);
      SumQuantityErase(q, k);
      WrapOfWrap(SumQuantity(q), -(q[k].quantity as int));
      assert r.levels[p] == PriceLevel(p, Wrap(SumQuantity(rest)));
      assert r.queues[p] == rest;
    }
  }

  lemma SideRemoveStaysIndexed(s: Side, isBuy: bool, lookup: map<u64, OrderRef>, id: u64, p: Price, k: nat)
    requires SideValid(s, isBuy) && SideIndexed(s, isBuy, lookup)
    requires id in lookup && lookup[id] == OrderRef(isBuy, p) && p in s.queues
    requires k < |s.queues[p]| && s.queues[p][k].orderId == id
    ensures SideIndexed(RemoveAt(s, p, k), isBuy, lookup - {id})
  {
    var q := s.queues[p];
    var r := RemoveAt(s, p, k);
    forall p2, i | p2 in r.queues && 0 <= i < |r.queues[p2]|
      ensures r.queues[p2][i].orderId in lookup - {id}
      ensures (lookup - {id})[r.queues[p2][i].orderId] == OrderRef(isBuy, p2)
    {
      if p2 == p {
        var i' := if i < k then i else i + 1;
        assert r.queues[p2][i] == q[i'];
        assert q[i'].orderId != id;
      } else {
        assert r.queues[p2] == s.queues[p2];
      }
    }
  }

  /** `cancelorder` keeps the book valid, drops exactly the cancelled id
      from the index, and leaves every other resting order where and as it
      was. */
  lemma CancelledValid(st: BookState, id: u64)
    requires BookValid(st)
    ensures BookValid(Cancelled(st, id))
    ensures Cancelled(st, id).lookup == st.lookup - {id}
    ensures forall id2 :: id2 in st.lookup && id2 != id ==> Resting(Cancelled(st, id), id2) == Resting(st, id2)
  {
    if id in st.lookup {
      var r := Cancelled(st, id);
      CancelledSides(st, id);
      forall id2 | id2 in r.lookup
        ensures Resolves(r, id2, r.lookup[id2])
      {
        CancelledOther(st, id, id2);
      }
      assert LookupResolves(r);
      forall id2 | id2 in st.lookup && id2 != id
        ensures Resting(r, id2) == Resting(st, id2)
      {
        CancelledOther(st, id, id2);
      }
    }
  }

  lemma CancelledSides(st: BookState, id: u64)
    requires BookValid(st) && id in st.lookup
    ensures SideValid(Cancelled(st, id).bids, true) && SideValid(Cancelled(st, id).asks, false)
    ensures SideIndexed(Cancelled(st, id).bids, true, Cancelled(st, id).lookup)
    ensures SideIndexed(Cancelled(st, id).asks, false, Cancelled(st, id).lookup)
  {
    var ref := st.lookup[id];
    assert Resolves(st, id, ref);
    SideRemoveValid(SideOf(st, ref.isBuy), ref.isBuy, st.lookup, id);
    SideIndexedShrink(SideOf(st, !ref.isBuy), !ref.isBuy, st.lookup, id);
  }

  /** Another indexed order still resolves after a cancel, to the same
      order. */
  lemma CancelledOther(st: BookState, id: u64, id2: u64)
    requires BookValid(st) && id in st.lookup && id2 in st.lookup && id2 != id
    ensures Resolves(Cancelled(st, id), id2, st.lookup[id2])
    ensures var rq := SideOf(Cancelled(st, id), st.lookup[id2].isBuy).queues[st.lookup[id2].price];
      rq[Locate(rq, id2)] == Resting(st, id2)
  {
    var ref, ref2 := st.lookup[id], st.lookup[id2];
    assert Resolves(st, id, ref) && Resolves(st, id2, ref2);
    var r := Cancelled(st, id);
    var s := SideOf(st, ref.isBuy);
    var q := s.queues[ref.price];
    var k := Locate(q, id);
    if ref2.isBuy == ref.isBuy && ref2.price == ref.price {
      EraseKeepsOther(q, k, id2, ref.isBuy, ref.price);
      assert SideOf(r, ref.isBuy).queues[ref.price] == EraseAt(q, k);
    } else {
      assert SideOf(r, ref2.isBuy).queues[ref2.price] == SideOf(st, ref2.isBuy).queues[ref2.price];
    }
  }

  /** Erasing one order keeps every other order of the queue findable,
      and finds the same order. */
  lemma EraseKeepsOther(q: seq<Order>, k: nat, id2: u64, isBuy: bool, p: Price)
    requires QueueValid(q, isBuy, p) && k < |q| && q[k].orderId != id2 && Locate(q, id2) < |q|
    ensures EraseAt(q, k) != []
    ensures Locate(EraseAt(q, k), id2) < |EraseAt(q, k)|
    ensures EraseAt(q, k)[Locate(EraseAt(q, k), id2)] == q[Locate(q, id2)]
  {
    var k2 := Locate(q, id2);
    var rest := EraseAt(q, k);
    var j := if k2 < k then k2 else k2 - 1;
    assert rest[j] == q[k2];
    EraseKeepsQueueValid(q, k, isBuy, p);
    var l := Locate(rest, id2);
    assert l == j;
  }

  /** Locating by id only looks at the ids. */
  lemma {:induction false} LocateSameIds(q: seq<Order>, q': seq<Order>, id: u64)
    requires |q| == |q'| && forall i :: 0 <= i < |q| ==> q[i].orderId == q'[i].orderId
    ensures Locate(q', id) == Locate(q, id)
  {
    if q != [] && q[0].orderId != id {
      LocateSameIds(q[1..], q'[1..], id);
    }
  }

  /** The side after an in-place quantity change of the order at `k`. */
  function ReplaceQuantity(s: Side, p: Price, k: nat, newQuantity: u64): (r: Side)
    requires p in s.queues && p in s.levels && k < |s.queues[p]|
    ensures p in r.queues && p in r.levels
    ensures r.queues - {p} == s.queues - {p} && r.levels - {p} == s.levels - {p}
    ensures r.queues[p] == s.queues[p][k := s.queues[p][k].(quantity := newQuantity)]
    ensures r.levels[p].price == s.levels[p].price
    ensures Wrap(r.levels[p].totalQuantity + s.queues[p][k].quantity) == Wrap(s.levels[p].totalQuantity + newQuantity)
  {
    var q := s.queues[p];
    var level := s.levels[p];
    var total := Wrap(level.totalQuantity + Wrap(newQuantity - q[k].quantity));
    ShiftedTotal(level.totalQuantity, q[k].quantity, newQuantity);
    var q' := q[k := q[k].(quantity := newQuantity)];
    Side(s.queues[p := q'], s.levels[p := level.(totalQuantity := total)])
  }

  /** Moving a total by the wrapped difference `new - old` and adding
      `old` back gives the total plus `new`, modulo 2^64. */
  lemma ShiftedTotal(total: int, oldQuantity: int, newQuantity: int)
    ensures Wrap(Wrap(total + Wrap(newQuantity - oldQuantity)) + oldQuantity) == Wrap(total + newQuantity)
  {
    WrapOfWrap(total + Wrap(newQuantity - oldQuantity), oldQuantity);
    WrapOfWrap(newQuantity - oldQuantity, total + oldQuantity);
  }

  /** Changing a quantity in place keeps a side valid and indexed. */
  lemma ReplaceQuantityValid(s: Side, isBuy: bool, lookup: map<u64, OrderRef>, p: Price, k: nat, newQuantity: u64)
    requires SideValid(s, isBuy) && SideIndexed(s, isBuy, lookup) && p in s.queues && k < |s.queues[p]|
    ensures SideValid(ReplaceQuantity(s, p, k, newQuantity), isBuy)
    ensures SideIndexed(ReplaceQuantity(s, p, k, newQuantity), isBuy, lookup)
  {
    var q := s.queues[p];
    var q' := q[k := q[k].(quantity := newQuantity)];
    var old_ := s.levels[p];
    var level := old_.(totalQuantity := Wrap(old_.totalQuantity + Wrap(newQuantity - q[k].quantity)));
    assert ReplaceQuantity(s, p, k, newQuantity) == Side(s.queues[p := q'], s.levels[p := level]);
    ReplaceKeepsQueueValid(q, k, newQuantity, isBuy, p, old_.totalQuantity);
    assert forall i :: 0 <= i < |q| ==> q[i].orderId in lookup && lookup[q[i].orderId] == OrderRef(isBuy, p);
    SideUpdateValid(s, isBuy, p, q', level);
    SideIndexedUpdate(s, isBuy, lookup, p, q', s.levels[p := level]);
  }

  /** A quantity changed in place leaves a queue valid, and moving the
      level total by the wrapped difference keeps it the queue's sum. */
  lemma ReplaceKeepsQueueValid(q: seq<Order>, k: nat, newQuantity: u64, isBuy: bool, p: Price, total: u64)
    requires QueueValid(q, isBuy, p) && k < |q| && total == Wrap(SumQuantity(q))
    ensures QueueValid(q[k := q[k].(quantity := newQuantity)], isBuy, p)
    ensures forall i :: 0 <= i < |q| ==> q[k := q[k].(quantity := newQuantity)][i].orderId == q[i].orderId
    ensures Wrap(total + Wrap(newQuantity - q[k].quantity)) == Wrap(SumQuantity(q[k := q[k].(quantity := newQuantity)]))
  {
    var o := q[k];
    var q' := q[k := o.(quantity := newQuantity)];
    assert forall i :: 0 <= i < |q| ==> q'[i].orderId == q[i].orderId;
    SumQuantityReplace(q, k, o.(quantity := newQuantity));
    WrapMove(SumQuantity(q), SumQuantity(q'), o.quantity, newQuantity);
  }

  /** Moving a wrapped total by the wrapped difference of one term gives
      the wrapped new total. */
  lemma WrapMove(sum: int, sum': int, oldTerm: int, newTerm: int)
    requires sum' + oldTerm == sum + newTerm
    ensures Wrap(Wrap(sum) + Wrap(newTerm - oldTerm)) == Wrap(sum')
  {
    var diff := newTerm - oldTerm;
    WrapOfWrap(sum, Wrap(diff));
    WrapOfWrap(diff, sum);
    assert diff + sum == sum';
  }

  /** `amendorder` at the order's own price: the book stays valid, the order
      keeps its place in the queue and has the new quantity. */
  lemma AmendedInPlace(st: BookState, id: u64, newQuantity: u64)
    requires BookValid(st) && id in st.lookup
    ensures BookValid(Amended(st, id, Resting(st, id).price, newQuantity))
    ensures Amended(st, id, Resting(st, id).price, newQuantity).lookup == st.lookup
    ensures Resting(Amended(st, id, Resting(st, id).price, newQuantity), id)
      == Resting(st, id).(quantity := newQuantity)
    ensures Locate(SideOf(Amended(st, id, Resting(st, id).price, newQuantity), st.lookup[id].isBuy).queues[st.lookup[id].price], id)
      == Locate(SideOf(st, st.lookup[id].isBuy).queues[st.lookup[id].price], id)
  {
    var ref := st.lookup[id];
    assert Resolves(st, id, ref);
    var s := SideOf(st, ref.isBuy);
    var q := s.queues[ref.price];
    var k := Locate(q, id);
    var r := WithSide(st, ref.isBuy, ReplaceQuantity(s, ref.price, k, newQuantity));
    AmendedInPlaceIs(st, id, newQuantity);
    ReplaceQuantityValid(s, ref.isBuy, st.lookup, ref.price, k, newQuantity);
    ReplacedResolves(st, ref.isBuy, ref.price, k, newQuantity);
  }

  lemma AmendedInPlaceIs(st: BookState, id: u64, newQuantity: u64)
    requires BookValid(st) && id in st.lookup
    ensures var ref := st.lookup[id];
      var s := SideOf(st, ref.isBuy);
      Amended(st, id, Resting(st, id).price, newQuantity)
        == WithSide(st, ref.isBuy, ReplaceQuantity(s, ref.price, Locate(s.queues[ref.price], id), newQuantity))
  {
  }

  /** After an in-place quantity change every index entry still resolves,
      at the same position. */
  lemma ReplacedResolves(st: BookState, isBuy: bool, p: Price, k: nat, newQuantity: u64)
    requires BookValid(st) && p in SideOf(st, isBuy).queues && k < |SideOf(st, isBuy).queues[p]|
    ensures var r := WithSide(st, isBuy, ReplaceQuantity(SideOf(st, isBuy), p, k, newQuantity));
      && LookupResolves(r)
      && (forall id :: Locate(SideOf(r, isBuy).queues[p], id) == Locate(SideOf(st, isBuy).queues[p], id))
      && r.lookup == st.lookup
      && SideOf(r, isBuy).queues[p] == SideOf(st, isBuy).queues[p][k := SideOf(st, isBuy).queues[p][k].(quantity := newQuantity)]
  {
    var s := SideOf(st, isBuy);
    var q := s.queues[p];
    var q' := q[k := q[k].(quantity := newQuantity)];
    ReplacedLocates(q, k, newQuantity);
    var r := WithSide(st, isBuy, ReplaceQuantity(s, p, k, newQuantity));
    assert SideOf(r, isBuy).queues[p] == q';
    forall id2 | id2 in r.lookup
      ensures Resolves(r, id2, r.lookup[id2])
    {
      assert Resolves(st, id2, st.lookup[id2]);
    }
  }

  /** Every id is found at the same position after a quantity change. */
  lemma ReplacedLocates(q: seq<Order>, k: nat, newQuantity: u64)
    requires k < |q|
    ensures forall x :: Locate(q[k := q[k].(quantity := newQuantity)], x) == Locate(q, x)
  {
    var q' := q[k := q[k].(quantity := newQuantity)];
    forall x
      ensures Locate(q', x) == Locate(q, x)
    {
      LocateSameIds(q, q', x);
    }
  }

  /** `amendorder` at a new price: the book stays valid and the order, with
      its id, side and timestamp, rests last at the new price with the new
      quantity. */
  lemma AmendedMoved(st: BookState, id: u64, newPrice: Price, newQuantity: u64)
    requires BookValid(st) && id in st.lookup && newPrice != Resting(st, id).price
    ensures BookValid(Amended(st, id, newPrice, newQuantity))
    ensures Amended(st, id, newPrice, newQuantity).lookup == st.lookup[id := OrderRef(st.lookup[id].isBuy, newPrice)]
    ensures Resting(Amended(st, id, newPrice, newQuantity), id)
      == Resting(st, id).(price := newPrice, quantity := newQuantity)
    ensures var q := SideOf(Amended(st, id, newPrice, newQuantity), st.lookup[id].isBuy).queues[newPrice];
      q[|q| - 1] == Resting(st, id).(price := newPrice, quantity := newQuantity)
  {
    AmendedMovedOrder(st, id, newPrice, newQuantity);
    AmendedMovedIndex(st, id, newPrice, newQuantity);
  }

  lemma AmendedMovedOrder(st: BookState, id: u64, newPrice: Price, newQuantity: u64)
    requires BookValid(st) && id in st.lookup && newPrice != Resting(st, id).price
    ensures BookValid(Amended(st, id, newPrice, newQuantity))
    ensures Resting(Amended(st, id, newPrice, newQuantity), id)
      == Resting(st, id).(price := newPrice, quantity := newQuantity)
    ensures var q := SideOf(Amended(st, id, newPrice, newQuantity), st.lookup[id].isBuy).queues[newPrice];
      q[|q| - 1] == Resting(st, id).(price := newPrice, quantity := newQuantity)
  {
    var amended := Resting(st, id).(price := newPrice, quantity := newQuantity);
    CancelledValid(st, id);
    AddedValid(Cancelled(st, id), amended);
    AmendedIsCancelAdd(st, id, newPrice, newQuantity);
  }

  lemma AmendedMovedIndex(st: BookState, id: u64, newPrice: Price, newQuantity: u64)
    requires BookValid(st) && id in st.lookup && newPrice != Resting(st, id).price
    ensures Amended(st, id, newPrice, newQuantity).lookup == st.lookup[id := OrderRef(st.lookup[id].isBuy, newPrice)]
  {
    var amended := Resting(st, id).(price := newPrice, quantity := newQuantity);
    AmendedIsCancelAdd(st, id, newPrice, newQuantity);
    CancelledIndex(st, id);
    AddedIndex(Cancelled(st, id), amended);
    ReindexMoved(st.lookup, id, OrderRef(st.lookup[id].isBuy, newPrice));
  }

  lemma CancelledIndex(st: BookState, id: u64)
    requires BookValid(st)
    ensures Cancelled(st, id).lookup == st.lookup - {id}
  {
  }

  lemma AddedIndex(st: BookState, o: Order)
    ensures Added(st, o).lookup == st.lookup[o.orderId := OrderRef(o.isBuy, o.price)]
  {
  }

  lemma ReindexMoved(lookup: map<u64, OrderRef>, id: u64, ref: OrderRef)
    ensures (lookup - {id})[id := ref] == lookup[id := ref]
  {
  }

  /** `Amended` unfolded at a new price, for the proofs above. */
  lemma AmendedIsCancelAdd(st: BookState, id: u64, newPrice: Price, newQuantity: u64)
    requires BookValid(st) && id in st.lookup && newPrice != Resting(st, id).price
    ensures Amended(st, id, newPrice, newQuantity)
      == Added(Cancelled(st, id), Resting(st, id).(price := newPrice, quantity := newQuantity))
  {
  }

  /** An order whose id is nowhere in the queue is found at the back once
      appended. */
  lemma LocateAppended(q: seq<Order>, o: Order)
    requires forall i :: 0 <= i < |q| ==> q[i].orderId != o.orderId
    ensures Locate(q + [o], o.orderId) == |q|
  {
    assert (q + [o])[|q|] == o;
  }

  /** Erasing the order just appended to a side gives the side back. */
  lemma RemoveUndoesAdd(s: Side, isBuy: bool, o: Order)
    requires SideValid(s, isBuy)
    ensures var q := if o.price in s.queues then s.queues[o.price] else [];
      var a := AddToSide(s, o);
      o.price in a.queues && o.price in a.levels && |q| < |a.queues[o.price]|
      && RemoveAt(a, o.price, |q|) == s
  {
    var p := o.price;
    var q := if p in s.queues then s.queues[p] else [];
    var a := AddToSide(s, o);
    assert a.queues[p] == q + [o];
    assert EraseAt(q + [o], |q|) == q;
    if q == [] {
      assert a.queues - {p} == s.queues;
      assert a.levels - {p} == s.levels;
    } else {
      var t := s.levels[p].totalQuantity;
      WrapOfWrap(t + o.quantity, -(o.quantity as int));
      assert a.queues[p := q] == s.queues;
      assert a.levels[p := a.levels[p].(totalQuantity := t)] == s.levels;
    }
  }

  /** Cancelling an order right after adding it restores the book: cancel
      undoes add. */
  lemma CancelUndoesAdd(st: BookState, o: Order)
    requires BookValid(st) && o.orderId !in st.lookup
    ensures BookValid(Added(st, o))
    ensures Cancelled(Added(st, o), o.orderId) == st
  {
    AddedValid(st, o);
    AddedQueueFresh(st, o);
    LocateAppended(AddedQueue(st, o), o);
    RemoveUndoesAdd(SideOf(st, o.isBuy), o.isBuy, o);
    UnindexRestores(st.lookup, o.orderId, OrderRef(o.isBuy, o.price));
  }

  lemma AddedQueueFresh(st: BookState, o: Order)
    requires BookValid(st) && o.orderId !in st.lookup
    ensures forall i :: 0 <= i < |AddedQueue(st, o)| ==> AddedQueue(st, o)[i].orderId != o.orderId
  {
    var q := AddedQueue(st, o);
    assert forall i :: 0 <= i < |q| ==> q[i].orderId in st.lookup;
  }

  /** Indexing a fresh id and then unindexing it gives the index back. */
  lemma UnindexRestores(lookup: map<u64, OrderRef>, id: u64, r: OrderRef)
    requires id !in lookup
    ensures lookup[id := r] - {id} == lookup
  {
  }

  // ---------------------------------------------------------------------
  // Snapshots

  /** `a` is listed before `b`: bids from the highest price down
      (`std::greater`), asks from the lowest price up. */
  predicate Better(descending: bool, a: Price, b: Price)
  {
    if descending then a > b else a < b
  }

  function Prices(levels: seq<PriceLevel>): set<Price>
  {
    set i | 0 <= i < |levels| :: levels[i].price
  }

  lemma PricesAppend(out: seq<PriceLevel>, level: PriceLevel)
    ensures Prices(out + [level]) == Prices(out) + {level.price}
  {
    var o := out + [level];
    assert o[|out|] == level;
    forall p | p in Prices(o)
      ensures p in Prices(out) + {level.price}
    {
      var i :| 0 <= i < |o| && o[i].price == p;
      if i < |out| {
        assert out[i] == o[i];
      }
    }
    forall p | p in Prices(out)
      ensures p in Prices(o)
    {
      var i :| 0 <= i < |out| && out[i].price == p;
      assert o[i] == out[i];
    }
  }

  /** `out` is the first `depth` levels of `levels` in the side's order:
      as many as exist up to `depth`, each one of the book's levels, in
      strictly better-first order, and no level left out is better than
      one listed. */
  ghost predicate IsTop(levels: map<Price, PriceLevel>, depth: nat, descending: bool, out: seq<PriceLevel>)
  {
    && |out| == (if depth < |levels| then depth else |levels|)
    && (forall i :: 0 <= i < |out| ==> out[i].price in levels && levels[out[i].price] == out[i])
    && (forall i, j :: 0 <= i < j < |out| ==> Better(descending, out[i].price, out[j].price))
    && (forall p, i :: p in levels && p !in Prices(out) && 0 <= i < |out| ==> Better(descending, out[i].price, p))
  }

  /** Some price of a non-empty set. */
  lemma Pick(prices: set<Price>) returns (x: Price)
    requires prices != {}
    ensures x in prices
  {
    if forall p :: p !in prices {
      assert false;
    }
    x :| x in prices;
  }

  /** Every non-empty set of prices has a best one. */
  lemma {:induction false} BestOf(prices: set<Price>, descending: bool) returns (b: Price)
    requires prices != {}
    ensures b in prices && forall p :: p in prices && p != b ==> Better(descending, b, p)
  {
    var x := Pick(prices);
    var rest := prices - {x};
    if rest == {} {
      b := x;
      forall p | p in prices
        ensures p == x
      {
        assert p !in rest;
      }
    } else {
      var c := BestOf(rest, descending);
      b := if Better(descending, x, c) then x else c;
      forall p | p in prices && p != b
        ensures Better(descending, b, p)
      {
        if p != x {
          assert p in rest;
        }
      }
    }
  }

  /** Loop state of a snapshot walk: `out` holds the levels taken so far,
      best first, and `remaining` the prices not yet taken, none of which is
      better than a taken one. */
  ghost predicate Selected(levels: map<Price, PriceLevel>, descending: bool, out: seq<PriceLevel>, remaining: set<Price>)
  {
    && remaining <= levels.Keys
    && |out| + |remaining| == |levels|
    && (forall i :: 0 <= i < |out| ==> out[i].price in levels && levels[out[i].price] == out[i] && out[i].price !in remaining)
    && (forall i, j :: 0 <= i < j < |out| ==> Better(descending, out[i].price, out[j].price))
    && (forall p, i :: p in remaining && 0 <= i < |out| ==> Better(descending, out[i].price, p))
    && (forall p :: p in levels && p !in remaining ==> p in Prices(out))
  }

  /** Taking the best remaining level keeps the walk's state. */
  lemma SelectedStep(levels: map<Price, PriceLevel>, descending: bool, out: seq<PriceLevel>, remaining: set<Price>, best: Price)
    requires forall p :: p in levels ==> levels[p].price == p
    requires Selected(levels, descending, out, remaining)
    requires best in remaining && forall p :: p in remaining && p != best ==> Better(descending, best, p)
    ensures Selected(levels, descending, out + [levels[best]], remaining - {best})
  {
    var o := out + [levels[best]];
    PricesAppend(out, levels[best]);
    assert |remaining - {best}| == |remaining| - 1;
    forall i, j | 0 <= i < j < |o|
      ensures Better(descending, o[i].price, o[j].price)
    {
      if j == |out| {
        assert o[i] == out[i];
      }
    }
  }

  /** A walk stopped at `depth` levels or after the last one has produced
      the top `depth` levels. */
  lemma SelectedTop(levels: map<Price, PriceLevel>, depth: nat, descending: bool, out: seq<PriceLevel>, remaining: set<Price>)
    requires Selected(levels, descending, out, remaining)
    requires |out| <= depth && (remaining == {} || |out| == depth)
    ensures IsTop(levels, depth, descending, out)
  {
    forall p, i | p in levels && p !in Prices(out) && 0 <= i < |out|
      ensures Better(descending, out[i].price, p)
    {
      assert p in remaining;
    }
  }

  /** The loop of `get_snapshot` over one side's level map: walk the levels
      in the map's order and copy each one out until `depth` are copied. */
  method TopLevels(levels: map<Price, PriceLevel>, depth: nat, descending: bool) returns (out: seq<PriceLevel>)
    requires forall p :: p in levels ==> levels[p].price == p
    ensures IsTop(levels, depth, descending, out)
  {
    out := [];
    var remaining := levels.Keys;
    var count := 0;
    while remaining != {} && count < depth
      invariant count == |out| <= depth
      invariant Selected(levels, descending, out, remaining)
    {
      ghost var b := BestOf(remaining, descending);
      var best :| best in remaining && forall p :: p in remaining && p != best ==> Better(descending, best, p);
      SelectedStep(levels, descending, out, remaining, best);
      out := out + [levels[best]];
      remaining := remaining - {best};
      count := count + 1;
    }
    SelectedTop(levels, depth, descending, out, remaining);
  }

  // ---------------------------------------------------------------------
  // The book

  class OrderBook {
    var bids: map<Price, seq<Order>>
    var asks: map<Price, seq<Order>>
    var bidLevels: map<Price, PriceLevel>
    var askLevels: map<Price, PriceLevel>
    var orderLookup: map<u64, OrderRef>

    function State(): BookState
      reads this
    {
      BookState(Side(bids, bidLevels), Side(asks, askLevels), orderLookup)
    }

    ghost predicate Valid()
      reads this
    {
      BookValid(State())
    }

    /** An empty book. */
    constructor ()
      ensures Valid() && State() == EmptyBook
    {
      bids, asks, bidLevels, askLevels, orderLookup := map[], map[], map[], map[], map[];
    }

    /** `addorder`: the order joins the back of the queue at its price on
        its side, its quantity is added to that level (wrapping modulo
        2^64), and its id is indexed. Ids must be fresh. */
    method AddOrder(order: Order)
      requires Valid() && order.orderId !in orderLookup
      modifies this
      ensures Valid() && State() == Added(old(State()), order)
    {
      ghost var st := State();
      if order.isBuy {
        var side := AddToSide(Side(bids, bidLevels), order);
        bids, bidLevels := side.queues, side.levels;
        orderLookup := orderLookup[order.orderId := OrderRef(true, order.price)];
      } else {
        var side := AddToSide(Side(asks, askLevels), order);
        asks, askLevels := side.queues, side.levels;
        orderLookup := orderLookup[order.orderId := OrderRef(false, order.price)];
      }
      assert State() == Added(st, order);
      AddedValid(st, order);
    }

    /** `cancelorder`: false and no change for an unknown id; otherwise the
        order leaves its queue, its quantity leaves the level total, a queue
        left empty takes its level with it, and the id is unindexed. */
    method CancelOrder(orderId: u64) returns (ok: bool)
      requires Valid()
      modifies this
      ensures ok <==> orderId in old(orderLookup)
      ensures Valid() && State() == Cancelled(old(State()), orderId)
    {
      if orderId !in orderLookup {
        return false;
      }
      ghost var st := State();
      var ref := orderLookup[orderId];
      ResolvedRef(st, orderId);
      if ref.isBuy {
        var side := RemoveAt(Side(bids, bidLevels), ref.price, Locate(bids[ref.price], orderId));
        bids, bidLevels := side.queues, side.levels;
        orderLookup := orderLookup - {orderId};
        assert State() == Cancelled(st, orderId);
      } else {
        var side := RemoveAt(Side(asks, askLevels), ref.price, Locate(asks[ref.price], orderId));
        asks, askLevels := side.queues, side.levels;
        orderLookup := orderLookup - {orderId};
        assert State() == Cancelled(st, orderId);
      }
      ok := true;
      CancelledValid(st, orderId);
    }

    /** `amendorder`: false and no change for an unknown id; at a new price
        the order is cancelled and re-added with the new price and quantity;
        at its own price the quantity is overwritten in place and the level
        total moves by the wrapped difference. */
    method AmendOrder(orderId: u64, newPrice: Price, newQuantity: u64) returns (ok: bool)
      requires Valid()
      modifies this
      ensures ok <==> orderId in old(orderLookup)
      ensures Valid() && State() == Amended(old(State()), orderId, newPrice, newQuantity)
    {
      if orderId !in orderLookup {
        return false;
      }
      ghost var st := State();
      var ref := orderLookup[orderId];
      ResolvedRef(st, orderId);
      if newPrice != ref.price {
        var q := if ref.isBuy then bids[ref.price] else asks[ref.price];
        var amended := q[Locate(q, orderId)].(price := newPrice, quantity := newQuantity);
        AmendedIsCancelAdd(st, orderId, newPrice, newQuantity);
        CancelledIndex(st, orderId);
        var _ := CancelOrder(orderId);
        AddOrder(amended);
      } else if ref.isBuy {
        var side := ReplaceQuantity(Side(bids, bidLevels), ref.price, Locate(bids[ref.price], orderId), newQuantity);
        bids, bidLevels := side.queues, side.levels;
        AmendedInPlaceIs(st, orderId, newQuantity);
        assert State() == Amended(st, orderId, newPrice, newQuantity);
        AmendedInPlace(st, orderId, newQuantity);
      } else {
        var side := ReplaceQuantity(Side(asks, askLevels), ref.price, Locate(asks[ref.price], orderId), newQuantity);
        asks, askLevels := side.queues, side.levels;
        AmendedInPlaceIs(st, orderId, newQuantity);
        assert State() == Amended(st, orderId, newPrice, newQuantity);
        AmendedInPlace(st, orderId, newQuantity);
      }
      ok := true;
    }

    /** `get_snapshot`: both outputs start empty and receive the first
        `depth` levels of each side, bids highest first and asks lowest
        first; the book is not changed. */
    method GetSnapshot(depth: nat) returns (bidsOut: seq<PriceLevel>, asksOut: seq<PriceLevel>)
      requires Valid()
      ensures IsTop(bidLevels, depth, true, bidsOut)
      ensures IsTop(askLevels, depth, false, asksOut)
    {
      assert forall p :: p in bidLevels ==> p in bids && bidLevels[p].price == p;
      assert forall p :: p in askLevels ==> p in asks && askLevels[p].price == p;
      bidsOut := TopLevels(bidLevels, depth, true);
      asksOut := TopLevels(askLevels, depth, false);
    }
  }
}
