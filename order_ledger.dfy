/**
 * The stock ledger kept by internal/services/order_service.go: every
 * change of an item's stock is matched by a movement carrying the same
 * signed quantity, so the stock of every item always equals its stock at
 * any earlier point plus the quantities of the movements recorded since.
 * Also the amounts CreateOrder stores, what each operation does to the
 * stock, and two consequences of where the stock is read and of the
 * cancel guard.
 */
module OrderLedger {
  import opened Wrappers
  import opened Store
  import opened Query
  import opened PricelistRepository
  import opened MovementRepository
  import OrderRepository
  import opened OrderService

  /** The net quantity of an item that movements record. */
  function Delta(ms: seq<Movement>, itemId: int): int
    decreases |ms|
  {
    if |ms| == 0 then 0
    else Delta(ms[..|ms| - 1], itemId) + (if ms[|ms| - 1].pricelistItemId == itemId then ms[|ms| - 1].quantityChanged else 0)
  }

  /** The movements of a concatenated log add up. */
  lemma {:induction false} DeltaAppend(a: seq<Movement>, b: seq<Movement>, itemId: int)
    ensures Delta(a + b, itemId) == Delta(a, itemId) + Delta(b, itemId)
    decreases |b|
  {
    if |b| == 0 {
      assert a + b == a;
    } else {
      assert (a + b)[..|a + b| - 1] == a + b[..|b| - 1];
      DeltaAppend(a, b[..|b| - 1], itemId);
    }
  }

  /** A single movement records its own quantity for its own item. */
  lemma DeltaSingle(m: Movement, itemId: int)
    ensures Delta([m], itemId) == if m.pricelistItemId == itemId then m.quantityChanged else 0
  {
    assert [m][..0] == [];
  }

  /**
   * From `t` to `t2` the movement log only grew, the catalogue kept its
   * items and their tracking flags, and the stock of every item moved by
   * exactly the net quantity of the movements added.
   */
  ghost predicate Conserves(t: Tables, t2: Tables) {
    && |t.movements| <= |t2.movements|
    && t2.movements[..|t.movements|] == t.movements
    && t2.items.Keys == t.items.Keys
    && (forall id :: id in t.items ==> t2.items[id].tracksStock == t.items[id].tracksStock)
    && (forall id :: id in t.items ==>
          StockLevel(t2.items[id]) == StockLevel(t.items[id]) + Delta(t2.movements[|t.movements|..], id))
  }

  /** The orders and their items are as they were. */
  ghost predicate SameOrders(t: Tables, t2: Tables) {
    t2.orders == t.orders && t2.orderItems == t.orderItems &&
    t2.nextOrderId == t.nextOrderId && t2.nextOrderItemId == t.nextOrderItemId
  }

  /** Tables whose catalogue and movement log are untouched conserve stock. */
  lemma ConservesUntouched(t: Tables, t2: Tables)
    requires t2.items == t.items && t2.movements == t.movements
    ensures Conserves(t, t2)
  {
    assert t2.movements[|t.movements|..] == [];
  }

  /** Conservation composes: the movements of two stretches add up. */
  lemma ConservesTrans(t1: Tables, t2: Tables, t3: Tables)
    requires Conserves(t1, t2) && Conserves(t2, t3)
    ensures Conserves(t1, t3)
  {
    var n1, n2 := |t1.movements|, |t2.movements|;
    assert t3.movements[..n1] == t3.movements[..n2][..n1];
    assert t3.movements[n1..] == t2.movements[n1..] + t3.movements[n2..] by {
      assert t3.movements[n1..n2] == t2.movements[n1..];
    }
    forall id | id in t1.items
      ensures StockLevel(t3.items[id]) == StockLevel(t1.items[id]) + Delta(t3.movements[n1..], id)
    {
      DeltaAppend(t2.movements[n1..], t3.movements[n2..], id);
    }
  }

  /** The row CreateMovement stores for a movement, as the next entry of `t`'s log. */
  function Stored(t: Tables, m: Movement, now: Time): (row: Movement)
    ensures row.pricelistItemId == m.pricelistItemId && row.quantityChanged == m.quantityChanged
    ensures row.staffId == m.staffId && row.movementType == m.movementType && row.reason == m.reason
  {
    m.(id := t.nextMovementId, movementDate := if m.movementDate == ZeroTime then now else m.movementDate,
       createdAt := now, updatedAt := now)
  }

  /**
   * One ledger entry: the item tracks stock, its level moves by the
   * movement's quantity, exactly one movement is appended, and the orders
   * are untouched.
   */
  lemma RecordConserves(d: Tables, t: Tables, m: Movement, now: Time)
    requires Record(d, t, m, now).Ok?
    ensures var t2 := Record(d, t, m, now).value;
      && m.pricelistItemId in t.items && t.items[m.pricelistItemId].tracksStock
      && Conserves(t, t2) && SameOrders(t, t2)
      && t2.movements == t.movements + [Stored(t, m, now)]
      && t2.nextMovementId == t.nextMovementId + 1
      && StockLevel(t2.items[m.pricelistItemId]) == StockLevel(t.items[m.pricelistItemId]) + m.quantityChanged
  {
    var t2 := Record(d, t, m, now).value;
    var added := t2.movements[|t.movements|..];
    assert added == [Stored(t, m, now)];
    assert added[..0] == [];
    forall id | id in t.items
      ensures StockLevel(t2.items[id]) == StockLevel(t.items[id]) + Delta(added, id)
    {
    }
  }

  // ---------------------------------------------------------------- CreateOrder

  /** The sale rows the line loop appends to the log, the first one taking id `firstId`: one per line of a tracked item. */
  function SalesFor(d: Tables, lines: seq<LineRequest>, staffId: int, now: Time, firstId: int): seq<Movement>
    decreases |lines|
  {
    if |lines| == 0 then []
    else WithSale(d, SalesFor(d, lines[..|lines| - 1], staffId, now, firstId), lines[|lines| - 1], staffId, now, firstId)
  }

  /** The sale rows `prev` followed by the line's own, if its item tracks stock. */
  function WithSale(d: Tables, prev: seq<Movement>, l: LineRequest, staffId: int, now: Time, firstId: int): seq<Movement> {
    if l.pricelistItemId in d.items && d.items[l.pricelistItemId].tracksStock then
      prev + [SaleMovement(l.pricelistItemId, staffId, l.quantity, now).(id := firstId + |prev|, createdAt := now, updatedAt := now)]
    else prev
  }

  /** Σ price × quantity over the lines, at the catalogue's prices. */
  function LinesTotal(d: Tables, lines: seq<LineRequest>): int
    decreases |lines|
  {
    if |lines| == 0 then 0
    else
      var l := lines[|lines| - 1];
      LinesTotal(d, lines[..|lines| - 1]) + (if l.pricelistItemId in d.items then d.items[l.pricelistItemId].price * l.quantity else 0)
  }

  /** The total quantity the lines ask of an item. */
  function Demand(lines: seq<LineRequest>, itemId: int): int
    decreases |lines|
  {
    if |lines| == 0 then 0
    else
      var l := lines[|lines| - 1];
      Demand(lines[..|lines| - 1], itemId) + (if l.pricelistItemId == itemId then l.quantity else 0)
  }

  /** A line the loop accepts: a positive quantity of a known item, and for a tracked item a stock (as committed) of at least that quantity. */
  ghost predicate LineAccepted(d: Tables, l: LineRequest) {
    && l.quantity > 0
    && l.pricelistItemId in d.items
    && (d.items[l.pricelistItemId].tracksStock ==>
          d.items[l.pricelistItemId].currentStock.Some? && d.items[l.pricelistItemId].currentStock.value >= l.quantity)
  }

  /** The transaction's catalogue has the committed items with the same tracking flags. */
  ghost predicate SameTracking(d: Tables, t: Tables) {
    t.items.Keys == d.items.Keys && forall id :: id in d.items ==> t.items[id].tracksStock == d.items[id].tracksStock
  }

  /**
   * What the line loop did: stock conserved, orders untouched, exactly the
   * sale rows appended, the total is Σ price × quantity and each pending
   * item carries the catalogue price of its line.
   */
  lemma ProcessLinesLedger(d: Tables, t: Tables, lines: seq<LineRequest>, staffId: int, now: Time)
    requires ProcessLines(d, t, lines, staffId, now).Ok?
    ensures var p := ProcessLines(d, t, lines, staffId, now).value;
      var sales := SalesFor(d, lines, staffId, now, t.nextMovementId);
      && Conserves(t, p.tx) && SameOrders(t, p.tx)
      && p.tx.movements == t.movements + sales
      && p.tx.nextMovementId == t.nextMovementId + |sales|
      && p.total == LinesTotal(d, lines)
      && (forall i :: 0 <= i < |lines| ==> LineAccepted(d, lines[i]))
      && (forall i :: 0 <= i < |lines| ==> p.pending[i] == PendingItem(lines[i], d.items[lines[i].pricelistItemId].price))
  {
    LinesLogged(d, t, lines, staffId, now);
    LinesPriced(d, t, lines, staffId, now);
  }

  /** The line loop's effect on the transaction: stock conserved, orders untouched, exactly the sale rows appended. */
  lemma {:induction false} LinesLogged(d: Tables, t: Tables, lines: seq<LineRequest>, staffId: int, now: Time)
    requires ProcessLines(d, t, lines, staffId, now).Ok?
    ensures var p := ProcessLines(d, t, lines, staffId, now).value;
      var sales := SalesFor(d, lines, staffId, now, t.nextMovementId);
      && Conserves(t, p.tx) && SameOrders(t, p.tx)
      && p.tx.movements == t.movements + sales
      && p.tx.nextMovementId == t.nextMovementId + |sales|
    decreases |lines|
  {
    if |lines| == 0 {
      ConservesUntouched(t, t);
    } else {
      var init, l := lines[..|lines| - 1], lines[|lines| - 1];
      LinesLogged(d, t, init, staffId, now);
      var p0 := ProcessLines(d, t, init, staffId, now).value;
      assert Step(d, p0, l, staffId, now) == ProcessLines(d, t, lines, staffId, now);
      var sales0 := SalesFor(d, init, staffId, now, t.nextMovementId);
      StepLedger(d, t, p0, l, staffId, now, sales0);
    }
  }

  /** The line loop's result: every line accepted, the total Σ price × quantity, each pending item at its line's price. */
  lemma {:induction false} LinesPriced(d: Tables, t: Tables, lines: seq<LineRequest>, staffId: int, now: Time)
    requires ProcessLines(d, t, lines, staffId, now).Ok?
    ensures var p := ProcessLines(d, t, lines, staffId, now).value;
      && p.total == LinesTotal(d, lines)
      && (forall i :: 0 <= i < |lines| ==> LineAccepted(d, lines[i]))
      && (forall i :: 0 <= i < |lines| ==> p.pending[i] == PendingItem(lines[i], d.items[lines[i].pricelistItemId].price))
    decreases |lines|
  {
    if |lines| > 0 {
      var init, l := lines[..|lines| - 1], lines[|lines| - 1];
      LinesPriced(d, t, init, staffId, now);
      var p0 := ProcessLines(d, t, init, staffId, now).value;
      var p := ProcessLines(d, t, lines, staffId, now).value;
      assert Step(d, p0, l, staffId, now) == Ok(p);
      StepAccepts(d, p0, l, staffId, now);
      forall i | 0 <= i < |lines| ensures LineAccepted(d, lines[i]) {
        if i < |init| { assert lines[i] == init[i]; }
      }
      forall i | 0 <= i < |lines| ensures p.pending[i] == PendingItem(lines[i], d.items[lines[i].pricelistItemId].price) {
        if i < |init| { assert lines[i] == init[i] && p.pending[i] == p0.pending[i]; }
      }
    }
  }

  /** A line the loop got past was accepted. */
  lemma StepAccepts(d: Tables, p0: Progress, l: LineRequest, staffId: int, now: Time)
    requires Step(d, p0, l, staffId, now).Ok?
    ensures LineAccepted(d, l)
  {
  }

  /** One pass of the line loop extends the ledger by the line's sale row, if its item tracks stock. */
  lemma StepLedger(d: Tables, t: Tables, p0: Progress, l: LineRequest, staffId: int, now: Time, sales0: seq<Movement>)
    requires Step(d, p0, l, staffId, now).Ok?
    requires Conserves(t, p0.tx) && SameOrders(t, p0.tx)
    requires p0.tx.movements == t.movements + sales0 && p0.tx.nextMovementId == t.nextMovementId + |sales0|
    ensures var p := Step(d, p0, l, staffId, now).value;
      var sales := WithSale(d, sales0, l, staffId, now, t.nextMovementId);
      && Conserves(t, p.tx) && SameOrders(t, p.tx)
      && p.tx.movements == t.movements + sales && p.tx.nextMovementId == t.nextMovementId + |sales|
  {
    var p := Step(d, p0, l, staffId, now).value;
    if d.items[l.pricelistItemId].tracksStock {
      var m := SaleMovement(l.pricelistItemId, staffId, l.quantity, now);
      assert Record(d, p0.tx, m, now) == Ok(p.tx);
      RecordConserves(d, p0.tx, m, now);
      ConservesTrans(t, p0.tx, p.tx);
      assert Stored(p0.tx, m, now) == m.(id := t.nextMovementId + |sales0|, createdAt := now, updatedAt := now);
    } else {
      assert p.tx == p0.tx;
    }
  }

  /** The sale rows take, in total, exactly the quantity the lines ask of a tracked item, and nothing of any other. */
  lemma {:induction false} SalesDelta(d: Tables, lines: seq<LineRequest>, staffId: int, now: Time, firstId: int, itemId: int)
    ensures Delta(SalesFor(d, lines, staffId, now, firstId), itemId) ==
      if itemId in d.items && d.items[itemId].tracksStock then -Demand(lines, itemId) else 0
    decreases |lines|
  {
    if |lines| > 0 {
      var init, l := lines[..|lines| - 1], lines[|lines| - 1];
      SalesDelta(d, init, staffId, now, firstId, itemId);
      var prev := SalesFor(d, init, staffId, now, firstId);
      assert Demand(lines, itemId) == Demand(init, itemId) + (if l.pricelistItemId == itemId then l.quantity else 0);
      if l.pricelistItemId in d.items && d.items[l.pricelistItemId].tracksStock {
        var row := SaleMovement(l.pricelistItemId, staffId, l.quantity, now).(id := firstId + |prev|, createdAt := now, updatedAt := now);
        assert SalesFor(d, lines, staffId, now, firstId) == prev + [row];
        DeltaAppend(prev, [row], itemId);
        DeltaSingle(row, itemId);
      } else {
        assert SalesFor(d, lines, staffId, now, firstId) == prev;
      }
    }
  }

  /** Lines that are all accepted get through the loop, each tracked one taking its stock in the transaction. */
  lemma {:induction false} ProcessLinesOkWhenAccepted(d: Tables, t: Tables, lines: seq<LineRequest>, staffId: int, now: Time)
    requires SameTracking(d, t)
    requires forall i :: 0 <= i < |lines| ==> LineAccepted(d, lines[i])
    ensures ProcessLines(d, t, lines, staffId, now).Ok?
    decreases |lines|
  {
    if |lines| > 0 {
      var init, l := lines[..|lines| - 1], lines[|lines| - 1];
      forall i | 0 <= i < |init| ensures LineAccepted(d, init[i]) { assert init[i] == lines[i]; }
      ProcessLinesOkWhenAccepted(d, t, init, staffId, now);
      ProcessLinesLedger(d, t, init, staffId, now);
      var p0 := ProcessLines(d, t, init, staffId, now).value;
      assert LineAccepted(d, l);
      assert l.pricelistItemId in p0.tx.items;
      if d.items[l.pricelistItemId].tracksStock {
        var m := SaleMovement(l.pricelistItemId, staffId, l.quantity, now);
        var s := StockUpdated(d, p0.tx, l.pricelistItemId, -l.quantity, now);
        assert s.Ok?;
        assert MovementInserted(s.value.tables, m, now).Ok?;
        assert Record(d, p0.tx, m, now).Ok?;
      }
      assert Step(d, p0, l, staffId, now).Ok?;
    }
  }

  /**
   * The line loop succeeds exactly when every line is accepted, each one
   * checked against the committed stock: stock already taken by earlier
   * lines of the same order is not counted.
   */
  lemma ProcessLinesAccepts(d: Tables, t: Tables, lines: seq<LineRequest>, staffId: int, now: Time)
    requires SameTracking(d, t)
    ensures ProcessLines(d, t, lines, staffId, now).Ok? <==> forall i :: 0 <= i < |lines| ==> LineAccepted(d, lines[i])
  {
    if forall i :: 0 <= i < |lines| ==> LineAccepted(d, lines[i]) {
      ProcessLinesOkWhenAccepted(d, t, lines, staffId, now);
    }
    if ProcessLines(d, t, lines, staffId, now).Ok? {
      ProcessLinesLedger(d, t, lines, staffId, now);
    }
  }

  /** The rows CreateOrderItem stores for the pending items: linked to the order, ids from `firstId` on, zero timestamps filled. */
  function StoredItems(pending: seq<OrderItem>, orderId: int, firstId: int, now: Time): (r: seq<OrderItem>)
    ensures |r| == |pending|
  {
    seq(|pending|, i requires 0 <= i < |pending| =>
      pending[i].(id := firstId + i, orderId := orderId,
                  createdAt := OrderRepository.FillIfZero(pending[i].createdAt, now),
                  updatedAt := OrderRepository.FillIfZero(pending[i].updatedAt, now)))
  }

  /** The item-insert loop succeeds for an existing order and known items, appending exactly the stored rows. */
  lemma {:induction false} InsertItemsShape(t: Tables, pending: seq<OrderItem>, orderId: int, now: Time)
    requires OrderRepository.HasOrder(t.orders, orderId)
    requires forall i :: 0 <= i < |pending| ==> pending[i].pricelistItemId in t.items
    ensures InsertItems(t, pending, orderId, now) ==
      Ok(t.(orderItems := t.orderItems + StoredItems(pending, orderId, t.nextOrderItemId, now),
            nextOrderItemId := t.nextOrderItemId + |pending|))
    decreases |pending|
  {
    if |pending| == 0 {
      assert t.orderItems + StoredItems(pending, orderId, t.nextOrderItemId, now) == t.orderItems;
    } else {
      var init, last := pending[..|pending| - 1], pending[|pending| - 1];
      forall i | 0 <= i < |init| ensures init[i].pricelistItemId in t.items { assert init[i] == pending[i]; }
      InsertItemsShape(t, init, orderId, now);
      var t1 := t.(orderItems := t.orderItems + StoredItems(init, orderId, t.nextOrderItemId, now),
                   nextOrderItemId := t.nextOrderItemId + |init|);
      var all := StoredItems(pending, orderId, t.nextOrderItemId, now);
      var a := OrderRepository.OrderItemInserted(t1, last.(orderId := orderId), now);
      assert a.Ok?;
      assert a.value.value == all[|init|];
      assert all == StoredItems(init, orderId, t.nextOrderItemId, now) + [all[|init|]];
      assert t1.orderItems + [a.value.value] == t.orderItems + all;
      assert InsertItems(t, pending, orderId, now) == Ok(a.value.tables);
    }
  }

  /** The line loop only queues items the transaction's catalogue has. */
  lemma PendingItemsKnown(d: Tables, t: Tables, lines: seq<LineRequest>, staffId: int, now: Time)
    requires t.items.Keys == d.items.Keys
    requires ProcessLines(d, t, lines, staffId, now).Ok?
    ensures var p := ProcessLines(d, t, lines, staffId, now).value;
      forall i :: 0 <= i < |p.pending| ==> p.pending[i].pricelistItemId in p.tx.items && p.pending[i].pricelistItemId in d.items
  {
    ProcessLinesLedger(d, t, lines, staffId, now);
    var p := ProcessLines(d, t, lines, staffId, now).value;
    forall i | 0 <= i < |p.pending| ensures p.pending[i].pricelistItemId in p.tx.items && p.pending[i].pricelistItemId in d.items {
      assert LineAccepted(d, lines[i]);
    }
  }

  /** CreateOrder after the line loop: the header goes in with the next id, then the stored items. */
  lemma CreateOrderShape(d: Tables, req: CreateOrderRequest, now: Time)
    requires CreateOrderSpec(d, req, now).Ok?
    ensures ProcessLines(d, d, req.lines, req.staffId, now).Ok?
    ensures var p := ProcessLines(d, d, req.lines, req.staffId, now).value;
      var t := p.tx;
      CreateOrderSpec(d, req, now).value ==
        Applied(t.(orders := t.orders + [OrderHeader(req, p.total, now).(id := t.nextOrderId)],
                   nextOrderId := t.nextOrderId + 1,
                   orderItems := t.orderItems + StoredItems(p.pending, t.nextOrderId, t.nextOrderItemId, now),
                   nextOrderItemId := t.nextOrderItemId + |p.pending|),
                t.nextOrderId)
  {
    PendingItemsKnown(d, d, req.lines, req.staffId, now);
    var p := ProcessLines(d, d, req.lines, req.staffId, now).value;
    var header := OrderHeader(req, p.total, now);
    var ins := OrderRepository.OrderInserted(p.tx, header, now);
    assert ins.value == header.(id := p.tx.nextOrderId);
    assert ins.tables.orders[|p.tx.orders|] == ins.value;
    assert OrderRepository.HasOrder(ins.tables.orders, ins.value.id);
    InsertItemsShape(ins.tables, p.pending, ins.value.id, now);
    assert CreateOrderSpec(d, req, now) == Ok(Applied(InsertItems(ins.tables, p.pending, ins.value.id, now).value, ins.value.id));
  }

  /** The order CreateOrder stores: its header with the new id and its items, priced at the catalogue's prices. */
  lemma CreateOrderRecords(d: Tables, req: CreateOrderRequest, now: Time)
    requires CreateOrderSpec(d, req, now).Ok?
    ensures var a := CreateOrderSpec(d, req, now).value;
      var total := LinesTotal(d, req.lines);
      && a.value == d.nextOrderId
      && (forall i :: 0 <= i < |req.lines| ==> LineAccepted(d, req.lines[i]))
      && a.tables.orders == d.orders + [OrderHeader(req, total, now).(id := d.nextOrderId)]
      && a.tables.orders[|d.orders|].totalAmount == total
      && a.tables.orders[|d.orders|].finalAmount == FinalAmount(total, req.discountAmount)
      && |a.tables.orderItems| == |d.orderItems| + |req.lines|
      && a.tables.orderItems[..|d.orderItems|] == d.orderItems
      && (forall i :: 0 <= i < |req.lines| ==>
            var l := req.lines[i];
            a.tables.orderItems[|d.orderItems| + i] ==
              PendingItem(l, d.items[l.pricelistItemId].price).(id := d.nextOrderItemId + i, orderId := d.nextOrderId,
                                                                createdAt := now, updatedAt := now))
  {
    ProcessLinesLedger(d, d, req.lines, req.staffId, now);
    CreateOrderShape(d, req, now);
    var p := ProcessLines(d, d, req.lines, req.staffId, now).value;
    var a := CreateOrderSpec(d, req, now).value;
    var stored := StoredItems(p.pending, d.nextOrderId, d.nextOrderItemId, now);
    assert a.tables.orderItems == d.orderItems + stored;
    forall i | 0 <= i < |req.lines|
      ensures a.tables.orderItems[|d.orderItems| + i] ==
        PendingItem(req.lines[i], d.items[req.lines[i].pricelistItemId].price).(id := d.nextOrderItemId + i, orderId := d.nextOrderId,
                                                                                createdAt := now, updatedAt := now)
    {
      assert a.tables.orderItems[|d.orderItems| + i] == stored[i];
    }
  }

  /**
   * CreateOrder succeeds exactly when the status is valid and every line
   * is accepted; any other request leaves the database as it was (the
   * method's contract). An invalid status is refused even though it is
   * checked only after the stock was taken inside the transaction.
   */
  lemma CreateOrderSucceeds(d: Tables, req: CreateOrderRequest, now: Time)
    ensures CreateOrderSpec(d, req, now).Ok? <==>
      IsValidOrderStatus(req.status) && forall i :: 0 <= i < |req.lines| ==> LineAccepted(d, req.lines[i])
  {
    ProcessLinesAccepts(d, d, req.lines, req.staffId, now);
    if ProcessLines(d, d, req.lines, req.staffId, now).Ok? && IsValidOrderStatus(req.status) {
      ProcessLinesLedger(d, d, req.lines, req.staffId, now);
      var p := ProcessLines(d, d, req.lines, req.staffId, now).value;
      var ins := OrderRepository.OrderInserted(p.tx, OrderHeader(req, p.total, now), now);
      assert ins.tables.orders[|p.tx.orders|] == ins.value;
      InsertItemsShape(ins.tables, p.pending, ins.value.id, now);
    }
  }

  /**
   * CreateOrder conserves stock: exactly one sale row per line of a
   * tracked item is appended, and the stock of each item falls by the
   * total quantity the order's lines ask of it when it tracks stock, and
   * not at all otherwise.
   */
  lemma CreateOrderLedger(d: Tables, req: CreateOrderRequest, now: Time)
    requires CreateOrderSpec(d, req, now).Ok?
    ensures var t := CreateOrderSpec(d, req, now).value.tables;
      && Conserves(d, t)
      && t.movements == d.movements + SalesFor(d, req.lines, req.staffId, now, d.nextMovementId)
      && (forall x :: x in d.items ==>
            StockLevel(t.items[x]) == StockLevel(d.items[x]) - (if d.items[x].tracksStock then Demand(req.lines, x) else 0))
  {
    ProcessLinesLedger(d, d, req.lines, req.staffId, now);
    CreateOrderShape(d, req, now);
    var p := ProcessLines(d, d, req.lines, req.staffId, now).value;
    var t := CreateOrderSpec(d, req, now).value.tables;
    ConservesUntouched(p.tx, t);
    ConservesTrans(d, p.tx, t);
    var sales := SalesFor(d, req.lines, req.staffId, now, d.nextMovementId);
    assert t.movements[|d.movements|..] == sales;
    forall x | x in d.items
      ensures StockLevel(t.items[x]) == StockLevel(d.items[x]) - (if d.items[x].tracksStock then Demand(req.lines, x) else 0)
    {
      SalesDelta(d, req.lines, req.staffId, now, d.nextMovementId, x);
    }
  }

  /**
   * Two lines of the same tracked item, each within the committed stock,
   * are both accepted, and the stock falls by their sum: each line is
   * checked against the stock as it was before the order, so an order can
   * take more than there is and leave the level negative.
   */
  lemma SameItemTwiceOversells(d: Tables, req: CreateOrderRequest, now: Time)
    requires |req.lines| == 2 && req.lines[0].pricelistItemId == req.lines[1].pricelistItemId
    requires req.lines[0].pricelistItemId in d.items
    requires var item := d.items[req.lines[0].pricelistItemId];
      item.tracksStock && item.currentStock.Some? &&
      0 < req.lines[0].quantity <= item.currentStock.value && 0 < req.lines[1].quantity <= item.currentStock.value
    requires IsValidOrderStatus(req.status)
    ensures CreateOrderSpec(d, req, now).Ok?
    ensures var id := req.lines[0].pricelistItemId;
      StockLevel(CreateOrderSpec(d, req, now).value.tables.items[id]) ==
        d.items[id].currentStock.value - req.lines[0].quantity - req.lines[1].quantity
  {
    var id := req.lines[0].pricelistItemId;
    assert LineAccepted(d, req.lines[0]) && LineAccepted(d, req.lines[1]);
    CreateOrderSucceeds(d, req, now);
    CreateOrderLedger(d, req, now);
    assert req.lines[..1][..0] == [];
    assert Demand(req.lines, id) == req.lines[0].quantity + req.lines[1].quantity by {
      assert req.lines[..|req.lines| - 1] == [req.lines[0]];
      assert Demand([req.lines[0]], id) == req.lines[0].quantity by {
        assert [req.lines[0]][..0] == [];
      }
    }
  }

  // ---------------------------------------------------------------- returning stock

  /** The return rows the stock-return loop appends, the first one taking id `firstId`: one per item that tracks stock. */
  function ReturnsFor(d: Tables, items: seq<OrderItem>, staffId: Option<int>, kind: string, reason: string, now: Time, firstId: int): seq<Movement>
    decreases |items|
  {
    if |items| == 0 then []
    else WithReturn(d, ReturnsFor(d, items[..|items| - 1], staffId, kind, reason, now, firstId), items[|items| - 1], staffId, kind, reason, now, firstId)
  }

  /** The return rows `prev` followed by the item's own, if it tracks stock. */
  function WithReturn(d: Tables, prev: seq<Movement>, it: OrderItem, staffId: Option<int>, kind: string, reason: string, now: Time, firstId: int): seq<Movement> {
    if it.pricelistItemId in d.items && d.items[it.pricelistItemId].tracksStock then
      prev + [ReturnMovement(it, staffId, kind, reason, now).(id := firstId + |prev|, createdAt := now, updatedAt := now)]
    else prev
  }

  /** The total quantity of an item over order items. */
  function Returned(items: seq<OrderItem>, itemId: int): int
    decreases |items|
  {
    if |items| == 0 then 0
    else
      var it := items[|items| - 1];
      Returned(items[..|items| - 1], itemId) + (if it.pricelistItemId == itemId then it.quantity else 0)
  }

  /** What the stock-return loop did: stock conserved, orders untouched, exactly the return rows appended. */
  lemma {:induction false} ReturnStockLedger(d: Tables, t: Tables, items: seq<OrderItem>, staffId: Option<int>, kind: string, reason: string, now: Time)
    requires ReturnStock(d, t, items, staffId, kind, reason, now).Ok?
    ensures var t2 := ReturnStock(d, t, items, staffId, kind, reason, now).value;
      var rows := ReturnsFor(d, items, staffId, kind, reason, now, t.nextMovementId);
      && Conserves(t, t2) && SameOrders(t, t2)
      && t2.movements == t.movements + rows
      && t2.nextMovementId == t.nextMovementId + |rows|
    decreases |items|
  {
    if |items| == 0 {
      ConservesUntouched(t, t);
    } else {
      var init, it := items[..|items| - 1], items[|items| - 1];
      ReturnStockLedger(d, t, init, staffId, kind, reason, now);
      var t1 := ReturnStock(d, t, init, staffId, kind, reason, now).value;
      assert ReturnOne(d, t1, it, staffId, kind, reason, now) == ReturnStock(d, t, items, staffId, kind, reason, now);
      ReturnLedger(d, t, t1, it, staffId, kind, reason, now, ReturnsFor(d, init, staffId, kind, reason, now, t.nextMovementId));
    }
  }

  /** One pass of the stock-return loop extends the ledger by the item's return row, if it tracks stock. */
  lemma ReturnLedger(d: Tables, t: Tables, t1: Tables, it: OrderItem, staffId: Option<int>, kind: string, reason: string, now: Time, prev: seq<Movement>)
    requires ReturnOne(d, t1, it, staffId, kind, reason, now).Ok?
    requires Conserves(t, t1) && SameOrders(t, t1)
    requires t1.movements == t.movements + prev && t1.nextMovementId == t.nextMovementId + |prev|
    ensures var t2 := ReturnOne(d, t1, it, staffId, kind, reason, now).value;
      var rows := WithReturn(d, prev, it, staffId, kind, reason, now, t.nextMovementId);
      && Conserves(t, t2) && SameOrders(t, t2)
      && t2.movements == t.movements + rows && t2.nextMovementId == t.nextMovementId + |rows|
  {
    var t2 := ReturnOne(d, t1, it, staffId, kind, reason, now).value;
    if d.items[it.pricelistItemId].tracksStock {
      var m := ReturnMovement(it, staffId, kind, reason, now);
      assert Record(d, t1, m, now) == Ok(t2);
      RecordConserves(d, t1, m, now);
      ConservesTrans(t, t1, t2);
      assert Stored(t1, m, now) == m.(id := t.nextMovementId + |prev|, createdAt := now, updatedAt := now);
    } else {
      assert t2 == t1;
    }
  }

  /** The return rows give back, in total, exactly the quantity the items hold of a tracked item, and nothing of any other. */
  lemma {:induction false} ReturnsDelta(d: Tables, items: seq<OrderItem>, staffId: Option<int>, kind: string, reason: string, now: Time, firstId: int, itemId: int)
    ensures Delta(ReturnsFor(d, items, staffId, kind, reason, now, firstId), itemId) ==
      if itemId in d.items && d.items[itemId].tracksStock then Returned(items, itemId) else 0
    decreases |items|
  {
    if |items| > 0 {
      var init, it := items[..|items| - 1], items[|items| - 1];
      ReturnsDelta(d, init, staffId, kind, reason, now, firstId, itemId);
      var prev := ReturnsFor(d, init, staffId, kind, reason, now, firstId);
      assert Returned(items, itemId) == Returned(init, itemId) + (if it.pricelistItemId == itemId then it.quantity else 0);
      if it.pricelistItemId in d.items && d.items[it.pricelistItemId].tracksStock {
        var row := ReturnMovement(it, staffId, kind, reason, now).(id := firstId + |prev|, createdAt := now, updatedAt := now);
        assert ReturnsFor(d, items, staffId, kind, reason, now, firstId) == prev + [row];
        DeltaAppend(prev, [row], itemId);
        DeltaSingle(row, itemId);
      } else {
        assert ReturnsFor(d, items, staffId, kind, reason, now, firstId) == prev;
      }
    }
  }

  /** The stock-return loop cannot fail for items of the catalogue. */
  lemma {:induction false} ReturnStockOk(d: Tables, t: Tables, items: seq<OrderItem>, staffId: Option<int>, kind: string, reason: string, now: Time)
    requires SameTracking(d, t)
    requires forall i :: 0 <= i < |items| ==> items[i].pricelistItemId in d.items
    ensures ReturnStock(d, t, items, staffId, kind, reason, now).Ok?
    decreases |items|
  {
    if |items| > 0 {
      var init, it := items[..|items| - 1], items[|items| - 1];
      forall i | 0 <= i < |init| ensures init[i].pricelistItemId in d.items { assert init[i] == items[i]; }
      ReturnStockOk(d, t, init, staffId, kind, reason, now);
      ReturnStockLedger(d, t, init, staffId, kind, reason, now);
      var t1 := ReturnStock(d, t, init, staffId, kind, reason, now).value;
      if d.items[it.pricelistItemId].tracksStock {
        var m := ReturnMovement(it, staffId, kind, reason, now);
        var s := StockUpdated(d, t1, it.pricelistItemId, it.quantity, now);
        assert s.Ok?;
        assert MovementInserted(s.value.tables, m, now).Ok?;
        assert Record(d, t1, m, now).Ok?;
      }
      assert ReturnOne(d, t1, it, staffId, kind, reason, now).Ok?;
    }
  }

  /** The joined items of an order are catalogue items and depend only on the order items and the catalogue's ids. */
  lemma ItemsOfOrderJoined(t: Tables, t2: Tables, orderId: int)
    requires t2.orderItems == t.orderItems && t2.items.Keys == t.items.Keys
    ensures OrderRepository.ItemsOfOrder(t2, orderId) == OrderRepository.ItemsOfOrder(t, orderId)
    ensures var items := OrderRepository.ItemsOfOrder(t, orderId);
      forall i :: 0 <= i < |items| ==> items[i].pricelistItemId in t.items
  {
    var items := OrderRepository.ItemsOfOrder(t, orderId);
    assert forall i :: 0 <= i < |items| ==> items[i] in items;
    FilterSameTest(t.orderItems, oi => OrderRepository.IsItemOf(t, orderId, oi), oi => OrderRepository.IsItemOf(t2, orderId, oi));
  }

  // ---------------------------------------------------------------- UpdateOrderStatus and DeleteOrder

  /** The stock an order gives back when it is cancelled or deleted while still holding it. */
  function OrderReturn(d: Tables, orderId: int, itemId: int): int {
    if itemId in d.items && d.items[itemId].tracksStock then Returned(OrderRepository.ItemsOfOrder(d, orderId), itemId) else 0
  }

  /** The return loop over an order's items, run from the committed tables, succeeds and conserves stock. */
  lemma OrderReturnLedger(d: Tables, orderId: int, staffId: Option<int>, kind: string, reason: string, now: Time)
    ensures var r := ReturnStock(d, d, OrderRepository.ItemsOfOrder(d, orderId), staffId, kind, reason, now);
      && r.Ok? && Conserves(d, r.value) && SameOrders(d, r.value)
      && (forall x :: x in d.items ==> StockLevel(r.value.items[x]) == StockLevel(d.items[x]) + OrderReturn(d, orderId, x))
  {
    var items := OrderRepository.ItemsOfOrder(d, orderId);
    ItemsOfOrderJoined(d, d, orderId);
    ReturnStockOk(d, d, items, staffId, kind, reason, now);
    ReturnStockLedger(d, d, items, staffId, kind, reason, now);
    var t := ReturnStock(d, d, items, staffId, kind, reason, now).value;
    var rows := ReturnsFor(d, items, staffId, kind, reason, now, d.nextMovementId);
    assert t.movements[|d.movements|..] == rows;
    forall x | x in d.items
      ensures StockLevel(t.items[x]) == StockLevel(d.items[x]) + OrderReturn(d, orderId, x)
    {
      ReturnsDelta(d, items, staffId, kind, reason, now, d.nextMovementId, x);
    }
  }

  /**
   * UpdateOrderStatus with a valid status on an existing order always
   * succeeds: no transition between statuses is refused. It sets the
   * order's status and update time, and gives the order's stock back
   * exactly when the new status is cancelled and the current one still
   * holds the stock; otherwise the catalogue and the log are untouched.
   */
  lemma UpdateOrderStatusLedger(d: Tables, orderId: int, status: string, now: Time)
    requires IsValidOrderStatus(status) && OrderRepository.HasOrder(d.orders, orderId)
    ensures var r := UpdateOrderStatusSpec(d, orderId, status, now);
      var current := OrderRepository.OrderById(d, orderId).value;
      var giveBack := status == StatusCancelled && HoldsStock(current.status);
      && r.Ok?
      && Conserves(d, r.value)
      && r.value.orderItems == d.orderItems
      && OrderRepository.OrderById(r.value, orderId) == Ok(current.(status := status, updatedAt := now))
      && (forall x :: x in d.items ==>
            StockLevel(r.value.items[x]) == StockLevel(d.items[x]) + (if giveBack then OrderReturn(d, orderId, x) else 0))
      && (!giveBack ==> r.value.items == d.items && r.value.movements == d.movements)
  {
    var current := OrderRepository.OrderById(d, orderId).value;
    var t := d;
    if status == StatusCancelled && HoldsStock(current.status) {
      OrderReturnLedger(d, orderId, current.staffId, MovementTypeReturnCancellation, OrderReason(orderId, "cancelled"), now);
      t := ReturnStock(d, d, OrderRepository.ItemsOfOrder(d, orderId), current.staffId,
                       MovementTypeReturnCancellation, OrderReason(orderId, "cancelled"), now).value;
    } else {
      ConservesUntouched(d, d);
    }
    var t1 := t.(orders := OrderRepository.WithStatus(t.orders, orderId, status, now));
    assert UpdateOrderStatusSpec(d, orderId, status, now) == Ok(t1);
    ConservesUntouched(t, t1);
    ConservesTrans(d, t, t1);
    OrderRepository.FindOrderAfterStatus(d.orders, orderId, status, now);
  }

  /**
   * DeleteOrder on an existing order always succeeds and conserves stock:
   * the order's stock comes back exactly when it still held it, and the
   * order and its items are gone.
   */
  lemma DeleteOrderLedger(d: Tables, orderId: int, now: Time)
    requires OrderRepository.HasOrder(d.orders, orderId)
    ensures var r := DeleteOrderSpec(d, orderId, now);
      var o := OrderRepository.OrderById(d, orderId).value;
      && r.Ok?
      && Conserves(d, r.value)
      && (forall x :: x in d.items ==>
            StockLevel(r.value.items[x]) == StockLevel(d.items[x]) + (if HoldsStock(o.status) then OrderReturn(d, orderId, x) else 0))
      && (!HoldsStock(o.status) ==> r.value.items == d.items && r.value.movements == d.movements)
  {
    var o := OrderRepository.OrderById(d, orderId).value;
    var t := d;
    if HoldsStock(o.status) {
      OrderReturnLedger(d, orderId, o.staffId, MovementTypeReturnDeletion, OrderReason(orderId, "deleted"), now);
      t := ReturnStock(d, d, OrderRepository.ItemsOfOrder(d, orderId), o.staffId,
                       MovementTypeReturnDeletion, OrderReason(orderId, "deleted"), now).value;
    } else {
      ConservesUntouched(d, d);
    }
    var t1 := OrderRepository.OrderItemsDeleted(t, orderId).tables;
    var a := OrderRepository.OrderDeleted(t1, orderId);
    assert a.Ok?;
    assert DeleteOrderSpec(d, orderId, now) == Ok(a.value.tables);
    ConservesUntouched(t, a.value.tables);
    ConservesTrans(d, t, a.value.tables);
  }

  /**
   * The stock return on cancel is guarded only by the current status, so
   * cancelling an order, setting it back to pending and cancelling it
   * again gives its stock back twice.
   */
  lemma CancelTwiceReturnsTwice(d: Tables, orderId: int, now1: Time, now2: Time, now3: Time)
    requires OrderRepository.HasOrder(d.orders, orderId)
    requires HoldsStock(OrderRepository.OrderById(d, orderId).value.status)
    ensures UpdateOrderStatusSpec(d, orderId, StatusCancelled, now1).Ok?
    ensures var t1 := UpdateOrderStatusSpec(d, orderId, StatusCancelled, now1).value;
      UpdateOrderStatusSpec(t1, orderId, StatusPending, now2).Ok?
    ensures var t1 := UpdateOrderStatusSpec(d, orderId, StatusCancelled, now1).value;
      var t2 := UpdateOrderStatusSpec(t1, orderId, StatusPending, now2).value;
      && UpdateOrderStatusSpec(t2, orderId, StatusCancelled, now3).Ok?
      && var t3 := UpdateOrderStatusSpec(t2, orderId, StatusCancelled, now3).value;
      forall x :: x in d.items ==> x in t3.items && StockLevel(t3.items[x]) == StockLevel(d.items[x]) + 2 * OrderReturn(d, orderId, x)
  {
    CancelThenReopen(d, orderId, now1, now2);
    var t1 := UpdateOrderStatusSpec(d, orderId, StatusCancelled, now1).value;
    var t2 := UpdateOrderStatusSpec(t1, orderId, StatusPending, now2).value;
    OrderStatusesExact();
    UpdateOrderStatusLedger(t2, orderId, StatusCancelled, now3);
    ItemsOfOrderJoined(d, t2, orderId);
    forall x | x in d.items ensures OrderReturn(t2, orderId, x) == OrderReturn(d, orderId, x) {
    }
  }

  /** Cancelling an order that holds stock and setting it back to pending leaves a pending order with its stock returned once. */
  lemma CancelThenReopen(d: Tables, orderId: int, now1: Time, now2: Time)
    requires OrderRepository.HasOrder(d.orders, orderId)
    requires HoldsStock(OrderRepository.OrderById(d, orderId).value.status)
    ensures UpdateOrderStatusSpec(d, orderId, StatusCancelled, now1).Ok?
    ensures var t1 := UpdateOrderStatusSpec(d, orderId, StatusCancelled, now1).value;
      UpdateOrderStatusSpec(t1, orderId, StatusPending, now2).Ok?
    ensures var t1 := UpdateOrderStatusSpec(d, orderId, StatusCancelled, now1).value;
      var t2 := UpdateOrderStatusSpec(t1, orderId, StatusPending, now2).value;
      && OrderRepository.HasOrder(t2.orders, orderId)
      && OrderRepository.OrderById(t2, orderId).value.status == StatusPending
      && Conserves(d, t2) && t2.orderItems == d.orderItems
      && forall x :: x in d.items ==> StockLevel(t2.items[x]) == StockLevel(d.items[x]) + OrderReturn(d, orderId, x)
  {
    OrderStatusesExact();
    UpdateOrderStatusLedger(d, orderId, StatusCancelled, now1);
    var t1 := UpdateOrderStatusSpec(d, orderId, StatusCancelled, now1).value;
    assert OrderRepository.HasOrder(t1.orders, orderId);
    UpdateOrderStatusLedger(t1, orderId, StatusPending, now2);
    var t2 := UpdateOrderStatusSpec(t1, orderId, StatusPending, now2).value;
    ConservesTrans(d, t1, t2);
    assert OrderRepository.HasOrder(t2.orders, orderId);
  }
}
