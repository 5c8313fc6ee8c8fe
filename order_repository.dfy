/**
 * internal/repositories/order_repository.go over the orders and
 * order_items tables: each statement once as a function on the tables and
 * once as a method executing it on a `Store`.
 */
module OrderRepository {
  import opened Wrappers
  import opened Store
  import opened Query

  /** Some row of the orders table has the id. */
  predicate HasOrder(orders: seq<Order>, id: int) {
    exists i :: 0 <= i < |orders| && orders[i].id == id
  }

  /** A timestamp the caller left zero is filled with `now`. */
  function FillIfZero(at: Time, now: Time): (r: Time)
    ensures at != ZeroTime ==> r == at
    ensures at == ZeroTime ==> r == now
  {
    if at == ZeroTime then now else at
  }

  /**
   * INSERT INTO orders ... RETURNING id. The value is the caller's order
   * afterwards: zero timestamps filled with `now` and the new id set; it is
   * also the stored row.
   */
  function OrderInserted(t: Tables, o: Order, now: Time): (r: Applied<Order>)
    ensures r.value.id == t.nextOrderId
    ensures r.value.orderTime == FillIfZero(o.orderTime, now)
    ensures r.value.createdAt == FillIfZero(o.createdAt, now) && r.value.updatedAt == FillIfZero(o.updatedAt, now)
    ensures r.value.(id := o.id, orderTime := o.orderTime, createdAt := o.createdAt, updatedAt := o.updatedAt) == o
    ensures r.tables == t.(orders := t.orders + [r.value], nextOrderId := t.nextOrderId + 1)
  {
    var row := o.(id := t.nextOrderId, orderTime := FillIfZero(o.orderTime, now),
                  createdAt := FillIfZero(o.createdAt, now), updatedAt := FillIfZero(o.updatedAt, now));
    Applied(t.(orders := t.orders + [row], nextOrderId := t.nextOrderId + 1), row)
  }

  /** The first row with the id. */
  function FindOrder(orders: seq<Order>, id: int): (r: Option<Order>)
    ensures r.None? <==> !HasOrder(orders, id)
    ensures r.Some? ==> r.value in orders && r.value.id == id
    decreases |orders|
  {
    if |orders| == 0 then None
    else if orders[0].id == id then Some(orders[0])
    else
      HasOrderTail(orders, id);
      FindOrder(orders[1..], id)
  }

  /** GetOrderByID: a read of the committed orders; NotFound for an unknown id. */
  function OrderById(t: Tables, id: int): (r: Result<Order, RepoError>)
    ensures r.Err? <==> !HasOrder(t.orders, id)
    ensures r.Err? ==> r.error == NotFound
    ensures r.Ok? ==> r.value in t.orders && r.value.id == id
  {
    match FindOrder(t.orders, id)
    case None => Err(NotFound)
    case Some(o) => Ok(o)
  }

  /** The orders with `status` and `updated_at` set on the rows with the id. */
  function WithStatus(orders: seq<Order>, id: int, status: string, at: Time): (r: seq<Order>)
    ensures |r| == |orders|
    ensures forall i :: 0 <= i < |orders| && orders[i].id != id ==> r[i] == orders[i]
    ensures forall i :: 0 <= i < |orders| && orders[i].id == id ==> r[i] == orders[i].(status := status, updatedAt := at)
  {
    seq(|orders|, i requires 0 <= i < |orders| =>
      if orders[i].id == id then orders[i].(status := status, updatedAt := at) else orders[i])
  }

  /** After the update, reading the order back finds it with the new status and update time and nothing else changed. */
  lemma {:induction false} FindOrderAfterStatus(orders: seq<Order>, id: int, status: string, at: Time)
    ensures FindOrder(WithStatus(orders, id, status, at), id) ==
      if HasOrder(orders, id) then Some(FindOrder(orders, id).value.(status := status, updatedAt := at)) else None
    decreases |orders|
  {
    if |orders| > 0 {
      var w := WithStatus(orders, id, status, at);
      assert w[1..] == WithStatus(orders[1..], id, status, at);
      HasOrderTail(orders, id);
      HasOrderTail(w, id);
      FindOrderAfterStatus(orders[1..], id, status, at);
    }
  }

  /** UPDATE orders SET status, updated_at WHERE id; NotFound when no row matches. */
  function OrderStatusUpdated(t: Tables, id: int, status: string, at: Time): (r: Result<Tables, RepoError>)
    ensures r.Err? <==> !HasOrder(t.orders, id)
    ensures r.Err? ==> r.error == NotFound
    ensures r.Ok? ==> r.value == t.(orders := WithStatus(t.orders, id, status, at))
  {
    if HasOrder(t.orders, id) then Ok(t.(orders := WithStatus(t.orders, id, status, at))) else Err(NotFound)
  }

  /** HasOrder looks past the first row. */
  lemma HasOrderTail(orders: seq<Order>, id: int)
    requires |orders| > 0
    ensures HasOrder(orders, id) <==> orders[0].id == id || HasOrder(orders[1..], id)
  {
    if HasOrder(orders, id) && orders[0].id != id {
      var i :| 0 <= i < |orders| && orders[i].id == id;
      assert orders[1..][i - 1].id == id;
    }
    if HasOrder(orders[1..], id) {
      var i :| 0 <= i < |orders[1..]| && orders[1..][i].id == id;
      assert orders[i + 1].id == id;
    }
  }

  /** The orders without the rows having the id, in table order. */
  function OrdersWithout(orders: seq<Order>, id: int): (r: seq<Order>)
    ensures forall o :: o in r <==> o in orders && o.id != id
    ensures |r| <= |orders|
    ensures |r| == |orders| <==> !HasOrder(orders, id)
    decreases |orders|
  {
    if |orders| == 0 then []
    else
      HasOrderTail(orders, id);
      var rest := OrdersWithout(orders[1..], id);
      assert orders == [orders[0]] + orders[1..];
      if orders[0].id != id then [orders[0]] + rest else rest
  }

  /** DELETE FROM orders WHERE id: NotFound on zero rows, otherwise the number of rows removed. */
  function OrderDeleted(t: Tables, id: int): (r: Result<Applied<int>, RepoError>)
    ensures r.Err? <==> !HasOrder(t.orders, id)
    ensures r.Err? ==> r.error == NotFound
    ensures r.Ok? ==> (
      && r.value.value >= 1 && r.value.value == |t.orders| - |OrdersWithout(t.orders, id)|
      && r.value.tables == t.(orders := OrdersWithout(t.orders, id)))
  {
    var kept := OrdersWithout(t.orders, id);
    if HasOrder(t.orders, id) then Ok(Applied(t.(orders := kept), |t.orders| - |kept|))
    else Err(NotFound)
  }

  /**
   * INSERT INTO order_items ... RETURNING id. Zero timestamps are filled
   * with `now`; an item of an unknown order or unknown catalogue item
   * breaks a foreign key.
   */
  function OrderItemInserted(t: Tables, item: OrderItem, now: Time): (r: Result<Applied<OrderItem>, RepoError>)
    ensures r.Err? <==> !HasOrder(t.orders, item.orderId) || item.pricelistItemId !in t.items
    ensures r.Ok? ==> (
      && r.value.value == item.(id := t.nextOrderItemId, createdAt := FillIfZero(item.createdAt, now), updatedAt := FillIfZero(item.updatedAt, now))
      && r.value.tables == t.(orderItems := t.orderItems + [r.value.value], nextOrderItemId := t.nextOrderItemId + 1))
  {
    if !HasOrder(t.orders, item.orderId) || item.pricelistItemId !in t.items then Err(DatabaseError("foreign key violation"))
    else
      var row := item.(id := t.nextOrderItemId, createdAt := FillIfZero(item.createdAt, now), updatedAt := FillIfZero(item.updatedAt, now));
      Ok(Applied(t.(orderItems := t.orderItems + [row], nextOrderItemId := t.nextOrderItemId + 1), row))
  }

  /** The rows GetOrderItemsByOrderID selects: the order's items joined with an existing catalogue item. */
  predicate IsItemOf(t: Tables, orderId: int, oi: OrderItem) {
    oi.orderId == orderId && oi.pricelistItemId in t.items
  }

  /** GetOrderItemsByOrderID: a read of the committed order items, ORDER BY oi.id. */
  function ItemsOfOrder(t: Tables, orderId: int): (r: seq<OrderItem>)
    ensures forall oi :: oi in r <==> oi in t.orderItems && IsItemOf(t, orderId, oi)
  {
    Filter(t.orderItems, oi => IsItemOf(t, orderId, oi))
  }

  /** The rows' ids strictly increase. */
  predicate IdsAscending(s: seq<OrderItem>) {
    forall i, j :: 0 <= i < j < |s| ==> s[i].id < s[j].id
  }

  lemma ConsAscending(x: OrderItem, rest: seq<OrderItem>)
    requires IdsAscending(rest)
    requires forall k :: 0 <= k < |rest| ==> x.id < rest[k].id
    ensures IdsAscending([x] + rest)
  {
    var r := [x] + rest;
    forall i, j | 0 <= i < j < |r| ensures r[i].id < r[j].id {
      assert r[j] == rest[j - 1];
      if i > 0 { assert r[i] == rest[i - 1]; }
    }
  }

  /** A filter of a table with ascending ids has ascending ids. */
  lemma {:induction false} FilterAscending(s: seq<OrderItem>, p: OrderItem -> bool)
    requires IdsAscending(s)
    ensures IdsAscending(Filter(s, p))
    decreases |s|
  {
    if |s| > 0 {
      assert IdsAscending(s[1..]) by {
        forall i, j | 0 <= i < j < |s[1..]| ensures s[1..][i].id < s[1..][j].id {
          assert s[1..][i] == s[i + 1] && s[1..][j] == s[j + 1];
        }
      }
      FilterAscending(s[1..], p);
      var rest := Filter(s[1..], p);
      if p(s[0]) {
        forall k | 0 <= k < |rest| ensures s[0].id < rest[k].id {
          assert rest[k] in s[1..];
          var m :| 0 <= m < |s[1..]| && s[1..][m] == rest[k];
          assert s[m + 1] == rest[k];
        }
        ConsAscending(s[0], rest);
        assert Filter(s, p) == [s[0]] + rest;
      } else {
        assert Filter(s, p) == rest;
      }
    }
  }

  /** GetOrderItemsByOrderID returns exactly the order's (joinable) items, in ascending id order. */
  lemma ItemsOfOrderAscending(t: Tables, orderId: int)
    requires Wf(t)
    ensures IdsAscending(ItemsOfOrder(t, orderId))
    ensures forall oi :: oi in ItemsOfOrder(t, orderId) ==> oi.orderId == orderId && oi in t.orderItems
  {
    var ids := OrderItemIds(t.orderItems);
    assert forall i, j :: 0 <= i < j < |t.orderItems| ==> ids[i] < ids[j];
    FilterAscending(t.orderItems, oi => IsItemOf(t, orderId, oi));
  }

  /** The order items without those of the order. */
  function ItemsNotOf(items: seq<OrderItem>, orderId: int): (r: seq<OrderItem>)
    ensures forall oi :: oi in r <==> oi in items && oi.orderId != orderId
    ensures |r| <= |items|
    decreases |items|
  {
    if |items| == 0 then []
    else
      var rest := ItemsNotOf(items[1..], orderId);
      assert items == [items[0]] + items[1..];
      if items[0].orderId != orderId then [items[0]] + rest else rest
  }

  /** DELETE FROM order_items WHERE order_id: every item of the order goes; the count may be zero. */
  function OrderItemsDeleted(t: Tables, orderId: int): (r: Applied<int>)
    ensures r.tables == t.(orderItems := ItemsNotOf(t.orderItems, orderId))
    ensures r.value == |t.orderItems| - |ItemsNotOf(t.orderItems, orderId)| && r.value >= 0
  {
    var kept := ItemsNotOf(t.orderItems, orderId);
    Applied(t.(orderItems := kept), |t.orderItems| - |kept|)
  }

  // ---------------------------------------------------------------- executing on a store

  /** CreateOrder on an executor: returns the caller's order with the id and timestamps filled in. */
  method CreateOrder(ex: Store, order: Order, now: Time) returns (o: Order)
    modifies ex
    ensures var a := OrderInserted(old(ex.State()), order, now);
      ex.State() == a.tables && o == a.value
  {
    o := order;
    if o.orderTime == ZeroTime { o := o.(orderTime := now); }
    if o.createdAt == ZeroTime { o := o.(createdAt := now); }
    if o.updatedAt == ZeroTime { o := o.(updatedAt := now); }
    o := o.(id := ex.nextOrderId);
    ex.orders := ex.orders + [o];
    ex.nextOrderId := ex.nextOrderId + 1;
  }

  method UpdateOrderStatus(ex: Store, orderId: int, status: string, at: Time) returns (r: Result<(), RepoError>)
    modifies ex
    ensures var a := OrderStatusUpdated(old(ex.State()), orderId, status, at);
      if a.Ok? then ex.State() == a.value && r.Ok?
      else ex.State() == old(ex.State()) && r == Err(a.error)
  {
    if !exists i :: 0 <= i < |ex.orders| && ex.orders[i].id == orderId {
      return Err(NotFound);
    }
    ex.orders := WithStatus(ex.orders, orderId, status, at);
    r := Ok(());
  }

  method DeleteOrder(ex: Store, orderId: int) returns (r: Result<int, RepoError>)
    modifies ex
    ensures var a := OrderDeleted(old(ex.State()), orderId);
      if a.Ok? then ex.State() == a.value.tables && r == Ok(a.value.value)
      else ex.State() == old(ex.State()) && r == Err(a.error)
  {
    var before := |ex.orders|;
    var kept := OrdersWithout(ex.orders, orderId);
    var rowsAffected := before - |kept|;
    if rowsAffected == 0 {
      return Err(NotFound);
    }
    ex.orders := kept;
    r := Ok(rowsAffected);
  }

  /** CreateOrderItem on an executor: returns the caller's item with the id and timestamps filled in. */
  method CreateOrderItem(ex: Store, item: OrderItem, now: Time) returns (r: Result<OrderItem, RepoError>)
    modifies ex
    ensures var a := OrderItemInserted(old(ex.State()), item, now);
      if a.Ok? then ex.State() == a.value.tables && r == Ok(a.value.value)
      else ex.State() == old(ex.State()) && r == Err(a.error)
  {
    var row := item;
    if row.createdAt == ZeroTime { row := row.(createdAt := now); }
    if row.updatedAt == ZeroTime { row := row.(updatedAt := now); }
    if !(exists i :: 0 <= i < |ex.orders| && ex.orders[i].id == row.orderId) || row.pricelistItemId !in ex.items {
      return Err(DatabaseError("foreign key violation"));
    }
    row := row.(id := ex.nextOrderItemId);
    ex.orderItems := ex.orderItems + [row];
    ex.nextOrderItemId := ex.nextOrderItemId + 1;
    r := Ok(row);
  }

  method DeleteOrderItemsByOrderID(ex: Store, orderId: int) returns (count: int)
    modifies ex
    ensures var a := OrderItemsDeleted(old(ex.State()), orderId);
      ex.State() == a.tables && count == a.value
  {
    var kept := ItemsNotOf(ex.orderItems, orderId);
    count := |ex.orderItems| - |kept|;
    ex.orderItems := kept;
  }

  /** GetOrderItemsByOrderID on the database: the joined rows, appended one by one. */
  method GetOrderItemsByOrderID(db: Store, orderId: int) returns (items: seq<OrderItem>)
    ensures items == ItemsOfOrder(db.State(), orderId)
  {
    var rows := ItemsOfOrder(db.State(), orderId);
    items := [];
    for i := 0 to |rows|
      invariant items == rows[..i]
    {
      items := items + [rows[i]];
    }
  }

  // ---------------------------------------------------------------- listing

  /** The filters of GetOrders; nil, or an empty status or date, does not filter. */
  datatype OrderFilters = OrderFilters(
    clientId: Option<int>, staffId: Option<int>, tableId: Option<int>,
    status: Option<string>, date: Option<string>, page: int, pageSize: int)

  /**
   * The WHERE clause: the supplied filters ANDed. A date is a calendar day
   * "2006-01-02"; `parseDay` gives the instant it starts at, and a date that
   * does not parse is ignored.
   */
  predicate OrderMatches(f: OrderFilters, parseDay: string -> Option<Time>, o: Order) {
    && (f.clientId.Some? ==> o.clientId == f.clientId)
    && (f.staffId.Some? ==> o.staffId == f.staffId)
    && (f.tableId.Some? ==> o.tableId == f.tableId)
    && (f.status.Some? && f.status.value != "" ==> o.status == f.status.value)
    && (f.date.Some? && f.date.value != "" && parseDay(f.date.value).Some? ==>
          parseDay(f.date.value).value <= o.orderTime <= parseDay(f.date.value).value + Day - Nanosecond)
  }

  function MatchingOrders(t: Tables, f: OrderFilters, parseDay: string -> Option<Time>): seq<Order> {
    Filter(t.orders, o => OrderMatches(f, parseDay, o))
  }

  /** ORDER BY order_time DESC. */
  function OrderKey(o: Order): SortKey {
    SortKey(o.orderTime, 0)
  }

  /** The rows the list query returns. */
  function OrderRows(t: Tables, f: OrderFilters, parseDay: string -> Option<Time>): seq<Order> {
    OptionalPage(SortDesc(MatchingOrders(t, f, parseDay), OrderKey), f.page, f.pageSize)
  }

  /** GetOrders: the (optionally paginated) matching orders, latest first, with the COUNT(*) OVER() total. */
  method GetOrders(db: Store, f: OrderFilters, parseDay: string -> Option<Time>) returns (orders: seq<Order>, totalCount: int)
    ensures orders == OrderRows(db.State(), f, parseDay)
    ensures totalCount == ReportedTotal(MatchingOrders(db.State(), f, parseDay), orders)
  {
    var matching := MatchingOrders(db.State(), f, parseDay);
    var rows := OptionalPage(SortDesc(matching, OrderKey), f.page, f.pageSize);
    orders := [];
    totalCount := 0;
    for i := 0 to |rows|
      invariant orders == rows[..i]
      invariant totalCount == if i == 0 then 0 else |matching|
    {
      orders := orders + [rows[i]];
      totalCount := |matching|;
    }
  }

  /** Every listed order is in the table and passes every supplied filter; the list is latest first and, with a page size, at most a page. */
  lemma OrdersListedMatch(t: Tables, f: OrderFilters, parseDay: string -> Option<Time>)
    ensures var rows := OrderRows(t, f, parseDay);
      && SortedDesc(rows, OrderKey)
      && (f.pageSize > 0 ==> |rows| <= f.pageSize)
      && (forall i :: 0 <= i < |rows| ==> rows[i] in t.orders && OrderMatches(f, parseDay, rows[i]))
  {
    OptionalPageListed(t.orders, o => OrderMatches(f, parseDay, o), OrderKey, f.page, f.pageSize);
  }

  /** Without a page size every matching order is returned and the total is their number (when there is one). */
  lemma OrdersUnpaginated(t: Tables, f: OrderFilters, parseDay: string -> Option<Time>)
    requires f.pageSize <= 0
    ensures |OrderRows(t, f, parseDay)| == |MatchingOrders(t, f, parseDay)|
  {
    var m := MatchingOrders(t, f, parseDay);
    assert |SortDesc(m, OrderKey)| == |multiset(SortDesc(m, OrderKey))| == |multiset(m)| == |m|;
  }
}
