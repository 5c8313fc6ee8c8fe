/**
 * internal/services/order_service.go: creating an order against the stock
 * ledger, changing its status (cancelling returns the stock) and deleting
 * it (returning the stock unless it was already returned).
 *
 * Each operation is given twice: as a function from the committed tables
 * to the committed tables afterwards (or the error), and as a method that
 * opens a transaction on a copy of the database, runs the repository
 * statements on it one by one and commits. Every error returns before the
 * commit, so the deferred rollback leaves the database as it was.
 */
module OrderService {
  import opened Wrappers
  import opened Store
  import opened GoStrings
  import opened StringUtils
  import opened PricelistRepository
  import opened MovementRepository
  import OrderRepository

  const StatusPending: string := "pending"
  const StatusCompleted: string := "completed"
  const StatusCancelled: string := "cancelled"
  const StatusPreparing: string := "preparing"
  const StatusReady: string := "ready"
  const StatusServed: string := "served"
  const StatusPaid: string := "paid"
  const StatusRefunded: string := "refunded"

  const OrderStatuses: set<string> :=
    {StatusPending, StatusCompleted, StatusCancelled, StatusPreparing, StatusReady, StatusServed, StatusPaid, StatusRefunded}

  /** isValidOrderStatus: one of the eight status constants, compared exactly. */
  predicate IsValidOrderStatus(status: string) {
    status in OrderStatuses
  }

  /** Exactly eight statuses are valid; the comparison is case-sensitive and "" is not one of them. */
  lemma OrderStatusesExact()
    ensures |OrderStatuses| == 8
    ensures !IsValidOrderStatus("") && !IsValidOrderStatus("Cancelled") && !IsValidOrderStatus("PENDING")
    ensures IsValidOrderStatus(StatusCancelled) && IsValidOrderStatus(StatusRefunded) && IsValidOrderStatus(StatusPending)
  {
    assert "pending" != "completed" && "cancelled" != "preparing" && "ready" != "served" && "paid" != "refunded";
    assert |{StatusPending, StatusCompleted}| == 2;
    assert |{StatusPending, StatusCompleted, StatusCancelled}| == 3;
    assert |{StatusPending, StatusCompleted, StatusCancelled, StatusPreparing}| == 4;
    assert |{StatusPending, StatusCompleted, StatusCancelled, StatusPreparing, StatusReady}| == 5;
    assert |{StatusPending, StatusCompleted, StatusCancelled, StatusPreparing, StatusReady, StatusServed}| == 6;
    assert |{StatusPending, StatusCompleted, StatusCancelled, StatusPreparing, StatusReady, StatusServed, StatusPaid}| == 7;
  }

  /** The service errors; `Repository` wraps an error from a statement. */
  datatype OrderError =
    | Validation(itemId: int)
    | PricelistItemNotFound(itemId: int)
    | InsufficientStock(name: string, itemId: int, requested: int, available: int)
    | InvalidOrderStatus(status: string)
    | OrderNotFound
    | Repository(error: RepoError)

  /** CreateOrderItemRequest. */
  datatype LineRequest = LineRequest(pricelistItemId: int, quantity: int, notes: string)

  /** CreateOrderRequest; the discount is in cents. */
  datatype CreateOrderRequest = CreateOrderRequest(
    clientId: Option<int>, bookingId: Option<int>, staffId: int, tableId: Option<int>, status: string,
    paymentMethod: Option<string>, notes: Option<string>, lines: seq<LineRequest>, discountAmount: Option<int>)

  /** An order with its items, as GetOrderByID returns it. */
  datatype OrderDetails = OrderDetails(order: Order, items: seq<OrderItem>)

  /** The amount due: the total, less the discount when one is given, but never below zero. A negative discount is not refused. */
  function FinalAmount(total: int, discount: Option<int>): (r: int)
    ensures discount.None? ==> r == total
    ensures discount.Some? ==> r >= 0 && r >= total - discount.value && (r == 0 || r == total - discount.value)
  {
    if discount.None? then total
    else if total - discount.value < 0 then 0
    else total - discount.value
  }

  /** An order that has not been cancelled or refunded still holds the stock it took. */
  predicate HoldsStock(status: string) {
    status != StatusCancelled && status != StatusRefunded
  }

  // ---------------------------------------------------------------- the ledger step

  /**
   * One ledger entry inside the transaction: UpdateStock by the movement's
   * quantity, then CreateMovement. The existence check of UpdateStock reads
   * the committed tables `d`.
   */
  function Record(d: Tables, t: Tables, m: Movement, now: Time): (r: Result<Tables, RepoError>)
    ensures r.Ok? ==> m.pricelistItemId in t.items && t.items[m.pricelistItemId].tracksStock
  {
    match StockUpdated(d, t, m.pricelistItemId, m.quantityChanged, now)
    case Err(e) => Err(e)
    case Ok(s) =>
      match MovementInserted(s.tables, m, now)
      case Err(e) => Err(e)
      case Ok(a) => Ok(a.tables)
  }

  /** The sale movement of a tracked line, made by the order's staff member. */
  function SaleMovement(itemId: int, staffId: int, quantity: int, now: Time): (m: Movement)
    ensures m.pricelistItemId == itemId && m.quantityChanged == -quantity && m.staffId == Some(staffId)
    ensures m.movementType == MovementTypeSale && m.movementDate == now
  {
    Movement(0, itemId, Some(staffId), MovementTypeSale, -quantity, NewNullString("Order creation"), now, ZeroTime, ZeroTime)
  }

  /** The movement giving back the stock of one order item. */
  function ReturnMovement(item: OrderItem, staffId: Option<int>, kind: string, reason: string, now: Time): (m: Movement)
    ensures m.pricelistItemId == item.pricelistItemId && m.quantityChanged == item.quantity && m.staffId == staffId
    ensures m.movementType == kind && m.movementDate == now
  {
    Movement(0, item.pricelistItemId, staffId, kind, item.quantity, NewNullString(reason), now, ZeroTime, ZeroTime)
  }

  /** "Order %d cancelled" / "Order %d deleted". */
  function OrderReason(orderId: int, what: string): (r: string)
    ensures |r| > 6 && r[..6] == "Order "
  {
    "Order " + FormatInt(orderId) + " " + what
  }

  // ---------------------------------------------------------------- CreateOrder

  /** The work of the line loop so far: the transaction's tables, the running total and the items to insert. */
  datatype Progress = Progress(tx: Tables, total: int, pending: seq<OrderItem>)

  /** A failed price lookup: an unknown item is reported as such, any other error is passed on. */
  function LookupError(itemId: int, e: RepoError): (r: OrderError)
    ensures e == NotFound <==> r == PricelistItemNotFound(itemId)
  {
    if e == NotFound then PricelistItemNotFound(itemId) else Repository(e)
  }

  /** The order item a line will be stored as (order id and timestamps not yet set). */
  function PendingItem(line: LineRequest, price: int): (oi: OrderItem)
    ensures oi.pricelistItemId == line.pricelistItemId && oi.quantity == line.quantity
    ensures oi.unitPrice == price && oi.totalPrice == price * line.quantity
  {
    OrderItem(0, 0, line.pricelistItemId, line.quantity, price, price * line.quantity, NewNullString(line.notes), ZeroTime, ZeroTime)
  }

  /**
   * One pass of the line loop. The price and stock are read from the
   * committed tables `d`, not from the transaction.
   */
  function Step(d: Tables, p: Progress, line: LineRequest, staffId: int, now: Time): (r: Result<Progress, OrderError>)
    ensures line.quantity <= 0 ==> r == Err(Validation(line.pricelistItemId))
    ensures line.quantity > 0 && line.pricelistItemId !in d.items ==> r == Err(PricelistItemNotFound(line.pricelistItemId))
    ensures r.Ok? ==> (
      && line.pricelistItemId in d.items
      && r.value.total == p.total + d.items[line.pricelistItemId].price * line.quantity
      && r.value.pending == p.pending + [PendingItem(line, d.items[line.pricelistItemId].price)])
  {
    if line.quantity <= 0 then Err(Validation(line.pricelistItemId))
    else
      match ItemPriceAndStock(d, line.pricelistItemId)
      case Err(e) => Err(LookupError(line.pricelistItemId, e))
      case Ok(info) =>
        var item := PendingItem(line, info.price);
        if !info.tracksStock then Ok(Progress(p.tx, p.total + item.totalPrice, p.pending + [item]))
        else if info.currentStock.None? || info.currentStock.value < line.quantity then
          Err(InsufficientStock(info.name, line.pricelistItemId, line.quantity, info.currentStock.GetOr(0)))
        else
          match Record(d, p.tx, SaleMovement(line.pricelistItemId, staffId, line.quantity, now), now)
          case Err(e) => Err(Repository(e))
          case Ok(t) => Ok(Progress(t, p.total + item.totalPrice, p.pending + [item]))
  }

  /** The line loop over `lines`, starting from the transaction's tables `t`. */
  function ProcessLines(d: Tables, t: Tables, lines: seq<LineRequest>, staffId: int, now: Time): (r: Result<Progress, OrderError>)
    ensures r.Ok? ==> |r.value.pending| == |lines|
    decreases |lines|
  {
    if |lines| == 0 then Ok(Progress(t, 0, []))
    else
      match ProcessLines(d, t, lines[..|lines| - 1], staffId, now)
      case Err(e) => Err(e)
      case Ok(p) => Step(d, p, lines[|lines| - 1], staffId, now)
  }

  /** The CreateOrderItem loop: each pending item linked to the order and inserted in turn. */
  function InsertItems(t: Tables, pending: seq<OrderItem>, orderId: int, now: Time): (r: Result<Tables, RepoError>)
    decreases |pending|
  {
    if |pending| == 0 then Ok(t)
    else
      match InsertItems(t, pending[..|pending| - 1], orderId, now)
      case Err(e) => Err(e)
      case Ok(t1) =>
        match OrderRepository.OrderItemInserted(t1, pending[|pending| - 1].(orderId := orderId), now)
        case Err(e) => Err(e)
        case Ok(a) => Ok(a.tables)
  }

  /** The order row CreateOrder builds, before the repository fills in the id. */
  function OrderHeader(req: CreateOrderRequest, total: int, now: Time): (o: Order)
    ensures o.totalAmount == total && o.finalAmount == FinalAmount(total, req.discountAmount)
    ensures o.staffId == Some(req.staffId) && o.status == req.status && o.orderTime == now
  {
    Order(0, req.clientId, req.bookingId, Some(req.staffId), req.tableId, now, req.status, total,
          req.discountAmount, FinalAmount(total, req.discountAmount), req.paymentMethod, req.notes, now, now)
  }

  /**
   * CreateOrder from the committed tables `d`: the committed tables after
   * the commit and the new order's id, or the error (and then nothing is
   * committed). The status is checked only after every line was processed.
   */
  function CreateOrderSpec(d: Tables, req: CreateOrderRequest, now: Time): (r: Result<Applied<int>, OrderError>)
    ensures !IsValidOrderStatus(req.status) ==> r.Err?
  {
    match ProcessLines(d, d, req.lines, req.staffId, now)
    case Err(e) => Err(e)
    case Ok(p) =>
      if !IsValidOrderStatus(req.status) then Err(InvalidOrderStatus(req.status))
      else
        var ins := OrderRepository.OrderInserted(p.tx, OrderHeader(req, p.total, now), now);
        match InsertItems(ins.tables, p.pending, ins.value.id, now)
        case Err(e) => Err(Repository(e))
        case Ok(t) => Ok(Applied(t, ins.value.id))
  }

  /** GetOrderByID: the order and its items, read from the committed tables. */
  function OrderDetailsOf(t: Tables, orderId: int): (r: Result<OrderDetails, OrderError>)
    ensures r.Err? <==> !OrderRepository.HasOrder(t.orders, orderId)
    ensures r.Err? ==> r.error == OrderNotFound
    ensures r.Ok? ==> r.value.order in t.orders && r.value.order.id == orderId
    ensures r.Ok? ==> forall oi :: oi in r.value.items ==> oi in t.orderItems && oi.orderId == orderId
  {
    match OrderRepository.OrderById(t, orderId)
    case Err(e) => Err(ServiceError(e))
    case Ok(o) => Ok(OrderDetails(o, OrderRepository.ItemsOfOrder(t, orderId)))
  }

  // ---------------------------------------------------------------- returning stock

  /** One pass of the stock-return loop: only an item that tracks stock gets a movement. */
  function ReturnOne(d: Tables, t: Tables, item: OrderItem, staffId: Option<int>, kind: string, reason: string, now: Time): (r: Result<Tables, OrderError>)
    ensures item.pricelistItemId in d.items && !d.items[item.pricelistItemId].tracksStock ==> r == Ok(t)
  {
    match ItemPriceAndStock(d, item.pricelistItemId)
    case Err(e) => Err(Repository(e))
    case Ok(info) =>
      if !info.tracksStock then Ok(t)
      else
        match Record(d, t, ReturnMovement(item, staffId, kind, reason, now), now)
        case Err(e) => Err(Repository(e))
        case Ok(t1) => Ok(t1)
  }

  /** The stock-return loop over the order's items. */
  function ReturnStock(d: Tables, t: Tables, items: seq<OrderItem>, staffId: Option<int>, kind: string, reason: string, now: Time): (r: Result<Tables, OrderError>)
    decreases |items|
  {
    if |items| == 0 then Ok(t)
    else
      match ReturnStock(d, t, items[..|items| - 1], staffId, kind, reason, now)
      case Err(e) => Err(e)
      case Ok(t1) => ReturnOne(d, t1, items[|items| - 1], staffId, kind, reason, now)
  }

  /** The status update maps the repository's NotFound to OrderNotFound. */
  function ServiceError(e: RepoError): (r: OrderError)
    ensures e == NotFound <==> r == OrderNotFound
  {
    if e == NotFound then OrderNotFound else Repository(e)
  }

  /**
   * UpdateOrderStatus from the committed tables: an invalid status is
   * refused first; the stock comes back only when the new status is
   * cancelled and the current one still holds stock; any other change of
   * status is allowed.
   */
  function UpdateOrderStatusSpec(d: Tables, orderId: int, status: string, now: Time): (r: Result<Tables, OrderError>)
    ensures !IsValidOrderStatus(status) ==> r == Err(InvalidOrderStatus(status))
    ensures IsValidOrderStatus(status) && !OrderRepository.HasOrder(d.orders, orderId) ==> r == Err(OrderNotFound)
  {
    if !IsValidOrderStatus(status) then Err(InvalidOrderStatus(status))
    else
      match OrderRepository.OrderById(d, orderId)
      case Err(e) => Err(ServiceError(e))
      case Ok(current) =>
        var returned :=
          if status == StatusCancelled && HoldsStock(current.status) then
            ReturnStock(d, d, OrderRepository.ItemsOfOrder(d, orderId), current.staffId,
                        MovementTypeReturnCancellation, OrderReason(orderId, "cancelled"), now)
          else Ok(d);
        match returned
        case Err(e) => Err(e)
        case Ok(t) =>
          match OrderRepository.OrderStatusUpdated(t, orderId, status, now)
          case Err(e) => Err(ServiceError(e))
          case Ok(t1) => Ok(t1)
  }

  /**
   * DeleteOrder from the committed tables: the stock comes back unless the
   * order is cancelled or refunded; then its items and the order go.
   */
  function DeleteOrderSpec(d: Tables, orderId: int, now: Time): (r: Result<Tables, OrderError>)
    ensures !OrderRepository.HasOrder(d.orders, orderId) ==> r == Err(OrderNotFound)
    ensures r.Ok? ==> !OrderRepository.HasOrder(r.value.orders, orderId)
    ensures r.Ok? ==> forall oi :: oi in r.value.orderItems ==> oi.orderId != orderId
  {
    match OrderRepository.OrderById(d, orderId)
    case Err(e) => Err(ServiceError(e))
    case Ok(o) =>
      var returned :=
        if HoldsStock(o.status) then
          ReturnStock(d, d, OrderRepository.ItemsOfOrder(d, orderId), o.staffId,
                      MovementTypeReturnDeletion, OrderReason(orderId, "deleted"), now)
        else Ok(d);
      match returned
      case Err(e) => Err(e)
      case Ok(t) =>
        var t1 := OrderRepository.OrderItemsDeleted(t, orderId).tables;
        match OrderRepository.OrderDeleted(t1, orderId)
        case Err(e) => Err(ServiceError(e))
        case Ok(a) => Ok(a.tables)
  }

  // ---------------------------------------------------------------- the loops stay on their path

  /** Once the line loop has failed, the remaining lines do not change its error. */
  lemma {:induction false} ProcessLinesErrorSticks(d: Tables, t: Tables, lines: seq<LineRequest>, k: nat, staffId: int, now: Time)
    requires k <= |lines| && ProcessLines(d, t, lines[..k], staffId, now).Err?
    ensures ProcessLines(d, t, lines, staffId, now) == ProcessLines(d, t, lines[..k], staffId, now)
    decreases |lines| - k
  {
    if k < |lines| {
      assert lines[..k + 1][..k] == lines[..k];
      ProcessLinesErrorSticks(d, t, lines, k + 1, staffId, now);
    } else {
      assert lines[..k] == lines;
    }
  }

  /** Once the item-insert loop has failed, the remaining items do not change its error. */
  lemma {:induction false} InsertItemsErrorSticks(t: Tables, pending: seq<OrderItem>, k: nat, orderId: int, now: Time)
    requires k <= |pending| && InsertItems(t, pending[..k], orderId, now).Err?
    ensures InsertItems(t, pending, orderId, now) == InsertItems(t, pending[..k], orderId, now)
    decreases |pending| - k
  {
    if k < |pending| {
      assert pending[..k + 1][..k] == pending[..k];
      InsertItemsErrorSticks(t, pending, k + 1, orderId, now);
    } else {
      assert pending[..k] == pending;
    }
  }

  /** Once the stock-return loop has failed, the remaining items do not change its error. */
  lemma {:induction false} ReturnStockErrorSticks(d: Tables, t: Tables, items: seq<OrderItem>, k: nat, staffId: Option<int>, kind: string, reason: string, now: Time)
    requires k <= |items| && ReturnStock(d, t, items[..k], staffId, kind, reason, now).Err?
    ensures ReturnStock(d, t, items, staffId, kind, reason, now) == ReturnStock(d, t, items[..k], staffId, kind, reason, now)
    decreases |items| - k
  {
    if k < |items| {
      assert items[..k + 1][..k] == items[..k];
      ReturnStockErrorSticks(d, t, items, k + 1, staffId, kind, reason, now);
    } else {
      assert items[..k] == items;
    }
  }

  // ---------------------------------------------------------------- the service methods

  /** UpdateStock then CreateMovement on the transaction, for one ledger entry. */
  method RecordMovement(db: Store, tx: Store, m: Movement, now: Time) returns (r: Result<(), RepoError>)
    requires db != tx
    modifies tx
    ensures var a := Record(old(db.State()), old(tx.State()), m, now);
      (r.Ok? <==> a.Ok?) && (a.Ok? ==> tx.State() == a.value) && (a.Err? ==> r == Err(a.error))
  {
    var s := UpdateStock(db, tx, m.pricelistItemId, m.quantityChanged, now);
    if s.Err? {
      return Err(s.error);
    }
    var c := CreateMovement(tx, m, now);
    if c.Err? {
      // UpdateStock has just found the item, so its foreign key holds
      assert false;
    }
    r := Ok(());
  }

  /** GetOrderByID: the order, then its items, from the committed database. */
  method GetOrderByID(db: Store, orderId: int) returns (r: Result<OrderDetails, OrderError>)
    ensures r == OrderDetailsOf(db.State(), orderId)
  {
    var o := OrderRepository.OrderById(db.State(), orderId);
    if o.Err? {
      return Err(ServiceError(o.error));
    }
    var items := OrderRepository.GetOrderItemsByOrderID(db, orderId);
    r := Ok(OrderDetails(o.value, items));
  }

  /** The line loop of CreateOrder on the transaction: the total and the items to insert. */
  method ProcessOrderLines(db: Store, tx: Store, lines: seq<LineRequest>, staffId: int, now: Time)
    returns (r: Result<(int, seq<OrderItem>), OrderError>)
    requires db != tx
    modifies tx
    ensures match ProcessLines(old(db.State()), old(tx.State()), lines, staffId, now)
      case Ok(p) => tx.State() == p.tx && r == Ok((p.total, p.pending))
      case Err(e) => r == Err(e)
  {
    ghost var d := db.State();
    ghost var t0 := tx.State();
    var totalAmount := 0;
    var pending: seq<OrderItem> := [];
    for i := 0 to |lines|
      invariant db.State() == d
      invariant ProcessLines(d, t0, lines[..i], staffId, now) == Ok(Progress(tx.State(), totalAmount, pending))
    {
      var line := lines[i];
      assert lines[..i + 1][..i] == lines[..i];
      if line.quantity <= 0 {
        ProcessLinesErrorSticks(d, t0, lines, i + 1, staffId, now);
        return Err(Validation(line.pricelistItemId));
      }
      var info := ItemPriceAndStock(db.State(), line.pricelistItemId);
      if info.Err? {
        ProcessLinesErrorSticks(d, t0, lines, i + 1, staffId, now);
        return Err(LookupError(line.pricelistItemId, info.error));
      }
      var itemTotalPrice := info.value.price * line.quantity;
      totalAmount := totalAmount + itemTotalPrice;
      if info.value.tracksStock {
        if info.value.currentStock.None? || info.value.currentStock.value < line.quantity {
          ProcessLinesErrorSticks(d, t0, lines, i + 1, staffId, now);
          return Err(InsufficientStock(info.value.name, line.pricelistItemId, line.quantity, info.value.currentStock.GetOr(0)));
        }
        var rec := RecordMovement(db, tx, SaleMovement(line.pricelistItemId, staffId, line.quantity, now), now);
        if rec.Err? {
          ProcessLinesErrorSticks(d, t0, lines, i + 1, staffId, now);
          return Err(Repository(rec.error));
        }
      }
      pending := pending + [PendingItem(line, info.value.price)];
    }
    assert lines[..|lines|] == lines;
    r := Ok((totalAmount, pending));
  }

  /** The CreateOrderItem loop on the transaction. */
  method InsertOrderItems(tx: Store, pending: seq<OrderItem>, orderId: int, now: Time) returns (r: Result<(), RepoError>)
    modifies tx
    ensures var a := InsertItems(old(tx.State()), pending, orderId, now);
      (r.Ok? <==> a.Ok?) && (a.Ok? ==> tx.State() == a.value) && (a.Err? ==> r == Err(a.error))
  {
    ghost var t0 := tx.State();
    for k := 0 to |pending|
      invariant InsertItems(t0, pending[..k], orderId, now) == Ok(tx.State())
    {
      assert pending[..k + 1][..k] == pending[..k];
      var ir := OrderRepository.CreateOrderItem(tx, pending[k].(orderId := orderId), now);
      if ir.Err? {
        InsertItemsErrorSticks(t0, pending, k + 1, orderId, now);
        return Err(ir.error);
      }
    }
    assert pending[..|pending|] == pending;
    r := Ok(());
  }

  /** CreateOrder: the line loop, the status check, the header, the items, the commit, the read-back. */
  method CreateOrder(db: Store, req: CreateOrderRequest, now: Time) returns (r: Result<OrderDetails, OrderError>)
    modifies db
    ensures match CreateOrderSpec(old(db.State()), req, now)
      case Ok(a) => db.State() == a.tables && r == OrderDetailsOf(a.tables, a.value)
      case Err(e) => db.State() == old(db.State()) && r == Err(e)
  {
    var tx := new Store.Begin(db);
    var lines := ProcessOrderLines(db, tx, req.lines, req.staffId, now);
    if lines.Err? {
      return Err(lines.error);
    }
    var (totalAmount, pending) := lines.value;
    var finalAmount := totalAmount;
    if req.discountAmount.Some? {
      finalAmount := totalAmount - req.discountAmount.value;
      if finalAmount < 0 {
        finalAmount := 0;
      }
    }
    if !IsValidOrderStatus(req.status) {
      return Err(InvalidOrderStatus(req.status));
    }
    var order := Order(0, req.clientId, req.bookingId, Some(req.staffId), req.tableId, now, req.status, totalAmount,
                       req.discountAmount, finalAmount, req.paymentMethod, req.notes, now, now);
    assert order == OrderHeader(req, totalAmount, now);
    var created := OrderRepository.CreateOrder(tx, order, now);
    var inserted := InsertOrderItems(tx, pending, created.id, now);
    if inserted.Err? {
      return Err(Repository(inserted.error));
    }
    Commit(tx, db);
    r := GetOrderByID(db, created.id);
  }

  /** The stock-return loop of UpdateOrderStatus and DeleteOrder, on the transaction. */
  method ReturnItems(db: Store, tx: Store, items: seq<OrderItem>, staffId: Option<int>, kind: string, reason: string, now: Time)
    returns (r: Result<(), OrderError>)
    requires db != tx
    modifies tx
    ensures var a := ReturnStock(old(db.State()), old(tx.State()), items, staffId, kind, reason, now);
      (r.Ok? <==> a.Ok?) && (a.Ok? ==> tx.State() == a.value) && (a.Err? ==> r == Err(a.error))
  {
    ghost var d := db.State();
    ghost var t0 := tx.State();
    for i := 0 to |items|
      invariant db.State() == d
      invariant ReturnStock(d, t0, items[..i], staffId, kind, reason, now) == Ok(tx.State())
    {
      assert items[..i + 1][..i] == items[..i];
      var item := items[i];
      var info := ItemPriceAndStock(db.State(), item.pricelistItemId);
      if info.Err? {
        ReturnStockErrorSticks(d, t0, items, i + 1, staffId, kind, reason, now);
        return Err(Repository(info.error));
      }
      if info.value.tracksStock {
        var rec := RecordMovement(db, tx, ReturnMovement(item, staffId, kind, reason, now), now);
        if rec.Err? {
          ReturnStockErrorSticks(d, t0, items, i + 1, staffId, kind, reason, now);
          return Err(Repository(rec.error));
        }
      }
    }
    assert items[..|items|] == items;
    r := Ok(());
  }

  /** UpdateOrderStatus: validate, read the current order, return the stock on a cancel, update, commit, read back. */
  method UpdateOrderStatus(db: Store, orderId: int, status: string, now: Time) returns (r: Result<OrderDetails, OrderError>)
    modifies db
    ensures match UpdateOrderStatusSpec(old(db.State()), orderId, status, now)
      case Ok(t) => db.State() == t && r == OrderDetailsOf(t, orderId)
      case Err(e) => db.State() == old(db.State()) && r == Err(e)
  {
    if !IsValidOrderStatus(status) {
      return Err(InvalidOrderStatus(status));
    }
    var tx := new Store.Begin(db);
    var current := OrderRepository.OrderById(db.State(), orderId);
    if current.Err? {
      return Err(ServiceError(current.error));
    }
    if status == StatusCancelled && current.value.status != StatusCancelled && current.value.status != StatusRefunded {
      var items := OrderRepository.GetOrderItemsByOrderID(db, orderId);
      var ret := ReturnItems(db, tx, items, current.value.staffId, MovementTypeReturnCancellation, OrderReason(orderId, "cancelled"), now);
      if ret.Err? {
        return Err(ret.error);
      }
    }
    var up := OrderRepository.UpdateOrderStatus(tx, orderId, status, now);
    if up.Err? {
      return Err(ServiceError(up.error));
    }
    Commit(tx, db);
    r := GetOrderByID(db, orderId);
  }

  /** DeleteOrder: read the order, return the stock unless already returned, delete the items and the order, commit. */
  method DeleteOrder(db: Store, orderId: int, now: Time) returns (r: Result<(), OrderError>)
    modifies db
    ensures match DeleteOrderSpec(old(db.State()), orderId, now)
      case Ok(t) => db.State() == t && r.Ok?
      case Err(e) => db.State() == old(db.State()) && r == Err(e)
  {
    var tx := new Store.Begin(db);
    var order := OrderRepository.OrderById(db.State(), orderId);
    if order.Err? {
      return Err(ServiceError(order.error));
    }
    if order.value.status != StatusCancelled && order.value.status != StatusRefunded {
      var items := OrderRepository.GetOrderItemsByOrderID(db, orderId);
      var ret := ReturnItems(db, tx, items, order.value.staffId, MovementTypeReturnDeletion, OrderReason(orderId, "deleted"), now);
      if ret.Err? {
        return Err(ret.error);
      }
    }
    var count := OrderRepository.DeleteOrderItemsByOrderID(tx, orderId);
    var del := OrderRepository.DeleteOrder(tx, orderId);
    if del.Err? {
      return Err(ServiceError(del.error));
    }
    Commit(tx, db);
    r := Ok(());
  }
}
