/**
 * The relational store the repositories run their statements against:
 * one row type per table, a `Tables` value holding the contents of every
 * table together with the id sequences, and the class `Store` whose
 * fields are those tables. A `Store` is either the committed database
 * (Go's *sql.DB) or a transaction working on a private copy of it
 * (Go's *sql.Tx): `Begin` copies, `Commit` publishes, and dropping the
 * copy is the rollback.
 */
module Store {
  import opened Wrappers

  /** Instants are nanoseconds since 1970-01-01T00:00:00Z. */
  type Time = int

  const Nanosecond: int := 1
  const Second: int := 1_000_000_000
  const Minute: int := 60 * Second
  const Hour: int := 60 * Minute
  const Day: int := 24 * Hour

  /** Go's zero time.Time (0001-01-01T00:00:00Z), the value `IsZero` tests for. */
  const ZeroTime: Time := -62135596800 * Second

  /** The errors of internal/repositories/errors.go. */
  datatype RepoError = NotFound | DatabaseError(reason: string) | DuplicateKey

  /** The phrase in the text of a PostgreSQL foreign-key violation. */
  const ForeignKeyPhrase: string := "violates foreign key constraint"

  /**
   * The reason scanStaffMemberRow gives when a staff member's row does not
   * scan: a member without a user account leaves the LEFT JOIN's user
   * columns NULL, which the user's non-nullable id and username refuse.
   * The driver's own message that follows it is not modelled.
   */
  const StaffScanFault: string := "scanning staff member with user details"

  datatype Category = Category(id: int, name: string, description: Option<string>, createdAt: Time, updatedAt: Time)

  /** A row of pricelist_items; `price` is in cents. */
  datatype Item = Item(
    id: int, categoryId: int, name: string, description: Option<string>, price: int,
    sku: Option<string>, isAvailable: bool, itemType: string, tracksStock: bool,
    currentStock: Option<int>, lowStockThreshold: Option<int>, createdAt: Time, updatedAt: Time)

  /** A row of inventory_movements; `quantityChanged` is signed. */
  datatype Movement = Movement(
    id: int, pricelistItemId: int, staffId: Option<int>, movementType: string,
    quantityChanged: int, reason: Option<string>, movementDate: Time, createdAt: Time, updatedAt: Time)

  /** A row of orders; the amounts are in cents. */
  datatype Order = Order(
    id: int, clientId: Option<int>, bookingId: Option<int>, staffId: Option<int>, tableId: Option<int>,
    orderTime: Time, status: string, totalAmount: int, discountAmount: Option<int>, finalAmount: int,
    paymentMethod: Option<string>, notes: Option<string>, createdAt: Time, updatedAt: Time)

  /** A row of order_items; the prices are in cents. */
  datatype OrderItem = OrderItem(
    id: int, orderId: int, pricelistItemId: int, quantity: int, unitPrice: int, totalPrice: int,
    notes: Option<string>, createdAt: Time, updatedAt: Time)

  /**
   * The contents of the tables. Keyed tables are maps by id; the tables
   * that are listed are sequences in insertion (id) order. The `next*`
   * fields are the serial sequences handing out ids.
   */
  datatype Tables = Tables(
    categories: map<int, Category>, items: map<int, Item>, movements: seq<Movement>,
    orders: seq<Order>, orderItems: seq<OrderItem>,
    nextCategoryId: int, nextItemId: int, nextMovementId: int, nextOrderId: int, nextOrderItemId: int)

  /** The tables after a statement, with what the statement returned. */
  datatype Applied<T> = Applied(tables: Tables, value: T)

  /** The id column of a table held as a sequence of rows, in row order. */
  function Ids<T>(rows: seq<T>, id: T -> int): (ids: seq<int>)
    ensures |ids| == |rows| && forall i :: 0 <= i < |rows| ==> ids[i] == id(rows[i])
  {
    seq(|rows|, i requires 0 <= i < |rows| => id(rows[i]))
  }

  /** The id columns of the orders, order items and movements tables. */
  function OrderIds(s: seq<Order>): seq<int> {
    Ids(s, (o: Order) => o.id)
  }

  function OrderItemIds(s: seq<OrderItem>): seq<int> {
    Ids(s, (oi: OrderItem) => oi.id)
  }

  function MovementIds(s: seq<Movement>): seq<int> {
    Ids(s, (m: Movement) => m.id)
  }

  /** Ids handed out by a serial sequence: positive, strictly increasing, below the next value. */
  ghost predicate Serial(ids: seq<int>, next: int) {
    && (forall i, j :: 0 <= i < j < |ids| ==> ids[i] < ids[j])
    && (forall i :: 0 <= i < |ids| ==> 0 < ids[i] < next)
  }

  /** What the schema and the serial sequences guarantee about the tables. */
  ghost predicate Wf(t: Tables) {
    && (forall id :: id in t.categories ==> t.categories[id].id == id && 0 < id < t.nextCategoryId)
    && (forall id :: id in t.items ==> t.items[id].id == id && 0 < id < t.nextItemId)
    && Serial(MovementIds(t.movements), t.nextMovementId)
    && Serial(OrderIds(t.orders), t.nextOrderId)
    && Serial(OrderItemIds(t.orderItems), t.nextOrderItemId)
    && (forall i :: 0 <= i < |t.orderItems| ==> t.orderItems[i].orderId < t.nextOrderId)
  }

  /** The stock level SQL computes with COALESCE(current_stock, 0). */
  function StockLevel(item: Item): int {
    item.currentStock.GetOr(0)
  }

  /** The database, or a transaction's private copy of it. */
  class Store {
    var categories: map<int, Category>
    var items: map<int, Item>
    var movements: seq<Movement>
    var orders: seq<Order>
    var orderItems: seq<OrderItem>
    var nextCategoryId: int
    var nextItemId: int
    var nextMovementId: int
    var nextOrderId: int
    var nextOrderItemId: int

    /** The contents of every table. */
    function State(): Tables
      reads this
    {
      Tables(categories, items, movements, orders, orderItems,
             nextCategoryId, nextItemId, nextMovementId, nextOrderId, nextOrderItemId)
    }

    /** Replaces every table by the given contents. */
    method Load(t: Tables)
      modifies this
      ensures State() == t
    {
      categories, items, movements, orders, orderItems := t.categories, t.items, t.movements, t.orders, t.orderItems;
      nextCategoryId, nextItemId, nextMovementId := t.nextCategoryId, t.nextItemId, t.nextMovementId;
      nextOrderId, nextOrderItemId := t.nextOrderId, t.nextOrderItemId;
    }

    /** db.Begin(): a transaction starts from a private copy of the committed tables. */
    constructor Begin(db: Store)
      ensures State() == db.State()
    {
      categories, items, movements, orders, orderItems := db.categories, db.items, db.movements, db.orders, db.orderItems;
      nextCategoryId, nextItemId, nextMovementId := db.nextCategoryId, db.nextItemId, db.nextMovementId;
      nextOrderId, nextOrderItemId := db.nextOrderId, db.nextOrderItemId;
    }
  }

  /** tx.Commit(): the transaction's tables become the committed ones. */
  method Commit(tx: Store, db: Store)
    modifies db
    ensures db.State() == old(tx.State())
  {
    db.Load(tx.State());
  }
}
