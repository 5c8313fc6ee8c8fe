/**
 * The statements of internal/repositories/pricelist_repository.go that
 * change or read categories and items: each statement once as a function
 * on the tables (what the statement does) and once as a method executing
 * it on a `Store` (the database or a transaction).
 */
module PricelistRepository {
  import opened Wrappers
  import opened Store

  /** The columns `GetItemPriceAndStock` selects. */
  datatype PriceAndStock = PriceAndStock(price: int, currentStock: Option<int>, name: string, tracksStock: bool)

  /**
   * The NULL normalisation of CreateItem/UpdateItem for current_stock and
   * low_stock_threshold: the value is stored only for an item that tracks
   * stock; otherwise, or when absent, the column is NULL.
   */
  function StoredIfTracking(tracksStock: bool, value: Option<int>): (r: Option<int>)
    ensures r.Some? <==> tracksStock && value.Some?
    ensures r.Some? ==> r == value
  {
    if tracksStock then value else None
  }

  /** The item as CreateItem/UpdateItem write it. */
  function AsStored(item: Item): (r: Item)
    ensures item.tracksStock ==> r == item
    ensures !item.tracksStock ==> r.currentStock.None? && r.lowStockThreshold.None?
    ensures r.(currentStock := item.currentStock, lowStockThreshold := item.lowStockThreshold) == item
  {
    item.(currentStock := StoredIfTracking(item.tracksStock, item.currentStock),
          lowStockThreshold := StoredIfTracking(item.tracksStock, item.lowStockThreshold))
  }

  /** The reasons the repository words its refusals with; the service tells them apart by their text. */
  const CategoryInUseMessage: string := "category cannot be deleted as it " + "is currently in use by" + " pricelist items"
  const CategoryForeignKeyMessage: string := "invalid category_id (constraint: " + "pricelist_items_category_id_fkey" + ")"
  const ItemReferencedMessage: string := "item cannot be deleted as it " + "is referenced by other records" + ""

  /** A row of pricelist_items with the category row its inner join brings along. */
  datatype ItemView = ItemView(item: Item, category: Category)

  /** Some category other than `self` already has the name (the unique name constraint). */
  predicate NameTaken(t: Tables, name: string, self: int) {
    exists id :: id in t.categories && id != self && t.categories[id].name == name
  }

  /**
   * Two items clash on a unique key of pricelist_items: the same name, or
   * the same SKU when both carry one (NULL SKUs never clash).
   */
  predicate SameItemKey(a: Item, b: Item) {
    a.name == b.name || (a.sku.Some? && a.sku == b.sku)
  }

  /** Some item other than `self` already holds a key of `item` (the unique constraints on items). */
  predicate ItemKeyTaken(t: Tables, item: Item, self: int) {
    exists id :: id in t.items && id != self && SameItemKey(t.items[id], item)
  }

  /** Some item still belongs to the category. */
  predicate CategoryInUse(t: Tables, categoryId: int) {
    exists id :: id in t.items && t.items[id].categoryId == categoryId
  }

  /** Some order item or movement refers to the item (the foreign keys onto pricelist_items). */
  predicate ItemReferenced(t: Tables, itemId: int) {
    (exists i :: 0 <= i < |t.orderItems| && t.orderItems[i].pricelistItemId == itemId)
    || (exists i :: 0 <= i < |t.movements| && t.movements[i].pricelistItemId == itemId)
  }

  // ---------------------------------------------------------------- categories

  /** INSERT INTO pricelist_categories ... RETURNING id. */
  function CategoryInserted(t: Tables, c: Category, now: Time): (r: Result<Applied<int>, RepoError>)
    ensures r.Err? <==> NameTaken(t, c.name, t.nextCategoryId)
    ensures r.Err? ==> r.error == DuplicateKey
    ensures r.Ok? ==> (r.value.value == t.nextCategoryId
      && r.value.tables == t.(categories := t.categories[t.nextCategoryId := c.(id := t.nextCategoryId, createdAt := now, updatedAt := now)],
                              nextCategoryId := t.nextCategoryId + 1))
  {
    if NameTaken(t, c.name, t.nextCategoryId) then Err(DuplicateKey)
    else
      var id := t.nextCategoryId;
      Ok(Applied(t.(categories := t.categories[id := c.(id := id, createdAt := now, updatedAt := now)], nextCategoryId := id + 1), id))
  }

  /** UPDATE pricelist_categories SET name, description, updated_at WHERE id. */
  function CategoryUpdated(t: Tables, c: Category, now: Time): (r: Result<Tables, RepoError>)
    ensures r == Err(NotFound) <==> c.id !in t.categories
    ensures r == Err(DuplicateKey) <==> c.id in t.categories && NameTaken(t, c.name, c.id)
    ensures r.Ok? ==> (c.id in t.categories
      && r.value == t.(categories := t.categories[c.id := t.categories[c.id].(name := c.name, description := c.description, updatedAt := now)]))
  {
    if c.id !in t.categories then Err(NotFound)
    else if NameTaken(t, c.name, c.id) then Err(DuplicateKey)
    else Ok(t.(categories := t.categories[c.id := t.categories[c.id].(name := c.name, description := c.description, updatedAt := now)]))
  }

  /** DeleteCategory: refused while an item uses the category, NotFound when no row goes. */
  function CategoryDeleted(t: Tables, id: int): (r: Result<Tables, RepoError>)
    ensures CategoryInUse(t, id) ==> r == Err(DatabaseError(CategoryInUseMessage))
    ensures r == Err(NotFound) <==> !CategoryInUse(t, id) && id !in t.categories
    ensures r.Ok? <==> !CategoryInUse(t, id) && id in t.categories
    ensures r.Ok? ==> r.value == t.(categories := t.categories - {id})
  {
    if CategoryInUse(t, id) then Err(DatabaseError(CategoryInUseMessage))
    else if id !in t.categories then Err(NotFound)
    else Ok(t.(categories := t.categories - {id}))
  }

  // ---------------------------------------------------------------- items

  /**
   * INSERT INTO pricelist_items ... RETURNING id, with the NULL
   * normalisation. A unique violation is ErrDuplicateKey; PostgreSQL checks
   * unique indexes as the row goes in, before the deferred foreign-key check.
   */
  function ItemInserted(t: Tables, item: Item, now: Time): (r: Result<Applied<int>, RepoError>)
    ensures r == Err(DuplicateKey) <==> ItemKeyTaken(t, item, t.nextItemId)
    ensures r == Err(DatabaseError(CategoryForeignKeyMessage)) <==>
      !ItemKeyTaken(t, item, t.nextItemId) && item.categoryId !in t.categories
    ensures r.Ok? <==> !ItemKeyTaken(t, item, t.nextItemId) && item.categoryId in t.categories
    ensures r.Ok? ==> (r.value.value == t.nextItemId
      && r.value.tables == t.(items := t.items[t.nextItemId := AsStored(item).(id := t.nextItemId, createdAt := now, updatedAt := now)],
                              nextItemId := t.nextItemId + 1))
  {
    if ItemKeyTaken(t, item, t.nextItemId) then Err(DuplicateKey)
    else if item.categoryId !in t.categories then Err(DatabaseError(CategoryForeignKeyMessage))
    else
      var id := t.nextItemId;
      Ok(Applied(t.(items := t.items[id := AsStored(item).(id := id, createdAt := now, updatedAt := now)], nextItemId := id + 1), id))
  }

  /**
   * UPDATE pricelist_items SET every column but id and created_at, with
   * the NULL normalisation: no row is NotFound, a key held by another item
   * is ErrDuplicateKey, an unknown category the foreign-key error.
   */
  function ItemUpdated(t: Tables, item: Item, now: Time): (r: Result<Tables, RepoError>)
    ensures r == Err(NotFound) <==> item.id !in t.items
    ensures r == Err(DuplicateKey) <==> item.id in t.items && ItemKeyTaken(t, item, item.id)
    ensures r.Ok? <==> item.id in t.items && !ItemKeyTaken(t, item, item.id) && item.categoryId in t.categories
    ensures r.Err? && r != Err(NotFound) && r != Err(DuplicateKey) ==> r.error == DatabaseError(CategoryForeignKeyMessage)
    ensures r.Ok? ==> r.value == t.(items := t.items[item.id := AsStored(item).(createdAt := t.items[item.id].createdAt, updatedAt := now)])
  {
    if item.id !in t.items then Err(NotFound)
    else if ItemKeyTaken(t, item, item.id) then Err(DuplicateKey)
    else if item.categoryId !in t.categories then Err(DatabaseError(CategoryForeignKeyMessage))
    else Ok(t.(items := t.items[item.id := AsStored(item).(createdAt := t.items[item.id].createdAt, updatedAt := now)]))
  }

  /** DELETE FROM pricelist_items WHERE id, refused while order items or movements refer to it. */
  function ItemDeleted(t: Tables, id: int): (r: Result<Tables, RepoError>)
    ensures r == Err(NotFound) <==> id !in t.items
    ensures r.Ok? <==> id in t.items && !ItemReferenced(t, id)
    ensures id in t.items && ItemReferenced(t, id) ==> r == Err(DatabaseError(ItemReferencedMessage))
    ensures r.Ok? ==> r.value == t.(items := t.items - {id})
  {
    if id !in t.items then Err(NotFound)
    else if ItemReferenced(t, id) then Err(DatabaseError(ItemReferencedMessage))
    else Ok(t.(items := t.items - {id}))
  }

  /**
   * UpdateStock: `current_stock = COALESCE(current_stock, 0) + change` on
   * the row only if it tracks stock, returning the new level. The
   * follow-up lookup that tells the two failures apart reads the
   * committed tables.
   */
  function StockUpdated(committed: Tables, t: Tables, itemId: int, change: int, now: Time): (r: Result<Applied<int>, RepoError>)
    ensures r.Ok? <==> itemId in t.items && t.items[itemId].tracksStock
    ensures r.Ok? ==> (r.value.value == StockLevel(t.items[itemId]) + change
      && r.value.tables == t.(items := t.items[itemId := t.items[itemId].(currentStock := Some(r.value.value), updatedAt := now)]))
    ensures r.Err? ==> (r.error == NotFound <==> itemId !in committed.items)
  {
    if itemId in t.items && t.items[itemId].tracksStock then
      var level := StockLevel(t.items[itemId]) + change;
      Ok(Applied(t.(items := t.items[itemId := t.items[itemId].(currentStock := Some(level), updatedAt := now)]), level))
    else if itemId !in committed.items then Err(NotFound)
    else if !committed.items[itemId].tracksStock then Err(DatabaseError("item does not track stock"))
    else Err(DatabaseError("stock not updated"))
  }

  /** UpdateStock puts no lower bound on the level: any change to a tracked item is applied, even below zero. */
  lemma StockUpdateUnbounded(committed: Tables, t: Tables, itemId: int, change: int, now: Time)
    requires itemId in t.items && t.items[itemId].tracksStock
    requires StockLevel(t.items[itemId]) + change < 0
    ensures StockUpdated(committed, t, itemId, change, now).Ok?
    ensures var a := StockUpdated(committed, t, itemId, change, now).value;
      a.value < 0 && a.tables.items[itemId].currentStock == Some(a.value)
  {
  }

  /** Two successive updates of one item add up, as the movement log does. */
  lemma StockUpdatesCompose(committed: Tables, t: Tables, itemId: int, c1: int, c2: int, now: Time)
    requires itemId in t.items && t.items[itemId].tracksStock
    ensures var a1 := StockUpdated(committed, t, itemId, c1, now);
      a1.Ok? && var a2 := StockUpdated(committed, a1.value.tables, itemId, c2, now);
      a2.Ok? && a2.value.value == StockLevel(t.items[itemId]) + c1 + c2
  {
  }

  /** GetItemPriceAndStock: a read of the committed row; NotFound for an unknown id. */
  function ItemPriceAndStock(t: Tables, itemId: int): (r: Result<PriceAndStock, RepoError>)
    ensures r.Err? <==> itemId !in t.items
    ensures r.Err? ==> r.error == NotFound
    ensures r.Ok? ==> var item := t.items[itemId];
      r.value == PriceAndStock(item.price, item.currentStock, item.name, item.tracksStock)
  {
    if itemId !in t.items then Err(NotFound)
    else
      var item := t.items[itemId];
      Ok(PriceAndStock(item.price, item.currentStock, item.name, item.tracksStock))
  }

  /** GetCategoryByID: the row with that id, or NotFound. */
  function CategoryById(t: Tables, id: int): (r: Result<Category, RepoError>)
    ensures r.Err? <==> id !in t.categories
    ensures r.Err? ==> r.error == NotFound
    ensures r.Ok? ==> r.value == t.categories[id]
  {
    if id in t.categories then Ok(t.categories[id]) else Err(NotFound)
  }

  /**
   * GetItemByID: the item joined with its category; NotFound when there is
   * no such item, or its category row is missing (the inner join drops it).
   */
  function ItemById(t: Tables, id: int): (r: Result<ItemView, RepoError>)
    ensures r.Err? <==> id !in t.items || t.items[id].categoryId !in t.categories
    ensures r.Err? ==> r.error == NotFound
    ensures r.Ok? ==> r.value.item == t.items[id] && r.value.category == t.categories[t.items[id].categoryId]
  {
    if id in t.items && t.items[id].categoryId in t.categories then
      Ok(ItemView(t.items[id], t.categories[t.items[id].categoryId]))
    else Err(NotFound)
  }

  // ---------------------------------------------------------------- executing on a store

  /** GetCategoryByID reads the committed tables and changes nothing. */
  method GetCategoryByID(db: Store, id: int) returns (r: Result<Category, RepoError>)
    ensures r == CategoryById(db.State(), id)
  {
    if id !in db.categories {
      return Err(NotFound);
    }
    r := Ok(db.categories[id]);
  }

  /** GetItemByID reads the committed tables and changes nothing. */
  method GetItemByID(db: Store, id: int) returns (r: Result<ItemView, RepoError>)
    ensures r == ItemById(db.State(), id)
  {
    if id !in db.items || db.items[id].categoryId !in db.categories {
      return Err(NotFound);
    }
    var item := db.items[id];
    r := Ok(ItemView(item, db.categories[item.categoryId]));
  }

  /** CreateCategory on an executor; the new id is also written into the returned row. */
  method CreateCategory(ex: Store, c: Category, now: Time) returns (r: Result<Category, RepoError>)
    modifies ex
    ensures var a := CategoryInserted(old(ex.State()), c, now);
      if a.Ok? then ex.State() == a.value.tables && r == Ok(c.(id := a.value.value))
      else ex.State() == old(ex.State()) && r == Err(a.error)
  {
    if exists id :: id in ex.categories && id != ex.nextCategoryId && ex.categories[id].name == c.name {
      return Err(DuplicateKey);
    }
    var id := ex.nextCategoryId;
    ex.categories := ex.categories[id := c.(id := id, createdAt := now, updatedAt := now)];
    ex.nextCategoryId := id + 1;
    r := Ok(c.(id := id));
  }

  method UpdateCategory(ex: Store, c: Category, now: Time) returns (r: Result<(), RepoError>)
    modifies ex
    ensures var a := CategoryUpdated(old(ex.State()), c, now);
      if a.Ok? then ex.State() == a.value && r.Ok?
      else ex.State() == old(ex.State()) && r == Err(a.error)
  {
    if c.id !in ex.categories {
      return Err(NotFound);
    }
    if exists id :: id in ex.categories && id != c.id && ex.categories[id].name == c.name {
      return Err(DuplicateKey);
    }
    ex.categories := ex.categories[c.id := ex.categories[c.id].(name := c.name, description := c.description, updatedAt := now)];
    r := Ok(());
  }

  method DeleteCategory(ex: Store, id: int) returns (r: Result<(), RepoError>)
    modifies ex
    ensures var a := CategoryDeleted(old(ex.State()), id);
      if a.Ok? then ex.State() == a.value && r.Ok?
      else ex.State() == old(ex.State()) && r == Err(a.error)
  {
    if exists i :: i in ex.items && ex.items[i].categoryId == id {
      return Err(DatabaseError(CategoryInUseMessage));
    }
    if id !in ex.categories {
      return Err(NotFound);
    }
    ex.categories := ex.categories - {id};
    r := Ok(());
  }

  /** CreateItem on an executor; the new id is also written into the returned item. */
  method CreateItem(ex: Store, item: Item, now: Time) returns (r: Result<Item, RepoError>)
    modifies ex
    ensures var a := ItemInserted(old(ex.State()), item, now);
      if a.Ok? then ex.State() == a.value.tables && r == Ok(item.(id := a.value.value))
      else ex.State() == old(ex.State()) && r == Err(a.error)
  {
    var currentStock := if item.tracksStock && item.currentStock.Some? then item.currentStock else None;
    var threshold := if item.tracksStock && item.lowStockThreshold.Some? then item.lowStockThreshold else None;
    if exists id :: id in ex.items && id != ex.nextItemId && SameItemKey(ex.items[id], item) {
      return Err(DuplicateKey);
    }
    if item.categoryId !in ex.categories {
      return Err(DatabaseError(CategoryForeignKeyMessage));
    }
    var id := ex.nextItemId;
    ex.items := ex.items[id := item.(id := id, currentStock := currentStock, lowStockThreshold := threshold, createdAt := now, updatedAt := now)];
    ex.nextItemId := id + 1;
    r := Ok(item.(id := id));
  }

  method UpdateItem(ex: Store, item: Item, now: Time) returns (r: Result<(), RepoError>)
    modifies ex
    ensures var a := ItemUpdated(old(ex.State()), item, now);
      if a.Ok? then ex.State() == a.value && r.Ok?
      else ex.State() == old(ex.State()) && r == Err(a.error)
  {
    var currentStock := if item.tracksStock && item.currentStock.Some? then item.currentStock else None;
    var threshold := if item.tracksStock && item.lowStockThreshold.Some? then item.lowStockThreshold else None;
    if item.id !in ex.items {
      return Err(NotFound);
    }
    if exists id :: id in ex.items && id != item.id && SameItemKey(ex.items[id], item) {
      return Err(DuplicateKey);
    }
    if item.categoryId !in ex.categories {
      return Err(DatabaseError(CategoryForeignKeyMessage));
    }
    var createdAt := ex.items[item.id].createdAt;
    ex.items := ex.items[item.id := item.(currentStock := currentStock, lowStockThreshold := threshold, createdAt := createdAt, updatedAt := now)];
    r := Ok(());
  }

  method DeleteItem(ex: Store, id: int) returns (r: Result<(), RepoError>)
    modifies ex
    ensures var a := ItemDeleted(old(ex.State()), id);
      if a.Ok? then ex.State() == a.value && r.Ok?
      else ex.State() == old(ex.State()) && r == Err(a.error)
  {
    if id !in ex.items {
      return Err(NotFound);
    }
    if (exists i :: 0 <= i < |ex.orderItems| && ex.orderItems[i].pricelistItemId == id)
       || (exists i :: 0 <= i < |ex.movements| && ex.movements[i].pricelistItemId == id) {
      return Err(DatabaseError(ItemReferencedMessage));
    }
    ex.items := ex.items - {id};
    r := Ok(());
  }

  /** UpdateStock on an executor `ex`; the lookup after a miss goes to the database `db`. */
  method UpdateStock(db: Store, ex: Store, itemId: int, change: int, now: Time) returns (r: Result<int, RepoError>)
    modifies ex
    ensures var a := StockUpdated(old(db.State()), old(ex.State()), itemId, change, now);
      if a.Ok? then ex.State() == a.value.tables && r == Ok(a.value.value)
      else ex.State() == old(ex.State()) && r == Err(a.error)
  {
    if itemId in ex.items && ex.items[itemId].tracksStock {
      var newStock := ex.items[itemId].currentStock.GetOr(0) + change;
      ex.items := ex.items[itemId := ex.items[itemId].(currentStock := Some(newStock), updatedAt := now)];
      return Ok(newStock);
    }
    if itemId !in db.items {
      return Err(NotFound);
    }
    if !db.items[itemId].tracksStock {
      return Err(DatabaseError("item does not track stock"));
    }
    r := Err(DatabaseError("stock not updated"));
  }
}
