/**
 * What the pricelist service promises about the rows it writes: which
 * requests it refuses, what a created or updated row holds, that
 * unsupplied fields stay as they were, and that the stock fields keep
 * their shape (a tracked item has a stock level, an untracked one has
 * neither stock nor threshold).
 */
module PricelistRules {
  import opened Wrappers
  import opened Store
  import opened PricelistRepository
  import opened PricelistService

  /** The stock fields' shape: a tracked item has a stock level; an untracked one has neither stock nor threshold. */
  predicate Shaped(item: Item) {
    && (item.tracksStock ==> item.currentStock.Some?)
    && (!item.tracksStock ==> item.currentStock.None? && item.lowStockThreshold.None?)
  }

  ghost predicate StockShaped(t: Tables) {
    forall id :: id in t.items ==> Shaped(t.items[id])
  }

  // ---------------------------------------------------------------- CreateItem

  /**
   * The requests CreateItem accepts, stated without its normalisation: a
   * name that is not blank and, for a tracked item only, a stock and a
   * threshold that are not negative (an untracked item's are dropped).
   */
  predicate NewItemValid(req: CreateItemRequest) {
    && !Blank(req.name)
    && (req.tracksStock ==> req.currentStock.GetOr(0) >= 0 && req.lowStockThreshold.GetOr(0) >= 0)
  }

  /** The row CreateItem stores for an accepted request. */
  function CreatedRow(req: CreateItemRequest, id: int, now: Time): Item {
    Item(id, req.categoryId, req.name, req.description, req.price, req.sku, req.isAvailable, req.itemType,
         req.tracksStock,
         if req.tracksStock then Some(req.currentStock.GetOr(0)) else None,
         if req.tracksStock then req.lowStockThreshold else None,
         now, now)
  }

  /** The new item's name or SKU is already held by a stored item (the next id is not yet in use). */
  predicate NewKeyTaken(t: Tables, req: CreateItemRequest) {
    exists id :: id in t.items && id != t.nextItemId && SameItemKey(t.items[id], CreatedRow(req, t.nextItemId, 0))
  }

  /**
   * CreateItem refuses exactly the invalid requests with ErrValidation,
   * then an unknown category with ErrCategoryNotFound, then a name or SKU
   * another item holds with ErrItemNameConflict, and otherwise stores the
   * row under the next id, with a tracked item's missing stock set to 0
   * and an untracked item's stock and threshold cleared.
   */
  lemma CreateItemOutcome(t: Tables, req: CreateItemRequest, now: Time)
    ensures var r := CreateItemSpec(t, req, now);
      && (r.Err? && r.error.Validation? <==> !NewItemValid(req))
      && (NewItemValid(req) && req.categoryId !in t.categories ==> r == Err(CategoryNotFound))
      && (r == Err(ItemNameConflict) <==> NewItemValid(req) && req.categoryId in t.categories && NewKeyTaken(t, req))
      && (r.Ok? <==> NewItemValid(req) && req.categoryId in t.categories && !NewKeyTaken(t, req))
  {
    NewItemAccepts(req);
    if NewItem(req).Ok? && req.categoryId in t.categories {
      NewItemKey(t, req);
      if NewKeyTaken(t, req) {
        assert ItemInserted(t, NewItem(req).value, now) == Err(DuplicateKey);
      } else {
        CreateItemReached(t, req, now);
      }
    }
  }

  /** The key the insert tests is the request's name and SKU. */
  lemma NewItemKey(t: Tables, req: CreateItemRequest)
    requires NewItem(req).Ok?
    ensures ItemKeyTaken(t, NewItem(req).value, t.nextItemId) == NewKeyTaken(t, req)
  {
    var item := NewItem(req).value;
    assert item.name == req.name && item.sku == req.sku;
    assert forall x: Item :: SameItemKey(x, item) == SameItemKey(x, CreatedRow(req, t.nextItemId, 0));
  }

  /** CreateItem's checks before the lookup pass exactly the valid requests. */
  lemma NewItemAccepts(req: CreateItemRequest)
    ensures NewItem(req).Ok? <==> NewItemValid(req)
  {
  }

  /** A request past the checks, naming a stored category, is stored. */
  lemma CreateItemReached(t: Tables, req: CreateItemRequest, now: Time)
    requires NewItem(req).Ok? && req.categoryId in t.categories && !NewKeyTaken(t, req)
    ensures CreateItemSpec(t, req, now).Ok?
  {
    NewItemKey(t, req);
    var a := ItemInserted(t, NewItem(req).value, now);
    assert a.Ok?;
    assert ItemById(a.value.tables, a.value.value).Ok?;
  }

  lemma CreateItemStores(t: Tables, req: CreateItemRequest, now: Time)
    requires CreateItemSpec(t, req, now).Ok?
    ensures var a := CreateItemSpec(t, req, now).value;
      var row := CreatedRow(req, t.nextItemId, now);
      && a.tables == t.(items := t.items[t.nextItemId := row], nextItemId := t.nextItemId + 1)
      && a.value == ItemView(row, t.categories[req.categoryId])
      && Shaped(row) && (row.tracksStock ==> row.currentStock.value >= 0)
  {
    assert NewItem(req).Ok?;
    var item := NewItem(req).value;
    var a := ItemInserted(t, item, now);
    assert a.Ok?;
    assert AsStored(item).(id := t.nextItemId, createdAt := now, updatedAt := now) == CreatedRow(req, t.nextItemId, now);
    assert CreateItemSpec(t, req, now) == Ok(Applied(a.value.tables, ItemById(a.value.tables, a.value.value).value));
  }

  /**
   * The threshold check runs after an untracked item's fields are
   * cleared, so a negative threshold on an untracked item is accepted
   * and simply not stored.
   */
  lemma UntrackedNegativeThresholdAccepted(t: Tables, req: CreateItemRequest, now: Time)
    requires !req.tracksStock && req.lowStockThreshold.Some? && req.lowStockThreshold.value < 0
    requires !Blank(req.name) && req.categoryId in t.categories && !NewKeyTaken(t, req)
    ensures CreateItemSpec(t, req, now).Ok?
    ensures CreateItemSpec(t, req, now).value.value.item.lowStockThreshold == None
  {
    CreateItemOutcome(t, req, now);
    CreateItemStores(t, req, now);
  }

  lemma CreateItemKeepsShape(t: Tables, req: CreateItemRequest, now: Time)
    requires StockShaped(t)
    ensures CreateItemSpec(t, req, now).Ok? ==> StockShaped(CreateItemSpec(t, req, now).value.tables)
  {
    if CreateItemSpec(t, req, now).Ok? {
      CreateItemStores(t, req, now);
    }
  }

  // ---------------------------------------------------------------- UpdateItem

  /**
   * The requests UpdateItem accepts for a stored item, stated without its
   * merge order: a supplied name is not blank; a stock is supplied without
   * the tracking switch only for a tracked item; a supplied stock that is
   * not cleared away is not negative; a supplied threshold needs the item
   * to track stock afterwards and is not negative.
   */
  predicate UpdateValid(stored: Item, req: UpdateItemRequest) {
    && (req.name.Some? ==> !Blank(req.name.value))
    && (req.tracksStock.None? && req.currentStock.Some? ==> stored.tracksStock)
    && (req.tracksStock != Some(false) && req.currentStock.Some? ==> req.currentStock.value >= 0)
    && (req.lowStockThreshold.Some? ==> req.tracksStock.GetOr(stored.tracksStock) && req.lowStockThreshold.value >= 0)
  }

  lemma {:induction false} StockRulesExact(item: Item, req: UpdateItemRequest)
    requires req.name.Some? ==> !Blank(req.name.value)
    ensures var m := TrackingMerged(item, req);
      (m.Ok? && ThresholdMerged(m.value, req).Ok?) <==> UpdateValid(item, req)
    ensures TrackingMerged(item, req).Ok? ==> TrackingMerged(item, req).value.tracksStock == req.tracksStock.GetOr(item.tracksStock)
  {
  }

  /** What preparing an update does to the row, field by field. */
  lemma PreparedFields(t: Tables, stored: Item, req: UpdateItemRequest)
    requires ItemPrepared(t, stored, req).Ok?
    ensures var p := ItemPrepared(t, stored, req).value;
      && p.id == stored.id && p.createdAt == stored.createdAt
      && p.categoryId == req.categoryId.GetOr(stored.categoryId)
      && (req.categoryId.Some? ==> req.categoryId.value in t.categories)
      && p.name == req.name.GetOr(stored.name)
      && p.description == (if req.description.Some? then req.description else stored.description)
      && p.price == req.price.GetOr(stored.price)
      && p.sku == (if req.sku.Some? then req.sku else stored.sku)
      && p.isAvailable == req.isAvailable.GetOr(stored.isAvailable)
      && p.itemType == req.itemType.GetOr(stored.itemType)
      && p.tracksStock == req.tracksStock.GetOr(stored.tracksStock)
  {
    var withCategory := if req.categoryId.Some? then stored.(categoryId := req.categoryId.value) else stored;
    var fields := FieldsMerged(withCategory, req);
    var tracked := TrackingMerged(fields, req).value;
    assert ItemPrepared(t, stored, req) == ThresholdMerged(tracked, req);
  }

  /** The updated row's name or SKU (supplied, else stored) is held by another item. */
  predicate UpdatedKeyTaken(t: Tables, id: int, req: UpdateItemRequest)
    requires id in t.items
  {
    var stored := t.items[id];
    ItemKeyTaken(t, stored.(name := req.name.GetOr(stored.name), sku := if req.sku.Some? then req.sku else stored.sku), id)
  }

  /** The key the update tests is the merged name and SKU. */
  lemma PreparedKey(t: Tables, id: int, req: UpdateItemRequest)
    requires id in t.items && ItemPrepared(t, t.items[id], req).Ok?
    ensures ItemKeyTaken(t, ItemPrepared(t, t.items[id], req).value, id) == UpdatedKeyTaken(t, id, req)
  {
    var stored := t.items[id];
    var p := ItemPrepared(t, stored, req).value;
    PreparedFields(t, stored, req);
    var k := stored.(name := req.name.GetOr(stored.name), sku := if req.sku.Some? then req.sku else stored.sku);
    assert forall x: Item :: SameItemKey(x, p) == SameItemKey(x, k);
  }

  /**
   * UpdateItem on a stored item comes down to preparing the row: a
   * refusal there is the result; a prepared row whose name or SKU another
   * item holds is ErrItemNameConflict; any other prepared row is stored
   * (with the repository's normalisation, the stored creation time and
   * `now`) and read back.
   */
  lemma UpdateItemStep(t: Tables, id: int, req: UpdateItemRequest, now: Time)
    requires Wf(t) && id in t.items && t.items[id].categoryId in t.categories
    ensures var p := ItemPrepared(t, t.items[id], req);
      && (p.Err? ==> UpdateItemSpec(t, id, req, now) == Err(p.error))
      && (p.Ok? && UpdatedKeyTaken(t, id, req) ==> UpdateItemSpec(t, id, req, now) == Err(ItemNameConflict))
      && (p.Ok? && !UpdatedKeyTaken(t, id, req) ==>
            var n := AsStored(p.value).(createdAt := t.items[id].createdAt, updatedAt := now);
            UpdateItemSpec(t, id, req, now) == Ok(Applied(t.(items := t.items[id := n]), ItemView(n, t.categories[n.categoryId]))))
  {
    var stored := t.items[id];
    var p := ItemPrepared(t, stored, req);
    assert ItemById(t, id) == Ok(ItemView(stored, t.categories[stored.categoryId]));
    if p.Ok? {
      PreparedFields(t, stored, req);
      PreparedKey(t, id, req);
      assert p.value.id == id;
      assert p.value.categoryId in t.categories;
      if UpdatedKeyTaken(t, id, req) {
        assert ItemUpdated(t, p.value, now) == Err(DuplicateKey);
      } else {
        var n := AsStored(p.value).(createdAt := t.items[id].createdAt, updatedAt := now);
        assert ItemUpdated(t, p.value, now) == Ok(t.(items := t.items[id := n]));
      }
    }
  }

  /** With the new category (if any) present, preparing refuses exactly the invalid requests, with ErrValidation. */
  lemma PreparedValid(t: Tables, stored: Item, req: UpdateItemRequest)
    requires req.categoryId.Some? ==> req.categoryId.value in t.categories
    ensures var p := ItemPrepared(t, stored, req);
      && (p.Ok? <==> UpdateValid(stored, req))
      && (p.Err? ==> p.error.Validation?)
  {
    var withCategory := if req.categoryId.Some? then stored.(categoryId := req.categoryId.value) else stored;
    var fields := FieldsMerged(withCategory, req);
    if !(req.name.Some? && Blank(req.name.value)) {
      StockRulesExact(fields, req);
      assert UpdateValid(fields, req) == UpdateValid(stored, req);
    }
  }

  /**
   * For a stored item: a new category that does not exist is
   * ErrCategoryNotFound; otherwise the update is refused with
   * ErrValidation exactly when it is not valid, then with
   * ErrItemNameConflict exactly when another item holds its name or SKU,
   * and succeeds otherwise.
   */
  lemma UpdateItemOutcome(t: Tables, id: int, req: UpdateItemRequest, now: Time)
    requires Wf(t) && id in t.items && t.items[id].categoryId in t.categories
    ensures var r := UpdateItemSpec(t, id, req, now);
      && (req.categoryId.Some? && req.categoryId.value !in t.categories ==> r == Err(CategoryNotFound))
      && ((req.categoryId.Some? ==> req.categoryId.value in t.categories) ==>
           && (r.Err? && r.error.Validation? <==> !UpdateValid(t.items[id], req))
           && (r == Err(ItemNameConflict) <==> UpdateValid(t.items[id], req) && UpdatedKeyTaken(t, id, req))
           && (r.Ok? <==> UpdateValid(t.items[id], req) && !UpdatedKeyTaken(t, id, req)))
  {
    UpdateItemStep(t, id, req, now);
    if req.categoryId.Some? ==> req.categoryId.value in t.categories {
      PreparedValid(t, t.items[id], req);
    }
  }

  /** The row UpdateItem writes, field by field, for a request it accepts. */
  lemma UpdateItemWrites(t: Tables, id: int, req: UpdateItemRequest, now: Time)
    requires Wf(t)
    requires UpdateItemSpec(t, id, req, now).Ok?
    ensures id in t.items
    ensures var a := UpdateItemSpec(t, id, req, now).value;
      var stored := t.items[id];
      var n := a.value.item;
      && a.tables == t.(items := t.items[id := n])
      && n.id == id && n.createdAt == stored.createdAt && n.updatedAt == now
      && n.categoryId == req.categoryId.GetOr(stored.categoryId)
      && n.name == req.name.GetOr(stored.name)
      && n.description == (if req.description.Some? then req.description else stored.description)
      && n.price == req.price.GetOr(stored.price)
      && n.sku == (if req.sku.Some? then req.sku else stored.sku)
      && n.isAvailable == req.isAvailable.GetOr(stored.isAvailable)
      && n.itemType == req.itemType.GetOr(stored.itemType)
      && n.tracksStock == req.tracksStock.GetOr(stored.tracksStock)
  {
    assert ItemById(t, id).Ok?;
    UpdateItemStep(t, id, req, now);
    PreparedFields(t, t.items[id], req);
  }

  /**
   * UpdateItem's stock fields: switching tracking off clears both; a
   * supplied stock is stored; switching tracking on without one keeps the
   * stored level, a missing one read as 0; otherwise the stored stock
   * stays. A supplied threshold is stored; otherwise the stored one stays
   * while the item tracks stock.
   */
  lemma UpdateItemStock(t: Tables, id: int, req: UpdateItemRequest, now: Time)
    requires Wf(t)
    requires UpdateItemSpec(t, id, req, now).Ok?
    ensures id in t.items
    ensures var stored := t.items[id];
      var n := UpdateItemSpec(t, id, req, now).value.value.item;
      && (!n.tracksStock ==> n.currentStock.None? && n.lowStockThreshold.None?)
      && (n.tracksStock && req.currentStock.Some? ==> n.currentStock == req.currentStock && req.currentStock.value >= 0)
      && (n.tracksStock && req.currentStock.None? && req.tracksStock == Some(true) ==> n.currentStock == Some(StockLevel(stored)))
      && (n.tracksStock && req.currentStock.None? && req.tracksStock.None? ==> n.currentStock == stored.currentStock)
      && (n.tracksStock ==> n.lowStockThreshold == (if req.lowStockThreshold.Some? then req.lowStockThreshold else stored.lowStockThreshold))
      && (req.lowStockThreshold.Some? ==> n.tracksStock && req.lowStockThreshold.value >= 0)
  {
    assert ItemById(t, id).Ok?;
    UpdateItemStep(t, id, req, now);
    PreparedStock(t, t.items[id], req);
  }

  /** The stock fields of a prepared row, before the write's NULL normalisation. */
  lemma PreparedStock(t: Tables, stored: Item, req: UpdateItemRequest)
    requires ItemPrepared(t, stored, req).Ok?
    ensures var n := ItemPrepared(t, stored, req).value;
      && n.tracksStock == req.tracksStock.GetOr(stored.tracksStock)
      && (req.tracksStock == Some(false) ==> n.currentStock.None? && n.lowStockThreshold.None?)
      && (n.tracksStock && req.currentStock.Some? ==> n.currentStock == req.currentStock && req.currentStock.value >= 0)
      && (n.tracksStock && req.currentStock.None? && req.tracksStock == Some(true) ==> n.currentStock == Some(StockLevel(stored)))
      && (n.tracksStock && req.currentStock.None? && req.tracksStock.None? ==> n.currentStock == stored.currentStock)
      && (n.tracksStock ==> n.lowStockThreshold == (if req.lowStockThreshold.Some? then req.lowStockThreshold else stored.lowStockThreshold))
      && (req.lowStockThreshold.Some? ==> n.tracksStock && req.lowStockThreshold.value >= 0)
  {
    var withCategory := if req.categoryId.Some? then stored.(categoryId := req.categoryId.value) else stored;
    var fields := FieldsMerged(withCategory, req);
    var tracked := TrackingMerged(fields, req).value;
    assert ItemPrepared(t, stored, req) == ThresholdMerged(tracked, req);
  }

  /** UpdateItem keeps every item's stock fields in shape. */
  lemma UpdateItemKeepsShape(t: Tables, id: int, req: UpdateItemRequest, now: Time)
    requires Wf(t) && StockShaped(t)
    ensures UpdateItemSpec(t, id, req, now).Ok? ==> StockShaped(UpdateItemSpec(t, id, req, now).value.tables)
  {
    if UpdateItemSpec(t, id, req, now).Ok? {
      UpdateItemWrites(t, id, req, now);
      UpdateItemStock(t, id, req, now);
      assert Shaped(t.items[id]);
    }
  }

  /** Recording a sale or a return keeps the shape: only tracked items' stock changes, and it stays present. */
  lemma StockUpdateKeepsShape(committed: Tables, t: Tables, itemId: int, change: int, now: Time)
    requires StockShaped(t)
    ensures StockUpdated(committed, t, itemId, change, now).Ok? ==> StockShaped(StockUpdated(committed, t, itemId, change, now).value.tables)
  {
  }

  // ---------------------------------------------------------------- categories

  /**
   * UpdateCategory on a well-formed table: it succeeds exactly when the
   * category exists, a supplied name is not blank and no other category
   * has the resulting name; it then rewrites only that row, with the
   * supplied fields, the stored creation time and `now`.
   */
  lemma UpdateCategoryWrites(t: Tables, id: int, req: UpdateCategoryRequest, now: Time)
    requires Wf(t)
    ensures var r := UpdateCategorySpec(t, id, req, now);
      id in t.categories && !(req.name.Some? && Blank(req.name.value)) ==>
        var stored := t.categories[id];
        var name := req.name.GetOr(stored.name);
        var row := Category(id, name, if req.description.Some? then req.description else stored.description, stored.createdAt, now);
        && (r == Err(CategoryNameExists) <==> NameTaken(t, name, id))
        && (r.Ok? <==> !NameTaken(t, name, id))
        && (r.Ok? ==> r.value == Applied(t.(categories := t.categories[id := row]), row))
  {
    if id in t.categories && !(req.name.Some? && Blank(req.name.value)) {
      var stored := t.categories[id];
      assert stored.id == id;
      var merged := CategoryMerged(stored, req);
      assert merged.id == id;
    }
  }
}
