/**
 * internal/services/pricelist_service.go: categories and items of the
 * pricelist, with the name checks, the stock-field rules of CreateItem and
 * UpdateItem, and the translation of repository errors into the service's
 * own. The service writes straight to the database (no transaction), and
 * every write is followed by a re-read of the row.
 *
 * Each operation is a function from the tables to the new tables and the
 * row read back (or the error, in which case nothing was written), and a
 * method running the repository statements on the database.
 */
module PricelistService {
  import opened Wrappers
  import opened Store
  import opened GoStrings
  import opened PricelistRepository
  import Query

  /** The errors of the service; `Repository` wraps one it passes on. */
  datatype PricelistError =
    | CategoryNotFound
    | CategoryNameExists
    | ItemNotFound
    | ItemNameConflict
    | Validation(reason: string)
    | PricelistForeignKey
    | Repository(error: RepoError)

  /** The phrases the service looks for in a database error's text. */
  const InUsePhrase: string := "is currently in use by"
  const ReferencedPhrase: string := "is referenced by other records"
  const CategoryForeignKey: string := "pricelist_items_category_id_fkey"

  const EmptyName: string := "name cannot be empty"
  const NegativeStock: string := "current stock cannot be negative"
  const NegativeThreshold: string := "low stock threshold cannot be negative"
  const UntrackedStock: string := "cannot update CurrentStock for an item that does not track stock"
  const UntrackedThreshold: string := "cannot set LowStockThreshold for an item that does not track stock"

  datatype CreateCategoryRequest = CreateCategoryRequest(name: string, description: Option<string>)

  /** None is a field the request leaves alone. */
  datatype UpdateCategoryRequest = UpdateCategoryRequest(name: Option<string>, description: Option<string>)

  /** The price is in cents. */
  datatype CreateItemRequest = CreateItemRequest(
    categoryId: int, name: string, description: Option<string>, price: int, sku: Option<string>,
    isAvailable: bool, itemType: string, tracksStock: bool, currentStock: Option<int>, lowStockThreshold: Option<int>)

  /** None is a field the request leaves alone; the price is in cents. */
  datatype UpdateItemRequest = UpdateItemRequest(
    categoryId: Option<int>, name: Option<string>, description: Option<string>, price: Option<int>,
    sku: Option<string>, isAvailable: Option<bool>, itemType: Option<string>, tracksStock: Option<bool>,
    currentStock: Option<int>, lowStockThreshold: Option<int>)

  /** strings.TrimSpace(name) == "": empty or white space only. */
  predicate Blank(s: string) {
    TrimSpace(s) == ""
  }

  // ---------------------------------------------------------------- error translation

  /** The repository's messages carry the phrases the service looks for. */
  lemma MessagesClassified()
    ensures Contains(CategoryInUseMessage, InUsePhrase)
    ensures Contains(CategoryForeignKeyMessage, CategoryForeignKey)
    ensures Contains(ItemReferencedMessage, ReferencedPhrase)
  {
    ContainsPart("category cannot be deleted as it ", InUsePhrase, " pricelist items");
    ContainsPart("invalid category_id (constraint: ", CategoryForeignKey, ")");
    ContainsPart("item cannot be deleted as it ", ReferencedPhrase, "");
  }

  /** A category lookup's failure: NotFound becomes ErrCategoryNotFound, anything else is passed on. */
  function CategoryLookupError(e: RepoError): (r: PricelistError)
    ensures r == CategoryNotFound <==> e == NotFound
    ensures r != CategoryNotFound ==> r == Repository(e)
  {
    if e == NotFound then CategoryNotFound else Repository(e)
  }

  /** An item lookup's failure: NotFound becomes ErrItemNotFound, anything else is passed on. */
  function ItemLookupError(e: RepoError): (r: PricelistError)
    ensures r == ItemNotFound <==> e == NotFound
    ensures r != ItemNotFound ==> r == Repository(e)
  {
    if e == NotFound then ItemNotFound else Repository(e)
  }

  /** CreateCategory's translation: a duplicate name, or passed on. */
  function CategoryInsertError(e: RepoError): (r: PricelistError)
    ensures r == CategoryNameExists <==> e == DuplicateKey
    ensures r != CategoryNameExists ==> r == Repository(e)
  {
    if e == DuplicateKey then CategoryNameExists else Repository(e)
  }

  /** The re-read after a write: its error, if any, is passed on as it is. */
  function ReadBack<T>(r: Result<T, RepoError>): (s: Result<T, PricelistError>)
    ensures s.Ok? <==> r.Ok?
    ensures r.Ok? ==> s.value == r.value
    ensures r.Err? ==> s.error == Repository(r.error)
  {
    match r
    case Ok(v) => Ok(v)
    case Err(e) => Err(Repository(e))
  }

  /** UpdateCategory's translation: a duplicate name, a vanished row, or passed on. */
  function CategoryUpdateError(e: RepoError): (r: PricelistError)
    ensures r == CategoryNameExists <==> e == DuplicateKey
    ensures r == CategoryNotFound <==> e == NotFound
    ensures e.DatabaseError? ==> r == Repository(e)
  {
    if e == DuplicateKey then CategoryNameExists
    else if e == NotFound then CategoryNotFound
    else Repository(e)
  }

  /** CreateItem's translation: a duplicate, the category foreign key by its name in the text, or passed on. */
  function ItemInsertError(e: RepoError): (r: PricelistError)
    ensures r == ItemNameConflict <==> e == DuplicateKey
    ensures r == CategoryNotFound <==> e.DatabaseError? && Contains(e.reason, CategoryForeignKey)
    ensures r != ItemNameConflict && r != CategoryNotFound ==> r == Repository(e)
  {
    if e == DuplicateKey then ItemNameConflict
    else if e.DatabaseError? && Contains(e.reason, CategoryForeignKey) then CategoryNotFound
    else Repository(e)
  }

  /** UpdateItem's translation: as CreateItem's, and a vanished row is ErrItemNotFound. */
  function ItemUpdateError(e: RepoError): (r: PricelistError)
    ensures e == NotFound ==> r == ItemNotFound
    ensures e != NotFound ==> r == ItemInsertError(e)
  {
    if e == DuplicateKey then ItemNameConflict
    else if e == NotFound then ItemNotFound
    else if e.DatabaseError? && Contains(e.reason, CategoryForeignKey) then CategoryNotFound
    else Repository(e)
  }

  /**
   * The deletes' translation: a vanished row is `notFound`; a database
   * error whose text has `inUse` or the foreign-key phrase is
   * ErrPricelistForeignKey; anything else is passed on.
   */
  function DeleteError(e: RepoError, notFound: PricelistError, inUse: string): (r: PricelistError)
    ensures e == NotFound ==> r == notFound
    ensures e.DatabaseError? && (Contains(e.reason, inUse) || Contains(e.reason, ForeignKeyPhrase)) ==> r == PricelistForeignKey
    ensures e == DuplicateKey ==> r == Repository(e)
  {
    if e == NotFound then notFound
    else if e.DatabaseError? && (Contains(e.reason, inUse) || Contains(e.reason, ForeignKeyPhrase)) then PricelistForeignKey
    else Repository(e)
  }

  // ---------------------------------------------------------------- categories

  /** GetCategoryByID: the row, or ErrCategoryNotFound for an unknown id. */
  function CategoryLookup(t: Tables, id: int): (r: Result<Category, PricelistError>)
    ensures r == Err(CategoryNotFound) <==> id !in t.categories
    ensures r.Ok? ==> id in t.categories && r.value == t.categories[id]
  {
    match CategoryById(t, id)
    case Ok(c) => Ok(c)
    case Err(e) => Err(CategoryLookupError(e))
  }

  /**
   * CreateCategory: a blank name is refused before anything is written; a
   * name another category has is ErrCategoryNameExists; otherwise the row
   * gets the next id and `now` as both timestamps, and is read back.
   */
  function CreateCategorySpec(t: Tables, req: CreateCategoryRequest, now: Time): (r: Result<Applied<Category>, PricelistError>)
    ensures r == Err(Validation(EmptyName)) <==> Blank(req.name)
    ensures r == Err(CategoryNameExists) <==> !Blank(req.name) && NameTaken(t, req.name, t.nextCategoryId)
    ensures r.Ok? <==> !Blank(req.name) && !NameTaken(t, req.name, t.nextCategoryId)
    ensures r.Ok? ==> var row := Category(t.nextCategoryId, req.name, req.description, now, now);
      r.value == Applied(t.(categories := t.categories[t.nextCategoryId := row], nextCategoryId := t.nextCategoryId + 1), row)
  {
    if Blank(req.name) then Err(Validation(EmptyName))
    else
      match CategoryInserted(t, Category(0, req.name, req.description, 0, 0), now)
      case Err(e) => Err(CategoryInsertError(e))
      case Ok(a) =>
        match ReadBack(CategoryById(a.tables, a.value))
        case Ok(c) => Ok(Applied(a.tables, c))
        case Err(e) => Err(e)
  }

  /** The category as UpdateCategory changes it: the supplied fields replace the stored ones. */
  function CategoryMerged(stored: Category, req: UpdateCategoryRequest): (c: Category)
    ensures c.name == req.name.GetOr(stored.name)
    ensures c.description == (if req.description.Some? then req.description else stored.description)
    ensures c.(name := stored.name, description := stored.description) == stored
  {
    var named := if req.name.Some? then stored.(name := req.name.value) else stored;
    if req.description.Some? then named.(description := req.description) else named
  }

  /**
   * UpdateCategory: an unknown id is ErrCategoryNotFound; a supplied name
   * that is blank is refused; the merged row is written and read back.
   */
  function UpdateCategorySpec(t: Tables, id: int, req: UpdateCategoryRequest, now: Time): (r: Result<Applied<Category>, PricelistError>)
    ensures id !in t.categories ==> r == Err(CategoryNotFound)
    ensures id in t.categories && req.name.Some? && Blank(req.name.value) ==> r == Err(Validation(EmptyName))
    ensures r.Ok? ==> id in t.categories && !(req.name.Some? && Blank(req.name.value))
  {
    match CategoryById(t, id)
    case Err(e) => Err(CategoryLookupError(e))
    case Ok(stored) =>
      if req.name.Some? && Blank(req.name.value) then Err(Validation(EmptyName))
      else
        match CategoryUpdated(t, CategoryMerged(stored, req), now)
        case Err(e) => Err(CategoryUpdateError(e))
        case Ok(t2) =>
          match ReadBack(CategoryById(t2, id))
          case Ok(c) => Ok(Applied(t2, c))
          case Err(e) => Err(e)
  }

  /**
   * DeleteCategory: an unknown id is ErrCategoryNotFound, a category that
   * items still use is ErrPricelistForeignKey; otherwise its row goes.
   */
  function DeleteCategorySpec(t: Tables, id: int): (r: Result<Tables, PricelistError>)
    ensures id !in t.categories ==> r == Err(CategoryNotFound)
    ensures r.Ok? <==> id in t.categories && !CategoryInUse(t, id)
    ensures r.Ok? ==> r.value == t.(categories := t.categories - {id})
  {
    match CategoryById(t, id)
    case Err(e) => Err(CategoryLookupError(e))
    case Ok(_) =>
      match CategoryDeleted(t, id)
      case Err(e) => Err(DeleteError(e, CategoryNotFound, InUsePhrase))
      case Ok(t2) => Ok(t2)
  }

  /** A category in use is refused with ErrPricelistForeignKey, and nothing changes. */
  lemma DeleteCategoryInUse(t: Tables, id: int)
    requires id in t.categories && CategoryInUse(t, id)
    ensures DeleteCategorySpec(t, id) == Err(PricelistForeignKey)
  {
    MessagesClassified();
    assert CategoryDeleted(t, id) == Err(DatabaseError(CategoryInUseMessage));
  }

  // ---------------------------------------------------------------- items

  /** An item lookup: the row with its category, or ErrItemNotFound. */
  function ItemLookup(t: Tables, id: int): (r: Result<ItemView, PricelistError>)
    ensures r == Err(ItemNotFound) <==> id !in t.items || t.items[id].categoryId !in t.categories
    ensures r.Ok? ==> r.value == ItemView(t.items[id], t.categories[t.items[id].categoryId])
  {
    match ItemById(t, id)
    case Ok(v) => Ok(v)
    case Err(e) => Err(ItemLookupError(e))
  }

  /**
   * The stock fields CreateItem passes on: a tracked item without a stock
   * starts at 0; an untracked one has neither stock nor threshold.
   */
  function CreateStockFields(req: CreateItemRequest): (r: (Option<int>, Option<int>))
    ensures req.tracksStock ==> r == (Some(req.currentStock.GetOr(0)), req.lowStockThreshold)
    ensures !req.tracksStock ==> r == (None, None)
  {
    var stock := if req.tracksStock && req.currentStock.None? then Some(0) else req.currentStock;
    if !req.tracksStock then (None, None) else (stock, req.lowStockThreshold)
  }

  /** CreateItem's checks before the category lookup, and the row they lead to (id and timestamps not yet set). */
  function NewItem(req: CreateItemRequest): (r: Result<Item, PricelistError>)
    ensures r.Err? ==> r.error.Validation?
    ensures Blank(req.name) ==> r.Err?
    ensures r.Ok? ==> r.value.name == req.name && r.value.categoryId == req.categoryId && r.value.tracksStock == req.tracksStock
    ensures r.Ok? ==> (r.value.currentStock, r.value.lowStockThreshold) == CreateStockFields(req)
    ensures r.Ok? ==> (r.value.currentStock.Some? ==> r.value.currentStock.value >= 0) && (r.value.lowStockThreshold.Some? ==> r.value.lowStockThreshold.value >= 0)
  {
    if Blank(req.name) then Err(Validation(EmptyName))
    else
      var (stock, threshold) := CreateStockFields(req);
      if req.tracksStock && stock.Some? && stock.value < 0 then Err(Validation(NegativeStock))
      else if threshold.Some? && threshold.value < 0 then Err(Validation(NegativeThreshold))
      else Ok(Item(0, req.categoryId, req.name, req.description, req.price, req.sku, req.isAvailable,
                   req.itemType, req.tracksStock, stock, threshold, 0, 0))
  }

  /**
   * CreateItem: the checks, then the category must exist, then the row is
   * inserted with the next id and read back.
   */
  function CreateItemSpec(t: Tables, req: CreateItemRequest, now: Time): (r: Result<Applied<ItemView>, PricelistError>)
  {
    match NewItem(req)
    case Err(e) => Err(e)
    case Ok(item) =>
      match CategoryById(t, req.categoryId)
      case Err(e) => Err(CategoryLookupError(e))
      case Ok(_) =>
        match ItemInserted(t, item, now)
        case Err(e) => Err(ItemInsertError(e))
        case Ok(a) =>
          match ReadBack(ItemById(a.tables, a.value))
          case Ok(v) => Ok(Applied(a.tables, v))
          case Err(e) => Err(e)
  }

  /** The fields UpdateItem copies from the request when supplied: name, description, price, SKU, availability and type. */
  function FieldsMerged(item: Item, req: UpdateItemRequest): Item {
    item.(name := req.name.GetOr(item.name),
          description := if req.description.Some? then req.description else item.description,
          price := req.price.GetOr(item.price),
          sku := if req.sku.Some? then req.sku else item.sku,
          isAvailable := req.isAvailable.GetOr(item.isAvailable),
          itemType := req.itemType.GetOr(item.itemType))
  }

  /**
   * UpdateItem's tracking and stock rules: switching tracking off clears
   * stock and threshold; switching it on takes the supplied stock or
   * starts a missing one at 0; without the switch a stock may only be
   * set on a tracked item. A supplied stock must not be negative.
   */
  function TrackingMerged(item: Item, req: UpdateItemRequest): (r: Result<Item, PricelistError>)
    ensures r.Err? ==> r.error.Validation?
    ensures r.Ok? ==> r.value.tracksStock == req.tracksStock.GetOr(item.tracksStock)
    ensures r.Ok? ==> r.value.(tracksStock := item.tracksStock, currentStock := item.currentStock,
                               lowStockThreshold := item.lowStockThreshold) == item
  {
    if req.tracksStock.Some? then
      var tracked := item.(tracksStock := req.tracksStock.value);
      if !req.tracksStock.value then Ok(tracked.(currentStock := None, lowStockThreshold := None))
      else if req.currentStock.Some? then
        if req.currentStock.value < 0 then Err(Validation(NegativeStock))
        else Ok(tracked.(currentStock := req.currentStock))
      else if item.currentStock.None? then Ok(tracked.(currentStock := Some(0)))
      else Ok(tracked)
    else if req.currentStock.Some? then
      if !item.tracksStock then Err(Validation(UntrackedStock))
      else if req.currentStock.value < 0 then Err(Validation(NegativeStock))
      else Ok(item.(currentStock := req.currentStock))
    else Ok(item)
  }

  /**
   * UpdateItem's threshold rule: a supplied threshold needs a tracked item
   * and must not be negative; switching tracking off clears it.
   */
  function ThresholdMerged(item: Item, req: UpdateItemRequest): (r: Result<Item, PricelistError>)
    ensures r.Err? ==> r.error.Validation?
    ensures r.Ok? ==> r.value.(lowStockThreshold := item.lowStockThreshold) == item
  {
    if req.lowStockThreshold.Some? then
      if !item.tracksStock then Err(Validation(UntrackedThreshold))
      else if req.lowStockThreshold.value < 0 then Err(Validation(NegativeThreshold))
      else Ok(item.(lowStockThreshold := req.lowStockThreshold))
    else if req.tracksStock == Some(false) then Ok(item.(lowStockThreshold := None))
    else Ok(item)
  }

  /**
   * Everything UpdateItem does to the fetched row before writing it: the
   * new category must exist, a supplied name must not be blank, then the
   * plain fields, the stock and the threshold are merged in that order.
   */
  function ItemPrepared(t: Tables, stored: Item, req: UpdateItemRequest): Result<Item, PricelistError> {
    if req.categoryId.Some? && req.categoryId.value !in t.categories then
      Err(CategoryLookupError(CategoryById(t, req.categoryId.value).error))
    else
      var withCategory := if req.categoryId.Some? then stored.(categoryId := req.categoryId.value) else stored;
      if req.name.Some? && Blank(req.name.value) then Err(Validation(EmptyName))
      else
        match TrackingMerged(FieldsMerged(withCategory, req), req)
        case Err(e) => Err(e)
        case Ok(item) => ThresholdMerged(item, req)
  }

  /**
   * UpdateItem: an unknown id is ErrItemNotFound; the fetched row is
   * prepared, written and read back.
   */
  function UpdateItemSpec(t: Tables, id: int, req: UpdateItemRequest, now: Time): (r: Result<Applied<ItemView>, PricelistError>)
    ensures id !in t.items ==> r == Err(ItemNotFound)
  {
    match ItemById(t, id)
    case Err(e) => Err(ItemLookupError(e))
    case Ok(v) =>
      match ItemPrepared(t, v.item, req)
      case Err(e) => Err(e)
      case Ok(item) =>
        match ItemUpdated(t, item, now)
        case Err(e) => Err(ItemUpdateError(e))
        case Ok(t2) =>
          match ReadBack(ItemById(t2, id))
          case Ok(v2) => Ok(Applied(t2, v2))
          case Err(e) => Err(e)
  }

  /**
   * DeleteItem: an unknown id is ErrItemNotFound, an item that order
   * items or movements refer to is ErrPricelistForeignKey; otherwise its
   * row goes.
   */
  function DeleteItemSpec(t: Tables, id: int): (r: Result<Tables, PricelistError>)
    ensures id !in t.items ==> r == Err(ItemNotFound)
    ensures r.Ok? <==> id in t.items && t.items[id].categoryId in t.categories && !ItemReferenced(t, id)
    ensures r.Ok? ==> r.value == t.(items := t.items - {id})
  {
    match ItemById(t, id)
    case Err(e) => Err(ItemLookupError(e))
    case Ok(_) =>
      match ItemDeleted(t, id)
      case Err(e) => Err(DeleteError(e, ItemNotFound, ReferencedPhrase))
      case Ok(t2) => Ok(t2)
  }

  /** A referenced item is refused with ErrPricelistForeignKey, and nothing changes. */
  lemma DeleteItemReferenced(t: Tables, id: int)
    requires id in t.items && t.items[id].categoryId in t.categories && ItemReferenced(t, id)
    ensures DeleteItemSpec(t, id) == Err(PricelistForeignKey)
  {
    MessagesClassified();
    assert ItemDeleted(t, id) == Err(DatabaseError(ItemReferencedMessage));
  }

  // ---------------------------------------------------------------- methods

  method GetCategoryByID(db: Store, id: int) returns (r: Result<Category, PricelistError>)
    ensures r == CategoryLookup(db.State(), id)
  {
    var found := PricelistRepository.GetCategoryByID(db, id);
    if found.Err? {
      return Err(CategoryLookupError(found.error));
    }
    r := Ok(found.value);
  }

  method CreateCategory(db: Store, req: CreateCategoryRequest, now: Time) returns (r: Result<Category, PricelistError>)
    modifies db
    ensures var s := CreateCategorySpec(old(db.State()), req, now);
      if s.Ok? then db.State() == s.value.tables && r == Ok(s.value.value)
      else db.State() == old(db.State()) && r == Err(s.error)
  {
    if Blank(req.name) {
      return Err(Validation(EmptyName));
    }
    var created := PricelistRepository.CreateCategory(db, Category(0, req.name, req.description, 0, 0), now);
    if created.Err? {
      return Err(CategoryInsertError(created.error));
    }
    var reread := PricelistRepository.GetCategoryByID(db, created.value.id);
    r := ReadBack(reread);
  }

  /** UpdateCategory changes the fetched row field by field, then writes it. */
  method UpdateCategory(db: Store, id: int, req: UpdateCategoryRequest, now: Time) returns (r: Result<Category, PricelistError>)
    modifies db
    ensures var s := UpdateCategorySpec(old(db.State()), id, req, now);
      if s.Ok? then db.State() == s.value.tables && r == Ok(s.value.value)
      else db.State() == old(db.State()) && r == Err(s.error)
  {
    var found := PricelistRepository.GetCategoryByID(db, id);
    if found.Err? {
      return Err(CategoryLookupError(found.error));
    }
    var category := found.value;
    if req.name.Some? {
      if Blank(req.name.value) {
        return Err(Validation(EmptyName));
      }
      category := category.(name := req.name.value);
    }
    if req.description.Some? {
      category := category.(description := req.description);
    }
    assert category == CategoryMerged(found.value, req);
    var written := PricelistRepository.UpdateCategory(db, category, now);
    if written.Err? {
      return Err(CategoryUpdateError(written.error));
    }
    var reread := PricelistRepository.GetCategoryByID(db, id);
    r := ReadBack(reread);
  }

  method DeleteCategory(db: Store, id: int) returns (r: Result<(), PricelistError>)
    modifies db
    ensures var s := DeleteCategorySpec(old(db.State()), id);
      if s.Ok? then db.State() == s.value && r.Ok?
      else db.State() == old(db.State()) && r == Err(s.error)
  {
    var found := PricelistRepository.GetCategoryByID(db, id);
    if found.Err? {
      return Err(CategoryLookupError(found.error));
    }
    var deleted := PricelistRepository.DeleteCategory(db, id);
    if deleted.Err? {
      return Err(DeleteError(deleted.error, CategoryNotFound, InUsePhrase));
    }
    r := Ok(());
  }

  method GetItemByID(db: Store, id: int) returns (r: Result<ItemView, PricelistError>)
    ensures r == ItemLookup(db.State(), id)
  {
    var found := PricelistRepository.GetItemByID(db, id);
    if found.Err? {
      return Err(ItemLookupError(found.error));
    }
    r := Ok(found.value);
  }

  /** CreateItem's checks, normalising the request's stock fields in place; it changes nothing stored. */
  method CheckNewItem(req: CreateItemRequest) returns (r: Result<Item, PricelistError>)
    ensures r == NewItem(req)
  {
    if Blank(req.name) {
      return Err(Validation(EmptyName));
    }
    var stock, threshold := req.currentStock, req.lowStockThreshold;
    if req.tracksStock && stock.None? {
      stock := Some(0);
    }
    if !req.tracksStock {
      stock, threshold := None, None;
    }
    assert (stock, threshold) == CreateStockFields(req);
    if req.tracksStock && stock.Some? && stock.value < 0 {
      return Err(Validation(NegativeStock));
    }
    if threshold.Some? && threshold.value < 0 {
      return Err(Validation(NegativeThreshold));
    }
    r := Ok(Item(0, req.categoryId, req.name, req.description, req.price, req.sku, req.isAvailable,
                 req.itemType, req.tracksStock, stock, threshold, 0, 0));
  }

  /** CreateItem: the checks, the category lookup, the insert and the re-read. */
  method CreateItem(db: Store, req: CreateItemRequest, now: Time) returns (r: Result<ItemView, PricelistError>)
    modifies db
    ensures var s := CreateItemSpec(old(db.State()), req, now);
      if s.Ok? then db.State() == s.value.tables && r == Ok(s.value.value)
      else db.State() == old(db.State()) && r == Err(s.error)
  {
    ghost var t := db.State();
    var checked := CheckNewItem(req);
    if checked.Err? {
      return Err(checked.error);
    }
    var category := PricelistRepository.GetCategoryByID(db, req.categoryId);
    if category.Err? {
      return Err(CategoryLookupError(category.error));
    }
    ghost var a := ItemInserted(t, checked.value, now);
    var created := PricelistRepository.CreateItem(db, checked.value, now);
    if created.Err? {
      return Err(ItemInsertError(created.error));
    }
    var reread := PricelistRepository.GetItemByID(db, created.value.id);
    r := ReadBack(reread);
    assert CreateItemSpec(t, req, now) == (match ReadBack(reread) case Ok(v) => Ok(Applied(a.value.tables, v)) case Err(e) => Err(e));
  }

  /** UpdateItem's stock and threshold handling on the fetched row, field by field; it changes nothing stored. */
  method MergeStock(stored: Item, req: UpdateItemRequest) returns (r: Result<Item, PricelistError>)
    ensures r == (match TrackingMerged(stored, req) case Err(e) => Err(e) case Ok(i) => ThresholdMerged(i, req))
  {
    var item := stored;
    if req.tracksStock.Some? {
      item := item.(tracksStock := req.tracksStock.value);
      if !item.tracksStock {
        item := item.(currentStock := None, lowStockThreshold := None);
      } else if req.currentStock.Some? {
        if req.currentStock.value < 0 {
          return Err(Validation(NegativeStock));
        }
        item := item.(currentStock := req.currentStock);
      } else if item.currentStock.None? {
        item := item.(currentStock := Some(0));
      }
    } else if req.currentStock.Some? {
      if !item.tracksStock {
        return Err(Validation(UntrackedStock));
      }
      if req.currentStock.value < 0 {
        return Err(Validation(NegativeStock));
      }
      item := item.(currentStock := req.currentStock);
    }
    assert TrackingMerged(stored, req) == Ok(item);
    if req.lowStockThreshold.Some? {
      if !item.tracksStock {
        return Err(Validation(UntrackedThreshold));
      }
      if req.lowStockThreshold.value < 0 {
        return Err(Validation(NegativeThreshold));
      }
      item := item.(lowStockThreshold := req.lowStockThreshold);
    } else if req.tracksStock == Some(false) {
      item := item.(lowStockThreshold := None);
    }
    r := Ok(item);
  }

  /** The plain fields of UpdateItem, copied one by one when supplied. */
  method CopyFields(stored: Item, req: UpdateItemRequest) returns (item: Item)
    ensures item == FieldsMerged(stored, req)
  {
    item := stored;
    if req.name.Some? { item := item.(name := req.name.value); }
    if req.description.Some? { item := item.(description := req.description); }
    if req.price.Some? { item := item.(price := req.price.value); }
    if req.sku.Some? { item := item.(sku := req.sku); }
    if req.isAvailable.Some? { item := item.(isAvailable := req.isAvailable.value); }
    if req.itemType.Some? { item := item.(itemType := req.itemType.value); }
  }

  /** UpdateItem's changes to the fetched row, field by field; it only reads the database. */
  method PrepareItem(db: Store, stored: Item, req: UpdateItemRequest) returns (r: Result<Item, PricelistError>)
    ensures r == ItemPrepared(db.State(), stored, req)
  {
    var item := stored;
    if req.categoryId.Some? {
      var category := PricelistRepository.GetCategoryByID(db, req.categoryId.value);
      if category.Err? {
        return Err(CategoryLookupError(category.error));
      }
      item := item.(categoryId := req.categoryId.value);
    }
    if req.name.Some? && Blank(req.name.value) {
      return Err(Validation(EmptyName));
    }
    item := CopyFields(item, req);
    r := MergeStock(item, req);
  }

  /** UpdateItem: the lookup, the changes, the write and the re-read. */
  method UpdateItem(db: Store, id: int, req: UpdateItemRequest, now: Time) returns (r: Result<ItemView, PricelistError>)
    modifies db
    ensures var s := UpdateItemSpec(old(db.State()), id, req, now);
      if s.Ok? then db.State() == s.value.tables && r == Ok(s.value.value)
      else db.State() == old(db.State()) && r == Err(s.error)
  {
    var found := PricelistRepository.GetItemByID(db, id);
    if found.Err? {
      return Err(ItemLookupError(found.error));
    }
    var prepared := PrepareItem(db, found.value.item, req);
    if prepared.Err? {
      return Err(prepared.error);
    }
    var written := PricelistRepository.UpdateItem(db, prepared.value, now);
    if written.Err? {
      return Err(ItemUpdateError(written.error));
    }
    var reread := PricelistRepository.GetItemByID(db, id);
    r := ReadBack(reread);
  }

  method DeleteItem(db: Store, id: int) returns (r: Result<(), PricelistError>)
    modifies db
    ensures var s := DeleteItemSpec(old(db.State()), id);
      if s.Ok? then db.State() == s.value && r.Ok?
      else db.State() == old(db.State()) && r == Err(s.error)
  {
    var found := PricelistRepository.GetItemByID(db, id);
    if found.Err? {
      return Err(ItemLookupError(found.error));
    }
    var deleted := PricelistRepository.DeleteItem(db, id);
    if deleted.Err? {
      return Err(DeleteError(deleted.error, ItemNotFound, ReferencedPhrase));
    }
    r := Ok(());
  }
}
