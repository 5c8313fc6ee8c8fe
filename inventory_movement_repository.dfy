/**
 * internal/repositories/inventory_movement_repository.go: the movement log
 * is append-only — the repository offers an insert and a list, nothing
 * that updates or deletes a movement.
 */
module MovementRepository {
  import opened Wrappers
  import opened Store
  import opened Query

  /** The movement kinds the order service writes (their spellings are not part of this model's sources). */
  const MovementTypeSale: string := "sale"
  const MovementTypeReturnCancellation: string := "return_cancellation"
  const MovementTypeReturnDeletion: string := "return_deletion"

  /**
   * INSERT INTO inventory_movements ... RETURNING id. A zero movement date
   * becomes `now`; created_at and updated_at are always `now`; a movement
   * for an unknown item breaks the foreign key (the staff member's key is
   * not part of these tables). The value is the movement
   * as the caller's struct holds it afterwards (id and date written back).
   */
  function MovementInserted(t: Tables, m: Movement, now: Time): (r: Result<Applied<Movement>, RepoError>)
    ensures r.Err? <==> m.pricelistItemId !in t.items
    ensures r.Ok? ==> (
      && r.value.value == m.(id := t.nextMovementId, movementDate := if m.movementDate == ZeroTime then now else m.movementDate)
      && r.value.tables == t.(movements := t.movements + [r.value.value.(createdAt := now, updatedAt := now)],
                              nextMovementId := t.nextMovementId + 1))
  {
    if m.pricelistItemId !in t.items then Err(DatabaseError("foreign key violation on pricelist_item_id"))
    else
      var written := m.(id := t.nextMovementId, movementDate := if m.movementDate == ZeroTime then now else m.movementDate);
      Ok(Applied(t.(movements := t.movements + [written.(createdAt := now, updatedAt := now)], nextMovementId := t.nextMovementId + 1), written))
  }

  /** Every insert keeps the earlier log as a prefix and adds exactly one row carrying the caller's item, actor, kind, quantity and reason. */
  lemma MovementInsertAppends(t: Tables, m: Movement, now: Time)
    requires MovementInserted(t, m, now).Ok?
    ensures var t' := MovementInserted(t, m, now).value.tables;
      && |t'.movements| == |t.movements| + 1
      && t'.movements[..|t.movements|] == t.movements
      && (var row := t'.movements[|t.movements|];
          row.pricelistItemId == m.pricelistItemId && row.staffId == m.staffId && row.movementType == m.movementType
          && row.quantityChanged == m.quantityChanged && row.reason == m.reason)
      && t'.items == t.items && t'.orders == t.orders && t'.orderItems == t.orderItems
  {
    var t' := MovementInserted(t, m, now).value.tables;
    assert t'.movements[..|t.movements|] == t.movements;
  }

  /** CreateMovement on an executor: appends the row and returns the id together with the updated struct. */
  method CreateMovement(ex: Store, m: Movement, now: Time) returns (r: Result<Movement, RepoError>)
    modifies ex
    ensures var a := MovementInserted(old(ex.State()), m, now);
      if a.Ok? then ex.State() == a.value.tables && r == Ok(a.value.value)
      else ex.State() == old(ex.State()) && r == Err(a.error)
  {
    var movement := m;
    if movement.movementDate == ZeroTime {
      movement := movement.(movementDate := now);
    }
    if movement.pricelistItemId !in ex.items {
      return Err(DatabaseError("foreign key violation on pricelist_item_id"));
    }
    movement := movement.(id := ex.nextMovementId);
    ex.movements := ex.movements + [movement.(createdAt := now, updatedAt := now)];
    ex.nextMovementId := ex.nextMovementId + 1;
    r := Ok(movement);
  }

  // ---------------------------------------------------------------- listing

  /** A listed movement; `staffMember` is the joined staff record's id, absent when staff_id is NULL. */
  datatype MovementView = MovementView(movement: Movement, staffMember: Option<int>)

  /** The filters of GetMovements; a nil or empty movement type does not filter. */
  datatype MovementFilters = MovementFilters(itemId: Option<int>, staffId: Option<int>, movementType: Option<string>)

  /** The WHERE clause ANDed from the supplied filters, and the inner join onto pricelist_items. */
  predicate MovementMatches(t: Tables, f: MovementFilters, m: Movement) {
    && m.pricelistItemId in t.items
    && (f.itemId.Some? ==> m.pricelistItemId == f.itemId.value)
    && (f.staffId.Some? ==> m.staffId == Some(f.staffId.value))
    && (f.movementType.Some? && f.movementType.value != "" ==> m.movementType == f.movementType.value)
  }

  /** ORDER BY movement_date DESC, created_at DESC. */
  function MovementKey(m: Movement): SortKey {
    SortKey(m.movementDate, m.createdAt)
  }

  /** The movements passing the WHERE clause, in log order. */
  function MatchingMovements(t: Tables, f: MovementFilters): seq<Movement> {
    Filter(t.movements, m => MovementMatches(t, f, m))
  }

  /** The rows the list query returns. */
  function MovementRows(t: Tables, f: MovementFilters, page: int, pageSize: int): Result<seq<Movement>, RepoError> {
    FixedPage(SortDesc(MatchingMovements(t, f), MovementKey), page, pageSize)
  }

  /** A scanned row: the staff member is present exactly when staff_id is not NULL. */
  function ScanMovement(m: Movement): (v: MovementView)
    ensures v.movement == m
    ensures v.movement.staffId.None? <==> v.staffMember.None?
    ensures v.staffMember.Some? ==> v.staffMember == m.staffId
  {
    match m.staffId
    case None => MovementView(m, None)
    case Some(s) => MovementView(m, Some(s))
  }

  /** GetMovements: the page of matching movements, newest first, with the COUNT(*) OVER() total. */
  method GetMovements(db: Store, f: MovementFilters, page: int, pageSize: int) returns (r: Result<(seq<MovementView>, int), RepoError>)
    ensures var rows := MovementRows(db.State(), f, page, pageSize);
      && (rows.Err? <==> r.Err?)
      && (rows.Ok? ==> var (views, total) := r.value;
            && |views| == |rows.value|
            && (forall i :: 0 <= i < |views| ==> views[i] == ScanMovement(rows.value[i]))
            && total == ReportedTotal(MatchingMovements(db.State(), f), rows.value))
  {
    var matching := MatchingMovements(db.State(), f);
    var query := FixedPage(SortDesc(matching, MovementKey), page, pageSize);
    if query.Err? {
      return Err(query.error);
    }
    var rows := query.value;
    var movements: seq<MovementView> := [];
    var totalCount := 0;
    for i := 0 to |rows|
      invariant |movements| == i
      invariant forall k :: 0 <= k < i ==> movements[k] == ScanMovement(rows[k])
      invariant totalCount == if i == 0 then 0 else |matching|
    {
      var movement := rows[i].(staffId := None);
      var staffMember: Option<int> := None;
      if rows[i].staffId.Some? {
        movement := movement.(staffId := rows[i].staffId);
        staffMember := rows[i].staffId;
      }
      movements := movements + [MovementView(movement, staffMember)];
      totalCount := |matching|;
    }
    r := Ok((movements, totalCount));
  }

  /** Every listed movement is in the log and passes every supplied filter; the page is newest first and at most a page long. */
  lemma MovementsListedMatch(t: Tables, f: MovementFilters, page: int, pageSize: int)
    requires MovementRows(t, f, page, pageSize).Ok?
    ensures var rows := MovementRows(t, f, page, pageSize).value;
      && SortedDesc(rows, MovementKey)
      && |rows| <= pageSize
      && forall i :: 0 <= i < |rows| ==> rows[i] in t.movements && MovementMatches(t, f, rows[i])
  {
    FixedPageListed(t.movements, m => MovementMatches(t, f, m), MovementKey, page, pageSize);
  }

  /** A negative page size, or a page before the first, is refused by the database rather than clamped. */
  lemma MovementsRefuseNegativeWindow(t: Tables, f: MovementFilters, page: int, pageSize: int)
    requires pageSize < 0 || (page <= 0 && pageSize > 0)
    ensures MovementRows(t, f, page, pageSize).Err?
  {
    if pageSize > 0 {
      assert (page - 1) * pageSize < 0 by {
        assert page - 1 < 0;
      }
    }
  }
}
