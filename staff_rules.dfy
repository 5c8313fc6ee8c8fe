/**
 * What the staff service guarantees: the outcome of each operation in
 * terms of its request, and the invariants its writes keep: one staff
 * record per user account, every staff member tied to an existing user
 * account, every stored shift a valid interval, and no shift without its
 * staff member.
 */
module StaffRules {
  import opened Wrappers
  import opened Store
  import opened GoStrings
  import opened StaffService
  import Query

  // ---------------------------------------------------------------- invariants

  /** Rows sit under their own id, below the next id the sequences hand out. */
  ghost predicate StaffWf(t: StaffTables) {
    (forall id :: id in t.staff ==> t.staff[id].id == id && id < t.nextStaffId)
    && (forall id :: id in t.shifts ==> t.shifts[id].id == id && id < t.nextShiftId)
  }

  /** The unique key on staff_members.user_id: at most one staff record per user account. */
  ghost predicate OneStaffPerUser(t: StaffTables) {
    forall a, b :: a in t.staff && b in t.staff && t.staff[a].userId.Some? && t.staff[a].userId == t.staff[b].userId ==> a == b
  }

  /** Every staff member has the user account CreateStaffMember checked for. */
  ghost predicate StaffLinked(t: StaffTables) {
    forall id :: id in t.staff ==> HasAccount(t, t.staff[id])
  }

  /** Every stored shift is an interval the service accepts. */
  ghost predicate ShiftsValid(t: StaffTables) {
    forall id :: id in t.shifts ==> ValidShift(t.shifts[id].startTime, t.shifts[id].endTime)
  }

  /** Every shift belongs to a stored staff member. */
  ghost predicate ShiftsOwned(t: StaffTables) {
    forall id :: id in t.shifts ==> t.shifts[id].staffId in t.staff
  }

  ghost predicate StaffInvariant(t: StaffTables) {
    StaffWf(t) && OneStaffPerUser(t) && StaffLinked(t) && ShiftsValid(t) && ShiftsOwned(t)
  }

  /**
   * On tables the service's own writes produce, the staff lookup never
   * meets a member it cannot scan, and every shift is visible through the
   * repository's joins.
   */
  lemma LinkedStaffFound(t: StaffTables, id: int)
    requires StaffInvariant(t)
    ensures StaffLookup(t, id).Ok? <==> id in t.staff
    ensures StaffLookup(t, id).Err? ==> StaffLookup(t, id).error == StaffNotFound
    ensures id in t.shifts ==> ShiftById(t, id) == Ok(t.shifts[id])
  {
  }

  // ---------------------------------------------------------------- parsing

  /** A date parseDate accepted is already trimmed: submitting it again gives it back unchanged. */
  lemma ParseDateStable(text: Option<string>, isDate: string -> bool, failure: StaffError)
    ensures var r := ParseDate(text, isDate, failure);
      r.Ok? && r.value.Some? ==> ParseDate(r.value, isDate, failure) == r
  {
    if text.Some? {
      TrimSpaceIdempotent(text.value);
    }
  }

  /** Whichever layout reads it, a time the service accepts has a parse, and text both refuse is ErrShiftTimeFormat. */
  lemma ParseDateTimeFallback(text: string, layouts: DateTimeLayouts, failure: StaffError)
    ensures layouts.rfc3339(text).None? && layouts.local(text).Some? ==>
      ParseDateTime(text, layouts, failure) == Ok(layouts.local(text).value)
    ensures layouts.rfc3339(text).None? && layouts.local(text).None? ==>
      ParseDateTime(text, layouts, failure) == Err(failure)
  {
  }

  // ---------------------------------------------------------------- staff members

  /** With the unique key in place, looking a user's staff record up finds exactly that record. */
  lemma StaffLookupByUserUnique(t: StaffTables, id: int)
    requires OneStaffPerUser(t)
    requires id in t.staff && t.staff[id].userId.Some?
    ensures StaffLookupByUser(t, t.staff[id].userId.value) == Ok(t.staff[id])
  {
    var userId := t.staff[id].userId.value;
    assert HasStaffFor(t, userId) by {
      assert id in t.staff && t.staff[id].userId == Some(userId);
    }
    var r := StaffLookupByUser(t, userId);
    var other :| other in t.staff && t.staff[other] == r.value;
    assert other == id;
  }

  /** The requests CreateStaffMember accepts. */
  predicate NewStaffValid(t: StaffTables, req: CreateStaffMemberRequest, isDate: string -> bool) {
    && req.userId in t.users
    && !HasStaffFor(t, req.userId)
    && ParseDate(req.hireDate, isDate, HireDateFormat).Ok?
    && req.position.Some? && TrimSpace(req.position.value) != ""
    && (req.salary.Some? ==> req.salary.value >= 0)
  }

  /** CreateStaffMember's errors in order, and the row it stores. */
  lemma CreateStaffMemberOutcome(t: StaffTables, req: CreateStaffMemberRequest, isDate: string -> bool, now: Time)
    ensures var o := CreateStaffMemberSpec(t, req, isDate, now);
      && (o.result.Ok? <==> NewStaffValid(t, req, isDate))
      && (req.userId in t.users && !HasStaffFor(t, req.userId) && ParseDate(req.hireDate, isDate, HireDateFormat).Err? ==>
            o.result == Err(HireDateFormat))
      && ((req.userId in t.users && !HasStaffFor(t, req.userId) && ParseDate(req.hireDate, isDate, HireDateFormat).Ok?
            && !NewStaffValid(t, req, isDate)) ==> o.result == Err(StaffDataValidation))
      && (o.result.Ok? ==>
            var row := o.result.value;
            && o.tables == t.(staff := t.staff[t.nextStaffId := row], nextStaffId := t.nextStaffId + 1)
            && HasAccount(o.tables, row)
            && row.id == t.nextStaffId && row.userId == Some(req.userId)
            && row.phoneNumber == req.phoneNumber && row.address == req.address
            && row.hireDate == ParseDate(req.hireDate, isDate, HireDateFormat).value
            && row.position == req.position && row.salary == req.salary
            && row.createdAt == now && row.updatedAt == now)
  {
    if NewStaffValid(t, req, isDate) {
      var row := StaffMember(
        t.nextStaffId, Some(req.userId), req.phoneNumber, req.address,
        ParseDate(req.hireDate, isDate, HireDateFormat).value, req.position, req.salary, now, now);
      var written := t.(staff := t.staff[row.id := row], nextStaffId := row.id + 1);
      assert StaffById(written, row.id) == Ok(row);
      assert CreateStaffMemberSpec(t, req, isDate, now) == Outcome(written, Ok(row));
    }
  }

  /** CreateStaffMember keeps the invariant: the new row's user account had no staff record. */
  lemma CreateStaffMemberKeeps(t: StaffTables, req: CreateStaffMemberRequest, isDate: string -> bool, now: Time)
    requires StaffInvariant(t)
    ensures StaffInvariant(CreateStaffMemberSpec(t, req, isDate, now).tables)
  {
    var o := CreateStaffMemberSpec(t, req, isDate, now);
    if o.result.Ok? {
      assert NewStaffValid(t, req, isDate);
      InsertStaffKeeps(t, o.result.value);
    }
  }

  /** Storing a new member under the next id, for an existing user account without one, keeps the invariant. */
  lemma InsertStaffKeeps(t: StaffTables, row: StaffMember)
    requires StaffInvariant(t)
    requires row.id == t.nextStaffId && HasAccount(t, row) && !HasStaffFor(t, row.userId.value)
    ensures StaffInvariant(t.(staff := t.staff[row.id := row], nextStaffId := t.nextStaffId + 1))
  {
  }

  /** The updates UpdateStaffMember accepts. */
  predicate StaffUpdateValid(req: UpdateStaffMemberRequest, isDate: string -> bool) {
    && (req.hireDate.Some? ==> ParseDate(req.hireDate, isDate, HireDateFormat).Ok?)
    && (req.position.Some? ==> TrimSpace(req.position.value) != "")
    && (req.salary.Some? ==> req.salary.value >= 0)
  }

  /**
   * UpdateStaffMember: accepted exactly for an existing member with a user
   * account and a valid request (a member without one fails the lookup's
   * scan); each field absent from the request keeps its value, a blank
   * hire date clears it, and the account link and creation time never change.
   */
  lemma UpdateStaffMemberOutcome(t: StaffTables, id: int, req: UpdateStaffMemberRequest, isDate: string -> bool, now: Time)
    requires StaffWf(t)
    ensures var o := UpdateStaffMemberSpec(t, id, req, isDate, now);
      && (o.result.Ok? <==> id in t.staff && HasAccount(t, t.staff[id]) && StaffUpdateValid(req, isDate))
      && (id !in t.staff ==> o.result == Err(StaffNotFound))
      && (id in t.staff && !HasAccount(t, t.staff[id]) ==> o.result == Err(Repository(DatabaseError(StaffScanFault))))
      && (o.result.Err? ==> o.tables == t)
      && (o.result.Err? ==>
            o.result.error in {StaffNotFound, Repository(DatabaseError(StaffScanFault)), HireDateFormat, StaffDataValidation})
      && (o.result.Ok? ==>
            var stored := t.staff[id];
            var row := o.result.value;
            && o.tables == t.(staff := t.staff[id := row])
            && row.id == id && row.userId == stored.userId && row.createdAt == stored.createdAt
            && row.updatedAt == now
            && row.phoneNumber == req.phoneNumber.Or(stored.phoneNumber)
            && row.address == req.address.Or(stored.address)
            && row.position == req.position.Or(stored.position)
            && row.salary == req.salary.Or(stored.salary)
            && (req.hireDate.None? ==> row.hireDate == stored.hireDate)
            && (req.hireDate.Some? && TrimSpace(req.hireDate.value) == "" ==> row.hireDate == None)
            && (req.hireDate.Some? && TrimSpace(req.hireDate.value) != "" ==>
                  row.hireDate == Some(TrimSpace(req.hireDate.value))))
  {
  }

  /** UpdateStaffMember keeps the invariant: it never touches the account link. */
  lemma UpdateStaffMemberKeeps(t: StaffTables, id: int, req: UpdateStaffMemberRequest, isDate: string -> bool, now: Time)
    requires StaffInvariant(t)
    ensures StaffInvariant(UpdateStaffMemberSpec(t, id, req, isDate, now).tables)
  {
    UpdateStaffMemberOutcome(t, id, req, isDate, now);
    var o := UpdateStaffMemberSpec(t, id, req, isDate, now);
    if o.result.Ok? {
      var n := o.tables;
      forall a | a in n.staff ensures n.staff[a].userId == t.staff[a].userId {
      }
    }
  }

  /**
   * The text of a refused delete contains the foreign-key phrase exactly
   * when the constraint's own name does: nothing else in it has a 'v'.
   */
  lemma StaffInUseReasonPhrase(id: int, c: string)
    ensures Contains(StaffInUseReason(id, c), ForeignKeyPhrase) <==> Contains(c, ForeignKeyPhrase)
  {
    var head := "staff member ID " + FormatInt(id) + " cannot be deleted as they" + " are referenced in other"
      + " records (constraint: ";
    assert StaffInUseReason(id, c) == head + c + ")";
    NoVInHead(id);
    ContainsWithin(head, c, ")", ForeignKeyPhrase);
    ContainsOnlyWithin(head, c, ForeignKeyPhrase);
  }

  /** The fixed part of the refusal text, and the printed id, have no 'v'. */
  lemma NoVInHead(id: int)
    ensures Lacks("staff member ID " + FormatInt(id) + " cannot be deleted as they" + " are referenced in other"
      + " records (constraint: ", 'v')
  {
    var digits := FormatInt(id);
    assert Lacks(digits, 'v') by {
      if id >= 0 {
        assert digits == FormatNat(id);
      } else {
        assert digits == "-" + FormatNat(-id);
        assert Lacks("-", 'v');
        LacksJoin("-", FormatNat(-id), 'v');
      }
    }
    assert Lacks("staff member ID ", 'v');
    assert Lacks(" cannot be deleted as they", 'v');
    assert Lacks(" are referenced in other", 'v');
    assert Lacks(" records (constraint: ", 'v');
    LacksJoin("staff member ID ", digits, 'v');
    LacksJoin("staff member ID " + digits, " cannot be deleted as they", 'v');
    LacksJoin("staff member ID " + digits + " cannot be deleted as they", " are referenced in other", 'v');
    LacksJoin("staff member ID " + digits + " cannot be deleted as they" + " are referenced in other",
      " records (constraint: ", 'v');
  }

  /**
   * DeleteStaffMember of a referenced member: a member without a user
   * account already fails the lookup's scan; otherwise ErrStaffInUse only
   * when the constraint's name itself holds the foreign-key phrase, and
   * else the repository's error is passed on.
   */
  lemma DeleteReferencedStaff(t: StaffTables, id: int)
    requires id in t.staff && Referencing(t, id).Some?
    ensures var c := Referencing(t, id).value;
      DeleteStaffMemberSpec(t, id) == Outcome(t, Err(
        if !HasAccount(t, t.staff[id]) then Repository(DatabaseError(StaffScanFault))
        else if Contains(c, ForeignKeyPhrase) then StaffInUse
        else Repository(DatabaseError(StaffInUseReason(id, c)))))
  {
    StaffInUseReasonPhrase(id, Referencing(t, id).value);
  }

  /**
   * A staff member with a shift cannot be deleted, and the refusal is not
   * reported as ErrStaffInUse: it is the repository's foreign-key error, or
   * the lookup's scan fault for a member without a user account.
   */
  lemma DeleteStaffWithShift(t: StaffTables, id: int)
    requires id in t.staff && HasShifts(t, id)
    ensures DeleteStaffMemberSpec(t, id) == Outcome(t, Err(Repository(DatabaseError(
      if HasAccount(t, t.staff[id]) then StaffInUseReason(id, ShiftStaffConstraint) else StaffScanFault))))
  {
    DeleteReferencedStaff(t, id);
    assert !Contains(ShiftStaffConstraint, ForeignKeyPhrase) by {
      assert |ShiftStaffConstraint| < |ForeignKeyPhrase|;
    }
  }

  /** DeleteStaffMember keeps the invariant: a member with shifts is never removed. */
  lemma DeleteStaffMemberKeeps(t: StaffTables, id: int)
    requires StaffInvariant(t)
    ensures StaffInvariant(DeleteStaffMemberSpec(t, id).tables)
  {
    var o := DeleteStaffMemberSpec(t, id);
    if o.result.Ok? {
      forall sid | sid in t.shifts ensures t.shifts[sid].staffId != id {
        assert !HasShifts(t, id);
      }
    }
  }

  // ---------------------------------------------------------------- shifts

  /**
   * CreateShift's errors in order: the times, the interval, then the staff
   * lookup (no row is ErrStaffNotFound, a member without a user account the
   * scan fault), all writing nothing; a valid request for a member the
   * lookup finds writes the row and returns it.
   */
  lemma CreateShiftOutcome(t: StaffTables, req: CreateShiftRequest, layouts: DateTimeLayouts, now: Time)
    ensures var o := CreateShiftSpec(t, req, layouts, now);
      var start := ParseDateTime(req.startTime, layouts, ShiftTimeFormat);
      var end := ParseDateTime(req.endTime, layouts, ShiftTimeFormat);
      && (start.Err? || end.Err? ==> o == Outcome(t, Err(ShiftTimeFormat)))
      && (start.Ok? && end.Ok? && !ValidShift(start.value, end.value) ==> o == Outcome(t, Err(ShiftValidation)))
      && (start.Ok? && end.Ok? && ValidShift(start.value, end.value) && req.staffId !in t.staff ==>
            o == Outcome(t, Err(StaffNotFound)))
      && (start.Ok? && end.Ok? && ValidShift(start.value, end.value) && req.staffId in t.staff
            && !HasAccount(t, t.staff[req.staffId]) ==>
            o == Outcome(t, Err(Repository(DatabaseError(StaffScanFault)))))
      && (start.Ok? && end.Ok? && ValidShift(start.value, end.value) && req.staffId in t.staff
            && HasAccount(t, t.staff[req.staffId]) ==>
            var row := Shift(t.nextShiftId, req.staffId, start.value, end.value, req.notes, now, now);
            && o.tables == t.(shifts := t.shifts[row.id := row], nextShiftId := row.id + 1)
            && o.result == Ok(row))
  {
  }

  /** CreateShift keeps the invariant: only valid intervals of existing members are written. */
  lemma CreateShiftKeeps(t: StaffTables, req: CreateShiftRequest, layouts: DateTimeLayouts, now: Time)
    requires StaffInvariant(t)
    ensures StaffInvariant(CreateShiftSpec(t, req, layouts, now).tables)
  {
    CreateShiftOutcome(t, req, layouts, now);
  }

  /**
   * UpdateShift of a shift it can read: supplied endpoints replace the
   * stored ones, the merged interval is checked again, notes change only
   * if supplied, and the member and creation time stay.
   */
  lemma UpdateShiftOutcome(t: StaffTables, id: int, req: UpdateShiftRequest, layouts: DateTimeLayouts, now: Time)
    requires StaffWf(t) && ShiftById(t, id).Ok?
    ensures var o := UpdateShiftSpec(t, id, req, layouts, now);
      var stored := t.shifts[id];
      var start := Endpoint(req.startTime, stored.startTime, layouts);
      var end := Endpoint(req.endTime, stored.endTime, layouts);
      && (o.result.Ok? <==> start.Ok? && end.Ok? && ValidShift(start.value, end.value))
      && (o.result.Err? ==> o.tables == t && o.result.error in {ShiftTimeFormat, ShiftValidation})
      && (o.result.Ok? ==>
            var row := o.result.value;
            && o.tables == t.(shifts := t.shifts[id := row])
            && row.id == id && row.staffId == stored.staffId && row.createdAt == stored.createdAt
            && row.updatedAt == now
            && row.startTime == start.value && row.endTime == end.value
            && row.notes == req.notes.Or(stored.notes))
  {
    var stored := t.shifts[id];
    var m := ShiftMerged(stored, req, layouts);
    if m.Ok? {
      assert m.value.id == id && m.value.staffId == stored.staffId;
      var row := ShiftWritten(t, m.value, now);
      var written := t.(shifts := t.shifts[id := row]);
      assert ShiftVisible(written, row);
    }
  }

  /**
   * An update that supplies no times re-checks the stored interval: it is
   * accepted exactly when the stored shift is valid, so on tables that keep
   * the invariant it always is.
   */
  lemma NotesOnlyUpdate(t: StaffTables, id: int, notes: Option<string>, layouts: DateTimeLayouts, now: Time)
    requires StaffWf(t) && ShiftById(t, id).Ok?
    ensures UpdateShiftSpec(t, id, UpdateShiftRequest(None, None, notes), layouts, now).result.Ok?
      <==> ValidShift(t.shifts[id].startTime, t.shifts[id].endTime)
    ensures ShiftsValid(t) ==> UpdateShiftSpec(t, id, UpdateShiftRequest(None, None, notes), layouts, now).result.Ok?
  {
    UpdateShiftOutcome(t, id, UpdateShiftRequest(None, None, notes), layouts, now);
  }

  /** UpdateShift keeps the invariant: the merged interval is valid and the member unchanged. */
  lemma UpdateShiftKeeps(t: StaffTables, id: int, req: UpdateShiftRequest, layouts: DateTimeLayouts, now: Time)
    requires StaffInvariant(t)
    ensures StaffInvariant(UpdateShiftSpec(t, id, req, layouts, now).tables)
  {
    if ShiftById(t, id).Ok? {
      UpdateShiftOutcome(t, id, req, layouts, now);
    }
  }

  /**
   * A shift whose member has no user account can be neither updated nor
   * deleted: both report ErrShiftNotFound. The service's own writes never
   * produce such a shift (`LinkedStaffFound`).
   */
  lemma HiddenShiftUntouchable(t: StaffTables, id: int, req: UpdateShiftRequest, layouts: DateTimeLayouts, now: Time)
    requires id in t.shifts && !ShiftVisible(t, t.shifts[id])
    ensures UpdateShiftSpec(t, id, req, layouts, now) == Outcome(t, Err(ShiftNotFound))
    ensures DeleteShiftSpec(t, id) == Outcome(t, Err(ShiftNotFound))
  {
  }

  /** DeleteShift keeps the invariant. */
  lemma DeleteShiftKeeps(t: StaffTables, id: int)
    requires StaffInvariant(t)
    ensures StaffInvariant(DeleteShiftSpec(t, id).tables)
  {
  }

  /**
   * GetShifts: pages default to 1 and 10, blank filters are no filters, and
   * with both filters present `to` must come after `from`.
   */
  lemma ShiftFilterOutcome(
    staffId: Option<int>, fromText: Option<string>, toText: Option<string>, page: int, pageSize: int,
    layouts: DateTimeLayouts)
    ensures var r := ShiftFilterSpec(staffId, fromText, toText, page, pageSize, layouts);
      var from := FilterTime(fromText, layouts);
      var to := FilterTime(toText, layouts);
      && (r.Ok? <==> from.Ok? && to.Ok? && (from.value.Some? && to.value.Some? ==> from.value.value < to.value.value))
      && (r == Err(ShiftValidation) <==>
            from.Ok? && to.Ok? && from.value.Some? && to.value.Some? && to.value.value <= from.value.value)
      && (r.Err? && r.error != ShiftValidation ==> r.error == ShiftTimeFormat)
      && (r.Ok? ==>
            r.value.from == from.value && r.value.to == to.value && r.value.page >= 1 && r.value.pageSize >= 1)
  {
  }
}
