/**
 * The staff service: staff members (an employee record tied to at most
 * one user account) and their work shifts. The service validates requests,
 * merges partial updates into the stored record, and maps repository
 * errors onto its own. It runs its statements on the database directly,
 * without a transaction, so a write stays even when the read-back after it
 * fails.
 */
module StaffService {
  import opened Wrappers
  import opened Store
  import opened GoStrings
  import Query

  // ---------------------------------------------------------------- data

  /** A row of staff_members; `salary` is in cents. */
  datatype StaffMember = StaffMember(
    id: int, userId: Option<int>, phoneNumber: Option<string>, address: Option<string>,
    hireDate: Option<string>, position: Option<string>, salary: Option<int>,
    createdAt: Time, updatedAt: Time)

  /** A row of shifts. */
  datatype Shift = Shift(
    id: int, staffId: int, startTime: Time, endTime: Time, notes: Option<string>,
    createdAt: Time, updatedAt: Time)

  /**
   * What the staff service sees of the database: the ids of the user
   * accounts, the staff members and shifts by id, and, for each staff
   * member that rows of tables outside this model (bookings, orders,
   * movements) refer to, the name of the foreign-key constraint a delete
   * of that member violates.
   */
  datatype StaffTables = StaffTables(
    users: set<int>, staff: map<int, StaffMember>, shifts: map<int, Shift>,
    references: map<int, string>, nextStaffId: int, nextShiftId: int)

  /** The service's errors; `Repository` passes a repository error on unchanged. */
  datatype StaffError =
    | StaffNotFound
    | UserForStaffNotFound
    | StaffUserConflict
    | ShiftNotFound
    | ShiftValidation
    | StaffDataValidation
    | HireDateFormat
    | ShiftTimeFormat
    | StaffInUse
    | Repository(error: RepoError)

  /** The tables after an operation (written even when the result is an error) and its result. */
  datatype Outcome<T> = Outcome(tables: StaffTables, result: Result<T, StaffError>)

  datatype CreateStaffMemberRequest = CreateStaffMemberRequest(
    userId: int, phoneNumber: Option<string>, address: Option<string>, hireDate: Option<string>,
    position: Option<string>, salary: Option<int>)

  /** An update request; an absent field keeps the stored value. */
  datatype UpdateStaffMemberRequest = UpdateStaffMemberRequest(
    phoneNumber: Option<string>, address: Option<string>, hireDate: Option<string>,
    position: Option<string>, salary: Option<int>)

  datatype CreateShiftRequest = CreateShiftRequest(
    staffId: int, startTime: string, endTime: string, notes: Option<string>)

  datatype UpdateShiftRequest = UpdateShiftRequest(
    startTime: Option<string>, endTime: Option<string>, notes: Option<string>)

  /**
   * time.Parse with the two layouts parseDateTime tries in turn: RFC 3339
   * (section 5.6 of RFC 3339), then "2006-01-02T15:04:05" read as UTC.
   */
  datatype DateTimeLayouts = DateTimeLayouts(rfc3339: string -> Option<Time>, local: string -> Option<Time>)

  // ---------------------------------------------------------------- parsing

  /**
   * parseDate: an absent or blank date is no date; otherwise the trimmed
   * text, if `isDate` (time.Parse with the "2006-01-02" layout) accepts it,
   * else `failure`.
   */
  function ParseDate(text: Option<string>, isDate: string -> bool, failure: StaffError)
    : (r: Result<Option<string>, StaffError>)
    ensures r == Ok(None) <==> text.None? || TrimSpace(text.value) == ""
    ensures r.Err? <==> text.Some? && TrimSpace(text.value) != "" && !isDate(TrimSpace(text.value))
    ensures r.Err? ==> r.error == failure
    ensures r.Ok? && r.value.Some? ==>
      text.Some? && r.value.value == TrimSpace(text.value) && r.value.value != "" && isDate(r.value.value)
  {
    if text.None? || TrimSpace(text.value) == "" then Ok(None)
    else
      var date := TrimSpace(text.value);
      if isDate(date) then Ok(Some(date)) else Err(failure)
  }

  /** parseDateTime: RFC 3339 first; only text it refuses is tried with the zone-less layout. */
  function ParseDateTime(text: string, layouts: DateTimeLayouts, failure: StaffError): (r: Result<Time, StaffError>)
    ensures r.Ok? <==> layouts.rfc3339(text).Some? || layouts.local(text).Some?
    ensures layouts.rfc3339(text).Some? ==> r == Ok(layouts.rfc3339(text).value)
    ensures layouts.rfc3339(text).None? && r.Ok? ==> r == Ok(layouts.local(text).value)
    ensures r.Err? ==> r.error == failure
  {
    match layouts.rfc3339(text)
    case Some(t) => Ok(t)
    case None =>
      match layouts.local(text)
      case Some(t) => Ok(t)
      case None => Err(failure)
  }

  /** A shift the service accepts: it ends after it starts and lasts at most 24 hours. */
  predicate ValidShift(start: Time, end: Time) {
    start < end && end - start <= 24 * Hour
  }

  /** The two interval checks CreateShift and UpdateShift make, in order. */
  function ShiftInterval(start: Time, end: Time): (r: Result<(), StaffError>)
    ensures r.Ok? <==> ValidShift(start, end)
    ensures r.Err? ==> r.error == ShiftValidation
  {
    if !(end > start) then Err(ShiftValidation)
    else if end - start > 24 * Hour then Err(ShiftValidation)
    else Ok(())
  }

  /** A repository error passed on unchanged, as the service's final read-backs do. */
  function ReadBack<T>(r: Result<T, RepoError>): (s: Result<T, StaffError>)
    ensures r.Ok? <==> s.Ok?
    ensures r.Ok? ==> s.value == r.value
    ensures r.Err? ==> s.error == Repository(r.error)
  {
    match r
    case Ok(v) => Ok(v)
    case Err(e) => Err(Repository(e))
  }

  // ---------------------------------------------------------------- lookups

  /** The member's user account is there for the LEFT JOIN with users to find. */
  predicate HasAccount(t: StaffTables, s: StaffMember) {
    s.userId.Some? && s.userId.value in t.users
  }

  /**
   * The repository's GetStaffMemberByID: NotFound without the row; a row
   * whose member has no user account does not scan (the joined user
   * columns are NULL), a database error.
   */
  function StaffById(t: StaffTables, id: int): (r: Result<StaffMember, RepoError>)
    ensures r.Ok? <==> id in t.staff && HasAccount(t, t.staff[id])
    ensures r.Ok? ==> r.value == t.staff[id]
    ensures id !in t.staff ==> r == Err(NotFound)
    ensures id in t.staff && !HasAccount(t, t.staff[id]) ==> r == Err(DatabaseError(StaffScanFault))
  {
    if id !in t.staff then Err(NotFound)
    else if !HasAccount(t, t.staff[id]) then Err(DatabaseError(StaffScanFault))
    else Ok(t.staff[id])
  }

  /**
   * The lookup that opens GetStaffMemberByID, UpdateStaffMember,
   * DeleteStaffMember and CreateShift: the repository's NotFound becomes
   * ErrStaffNotFound, any other error is passed on.
   */
  function StaffLookup(t: StaffTables, id: int): (r: Result<StaffMember, StaffError>)
    ensures r.Ok? <==> id in t.staff && HasAccount(t, t.staff[id])
    ensures r.Ok? ==> r.value == t.staff[id]
    ensures id !in t.staff ==> r == Err(StaffNotFound)
    ensures id in t.staff && !HasAccount(t, t.staff[id]) ==> r == Err(Repository(DatabaseError(StaffScanFault)))
  {
    match StaffById(t, id)
    case Ok(s) => Ok(s)
    case Err(e) => if e == NotFound then Err(StaffNotFound) else Err(Repository(e))
  }

  /** Some staff member is tied to user account `userId`. */
  predicate HasStaffFor(t: StaffTables, userId: int) {
    exists id :: id in t.staff && t.staff[id].userId == Some(userId)
  }

  /** GetStaffMemberByUserID: a staff member tied to the user account, or ErrStaffNotFound. */
  ghost function StaffLookupByUser(t: StaffTables, userId: int): (r: Result<StaffMember, StaffError>)
    ensures r.Err? <==> !HasStaffFor(t, userId)
    ensures r.Err? ==> r.error == StaffNotFound
    ensures r.Ok? ==> r.value.userId == Some(userId) && exists id :: id in t.staff && t.staff[id] == r.value
  {
    if HasStaffFor(t, userId) then
      var id :| id in t.staff && t.staff[id].userId == Some(userId);
      Ok(t.staff[id])
    else Err(StaffNotFound)
  }

  /**
   * The repository reads a shift through inner joins with its staff member
   * and that member's user account: a shift whose member has no account
   * is not found.
   */
  predicate ShiftVisible(t: StaffTables, s: Shift) {
    s.staffId in t.staff && HasAccount(t, t.staff[s.staffId])
  }

  /** The repository's GetShiftByID. */
  function ShiftById(t: StaffTables, id: int): (r: Result<Shift, RepoError>)
    ensures r.Ok? <==> id in t.shifts && ShiftVisible(t, t.shifts[id])
    ensures r.Ok? ==> r.value == t.shifts[id]
    ensures r.Err? ==> r.error == NotFound
  {
    if id in t.shifts && ShiftVisible(t, t.shifts[id]) then Ok(t.shifts[id]) else Err(NotFound)
  }

  /** The service's GetShiftByID: the repository's not-found becomes ErrShiftNotFound. */
  function ShiftLookup(t: StaffTables, id: int): (r: Result<Shift, StaffError>)
    ensures r.Err? <==> ShiftById(t, id).Err?
    ensures r.Err? ==> r.error == ShiftNotFound
    ensures r.Ok? ==> r.value == t.shifts[id]
  {
    match ShiftById(t, id)
    case Ok(s) => Ok(s)
    case Err(_) => Err(ShiftNotFound)
  }

  // ---------------------------------------------------------------- staff members

  /**
   * CreateStaffMember: the user account must exist and have no staff
   * record; then the hire date must parse, the position must not be blank
   * and the salary must not be negative. The row gets the next id and is
   * read back, which finds it: its user account exists.
   */
  function CreateStaffMemberSpec(t: StaffTables, req: CreateStaffMemberRequest, isDate: string -> bool, now: Time)
    : (o: Outcome<StaffMember>)
    ensures o.result.Err? ==> o.tables == t
    ensures req.userId !in t.users ==> o.result == Err(UserForStaffNotFound)
    ensures req.userId in t.users && HasStaffFor(t, req.userId) ==> o.result == Err(StaffUserConflict)
    ensures o.result.Ok? ==> HasAccount(o.tables, o.result.value)
  {
    if req.userId !in t.users then Outcome(t, Err(UserForStaffNotFound))
    else if HasStaffFor(t, req.userId) then Outcome(t, Err(StaffUserConflict))
    else
      match ParseDate(req.hireDate, isDate, HireDateFormat)
      case Err(e) => Outcome(t, Err(e))
      case Ok(hireDate) =>
        if req.position.None? || TrimSpace(req.position.value) == "" then Outcome(t, Err(StaffDataValidation))
        else if req.salary.Some? && req.salary.value < 0 then Outcome(t, Err(StaffDataValidation))
        else
          var row := StaffMember(
            t.nextStaffId, Some(req.userId), req.phoneNumber, req.address, hireDate,
            req.position, req.salary, now, now);
          var written := t.(staff := t.staff[row.id := row], nextStaffId := row.id + 1);
          Outcome(written, ReadBack(StaffById(written, row.id)))
  }

  /**
   * UpdateStaffMember's merge of a request into the fetched record, with
   * its checks in order: the hire date (a blank one clears it), a blank
   * position, a negative salary.
   */
  function StaffMerged(stored: StaffMember, req: UpdateStaffMemberRequest, isDate: string -> bool)
    : (r: Result<StaffMember, StaffError>)
    ensures r.Err? ==> r.error in {HireDateFormat, StaffDataValidation}
    ensures r.Ok? ==> r.value.id == stored.id && r.value.userId == stored.userId
  {
    var hireDate := if req.hireDate.Some? then ParseDate(req.hireDate, isDate, HireDateFormat) else Ok(stored.hireDate);
    if hireDate.Err? then Err(hireDate.error)
    else if req.position.Some? && TrimSpace(req.position.value) == "" then Err(StaffDataValidation)
    else if req.salary.Some? && req.salary.value < 0 then Err(StaffDataValidation)
    else
      Ok(stored.(
        phoneNumber := req.phoneNumber.Or(stored.phoneNumber),
        address := req.address.Or(stored.address),
        hireDate := hireDate.value,
        position := req.position.Or(stored.position),
        salary := req.salary.Or(stored.salary)))
  }

  /** The repository's UPDATE: the five editable columns and updated_at of row `s.id`. */
  function StaffWritten(t: StaffTables, s: StaffMember, now: Time): (row: StaffMember)
    requires s.id in t.staff
  {
    t.staff[s.id].(
      phoneNumber := s.phoneNumber, address := s.address, hireDate := s.hireDate,
      position := s.position, salary := s.salary, updatedAt := now)
  }

  /**
   * UpdateStaffMember: look up, merge, write, read back; a row gone by the
   * write is ErrStaffNotFound. Only a failed read-back leaves a write
   * behind; on tables whose rows sit under their own id it finds the row.
   */
  function UpdateStaffMemberSpec(t: StaffTables, id: int, req: UpdateStaffMemberRequest, isDate: string -> bool, now: Time)
    : (o: Outcome<StaffMember>)
    ensures o.result.Err? && !o.result.error.Repository? ==> o.tables == t
    ensures StaffLookup(t, id).Err? ==> o.result == Err(StaffLookup(t, id).error)
  {
    match StaffLookup(t, id)
    case Err(e) => Outcome(t, Err(e))
    case Ok(stored) =>
      match StaffMerged(stored, req, isDate)
      case Err(e) => Outcome(t, Err(e))
      case Ok(s) =>
        if s.id !in t.staff then Outcome(t, Err(StaffNotFound))
        else
          var written := t.(staff := t.staff[s.id := StaffWritten(t, s, now)]);
          Outcome(written, ReadBack(StaffById(written, s.id)))
  }

  /** The name PostgreSQL gives the foreign key of shifts.staff_id by default. */
  const ShiftStaffConstraint: string := "shifts_staff_id_fkey"

  /** Some shift belongs to staff member `id`. */
  predicate HasShifts(t: StaffTables, id: int) {
    exists sid :: sid in t.shifts && t.shifts[sid].staffId == id
  }

  /** The foreign-key constraint deleting staff member `id` violates, if any. */
  function Referencing(t: StaffTables, id: int): (c: Option<string>)
    ensures c.None? <==> !HasShifts(t, id) && id !in t.references
  {
    if HasShifts(t, id) then Some(ShiftStaffConstraint)
    else if id in t.references then Some(t.references[id])
    else None
  }

  /** The text of the repository's refusal to delete a referenced staff member (after "database error: "). */
  function StaffInUseReason(id: int, constraint: string): string {
    "staff member ID " + FormatInt(id) + " cannot be deleted as they" + " are referenced in other"
    + " records (constraint: " + constraint + ")"
  }

  /** The repository's DeleteStaffMember. */
  function StaffDeleted(t: StaffTables, id: int): (r: Result<StaffTables, RepoError>)
    ensures r.Ok? <==> id in t.staff && Referencing(t, id).None?
    ensures r.Ok? ==> r.value == t.(staff := t.staff - {id})
    ensures id in t.staff && Referencing(t, id).Some? ==>
      r == Err(DatabaseError(StaffInUseReason(id, Referencing(t, id).value)))
  {
    if id !in t.staff then Err(NotFound)
    else
      match Referencing(t, id)
      case Some(c) => Err(DatabaseError(StaffInUseReason(id, c)))
      case None => Ok(t.(staff := t.staff - {id}))
  }

  /** How DeleteStaffMember reports the repository's refusal: by the foreign-key phrase in its text. */
  function DeleteStaffError(e: RepoError): (r: StaffError)
    ensures r == StaffNotFound <==> e == NotFound
    ensures r == StaffInUse <==> e.DatabaseError? && Contains(e.reason, ForeignKeyPhrase)
  {
    if e == NotFound then StaffNotFound
    else if e.DatabaseError? && Contains(e.reason, ForeignKeyPhrase) then StaffInUse
    else Repository(e)
  }

  /** DeleteStaffMember: the lookup, then the repository's delete. */
  function DeleteStaffMemberSpec(t: StaffTables, id: int): (o: Outcome<()>)
    ensures o.result.Err? ==> o.tables == t
    ensures StaffLookup(t, id).Err? ==> o.result == Err(StaffLookup(t, id).error)
    ensures o.result.Ok? <==> StaffLookup(t, id).Ok? && Referencing(t, id).None?
    ensures o.result.Ok? ==> o.tables == t.(staff := t.staff - {id})
  {
    match StaffLookup(t, id)
    case Err(e) => Outcome(t, Err(e))
    case Ok(_) =>
      match StaffDeleted(t, id)
      case Ok(after) => Outcome(after, Ok(()))
      case Err(e) => Outcome(t, Err(DeleteStaffError(e)))
  }

  // ---------------------------------------------------------------- shifts

  /**
   * CreateShift: both times must parse and make a valid interval, and the
   * staff member's lookup must succeed; then the row is written and read
   * back through the joins, which find it, as the lookup found its member.
   */
  function CreateShiftSpec(t: StaffTables, req: CreateShiftRequest, layouts: DateTimeLayouts, now: Time)
    : (o: Outcome<Shift>)
    ensures o.tables != t ==> o.tables.shifts.Keys == t.shifts.Keys + {t.nextShiftId}
    ensures o.result.Err? ==> o.tables == t
  {
    match ParseDateTime(req.startTime, layouts, ShiftTimeFormat)
    case Err(e) => Outcome(t, Err(e))
    case Ok(start) =>
      match ParseDateTime(req.endTime, layouts, ShiftTimeFormat)
      case Err(e) => Outcome(t, Err(e))
      case Ok(end) =>
        match ShiftInterval(start, end)
        case Err(e) => Outcome(t, Err(e))
        case Ok(_) =>
          match StaffLookup(t, req.staffId)
          case Err(e) => Outcome(t, Err(e))
          case Ok(_) =>
            var row := Shift(t.nextShiftId, req.staffId, start, end, req.notes, now, now);
            var written := t.(shifts := t.shifts[row.id := row], nextShiftId := row.id + 1);
            Outcome(written, ReadBack(ShiftById(written, row.id)))
  }

  /** An endpoint of UpdateShift: the parsed text if supplied, else the stored instant. */
  function Endpoint(text: Option<string>, stored: Time, layouts: DateTimeLayouts): (r: Result<Time, StaffError>)
    ensures text.None? ==> r == Ok(stored)
    ensures r.Err? ==> r.error == ShiftTimeFormat
  {
    if text.None? then Ok(stored) else ParseDateTime(text.value, layouts, ShiftTimeFormat)
  }

  /** UpdateShift's merge: new endpoints over the stored ones, the interval re-checked, notes if supplied. */
  function ShiftMerged(stored: Shift, req: UpdateShiftRequest, layouts: DateTimeLayouts): (r: Result<Shift, StaffError>)
    ensures r.Err? ==> r.error in {ShiftTimeFormat, ShiftValidation}
    ensures r.Ok? ==> ValidShift(r.value.startTime, r.value.endTime)
  {
    match Endpoint(req.startTime, stored.startTime, layouts)
    case Err(e) => Err(e)
    case Ok(start) =>
      match Endpoint(req.endTime, stored.endTime, layouts)
      case Err(e) => Err(e)
      case Ok(end) =>
        match ShiftInterval(start, end)
        case Err(e) => Err(e)
        case Ok(_) => Ok(stored.(startTime := start, endTime := end, notes := req.notes.Or(stored.notes)))
  }

  /** The repository's UPDATE of row `s.id`. */
  function ShiftWritten(t: StaffTables, s: Shift, now: Time): (row: Shift)
    requires s.id in t.shifts
  {
    t.shifts[s.id].(staffId := s.staffId, startTime := s.startTime, endTime := s.endTime, notes := s.notes, updatedAt := now)
  }

  /** UpdateShift: look up, merge, write, read back. */
  function UpdateShiftSpec(t: StaffTables, id: int, req: UpdateShiftRequest, layouts: DateTimeLayouts, now: Time)
    : (o: Outcome<Shift>)
    ensures ShiftById(t, id).Err? ==> o == Outcome(t, Err(ShiftNotFound))
  {
    match ShiftLookup(t, id)
    case Err(e) => Outcome(t, Err(e))
    case Ok(stored) =>
      match ShiftMerged(stored, req, layouts)
      case Err(e) => Outcome(t, Err(e))
      case Ok(s) =>
        if s.id !in t.shifts then Outcome(t, Err(ShiftNotFound))
        else
          var written := t.(shifts := t.shifts[s.id := ShiftWritten(t, s, now)]);
          Outcome(written, ReadBack(ShiftById(written, s.id)))
  }

  /** DeleteShift: the lookup goes through the joins, then the row is removed. */
  function DeleteShiftSpec(t: StaffTables, id: int): (o: Outcome<()>)
    ensures o.result.Ok? <==> ShiftById(t, id).Ok?
    ensures o.result.Err? ==> o == Outcome(t, Err(ShiftNotFound))
    ensures o.result.Ok? ==> o.tables == t.(shifts := t.shifts - {id})
  {
    match ShiftLookup(t, id)
    case Err(e) => Outcome(t, Err(e))
    case Ok(_) => Outcome(t.(shifts := t.shifts - {id}), Ok(()))
  }

  /** The arguments GetShifts hands the repository's listing. */
  datatype ShiftFilter = ShiftFilter(staffId: Option<int>, from: Option<Time>, to: Option<Time>, page: int, pageSize: int)

  /** A time filter of GetShifts: absent or blank is no filter, otherwise it must parse. */
  function FilterTime(text: Option<string>, layouts: DateTimeLayouts): (r: Result<Option<Time>, StaffError>)
    ensures r == Ok(None) <==> text.None? || TrimSpace(text.value) == ""
    ensures r.Err? ==> r.error == ShiftTimeFormat
  {
    if text.None? || TrimSpace(text.value) == "" then Ok(None)
    else
      match ParseDateTime(text.value, layouts, ShiftTimeFormat)
      case Err(e) => Err(e)
      case Ok(at) => Ok(Some(at))
  }

  /** GetShifts before the listing: page defaults, the two filters parsed, and `to` after `from`. */
  function ShiftFilterSpec(
    staffId: Option<int>, fromText: Option<string>, toText: Option<string>, page: int, pageSize: int,
    layouts: DateTimeLayouts): (r: Result<ShiftFilter, StaffError>)
    ensures r.Ok? ==> r.value.staffId == staffId && (r.value.page, r.value.pageSize) == Query.PageDefaults(page, pageSize)
  {
    var (p, size) := Query.PageDefaults(page, pageSize);
    match FilterTime(fromText, layouts)
    case Err(e) => Err(e)
    case Ok(from) =>
      match FilterTime(toText, layouts)
      case Err(e) => Err(e)
      case Ok(to) =>
        if from.Some? && to.Some? && !(to.value > from.value) then Err(ShiftValidation)
        else Ok(ShiftFilter(staffId, from, to, p, size))
  }

  // ---------------------------------------------------------------- the store

  /** The staff service's database. */
  class StaffStore {
    var users: set<int>
    var staff: map<int, StaffMember>
    var shifts: map<int, Shift>
    var references: map<int, string>
    var nextStaffId: int
    var nextShiftId: int

    function State(): StaffTables
      reads this
    {
      StaffTables(users, staff, shifts, references, nextStaffId, nextShiftId)
    }

    constructor (t: StaffTables)
      ensures State() == t
    {
      users, staff, shifts, references := t.users, t.staff, t.shifts, t.references;
      nextStaffId, nextShiftId := t.nextStaffId, t.nextShiftId;
    }
  }

  method CreateStaffMember(db: StaffStore, req: CreateStaffMemberRequest, isDate: string -> bool, now: Time)
    returns (r: Result<StaffMember, StaffError>)
    modifies db
    ensures var o := CreateStaffMemberSpec(old(db.State()), req, isDate, now);
      db.State() == o.tables && r == o.result
  {
    if req.userId !in db.users {
      return Err(UserForStaffNotFound);
    }
    if HasStaffFor(db.State(), req.userId) {
      return Err(StaffUserConflict);
    }
    var hireDate := ParseDate(req.hireDate, isDate, HireDateFormat);
    if hireDate.Err? {
      return Err(hireDate.error);
    }
    if req.position.None? || TrimSpace(req.position.value) == "" {
      return Err(StaffDataValidation);
    }
    if req.salary.Some? && req.salary.value < 0 {
      return Err(StaffDataValidation);
    }
    var row := StaffMember(
      db.nextStaffId, Some(req.userId), req.phoneNumber, req.address, hireDate.value,
      req.position, req.salary, now, now);
    ghost var written := db.State().(staff := db.staff[row.id := row], nextStaffId := row.id + 1);
    assert StaffById(written, row.id) == Ok(row);
    db.staff := db.staff[row.id := row];
    db.nextStaffId := row.id + 1;
    assert db.State() == written;
    r := ReadBack(StaffById(db.State(), row.id));
  }

  /** The field-by-field merge of UpdateStaffMember on the fetched record; reads nothing else. */
  method MergeStaff(stored: StaffMember, req: UpdateStaffMemberRequest, isDate: string -> bool)
    returns (r: Result<StaffMember, StaffError>)
    ensures r == StaffMerged(stored, req, isDate)
  {
    var staff := stored;
    if req.phoneNumber.Some? {
      staff := staff.(phoneNumber := req.phoneNumber);
    }
    if req.address.Some? {
      staff := staff.(address := req.address);
    }
    if req.hireDate.Some? {
      var hd := ParseDate(req.hireDate, isDate, HireDateFormat);
      if hd.Err? {
        return Err(hd.error);
      }
      staff := staff.(hireDate := hd.value);
    }
    if req.position.Some? {
      if TrimSpace(req.position.value) == "" {
        return Err(StaffDataValidation);
      }
      staff := staff.(position := req.position);
    }
    if req.salary.Some? {
      if req.salary.value < 0 {
        return Err(StaffDataValidation);
      }
      staff := staff.(salary := req.salary);
    }
    r := Ok(staff);
  }

  method UpdateStaffMember(db: StaffStore, id: int, req: UpdateStaffMemberRequest, isDate: string -> bool, now: Time)
    returns (r: Result<StaffMember, StaffError>)
    modifies db
    ensures var o := UpdateStaffMemberSpec(old(db.State()), id, req, isDate, now);
      db.State() == o.tables && r == o.result
  {
    var found := StaffLookup(db.State(), id);
    if found.Err? {
      return Err(found.error);
    }
    var merged := MergeStaff(found.value, req, isDate);
    if merged.Err? {
      return Err(merged.error);
    }
    var s := merged.value;
    if s.id !in db.staff {
      return Err(StaffNotFound);
    }
    db.staff := db.staff[s.id := StaffWritten(db.State(), s, now)];
    r := ReadBack(StaffById(db.State(), s.id));
  }

  method DeleteStaffMember(db: StaffStore, id: int) returns (r: Result<(), StaffError>)
    modifies db
    ensures var o := DeleteStaffMemberSpec(old(db.State()), id);
      db.State() == o.tables && r == o.result
  {
    var found := StaffLookup(db.State(), id);
    if found.Err? {
      return Err(found.error);
    }
    var deleted := StaffDeleted(db.State(), id);
    if deleted.Err? {
      return Err(DeleteStaffError(deleted.error));
    }
    db.staff := db.staff - {id};
    r := Ok(());
  }

  method CreateShift(db: StaffStore, req: CreateShiftRequest, layouts: DateTimeLayouts, now: Time)
    returns (r: Result<Shift, StaffError>)
    modifies db
    ensures var o := CreateShiftSpec(old(db.State()), req, layouts, now);
      db.State() == o.tables && r == o.result
  {
    var start := ParseDateTime(req.startTime, layouts, ShiftTimeFormat);
    if start.Err? {
      return Err(start.error);
    }
    var end := ParseDateTime(req.endTime, layouts, ShiftTimeFormat);
    if end.Err? {
      return Err(end.error);
    }
    var interval := ShiftInterval(start.value, end.value);
    if interval.Err? {
      return Err(interval.error);
    }
    var member := StaffLookup(db.State(), req.staffId);
    if member.Err? {
      return Err(member.error);
    }
    var row := Shift(db.nextShiftId, req.staffId, start.value, end.value, req.notes, now, now);
    db.shifts := db.shifts[row.id := row];
    db.nextShiftId := row.id + 1;
    r := ReadBack(ShiftById(db.State(), row.id));
  }

  /** The field-by-field merge of UpdateShift on the fetched record; reads nothing else. */
  method MergeShift(stored: Shift, req: UpdateShiftRequest, layouts: DateTimeLayouts)
    returns (r: Result<Shift, StaffError>)
    ensures r == ShiftMerged(stored, req, layouts)
  {
    var start, end := stored.startTime, stored.endTime;
    if req.startTime.Some? {
      var st := ParseDateTime(req.startTime.value, layouts, ShiftTimeFormat);
      if st.Err? {
        return Err(st.error);
      }
      start := st.value;
    }
    if req.endTime.Some? {
      var et := ParseDateTime(req.endTime.value, layouts, ShiftTimeFormat);
      if et.Err? {
        return Err(et.error);
      }
      end := et.value;
    }
    var interval := ShiftInterval(start, end);
    if interval.Err? {
      return Err(interval.error);
    }
    var shift := stored.(startTime := start, endTime := end);
    if req.notes.Some? {
      shift := shift.(notes := req.notes);
    }
    r := Ok(shift);
  }

  method UpdateShift(db: StaffStore, id: int, req: UpdateShiftRequest, layouts: DateTimeLayouts, now: Time)
    returns (r: Result<Shift, StaffError>)
    modifies db
    ensures var o := UpdateShiftSpec(old(db.State()), id, req, layouts, now);
      db.State() == o.tables && r == o.result
  {
    var found := ShiftLookup(db.State(), id);
    if found.Err? {
      return Err(found.error);
    }
    var merged := MergeShift(found.value, req, layouts);
    if merged.Err? {
      return Err(merged.error);
    }
    var s := merged.value;
    if s.id !in db.shifts {
      return Err(ShiftNotFound);
    }
    db.shifts := db.shifts[s.id := ShiftWritten(db.State(), s, now)];
    r := ReadBack(ShiftById(db.State(), s.id));
  }

  method DeleteShift(db: StaffStore, id: int) returns (r: Result<(), StaffError>)
    modifies db
    ensures var o := DeleteShiftSpec(old(db.State()), id);
      db.State() == o.tables && r == o.result
  {
    var found := ShiftLookup(db.State(), id);
    if found.Err? {
      return Err(found.error);
    }
    db.shifts := db.shifts - {id};
    r := Ok(());
  }
}
