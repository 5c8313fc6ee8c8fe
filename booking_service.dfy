/**
 * internal/services/booking_service.go: the booking lifecycle around the
 * availability check. The service runs its statements on the database
 * directly, without a transaction, so each operation is a function from
 * the tables to an `Outcome` (the tables afterwards and the result) and a
 * method running the repository statements one by one on a
 * `BookingStore`.
 *
 * Time strings are read by `parse`, the service's parseDateTime (RFC 3339,
 * then the same layout without a zone); `format` is Go's
 * Format(time.RFC3339), which writes whole seconds.
 */
module BookingService {
  import opened Wrappers
  import opened Store
  import opened GoStrings
  import opened BookingModels
  import opened BookingRepository
  import opened Query

  datatype BookingError =
    | BookingNotFound
    | TableNotAvailable
    | InvalidBookingTime
    | ClientForBookingNotFound(clientId: int)
    | StaffForBookingNotFound(staffId: int)
    | BookingStatusUpdate
    | BookingValidation(status: string)
    | Repository(error: RepoError)

  const MinDuration: int := 15 * Minute
  const MaxDuration: int := 12 * Hour
  /** How far in the past a start may lie, for clock skew. */
  const PastTolerance: int := 5 * Minute

  datatype CreateBookingRequest = CreateBookingRequest(
    clientId: Option<int>, tableId: int, staffId: int, startTime: string, endTime: string,
    numberOfGuests: Option<int>, notes: Option<string>, status: Option<string>)

  /** UpdateBookingRequest: every field optional. */
  datatype UpdateBookingRequest = UpdateBookingRequest(
    tableId: Option<int>, startTime: Option<string>, endTime: Option<string>,
    numberOfGuests: Option<int>, notes: Option<string>, status: Option<string>)

  /** The tables after a call (nothing is rolled back) and its result. */
  datatype Outcome<T> = Outcome(tables: BookingTables, result: Result<T, BookingError>)

  /** Go's time.Time truncated to whole seconds, as an RFC 3339 round trip leaves it. */
  function TruncateToSecond(x: Time): (r: Time)
    ensures r <= x < r + Second && r % Second == 0
  {
    x - x % Second
  }

  /**
   * parseAndValidateBookingTimes: both strings parse, the end is after
   * the start by 15 minutes to 12 hours, and the start is at most five
   * minutes in the past, which an update checks only when it moves the
   * start. Every failure is ErrInvalidBookingTime.
   */
  function BookingTimes(parse: string -> Option<Time>, startText: string, endText: string,
                        forUpdate: bool, existingStart: Option<Time>, now: Time): (r: Result<(Time, Time), BookingError>)
    ensures r.Err? ==> r.error == InvalidBookingTime
    ensures r.Ok? ==> parse(startText) == Some(r.value.0) && parse(endText) == Some(r.value.1)
    ensures r.Ok? ==> r.value.0 < r.value.1 && MinDuration <= r.value.1 - r.value.0 <= MaxDuration
    ensures r.Ok? && !forUpdate ==> r.value.0 >= now - PastTolerance
    ensures r.Ok? && forUpdate && existingStart.Some? && r.value.0 != existingStart.value ==> r.value.0 >= now - PastTolerance
  {
    if parse(startText).None? || parse(endText).None? then Err(InvalidBookingTime)
    else
      var start, end := parse(startText).value, parse(endText).value;
      if !(end > start) then Err(InvalidBookingTime)
      else if end - start < MinDuration then Err(InvalidBookingTime)
      else if end - start > MaxDuration then Err(InvalidBookingTime)
      else if !forUpdate && start < now - PastTolerance then Err(InvalidBookingTime)
      else if forUpdate && existingStart.Some? && start != existingStart.value && start < now - PastTolerance then
        Err(InvalidBookingTime)
      else Ok((start, end))
  }

  /** The converse: times that parse and keep every rule are accepted. */
  lemma BookingTimesAccepted(parse: string -> Option<Time>, startText: string, endText: string,
                             forUpdate: bool, existingStart: Option<Time>, now: Time, start: Time, end: Time)
    requires parse(startText) == Some(start) && parse(endText) == Some(end)
    requires MinDuration <= end - start <= MaxDuration
    requires !forUpdate ==> start >= now - PastTolerance
    requires forUpdate && existingStart.Some? && start != existingStart.value ==> start >= now - PastTolerance
    ensures BookingTimes(parse, startText, endText, forUpdate, existingStart, now) == Ok((start, end))
  {
  }

  /** A result of the final GetBookingByID, whose error the service passes on as it is. */
  function Reread(t: BookingTables, id: int): (r: Result<BookingView, BookingError>)
    ensures r.Ok? <==> BookingById(t, id).Ok?
    ensures r.Ok? ==> r.value == BookingById(t, id).value
  {
    match BookingById(t, id)
    case Ok(v) => Ok(v)
    case Err(e) => Err(Repository(e))
  }

  /** The status a new booking gets: the requested one unless it is blank, else confirmed. */
  function RequestedStatus(status: Option<string>): (r: string)
    ensures status.None? || TrimSpace(status.value) == "" ==> r == BookingStatusConfirmed
    ensures status.Some? && TrimSpace(status.value) != "" ==> r == status.value
  {
    if status.Some? && TrimSpace(status.value) != "" then status.value else BookingStatusConfirmed
  }

  /**
   * CreateBooking: the times, then the client when one is given, then the
   * staff member (whose lookup does not scan a member without a user
   * account), then the availability of the table, then the status; only
   * then is the booking inserted and read back.
   */
  function CreateBookingSpec(t: BookingTables, req: CreateBookingRequest, parse: string -> Option<Time>, now: Time)
    : (r: Outcome<BookingView>)
    ensures var times := BookingTimes(parse, req.startTime, req.endTime, false, None, now);
      && (times.Err? ==> r == Outcome(t, Err(InvalidBookingTime)))
      && (r.result == Err(TableNotAvailable) ==> times.Ok? && !Available(t, req.tableId, times.value.0, times.value.1, None))
      && (r.result.Ok? ==> times.Ok? && Available(t, req.tableId, times.value.0, times.value.1, None))
      && (times.Ok? && (req.clientId.Some? ==> req.clientId.value in t.clients) ==>
            && (req.staffId !in t.staffMembers ==> r == Outcome(t, Err(StaffForBookingNotFound(req.staffId))))
            && (req.staffId in t.staffMembers && t.staffMembers[req.staffId].None? ==>
                  r == Outcome(t, Err(Repository(DatabaseError(StaffScanFault))))))
    ensures r.result.Err? && !r.result.error.Repository? ==> r.tables == t
  {
    match BookingTimes(parse, req.startTime, req.endTime, false, None, now)
    case Err(e) => Outcome(t, Err(e))
    case Ok((start, end)) =>
      if req.clientId.Some? && req.clientId.value !in t.clients then
        Outcome(t, Err(ClientForBookingNotFound(req.clientId.value)))
      else if req.staffId !in t.staffMembers then Outcome(t, Err(StaffForBookingNotFound(req.staffId)))
      else if t.staffMembers[req.staffId].None? then Outcome(t, Err(Repository(DatabaseError(StaffScanFault))))
      else if !Available(t, req.tableId, start, end, None) then Outcome(t, Err(TableNotAvailable))
      else if req.status.Some? && TrimSpace(req.status.value) != "" && !IsValidBookingStatus(req.status.value) then
        Outcome(t, Err(BookingValidation(req.status.value)))
      else
        var b := Booking(0, req.clientId, req.tableId, Some(req.staffId), start, end, req.numberOfGuests,
                         RequestedStatus(req.status), req.notes, None, ZeroTime, ZeroTime);
        match BookingInserted(t, b, now)
        case Err(e) => Outcome(t, Err(Repository(e)))
        case Ok(w) =>
          Outcome(w.tables, Reread(w.tables, w.value.id))
  }

  /** Whether UpdateBooking re-checks availability, as line 238 decides it once the table has been overwritten. */
  predicate Rechecks(req: UpdateBookingRequest, tableNow: int) {
    req.startTime.Some? || req.endTime.Some? || (req.tableId.Some? && req.tableId.value != tableNow)
  }

  /** The booking with the requested table set, as line 220 does before anything is checked. */
  function WithRequestedTable(b: Booking, req: UpdateBookingRequest): (r: Booking)
    ensures r.tableId == req.tableId.GetOr(b.tableId) && r.(tableId := b.tableId) == b
  {
    if req.tableId.Some? then b.(tableId := req.tableId.value) else b
  }

  /** The table overwrite makes the "table changed" half of the test always false. */
  lemma TableTestAlwaysFalse(b: Booking, req: UpdateBookingRequest)
    ensures Rechecks(req, WithRequestedTable(b, req).tableId) <==> req.startTime.Some? || req.endTime.Some?
  {
  }

  /** The new times of an update: supplied strings, or the stored times formatted, parsed and validated. */
  function UpdatedTimes(b: Booking, req: UpdateBookingRequest, parse: string -> Option<Time>, format: Time -> string, now: Time)
    : (r: Result<(Time, Time), BookingError>)
    ensures req.startTime.None? && req.endTime.None? ==> r == Ok((b.startTime, b.endTime))
    ensures req.startTime.Some? || req.endTime.Some? ==>
      r == BookingTimes(parse, req.startTime.GetOr(format(b.startTime)), req.endTime.GetOr(format(b.endTime)), true, Some(b.startTime), now)
  {
    if req.startTime.Some? || req.endTime.Some? then
      BookingTimes(parse, req.startTime.GetOr(format(b.startTime)), req.endTime.GetOr(format(b.endTime)),
                   true, Some(b.startTime), now)
    else Ok((b.startTime, b.endTime))
  }

  /** The booking UpdateBooking writes: supplied fields replace the stored ones, the others stay. */
  function Merged(b: Booking, req: UpdateBookingRequest, start: Time, end: Time): (r: Booking)
    ensures r.id == b.id && r.clientId == b.clientId && r.staffId == b.staffId && r.totalPrice == b.totalPrice
    ensures r.createdAt == b.createdAt && r.updatedAt == b.updatedAt
    ensures r.tableId == req.tableId.GetOr(b.tableId) && r.startTime == start && r.endTime == end
    ensures r.numberOfGuests == (if req.numberOfGuests.Some? then req.numberOfGuests else b.numberOfGuests)
    ensures r.notes == (if req.notes.Some? then req.notes else b.notes)
    ensures r.status == req.status.GetOr(b.status)
  {
    WithRequestedTable(b, req).(
      startTime := start, endTime := end,
      numberOfGuests := if req.numberOfGuests.Some? then req.numberOfGuests else b.numberOfGuests,
      notes := if req.notes.Some? then req.notes else b.notes,
      status := req.status.GetOr(b.status))
  }

  /**
   * The checks of UpdateBooking between the read and the write, on the
   * stored booking `b`: the times, the availability when re-checked
   * (excluding the booking itself) and a supplied status. The value is the
   * booking to write.
   */
  function UpdatePrepared(t: BookingTables, id: int, b: Booking, req: UpdateBookingRequest,
                          parse: string -> Option<Time>, format: Time -> string, now: Time)
    : (r: Result<Booking, BookingError>)
    ensures r.Ok? ==> UpdatedTimes(b, req, parse, format, now).Ok?
    ensures r.Ok? ==> var times := UpdatedTimes(b, req, parse, format, now).value;
      && r.value == Merged(b, req, times.0, times.1)
      && (Rechecks(req, r.value.tableId) ==> Available(t, r.value.tableId, times.0, times.1, Some(id)))
    ensures r.Ok? && req.status.Some? ==> IsValidBookingStatus(req.status.value)
  {
    var b1 := WithRequestedTable(b, req);
    match UpdatedTimes(b, req, parse, format, now)
    case Err(e) => Err(e)
    case Ok((start, end)) =>
      if Rechecks(req, b1.tableId) && !Available(t, b1.tableId, start, end, Some(id)) then Err(TableNotAvailable)
      else if req.status.Some? && !IsValidBookingStatus(req.status.value) then Err(BookingValidation(req.status.value))
      else Ok(Merged(b, req, start, end))
  }

  /**
   * UpdateBooking: unknown ids and bookings already completed or cancelled
   * are refused; the table is overwritten, the times re-validated when
   * either is supplied, availability re-checked excluding the booking
   * itself, a supplied status validated; then the row is written and read
   * back.
   */
  function UpdateBookingSpec(t: BookingTables, id: int, req: UpdateBookingRequest,
                             parse: string -> Option<Time>, format: Time -> string, now: Time)
    : (r: Outcome<BookingView>)
    ensures BookingById(t, id).Err? ==> r == Outcome(t, Err(BookingNotFound))
    ensures BookingById(t, id).Ok? && BookingById(t, id).value.booking.status in {BookingStatusCompleted, BookingStatusCancelled} ==>
      r == Outcome(t, Err(BookingValidation(BookingById(t, id).value.booking.status)))
    ensures r.result.Err? && !r.result.error.Repository? ==> r.tables == t
  {
    match BookingById(t, id)
    case Err(_) => Outcome(t, Err(BookingNotFound))
    case Ok(v) =>
      var b := v.booking;
      if b.status == BookingStatusCompleted || b.status == BookingStatusCancelled then
        Outcome(t, Err(BookingValidation(b.status)))
      else
        match UpdatePrepared(t, id, b, req, parse, format, now)
        case Err(e) => Outcome(t, Err(e))
        case Ok(merged) =>
          match BookingUpdated(t, merged, now)
          case Err(e) => Outcome(t, Err(if e == NotFound then BookingNotFound else Repository(e)))
          case Ok(w) => Outcome(w.tables, Reread(w.tables, id))
  }

  /** A completed booking stays completed and a cancelled one stays cancelled; every other status may change. */
  predicate TransitionAllowed(current: string, newStatus: string) {
    && (current == BookingStatusCompleted ==> newStatus == BookingStatusCompleted)
    && (current == BookingStatusCancelled ==> newStatus == BookingStatusCancelled)
  }

  /**
   * updateBookingStatus: a completed booking may only become completed
   * and a cancelled one only cancelled; any other booking may take the
   * new status. A failed write is ErrBookingStatusUpdate.
   */
  function StatusUpdateSpec(t: BookingTables, id: int, newStatus: string, now: Time): (r: Outcome<BookingView>)
    ensures BookingById(t, id).Err? ==> r == Outcome(t, Err(BookingNotFound))
    ensures BookingById(t, id).Ok? && !TransitionAllowed(BookingById(t, id).value.booking.status, newStatus) ==>
      r == Outcome(t, Err(BookingStatusUpdate))
    ensures r.result.Ok? ==> BookingById(t, id).Ok? && TransitionAllowed(BookingById(t, id).value.booking.status, newStatus)
    ensures r.result.Err? && !r.result.error.Repository? ==> r.tables == t
  {
    match BookingById(t, id)
    case Err(_) => Outcome(t, Err(BookingNotFound))
    case Ok(v) =>
      var b := v.booking;
      if b.status == BookingStatusCompleted && newStatus != BookingStatusCompleted then
        Outcome(t, Err(BookingStatusUpdate))
      else if b.status == BookingStatusCancelled && newStatus != BookingStatusCancelled then
        Outcome(t, Err(BookingStatusUpdate))
      else
        match BookingUpdated(t, b.(status := newStatus), now)
        case Err(_) => Outcome(t, Err(BookingStatusUpdate))
        case Ok(w) => Outcome(w.tables, Reread(w.tables, id))
  }

  function CancelBookingSpec(t: BookingTables, id: int, now: Time): (r: Outcome<BookingView>)
    ensures r == StatusUpdateSpec(t, id, BookingStatusCancelled, now)
  {
    StatusUpdateSpec(t, id, BookingStatusCancelled, now)
  }

  function CompleteBookingSpec(t: BookingTables, id: int, now: Time): (r: Outcome<BookingView>)
    ensures r == StatusUpdateSpec(t, id, BookingStatusCompleted, now)
  {
    StatusUpdateSpec(t, id, BookingStatusCompleted, now)
  }

  /** DeleteBooking: ErrBookingNotFound when the read or the delete finds no row. */
  function DeleteBookingSpec(t: BookingTables, id: int): (r: Result<BookingTables, BookingError>)
    ensures !HasBooking(t.bookings, id) ==> r == Err(BookingNotFound)
    ensures r.Ok? <==> BookingById(t, id).Ok?
    ensures r.Err? ==> r == Err(BookingNotFound)
    ensures r.Ok? ==> r.value == t.(bookings := BookingsWithout(t.bookings, id)) && !HasBooking(r.value.bookings, id)
  {
    if BookingById(t, id).Err? then Err(BookingNotFound)
    else
      match BookingDeleted(t, id)
      case Err(_) => Err(BookingNotFound)
      case Ok(t2) => Ok(t2)
  }

  /** GetBookings fills in page 1 and page size 10 before listing. */
  function DefaultedFilters(f: BookingFilters): (r: BookingFilters)
    ensures r.page >= 1 && r.pageSize >= 1
    ensures f.page > 0 ==> r.page == f.page
    ensures f.pageSize > 0 ==> r.pageSize == f.pageSize
    ensures f.page <= 0 ==> r.page == 1
    ensures f.pageSize <= 0 ==> r.pageSize == 10
    ensures r.(page := f.page, pageSize := f.pageSize) == f
  {
    f.(page := if f.page <= 0 then 1 else f.page, pageSize := if f.pageSize <= 0 then 10 else f.pageSize)
  }

  // ---------------------------------------------------------------- methods

  /** The service's GetBookingByID: an unknown id is ErrBookingNotFound. */
  method GetBookingByID(db: BookingStore, id: int) returns (r: Result<BookingView, BookingError>)
    ensures BookingById(db.State(), id).Ok? ==> r == Ok(BookingById(db.State(), id).value)
    ensures BookingById(db.State(), id).Err? ==> r == Err(BookingNotFound)
  {
    var found := BookingRepository.GetBookingByID(db, id);
    if found.Err? {
      return Err(BookingNotFound);
    }
    r := Ok(found.value);
  }

  method CreateBooking(db: BookingStore, req: CreateBookingRequest, parse: string -> Option<Time>, now: Time)
    returns (r: Result<BookingView, BookingError>)
    modifies db
    ensures var o := CreateBookingSpec(old(db.State()), req, parse, now);
      db.State() == o.tables && r == o.result
  {
    var times := BookingTimes(parse, req.startTime, req.endTime, false, None, now);
    if times.Err? {
      return Err(times.error);
    }
    var start, end := times.value.0, times.value.1;
    if req.clientId.Some? && req.clientId.value !in db.clients {
      return Err(ClientForBookingNotFound(req.clientId.value));
    }
    if req.staffId !in db.staffMembers {
      return Err(StaffForBookingNotFound(req.staffId));
    }
    if db.staffMembers[req.staffId].None? {
      return Err(Repository(DatabaseError(StaffScanFault)));
    }
    var available := CheckTableAvailability(db, req.tableId, start, end, None);
    if !available {
      return Err(TableNotAvailable);
    }
    var status := BookingStatusConfirmed;
    if req.status.Some? && TrimSpace(req.status.value) != "" {
      if !IsValidBookingStatus(req.status.value) {
        return Err(BookingValidation(req.status.value));
      }
      status := req.status.value;
    }
    var booking := Booking(0, req.clientId, req.tableId, Some(req.staffId), start, end, req.numberOfGuests,
                           status, req.notes, None, ZeroTime, ZeroTime);
    var created := BookingRepository.CreateBooking(db, booking, now);
    if created.Err? {
      return Err(Repository(created.error));
    }
    var found := BookingRepository.GetBookingByID(db, created.value.id);
    if found.Err? {
      return Err(Repository(found.error));
    }
    r := Ok(found.value);
  }

  /** UpdateBooking's checks between the read and the write; they only read the database. */
  method PrepareUpdate(db: BookingStore, id: int, stored: Booking, req: UpdateBookingRequest,
                       parse: string -> Option<Time>, format: Time -> string, now: Time)
    returns (r: Result<Booking, BookingError>)
    ensures r == UpdatePrepared(db.State(), id, stored, req, parse, format, now)
  {
    var booking := stored;
    if req.tableId.Some? {
      booking := booking.(tableId := req.tableId.value);
    }
    var start, end := stored.startTime, stored.endTime;
    var timeChanged := false;
    if req.startTime.Some? || req.endTime.Some? {
      var startText, endText := format(stored.startTime), format(stored.endTime);
      if req.startTime.Some? {
        startText := req.startTime.value;
      }
      if req.endTime.Some? {
        endText := req.endTime.value;
      }
      var times := BookingTimes(parse, startText, endText, true, Some(stored.startTime), now);
      if times.Err? {
        return Err(times.error);
      }
      start, end := times.value.0, times.value.1;
      timeChanged := true;
    }
    // The table was overwritten above, so the second half of this test never holds.
    if timeChanged || (req.tableId.Some? && req.tableId.value != booking.tableId) {
      var available := CheckTableAvailability(db, booking.tableId, start, end, Some(id));
      if !available {
        return Err(TableNotAvailable);
      }
    }
    booking := booking.(startTime := start, endTime := end);
    if req.numberOfGuests.Some? {
      booking := booking.(numberOfGuests := req.numberOfGuests);
    }
    if req.notes.Some? {
      booking := booking.(notes := req.notes);
    }
    if req.status.Some? {
      if !IsValidBookingStatus(req.status.value) {
        return Err(BookingValidation(req.status.value));
      }
      booking := booking.(status := req.status.value);
    }
    r := Ok(booking);
  }

  method UpdateBooking(db: BookingStore, id: int, req: UpdateBookingRequest,
                       parse: string -> Option<Time>, format: Time -> string, now: Time)
    returns (r: Result<BookingView, BookingError>)
    modifies db
    ensures var o := UpdateBookingSpec(old(db.State()), id, req, parse, format, now);
      db.State() == o.tables && r == o.result
  {
    var found := BookingRepository.GetBookingByID(db, id);
    if found.Err? {
      return Err(BookingNotFound);
    }
    var stored := found.value.booking;
    if stored.status == BookingStatusCompleted || stored.status == BookingStatusCancelled {
      return Err(BookingValidation(stored.status));
    }
    var prepared := PrepareUpdate(db, id, stored, req, parse, format, now);
    if prepared.Err? {
      return Err(prepared.error);
    }
    var booking := prepared.value;
    var updated := BookingRepository.UpdateBooking(db, booking, now);
    if updated.Err? {
      return Err(if updated.error == NotFound then BookingNotFound else Repository(updated.error));
    }
    var reread := BookingRepository.GetBookingByID(db, updated.value.id);
    if reread.Err? {
      return Err(Repository(reread.error));
    }
    r := Ok(reread.value);
  }

  /** updateBookingStatus, on which CancelBooking and CompleteBooking are built. */
  method UpdateBookingStatus(db: BookingStore, id: int, newStatus: string, now: Time)
    returns (r: Result<BookingView, BookingError>)
    modifies db
    ensures var o := StatusUpdateSpec(old(db.State()), id, newStatus, now);
      db.State() == o.tables && r == o.result
  {
    var found := BookingRepository.GetBookingByID(db, id);
    if found.Err? {
      return Err(BookingNotFound);
    }
    var booking := found.value.booking;
    if booking.status == BookingStatusCompleted && newStatus != BookingStatusCompleted {
      return Err(BookingStatusUpdate);
    }
    if booking.status == BookingStatusCancelled && newStatus != BookingStatusCancelled {
      return Err(BookingStatusUpdate);
    }
    booking := booking.(status := newStatus);
    var updated := BookingRepository.UpdateBooking(db, booking, now);
    if updated.Err? {
      return Err(BookingStatusUpdate);
    }
    var reread := BookingRepository.GetBookingByID(db, updated.value.id);
    if reread.Err? {
      return Err(Repository(reread.error));
    }
    r := Ok(reread.value);
  }

  method CancelBooking(db: BookingStore, id: int, now: Time) returns (r: Result<BookingView, BookingError>)
    modifies db
    ensures var o := CancelBookingSpec(old(db.State()), id, now);
      db.State() == o.tables && r == o.result
  {
    r := UpdateBookingStatus(db, id, BookingStatusCancelled, now);
  }

  method CompleteBooking(db: BookingStore, id: int, now: Time) returns (r: Result<BookingView, BookingError>)
    modifies db
    ensures var o := CompleteBookingSpec(old(db.State()), id, now);
      db.State() == o.tables && r == o.result
  {
    r := UpdateBookingStatus(db, id, BookingStatusCompleted, now);
  }

  method DeleteBooking(db: BookingStore, id: int) returns (r: Result<(), BookingError>)
    modifies db
    ensures var d := DeleteBookingSpec(old(db.State()), id);
      if d.Ok? then db.State() == d.value && r == Ok(()) else db.State() == old(db.State()) && r == Err(d.error)
  {
    var found := BookingRepository.GetBookingByID(db, id);
    if found.Err? {
      return Err(BookingNotFound);
    }
    var deleted := BookingRepository.DeleteBooking(db, id);
    if deleted.Err? {
      return Err(BookingNotFound);
    }
    r := Ok(());
  }

  /** The service's GetBookings: page 1 and size 10 unless given, then the repository's list. */
  method GetBookings(db: BookingStore, f: BookingFilters) returns (views: seq<BookingView>, totalCount: int)
    ensures views == HydrateAll(db.State(), BookingRows(db.State(), DefaultedFilters(f)))
    ensures totalCount == ReportedTotal(MatchingBookings(db.State(), DefaultedFilters(f)), BookingRows(db.State(), DefaultedFilters(f)))
  {
    var filters := f;
    if filters.page <= 0 {
      filters := filters.(page := 1);
    }
    if filters.pageSize <= 0 {
      filters := filters.(pageSize := 10);
    }
    assert filters == DefaultedFilters(f);
    views, totalCount := BookingRepository.GetBookings(db, filters);
  }
}
