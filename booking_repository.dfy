/**
 * internal/repositories/booking_repository.go: the bookings table with the
 * rows its queries join (clients, staff members, game tables), the
 * availability check, the insert, update and delete statements, the
 * single-row read and the bookings list.
 */
module BookingRepository {
  import opened Wrappers
  import opened Store
  import opened Query
  import opened BookingModels

  /**
   * The tables the booking statements touch. Of a client the join reads
   * the full name, of a staff member the linked user's id; a game table
   * only has to exist. The schema's foreign keys are taken to hold: a
   * booking refers to an existing table, and to an existing client and
   * staff member when it names one.
   */
  datatype BookingTables = BookingTables(
    bookings: seq<Booking>, nextBookingId: int,
    clients: map<int, string>, staffMembers: map<int, Option<int>>, gameTables: set<int>)

  /** The tables after a statement, with what the statement returned. */
  datatype Written<T> = Written(tables: BookingTables, value: T)

  function BookingIds(s: seq<Booking>): seq<int> {
    Ids(s, (b: Booking) => b.id)
  }

  /** Booking ids come from a serial sequence. */
  ghost predicate BookingsWf(t: BookingTables) {
    0 < t.nextBookingId && Serial(BookingIds(t.bookings), t.nextBookingId)
  }

  /** Some row of the bookings table has the id. */
  predicate HasBooking(bookings: seq<Booking>, id: int) {
    exists i :: 0 <= i < |bookings| && bookings[i].id == id
  }

  lemma HasBookingTail(bookings: seq<Booking>, id: int)
    requires |bookings| > 0
    ensures HasBooking(bookings, id) <==> bookings[0].id == id || HasBooking(bookings[1..], id)
  {
    if HasBooking(bookings, id) && bookings[0].id != id {
      var i :| 0 <= i < |bookings| && bookings[i].id == id;
      assert bookings[1..][i - 1].id == id;
    }
    if HasBooking(bookings[1..], id) {
      var i :| 0 <= i < |bookings[1..]| && bookings[1..][i].id == id;
      assert bookings[i + 1].id == id;
    }
  }

  /** The first row with the id. */
  function FindBooking(bookings: seq<Booking>, id: int): (r: Option<Booking>)
    ensures r.None? <==> !HasBooking(bookings, id)
    ensures r.Some? ==> r.value in bookings && r.value.id == id
    decreases |bookings|
  {
    if |bookings| == 0 then None
    else if bookings[0].id == id then Some(bookings[0])
    else
      HasBookingTail(bookings, id);
      FindBooking(bookings[1..], id)
  }

  /** Under distinct ids the row found is the one at the id's position. */
  lemma {:induction false} FindBookingAt(bookings: seq<Booking>, k: int)
    requires 0 <= k < |bookings|
    requires forall i, j :: 0 <= i < j < |bookings| ==> bookings[i].id < bookings[j].id
    ensures FindBooking(bookings, bookings[k].id) == Some(bookings[k])
    decreases |bookings|
  {
    if k > 0 {
      assert bookings[0].id < bookings[k].id;
      assert bookings[1..][k - 1] == bookings[k];
      FindBookingAt(bookings[1..], k - 1);
    }
  }

  // ---------------------------------------------------------- availability

  /** The statuses that occupy a table: confirmed and checked-in. */
  predicate Occupying(status: string) {
    status == BookingStatusConfirmed || status == BookingStatusCheckedIn
  }

  /** The query's overlap test on the half-open intervals: the row starts before `end` and ends after `start`. */
  predicate Overlaps(b: Booking, start: Time, end: Time) {
    b.startTime < end && b.endTime > start
  }

  /** A row the availability query counts. */
  predicate Blocks(b: Booking, tableId: int, start: Time, end: Time, exclude: Option<int>) {
    && b.tableId == tableId
    && Occupying(b.status)
    && Overlaps(b, start, end)
    && (exclude.Some? ==> b.id != exclude.value)
  }

  /** SELECT COUNT(*) of the blocking rows. */
  function CountBlocking(bookings: seq<Booking>, tableId: int, start: Time, end: Time, exclude: Option<int>): (n: nat)
    ensures n == 0 <==> forall i :: 0 <= i < |bookings| ==> !Blocks(bookings[i], tableId, start, end, exclude)
    ensures n <= |bookings|
    decreases |bookings|
  {
    if |bookings| == 0 then 0
    else
      var rest := CountBlocking(bookings[1..], tableId, start, end, exclude);
      assert forall i :: 1 <= i < |bookings| ==> bookings[i] == bookings[1..][i - 1];
      (if Blocks(bookings[0], tableId, start, end, exclude) then 1 else 0) + rest
  }

  /** CheckTableAvailability's answer: the count is zero. */
  function Available(t: BookingTables, tableId: int, start: Time, end: Time, exclude: Option<int>): (r: bool)
    ensures r <==> forall i :: 0 <= i < |t.bookings| ==> !Blocks(t.bookings[i], tableId, start, end, exclude)
  {
    CountBlocking(t.bookings, tableId, start, end, exclude) == 0
  }

  /** An instant of the half-open interval [lo, hi). */
  predicate Within(x: Time, lo: Time, hi: Time) {
    lo <= x < hi
  }

  /**
   * The query's overlap test means the two non-empty half-open intervals
   * share an instant.
   */
  lemma OverlapsIffSharedInstant(b: Booking, start: Time, end: Time)
    requires b.startTime < b.endTime && start < end
    ensures Overlaps(b, start, end) <==> exists x :: Within(x, b.startTime, b.endTime) && Within(x, start, end)
  {
    if Overlaps(b, start, end) {
      var x := if b.startTime < start then start else b.startTime;
      assert Within(x, b.startTime, b.endTime) && Within(x, start, end);
    }
  }

  /**
   * Intervals that only touch never conflict, and a booking that is
   * pending, cancelled, completed or a no-show never blocks.
   */
  lemma TouchingOrIdleNeverBlocks(t: BookingTables, tableId: int, start: Time, end: Time, exclude: Option<int>)
    requires forall i :: 0 <= i < |t.bookings| ==>
      t.bookings[i].endTime <= start || t.bookings[i].startTime >= end || t.bookings[i].status in
        {BookingStatusPending, BookingStatusCancelled, BookingStatusCompleted, BookingStatusNoShow}
    ensures Available(t, tableId, start, end, exclude)
  {
    forall i | 0 <= i < |t.bookings| ensures !Blocks(t.bookings[i], tableId, start, end, exclude) {
      assert "confirmed" != "pending" && "confirmed" != "cancelled" && "confirmed" != "completed" && "confirmed" != "no-show";
      assert "checked-in" != "pending" && "checked-in" != "cancelled" && "checked-in" != "completed" && "checked-in" != "no-show";
    }
  }

  /** The bookings without the rows having the id, in table order. */
  function BookingsWithout(bookings: seq<Booking>, id: int): (r: seq<Booking>)
    ensures forall b :: b in r <==> b in bookings && b.id != id
    ensures |r| == |bookings| <==> !HasBooking(bookings, id)
    ensures |r| <= |bookings|
    decreases |bookings|
  {
    if |bookings| == 0 then []
    else
      HasBookingTail(bookings, id);
      var rest := BookingsWithout(bookings[1..], id);
      assert bookings == [bookings[0]] + bookings[1..];
      if bookings[0].id != id then [bookings[0]] + rest else rest
  }

  /** Excluding a booking is the same as asking about the table without that booking. */
  lemma ExcludeIgnoresOnlyThatBooking(t: BookingTables, tableId: int, start: Time, end: Time, id: int)
    ensures Available(t, tableId, start, end, Some(id)) ==
      Available(t.(bookings := BookingsWithout(t.bookings, id)), tableId, start, end, None)
  {
    SameBlockers(t.bookings, BookingsWithout(t.bookings, id), tableId, start, end, id);
  }

  /** Rows that are the others' rows minus the id's are blocked by exactly the same rows. */
  lemma SameBlockers(all: seq<Booking>, kept: seq<Booking>, tableId: int, start: Time, end: Time, id: int)
    requires forall b :: b in kept <==> b in all && b.id != id
    ensures (forall i :: 0 <= i < |all| ==> !Blocks(all[i], tableId, start, end, Some(id))) <==>
      (forall k :: 0 <= k < |kept| ==> !Blocks(kept[k], tableId, start, end, None))
  {
    if exists i :: 0 <= i < |all| && Blocks(all[i], tableId, start, end, Some(id)) {
      var i :| 0 <= i < |all| && Blocks(all[i], tableId, start, end, Some(id));
      assert all[i] in kept;
      var k :| 0 <= k < |kept| && kept[k] == all[i];
      assert Blocks(kept[k], tableId, start, end, None);
    }
    if exists k :: 0 <= k < |kept| && Blocks(kept[k], tableId, start, end, None) {
      var k :| 0 <= k < |kept| && Blocks(kept[k], tableId, start, end, None);
      assert kept[k] in all;
      var i :| 0 <= i < |all| && all[i] == kept[k];
      assert Blocks(all[i], tableId, start, end, Some(id));
    }
  }

  /**
   * The worked example of the overlap rule: [10:00, 11:00) on table 1 is
   * taken by a confirmed or checked-in [10:30, 11:30), and free next to
   * one that ends at 10:00 or starts at 11:00, or next to a pending one.
   */
  lemma AvailabilityExample(b: Booking)
    requires b.tableId == 1
    ensures b.startTime == 10 * Hour + 30 * Minute && b.endTime == 11 * Hour + 30 * Minute && Occupying(b.status) ==>
      !Available(BookingTables([b], 1, map[], map[], {1}), 1, 10 * Hour, 11 * Hour, None)
    ensures b.endTime == 10 * Hour || b.startTime == 11 * Hour || b.status == BookingStatusPending ==>
      Available(BookingTables([b], 1, map[], map[], {1}), 1, 10 * Hour, 11 * Hour, None)
  {
    assert "confirmed" != "pending" && "checked-in" != "pending";
    var t := BookingTables([b], 1, map[], map[], {1});
    assert t.bookings[0] == b;
  }

  // --------------------------------------------------------------- reading

  datatype ClientSummary = ClientSummary(id: int, fullName: string)

  /** A joined staff member; its user is filled exactly when `userId` is. */
  datatype StaffSummary = StaffSummary(id: int, userId: Option<int>)

  /** A booking as scanBookingRow returns it, with its joined rows. */
  datatype BookingView = BookingView(
    booking: Booking, client: Option<ClientSummary>, gameTable: int, staffMember: Option<StaffSummary>)

  /**
   * scanBookingRow: the client is filled exactly when the booking names
   * one and the staff member exactly when it names one; the missing
   * columns of a left join read back as their COALESCE defaults.
   */
  function Hydrate(t: BookingTables, b: Booking): (v: BookingView)
    ensures v.booking == b && v.gameTable == b.tableId
    ensures v.client.None? <==> b.clientId.None?
    ensures v.staffMember.None? <==> b.staffId.None?
    ensures b.clientId.Some? && b.clientId.value in t.clients ==>
      v.client == Some(ClientSummary(b.clientId.value, t.clients[b.clientId.value]))
    ensures b.staffId.Some? && b.staffId.value in t.staffMembers ==>
      v.staffMember == Some(StaffSummary(b.staffId.value, t.staffMembers[b.staffId.value]))
  {
    var client :=
      if b.clientId.None? then None
      else if b.clientId.value in t.clients then Some(ClientSummary(b.clientId.value, t.clients[b.clientId.value]))
      else Some(ClientSummary(0, ""));
    var staff :=
      if b.staffId.None? then None
      else if b.staffId.value in t.staffMembers then Some(StaffSummary(b.staffId.value, t.staffMembers[b.staffId.value]))
      else Some(StaffSummary(0, None));
    BookingView(b, client, b.tableId, staff)
  }

  /**
   * GetBookingByID: the row with the id, joined; the inner join with
   * game_tables drops a row whose table is missing. NotFound otherwise.
   */
  function BookingById(t: BookingTables, id: int): (r: Result<BookingView, RepoError>)
    ensures r.Err? ==> r.error == NotFound
    ensures !HasBooking(t.bookings, id) ==> r.Err?
    ensures HasBooking(t.bookings, id) && (forall i :: 0 <= i < |t.bookings| && t.bookings[i].id == id ==> t.bookings[i].tableId in t.gameTables)
      ==> r.Ok?
    ensures r.Ok? ==> r.value.booking in t.bookings && r.value.booking.id == id && r.value.booking.tableId in t.gameTables
    ensures r.Ok? ==> r.value == Hydrate(t, r.value.booking)
  {
    match FindBooking(t.bookings, id)
    case None => Err(NotFound)
    case Some(b) => if b.tableId in t.gameTables then Ok(Hydrate(t, b)) else Err(NotFound)
  }

  /** On a well-formed table the row at a position is the one read back by its id, joined. */
  lemma BookingByIdFound(t: BookingTables, k: int)
    requires BookingsWf(t) && 0 <= k < |t.bookings| && t.bookings[k].tableId in t.gameTables
    ensures BookingById(t, t.bookings[k].id) == Ok(Hydrate(t, t.bookings[k]))
  {
    assert forall i :: 0 <= i < |t.bookings| ==> BookingIds(t.bookings)[i] == t.bookings[i].id;
    FindBookingAt(t.bookings, k);
  }

  // --------------------------------------------------------------- writing

  /** The foreign keys of a booking row hold. */
  predicate References(t: BookingTables, b: Booking) {
    && b.tableId in t.gameTables
    && (b.clientId.Some? ==> b.clientId.value in t.clients)
    && (b.staffId.Some? ==> b.staffId.value in t.staffMembers)
  }

  /**
   * INSERT INTO bookings ... RETURNING id, created_at, updated_at: both
   * timestamps are set to `now`, the id is the next serial value; a broken
   * foreign key is a database error and nothing is written.
   */
  function BookingInserted(t: BookingTables, b: Booking, now: Time): (r: Result<Written<Booking>, RepoError>)
    ensures r.Err? <==> !References(t, b)
    ensures r.Err? ==> r.error.DatabaseError?
    ensures r.Ok? ==> r.value.value == b.(id := t.nextBookingId, createdAt := now, updatedAt := now)
    ensures r.Ok? ==> r.value.tables == t.(bookings := t.bookings + [r.value.value], nextBookingId := t.nextBookingId + 1)
  {
    if !References(t, b) then Err(DatabaseError("foreign key violation"))
    else
      var row := b.(id := t.nextBookingId, createdAt := now, updatedAt := now);
      Ok(Written(t.(bookings := t.bookings + [row], nextBookingId := t.nextBookingId + 1), row))
  }

  /** A serial insert keeps the ids serial, and the new row reads back as inserted. */
  lemma InsertedReadsBack(t: BookingTables, b: Booking, now: Time)
    requires BookingsWf(t) && BookingInserted(t, b, now).Ok?
    ensures var w := BookingInserted(t, b, now).value;
      BookingsWf(w.tables) && BookingById(w.tables, w.value.id) == Ok(Hydrate(w.tables, w.value))
  {
    var w := BookingInserted(t, b, now).value;
    var ids := BookingIds(w.tables.bookings);
    assert forall i :: 0 <= i < |t.bookings| ==> ids[i] == BookingIds(t.bookings)[i];
    assert BookingsWf(w.tables);
    FindBookingAt(w.tables.bookings, |t.bookings|);
  }

  /** What UPDATE writes into the row: every column but id and created_at, with updated_at = now. */
  function Overwritten(stored: Booking, b: Booking, now: Time): (r: Booking)
    ensures r.id == stored.id && r.createdAt == stored.createdAt && r.updatedAt == now
    ensures r.(id := b.id, createdAt := b.createdAt, updatedAt := b.updatedAt) == b
  {
    b.(id := stored.id, createdAt := stored.createdAt, updatedAt := now)
  }

  /** The bookings with the rows having `b`'s id overwritten. */
  function WithBooking(bookings: seq<Booking>, b: Booking, now: Time): (r: seq<Booking>)
    ensures |r| == |bookings|
    ensures forall i :: 0 <= i < |bookings| && bookings[i].id != b.id ==> r[i] == bookings[i]
    ensures forall i :: 0 <= i < |bookings| && bookings[i].id == b.id ==> r[i] == Overwritten(bookings[i], b, now)
  {
    seq(|bookings|, i requires 0 <= i < |bookings| =>
      if bookings[i].id == b.id then Overwritten(bookings[i], b, now) else bookings[i])
  }

  /**
   * UPDATE bookings SET ... WHERE id RETURNING updated_at: NotFound when no
   * row has the id, a database error when the new values break a foreign
   * key; the value is the caller's booking with updated_at = now.
   */
  function BookingUpdated(t: BookingTables, b: Booking, now: Time): (r: Result<Written<Booking>, RepoError>)
    ensures r.Err? <==> !HasBooking(t.bookings, b.id) || !References(t, b)
    ensures r.Err? ==> (r.error == NotFound <==> !HasBooking(t.bookings, b.id))
    ensures r.Ok? ==> r.value.value == b.(updatedAt := now)
    ensures r.Ok? ==> r.value.tables == t.(bookings := WithBooking(t.bookings, b, now))
  {
    if !HasBooking(t.bookings, b.id) then Err(NotFound)
    else if !References(t, b) then Err(DatabaseError("foreign key violation"))
    else Ok(Written(t.(bookings := WithBooking(t.bookings, b, now)), b.(updatedAt := now)))
  }

  /** After an update the row reads back with the new values, keeping its id and creation time. */
  lemma UpdatedReadsBack(t: BookingTables, b: Booking, now: Time)
    requires BookingsWf(t) && BookingUpdated(t, b, now).Ok?
    ensures var t2 := BookingUpdated(t, b, now).value.tables;
      && BookingsWf(t2)
      && exists k :: 0 <= k < |t.bookings| && t.bookings[k].id == b.id &&
           BookingById(t2, b.id) == Ok(Hydrate(t2, Overwritten(t.bookings[k], b, now)))
  {
    var t2 := BookingUpdated(t, b, now).value.tables;
    var k :| 0 <= k < |t.bookings| && t.bookings[k].id == b.id;
    assert forall i :: 0 <= i < |t.bookings| ==> t2.bookings[i].id == t.bookings[i].id;
    assert forall i :: 0 <= i < |t.bookings| ==> BookingIds(t2.bookings)[i] == BookingIds(t.bookings)[i];
    assert BookingsWf(t2);
    FindBookingAt(t2.bookings, k);
    assert t2.bookings[k] == Overwritten(t.bookings[k], b, now);
  }

  /** DELETE FROM bookings WHERE id: NotFound when no row is affected. */
  function BookingDeleted(t: BookingTables, id: int): (r: Result<BookingTables, RepoError>)
    ensures r.Err? <==> !HasBooking(t.bookings, id)
    ensures r.Err? ==> r.error == NotFound
    ensures r.Ok? ==> r.value == t.(bookings := BookingsWithout(t.bookings, id)) && !HasBooking(r.value.bookings, id)
  {
    if HasBooking(t.bookings, id) then
      var kept := BookingsWithout(t.bookings, id);
      assert forall i :: 0 <= i < |kept| ==> kept[i] in kept;
      Ok(t.(bookings := kept))
    else Err(NotFound)
  }

  // --------------------------------------------------------------- listing

  /** The WHERE clause of GetBookings: the supplied filters ANDed. */
  predicate BookingMatches(f: BookingFilters, b: Booking) {
    && (f.clientId.Some? ==> b.clientId == f.clientId)
    && (f.tableId.Some? ==> b.tableId == f.tableId.value)
    && (f.staffId.Some? ==> b.staffId == f.staffId)
    && (f.status.Some? && f.status.value != "" ==> b.status == f.status.value)
    && (f.dateFrom.Some? ==> b.startTime >= f.dateFrom.value)
    && (f.dateTo.Some? ==> b.endTime <= f.dateTo.value)
  }

  /** A row the joined query returns: its table exists (inner join) and it passes the filters. */
  predicate Listed(t: BookingTables, f: BookingFilters, b: Booking) {
    b.tableId in t.gameTables && BookingMatches(f, b)
  }

  function MatchingBookings(t: BookingTables, f: BookingFilters): seq<Booking> {
    Filter(t.bookings, b => Listed(t, f, b))
  }

  /** ORDER BY start_time DESC. */
  function BookingKey(b: Booking): SortKey {
    SortKey(b.startTime, 0)
  }

  /** The rows the list query returns, before the joins are attached. */
  function BookingRows(t: BookingTables, f: BookingFilters): seq<Booking> {
    OptionalPage(SortDesc(MatchingBookings(t, f), BookingKey), f.page, f.pageSize)
  }

  function HydrateAll(t: BookingTables, rows: seq<Booking>): (r: seq<BookingView>)
    ensures |r| == |rows| && forall i :: 0 <= i < |rows| ==> r[i] == Hydrate(t, rows[i])
  {
    seq(|rows|, i requires 0 <= i < |rows| => Hydrate(t, rows[i]))
  }

  /**
   * Every listed booking is in the table, passes every supplied filter and
   * has its table; the list is latest start first and, with a page size,
   * at most a page.
   */
  lemma BookingsListedMatch(t: BookingTables, f: BookingFilters)
    ensures var rows := BookingRows(t, f);
      && SortedDesc(rows, BookingKey)
      && (f.pageSize > 0 ==> |rows| <= f.pageSize)
      && (forall i :: 0 <= i < |rows| ==> rows[i] in t.bookings && Listed(t, f, rows[i]))
  {
    OptionalPageListed(t.bookings, b => Listed(t, f, b), BookingKey, f.page, f.pageSize);
  }

  // ----------------------------------------------------- the store itself

  /** The booking tables of the database. */
  class BookingStore {
    var bookings: seq<Booking>
    var nextBookingId: int
    var clients: map<int, string>
    var staffMembers: map<int, Option<int>>
    var gameTables: set<int>

    function State(): BookingTables
      reads this
    {
      BookingTables(bookings, nextBookingId, clients, staffMembers, gameTables)
    }

    constructor (t: BookingTables)
      ensures State() == t
    {
      bookings, nextBookingId := t.bookings, t.nextBookingId;
      clients, staffMembers, gameTables := t.clients, t.staffMembers, t.gameTables;
    }
  }

  /** CheckTableAvailability: reads the table and changes nothing. */
  method CheckTableAvailability(db: BookingStore, tableId: int, start: Time, end: Time, exclude: Option<int>)
    returns (available: bool)
    ensures available == Available(db.State(), tableId, start, end, exclude)
  {
    var count := CountBlocking(db.bookings, tableId, start, end, exclude);
    available := count == 0;
  }

  method GetBookingByID(db: BookingStore, id: int) returns (r: Result<BookingView, RepoError>)
    ensures r == BookingById(db.State(), id)
  {
    var found := FindBooking(db.bookings, id);
    if found.None? || found.value.tableId !in db.gameTables {
      return Err(NotFound);
    }
    r := Ok(Hydrate(db.State(), found.value));
  }

  method CreateBooking(ex: BookingStore, b: Booking, now: Time) returns (r: Result<Booking, RepoError>)
    modifies ex
    ensures var a := BookingInserted(old(ex.State()), b, now);
      if a.Ok? then ex.State() == a.value.tables && r == Ok(a.value.value)
      else ex.State() == old(ex.State()) && r == Err(a.error)
  {
    if !References(ex.State(), b) {
      return Err(DatabaseError("foreign key violation"));
    }
    var row := b.(id := ex.nextBookingId, createdAt := now, updatedAt := now);
    ex.bookings := ex.bookings + [row];
    ex.nextBookingId := ex.nextBookingId + 1;
    r := Ok(row);
  }

  method UpdateBooking(ex: BookingStore, b: Booking, now: Time) returns (r: Result<Booking, RepoError>)
    modifies ex
    ensures var a := BookingUpdated(old(ex.State()), b, now);
      if a.Ok? then ex.State() == a.value.tables && r == Ok(a.value.value)
      else ex.State() == old(ex.State()) && r == Err(a.error)
  {
    if !HasBooking(ex.bookings, b.id) {
      return Err(NotFound);
    }
    if !References(ex.State(), b) {
      return Err(DatabaseError("foreign key violation"));
    }
    ex.bookings := WithBooking(ex.bookings, b, now);
    r := Ok(b.(updatedAt := now));
  }

  method DeleteBooking(ex: BookingStore, id: int) returns (r: Result<(), RepoError>)
    modifies ex
    ensures var a := BookingDeleted(old(ex.State()), id);
      if a.Ok? then ex.State() == a.value && r == Ok(())
      else ex.State() == old(ex.State()) && r == Err(a.error)
  {
    if !HasBooking(ex.bookings, id) {
      return Err(NotFound);
    }
    ex.bookings := BookingsWithout(ex.bookings, id);
    r := Ok(());
  }

  /** GetBookings: the matching bookings, latest start first, joined, with the COUNT(*) OVER() total. */
  method GetBookings(db: BookingStore, f: BookingFilters) returns (views: seq<BookingView>, totalCount: int)
    ensures views == HydrateAll(db.State(), BookingRows(db.State(), f))
    ensures totalCount == ReportedTotal(MatchingBookings(db.State(), f), BookingRows(db.State(), f))
  {
    var matching := MatchingBookings(db.State(), f);
    var rows := BookingRows(db.State(), f);
    views := [];
    totalCount := 0;
    for i := 0 to |rows|
      invariant views == HydrateAll(db.State(), rows[..i])
      invariant totalCount == if i == 0 then 0 else |matching|
    {
      views := views + [Hydrate(db.State(), rows[i])];
      totalCount := |matching|;
    }
    assert rows[..|rows|] == rows;
  }
}
