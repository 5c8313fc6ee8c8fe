/**
 * What the booking operations guarantee together: the rows they write and
 * read back, when creation succeeds, the sticky terminal statuses, and
 * which operations keep a table from being occupied twice at once.
 */
module BookingLifecycle {
  import opened Wrappers
  import opened Store
  import opened GoStrings
  import opened Query
  import opened BookingModels
  import opened BookingRepository
  import opened BookingService

  /** Two bookings occupy the same table at a common instant. */
  predicate Clash(a: Booking, b: Booking) {
    a.tableId == b.tableId && Occupying(a.status) && Occupying(b.status) && Overlaps(a, b.startTime, b.endTime)
  }

  /** No table is occupied by two bookings at once. */
  ghost predicate NoDoubleBooking(t: BookingTables) {
    forall a, b :: a in t.bookings && b in t.bookings && a.id != b.id ==> !Clash(a, b)
  }

  /** A row of the table that clashes with `x` makes the availability query for `x`'s slot answer no. */
  lemma ClashSeen(t: BookingTables, x: Booking, b: Booking, exclude: Option<int>)
    requires b in t.bookings && (Clash(x, b) || Clash(b, x))
    requires exclude.Some? ==> b.id != exclude.value
    ensures !Available(t, x.tableId, x.startTime, x.endTime, exclude)
  {
    var i :| 0 <= i < |t.bookings| && t.bookings[i] == b;
    assert Blocks(t.bookings[i], x.tableId, x.startTime, x.endTime, exclude);
  }

  /** A row after an update is either an untouched row or carries the written values under the written id. */
  lemma InWithBooking(s: seq<Booking>, m: Booking, now: Time, x: Booking)
    requires x in WithBooking(s, m, now)
    ensures (x in s && x.id != m.id) ||
      (x.id == m.id && x.tableId == m.tableId && x.status == m.status && x.startTime == m.startTime && x.endTime == m.endTime)
  {
    var w := WithBooking(s, m, now);
    var i :| 0 <= i < |w| && w[i] == x;
  }

  // --------------------------------------------------------------- create

  /**
   * A successful CreateBooking appends exactly the requested booking (the
   * validated times, the requested or default status, the staff member,
   * `now` as both timestamps, the next id) and returns it as read back;
   * a failed one writes nothing.
   */
  lemma CreateBookingInserts(t: BookingTables, req: CreateBookingRequest, parse: string -> Option<Time>, now: Time)
    requires BookingsWf(t)
    ensures var o := CreateBookingSpec(t, req, parse, now);
      o.result.Err? ==> o.tables == t
    ensures var o := CreateBookingSpec(t, req, parse, now);
      o.result.Ok? ==>
        var times := BookingTimes(parse, req.startTime, req.endTime, false, None, now).value;
        var b := o.result.value.booking;
        && b == Booking(t.nextBookingId, req.clientId, req.tableId, Some(req.staffId), times.0, times.1,
                        req.numberOfGuests, RequestedStatus(req.status), req.notes, None, now, now)
        && IsValidBookingStatus(b.status)
        && o.tables == t.(bookings := t.bookings + [b], nextBookingId := t.nextBookingId + 1)
        && o.result.value == Hydrate(o.tables, b)
        && BookingsWf(o.tables)
  {
    var times := BookingTimes(parse, req.startTime, req.endTime, false, None, now);
    if times.Ok? {
      var b := Booking(0, req.clientId, req.tableId, Some(req.staffId), times.value.0, times.value.1,
                       req.numberOfGuests, RequestedStatus(req.status), req.notes, None, ZeroTime, ZeroTime);
      if BookingInserted(t, b, now).Ok? {
        InsertedReadsBack(t, b, now);
      }
    }
  }

  /**
   * CreateBooking succeeds exactly when the times are valid, the client
   * (when given) and the staff member exist, the staff member has a user
   * account (else the staff lookup's scan fails), the table is free for
   * the slot, a non-blank requested status is valid, and the table exists.
   */
  lemma CreateBookingSucceeds(t: BookingTables, req: CreateBookingRequest, parse: string -> Option<Time>, now: Time)
    requires BookingsWf(t)
    ensures var times := BookingTimes(parse, req.startTime, req.endTime, false, None, now);
      CreateBookingSpec(t, req, parse, now).result.Ok? <==>
        && times.Ok?
        && (req.clientId.Some? ==> req.clientId.value in t.clients)
        && req.staffId in t.staffMembers && t.staffMembers[req.staffId].Some?
        && Available(t, req.tableId, times.value.0, times.value.1, None)
        && (req.status.Some? && TrimSpace(req.status.value) != "" ==> IsValidBookingStatus(req.status.value))
        && req.tableId in t.gameTables
  {
    CreateBookingInserts(t, req, parse, now);
  }

  /** A created booking never double-books its table. */
  lemma CreateBookingKeepsNoDoubleBooking(t: BookingTables, req: CreateBookingRequest, parse: string -> Option<Time>, now: Time)
    requires BookingsWf(t) && NoDoubleBooking(t)
    ensures NoDoubleBooking(CreateBookingSpec(t, req, parse, now).tables)
  {
    var o := CreateBookingSpec(t, req, parse, now);
    CreateBookingInserts(t, req, parse, now);
    if o.result.Ok? {
      var b := o.result.value.booking;
      forall x, y | x in o.tables.bookings && y in o.tables.bookings && x.id != y.id
        ensures !Clash(x, y)
      {
        if x == b && Clash(x, y) {
          ClashSeen(t, b, y, None);
        } else if y == b && Clash(x, y) {
          ClashSeen(t, b, x, None);
        }
      }
    }
  }

  // --------------------------------------------------------------- update

  /**
   * A successful UpdateBooking writes the stored booking merged with the
   * request (unsupplied fields kept, see `Merged`) and returns it as read
   * back; when times were supplied the new slot was free apart from the
   * booking itself. A failed one writes nothing.
   */
  lemma UpdateBookingWrites(t: BookingTables, id: int, req: UpdateBookingRequest,
                            parse: string -> Option<Time>, format: Time -> string, now: Time)
    requires BookingsWf(t)
    ensures var o := UpdateBookingSpec(t, id, req, parse, format, now);
      o.result.Err? ==> o.tables == t
    ensures var o := UpdateBookingSpec(t, id, req, parse, format, now);
      o.result.Ok? ==> BookingById(t, id).Ok? && UpdatedTimes(BookingById(t, id).value.booking, req, parse, format, now).Ok?
    ensures var o := UpdateBookingSpec(t, id, req, parse, format, now);
      o.result.Ok? ==>
        var b := BookingById(t, id).value.booking;
        var times := UpdatedTimes(b, req, parse, format, now).value;
        var m := Merged(b, req, times.0, times.1);
        && b.status != BookingStatusCompleted && b.status != BookingStatusCancelled
        && o.result.value.booking == Overwritten(b, m, now)
        && o.tables == t.(bookings := WithBooking(t.bookings, m, now))
        && BookingsWf(o.tables)
        && (req.startTime.Some? || req.endTime.Some? ==> Available(t, m.tableId, times.0, times.1, Some(id)))
  {
    var o := UpdateBookingSpec(t, id, req, parse, format, now);
    if BookingById(t, id).Ok? {
      var b := BookingById(t, id).value.booking;
      if b.status != BookingStatusCompleted && b.status != BookingStatusCancelled {
        var p := UpdatePrepared(t, id, b, req, parse, format, now);
        if p.Ok? {
          var u := BookingUpdated(t, p.value, now);
          if u.Ok? {
            assert o == Outcome(u.value.tables, Reread(u.value.tables, id));
            UpdatedReadsBack(t, p.value, now);
            var k :| 0 <= k < |t.bookings| && t.bookings[k].id == id &&
              BookingById(u.value.tables, id) == Ok(Hydrate(u.value.tables, Overwritten(t.bookings[k], p.value, now)));
            FindBookingAt(t.bookings, k);
            assert t.bookings[k] == b;
          }
        }
      }
    }
  }

  /**
   * An update that supplies no time is never checked for availability,
   * even when it moves the booking to another table: line 220 overwrites
   * the table before line 238 compares it.
   */
  lemma UpdateWithoutTimesNotRechecked(t: BookingTables, id: int, req: UpdateBookingRequest,
                                       parse: string -> Option<Time>, format: Time -> string, now: Time)
    requires BookingById(t, id).Ok?
    requires BookingById(t, id).value.booking.status !in {BookingStatusCompleted, BookingStatusCancelled}
    requires req.startTime.None? && req.endTime.None?
    requires req.status.Some? ==> IsValidBookingStatus(req.status.value)
    requires var b := BookingById(t, id).value.booking; References(t, Merged(b, req, b.startTime, b.endTime))
    ensures UpdateBookingSpec(t, id, req, parse, format, now).result.Ok?
  {
    var b := BookingById(t, id).value.booking;
    var m := Merged(b, req, b.startTime, b.endTime);
    TableTestAlwaysFalse(b, req);
    assert UpdatePrepared(t, id, b, req, parse, format, now) == Ok(m);
    var w := BookingUpdated(t, m, now).value.tables;
    var found := FindBooking(w.bookings, id);
    assert found.Some? by {
      var i :| 0 <= i < |t.bookings| && t.bookings[i].id == id;
      assert w.bookings[i].id == id;
    }
    InWithBooking(t.bookings, m, now, found.value);
  }

  /** An update that supplies a time keeps every table free of double bookings. */
  lemma UpdateWithTimesKeepsNoDoubleBooking(t: BookingTables, id: int, req: UpdateBookingRequest,
                                            parse: string -> Option<Time>, format: Time -> string, now: Time)
    requires NoDoubleBooking(t)
    requires req.startTime.Some? || req.endTime.Some?
    ensures NoDoubleBooking(UpdateBookingSpec(t, id, req, parse, format, now).tables)
  {
    var o := UpdateBookingSpec(t, id, req, parse, format, now);
    if o.tables != t {
      var b := BookingById(t, id).value.booking;
      var m := UpdatePrepared(t, id, b, req, parse, format, now).value;
      assert o.tables.bookings == WithBooking(t.bookings, m, now);
      forall x, y | x in o.tables.bookings && y in o.tables.bookings && x.id != y.id
        ensures !Clash(x, y)
      {
        InWithBooking(t.bookings, m, now, x);
        InWithBooking(t.bookings, m, now, y);
        if x.id == m.id && Clash(x, y) {
          ClashSeen(t, m, y, Some(id));
        } else if y.id == m.id && Clash(x, y) {
          ClashSeen(t, m, x, Some(id));
        }
      }
    }
  }

  /**
   * Without a time the update can double-book: moving a confirmed booking
   * onto a table confirmed for the same hour succeeds.
   */
  lemma TableMoveDoubleBooks(parse: string -> Option<Time>, format: Time -> string, now: Time)
    ensures var a := Booking(1, None, 1, None, 10 * Hour, 11 * Hour, None, BookingStatusConfirmed, None, None, 0, 0);
      var t := BookingTables([a, a.(id := 2, tableId := 2)], 3, map[], map[], {1, 2});
      var o := UpdateBookingSpec(t, 2, UpdateBookingRequest(Some(1), None, None, None, None, None), parse, format, now);
      && BookingsWf(t) && NoDoubleBooking(t)
      && o.result.Ok? && !NoDoubleBooking(o.tables)
  {
    var a := Booking(1, None, 1, None, 10 * Hour, 11 * Hour, None, BookingStatusConfirmed, None, None, 0, 0);
    var b := a.(id := 2, tableId := 2);
    var t := BookingTables([a, b], 3, map[], map[], {1, 2});
    var req := UpdateBookingRequest(Some(1), None, None, None, None, None);
    assert FindBooking(t.bookings, 2) == Some(b) by {
      assert t.bookings[1..] == [b];
    }
    assert BookingById(t, 2) == Ok(Hydrate(t, b));
    assert "confirmed" != "completed" && "confirmed" != "cancelled";
    UpdateWithoutTimesNotRechecked(t, 2, req, parse, format, now);
    var o := UpdateBookingSpec(t, 2, req, parse, format, now);
    var m := Merged(b, req, b.startTime, b.endTime);
    assert o.tables.bookings == WithBooking(t.bookings, m, now);
    var moved := o.tables.bookings[1];
    assert moved == Overwritten(b, m, now);
    assert a == o.tables.bookings[0];
    assert Clash(a, moved);
    assert forall x :: x in t.bookings ==> x == a || x == b;
  }

  /**
   * Updating only the end time re-reads the stored start from its RFC 3339
   * text, which drops the fraction of a second: the start written is the
   * stored one truncated to the second.
   */
  lemma EndOnlyUpdateTruncatesStart(t: BookingTables, id: int, req: UpdateBookingRequest,
                                    parse: string -> Option<Time>, format: Time -> string, now: Time)
    requires BookingsWf(t)
    requires BookingById(t, id).Ok?
    requires req.startTime.None? && req.endTime.Some?
    requires var s := BookingById(t, id).value.booking.startTime; parse(format(s)) == Some(TruncateToSecond(s))
    ensures var o := UpdateBookingSpec(t, id, req, parse, format, now);
      o.result.Ok? ==> o.result.value.booking.startTime == TruncateToSecond(BookingById(t, id).value.booking.startTime)
  {
    UpdateBookingWrites(t, id, req, parse, format, now);
  }

  /**
   * So a booking whose stored start has a fraction of a second and lies
   * more than five minutes in the past cannot have its end changed on its
   * own: the truncated start counts as a moved start, and a moved start
   * may not be in the past.
   */
  lemma FractionalStartBlocksEndOnlyUpdate(t: BookingTables, id: int, req: UpdateBookingRequest,
                                           parse: string -> Option<Time>, format: Time -> string, now: Time)
    requires BookingById(t, id).Ok?
    requires BookingById(t, id).value.booking.status !in {BookingStatusCompleted, BookingStatusCancelled}
    requires req.startTime.None? && req.endTime.Some?
    requires var s := BookingById(t, id).value.booking.startTime;
      && parse(format(s)) == Some(TruncateToSecond(s))
      && s % Second != 0
      && TruncateToSecond(s) < now - PastTolerance
    ensures UpdateBookingSpec(t, id, req, parse, format, now) == Outcome(t, Err(InvalidBookingTime))
  {
    var b := BookingById(t, id).value.booking;
    assert TruncateToSecond(b.startTime) != b.startTime;
  }

  /** A whole-second start survives the round trip, so the past rule never refuses an end-only update. */
  lemma WholeSecondStartKept(b: Booking, req: UpdateBookingRequest,
                             parse: string -> Option<Time>, format: Time -> string, now: Time, later: Time)
    requires req.startTime.None? && req.endTime.Some?
    requires parse(format(b.startTime)) == Some(TruncateToSecond(b.startTime))
    requires b.startTime % Second == 0
    ensures UpdatedTimes(b, req, parse, format, now) == UpdatedTimes(b, req, parse, format, later)
    ensures UpdatedTimes(b, req, parse, format, now).Ok? ==> UpdatedTimes(b, req, parse, format, now).value.0 == b.startTime
  {
  }

  // --------------------------------------------------------------- status

  /**
   * updateBookingStatus writes the new status and update time and nothing
   * else; it succeeds whenever the transition is allowed and the stored
   * row's references hold, and a failure writes nothing.
   */
  lemma StatusUpdateWrites(t: BookingTables, id: int, newStatus: string, now: Time)
    requires BookingsWf(t)
    ensures var o := StatusUpdateSpec(t, id, newStatus, now);
      o.result.Err? ==> o.tables == t
    ensures var o := StatusUpdateSpec(t, id, newStatus, now);
      o.result.Ok? ==>
        var b := BookingById(t, id).value.booking;
        && References(t, b)
        && o.result.value.booking == b.(status := newStatus, updatedAt := now)
        && o.tables == t.(bookings := WithBooking(t.bookings, b.(status := newStatus), now))
        && BookingById(o.tables, id) == Ok(o.result.value)
        && BookingsWf(o.tables)
    ensures (BookingById(t, id).Ok? && TransitionAllowed(BookingById(t, id).value.booking.status, newStatus) &&
             References(t, BookingById(t, id).value.booking)) ==> StatusUpdateSpec(t, id, newStatus, now).result.Ok?
  {
    if BookingById(t, id).Ok? {
      var b := BookingById(t, id).value.booking;
      if TransitionAllowed(b.status, newStatus) && BookingUpdated(t, b.(status := newStatus), now).Ok? {
        StatusWritten(t, id, b, newStatus, now);
      }
    }
  }

  /** The row a status update rewrites reads back with the new status and update time. */
  lemma StatusWritten(t: BookingTables, id: int, b: Booking, newStatus: string, now: Time)
    requires BookingsWf(t) && BookingById(t, id).Ok? && b == BookingById(t, id).value.booking
    requires BookingUpdated(t, b.(status := newStatus), now).Ok?
    ensures var t2 := t.(bookings := WithBooking(t.bookings, b.(status := newStatus), now));
      BookingsWf(t2) && BookingById(t2, id) == Ok(Hydrate(t2, b.(status := newStatus, updatedAt := now)))
  {
    var m := b.(status := newStatus);
    UpdatedReadsBack(t, m, now);
    var t2 := BookingUpdated(t, m, now).value.tables;
    var k :| 0 <= k < |t.bookings| && t.bookings[k].id == id &&
      BookingById(t2, id) == Ok(Hydrate(t2, Overwritten(t.bookings[k], m, now)));
    FindBookingAt(t.bookings, k);
  }

  /** Cancelling a cancelled booking succeeds again, and the booking stays cancelled. */
  lemma CancelTwiceSucceeds(t: BookingTables, id: int, now1: Time, now2: Time)
    requires BookingsWf(t)
    requires CancelBookingSpec(t, id, now1).result.Ok?
    ensures var o2 := CancelBookingSpec(CancelBookingSpec(t, id, now1).tables, id, now2);
      o2.result.Ok? && o2.result.value.booking.status == BookingStatusCancelled
  {
    var o1 := CancelBookingSpec(t, id, now1);
    StatusUpdateWrites(t, id, BookingStatusCancelled, now1);
    StatusUpdateWrites(o1.tables, id, BookingStatusCancelled, now2);
    var o2 := CancelBookingSpec(o1.tables, id, now2);
    if o2.result.Ok? {
      assert o2.result.value.booking.status == BookingStatusCancelled;
    }
  }

  /** A completed booking can be completed again but never take another status. */
  lemma CompletedIsSticky(t: BookingTables, id: int, newStatus: string, now: Time)
    requires BookingById(t, id).Ok? && BookingById(t, id).value.booking.status == BookingStatusCompleted
    ensures StatusUpdateSpec(t, id, newStatus, now).result.Ok? ==> newStatus == BookingStatusCompleted
    ensures newStatus != BookingStatusCompleted ==> StatusUpdateSpec(t, id, newStatus, now) == Outcome(t, Err(BookingStatusUpdate))
    ensures newStatus != BookingStatusCompleted ==> CancelBookingSpec(t, id, now).result == Err(BookingStatusUpdate)
  {
    assert "cancelled" != "completed";
  }

  /** Cancelling or completing frees the slot, so it keeps every table free of double bookings. */
  lemma StatusUpdateKeepsNoDoubleBooking(t: BookingTables, id: int, newStatus: string, now: Time)
    requires NoDoubleBooking(t)
    requires newStatus == BookingStatusCancelled || newStatus == BookingStatusCompleted
    ensures NoDoubleBooking(StatusUpdateSpec(t, id, newStatus, now).tables)
  {
    var o := StatusUpdateSpec(t, id, newStatus, now);
    assert "cancelled" != "confirmed" && "cancelled" != "checked-in";
    assert "completed" != "confirmed" && "completed" != "checked-in";
    if o.tables != t {
      var b := BookingById(t, id).value.booking;
      var m := b.(status := newStatus);
      assert o.tables.bookings == WithBooking(t.bookings, m, now);
      forall x, y | x in o.tables.bookings && y in o.tables.bookings && x.id != y.id
        ensures !Clash(x, y)
      {
        InWithBooking(t.bookings, m, now, x);
        InWithBooking(t.bookings, m, now, y);
      }
    }
  }

  // --------------------------------------------------------------- delete

  /** Deleting a booking keeps every table free of double bookings. */
  lemma DeleteKeepsNoDoubleBooking(t: BookingTables, id: int)
    requires NoDoubleBooking(t)
    ensures DeleteBookingSpec(t, id).Ok? ==> NoDoubleBooking(DeleteBookingSpec(t, id).value)
  {
  }

  // --------------------------------------------------------------- listing

  /**
   * The service's list is always paginated: at most the page size, ten
   * when none is given; latest start first; only matching bookings.
   */
  lemma ServiceListIsAPage(t: BookingTables, f: BookingFilters)
    ensures var rows := BookingRows(t, DefaultedFilters(f));
      && |rows| <= DefaultedFilters(f).pageSize
      && (f.pageSize <= 0 ==> |rows| <= 10)
      && SortedDesc(rows, BookingKey)
      && (forall i :: 0 <= i < |rows| ==> rows[i] in t.bookings && Listed(t, DefaultedFilters(f), rows[i]))
  {
    BookingsListedMatch(t, DefaultedFilters(f));
  }
}
