/**
 * internal/models/table_booking_models.go: the booking statuses, the
 * booking row and the filters of the bookings list.
 */
module BookingModels {
  import opened Wrappers
  import opened Store

  const BookingStatusConfirmed: string := "confirmed"
  const BookingStatusCancelled: string := "cancelled"
  const BookingStatusCompleted: string := "completed"
  const BookingStatusNoShow: string := "no-show"
  const BookingStatusPending: string := "pending"

  /**
   * The status the availability check counts as occupying besides
   * "confirmed". The repository names it, but the models file does not
   * define it, so it is not one of the valid statuses.
   */
  const BookingStatusCheckedIn: string := "checked-in"

  const BookingStatuses: set<string> :=
    {BookingStatusConfirmed, BookingStatusCancelled, BookingStatusCompleted, BookingStatusNoShow, BookingStatusPending}

  /** IsValidBookingStatus: one of the five constants, compared exactly. */
  predicate IsValidBookingStatus(status: string) {
    status in BookingStatuses
  }

  /**
   * Exactly five statuses are valid; "checked-in" is not one of them, the
   * comparison is case-sensitive and "" is invalid.
   */
  lemma BookingStatusesExact()
    ensures |BookingStatuses| == 5
    ensures forall s :: IsValidBookingStatus(s) <==>
      s == "confirmed" || s == "cancelled" || s == "completed" || s == "no-show" || s == "pending"
    ensures !IsValidBookingStatus(BookingStatusCheckedIn)
    ensures !IsValidBookingStatus("") && !IsValidBookingStatus("Confirmed") && !IsValidBookingStatus("CANCELLED")
  {
    assert "confirmed" != "cancelled" && "completed" != "no-show" && "pending" != "checked-in";
    assert |{BookingStatusConfirmed, BookingStatusCancelled}| == 2;
    assert |{BookingStatusConfirmed, BookingStatusCancelled, BookingStatusCompleted}| == 3;
    assert |{BookingStatusConfirmed, BookingStatusCancelled, BookingStatusCompleted, BookingStatusNoShow}| == 4;
  }

  /** A row of bookings; the price is in cents. */
  datatype Booking = Booking(
    id: int, clientId: Option<int>, tableId: int, staffId: Option<int>, startTime: Time, endTime: Time,
    numberOfGuests: Option<int>, status: string, notes: Option<string>, totalPrice: Option<int>,
    createdAt: Time, updatedAt: Time)

  /** BookingFilters; nil, or an empty status, does not filter. */
  datatype BookingFilters = BookingFilters(
    clientId: Option<int>, tableId: Option<int>, staffId: Option<int>,
    dateFrom: Option<Time>, dateTo: Option<Time>, status: Option<string>, page: int, pageSize: int)
}
