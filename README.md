# PS_CRM back office, modelled in Dafny

PS_CRM is the back-office service of a venue that rents game tables by the hour and sells stock-tracked goods (bar, hookah, snacks). This project models its core in Dafny and proves what that core guarantees:

- **Order and stock ledger** (`order_service`, `order_repository`, `inventory_movement_repository`, `pricelist_repository`, `order_ledger`, `store`). Orders are created, re-statused and deleted inside a database transaction. The tables are fields of the class `Store.Store`. A transaction works on a fresh copy of the store and publishes it only on commit. Proved:
  - stock equals the initial stock plus the sum of the movements' deltas;
  - an order's total is the sum of its line totals, and the final amount is clamped at zero;
  - a failed operation changes no table;
  - the known quirks hold: two lines of one item are each checked against the stock before the order, and cancelled → pending → cancelled returns the stock twice.
- **Booking availability and lifecycle** (`booking_models`, `booking_repository`, `booking_service`, `booking_lifecycle`):
  - the half-open overlap check over the occupying bookings (confirmed and checked-in);
  - the duration and not-in-the-past rules;
  - the sticky terminal statuses;
  - which operations keep a table from being booked twice. An update that only moves a booking to another table skips the check, because the table id is overwritten before it is compared.
- **Record rules** of the pricelist (`pricelist_service`, `pricelist_rules`), staff (`staff_service`, `staff_rules`) and clients (`client_service`, `client_rules`). Each partial update is a merge function, proved against the method that performs it field by field. Each operation is stated against the tables together with the invariant it keeps.
- **Authentication** (`auth_service`, `auth_rules`, `auth_middleware`):
  - role-name resolution and the role claim of a token;
  - the duplicate-key mapping of registration;
  - the login error cases and the clearing of the password hash;
  - parsing of the `Authorization: Bearer` header (section 2.1 of RFC 6750);
  - the case-insensitive role check.
- **Utilities**:
  - the hand-written buffer `join` of the inventory handlers, an imperative loop over an array;
  - the stock-status classification, the day/week/month windows and the end-date rule of the report handlers;
  - the validation helpers and the error body of `pkg/utils`;
  - `NewNullString`;
  - the functions of Go's `strings` package the service relies on (`go_strings`).

Conventions used throughout:
- Money is an integer number of cents.
- Time is an integer number of nanoseconds since the Unix epoch, and the current time is always a parameter.
- Library calls enter as function parameters: time.Parse layouts, bcrypt, token signing and validation, regular expressions, and database faults.

## Model

| member | source | states |
|---|---|---|
| ErrorUtils.NewAPIError | pkg/utils/error_utils.go:20-27 | the error body carries exactly the status, code, message and details it was given |
| ErrorUtils.ValidationFailed | pkg/utils/error_utils.go:80-82 | a validation failure is always status 400, code VALIDATION_FAILED, message "Input validation failed", with the caller's details |
| ErrorUtils.IsEmptyIffAllSpace | pkg/utils/error_utils.go:48-51 | a string counts as empty exactly when every character is white space |
| ErrorUtils.IsValidEmailIgnoresCase | pkg/utils/error_utils.go:53-58 | because the address is lower-cased before matching, two addresses equal up to ASCII case get the same verdict |
| ErrorUtils.IsValidEmailOfLowered | pkg/utils/error_utils.go:56-58 | lower-casing an address before the check changes nothing |
| ErrorUtils.PasswordLengthMonotone | pkg/utils/error_utils.go:60-63 | the length is counted in UTF-8 bytes, as Go's `len` does: a valid password stays valid when extended, a minimum of 0 or less admits every password, `minLength` characters always suffice and fewer than a quarter of it never do |
| ErrorUtils.PasswordLengthCountsBytes | pkg/utils/error_utils.go:60-63 | five two-byte letters pass a minimum of 8 while five ASCII letters do not |
| StringUtils.NewNullString | pkg/utils/string_utils.go:3-10 | the empty string becomes NULL and only it; any other string is kept unchanged |
| StringUtils.NewNullStringRoundTrip | pkg/utils/string_utils.go:5-10 | the result never holds "", and reading NULL back as "" returns the input |
| Query.SortDesc | internal/repositories/order_repository.go:144 | ORDER BY … DESC: the result is sorted newest first and is a permutation of the input |
| Query.InsertDesc | internal/repositories/booking_repository.go:213 | inserting a row into a descending list keeps it descending and adds exactly that row |
| Query.Filter | internal/repositories/order_repository.go:106-143 | WHERE: the result holds exactly the rows of the table that pass the test, and no more rows than the table |
| Query.FilterSameTest | internal/repositories/booking_repository.go:197-212 | two WHERE clauses that agree on every row select the same rows |
| Query.Window | internal/repositories/inventory_movement_repository.go:97-98 | LIMIT/OFFSET: at most `limit` rows, the rows from `offset` on in order, empty past the end, and full unless the end is reached |
| Query.OptionalPage | internal/repositories/order_repository.go:145-155 | LIMIT only for a positive page size; OFFSET (page-1)*size only for a positive page as well; otherwise the rows are returned whole or from the start |
| Query.FixedPage | internal/repositories/inventory_movement_repository.go:96-98 | LIMIT size OFFSET (page-1)*size always: refused exactly when the size or the offset is negative, otherwise that window |
| Query.ReportedTotal | internal/repositories/booking_repository.go:233-243 | the total scanned from COUNT(*) OVER() is the number of matching rows when a row comes back and 0 when none does |
| Query.TotalReportedWhenPageInRange | internal/repositories/order_repository.go:160-206 | a page that starts inside the list reports the full match count |
| Query.TotalZeroPastTheEnd | internal/repositories/booking_repository.go:240-242 | a page past the end is empty and reports a total of 0, not the match count |
| Query.WindowOfSortedFiltered | internal/repositories/inventory_movement_repository.go:55-98 | every row of a window of a sorted filtered table comes from the table, passes the filter, and the window is in descending key order |
| Query.OptionalPageListed | internal/repositories/order_repository.go:85-155 | an optionally paginated list returns rows of the table that pass the filter, newest first, at most a page of them when the size is positive |
| Query.FixedPageListed | internal/repositories/inventory_movement_repository.go:55-98 | the same for the always-paginated list whenever the database accepts the window |
| Query.PageDefaults | internal/services/pricelist_service.go:119-122 | a page below 1 becomes 1, a size below 1 becomes 10, and positive values are kept |
| Query.DefaultPageAccepted | internal/services/staff_service.go:185-189 | after the defaults the always-paginated query is never refused, and applying the defaults twice changes nothing |
| Store.Commit | internal/services/order_service.go:228-230 | committing makes the transaction's tables the committed ones |
| MovementRepository.MovementInserted | internal/repositories/inventory_movement_repository.go:27-53 | a zero movement date becomes now, the timestamps are now, the new id is the next serial value, and an unknown item breaks the foreign key |
| MovementRepository.MovementInsertAppends | internal/repositories/inventory_movement_repository.go:27-53 | an insert keeps the earlier log as a prefix and appends exactly one row with the caller's item, actor, kind, quantity and reason |
| MovementRepository.CreateMovement | internal/repositories/inventory_movement_repository.go:27-53 | the executor's tables become those of the insert and the caller gets the stored movement back |
| MovementRepository.ScanMovement | internal/repositories/inventory_movement_repository.go:105-150 | a scanned row has a staff member exactly when staff_id is not NULL, and carries the row's fields |
| MovementRepository.GetMovements | internal/repositories/inventory_movement_repository.go:55-155 | the rows returned are the page of matching movements, newest first, with the COUNT(*) OVER() total, or the database's refusal |
| MovementRepository.MovementsListedMatch | internal/repositories/inventory_movement_repository.go:59-98 | every listed movement is in the log and passes every supplied filter; the page is newest first and at most a page long |
| MovementRepository.MovementsRefuseNegativeWindow | internal/repositories/inventory_movement_repository.go:97-98 | a negative page size, or a page before the first, is refused rather than clamped |
| OrderRepository.FillIfZero | internal/repositories/order_repository.go:48-50 | a zero timestamp becomes now; any other is kept |
| OrderRepository.OrderInserted | internal/repositories/order_repository.go:40-62 | the stored row is the caller's order with the next serial id and zero timestamps filled with now |
| OrderRepository.FindOrder | internal/repositories/order_repository.go:64-83 | the first row with the id, and none exactly when no row has it |
| OrderRepository.OrderById | internal/repositories/order_repository.go:64-83 | the committed row with the id, NotFound exactly when there is none |
| OrderRepository.WithStatus | internal/repositories/order_repository.go:209-215 | only the rows with the id change, and only in status and updated_at |
| OrderRepository.FindOrderAfterStatus | internal/repositories/order_repository.go:209-223 | after the update the order reads back with the new status and update time and nothing else changed |
| OrderRepository.OrderStatusUpdated | internal/repositories/order_repository.go:209-223 | NotFound exactly when no row has the id; otherwise the updated table |
| OrderRepository.OrdersWithout | internal/repositories/order_repository.go:225-231 | the remaining rows are exactly the rows without the id, in table order |
| OrderRepository.OrderDeleted | internal/repositories/order_repository.go:225-239 | NotFound on zero rows affected, otherwise the table without the order and the count removed |
| OrderRepository.OrderItemInserted | internal/repositories/order_repository.go:243-265 | zero timestamps are filled with now, the row gets the next id, and an unknown order or catalogue item breaks a foreign key |
| OrderRepository.ItemsOfOrder | internal/repositories/order_repository.go:267-312 | the order's items that join a catalogue item, in table order |
| OrderRepository.FilterAscending | internal/repositories/order_repository.go:277 | a filter of a table with ascending ids keeps the ids ascending |
| OrderRepository.ItemsOfOrderAscending | internal/repositories/order_repository.go:267-312 | GetOrderItemsByOrderID returns exactly the order's joinable items in ascending id order (ORDER BY oi.id) |
| OrderRepository.ItemsNotOf | internal/repositories/order_repository.go:314-318 | the remaining items are exactly those of other orders |
| OrderRepository.OrderItemsDeleted | internal/repositories/order_repository.go:314-325 | every item of the order goes, the count may be zero, and no error is raised for zero rows |
| OrderRepository.CreateOrder | internal/repositories/order_repository.go:40-62 | the executor's tables become those of the insert and the caller's order comes back with its id and timestamps |
| OrderRepository.UpdateOrderStatus | internal/repositories/order_repository.go:209-223 | the executor's tables become the updated ones, or stay unchanged with NotFound |
| OrderRepository.DeleteOrder | internal/repositories/order_repository.go:225-239 | the executor's tables lose the order, or stay unchanged with NotFound |
| OrderRepository.CreateOrderItem | internal/repositories/order_repository.go:243-265 | the executor's tables gain the item, or stay unchanged with the foreign-key error |
| OrderRepository.DeleteOrderItemsByOrderID | internal/repositories/order_repository.go:314-325 | the executor's tables lose all the order's items and the count is returned |
| OrderRepository.GetOrderItemsByOrderID | internal/repositories/order_repository.go:267-312 | the scan loop returns exactly the joined rows of the order |
| OrderRepository.GetOrders | internal/repositories/order_repository.go:85-207 | the rows returned are the optionally paginated matching orders, latest first, with the COUNT(*) OVER() total |
| OrderRepository.OrdersListedMatch | internal/repositories/order_repository.go:104-155 | every listed order is in the table and passes every supplied filter; the list is latest first and at most a page when a page size is given |
| OrderRepository.OrdersUnpaginated | internal/repositories/order_repository.go:145-206 | without a page size every matching order is returned and the total is their number when there is one |
| OrderService.OrderStatusesExact | internal/services/order_service.go:406-414 | exactly the eight status constants are valid, compared case-sensitively; "" is not one of them |
| OrderService.FinalAmount | internal/services/order_service.go:186-192 | without a discount the amount due is the total; with one it is the total less the discount, but never below zero |
| OrderService.Record | internal/services/order_service.go:160-175 | a ledger entry succeeds only for an existing item that tracks stock, adjusting its stock and appending the movement |
| OrderService.SaleMovement | internal/services/order_service.go:164-171 | a sale movement names the line's item and the order's staff member and takes the quantity out (negative change) |
| OrderService.ReturnMovement | internal/services/order_service.go:314-321 | a return movement names the item, the order's staff member and the given kind, and gives the quantity back (positive change) |
| OrderService.OrderReason | internal/services/order_service.go:319 | the reason text starts with "Order " followed by the order id |
| OrderService.LookupError | internal/services/order_service.go:145-150 | a failed price lookup is reported as an unknown item exactly when the repository said NotFound |
| OrderService.PendingItem | internal/services/order_service.go:177-183 | the stored line carries the item, the quantity, the unit price and price times quantity |
| OrderService.Step | internal/services/order_service.go:140-184 | a non-positive quantity is a validation error, an unknown item is PricelistItemNotFound, a tracked item with too little committed stock is InsufficientStock, otherwise the total grows by price times quantity |
| OrderService.ProcessLines | internal/services/order_service.go:140-184 | a successful line loop yields one pending item per requested line |
| OrderService.OrderHeader | internal/services/order_service.go:198-212 | the order row carries the total, the discounted final amount, the staff member, the requested status and the current time |
| OrderService.CreateOrderSpec | internal/services/order_service.go:130-234 | an invalid status always fails the request, and then nothing is committed |
| OrderService.OrderDetailsOf | internal/services/order_service.go:246-276 | OrderNotFound exactly when no order has the id; otherwise the stored order with only its own items |
| OrderService.ReturnOne | internal/services/order_service.go:302-327 | an item that does not track stock leaves the transaction unchanged |
| OrderService.ServiceError | internal/services/order_service.go:331-336 | the repository's NotFound, and only it, becomes OrderNotFound |
| OrderService.UpdateOrderStatusSpec | internal/services/order_service.go:278-342 | an invalid status is refused before anything else, and an unknown order gives OrderNotFound |
| OrderService.DeleteOrderSpec | internal/services/order_service.go:344-404 | an unknown order gives OrderNotFound; after a delete neither the order nor any of its items remains |
| OrderService.ProcessLinesErrorSticks | internal/services/order_service.go:140-150 | once the line loop has failed the remaining lines do not change its error (the loop returns at the first failure) |
| OrderService.InsertItemsErrorSticks | internal/services/order_service.go:220-226 | once the item-insert loop has failed the remaining items do not change its error |
| OrderService.ReturnStockErrorSticks | internal/services/order_service.go:302-327 | once the stock-return loop has failed the remaining items do not change its error |
| OrderService.RecordMovement | internal/services/order_service.go:160-175 | the transaction's tables become those of the ledger entry, or the error is returned |
| OrderService.GetOrderByID | internal/services/order_service.go:246-276 | the result is the order and its items as read from the committed tables |
| OrderService.ProcessOrderLines | internal/services/order_service.go:137-184 | the loop leaves the transaction, total and pending items exactly as the line-loop specification says |
| OrderService.InsertOrderItems | internal/services/order_service.go:220-226 | the loop leaves the transaction exactly as the item-insert specification says |
| OrderService.CreateOrder | internal/services/order_service.go:130-234 | the committed tables and the result are those of the CreateOrder specification; on an error nothing is committed |
| OrderService.ReturnItems | internal/services/order_service.go:302-327 | the loop leaves the transaction exactly as the stock-return specification says |
| OrderService.UpdateOrderStatus | internal/services/order_service.go:278-342 | the committed tables and the result are those of the UpdateOrderStatus specification |
| OrderService.DeleteOrder | internal/services/order_service.go:344-404 | the committed tables and the result are those of the DeleteOrder specification |
| OrderLedger.DeltaAppend | internal/repositories/inventory_movement_repository.go:27-53 | the net quantity recorded by a concatenated movement log is the sum of the two parts |
| OrderLedger.DeltaSingle | internal/repositories/inventory_movement_repository.go:27-53 | one movement records its own quantity for its own item and nothing for any other |
| OrderLedger.ConservesUntouched | internal/services/order_service.go:330-336 | a step that touches neither the catalogue nor the movement log conserves stock |
| OrderLedger.ConservesTrans | internal/services/order_service.go:130-234 | conservation of stock composes across consecutive stretches of a transaction |
| OrderLedger.Stored | internal/repositories/inventory_movement_repository.go:27-53 | the stored movement row has the next id and the caller's item, actor, kind, quantity and reason |
| OrderLedger.RecordConserves | internal/services/order_service.go:160-175 | one ledger entry moves the item's stock by the movement's quantity, appends exactly that movement and leaves the orders untouched |
| OrderLedger.ProcessLinesLedger | internal/services/order_service.go:140-184 | the line loop conserves stock, leaves the orders untouched, appends exactly one sale row per tracked line, totals price times quantity and prices each item at its catalogue price |
| OrderLedger.SalesDelta | internal/services/order_service.go:155-176 | the sale rows take from a tracked item exactly the quantity the lines ask of it and nothing from an untracked one |
| OrderLedger.ProcessLinesOkWhenAccepted | internal/services/order_service.go:140-184 | lines that are all accepted pass the loop |
| OrderLedger.ProcessLinesAccepts | internal/services/order_service.go:140-163 | the line loop succeeds exactly when every line is accepted against the committed stock, not the stock already taken by earlier lines |
| OrderLedger.StoredItems | internal/services/order_service.go:220-226 | the stored items are the pending ones linked to the order, with consecutive ids and filled timestamps |
| OrderLedger.InsertItemsShape | internal/services/order_service.go:220-226 | for an existing order and known items the insert loop succeeds and appends exactly the stored rows |
| OrderLedger.PendingItemsKnown | internal/services/order_service.go:177-183 | the line loop only queues items the catalogue has |
| OrderLedger.CreateOrderShape | internal/services/order_service.go:194-226 | after the line loop and status check, the header goes in with the next id and then the stored items |
| OrderLedger.CreateOrderRecords | internal/services/order_service.go:198-226 | the stored order is the header with its new id and its items at the catalogue's prices |
| OrderLedger.CreateOrderSucceeds | internal/services/order_service.go:130-234 | CreateOrder succeeds exactly when the status is valid and every line is accepted |
| OrderLedger.CreateOrderLedger | internal/services/order_service.go:140-230 | CreateOrder conserves stock: one sale row per tracked line, and each tracked item's stock falls by the total the order asks of it |
| OrderLedger.SameItemTwiceOversells | internal/services/order_service.go:144-160 | two lines of one tracked item, each within the committed stock, are both accepted even when together they exceed it, leaving the stock negative |
| OrderLedger.ReturnStockLedger | internal/services/order_service.go:302-327 | the stock-return loop conserves stock, leaves the orders untouched and appends exactly one return row per tracked item |
| OrderLedger.ReturnsDelta | internal/services/order_service.go:309-321 | the return rows give back exactly the quantity the order's items hold of a tracked item and nothing of an untracked one |
| OrderLedger.ReturnStockOk | internal/services/order_service.go:302-327 | the stock-return loop cannot fail for items of the catalogue |
| OrderLedger.ItemsOfOrderJoined | internal/repositories/order_repository.go:267-312 | the joined items of an order are catalogue items and depend only on the order items and the catalogue's ids |
| OrderLedger.OrderReturnLedger | internal/services/order_service.go:297-328 | the return loop over an order's items, run from the committed tables, succeeds and conserves stock |
| OrderLedger.UpdateOrderStatusLedger | internal/services/order_service.go:278-342 | any valid status change of an existing order succeeds, sets status and update time, and returns the order's stock exactly when cancelling an order that still holds it |
| OrderLedger.DeleteOrderLedger | internal/services/order_service.go:344-404 | deleting an existing order succeeds, returns its stock exactly when it still held it, and removes the order and its items |
| OrderLedger.CancelTwiceReturnsTwice | internal/services/order_service.go:297 | cancel, set back to pending, cancel again gives the order's stock back twice |
| BookingModels.BookingStatusesExact | internal/models/table_booking_models.go:8-30 | exactly five statuses are valid, compared case-sensitively; "checked-in" and "" are not among them |
| BookingRepository.FindBooking | internal/repositories/booking_repository.go:185-189 | the first row with the id, and none exactly when no row has it |
| BookingRepository.FindBookingAt | internal/repositories/booking_repository.go:185-189 | with distinct ids the row found is the one at the id's position |
| BookingRepository.CountBlocking | internal/repositories/booking_repository.go:300-308 | the count is the number of rows on the table, in an occupying status, overlapping the interval, other than the excluded booking |
| BookingRepository.Available | internal/repositories/booking_repository.go:283-316 | the table is available exactly when no booking blocks it |
| BookingRepository.OverlapsIffSharedInstant | internal/repositories/booking_repository.go:303 | the query's overlap test holds exactly when the two non-empty half-open intervals share an instant |
| BookingRepository.TouchingOrIdleNeverBlocks | internal/repositories/booking_repository.go:285-303 | intervals that only touch never conflict, and a pending, cancelled, completed or no-show booking never blocks |
| BookingRepository.BookingsWithout | internal/repositories/booking_repository.go:270-281 | the remaining rows are exactly those without the id, in table order |
| BookingRepository.ExcludeIgnoresOnlyThatBooking | internal/repositories/booking_repository.go:305-308 | excluding a booking gives the same answer as asking about the table without that booking |
| BookingRepository.AvailabilityExample | internal/repositories/booking_repository.go:300-315 | [10:00, 11:00) is taken by a confirmed or checked-in [10:30, 11:30) and free next to one ending at 10:00, one starting at 11:00, or a pending one |
| BookingRepository.Hydrate | internal/repositories/booking_repository.go:35-143 | the client is filled exactly when the booking names one and the staff member exactly when it names one; the booking's own columns are kept |
| BookingRepository.BookingById | internal/repositories/booking_repository.go:185-189 | NotFound when no row has the id; a row with the id whose table exists is found, joined |
| BookingRepository.BookingByIdFound | internal/repositories/booking_repository.go:185-189 | on a well-formed table the row at any position with its table present is exactly the one read back by its id, joined |
| BookingRepository.BookingInserted | internal/repositories/booking_repository.go:146-166 | both timestamps are now and the id is the next serial value; a broken foreign key is a database error and nothing is written |
| BookingRepository.InsertedReadsBack | internal/repositories/booking_repository.go:146-166 | an insert keeps the ids serial and the new row reads back as inserted |
| BookingRepository.Overwritten | internal/repositories/booking_repository.go:247-258 | UPDATE writes every column but id and created_at, with updated_at set to now |
| BookingRepository.WithBooking | internal/repositories/booking_repository.go:247-268 | only the rows with the booking's id change |
| BookingRepository.BookingUpdated | internal/repositories/booking_repository.go:247-268 | NotFound when no row has the id, a database error when a foreign key breaks, otherwise the caller's booking with updated_at = now |
| BookingRepository.UpdatedReadsBack | internal/repositories/booking_repository.go:247-268 | after an update the row reads back with the new values, keeping its id and creation time |
| BookingRepository.BookingDeleted | internal/repositories/booking_repository.go:270-281 | NotFound when no row is affected; otherwise the table without the booking |
| BookingRepository.HydrateAll | internal/repositories/booking_repository.go:225-239 | each listed row is joined like a single read, in order |
| BookingRepository.BookingsListedMatch | internal/repositories/booking_repository.go:191-244 | every listed booking is in the table, passes every supplied filter and has its table; the list is latest start first and at most a page when a size is given |
| BookingRepository.CheckTableAvailability | internal/repositories/booking_repository.go:283-316 | the answer is the availability of the table and nothing changes |
| BookingRepository.GetBookingByID | internal/repositories/booking_repository.go:185-189 | the result is the joined read of the row |
| BookingRepository.CreateBooking | internal/repositories/booking_repository.go:146-166 | the executor's tables become those of the insert, or stay unchanged with the error |
| BookingRepository.UpdateBooking | internal/repositories/booking_repository.go:247-268 | the executor's tables become those of the update, or stay unchanged with the error |
| BookingRepository.DeleteBooking | internal/repositories/booking_repository.go:270-281 | the executor's tables lose the booking, or stay unchanged with NotFound |
| BookingRepository.GetBookings | internal/repositories/booking_repository.go:191-244 | the rows are the optionally paginated matching bookings, latest start first, joined, with the COUNT(*) OVER() total |
| BookingService.TruncateToSecond | internal/services/booking_service.go:225-226 | the RFC 3339 text of a stored time drops its fraction: the result is the whole second at or just below the time |
| BookingService.BookingTimes | internal/services/booking_service.go:85-117 | accepted times are the parsed strings, the end lies 15 minutes to 12 hours after the start, and the start is at most five minutes in the past (for an update only when the start moves); every failure is ErrInvalidBookingTime |
| BookingService.BookingTimesAccepted | internal/services/booking_service.go:85-117 | conversely, times that parse and keep every rule are accepted as they are |
| BookingService.Reread | internal/services/booking_service.go:180 | the final read-back succeeds exactly when the repository's read does, with the same booking |
| BookingService.RequestedStatus | internal/services/booking_service.go:155-161 | a missing or blank status becomes confirmed; any other requested status is kept |
| BookingService.CreateBookingSpec | internal/services/booking_service.go:120-181 | the times are validated first; after a known client, an unknown staff member is ErrStaffForBookingNotFound and one without a user account fails the staff lookup's scan, both writing nothing; any failure other than a database error leaves the tables unchanged |
| BookingService.WithRequestedTable | internal/services/booking_service.go:220 | the requested table replaces the stored one and nothing else changes |
| BookingService.TableTestAlwaysFalse | internal/services/booking_service.go:220-238 | since the table is overwritten first, availability is re-checked exactly when a start or end time is supplied |
| BookingService.UpdatedTimes | internal/services/booking_service.go:222-235 | without a supplied time the stored times are kept; otherwise the supplied or re-formatted stored strings are validated as an update |
| BookingService.Merged | internal/services/booking_service.go:247-259 | supplied table, guests, notes and status replace the stored ones, the new times are written, and id, client, staff, price and timestamps stay |
| BookingService.UpdatePrepared | internal/services/booking_service.go:220-259 | a prepared update has valid times, a free slot when re-checked, and a valid status when one is supplied |
| BookingService.UpdateBookingSpec | internal/services/booking_service.go:205-270 | an unknown id is ErrBookingNotFound, a completed or cancelled booking is refused, and any failure other than a database error leaves the tables unchanged |
| BookingService.StatusUpdateSpec | internal/services/booking_service.go:272-298 | an unknown id is ErrBookingNotFound, a completed or cancelled booking may only keep its status, and success implies the transition was allowed |
| BookingService.DeleteBookingSpec | internal/services/booking_service.go:308-324 | the delete succeeds exactly when the booking reads back, and then removes exactly the rows with the id; every failure is ErrBookingNotFound |
| BookingService.DefaultedFilters | internal/services/booking_service.go:194-197 | page 1 and size 10 are filled in when missing; the other filters are kept |
| BookingService.GetBookingByID | internal/services/booking_service.go:183-192 | the joined booking, or ErrBookingNotFound when the repository finds none |
| BookingService.CreateBooking | internal/services/booking_service.go:120-181 | the store and the result are those of the CreateBooking specification, so a staff member without a user account books nothing |
| BookingService.PrepareUpdate | internal/services/booking_service.go:220-259 | the checks between read and write give exactly the prepared booking of the specification, and only read |
| BookingService.UpdateBooking | internal/services/booking_service.go:205-270 | the store and the result are those of the UpdateBooking specification |
| BookingService.UpdateBookingStatus | internal/services/booking_service.go:272-298 | the store and the result are those of the status-update specification |
| BookingService.CancelBooking | internal/services/booking_service.go:300-302 | the status update to cancelled |
| BookingService.CompleteBooking | internal/services/booking_service.go:304-306 | the status update to completed |
| BookingService.DeleteBooking | internal/services/booking_service.go:308-324 | the store and the result are those of the DeleteBooking specification |
| BookingService.GetBookings | internal/services/booking_service.go:194-203 | the joined page of matching bookings under the defaulted filters, with the reported total |
| BookingLifecycle.ClashSeen | internal/repositories/booking_repository.go:300-315 | a stored booking that clashes with a slot makes the availability query answer no |
| BookingLifecycle.CreateBookingInserts | internal/services/booking_service.go:120-181 | a successful CreateBooking appends exactly the requested booking (validated times, requested or default status, now as timestamps, next id) and returns it as read back; a failed one writes nothing |
| BookingLifecycle.CreateBookingSucceeds | internal/services/booking_service.go:120-181 | CreateBooking succeeds exactly when the times are valid, the client (if given) and the staff member exist, the staff member has a user account, the table is free, a non-blank status is valid, and the table exists |
| BookingLifecycle.CreateBookingKeepsNoDoubleBooking | internal/services/booking_service.go:147-153 | a created booking never double-books its table |
| BookingLifecycle.UpdateBookingWrites | internal/services/booking_service.go:205-270 | a successful update writes the stored booking merged with the request and returns it read back; with supplied times the slot was free apart from the booking itself; a failure writes nothing |
| BookingLifecycle.UpdateWithoutTimesNotRechecked | internal/services/booking_service.go:220-246 | an update supplying no time is never checked for availability, even when it moves the booking to another table |
| BookingLifecycle.UpdateWithTimesKeepsNoDoubleBooking | internal/services/booking_service.go:224-246 | an update supplying a time keeps every table free of double bookings |
| BookingLifecycle.TableMoveDoubleBooks | internal/services/booking_service.go:220-246 | moving a confirmed booking onto a table confirmed for the same hour, without a time, succeeds and double-books |
| BookingLifecycle.EndOnlyUpdateTruncatesStart | internal/services/booking_service.go:224-233 | updating only the end writes the stored start truncated to the second |
| BookingLifecycle.FractionalStartBlocksEndOnlyUpdate | internal/services/booking_service.go:111-113 | a stored start with a fraction of a second, more than five minutes past, blocks an end-only update |
| BookingLifecycle.WholeSecondStartKept | internal/services/booking_service.go:111-113 | a whole-second start survives the round trip, so the past rule never refuses an end-only update for it |
| BookingLifecycle.StatusUpdateWrites | internal/services/booking_service.go:272-298 | a status update writes the new status and update time and nothing else; it succeeds whenever the transition is allowed and the row's references hold; a failure writes nothing |
| BookingLifecycle.CancelTwiceSucceeds | internal/services/booking_service.go:285-287 | cancelling a cancelled booking succeeds again and it stays cancelled |
| BookingLifecycle.CompletedIsSticky | internal/services/booking_service.go:282-284 | a completed booking can be completed again but never take another status |
| BookingLifecycle.StatusUpdateKeepsNoDoubleBooking | internal/services/booking_service.go:300-306 | cancelling or completing keeps every table free of double bookings |
| BookingLifecycle.DeleteKeepsNoDoubleBooking | internal/services/booking_service.go:308-324 | deleting a booking keeps every table free of double bookings |
| BookingLifecycle.ServiceListIsAPage | internal/services/booking_service.go:194-203 | the service's list is at most a page (ten when no size is given), latest start first, only matching bookings |
| PricelistRepository.StoredIfTracking | internal/repositories/pricelist_repository.go:150-165 | a stock or threshold is stored only for an item that tracks stock; otherwise, or when absent, the column is NULL |
| PricelistRepository.AsStored | internal/repositories/pricelist_repository.go:143-170 | the written row keeps every field of the item and normalises only the two stock columns |
| PricelistRepository.CategoryInserted | internal/repositories/pricelist_repository.go:44-58 | a name another category has is ErrDuplicateKey; otherwise the row gets the next id and now as both timestamps |
| PricelistRepository.CategoryUpdated | internal/repositories/pricelist_repository.go:100-115 | a duplicate name is ErrDuplicateKey, an unknown id NotFound; otherwise only name, description and updated_at of that row change |
| PricelistRepository.CategoryDeleted | internal/repositories/pricelist_repository.go:117-139 | refused with a database error while an item uses the category, NotFound when no row goes, otherwise the row is removed |
| PricelistRepository.ItemInserted | internal/repositories/pricelist_repository.go:143-185 | a name or SKU another item holds is ErrDuplicateKey, then an unknown category breaks the foreign key; otherwise the normalised row is stored under the next id with now as timestamps |
| PricelistRepository.ItemUpdated | internal/repositories/pricelist_repository.go:307-352 | NotFound for an unknown id, ErrDuplicateKey for a name or SKU another item holds, a foreign-key error for an unknown category; otherwise the row is rewritten (normalised) keeping id and created_at |
| PricelistRepository.ItemDeleted | internal/repositories/pricelist_repository.go:354-369 | refused while order items or movements refer to the item, NotFound when no row goes, otherwise the row is removed |
| PricelistRepository.StockUpdated | internal/repositories/pricelist_repository.go:371-397 | a tracked item's stock becomes COALESCE(stock, 0) + change and is returned; an unknown item is NotFound and an untracked one a database error, told apart by a read of the committed tables |
| PricelistRepository.StockUpdateUnbounded | internal/repositories/pricelist_repository.go:373-376 | any change to a tracked item is applied, even one that takes the level below zero |
| PricelistRepository.StockUpdatesCompose | internal/repositories/pricelist_repository.go:371-397 | two successive stock updates of one item add up |
| PricelistRepository.ItemPriceAndStock | internal/repositories/pricelist_repository.go:399-413 | the committed row's name, price, tracking flag and stock; NotFound for an unknown id |
| PricelistRepository.CategoryById | internal/repositories/pricelist_repository.go:60-71 | the row with that id, NotFound exactly when there is none |
| PricelistRepository.ItemById | internal/repositories/pricelist_repository.go:187-227 | the item joined with its category; NotFound when there is no such item or its category row is missing |
| PricelistRepository.GetCategoryByID | internal/repositories/pricelist_repository.go:60-71 | the result is the committed lookup and nothing changes |
| PricelistRepository.GetItemByID | internal/repositories/pricelist_repository.go:187-227 | the result is the committed joined lookup and nothing changes |
| PricelistRepository.CreateCategory | internal/repositories/pricelist_repository.go:44-58 | the executor's tables become those of the insert, or stay unchanged with the error |
| PricelistRepository.UpdateCategory | internal/repositories/pricelist_repository.go:100-115 | the executor's tables become those of the update, or stay unchanged with the error |
| PricelistRepository.DeleteCategory | internal/repositories/pricelist_repository.go:117-139 | the executor's tables become those of the delete, or stay unchanged with the error |
| PricelistRepository.CreateItem | internal/repositories/pricelist_repository.go:143-185 | the executor's tables become those of the insert and the stored item comes back with its id |
| PricelistRepository.UpdateItem | internal/repositories/pricelist_repository.go:307-352 | the executor's tables become those of the update, or stay unchanged with the error |
| PricelistRepository.DeleteItem | internal/repositories/pricelist_repository.go:354-369 | the executor's tables become those of the delete, or stay unchanged with the error |
| PricelistRepository.UpdateStock | internal/repositories/pricelist_repository.go:371-397 | the executor's tables and the result are those of the stock update |
| PricelistRules.CreateItemOutcome | internal/services/pricelist_service.go:186-240 | CreateItem refuses exactly the invalid requests with ErrValidation, then an unknown category with ErrCategoryNotFound, then a name or SKU another item holds with ErrItemNameConflict, and otherwise stores the row under the next id |
| PricelistRules.NewItemKey | internal/services/pricelist_service.go:229-233 | the key the insert tests is the request's own name and SKU |
| PricelistRules.CreateItemStores | internal/services/pricelist_service.go:190-229 | the stored row has a tracked item's missing stock set to 0 and an untracked item's stock and threshold cleared |
| PricelistRules.UntrackedNegativeThresholdAccepted | internal/services/pricelist_service.go:194-203 | a negative threshold on an untracked item is accepted, because the fields are cleared before the check |
| PricelistRules.CreateItemKeepsShape | internal/services/pricelist_service.go:186-240 | CreateItem keeps every item's stock fields in shape: a tracked item has a stock, an untracked one neither stock nor threshold |
| PricelistRules.StockRulesExact | internal/services/pricelist_service.go:297-328 | the stock and threshold merge refuses exactly the requests that break the stated update rules |
| PricelistRules.PreparedFields | internal/services/pricelist_service.go:273-328 | what preparing an update does to the row, field by field |
| PricelistRules.PreparedKey | internal/services/pricelist_service.go:273-295 | the key the update tests is the supplied name and SKU, else the stored ones |
| PricelistRules.UpdateItemStep | internal/services/pricelist_service.go:264-345 | on a stored item a refusal while preparing is the result; a prepared row whose name or SKU another item holds is ErrItemNameConflict; any other prepared row is stored and read back |
| PricelistRules.PreparedValid | internal/services/pricelist_service.go:273-328 | with the new category present, preparing refuses exactly the invalid requests, always with ErrValidation |
| PricelistRules.UpdateItemOutcome | internal/services/pricelist_service.go:264-345 | a new category that does not exist is ErrCategoryNotFound; otherwise the update is refused with ErrValidation exactly when it is invalid, then with ErrItemNameConflict exactly when another item holds its name or SKU, and succeeds otherwise |
| PricelistRules.UpdateItemWrites | internal/services/pricelist_service.go:282-331 | the row UpdateItem writes for an accepted request, field by field |
| PricelistRules.UpdateItemStock | internal/services/pricelist_service.go:297-328 | switching tracking off clears stock and threshold; a supplied stock is stored; switching on without one keeps the level or starts it at 0; a supplied threshold is stored |
| PricelistRules.UpdateItemKeepsShape | internal/services/pricelist_service.go:297-328 | UpdateItem keeps every item's stock fields in shape |
| PricelistRules.StockUpdateKeepsShape | internal/repositories/pricelist_repository.go:371-397 | a stock update changes only a tracked item's stock, which stays present |
| PricelistRules.UpdateCategoryWrites | internal/services/pricelist_service.go:130-160 | UpdateCategory succeeds exactly when the category exists, a supplied name is not blank and no other category has the resulting name, and rewrites only that row |
| PricelistService.MessagesClassified | internal/services/pricelist_service.go:176 | the repository's in-use and foreign-key messages carry the phrases the service looks for |
| PricelistService.CategoryLookupError | internal/services/pricelist_service.go:108-117 | NotFound, and only it, becomes ErrCategoryNotFound |
| PricelistService.ItemLookupError | internal/services/pricelist_service.go:242-251 | NotFound, and only it, becomes ErrItemNotFound |
| PricelistService.CategoryInsertError | internal/services/pricelist_service.go:97-103 | a duplicate key, and only it, becomes ErrCategoryNameExists |
| PricelistService.ReadBack | internal/services/pricelist_service.go:105 | the re-read after a write succeeds with the same value or passes its error on |
| PricelistService.CategoryUpdateError | internal/services/pricelist_service.go:149-158 | a duplicate key becomes ErrCategoryNameExists, NotFound becomes ErrCategoryNotFound, anything else is passed on |
| PricelistService.ItemInsertError | internal/services/pricelist_service.go:229-238 | a duplicate key becomes ErrItemNameConflict, the category foreign key by its name becomes ErrCategoryNotFound, anything else is passed on |
| PricelistService.ItemUpdateError | internal/services/pricelist_service.go:331-343 | as for CreateItem, and NotFound becomes ErrItemNotFound |
| PricelistService.DeleteError | internal/services/pricelist_service.go:171-180 | NotFound becomes the given not-found error; a database error whose text has the in-use or foreign-key phrase becomes ErrPricelistForeignKey |
| PricelistService.CategoryLookup | internal/services/pricelist_service.go:108-117 | the row, or ErrCategoryNotFound exactly for an unknown id |
| PricelistService.CreateCategorySpec | internal/services/pricelist_service.go:89-106 | a blank name is refused before anything is written, a taken name is ErrCategoryNameExists, otherwise the row gets the next id and now as both timestamps |
| PricelistService.CategoryMerged | internal/services/pricelist_service.go:139-147 | supplied name and description replace the stored ones, everything else stays |
| PricelistService.UpdateCategorySpec | internal/services/pricelist_service.go:130-160 | an unknown id is ErrCategoryNotFound and a supplied blank name is refused, both without writing |
| PricelistService.DeleteCategorySpec | internal/services/pricelist_service.go:162-182 | an unknown id is ErrCategoryNotFound, a category in use is ErrPricelistForeignKey, otherwise only its row goes |
| PricelistService.DeleteCategoryInUse | internal/services/pricelist_service.go:171-178 | a category in use is refused with ErrPricelistForeignKey and nothing changes |
| PricelistService.ItemLookup | internal/services/pricelist_service.go:242-251 | the item with its category, or ErrItemNotFound |
| PricelistService.CreateStockFields | internal/services/pricelist_service.go:190-197 | a tracked item without a stock starts at 0; an untracked one has neither stock nor threshold |
| PricelistService.NewItem | internal/services/pricelist_service.go:187-203 | every refusal is ErrValidation and a blank name is refused; an accepted row carries the request's name, category and tracking flag, the normalised stock fields, and no negative stock or threshold |
| PricelistService.TrackingMerged | internal/services/pricelist_service.go:297-318 | switching tracking off clears stock and threshold; switching on takes the supplied stock or starts a missing one at 0; without the switch a stock is only set on a tracked item; a supplied stock must not be negative |
| PricelistService.ThresholdMerged | internal/services/pricelist_service.go:320-328 | a supplied threshold needs a tracked item and must not be negative; switching tracking off clears it |
| PricelistService.UpdateItemSpec | internal/services/pricelist_service.go:264-345 | an unknown id is ErrItemNotFound without writing; a refused preparation writes nothing |
| PricelistService.DeleteItemSpec | internal/services/pricelist_service.go:347-367 | an unknown id is ErrItemNotFound, a referenced item ErrPricelistForeignKey, otherwise only its row goes |
| PricelistService.DeleteItemReferenced | internal/services/pricelist_service.go:356-363 | a referenced item is refused with ErrPricelistForeignKey and nothing changes |
| PricelistService.GetCategoryByID | internal/services/pricelist_service.go:108-117 | the result is the category lookup and nothing changes |
| PricelistService.CreateCategory | internal/services/pricelist_service.go:89-106 | the store and the result are those of the CreateCategory specification |
| PricelistService.UpdateCategory | internal/services/pricelist_service.go:130-160 | the store and the result are those of the UpdateCategory specification |
| PricelistService.DeleteCategory | internal/services/pricelist_service.go:162-182 | the store and the result are those of the DeleteCategory specification |
| PricelistService.GetItemByID | internal/services/pricelist_service.go:242-251 | the result is the item lookup and nothing changes |
| PricelistService.CheckNewItem | internal/services/pricelist_service.go:187-203 | the checks, normalising the stock fields in place, give exactly the new-item result |
| PricelistService.CreateItem | internal/services/pricelist_service.go:186-240 | the store and the result are those of the CreateItem specification |
| PricelistService.MergeStock | internal/services/pricelist_service.go:297-328 | the in-place stock and threshold handling gives exactly the tracking merge followed by the threshold merge |
| PricelistService.CopyFields | internal/services/pricelist_service.go:291-295 | the supplied plain fields are copied one by one, the rest stays |
| PricelistService.PrepareItem | internal/services/pricelist_service.go:273-328 | the in-place changes to the fetched row give exactly the prepared item, and only read the database |
| PricelistService.UpdateItem | internal/services/pricelist_service.go:264-345 | the store and the result are those of the UpdateItem specification |
| PricelistService.DeleteItem | internal/services/pricelist_service.go:347-367 | the store and the result are those of the DeleteItem specification |
| StaffService.ParseDate | internal/services/staff_service.go:93-103 | an absent or blank date is no date; otherwise the trimmed text when the date layout accepts it, else the given error |
| StaffService.ParseDateTime | internal/services/staff_service.go:105-115 | RFC 3339 is tried first and only text it refuses is tried with the zone-less layout; text both refuse is the given error |
| StaffService.ShiftInterval | internal/services/staff_service.go:264-269 | a shift is accepted exactly when it ends after it starts and lasts at most 24 hours |
| StaffService.ReadBack | internal/services/staff_service.go:160 | a read-back succeeds with the same value or passes the repository's error on unchanged |
| StaffService.StaffById | internal/repositories/staff_repository.go:77-125 | the staff row with the id exactly when its member has a user account; NotFound without the row, the scan's database error for a member without an account |
| StaffService.StaffLookup | internal/services/staff_service.go:163-172 | the staff row with the id exactly when it exists and has a user account; ErrStaffNotFound without the row, the scan fault passed on otherwise |
| StaffService.StaffLookupByUser | internal/services/staff_service.go:174-183 | a staff member tied to the user account, or ErrStaffNotFound exactly when there is none |
| StaffService.ShiftById | internal/repositories/staff_repository.go:310-341 | the shift with the id when its staff member has a user account; NotFound otherwise |
| StaffService.ShiftLookup | internal/services/staff_service.go:298-307 | the readable shift, or ErrShiftNotFound |
| StaffService.CreateStaffMemberSpec | internal/services/staff_service.go:120-161 | an unknown user is ErrUserForStaffNotFound and a user with a staff record ErrStaffUserConflict, both before any write; a refused request leaves the tables unchanged; the member returned has its user account |
| StaffService.StaffMerged | internal/services/staff_service.go:205-223 | supplied phone and address replace the stored ones, a hire date is parsed (blank clears it), a blank position or negative salary is refused; the id and the account link stay |
| StaffService.UpdateStaffMemberSpec | internal/services/staff_service.go:196-233 | a failed lookup (no row: ErrStaffNotFound; no user account: the scan fault) is the result; a refused merge writes nothing |
| StaffService.Referencing | internal/repositories/staff_repository.go:268-277 | the foreign-key constraint a delete would violate: the shifts' key when the member has shifts |
| StaffService.StaffDeleted | internal/repositories/staff_repository.go:268-283 | a referenced member is refused with the constraint's name in the text, an unknown id is NotFound, otherwise the row goes |
| StaffService.DeleteStaffError | internal/services/staff_service.go:244-251 | NotFound becomes ErrStaffNotFound; a database error with the foreign-key phrase in its text becomes ErrStaffInUse; anything else is passed on |
| StaffService.DeleteStaffMemberSpec | internal/services/staff_service.go:235-254 | a failed lookup (no row, no user account) is the result; the delete succeeds exactly when the lookup does and nothing references the member, and removes exactly that member |
| StaffService.CreateShiftSpec | internal/services/staff_service.go:258-296 | both times must parse and make a valid interval and the member's lookup must succeed before any write; a failure writes nothing, a write adds exactly the next shift id |
| StaffService.Endpoint | internal/services/staff_service.go:350-359 | a supplied endpoint is parsed; otherwise the stored instant is kept |
| StaffService.ShiftMerged | internal/services/staff_service.go:347-373 | the new endpoints replace the stored ones, the interval is checked again, notes change only if supplied, and the member stays |
| StaffService.UpdateShiftSpec | internal/services/staff_service.go:338-385 | an unreadable shift is ErrShiftNotFound; a refused merge writes nothing |
| StaffService.DeleteShiftSpec | internal/services/staff_service.go:387-403 | an unreadable shift is ErrShiftNotFound; otherwise exactly its row goes |
| StaffService.FilterTime | internal/services/staff_service.go:316-325 | an absent or blank filter is no filter; otherwise it must parse |
| StaffService.ShiftFilterSpec | internal/services/staff_service.go:309-329 | pages default to 1 and 10, blank filters are dropped, and with both filters `to` must be after `from` |
| StaffService.CreateStaffMember | internal/services/staff_service.go:120-161 | the store and the result are those of the CreateStaffMember specification |
| StaffService.MergeStaff | internal/services/staff_service.go:205-223 | the field-by-field merge gives exactly the merged record of the specification |
| StaffService.UpdateStaffMember | internal/services/staff_service.go:196-233 | the store and the result are those of the UpdateStaffMember specification, so a member without a user account is not updated |
| StaffService.DeleteStaffMember | internal/services/staff_service.go:235-254 | the store and the result are those of the DeleteStaffMember specification, so a member without a user account is not deleted |
| StaffService.CreateShift | internal/services/staff_service.go:258-296 | the store and the result are those of the CreateShift specification, so no shift is written for a member without a user account |
| StaffService.MergeShift | internal/services/staff_service.go:347-373 | the field-by-field merge gives exactly the merged shift of the specification |
| StaffService.UpdateShift | internal/services/staff_service.go:338-385 | the store and the result are those of the UpdateShift specification |
| StaffService.DeleteShift | internal/services/staff_service.go:387-403 | the store and the result are those of the DeleteShift specification |
| StaffRules.ParseDateStable | internal/services/staff_service.go:93-103 | a date parseDate accepted is already trimmed, so submitting it again gives it back unchanged |
| StaffRules.ParseDateTimeFallback | internal/services/staff_service.go:105-115 | an accepted time has a parse under one of the layouts, and text both layouts refuse is ErrShiftTimeFormat |
| StaffRules.LinkedStaffFound | internal/services/staff_service.go:120-161 | on tables the service's writes keep (every member created for an existing account), the staff lookup fails only for a missing row and every shift reads back |
| StaffRules.StaffLookupByUserUnique | internal/services/staff_service.go:174-183 | with one staff record per account, the lookup by user finds exactly that record |
| StaffRules.CreateStaffMemberOutcome | internal/services/staff_service.go:120-161 | CreateStaffMember's errors in order, and the row it stores under the next id for an accepted request, read back with its user account |
| StaffRules.CreateStaffMemberKeeps | internal/services/staff_service.go:129-135 | CreateStaffMember keeps one staff record per account, every member tied to an existing account, every shift owned and valid |
| StaffRules.UpdateStaffMemberOutcome | internal/services/staff_service.go:196-233 | accepted exactly for an existing member with a user account and a valid request (no row is ErrStaffNotFound, no account the scan fault); absent fields keep their value, a blank hire date clears it, the account link and creation time never change |
| StaffRules.UpdateStaffMemberKeeps | internal/services/staff_service.go:196-233 | UpdateStaffMember keeps the staff invariant |
| StaffRules.StaffInUseReasonPhrase | internal/repositories/staff_repository.go:273-275 | the refusal text contains the foreign-key phrase exactly when the constraint's own name does |
| StaffRules.DeleteReferencedStaff | internal/services/staff_service.go:243-251 | deleting a referenced member without a user account fails the lookup's scan; with one it is ErrStaffInUse only when the constraint's name holds the foreign-key phrase, otherwise the repository's error is passed on |
| StaffRules.DeleteStaffWithShift | internal/services/staff_service.go:243-251 | a member with a shift cannot be deleted, and the refusal is not reported as ErrStaffInUse: it is the shifts' foreign-key error, or the scan fault for a member without a user account |
| StaffRules.DeleteStaffMemberKeeps | internal/services/staff_service.go:235-254 | DeleteStaffMember keeps the invariant: a member with shifts is never removed |
| StaffRules.CreateShiftOutcome | internal/services/staff_service.go:258-296 | CreateShift's errors in order (times, interval, no staff row, no user account), none writing anything; a valid request for a member with a user account writes the row under the next id and returns it |
| StaffRules.CreateShiftKeeps | internal/services/staff_service.go:258-296 | CreateShift writes only valid intervals of existing members |
| StaffRules.UpdateShiftOutcome | internal/services/staff_service.go:338-385 | supplied endpoints replace the stored ones, the merged interval is checked again, notes change only if supplied, member and creation time stay |
| StaffRules.NotesOnlyUpdate | internal/services/staff_service.go:347-366 | an update without times is accepted exactly when the stored shift is valid, so always under the invariant |
| StaffRules.UpdateShiftKeeps | internal/services/staff_service.go:338-385 | UpdateShift keeps every shift valid and owned |
| StaffRules.HiddenShiftUntouchable | internal/repositories/staff_repository.go:310-318 | a shift whose member has no user account can be neither updated nor deleted; both report ErrShiftNotFound (tables the service's own writes produce hold no such shift, see StaffRules.LinkedStaffFound) |
| StaffRules.DeleteShiftKeeps | internal/services/staff_service.go:387-403 | DeleteShift keeps the staff invariant |
| StaffRules.ShiftFilterOutcome | internal/services/staff_service.go:309-329 | GetShifts' pages default to 1 and 10, blank filters are no filters, and with both present `to` must come after `from` |
| ClientService.ClientDataChecked | internal/services/client_service.go:68-106 | the data checks refuse only with ErrClientValidation or ErrPhoneNumberExists |
| ClientService.DateOfBirth | internal/services/client_service.go:108-120 | an absent or blank date is no date; text the day layout refuses is ErrDateFormat; a day after now is ErrClientValidation; otherwise the parsed day |
| ClientService.StoredDate | internal/repositories/client_repository.go:52-56 | Go's zero time is written as NULL and every other date as given |
| ClientService.KeyConflict | internal/repositories/client_repository.go:34-72 | a row is refused only by clients_phone_number_key or clients_email_key |
| ClientService.DuplicateError | internal/services/client_service.go:151-158 | a duplicate is ErrPhoneNumberExists only when a phone number was sent and the text names the phone key, ErrEmailExists only when an e-mail was sent and the text names the e-mail key |
| ClientService.ClientLookup | internal/services/client_service.go:165-174 | the client with the id, or ErrClientNotFound exactly when there is none |
| ClientService.CreateClientSpec | internal/services/client_service.go:122-163 | a stored client gets the next id and never negative loyalty points |
| ClientService.ClientMerged | internal/services/client_service.go:215-228 | the merge refuses only with ErrDateFormat or ErrClientValidation |
| ClientService.UpdateClientSpec | internal/services/client_service.go:187-248 | an unknown id is ErrClientNotFound |
| ClientService.CreateClient | internal/services/client_service.go:122-163 | the store and the result are those of the CreateClient specification |
| ClientService.MergeClient | internal/services/client_service.go:215-228 | the field-by-field merge gives exactly the merged client of the specification |
| ClientService.UpdateClient | internal/services/client_service.go:187-248 | the store and the result are those of the UpdateClient specification |
| ClientRules.ClientDataOutcome | internal/services/client_service.go:68-106 | the data checks pass exactly when the name and contact rules hold; a bad name is reported before the phone, and a number another client holds is ErrPhoneNumberExists |
| ClientRules.NameRuleCases | internal/services/client_service.go:69-74 | an empty name passes only on update, a name of white space alone never passes, a real name always does |
| ClientRules.OwnPhoneNotTaken | internal/services/client_service.go:86-94 | with the unique phone key, a client's own number never counts as taken by another client |
| ClientRules.EmailPatternLowerCase | internal/services/client_service.go:66 | an address the pattern accepts holds no upper-case letter and no space |
| ClientRules.EmailPatternExamples | internal/services/client_service.go:66 | the pattern accepts ann@mail.kz and refuses ann@kz |
| ClientRules.CreateClientOutcome | internal/services/client_service.go:122-163 | CreateClient succeeds exactly for a valid request whose row breaks no unique key; negative points are ErrClientValidation; a stored row is added under the next id |
| ClientRules.CreateClientEmailTaken | internal/services/client_service.go:155-156 | an e-mail address another client holds passes the data checks and is refused as ErrEmailExists |
| ClientRules.CreateClientKeeps | internal/services/client_service.go:122-163 | CreateClient keeps ids, unique keys, non-negative points and no zero birth date |
| ClientRules.UpdateClientOutcome | internal/services/client_service.go:187-248 | invalid merged data is refused; negative points are ErrClientValidation; on success every field absent from the request keeps its value, the id and creation time never change |
| ClientRules.UpdateClientKeeps | internal/services/client_service.go:187-248 | UpdateClient keeps the client invariant |
| AuthService.ResolveRole | internal/services/auth_service.go:118-137 | a registration's role is one of the admin, staff and client ids, or ErrRoleNotFound naming the request's role |
| AuthService.RoleClaim | internal/services/auth_service.go:78-90 | the role claim of a token is never empty |
| AuthService.DuplicateError | internal/services/auth_service.go:146-160 | a unique violation is ErrUsernameExists or ErrEmailExists, the latter exactly when the text names the e-mail key and not the username key |
| AuthService.FindUser | internal/repositories/auth_repository.go:78-159 | the row found matches the key; nothing is found exactly when no row matches |
| AuthService.FindUserAt | internal/repositories/auth_repository.go:78-159 | the first row the key selects is the one found |
| AuthService.FindByUsername | internal/repositories/auth_repository.go:78-116 | the row found has the name asked for; nothing is found exactly when no row has it |
| AuthService.FindById | internal/repositories/auth_repository.go:120-159 | the row found has the id asked for; nothing is found exactly when no row has it |
| AuthService.ScanUser | internal/repositories/auth_repository.go:84-98 | a scanned user keeps the row's id, name, role id and active flag, never carries the hash, and has a role exactly when the row has a role id (LEFT JOIN with COALESCE) |
| AuthService.CreateUser | internal/repositories/auth_repository.go:35-74 | an inserted user gets the next id |
| AuthService.RegisterUserSpec | internal/services/auth_service.go:108-173 | a registration that is refused leaves the users table unchanged |
| AuthService.TokenClaims | internal/services/auth_service.go:78-105 | the claims carry the user's id, name and role claim, issued at the current Unix second |
| AuthService.GetUserProfileSpec | internal/services/auth_service.go:211-221 | the profile has the id asked for and no hash; ErrUserNotFound exactly when no row has the id |
| AuthService.RegisterUser | internal/services/auth_service.go:108-173 | the store and the result are those of the RegisterUser specification |
| AuthService.LoginUser | internal/services/auth_service.go:176-208 | the result is that of the LoginUser specification and the store is unchanged |
| AuthRules.RoleResolution | internal/services/auth_service.go:118-137 | "admin", "staff" and "client" in any case resolve to their ids and an empty name to the client id; every other name is refused |
| AuthRules.RoleResolutionIgnoresCase | internal/services/auth_service.go:126 | names equal up to ASCII case resolve to the same role or are both refused |
| AuthRules.RoleNameExamples | internal/services/auth_service.go:118-137 | "Admin" and "STAFF" resolve, "" is a client, "manager" is refused |
| AuthRules.RoleClaimOfStoredUser | internal/services/auth_service.go:79-90 | a stored user's claim is the name of the role its role id joins to, or "default" when the id, the roles row or the name is missing |
| AuthRules.NoUnderscoreInHead | internal/repositories/auth_repository.go:68 | the fixed words of the duplicate-key text hold no underscore, so they cannot name a key |
| AuthRules.KeyInText | internal/repositories/auth_repository.go:68 | a key name occurs in the duplicate-key text exactly when it occurs in the constraint name |
| AuthRules.DuplicateKeyMapping | internal/services/auth_service.go:146-160 | a clash on users_username_key is ErrUsernameExists, one on users_email_key ErrEmailExists, and one naming neither falls back to ErrUsernameExists |
| AuthRules.FindByUsernameUnique | internal/repositories/auth_repository.go:78-116 | with unique names the lookup by a row's name finds that row |
| AuthRules.FindByIdAppended | internal/services/auth_service.go:162-172 | a row inserted with an id above every other is the one the read-back finds |
| AuthRules.LoginOutcome | internal/services/auth_service.go:176-208 | ErrInvalidCredentials exactly for an unknown name, an inactive account or a wrong password; a success returns the user without its hash and a token signed over its claims |
| AuthRules.LoginAsStoredUser | internal/services/auth_service.go:176-208 | an active user with a matching password logs in as that user |
| AuthRules.PasswordHashCleared | internal/services/auth_service.go:168-171 | no user returned by registration, login or profile carries a password hash |
| AuthRules.RegisterOutcome | internal/services/auth_service.go:108-173 | the errors in the order RegisterUser meets them; on success one active row is appended with the hash and the resolved role, and a failed read-back still leaves it stored |
| AuthRules.RegisterKeeps | internal/services/auth_service.go:108-173 | RegisterUser keeps ids and usernames unique and below the next id |
| AuthMiddleware.Authenticate | internal/middleware/auth_middleware.go:13-44 | every refusal of the authentication middleware is 401 |
| AuthMiddleware.BearerTokenShape | internal/middleware/auth_middleware.go:22-27 | a token is found exactly in headers made of a scheme, one space and a token, neither part holding a space and the scheme "bearer" in any case; the token is the text after the space |
| AuthMiddleware.BearerSplitParts | internal/middleware/auth_middleware.go:22 | splitting such a header at its one space gives the scheme and the token |
| AuthMiddleware.ExtraSpaceRefused | internal/middleware/auth_middleware.go:22-27 | a token holding a space splits into more than two parts and is refused as a malformed header |
| AuthMiddleware.SplitHasSeparator | internal/middleware/auth_middleware.go:22 | text holding the separator splits into at least two parts |
| AuthMiddleware.AuthenticateBearer | internal/middleware/auth_middleware.go:29-40 | a well-formed header hands exactly its token to the validator; valid claims go on into the context, an invalid token is 401 with the validator's reason |
| AuthMiddleware.RoleAuthorize | internal/middleware/auth_middleware.go:48-80 | the loop decides as the role rule does: no role 403, a role that is not text 500, a role outside the list 403 with the list, an allowed role passes |
| AuthMiddleware.EmptyAllowListForbids | internal/middleware/auth_middleware.go:64-76 | a route that allows no role forbids every role |
| AuthMiddleware.AuthorizeIgnoresCase | internal/middleware/auth_middleware.go:66 | roles equal up to case are allowed or refused alike |
| AuthMiddleware.DefaultClaimPassesNoNamedRole | internal/services/auth_service.go:79-90 | a token with the "default" role claim passes no route limited to admin, staff and client |
| InventoryHandlers.CopyAt | internal/handlers/inventory_handlers.go:265-271 | copying into the buffer at the cursor writes exactly the copied text there and leaves the rest |
| InventoryHandlers.BufferSize | internal/handlers/inventory_handlers.go:257-260 | the size loop yields the parts' total length plus one separator between each two parts |
| InventoryHandlers.CopySeparated | internal/handlers/inventory_handlers.go:268-271 | one step of the copy loop leaves the text before the cursor followed by the separator and then the part |
| InventoryHandlers.Join | internal/handlers/inventory_handlers.go:250-274 | the hand-written join gives exactly strings.Join of the parts, whose length is the parts' total plus one separator between each two |
| ReportHandlers.StockStatus | internal/handlers/report_handlers.go:360-379 | every item is "Low Stock", "Out of Stock" or "In Stock" |
| ReportHandlers.LowStockRule | internal/handlers/report_handlers.go:363-367 | an item is low on stock exactly when it has both a stock and a threshold and the stock is at most the threshold |
| ReportHandlers.OutOfStockRule | internal/handlers/report_handlers.go:368-378 | an item is out of stock exactly when its stock is 0 and it has no threshold or a negative one; with a threshold of 0 or more an empty shelf reads as low stock |
| ReportHandlers.UntrackedInStock | internal/handlers/report_handlers.go:373-379 | an item without a stock figure is always in stock |
| ReportHandlers.DaysIn | internal/handlers/report_handlers.go:63-64 | a month has 28 to 31 days |
| ReportHandlers.Weekday | internal/handlers/report_handlers.go:57-61 | a weekday is a number from 0 (Sunday) to 6 |
| ReportHandlers.EpochDay | internal/handlers/report_handlers.go:53-64 | 1 January 1970 is day 0 and a Thursday |
| ReportHandlers.YearLength | internal/handlers/report_handlers.go:63-64 | a year has 366 days when it is a leap year and 365 otherwise |
| ReportHandlers.NextYear | internal/handlers/report_handlers.go:63-64 | consecutive years are a year length apart in the day count |
| ReportHandlers.LeapStep | internal/handlers/report_handlers.go:63-64 | exactly the leap years add one to the count of leap years |
| ReportHandlers.MonthLength | internal/handlers/report_handlers.go:63-64 | the first of the next month is a valid date a month length after the first of this one |
| ReportHandlers.NextDayNumber | internal/handlers/report_handlers.go:163-176 | the day after a date is a valid date one day later |
| ReportHandlers.DayWindowHoldsNow | internal/handlers/report_handlers.go:54-55 | today's window holds the current instant and spans one day less a nanosecond |
| ReportHandlers.WeekWindowHoldsNow | internal/handlers/report_handlers.go:57-61 | this week's window starts at the midnight of a Monday at most six days back, holds the instant and spans seven days |
| ReportHandlers.WeekStartMonday | internal/handlers/report_handlers.go:57-61 | the week starts on a Monday at most six days before today |
| ReportHandlers.MonthWindowHoldsNow | internal/handlers/report_handlers.go:63-64 | this month's window starts at the first's midnight, holds the instant and spans exactly the days of the month |
| ReportHandlers.PeriodFormat | internal/handlers/report_handlers.go:146-155 | sales are grouped by one of the daily, weekly and monthly formats |
| ReportHandlers.PeriodFormatChoice | internal/handlers/report_handlers.go:149-154 | "weekly" groups by week and "monthly" by month; every other period groups by day |
| ReportHandlers.EndDateBoundCases | internal/handlers/report_handlers.go:163-176 | no end date is no bound; a parsable one is an exclusive bound at the next day; any other text is kept as an inclusive bound |
| GoStrings.TrimLeft | internal/services/client_service.go:69 | drops exactly the leading white space |
| GoStrings.TrimRight | internal/services/client_service.go:69 | drops exactly the trailing white space |
| GoStrings.TrimSpaceEmpty | internal/services/client_service.go:69-80 | trimming gives "" exactly for text of white space alone |
| GoStrings.TrimSpaceEnds | internal/services/client_service.go:78 | trimmed text is no longer than its input and neither starts nor ends with white space |
| GoStrings.TrimSpaceSlice | internal/services/client_service.go:78 | trimmed text is the slice of the input that starts after its leading white space |
| GoStrings.TrimSpaceIdempotent | internal/services/staff_service.go:93-103 | trimming twice is trimming once |
| GoStrings.LowerChar | internal/services/auth_service.go:126 | upper-case ASCII letters move to lower case, every other character stays |
| GoStrings.ToLower | internal/services/auth_service.go:126 | lower-casing keeps the length and lower-cases each character |
| GoStrings.ToLowerIdempotent | internal/services/client_service.go:99 | lower-casing twice is lower-casing once |
| GoStrings.ContainsPart | internal/services/auth_service.go:151-153 | text contains whatever is written inside it, and "" contains only "" |
| GoStrings.ContainsWithin | internal/services/auth_service.go:151-153 | what a part contains, the whole contains |
| GoStrings.ContainsOnlyWithin | internal/repositories/auth_repository.go:68 | a pattern that cannot overlap the fixed words around the constraint name occurs in the text only inside that name |
| GoStrings.LacksJoin | internal/repositories/staff_repository.go:274 | two texts without a character concatenate to one without it |
| GoStrings.OccurrenceAt | internal/services/auth_service.go:151-153 | the characters of an occurrence are those of the pattern |
| GoStrings.ContainsOnlyInside | internal/services/staff_service.go:248-250 | a pattern none of whose characters at one position appear in the fixed words around a name occurs only inside the name |
| GoStrings.Split | internal/middleware/auth_middleware.go:22 | splitting gives at least one part |
| GoStrings.SplitJoin | internal/middleware/auth_middleware.go:22 | joining the parts of a split with the separator gives back the input |
| GoStrings.SplitPartsFree | internal/middleware/auth_middleware.go:22 | no part of a split holds the separator |
| GoStrings.SplitNoSep | internal/middleware/auth_middleware.go:22 | text without the separator splits into itself |
| GoStrings.SplitAt | internal/middleware/auth_middleware.go:22 | splitting at the first separator gives the text before it followed by the parts of the rest |
| GoStrings.SumLengthsPrefix | internal/handlers/inventory_handlers.go:258-261 | the parts up to any point are no longer in total than all of them |
| GoStrings.JoinLength | internal/handlers/inventory_handlers.go:258-261 | joined text is as long as the parts plus one separator between each two |
| GoStrings.JoinWithSnoc | internal/middleware/auth_middleware.go:22 | joining one part more appends the separator and that part |
| GoStrings.JoinOneChar | internal/middleware/auth_middleware.go:73 | strings.Join with a one-character separator agrees with the inverse of Split |
| GoStrings.SplitThenJoin | internal/middleware/auth_middleware.go:22 | strings.Join undoes strings.Split on the same separator |
| GoStrings.RuneLen | pkg/utils/error_utils.go:62 | UTF-8 takes one to four bytes per character, one exactly below U+0080 |
| GoStrings.ByteLenBounds | pkg/utils/error_utils.go:62 | the byte length of text lies between its character count and four times that |
| GoStrings.ByteLenAppend | pkg/utils/error_utils.go:62 | the byte length of a concatenation is the sum of the byte lengths |
| GoStrings.ByteLenAscii | pkg/utils/error_utils.go:62 | byte length equals character count exactly for ASCII text |
| GoStrings.FormatNat | internal/repositories/staff_repository.go:274 | %d of a natural number is one or more decimal digits |
| GoStrings.FormatInt | internal/repositories/staff_repository.go:274 | %d writes a minus sign first exactly for a negative number |

## Left out

- HTTP handlers, routing, request binding and JSON encoding are not modelled; only the decisions the handlers named above make are.
- Concurrency is not modelled. Each operation runs alone, so the race between the booking availability check and the write that follows it is outside the model.
- Database faults that no rule of the model produces (a lost connection, a failed statement) are not modelled, except where an operation's outcome depends on one. There they enter as parameters: the read-back fault of RegisterUser, the lookup fault of LoginUser and GetUserProfile.
- One scan fault follows from the data and is modelled as a rule, not a parameter: the staff lookup (StaffService.StaffById, and the staff check in BookingService.CreateBookingSpec) fails with a database error for a staff member without a user account, because the joined user columns are NULL. It decides UpdateStaffMember, DeleteStaffMember, CreateShift and CreateBooking. The staff listing (GetStaffMembers), which would fail the same way, is not modelled.
- Serial ids: PostgreSQL's sequences are never rolled back, so an insert a constraint refuses, or a transaction that is rolled back, still uses up an id. In the model the next id moves only with a row that stays written (PricelistRepository.ItemInserted refusing a duplicate key, or a Store transaction that is not committed, leave it unchanged), so later ids can be lower than the database's. They stay unique and ascending either way.
- Password hashing and comparison (bcrypt), token signing and token validation (JWT, pkg/utils/jwt_utils.go) are parameters. Their cryptography is not modelled.
- time.Parse and Time.Format are parameters.
- Time zones and daylight saving time are not modelled. The report windows are computed on a calendar date and a time of day given in one zone.
- BookingLifecycle.WholeSecondStartKept: times are instants, so a start compares equal to the stored one whenever the instants agree. Go's `!=` on time.Time (internal/services/booking_service.go:110) also compares the zone, so the same instant in another zone counts as moved there and can meet the past rule.
- Floating-point money (`float64` in the source) is modelled as integer cents. Prices, line totals, discounts and salaries are therefore exact, and rounding drift is not modelled.
- GoStrings.ToLower: lower-cases ASCII letters only, where Go's strings.ToLower and strings.EqualFold fold all of Unicode.
- GoStrings.TrimSpace: treats as white space only the Latin-1 characters Go's unicode.IsSpace accepts.
- InventoryHandlers.Join: counts characters where Go's `len` counts UTF-8 bytes; the two agree on ASCII text.
- The text of a database error is modelled as its fixed words plus the constraint name. The driver's own message is not modelled.
- The names of the unique and foreign-key constraints (users_username_key, clients_phone_number_key, the shifts' key on staff members and so on) are taken from the constraint names the services search for in error texts (strings.Contains). The schema that defines them is not part of this model.
- The booking foreign keys on table, client and staff member are assumed, for the same reason.
- MovementRepository.MovementInserted: refuses only an unknown item. The foreign key on staff_id (internal/repositories/inventory_movement_repository.go:48) is not checked, because the staff table is not part of the order and stock tables the movement log sits in.
- ClientService.KeyConflict: when a row breaks both unique keys, the model reports the phone number's. Which unique index PostgreSQL reports first depends on the schema, which is not part of this model.
- The unique keys of pricelist_items are assumed to be the name and the SKU (a NULL SKU never clashes), after the service's ErrItemNameConflict, "item name/SKU conflict". The schema is not part of this model.
- The SQL of the list queries is reduced to the rules the services and repositories apply before and after it: page defaults, filters, ordering, offset and total. Not modelled:
  - the SQL of GetCategories, GetItems and GetStaffMembers;
  - the repository side of GetShifts;
  - GetClients with its search term.
- DeleteClient is not modelled. The tables that reference clients are not part of the client model, so its foreign-key refusal could not be stated.
- The report aggregation queries (dashboard totals, sales by period, booking and inventory reports) and the start-date bound are not modelled. Only the Go-side decisions are: windows, period format, end-date bound and stock status.
- AuthService.GetUserProfileSpec: modelled as a function only, without a store method, because it reads one row and changes nothing.
- The source does not define the constant BookingStatusCheckedIn used by the availability check. It is modelled as "checked-in".
- The source also does not define the movement types the order service writes. They are modelled as "sale", "return_cancellation" and "return_deletion".
- ErrShiftOverlap is declared by the staff service but never returned. The overlap check for shifts is left as a TODO in the source, so no shift-overlap rule is modelled.
- internal/models/client_models.go:11 declares a client's DateOfBirth as text, while the service (internal/services/client_service.go:144, 221) and the repository store a parsed time. The model follows the service and the repository: the field is a time, written as NULL when it is Go's zero time.
- Where the code and the design of the service differ, the model follows the code. Four examples:
  - a booking update that changes only the table skips the availability check;
  - the booking service runs without a transaction, so a failed read-back after a write leaves the write in place;
  - deleting a staff member with shifts is refused by the database, but is not reported as ErrStaffInUse;
  - an item that does not track stock accepts a negative low-stock threshold.
