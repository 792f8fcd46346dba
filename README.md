# Event rental: reservations, storefront cart and admin reports in Dafny

This project models the core of an event-equipment rental site. Customers
pick items (chairs, tents, sound systems and so on) into a cart in the
storefront, choose a date range and send a booking request. The server
checks every cart entry against the stock that overlapping bookings have
not already taken. It then writes a booking that awaits mobile-money
payment under an `ERH-YYYYMMDD-XXXXXX` reference. Administrators manage
items, mark bookings paid or cancel them, and read dashboard figures
computed in the browser from the booking list.

The model has seven modules, one per file:

- `Wrappers` (`wrappers.dfy`): `Option` and `Result`.
- `Statuses` (`statuses.dfy`): the four booking status strings. `IsBlocking` holds for `awaiting_payment` and `paid`; `IsSettled` holds for `paid` and `completed`.
- `Seqs` (`seqs.dfy`): generic sequence functions:
  - order-preserving filtering and sums;
  - the stable sort by a decreasing key that JavaScript's `sort` performs;
  - `Keys`, the key order of a JavaScript `Map` filled from a list.
- `Reservation` (`reservation.dfy`): the server's logic over the three tables held as values. It covers:
  - day counting and the reference shape and retry rule;
  - the booked quantity;
  - validating, pricing and creating a booking;
  - item administration and status overwrites;
  - the table invariants these operations keep, and the no-overbooking theorem.
- `Server` (`server.dfy`): class `Store`, whose fields are the tables and the next AUTOINCREMENT ids. Each HTTP handler is a method that updates the fields the way the SQL does, proved against the `Reservation` functions.
- `Storefront` (`storefront.dfy`): the browser shop. It covers:
  - the day count;
  - the keyword category classifier and the category filter;
  - the cart, a class over a `map` plus the Map's insertion order, and its total;
  - the checks run before a request is sent, and how they connect to the server's validation.
- `Admin` (`admin.dfy`): the admin dashboard. It covers:
  - counts and revenue, and the per-status revenue breakdown;
  - customer grouping, with the `Map` loop as methods;
  - the booking filter and item popularity;
  - the status buttons and badges.

Dates are whole day numbers throughout. The server stores them as
`YYYY-MM-DD` text and compares the text. For well-formed, zero-padded
dates, which the storefront's date inputs produce, that orders dates the
same way day numbers do. An absent or empty form field is `None` or `""`, which is
what JavaScript treats as false.

## Model

| member | source | states |
|---|---|---|
| Reservation.DaysBetweenInclusive | server.js:16-22 | The day count is at least 1. It is `end - start + 1` for an ordered range and 1 for a reversed one. |
| Reservation.DaysCountsEveryDayOfRange | server.js:16-22 | For an ordered range, the day count equals the number of calendar days from start to end, both ends included. |
| Reservation.MakeReference | server.js:24-31 | The reference is 19 characters long and has the shape `ERH-` + 8 digits + `-` + 6 upper-case hex characters. The digits read back as the year, zero-padded month and day. The hex reads back as the three random bytes. |
| Reservation.DigitsRoundTrip | server.js:27-28 | Zero-padded decimal printing can be read back to the same number. |
| Reservation.HexRoundTrip | server.js:29 | The upper-case hex encoding of bytes decodes back to the same bytes. |
| Reservation.PickReference | server.js:126-132 | The retry loop stops at the first candidate that is not taken, among the first three. Every earlier candidate was taken. The fourth candidate is used without being looked up. |
| Reservation.CreatedReferenceHasShape | server.js:126-156 | When every candidate has the `ERH-` shape that `MakeReference` produces, the created booking's reference has that shape too. |
| Reservation.FourthCandidateUnchecked | server.js:128-132 | When the first three candidates are all taken, the fourth is chosen whether or not it is taken, and no error is raised. |
| Reservation.FindItem | server.js:114 | An item lookup by id returns a row of the table with that id. It returns nothing exactly when no row has the id. |
| Reservation.ActiveItem | server.js:114 | The lookup used by the create loop returns only a row with that id and `is_active = 1`. `ActiveItemFinds` and `ActiveItemExactly` show that it finds such a row whenever one exists. |
| Reservation.ActiveItemFinds | server.js:114 | With unique item ids, looking up the id of an active row returns that row. |
| Reservation.ActiveItemExactly | server.js:114 | With unique item ids, the lookup fails exactly when no row with the id is active. Otherwise it returns the active row with the id. |
| Reservation.BookingOf | server.js:38 | The join from a line item to its booking returns the booking with that id. It returns nothing exactly when no booking has the id. |
| Reservation.BookedQty | server.js:33-47 | The booked quantity sums the quantities of the line items that `BlocksExactly` describes. It is not negative when no line quantity is. |
| Reservation.BlocksExactly | server.js:33-47 | A line item counts toward the booked quantity exactly when all of these hold: it is for the item; its booking is `awaiting_payment` or `paid`; the booking starts no later than the range ends; the booking ends no earlier than the range starts. Both ends are inclusive. |
| Reservation.BookedQtyZeroWhenNothingBlocks | server.js:36 | With no matching line item, the booked quantity is 0. This is the COALESCE. |
| Reservation.BookedQtyAppend | server.js:36 | The booked quantity of concatenated line tables is the sum of the booked quantities of the parts. |
| Reservation.BookedQtyIgnoresNewHeader | server.js:135-156 | A new booking header with no line items yet does not change any booked quantity. |
| Reservation.ValidateBooking | server.js:99-107 | The up-front checks pass exactly when the request has all of these: name, email and phone; both dates; address and city; a non-empty cart. Each error is returned exactly when its own check fails and every earlier check passes. A missing name, email, phone or date gives the customer-or-dates error. Otherwise a missing address or city gives the delivery error. Otherwise a missing or empty cart gives the empty-cart error. |
| Reservation.EntryCheck | server.js:113-121 | One turn of the validation loop succeeds exactly when the entry fits: the item is active and the quantity is at most stock minus booked. On success it yields price × qty × days. A missing or inactive item gives the not-found error with the entry's id. A quantity that is too large gives the not-enough error with the item's name and the quantity still available. |
| Reservation.CheckCart | server.js:113-124 | The validation loop fails only with the not-found or the not-enough error. `CheckCartSound` and `CheckCartFirstFailure` say when each occurs. |
| Reservation.CheckCartSound | server.js:113-124 | The validation loop succeeds exactly when every entry's item is active and the entry's quantity is at most stock minus booked. On success, the total is the sum of price × qty × days. |
| Reservation.CheckCartFirstFailure | server.js:113-121 | A failed validation loop reports the error of the first entry that does not fit. Every earlier entry fits. |
| Reservation.CheckCartFailureStops | server.js:115-120 | Once the loop fails on a prefix of the cart, the result for the whole cart is that failure. |
| Reservation.NewLines | server.js:161-167 | One line item is written per cart entry, in cart order. Each carries the new booking id, the entry's item and quantity, and the item's current price per day. |
| Reservation.CreateOutcome | server.js:86-167 | A booking is created only for a request that passes validation and whose cart items all exist. |
| Reservation.CreateSucceedsIff | server.js:99-156 | Create succeeds exactly when all of these hold: the request passes validation; every entry fits its item's remaining stock over the dates; the chosen reference is not already in use. |
| Reservation.CreatedBookingShape | server.js:135-156 | A created booking has the next id, status `awaiting_payment` and payment method `momo`. Its amount is the cart price over the inclusive day count. Its reference is used by no other booking. It carries the request's customer, dates, address, city and landmark. |
| Reservation.AppendBookingValid | server.js:135-156 | Appending a header with the next id and an unused reference keeps booking ids unique and below the next id, and keeps references unique. |
| Reservation.AppendLinesValid | server.js:161-167 | Line items for an existing booking and existing items keep every line pointing at an existing booking and an existing item. |
| Reservation.CreatePreservesTables | server.js:135-167 | Writing the new header and its line items keeps every table invariant. |
| Reservation.QtyForSingleEntry | server.js:113-121 | In a cart with distinct item ids, an entry's item is asked for in exactly that entry's quantity. |
| Reservation.QtyForAbsent | server.js:113-121 | An item that no cart entry names is asked for in quantity 0. |
| Reservation.BookedQtyOfNewLines | server.js:36-42 | The new booking's own line items block exactly what its cart asked of each item over its range. They block nothing when the range is reversed. |
| Reservation.BookedAfterCreate | server.js:113-167 | After a successful create, each item's booked quantity over the requested range is the old booked quantity plus what the cart asked of that item. It is unchanged when the range is reversed. |
| Reservation.NoOverbooking | server.js:113-167 | This is the main theorem. After a successful create whose cart names each item at most once, every cart item's blocking quantity over the requested range is at most its stock. This includes the new booking's own lines. It holds for an ordered range, or for an entry with a non-negative quantity. |
| Reservation.RepeatedItemCanOverbook | server.js:113-121 | The distinct-ids condition is needed. A cart asking twice for all 5 units of a 5-unit item passes the loop, and 10 units are then booked. |
| Reservation.AvailabilityOf | server.js:64-73 | Each availability row carries the entry's item id. It is a not-found row exactly when the item is absent or inactive. Otherwise it reports the requested quantity and is ok exactly when that quantity is at most what is available. |
| Reservation.AvailabilityMatchesCreateCheck | server.js:62-73 | In an availability row, an absent or inactive item gives a not-found row. Otherwise the row reports stock minus booked and the requested quantity. The row is ok exactly when create would accept the entry. |
| Reservation.WithoutItem | server.js:259 | Deleting by id keeps exactly the rows with other ids. |
| Reservation.DeleteRemovesOnlyThatItem | server.js:259 | After a delete, looking up the deleted id finds nothing. Looking up any other id finds the same row as before. |
| Reservation.WithoutItemValid | server.js:259 | Deleting an item keeps item ids unique and below the next id. |
| Reservation.DeleteGuardKeepsIntegrity | server.js:249-261 | Removing an item keeps every line item pointing at an existing item if and only if no line item refers to it. The guard is exactly what integrity needs. |
| Reservation.WithItemFields | server.js:236-246 | The update overwrites every field of the row with that id with the given values, with no validation. All other rows and the row order are unchanged. |
| Reservation.WithStatus | server.js:281-291 | The status overwrite sets the status of the booking with that id, whatever it was before. Every other booking and every other field is unchanged. |
| Reservation.SameBookingKeys | server.js:281-291 | A rewrite that keeps each row's id and reference keeps the booking invariants and the set of booking ids. |
| Reservation.WithStatusKeepsTables | server.js:281-291 | Mark-paid and cancel keep every table invariant. |
| Reservation.BookingOfWithStatus | server.js:283 | After the overwrite, the join finds the same bookings, with only the target booking's status changed. |
| Reservation.CancelNeverRaisesBooked | server.js:287-291 | With non-negative line quantities, cancelling never raises the booked quantity of any item over any range. |
| Reservation.MarkPaidRevivesCancelled | server.js:281-285 | Mark-paid does not check the current status. A cancelled booking that is marked paid blocks its stock over its dates again. |
| Server.Store.constructor | db.js:54-98 | The store starts with empty tables that satisfy the invariants. |
| Server.Store.Availability | server.js:56-76 | Missing dates or a missing cart give the input error and nothing else. Otherwise the result has one row per cart entry, in cart order, each being that entry's availability row. Nothing is written. |
| Server.Store.CreateBooking | server.js:86-183 | Every outcome of create keeps the table invariants. A failure returns the error and leaves bookings, line items and ids unchanged. A success returns the new id, amount and reference, appends exactly the new header and its line items, and advances the booking id. Items are never changed. |
| Server.Store.PriceCart | server.js:109-124 | The validation loop returns the first error or the accumulated total, as `CheckCart` defines them. |
| Server.Store.ChooseReference | server.js:126-132 | The retry loop returns the reference `PickReference` defines. |
| Server.Store.WriteLines | server.js:160-167 | The line-item loop appends exactly one line item per cart entry and changes nothing else. |
| Server.Store.CreateItem | server.js:224-234 | An empty name or a missing or zero price or stock is refused, and nothing changes. Otherwise one item is appended with the next id, the given fields, and `is_active` 1 when absent. The new id is returned. |
| Server.Store.UpdateItem | server.js:236-246 | The row with the id has every field overwritten, with no validation. The tables stay valid. |
| Server.Store.DeleteItem | server.js:249-261 | The delete is refused exactly when some line item refers to the item, and then nothing changes. Otherwise only that item is removed. Bookings and line items are untouched in both cases. |
| Server.Store.MarkPaid | server.js:281-285 | The target booking's status becomes `paid` whatever it was, nothing else changes, and the tables stay valid. |
| Server.Store.Cancel | server.js:287-291 | The target booking's status becomes `cancelled` whatever it was, nothing else changes, and the tables stay valid. |
| Seqs.SortDesc | public/admin.js:622-623 | The sorted list is a permutation of the input, ordered by non-increasing key. |
| Storefront.CalcDays | public/app.js:65-70 | The day count is at least 1 and is `end - start + 1` for an ordered range. It equals the server's day count for every range. |
| Storefront.CategoryFrom | public/app.js:33-42 | The category is that of the first keyword group, in the listed order, that has a keyword in the name. It is "all" exactly when no group matches. |
| Storefront.ItemCategory | public/app.js:33-42 | The category is one of "seating", "tents", "sound", "lighting", "decor" and "all". `ItemCategoryIsFirstMatchingGroup` says which one. |
| Storefront.ItemCategoryIsFirstMatchingGroup | public/app.js:33-42 | `getItemCategory` lower-cases the name and returns the first matching group's category, or "all". |
| Storefront.TableLampIsSeating | public/app.js:36-39 | "table" is tried before the lighting keywords, so "Table Lamp" is seating. |
| Storefront.FilterItems | public/app.js:184-191 | With "all", every item is kept. Otherwise the result keeps the original order and contains exactly the items whose own category or name-derived category is the filter, each as many times as in the input. |
| Storefront.RequestEntries | public/app.js:415 | The request cart has one `{item_id, qty}` per cart key, in insertion order. Its item ids are distinct because the keys are. |
| Storefront.Without | public/app.js:165 | Removing a key from the insertion order drops exactly that key and keeps the others distinct. |
| Storefront.Cart.constructor | public/app.js:17 | The cart starts empty. |
| Storefront.Cart.Add | public/app.js:230-235 | A new id enters with quantity 1 at the end of the order. A present id goes up by 1. Every other row is unchanged and every quantity stays at least 1. |
| Storefront.Cart.Increment | public/app.js:138-148 | A present row goes up by 1. The order and every other row are unchanged. |
| Storefront.Cart.Decrement | public/app.js:150-160 | A present row goes down by 1 but not below 1. The order and every other row are unchanged. |
| Storefront.Cart.Remove | public/app.js:162-169 | Only that id's row is removed, from the map and from the order. |
| Storefront.Cart.Clear | public/app.js:483 | After a successful booking the cart is empty. |
| Storefront.Cart.Total | public/app.js:90-111 | The total is the sum of price × qty × days over the rows in insertion order. Days is 1 when either date is missing. An empty cart totals 0. |
| Storefront.CartTotalMatchesServerAmount | public/app.js:107-111 | When the cart's prices are the server's, the cart's total is exactly the amount the server charges for the request built from it. |
| Storefront.AvailabilityGuard | public/app.js:317-333 | The availability button sends a request exactly when both dates are set, start is not after end, and the cart is not empty. Each error is reported exactly when its own check fails and the earlier ones pass: missing dates, then end before start, then an empty cart. |
| Storefront.Trim | public/app.js:375-381 | `trim` yields a piece of the field with no white space at either end. It is empty exactly when the field is white space only. `TrimRemovesOnlyBlanks` shows that the field is blank text, then the result, then blank text. `TrimIdempotent` shows that trimming twice changes nothing. |
| Storefront.TrimRemovesOnlyBlanks | public/app.js:375-381 | The field is exactly some blank text, then the trimmed value, then some blank text. So `trim` removes white space from the two ends and nothing else. |
| Storefront.TrimIdempotent | public/app.js:375-381 | Trimming a trimmed field leaves it unchanged. |
| Storefront.SubmitGuard | public/app.js:375-413 | The checks run on the trimmed fields. A booking request is sent exactly when all of these hold: both dates are set and ordered; name, email and phone are not white space only; the trimmed email contains `@` and `.`; address and city are not white space only; the cart is not empty. Each of the six errors is reported exactly when its own check fails and every earlier check passes, in this order. |
| Storefront.SpacesOnlyNameRefused | public/app.js:375-395 | A name of three spaces is refused as missing customer information, although it is not the empty string. |
| Storefront.SubmitGuardImpliesServerValidation | public/app.js:375-439 | A request that passes the storefront checks passes the server's up-front validation, has an ordered range and names each item once. The request carries the trimmed fields. |
| Storefront.StorefrontBookingNeverOverbooks | public/app.js:384-439 | When a booking made from the storefront is accepted, every item in it is booked over the range at most up to its stock. |
| Admin.Dashboard | public/admin.js:119-124 | The total is the number of bookings. The paid count is the paid plus the completed bookings. The pending count is the number of `awaiting_payment` bookings, and paid plus pending never exceeds the total. The revenue is the paid revenue plus the completed revenue. |
| Admin.Breakdown | public/admin.js:738-743 | The paid and completed columns add up to the dashboard revenue. The awaiting and cancelled columns are the summed amounts of the bookings with those statuses. |
| Admin.SettledSplitsByStatus | public/admin.js:119-124 | The paid-or-completed bookings split by status. Their number is the paid count plus the completed count. Their amounts are the paid revenue plus the completed revenue. |
| Admin.StatusCountsPartition | public/admin.js:119-121 | When every status is a known one, the four status counts add up to the number of bookings. Total minus paid minus pending is the cancelled count. |
| Admin.CustomerFor | public/admin.js:603-619 | The entry for an email has that email. Its bookings are exactly the bookings with that email, in their original order. Name and phone come from the first of them. The total spent is the sum of what these bookings add to spending. |
| Admin.CustomersOf | public/admin.js:601-620 | There is one entry per given email, in the given order, each being that email's entry. Distinct emails give entries with distinct emails. |
| Admin.CustomerForAppend | public/admin.js:603-619 | One more booking opens an entry with its name and phone if the email is new. It then appends the booking and adds its amount when it is paid or completed. Entries of other emails are unchanged. |
| Admin.KeysHaveBookings | public/admin.js:605 | An email is a key of the grouping Map exactly when it has at least one booking. |
| Admin.CustomersStep | public/admin.js:603-619 | One turn of the grouping loop keeps the Map equal to the grouping of the bookings seen so far, with keys in order of first appearance. |
| Admin.AddToGroup | public/admin.js:604-619 | One loop turn opens a fresh entry for a new email, then charges the booking to the entry. |
| Admin.GroupByEmail | public/admin.js:601-620 | After the loop, the Map's keys are the distinct emails in order of first appearance, and each value is that email's group. |
| Admin.GroupCustomers | public/admin.js:601-623 | The customer list is the per-email groups sorted by decreasing total spent. |
| Admin.CustomersOfTotals | public/admin.js:616-619 | The entries' booking counts and totals spent add up to the per-email sums. |
| Admin.SpentSumIsRevenue | public/admin.js:617-618 | The sum of what each booking adds to spending is the dashboard revenue. |
| Admin.CustomerListSortedAndDistinct | public/admin.js:622-623 | The customer list is sorted non-increasingly by total spent and has one entry per email. |
| Admin.CustomerListIsGrouping | public/admin.js:601-623 | Each entry has the first booking's name and phone, all of that email's bookings in order, and the paid or completed amounts summed. Every booking's email has an entry. |
| Admin.CustomerListTotals | public/admin.js:601-623 | The booking counts of the customer list add up to the number of bookings. The totals spent add up to the dashboard revenue. |
| Admin.FilterBookings | public/admin.js:295-307 | The filter keeps, in order, exactly the bookings whose status matches, unless the filter is "all". A booking must also start on or after the from date and end on or before the to date. An empty field imposes nothing. |
| Admin.SalesOf | public/admin.js:702-711 | A booking contributes its lines in order, each marked settled when the booking is paid or completed. Their quantities add up to the booking's total quantity. Their revenue is the booking's sum of price × qty when it is settled, and 0 otherwise. |
| Admin.Sales | public/admin.js:700-702 | Every line of every booking appears, marked with whether its booking is settled. Without a paid or completed booking, no sale is settled. `SalesAppend` and `SalesTotals` show that each line appears exactly once, in listing order. |
| Admin.SalesAppend | public/admin.js:700-702 | One more booking appends exactly its own lines, in order, after those of the earlier bookings. |
| Admin.SalesTotals | public/admin.js:700-711 | There are as many sales as lines over all bookings. Their quantities add up to all booked quantities. Their revenues add up to price × qty over the lines of paid or completed bookings. |
| Admin.StatFor | public/admin.js:702-711 | A name's statistics carry that name. The count is the number of lines with that name. It is 0 exactly when no line has the name, and then the quantity and revenue are 0 too. |
| Admin.StatsOf | public/admin.js:700-715 | There is one statistics entry per given name, in the given order, each being that name's statistics. Distinct names give entries with distinct names. |
| Admin.StatForAppend | public/admin.js:702-711 | One more line adds 1 to its name's count and its quantity to the name's quantity. It adds price × qty to the revenue only when its booking is settled. Other names are unchanged. |
| Admin.StatForOfAbsentName | public/admin.js:703-704 | A name with no lines yet has zero count, quantity and revenue. |
| Admin.PopularityStep | public/admin.js:702-711 | One line keeps the Map equal to the statistics of the lines seen so far, with keys in order of first appearance. |
| Admin.AddSale | public/admin.js:703-711 | One inner turn opens a zero entry for a new name, then counts the line. |
| Admin.TallyBooking | public/admin.js:702-712 | The inner loop over one booking's lines extends the Map to the statistics of all lines seen so far. |
| Admin.TallyAll | public/admin.js:700-713 | After both loops, the Map holds the statistics of every line of every booking, keyed in order of first appearance. |
| Admin.ItemPopularity | public/admin.js:700-716 | The popularity table is the per-name statistics sorted by decreasing line count. |
| Admin.StatsOfTotals | public/admin.js:707-711 | The entries' counts, quantities and revenues add up to the per-name sums. |
| Admin.PopularitySortedAndDistinct | public/admin.js:715-716 | The popularity table is sorted non-increasingly by count and has one entry per item name. |
| Admin.PopularityIsGrouping | public/admin.js:700-716 | Each entry is its name's statistics and every line's name has an entry. |
| Admin.PopularityTotals | public/admin.js:700-716 | The counts add up to the number of lines of all bookings. The quantities add up to the booked quantities of all bookings. The revenues add up to price × qty over the lines of paid or completed bookings, with no days factor. |
| Admin.OfferedActions | public/admin.js:189-194 | For a known status, the full table offers a button exactly for each transition of the intended lifecycle: pay while awaiting payment, complete once paid, cancel while open. The compact table offers the same buttons minus Complete. An unknown status gets only Cancel. |
| Admin.StatusBadge | public/admin.js:40-48 | An unknown status is shown as its own text with the primary class. |
| Admin.KnownBadgesDistinct | public/admin.js:41-46 | The four known statuses get four different labels. |

## Left out

- Storage and I/O: the SQLite database (`db.js`), schema migration and seeding. The tables are sequences held by `Server.Store`.
- `db.js` is not part of this model beyond the `UNIQUE` constraint on `payment_reference`. An insert with a reference already in use fails; `CreateBooking` models that failure as `ReferenceTaken` with nothing written. `server.js` itself raises no error after three collisions.
- Create validation: `Number(...)` casts and JavaScript type coercion of request fields are not modelled. A missing or non-numeric `qty` is not modelled, and quantities are integers.
- Reservation.NoOverbooking: the server accepts negative quantities (`server.js:113-124`). A negative entry over a reversed range passes against an item that is already overbooked, and its lines block nothing. So the theorem assumes an ordered range or a non-negative quantity.
- Authentication: login, JWT and bcrypt (`server.js:187-217`, `middleware/auth.js`). These are calls into libraries whose code is not part of this model.
- Express routing, HTTP status codes and error message texts. Failures are the `CreateError`, `AdminError` and `RequestError` datatypes.
- The MoMo payment details taken from environment variables (`server.js:78-84`, `server.js:170-182`). The create response is modelled only as id, amount and reference.
- `GET /api/items` and the admin booking listing (`server.js:51-54`, `server.js:263-279`) are not modelled as handlers. The listing's row shape is `Admin.AdminBooking`. The `ORDER BY created_at` is not modelled.
- Time and randomness: the clock and `crypto.randomBytes` in `makeReference` become parameters. The year is taken as four digits, and the successive references are a `candidates` sequence.
- Concurrency: the read-then-write gap between concurrent creates, and the fact that the header and line inserts run outside a transaction. The model is sequential.
- Dates: JavaScript `Date` parsing, time zones and daylight-saving effects in `daysBetweenInclusive` and `calcDays`. Dates are day numbers.
- Malformed date strings: `server.js:88-107` accepts any text as `start_date` and `end_date`. Text that is not a zero-padded `YYYY-MM-DD` date compares differently from day numbers in the overlap query, and such text is not modelled.
- Floating point: `money`/`toFixed` formatting and the average order value (`public/admin.js:24-26`, `public/admin.js:693-697`).
- Presentation: `getItemIcon`, `formatDate`, the "this month" figures, the last-booking date per customer, rendering, tabs, gallery, mobile menu and `localStorage`.
- The end-date adjustment in the storefront's date inputs is not modelled.
- `public/script.js` is not part of this model. It is a contact-form request with no logic.
- The admin Complete button calls `PUT /api/admin/bookings/:id/complete` (`public/admin.js:263`), but `server.js` has no such route. The model has no complete handler, and `Admin.Target` records only what the button asks for.
- Storefront.Lower: lower-cases ASCII letters only. JavaScript's `toLowerCase` also folds non-ASCII letters.
- Storefront.Cart.Add: the JavaScript cart stores `{item, qty}` objects and changes `qty` in place. The model replaces the row in a `map` and keeps the Map's insertion order as a separate sequence, so it does not capture aliasing of row objects.
- Admin.StatusBadge: the contract covers unknown statuses. The four fixed labels are stated by `Admin.KnownBadgesDistinct` and the function body. Status names that collide with `Object.prototype` keys such as `constructor` are not modelled.
- Seqs.SortDesc: the contract states order and permutation. Stability for equal keys holds by construction but is not stated as a property.
- Server.Store.UpdateItem: the `Number(...)` casts and `description || ""` are not modelled. The fields arrive already converted, so a `NaN` price is not represented.
