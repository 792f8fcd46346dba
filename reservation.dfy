/**
 * The reservation logic of the rental server, over the three tables held as
 * values: items, booking headers and booking line items.
 *
 * Dates are day numbers. The server keeps them as `YYYY-MM-DD` text and
 * compares them as text. For well-formed, zero-padded dates that orders
 * them exactly as day numbers do; other text is not modelled.
 */
module Reservation {
  import opened Wrappers
  import opened Statuses

  type Day = int

  datatype Item = Item(
    id: int,
    name: string,
    description: string,
    pricePerDay: int,
    quantityTotal: int,
    active: int)

  datatype Booking = Booking(
    id: int,
    customerName: string,
    customerEmail: string,
    customerPhone: string,
    startDate: Day,
    endDate: Day,
    status: string,
    amountTotal: int,
    deliveryAddress: string,
    deliveryCity: string,
    deliveryLandmark: string,
    paymentMethod: string,
    paymentReference: string)

  /** A booking_items row: the quantity and the price per day at booking time. */
  datatype LineItem = LineItem(bookingId: int, itemId: int, qty: int, pricePerDay: int)

  /** One entry of a request's cart. Quantities are not validated by the server. */
  datatype CartEntry = CartEntry(itemId: int, qty: int)

  // ---------------------------------------------------------------------------
  // Days
  // ---------------------------------------------------------------------------

  /** `daysBetweenInclusive`: the number of rental days, never less than one. */
  function DaysBetweenInclusive(start: Day, end: Day): (days: int)
    ensures days >= 1
    ensures start <= end ==> days == end - start + 1
    ensures end < start ==> days == 1
  {
    var d := end - start + 1;
    if d < 1 then 1 else d
  }

  /** The calendar days from `start` to `end`, both included. */
  ghost function DaySpan(start: Day, end: Day): (r: set<Day>)
    ensures forall d :: d in r <==> start <= d <= end
    decreases end - start
  {
    if end < start then {} else DaySpan(start, end - 1) + {end}
  }

  /** For an ordered range, the day count is the number of calendar days it covers, both ends included. */
  lemma {:induction false} DaysCountsEveryDayOfRange(start: Day, end: Day)
    requires start <= end
    ensures DaysBetweenInclusive(start, end) == |DaySpan(start, end)|
    decreases end - start
  {
    if start == end {
      assert DaySpan(start, end - 1) == {};
    } else {
      DaysCountsEveryDayOfRange(start, end - 1);
      assert end !in DaySpan(start, end - 1);
    }
  }

  // ---------------------------------------------------------------------------
  // Payment references: ERH-YYYYMMDD-XXXXXX
  // ---------------------------------------------------------------------------

  type Byte = b: int | 0 <= b < 256

  function Pow10(n: nat): nat {
    if n == 0 then 1 else 10 * Pow10(n - 1)
  }

  predicate IsDigit(c: char) {
    '0' <= c <= '9'
  }

  predicate IsUpperHex(c: char) {
    ('0' <= c <= '9') || ('A' <= c <= 'F')
  }

  /** `n` in exactly `width` decimal digits, zero-padded on the left (`padStart(width, "0")`). */
  function Digits(n: nat, width: nat): (s: string)
    requires n < Pow10(width)
    ensures |s| == width
    ensures forall k :: 0 <= k < |s| ==> IsDigit(s[k])
  {
    if width == 0 then []
    else Digits(n / 10, width - 1) + [('0' as int + n % 10) as char]
  }

  function DigitValue(c: char): (v: nat)
    requires IsDigit(c)
    ensures v < 10
  {
    c as int - '0' as int
  }

  function DigitsValue(s: string): nat
    requires forall k :: 0 <= k < |s| ==> IsDigit(s[k])
  {
    if s == [] then 0
    else 10 * DigitsValue(s[..|s| - 1]) + DigitValue(s[|s| - 1])
  }

  lemma {:induction false} DigitsRoundTrip(n: nat, width: nat)
    requires n < Pow10(width)
    ensures DigitsValue(Digits(n, width)) == n
  {
    if width > 0 {
      DigitsRoundTrip(n / 10, width - 1);
      var s := Digits(n, width);
      assert s[..|s| - 1] == Digits(n / 10, width - 1);
    }
  }

  function HexDigit(v: int): (c: char)
    requires 0 <= v < 16
    ensures IsUpperHex(c)
  {
    if v < 10 then ('0' as int + v) as char else ('A' as int + v - 10) as char
  }

  function HexValue(c: char): (v: int)
    requires IsUpperHex(c)
    ensures 0 <= v < 16
  {
    if c <= '9' then c as int - '0' as int else c as int - 'A' as int + 10
  }

  /** Two upper-case hex characters per byte (`toString("hex").toUpperCase()`). */
  function Hex(bytes: seq<Byte>): (s: string)
    ensures |s| == 2 * |bytes|
    ensures forall k :: 0 <= k < |s| ==> IsUpperHex(s[k])
  {
    if bytes == [] then []
    else [HexDigit(bytes[0] / 16), HexDigit(bytes[0] % 16)] + Hex(bytes[1..])
  }

  function HexBytes(s: string): seq<Byte>
    requires |s| % 2 == 0
    requires forall k :: 0 <= k < |s| ==> IsUpperHex(s[k])
  {
    if s == [] then []
    else [HexValue(s[0]) * 16 + HexValue(s[1])] + HexBytes(s[2..])
  }

  lemma {:induction false} HexRoundTrip(bytes: seq<Byte>)
    ensures HexBytes(Hex(bytes)) == bytes
  {
    if bytes != [] {
      HexRoundTrip(bytes[1..]);
      assert Hex(bytes)[2..] == Hex(bytes[1..]);
    }
  }

  predicate IsReferenceShape(r: string) {
    && |r| == 19
    && r[..4] == "ERH-"
    && (forall k :: 4 <= k < 12 ==> IsDigit(r[k]))
    && r[12] == '-'
    && (forall k :: 13 <= k < 19 ==> IsUpperHex(r[k]))
  }

  /**
   * `makeReference`: the prefix, the local date and three random bytes. The
   * date and the bytes come from the clock and from `crypto`, so they are
   * parameters here.
   */
  function MakeReference(year: nat, month: nat, day: nat, random: seq<Byte>): (r: string)
    requires 1000 <= year <= 9999 && 1 <= month <= 12 && 1 <= day <= 31
    requires |random| == 3
    ensures IsReferenceShape(r)
    ensures DigitsValue(r[4..8]) == year
    ensures DigitsValue(r[8..10]) == month
    ensures DigitsValue(r[10..12]) == day
    ensures HexBytes(r[13..19]) == random
  {
    var r := "ERH-" + Digits(year, 4) + Digits(month, 2) + Digits(day, 2) + "-" + Hex(random);
    ReferenceFields(Digits(year, 4), Digits(month, 2), Digits(day, 2), Hex(random), r);
    DigitsRoundTrip(year, 4);
    DigitsRoundTrip(month, 2);
    DigitsRoundTrip(day, 2);
    HexRoundTrip(random);
    r
  }

  /** Where each field sits in an assembled reference. */
  lemma ReferenceFields(y: string, m: string, d: string, h: string, r: string)
    requires |y| == 4 && |m| == 2 && |d| == 2 && |h| == 6
    requires forall k :: 0 <= k < |y| ==> IsDigit(y[k])
    requires forall k :: 0 <= k < |m| ==> IsDigit(m[k])
    requires forall k :: 0 <= k < |d| ==> IsDigit(d[k])
    requires forall k :: 0 <= k < |h| ==> IsUpperHex(h[k])
    requires r == "ERH-" + y + m + d + "-" + h
    ensures IsReferenceShape(r)
    ensures r[4..8] == y && r[8..10] == m && r[10..12] == d && r[13..19] == h
  {
    assert r[4..8] == y;
    assert r[8..10] == m;
    assert r[10..12] == d;
    assert r[13..19] == h;
    forall k | 4 <= k < 12 ensures IsDigit(r[k]) {
      if k < 8 {
        assert r[k] == y[k - 4];
      } else if k < 10 {
        assert r[k] == m[k - 8];
      } else {
        assert r[k] == d[k - 10];
      }
    }
    forall k | 13 <= k < 19 ensures IsUpperHex(r[k]) {
      assert r[k] == h[k - 13];
    }
  }

  /** Regenerations after the first candidate reference (server.js:128). */
  const ReferenceRetries: nat := 3

  function References(bookings: seq<Booking>): set<string> {
    set b | b in bookings :: b.paymentReference
  }

  /**
   * The reference the retry loop settles on when it reaches attempt `i`:
   * the first candidate from `i` on that is not taken, except that the last
   * candidate is used without being looked up.
   */
  function PickReference(taken: set<string>, candidates: seq<string>, i: nat): (r: string)
    requires |candidates| > ReferenceRetries && i <= ReferenceRetries
    ensures exists k ::
      && i <= k <= ReferenceRetries
      && r == candidates[k]
      && (forall j :: i <= j < k ==> candidates[j] in taken)
      && (k < ReferenceRetries ==> r !in taken)
    decreases ReferenceRetries - i
  {
    if i == ReferenceRetries || candidates[i] !in taken then candidates[i]
    else PickReference(taken, candidates, i + 1)
  }

  /** When the first three candidates are all taken, the fourth is chosen whether or not it is taken. */
  lemma FourthCandidateUnchecked(taken: set<string>, candidates: seq<string>)
    requires |candidates| > ReferenceRetries
    requires forall j :: 0 <= j < ReferenceRetries ==> candidates[j] in taken
    ensures PickReference(taken, candidates, 0) == candidates[ReferenceRetries]
  {
  }

  // ---------------------------------------------------------------------------
  // Lookups
  // ---------------------------------------------------------------------------

  function ItemIds(items: seq<Item>): set<int> {
    set it | it in items :: it.id
  }

  function BookingIds(bookings: seq<Booking>): set<int> {
    set b | b in bookings :: b.id
  }

  /** `SELECT * FROM items WHERE id = ?` */
  function FindItem(items: seq<Item>, id: int): (r: Option<Item>)
    ensures r.Some? ==> r.value in items && r.value.id == id
    ensures r.None? <==> id !in ItemIds(items)
  {
    if items == [] then None
    else if items[0].id == id then Some(items[0])
    else
      assert ItemIds(items) == {items[0].id} + ItemIds(items[1..]) by {
        assert items == [items[0]] + items[1..];
      }
      FindItem(items[1..], id)
  }

  /** `SELECT * FROM items WHERE id = ? AND is_active = 1` */
  function ActiveItem(items: seq<Item>, id: int): (r: Option<Item>)
    ensures r.Some? ==> r.value in items && r.value.id == id && r.value.active == 1
  {
    match FindItem(items, id)
    case Some(it) => if it.active == 1 then Some(it) else None
    case None => None
  }

  /** With unique item ids, the active lookup finds an active row with that id. */
  lemma ActiveItemFinds(items: seq<Item>, nextItemId: int, it: Item)
    requires ItemsValid(items, nextItemId) && it in items && it.active == 1
    ensures ActiveItem(items, it.id) == Some(it)
  {
    var f := FindItem(items, it.id);
    assert it.id in ItemIds(items);
    var i :| 0 <= i < |items| && items[i] == f.value;
    var j :| 0 <= j < |items| && items[j] == it;
    assert i == j;
  }

  /** With unique item ids, the active lookup fails exactly when no row with that id is active. */
  lemma ActiveItemExactly(items: seq<Item>, nextItemId: int, id: int)
    requires ItemsValid(items, nextItemId)
    ensures ActiveItem(items, id).None? <==> forall it :: it in items && it.id == id ==> it.active != 1
    ensures forall it :: it in items && it.id == id && it.active == 1 ==> ActiveItem(items, id) == Some(it)
  {
    forall it | it in items && it.id == id && it.active == 1
      ensures ActiveItem(items, id) == Some(it)
    {
      ActiveItemFinds(items, nextItemId, it);
    }
  }

  /** The booking a line item's booking_id joins with. */
  function BookingOf(bookings: seq<Booking>, id: int): (r: Option<Booking>)
    ensures r.Some? ==> r.value in bookings && r.value.id == id
    ensures r.None? <==> id !in BookingIds(bookings)
  {
    if bookings == [] then None
    else if bookings[0].id == id then Some(bookings[0])
    else
      assert BookingIds(bookings) == {bookings[0].id} + BookingIds(bookings[1..]) by {
        assert bookings == [bookings[0]] + bookings[1..];
      }
      BookingOf(bookings[1..], id)
  }

  // ---------------------------------------------------------------------------
  // Table invariants
  // ---------------------------------------------------------------------------

  predicate ItemsValid(items: seq<Item>, nextItemId: int) {
    && (forall i, j :: 0 <= i < j < |items| ==> items[i].id != items[j].id)
    && (forall it :: it in items ==> it.id < nextItemId)
  }

  /** Booking ids are primary keys handed out in increasing order; payment_reference is UNIQUE. */
  predicate BookingsValid(bookings: seq<Booking>, nextBookingId: int) {
    && (forall i, j :: 0 <= i < j < |bookings| ==> bookings[i].id != bookings[j].id)
    && (forall b :: b in bookings ==> b.id < nextBookingId)
    && (forall i, j :: 0 <= i < j < |bookings| ==>
          bookings[i].paymentReference != bookings[j].paymentReference)
  }

  /** Referential integrity of booking_items. */
  predicate LinesValid(items: seq<Item>, bookings: seq<Booking>, lines: seq<LineItem>) {
    forall li :: li in lines ==> li.bookingId in BookingIds(bookings) && li.itemId in ItemIds(items)
  }

  predicate TablesValid(
    items: seq<Item>, bookings: seq<Booking>, lines: seq<LineItem>,
    nextItemId: int, nextBookingId: int)
  {
    ItemsValid(items, nextItemId) && BookingsValid(bookings, nextBookingId) && LinesValid(items, bookings, lines)
  }

  predicate DistinctBookingIds(bookings: seq<Booking>) {
    forall i, j :: 0 <= i < j < |bookings| ==> bookings[i].id != bookings[j].id
  }

  lemma {:induction false} BookingOfUnique(bookings: seq<Booking>, b: Booking)
    requires DistinctBookingIds(bookings)
    requires b in bookings
    ensures BookingOf(bookings, b.id) == Some(b)
  {
    var k :| 0 <= k < |bookings| && bookings[k] == b;
    if k > 0 {
      assert bookings[1..][k - 1] == b;
      BookingOfUnique(bookings[1..], b);
    }
  }

  // ---------------------------------------------------------------------------
  // Booked quantity (getBookedQty)
  // ---------------------------------------------------------------------------

  /** Inclusive overlap of a booking's dates with the query range. */
  predicate Overlaps(bookingStart: Day, bookingEnd: Day, start: Day, end: Day) {
    bookingStart <= end && bookingEnd >= start
  }

  /** Whether a line item satisfies the WHERE clause of getBookedQty. */
  predicate Blocks(bookings: seq<Booking>, li: LineItem, itemId: int, start: Day, end: Day) {
    && li.itemId == itemId
    && var b := BookingOf(bookings, li.bookingId);
    && b.Some?
    && IsBlocking(b.value.status)
    && Overlaps(b.value.startDate, b.value.endDate, start, end)
  }

  /** `getBookedQty`: COALESCE(SUM(qty), 0) over the line items that block the item in the range. */
  function BookedQty(bookings: seq<Booking>, lines: seq<LineItem>, itemId: int, start: Day, end: Day): (r: int)
    ensures (forall li :: li in lines ==> li.qty >= 0) ==> r >= 0
  {
    if lines == [] then 0
    else (if Blocks(bookings, lines[0], itemId, start, end) then lines[0].qty else 0)
         + BookedQty(bookings, lines[1..], itemId, start, end)
  }

  /**
   * A line item counts exactly when it is for the item and its booking is
   * awaiting payment or paid and shares at least one day with the range.
   */
  lemma BlocksExactly(bookings: seq<Booking>, li: LineItem, itemId: int, start: Day, end: Day)
    requires DistinctBookingIds(bookings)
    ensures Blocks(bookings, li, itemId, start, end) <==>
      && li.itemId == itemId
      && exists b :: b in bookings && b.id == li.bookingId
           && (b.status == AwaitingPayment || b.status == Paid)
           && b.startDate <= end && b.endDate >= start
  {
    if exists b :: b in bookings && b.id == li.bookingId
         && (b.status == AwaitingPayment || b.status == Paid)
         && b.startDate <= end && b.endDate >= start
    {
      var b :| b in bookings && b.id == li.bookingId
         && (b.status == AwaitingPayment || b.status == Paid)
         && b.startDate <= end && b.endDate >= start;
      BookingOfUnique(bookings, b);
    }
  }

  /** Nothing blocking means nothing booked. */
  lemma {:induction false} BookedQtyZeroWhenNothingBlocks(
    bookings: seq<Booking>, lines: seq<LineItem>, itemId: int, start: Day, end: Day)
    requires forall k :: 0 <= k < |lines| ==> !Blocks(bookings, lines[k], itemId, start, end)
    ensures BookedQty(bookings, lines, itemId, start, end) == 0
  {
    if lines != [] {
      BookedQtyZeroWhenNothingBlocks(bookings, lines[1..], itemId, start, end);
    }
  }

  lemma {:induction false} BookedQtyAppend(
    bookings: seq<Booking>, a: seq<LineItem>, b: seq<LineItem>, itemId: int, start: Day, end: Day)
    ensures BookedQty(bookings, a + b, itemId, start, end)
         == BookedQty(bookings, a, itemId, start, end) + BookedQty(bookings, b, itemId, start, end)
  {
    if a == [] {
      assert a + b == b;
    } else {
      assert (a + b)[1..] == a[1..] + b;
      BookedQtyAppend(bookings, a[1..], b, itemId, start, end);
    }
  }

  lemma {:induction false} BookingOfAppend(bookings: seq<Booking>, nb: Booking, id: int)
    ensures id != nb.id ==> BookingOf(bookings + [nb], id) == BookingOf(bookings, id)
    ensures id == nb.id && nb.id !in BookingIds(bookings) ==> BookingOf(bookings + [nb], id) == Some(nb)
  {
    if bookings == [] {
      assert BookingIds(bookings) == {};
    } else {
      assert (bookings + [nb])[1..] == bookings[1..] + [nb];
      assert BookingIds(bookings) == {bookings[0].id} + BookingIds(bookings[1..]) by {
        assert bookings == [bookings[0]] + bookings[1..];
      }
      BookingOfAppend(bookings[1..], nb, id);
    }
  }

  /** A new booking with no line items yet does not change what is booked. */
  lemma {:induction false} BookedQtyIgnoresNewHeader(
    bookings: seq<Booking>, nb: Booking, lines: seq<LineItem>, itemId: int, start: Day, end: Day)
    requires forall li :: li in lines ==> li.bookingId != nb.id
    ensures BookedQty(bookings + [nb], lines, itemId, start, end) == BookedQty(bookings, lines, itemId, start, end)
  {
    if lines != [] {
      BookingOfAppend(bookings, nb, lines[0].bookingId);
      BookedQtyIgnoresNewHeader(bookings, nb, lines[1..], itemId, start, end);
    }
  }

  // ---------------------------------------------------------------------------
  // Validating and pricing a cart
  // ---------------------------------------------------------------------------

  datatype CreateError =
    | MissingCustomerOrDates
    | MissingDelivery
    | EmptyCart
    | ItemNotFound(itemId: int)
    | NotEnoughQuantity(name: string, available: int)
    /** The UNIQUE payment_reference column refuses a header with a reference already in use. */
    | ReferenceTaken

  /** The body of POST /api/bookings/create; an absent or empty text field is "". */
  datatype BookingRequest = BookingRequest(
    customerName: string,
    customerEmail: string,
    customerPhone: string,
    startDate: Option<Day>,
    endDate: Option<Day>,
    deliveryAddress: string,
    deliveryCity: string,
    deliveryLandmark: string,
    cart: Option<seq<CartEntry>>)

  /** The three up-front checks of the create handler, in their order. */
  function ValidateBooking(req: BookingRequest): (r: Option<CreateError>)
    ensures r.None? <==>
      && req.customerName != "" && req.customerEmail != "" && req.customerPhone != ""
      && req.startDate.Some? && req.endDate.Some?
      && req.deliveryAddress != "" && req.deliveryCity != ""
      && req.cart.Some? && |req.cart.value| > 0
    ensures r.Some? ==> r.value in {MissingCustomerOrDates, MissingDelivery, EmptyCart}
    ensures r == Some(MissingCustomerOrDates) <==>
      req.customerName == "" || req.customerEmail == "" || req.customerPhone == ""
      || req.startDate.None? || req.endDate.None?
    ensures r == Some(MissingDelivery) <==>
      && req.customerName != "" && req.customerEmail != "" && req.customerPhone != ""
      && req.startDate.Some? && req.endDate.Some?
      && (req.deliveryAddress == "" || req.deliveryCity == "")
    ensures r == Some(EmptyCart) <==>
      && req.customerName != "" && req.customerEmail != "" && req.customerPhone != ""
      && req.startDate.Some? && req.endDate.Some?
      && req.deliveryAddress != "" && req.deliveryCity != ""
      && (req.cart.None? || |req.cart.value| == 0)
  {
    if req.customerName == "" || req.customerEmail == "" || req.customerPhone == ""
       || req.startDate.None? || req.endDate.None?
    then Some(MissingCustomerOrDates)
    else if req.deliveryAddress == "" || req.deliveryCity == "" then Some(MissingDelivery)
    else if req.cart.None? || |req.cart.value| == 0 then Some(EmptyCart)
    else None
  }

  /** The entry's item is active and the requested quantity is at most what is left in the range. */
  predicate EntryFits(
    items: seq<Item>, bookings: seq<Booking>, lines: seq<LineItem>, c: CartEntry, start: Day, end: Day)
  {
    && ActiveItem(items, c.itemId).Some?
    && c.qty <= ActiveItem(items, c.itemId).value.quantityTotal - BookedQty(bookings, lines, c.itemId, start, end)
  }

  /** One pass of the create handler's validation loop: an error, or the entry's contribution to the total. */
  function EntryCheck(
    items: seq<Item>, bookings: seq<Booking>, lines: seq<LineItem>,
    c: CartEntry, start: Day, end: Day, days: int): (r: Result<int, CreateError>)
    ensures r.Success? <==> EntryFits(items, bookings, lines, c, start, end)
    ensures r.Success? ==> r.value == ActiveItem(items, c.itemId).value.pricePerDay * c.qty * days
    ensures ActiveItem(items, c.itemId).None? ==> r == Failure(ItemNotFound(c.itemId))
    ensures ActiveItem(items, c.itemId).Some? && r.Failure? ==>
      r == Failure(NotEnoughQuantity(ActiveItem(items, c.itemId).value.name,
             ActiveItem(items, c.itemId).value.quantityTotal - BookedQty(bookings, lines, c.itemId, start, end)))
  {
    match ActiveItem(items, c.itemId)
    case None => Failure(ItemNotFound(c.itemId))
    case Some(it) =>
      var available := it.quantityTotal - BookedQty(bookings, lines, it.id, start, end);
      if c.qty > available then Failure(NotEnoughQuantity(it.name, available))
      else Success(it.pricePerDay * c.qty * days)
  }

  /** The validation loop over a whole cart: the first error, or the accumulated total. */
  function CheckCart(
    items: seq<Item>, bookings: seq<Booking>, lines: seq<LineItem>,
    cart: seq<CartEntry>, start: Day, end: Day, days: int): (r: Result<int, CreateError>)
    ensures r.Failure? ==> r.error.ItemNotFound? || r.error.NotEnoughQuantity?
    decreases |cart|
  {
    if cart == [] then Success(0)
    else
      match CheckCart(items, bookings, lines, cart[..|cart| - 1], start, end, days)
      case Failure(err) => Failure(err)
      case Success(total) =>
        match EntryCheck(items, bookings, lines, cart[|cart| - 1], start, end, days)
        case Failure(err) => Failure(err)
        case Success(amount) => Success(total + amount)
  }

  predicate AllFound(items: seq<Item>, cart: seq<CartEntry>) {
    forall k :: 0 <= k < |cart| ==> FindItem(items, cart[k].itemId).Some?
  }

  /** The price of a cart: the sum of price_per_day x qty x days over its entries. */
  function CartAmount(items: seq<Item>, cart: seq<CartEntry>, days: int): int
    requires AllFound(items, cart)
    decreases |cart|
  {
    if cart == [] then 0
    else
      var c := cart[|cart| - 1];
      CartAmount(items, cart[..|cart| - 1], days) + FindItem(items, c.itemId).value.pricePerDay * c.qty * days
  }

  /**
   * The validation loop succeeds exactly when every entry fits, and then its
   * total is the price of the cart.
   */
  lemma {:induction false} CheckCartSound(
    items: seq<Item>, bookings: seq<Booking>, lines: seq<LineItem>,
    cart: seq<CartEntry>, start: Day, end: Day, days: int)
    ensures CheckCart(items, bookings, lines, cart, start, end, days).Success? <==>
      forall k :: 0 <= k < |cart| ==> EntryFits(items, bookings, lines, cart[k], start, end)
    ensures CheckCart(items, bookings, lines, cart, start, end, days).Success? ==>
      && AllFound(items, cart)
      && CheckCart(items, bookings, lines, cart, start, end, days).value == CartAmount(items, cart, days)
    decreases |cart|
  {
    if cart != [] {
      var prefix := cart[..|cart| - 1];
      CheckCartSound(items, bookings, lines, prefix, start, end, days);
      assert forall k :: 0 <= k < |prefix| ==> prefix[k] == cart[k];
    }
  }

  /** A failed loop reports the error of the first entry that does not fit. */
  lemma {:induction false} CheckCartFirstFailure(
    items: seq<Item>, bookings: seq<Booking>, lines: seq<LineItem>,
    cart: seq<CartEntry>, start: Day, end: Day, days: int)
    requires CheckCart(items, bookings, lines, cart, start, end, days).Failure?
    ensures exists k ::
      && 0 <= k < |cart|
      && (forall j :: 0 <= j < k ==> EntryFits(items, bookings, lines, cart[j], start, end))
      && !EntryFits(items, bookings, lines, cart[k], start, end)
      && CheckCart(items, bookings, lines, cart, start, end, days)
         == Failure(EntryCheck(items, bookings, lines, cart[k], start, end, days).error)
    decreases |cart|
  {
    var prefix := cart[..|cart| - 1];
    assert forall k :: 0 <= k < |prefix| ==> prefix[k] == cart[k];
    if CheckCart(items, bookings, lines, prefix, start, end, days).Failure? {
      CheckCartFirstFailure(items, bookings, lines, prefix, start, end, days);
    } else {
      CheckCartSound(items, bookings, lines, prefix, start, end, days);
    }
  }

  /** Once the loop has failed on a prefix of the cart, the whole cart fails the same way. */
  lemma {:induction false} CheckCartFailureStops(
    items: seq<Item>, bookings: seq<Booking>, lines: seq<LineItem>,
    cart: seq<CartEntry>, n: nat, start: Day, end: Day, days: int)
    requires n <= |cart|
    requires CheckCart(items, bookings, lines, cart[..n], start, end, days).Failure?
    ensures CheckCart(items, bookings, lines, cart, start, end, days)
         == CheckCart(items, bookings, lines, cart[..n], start, end, days)
    decreases |cart| - n
  {
    if n < |cart| {
      assert cart[..n + 1][..n] == cart[..n];
      CheckCartFailureStops(items, bookings, lines, cart, n + 1, start, end, days);
    } else {
      assert cart[..n] == cart;
    }
  }

  // ---------------------------------------------------------------------------
  // Creating a booking
  // ---------------------------------------------------------------------------

  /** The line item written for a cart entry, with the item's current price. */
  function LineFor(items: seq<Item>, c: CartEntry, bookingId: int): LineItem
    requires FindItem(items, c.itemId).Some?
  {
    var it := FindItem(items, c.itemId).value;
    LineItem(bookingId, it.id, c.qty, it.pricePerDay)
  }

  /** The line items written for a cart, one per entry in cart order. */
  function NewLines(items: seq<Item>, cart: seq<CartEntry>, bookingId: int): (r: seq<LineItem>)
    requires AllFound(items, cart)
    ensures |r| == |cart|
    ensures forall k :: 0 <= k < |cart| ==>
      && r[k].bookingId == bookingId
      && r[k].itemId == cart[k].itemId
      && r[k].qty == cart[k].qty
      && r[k].pricePerDay == FindItem(items, cart[k].itemId).value.pricePerDay
    decreases |cart|
  {
    if cart == [] then []
    else
      var prefix := cart[..|cart| - 1];
      assert forall k :: 0 <= k < |prefix| ==> prefix[k] == cart[k];
      NewLines(items, prefix, bookingId) + [LineFor(items, cart[|cart| - 1], bookingId)]
  }

  /**
   * What POST /api/bookings/create decides: an error, or the booking header
   * it writes. `candidates` are the references `makeReference` would return
   * on successive calls.
   */
  function CreateOutcome(
    items: seq<Item>, bookings: seq<Booking>, lines: seq<LineItem>, nextBookingId: int,
    req: BookingRequest, candidates: seq<string>): (r: Result<Booking, CreateError>)
    requires |candidates| > ReferenceRetries
    ensures r.Success? ==> ValidateBooking(req).None? && AllFound(items, req.cart.value)
  {
    match ValidateBooking(req)
    case Some(err) => Failure(err)
    case None =>
      var start, end, cart := req.startDate.value, req.endDate.value, req.cart.value;
      var days := DaysBetweenInclusive(start, end);
      match CheckCart(items, bookings, lines, cart, start, end, days)
      case Failure(err) => Failure(err)
      case Success(total) =>
        CheckCartSound(items, bookings, lines, cart, start, end, days);
        var reference := PickReference(References(bookings), candidates, 0);
        if reference in References(bookings) then Failure(ReferenceTaken)
        else Success(Booking(
          nextBookingId, req.customerName, req.customerEmail, req.customerPhone,
          start, end, AwaitingPayment, total,
          req.deliveryAddress, req.deliveryCity, req.deliveryLandmark,
          "momo", reference))
  }

  /**
   * Create succeeds exactly when the request is complete, every entry's item
   * is active with enough left over the requested dates, and the chosen
   * reference is not in use.
   */
  lemma CreateSucceedsIff(
    items: seq<Item>, bookings: seq<Booking>, lines: seq<LineItem>, nextBookingId: int,
    req: BookingRequest, candidates: seq<string>)
    requires |candidates| > ReferenceRetries
    ensures CreateOutcome(items, bookings, lines, nextBookingId, req, candidates).Success? <==>
      && ValidateBooking(req).None?
      && (forall k :: 0 <= k < |req.cart.value| ==>
            EntryFits(items, bookings, lines, req.cart.value[k], req.startDate.value, req.endDate.value))
      && PickReference(References(bookings), candidates, 0) !in References(bookings)
  {
    if ValidateBooking(req).None? {
      CheckCartSound(items, bookings, lines, req.cart.value, req.startDate.value, req.endDate.value,
        DaysBetweenInclusive(req.startDate.value, req.endDate.value));
    }
  }

  /**
   * A created booking awaits payment by mobile money, costs the price of its
   * cart over the inclusive day count, has a reference no other booking has,
   * and carries the request's customer, dates and delivery details.
   */
  lemma CreatedBookingShape(
    items: seq<Item>, bookings: seq<Booking>, lines: seq<LineItem>, nextBookingId: int,
    req: BookingRequest, candidates: seq<string>)
    requires |candidates| > ReferenceRetries
    requires CreateOutcome(items, bookings, lines, nextBookingId, req, candidates).Success?
    ensures var nb := CreateOutcome(items, bookings, lines, nextBookingId, req, candidates).value;
      && nb.id == nextBookingId
      && nb.status == AwaitingPayment
      && nb.paymentMethod == "momo"
      && nb.amountTotal == CartAmount(items, req.cart.value, DaysBetweenInclusive(nb.startDate, nb.endDate))
      && nb.paymentReference !in References(bookings)
      && nb.startDate == req.startDate.value && nb.endDate == req.endDate.value
      && nb.customerName == req.customerName && nb.customerEmail == req.customerEmail
      && nb.customerPhone == req.customerPhone
      && nb.deliveryAddress == req.deliveryAddress && nb.deliveryCity == req.deliveryCity
      && nb.deliveryLandmark == req.deliveryLandmark
  {
    CheckCartSound(items, bookings, lines, req.cart.value, req.startDate.value, req.endDate.value,
      DaysBetweenInclusive(req.startDate.value, req.endDate.value));
  }

  lemma ItemIdsAppend(items: seq<Item>, it: Item)
    ensures ItemIds(items + [it]) == ItemIds(items) + {it.id}
  {
    assert forall x :: x in items + [it] <==> x in items || x == it;
  }

  lemma BookingIdsAppend(bookings: seq<Booking>, nb: Booking)
    ensures BookingIds(bookings + [nb]) == BookingIds(bookings) + {nb.id}
  {
    assert forall x :: x in bookings + [nb] <==> x in bookings || x == nb;
  }

  /** A new header with the next id and an unused reference keeps the booking constraints. */
  lemma AppendBookingValid(bookings: seq<Booking>, nb: Booking, nextBookingId: int)
    requires BookingsValid(bookings, nextBookingId)
    requires nb.id == nextBookingId
    requires nb.paymentReference !in References(bookings)
    ensures BookingsValid(bookings + [nb], nextBookingId + 1)
    ensures BookingIds(bookings + [nb]) == BookingIds(bookings) + {nb.id}
  {
    var bs := bookings + [nb];
    BookingIdsAppend(bookings, nb);
    forall i, j | 0 <= i < j < |bs| ensures bs[i].id != bs[j].id && bs[i].paymentReference != bs[j].paymentReference {
      if j == |bookings| {
        assert bs[i] in bookings;
      }
    }
  }

  /** Line items of a booking that exists, for items that exist, keep referential integrity. */
  lemma AppendLinesValid(items: seq<Item>, bookings: seq<Booking>, lines: seq<LineItem>, cart: seq<CartEntry>, id: int)
    requires LinesValid(items, bookings, lines)
    requires AllFound(items, cart)
    requires id in BookingIds(bookings)
    ensures LinesValid(items, bookings, lines + NewLines(items, cart, id))
  {
    var added := NewLines(items, cart, id);
    forall li | li in lines + added ensures li.bookingId in BookingIds(bookings) && li.itemId in ItemIds(items) {
      if li !in lines {
        var k :| 0 <= k < |added| && added[k] == li;
        assert FindItem(items, cart[k].itemId).Some?;
      }
    }
  }

  /** Writing the header and its line items keeps every table invariant. */
  lemma CreatePreservesTables(
    items: seq<Item>, bookings: seq<Booking>, lines: seq<LineItem>,
    nextItemId: int, nextBookingId: int, req: BookingRequest, candidates: seq<string>)
    requires |candidates| > ReferenceRetries
    requires TablesValid(items, bookings, lines, nextItemId, nextBookingId)
    requires CreateOutcome(items, bookings, lines, nextBookingId, req, candidates).Success?
    ensures var nb := CreateOutcome(items, bookings, lines, nextBookingId, req, candidates).value;
      TablesValid(items, bookings + [nb], lines + NewLines(items, req.cart.value, nb.id),
        nextItemId, nextBookingId + 1)
  {
    var nb := CreateOutcome(items, bookings, lines, nextBookingId, req, candidates).value;
    CreatedBookingShape(items, bookings, lines, nextBookingId, req, candidates);
    AppendBookingValid(bookings, nb, nextBookingId);
    assert LinesValid(items, bookings + [nb], lines);
    AppendLinesValid(items, bookings + [nb], lines, req.cart.value, nb.id);
  }

  /** QtyFor(cart, id): the total quantity the cart asks of item `id`. */
  function QtyFor(cart: seq<CartEntry>, itemId: int): int
    decreases |cart|
  {
    if cart == [] then 0
    else QtyFor(cart[..|cart| - 1], itemId) + (if cart[|cart| - 1].itemId == itemId then cart[|cart| - 1].qty else 0)
  }

  predicate DistinctItemIds(cart: seq<CartEntry>) {
    forall i, j :: 0 <= i < j < |cart| ==> cart[i].itemId != cart[j].itemId
  }

  lemma {:induction false} QtyForSingleEntry(cart: seq<CartEntry>, k: nat)
    requires DistinctItemIds(cart) && k < |cart|
    ensures QtyFor(cart, cart[k].itemId) == cart[k].qty
    decreases |cart|
  {
    var prefix := cart[..|cart| - 1];
    if k == |cart| - 1 {
      QtyForAbsent(prefix, cart[k].itemId);
    } else {
      assert prefix[k] == cart[k];
      QtyForSingleEntry(prefix, k);
    }
  }

  lemma {:induction false} QtyForAbsent(cart: seq<CartEntry>, itemId: int)
    requires forall k :: 0 <= k < |cart| ==> cart[k].itemId != itemId
    ensures QtyFor(cart, itemId) == 0
    decreases |cart|
  {
    if cart != [] {
      QtyForAbsent(cart[..|cart| - 1], itemId);
    }
  }

  /** The new booking's own line items block exactly the quantities its cart asked for, when its range is ordered. */
  lemma {:induction false} BookedQtyOfNewLines(
    items: seq<Item>, bookings: seq<Booking>, nb: Booking, cart: seq<CartEntry>, itemId: int)
    requires AllFound(items, cart)
    requires BookingOf(bookings, nb.id) == Some(nb)
    requires IsBlocking(nb.status)
    ensures BookedQty(bookings, NewLines(items, cart, nb.id), itemId, nb.startDate, nb.endDate)
         == if nb.startDate <= nb.endDate then QtyFor(cart, itemId) else 0
    decreases |cart|
  {
    if cart != [] {
      var prefix := cart[..|cart| - 1];
      assert forall k :: 0 <= k < |prefix| ==> prefix[k] == cart[k];
      BookedQtyOfNewLines(items, bookings, nb, prefix, itemId);
      var last := LineFor(items, cart[|cart| - 1], nb.id);
      BookedQtyAppend(bookings, NewLines(items, prefix, nb.id), [last], itemId, nb.startDate, nb.endDate);
    }
  }

  /**
   * After a successful create, the booked quantity of any item over the
   * requested range is what it was plus what the cart asked of that item
   * (nothing when the range is reversed, since the new booking then does not
   * overlap its own range).
   */
  lemma BookedAfterCreate(
    items: seq<Item>, bookings: seq<Booking>, lines: seq<LineItem>,
    nextItemId: int, nextBookingId: int, req: BookingRequest, candidates: seq<string>, itemId: int)
    requires |candidates| > ReferenceRetries
    requires TablesValid(items, bookings, lines, nextItemId, nextBookingId)
    requires CreateOutcome(items, bookings, lines, nextBookingId, req, candidates).Success?
    ensures var nb := CreateOutcome(items, bookings, lines, nextBookingId, req, candidates).value;
      BookedQty(bookings + [nb], lines + NewLines(items, req.cart.value, nb.id), itemId, nb.startDate, nb.endDate)
      == BookedQty(bookings, lines, itemId, nb.startDate, nb.endDate)
         + (if nb.startDate <= nb.endDate then QtyFor(req.cart.value, itemId) else 0)
  {
    var nb := CreateOutcome(items, bookings, lines, nextBookingId, req, candidates).value;
    CreatedBookingShape(items, bookings, lines, nextBookingId, req, candidates);
    var added := NewLines(items, req.cart.value, nb.id);
    BookedQtyAppend(bookings + [nb], lines, added, itemId, nb.startDate, nb.endDate);
    BookedQtyIgnoresNewHeader(bookings, nb, lines, itemId, nb.startDate, nb.endDate);
    assert nb.id !in BookingIds(bookings);
    BookingOfAppend(bookings, nb, nb.id);
    BookedQtyOfNewLines(items, bookings + [nb], nb, req.cart.value, itemId);
  }

  /**
   * No overbooking over the requested range: after a successful create whose
   * cart names each item at most once, every cart item's blocking quantity
   * over the booking's dates, the new booking included, is at most its stock,
   * provided the range is ordered or the entry's quantity is not negative.
   * The server does not reject negative quantities: with a reversed range a
   * negative entry passes the check against a table that is already
   * overbooked, and nothing bounds the result then.
   */
  lemma NoOverbooking(
    items: seq<Item>, bookings: seq<Booking>, lines: seq<LineItem>,
    nextItemId: int, nextBookingId: int, req: BookingRequest, candidates: seq<string>, k: nat)
    requires |candidates| > ReferenceRetries
    requires TablesValid(items, bookings, lines, nextItemId, nextBookingId)
    requires CreateOutcome(items, bookings, lines, nextBookingId, req, candidates).Success?
    requires DistinctItemIds(req.cart.value)
    requires k < |req.cart.value|
    requires req.startDate.value <= req.endDate.value || req.cart.value[k].qty >= 0
    ensures var nb := CreateOutcome(items, bookings, lines, nextBookingId, req, candidates).value;
      var c := req.cart.value[k];
      && FindItem(items, c.itemId).Some?
      && BookedQty(bookings + [nb], lines + NewLines(items, req.cart.value, nb.id), c.itemId, nb.startDate, nb.endDate)
         <= FindItem(items, c.itemId).value.quantityTotal
  {
    var cart := req.cart.value;
    CreateSucceedsIff(items, bookings, lines, nextBookingId, req, candidates);
    assert EntryFits(items, bookings, lines, cart[k], req.startDate.value, req.endDate.value);
    BookedAfterCreate(items, bookings, lines, nextItemId, nextBookingId, req, candidates, cart[k].itemId);
    QtyForSingleEntry(cart, k);
    CreatedBookingShape(items, bookings, lines, nextBookingId, req, candidates);
  }

  /**
   * The distinct-ids condition of NoOverbooking is needed: a cart naming the
   * same item twice is checked entry by entry against the old booked count,
   * so two requests for all 5 units of a 5-unit item both pass and 10 are
   * booked.
   */
  lemma RepeatedItemCanOverbook()
    ensures var items := [Item(1, "Chairs", "", 500, 5, 1)];
      var req := BookingRequest("Ama", "ama@example.com", "024", Some(10), Some(12),
        "Ring Road", "Accra", "", Some([CartEntry(1, 5), CartEntry(1, 5)]));
      var candidates := ["ERH-20240601-AAAAAA", "b", "c", "d"];
      var out := CreateOutcome(items, [], [], 1, req, candidates);
      && out.Success?
      && BookedQty([out.value], NewLines(items, req.cart.value, 1), 1, 10, 12) == 10
      && 10 > items[0].quantityTotal
  {
    var items := [Item(1, "Chairs", "", 500, 5, 1)];
    var cart := [CartEntry(1, 5), CartEntry(1, 5)];
    assert ActiveItem(items, 1) == Some(items[0]);
    assert BookedQty([], [], 1, 10, 12) == 0;
    assert cart[..1] == [CartEntry(1, 5)];
    assert cart[..1][..0] == [];
    assert CheckCart(items, [], [], cart[..1], 10, 12, 3) == Success(7500);
    assert CheckCart(items, [], [], cart, 10, 12, 3) == Success(15000);
    var req := BookingRequest("Ama", "ama@example.com", "024", Some(10), Some(12),
      "Ring Road", "Accra", "", Some(cart));
    var candidates := ["ERH-20240601-AAAAAA", "b", "c", "d"];
    assert References([]) == {};
    var out := CreateOutcome(items, [], [], 1, req, candidates);
    assert out.Success?;
    var nb := out.value;
    assert nb.startDate == 10 && nb.endDate == 12 && nb.status == AwaitingPayment;
    assert BookingOf([nb], 1) == Some(nb);
    BookedQtyOfNewLines(items, [nb], nb, cart, 1);
    assert cart[..1] == [CartEntry(1, 5)];
    assert QtyFor(cart, 1) == 10;
  }

  /** When every reference `makeReference` could return has the reference shape, so has the created booking's. */
  lemma CreatedReferenceHasShape(
    items: seq<Item>, bookings: seq<Booking>, lines: seq<LineItem>, nextBookingId: int,
    req: BookingRequest, candidates: seq<string>)
    requires |candidates| > ReferenceRetries
    requires forall k :: 0 <= k < |candidates| ==> IsReferenceShape(candidates[k])
    requires CreateOutcome(items, bookings, lines, nextBookingId, req, candidates).Success?
    ensures IsReferenceShape(CreateOutcome(items, bookings, lines, nextBookingId, req, candidates).value.paymentReference)
  {
    var r := PickReference(References(bookings), candidates, 0);
    var k :| 0 <= k <= ReferenceRetries && r == candidates[k];
  }

  // ---------------------------------------------------------------------------
  // Availability
  // ---------------------------------------------------------------------------

  /** One row of the availability response. */
  datatype AvailabilityRow =
    | NotFound(itemId: int)
    | Checked(itemId: int, name: string, ok: bool, available: int, requested: int)

  function AvailabilityOf(
    items: seq<Item>, bookings: seq<Booking>, lines: seq<LineItem>,
    c: CartEntry, start: Day, end: Day): (r: AvailabilityRow)
    ensures r.itemId == c.itemId
    ensures r.NotFound? <==> ActiveItem(items, c.itemId).None?
    ensures r.Checked? ==> r.requested == c.qty && (r.ok <==> r.requested <= r.available)
  {
    match ActiveItem(items, c.itemId)
    case None => NotFound(c.itemId)
    case Some(it) =>
      var available := it.quantityTotal - BookedQty(bookings, lines, it.id, start, end);
      Checked(it.id, it.name, c.qty <= available, available, c.qty)
  }

  /**
   * The availability check and the create handler agree: a row is ok
   * exactly when create would accept the entry, a missing or inactive item
   * gives a not-found row, and otherwise the row reports stock minus booked.
   */
  lemma AvailabilityMatchesCreateCheck(
    items: seq<Item>, bookings: seq<Booking>, lines: seq<LineItem>, c: CartEntry, start: Day, end: Day)
    ensures var row := AvailabilityOf(items, bookings, lines, c, start, end);
      && (row.NotFound? <==> ActiveItem(items, c.itemId).None?)
      && (row.Checked? && row.ok <==> EntryFits(items, bookings, lines, c, start, end))
      && (row.Checked? ==>
            && row.itemId == c.itemId && row.requested == c.qty
            && row.available == ActiveItem(items, c.itemId).value.quantityTotal
                                - BookedQty(bookings, lines, c.itemId, start, end))
  {
  }

  // ---------------------------------------------------------------------------
  // Item administration
  // ---------------------------------------------------------------------------

  /** The body of POST /api/admin/items; a field that is absent is None. */
  datatype ItemForm = ItemForm(
    name: string,
    description: string,
    pricePerDay: Option<int>,
    quantityTotal: Option<int>,
    active: Option<int>)

  /** JavaScript truthiness of a numeric field: present and not zero. */
  predicate Truthy(v: Option<int>) {
    v.Some? && v.value != 0
  }

  datatype AdminError = MissingFields | ItemInUse

  /** `DELETE FROM items WHERE id = ?` */
  function WithoutItem(items: seq<Item>, id: int): (r: seq<Item>)
    ensures forall it :: it in r <==> it in items && it.id != id
  {
    if items == [] then []
    else if items[0].id == id then WithoutItem(items[1..], id)
    else [items[0]] + WithoutItem(items[1..], id)
  }

  /** Deleting an item removes that id and leaves the lookup of every other id as it was. */
  lemma {:induction false} DeleteRemovesOnlyThatItem(items: seq<Item>, id: int, x: int)
    ensures FindItem(WithoutItem(items, id), x) == if x == id then None else FindItem(items, x)
  {
    if items != [] {
      DeleteRemovesOnlyThatItem(items[1..], id, x);
      if x == id {
        assert id !in ItemIds(WithoutItem(items, id));
      }
    }
  }

  lemma ItemsValidTail(items: seq<Item>, nextItemId: int)
    requires ItemsValid(items, nextItemId) && items != []
    ensures ItemsValid(items[1..], nextItemId)
    ensures forall it :: it in items[1..] ==> it.id != items[0].id
  {
    forall i, j | 0 <= i < j < |items[1..]| ensures items[1..][i].id != items[1..][j].id {
      assert items[1..][i] == items[i + 1] && items[1..][j] == items[j + 1];
    }
    forall it | it in items[1..] ensures it.id != items[0].id {
      var k :| 0 <= k < |items[1..]| && items[1..][k] == it;
      assert items[k + 1] == it;
    }
  }

  lemma ItemsValidCons(x: Item, rest: seq<Item>, nextItemId: int)
    requires ItemsValid(rest, nextItemId) && x.id < nextItemId
    requires forall it :: it in rest ==> it.id != x.id
    ensures ItemsValid([x] + rest, nextItemId)
  {
    var r := [x] + rest;
    forall i, j | 0 <= i < j < |r| ensures r[i].id != r[j].id {
      assert r[j] == rest[j - 1];
      if i > 0 {
        assert r[i] == rest[i - 1];
      } else {
        assert r[j] in rest;
      }
    }
  }

  lemma {:induction false} WithoutItemValid(items: seq<Item>, id: int, nextItemId: int)
    requires ItemsValid(items, nextItemId)
    ensures ItemsValid(WithoutItem(items, id), nextItemId)
  {
    if items != [] {
      ItemsValidTail(items, nextItemId);
      WithoutItemValid(items[1..], id, nextItemId);
      if items[0].id != id {
        ItemsValidCons(items[0], WithoutItem(items[1..], id), nextItemId);
      }
    }
  }

  /**
   * The delete guard is exactly what keeps booking_items pointing at
   * existing items: removing an item keeps integrity if and only if no line
   * item refers to it.
   */
  lemma DeleteGuardKeepsIntegrity(items: seq<Item>, bookings: seq<Booking>, lines: seq<LineItem>, id: int)
    requires LinesValid(items, bookings, lines)
    ensures LinesValid(WithoutItem(items, id), bookings, lines) <==> forall li :: li in lines ==> li.itemId != id
  {
    var rest := WithoutItem(items, id);
    if forall li :: li in lines ==> li.itemId != id {
      forall li | li in lines ensures li.itemId in ItemIds(rest) {
        var it :| it in items && it.id == li.itemId;
        assert it in rest;
      }
    } else {
      var li :| li in lines && li.itemId == id;
      assert id !in ItemIds(rest);
    }
  }

  /** `UPDATE items SET ... WHERE id = ?`: every field overwritten, nothing validated. */
  function WithItemFields(
    items: seq<Item>, id: int, name: string, description: string, pricePerDay: int, quantityTotal: int, active: int)
    : (r: seq<Item>)
    ensures |r| == |items|
    ensures forall k :: 0 <= k < |items| ==>
      r[k] == if items[k].id == id then Item(id, name, description, pricePerDay, quantityTotal, active) else items[k]
  {
    if items == [] then []
    else
      [if items[0].id == id then Item(id, name, description, pricePerDay, quantityTotal, active) else items[0]]
      + WithItemFields(items[1..], id, name, description, pricePerDay, quantityTotal, active)
  }

  // ---------------------------------------------------------------------------
  // Status overwrites (mark-paid, cancel)
  // ---------------------------------------------------------------------------

  /** `UPDATE bookings SET status = ? WHERE id = ?`, whatever the current status. */
  function WithStatus(bookings: seq<Booking>, id: int, status: string): (r: seq<Booking>)
    ensures |r| == |bookings|
    ensures forall k :: 0 <= k < |bookings| ==>
      r[k] == if bookings[k].id == id then bookings[k].(status := status) else bookings[k]
  {
    if bookings == [] then []
    else [if bookings[0].id == id then bookings[0].(status := status) else bookings[0]]
         + WithStatus(bookings[1..], id, status)
  }

  /** A rewrite that keeps every row's id and payment_reference keeps the booking constraints. */
  lemma SameBookingKeys(bookings: seq<Booking>, r: seq<Booking>, nextBookingId: int)
    requires |r| == |bookings|
    requires forall k :: 0 <= k < |r| ==>
      r[k].id == bookings[k].id && r[k].paymentReference == bookings[k].paymentReference
    requires BookingsValid(bookings, nextBookingId)
    ensures BookingsValid(r, nextBookingId)
    ensures BookingIds(r) == BookingIds(bookings)
  {
    forall b | b in r ensures b.id < nextBookingId {
      var k :| 0 <= k < |r| && r[k] == b;
      assert bookings[k] in bookings;
    }
    forall x | x in BookingIds(bookings) ensures x in BookingIds(r) {
      var b :| b in bookings && b.id == x;
      var k :| 0 <= k < |bookings| && bookings[k] == b;
      assert r[k] in r;
    }
    forall x | x in BookingIds(r) ensures x in BookingIds(bookings) {
      var b :| b in r && b.id == x;
      var k :| 0 <= k < |r| && r[k] == b;
      assert bookings[k] in bookings;
    }
  }

  lemma WithStatusKeepsTables(
    items: seq<Item>, bookings: seq<Booking>, lines: seq<LineItem>,
    nextItemId: int, nextBookingId: int, id: int, status: string)
    requires TablesValid(items, bookings, lines, nextItemId, nextBookingId)
    ensures TablesValid(items, WithStatus(bookings, id, status), lines, nextItemId, nextBookingId)
  {
    SameBookingKeys(bookings, WithStatus(bookings, id, status), nextBookingId);
  }

  lemma {:induction false} BookingOfWithStatus(bookings: seq<Booking>, id: int, status: string, x: int)
    ensures BookingOf(WithStatus(bookings, id, status), x)
         == match BookingOf(bookings, x)
            case None => None
            case Some(b) => Some(if b.id == id then b.(status := status) else b)
  {
    if bookings != [] {
      BookingOfWithStatus(bookings[1..], id, status, x);
      assert WithStatus(bookings, id, status)[1..] == WithStatus(bookings[1..], id, status);
    }
  }

  /**
   * Cancelling never raises a booked quantity: with non-negative line
   * quantities, what is booked after the overwrite is at most what was
   * booked before, for every item and range.
   */
  lemma {:induction false} CancelNeverRaisesBooked(
    bookings: seq<Booking>, lines: seq<LineItem>, id: int, itemId: int, start: Day, end: Day)
    requires forall li :: li in lines ==> li.qty >= 0
    ensures BookedQty(WithStatus(bookings, id, Cancelled), lines, itemId, start, end)
         <= BookedQty(bookings, lines, itemId, start, end)
  {
    if lines != [] {
      BookingOfWithStatus(bookings, id, Cancelled, lines[0].bookingId);
      CancelNeverRaisesBooked(bookings, lines[1..], id, itemId, start, end);
    }
  }

  /**
   * Mark-paid does not look at the current status: a cancelled booking that
   * is marked paid blocks its stock again over its dates.
   */
  lemma MarkPaidRevivesCancelled(bookings: seq<Booking>, b: Booking, li: LineItem)
    requires DistinctBookingIds(bookings)
    requires b in bookings && b.status == Cancelled && b.startDate <= b.endDate
    requires li.bookingId == b.id
    ensures !Blocks(bookings, li, li.itemId, b.startDate, b.endDate)
    ensures Blocks(WithStatus(bookings, b.id, Paid), li, li.itemId, b.startDate, b.endDate)
  {
    BookingOfUnique(bookings, b);
    BookingOfWithStatus(bookings, b.id, Paid, b.id);
  }
}
