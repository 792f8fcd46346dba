/**
 * The server's tables and its HTTP handlers. Each handler runs the SQL of
 * the original as updates of the table fields, and its contract ties the
 * new tables to the functions of the Reservation module.
 */
module Server {
  import opened Wrappers
  import opened Statuses
  import opened Reservation

  /** What a successful create returns to the customer. */
  datatype Receipt = Receipt(bookingId: int, amountTotal: int, paymentReference: string)

  /** The 400 answer of the availability check when dates or cart are missing. */
  datatype RequestError = InvalidInput

  class Store {
    var items: seq<Item>
    var bookings: seq<Booking>
    var lineItems: seq<LineItem>
    /** The next AUTOINCREMENT values of items.id and bookings.id. */
    var nextItemId: int
    var nextBookingId: int

    ghost predicate Valid()
      reads this
    {
      TablesValid(items, bookings, lineItems, nextItemId, nextBookingId)
    }

    constructor ()
      ensures Valid()
      ensures items == [] && bookings == [] && lineItems == []
    {
      items := [];
      bookings := [];
      lineItems := [];
      nextItemId := 1;
      nextBookingId := 1;
    }

    /** POST /api/availability: one row per cart entry, nothing written. */
    method Availability(startDate: Option<Day>, endDate: Option<Day>, cart: Option<seq<CartEntry>>)
      returns (r: Result<seq<AvailabilityRow>, RequestError>)
      ensures r.Failure? <==> startDate.None? || endDate.None? || cart.None?
      ensures r.Success? ==>
        && |r.value| == |cart.value|
        && forall k :: 0 <= k < |cart.value| ==>
             r.value[k] == AvailabilityOf(items, bookings, lineItems, cart.value[k], startDate.value, endDate.value)
    {
      if startDate.None? || endDate.None? || cart.None? {
        return Failure(InvalidInput);
      }
      var start, end, entries := startDate.value, endDate.value, cart.value;
      var rows: seq<AvailabilityRow> := [];
      for i := 0 to |entries|
        invariant |rows| == i
        invariant forall k :: 0 <= k < i ==> rows[k] == AvailabilityOf(items, bookings, lineItems, entries[k], start, end)
      {
        var c := entries[i];
        var item := ActiveItem(items, c.itemId);
        if item.None? {
          rows := rows + [NotFound(c.itemId)];
        } else {
          var booked := BookedQty(bookings, lineItems, item.value.id, start, end);
          var available := item.value.quantityTotal - booked;
          rows := rows + [Checked(item.value.id, item.value.name, c.qty <= available, available, c.qty)];
        }
      }
      return Success(rows);
    }

    /**
     * POST /api/bookings/create: validate, price the cart, pick a reference,
     * then write the header and one line item per cart entry.
     */
    method CreateBooking(req: BookingRequest, candidates: seq<string>) returns (r: Result<Receipt, CreateError>)
      requires Valid()
      requires |candidates| > ReferenceRetries
      modifies this
      ensures Valid()
      ensures items == old(items) && nextItemId == old(nextItemId)
      ensures match CreateOutcome(old(items), old(bookings), old(lineItems), old(nextBookingId), req, candidates)
        case Failure(err) =>
          && r == Failure(err)
          && bookings == old(bookings) && lineItems == old(lineItems) && nextBookingId == old(nextBookingId)
        case Success(nb) =>
          && r == Success(Receipt(nb.id, nb.amountTotal, nb.paymentReference))
          && bookings == old(bookings) + [nb]
          && lineItems == old(lineItems) + NewLines(old(items), req.cart.value, nb.id)
          && nextBookingId == old(nextBookingId) + 1
    {
      var invalid := ValidateBooking(req);
      if invalid.Some? {
        return Failure(invalid.value);
      }
      var start, end, cart := req.startDate.value, req.endDate.value, req.cart.value;
      var priced := PriceCart(cart, start, end, DaysBetweenInclusive(start, end));
      if priced.Failure? {
        return Failure(priced.error);
      }
      var reference := ChooseReference(candidates);
      if reference in References(bookings) {
        return Failure(ReferenceTaken);
      }
      var nb := Booking(
        nextBookingId, req.customerName, req.customerEmail, req.customerPhone,
        start, end, AwaitingPayment, priced.value,
        req.deliveryAddress, req.deliveryCity, req.deliveryLandmark,
        "momo", reference);
      assert CreateOutcome(items, bookings, lineItems, nextBookingId, req, candidates) == Success(nb);
      CreatePreservesTables(items, bookings, lineItems, nextItemId, nextBookingId, req, candidates);
      bookings := bookings + [nb];
      nextBookingId := nextBookingId + 1;
      WriteLines(cart, nb.id);
      return Success(Receipt(nb.id, nb.amountTotal, reference));
    }

    /** The validation loop of the create handler: the first error, or the total price. */
    method PriceCart(cart: seq<CartEntry>, start: Day, end: Day, days: int) returns (r: Result<int, CreateError>)
      ensures r == CheckCart(items, bookings, lineItems, cart, start, end, days)
    {
      var total := 0;
      for i := 0 to |cart|
        invariant CheckCart(items, bookings, lineItems, cart[..i], start, end, days) == Success(total)
      {
        assert cart[..i + 1][..i] == cart[..i];
        var c := cart[i];
        var item := ActiveItem(items, c.itemId);
        if item.None? {
          CheckCartFailureStops(items, bookings, lineItems, cart, i + 1, start, end, days);
          return Failure(ItemNotFound(c.itemId));
        }
        var booked := BookedQty(bookings, lineItems, item.value.id, start, end);
        var available := item.value.quantityTotal - booked;
        if c.qty > available {
          CheckCartFailureStops(items, bookings, lineItems, cart, i + 1, start, end, days);
          return Failure(NotEnoughQuantity(item.value.name, available));
        }
        total := total + item.value.pricePerDay * c.qty * days;
      }
      assert cart[..|cart|] == cart;
      return Success(total);
    }

    /**
     * The reference retry loop: look the candidate up and draw the next one
     * while it is taken, at most three times.
     */
    method ChooseReference(candidates: seq<string>) returns (reference: string)
      requires |candidates| > ReferenceRetries
      ensures reference == PickReference(References(bookings), candidates, 0)
    {
      var taken := References(bookings);
      var attempt := 0;
      reference := candidates[0];
      while attempt < ReferenceRetries
        invariant 0 <= attempt <= ReferenceRetries
        invariant reference == candidates[attempt]
        invariant PickReference(taken, candidates, attempt) == PickReference(taken, candidates, 0)
      {
        if reference !in taken {
          break;
        }
        attempt := attempt + 1;
        reference := candidates[attempt];
      }
    }

    /** The line-item loop: one row per cart entry, priced from the item as it is now. */
    method WriteLines(cart: seq<CartEntry>, bookingId: int)
      requires AllFound(items, cart)
      modifies this
      ensures items == old(items) && bookings == old(bookings)
      ensures lineItems == old(lineItems) + NewLines(items, cart, bookingId)
      ensures nextItemId == old(nextItemId) && nextBookingId == old(nextBookingId)
    {
      for k := 0 to |cart|
        invariant items == old(items) && bookings == old(bookings)
        invariant nextItemId == old(nextItemId) && nextBookingId == old(nextBookingId)
        invariant lineItems == old(lineItems) + NewLines(items, cart[..k], bookingId)
      {
        assert cart[..k + 1][..k] == cart[..k];
        var item := FindItem(items, cart[k].itemId).value;
        lineItems := lineItems + [LineItem(bookingId, item.id, cart[k].qty, item.pricePerDay)];
      }
      assert cart[..|cart|] == cart;
    }

    /** POST /api/admin/items: name, price and stock must be truthy; is_active defaults to 1. */
    method CreateItem(form: ItemForm) returns (r: Result<int, AdminError>)
      requires Valid()
      modifies this
      ensures Valid()
      ensures bookings == old(bookings) && lineItems == old(lineItems) && nextBookingId == old(nextBookingId)
      ensures r.Failure? <==> form.name == "" || !Truthy(form.pricePerDay) || !Truthy(form.quantityTotal)
      ensures r.Failure? ==> r.error == MissingFields && items == old(items) && nextItemId == old(nextItemId)
      ensures r.Success? ==>
        && r.value == old(nextItemId)
        && nextItemId == old(nextItemId) + 1
        && items == old(items) + [Item(r.value, form.name, form.description,
             form.pricePerDay.value, form.quantityTotal.value,
             if form.active.Some? then form.active.value else 1)]
    {
      if form.name == "" || !Truthy(form.pricePerDay) || !Truthy(form.quantityTotal) {
        return Failure(MissingFields);
      }
      var active := if form.active.Some? then form.active.value else 1;
      var it := Item(nextItemId, form.name, form.description, form.pricePerDay.value, form.quantityTotal.value, active);
      ItemIdsAppend(items, it);
      items := items + [it];
      nextItemId := nextItemId + 1;
      return Success(it.id);
    }

    /** PUT /api/admin/items/:id: overwrites every field of the row with that id, if any. */
    method UpdateItem(id: int, name: string, description: string, pricePerDay: int, quantityTotal: int, active: int)
      requires Valid()
      modifies this
      ensures Valid()
      ensures items == WithItemFields(old(items), id, name, description, pricePerDay, quantityTotal, active)
      ensures bookings == old(bookings) && lineItems == old(lineItems)
      ensures nextItemId == old(nextItemId) && nextBookingId == old(nextBookingId)
    {
      var updated := WithItemFields(items, id, name, description, pricePerDay, quantityTotal, active);
      forall x | x in ItemIds(items) ensures x in ItemIds(updated) {
        var it :| it in items && it.id == x;
        var k :| 0 <= k < |items| && items[k] == it;
        assert updated[k] in updated;
      }
      forall it | it in updated ensures it.id < nextItemId {
        var k :| 0 <= k < |updated| && updated[k] == it;
        assert items[k] in items;
      }
      items := updated;
    }

    /** DELETE /api/admin/items/:id: refused while any line item refers to the item. */
    method DeleteItem(id: int) returns (r: Result<(), AdminError>)
      requires Valid()
      modifies this
      ensures Valid()
      ensures r.Failure? <==> exists li :: li in old(lineItems) && li.itemId == id
      ensures r.Failure? ==> r.error == ItemInUse && items == old(items)
      ensures r.Success? ==> items == WithoutItem(old(items), id)
      ensures bookings == old(bookings) && lineItems == old(lineItems)
      ensures nextItemId == old(nextItemId) && nextBookingId == old(nextBookingId)
    {
      if exists li :: li in lineItems && li.itemId == id {
        return Failure(ItemInUse);
      }
      DeleteGuardKeepsIntegrity(items, bookings, lineItems, id);
      WithoutItemValid(items, id, nextItemId);
      items := WithoutItem(items, id);
      return Success(());
    }

    /** PUT /api/admin/bookings/:id/mark-paid */
    method MarkPaid(id: int)
      requires Valid()
      modifies this
      ensures Valid()
      ensures bookings == WithStatus(old(bookings), id, Paid)
      ensures items == old(items) && lineItems == old(lineItems)
      ensures nextItemId == old(nextItemId) && nextBookingId == old(nextBookingId)
    {
      WithStatusKeepsTables(items, bookings, lineItems, nextItemId, nextBookingId, id, Paid);
      bookings := WithStatus(bookings, id, Paid);
    }

    /** PUT /api/admin/bookings/:id/cancel */
    method Cancel(id: int)
      requires Valid()
      modifies this
      ensures Valid()
      ensures bookings == WithStatus(old(bookings), id, Cancelled)
      ensures items == old(items) && lineItems == old(lineItems)
      ensures nextItemId == old(nextItemId) && nextBookingId == old(nextBookingId)
    {
      WithStatusKeepsTables(items, bookings, lineItems, nextItemId, nextBookingId, id, Cancelled);
      bookings := WithStatus(bookings, id, Cancelled);
    }
  }
}
