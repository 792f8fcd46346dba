/**
 * The customer storefront: the keyword category classifier and the
 * category filter of the inventory, the in-memory cart and its total, and
 * the checks run before a booking request is sent.
 */
module Storefront {
  import opened Wrappers
  import opened Seqs
  import Reservation

  /** An inventory item as the storefront receives it; a missing category is "". */
  datatype CatalogItem = CatalogItem(id: int, name: string, description: string, category: string, pricePerDay: int)

  /** `calcDays`: the inclusive day count, at least one, the same count the server charges for. */
  function CalcDays(start: int, end: int): (days: int)
    ensures days >= 1
    ensures start <= end ==> days == end - start + 1
    ensures days == Reservation.DaysBetweenInclusive(start, end)
  {
    var d := end - start + 1;
    if d > 1 then d else 1
  }

  // ---------------------------------------------------------------------------
  // Categories
  // ---------------------------------------------------------------------------

  function LowerChar(c: char): char {
    if 'A' <= c <= 'Z' then (c as int - 'A' as int + 'a' as int) as char else c
  }

  /** `toLowerCase`, for ASCII letters. */
  function Lower(s: string): string {
    seq(|s|, k requires 0 <= k < |s| => LowerChar(s[k]))
  }

  predicate OccursAt(s: string, w: string, i: int) {
    0 <= i <= |s| - |w| && s[i..i + |w|] == w
  }

  /** `includes`: `w` occurs in `s` as a contiguous piece. */
  predicate Contains(s: string, w: string) {
    exists i :: 0 <= i <= |s| - |w| && OccursAt(s, w, i)
  }

  predicate AnyKeyword(s: string, keywords: seq<string>) {
    exists k :: 0 <= k < |keywords| && Contains(s, keywords[k])
  }

  /** The keyword groups of the classifier, in the order they are tried. */
  const KeywordGroups: seq<(string, seq<string>)> := [
    ("seating", ["chair", "seat"]),
    ("seating", ["table"]),
    ("tents", ["tent", "canopy", "gazebo"]),
    ("sound", ["sound", "speaker", "microphone", "pa system"]),
    ("lighting", ["light", "lamp", "bulb"]),
    ("decor", ["decor", "flower", "backdrop", "drape"])
  ]

  /** The category of the first group from `g` on with a keyword in `s`; "all" when none has. */
  function CategoryFrom(s: string, g: nat): (r: string)
    requires g <= |KeywordGroups|
    ensures r == "all" <==> forall h :: g <= h < |KeywordGroups| ==> !AnyKeyword(s, KeywordGroups[h].1)
    ensures r != "all" ==> exists h ::
      && g <= h < |KeywordGroups|
      && r == KeywordGroups[h].0
      && AnyKeyword(s, KeywordGroups[h].1)
      && forall j :: g <= j < h ==> !AnyKeyword(s, KeywordGroups[j].1)
    decreases |KeywordGroups| - g
  {
    if g == |KeywordGroups| then "all"
    else if AnyKeyword(s, KeywordGroups[g].1) then KeywordGroups[g].0
    else CategoryFrom(s, g + 1)
  }

  /** `getItemCategory` */
  function ItemCategory(name: string): (r: string)
    ensures r in {"seating", "tents", "sound", "lighting", "decor", "all"}
  {
    var lower := Lower(name);
    if Contains(lower, "chair") || Contains(lower, "seat") then "seating"
    else if Contains(lower, "table") then "seating"
    else if Contains(lower, "tent") || Contains(lower, "canopy") || Contains(lower, "gazebo") then "tents"
    else if Contains(lower, "sound") || Contains(lower, "speaker") || Contains(lower, "microphone")
         || Contains(lower, "pa system") then "sound"
    else if Contains(lower, "light") || Contains(lower, "lamp") || Contains(lower, "bulb") then "lighting"
    else if Contains(lower, "decor") || Contains(lower, "flower") || Contains(lower, "backdrop")
         || Contains(lower, "drape") then "decor"
    else "all"
  }

  lemma AnyKeywordOfList(s: string, keywords: seq<string>)
    ensures AnyKeyword(s, keywords) <==> keywords != [] && (Contains(s, keywords[0]) || AnyKeyword(s, keywords[1..]))
  {
    if keywords != [] && AnyKeyword(s, keywords[1..]) {
      var k :| 0 <= k < |keywords[1..]| && Contains(s, keywords[1..][k]);
      assert keywords[k + 1] == keywords[1..][k];
    }
    if AnyKeyword(s, keywords) {
      var k :| 0 <= k < |keywords| && Contains(s, keywords[k]);
      if k > 0 {
        assert keywords[1..][k - 1] == keywords[k];
      }
    }
  }

  lemma GroupMatches(s: string, g: nat)
    requires g < |KeywordGroups|
    ensures g == 0 ==> (AnyKeyword(s, KeywordGroups[g].1) <==> Contains(s, "chair") || Contains(s, "seat"))
    ensures g == 1 ==> (AnyKeyword(s, KeywordGroups[g].1) <==> Contains(s, "table"))
    ensures g == 2 ==> (AnyKeyword(s, KeywordGroups[g].1) <==>
      Contains(s, "tent") || Contains(s, "canopy") || Contains(s, "gazebo"))
    ensures g == 3 ==> (AnyKeyword(s, KeywordGroups[g].1) <==>
      Contains(s, "sound") || Contains(s, "speaker") || Contains(s, "microphone") || Contains(s, "pa system"))
    ensures g == 4 ==> (AnyKeyword(s, KeywordGroups[g].1) <==>
      Contains(s, "light") || Contains(s, "lamp") || Contains(s, "bulb"))
    ensures g == 5 ==> (AnyKeyword(s, KeywordGroups[g].1) <==>
      Contains(s, "decor") || Contains(s, "flower") || Contains(s, "backdrop") || Contains(s, "drape"))
  {
    var kws := KeywordGroups[g].1;
    AnyKeywordOfList(s, kws);
    if |kws| > 1 {
      AnyKeywordOfList(s, kws[1..]);
    }
    if |kws| > 2 {
      AnyKeywordOfList(s, kws[2..]);
      assert kws[1..][1..] == kws[2..];
    }
    if |kws| > 3 {
      AnyKeywordOfList(s, kws[3..]);
      assert kws[2..][1..] == kws[3..];
    }
    if |kws| > 0 {
      assert kws[|kws|..] == [];
    }
  }

  /**
   * The classifier lower-cases the name and answers with the first group in
   * the listed order that has a keyword in it, or "all".
   */
  lemma ItemCategoryIsFirstMatchingGroup(name: string)
    ensures ItemCategory(name) == CategoryFrom(Lower(name), 0)
  {
    var s := Lower(name);
    GroupMatches(s, 0);
    GroupMatches(s, 1);
    GroupMatches(s, 2);
    GroupMatches(s, 3);
    GroupMatches(s, 4);
    GroupMatches(s, 5);
  }

  lemma AbsentFirstLetter(s: string, w: string)
    requires |w| > 0
    requires forall i :: 0 <= i < |s| ==> s[i] != w[0]
    ensures !Contains(s, w)
  {
    forall i | 0 <= i <= |s| - |w| ensures !OccursAt(s, w, i) {
      assert s[i..i + |w|][0] == s[i];
    }
  }

  /** "table" is tried before the lighting keywords, so a table lamp is seating. */
  lemma TableLampIsSeating()
    ensures ItemCategory("Table Lamp") == "seating"
  {
    var s := Lower("Table Lamp");
    assert s == "table lamp";
    AbsentFirstLetter(s, "chair");
    AbsentFirstLetter(s, "seat");
    assert OccursAt(s, "table", 0);
  }

  /** The filter predicate of `renderItems` for a category other than "all". */
  predicate Shown(it: CatalogItem, filter: string) {
    (it.category != "" && it.category == filter) || ItemCategory(it.name) == filter
  }

  /**
   * The category filter: everything for "all"; otherwise, in their original
   * order and as often as they occur, exactly the items whose category or
   * name-derived category is the filter.
   */
  function FilterItems(items: seq<CatalogItem>, filter: string): (r: seq<CatalogItem>)
    ensures filter == "all" ==> r == items
    ensures filter != "all" ==>
      && SubsequenceOf(r, items)
      && (forall k :: 0 <= k < |r| ==> Shown(r[k], filter))
      && (forall k :: 0 <= k < |items| && Shown(items[k], filter) ==> items[k] in r)
      && (forall x :: multiset(r)[x] == if Shown(x, filter) then multiset(items)[x] else 0)
  {
    if filter == "all" then items
    else
      var shown := it => Shown(it, filter);
      FilterCounts(items, shown);
      Filter(items, shown)
  }

  // ---------------------------------------------------------------------------
  // The cart
  // ---------------------------------------------------------------------------

  datatype CartRow = CartRow(item: CatalogItem, qty: int)

  /** Every id of `order` has a row. */
  predicate Covered(rows: map<int, CartRow>, order: seq<int>) {
    forall k :: 0 <= k < |order| ==> order[k] in rows
  }

  /** Σ price_per_day x qty x days over the rows, in insertion order. */
  function LinesTotal(rows: map<int, CartRow>, order: seq<int>, days: int): int
    requires Covered(rows, order)
    decreases |order|
  {
    if order == [] then 0
    else
      var row := rows[order[|order| - 1]];
      LinesTotal(rows, order[..|order| - 1], days) + row.item.pricePerDay * row.qty * days
  }

  /** The request body's cart: one `{item_id, qty}` per cart key, in insertion order. */
  function RequestEntries(rows: map<int, CartRow>, order: seq<int>): (r: seq<Reservation.CartEntry>)
    requires Covered(rows, order)
    ensures |r| == |order|
    ensures forall k :: 0 <= k < |order| ==> r[k] == Reservation.CartEntry(order[k], rows[order[k]].qty)
    ensures Distinct(order) ==> Reservation.DistinctItemIds(r)
  {
    seq(|order|, k requires 0 <= k < |order| => Reservation.CartEntry(order[k], rows[order[k]].qty))
  }

  /** `order` with `x` taken out. */
  function Without(order: seq<int>, x: int): (r: seq<int>)
    ensures forall y :: y in r <==> y in order && y != x
    ensures Distinct(order) ==> Distinct(r)
  {
    if order == [] then []
    else if order[0] == x then Without(order[1..], x)
    else
      var rest := Without(order[1..], x);
      assert Distinct(order) ==> forall k :: 0 <= k < |rest| ==> rest[k] != order[0] by {
        if Distinct(order) {
          forall k | 0 <= k < |rest| ensures rest[k] != order[0] {
            assert rest[k] in order[1..];
            var m :| 0 <= m < |order[1..]| && order[1..][m] == rest[k];
            assert order[m + 1] == rest[k];
          }
        }
      }
      assert Distinct(order) ==> Distinct(order[1..]) by {
        if Distinct(order) {
          forall i, j | 0 <= i < j < |order[1..]| ensures order[1..][i] != order[1..][j] {
            assert order[1..][i] == order[i + 1] && order[1..][j] == order[j + 1];
          }
        }
      }
      [order[0]] + rest
  }

  /**
   * The storefront cart: a Map from item id to `{item, qty}`; `order` is the
   * Map's insertion order, which is the order it iterates in.
   */
  class Cart {
    var rows: map<int, CartRow>
    var order: seq<int>

    ghost predicate Valid()
      reads this
    {
      && Distinct(order)
      && Covered(rows, order)
      && (forall id :: id in rows ==> id in order)
      && (forall id :: id in rows ==> rows[id].qty >= 1 && rows[id].item.id == id)
    }

    constructor ()
      ensures Valid() && rows == map[] && order == []
    {
      rows := map[];
      order := [];
    }

    /** The Add button: a new id enters with quantity 1, a present one goes up by 1. */
    method Add(item: CatalogItem)
      requires Valid()
      modifies this
      ensures Valid()
      ensures item.id !in old(rows) ==>
        rows == old(rows)[item.id := CartRow(item, 1)] && order == old(order) + [item.id]
      ensures item.id in old(rows) ==>
        rows == old(rows)[item.id := old(rows)[item.id].(qty := old(rows)[item.id].qty + 1)] && order == old(order)
    {
      if item.id !in rows {
        rows := rows[item.id := CartRow(item, 1)];
        order := order + [item.id];
      } else {
        rows := rows[item.id := rows[item.id].(qty := rows[item.id].qty + 1)];
      }
    }

    /** The + button of a cart line. */
    method Increment(id: int)
      requires Valid()
      modifies this
      ensures Valid()
      ensures order == old(order)
      ensures id in old(rows) ==> rows == old(rows)[id := old(rows)[id].(qty := old(rows)[id].qty + 1)]
      ensures id !in old(rows) ==> rows == old(rows)
    {
      if id in rows {
        rows := rows[id := rows[id].(qty := rows[id].qty + 1)];
      }
    }

    /** The − button of a cart line: down by one, never below one. */
    method Decrement(id: int)
      requires Valid()
      modifies this
      ensures Valid()
      ensures order == old(order)
      ensures id in old(rows) ==>
        rows == old(rows)[id := old(rows)[id].(qty := if old(rows)[id].qty - 1 > 1 then old(rows)[id].qty - 1 else 1)]
      ensures id !in old(rows) ==> rows == old(rows)
    {
      if id in rows {
        var q := rows[id].qty - 1;
        rows := rows[id := rows[id].(qty := if q > 1 then q else 1)];
      }
    }

    /** The × button of a cart line. */
    method Remove(id: int)
      requires Valid()
      modifies this
      ensures Valid()
      ensures rows == old(rows) - {id}
      ensures order == Without(old(order), id)
    {
      ghost var before := rows;
      rows := rows - {id};
      order := Without(order, id);
      forall k | 0 <= k < |order| ensures order[k] in rows {
        assert order[k] in order;
        assert order[k] in old(order);
        var m :| 0 <= m < |old(order)| && old(order)[m] == order[k];
        assert order[k] in before;
      }
    }

    /** Emptying the cart after a successful booking. */
    method Clear()
      modifies this
      ensures Valid() && rows == map[] && order == []
    {
      rows := map[];
      order := [];
    }

    /** The running total of `renderCart`; one day is charged when either date is missing. */
    method Total(start: Option<int>, end: Option<int>) returns (total: int)
      requires Valid()
      ensures order == [] ==> total == 0
      ensures Covered(rows, order)
      ensures total == LinesTotal(rows, order,
        if start.Some? && end.Some? then CalcDays(start.value, end.value) else 1)
    {
      if |order| == 0 {
        return 0;
      }
      var days := if start.Some? && end.Some? then CalcDays(start.value, end.value) else 1;
      total := 0;
      for i := 0 to |order|
        invariant total == LinesTotal(rows, order[..i], days)
      {
        assert order[..i + 1][..i] == order[..i];
        var row := rows[order[i]];
        total := total + row.item.pricePerDay * row.qty * days;
      }
      assert order[..|order|] == order;
    }
  }

  /**
   * The total the cart shows is the amount the server will charge for the
   * request built from it, when the cart's prices are the server's.
   */
  lemma {:induction false} CartTotalMatchesServerAmount(
    rows: map<int, CartRow>, order: seq<int>, items: seq<Reservation.Item>, days: int)
    requires Covered(rows, order)
    requires forall k :: 0 <= k < |order| ==>
      Reservation.FindItem(items, order[k]).Some?
      && Reservation.FindItem(items, order[k]).value.pricePerDay == rows[order[k]].item.pricePerDay
    ensures Reservation.AllFound(items, RequestEntries(rows, order))
    ensures LinesTotal(rows, order, days) == Reservation.CartAmount(items, RequestEntries(rows, order), days)
    decreases |order|
  {
    var entries := RequestEntries(rows, order);
    assert Reservation.AllFound(items, entries);
    if order != [] {
      var n := |order| - 1;
      var prefix := order[..n];
      forall k | 0 <= k < |prefix| ensures prefix[k] == order[k] {
      }
      CartTotalMatchesServerAmount(rows, prefix, items, days);
      assert entries[..n] == RequestEntries(rows, prefix);
      assert entries[n] == Reservation.CartEntry(order[n], rows[order[n]].qty);
    }
  }

  // ---------------------------------------------------------------------------
  // Checks before sending a request
  // ---------------------------------------------------------------------------

  datatype GuardError =
    | MissingDates
    | EndBeforeStart
    | MissingCustomer
    | InvalidEmail
    | MissingDelivery
    | EmptyCart

  /**
   * The characters `String.prototype.trim` strips: the white space and line
   * terminators of ECMAScript, including the space separators of Unicode.
   */
  predicate IsSpace(c: char) {
    var n := c as int;
    n == 0x09 || n == 0x0A || n == 0x0B || n == 0x0C || n == 0x0D || n == 0x20
    || n == 0xA0 || n == 0x1680 || (0x2000 <= n <= 0x200A) || n == 0x2028 || n == 0x2029
    || n == 0x202F || n == 0x205F || n == 0x3000 || n == 0xFEFF
  }

  /** `s` without its leading white space. */
  function TrimStart(s: string): (r: string)
    ensures |r| <= |s| && r == s[|s| - |r|..]
    ensures Blank(s[..|s| - |r|])
    ensures r == [] || !IsSpace(r[0])
  {
    if s != [] && IsSpace(s[0]) then
      var r := TrimStart(s[1..]);
      assert s[..|s| - |r|] == [s[0]] + s[1..][..|s| - 1 - |r|];
      r
    else s
  }

  /** `s` without its trailing white space. */
  function TrimEnd(s: string): (r: string)
    ensures |r| <= |s| && r == s[..|r|]
    ensures Blank(s[|r|..])
    ensures r == [] || !IsSpace(r[|r| - 1])
  {
    if s != [] && IsSpace(s[|s| - 1]) then
      var r := TrimEnd(s[..|s| - 1]);
      assert s[|r|..] == s[..|s| - 1][|r|..] + [s[|s| - 1]];
      r
    else s
  }

  /**
   * `trim`: the piece of `s` between its leading and its trailing white
   * space, so `s` is blank text, then the result, then blank text. It is
   * empty exactly when `s` is all white space.
   */
  function Trim(s: string): (r: string)
    ensures r == "" <==> Blank(s)
    ensures r == [] || (!IsSpace(r[0]) && !IsSpace(r[|r| - 1]))
    ensures Contains(s, r)
  {
    var t := TrimStart(s);
    var r := TrimEnd(t);
    TrimShape(s, t, r);
    r
  }

  /** `trim` removes blank text from either end of `s` and nothing else. */
  lemma TrimRemovesOnlyBlanks(s: string)
    ensures exists p, q :: Surrounded(s, Trim(s), p, q)
  {
    var t := TrimStart(s);
    var r := TrimEnd(t);
    assert Trim(s) == r;
    TrimShape(s, t, r);
    assert Surrounded(s, r, s[..|s| - |t|], t[|r|..]);
  }

  /** `s` is the blank text `p`, then `r`, then the blank text `q`. */
  predicate Surrounded(s: string, r: string, p: string, q: string) {
    s == p + r + q && Blank(p) && Blank(q)
  }

  lemma BlankAppend(a: string, b: string)
    ensures Blank(a + b) <==> Blank(a) && Blank(b)
  {
    if Blank(a) && Blank(b) {
      forall k | 0 <= k < |a + b| ensures IsSpace((a + b)[k]) {
        if k < |a| {
          assert (a + b)[k] == a[k];
        } else {
          assert (a + b)[k] == b[k - |a|];
        }
      }
    }
    if Blank(a + b) {
      forall k | 0 <= k < |a| ensures IsSpace(a[k]) {
        assert (a + b)[k] == a[k];
      }
      forall k | 0 <= k < |b| ensures IsSpace(b[k]) {
        assert (a + b)[k + |a|] == b[k];
      }
    }
  }

  /**
   * Stripping a blank start off `s`, leaving `t`, then a blank end off `t`,
   * leaving `r`, leaves blank text on either side of `r`; `r` is empty
   * exactly when all of `s` is blank.
   */
  lemma TrimShape(s: string, t: string, r: string)
    requires |t| <= |s| && t == s[|s| - |t|..] && Blank(s[..|s| - |t|]) && (t == [] || !IsSpace(t[0]))
    requires |r| <= |t| && r == t[..|r|] && Blank(t[|r|..]) && (r == [] || !IsSpace(r[|r| - 1]))
    ensures r == "" <==> Blank(s)
    ensures r == [] || (!IsSpace(r[0]) && !IsSpace(r[|r| - 1]))
    ensures Contains(s, r)
    ensures Surrounded(s, r, s[..|s| - |t|], t[|r|..])
  {
    var p, q := s[..|s| - |t|], t[|r|..];
    assert s == p + t;
    assert t == r + q;
    assert s == p + r + q;
    assert OccursAt(s, r, |p|);
    BlankAppend(p, t);
    BlankAppend(r, q);
    if r != [] {
      assert r[0] == t[0];
    }
  }

  /** Trimming twice is trimming once. */
  lemma TrimIdempotent(s: string)
    ensures Trim(Trim(s)) == Trim(s)
  {
    var r := Trim(s);
    if r != [] {
      assert TrimStart(r) == r;
      assert TrimEnd(r) == r;
    }
  }

  /** The checkout form as typed; an empty date input is None. */
  datatype CheckoutForm = CheckoutForm(
    startDate: Option<int>,
    endDate: Option<int>,
    customerName: string,
    customerEmail: string,
    customerPhone: string,
    deliveryAddress: string,
    deliveryCity: string,
    deliveryLandmark: string)

  /** The checks of the availability button, in their order. */
  function AvailabilityGuard(startDate: Option<int>, endDate: Option<int>, cartSize: nat): (r: Option<GuardError>)
    ensures r.None? <==> startDate.Some? && endDate.Some? && startDate.value <= endDate.value && cartSize > 0
    ensures r.Some? ==> r.value in {MissingDates, EndBeforeStart, EmptyCart}
    ensures r == Some(MissingDates) <==> startDate.None? || endDate.None?
    ensures r == Some(EndBeforeStart) <==> startDate.Some? && endDate.Some? && startDate.value > endDate.value
    ensures r == Some(EmptyCart) <==>
      startDate.Some? && endDate.Some? && startDate.value <= endDate.value && cartSize == 0
  {
    if startDate.None? || endDate.None? then Some(MissingDates)
    else if startDate.value > endDate.value then Some(EndBeforeStart)
    else if cartSize == 0 then Some(EmptyCart)
    else None
  }

  /** The form's text fields after `trim`, which is what the checks and the request use. */
  function Trimmed(form: CheckoutForm): CheckoutForm {
    form.(
      customerName := Trim(form.customerName),
      customerEmail := Trim(form.customerEmail),
      customerPhone := Trim(form.customerPhone),
      deliveryAddress := Trim(form.deliveryAddress),
      deliveryCity := Trim(form.deliveryCity),
      deliveryLandmark := Trim(form.deliveryLandmark))
  }

  /**
   * The checks of the book-and-pay button, in their order, on the trimmed
   * fields: a field of white space only counts as missing.
   */
  function SubmitGuard(form: CheckoutForm, cartSize: nat): (r: Option<GuardError>)
    ensures r.None? <==>
      && form.startDate.Some? && form.endDate.Some? && form.startDate.value <= form.endDate.value
      && !Blank(form.customerName) && !Blank(form.customerEmail) && !Blank(form.customerPhone)
      && '@' in Trim(form.customerEmail) && '.' in Trim(form.customerEmail)
      && !Blank(form.deliveryAddress) && !Blank(form.deliveryCity)
      && cartSize > 0
    ensures r == Some(MissingDates) <==> form.startDate.None? || form.endDate.None?
    ensures r == Some(EndBeforeStart) <==>
      form.startDate.Some? && form.endDate.Some? && form.startDate.value > form.endDate.value
    ensures r == Some(MissingCustomer) <==>
      && form.startDate.Some? && form.endDate.Some? && form.startDate.value <= form.endDate.value
      && (Blank(form.customerName) || Blank(form.customerEmail) || Blank(form.customerPhone))
    ensures r == Some(InvalidEmail) <==>
      && form.startDate.Some? && form.endDate.Some? && form.startDate.value <= form.endDate.value
      && !Blank(form.customerName) && !Blank(form.customerEmail) && !Blank(form.customerPhone)
      && ('@' !in Trim(form.customerEmail) || '.' !in Trim(form.customerEmail))
    ensures r == Some(MissingDelivery) <==>
      && form.startDate.Some? && form.endDate.Some? && form.startDate.value <= form.endDate.value
      && !Blank(form.customerName) && !Blank(form.customerEmail) && !Blank(form.customerPhone)
      && '@' in Trim(form.customerEmail) && '.' in Trim(form.customerEmail)
      && (Blank(form.deliveryAddress) || Blank(form.deliveryCity))
    ensures r == Some(EmptyCart) <==>
      && form.startDate.Some? && form.endDate.Some? && form.startDate.value <= form.endDate.value
      && !Blank(form.customerName) && !Blank(form.customerEmail) && !Blank(form.customerPhone)
      && '@' in Trim(form.customerEmail) && '.' in Trim(form.customerEmail)
      && !Blank(form.deliveryAddress) && !Blank(form.deliveryCity)
      && cartSize == 0
  {
    var f := Trimmed(form);
    if f.startDate.None? || f.endDate.None? then Some(MissingDates)
    else if f.startDate.value > f.endDate.value then Some(EndBeforeStart)
    else if f.customerName == "" || f.customerEmail == "" || f.customerPhone == "" then Some(MissingCustomer)
    else if '@' !in f.customerEmail || '.' !in f.customerEmail then Some(InvalidEmail)
    else if f.deliveryAddress == "" || f.deliveryCity == "" then Some(MissingDelivery)
    else if cartSize == 0 then Some(EmptyCart)
    else None
  }

  /** Nothing but white space. */
  predicate Blank(s: string) {
    forall k :: 0 <= k < |s| ==> IsSpace(s[k])
  }

  /** A name of three spaces is refused as missing, although it is not empty. */
  lemma SpacesOnlyNameRefused(form: CheckoutForm, cartSize: nat)
    requires form.startDate.Some? && form.endDate.Some? && form.startDate.value <= form.endDate.value
    requires form.customerName == "   "
    ensures SubmitGuard(form, cartSize) == Some(MissingCustomer)
  {
    assert Blank(form.customerName);
  }

  /** The body the storefront posts to the create endpoint, with the trimmed text fields. */
  function BookingRequestOf(form: CheckoutForm, rows: map<int, CartRow>, order: seq<int>): Reservation.BookingRequest
    requires Covered(rows, order)
  {
    var f := Trimmed(form);
    Reservation.BookingRequest(
      f.customerName, f.customerEmail, f.customerPhone,
      f.startDate, f.endDate,
      f.deliveryAddress, f.deliveryCity, f.deliveryLandmark,
      Some(RequestEntries(rows, order)))
  }

  /**
   * A request that passes the storefront's checks passes the server's
   * up-front validation, has an ordered range and names each item once.
   */
  lemma SubmitGuardImpliesServerValidation(form: CheckoutForm, rows: map<int, CartRow>, order: seq<int>)
    requires Covered(rows, order) && Distinct(order)
    requires SubmitGuard(form, |order|).None?
    ensures var req := BookingRequestOf(form, rows, order);
      && Reservation.ValidateBooking(req).None?
      && req.startDate.value <= req.endDate.value
      && Reservation.DistinctItemIds(req.cart.value)
  {
    GuardPassedFields(form, |order|);
    var entries := RequestEntries(rows, order);
    RequestPassesValidation(BookingRequestOf(form, rows, order), entries);
  }

  /** A form that passes the checks has ordered dates and no empty trimmed field the server requires. */
  lemma GuardPassedFields(form: CheckoutForm, cartSize: nat)
    requires SubmitGuard(form, cartSize).None?
    ensures var f := Trimmed(form);
      && f.startDate.Some? && f.endDate.Some? && f.startDate.value <= f.endDate.value
      && f.customerName != "" && f.customerEmail != "" && f.customerPhone != ""
      && f.deliveryAddress != "" && f.deliveryCity != ""
      && cartSize > 0
  {
  }

  lemma RequestPassesValidation(req: Reservation.BookingRequest, entries: seq<Reservation.CartEntry>)
    requires req.customerName != "" && req.customerEmail != "" && req.customerPhone != ""
    requires req.startDate.Some? && req.endDate.Some?
    requires req.deliveryAddress != "" && req.deliveryCity != ""
    requires req.cart == Some(entries) && |entries| > 0
    ensures Reservation.ValidateBooking(req).None?
  {
  }

  /**
   * No overbooking for bookings made from the storefront: when a request
   * built from a valid cart that passed the checks is accepted, every item
   * in it is booked over the range at most up to its stock.
   */
  lemma StorefrontBookingNeverOverbooks(
    form: CheckoutForm, rows: map<int, CartRow>, order: seq<int>,
    items: seq<Reservation.Item>, bookings: seq<Reservation.Booking>, lines: seq<Reservation.LineItem>,
    nextItemId: int, nextBookingId: int, candidates: seq<string>, k: nat)
    requires Covered(rows, order) && Distinct(order)
    requires SubmitGuard(form, |order|).None?
    requires |candidates| > Reservation.ReferenceRetries
    requires Reservation.TablesValid(items, bookings, lines, nextItemId, nextBookingId)
    requires Reservation.CreateOutcome(items, bookings, lines, nextBookingId,
      BookingRequestOf(form, rows, order), candidates).Success?
    requires k < |order|
    ensures var req := BookingRequestOf(form, rows, order);
      var nb := Reservation.CreateOutcome(items, bookings, lines, nextBookingId, req, candidates).value;
      && Reservation.FindItem(items, order[k]).Some?
      && Reservation.BookedQty(bookings + [nb], lines + Reservation.NewLines(items, req.cart.value, nb.id),
           order[k], nb.startDate, nb.endDate)
         <= Reservation.FindItem(items, order[k]).value.quantityTotal
  {
    var req := BookingRequestOf(form, rows, order);
    SubmitGuardImpliesServerValidation(form, rows, order);
    Reservation.NoOverbooking(items, bookings, lines, nextItemId, nextBookingId, req, candidates, k);
  }
}
