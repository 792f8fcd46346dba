/**
 * The admin dashboard: statistics and reports computed from the booking
 * list the admin endpoint returns, the booking filter, and the rules for
 * which status buttons a booking row shows.
 */
module Admin {
  import opened Wrappers
  import opened Statuses
  import opened Seqs

  /** A line of a listed booking: quantity and price joined with the item's name. */
  datatype BookedLine = BookedLine(name: string, qty: int, pricePerDay: int)

  /** A booking as the admin listing returns it; a null amount_total is None. */
  datatype AdminBooking = AdminBooking(
    id: int,
    customerName: string,
    customerEmail: string,
    customerPhone: string,
    startDate: int,
    endDate: int,
    status: string,
    amountTotal: Option<int>,
    items: seq<BookedLine>)

  /** `b.amount_total || 0` */
  function Amount(b: AdminBooking): int {
    if b.amountTotal.Some? then b.amountTotal.value else 0
  }

  predicate SettledBooking(b: AdminBooking) {
    IsSettled(b.status)
  }

  function HasStatus(status: string): AdminBooking -> bool {
    (b: AdminBooking) => b.status == status
  }

  // ---------------------------------------------------------------------------
  // Dashboard and revenue breakdown
  // ---------------------------------------------------------------------------

  datatype DashboardStats = DashboardStats(total: nat, paid: nat, pending: nat, revenue: int)

  /**
   * The four figures of the dashboard: every booking is counted once, and
   * the paid count is the paid plus the completed bookings, which no pending
   * booking is among.
   */
  function Dashboard(bs: seq<AdminBooking>): (r: DashboardStats)
    ensures r.total == |bs|
    ensures r.paid + r.pending <= r.total
    ensures r.pending == |Filter(bs, HasStatus(AwaitingPayment))|
    ensures r.paid == |Filter(bs, HasStatus(Paid))| + |Filter(bs, HasStatus(Completed))|
    ensures r.revenue == StatusRevenue(bs, Paid) + StatusRevenue(bs, Completed)
  {
    DisjointFiltersFit(bs, SettledBooking, HasStatus(AwaitingPayment));
    SettledSplitsByStatus(bs);
    DashboardStats(
      |bs|,
      |Filter(bs, SettledBooking)|,
      |Filter(bs, HasStatus(AwaitingPayment))|,
      SumBy(Filter(bs, SettledBooking), Amount))
  }

  datatype RevenueBreakdown = RevenueBreakdown(paid: int, completed: int, awaiting: int, cancelled: int)

  function StatusRevenue(bs: seq<AdminBooking>, status: string): int {
    SumBy(Filter(bs, HasStatus(status)), Amount)
  }

  /**
   * The per-status revenue of the reports tab; its paid and completed
   * columns add up to the dashboard's revenue.
   */
  function Breakdown(bs: seq<AdminBooking>): (r: RevenueBreakdown)
    ensures r.paid + r.completed == Dashboard(bs).revenue
    ensures r.awaiting == SumBy(Filter(bs, HasStatus(AwaitingPayment)), Amount)
    ensures r.cancelled == SumBy(Filter(bs, HasStatus(Cancelled)), Amount)
  {
    RevenueBreakdown(
      StatusRevenue(bs, Paid), StatusRevenue(bs, Completed),
      StatusRevenue(bs, AwaitingPayment), StatusRevenue(bs, Cancelled))
  }

  /**
   * The settled bookings are the paid ones and the completed ones: their
   * amounts and their number split by those two statuses.
   */
  lemma {:induction false} SettledSplitsByStatus(bs: seq<AdminBooking>)
    ensures SumBy(Filter(bs, SettledBooking), Amount) == StatusRevenue(bs, Paid) + StatusRevenue(bs, Completed)
    ensures |Filter(bs, SettledBooking)| == |Filter(bs, HasStatus(Paid))| + |Filter(bs, HasStatus(Completed))|
  {
    if bs != [] {
      SettledSplitsByStatus(bs[1..]);
    }
  }

  /**
   * When every status is one of the four known ones, the four status counts
   * partition the bookings, and the dashboard's paid and pending counts
   * leave exactly the cancelled ones.
   */
  lemma {:induction false} StatusCountsPartition(bs: seq<AdminBooking>)
    requires forall k :: 0 <= k < |bs| ==> IsKnown(bs[k].status)
    ensures |bs| == |Filter(bs, HasStatus(Paid))| + |Filter(bs, HasStatus(Completed))|
                  + |Filter(bs, HasStatus(AwaitingPayment))| + |Filter(bs, HasStatus(Cancelled))|
    ensures Dashboard(bs).total == Dashboard(bs).paid + Dashboard(bs).pending + |Filter(bs, HasStatus(Cancelled))|
  {
    if bs != [] {
      assert forall k :: 0 <= k < |bs[1..]| ==> bs[1..][k] == bs[k + 1];
      StatusCountsPartition(bs[1..]);
    }
  }

  // ---------------------------------------------------------------------------
  // Customers
  // ---------------------------------------------------------------------------

  datatype Customer = Customer(
    name: string,
    email: string,
    phone: string,
    bookings: seq<AdminBooking>,
    totalSpent: int)

  function EmailOf(b: AdminBooking): string {
    b.customerEmail
  }

  function TotalSpent(c: Customer): int {
    c.totalSpent
  }

  function BookingCount(c: Customer): int {
    |c.bookings|
  }

  /** What a booking adds to its customer's spending: its amount when paid or completed. */
  function SpentOn(b: AdminBooking): int {
    if IsSettled(b.status) then Amount(b) else 0
  }

  /**
   * The customer entry for `email`: name and phone of the customer's first
   * booking, all of the customer's bookings in order, and the amounts of
   * the paid or completed ones added up.
   */
  function CustomerFor(bs: seq<AdminBooking>, email: string): (c: Customer)
    ensures c.email == email
    ensures SubsequenceOf(c.bookings, bs)
    ensures forall j :: 0 <= j < |c.bookings| ==> c.bookings[j].customerEmail == email
    ensures forall k :: 0 <= k < |bs| && bs[k].customerEmail == email ==> bs[k] in c.bookings
    ensures c.totalSpent == SumBy(c.bookings, SpentOn)
    ensures |c.bookings| > 0 ==> c.name == c.bookings[0].customerName && c.phone == c.bookings[0].customerPhone
  {
    HasKeyMeans(EmailOf, email);
    var own := Filter(bs, HasKey(EmailOf, email));
    Customer(
      if |own| > 0 then own[0].customerName else "",
      email,
      if |own| > 0 then own[0].customerPhone else "",
      own,
      SumBy(own, SpentOn))
  }

  /** One entry per email of `emails`, in that order; distinct emails give distinct entries. */
  function CustomersOf(bs: seq<AdminBooking>, emails: seq<string>): (r: seq<Customer>)
    ensures |r| == |emails|
    ensures forall k :: 0 <= k < |emails| ==> r[k] == CustomerFor(bs, emails[k])
    ensures forall k :: 0 <= k < |r| ==> r[k].email == emails[k]
    ensures Distinct(emails) ==> DistinctBy(r, (c: Customer) => c.email)
  {
    seq(|emails|, k requires 0 <= k < |emails| => CustomerFor(bs, emails[k]))
  }

  /** How one more booking changes the entry of each email. */
  lemma CustomerForAppend(bs: seq<AdminBooking>, b: AdminBooking, email: string)
    ensures CustomerFor(bs + [b], email) ==
      if email != b.customerEmail then CustomerFor(bs, email)
      else if |CustomerFor(bs, email).bookings| == 0 then
        Customer(b.customerName, email, b.customerPhone, [b], SpentOn(b))
      else
        var c := CustomerFor(bs, email);
        c.(bookings := c.bookings + [b], totalSpent := c.totalSpent + SpentOn(b))
  {
    var p := HasKey(EmailOf, email);
    var own := Filter(bs, p);
    FilterAppend(bs, [b], p);
    FilterSingle(b, p);
    HasKeyApply(EmailOf, email, b);
    if email == b.customerEmail {
      assert Filter(bs + [b], p) == own + [b];
      SumByAppend(own, [b], SpentOn);
      assert SumBy([b], SpentOn) == SpentOn(b);
      if |own| > 0 {
        assert (own + [b])[0] == own[0];
      }
    } else {
      assert Filter(bs + [b], p) == own;
    }
  }

  lemma KeysHaveBookings(bs: seq<AdminBooking>, email: string)
    ensures email in Keys(bs, EmailOf) <==> |CustomerFor(bs, email).bookings| > 0
  {
    var own := Filter(bs, HasKey(EmailOf, email));
    KeysFacts(bs, EmailOf);
    if email in Keys(bs, EmailOf) {
      var j :| 0 <= j < |Keys(bs, EmailOf)| && Keys(bs, EmailOf)[j] == email;
      var k :| 0 <= k < |bs| && EmailOf(bs[k]) == email;
      assert bs[k] in own;
    }
    if |own| > 0 {
      assert own[0] in bs;
      var k :| 0 <= k < |bs| && bs[k] == own[0];
    }
  }

  /** The Map of `loadCustomers` after the bookings `seen`, and its key order. */
  ghost predicate GroupsAfter(seen: seq<AdminBooking>, groups: map<string, Customer>, emails: seq<string>) {
    && emails == Keys(seen, EmailOf)
    && (forall e :: e in groups <==> e in emails)
    && (forall e :: e in groups ==> groups[e] == CustomerFor(seen, e))
  }

  /** The entry a booking lands in: the existing one, or a fresh one from this booking. */
  function EntryBefore(groups: map<string, Customer>, b: AdminBooking): Customer {
    if b.customerEmail in groups then groups[b.customerEmail]
    else Customer(b.customerName, b.customerEmail, b.customerPhone, [], 0)
  }

  function Charged(c: Customer, b: AdminBooking): Customer {
    c.(bookings := c.bookings + [b], totalSpent := c.totalSpent + SpentOn(b))
  }

  lemma CustomerEntryStep(seen: seq<AdminBooking>, b: AdminBooking, groups: map<string, Customer>, e: string)
    requires e in groups ==> groups[e] == CustomerFor(seen, e)
    requires b.customerEmail in groups <==> |CustomerFor(seen, b.customerEmail).bookings| > 0
    ensures e == b.customerEmail ==> Charged(EntryBefore(groups, b), b) == CustomerFor(seen + [b], e)
    ensures e != b.customerEmail ==> CustomerFor(seen + [b], e) == CustomerFor(seen, e)
  {
    CustomerForAppend(seen, b, e);
  }

  lemma CustomersStep(
    seen: seq<AdminBooking>, b: AdminBooking,
    groups: map<string, Customer>, emails: seq<string>,
    groups': map<string, Customer>, emails': seq<string>)
    requires GroupsAfter(seen, groups, emails)
    requires emails' == if b.customerEmail in groups then emails else emails + [b.customerEmail]
    requires groups' == groups[b.customerEmail := Charged(EntryBefore(groups, b), b)]
    ensures GroupsAfter(seen + [b], groups', emails')
  {
    var email := b.customerEmail;
    var next := seen + [b];
    assert next[..|next| - 1] == seen;
    assert Keys(next, EmailOf) == emails';
    KeysHaveBookings(seen, email);
    forall e | e in groups' ensures groups'[e] == CustomerFor(next, e) {
      CustomerEntryStep(seen, b, groups, e);
    }
  }

  /** One turn of the grouping loop: open an entry for a new email, then charge the booking to it. */
  method AddToGroup(groups: map<string, Customer>, emails: seq<string>, b: AdminBooking)
    returns (groups': map<string, Customer>, emails': seq<string>)
    ensures emails' == if b.customerEmail in groups then emails else emails + [b.customerEmail]
    ensures groups' == groups[b.customerEmail := Charged(EntryBefore(groups, b), b)]
  {
    var email := b.customerEmail;
    groups', emails' := groups, emails;
    if email !in groups' {
      groups' := groups'[email := Customer(b.customerName, email, b.customerPhone, [], 0)];
      emails' := emails' + [email];
    }
    var c := groups'[email];
    groups' := groups'[email := c.(bookings := c.bookings + [b], totalSpent := c.totalSpent + SpentOn(b))];
  }

  /**
   * The grouping loop of `loadCustomers`: a Map from email to customer entry,
   * its keys in order of first appearance.
   */
  method GroupByEmail(bs: seq<AdminBooking>) returns (groups: map<string, Customer>, emails: seq<string>)
    ensures GroupsAfter(bs, groups, emails)
  {
    groups, emails := map[], [];
    for i := 0 to |bs|
      invariant GroupsAfter(bs[..i], groups, emails)
    {
      PrefixStep(bs, i);
      ghost var groups0, emails0 := groups, emails;
      groups, emails := AddToGroup(groups, emails, bs[i]);
      CustomersStep(bs[..i], bs[i], groups0, emails0, groups, emails);
    }
    assert bs[..|bs|] == bs;
  }

  /**
   * `loadCustomers`: group the bookings by email, then list the entries by
   * decreasing total spent (equal totals keep Map order).
   */
  method GroupCustomers(bs: seq<AdminBooking>) returns (customers: seq<Customer>)
    ensures customers == SortDesc(CustomersOf(bs, Keys(bs, EmailOf)), TotalSpent)
  {
    var groups, emails := GroupByEmail(bs);
    var listed := seq(|emails|, k requires 0 <= k < |emails| => groups[emails[k]]);
    assert listed == CustomersOf(bs, emails);
    customers := SortDesc(listed, TotalSpent);
  }

  lemma {:induction false} CustomersOfTotals(bs: seq<AdminBooking>, emails: seq<string>)
    ensures SumBy(CustomersOf(bs, emails), TotalSpent) == GroupTotal(bs, EmailOf, emails, SpentOn)
    ensures SumBy(CustomersOf(bs, emails), BookingCount) == GroupTotal(bs, EmailOf, emails, Unit)
  {
    if emails != [] {
      CustomersOfTotals(bs, emails[1..]);
      assert CustomersOf(bs, emails)[1..] == CustomersOf(bs, emails[1..]);
      LengthIsUnitSum(Filter(bs, HasKey(EmailOf, emails[0])));
    }
  }

  lemma {:induction false} SpentSumIsRevenue(bs: seq<AdminBooking>)
    ensures SumBy(bs, SpentOn) == Dashboard(bs).revenue
  {
    if bs != [] {
      SpentSumIsRevenue(bs[1..]);
    }
  }

  /** The customer list, as `GroupCustomers` returns it. */
  function CustomerList(bs: seq<AdminBooking>): seq<Customer> {
    SortDesc(CustomersOf(bs, Keys(bs, EmailOf)), TotalSpent)
  }

  /** The customer list is sorted by decreasing total spent and has one entry per email. */
  lemma CustomerListSortedAndDistinct(bs: seq<AdminBooking>)
    ensures SortedDesc(CustomerList(bs), TotalSpent)
    ensures DistinctBy(CustomerList(bs), (c: Customer) => c.email)
  {
    var listed := CustomersOf(bs, Keys(bs, EmailOf));
    var email := (c: Customer) => c.email;
    KeysFacts(bs, EmailOf);
    assert DistinctBy(listed, email);
    SortDescDistinct(listed, TotalSpent, email);
  }

  /** The list has an entry for `email`. */
  predicate HasEntry(cs: seq<Customer>, email: string) {
    exists j :: 0 <= j < |cs| && cs[j].email == email
  }

  lemma CustomerEntries(bs: seq<AdminBooking>, emails: seq<string>, cs: seq<Customer>)
    requires multiset(cs) == multiset(CustomersOf(bs, emails))
    ensures forall j :: 0 <= j < |cs| ==> cs[j] == CustomerFor(bs, cs[j].email)
  {
    var listed := CustomersOf(bs, emails);
    forall j | 0 <= j < |cs| ensures cs[j] == CustomerFor(bs, cs[j].email) {
      assert cs[j] in multiset(listed);
    }
  }

  lemma CustomersCover(bs: seq<AdminBooking>, emails: seq<string>, cs: seq<Customer>)
    requires multiset(cs) == multiset(CustomersOf(bs, emails))
    requires forall k :: 0 <= k < |bs| ==> EmailOf(bs[k]) in emails
    ensures forall k :: 0 <= k < |bs| ==> HasEntry(cs, bs[k].customerEmail)
  {
    forall k | 0 <= k < |bs| ensures HasEntry(cs, bs[k].customerEmail) {
      assert EmailOf(bs[k]) in emails;
      CustomerListed(bs, emails, cs, bs[k].customerEmail);
    }
  }

  lemma CustomerListed(bs: seq<AdminBooking>, emails: seq<string>, cs: seq<Customer>, email: string)
    requires multiset(cs) == multiset(CustomersOf(bs, emails))
    requires email in emails
    ensures HasEntry(cs, email)
  {
    var listed := CustomersOf(bs, emails);
    var i :| 0 <= i < |emails| && emails[i] == email;
    assert listed[i] in multiset(cs);
    var j :| 0 <= j < |cs| && cs[j] == listed[i];
    assert cs[j] == CustomerFor(bs, emails[i]);
  }

  /** Each entry is its email's group, and every booking's email has an entry. */
  lemma CustomerListIsGrouping(bs: seq<AdminBooking>)
    ensures forall j :: 0 <= j < |CustomerList(bs)| ==> CustomerList(bs)[j] == CustomerFor(bs, CustomerList(bs)[j].email)
    ensures forall k :: 0 <= k < |bs| ==> HasEntry(CustomerList(bs), bs[k].customerEmail)
  {
    var emails := Keys(bs, EmailOf);
    KeysFacts(bs, EmailOf);
    CustomerEntries(bs, emails, CustomerList(bs));
    CustomersCover(bs, emails, CustomerList(bs));
  }

  /**
   * The booking counts of the customer list add up to the number of
   * bookings, and the totals spent add up to the dashboard's revenue.
   */
  lemma CustomerListTotals(bs: seq<AdminBooking>)
    ensures SumBy(CustomerList(bs), BookingCount) == |bs|
    ensures SumBy(CustomerList(bs), TotalSpent) == Dashboard(bs).revenue
  {
    var emails := Keys(bs, EmailOf);
    var listed := CustomersOf(bs, emails);
    KeysFacts(bs, EmailOf);
    SortDescSum(listed, TotalSpent, BookingCount);
    SortDescSum(listed, TotalSpent, TotalSpent);
    CustomersOfTotals(bs, emails);
    GroupTotalCovers(bs, EmailOf, emails, Unit);
    GroupTotalCovers(bs, EmailOf, emails, SpentOn);
    LengthIsUnitSum(bs);
    SpentSumIsRevenue(bs);
  }

  // ---------------------------------------------------------------------------
  // Booking filter
  // ---------------------------------------------------------------------------

  /** The filter form: a status or "all", and optional from/to dates. */
  datatype BookingQuery = BookingQuery(status: string, from: Option<int>, to: Option<int>)

  predicate StatusOk(b: AdminBooking, q: BookingQuery) {
    q.status == "all" || b.status == q.status
  }

  predicate FromOk(b: AdminBooking, q: BookingQuery) {
    q.from.None? || b.startDate >= q.from.value
  }

  predicate ToOk(b: AdminBooking, q: BookingQuery) {
    q.to.None? || b.endDate <= q.to.value
  }

  predicate MatchesQuery(b: AdminBooking, q: BookingQuery) {
    StatusOk(b, q) && FromOk(b, q) && ToOk(b, q)
  }

  /**
   * The filter handler: narrow the list by status, then by start date, then
   * by end date, skipping each step whose field is empty.
   */
  method FilterBookings(bs: seq<AdminBooking>, q: BookingQuery) returns (filtered: seq<AdminBooking>)
    ensures filtered == Filter(bs, (b: AdminBooking) => MatchesQuery(b, q))
  {
    filtered := bs;
    if q.status != "all" {
      filtered := Filter(filtered, (b: AdminBooking) => b.status == q.status);
    }
    FilterKeepsAll(bs, (b: AdminBooking) => true);
    assert filtered == Filter(bs, (b: AdminBooking) => StatusOk(b, q)) by {
      if q.status == "all" {
        FilterKeepsAll(bs, (b: AdminBooking) => StatusOk(b, q));
      } else {
        FilterFuse(bs, (b: AdminBooking) => true, (b: AdminBooking) => b.status == q.status, (b: AdminBooking) => StatusOk(b, q));
        FilterKeepsAll(bs, (b: AdminBooking) => true);
      }
    }
    if q.from.Some? {
      FilterFuse(bs, (b: AdminBooking) => StatusOk(b, q), (b: AdminBooking) => b.startDate >= q.from.value, (b: AdminBooking) => StatusOk(b, q) && FromOk(b, q));
      filtered := Filter(filtered, (b: AdminBooking) => b.startDate >= q.from.value);
    } else {
      FilterFuse(bs, (b: AdminBooking) => StatusOk(b, q), (b: AdminBooking) => true, (b: AdminBooking) => StatusOk(b, q) && FromOk(b, q));
      FilterKeepsAll(filtered, (b: AdminBooking) => true);
    }
    if q.to.Some? {
      FilterFuse(bs, (b: AdminBooking) => StatusOk(b, q) && FromOk(b, q), (b: AdminBooking) => b.endDate <= q.to.value, (b: AdminBooking) => MatchesQuery(b, q));
      filtered := Filter(filtered, (b: AdminBooking) => b.endDate <= q.to.value);
    } else {
      FilterFuse(bs, (b: AdminBooking) => StatusOk(b, q) && FromOk(b, q), (b: AdminBooking) => true, (b: AdminBooking) => MatchesQuery(b, q));
      FilterKeepsAll(filtered, (b: AdminBooking) => true);
    }
  }

  // ---------------------------------------------------------------------------
  // Item popularity
  // ---------------------------------------------------------------------------

  /** A listed line together with whether its booking is paid or completed. */
  datatype Sale = Sale(line: BookedLine, settled: bool)

  function SaleName(s: Sale): string {
    s.line.name
  }

  function SaleQty(s: Sale): int {
    s.line.qty
  }

  /** What a line adds to its item's revenue: price x qty, with no days factor, when settled. */
  function SaleRevenue(s: Sale): int {
    if s.settled then s.line.pricePerDay * s.line.qty else 0
  }

  function LineQty(l: BookedLine): int {
    l.qty
  }

  function LineRevenue(l: BookedLine): int {
    l.pricePerDay * l.qty
  }

  /** Marking lines settled or not keeps their quantities, and their revenue only when settled. */
  lemma {:induction false} SaleSums(lines: seq<BookedLine>, settled: bool, sales: seq<Sale>)
    requires |sales| == |lines|
    requires forall k :: 0 <= k < |lines| ==> sales[k] == Sale(lines[k], settled)
    ensures SumBy(sales, SaleQty) == SumBy(lines, LineQty)
    ensures SumBy(sales, SaleRevenue) == if settled then SumBy(lines, LineRevenue) else 0
  {
    if lines != [] {
      assert forall k :: 0 <= k < |lines[1..]| ==> sales[1..][k] == Sale(lines[1..][k], settled);
      SaleSums(lines[1..], settled, sales[1..]);
    }
  }

  /**
   * A booking's lines as sales: its quantities all count, its revenue only
   * when the booking is paid or completed.
   */
  function SalesOf(b: AdminBooking): (r: seq<Sale>)
    ensures |r| == |b.items|
    ensures forall k :: 0 <= k < |r| ==> r[k] == Sale(b.items[k], IsSettled(b.status))
    ensures SumBy(r, SaleQty) == SumBy(b.items, LineQty)
    ensures SumBy(r, SaleRevenue) == if IsSettled(b.status) then SumBy(b.items, LineRevenue) else 0
  {
    var r := seq(|b.items|, k requires 0 <= k < |b.items| => Sale(b.items[k], IsSettled(b.status)));
    SaleSums(b.items, IsSettled(b.status), r);
    r
  }

  /**
   * Every line of every booking, in listing order: each line appears marked
   * with its booking's status, and without a paid or completed booking no
   * sale is settled.
   */
  function Sales(bs: seq<AdminBooking>): (r: seq<Sale>)
    ensures forall k, j :: 0 <= k < |bs| && 0 <= j < |bs[k].items| ==>
      Sale(bs[k].items[j], IsSettled(bs[k].status)) in r
    ensures (forall k :: 0 <= k < |bs| ==> !IsSettled(bs[k].status)) ==>
      forall i :: 0 <= i < |r| ==> !r[i].settled
    decreases |bs|
  {
    if bs == [] then []
    else
      var init := bs[..|bs| - 1];
      assert forall k :: 0 <= k < |init| ==> init[k] == bs[k];
      Sales(init) + SalesOf(bs[|bs| - 1])
  }

  /** One more booking appends exactly its own lines, after those of the earlier bookings. */
  lemma SalesAppend(bs: seq<AdminBooking>, b: AdminBooking)
    ensures Sales(bs + [b]) == Sales(bs) + SalesOf(b)
  {
    assert (bs + [b])[..|bs|] == bs;
  }

  function LineCount(b: AdminBooking): int {
    |b.items|
  }

  function BookingQty(b: AdminBooking): int {
    SumBy(b.items, LineQty)
  }

  /** What a booking's lines add to item revenue: price x qty of each, when the booking is settled. */
  function BookingLineRevenue(b: AdminBooking): int {
    if IsSettled(b.status) then SumBy(b.items, LineRevenue) else 0
  }

  /**
   * Every line is listed once: the sales number the lines of all bookings,
   * their quantities add up to all booked quantities, and their revenue to
   * price x qty over the lines of settled bookings.
   */
  lemma {:induction false} SalesTotals(bs: seq<AdminBooking>)
    ensures |Sales(bs)| == SumBy(bs, LineCount)
    ensures SumBy(Sales(bs), SaleQty) == SumBy(bs, BookingQty)
    ensures SumBy(Sales(bs), SaleRevenue) == SumBy(bs, BookingLineRevenue)
  {
    if bs != [] {
      var init, b := bs[..|bs| - 1], bs[|bs| - 1];
      assert bs == init + [b];
      SalesTotals(init);
      SalesAppend(init, b);
      SumByAppend(init, [b], LineCount);
      SumByAppend(init, [b], BookingQty);
      SumByAppend(init, [b], BookingLineRevenue);
      SumByAppend(Sales(init), SalesOf(b), SaleQty);
      SumByAppend(Sales(init), SalesOf(b), SaleRevenue);
    }
  }

  datatype ItemStat = ItemStat(name: string, count: int, qty: int, revenue: int)

  function Count(s: ItemStat): int {
    s.count
  }

  function StatQty(s: ItemStat): int {
    s.qty
  }

  function StatRevenue(s: ItemStat): int {
    s.revenue
  }

  /** The statistics of one item name: its lines, their quantities and their settled revenue. */
  function StatFor(sales: seq<Sale>, name: string): (st: ItemStat)
    ensures st.name == name
    ensures 0 <= st.count <= |sales|
    ensures st.count == 0 <==> forall k :: 0 <= k < |sales| ==> sales[k].line.name != name
    ensures st.count == 0 ==> st.qty == 0 && st.revenue == 0
  {
    HasKeyMeans(SaleName, name);
    var own := Filter(sales, HasKey(SaleName, name));
    ItemStat(name, |own|, SumBy(own, SaleQty), SumBy(own, SaleRevenue))
  }

  /** One entry per name of `names`, in that order; distinct names give distinct entries. */
  function StatsOf(sales: seq<Sale>, names: seq<string>): (r: seq<ItemStat>)
    ensures |r| == |names|
    ensures forall k :: 0 <= k < |names| ==> r[k] == StatFor(sales, names[k])
    ensures forall k :: 0 <= k < |r| ==> r[k].name == names[k]
    ensures Distinct(names) ==> DistinctBy(r, (s: ItemStat) => s.name)
  {
    seq(|names|, k requires 0 <= k < |names| => StatFor(sales, names[k]))
  }

  lemma StatForAppend(sales: seq<Sale>, s: Sale, name: string)
    ensures StatFor(sales + [s], name) ==
      if name != s.line.name then StatFor(sales, name)
      else
        var st := StatFor(sales, name);
        st.(count := st.count + 1, qty := st.qty + s.line.qty, revenue := st.revenue + SaleRevenue(s))
  {
    var p := HasKey(SaleName, name);
    var own := Filter(sales, p);
    FilterAppend(sales, [s], p);
    FilterSingle(s, p);
    HasKeyApply(SaleName, name, s);
    if name == s.line.name {
      assert Filter(sales + [s], p) == own + [s];
      SumByAppend(own, [s], SaleQty);
      SumByAppend(own, [s], SaleRevenue);
      assert SumBy([s], SaleQty) == s.line.qty;
      assert SumBy([s], SaleRevenue) == SaleRevenue(s);
    } else {
      assert Filter(sales + [s], p) == own;
    }
  }

  lemma StatForOfAbsentName(sales: seq<Sale>, name: string)
    requires name !in Keys(sales, SaleName)
    ensures StatFor(sales, name) == ItemStat(name, 0, 0, 0)
  {
    FilterNone(sales, HasKey(SaleName, name));
  }

  /** The Map of `loadReports` after the lines `done`, and its key order. */
  ghost predicate StatsAfter(done: seq<Sale>, table: map<string, ItemStat>, names: seq<string>) {
    && names == Keys(done, SaleName)
    && (forall n :: n in table <==> n in names)
    && (forall n :: n in table ==> table[n] == StatFor(done, n))
  }

  /** The entry a line lands in: the existing one, or a fresh zero entry for its name. */
  function StatBefore(table: map<string, ItemStat>, sale: Sale): ItemStat {
    if sale.line.name in table then table[sale.line.name] else ItemStat(sale.line.name, 0, 0, 0)
  }

  function Tallied(st: ItemStat, sale: Sale): ItemStat {
    st.(count := st.count + 1, qty := st.qty + sale.line.qty, revenue := st.revenue + SaleRevenue(sale))
  }

  lemma StatEntryStep(done: seq<Sale>, sale: Sale, table: map<string, ItemStat>, n: string)
    requires n in table ==> table[n] == StatFor(done, n)
    requires sale.line.name !in table ==> sale.line.name !in Keys(done, SaleName)
    ensures n == sale.line.name ==> Tallied(StatBefore(table, sale), sale) == StatFor(done + [sale], n)
    ensures n != sale.line.name ==> StatFor(done + [sale], n) == StatFor(done, n)
  {
    StatForAppend(done, sale, n);
    if sale.line.name !in table {
      StatForOfAbsentName(done, sale.line.name);
    }
  }

  lemma StatValuesStep(done: seq<Sale>, sale: Sale, table: map<string, ItemStat>, table': map<string, ItemStat>)
    requires forall n :: n in table ==> table[n] == StatFor(done, n)
    requires sale.line.name !in table ==> sale.line.name !in Keys(done, SaleName)
    requires table' == table[sale.line.name := Tallied(StatBefore(table, sale), sale)]
    ensures forall n :: n in table' ==> table'[n] == StatFor(done + [sale], n)
  {
    forall n | n in table' ensures table'[n] == StatFor(done + [sale], n) {
      StatEntryStep(done, sale, table, n);
    }
  }

  lemma PopularityStep(
    done: seq<Sale>, sale: Sale,
    table: map<string, ItemStat>, names: seq<string>,
    table': map<string, ItemStat>, names': seq<string>)
    requires StatsAfter(done, table, names)
    requires names' == if sale.line.name in table then names else names + [sale.line.name]
    requires table' == table[sale.line.name := Tallied(StatBefore(table, sale), sale)]
    ensures StatsAfter(done + [sale], table', names')
  {
    var next := done + [sale];
    assert next[..|next| - 1] == done;
    assert Keys(next, SaleName) == names';
    StatValuesStep(done, sale, table, table');
  }

  /** One turn of the inner popularity loop: open an entry for a new name, then count the line. */
  method AddSale(table: map<string, ItemStat>, names: seq<string>, line: BookedLine, settled: bool)
    returns (table': map<string, ItemStat>, names': seq<string>)
    ensures names' == if line.name in table then names else names + [line.name]
    ensures table' == table[line.name := Tallied(StatBefore(table, Sale(line, settled)), Sale(line, settled))]
  {
    table', names' := table, names;
    if line.name !in table' {
      table' := table'[line.name := ItemStat(line.name, 0, 0, 0)];
      names' := names' + [line.name];
    }
    var st := table'[line.name];
    table' := table'[line.name := st.(count := st.count + 1, qty := st.qty + line.qty,
      revenue := st.revenue + (if settled then line.pricePerDay * line.qty else 0))];
  }

  /** The inner loop of the popularity table: every line of one booking. */
  method TallyBooking(done: seq<Sale>, table: map<string, ItemStat>, names: seq<string>, b: AdminBooking)
    returns (table': map<string, ItemStat>, names': seq<string>)
    requires StatsAfter(done, table, names)
    ensures StatsAfter(done + SalesOf(b), table', names')
  {
    var settled := IsSettled(b.status);
    table', names' := table, names;
    ghost var cur := done;
    for j := 0 to |b.items|
      invariant cur == done + SalesOf(b)[..j]
      invariant StatsAfter(cur, table', names')
    {
      AppendPrefixStep(done, SalesOf(b), j);
      ghost var table0, names0 := table', names';
      table', names' := AddSale(table', names', b.items[j], settled);
      PopularityStep(cur, Sale(b.items[j], settled), table0, names0, table', names');
      cur := cur + [Sale(b.items[j], settled)];
    }
    assert SalesOf(b)[..|b.items|] == SalesOf(b);
  }

  /** The outer loop of the popularity table: the Map after every booking. */
  method TallyAll(bs: seq<AdminBooking>) returns (table: map<string, ItemStat>, names: seq<string>)
    ensures StatsAfter(Sales(bs), table, names)
  {
    table, names := map[], [];
    for i := 0 to |bs|
      invariant StatsAfter(Sales(bs[..i]), table, names)
    {
      PrefixStep(bs, i);
      assert bs[..i + 1][..i] == bs[..i];
      table, names := TallyBooking(Sales(bs[..i]), table, names, bs[i]);
    }
    assert bs[..|bs|] == bs;
  }

  /**
   * The popularity table of `loadReports`: group every line by item name in
   * a Map, then list the entries by decreasing line count (equal counts keep
   * Map order).
   */
  method ItemPopularity(bs: seq<AdminBooking>) returns (stats: seq<ItemStat>)
    ensures stats == SortDesc(StatsOf(Sales(bs), Keys(Sales(bs), SaleName)), Count)
  {
    var table, names := TallyAll(bs);
    var listed := seq(|names|, k requires 0 <= k < |names| => table[names[k]]);
    assert listed == StatsOf(Sales(bs), names);
    stats := SortDesc(listed, Count);
  }

  lemma {:induction false} StatsOfTotals(sales: seq<Sale>, names: seq<string>)
    ensures SumBy(StatsOf(sales, names), Count) == GroupTotal(sales, SaleName, names, Unit)
    ensures SumBy(StatsOf(sales, names), StatQty) == GroupTotal(sales, SaleName, names, SaleQty)
    ensures SumBy(StatsOf(sales, names), StatRevenue) == GroupTotal(sales, SaleName, names, SaleRevenue)
  {
    if names != [] {
      StatsOfTotals(sales, names[1..]);
      assert StatsOf(sales, names)[1..] == StatsOf(sales, names[1..]);
      LengthIsUnitSum(Filter(sales, HasKey(SaleName, names[0])));
    }
  }

  /** The popularity table, as `ItemPopularity` returns it. */
  function Popularity(bs: seq<AdminBooking>): seq<ItemStat> {
    SortDesc(StatsOf(Sales(bs), Keys(Sales(bs), SaleName)), Count)
  }

  /** The popularity table is sorted by decreasing line count and has one entry per item name. */
  lemma PopularitySortedAndDistinct(bs: seq<AdminBooking>)
    ensures SortedDesc(Popularity(bs), Count)
    ensures DistinctBy(Popularity(bs), (s: ItemStat) => s.name)
  {
    var sales := Sales(bs);
    var listed := StatsOf(sales, Keys(sales, SaleName));
    var name := (s: ItemStat) => s.name;
    KeysFacts(sales, SaleName);
    assert DistinctBy(listed, name);
    SortDescDistinct(listed, Count, name);
  }

  /** The table has an entry for `name`. */
  predicate HasStat(stats: seq<ItemStat>, name: string) {
    exists j :: 0 <= j < |stats| && stats[j].name == name
  }

  lemma StatEntries(sales: seq<Sale>, names: seq<string>, stats: seq<ItemStat>)
    requires multiset(stats) == multiset(StatsOf(sales, names))
    ensures forall j :: 0 <= j < |stats| ==> stats[j] == StatFor(sales, stats[j].name)
  {
    var listed := StatsOf(sales, names);
    forall j | 0 <= j < |stats| ensures stats[j] == StatFor(sales, stats[j].name) {
      assert stats[j] in multiset(listed);
    }
  }

  lemma StatsCover(sales: seq<Sale>, names: seq<string>, stats: seq<ItemStat>)
    requires multiset(stats) == multiset(StatsOf(sales, names))
    requires forall k :: 0 <= k < |sales| ==> SaleName(sales[k]) in names
    ensures forall k :: 0 <= k < |sales| ==> HasStat(stats, sales[k].line.name)
  {
    forall k | 0 <= k < |sales| ensures HasStat(stats, sales[k].line.name) {
      assert SaleName(sales[k]) in names;
      StatListed(sales, names, stats, sales[k].line.name);
    }
  }

  lemma StatListed(sales: seq<Sale>, names: seq<string>, stats: seq<ItemStat>, name: string)
    requires multiset(stats) == multiset(StatsOf(sales, names))
    requires name in names
    ensures HasStat(stats, name)
  {
    var listed := StatsOf(sales, names);
    var i :| 0 <= i < |names| && names[i] == name;
    assert listed[i] in multiset(stats);
    var j :| 0 <= j < |stats| && stats[j] == listed[i];
    assert stats[j] == StatFor(sales, names[i]);
  }

  /** Each entry is the statistics of its name, and every line's item name has an entry. */
  lemma PopularityIsGrouping(bs: seq<AdminBooking>)
    ensures forall j :: 0 <= j < |Popularity(bs)| ==> Popularity(bs)[j] == StatFor(Sales(bs), Popularity(bs)[j].name)
    ensures forall k :: 0 <= k < |Sales(bs)| ==> HasStat(Popularity(bs), Sales(bs)[k].line.name)
  {
    var sales := Sales(bs);
    var names := Keys(sales, SaleName);
    KeysFacts(sales, SaleName);
    StatEntries(sales, names, Popularity(bs));
    StatsCover(sales, names, Popularity(bs));
  }

  /**
   * The counts of the popularity table add up to the number of lines, its
   * quantities to the total quantity and its revenues to the settled
   * price x qty of all lines.
   */
  lemma PopularityTotals(bs: seq<AdminBooking>)
    ensures SumBy(Popularity(bs), Count) == |Sales(bs)|
    ensures SumBy(Popularity(bs), StatQty) == SumBy(Sales(bs), SaleQty)
    ensures SumBy(Popularity(bs), StatRevenue) == SumBy(Sales(bs), SaleRevenue)
    ensures SumBy(Popularity(bs), Count) == SumBy(bs, LineCount)
    ensures SumBy(Popularity(bs), StatQty) == SumBy(bs, BookingQty)
    ensures SumBy(Popularity(bs), StatRevenue) == SumBy(bs, BookingLineRevenue)
  {
    SalesTotals(bs);
    var sales := Sales(bs);
    var names := Keys(sales, SaleName);
    var listed := StatsOf(sales, names);
    KeysFacts(sales, SaleName);
    SortDescSum(listed, Count, Count);
    SortDescSum(listed, Count, StatQty);
    SortDescSum(listed, Count, StatRevenue);
    StatsOfTotals(sales, names);
    GroupTotalCovers(sales, SaleName, names, Unit);
    GroupTotalCovers(sales, SaleName, names, SaleQty);
    GroupTotalCovers(sales, SaleName, names, SaleRevenue);
    LengthIsUnitSum(sales);
  }

  // ---------------------------------------------------------------------------
  // Status buttons and badges
  // ---------------------------------------------------------------------------

  datatype Action = MarkPaidAction | CompleteAction | CancelAction

  /** The status each button asks the server to set. */
  function Target(a: Action): string {
    match a
    case MarkPaidAction => Paid
    case CompleteAction => Completed
    case CancelAction => Cancelled
  }

  /** The lifecycle the buttons describe: pay, then complete; cancel while open. */
  predicate IntendedTransition(from: string, to: string) {
    || (from == AwaitingPayment && to == Paid)
    || (from == Paid && to == Completed)
    || ((from == AwaitingPayment || from == Paid) && to == Cancelled)
  }

  /** The buttons of a booking row; the compact dashboard table has no Complete button. */
  function OfferedActions(status: string, compact: bool): (r: set<Action>)
    ensures IsKnown(status) && !compact ==> forall a :: a in r <==> IntendedTransition(status, Target(a))
    ensures compact ==> r == OfferedActions(status, false) - {CompleteAction}
    ensures !IsKnown(status) ==> r == {CancelAction}
  {
    (if status == AwaitingPayment then {MarkPaidAction} else {})
    + (if !compact && status == Paid then {CompleteAction} else {})
    + (if status != Cancelled && status != Completed then {CancelAction} else {})
  }

  datatype Badge = Badge(text: string, cssClass: string)

  /** `getStatusBadge` */
  function StatusBadge(status: string): (b: Badge)
    ensures !IsKnown(status) ==> b == Badge(status, "badge-primary")
  {
    if status == AwaitingPayment then Badge("Awaiting Payment", "badge-warning")
    else if status == Paid then Badge("Paid", "badge-success")
    else if status == Completed then Badge("Completed", "badge-primary")
    else if status == Cancelled then Badge("Cancelled", "badge-danger")
    else Badge(status, "badge-primary")
  }

  /** The four known statuses get four different texts. */
  lemma KnownBadgesDistinct(s1: string, s2: string)
    requires IsKnown(s1) && IsKnown(s2) && s1 != s2
    ensures StatusBadge(s1).text != StatusBadge(s2).text
  {
  }
}
