/** The customer list of `businessService`: the mapping of the
    `get_business_customers` RPC result, and the fallback that builds one
    customer per e-mail address from the business's bookings. */
module Customers {
  import opened Seqs
  import opened Text

  /** The business every fallback and RPC customer is attributed to. */
  const AmiciBusinessId := "24e2799f-60d5-4e3b-bb30-b8049c9ae56d"

  /** `getCurrentBusiness`: the slug is fixed. */
  const CurrentBusiness := "amicicoffee"

  datatype Customer = Customer(
    id: string,
    businessId: string,
    email: string,
    firstName: Option<string>,
    lastName: Option<string>,
    phone: Option<string>,
    totalBookings: int,
    totalSpent: int,
    lastBookingDate: Option<string>,
    createdAt: string,
    updatedAt: string)

  // ---------------------------------------------------------------------
  // RPC result mapping

  datatype RpcCustomer = RpcCustomer(
    customerId: string,
    email: string,
    firstName: Option<string>,
    lastName: Option<string>,
    phone: Option<string>,
    totalBookings: int,
    lastBookingDate: Option<string>,
    createdAt: string)

  function FromRpc(c: RpcCustomer): Customer
  {
    Customer(c.customerId, AmiciBusinessId, c.email, c.firstName, c.lastName, c.phone,
             c.totalBookings, 0, c.lastBookingDate, c.createdAt, c.createdAt)
  }

  /** `(data || []).map(...)`: one customer per RPC row, in order, keyed by
      the row's customer id, attributed to the fixed business, with nothing
      spent and last updated when created. */
  function MapRpcCustomers(data: seq<RpcCustomer>): (r: seq<Customer>)
    ensures |r| == |data|
    ensures forall k :: 0 <= k < |data| ==>
      r[k].id == data[k].customerId && r[k].email == data[k].email
      && r[k].businessId == AmiciBusinessId && r[k].totalSpent == 0
      && r[k].totalBookings == data[k].totalBookings && r[k].updatedAt == data[k].createdAt
      && r[k].createdAt == data[k].createdAt && r[k].lastBookingDate == data[k].lastBookingDate
  {
    seq(|data|, k requires 0 <= k < |data| => FromRpc(data[k]))
  }

  // ---------------------------------------------------------------------
  // Fallback grouping

  /** The columns the fallback selects from `bookings`. */
  datatype BookingRow = BookingRow(
    customerEmail: string,
    customerName: string,
    customerPhone: Option<string>,
    bookingDate: string)

  /** The e-mail column of the rows, in order. */
  function Emails(rows: seq<BookingRow>): seq<string>
  {
    seq(|rows|, k requires 0 <= k < |rows| => rows[k].customerEmail)
  }

  lemma EmailsSnoc(prefix: seq<BookingRow>, row: BookingRow)
    ensures Emails(prefix + [row]) == Emails(prefix) + [row.customerEmail]
  {
  }

  /** Index of the first row for `e`. */
  function FirstIndex(rows: seq<BookingRow>, e: string): (k: nat)
    requires e in Emails(rows)
    ensures k < |rows| && rows[k].customerEmail == e
    ensures forall j :: 0 <= j < k ==> rows[j].customerEmail != e
  {
    var init := rows[..|rows| - 1];
    assert rows == init + [rows[|rows| - 1]];
    EmailsSnoc(init, rows[|rows| - 1]);
    assert forall j :: 0 <= j < |init| ==> Emails(init)[j] == rows[j].customerEmail;
    if e in Emails(init) then FirstIndex(init, e) else |rows| - 1
  }

  /** Latest booking date of `e` by string comparison (`""` before any). */
  function LatestDate(rows: seq<BookingRow>, e: string): string
  {
    if rows == [] then ""
    else
      var d := LatestDate(rows[..|rows| - 1], e);
      var last := rows[|rows| - 1];
      if last.customerEmail == e && StrLt(d, last.bookingDate) then last.bookingDate else d
  }

  /** The entry for the address of `first`, its first row: names split
      from that row's `customer_name`, `count` bookings, latest `date`. */
  function Entry(first: BookingRow, count: int, date: string, now: string): Customer
  {
    var parts := Split(first.customerName, ' ');
    Customer("fallback-" + first.customerEmail, AmiciBusinessId, first.customerEmail,
             OrNone(parts[0]), OrNone(Join(parts[1..], ' ')),
             first.customerPhone, count, 0, Some(date), now, now)
  }

  /** The customer the fallback reports for `e`. */
  function CustomerFor(rows: seq<BookingRow>, e: string, now: string): Customer
    requires e in Emails(rows)
  {
    Entry(rows[FirstIndex(rows, e)], Count(Emails(rows), e), LatestDate(rows, e), now)
  }

  /** The entry created for the first row of an address. */
  function NewEntry(row: BookingRow, now: string): Customer
  {
    Entry(row, 1, row.bookingDate, now)
  }

  /** `customerMap` and its insertion `order` hold one entry per address
      of `rows`, the one the fallback reports for it. */
  ghost predicate Grouped(rows: seq<BookingRow>, now: string, customerMap: map<string, Customer>, order: seq<string>)
  {
    order == Distinct(Emails(rows)) && KeysMatch(customerMap, order) && EntriesMatch(rows, now, customerMap)
  }

  /** The map's keys are the addresses listed in `order`. */
  ghost predicate KeysMatch(customerMap: map<string, Customer>, order: seq<string>)
  {
    forall e :: e in customerMap <==> e in order
  }

  /** Every entry is the customer reported for its address. */
  ghost predicate EntriesMatch(rows: seq<BookingRow>, now: string, customerMap: map<string, Customer>)
  {
    forall e :: e in customerMap ==> e in Emails(rows) && customerMap[e] == CustomerFor(rows, e, now)
  }

  /** The entry after a later row for its address: one more booking, and
      that row's date when it is later. */
  function Bump(c: Customer, row: BookingRow): Customer
    requires c.lastBookingDate.Some?
  {
    var c1 := c.(totalBookings := c.totalBookings + 1);
    if StrLt(c.lastBookingDate.value, row.bookingDate) then c1.(lastBookingDate := Some(row.bookingDate)) else c1
  }

  lemma BumpEntry(first: BookingRow, count: int, date: string, now: string, row: BookingRow)
    ensures Entry(first, count, date, now).lastBookingDate.Some?
    ensures Bump(Entry(first, count, date, now), row)
      == Entry(first, count + 1, if StrLt(date, row.bookingDate) then row.bookingDate else date, now)
  {
  }

  /** One more row appends its address to the e-mail column and, when
      new, to the first-occurrence order. */
  lemma StepShape(prefix: seq<BookingRow>, row: BookingRow)
    ensures Emails(prefix + [row]) == Emails(prefix) + [row.customerEmail]
    ensures Distinct(Emails(prefix + [row])) ==
      if row.customerEmail in Emails(prefix) then Distinct(Emails(prefix))
      else Distinct(Emails(prefix)) + [row.customerEmail]
  {
    EmailsSnoc(prefix, row);
    assert (prefix + [row])[..|prefix|] == prefix;
    DistinctSpec(Emails(prefix));
  }

  /** A row leaves the entries of other addresses alone. */
  lemma StepOther(prefix: seq<BookingRow>, row: BookingRow, now: string, e: string)
    requires e in Emails(prefix) && e != row.customerEmail
    ensures e in Emails(prefix + [row])
    ensures CustomerFor(prefix + [row], e, now) == CustomerFor(prefix, e, now)
  {
    EmailsSnoc(prefix, row);
    assert (prefix + [row])[..|prefix|] == prefix;
  }

  /** The first row of an address creates its entry. */
  lemma StepNew(prefix: seq<BookingRow>, row: BookingRow, now: string)
    requires row.customerEmail !in Emails(prefix)
    ensures row.customerEmail in Emails(prefix + [row])
    ensures CustomerFor(prefix + [row], row.customerEmail, now) == NewEntry(row, now)
  {
    EmailsSnoc(prefix, row);
    assert (prefix + [row])[..|prefix|] == prefix;
    CountPositive(Emails(prefix), row.customerEmail);
    LatestDateAbsent(prefix, row.customerEmail);
    StrLtTotal("", row.bookingDate);
  }

  /** A later row of an address bumps its entry. */
  lemma StepSame(prefix: seq<BookingRow>, row: BookingRow, now: string)
    requires row.customerEmail in Emails(prefix)
    ensures row.customerEmail in Emails(prefix + [row])
    ensures CustomerFor(prefix, row.customerEmail, now).lastBookingDate.Some?
    ensures CustomerFor(prefix + [row], row.customerEmail, now)
      == Bump(CustomerFor(prefix, row.customerEmail, now), row)
  {
    EmailsSnoc(prefix, row);
    var next := prefix + [row];
    var e := row.customerEmail;
    assert next[..|next| - 1] == prefix;
    var k := FirstIndex(prefix, e);
    assert FirstIndex(next, e) == k;
    assert next[k] == prefix[k];
    assert Emails(next) == Emails(prefix) + [e];
    assert Emails(next)[..|Emails(next)| - 1] == Emails(prefix);
    assert Count(Emails(next), e) == Count(Emails(prefix), e) + 1;
    var d := LatestDate(prefix, e);
    assert LatestDate(next, e) == if StrLt(d, row.bookingDate) then row.bookingDate else d;
    BumpEntry(prefix[k], Count(Emails(prefix), e), d, now, row);
  }

  /** No rows: no customers. */
  lemma GroupedEmpty(rows: seq<BookingRow>, now: string)
    ensures Grouped(rows[..0], now, map[], [])
  {
    assert rows[..0] == [];
    assert Emails([]) == [];
  }

  /** `GroupedInsert` and `GroupedUpdate` for the prefix `rows[..i]`. */
  lemma GroupedInsertAt(rows: seq<BookingRow>, i: nat, now: string, customerMap: map<string, Customer>, order: seq<string>)
    requires i < |rows| && Grouped(rows[..i], now, customerMap, order)
    requires rows[i].customerEmail !in customerMap
    ensures Grouped(rows[..i + 1], now, customerMap[rows[i].customerEmail := NewEntry(rows[i], now)],
                    order + [rows[i].customerEmail])
  {
    assert rows[..i + 1] == rows[..i] + [rows[i]];
    GroupedInsert(rows[..i], rows[i], now, customerMap, order);
  }

  lemma GroupedUpdateAt(rows: seq<BookingRow>, i: nat, now: string, customerMap: map<string, Customer>, order: seq<string>)
    requires i < |rows| && Grouped(rows[..i], now, customerMap, order)
    requires rows[i].customerEmail in customerMap
    ensures customerMap[rows[i].customerEmail].lastBookingDate.Some?
    ensures Grouped(rows[..i + 1], now,
                    customerMap[rows[i].customerEmail := Bump(customerMap[rows[i].customerEmail], rows[i])], order)
  {
    assert rows[..i + 1] == rows[..i] + [rows[i]];
    GroupedUpdate(rows[..i], rows[i], now, customerMap, order);
  }

  /** A row with a new address adds its entry at the end of the order. */
  lemma GroupedInsert(prefix: seq<BookingRow>, row: BookingRow, now: string, customerMap: map<string, Customer>, order: seq<string>)
    requires Grouped(prefix, now, customerMap, order)
    requires row.customerEmail !in customerMap
    ensures Grouped(prefix + [row], now, customerMap[row.customerEmail := NewEntry(row, now)], order + [row.customerEmail])
  {
    DistinctSpec(Emails(prefix));
    assert row.customerEmail !in Emails(prefix);
    StepShape(prefix, row);
    InsertedEntries(prefix, row, now, customerMap);
    var after := customerMap[row.customerEmail := NewEntry(row, now)];
    forall e ensures e in after <==> e in order + [row.customerEmail] {
      assert e in order + [row.customerEmail] <==> e in order || e == row.customerEmail;
    }
  }

  lemma InsertedEntries(prefix: seq<BookingRow>, row: BookingRow, now: string, customerMap: map<string, Customer>)
    requires row.customerEmail !in Emails(prefix)
    requires EntriesMatch(prefix, now, customerMap)
    ensures EntriesMatch(prefix + [row], now, customerMap[row.customerEmail := NewEntry(row, now)])
  {
    var next := prefix + [row];
    StepNew(prefix, row, now);
    var after := customerMap[row.customerEmail := NewEntry(row, now)];
    forall e | e in after ensures e in Emails(next) && after[e] == CustomerFor(next, e, now) {
      if e != row.customerEmail {
        assert e in customerMap;
        StepOther(prefix, row, now, e);
      }
    }
  }

  /** A later row for a known address updates that entry in place. */
  lemma GroupedUpdate(prefix: seq<BookingRow>, row: BookingRow, now: string, customerMap: map<string, Customer>, order: seq<string>)
    requires Grouped(prefix, now, customerMap, order)
    requires row.customerEmail in customerMap
    ensures customerMap[row.customerEmail].lastBookingDate.Some?
    ensures Grouped(prefix + [row], now, customerMap[row.customerEmail := Bump(customerMap[row.customerEmail], row)], order)
  {
    assert row.customerEmail in Emails(prefix);
    StepShape(prefix, row);
    UpdatedEntries(prefix, row, now, customerMap);
  }

  lemma UpdatedEntries(prefix: seq<BookingRow>, row: BookingRow, now: string, customerMap: map<string, Customer>)
    requires row.customerEmail in customerMap
    requires EntriesMatch(prefix, now, customerMap)
    ensures customerMap[row.customerEmail].lastBookingDate.Some?
    ensures EntriesMatch(prefix + [row], now, customerMap[row.customerEmail := Bump(customerMap[row.customerEmail], row)])
  {
    var next := prefix + [row];
    StepSame(prefix, row, now);
    var after := customerMap[row.customerEmail := Bump(customerMap[row.customerEmail], row)];
    forall e | e in after ensures e in Emails(next) && after[e] == CustomerFor(next, e, now) {
      if e != row.customerEmail {
        assert e in customerMap;
        StepOther(prefix, row, now, e);
      }
    }
  }

  /** The `customerMap.forEach` loop of `fetchCustomersFallback`: the map is
      keyed by e-mail, an entry is created at the first row for that address
      and updated in place by later ones; `order` is the map's insertion
      order. `now` is the time stamp `new Date()` would give. */
  method BuildCustomerMap(rows: seq<BookingRow>, now: string)
    returns (customerMap: map<string, Customer>, order: seq<string>)
    ensures Grouped(rows, now, customerMap, order)
  {
    customerMap := map[];
    order := [];
    var i := 0;
    GroupedEmpty(rows, now);
    while i < |rows|
      invariant 0 <= i <= |rows|
      invariant Grouped(rows[..i], now, customerMap, order)
    {
      var booking := rows[i];
      if booking.customerEmail !in customerMap {
        GroupedInsertAt(rows, i, now, customerMap, order);
        customerMap := customerMap[booking.customerEmail := NewEntry(booking, now)];
        order := order + [booking.customerEmail];
      } else {
        GroupedUpdateAt(rows, i, now, customerMap, order);
        var customer := customerMap[booking.customerEmail];
        ghost var previous := customer;
        customer := customer.(totalBookings := customer.totalBookings + 1);
        if StrLt(customer.lastBookingDate.value, booking.bookingDate) {
          customer := customer.(lastBookingDate := Some(booking.bookingDate));
        }
        assert customer == Bump(previous, booking);
        customerMap := customerMap[booking.customerEmail := customer];
      }
      i := i + 1;
    }
    assert rows[..i] == rows;
  }

  /** `fetchCustomersFallback` after its query: the map's values in
      insertion order (`Array.from(customerMap.values())`). */
  method GroupCustomers(rows: seq<BookingRow>, now: string) returns (customers: seq<Customer>)
    ensures |customers| == |Distinct(Emails(rows))|
    ensures forall k :: 0 <= k < |customers| ==>
      Distinct(Emails(rows))[k] in Emails(rows)
      && customers[k] == CustomerFor(rows, Distinct(Emails(rows))[k], now)
  {
    var customerMap, order := BuildCustomerMap(rows, now);
    GroupedOrder(rows, now, customerMap, order);
    customers := ValuesInOrder(customerMap, order);
    forall k | 0 <= k < |customers|
      ensures order[k] in Emails(rows) && customers[k] == CustomerFor(rows, order[k], now)
    {
      GroupedLookup(rows, now, customerMap, order, k);
    }
  }

  /** `Array.from(customerMap.values())`: the entries in the order their
      keys were first inserted. */
  method ValuesInOrder(customerMap: map<string, Customer>, order: seq<string>) returns (values: seq<Customer>)
    requires forall e :: e in order ==> e in customerMap
    ensures |values| == |order|
    ensures forall j :: 0 <= j < |order| ==> values[j] == customerMap[order[j]]
  {
    values := [];
    var k := 0;
    while k < |order|
      invariant 0 <= k <= |order|
      invariant |values| == k
      invariant forall j :: 0 <= j < k ==> values[j] == customerMap[order[j]]
    {
      values := values + [customerMap[order[k]]];
      k := k + 1;
    }
  }

  lemma GroupedOrder(rows: seq<BookingRow>, now: string, customerMap: map<string, Customer>, order: seq<string>)
    requires Grouped(rows, now, customerMap, order)
    ensures order == Distinct(Emails(rows))
    ensures forall e :: e in order ==> e in customerMap
  {
  }

  /** Looking an address of `order` up in a grouped map gives its customer. */
  lemma GroupedLookup(rows: seq<BookingRow>, now: string, customerMap: map<string, Customer>,
                      order: seq<string>, k: nat)
    requires Grouped(rows, now, customerMap, order) && k < |order|
    ensures order[k] in customerMap && order[k] in Emails(rows)
    ensures customerMap[order[k]] == CustomerFor(rows, order[k], now)
  {
  }

  /** An address with no rows has the empty latest date. */
  lemma {:induction false} LatestDateAbsent(rows: seq<BookingRow>, e: string)
    requires e !in Emails(rows)
    ensures LatestDate(rows, e) == ""
  {
    if rows != [] {
      var init := rows[..|rows| - 1];
      assert Emails(rows) == Emails(init) + [rows[|rows| - 1].customerEmail];
      LatestDateAbsent(init, e);
    }
  }

  // ---------------------------------------------------------------------
  // Properties of the grouping

  /** The latest date of an address is one of its rows' dates, and no row
      of that address has a later one. */
  lemma {:induction false} LatestDateSpec(rows: seq<BookingRow>, e: string)
    requires e in Emails(rows)
    ensures exists k :: 0 <= k < |rows| && rows[k].customerEmail == e && rows[k].bookingDate == LatestDate(rows, e)
    ensures forall k :: 0 <= k < |rows| && rows[k].customerEmail == e ==> !StrLt(LatestDate(rows, e), rows[k].bookingDate)
  {
    var init := rows[..|rows| - 1];
    var last := rows[|rows| - 1];
    assert rows == init + [last];
    EmailsSnoc(init, last);
    var d := LatestDate(init, e);
    if e in Emails(init) {
      LatestDateSpec(init, e);
      var w :| 0 <= w < |init| && init[w].customerEmail == e && init[w].bookingDate == d;
      if last.customerEmail == e && StrLt(d, last.bookingDate) {
        assert rows[|rows| - 1].bookingDate == LatestDate(rows, e);
        forall k | 0 <= k < |rows| && rows[k].customerEmail == e
          ensures !StrLt(LatestDate(rows, e), rows[k].bookingDate)
        {
          if k < |rows| - 1 {
            assert init[k] == rows[k];
            StrLtAsymmetric(d, last.bookingDate);
            if StrLt(last.bookingDate, rows[k].bookingDate) {
              StrLtTransitive(d, last.bookingDate, rows[k].bookingDate);
            }
          } else {
            StrLtIrreflexive(last.bookingDate);
          }
        }
      } else {
        assert rows[w] == init[w];
        forall k | 0 <= k < |rows| && rows[k].customerEmail == e
          ensures !StrLt(LatestDate(rows, e), rows[k].bookingDate)
        {
          if k < |rows| - 1 {
            assert init[k] == rows[k];
          }
        }
      }
    } else {
      LatestDateAbsent(init, e);
      assert last.customerEmail == e;
      StrLtTotal("", last.bookingDate);
      assert rows[|rows| - 1].bookingDate == LatestDate(rows, e);
      assert forall k :: 0 <= k < |rows| - 1 ==> rows[k].customerEmail == Emails(init)[k];
      StrLtIrreflexive(last.bookingDate);
    }
  }

  /** Sum of the booking counts of a customer list. */
  function TotalBookings(cs: seq<Customer>): int
  {
    if cs == [] then 0 else TotalBookings(cs[..|cs| - 1]) + cs[|cs| - 1].totalBookings
  }

  lemma {:induction false} TotalBookingsOfCounts(cs: seq<Customer>, keys: seq<string>, xs: seq<string>)
    requires |cs| == |keys|
    requires forall k :: 0 <= k < |cs| ==> cs[k].totalBookings == Count(xs, keys[k])
    ensures TotalBookings(cs) == SumCounts(keys, xs)
  {
    if cs != [] {
      TotalBookingsOfCounts(cs[..|cs| - 1], keys[..|keys| - 1], xs);
    }
  }

  /** The addresses of a customer list, in order. */
  function EmailsOf(cs: seq<Customer>): (r: seq<string>)
    ensures |r| == |cs| && forall k :: 0 <= k < |cs| ==> r[k] == cs[k].email
  {
    seq(|cs|, k requires 0 <= k < |cs| => cs[k].email)
  }

  /** The grouping's shape: exactly one customer per distinct address of
      the rows, in order of first occurrence. */
  lemma GroupingAddresses(rows: seq<BookingRow>, now: string, customers: seq<Customer>)
    requires |customers| == |Distinct(Emails(rows))|
    requires forall k :: 0 <= k < |customers| ==>
      Distinct(Emails(rows))[k] in Emails(rows)
      && customers[k] == CustomerFor(rows, Distinct(Emails(rows))[k], now)
    ensures EmailsOf(customers) == Distinct(Emails(rows))
    ensures forall e :: e in EmailsOf(customers) <==> e in Emails(rows)
    ensures NoDuplicates(EmailsOf(customers))
  {
    DistinctSpec(Emails(rows));
    assert EmailsOf(customers) == Distinct(Emails(rows));
  }

  /** Each customer carries the fixed business id, nothing spent, the
      number of rows with its address, the phone of its first row, and a
      last booking date no row of that address exceeds. */
  lemma GroupingEntries(rows: seq<BookingRow>, now: string, customers: seq<Customer>)
    requires |customers| == |Distinct(Emails(rows))|
    requires forall k :: 0 <= k < |customers| ==>
      Distinct(Emails(rows))[k] in Emails(rows)
      && customers[k] == CustomerFor(rows, Distinct(Emails(rows))[k], now)
    ensures forall k :: 0 <= k < |customers| ==>
      customers[k].email in Emails(rows)
      && customers[k].businessId == AmiciBusinessId && customers[k].totalSpent == 0
      && customers[k].totalBookings == Count(Emails(rows), customers[k].email)
      && customers[k].phone == rows[FirstIndex(rows, customers[k].email)].customerPhone
      && customers[k].lastBookingDate.Some?
      && (exists j :: 0 <= j < |rows| && rows[j].customerEmail == customers[k].email
           && rows[j].bookingDate == customers[k].lastBookingDate.value)
      && forall j :: 0 <= j < |rows| && rows[j].customerEmail == customers[k].email ==>
           !StrLt(customers[k].lastBookingDate.value, rows[j].bookingDate)
  {
    forall k | 0 <= k < |customers| {
      LatestDateSpec(rows, Distinct(Emails(rows))[k]);
    }
  }

  /** The text of an optional name part, `""` when absent. */
  function PartText(o: Option<string>): string
  {
    if o.Some? then o.value else ""
  }

  /** The names of an entry come from splitting its first row's
      `customer_name` at the first space: a first name is never empty and
      holds no space; with a space in the name, first and last name joined
      by a space give the name back; without one, the whole name is the
      first name and there is no last name. */
  lemma EntryNames(first: BookingRow, count: int, date: string, now: string)
    ensures var c := Entry(first, count, date, now);
      (c.firstName.Some? ==> c.firstName.value != "" && ' ' !in c.firstName.value)
      && (c.lastName.Some? ==> c.lastName.value != "")
      && (' ' in first.customerName ==>
            PartText(c.firstName) + " " + PartText(c.lastName) == first.customerName)
      && (' ' !in first.customerName ==>
            c.firstName == OrNone(first.customerName) && c.lastName.None?)
  {
    HeadAndRest(first.customerName, ' ');
  }

  /** For the grouping: every customer's names are those of the first row
      with its address. */
  lemma GroupingNames(rows: seq<BookingRow>, now: string, customers: seq<Customer>, k: nat)
    requires |customers| == |Distinct(Emails(rows))|
    requires forall k :: 0 <= k < |customers| ==>
      Distinct(Emails(rows))[k] in Emails(rows)
      && customers[k] == CustomerFor(rows, Distinct(Emails(rows))[k], now)
    requires k < |customers|
    ensures var c := customers[k];
      var name := rows[FirstIndex(rows, Distinct(Emails(rows))[k])].customerName;
      c.email == Distinct(Emails(rows))[k]
      && (c.firstName.Some? ==> c.firstName.value != "" && ' ' !in c.firstName.value)
      && (' ' in name ==> PartText(c.firstName) + " " + PartText(c.lastName) == name)
      && (' ' !in name ==> c.firstName == OrNone(name) && c.lastName.None?)
  {
    var e := Distinct(Emails(rows))[k];
    EntryNames(rows[FirstIndex(rows, e)], Count(Emails(rows), e), LatestDate(rows, e), now);
  }

  /** The booking counts of the grouping add up to the number of rows. */
  lemma GroupingTotal(rows: seq<BookingRow>, now: string, customers: seq<Customer>)
    requires |customers| == |Distinct(Emails(rows))|
    requires forall k :: 0 <= k < |customers| ==>
      Distinct(Emails(rows))[k] in Emails(rows)
      && customers[k] == CustomerFor(rows, Distinct(Emails(rows))[k], now)
    ensures TotalBookings(customers) == |rows|
  {
    TotalBookingsOfCounts(customers, Distinct(Emails(rows)), Emails(rows));
    SumOfDistinctCounts(Emails(rows));
  }
}
