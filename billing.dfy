/** Bill reconciliation: the live bill of one customer for the selected month
    against the last settlement snapshot, the payment checks of the bill
    page, and the counts and totals of the bill page and the summary cards.
    `calculateBillStatus` exists as two identical copies (app/Bill/page.js
    and app/components/Summary.js); one function models both. */
module Billing {
  import opened Wrappers
  import opened Records
  import opened Calendar
  import opened Aggregates
  import opened Sequences

  datatype BillStatus = BillStatus(
    totalBill: real,
    paid: real,
    remaining: real,
    isSettled: bool,
    hasNewCharges: bool,
    originalTotal: real,
    newCharges: real)

  /** `deliveryData[customer._id]?.totalDelivered ?? 0` */
  function DeliveredCount(c: Customer, deliveryData: map<nat, DeliveryRow>): nat {
    if c.id in deliveryData then deliveryData[c.id].totalDelivered else 0
  }

  /** What the customer owes when `paid` has been paid against `total`. */
  function Owed(total: real, paid: real): real {
    if total - paid > 0.0 then total - paid else 0.0
  }

  /** `calculateBillStatus`.  `settledBills` maps a customer name to the
      snapshot fetched for the selected owner, month and year. */
  function CalculateBillStatus(c: Customer, deliveryData: map<nat, DeliveryRow>, extraMap: map<string, real>, settledBills: map<string, Bill>): (r: BillStatus)
    ensures r.totalBill == c.price * c.quantity * (DeliveredCount(c, deliveryData) as real) + c.price * LookupQuantity(extraMap, c.name)
  {
    var baseAmount := c.price * c.quantity * (DeliveredCount(c, deliveryData) as real);
    var extraAmount := if c.name in extraMap && extraMap[c.name] != 0.0 then extraMap[c.name] * c.price else 0.0;
    var currentTotalBill := baseAmount + extraAmount;
    if c.name !in settledBills then
      BillStatus(currentTotalBill, 0.0, currentTotalBill, currentTotalBill == 0.0, false, 0.0, 0.0)
    else
      var existing := settledBills[c.name];
      if currentTotalBill > existing.total then
        var newCharges := currentTotalBill - existing.total;
        BillStatus(currentTotalBill, existing.paid, existing.remaining + newCharges, false, true, existing.total, newCharges)
      else
        var remaining := if 0.0 > currentTotalBill - existing.paid then 0.0 else currentTotalBill - existing.paid;
        BillStatus(currentTotalBill, existing.paid, remaining, remaining <= 0.0, false, existing.total, 0.0)
  }

  /** Without a snapshot nothing has been paid and everything is owed. */
  lemma NoSnapshotStatus(c: Customer, deliveryData: map<nat, DeliveryRow>, extraMap: map<string, real>, settledBills: map<string, Bill>)
    requires c.name !in settledBills
    ensures var r := CalculateBillStatus(c, deliveryData, extraMap, settledBills);
            && r.paid == 0.0 && r.remaining == r.totalBill
            && !r.hasNewCharges && r.newCharges == 0.0 && r.originalTotal == 0.0
            && (r.isSettled <==> r.totalBill == 0.0)
  {
  }

  /** New charges appear exactly when the live total exceeds the snapshot's
      total; they are the difference, they are added to what was still owed,
      the amount paid is kept, and the bill is open again. */
  lemma NewChargesStatus(c: Customer, deliveryData: map<nat, DeliveryRow>, extraMap: map<string, real>, settledBills: map<string, Bill>)
    ensures var r := CalculateBillStatus(c, deliveryData, extraMap, settledBills);
            && (r.hasNewCharges <==> c.name in settledBills && r.totalBill > settledBills[c.name].total)
            && (r.hasNewCharges <==> r.newCharges > 0.0)
            && (r.hasNewCharges ==>
                  && r.newCharges == r.totalBill - settledBills[c.name].total
                  && r.originalTotal == settledBills[c.name].total
                  && r.remaining == settledBills[c.name].remaining + r.newCharges
                  && r.paid == settledBills[c.name].paid
                  && !r.isSettled)
  {
  }

  /** Non-negative prices, quantities and extras give a non-negative bill. */
  lemma LiveTotalNonNegative(c: Customer, deliveryData: map<nat, DeliveryRow>, extraMap: map<string, real>, settledBills: map<string, Bill>)
    requires c.price >= 0.0 && c.quantity >= 0.0 && LookupQuantity(extraMap, c.name) >= 0.0
    ensures CalculateBillStatus(c, deliveryData, extraMap, settledBills).totalBill >= 0.0
  {
    assert c.price * c.quantity >= 0.0;
    assert c.price * c.quantity * (DeliveredCount(c, deliveryData) as real) >= 0.0;
    assert c.price * LookupQuantity(extraMap, c.name) >= 0.0;
  }

  /** With non-negative prices, quantities and extras and a snapshot that
      passed the schema, nothing negative is ever owed, and a bill is settled
      exactly when nothing is owed. */
  lemma RemainingNeverNegative(c: Customer, deliveryData: map<nat, DeliveryRow>, extraMap: map<string, real>, settledBills: map<string, Bill>)
    requires c.price >= 0.0 && c.quantity >= 0.0 && LookupQuantity(extraMap, c.name) >= 0.0
    requires c.name in settledBills ==> BillSchemaValid(settledBills[c.name])
    ensures var r := CalculateBillStatus(c, deliveryData, extraMap, settledBills);
            r.remaining >= 0.0 && (r.isSettled <==> r.remaining == 0.0)
  {
    LiveTotalNonNegative(c, deliveryData, extraMap, settledBills);
  }

  /** When the snapshot is balanced (its remaining is its total minus its
      paid, as every snapshot the settlement route updates is), all three
      branches agree: what remains is what is still owed on the live total,
      and the bill is settled exactly when the payments cover it. */
  lemma RemainingIsOwed(c: Customer, deliveryData: map<nat, DeliveryRow>, extraMap: map<string, real>, settledBills: map<string, Bill>)
    requires c.price >= 0.0 && c.quantity >= 0.0 && LookupQuantity(extraMap, c.name) >= 0.0
    requires c.name in settledBills ==> BillSchemaValid(settledBills[c.name]) && Balanced(settledBills[c.name])
    ensures var r := CalculateBillStatus(c, deliveryData, extraMap, settledBills);
            r.remaining == Owed(r.totalBill, r.paid) && (r.isSettled <==> r.paid >= r.totalBill)
  {
    LiveTotalNonNegative(c, deliveryData, extraMap, settledBills);
  }

  /** With a snapshot and no new charges, what remains is what is still
      owed on the live total, whatever the snapshot holds. */
  lemma NoNewChargesOwed(c: Customer, deliveryData: map<nat, DeliveryRow>, extraMap: map<string, real>, settledBills: map<string, Bill>)
    requires c.name in settledBills
    requires CalculateBillStatus(c, deliveryData, extraMap, settledBills).totalBill <= settledBills[c.name].total
    ensures var r := CalculateBillStatus(c, deliveryData, extraMap, settledBills);
            && r.paid == settledBills[c.name].paid && !r.hasNewCharges
            && r.remaining == Owed(r.totalBill, r.paid) && (r.isSettled <==> r.paid >= r.totalBill)
  {
  }

  // ---------------------------------------------------------------------
  // Payment checks of the bill page

  datatype PaymentRejection = NothingToSettle | ExceedsRemaining | NotPositive

  /** `handleSettleBill` up to the request it posts: no customer selected or
      an empty amount field does nothing; an amount above what remains, or
      not above zero, is refused; otherwise the request carries the live
      total, the new paid amount and the new remaining amount.  `amount` is
      `None` for the empty field and `Some(Number(paidAmount))` otherwise. */
  function HandleSettleBill(selected: Option<Customer>, amount: Option<real>, ownerEmail: string, month: int, year: int,
                            deliveryData: map<nat, DeliveryRow>, extraMap: map<string, real>, settledBills: map<string, Bill>): (r: Result<SettleRequest, PaymentRejection>)
    ensures (selected.None? || amount.None?) <==> r == Err(NothingToSettle)
    ensures r.Ok? ==>
              var st := CalculateBillStatus(selected.value, deliveryData, extraMap, settledBills);
              && 0.0 < amount.value <= st.remaining
              && r.value.paid == st.paid + amount.value > st.paid
              && r.value.remaining >= 0.0
              && r.value.paid + r.value.remaining == st.paid + st.remaining
              && r.value == SettleRequest(selected.value.name, ownerEmail, month, year, st.totalBill, r.value.paid, r.value.remaining)
    ensures selected.Some? && amount.Some? ==>
              var st := CalculateBillStatus(selected.value, deliveryData, extraMap, settledBills);
              && (r == Err(ExceedsRemaining) <==> amount.value > st.remaining)
              && (r == Err(NotPositive) <==> amount.value <= st.remaining && amount.value <= 0.0)
  {
    if selected.None? || amount.None? then Err(NothingToSettle)
    else
      var st := CalculateBillStatus(selected.value, deliveryData, extraMap, settledBills);
      if amount.value > st.remaining then Err(ExceedsRemaining)
      else if amount.value <= 0.0 then Err(NotPositive)
      else
        Ok(SettleRequest(selected.value.name, ownerEmail, month, year, st.totalBill, st.paid + amount.value, st.remaining - amount.value))
  }

  // ---------------------------------------------------------------------
  // Views, counts and totals

  /** `toLowerCase` on the ASCII letters. */
  function LowerChar(ch: char): char {
    if 'A' <= ch <= 'Z' then (ch as int + 32) as char else ch
  }

  function Lower(s: string): (r: string)
    ensures |r| == |s| && forall i :: 0 <= i < |s| ==> r[i] == LowerChar(s[i])
  {
    seq(|s|, i requires 0 <= i < |s| => LowerChar(s[i]))
  }

  /** `q` occurs in `s` starting at position `i`. */
  predicate OccursAt(s: string, q: string, i: int) {
    0 <= i && i + |q| <= |s| && s[i..i + |q|] == q
  }

  /** `s.includes(q)`. */
  predicate Includes(s: string, q: string) {
    exists i :: 0 <= i <= |s| - |q| && OccursAt(s, q, i)
  }

  predicate MatchesSearch(c: Customer, query: string) {
    Includes(Lower(c.name), Lower(query))
  }

  datatype ViewMode = UnsettledView | SettledView

  predicate InView(mode: ViewMode, c: Customer, query: string, deliveryData: map<nat, DeliveryRow>, extraMap: map<string, real>, settledBills: map<string, Bill>) {
    var st := CalculateBillStatus(c, deliveryData, extraMap, settledBills);
    MatchesSearch(c, query) && st.totalBill > 0.0 && (if mode == UnsettledView then !st.isSettled else st.isSettled)
  }

  /** `filteredCustomers` of the bill page. */
  function FilteredCustomers(mode: ViewMode, customers: seq<Customer>, query: string, deliveryData: map<nat, DeliveryRow>, extraMap: map<string, real>, settledBills: map<string, Bill>): seq<Customer> {
    Filter(customers, (c: Customer) => InView(mode, c, query, deliveryData, extraMap, settledBills))
  }

  /** The customers either view can show: matching the search, with a bill. */
  function Billable(customers: seq<Customer>, query: string, deliveryData: map<nat, DeliveryRow>, extraMap: map<string, real>, settledBills: map<string, Bill>): seq<Customer> {
    Filter(customers, (c: Customer) => MatchesSearch(c, query) && CalculateBillStatus(c, deliveryData, extraMap, settledBills).totalBill > 0.0)
  }

  /** The two views never show the same customer, together they show exactly
      the matching customers with a positive bill, and their sizes add up. */
  lemma ViewsPartition(customers: seq<Customer>, query: string, deliveryData: map<nat, DeliveryRow>, extraMap: map<string, real>, settledBills: map<string, Bill>)
    ensures forall c :: c in FilteredCustomers(UnsettledView, customers, query, deliveryData, extraMap, settledBills)
                        ==> c !in FilteredCustomers(SettledView, customers, query, deliveryData, extraMap, settledBills)
    ensures forall c :: (c in FilteredCustomers(UnsettledView, customers, query, deliveryData, extraMap, settledBills)
                         || c in FilteredCustomers(SettledView, customers, query, deliveryData, extraMap, settledBills))
                        <==> c in Billable(customers, query, deliveryData, extraMap, settledBills)
    ensures |FilteredCustomers(UnsettledView, customers, query, deliveryData, extraMap, settledBills)|
            + |FilteredCustomers(SettledView, customers, query, deliveryData, extraMap, settledBills)|
            == |Billable(customers, query, deliveryData, extraMap, settledBills)|
  {
    FilterCountSplit(customers,
      (c: Customer) => InView(UnsettledView, c, query, deliveryData, extraMap, settledBills),
      (c: Customer) => InView(SettledView, c, query, deliveryData, extraMap, settledBills),
      (c: Customer) => MatchesSearch(c, query) && CalculateBillStatus(c, deliveryData, extraMap, settledBills).totalBill > 0.0);
  }

  /** `pendingBills`: customers whose bill is not settled (search ignored). */
  function PendingBills(customers: seq<Customer>, deliveryData: map<nat, DeliveryRow>, extraMap: map<string, real>, settledBills: map<string, Bill>): nat {
    |Filter(customers, (c: Customer) => !CalculateBillStatus(c, deliveryData, extraMap, settledBills).isSettled)|
  }

  /** `settledCount` of the summary cards: customers whose bill is settled. */
  function SettledCount(customers: seq<Customer>, deliveryData: map<nat, DeliveryRow>, extraMap: map<string, real>, settledBills: map<string, Bill>): nat {
    |Filter(customers, (c: Customer) => CalculateBillStatus(c, deliveryData, extraMap, settledBills).isSettled)|
  }

  /** Every customer is either pending or settled, so the bill page's
      `totalCustomers - pendingBills` is the summary's settled count. */
  lemma PendingPlusSettled(customers: seq<Customer>, deliveryData: map<nat, DeliveryRow>, extraMap: map<string, real>, settledBills: map<string, Bill>)
    ensures PendingBills(customers, deliveryData, extraMap, settledBills) + SettledCount(customers, deliveryData, extraMap, settledBills) == |customers|
  {
    FilterComplementCount(customers,
      (c: Customer) => !CalculateBillStatus(c, deliveryData, extraMap, settledBills).isSettled,
      (c: Customer) => CalculateBillStatus(c, deliveryData, extraMap, settledBills).isSettled);
  }

  /** `calculateTotalSales`: the live totals of all customers, added in order. */
  function TotalSales(customers: seq<Customer>, deliveryData: map<nat, DeliveryRow>, extraMap: map<string, real>, settledBills: map<string, Bill>): real {
    if customers == [] then 0.0
    else TotalSales(customers[..|customers| - 1], deliveryData, extraMap, settledBills)
         + CalculateBillStatus(customers[|customers| - 1], deliveryData, extraMap, settledBills).totalBill
  }

  /** With non-negative prices, quantities and extras the sales are
      non-negative. */
  lemma {:induction false} TotalSalesNonNegative(customers: seq<Customer>, deliveryData: map<nat, DeliveryRow>, extraMap: map<string, real>, settledBills: map<string, Bill>)
    requires forall c :: c in customers ==> c.price >= 0.0 && c.quantity >= 0.0 && LookupQuantity(extraMap, c.name) >= 0.0
    ensures TotalSales(customers, deliveryData, extraMap, settledBills) >= 0.0
  {
    if customers != [] {
      var c := customers[|customers| - 1];
      var front := customers[..|customers| - 1];
      assert forall x :: x in front ==> x in customers;
      TotalSalesNonNegative(front, deliveryData, extraMap, settledBills);
      LiveTotalNonNegative(c, deliveryData, extraMap, settledBills);
    }
  }

  /** The `billsMap` loop: each fetched snapshot under its customer's name,
      a later one overwriting an earlier one. */
  method IndexBills(bills: seq<Bill>) returns (settledBills: map<string, Bill>)
    ensures settledBills.Keys == set b | b in bills :: b.customerName
    ensures forall i :: 0 <= i < |bills| && (forall j :: i < j < |bills| ==> bills[j].customerName != bills[i].customerName)
                        ==> settledBills[bills[i].customerName] == bills[i]
  {
    settledBills := map[];
    var k := 0;
    while k < |bills|
      invariant 0 <= k <= |bills|
      invariant settledBills.Keys == set b | b in bills[..k] :: b.customerName
      invariant forall i :: 0 <= i < k && (forall j :: i < j < k ==> bills[j].customerName != bills[i].customerName)
                            ==> settledBills[bills[i].customerName] == bills[i]
    {
      assert bills[..k + 1] == bills[..k] + [bills[k]];
      settledBills := settledBills[bills[k].customerName := bills[k]];
      k := k + 1;
    }
    assert bills[..k] == bills;
  }

  /** The names of a list of snapshots. */
  function Names(bills: seq<Bill>): set<string> {
    set b | b in bills :: b.customerName
  }

  /** The last snapshot for a name, the one `billsMap` keeps. */
  function LastFor(bills: seq<Bill>, name: string): Option<Bill> {
    if bills == [] then None
    else if bills[|bills| - 1].customerName == name then Some(bills[|bills| - 1])
    else LastFor(bills[..|bills| - 1], name)
  }

  /** No two snapshots of a list share a name. */
  predicate NamesDistinct(bills: seq<Bill>) {
    forall i, j :: 0 <= i < j < |bills| ==> bills[i].customerName != bills[j].customerName
  }

  /** `billsMap[bill.customerName] = bill` on the values in insertion
      order: an existing name keeps its place and takes the new snapshot, a
      new name goes last.  `Object.values` lists integer-like names first;
      the sums below do not depend on the order (`TotalPaidAnyOrder`). */
  function Assign(values: seq<Bill>, b: Bill): seq<Bill> {
    if values == [] then [b]
    else if values[0].customerName == b.customerName then [b] + values[1..]
    else [values[0]] + Assign(values[1..], b)
  }

  lemma DistinctTail(values: seq<Bill>)
    requires NamesDistinct(values) && values != []
    ensures NamesDistinct(values[1..])
    ensures forall v :: v in values[1..] ==> v in values && v.customerName != values[0].customerName
  {
    forall v | v in values[1..] ensures v in values && v.customerName != values[0].customerName {
      var k :| 0 <= k < |values[1..]| && values[1..][k] == v;
      assert values[k + 1] == v;
    }
  }

  /** After an assignment the values still have distinct names: the new
      snapshot, and the old ones of the other names. */
  lemma {:induction false} AssignFacts(values: seq<Bill>, b: Bill)
    requires NamesDistinct(values)
    ensures var r := Assign(values, b);
            && NamesDistinct(r)
            && b in r
            && (forall v :: v in r ==> v == b || (v in values && v.customerName != b.customerName))
            && (forall v :: v in values && v.customerName != b.customerName ==> v in r)
  {
    if values != [] {
      DistinctTail(values);
      assert values == [values[0]] + values[1..];
      if values[0].customerName != b.customerName {
        AssignFacts(values[1..], b);
        var rest := Assign(values[1..], b);
        var r := [values[0]] + rest;
        assert forall v :: v in rest ==> v.customerName != values[0].customerName;
        forall i, j | 0 <= i < j < |r| ensures r[i].customerName != r[j].customerName {
          assert r[j] in rest;
          if i > 0 {
            assert r[i] == rest[i - 1] && r[j] == rest[j - 1];
          }
        }
      } else {
        var r := [b] + values[1..];
        forall i, j | 0 <= i < j < |r| ensures r[i].customerName != r[j].customerName {
          assert r[j] == values[j];
          if i > 0 {
            assert r[i] == values[i];
          }
        }
      }
    }
  }

  /** `Object.values(billsMap)` after the `forEach` over the fetched list. */
  function BillsMapValues(bills: seq<Bill>): (values: seq<Bill>)
    ensures NamesDistinct(values)
  {
    if bills == [] then []
    else
      var front := BillsMapValues(bills[..|bills| - 1]);
      AssignFacts(front, bills[|bills| - 1]);
      Assign(front, bills[|bills| - 1])
  }

  /** The values of `billsMap` are one snapshot per fetched name: the last
      one fetched for it. */
  lemma {:induction false} BillsMapValuesAreLast(bills: seq<Bill>)
    ensures Names(BillsMapValues(bills)) == Names(bills)
    ensures forall v :: v in BillsMapValues(bills) ==> v in bills && LastFor(bills, v.customerName) == Some(v)
  {
    if bills != [] {
      var front, b := bills[..|bills| - 1], bills[|bills| - 1];
      BillsMapValuesAreLast(front);
      AssignFacts(BillsMapValues(front), b);
      assert bills == front + [b];
      assert Names(bills) == Names(front) + {b.customerName};
    }
  }

  /** The sum of `paid` over a list of snapshots. */
  function SumPaid(bills: seq<Bill>): real {
    if bills == [] then 0.0 else SumPaid(bills[..|bills| - 1]) + bills[|bills| - 1].paid
  }

  function SumTotal(bills: seq<Bill>): real {
    if bills == [] then 0.0 else SumTotal(bills[..|bills| - 1]) + bills[|bills| - 1].total
  }

  /** `totalPaid`: the amounts paid over the values of `billsMap`, so a name
      fetched twice is counted once, with its last snapshot. */
  function TotalPaid(bills: seq<Bill>): real {
    SumPaid(BillsMapValues(bills))
  }

  /** Snapshots that passed the schema never add up to a negative payment,
      and what was paid never exceeds what was billed on them. */
  lemma {:induction false} SumPaidBounds(bills: seq<Bill>)
    requires forall b :: b in bills ==> BillSchemaValid(b) && Balanced(b)
    ensures 0.0 <= SumPaid(bills) <= SumTotal(bills)
  {
    if bills != [] {
      var front := bills[..|bills| - 1];
      assert forall b :: b in front ==> b in bills;
      assert bills[|bills| - 1] in bills;
      SumPaidBounds(front);
    }
  }

  /** With schema-valid, balanced snapshots the summary's total paid lies
      between 0 and the total billed on the snapshots it keeps. */
  lemma TotalPaidBounds(bills: seq<Bill>)
    requires forall b :: b in bills ==> BillSchemaValid(b) && Balanced(b)
    ensures 0.0 <= TotalPaid(bills) <= SumTotal(BillsMapValues(bills))
  {
    BillsMapValuesAreLast(bills);
    SumPaidBounds(BillsMapValues(bills));
  }

  /** When no name is fetched twice, `billsMap` keeps every snapshot, in
      insertion order here, and the total paid is the sum over the fetched
      list. */
  lemma {:induction false} TotalPaidDistinctNames(bills: seq<Bill>)
    requires NamesDistinct(bills)
    ensures BillsMapValues(bills) == bills
    ensures TotalPaid(bills) == SumPaid(bills)
  {
    if bills != [] {
      var front, b := bills[..|bills| - 1], bills[|bills| - 1];
      TotalPaidDistinctNames(front);
      AssignNewName(front, b);
    }
  }

  lemma {:induction false} AssignNewName(values: seq<Bill>, b: Bill)
    requires NamesDistinct(values)
    requires forall v :: v in values ==> v.customerName != b.customerName
    ensures Assign(values, b) == values + [b]
  {
    if values != [] {
      assert values[0] in values;
      DistinctTail(values);
      AssignNewName(values[1..], b);
      assert values == [values[0]] + values[1..];
    }
  }

  /** A name fetched twice counts only with its later snapshot. */
  lemma TotalPaidRepeatedName(first: Bill, second: Bill)
    requires first.customerName == second.customerName
    ensures TotalPaid([first, second]) == second.paid
  {
    assert [first, second][..1] == [first];
    assert [first][..0] == [];
    assert BillsMapValues([first]) == [first];
    assert Assign([first], second) == [second] + [first][1..];
    assert BillsMapValues([first, second]) == [second];
    assert [second][..0] == [];
    assert SumPaid([second]) == SumPaid([]) + second.paid;
  }

  lemma {:induction false} SumPaidAppend(a: seq<Bill>, b: seq<Bill>)
    ensures SumPaid(a + b) == SumPaid(a) + SumPaid(b)
  {
    if b != [] {
      assert (a + b)[..|a + b| - 1] == a + b[..|b| - 1];
      SumPaidAppend(a, b[..|b| - 1]);
    } else {
      assert a + b == a;
    }
  }

  /** Taking one snapshot out of the list takes out its payment. */
  lemma SumPaidRemoveAt(ys: seq<Bill>, i: nat)
    requires i < |ys|
    ensures SumPaid(ys) == SumPaid(ys[..i] + ys[i + 1..]) + ys[i].paid
  {
    assert ys == ys[..i] + ([ys[i]] + ys[i + 1..]);
    SumPaidAppend(ys[..i], [ys[i]] + ys[i + 1..]);
    SumPaidAppend([ys[i]], ys[i + 1..]);
    SumPaidAppend(ys[..i], ys[i + 1..]);
    assert [ys[i]][..0] == [];
  }

  /** The sum of payments does not depend on the order of the snapshots. */
  lemma {:induction false} SumPaidOrderIndependent(xs: seq<Bill>, ys: seq<Bill>)
    requires multiset(xs) == multiset(ys)
    ensures SumPaid(xs) == SumPaid(ys)
  {
    if xs == [] {
      assert |ys| == |multiset(ys)| == 0;
    } else {
      var x := xs[|xs| - 1];
      var xs' := xs[..|xs| - 1];
      assert xs == xs' + [x];
      assert x in multiset(ys);
      var i :| 0 <= i < |ys| && ys[i] == x;
      var ys' := ys[..i] + ys[i + 1..];
      MultisetRemoveAt(ys, i);
      assert multiset(xs') == multiset(xs) - multiset{x};
      SumPaidRemoveAt(ys, i);
      SumPaidOrderIndependent(xs', ys');
    }
  }

  /** Whatever order `Object.values(billsMap)` lists the kept snapshots in
      (integer-like names come first in JavaScript), their sum is the total
      paid. */
  lemma TotalPaidAnyOrder(bills: seq<Bill>, listed: seq<Bill>)
    requires multiset(listed) == multiset(BillsMapValues(bills))
    ensures SumPaid(listed) == TotalPaid(bills)
  {
    SumPaidOrderIndependent(listed, BillsMapValues(bills));
  }

  /** `collectedPercentage`: no division when there are no sales. */
  function CollectedPercentage(totalPaid: real, totalSales: real): (r: real)
    ensures totalSales <= 0.0 ==> r == 0.0
    ensures totalSales > 0.0 && totalPaid >= 0.0 ==> r >= 0.0
    ensures totalSales > 0.0 && totalPaid <= totalSales ==> r <= 100.0
    ensures totalSales > 0.0 ==> r * totalSales == 100.0 * totalPaid
  {
    if totalSales > 0.0 then totalPaid / totalSales * 100.0 else 0.0
  }
}
