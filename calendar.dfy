/** The delivery calendar: one status per day of a month for one customer,
    and the number of delivered days that billing multiplies by the daily
    quantity.  The bill page, the summary cards and the monthly-data page
    test "future" before "not started"; the monthly-data component tests
    the start date first.  Both orders are one function here, selected by
    `Precedence`. */
module Calendar {
  import opened Dates
  import opened Records
  import opened Aggregates

  datatype DayStatus = NotStarted | Future | Undelivered | Delivered

  datatype Precedence = FutureFirst | StartFirst

  /** The label of one day, first matching test wins.  `off` is the
      customer's set of non-delivery days. */
  function DayStatusOf(prec: Precedence, day: Date, start: Date, today: Date, off: set<Date>): DayStatus {
    match prec
    case FutureFirst =>
      if Before(today, day) then Future
      else if Before(day, start) then NotStarted
      else if day in off then Undelivered
      else Delivered
    case StartFirst =>
      if Before(day, start) then NotStarted
      else if Before(today, day) then Future
      else if day in off then Undelivered
      else Delivered
  }

  /** Labels of days 1..DaysInMonth (index i holds day i + 1). */
  function MonthLabels(prec: Precedence, year: int, month0: int, start: Date, today: Date, off: set<Date>): (labels: seq<DayStatus>)
    requires 0 <= month0 < 12
    ensures |labels| == DaysInMonth(year, month0)
    ensures forall i :: 0 <= i < |labels| ==> labels[i] == DayStatusOf(prec, Date(year, month0, i + 1), start, today, off)
  {
    seq(DaysInMonth(year, month0), i => DayStatusOf(prec, Date(year, month0, i + 1), start, today, off))
  }

  /** Number of delivered days, counted in day order. */
  function CountDelivered(days: seq<DayStatus>): (n: nat)
    ensures n <= |days|
  {
    if days == [] then 0
    else CountDelivered(days[..|days| - 1]) + (if days[|days| - 1] == Delivered then 1 else 0)
  }

  /** The positions labelled delivered. */
  function DeliveredDays(days: seq<DayStatus>): set<int> {
    set i | 0 <= i < |days| && days[i] == Delivered
  }

  /** `totalDelivered` is the number of days labelled delivered. */
  lemma {:induction false} CountDeliveredIsCardinality(days: seq<DayStatus>)
    ensures CountDelivered(days) == |DeliveredDays(days)|
  {
    if days != [] {
      var k := |days| - 1;
      var front := days[..k];
      CountDeliveredIsCardinality(front);
      if days[k] == Delivered {
        assert DeliveredDays(days) == DeliveredDays(front) + {k};
        assert k !in DeliveredDays(front);
      } else {
        assert DeliveredDays(days) == DeliveredDays(front);
      }
    }
  }

  /** Two labellings that agree on which days are delivered have the same count. */
  lemma {:induction false} CountDeliveredAgree(a: seq<DayStatus>, b: seq<DayStatus>)
    requires |a| == |b|
    requires forall i :: 0 <= i < |a| ==> (a[i] == Delivered <==> b[i] == Delivered)
    ensures CountDelivered(a) == CountDelivered(b)
  {
    if a != [] {
      CountDeliveredAgree(a[..|a| - 1], b[..|b| - 1]);
    }
  }

  /** Swapping the two tests changes a label only on a day that is both
      before the start date and after today, and then only between
      "future" and "not started". */
  lemma PrecedenceDifference(day: Date, start: Date, today: Date, off: set<Date>)
    ensures var a, b := DayStatusOf(FutureFirst, day, start, today, off), DayStatusOf(StartFirst, day, start, today, off);
            (a != b <==> Before(day, start) && Before(today, day))
            && (a != b ==> a == Future && b == NotStarted)
  {
  }

  /** Both precedences bill the same number of delivered days. */
  lemma PrecedenceSameDeliveredCount(year: int, month0: int, start: Date, today: Date, off: set<Date>)
    requires 0 <= month0 < 12
    ensures CountDelivered(MonthLabels(FutureFirst, year, month0, start, today, off))
         == CountDelivered(MonthLabels(StartFirst, year, month0, start, today, off))
  {
    var a, b := MonthLabels(FutureFirst, year, month0, start, today, off), MonthLabels(StartFirst, year, month0, start, today, off);
    forall i | 0 <= i < |a| ensures a[i] == Delivered <==> b[i] == Delivered {
      PrecedenceDifference(Date(year, month0, i + 1), start, today, off);
    }
    CountDeliveredAgree(a, b);
  }

  /** A day after today, or before the start date, is never billed, whatever
      the non-delivery records say; a started, past day is delivered exactly
      when it has no non-delivery record. */
  lemma DeliveredExactly(prec: Precedence, day: Date, start: Date, today: Date, off: set<Date>)
    ensures DayStatusOf(prec, day, start, today, off) == Delivered
            <==> !Before(today, day) && !Before(day, start) && day !in off
    ensures DayStatusOf(prec, day, start, today, off) == Undelivered
            <==> !Before(today, day) && !Before(day, start) && day in off
  {
  }

  /** The inner `for (day = 1; day <= daysInMonth; day++)` loop of
      `generateDeliveryData` for one customer: it writes each day's label and
      counts the delivered ones. */
  method MonthCalendar(year: int, month0: int, start: Date, today: Date, off: set<Date>)
    returns (days: seq<DayStatus>, totalDelivered: nat)
    requires 0 <= month0 < 12
    ensures days == MonthLabels(FutureFirst, year, month0, start, today, off)
    ensures totalDelivered == CountDelivered(days) == |DeliveredDays(days)|
  {
    var daysInMonth := DaysInMonth(year, month0);
    ghost var spec := MonthLabels(FutureFirst, year, month0, start, today, off);
    days := [];
    totalDelivered := 0;
    var day := 1;
    while day <= daysInMonth
      invariant 1 <= day <= daysInMonth + 1
      invariant days == spec[..day - 1]
      invariant totalDelivered == CountDelivered(days)
    {
      var current := Date(year, month0, day);
      var status: DayStatus;
      if Before(today, current) {
        status := Future;
      } else if Before(current, start) {
        status := NotStarted;
      } else if current in off {
        status := Undelivered;
      } else {
        status := Delivered;
      }
      assert spec[..day] == spec[..day - 1] + [status];
      days := days + [status];
      assert days[..|days| - 1] == spec[..day - 1];
      if status == Delivered {
        totalDelivered := totalDelivered + 1;
      }
      day := day + 1;
    }
    assert days == spec;
    CountDeliveredIsCardinality(days);
  }

  /** `data[customer._id]` of the bill page and the summary cards. */
  datatype DeliveryRow = DeliveryRow(name: string, days: seq<DayStatus>, totalDelivered: nat)

  function RowFor(c: Customer, records: seq<NonDeliveryRecord>, year: int, month0: int, today: Date): (row: DeliveryRow)
    requires 0 <= month0 < 12
    ensures row.name == c.name && |row.days| == DaysInMonth(year, month0)
    ensures row.totalDelivered == |DeliveredDays(row.days)| <= DaysInMonth(year, month0)
  {
    var days := MonthLabels(FutureFirst, year, month0, c.startDate, today, NonDeliveryDates(records, c.name));
    CountDeliveredIsCardinality(days);
    DeliveryRow(c.name, days, CountDelivered(days))
  }

  /** The object built by `generateDeliveryData`: one row per customer id
      (a later customer with the same id overwrites an earlier one). */
  function DeliveryDataFor(customers: seq<Customer>, records: seq<NonDeliveryRecord>, year: int, month0: int, today: Date): map<nat, DeliveryRow>
    requires 0 <= month0 < 12
  {
    if customers == [] then map[]
    else
      var c := customers[|customers| - 1];
      DeliveryDataFor(customers[..|customers| - 1], records, year, month0, today)[c.id := RowFor(c, records, year, month0, today)]
  }

  /** Every customer gets a row and nothing else does. */
  lemma {:induction false} DeliveryDataForKeys(customers: seq<Customer>, records: seq<NonDeliveryRecord>, year: int, month0: int, today: Date)
    requires 0 <= month0 < 12
    ensures DeliveryDataFor(customers, records, year, month0, today).Keys == (set c | c in customers :: c.id)
  {
    if customers != [] {
      var front := customers[..|customers| - 1];
      var c := customers[|customers| - 1];
      DeliveryDataForKeys(front, records, year, month0, today);
      assert customers == front + [c];
      assert (set x | x in customers :: x.id) == (set x | x in front :: x.id) + {c.id};
    }
  }

  predicate DistinctIds(customers: seq<Customer>) {
    forall i, j :: 0 <= i < j < |customers| ==> customers[i].id != customers[j].id
  }

  /** With distinct ids each customer's row is computed from that customer alone. */
  lemma {:induction false} DeliveryDataForRows(customers: seq<Customer>, records: seq<NonDeliveryRecord>, year: int, month0: int, today: Date, c: Customer)
    requires 0 <= month0 < 12
    requires DistinctIds(customers) && c in customers
    ensures var data := DeliveryDataFor(customers, records, year, month0, today);
            c.id in data && data[c.id] == RowFor(c, records, year, month0, today)
  {
    var front := customers[..|customers| - 1];
    var last := customers[|customers| - 1];
    if c != last {
      assert customers == front + [last];
      assert c in front;
      var k :| 0 <= k < |front| && front[k] == c;
      assert customers[k] == c;
      assert c.id != last.id;
      DeliveryDataForRows(front, records, year, month0, today, c);
    }
  }

  /** `generateDeliveryData` of app/Bill/page.js and app/components/Summary.js. */
  method GenerateDeliveryData(customers: seq<Customer>, records: seq<NonDeliveryRecord>, year: int, month0: int, today: Date)
    returns (data: map<nat, DeliveryRow>)
    requires 0 <= month0 < 12
    ensures data == DeliveryDataFor(customers, records, year, month0, today)
    ensures forall id :: id in data ==> data[id].totalDelivered <= DaysInMonth(year, month0)
  {
    var undeliveredMap := IndexNonDelivery(records);
    data := map[];
    var i := 0;
    while i < |customers|
      invariant 0 <= i <= |customers|
      invariant data == DeliveryDataFor(customers[..i], records, year, month0, today)
    {
      var c := customers[i];
      var days, total := MonthCalendar(year, month0, c.startDate, today, LookupDates(undeliveredMap, c.name));
      data := data[c.id := DeliveryRow(c.name, days, total)];
      assert customers[..i + 1][..i] == customers[..i];
      i := i + 1;
    }
    assert customers[..i] == customers;
    DeliveryDataForBounded(customers, records, year, month0, today);
  }

  lemma {:induction false} DeliveryDataForBounded(customers: seq<Customer>, records: seq<NonDeliveryRecord>, year: int, month0: int, today: Date)
    requires 0 <= month0 < 12
    ensures forall id :: id in DeliveryDataFor(customers, records, year, month0, today) ==>
              DeliveryDataFor(customers, records, year, month0, today)[id].totalDelivered <= DaysInMonth(year, month0)
  {
    if customers != [] {
      var c := customers[|customers| - 1];
      var front := DeliveryDataFor(customers[..|customers| - 1], records, year, month0, today);
      DeliveryDataForBounded(customers[..|customers| - 1], records, year, month0, today);
      var data := DeliveryDataFor(customers, records, year, month0, today);
      assert data == front[c.id := RowFor(c, records, year, month0, today)];
      forall id | id in data ensures data[id].totalDelivered <= DaysInMonth(year, month0) {
        if id != c.id {
          assert data[id] == front[id];
        } else {
          var row := RowFor(c, records, year, month0, today);
          assert data[id] == row;
          assert row.totalDelivered <= DaysInMonth(year, month0);
        }
      }
    }
  }

  /** The summary cards' effect: with neither customers nor non-delivery
      records the delivery data is reset to empty, otherwise regenerated.
      The reset gives what generation would have given. */
  method SummaryDeliveryData(customers: seq<Customer>, records: seq<NonDeliveryRecord>, year: int, month0: int, today: Date)
    returns (data: map<nat, DeliveryRow>)
    requires 0 <= month0 < 12
    ensures data == DeliveryDataFor(customers, records, year, month0, today)
    ensures customers == [] ==> data == map[]
  {
    if |customers| > 0 || |records| > 0 {
      data := GenerateDeliveryData(customers, records, year, month0, today);
    } else {
      data := map[];
    }
  }
}
