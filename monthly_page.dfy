/** The monthly-data page: the delivery labels of every customer for the
    selected month (future tested first), kept as page state that the
    per-cell callback updates one day at a time. */
module MonthlyPage {
  import opened Wrappers
  import opened Dates
  import opened Records
  import opened Calendar
  import opened Aggregates

  /** One customer's labels, by day of the month; a day without a key is
      `undefined`, which the page shows as "not started". */
  datatype PageRow = PageRow(name: string, days: map<int, DayStatus>)

  /** The labels of days 1..DaysInMonth, future tested first. */
  function LabelMap(start: Date, off: set<Date>, year: int, month0: int, today: Date): (days: map<int, DayStatus>)
    requires 0 <= month0 < 12
    ensures forall d :: d in days <==> 1 <= d <= DaysInMonth(year, month0)
    ensures forall d :: d in days ==> days[d] == DayStatusOf(FutureFirst, Date(year, month0, d), start, today, off)
  {
    map d | 1 <= d <= DaysInMonth(year, month0) :: DayStatusOf(FutureFirst, Date(year, month0, d), start, today, off)
  }

  function PageRowFor(c: Customer, records: seq<NonDeliveryRecord>, year: int, month0: int, today: Date): (row: PageRow)
    requires 0 <= month0 < 12
    ensures row.name == c.name
    ensures forall d :: d in row.days <==> 1 <= d <= DaysInMonth(year, month0)
    ensures forall d :: d in row.days ==>
              row.days[d] == DayStatusOf(FutureFirst, Date(year, month0, d), c.startDate, today, NonDeliveryDates(records, c.name))
  {
    PageRow(c.name, LabelMap(c.startDate, NonDeliveryDates(records, c.name), year, month0, today))
  }

  /** The page's `data` object: one row per customer id, a later customer
      with the same id replacing an earlier one. */
  function PageDataFor(customers: seq<Customer>, records: seq<NonDeliveryRecord>, year: int, month0: int, today: Date)
    : map<nat, PageRow>
    requires 0 <= month0 < 12
  {
    if customers == [] then map[]
    else
      var c := customers[|customers| - 1];
      PageDataFor(customers[..|customers| - 1], records, year, month0, today)[c.id := PageRowFor(c, records, year, month0, today)]
  }

  /** A page row shows a calendar row: the same name, and day `d` holding
      the label at index `d - 1`. */
  predicate ShowsRow(page: PageRow, cal: DeliveryRow) {
    page.name == cal.name
    && forall d :: 1 <= d <= |cal.days| ==> d in page.days && page.days[d] == cal.days[d - 1]
  }

  /** The page's rows are the calendar rows the bill page computes, day by
      day: the same ids, names and labels. */
  lemma {:induction false} PageDataIsCalendar(customers: seq<Customer>, records: seq<NonDeliveryRecord>, year: int, month0: int, today: Date)
    requires 0 <= month0 < 12
    ensures var page, cal := PageDataFor(customers, records, year, month0, today), DeliveryDataFor(customers, records, year, month0, today);
            && page.Keys == cal.Keys
            && forall id :: id in page ==> ShowsRow(page[id], cal[id])
  {
    if customers != [] {
      PageDataIsCalendar(customers[..|customers| - 1], records, year, month0, today);
      PageRowAgrees(customers[|customers| - 1], records, year, month0, today);
    }
  }

  /** One customer's page row shows that customer's calendar row. */
  lemma PageRowAgrees(c: Customer, records: seq<NonDeliveryRecord>, year: int, month0: int, today: Date)
    requires 0 <= month0 < 12
    ensures ShowsRow(PageRowFor(c, records, year, month0, today), RowFor(c, records, year, month0, today))
  {
  }

  /** The label the page renders for a day: `undefined` reads as "not
      started". */
  function CellStatus(data: map<nat, PageRow>, id: nat, day: int): DayStatus {
    if id in data && day in data[id].days then data[id].days[day] else NotStarted
  }

  datatype CellView = Dash | Toggle(status: DayStatus)

  /** Not-started and future days show '-', the others the toggle. */
  function ViewOf(status: DayStatus): (v: CellView)
    ensures v == Dash <==> status == NotStarted || status == Future
    ensures v.Toggle? ==> v.status == status
  {
    if status == NotStarted || status == Future then Dash else Toggle(status)
  }

  /** `updated[id].days[day] = newStatus`, `None` standing for the
      `undefined` the cell component passes. */
  function SetDay(days: map<int, DayStatus>, day: int, newStatus: Option<DayStatus>): map<int, DayStatus> {
    match newStatus
    case Some(s) => days[day := s]
    case None => days - {day}
  }

  /** The cell component calls the callback without an argument, so a cell
      that has just been toggled is relabelled "not started" and shows '-'. */
  lemma StatuslessCallbackShowsDash(data: map<nat, PageRow>, id: nat, day: int)
    requires id in data
    ensures var updated := data[id := data[id].(days := SetDay(data[id].days, day, None))];
            CellStatus(updated, id, day) == NotStarted && ViewOf(CellStatus(updated, id, day)) == Dash
  {
  }

  /** The inner day loop of `generateDeliveryData` for one customer, `off`
      being that customer's non-delivery days. */
  method DayLabels(c: Customer, off: set<Date>, year: int, month0: int, today: Date) returns (days: map<int, DayStatus>)
    requires 0 <= month0 < 12
    ensures days == LabelMap(c.startDate, off, year, month0, today)
  {
    var daysInMonth := DaysInMonth(year, month0);
    days := map[];
    var day := 1;
    while day <= daysInMonth
      invariant 1 <= day <= daysInMonth + 1
      invariant forall d :: d in days <==> 1 <= d < day
      invariant forall d :: d in days ==> days[d] == DayStatusOf(FutureFirst, Date(year, month0, d), c.startDate, today, off)
    {
      var currentDate := Date(year, month0, day);
      if Before(today, currentDate) {
        days := days[day := Future];
      } else if Before(currentDate, c.startDate) {
        days := days[day := NotStarted];
      } else {
        days := days[day := if currentDate in off then Undelivered else Delivered];
      }
      day := day + 1;
    }
    assert days == LabelMap(c.startDate, off, year, month0, today);
  }

  class MonthlyPageState {
    var customers: seq<Customer>
    var undelivered: seq<NonDeliveryRecord>
    var selectedMonth: int
    var selectedYear: int
    var deliveryData: map<nat, PageRow>

    ghost predicate Valid()
      reads this
    {
      0 <= selectedMonth < 12
    }

    constructor (month0: int, year: int)
      requires 0 <= month0 < 12
      ensures Valid() && selectedMonth == month0 && selectedYear == year
      ensures customers == [] && undelivered == [] && deliveryData == map[]
    {
      customers := [];
      undelivered := [];
      selectedMonth := month0;
      selectedYear := year;
      deliveryData := map[];
    }

    /** A successful fetch stores the owner's customers and records. */
    method Load(newCustomers: seq<Customer>, newUndelivered: seq<NonDeliveryRecord>)
      requires Valid()
      modifies this
      ensures Valid()
      ensures customers == newCustomers && undelivered == newUndelivered
      ensures selectedMonth == old(selectedMonth) && selectedYear == old(selectedYear) && deliveryData == old(deliveryData)
    {
      customers := newCustomers;
      undelivered := newUndelivered;
    }

    /** `handleMonthChange` with the chosen option. */
    method ChangeMonth(month0: int, year: int)
      requires Valid() && 0 <= month0 < 12
      modifies this
      ensures Valid() && selectedMonth == month0 && selectedYear == year
      ensures customers == old(customers) && undelivered == old(undelivered) && deliveryData == old(deliveryData)
    {
      selectedMonth := month0;
      selectedYear := year;
    }

    /** The effect that regenerates the labels: only when there is at least
        one customer; otherwise the previous labels stay. */
    method Refresh(today: Date)
      requires Valid()
      modifies this
      ensures Valid()
      ensures customers == old(customers) && undelivered == old(undelivered)
      ensures selectedMonth == old(selectedMonth) && selectedYear == old(selectedYear)
      ensures |customers| > 0 ==> deliveryData == PageDataFor(customers, undelivered, selectedYear, selectedMonth, today)
      ensures |customers| == 0 ==> deliveryData == old(deliveryData)
    {
      if |customers| == 0 {
        return;
      }
      var cs, records, year, month0 := customers, undelivered, selectedYear, selectedMonth;
      var index := IndexNonDelivery(records);
      var data: map<nat, PageRow> := map[];
      var k := 0;
      while k < |cs|
        invariant 0 <= k <= |cs|
        invariant data == PageDataFor(cs[..k], records, year, month0, today)
        modifies {}
      {
        var c := cs[k];
        var days := DayLabels(c, LookupDates(index, c.name), year, month0, today);
        data := data[c.id := PageRow(c.name, days)];
        assert cs[..k + 1][..k] == cs[..k];
        k := k + 1;
      }
      assert cs[..|cs|] == cs;
      deliveryData := data;
    }

    /** The cell callback: only that customer's label for that day changes. */
    method OnChangeStatus(id: nat, day: int, newStatus: Option<DayStatus>)
      requires Valid()
      modifies this
      ensures Valid()
      ensures customers == old(customers) && undelivered == old(undelivered)
      ensures selectedMonth == old(selectedMonth) && selectedYear == old(selectedYear)
      ensures id in old(deliveryData) ==>
                deliveryData == old(deliveryData)[id := old(deliveryData)[id].(days := SetDay(old(deliveryData)[id].days, day, newStatus))]
      ensures id !in old(deliveryData) ==> deliveryData == old(deliveryData)
      ensures id in old(deliveryData) ==> CellStatus(deliveryData, id, day) == (if newStatus.Some? then newStatus.value else NotStarted)
      ensures forall other: nat, d: int :: (other, d) != (id, day) ==>
                CellStatus(deliveryData, other, d) == CellStatus(old(deliveryData), other, d)
    {
      if id in deliveryData {
        var row := deliveryData[id];
        deliveryData := deliveryData[id := row.(days := SetDay(row.days, day, newStatus))];
      }
    }
  }

  /** Right after a refresh, every customer's cell for a day of the month
      shows the calendar label, and the toggle exactly on delivered and
      undelivered days. */
  lemma RefreshedCellView(customers: seq<Customer>, records: seq<NonDeliveryRecord>, year: int, month0: int, today: Date,
                          c: Customer, day: int)
    requires 0 <= month0 < 12 && DistinctIds(customers) && c in customers && 1 <= day <= DaysInMonth(year, month0)
    ensures var s := CellStatus(PageDataFor(customers, records, year, month0, today), c.id, day);
            && s == DayStatusOf(FutureFirst, Date(year, month0, day), c.startDate, today, NonDeliveryDates(records, c.name))
            && (ViewOf(s).Toggle? <==> s == Delivered || s == Undelivered)
  {
    PageDataRow(customers, records, year, month0, today, c);
  }

  lemma {:induction false} PageDataRow(customers: seq<Customer>, records: seq<NonDeliveryRecord>, year: int, month0: int, today: Date, c: Customer)
    requires 0 <= month0 < 12 && DistinctIds(customers) && c in customers
    ensures var data := PageDataFor(customers, records, year, month0, today);
            c.id in data && data[c.id] == PageRowFor(c, records, year, month0, today)
  {
    var last := customers[|customers| - 1];
    var front := customers[..|customers| - 1];
    if c != last {
      assert customers == front + [last];
      assert c in front;
      assert DistinctIds(front);
      PageDataRow(front, records, year, month0, today, c);
      assert c.id != last.id;
    }
  }
}
