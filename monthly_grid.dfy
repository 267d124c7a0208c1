/** The monthly-data component: for each customer and each day of the
    selected month, the day's label (start date tested first), that day's
    extra sales, and the combined quantity shown in the cell; and the list of
    customers with any activity in the month, sorted by name. */
module MonthlyGrid {
  import opened Wrappers
  import opened Dates
  import opened Records
  import opened Calendar
  import opened Aggregates
  import opened Sequences
  import opened DeliveryToggle

  /** One day of one customer: the label, the combined quantity (`None` for
      the '-' of days that have not started or lie in the future) and the
      day's extra sales. */
  datatype GridCell = GridCell(status: DayStatus, combined: Option<real>, extra: real)

  datatype GridRow = GridRow(name: string, quantity: real, cells: seq<GridCell>)

  /** How the three day maps of one cell hang together for a customer with
      daily quantity `quantity`. */
  predicate CellConsistent(cell: GridCell, quantity: real) {
    match cell.status
    case NotStarted => cell.combined.None? && cell.extra == 0.0
    case Future => cell.combined.None? && cell.extra == 0.0
    case Delivered => cell.combined == Some(quantity + cell.extra)
    case Undelivered => cell.combined == Some(cell.extra)
  }

  /** The cell of `day`: not started and future days show '-' and no extra;
      otherwise the extra is the sum of that day's extra sales, and a
      delivered day adds the daily quantity to it. */
  function CellFor(c: Customer, day: Date, today: Date, off: set<Date>, extras: seq<ExtraSale>): (cell: GridCell)
    ensures cell.status == DayStatusOf(StartFirst, day, c.startDate, today, off)
    ensures CellConsistent(cell, c.quantity)
    ensures cell.status == Delivered || cell.status == Undelivered ==> cell.extra == QuantityOn(extras, day, c.name)
  {
    if Before(day, c.startDate) then GridCell(NotStarted, None, 0.0)
    else if Before(today, day) then GridCell(Future, None, 0.0)
    else
      var extra := QuantityOn(extras, day, c.name);
      if day in off then GridCell(Undelivered, Some(extra), extra)
      else GridCell(Delivered, Some(c.quantity + extra), extra)
  }

  function GridRowFor(c: Customer, off: set<Date>, extras: seq<ExtraSale>, year: int, month0: int, today: Date): (row: GridRow)
    requires 0 <= month0 < 12
    ensures row.name == c.name && row.quantity == c.quantity && |row.cells| == DaysInMonth(year, month0)
    ensures forall i :: 0 <= i < |row.cells| ==> row.cells[i] == CellFor(c, Date(year, month0, i + 1), today, off, extras)
  {
    GridRow(c.name, c.quantity, seq(DaysInMonth(year, month0), i => CellFor(c, Date(year, month0, i + 1), today, off, extras)))
  }

  /** The rows by customer id; a later customer with the same id replaces an
      earlier one, as the object assignment does. */
  function GridFor(customers: seq<Customer>, undelivered: seq<NonDeliveryRecord>, extras: seq<ExtraSale>,
                   year: int, month0: int, today: Date): map<nat, GridRow>
    requires 0 <= month0 < 12
  {
    if customers == [] then map[]
    else
      var c := customers[|customers| - 1];
      GridFor(customers[..|customers| - 1], undelivered, extras, year, month0, today)[
        c.id := GridRowFor(c, NonDeliveryDates(undelivered, c.name), extras, year, month0, today)]
  }

  /** The cells of one customer, day 1 to the last day of the month. */
  method RowCells(c: Customer, off: set<Date>, daily: map<Date, map<string, real>>, extras: seq<ExtraSale>,
                  year: int, month0: int, today: Date) returns (cells: seq<GridCell>)
    requires 0 <= month0 < 12
    requires forall d, n :: LookupDaily(daily, d, n) == QuantityOn(extras, d, n)
    ensures cells == GridRowFor(c, off, extras, year, month0, today).cells
  {
    var daysInMonth := DaysInMonth(year, month0);
    cells := [];
    var day := 1;
    while day <= daysInMonth
      invariant 1 <= day <= daysInMonth + 1 && |cells| == day - 1
      invariant forall i :: 0 <= i < |cells| ==> cells[i] == CellFor(c, Date(year, month0, i + 1), today, off, extras)
    {
      var currentDate := Date(year, month0, day);
      var cell;
      if Before(currentDate, c.startDate) {
        cell := GridCell(NotStarted, None, 0.0);
      } else if Before(today, currentDate) {
        cell := GridCell(Future, None, 0.0);
      } else {
        var status := if currentDate in off then Undelivered else Delivered;
        var extraForCustomerOnDay := LookupDaily(daily, currentDate, c.name);
        var totalQuantityForDay := 0.0;
        if status == Delivered {
          totalQuantityForDay := totalQuantityForDay + c.quantity;
        }
        totalQuantityForDay := totalQuantityForDay + extraForCustomerOnDay;
        cell := GridCell(status, Some(totalQuantityForDay), extraForCustomerOnDay);
      }
      cells := cells + [cell];
      day := day + 1;
    }
  }

  /** `generateDeliveryData`: index the non-delivery records by name and the
      extra sales by (day, name), then fill every customer's row.  With no
      customers the result is the empty map the component resets to. */
  method GenerateGrid(customers: seq<Customer>, undelivered: seq<NonDeliveryRecord>, extras: seq<ExtraSale>,
                      year: int, month0: int, today: Date) returns (rows: map<nat, GridRow>)
    requires 0 <= month0 < 12
    ensures rows == GridFor(customers, undelivered, extras, year, month0, today)
    ensures customers == [] ==> rows == map[]
  {
    if |customers| == 0 {
      return map[];
    }
    var index := IndexNonDelivery(undelivered);
    var daily := BuildDailyExtraMap(extras);
    rows := map[];
    var k := 0;
    while k < |customers|
      invariant 0 <= k <= |customers|
      invariant rows == GridFor(customers[..k], undelivered, extras, year, month0, today)
    {
      var c := customers[k];
      var cells := RowCells(c, LookupDates(index, c.name), daily, extras, year, month0, today);
      rows := rows[c.id := GridRow(c.name, c.quantity, cells)];
      assert customers[..k + 1][..k] == customers[..k];
      k := k + 1;
    }
    assert customers[..|customers|] == customers;
  }

  lemma {:induction false} GridForKeys(customers: seq<Customer>, undelivered: seq<NonDeliveryRecord>, extras: seq<ExtraSale>,
                                       year: int, month0: int, today: Date)
    requires 0 <= month0 < 12
    ensures GridFor(customers, undelivered, extras, year, month0, today).Keys == set c | c in customers :: c.id
  {
    if customers != [] {
      var front := customers[..|customers| - 1];
      GridForKeys(front, undelivered, extras, year, month0, today);
      assert customers == front + [customers[|customers| - 1]];
    }
  }

  /** With distinct ids, each customer's row is built from that customer's
      own non-delivery days. */
  lemma {:induction false} GridForRows(customers: seq<Customer>, undelivered: seq<NonDeliveryRecord>, extras: seq<ExtraSale>,
                                       year: int, month0: int, today: Date, c: Customer)
    requires 0 <= month0 < 12 && DistinctIds(customers) && c in customers
    ensures var rows := GridFor(customers, undelivered, extras, year, month0, today);
            c.id in rows && rows[c.id] == GridRowFor(c, NonDeliveryDates(undelivered, c.name), extras, year, month0, today)
  {
    var last := customers[|customers| - 1];
    var front := customers[..|customers| - 1];
    if c != last {
      assert customers == front + [last];
      assert c in front;
      assert DistinctIds(front);
      GridForRows(front, undelivered, extras, year, month0, today, c);
      assert c.id != last.id;
    }
  }

  // ---------------------------------------------------------------------
  // Row totals

  function Statuses(cells: seq<GridCell>): (r: seq<DayStatus>)
    ensures |r| == |cells| && forall i :: 0 <= i < |cells| ==> r[i] == cells[i].status
  {
    seq(|cells|, i requires 0 <= i < |cells| => cells[i].status)
  }

  /** The sum of the numbers shown, '-' counting as nothing. */
  function CombinedTotal(cells: seq<GridCell>): real {
    if cells == [] then 0.0
    else
      var last := cells[|cells| - 1];
      CombinedTotal(cells[..|cells| - 1]) + (if last.combined.Some? then last.combined.value else 0.0)
  }

  function ExtraTotal(cells: seq<GridCell>): real {
    if cells == [] then 0.0 else ExtraTotal(cells[..|cells| - 1]) + cells[|cells| - 1].extra
  }

  /** The combined quantities of a row add up to the daily quantity times
      the delivered days, plus the extra sales. */
  lemma {:induction false} CombinedSplit(cells: seq<GridCell>, quantity: real)
    requires forall i :: 0 <= i < |cells| ==> CellConsistent(cells[i], quantity)
    ensures CombinedTotal(cells) == quantity * (CountDelivered(Statuses(cells)) as real) + ExtraTotal(cells)
  {
    CombinedSplitRepeated(cells, quantity);
    var k := CountDelivered(Statuses(cells));
    RepeatedIsProduct(quantity, k);
    assert CombinedTotal(cells) == Repeated(quantity, k) + ExtraTotal(cells);
    assert Repeated(quantity, k) == quantity * (k as real);
  }

  /** `q` added up `n` times. */
  function Repeated(q: real, n: nat): real {
    if n == 0 then 0.0 else Repeated(q, n - 1) + q
  }

  lemma {:induction false} RepeatedIsProduct(q: real, n: nat)
    ensures Repeated(q, n) == q * (n as real)
  {
    if n > 0 {
      RepeatedIsProduct(q, n - 1);
      assert q * (n as real) == q * ((n - 1) as real) + q;
    }
  }

  lemma {:induction false} CombinedSplitRepeated(cells: seq<GridCell>, quantity: real)
    requires forall i :: 0 <= i < |cells| ==> CellConsistent(cells[i], quantity)
    ensures CombinedTotal(cells) == Repeated(quantity, CountDelivered(Statuses(cells))) + ExtraTotal(cells)
  {
    if cells != [] {
      var front, last := cells[..|cells| - 1], cells[|cells| - 1];
      CombinedSplitRepeated(front, quantity);
      assert Statuses(cells)[..|cells| - 1] == Statuses(front);
      assert CellConsistent(last, quantity);
    }
  }

  /** The grid's labels are the calendar's, start date tested first. */
  lemma GridLabelsAreCalendar(c: Customer, off: set<Date>, extras: seq<ExtraSale>, year: int, month0: int, today: Date)
    requires 0 <= month0 < 12
    ensures Statuses(GridRowFor(c, off, extras, year, month0, today).cells) == MonthLabels(StartFirst, year, month0, c.startDate, today, off)
  {
  }

  /** The grid and the bill page agree: the combined quantities of a
      customer's row are the daily quantity once for every delivered day the
      bill counts (future tested first), plus the row's extra sales.  By
      `RepeatedIsProduct` that is quantity × delivered days. */
  lemma {:induction false} GridAgreesWithBill(c: Customer, off: set<Date>, extras: seq<ExtraSale>, year: int, month0: int, today: Date)
    requires 0 <= month0 < 12
    ensures var cells := GridRowFor(c, off, extras, year, month0, today).cells;
            CombinedTotal(cells)
              == Repeated(c.quantity, CountDelivered(MonthLabels(FutureFirst, year, month0, c.startDate, today, off))) + ExtraTotal(cells)
  {
    var cells := GridRowFor(c, off, extras, year, month0, today).cells;
    CombinedSplitRepeated(cells, c.quantity);
    GridDeliveredCount(c, off, extras, year, month0, today);
  }

  /** The grid row has as many delivered days as the bill page counts. */
  lemma GridDeliveredCount(c: Customer, off: set<Date>, extras: seq<ExtraSale>, year: int, month0: int, today: Date)
    requires 0 <= month0 < 12
    ensures CountDelivered(Statuses(GridRowFor(c, off, extras, year, month0, today).cells))
            == CountDelivered(MonthLabels(FutureFirst, year, month0, c.startDate, today, off))
  {
    GridLabelsAreCalendar(c, off, extras, year, month0, today);
    PrecedenceSameDeliveredCount(year, month0, c.startDate, today, off);
  }

  /** What a grid cell shows: the combined quantity on a delivered day and on
      an undelivered day with extra sales, "0" on an undelivered day without
      them, and '-' otherwise. */
  lemma GridCellDisplay(cell: GridCell, quantity: real, name: string, ownerEmail: string, day: Date)
    requires CellConsistent(cell, quantity)
    ensures var d := CellDisplay(false, CellProps(Some(cell.status), name, Some(ownerEmail), day, cell.combined, cell.extra));
            if cell.status == Delivered || (cell.status == Undelivered && cell.extra > 0.0) then d == Amount(cell.combined)
            else if cell.status == Undelivered then d == Text("0")
            else d == Text("-")
  {
  }

  // ---------------------------------------------------------------------
  // The listed customers

  /** Some day up to today is delivered or has extra sales. */
  predicate ActiveIn(cells: seq<GridCell>, year: int, month0: int, today: Date) {
    exists i :: 0 <= i < |cells| && !Before(today, Date(year, month0, i + 1))
                && (cells[i].status == Delivered || cells[i].extra > 0.0)
  }

  /** The activity scan, stopping at the first active day. */
  method HasActivity(cells: seq<GridCell>, year: int, month0: int, today: Date) returns (active: bool)
    ensures active == ActiveIn(cells, year, month0, today)
  {
    active := false;
    var i := 0;
    while i < |cells|
      invariant 0 <= i <= |cells|
      invariant !active
      invariant forall j :: 0 <= j < i && !Before(today, Date(year, month0, j + 1)) ==>
                  !(cells[j].status == Delivered || cells[j].extra > 0.0)
    {
      if !Before(today, Date(year, month0, i + 1)) && (cells[i].status == Delivered || cells[i].extra > 0.0) {
        active := true;
        break;
      }
      i := i + 1;
    }
  }

  /** On a row of the grid the "up to today" test decides nothing: future
      days have neither a delivery nor extra sales. */
  lemma ActivityOfGridRow(c: Customer, off: set<Date>, extras: seq<ExtraSale>, year: int, month0: int, today: Date)
    requires 0 <= month0 < 12
    ensures var cells := GridRowFor(c, off, extras, year, month0, today).cells;
            (ActiveIn(cells, year, month0, today) <==>
               exists i :: 0 <= i < |cells| && (cells[i].status == Delivered || cells[i].extra > 0.0))
  {
    var cells := GridRowFor(c, off, extras, year, month0, today).cells;
    if exists i :: 0 <= i < |cells| && (cells[i].status == Delivered || cells[i].extra > 0.0) {
      var i :| 0 <= i < |cells| && (cells[i].status == Delivered || cells[i].extra > 0.0);
      assert cells[i] == CellFor(c, Date(year, month0, i + 1), today, off, extras);
      assert !Before(today, Date(year, month0, i + 1));
    }
  }

  /** Name order, character by character. */
  predicate StringLe(a: string, b: string) {
    a == [] || (b != [] && (a[0] < b[0] || (a[0] == b[0] && StringLe(a[1..], b[1..]))))
  }

  lemma {:induction false} StringLeTotal(a: string, b: string)
    ensures StringLe(a, b) || StringLe(b, a)
  {
    if a != [] && b != [] && a[0] == b[0] {
      StringLeTotal(a[1..], b[1..]);
    }
  }

  predicate NameLe(a: Customer, b: Customer) {
    StringLe(a.name, b.name)
  }

  lemma NameOrderTotal()
    ensures Total(NameLe)
  {
    forall a: Customer, b: Customer ensures NameLe(a, b) || NameLe(b, a) {
      StringLeTotal(a.name, b.name);
    }
  }

  /** The customers that have a row with activity, in stored order. */
  function ActiveCustomers(customers: seq<Customer>, rows: map<nat, GridRow>, year: int, month0: int, today: Date): (r: seq<Customer>)
    ensures forall c :: c in r <==> c in customers && c.id in rows && ActiveIn(rows[c.id].cells, year, month0, today)
  {
    Filter(customers, (c: Customer) => c.id in rows && ActiveIn(rows[c.id].cells, year, month0, today))
  }

  /** `filteredCustomers`: the active customers, sorted by name. */
  function Listed(customers: seq<Customer>, rows: map<nat, GridRow>, year: int, month0: int, today: Date): (r: seq<Customer>)
    ensures multiset(r) == multiset(ActiveCustomers(customers, rows, year, month0, today))
    ensures SortedBy(r, NameLe)
  {
    NameOrderTotal();
    SortBy(ActiveCustomers(customers, rows, year, month0, today), NameLe)
  }

  /** A customer is listed exactly when the grid has a row for it with a
      delivered day or a day with extra sales. */
  lemma ListedExactly(customers: seq<Customer>, undelivered: seq<NonDeliveryRecord>, extras: seq<ExtraSale>,
                      year: int, month0: int, today: Date, c: Customer)
    requires 0 <= month0 < 12 && DistinctIds(customers)
    ensures var rows := GridFor(customers, undelivered, extras, year, month0, today);
            var cells := GridRowFor(c, NonDeliveryDates(undelivered, c.name), extras, year, month0, today).cells;
            (c in Listed(customers, rows, year, month0, today) <==>
               c in customers && exists i :: 0 <= i < |cells| && (cells[i].status == Delivered || cells[i].extra > 0.0))
  {
    var rows := GridFor(customers, undelivered, extras, year, month0, today);
    var listed := Listed(customers, rows, year, month0, today);
    assert c in listed <==> c in multiset(ActiveCustomers(customers, rows, year, month0, today));
    if c in customers {
      GridForRows(customers, undelivered, extras, year, month0, today, c);
    }
    ActivityOfGridRow(c, NonDeliveryDates(undelivered, c.name), extras, year, month0, today);
  }
}
