/** The delivery cell component: what a click on a day sends to the batch
    route, and what the cell shows. */
module DeliveryToggle {
  import opened Wrappers
  import opened Dates
  import opened Records
  import opened Calendar
  import opened DateFormat
  import opened UndeliveredStore

  /** The props the component reads.  `None` stands for a prop its caller
      does not pass (JavaScript's `undefined`). */
  datatype CellProps = CellProps(
    currentDayStatus: Option<DayStatus>,
    customerName: string,
    ownerEmail: Option<string>,
    dateForToggle: Date,
    displayQuantity: Option<real>,
    extraSaleQuantityForDay: real)

  /** `!ownerEmail` is false: the prop is there and not empty. */
  predicate OwnerPresent(ownerEmail: Option<string>) {
    ownerEmail.Some? && |ownerEmail.value| > 0
  }

  /** The request body of one toggle: the entry, with its day written as
      `YYYY-MM-DD`. */
  datatype ToggleRequest = ToggleRequest(entry: SaveEntry, wireDate: string)

  /** `handleToggle`: nothing while a toggle is in flight, on a day that has
      not started or lies in the future, or without an owner; otherwise a
      delivered day is reported as not delivered and any other day as
      delivered, in a batch of exactly one entry. */
  function HandleToggle(isToggling: bool, props: CellProps): (r: Option<ToggleRequest>)
    requires ValidDate(props.dateForToggle)
    ensures r.Some? <==> !isToggling && props.currentDayStatus != Some(NotStarted)
                         && props.currentDayStatus != Some(Future) && OwnerPresent(props.ownerEmail)
    ensures r.Some? ==> && EntryKey(r.value.entry) == NonDeliveryRecord(props.customerName, props.ownerEmail.value, props.dateForToggle)
                        && (r.value.entry.isDelivered <==> props.currentDayStatus != Some(Delivered))
  {
    if isToggling || props.currentDayStatus == Some(NotStarted) || props.currentDayStatus == Some(Future)
       || !OwnerPresent(props.ownerEmail)
    then None
    else
      var newBaseDeliveryStatus := props.currentDayStatus != Some(Delivered);
      Some(ToggleRequest(
        SaveEntry(props.customerName, props.ownerEmail.value, props.dateForToggle, newBaseDeliveryStatus),
        FormatYYYYMMDD(props.dateForToggle)))
  }

  /** The day travels as `YYYY-MM-DD` and, for four-digit years, reads back
      as the same day. */
  lemma ToggleWireDateRoundTrip(isToggling: bool, props: CellProps)
    requires ValidDate(props.dateForToggle) && 1000 <= props.dateForToggle.year <= 9999
    requires HandleToggle(isToggling, props).Some?
    ensures ParseYYYYMMDD(HandleToggle(isToggling, props).value.wireDate) == Some(props.dateForToggle)
  {
    FormatRoundTrip(props.dateForToggle);
  }

  /** The label a started, past day gets from the log's key set. */
  function LabelFromLog(keys: set<NonDeliveryRecord>, k: NonDeliveryRecord): DayStatus {
    if k in keys then Undelivered else Delivered
  }

  function PropsFor(status: DayStatus, name: string, ownerEmail: string, day: Date): CellProps {
    CellProps(Some(status), name, Some(ownerEmail), day, None, 0.0)
  }

  /** Each toggle of a started, past day flips its record in the log, and a
      second toggle, made from the refreshed label, restores the log. */
  lemma ToggleTwiceRestores(keys: set<NonDeliveryRecord>, name: string, ownerEmail: string, day: Date)
    requires ValidDate(day) && |ownerEmail| > 0
    ensures var k := NonDeliveryRecord(name, ownerEmail, day);
            var first := HandleToggle(false, PropsFor(LabelFromLog(keys, k), name, ownerEmail, day));
            && first.Some?
            && var keys1 := Step(keys, first.value.entry);
               && (k in keys1 <==> k !in keys)
               && var second := HandleToggle(false, PropsFor(LabelFromLog(keys1, k), name, ownerEmail, day));
                  && second.Some?
                  && Step(keys1, second.value.entry) == keys
  {
  }

  datatype Display = Spinner | Amount(value: Option<real>) | Text(text: string)

  /** What the cell shows. */
  function CellDisplay(isToggling: bool, props: CellProps): (d: Display)
    ensures d == Spinner <==> isToggling
    ensures d == Text("-") <==> !isToggling && (props.currentDayStatus == Some(NotStarted) || props.currentDayStatus == Some(Future))
    ensures d == Text("") <==> !isToggling && props.currentDayStatus.None?
    ensures d == Text("0") <==> !isToggling && props.currentDayStatus == Some(Undelivered) && props.extraSaleQuantityForDay <= 0.0
    ensures !isToggling && props.currentDayStatus == Some(Delivered) ==> d == Amount(props.displayQuantity)
    ensures !isToggling && props.currentDayStatus == Some(Undelivered) && props.extraSaleQuantityForDay > 0.0 ==>
              d == Amount(Some(props.extraSaleQuantityForDay))
    ensures d.Amount? ==> !isToggling && (props.currentDayStatus == Some(Delivered) || props.currentDayStatus == Some(Undelivered))
  {
    if isToggling then Spinner
    else match props.currentDayStatus
      case Some(Delivered) => Amount(props.displayQuantity)
      case Some(Undelivered) =>
        if props.extraSaleQuantityForDay > 0.0 then Amount(Some(props.extraSaleQuantityForDay)) else Text("0")
      case Some(NotStarted) => Text("-")
      case Some(Future) => Text("-")
      case None => Text("")
  }

  // ---------------------------------------------------------------------
  // The props app/Monthlydata/page.js passes

  /** As written, the page passes the label as `status` and the owner inside
      `customer`, while the component reads `currentDayStatus` and
      `ownerEmail`; neither arrives. */
  function PagePropsAsWritten(status: DayStatus, name: string, ownerEmail: string, day: Date): CellProps {
    CellProps(None, name, None, day, None, 0.0)
  }

  /** On the page as written no delivered or undelivered cell can be toggled,
      and every such cell is blank. */
  lemma PageToggleNeverFires(status: DayStatus, name: string, ownerEmail: string, day: Date)
    requires ValidDate(day)
    ensures HandleToggle(false, PagePropsAsWritten(status, name, ownerEmail, day)).None?
    ensures CellDisplay(false, PagePropsAsWritten(status, name, ownerEmail, day)) == Text("")
  {
  }

  /** The props of app/components/Monthlydata.js: the label, the combined
      quantity of the day and its extra quantity, under the names the
      component reads. */
  function GridProps(status: DayStatus, name: string, ownerEmail: string, day: Date, quantity: real, extra: real): CellProps {
    CellProps(Some(status), name, Some(ownerEmail), day, Some(quantity), extra)
  }

  /** With the props under the names the component reads, a delivered or
      undelivered cell toggles its day; a delivered cell shows the day's
      quantity and an undelivered one its extra quantity, or "0" without. */
  lemma PageToggleCorrected(status: DayStatus, name: string, ownerEmail: string, day: Date, quantity: real, extra: real)
    requires ValidDate(day) && |ownerEmail| > 0 && (status == Delivered || status == Undelivered)
    ensures var r := HandleToggle(false, GridProps(status, name, ownerEmail, day, quantity, extra));
            && r.Some?
            && EntryKey(r.value.entry) == NonDeliveryRecord(name, ownerEmail, day)
            && (r.value.entry.isDelivered <==> status == Undelivered)
    ensures var d := CellDisplay(false, GridProps(status, name, ownerEmail, day, quantity, extra));
            && (status == Delivered ==> d == Amount(Some(quantity)))
            && (status == Undelivered ==> d == if extra > 0.0 then Amount(Some(extra)) else Text("0"))
  {
  }
}
