/** The dashboard: today's delivery flag per customer, the optimistic flip of
    one flag, the batch the save button sends, and the stats cards. */
module Dashboard {
  import opened Wrappers
  import opened Dates
  import opened Records
  import opened Calendar
  import opened Aggregates
  import opened Sequences
  import opened UndeliveredStore

  // ---------------------------------------------------------------------
  // Today's flags

  /** True when some non-delivery record names `name` on `day` (the
      dashboard's `undeliveredSet` lookup). */
  predicate MarkedOff(undelivered: seq<NonDeliveryRecord>, name: string, day: Date) {
    exists u :: u in undelivered && u.name == name && u.dateNotDelivered == day
  }

  /** Each customer, with `isDelivered` set from today's records. */
  function TodayFlags(customers: seq<Customer>, undelivered: seq<NonDeliveryRecord>, today: Date): (r: seq<Customer>)
    ensures |r| == |customers|
    ensures forall i :: 0 <= i < |r| ==> r[i].(isDelivered := customers[i].isDelivered) == customers[i]
    ensures forall i :: 0 <= i < |r| ==> (r[i].isDelivered <==> today !in NonDeliveryDates(undelivered, customers[i].name))
  {
    seq(|customers|, i requires 0 <= i < |customers| =>
      customers[i].(isDelivered := !MarkedOff(undelivered, customers[i].name, today)))
  }

  /** For a customer who has started, today's flag agrees with the label the
      calendar gives today. */
  lemma TodayFlagMatchesCalendar(customers: seq<Customer>, undelivered: seq<NonDeliveryRecord>, today: Date, i: nat)
    requires i < |customers| && !Before(today, customers[i].startDate)
    ensures var off := NonDeliveryDates(undelivered, customers[i].name);
            && (TodayFlags(customers, undelivered, today)[i].isDelivered <==>
                  DayStatusOf(FutureFirst, today, customers[i].startDate, today, off) == Delivered)
            && (!TodayFlags(customers, undelivered, today)[i].isDelivered <==>
                  DayStatusOf(FutureFirst, today, customers[i].startDate, today, off) == Undelivered)
  {
    var off := NonDeliveryDates(undelivered, customers[i].name);
    DeliveredExactly(FutureFirst, today, customers[i].startDate, today, off);
  }

  // ---------------------------------------------------------------------
  // The optimistic flip

  /** `handleCheckboxChange`: the entry with the id gets the opposite flag. */
  function FlipById(list: seq<Customer>, id: nat): (r: seq<Customer>)
    ensures |r| == |list|
    ensures forall i :: 0 <= i < |list| && list[i].id != id ==> r[i] == list[i]
    ensures forall i :: 0 <= i < |list| && list[i].id == id ==>
              r[i].isDelivered == !list[i].isDelivered && r[i].(isDelivered := list[i].isDelivered) == list[i]
  {
    seq(|list|, i requires 0 <= i < |list| =>
      if list[i].id == id then list[i].(isDelivered := !list[i].isDelivered) else list[i])
  }

  /** Flipping the same id twice restores the list. */
  lemma FlipTwiceRestores(list: seq<Customer>, id: nat)
    ensures FlipById(FlipById(list, id), id) == list
  {
    var twice := FlipById(FlipById(list, id), id);
    assert forall i :: 0 <= i < |list| ==> twice[i] == list[i];
  }

  /** Flips of two ids commute. */
  lemma FlipsCommute(list: seq<Customer>, a: nat, b: nat)
    ensures FlipById(FlipById(list, a), b) == FlipById(FlipById(list, b), a)
  {
    var ab, ba := FlipById(FlipById(list, a), b), FlipById(FlipById(list, b), a);
    assert forall i :: 0 <= i < |list| ==> ab[i] == ba[i];
  }

  // ---------------------------------------------------------------------
  // The save button

  predicate EmailPresent(email: Option<string>) {
    email.Some? && |email.value| > 0
  }

  /** `saveUndeliveredCustomers`: without a signed-in email nothing is sent;
      otherwise one entry per listed customer, in order, for `today`. */
  function SaveBatch(list: seq<Customer>, sessionEmail: Option<string>, today: Date): (r: Option<seq<SaveEntry>>)
    ensures r.None? <==> !EmailPresent(sessionEmail)
    ensures r.Some? ==> |r.value| == |list|
    ensures r.Some? ==> forall i :: 0 <= i < |list| ==>
              r.value[i] == SaveEntry(list[i].name, sessionEmail.value, today, list[i].isDelivered)
  {
    if !EmailPresent(sessionEmail) then None
    else Some(seq(|list|, i requires 0 <= i < |list| =>
      SaveEntry(list[i].name, sessionEmail.value, today, list[i].isDelivered)))
  }

  predicate DistinctNames(list: seq<Customer>) {
    forall i, j :: 0 <= i < j < |list| ==> list[i].name != list[j].name
  }

  /** After the batch is stored, each listed customer has a record for today
      exactly when the flag says not delivered, and every record for another
      owner or another day is as it was. */
  lemma SavedTodayMatchesFlags(keys: set<NonDeliveryRecord>, list: seq<Customer>, ownerEmail: string, today: Date)
    requires |ownerEmail| > 0 && DistinctNames(list)
    ensures var after := ApplyBatch(keys, SaveBatch(list, Some(ownerEmail), today).value);
            && (forall i :: 0 <= i < |list| ==>
                  (NonDeliveryRecord(list[i].name, ownerEmail, today) in after <==> !list[i].isDelivered))
            && (forall k: NonDeliveryRecord :: k.ownerEmail != ownerEmail || k.dateNotDelivered != today ==> (k in after <==> k in keys))
  {
    var batch := SaveBatch(list, Some(ownerEmail), today).value;
    assert DistinctKeys(batch) by {
      forall i, j | 0 <= i < j < |batch| ensures EntryKey(batch[i]) != EntryKey(batch[j]) {
        assert list[i].name != list[j].name;
      }
    }
    forall i | 0 <= i < |list|
      ensures NonDeliveryRecord(list[i].name, ownerEmail, today) in ApplyBatch(keys, batch) <==> !list[i].isDelivered
    {
      LastForDistinct(batch, i);
      LastEntryDecides(keys, batch, EntryKey(batch[i]));
    }
    forall k: NonDeliveryRecord | k.ownerEmail != ownerEmail || k.dateNotDelivered != today
      ensures k in ApplyBatch(keys, batch) <==> k in keys
    {
      LastEntryDecides(keys, batch, k);
    }
  }

  /** Saving the flags exactly as loaded leaves today's records of the listed
      customers as they were. */
  lemma SaveAsLoadedKeepsToday(customers: seq<Customer>, undelivered: seq<NonDeliveryRecord>, ownerEmail: string, today: Date, i: nat)
    requires |ownerEmail| > 0 && DistinctNames(customers) && i < |customers|
    requires forall u :: u in undelivered ==> u.ownerEmail == ownerEmail
    ensures var k := NonDeliveryRecord(customers[i].name, ownerEmail, today);
            (k in ApplyBatch(KeySet(undelivered), SaveBatch(TodayFlags(customers, undelivered, today), Some(ownerEmail), today).value) <==>
               k in KeySet(undelivered))
  {
    var flags := TodayFlags(customers, undelivered, today);
    assert DistinctNames(flags) by {
      forall a, b | 0 <= a < b < |flags| ensures flags[a].name != flags[b].name {
        assert flags[a].name == customers[a].name && flags[b].name == customers[b].name;
      }
    }
    SavedTodayMatchesFlags(KeySet(undelivered), flags, ownerEmail, today);
    assert flags[i].name == customers[i].name;
  }

  /** As written, the dashboard renders the status list without its
      `session` prop, so the save button always finds no email. */
  function DashboardSaveAsWritten(list: seq<Customer>, signedInEmail: string, today: Date): Option<seq<SaveEntry>> {
    SaveBatch(list, None, today)
  }

  lemma DashboardSaveNeverSends(list: seq<Customer>, signedInEmail: string, today: Date)
    ensures DashboardSaveAsWritten(list, signedInEmail, today).None?
  {
  }

  /** With the session passed, a signed-in owner's save sends the batch:
      one entry per listed customer, under the owner's email and today. */
  function DashboardSave(list: seq<Customer>, signedInEmail: string, today: Date): (r: Option<seq<SaveEntry>>)
    ensures r.Some? <==> |signedInEmail| > 0
    ensures r.Some? ==> |r.value| == |list|
    ensures r.Some? ==> forall i :: 0 <= i < |list| ==>
              r.value[i] == SaveEntry(list[i].name, signedInEmail, today, list[i].isDelivered)
  {
    SaveBatch(list, Some(signedInEmail), today)
  }

  // ---------------------------------------------------------------------
  // Stats cards

  datatype Stats = Stats(total: nat, active: nat, newThisMonth: nat)

  /** The `status` and `dateStarted` fields the stats read: models/Customer.js
      defines neither, so both are undefined on every stored customer. */
  function StatusField(c: Customer): Option<string> { None }
  function DateStartedField(c: Customer): Option<Date> { None }

  predicate ActiveAsWritten(c: Customer) {
    StatusField(c) == Some("active")
  }

  predicate NewAsWritten(c: Customer, thisMonth: int, thisYear: int) {
    DateStartedField(c).Some? && DateStartedField(c).value.month0 == thisMonth && DateStartedField(c).value.year == thisYear
  }

  function StatsAsWritten(customers: seq<Customer>, thisMonth: int, thisYear: int): Stats {
    Stats(|customers|,
          |Filter(customers, ActiveAsWritten)|,
          |Filter(customers, (c: Customer) => NewAsWritten(c, thisMonth, thisYear))|)
  }

  /** As written, "active" and "new this month" are zero whatever the
      customers are. */
  lemma StatsAsWrittenAlwaysZero(customers: seq<Customer>, thisMonth: int, thisYear: int)
    ensures StatsAsWritten(customers, thisMonth, thisYear).active == 0
    ensures StatsAsWritten(customers, thisMonth, thisYear).newThisMonth == 0
  {
    FilterKeepsNone(customers, ActiveAsWritten);
    FilterKeepsNone(customers, (c: Customer) => NewAsWritten(c, thisMonth, thisYear));
  }

  predicate StartedIn(c: Customer, thisMonth: int, thisYear: int) {
    c.startDate.month0 == thisMonth && c.startDate.year == thisYear
  }

  /** The stats over the fields the schema has: active customers are those
      flagged delivered, new ones those whose start date falls in this
      month. */
  function DashboardStats(customers: seq<Customer>, thisMonth: int, thisYear: int): (s: Stats)
    ensures s.total == |customers|
    ensures s.active <= s.total && s.newThisMonth <= s.total
    ensures s.newThisMonth > 0 <==> exists c :: c in customers && StartedIn(c, thisMonth, thisYear)
    ensures s.active > 0 <==> exists c :: c in customers && c.isDelivered
    ensures s.active == |set i | 0 <= i < |customers| && customers[i].isDelivered|
    ensures s.newThisMonth == |set i | 0 <= i < |customers| && StartedIn(customers[i], thisMonth, thisYear)|
  {
    var isActive := (c: Customer) => c.isDelivered;
    var isRecent := (c: Customer) => StartedIn(c, thisMonth, thisYear);
    var active := Filter(customers, isActive);
    var recent := Filter(customers, isRecent);
    FilterCountIsCardinality(customers, isActive);
    FilterCountIsCardinality(customers, isRecent);
    assert IndicesWhere(customers, isActive) == set i | 0 <= i < |customers| && customers[i].isDelivered;
    assert IndicesWhere(customers, isRecent) == set i | 0 <= i < |customers| && StartedIn(customers[i], thisMonth, thisYear);
    assert |active| > 0 ==> active[0] in active;
    assert |recent| > 0 ==> recent[0] in recent;
    Stats(|customers|, |active|, |recent|)
  }
}
