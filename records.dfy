/** The persisted documents of the application (the mongoose models under models/), as values. */
module Records {
  import opened Dates

  /** models/Customer.js.  `id` stands for the store-assigned `_id`;
      `isDelivered` is the coarse "currently delivering" flag, default true. */
  datatype Customer = Customer(
    id: nat,
    name: string,
    phoneno: int,
    quantity: real,
    price: real,
    startDate: Date,
    ownerEmail: string,
    isDelivered: bool)

  /** models/Undelivered.js: delivery did not happen for `name` on that day. */
  datatype NonDeliveryRecord = NonDeliveryRecord(name: string, ownerEmail: string, dateNotDelivered: Date)

  /** models/Extra.js: a one-off sale outside the daily subscription. */
  datatype ExtraSale = ExtraSale(id: nat, name: string, ownerEmail: string, quantity: real, date: Date)

  /** models/PausedCustomer.js. */
  datatype PausedCustomer = PausedCustomer(name: string, ownerEmail: string, pausedFrom: Date)

  /** models/Bill.js: the last settlement snapshot of one customer's month.
      `settledAt` is a timestamp in milliseconds. */
  datatype Bill = Bill(
    customerName: string,
    ownerEmail: string,
    month: int,
    year: int,
    total: real,
    paid: real,
    remaining: real,
    settledAt: int)
  {
    /** The upsert key of the settlement route. */
    function Key(): BillKey {
      BillKey(customerName, ownerEmail, month, year)
    }
  }

  datatype BillKey = BillKey(customerName: string, ownerEmail: string, month: int, year: int)

  /** The schema's validators: required strings are non-empty, the month lies
      in 0..11, and the three amounts are at least 0. */
  predicate BillSchemaValid(b: Bill) {
    && |b.customerName| > 0
    && |b.ownerEmail| > 0
    && 0 <= b.month <= 11
    && b.total >= 0.0
    && b.paid >= 0.0
    && b.remaining >= 0.0
  }

  /** A snapshot whose remaining amount is what is still owed. */
  predicate Balanced(b: Bill) {
    b.remaining == b.total - b.paid
  }

  /** The JSON body the bill page posts to the settlement route. */
  datatype SettleRequest = SettleRequest(
    customerName: string,
    ownerEmail: string,
    month: int,
    year: int,
    total: real,
    paid: real,
    remaining: real)
}
