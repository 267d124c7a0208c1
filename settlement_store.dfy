/** The settlement route over the collection of bill snapshots: records are
    looked up and upserted by (customer name, owner, month, year).  An update
    overwrites total and paid and recomputes what remains; an insert stores
    the amounts as sent.  Saving a record that breaks the schema of
    models/Bill.js fails and leaves the collection as it was. */
module SettlementStore {
  import opened Wrappers
  import opened Records
  import opened Calendar
  import opened Aggregates
  import opened Billing

  predicate KeysDistinct(bills: seq<Bill>) {
    forall i, j :: 0 <= i < j < |bills| ==> bills[i].Key() != bills[j].Key()
  }

  function RequestKey(req: SettleRequest): BillKey {
    BillKey(req.customerName, req.ownerEmail, req.month, req.year)
  }

  /** `Bill.findOne(key)`: the position of the first record with the key. */
  function FindBill(bills: seq<Bill>, key: BillKey): (r: Option<nat>)
    ensures r.Some? ==> r.value < |bills| && bills[r.value].Key() == key
                        && forall j :: 0 <= j < r.value ==> bills[j].Key() != key
    ensures r.None? ==> forall j :: 0 <= j < |bills| ==> bills[j].Key() != key
  {
    if bills == [] then None
    else if bills[0].Key() == key then Some(0)
    else match FindBill(bills[1..], key)
      case None => None
      case Some(i) => Some(i + 1)
  }

  /** The record the route saves for `req` at time `now`. */
  function SettledRecord(bills: seq<Bill>, req: SettleRequest, now: int): Bill {
    match FindBill(bills, RequestKey(req))
    case Some(i) => bills[i].(total := req.total, paid := req.paid, remaining := req.total - req.paid)
    case None => Bill(req.customerName, req.ownerEmail, req.month, req.year, req.total, req.paid, req.remaining, now)
  }

  /** The collection after a successful save. */
  function AfterSettle(bills: seq<Bill>, req: SettleRequest, now: int): seq<Bill> {
    match FindBill(bills, RequestKey(req))
    case Some(i) => bills[i := SettledRecord(bills, req, now)]
    case None => bills + [SettledRecord(bills, req, now)]
  }

  /** Updating an existing record: total and paid as sent, remaining
      recomputed from them (the remaining in the request is ignored), and the
      original settlement time kept. */
  lemma UpdateRecomputesRemaining(bills: seq<Bill>, req: SettleRequest, now: int, sentRemaining: real)
    requires FindBill(bills, RequestKey(req)).Some?
    ensures var old_ := bills[FindBill(bills, RequestKey(req)).value];
            var b := SettledRecord(bills, req, now);
            && b.Key() == RequestKey(req)
            && b.total == req.total && b.paid == req.paid && Balanced(b)
            && b.settledAt == old_.settledAt
            && b == SettledRecord(bills, req.(remaining := sentRemaining), now)
  {
  }

  /** Inserting a new record: every amount exactly as sent, settled now. */
  lemma InsertStoresAsSent(bills: seq<Bill>, req: SettleRequest, now: int)
    requires FindBill(bills, RequestKey(req)).None?
    ensures var b := SettledRecord(bills, req, now);
            && b.Key() == RequestKey(req)
            && b.total == req.total && b.paid == req.paid && b.remaining == req.remaining
            && b.settledAt == now
  {
  }

  /** An update that records more paid than billed cannot be saved: the
      recomputed remaining is negative. */
  lemma OverpaymentCannotBeSaved(bills: seq<Bill>, req: SettleRequest, now: int)
    requires FindBill(bills, RequestKey(req)).Some? && req.paid > req.total
    ensures !BillSchemaValid(SettledRecord(bills, req, now))
  {
  }

  /** The upsert never creates a second record for a key, leaves exactly one
      record with the request's key, and keeps every record with another key. */
  lemma AfterSettleKeyed(bills: seq<Bill>, req: SettleRequest, now: int)
    requires KeysDistinct(bills)
    ensures KeysDistinct(AfterSettle(bills, req, now))
    ensures SettledRecord(bills, req, now) in AfterSettle(bills, req, now)
    ensures forall b :: b in AfterSettle(bills, req, now) && b.Key() == RequestKey(req) ==> b == SettledRecord(bills, req, now)
    ensures forall b: Bill :: b.Key() != RequestKey(req) ==> (b in AfterSettle(bills, req, now) <==> b in bills)
    ensures |AfterSettle(bills, req, now)| == |bills| + (if FindBill(bills, RequestKey(req)).Some? then 0 else 1)
  {
    var key := RequestKey(req);
    var after := AfterSettle(bills, req, now);
    var rec := SettledRecord(bills, req, now);
    match FindBill(bills, key)
    case Some(i) =>
      assert after == bills[i := rec];
      assert after[i] == rec;
      forall b: Bill | b.Key() != key ensures b in after <==> b in bills {
        if b in bills {
          var j :| 0 <= j < |bills| && bills[j] == b;
          assert j != i && after[j] == b;
        }
        if b in after {
          var j :| 0 <= j < |after| && after[j] == b;
          assert j != i && bills[j] == b;
        }
      }
    case None =>
      assert after == bills + [rec];
  }

  /** A payment the bill page accepts, computed from a snapshot that the
      collection holds under the same key, can always be saved, and the
      saved record is balanced.  So the schema's lower bounds only ever
      reject requests the page itself does not send. */
  lemma AcceptedPaymentIsSaved(bills: seq<Bill>, c: Customer, amount: Option<real>, ownerEmail: string, month: int, year: int,
                               deliveryData: map<nat, DeliveryRow>, extraMap: map<string, real>, settledBills: map<string, Bill>, now: int)
    requires forall b :: b in bills ==> BillSchemaValid(b) && Balanced(b)
    requires |c.name| > 0 && |ownerEmail| > 0 && 0 <= month <= 11
    requires c.price >= 0.0 && c.quantity >= 0.0 && LookupQuantity(extraMap, c.name) >= 0.0
    requires HandleSettleBill(Some(c), amount, ownerEmail, month, year, deliveryData, extraMap, settledBills).Ok?
    requires var key := BillKey(c.name, ownerEmail, month, year);
             && (c.name in settledBills <==> FindBill(bills, key).Some?)
             && (c.name in settledBills ==> settledBills[c.name] == bills[FindBill(bills, key).value])
    ensures var req := HandleSettleBill(Some(c), amount, ownerEmail, month, year, deliveryData, extraMap, settledBills).value;
            BillSchemaValid(SettledRecord(bills, req, now)) && Balanced(SettledRecord(bills, req, now))
  {
    var req := HandleSettleBill(Some(c), amount, ownerEmail, month, year, deliveryData, extraMap, settledBills).value;
    var st := CalculateBillStatus(c, deliveryData, extraMap, settledBills);
    assert RequestKey(req) == BillKey(c.name, ownerEmail, month, year);
    if c.name in settledBills {
      assert settledBills[c.name] in bills;
    }
    RemainingIsOwed(c, deliveryData, extraMap, settledBills);
    LiveTotalNonNegative(c, deliveryData, extraMap, settledBills);
  }

  datatype SettleOutcome = Updated | Inserted | ServerError

  /** The HTTP status of each outcome. */
  function StatusCode(o: SettleOutcome): int {
    match o
    case Updated => 200
    case Inserted => 200
    case ServerError => 500
  }

  /** The bill collection. */
  class BillCollection {
    var bills: seq<Bill>

    ghost predicate Valid()
      reads this
    {
      KeysDistinct(bills) && forall i :: 0 <= i < |bills| ==> BillSchemaValid(bills[i])
    }

    constructor ()
      ensures bills == [] && Valid()
    {
      bills := [];
    }

    /** The settlement route's `POST`.  `fault` stands for a failure of the
        store itself (connection or write), which is answered with 500. */
    method SettleBill(req: SettleRequest, now: int, fault: bool) returns (outcome: SettleOutcome)
      requires Valid()
      modifies this
      ensures Valid()
      ensures outcome == ServerError <==> fault || !BillSchemaValid(SettledRecord(old(bills), req, now))
      ensures outcome == Updated ==> FindBill(old(bills), RequestKey(req)).Some?
      ensures outcome == Inserted ==> FindBill(old(bills), RequestKey(req)).None?
      ensures outcome == ServerError ==> bills == old(bills)
      ensures outcome != ServerError ==> bills == AfterSettle(old(bills), req, now)
    {
      if fault {
        return ServerError;
      }
      var key := RequestKey(req);
      var i := 0;
      while i < |bills| && bills[i].Key() != key
        invariant 0 <= i <= |bills|
        invariant forall j :: 0 <= j < i ==> bills[j].Key() != key
      {
        i := i + 1;
      }
      if i < |bills| {
        assert FindBill(bills, key) == Some(i);
        var existing := bills[i].(total := req.total, paid := req.paid);
        existing := existing.(remaining := existing.total - existing.paid);
        if !BillSchemaValid(existing) {
          return ServerError;
        }
        bills := bills[i := existing];
        outcome := Updated;
      } else {
        assert FindBill(bills, key) == None;
        var newBill := Bill(req.customerName, req.ownerEmail, req.month, req.year, req.total, req.paid, req.remaining, now);
        if !BillSchemaValid(newBill) {
          return ServerError;
        }
        bills := bills + [newBill];
        outcome := Inserted;
      }
    }
  }
}
