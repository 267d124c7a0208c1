/** The customer-creation route over the customer collection: a customer
    name is unique per owner, and a new customer is stored with the
    request's fields renamed to the schema's. */
module CustomerStore {
  import opened Dates
  import opened Records

  /** The request body: `phone` and `pricePerLitre` are the schema's
      `phoneno` and `price`. */
  datatype NewCustomerRequest = NewCustomerRequest(
    name: string, phone: int, quantity: real, pricePerLitre: real, startDate: Date, ownerEmail: string)

  /** The schema of models/Customer.js: both strings are required, so neither
      may be empty; `isDelivered` defaults to true. */
  predicate CustomerSchemaValid(c: Customer) {
    |c.name| > 0 && |c.ownerEmail| > 0
  }

  /** The document the route builds, under the id the store assigns. */
  function FromRequest(req: NewCustomerRequest, id: nat): (c: Customer)
    ensures c.name == req.name && c.ownerEmail == req.ownerEmail && c.id == id
    ensures c.phoneno == req.phone && c.price == req.pricePerLitre
    ensures c.quantity == req.quantity && c.startDate == req.startDate && c.isDelivered
  {
    Customer(id, req.name, req.phone, req.quantity, req.pricePerLitre, req.startDate, req.ownerEmail, true)
  }

  /** `findOne({ name, ownerEmail })` finds something. */
  predicate NameTaken(customers: seq<Customer>, name: string, ownerEmail: string) {
    exists c :: c in customers && c.name == name && c.ownerEmail == ownerEmail
  }

  /** No two customers share both name and owner. */
  predicate PairsUnique(customers: seq<Customer>) {
    forall i, j :: 0 <= i < j < |customers| ==>
      customers[i].name != customers[j].name || customers[i].ownerEmail != customers[j].ownerEmail
  }

  datatype AddOutcome = Added | Duplicate | ServerError

  function StatusCode(o: AddOutcome): int {
    match o
    case Added => 200
    case Duplicate => 400
    case ServerError => 500
  }

  /** The route's answer.  `fault` stands for a failure of the store itself
      (connection, query or write). */
  function AddOutcomeFor(customers: seq<Customer>, req: NewCustomerRequest, fault: bool): (o: AddOutcome)
    ensures o == Duplicate <==> !fault && NameTaken(customers, req.name, req.ownerEmail)
    ensures o == Added <==> !fault && !NameTaken(customers, req.name, req.ownerEmail) && |req.name| > 0 && |req.ownerEmail| > 0
  {
    if fault then ServerError
    else if NameTaken(customers, req.name, req.ownerEmail) then Duplicate
    else if !CustomerSchemaValid(FromRequest(req, 0)) then ServerError
    else Added
  }

  /** The collection after the route: one customer more when added,
      unchanged otherwise. */
  function AfterAdd(customers: seq<Customer>, req: NewCustomerRequest, fault: bool, id: nat): seq<Customer> {
    if AddOutcomeFor(customers, req, fault) == Added then customers + [FromRequest(req, id)] else customers
  }

  /** Successful inserts, one after another, keep (name, owner) unique and
      store only customers that satisfy the schema. */
  lemma AddKeepsPairsUnique(customers: seq<Customer>, req: NewCustomerRequest, fault: bool, id: nat)
    requires PairsUnique(customers)
    ensures PairsUnique(AfterAdd(customers, req, fault, id))
    ensures AddOutcomeFor(customers, req, fault) == Added ==> CustomerSchemaValid(FromRequest(req, id))
  {
    if AddOutcomeFor(customers, req, fault) == Added {
      var after := customers + [FromRequest(req, id)];
      forall i, j | 0 <= i < j < |after|
        ensures after[i].name != after[j].name || after[i].ownerEmail != after[j].ownerEmail
      {
        if j == |customers| {
          assert after[i] in customers;
        }
      }
    }
  }

  /** Sending the same request again after it was added is a duplicate. */
  lemma AddTwiceIsDuplicate(customers: seq<Customer>, req: NewCustomerRequest, id: nat)
    requires AddOutcomeFor(customers, req, false) == Added
    ensures AddOutcomeFor(AfterAdd(customers, req, false, id), req, false) == Duplicate
  {
    assert FromRequest(req, id) in AfterAdd(customers, req, false, id);
  }

  /** A name used under another owner does not block the insert. */
  lemma OtherOwnerDoesNotBlock(customers: seq<Customer>, req: NewCustomerRequest, other: string, id: nat)
    requires other != req.ownerEmail && |req.name| > 0 && |req.ownerEmail| > 0
    requires forall c :: c in customers ==> c.ownerEmail == other
    ensures AddOutcomeFor(customers, req, false) == Added
  {
  }

  /** The customer collection; `nextId` stands for the store's fresh ids. */
  class CustomerCollection {
    var customers: seq<Customer>
    var nextId: nat

    ghost predicate Valid()
      reads this
    {
      PairsUnique(customers)
      && (forall i :: 0 <= i < |customers| ==> CustomerSchemaValid(customers[i]) && customers[i].id < nextId)
    }

    constructor ()
      ensures customers == [] && Valid()
    {
      customers := [];
      nextId := 0;
    }

    /** The route's `POST`: look for the (name, owner) pair, then insert. */
    method AddCustomer(req: NewCustomerRequest, fault: bool) returns (outcome: AddOutcome)
      requires Valid()
      modifies this
      ensures Valid()
      ensures outcome == AddOutcomeFor(old(customers), req, fault)
      ensures customers == AfterAdd(old(customers), req, fault, old(nextId))
      ensures outcome == Added ==> customers[|customers| - 1].id !in set c | c in old(customers) :: c.id
    {
      if fault {
        return ServerError;
      }
      var i := 0;
      while i < |customers| && !(customers[i].name == req.name && customers[i].ownerEmail == req.ownerEmail)
        invariant 0 <= i <= |customers|
        invariant forall j :: 0 <= j < i ==> !(customers[j].name == req.name && customers[j].ownerEmail == req.ownerEmail)
      {
        i := i + 1;
      }
      if i < |customers| {
        return Duplicate;
      }
      var newCustomer := Customer(nextId, req.name, req.phone, req.quantity, req.pricePerLitre, req.startDate, req.ownerEmail, true);
      if !CustomerSchemaValid(newCustomer) {
        return ServerError;
      }
      AddKeepsPairsUnique(customers, req, fault, nextId);
      customers := customers + [newCustomer];
      nextId := nextId + 1;
      outcome := Added;
    }
  }
}
