/** The two indexes every calendar and bill view builds from fetched records:
    the per-customer set of non-delivery days (`undeliveredMap`) and the sums
    of extra-sale quantities per customer (`extraMap`) and per day and
    customer (the per-day `extraMap` of the monthly grid). */
module Aggregates {
  import opened Dates
  import opened Records
  import Sequences

  // ---------------------------------------------------------------------
  // Non-delivery index

  /** The days on which `name` has a non-delivery record. */
  function NonDeliveryDates(records: seq<NonDeliveryRecord>, name: string): set<Date> {
    set r | r in records && r.name == name :: r.dateNotDelivered
  }

  lemma NonDeliveryDatesSnoc(records: seq<NonDeliveryRecord>, r: NonDeliveryRecord, name: string)
    ensures NonDeliveryDates(records + [r], name)
            == NonDeliveryDates(records, name) + (if r.name == name then {r.dateNotDelivered} else {})
  {
    var lhs, rhs := NonDeliveryDates(records + [r], name), NonDeliveryDates(records, name) + (if r.name == name then {r.dateNotDelivered} else {});
    forall d | d in lhs ensures d in rhs {
      var q :| q in records + [r] && q.name == name && q.dateNotDelivered == d;
      if q != r { assert q in records; }
    }
  }

  /** `undeliveredMap[name]?.has(day)`: a missing name has no non-delivery days. */
  function LookupDates(index: map<string, set<Date>>, name: string): set<Date> {
    if name in index then index[name] else {}
  }

  /** The `undeliveredMap` loop: one set of days per name that has records;
      repeated records for the same day collapse into one member. */
  method IndexNonDelivery(records: seq<NonDeliveryRecord>) returns (index: map<string, set<Date>>)
    ensures forall n :: n in index <==> exists r :: r in records && r.name == n
    ensures forall n :: LookupDates(index, n) == NonDeliveryDates(records, n)
  {
    index := map[];
    var i := 0;
    while i < |records|
      invariant 0 <= i <= |records|
      invariant forall n :: n in index <==> exists r :: r in records[..i] && r.name == n
      invariant forall n :: LookupDates(index, n) == NonDeliveryDates(records[..i], n)
    {
      var r := records[i];
      if r.name !in index {
        index := index[r.name := {}];
      }
      index := index[r.name := index[r.name] + {r.dateNotDelivered}];
      assert records[..i + 1] == records[..i] + [r];
      forall n ensures LookupDates(index, n) == NonDeliveryDates(records[..i + 1], n) {
        NonDeliveryDatesSnoc(records[..i], r, n);
      }
      i := i + 1;
    }
    assert records[..i] == records;
  }

  // ---------------------------------------------------------------------
  // Extra-sale sums

  /** Sum of the quantities of the sales selected by `p`, accumulated in
      record order as the `forEach` loops do. */
  function SumWhere(sales: seq<ExtraSale>, p: ExtraSale -> bool): real {
    if sales == [] then 0.0
    else SumWhere(sales[..|sales| - 1], p) + (if p(sales[|sales| - 1]) then sales[|sales| - 1].quantity else 0.0)
  }

  /** Total extra quantity of one customer over the fetched sales. */
  function QuantityFor(sales: seq<ExtraSale>, name: string): real {
    SumWhere(sales, (e: ExtraSale) => e.name == name)
  }

  /** Total extra quantity of one customer on one day. */
  function QuantityOn(sales: seq<ExtraSale>, day: Date, name: string): real {
    SumWhere(sales, (e: ExtraSale) => e.date == day && e.name == name)
  }

  lemma {:induction false} SumWhereAppend(a: seq<ExtraSale>, b: seq<ExtraSale>, p: ExtraSale -> bool)
    ensures SumWhere(a + b, p) == SumWhere(a, p) + SumWhere(b, p)
  {
    if b != [] {
      assert (a + b)[..|a + b| - 1] == a + b[..|b| - 1];
      SumWhereAppend(a, b[..|b| - 1], p);
    } else {
      assert a + b == a;
    }
  }

  /** Taking one record out of the sequence takes out its contribution. */
  lemma {:induction false} SumWhereRemoveAt(ys: seq<ExtraSale>, i: nat, p: ExtraSale -> bool)
    requires i < |ys|
    ensures SumWhere(ys, p) == SumWhere(ys[..i] + ys[i + 1..], p) + (if p(ys[i]) then ys[i].quantity else 0.0)
  {
    assert ys == ys[..i] + ([ys[i]] + ys[i + 1..]);
    SumWhereAppend(ys[..i], [ys[i]] + ys[i + 1..], p);
    SumWhereAppend([ys[i]], ys[i + 1..], p);
    SumWhereAppend(ys[..i], ys[i + 1..], p);
    assert [ys[i]][..0] == [];
  }

  /** The sums do not depend on the order in which the records arrive. */
  lemma {:induction false} SumWhereOrderIndependent(xs: seq<ExtraSale>, ys: seq<ExtraSale>, p: ExtraSale -> bool)
    requires multiset(xs) == multiset(ys)
    ensures SumWhere(xs, p) == SumWhere(ys, p)
  {
    if xs == [] {
      assert |ys| == |multiset(ys)| == 0;
    } else {
      var x := xs[|xs| - 1];
      var xs' := xs[..|xs| - 1];
      assert xs == xs' + [x];
      assert x in multiset(ys);
      var i :| 0 <= i < |ys| && ys[i] == x;
      var ys' := ys[..i] + ys[i + 1..];
      Sequences.MultisetRemoveAt(ys, i);
      assert multiset(xs') == multiset(xs) - multiset{x};
      var own := if p(x) then x.quantity else 0.0;
      assert SumWhere(xs, p) == SumWhere(xs', p) + own;
      SumWhereRemoveAt(ys, i, p);
      assert SumWhere(ys, p) == SumWhere(ys', p) + own;
      SumWhereOrderIndependent(xs', ys', p);
    }
  }

  lemma QuantityForOrderIndependent(xs: seq<ExtraSale>, ys: seq<ExtraSale>, name: string)
    requires multiset(xs) == multiset(ys)
    ensures QuantityFor(xs, name) == QuantityFor(ys, name)
  {
    SumWhereOrderIndependent(xs, ys, (e: ExtraSale) => e.name == name);
  }

  /** A customer without sales has nothing to add. */
  lemma {:induction false} SumWhereNone(sales: seq<ExtraSale>, p: ExtraSale -> bool)
    requires forall e :: e in sales ==> !p(e)
    ensures SumWhere(sales, p) == 0.0
  {
    if sales != [] {
      SumWhereNone(sales[..|sales| - 1], p);
    }
  }

  /** Quantities are non-negative, so are their sums. */
  lemma {:induction false} SumWhereNonNegative(sales: seq<ExtraSale>, p: ExtraSale -> bool)
    requires forall e :: e in sales ==> e.quantity >= 0.0
    ensures SumWhere(sales, p) >= 0.0
  {
    if sales != [] {
      SumWhereNonNegative(sales[..|sales| - 1], p);
    }
  }

  /** One sale further, a name's total grows by that sale when it is that
      name's. */
  lemma QuantityForSnoc(sales: seq<ExtraSale>, i: nat, name: string)
    requires i < |sales|
    ensures QuantityFor(sales[..i + 1], name) ==
            QuantityFor(sales[..i], name) + (if sales[i].name == name then sales[i].quantity else 0.0)
  {
    assert sales[..i + 1][..i] == sales[..i];
  }

  /** `extraMap[name] || 0` */
  function LookupQuantity(extraMap: map<string, real>, name: string): real {
    if name in extraMap then extraMap[name] else 0.0
  }

  /** The `extraMap` loop of the bill and summary views: a name is a key
      exactly when it has at least one sale, and maps to its total. */
  method BuildExtraMap(sales: seq<ExtraSale>) returns (extraMap: map<string, real>)
    ensures forall n :: n in extraMap <==> exists e :: e in sales && e.name == n
    ensures forall n :: LookupQuantity(extraMap, n) == QuantityFor(sales, n)
  {
    extraMap := map[];
    var i := 0;
    while i < |sales|
      invariant 0 <= i <= |sales|
      invariant forall n :: n in extraMap <==> exists e :: e in sales[..i] && e.name == n
      invariant forall n :: LookupQuantity(extraMap, n) == QuantityFor(sales[..i], n)
    {
      var e := sales[i];
      if e.name !in extraMap {
        extraMap := extraMap[e.name := 0.0];
      }
      extraMap := extraMap[e.name := extraMap[e.name] + e.quantity];
      forall n ensures LookupQuantity(extraMap, n) == QuantityFor(sales[..i + 1], n) {
        QuantityForSnoc(sales, i, n);
      }
      assert sales[..i + 1] == sales[..i] + [e];
      i := i + 1;
    }
    assert sales[..i] == sales;
  }

  /** One sale further, the day's total for a name grows by that sale when
      it is for that day and name. */
  lemma QuantityOnSnoc(sales: seq<ExtraSale>, i: nat, day: Date, name: string)
    requires i < |sales|
    ensures QuantityOn(sales[..i + 1], day, name) ==
            QuantityOn(sales[..i], day, name) + (if sales[i].date == day && sales[i].name == name then sales[i].quantity else 0.0)
  {
    assert sales[..i + 1][..i] == sales[..i];
  }

  /** `extraMap[day]?.[name] || 0` */
  function LookupDaily(daily: map<Date, map<string, real>>, day: Date, name: string): real {
    if day in daily && name in daily[day] then daily[day][name] else 0.0
  }

  /** The per-day `extraMap` loop of the monthly grid: every sale sharing a
      (day, name) pair is added into one entry. */
  method BuildDailyExtraMap(sales: seq<ExtraSale>) returns (daily: map<Date, map<string, real>>)
    ensures forall d :: d in daily <==> exists e :: e in sales && e.date == d
    ensures forall d, n :: LookupDaily(daily, d, n) == QuantityOn(sales, d, n)
  {
    daily := map[];
    var i := 0;
    while i < |sales|
      invariant 0 <= i <= |sales|
      invariant forall d :: d in daily <==> exists e :: e in sales[..i] && e.date == d
      invariant forall d, n :: LookupDaily(daily, d, n) == QuantityOn(sales[..i], d, n)
    {
      var e := sales[i];
      if e.date !in daily {
        daily := daily[e.date := map[]];
      }
      if e.name !in daily[e.date] {
        daily := daily[e.date := daily[e.date][e.name := 0.0]];
      }
      daily := daily[e.date := daily[e.date][e.name := daily[e.date][e.name] + e.quantity]];
      forall d, n ensures LookupDaily(daily, d, n) == QuantityOn(sales[..i + 1], d, n) {
        QuantityOnSnoc(sales, i, d, n);
      }
      assert sales[..i + 1] == sales[..i] + [e];
      i := i + 1;
    }
    assert sales[..i] == sales;
  }
}
