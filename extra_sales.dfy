/** Extra sales: the totals route's owner scope, month window and
    newest-first order, and the sales list's month filter, pages and
    delete. */
module ExtraSales {
  import opened Wrappers
  import opened Dates
  import opened Records
  import opened Sequences

  /** The order both the route and the list use: `a` may come before `b`
      when it is not older. */
  predicate NewerOrSame(a: ExtraSale, b: ExtraSale) {
    !Before(a.date, b.date)
  }

  lemma NewestFirstIsTotal()
    ensures Total(NewerOrSame)
  {
    forall a: ExtraSale, b: ExtraSale ensures NewerOrSame(a, b) || NewerOrSame(b, a) {
      if Before(a.date, b.date) {
        assert !Before(b.date, a.date);
      }
    }
  }

  // ---------------------------------------------------------------------
  // app/api/totalextra/route.js

  /** The route's filter: the owner's records, and, when both month and year
      are sent, only those in [start of the month, start of the next). */
  predicate RouteMatch(e: ExtraSale, ownerEmail: string, month: Option<int>, year: Option<int>) {
    e.ownerEmail == ownerEmail
    && (month.Some? && year.Some? ==>
          !Before(e.date, MonthStart(year.value, month.value)) && Before(e.date, MonthStart(year.value, month.value + 1)))
  }

  /** The records the route's query selects, in stored order. */
  function RouteFilter(extras: seq<ExtraSale>, ownerEmail: string, month: Option<int>, year: Option<int>): (r: seq<ExtraSale>)
    ensures forall e :: e in r <==> e in extras && RouteMatch(e, ownerEmail, month, year)
  {
    Filter(extras, (e: ExtraSale) => RouteMatch(e, ownerEmail, month, year))
  }

  /** The totals route: 400 without an owner, 500 when the store's query
      throws (`fault`), otherwise the matching records sorted newest first. */
  function TotalExtra(extras: seq<ExtraSale>, ownerEmail: Option<string>, month: Option<int>, year: Option<int>, fault: bool)
    : (r: Result<seq<ExtraSale>, int>)
    ensures r.Err? <==> ownerEmail.None? || ownerEmail.value == "" || fault
    ensures r.Err? ==> r.error == if ownerEmail.None? || ownerEmail.value == "" then 400 else 500
    ensures r.Ok? ==> multiset(r.value) == multiset(RouteFilter(extras, ownerEmail.value, month, year))
    ensures r.Ok? ==> SortedBy(r.value, NewerOrSame)
  {
    if ownerEmail.None? || ownerEmail.value == "" then Err(400)
    else if fault then Err(500)
    else
      NewestFirstIsTotal();
      Ok(SortBy(RouteFilter(extras, ownerEmail.value, month, year), NewerOrSame))
  }

  /** What the route returns, record by record: a stored record with a valid
      date is returned exactly when it is the owner's and, if both month and
      year are sent, falls in that calendar month (month 12 being January of
      the next year, month -1 December of the previous). */
  lemma TotalExtraSelects(extras: seq<ExtraSale>, ownerEmail: string, month: Option<int>, year: Option<int>, e: ExtraSale)
    requires ownerEmail != "" && ValidDate(e.date)
    ensures var r := TotalExtra(extras, Some(ownerEmail), month, year, false);
            r.Ok? && (e in r.value <==>
              e in extras && e.ownerEmail == ownerEmail
              && (month.Some? && year.Some? ==>
                    (e.date.year, e.date.month0) == (MonthStart(year.value, month.value).year, MonthStart(year.value, month.value).month0)))
  {
    var r := TotalExtra(extras, Some(ownerEmail), month, year, false);
    var f := RouteFilter(extras, ownerEmail, month, year);
    assert e in r.value <==> e in multiset(f);
    assert e in f <==> e in extras && RouteMatch(e, ownerEmail, month, year);
    if month.Some? && year.Some? {
      MonthWindowExact(e.date, year.value, month.value);
    }
  }

  /** Without month or year the route applies no date restriction. */
  lemma TotalExtraWithoutMonthKeepsAll(extras: seq<ExtraSale>, ownerEmail: string, month: Option<int>, year: Option<int>)
    requires ownerEmail != "" && (month.None? || year.None?)
    requires forall e :: e in extras ==> e.ownerEmail == ownerEmail
    ensures multiset(TotalExtra(extras, Some(ownerEmail), month, year, false).value) == multiset(extras)
  {
    FilterKeepsAll(extras, (e: ExtraSale) => RouteMatch(e, ownerEmail, month, year));
    assert RouteFilter(extras, ownerEmail, month, year) == extras;
  }

  // ---------------------------------------------------------------------
  // app/components/AdditionalSale.js

  const SalesPerPage: nat := 5

  /** The fetched sales, newest first. */
  function NewestFirst(sales: seq<ExtraSale>): (r: seq<ExtraSale>)
    ensures multiset(r) == multiset(sales)
    ensures SortedBy(r, NewerOrSame)
  {
    NewestFirstIsTotal();
    SortBy(sales, NewerOrSame)
  }

  /** The month filter: everything when no month is given, otherwise the sales
      whose month equals it, in any year. */
  function MonthFilter(sales: seq<ExtraSale>, month: Option<int>): (r: seq<ExtraSale>)
    ensures month.None? ==> r == sales
    ensures forall e :: e in r <==> e in sales && (month.None? || e.date.month0 == month.value)
  {
    if month.None? then sales else Filter(sales, (e: ExtraSale) => e.date.month0 == month.value)
  }

  /** The month filter does not look at the year: two sales of the same month
      in different years are both kept. */
  lemma MonthFilterIgnoresYear(a: ExtraSale, b: ExtraSale, m: int)
    requires a.date.month0 == m && b.date.month0 == m && a.date.year != b.date.year
    ensures a in MonthFilter([a, b], Some(m)) && b in MonthFilter([a, b], Some(m))
  {
  }

  /** The sales on page `page` (counted from 1). */
  function Page(sales: seq<ExtraSale>, page: int): (r: seq<ExtraSale>)
    ensures |r| <= SalesPerPage
    ensures page >= 1 && SalesPerPage * (page - 1) <= |sales| ==>
              r == sales[SalesPerPage * (page - 1) .. if SalesPerPage * page <= |sales| then SalesPerPage * page else |sales|]
  {
    var indexOfLastSale := page * SalesPerPage;
    var indexOfFirstSale := indexOfLastSale - SalesPerPage;
    Slice(sales, indexOfFirstSale, indexOfLastSale)
  }

  /** `Math.ceil(n / 5)`. */
  function TotalPages(n: nat): (pages: nat)
    ensures SalesPerPage * pages >= n
    ensures pages > 0 ==> SalesPerPage * (pages - 1) < n
  {
    (n + SalesPerPage - 1) / SalesPerPage
  }

  /** Pages 1..k, one after the other. */
  function PagesUpTo(sales: seq<ExtraSale>, k: nat): seq<ExtraSale> {
    if k == 0 then [] else PagesUpTo(sales, k - 1) + Page(sales, k)
  }

  lemma {:induction false} PagesUpToPrefix(sales: seq<ExtraSale>, k: nat)
    requires SalesPerPage * k <= |sales| + SalesPerPage - 1
    ensures PagesUpTo(sales, k) == sales[..if SalesPerPage * k <= |sales| then SalesPerPage * k else |sales|]
  {
    if k > 0 {
      PagesUpToPrefix(sales, k - 1);
    }
  }

  /** Pages 1..TotalPages show every sale exactly once, in list order, and
      none of them is empty. */
  lemma PagesCoverAll(sales: seq<ExtraSale>)
    ensures PagesUpTo(sales, TotalPages(|sales|)) == sales
    ensures forall p :: 1 <= p <= TotalPages(|sales|) ==> Page(sales, p) != []
    ensures forall p :: p > TotalPages(|sales|) ==> Page(sales, p) == []
  {
    PagesUpToPrefix(sales, TotalPages(|sales|));
    assert sales[..|sales|] == sales;
    forall p | 1 <= p <= TotalPages(|sales|) ensures Page(sales, p) != [] {
      assert Page(sales, p)[0] == sales[SalesPerPage * (p - 1)];
    }
    forall p | p > TotalPages(|sales|) ensures Page(sales, p) == [] {
      assert SliceBound(p * SalesPerPage - SalesPerPage, |sales|) == |sales|;
    }
  }

  /** `handleDelete` after the route answered: the sales without that id. */
  function RemoveById(sales: seq<ExtraSale>, id: nat): (r: seq<ExtraSale>)
    ensures forall e :: e in r <==> e in sales && e.id != id
  {
    Filter(sales, (e: ExtraSale) => e.id != id)
  }

  predicate UniqueIds(sales: seq<ExtraSale>) {
    forall i, j :: 0 <= i < j < |sales| ==> sales[i].id != sales[j].id
  }

  /** With distinct ids, deleting removes exactly the sale at its position and
      keeps the others in order; an unknown id changes nothing. */
  lemma {:induction false} RemoveByIdExact(sales: seq<ExtraSale>, i: nat)
    requires UniqueIds(sales) && i < |sales|
    ensures RemoveById(sales, sales[i].id) == sales[..i] + sales[i + 1..]
  {
    var id := sales[i].id;
    var p := (e: ExtraSale) => e.id != id;
    var front, back := sales[..i], sales[i + 1..];
    assert sales == front + [sales[i]] + back;
    forall x | x in front ensures p(x) {
      var j :| 0 <= j < |front| && front[j] == x;
      assert x == sales[j];
    }
    forall x | x in back ensures p(x) {
      var j :| 0 <= j < |back| && back[j] == x;
      assert x == sales[i + 1 + j];
    }
    FilterDropsOne(front, sales[i], back, p);
  }

  lemma RemoveUnknownId(sales: seq<ExtraSale>, id: nat)
    requires forall e :: e in sales ==> e.id != id
    ensures RemoveById(sales, id) == sales
  {
    FilterKeepsAll(sales, (e: ExtraSale) => e.id != id);
  }
}
