/**
 * The reports page (`src/pages/Reports.tsx`): headline figures, sales per
 * category, revenue per month and the five best-selling products. All four
 * read every stored invoice, whatever its status, and take an invoice's value
 * from its `total` field.
 */
module Reports {
  import opened Wrappers
  import opened JsNumber
  import opened Text
  import opened Seqs
  import opened Sorting
  import opened Grouping
  import opened Types
  import DataStore
  import Billing
  import BillingFlow

  // -------------------------------------------------------------- headline

  /** The field the page reads as an invoice's value. */
  function TotalOf(inv: Invoice): Option<real> { inv.body.total }

  function CgstOf(inv: Invoice): real { inv.body.cgst }
  function SgstOf(inv: Invoice): real { inv.body.sgst }
  function IgstOf(inv: Invoice): real { inv.body.igst }

  datatype ReportStats = ReportStats(totalRevenue: Num, totalGst: real, totalInvoices: nat, avgInvoiceValue: Num)

  /** Summing each invoice's tax is summing the three tax columns separately. */
  lemma {:induction false} GstColumns(invoices: seq<Invoice>)
    ensures SumOf(invoices, InvoiceGst) == SumOf(invoices, CgstOf) + SumOf(invoices, SgstOf) + SumOf(invoices, IgstOf)
    decreases |invoices|
  {
    if |invoices| > 0 {
      GstColumns(invoices[..|invoices| - 1]);
    }
  }

  /**
   * `stats`: the revenue is finite exactly when every invoice has a `total`,
   * and is then their plain sum; the tax is the sum of the three columns; the
   * average times the count gives back the revenue, and is 0 without invoices.
   */
  function Stats(invoices: seq<Invoice>): (r: ReportStats)
    ensures r.totalInvoices == |invoices|
    ensures r.totalRevenue.Fin? <==> forall i :: 0 <= i < |invoices| ==> invoices[i].body.total.Some?
    ensures r.totalRevenue.Fin? ==> r.totalRevenue.v == SumPresent(invoices, TotalOf)
    ensures r.totalGst == SumOf(invoices, CgstOf) + SumOf(invoices, SgstOf) + SumOf(invoices, IgstOf)
    ensures |invoices| == 0 ==> r.avgInvoiceValue == Fin(0.0)
    ensures |invoices| > 0 ==> (r.avgInvoiceValue.Fin? <==> r.totalRevenue.Fin?)
    ensures |invoices| > 0 && r.avgInvoiceValue.Fin? ==>
      r.avgInvoiceValue.v * (|invoices| as real) == r.totalRevenue.v
  {
    SumFieldFinite(invoices, TotalOf);
    GstColumns(invoices);
    var revenue := SumField(invoices, TotalOf);
    var n := |invoices|;
    ReportStats(revenue, SumOf(invoices, InvoiceGst), n, if n > 0 then DivCount(revenue, n) else Fin(0.0))
  }

  /** An invoice with a `total` in front keeps the revenue finite exactly when it was, and adds to it. */
  lemma RevenueCons(x: Invoice, rest: seq<Invoice>)
    requires x.body.total.Some?
    ensures var after := Stats([x] + rest);
      var before := Stats(rest);
      && after.totalInvoices == before.totalInvoices + 1
      && (after.totalRevenue.Fin? <==> before.totalRevenue.Fin?)
      && (after.totalRevenue.Fin? ==> after.totalRevenue.v == before.totalRevenue.v + x.body.total.value)
  {
    SumPresentCons(x, rest, TotalOf);
    assert forall i :: 0 <= i < |rest| ==> rest[i] == ([x] + rest)[i + 1];
  }

  /**
   * A bill adds one invoice carrying `total`: the revenue stays finite exactly
   * when it was, and then grows by the bill's grand total.
   */
  lemma BilledRevenueAdds(form: Billing.BillingForm, s: State, c: Clock, calls: seq<DataStore.StoreCall>)
    requires DataStore.UniqueProductIds(s.products)
    requires Billing.GenerateInvoice(form, s, c) == Success(calls)
    ensures var after := Stats(DataStore.Run(s, calls, c).invoices);
      var before := Stats(s.invoices);
      && after.totalInvoices == before.totalInvoices + 1
      && (after.totalRevenue.Fin? <==> before.totalRevenue.Fin?)
      && (after.totalRevenue.Fin? ==>
            after.totalRevenue.v == before.totalRevenue.v + Billing.CalculateTotals(form.items, form.isInterState).total)
  {
    var inv := DataStore.Run(s, calls, c).invoices;
    BillingFlow.BillingStoredInvoice(form, s, c, calls);
    HeadThenRest(inv, s.invoices);
    RevenueCons(inv[0], s.invoices);
  }

  // ------------------------------------------------------- sales by category

  /** Every line of every invoice, invoice by invoice (the two nested `forEach`). */
  function AllItems(invoices: seq<Invoice>): seq<InvoiceItem>
    decreases |invoices|
  {
    if |invoices| == 0 then []
    else AllItems(invoices[..|invoices| - 1]) + invoices[|invoices| - 1].body.items
  }

  /** The category and amount a line adds, when its product still exists. */
  function CategorySale(products: seq<Product>, it: InvoiceItem): Option<(string, real)> {
    match DataStore.FindProduct(products, it.productId)
    case None => None
    case Some(p) => Some((p.category, Billing.LineAmount(it)))
  }

  function CategorySales(products: seq<Product>): InvoiceItem -> Option<(string, real)> {
    (it: InvoiceItem) => CategorySale(products, it)
  }

  /** The `(key, amount)` pairs `sale` yields, in order; lines it yields nothing for add none. */
  function SalePairs(items: seq<InvoiceItem>, sale: InvoiceItem -> Option<(string, real)>): seq<(string, real)>
    decreases |items|
  {
    if |items| == 0 then []
    else
      var x := sale(items[|items| - 1]);
      SalePairs(items[..|items| - 1], sale) + (if x.Some? then [x.value] else [])
  }

  /** `salesByCategory`: the map from category to amount, in first-seen order. */
  function SalesByCategory(invoices: seq<Invoice>, products: seq<Product>): (r: seq<(string, real)>)
    ensures DistinctKeys(r)
  {
    GroupByEntries(SalePairs(AllItems(invoices), CategorySales(products)), PlusReal);
    GroupBy(SalePairs(AllItems(invoices), CategorySales(products)), PlusReal)
  }

  predicate Sells(sale: InvoiceItem -> Option<(string, real)>, it: InvoiceItem, k: string) {
    sale(it).Some? && sale(it).value.0 == k
  }

  function SaleAmount(sale: InvoiceItem -> Option<(string, real)>, k: string): InvoiceItem -> real {
    (it: InvoiceItem) => if Sells(sale, it, k) then sale(it).value.1 else 0.0
  }

  /** The line's product exists now and is in category `k`. */
  predicate SoldIn(products: seq<Product>, it: InvoiceItem, k: string) {
    Sells(CategorySales(products), it, k)
  }

  /** Reference: what one line contributes to category `k` (its amount, when sold in `k`). */
  function CategoryAmount(products: seq<Product>, k: string): InvoiceItem -> real {
    SaleAmount(CategorySales(products), k)
  }

  lemma {:induction false} SalePairsSum(items: seq<InvoiceItem>, sale: InvoiceItem -> Option<(string, real)>, k: string)
    ensures SumOf(SalePairs(items, sale), AmountFor(k)) == SumOf(items, SaleAmount(sale, k))
    decreases |items|
  {
    if |items| > 0 {
      var p := items[..|items| - 1];
      var x := sale(items[|items| - 1]);
      var tail: seq<(string, real)> := if x.Some? then [x.value] else [];
      SalePairsSum(p, sale, k);
      SumOfAppend(SalePairs(p, sale), tail, AmountFor(k));
    }
  }

  lemma {:induction false} SalePairsKeys(items: seq<InvoiceItem>, sale: InvoiceItem -> Option<(string, real)>, k: string)
    ensures KeyIn(SalePairs(items, sale), k) <==> exists j :: 0 <= j < |items| && Sells(sale, items[j], k)
    decreases |items|
  {
    if |items| > 0 {
      var p := items[..|items| - 1];
      var last := items[|items| - 1];
      var x := sale(last);
      var tail: seq<(string, real)> := if x.Some? then [x.value] else [];
      assert SalePairs(items, sale) == SalePairs(p, sale) + tail;
      SalePairsKeys(p, sale, k);
      KeyInAppend(SalePairs(p, sale), tail, k);
      assert KeyIn(tail, k) <==> Sells(sale, last, k) by {
        if Sells(sale, last, k) {
          assert tail[0].0 == k;
        }
      }
      if exists j :: 0 <= j < |items| && Sells(sale, items[j], k) {
        var j :| 0 <= j < |items| && Sells(sale, items[j], k);
        if j < |p| {
          assert p[j] == items[j];
        }
      }
      if exists j :: 0 <= j < |p| && Sells(sale, p[j], k) {
        var j :| 0 <= j < |p| && Sells(sale, p[j], k);
        assert items[j] == p[j];
      }
    }
  }

  /**
   * One entry per category, and a category is listed exactly when some line
   * sold a product that exists now in that category; its value is the sum of
   * those lines' amounts.
   */
  lemma SalesByCategoryCorrect(invoices: seq<Invoice>, products: seq<Product>)
    ensures var r := SalesByCategory(invoices, products);
      var items := AllItems(invoices);
      && DistinctKeys(r)
      && (forall i :: 0 <= i < |r| ==> r[i].1 == SumOf(items, CategoryAmount(products, r[i].0)))
      && (forall k :: KeyIn(r, k) <==> exists j :: 0 <= j < |items| && SoldIn(products, items[j], k))
  {
    var items := AllItems(invoices);
    var xs := SalePairs(items, CategorySales(products));
    var r := GroupBy(xs, PlusReal);
    GroupByEntries(xs, PlusReal);
    forall i | 0 <= i < |r|
      ensures r[i].1 == SumOf(items, CategoryAmount(products, r[i].0))
    {
      FoldKeySum(xs, r[i].0);
      SalePairsSum(items, CategorySales(products), r[i].0);
    }
    forall k
      ensures KeyIn(r, k) <==> exists j :: 0 <= j < |items| && SoldIn(products, items[j], k)
    {
      SalePairsKeys(items, CategorySales(products), k);
    }
  }

  // --------------------------------------------------------- monthly revenue

  /** `date.slice(0, 7)`: the `YYYY-MM` part of a stored date. */
  function MonthOf(date: string): string {
    Slice(date, 0, 7)
  }

  /** Every invoice has a `date`; reading `slice` on a missing one throws. */
  predicate AllDated(invoices: seq<Invoice>) {
    forall i :: 0 <= i < |invoices| ==> invoices[i].body.date.Some?
  }

  /** The `(month, total)` pair each invoice contributes. */
  function MonthPairs(invoices: seq<Invoice>): seq<(string, Num)> {
    seq(|invoices|, i requires 0 <= i < |invoices| =>
      (MonthOf(invoices[i].body.date.GetOr([])), OfField(invoices[i].body.total)))
  }

  /**
   * `(monthMap.get(month) || 0) + invoice.total` for a month already present.
   * A month's first invoice stores `0 + total`, which is its total.
   */
  function MonthCombine(acc: Num, total: Num): Num {
    Add(OrZero(acc), total)
  }

  /** The comparator `a.month.localeCompare(b.month) <= 0`, on code points. */
  function MonthLe(a: (string, Num), b: (string, Num)): bool {
    LexLe(a.0, b.0)
  }

  lemma MonthOrder()
    ensures TotalPreorder(MonthLe)
  {
    forall a: (string, Num), b: (string, Num)
      ensures MonthLe(a, b) || MonthLe(b, a)
    {
      LexLeTotal(a.0, b.0);
    }
    forall a: (string, Num), b: (string, Num), d: (string, Num) | MonthLe(a, b) && MonthLe(b, d)
      ensures MonthLe(a, d)
    {
      LexLeTransitive(a.0, b.0, d.0);
    }
  }

  /** `monthlyRevenue`: fails on an undated invoice, otherwise at most six months. */
  function MonthlyRevenue(invoices: seq<Invoice>): (r: Option<seq<(string, Num)>>)
    ensures r.None? <==> !AllDated(invoices)
    ensures r.Some? ==> |r.value| <= 6
  {
    if !AllDated(invoices) then None
    else Some(TakeLast(Sort(GroupBy(MonthPairs(invoices), MonthCombine), MonthLe), 6))
  }

  /**
   * The months shown are distinct, in ascending order, the latest six of the
   * months that occur, each with the accumulated value of its invoices.
   */
  lemma MonthlyRevenueCorrect(invoices: seq<Invoice>)
    requires AllDated(invoices)
    ensures var xs := MonthPairs(invoices);
      var g := GroupBy(xs, MonthCombine);
      var r := MonthlyRevenue(invoices).value;
      && DistinctKeys(g)
      && |r| == (if |g| < 6 then |g| else 6)
      && Sorted(r, MonthLe)
      && (forall i :: 0 <= i < |r| ==> FoldKey(xs, r[i].0, MonthCombine) == Some(r[i].1))
      && (forall x, y :: x in multiset(g) - multiset(r) && y in r ==> MonthLe(x, y))
      && multiset(r) <= multiset(g)
      && DistinctKeys(r)
  {
    var xs := MonthPairs(invoices);
    var g := GroupBy(xs, MonthCombine);
    var r := MonthlyRevenue(invoices).value;
    MonthOrder();
    LargestLast(g, MonthLe, 6);
    MonthValues(xs, r);
    DistinctKeysSub(g, r);
  }

  /** Entries drawn from the grouping hold their month's accumulated value. */
  lemma MonthValues(xs: seq<(string, Num)>, r: seq<(string, Num)>)
    requires multiset(r) <= multiset(GroupBy(xs, MonthCombine))
    ensures DistinctKeys(GroupBy(xs, MonthCombine))
    ensures forall i :: 0 <= i < |r| ==> FoldKey(xs, r[i].0, MonthCombine) == Some(r[i].1)
  {
    var g := GroupBy(xs, MonthCombine);
    GroupByEntries(xs, MonthCombine);
    forall i | 0 <= i < |r|
      ensures FoldKey(xs, r[i].0, MonthCombine) == Some(r[i].1)
    {
      assert r[i] in multiset(r);
      var j :| 0 <= j < |g| && g[j] == r[i];
    }
  }

  /** Reference: a month's revenue counting the invoices that carry a total. */
  function MonthAmount(k: string): ((string, Num)) -> real {
    (p: (string, Num)) => if p.0 == k && p.1.Fin? then p.1.v else 0.0
  }

  /** When every invoice of the month has a total, the month shows their sum. */
  lemma {:induction false} MonthTotalAllPresent(xs: seq<(string, Num)>, k: string)
    requires forall i :: 0 <= i < |xs| && xs[i].0 == k ==> xs[i].1.Fin?
    ensures FoldKey(xs, k, MonthCombine).GetOr(Fin(0.0)) == Fin(SumOf(xs, MonthAmount(k)))
    decreases |xs|
  {
    if |xs| > 0 {
      MonthTotalAllPresent(xs[..|xs| - 1], k);
    }
  }

  /**
   * `NaN || 0` is 0, so a missing total is forgotten by the month's next
   * invoice: the month shows NaN when its latest invoice lacks a total, and
   * otherwise the sum of the totals after the last one missing.
   */
  lemma {:induction false} MonthTotalSinceLastMissing(xs: seq<(string, Num)>, k: string, j: nat)
    requires j < |xs| && xs[j].0 == k && xs[j].1.NaN?
    requires forall i :: j < i < |xs| && xs[i].0 == k ==> xs[i].1.Fin?
    ensures FoldKey(xs, k, MonthCombine) ==
      if KeyIn(xs[j + 1..], k) then Some(Fin(SumOf(xs[j + 1..], MonthAmount(k)))) else Some(NaN)
    decreases |xs|
  {
    var n := |xs|;
    var p := xs[..n - 1];
    if n > j + 1 {
      MonthTotalSinceLastMissing(p, k, j);
      var after := xs[j + 1..];
      assert after == p[j + 1..] + [xs[n - 1]];
      assert after[..|after| - 1] == p[j + 1..];
      KeyInAppend(p[j + 1..], [xs[n - 1]], k);
      if xs[n - 1].0 == k && !KeyIn(p[j + 1..], k) {
        SumOfZero(p[j + 1..], MonthAmount(k));
      }
    } else {
      assert xs[j + 1..] == [];
    }
  }

  // ------------------------------------------------------------ top products

  /** What `topProducts` keeps per product: the latest line's name, units sold and revenue. */
  datatype TopProduct = TopProduct(name: string, quantity: int, revenue: real)

  function ProductPair(it: InvoiceItem): (string, TopProduct) {
    (it.productId, TopProduct(it.productName, it.quantity, Billing.LineAmount(it)))
  }

  function ProductPairs(items: seq<InvoiceItem>): seq<(string, TopProduct)> {
    seq(|items|, i requires 0 <= i < |items| => ProductPair(items[i]))
  }

  /** The entry written for a product already present: the new line's name, the sums of the rest. */
  function TopCombine(acc: TopProduct, line: TopProduct): TopProduct {
    TopProduct(line.name, acc.quantity + line.quantity, acc.revenue + line.revenue)
  }

  /** The map from product id to its accumulated entry, in first-sold order. */
  function ProductTotals(invoices: seq<Invoice>): (r: seq<(string, TopProduct)>)
    ensures DistinctKeys(r)
  {
    GroupByEntries(ProductPairs(AllItems(invoices)), TopCombine);
    GroupBy(ProductPairs(AllItems(invoices)), TopCombine)
  }

  /** The comparator `b.revenue - a.revenue <= 0`: higher revenue first. */
  function RevenueFirst(a: (string, TopProduct), b: (string, TopProduct)): bool {
    b.1.revenue <= a.1.revenue
  }

  lemma RevenueOrder()
    ensures TotalPreorder(RevenueFirst)
  {
  }

  function Values(entries: seq<(string, TopProduct)>): seq<TopProduct> {
    seq(|entries|, i requires 0 <= i < |entries| => entries[i].1)
  }

  lemma ValuesAppend(a: seq<(string, TopProduct)>, b: seq<(string, TopProduct)>)
    ensures Values(a + b) == Values(a) + Values(b)
  {
  }

  /** Values of entries drawn from `b` are drawn from the values of `b`. */
  lemma {:induction false} ValuesSub(a: seq<(string, TopProduct)>, b: seq<(string, TopProduct)>)
    requires multiset(a) <= multiset(b)
    ensures multiset(Values(a)) <= multiset(Values(b))
    decreases |a|
  {
    if |a| > 0 {
      var x := a[0];
      assert a == [x] + a[1..];
      assert x in multiset(b);
      var k :| 0 <= k < |b| && b[k] == x;
      var rest := b[..k] + b[k + 1..];
      assert b == b[..k] + [x] + b[k + 1..];
      assert multiset(b) == multiset(rest) + multiset{x};
      assert multiset(a) == multiset(a[1..]) + multiset{x};
      forall y
        ensures multiset(a[1..])[y] <= multiset(rest)[y]
      {
        assert multiset(a)[y] <= multiset(b)[y];
      }
      ValuesSub(a[1..], rest);
      ValuesAppend([x], a[1..]);
      ValuesAppend(b[..k], b[k + 1..]);
      ValuesAppend(b[..k], [x]);
      ValuesAppend(b[..k] + [x], b[k + 1..]);
    }
  }

  /** `topProducts`: the values of the map, by revenue, highest first, at most five. */
  function TopProducts(invoices: seq<Invoice>): (r: seq<TopProduct>)
    ensures |r| <= 5
  {
    Values(TakeFirst(Sort(ProductTotals(invoices), RevenueFirst), 5))
  }

  /** Reference definitions, per product id. */
  function UnitsOf(id: string): InvoiceItem -> int {
    (it: InvoiceItem) => if it.productId == id then it.quantity else 0
  }

  function RevenueOf(id: string): InvoiceItem -> real {
    (it: InvoiceItem) => if it.productId == id then Billing.LineAmount(it) else 0.0
  }

  /** The name on the last line selling `id`. */
  function LastName(items: seq<InvoiceItem>, id: string): Option<string>
    decreases |items|
  {
    if |items| == 0 then None
    else if items[|items| - 1].productId == id then Some(items[|items| - 1].productName)
    else LastName(items[..|items| - 1], id)
  }

  lemma {:induction false} FoldProduct(items: seq<InvoiceItem>, id: string)
    ensures LastName(items, id).None? ==> SumOfInt(items, UnitsOf(id)) == 0 && SumOf(items, RevenueOf(id)) == 0.0
    ensures FoldKey(ProductPairs(items), id, TopCombine) ==
      if LastName(items, id).None? then None
      else Some(TopProduct(LastName(items, id).value, SumOfInt(items, UnitsOf(id)), SumOf(items, RevenueOf(id))))
    decreases |items|
  {
    if |items| > 0 {
      var p := items[..|items| - 1];
      FoldProduct(p, id);
      assert ProductPairs(items)[..|items| - 1] == ProductPairs(p);
    }
  }

  lemma {:induction false} LastNameFound(items: seq<InvoiceItem>, id: string)
    ensures LastName(items, id).Some? <==> Sold(items, id)
    decreases |items|
  {
    if |items| > 0 {
      var p := items[..|items| - 1];
      LastNameFound(p, id);
      if exists j :: 0 <= j < |p| && p[j].productId == id {
        var j :| 0 <= j < |p| && p[j].productId == id;
        assert items[j] == p[j];
      }
      if exists j :: 0 <= j < |items| && items[j].productId == id {
        var j :| 0 <= j < |items| && items[j].productId == id;
        if j < |p| {
          assert p[j] == items[j];
        }
      }
    }
  }

  /** Some line sold product `id`. */
  predicate Sold(items: seq<InvoiceItem>, id: string) {
    exists j :: 0 <= j < |items| && items[j].productId == id
  }

  /** The entry holds the name on the product's last line, its total units and its total revenue. */
  predicate Accumulated(items: seq<InvoiceItem>, e: (string, TopProduct)) {
    && LastName(items, e.0).Some?
    && e.1 == TopProduct(LastName(items, e.0).value, SumOfInt(items, UnitsOf(e.0)), SumOf(items, RevenueOf(e.0)))
  }

  /**
   * One entry per product id sold, and each entry holds the name on that
   * product's last line, its total units and its total revenue.
   */
  lemma ProductTotalsCorrect(invoices: seq<Invoice>)
    ensures DistinctKeys(ProductTotals(invoices))
    ensures forall k :: KeyIn(ProductTotals(invoices), k) <==> Sold(AllItems(invoices), k)
    ensures forall i :: 0 <= i < |ProductTotals(invoices)| ==>
      Accumulated(AllItems(invoices), ProductTotals(invoices)[i])
  {
    var items := AllItems(invoices);
    var xs := ProductPairs(items);
    var g := ProductTotals(invoices);
    GroupByEntries(xs, TopCombine);
    forall i | 0 <= i < |g|
      ensures Accumulated(items, g[i])
    {
      FoldProduct(items, g[i].0);
    }
    forall k
      ensures KeyIn(g, k) <==> Sold(items, k)
    {
      FoldProduct(items, k);
      LastNameFound(items, k);
      FoldKeyPresent(xs, k, TopCombine);
    }
  }

  /** A product left out of the first five earned no more than any product kept. */
  lemma RankExcluded(g: seq<(string, TopProduct)>, e: (string, TopProduct))
    requires e in g && e.1 !in Values(TakeFirst(Sort(g, RevenueFirst), 5))
    ensures var r := Values(TakeFirst(Sort(g, RevenueFirst), 5));
      forall i :: 0 <= i < |r| ==> e.1.revenue <= r[i].revenue
  {
    var sorted := Sort(g, RevenueFirst);
    var t := TakeFirst(sorted, 5);
    var r := Values(t);
    NotAmongValues(t, e);
    assert e in sorted by {
      assert e in multiset(sorted);
    }
    RevenueSorted(g);
    CutBeforeOutsider(sorted, |t|, e, RevenueFirst);
    forall i | 0 <= i < |r|
      ensures e.1.revenue <= r[i].revenue
    {
      assert RevenueFirst(sorted[i], e);
      assert r[i] == sorted[i].1;
    }
  }

  lemma NotAmongValues(t: seq<(string, TopProduct)>, e: (string, TopProduct))
    requires e.1 !in Values(t)
    ensures e !in t
  {
    forall k | 0 <= k < |t|
      ensures t[k] != e
    {
      assert Values(t)[k] == t[k].1;
    }
  }

  lemma RevenueSorted(g: seq<(string, TopProduct)>)
    ensures Sorted(Sort(g, RevenueFirst), RevenueFirst)
  {
    RevenueOrder();
    SortSorted(g, RevenueFirst);
  }

  /** The ranking facts for any per-product entries `g`, whatever produced them. */
  lemma RankEntries(g: seq<(string, TopProduct)>)
    ensures var r := Values(TakeFirst(Sort(g, RevenueFirst), 5));
      && |r| == (if |g| < 5 then |g| else 5)
      && (forall i, j :: 0 <= i < j < |r| ==> r[j].revenue <= r[i].revenue)
      && (forall i :: 0 <= i < |r| ==> exists e :: e in g && e.1 == r[i])
      && (forall e :: e in g && e.1 !in r ==> forall i :: 0 <= i < |r| ==> e.1.revenue <= r[i].revenue)
      && multiset(r) <= multiset(Values(g))
  {
    var r := Values(TakeFirst(Sort(g, RevenueFirst), 5));
    RankOrdered(g);
    RankDrawn(g);
    forall e | e in g && e.1 !in r
      ensures forall i :: 0 <= i < |r| ==> e.1.revenue <= r[i].revenue
    {
      RankExcluded(g, e);
    }
  }

  /** The ranking's length and order. */
  lemma RankOrdered(g: seq<(string, TopProduct)>)
    ensures var r := Values(TakeFirst(Sort(g, RevenueFirst), 5));
      && |r| == (if |g| < 5 then |g| else 5)
      && (forall i, j :: 0 <= i < j < |r| ==> r[j].revenue <= r[i].revenue)
  {
    var t := TakeFirst(Sort(g, RevenueFirst), 5);
    var r := Values(t);
    RevenueOrder();
    SmallestFirst(g, RevenueFirst, 5);
    forall i, j | 0 <= i < j < |r|
      ensures r[j].revenue <= r[i].revenue
    {
      assert RevenueFirst(t[i], t[j]);
    }
  }

  /** Every ranked value comes from an entry, no entry more often than it occurs. */
  lemma RankDrawn(g: seq<(string, TopProduct)>)
    ensures var r := Values(TakeFirst(Sort(g, RevenueFirst), 5));
      && (forall i :: 0 <= i < |r| ==> exists e :: e in g && e.1 == r[i])
      && multiset(TakeFirst(Sort(g, RevenueFirst), 5)) <= multiset(g)
      && multiset(r) <= multiset(Values(g))
  {
    var sorted := Sort(g, RevenueFirst);
    var t := TakeFirst(sorted, 5);
    var r := Values(t);
    RevenueOrder();
    SmallestFirst(g, RevenueFirst, 5);
    ValuesSub(t, g);
    forall i | 0 <= i < |r|
      ensures exists e :: e in g && e.1 == r[i]
    {
      assert t[i] == sorted[i];
      assert sorted[i] in multiset(sorted);
      assert t[i] in multiset(g);
    }
  }

  /**
   * The five shown are taken from the per-product entries, highest revenue
   * first, and no product left out earned more than any product shown.
   */
  lemma TopProductsRanked(invoices: seq<Invoice>)
    ensures var g := ProductTotals(invoices);
      var r := TopProducts(invoices);
      && |r| == (if |g| < 5 then |g| else 5)
      && (forall i, j :: 0 <= i < j < |r| ==> r[j].revenue <= r[i].revenue)
      && (forall i :: 0 <= i < |r| ==> exists e :: e in g && e.1 == r[i])
      && (forall e :: e in g && e.1 !in r ==> forall i :: 0 <= i < |r| ==> e.1.revenue <= r[i].revenue)
      && multiset(r) <= multiset(Values(g))
      && exists t :: Values(t) == r && multiset(t) <= multiset(g) && DistinctKeys(t)
  {
    RankEntries(ProductTotals(invoices));
    TopProductsDistinct(invoices);
  }

  lemma TopProductsDistinct(invoices: seq<Invoice>)
    ensures exists t :: Values(t) == TopProducts(invoices) && multiset(t) <= multiset(ProductTotals(invoices)) && DistinctKeys(t)
  {
    var g := ProductTotals(invoices);
    var t := TakeFirst(Sort(g, RevenueFirst), 5);
    RankDistinct(g);
    assert Values(t) == TopProducts(invoices);
  }

  /** Entries ranked from distinct keys keep distinct keys. */
  lemma RankDistinct(g: seq<(string, TopProduct)>)
    requires DistinctKeys(g)
    ensures var t := TakeFirst(Sort(g, RevenueFirst), 5);
      DistinctKeys(t) && multiset(t) <= multiset(g)
  {
    RankDrawn(g);
    DistinctKeysSub(g, TakeFirst(Sort(g, RevenueFirst), 5));
  }
}
