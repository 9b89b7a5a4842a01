/**
 * The dashboard (`src/pages/Dashboard.tsx`): totals over the paid invoices,
 * taking an invoice's value from its `totalAmount` field, the low-stock count
 * and list, and the stock held per category.
 */
module Dashboard {
  import opened Wrappers
  import opened JsNumber
  import opened Seqs
  import opened Sorting
  import opened Grouping
  import opened Types
  import DataStore
  import Billing
  import BillingFlow
  import Reports

  predicate IsPaid(inv: Invoice) {
    inv.body.status == Paid
  }

  /** `invoices.filter(inv => inv.status === 'paid')`. */
  function PaidInvoices(invoices: seq<Invoice>): seq<Invoice> {
    Keep(invoices, IsPaid)
  }

  /** The field the dashboard reads as an invoice's value. */
  function AmountOf(inv: Invoice): Option<real> {
    inv.body.totalAmount
  }

  /**
   * `p.stock <= p.minStockLevel`: a missing level compares as NaN, so a
   * product without one is never low.
   */
  predicate LowStock(p: Product) {
    p.minStockLevel.Some? && p.stock <= p.minStockLevel.value
  }

  datatype DashboardStats = DashboardStats(
    totalRevenue: Num,
    totalInvoices: nat,
    totalProducts: nat,
    lowStockProducts: nat,
    totalCustomers: nat,
    totalGst: real)

  /** Every paid invoice of the ledger has the field exactly when every kept one does. */
  lemma PaidAmounts(invoices: seq<Invoice>)
    ensures (forall i :: 0 <= i < |PaidInvoices(invoices)| ==> AmountOf(PaidInvoices(invoices)[i]).Some?) <==>
            (forall i :: 0 <= i < |invoices| && IsPaid(invoices[i]) ==> invoices[i].body.totalAmount.Some?)
  {
    var paid := PaidInvoices(invoices);
    if forall i :: 0 <= i < |invoices| && IsPaid(invoices[i]) ==> invoices[i].body.totalAmount.Some? {
      forall i | 0 <= i < |paid|
        ensures AmountOf(paid[i]).Some?
      {
        var j :| 0 <= j < |invoices| && invoices[j] == paid[i];
      }
    }
    if forall i :: 0 <= i < |paid| ==> AmountOf(paid[i]).Some? {
      forall i | 0 <= i < |invoices| && IsPaid(invoices[i])
        ensures invoices[i].body.totalAmount.Some?
      {
        var j :| 0 <= j < |paid| && paid[j] == invoices[i];
      }
    }
  }

  /**
   * `stats` without the day window: the revenue is finite exactly when every
   * paid invoice has a `totalAmount`, and is then their plain sum; every other
   * figure counts or sums the right subset.
   */
  function Stats(s: State): (r: DashboardStats)
    ensures r.totalRevenue.Fin? <==>
      forall i :: 0 <= i < |s.invoices| && IsPaid(s.invoices[i]) ==> s.invoices[i].body.totalAmount.Some?
    ensures r.totalRevenue.Fin? ==> r.totalRevenue.v == SumPresent(PaidInvoices(s.invoices), AmountOf)
    ensures r.totalInvoices <= |s.invoices|
    ensures r.totalInvoices == |s.invoices| <==> forall i :: 0 <= i < |s.invoices| ==> IsPaid(s.invoices[i])
    ensures r.totalInvoices == |set i | 0 <= i < |s.invoices| && IsPaid(s.invoices[i])|
    ensures r.lowStockProducts <= r.totalProducts == |s.products|
    ensures r.lowStockProducts == |set i | 0 <= i < |s.products| && LowStock(s.products[i])|
    ensures r.totalCustomers == |s.customers|
  {
    var paid := PaidInvoices(s.invoices);
    SumFieldFinite(paid, AmountOf);
    PaidAmounts(s.invoices);
    PaidCount(s.invoices);
    PaidPositions(s.invoices);
    LowStockPositions(s.products);
    DashboardStats(SumField(paid, AmountOf), |paid|, |s.products|, Count(s.products, LowStock),
                   |s.customers|, SumOf(paid, InvoiceGst))
  }

  lemma PaidPositions(invoices: seq<Invoice>)
    ensures |PaidInvoices(invoices)| == |set i | 0 <= i < |invoices| && IsPaid(invoices[i])|
  {
    CountPositions(invoices, IsPaid);
    assert Positions(invoices, IsPaid) == set i | 0 <= i < |invoices| && IsPaid(invoices[i]);
  }

  lemma LowStockPositions(products: seq<Product>)
    ensures Count(products, LowStock) == |set i | 0 <= i < |products| && LowStock(products[i])|
  {
    CountPositions(products, LowStock);
    assert Positions(products, LowStock) == set i | 0 <= i < |products| && LowStock(products[i]);
  }

  /** Keeping every invoice happens exactly when all are paid. */
  lemma {:induction false} PaidCount(invoices: seq<Invoice>)
    ensures |PaidInvoices(invoices)| == |invoices| <==> forall i :: 0 <= i < |invoices| ==> IsPaid(invoices[i])
    decreases |invoices|
  {
    if |invoices| > 0 {
      PaidCount(invoices[1..]);
      assert forall i :: 1 <= i < |invoices| ==> invoices[i] == invoices[1..][i - 1];
    }
  }

  /**
   * A bill is stored paid with `total` but no `totalAmount`, so afterwards the
   * dashboard's revenue is NaN, while its paid count grows by one.
   */
  lemma RevenueNaNAfterBilling(form: Billing.BillingForm, s: State, c: Clock, calls: seq<DataStore.StoreCall>)
    requires DataStore.UniqueProductIds(s.products)
    requires Billing.GenerateInvoice(form, s, c) == Success(calls)
    ensures var after := Stats(DataStore.Run(s, calls, c));
      after.totalRevenue == NaN && after.totalInvoices == Stats(s).totalInvoices + 1
  {
    var r := DataStore.Run(s, calls, c);
    BillingFlow.BillingStoredInvoice(form, s, c, calls);
    HeadThenRest(r.invoices, s.invoices);
    PaidInFront(r.invoices[0], r, s);
  }

  /** A paid invoice without `totalAmount` in front makes the revenue NaN and adds one to the count. */
  lemma PaidInFront(x: Invoice, t: State, s: State)
    requires IsPaid(x) && x.body.totalAmount.None?
    requires t.invoices == [x] + s.invoices
    ensures Stats(t).totalRevenue == NaN && Stats(t).totalInvoices == Stats(s).totalInvoices + 1
  {
    assert t.invoices[1..] == s.invoices;
    SumFieldAbsent(PaidInvoices(t.invoices), AmountOf, 0);
  }

  /**
   * The dashboard's tax is the reports page's tax over the paid invoices only;
   * the two agree when every invoice is paid.
   */
  lemma GstAgreesWithReports(s: State)
    ensures Stats(s).totalGst == Reports.Stats(PaidInvoices(s.invoices)).totalGst
    ensures (forall i :: 0 <= i < |s.invoices| ==> IsPaid(s.invoices[i])) ==>
      Stats(s).totalGst == Reports.Stats(s.invoices).totalGst
  {
    if forall i :: 0 <= i < |s.invoices| ==> IsPaid(s.invoices[i]) {
      KeepAll(s.invoices, IsPaid);
    }
  }

  // -------------------------------------------------------------- low stock

  /** The comparator `a.stock - b.stock <= 0`: lower stock first. */
  function StockLe(a: Product, b: Product): bool {
    a.stock <= b.stock
  }

  /** `lowStockItems`: the low products, lowest stock first, at most five. */
  function LowStockItems(products: seq<Product>): (r: seq<Product>)
    ensures |r| <= 5
  {
    TakeFirst(Sort(Keep(products, LowStock), StockLe), 5)
  }

  /**
   * The list holds only low products, lowest stock first, as many as there
   * are up to five, and every low product left out has at least the stock of
   * every product shown.
   */
  lemma LowStockItemsRanked(products: seq<Product>)
    ensures var low := Keep(products, LowStock);
      var r := LowStockItems(products);
      && |r| == (if |low| < 5 then |low| else 5)
      && (forall i :: 0 <= i < |r| ==> LowStock(r[i]) && r[i] in products)
      && (forall i, j :: 0 <= i < j < |r| ==> r[i].stock <= r[j].stock)
      && (forall p, q :: p in multiset(low) - multiset(r) && q in r ==> q.stock <= p.stock)
      && multiset(r) <= multiset(low)
  {
    var low := Keep(products, LowStock);
    var r := LowStockItems(products);
    SmallestFirst(low, StockLe, 5);
    forall i | 0 <= i < |r|
      ensures LowStock(r[i]) && r[i] in products
    {
      assert r[i] in multiset(r);
      assert r[i] in multiset(low);
    }
    forall i, j | 0 <= i < j < |r|
      ensures r[i].stock <= r[j].stock
    {
      assert StockLe(r[i], r[j]);
    }
    forall p, q | p in multiset(low) - multiset(r) && q in r
      ensures q.stock <= p.stock
    {
      assert StockLe(q, p);
    }
  }

  // ------------------------------------------------------ stock per category

  function StockPairs(products: seq<Product>): seq<(string, int)> {
    seq(|products|, i requires 0 <= i < |products| => (products[i].category, products[i].stock))
  }

  /** `categoryData`: the category to stock map, in first-seen order. */
  function CategoryData(products: seq<Product>): (r: seq<(string, int)>)
    ensures DistinctKeys(r)
  {
    GroupByEntries(StockPairs(products), PlusInt);
    GroupBy(StockPairs(products), PlusInt)
  }

  /** Reference: the stock a product contributes to category `k`. */
  function StockIn(k: string): Product -> int {
    (p: Product) => if p.category == k then p.stock else 0
  }

  lemma {:induction false} StockPairsSum(products: seq<Product>, k: string)
    ensures SumOfInt(StockPairs(products), CountFor(k)) == SumOfInt(products, StockIn(k))
    ensures KeyIn(StockPairs(products), k) <==> exists j :: 0 <= j < |products| && products[j].category == k
    decreases |products|
  {
    if |products| > 0 {
      var p := products[..|products| - 1];
      StockPairsSum(p, k);
      assert StockPairs(products)[..|products| - 1] == StockPairs(p);
      if exists j :: 0 <= j < |products| && products[j].category == k {
        var j :| 0 <= j < |products| && products[j].category == k;
        assert StockPairs(products)[j].0 == k;
      }
      if KeyIn(StockPairs(products), k) {
        var j :| 0 <= j < |products| && StockPairs(products)[j].0 == k;
        assert products[j].category == k;
      }
    }
  }

  /**
   * One entry per category that has a product, holding the total stock of
   * that category's products.
   */
  lemma CategoryDataCorrect(products: seq<Product>)
    ensures var r := CategoryData(products);
      && DistinctKeys(r)
      && (forall i :: 0 <= i < |r| ==> r[i].1 == SumOfInt(products, StockIn(r[i].0)))
      && (forall k :: KeyIn(r, k) <==> exists j :: 0 <= j < |products| && products[j].category == k)
  {
    var xs := StockPairs(products);
    var r := CategoryData(products);
    GroupByEntries(xs, PlusInt);
    forall i | 0 <= i < |r|
      ensures r[i].1 == SumOfInt(products, StockIn(r[i].0))
    {
      FoldKeySumInt(xs, r[i].0);
      StockPairsSum(products, r[i].0);
    }
    forall k
      ensures KeyIn(r, k) <==> exists j :: 0 <= j < |products| && products[j].category == k
    {
      StockPairsSum(products, k);
    }
  }
}
