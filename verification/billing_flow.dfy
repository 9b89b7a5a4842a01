/**
 * What a successful `generateInvoice` does to the ledger once its store calls
 * run: the store's own sale per row, then the page's overwrite of each sold
 * product's stock from the snapshot it rendered with, and a second movement.
 */
module BillingFlow {
  import opened Wrappers
  import opened JsNumber
  import opened Seqs
  import opened Types
  import opened DataStore
  import opened Billing

  /** The quantity on the last row naming the product, if any row does. */
  function LastQty(items: seq<InvoiceItem>, id: string): (r: Option<int>)
    ensures r.None? <==> forall i :: 0 <= i < |items| ==> items[i].productId != id
    ensures r.Some? ==> exists i :: (
      && 0 <= i < |items| && items[i].productId == id && items[i].quantity == r.value
      && forall j :: i < j < |items| ==> items[j].productId != id)
    decreases |items|
  {
    if |items| == 0 then None
    else if items[|items| - 1].productId == id then Some(items[|items| - 1].quantity)
    else LastQty(items[..|items| - 1], id)
  }

  /** Running a stock overwrite followed by a movement. */
  lemma RunOverwriteThenMovement(u: State, id: string, patch: ProductPatch, m: StockMovement, c: Clock)
    ensures Run(u, [CallUpdateProduct(id, patch), CallAddStockMovement(m)], c) ==
      AddStockMovement(UpdateProduct(u, id, patch, c), m)
  {
    var calls := [CallUpdateProduct(id, patch), CallAddStockMovement(m)];
    var u1 := UpdateProduct(u, id, patch, c);
    assert calls[1..] == [CallAddStockMovement(m)];
    assert Run(u, calls, c) == Run(u1, [CallAddStockMovement(m)], c);
    assert [CallAddStockMovement(m)][1..] == [];
    assert Run(u1, [CallAddStockMovement(m)], c) == Run(AddStockMovement(u1, m), [], c);
  }

  /**
   * `r` is `t` after the page's overwrite for these rows: same ids, and each
   * product named on a row holds the snapshot's stock minus the last such
   * row's quantity, the others what they held in `t`.
   */
  predicate OverwrittenByRows(r: seq<Product>, t: seq<Product>, snapshot: seq<Product>, items: seq<InvoiceItem>)
    requires |t| <= |snapshot|
  {
    && SameProductIds(r, t)
    && forall i :: 0 <= i < |t| ==> r[i].stock == OverwrittenStock(items, t[i], snapshot[i])
  }

  /** The stock the overwrite leaves on `p`, whose snapshot entry is `q`. */
  function OverwrittenStock(items: seq<InvoiceItem>, p: Product, q: Product): int {
    match LastQty(items, p.id)
    case Some(n) => q.stock - n
    case None => p.stock
  }

  /** The effect of one row's calls, applied directly. */
  function ApplyRow(u: State, x: InvoiceItem, snapshot: seq<Product>, number: string, c: Clock): State {
    match FindProduct(snapshot, x.productId)
    case None => u
    case Some(p) => AddStockMovement(UpdateProduct(u, x.productId, StockPatch(p.stock - x.quantity), c),
                                     PageMovement(x, number, c))
  }

  /** The effect of the page's calls for all rows, applied directly in row order. */
  function ApplyRows(t: State, items: seq<InvoiceItem>, snapshot: seq<Product>, number: string, c: Clock): State
    decreases |items|
  {
    if |items| == 0 then t
    else ApplyRow(ApplyRows(t, items[..|items| - 1], snapshot, number, c), items[|items| - 1], snapshot, number, c)
  }

  /** Running one row's calls through the store has the direct effect. */
  lemma RunLineCalls(u: State, x: InvoiceItem, snapshot: seq<Product>, number: string, c: Clock)
    ensures Run(u, LineCalls(x, snapshot, number, c), c) == ApplyRow(u, x, snapshot, number, c)
  {
    KnownIffFound(snapshot, x.productId);
    match FindProduct(snapshot, x.productId)
    case None =>
      assert LineCalls(x, snapshot, number, c) == [];
    case Some(p) =>
      var k :| 0 <= k < |snapshot| && snapshot[k] == p && ProductIdIs(x.productId)(snapshot[k]) &&
               forall j :: 0 <= j < k ==> !ProductIdIs(x.productId)(snapshot[j]);
      assert FirstProductAt(snapshot, x.productId, k);
      RunKnownLineCalls(u, x, snapshot, number, c, k);
  }

  lemma RunKnownLineCalls(u: State, x: InvoiceItem, snapshot: seq<Product>, number: string, c: Clock, k: int)
    requires FirstProductAt(snapshot, x.productId, k)
    ensures Run(u, LineCalls(x, snapshot, number, c), c) == ApplyRow(u, x, snapshot, number, c)
  {
    var patch, m := StockPatch(snapshot[k].stock - x.quantity), PageMovement(x, number, c);
    assert LineCalls(x, snapshot, number, c) == [CallUpdateProduct(x.productId, patch), CallAddStockMovement(m)];
    KnownApplyRow(u, x, snapshot, number, c, k);
    RunOverwriteThenMovement(u, x.productId, patch, m, c);
  }

  lemma KnownApplyRow(u: State, x: InvoiceItem, snapshot: seq<Product>, number: string, c: Clock, k: int)
    requires FirstProductAt(snapshot, x.productId, k)
    ensures ApplyRow(u, x, snapshot, number, c) ==
      AddStockMovement(UpdateProduct(u, x.productId, StockPatch(snapshot[k].stock - x.quantity), c), PageMovement(x, number, c))
  {
    FindProductFirst(snapshot, x.productId);
  }

  /** Running all the page's calls through the store has the direct effect. */
  lemma {:induction false} RunSnapshotCalls(t: State, items: seq<InvoiceItem>, snapshot: seq<Product>, number: string, c: Clock)
    ensures Run(t, SnapshotCalls(items, snapshot, number, c), c) == ApplyRows(t, items, snapshot, number, c)
    decreases |items|
  {
    if |items| > 0 {
      var x := items[|items| - 1];
      var pre := items[..|items| - 1];
      var a := SnapshotCalls(pre, snapshot, number, c);
      var b := LineCalls(x, snapshot, number, c);
      assert SnapshotCalls(items, snapshot, number, c) == a + b;
      RunAppend(t, a, b, c);
      RunSnapshotCalls(t, pre, snapshot, number, c);
      RunLineCalls(Run(t, a, c), x, snapshot, number, c);
    }
  }

  /** A row whose product is not in the snapshot changes nothing. */
  lemma RowStepUnknown(u: State, x: InvoiceItem, snapshot: seq<Product>, number: string, c: Clock)
    requires SameProductIds(u.products, snapshot)
    requires FindProduct(snapshot, x.productId).None?
    ensures OverwrittenByRows(u.products, u.products, snapshot, [x])
  {
    assert [x][..0] == [];
    forall i | 0 <= i < |u.products|
      ensures LastQty([x], u.products[i].id).None?
    {
      assert snapshot[i].id == u.products[i].id;
    }
  }

  /** A row whose product is in the snapshot sets that product's stock from the snapshot. */
  lemma RowStepKnown(u: State, x: InvoiceItem, p: Product, snapshot: seq<Product>, number: string, c: Clock)
    requires UniqueProductIds(snapshot) && SameProductIds(u.products, snapshot)
    requires FindProduct(snapshot, x.productId) == Some(p)
    ensures var w := UpdateProduct(u, x.productId, StockPatch(p.stock - x.quantity), c);
      OverwrittenByRows(w.products, u.products, snapshot, [x])
  {
    var w := UpdateProduct(u, x.productId, StockPatch(p.stock - x.quantity), c);
    var k :| 0 <= k < |snapshot| && snapshot[k] == p && ProductIdIs(x.productId)(snapshot[k]);
    forall i | 0 <= i < |u.products|
      ensures w.products[i].stock == OverwrittenStock([x], u.products[i], snapshot[i])
    {
      LastQtyOne(x, u.products[i].id);
      KnownRowAt(u, x, p, snapshot, c, i, k);
    }
  }

  /** `RowStepKnown` at one position. */
  lemma KnownRowAt(u: State, x: InvoiceItem, p: Product, snapshot: seq<Product>, c: Clock, i: nat, k: nat)
    requires UniqueProductIds(snapshot) && SameProductIds(u.products, snapshot)
    requires k < |snapshot| && snapshot[k] == p && p.id == x.productId
    requires i < |u.products|
    ensures UpdateProduct(u, x.productId, StockPatch(p.stock - x.quantity), c).products[i].stock ==
      if u.products[i].id == x.productId then snapshot[i].stock - x.quantity else u.products[i].stock
  {
    if u.products[i].id == x.productId {
      assert snapshot[i].id == snapshot[k].id;
    }
  }

  lemma LastQtyOne(x: InvoiceItem, id: string)
    ensures LastQty([x], id) == if x.productId == id then Some(x.quantity) else None
  {
    assert [x][..0] == [];
  }

  /** One row: the product with that id gets the snapshot's stock minus the row's quantity. */
  lemma RowStep(u: State, x: InvoiceItem, snapshot: seq<Product>, number: string, c: Clock)
    requires UniqueProductIds(snapshot) && SameProductIds(u.products, snapshot)
    ensures var w := ApplyRow(u, x, snapshot, number, c);
      && OverwrittenByRows(w.products, u.products, snapshot, [x])
      && w.customers == u.customers && w.invoices == u.invoices
      && |w.movements| == |u.movements| + (if KnownProductLine(snapshot)(x) then 1 else 0)
  {
    KnownIffFound(snapshot, x.productId);
    match FindProduct(snapshot, x.productId)
    case None => RowStepUnknown(u, x, snapshot, number, c);
    case Some(p) => RowStepKnown(u, x, p, snapshot, number, c);
  }

  /** Chaining the overwrite of the earlier rows with that of one more row. */
  lemma OverwriteChain(t: seq<Product>, u: seq<Product>, w: seq<Product>, snapshot: seq<Product>,
                       pre: seq<InvoiceItem>, x: InvoiceItem)
    requires SameProductIds(t, snapshot)
    requires OverwrittenByRows(u, t, snapshot, pre)
    requires OverwrittenByRows(w, u, snapshot, [x])
    ensures OverwrittenByRows(w, t, snapshot, pre + [x])
  {
    var items := pre + [x];
    assert items[..|items| - 1] == pre;
    forall i | 0 <= i < |t|
      ensures w[i].stock == OverwrittenStock(items, t[i], snapshot[i])
    {
      assert u[i].id == t[i].id;
    }
  }

  /**
   * The page's own calls: every product named on some row ends at the
   * snapshot's stock minus the quantity of the LAST row naming it; the others
   * keep the stock they had; one movement is added per row of a known product.
   */
  lemma RowsEffect(t: State, items: seq<InvoiceItem>, snapshot: seq<Product>, number: string, c: Clock)
    requires UniqueProductIds(snapshot) && SameProductIds(t.products, snapshot)
    ensures var r := ApplyRows(t, items, snapshot, number, c);
      && OverwrittenByRows(r.products, t.products, snapshot, items)
      && r.customers == t.customers && r.invoices == t.invoices
      && |r.movements| == |t.movements| + Count(items, KnownProductLine(snapshot))
  {
    RowsEffectHoldsAll(t, items, snapshot, number, c);
  }

  /** The three facts `RowsEffect` states, for the rows in `items`. */
  predicate RowsEffectHolds(t: State, items: seq<InvoiceItem>, snapshot: seq<Product>, number: string, c: Clock)
    requires SameProductIds(t.products, snapshot)
  {
    var r := ApplyRows(t, items, snapshot, number, c);
    && OverwrittenByRows(r.products, t.products, snapshot, items)
    && r.customers == t.customers && r.invoices == t.invoices
    && |r.movements| == |t.movements| + Count(items, KnownProductLine(snapshot))
  }

  lemma {:induction false} RowsEffectHoldsAll(t: State, items: seq<InvoiceItem>, snapshot: seq<Product>, number: string, c: Clock)
    requires UniqueProductIds(snapshot) && SameProductIds(t.products, snapshot)
    ensures RowsEffectHolds(t, items, snapshot, number, c)
    decreases |items|
  {
    if |items| == 0 {
      RowsEffectNone(t, snapshot, number, c);
      assert items == [];
    } else {
      var x, pre := items[|items| - 1], items[..|items| - 1];
      RowsEffectHoldsAll(t, pre, snapshot, number, c);
      RowsEffectStep(t, pre, x, snapshot, number, c);
      assert items == pre + [x];
    }
  }

  /** One more row on top of rows whose effect is already known. */
  lemma RowsEffectStep(t: State, pre: seq<InvoiceItem>, x: InvoiceItem, snapshot: seq<Product>, number: string, c: Clock)
    requires UniqueProductIds(snapshot) && SameProductIds(t.products, snapshot)
    requires RowsEffectHolds(t, pre, snapshot, number, c)
    ensures RowsEffectHolds(t, pre + [x], snapshot, number, c)
  {
    var items := pre + [x];
    assert items[..|items| - 1] == pre;
    var u := ApplyRows(t, pre, snapshot, number, c);
    assert ApplyRows(t, items, snapshot, number, c) == ApplyRow(u, x, snapshot, number, c);
    RowStep(u, x, snapshot, number, c);
    OverwriteChain(t.products, u.products, ApplyRow(u, x, snapshot, number, c).products, snapshot, pre, x);
    CountAppend(pre, [x], KnownProductLine(snapshot));
    assert [x][1..] == [];
  }

  lemma RowsEffectNone(t: State, snapshot: seq<Product>, number: string, c: Clock)
    requires SameProductIds(t.products, snapshot)
    ensures RowsEffectHolds(t, [], snapshot, number, c)
  {
    assert forall i :: 0 <= i < |t.products| ==> t.products[i].id == t.products[i].id;
  }

  /** The ledger after a bill's calls have run: `addInvoice`, then the page's own calls. */
  function AfterBilling(form: BillingForm, s: State, c: Clock): State {
    ApplyRows(AddInvoice(s, BuiltInvoice(form, s, c), c), form.items, s.products, BillingNumber(|s.invoices|, c), c)
  }

  lemma RunCons(s: State, x: StoreCall, rest: seq<StoreCall>, c: Clock)
    ensures Run(s, [x] + rest, c) == Run(Dispatch(s, x, c), rest, c)
  {
    assert ([x] + rest)[1..] == rest;
  }

  /** Running `addInvoice` and then further calls. */
  lemma RunAddInvoiceThen(s: State, d: InvoiceBody, rest: seq<StoreCall>, c: Clock)
    ensures Run(s, [CallAddInvoice(d)] + rest, c) == Run(AddInvoice(s, d, c), rest, c)
  {
    RunCons(s, CallAddInvoice(d), rest, c);
    DispatchAddInvoice(s, d, c);
  }

  lemma DispatchAddInvoice(s: State, d: InvoiceBody, c: Clock)
    ensures Dispatch(s, CallAddInvoice(d), c) == AddInvoice(s, d, c)
  {
  }

  /** A successful bill runs `addInvoice` first and the page's own calls on what it leaves. */
  lemma BillingRun(form: BillingForm, s: State, c: Clock)
    ensures Run(s, BillingCalls(form, s, c), c) == AfterBilling(form, s, c)
  {
    var body := BuiltInvoice(form, s, c);
    var number := BillingNumber(|s.invoices|, c);
    var rest := SnapshotCalls(form.items, s.products, number, c);
    assert BillingCalls(form, s, c) == [CallAddInvoice(body)] + rest;
    RunAddInvoiceThen(s, body, rest, c);
    RunSnapshotCalls(AddInvoice(s, body, c), form.items, s.products, number, c);
  }

  /** The store's decrement followed by the page's overwrite leaves only the overwrite, for rows named. */
  lemma SalesThenOverwrite(r: seq<Product>, t: seq<Product>, s: seq<Product>, items: seq<InvoiceItem>)
    requires SameProductIds(t, s)
    requires forall i :: 0 <= i < |s| ==> t[i].stock == s[i].stock - SumOfInt(items, QtyFor(s[i].id))
    requires OverwrittenByRows(r, t, s, items)
    ensures OverwrittenByRows(r, s, s, items)
  {
    forall i | 0 <= i < |s| && LastQty(items, s[i].id).None?
      ensures t[i].stock == s[i].stock
    {
      var id := s[i].id;
      forall j | 0 <= j < |items|
        ensures QtyFor(id)(items[j]) == 0
      {
      }
      SumOfIntZero(items, QtyFor(id));
    }
    forall i | 0 <= i < |s|
      ensures t[i].id == s[i].id
    {
    }
  }

  lemma OverwriteAfterSales(t: State, s: State, items: seq<InvoiceItem>, number: string, c: Clock)
    requires UniqueProductIds(s.products) && SameProductIds(t.products, s.products)
    requires forall i :: 0 <= i < |s.products| ==>
      t.products[i].stock == s.products[i].stock - SumOfInt(items, QtyFor(s.products[i].id))
    ensures OverwrittenByRows(ApplyRows(t, items, s.products, number, c).products, s.products, s.products, items)
  {
    RowsEffect(t, items, s.products, number, c);
    SalesThenOverwrite(ApplyRows(t, items, s.products, number, c).products, t.products, s.products, items);
  }

  lemma AfterBillingStock(form: BillingForm, s: State, c: Clock)
    requires UniqueProductIds(s.products)
    ensures OverwrittenByRows(AfterBilling(form, s, c).products, s.products, s.products, form.items)
  {
    var body := BuiltInvoice(form, s, c);
    AddInvoiceStock(s, body, c);
    OverwriteAfterSales(AddInvoice(s, body, c), s, form.items, BillingNumber(|s.invoices|, c), c);
  }

  /**
   * After a bill, a product on some row has its pre-bill stock minus the
   * quantity of the last row naming it: the store's decrement is overwritten,
   * so one row is charged once, and of several rows of the same product only
   * the last counts. Products on no row keep their stock.
   */
  lemma BillingFinalStock(form: BillingForm, s: State, c: Clock, calls: seq<StoreCall>)
    requires UniqueProductIds(s.products)
    requires GenerateInvoice(form, s, c) == Success(calls)
    ensures OverwrittenByRows(Run(s, calls, c).products, s.products, s.products, form.items)
  {
    BillingRun(form, s, c);
    AfterBillingStock(form, s, c);
  }

  /** When exactly one row names the product, that row's quantity is the last one. */
  lemma OnlyRowIsLast(items: seq<InvoiceItem>, id: string, row: nat)
    requires row < |items| && items[row].productId == id
    requires forall j :: 0 <= j < |items| && j != row ==> items[j].productId != id
    ensures LastQty(items, id) == Some(items[row].quantity)
  {
    var i :| 0 <= i < |items| && items[i].productId == id && items[i].quantity == LastQty(items, id).value &&
      forall j :: i < j < |items| ==> items[j].productId != id;
  }

  /** A product on exactly one row ends at its stock minus that row's quantity. */
  lemma OneRowChargedOnce(form: BillingForm, s: State, c: Clock, calls: seq<StoreCall>, k: nat, row: nat)
    requires UniqueProductIds(s.products)
    requires GenerateInvoice(form, s, c) == Success(calls)
    requires k < |s.products| && row < |form.items| && form.items[row].productId == s.products[k].id
    requires forall j :: 0 <= j < |form.items| && j != row ==> form.items[j].productId != s.products[k].id
    ensures |Run(s, calls, c).products| == |s.products|
    ensures Run(s, calls, c).products[k].stock == s.products[k].stock - form.items[row].quantity
  {
    BillingFinalStock(form, s, c, calls);
    OnlyRowIsLast(form.items, s.products[k].id, row);
  }

  /**
   * Two rows of the same product: the product ends at its stock minus the
   * second row's quantity only.
   */
  lemma SameProductTwiceLosesFirstRow(form: BillingForm, s: State, c: Clock, calls: seq<StoreCall>,
                                      p: Product, q1: int, q2: int)
    requires s.products == [p]
    requires form.items == [InvoiceItem(p.id, p.name, q1, p.price, p.gstRate),
                            InvoiceItem(p.id, p.name, q2, p.price, p.gstRate)]
    requires GenerateInvoice(form, s, c) == Success(calls)
    ensures |Run(s, calls, c).products| == 1
    ensures Run(s, calls, c).products[0].stock == p.stock - q2
  {
    BillingFinalStock(form, s, c, calls);
    LastOfTwo(Run(s, calls, c).products, p, form.items, q2);
  }

  lemma LastOfTwo(r: seq<Product>, p: Product, items: seq<InvoiceItem>, q2: int)
    requires |items| == 2 && items[1].productId == p.id && items[1].quantity == q2
    requires OverwrittenByRows(r, [p], [p], items)
    ensures |r| == 1 && r[0].stock == p.stock - q2
  {
    assert OverwrittenStock(items, [p][0], [p][0]) == p.stock - q2;
  }

  lemma AfterBillingMovements(form: BillingForm, s: State, c: Clock)
    requires UniqueProductIds(s.products)
    ensures |AfterBilling(form, s, c).movements| == |s.movements| + 2 * Count(form.items, KnownProductLine(s.products))
  {
    var t := AddInvoice(s, BuiltInvoice(form, s, c), c);
    AddInvoiceMovements(s, BuiltInvoice(form, s, c), c);
    RowsEffect(t, form.items, s.products, BillingNumber(|s.invoices|, c), c);
  }

  /**
   * A bill adds two sale movements per row whose product exists: one from
   * the store's `updateStock` and one from the page.
   */
  lemma BillingMovementCount(form: BillingForm, s: State, c: Clock, calls: seq<StoreCall>)
    requires UniqueProductIds(s.products)
    requires GenerateInvoice(form, s, c) == Success(calls)
    ensures |Run(s, calls, c).movements| == |s.movements| + 2 * Count(form.items, KnownProductLine(s.products))
  {
    BillingRun(form, s, c);
    AfterBillingMovements(form, s, c);
  }

  lemma AfterBillingLedger(form: BillingForm, s: State, c: Clock)
    requires UniqueProductIds(s.products)
    ensures var t := AddInvoice(s, BuiltInvoice(form, s, c), c);
      AfterBilling(form, s, c).customers == t.customers && AfterBilling(form, s, c).invoices == t.invoices
  {
    var t := AddInvoice(s, BuiltInvoice(form, s, c), c);
    AddInvoiceParts(s, BuiltInvoice(form, s, c), c);
    RowsEffect(t, form.items, s.products, BillingNumber(|s.invoices|, c), c);
  }

  /**
   * The store adds the declared `totalAmount`, which the page never sets, so
   * the chosen customer's running total becomes NaN; other customers are untouched.
   */
  lemma BillingCustomerTotalBecomesNaN(form: BillingForm, s: State, c: Clock, calls: seq<StoreCall>)
    requires UniqueProductIds(s.products)
    requires GenerateInvoice(form, s, c) == Success(calls)
    requires FindCustomer(s.customers, form.selectedCustomer).Some?
    ensures var r := Run(s, calls, c);
      && |r.customers| == |s.customers|
      && forall i :: 0 <= i < |s.customers| ==>
           if s.customers[i].id == form.selectedCustomer
           then r.customers[i].totalPurchases == NaN && r.customers[i].lastPurchaseDate == Some(c.iso)
           else r.customers[i] == s.customers[i]
  {
    BillingRun(form, s, c);
    AfterBillingLedger(form, s, c);
  }

  /**
   * The stored invoice carries the store's id and monthly number, not the
   * page's `INVYYMMDDNNN`, and keeps the page's `total` with no `totalAmount`.
   */
  lemma BillingStoredInvoice(form: BillingForm, s: State, c: Clock, calls: seq<StoreCall>)
    requires UniqueProductIds(s.products)
    requires GenerateInvoice(form, s, c) == Success(calls)
    ensures var r := Run(s, calls, c);
      && |r.invoices| == |s.invoices| + 1 && r.invoices[1..] == s.invoices
      && r.invoices[0].id == c.millis
      && r.invoices[0].invoiceNumber == NextInvoiceNumber(s, c)
      && r.invoices[0].body == BuiltInvoice(form, s, c)
      && r.invoices[0].body.totalAmount.None?
      && r.invoices[0].body.total == Some(CalculateTotals(form.items, form.isInterState).total)
  {
    BillingRun(form, s, c);
    AfterBillingLedger(form, s, c);
  }
}
