/**
 * The invoice list (`src/pages/Invoices.tsx`): the search and status filter,
 * the tax, total and line-amount columns, and deletion.
 */
module InvoicesPage {
  import opened Wrappers
  import opened JsNumber
  import opened Text
  import opened Seqs
  import opened Types
  import DataStore
  import Billing
  import BillingFlow

  /** The status select: `'all'` or one status. */
  datatype StatusFilter = AnyStatus | OnlyStatus(status: InvoiceStatus)

  /** The store id or the customer's name contains the search, ignoring case, and the status passes. */
  predicate Listed(inv: Invoice, search: string, sf: StatusFilter) {
    && (Contains(Lower(inv.id), Lower(search)) || Contains(Lower(inv.body.customerName), Lower(search)))
    && (sf.AnyStatus? || inv.body.status == sf.status)
  }

  function ListedBy(search: string, sf: StatusFilter): Invoice -> bool {
    (inv: Invoice) => Listed(inv, search, sf)
  }

  /** `filteredInvoices`: exactly the listed invoices, in stored order. */
  function FilteredInvoices(invoices: seq<Invoice>, search: string, sf: StatusFilter): (r: seq<Invoice>)
    ensures forall i :: 0 <= i < |r| ==> r[i] in invoices && Listed(r[i], search, sf)
    ensures forall i :: 0 <= i < |invoices| && Listed(invoices[i], search, sf) ==> invoices[i] in r
    ensures SubsequenceOf(r, invoices)
    ensures forall inv :: multiset(r)[inv] == if Listed(inv, search, sf) then multiset(invoices)[inv] else 0
  {
    KeepKeepsOrderAndCounts(invoices, ListedBy(search, sf));
    KeepMultiset(invoices, ListedBy(search, sf));
    Keep(invoices, ListedBy(search, sf))
  }

  /** An empty search with every status lists every invoice, in order. */
  lemma EmptySearchListsAll(invoices: seq<Invoice>)
    ensures FilteredInvoices(invoices, "", AnyStatus) == invoices
  {
    forall i | 0 <= i < |invoices|
      ensures Listed(invoices[i], "", AnyStatus)
    {
      assert Lower("") == "";
      ContainsEmpty(Lower(invoices[i].id));
    }
    KeepAll(invoices, ListedBy("", AnyStatus));
  }

  /** The tax column: `cgst + sgst + igst`. */
  function GstColumn(inv: Invoice): (r: real)
    ensures r == inv.body.cgst + inv.body.sgst + inv.body.igst
  {
    InvoiceGst(inv)
  }

  /** The total column reads `total`, which only the billing page writes. */
  function TotalColumn(inv: Invoice): Num {
    OfField(inv.body.total)
  }

  /** A line's amount column: `price * quantity`. */
  function LineColumn(it: InvoiceItem): (r: real)
    ensures r == it.price * it.quantity as real
  {
    Billing.LineAmount(it)
  }

  /**
   * For a stored bill the columns add up: its line amounts sum to its
   * subtotal, and subtotal plus the tax column is the total column.
   */
  lemma BilledColumnsAdd(form: Billing.BillingForm, s: State, c: Clock, calls: seq<DataStore.StoreCall>)
    requires DataStore.UniqueProductIds(s.products)
    requires Billing.GenerateInvoice(form, s, c) == Success(calls)
    ensures var r := DataStore.Run(s, calls, c);
      && |r.invoices| > 0
      && SumOf(r.invoices[0].body.items, LineColumn) == r.invoices[0].body.subtotal
      && TotalColumn(r.invoices[0]).Fin?
      && r.invoices[0].body.subtotal + GstColumn(r.invoices[0]) == TotalColumn(r.invoices[0]).v
  {
    BillingFlow.BillingStoredInvoice(form, s, c, calls);
    SumOfSame(DataStore.Run(s, calls, c).invoices[0].body.items);
  }

  /** The line column is the bill's line amount. */
  lemma {:induction false} SumOfSame(items: seq<InvoiceItem>)
    ensures SumOf(items, LineColumn) == SumOf(items, Billing.LineAmount)
    decreases |items|
  {
    if |items| > 0 {
      SumOfSame(items[..|items| - 1]);
    }
  }

  /** `handleDelete`: the one store call the page makes. */
  function DeleteCalls(id: string): seq<DataStore.StoreCall> {
    [DataStore.CallDeleteInvoice(id)]
  }

  /**
   * Deleting from the list removes every invoice with the id and keeps the
   * rest; stock, movements and customer totals are not restored.
   */
  lemma DeleteRemovesOnlyInvoice(s: State, id: string, c: Clock)
    ensures var r := DataStore.Run(s, DeleteCalls(id), c);
      && (forall i :: 0 <= i < |r.invoices| ==> r.invoices[i].id != id && r.invoices[i] in s.invoices)
      && (forall i :: 0 <= i < |s.invoices| && s.invoices[i].id != id ==> s.invoices[i] in r.invoices)
      && SubsequenceOf(r.invoices, s.invoices)
      && (forall inv: Invoice :: multiset(r.invoices)[inv] == if inv.id != id then multiset(s.invoices)[inv] else 0)
      && r.products == s.products && r.movements == s.movements && r.customers == s.customers
  {
    DataStore.RunOne(s, DeleteCalls(id)[0], c);
  }
}
