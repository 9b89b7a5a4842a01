/**
 * The customer list (`src/pages/Customers.tsx`): the search, the per-customer
 * figures read from the invoices, the edit form, submitting it and deletion.
 */
module CustomersPage {
  import opened Wrappers
  import opened JsNumber
  import opened Text
  import opened Seqs
  import opened Types
  import DataStore
  import Billing
  import BillingFlow

  // ------------------------------------------------------------------ search

  /** Name or email contains the search ignoring case, or the phone contains it as typed. */
  predicate Listed(cu: Customer, search: string) {
    || Contains(Lower(cu.name), Lower(search))
    || Contains(Lower(cu.email), Lower(search))
    || Contains(cu.phone, search)
  }

  function ListedBy(search: string): Customer -> bool {
    (cu: Customer) => Listed(cu, search)
  }

  /** `filteredCustomers`: exactly the listed customers, in stored order. */
  function FilteredCustomers(cs: seq<Customer>, search: string): (r: seq<Customer>)
    ensures forall i :: 0 <= i < |r| ==> r[i] in cs && Listed(r[i], search)
    ensures forall i :: 0 <= i < |cs| && Listed(cs[i], search) ==> cs[i] in r
    ensures SubsequenceOf(r, cs)
    ensures forall cu :: multiset(r)[cu] == if Listed(cu, search) then multiset(cs)[cu] else 0
  {
    KeepKeepsOrderAndCounts(cs, ListedBy(search));
    KeepMultiset(cs, ListedBy(search));
    Keep(cs, ListedBy(search))
  }

  // ------------------------------------------------------------------- stats

  function ForCustomer(id: string): Invoice -> bool {
    (inv: Invoice) => inv.body.customerId == Some(id)
  }

  function TotalOf(inv: Invoice): Option<real> {
    inv.body.total
  }

  function HasTotal(inv: Invoice): bool {
    inv.body.total.Some?
  }

  /** `invoices.filter(inv => inv.customerId === customerId)`. */
  function InvoicesOf(invoices: seq<Invoice>, id: string): seq<Invoice> {
    Keep(invoices, ForCustomer(id))
  }

  lemma InvoicesOfPositions(invoices: seq<Invoice>, id: string)
    ensures |InvoicesOf(invoices, id)| == |set i | 0 <= i < |invoices| && invoices[i].body.customerId == Some(id)|
  {
    CountPositions(invoices, ForCustomer(id));
    assert Positions(invoices, ForCustomer(id))
        == set i | 0 <= i < |invoices| && invoices[i].body.customerId == Some(id);
  }

  datatype CustomerStats = CustomerStats(totalInvoices: nat, totalPurchases: Num)

  /**
   * `getCustomerStats`: counts the invoices naming the customer and sums their
   * `total`, finite exactly when every one of them carries it.
   */
  function GetCustomerStats(invoices: seq<Invoice>, id: string): (r: CustomerStats)
    ensures r.totalInvoices <= |invoices|
    ensures r.totalInvoices == |set i | 0 <= i < |invoices| && invoices[i].body.customerId == Some(id)|
    ensures r.totalPurchases.Fin? <==>
      forall i :: 0 <= i < |invoices| && invoices[i].body.customerId == Some(id) ==> invoices[i].body.total.Some?
    ensures r.totalPurchases.Fin? ==> r.totalPurchases.v == SumPresent(InvoicesOf(invoices, id), TotalOf)
  {
    var mine := InvoicesOf(invoices, id);
    SumFieldFinite(mine, TotalOf);
    KeepForall(invoices, ForCustomer(id), HasTotal);
    InvoicesOfPositions(invoices, id);
    CustomerStats(|mine|, SumField(mine, TotalOf))
  }

  /** An invoice for the customer carrying a `total`, put in front, adds one and its total. */
  lemma StatsCons(x: Invoice, rest: seq<Invoice>, id: string)
    requires x.body.customerId == Some(id) && x.body.total.Some?
    ensures var after := GetCustomerStats([x] + rest, id);
      var before := GetCustomerStats(rest, id);
      && after.totalInvoices == before.totalInvoices + 1
      && (after.totalPurchases.Fin? <==> before.totalPurchases.Fin?)
      && (after.totalPurchases.Fin? ==> after.totalPurchases.v == before.totalPurchases.v + x.body.total.value)
  {
    assert ([x] + rest)[1..] == rest;
    var mine := InvoicesOf(rest, id);
    assert InvoicesOf([x] + rest, id) == [x] + mine;
    SumPresentCons(x, mine, TotalOf);
  }

  /**
   * After a bill the page's figures for the chosen customer stay consistent:
   * one more invoice, and the sum grows by the bill's total (it reads
   * `total`), while the store's running total for that customer is NaN.
   */
  lemma StatsAfterBilling(form: Billing.BillingForm, s: State, c: Clock, calls: seq<DataStore.StoreCall>)
    requires DataStore.UniqueProductIds(s.products)
    requires Billing.GenerateInvoice(form, s, c) == Success(calls)
    ensures var r := DataStore.Run(s, calls, c);
      var after := GetCustomerStats(r.invoices, form.selectedCustomer);
      var before := GetCustomerStats(s.invoices, form.selectedCustomer);
      && after.totalInvoices == before.totalInvoices + 1
      && (after.totalPurchases.Fin? <==> before.totalPurchases.Fin?)
      && (after.totalPurchases.Fin? ==>
            after.totalPurchases.v == before.totalPurchases.v + Billing.CalculateTotals(form.items, form.isInterState).total)
  {
    var inv := DataStore.Run(s, calls, c).invoices;
    BillingFlow.BillingStoredInvoice(form, s, c, calls);
    HeadThenRest(inv, s.invoices);
    StatsCons(inv[0], s.invoices, form.selectedCustomer);
  }

  /**
   * The page and the store disagree after a bill to a known customer: the
   * page's figure read from the invoices stays finite, while the store's
   * running total for every customer with that id is NaN.
   */
  lemma PageTotalOutlivesStoreTotal(form: Billing.BillingForm, s: State, c: Clock, calls: seq<DataStore.StoreCall>)
    requires DataStore.UniqueProductIds(s.products)
    requires Billing.GenerateInvoice(form, s, c) == Success(calls)
    requires DataStore.FindCustomer(s.customers, form.selectedCustomer).Some?
    requires GetCustomerStats(s.invoices, form.selectedCustomer).totalPurchases.Fin?
    ensures var r := DataStore.Run(s, calls, c);
      && GetCustomerStats(r.invoices, form.selectedCustomer).totalPurchases.Fin?
      && (forall i :: 0 <= i < |r.customers| && r.customers[i].id == form.selectedCustomer ==>
            r.customers[i].totalPurchases == NaN)
  {
    StatsAfterBilling(form, s, c, calls);
    BillingFlow.BillingCustomerTotalBecomesNaN(form, s, c, calls);
  }

  // -------------------------------------------------------------------- form

  datatype CustomerForm = CustomerForm(name: string, email: string, phone: string, address: string, gstin: string)

  const EmptyForm := CustomerForm("", "", "", "", "")

  /** `handleEdit`: fills the form from the first customer with the id, if any. */
  function EditForm(cs: seq<Customer>, id: string): (r: Option<CustomerForm>)
    ensures r.None? <==> forall i :: 0 <= i < |cs| ==> cs[i].id != id
    ensures r.Some? ==> exists i :: (
      && 0 <= i < |cs| && cs[i].id == id
      && (forall j :: 0 <= j < i ==> cs[j].id != id)
      && r.value.name == cs[i].name && r.value.email == cs[i].email && r.value.phone == cs[i].phone
      && r.value.address == cs[i].address.GetOr("") && r.value.gstin == cs[i].gstin.GetOr(""))
  {
    match DataStore.FindCustomer(cs, id)
    case None => None
    case Some(cu) => Some(CustomerForm(cu.name, cu.email, cu.phone, cu.address.GetOr(""), cu.gstin.GetOr("")))
  }

  datatype FormError = MissingRequiredField

  /**
   * `handleSubmit`: refuses a form without name, email or phone; otherwise
   * one store call, an update when an id is being edited and an add when not
   * (an empty id counts as none).
   */
  function Submit(form: CustomerForm, editing: Option<string>): (r: Result<seq<DataStore.StoreCall>, FormError>)
    ensures r.Failure? <==> form.name == "" || form.email == "" || form.phone == ""
    ensures r.Success? ==> |r.value| == 1
    ensures r.Success? && editing.Some? && editing.value != "" ==> r.value[0].CallUpdateCustomer?
    ensures r.Success? && (editing.None? || editing.value == "") ==> r.value[0].CallAddCustomer?
  {
    if form.name == "" || form.email == "" || form.phone == "" then Failure(MissingRequiredField)
    else if editing.Some? && editing.value != "" then
      Success([DataStore.CallUpdateCustomer(editing.value,
        CustomerPatch(Some(form.name), Some(form.email), Some(form.phone), Some(form.address), Some(form.gstin),
                      None, None))])
    else
      Success([DataStore.CallAddCustomer(CustomerDraft(form.name, form.email, form.phone, form.address, form.gstin))])
  }

  /** Adding: the customer is appended with the form's fields, a zero total and the store's id. */
  lemma SubmitAdds(s: State, form: CustomerForm, c: Clock, calls: seq<DataStore.StoreCall>)
    requires Submit(form, None) == Success(calls)
    ensures var r := DataStore.Run(s, calls, c);
      && r.customers == s.customers + [Customer(c.millis, form.name, form.email, form.phone, Some(form.address),
                                                Some(form.gstin), Fin(0.0), None, c.iso)]
      && r.products == s.products && r.invoices == s.invoices && r.movements == s.movements
  {
    DataStore.RunOne(s, calls[0], c);
    var r := DataStore.AddCustomer(s, calls[0].customer, c);
    assert r.customers == r.customers[..|s.customers|] + [r.customers[|s.customers|]];
  }

  /**
   * Editing: every customer with the id takes the form's five fields and
   * keeps its id, running total, last purchase date and creation time.
   */
  lemma SubmitEdits(s: State, form: CustomerForm, id: string, c: Clock, calls: seq<DataStore.StoreCall>)
    requires id != ""
    requires Submit(form, Some(id)) == Success(calls)
    ensures var r := DataStore.Run(s, calls, c);
      && |r.customers| == |s.customers|
      && (forall i :: 0 <= i < |s.customers| ==>
            r.customers[i] == if s.customers[i].id == id
              then s.customers[i].(name := form.name, email := form.email, phone := form.phone,
                                   address := Some(form.address), gstin := Some(form.gstin))
              else s.customers[i])
      && r.products == s.products && r.invoices == s.invoices && r.movements == s.movements
  {
    DataStore.RunOne(s, calls[0], c);
  }

  /**
   * Opening a customer for editing and saving without changes leaves the
   * store as it was, when ids are unique and the customer has all fields.
   */
  lemma EditRoundTrip(s: State, id: string, c: Clock, k: nat)
    requires k < |s.customers| && s.customers[k].id == id && id != ""
    requires forall i :: 0 <= i < |s.customers| && s.customers[i].id == id ==> i == k
    requires s.customers[k].address.Some? && s.customers[k].gstin.Some?
    requires s.customers[k].name != "" && s.customers[k].email != "" && s.customers[k].phone != ""
    ensures EditForm(s.customers, id).Some?
    ensures Submit(EditForm(s.customers, id).value, Some(id)).Success?
    ensures DataStore.Run(s, Submit(EditForm(s.customers, id).value, Some(id)).value, c) == s
  {
    FindUnique(s.customers, DataStore.CustomerIdIs(id), k);
    var calls := Submit(EditForm(s.customers, id).value, Some(id)).value;
    var r := DataStore.Run(s, calls, c);
    SubmitEdits(s, EditForm(s.customers, id).value, id, c, calls);
    assert r.customers == s.customers;
  }

  // ------------------------------------------------------------------ delete

  /** `handleDelete`: the one store call the page makes. */
  function DeleteCalls(id: string): seq<DataStore.StoreCall> {
    [DataStore.CallDeleteCustomer(id)]
  }

  /**
   * Deleting a customer removes it from the list but not its invoices: the
   * figures read from the invoices for that id are unchanged.
   */
  lemma DeleteKeepsInvoices(s: State, id: string, c: Clock)
    ensures var r := DataStore.Run(s, DeleteCalls(id), c);
      && (forall i :: 0 <= i < |r.customers| ==> r.customers[i].id != id)
      && SubsequenceOf(r.customers, s.customers)
      && (forall cu: Customer :: multiset(r.customers)[cu] == if cu.id != id then multiset(s.customers)[cu] else 0)
      && r.invoices == s.invoices
      && GetCustomerStats(r.invoices, id) == GetCustomerStats(s.invoices, id)
  {
    DataStore.RunOne(s, DeleteCalls(id)[0], c);
  }
}
