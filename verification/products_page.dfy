/**
 * The product list (`src/pages/Products.tsx`): its fixed choices, the search,
 * the low-stock warning, submitting the product form and deletion.
 */
module ProductsPage {
  import opened Wrappers
  import opened Text
  import opened Seqs
  import opened Types
  import DataStore
  import Billing
  import Dashboard

  // ----------------------------------------------------------------- choices

  /** The category select's options. */
  const Categories: seq<string> := ["Electronics", "Accessories", "Furniture", "Stationery", "Other"]

  /** The GST rate select's options, in percent. */
  const GstRateChoices: seq<int> := [5, 12, 18, 28]

  /** The rate a fresh form starts with. */
  const DefaultGstRate: int := 18

  /** A row shows the warning below this stock. */
  const LowStockBelow: int := 10

  /** The default is one of the choices and is the rate a new bill line starts with. */
  lemma DefaultRateAgrees()
    ensures DefaultGstRate in GstRateChoices
    ensures Billing.BlankLine.gstRate == DefaultGstRate
  {
  }

  // ------------------------------------------------------------------ search

  /** Name, category or SKU contains the search, ignoring case. */
  predicate Listed(p: Product, search: string) {
    || Contains(Lower(p.name), Lower(search))
    || Contains(Lower(p.category), Lower(search))
    || Contains(Lower(p.sku), Lower(search))
  }

  function ListedBy(search: string): Product -> bool {
    (p: Product) => Listed(p, search)
  }

  /** `filteredProducts`: exactly the listed products, in stored order. */
  function FilteredProducts(ps: seq<Product>, search: string): (r: seq<Product>)
    ensures forall i :: 0 <= i < |r| ==> r[i] in ps && Listed(r[i], search)
    ensures forall i :: 0 <= i < |ps| && Listed(ps[i], search) ==> ps[i] in r
    ensures SubsequenceOf(r, ps)
    ensures forall p :: multiset(r)[p] == if Listed(p, search) then multiset(ps)[p] else 0
  {
    KeepKeepsOrderAndCounts(ps, ListedBy(search));
    KeepMultiset(ps, ListedBy(search));
    Keep(ps, ListedBy(search))
  }

  /** An empty search lists every product, in order. */
  lemma EmptySearchListsAll(ps: seq<Product>)
    ensures FilteredProducts(ps, "") == ps
  {
    forall i | 0 <= i < |ps|
      ensures Listed(ps[i], "")
    {
      assert Lower("") == "";
      ContainsEmpty(Lower(ps[i].name));
    }
    KeepAll(ps, ListedBy(""));
  }

  // --------------------------------------------------------------- low stock

  /** The row's warning: `stock < 10`, whatever the product's own level. */
  predicate LowStockWarning(p: Product) {
    p.stock < LowStockBelow
  }

  /**
   * The list's warning and the dashboard's low-stock test are different
   * rules: a product without a level can warn here and never count there,
   * and a product with a level of 10 or more can count there without a
   * warning here. With a level set, a warning here implies low there when
   * the level is at least 9.
   */
  lemma WarningVersusDashboard(p: Product)
    ensures p.minStockLevel.None? ==> !Dashboard.LowStock(p)
    ensures p.minStockLevel.Some? && p.minStockLevel.value >= LowStockBelow - 1 && LowStockWarning(p) ==>
      Dashboard.LowStock(p)
    ensures p.minStockLevel.Some? && p.minStockLevel.value < LowStockBelow && Dashboard.LowStock(p) ==>
      LowStockWarning(p)
  {
  }

  // -------------------------------------------------------------------- form

  /** The form's fields, all text as typed. */
  datatype ProductForm = ProductForm(
    name: string,
    category: string,
    price: string,
    stock: string,
    supplier: string,
    gstRate: string,
    sku: string)

  /** The form after `resetForm`. */
  const EmptyForm := ProductForm("", "", "", "", "", "18", "")

  /** `parseFloat(price)`, `parseInt(stock)` and `parseInt(gstRate)`, read elsewhere. */
  datatype Parsed = Parsed(price: real, stock: int, gstRate: int)

  datatype FormError = MissingRequiredField

  /** The SKU saved: the typed one, or `SKU-` and the clock's milliseconds when empty. */
  function SkuOf(form: ProductForm, c: Clock): (r: string)
    ensures form.sku != "" ==> r == form.sku
    ensures form.sku == "" ==> StartsWith(r, "SKU-") && r[4..] == c.millis
  {
    if form.sku != "" then form.sku else "SKU-" + c.millis
  }

  /**
   * `handleSubmit`: refuses a form without name, category, price or stock;
   * otherwise one store call, an update of every field when an id is being
   * edited (an empty id counts as none) and an add without HSN code or
   * minimum level when not.
   */
  function Submit(form: ProductForm, parsed: Parsed, editing: Option<string>, c: Clock)
    : (r: Result<seq<DataStore.StoreCall>, FormError>)
    ensures r.Failure? <==> form.name == "" || form.category == "" || form.price == "" || form.stock == ""
    ensures r.Success? ==> |r.value| == 1
    ensures r.Success? && editing.Some? && editing.value != "" ==> r.value[0].CallUpdateProduct?
    ensures r.Success? && (editing.None? || editing.value == "") ==>
      r.value[0].CallAddProduct? && r.value[0].product.minStockLevel.None? && r.value[0].product.hsnCode.None?
  {
    if form.name == "" || form.category == "" || form.price == "" || form.stock == "" then
      Failure(MissingRequiredField)
    else if editing.Some? && editing.value != "" then
      Success([DataStore.CallUpdateProduct(editing.value,
        ProductPatch(Some(form.name), Some(form.category), Some(SkuOf(form, c)), Some(parsed.price),
                     Some(parsed.gstRate), Some(parsed.stock), Some(form.supplier)))])
    else
      Success([DataStore.CallAddProduct(
        ProductDraft(form.name, form.category, SkuOf(form, c), None, parsed.price, parsed.gstRate,
                     parsed.stock, None, Some(form.supplier)))])
  }

  /**
   * Adding: the product is appended with the form's text fields, the parsed
   * numbers, the SKU and the store's id; nothing else changes.
   */
  lemma SubmitAdds(s: State, form: ProductForm, parsed: Parsed, c: Clock, calls: seq<DataStore.StoreCall>)
    requires Submit(form, parsed, None, c) == Success(calls)
    ensures var r := DataStore.Run(s, calls, c);
      && r.products == s.products + [Product(c.millis, form.name, form.category, SkuOf(form, c), None,
                                             parsed.price, parsed.gstRate, parsed.stock, None,
                                             Some(form.supplier), c.iso, c.iso)]
      && r.customers == s.customers && r.invoices == s.invoices && r.movements == s.movements
  {
    DataStore.RunOne(s, calls[0], c);
    var r := DataStore.AddProduct(s, calls[0].product, c);
    assert r.products == r.products[..|s.products|] + [r.products[|s.products|]];
  }

  /**
   * Editing: every product with the id takes the form's fields and a new
   * `updatedAt`, keeping its id, HSN code, minimum level and creation time.
   */
  lemma SubmitEdits(s: State, form: ProductForm, parsed: Parsed, id: string, c: Clock,
                    calls: seq<DataStore.StoreCall>)
    requires id != ""
    requires Submit(form, parsed, Some(id), c) == Success(calls)
    ensures var r := DataStore.Run(s, calls, c);
      && |r.products| == |s.products|
      && (forall i :: 0 <= i < |s.products| ==>
            r.products[i] == if s.products[i].id == id
              then s.products[i].(name := form.name, category := form.category, sku := SkuOf(form, c),
                                  price := parsed.price, gstRate := parsed.gstRate, stock := parsed.stock,
                                  supplier := Some(form.supplier), updatedAt := c.iso)
              else s.products[i])
      && r.customers == s.customers && r.invoices == s.invoices && r.movements == s.movements
  {
    DataStore.RunOne(s, calls[0], c);
  }

  /**
   * A product added from this page has no minimum level, so it never counts
   * as low on the dashboard, whatever its stock.
   */
  lemma AddedNeverLowOnDashboard(s: State, form: ProductForm, parsed: Parsed, c: Clock,
                                 calls: seq<DataStore.StoreCall>)
    requires Submit(form, parsed, None, c) == Success(calls)
    ensures var r := DataStore.Run(s, calls, c);
      Dashboard.Stats(r).lowStockProducts == Dashboard.Stats(s).lowStockProducts
      && Dashboard.Stats(r).totalProducts == Dashboard.Stats(s).totalProducts + 1
  {
    var r := DataStore.Run(s, calls, c);
    SubmitAdds(s, form, parsed, c, calls);
    var added := r.products[|s.products|];
    CountAppend(s.products, [added], Dashboard.LowStock);
    assert Keep([added], Dashboard.LowStock) == [];
  }

  // ------------------------------------------------------------------ delete

  /** `handleDelete`: the one store call the page makes. */
  function DeleteCalls(id: string): seq<DataStore.StoreCall> {
    [DataStore.CallDeleteProduct(id)]
  }

  /**
   * Deleting removes every product with the id and keeps the rest; invoices
   * and movements naming it stay.
   */
  lemma DeleteKeepsHistory(s: State, id: string, c: Clock)
    ensures var r := DataStore.Run(s, DeleteCalls(id), c);
      && (forall i :: 0 <= i < |r.products| ==> r.products[i].id != id && r.products[i] in s.products)
      && (forall i :: 0 <= i < |s.products| && s.products[i].id != id ==> s.products[i] in r.products)
      && SubsequenceOf(r.products, s.products)
      && (forall p: Product :: multiset(r.products)[p] == if p.id != id then multiset(s.products)[p] else 0)
      && r.invoices == s.invoices && r.movements == s.movements && r.customers == s.customers
  {
    DataStore.RunOne(s, DeleteCalls(id)[0], c);
  }
}
