/**
 * The ledger store (`src/stores/dataStore.ts`): every action is a pure
 * function from the store's state to its next state. Generated ids and
 * timestamps come from the `Clock` argument. Persistence is not modelled.
 */
module DataStore {
  import opened Wrappers
  import opened JsNumber
  import opened Text
  import opened Seqs
  import opened Types
  import Utils

  // ---------------------------------------------------------------- lookups

  function ProductIdIs(id: string): Product -> bool { (p: Product) => p.id == id }
  function ProductIdIsNot(id: string): Product -> bool { (p: Product) => p.id != id }
  function CustomerIdIs(id: string): Customer -> bool { (c: Customer) => c.id == id }
  function CustomerIdIsNot(id: string): Customer -> bool { (c: Customer) => c.id != id }
  function InvoiceIdIsNot(id: string): Invoice -> bool { (inv: Invoice) => inv.id != id }

  /** `products.find(p => p.id === id)`. */
  function FindProduct(ps: seq<Product>, id: string): Option<Product> {
    Find(ps, ProductIdIs(id))
  }

  /** `customers.find(c => c.id === id)`. */
  function FindCustomer(cs: seq<Customer>, id: string): Option<Customer> {
    Find(cs, CustomerIdIs(id))
  }

  /** Position `i` holds the first product with the id. */
  predicate FirstProductAt(ps: seq<Product>, id: string, i: int) {
    0 <= i < |ps| && ps[i].id == id && forall j :: 0 <= j < i ==> ps[j].id != id
  }

  /** Position `i` holds the first customer with the id. */
  predicate FirstCustomerAt(cs: seq<Customer>, id: string, i: int) {
    0 <= i < |cs| && cs[i].id == id && forall j :: 0 <= j < i ==> cs[j].id != id
  }

  /** `find` returns the product at the first position with the id. */
  lemma FindProductFirst(ps: seq<Product>, id: string)
    ensures forall i :: FirstProductAt(ps, id, i) ==> FindProduct(ps, id) == Some(ps[i])
  {
    forall i | FirstProductAt(ps, id, i)
      ensures FindProduct(ps, id) == Some(ps[i])
    {
      assert ProductIdIs(id)(ps[i]);
    }
  }

  /** `find` returns the customer at the first position with the id. */
  lemma FindCustomerFirst(cs: seq<Customer>, id: string)
    ensures forall i :: FirstCustomerAt(cs, id, i) ==> FindCustomer(cs, id) == Some(cs[i])
  {
    forall i | FirstCustomerAt(cs, id, i)
      ensures FindCustomer(cs, id) == Some(cs[i])
    {
      assert CustomerIdIs(id)(cs[i]);
    }
  }

  predicate HasProduct(ps: seq<Product>, id: string) {
    exists i :: 0 <= i < |ps| && ps[i].id == id
  }

  /** `find` succeeds exactly for the ids some product has. */
  lemma KnownIffFound(ps: seq<Product>, id: string)
    ensures HasProduct(ps, id) <==> FindProduct(ps, id).Some?
  {
    if HasProduct(ps, id) {
      var k :| 0 <= k < |ps| && ps[k].id == id;
      assert ProductIdIs(id)(ps[k]);
    }
  }

  /** No two products share an id. */
  predicate UniqueProductIds(ps: seq<Product>) {
    forall i, j :: 0 <= i < j < |ps| ==> ps[i].id != ps[j].id
  }

  /** The two sequences hold products with the same ids at the same positions. */
  predicate SameProductIds(a: seq<Product>, b: seq<Product>) {
    |a| == |b| && forall i :: 0 <= i < |a| ==> a[i].id == b[i].id
  }

  lemma SameProductIdsHas(a: seq<Product>, b: seq<Product>, id: string)
    requires SameProductIds(a, b)
    ensures HasProduct(a, id) <==> HasProduct(b, id)
    ensures FindProduct(a, id).Some? <==> FindProduct(b, id).Some?
  {
    if HasProduct(a, id) {
      var i :| 0 <= i < |a| && a[i].id == id;
      assert b[i].id == id;
    }
    if HasProduct(b, id) {
      var i :| 0 <= i < |b| && b[i].id == id;
      assert a[i].id == id;
    }
  }

  // --------------------------------------------------------------- products

  /** `addProduct`: appends the draft with a fresh id and both timestamps set to now. */
  function AddProduct(s: State, d: ProductDraft, c: Clock): (r: State)
    ensures |r.products| == |s.products| + 1 && r.products[..|s.products|] == s.products
    ensures var p := r.products[|s.products|];
      && p.id == c.millis && p.createdAt == c.iso && p.updatedAt == c.iso
      && p.name == d.name && p.category == d.category && p.sku == d.sku && p.hsnCode == d.hsnCode
      && p.price == d.price && p.gstRate == d.gstRate && p.stock == d.stock
      && p.minStockLevel == d.minStockLevel && p.supplier == d.supplier
    ensures r.customers == s.customers && r.invoices == s.invoices && r.movements == s.movements
  {
    var p := Product(c.millis, d.name, d.category, d.sku, d.hsnCode, d.price, d.gstRate, d.stock,
                     d.minStockLevel, d.supplier, c.iso, c.iso);
    s.(products := s.products + [p])
  }

  /** `{ ...p, ...patch, updatedAt: now }`. */
  function PatchProduct(p: Product, patch: ProductPatch, now: string): Product {
    p.(name := patch.name.GetOr(p.name),
       category := patch.category.GetOr(p.category),
       sku := patch.sku.GetOr(p.sku),
       price := patch.price.GetOr(p.price),
       gstRate := patch.gstRate.GetOr(p.gstRate),
       stock := patch.stock.GetOr(p.stock),
       supplier := if patch.supplier.Some? then patch.supplier else p.supplier,
       updatedAt := now)
  }

  /**
   * `updateProduct`: every product with the id gets the patch and a new
   * `updatedAt`; all other products, their order and the other collections
   * stay as they were. Ids are never changed.
   */
  function UpdateProduct(s: State, id: string, patch: ProductPatch, c: Clock): (r: State)
    ensures SameProductIds(r.products, s.products)
    ensures forall i :: 0 <= i < |s.products| && s.products[i].id != id ==> r.products[i] == s.products[i]
    ensures forall i :: 0 <= i < |s.products| && s.products[i].id == id ==>
      r.products[i] == PatchProduct(s.products[i], patch, c.iso)
    ensures r.customers == s.customers && r.invoices == s.invoices && r.movements == s.movements
  {
    var ps := seq(|s.products|, i requires 0 <= i < |s.products| =>
      if s.products[i].id == id then PatchProduct(s.products[i], patch, c.iso) else s.products[i]);
    s.(products := ps)
  }

  /** Updating an id no product has changes nothing. */
  lemma UpdateProductUnknownId(s: State, id: string, patch: ProductPatch, c: Clock)
    requires !HasProduct(s.products, id)
    ensures UpdateProduct(s, id, patch, c) == s
  {
    assert UpdateProduct(s, id, patch, c).products == s.products;
  }

  /** `deleteProduct`: keeps exactly the products with another id, in order; nothing else changes. */
  function DeleteProduct(s: State, id: string): (r: State)
    ensures forall i :: 0 <= i < |r.products| ==> r.products[i].id != id && r.products[i] in s.products
    ensures forall i :: 0 <= i < |s.products| && s.products[i].id != id ==> s.products[i] in r.products
    ensures SubsequenceOf(r.products, s.products)
    ensures forall p: Product :: multiset(r.products)[p] == if p.id != id then multiset(s.products)[p] else 0
    ensures r.customers == s.customers && r.invoices == s.invoices && r.movements == s.movements
  {
    KeepKeepsOrderAndCounts(s.products, ProductIdIsNot(id));
    KeepMultiset(s.products, ProductIdIsNot(id));
    s.(products := Keep(s.products, ProductIdIsNot(id)))
  }

  /** Deleting an id no product has changes nothing. */
  lemma DeleteProductUnknownId(s: State, id: string)
    requires !HasProduct(s.products, id)
    ensures DeleteProduct(s, id) == s
  {
    KeepAll(s.products, ProductIdIsNot(id));
  }

  /** The store actions on products keep product ids unique when new ids are fresh. */
  lemma ProductActionsKeepIdsUnique(s: State, d: ProductDraft, id: string, patch: ProductPatch, c: Clock)
    requires UniqueProductIds(s.products)
    ensures !HasProduct(s.products, c.millis) ==> UniqueProductIds(AddProduct(s, d, c).products)
    ensures UniqueProductIds(UpdateProduct(s, id, patch, c).products)
    ensures UniqueProductIds(DeleteProduct(s, id).products)
  {
    KeepUnique(s.products, ProductIdIsNot(id));
  }

  lemma {:induction false} KeepUnique(ps: seq<Product>, f: Product -> bool)
    requires UniqueProductIds(ps)
    ensures UniqueProductIds(Keep(ps, f))
    decreases |ps|
  {
    if |ps| > 0 {
      KeepUnique(ps[1..], f);
      var rest := Keep(ps[1..], f);
      forall i | 0 <= i < |rest|
        ensures rest[i].id != ps[0].id
      {
        var k :| 0 <= k < |ps[1..]| && ps[1..][k] == rest[i];
        assert ps[k + 1] == rest[i];
      }
    }
  }

  /** The stock change a movement of this kind applies: sales subtract, the others add. */
  function StockAfter(stock: int, kind: MovementKind, quantity: int): (n: int)
    ensures kind == Sale ==> n == stock - quantity
    ensures kind != Sale ==> n == stock + quantity
  {
    var change := if kind == Sale then -quantity else quantity;
    stock + change
  }

  /**
   * `updateStock`: a no-op for an unknown product. Otherwise every product
   * with the id gets the new stock (computed from the first such product,
   * with no check against going negative), and one movement recording it is
   * put in front of the history.
   */
  function UpdateStock(s: State, productId: string, quantity: int, kind: MovementKind,
                       reference: Option<string>, c: Clock): (r: State)
    ensures FindProduct(s.products, productId).None? ==> r == s
    ensures FindProduct(s.products, productId).Some? ==>
      var p := FindProduct(s.products, productId).value;
      var stock := StockAfter(p.stock, kind, quantity);
      && SameProductIds(r.products, s.products)
      && (forall i :: 0 <= i < |s.products| ==>
            r.products[i] == if s.products[i].id == productId
                             then s.products[i].(stock := stock, updatedAt := c.iso)
                             else s.products[i])
      && |r.movements| == |s.movements| + 1 && r.movements[1..] == s.movements
      && r.movements[0] == StockMovement(c.millis, productId, p.name, kind, quantity, Some(stock),
                                         reference, Some(c.iso), None)
    ensures r.customers == s.customers && r.invoices == s.invoices
  {
    match FindProduct(s.products, productId)
    case None => s
    case Some(p) =>
      var stock := StockAfter(p.stock, kind, quantity);
      var s1 := UpdateProduct(s, productId, StockPatch(stock), c);
      var m := StockMovement(c.millis, productId, p.name, kind, quantity, Some(stock),
                             reference, Some(c.iso), None);
      s1.(movements := [m] + s1.movements)
  }

  // -------------------------------------------------------------- customers

  /** `addCustomer`: appends the draft with a fresh id, a zero running total and no purchase date. */
  function AddCustomer(s: State, d: CustomerDraft, c: Clock): (r: State)
    ensures |r.customers| == |s.customers| + 1 && r.customers[..|s.customers|] == s.customers
    ensures var n := r.customers[|s.customers|];
      && n.id == c.millis && n.totalPurchases == Fin(0.0) && n.lastPurchaseDate.None?
      && n.name == d.name && n.email == d.email && n.phone == d.phone
      && n.address == Some(d.address) && n.gstin == Some(d.gstin) && n.createdAt == c.iso
    ensures r.products == s.products && r.invoices == s.invoices && r.movements == s.movements
  {
    var n := Customer(c.millis, d.name, d.email, d.phone, Some(d.address), Some(d.gstin),
                      Fin(0.0), None, c.iso);
    s.(customers := s.customers + [n])
  }

  /** `{ ...c, ...patch }`. */
  function PatchCustomer(c: Customer, patch: CustomerPatch): Customer {
    c.(name := patch.name.GetOr(c.name),
       email := patch.email.GetOr(c.email),
       phone := patch.phone.GetOr(c.phone),
       address := if patch.address.Some? then patch.address else c.address,
       gstin := if patch.gstin.Some? then patch.gstin else c.gstin,
       totalPurchases := patch.totalPurchases.GetOr(c.totalPurchases),
       lastPurchaseDate := if patch.lastPurchaseDate.Some? then patch.lastPurchaseDate else c.lastPurchaseDate)
  }

  /** `updateCustomer`: only customers with the id change; order, length and ids are kept. */
  function UpdateCustomer(s: State, id: string, patch: CustomerPatch): (r: State)
    ensures |r.customers| == |s.customers|
    ensures forall i :: 0 <= i < |s.customers| ==> r.customers[i].id == s.customers[i].id
    ensures forall i :: 0 <= i < |s.customers| && s.customers[i].id != id ==> r.customers[i] == s.customers[i]
    ensures forall i :: 0 <= i < |s.customers| && s.customers[i].id == id ==>
      r.customers[i] == PatchCustomer(s.customers[i], patch)
    ensures r.products == s.products && r.invoices == s.invoices && r.movements == s.movements
  {
    var cs := seq(|s.customers|, i requires 0 <= i < |s.customers| =>
      if s.customers[i].id == id then PatchCustomer(s.customers[i], patch) else s.customers[i]);
    s.(customers := cs)
  }

  /** Updating an id no customer has changes nothing. */
  lemma UpdateCustomerUnknownId(s: State, id: string, patch: CustomerPatch)
    requires forall i :: 0 <= i < |s.customers| ==> s.customers[i].id != id
    ensures UpdateCustomer(s, id, patch) == s
  {
    assert UpdateCustomer(s, id, patch).customers == s.customers;
  }

  /** `deleteCustomer`: keeps exactly the customers with another id; invoices naming it are untouched. */
  function DeleteCustomer(s: State, id: string): (r: State)
    ensures forall i :: 0 <= i < |r.customers| ==> r.customers[i].id != id && r.customers[i] in s.customers
    ensures forall i :: 0 <= i < |s.customers| && s.customers[i].id != id ==> s.customers[i] in r.customers
    ensures SubsequenceOf(r.customers, s.customers)
    ensures forall c: Customer :: multiset(r.customers)[c] == if c.id != id then multiset(s.customers)[c] else 0
    ensures r.products == s.products && r.invoices == s.invoices && r.movements == s.movements
  {
    KeepKeepsOrderAndCounts(s.customers, CustomerIdIsNot(id));
    KeepMultiset(s.customers, CustomerIdIsNot(id));
    s.(customers := Keep(s.customers, CustomerIdIsNot(id)))
  }

  // --------------------------------------------------------------- invoices

  /** The last two characters of the year's decimal text (`slice(-2)`). */
  function YearSuffix(year: nat): (r: string)
    ensures 1 <= |r| <= 2 && AllDigits(r)
    ensures year >= 10 ==> |r| == 2
    ensures DigitsValue(r) == year % 100
  {
    var t := NatToString(year);
    NatToStringRoundTrip(year);
    if |t| <= 2 then t else LastTwoDigits(year); t[|t| - 2..]
  }

  /** "INV" + YY + MM, the month being one-based and zero-padded. */
  function InvoicePrefix(c: Clock): string {
    "INV" + YearSuffix(c.year) + Utils.TwoDigits(c.month + 1)
  }

  /**
   * From year 10 on the prefix is seven characters: "INV", the two digits of
   * `year % 100`, and the two digits of the one-based month.
   */
  lemma InvoicePrefixFields(c: Clock)
    requires ValidClock(c) && c.year >= 10
    ensures var p := InvoicePrefix(c);
      && |p| == 7 && p[..3] == "INV"
      && AllDigits(p[3..5]) && DigitsValue(p[3..5]) == c.year % 100
      && AllDigits(p[5..7]) && DigitsValue(p[5..7]) == c.month + 1
  {
    var yy, mm := YearSuffix(c.year), Utils.TwoDigits(c.month + 1);
    assert |yy| == 2 && AllDigits(yy) && DigitsValue(yy) == c.year % 100;
    Utils.TwoDigitsRoundTrip(c.month + 1);
    var p := InvoicePrefix(c);
    assert p == "INV" + yy + mm;
    ThreeFields("INV", yy, mm);
    assert p[3..5] == yy && p[5..7] == mm;
  }

  lemma ThreeFields(a: string, b: string, d: string)
    requires |a| == 3 && |b| == 2 && |d| == 2
    ensures var p := a + b + d; |p| == 7 && p[..3] == a && p[3..5] == b && p[5..7] == d
  {
    var p := a + b + d;
    assert p[..3] == a;
    assert p[3..5] == b;
    assert p[5..7] == d;
  }

  function NumberStartsWith(prefix: string): Invoice -> bool {
    (inv: Invoice) => StartsWith(inv.invoiceNumber, prefix)
  }

  /** How many stored invoices already carry a number with this month's prefix. */
  function IssuedThisMonth(s: State, c: Clock): nat {
    Count(s.invoices, NumberStartsWith(InvoicePrefix(c)))
  }

  /** `String(n).padStart(4, '0')`. */
  function SequenceNumber(n: nat): string {
    PadStart(NatToString(n), 4, '0')
  }

  /** One padded to four digits. */
  lemma PadOne()
    ensures SequenceNumber(1) == "0001"
  {
    assert NatToString(1) == [DigitChar(1)] == "1";
    assert PadStart("1", 4, '0') == PadStart("01", 4, '0');
    assert PadStart("01", 4, '0') == PadStart("001", 4, '0');
    assert PadStart("001", 4, '0') == "0001";
  }

  /**
   * `getNextInvoiceNumber`: the month's prefix followed by one more than the
   * number of stored invoices with that prefix, zero-padded to four digits.
   */
  function NextInvoiceNumber(s: State, c: Clock): (r: string)
    ensures StartsWith(r, InvoicePrefix(c)) && |r| >= |InvoicePrefix(c)| + 4
  {
    InvoicePrefix(c) + SequenceNumber(IssuedThisMonth(s, c) + 1)
  }

  /**
   * The number is the month's prefix followed by at least four digits whose
   * value is one more than the count of this month's stored numbers.
   */
  lemma NextNumberFormat(s: State, c: Clock)
    ensures var r := NextInvoiceNumber(s, c);
      && StartsWith(r, InvoicePrefix(c))
      && |r| >= |InvoicePrefix(c)| + 4
      && AllDigits(r[|InvoicePrefix(c)|..])
      && DigitsValue(r[|InvoicePrefix(c)|..]) == IssuedThisMonth(s, c) + 1
  {
    var n := IssuedThisMonth(s, c) + 1;
    PaddedRoundTrip(n, 4);
    PrefixThenDigits(InvoicePrefix(c), SequenceNumber(n), n);
  }

  lemma PrefixThenDigits(prefix: string, digits: string, n: nat)
    requires |digits| >= 4 && AllDigits(digits) && DigitsValue(digits) == n
    ensures StartsWith(prefix + digits, prefix)
    ensures |prefix + digits| >= |prefix| + 4
    ensures AllDigits((prefix + digits)[|prefix|..]) && DigitsValue((prefix + digits)[|prefix|..]) == n
  {
    assert (prefix + digits)[|prefix|..] == digits;
    assert (prefix + digits)[..|prefix|] == prefix;
  }

  /** The first invoice of a month is numbered ...0001. */
  lemma FirstOfMonth(s: State, c: Clock)
    requires IssuedThisMonth(s, c) == 0
    ensures NextInvoiceNumber(s, c) == InvoicePrefix(c) + "0001"
  {
    var n := IssuedThisMonth(s, c) + 1;
    assert n == 1;
    PadOne();
    var prefix, digits := InvoicePrefix(c), SequenceNumber(n);
    assert digits == "0001";
    assert NextInvoiceNumber(s, c) == prefix + digits;
  }

  /** The quantity a line takes from the product with this id. */
  function QtyFor(id: string): InvoiceItem -> int {
    (it: InvoiceItem) => if it.productId == id then it.quantity else 0
  }

  function KnownProductLine(ps: seq<Product>): InvoiceItem -> bool {
    (it: InvoiceItem) => HasProduct(ps, it.productId)
  }

  /** The `forEach` of `addInvoice` that calls `updateStock(line, 'sale', number)` for each line in order. */
  function ApplySales(s: State, items: seq<InvoiceItem>, number: string, c: Clock): (r: State)
    ensures SameProductIds(r.products, s.products)
    ensures r.customers == s.customers && r.invoices == s.invoices
    decreases |items|
  {
    if |items| == 0 then s
    else ApplySales(UpdateStock(s, items[0].productId, items[0].quantity, Sale, Some(number), c),
                    items[1..], number, c)
  }

  /**
   * With unique product ids, each product ends at its stock minus the sum of
   * the quantities of the lines naming it; lines of unknown products are skipped.
   */
  lemma {:induction false} ApplySalesStock(s: State, items: seq<InvoiceItem>, number: string, c: Clock)
    requires UniqueProductIds(s.products)
    ensures forall i :: 0 <= i < |s.products| ==>
      ApplySales(s, items, number, c).products[i].stock ==
      s.products[i].stock - SumOfInt(items, QtyFor(s.products[i].id))
    decreases |items|
  {
    if |items| > 0 {
      var it := items[0];
      var s1 := UpdateStock(s, it.productId, it.quantity, Sale, Some(number), c);
      assert UniqueProductIds(s1.products) by {
        assert SameProductIds(s1.products, s.products);
      }
      ApplySalesStock(s1, items[1..], number, c);
      forall i | 0 <= i < |s.products|
        ensures ApplySales(s, items, number, c).products[i].stock ==
          s.products[i].stock - SumOfInt(items, QtyFor(s.products[i].id))
      {
        var id := s.products[i].id;
        assert items == [it] + items[1..];
        SumOfIntAppend([it], items[1..], QtyFor(id));
        assert SumOfInt([it], QtyFor(id)) == QtyFor(id)(it) by {
          assert [it][..0] == [];
        }
        SaleStockAt(s, it, number, c, i);
      }
    }
  }

  /** One sale lowers the stock at position `i` by the line's quantity for that product. */
  lemma SaleStockAt(s: State, it: InvoiceItem, number: string, c: Clock, i: nat)
    requires UniqueProductIds(s.products) && i < |s.products|
    ensures var s1 := UpdateStock(s, it.productId, it.quantity, Sale, Some(number), c);
      |s1.products| == |s.products| &&
      s1.products[i].stock == s.products[i].stock - QtyFor(s.products[i].id)(it)
  {
    if it.productId == s.products[i].id {
      FindUnique(s.products, ProductIdIs(it.productId), i);
    }
  }

  /**
   * `now` is `earlier` with sale movements referencing `number` put in front.
   */
  predicate SalesInFront(now: seq<StockMovement>, earlier: seq<StockMovement>, number: string) {
    && |now| >= |earlier|
    && now[|now| - |earlier|..] == earlier
    && forall j :: 0 <= j < |now| - |earlier| ==> now[j].kind == Sale && now[j].reference == Some(number)
  }

  lemma SalesInFrontRefl(m: seq<StockMovement>, number: string)
    ensures SalesInFront(m, m, number)
  {
    assert m[0..] == m;
  }

  lemma SalesInFrontTrans(a: seq<StockMovement>, b: seq<StockMovement>, e: seq<StockMovement>, number: string)
    requires SalesInFront(a, b, number) && SalesInFront(b, e, number)
    ensures SalesInFront(a, e, number)
  {
    var k := |a| - |b|;
    assert a[k..] == b;
    assert a[|a| - |e|..] == b[|b| - |e|..];
    forall j | 0 <= j < |a| - |e|
      ensures a[j].kind == Sale && a[j].reference == Some(number)
    {
      if j >= k {
        assert a[j] == b[j - k];
      }
    }
  }

  /** One `updateStock` sale: a movement in front when the product exists, no change otherwise. */
  lemma SaleStepMovements(s: State, it: InvoiceItem, number: string, c: Clock)
    ensures var s1 := UpdateStock(s, it.productId, it.quantity, Sale, Some(number), c);
      && SameProductIds(s1.products, s.products)
      && (KnownProductLine(s.products)(it) ==>
            |s1.movements| == |s.movements| + 1 && SalesInFront(s1.movements, s.movements, number))
      && (!KnownProductLine(s.products)(it) ==> s1.movements == s.movements)
  {
    var s1 := UpdateStock(s, it.productId, it.quantity, Sale, Some(number), c);
    KnownIffFound(s.products, it.productId);
    if FindProduct(s.products, it.productId).Some? {
      OneSaleInFront(s1.movements, s.movements, number);
    }
  }

  lemma OneSaleInFront(now: seq<StockMovement>, earlier: seq<StockMovement>, number: string)
    requires |now| == |earlier| + 1 && now[1..] == earlier
    requires now[0].kind == Sale && now[0].reference == Some(number)
    ensures SalesInFront(now, earlier, number)
  {
  }

  /** Counting the known lines does not depend on which of two id-equal product lists is asked. */
  lemma KnownLinesAgree(a: seq<Product>, b: seq<Product>, items: seq<InvoiceItem>)
    requires SameProductIds(a, b)
    ensures Count(items, KnownProductLine(a)) == Count(items, KnownProductLine(b))
  {
    forall i | 0 <= i < |items|
      ensures KnownProductLine(a)(items[i]) == KnownProductLine(b)(items[i])
    {
      SameProductIdsHas(a, b, items[i].productId);
    }
    KeepAgree(items, KnownProductLine(a), KnownProductLine(b));
  }

  lemma CountFirst<T>(x: T, rest: seq<T>, f: T -> bool)
    ensures Count([x] + rest, f) == (if f(x) then 1 else 0) + Count(rest, f)
  {
    CountAppend([x], rest, f);
    assert [x][1..] == [];
  }

  /** The inductive step of `ApplySalesMovements`, stated over the states it connects. */
  lemma SalesMovementsStep(ps: seq<Product>, ps1: seq<Product>, m: seq<StockMovement>, m1: seq<StockMovement>,
                           mr: seq<StockMovement>, items: seq<InvoiceItem>, number: string)
    requires |items| > 0
    requires SameProductIds(ps1, ps)
    requires KnownProductLine(ps)(items[0]) ==> |m1| == |m| + 1 && SalesInFront(m1, m, number)
    requires !KnownProductLine(ps)(items[0]) ==> m1 == m
    requires |mr| == |m1| + Count(items[1..], KnownProductLine(ps1)) && SalesInFront(mr, m1, number)
    ensures |mr| == |m| + Count(items, KnownProductLine(ps)) && SalesInFront(mr, m, number)
  {
    KnownLinesAgree(ps1, ps, items[1..]);
    if KnownProductLine(ps)(items[0]) {
      SalesInFrontTrans(mr, m1, m, number);
    }
  }

  /**
   * One sale movement is put in front of the history for each line whose
   * product exists, referencing the invoice number; earlier movements stay,
   * in order, behind them.
   */
  lemma {:induction false} ApplySalesMovements(s: State, items: seq<InvoiceItem>, number: string, c: Clock)
    ensures |ApplySales(s, items, number, c).movements| ==
      |s.movements| + Count(items, KnownProductLine(s.products))
    ensures SalesInFront(ApplySales(s, items, number, c).movements, s.movements, number)
    decreases |items|
  {
    if |items| == 0 {
      SalesInFrontRefl(s.movements, number);
    } else {
      ApplySalesMovements(UpdateStock(s, items[0].productId, items[0].quantity, Sale, Some(number), c),
                          items[1..], number, c);
      SalesMovementsCons(s, items, number, c);
    }
  }

  /** `ApplySalesMovements` for a non-empty list, given it for the list's tail. */
  lemma SalesMovementsCons(s: State, items: seq<InvoiceItem>, number: string, c: Clock)
    requires |items| > 0
    requires var s1 := UpdateStock(s, items[0].productId, items[0].quantity, Sale, Some(number), c);
      var mr := ApplySales(s1, items[1..], number, c).movements;
      |mr| == |s1.movements| + Count(items[1..], KnownProductLine(s1.products)) &&
      SalesInFront(mr, s1.movements, number)
    ensures |ApplySales(s, items, number, c).movements| ==
      |s.movements| + Count(items, KnownProductLine(s.products))
    ensures SalesInFront(ApplySales(s, items, number, c).movements, s.movements, number)
  {
    var s1 := UpdateStock(s, items[0].productId, items[0].quantity, Sale, Some(number), c);
    var mr := ApplySales(s1, items[1..], number, c).movements;
    assert ApplySales(s, items, number, c).movements == mr;
    SaleStepMovements(s, items[0], number, c);
    SalesMovementsStep(s.products, s1.products, s.movements, s1.movements, mr, items, number);
  }

  /**
   * The customer half of `addInvoice`: when the invoice names a customer
   * (a non-empty id) that exists, each customer with that id gets
   * `totalPurchases` = that customer's total + `totalAmount` and a purchase
   * date; otherwise nothing changes. An absent `totalAmount` makes the total NaN.
   */
  function CreditCustomer(s: State, customerId: Option<string>, amount: Option<real>, c: Clock): (r: State)
    ensures r.products == s.products && r.invoices == s.invoices && r.movements == s.movements
    ensures |r.customers| == |s.customers|
    ensures (customerId.None? || customerId.value == "" || FindCustomer(s.customers, customerId.value).None?)
      ==> r.customers == s.customers
    ensures customerId.Some? && customerId.value != "" && FindCustomer(s.customers, customerId.value).Some? ==>
      var first := FindCustomer(s.customers, customerId.value).value;
      forall i :: 0 <= i < |s.customers| ==>
        r.customers[i] == if s.customers[i].id == customerId.value
                          then s.customers[i].(totalPurchases := Add(first.totalPurchases, OfField(amount)),
                                               lastPurchaseDate := Some(c.iso))
                          else s.customers[i]
  {
    if customerId.Some? && customerId.value != "" then
      match FindCustomer(s.customers, customerId.value)
      case Some(cu) =>
        UpdateCustomer(s, customerId.value,
          CustomerPatch(None, None, None, None, None, Some(Add(cu.totalPurchases, OfField(amount))), Some(c.iso)))
      case None => s
    else s
  }

  /**
   * `addInvoice`: numbers the invoice, applies one sale per line, credits the
   * customer, and puts the stored invoice (whose id is the clock's, whatever
   * the caller put in its own record) in front of the list.
   */
  function AddInvoice(s: State, d: InvoiceBody, c: Clock): (r: State)
    ensures r.invoices == [Invoice(c.millis, NextInvoiceNumber(s, c), c.iso, d)] + s.invoices
  {
    var number := NextInvoiceNumber(s, c);
    var s1 := ApplySales(s, d.items, number, c);
    var s2 := CreditCustomer(s1, d.customerId, d.totalAmount, c);
    s2.(invoices := [Invoice(c.millis, number, c.iso, d)] + s2.invoices)
  }

  /**
   * The parts of `addInvoice` other than the invoice list: the products and
   * movements are those of the sales, the customers those of the credit.
   */
  lemma AddInvoiceParts(s: State, d: InvoiceBody, c: Clock)
    ensures var r := AddInvoice(s, d, c);
      && SameProductIds(r.products, s.products)
      && r.products == ApplySales(s, d.items, NextInvoiceNumber(s, c), c).products
      && r.movements == ApplySales(s, d.items, NextInvoiceNumber(s, c), c).movements
      && r.customers == CreditCustomer(s, d.customerId, d.totalAmount, c).customers
  {
    var number := NextInvoiceNumber(s, c);
    var s1 := ApplySales(s, d.items, number, c);
    CreditReadsCustomers(s1, s, d.customerId, d.totalAmount, c);
  }

  /** The credit's customers depend on the customer list alone. */
  lemma CreditReadsCustomers(a: State, b: State, customerId: Option<string>, amount: Option<real>, c: Clock)
    requires a.customers == b.customers
    ensures CreditCustomer(a, customerId, amount, c).customers == CreditCustomer(b, customerId, amount, c).customers
  {
  }

  /**
   * With unique product ids, `addInvoice` lowers each product's stock by the
   * total quantity of the rows naming it, and by nothing if none does.
   */
  lemma AddInvoiceStock(s: State, d: InvoiceBody, c: Clock)
    requires UniqueProductIds(s.products)
    ensures SameProductIds(AddInvoice(s, d, c).products, s.products)
    ensures forall i :: 0 <= i < |s.products| ==>
      AddInvoice(s, d, c).products[i].stock == s.products[i].stock - SumOfInt(d.items, QtyFor(s.products[i].id))
  {
    AddInvoiceParts(s, d, c);
    ApplySalesStock(s, d.items, NextInvoiceNumber(s, c), c);
  }

  /** `addInvoice` records one sale movement per row whose product exists, in front of the history. */
  lemma AddInvoiceMovements(s: State, d: InvoiceBody, c: Clock)
    ensures |AddInvoice(s, d, c).movements| == |s.movements| + Count(d.items, KnownProductLine(s.products))
    ensures SalesInFront(AddInvoice(s, d, c).movements, s.movements, NextInvoiceNumber(s, c))
  {
    AddInvoiceParts(s, d, c);
    ApplySalesMovements(s, d.items, NextInvoiceNumber(s, c), c);
  }

  /** Without deletions, each invoice of a month advances that month's sequence number by one. */
  lemma AddInvoiceAdvancesNumber(s: State, d: InvoiceBody, c: Clock)
    ensures IssuedThisMonth(AddInvoice(s, d, c), c) == IssuedThisMonth(s, c) + 1
  {
    var inv := Invoice(c.millis, NextInvoiceNumber(s, c), c.iso, d);
    CountAppend([inv], s.invoices, NumberStartsWith(InvoicePrefix(c)));
  }

  /** `deleteInvoice`: removes the invoice only; no stock, movement or customer total is restored. */
  function DeleteInvoice(s: State, id: string): (r: State)
    ensures forall i :: 0 <= i < |r.invoices| ==> r.invoices[i].id != id && r.invoices[i] in s.invoices
    ensures forall i :: 0 <= i < |s.invoices| && s.invoices[i].id != id ==> s.invoices[i] in r.invoices
    ensures SubsequenceOf(r.invoices, s.invoices)
    ensures forall inv: Invoice :: multiset(r.invoices)[inv] == if inv.id != id then multiset(s.invoices)[inv] else 0
    ensures r.products == s.products && r.customers == s.customers && r.movements == s.movements
  {
    KeepKeepsOrderAndCounts(s.invoices, InvoiceIdIsNot(id));
    KeepMultiset(s.invoices, InvoiceIdIsNot(id));
    s.(invoices := Keep(s.invoices, InvoiceIdIsNot(id)))
  }

  /** Dropping the second of two matching invoices from the front leaves the count as it was before the first. */
  lemma DropSecondCount(a: Invoice, b: Invoice, rest: seq<Invoice>, id: string, g: Invoice -> bool)
    requires a.id != id && b.id == id && g(a) && g(b)
    requires forall i :: 0 <= i < |rest| ==> rest[i].id != id
    ensures Count(Keep([a] + ([b] + rest), InvoiceIdIsNot(id)), g) == Count([b] + rest, g)
  {
    var f := InvoiceIdIsNot(id);
    KeepAppend([a], [b] + rest, f);
    KeepAppend([b], rest, f);
    KeepAll(rest, f);
    assert [a][1..] == [] && [b][1..] == [];
    assert Keep([a] + ([b] + rest), f) == [a] + rest;
    CountFirst(a, rest, g);
    CountFirst(b, rest, g);
  }

  /** The next number depends on the stored invoices only through the month's count. */
  lemma NextNumberByCount(a: State, b: State, c: Clock)
    requires IssuedThisMonth(a, c) == IssuedThisMonth(b, c)
    ensures NextInvoiceNumber(a, c) == NextInvoiceNumber(b, c)
  {
  }

  /** The invoice half of `NumberRecursAfterDelete`, over the invoice lists alone. */
  lemma DeleteFirstOfTwo(inv: seq<Invoice>, a: Invoice, b: Invoice, prefix: string)
    requires a.id != b.id
    requires forall i :: 0 <= i < |inv| ==> inv[i].id != b.id
    requires StartsWith(a.invoiceNumber, prefix) && StartsWith(b.invoiceNumber, prefix)
    ensures Count(Keep([a] + ([b] + inv), InvoiceIdIsNot(b.id)), NumberStartsWith(prefix)) ==
            Count([b] + inv, NumberStartsWith(prefix))
  {
    DropSecondCount(a, b, inv, b.id, NumberStartsWith(prefix));
  }

  /**
   * Numbering by counting makes numbers recur: issue two invoices in a month,
   * delete the first, and the next number is the one the second already carries.
   */
  lemma NumberRecursAfterDelete(s: State, d1: InvoiceBody, d2: InvoiceBody, c1: Clock, c2: Clock)
    requires c1.year == c2.year && c1.month == c2.month && c1.millis != c2.millis
    requires forall i :: 0 <= i < |s.invoices| ==> s.invoices[i].id != c1.millis
    ensures var s2 := AddInvoice(AddInvoice(s, d1, c1), d2, c2);
      NextInvoiceNumber(DeleteInvoice(s2, c1.millis), c2) == s2.invoices[0].invoiceNumber
  {
    var s1 := AddInvoice(s, d1, c1);
    var s2 := AddInvoice(s1, d2, c2);
    var s3 := DeleteInvoice(s2, c1.millis);
    NextNumberFormat(s, c1);
    NextNumberFormat(s1, c2);
    DeleteFirstOfTwo(s.invoices, s2.invoices[0], s1.invoices[0], InvoicePrefix(c2));
    NextNumberByCount(s3, s1, c2);
  }

  // -------------------------------------------------------------- movements

  /** `addStockMovement`: puts the record in front of the history and changes nothing else. */
  function AddStockMovement(s: State, m: StockMovement): (r: State)
    ensures |r.movements| == |s.movements| + 1 && r.movements[0] == m && r.movements[1..] == s.movements
    ensures r.products == s.products && r.customers == s.customers && r.invoices == s.invoices
  {
    s.(movements := [m] + s.movements)
  }

  // ------------------------------------------------------------ dispatching

  /** A call a page makes on the store, with its arguments. */
  datatype StoreCall =
    | CallAddProduct(product: ProductDraft)
    | CallUpdateProduct(id: string, productPatch: ProductPatch)
    | CallDeleteProduct(id: string)
    | CallUpdateStock(productId: string, quantity: int, kind: MovementKind, reference: Option<string>)
    | CallAddCustomer(customer: CustomerDraft)
    | CallUpdateCustomer(id: string, customerPatch: CustomerPatch)
    | CallDeleteCustomer(id: string)
    | CallAddInvoice(invoice: InvoiceBody)
    | CallDeleteInvoice(id: string)
    | CallAddStockMovement(movement: StockMovement)

  /** The calls whose action writes the product list. */
  predicate ProductCall(call: StoreCall) {
    call.CallAddProduct? || call.CallUpdateProduct? || call.CallDeleteProduct? ||
    call.CallUpdateStock? || call.CallAddInvoice?
  }

  /** The calls whose action writes the invoice list. */
  predicate InvoiceCall(call: StoreCall) {
    call.CallAddInvoice? || call.CallDeleteInvoice?
  }

  /** One store action; an action leaves alone every list it does not write. */
  function Dispatch(s: State, call: StoreCall, c: Clock): (r: State)
    ensures !ProductCall(call) ==> r.products == s.products
    ensures !InvoiceCall(call) ==> r.invoices == s.invoices
  {
    match call
    case CallAddProduct(d) => AddProduct(s, d, c)
    case CallUpdateProduct(id, patch) => UpdateProduct(s, id, patch, c)
    case CallDeleteProduct(id) => DeleteProduct(s, id)
    case CallUpdateStock(pid, q, kind, ref) => UpdateStock(s, pid, q, kind, ref, c)
    case CallAddCustomer(d) => AddCustomer(s, d, c)
    case CallUpdateCustomer(id, patch) => UpdateCustomer(s, id, patch)
    case CallDeleteCustomer(id) => DeleteCustomer(s, id)
    case CallAddInvoice(d) => AddInvoice(s, d, c)
    case CallDeleteInvoice(id) => DeleteInvoice(s, id)
    case CallAddStockMovement(m) => AddStockMovement(s, m)
  }

  /** Runs calls one after another, each seeing the state the previous one left. */
  function Run(s: State, calls: seq<StoreCall>, c: Clock): (r: State)
    ensures (forall i :: 0 <= i < |calls| ==> !ProductCall(calls[i])) ==> r.products == s.products
    ensures (forall i :: 0 <= i < |calls| ==> !InvoiceCall(calls[i])) ==> r.invoices == s.invoices
    decreases |calls|
  {
    if |calls| == 0 then s
    else
      assert forall i :: 0 <= i < |calls| - 1 ==> calls[1..][i] == calls[i + 1];
      Run(Dispatch(s, calls[0], c), calls[1..], c)
  }

  /** Running a single call is dispatching it. */
  lemma RunOne(s: State, call: StoreCall, c: Clock)
    ensures Run(s, [call], c) == Dispatch(s, call, c)
  {
    assert [call][1..] == [];
  }

  lemma {:induction false} RunAppend(s: State, a: seq<StoreCall>, b: seq<StoreCall>, c: Clock)
    ensures Run(s, a + b, c) == Run(Run(s, a, c), b, c)
    decreases |a|
  {
    if |a| > 0 {
      assert (a + b)[1..] == a[1..] + b;
      RunAppend(Dispatch(s, a[0], c), a[1..], b, c);
    } else {
      assert a + b == b;
    }
  }
}
