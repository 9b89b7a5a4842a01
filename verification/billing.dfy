/**
 * The billing page (`src/pages/Billing.tsx`): editing the bill lines, the
 * running totals, and `generateInvoice`, which either rejects the form or
 * produces the store calls it makes, in order.
 */
module Billing {
  import opened Wrappers
  import opened Text
  import opened Seqs
  import opened Types
  import opened DataStore
  import Utils

  // ------------------------------------------------------------ bill lines

  /** The row `addItem` appends: no product yet, quantity 1, price 0, 18% GST. */
  const BlankLine := InvoiceItem("", "", 1, 0.0, 18)

  /** `addItem`: one blank row after the existing ones. */
  function AddItem(items: seq<InvoiceItem>): (r: seq<InvoiceItem>)
    ensures |r| == |items| + 1 && r[..|items|] == items
    ensures var n := r[|items|];
      n.productId == "" && n.productName == "" && n.quantity == 1 && n.price == 0.0 && n.gstRate == 18
  {
    items + [BlankLine]
  }

  /** `removeItem`: drops the row at the index and shifts the later ones up; any other index changes nothing. */
  function RemoveItem(items: seq<InvoiceItem>, index: int): (r: seq<InvoiceItem>)
    ensures 0 <= index < |items| ==>
      && |r| == |items| - 1
      && (forall i :: 0 <= i < index ==> r[i] == items[i])
      && (forall i :: index <= i < |r| ==> r[i] == items[i + 1])
    ensures !(0 <= index < |items|) ==> r == items
  {
    if 0 <= index < |items| then items[..index] + items[index + 1..] else items
  }

  /** Removing the row just added restores the bill. */
  lemma RemoveUndoesAdd(items: seq<InvoiceItem>)
    ensures RemoveItem(AddItem(items), |items|) == items
  {
  }

  /** The two edits the page makes: picking a product and typing a quantity. */
  datatype ItemEdit = SetProduct(productId: string) | SetQuantity(quantity: int)

  /**
   * `updateItem`: changes only the edited row. Picking a product copies its
   * name, price and GST rate into the row when the product exists; an unknown
   * id is stored without touching the copied fields.
   */
  function UpdateItem(items: seq<InvoiceItem>, products: seq<Product>, index: nat, edit: ItemEdit): (r: seq<InvoiceItem>)
    requires index < |items|
    ensures |r| == |items|
    ensures forall i :: 0 <= i < |items| && i != index ==> r[i] == items[i]
    ensures edit.SetQuantity? ==> r[index] == items[index].(quantity := edit.quantity)
    ensures edit.SetProduct? && FindProduct(products, edit.productId).Some? ==>
      var p := FindProduct(products, edit.productId).value;
      r[index] == InvoiceItem(edit.productId, p.name, items[index].quantity, p.price, p.gstRate)
    ensures edit.SetProduct? && FindProduct(products, edit.productId).None? ==>
      r[index] == items[index].(productId := edit.productId)
  {
    var line := items[index];
    var edited :=
      match edit
      case SetQuantity(q) => line.(quantity := q)
      case SetProduct(id) =>
        match FindProduct(products, id)
        case Some(p) => line.(productId := id, productName := p.name, price := p.price, gstRate := p.gstRate)
        case None => line.(productId := id);
    items[index := edited]
  }

  /** Picking a product makes the row's price and rate those of the first product with that id. */
  lemma PickedLineMatchesCatalogue(items: seq<InvoiceItem>, products: seq<Product>, index: nat, k: nat)
    requires index < |items| && k < |products|
    requires forall j :: 0 <= j < k ==> products[j].id != products[k].id
    ensures var r := UpdateItem(items, products, index, SetProduct(products[k].id));
      r[index].price == products[k].price && r[index].gstRate == products[k].gstRate
      && r[index].productName == products[k].name
  {
    var f := ProductIdIs(products[k].id);
    assert f(products[k]);
    var found := FindProduct(products, products[k].id);
    var i :| 0 <= i < |products| && products[i] == found.value && f(products[i]) &&
      forall j :: 0 <= j < i ==> !f(products[j]);
    assert i == k;
  }

  /** The quantity field's `parseInt(text) || 1`: unparsable text and 0 both become 1. */
  function QuantityInput(parsed: Option<int>): (q: int)
    ensures q != 0
    ensures parsed.Some? && parsed.value != 0 ==> q == parsed.value
    ensures parsed.None? || parsed.value == 0 ==> q == 1
  {
    if parsed.Some? && parsed.value != 0 then parsed.value else 1
  }

  /** The quantity field never changes a quantity it already shows. */
  lemma QuantityInputIdempotent(parsed: Option<int>)
    ensures QuantityInput(Some(QuantityInput(parsed))) == QuantityInput(parsed)
  {
  }

  // ---------------------------------------------------------------- totals

  /** `price * quantity` of one row. */
  function LineAmount(it: InvoiceItem): real {
    it.price * (it.quantity as real)
  }

  /** The row's GST: its amount times its rate, in percent. */
  function LineGst(it: InvoiceItem): real {
    LineAmount(it) * (it.gstRate as real) / 100.0
  }

  /**
   * The `forEach` of `calculateTotals` that accumulates `(cgst, sgst, igst)`:
   * inter-state bills put every row's GST into IGST, others halve it into
   * CGST and SGST.
   */
  function TaxSplit(items: seq<InvoiceItem>, isInterState: bool): (r: (real, real, real))
    ensures isInterState ==> r.0 == 0.0 && r.1 == 0.0 && r.2 == SumOf(items, LineGst)
    ensures !isInterState ==> r.0 == r.1 && r.0 + r.1 == SumOf(items, LineGst) && r.2 == 0.0
    decreases |items|
  {
    if |items| == 0 then (0.0, 0.0, 0.0)
    else
      var prev := TaxSplit(items[..|items| - 1], isInterState);
      var g := LineGst(items[|items| - 1]);
      if isInterState then (prev.0, prev.1, prev.2 + g)
      else (prev.0 + g / 2.0, prev.1 + g / 2.0, prev.2)
  }

  /** `calculateTotals`: the bill's subtotal, its tax split by the state choice, and the grand total. */
  function CalculateTotals(items: seq<InvoiceItem>, isInterState: bool): (r: Totals)
    ensures r.subtotal == SumOf(items, LineAmount)
    ensures r.cgst + r.sgst + r.igst == SumOf(items, LineGst)
    ensures r.total == r.subtotal + r.cgst + r.sgst + r.igst
    ensures isInterState ==> r.cgst == 0.0 && r.sgst == 0.0
    ensures !isInterState ==> r.cgst == r.sgst && r.igst == 0.0
  {
    var subtotal := SumOf(items, LineAmount);
    var (cgst, sgst, igst) := TaxSplit(items, isInterState);
    Totals(subtotal, cgst, sgst, igst, subtotal + cgst + sgst + igst)
  }

  /** The state choice moves tax between columns but never changes the grand total. */
  lemma TotalIgnoresStateChoice(items: seq<InvoiceItem>)
    ensures CalculateTotals(items, true).total == CalculateTotals(items, false).total
    ensures CalculateTotals(items, true).igst == 2.0 * CalculateTotals(items, false).cgst
  {
  }

  /** A one-row bill gets the same figures as the shared `calculateGST` helper. */
  lemma OneLineMatchesCalculateGst(it: InvoiceItem, isInterState: bool)
    ensures CalculateTotals([it], isInterState) ==
      Utils.CalculateGst(it.price, it.quantity as real, it.gstRate as real, !isInterState)
  {
    assert [it][..0] == [];
    assert SumOf([it], LineAmount) == LineAmount(it);
    assert SumOf([it], LineGst) == LineGst(it);
  }

  /** Bill totals add up row by row. */
  lemma TotalsAppend(a: seq<InvoiceItem>, b: seq<InvoiceItem>, isInterState: bool)
    ensures CalculateTotals(a + b, isInterState).total ==
      CalculateTotals(a, isInterState).total + CalculateTotals(b, isInterState).total
  {
    SumOfAppend(a, b, LineAmount);
    SumOfAppend(a, b, LineGst);
  }

  // -------------------------------------------------------- dates and numbers

  /** `s.replace(/-/g, '')`. */
  function WithoutDashes(s: string): (r: string)
    ensures forall i :: 0 <= i < |r| ==> r[i] != '-'
    ensures forall i :: 0 <= i < |s| && s[i] != '-' ==> s[i] in r
  {
    Keep(s, NotDash)
  }

  predicate NotDash(ch: char) {
    ch != '-'
  }

  /** Digit text has no dash to remove. */
  lemma WithoutDashesKeepsDigits(s: string)
    requires AllDigits(s)
    ensures WithoutDashes(s) == s
  {
    KeepAll(s, NotDash);
  }

  /** `s.split(sep)[0]`: the text before the first separator, or all of it. */
  function BeforeFirst(s: string, sep: char): (r: string)
    ensures |r| <= |s| && r == s[..|r|]
    ensures forall i :: 0 <= i < |r| ==> r[i] != sep
    ensures |r| < |s| ==> s[|r|] == sep
    decreases |s|
  {
    if |s| == 0 || s[0] == sep then [] else [s[0]] + BeforeFirst(s[1..], sep)
  }

  /** The date part of an ISO timestamp, as `toISOString().split('T')[0]` takes it. */
  function IsoDate(c: Clock): string {
    BeforeFirst(c.iso, 'T')
  }

  /** An ISO timestamp of the form `YYYY-MM-DDT...`. */
  predicate IsoShaped(iso: string) {
    |iso| >= 11 && iso[4] == '-' && iso[7] == '-' && iso[10] == 'T'
    && (forall i :: 0 <= i < 4 ==> IsDigit(iso[i]))
    && IsDigit(iso[5]) && IsDigit(iso[6]) && IsDigit(iso[8]) && IsDigit(iso[9])
  }

  lemma IsoDateOfShapedTimestamp(c: Clock)
    requires IsoShaped(c.iso)
    ensures IsoDate(c) == c.iso[..10]
  {
  }

  /**
   * The number the billing page shows and writes into its stock movements:
   * "INV", the ISO date's `YYMMDD`, and one more than the number of stored
   * invoices, padded to three digits.
   */
  function BillingNumber(invoiceCount: nat, c: Clock): (r: string)
    ensures StartsWith(r, "INV")
    ensures forall i :: 3 <= i < |r| ==> r[i] != '-'
    ensures invoiceCount + 1 < 1000 ==>
      |r| >= 6 && AllDigits(r[|r| - 3..]) && DigitsValue(r[|r| - 3..]) == invoiceCount + 1
  {
    var date := WithoutDashes(Slice(c.iso, 2, 10));
    var seqNo := PadStart(NatToString(invoiceCount + 1), 3, '0');
    PaddedRoundTrip(invoiceCount + 1, 3);
    PaddedThree(invoiceCount + 1);
    NumberParts(date, seqNo, invoiceCount + 1);
    "INV" + date + seqNo
  }

  /** "INV", a dash-free date and a digit suffix: the shape `BillingNumber` promises. */
  lemma NumberParts(date: string, tail: string, n: nat)
    requires forall i :: 0 <= i < |date| ==> date[i] != '-'
    requires AllDigits(tail) && DigitsValue(tail) == n
    requires n < 1000 ==> |tail| == 3
    ensures var r := "INV" + date + tail;
      && StartsWith(r, "INV")
      && (forall i :: 3 <= i < |r| ==> r[i] != '-')
      && (n < 1000 ==> |r| >= 6 && AllDigits(r[|r| - 3..]) && DigitsValue(r[|r| - 3..]) == n)
  {
    var r := "INV" + date + tail;
    assert r[..3] == "INV";
    assert r[|r| - |tail|..] == tail;
    NoDashAfterPrefix("INV", date, tail);
  }

  lemma NoDashAfterPrefix(p: string, a: string, b: string)
    requires forall i :: 0 <= i < |a| ==> a[i] != '-'
    requires AllDigits(b)
    ensures var r := p + a + b; forall i :: |p| <= i < |r| ==> r[i] != '-'
  {
    var r := p + a + b;
    forall i | |p| <= i < |r|
      ensures r[i] != '-'
    {
      if i < |p| + |a| {
        assert r[i] == a[i - |p|];
      } else {
        assert r[i] == b[i - |p| - |a|];
      }
    }
  }

  lemma IsoDateParts(iso: string)
    requires IsoShaped(iso)
    ensures Slice(iso, 2, 10) == iso[2..4] + ['-'] + iso[5..7] + ['-'] + iso[8..10]
    ensures AllDigits(iso[2..4]) && AllDigits(iso[5..7]) && AllDigits(iso[8..10])
  {
    assert iso[2..4] == [iso[2], iso[3]];
    assert iso[5..7] == [iso[5], iso[6]];
    assert iso[8..10] == [iso[8], iso[9]];
  }

  /** Removing the dashes of `YY-MM-DD` leaves `YYMMDD`. */
  lemma CompactIsoDate(iso: string)
    requires IsoShaped(iso)
    ensures WithoutDashes(Slice(iso, 2, 10)) == iso[2..4] + iso[5..7] + iso[8..10]
  {
    var yy, mm, dd := iso[2..4], iso[5..7], iso[8..10];
    IsoDateParts(iso);
    KeepAppend(yy + ['-'] + mm + ['-'], dd, NotDash);
    KeepAppend(yy + ['-'] + mm, ['-'], NotDash);
    KeepAppend(yy + ['-'], mm, NotDash);
    KeepAppend(yy, ['-'], NotDash);
    WithoutDashesKeepsDigits(yy);
    WithoutDashesKeepsDigits(mm);
    WithoutDashesKeepsDigits(dd);
    assert Keep(['-'], NotDash) == [];
  }

  lemma MiddleOf(a: string, b: string, d: string)
    ensures (a + b + d)[|a|..|a| + |b|] == b
  {
  }

  /** For a timestamp of the usual shape the date digits are `YYMMDD`. */
  lemma BillingNumberDate(invoiceCount: nat, c: Clock)
    requires IsoShaped(c.iso)
    ensures var r := BillingNumber(invoiceCount, c);
      |r| >= 9 && r[3..9] == c.iso[2..4] + c.iso[5..7] + c.iso[8..10]
  {
    CompactIsoDate(c.iso);
    MiddleOf("INV", WithoutDashes(Slice(c.iso, 2, 10)), PadStart(NatToString(invoiceCount + 1), 3, '0'));
  }

  /**
   * The day of a clock reading as `new Date('YYYY-MM-DD')` orders it: an
   * integer that grows with the calendar date.
   */
  function DayKey(c: Clock): int {
    c.year * 10000 + (c.month + 1) * 100 + c.day
  }

  /** Day keys order valid dates as the calendar does. */
  lemma DayKeyOrder(a: Clock, b: Clock)
    requires ValidClock(a) && ValidClock(b)
    ensures DayKey(a) < DayKey(b) <==>
      a.year < b.year || (a.year == b.year && (a.month < b.month || (a.month == b.month && a.day < b.day)))
    ensures DayKey(a) == DayKey(b) <==> a.year == b.year && a.month == b.month && a.day == b.day
  {
  }

  // ------------------------------------------------------- generateInvoice

  /** What the billing form holds when the button is pressed. */
  datatype BillingForm = BillingForm(selectedCustomer: string, items: seq<InvoiceItem>, isInterState: bool)

  /** Why `generateInvoice` stops with an error toast. */
  datatype Rejection = NoCustomer | NoValidItems | InsufficientStock(productName: string, available: int)

  /** A row whose product exists and has fewer units than the row asks for. */
  function ShortOfStock(products: seq<Product>): InvoiceItem -> bool {
    (it: InvoiceItem) => FindProduct(products, it.productId).Some? &&
                         FindProduct(products, it.productId).value.stock < it.quantity
  }

  predicate HasBlankProduct(items: seq<InvoiceItem>) {
    exists i :: 0 <= i < |items| && items[i].productId == ""
  }

  /** `customer?.name || ''`. */
  function CustomerName(customers: seq<Customer>, id: string): (r: string)
    ensures (forall i :: 0 <= i < |customers| ==> customers[i].id != id) ==> r == ""
    ensures forall i :: FirstCustomerAt(customers, id, i) ==> r == customers[i].name
  {
    FindCustomerFirst(customers, id);
    match FindCustomer(customers, id)
    case Some(cu) => cu.name
    case None => ""
  }

  /**
   * The invoice the page builds. It sets `total` and `date`, not the declared
   * `totalAmount`; its own `id` is not part of the body because the store
   * replaces it.
   */
  function BuiltInvoice(form: BillingForm, s: State, c: Clock): (b: InvoiceBody)
    ensures b.totalAmount.None? && b.status == Paid && b.items == form.items
    ensures b.customerId == Some(form.selectedCustomer)
    ensures b.total == Some(CalculateTotals(form.items, form.isInterState).total)
    ensures b.subtotal + b.cgst + b.sgst + b.igst == b.total.value
    ensures b.date == Some(IsoDate(c))
  {
    var t := CalculateTotals(form.items, form.isInterState);
    InvoiceBody(Some(form.selectedCustomer), CustomerName(s.customers, form.selectedCustomer), form.items,
                t.subtotal, t.cgst, t.sgst, t.igst, None, Some(t.total), Some(IsoDate(c)), Paid)
  }

  /** The movement the page adds for a sold row: no balance, a `date` instead of `createdAt`. */
  function PageMovement(it: InvoiceItem, number: string, c: Clock): (m: StockMovement)
    ensures m.kind == Sale && m.productId == it.productId && m.quantity == it.quantity
    ensures m.reference == Some(number) && m.balanceAfter.None?
  {
    StockMovement(c.millis + c.random, it.productId, it.productName, Sale, it.quantity, None,
                  Some(number), None, Some(DayKey(c)))
  }

  /**
   * The calls for one row after `addInvoice`: if the row's product is in the
   * snapshot the page rendered with, set its stock to that snapshot's stock
   * minus the row's quantity, then add a sale movement.
   */
  function LineCalls(it: InvoiceItem, snapshot: seq<Product>, number: string, c: Clock): (r: seq<StoreCall>)
    ensures !HasProduct(snapshot, it.productId) ==> r == []
    ensures forall i :: FirstProductAt(snapshot, it.productId, i) ==>
      r == [CallUpdateProduct(it.productId, StockPatch(snapshot[i].stock - it.quantity)),
            CallAddStockMovement(PageMovement(it, number, c))]
  {
    FindProductFirst(snapshot, it.productId);
    KnownIffFound(snapshot, it.productId);
    var found := FindProduct(snapshot, it.productId);
    if found.None? then []
    else [CallUpdateProduct(it.productId, StockPatch(found.value.stock - it.quantity)),
          CallAddStockMovement(PageMovement(it, number, c))]
  }

  /** The page's own `forEach` over the rows, in row order. */
  function SnapshotCalls(items: seq<InvoiceItem>, snapshot: seq<Product>, number: string, c: Clock): (r: seq<StoreCall>)
    ensures |r| == 2 * Count(items, KnownProductLine(snapshot))
    decreases |items|
  {
    if |items| == 0 then []
    else
      var last := items[|items| - 1];
      var init := items[..|items| - 1];
      CountAppend(init, [last], KnownProductLine(snapshot));
      assert items == init + [last];
      assert [last][1..] == [];
      KnownIffFound(snapshot, last.productId);
      SnapshotCalls(init, snapshot, number, c) + LineCalls(last, snapshot, number, c)
  }

  /**
   * The calls of an accepted bill: `addInvoice`, then for each row of a known
   * product an overwrite and a movement.
   */
  function BillingCalls(form: BillingForm, s: State, c: Clock): (r: seq<StoreCall>)
    ensures |r| == 1 + 2 * Count(form.items, KnownProductLine(s.products))
    ensures r[0] == CallAddInvoice(BuiltInvoice(form, s, c))
  {
    [CallAddInvoice(BuiltInvoice(form, s, c))] +
      SnapshotCalls(form.items, s.products, BillingNumber(|s.invoices|, c), c)
  }

  /** The first row whose product exists and is short of stock. */
  function FirstShortLine(items: seq<InvoiceItem>, products: seq<Product>): Option<InvoiceItem> {
    Find(items, ShortOfStock(products))
  }

  /**
   * `generateInvoice`: the three validations in order (a customer chosen;
   * at least one row and every row with a product; no row asking for more
   * than its product's stock, each row checked on its own and rows without a
   * product in the catalogue let through), then `addInvoice` followed by the
   * page's own per-row stock overwrite and movement.
   */
  function GenerateInvoice(form: BillingForm, s: State, c: Clock): (r: Result<seq<StoreCall>, Rejection>)
    ensures r == Failure(NoCustomer) <==> form.selectedCustomer == ""
    ensures r == Failure(NoValidItems) <==>
      form.selectedCustomer != "" && (|form.items| == 0 || HasBlankProduct(form.items))
    ensures (r.Failure? && r.error.InsufficientStock?) <==>
      && form.selectedCustomer != "" && |form.items| > 0 && !HasBlankProduct(form.items)
      && exists i :: 0 <= i < |form.items| && ShortOfStock(s.products)(form.items[i])
    ensures r.Success? ==> r.value == BillingCalls(form, s, c)
  {
    if form.selectedCustomer == "" then Failure(NoCustomer)
    else if |form.items| == 0 || HasBlankProduct(form.items) then Failure(NoValidItems)
    else
      match FirstShortLine(form.items, s.products)
      case Some(it) =>
        var p := FindProduct(s.products, it.productId).value;
        Failure(InsufficientStock(p.name, p.stock))
      case None => Success(BillingCalls(form, s, c))
  }

  /** A stock rejection names the first short row's product and its stock. */
  lemma InsufficientStockNamesFirstShortRow(form: BillingForm, s: State, c: Clock)
    requires GenerateInvoice(form, s, c).Failure? && GenerateInvoice(form, s, c).error.InsufficientStock?
    ensures exists i :: (
      && 0 <= i < |form.items| && ShortOfStock(s.products)(form.items[i])
      && (forall j :: 0 <= j < i ==> !ShortOfStock(s.products)(form.items[j]))
      && GenerateInvoice(form, s, c).error ==
           InsufficientStock(FindProduct(s.products, form.items[i].productId).value.name,
                             FindProduct(s.products, form.items[i].productId).value.stock))
  {
    var it := FirstShortLine(form.items, s.products).value;
    var p := FindProduct(s.products, it.productId).value;
    assert GenerateInvoice(form, s, c).error == InsufficientStock(p.name, p.stock);
    var i :| 0 <= i < |form.items| && form.items[i] == it && ShortOfStock(s.products)(form.items[i]) &&
      forall j :: 0 <= j < i ==> !ShortOfStock(s.products)(form.items[j]);
  }

  /**
   * Rows are checked one at a time: two rows of the same product that each
   * fit its stock pass, even when together they exceed it.
   */
  lemma RowsCheckedSeparately(form: BillingForm, s: State, c: Clock, p: Product, q1: int, q2: int)
    requires form.selectedCustomer != "" && s.products == [p] && p.id != ""
    requires form.items == [InvoiceItem(p.id, p.name, q1, p.price, p.gstRate),
                            InvoiceItem(p.id, p.name, q2, p.price, p.gstRate)]
    requires q1 <= p.stock && q2 <= p.stock && q1 + q2 > p.stock
    ensures GenerateInvoice(form, s, c).Success?
  {
    assert FindProduct(s.products, p.id) == Some(p);
    assert !ShortOfStock(s.products)(form.items[0]) && !ShortOfStock(s.products)(form.items[1]);
  }

  /** A row whose product is not in the catalogue passes the stock check whatever its quantity. */
  lemma UnknownProductPassesStockCheck(products: seq<Product>, it: InvoiceItem)
    requires !HasProduct(products, it.productId)
    ensures !ShortOfStock(products)(it)
  {
    assert FindProduct(products, it.productId).None?;
  }
}
