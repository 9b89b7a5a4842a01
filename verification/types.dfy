/**
 * The records held by the ledger store (`src/types/index.ts`), restricted to
 * the fields some modelled operation reads or writes. Optional fields of the
 * source are `Option`s; money is an exact `real`; stock and quantities are
 * integers; a running customer total is a JavaScript number (`Num`) because
 * it can become NaN.
 */
module Types {
  import opened Wrappers
  import opened JsNumber

  datatype Product = Product(
    id: string,
    name: string,
    category: string,
    sku: string,
    hsnCode: Option<string>,
    price: real,
    gstRate: int,
    stock: int,
    minStockLevel: Option<int>,
    supplier: Option<string>,
    createdAt: string,
    updatedAt: string)

  /** What `addProduct` receives: a product without its id and timestamps. */
  datatype ProductDraft = ProductDraft(
    name: string,
    category: string,
    sku: string,
    hsnCode: Option<string>,
    price: real,
    gstRate: int,
    stock: int,
    minStockLevel: Option<int>,
    supplier: Option<string>)

  /** `Partial<Product>` as passed to `updateProduct`: absent fields are left alone. */
  datatype ProductPatch = ProductPatch(
    name: Option<string>,
    category: Option<string>,
    sku: Option<string>,
    price: Option<real>,
    gstRate: Option<int>,
    stock: Option<int>,
    supplier: Option<string>)

  /** A patch that sets the stock only. */
  function StockPatch(stock: int): ProductPatch {
    ProductPatch(None, None, None, None, None, Some(stock), None)
  }

  datatype Customer = Customer(
    id: string,
    name: string,
    email: string,
    phone: string,
    address: Option<string>,
    gstin: Option<string>,
    totalPurchases: Num,
    lastPurchaseDate: Option<string>,
    createdAt: string)

  /** What `addCustomer` receives: no id, running total or creation time. */
  datatype CustomerDraft = CustomerDraft(
    name: string,
    email: string,
    phone: string,
    address: string,
    gstin: string)

  /** `Partial<Customer>` as passed to `updateCustomer`. */
  datatype CustomerPatch = CustomerPatch(
    name: Option<string>,
    email: Option<string>,
    phone: Option<string>,
    address: Option<string>,
    gstin: Option<string>,
    totalPurchases: Option<Num>,
    lastPurchaseDate: Option<string>)

  datatype InvoiceStatus = Paid | Pending | Cancelled

  /** One bill line; name, price and rate are snapshots taken when the product was picked. */
  datatype InvoiceItem = InvoiceItem(
    productId: string,
    productName: string,
    quantity: int,
    price: real,
    gstRate: int)

  /**
   * The caller-supplied part of an invoice. The declared type names the grand
   * total `totalAmount`; the billing page writes `total` and `date` instead, so
   * all three are optional and readers see whichever one was written.
   */
  datatype InvoiceBody = InvoiceBody(
    customerId: Option<string>,
    customerName: string,
    items: seq<InvoiceItem>,
    subtotal: real,
    cgst: real,
    sgst: real,
    igst: real,
    totalAmount: Option<real>,
    total: Option<real>,
    date: Option<string>,
    status: InvoiceStatus)

  /** A stored invoice: the body plus what `addInvoice` assigns. */
  datatype Invoice = Invoice(id: string, invoiceNumber: string, createdAt: string, body: InvoiceBody)

  /** The tax an invoice records: `cgst + sgst + igst`. */
  function InvoiceGst(inv: Invoice): real {
    inv.body.cgst + inv.body.sgst + inv.body.igst
  }

  datatype MovementKind = Sale | Purchase | Adjustment

  /**
   * An audit record of a stock change. Movements written by the store carry
   * `balanceAfter` and `createdAt`; those written by the billing page carry a
   * `date` instead (kept here as its day, an integer ordered like the parsed date).
   */
  datatype StockMovement = StockMovement(
    id: string,
    productId: string,
    productName: string,
    kind: MovementKind,
    quantity: int,
    balanceAfter: Option<int>,
    reference: Option<string>,
    createdAt: Option<string>,
    date: Option<int>)

  /** `{ subtotal, cgst, sgst, igst, total }` as returned by both tax computations. */
  datatype Totals = Totals(subtotal: real, cgst: real, sgst: real, igst: real, total: real)

  /**
   * The readings of the wall clock and random source an action makes:
   * `Date.now().toString()`, `new Date().toISOString()`, the calendar year,
   * the zero-based month and the day of the month, and `Math.random()` as text.
   */
  datatype Clock = Clock(millis: string, iso: string, year: nat, month: nat, day: nat, random: string)

  /** Clock readings a real date can produce. */
  predicate ValidClock(c: Clock) {
    c.month < 12 && 1 <= c.day <= 31
  }

  /** The whole ledger: the four collections of the store. */
  datatype State = State(
    products: seq<Product>,
    customers: seq<Customer>,
    invoices: seq<Invoice>,
    movements: seq<StockMovement>)
}
