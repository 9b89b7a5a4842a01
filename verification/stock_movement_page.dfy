/**
 * The stock movement page (`src/pages/StockMovement.tsx`): the search and
 * type filter, the newest-first order, the per-kind totals, and two readings
 * per row: the sign shown before the quantity and the product's current stock.
 */
module StockMovementPage {
  import opened Wrappers
  import opened Text
  import opened Seqs
  import opened Sorting
  import opened Types
  import DataStore

  // ------------------------------------------------------------------ filter

  /** The type select: `'all'` or one kind. */
  datatype KindFilter = AllKinds | OnlyKind(kind: MovementKind)

  /**
   * `productName.toLowerCase().includes(q) || reference.toLowerCase().includes(q)`;
   * `None` where the name does not match and the reference is missing, since
   * `toLowerCase` of undefined throws.
   */
  function MatchesSearch(m: StockMovement, search: string): Option<bool> {
    var q := Lower(search);
    if Contains(Lower(m.productName), q) then Some(true)
    else if m.reference.None? then None
    else Some(Contains(Lower(m.reference.value), q))
  }

  function Shown(search: string, kf: KindFilter): StockMovement -> bool {
    (m: StockMovement) => MatchesSearch(m, search) == Some(true) && (kf.AllKinds? || m.kind == kf.kind)
  }

  /**
   * The comparator `new Date(b.date) - new Date(a.date) <= 0`: newer days
   * first. A row without a `date` compares as NaN; it is placed after every dated row.
   */
  function NewestFirst(a: StockMovement, b: StockMovement): bool {
    b.date.None? || (a.date.Some? && b.date.value <= a.date.value)
  }

  lemma NewestFirstOrder()
    ensures TotalPreorder(NewestFirst)
  {
  }

  /** `filteredMovements`: fails when any row throws, otherwise the matching rows, newest first. */
  function FilteredMovements(ms: seq<StockMovement>, search: string, kf: KindFilter): (r: Option<seq<StockMovement>>)
    ensures r.None? <==> exists i :: 0 <= i < |ms| && MatchesSearch(ms[i], search).None?
  {
    if exists i :: 0 <= i < |ms| && MatchesSearch(ms[i], search).None? then None
    else Some(Sort(Keep(ms, Shown(search, kf)), NewestFirst))
  }

  /** What a row must satisfy to be listed, stated on its fields. */
  predicate Listed(m: StockMovement, search: string, kf: KindFilter) {
    && (Contains(Lower(m.productName), Lower(search)) ||
        (m.reference.Some? && Contains(Lower(m.reference.value), Lower(search))))
    && (kf.AllKinds? || m.kind == kf.kind)
  }

  /**
   * When nothing throws, the page lists exactly the rows whose name or
   * reference contains the search, case-insensitively, and whose kind passes
   * the select, each as often as it occurs, and dated rows newest first.
   */
  lemma FilteredMovementsCorrect(ms: seq<StockMovement>, search: string, kf: KindFilter)
    requires FilteredMovements(ms, search, kf).Some?
    ensures var r := FilteredMovements(ms, search, kf).value;
      && multiset(r) == multiset(Keep(ms, Shown(search, kf)))
      && (forall i :: 0 <= i < |r| ==> r[i] in ms && Listed(r[i], search, kf))
      && (forall i :: 0 <= i < |ms| && Listed(ms[i], search, kf) ==> ms[i] in r)
      && (forall i, j :: 0 <= i < j < |r| && r[j].date.Some? ==>
            r[i].date.Some? && r[j].date.value <= r[i].date.value)
  {
    var kept := Keep(ms, Shown(search, kf));
    var r := FilteredMovements(ms, search, kf).value;
    NewestFirstOrder();
    SortSorted(kept, NewestFirst);
    forall i | 0 <= i < |r|
      ensures r[i] in ms && Listed(r[i], search, kf)
    {
      assert r[i] in multiset(kept);
    }
    forall i | 0 <= i < |ms| && Listed(ms[i], search, kf)
      ensures ms[i] in r
    {
      assert Shown(search, kf)(ms[i]);
      assert ms[i] in multiset(kept);
    }
    forall i, j | 0 <= i < j < |r| && r[j].date.Some?
      ensures r[i].date.Some? && r[j].date.value <= r[i].date.value
    {
      assert NewestFirst(r[i], r[j]);
    }
  }

  /** An empty search with every kind never throws and lists every row. */
  lemma EmptySearchListsAll(ms: seq<StockMovement>)
    ensures FilteredMovements(ms, "", AllKinds).Some?
    ensures multiset(FilteredMovements(ms, "", AllKinds).value) == multiset(ms)
  {
    forall i | 0 <= i < |ms|
      ensures MatchesSearch(ms[i], "") == Some(true)
    {
      assert Lower("") == "";
      ContainsEmpty(Lower(ms[i].productName));
    }
    KeepAll(ms, Shown("", AllKinds));
  }

  // ------------------------------------------------------------------ stats

  function KindIs(kind: MovementKind): StockMovement -> bool {
    (m: StockMovement) => m.kind == kind
  }

  function Quantity(m: StockMovement): int {
    m.quantity
  }

  function AbsQuantity(m: StockMovement): int {
    if m.quantity < 0 then -m.quantity else m.quantity
  }

  datatype MovementStats = MovementStats(totalPurchases: int, totalSales: int, totalAdjustments: int)

  /** `stats`: purchases and sales sum their quantities, adjustments sum absolute quantities. */
  function Stats(ms: seq<StockMovement>): (r: MovementStats)
    ensures r.totalAdjustments >= 0
  {
    var adjustments := Keep(ms, KindIs(Adjustment));
    SumOfIntNonNegative(adjustments, AbsQuantity);
    MovementStats(SumOfInt(Keep(ms, KindIs(Purchase)), Quantity),
                  SumOfInt(Keep(ms, KindIs(Sale)), Quantity),
                  SumOfInt(adjustments, AbsQuantity))
  }

  /**
   * Each total is the sum over all rows of the row's quantity (absolute for
   * adjustments) where the kind matches and 0 elsewhere.
   */
  lemma StatsByKind(ms: seq<StockMovement>)
    ensures Stats(ms).totalPurchases == SumOfInt(ms, Masked(KindIs(Purchase), Quantity))
    ensures Stats(ms).totalSales == SumOfInt(ms, Masked(KindIs(Sale), Quantity))
    ensures Stats(ms).totalAdjustments == SumOfInt(ms, Masked(KindIs(Adjustment), AbsQuantity))
  {
    SumOfIntKeep(ms, KindIs(Purchase), Quantity);
    SumOfIntKeep(ms, KindIs(Sale), Quantity);
    SumOfIntKeep(ms, KindIs(Adjustment), AbsQuantity);
  }

  // ------------------------------------------------------------- row readings

  /** The sign before the quantity: `+` for a purchase, `-` for a sale, `±` otherwise. */
  function Sign(kind: MovementKind): (r: string)
    ensures |r| == 1
    ensures r == "+" <==> kind == Purchase
    ensures r == "-" <==> kind == Sale
    ensures r == "±" <==> kind == Adjustment
  {
    match kind
    case Purchase => "+"
    case Sale => "-"
    case Adjustment => "±"
  }

  /**
   * The sign tells how the store's `updateStock` moved the stock for a
   * non-zero quantity: `-` exactly when it went down by the quantity, `+` only
   * when it went up by it; `±` rows also went up.
   */
  lemma SignMatchesStockEffect(kind: MovementKind, stock: int, quantity: int)
    requires quantity != 0
    ensures Sign(kind) == "-" <==> DataStore.StockAfter(stock, kind, quantity) == stock - quantity
    ensures Sign(kind) == "+" ==> DataStore.StockAfter(stock, kind, quantity) == stock + quantity
    ensures Sign(kind) == "±" ==> DataStore.StockAfter(stock, kind, quantity) == stock + quantity
  {
  }

  /** `product?.stock || 0`: the stock of the row's product now, 0 when it is gone. */
  function CurrentStock(products: seq<Product>, m: StockMovement): (r: int)
    ensures !DataStore.HasProduct(products, m.productId) ==> r == 0
    ensures DataStore.HasProduct(products, m.productId) ==>
      exists i :: 0 <= i < |products| && products[i].id == m.productId && r == products[i].stock
        && forall j :: 0 <= j < i ==> products[j].id != m.productId
  {
    DataStore.KnownIffFound(products, m.productId);
    match DataStore.FindProduct(products, m.productId)
    case None => 0
    case Some(p) => p.stock
  }

  /** Once the store has deleted a product, its rows show a current stock of 0. */
  lemma CurrentStockAfterDelete(s: State, m: StockMovement)
    ensures CurrentStock(DataStore.DeleteProduct(s, m.productId).products, m) == 0
  {
  }

  /**
   * Right after `updateStock` on a known product (ids unique), the newest
   * row's current stock is the balance that row recorded.
   */
  lemma CurrentStockShowsBalance(s: State, productId: string, quantity: int, kind: MovementKind,
                                 reference: Option<string>, c: Clock)
    requires DataStore.UniqueProductIds(s.products)
    requires DataStore.HasProduct(s.products, productId)
    ensures var r := DataStore.UpdateStock(s, productId, quantity, kind, reference, c);
      && r.movements[0].balanceAfter.Some?
      && CurrentStock(r.products, r.movements[0]) == r.movements[0].balanceAfter.value
  {
    var r := DataStore.UpdateStock(s, productId, quantity, kind, reference, c);
    DataStore.KnownIffFound(s.products, productId);
    var k :| 0 <= k < |s.products| && s.products[k].id == productId;
    FindUnique(s.products, DataStore.ProductIdIs(productId), k);
    forall i | 0 <= i < |r.products| && DataStore.ProductIdIs(productId)(r.products[i])
      ensures i == k
    {
      assert r.products[i].id == s.products[i].id;
    }
    FindUnique(r.products, DataStore.ProductIdIs(productId), k);
  }
}
