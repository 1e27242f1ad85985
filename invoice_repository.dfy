/** Invoices and their reports (repositories/invoice_repository.go): line
    and invoice totals, invoice creation, and three reports over the
    invoices created in a closed time range: a summary, sales per product
    and sales per day or month. Money is exact (real); instants are Unix
    seconds and period keys are taken in UTC. */
module InvoiceRepository {
  import opened Common
  import opened Chrono
  import opened Ordering
  import opened Sums

  datatype Item = Item(productId: string, quantity: int, unitPrice: real, productName: string, totalPrice: real)

  datatype Invoice = Invoice(id: string, createdAt: int, items: seq<Item>, totalAmount: real)

  datatype Summary = Summary(totalInvoices: int, totalAmount: real, totalProductUnits: int)

  datatype ProductSales = ProductSales(productId: string, productName: string, totalSold: int, revenue: real)

  datatype PeriodSales = PeriodSales(period: string, revenue: real, quantity: int)

  // ---- amounts ----

  function LineTotal(it: Item): real {
    it.quantity as real * it.unitPrice
  }

  function Quantity(it: Item): int { it.quantity }

  function Price(it: Item): real { it.totalPrice }

  function ProductIdOf(it: Item): string { it.productId }

  function Amount(inv: Invoice): real { inv.totalAmount }

  /** The units an invoice sells: the sum of its items' quantities. */
  function Units(inv: Invoice): int { SumInt(inv.items, Quantity) }

  /** An invoice whose stored totals agree with its lines: each line total is
      quantity times unit price and the invoice total is their sum. */
  predicate Totalled(inv: Invoice) {
    && (forall i :: 0 <= i < |inv.items| ==> inv.items[i].totalPrice == LineTotal(inv.items[i]))
    && inv.totalAmount == SumReal(inv.items, Price)
  }

  /** calculateInvoiceTotals: overwrite every line total with quantity times
      unit price, in place, and return the running sum of the line totals. */
  method CalculateTotals(items: array<Item>) returns (total: real)
    modifies items
    ensures forall i :: 0 <= i < items.Length ==> items[i] == old(items[i]).(totalPrice := LineTotal(old(items[i])))
    ensures total == SumReal(items[..], Price)
  {
    total := 0.0;
    var i := 0;
    while i < items.Length
      invariant 0 <= i <= items.Length
      invariant forall j :: 0 <= j < i ==> items[j] == old(items[j]).(totalPrice := LineTotal(old(items[j])))
      invariant forall j :: i <= j < items.Length ==> items[j] == old(items[j])
      invariant total == SumReal(items[..i], Price)
    {
      assert items[..i + 1][..i] == items[..i];
      items[i] := items[i].(totalPrice := LineTotal(items[i]));
      assert items[..i + 1][..i] == items[..i];
      total := total + items[i].totalPrice;
      i := i + 1;
    }
    assert items[..] == items[..items.Length];
  }

  /** The invoice with every total recomputed from its lines. */
  function WithTotals(inv: Invoice): (r: Invoice)
    ensures Totalled(r)
    ensures r.id == inv.id && r.createdAt == inv.createdAt && |r.items| == |inv.items|
    ensures forall i :: 0 <= i < |r.items| ==> r.items[i] == inv.items[i].(totalPrice := LineTotal(inv.items[i]))
  {
    var items := seq(|inv.items|, i requires 0 <= i < |inv.items| => inv.items[i].(totalPrice := LineTotal(inv.items[i])));
    inv.(items := items, totalAmount := SumReal(items, Price))
  }

  /** Recomputing totals a second time changes nothing. */
  lemma WithTotalsIdempotent(inv: Invoice)
    ensures WithTotals(WithTotals(inv)) == WithTotals(inv)
  {
    var once := WithTotals(inv);
    assert WithTotals(once).items == once.items;
  }

  /** The decimal form of a number of nanoseconds, the generated invoice id. */
  function Decimal(n: nat): (s: string)
    ensures s != [] && forall i :: 0 <= i < |s| ==> IsDecimalDigit(s[i])
  {
    PadNat(n, 1)
  }

  // ---- the reports' filter ----

  /** created_at between from and to, both ends included. */
  predicate InRange(inv: Invoice, from: int, to: int) {
    from <= inv.createdAt <= to
  }

  /** The invoices a report reads, in natural order. */
  function Dated(invs: seq<Invoice>, from: int, to: int): (r: seq<Invoice>)
    ensures forall i :: 0 <= i < |r| ==> r[i] in invs && InRange(r[i], from, to)
    ensures forall i :: 0 <= i < |invs| && InRange(invs[i], from, to) ==> invs[i] in r
  {
    Select(invs, InRangeOf(from, to))
  }

  function InRangeOf(from: int, to: int): Invoice -> bool {
    (inv: Invoice) => InRange(inv, from, to)
  }

  /** The items of the invoices, invoice by invoice. */
  function AllItems(invs: seq<Invoice>): seq<Item> {
    if invs == [] then [] else AllItems(invs[..|invs| - 1]) + invs[|invs| - 1].items
  }

  /** The units of the invoices, counted item by item or invoice by invoice, agree. */
  lemma {:induction false} AllItemsUnits(invs: seq<Invoice>)
    ensures SumInt(AllItems(invs), Quantity) == SumInt(invs, Units)
  {
    if invs != [] {
      var init := invs[..|invs| - 1];
      AllItemsUnits(init);
      SumIntConcat(AllItems(init), invs[|invs| - 1].items, Quantity);
    }
  }

  /** The line totals of totalled invoices add up to their invoice totals. */
  lemma {:induction false} AllItemsRevenue(invs: seq<Invoice>)
    requires forall i :: 0 <= i < |invs| ==> Totalled(invs[i])
    ensures SumReal(AllItems(invs), Price) == SumReal(invs, Amount)
  {
    if invs != [] {
      var init := invs[..|invs| - 1];
      AllItemsRevenue(init);
      SumRealConcat(AllItems(init), invs[|invs| - 1].items, Price);
    }
  }

  // ---- summary ----

  /** The summary of some invoices: how many, their stored totals summed, their units summed. */
  function SummaryOf(invs: seq<Invoice>): Summary {
    Summary(|invs|, SumReal(invs, Amount), SumInt(invs, Units))
  }

  /** The accumulation loop of the summary report, over the invoices the range selects. */
  method Summarize(invs: seq<Invoice>) returns (report: Summary)
    ensures report == SummaryOf(invs)
  {
    report := Summary(0, 0.0, 0);
    var i := 0;
    while i < |invs|
      invariant 0 <= i <= |invs|
      invariant report == SummaryOf(invs[..i])
    {
      assert invs[..i + 1][..i] == invs[..i];
      var inv := invs[i];
      report := report.(totalInvoices := report.totalInvoices + 1, totalAmount := report.totalAmount + inv.totalAmount);
      var j := 0;
      while j < |inv.items|
        invariant 0 <= j <= |inv.items|
        invariant report == Summary(i + 1, SumReal(invs[..i + 1], Amount), SumInt(invs[..i], Units) + SumInt(inv.items[..j], Quantity))
      {
        assert inv.items[..j + 1][..j] == inv.items[..j];
        report := report.(totalProductUnits := report.totalProductUnits + inv.items[j].quantity);
        j := j + 1;
      }
      assert inv.items[..j] == inv.items;
      i := i + 1;
    }
    assert invs[..i] == invs;
  }

  // ---- sales per product ----

  /** The product ids among some items. */
  function ProductIds(items: seq<Item>): set<string> {
    set i | 0 <= i < |items| :: items[i].productId
  }

  /** The name of the first item with the given product id. */
  function FirstName(items: seq<Item>, id: string): string
    requires id in ProductIds(items)
  {
    var init := items[..|items| - 1];
    if id in ProductIds(init) then FirstName(init, id) else items[|items| - 1].productName
  }

  /** The per-product report as a map: one entry per product id, with the
      first name seen, the quantities summed and the line totals summed. */
  function ProductReport(items: seq<Item>): map<string, ProductSales> {
    map id | id in ProductIds(items) ::
      ProductSales(id, FirstName(items, id), GroupInt(items, ProductIdOf, Quantity, id), GroupReal(items, ProductIdOf, Price, id))
  }

  /** What the loop body does with one item. */
  function AddItem(m: map<string, ProductSales>, it: Item): map<string, ProductSales> {
    var e := if it.productId in m then m[it.productId] else ProductSales(it.productId, it.productName, 0, 0.0);
    m[it.productId := e.(totalSold := e.totalSold + it.quantity, revenue := e.revenue + it.totalPrice)]
  }

  lemma ProductIdsStep(items: seq<Item>, it: Item)
    ensures ProductIds(items + [it]) == ProductIds(items) + {it.productId}
  {
    var s := items + [it];
    assert s[..|s| - 1] == items;
    forall id | id in ProductIds(items) ensures id in ProductIds(s) {
      var i :| 0 <= i < |items| && items[i].productId == id;
      assert s[i].productId == id;
    }
    assert s[|s| - 1].productId == it.productId;
  }

  /** Folding one more item into the report is the loop body's update. */
  lemma ProductReportStep(items: seq<Item>, it: Item)
    ensures ProductReport(items + [it]) == AddItem(ProductReport(items), it)
  {
    var s := items + [it];
    assert s[..|s| - 1] == items;
    ProductIdsStep(items, it);
    var m, m' := ProductReport(items), ProductReport(s);
    var a := AddItem(m, it);
    assert m'.Keys == a.Keys;
    forall id | id in m' ensures m'[id] == a[id] {
      assert FirstName(s, id) == if id in ProductIds(items) then FirstName(items, id) else it.productName;
      assert GroupInt(s, ProductIdOf, Quantity, id) == GroupInt(items, ProductIdOf, Quantity, id) + (if it.productId == id then it.quantity else 0);
      assert GroupReal(s, ProductIdOf, Price, id) == GroupReal(items, ProductIdOf, Price, id) + (if it.productId == id then it.totalPrice else 0.0);
      if id != it.productId {
        assert id in m;
      } else if id !in m {
        ProductGroupNone(items, id);
      }
    }
  }

  lemma {:induction false} ProductGroupNone(items: seq<Item>, id: string)
    requires id !in ProductIds(items)
    ensures GroupInt(items, ProductIdOf, Quantity, id) == 0
    ensures GroupReal(items, ProductIdOf, Price, id) == 0.0
  {
    if items != [] {
      var init := items[..|items| - 1];
      assert items[|items| - 1].productId in ProductIds(items);
      assert ProductIds(init) <= ProductIds(items) by {
        forall x | x in ProductIds(init) ensures x in ProductIds(items) {
          var i :| 0 <= i < |init| && init[i].productId == x;
          assert items[i] == init[i];
        }
      }
      ProductGroupNone(init, id);
    }
  }

  /** The name an entry carries is that of the first item with its product id. */
  lemma {:induction false} FirstNameIsFirst(items: seq<Item>, id: string)
    requires id in ProductIds(items)
    ensures exists i :: 0 <= i < |items| && items[i].productId == id && FirstName(items, id) == items[i].productName
                        && forall j :: 0 <= j < i ==> items[j].productId != id
  {
    var init := items[..|items| - 1];
    if id in ProductIds(init) {
      FirstNameIsFirst(init, id);
      var i :| 0 <= i < |init| && init[i].productId == id && FirstName(init, id) == init[i].productName
               && forall j :: 0 <= j < i ==> init[j].productId != id;
      assert items[i] == init[i];
    } else {
      var i := |items| - 1;
      forall j | 0 <= j < i ensures items[j].productId != id {
        assert items[j] == init[j];
      }
    }
  }

  /** ProductReportStep for the next item of the inner loop. */
  lemma ProductReportNext(done: seq<Item>, items: seq<Item>, j: nat)
    requires j < |items|
    ensures ProductReport(done + items[..j + 1]) == AddItem(ProductReport(done + items[..j]), items[j])
  {
    assert done + items[..j + 1] == done + items[..j] + [items[j]];
    ProductReportStep(done + items[..j], items[j]);
  }

  /** The inner loop of the product report: each item's entry is found or
      created, then its quantity and line total are added. */
  method AddItems(ghost done: seq<Item>, m0: map<string, ProductSales>, items: seq<Item>) returns (m: map<string, ProductSales>)
    requires m0 == ProductReport(done)
    ensures m == ProductReport(done + items)
  {
    m := m0;
    assert done + items[..0] == done;
    var j := 0;
    while j < |items|
      invariant 0 <= j <= |items|
      invariant m == ProductReport(done + items[..j])
    {
      var it := items[j];
      ProductReportNext(done, items, j);
      var e := if it.productId in m then m[it.productId] else ProductSales(it.productId, it.productName, 0, 0.0);
      ghost var next := AddItem(m, it);
      m := m[it.productId := e.(totalSold := e.totalSold + it.quantity, revenue := e.revenue + it.totalPrice)];
      assert m == next;
      j := j + 1;
    }
    assert items[..j] == items;
  }

  /** The accumulation loop of the product report, invoice by invoice. */
  method CollectProducts(invs: seq<Invoice>) returns (m: map<string, ProductSales>)
    ensures m == ProductReport(AllItems(invs))
  {
    m := map[];
    var i := 0;
    while i < |invs|
      invariant 0 <= i <= |invs|
      invariant m == ProductReport(AllItems(invs[..i]))
    {
      assert invs[..i + 1][..i] == invs[..i];
      m := AddItems(AllItems(invs[..i]), m, invs[i].items);
      i := i + 1;
    }
    assert invs[..i] == invs;
  }

  // ---- sales per period ----

  /** The period key of an instant: "2006-01-02" for days, "2006-01" for months. */
  function PeriodKey(groupBy: string, t: int): string {
    if groupBy == "day" then DayKey(t) else MonthKey(t)
  }

  function KeyOf(groupBy: string): Invoice -> string {
    (inv: Invoice) => PeriodKey(groupBy, inv.createdAt)
  }

  /** The keys the invoices fall under, for any choice of key. */
  function KeysBy(invs: seq<Invoice>, key: Invoice -> string): set<string> {
    set i | 0 <= i < |invs| :: key(invs[i])
  }

  /** One entry per key: the invoice totals and the units of the invoices under it. */
  function ReportBy(invs: seq<Invoice>, key: Invoice -> string): map<string, PeriodSales> {
    map k | k in KeysBy(invs, key) :: PeriodSales(k, GroupReal(invs, key, Amount, k), GroupInt(invs, key, Units, k))
  }

  function PeriodKeys(invs: seq<Invoice>, groupBy: string): set<string> {
    KeysBy(invs, KeyOf(groupBy))
  }

  /** The per-period report: the invoices grouped by day or by month. */
  function PeriodReport(invs: seq<Invoice>, groupBy: string): map<string, PeriodSales> {
    ReportBy(invs, KeyOf(groupBy))
  }

  lemma KeysByStep(invs: seq<Invoice>, inv: Invoice, key: Invoice -> string)
    ensures KeysBy(invs + [inv], key) == KeysBy(invs, key) + {key(inv)}
  {
    var s := invs + [inv];
    forall k | k in KeysBy(invs, key) ensures k in KeysBy(s, key) {
      var i :| 0 <= i < |invs| && key(invs[i]) == k;
      assert s[i] == invs[i];
    }
    assert s[|s| - 1] == inv;
  }

  lemma {:induction false} GroupNone(invs: seq<Invoice>, key: Invoice -> string, k: string)
    requires forall i :: 0 <= i < |invs| ==> key(invs[i]) != k
    ensures GroupReal(invs, key, Amount, k) == 0.0
    ensures GroupInt(invs, key, Units, k) == 0
  {
    if invs != [] {
      GroupNone(invs[..|invs| - 1], key, k);
    }
  }

  /** The entry a new key starts from holds nothing. */
  lemma ReportByFresh(invs: seq<Invoice>, key: Invoice -> string, k: string)
    requires k !in ReportBy(invs, key)
    ensures GroupReal(invs, key, Amount, k) == 0.0
    ensures GroupInt(invs, key, Units, k) == 0
  {
    forall i | 0 <= i < |invs| ensures key(invs[i]) != k {
      assert key(invs[i]) in KeysBy(invs, key);
    }
    GroupNone(invs, key, k);
  }

  /** What the loop body does with one invoice filed under key k. */
  function AddInvoice(m: map<string, PeriodSales>, k: string, inv: Invoice): map<string, PeriodSales> {
    m[k := Credit(if k in m then m[k] else PeriodSales(k, 0.0, 0), inv)]
  }

  /** An entry with an invoice's total and units added. */
  function Credit(e: PeriodSales, inv: Invoice): PeriodSales {
    e.(revenue := e.revenue + inv.totalAmount, quantity := e.quantity + Units(inv))
  }

  /** Folding one more invoice into a report is the loop body's update. */
  lemma ReportByStep(invs: seq<Invoice>, inv: Invoice, key: Invoice -> string)
    ensures ReportBy(invs + [inv], key) == AddInvoice(ReportBy(invs, key), key(inv), inv)
  {
    var s := invs + [inv];
    assert s[..|s| - 1] == invs;
    KeysByStep(invs, inv, key);
    var m, m' := ReportBy(invs, key), ReportBy(s, key);
    if key(inv) !in m {
      ReportByFresh(invs, key, key(inv));
    }
    var a := AddInvoice(m, key(inv), inv);
    assert m'.Keys == a.Keys;
    forall k | k in m' ensures m'[k] == a[k] {
      assert GroupReal(s, key, Amount, k) == GroupReal(invs, key, Amount, k) + (if key(inv) == k then inv.totalAmount else 0.0);
      assert GroupInt(s, key, Units, k) == GroupInt(invs, key, Units, k) + (if key(inv) == k then Units(inv) else 0);
    }
  }

  /** The inner loop of the period report: each item's quantity is added to
      the entry's quantity. */
  method AddQuantities(e0: PeriodSales, items: seq<Item>) returns (e: PeriodSales)
    ensures e == e0.(quantity := e0.quantity + SumInt(items, Quantity))
  {
    e := e0;
    var j := 0;
    while j < |items|
      invariant 0 <= j <= |items|
      invariant e == e0.(quantity := e0.quantity + SumInt(items[..j], Quantity))
    {
      assert items[..j + 1][..j] == items[..j];
      e := e.(quantity := e.quantity + items[j].quantity);
      j := j + 1;
    }
    assert items[..j] == items;
  }

  /** One invoice credited to its period: the entry is found or created, the
      invoice total added to its revenue, then its items' quantities. */
  method AddToPeriod(m0: map<string, PeriodSales>, key: string, inv: Invoice) returns (m: map<string, PeriodSales>)
    ensures m == AddInvoice(m0, key, inv)
  {
    var e := if key in m0 then m0[key] else PeriodSales(key, 0.0, 0);
    ghost var start := e;
    e := e.(revenue := e.revenue + inv.totalAmount);
    e := AddQuantities(e, inv.items);
    assert e == Credit(start, inv);
    m := m0[key := e];
  }

  /** The accumulation loop of the period report: per invoice, its entry is
      found or created and the invoice total added to its revenue, then its
      items' quantities. */
  method CollectPeriods(invs: seq<Invoice>, groupBy: string) returns (m: map<string, PeriodSales>)
    ensures m == PeriodReport(invs, groupBy)
  {
    m := map[];
    var i := 0;
    while i < |invs|
      invariant 0 <= i <= |invs|
      invariant m == ReportBy(invs[..i], KeyOf(groupBy))
    {
      assert invs[..i + 1] == invs[..i] + [invs[i]];
      var inv := invs[i];
      ReportByStep(invs[..i], inv, KeyOf(groupBy));
      var key := PeriodKey(groupBy, inv.createdAt);
      assert key == KeyOf(groupBy)(inv);
      m := AddToPeriod(m, key, inv);
      i := i + 1;
    }
    assert invs[..i] == invs;
  }

  // ---- the store ----

  /** The invoices collection, in natural (insertion) order. */
  class Repository {
    var invoices: seq<Invoice>

    /** Every stored invoice carries the totals of its lines: the only write
        is CreateInvoice, which recomputes them. */
    ghost predicate Valid()
      reads this
    {
      forall i :: 0 <= i < |invoices| ==> Totalled(invoices[i])
    }

    constructor ()
      ensures invoices == [] && Valid()
    {
      invoices := [];
    }

    /** CreateInvoice: keep a client id, or take the decimal form of the
        clock's nanoseconds when it is empty; stamp created_at; recompute the
        totals; insert. A failed insert (also an id already stored) changes nothing. */
    method CreateInvoice(invoice: Invoice, nanos: nat, now: int, insertFails: bool) returns (err: Option<string>, created: Invoice)
      modifies this
      requires Valid()
      ensures Valid()
      ensures created.id == (if invoice.id == "" then Decimal(nanos) else invoice.id) && created.id != ""
      ensures created == WithTotals(invoice.(id := created.id, createdAt := now))
      ensures err.Some? <==> insertFails || exists i :: 0 <= i < |old(invoices)| && old(invoices)[i].id == created.id
      ensures err.Some? ==> invoices == old(invoices)
      ensures err.None? ==> invoices == old(invoices) + [created]
    {
      created := invoice;
      if created.id == "" {
        created := created.(id := Decimal(nanos));
      }
      created := created.(createdAt := now);
      var items := new Item[|created.items|](i requires 0 <= i < |created.items| reads {} => created.items[i]);
      var total := CalculateTotals(items);
      created := created.(items := items[..], totalAmount := total);
      assert created.items == WithTotals(invoice.(id := created.id, createdAt := now)).items;
      if insertFails || exists i :: 0 <= i < |invoices| && invoices[i].id == created.id {
        return Some("E11000 duplicate key error"), created;
      }
      invoices := invoices + [created];
      err := None;
    }

    /** GetInvoiceReportByDateRange: the summary of the invoices in range, or the store's error. */
    method GetInvoiceReportByDateRange(from: int, to: int, fails: bool) returns (r: Result<Summary>)
      ensures r.Failure? <==> fails
      ensures r.Success? ==> r.value == SummaryOf(Dated(invoices, from, to))
    {
      if fails {
        return Failure(ErrUnavailable);
      }
      var report := Summarize(Dated(invoices, from, to));
      r := Success(report);
    }

    /** GetProductSalesByDateRange: one entry per product sold in range, in
        the order the map yields them, or the store's error. */
    method GetProductSalesByDateRange(from: int, to: int, fails: bool) returns (r: Result<seq<ProductSales>>, ghost keys: seq<string>)
      ensures r.Failure? <==> fails
      ensures r.Success? ==> Enumerates(r.value, keys, ProductReport(AllItems(Dated(invoices, from, to))))
    {
      keys := [];
      if fails {
        return Failure(ErrUnavailable), keys;
      }
      var m := CollectProducts(Dated(invoices, from, to));
      var list;
      list, keys := Values(m);
      r := Success(list);
    }

    /** GetSalesByPeriod: an error for any grouping but "day" or "month",
        before the store is asked; otherwise one entry per period key in
        range, in the order the map yields them, or the store's error. */
    method GetSalesByPeriod(from: int, to: int, groupBy: string, fails: bool) returns (r: Result<seq<PeriodSales>>, ghost keys: seq<string>)
      ensures r.Failure? <==> fails || (groupBy != "day" && groupBy != "month")
      ensures groupBy != "day" && groupBy != "month" ==> r == Failure("groupBy must be 'day' or 'month'")
      ensures r.Success? ==> Enumerates(r.value, keys, PeriodReport(Dated(invoices, from, to), groupBy))
    {
      keys := [];
      if groupBy != "day" && groupBy != "month" {
        return Failure("groupBy must be 'day' or 'month'"), keys;
      }
      if fails {
        return Failure(ErrUnavailable), keys;
      }
      var m := CollectPeriods(Dated(invoices, from, to), groupBy);
      var list;
      list, keys := Values(m);
      r := Success(list);
    }
  }

  // ---- what the reports promise together ----

  /** An empty range yields a zero summary and no product or period entries. */
  lemma EmptyRange(invs: seq<Invoice>, from: int, to: int, groupBy: string)
    requires forall i :: 0 <= i < |invs| ==> !InRange(invs[i], from, to)
    ensures SummaryOf(Dated(invs, from, to)) == Summary(0, 0.0, 0)
    ensures ProductReport(AllItems(Dated(invs, from, to))) == map[]
    ensures PeriodReport(Dated(invs, from, to), groupBy) == map[]
  {
    SelectNone(invs, InRangeOf(from, to));
  }

  /** The product report's quantities add up to the summary's units. */
  lemma ProductUnitsAgree(invs: seq<Invoice>, products: seq<ProductSales>, keys: seq<string>)
    requires Enumerates(products, keys, ProductReport(AllItems(invs)))
    ensures SumInt(products, (p: ProductSales) => p.totalSold) == SummaryOf(invs).totalProductUnits
  {
    var items := AllItems(invs);
    var m := ProductReport(items);
    forall i | 0 <= i < |items| ensures ProductIdOf(items[i]) in keys {
      assert items[i].productId in ProductIds(items);
    }
    SumIntPaired(products, keys, (p: ProductSales) => p.totalSold, GroupedInt(items, ProductIdOf, Quantity));
    GroupIntTotal(items, ProductIdOf, Quantity, keys);
    AllItemsUnits(invs);
  }

  /** The product report's revenues add up to the summary's amount when every
      invoice's stored totals agree with its lines, as creation makes them. */
  lemma ProductRevenueAgrees(invs: seq<Invoice>, products: seq<ProductSales>, keys: seq<string>)
    requires forall i :: 0 <= i < |invs| ==> Totalled(invs[i])
    requires Enumerates(products, keys, ProductReport(AllItems(invs)))
    ensures SumReal(products, (p: ProductSales) => p.revenue) == SummaryOf(invs).totalAmount
  {
    var items := AllItems(invs);
    forall i | 0 <= i < |items| ensures ProductIdOf(items[i]) in keys {
      assert items[i].productId in ProductIds(items);
    }
    SumRealPaired(products, keys, (p: ProductSales) => p.revenue, GroupedReal(items, ProductIdOf, Price));
    GroupRealTotal(items, ProductIdOf, Price, keys);
    AllItemsRevenue(invs);
  }

  /** The period report's revenues and quantities add up to the summary's amount and units. */
  lemma PeriodsAgree(invs: seq<Invoice>, groupBy: string, periods: seq<PeriodSales>, keys: seq<string>)
    requires Enumerates(periods, keys, PeriodReport(invs, groupBy))
    ensures SumReal(periods, (p: PeriodSales) => p.revenue) == SummaryOf(invs).totalAmount
    ensures SumInt(periods, (p: PeriodSales) => p.quantity) == SummaryOf(invs).totalProductUnits
  {
    forall i | 0 <= i < |invs| ensures KeyOf(groupBy)(invs[i]) in keys {
      assert KeyOf(groupBy)(invs[i]) in KeysBy(invs, KeyOf(groupBy));
    }
    SumRealPaired(periods, keys, (p: PeriodSales) => p.revenue, GroupedReal(invs, KeyOf(groupBy), Amount));
    GroupRealTotal(invs, KeyOf(groupBy), Amount, keys);
    SumIntPaired(periods, keys, (p: PeriodSales) => p.quantity, GroupedInt(invs, KeyOf(groupBy), Units));
    GroupIntTotal(invs, KeyOf(groupBy), Units, keys);
  }

  /** For the stored invoices of any range, the product revenues add up to
      the summary's amount: the store keeps every invoice totalled. */
  lemma StoredRevenueAgrees(repo: Repository, from: int, to: int, products: seq<ProductSales>, keys: seq<string>)
    requires repo.Valid()
    requires Enumerates(products, keys, ProductReport(AllItems(Dated(repo.invoices, from, to))))
    ensures SumReal(products, (p: ProductSales) => p.revenue) == SummaryOf(Dated(repo.invoices, from, to)).totalAmount
  {
    var dated := Dated(repo.invoices, from, to);
    forall i | 0 <= i < |dated| ensures Totalled(dated[i]) {
      var k :| 0 <= k < |repo.invoices| && repo.invoices[k] == dated[i];
    }
    ProductRevenueAgrees(dated, products, keys);
  }
}
