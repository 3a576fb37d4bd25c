/**
 * The sale transaction of the stock ledger as a function of the store:
 * subtotals and the total are recomputed, every item runs a guarded stock
 * decrement in caller order, and either all of the sale is recorded or
 * none of it. `Sales.SaleRepo.CreateSaleTx` is proved to compute exactly
 * `CreateSale`; the lemmas here state what that means.
 */
module Ledger {
  import opened Domain
  import opened Store

  /** The items with every subtotal recomputed as quantity times unit price; caller subtotals are discarded. */
  function Priced(items: seq<SaleItem>): (r: seq<SaleItem>)
    ensures |r| == |items|
    ensures forall k :: 0 <= k < |r| ==>
      r[k] == SaleItem(items[k].productId, items[k].cantidad, items[k].precioUnitario, items[k].cantidad * items[k].precioUnitario)
  {
    seq(|items|, k requires 0 <= k < |items| => items[k].(subtotal := items[k].cantidad * items[k].precioUnitario))
  }

  /** The sum of the subtotals (the running `total +=` of the transaction). */
  function Total(items: seq<SaleItem>): Money {
    if items == [] then 0 else Total(items[..|items| - 1]) + items[|items| - 1].subtotal
  }

  /** The sum of quantity times unit price over the items, whatever their subtotals say. */
  function LineSum(items: seq<SaleItem>): Money {
    if items == [] then 0 else items[0].cantidad * items[0].precioUnitario + LineSum(items[1..])
  }

  /** The sale-item rows of sale `id`, one per item, in item order. */
  function ItemRows(id: int, items: seq<SaleItem>): (r: seq<ItemRow>)
    ensures |r| == |items|
    ensures forall k :: 0 <= k < |r| ==> r[k].saleId == id && r[k].item == items[k]
  {
    seq(|items|, k requires 0 <= k < |items| => ItemRow(id, items[k]))
  }

  predicate UniqueIds(t: seq<Product>) {
    forall i, j :: 0 <= i < j < |t| ==> t[i].id != t[j].id
  }

  /**
   * `UPDATE products SET stock = stock - qty WHERE id = pid AND stock >= qty`,
   * with `None` when it affects no row. The id is the table's primary key.
   */
  function GuardedDecrement(t: seq<Product>, pid: int, qty: int): (r: Option<seq<Product>>)
    ensures r.Some? ==> |r.value| == |t|
    ensures r.Some? ==> forall k :: 0 <= k < |t| ==>
      r.value[k] == t[k] || (t[k].id == pid && t[k].stock >= qty && r.value[k] == t[k].(stock := t[k].stock - qty))
    ensures UniqueIds(t) ==> (r.None? <==> forall k :: 0 <= k < |t| && t[k].id == pid ==> t[k].stock < qty)
    ensures UniqueIds(t) && r.Some? ==> forall k :: 0 <= k < |t| && t[k].id == pid ==>
      r.value[k] == t[k].(stock := t[k].stock - qty)
  {
    var k := ProductIndex(t, pid);
    if k < 0 || t[k].stock < qty then None
    else Some(t[k := t[k].(stock := t[k].stock - qty)])
  }

  /** The guarded decrements of all items in order; `None` as soon as one affects no row. */
  function ApplySale(t: seq<Product>, items: seq<SaleItem>): (r: Option<seq<Product>>)
    ensures r.Some? ==> |r.value| == |t|
    decreases |items|
  {
    if items == [] then Some(t)
    else
      match GuardedDecrement(t, items[0].productId, items[0].cantidad)
      case None => None
      case Some(t') => ApplySale(t', items[1..])
  }

  /** The total quantity of product `pid` across the items. */
  function Demand(items: seq<SaleItem>, pid: int): int {
    if items == [] then 0
    else (if items[0].productId == pid then items[0].cantidad else 0) + Demand(items[1..], pid)
  }

  /** The stock of product `pid`, 0 when there is no such product. */
  function StockOf(t: seq<Product>, pid: int): int {
    var k := ProductIndex(t, pid);
    if k < 0 then 0 else t[k].stock
  }

  /**
   * The whole transaction: the returned sale (or error) and the store after it.
   * The new sale id is the next id of the `sales` table.
   */
  function CreateSale(s: Tables, clientId: int, items: seq<SaleItem>, fecha: Timestamp): (out: (Result<Sale>, Tables))
    ensures out.0.Err? ==> out.0.error == InsufficientStock && out.1 == s
    ensures out.0.Ok? ==> out.0.value.id == s.nextSaleId && out.1.nextSaleId == s.nextSaleId + 1
    ensures out.0.Ok? ==> out.0.value.clientId == clientId && out.0.value.fecha == fecha && |out.0.value.items| == |items|
    ensures out.1.clients == s.clients && out.1.nextProductId == s.nextProductId && out.1.nextClientId == s.nextClientId
    ensures |out.1.products| == |s.products|
  {
    var priced := Priced(items);
    var total := Total(priced);
    var id := s.nextSaleId;
    match ApplySale(s.products, items)
    case None => (Err(InsufficientStock), s)
    case Some(ps) =>
      (Ok(Sale(id, clientId, "", fecha, total, priced)),
       s.(products := ps,
          sales := s.sales + [SaleHeader(id, clientId, fecha, total)],
          saleItems := s.saleItems + ItemRows(id, priced),
          nextSaleId := id + 1))
  }

  // ---------------------------------------------------------------------
  // Subtotals and the total

  lemma {:induction false} TotalOfPriced(items: seq<SaleItem>)
    ensures Total(Priced(items)) == LineSum(items)
  {
    if items != [] {
      var n := |items|;
      assert Priced(items)[..n - 1] == Priced(items[..n - 1]);
      TotalOfPriced(items[..n - 1]);
      LineSumSnoc(items[..n - 1], items[n - 1]);
      assert items[..n - 1] + [items[n - 1]] == items;
    }
  }

  lemma {:induction false} LineSumSnoc(items: seq<SaleItem>, x: SaleItem)
    ensures LineSum(items + [x]) == LineSum(items) + x.cantidad * x.precioUnitario
  {
    if items == [] {
      assert [x][1..] == [];
    } else {
      assert (items + [x])[1..] == items[1..] + [x];
      LineSumSnoc(items[1..], x);
    }
  }

  /** The guarded decrements read only the product id and the quantity of each item. */
  lemma {:induction false} ApplySaleIgnoresPrices(t: seq<Product>, a: seq<SaleItem>, b: seq<SaleItem>)
    requires |a| == |b|
    requires forall k :: 0 <= k < |a| ==> a[k].productId == b[k].productId && a[k].cantidad == b[k].cantidad
    ensures ApplySale(t, a) == ApplySale(t, b)
    decreases |a|
  {
    if a != [] {
      match GuardedDecrement(t, a[0].productId, a[0].cantidad)
      case None =>
      case Some(t') => ApplySaleIgnoresPrices(t', a[1..], b[1..]);
    }
  }

  /**
   * Whatever subtotals the caller supplies, the transaction computes the same
   * sale and the same store: they are overwritten before anything else.
   */
  lemma SubtotalsIgnored(s: Tables, clientId: int, a: seq<SaleItem>, b: seq<SaleItem>, fecha: Timestamp)
    requires |a| == |b|
    requires forall k :: 0 <= k < |a| ==>
      a[k].productId == b[k].productId && a[k].cantidad == b[k].cantidad && a[k].precioUnitario == b[k].precioUnitario
    ensures CreateSale(s, clientId, a, fecha) == CreateSale(s, clientId, b, fecha)
  {
    assert Priced(a) == Priced(b);
    ApplySaleIgnoresPrices(s.products, a, b);
  }

  // ---------------------------------------------------------------------
  // The guarded decrements

  lemma {:induction false} SameIdsSameIndex(t: seq<Product>, u: seq<Product>, p: int)
    requires |t| == |u|
    requires forall k :: 0 <= k < |t| ==> t[k].id == u[k].id
    ensures ProductIndex(t, p) == ProductIndex(u, p)
  {
    if |t| > 0 && t[0].id != p {
      SameIdsSameIndex(t[1..], u[1..], p);
    }
  }

  /** One successful guarded decrement keeps every id and lowers only the stock of `pid`. */
  lemma DecrementEffect(t: seq<Product>, pid: int, qty: int, p: int)
    requires UniqueIds(t)
    requires GuardedDecrement(t, pid, qty).Some?
    ensures var u := GuardedDecrement(t, pid, qty).value;
      && UniqueIds(u)
      && HasProduct(t, pid) && StockOf(t, pid) >= qty
      && ProductIndex(u, p) == ProductIndex(t, p)
      && StockOf(u, p) == StockOf(t, p) - (if p == pid then qty else 0)
  {
    var u := GuardedDecrement(t, pid, qty).value;
    assert forall k :: 0 <= k < |t| ==> u[k].id == t[k].id;
    SameIdsSameIndex(t, u, p);
  }

  /**
   * A sale goes through exactly when, for each item in caller order, its
   * product exists and its stock covers the quantity of that product demanded
   * by the items up to and including this one (the running stock).
   */
  lemma {:induction false} ApplySaleSucceedsIff(t: seq<Product>, items: seq<SaleItem>)
    requires UniqueIds(t)
    ensures ApplySale(t, items).Some? <==>
      forall i :: 0 <= i < |items| ==>
        HasProduct(t, items[i].productId) && StockOf(t, items[i].productId) >= Demand(items[..i + 1], items[i].productId)
    decreases |items|
  {
    if items != [] {
      var x, rest := items[0], items[1..];
      assert items[..1] == [x];
      assert Demand([x], x.productId) == x.cantidad by { assert [x][1..] == []; }
      match GuardedDecrement(t, x.productId, x.cantidad)
      case None =>
        assert !(HasProduct(t, x.productId) && StockOf(t, x.productId) >= Demand(items[..1], x.productId));
      case Some(u) =>
        ApplySaleSucceedsIff(u, rest);
        forall i | 0 <= i < |rest|
          ensures (HasProduct(u, rest[i].productId) && StockOf(u, rest[i].productId) >= Demand(rest[..i + 1], rest[i].productId))
              <==> (HasProduct(t, items[i + 1].productId) && StockOf(t, items[i + 1].productId) >= Demand(items[..i + 2], items[i + 1].productId))
        {
          CoveredAfterFirst(t, items, u, i);
        }
        DecrementEffect(t, x.productId, x.cantidad, x.productId);
        if ApplySale(u, rest).Some? {
          forall i | 0 <= i < |items|
            ensures HasProduct(t, items[i].productId) && StockOf(t, items[i].productId) >= Demand(items[..i + 1], items[i].productId)
          {
            if i > 0 {
              assert items[i] == rest[i - 1];
              assert items[..i + 1] == items[..(i - 1) + 2];
            }
          }
        } else {
          var i :| 0 <= i < |rest| &&
            !(HasProduct(u, rest[i].productId) && StockOf(u, rest[i].productId) >= Demand(rest[..i + 1], rest[i].productId));
          assert items[i + 1] == rest[i];
        }
    }
  }

  /**
   * After the first item's decrement, item `i + 1` is covered by the new stock
   * exactly when it was covered by the old stock together with the first item.
   */
  lemma CoveredAfterFirst(t: seq<Product>, items: seq<SaleItem>, u: seq<Product>, i: int)
    requires UniqueIds(t) && 0 <= i < |items| - 1
    requires GuardedDecrement(t, items[0].productId, items[0].cantidad) == Some(u)
    ensures var rest := items[1..];
      (HasProduct(u, rest[i].productId) && StockOf(u, rest[i].productId) >= Demand(rest[..i + 1], rest[i].productId))
      <==> (HasProduct(t, items[i + 1].productId) && StockOf(t, items[i + 1].productId) >= Demand(items[..i + 2], items[i + 1].productId))
  {
    var p := items[i + 1].productId;
    DecrementEffect(t, items[0].productId, items[0].cantidad, p);
    assert items[..i + 2][1..] == items[1..][..i + 1];
  }

  /**
   * After a successful sale every product's stock has dropped by the total
   * quantity of that product across the items, and nothing else has changed.
   */
  lemma {:induction false} ApplySaleStock(t: seq<Product>, items: seq<SaleItem>)
    requires UniqueIds(t)
    requires ApplySale(t, items).Some?
    ensures var u := ApplySale(t, items).value;
      |u| == |t| && forall k :: 0 <= k < |t| ==> u[k] == t[k].(stock := t[k].stock - Demand(items, t[k].id))
    decreases |items|
  {
    if items != [] {
      var x := items[0];
      var u := GuardedDecrement(t, x.productId, x.cantidad).value;
      assert forall k :: 0 <= k < |t| ==> u[k].id == t[k].id;
      assert UniqueIds(u);
      ApplySaleStock(u, items[1..]);
    }
  }

  /** A successful sale never drives a stock below zero. */
  lemma {:induction false} ApplySaleNonNegative(t: seq<Product>, items: seq<SaleItem>)
    requires forall k :: 0 <= k < |t| ==> t[k].stock >= 0
    requires ApplySale(t, items).Some?
    ensures var u := ApplySale(t, items).value;
      |u| == |t| && forall k :: 0 <= k < |u| ==> u[k].stock >= 0 && u[k].id == t[k].id && u[k].nombre == t[k].nombre && u[k].precio == t[k].precio
    decreases |items|
  {
    if items != [] {
      var u := GuardedDecrement(t, items[0].productId, items[0].cantidad).value;
      ApplySaleNonNegative(u, items[1..]);
    }
  }

  /** An item naming a product that does not exist makes the guarded update affect no row. */
  lemma {:induction false} MissingProductFails(t: seq<Product>, items: seq<SaleItem>, i: int)
    requires 0 <= i < |items|
    requires !HasProduct(t, items[i].productId)
    ensures ApplySale(t, items) == None
    decreases |items|
  {
    match GuardedDecrement(t, items[0].productId, items[0].cantidad)
    case None =>
    case Some(u) =>
      if i == 0 {
        assert false;
      }
      var p := items[i].productId;
      assert forall k :: 0 <= k < |u| ==> u[k].id == t[k].id;
      SameIdsSameIndex(t, u, p);
      MissingProductFails(u, items[1..], i - 1);
  }

  lemma {:induction false} DemandAppend(a: seq<SaleItem>, b: seq<SaleItem>, p: int)
    ensures Demand(a + b, p) == Demand(a, p) + Demand(b, p)
  {
    if a == [] {
      assert a + b == b;
    } else {
      assert (a + b)[1..] == a[1..] + b;
      DemandAppend(a[1..], b, p);
    }
  }

  /** When some quantity of `p` is demanded, a last item of `p` closes the running total. */
  lemma {:induction false} DemandAtLastItem(b: seq<SaleItem>, p: int)
    requires Demand(b, p) != 0
    ensures exists i :: 0 <= i < |b| && b[i].productId == p && Demand(b[..i + 1], p) == Demand(b, p)
  {
    var n := |b|;
    assert b == b[..n - 1] + [b[n - 1]];
    DemandAppend(b[..n - 1], [b[n - 1]], p);
    assert Demand([b[n - 1]], p) == if b[n - 1].productId == p then b[n - 1].cantidad else 0 by {
      assert [b[n - 1]][1..] == [];
    }
    if b[n - 1].productId == p {
      assert b[..n] == b;
    } else {
      DemandAtLastItem(b[..n - 1], p);
      var i :| 0 <= i < n - 1 && b[..n - 1][i].productId == p && Demand(b[..n - 1][..i + 1], p) == Demand(b[..n - 1], p);
      assert b[..n - 1][..i + 1] == b[..i + 1];
    }
  }

  // ---------------------------------------------------------------------
  // The transaction

  /**
   * All or nothing: the sale fails exactly when some item's guarded decrement
   * against the running stock fails (a missing product included), and a
   * failure reports `InsufficientStock` and leaves every table as it was.
   */
  lemma CreateSaleAllOrNothing(s: Tables, clientId: int, items: seq<SaleItem>, fecha: Timestamp)
    requires Consistent(s)
    ensures var out := CreateSale(s, clientId, items, fecha); var r, s' := out.0, out.1;
      && (r.Ok? <==> forall i :: 0 <= i < |items| ==>
            HasProduct(s.products, items[i].productId)
            && StockOf(s.products, items[i].productId) >= Demand(items[..i + 1], items[i].productId))
      && (r.Err? ==> r.error == InsufficientStock && s' == s)
  {
    ApplySaleSucceedsIff(s.products, items);
  }

  /**
   * A successful sale records one header and one item row per input item, all
   * with the new sale id and in input order; the returned sale carries that id,
   * the client, the recomputed items and a total equal to the sum of quantity
   * times unit price.
   */
  lemma CreateSaleRecords(s: Tables, clientId: int, items: seq<SaleItem>, fecha: Timestamp)
    requires CreateSale(s, clientId, items, fecha).0.Ok?
    ensures var out := CreateSale(s, clientId, items, fecha); var r, s' := out.0, out.1;
      && r.value.id == s.nextSaleId
      && r.value.clientId == clientId && r.value.fecha == fecha
      && r.value.total == LineSum(items) == Total(r.value.items)
      && |r.value.items| == |items|
      && (forall k :: 0 <= k < |items| ==>
            r.value.items[k] == items[k].(subtotal := items[k].cantidad * items[k].precioUnitario))
      && s'.sales == s.sales + [SaleHeader(r.value.id, clientId, fecha, r.value.total)]
      && |s'.saleItems| == |s.saleItems| + |items|
      && s'.saleItems[..|s.saleItems|] == s.saleItems
      && (forall k :: 0 <= k < |items| ==>
            s'.saleItems[|s.saleItems| + k] == ItemRow(r.value.id, r.value.items[k]))
      && s'.clients == s.clients
  {
    TotalOfPriced(items);
    var s' := CreateSale(s, clientId, items, fecha).1;
    assert s'.saleItems[..|s.saleItems|] == s.saleItems;
  }

  /**
   * A successful sale lowers each product's stock by the total quantity of
   * that product across the items, changes no name or price, and keeps every
   * stock non-negative.
   */
  lemma CreateSaleStock(s: Tables, clientId: int, items: seq<SaleItem>, fecha: Timestamp)
    requires Consistent(s)
    requires CreateSale(s, clientId, items, fecha).0.Ok?
    ensures var s' := CreateSale(s, clientId, items, fecha).1;
      && |s'.products| == |s.products|
      && (forall k :: 0 <= k < |s.products| ==>
            s'.products[k] == s.products[k].(stock := s.products[k].stock - Demand(items, s.products[k].id)))
      && (Sound(s) ==> Sound(s'))
  {
    ApplySaleStock(s.products, items);
    if Sound(s) {
      ApplySaleNonNegative(s.products, items);
    }
  }

  /** The transaction keeps the store consistent, whatever its outcome. */
  lemma CreateSaleConsistent(s: Tables, clientId: int, items: seq<SaleItem>, fecha: Timestamp)
    requires Consistent(s)
    ensures Consistent(CreateSale(s, clientId, items, fecha).1)
  {
    match ApplySale(s.products, items)
    case None =>
    case Some(ps) =>
      ApplySaleStock(s.products, items);
      assert forall k :: 0 <= k < |ps| ==> ps[k].id == s.products[k].id;
      RowsBelow(s.saleItems, ItemRows(s.nextSaleId, Priced(items)), s.nextSaleId + 1);
      RowsOfRecordedSales(s.sales, s.saleItems, SaleHeader(s.nextSaleId, clientId, fecha, Total(Priced(items))),
        ItemRows(s.nextSaleId, Priced(items)));
  }

  /**
   * Rows of recorded sales, followed by rows of a header appended to the
   * sales, are all rows of recorded sales.
   */
  lemma RowsOfRecordedSales(sales: seq<SaleHeader>, a: seq<ItemRow>, h: SaleHeader, b: seq<ItemRow>)
    requires forall i :: 0 <= i < |a| ==> HasSale(sales, a[i].saleId)
    requires forall i :: 0 <= i < |b| ==> b[i].saleId == h.id
    ensures forall i :: 0 <= i < |a + b| ==> HasSale(sales + [h], (a + b)[i].saleId)
  {
    forall i | 0 <= i < |a + b|
      ensures HasSale(sales + [h], (a + b)[i].saleId)
    {
      if i < |a| {
        assert (a + b)[i] == a[i];
      } else {
        assert (a + b)[i] == b[i - |a|];
      }
      SalesGrow(sales, h, (a + b)[i].saleId);
    }
  }

  /** A sale recorded before, or the one just appended, is recorded after the append. */
  lemma SalesGrow(t: seq<SaleHeader>, h: SaleHeader, id: int)
    requires HasSale(t, id) || h.id == id
    ensures HasSale(t + [h], id)
  {
    var u := t + [h];
    if HasSale(t, id) {
      assert u[SaleIndex(t, id)].id == id;
    } else {
      assert u[|t|].id == id;
    }
  }

  /** Two runs of item rows whose sale ids lie in `[1, next)` concatenate to one that does. */
  lemma RowsBelow(a: seq<ItemRow>, b: seq<ItemRow>, next: int)
    requires forall i :: 0 <= i < |a| ==> 1 <= a[i].saleId < next
    requires forall i :: 0 <= i < |b| ==> 1 <= b[i].saleId < next
    ensures forall i :: 0 <= i < |a + b| ==> 1 <= (a + b)[i].saleId < next
  {
  }

  /**
   * The sequential face of the oversell guard: once one sale has gone through,
   * a second sale whose demand for some product, added to the first's,
   * exceeds that product's original stock is refused.
   */
  lemma OversellRefused(s: Tables, c1: int, a: seq<SaleItem>, f1: Timestamp, c2: int, b: seq<SaleItem>, f2: Timestamp, p: int)
    requires Consistent(s) && Sound(s)
    requires CreateSale(s, c1, a, f1).0.Ok?
    requires HasProduct(s.products, p)
    requires Demand(a, p) + Demand(b, p) > StockOf(s.products, p)
    ensures CreateSale(CreateSale(s, c1, a, f1).1, c2, b, f2).0 == Err(InsufficientStock)
  {
    var t := s.products;
    var u := ApplySale(t, a).value;
    ApplySaleStock(t, a);
    ApplySaleNonNegative(t, a);
    assert forall k :: 0 <= k < |u| ==> u[k].id == t[k].id;
    SameIdsSameIndex(t, u, p);
    var k := ProductIndex(t, p);
    assert StockOf(u, p) == u[k].stock == StockOf(t, p) - Demand(a, p);
    assert UniqueIds(u);
    DemandAtLastItem(b, p);
    var i :| 0 <= i < |b| && b[i].productId == p && Demand(b[..i + 1], p) == Demand(b, p);
    ApplySaleSucceedsIff(u, b);
  }

  // ---------------------------------------------------------------------
  // The two worked examples of the ledger's behaviour (prices in cents)

  const ProductA := Product(1, "A", 10, 500)
  const ProductB := Product(2, "B", 2, 2000)

  /** In the two-row table of the examples, each id is found at its own row. */
  lemma ExampleIndexes(t: seq<Product>)
    requires |t| == 2 && t[0].id == 1 && t[1].id == 2
    ensures ProductIndex(t, 1) == 0 && ProductIndex(t, 2) == 1
  {
    assert t[1..][0].id == 2;
  }

  /** Ordering 3 of A and 5 of B (only 2 in stock) fails and leaves A's stock at 10. */
  lemma ExampleOversell(s: Tables, fecha: Timestamp)
    requires s.products == [ProductA, ProductB]
    ensures var out := CreateSale(s, 1, [SaleItem(1, 3, 500, 0), SaleItem(2, 5, 2000, 0)], fecha); var r, s' := out.0, out.1;
      r == Err(InsufficientStock) && s'.products[0].stock == 10
  {
    var items := [SaleItem(1, 3, 500, 0), SaleItem(2, 5, 2000, 0)];
    var u := [ProductA.(stock := 7), ProductB];
    ExampleIndexes(s.products);
    ExampleIndexes(u);
    assert s.products[0 := ProductA.(stock := 7)] == u;
    assert GuardedDecrement(s.products, 1, 3) == Some(u);
    assert items[1..] == [items[1]];
    assert GuardedDecrement(u, 2, 5) == None;
  }

  /** Ordering 3 of A at 5.00 and 2 of B at 20.00 succeeds with total 55.00, leaving stocks 7 and 0. */
  lemma ExampleSale(s: Tables, fecha: Timestamp)
    requires s.products == [ProductA, ProductB]
    ensures var out := CreateSale(s, 1, [SaleItem(1, 3, 500, 0), SaleItem(2, 2, 2000, 0)], fecha); var r, s' := out.0, out.1;
      r.Ok? && r.value.total == 5500 && s'.products == [ProductA.(stock := 7), ProductB.(stock := 0)]
  {
    var items := [SaleItem(1, 3, 500, 0), SaleItem(2, 2, 2000, 0)];
    var u := [ProductA.(stock := 7), ProductB];
    ExampleIndexes(s.products);
    ExampleIndexes(u);
    assert s.products[0 := ProductA.(stock := 7)] == u;
    assert GuardedDecrement(s.products, 1, 3) == Some(u);
    assert items[1..] == [items[1]];
    assert u[1 := ProductB.(stock := 0)] == [ProductA.(stock := 7), ProductB.(stock := 0)];
    assert GuardedDecrement(u, 2, 2) == Some([ProductA.(stock := 7), ProductB.(stock := 0)]);
    assert [items[1]][1..] == [];
    TotalOfPriced(items);
    assert items[1..][1..] == [];
  }
}
