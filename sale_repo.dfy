/**
 * The sales repository. `CreateSaleTx` runs the sale transaction against a
 * working copy of the products table and writes the
 * copy, the header and the item rows back only at commit; an early return
 * before the commit is the rollback and leaves the database untouched. The
 * read operations scan the tables the way their queries do. Each method is
 * proved equal to the functions of `Ledger` and `LedgerReads`, whose lemmas
 * carry the properties.
 */
module Sales {
  import opened Domain
  import opened Store
  import opened Ledger
  import opened LedgerReads

  class SaleRepo {
    const db: Database

    constructor (db: Database)
      ensures this.db == db
    {
      this.db := db;
    }

    /**
     * Records a sale for `clientId` at time `fecha` (the server clock, taken
     * as a parameter): computes subtotals and the total, takes the next sale
     * id, applies the guarded stock decrement of each item in order and writes
     * one item row per item. The first decrement that affects no row aborts
     * with `InsufficientStock` and nothing is written.
     */
    method CreateSaleTx(clientId: int, items: seq<SaleItem>, fecha: Timestamp) returns (r: Result<Sale>)
      requires db.Valid()
      modifies db
      ensures db.Valid()
      ensures (r, db.State()) == CreateSale(old(db.State()), clientId, items, fecha)
      ensures r.Err? ==> r.error == InsufficientStock && db.State() == old(db.State())
    {
      ghost var before := db.State();
      var priced, total := PriceItems(items);
      var saleId := db.nextSaleId;
      var stock, rows := ApplyItems(db.products, saleId, priced);
      ApplySaleIgnoresPrices(db.products, priced, items);
      if stock.None? {
        return Err(InsufficientStock);
      }
      // Commit.
      CreateSaleConsistent(db.State(), clientId, items, fecha);
      db.products := stock.value;
      db.sales := db.sales + [SaleHeader(saleId, clientId, fecha, total)];
      db.saleItems := db.saleItems + rows;
      db.nextSaleId := saleId + 1;
      r := Ok(Sale(saleId, clientId, "", fecha, total, priced));
      assert db.State() == CreateSale(before, clientId, items, fecha).1;
    }

    /** The first loop of the transaction: each item's subtotal, and the sale total. */
    static method PriceItems(items: seq<SaleItem>) returns (priced: seq<SaleItem>, total: Money)
      ensures priced == Priced(items)
      ensures total == Total(priced) == LineSum(items)
    {
      priced, total := [], 0;
      var i := 0;
      while i < |items|
        invariant 0 <= i <= |items|
        invariant priced == Priced(items[..i])
        invariant total == Total(priced)
      {
        var line := items[i].(subtotal := items[i].cantidad * items[i].precioUnitario);
        assert Priced(items[..i + 1]) == priced + [line];
        assert (priced + [line])[..|priced|] == priced;
        priced := priced + [line];
        total := total + line.subtotal;
        i := i + 1;
      }
      assert items[..|items|] == items;
      TotalOfPriced(items);
    }

    /**
     * The second loop of the transaction, on a working copy of the products:
     * the guarded decrement of each item in order, stopping at the first one
     * that affects no row, and the item rows of sale `saleId`.
     */
    static method ApplyItems(products: seq<Product>, saleId: int, items: seq<SaleItem>)
      returns (stock: Option<seq<Product>>, rows: seq<ItemRow>)
      ensures stock == ApplySale(products, items)
      ensures stock.Some? ==> rows == ItemRows(saleId, items)
    {
      var current := products;
      rows := [];
      var j := 0;
      while j < |items|
        invariant 0 <= j <= |items|
        invariant ApplySale(products, items) == ApplySale(current, items[j..])
        invariant rows == ItemRows(saleId, items[..j])
      {
        assert items[j..][1..] == items[j + 1..];
        var updated := GuardedDecrement(current, items[j].productId, items[j].cantidad);
        if updated.None? {
          return None, rows;
        }
        current := updated.value;
        rows := rows + [ItemRow(saleId, items[j])];
        j := j + 1;
      }
      assert items[..|items|] == items;
      stock := Some(current);
    }

    /**
     * Every sale whose client exists, joined with the client's name, newest
     * first; headers whose client is gone are dropped by the inner join.
     */
    method ListSales() returns (r: seq<Sale>)
      requires db.Valid()
      ensures r == Listing(db.sales, db.clients)
      ensures forall i, j :: 0 <= i < j < |r| ==> r[i].id > r[j].id
      ensures forall x :: x in r ==> HasClient(db.clients, x.clientId)
      ensures forall k :: 0 <= k < |db.sales| ==>
        (HasClient(db.clients, db.sales[k].clientId) <==> exists x :: x in r && x.id == db.sales[k].id)
    {
      r := [];
      var i := |db.sales|;
      while i > 0
        invariant 0 <= i <= |db.sales|
        invariant r == Listing(db.sales[i..], db.clients)
      {
        i := i - 1;
        var h := db.sales[i];
        assert db.sales[i..][1..] == db.sales[i + 1..];
        var c := ClientIndex(db.clients, h.clientId);
        if c >= 0 {
          r := r + [Sale(h.id, h.clientId, db.clients[c].nombre, h.fecha, h.total, [])];
        }
      }
      assert db.sales[0..] == db.sales;
      ListingDescending(db.sales, db.clients);
      forall k | 0 <= k < |db.sales|
        ensures HasClient(db.clients, db.sales[k].clientId) <==> exists x :: x in r && x.id == db.sales[k].id
      {
        ListingComplete(db.sales, db.clients, k);
      }
      if |db.sales| > 0 {
        ListingComplete(db.sales, db.clients, 0);
      } else {
        assert r == [];
      }
    }

    /**
     * The header of sale `id` with its items in row order, or `NotFound`
     * when no sale has that id. The client name is left empty.
     */
    method GetSaleDetail(id: int) returns (r: Result<Sale>)
      requires db.Valid()
      ensures r == SaleDetailOf(db.State(), id)
      ensures r.Err? <==> forall k :: 0 <= k < |db.sales| ==> db.sales[k].id != id
      ensures r.Err? ==> r.error == NotFound
    {
      var k := SaleIndex(db.sales, id);
      if k < 0 {
        return Err(NotFound);
      }
      var h := db.sales[k];
      var found: seq<SaleItem> := [];
      var i := 0;
      while i < |db.saleItems|
        invariant 0 <= i <= |db.saleItems|
        invariant found == ItemsOfSale(db.saleItems[..i], id)
      {
        assert db.saleItems[..i + 1][..i] == db.saleItems[..i];
        if db.saleItems[i].saleId == id {
          found := found + [db.saleItems[i].item];
        }
        i := i + 1;
      }
      assert db.saleItems[..|db.saleItems|] == db.saleItems;
      r := Ok(Sale(h.id, h.clientId, "", h.fecha, h.total, found));
    }

    /** `COUNT(*) > 0` over the clients with that id. */
    method ClientExists(id: int) returns (b: bool)
      ensures b <==> exists k :: 0 <= k < |db.clients| && db.clients[k].id == id
      ensures b <==> HasClient(db.clients, id)
    {
      var count := 0;
      var i := 0;
      while i < |db.clients|
        invariant 0 <= i <= |db.clients|
        invariant 0 <= count <= i
        invariant count > 0 <==> exists k :: 0 <= k < i && db.clients[k].id == id
      {
        if db.clients[i].id == id {
          count := count + 1;
        }
        i := i + 1;
      }
      b := count > 0;
    }

    /** `COUNT(*) > 0` over the products with that id. */
    method ProductExists(id: int) returns (b: bool)
      ensures b <==> exists k :: 0 <= k < |db.products| && db.products[k].id == id
      ensures b <==> HasProduct(db.products, id)
    {
      var count := 0;
      var i := 0;
      while i < |db.products|
        invariant 0 <= i <= |db.products|
        invariant 0 <= count <= i
        invariant count > 0 <==> exists k :: 0 <= k < i && db.products[k].id == id
      {
        if db.products[i].id == id {
          count := count + 1;
        }
        i := i + 1;
      }
      b := count > 0;
    }

    /**
     * The number and the summed total of the sales whose calendar day is
     * `today` (the server's current date, taken as a parameter).
     */
    method VentasHoy(today: int) returns (count: int, total: Money)
      ensures (count, total) == SalesOfDay(db.sales, today)
      ensures 0 <= count <= |db.sales|
    {
      count, total := 0, 0;
      var i := 0;
      while i < |db.sales|
        invariant 0 <= i <= |db.sales|
        invariant (count, total) == SalesOfDay(db.sales[..i], today)
        invariant 0 <= count <= i
      {
        assert db.sales[..i + 1][..i] == db.sales[..i];
        if db.sales[i].fecha.utcDay == today {
          count, total := count + 1, total + db.sales[i].total;
        }
        i := i + 1;
      }
      assert db.sales[..|db.sales|] == db.sales;
    }

    /**
     * The five best-selling product names with the quantity sold under each,
     * by quantity descending; a name missing from the report sold no more
     * than each of five reported names. The query fixes no order among equal
     * quantities, nor which of them fills the last place, so the contract
     * admits every such answer; the body picks the one `TopProducts` defines.
     */
    method TopProductos() returns (r: seq<Seller>)
      ensures |r| <= 5
      ensures forall i, j :: 0 <= i < j < |r| ==> r[i].1 >= r[j].1
      ensures forall i, j :: 0 <= i < j < |r| ==> r[i].0 != r[j].0
      ensures forall i :: 0 <= i < |r| ==>
        r[i].0 in SoldNames(db.saleItems, db.products) && r[i].1 == QuantityByName(db.saleItems, db.products, r[i].0)
    ensures forall n :: n in SoldNames(db.saleItems, db.products) && (forall i :: 0 <= i < |r| ==> r[i].0 != n) ==>
      |r| == 5 && forall i :: 0 <= i < |r| ==> r[i].1 >= QuantityByName(db.saleItems, db.products, n)
    {
      r := TopProducts(db.saleItems, db.products);
      TopProductsOrdered(db.saleItems, db.products);
      forall n | n in SoldNames(db.saleItems, db.products) && (forall i :: 0 <= i < |r| ==> r[i].0 != n)
        ensures |r| == 5 && forall i :: 0 <= i < |r| ==> r[i].1 >= QuantityByName(db.saleItems, db.products, n)
      {
        TopProductsMaximal(db.saleItems, db.products, n);
      }
    }
  }
}
