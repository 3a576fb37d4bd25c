/**
 * The read side of the sales repository as functions of the store: the
 * detail of one sale, the listing joined with clients, the best-selling
 * products and the sales of one day.
 */
module LedgerReads {
  import opened Domain
  import opened Store
  import opened Ledger

  // ---------------------------------------------------------------------
  // Sale detail

  /** The items recorded for sale `id`, in insertion order. */
  function ItemsOfSale(rows: seq<ItemRow>, id: int): (r: seq<SaleItem>)
    ensures |r| <= |rows|
    ensures forall x :: x in r ==> ItemRow(id, x) in rows
  {
    if rows == [] then []
    else
      var last := rows[|rows| - 1];
      ItemsOfSale(rows[..|rows| - 1], id) + (if last.saleId == id then [last.item] else [])
  }

  /**
   * The header of sale `id` with its items, or `NotFound` when no header
   * has that id. The client name is not part of a detail.
   */
  function SaleDetailOf(s: Tables, id: int): (r: Result<Sale>)
    ensures r.Err? <==> forall k :: 0 <= k < |s.sales| ==> s.sales[k].id != id
    ensures r.Err? ==> r.error == NotFound
    ensures r.Ok? ==> r.value.id == id && r.value.clientName == "" && r.value.items == ItemsOfSale(s.saleItems, id)
    ensures r.Ok? ==> exists k :: 0 <= k < |s.sales| && s.sales[k] == SaleHeader(id, r.value.clientId, r.value.fecha, r.value.total)
  {
    var k := SaleIndex(s.sales, id);
    if k < 0 then Err(NotFound)
    else
      var h := s.sales[k];
      Ok(Sale(h.id, h.clientId, "", h.fecha, h.total, ItemsOfSale(s.saleItems, id)))
  }

  lemma {:induction false} ItemsOfSaleAppend(a: seq<ItemRow>, b: seq<ItemRow>, id: int)
    ensures ItemsOfSale(a + b, id) == ItemsOfSale(a, id) + ItemsOfSale(b, id)
    decreases |b|
  {
    if b == [] {
      assert a + b == a;
    } else {
      var n := |b|;
      assert (a + b)[..|a + b| - 1] == a + b[..n - 1];
      ItemsOfSaleAppend(a, b[..n - 1], id);
    }
  }

  lemma {:induction false} ItemsOfOtherSales(rows: seq<ItemRow>, id: int)
    requires forall k :: 0 <= k < |rows| ==> rows[k].saleId != id
    ensures ItemsOfSale(rows, id) == []
  {
    if rows != [] {
      ItemsOfOtherSales(rows[..|rows| - 1], id);
    }
  }

  lemma {:induction false} ItemsOfOwnRows(id: int, items: seq<SaleItem>)
    ensures ItemsOfSale(ItemRows(id, items), id) == items
  {
    if items != [] {
      var n := |items|;
      assert ItemRows(id, items)[..n - 1] == ItemRows(id, items[..n - 1]);
      ItemsOfOwnRows(id, items[..n - 1]);
      assert items[..n - 1] + [items[n - 1]] == items;
    }
  }

  /**
   * Reading back a sale right after creating it gives the same id, client,
   * total and items, in input order, and the same `Timestamp` as the sale
   * the transaction returned.
   */
  lemma DetailAfterCreate(s: Tables, clientId: int, items: seq<SaleItem>, fecha: Timestamp)
    requires Consistent(s)
    requires CreateSale(s, clientId, items, fecha).0.Ok?
    ensures var out := CreateSale(s, clientId, items, fecha);
      SaleDetailOf(out.1, out.0.value.id) == out.0
  {
    var out := CreateSale(s, clientId, items, fecha);
    var id := s.nextSaleId;
    var s' := out.1;
    assert s'.sales[|s.sales|].id == id;
    assert SaleIndex(s'.sales, id) == |s.sales|;
    ItemsOfSaleAppend(s.saleItems, ItemRows(id, Priced(items)), id);
    ItemsOfOtherSales(s.saleItems, id);
    ItemsOfOwnRows(id, Priced(items));
    assert s'.saleItems == s.saleItems + ItemRows(id, Priced(items));
    assert ItemsOfSale(s'.saleItems, id) == Priced(items);
    assert SaleDetailOf(s', id).Ok?;
    assert SaleDetailOf(s', id).value.items == out.0.value.items;
    assert SaleDetailOf(s', id).value.total == out.0.value.total;
  }

  // ---------------------------------------------------------------------
  // Sales listing

  /** The listing row of one header, joined with its client; none when the client is gone. */
  function Joined(h: SaleHeader, clients: seq<Client>): seq<Sale> {
    var k := ClientIndex(clients, h.clientId);
    if k < 0 then [] else [Sale(h.id, h.clientId, clients[k].nombre, h.fecha, h.total, [])]
  }

  /** `SELECT ... FROM sales JOIN clients ... ORDER BY s.id DESC`, for headers stored in ascending id order. */
  function Listing(sales: seq<SaleHeader>, clients: seq<Client>): (r: seq<Sale>)
    ensures |r| <= |sales|
    ensures forall k :: 0 <= k < |r| ==> r[k].items == []
  {
    if sales == [] then [] else Listing(sales[1..], clients) + Joined(sales[0], clients)
  }

  /** A listed sale is exactly the join of some header whose client exists. */
  lemma {:induction false} ListingMembers(sales: seq<SaleHeader>, clients: seq<Client>)
    ensures forall x :: x in Listing(sales, clients) <==>
      exists k :: 0 <= k < |sales| && Joined(sales[k], clients) == [x]
  {
    if sales != [] {
      ListingMembers(sales[1..], clients);
      forall x | x in Listing(sales, clients)
        ensures exists k :: 0 <= k < |sales| && Joined(sales[k], clients) == [x]
      {
        if x in Listing(sales[1..], clients) {
          var k :| 0 <= k < |sales[1..]| && Joined(sales[1..][k], clients) == [x];
          assert Joined(sales[k + 1], clients) == [x];
        } else {
          assert Joined(sales[0], clients) == [x];
        }
      }
      forall x, k | 0 <= k < |sales| && Joined(sales[k], clients) == [x]
        ensures x in Listing(sales, clients)
      {
        if k > 0 {
          assert Joined(sales[1..][k - 1], clients) == [x];
        }
      }
    }
  }

  /** For headers in ascending id order, a header is listed exactly when its client exists, and only such headers are. */
  lemma ListingComplete(sales: seq<SaleHeader>, clients: seq<Client>, k: int)
    requires SaleIdsAscending(sales)
    requires 0 <= k < |sales|
    ensures HasClient(clients, sales[k].clientId) <==> exists x :: x in Listing(sales, clients) && x.id == sales[k].id
    ensures forall x :: x in Listing(sales, clients) ==> HasClient(clients, x.clientId)
  {
    ListingMembers(sales, clients);
    if HasClient(clients, sales[k].clientId) {
      var x := Joined(sales[k], clients)[0];
      assert x in Listing(sales, clients);
    }
    if exists x :: x in Listing(sales, clients) && x.id == sales[k].id {
      var x :| x in Listing(sales, clients) && x.id == sales[k].id;
      var j :| 0 <= j < |sales| && Joined(sales[j], clients) == [x];
      assert sales[j].id == sales[k].id;
      assert j == k;
    }
  }

  /** For headers in ascending id order, the listing is in strictly descending id order. */
  lemma {:induction false} ListingDescending(sales: seq<SaleHeader>, clients: seq<Client>)
    requires SaleIdsAscending(sales)
    ensures forall i, j :: 0 <= i < j < |Listing(sales, clients)| ==> Listing(sales, clients)[i].id > Listing(sales, clients)[j].id
  {
    if sales != [] {
      var rest := Listing(sales[1..], clients);
      ListingDescending(sales[1..], clients);
      assert forall a, b :: 0 <= a < b < |rest| ==> rest[a].id > rest[b].id;
      ListingMembers(sales[1..], clients);
      forall x | x in rest
        ensures x.id > sales[0].id
      {
        var k :| 0 <= k < |sales[1..]| && Joined(sales[1..][k], clients) == [x];
        assert x.id == sales[k + 1].id;
      }
      var l := Listing(sales, clients);
      forall i, j | 0 <= i < j < |l|
        ensures l[i].id > l[j].id
      {
        if j >= |rest| {
          assert |Joined(sales[0], clients)| <= 1;
          assert l[i] == rest[i] && l[i] in rest;
          assert l[j] == Joined(sales[0], clients)[0];
          assert l[j].id == sales[0].id;
        } else {
          assert l[i] == rest[i] && l[j] == rest[j];
        }
      }
    }
  }

  // ---------------------------------------------------------------------
  // Best-selling products

  /** A (product name, quantity sold) pair of the report. */
  type Seller = (string, int)

  /** The name a sold row is grouped under: that of its product, if the product still exists (inner join). */
  function SoldName(row: ItemRow, products: seq<Product>): Option<string> {
    var k := ProductIndex(products, row.item.productId);
    if k < 0 then None else Some(products[k].nombre)
  }

  /** `SUM(si.cantidad)` over the rows grouped under `name`. */
  function QuantityByName(rows: seq<ItemRow>, products: seq<Product>, name: string): int {
    if rows == [] then 0
    else (if SoldName(rows[0], products) == Some(name) then rows[0].item.cantidad else 0)
         + QuantityByName(rows[1..], products, name)
  }

  /** The group names, once each. */
  function SoldNames(rows: seq<ItemRow>, products: seq<Product>): (r: seq<string>)
    ensures forall i, j :: 0 <= i < j < |r| ==> r[i] != r[j]
  {
    if rows == [] then []
    else
      var rest := SoldNames(rows[1..], products);
      match SoldName(rows[0], products)
      case None => rest
      case Some(n) =>
        if n in rest then rest
        else
          assert forall j :: 0 <= j < |rest| ==> ([n] + rest)[j + 1] == rest[j];
          [n] + rest
  }

  /** The group names are exactly the names some row is sold under. */
  lemma {:induction false} SoldNamesMembers(rows: seq<ItemRow>, products: seq<Product>)
    ensures forall n :: n in SoldNames(rows, products) <==> exists k :: 0 <= k < |rows| && SoldName(rows[k], products) == Some(n)
  {
    if rows != [] {
      var tail := rows[1..];
      SoldNamesMembers(tail, products);
      forall n
        ensures (exists k :: 0 <= k < |tail| && SoldName(tail[k], products) == Some(n))
            <==> (exists k :: 1 <= k < |rows| && SoldName(rows[k], products) == Some(n))
      {
        if exists k :: 1 <= k < |rows| && SoldName(rows[k], products) == Some(n) {
          var k :| 1 <= k < |rows| && SoldName(rows[k], products) == Some(n);
          assert tail[k - 1] == rows[k];
        }
      }
    }
  }

  /** One (name, quantity) group per sold name. */
  function Groups(rows: seq<ItemRow>, products: seq<Product>): seq<Seller> {
    var names := SoldNames(rows, products);
    seq(|names|, k requires 0 <= k < |names| => (names[k], QuantityByName(rows, products, names[k])))
  }

  predicate NonIncreasing(s: seq<Seller>) {
    forall i, j :: 0 <= i < j < |s| ==> s[i].1 >= s[j].1
  }

  function Insert(x: Seller, s: seq<Seller>): (r: seq<Seller>)
    ensures |r| == |s| + 1
  {
    if s == [] then [x]
    else if x.1 >= s[0].1 then [x] + s
    else [s[0]] + Insert(x, s[1..])
  }

  /** Ordered by quantity, descending; the order among equal quantities is not promised by the query. */
  function SortDesc(s: seq<Seller>): (r: seq<Seller>)
    ensures |r| == |s|
  {
    if s == [] then [] else Insert(s[0], SortDesc(s[1..]))
  }

  /** The report: groups ordered by quantity sold, descending, at most five of them. */
  function TopProducts(rows: seq<ItemRow>, products: seq<Product>): (r: seq<Seller>)
    ensures |r| == if |SoldNames(rows, products)| <= 5 then |SoldNames(rows, products)| else 5
  {
    var sorted := SortDesc(Groups(rows, products));
    if |sorted| <= 5 then sorted else sorted[..5]
  }

  lemma ConsSorted(h: Seller, r: seq<Seller>)
    requires NonIncreasing(r)
    requires forall k :: 0 <= k < |r| ==> r[k].1 <= h.1
    ensures NonIncreasing([h] + r)
  {
    var l := [h] + r;
    forall i, j | 0 <= i < j < |l|
      ensures l[i].1 >= l[j].1
    {
      assert l[j] == r[j - 1];
      if i > 0 {
        assert l[i] == r[i - 1];
      }
    }
  }

  lemma {:induction false} InsertElements(x: Seller, s: seq<Seller>)
    ensures multiset(Insert(x, s)) == multiset(s) + multiset{x}
  {
    if s != [] && x.1 < s[0].1 {
      InsertElements(x, s[1..]);
      assert s == [s[0]] + s[1..];
    }
  }

  lemma {:induction false} InsertSorted(x: Seller, s: seq<Seller>)
    requires NonIncreasing(s)
    ensures NonIncreasing(Insert(x, s))
  {
    if s == [] {
    } else if x.1 >= s[0].1 {
      ConsSorted(x, s);
    } else {
      var r := Insert(x, s[1..]);
      InsertSorted(x, s[1..]);
      InsertElements(x, s[1..]);
      forall k | 0 <= k < |r|
        ensures r[k].1 <= s[0].1
      {
        assert r[k] in multiset(r);
        if r[k] != x {
          assert r[k] in multiset(s[1..]);
          var j :| 0 <= j < |s[1..]| && s[1..][j] == r[k];
          assert s[j + 1] == r[k];
        }
      }
      ConsSorted(s[0], r);
    }
  }

  lemma {:induction false} SortDescSorted(s: seq<Seller>)
    ensures NonIncreasing(SortDesc(s))
    ensures multiset(SortDesc(s)) == multiset(s)
  {
    if s != [] {
      SortDescSorted(s[1..]);
      InsertSorted(s[0], SortDesc(s[1..]));
      InsertElements(s[0], SortDesc(s[1..]));
      assert s == [s[0]] + s[1..];
    }
  }

  /** A group is a sold name paired with the quantity sold under it. */
  lemma GroupsShape(rows: seq<ItemRow>, products: seq<Product>)
    ensures forall e :: e in Groups(rows, products) <==>
      e.0 in SoldNames(rows, products) && e.1 == QuantityByName(rows, products, e.0)
    ensures DistinctNames(Groups(rows, products))
  {
    var names := SoldNames(rows, products);
    var g := Groups(rows, products);
    forall e: Seller | e.0 in names && e.1 == QuantityByName(rows, products, e.0)
      ensures e in g
    {
      var k :| 0 <= k < |names| && names[k] == e.0;
      assert g[k] == e;
    }
  }

  /** No name occurs twice. */
  predicate DistinctNames(s: seq<Seller>) {
    forall i, j :: 0 <= i < j < |s| ==> s[i].0 != s[j].0
  }

  lemma {:induction false} InsertDistinct(x: Seller, s: seq<Seller>)
    requires DistinctNames(s)
    requires forall k :: 0 <= k < |s| ==> s[k].0 != x.0
    ensures DistinctNames(Insert(x, s))
  {
    if s != [] && x.1 < s[0].1 {
      InsertDistinct(x, s[1..]);
      var r := Insert(x, s[1..]);
      InsertElements(x, s[1..]);
      forall k | 0 <= k < |r|
        ensures r[k].0 != s[0].0
      {
        assert r[k] in multiset(r);
        if r[k] != x {
          var j :| 0 <= j < |s[1..]| && s[1..][j] == r[k];
          assert s[j + 1] == r[k];
        }
      }
      var l := [s[0]] + r;
      forall i, j | 0 <= i < j < |l|
        ensures l[i].0 != l[j].0
      {
        assert l[j] == r[j - 1];
        if i > 0 {
          assert l[i] == r[i - 1];
        }
      }
    } else if s != [] {
      var l := [x] + s;
      forall i, j | 0 <= i < j < |l|
        ensures l[i].0 != l[j].0
      {
        assert l[j] == s[j - 1];
        if i > 0 {
          assert l[i] == s[i - 1];
        }
      }
    }
  }

  lemma {:induction false} SortDescDistinct(s: seq<Seller>)
    requires DistinctNames(s)
    ensures DistinctNames(SortDesc(s))
  {
    if s != [] {
      var tail := s[1..];
      assert DistinctNames(tail) by {
        forall i, j | 0 <= i < j < |tail|
          ensures tail[i].0 != tail[j].0
        {
          assert tail[i] == s[i + 1] && tail[j] == s[j + 1];
        }
      }
      SortDescDistinct(tail);
      SortDescSorted(tail);
      var r := SortDesc(tail);
      forall k | 0 <= k < |r|
        ensures r[k].0 != s[0].0
      {
        assert r[k] in multiset(r);
        var j :| 0 <= j < |tail| && tail[j] == r[k];
        assert s[j + 1] == r[k];
      }
      InsertDistinct(s[0], r);
    }
  }

  /**
   * The report holds at most five pairs, in non-increasing quantity, no name
   * twice, and each pair is a sold name with the total quantity sold under it.
   */
  lemma TopProductsOrdered(rows: seq<ItemRow>, products: seq<Product>)
    ensures var r := TopProducts(rows, products);
      && |r| <= 5
      && (forall i, j :: 0 <= i < j < |r| ==> r[i].1 >= r[j].1)
      && (forall i, j :: 0 <= i < j < |r| ==> r[i].0 != r[j].0)
      && (forall i :: 0 <= i < |r| ==> r[i].0 in SoldNames(rows, products) && r[i].1 == QuantityByName(rows, products, r[i].0))
  {
    var g := Groups(rows, products);
    var sorted := SortDesc(g);
    var r := TopProducts(rows, products);
    SortDescSorted(g);
    GroupsShape(rows, products);
    SortDescDistinct(g);
    assert r == sorted[..|r|];
    forall i | 0 <= i < |r|
      ensures r[i] in g
    {
      assert r[i] == sorted[i];
      assert r[i] in multiset(sorted);
    }
  }

  /** In a non-increasing sequence, an element whose name is not among the first `m` is outranked by all of them. */
  lemma PrefixOutranks(sorted: seq<Seller>, m: nat, e: Seller)
    requires NonIncreasing(sorted)
    requires m <= |sorted| && e in sorted
    requires forall i :: 0 <= i < m ==> sorted[i].0 != e.0
    ensures m < |sorted| && forall i :: 0 <= i < m ==> sorted[i].1 >= e.1
  {
    var j :| 0 <= j < |sorted| && sorted[j] == e;
    assert j >= m;
  }

  /** A sold name is left out of the report only when five names sold at least as much. */
  lemma TopProductsMaximal(rows: seq<ItemRow>, products: seq<Product>, n: string)
    requires n in SoldNames(rows, products)
    requires forall i :: 0 <= i < |TopProducts(rows, products)| ==> TopProducts(rows, products)[i].0 != n
    ensures var r := TopProducts(rows, products);
      |r| == 5 && forall i :: 0 <= i < |r| ==> r[i].1 >= QuantityByName(rows, products, n)
  {
    var g := Groups(rows, products);
    var sorted := SortDesc(g);
    var r := TopProducts(rows, products);
    SortDescSorted(g);
    GroupsShape(rows, products);
    var e := (n, QuantityByName(rows, products, n));
    assert e in multiset(g);
    assert e in multiset(sorted);
    var m := if |sorted| <= 5 then |sorted| else 5;
    assert r == sorted[..m];
    assert forall i :: 0 <= i < m ==> sorted[i] == r[i];
    PrefixOutranks(sorted, m, e);
  }

  // ---------------------------------------------------------------------
  // Sales of one day

  /** `COUNT(*)` and `SUM(total)` over the headers whose calendar day is `today`. */
  function SalesOfDay(sales: seq<SaleHeader>, today: int): (r: (int, Money))
    ensures 0 <= r.0 <= |sales|
    ensures r.0 == 0 ==> r.1 == 0
  {
    if sales == [] then (0, 0)
    else
      var last := sales[|sales| - 1];
      var (count, sum) := SalesOfDay(sales[..|sales| - 1], today);
      if last.fecha.utcDay == today then (count + 1, sum + last.total) else (count, sum)
  }

  /** A sale created on day `today` counts once in that day's report, with its total. */
  lemma SalesOfDayAfterCreate(s: Tables, clientId: int, items: seq<SaleItem>, fecha: Timestamp, today: int)
    requires CreateSale(s, clientId, items, fecha).0.Ok?
    ensures var out := CreateSale(s, clientId, items, fecha);
      var before, after := SalesOfDay(s.sales, today), SalesOfDay(out.1.sales, today);
      if fecha.utcDay == today then after == (before.0 + 1, before.1 + out.0.value.total) else after == before
  {
    var s' := CreateSale(s, clientId, items, fecha).1;
    assert s'.sales[..|s'.sales| - 1] == s.sales;
  }
}
