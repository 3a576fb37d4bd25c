/**
 * The sales service: the checks that run before the sale transaction, in
 * their fixed order, and the thin delegations of the read operations. The
 * order is: the client id and the presence of items; the client's
 * existence; then, item by item, the item's shape and its product's
 * existence. The first check that fails decides the answer.
 */
module SaleService {
  import opened Domain
  import opened Store
  import opened Ledger
  import opened LedgerReads
  import opened Sales

  /** The shape rule of one item: positive product id, quantity and unit price. */
  predicate WellFormedItem(item: SaleItem) {
    item.productId > 0 && item.cantidad > 0 && item.precioUnitario > 0
  }

  /** The checks of one item: its shape, then the existence of its product. */
  function ItemCheck(products: seq<Product>, item: SaleItem): (r: Option<Error>)
    ensures r.None? <==> WellFormedItem(item) && HasProduct(products, item.productId)
    ensures r == Some(InvalidInput) <==> !WellFormedItem(item)
    ensures r == Some(NotFound) <==> WellFormedItem(item) && !HasProduct(products, item.productId)
  {
    if item.productId <= 0 || item.cantidad <= 0 || item.precioUnitario <= 0 then Some(InvalidInput)
    else if !HasProduct(products, item.productId) then Some(NotFound)
    else None
  }

  /** The verdict of the first item, in item order, that fails its checks. */
  function ItemsVerdict(products: seq<Product>, items: seq<SaleItem>): Option<Error> {
    if items == [] then None
    else if ItemCheck(products, items[0]).Some? then ItemCheck(products, items[0])
    else ItemsVerdict(products, items[1..])
  }

  /** The verdict of all checks before the transaction; `None` lets the sale through. */
  function Preflight(clients: seq<Client>, products: seq<Product>, clientId: int, items: seq<SaleItem>): (r: Option<Error>)
    ensures r.None? ==> clientId > 0 && |items| > 0 && HasClient(clients, clientId)
  {
    if clientId <= 0 || |items| == 0 then Some(InvalidInput)
    else if !HasClient(clients, clientId) then Some(NotFound)
    else ItemsVerdict(products, items)
  }

  /** The service's answer and the store after it: the checks, then the transaction only if they all pass. */
  function CreateChecked(s: Tables, clientId: int, items: seq<SaleItem>, fecha: Timestamp): (out: (Result<Sale>, Tables))
    ensures out.0.Err? ==> out.1 == s
    ensures out.0.Ok? ==> Preflight(s.clients, s.products, clientId, items).None?
    ensures out.0.Ok? ==> out.0.value.clientId == clientId && out.1.nextSaleId == s.nextSaleId + 1
  {
    match Preflight(s.clients, s.products, clientId, items)
    case Some(e) => (Err(e), s)
    case None => CreateSale(s, clientId, items, fecha)
  }

  /** All items pass exactly when each one passes its own checks. */
  lemma {:induction false} ItemsPassIff(products: seq<Product>, items: seq<SaleItem>)
    ensures ItemsVerdict(products, items).None? <==> forall i :: 0 <= i < |items| ==> ItemCheck(products, items[i]).None?
  {
    if items != [] {
      ItemsPassIff(products, items[1..]);
      assert forall i :: 1 <= i < |items| ==> items[i] == items[1..][i - 1];
    }
  }

  /**
   * The first failing item decides: when item `i` fails and every earlier one
   * passes, the verdict is item `i`'s, whatever the later items are.
   */
  lemma {:induction false} FirstFailureDecides(products: seq<Product>, items: seq<SaleItem>, i: int)
    requires 0 <= i < |items| && ItemCheck(products, items[i]).Some?
    requires forall j :: 0 <= j < i ==> ItemCheck(products, items[j]).None?
    ensures ItemsVerdict(products, items) == ItemCheck(products, items[i])
  {
    if i > 0 {
      FirstFailureDecides(products, items[1..], i - 1);
    }
  }

  /**
   * The checks let a sale through exactly when the client id is positive, the
   * client exists, there is at least one item, and every item is well formed
   * and names an existing product.
   */
  lemma PreflightPassIff(clients: seq<Client>, products: seq<Product>, clientId: int, items: seq<SaleItem>)
    ensures Preflight(clients, products, clientId, items).None? <==>
      && clientId > 0 && |items| > 0 && HasClient(clients, clientId)
      && forall i :: 0 <= i < |items| ==> WellFormedItem(items[i]) && HasProduct(products, items[i].productId)
  {
    ItemsPassIff(products, items);
  }

  /** A failed check is one of the two validation errors; it is never `Conflict`. */
  lemma PreflightErrors(clients: seq<Client>, products: seq<Product>, clientId: int, items: seq<SaleItem>)
    ensures Preflight(clients, products, clientId, items) in {None, Some(InvalidInput), Some(NotFound)}
  {
    ItemsVerdictErrors(products, items);
  }

  lemma {:induction false} ItemsVerdictErrors(products: seq<Product>, items: seq<SaleItem>)
    ensures ItemsVerdict(products, items) in {None, Some(InvalidInput), Some(NotFound)}
  {
    if items != [] {
      ItemsVerdictErrors(products, items[1..]);
    }
  }

  /**
   * The client is checked before any item: with a positive id and a missing
   * client the answer is `NotFound`, however malformed the items are.
   */
  lemma ClientCheckedFirst(clients: seq<Client>, products: seq<Product>, clientId: int, a: seq<SaleItem>, b: seq<SaleItem>)
    requires clientId > 0 && |a| > 0 && |b| > 0 && !HasClient(clients, clientId)
    ensures Preflight(clients, products, clientId, a) == Preflight(clients, products, clientId, b) == Some(NotFound)
  {
  }

  /**
   * Once the checks pass, the only way the sale can still fail is stock: it
   * goes through exactly when each item is covered by the running stock.
   */
  lemma AfterPreflight(s: Tables, clientId: int, items: seq<SaleItem>, fecha: Timestamp)
    requires Consistent(s)
    requires Preflight(s.clients, s.products, clientId, items).None?
    ensures var out := CreateChecked(s, clientId, items, fecha);
      && (out.0.Ok? <==> forall i :: 0 <= i < |items| ==>
            StockOf(s.products, items[i].productId) >= Demand(items[..i + 1], items[i].productId))
      && (out.0.Err? ==> out.0.error == InsufficientStock && out.1 == s)
  {
    PreflightPassIff(s.clients, s.products, clientId, items);
    CreateSaleAllOrNothing(s, clientId, items, fecha);
  }

  /** Every refusal of the service leaves the store exactly as it was. */
  lemma RefusalChangesNothing(s: Tables, clientId: int, items: seq<SaleItem>, fecha: Timestamp)
    requires Consistent(s)
    ensures var out := CreateChecked(s, clientId, items, fecha);
      out.0.Err? ==> out.1 == s && out.0.error in {InvalidInput, NotFound, InsufficientStock}
  {
    PreflightErrors(s.clients, s.products, clientId, items);
    CreateSaleAllOrNothing(s, clientId, items, fecha);
  }

  /** The worked order: a missing product at index 0 wins over a malformed item at index 1. */
  lemma ExampleMissingBeatsMalformed(s: Tables, clientId: int, fecha: Timestamp)
    requires clientId > 0 && HasClient(s.clients, clientId)
    requires !HasProduct(s.products, 7)
    ensures var items := [SaleItem(7, 1, 100, 0), SaleItem(0, 1, 100, 0)];
      Preflight(s.clients, s.products, clientId, items) == Some(NotFound)
  {
    var items := [SaleItem(7, 1, 100, 0), SaleItem(0, 1, 100, 0)];
    FirstFailureDecides(s.products, items, 0);
  }

  class SaleService {
    const repo: SaleRepo

    constructor (repo: SaleRepo)
      ensures this.repo == repo
    {
      this.repo := repo;
    }

    /** The checks of `Create`, in order, with the repository's existence queries. */
    method Validate(clientId: int, items: seq<SaleItem>) returns (e: Option<Error>)
      ensures e == Preflight(repo.db.clients, repo.db.products, clientId, items)
    {
      if clientId <= 0 || |items| == 0 {
        return Some(InvalidInput);
      }
      var clientFound := repo.ClientExists(clientId);
      if !clientFound {
        return Some(NotFound);
      }
      var i := 0;
      while i < |items|
        invariant 0 <= i <= |items|
        invariant ItemsVerdict(repo.db.products, items) == ItemsVerdict(repo.db.products, items[i..])
      {
        var item := items[i];
        assert items[i..][1..] == items[i + 1..];
        if item.productId <= 0 || item.cantidad <= 0 || item.precioUnitario <= 0 {
          return Some(InvalidInput);
        }
        var productFound := repo.ProductExists(item.productId);
        if !productFound {
          return Some(NotFound);
        }
        i := i + 1;
      }
      return None;
    }

    /**
     * Runs the checks and, only when they all pass, the sale transaction at
     * time `fecha`; a refusal returns its error without touching the store.
     */
    method Create(clientId: int, items: seq<SaleItem>, fecha: Timestamp) returns (r: Result<Sale>)
      requires repo.db.Valid()
      modifies repo.db
      ensures repo.db.Valid()
      ensures (r, repo.db.State()) == CreateChecked(old(repo.db.State()), clientId, items, fecha)
      ensures Sound(old(repo.db.State())) ==> Sound(repo.db.State())
    {
      var e := Validate(clientId, items);
      if e.Some? {
        return Err(e.value);
      }
      if CreateSale(repo.db.State(), clientId, items, fecha).0.Ok? {
        CreateSaleStock(repo.db.State(), clientId, items, fecha);
      }
      r := repo.CreateSaleTx(clientId, items, fecha);
    }

    /** `InvalidInput` for an id that is not positive; otherwise the repository's answer, unchanged. */
    method Detail(id: int) returns (r: Result<Sale>)
      requires repo.db.Valid()
      ensures id <= 0 ==> r == Err(InvalidInput)
      ensures id > 0 ==> r == SaleDetailOf(repo.db.State(), id)
    {
      if id <= 0 {
        return Err(InvalidInput);
      }
      r := repo.GetSaleDetail(id);
    }

    /** The repository's listing. */
    method List() returns (r: seq<Sale>)
      requires repo.db.Valid()
      ensures r == Listing(repo.db.sales, repo.db.clients)
    {
      r := repo.ListSales();
    }

    /** The repository's count and total of the sales of `today`. */
    method VentasHoy(today: int) returns (count: int, total: Money)
      ensures (count, total) == SalesOfDay(repo.db.sales, today)
    {
      count, total := repo.VentasHoy(today);
    }

    /** The repository's report, with the same guarantees. */
    method TopProductos() returns (r: seq<Seller>)
      ensures |r| <= 5
      ensures forall i, j :: 0 <= i < j < |r| ==> r[i].1 >= r[j].1
      ensures forall i, j :: 0 <= i < j < |r| ==> r[i].0 != r[j].0
      ensures forall i :: 0 <= i < |r| ==>
        r[i].0 in SoldNames(repo.db.saleItems, repo.db.products)
        && r[i].1 == QuantityByName(repo.db.saleItems, repo.db.products, r[i].0)
      ensures forall n :: n in SoldNames(repo.db.saleItems, repo.db.products) && (forall i :: 0 <= i < |r| ==> r[i].0 != n) ==>
        |r| == 5 && forall i :: 0 <= i < |r| ==> r[i].1 >= QuantityByName(repo.db.saleItems, repo.db.products, n)
    {
      r := repo.TopProductos();
    }
  }
}
