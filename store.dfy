/**
 * The relational store behind the repositories, as in-memory tables:
 * products, clients, sale headers and sale-item rows, plus the identity
 * each table hands out next. Rows are kept in insertion order, which is
 * also ascending id order.
 */
module Store {
  import opened Domain

  /** A row of the `sales` table. */
  datatype SaleHeader = SaleHeader(id: int, clientId: int, fecha: Timestamp, total: Money)

  /**
   * A row of the `sale_items` table. The table's own row id only orders
   * the rows; the position in the sequence plays that part here.
   */
  datatype ItemRow = ItemRow(saleId: int, item: SaleItem)

  /** A snapshot of every table of the store. */
  datatype Tables = Tables(
    products: seq<Product>,
    clients: seq<Client>,
    sales: seq<SaleHeader>,
    saleItems: seq<ItemRow>,
    nextProductId: int,
    nextClientId: int,
    nextSaleId: int)

  /** The empty store of a freshly migrated database. */
  const Empty := Tables([], [], [], [], 1, 1, 1)

  predicate ProductIdsAscending(t: seq<Product>) {
    forall i, j :: 0 <= i < j < |t| ==> t[i].id < t[j].id
  }

  predicate ClientIdsAscending(t: seq<Client>) {
    forall i, j :: 0 <= i < j < |t| ==> t[i].id < t[j].id
  }

  predicate SaleIdsAscending(t: seq<SaleHeader>) {
    forall i, j :: 0 <= i < j < |t| ==> t[i].id < t[j].id
  }

  /**
   * The consistency of the store: ids are positive, ascending and below the
   * next id to hand out, and every sale-item row belongs to a recorded sale.
   */
  predicate Consistent(s: Tables) {
    && 1 <= s.nextProductId && 1 <= s.nextClientId && 1 <= s.nextSaleId
    && ProductIdsAscending(s.products)
    && (forall i :: 0 <= i < |s.products| ==> 1 <= s.products[i].id < s.nextProductId)
    && ClientIdsAscending(s.clients)
    && (forall i :: 0 <= i < |s.clients| ==> 1 <= s.clients[i].id < s.nextClientId)
    && SaleIdsAscending(s.sales)
    && (forall i :: 0 <= i < |s.sales| ==> 1 <= s.sales[i].id < s.nextSaleId)
    && (forall i :: 0 <= i < |s.saleItems| ==> 1 <= s.saleItems[i].saleId < s.nextSaleId)
    && (forall i :: 0 <= i < |s.saleItems| ==> HasSale(s.sales, s.saleItems[i].saleId))
  }

  /** The business rules the validators keep: stock never negative, prices positive, client fields present. */
  predicate Sound(s: Tables) {
    && (forall i :: 0 <= i < |s.products| ==> s.products[i].stock >= 0 && s.products[i].precio > 0)
    && (forall i :: 0 <= i < |s.clients| ==> s.clients[i].nombre != [] && s.clients[i].cedula != [] && s.clients[i].email != [])
  }

  /** The position of the first product row with the given id, or -1 when there is none. */
  function ProductIndex(t: seq<Product>, id: int): (k: int)
    ensures -1 <= k < |t|
    ensures k >= 0 ==> t[k].id == id && forall j :: 0 <= j < k ==> t[j].id != id
    ensures k < 0 ==> forall j :: 0 <= j < |t| ==> t[j].id != id
  {
    if |t| == 0 then -1
    else if t[0].id == id then 0
    else
      var k := ProductIndex(t[1..], id);
      if k < 0 then -1 else k + 1
  }

  /** The position of the first client row with the given id, or -1 when there is none. */
  function ClientIndex(t: seq<Client>, id: int): (k: int)
    ensures -1 <= k < |t|
    ensures k >= 0 ==> t[k].id == id && forall j :: 0 <= j < k ==> t[j].id != id
    ensures k < 0 ==> forall j :: 0 <= j < |t| ==> t[j].id != id
  {
    if |t| == 0 then -1
    else if t[0].id == id then 0
    else
      var k := ClientIndex(t[1..], id);
      if k < 0 then -1 else k + 1
  }

  /** The position of the first sale header with the given id, or -1 when there is none. */
  function SaleIndex(t: seq<SaleHeader>, id: int): (k: int)
    ensures -1 <= k < |t|
    ensures k >= 0 ==> t[k].id == id && forall j :: 0 <= j < k ==> t[j].id != id
    ensures k < 0 ==> forall j :: 0 <= j < |t| ==> t[j].id != id
  {
    if |t| == 0 then -1
    else if t[0].id == id then 0
    else
      var k := SaleIndex(t[1..], id);
      if k < 0 then -1 else k + 1
  }

  /** `SELECT COUNT(*) FROM products WHERE id = ?` is positive. */
  predicate HasProduct(t: seq<Product>, id: int) {
    ProductIndex(t, id) >= 0
  }

  /** `SELECT COUNT(*) FROM clients WHERE id = ?` is positive. */
  predicate HasClient(t: seq<Client>, id: int) {
    ClientIndex(t, id) >= 0
  }

  /** Some sale header has the given id. */
  predicate HasSale(t: seq<SaleHeader>, id: int) {
    SaleIndex(t, id) >= 0
  }

  /**
   * The database connection the repositories share. Its fields are the
   * tables; every repository method reads or reassigns them.
   */
  class Database {
    var products: seq<Product>
    var clients: seq<Client>
    var sales: seq<SaleHeader>
    var saleItems: seq<ItemRow>
    var nextProductId: int
    var nextClientId: int
    var nextSaleId: int

    function State(): Tables
      reads this
    {
      Tables(products, clients, sales, saleItems, nextProductId, nextClientId, nextSaleId)
    }

    predicate Valid()
      reads this
    {
      Consistent(State())
    }

    constructor ()
      ensures Valid() && State() == Empty
    {
      products, clients, sales, saleItems := [], [], [], [];
      nextProductId, nextClientId, nextSaleId := 1, 1, 1;
    }
  }
}
