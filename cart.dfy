/**
 * The sale cart of the browser client: a list of entries the page edits in
 * place (add with merging, recompute of subtotals, removal by position)
 * and the submission that turns it into the body of a sale request.
 * Numbers read from form fields are integers or `NaN`.
 */
module Cart {
  import opened Domain
  import Ledger

  /** What `Number(...)` makes of a form field: an integer or `NaN`. */
  datatype JsNumber = NaN | Num(n: int)

  /** `!x` for a number: true for 0 and for `NaN`. */
  predicate Falsy(x: JsNumber) {
    x.NaN? || x.n == 0
  }

  /** A product as the page cached it from the products listing. */
  datatype CachedProduct = CachedProduct(id: int, nombre: string, precio: Money)

  /** An entry of the cart; the unit price is the cached price when the entry was made. */
  datatype CartItem = CartItem(productId: int, nombre: string, cantidad: int, precioUnitario: Money, subtotal: Money)

  /** The body of the sale request. */
  datatype Payload = Payload(clientId: int, items: seq<SaleItem>)

  /** No two entries are for the same product. */
  predicate DistinctProducts(items: seq<CartItem>) {
    forall i, j :: 0 <= i < j < |items| ==> items[i].productId != items[j].productId
  }

  /** The position of the first cached product with that id, or -1 (`Array.prototype.find`). */
  function FindCached(cache: seq<CachedProduct>, id: int): (k: int)
    ensures -1 <= k < |cache|
    ensures k >= 0 ==> cache[k].id == id && forall j :: 0 <= j < k ==> cache[j].id != id
    ensures k < 0 ==> forall j :: 0 <= j < |cache| ==> cache[j].id != id
  {
    if cache == [] then -1
    else if cache[0].id == id then 0
    else
      var k := FindCached(cache[1..], id);
      if k < 0 then -1 else k + 1
  }

  /** The position of the first entry for that product, or -1. */
  function FindItem(items: seq<CartItem>, id: int): (k: int)
    ensures -1 <= k < |items|
    ensures k >= 0 ==> items[k].productId == id && forall j :: 0 <= j < k ==> items[j].productId != id
    ensures k < 0 ==> forall j :: 0 <= j < |items| ==> items[j].productId != id
  {
    if items == [] then -1
    else if items[0].productId == id then 0
    else
      var k := FindItem(items[1..], id);
      if k < 0 then -1 else k + 1
  }

  /** The cart after the recompute: every subtotal is quantity times unit price. */
  function Recalculated(items: seq<CartItem>): (r: seq<CartItem>)
    ensures |r| == |items|
    ensures forall k :: 0 <= k < |r| ==> r[k] == items[k].(subtotal := items[k].cantidad * items[k].precioUnitario)
  {
    seq(|items|, k requires 0 <= k < |items| => items[k].(subtotal := items[k].cantidad * items[k].precioUnitario))
  }

  /** The displayed total: the sum of the subtotals. */
  function CartTotal(items: seq<CartItem>): Money {
    if items == [] then 0 else CartTotal(items[..|items| - 1]) + items[|items| - 1].subtotal
  }

  /**
   * The cart after adding `cantidad` of product `productId`, before the
   * recompute: nothing happens for a zero or `NaN` id or quantity, or for a
   * product not in the cache; an existing entry for the product grows by the
   * quantity; otherwise a new entry with the cached name and price is appended.
   */
  function Added(items: seq<CartItem>, cache: seq<CachedProduct>, productId: JsNumber, cantidad: JsNumber): (r: seq<CartItem>)
    ensures |items| <= |r| <= |items| + 1
    ensures forall k :: 0 <= k < |items| ==> r[k].productId == items[k].productId && r[k].precioUnitario == items[k].precioUnitario
  {
    if Falsy(productId) || Falsy(cantidad) then items
    else
      var k := FindCached(cache, productId.n);
      if k < 0 then items
      else
        var j := FindItem(items, productId.n);
        if j >= 0 then items[j := items[j].(cantidad := items[j].cantidad + cantidad.n)]
        else items + [CartItem(productId.n, cache[k].nombre, cantidad.n, cache[k].precio, 0)]
  }

  /** Whether an add request gets past the guards. */
  predicate AddAccepted(cache: seq<CachedProduct>, productId: JsNumber, cantidad: JsNumber) {
    !Falsy(productId) && !Falsy(cantidad) && FindCached(cache, productId.n) >= 0
  }

  /**
   * Where `splice(idx, 1)` removes: `NaN` counts as 0, a negative index
   * counts from the end (clamped at 0), and an index past the end removes nothing.
   */
  function SpliceStart(len: nat, idx: JsNumber): (start: int)
    ensures 0 <= start <= len
  {
    if idx.NaN? then 0
    else if idx.n < 0 then (if len + idx.n < 0 then 0 else len + idx.n)
    else if idx.n > len then len
    else idx.n
  }

  /** The cart after `splice(idx, 1)`. */
  function Spliced(items: seq<CartItem>, idx: JsNumber): (r: seq<CartItem>)
    ensures |r| == if SpliceStart(|items|, idx) < |items| then |items| - 1 else |items|
    ensures forall k :: 0 <= k < |r| ==> r[k] == items[if k < SpliceStart(|items|, idx) then k else k + 1]
  {
    var start := SpliceStart(|items|, idx);
    if start < |items| then items[..start] + items[start + 1..] else items
  }

  /** The request items: product, quantity and unit price of each entry, in cart order; no subtotal is sent. */
  function PayloadItems(items: seq<CartItem>): (r: seq<SaleItem>)
    ensures |r| == |items|
    ensures forall k :: 0 <= k < |r| ==> r[k] == SaleItem(items[k].productId, items[k].cantidad, items[k].precioUnitario, 0)
  {
    seq(|items|, k requires 0 <= k < |items| => SaleItem(items[k].productId, items[k].cantidad, items[k].precioUnitario, 0))
  }

  // ---------------------------------------------------------------------
  // Properties of the cart operations

  /** Adding keeps the entries' products pairwise distinct. */
  lemma AddedDistinct(items: seq<CartItem>, cache: seq<CachedProduct>, productId: JsNumber, cantidad: JsNumber)
    requires DistinctProducts(items)
    ensures DistinctProducts(Added(items, cache, productId, cantidad))
  {
    if AddAccepted(cache, productId, cantidad) && FindItem(items, productId.n) < 0 {
      var r := Added(items, cache, productId, cantidad);
      assert forall i :: 0 <= i < |items| ==> r[i] == items[i];
    }
  }

  /**
   * An accepted add of a product already in the cart raises that entry's
   * quantity and changes nothing else; the cart does not grow.
   */
  lemma AddedMerges(items: seq<CartItem>, cache: seq<CachedProduct>, productId: JsNumber, cantidad: JsNumber)
    requires AddAccepted(cache, productId, cantidad)
    requires exists j :: 0 <= j < |items| && items[j].productId == productId.n
    ensures var r := Added(items, cache, productId, cantidad); var j := FindItem(items, productId.n);
      && |r| == |items| && 0 <= j < |items|
      && r[j].cantidad == items[j].cantidad + cantidad.n
      && r[j] == items[j].(cantidad := r[j].cantidad)
      && forall i :: 0 <= i < |items| && i != j ==> r[i] == items[i]
  {
  }

  /**
   * An accepted add of a product not in the cart appends one entry with the
   * cached name and price as they are now, keeping all earlier entries.
   */
  lemma AddedAppends(items: seq<CartItem>, cache: seq<CachedProduct>, productId: JsNumber, cantidad: JsNumber)
    requires AddAccepted(cache, productId, cantidad)
    requires forall j :: 0 <= j < |items| ==> items[j].productId != productId.n
    ensures var r := Added(items, cache, productId, cantidad); var p := cache[FindCached(cache, productId.n)];
      && |r| == |items| + 1 && r[..|items|] == items
      && r[|items|] == CartItem(productId.n, p.nombre, cantidad.n, p.precio, 0)
      && p.id == productId.n
  {
    var r := Added(items, cache, productId, cantidad);
    assert r[..|items|] == items;
  }

  /** A refused add (zero or `NaN` id or quantity, or an uncached product) leaves the cart alone. */
  lemma AddedRefused(items: seq<CartItem>, cache: seq<CachedProduct>, productId: JsNumber, cantidad: JsNumber)
    requires !AddAccepted(cache, productId, cantidad)
    ensures Added(items, cache, productId, cantidad) == items
  {
  }

  /** Removing at a position inside the cart deletes exactly that entry and keeps the others in order. */
  lemma SplicedAt(items: seq<CartItem>, idx: int)
    requires 0 <= idx < |items|
    ensures var r := Spliced(items, Num(idx));
      && |r| == |items| - 1
      && (forall k :: 0 <= k < idx ==> r[k] == items[k])
      && (forall k :: idx <= k < |r| ==> r[k] == items[k + 1])
  {
  }

  /** A `-1` removes the last entry, as `splice` counts negative positions from the end. */
  lemma SplicedNegative(items: seq<CartItem>)
    requires |items| > 0
    ensures Spliced(items, Num(-1)) == items[..|items| - 1]
  {
    assert items[|items|..] == [];
  }

  /** Removing never breaks the distinctness of the products. */
  lemma SplicedDistinct(items: seq<CartItem>, idx: JsNumber)
    requires DistinctProducts(items)
    ensures DistinctProducts(Spliced(items, idx))
  {
    var start := SpliceStart(|items|, idx);
    if start < |items| {
      var r := Spliced(items, idx);
      forall i, j | 0 <= i < j < |r|
        ensures r[i].productId != r[j].productId
      {
        var i' := if i < start then i else i + 1;
        var j' := if j < start then j else j + 1;
        assert i' < j';
      }
    }
  }

  /** The recompute keeps the products of the entries and their order; it is idempotent. */
  lemma RecalculatedStable(items: seq<CartItem>)
    ensures Recalculated(Recalculated(items)) == Recalculated(items)
    ensures DistinctProducts(items) ==> DistinctProducts(Recalculated(items))
  {
  }

  lemma {:induction false} CartTotalLineSum(items: seq<CartItem>)
    ensures CartTotal(Recalculated(items)) == Ledger.LineSum(PayloadItems(items))
  {
    if items != [] {
      var n := |items|;
      assert Recalculated(items)[..n - 1] == Recalculated(items[..n - 1]);
      assert PayloadItems(items) == PayloadItems(items[..n - 1]) + [PayloadItems(items)[n - 1]];
      CartTotalLineSum(items[..n - 1]);
      Ledger.LineSumSnoc(PayloadItems(items[..n - 1]), PayloadItems(items)[n - 1]);
    }
  }

  /**
   * The total the server computes for the submitted items equals the total
   * the cart displayed, whether or not the cached prices are still current:
   * the server totals the submitted unit prices.
   */
  lemma ServerTotalMatchesCart(items: seq<CartItem>)
    ensures Ledger.Total(Ledger.Priced(PayloadItems(items))) == CartTotal(Recalculated(items))
  {
    Ledger.TotalOfPriced(PayloadItems(items));
    CartTotalLineSum(items);
  }

  /** The cart of the sale page. */
  class SaleCart {
    var items: seq<CartItem>

    constructor ()
      ensures items == []
    {
      items := [];
    }

    /** Sets every subtotal to quantity times unit price and returns the displayed total. */
    method Recalc() returns (total: Money)
      modifies this
      ensures items == Recalculated(old(items))
      ensures total == CartTotal(items)
    {
      var i := 0;
      while i < |items|
        invariant 0 <= i <= |items| == |old(items)|
        invariant items[..i] == Recalculated(old(items))[..i]
        invariant items[i..] == old(items)[i..]
      {
        items := items[i := items[i].(subtotal := items[i].cantidad * items[i].precioUnitario)];
        i := i + 1;
      }
      assert items == items[..i];
      total := 0;
      var k := 0;
      while k < |items|
        invariant 0 <= k <= |items|
        invariant total == CartTotal(items[..k])
      {
        assert items[..k + 1][..k] == items[..k];
        total := total + items[k].subtotal;
        k := k + 1;
      }
      assert items[..k] == items;
    }

    /**
     * Adds `cantidad` of product `productId` (both as read from the form),
     * merging with an existing entry, and recomputes; a refused add changes
     * nothing and does not recompute.
     */
    method Add(cache: seq<CachedProduct>, productId: JsNumber, cantidad: JsNumber)
      modifies this
      ensures !AddAccepted(cache, productId, cantidad) ==> items == old(items)
      ensures AddAccepted(cache, productId, cantidad) ==> items == Recalculated(Added(old(items), cache, productId, cantidad))
      ensures DistinctProducts(old(items)) ==> DistinctProducts(items)
    {
      if Falsy(productId) || Falsy(cantidad) {
        return;
      }
      var k := FindCached(cache, productId.n);
      if k < 0 {
        return;
      }
      if DistinctProducts(items) {
        AddedDistinct(items, cache, productId, cantidad);
      }
      var j := FindItem(items, productId.n);
      if j >= 0 {
        items := items[j := items[j].(cantidad := items[j].cantidad + cantidad.n)];
      } else {
        items := items + [CartItem(productId.n, cache[k].nombre, cantidad.n, cache[k].precio, 0)];
      }
      RecalculatedStable(items);
      var _ := Recalc();
    }

    /** The remove button: `splice(idx, 1)`, then the recompute. */
    method Remove(idx: JsNumber) returns (total: Money)
      modifies this
      ensures items == Recalculated(Spliced(old(items), idx))
      ensures total == CartTotal(items)
      ensures DistinctProducts(old(items)) ==> DistinctProducts(items)
    {
      if DistinctProducts(items) {
        SplicedDistinct(items, idx);
        RecalculatedStable(Spliced(items, idx));
      }
      var start := SpliceStart(|items|, idx);
      if start < |items| {
        items := items[..start] + items[start + 1..];
      }
      total := Recalc();
    }

    /**
     * The submission: refused without a client or with an empty cart;
     * otherwise the request body. `accepted` is whether the server took the
     * sale; only then is the cart emptied.
     */
    method Confirm(clientId: JsNumber, accepted: bool) returns (r: Option<Payload>)
      modifies this
      ensures r.None? <==> Falsy(clientId) || |old(items)| == 0
      ensures r.Some? ==> r.value == Payload(clientId.n, PayloadItems(old(items)))
      ensures if r.Some? && accepted then items == [] else items == old(items)
    {
      if Falsy(clientId) || |items| == 0 {
        return None;
      }
      r := Some(Payload(clientId.n, PayloadItems(items)));
      if accepted {
        items := [];
        var _ := Recalc();
      }
    }
  }
}
