/**
 * The products repository: create, list, update and delete over the
 * `products` table of the shared database. Storage errors of the driver
 * are not modelled, so every operation here succeeds.
 */
module Products {
  import opened Domain
  import opened Store

  /** The table after `UPDATE products SET nombre=?, stock=?, precio=? WHERE id=?`. */
  function Replaced(t: seq<Product>, id: int, p: Product): (r: seq<Product>)
    ensures |r| == |t|
    ensures forall k :: 0 <= k < |t| ==> r[k].id == t[k].id
    ensures forall k :: 0 <= k < |t| && t[k].id == id ==> r[k] == Product(id, p.nombre, p.stock, p.precio)
    ensures forall k :: 0 <= k < |t| && t[k].id != id ==> r[k] == t[k]
  {
    seq(|t|, k requires 0 <= k < |t| =>
      if t[k].id == id then t[k].(nombre := p.nombre, stock := p.stock, precio := p.precio) else t[k])
  }

  /** The table after `DELETE FROM products WHERE id=?`. */
  function Removed(t: seq<Product>, id: int): (r: seq<Product>)
    ensures |r| <= |t|
    ensures forall k :: 0 <= k < |r| ==> r[k].id != id && r[k] in t
  {
    if t == [] then []
    else if t[0].id == id then Removed(t[1..], id)
    else [t[0]] + Removed(t[1..], id)
  }

  /** The rows in `ORDER BY id DESC` order of an ascending table: the last inserted first. */
  function NewestFirst(t: seq<Product>): (r: seq<Product>)
    ensures |r| == |t|
    ensures forall k :: 0 <= k < |r| ==> r[k] == t[|t| - 1 - k]
  {
    seq(|t|, k requires 0 <= k < |t| => t[|t| - 1 - k])
  }

  /** Listing an ascending table gives strictly descending ids. */
  lemma ListedDescending(t: seq<Product>)
    requires ProductIdsAscending(t)
    ensures forall i, j :: 0 <= i < j < |t| ==> NewestFirst(t)[i].id > NewestFirst(t)[j].id
  {
  }

  /**
   * After an insertion the listing starts with the new row, fields intact,
   * followed by the earlier listing.
   */
  lemma CreatedListedFirst(t: seq<Product>, x: Product)
    ensures NewestFirst(t + [x]) == [x] + NewestFirst(t)
  {
    var r := NewestFirst(t + [x]);
    assert r[0] == x;
    assert forall k :: 1 <= k < |r| ==> r[k] == NewestFirst(t)[k - 1];
  }

  /** An update of a missing id changes nothing. */
  lemma ReplaceMissing(t: seq<Product>, id: int, p: Product)
    requires !HasProduct(t, id)
    ensures Replaced(t, id, p) == t
  {
  }

  /** Deleting an id no row carries changes nothing. */
  lemma {:induction false} RemovedNone(t: seq<Product>, id: int)
    requires forall j :: 0 <= j < |t| ==> t[j].id != id
    ensures Removed(t, id) == t
  {
    if t != [] {
      RemovedNone(t[1..], id);
      assert [t[0]] + t[1..] == t;
    }
  }

  /** Deleting an id exactly one row carries removes that row and keeps the rest in order. */
  lemma {:induction false} RemovedAt(t: seq<Product>, id: int, k: int)
    requires 0 <= k < |t| && t[k].id == id
    requires forall j :: 0 <= j < |t| && j != k ==> t[j].id != id
    ensures Removed(t, id) == t[..k] + t[k + 1..]
  {
    var tail := t[1..];
    if k == 0 {
      RemovedNone(tail, id);
    } else {
      RemovedAt(tail, id, k - 1);
      assert [t[0]] + (tail[..k - 1] + tail[k..]) == t[..k] + t[k + 1..];
    }
  }

  /**
   * With unique ids, deleting removes exactly the row with that id and keeps
   * the others in order; deleting a missing id changes nothing.
   */
  lemma RemovedExactly(t: seq<Product>, id: int)
    requires ProductIdsAscending(t)
    ensures ProductIndex(t, id) < 0 ==> Removed(t, id) == t
    ensures ProductIndex(t, id) >= 0 ==>
      Removed(t, id) == t[..ProductIndex(t, id)] + t[ProductIndex(t, id) + 1..]
  {
    var k := ProductIndex(t, id);
    if k < 0 {
      RemovedNone(t, id);
    } else {
      forall j | 0 <= j < |t| && j != k
        ensures t[j].id != id
      {
        if j < k {
          assert t[j].id < t[k].id;
        } else {
          assert t[k].id < t[j].id;
        }
      }
      RemovedAt(t, id, k);
    }
  }

  /** Deleting keeps the rows in ascending id order. */
  lemma RemovedAscending(t: seq<Product>, id: int)
    requires ProductIdsAscending(t)
    ensures ProductIdsAscending(Removed(t, id))
  {
    RemovedExactly(t, id);
    var k := ProductIndex(t, id);
    if k >= 0 {
      DropAscending(t, k);
    }
  }

  /** Leaving one row out of an ascending table keeps it ascending. */
  lemma DropAscending(t: seq<Product>, k: int)
    requires ProductIdsAscending(t) && 0 <= k < |t|
    ensures ProductIdsAscending(t[..k] + t[k + 1..])
  {
    var r := t[..k] + t[k + 1..];
    forall i, j | 0 <= i < j < |r|
      ensures r[i].id < r[j].id
    {
      var i' := if i < k then i else i + 1;
      var j' := if j < k then j else j + 1;
      assert r[i] == t[i'] && r[j] == t[j'];
    }
  }

  class ProductRepo {
    const db: Database

    constructor (db: Database)
      ensures this.db == db
    {
      this.db := db;
    }

    /**
     * `INSERT INTO products`: stores the product under the next id and returns
     * it with that id filled in (the source writes it back into `p.ID`).
     */
    method Create(p: Product) returns (created: Product)
      requires db.Valid()
      modifies db
      ensures db.Valid()
      ensures created == p.(id := old(db.nextProductId))
      ensures forall k :: 0 <= k < |old(db.products)| ==> old(db.products)[k].id != created.id
      ensures db.State() == old(db.State()).(products := old(db.products) + [created], nextProductId := created.id + 1)
    {
      var id := db.nextProductId;
      created := p.(id := id);
      db.products := db.products + [created];
      db.nextProductId := id + 1;
    }

    /** `SELECT ... FROM products ORDER BY id DESC`: every row, newest first. */
    method List() returns (r: seq<Product>)
      requires db.Valid()
      ensures r == NewestFirst(db.products)
      ensures forall i, j :: 0 <= i < j < |r| ==> r[i].id > r[j].id
    {
      r := [];
      var i := |db.products|;
      while i > 0
        invariant 0 <= i <= |db.products|
        invariant |r| == |db.products| - i
        invariant forall k :: 0 <= k < |r| ==> r[k] == db.products[|db.products| - 1 - k]
      {
        i := i - 1;
        r := r + [db.products[i]];
      }
      ListedDescending(db.products);
    }

    /** Replaces name, stock and price of the row with that id; a missing id changes nothing. */
    method Update(id: int, p: Product)
      requires db.Valid()
      modifies db
      ensures db.Valid()
      ensures db.State() == old(db.State()).(products := Replaced(old(db.products), id, p))
    {
      db.products := Replaced(db.products, id, p);
    }

    /** Removes the row with that id; a missing id changes nothing. */
    method Delete(id: int)
      requires db.Valid()
      modifies db
      ensures db.Valid()
      ensures db.State() == old(db.State()).(products := Removed(old(db.products), id))
    {
      RemovedAscending(db.products, id);
      db.products := Removed(db.products, id);
    }
  }
}
