/**
 * The products service: field and id checks in front of the products
 * repository. A rejected request answers `InvalidInput` and never reaches
 * the repository; an accepted one is passed through unchanged.
 */
module ProductService {
  import opened Domain
  import opened Store
  import Products

  /** The field rule of creation and update: a name, a stock not below zero, a positive price. */
  predicate AcceptableProduct(p: Product) {
    p.nombre != [] && p.stock >= 0 && p.precio > 0
  }

  /** The check in front of `Create`; stock 0 passes. */
  function CreateCheck(p: Product): (r: Option<Error>)
    ensures r.None? <==> AcceptableProduct(p)
    ensures r.Some? ==> r.value == InvalidInput
  {
    if p.nombre == [] || p.stock < 0 || p.precio <= 0 then Some(InvalidInput) else None
  }

  /** The check in front of `Update`: the same field rule, and a positive id. */
  function UpdateCheck(id: int, p: Product): (r: Option<Error>)
    ensures r.None? <==> id > 0 && AcceptableProduct(p)
    ensures r.Some? ==> r.value == InvalidInput
  {
    if id <= 0 || p.nombre == [] || p.stock < 0 || p.precio <= 0 then Some(InvalidInput) else None
  }

  /** The check in front of `Delete`: a positive id. */
  function DeleteCheck(id: int): (r: Option<Error>)
    ensures r.None? <==> id > 0
    ensures r.Some? ==> r.value == InvalidInput
  {
    if id <= 0 then Some(InvalidInput) else None
  }

  /**
   * The creation check admits exactly the products whose insertion keeps the
   * store's business rule (stock not negative, price positive) and that have a name.
   */
  lemma CreateCheckKeepsRule(s: Tables, p: Product)
    requires Sound(s)
    ensures CreateCheck(p).None? <==>
      p.nombre != [] && Sound(s.(products := s.products + [p.(id := s.nextProductId)]))
  {
    var t := s.products + [p.(id := s.nextProductId)];
    assert t[|s.products|] == p.(id := s.nextProductId);
  }

  /**
   * On an existing row, the update check admits exactly the replacements that
   * keep the business rule and have a name.
   */
  lemma UpdateCheckKeepsRule(s: Tables, id: int, p: Product)
    requires Consistent(s) && Sound(s)
    requires HasProduct(s.products, id)
    ensures UpdateCheck(id, p).None? <==>
      p.nombre != [] && Sound(s.(products := Products.Replaced(s.products, id, p)))
  {
    var k := ProductIndex(s.products, id);
    assert Products.Replaced(s.products, id, p)[k] == Product(id, p.nombre, p.stock, p.precio);
  }

  /** Deleting rows keeps the business rule. */
  lemma DeleteKeepsRule(s: Tables, id: int)
    requires Sound(s)
    ensures Sound(s.(products := Products.Removed(s.products, id)))
  {
    var r := Products.Removed(s.products, id);
    forall k | 0 <= k < |r|
      ensures r[k].stock >= 0 && r[k].precio > 0
    {
      var j :| 0 <= j < |s.products| && s.products[j] == r[k];
    }
  }

  class ProductService {
    const repo: Products.ProductRepo

    constructor (repo: Products.ProductRepo)
      ensures this.repo == repo
    {
      this.repo := repo;
    }

    /** Checks the fields, then stores the product and returns it with its new id. */
    method Create(p: Product) returns (r: Result<Product>)
      requires repo.db.Valid()
      modifies repo.db
      ensures repo.db.Valid()
      ensures r.Err? <==> !AcceptableProduct(p)
      ensures r.Err? ==> r.error == InvalidInput && repo.db.State() == old(repo.db.State())
      ensures r.Ok? ==> r.value == p.(id := old(repo.db.nextProductId))
      ensures r.Ok? ==>
        repo.db.State() == old(repo.db.State()).(products := old(repo.db.products) + [r.value], nextProductId := r.value.id + 1)
      ensures Sound(old(repo.db.State())) ==> Sound(repo.db.State())
    {
      var e := CreateCheck(p);
      if e.Some? {
        return Err(e.value);
      }
      if Sound(repo.db.State()) {
        CreateCheckKeepsRule(repo.db.State(), p);
      }
      var created := repo.Create(p);
      r := Ok(created);
    }

    /** Every row, newest first, straight from the repository. */
    method List() returns (r: seq<Product>)
      requires repo.db.Valid()
      ensures r == Products.NewestFirst(repo.db.products)
      ensures forall i, j :: 0 <= i < j < |r| ==> r[i].id > r[j].id
    {
      r := repo.List();
    }

    /** Checks id and fields, then replaces the row with that id. */
    method Update(id: int, p: Product) returns (e: Option<Error>)
      requires repo.db.Valid()
      modifies repo.db
      ensures repo.db.Valid()
      ensures e == UpdateCheck(id, p)
      ensures e.Some? ==> repo.db.State() == old(repo.db.State())
      ensures e.None? ==> repo.db.State() == old(repo.db.State()).(products := Products.Replaced(old(repo.db.products), id, p))
      ensures Sound(old(repo.db.State())) ==> Sound(repo.db.State())
    {
      e := UpdateCheck(id, p);
      if e.Some? {
        return;
      }
      if Sound(repo.db.State()) {
        if HasProduct(repo.db.products, id) {
          UpdateCheckKeepsRule(repo.db.State(), id, p);
        } else {
          Products.ReplaceMissing(repo.db.products, id, p);
        }
      }
      repo.Update(id, p);
    }

    /** Checks the id, then removes the row with that id. */
    method Delete(id: int) returns (e: Option<Error>)
      requires repo.db.Valid()
      modifies repo.db
      ensures repo.db.Valid()
      ensures e == DeleteCheck(id)
      ensures e.Some? ==> repo.db.State() == old(repo.db.State())
      ensures e.None? ==> repo.db.State() == old(repo.db.State()).(products := Products.Removed(old(repo.db.products), id))
      ensures Sound(old(repo.db.State())) ==> Sound(repo.db.State())
    {
      e := DeleteCheck(id);
      if e.Some? {
        return;
      }
      if Sound(repo.db.State()) {
        DeleteKeepsRule(repo.db.State(), id);
      }
      repo.Delete(id);
    }
  }
}
