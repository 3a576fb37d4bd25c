/**
 * The clients service: field and id checks in front of the clients
 * repository. A rejected request answers `InvalidInput` and never reaches
 * the repository; an accepted one is passed through unchanged.
 */
module ClientService {
  import opened Domain
  import opened Store
  import Clients

  /** The field rule of creation and update: name, national id and email all present. */
  predicate AcceptableClient(c: Client) {
    c.nombre != [] && c.cedula != [] && c.email != []
  }

  /**
   * The check in front of `Create`. There is no uniqueness check on the
   * national id, so `Conflict` is never the answer.
   */
  function CreateCheck(c: Client): (r: Option<Error>)
    ensures r.None? <==> AcceptableClient(c)
    ensures r.Some? ==> r.value == InvalidInput
  {
    if c.nombre == [] || c.cedula == [] || c.email == [] then Some(InvalidInput) else None
  }

  /** The check in front of `Update`: the same field rule, and a positive id. */
  function UpdateCheck(id: int, c: Client): (r: Option<Error>)
    ensures r.None? <==> id > 0 && AcceptableClient(c)
    ensures r.Some? ==> r.value == InvalidInput
  {
    if id <= 0 || c.nombre == [] || c.cedula == [] || c.email == [] then Some(InvalidInput) else None
  }

  /** The check in front of `Delete`: a positive id. */
  function DeleteCheck(id: int): (r: Option<Error>)
    ensures r.None? <==> id > 0
    ensures r.Some? ==> r.value == InvalidInput
  {
    if id <= 0 then Some(InvalidInput) else None
  }

  /**
   * The creation check admits exactly the clients whose insertion keeps the
   * store's business rule (every client field present).
   */
  lemma CreateCheckKeepsRule(s: Tables, c: Client)
    requires Sound(s)
    ensures CreateCheck(c).None? <==> Sound(s.(clients := s.clients + [c.(id := s.nextClientId)]))
  {
    var t := s.clients + [c.(id := s.nextClientId)];
    assert t[|s.clients|] == c.(id := s.nextClientId);
  }

  /**
   * On an existing row, the update check admits exactly the replacements that
   * keep the business rule.
   */
  lemma UpdateCheckKeepsRule(s: Tables, id: int, c: Client)
    requires Consistent(s) && Sound(s)
    requires HasClient(s.clients, id)
    ensures UpdateCheck(id, c).None? <==> Sound(s.(clients := Clients.Replaced(s.clients, id, c)))
  {
    var k := ClientIndex(s.clients, id);
    assert Clients.Replaced(s.clients, id, c)[k] == Client(id, c.nombre, c.cedula, c.email);
  }

  /** Deleting rows keeps the business rule. */
  lemma DeleteKeepsRule(s: Tables, id: int)
    requires Sound(s)
    ensures Sound(s.(clients := Clients.Removed(s.clients, id)))
  {
    var r := Clients.Removed(s.clients, id);
    forall k | 0 <= k < |r|
      ensures r[k].nombre != [] && r[k].cedula != [] && r[k].email != []
    {
      var j :| 0 <= j < |s.clients| && s.clients[j] == r[k];
    }
  }

  class ClientService {
    const repo: Clients.ClientRepo

    constructor (repo: Clients.ClientRepo)
      ensures this.repo == repo
    {
      this.repo := repo;
    }

    /** Checks the fields, then stores the client and returns it with its new id. */
    method Create(c: Client) returns (r: Result<Client>)
      requires repo.db.Valid()
      modifies repo.db
      ensures repo.db.Valid()
      ensures r.Err? <==> !AcceptableClient(c)
      ensures r.Err? ==> r.error == InvalidInput && repo.db.State() == old(repo.db.State())
      ensures r.Ok? ==> r.value == c.(id := old(repo.db.nextClientId))
      ensures r.Ok? ==>
        repo.db.State() == old(repo.db.State()).(clients := old(repo.db.clients) + [r.value], nextClientId := r.value.id + 1)
      ensures Sound(old(repo.db.State())) ==> Sound(repo.db.State())
    {
      var e := CreateCheck(c);
      if e.Some? {
        return Err(e.value);
      }
      if Sound(repo.db.State()) {
        CreateCheckKeepsRule(repo.db.State(), c);
      }
      var created := repo.Create(c);
      r := Ok(created);
    }

    /** Every row, newest first, straight from the repository. */
    method List() returns (r: seq<Client>)
      requires repo.db.Valid()
      ensures r == Clients.NewestFirst(repo.db.clients)
      ensures forall i, j :: 0 <= i < j < |r| ==> r[i].id > r[j].id
    {
      r := repo.List();
    }

    /** Checks id and fields, then replaces the row with that id. */
    method Update(id: int, c: Client) returns (e: Option<Error>)
      requires repo.db.Valid()
      modifies repo.db
      ensures repo.db.Valid()
      ensures e == UpdateCheck(id, c)
      ensures e.Some? ==> repo.db.State() == old(repo.db.State())
      ensures e.None? ==> repo.db.State() == old(repo.db.State()).(clients := Clients.Replaced(old(repo.db.clients), id, c))
      ensures Sound(old(repo.db.State())) ==> Sound(repo.db.State())
    {
      e := UpdateCheck(id, c);
      if e.Some? {
        return;
      }
      if Sound(repo.db.State()) {
        if HasClient(repo.db.clients, id) {
          UpdateCheckKeepsRule(repo.db.State(), id, c);
        } else {
          Clients.ReplaceMissing(repo.db.clients, id, c);
        }
      }
      repo.Update(id, c);
    }

    /** Checks the id, then removes the row with that id. */
    method Delete(id: int) returns (e: Option<Error>)
      requires repo.db.Valid()
      modifies repo.db
      ensures repo.db.Valid()
      ensures e == DeleteCheck(id)
      ensures e.Some? ==> repo.db.State() == old(repo.db.State())
      ensures e.None? ==> repo.db.State() == old(repo.db.State()).(clients := Clients.Removed(old(repo.db.clients), id))
      ensures Sound(old(repo.db.State())) ==> Sound(repo.db.State())
    {
      e := DeleteCheck(id);
      if e.Some? {
        return;
      }
      if Sound(repo.db.State()) {
        DeleteKeepsRule(repo.db.State(), id);
      }
      repo.Delete(id);
    }
  }
}
