/**
 * The clients repository: create, list, update and delete over the
 * `clients` table of the shared database. Storage errors of the driver
 * are not modelled, so every operation here succeeds.
 */
module Clients {
  import opened Domain
  import opened Store

  /** The table after `UPDATE clients SET nombre=?, cedula=?, email=? WHERE id=?`. */
  function Replaced(t: seq<Client>, id: int, c: Client): (r: seq<Client>)
    ensures |r| == |t|
    ensures forall k :: 0 <= k < |t| ==> r[k].id == t[k].id
    ensures forall k :: 0 <= k < |t| && t[k].id == id ==> r[k] == Client(id, c.nombre, c.cedula, c.email)
    ensures forall k :: 0 <= k < |t| && t[k].id != id ==> r[k] == t[k]
  {
    seq(|t|, k requires 0 <= k < |t| =>
      if t[k].id == id then t[k].(nombre := c.nombre, cedula := c.cedula, email := c.email) else t[k])
  }

  /** The table after `DELETE FROM clients WHERE id=?`. */
  function Removed(t: seq<Client>, id: int): (r: seq<Client>)
    ensures |r| <= |t|
    ensures forall k :: 0 <= k < |r| ==> r[k].id != id && r[k] in t
  {
    if t == [] then []
    else if t[0].id == id then Removed(t[1..], id)
    else [t[0]] + Removed(t[1..], id)
  }

  /** The rows in `ORDER BY id DESC` order of an ascending table: the last inserted first. */
  function NewestFirst(t: seq<Client>): (r: seq<Client>)
    ensures |r| == |t|
    ensures forall k :: 0 <= k < |r| ==> r[k] == t[|t| - 1 - k]
  {
    seq(|t|, k requires 0 <= k < |t| => t[|t| - 1 - k])
  }

  /** Listing an ascending table gives strictly descending ids. */
  lemma ListedDescending(t: seq<Client>)
    requires ClientIdsAscending(t)
    ensures forall i, j :: 0 <= i < j < |t| ==> NewestFirst(t)[i].id > NewestFirst(t)[j].id
  {
  }

  /**
   * After an insertion the listing starts with the new row, fields intact,
   * followed by the earlier listing.
   */
  lemma CreatedListedFirst(t: seq<Client>, x: Client)
    ensures NewestFirst(t + [x]) == [x] + NewestFirst(t)
  {
    var r := NewestFirst(t + [x]);
    assert r[0] == x;
    assert forall k :: 1 <= k < |r| ==> r[k] == NewestFirst(t)[k - 1];
  }

  /** An update of a missing id changes nothing. */
  lemma ReplaceMissing(t: seq<Client>, id: int, c: Client)
    requires !HasClient(t, id)
    ensures Replaced(t, id, c) == t
  {
  }

  /** Deleting an id no row carries changes nothing. */
  lemma {:induction false} RemovedNone(t: seq<Client>, id: int)
    requires forall j :: 0 <= j < |t| ==> t[j].id != id
    ensures Removed(t, id) == t
  {
    if t != [] {
      RemovedNone(t[1..], id);
      assert [t[0]] + t[1..] == t;
    }
  }

  /** Deleting an id exactly one row carries removes that row and keeps the rest in order. */
  lemma {:induction false} RemovedAt(t: seq<Client>, id: int, k: int)
    requires 0 <= k < |t| && t[k].id == id
    requires forall j :: 0 <= j < |t| && j != k ==> t[j].id != id
    ensures Removed(t, id) == t[..k] + t[k + 1..]
  {
    var tail := t[1..];
    if k == 0 {
      RemovedNone(tail, id);
    } else {
      RemovedAt(tail, id, k - 1);
      assert [t[0]] + (tail[..k - 1] + tail[k..]) == t[..k] + t[k + 1..];
    }
  }

  /**
   * With unique ids, deleting removes exactly the row with that id and keeps
   * the others in order; deleting a missing id changes nothing.
   */
  lemma RemovedExactly(t: seq<Client>, id: int)
    requires ClientIdsAscending(t)
    ensures ClientIndex(t, id) < 0 ==> Removed(t, id) == t
    ensures ClientIndex(t, id) >= 0 ==>
      Removed(t, id) == t[..ClientIndex(t, id)] + t[ClientIndex(t, id) + 1..]
  {
    var k := ClientIndex(t, id);
    if k < 0 {
      RemovedNone(t, id);
    } else {
      forall j | 0 <= j < |t| && j != k
        ensures t[j].id != id
      {
        if j < k {
          assert t[j].id < t[k].id;
        } else {
          assert t[k].id < t[j].id;
        }
      }
      RemovedAt(t, id, k);
    }
  }

  /** Deleting keeps the rows in ascending id order. */
  lemma RemovedAscending(t: seq<Client>, id: int)
    requires ClientIdsAscending(t)
    ensures ClientIdsAscending(Removed(t, id))
  {
    RemovedExactly(t, id);
    var k := ClientIndex(t, id);
    if k >= 0 {
      DropAscending(t, k);
    }
  }

  /** Leaving one row out of an ascending table keeps it ascending. */
  lemma DropAscending(t: seq<Client>, k: int)
    requires ClientIdsAscending(t) && 0 <= k < |t|
    ensures ClientIdsAscending(t[..k] + t[k + 1..])
  {
    var r := t[..k] + t[k + 1..];
    forall i, j | 0 <= i < j < |r|
      ensures r[i].id < r[j].id
    {
      var i' := if i < k then i else i + 1;
      var j' := if j < k then j else j + 1;
      assert r[i] == t[i'] && r[j] == t[j'];
    }
  }

  class ClientRepo {
    const db: Database

    constructor (db: Database)
      ensures this.db == db
    {
      this.db := db;
    }

    /**
     * `INSERT INTO clients`: stores the client under the next id and returns
     * it with that id filled in (the source writes it back into `c.ID`).
     */
    method Create(c: Client) returns (created: Client)
      requires db.Valid()
      modifies db
      ensures db.Valid()
      ensures created == c.(id := old(db.nextClientId))
      ensures forall k :: 0 <= k < |old(db.clients)| ==> old(db.clients)[k].id != created.id
      ensures db.State() == old(db.State()).(clients := old(db.clients) + [created], nextClientId := created.id + 1)
    {
      var id := db.nextClientId;
      created := c.(id := id);
      db.clients := db.clients + [created];
      db.nextClientId := id + 1;
    }

    /** `SELECT ... FROM clients ORDER BY id DESC`: every row, newest first. */
    method List() returns (r: seq<Client>)
      requires db.Valid()
      ensures r == NewestFirst(db.clients)
      ensures forall i, j :: 0 <= i < j < |r| ==> r[i].id > r[j].id
    {
      r := [];
      var i := |db.clients|;
      while i > 0
        invariant 0 <= i <= |db.clients|
        invariant |r| == |db.clients| - i
        invariant forall k :: 0 <= k < |r| ==> r[k] == db.clients[|db.clients| - 1 - k]
      {
        i := i - 1;
        r := r + [db.clients[i]];
      }
      ListedDescending(db.clients);
    }

    /** Replaces name, national id and email of the row with that id; a missing id changes nothing. */
    method Update(id: int, c: Client)
      requires db.Valid()
      modifies db
      ensures db.Valid()
      ensures db.State() == old(db.State()).(clients := Replaced(old(db.clients), id, c))
    {
      db.clients := Replaced(db.clients, id, c);
    }

    /** Removes the row with that id; a missing id changes nothing. */
    method Delete(id: int)
      requires db.Valid()
      modifies db
      ensures db.Valid()
      ensures db.State() == old(db.State()).(clients := Removed(old(db.clients), id))
    {
      RemovedAscending(db.clients, id);
      db.clients := Removed(db.clients, id);
    }
  }
}
