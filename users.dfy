/**
 * The `User` table as the authentication code sees it: rows with a unique
 * email and an auto-incremented id, queried by email (`User.findOne`) and by
 * primary key (`User.findByPk`), and extended by `User.create`.
 */
module Users {
  import opened Wrappers

  datatype User = User(
    id: int,
    name: string,
    email: string,
    passwordHash: string,
    role: string,
    branchId: Option<int>,
    customerId: Option<int>,
    allowedIPs: Option<string>)

  /** The values of the `role` enumeration */
  const Roles: seq<string> := ["ADMIN", "HO", "BRANCH", "SALES", "CUSTOMER"]

  /** `User.findOne({ where: { email } })` */
  function FindByEmail(rows: seq<User>, email: string): (r: Option<User>)
    ensures r.Some? ==> r.value in rows && r.value.email == email
    ensures r.None? <==> forall k :: 0 <= k < |rows| ==> rows[k].email != email
    decreases |rows|
  {
    if |rows| == 0 then None
    else if rows[0].email == email then Some(rows[0])
    else FindByEmail(rows[1..], email)
  }

  /** `User.findByPk(id)` */
  function FindById(rows: seq<User>, id: int): (r: Option<User>)
    ensures r.Some? ==> r.value in rows && r.value.id == id
    ensures r.None? <==> forall k :: 0 <= k < |rows| ==> rows[k].id != id
    decreases |rows|
  {
    if |rows| == 0 then None
    else if rows[0].id == id then Some(rows[0])
    else FindById(rows[1..], id)
  }

  /** The table's key constraints: ids and emails are unique */
  ghost predicate UniqueKeys(rows: seq<User>) {
    forall i, j :: 0 <= i < j < |rows| ==> rows[i].id != rows[j].id && rows[i].email != rows[j].email
  }

  class UserStore {
    var rows: seq<User>
    var nextId: int

    ghost predicate Valid()
      reads this
    {
      UniqueKeys(rows) && forall k :: 0 <= k < |rows| ==> rows[k].id < nextId
    }

    constructor ()
      ensures Valid() && rows == []
    {
      rows := [];
      nextId := 1;
    }

    /** `User.create(...)`: inserts one row with the next id, or fails (a
        storage error, or the unique constraint on `email`) and inserts nothing.
        A new user has no IP restriction. */
    method Create(name: string, email: string, passwordHash: string, role: string,
                  branchId: Option<int>, customerId: Option<int>, storeFails: bool)
      returns (created: Option<User>)
      requires Valid()
      modifies this
      ensures Valid()
      ensures created.Some? <==> !storeFails && FindByEmail(old(rows), email).None?
      ensures created.Some? ==>
        && created.value == User(old(nextId), name, email, passwordHash, role, branchId, customerId, None)
        && rows == old(rows) + [created.value]
        && nextId == old(nextId) + 1
      ensures created.None? ==> rows == old(rows) && nextId == old(nextId)
    {
      if storeFails || FindByEmail(rows, email).Some? {
        return None;
      }
      var u := User(nextId, name, email, passwordHash, role, branchId, customerId, None);
      rows := rows + [u];
      nextId := nextId + 1;
      created := Some(u);
    }
  }
}
