/** Users, and the table that keeps them with unique emails and usernames. */
module Users {

  datatype Option<+T> = None | Some(value: T)
  datatype Error = NotFound | Conflict | Internal
  datatype Result<+T> = Ok(value: T) | Err(error: Error)

  const ROLE_USER := "user"
  const ROLE_ADMIN := "admin"

  datatype User = User(id: int, email: string, username: string, password: string, name: string, role: string)

  /** A user as it looks outside the table: without its password hash. */
  function Public(u: User): User { u.(password := "") }

  /** The table; ids are handed out in order and never again. */
  datatype Db = Db(rows: map<int, User>, nextId: int) {
    ghost predicate Valid() {
      && 1 <= nextId
      && (forall id | id in rows :: rows[id].id == id && 1 <= id < nextId)
      && (forall a, b | a in rows && b in rows && a != b :: rows[a].email != rows[b].email)
      && (forall a, b | a in rows && b in rows && a != b :: rows[a].username != rows[b].username)
    }
  }

  ghost predicate HasEmail(db: Db, email: string)
  {
    exists id :: id in db.rows && db.rows[id].email == email
  }

  ghost predicate HasUsername(db: Db, username: string)
  {
    exists id :: id in db.rows && db.rows[id].username == username
  }

  // ---- What each operation does; `fault` stands for a failing database connection ----------------

  function FindById(db: Db, id: int, fault: bool): Result<User>
  {
    if fault then Err(Internal) else if id in db.rows then Ok(db.rows[id]) else Err(NotFound)
  }

  ghost function FindByEmail(db: Db, email: string, fault: bool): (r: Result<User>)
    ensures r.Ok? ==> exists id :: id in db.rows && db.rows[id] == r.value && r.value.email == email
  {
    if fault then Err(Internal)
    else if HasEmail(db, email) then
      var id :| id in db.rows && db.rows[id].email == email;
      Ok(db.rows[id])
    else Err(NotFound)
  }

  ghost function FindByUsername(db: Db, username: string, fault: bool): (r: Result<User>)
    ensures r.Ok? ==> exists id :: id in db.rows && db.rows[id] == r.value && r.value.username == username
  {
    if fault then Err(Internal)
    else if HasUsername(db, username) then
      var id :| id in db.rows && db.rows[id].username == username;
      Ok(db.rows[id])
    else Err(NotFound)
  }

  /** Inserts a row under a fresh id; a taken email or username is a conflict and inserts nothing. */
  ghost function Insert(db: Db, u: User, hash: string, fault: bool): (r: (Db, Result<User>))
    requires db.Valid()
    ensures r.0.Valid()
    ensures r.1.Err? ==> r.0 == db
  {
    if fault then (db, Err(Internal))
    else if HasEmail(db, u.email) || HasUsername(db, u.username) then (db, Err(Conflict))
    else
      var row := u.(id := db.nextId, password := hash);
      (Db(db.rows[row.id := row], db.nextId + 1), Ok(row))
  }

  /** Whether somebody else already has this user's email or username. */
  ghost predicate Clashes(db: Db, u: User)
  {
    exists id :: id in db.rows && id != u.id && (db.rows[id].email == u.email || db.rows[id].username == u.username)
  }

  /** Overwrites name, email and username of the row with this id, and nothing else. */
  ghost function Overwrite(db: Db, u: User, fault: bool): (r: (Db, Result<()>))
    requires db.Valid()
    ensures r.0.Valid() && r.0.nextId == db.nextId && r.0.rows.Keys == db.rows.Keys
    ensures r.1.Err? ==> r.0 == db
  {
    if fault || u.id == 0 then (db, Err(Internal))
    else if u.id !in db.rows then (db, Err(NotFound))
    else if Clashes(db, u) then (db, Err(Internal))
    else
      var row := db.rows[u.id].(name := u.name, email := u.email, username := u.username);
      (db.(rows := db.rows[u.id := row]), Ok(()))
  }

  function Remove(db: Db, id: int, fault: bool): (r: (Db, Result<()>))
    ensures db.Valid() ==> r.0.Valid()
    ensures r.1.Err? ==> r.0 == db
  {
    if fault then (db, Err(Internal))
    else if id !in db.rows then (db, Err(NotFound))
    else (db.(rows := db.rows - {id}), Ok(()))
  }

  lemma HoldsItsNames(db: Db, id: int)
    requires id in db.rows
    ensures HasEmail(db, db.rows[id].email) && HasUsername(db, db.rows[id].username)
  {}

  /** A missing row and a failing database are told apart. */
  lemma LookupOutcomes(db: Db, id: int, email: string, username: string, fault: bool)
    ensures FindById(db, id, fault) == Err(NotFound) <==> !fault && id !in db.rows
    ensures FindByEmail(db, email, fault) == Err(NotFound) <==>
              !fault && forall i | i in db.rows :: db.rows[i].email != email
    ensures FindByUsername(db, username, fault) == Err(NotFound) <==>
              !fault && forall i | i in db.rows :: db.rows[i].username != username
    ensures fault <==> FindById(db, id, fault) == Err(Internal)
    ensures fault <==> FindByEmail(db, email, fault) == Err(Internal)
    ensures fault <==> FindByUsername(db, username, fault) == Err(Internal)
  {}

  /** An insert is refused exactly for a taken email or username, or by a failing database. */
  lemma InsertOutcomes(db: Db, u: User, hash: string, fault: bool)
    requires db.Valid()
    ensures var res := Insert(db, u, hash, fault).1;
            && (res == Err(Internal) <==> fault)
            && (res == Err(Conflict) <==>
                  && !fault
                  && exists i :: i in db.rows && (db.rows[i].email == u.email || db.rows[i].username == u.username))
            && res != Err(NotFound)
  {
    if HasEmail(db, u.email) {
      var i :| i in db.rows && db.rows[i].email == u.email;
    } else if HasUsername(db, u.username) {
      var i :| i in db.rows && db.rows[i].username == u.username;
    }
  }

  /** An update succeeds exactly if the row is there and nobody else has the names; no other row changes. */
  lemma OverwriteOutcomes(db: Db, u: User, fault: bool, other: int)
    requires db.Valid()
    ensures var (db', res) := Overwrite(db, u, fault);
            && (res.Ok? <==> !fault && u.id in db.rows && forall i | i in db.rows && i != u.id ::
                  db.rows[i].email != u.email && db.rows[i].username != u.username)
            && (res == Err(NotFound) <==> !fault && u.id != 0 && u.id !in db.rows)
            && res != Err(Conflict)
            && (other != u.id ==> FindById(db', other, false) == FindById(db, other, false))
  {}

  /** A deletion takes exactly that row. */
  lemma RemoveOutcomes(db: Db, id: int, fault: bool, other: int)
    ensures var (db', res) := Remove(db, id, fault);
            && (res.Ok? <==> !fault && id in db.rows)
            && (res == Err(NotFound) <==> !fault && id !in db.rows) && res != Err(Conflict)
            && (res.Ok? ==> id !in db'.rows && db'.nextId == db.nextId)
            && (other != id ==> FindById(db', other, false) == FindById(db, other, false))
  {}

  /** Uniqueness makes the lookups exact: the row holding a name is the row that is found. */
  lemma FindsTheRow(db: Db, id: int)
    requires db.Valid() && id in db.rows
    ensures FindByEmail(db, db.rows[id].email, false) == Ok(db.rows[id])
    ensures FindByUsername(db, db.rows[id].username, false) == Ok(db.rows[id])
  {}

  /** What was inserted is found under both its names and its fresh id; every other row is as it was. */
  lemma InsertThenFind(db: Db, u: User, hash: string, other: int)
    requires db.Valid() && Insert(db, u, hash, false).1.Ok?
    ensures var (db', res) := Insert(db, u, hash, false);
            && res.value == u.(id := res.value.id, password := hash) && res.value.id !in db.rows
            && FindByEmail(db', u.email, false) == res && FindByUsername(db', u.username, false) == res
            && (other != res.value.id ==> FindById(db', other, false) == FindById(db, other, false))
  {
    var (db', res) := Insert(db, u, hash, false);
    FindsTheRow(db', res.value.id);
  }

  /** An updated user is found under its new names, with the password and role it had; an old name it
      gave up is free. */
  lemma UpdateMovesNames(db: Db, u: User)
    requires db.Valid() && Overwrite(db, u, false).1.Ok?
    ensures var row, db' := db.rows[u.id], Overwrite(db, u, false).0;
            && FindByEmail(db', u.email, false) == Ok(u.(password := row.password, role := row.role))
            && FindByUsername(db', u.username, false) == Ok(u.(password := row.password, role := row.role))
            && (row.email != u.email ==> !HasEmail(db', row.email))
            && (row.username != u.username ==> !HasUsername(db', row.username))
  {
    var db' := Overwrite(db, u, false).0;
    FindsTheRow(db', u.id);
  }

  /** A deleted user's names can be registered again, under an id that was never used before. */
  lemma DeletedNamesAreFree(db: Db, id: int, again: User, hash: string)
    requires db.Valid() && id in db.rows
    requires again.email == db.rows[id].email && again.username == db.rows[id].username
    ensures var db' := Remove(db, id, false).0;
            var res := Insert(db', again, hash, false).1;
            && FindById(db', id, false) == Err(NotFound)
            && res.Ok? && res.value.id != id && res.value.id !in db.rows
  {}

  /** The repository over the table. */
  class UserRepository {
    var rows: map<int, User>
    var nextId: int

    ghost function Model(): Db
      reads this
    {
      Db(rows, nextId)
    }

    method Create(user: User, passwordHash: string, fault: bool) returns (r: Result<User>)
      requires Model().Valid()
      modifies this
      ensures (Model(), r) == Insert(old(Model()), user, passwordHash, fault)
    {
      if fault { return Err(Internal); }
      var emailTaken := FindKey((u: User) => u.email == user.email);
      var usernameTaken := FindKey((u: User) => u.username == user.username);
      if emailTaken.Some? || usernameTaken.Some? {
        HoldsItsNames(Model(), if emailTaken.Some? then emailTaken.value else usernameTaken.value);
        return Err(Conflict);
      }
      assert !HasEmail(Model(), user.email) && !HasUsername(Model(), user.username);
      var row := user.(id := nextId, password := passwordHash);
      rows, nextId := rows[row.id := row], nextId + 1;
      r := Ok(row);
    }

    method GetByID(id: int, fault: bool) returns (r: Result<User>)
      ensures r == FindById(Model(), id, fault)
    {
      if fault { return Err(Internal); }
      if id in rows { return Ok(rows[id]); }
      r := Err(NotFound);
    }

    method GetByEmail(email: string, fault: bool) returns (r: Result<User>)
      requires Model().Valid()
      ensures r == FindByEmail(Model(), email, fault)
    {
      if fault { return Err(Internal); }
      var k := FindKey((u: User) => u.email == email);
      if k.Some? {
        FindsTheRow(Model(), k.value);
        return Ok(rows[k.value]);
      }
      r := Err(NotFound);
    }

    method GetByUsername(username: string, fault: bool) returns (r: Result<User>)
      requires Model().Valid()
      ensures r == FindByUsername(Model(), username, fault)
    {
      if fault { return Err(Internal); }
      var k := FindKey((u: User) => u.username == username);
      if k.Some? {
        FindsTheRow(Model(), k.value);
        return Ok(rows[k.value]);
      }
      r := Err(NotFound);
    }

    method Update(user: User, fault: bool) returns (r: Result<()>)
      requires Model().Valid()
      modifies this`rows
      ensures (Model(), r) == Overwrite(old(Model()), user, fault)
    {
      if fault || user.id == 0 { return Err(Internal); }
      if user.id !in rows { return Err(NotFound); }
      var other := FindKey((u: User) => u.id != user.id && (u.email == user.email || u.username == user.username));
      if other.Some? {
        assert other.value in rows && other.value != user.id;
        return Err(Internal);
      }
      assert !Clashes(Model(), user);
      rows := rows[user.id := rows[user.id].(name := user.name, email := user.email, username := user.username)];
      r := Ok(());
    }

    method Delete(id: int, fault: bool) returns (r: Result<()>)
      modifies this`rows
      ensures (Model(), r) == Remove(old(Model()), id, fault)
    {
      if fault { return Err(Internal); }
      if id !in rows { return Err(NotFound); }
      rows := rows - {id};
      r := Ok(());
    }

    /** Every email and every username, row by row. */
    method AllEmailsAndUsernames(fault: bool) returns (r: Result<(seq<string>, seq<string>)>)
      requires Model().Valid()
      ensures r.Err? <==> fault
      ensures r.Ok? ==> forall e :: e in r.value.0 <==> HasEmail(Model(), e)
      ensures r.Ok? ==> forall n :: n in r.value.1 <==> HasUsername(Model(), n)
    {
      if fault { return Err(Internal); }
      var emails, usernames: seq<string> := [], [];
      for id := 1 to nextId
        invariant forall e :: e in emails <==> exists i :: 1 <= i < id && i in rows && rows[i].email == e
        invariant forall n :: n in usernames <==> exists i :: 1 <= i < id && i in rows && rows[i].username == n
      {
        if id in rows {
          emails, usernames := emails + [rows[id].email], usernames + [rows[id].username];
        }
      }
      r := Ok((emails, usernames));
    }

    /** A table scan for some row with the given property. */
    method FindKey(p: User -> bool) returns (k: Option<int>)
      requires Model().Valid()
      ensures k.Some? ==> k.value in rows && p(rows[k.value])
      ensures k.None? ==> forall id | id in rows :: !p(rows[id])
    {
      for id := 1 to nextId
        invariant forall i | 1 <= i < id && i in rows :: !p(rows[i])
      {
        if id in rows && p(rows[id]) { return Some(id); }
      }
      k := None;
    }
  }
}
