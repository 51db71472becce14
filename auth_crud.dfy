/** The access layer for user accounts. */
module AuthCrud {
  import opened Wrappers
  import opened Models
  import opened Db

  /** create_user_from_db: inserts a user under a fresh id. The password arrives already hashed.
      The unique constraints on the username and on the stored hash reject a duplicate of
      either. */
  method CreateUser(db: Session, username: string, passwordHash: string, isSuperuser: bool)
    returns (r: Outcome<User>)
    requires db.Valid()
    modifies db
    ensures db.Valid()
    ensures r.Fail? <==>
      exists k :: k in old(db.tables.users) &&
        (old(db.tables.users)[k].username == username || old(db.tables.users)[k].password == passwordHash)
    ensures r.Fail? ==> r.error == Conflict && db.tables == old(db.tables)
    ensures r.Ok? ==>
      && r.value == User(r.value.id, username, passwordHash, isSuperuser)
      && r.value.id !in old(db.tables.users)
      && db.tables == old(db.tables).(users := old(db.tables.users)[r.value.id := r.value])
    ensures r.Ok? ==> GetUser(db, username) == Some(r.value)
  {
    if exists k :: k in db.tables.users && (db.tables.users[k].username == username || db.tables.users[k].password == passwordHash) {
      return Fail(Conflict);
    }
    var u := User(db.nextUserId, username, passwordHash, isSuperuser);
    var t := db.tables;
    InsertUserKeepsValid(t, u);
    db.nextUserId := db.nextUserId + 1;
    db.Commit(t.(users := t.users[u.id := u]));
    assert u.id in db.tables.users && db.tables.users[u.id].username == username;
    assert UniqueUsernames(db.tables.users);
    r := Ok(u);
  }

  /** get_user_from_db: the first user with this username, if any. Usernames are unique, so the
      first one is the only one. */
  function GetUser(db: Session, username: string): (r: Option<User>)
    reads db
    requires db.Valid()
    ensures r.Some? <==> exists k :: k in db.tables.users && db.tables.users[k].username == username
    ensures r.Some? ==> r.value.username == username && r.value.id in db.tables.users && db.tables.users[r.value.id] == r.value
  {
    if exists k :: k in db.tables.users && db.tables.users[k].username == username then
      var k :| k in db.tables.users && db.tables.users[k].username == username;
      Some(db.tables.users[k])
    else
      None
  }
}
