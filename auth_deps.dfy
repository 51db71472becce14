/** The request dependencies that identify and authenticate a user. Password hashing and token
    signing are outside the model: the password check and the token decoder are parameters. */
module AuthDeps {
  import opened Wrappers
  import opened Models
  import opened Db
  import AuthCrud

  /** What decoding a bearer token yields: either a decoding failure (bad signature, expired,
      malformed payload), or the payload's optional `sub` claim. */
  datatype TokenClaims = Undecodable | Claims(sub: Option<string>)

  /** What get_current_user does with a request: passes the user on, raises 403, or raises 404. */
  datatype Access = Granted(user: User) | Forbidden | UserNotFound

  /** Some stored user has this username. */
  ghost predicate Registered(db: Session, username: string)
    reads db
  {
    exists k :: k in db.tables.users && db.tables.users[k].username == username
  }

  /** identify_user: looks the user up by username. */
  function IdentifyUser(db: Session, username: string): (r: Option<User>)
    reads db
    requires db.Valid()
    ensures r.Some? <==> Registered(db, username)
    ensures r.Some? ==> r.value.username == username && r.value.id in db.tables.users && db.tables.users[r.value.id] == r.value
  {
    AuthCrud.GetUser(db, username)
  }

  /** authenticate_user: the user, when the username names one and the password matches its
      stored hash; otherwise a refusal that does not say which of the two failed. */
  function AuthenticateUser(
    db: Session, username: string, password: string, verifyPassword: (string, string) -> bool)
    : (r: Option<User>)
    reads db
    requires db.Valid()
    ensures r.Some? <==>
      exists k :: k in db.tables.users && db.tables.users[k].username == username && verifyPassword(password, db.tables.users[k].password)
    ensures r.Some? ==>
      && r.value.username == username && r.value.id in db.tables.users && db.tables.users[r.value.id] == r.value
      && verifyPassword(password, r.value.password)
  {
    var user := IdentifyUser(db, username);
    if user.None? || !verifyPassword(password, user.value.password) then None else user
  }

  /** An unknown username and a wrong password for a known one are refused alike, so a caller
      cannot tell which of the two it got wrong. */
  lemma FailedLoginsLookAlike(
    db: Session, unknown: string, known: string, p1: string, p2: string,
    verifyPassword: (string, string) -> bool)
    requires db.Valid()
    requires !Registered(db, unknown)
    requires Registered(db, known) && !verifyPassword(p2, IdentifyUser(db, known).value.password)
    ensures AuthenticateUser(db, unknown, p1, verifyPassword) == None
    ensures AuthenticateUser(db, known, p2, verifyPassword) == None
  {
  }

  /** get_current_user: decodes the bearer token and loads the user its subject names. A token
      that does not decode is refused with 403; a subject that names no user, including a
      missing subject, is refused with 404. */
  function GetCurrentUser(db: Session, token: string, decode: string -> TokenClaims): (r: Access)
    reads db
    requires db.Valid()
    ensures r.Forbidden? <==> decode(token).Undecodable?
    ensures r.Granted? <==> decode(token).Claims? && decode(token).sub.Some? && Registered(db, decode(token).sub.value)
    ensures r.Granted? ==>
      && r.user.username == decode(token).sub.value
      && r.user.id in db.tables.users && db.tables.users[r.user.id] == r.user
  {
    match decode(token)
    case Undecodable => Forbidden
    case Claims(sub) =>
      // A missing subject selects `username IS NULL`, and no stored username is null.
      var user := if sub.Some? then IdentifyUser(db, sub.value) else None;
      if user.None? then UserNotFound else Granted(user.value)
  }
}
