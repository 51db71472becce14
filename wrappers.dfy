/** Option and outcome types shared by the store and its access layer. */
module Wrappers {

  datatype Option<+T> = None | Some(value: T)

  /** Why a storage operation was rejected. The access layer raises each of these as an exception:
      Conflict and DanglingReference as SQLAlchemy's IntegrityError (HTTP 400 in the routes),
      NotFound as NoResultFound (HTTP 404), NameError as Python's NameError (HTTP 500). */
  datatype Error =
    | Conflict           // a unique or primary-key constraint would be violated
    | DanglingReference  // a foreign key would point at a row that does not exist
    | NotFound           // `.one()` found no row to return
    | NameError          // the code refers to a name that was never imported

  /** The result of an operation that either returns a value or raises. */
  datatype Outcome<+T> = Ok(value: T) | Fail(error: Error)
}
