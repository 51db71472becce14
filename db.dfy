/** The database session the access layer works through: one map per table, the id sequences of
    the tables that have a serial primary key, and the default payment time. */
module Db {
  import opened Models

  class Session {
    /** The committed contents of all tables. */
    var tables: Tables

    // Next value of each serial primary key.
    var nextUserId: int
    var nextCompetitionId: int
    var nextParticipantId: int
    var nextPaymentId: int
    var nextComplexId: int

    /** The default of payments.pay_datetime: `datetime.datetime.now()` is evaluated once, when
        the schema module is loaded, so every payment receives this same value. */
    const paymentDefaultTime: Instant

    /** No sequence will hand out an id that is already in use in `t`. */
    ghost predicate IdsBelowSequences(t: Tables)
      reads this
    {
      && (forall k :: k in t.users ==> k < nextUserId)
      && (forall k :: k in t.competitions ==> k < nextCompetitionId)
      && (forall k :: k in t.participants ==> k < nextParticipantId)
      && (forall k :: k in t.payments ==> k < nextPaymentId)
      && (forall k :: k in t.complexes ==> k < nextComplexId)
    }

    ghost predicate Valid()
      reads this
    {
      Models.Valid(tables) && IdsBelowSequences(tables)
    }

    /** session.commit(): makes the tables the transaction has computed the committed state. The
        access layer commits only states that satisfy every constraint. */
    method Commit(pending: Tables)
      requires Models.Valid(pending) && IdsBelowSequences(pending)
      modifies this
      ensures tables == pending
      ensures Valid()
      ensures nextUserId == old(nextUserId) && nextCompetitionId == old(nextCompetitionId)
      ensures nextParticipantId == old(nextParticipantId) && nextPaymentId == old(nextPaymentId)
      ensures nextComplexId == old(nextComplexId)
    {
      tables := pending;
    }

    /** An empty database. */
    constructor (loadTime: Instant)
      ensures Valid() && tables == Empty && paymentDefaultTime == loadTime
    {
      tables := Empty;
      nextUserId, nextCompetitionId, nextParticipantId, nextPaymentId, nextComplexId := 1, 1, 1, 1, 1;
      paymentDefaultTime := loadTime;
    }
  }
}
