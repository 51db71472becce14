/** The request dependency that resolves a competition id to its row before a route runs. */
module CompetitionDeps {
  import opened Wrappers
  import opened Models
  import opened Db

  /** get_current_competition: a primary-key lookup that returns the row or raises 404. Being a
      function of the session, it cannot change the store. */
  function GetCurrentCompetition(db: Session, competitionId: int): (r: Outcome<Competition>)
    reads db
    requires db.Valid()
    ensures r.Ok? <==> competitionId in db.tables.competitions
    ensures r.Ok? ==> r.value == db.tables.competitions[competitionId] && r.value.id == competitionId
    ensures r.Fail? ==> r.error == NotFound
  {
    if competitionId in db.tables.competitions then Ok(db.tables.competitions[competitionId]) else Fail(NotFound)
  }
}
