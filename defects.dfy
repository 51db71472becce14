/** The contribution writers as they are written. Each is paired with a concrete run that shows
    how it departs from the intended writer in CompetitionsCrud, which the rest of the model
    uses. */
module Defects {
  import opened Wrappers
  import opened Models
  import opened Db
  import CompetitionsCrud

  /** create_contribution_from_db as written: the statement is built with `insert`, which the
      module never imports (it imports select, text, update and delete), so every call raises
      NameError before any SQL reaches the database, and nothing is stored. */
  method CreateContributionAsWritten(db: Session, competitionId: int, mode: Mode, price: int)
    returns (r: Outcome<Contribution>)
    requires db.Valid()
    ensures r == Fail(NameError)
  {
    r := Fail(NameError);
  }

  /** update_contribution_from_db as written: the UPDATE ... RETURNING runs inside the request's
      transaction and its row is returned, but the function never commits, so closing the session
      rolls the change back. The committed store is unchanged (the method modifies nothing),
      while the caller receives the row with the new price. */
  method UpdateContributionAsWritten(db: Session, competitionId: int, mode: Mode, price: int)
    returns (r: Outcome<Contribution>)
    requires db.Valid()
    ensures var key := ContributionKey(competitionId, mode);
      && (r.Fail? <==> key !in db.tables.contributions)
      && (r.Fail? ==> r.error == NotFound)
      && (r.Ok? ==> r.value == Contribution(competitionId, mode, price))
  {
    var key := ContributionKey(competitionId, mode);
    if key !in db.tables.contributions {
      return Fail(NotFound);
    }
    r := Ok(db.tables.contributions[key].(price := price));
  }

  /** delete_contribution_from_db as written: the DELETE ... RETURNING finds the row (the Ok
      value is the competition_id it yields) and the route reports the deletion, but without a
      commit the row and its payments stay. */
  method DeleteContributionAsWritten(db: Session, competitionId: int, mode: Mode) returns (r: Outcome<int>)
    requires db.Valid()
    ensures r.Fail? <==> ContributionKey(competitionId, mode) !in db.tables.contributions
    ensures r.Fail? ==> r.error == NotFound
    ensures r.Ok? ==> r.value == competitionId
  {
    if ContributionKey(competitionId, mode) !in db.tables.contributions {
      return Fail(NotFound);
    }
    r := Ok(competitionId);
  }

  /** A fresh database holding one competition, "Winter Open", and its partial tier at 15.00. */
  method WinterOpenWithPartialTier() returns (db: Session, competitionId: int)
    ensures fresh(db) && db.Valid()
    ensures competitionId in db.tables.competitions
    ensures ContributionKey(competitionId, Partial) in db.tables.contributions
    ensures db.tables.contributions[ContributionKey(competitionId, Partial)].price == 1500
  {
    db := new Session(Instant(0));
    var c := CompetitionsCrud.CreateCompetition(db, "Winter Open", Instant(0), None);
    competitionId := c.value.id;
    var tier := CompetitionsCrud.CreateContribution(db, competitionId, Partial, 1500);
  }

  /** On a competition that exists and has no partial tier yet, the written creator raises
      NameError while the intended one stores the tier. */
  method CreateContributionAlwaysFails()
    returns (competitionId: int, asWritten: Outcome<Contribution>, intended: Outcome<Contribution>)
    ensures asWritten == Fail(NameError)
    ensures intended == Ok(Contribution(competitionId, Partial, 1500))
  {
    var db := new Session(Instant(0));
    var c := CompetitionsCrud.CreateCompetition(db, "Winter Open", Instant(0), None);
    competitionId := c.value.id;
    asWritten := CreateContributionAsWritten(db, competitionId, Partial, 1500);
    intended := CompetitionsCrud.CreateContribution(db, competitionId, Partial, 1500);
  }

  /** Raising the partial tier of "Winter Open" from 15.00 to 20.00 as written: the caller is
      told 20.00, the database keeps 15.00. */
  method UpdateContributionIsLost() returns (returned: Contribution, stored: Contribution)
    ensures returned.price == 2000 && stored.price == 1500
  {
    var db, id := WinterOpenWithPartialTier();
    var r := UpdateContributionAsWritten(db, id, Partial, 2000);
    returned := r.value;
    stored := db.tables.contributions[ContributionKey(id, Partial)];
  }

  /** Deleting the partial tier of "Winter Open" as written reports success and leaves the tier
      stored. */
  method DeleteContributionIsLost() returns (reported: Outcome<int>, stillStored: bool)
    ensures reported.Ok? && stillStored
  {
    var db, id := WinterOpenWithPartialTier();
    reported := DeleteContributionAsWritten(db, id, Partial);
    stillStored := ContributionKey(id, Partial) in db.tables.contributions;
  }
}
