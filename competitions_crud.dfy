/** The access layer for competitions, contributions, complexes and results. Each writer is one
    transaction: it either commits all its changes or, when a constraint rejects them, leaves the
    committed tables as they were. */
module CompetitionsCrud {
  import opened Wrappers
  import opened Models
  import opened Db
  import CompetitionDeps

  /** The fields an update request sets (`exclude_unset=True`): the name and the date are
      required by the request schema, the description may be left out, and a supplied
      description may itself be null. */
  datatype CompetitionPatch = CompetitionPatch(name: string, date: Instant, description: Option<Option<string>>)

  /** create_competition_from_db: inserts a competition under a fresh id; the unique constraint
      on the name rejects a duplicate. */
  method CreateCompetition(db: Session, name: string, date: Instant, description: Option<string>)
    returns (r: Outcome<Competition>)
    requires db.Valid()
    modifies db
    ensures db.Valid()
    ensures r.Fail? <==> exists k :: k in old(db.tables.competitions) && old(db.tables.competitions)[k].name == name
    ensures r.Fail? ==> r.error == Conflict && db.tables == old(db.tables)
    ensures r.Ok? ==>
      && r.value == Competition(r.value.id, name, date, description)
      && r.value.id !in old(db.tables.competitions)
      && db.tables == old(db.tables).(competitions := old(db.tables.competitions)[r.value.id := r.value])
  {
    if exists k :: k in db.tables.competitions && db.tables.competitions[k].name == name {
      return Fail(Conflict);
    }
    var c := Competition(db.nextCompetitionId, name, date, description);
    var t := db.tables;
    InsertCompetitionKeepsValid(t, c);
    db.nextCompetitionId := db.nextCompetitionId + 1;
    db.Commit(t.(competitions := t.competitions[c.id := c]));
    r := Ok(c);
  }

  /** get_competition_from_db: the competition with its contributions joined in, or
      NoResultFound. */
  function GetCompetition(db: Session, competitionId: int): (r: Outcome<(Competition, set<Contribution>)>)
    reads db
    requires db.Valid()
    ensures r.Ok? <==> competitionId in db.tables.competitions
    ensures r.Fail? ==> r.error == NotFound
    ensures r.Ok? ==>
      && r.value.0 == db.tables.competitions[competitionId]
      && r.value.1 == GetContributions(db, competitionId)
  {
    if competitionId in db.tables.competitions then
      Ok((db.tables.competitions[competitionId], GetContributions(db, competitionId)))
    else
      Fail(NotFound)
  }

  /** get_all_competition_from_db: every stored competition. */
  function GetAllCompetitions(db: Session): (r: set<Competition>)
    reads db
    requires db.Valid()
    ensures forall c :: c in r <==> c.id in db.tables.competitions && db.tables.competitions[c.id] == c
  {
    CompetitionRowsByKey(db.tables);
    CompetitionRows(db.tables)
  }

  /** update_competition_from_db: overwrites the fields the request sets on the one competition
      the guard resolved; the unique name constraint rejects a name another competition already
      has. */
  method UpdateCompetition(db: Session, current: Competition, patch: CompetitionPatch)
    returns (r: Outcome<Competition>)
    requires db.Valid()
    requires CompetitionDeps.GetCurrentCompetition(db, current.id) == Ok(current)
    modifies db
    ensures db.Valid()
    ensures r.Fail? <==>
      exists k :: k in old(db.tables.competitions) && k != current.id && old(db.tables.competitions)[k].name == patch.name
    ensures r.Fail? ==> r.error == Conflict && db.tables == old(db.tables)
    ensures r.Ok? ==>
      && r.value.id == current.id
      && r.value.name == patch.name
      && r.value.date == patch.date
      && r.value.description == (if patch.description.Some? then patch.description.value else current.description)
      && db.tables == old(db.tables).(competitions := old(db.tables.competitions)[current.id := r.value])
  {
    if exists k :: k in db.tables.competitions && k != current.id && db.tables.competitions[k].name == patch.name {
      return Fail(Conflict);
    }
    var description := if patch.description.Some? then patch.description.value else current.description;
    var updated := Competition(current.id, patch.name, patch.date, description);
    var t := db.tables;
    ReplaceCompetitionKeepsValid(t, updated);
    db.Commit(t.(competitions := t.competitions[current.id := updated]));
    r := Ok(updated);
  }

  /** delete_competition_from_db: deletes the competition the guard resolved together with every
      row that depends on it, children first, and returns true. */
  method DeleteCompetition(db: Session, current: Competition) returns (deleted: bool)
    requires db.Valid()
    requires CompetitionDeps.GetCurrentCompetition(db, current.id) == Ok(current)
    modifies db
    ensures db.Valid()
    ensures deleted
    ensures db.tables == Models.DeleteCompetition(old(db.tables), current.id)
    ensures current.id !in db.tables.competitions
    ensures ContributionsOf(db.tables, current.id) == {}
    ensures ParticipantsOf(db.tables, current.id) == {}
    ensures ComplexesOf(db.tables, current.id) == {}
  {
    var id := current.id;
    var t := db.tables;
    Models.PruneAfterRemovalIsValid(t.(competitions := t.competitions - {id}), t);
    Models.DeleteCompetitionLeavesNoOrphans(t, id);
    // The cascade, children first, as one transaction.
    var pending := Models.DeleteCompetition(t, id);
    db.Commit(pending);
    deleted := true;
  }

  /** create_contribution_from_db, as intended: inserts the tier (competition_id, mode). The
      composite primary key rejects a second row for the pair; the foreign key rejects an unknown
      competition. */
  method CreateContribution(db: Session, competitionId: int, mode: Mode, price: int)
    returns (r: Outcome<Contribution>)
    requires db.Valid()
    modifies db
    ensures db.Valid()
    ensures var key := ContributionKey(competitionId, mode);
      && (r.Fail? <==> key in old(db.tables.contributions) || competitionId !in old(db.tables.competitions))
      && (r.Fail? ==>
            && r.error == (if key in old(db.tables.contributions) then Conflict else DanglingReference)
            && db.tables == old(db.tables))
      && (r.Ok? ==>
            && r.value == Contribution(competitionId, mode, price)
            && db.tables == old(db.tables).(contributions := old(db.tables.contributions)[key := r.value]))
  {
    var key := ContributionKey(competitionId, mode);
    if key in db.tables.contributions {
      return Fail(Conflict);
    }
    if competitionId !in db.tables.competitions {
      return Fail(DanglingReference);
    }
    var c := Contribution(competitionId, mode, price);
    var t := db.tables;
    InsertContributionKeepsValid(t, c);
    db.Commit(t.(contributions := t.contributions[key := c]));
    r := Ok(c);
  }

  /** get_contributions_from_db: the tiers stored for a competition; there are at most two. */
  function GetContributions(db: Session, competitionId: int): (r: set<Contribution>)
    reads db
    requires db.Valid()
    ensures forall c :: c in r <==>
      c.competitionId == competitionId && c.Key() in db.tables.contributions && db.tables.contributions[c.Key()] == c
    ensures |r| <= 2
  {
    ContributionsOfByKey(db.tables, competitionId);
    AtMostTwoTiers(db.tables, competitionId);
    ContributionsOf(db.tables, competitionId)
  }

  /** update_contribution_from_db, as intended: sets the price of the one row keyed by
      (competition_id, mode), or raises NoResultFound. */
  method UpdateContribution(db: Session, competitionId: int, mode: Mode, price: int)
    returns (r: Outcome<Contribution>)
    requires db.Valid()
    modifies db
    ensures db.Valid()
    ensures var key := ContributionKey(competitionId, mode);
      && (r.Fail? <==> key !in old(db.tables.contributions))
      && (r.Fail? ==> r.error == NotFound && db.tables == old(db.tables))
      && (r.Ok? ==>
            && r.value == Contribution(competitionId, mode, price)
            && db.tables == old(db.tables).(contributions := old(db.tables.contributions)[key := r.value]))
  {
    var key := ContributionKey(competitionId, mode);
    if key !in db.tables.contributions {
      return Fail(NotFound);
    }
    var c := db.tables.contributions[key].(price := price);
    var t := db.tables;
    RepriceContributionKeepsValid(t, key, price);
    db.Commit(t.(contributions := t.contributions[key := c]));
    r := Ok(c);
  }

  /** delete_contribution_from_db, as intended: deletes the one row keyed by (competition_id,
      mode) and, through the cascading foreign key, the payments for that tier; or raises
      NoResultFound. The Ok value is the competition_id that RETURNING yields; the function
      itself discards it and returns None, and the route then reports the deletion. */
  method DeleteContribution(db: Session, competitionId: int, mode: Mode) returns (r: Outcome<int>)
    requires db.Valid()
    modifies db
    ensures db.Valid()
    ensures var key := ContributionKey(competitionId, mode);
      && (r.Fail? <==> key !in old(db.tables.contributions))
      && (r.Fail? ==> r.error == NotFound && db.tables == old(db.tables))
      && (r.Ok? ==>
            && r.value == competitionId
            && db.tables == Models.DeleteContribution(old(db.tables), key)
            && db.tables == old(db.tables).(
                 contributions := old(db.tables.contributions) - {key},
                 payments := map k | k in old(db.tables.payments) && old(db.tables.payments)[k].Tier() != key :: old(db.tables.payments)[k]))
  {
    var key := ContributionKey(competitionId, mode);
    if key !in db.tables.contributions {
      return Fail(NotFound);
    }
    var t := db.tables;
    Models.DeleteContributionEffect(t, key);
    Models.PruneAfterRemovalIsValid(t.(contributions := t.contributions - {key}), t);
    var payments := map k | k in t.payments && t.payments[k].Tier() != key :: t.payments[k];
    db.Commit(t.(contributions := t.contributions - {key}, payments := payments));
    r := Ok(competitionId);
  }

  /** create_complex_from_db: inserts a complex under a fresh id; the foreign key rejects an
      unknown competition. The declared unique constraint includes the fresh id and so never
      fires. */
  method CreateComplex(
    db: Session, competitionId: int, name: string, description: string,
    isQualifying: bool, startTime: TimeOfDay, endTime: TimeOfDay)
    returns (r: Outcome<Complex>)
    requires db.Valid()
    modifies db
    ensures db.Valid()
    ensures r.Fail? <==> competitionId !in old(db.tables.competitions)
    ensures r.Fail? ==> r.error == DanglingReference && db.tables == old(db.tables)
    ensures r.Ok? ==>
      && r.value == Complex(r.value.id, name, competitionId, description, isQualifying, startTime, endTime)
      && r.value.id !in old(db.tables.complexes)
      && db.tables == old(db.tables).(complexes := old(db.tables.complexes)[r.value.id := r.value])
  {
    if competitionId !in db.tables.competitions {
      return Fail(DanglingReference);
    }
    var x := Complex(db.nextComplexId, name, competitionId, description, isQualifying, startTime, endTime);
    var t := db.tables;
    InsertComplexKeepsValid(t, x);
    db.nextComplexId := db.nextComplexId + 1;
    db.Commit(t.(complexes := t.complexes[x.id := x]));
    r := Ok(x);
  }

  /** get_all_complexes_from_db: the complexes of a competition. */
  function GetAllComplexes(db: Session, competitionId: int): (r: set<Complex>)
    reads db
    requires db.Valid()
    ensures forall x :: x in r <==>
      x.competitionId == competitionId && x.id in db.tables.complexes && db.tables.complexes[x.id] == x
  {
    ComplexesOfByKey(db.tables, competitionId);
    ComplexesOf(db.tables, competitionId)
  }

  /** create_result_complex_from_db: records a participant's result in a complex. The composite
      primary key (complex_id, participant_id) rejects a second result; the foreign keys reject
      an unknown complex or participant. */
  method CreateResult(db: Session, complexId: int, participantId: int, view: ViewResult, result: string)
    returns (r: Outcome<Result>)
    requires db.Valid()
    modifies db
    ensures db.Valid()
    ensures var key := EntryKey(complexId, participantId);
      && (r.Fail? <==>
            key in old(db.tables.results) || complexId !in old(db.tables.complexes) || participantId !in old(db.tables.participants))
      && (r.Fail? ==>
            && r.error == (if key in old(db.tables.results) then Conflict else DanglingReference)
            && db.tables == old(db.tables))
      && (r.Ok? ==>
            && r.value == Result(complexId, participantId, view, result)
            && db.tables == old(db.tables).(results := old(db.tables.results)[key := r.value]))
  {
    var key := EntryKey(complexId, participantId);
    if key in db.tables.results {
      return Fail(Conflict);
    }
    if complexId !in db.tables.complexes || participantId !in db.tables.participants {
      return Fail(DanglingReference);
    }
    var row := Result(complexId, participantId, view, result);
    var t := db.tables;
    InsertResultKeepsValid(t, row);
    db.Commit(t.(results := t.results[key := row]));
    r := Ok(row);
  }

  /** get_all_result_complexes_from_db: the results recorded in a complex. */
  function GetAllResults(db: Session, complexId: int): (r: set<Result>)
    reads db
    requires db.Valid()
    ensures forall x :: x in r <==>
      x.complexId == complexId && x.Key() in db.tables.results && db.tables.results[x.Key()] == x
  {
    ResultsOfByKey(db.tables, complexId);
    ResultsOf(db.tables, complexId)
  }
}
