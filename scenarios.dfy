/** Concrete runs through the access layer, from an empty database. */
module Scenarios {
  import opened Wrappers
  import opened Models
  import opened Db
  import CompetitionsCrud
  import ParticipantsCrud
  import AuthCrud
  import AuthDeps

  /** Registering twice with the same email: the first registration stores the participant with
      one partial-tier payment; the second is rejected and stores nothing. */
  method DuplicateEmailIsRejected()
    returns (first: Outcome<Participant>, second: Outcome<Participant>, payments: nat, participants: nat)
    ensures first.Ok? && !first.value.isQualified && !first.value.isArrived
    ensures second == Fail(Conflict)
    ensures payments == 1 && participants == 1
  {
    var db := new Session(Instant(0));
    var c := CompetitionsCrud.CreateCompetition(db, "Winter Open", Instant(0), None);
    var tier := CompetitionsCrud.CreateContribution(db, c.value.id, Partial, 1500);
    first := ParticipantsCrud.RegisterParticipant(db, c.value.id, "Ann Lee", "ann@example.org");
    second := ParticipantsCrud.RegisterParticipant(db, c.value.id, "Ann Lee", "ann@example.org");
    payments := |PaymentIdsOf(db.tables, first.value.id)|;
    participants := |db.tables.participants|;
  }

  /** A fresh database holding one competition that has only a full tier. */
  method CompetitionWithFullTierOnly() returns (db: Session, competitionId: int)
    ensures fresh(db) && db.Valid()
    ensures competitionId in db.tables.competitions
    ensures ContributionKey(competitionId, Partial) !in db.tables.contributions
    ensures db.tables.participants == map[]
  {
    db := new Session(Instant(0));
    var c := CompetitionsCrud.CreateCompetition(db, "Winter Open", Instant(0), None);
    competitionId := c.value.id;
    var full := CompetitionsCrud.CreateContribution(db, competitionId, Full, 3000);
    assert db.tables.contributions == map[ContributionKey(competitionId, Full) := Contribution(competitionId, Full, 3000)];
  }

  /** A competition without a partial tier cannot take registrations: the payment inserted with
      the participant has no contribution to refer to, and the participant is not stored either. */
  method RegistrationNeedsPartialTier() returns (r: Outcome<Participant>, participants: nat)
    ensures r == Fail(DanglingReference) && participants == 0
  {
    var db, id := CompetitionWithFullTierOnly();
    r := ParticipantsCrud.RegisterParticipant(db, id, "Ann Lee", "ann@example.org");
    participants := |db.tables.participants|;
  }

  /** A stand-in for bcrypt: a password matches the hash it was stored as, behind a fixed
      prefix. */
  function Verify(plain: string, hash: string): bool {
    hash == "h$" + plain
  }

  /** A fresh database holding one account, "judge", whose stored hash is that of "secret". */
  method SignedUp() returns (db: Session, judge: User)
    ensures fresh(db) && db.Valid()
    ensures db.tables.users == map[judge.id := judge]
    ensures judge.username == "judge" && judge.password == "h$secret"
  {
    db := new Session(Instant(0));
    var created := AuthCrud.CreateUser(db, "judge", "h$secret", false);
    judge := created.value;
  }

  /** Logging in after creating an account: the stored hash accepts the right password and
      refuses a wrong one, and a second account with the same username is rejected. */
  method LoginAfterSignUp()
    returns (judge: User, again: Outcome<User>, right: Option<User>, wrong: Option<User>)
    ensures again == Fail(Conflict)
    ensures right == Some(judge) && wrong == None
  {
    var db;
    db, judge := SignedUp();
    again := AuthCrud.CreateUser(db, "judge", "h$other", true);
    assert Verify("secret", db.tables.users[judge.id].password);
    assert !Verify("guess", db.tables.users[judge.id].password);
    right := AuthDeps.AuthenticateUser(db, "judge", "secret", Verify);
    wrong := AuthDeps.AuthenticateUser(db, "judge", "guess", Verify);
  }
}
