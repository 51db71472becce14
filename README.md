# Competition backend: the relational store and its access layer

This project models the data layer of a competition-management backend. Organisers create
competitions with one or two fee tiers (contributions, keyed by competition and mode) and with
complexes. Athletes register as participants, which puts a partial-tier payment on record. They
upload qualifying videos and are given results per complex. User accounts authenticate with a
password hash and a bearer token.

The model has three layers.

- **`Models`** (`models.py`) holds the schema, written as values:
  - one datatype per row;
  - a `Tables` value with one map per table, each keyed by that table's primary key;
  - the constraints the database enforces, as predicates. These are the unique columns, the
    composite keys, and every foreign key, including the two-column payment → contribution key.
  - `Valid(t)` is the conjunction of these constraints.
  - ON DELETE CASCADE is written out as `Prune`, a two-stage removal of the rows left dangling.
    The four `Delete*` functions apply it after removing one row. Lemmas then state which rows
    each cascade removes and that nothing else changes.
- **`Db.Session`** is the committed database:
  - a `tables` field;
  - one id sequence per serial key;
  - the payment default time, which the schema module fixes once when it is loaded.
  - `Session.Valid()` says that the tables satisfy every constraint and that no sequence will
    hand out an id already in use. `Commit` is `session.commit()`: it makes a transaction's
    tables the committed state.
- **The access layer** takes the session as a parameter, as the Python functions do:
  - `CompetitionsCrud`, `ParticipantsCrud` and `AuthCrud` model the CRUD functions;
  - `CompetitionDeps` and `AuthDeps` model the request dependencies.
  - Every writer is one transaction. If a constraint rejects the write, the committed tables are
    unchanged. Otherwise the new tables are exactly the old ones plus, minus or with the one
    keyed row changed, together with the cascade where there is one.
  - Rejections are `Outcome` errors:
    - `Conflict`: a unique or primary-key violation;
    - `DanglingReference`: a foreign-key violation;
    - `NotFound`: `.one()` found no row;
    - `NameError`.
  - Where a write breaks more than one constraint, PostgreSQL reports the unique or primary-key
    violation first, and the model does the same.
  - The password verifier (bcrypt) and the token decoder (JWT) are function parameters.

Three defects in the source are recorded below under "## Findings". Each one has an as-written
member in module `Defects` and a concrete run that exposes it. The rest of the model uses the
intended behaviour. `Scenarios` drives the access layer through a few concrete runs from an
empty database.

The unique constraint on complexes, (id, competition_id, name), includes the primary key. It
therefore never rejects a row: `Models.ComplexConstraintIsImpliedByKey` proves this. It is
modelled exactly as declared and is not turned into a per-competition name check. Nothing in the
source checks `is_superuser` or guards the qualifier-status transition, and nothing requires a
video's complex and participant to belong to the same competition. The model adds none of these
checks either.

## Model

| member | source | states |
|---|---|---|
| Models.ComplexConstraintIsImpliedByKey | backend/app/db/models.py:148-152 | the declared (id, competition_id, name) uniqueness holds in every table keyed by id, so the constraint can never reject a row |
| Models.AtMostTwoTiers | backend/app/db/models.py:74-80 | because contributions are keyed by (competition_id, mode) and mode has two values, a competition has at most two stored tiers |
| Models.PruneIsSound | backend/app/db/models.py:81-136 | the cascade only removes rows, and what it leaves has no dangling foreign key |
| Models.PruneAfterRemovalIsValid | backend/app/db/models.py:81-136 | removing rows from a valid store and then cascading gives a store that satisfies every constraint and holds only rows of the original |
| Models.PruneIsIdentityWithoutOrphans | backend/app/db/models.py:81-136 | on a store with no dangling reference the cascade removes nothing |
| Models.DeleteCompetitionEffect | backend/app/db/models.py:58-66 | deleting a competition removes exactly its contributions, participants and complexes; the payments for its tiers or of its participants; and the videos and results of its complexes or participants. Users and every other row are unchanged |
| Models.CompetitionCascadePayments | backend/app/db/models.py:119-136 | when a competition goes, a payment goes exactly when it is for that competition's tier or belongs to one of its participants |
| Models.CompetitionCascadeVideos | backend/app/db/models.py:175-187 | when a competition goes, a qualifying video goes exactly when its complex or its participant belonged to that competition |
| Models.CompetitionCascadeResults | backend/app/db/models.py:200-214 | when a competition goes, a result goes exactly when its complex or its participant belonged to that competition |
| Models.DeleteCompetitionLeavesNoOrphans | backend/app/db/models.py:58-66 | after the delete, no contribution, participant or complex names the competition, and no payment, video or result names it, one of its participants or one of its complexes |
| Models.DeleteContributionEffect | backend/app/db/models.py:85-87 | deleting a contribution removes that tier and exactly the payments for it; nothing else changes |
| Models.DeleteParticipantEffect | backend/app/db/models.py:104-112 | deleting a participant removes exactly its payments, qualifying videos and results; nothing else changes |
| Models.DeleteComplexEffect | backend/app/db/models.py:158-163 | deleting a complex removes exactly its qualifying videos and results; nothing else changes |
| Models.InsertCompetitionKeepsValid | backend/app/db/models.py:54-55 | a competition under a fresh id whose name is not taken keeps every constraint |
| Models.ReplaceCompetitionKeepsValid | backend/app/db/models.py:54-55 | overwriting a competition keeps every constraint when no other competition has the new name |
| Models.InsertContributionKeepsValid | backend/app/db/models.py:75-83 | a contribution whose key is free and whose competition exists keeps every constraint |
| Models.RepriceContributionKeepsValid | backend/app/db/models.py:89 | changing a stored contribution's price keeps every constraint |
| Models.InsertComplexKeepsValid | backend/app/db/models.py:152-156 | a complex under a fresh id whose competition exists keeps every constraint |
| Models.InsertResultKeepsValid | backend/app/db/models.py:203-213 | a result whose key is free and whose complex and participant exist keeps every constraint |
| Models.InsertVideoKeepsValid | backend/app/db/models.py:178-186 | a qualifying video whose key is free and whose complex and participant exist keeps every constraint |
| Models.InsertUserKeepsValid | backend/app/db/models.py:42-44 | a user under a fresh id whose username and password hash are both untaken keeps every constraint |
| Models.InsertRegistrationKeepsValid | backend/app/db/models.py:100-135 | a new participant with a fresh id and an untaken email, inserted with its own payment for an existing tier, keeps every constraint |
| Db.Session.Commit | backend/app/api/crud/competitions.py:18 | the committed tables become exactly the transaction's tables, which satisfy every constraint; the id sequences are untouched |
| Db.Session.constructor | backend/app/db/models.py:141-143 | a new database is empty and valid, and the payment default time is the value fixed at load time |
| CompetitionDeps.GetCurrentCompetition | backend/app/api/dependencies/competition.py:8-18 | returns the stored competition with that id exactly when one exists, and otherwise reports not-found; reads only |
| CompetitionsCrud.CreateCompetition | backend/app/api/crud/competitions.py:13-20 | fails with Conflict, changing nothing, exactly when the name is taken; otherwise adds the one competition with the given fields under a fresh id |
| CompetitionsCrud.GetCompetition | backend/app/api/crud/competitions.py:23-32 | the stored competition together with exactly its contributions, or not-found when the id is absent |
| CompetitionsCrud.GetAllCompetitions | backend/app/api/crud/competitions.py:34-40 | a competition is listed exactly when it is the stored row under its id |
| CompetitionsCrud.UpdateCompetition | backend/app/api/crud/competitions.py:42-55 | on the guarded competition: Conflict, changing nothing, exactly when another competition has the new name; otherwise it sets name and date, sets the description only when supplied, and changes no other row |
| CompetitionsCrud.DeleteCompetition | backend/app/api/crud/competitions.py:58-63 | commits the competition cascade, keeps every constraint, returns true, and leaves no contribution, participant or complex of the competition |
| CompetitionsCrud.CreateContribution | backend/app/api/crud/competitions.py:66-81 | fails, changing nothing, exactly when the (competition_id, mode) key is taken (Conflict) or the competition is absent (DanglingReference); otherwise adds the one tier |
| CompetitionsCrud.GetContributions | backend/app/api/crud/competitions.py:84-92 | exactly the stored tiers of the competition, at most two |
| CompetitionsCrud.UpdateContribution | backend/app/api/crud/competitions.py:95-109 | not-found, changing nothing, exactly when the key is absent; otherwise only that row's price changes |
| CompetitionsCrud.DeleteContribution | backend/app/api/crud/competitions.py:112-120 | not-found, changing nothing, exactly when the key is absent; otherwise it removes that tier and exactly its payments |
| CompetitionsCrud.CreateComplex | backend/app/api/crud/competitions.py:122-130 | DanglingReference, changing nothing, exactly when the competition is absent; otherwise adds the one complex under a fresh id |
| CompetitionsCrud.GetAllComplexes | backend/app/api/crud/competitions.py:133-141 | exactly the stored complexes of the competition |
| CompetitionsCrud.CreateResult | backend/app/api/crud/competitions.py:144-155 | fails, changing nothing, exactly when the (complex_id, participant_id) key is taken (Conflict) or the complex or participant is absent (DanglingReference); otherwise adds the one result |
| CompetitionsCrud.GetAllResults | backend/app/api/crud/competitions.py:158-166 | exactly the stored results of the complex |
| ParticipantsCrud.RegisterParticipant | backend/app/api/crud/participants.py:7-18 | all or nothing: it fails, changing nothing, exactly when the email is taken (Conflict) or the competition or its partial tier is absent (DanglingReference). Otherwise it adds the participant, not qualified and not arrived, and its one partial-tier payment, and no other row |
| ParticipantsCrud.NewParticipantHasOnePayment | backend/app/api/crud/participants.py:14-16 | after the registration's insert, the new participant owns exactly the one payment inserted with it |
| ParticipantsCrud.GetAllParticipants | backend/app/api/crud/participants.py:21-29 | exactly the stored participants of the competition |
| ParticipantsCrud.CreateQualificationVideo | backend/app/api/crud/participants.py:32-43 | fails, changing nothing, exactly when the (complex_id, participant_id) key is taken (Conflict) or the complex or participant is absent (DanglingReference); otherwise adds the one video with status unqualified |
| AuthCrud.CreateUser | backend/app/api/crud/auth.py:6-17 | Conflict, changing nothing, exactly when the username or the password hash is taken; otherwise adds the one user, and looking its username up then returns it |
| AuthCrud.GetUser | backend/app/api/crud/auth.py:20-28 | the stored user with exactly that username when there is one, otherwise None |
| AuthDeps.IdentifyUser | backend/app/api/dependencies/auth.py:22-28 | a lookup by username: some user exactly when that username is registered |
| AuthDeps.AuthenticateUser | backend/app/api/dependencies/auth.py:32-39 | returns the user exactly when a stored user has that username and the password verifies against its hash |
| AuthDeps.FailedLoginsLookAlike | backend/app/api/dependencies/auth.py:35-37 | an unknown username and a wrong password for a known one give the same refusal |
| AuthDeps.GetCurrentUser | backend/app/api/dependencies/auth.py:42-59 | 403 exactly when the token does not decode; the user exactly when the decoded subject names a registered user; 404 otherwise, including a missing subject |
| Defects.CreateContributionAsWritten | backend/app/api/crud/competitions.py:66-81 | as written, every call ends in NameError |
| Defects.CreateContributionAlwaysFails | backend/app/api/crud/competitions.py:70-71 | on an existing competition without a partial tier, the as-written creator fails while the intended one stores the tier |
| Defects.UpdateContributionAsWritten | backend/app/api/crud/competitions.py:95-109 | as written: not-found exactly when the key is absent, otherwise the row with the new price is returned, and the committed store is not modified |
| Defects.UpdateContributionIsLost | backend/app/api/crud/competitions.py:99-109 | repricing a tier from 1500 to 2000 as written returns 2000 while the store keeps 1500 |
| Defects.DeleteContributionAsWritten | backend/app/api/crud/competitions.py:112-120 | as written: not-found exactly when the key is absent, otherwise success is reported and the committed store is not modified |
| Defects.DeleteContributionIsLost | backend/app/api/crud/competitions.py:115-120 | deleting a tier as written reports success while the tier stays stored |
| Scenarios.DuplicateEmailIsRejected | backend/app/api/crud/participants.py:7-18 | a second registration with the same email is a Conflict; one participant with one payment remains |
| Scenarios.RegistrationNeedsPartialTier | backend/app/api/crud/participants.py:14-16 | registering for a competition that has only a full tier fails with DanglingReference and stores no participant |
| Scenarios.LoginAfterSignUp | backend/app/api/dependencies/auth.py:32-39 | after sign-up, the right password authenticates the user, a wrong one is refused, and a second account with the same username is a Conflict |

## Left out

- HTTP routes, request and response schemas, configuration, logging, and the engine and session
  setup are not modelled. The route rule that an empty contribution list is answered with 404 is
  not modelled either. db/database.py is not part of this model; it also refers to names that
  are never defined.
- Not modelled: bcrypt hashing and verification, JWT encoding, expiry and the secret key. The
  password check and the token decoder are function parameters.
- Concurrency and isolation are not modelled: each operation runs alone and atomically. The
  `Valid()` precondition of every access-layer member expresses that the database held its
  constraints before the call.
- Several database types are not modelled:
  - NUMERIC(10,2) prices are integer cents with no overflow bound;
  - the VARCHAR(255) length limits are absent;
  - timestamps and times of day are opaque values.
- Returned lists are sets: SQL without ORDER BY gives no order.
- A PostgreSQL sequence also consumes a value when an insert is rejected. Here the id counters
  advance only on success, so the ids the model hands out can differ from a real database's.
  The model still proves that ids are fresh.
- CompetitionsCrud.UpdateCompetition: the request schema always sets the name and the date, so
  the model has no update with an empty SET clause.
- Models.DeleteParticipant and Models.DeleteComplex: the source has no function that deletes a
  participant or a complex. These cascades appear only as functions with their effect lemmas,
  because the schema declares them.
- CompetitionsCrud.DeleteContribution: returns the competition_id that RETURNING yields, where
  the source function discards it and returns None.

## Findings

| source | as written | input that shows it | evidently intended | confidence | as-written member | corrected member |
|---|---|---|---|---|---|---|
| backend/app/api/crud/competitions.py:71 | `insert(Contributions)` is called, but line 2 imports only select, text, update and delete, so every call raises NameError | creating the partial tier of an existing competition (`Defects.CreateContributionAlwaysFails`) | insert the row, as auth.py does with its own `insert` import | not executed | Defects.CreateContributionAsWritten | CompetitionsCrud.CreateContribution |
| backend/app/api/crud/competitions.py:99-109 | the UPDATE ... RETURNING row is returned without `session.commit()`, so closing the session rolls it back | repricing the partial tier of "Winter Open" from 1500 to 2000: 2000 is returned, 1500 stays stored (`Defects.UpdateContributionIsLost`) | commit as update_competition_from_db does at line 53 | not executed | Defects.UpdateContributionAsWritten | CompetitionsCrud.UpdateContribution |
| backend/app/api/crud/competitions.py:115-120 | the DELETE ... RETURNING runs without `session.commit()`, and the route then reports the deletion | deleting the partial tier of "Winter Open": success is reported and the tier stays stored (`Defects.DeleteContributionIsLost`) | commit, so that the tier and its payments are removed | not executed | Defects.DeleteContributionAsWritten | CompetitionsCrud.DeleteContribution |
