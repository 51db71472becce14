/** The relational schema of the competition backend: one datatype per table row, the key of each
    table, the constraints the database enforces (uniqueness, composite keys, foreign keys), and the
    ON DELETE CASCADE behaviour of the foreign keys, written out as an explicit pruning step. */
module Models {
  import opened Wrappers

  /** Payment tier. The CHECK constraints on contributions.mode and payments.mode admit exactly
      these two values, so a closed datatype is the storage-level restriction itself. */
  datatype Mode = Full | Partial

  datatype QualifierStatus = Qualified | Unqualified

  /** The unit a result is recorded in. */
  datatype ViewResult = Kg | Meters | Min | Reps | Cl

  /** A timestamp with time zone. The model never inspects it. */
  datatype Instant = Instant(ticks: int)

  /** A time of day with time zone. The model never inspects it. */
  datatype TimeOfDay = TimeOfDay(ticks: int)

  datatype User = User(id: int, username: string, password: string, isSuperuser: bool)

  datatype Competition = Competition(id: int, name: string, date: Instant, description: Option<string>)

  /** The composite primary key of contributions, which is also the composite foreign key that a
      payment uses to name the tier it is for. */
  datatype ContributionKey = ContributionKey(competitionId: int, mode: Mode)

  /** A fee tier of a competition. NUMERIC(10,2) prices are held as integer cents. */
  datatype Contribution = Contribution(competitionId: int, mode: Mode, price: int) {
    function Key(): ContributionKey { ContributionKey(competitionId, mode) }
  }

  datatype Participant = Participant(
    id: int, competitionId: int, fullname: string, email: string,
    isQualified: bool, isArrived: bool)

  datatype Payment = Payment(id: int, participantId: int, competitionId: int, mode: Mode, payDatetime: Instant) {
    /** The contribution row this payment is for. */
    function Tier(): ContributionKey { ContributionKey(competitionId, mode) }
  }

  datatype Complex = Complex(
    id: int, name: string, competitionId: int, description: string,
    isQualifying: bool, startTime: TimeOfDay, endTime: TimeOfDay)

  /** The composite primary key (complex_id, participant_id) of qualifying videos and of results. */
  datatype EntryKey = EntryKey(complexId: int, participantId: int)

  datatype QualifyingVideo = QualifyingVideo(
    complexId: int, participantId: int, videoUrl: string, qualifierStatus: QualifierStatus) {
    function Key(): EntryKey { EntryKey(complexId, participantId) }
  }

  datatype Result = Result(complexId: int, participantId: int, view: ViewResult, result: string) {
    function Key(): EntryKey { EntryKey(complexId, participantId) }
  }

  /** The contents of all eight tables, each indexed by its primary key. */
  datatype Tables = Tables(
    users: map<int, User>,
    competitions: map<int, Competition>,
    contributions: map<ContributionKey, Contribution>,
    participants: map<int, Participant>,
    payments: map<int, Payment>,
    complexes: map<int, Complex>,
    videos: map<EntryKey, QualifyingVideo>,
    results: map<EntryKey, Result>)

  const Empty := Tables(map[], map[], map[], map[], map[], map[], map[], map[])

  // ---------------------------------------------------------------------------------------------
  // Uniqueness. Each constraint is stated on the tables it concerns, so a write that leaves those
  // tables alone keeps it without further argument.

  ghost predicate UniqueUsernames(users: map<int, User>) {
    forall i, j :: i in users && j in users && i != j ==> users[i].username != users[j].username
  }

  /** users.password is declared unique, so two users can never store the same hash. */
  ghost predicate UniquePasswords(users: map<int, User>) {
    forall i, j :: i in users && j in users && i != j ==> users[i].password != users[j].password
  }

  ghost predicate UniqueCompetitionNames(competitions: map<int, Competition>) {
    forall i, j :: i in competitions && j in competitions && i != j ==>
      competitions[i].name != competitions[j].name
  }

  /** participants.email is unique across all competitions, not per competition. */
  ghost predicate UniqueEmails(participants: map<int, Participant>) {
    forall i, j :: i in participants && j in participants && i != j ==>
      participants[i].email != participants[j].email
  }

  /** UniqueConstraint(competition_id, participant_id, mode) on payments. */
  ghost predicate UniquePaymentTriples(payments: map<int, Payment>) {
    forall i, j :: i in payments && j in payments && i != j ==>
      (payments[i].competitionId, payments[i].participantId, payments[i].mode)
      != (payments[j].competitionId, payments[j].participantId, payments[j].mode)
  }

  /** UniqueConstraint(id, competition_id, name) on complexes, as declared. */
  ghost predicate UniqueComplexTriples(complexes: map<int, Complex>) {
    forall i, j :: i in complexes && j in complexes && i != j ==>
      (complexes[i].id, complexes[i].competitionId, complexes[i].name)
      != (complexes[j].id, complexes[j].competitionId, complexes[j].name)
  }

  ghost predicate Unique(t: Tables) {
    && UniqueUsernames(t.users) && UniquePasswords(t.users) && UniqueCompetitionNames(t.competitions)
    && UniqueEmails(t.participants) && UniquePaymentTriples(t.payments) && UniqueComplexTriples(t.complexes)
  }

  // ---------------------------------------------------------------------------------------------
  // Keys: every row is stored under the key made of its own key columns

  ghost predicate UserIds(users: map<int, User>) {
    forall k :: k in users ==> users[k].id == k
  }

  ghost predicate CompetitionIds(competitions: map<int, Competition>) {
    forall k :: k in competitions ==> competitions[k].id == k
  }

  ghost predicate ContributionKeys(contributions: map<ContributionKey, Contribution>) {
    forall k :: k in contributions ==> contributions[k].Key() == k
  }

  ghost predicate ParticipantIds(participants: map<int, Participant>) {
    forall k :: k in participants ==> participants[k].id == k
  }

  ghost predicate PaymentIds(payments: map<int, Payment>) {
    forall k :: k in payments ==> payments[k].id == k
  }

  ghost predicate ComplexIds(complexes: map<int, Complex>) {
    forall k :: k in complexes ==> complexes[k].id == k
  }

  ghost predicate VideoKeys(videos: map<EntryKey, QualifyingVideo>) {
    forall k :: k in videos ==> videos[k].Key() == k
  }

  ghost predicate ResultKeys(results: map<EntryKey, Result>) {
    forall k :: k in results ==> results[k].Key() == k
  }

  ghost predicate KeysConsistent(t: Tables) {
    && UserIds(t.users) && CompetitionIds(t.competitions) && ContributionKeys(t.contributions)
    && ParticipantIds(t.participants) && PaymentIds(t.payments) && ComplexIds(t.complexes)
    && VideoKeys(t.videos) && ResultKeys(t.results)
  }

  // ---------------------------------------------------------------------------------------------
  // Foreign keys

  ghost predicate ContributionsOwned(contributions: map<ContributionKey, Contribution>, competitions: map<int, Competition>) {
    forall k :: k in contributions ==> contributions[k].competitionId in competitions
  }

  ghost predicate ParticipantsOwned(participants: map<int, Participant>, competitions: map<int, Competition>) {
    forall k :: k in participants ==> participants[k].competitionId in competitions
  }

  ghost predicate ComplexesOwned(complexes: map<int, Complex>, competitions: map<int, Competition>) {
    forall k :: k in complexes ==> complexes[k].competitionId in competitions
  }

  /** A payment points at an existing participant and, through the two-column key
      (competition_id, mode), at an existing contribution. */
  ghost predicate PaymentsIntact(
    payments: map<int, Payment>, participants: map<int, Participant>,
    contributions: map<ContributionKey, Contribution>)
  {
    forall k :: k in payments ==> payments[k].participantId in participants && payments[k].Tier() in contributions
  }

  ghost predicate VideosIntact(
    videos: map<EntryKey, QualifyingVideo>, complexes: map<int, Complex>, participants: map<int, Participant>)
  {
    forall k :: k in videos ==> videos[k].complexId in complexes && videos[k].participantId in participants
  }

  ghost predicate ResultsIntact(
    results: map<EntryKey, Result>, complexes: map<int, Complex>, participants: map<int, Participant>)
  {
    forall k :: k in results ==> results[k].complexId in complexes && results[k].participantId in participants
  }

  /** Contributions, participants and complexes point at an existing competition. */
  ghost predicate OwnersIntact(t: Tables) {
    && ContributionsOwned(t.contributions, t.competitions)
    && ParticipantsOwned(t.participants, t.competitions)
    && ComplexesOwned(t.complexes, t.competitions)
  }

  /** Payments, videos and results point at existing rows. */
  ghost predicate EntriesIntact(t: Tables) {
    && PaymentsIntact(t.payments, t.participants, t.contributions)
    && VideosIntact(t.videos, t.complexes, t.participants)
    && ResultsIntact(t.results, t.complexes, t.participants)
  }

  ghost predicate ReferentialIntegrity(t: Tables) {
    OwnersIntact(t) && EntriesIntact(t)
  }

  /** Every state the database can be in. */
  ghost predicate Valid(t: Tables) {
    Unique(t) && KeysConsistent(t) && ReferentialIntegrity(t)
  }

  /** The Complexes unique constraint includes the primary key, so keying by id alone already
      guarantees it: the constraint can never reject a row. */
  lemma ComplexConstraintIsImpliedByKey(complexes: map<int, Complex>)
    requires ComplexIds(complexes)
    ensures UniqueComplexTriples(complexes)
  {
  }

  // ---------------------------------------------------------------------------------------------
  // Queries (row filters, as a WHERE clause computes them; SQL without ORDER BY gives no order)

  function ContributionsOf(t: Tables, competitionId: int): set<Contribution> {
    set k | k in t.contributions && t.contributions[k].competitionId == competitionId :: t.contributions[k]
  }

  function ParticipantsOf(t: Tables, competitionId: int): set<Participant> {
    set k | k in t.participants && t.participants[k].competitionId == competitionId :: t.participants[k]
  }

  function ComplexesOf(t: Tables, competitionId: int): set<Complex> {
    set k | k in t.complexes && t.complexes[k].competitionId == competitionId :: t.complexes[k]
  }

  function ResultsOf(t: Tables, complexId: int): set<Result> {
    set k | k in t.results && t.results[k].complexId == complexId :: t.results[k]
  }

  /** Ids of the payments a participant has. */
  function PaymentIdsOf(t: Tables, participantId: int): set<int> {
    set k | k in t.payments && t.payments[k].participantId == participantId
  }

  /** Ids of the participants registered for a competition. */
  function ParticipantIdsOf(t: Tables, competitionId: int): set<int> {
    set k | k in t.participants && t.participants[k].competitionId == competitionId
  }

  /** Ids of the complexes of a competition. */
  function ComplexIdsOf(t: Tables, competitionId: int): set<int> {
    set k | k in t.complexes && t.complexes[k].competitionId == competitionId
  }

  /** Every stored competition. */
  function CompetitionRows(t: Tables): set<Competition> {
    set k | k in t.competitions :: t.competitions[k]
  }

  /** The queries above, stated by key: a row is in the answer exactly when it is the row stored
      under its own key and it matches the filter. */
  lemma CompetitionRowsByKey(t: Tables)
    requires KeysConsistent(t)
    ensures forall c :: c in CompetitionRows(t) <==> c.id in t.competitions && t.competitions[c.id] == c
  {
  }

  lemma ContributionsOfByKey(t: Tables, competitionId: int)
    requires KeysConsistent(t)
    ensures forall c :: c in ContributionsOf(t, competitionId) <==>
      c.competitionId == competitionId && c.Key() in t.contributions && t.contributions[c.Key()] == c
  {
  }

  lemma ParticipantsOfByKey(t: Tables, competitionId: int)
    requires KeysConsistent(t)
    ensures forall p :: p in ParticipantsOf(t, competitionId) <==>
      p.competitionId == competitionId && p.id in t.participants && t.participants[p.id] == p
  {
  }

  lemma ComplexesOfByKey(t: Tables, competitionId: int)
    requires KeysConsistent(t)
    ensures forall x :: x in ComplexesOf(t, competitionId) <==>
      x.competitionId == competitionId && x.id in t.complexes && t.complexes[x.id] == x
  {
  }

  lemma ResultsOfByKey(t: Tables, complexId: int)
    requires KeysConsistent(t)
    ensures forall x :: x in ResultsOf(t, complexId) <==>
      x.complexId == complexId && x.Key() in t.results && t.results[x.Key()] == x
  {
  }

  /** Contributions are keyed by (competition_id, mode) and mode has two values, so a competition
      has at most two fee tiers. */
  lemma AtMostTwoTiers(t: Tables, competitionId: int)
    requires KeysConsistent(t)
    ensures |ContributionsOf(t, competitionId)| <= 2
  {
    var m := t.contributions;
    var full := ContributionKey(competitionId, Full);
    var partial := ContributionKey(competitionId, Partial);
    var a := (if full in m then {m[full]} else {}) + (if partial in m then {m[partial]} else {});
    forall c | c in ContributionsOf(t, competitionId) ensures c in a {
      var k :| k in m && m[k] == c;
      assert k == c.Key();
      if c.mode == Full { assert k == full; } else { assert k == partial; }
    }
    assert ContributionsOf(t, competitionId) <= a;
    SubsetCardinality(ContributionsOf(t, competitionId), a);
  }

  lemma SubsetCardinality<T>(s: set<T>, u: set<T>)
    requires s <= u
    ensures |s| <= |u|
  {
    assert u == s + (u - s);
  }

  // ---------------------------------------------------------------------------------------------
  // ON DELETE CASCADE

  /** Rows of `r` are rows of `t`, each stored under the same key. */
  ghost predicate SubTables(r: Tables, t: Tables) {
    && (forall k :: k in r.users ==> k in t.users && r.users[k] == t.users[k])
    && (forall k :: k in r.competitions ==> k in t.competitions && r.competitions[k] == t.competitions[k])
    && (forall k :: k in r.contributions ==> k in t.contributions && r.contributions[k] == t.contributions[k])
    && (forall k :: k in r.participants ==> k in t.participants && r.participants[k] == t.participants[k])
    && (forall k :: k in r.payments ==> k in t.payments && r.payments[k] == t.payments[k])
    && (forall k :: k in r.complexes ==> k in t.complexes && r.complexes[k] == t.complexes[k])
    && (forall k :: k in r.videos ==> k in t.videos && r.videos[k] == t.videos[k])
    && (forall k :: k in r.results ==> k in t.results && r.results[k] == t.results[k])
  }

  /** First stage of the cascade: drops the contributions, participants and complexes whose
      competition is gone. */
  function PruneOwned(t: Tables): Tables {
    t.(contributions := map k | k in t.contributions && t.contributions[k].competitionId in t.competitions
                          :: t.contributions[k],
       participants := map k | k in t.participants && t.participants[k].competitionId in t.competitions
                         :: t.participants[k],
       complexes := map k | k in t.complexes && t.complexes[k].competitionId in t.competitions
                      :: t.complexes[k])
  }

  /** Second stage of the cascade: drops the payments whose participant or tier is gone and the
      videos and results whose complex or participant is gone. */
  function PruneEntries(t: Tables): Tables {
    t.(payments := map k | k in t.payments && t.payments[k].participantId in t.participants
                                            && t.payments[k].Tier() in t.contributions
                     :: t.payments[k],
       videos := map k | k in t.videos && t.videos[k].complexId in t.complexes
                                        && t.videos[k].participantId in t.participants
                   :: t.videos[k],
       results := map k | k in t.results && t.results[k].complexId in t.complexes
                                          && t.results[k].participantId in t.participants
                    :: t.results[k])
  }

  /** Removes, in dependency order, every row whose referenced row is gone. Applied after one row
      is removed, this is what the cascading foreign keys do: the reference graph is two levels
      deep (competition, then contribution / participant / complex, then payment / video / result),
      so two stages reach every dependent row. */
  function Prune(t: Tables): Tables {
    PruneEntries(PruneOwned(t))
  }

  /** Pruning only removes rows, and what remains has no dangling reference. */
  lemma PruneIsSound(t: Tables)
    ensures SubTables(Prune(t), t)
    ensures ReferentialIntegrity(Prune(t))
  {
    var o := PruneOwned(t);
    PruneOwnedRemovesOnly(t);
    PruneEntriesRemovesOnly(o);
    SubTablesTransitive(Prune(t), o, t);
  }

  lemma PruneOwnedRemovesOnly(t: Tables)
    ensures SubTables(PruneOwned(t), t)
  {
  }

  lemma PruneEntriesRemovesOnly(t: Tables)
    ensures SubTables(PruneEntries(t), t)
  {
  }

  lemma SubTablesTransitive(a: Tables, b: Tables, c: Tables)
    requires SubTables(a, b) && SubTables(b, c)
    ensures SubTables(a, c)
  {
  }

  /** Removing rows cannot break a uniqueness constraint or the keying of the rows that stay. */
  lemma SubTablesKeepConstraints(r: Tables, t: Tables)
    requires SubTables(r, t) && Unique(t) && KeysConsistent(t)
    ensures Unique(r) && KeysConsistent(r)
  {
  }

  /** Removing rows from a valid store and pruning what they leave dangling gives a valid store. */
  lemma PruneAfterRemovalIsValid(s: Tables, t: Tables)
    requires SubTables(s, t) && Valid(t)
    ensures Valid(Prune(s)) && SubTables(Prune(s), t)
  {
    PruneIsSound(s);
    SubTablesTransitive(Prune(s), s, t);
    SubTablesKeepConstraints(Prune(s), t);
  }

  /** A store without dangling references has nothing to prune. */
  lemma PruneIsIdentityWithoutOrphans(t: Tables)
    requires ReferentialIntegrity(t)
    ensures Prune(t) == t
  {
    PruneOwnedIdentity(t);
    PruneEntriesIdentity(t);
  }

  lemma PruneOwnedIdentity(t: Tables)
    requires OwnersIntact(t)
    ensures PruneOwned(t) == t
  {
    var o := PruneOwned(t);
    forall k | k in t.contributions ensures k in o.contributions {
      assert t.contributions[k].competitionId in t.competitions;
    }
    forall k | k in t.participants ensures k in o.participants {
      assert t.participants[k].competitionId in t.competitions;
    }
    forall k | k in t.complexes ensures k in o.complexes {
      assert t.complexes[k].competitionId in t.competitions;
    }
  }

  lemma PruneEntriesIdentity(t: Tables)
    requires EntriesIntact(t)
    ensures PruneEntries(t) == t
  {
    var r := PruneEntries(t);
    forall k | k in t.payments ensures k in r.payments {
      assert t.payments[k].participantId in t.participants && t.payments[k].Tier() in t.contributions;
    }
    forall k | k in t.videos ensures k in r.videos {
      assert t.videos[k].complexId in t.complexes && t.videos[k].participantId in t.participants;
    }
    forall k | k in t.results ensures k in r.results {
      assert t.results[k].complexId in t.complexes && t.results[k].participantId in t.participants;
    }
  }

  function DeleteCompetition(t: Tables, id: int): Tables {
    Prune(t.(competitions := t.competitions - {id}))
  }

  function DeleteContribution(t: Tables, key: ContributionKey): Tables {
    Prune(t.(contributions := t.contributions - {key}))
  }

  function DeleteParticipant(t: Tables, id: int): Tables {
    Prune(t.(participants := t.participants - {id}))
  }

  function DeleteComplex(t: Tables, id: int): Tables {
    Prune(t.(complexes := t.complexes - {id}))
  }

  // Deleting a competition, table by table. Each lemma assumes only the constraints that its
  // table depends on.

  lemma CompetitionCascadeContributions(t: Tables, id: int)
    requires ContributionsOwned(t.contributions, t.competitions)
    ensures PruneOwned(t.(competitions := t.competitions - {id})).contributions
         == map k | k in t.contributions && t.contributions[k].competitionId != id :: t.contributions[k]
  {
    var o := PruneOwned(t.(competitions := t.competitions - {id}));
    forall k | k in t.contributions ensures k in o.contributions <==> t.contributions[k].competitionId != id {
      assert t.contributions[k].competitionId in t.competitions;
    }
  }

  lemma CompetitionCascadeParticipants(t: Tables, id: int)
    requires ParticipantsOwned(t.participants, t.competitions)
    ensures PruneOwned(t.(competitions := t.competitions - {id})).participants
         == map k | k in t.participants && t.participants[k].competitionId != id :: t.participants[k]
  {
    var o := PruneOwned(t.(competitions := t.competitions - {id}));
    forall k | k in t.participants ensures k in o.participants <==> t.participants[k].competitionId != id {
      assert t.participants[k].competitionId in t.competitions;
    }
  }

  lemma CompetitionCascadeComplexes(t: Tables, id: int)
    requires ComplexesOwned(t.complexes, t.competitions)
    ensures PruneOwned(t.(competitions := t.competitions - {id})).complexes
         == map k | k in t.complexes && t.complexes[k].competitionId != id :: t.complexes[k]
  {
    var o := PruneOwned(t.(competitions := t.competitions - {id}));
    forall k | k in t.complexes ensures k in o.complexes <==> t.complexes[k].competitionId != id {
      assert t.complexes[k].competitionId in t.competitions;
    }
  }

  /** A payment goes with its competition's tiers or with its participant. */
  lemma CompetitionCascadePayments(t: Tables, id: int)
    requires OwnersIntact(t) && PaymentsIntact(t.payments, t.participants, t.contributions)
    requires ContributionKeys(t.contributions)
    ensures DeleteCompetition(t, id).payments
         == map k | k in t.payments && t.payments[k].competitionId != id
                    && t.payments[k].participantId !in ParticipantIdsOf(t, id)
              :: t.payments[k]
  {
    CompetitionCascadeContributions(t, id);
    CompetitionCascadeParticipants(t, id);
    var r := DeleteCompetition(t, id);
    forall k | k in t.payments
      ensures k in r.payments <==>
        t.payments[k].competitionId != id && t.payments[k].participantId !in ParticipantIdsOf(t, id)
    {
      var p := t.payments[k];
      assert p.participantId in t.participants && p.Tier() in t.contributions;
      assert t.contributions[p.Tier()].competitionId == p.competitionId;
    }
  }

  lemma CompetitionCascadeVideos(t: Tables, id: int)
    requires OwnersIntact(t) && VideosIntact(t.videos, t.complexes, t.participants)
    ensures DeleteCompetition(t, id).videos
         == map k | k in t.videos && t.videos[k].complexId !in ComplexIdsOf(t, id)
                    && t.videos[k].participantId !in ParticipantIdsOf(t, id)
              :: t.videos[k]
  {
    CompetitionCascadeComplexes(t, id);
    CompetitionCascadeParticipants(t, id);
    var r := DeleteCompetition(t, id);
    forall k | k in t.videos
      ensures k in r.videos <==>
        t.videos[k].complexId !in ComplexIdsOf(t, id) && t.videos[k].participantId !in ParticipantIdsOf(t, id)
    {
      assert t.videos[k].complexId in t.complexes && t.videos[k].participantId in t.participants;
    }
  }

  lemma CompetitionCascadeResults(t: Tables, id: int)
    requires OwnersIntact(t) && ResultsIntact(t.results, t.complexes, t.participants)
    ensures DeleteCompetition(t, id).results
         == map k | k in t.results && t.results[k].complexId !in ComplexIdsOf(t, id)
                    && t.results[k].participantId !in ParticipantIdsOf(t, id)
              :: t.results[k]
  {
    CompetitionCascadeComplexes(t, id);
    CompetitionCascadeParticipants(t, id);
    var r := DeleteCompetition(t, id);
    forall k | k in t.results
      ensures k in r.results <==>
        t.results[k].complexId !in ComplexIdsOf(t, id) && t.results[k].participantId !in ParticipantIdsOf(t, id)
    {
      assert t.results[k].complexId in t.complexes && t.results[k].participantId in t.participants;
    }
  }

  /** Deleting a competition removes exactly its contributions, participants and complexes, the
      payments for its tiers or of its participants, and the videos and results of its complexes
      or participants. Every other row stays. */
  lemma DeleteCompetitionEffect(t: Tables, id: int)
    requires ReferentialIntegrity(t) && ContributionKeys(t.contributions)
    ensures var r := DeleteCompetition(t, id);
      && r.users == t.users
      && r.competitions == t.competitions - {id}
      && r.contributions == (map k | k in t.contributions && t.contributions[k].competitionId != id
                               :: t.contributions[k])
      && r.participants == (map k | k in t.participants && t.participants[k].competitionId != id
                              :: t.participants[k])
      && r.complexes == (map k | k in t.complexes && t.complexes[k].competitionId != id :: t.complexes[k])
      && r.payments == (map k | k in t.payments && t.payments[k].competitionId != id
                                && t.payments[k].participantId !in ParticipantIdsOf(t, id)
                          :: t.payments[k])
      && r.videos == (map k | k in t.videos && t.videos[k].complexId !in ComplexIdsOf(t, id)
                              && t.videos[k].participantId !in ParticipantIdsOf(t, id)
                        :: t.videos[k])
      && r.results == (map k | k in t.results && t.results[k].complexId !in ComplexIdsOf(t, id)
                               && t.results[k].participantId !in ParticipantIdsOf(t, id)
                         :: t.results[k])
  {
    CompetitionCascadeContributions(t, id);
    CompetitionCascadeParticipants(t, id);
    CompetitionCascadeComplexes(t, id);
    CompetitionCascadePayments(t, id);
    CompetitionCascadeVideos(t, id);
    CompetitionCascadeResults(t, id);
  }

  /** After a competition is deleted, no row refers to it, to one of its participants or to one of
      its complexes. */
  lemma DeleteCompetitionLeavesNoOrphans(t: Tables, id: int)
    requires Valid(t)
    ensures var r := DeleteCompetition(t, id);
      && id !in r.competitions
      && ContributionsOf(r, id) == {} && ParticipantsOf(r, id) == {} && ComplexesOf(r, id) == {}
      && (forall k :: k in r.payments ==>
            r.payments[k].competitionId != id && r.payments[k].participantId !in ParticipantIdsOf(t, id))
      && (forall k :: k in r.videos ==>
            r.videos[k].complexId !in ComplexIdsOf(t, id) && r.videos[k].participantId !in ParticipantIdsOf(t, id))
      && (forall k :: k in r.results ==>
            r.results[k].complexId !in ComplexIdsOf(t, id) && r.results[k].participantId !in ParticipantIdsOf(t, id))
  {
    DeleteCompetitionEffect(t, id);
  }

  /** Deleting a contribution removes that tier and the payments made for it, and nothing else. */
  lemma DeleteContributionEffect(t: Tables, key: ContributionKey)
    requires ReferentialIntegrity(t)
    ensures DeleteContribution(t, key)
         == t.(contributions := t.contributions - {key},
               payments := map k | k in t.payments && t.payments[k].Tier() != key :: t.payments[k])
  {
    var s := t.(contributions := t.contributions - {key});
    PruneOwnedIdentity(s);
    ContributionCascadePayments(t, key);
    VideosAndResultsStay(s);
  }

  lemma ContributionCascadePayments(t: Tables, key: ContributionKey)
    requires PaymentsIntact(t.payments, t.participants, t.contributions)
    ensures PruneEntries(t.(contributions := t.contributions - {key})).payments
         == map k | k in t.payments && t.payments[k].Tier() != key :: t.payments[k]
  {
    var r := PruneEntries(t.(contributions := t.contributions - {key}));
    forall k | k in t.payments ensures k in r.payments <==> t.payments[k].Tier() != key {
      assert t.payments[k].participantId in t.participants && t.payments[k].Tier() in t.contributions;
    }
  }

  /** With their complexes and participants intact, no video or result is pruned. */
  lemma VideosAndResultsStay(s: Tables)
    requires VideosIntact(s.videos, s.complexes, s.participants)
    requires ResultsIntact(s.results, s.complexes, s.participants)
    ensures PruneEntries(s).videos == s.videos && PruneEntries(s).results == s.results
  {
    var r := PruneEntries(s);
    forall k | k in s.videos ensures k in r.videos {
      assert s.videos[k].complexId in s.complexes && s.videos[k].participantId in s.participants;
    }
    forall k | k in s.results ensures k in r.results {
      assert s.results[k].complexId in s.complexes && s.results[k].participantId in s.participants;
    }
  }

  /** Deleting a participant removes exactly its payments, qualifying videos and results. */
  lemma DeleteParticipantEffect(t: Tables, id: int)
    requires ReferentialIntegrity(t)
    ensures DeleteParticipant(t, id)
         == t.(participants := t.participants - {id},
               payments := map k | k in t.payments && t.payments[k].participantId != id :: t.payments[k],
               videos := map k | k in t.videos && t.videos[k].participantId != id :: t.videos[k],
               results := map k | k in t.results && t.results[k].participantId != id :: t.results[k])
  {
    var s := t.(participants := t.participants - {id});
    PruneOwnedIdentity(s);
    ParticipantCascadePayments(t, id);
    ParticipantCascadeVideos(t, id);
    ParticipantCascadeResults(t, id);
  }

  lemma ParticipantCascadePayments(t: Tables, id: int)
    requires PaymentsIntact(t.payments, t.participants, t.contributions)
    ensures PruneEntries(t.(participants := t.participants - {id})).payments
         == map k | k in t.payments && t.payments[k].participantId != id :: t.payments[k]
  {
    var r := PruneEntries(t.(participants := t.participants - {id}));
    forall k | k in t.payments ensures k in r.payments <==> t.payments[k].participantId != id {
      assert t.payments[k].participantId in t.participants && t.payments[k].Tier() in t.contributions;
    }
  }

  lemma ParticipantCascadeVideos(t: Tables, id: int)
    requires VideosIntact(t.videos, t.complexes, t.participants)
    ensures PruneEntries(t.(participants := t.participants - {id})).videos
         == map k | k in t.videos && t.videos[k].participantId != id :: t.videos[k]
  {
    var r := PruneEntries(t.(participants := t.participants - {id}));
    forall k | k in t.videos ensures k in r.videos <==> t.videos[k].participantId != id {
      assert t.videos[k].complexId in t.complexes && t.videos[k].participantId in t.participants;
    }
  }

  lemma ParticipantCascadeResults(t: Tables, id: int)
    requires ResultsIntact(t.results, t.complexes, t.participants)
    ensures PruneEntries(t.(participants := t.participants - {id})).results
         == map k | k in t.results && t.results[k].participantId != id :: t.results[k]
  {
    var r := PruneEntries(t.(participants := t.participants - {id}));
    forall k | k in t.results ensures k in r.results <==> t.results[k].participantId != id {
      assert t.results[k].complexId in t.complexes && t.results[k].participantId in t.participants;
    }
  }

  /** Deleting a complex removes exactly its qualifying videos and results. */
  lemma DeleteComplexEffect(t: Tables, id: int)
    requires ReferentialIntegrity(t)
    ensures DeleteComplex(t, id)
         == t.(complexes := t.complexes - {id},
               videos := map k | k in t.videos && t.videos[k].complexId != id :: t.videos[k],
               results := map k | k in t.results && t.results[k].complexId != id :: t.results[k])
  {
    var s := t.(complexes := t.complexes - {id});
    PruneOwnedIdentity(s);
    PaymentsStay(s);
    ComplexCascadeVideos(t, id);
    ComplexCascadeResults(t, id);
  }

  /** With their participants and tiers intact, no payment is pruned. */
  lemma PaymentsStay(s: Tables)
    requires PaymentsIntact(s.payments, s.participants, s.contributions)
    ensures PruneEntries(s).payments == s.payments
  {
    var r := PruneEntries(s);
    forall k | k in s.payments ensures k in r.payments {
      assert s.payments[k].participantId in s.participants && s.payments[k].Tier() in s.contributions;
    }
  }

  lemma ComplexCascadeVideos(t: Tables, id: int)
    requires VideosIntact(t.videos, t.complexes, t.participants)
    ensures PruneEntries(t.(complexes := t.complexes - {id})).videos
         == map k | k in t.videos && t.videos[k].complexId != id :: t.videos[k]
  {
    var r := PruneEntries(t.(complexes := t.complexes - {id}));
    forall k | k in t.videos ensures k in r.videos <==> t.videos[k].complexId != id {
      assert t.videos[k].complexId in t.complexes;
    }
  }

  lemma ComplexCascadeResults(t: Tables, id: int)
    requires ResultsIntact(t.results, t.complexes, t.participants)
    ensures PruneEntries(t.(complexes := t.complexes - {id})).results
         == map k | k in t.results && t.results[k].complexId != id :: t.results[k]
  {
    var r := PruneEntries(t.(complexes := t.complexes - {id}));
    forall k | k in t.results ensures k in r.results <==> t.results[k].complexId != id {
      assert t.results[k].complexId in t.complexes;
    }
  }

  // ---------------------------------------------------------------------------------------------
  // Writes that keep every constraint: each lemma states what the database checks before it
  // accepts the row

  /** A competition whose id is fresh and whose name is not taken may be inserted. */
  lemma InsertCompetitionKeepsValid(t: Tables, c: Competition)
    requires Valid(t) && c.id !in t.competitions
    requires forall k :: k in t.competitions ==> t.competitions[k].name != c.name
    ensures Valid(t.(competitions := t.competitions[c.id := c]))
  {
  }

  /** A competition may be overwritten in place when no other competition has its new name. */
  lemma ReplaceCompetitionKeepsValid(t: Tables, c: Competition)
    requires Valid(t) && c.id in t.competitions
    requires forall k :: k in t.competitions && k != c.id ==> t.competitions[k].name != c.name
    ensures Valid(t.(competitions := t.competitions[c.id := c]))
  {
  }

  /** A contribution may be inserted when its key is free and its competition exists. */
  lemma InsertContributionKeepsValid(t: Tables, c: Contribution)
    requires Valid(t) && c.Key() !in t.contributions && c.competitionId in t.competitions
    ensures Valid(t.(contributions := t.contributions[c.Key() := c]))
  {
  }

  /** A stored contribution keeps every constraint when its price changes. */
  lemma RepriceContributionKeepsValid(t: Tables, key: ContributionKey, price: int)
    requires Valid(t) && key in t.contributions
    ensures Valid(t.(contributions := t.contributions[key := t.contributions[key].(price := price)]))
  {
  }

  /** A complex may be inserted under a fresh id when its competition exists. */
  lemma InsertComplexKeepsValid(t: Tables, x: Complex)
    requires Valid(t) && x.id !in t.complexes && x.competitionId in t.competitions
    ensures Valid(t.(complexes := t.complexes[x.id := x]))
  {
  }

  /** A result may be inserted when its key is free and its complex and participant exist. */
  lemma InsertResultKeepsValid(t: Tables, x: Result)
    requires Valid(t) && x.Key() !in t.results
    requires x.complexId in t.complexes && x.participantId in t.participants
    ensures Valid(t.(results := t.results[x.Key() := x]))
  {
  }

  /** A qualifying video may be inserted when its key is free and its complex and participant
      exist. */
  lemma InsertVideoKeepsValid(t: Tables, v: QualifyingVideo)
    requires Valid(t) && v.Key() !in t.videos
    requires v.complexId in t.complexes && v.participantId in t.participants
    ensures Valid(t.(videos := t.videos[v.Key() := v]))
  {
  }

  /** A user may be inserted under a fresh id when neither its username nor its password hash is
      taken. */
  lemma InsertUserKeepsValid(t: Tables, u: User)
    requires Valid(t) && u.id !in t.users
    requires forall k :: k in t.users ==> t.users[k].username != u.username && t.users[k].password != u.password
    ensures Valid(t.(users := t.users[u.id := u]))
  {
  }

  /** A participant and its first payment may be inserted together when both ids are fresh, the
      email is not taken, the competition and the paid tier exist, and the payment belongs to the
      new participant. */
  lemma InsertRegistrationKeepsValid(t: Tables, p: Participant, pay: Payment)
    requires Valid(t) && p.id !in t.participants && pay.id !in t.payments
    requires forall k :: k in t.participants ==> t.participants[k].email != p.email
    requires p.competitionId in t.competitions && pay.Tier() in t.contributions
    requires pay.participantId == p.id
    ensures Valid(t.(participants := t.participants[p.id := p], payments := t.payments[pay.id := pay]))
  {
  }
}
