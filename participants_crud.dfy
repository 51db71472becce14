/** The access layer for participants and their qualifying videos. */
module ParticipantsCrud {
  import opened Wrappers
  import opened Models
  import opened Db

  /** register_participant_for_qualifying: inserts the participant under a fresh id together with
      a partial-tier payment for the same competition, in one transaction. The unique email
      rejects a second registration with the same address; the foreign keys reject an unknown
      competition and a competition that has no partial tier. Either both rows are committed or
      neither is. */
  method RegisterParticipant(db: Session, competitionId: int, fullname: string, email: string)
    returns (r: Outcome<Participant>)
    requires db.Valid()
    modifies db
    ensures db.Valid()
    ensures var emailTaken := exists k :: k in old(db.tables.participants) && old(db.tables.participants)[k].email == email;
      && (r.Fail? <==>
            emailTaken || competitionId !in old(db.tables.competitions)
            || ContributionKey(competitionId, Partial) !in old(db.tables.contributions))
      && (r.Fail? ==>
            && r.error == (if emailTaken then Conflict else DanglingReference)
            && db.tables == old(db.tables))
    ensures r.Ok? ==>
      && r.value == Participant(r.value.id, competitionId, fullname, email, false, false)
      && r.value.id !in old(db.tables.participants)
      && old(db.nextPaymentId) !in old(db.tables.payments)
      && var pay := Payment(old(db.nextPaymentId), r.value.id, competitionId, Partial, db.paymentDefaultTime);
         db.tables == old(db.tables).(
           participants := old(db.tables.participants)[r.value.id := r.value],
           payments := old(db.tables.payments)[pay.id := pay])
    ensures r.Ok? ==> PaymentIdsOf(db.tables, r.value.id) == {old(db.nextPaymentId)}
  {
    if exists k :: k in db.tables.participants && db.tables.participants[k].email == email {
      return Fail(Conflict);
    }
    if competitionId !in db.tables.competitions || ContributionKey(competitionId, Partial) !in db.tables.contributions {
      return Fail(DanglingReference);
    }
    var t := db.tables;
    var p := Participant(db.nextParticipantId, competitionId, fullname, email, false, false);
    var pay := Payment(db.nextPaymentId, p.id, competitionId, Partial, db.paymentDefaultTime);
    InsertRegistrationKeepsValid(t, p, pay);
    NewParticipantHasOnePayment(t, p, pay);
    db.nextParticipantId := db.nextParticipantId + 1;
    db.nextPaymentId := db.nextPaymentId + 1;
    db.Commit(t.(participants := t.participants[p.id := p], payments := t.payments[pay.id := pay]));
    r := Ok(p);
  }

  /** A newly registered participant owns exactly the one payment inserted with it. */
  lemma NewParticipantHasOnePayment(t: Tables, p: Participant, pay: Payment)
    requires EntriesIntact(t) && p.id !in t.participants && pay.id !in t.payments && pay.participantId == p.id
    ensures PaymentIdsOf(t.(participants := t.participants[p.id := p], payments := t.payments[pay.id := pay]), p.id)
            == {pay.id}
  {
    forall k | k in t.payments ensures t.payments[k].participantId != p.id {
      assert t.payments[k].participantId in t.participants;
    }
  }

  /** get_all_participants_from_db: the participants registered for a competition. */
  function GetAllParticipants(db: Session, competitionId: int): (r: set<Participant>)
    reads db
    requires db.Valid()
    ensures forall p :: p in r <==>
      p.competitionId == competitionId && p.id in db.tables.participants && db.tables.participants[p.id] == p
  {
    ParticipantsOfByKey(db.tables, competitionId);
    ParticipantsOf(db.tables, competitionId)
  }

  /** create_qualification_video_from_db: records a participant's qualifying video for a complex,
      with the column default "unqualified" as its status. The composite primary key rejects a
      second video for the pair; the foreign keys reject an unknown complex or participant. */
  method CreateQualificationVideo(db: Session, complexId: int, participantId: int, videoUrl: string)
    returns (r: Outcome<QualifyingVideo>)
    requires db.Valid()
    modifies db
    ensures db.Valid()
    ensures var key := EntryKey(complexId, participantId);
      && (r.Fail? <==>
            key in old(db.tables.videos) || complexId !in old(db.tables.complexes) || participantId !in old(db.tables.participants))
      && (r.Fail? ==>
            && r.error == (if key in old(db.tables.videos) then Conflict else DanglingReference)
            && db.tables == old(db.tables))
      && (r.Ok? ==>
            && r.value == QualifyingVideo(complexId, participantId, videoUrl, Unqualified)
            && db.tables == old(db.tables).(videos := old(db.tables.videos)[key := r.value]))
  {
    var key := EntryKey(complexId, participantId);
    if key in db.tables.videos {
      return Fail(Conflict);
    }
    if complexId !in db.tables.complexes || participantId !in db.tables.participants {
      return Fail(DanglingReference);
    }
    var v := QualifyingVideo(complexId, participantId, videoUrl, Unqualified);
    var t := db.tables;
    InsertVideoKeepsValid(t, v);
    db.Commit(t.(videos := t.videos[key := v]));
    r := Ok(v);
  }
}
