/** The embedding repositories as code: each method is proved to take exactly the atomic step of its name. */
module EmbeddingWorkRepository {
  import opened Common
  import opened EmbeddingWork
  import opened EmbeddingHistory
  import W = EmbeddingWork

  function Reply<T>(o: Outcome<T>): Result<T, Error> {
    match o
    case Done(_, value) => Ok(value)
    case Rejected(e) => Err(e)
  }

  class Repository {
    var chunks: map<ChunkId, Chunk>
    var statuses: map<RevisionId, RevisionStatus>
    var works: map<WorkKey, Work>
    var embeddings: map<EmbeddingKey, EmbeddingRow>
    var reservations: map<ReservationId, Reservation>
    var scopes: map<ScopeId, Scope>

    function State(): Db
      reads this
    {
      Db(chunks, statuses, works, embeddings, reservations, scopes)
    }

    method ClaimOrReadCompleted(key: WorkKey, now: Instant, leaseMs: int, rights: bool)
      returns (r: Result<Option<Record>, Error>)
      modifies this
      ensures State() == After(old(State()), ClaimOrRead(old(State()), key, now, leaseMs, rights))
      ensures r == Reply(ClaimOrRead(old(State()), key, now, leaseMs, rights))
      ensures Reachable(old(State())) ==> Reachable(State())
    {
      if !ValidProfile(key.profile) || leaseMs < 1000 || leaseMs > 300000 { return Err(InvalidUsage); }
      if key.chunk !in chunks || chunks[key.chunk].contentHash != key.inputHash { return Err(StaleWork); }
      ghost var s := State();
      var saved := works;
      if key !in works {
        works := works[key := Work(Waiting, 0, None, None, None)];
      }
      if !rights {
        works := saved;
        return Err(ApprovalRequired);
      }
      r := ReadOrLease(key, now, leaseMs);
      if r.Err? {
        works := saved;
      }
      ClaimReachable(s, State(), key, now, leaseMs, rights);
    }

    method ReadOrLease(key: WorkKey, now: Instant, leaseMs: int) returns (r: Result<Option<Record>, Error>)
      requires key in works
      modifies this
      ensures State() == After(old(State()), W.ReadOrLease(old(State()), key, now, leaseMs))
      ensures r == Reply(W.ReadOrLease(old(State()), key, now, leaseMs))
    {
      var row := works[key];
      if row.state == Completed {
        if row.embedding.None? || row.embedding.value !in embeddings
           || embeddings[row.embedding.value].dimensions != key.profile.dimensions
           || row.embedding.value.profileHash != HashOf(key.profile)
        {
          return Err(StaleWork);
        }
        return Ok(Some(Record(row, Some(embeddings[row.embedding.value].vector))));
      }
      if row.state == OutcomeUnknown || row.state == Failed { return Ok(Some(Record(row, None))); }
      if Leased(row.leaseUntil, now) { return Ok(None); }
      if row.state == Calling {
        works := works[key := row.(state := OutcomeUnknown)];
        Hold(row.reservation);
        return Ok(Some(Record(works[key], None)));
      }
      works := works[key := row.(state := Claimed, leaseEpoch := row.leaseEpoch + 1,
                                 leaseUntil := Some(now + leaseMs), reservation := None)];
      return Ok(Some(Record(works[key], None)));
    }

    method Hold(id: Option<ReservationId>)
      modifies this`reservations
      ensures reservations == HoldReservation(old(reservations), id)
    {
      if id.Some? && id.value in reservations && reservations[id.value].state == Reserved {
        reservations := reservations[id.value := reservations[id.value].(state := Unknown)];
      }
    }

    method BeginCall(key: WorkKey, epoch: nat, id: ReservationId, now: Instant, rights: bool)
      returns (r: Result<(), Error>)
      modifies this
      ensures State() == After(old(State()), W.BeginCall(old(State()), key, epoch, id, now, rights))
      ensures r == Reply(W.BeginCall(old(State()), key, epoch, id, now, rights))
      ensures Reachable(old(State())) ==> Reachable(State())
    {
      ghost var s := State();
      if key !in works { return Err(StaleWork); }
      var work := works[key];
      if work.state != Claimed || work.leaseEpoch != epoch || !Leased(work.leaseUntil, now) { return Err(StaleWork); }
      if id !in reservations { return Err(ReservationConflict); }
      var reservation := reservations[id];
      if reservation.state != Reserved || reservation.lane != IngestionEmbedding
         || reservation.attempt != ForWork(key, epoch) { return Err(ReservationConflict); }
      if reservation.scope !in scopes { return Err(ApprovalRequired); }
      var scope := scopes[reservation.scope];
      if !scope.approved || scope.blocked || key.profile !in scope.profiles { return Err(ApprovalRequired); }
      if !rights { return Err(ApprovalRequired); }
      if ReservationTaken(works, key, id) { return Err(Constraint); }
      works := works[key := work.(state := Calling, reservation := Some(id))];
      BeginReachable(s, State(), key, epoch, id, now, rights);
      return Ok(());
    }

    method CompleteWork(key: WorkKey, epoch: nat, vector: seq<real>, now: Instant, rights: bool)
      returns (r: Result<(), Error>)
      modifies this
      ensures State() == After(old(State()), W.CompleteWork(old(State()), key, epoch, vector, now, rights))
      ensures r == Reply(W.CompleteWork(old(State()), key, epoch, vector, now, rights))
      ensures Reachable(old(State())) ==> Reachable(State())
    {
      ghost var s := State();
      if key !in works { return Err(StaleWork); }
      var work := works[key];
      if work.leaseEpoch != epoch || work.state != Calling || !Leased(work.leaseUntil, now) { return Err(StaleWork); }
      if !ValidVector(vector, key.profile.dimensions) { return Err(InvalidUsage); }
      if !rights { return Err(ApprovalRequired); }
      var row := EmbeddingFor(key);
      if row !in embeddings {
        embeddings := embeddings[row := EmbeddingRow(key.profile.dimensions, vector)];
      }
      works := works[key := work.(state := Completed, embedding := Some(row), leaseUntil := None)];
      FinishReachable(s, State(), key, epoch, vector, now, rights);
      return Ok(());
    }

    method MarkOutcomeUnknown(key: WorkKey, epoch: nat)
      modifies this
      ensures State() == W.MarkOutcomeUnknown(old(State()), key, epoch)
      ensures Reachable(old(State())) ==> Reachable(State())
    {
      ghost var s := State();
      if key !in works || works[key].leaseEpoch != epoch || works[key].state != Calling { return; }
      var work := works[key];
      works := works[key := work.(state := OutcomeUnknown)];
      Hold(work.reservation);
      LoseTrackReachable(s, State(), key, epoch);
    }

    method MarkFailed(key: WorkKey, epoch: nat)
      modifies this
      ensures State() == W.MarkFailed(old(State()), key, epoch)
      ensures Reachable(old(State())) ==> Reachable(State())
    {
      ghost var s := State();
      if key !in works || works[key].leaseEpoch != epoch || works[key].state != Calling { return; }
      works := works[key := works[key].(state := Failed, leaseUntil := None)];
      GiveUpReachable(s, State(), key, epoch);
    }

    method MarkLexicalReady(revision: RevisionId, blockedSource: bool) returns (r: Result<(), Error>)
      modifies this
      ensures State() == After(old(State()), W.MarkLexicalReady(old(State()), revision, blockedSource))
      ensures r == Reply(W.MarkLexicalReady(old(State()), revision, blockedSource))
      ensures Reachable(old(State())) ==> Reachable(State())
    {
      ghost var s := State();
      if revision !in statuses { return Err(NotFound); }
      var status := statuses[revision];
      if status == Tombstoned || status == Quarantined { return Err(InvalidState); }
      if ChunksOf(State(), revision) == {} { return Err(InvalidState); }
      if blockedSource { return Err(InvalidState); }
      if status == PendingRevision || status == Processing {
        statuses := statuses[revision := Searchable];
      }
      LexicalReachable(s, State(), revision, blockedSource);
      return Ok(());
    }

    /** One query a chunk, ending at the first chunk without its embedding. */
    method GetVectorReadiness(revision: RevisionId, profile: Profile) returns (ready: bool)
      ensures ready <==> VectorReady(State(), revision, profile)
    {
      if revision !in statuses { return false; }
      if statuses[revision] == Tombstoned || statuses[revision] == Quarantined { return false; }
      var rows := ChunksOf(State(), revision);
      if rows == {} { return false; }
      var rest := rows;
      while rest != {}
        invariant rest <= rows
        invariant forall c :: c in rows - rest ==> ChunkReady(State(), c, profile)
        decreases |rest|
      {
        var c :| c in rest;
        var row := EmbeddingFor(WorkKey(c, chunks[c].contentHash, profile));
        if row !in embeddings || embeddings[row].dimensions != profile.dimensions {
          assert !ChunkReady(State(), c, profile);
          return false;
        }
        rest := rest - {c};
      }
      return true;
    }
  }
}
