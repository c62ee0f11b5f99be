/**
  Embedding work items, their leases and bound budget reservations, and vector readiness.

  A work item's id and its work key determine each other, and so do an embedding row and its unique key;
  a profile stands for its own hash. Reservation ids are random, hence a parameter of the step that draws one.
*/
module EmbeddingWork {
  import opened Common

  type Instant = int
  type ChunkId = nat
  type RevisionId = nat
  type ReservationId = nat
  type ScopeId = string

  datatype Profile = Profile(
    provider: string, model: string, version: string, dimensions: int,
    priceVersion: string, tokenizerVersion: string, approvalReference: string)

  /** Rows older than profiles carry a plain text instead of a profile's hash. */
  datatype ProfileHash = HashOf(profile: Profile) | Legacy(text: string)

  datatype WorkKey = WorkKey(chunk: ChunkId, inputHash: string, profile: Profile)

  datatype WorkState = Waiting | Claimed | Calling | Completed | OutcomeUnknown | Failed

  datatype Work = Work(
    state: WorkState, leaseEpoch: nat, leaseUntil: Option<Instant>,
    reservation: Option<ReservationId>, embedding: Option<EmbeddingKey>)

  datatype EmbeddingKey = EmbeddingKey(
    chunk: ChunkId, provider: string, model: string, profileHash: ProfileHash, inputHash: string)

  datatype EmbeddingRow = EmbeddingRow(dimensions: int, vector: seq<real>)

  datatype Lane = IngestionEmbedding | OtherLane(name: string)
  datatype AttemptId = ForWork(key: WorkKey, epoch: nat) | OtherAttempt(text: string)
  datatype ReservationState = Reserved | Settled | Unknown | Released
  datatype Reservation = Reservation(scope: ScopeId, attempt: AttemptId, lane: Lane, state: ReservationState)
  datatype Scope = Scope(approved: bool, blocked: bool, profiles: set<Profile>)

  datatype RevisionStatus = PendingRevision | Processing | Searchable | Quarantined | Tombstoned
  datatype Chunk = Chunk(revision: RevisionId, contentHash: string)

  datatype Db = Db(
    chunks: map<ChunkId, Chunk>,
    statuses: map<RevisionId, RevisionStatus>,
    works: map<WorkKey, Work>,
    embeddings: map<EmbeddingKey, EmbeddingRow>,
    reservations: map<ReservationId, Reservation>,
    scopes: map<ScopeId, Scope>)

  datatype Error =
    | InvalidUsage | StaleWork | ReservationConflict | ApprovalRequired | BudgetExhausted | UnknownOutcome
    | NotFound | InvalidState
    | Constraint   // a unique constraint of the schema

  datatype Outcome<+T> = Done(db: Db, value: T) | Rejected(error: Error)

  function After<T>(s: Db, o: Outcome<T>): Db {
    if o.Done? then o.db else s
  }

  // ---------- Claiming and calling ----------

  predicate ValidProfile(p: Profile) {
    && p.provider != "" && p.model != "" && p.version != "" && p.priceVersion != ""
    && p.tokenizerVersion != "" && p.approvalReference != "" && 1 <= p.dimensions <= 16000
  }

  predicate Leased(until: Option<Instant>, now: Instant) {
    until.Some? && until.value > now
  }

  function EmbeddingFor(key: WorkKey): EmbeddingKey {
    EmbeddingKey(key.chunk, key.profile.provider, key.profile.model, HashOf(key.profile), key.inputHash)
  }

  /** A reservation still held becomes one of unknown outcome. */
  function HoldReservation(reservations: map<ReservationId, Reservation>, id: Option<ReservationId>)
    : map<ReservationId, Reservation>
  {
    if id.Some? && id.value in reservations && reservations[id.value].state == Reserved
    then reservations[id.value := reservations[id.value].(state := Unknown)]
    else reservations
  }

  /** The row as it is now, with the vector if it is completed. */
  datatype Record = Record(row: Work, vector: Option<seq<real>>)

  /** `rights` is what the rights query over the chunk's sources finds. `None` is work in flight elsewhere. */
  function ClaimOrRead(s: Db, key: WorkKey, now: Instant, leaseMs: int, rights: bool): Outcome<Option<Record>> {
    if !ValidProfile(key.profile) || leaseMs < 1000 || leaseMs > 300000 then Rejected(InvalidUsage)
    else if key.chunk !in s.chunks || s.chunks[key.chunk].contentHash != key.inputHash then Rejected(StaleWork)
    else if !rights then Rejected(ApprovalRequired)
    else
      var works := if key in s.works then s.works else s.works[key := Work(Waiting, 0, None, None, None)];
      ReadOrLease(s.(works := works), key, now, leaseMs)
  }

  /** What becomes of the item's row: read if it has ended, left alone under a lease, else leased or given up on. */
  function ReadOrLease(s: Db, key: WorkKey, now: Instant, leaseMs: int): Outcome<Option<Record>>
    requires key in s.works
  {
    var row := s.works[key];
    match row.state
    case Completed =>
      if row.embedding.Some? && row.embedding.value in s.embeddings
         && s.embeddings[row.embedding.value].dimensions == key.profile.dimensions
         && row.embedding.value.profileHash == HashOf(key.profile)
      then Done(s, Some(Record(row, Some(s.embeddings[row.embedding.value].vector))))
      else Rejected(StaleWork)
    case OutcomeUnknown => Done(s, Some(Record(row, None)))
    case Failed => Done(s, Some(Record(row, None)))
    case _ =>
      if Leased(row.leaseUntil, now) then Done(s, None)
      else if row.state == Calling then
        var unknown := row.(state := OutcomeUnknown);
        Done(s.(works := s.works[key := unknown], reservations := HoldReservation(s.reservations, row.reservation)),
             Some(Record(unknown, None)))
      else
        var claimed := row.(state := Claimed, leaseEpoch := row.leaseEpoch + 1,
                            leaseUntil := Some(now + leaseMs), reservation := None);
        Done(s.(works := s.works[key := claimed]), Some(Record(claimed, None)))
  }

  predicate ReservationTaken(works: map<WorkKey, Work>, key: WorkKey, id: ReservationId) {
    exists k :: k in works && k != key && works[k].reservation == Some(id)
  }

  /** The step that allows the one paid call. */
  function BeginCall(s: Db, key: WorkKey, epoch: nat, id: ReservationId, now: Instant, rights: bool): Outcome<()> {
    if key !in s.works || s.works[key].state != Claimed || s.works[key].leaseEpoch != epoch
       || !Leased(s.works[key].leaseUntil, now) then Rejected(StaleWork)
    else if id !in s.reservations then Rejected(ReservationConflict)
    else
      var r := s.reservations[id];
      if r.state != Reserved || r.lane != IngestionEmbedding || r.attempt != ForWork(key, epoch)
      then Rejected(ReservationConflict)
      else if r.scope !in s.scopes || !s.scopes[r.scope].approved || s.scopes[r.scope].blocked
              || key.profile !in s.scopes[r.scope].profiles then Rejected(ApprovalRequired)
      else if !rights then Rejected(ApprovalRequired)
      else if ReservationTaken(s.works, key, id) then Rejected(Constraint)
      else Done(s.(works := s.works[key := s.works[key].(state := Calling, reservation := Some(id))]), ())
  }

  predicate ValidVector(vector: seq<real>, dimensions: int) {
    |vector| == dimensions && exists i :: 0 <= i < |vector| && vector[i] != 0.0
  }

  function CompleteWork(s: Db, key: WorkKey, epoch: nat, vector: seq<real>, now: Instant, rights: bool): Outcome<()> {
    if key !in s.works || s.works[key].leaseEpoch != epoch || s.works[key].state != Calling
       || !Leased(s.works[key].leaseUntil, now) then Rejected(StaleWork)
    else if !ValidVector(vector, key.profile.dimensions) then Rejected(InvalidUsage)
    else if !rights then Rejected(ApprovalRequired)
    else
      var row := EmbeddingFor(key);
      var embeddings := if row in s.embeddings then s.embeddings
                        else s.embeddings[row := EmbeddingRow(key.profile.dimensions, vector)];
      var done := s.works[key].(state := Completed, embedding := Some(row), leaseUntil := None);
      Done(s.(works := s.works[key := done], embeddings := embeddings), ())
  }

  function MarkOutcomeUnknown(s: Db, key: WorkKey, epoch: nat): Db {
    if key !in s.works || s.works[key].leaseEpoch != epoch || s.works[key].state != Calling then s
    else s.(works := s.works[key := s.works[key].(state := OutcomeUnknown)],
            reservations := HoldReservation(s.reservations, s.works[key].reservation))
  }

  function MarkFailed(s: Db, key: WorkKey, epoch: nat): Db {
    if key !in s.works || s.works[key].leaseEpoch != epoch || s.works[key].state != Calling then s
    else s.(works := s.works[key := s.works[key].(state := Failed, leaseUntil := None)])
  }

  // ---------- The budget's side ----------

  /**
    One reservation an attempt: asking again with the same terms finds the one there is.
    `admitted` is whether the scope's daily, lane and outstanding sums leave room.
  */
  function Reserve(
      s: Db, scope: ScopeId, attempt: AttemptId, lane: Lane, id: ReservationId, sameTerms: bool, admitted: bool)
    : Outcome<()>
  {
    if scope !in s.scopes || !s.scopes[scope].approved then Rejected(ApprovalRequired)
    else if exists r :: r in s.reservations && s.reservations[r].attempt == attempt then
      if sameTerms then Done(s, ()) else Rejected(ReservationConflict)
    else if s.scopes[scope].blocked || !admitted then Rejected(BudgetExhausted)
    else if id in s.reservations then Rejected(Constraint)
    else Done(s.(reservations := s.reservations[id := Reservation(scope, attempt, lane, Reserved)]), ())
  }

  /** `over` is whether the actual usage exceeds what was reserved, which blocks the scope. */
  function Settle(s: Db, id: ReservationId, over: bool): Outcome<()> {
    if id !in s.reservations || s.reservations[id].state == Released then Rejected(ReservationConflict)
    else if s.reservations[id].state == Settled then Done(s, ())
    else
      var r := s.reservations[id];
      var scopes := if over && r.scope in s.scopes
                    then s.scopes[r.scope := s.scopes[r.scope].(blocked := true)] else s.scopes;
      Done(s.(reservations := s.reservations[id := r.(state := Settled)], scopes := scopes), ())
  }

  function ReleaseUnsent(s: Db, id: ReservationId): Outcome<()> {
    if id !in s.reservations then Rejected(ReservationConflict)
    else if s.reservations[id].state == Released then Done(s, ())
    else if s.reservations[id].state != Reserved then Rejected(UnknownOutcome)
    else if exists k :: k in s.works && s.works[k].reservation == Some(id)
                        && s.works[k].state in {Calling, Completed, OutcomeUnknown} then Rejected(UnknownOutcome)
    else Done(s.(reservations := s.reservations[id := s.reservations[id].(state := Released)]), ())
  }

  // ---------- Readiness ----------

  /** `blockedSource` is whether the revision's source is known and disabled. */
  function MarkLexicalReady(s: Db, revision: RevisionId, blockedSource: bool): Outcome<()> {
    if revision !in s.statuses then Rejected(NotFound)
    else if !Visible(s, revision) || ChunksOf(s, revision) == {} || blockedSource then Rejected(InvalidState)
    else if s.statuses[revision] in {PendingRevision, Processing} then
      Done(s.(statuses := s.statuses[revision := Searchable]), ())
    else Done(s, ())
  }

  predicate Visible(s: Db, revision: RevisionId) {
    revision in s.statuses && s.statuses[revision] !in {Quarantined, Tombstoned}
  }

  function ChunksOf(s: Db, revision: RevisionId): set<ChunkId> {
    set c | c in s.chunks && s.chunks[c].revision == revision
  }

  /** The check of a completed embedding delivery: by work item, profile hash and dimensions only. */
  predicate ChunkEvidence(s: Db, c: ChunkId, p: Profile)
    requires c in s.chunks
  {
    exists k :: k in s.works && k.chunk == c && k.inputHash == s.chunks[c].contentHash
      && s.works[k].state == Completed && s.works[k].embedding.Some?
      && var e := s.works[k].embedding.value;
         e in s.embeddings && e.chunk == c && e.inputHash == s.chunks[c].contentHash
         && e.profileHash == HashOf(p) && s.embeddings[e].dimensions == p.dimensions
  }

  predicate EmbeddingEvidence(s: Db, revision: RevisionId, p: Profile) {
    Visible(s, revision) && ChunksOf(s, revision) != {}
    && forall c :: c in ChunksOf(s, revision) ==> ChunkEvidence(s, c, p)
  }

  /** The check of a search: the embedding of the chunk's content under provider, model, profile and dimensions. */
  predicate ChunkReady(s: Db, c: ChunkId, p: Profile)
    requires c in s.chunks
  {
    var e := EmbeddingFor(WorkKey(c, s.chunks[c].contentHash, p));
    e in s.embeddings && s.embeddings[e].dimensions == p.dimensions
  }

  predicate VectorReady(s: Db, revision: RevisionId, p: Profile) {
    Visible(s, revision) && ChunksOf(s, revision) != {}
    && forall c :: c in ChunksOf(s, revision) ==> ChunkReady(s, c, p)
  }
}
