/** At most one paid call for each work item, and readiness that lasts: over every run, whatever the clocks say. */
module EmbeddingHistory {
  import opened Common
  import opened EmbeddingWork

  datatype Action =
    | SaveChunk(chunk: ChunkId, row: Chunk)
    | SetStatus(revision: RevisionId, status: RevisionStatus)
    | SetScope(scopeId: ScopeId, scope: Scope)
    | Claim(key: WorkKey, now: Instant, leaseMs: int, rights: bool)
    | Begin(key: WorkKey, epoch: nat, reservation: ReservationId, now: Instant, rights: bool)
    | Finish(key: WorkKey, epoch: nat, vector: seq<real>, now: Instant, rights: bool)
    | LoseTrack(key: WorkKey, epoch: nat)
    | GiveUp(key: WorkKey, epoch: nat)
    | ReserveFor(scopeId: ScopeId, attempt: AttemptId, lane: Lane, id: ReservationId, sameTerms: bool, admitted: bool)
    | SettleOne(id: ReservationId, over: bool)
    | HoldOne(id: ReservationId)
    | ReleaseOne(id: ReservationId)
    | Lexical(revision: RevisionId, blockedSource: bool)

  function Step(s: Db, a: Action): Db {
    match a
    case SaveChunk(c, row) => if c in s.chunks then s else s.(chunks := s.chunks[c := row])
    case SetStatus(revision, status) => s.(statuses := s.statuses[revision := status])
    case SetScope(id, scope) => s.(scopes := s.scopes[id := scope])
    case Claim(key, now, leaseMs, rights) => After(s, ClaimOrRead(s, key, now, leaseMs, rights))
    case Begin(key, epoch, r, now, rights) => After(s, BeginCall(s, key, epoch, r, now, rights))
    case Finish(key, epoch, vector, now, rights) => After(s, CompleteWork(s, key, epoch, vector, now, rights))
    case LoseTrack(key, epoch) => MarkOutcomeUnknown(s, key, epoch)
    case GiveUp(key, epoch) => MarkFailed(s, key, epoch)
    case ReserveFor(scope, attempt, lane, id, same, admitted) =>
      After(s, Reserve(s, scope, attempt, lane, id, same, admitted))
    case SettleOne(id, over) => After(s, Settle(s, id, over))
    case HoldOne(id) => s.(reservations := HoldReservation(s.reservations, Some(id)))
    case ReleaseOne(id) => After(s, ReleaseUnsent(s, id))
    case Lexical(revision, blockedSource) => After(s, MarkLexicalReady(s, revision, blockedSource))
  }

  function Exec(s: Db, trace: seq<Action>): Db
    decreases |trace|
  {
    if trace == [] then s else Exec(Step(s, trace[0]), trace[1..])
  }

  const EMPTY := Db(map[], map[], map[], map[], map[], map[])

  lemma {:induction false} ExecJoin(s: Db, a: seq<Action>, b: seq<Action>)
    ensures Exec(s, a + b) == Exec(Exec(s, a), b)
    decreases |a|
  {
    if a == [] {
      assert a + b == b;
    } else {
      ConsSplit(a, b);
      ExecJoin(Step(s, a[0]), a[1..], b);
    }
  }

  lemma ExecThen(s: Db, trace: seq<Action>, a: Action)
    ensures Exec(s, trace + [a]) == Step(Exec(s, trace), a)
  {
    ExecJoin(s, trace, [a]);
    assert [a][1..] == [];
  }

  ghost predicate Reachable(s: Db) {
    exists trace :: s == Exec(EMPTY, trace)
  }

  lemma StepReachable(s: Db, a: Action)
    ensures Reachable(s) ==> Reachable(Step(s, a))
  {
    if Reachable(s) {
      var trace :| s == Exec(EMPTY, trace);
      ExecThen(EMPTY, trace, a);
    }
  }

  // ---------- Each repository operation, as a step ----------

  lemma ClaimReachable(s: Db, t: Db, key: WorkKey, now: Instant, leaseMs: int, rights: bool)
    requires t == After(s, ClaimOrRead(s, key, now, leaseMs, rights))
    ensures Reachable(s) ==> Reachable(t)
  {
    StepReachable(s, Claim(key, now, leaseMs, rights));
  }

  lemma BeginReachable(s: Db, t: Db, key: WorkKey, epoch: nat, id: ReservationId, now: Instant, rights: bool)
    requires t == After(s, BeginCall(s, key, epoch, id, now, rights))
    ensures Reachable(s) ==> Reachable(t)
  {
    StepReachable(s, Begin(key, epoch, id, now, rights));
  }

  lemma FinishReachable(s: Db, t: Db, key: WorkKey, epoch: nat, vector: seq<real>, now: Instant, rights: bool)
    requires t == After(s, CompleteWork(s, key, epoch, vector, now, rights))
    ensures Reachable(s) ==> Reachable(t)
  {
    StepReachable(s, Finish(key, epoch, vector, now, rights));
  }

  lemma LoseTrackReachable(s: Db, t: Db, key: WorkKey, epoch: nat)
    requires t == MarkOutcomeUnknown(s, key, epoch)
    ensures Reachable(s) ==> Reachable(t)
  {
    StepReachable(s, LoseTrack(key, epoch));
  }

  lemma GiveUpReachable(s: Db, t: Db, key: WorkKey, epoch: nat)
    requires t == MarkFailed(s, key, epoch)
    ensures Reachable(s) ==> Reachable(t)
  {
    StepReachable(s, GiveUp(key, epoch));
  }

  lemma LexicalReachable(s: Db, t: Db, revision: RevisionId, blockedSource: bool)
    requires t == After(s, MarkLexicalReady(s, revision, blockedSource))
    ensures Reachable(s) ==> Reachable(t)
  {
    StepReachable(s, Lexical(revision, blockedSource));
  }

  // ---------- At most one paid call ----------

  /** Once a call was allowed, the item never goes back to a state from which another could be. */
  predicate CallAllowed(s: Db, key: WorkKey) {
    key in s.works && s.works[key].state in {Calling, Completed, OutcomeUnknown, Failed}
  }

  function Begins(s: Db, trace: seq<Action>, key: WorkKey): nat
    decreases |trace|
  {
    if trace == [] then 0 else
    var a := trace[0];
    (if a.Begin? && a.key == key && BeginCall(s, key, a.epoch, a.reservation, a.now, a.rights).Done? then 1 else 0)
    + Begins(Step(s, a), trace[1..], key)
  }

  lemma ClaimKeepsAllowed(s: Db, a: Action, key: WorkKey)
    requires CallAllowed(s, key) && a.Claim?
    ensures CallAllowed(Step(s, a), key)
  {
    if a.key == key && Step(s, a) != s { ClaimMoves(s, a); }
  }

  lemma CallKeepsAllowed(s: Db, a: Action, key: WorkKey)
    requires CallAllowed(s, key) && OnWork(a) && !a.Claim?
    ensures CallAllowed(Step(s, a), key)
  {}

  lemma CallAllowedStays(s: Db, a: Action, key: WorkKey)
    requires CallAllowed(s, key)
    ensures CallAllowed(Step(s, a), key)
  {
    if a.Claim? {
      ClaimKeepsAllowed(s, a, key);
    } else if OnWork(a) {
      CallKeepsAllowed(s, a, key);
    } else {
      BudgetStepKeepsRows(s, a);
    }
  }

  /** Over any run, whatever leases expire and whatever is reclaimed, an item begins at most one paid call. */
  lemma {:induction false} AtMostOnePaidCall(s: Db, trace: seq<Action>, key: WorkKey)
    ensures Begins(s, trace, key) <= 1
    ensures CallAllowed(s, key) ==> Begins(s, trace, key) == 0
    ensures Begins(s, trace, key) == 1 ==> CallAllowed(Exec(s, trace), key)
    decreases |trace|
  {
    if trace != [] {
      AtMostOnePaidCall(Step(s, trace[0]), trace[1..], key);
      if CallAllowed(s, key) {
        CallAllowedStays(s, trace[0], key);
      }
      if CallAllowed(Step(s, trace[0]), key) {
        CallAllowedLasts(Step(s, trace[0]), trace[1..], key);
      }
    }
  }

  lemma {:induction false} CallAllowedLasts(s: Db, trace: seq<Action>, key: WorkKey)
    requires CallAllowed(s, key)
    ensures CallAllowed(Exec(s, trace), key)
    decreases |trace|
  {
    if trace != [] {
      CallAllowedStays(s, trace[0], key);
      CallAllowedLasts(Step(s, trace[0]), trace[1..], key);
    }
  }

  // ---------- Reservations and embeddings ----------

  /** A bound reservation was drawn for this very item and epoch; a lost call never keeps one as if unspent. */
  ghost predicate WorkOk(s: Db, key: WorkKey)
    requires key in s.works
  {
    var w := s.works[key];
    && key.chunk in s.chunks && s.chunks[key.chunk].contentHash == key.inputHash
    && (w.state in {Waiting, Claimed} ==> w.reservation.None?)
    && (w.state in {Calling, Completed, OutcomeUnknown, Failed} ==>
          && w.reservation.Some? && w.reservation.value in s.reservations
          && s.reservations[w.reservation.value].attempt == ForWork(key, w.leaseEpoch))
    && (w.state in {Calling, Completed, OutcomeUnknown} ==> s.reservations[w.reservation.value].state != Released)
    && (w.state == OutcomeUnknown ==> s.reservations[w.reservation.value].state != Reserved)
    && (w.state == Completed ==> w.embedding == Some(EmbeddingFor(key)) && EmbeddingFor(key) in s.embeddings)
  }

  /** An embedding filed under a profile's hash has that profile's provider, model and dimensions. */
  ghost predicate EmbeddingOk(s: Db, e: EmbeddingKey)
    requires e in s.embeddings
  {
    && e.chunk in s.chunks
    && (e.profileHash.HashOf? ==>
      && e.provider == e.profileHash.profile.provider && e.model == e.profileHash.profile.model
      && s.embeddings[e].dimensions == e.profileHash.profile.dimensions)
  }

  /** Only a completed work item of that chunk, content and profile files an embedding under a profile's hash. */
  ghost predicate MadeByWork(s: Db, e: EmbeddingKey) {
    e.profileHash.HashOf? ==>
      var k := WorkKey(e.chunk, e.inputHash, e.profileHash.profile);
      k in s.works && s.works[k].state == Completed
  }

  ghost predicate Inv(s: Db) {
    && (forall k {:trigger WorkOk(s, k)} :: k in s.works ==> WorkOk(s, k))
    && (forall e {:trigger EmbeddingOk(s, e)} :: e in s.embeddings ==> EmbeddingOk(s, e))
    && (forall e {:trigger MadeByWork(s, e)} :: e in s.embeddings ==> MadeByWork(s, e))
  }

  lemma CallStepKeepsCompleted(s: Db, a: Action, key: WorkKey)
    requires key in s.works && s.works[key].state == Completed && OnWork(a) && !a.Claim?
    ensures key in Step(s, a).works && Step(s, a).works[key] == s.works[key]
  {}

  lemma ClaimKeepsCompleted(s: Db, a: Action, key: WorkKey)
    requires key in s.works && s.works[key].state == Completed && a.Claim?
    ensures key in Step(s, a).works && Step(s, a).works[key] == s.works[key]
  {
    if a.key == key && Step(s, a) != s { ClaimMoves(s, a); }
  }

  /** A completed item never changes again. */
  lemma CompletedStays(s: Db, a: Action, key: WorkKey)
    requires key in s.works && s.works[key].state == Completed
    ensures key in Step(s, a).works && Step(s, a).works[key] == s.works[key]
  {
    if a.Claim? {
      ClaimKeepsCompleted(s, a, key);
    } else if OnWork(a) {
      CallStepKeepsCompleted(s, a, key);
    } else {
      BudgetStepKeepsRows(s, a);
    }
  }

  lemma {:induction false} CompletedLasts(s: Db, trace: seq<Action>, key: WorkKey)
    requires key in s.works && s.works[key].state == Completed
    ensures key in Exec(s, trace).works && Exec(s, trace).works[key] == s.works[key]
    decreases |trace|
  {
    if trace != [] {
      CompletedStays(s, trace[0], key);
      CompletedLasts(Step(s, trace[0]), trace[1..], key);
    }
  }

  /** The budget's and the documents' steps touch no work item. */
  lemma BudgetStepKeepsRows(s: Db, a: Action)
    requires !OnWork(a)
    ensures Step(s, a).works == s.works
  {}

  lemma OnlyFinishAddsEmbeddings(s: Db, a: Action)
    requires !a.Finish?
    ensures Step(s, a).embeddings == s.embeddings
  {}

  lemma NewEmbeddingFromWork(s: Db, a: Action, e: EmbeddingKey)
    requires a.Finish? && e in Step(s, a).embeddings && e !in s.embeddings
    ensures MadeByWork(Step(s, a), e)
  {}

  lemma StepKeepsMadeByWork(s: Db, a: Action, e: EmbeddingKey)
    requires Inv(s) && e in Step(s, a).embeddings
    ensures MadeByWork(Step(s, a), e)
  {
    if !a.Finish? { OnlyFinishAddsEmbeddings(s, a); }
    if e !in s.embeddings {
      NewEmbeddingFromWork(s, a, e);
    } else {
      assert MadeByWork(s, e);
      if e.profileHash.HashOf? {
        CompletedStays(s, a, WorkKey(e.chunk, e.inputHash, e.profileHash.profile));
      }
    }
  }

  lemma StepKeepsEmbeddings(s: Db, a: Action)
    requires Inv(s)
    ensures forall e {:trigger EmbeddingOk(Step(s, a), e)} :: e in Step(s, a).embeddings ==> EmbeddingOk(Step(s, a), e)
  {
    forall e | e in Step(s, a).embeddings ensures EmbeddingOk(Step(s, a), e) {
      if e in s.embeddings {
        assert EmbeddingOk(s, e);
      } else {
        assert WorkOk(s, a.key);
      }
    }
  }

  predicate OnWork(a: Action) {
    a.Claim? || a.Begin? || a.Finish? || a.LoseTrack? || a.GiveUp?
  }

  /** What a claim does to its own row: nothing, a new lease, or the end of a call that outlived its lease. */
  lemma ClaimMoves(s: Db, a: Action)
    requires a.Claim? && Step(s, a) != s
    ensures var t := Step(s, a);
            && a.key.chunk in s.chunks && s.chunks[a.key.chunk].contentHash == a.key.inputHash && a.key in t.works
            && s.chunks == t.chunks && s.embeddings == t.embeddings
            && (if a.key in s.works && s.works[a.key].state == Calling then
                  t.works[a.key] == s.works[a.key].(state := OutcomeUnknown)
                  && t.reservations == HoldReservation(s.reservations, s.works[a.key].reservation)
                else
                  (a.key in s.works ==> s.works[a.key].state in {Waiting, Claimed})
                  && t.works[a.key].state == Claimed && t.works[a.key].reservation.None?)
  {}

  lemma ClaimKeepsItsWork(s: Db, a: Action)
    requires Inv(s) && a.Claim? && a.key in Step(s, a).works
    ensures WorkOk(Step(s, a), a.key)
  {
    assert a.key in s.works ==> WorkOk(s, a.key);
    if Step(s, a) != s {
      ClaimMoves(s, a);
    }
  }

  lemma ClaimTouchesOne(s: Db, a: Action, k: WorkKey)
    requires a.Claim? && k in Step(s, a).works && k != a.key
    ensures k in s.works && Step(s, a).works[k] == s.works[k]
  {}

  lemma ClaimHoldsOne(s: Db, a: Action)
    requires a.Claim?
    ensures var t := Step(s, a);
            && t.embeddings == s.embeddings && t.chunks == s.chunks
            && (t.reservations == s.reservations
               || (a.key in s.works && t.reservations == HoldReservation(s.reservations, s.works[a.key].reservation)))
  {}

  lemma ClaimKeepsOtherWork(s: Db, a: Action, k: WorkKey)
    requires Inv(s) && a.Claim? && k in Step(s, a).works && k != a.key
    ensures WorkOk(Step(s, a), k)
  {
    ClaimTouchesOne(s, a, k);
    ClaimHoldsOne(s, a);
    assert WorkOk(s, k);
  }

  lemma FinishKeepsWorks(s: Db, a: Action, k: WorkKey)
    requires Inv(s) && a.Finish? && k in Step(s, a).works
    ensures WorkOk(Step(s, a), k)
  {
    assert WorkOk(s, k);
  }

  lemma BeginKeepsWorks(s: Db, a: Action, k: WorkKey)
    requires Inv(s) && k in Step(s, a).works && a.Begin?
    ensures WorkOk(Step(s, a), k)
  {
    assert WorkOk(s, k);
  }

  lemma GiveUpKeepsWorks(s: Db, a: Action, k: WorkKey)
    requires Inv(s) && k in Step(s, a).works && a.GiveUp?
    ensures WorkOk(Step(s, a), k)
  {
    assert WorkOk(s, k);
  }

  lemma LoseTrackKeepsWorks(s: Db, a: Action, k: WorkKey)
    requires Inv(s) && k in Step(s, a).works && a.LoseTrack?
    ensures WorkOk(Step(s, a), k)
  {
    assert WorkOk(s, k);
    assert a.key in s.works ==> WorkOk(s, a.key);
  }

  lemma WorkStepKeepsWorks(s: Db, a: Action, k: WorkKey)
    requires Inv(s) && k in Step(s, a).works && OnWork(a)
    ensures WorkOk(Step(s, a), k)
  {
    if a.Claim? {
      if k == a.key {
        ClaimKeepsItsWork(s, a);
      } else {
        ClaimKeepsOtherWork(s, a, k);
      }
    } else if a.Finish? {
      FinishKeepsWorks(s, a, k);
    } else if a.Begin? {
      BeginKeepsWorks(s, a, k);
    } else if a.GiveUp? {
      GiveUpKeepsWorks(s, a, k);
    } else {
      LoseTrackKeepsWorks(s, a, k);
    }
  }

  lemma BudgetStepKeepsWorks(s: Db, a: Action, k: WorkKey)
    requires Inv(s) && k in Step(s, a).works && !OnWork(a)
    ensures WorkOk(Step(s, a), k)
  {
    assert WorkOk(s, k);
  }

  lemma StepKeepsInv(s: Db, a: Action)
    requires Inv(s)
    ensures Inv(Step(s, a))
  {
    StepKeepsEmbeddings(s, a);
    forall k | k in Step(s, a).works ensures WorkOk(Step(s, a), k) {
      if OnWork(a) {
        WorkStepKeepsWorks(s, a, k);
      } else {
        BudgetStepKeepsWorks(s, a, k);
      }
    }
    forall e | e in Step(s, a).embeddings ensures MadeByWork(Step(s, a), e) {
      StepKeepsMadeByWork(s, a, e);
    }
  }

  lemma {:induction false} ExecKeepsInv(s: Db, trace: seq<Action>)
    requires Inv(s)
    ensures Inv(Exec(s, trace))
    decreases |trace|
  {
    if trace != [] {
      StepKeepsInv(s, trace[0]);
      ExecKeepsInv(Step(s, trace[0]), trace[1..]);
    }
  }

  lemma ReachableInv(s: Db)
    requires Reachable(s)
    ensures Inv(s)
  {
    var trace :| s == Exec(EMPTY, trace);
    ExecKeepsInv(EMPTY, trace);
  }

  /** No two items share a reservation. */
  lemma ReservationsNotShared(s: Db, j: WorkKey, k: WorkKey)
    requires Reachable(s) && j in s.works && k in s.works && j != k
    ensures s.works[j].reservation.Some? ==> s.works[j].reservation != s.works[k].reservation
  {
    ReachableInv(s);
    assert WorkOk(s, j) && WorkOk(s, k);
  }

  /**
    The reservation of a call that may have been made is never given back, and one whose call was lost
    track of is not counted as merely reserved.
  */
  lemma PaidReservationsKept(s: Db, key: WorkKey)
    requires Reachable(s) && key in s.works && s.works[key].state in {Calling, Completed, OutcomeUnknown}
    ensures s.works[key].reservation.Some? && s.works[key].reservation.value in s.reservations
    ensures s.reservations[s.works[key].reservation.value].state != Released
    ensures s.works[key].state == OutcomeUnknown ==>
              s.reservations[s.works[key].reservation.value].state in {Unknown, Settled}
  {
    ReachableInv(s);
    assert WorkOk(s, key);
  }

  // ---------- Readiness ----------

  /** What one chunk needs for its revision's delivery is what a search needs of it. */
  lemma ChunkEvidenceIffReady(s: Db, c: ChunkId, p: Profile)
    requires Inv(s) && c in s.chunks
    ensures ChunkEvidence(s, c, p) <==> ChunkReady(s, c, p)
  {
    var key := WorkKey(c, s.chunks[c].contentHash, p);
    if ChunkEvidence(s, c, p) {
      var k :| k in s.works && k.chunk == c && k.inputHash == s.chunks[c].contentHash
        && s.works[k].state == Completed && s.works[k].embedding.Some?
        && var e := s.works[k].embedding.value;
           e in s.embeddings && e.chunk == c && e.inputHash == s.chunks[c].contentHash
           && e.profileHash == HashOf(p) && s.embeddings[e].dimensions == p.dimensions;
      assert WorkOk(s, k) && EmbeddingOk(s, EmbeddingFor(k));
    }
    if ChunkReady(s, c, p) {
      assert MadeByWork(s, EmbeddingFor(key)) && WorkOk(s, key);
    }
  }

  /**
    The check that completes an embedding delivery asks for a work item and looks at the profile's hash and
    dimensions; the one a search asks looks at provider and model too, and at no work item. They agree.
  */
  lemma EvidenceIffReady(s: Db, revision: RevisionId, p: Profile)
    requires Reachable(s)
    ensures EmbeddingEvidence(s, revision, p) <==> VectorReady(s, revision, p)
  {
    ReachableInv(s);
    InvEvidenceIffReady(s, revision, p);
  }

  lemma InvEvidenceIffReady(s: Db, revision: RevisionId, p: Profile)
    requires Inv(s)
    ensures EmbeddingEvidence(s, revision, p) <==> VectorReady(s, revision, p)
  {
    forall c | c in ChunksOf(s, revision) ensures ChunkEvidence(s, c, p) <==> ChunkReady(s, c, p) {
      ChunkEvidenceIffReady(s, c, p);
    }
  }

  /** Embeddings and chunks are only ever added. */
  ghost predicate Grows(s: Db, t: Db) {
    && (forall e :: e in s.embeddings ==> e in t.embeddings && t.embeddings[e] == s.embeddings[e])
    && (forall c :: c in s.chunks ==> c in t.chunks && t.chunks[c] == s.chunks[c])
  }

  lemma StepGrows(s: Db, a: Action)
    ensures Grows(s, Step(s, a))
  {}

  lemma {:induction false} ExecGrows(s: Db, trace: seq<Action>)
    ensures Grows(s, Exec(s, trace))
    decreases |trace|
  {
    if trace != [] {
      StepGrows(s, trace[0]);
      ExecGrows(Step(s, trace[0]), trace[1..]);
    }
  }

  /**
    Readiness lasts exactly until the revision is tombstoned or quarantined, or gains a chunk without an
    embedding: nothing else, in any later run, takes it away.
  */
  lemma ReadinessLasts(s: Db, trace: seq<Action>, revision: RevisionId, p: Profile)
    requires Reachable(s) && EmbeddingEvidence(s, revision, p)
    ensures var t := Exec(s, trace);
            VectorReady(t, revision, p) <==>
              && Visible(t, revision)
              && forall c :: c in ChunksOf(t, revision) && c !in s.chunks ==> ChunkReady(t, c, p)
  {
    ReachableInv(s);
    EvidenceIffReady(s, revision, p);
    ExecGrows(s, trace);
    var t := Exec(s, trace);
    forall c | c in ChunksOf(s, revision) ensures c in ChunksOf(t, revision) && ChunkReady(t, c, p) {
      assert ChunkReady(s, c, p);
    }
    var c :| c in ChunksOf(s, revision);
    assert c in ChunksOf(t, revision);
  }

  /** A later claim of a completed item pays for nothing: it reads the very vector that was paid for. */
  lemma CompletedIsRead(s: Db, trace: seq<Action>, key: WorkKey, now: Instant, leaseMs: int)
    requires Reachable(s) && key in s.works && s.works[key].state == Completed
    requires ValidProfile(key.profile) && 1000 <= leaseMs <= 300000
    ensures EmbeddingFor(key) in s.embeddings
    ensures var t := Exec(s, trace);
            ClaimOrRead(t, key, now, leaseMs, true) ==
            Done(t, Some(Record(s.works[key], Some(s.embeddings[EmbeddingFor(key)].vector))))
  {
    ReachableInv(s);
    CompletedLasts(s, trace, key);
    ExecGrows(s, trace);
    assert WorkOk(s, key) && EmbeddingOk(s, EmbeddingFor(key));
  }

  /** No embedding of a chunk is there before the chunk. */
  lemma NewChunkUnready(s: Db, revision: RevisionId, p: Profile, c: ChunkId, hash: string)
    requires Inv(s) && c !in s.chunks
    ensures !VectorReady(Step(s, SaveChunk(c, Chunk(revision, hash))), revision, p)
  {
    var t := Step(s, SaveChunk(c, Chunk(revision, hash)));
    assert c in ChunksOf(t, revision);
    var e := EmbeddingFor(WorkKey(c, hash, p));
    assert e in s.embeddings ==> EmbeddingOk(s, e);
    assert !ChunkReady(t, c, p);
  }

  /** Chunking a ready revision again takes its readiness away: the new chunk has no embedding. */
  lemma RechunkingLosesReadiness(s: Db, revision: RevisionId, p: Profile, c: ChunkId, hash: string)
    requires Reachable(s) && EmbeddingEvidence(s, revision, p)
    requires c !in s.chunks
    ensures VectorReady(s, revision, p)
    ensures !VectorReady(Step(s, SaveChunk(c, Chunk(revision, hash))), revision, p)
  {
    ReachableInv(s);
    EvidenceIffReady(s, revision, p);
    NewChunkUnready(s, revision, p, c, hash);
  }
}
