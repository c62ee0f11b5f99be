/** The way of a paid call: leased, reserved, begun, finished, and read by every later claim. */
module EmbeddingCalls {
  import opened Common
  import opened EmbeddingWork
  import opened EmbeddingHistory

  // ---------- Leasing ----------

  predicate NamedProfile(p: Profile) {
    && p.provider != "" && p.model != "" && p.version != "" && p.priceVersion != "" && p.tokenizerVersion != ""
    && p.approvalReference != "" && 0 < p.dimensions <= 16000
  }

  /** The claim is well formed, of the chunk's present content, and has the rights. */
  predicate Entitled(s: Db, key: WorkKey, leaseMs: int, rights: bool) {
    && NamedProfile(key.profile) && 1000 <= leaseMs <= 300000
    && key.chunk in s.chunks && s.chunks[key.chunk].contentHash == key.inputHash && rights
  }

  /** The item is new, or waits, or was leased by someone whose lease is over. */
  predicate Free(s: Db, key: WorkKey, now: Instant) {
    key in s.works ==>
      && (s.works[key].state == Waiting || s.works[key].state == Claimed)
      && (s.works[key].leaseUntil.Some? ==> s.works[key].leaseUntil.value <= now)
  }

  predicate Leases(o: Outcome<Option<Record>>) {
    o.Done? && o.value.Some? && o.value.value.row.state == Claimed
  }

  /** A claim leases the item exactly when it is free, under the next epoch, for the time asked. */
  lemma LeasedIff(s: Db, key: WorkKey, now: Instant, leaseMs: int, rights: bool)
    ensures var o := ClaimOrRead(s, key, now, leaseMs, rights);
            && (Leases(o) <==> Entitled(s, key, leaseMs, rights) && Free(s, key, now))
            && (Leases(o) ==>
                  && key in o.db.works && o.value.value.row == o.db.works[key] && o.value.value.vector.None?
                  && o.db == s.(works := o.db.works)
                  && var epoch := if key in s.works then s.works[key].leaseEpoch else 0;
                  && o.db.works[key].leaseEpoch == epoch + 1
                  && o.db.works[key].leaseUntil == Some(now + leaseMs) && o.db.works[key].reservation.None?)
  {}

  /** A call that outlived its lease is given up by the next claim, and its reservation is held. */
  lemma LapsedCall(s: Db, key: WorkKey, now: Instant, leaseMs: int)
    requires Reachable(s) && Entitled(s, key, leaseMs, true) && key in s.works && s.works[key].state == Calling
    requires s.works[key].leaseUntil.Some?
    ensures var o := ClaimOrRead(s, key, now, leaseMs, true);
            if now < s.works[key].leaseUntil.value then o == Done(s, None)
            else
              && o.Done? && o.value.Some? && o.value.value.row.state == OutcomeUnknown && o.value.value.vector.None?
              && s.works[key].reservation.Some?
              && var id := s.works[key].reservation.value;
              id in o.db.reservations && o.db.reservations[id].state != Reserved
  {
    ReachableInv(s);
    assert WorkOk(s, key);
  }

  /** Without the rights no claim, begin or completion changes anything. */
  lemma NothingWithoutRights(
      s: Db, key: WorkKey, now: Instant, leaseMs: int, epoch: nat, id: ReservationId, vector: seq<real>)
    ensures ClaimOrRead(s, key, now, leaseMs, false).Rejected?
    ensures BeginCall(s, key, epoch, id, now, false).Rejected?
    ensures CompleteWork(s, key, epoch, vector, now, false).Rejected?
  {}

  // ---------- Beginning ----------

  /** The reservation was drawn for this item and epoch, and its scope still lets it be spent. */
  predicate Spendable(s: Db, key: WorkKey, epoch: nat, id: ReservationId) {
    && id in s.reservations
    && s.reservations[id].state == Reserved && s.reservations[id].lane == IngestionEmbedding
    && s.reservations[id].attempt == ForWork(key, epoch)
    && s.reservations[id].scope in s.scopes
    && var scope := s.scopes[s.reservations[id].scope];
    scope.approved && !scope.blocked && key.profile in scope.profiles
  }

  /** A call begins exactly under an unexpired lease with a reservation to spend: no other item holds it. */
  lemma BegunIff(s: Db, key: WorkKey, epoch: nat, id: ReservationId, now: Instant, rights: bool)
    requires Reachable(s)
    ensures var o := BeginCall(s, key, epoch, id, now, rights);
            && (o.Done? <==>
                  && key in s.works && s.works[key].state == Claimed && s.works[key].leaseEpoch == epoch
                  && s.works[key].leaseUntil.Some? && now < s.works[key].leaseUntil.value
                  && Spendable(s, key, epoch, id) && rights)
            && (o.Done? ==>
                  o.db == s.(works := s.works[key := s.works[key].(state := Calling, reservation := Some(id))]))
  {
    ReachableInv(s);
    forall k | k in s.works && k != key && Spendable(s, key, epoch, id) ensures s.works[k].reservation != Some(id) {
      assert WorkOk(s, k);
    }
  }

  /** While a scope is blocked and nobody sets it anew, no call begins on a reservation of it. */
  predicate BlockedScope(s: Db, scope: ScopeId) {
    scope in s.scopes && s.scopes[scope].blocked
  }

  lemma StepKeepsBlocked(s: Db, a: Action, scope: ScopeId)
    requires BlockedScope(s, scope) && !(a.SetScope? && a.scopeId == scope)
    ensures BlockedScope(Step(s, a), scope)
  {}

  lemma {:induction false} BlockedBeginsNothing(s: Db, trace: seq<Action>, scope: ScopeId, a: Action)
    requires BlockedScope(s, scope) && a.Begin?
    requires forall b :: b in trace ==> !(b.SetScope? && b.scopeId == scope)
    ensures var t := Exec(s, trace);
            a.reservation in t.reservations && t.reservations[a.reservation].scope == scope ==> Step(t, a) == t
    decreases |trace|
  {
    if trace != [] {
      StepKeepsBlocked(s, trace[0], scope);
      BlockedBeginsNothing(Step(s, trace[0]), trace[1..], scope, a);
    }
  }

  // ---------- Finishing ----------

  /** A completion is accepted exactly under an unexpired lease, for a vector of the profile's size that is not zero. */
  lemma FinishedIff(s: Db, key: WorkKey, epoch: nat, vector: seq<real>, now: Instant, rights: bool)
    ensures CompleteWork(s, key, epoch, vector, now, rights).Done? <==>
            && key in s.works && s.works[key].state == Calling && s.works[key].leaseEpoch == epoch
            && s.works[key].leaseUntil.Some? && now < s.works[key].leaseUntil.value
            && |vector| == key.profile.dimensions && (exists i :: 0 <= i < |vector| && vector[i] != 0.0)
            && rights
  {}

  /** In a reachable state nothing is filed under the item before it completes, so its own vector is. */
  lemma FinishFiles(s: Db, key: WorkKey, epoch: nat, vector: seq<real>, now: Instant, rights: bool)
    requires Reachable(s) && CompleteWork(s, key, epoch, vector, now, rights).Done?
    ensures var t := CompleteWork(s, key, epoch, vector, now, rights).db;
            && EmbeddingFor(key) !in s.embeddings
            && t.embeddings == s.embeddings[EmbeddingFor(key) := EmbeddingRow(|vector|, vector)]
            && key in s.works && key in t.works && t == s.(works := t.works, embeddings := t.embeddings)
            && t.works == s.works[key := s.works[key].(state := Completed, embedding := Some(EmbeddingFor(key)),
                                                       leaseUntil := None)]
  {
    ReachableInv(s);
    assert EmbeddingFor(key) in s.embeddings ==> MadeByWork(s, EmbeddingFor(key));
  }

  /** The vector an accepted completion brought is what every later claim with rights reads, and it pays nothing. */
  lemma PaidVectorIsRead(
      s: Db, key: WorkKey, epoch: nat, vector: seq<real>, now: Instant, rights: bool, trace: seq<Action>,
      later: Instant, leaseMs: int)
    requires Reachable(s) && CompleteWork(s, key, epoch, vector, now, rights).Done?
    requires NamedProfile(key.profile) && 1000 <= leaseMs <= 300000
    ensures var t := Exec(CompleteWork(s, key, epoch, vector, now, rights).db, trace);
            var o := ClaimOrRead(t, key, later, leaseMs, true);
            o.Done? && o.db == t && o.value.Some? && o.value.value.row.state == Completed
            && o.value.value.vector == Some(vector)
  {
    var done := CompleteWork(s, key, epoch, vector, now, rights).db;
    FinishFiles(s, key, epoch, vector, now, rights);
    FinishReachable(s, done, key, epoch, vector, now, rights);
    CompletedIsRead(done, trace, key, later, leaseMs);
  }

  /** A call that ended otherwise is read as what became of it, at any later time, and is not leased again. */
  lemma EndedIsRead(
      s: Db, key: WorkKey, epoch: nat, failed: bool, later: Instant, leaseMs: int)
    requires Reachable(s) && key in s.works && s.works[key].state == Calling && s.works[key].leaseEpoch == epoch
    requires Entitled(s, key, leaseMs, true)
    ensures var t := if failed then MarkFailed(s, key, epoch) else MarkOutcomeUnknown(s, key, epoch);
            && key in t.works
            && t.works[key].state == (if failed then Failed else OutcomeUnknown)
            && ClaimOrRead(t, key, later, leaseMs, true) == Done(t, Some(Record(t.works[key], None)))
            && s.works[key].reservation.Some?
            && var id := s.works[key].reservation.value;
            && id in t.reservations && (!failed ==> t.reservations[id].state != Reserved)
            && (failed ==> t.reservations == s.reservations && t.works[key].leaseUntil.None?)
  {
    ReachableInv(s);
    assert WorkOk(s, key);
  }

  // ---------- Reservations ----------

  /** An attempt draws one reservation: a new one from an approved scope with room that is not blocked. */
  lemma ReservedIs(
      s: Db, scope: ScopeId, attempt: AttemptId, lane: Lane, id: ReservationId, sameTerms: bool, admitted: bool)
    ensures var o := Reserve(s, scope, attempt, lane, id, sameTerms, admitted);
            var known := exists r :: r in s.reservations && s.reservations[r].attempt == attempt;
            && (o.Done? <==>
                  && scope in s.scopes && s.scopes[scope].approved
                  && if known then sameTerms else !s.scopes[scope].blocked && admitted && id !in s.reservations)
            && (o.Done? ==>
                  o.db == if known then s
                          else s.(reservations := s.reservations[id := Reservation(scope, attempt, lane, Reserved)]))
  {}

  /** A reservation is given back exactly while it is merely reserved and no item may have spent it. */
  lemma ReleasedIff(s: Db, id: ReservationId)
    ensures var o := ReleaseUnsent(s, id);
            && (o.Done? <==>
                  && id in s.reservations
                  && (s.reservations[id].state == Released
                      || (&& s.reservations[id].state == Reserved
                          && forall k :: k in s.works && s.works[k].reservation == Some(id) ==>
                               && s.works[k].state != Calling && s.works[k].state != Completed
                               && s.works[k].state != OutcomeUnknown)))
            && (o.Done? ==> o.db == s.(reservations := s.reservations[id := s.reservations[id].(state := Released)]))
  {
    if id in s.reservations {
      assert s.reservations[id].state == Released ==>
        s.reservations[id := s.reservations[id].(state := Released)] == s.reservations;
    }
  }

  /** A settlement ends the reservation; one above it blocks the scope. Settling again changes nothing. */
  lemma SettledIs(s: Db, id: ReservationId, over: bool)
    ensures var o := Settle(s, id, over);
            && (o.Done? <==> id in s.reservations && s.reservations[id].state != Released)
            && (o.Done? && s.reservations[id].state == Settled ==> o.db == s)
            && (o.Done? && s.reservations[id].state != Settled ==>
                  && o.db.reservations == s.reservations[id := s.reservations[id].(state := Settled)]
                  && o.db.scopes.Keys == s.scopes.Keys
                  && forall c :: c in s.scopes ==>
                       o.db.scopes[c] ==
                       if over && c == s.reservations[id].scope then s.scopes[c].(blocked := true) else s.scopes[c])
  {}

  // ---------- Readiness ----------

  /** A revision becomes searchable exactly when it is visible and chunked and its source is not disabled. */
  lemma LexicalIff(s: Db, revision: RevisionId, blockedSource: bool)
    ensures var o := MarkLexicalReady(s, revision, blockedSource);
            && (o.Done? <==>
                  && revision in s.statuses && s.statuses[revision] != Quarantined && s.statuses[revision] != Tombstoned
                  && (exists c :: c in s.chunks && s.chunks[c].revision == revision) && !blockedSource)
            && (o.Done? ==> o.db == s.(statuses := s.statuses[revision := Searchable]))
  {
    if exists c :: c in s.chunks && s.chunks[c].revision == revision {
      var c :| c in s.chunks && s.chunks[c].revision == revision;
      assert c in ChunksOf(s, revision);
    }
  }
}
