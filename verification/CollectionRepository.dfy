/**
  The repository as code: each method changes the tables one statement at a time inside a transaction,
  and is proved to do exactly the atomic step of the same name, or to roll back when that step rejects.
*/
module CollectionRepository {
  import opened Common
  import opened CollectionState
  import opened CollectionHistory
  import opened DeliveryClaims
  import S = CollectionState

  function Reply<T>(o: Outcome<T>): Result<T, Error> {
    match o
    case Done(_, value) => Ok(value)
    case Rejected(e) => Err(e)
  }

  class Repository {
    var catalog: Catalog
    var partitions: map<PartitionId, Partition>
    var runs: map<RunId, Run>
    var attempts: map<RunId, Attempt>
    var checkpoints: map<(PartitionId, nat), Checkpoint>
    var rawItems: map<RawId, RawItem>
    var memberships: map<(PartitionId, RawId), Membership>
    var revisions: seq<(RawId, RevisionId)>
    var outbox: Outbox

    function State(): Store
      reads this
    {
      Store(catalog, partitions, runs, attempts, checkpoints, rawItems, memberships, revisions, outbox)
    }

    constructor ()
      ensures State() == EMPTY && Reachable(State())
    {
      assert Exec(EMPTY, []) == EMPTY;
      catalog := Catalog(map[], map[], map[]);
      partitions, runs, attempts, checkpoints := map[], map[], map[], map[];
      rawItems, memberships, revisions, outbox := map[], map[], [], map[];
    }

    /** Put every table in the given state: a rollback, or what other transactions have left. */
    method Become(saved: Store)
      modifies this
      ensures State() == saved
    {
      catalog, partitions, runs, attempts := saved.catalog, saved.partitions, saved.runs, saved.attempts;
      checkpoints, rawItems, memberships := saved.checkpoints, saved.rawItems, saved.memberships;
      revisions, outbox := saved.revisions, saved.outbox;
    }

    method InsertPageDelivery(id: PartitionId, pageSequence: nat, notBefore: Instant)
      modifies this`outbox
      ensures outbox == InsertPage(old(outbox), id, pageSequence, notBefore)
    {
      var key := CollectionPage(id, pageSequence);
      if key !in outbox {
        outbox := outbox[key := NewDelivery(id, pageSequence, notBefore)];
      }
    }

    /** Insert the partition and its current page's delivery unless they are there, or the partition has ended. */
    method InsertPartition(id: PartitionId, now: Instant) returns (row: Partition)
      modifies this
      ensures id in partitions && row == partitions[id]
      ensures State() == InsertRows(old(State()), id, now)
    {
      if id !in partitions {
        partitions := partitions[id := Partition(Pending, 0, None, 0, None, None, now, None, 0)];
      }
      row := partitions[id];
      if row.state !in {Completed, Partial, Cancelled, Failed} {
        InsertPageDelivery(id, row.pageSequence, row.nextDueAt);
      }
    }

    method PlanPartition(id: PartitionId, now: Instant) returns (r: Result<Partition, Error>)
      modifies this
      ensures State() == After(old(State()), S.PlanPartition(old(State()), id, now))
      ensures r == Reply(S.PlanPartition(old(State()), id, now))
      ensures Reachable(old(State())) ==> Reachable(State())
    {
      ghost var saved := State();
      if id.windowFrom >= id.windowTo { return Err(InvalidWindow); }
      var target := ReadTarget(catalog, id.target);
      if target.None? { return Err(NotFound); }
      if !Collectable(target.value) { return Err(PolicyBlocked); }
      if target.value.capability.timeBasis != id.timeBasis { return Err(InvalidWindow); }
      var row := InsertPartition(id, now);
      PlanReachable(saved, State(), id, now);
      return Ok(row);
    }

    method ClaimPage(id: PartitionId, pageSequence: nat, now: Instant, leaseMs: int, run: RunId)
      returns (r: Result<Option<Claim>, Error>)
      modifies this
      ensures State() == After(old(State()), S.ClaimPage(old(State()), id, pageSequence, now, leaseMs, run))
      ensures r == Reply(S.ClaimPage(old(State()), id, pageSequence, now, leaseMs, run))
      ensures Reachable(old(State())) ==> Reachable(State())
    {
      if !ValidLease(leaseMs) { return Err(InvalidState); }
      if id !in partitions { return Ok(None); }
      var target := ReadTarget(catalog, id.target);
      if target.None? { return Ok(None); }
      if !Collectable(target.value) { return Err(PolicyBlocked); }
      var row := partitions[id];
      if !Claimable(row, pageSequence, now) { return Ok(None); }
      if !DecodesFor(row.cursor, id, target.value.capability.cursorVersion) { return Err(InvalidCursor); }
      var saved := State();
      if run in runs || run in attempts { return Err(Constraint); }
      runs := runs[run := Run(RunRunning, now, row.cursor, None)];
      if row.run.Some? && row.run.value in runs && runs[row.run.value].status == RunRunning {
        if runs[row.run.value].startedAt > now {
          Become(saved);
          return Err(Constraint);
        }
        runs := runs[row.run.value := runs[row.run.value].(status := RunFailed)];
      }
      if EpochTaken(attempts, id, row.leaseEpoch + 1) {
        Become(saved);
        return Err(Constraint);
      }
      attempts := attempts[run := Attempt(id, row.pageSequence, row.leaseEpoch + 1)];
      var claimed := row.(state := Running, leaseEpoch := row.leaseEpoch + 1, leaseUntil := Some(now + leaseMs),
                          run := Some(run), attempts := row.attempts + 1);
      partitions := partitions[id := claimed];
      ClaimReachable(saved, State(), id, pageSequence, now, leaseMs, run);
      return Ok(Some(Claim(id, claimed, target.value, run)));
    }

    method RenewPage(claim: Claim, now: Instant, leaseMs: int) returns (r: Result<bool, Error>)
      modifies this
      ensures State() == After(old(State()), S.RenewPage(old(State()), claim, now, leaseMs))
      ensures r == Reply(S.RenewPage(old(State()), claim, now, leaseMs))
      ensures Reachable(old(State())) ==> Reachable(State())
    {
      ghost var saved := State();
      if !ValidLease(leaseMs) { return Err(InvalidState); }
      var target := ReadTarget(catalog, claim.target.id);
      if target.None? { return Ok(false); }
      if !Collectable(target.value) { return Err(PolicyBlocked); }
      if !Fence(State(), claim, now) { return Err(StaleLease); }
      partitions := partitions[claim.id := partitions[claim.id].(leaseUntil := Some(now + leaseMs))];
      RenewReachable(saved, State(), claim, now, leaseMs);
      return Ok(true);
    }

    method AcquireItem(claim: Claim, target: Target, item: Item, now: Instant) returns (r: Result<RawId, Error>)
      modifies this
      ensures State() == After(old(State()), S.AcquireItem(old(State()), claim, target, item, now))
      ensures r == Reply(S.AcquireItem(old(State()), claim, target, item, now))
    {
      if !item.urlValid || item.rights.Malformed? { return Err(InvalidPage); }
      var rights := NarrowRights(target.policy, item.rights);
      if !rights.approved || !rights.fetch || !rights.store { return Err(PolicyBlocked); }
      var raw := RawId(target.source, item.externalId, item.payloadHash);
      if raw !in rawItems {
        rawItems := rawItems[raw := RawItem(claim.run, rights, now)];
      }
      if (claim.id, raw) !in memberships {
        memberships := memberships[(claim.id, raw) := Membership(claim.run, FirstRevision(revisions, raw), now)];
      }
      var key := Normalization(raw, claim.id.workflowVersion);
      if key !in outbox {
        outbox := outbox[key := NewDelivery(claim.id, claim.row.pageSequence, now)];
      }
      return Ok(raw);
    }

    method CommitPage(claim: Claim, result: PageResult, now: Instant) returns (r: Result<(), Error>)
      modifies this
      ensures State() == After(old(State()), S.CommitPage(old(State()), claim, result, now))
      ensures r == Reply(S.CommitPage(old(State()), claim, result, now))
      ensures Reachable(old(State())) ==> Reachable(State())
    {
      if !ValidPageResult(claim.row, result) { return Err(InvalidPage); }
      if result.retryAt.Some? && result.retryAt.value <= now { return Err(InvalidPage); }
      if result.disposition == Complete && claim.id.mode == Backfill
         && claim.target.capability.historyMode in {FeedOnly, SnapshotOnly} { return Err(InvalidPage); }
      var saved := State();
      var target := ReadTarget(catalog, claim.target.id);
      if target.None? { return Err(NotFound); }
      if !Collectable(target.value) { return Err(PolicyBlocked); }
      if !Fence(State(), claim, now) { return Err(StaleLease); }
      if !DecodesFor(result.nextCursor, claim.id, target.value.capability.cursorVersion) { return Err(InvalidCursor); }
      for i := 0 to |result.items|
        invariant AcquireItems(State(), claim, target.value, result.items[i..], now) ==
                  AcquireItems(saved, claim, target.value, result.items, now)
      {
        var acquired := AcquireItem(claim, target.value, result.items[i], now);
        if acquired.Err? {
          Become(saved);
          return Err(acquired.error);
        }
        assert result.items[i..][0] == result.items[i] && result.items[i..][1..] == result.items[i + 1..];
      }
      if claim.id !in partitions || claim.run !in runs {
        Become(saved);
        return Err(Constraint);
      }
      r := CommitRows(claim, result, now);
      if r.Err? {
        Become(saved);
      }
      CommitReachable(saved, State(), claim, result, now);
    }

    method CommitRows(claim: Claim, result: PageResult, now: Instant) returns (r: Result<(), Error>)
      requires claim.id in partitions && claim.run in runs
      modifies this
      ensures State() == After(old(State()), S.CommitRows(old(State()), claim, result, now))
      ensures r == Reply(S.CommitRows(old(State()), claim, result, now))
    {
      var row := partitions[claim.id];
      var page := (claim.id, row.pageSequence);
      if page in checkpoints || runs[claim.run].startedAt > now { return Err(Constraint); }
      checkpoints := checkpoints[page :=
        Checkpoint(row.leaseEpoch, row.cursor, result.nextCursor, result.disposition, |result.items|)];
      var dueAt := if result.retryAt.Some? then result.retryAt.value else now;
      partitions := partitions[claim.id := row.(
        pageSequence := row.pageSequence + 1, cursor := result.nextCursor, state := NextState(result.disposition),
        reason := result.reason, leaseUntil := None, nextDueAt := dueAt)];
      runs := runs[claim.run := runs[claim.run].(status := RunSucceeded, cursorAfter := result.nextCursor)];
      var key := CollectionPage(claim.id, row.pageSequence);
      if key in outbox {
        outbox := outbox[key := outbox[key].(completedAt := Some(now))];
      }
      if result.disposition == Continue || result.disposition == Defer {
        InsertPageDelivery(claim.id, row.pageSequence + 1, dueAt);
      }
      return Ok(());
    }

    method FailPage(claim: Claim, reason: string, retryAt: Option<Instant>, now: Instant) returns (r: Result<(), Error>)
      modifies this
      ensures State() == After(old(State()), S.FailPage(old(State()), claim, reason, retryAt, now))
      ensures r == Reply(S.FailPage(old(State()), claim, reason, retryAt, now))
      ensures Reachable(old(State())) ==> Reachable(State())
    {
      if !Fence(State(), claim, now) { return Err(StaleLease); }
      var saved := State();
      r := FailRows(claim, reason, retryAt, now);
      if r.Err? {
        Become(saved);
      }
      FailReachable(saved, State(), claim, reason, retryAt, now);
    }

    /** Partition, run and delivery; an error leaves the partition changed. */
    method FailRows(claim: Claim, reason: string, retryAt: Option<Instant>, now: Instant) returns (r: Result<(), Error>)
      requires claim.id in partitions
      modifies this
      ensures r == if claim.run !in old(runs) || old(runs)[claim.run].startedAt > now then Err(Constraint) else Ok(())
      ensures r.Ok? ==> State() == S.FailRows(old(State()), claim, reason, retryAt, now)
    {
      var row := partitions[claim.id];
      var dueAt := if retryAt.Some? then retryAt.value else now;
      partitions := partitions[claim.id := row.(
        state := if retryAt.Some? then Deferred else Failed,
        reason := Some(if |reason| > 128 then reason[..128] else reason), nextDueAt := dueAt, leaseUntil := None)];
      if claim.run !in runs || runs[claim.run].startedAt > now { return Err(Constraint); }
      runs := runs[claim.run := runs[claim.run].(status := RunFailed)];
      var key := CollectionPage(claim.id, row.pageSequence);
      if key in outbox {
        outbox := outbox[key := outbox[key].(notBefore := dueAt, sentAt := None,
                                             completedAt := if retryAt.Some? then None else Some(now))];
      }
      return Ok(());
    }

    method ResumePartition(id: PartitionId, now: Instant) returns (r: Result<Partition, Error>)
      modifies this
      ensures State() == After(old(State()), S.ResumePartition(old(State()), id, now))
      ensures r == Reply(S.ResumePartition(old(State()), id, now))
      ensures Reachable(old(State())) ==> Reachable(State())
    {
      ghost var saved := State();
      if id !in partitions { return Err(NotFound); }
      var target := ReadTarget(catalog, id.target);
      if target.None? { return Err(NotFound); }
      if !Collectable(target.value) { return Err(PolicyBlocked); }
      var row := partitions[id];
      if row.state in {Completed, Partial} || Leased(row.leaseUntil, now) { return Err(InvalidState); }
      var resumed := row.(state := Pending, nextDueAt := now, leaseUntil := None, reason := None);
      partitions := partitions[id := resumed];
      InsertPageDelivery(id, row.pageSequence, now);
      var key := CollectionPage(id, row.pageSequence);
      outbox := outbox[key := outbox[key].(completedAt := None, sentAt := None, notBefore := now)];
      ResumeReachable(saved, State(), id, now);
      return Ok(resumed);
    }

    /** The rows the query selects, in its order; `ids` is the order of the random row ids. */
    method SelectDue(ids: IdOrder, now: Instant, limit: nat, mode: Option<Mode>) returns (rows: seq<DeliveryKey>)
      requires Injective(ids)
      ensures rows == NextBatch(State(), ids, now, limit, mode)
    {
      var due := set k | k in outbox && Due(State(), k, now, mode);
      assert due == DueKeys(State(), now, mode);
      rows := PickFirst(outbox, ids, due, limit);
    }

    method ClaimDeliveries(ids: IdOrder, now: Instant, limit: int, leaseMs: int, mode: Option<Mode>)
      returns (r: Result<seq<DeliveryKey>, Error>)
      requires Injective(ids)
      modifies this
      ensures !ValidBatch(limit, leaseMs) ==> r == Err(InvalidState) && State() == old(State())
      ensures ValidBatch(limit, leaseMs) ==>
                var batch := NextBatch(old(State()), ids, now, limit, mode);
                var o := LeaseBatch(old(State()), batch, now, limit, leaseMs, mode);
                o.Done? && State() == o.store && r == Ok(batch)
      ensures Reachable(old(State())) ==> Reachable(State())
    {
      if !ValidBatch(limit, leaseMs) { return Err(InvalidState); }
      var rows := SelectDue(ids, now, limit, mode);
      ghost var before := outbox;
      ghost var s := State();
      for i := 0 to |rows|
        invariant State() == s.(outbox := outbox)
        invariant LeaseAll(outbox, rows[i..], now, leaseMs) == LeaseAll(before, rows, now, leaseMs)
      {
        if rows[i] in outbox {
          outbox := outbox[rows[i] := Lease(outbox[rows[i]], now, leaseMs)];
        }
        assert rows[i..][0] == rows[i] && rows[i..][1..] == rows[i + 1..];
      }
      NextBatchIsDue(s, ids, now, limit, leaseMs, mode);
      LeaseReachable(s, State(), rows, now, limit, leaseMs, mode);
      return Ok(rows);
    }

    method MarkSent(key: DeliveryKey, leaseEpoch: nat, now: Instant) returns (r: Result<(), Error>)
      modifies this
      ensures State() == After(old(State()), S.MarkSent(old(State()), key, leaseEpoch, now))
      ensures r == Reply(S.MarkSent(old(State()), key, leaseEpoch, now))
      ensures Reachable(old(State())) ==> Reachable(State())
    {
      ghost var saved := State();
      if key in outbox && outbox[key].leaseEpoch == leaseEpoch && Leased(outbox[key].leaseUntil, now)
         && outbox[key].completedAt.None?
      {
        outbox := outbox[key := outbox[key].(sentAt := Some(now), leaseUntil := None)];
        MarkReachable(saved, State(), key, leaseEpoch, now);
        return Ok(());
      }
      return Err(StaleLease);
    }

    method CompleteDelivery(key: DeliveryKey, now: Instant, evidence: bool) returns (r: Result<(), Error>)
      modifies this
      ensures State() == After(old(State()), S.CompleteDelivery(old(State()), key, now, evidence))
      ensures r == Reply(S.CompleteDelivery(old(State()), key, now, evidence))
      ensures Reachable(old(State())) ==> Reachable(State())
    {
      ghost var saved := State();
      if key !in outbox { return Err(NotFound); }
      var delivery := outbox[key];
      if delivery.completedAt.Some? { return Ok(()); }
      var complete := false;
      if key.CollectionPage? {
        complete := (delivery.partition, delivery.pageSequence) in checkpoints;
      } else {
        complete := evidence;
      }
      if !complete { return Err(InvalidState); }
      outbox := outbox[key := delivery.(completedAt := Some(now), leaseUntil := None)];
      CompleteReachable(saved, State(), key, now, evidence);
      return Ok(());
    }

    /** The rows of a query without an order, in some order. */
    method ListRows<T(==)>(rows: set<T>) returns (q: seq<T>)
      ensures Lists(q, rows)
    {
      q := [];
      var left := rows;
      while left != {}
        invariant left <= rows && Lists(q, rows - left)
        decreases left
      {
        var row :| row in left;
        q, left := q + [row], left - {row};
      }
    }

    method InsertEmbeddingDeliveries(revision: RevisionId, members: seq<PartitionId>, now: Instant)
      modifies this`outbox
      ensures outbox == InsertEmbeddings(old(outbox), revision, members, now)
    {
      for i := 0 to |members|
        invariant InsertEmbeddings(outbox, revision, members[i..], now) ==
                  InsertEmbeddings(old(outbox), revision, members, now)
      {
        if Embedding(revision) !in outbox {
          outbox := outbox[Embedding(revision) := NewDelivery(members[i], 0, now)];
        }
        assert members[i..][0] == members[i] && members[i..][1..] == members[i + 1..];
      }
    }

    method AttachRevision(raw: RawId, revision: RevisionId, now: Instant) returns (r: Result<(), Error>)
      modifies this
      ensures exists members :: Attached(old(State()), raw, revision, members, now, State(), r)
      ensures Reachable(old(State())) ==> Reachable(State())
    {
      ghost var saved := State();
      if (raw, revision) !in revisions {
        NotAttached(saved, raw, revision, now);
        return Err(NotFound);
      }
      memberships := AttachTo(memberships, raw, revision);
      var members := ListRows(set m | m in memberships && m.1 == raw :: m.0);
      InsertEmbeddingDeliveries(revision, members, now);
      AttachedIs(saved, State(), raw, revision, members, now);
      return Ok(());
    }

    method Replan(scope: ReplayScope, requestedAt: Instant) returns (r: Result<Replayed, Error>)
      modifies this
      ensures exists rows :: Replanned(old(State()), scope, rows, requestedAt, State(), r)
      ensures Reachable(old(State())) ==> Reachable(State())
    {
      var saved := State();
      var found := ScopeRows(State(), scope);
      if |found| == 0 || |found| > 500 {
        assert Replanned(saved, scope, [], requestedAt, State(), Err(InvalidReplay));
        return Err(InvalidReplay);
      }
      var rows := ListRows(found);
      r := ReplanEach(rows, requestedAt);
      ReplanReachable(saved, State(), scope, rows, requestedAt);
      assert Replanned(saved, scope, rows, requestedAt, State(), r);
    }

    method ReplanEach(rows: seq<(PartitionId, RawId)>, requestedAt: Instant) returns (r: Result<Replayed, Error>)
      modifies this
      ensures State() == After(old(State()), ReplanRows(old(State()), rows, requestedAt))
      ensures r == Reply(ReplanRows(old(State()), rows, requestedAt))
    {
      var saved := State();
      var total := Replayed(true, []);
      ReplayStarts(saved, rows, requestedAt);
      for i := 0 to |rows|
        invariant Replaying(saved, rows, State(), i, total, requestedAt)
      {
        ghost var before := State();
        var row := ReplanOne(rows[i], requestedAt);
        if row.Err? {
          ReplayStops(saved, rows, before, i, total, row.error, requestedAt);
          Become(saved);
          return Err(row.error);
        }
        ReplayGoesOn(saved, rows, before, i, total, State(), row.value, requestedAt);
        total := Together(total, row.value);
      }
      ReplayEnds(saved, rows, State(), total, requestedAt);
      return Ok(total);
    }

    /** The body of the loop over the rows. */
    method ReplanOne(row: (PartitionId, RawId), requestedAt: Instant) returns (r: Result<Replayed, Error>)
      modifies this
      ensures State() == After(old(State()), ReplanRow(old(State()), row, requestedAt))
      ensures r == Reply(ReplanRow(old(State()), row, requestedAt))
    {
      if row.0 !in partitions { return Err(NotFound); }
      var target := ReadTarget(catalog, row.0.target);
      if target.None? { return Err(NotFound); }
      if !Collectable(target.value) { return Err(PolicyBlocked); }
      var key := Normalization(row.1, row.0.workflowVersion);
      var duplicate := key in outbox;
      if !duplicate {
        outbox := outbox[key := NewDelivery(row.0, partitions[row.0].pageSequence, requestedAt)];
      }
      if outbox[key].completedAt.None? {
        outbox := outbox[key := outbox[key].(sentAt := None, notBefore := requestedAt)];
      }
      return Ok(Replayed(duplicate, [key]));
    }
  }

  ghost predicate Attached(s: Store, raw: RawId, revision: RevisionId, members: seq<PartitionId>, now: Instant,
                           t: Store, r: Result<(), Error>)
  {
    var o := S.AttachRevision(s, raw, revision, members, now);
    && ((raw, revision) in s.revisions ==> Lists(members, MembersOf(s, raw)))
    && t == After(s, o) && r == Reply(o)
  }

  ghost predicate Replanned(s: Store, scope: ReplayScope, rows: seq<(PartitionId, RawId)>, requestedAt: Instant,
                            t: Store, r: Result<Replayed, Error>)
  {
    var o := S.Replan(s, scope, rows, requestedAt);
    && (0 < |ScopeRows(s, scope)| <= 500 ==> Lists(rows, ScopeRows(s, scope)))
    && t == After(s, o) && r == Reply(o)
  }

  /** Replaying the rest of the rows completes the replay of all. */
  ghost predicate Replaying(
      saved: Store, rows: seq<(PartitionId, RawId)>, s: Store, i: nat, sofar: Replayed, requestedAt: Instant)
    requires i <= |rows|
  {
    var rest, whole := ReplanRows(s, rows[i..], requestedAt), ReplanRows(saved, rows, requestedAt);
    && (rest.Rejected? ==> whole == rest)
    && (rest.Done? ==> whole == Done(rest.store, Together(sofar, rest.value)))
  }

  lemma NotAttached(s: Store, raw: RawId, revision: RevisionId, now: Instant)
    requires (raw, revision) !in s.revisions
    ensures Attached(s, raw, revision, [], now, s, Err(NotFound))
  {}

  lemma AttachedIs(s: Store, t: Store, raw: RawId, revision: RevisionId, members: seq<PartitionId>, now: Instant)
    requires (raw, revision) in s.revisions
    requires Lists(members, set m | m in AttachTo(s.memberships, raw, revision) && m.1 == raw :: m.0)
    requires t == s.(memberships := AttachTo(s.memberships, raw, revision),
                     outbox := InsertEmbeddings(s.outbox, revision, members, now))
    ensures Attached(s, raw, revision, members, now, t, Ok(())) && (Reachable(s) ==> Reachable(t))
  {
    assert AttachTo(s.memberships, raw, revision).Keys == s.memberships.Keys;
    assert MembersOf(s, raw) == set m | m in AttachTo(s.memberships, raw, revision) && m.1 == raw :: m.0;
    AttachReachable(s, t, raw, revision, members, now);
  }

  lemma {:induction false} WithoutNone(b: seq<DeliveryKey>)
    ensures Without(b, []) == b
  {
    if b != [] { WithoutNone(b[1..]); }
  }

  lemma {:induction false} WithoutIn(b: seq<DeliveryKey>, a: seq<DeliveryKey>, k: DeliveryKey)
    ensures k in Without(b, a) <==> k in b && k !in a
  {
    if b != [] { WithoutIn(b[1..], a, k); }
  }

  lemma {:induction false} WithoutJoin(b: seq<DeliveryKey>, c: seq<DeliveryKey>, a: seq<DeliveryKey>)
    ensures Without(b + c, a) == Without(b, a) + Without(c, a)
  {
    if b == [] {
      assert b + c == c;
    } else {
      ConsSplit(b, c);
      WithoutJoin(b[1..], c, a);
      Associative(if b[0] in a then [] else [b[0]], Without(b[1..], a), Without(c, a));
    }
  }

  lemma {:induction false} WithoutBoth(c: seq<DeliveryKey>, b: seq<DeliveryKey>, a: seq<DeliveryKey>)
    ensures Without(Without(c, b), a) == Without(c, a + Without(b, a))
  {
    if c != [] {
      WithoutBoth(c[1..], b, a);
      WithoutIn(b, a, c[0]);
      WithoutJoin(if c[0] in b then [] else [c[0]], Without(c[1..], b), a);
    }
  }

  lemma WithoutSteps(a: seq<DeliveryKey>, b: seq<DeliveryKey>, c: seq<DeliveryKey>)
    ensures a + Without(b + Without(c, b), a) == (a + Without(b, a)) + Without(c, a + Without(b, a))
  {
    WithoutJoin(b, Without(c, b), a);
    WithoutBoth(c, b, a);
    Associative(a, Without(b, a), Without(Without(c, b), a));
  }

  lemma TogetherSteps(a: Replayed, b: Replayed, c: Replayed)
    ensures Together(a, Together(b, c)) == Together(Together(a, b), c)
  {
    WithoutSteps(a.deliveries, b.deliveries, c.deliveries);
  }

  lemma ReplayStarts(saved: Store, rows: seq<(PartitionId, RawId)>, requestedAt: Instant)
    ensures Replaying(saved, rows, saved, 0, Replayed(true, []), requestedAt)
  {
    assert rows[0..] == rows;
    var whole := ReplanRows(saved, rows, requestedAt);
    if whole.Done? {
      WithoutNone(whole.value.deliveries);
      assert [] + whole.value.deliveries == whole.value.deliveries;
    }
  }

  lemma ReplayEnds(saved: Store, rows: seq<(PartitionId, RawId)>, s: Store, total: Replayed, requestedAt: Instant)
    requires Replaying(saved, rows, s, |rows|, total, requestedAt)
    ensures ReplanRows(saved, rows, requestedAt) == Done(s, total)
  {
    assert rows[|rows|..] == [] && total.deliveries + [] == total.deliveries;
  }

  lemma ReplayStops(
      saved: Store, rows: seq<(PartitionId, RawId)>, s: Store, i: nat, sofar: Replayed, e: Error, requestedAt: Instant)
    requires i < |rows| && Replaying(saved, rows, s, i, sofar, requestedAt)
    requires ReplanRow(s, rows[i], requestedAt) == Rejected(e)
    ensures ReplanRows(saved, rows, requestedAt) == Rejected(e)
  {
    assert rows[i..][0] == rows[i];
  }

  lemma ReplayGoesOn(saved: Store, rows: seq<(PartitionId, RawId)>, s: Store, i: nat, sofar: Replayed, t: Store,
                     first: Replayed, requestedAt: Instant)
    requires i < |rows| && Replaying(saved, rows, s, i, sofar, requestedAt)
    requires ReplanRow(s, rows[i], requestedAt) == Done(t, first)
    ensures Replaying(saved, rows, t, i + 1, Together(sofar, first), requestedAt)
  {
    assert rows[i..][0] == rows[i] && rows[i..][1..] == rows[i + 1..];
    var rest := ReplanRows(t, rows[i + 1..], requestedAt);
    if rest.Done? { TogetherSteps(sofar, first, rest.value); }
  }
}
