/**
  What lets an operation on a page through, in terms of the administered tables, the page and the result it
  brings; and how long a lease then holds.
*/
module CollectionGates {
  import opened Common
  import opened CollectionState
  import opened CollectionInvariants
  import opened CollectionHistory
  import opened CollectionProgress
  import opened PageWorker

  // ---------- Targets ----------

  /** The revision is the current one of an enabled target of an enabled source. */
  predicate InUse(c: Catalog, id: TargetRevisionId) {
    && id in c.revisions && c.revisions[id].target in c.targets
    && var target := c.targets[c.revisions[id].target];
    && target.source in c.sources && c.sources[target.source] && target.enabled && target.current == Some(id)
  }

  predicate MayCollect(c: Catalog, id: TargetRevisionId) {
    && InUse(c, id)
    && c.revisions[id].policy.approved && c.revisions[id].policy.fetch && c.revisions[id].policy.store
    && c.revisions[id].capability.canCollect && c.revisions[id].capability.reviewed
  }

  lemma CollectableIff(c: Catalog, id: TargetRevisionId)
    ensures ReadTarget(c, id).Some? && Collectable(ReadTarget(c, id).value) <==> MayCollect(c, id)
    ensures ReadTarget(c, id).Some? ==>
              var target := ReadTarget(c, id).value;
              && id in c.revisions && c.revisions[id].target in c.targets
              && target.id == id && target.source == c.targets[c.revisions[id].target].source
              && target.policy == c.revisions[id].policy && target.capability == c.revisions[id].capability
  {}

  /** Disable the source or the target, move on to another revision, or withdraw a right: every operation stops. */
  lemma NothingWithoutRights(s: Store, id: PartitionId, claim: Claim, a: Action)
    requires claim.id == id && claim.target.id == id.target && !MayCollect(s.catalog, id.target)
    requires match a
             case Plan(p, _) => p == id
             case ClaimNext(p, _, _, _, _) => p == id
             case Renew(c, _, _) => c == claim
             case Commit(c, _, _) => c == claim
             case Resume(p, _) => p == id
             case _ => false
    ensures Step(s, a) == s
  {
    CollectableIff(s.catalog, id.target);
  }

  /** A plan is accepted exactly for a window that is not empty and a target of its time basis. */
  lemma PlanAcceptedIff(s: Store, id: PartitionId, now: Instant)
    ensures PlanPartition(s, id, now).Done? <==>
            && id.windowFrom < id.windowTo && MayCollect(s.catalog, id.target)
            && s.catalog.revisions[id.target].capability.timeBasis == id.timeBasis
  {
    CollectableIff(s.catalog, id.target);
  }

  /** Otherwise it is refused for the first of these reasons. */
  lemma PlanRefusedFor(s: Store, id: PartitionId, now: Instant)
    ensures var o := PlanPartition(s, id, now);
            && (id.windowTo <= id.windowFrom ==> o == Rejected(InvalidWindow))
            && (id.windowFrom < id.windowTo ==>
                  && (id.target !in s.catalog.revisions ==> o == Rejected(NotFound))
                  && (ReadTarget(s.catalog, id.target).Some? && !MayCollect(s.catalog, id.target) ==>
                        o == Rejected(PolicyBlocked))
                  && (MayCollect(s.catalog, id.target)
                      && s.catalog.revisions[id.target].capability.timeBasis != id.timeBasis ==>
                        o == Rejected(InvalidWindow)))
  {
    CollectableIff(s.catalog, id.target);
  }

  /** A new partition starts at its first page, without cursor or attempts, and runs from the time of the plan. */
  lemma AfterPlan(s: Store, id: PartitionId, now: Instant)
    requires Reachable(s) && PlanPartition(s, id, now).Done? && id !in s.partitions
    ensures var o := PlanPartition(s, id, now);
            && RunsFrom(o.store, id, 0, now) && o.store.partitions[id] == o.value
            && o.value.state == Pending && o.value.pageSequence == 0
            && o.value.cursor.None? && o.value.reason.None? && o.value.run.None?
            && o.value.leaseEpoch == 0 && o.value.attempts == 0
            && o.store.partitions.Keys == s.partitions.Keys + {id}
  {
    ReachableInv(s);
    assert CollectionPage(id, 0) !in s.outbox by { NoDeliveryBefore(s, id, 0); }
  }

  lemma NoDeliveryBefore(s: Store, id: PartitionId, n: nat)
    requires Inv(s) && id !in s.partitions
    ensures CollectionPage(id, n) !in s.outbox
  {}

  // ---------- Claims and leases ----------

  /** A page whose target may not be collected, or whose cursor is not its own or of another version, is not claimed. */
  lemma ClaimRefused(s: Store, id: PartitionId, n: nat, now: Instant, leaseMs: int, run: RunId)
    ensures !(1000 <= leaseMs <= 300000) ==> ClaimPage(s, id, n, now, leaseMs, run) == Rejected(InvalidState)
    ensures 1000 <= leaseMs <= 300000 && id in s.partitions && MayCollect(s.catalog, id.target)
            && Claimable(s.partitions[id], n, now)
            && (match s.partitions[id].cursor
                case None => false
                case Some(Garbled(_)) => true
                case Some(Cursor(key, version, _)) =>
                  key != id || version != s.catalog.revisions[id.target].capability.cursorVersion)
            ==> ClaimPage(s, id, n, now, leaseMs, run) == Rejected(InvalidCursor)
  {
    CollectableIff(s.catalog, id.target);
  }

  /** What is not there, or not to be had at present, is no error: there is just no claim. */
  lemma NoClaim(s: Store, id: PartitionId, n: nat, now: Instant, leaseMs: int, run: RunId)
    requires 1000 <= leaseMs <= 300000
    ensures id !in s.partitions || id.target !in s.catalog.revisions ==>
              ClaimPage(s, id, n, now, leaseMs, run) == Done(s, None)
    ensures id in s.partitions && MayCollect(s.catalog, id.target) && !Claimable(s.partitions[id], n, now) ==>
              ClaimPage(s, id, n, now, leaseMs, run) == Done(s, None)
    ensures id in s.partitions && ReadTarget(s.catalog, id.target).Some? && !MayCollect(s.catalog, id.target) ==>
              ClaimPage(s, id, n, now, leaseMs, run) == Rejected(PolicyBlocked)
  {
    CollectableIff(s.catalog, id.target);
  }

  /** A page can be claimed when it is the current one of a live partition, is due, and nobody's lease is in force. */
  lemma ClaimableIff(row: Partition, n: nat, now: Instant)
    ensures Claimable(row, n, now) <==>
            && row.pageSequence == n && row.nextDueAt <= now
            && (row.state == Pending || row.state == Running || row.state == Deferred)
            && (row.leaseUntil.Some? ==> row.leaseUntil.value <= now)
  {}

  /** Whoever was granted the page passes the fence until the lease ends; then, and not before, another may claim it. */
  ghost predicate LeasedUntil(s: Store, claim: Claim, dueAt: Instant, end: Instant)
    requires claim.id in s.partitions
  {
    && (forall later: Instant :: Fence(s, claim, later) <==> later < end)
    && (forall later: Instant :: later >= dueAt ==>
          (Claimable(s.partitions[claim.id], claim.row.pageSequence, later) <==> end <= later))
  }

  lemma AfterClaim(s: Store, id: PartitionId, n: nat, now: Instant, leaseMs: int, run: RunId)
    requires Reachable(s)
    requires var o := ClaimPage(s, id, n, now, leaseMs, run); o.Done? && o.value.Some?
    ensures var o := ClaimPage(s, id, n, now, leaseMs, run);
            var (t, claim) := (o.store, o.value.value);
            && id in s.partitions && id in t.partitions && 1000 <= leaseMs <= 300000
            && claim.id == id && claim.run == run && claim.row == t.partitions[id] && claim.row.pageSequence == n
            && ReadTarget(s.catalog, id.target) == Some(claim.target)
            && LeasedUntil(t, claim, s.partitions[id].nextDueAt, now + leaseMs)
    ensures var o := ClaimPage(s, id, n, now, leaseMs, run);
            && run in o.store.runs && o.store.runs[run] == Run(RunRunning, now, s.partitions[id].cursor, None)
            && o.value.value.row.cursor == s.partitions[id].cursor
            && o.value.value.row.attempts == s.partitions[id].attempts + 1
  {
    CollectableIff(s.catalog, id.target);
    ReachableInv(s);
    assert PartitionOk(s, id);
    var o := ClaimPage(s, id, n, now, leaseMs, run);
    var row := o.store.partitions[id];
    assert row.leaseUntil == Some(now + leaseMs) && row.nextDueAt == s.partitions[id].nextDueAt;
    assert row.state == Running && row.run == Some(run) && row.pageSequence == n;
  }

  /** A renewal moves the end of the lease to that long after the renewal, whatever it was. */
  lemma AfterRenew(s: Store, claim: Claim, now: Instant, leaseMs: int)
    requires var o := RenewPage(s, claim, now, leaseMs); o.Done? && o.value
    ensures var t := RenewPage(s, claim, now, leaseMs).store;
            && Fence(s, claim, now) && 1000 <= leaseMs <= 300000
            && claim.id in t.partitions && LeasedUntil(t, claim, s.partitions[claim.id].nextDueAt, now + leaseMs)
            && var row := s.partitions[claim.id].(leaseUntil := Some(now + leaseMs));
            t == s.(partitions := s.partitions[claim.id := row])
  {}

  /** It is granted exactly to a claim that passes the fence while the target may be collected. */
  lemma RenewGrantedIff(s: Store, claim: Claim, now: Instant, leaseMs: int)
    ensures var o := RenewPage(s, claim, now, leaseMs);
            o.Done? && o.value <==>
              && 1000 <= leaseMs <= 300000 && MayCollect(s.catalog, claim.id.target) && Fence(s, claim, now)
  {
    CollectableIff(s.catalog, claim.target.id);
    CollectableIff(s.catalog, claim.id.target);
  }

  // ---------- Commits ----------

  lemma {:induction false} AcquiredIff(s: Store, claim: Claim, target: Target, items: seq<Item>, now: Instant)
    requires Collectable(target)
    ensures AcquireItems(s, claim, target, items, now).Done? <==> AllStorable(items)
    decreases |items|
  {
    if items != [] {
      AcquireDeclinedIff(s, claim, target, items[0], now);
      var o := AcquireItem(s, claim, target, items[0], now);
      if o.Done? { AcquiredIff(o.store, claim, target, items[1..], now); }
      assert AllStorable(items) ==> AllStorable(items[1..]);
      if AllStorable(items[1..]) {
        forall i | 0 < i < |items| ensures items[i] == items[1..][i - 1] {}
      }
    }
  }

  /** What the collector brings is in order. */
  predicate WellBrought(claim: Claim, r: PageResult, now: Instant) {
    && r.wellFormed
    && (r.disposition == Continue ==> r.nextCursor.Some? && r.nextCursor != claim.row.cursor)
    && (r.disposition == Defer ==> r.retryAt.Some?)
    && (r.disposition == Part ==> r.reason.Some?)
    && (r.retryAt.Some? ==> now < r.retryAt.value)
    && (r.disposition == Complete && claim.id.mode == Backfill ==>
          claim.target.capability.historyMode != FeedOnly && claim.target.capability.historyMode != SnapshotOnly)
  }

  predicate OwnCursor(cursor: Option<Cursor>, id: PartitionId, version: int) {
    match cursor
    case None => true
    case Some(Garbled(_)) => false
    case Some(Cursor(key, v, _)) => key == id && v == version
  }

  lemma PresentableIff(claim: Claim, r: PageResult, now: Instant)
    ensures Presentable(claim, r, now) <==> WellBrought(claim, r, now)
  {}

  /** In any reachable store a commit is accepted exactly under these conditions: no constraint stands in its way. */
  lemma CommitAcceptedIff(s: Store, claim: Claim, r: PageResult, now: Instant)
    requires Reachable(s)
    ensures CommitPage(s, claim, r, now).Done? <==>
            && WellBrought(claim, r, now) && MayCollect(s.catalog, claim.id.target)
            && OwnCursor(r.nextCursor, claim.id, s.catalog.revisions[claim.id.target].capability.cursorVersion)
            && Fence(s, claim, now) && AllStorable(r.items)
            && claim.run in s.runs && s.runs[claim.run].startedAt <= now
  {
    CollectableIff(s.catalog, claim.target.id);
    PresentableIff(claim, r, now);
    var target := ReadTarget(s.catalog, claim.target.id);
    if target.Some? && Collectable(target.value) && Fence(s, claim, now) {
      ReachableInv(s);
      FenceFindsRun(s, claim, now);
      assert PartitionOk(s, claim.id) && CheckpointOk(s, claim.id, s.partitions[claim.id].pageSequence);
      AcquiredIff(s, claim, target.value, r.items, now);
      if AllStorable(r.items) { AcquireItemsFrame(s, claim, target.value, r.items, now); }
    }
  }

  /** Otherwise it is refused for the first of these reasons. */
  lemma CommitRefusedFor(s: Store, claim: Claim, r: PageResult, now: Instant)
    ensures var (o, id) := (CommitPage(s, claim, r, now), claim.target.id);
            && (!WellBrought(claim, r, now) ==> o == Rejected(InvalidPage))
            && (WellBrought(claim, r, now) ==>
                  && (id !in s.catalog.revisions ==> o == Rejected(NotFound))
                  && (ReadTarget(s.catalog, id).Some? && !MayCollect(s.catalog, id) ==> o == Rejected(PolicyBlocked))
                  && (MayCollect(s.catalog, id) ==>
                        && (!Fence(s, claim, now) ==> o == Rejected(StaleLease))
                        && (Fence(s, claim, now)
                            && !OwnCursor(r.nextCursor, claim.id, s.catalog.revisions[id].capability.cursorVersion) ==>
                              o == Rejected(InvalidCursor))))
  {
    CollectableIff(s.catalog, claim.target.id);
    PresentableIff(claim, r, now);
  }

  /** What a commit records: the checkpoint, the row at its next page, the run, and the page's delivery. */
  lemma CommitRecords(s: Store, claim: Claim, r: PageResult, now: Instant)
    requires CommitPage(s, claim, r, now).Done?
    ensures var (t, id) := (CommitPage(s, claim, r, now).store, claim.id);
            && id in s.partitions && id in t.partitions && claim.run in s.runs
            && var (was, row) := (s.partitions[id], t.partitions[id]);
            && row == Partition(
                 match r.disposition
                 case Continue => Pending case Complete => Completed case Defer => Deferred case Part => Partial,
                 was.pageSequence + 1, r.nextCursor, was.leaseEpoch, None, was.run,
                 if r.retryAt.Some? then r.retryAt.value else now, r.reason, was.attempts)
            && t.checkpoints == s.checkpoints[(id, was.pageSequence) :=
                 Checkpoint(was.leaseEpoch, was.cursor, r.nextCursor, r.disposition, |r.items|)]
            && t.runs == s.runs[claim.run :=
                 s.runs[claim.run].(status := RunSucceeded, cursorAfter := r.nextCursor)]
            && var key := CollectionPage(id, was.pageSequence);
            (key in s.outbox ==> key in t.outbox && t.outbox[key] == s.outbox[key].(completedAt := Some(now)))
  {
    AcquireItemsFrame(s, claim, ReadTarget(s.catalog, claim.target.id).value, r.items, now);
  }

  // ---------- Failures ----------

  /** A failed page keeps at most 128 characters of the reason, ends its run, and can be resumed. */
  lemma FailRecords(s: Store, claim: Claim, reason: string, retryAt: Option<Instant>, now: Instant, later: Instant)
    requires FailPage(s, claim, reason, retryAt, now).Done?
    ensures var (t, id) := (FailPage(s, claim, reason, retryAt, now).store, claim.id);
            && id in t.partitions && claim.run in t.runs
            && t.partitions[id].state == (if retryAt.Some? then Deferred else Failed)
            && t.partitions[id].reason.Some? && |t.partitions[id].reason.value| <= 128
            && t.partitions[id].reason.value <= reason
            && (|reason| <= 128 ==> t.partitions[id].reason.value == reason)
            && t.runs[claim.run].status == RunFailed
            && (MayCollect(s.catalog, id.target) ==> ResumePartition(t, id, later).Done?)
  {
    CollectableIff(s.catalog, claim.id.target);
  }

  /** Neither a completed nor a partial partition is resumed, nor one that is leased; any other is. */
  lemma ResumedIff(s: Store, id: PartitionId, now: Instant)
    ensures ResumePartition(s, id, now).Done? <==>
            && id in s.partitions && MayCollect(s.catalog, id.target)
            && s.partitions[id].state != Completed && s.partitions[id].state != Partial
            && (s.partitions[id].leaseUntil.Some? ==> s.partitions[id].leaseUntil.value <= now)
  {
    CollectableIff(s.catalog, id.target);
  }

  /** A resumed partition waits at its page from the time of the resume, without lease or reason, its delivery open. */
  lemma ResumeRecords(s: Store, id: PartitionId, now: Instant)
    requires ResumePartition(s, id, now).Done?
    ensures var o := ResumePartition(s, id, now);
            && id in s.partitions && id in o.store.partitions && o.value == o.store.partitions[id]
            && var row := s.partitions[id];
            && o.value == Partition(Pending, row.pageSequence, row.cursor, row.leaseEpoch, None, row.run, now, None,
                                    row.attempts)
            && o.store == s.(partitions := s.partitions[id := o.value], outbox := o.store.outbox)
            && var key := CollectionPage(id, row.pageSequence);
            && key in o.store.outbox && o.store.outbox[key].completedAt.None? && o.store.outbox[key].sentAt.None?
            && o.store.outbox[key].notBefore == now
            && forall k :: k in s.outbox && k != key ==> k in o.store.outbox && o.store.outbox[k] == s.outbox[k]
  {}
}
