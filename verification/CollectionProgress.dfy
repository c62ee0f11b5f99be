/**
  No page gets stuck: in every reachable store a live page can be claimed exactly when it is due and not
  leased, and every way a page's turn ends says from when on its next claim and hand-out succeed.
*/
module CollectionProgress {
  import opened Common
  import opened CollectionState
  import opened CollectionInvariants
  import opened CollectionHistory

  lemma NextEpochFree(s: Store, id: PartitionId)
    requires Reachable(s) && id in s.partitions
    ensures !EpochTaken(s.attempts, id, s.partitions[id].leaseEpoch + 1)
  {
    ReachableInv(s);
    assert PartitionOk(s, id);
    forall r | r in s.attempts && s.attempts[r].partition == id
      ensures s.attempts[r].leaseEpoch != s.partitions[id].leaseEpoch + 1
    {
      assert AttemptOk(s, id, r);
    }
  }

  /** The partition's target may be collected now, and its cursor is of the target's version. */
  predicate Open(s: Store, id: PartitionId)
    requires id in s.partitions
  {
    var target := ReadTarget(s.catalog, id.target);
    && target.Some? && Collectable(target.value)
    && DecodesFor(s.partitions[id].cursor, id, target.value.capability.cursorVersion)
  }

  /** The clock is not behind the start of the partition's last run. */
  predicate ClockAhead(s: Store, id: PartitionId, now: Instant)
    requires id in s.partitions
  {
    var last := s.partitions[id].run;
    last.Some? && last.value in s.runs && s.runs[last.value].status == RunRunning ==>
      s.runs[last.value].startedAt <= now
  }

  /**
    A claim with a new run id is granted exactly when the page is the current one, live, due and not leased, and
    the clock is not behind a run that lapsed. It is refused as a constraint only for that clock.
  */
  lemma ClaimGrantedIff(s: Store, id: PartitionId, n: nat, now: Instant, leaseMs: int, run: RunId)
    requires Reachable(s) && id in s.partitions && Open(s, id)
    requires ValidLease(leaseMs) && run !in s.runs && run !in s.attempts
    ensures var o := ClaimPage(s, id, n, now, leaseMs, run);
            && (o.Done? && o.value.Some? <==> Claimable(s.partitions[id], n, now) && ClockAhead(s, id, now))
            && (o.Rejected? <==> Claimable(s.partitions[id], n, now) && !ClockAhead(s, id, now))
  {
    NextEpochFree(s, id);
  }

  /** What a page's delivery needs beside its time to be handed out. */
  predicate MayDispatch(s: Store, key: DeliveryKey, later: Instant)
    requires key in s.outbox
  {
    && !Leased(s.outbox[key].leaseUntil, later)
    && s.outbox[key].partition in s.partitions && Dispatchable(s.catalog, s.outbox[key].partition, None)
  }

  /** From `at` on, and not before, the page can be claimed and its delivery handed out. */
  ghost predicate RunsFrom(s: Store, id: PartitionId, n: nat, at: Instant) {
    var key := CollectionPage(id, n);
    && id in s.partitions && key in s.outbox
    && forall later: Instant {:trigger Claimable(s.partitions[id], n, later)} {:trigger Due(s, key, later, None)} ::
         && (Claimable(s.partitions[id], n, later) <==> at <= later)
         && (Due(s, key, later, None) <==> at <= later && MayDispatch(s, key, later))
  }

  /** The page's turn is over for good: it is never claimed and its delivery never handed out. */
  ghost predicate NeverRuns(s: Store, id: PartitionId, n: nat) {
    var key := CollectionPage(id, n);
    && id in s.partitions
    && forall later: Instant {:trigger Claimable(s.partitions[id], n, later)} {:trigger Due(s, key, later, None)} ::
         !Claimable(s.partitions[id], n, later) && !Due(s, key, later, None)
  }

  /** A failed page with a retry time runs again from that time on; without one it never does. */
  lemma AfterFail(s: Store, claim: Claim, reason: string, retryAt: Option<Instant>, now: Instant)
    requires Reachable(s) && FailPage(s, claim, reason, retryAt, now).Done?
    ensures var t, n := FailPage(s, claim, reason, retryAt, now).store, claim.row.pageSequence;
            if retryAt.Some? then RunsFrom(t, claim.id, n, retryAt.value) else NeverRuns(t, claim.id, n)
  {
    ReachableInv(s);
    assert PartitionOk(s, claim.id) && PageOk(s, claim.id, claim.row.pageSequence);
  }

  /** A resumed page runs from the time of the resume on, whatever state but completed or partial it was in. */
  lemma AfterResume(s: Store, id: PartitionId, now: Instant)
    requires Reachable(s) && ResumePartition(s, id, now).Done?
    ensures RunsFrom(ResumePartition(s, id, now).store, id, s.partitions[id].pageSequence, now)
  {
    ReachableInv(s);
    assert PartitionOk(s, id) && PageOk(s, id, s.partitions[id].pageSequence);
  }

  lemma AfterCommitRows(s: Store, claim: Claim, r: PageResult, now: Instant)
    requires claim.id in s.partitions && claim.run in s.runs && PartitionOk(s, claim.id)
    requires CommitRows(s, claim, r, now).Done?
    ensures var t, n := CommitRows(s, claim, r, now).store, s.partitions[claim.id].pageSequence;
            && NeverRuns(t, claim.id, n)
            && (if Live(NextState(r.disposition))
                then RunsFrom(t, claim.id, n + 1, if r.retryAt.Some? then r.retryAt.value else now)
                else NeverRuns(t, claim.id, n + 1))
  {
    var n := s.partitions[claim.id].pageSequence;
    assert PageOk(s, claim.id, n) && PageOk(s, claim.id, n + 1);
  }

  /**
    A committed page never runs again; the next one runs from the retry time, or at once, if the result says to
    continue or defer, and does not exist otherwise.
  */
  lemma AfterCommit(s: Store, claim: Claim, r: PageResult, now: Instant)
    requires Reachable(s) && CommitPage(s, claim, r, now).Done?
    ensures var t, n := CommitPage(s, claim, r, now).store, claim.row.pageSequence;
            && NeverRuns(t, claim.id, n)
            && (if Live(NextState(r.disposition))
                then RunsFrom(t, claim.id, n + 1, if r.retryAt.Some? then r.retryAt.value else now)
                else NeverRuns(t, claim.id, n + 1))
  {
    ReachableInv(s);
    var target := ReadTarget(s.catalog, claim.target.id).value;
    AcquireItemsFrame(s, claim, target, r.items, now);
    var s1 := AcquireItems(s, claim, target, r.items, now).store;
    OutboxStepKeepsInv(s, s1);
    AfterCommitRows(s1, claim, r, now);
  }
}
