/**
  What every repository step keeps, and what it means for whole runs of the system: no page of work is
  lost or doubled, checkpoints form a chain, and a lease epoch fences off every older claim.
*/
module CollectionInvariants {
  import opened Common
  import opened CollectionState

  // ---------- The invariant ----------

  /** A collection delivery is at or before the current page, and open exactly at a live current page. */
  ghost predicate PageOk(s: Store, id: PartitionId, n: nat)
    requires id in s.partitions
  {
    CollectionPage(id, n) in s.outbox ==>
      var row, d := s.partitions[id], s.outbox[CollectionPage(id, n)];
      && n <= row.pageSequence
      && d.partition == id && d.pageSequence == n
      && (d.completedAt.None? <==> n == row.pageSequence && Live(row.state))
  }

  ghost predicate DeliveriesOk(s: Store, id: PartitionId)
    requires id in s.partitions
  {
    && (Live(s.partitions[id].state) ==> CollectionPage(id, s.partitions[id].pageSequence) in s.outbox)
    && forall n: nat {:trigger PageOk(s, id, n)} :: PageOk(s, id, n)
  }

  ghost predicate Committed(s: Store, id: PartitionId, n: nat) {
    (id, n) in s.checkpoints
  }

  /** The cursor the pages before `n` lead to. */
  ghost function CursorAt(s: Store, id: PartitionId, n: nat): Option<Cursor>
    requires n > 0 ==> Committed(s, id, n - 1)
  {
    if n == 0 then None else s.checkpoints[(id, n - 1)].cursorAfter
  }

  /** One checkpoint for each page before the current one, chained by cursor, under a spent epoch. */
  ghost predicate CheckpointOk(s: Store, id: PartitionId, n: nat)
    requires id in s.partitions
  {
    var row := s.partitions[id];
    && (Committed(s, id, n) <==> n < row.pageSequence)
    && (Committed(s, id, n) ==>
          && s.checkpoints[(id, n)].leaseEpoch <= row.leaseEpoch
          && (row.state == Running ==> s.checkpoints[(id, n)].leaseEpoch < row.leaseEpoch)
          && (n > 0 ==> Committed(s, id, n - 1))
          && s.checkpoints[(id, n)].cursorBefore == CursorAt(s, id, n))
  }

  ghost predicate EpochsIncrease(s: Store, id: PartitionId, m: nat, n: nat) {
    m < n && Committed(s, id, m) && Committed(s, id, n) ==>
      s.checkpoints[(id, m)].leaseEpoch < s.checkpoints[(id, n)].leaseEpoch
  }

  ghost predicate CheckpointsOk(s: Store, id: PartitionId)
    requires id in s.partitions
  {
    var row := s.partitions[id];
    && (forall n: nat {:trigger CheckpointOk(s, id, n)} :: CheckpointOk(s, id, n))
    && (row.pageSequence > 0 ==> Committed(s, id, row.pageSequence - 1))
    && row.cursor == CursorAt(s, id, row.pageSequence)
    && (forall m: nat, n: nat {:trigger EpochsIncrease(s, id, m, n)} :: EpochsIncrease(s, id, m, n))
  }

  ghost function AttemptsOf(s: Store, id: PartitionId): set<RunId> {
    set r | r in s.attempts && s.attempts[r].partition == id
  }

  ghost function SucceededOf(s: Store, id: PartitionId): set<RunId> {
    set r | r in AttemptsOf(s, id) && r in s.runs && s.runs[r].status == RunSucceeded
  }

  /** A run succeeded exactly when its page's checkpoint carries its epoch; only the row's run is running. */
  ghost predicate AttemptOk(s: Store, id: PartitionId, r: RunId)
    requires id in s.partitions
  {
    r in s.attempts && s.attempts[r].partition == id ==>
      var a, row := s.attempts[r], s.partitions[id];
      && r in s.runs
      && 1 <= a.leaseEpoch <= row.leaseEpoch
      && a.pageSequence <= row.pageSequence
      && (s.runs[r].status == RunRunning ==> row.run == Some(r))
      && (s.runs[r].status == RunSucceeded <==>
            Committed(s, id, a.pageSequence) && s.checkpoints[(id, a.pageSequence)].leaseEpoch == a.leaseEpoch)
  }

  ghost predicate EpochsDistinct(s: Store, id: PartitionId, q: RunId, r: RunId) {
    q in AttemptsOf(s, id) && r in AttemptsOf(s, id) && s.attempts[q].leaseEpoch == s.attempts[r].leaseEpoch ==> q == r
  }

  ghost predicate AttemptsOk(s: Store, id: PartitionId)
    requires id in s.partitions
  {
    var row := s.partitions[id];
    && row.attempts == row.leaseEpoch == |AttemptsOf(s, id)|
    && |SucceededOf(s, id)| == row.pageSequence
    && (forall r {:trigger AttemptOk(s, id, r)} :: AttemptOk(s, id, r))
    && (forall q, r {:trigger EpochsDistinct(s, id, q, r)} :: EpochsDistinct(s, id, q, r))
    && (row.run.None? <==> row.leaseEpoch == 0)
    && (row.run.Some? ==>
          row.run.value in s.attempts && row.run.value in s.runs
          && s.attempts[row.run.value].partition == id && s.attempts[row.run.value].leaseEpoch == row.leaseEpoch)
    && (row.state == Running ==>
          row.run.Some?
          && s.attempts[row.run.value].pageSequence == row.pageSequence
          && s.runs[row.run.value].status == RunRunning)
  }

  ghost predicate PartitionOk(s: Store, id: PartitionId)
    requires id in s.partitions
  {
    && s.partitions[id].state != Cancelled
    && DeliveriesOk(s, id) && CheckpointsOk(s, id) && AttemptsOk(s, id)
  }

  /** Every row that names a partition names an existing one. */
  ghost predicate ReferencesOk(s: Store) {
    && s.runs.Keys == s.attempts.Keys
    && (forall r :: r in s.attempts ==> s.attempts[r].partition in s.partitions)
    && (forall k :: k in s.outbox && k.CollectionPage? ==> k.partition in s.partitions)
    && (forall p :: p in s.checkpoints ==> p.0 in s.partitions)
  }

  ghost predicate Inv(s: Store) {
    ReferencesOk(s) && forall id {:trigger PartitionOk(s, id)} :: id in s.partitions ==> PartitionOk(s, id)
  }

  // ---------- Frames ----------

  ghost predicate SamePage(a: Outbox, b: Outbox, key: DeliveryKey) {
    && (key in a <==> key in b)
    && (key in a ==> b[key].partition == a[key].partition
                     && b[key].pageSequence == a[key].pageSequence
                     && b[key].completedAt == a[key].completedAt)
  }

  /** The deliveries of `id` look the same. */
  ghost predicate SamePages(s: Store, t: Store, id: PartitionId) {
    forall n: nat {:trigger SamePage(s.outbox, t.outbox, CollectionPage(id, n))} ::
      SamePage(s.outbox, t.outbox, CollectionPage(id, n))
  }

  ghost predicate SameCheckpoints(s: Store, t: Store, id: PartitionId) {
    && (forall n: nat :: (id, n) in t.checkpoints <==> (id, n) in s.checkpoints)
    && (forall n: nat :: (id, n) in s.checkpoints ==> t.checkpoints[(id, n)] == s.checkpoints[(id, n)])
  }

  ghost predicate SameAttempts(s: Store, t: Store, id: PartitionId) {
    && AttemptsOf(t, id) == AttemptsOf(s, id)
    && (forall r :: r in AttemptsOf(s, id) ==>
          t.attempts[r] == s.attempts[r] && (r in s.runs <==> r in t.runs)
          && (r in s.runs ==> t.runs[r] == s.runs[r]))
  }

  /** The row fields the three parts of the invariant read. */
  ghost predicate SamePosition(p: Partition, q: Partition) {
    p.pageSequence == q.pageSequence && p.cursor == q.cursor && p.leaseEpoch == q.leaseEpoch
  }

  lemma DeliveriesKept(s: Store, t: Store, id: PartitionId)
    requires id in s.partitions && id in t.partitions && DeliveriesOk(s, id) && SamePages(s, t, id)
    requires t.partitions[id].pageSequence == s.partitions[id].pageSequence
    requires Live(t.partitions[id].state) <==> Live(s.partitions[id].state)
    ensures DeliveriesOk(t, id)
  {
    assert SamePage(s.outbox, t.outbox, CollectionPage(id, t.partitions[id].pageSequence));
    forall n: nat ensures PageOk(t, id, n) {
      assert PageOk(s, id, n);
      assert SamePage(s.outbox, t.outbox, CollectionPage(id, n));
    }
  }

  /** A step that leaves the checkpoints alone keeps their chain unless it starts running at a spent epoch. */
  lemma CheckpointsKept(s: Store, t: Store, id: PartitionId)
    requires id in s.partitions && id in t.partitions && CheckpointsOk(s, id) && SameCheckpoints(s, t, id)
    requires t.partitions[id].pageSequence == s.partitions[id].pageSequence
    requires t.partitions[id].cursor == s.partitions[id].cursor
    requires t.partitions[id].leaseEpoch >= s.partitions[id].leaseEpoch
    requires t.partitions[id].state == Running ==>
      s.partitions[id].state == Running || t.partitions[id].leaseEpoch > s.partitions[id].leaseEpoch
    ensures CheckpointsOk(t, id)
  {
    forall n: nat ensures CheckpointOk(t, id, n) {
      assert CheckpointOk(s, id, n);
    }
    forall m: nat, n: nat ensures EpochsIncrease(t, id, m, n) {
      assert EpochsIncrease(s, id, m, n);
    }
  }

  /** The run of an attempt may only move away from running, and never to or from succeeded. */
  ghost predicate RunKept(s: Store, t: Store, r: RunId) {
    r in s.runs ==>
      && r in t.runs
      && (t.runs[r].status == RunRunning ==> s.runs[r].status == RunRunning)
      && (t.runs[r].status == RunSucceeded <==> s.runs[r].status == RunSucceeded)
  }

  /** A step that opens no attempt and commits nothing keeps the attempts of `id` in order. */
  lemma AttemptsKept(s: Store, t: Store, id: PartitionId)
    requires id in s.partitions && id in t.partitions && AttemptsOk(s, id) && SameCheckpoints(s, t, id)
    requires AttemptsOf(t, id) == AttemptsOf(s, id)
    requires forall r :: r in AttemptsOf(s, id) ==> t.attempts[r] == s.attempts[r] && RunKept(s, t, r)
    requires forall r :: r in AttemptsOf(s, id) && r in t.runs ==> r in s.runs
    requires SamePosition(s.partitions[id], t.partitions[id])
    requires t.partitions[id].run == s.partitions[id].run && t.partitions[id].attempts == s.partitions[id].attempts
    requires t.partitions[id].state == Running ==>
      && s.partitions[id].state == Running
      && s.partitions[id].run.value in t.runs && t.runs[s.partitions[id].run.value].status == RunRunning
    ensures AttemptsOk(t, id)
  {
    forall r ensures AttemptOk(t, id, r) {
      assert AttemptOk(s, id, r);
      assert r in AttemptsOf(t, id) <==> r in AttemptsOf(s, id);
    }
    forall q, r ensures EpochsDistinct(t, id, q, r) {
      assert EpochsDistinct(s, id, q, r);
    }
    assert SucceededOf(t, id) == SucceededOf(s, id) by {
      forall r ensures r in SucceededOf(t, id) <==> r in SucceededOf(s, id) {
        assert r in AttemptsOf(t, id) <==> r in AttemptsOf(s, id);
      }
    }
    if t.partitions[id].run.Some? {
      assert t.partitions[id].run.value in AttemptsOf(s, id);
    }
  }

  /** A partition none of whose rows changed stays in order. */
  lemma SliceKept(s: Store, t: Store, id: PartitionId)
    requires id in s.partitions && id in t.partitions && t.partitions[id] == s.partitions[id]
    requires SameSlice(s, t, id) && PartitionOk(s, id)
    ensures PartitionOk(t, id)
  {
    DeliveriesKept(s, t, id);
    CheckpointsKept(s, t, id);
    AttemptsKept(s, t, id);
  }

  /** A step that only touches the outbox, and no page's completion, keeps the invariant. */
  lemma OutboxStepKeepsInv(s: Store, t: Store)
    requires Inv(s)
    requires t.partitions == s.partitions && t.runs == s.runs && t.attempts == s.attempts
    requires t.checkpoints == s.checkpoints
    requires forall k: DeliveryKey :: k.CollectionPage? ==> SamePage(s.outbox, t.outbox, k)
    ensures Inv(t)
  {
    forall k | k in t.outbox && k.CollectionPage? ensures k.partition in t.partitions {
      assert SamePage(s.outbox, t.outbox, k);
    }
    forall id | id in t.partitions ensures PartitionOk(t, id) {
      assert PartitionOk(s, id);
      SliceKept(s, t, id);
    }
  }

  ghost predicate SameSlice(s: Store, t: Store, id: PartitionId) {
    SamePages(s, t, id) && SameCheckpoints(s, t, id) && SameAttempts(s, t, id)
  }

  /** A step on `id` leaves the rows of every other partition alone. */
  ghost predicate OnlyTouches(s: Store, t: Store, id: PartitionId) {
    && id in t.partitions
    && (forall q :: q in t.partitions && q != id ==> q in s.partitions && t.partitions[q] == s.partitions[q])
    && (forall q {:trigger SameSlice(s, t, q)} :: q != id ==> SameSlice(s, t, q))
  }

  lemma StepOnOneKeepsInv(s: Store, t: Store, id: PartitionId)
    requires Inv(s) && OnlyTouches(s, t, id) && ReferencesOk(t)
    requires PartitionOk(t, id)
    ensures Inv(t)
  {
    forall q | q in t.partitions && q != id ensures PartitionOk(t, q) {
      assert PartitionOk(s, q) && SameSlice(s, t, q);
      SliceKept(s, t, q);
    }
  }

  // ---------- Each step keeps it ----------

  lemma EmptyInv()
    ensures Inv(EMPTY)
  {}

  /** Planning a partition that exists changes nothing at all: its open page is already in the outbox. */
  lemma PlanKeepsInv(s: Store, id: PartitionId, now: Instant)
    requires Inv(s) && PlanPartition(s, id, now).Done?
    ensures Inv(PlanPartition(s, id, now).store)
    ensures id in s.partitions ==> PlanPartition(s, id, now).store == s
  {
    if id in s.partitions {
      assert PartitionOk(s, id);
    } else {
      PlanCreates(s, id, now);
    }
  }

  lemma PlanTouches(s: Store, id: PartitionId, now: Instant)
    requires Inv(s) && PlanPartition(s, id, now).Done? && id !in s.partitions
    ensures var t := PlanPartition(s, id, now).store; OnlyTouches(s, t, id) && ReferencesOk(t)
  {
    var t := PlanPartition(s, id, now).store;
    assert t == s.(partitions := t.partitions, outbox := t.outbox);
    OnlyPagesOf(s, t, id);
  }

  /** A step that changes one partition's row and the page deliveries of that partition leaves the others alone. */
  lemma OnlyPagesOf(s: Store, t: Store, id: PartitionId)
    requires t == s.(partitions := t.partitions, outbox := t.outbox) && id in t.partitions
    requires forall q :: q in t.partitions && q != id ==> q in s.partitions && t.partitions[q] == s.partitions[q]
    requires forall q {:trigger SamePages(s, t, q)} :: q != id ==> SamePages(s, t, q)
    ensures OnlyTouches(s, t, id)
  {
    forall q | q != id ensures SameSlice(s, t, q) {
      assert SamePages(s, t, q);
      assert AttemptsOf(t, q) == AttemptsOf(s, q);
    }
  }

  lemma PlannedPartitionOk(s: Store, id: PartitionId, now: Instant)
    requires Inv(s) && PlanPartition(s, id, now).Done? && id !in s.partitions
    ensures PartitionOk(PlanPartition(s, id, now).store, id)
  {
    var t := PlanPartition(s, id, now).store;
    assert AttemptsOf(t, id) == {} && SucceededOf(t, id) == {};
  }

  lemma PlanCreates(s: Store, id: PartitionId, now: Instant)
    requires Inv(s) && PlanPartition(s, id, now).Done? && id !in s.partitions
    ensures Inv(PlanPartition(s, id, now).store)
  {
    PlanTouches(s, id, now);
    PlannedPartitionOk(s, id, now);
    StepOnOneKeepsInv(s, PlanPartition(s, id, now).store, id);
  }

  lemma RenewTouches(s: Store, claim: Claim, now: Instant, leaseMs: int)
    requires Inv(s) && RenewPage(s, claim, now, leaseMs).Done? && RenewPage(s, claim, now, leaseMs).value
    ensures var t := RenewPage(s, claim, now, leaseMs).store; OnlyTouches(s, t, claim.id) && ReferencesOk(t)
  {}

  lemma RenewPartitionOk(s: Store, claim: Claim, now: Instant, leaseMs: int)
    requires Inv(s) && RenewPage(s, claim, now, leaseMs).Done? && RenewPage(s, claim, now, leaseMs).value
    ensures PartitionOk(RenewPage(s, claim, now, leaseMs).store, claim.id)
  {
    var t := RenewPage(s, claim, now, leaseMs).store;
    assert PartitionOk(s, claim.id);
    DeliveriesKept(s, t, claim.id);
    CheckpointsKept(s, t, claim.id);
    AttemptsKept(s, t, claim.id);
  }

  lemma RenewKeepsInv(s: Store, claim: Claim, now: Instant, leaseMs: int)
    requires Inv(s) && RenewPage(s, claim, now, leaseMs).Done?
    ensures Inv(RenewPage(s, claim, now, leaseMs).store)
  {
    var o := RenewPage(s, claim, now, leaseMs);
    if o.value {
      RenewTouches(s, claim, now, leaseMs);
      RenewPartitionOk(s, claim, now, leaseMs);
      StepOnOneKeepsInv(s, o.store, claim.id);
    }
  }

  /** The claimed row's own attempts, once the new one is opened. */
  ghost predicate OpensAttempt(s: Store, t: Store, id: PartitionId, run: RunId)
    requires id in s.partitions && id in t.partitions
  {
    var row, next := s.partitions[id], t.partitions[id];
    && run !in s.attempts && run !in s.runs
    && next.state == Running && next.run == Some(run) && next.pageSequence == row.pageSequence
    && next.leaseEpoch == row.leaseEpoch + 1 && next.attempts == row.attempts + 1
    && t.checkpoints == s.checkpoints
    && t.attempts == s.attempts[run := Attempt(id, row.pageSequence, row.leaseEpoch + 1)]
    && t.runs.Keys == s.runs.Keys + {run} && t.runs[run].status == RunRunning
    && (forall r :: r in s.runs ==> RunKept(s, t, r))
    && (forall r :: r in s.runs && row.run != Some(r) ==> t.runs[r] == s.runs[r])
    && (row.run.Some? && row.run.value in t.runs ==> t.runs[row.run.value].status != RunRunning)
  }

  lemma ClaimAttempts(s: Store, t: Store, id: PartitionId, run: RunId)
    requires id in s.partitions && id in t.partitions && AttemptsOk(s, id) && CheckpointsOk(s, id)
    requires OpensAttempt(s, t, id, run)
    ensures AttemptsOk(t, id)
  {
    ClaimAttemptOk(s, t, id, run);
    ClaimEpochs(s, t, id, run);
    AttemptCounted(s, t, id, run, t.attempts[run]);
    ClaimKeepsSucceeded(s, t, id, run);
  }

  lemma ClaimEpochs(s: Store, t: Store, id: PartitionId, run: RunId)
    requires id in s.partitions && id in t.partitions && OpensAttempt(s, t, id, run)
    requires forall r {:trigger AttemptOk(s, id, r)} :: AttemptOk(s, id, r)
    requires forall q, r {:trigger EpochsDistinct(s, id, q, r)} :: EpochsDistinct(s, id, q, r)
    ensures forall q, r {:trigger EpochsDistinct(t, id, q, r)} :: EpochsDistinct(t, id, q, r)
  {
    forall q, r ensures EpochsDistinct(t, id, q, r) {
      assert EpochsDistinct(s, id, q, r) && AttemptOk(s, id, q) && AttemptOk(s, id, r);
    }
  }

  lemma ClaimAttemptOk(s: Store, t: Store, id: PartitionId, run: RunId)
    requires id in s.partitions && id in t.partitions && CheckpointsOk(s, id)
    requires forall r {:trigger AttemptOk(s, id, r)} :: AttemptOk(s, id, r)
    requires OpensAttempt(s, t, id, run)
    ensures forall r {:trigger AttemptOk(t, id, r)} :: AttemptOk(t, id, r)
  {
    assert CheckpointOk(s, id, t.partitions[id].pageSequence);
    forall r ensures AttemptOk(t, id, r) {
      assert AttemptOk(s, id, r);
      if r in s.runs {
        assert RunKept(s, t, r);
      }
    }
  }

  lemma OneLarger<T>(a: set<T>, x: T, b: set<T>)
    requires x !in a && b == a + {x}
    ensures |b| == |a| + 1
  {}

  lemma AttemptAdded(s: Store, t: Store, id: PartitionId, run: RunId, a: Attempt)
    requires run !in s.attempts && t.attempts == s.attempts[run := a] && a.partition == id
    ensures AttemptsOf(t, id) == AttemptsOf(s, id) + {run} && run !in AttemptsOf(s, id)
  {}

  lemma AttemptCounted(s: Store, t: Store, id: PartitionId, run: RunId, a: Attempt)
    requires run !in s.attempts && t.attempts == s.attempts[run := a] && a.partition == id
    ensures |AttemptsOf(t, id)| == |AttemptsOf(s, id)| + 1
  {
    AttemptAdded(s, t, id, run, a);
    OneLarger(AttemptsOf(s, id), run, AttemptsOf(t, id));
  }

  lemma ClaimKeepsSucceeded(s: Store, t: Store, id: PartitionId, run: RunId)
    requires id in s.partitions && id in t.partitions && OpensAttempt(s, t, id, run)
    ensures |SucceededOf(t, id)| == |SucceededOf(s, id)|
  {
    AttemptAdded(s, t, id, run, t.attempts[run]);
    SucceededKept(s, t, id, run);
  }

  lemma SucceededKept(s: Store, t: Store, id: PartitionId, run: RunId)
    requires AttemptsOf(t, id) == AttemptsOf(s, id) + {run}
    requires run !in s.runs && run in t.runs && t.runs[run].status == RunRunning
    requires forall r :: r in s.runs ==> RunKept(s, t, r)
    requires forall r :: r in t.runs && r != run ==> r in s.runs
    ensures SucceededOf(t, id) == SucceededOf(s, id)
  {
    forall r ensures r in SucceededOf(t, id) <==> r in SucceededOf(s, id) {
      if r in s.runs {
        assert RunKept(s, t, r);
      }
    }
  }

  lemma ClaimOpensAttempt(s: Store, id: PartitionId, pageSequence: nat, now: Instant, leaseMs: int, run: RunId)
    requires Inv(s) && ClaimPage(s, id, pageSequence, now, leaseMs, run).Done?
    requires ClaimPage(s, id, pageSequence, now, leaseMs, run).value.Some?
    ensures var t := ClaimPage(s, id, pageSequence, now, leaseMs, run).store;
            id in s.partitions && id in t.partitions && OpensAttempt(s, t, id, run)
  {
    assert PartitionOk(s, id);
  }

  lemma ClaimTouches(s: Store, id: PartitionId, pageSequence: nat, now: Instant, leaseMs: int, run: RunId)
    requires Inv(s) && ClaimPage(s, id, pageSequence, now, leaseMs, run).Done?
    requires ClaimPage(s, id, pageSequence, now, leaseMs, run).value.Some?
    ensures OnlyTouches(s, ClaimPage(s, id, pageSequence, now, leaseMs, run).store, id)
  {
    var t := ClaimPage(s, id, pageSequence, now, leaseMs, run).store;
    assert PartitionOk(s, id);
    forall q | q != id ensures SameAttempts(s, t, q) {
      assert AttemptsOf(t, q) == AttemptsOf(s, q);
    }
  }

  lemma ClaimReferences(s: Store, id: PartitionId, pageSequence: nat, now: Instant, leaseMs: int, run: RunId)
    requires Inv(s) && ClaimPage(s, id, pageSequence, now, leaseMs, run).Done?
    ensures ReferencesOk(ClaimPage(s, id, pageSequence, now, leaseMs, run).store)
  {
    if id in s.partitions {
      assert PartitionOk(s, id);
    }
  }

  lemma ClaimPartitionOk(s: Store, id: PartitionId, pageSequence: nat, now: Instant, leaseMs: int, run: RunId)
    requires Inv(s) && ClaimPage(s, id, pageSequence, now, leaseMs, run).Done?
    requires ClaimPage(s, id, pageSequence, now, leaseMs, run).value.Some?
    ensures var t := ClaimPage(s, id, pageSequence, now, leaseMs, run).store;
            id in t.partitions && PartitionOk(t, id)
  {
    var t := ClaimPage(s, id, pageSequence, now, leaseMs, run).store;
    ClaimOpensAttempt(s, id, pageSequence, now, leaseMs, run);
    assert PartitionOk(s, id);
    DeliveriesKept(s, t, id);
    CheckpointsKept(s, t, id);
    ClaimAttempts(s, t, id, run);
  }

  lemma ClaimKeepsInv(s: Store, id: PartitionId, pageSequence: nat, now: Instant, leaseMs: int, run: RunId)
    requires Inv(s) && ClaimPage(s, id, pageSequence, now, leaseMs, run).Done?
    ensures Inv(ClaimPage(s, id, pageSequence, now, leaseMs, run).store)
  {
    var o := ClaimPage(s, id, pageSequence, now, leaseMs, run);
    if o.value.Some? {
      ClaimPartitionOk(s, id, pageSequence, now, leaseMs, run);
      ClaimTouches(s, id, pageSequence, now, leaseMs, run);
      ClaimReferences(s, id, pageSequence, now, leaseMs, run);
      StepOnOneKeepsInv(s, o.store, id);
    }
  }

  /** While its claim passes the fence, a partition's current run is the claim's and is running. */
  lemma FenceFindsRun(s: Store, claim: Claim, now: Instant)
    requires Inv(s) && Fence(s, claim, now)
    ensures claim.run in s.runs && claim.run in s.attempts
    ensures var row := s.partitions[claim.id];
            s.attempts[claim.run] == Attempt(claim.id, row.pageSequence, row.leaseEpoch)
    ensures s.runs[claim.run].status == RunRunning
  {
    assert PartitionOk(s, claim.id);
  }

  /** Acquiring items touches raw rows, memberships and normalization deliveries only. */
  lemma {:induction false} AcquireItemsFrame(s: Store, claim: Claim, target: Target, items: seq<Item>, now: Instant)
    requires AcquireItems(s, claim, target, items, now).Done?
    ensures var t := AcquireItems(s, claim, target, items, now).store;
            && t == s.(rawItems := t.rawItems, memberships := t.memberships, outbox := t.outbox)
            && (forall k :: k in s.outbox ==> k in t.outbox && t.outbox[k] == s.outbox[k])
            && (forall k :: k in t.outbox && !k.Normalization? ==> k in s.outbox)
    decreases |items|
  {
    if items != [] {
      var s1 := AcquireItem(s, claim, target, items[0], now).store;
      AcquireItemsFrame(s1, claim, target, items[1..], now);
    }
  }

  /** A permission holds only where the policy grants it, and verbatim-only is never lifted. */
  ghost predicate Within(rights: Policy, policy: Policy) {
    && (rights.approved ==> policy.approved) && (rights.fetch ==> policy.fetch) && (rights.store ==> policy.store)
    && (rights.embed ==> policy.embed) && (rights.modelInput ==> policy.modelInput)
    && (rights.displayExcerpt ==> policy.displayExcerpt)
    && (policy.verbatimOnly ==> rights.verbatimOnly)
    && (rights.license != policy.license ==> !rights.embed && !rights.modelInput && !rights.displayExcerpt)
  }

  /**
    No item widens the target's policy: every raw row a page adds has rights within the policy and enough
    to be stored, rows that existed keep theirs, and every item of the page is stored and scheduled.
  */
  lemma {:induction false} AcquiredRightsWithinPolicy(
      s: Store, claim: Claim, target: Target, items: seq<Item>, now: Instant)
    requires AcquireItems(s, claim, target, items, now).Done?
    ensures var t := AcquireItems(s, claim, target, items, now).store;
            && (forall raw :: raw in s.rawItems ==> raw in t.rawItems && t.rawItems[raw] == s.rawItems[raw])
            && (forall raw :: raw in t.rawItems && raw !in s.rawItems ==>
                  var rights := t.rawItems[raw].rights;
                  Within(rights, target.policy) && rights.approved && rights.fetch && rights.store)
            && (forall m :: m in s.memberships ==> m in t.memberships)
            && (forall k :: k in s.outbox ==> k in t.outbox)
            && (forall i {:trigger items[i]} :: 0 <= i < |items| ==>
                  var raw := RawId(target.source, items[i].externalId, items[i].payloadHash);
                  && raw in t.rawItems && (claim.id, raw) in t.memberships
                  && Normalization(raw, claim.id.workflowVersion) in t.outbox)
    decreases |items|
  {
    if items != [] {
      var s1 := AcquireItem(s, claim, target, items[0], now).store;
      AcquiredRightsWithinPolicy(s1, claim, target, items[1..], now);
      forall i | 0 < i < |items| ensures items[i] == items[1..][i - 1] {}
    }
  }

  lemma CommitRowsKeepsInv(s: Store, claim: Claim, r: PageResult, now: Instant)
    requires Inv(s) && Fence(s, claim, now) && claim.run in s.runs
    requires CommitRows(s, claim, r, now).Done?
    ensures Inv(CommitRows(s, claim, r, now).store)
  {
    assert PartitionOk(s, claim.id);
    CommitDeliveries(s, claim, r, now);
    CommitCheckpoints(s, claim, r, now);
    CommitAttempts(s, claim, r, now);
    CommitTouches(s, claim, r, now);
    CommitReferences(s, claim, r, now);
    StepOnOneKeepsInv(s, CommitRows(s, claim, r, now).store, claim.id);
  }

  lemma CommitSameAttempts(s: Store, claim: Claim, r: PageResult, now: Instant, q: PartitionId)
    requires Inv(s) && Fence(s, claim, now) && claim.run in s.runs && q != claim.id
    requires CommitRows(s, claim, r, now).Done?
    ensures SameAttempts(s, CommitRows(s, claim, r, now).store, q)
  {
    FenceFindsRun(s, claim, now);
    assert AttemptsOf(CommitRows(s, claim, r, now).store, q) == AttemptsOf(s, q);
  }

  lemma CommitTouches(s: Store, claim: Claim, r: PageResult, now: Instant)
    requires Inv(s) && Fence(s, claim, now) && claim.run in s.runs
    requires CommitRows(s, claim, r, now).Done?
    ensures OnlyTouches(s, CommitRows(s, claim, r, now).store, claim.id)
  {
    var t := CommitRows(s, claim, r, now).store;
    forall q | q != claim.id ensures SameSlice(s, t, q) {
      CommitSameAttempts(s, claim, r, now, q);
    }
  }

  lemma CommitReferences(s: Store, claim: Claim, r: PageResult, now: Instant)
    requires ReferencesOk(s) && claim.id in s.partitions && claim.run in s.runs
    requires CommitRows(s, claim, r, now).Done?
    ensures ReferencesOk(CommitRows(s, claim, r, now).store)
  {}

  lemma CommitDeliveries(s: Store, claim: Claim, r: PageResult, now: Instant)
    requires claim.id in s.partitions && claim.run in s.runs && DeliveriesOk(s, claim.id)
    requires CommitRows(s, claim, r, now).Done?
    ensures DeliveriesOk(CommitRows(s, claim, r, now).store, claim.id)
  {
    var t, id := CommitRows(s, claim, r, now).store, claim.id;
    forall n: nat ensures PageOk(t, id, n) {
      assert PageOk(s, id, n);
    }
  }

  lemma CommitCheckpoints(s: Store, claim: Claim, r: PageResult, now: Instant)
    requires Fence(s, claim, now) && claim.run in s.runs && CheckpointsOk(s, claim.id)
    requires CommitRows(s, claim, r, now).Done?
    ensures CheckpointsOk(CommitRows(s, claim, r, now).store, claim.id)
  {
    var t, id := CommitRows(s, claim, r, now).store, claim.id;
    var page := s.partitions[id].pageSequence;
    forall n: nat ensures CheckpointOk(t, id, n) {
      assert CheckpointOk(s, id, n);
      assert CursorAt(s, id, page) == CursorAt(t, id, page);
    }
    forall m: nat, n: nat ensures EpochsIncrease(t, id, m, n) {
      assert EpochsIncrease(s, id, m, n) && CheckpointOk(s, id, m) && CheckpointOk(s, id, n);
    }
  }

  lemma CommitAttempts(s: Store, claim: Claim, r: PageResult, now: Instant)
    requires Inv(s) && Fence(s, claim, now) && claim.run in s.runs
    requires CommitRows(s, claim, r, now).Done?
    ensures AttemptsOk(CommitRows(s, claim, r, now).store, claim.id)
  {
    FenceFindsRun(s, claim, now);
    var t, id := CommitRows(s, claim, r, now).store, claim.id;
    assert PartitionOk(s, id);
    forall q ensures AttemptOk(t, id, q) {
      assert AttemptOk(s, id, q) && EpochsDistinct(s, id, q, claim.run);
      assert CheckpointOk(s, id, s.partitions[id].pageSequence);
    }
    forall p, q ensures EpochsDistinct(t, id, p, q) {
      assert EpochsDistinct(s, id, p, q);
    }
    assert AttemptsOf(t, id) == AttemptsOf(s, id);
    assert SucceededOf(t, id) == SucceededOf(s, id) + {claim.run};
  }

  lemma CommitKeepsInv(s: Store, claim: Claim, r: PageResult, now: Instant)
    requires Inv(s) && CommitPage(s, claim, r, now).Done?
    ensures Inv(CommitPage(s, claim, r, now).store)
  {
    var target := ReadTarget(s.catalog, claim.target.id).value;
    AcquireItemsFrame(s, claim, target, r.items, now);
    var s1 := AcquireItems(s, claim, target, r.items, now).store;
    OutboxStepKeepsInv(s, s1);
    CommitRowsKeepsInv(s1, claim, r, now);
  }

  lemma FailTouches(s: Store, claim: Claim, reason: string, retryAt: Option<Instant>, now: Instant)
    requires Inv(s) && FailPage(s, claim, reason, retryAt, now).Done?
    ensures var t := FailPage(s, claim, reason, retryAt, now).store; OnlyTouches(s, t, claim.id) && ReferencesOk(t)
  {
    FenceFindsRun(s, claim, now);
    var t := FailPage(s, claim, reason, retryAt, now).store;
    forall q | q != claim.id ensures SameAttempts(s, t, q) {
      assert AttemptsOf(t, q) == AttemptsOf(s, q);
    }
  }

  lemma FailKeepsInv(s: Store, claim: Claim, reason: string, retryAt: Option<Instant>, now: Instant)
    requires Inv(s) && FailPage(s, claim, reason, retryAt, now).Done?
    ensures Inv(FailPage(s, claim, reason, retryAt, now).store)
  {
    FailPartition(s, claim, reason, retryAt, now);
    FailTouches(s, claim, reason, retryAt, now);
    StepOnOneKeepsInv(s, FailPage(s, claim, reason, retryAt, now).store, claim.id);
  }

  lemma FailPartition(s: Store, claim: Claim, reason: string, retryAt: Option<Instant>, now: Instant)
    requires Inv(s) && FailPage(s, claim, reason, retryAt, now).Done?
    ensures PartitionOk(FailPage(s, claim, reason, retryAt, now).store, claim.id)
  {
    FenceFindsRun(s, claim, now);
    var t, id := FailPage(s, claim, reason, retryAt, now).store, claim.id;
    assert PartitionOk(s, id);
    forall n: nat ensures PageOk(t, id, n) {
      assert PageOk(s, id, n);
    }
    CheckpointsKept(s, t, id);
    AttemptsKept(s, t, id);
  }

  lemma ResumeTouches(s: Store, id: PartitionId, now: Instant)
    requires Inv(s) && ResumePartition(s, id, now).Done?
    ensures var t := ResumePartition(s, id, now).store; OnlyTouches(s, t, id) && ReferencesOk(t)
  {
    var t := ResumePartition(s, id, now).store;
    assert t == s.(partitions := t.partitions, outbox := t.outbox);
    OnlyPagesOf(s, t, id);
  }

  lemma ResumeKeepsInv(s: Store, id: PartitionId, now: Instant)
    requires Inv(s) && ResumePartition(s, id, now).Done?
    ensures Inv(ResumePartition(s, id, now).store)
  {
    ResumePartitionOk(s, id, now);
    ResumeTouches(s, id, now);
    StepOnOneKeepsInv(s, ResumePartition(s, id, now).store, id);
  }

  lemma ResumePartitionOk(s: Store, id: PartitionId, now: Instant)
    requires Inv(s) && ResumePartition(s, id, now).Done?
    ensures PartitionOk(ResumePartition(s, id, now).store, id)
  {
    var t := ResumePartition(s, id, now).store;
    assert PartitionOk(s, id);
    forall n: nat ensures PageOk(t, id, n) {
      assert PageOk(s, id, n);
    }
    CheckpointsKept(s, t, id);
    AttemptsKept(s, t, id);
  }

  lemma {:induction false} LeaseAllFrame(outbox: Outbox, picked: seq<DeliveryKey>, now: Instant, leaseMs: int)
    ensures var after := LeaseAll(outbox, picked, now, leaseMs);
            && after.Keys == outbox.Keys
            && forall k :: k in outbox ==>
                 after[k] == outbox[k].(leaseEpoch := after[k].leaseEpoch, leaseUntil := after[k].leaseUntil)
    decreases |picked|
  {
    if picked != [] {
      LeaseAllFrame(if picked[0] in outbox then outbox[picked[0] := Lease(outbox[picked[0]], now, leaseMs)] else outbox,
                    picked[1..], now, leaseMs);
    }
  }

  lemma LeaseBatchKeepsInv(
      s: Store, picked: seq<DeliveryKey>, now: Instant, limit: int, leaseMs: int, mode: Option<Mode>)
    requires Inv(s) && LeaseBatch(s, picked, now, limit, leaseMs, mode).Done?
    ensures Inv(LeaseBatch(s, picked, now, limit, leaseMs, mode).store)
  {
    LeaseAllFrame(s.outbox, picked, now, leaseMs);
    OutboxStepKeepsInv(s, LeaseBatch(s, picked, now, limit, leaseMs, mode).store);
  }

  lemma MarkSentKeepsInv(s: Store, key: DeliveryKey, leaseEpoch: nat, now: Instant)
    requires Inv(s) && MarkSent(s, key, leaseEpoch, now).Done?
    ensures Inv(MarkSent(s, key, leaseEpoch, now).store)
  {
    OutboxStepKeepsInv(s, MarkSent(s, key, leaseEpoch, now).store);
  }

  /** An open page has no checkpoint yet, so completing a delivery never closes a page of work. */
  lemma CompleteKeepsInv(s: Store, key: DeliveryKey, now: Instant, evidence: bool)
    requires Inv(s) && CompleteDelivery(s, key, now, evidence).Done?
    ensures Inv(CompleteDelivery(s, key, now, evidence).store)
    ensures key.CollectionPage? ==> CompleteDelivery(s, key, now, evidence).store == s
  {
    if key.CollectionPage? {
      assert PartitionOk(s, key.partition) && PageOk(s, key.partition, key.pageSequence);
      assert CheckpointOk(s, key.partition, key.pageSequence);
    } else {
      OutboxStepKeepsInv(s, CompleteDelivery(s, key, now, evidence).store);
    }
  }

  lemma {:induction false} InsertEmbeddingsFrame(
      outbox: Outbox, revision: RevisionId, members: seq<PartitionId>, now: Instant)
    ensures var after := InsertEmbeddings(outbox, revision, members, now);
            && (forall k :: k in outbox ==> k in after && after[k] == outbox[k])
            && (forall k :: k in after && !k.Embedding? ==> k in outbox)
    decreases |members|
  {
    if members != [] {
      InsertEmbeddingsFrame(Insert(outbox, Embedding(revision), NewDelivery(members[0], 0, now)),
                            revision, members[1..], now);
    }
  }

  lemma AttachKeepsInv(s: Store, raw: RawId, revision: RevisionId, members: seq<PartitionId>, now: Instant)
    requires Inv(s) && AttachRevision(s, raw, revision, members, now).Done?
    ensures Inv(AttachRevision(s, raw, revision, members, now).store)
  {
    InsertEmbeddingsFrame(s.outbox, revision, members, now);
    OutboxStepKeepsInv(s, AttachRevision(s, raw, revision, members, now).store);
  }

  lemma {:induction false} ReplanFrame(s: Store, members: seq<(PartitionId, RawId)>, requestedAt: Instant)
    requires ReplanRows(s, members, requestedAt).Done?
    ensures var t := ReplanRows(s, members, requestedAt).store;
            && t == s.(outbox := t.outbox)
            && (forall k :: k in s.outbox ==> k in t.outbox)
            && (forall k :: k in t.outbox && !k.Normalization? ==> k in s.outbox && t.outbox[k] == s.outbox[k])
    decreases |members|
  {
    if members != [] {
      ReplanFrame(ReplanRow(s, members[0], requestedAt).store, members[1..], requestedAt);
    }
  }

  lemma ReplanKeepsInv(s: Store, scope: ReplayScope, members: seq<(PartitionId, RawId)>, requestedAt: Instant)
    requires Inv(s) && Replan(s, scope, members, requestedAt).Done?
    ensures Inv(Replan(s, scope, members, requestedAt).store)
  {
    ReplanFrame(s, members, requestedAt);
    OutboxStepKeepsInv(s, ReplanRows(s, members, requestedAt).store);
  }
}
