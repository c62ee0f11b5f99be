/**
  Whole runs: any number of workers and dispatchers, in any interleaving, with any clock readings, and
  with every claim ever issued (or made up) available to every worker.
*/
module CollectionHistory {
  import opened Common
  import opened CollectionState
  import opened CollectionInvariants

  datatype Action =
    | Administer(catalog: Catalog)                        // register, enable or disable targets and sources
    | AddRevision(raw: RawId, revision: RevisionId)       // normalization stores a document revision
    | Plan(id: PartitionId, now: Instant)
    | ClaimNext(id: PartitionId, pageSequence: nat, now: Instant, leaseMs: int, run: RunId)
    | Renew(claim: Claim, now: Instant, leaseMs: int)
    | Commit(claim: Claim, result: PageResult, now: Instant)
    | Fail(claim: Claim, reason: string, retryAt: Option<Instant>, now: Instant)
    | Resume(id: PartitionId, now: Instant)
    | LeaseDue(picked: seq<DeliveryKey>, now: Instant, limit: int, leaseMs: int, mode: Option<Mode>)
    | Sent(key: DeliveryKey, leaseEpoch: nat, now: Instant)
    | CompleteWork(key: DeliveryKey, now: Instant, evidence: bool)
    | Attach(raw: RawId, revision: RevisionId, members: seq<PartitionId>, now: Instant)
    | Replay(scope: ReplayScope, rows: seq<(PartitionId, RawId)>, requestedAt: Instant)

  function Step(s: Store, a: Action): Store {
    match a
    case Administer(catalog) => s.(catalog := catalog)
    case AddRevision(raw, revision) => s.(revisions := s.revisions + [(raw, revision)])
    case Plan(id, now) => After(s, PlanPartition(s, id, now))
    case ClaimNext(id, n, now, leaseMs, run) => After(s, ClaimPage(s, id, n, now, leaseMs, run))
    case Renew(claim, now, leaseMs) => After(s, RenewPage(s, claim, now, leaseMs))
    case Commit(claim, result, now) => After(s, CommitPage(s, claim, result, now))
    case Fail(claim, reason, retryAt, now) => After(s, FailPage(s, claim, reason, retryAt, now))
    case Resume(id, now) => After(s, ResumePartition(s, id, now))
    case LeaseDue(picked, now, limit, leaseMs, mode) => After(s, LeaseBatch(s, picked, now, limit, leaseMs, mode))
    case Sent(key, epoch, now) => After(s, MarkSent(s, key, epoch, now))
    case CompleteWork(key, now, evidence) => After(s, CompleteDelivery(s, key, now, evidence))
    case Attach(raw, revision, members, now) => After(s, AttachRevision(s, raw, revision, members, now))
    case Replay(scope, rows, requestedAt) => After(s, Replan(s, scope, rows, requestedAt))
  }

  function Exec(s: Store, trace: seq<Action>): Store
    decreases |trace|
  {
    if trace == [] then s else Exec(Step(s, trace[0]), trace[1..])
  }

  predicate OnPage(a: Action) {
    a.Plan? || a.ClaimNext? || a.Renew? || a.Commit? || a.Fail? || a.Resume?
  }

  lemma PageStepKeepsInv(s: Store, a: Action, t: Store)
    requires Inv(s) && OnPage(a) && t == Step(s, a)
    ensures Inv(t)
  {
    match a
    case Plan(id, now) => if PlanPartition(s, id, now).Done? { PlanKeepsInv(s, id, now); }
    case ClaimNext(id, n, now, leaseMs, run) =>
      if ClaimPage(s, id, n, now, leaseMs, run).Done? { ClaimKeepsInv(s, id, n, now, leaseMs, run); }
    case Renew(claim, now, leaseMs) =>
      if RenewPage(s, claim, now, leaseMs).Done? { RenewKeepsInv(s, claim, now, leaseMs); }
    case Commit(claim, result, now) =>
      if CommitPage(s, claim, result, now).Done? { CommitKeepsInv(s, claim, result, now); }
    case Fail(claim, reason, retryAt, now) =>
      if FailPage(s, claim, reason, retryAt, now).Done? { FailKeepsInv(s, claim, reason, retryAt, now); }
    case Resume(id, now) => if ResumePartition(s, id, now).Done? { ResumeKeepsInv(s, id, now); }
    case _ => assert false;
  }

  lemma OtherStepKeepsInv(s: Store, a: Action, t: Store)
    requires Inv(s) && !OnPage(a) && t == Step(s, a)
    ensures Inv(t)
  {
    match a
    case Administer(_) => OutboxStepKeepsInv(s, t);
    case AddRevision(_, _) => OutboxStepKeepsInv(s, t);
    case LeaseDue(picked, now, limit, leaseMs, mode) =>
      if LeaseBatch(s, picked, now, limit, leaseMs, mode).Done? {
        LeaseBatchKeepsInv(s, picked, now, limit, leaseMs, mode);
      }
    case Sent(key, epoch, now) => if MarkSent(s, key, epoch, now).Done? { MarkSentKeepsInv(s, key, epoch, now); }
    case CompleteWork(key, now, evidence) =>
      if CompleteDelivery(s, key, now, evidence).Done? { CompleteKeepsInv(s, key, now, evidence); }
    case Attach(raw, revision, members, now) =>
      if AttachRevision(s, raw, revision, members, now).Done? { AttachKeepsInv(s, raw, revision, members, now); }
    case Replay(scope, rows, requestedAt) =>
      if Replan(s, scope, rows, requestedAt).Done? { ReplanKeepsInv(s, scope, rows, requestedAt); }
    case _ => assert false;
  }

  lemma StepKeepsInv(s: Store, a: Action)
    requires Inv(s)
    ensures Inv(Step(s, a))
  {
    var t := Step(s, a);
    if OnPage(a) { PageStepKeepsInv(s, a, t); } else { OtherStepKeepsInv(s, a, t); }
  }

  lemma {:induction false} ExecKeepsInv(s: Store, trace: seq<Action>)
    requires Inv(s)
    ensures Inv(Exec(s, trace))
    decreases |trace|
  {
    if trace != [] {
      StepKeepsInv(s, trace[0]);
      ExecKeepsInv(Step(s, trace[0]), trace[1..]);
    }
  }

  ghost predicate Reachable(s: Store) {
    exists trace :: s == Exec(EMPTY, trace)
  }

  lemma ReachableInv(s: Store)
    requires Reachable(s)
    ensures Inv(s)
  {
    var trace :| s == Exec(EMPTY, trace);
    EmptyInv();
    ExecKeepsInv(EMPTY, trace);
  }

  lemma {:induction false} ExecJoin(s: Store, a: seq<Action>, b: seq<Action>)
    ensures Exec(s, a + b) == Exec(Exec(s, a), b)
    decreases |a|
  {
    if a == [] {
      assert a + b == b;
    } else {
      ConsSplit(a, b);
      ExecJoin(Step(s, a[0]), a[1..], b);
    }
  }

  lemma ExecOne(s: Store, a: Action)
    ensures Exec(s, [a]) == Step(s, a)
  {
    assert [a][1..] == [];
  }

  lemma ExecThen(s: Store, trace: seq<Action>, a: Action)
    ensures Exec(s, trace + [a]) == Step(Exec(s, trace), a)
  {
    ExecJoin(s, trace, [a]);
    ExecOne(Exec(s, trace), a);
  }

  /** What can be reached can be gone on from. */
  lemma ExecReachable(s: Store, trace: seq<Action>)
    ensures Reachable(s) ==> Reachable(Exec(s, trace))
  {
    if Reachable(s) {
      var before :| s == Exec(EMPTY, before);
      ExecJoin(EMPTY, before, trace);
      assert Exec(s, trace) == Exec(EMPTY, before + trace);
    }
  }

  lemma StepReachable(s: Store, a: Action)
    ensures Reachable(s) ==> Reachable(Step(s, a))
  {
    ExecOne(s, a);
    ExecReachable(s, [a]);
  }

  // ---------- Each repository operation, as a step ----------

  lemma PlanReachable(s: Store, t: Store, id: PartitionId, now: Instant)
    requires t == After(s, PlanPartition(s, id, now))
    ensures Reachable(s) ==> Reachable(t)
  {
    StepReachable(s, Plan(id, now));
  }

  lemma ClaimReachable(s: Store, t: Store, id: PartitionId, n: nat, now: Instant, leaseMs: int, run: RunId)
    requires t == After(s, ClaimPage(s, id, n, now, leaseMs, run))
    ensures Reachable(s) ==> Reachable(t)
  {
    StepReachable(s, ClaimNext(id, n, now, leaseMs, run));
  }

  lemma RenewReachable(s: Store, t: Store, claim: Claim, now: Instant, leaseMs: int)
    requires t == After(s, RenewPage(s, claim, now, leaseMs))
    ensures Reachable(s) ==> Reachable(t)
  {
    StepReachable(s, Renew(claim, now, leaseMs));
  }

  lemma CommitReachable(s: Store, t: Store, claim: Claim, r: PageResult, now: Instant)
    requires t == After(s, CommitPage(s, claim, r, now))
    ensures Reachable(s) ==> Reachable(t)
  {
    StepReachable(s, Commit(claim, r, now));
  }

  lemma FailReachable(s: Store, t: Store, claim: Claim, reason: string, retryAt: Option<Instant>, now: Instant)
    requires t == After(s, FailPage(s, claim, reason, retryAt, now))
    ensures Reachable(s) ==> Reachable(t)
  {
    StepReachable(s, Fail(claim, reason, retryAt, now));
  }

  lemma ResumeReachable(s: Store, t: Store, id: PartitionId, now: Instant)
    requires t == After(s, ResumePartition(s, id, now))
    ensures Reachable(s) ==> Reachable(t)
  {
    StepReachable(s, Resume(id, now));
  }

  lemma LeaseReachable(
      s: Store, t: Store, picked: seq<DeliveryKey>, now: Instant, limit: int, leaseMs: int, mode: Option<Mode>)
    requires t == After(s, LeaseBatch(s, picked, now, limit, leaseMs, mode))
    ensures Reachable(s) ==> Reachable(t)
  {
    StepReachable(s, LeaseDue(picked, now, limit, leaseMs, mode));
  }

  lemma MarkReachable(s: Store, t: Store, key: DeliveryKey, leaseEpoch: nat, now: Instant)
    requires t == After(s, MarkSent(s, key, leaseEpoch, now))
    ensures Reachable(s) ==> Reachable(t)
  {
    StepReachable(s, Sent(key, leaseEpoch, now));
  }

  lemma CompleteReachable(s: Store, t: Store, key: DeliveryKey, now: Instant, evidence: bool)
    requires t == After(s, CompleteDelivery(s, key, now, evidence))
    ensures Reachable(s) ==> Reachable(t)
  {
    StepReachable(s, CompleteWork(key, now, evidence));
  }

  lemma AttachReachable(s: Store, t: Store, raw: RawId, revision: RevisionId, members: seq<PartitionId>, now: Instant)
    requires t == After(s, AttachRevision(s, raw, revision, members, now))
    ensures Reachable(s) ==> Reachable(t)
  {
    StepReachable(s, Attach(raw, revision, members, now));
  }

  lemma ReplanReachable(s: Store, t: Store, scope: ReplayScope, rows: seq<(PartitionId, RawId)>, at: Instant)
    requires t == After(s, Replan(s, scope, rows, at))
    ensures Reachable(s) ==> Reachable(t)
  {
    StepReachable(s, Replay(scope, rows, at));
  }

  // ---------- No page of work is lost or doubled ----------

  ghost function OpenPages(s: Store, id: PartitionId): set<DeliveryKey> {
    set k | k in s.outbox && k.CollectionPage? && s.outbox[k].partition == id && s.outbox[k].completedAt.None?
  }

  lemma OneOpenPage(s: Store, id: PartitionId)
    requires Reachable(s) && id in s.partitions
    ensures var row := s.partitions[id];
            OpenPages(s, id) ==
            if row.state in {Pending, Running, Deferred} then {CollectionPage(id, row.pageSequence)} else {}
  {
    ReachableInv(s);
    var row := s.partitions[id];
    assert PartitionOk(s, id) && PageOk(s, id, row.pageSequence);
    forall k | k in OpenPages(s, id) ensures Live(row.state) && k == CollectionPage(id, row.pageSequence) {
      assert PartitionOk(s, k.partition) && PageOk(s, k.partition, k.pageSequence);
    }
  }

  // ---------- Checkpoints, attempts and runs ----------

  lemma CheckpointChain(s: Store, id: PartitionId)
    requires Reachable(s) && id in s.partitions
    ensures var row := s.partitions[id];
      && (forall n: nat :: (id, n) in s.checkpoints <==> n < row.pageSequence)
      && (forall m: nat, n: nat :: m < n < row.pageSequence ==>
            s.checkpoints[(id, m)].leaseEpoch < s.checkpoints[(id, n)].leaseEpoch)
      && (row.pageSequence > 0 ==> s.checkpoints[(id, 0)].cursorBefore == None)
      && (forall n: nat :: n + 1 < row.pageSequence ==>
            s.checkpoints[(id, n)].cursorAfter == s.checkpoints[(id, n + 1)].cursorBefore)
      && row.cursor == if row.pageSequence == 0 then None else s.checkpoints[(id, row.pageSequence - 1)].cursorAfter
  {
    ReachableInv(s);
    assert PartitionOk(s, id);
    forall n: nat ensures (id, n) in s.checkpoints <==> n < s.partitions[id].pageSequence {
      assert CheckpointOk(s, id, n);
    }
    forall m: nat, n: nat | m < n < s.partitions[id].pageSequence
      ensures s.checkpoints[(id, m)].leaseEpoch < s.checkpoints[(id, n)].leaseEpoch
    {
      assert EpochsIncrease(s, id, m, n);
    }
    forall n: nat | n + 1 < s.partitions[id].pageSequence
      ensures s.checkpoints[(id, n)].cursorAfter == s.checkpoints[(id, n + 1)].cursorBefore
    {
      assert CheckpointOk(s, id, n + 1);
    }
    assert CheckpointOk(s, id, 0);
  }

  lemma AttemptsAndRuns(s: Store, id: PartitionId)
    requires Reachable(s) && id in s.partitions
    ensures var row := s.partitions[id];
      && row.attempts == row.leaseEpoch == |AttemptsOf(s, id)|
      && AttemptsOf(s, id) <= s.runs.Keys
      && |SucceededOf(s, id)| == row.pageSequence
      && (forall r :: r in AttemptsOf(s, id) && s.runs[r].status == RunRunning ==> row.run == Some(r))
      && (forall q, r :: q in AttemptsOf(s, id) && r in AttemptsOf(s, id) && q != r ==>
            s.attempts[q].leaseEpoch != s.attempts[r].leaseEpoch)
      && (forall r :: r in AttemptsOf(s, id) ==>
            (s.runs[r].status == RunSucceeded <==>
               var page := (id, s.attempts[r].pageSequence);
               page in s.checkpoints && s.checkpoints[page].leaseEpoch == s.attempts[r].leaseEpoch))
  {
    ReachableInv(s);
    assert PartitionOk(s, id);
    forall r | r in AttemptsOf(s, id) ensures r in s.runs && AttemptOk(s, id, r) {}
    forall q, r | q in AttemptsOf(s, id) && r in AttemptsOf(s, id) && q != r
      ensures s.attempts[q].leaseEpoch != s.attempts[r].leaseEpoch
    {
      assert EpochsDistinct(s, id, q, r);
    }
  }

  // ---------- Fencing ----------

  /** Epochs and pages only go up, and an epoch that stopped running never runs again. */
  ghost predicate RowAdvances(p: Partition, q: Partition) {
    && q.leaseEpoch >= p.leaseEpoch && q.pageSequence >= p.pageSequence
    && (q.leaseEpoch == p.leaseEpoch && p.state != Running ==> q.state != Running)
    && (q.leaseEpoch == p.leaseEpoch && q.state == Running ==> q.run == p.run && q.pageSequence == p.pageSequence)
  }

  ghost predicate Advances(s: Store, t: Store, id: PartitionId)
    requires id in s.partitions
  {
    id in t.partitions && RowAdvances(s.partitions[id], t.partitions[id])
  }

  lemma CommitAdvances(s: Store, claim: Claim, r: PageResult, now: Instant, id: PartitionId)
    requires id in s.partitions && CommitPage(s, claim, r, now).Done?
    ensures Advances(s, CommitPage(s, claim, r, now).store, id)
  {
    AcquireItemsFrame(s, claim, ReadTarget(s.catalog, claim.target.id).value, r.items, now);
  }

  lemma ClaimAdvances(s: Store, p: PartitionId, n: nat, now: Instant, leaseMs: int, run: RunId, id: PartitionId)
    requires id in s.partitions
    ensures Advances(s, After(s, ClaimPage(s, p, n, now, leaseMs, run)), id)
  {}

  lemma PlanAdvances(s: Store, p: PartitionId, now: Instant, id: PartitionId)
    requires id in s.partitions
    ensures Advances(s, After(s, PlanPartition(s, p, now)), id)
  {}

  lemma RenewAdvances(s: Store, claim: Claim, now: Instant, leaseMs: int, id: PartitionId)
    requires id in s.partitions
    ensures Advances(s, After(s, RenewPage(s, claim, now, leaseMs)), id)
  {}

  lemma FailAdvances(s: Store, claim: Claim, reason: string, retryAt: Option<Instant>, now: Instant, id: PartitionId)
    requires id in s.partitions
    ensures Advances(s, After(s, FailPage(s, claim, reason, retryAt, now)), id)
  {}

  lemma ResumeAdvances(s: Store, p: PartitionId, now: Instant, id: PartitionId)
    requires id in s.partitions
    ensures Advances(s, After(s, ResumePartition(s, p, now)), id)
  {}

  lemma ReplanKeepsPages(s: Store, scope: ReplayScope, rows: seq<(PartitionId, RawId)>, at: Instant)
    ensures var t := After(s, Replan(s, scope, rows, at));
            t.partitions == s.partitions && t.checkpoints == s.checkpoints
  {
    if Replan(s, scope, rows, at).Done? { ReplanFrame(s, rows, at); }
  }

  lemma LeaseKeepsPages(s: Store, picked: seq<DeliveryKey>, now: Instant, limit: int, leaseMs: int, mode: Option<Mode>)
    ensures var t := After(s, LeaseBatch(s, picked, now, limit, leaseMs, mode));
            t.partitions == s.partitions && t.checkpoints == s.checkpoints
  {}

  /** Neither the outbox's steps nor the administrator's touch partitions, runs, attempts or checkpoints. */
  lemma OtherStepKeepsPages(s: Store, a: Action)
    requires !OnPage(a)
    ensures Step(s, a).partitions == s.partitions && Step(s, a).checkpoints == s.checkpoints
  {
    match a
    case Replay(scope, rows, at) => ReplanKeepsPages(s, scope, rows, at);
    case LeaseDue(picked, now, limit, leaseMs, mode) => LeaseKeepsPages(s, picked, now, limit, leaseMs, mode);
    case _ =>
  }

  lemma PageStepAdvances(s: Store, a: Action, id: PartitionId, t: Store)
    requires id in s.partitions && OnPage(a) && t == Step(s, a)
    ensures Advances(s, t, id)
  {
    match a
    case Plan(p, now) => PlanAdvances(s, p, now, id);
    case ClaimNext(p, n, now, leaseMs, run) => ClaimAdvances(s, p, n, now, leaseMs, run, id);
    case Renew(claim, now, leaseMs) => RenewAdvances(s, claim, now, leaseMs, id);
    case Commit(claim, result, now) =>
      if CommitPage(s, claim, result, now).Done? { CommitAdvances(s, claim, result, now, id); }
    case Fail(claim, reason, retryAt, now) => FailAdvances(s, claim, reason, retryAt, now, id);
    case Resume(p, now) => ResumeAdvances(s, p, now, id);
    case _ => assert false;
  }

  lemma StepAdvances(s: Store, a: Action, id: PartitionId)
    requires id in s.partitions
    ensures id in Step(s, a).partitions && RowAdvances(s.partitions[id], Step(s, a).partitions[id])
  {
    if OnPage(a) { PageStepAdvances(s, a, id, Step(s, a)); } else { OtherStepKeepsPages(s, a); }
  }

  lemma {:induction false} ExecAdvances(s: Store, trace: seq<Action>, id: PartitionId)
    requires id in s.partitions
    ensures id in Exec(s, trace).partitions && RowAdvances(s.partitions[id], Exec(s, trace).partitions[id])
    decreases |trace|
  {
    if trace != [] {
      StepAdvances(s, trace[0], id);
      ExecAdvances(Step(s, trace[0]), trace[1..], id);
    }
  }

  /** A successful claim, commit, fail or resume of the partition. */
  predicate Moves(s: Store, a: Action, id: PartitionId) {
    match a
    case ClaimNext(p, n, now, leaseMs, run) =>
      var o := ClaimPage(s, p, n, now, leaseMs, run);
      p == id && o.Done? && o.value.Some?
    case Commit(claim, result, now) => claim.id == id && CommitPage(s, claim, result, now).Done?
    case Fail(claim, reason, retryAt, now) => claim.id == id && FailPage(s, claim, reason, retryAt, now).Done?
    case Resume(p, now) => p == id && ResumePartition(s, p, now).Done?
    case _ => false
  }

  /** Whether the partition still runs under the epoch of the claim. */
  ghost predicate Current(s: Store, claim: Claim) {
    && claim.id in s.partitions
    && s.partitions[claim.id].state == Running
    && s.partitions[claim.id].leaseEpoch == claim.row.leaseEpoch
  }

  lemma MoveEndsClaim(s: Store, a: Action, claim: Claim)
    requires claim.id in s.partitions && claim.row.leaseEpoch <= s.partitions[claim.id].leaseEpoch
    requires Moves(s, a, claim.id)
    ensures !Current(Step(s, a), claim)
  {
    match a
    case Commit(c, result, now) =>
      AcquireItemsFrame(s, c, ReadTarget(s.catalog, c.target.id).value, result.items, now);
    case _ =>
  }

  lemma ExecSplit(s: Store, trace: seq<Action>, i: nat)
    requires i <= |trace|
    ensures Exec(s, trace) == Exec(Exec(s, trace[..i]), trace[i..])
  {
    assert trace == trace[..i] + trace[i..];
    ExecJoin(s, trace[..i], trace[i..]);
  }

  /**
    Only the most recent claim of a partition passes the fence. If a claim issued at some point still
    passes later, then nobody's claim, commit, fail or resume of the partition succeeded in between:
    whatever the clocks said, since `now` is free at every step.
  */
  lemma OnlyNewestClaimPasses(
      s: Store, id: PartitionId, n: nat, claimedAt: Instant, leaseMs: int, run: RunId, trace: seq<Action>,
      now: Instant, i: nat)
    requires ClaimPage(s, id, n, claimedAt, leaseMs, run).Done?
    requires ClaimPage(s, id, n, claimedAt, leaseMs, run).value.Some?
    requires var o := ClaimPage(s, id, n, claimedAt, leaseMs, run); Fence(Exec(o.store, trace), o.value.value, now)
    requires i < |trace|
    ensures !Moves(Exec(ClaimPage(s, id, n, claimedAt, leaseMs, run).store, trace[..i]), trace[i], id)
  {
    var o := ClaimPage(s, id, n, claimedAt, leaseMs, run);
    var claim := o.value.value;
    var s1 := Exec(o.store, trace[..i]);
    ExecAdvances(o.store, trace[..i], id);
    ExecSplit(o.store, trace, i);
    assert trace[i..][0] == trace[i] && trace[i..][1..] == trace[i + 1..];
    if Moves(s1, trace[i], id) {
      MoveEndsClaim(s1, trace[i], claim);
      StepAdvances(s1, trace[i], id);
      ExecAdvances(Step(s1, trace[i]), trace[i + 1..], id);
    }
  }

  /** Once a claim has committed or failed its page, or been superseded, it never passes the fence again. */
  lemma SpentClaimStaysSpent(s: Store, claim: Claim, a: Action, trace: seq<Action>, now: Instant)
    requires claim.id in s.partitions && claim.row.leaseEpoch <= s.partitions[claim.id].leaseEpoch
    requires Moves(s, a, claim.id)
    ensures !Fence(Exec(Step(s, a), trace), claim, now)
  {
    MoveEndsClaim(s, a, claim);
    StepAdvances(s, a, claim.id);
    ExecAdvances(Step(s, a), trace, claim.id);
  }

  /** Whatever claim passes the fence, it names the attempt with the partition's highest epoch. */
  lemma FenceNamesLastAttempt(s: Store, claim: Claim, now: Instant)
    requires Reachable(s) && Fence(s, claim, now)
    ensures claim.run in s.attempts && s.attempts[claim.run].partition == claim.id
    ensures s.attempts[claim.run].leaseEpoch == claim.row.leaseEpoch
    ensures forall r :: r in s.attempts && s.attempts[r].partition == claim.id && r != claim.run ==>
              s.attempts[r].leaseEpoch < claim.row.leaseEpoch
  {
    ReachableInv(s);
    FenceFindsRun(s, claim, now);
    assert PartitionOk(s, claim.id);
    forall r | r in s.attempts && s.attempts[r].partition == claim.id && r != claim.run
      ensures s.attempts[r].leaseEpoch < claim.row.leaseEpoch
    {
      assert AttemptOk(s, claim.id, r) && EpochsDistinct(s, claim.id, r, claim.run);
    }
  }

  // ---------- Each page is committed at most once ----------

  /** The pages whose commits succeed along the trace, in order. */
  function Commits(s: Store, trace: seq<Action>): seq<(PartitionId, nat)>
    decreases |trace|
  {
    if trace == [] then [] else
    var a := trace[0];
    var rest := Commits(Step(s, a), trace[1..]);
    if CommitsPage(s, a)
    then [(a.claim.id, s.partitions[a.claim.id].pageSequence)] + rest
    else rest
  }

  predicate CommitsPage(s: Store, a: Action) {
    a.Commit? && a.claim.id in s.partitions && CommitPage(s, a.claim, a.result, a.now).Done?
  }

  lemma CommitCheckpoints(s: Store, a: Action)
    requires a.Commit?
    ensures CommitsPage(s, a) ==>
              var page := (a.claim.id, s.partitions[a.claim.id].pageSequence);
              page !in s.checkpoints && Step(s, a).checkpoints.Keys == s.checkpoints.Keys + {page}
    ensures !CommitsPage(s, a) ==> Step(s, a).checkpoints == s.checkpoints
  {
    if CommitPage(s, a.claim, a.result, a.now).Done? {
      AcquireItemsFrame(s, a.claim, ReadTarget(s.catalog, a.claim.target.id).value, a.result.items, a.now);
    }
  }

  lemma PageStepCheckpoints(s: Store, a: Action)
    requires OnPage(a) && !a.Commit?
    ensures Step(s, a).checkpoints == s.checkpoints
  {}

  lemma StepCheckpoints(s: Store, a: Action)
    ensures CommitsPage(s, a) ==>
              var page := (a.claim.id, s.partitions[a.claim.id].pageSequence);
              page !in s.checkpoints && Step(s, a).checkpoints.Keys == s.checkpoints.Keys + {page}
    ensures !CommitsPage(s, a) ==> Step(s, a).checkpoints == s.checkpoints
  {
    if a.Commit? {
      CommitCheckpoints(s, a);
    } else if OnPage(a) {
      PageStepCheckpoints(s, a);
    } else {
      OtherStepKeepsPages(s, a);
    }
  }

  /** No page is committed twice, and the checkpoints are exactly the pages committed. */
  lemma {:induction false} PagesCommittedOnce(s: Store, trace: seq<Action>)
    ensures Distinct(Commits(s, trace))
    ensures forall page :: page in Commits(s, trace) ==> page !in s.checkpoints
    ensures forall page :: page in Exec(s, trace).checkpoints <==> page in s.checkpoints || page in Commits(s, trace)
    decreases |trace|
  {
    if trace != [] {
      StepCheckpoints(s, trace[0]);
      PagesCommittedOnce(Step(s, trace[0]), trace[1..]);
    }
  }

  // ---------- Delivery epochs ----------

  /** A delivery row stays, its epoch only goes up, and a lease at an unchanged epoch is the old one or gone. */
  ghost predicate DeliveryAdvances(p: Delivery, q: Delivery) {
    && q.leaseEpoch >= p.leaseEpoch
    && (q.leaseEpoch == p.leaseEpoch && q.leaseUntil.Some? ==> q.leaseUntil == p.leaseUntil)
  }

  lemma {:induction false} LeaseAllEpochs(outbox: Outbox, picked: seq<DeliveryKey>, now: Instant, leaseMs: int)
    requires Distinct(picked) && forall k :: k in picked ==> k in outbox
    ensures LeaseAll(outbox, picked, now, leaseMs).Keys == outbox.Keys
    ensures forall k :: k in outbox ==>
              LeaseAll(outbox, picked, now, leaseMs)[k] ==
              if k in picked then Lease(outbox[k], now, leaseMs) else outbox[k]
    decreases |picked|
  {
    if picked != [] {
      var next := outbox[picked[0] := Lease(outbox[picked[0]], now, leaseMs)];
      assert picked[0] !in picked[1..];
      LeaseAllEpochs(next, picked[1..], now, leaseMs);
      forall k | k in picked ensures k == picked[0] || k in picked[1..] {}
    }
  }

  lemma {:induction false} ReplanEpochs(
      s: Store, members: seq<(PartitionId, RawId)>, requestedAt: Instant, key: DeliveryKey)
    requires ReplanRows(s, members, requestedAt).Done? && key in s.outbox
    ensures var t := ReplanRows(s, members, requestedAt).store;
            key in t.outbox && DeliveryAdvances(s.outbox[key], t.outbox[key])
    decreases |members|
  {
    if members != [] {
      ReplanEpochs(ReplanRow(s, members[0], requestedAt).store, members[1..], requestedAt, key);
    }
  }

  lemma CommitRowsDelivery(s: Store, claim: Claim, r: PageResult, now: Instant, key: DeliveryKey)
    requires claim.id in s.partitions && claim.run in s.runs && CommitRows(s, claim, r, now).Done? && key in s.outbox
    ensures var t := CommitRows(s, claim, r, now).store;
            key in t.outbox && DeliveryAdvances(s.outbox[key], t.outbox[key])
  {}

  lemma CommitDelivery(s: Store, claim: Claim, r: PageResult, now: Instant, key: DeliveryKey)
    requires CommitPage(s, claim, r, now).Done? && key in s.outbox
    ensures var t := CommitPage(s, claim, r, now).store;
            key in t.outbox && DeliveryAdvances(s.outbox[key], t.outbox[key])
  {
    var target := ReadTarget(s.catalog, claim.target.id).value;
    AcquireItemsFrame(s, claim, target, r.items, now);
    CommitRowsDelivery(AcquireItems(s, claim, target, r.items, now).store, claim, r, now, key);
  }

  ghost predicate KeepsDelivery(s: Store, t: Store, key: DeliveryKey)
    requires key in s.outbox
  {
    key in t.outbox && DeliveryAdvances(s.outbox[key], t.outbox[key])
  }

  lemma PlanDelivery(s: Store, t: Store, id: PartitionId, now: Instant, key: DeliveryKey)
    requires key in s.outbox && t == After(s, PlanPartition(s, id, now))
    ensures KeepsDelivery(s, t, key)
  {}

  lemma ClaimDelivery(s: Store, t: Store, id: PartitionId, n: nat, now: Instant, leaseMs: int, run: RunId)
    requires t == After(s, ClaimPage(s, id, n, now, leaseMs, run))
    ensures t.outbox == s.outbox
  {}

  lemma RenewDelivery(s: Store, t: Store, claim: Claim, now: Instant, leaseMs: int)
    requires t == After(s, RenewPage(s, claim, now, leaseMs))
    ensures t.outbox == s.outbox
  {}

  lemma FailDelivery(
      s: Store, t: Store, claim: Claim, reason: string, retryAt: Option<Instant>, now: Instant, key: DeliveryKey)
    requires key in s.outbox && t == After(s, FailPage(s, claim, reason, retryAt, now))
    ensures KeepsDelivery(s, t, key)
  {}

  lemma ResumeDelivery(s: Store, t: Store, id: PartitionId, now: Instant, key: DeliveryKey)
    requires key in s.outbox && t == After(s, ResumePartition(s, id, now))
    ensures KeepsDelivery(s, t, key)
  {}

  lemma LeaseDelivery(s: Store, t: Store, a: Action, key: DeliveryKey)
    requires key in s.outbox && a.LeaseDue? && t == After(s, LeaseBatch(s, a.picked, a.now, a.limit, a.leaseMs, a.mode))
    ensures KeepsDelivery(s, t, key)
  {
    if t != s { LeaseAllEpochs(s.outbox, a.picked, a.now, a.leaseMs); }
  }

  lemma MarkDelivery(s: Store, t: Store, marked: DeliveryKey, leaseEpoch: nat, now: Instant, key: DeliveryKey)
    requires key in s.outbox && t == After(s, MarkSent(s, marked, leaseEpoch, now))
    ensures KeepsDelivery(s, t, key)
  {}

  lemma WorkDelivery(s: Store, t: Store, completed: DeliveryKey, now: Instant, evidence: bool, key: DeliveryKey)
    requires key in s.outbox && t == After(s, CompleteDelivery(s, completed, now, evidence))
    ensures KeepsDelivery(s, t, key)
  {}

  lemma AttachDelivery(s: Store, t: Store, a: Action, key: DeliveryKey)
    requires key in s.outbox && a.Attach? && t == After(s, AttachRevision(s, a.raw, a.revision, a.members, a.now))
    ensures KeepsDelivery(s, t, key)
  {
    InsertEmbeddingsFrame(s.outbox, a.revision, a.members, a.now);
  }

  lemma PageStepDelivery(s: Store, a: Action, key: DeliveryKey, t: Store)
    requires key in s.outbox && OnPage(a) && t == Step(s, a)
    ensures KeepsDelivery(s, t, key)
  {
    match a
    case Plan(id, now) => PlanDelivery(s, t, id, now, key);
    case ClaimNext(id, n, now, leaseMs, run) => ClaimDelivery(s, t, id, n, now, leaseMs, run);
    case Renew(claim, now, leaseMs) => RenewDelivery(s, t, claim, now, leaseMs);
    case Commit(claim, result, now) =>
      if CommitPage(s, claim, result, now).Done? { CommitDelivery(s, claim, result, now, key); }
    case Fail(claim, reason, retryAt, now) => FailDelivery(s, t, claim, reason, retryAt, now, key);
    case Resume(id, now) => ResumeDelivery(s, t, id, now, key);
    case _ => assert false;
  }

  lemma OtherStepDelivery(s: Store, a: Action, key: DeliveryKey, t: Store)
    requires key in s.outbox && !OnPage(a) && t == Step(s, a)
    ensures KeepsDelivery(s, t, key)
  {
    match a
    case LeaseDue(_, _, _, _, _) => LeaseDelivery(s, t, a, key);
    case Sent(marked, leaseEpoch, now) => MarkDelivery(s, t, marked, leaseEpoch, now, key);
    case CompleteWork(completed, now, evidence) => WorkDelivery(s, t, completed, now, evidence, key);
    case Attach(_, _, _, _) => AttachDelivery(s, t, a, key);
    case Replay(scope, rows, at) => if Replan(s, scope, rows, at).Done? { ReplanEpochs(s, rows, at, key); }
    case _ =>
  }

  lemma StepDelivery(s: Store, a: Action, key: DeliveryKey)
    requires key in s.outbox
    ensures key in Step(s, a).outbox && DeliveryAdvances(s.outbox[key], Step(s, a).outbox[key])
  {
    if OnPage(a) { PageStepDelivery(s, a, key, Step(s, a)); } else { OtherStepDelivery(s, a, key, Step(s, a)); }
  }

  /** The epochs one delivery is handed out under along the trace. */
  function Grants(s: Store, trace: seq<Action>, key: DeliveryKey): seq<nat>
    decreases |trace|
  {
    if trace == [] then [] else
    var a := trace[0];
    var rest := Grants(Step(s, a), trace[1..], key);
    if HandsOut(s, a, key) then [s.outbox[key].leaseEpoch + 1] + rest else rest
  }

  predicate HandsOut(s: Store, a: Action, key: DeliveryKey) {
    && a.LeaseDue? && key in a.picked && key in s.outbox
    && LeaseBatch(s, a.picked, a.now, a.limit, a.leaseMs, a.mode).Done?
  }

  lemma HandOutEpoch(s: Store, a: Action, next: Store, key: DeliveryKey)
    requires next == Step(s, a) && key in s.outbox
    ensures key in next.outbox && s.outbox[key].leaseEpoch <= next.outbox[key].leaseEpoch
    ensures HandsOut(s, a, key) ==> next.outbox[key].leaseEpoch == s.outbox[key].leaseEpoch + 1
  {
    StepDelivery(s, a, key);
    if HandsOut(s, a, key) { LeaseAllEpochs(s.outbox, a.picked, a.now, a.leaseMs); }
  }

  /** The epochs under which the delivery is marked sent along the trace. */
  function Sends(s: Store, trace: seq<Action>, key: DeliveryKey): seq<nat>
    decreases |trace|
  {
    if trace == [] then [] else
    var a := trace[0];
    var rest := Sends(Step(s, a), trace[1..], key);
    if a.Sent? && a.key == key && MarkSent(s, a.key, a.leaseEpoch, a.now).Done? then [a.leaseEpoch] + rest else rest
  }

  ghost predicate Increasing(g: seq<nat>) {
    forall i, j :: 0 <= i < j < |g| ==> g[i] < g[j]
  }

  lemma PrependIncreasing(x: nat, g: seq<nat>)
    requires Increasing(g) && forall y :: y in g ==> x < y
    ensures Increasing([x] + g)
    ensures forall y :: y in [x] + g ==> x <= y
  {
    forall i, j | 0 <= i < j < |[x] + g| ensures ([x] + g)[i] < ([x] + g)[j] {
      assert ([x] + g)[j] == g[j - 1] && g[j - 1] in g;
    }
  }

  /** No two hand-outs of a delivery share an epoch: the epochs strictly increase. */
  lemma {:induction false} GrantEpochsIncrease(s: Store, trace: seq<Action>, key: DeliveryKey)
    ensures Increasing(Grants(s, trace, key))
    ensures forall y :: y in Grants(s, trace, key) && key in s.outbox ==> s.outbox[key].leaseEpoch < y
    decreases |trace|
  {
    if trace != [] {
      var a, next := trace[0], Step(s, trace[0]);
      GrantEpochsIncrease(next, trace[1..], key);
      if key in s.outbox {
        HandOutEpoch(s, a, next, key);
        if HandsOut(s, a, key) {
          PrependIncreasing(s.outbox[key].leaseEpoch + 1, Grants(next, trace[1..], key));
        }
      }
    }
  }

  /** A mark can still come under epoch `y`: it is not behind the row's, nor is the row's own lease used up. */
  predicate Markable(s: Store, key: DeliveryKey, y: nat) {
    key in s.outbox ==>
      s.outbox[key].leaseEpoch <= y && (s.outbox[key].leaseUntil.None? ==> s.outbox[key].leaseEpoch < y)
  }

  lemma MarkableBefore(s: Store, a: Action, next: Store, key: DeliveryKey, y: nat)
    requires next == Step(s, a) && Markable(next, key, y)
    ensures Markable(s, key, y)
    ensures a.Sent? && a.key == key && MarkSent(s, key, a.leaseEpoch, a.now).Done? ==>
              a.leaseEpoch < y && Markable(s, key, a.leaseEpoch)
  {
    if key in s.outbox { StepDelivery(s, a, key); }
  }

  lemma MarkNow(s: Store, a: Action, key: DeliveryKey)
    requires a.Sent? && a.key == key && MarkSent(s, key, a.leaseEpoch, a.now).Done?
    ensures Markable(s, key, a.leaseEpoch)
  {}

  /** A delivery is marked sent at most once under each epoch. */
  lemma {:induction false} SentOncePerEpoch(s: Store, trace: seq<Action>, key: DeliveryKey)
    ensures Increasing(Sends(s, trace, key))
    ensures forall y :: y in Sends(s, trace, key) ==> Markable(s, key, y)
    decreases |trace|
  {
    if trace != [] {
      var a, next := trace[0], Step(s, trace[0]);
      SentOncePerEpoch(next, trace[1..], key);
      var rest := Sends(next, trace[1..], key);
      forall y | y in rest
        ensures Markable(s, key, y)
        ensures a.Sent? && a.key == key && MarkSent(s, key, a.leaseEpoch, a.now).Done? ==> a.leaseEpoch < y
      {
        MarkableBefore(s, a, next, key, y);
      }
      if a.Sent? && a.key == key && MarkSent(s, key, a.leaseEpoch, a.now).Done? {
        MarkNow(s, a, key);
        PrependIncreasing(a.leaseEpoch, rest);
      }
    }
  }

  // ---------- Planning again ----------

  /** Planning a partition again, at any later point of any run, changes nothing in the store. */
  lemma PlanningAgainChangesNothing(s: Store, trace: seq<Action>, id: PartitionId, now: Instant)
    requires Reachable(s) && id in s.partitions
    ensures var t := Exec(s, trace); After(t, PlanPartition(t, id, now)) == t
  {
    ReachableInv(s);
    ExecKeepsInv(s, trace);
    ExecAdvances(s, trace, id);
    var t := Exec(s, trace);
    if PlanPartition(t, id, now).Done? {
      PlanKeepsInv(t, id, now);
    }
  }
}
