/** The worker that drives one page: claim it, collect, then commit or fail it, while others work too. */
module PageWorker {
  import opened Common
  import opened CollectionState
  import opened CollectionInvariants
  import opened CollectionHistory
  import opened CollectionRepository
  import S = CollectionState

  /** What the collector does with the page. */
  datatype Collected =
    | NoCollector
    | Returned(result: PageResult)
    | Threw(message: string, policyViolation: bool)

  /**
    What happens outside the worker: others' steps and its own renewals before it comes back to the store, others'
    steps between a commit that was refused and the failure that follows, and the worker's clock readings.
  */
  datatype Surroundings = Surroundings(
    run: RunId, claimedAt: Instant, during: seq<Action>, renewalFailed: bool, finishedAt: Instant,
    between: seq<Action>, failedAt: Instant)

  datatype Report =
    | Skipped
    | FencedOut
    | HandedBack(retryAt: Option<Instant>)   // reported as deferred
    | Did(disposition: Disposition, persisted: nat, nextDueAt: Option<Instant>, reason: Option<string>)
    | Thrown(error: Error)

  function DidPage(r: PageResult): Report {
    Did(r.disposition, |r.items|, r.retryAt, r.reason)
  }

  const RETRY_MS := 5000

  /** The store when the worker has collected and comes back to it. */
  function Midway(claimed: Store, e: Surroundings): Store {
    Exec(claimed, e.during)
  }

  /** The store when the worker fails a page whose commit was refused. */
  function Afterwards(claimed: Store, e: Surroundings): Store {
    Exec(Midway(claimed, e), e.between)
  }

  /** The commit was refused, and neither by the fence nor by the policy: the page is failed. */
  predicate CommitRefused(claimed: Store, claim: Claim, e: Surroundings, collected: Collected) {
    && collected.Returned?
    && var o := CommitPage(Midway(claimed, e), claim, collected.result, e.finishedAt);
    && o.Rejected? && o.error != StaleLease && o.error != PolicyBlocked
  }

  /** The store the worker last came back to. */
  function Last(claimed: Store, claim: Claim, e: Surroundings, collected: Collected): Store {
    if CommitRefused(claimed, claim, e, collected) then Afterwards(claimed, e) else Midway(claimed, e)
  }

  method ExecutePartitionPage(
      repo: Repository, id: PartitionId, pageSequence: nat, leaseMs: int, e: Surroundings, collected: Collected)
    returns (report: Report)
    modifies repo
    ensures var o := S.ClaimPage(old(repo.State()), id, pageSequence, e.claimedAt, leaseMs, e.run);
      (o.Done? && o.value.Some? ==> Followed(o.store, o.value.value, e, collected, report, repo.State()))
    ensures var o := S.ClaimPage(old(repo.State()), id, pageSequence, e.claimedAt, leaseMs, e.run);
      !(o.Done? && o.value.Some?) ==>
        && repo.State() == old(repo.State())
        && report == if o.Done? || o.error == PolicyBlocked then Skipped else Thrown(o.error)
    ensures Reachable(old(repo.State())) ==> Reachable(repo.State())
  {
    var claimed := repo.ClaimPage(id, pageSequence, e.claimedAt, leaseMs, e.run);
    if claimed.Err? {
      if claimed.error == PolicyBlocked { return Skipped; }
      return Thrown(claimed.error);
    }
    if claimed.value.None? { return Skipped; }
    var claim := claimed.value.value;
    ExecReachable(repo.State(), e.during);
    repo.Become(Exec(repo.State(), e.during));
    match collected {
      case NoCollector =>
        report := GiveUp(repo, claim, "No collector registered", None, e.finishedAt);
      case Returned(result) =>
        var committed := repo.CommitPage(claim, result, e.finishedAt);
        if committed.Ok? { return DidPage(result); }
        if committed.error == StaleLease { return FencedOut; }
        if committed.error == PolicyBlocked { return HandedBack(None); }
        ExecReachable(repo.State(), e.between);
        repo.Become(Exec(repo.State(), e.between));
        var retryAt := if e.renewalFailed then None else Some(e.failedAt + RETRY_MS);
        report := GiveUp(repo, claim, "commit failed", retryAt, e.failedAt);
      case Threw(message, policyViolation) =>
        var retryAt := if policyViolation || e.renewalFailed then None else Some(e.failedAt + RETRY_MS);
        report := GiveUp(repo, claim, message, retryAt, e.failedAt);
    }
  }

  /** Fail the page; only a stale lease is told apart, any other rejection is swallowed. */
  method GiveUp(repo: Repository, claim: Claim, reason: string, retryAt: Option<Instant>, now: Instant)
    returns (report: Report)
    modifies repo
    ensures GaveUp(old(repo.State()), claim, retryAt, now, report, repo.State())
    ensures Reachable(old(repo.State())) ==> Reachable(repo.State())
  {
    var failed := repo.FailPage(claim, reason, retryAt, now);
    if failed.Err? && failed.error == StaleLease { return FencedOut; }
    return HandedBack(retryAt);
  }

  ghost predicate GaveUp(s: Store, claim: Claim, retryAt: Option<Instant>, now: Instant, report: Report, t: Store) {
    exists reason: string ::
      var o := FailPage(s, claim, reason, retryAt, now);
      t == After(s, o) && report == if o == Rejected(StaleLease) then FencedOut else HandedBack(retryAt)
  }

  /** How a claimed page ends. */
  ghost predicate Followed(s: Store, claim: Claim, e: Surroundings, collected: Collected, report: Report, t: Store) {
    var mid := Midway(s, e);
    match collected
    case NoCollector => GaveUp(mid, claim, None, e.finishedAt, report, t)
    case Returned(result) =>
      (match CommitPage(mid, claim, result, e.finishedAt)
       case Done(after, _) => t == after && report == DidPage(result)
       case Rejected(StaleLease) => t == mid && report == FencedOut
       case Rejected(PolicyBlocked) => t == mid && report == HandedBack(None)
       case Rejected(_) =>
         GaveUp(Afterwards(s, e), claim, if e.renewalFailed then None else Some(e.failedAt + RETRY_MS), e.failedAt,
                report, t))
    case Threw(_, policyViolation) =>
      GaveUp(mid, claim, if policyViolation || e.renewalFailed then None else Some(e.failedAt + RETRY_MS),
             e.failedAt, report, t)
  }

  /** A page reported done has exactly this worker's checkpoint, under its own epoch, and no claim came between. */
  lemma DoneMeansCheckpointed(
      s: Store, id: PartitionId, pageSequence: nat, leaseMs: int, e: Surroundings, collected: Collected,
      report: Report, t: Store)
    requires Reachable(s)
    requires var o := ClaimPage(s, id, pageSequence, e.claimedAt, leaseMs, e.run);
      o.Done? && o.value.Some? && Followed(o.store, o.value.value, e, collected, report, t)
    requires report.Did?
    ensures var claimed := ClaimPage(s, id, pageSequence, e.claimedAt, leaseMs, e.run).store;
      && (id, pageSequence) !in Midway(claimed, e).checkpoints
      && (id, pageSequence) in t.checkpoints
      && t.checkpoints[(id, pageSequence)].leaseEpoch == s.partitions[id].leaseEpoch + 1
      && t.checkpoints[(id, pageSequence)].disposition == report.disposition
      && t.checkpoints[(id, pageSequence)].retained == report.persisted
      && (forall i :: 0 <= i < |e.during| ==> !Moves(Exec(claimed, e.during[..i]), e.during[i], id))
  {
    var o := ClaimPage(s, id, pageSequence, e.claimedAt, leaseMs, e.run);
    var claim, mid := o.value.value, Midway(o.store, e);
    AcquireItemsFrame(mid, claim, ReadTarget(mid.catalog, claim.target.id).value, collected.result.items, e.finishedAt);
    forall i | 0 <= i < |e.during| ensures !Moves(Exec(o.store, e.during[..i]), e.during[i], id) {
      OnlyNewestClaimPasses(s, id, pageSequence, e.claimedAt, leaseMs, e.run, e.during, e.finishedAt, i);
    }
  }

  lemma {:induction false} AcquireErrors(s: Store, claim: Claim, target: Target, items: seq<Item>, now: Instant)
    ensures var o := AcquireItems(s, claim, target, items, now);
            o.Rejected? ==> o.error in {InvalidPage, PolicyBlocked}
    decreases |items|
  {
    if items != [] {
      var o := AcquireItem(s, claim, target, items[0], now);
      if o.Done? {
        AcquireErrors(o.store, claim, target, items[1..], now);
      }
    }
  }

  /** A commit is refused as stale exactly by the fence. */
  lemma StaleCommitMeansFenced(s: Store, claim: Claim, r: PageResult, now: Instant)
    requires CommitPage(s, claim, r, now) == Rejected(StaleLease)
    ensures !Fence(s, claim, now)
  {
    var target := ReadTarget(s.catalog, claim.target.id);
    if target.Some? {
      AcquireErrors(s, claim, target.value, r.items, now);
    }
  }

  /** A worker that was fenced out has changed nothing since its claim. */
  lemma FencedOutChangesNothing(
      s: Store, claim: Claim, e: Surroundings, collected: Collected, report: Report, t: Store)
    requires Followed(s, claim, e, collected, report, t) && report.FencedOut?
    ensures t == Last(s, claim, e, collected)
    ensures !Fence(t, claim, e.finishedAt) || !Fence(t, claim, e.failedAt)
  {
    if collected.Returned? && CommitPage(Midway(s, e), claim, collected.result, e.finishedAt) == Rejected(StaleLease) {
      StaleCommitMeansFenced(Midway(s, e), claim, collected.result, e.finishedAt);
    }
  }

  lemma CommitEndsClaim(s: Store, claim: Claim, r: PageResult, now: Instant)
    requires CommitPage(s, claim, r, now).Done?
    ensures !Current(CommitPage(s, claim, r, now).store, claim)
  {
    AcquireItemsFrame(s, claim, ReadTarget(s.catalog, claim.target.id).value, r.items, now);
  }

  lemma GiveUpEndsClaim(s: Store, claim: Claim, retryAt: Option<Instant>, now: Instant, report: Report, t: Store)
    requires GaveUp(s, claim, retryAt, now, report, t)
    requires Fence(s, claim, now) && claim.run in s.runs && s.runs[claim.run].startedAt <= now
    ensures !Current(t, claim)
  {}

  // ---------- When a commit is refused as policy-blocked ----------

  /** A result that the checks before the policy's let through. */
  predicate Presentable(claim: Claim, r: PageResult, now: Instant) {
    && ValidPageResult(claim.row, r)
    && (r.retryAt.Some? ==> r.retryAt.value > now)
    && !(r.disposition == Complete && claim.id.mode == Backfill
         && claim.target.capability.historyMode in {FeedOnly, SnapshotOnly})
  }

  predicate WellDeclared(item: Item) {
    item.urlValid && item.rights.Declared?
  }

  /** The item itself declares that it may not be had. */
  predicate Declines(item: Item)
    requires WellDeclared(item)
  {
    item.rights.approved == Some(false) || item.rights.fetch == Some(false) || item.rights.store == Some(false)
  }

  /** The first item that is ill declared or declines is one that declines. */
  ghost predicate DeclinedFirst(items: seq<Item>) {
    exists i :: 0 <= i < |items| && WellDeclared(items[i]) && Declines(items[i]) && AllStorable(items[..i])
  }

  ghost predicate AllStorable(items: seq<Item>) {
    forall i :: 0 <= i < |items| ==> WellDeclared(items[i]) && !Declines(items[i])
  }

  lemma AcquireDeclinedIff(s: Store, claim: Claim, target: Target, item: Item, now: Instant)
    requires Collectable(target)
    ensures AcquireItem(s, claim, target, item, now) == Rejected(PolicyBlocked) <==>
            WellDeclared(item) && Declines(item)
    ensures AcquireItem(s, claim, target, item, now).Done? <==> WellDeclared(item) && !Declines(item)
  {}

  lemma DeclinedFirstCons(items: seq<Item>)
    requires items != []
    ensures DeclinedFirst(items) <==>
            WellDeclared(items[0]) && (Declines(items[0]) || DeclinedFirst(items[1..]))
  {
    if WellDeclared(items[0]) && Declines(items[0]) {
      assert AllStorable(items[..0]);
    } else if WellDeclared(items[0]) && DeclinedFirst(items[1..]) {
      var rest := items[1..];
      var i :| 0 <= i < |rest| && WellDeclared(rest[i]) && Declines(rest[i]) && AllStorable(rest[..i]);
      assert items[..i + 1] == [items[0]] + rest[..i];
      assert rest[i] == items[i + 1] && AllStorable(items[..i + 1]);
    }
    if DeclinedFirst(items) {
      var i :| 0 <= i < |items| && WellDeclared(items[i]) && Declines(items[i]) && AllStorable(items[..i]);
      if i > 0 {
        assert items[..i][0] == items[0];
        assert items[..i][1..] == items[1..][..i - 1] && items[1..][i - 1] == items[i];
        assert AllStorable(items[1..][..i - 1]);
      }
    }
  }

  lemma {:induction false} AcquireBlockedIff(s: Store, claim: Claim, target: Target, items: seq<Item>, now: Instant)
    requires Collectable(target)
    ensures AcquireItems(s, claim, target, items, now) == Rejected(PolicyBlocked) <==> DeclinedFirst(items)
    decreases |items|
  {
    if items != [] {
      DeclinedFirstCons(items);
      AcquireDeclinedIff(s, claim, target, items[0], now);
      var o := AcquireItem(s, claim, target, items[0], now);
      if o.Done? { AcquireBlockedIff(o.store, claim, target, items[1..], now); }
    }
  }

  /**
    What a caller can see before the commit: the target is no longer collectable, or a claim that passes the fence
    brings a well-formed result in which the first item that cannot be stored declares that it may not be.
  */
  ghost predicate PolicyRefuses(s: Store, claim: Claim, r: PageResult, now: Instant) {
    var target := ReadTarget(s.catalog, claim.target.id);
    && Presentable(claim, r, now) && target.Some?
    && (!Collectable(target.value)
        || (&& Fence(s, claim, now) && DecodesFor(r.nextCursor, claim.id, target.value.capability.cursorVersion)
            && DeclinedFirst(r.items)))
  }

  /** A commit is refused as policy-blocked exactly then. */
  lemma CommitBlockedIff(s: Store, claim: Claim, r: PageResult, now: Instant)
    ensures CommitPage(s, claim, r, now) == Rejected(PolicyBlocked) <==> PolicyRefuses(s, claim, r, now)
  {
    var target := ReadTarget(s.catalog, claim.target.id);
    if target.Some? && Collectable(target.value) { AcquireBlockedIff(s, claim, target.value, r.items, now); }
  }

  // ---------- How a page ends ----------

  /**
    A page that still passed the fence is not left running, with one exception: a commit that the policy refuses
    reports the page as deferred but leaves it running until its lease ends. A clock behind the run's start is the
    schema's own refusal.
  */
  lemma NotLeftRunning(
      s: Store, claim: Claim, e: Surroundings, collected: Collected, report: Report, t: Store)
    requires Followed(s, claim, e, collected, report, t)
    requires StillHeld(Midway(s, e), claim, e.finishedAt) && StillHeld(Last(s, claim, e, collected), claim, e.failedAt)
    ensures Current(t, claim) <==>
              collected.Returned? && PolicyRefuses(Midway(s, e), claim, collected.result, e.finishedAt)
    ensures Current(t, claim) ==> report == HandedBack(None) && t == Midway(s, e)
  {
    var mid := Midway(s, e);
    match collected
    case NoCollector => GiveUpEndsClaim(mid, claim, None, e.finishedAt, report, t);
    case Threw(_, violation) =>
      GiveUpEndsClaim(mid, claim, if violation || e.renewalFailed then None else Some(e.failedAt + RETRY_MS),
                      e.failedAt, report, t);
    case Returned(result) =>
      var o := CommitPage(mid, claim, result, e.finishedAt);
      CommitBlockedIff(mid, claim, result, e.finishedAt);
      if o.Done? {
        CommitEndsClaim(mid, claim, result, e.finishedAt);
      } else if o.error == StaleLease {
        StaleCommitMeansFenced(mid, claim, result, e.finishedAt);
      } else if o.error != PolicyBlocked {
        GiveUpEndsClaim(Afterwards(s, e), claim, if e.renewalFailed then None else Some(e.failedAt + RETRY_MS),
                        e.failedAt, report, t);
      }
  }

  /** The claim passes the fence, and the clock is not behind its run's start. */
  ghost predicate StillHeld(s: Store, claim: Claim, now: Instant) {
    Fence(s, claim, now) && claim.run in s.runs && s.runs[claim.run].startedAt <= now
  }

  // ---------- A page that is left running ----------

  /** A target that stops being collectable while the collector is at work leaves the page running. */
  lemma BlockedMeanwhile(s: Store, claim: Claim, e: Surroundings, result: PageResult, report: Report, t: Store)
    requires Followed(s, claim, e, Returned(result), report, t)
    requires Current(Midway(s, e), claim) && Presentable(claim, result, e.finishedAt)
    requires var target := ReadTarget(Midway(s, e).catalog, claim.target.id); target.Some? && !Collectable(target.value)
    ensures Current(t, claim) && report == HandedBack(None)
  {}

  const ENABLED := Catalog(
    map[0 := true], map[0 := TargetRow(0, true, Some(0))],
    map[0 := TargetRevision(0, Policy(true, true, true, true, true, true, false, None),
                            Capability(HistoricalRange, PublishedAt, 1, true, true))])
  const DISABLED := ENABLED.(targets := map[0 := TargetRow(0, false, Some(0))])
  const PAGE := PartitionId(0, Incremental, "default", 0, 10, PublishedAt, "1")
  const NOTHING_FOUND := PageResult([], None, Complete, None, None, true)

  const PLANNED := EMPTY.(
    catalog := ENABLED,
    partitions := map[PAGE := Partition(Pending, 0, None, 0, None, None, 0, None, 0)],
    outbox := map[CollectionPage(PAGE, 0) := Delivery(PAGE, 0, 0, None, None, 0, None)])

  lemma PlannedReached()
    ensures PLANNED == Exec(EMPTY, [Administer(ENABLED), Plan(PAGE, 0)]) && Reachable(PLANNED)
  {
    var s1 := Step(EMPTY, Administer(ENABLED));
    assert [Administer(ENABLED)] + [Plan(PAGE, 0)] == [Administer(ENABLED), Plan(PAGE, 0)];
    ExecJoin(EMPTY, [Administer(ENABLED)], [Plan(PAGE, 0)]);
    ExecOne(EMPTY, Administer(ENABLED));
    ExecOne(s1, Plan(PAGE, 0));
  }

  const BLOCKING := Surroundings(0, 0, [Administer(DISABLED)], false, 1, [], 1)

  /** From an empty store: plan, claim, disable the target, commit; the page is reported deferred and still runs. */
  lemma LeftRunningReached()
    ensures PLANNED == Exec(EMPTY, [Administer(ENABLED), Plan(PAGE, 0)]) && Reachable(PLANNED)
    ensures var o := ClaimPage(PLANNED, PAGE, 0, 0, 60000, 0);
      && o.Done? && o.value.Some?
      && var (claim, t) := (o.value.value, Midway(o.store, BLOCKING));
      && Followed(o.store, claim, BLOCKING, Returned(NOTHING_FOUND), HandedBack(None), t)
      && Current(t, claim) && Fence(t, claim, 1)
  {
    PlannedReached();
    var o := ClaimPage(PLANNED, PAGE, 0, 0, 60000, 0);
    assert o.Done? && o.value.Some?;
    ExecOne(o.store, Administer(DISABLED));
  }
}
