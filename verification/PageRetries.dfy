/** From when on a page that its worker gave up runs again. */
module PageRetries {
  import opened Common
  import opened CollectionState
  import opened CollectionHistory
  import opened CollectionProgress
  import opened PageWorker

  /** The worker gave up on the page for good, or until that time. */
  ghost predicate GivenUp(t: Store, claim: Claim, retryAt: Option<Instant>) {
    if retryAt.Some? then RunsFrom(t, claim.id, claim.row.pageSequence, retryAt.value)
    else NeverRuns(t, claim.id, claim.row.pageSequence)
  }

  lemma GaveUpFrom(s: Store, claim: Claim, retryAt: Option<Instant>, now: Instant, report: Report, t: Store)
    requires Reachable(s) && StillHeld(s, claim, now) && GaveUp(s, claim, retryAt, now, report, t)
    ensures report == HandedBack(retryAt) && GivenUp(t, claim, retryAt)
  {
    var reason :| var o := FailPage(s, claim, reason, retryAt, now);
      t == After(s, o) && report == if o == Rejected(StaleLease) then FencedOut else HandedBack(retryAt);
    AfterFail(s, claim, reason, retryAt, now);
  }

  /**
    A collector that throws has its page tried again five seconds later, unless it broke the policy or the lease could
    not be renewed: then, as without a collector, the page is never tried again by itself.
  */
  lemma AfterThrow(s: Store, claim: Claim, e: Surroundings, collected: Collected, report: Report, t: Store)
    requires Reachable(s) && !collected.Returned? && Followed(s, claim, e, collected, report, t)
    requires StillHeld(Midway(s, e), claim, if collected.NoCollector? then e.finishedAt else e.failedAt)
    ensures var retryAt := if collected.Threw? && !collected.policyViolation && !e.renewalFailed
                           then Some(e.failedAt + 5000) else None;
            report == HandedBack(retryAt) && GivenUp(t, claim, retryAt)
  {
    ExecReachable(s, e.during);
    var mid := Midway(s, e);
    match collected
    case NoCollector => GaveUpFrom(mid, claim, None, e.finishedAt, report, t);
    case Threw(_, violation) =>
      var retryAt := if violation || e.renewalFailed then None else Some(e.failedAt + 5000);
      GaveUpFrom(mid, claim, retryAt, e.failedAt, report, t);
  }

  /** So has a result the commit refused, neither for its lease nor by the policy, unless the renewal had failed. */
  lemma AfterRefusal(s: Store, claim: Claim, e: Surroundings, collected: Collected, report: Report, t: Store)
    requires Reachable(s) && CommitRefused(s, claim, e, collected) && Followed(s, claim, e, collected, report, t)
    requires StillHeld(Afterwards(s, e), claim, e.failedAt)
    ensures var retryAt := if e.renewalFailed then None else Some(e.failedAt + 5000);
            report == HandedBack(retryAt) && GivenUp(t, claim, retryAt)
  {
    ExecReachable(s, e.during);
    ExecReachable(Midway(s, e), e.between);
    var retryAt := if e.renewalFailed then None else Some(e.failedAt + 5000);
    GaveUpFrom(Afterwards(s, e), claim, retryAt, e.failedAt, report, t);
  }
}
