/** Planning: how a requested window becomes partitions. */
module PartitionPlanning {
  import opened Common
  import opened CollectionState
  import opened CollectionInvariants
  import opened CollectionHistory
  import opened CollectionRepository
  import S = CollectionState

  datatype PlanRequest = PlanRequest(
    target: Target, mode: Mode, window: Option<(Instant, Instant)>, scopeKey: string, workflowVersion: string,
    sliceMs: int, cadenceMs: int, overlapMs: int)

  /** The plan of one slice of the request. */
  function PlanFor(q: PlanRequest, slice: (Instant, Instant)): PartitionId {
    PartitionId(q.target.id, q.mode, q.scopeKey, slice.0, slice.1, q.target.capability.timeBasis, q.workflowVersion)
  }

  /** The window cut into slices of `step`, the last one shorter if need be. */
  function Slices(from: Instant, end: Instant, step: int): seq<(Instant, Instant)>
    requires step > 0
    decreases end - from
  {
    if from >= end then []
    else [(from, Min(from + step, end))] + Slices(Min(from + step, end), end, step)
  }

  /** The slices planned one after the other, each in its own transaction, up to the first that is rejected. */
  function PlanAll(s: Store, q: PlanRequest, slices: seq<(Instant, Instant)>, now: Instant)
    : (Store, Result<seq<Partition>, Error>)
    decreases |slices|
  {
    if slices == [] then (s, Ok([])) else
    match PlanPartition(s, PlanFor(q, slices[0]), now)
    case Rejected(e) => (s, Err(e))
    case Done(s1, row) => Onto([row], PlanAll(s1, q, slices[1..], now))
  }

  /** The result of a plan of which `planned` was done before. */
  function Onto(planned: seq<Partition>, rest: (Store, Result<seq<Partition>, Error>))
    : (Store, Result<seq<Partition>, Error>)
  {
    (rest.0, match rest.1 case Ok(rows) => Ok(planned + rows) case Err(e) => Err(e))
  }

  lemma OntoSteps(planned: seq<Partition>, row: Partition, rest: (Store, Result<seq<Partition>, Error>))
    ensures Onto(planned, Onto([row], rest)) == Onto(planned + [row], rest)
  {
    if rest.1.Ok? {
      assert planned + ([row] + rest.1.value) == planned + [row] + rest.1.value;
    }
  }

  lemma {:induction false} PlanAllReachable(s: Store, q: PlanRequest, slices: seq<(Instant, Instant)>, now: Instant)
    requires Reachable(s)
    ensures Reachable(PlanAll(s, q, slices, now).0)
    decreases |slices|
  {
    if slices != [] {
      var o := PlanPartition(s, PlanFor(q, slices[0]), now);
      if o.Done? {
        PlanReachable(s, o.store, PlanFor(q, slices[0]), now);
        PlanAllReachable(o.store, q, slices[1..], now);
      }
    }
  }

  function BackfillError(q: PlanRequest): Option<Error> {
    if !Collectable(q.target) then Some(PolicyBlocked)
    else if q.target.capability.historyMode in {FeedOnly, SnapshotOnly} then Some(InvalidWindow)
    else if q.window.None? || q.window.value.0 >= q.window.value.1 then Some(InvalidWindow)
    else None
  }

  /** Planning the slices from `from` on after `planned` completes the whole plan. */
  ghost predicate Remains(goal: (Store, Result<seq<Partition>, Error>), s: Store, q: PlanRequest,
                          planned: seq<Partition>, from: Instant, now: Instant)
    requires q.sliceMs > 0 && q.window.Some?
  {
    goal == Onto(planned, PlanAll(s, q, Slices(from, q.window.value.1, q.sliceMs), now))
  }

  lemma RemainsAll(s: Store, q: PlanRequest, from: Instant, now: Instant)
    requires q.sliceMs > 0 && q.window.Some?
    ensures Remains(PlanAll(s, q, Slices(from, q.window.value.1, q.sliceMs), now), s, q, [], from, now)
  {
    var rest := PlanAll(s, q, Slices(from, q.window.value.1, q.sliceMs), now);
    assert rest.1.Ok? ==> [] + rest.1.value == rest.1.value;
  }

  lemma RemainsAfter(goal: (Store, Result<seq<Partition>, Error>), s: Store, q: PlanRequest, planned: seq<Partition>,
                     from: Instant, next: Instant, now: Instant)
    requires q.sliceMs > 0 && q.window.Some? && Remains(goal, s, q, planned, from, now)
    requires from < q.window.value.1 && next == Min(from + q.sliceMs, q.window.value.1)
    ensures match PlanPartition(s, PlanFor(q, (from, next)), now)
            case Rejected(e) => goal == (s, Err(e))
            case Done(t, row) => Remains(goal, t, q, planned + [row], next, now)
  {
    var slices, later := Slices(from, q.window.value.1, q.sliceMs), Slices(next, q.window.value.1, q.sliceMs);
    assert slices[0] == (from, next) && slices[1..] == later;
    match PlanPartition(s, PlanFor(q, (from, next)), now)
    case Rejected(_) =>
    case Done(t, row) => OntoSteps(planned, row, PlanAll(t, q, later, now));
  }

  lemma RemainsNothing(goal: (Store, Result<seq<Partition>, Error>), s: Store, q: PlanRequest, planned: seq<Partition>,
                       from: Instant, now: Instant)
    requires q.sliceMs > 0 && q.window.Some? && Remains(goal, s, q, planned, from, now) && from >= q.window.value.1
    ensures goal == (s, Ok(planned))
  {
    assert planned + [] == planned;
  }

  /** The backfill branch. A slice length that is not positive makes the first slice an invalid window. */
  method PlanBackfill(repo: Repository, q: PlanRequest, now: Instant) returns (r: Result<seq<Partition>, Error>)
    requires q.mode == Backfill
    modifies repo
    ensures BackfillError(q).Some? ==> r == Err(BackfillError(q).value) && repo.State() == old(repo.State())
    ensures BackfillError(q).None? && q.sliceMs <= 0 ==> r == Err(InvalidWindow) && repo.State() == old(repo.State())
    ensures BackfillError(q).None? && q.sliceMs > 0 ==>
              var slices := Slices(q.window.value.0, q.window.value.1, q.sliceMs);
              (repo.State(), r) == PlanAll(old(repo.State()), q, slices, now)
  {
    if !Collectable(q.target) { return Err(PolicyBlocked); }
    if q.target.capability.historyMode == FeedOnly || q.target.capability.historyMode == SnapshotOnly {
      return Err(InvalidWindow);
    }
    if q.window.None? { return Err(InvalidWindow); }
    var (from, end) := q.window.value;
    if from >= end { return Err(InvalidWindow); }
    var planned: seq<Partition> := [];
    var currentFrom := from;
    ghost var s := repo.State();
    ghost var goal := PlanAll(s, q, if q.sliceMs > 0 then Slices(from, end, q.sliceMs) else [], now);
    if q.sliceMs > 0 { RemainsAll(s, q, from, now); }
    while currentFrom < end
      invariant from <= currentFrom <= end
      invariant q.sliceMs <= 0 ==> currentFrom == from && repo.State() == s
      invariant q.sliceMs > 0 ==> Remains(goal, repo.State(), q, planned, currentFrom, now)
    {
      var currentTo := Min(currentFrom + q.sliceMs, end);
      if q.sliceMs > 0 { RemainsAfter(goal, repo.State(), q, planned, currentFrom, currentTo, now); }
      var row := repo.PlanPartition(PlanFor(q, (currentFrom, currentTo)), now);
      if row.Err? { return Err(row.error); }
      planned := planned + [row.value];
      currentFrom := currentTo;
    }
    RemainsNothing(goal, repo.State(), q, planned, currentFrom, now);
    return Ok(planned);
  }

  /** The single-partition modes: an incremental window defaults to the last cadence plus the overlap. */
  method PlanSingle(repo: Repository, q: PlanRequest, now: Instant) returns (r: Result<seq<Partition>, Error>)
    requires q.mode != Backfill
    modifies repo
    ensures Collectable(q.target) && (q.mode == Incremental || q.window.Some?) ==>
              var window := if q.window.Some? then q.window.value else (now - q.cadenceMs - q.overlapMs, now);
              (repo.State(), r) == PlanAll(old(repo.State()), q, [window], now)
    ensures !Collectable(q.target) ==> r == Err(PolicyBlocked) && repo.State() == old(repo.State())
    ensures Collectable(q.target) && q.mode == OnDemand && q.window.None? ==>
              r == Err(InvalidWindow) && repo.State() == old(repo.State())
    ensures Reachable(old(repo.State())) ==> Reachable(repo.State())
  {
    if !Collectable(q.target) { return Err(PolicyBlocked); }
    var window := (now - q.cadenceMs - q.overlapMs, now);
    if q.window.Some? {
      window := q.window.value;
    } else if q.mode == OnDemand {
      return Err(InvalidWindow);
    }
    if q.mode == Incremental && window.0 >= window.1 { return Err(InvalidWindow); }
    var row := repo.PlanPartition(PlanFor(q, window), now);
    if row.Err? { return Err(row.error); }
    assert [row.value] + [] == [row.value];
    return Ok([row.value]);
  }

  // ---------- The slices tile the window ----------

  /** Non-empty, at most `step` long, contiguous, from one end of the window to the other. */
  lemma {:induction false} SlicesTile(from: Instant, end: Instant, step: int)
    requires step > 0 && from < end
    ensures var q := Slices(from, end, step);
      && |q| > 0 && q[0].0 == from && q[|q| - 1].1 == end
      && (forall i :: 0 <= i < |q| ==> 0 < q[i].1 - q[i].0 <= step)
      && (forall i :: 0 <= i < |q| - 1 ==> q[i].1 == q[i + 1].0 && q[i].1 - q[i].0 == step)
    decreases end - from
  {
    var next := Min(from + step, end);
    var q, rest := Slices(from, end, step), Slices(next, end, step);
    if next < end {
      SlicesTile(next, end, step);
      forall i | 0 <= i < |q| ensures i > 0 ==> q[i] == rest[i - 1] {}
    }
  }

  predicate Holds(slice: (Instant, Instant), t: Instant) {
    slice.0 <= t < slice.1
  }

  /** The slices that hold an instant, by index. */
  ghost function Holders(q: seq<(Instant, Instant)>, t: Instant): set<nat> {
    set i: nat | i < |q| && Holds(q[i], t)
  }

  /** Every instant of the window lies in exactly one slice, and no other instant lies in any. */
  lemma {:induction false} EachInstantOnce(from: Instant, end: Instant, step: int, t: Instant)
    requires step > 0
    ensures |Holders(Slices(from, end, step), t)| == if from <= t < end then 1 else 0
    decreases end - from
  {
    var q := Slices(from, end, step);
    if from < end {
      var next := Min(from + step, end);
      var rest := Slices(next, end, step);
      EachInstantOnce(next, end, step, t);
      HoldersShift((from, next), rest, t);
    } else {
      assert Holders(q, t) == {};
    }
  }

  lemma {:induction false} HoldersShift(first: (Instant, Instant), rest: seq<(Instant, Instant)>, t: Instant)
    ensures |Holders([first] + rest, t)| == |Holders(rest, t)| + if Holds(first, t) then 1 else 0
    decreases |rest|
  {
    if rest == [] {
      assert Holders([first], t) == if Holds(first, t) then {0} else {};
      assert [first] + rest == [first] && Holders(rest, t) == {};
    } else {
      var init, last := rest[..|rest| - 1], rest[|rest| - 1];
      HoldersShift(first, init, t);
      assert [first] + rest == ([first] + init) + [last] && rest == init + [last];
      HoldersAppend([first] + init, last, t);
      HoldersAppend(init, last, t);
    }
  }

  lemma HoldersAppend(q: seq<(Instant, Instant)>, last: (Instant, Instant), t: Instant)
    ensures |Holders(q + [last], t)| == |Holders(q, t)| + if Holds(last, t) then 1 else 0
  {
    assert Holders(q + [last], t) == Holders(q, t) + if Holds(last, t) then {|q|} else {};
  }

  // ---------- Planning again ----------

  lemma {:induction false} PlanAllPlans(s: Store, q: PlanRequest, slices: seq<(Instant, Instant)>, now: Instant)
    requires Inv(s)
    ensures var t := PlanAll(s, q, slices, now);
      && Inv(t.0)
      && s.partitions.Keys <= t.0.partitions.Keys
      && (t.1.Ok? ==> forall i :: 0 <= i < |slices| ==> PlanFor(q, slices[i]) in t.0.partitions)
    decreases |slices|
  {
    if slices != [] {
      var o := PlanPartition(s, PlanFor(q, slices[0]), now);
      if o.Done? {
        PlanKeepsInv(s, PlanFor(q, slices[0]), now);
        PlanAllPlans(o.store, q, slices[1..], now);
        forall i | 0 < i < |slices| ensures slices[i] == slices[1..][i - 1] {}
      }
    }
  }

  lemma {:induction false} PlannedStaysAsIs(s: Store, q: PlanRequest, slices: seq<(Instant, Instant)>, now: Instant)
    requires Inv(s) && forall i :: 0 <= i < |slices| ==> PlanFor(q, slices[i]) in s.partitions
    ensures PlanAll(s, q, slices, now).0 == s
    decreases |slices|
  {
    if slices != [] {
      var o := PlanPartition(s, PlanFor(q, slices[0]), now);
      if o.Done? {
        PlanKeepsInv(s, PlanFor(q, slices[0]), now);
        forall i | 0 <= i < |slices[1..]| ensures PlanFor(q, slices[1..][i]) in s.partitions {
          assert slices[1..][i] == slices[i + 1];
        }
        PlannedStaysAsIs(s, q, slices[1..], now);
      }
    }
  }

  /** After a plan that succeeded, planning the same slices again in any later state changes nothing at all. */
  lemma ReplanningChangesNothing(
      s: Store, q: PlanRequest, slices: seq<(Instant, Instant)>, now: Instant, trace: seq<Action>, later: Instant)
    requires Reachable(s) && PlanAll(s, q, slices, now).1.Ok?
    ensures var t := Exec(PlanAll(s, q, slices, now).0, trace);
            PlanAll(t, q, slices, later).0 == t
  {
    ReachableInv(s);
    PlanAllPlans(s, q, slices, now);
    var s1 := PlanAll(s, q, slices, now).0;
    var t := Exec(s1, trace);
    ExecKeepsInv(s1, trace);
    forall i | 0 <= i < |slices| ensures PlanFor(q, slices[i]) in t.partitions {
      ExecAdvances(s1, trace, PlanFor(q, slices[i]));
    }
    PlannedStaysAsIs(t, q, slices, later);
  }

  // ---------- What is planned ----------

  /** The request's partition for the slice. */
  predicate Serves(id: PartitionId, q: PlanRequest, slice: (Instant, Instant)) {
    && id.target == q.target.id && id.mode == q.mode && id.scopeKey == q.scopeKey
    && id.workflowVersion == q.workflowVersion && id.timeBasis == q.target.capability.timeBasis
    && id.windowFrom == slice.0 && id.windowTo == slice.1
  }

  /** A plan that succeeds has a partition of the request for every slice, and returns them in order. */
  lemma {:induction false} PlannedRows(s: Store, q: PlanRequest, slices: seq<(Instant, Instant)>, now: Instant, i: nat)
    requires Inv(s) && PlanAll(s, q, slices, now).1.Ok? && i < |slices|
    ensures var (t, rows) := (PlanAll(s, q, slices, now).0, PlanAll(s, q, slices, now).1.value);
            && |rows| == |slices|
            && exists id :: id in t.partitions && Serves(id, q, slices[i]) && t.partitions[id] == rows[i]
    decreases |slices|
  {
    var id := PlanFor(q, slices[0]);
    var o := PlanPartition(s, id, now);
    PlanKeepsInv(s, id, now);
    var rest := PlanAll(o.store, q, slices[1..], now);
    PlannedRowStays(o.store, q, slices[1..], now, id);
    if |slices| > 1 { PlannedRows(o.store, q, slices[1..], now, if i > 0 then i - 1 else 0); }
    if i > 0 {
      var (t, rows) := (rest.0, rest.1.value);
      var p :| p in t.partitions && Serves(p, q, slices[1..][i - 1]) && t.partitions[p] == rows[i - 1];
      assert slices[1..][i - 1] == slices[i];
      assert Serves(p, q, slices[i]);
    } else {
      assert Serves(id, q, slices[0]);
    }
  }

  lemma {:induction false} PlannedRowStays(
      s: Store, q: PlanRequest, slices: seq<(Instant, Instant)>, now: Instant, id: PartitionId)
    requires id in s.partitions
    ensures var t := PlanAll(s, q, slices, now).0; id in t.partitions && t.partitions[id] == s.partitions[id]
    decreases |slices|
  {
    if slices != [] {
      var o := PlanPartition(s, PlanFor(q, slices[0]), now);
      if o.Done? { PlannedRowStays(o.store, q, slices[1..], now, id); }
    }
  }

  /** After a backfill, every instant of its window lies in a partition of the request. */
  lemma PlanCovers(s: Store, q: PlanRequest, now: Instant, t: Instant)
    requires Reachable(s) && q.sliceMs > 0 && q.window.Some? && q.window.value.0 <= t < q.window.value.1
    requires PlanAll(s, q, Slices(q.window.value.0, q.window.value.1, q.sliceMs), now).1.Ok?
    ensures var after := PlanAll(s, q, Slices(q.window.value.0, q.window.value.1, q.sliceMs), now).0;
            exists id :: id in after.partitions && Serves(id, q, (id.windowFrom, id.windowTo))
                         && id.windowFrom <= t < id.windowTo
  {
    var slices := Slices(q.window.value.0, q.window.value.1, q.sliceMs);
    EachInstantOnce(q.window.value.0, q.window.value.1, q.sliceMs, t);
    var i: nat :| i in Holders(slices, t);
    ReachableInv(s);
    PlannedRows(s, q, slices, now, i);
  }

  /** A backfill is refused for a target not collectable, without history to go back in, or without a window. */
  lemma BackfillRefusedIff(q: PlanRequest)
    ensures BackfillError(q) ==
            if !(q.target.enabled && q.target.policy.approved && q.target.policy.fetch && q.target.policy.store
                 && q.target.capability.canCollect && q.target.capability.reviewed) then Some(PolicyBlocked)
            else if q.target.capability.historyMode == FeedOnly || q.target.capability.historyMode == SnapshotOnly
                    || q.window == None || q.window.value.1 <= q.window.value.0 then Some(InvalidWindow)
            else None
  {}

  /** A plan that fails has planned the slices before the one that was rejected, and nothing after it. */
  lemma {:induction false} PlanStopsAt(s: Store, q: PlanRequest, slices: seq<(Instant, Instant)>, now: Instant)
    returns (i: nat)
    requires PlanAll(s, q, slices, now).1.Err?
    ensures i < |slices|
    ensures var before := PlanAll(s, q, slices[..i], now);
            && before.1.Ok? && before.0 == PlanAll(s, q, slices, now).0
            && PlanPartition(before.0, PlanFor(q, slices[i]), now) == Rejected(PlanAll(s, q, slices, now).1.error)
    decreases |slices|
  {
    var o := PlanPartition(s, PlanFor(q, slices[0]), now);
    if o.Done? {
      var j := PlanStopsAt(o.store, q, slices[1..], now);
      i := j + 1;
      assert slices[..i][0] == slices[0] && slices[..i][1..] == slices[1..][..j];
    } else {
      i := 0;
      assert slices[..0] == [];
    }
  }
}
