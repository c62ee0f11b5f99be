/**
  The durable collection protocol: partitions, runs, page attempts, checkpoints, raw items,
  memberships and the delivery outbox, and every repository method as one atomic step.

  Each step is a function from the store to an `Outcome`. `Rejected` is a thrown error, and a thrown
  error rolls its transaction back, so it carries no store.

  Rows are never deleted and their natural keys are unique, so a row's id and its natural key
  determine each other; the model uses the natural key for both. A run has no natural key: its
  random id is a parameter of the step that creates it.
*/
module CollectionState {
  import opened Common

  type Instant = int
  type SourceId = nat
  type TargetId = nat
  type TargetRevisionId = nat
  type RevisionId = nat
  type RunId = nat

  // ---------- Targets ----------

  datatype Mode = Backfill | Incremental | OnDemand
  datatype TimeBasis = PublishedAt | UpdatedAt | ObservedAt
  datatype HistoryMode = HistoricalRange | PaginatedHistory | FeedOnly | SnapshotOnly

  datatype Policy = Policy(
    approved: bool, fetch: bool, store: bool, embed: bool, modelInput: bool, displayExcerpt: bool,
    verbatimOnly: bool, license: Option<string>)

  datatype Capability = Capability(
    historyMode: HistoryMode, timeBasis: TimeBasis, cursorVersion: int, canCollect: bool, reviewed: bool)

  datatype TargetRow = TargetRow(source: SourceId, enabled: bool, current: Option<TargetRevisionId>)
  datatype TargetRevision = TargetRevision(target: TargetId, policy: Policy, capability: Capability)

  /** The administered tables: sources (and whether each is enabled), targets, target revisions. */
  datatype Catalog = Catalog(
    sources: map<SourceId, bool>,
    targets: map<TargetId, TargetRow>,
    revisions: map<TargetRevisionId, TargetRevision>)

  /** A target revision joined with its target and source. */
  datatype Target = Target(
    id: TargetRevisionId, source: SourceId, enabled: bool, policy: Policy, capability: Capability)

  function ReadTarget(c: Catalog, id: TargetRevisionId): Option<Target> {
    if id !in c.revisions then None else
    var revision := c.revisions[id];
    if revision.target !in c.targets then None else
    var target := c.targets[revision.target];
    if target.source !in c.sources then None else
    Some(Target(id, target.source,
                c.sources[target.source] && target.enabled && target.current == Some(id),
                revision.policy, revision.capability))
  }

  predicate Collectable(t: Target) {
    && t.enabled
    && t.policy.approved && t.policy.fetch && t.policy.store
    && t.capability.canCollect && t.capability.reviewed
  }

  // ---------- Partitions and pages ----------

  /** What identifies a partition: the hash of all these fields is its natural key. */
  datatype PartitionId = PartitionId(
    target: TargetRevisionId, mode: Mode, scopeKey: string, windowFrom: Instant, windowTo: Instant,
    timeBasis: TimeBasis, workflowVersion: string)

  datatype PartitionState = Pending | Running | Deferred | Completed | Partial | Failed | Cancelled

  /** An encoded cursor names the partition and the cursor version it was made for. */
  datatype Cursor = Cursor(key: PartitionId, version: int, value: string) | Garbled(text: string)

  datatype Partition = Partition(
    state: PartitionState, pageSequence: nat, cursor: Option<Cursor>, leaseEpoch: nat,
    leaseUntil: Option<Instant>, run: Option<RunId>, nextDueAt: Instant, reason: Option<string>,
    attempts: nat)

  datatype RunStatus = RunRunning | RunSucceeded | RunFailed
  datatype Run = Run(
    status: RunStatus, startedAt: Instant, cursorBefore: Option<Cursor>, cursorAfter: Option<Cursor>)

  datatype Attempt = Attempt(partition: PartitionId, pageSequence: nat, leaseEpoch: nat)

  datatype Disposition = Continue | Complete | Defer | Part

  datatype Checkpoint = Checkpoint(
    leaseEpoch: nat, cursorBefore: Option<Cursor>, cursorAfter: Option<Cursor>,
    disposition: Disposition, retained: nat)

  // ---------- Items ----------

  /** The identity of a raw row: the same source, external id and payload hash is the same row. */
  datatype RawId = RawId(source: SourceId, externalId: string, payloadHash: string)
  datatype RawItem = RawItem(run: RunId, rights: Policy, collectedAt: Instant)
  datatype Membership = Membership(run: RunId, revision: Option<RevisionId>, acquiredAt: Instant)

  /** Rights an item declares; `None` is an undeclared field. */
  datatype DeclaredRights =
    | Malformed
    | Declared(approved: Option<bool>, fetch: Option<bool>, store: Option<bool>, embed: Option<bool>,
               modelInput: Option<bool>, displayExcerpt: Option<bool>,
               verbatimOnly: bool, license: Option<Option<string>>)

  datatype Item = Item(externalId: string, payloadHash: string, urlValid: bool, rights: DeclaredRights)

  /** `wellFormed` stands for the type, length and pattern checks on the result's scalar fields. */
  datatype PageResult = PageResult(
    items: seq<Item>, nextCursor: Option<Cursor>, disposition: Disposition, reason: Option<string>,
    retryAt: Option<Instant>, wellFormed: bool)

  // ---------- Outbox ----------

  datatype DeliveryKey =
    | CollectionPage(partition: PartitionId, pageSequence: nat)
    | Normalization(raw: RawId, workflowVersion: string)
    | Embedding(revision: RevisionId)

  datatype Delivery = Delivery(
    partition: PartitionId, pageSequence: nat, notBefore: Instant, sentAt: Option<Instant>,
    completedAt: Option<Instant>, leaseEpoch: nat, leaseUntil: Option<Instant>)

  type Outbox = map<DeliveryKey, Delivery>

  datatype Store = Store(
    catalog: Catalog,
    partitions: map<PartitionId, Partition>,
    runs: map<RunId, Run>,
    attempts: map<RunId, Attempt>,
    checkpoints: map<(PartitionId, nat), Checkpoint>,
    rawItems: map<RawId, RawItem>,
    memberships: map<(PartitionId, RawId), Membership>,
    revisions: seq<(RawId, RevisionId)>,   // document revisions, oldest first
    outbox: Outbox)

  const EMPTY := Store(Catalog(map[], map[], map[]), map[], map[], map[], map[], map[], map[], [], map[])

  /** What a worker holds after a claim: the claimed row, the target as read then, and the run. */
  datatype Claim = Claim(id: PartitionId, row: Partition, target: Target, run: RunId)

  datatype Error =
    | InvalidWindow | InvalidCursor | StaleLease | PolicyBlocked | InvalidPage | NotFound | InvalidState
    | InvalidReplay
    | Constraint   // a unique or check constraint of the schema

  datatype Outcome<+T> = Done(store: Store, value: T) | Rejected(error: Error)

  /** Rolled back: a rejected transaction leaves the store as it was. */
  function After<T>(s: Store, o: Outcome<T>): Store {
    if o.Done? then o.store else s
  }

  // ---------- Shared pieces ----------

  predicate Live(state: PartitionState) {
    state in {Pending, Running, Deferred}
  }

  predicate ValidLease(leaseMs: int) {
    1000 <= leaseMs <= 300000
  }

  predicate Leased(until: Option<Instant>, now: Instant) {
    until.Some? && until.value > now
  }

  predicate DecodesFor(cursor: Option<Cursor>, id: PartitionId, version: int) {
    cursor.None? || (cursor.value.Cursor? && cursor.value.key == id && cursor.value.version == version)
  }

  /** Insert unless the natural key is already there. */
  function Insert(outbox: Outbox, key: DeliveryKey, row: Delivery): Outbox {
    if key in outbox then outbox else outbox[key := row]
  }

  function NewDelivery(id: PartitionId, pageSequence: nat, notBefore: Instant): Delivery {
    Delivery(id, pageSequence, notBefore, None, None, 0, None)
  }

  function InsertPage(outbox: Outbox, id: PartitionId, pageSequence: nat, notBefore: Instant): Outbox {
    Insert(outbox, CollectionPage(id, pageSequence), NewDelivery(id, pageSequence, notBefore))
  }

  // ---------- Steps on partitions ----------

  /** The partition unless it is there, and the delivery of its current page unless it is there or has ended. */
  function InsertRows(s: Store, id: PartitionId, now: Instant): (t: Store)
    ensures id in t.partitions
  {
    var created := Partition(Pending, 0, None, 0, None, None, now, None, 0);
    var partitions := if id in s.partitions then s.partitions else s.partitions[id := created];
    var row := partitions[id];
    var outbox := if row.state in {Completed, Partial, Cancelled, Failed} then s.outbox
                  else InsertPage(s.outbox, id, row.pageSequence, row.nextDueAt);
    s.(partitions := partitions, outbox := outbox)
  }

  function PlanPartition(s: Store, id: PartitionId, now: Instant): Outcome<Partition> {
    if id.windowFrom >= id.windowTo then Rejected(InvalidWindow) else
    match ReadTarget(s.catalog, id.target)
    case None => Rejected(NotFound)
    case Some(target) =>
      if !Collectable(target) then Rejected(PolicyBlocked)
      else if target.capability.timeBasis != id.timeBasis then Rejected(InvalidWindow)
      else
        var planned := InsertRows(s, id, now);
        Done(planned, planned.partitions[id])
  }

  predicate Claimable(row: Partition, pageSequence: nat, now: Instant) {
    && row.pageSequence == pageSequence
    && Live(row.state)
    && row.nextDueAt <= now
    && !Leased(row.leaseUntil, now)
  }

  predicate EpochTaken(attempts: map<RunId, Attempt>, id: PartitionId, epoch: nat) {
    exists r :: r in attempts && attempts[r].partition == id && attempts[r].leaseEpoch == epoch
  }

  function ClaimPage(s: Store, id: PartitionId, pageSequence: nat, now: Instant, leaseMs: int, run: RunId)
    : Outcome<Option<Claim>>
  {
    if !ValidLease(leaseMs) then Rejected(InvalidState)
    else if id !in s.partitions then Done(s, None)
    else
      match ReadTarget(s.catalog, id.target)
      case None => Done(s, None)
      case Some(target) =>
        if !Collectable(target) then Rejected(PolicyBlocked) else
        var row := s.partitions[id];
        if !Claimable(row, pageSequence, now) then Done(s, None)
        else if !DecodesFor(row.cursor, id, target.capability.cursorVersion) then Rejected(InvalidCursor)
        else if run in s.runs || run in s.attempts then Rejected(Constraint)
        else
          var started := s.runs[run := Run(RunRunning, now, row.cursor, None)];
          var lapsed := row.run.Some? && row.run.value in started && started[row.run.value].status == RunRunning;
          if lapsed && started[row.run.value].startedAt > now then Rejected(Constraint)
          else if EpochTaken(s.attempts, id, row.leaseEpoch + 1) then Rejected(Constraint)
          else
            var runs := if lapsed then started[row.run.value := started[row.run.value].(status := RunFailed)]
                        else started;
            var attempts := s.attempts[run := Attempt(id, row.pageSequence, row.leaseEpoch + 1)];
            var claimed := row.(state := Running, leaseEpoch := row.leaseEpoch + 1,
                                leaseUntil := Some(now + leaseMs), run := Some(run),
                                attempts := row.attempts + 1);
            Done(s.(runs := runs, attempts := attempts, partitions := s.partitions[id := claimed]),
                 Some(Claim(id, claimed, target, run)))
  }

  /** The fence every write through a claim passes. */
  predicate Fence(s: Store, claim: Claim, now: Instant) {
    && claim.id in s.partitions
    && var row := s.partitions[claim.id];
    && claim.id.target == claim.target.id
    && row.state == Running
    && row.pageSequence == claim.row.pageSequence
    && row.leaseEpoch == claim.row.leaseEpoch
    && Leased(row.leaseUntil, now)
    && row.run == Some(claim.run)
  }

  function RenewPage(s: Store, claim: Claim, now: Instant, leaseMs: int): Outcome<bool> {
    if !ValidLease(leaseMs) then Rejected(InvalidState) else
    match ReadTarget(s.catalog, claim.target.id)
    case None => Done(s, false)
    case Some(target) =>
      if !Collectable(target) then Rejected(PolicyBlocked)
      else if !Fence(s, claim, now) then Rejected(StaleLease)
      else
        var row := s.partitions[claim.id].(leaseUntil := Some(now + leaseMs));
        Done(s.(partitions := s.partitions[claim.id := row]), true)
  }

  predicate ValidPageResult(row: Partition, r: PageResult) {
    && r.wellFormed
    && (r.disposition == Continue ==> r.nextCursor.Some? && r.nextCursor != row.cursor)
    && (r.disposition == Defer ==> r.retryAt.Some?)
    && (r.disposition == Part ==> r.reason.Some?)
  }

  function And(permitted: bool, declared: Option<bool>): bool {
    permitted && declared != Some(false)
  }

  /** The rights stored with an item: the target's policy narrowed by what the item declares. */
  function NarrowRights(p: Policy, d: DeclaredRights): Policy
    requires d.Declared?
  {
    var foreign := d.license.Some? && d.license.value != p.license;
    Policy(
      And(p.approved, d.approved), And(p.fetch, d.fetch), And(p.store, d.store),
      And(p.embed, d.embed) && !foreign,
      And(p.modelInput, d.modelInput) && !foreign,
      And(p.displayExcerpt, d.displayExcerpt) && !foreign,
      p.verbatimOnly || d.verbatimOnly,
      if foreign then d.license.value else p.license)
  }

  function FirstRevision(revisions: seq<(RawId, RevisionId)>, raw: RawId): Option<RevisionId> {
    if revisions == [] then None
    else if revisions[0].0 == raw then Some(revisions[0].1)
    else FirstRevision(revisions[1..], raw)
  }

  function AcquireItem(s: Store, claim: Claim, target: Target, item: Item, now: Instant): Outcome<RawId> {
    if !item.urlValid || item.rights.Malformed? then Rejected(InvalidPage) else
    var rights := NarrowRights(target.policy, item.rights);
    if !rights.approved || !rights.fetch || !rights.store then Rejected(PolicyBlocked) else
    var raw := RawId(target.source, item.externalId, item.payloadHash);
    var rawItems := if raw in s.rawItems then s.rawItems else s.rawItems[raw := RawItem(claim.run, rights, now)];
    var member := (claim.id, raw);
    var memberships := if member in s.memberships then s.memberships
                       else s.memberships[member := Membership(claim.run, FirstRevision(s.revisions, raw), now)];
    var outbox := Insert(s.outbox, Normalization(raw, claim.id.workflowVersion),
                         NewDelivery(claim.id, claim.row.pageSequence, now));
    Done(s.(rawItems := rawItems, memberships := memberships, outbox := outbox), raw)
  }

  function AcquireItems(s: Store, claim: Claim, target: Target, items: seq<Item>, now: Instant): Outcome<()>
    decreases |items|
  {
    if items == [] then Done(s, ()) else
    match AcquireItem(s, claim, target, items[0], now)
    case Rejected(e) => Rejected(e)
    case Done(s1, _) => AcquireItems(s1, claim, target, items[1..], now)
  }

  function NextState(d: Disposition): PartitionState {
    match d
    case Continue => Pending
    case Complete => Completed
    case Defer => Deferred
    case Part => Partial
  }

  function SetCompleted(outbox: Outbox, key: DeliveryKey, now: Instant): Outbox {
    if key in outbox then outbox[key := outbox[key].(completedAt := Some(now))] else outbox
  }

  /** The part of a commit after the items: checkpoint, partition, run and deliveries. */
  function CommitRows(s: Store, claim: Claim, r: PageResult, now: Instant): Outcome<()>
    requires claim.id in s.partitions && claim.run in s.runs
  {
    var row := s.partitions[claim.id];
    var page := (claim.id, row.pageSequence);
    if page in s.checkpoints || s.runs[claim.run].startedAt > now then Rejected(Constraint) else
    var checkpoint := Checkpoint(row.leaseEpoch, row.cursor, r.nextCursor, r.disposition, |r.items|);
    var dueAt := if r.retryAt.Some? then r.retryAt.value else now;
    var next := row.(pageSequence := row.pageSequence + 1, cursor := r.nextCursor,
                     state := NextState(r.disposition), reason := r.reason,
                     leaseUntil := None, nextDueAt := dueAt);
    var closed := SetCompleted(s.outbox, CollectionPage(claim.id, row.pageSequence), now);
    var outbox := if Live(next.state) then InsertPage(closed, claim.id, next.pageSequence, dueAt) else closed;
    Done(s.(checkpoints := s.checkpoints[page := checkpoint],
            partitions := s.partitions[claim.id := next],
            runs := s.runs[claim.run := s.runs[claim.run].(status := RunSucceeded, cursorAfter := r.nextCursor)],
            outbox := outbox), ())
  }

  function CommitPage(s: Store, claim: Claim, r: PageResult, now: Instant): Outcome<()> {
    if !ValidPageResult(claim.row, r) then Rejected(InvalidPage)
    else if r.retryAt.Some? && r.retryAt.value <= now then Rejected(InvalidPage)
    else if r.disposition == Complete && claim.id.mode == Backfill
            && claim.target.capability.historyMode in {FeedOnly, SnapshotOnly} then Rejected(InvalidPage)
    else
      match ReadTarget(s.catalog, claim.target.id)
      case None => Rejected(NotFound)
      case Some(target) =>
        if !Collectable(target) then Rejected(PolicyBlocked)
        else if !Fence(s, claim, now) then Rejected(StaleLease)
        else if !DecodesFor(r.nextCursor, claim.id, target.capability.cursorVersion) then Rejected(InvalidCursor)
        else
          match AcquireItems(s, claim, target, r.items, now)
          case Rejected(e) => Rejected(e)
          case Done(s1, _) =>
            if claim.id !in s1.partitions || claim.run !in s1.runs then Rejected(Constraint)
            else CommitRows(s1, claim, r, now)
  }

  /** The rows of a failed page: deferred to its retry time, or failed for good. */
  function FailRows(s: Store, claim: Claim, reason: string, retryAt: Option<Instant>, now: Instant): Store
    requires claim.id in s.partitions && claim.run in s.runs
  {
    var row := s.partitions[claim.id];
    var dueAt := if retryAt.Some? then retryAt.value else now;
    var next := row.(state := if retryAt.Some? then Deferred else Failed,
                     reason := Some(if |reason| > 128 then reason[..128] else reason),
                     nextDueAt := dueAt, leaseUntil := None);
    var key := CollectionPage(claim.id, row.pageSequence);
    var outbox :=
      if key !in s.outbox then s.outbox
      else s.outbox[key := s.outbox[key].(notBefore := dueAt, sentAt := None,
                                          completedAt := if retryAt.Some? then None else Some(now))];
    s.(partitions := s.partitions[claim.id := next],
       runs := s.runs[claim.run := s.runs[claim.run].(status := RunFailed)],
       outbox := outbox)
  }

  function FailPage(s: Store, claim: Claim, reason: string, retryAt: Option<Instant>, now: Instant): Outcome<()> {
    if !Fence(s, claim, now) then Rejected(StaleLease)
    else if claim.run !in s.runs || s.runs[claim.run].startedAt > now then Rejected(Constraint)
    else Done(FailRows(s, claim, reason, retryAt, now), ())
  }

  function ResumePartition(s: Store, id: PartitionId, now: Instant): Outcome<Partition> {
    if id !in s.partitions then Rejected(NotFound) else
    match ReadTarget(s.catalog, id.target)
    case None => Rejected(NotFound)
    case Some(target) =>
      if !Collectable(target) then Rejected(PolicyBlocked) else
      var row := s.partitions[id];
      if row.state in {Completed, Partial} || Leased(row.leaseUntil, now) then Rejected(InvalidState) else
      var resumed := row.(state := Pending, nextDueAt := now, leaseUntil := None, reason := None);
      var key := CollectionPage(id, row.pageSequence);
      var inserted := InsertPage(s.outbox, id, row.pageSequence, now);
      var reopened := inserted[key].(completedAt := None, sentAt := None, notBefore := now);
      Done(s.(partitions := s.partitions[id := resumed], outbox := inserted[key := reopened]), resumed)
  }

  // ---------- Steps on deliveries ----------

  const RESEND_GAP_MS := 30000

  /** Whether the dispatcher may hand the partition's deliveries out, under the target's current policy. */
  predicate Dispatchable(c: Catalog, id: PartitionId, mode: Option<Mode>) {
    && id.target in c.revisions
    && c.revisions[id.target].target in c.targets
    && var target := c.targets[c.revisions[id.target].target];
    && target.source in c.sources && c.sources[target.source]
    && target.enabled
    && target.current.Some? && target.current.value in c.revisions
    && (mode.Some? ==> id.mode == mode.value)
    && var policy := c.revisions[target.current.value].policy;
    && policy.approved && policy.fetch && policy.store
  }

  predicate Due(s: Store, key: DeliveryKey, now: Instant, mode: Option<Mode>) {
    && key in s.outbox
    && var d := s.outbox[key];
    && d.completedAt.None?
    && d.notBefore <= now
    && !Leased(d.leaseUntil, now)
    && d.partition in s.partitions
    && Dispatchable(s.catalog, d.partition, mode)
    && (d.sentAt.None? || d.sentAt.value <= now - RESEND_GAP_MS)
  }

  predicate ValidBatch(limit: int, leaseMs: int) {
    1 <= limit <= 100 && ValidLease(leaseMs)
  }

  function Lease(d: Delivery, now: Instant, leaseMs: int): Delivery {
    d.(leaseEpoch := d.leaseEpoch + 1, leaseUntil := Some(now + leaseMs))
  }

  /** Lease the picked rows one after the other. */
  function LeaseAll(outbox: Outbox, picked: seq<DeliveryKey>, now: Instant, leaseMs: int): Outbox {
    if picked == [] then outbox
    else if picked[0] !in outbox then LeaseAll(outbox, picked[1..], now, leaseMs)
    else LeaseAll(outbox[picked[0] := Lease(outbox[picked[0]], now, leaseMs)], picked[1..], now, leaseMs)
  }

  predicate Distinct<T(==)>(q: seq<T>) {
    forall i, j :: 0 <= i < j < |q| ==> q[i] != q[j]
  }

  /** A batch a dispatcher may be given: distinct due rows, at most `limit` of them. */
  predicate DueBatch(s: Store, picked: seq<DeliveryKey>, now: Instant, limit: int, mode: Option<Mode>) {
    |picked| <= limit && Distinct(picked) && forall k :: k in picked ==> Due(s, k, now, mode)
  }

  function LeaseBatch(s: Store, picked: seq<DeliveryKey>, now: Instant, limit: int, leaseMs: int, mode: Option<Mode>)
    : Outcome<seq<DeliveryKey>>
  {
    if !ValidBatch(limit, leaseMs) || !DueBatch(s, picked, now, limit, mode) then Rejected(InvalidState)
    else Done(s.(outbox := LeaseAll(s.outbox, picked, now, leaseMs)), picked)
  }

  function MarkSent(s: Store, key: DeliveryKey, leaseEpoch: nat, now: Instant): Outcome<()> {
    if key !in s.outbox then Rejected(StaleLease) else
    var d := s.outbox[key];
    if d.leaseEpoch != leaseEpoch || !Leased(d.leaseUntil, now) || d.completedAt.Some? then Rejected(StaleLease)
    else Done(s.(outbox := s.outbox[key := d.(sentAt := Some(now), leaseUntil := None)]), ())
  }

  /** `evidence` is what the query over documents, chunks and embeddings finds for the other two kinds. */
  function CompleteDelivery(s: Store, key: DeliveryKey, now: Instant, evidence: bool): Outcome<()> {
    if key !in s.outbox then Rejected(NotFound) else
    var d := s.outbox[key];
    if d.completedAt.Some? then Done(s, ()) else
    var complete := if key.CollectionPage? then (d.partition, d.pageSequence) in s.checkpoints else evidence;
    if !complete then Rejected(InvalidState)
    else Done(s.(outbox := s.outbox[key := d.(completedAt := Some(now), leaseUntil := None)]), ())
  }

  /** Every membership of the raw item gets the revision. */
  function AttachTo(memberships: map<(PartitionId, RawId), Membership>, raw: RawId, revision: RevisionId)
    : map<(PartitionId, RawId), Membership>
  {
    map m | m in memberships :: if m.1 == raw then memberships[m].(revision := Some(revision)) else memberships[m]
  }

  /** One insert for each membership; the natural key names only the revision, so the first one lands. */
  function InsertEmbeddings(outbox: Outbox, revision: RevisionId, members: seq<PartitionId>, now: Instant): Outbox
    decreases |members|
  {
    if members == [] then outbox
    else InsertEmbeddings(Insert(outbox, Embedding(revision), NewDelivery(members[0], 0, now)),
                          revision, members[1..], now)
  }

  /** The rows of a query, in the order it happens to return them. */
  predicate Lists<T(==)>(q: seq<T>, rows: set<T>) {
    && Distinct(q)
    && (forall x :: x in q ==> x in rows)
    && (forall x :: x in rows ==> x in q)
  }

  /** The partitions that acquired the raw item. */
  function MembersOf(s: Store, raw: RawId): set<PartitionId> {
    set m | m in s.memberships && m.1 == raw :: m.0
  }

  /** `members` are the memberships as the query returns them; the answer of another query is no such step. */
  function AttachRevision(s: Store, raw: RawId, revision: RevisionId, members: seq<PartitionId>, now: Instant)
    : Outcome<()>
  {
    if (raw, revision) !in s.revisions then Rejected(NotFound)
    else if !Lists(members, MembersOf(s, raw)) then Rejected(InvalidState)
    else
      Done(s.(memberships := AttachTo(s.memberships, raw, revision),
              outbox := InsertEmbeddings(s.outbox, revision, members, now)), ())
  }

  /** What a replay is asked for: all items acquired by a run, or one item. */
  datatype ReplayScope = OfRun(run: RunId) | OfItem(raw: RawId)

  predicate InScope(s: Store, scope: ReplayScope, m: (PartitionId, RawId))
    requires m in s.memberships
  {
    && m.0 in s.partitions && m.1 in s.rawItems
    && match scope case OfRun(run) => s.memberships[m].run == run case OfItem(raw) => m.1 == raw
  }

  function ScopeRows(s: Store, scope: ReplayScope): set<(PartitionId, RawId)> {
    set m | m in s.memberships && InScope(s, scope, m)
  }

  /** Whether every delivery was there before, and the deliveries themselves, each once, as they came up. */
  datatype Replayed = Replayed(duplicate: bool, deliveries: seq<DeliveryKey>)

  /** Those of `b` that are not in `a`, in order. */
  function Without(b: seq<DeliveryKey>, a: seq<DeliveryKey>): seq<DeliveryKey> {
    if b == [] then [] else (if b[0] in a then [] else [b[0]]) + Without(b[1..], a)
  }

  function Together(a: Replayed, b: Replayed): Replayed {
    Replayed(a.duplicate && b.duplicate, a.deliveries + Without(b.deliveries, a.deliveries))
  }

  /** One row of a replay: the normalization delivery is inserted, or made due again unless completed. */
  function ReplanRow(s: Store, member: (PartitionId, RawId), requestedAt: Instant): Outcome<Replayed> {
    if member.0 !in s.partitions then Rejected(NotFound) else
    match ReadTarget(s.catalog, member.0.target)
    case None => Rejected(NotFound)
    case Some(target) =>
      if !Collectable(target) then Rejected(PolicyBlocked) else
      var key := Normalization(member.1, member.0.workflowVersion);
      var inserted := Insert(s.outbox, key,
                             NewDelivery(member.0, s.partitions[member.0].pageSequence, requestedAt));
      var d := inserted[key];
      var outbox := if d.completedAt.Some? then inserted
                    else inserted[key := d.(sentAt := None, notBefore := requestedAt)];
      Done(s.(outbox := outbox), Replayed(key in s.outbox, [key]))
  }

  /** The rows in the order the query returns them. */
  function ReplanRows(s: Store, members: seq<(PartitionId, RawId)>, requestedAt: Instant): Outcome<Replayed>
    decreases |members|
  {
    if members == [] then Done(s, Replayed(true, [])) else
    match ReplanRow(s, members[0], requestedAt)
    case Rejected(e) => Rejected(e)
    case Done(s1, first) =>
      match ReplanRows(s1, members[1..], requestedAt)
      case Rejected(e) => Rejected(e)
      case Done(s2, rest) => Done(s2, Together(first, rest))
  }

  function Replan(s: Store, scope: ReplayScope, members: seq<(PartitionId, RawId)>, requestedAt: Instant)
    : Outcome<Replayed>
  {
    var found := |ScopeRows(s, scope)|;
    if found == 0 || found > 500 then Rejected(InvalidReplay)
    else if !Lists(members, ScopeRows(s, scope)) then Rejected(InvalidState)
    else ReplanRows(s, members, requestedAt)
  }
}
