/** One cycle of the dispatcher: lease a batch, then mark and handle its deliveries one by one among other workers. */
module OutboxDispatcher {
  import opened Common
  import opened CollectionState
  import opened CollectionHistory
  import opened CollectionRepository
  import opened DeliveryClaims
  import S = CollectionState

  /** With an enqueue function deliveries are only passed on; else they are marked sent and handled here. */
  datatype Handlers = Enqueue | Direct(normalization: bool, embedding: bool)

  /** What others do before a delivery's turn, its clock reading, what they do meanwhile, and how the handling ends. */
  datatype Turn = Turn(before: seq<Action>, markedAt: Instant, during: seq<Action>, threw: bool)

  datatype Fate = Processed | Broken | Unhandled

  datatype Cycle = Cycle(claimed: nat, processed: nat, failures: seq<DeliveryKey>)

  predicate Handles(h: Handlers, key: DeliveryKey) {
    h.Enqueue? || key.CollectionPage? || (key.Normalization? && h.normalization) || (key.Embedding? && h.embedding)
  }

  predicate Marks(s: Store, key: DeliveryKey, epoch: nat, turn: Turn) {
    MarkSent(Exec(s, turn.before), key, epoch, turn.markedAt).Done?
  }

  /** The steps of the protocol that a delivery's turn amounts to. */
  function TurnSteps(s: Store, h: Handlers, key: DeliveryKey, epoch: nat, turn: Turn): seq<Action> {
    if h.Enqueue? then turn.before + turn.during
    else turn.before + [Sent(key, epoch, turn.markedAt)]
         + if Marks(s, key, epoch, turn) && Handles(h, key) then turn.during else []
  }

  function TurnFate(s: Store, h: Handlers, key: DeliveryKey, epoch: nat, turn: Turn): Fate {
    if h.Direct? && !Marks(s, key, epoch, turn) then Broken
    else if !Handles(h, key) then Unhandled
    else if turn.threw then Broken else Processed
  }

  type Turns = nat -> Turn

  /** The turns from the `i`th on: all their steps, and each delivery's fate. */
  function Dispatch(s: Store, h: Handlers, rows: seq<(DeliveryKey, nat)>, turns: Turns, i: nat)
    : (r: (seq<Action>, seq<Fate>))
    requires i <= |rows|
    ensures |r.1| == |rows| - i
    decreases |rows| - i
  {
    if i == |rows| then ([], []) else
    var (key, epoch) := rows[i];
    var steps := TurnSteps(s, h, key, epoch, turns(i));
    var rest := Dispatch(Exec(s, steps), h, rows, turns, i + 1);
    (steps + rest.0, [TurnFate(s, h, key, epoch, turns(i))] + rest.1)
  }

  function CountProcessed(fates: seq<Fate>): nat {
    if fates == [] then 0 else (if fates[0].Processed? then 1 else 0) + CountProcessed(fates[1..])
  }

  function FailedKeys(rows: seq<(DeliveryKey, nat)>, fates: seq<Fate>): seq<DeliveryKey>
    requires |rows| == |fates|
  {
    if rows == [] then [] else (if fates[0].Broken? then [rows[0].0] else []) + FailedKeys(rows[1..], fates[1..])
  }

  /** The claimed keys with the epochs they were leased under. */
  function Rows(outbox: Outbox, batch: seq<DeliveryKey>): (r: seq<(DeliveryKey, nat)>)
    ensures |r| == |batch|
  {
    if batch == [] then [] else
    [(batch[0], if batch[0] in outbox then outbox[batch[0]].leaseEpoch else 0)] + Rows(outbox, batch[1..])
  }

  method TakeTurn(repo: Repository, h: Handlers, key: DeliveryKey, epoch: nat, turn: Turn) returns (fate: Fate)
    modifies repo
    ensures repo.State() == Exec(old(repo.State()), TurnSteps(old(repo.State()), h, key, epoch, turn))
    ensures fate == TurnFate(old(repo.State()), h, key, epoch, turn)
  {
    ghost var s := repo.State();
    ghost var mark := Sent(key, epoch, turn.markedAt);
    repo.Become(Exec(repo.State(), turn.before));
    ExecJoin(s, turn.before, turn.during);
    ExecJoin(s, turn.before, [mark]);
    ExecJoin(s, turn.before + [mark], turn.during);
    ExecOne(Exec(s, turn.before), mark);
    assert turn.before + [mark] + [] == turn.before + [mark];
    if h.Direct? {
      var marked := repo.MarkSent(key, epoch, turn.markedAt);
      if marked.Err? { return Broken; }
      if !Handles(h, key) { return Unhandled; }
    }
    repo.Become(Exec(repo.State(), turn.during));
    return if turn.threw then Broken else Processed;
  }

  lemma DispatchCons(s: Store, h: Handlers, rows: seq<(DeliveryKey, nat)>, turns: Turns, i: nat, next: Store)
    requires i < |rows| && next == Exec(s, TurnSteps(s, h, rows[i].0, rows[i].1, turns(i)))
    ensures var all, rest := Dispatch(s, h, rows, turns, i), Dispatch(next, h, rows, turns, i + 1);
            && all.0 == TurnSteps(s, h, rows[i].0, rows[i].1, turns(i)) + rest.0
            && all.1 == [TurnFate(s, h, rows[i].0, rows[i].1, turns(i))] + rest.1
  {}

  /** The steps still to come lead to `end`. */
  ghost predicate Leads(s: Store, h: Handlers, rows: seq<(DeliveryKey, nat)>, turns: Turns, i: nat, end: Store)
    requires i <= |rows|
  {
    Exec(s, Dispatch(s, h, rows, turns, i).0) == end
  }

  lemma LeadsOn(s: Store, h: Handlers, rows: seq<(DeliveryKey, nat)>, turns: Turns, i: nat, end: Store, next: Store)
    requires i < |rows| && Leads(s, h, rows, turns, i, end)
    requires next == Exec(s, TurnSteps(s, h, rows[i].0, rows[i].1, turns(i)))
    ensures Leads(next, h, rows, turns, i + 1, end)
  {
    DispatchCons(s, h, rows, turns, i, next);
    ExecJoin(s, TurnSteps(s, h, rows[i].0, rows[i].1, turns(i)), Dispatch(next, h, rows, turns, i + 1).0);
  }

  /** What is counted so far and the fates still to come add up to the given totals. */
  ghost predicate Adds(
      rows: seq<(DeliveryKey, nat)>, i: nat, fates: seq<Fate>, processed: nat, failures: seq<DeliveryKey>,
      total: nat, failed: seq<DeliveryKey>)
    requires i <= |rows| && |fates| == |rows| - i
  {
    processed + CountProcessed(fates) == total && failures + FailedKeys(rows[i..], fates) == failed
  }

  lemma AddsOn(rows: seq<(DeliveryKey, nat)>, i: nat, fates: seq<Fate>, processed: nat, failures: seq<DeliveryKey>,
               total: nat, failed: seq<DeliveryKey>)
    requires i < |rows| && |fates| == |rows| - i && Adds(rows, i, fates, processed, failures, total, failed)
    ensures Adds(rows, i + 1, fates[1..], if fates[0].Processed? then processed + 1 else processed,
                 if fates[0].Broken? then failures + [rows[i].0] else failures, total, failed)
  {
    assert rows[i..][0] == rows[i] && rows[i..][1..] == rows[i + 1..];
  }

  /** One turn after the other; a failure does not stop the rest. */
  method HandleAll(repo: Repository, h: Handlers, rows: seq<(DeliveryKey, nat)>, turns: Turns,
                   ghost fates: seq<Fate>, ghost end: Store)
    returns (processed: nat, failures: seq<DeliveryKey>)
    requires Leads(repo.State(), h, rows, turns, 0, end) && fates == Dispatch(repo.State(), h, rows, turns, 0).1
    modifies repo
    ensures repo.State() == end && processed == CountProcessed(fates) && failures == FailedKeys(rows, fates)
  {
    processed, failures := 0, [];
    ghost var rest := fates;
    assert rows[0..] == rows;
    for i := 0 to |rows|
      invariant Leads(repo.State(), h, rows, turns, i, end) && rest == Dispatch(repo.State(), h, rows, turns, i).1
      invariant Adds(rows, i, rest, processed, failures, CountProcessed(fates), FailedKeys(rows, fates))
    {
      ghost var before := repo.State();
      var fate := TakeTurn(repo, h, rows[i].0, rows[i].1, turns(i));
      LeadsOn(before, h, rows, turns, i, end, repo.State());
      DispatchCons(before, h, rows, turns, i, repo.State());
      AddsOn(rows, i, rest, processed, failures, CountProcessed(fates), FailedKeys(rows, fates));
      rest := rest[1..];
      if fate.Processed? {
        processed := processed + 1;
      } else if fate.Broken? {
        failures := failures + [rows[i].0];
      }
    }
    assert rows[|rows|..] == [] && rest == [];
  }

  method HandleRows(repo: Repository, h: Handlers, rows: seq<(DeliveryKey, nat)>, turns: Turns)
    returns (processed: nat, failures: seq<DeliveryKey>)
    modifies repo
    ensures var (steps, fates) := Dispatch(old(repo.State()), h, rows, turns, 0);
            && repo.State() == Exec(old(repo.State()), steps)
            && processed == CountProcessed(fates) && failures == FailedKeys(rows, fates)
  {
    ghost var all := Dispatch(repo.State(), h, rows, turns, 0);
    processed, failures := HandleAll(repo, h, rows, turns, all.1, Exec(repo.State(), all.0));
  }

  method DispatchBatch(repo: Repository, ids: IdOrder, now: Instant, limit: nat, leaseMs: int, mode: Option<Mode>,
                       h: Handlers, turns: Turns)
    returns (r: Result<Cycle, Error>)
    requires Injective(ids)
    modifies repo
    ensures !ValidBatch(limit, leaseMs) ==> r == Err(InvalidState) && repo.State() == old(repo.State())
    ensures ValidBatch(limit, leaseMs) ==>
              var batch := NextBatch(old(repo.State()), ids, now, limit, mode);
              var s := After(old(repo.State()), LeaseBatch(old(repo.State()), batch, now, limit, leaseMs, mode));
              var rows := Rows(s.outbox, batch);
              var (steps, fates) := Dispatch(s, h, rows, turns, 0);
              && repo.State() == Exec(s, steps)
              && r == Ok(Cycle(|batch|, CountProcessed(fates), FailedKeys(rows, fates)))
    ensures Reachable(old(repo.State())) ==> Reachable(repo.State())
  {
    var claimed := repo.ClaimDeliveries(ids, now, limit, leaseMs, mode);
    if claimed.Err? { return Err(claimed.error); }
    var rows := Rows(repo.outbox, claimed.value);
    ExecReachable(repo.State(), Dispatch(repo.State(), h, rows, turns, 0).0);
    var processed, failures := HandleRows(repo, h, rows, turns);
    return Ok(Cycle(|claimed.value|, processed, failures));
  }

  // ---------- A delivery is handled once for each lease ----------

  lemma {:induction false} ExecDelivery(s: Store, trace: seq<Action>, key: DeliveryKey)
    requires key in s.outbox
    ensures key in Exec(s, trace).outbox && DeliveryAdvances(s.outbox[key], Exec(s, trace).outbox[key])
    decreases |trace|
  {
    if trace != [] {
      StepDelivery(s, trace[0], key);
      ExecDelivery(Step(s, trace[0]), trace[1..], key);
    }
  }

  /** The lease under this epoch is used up: whoever marks the delivery sent under it is refused. */
  ghost predicate Spent(s: Store, key: DeliveryKey, epoch: nat) {
    key in s.outbox
    && var d := s.outbox[key];
       d.leaseEpoch > epoch || (d.leaseEpoch == epoch && d.leaseUntil.None?)
  }

  lemma SpentStays(s: Store, trace: seq<Action>, key: DeliveryKey, epoch: nat)
    requires Spent(s, key, epoch)
    ensures Spent(Exec(s, trace), key, epoch)
  {
    ExecDelivery(s, trace, key);
  }

  lemma MarkingSpends(s: Store, h: Handlers, key: DeliveryKey, epoch: nat, turn: Turn)
    requires h.Direct? && Marks(s, key, epoch, turn)
    ensures Spent(Exec(s, TurnSteps(s, h, key, epoch, turn)), key, epoch)
  {
    var mark := Sent(key, epoch, turn.markedAt);
    var tail := if Handles(h, key) then turn.during else [];
    var mid := Exec(s, turn.before);
    var marked := Step(mid, mark);
    ExecJoin(s, turn.before, [mark]);
    ExecJoin(s, turn.before + [mark], tail);
    ExecOne(mid, mark);
    assert Spent(marked, key, epoch);
    SpentStays(marked, tail, key, epoch);
  }

  /**
    A dispatcher without an enqueue function handles a delivery only after marking it sent, so once it was
    handled under a lease, no dispatcher handles it again under that lease, whatever happens in between: the
    later turn fails or never was one.
  */
  lemma HandledOncePerLease(
      s: Store, h: Handlers, key: DeliveryKey, epoch: nat, turn: Turn, between: seq<Action>, again: Turn)
    requires h.Direct? && TurnFate(s, h, key, epoch, turn).Processed?
    ensures var t := Exec(Exec(s, TurnSteps(s, h, key, epoch, turn)), between);
            TurnFate(t, h, key, epoch, again) == Broken && !Marks(t, key, epoch, again)
  {
    var t1 := Exec(s, TurnSteps(s, h, key, epoch, turn));
    MarkingSpends(s, h, key, epoch, turn);
    SpentStays(t1, between, key, epoch);
    SpentStays(Exec(t1, between), again.before, key, epoch);
  }

  lemma {:induction false} EveryDeliveryCounted(rows: seq<(DeliveryKey, nat)>, fates: seq<Fate>)
    requires |rows| == |fates|
    ensures |rows| == CountProcessed(fates) + |FailedKeys(rows, fates)| + CountUnhandled(fates)
  {
    if rows != [] { EveryDeliveryCounted(rows[1..], fates[1..]); }
  }

  function CountUnhandled(fates: seq<Fate>): nat {
    if fates == [] then 0 else (if fates[0].Unhandled? then 1 else 0) + CountUnhandled(fates[1..])
  }

  // ---------- A cycle nobody disturbs ----------

  lemma {:induction false} RowsAre(outbox: Outbox, batch: seq<DeliveryKey>, i: nat)
    requires i < |batch| && forall k :: k in batch ==> k in outbox
    ensures Rows(outbox, batch)[i] == (batch[i], outbox[batch[i]].leaseEpoch)
  {
    if i > 0 {
      assert batch[1..][i - 1] == batch[i];
      RowsAre(outbox, batch[1..], i - 1);
    }
  }

  /** The row's delivery is leased under the row's epoch until `end`, and not completed. */
  ghost predicate Held(s: Store, row: (DeliveryKey, nat), end: Instant) {
    && row.0 in s.outbox && s.outbox[row.0].leaseEpoch == row.1
    && s.outbox[row.0].leaseUntil == Some(end) && s.outbox[row.0].completedAt.None?
  }

  /** Others do nothing around the turn, the mark is in time, and the handling does not throw. */
  predicate Quiet(turn: Turn, end: Instant) {
    turn.before == [] && turn.during == [] && !turn.threw && turn.markedAt < end
  }

  lemma QuietTurn(s: Store, h: Handlers, row: (DeliveryKey, nat), turn: Turn, end: Instant)
    requires h.Direct? && Handles(h, row.0) && Held(s, row, end) && Quiet(turn, end)
    ensures TurnSteps(s, h, row.0, row.1, turn) == [Sent(row.0, row.1, turn.markedAt)]
    ensures TurnFate(s, h, row.0, row.1, turn) == Processed
    ensures Exec(s, TurnSteps(s, h, row.0, row.1, turn)) ==
            s.(outbox := s.outbox[row.0 := s.outbox[row.0].(sentAt := Some(turn.markedAt), leaseUntil := None)])
  {
    assert [] + [Sent(row.0, row.1, turn.markedAt)] + [] == [Sent(row.0, row.1, turn.markedAt)];
    ExecOne(s, Sent(row.0, row.1, turn.markedAt));
  }

  predicate OneRowEach(rows: seq<(DeliveryKey, nat)>) {
    forall i, j :: 0 <= i < j < |rows| ==> rows[i].0 != rows[j].0
  }

  ghost predicate QuietFrom(
    s: Store, h: Handlers, rows: seq<(DeliveryKey, nat)>, turns: Turns, i: nat, end: Instant)
  {
    forall j :: i <= j < |rows| ==> Handles(h, rows[j].0) && Held(s, rows[j], end) && Quiet(turns(j), end)
  }

  /** From the `i`th on, every fate is a success, and the deliveries are marked sent at the times of their turns. */
  ghost predicate AllSent(s: Store, h: Handlers, rows: seq<(DeliveryKey, nat)>, turns: Turns, i: nat)
    requires i <= |rows|
  {
    var (steps, fates) := Dispatch(s, h, rows, turns, i);
    && (forall f :: f in fates ==> f.Processed?)
    && forall j :: i <= j < |rows| ==> SentAt(Exec(s, steps), rows[j].0, turns(j).markedAt)
  }

  predicate SentAt(s: Store, key: DeliveryKey, at: Instant) {
    key in s.outbox && s.outbox[key].sentAt == Some(at)
  }

  lemma {:induction false} QuietKeepsOthers(
      s: Store, h: Handlers, rows: seq<(DeliveryKey, nat)>, turns: Turns, i: nat, end: Instant, k: DeliveryKey)
    requires i <= |rows| && h.Direct? && OneRowEach(rows) && QuietFrom(s, h, rows, turns, i, end)
    requires k in s.outbox && forall j :: i <= j < |rows| ==> rows[j].0 != k
    ensures var t := Exec(s, Dispatch(s, h, rows, turns, i).0); k in t.outbox && t.outbox[k] == s.outbox[k]
    decreases |rows| - i
  {
    if i < |rows| {
      var steps := TurnSteps(s, h, rows[i].0, rows[i].1, turns(i));
      var next := Exec(s, steps);
      QuietTurn(s, h, rows[i], turns(i), end);
      StaysQuiet(s, next, h, rows, turns, i, end);
      QuietKeepsOthers(next, h, rows, turns, i + 1, end, k);
      DispatchCons(s, h, rows, turns, i, next);
      ExecJoin(s, steps, Dispatch(next, h, rows, turns, i + 1).0);
    }
  }

  lemma StaysQuiet(
      s: Store, next: Store, h: Handlers, rows: seq<(DeliveryKey, nat)>, turns: Turns, i: nat, end: Instant)
    requires i < |rows| && OneRowEach(rows) && QuietFrom(s, h, rows, turns, i, end)
    requires rows[i].0 in next.outbox && next == s.(outbox := next.outbox)
    requires next.outbox == s.outbox[rows[i].0 := next.outbox[rows[i].0]]
    ensures QuietFrom(next, h, rows, turns, i + 1, end)
  {
    forall j | i < j < |rows| ensures Held(next, rows[j], end) {
      assert Held(s, rows[j], end) && rows[j].0 != rows[i].0;
    }
  }

  /** From its `i`th row on, an undisturbed cycle processes every delivery and marks it when its turn comes. */
  lemma {:induction false} QuietRows(
      s: Store, h: Handlers, rows: seq<(DeliveryKey, nat)>, turns: Turns, i: nat, end: Instant)
    requires i <= |rows| && h.Direct? && OneRowEach(rows) && QuietFrom(s, h, rows, turns, i, end)
    ensures AllSent(s, h, rows, turns, i)
    decreases |rows| - i
  {
    if i < |rows| {
      var steps := TurnSteps(s, h, rows[i].0, rows[i].1, turns(i));
      var next := Exec(s, steps);
      QuietTurn(s, h, rows[i], turns(i), end);
      StaysQuiet(s, next, h, rows, turns, i, end);
      QuietRows(next, h, rows, turns, i + 1, end);
      QuietKeepsOthers(next, h, rows, turns, i + 1, end, rows[i].0);
      DispatchCons(s, h, rows, turns, i, next);
      ExecJoin(s, steps, Dispatch(next, h, rows, turns, i + 1).0);
    }
  }

  lemma LeasedRow(
      s: Store, picked: seq<DeliveryKey>, now: Instant, limit: int, leaseMs: int, mode: Option<Mode>, t: Store, j: nat)
    requires LeaseBatch(s, picked, now, limit, leaseMs, mode) == Done(t, picked) && j < |picked|
    ensures Rows(t.outbox, picked)[j].0 == picked[j] && Held(t, Rows(t.outbox, picked)[j], now + leaseMs)
  {
    LeaseAllEpochs(s.outbox, picked, now, leaseMs);
    RowsAre(t.outbox, picked, j);
    assert picked[j] in picked;
  }

  /** As leased, every row is held to the end of the lease. */
  ghost predicate AllHeld(t: Store, rows: seq<(DeliveryKey, nat)>, picked: seq<DeliveryKey>, end: Instant) {
    |rows| == |picked| && forall j :: 0 <= j < |rows| ==> rows[j].0 == picked[j] && Held(t, rows[j], end)
  }

  /** A batch's rows name its deliveries under their new epochs, each held to the end of the lease. */
  lemma LeasedRows(
      s: Store, picked: seq<DeliveryKey>, now: Instant, limit: int, leaseMs: int, mode: Option<Mode>, t: Store)
    requires LeaseBatch(s, picked, now, limit, leaseMs, mode) == Done(t, picked)
    ensures AllHeld(t, Rows(t.outbox, picked), picked, now + leaseMs) && Distinct(picked)
  {
    forall j | 0 <= j < |picked|
      ensures Rows(t.outbox, picked)[j].0 == picked[j] && Held(t, Rows(t.outbox, picked)[j], now + leaseMs)
    {
      LeasedRow(s, picked, now, limit, leaseMs, mode, t, j);
    }
  }

  /** A cycle over held rows that nobody disturbs, whose turns come before the lease ends, processes every delivery. */
  lemma QuietCycle(
      t: Store, h: Handlers, rows: seq<(DeliveryKey, nat)>, turns: Turns, picked: seq<DeliveryKey>, end: Instant)
    requires h.Direct? && AllHeld(t, rows, picked, end) && Distinct(picked)
    requires forall j :: 0 <= j < |picked| ==> Handles(h, picked[j]) && Quiet(turns(j), end)
    ensures AllSent(t, h, rows, turns, 0)
  {
    QuietRows(t, h, rows, turns, 0, end);
  }

  /** With an enqueue function nothing is marked: the store changes by what others do, and only a throw counts. */
  lemma EnqueuedTurn(s: Store, h: Handlers, key: DeliveryKey, epoch: nat, turn: Turn)
    requires h.Enqueue?
    ensures Exec(s, TurnSteps(s, h, key, epoch, turn)) == Exec(Exec(s, turn.before), turn.during)
    ensures TurnFate(s, h, key, epoch, turn) == if turn.threw then Broken else Processed
  {
    ExecJoin(s, turn.before, turn.during);
  }

  /** What is handled: pages always, the other two kinds by their own handler; everything with an enqueue function. */
  lemma HandledKinds(h: Handlers, id: PartitionId, n: nat, raw: RawId, version: string, revision: RevisionId)
    ensures Handles(h, CollectionPage(id, n))
    ensures Handles(h, Normalization(raw, version)) <==> h.Enqueue? || h.normalization
    ensures Handles(h, Embedding(revision)) <==> h.Enqueue? || h.embedding
  {}

  /** A marked delivery that has no handler is neither processed nor a failure. */
  lemma UnhandledTurn(s: Store, h: Handlers, key: DeliveryKey, epoch: nat, turn: Turn)
    requires h.Direct? && !Handles(h, key)
    ensures TurnFate(s, h, key, epoch, turn) == if Marks(s, key, epoch, turn) then Unhandled else Broken
    ensures TurnSteps(s, h, key, epoch, turn) == turn.before + [Sent(key, epoch, turn.markedAt)]
  {
    assert turn.before + [Sent(key, epoch, turn.markedAt)] + [] == turn.before + [Sent(key, epoch, turn.markedAt)];
  }

  /** A marked delivery that has a handler is processed unless the handler throws. */
  lemma HandledTurn(s: Store, h: Handlers, key: DeliveryKey, epoch: nat, turn: Turn)
    requires h.Direct? && Handles(h, key) && Marks(s, key, epoch, turn)
    ensures TurnFate(s, h, key, epoch, turn) == if turn.threw then Broken else Processed
    ensures TurnSteps(s, h, key, epoch, turn) == turn.before + [Sent(key, epoch, turn.markedAt)] + turn.during
  {}

  /** The failures of a cycle are the deliveries whose turns failed. */
  lemma {:induction false} FailedAre(rows: seq<(DeliveryKey, nat)>, fates: seq<Fate>, key: DeliveryKey)
    requires |rows| == |fates|
    ensures key in FailedKeys(rows, fates) <==> exists i :: 0 <= i < |rows| && fates[i].Broken? && rows[i].0 == key
  {
    if rows != [] {
      FailedAre(rows[1..], fates[1..], key);
      if key in FailedKeys(rows[1..], fates[1..]) {
        var i :| 0 <= i < |rows[1..]| && fates[1..][i].Broken? && rows[1..][i].0 == key;
        assert fates[i + 1].Broken? && rows[i + 1].0 == key;
      }
      forall i | 0 < i < |rows| && fates[i].Broken? && rows[i].0 == key
        ensures key in FailedKeys(rows[1..], fates[1..])
      {
        assert fates[1..][i - 1].Broken? && rows[1..][i - 1].0 == key;
      }
    }
  }
}
