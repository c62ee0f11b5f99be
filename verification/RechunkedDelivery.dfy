/** A joint run, from empty tables, to a completed embedding delivery whose revision is not ready for vector search. */
module RechunkedDelivery {
  import opened Common
  import C = CollectionState
  import H = CollectionHistory
  import P = PageWorker
  import opened EmbeddingWork
  import opened EmbeddingHistory
  import opened EmbeddingDelivery

  // ---------- An item is collected and its revision attached ----------

  const ITEM := C.Item("item", "hash", true, C.Declared(None, None, None, None, None, None, false, None))
  const RAW := C.RawId(0, "item", "hash")
  const ROW := C.Partition(C.Running, 0, None, 1, Some(60000), Some(0), 0, None, 1)
  const CLAIM := C.Claim(
    P.PAGE, ROW, C.Target(0, 0, true, P.ENABLED.revisions[0].policy, P.ENABLED.revisions[0].capability), 0)
  const FOUND := C.PageResult([ITEM], None, C.Complete, None, None, true)

  const CLAIMED := P.PLANNED.(
    partitions := map[P.PAGE := ROW], runs := map[0 := C.Run(C.RunRunning, 0, None, None)],
    attempts := map[0 := C.Attempt(P.PAGE, 0, 1)])

  const PLANNING := [H.Administer(P.ENABLED), H.Plan(P.PAGE, 0)]
  const CLAIMING := PLANNING + [H.ClaimNext(P.PAGE, 0, 0, 60000, 0)]
  const COMMITTING := CLAIMING + [H.Commit(CLAIM, FOUND, 1)]
  const NORMALIZING := COMMITTING + [H.AddRevision(RAW, 0)]
  const ATTACHING := NORMALIZING + [H.Attach(RAW, 0, [P.PAGE], 2)]

  lemma Claims()
    ensures H.Exec(C.EMPTY, CLAIMING) == CLAIMED
  {
    P.PlannedReached();
    H.ExecThen(C.EMPTY, PLANNING, H.ClaimNext(P.PAGE, 0, 0, 60000, 0));
    assert H.Step(P.PLANNED, H.ClaimNext(P.PAGE, 0, 0, 60000, 0)) == CLAIMED;
  }

  lemma Acquires()
    ensures var o := C.AcquireItems(CLAIMED, CLAIM, CLAIM.target, FOUND.items, 1);
            && o.Done? && o.store.memberships.Keys == {(P.PAGE, RAW)} && o.store.revisions == []
            && o.store.partitions == CLAIMED.partitions && o.store.runs == CLAIMED.runs
            && o.store.checkpoints == map[] && C.Embedding(0) !in o.store.outbox
  {
    var o := C.AcquireItem(CLAIMED, CLAIM, CLAIM.target, ITEM, 1);
    assert o.Done? && o.store.memberships.Keys == {(P.PAGE, RAW)};
    assert FOUND.items[0] == ITEM && FOUND.items[1..] == [];
    assert C.AcquireItems(o.store, CLAIM, CLAIM.target, [], 1) == C.Done(o.store, ());
  }

  lemma CommitStep()
    ensures var s := H.Step(CLAIMED, H.Commit(CLAIM, FOUND, 1));
            s.memberships.Keys == {(P.PAGE, RAW)} && s.revisions == []
  {
    Acquires();
    assert C.ReadTarget(CLAIMED.catalog, 0) == Some(CLAIM.target);
    assert C.CommitPage(CLAIMED, CLAIM, FOUND, 1).Done?;
  }

  lemma AttachStep(s: C.Store)
    requires s.memberships.Keys == {(P.PAGE, RAW)} && s.revisions == [(RAW, 0)]
    ensures C.Embedding(0) in H.Step(s, H.Attach(RAW, 0, [P.PAGE], 2)).outbox
  {
    assert (P.PAGE, RAW) in s.memberships;
    assert C.MembersOf(s, RAW) == {P.PAGE};
    assert C.Lists([P.PAGE], C.MembersOf(s, RAW));
    assert (RAW, 0) in s.revisions;
    var inserted := C.Insert(s.outbox, C.Embedding(0), C.NewDelivery(P.PAGE, 0, 2));
    assert [P.PAGE][1..] == [] && C.InsertEmbeddings(inserted, 0, [], 2) == inserted;
    assert C.InsertEmbeddings(s.outbox, 0, [P.PAGE], 2) == inserted;
  }

  lemma Attaches()
    ensures C.Embedding(0) in H.Exec(C.EMPTY, ATTACHING).outbox
  {
    Claims();
    CommitStep();
    H.ExecThen(C.EMPTY, CLAIMING, H.Commit(CLAIM, FOUND, 1));
    H.ExecThen(C.EMPTY, COMMITTING, H.AddRevision(RAW, 0));
    H.ExecThen(C.EMPTY, NORMALIZING, H.Attach(RAW, 0, [P.PAGE], 2));
    AttachStep(H.Exec(C.EMPTY, NORMALIZING));
  }

  // ---------- Its one chunk is embedded ----------

  const PROFILE := Profile("provider", "model", "1", 1, "1", "1", "approval")
  const KEY := WorkKey(0, "hash", PROFILE)

  const CHUNKING := [SaveChunk(0, Chunk(0, "hash"))]
  const SEARCHING := CHUNKING + [SetStatus(0, Searchable)]
  const APPROVING := SEARCHING + [SetScope("scope", Scope(true, false, {PROFILE}))]
  const RESERVING := APPROVING + [ReserveFor("scope", ForWork(KEY, 1), IngestionEmbedding, 0, false, true)]
  const LEASING := RESERVING + [Claim(KEY, 0, 60000, true)]
  const CALLING := LEASING + [Begin(KEY, 1, 0, 1, true)]
  const FINISHING := CALLING + [Finish(KEY, 1, [1.0], 2, true)]

  const RESERVED := Db(
    map[0 := Chunk(0, "hash")], map[0 := Searchable], map[], map[],
    map[0 := Reservation("scope", ForWork(KEY, 1), IngestionEmbedding, Reserved)],
    map["scope" := Scope(true, false, {PROFILE})])
  const LEASED := RESERVED.(works := map[KEY := Work(Claimed, 1, Some(60000), None, None)])
  const CALLED := LEASED.(works := map[KEY := Work(Calling, 1, Some(60000), Some(0), None)])
  const FINISHED := CALLED.(
    works := map[KEY := Work(Completed, 1, None, Some(0), Some(EmbeddingFor(KEY)))],
    embeddings := map[EmbeddingFor(KEY) := EmbeddingRow(1, [1.0])])

  lemma Reserves()
    ensures Exec(EMPTY, RESERVING) == RESERVED
  {
    ExecThen(EMPTY, [], SaveChunk(0, Chunk(0, "hash")));
    assert [] + CHUNKING == CHUNKING;
    ExecThen(EMPTY, CHUNKING, SetStatus(0, Searchable));
    ExecThen(EMPTY, SEARCHING, SetScope("scope", Scope(true, false, {PROFILE})));
    ExecThen(EMPTY, APPROVING, ReserveFor("scope", ForWork(KEY, 1), IngestionEmbedding, 0, false, true));
  }

  lemma LeaseStep()
    ensures Step(RESERVED, Claim(KEY, 0, 60000, true)) == LEASED
  {}

  lemma CallStep()
    ensures Step(LEASED, Begin(KEY, 1, 0, 1, true)) == CALLED
  {}

  lemma FinishStep()
    ensures Step(CALLED, Finish(KEY, 1, [1.0], 2, true)) == FINISHED
  {
    assert [1.0][0] != 0.0;
  }

  lemma Finishes()
    ensures Exec(EMPTY, FINISHING) == FINISHED
  {
    Reserves();
    ExecThen(EMPTY, RESERVING, Claim(KEY, 0, 60000, true));
    LeaseStep();
    ExecThen(EMPTY, LEASING, Begin(KEY, 1, 0, 1, true));
    CallStep();
    ExecThen(EMPTY, CALLING, Finish(KEY, 1, [1.0], 2, true));
    FinishStep();
  }

  lemma FinishedIsReady()
    ensures VectorReady(FINISHED, 0, PROFILE)
  {
    assert ChunksOf(FINISHED, 0) == {0};
    assert ChunkReady(FINISHED, 0, PROFILE);
  }

  // ---------- Delivered, and chunked again ----------

  const READY := Collects(ATTACHING) + Embeds(FINISHING)
  const RECHUNKED := READY + [Deliver(0, PROFILE, 3)] + [Embed(SaveChunk(1, Chunk(0, "more")))]

  lemma ReadyRun()
    ensures Run(READY) == System(H.Exec(C.EMPTY, ATTACHING), FINISHED)
  {
    Finishes();
    assert [] + Collects(ATTACHING) == Collects(ATTACHING);
    CollectsRun([], ATTACHING);
    EmbedsRun(Collects(ATTACHING), FINISHING);
  }

  lemma DeliveredNotReady()
    ensures forall a :: a in RECHUNKED ==> Allowed(a)
    ensures Delivered(Run(RECHUNKED).collection, 0) && !VectorReady(Run(RECHUNKED).db, 0, PROFILE)
  {
    Attaches();
    FinishedIsReady();
    ReadyRun();
    RechunkedStaysDelivered(READY, 0, PROFILE, 3, 1, "more");
    AllAllowed();
  }

  lemma AllAllowed()
    ensures forall a :: a in RECHUNKED ==> Allowed(a)
  {
    CollectsAllowed(ATTACHING);
    EmbedsAllowed(FINISHING);
  }

  lemma {:induction false} CollectsAllowed(steps: seq<H.Action>)
    requires forall a :: a in steps ==> !a.CompleteWork?
    ensures forall a :: a in Collects(steps) ==> Allowed(a)
    decreases |steps|
  {
    if steps != [] {
      assert steps[|steps| - 1] in steps;
      CollectsAllowed(steps[..|steps| - 1]);
    }
  }

  lemma {:induction false} EmbedsAllowed(works: seq<Action>)
    ensures forall a :: a in Embeds(works) ==> Allowed(a)
    decreases |works|
  {
    if works != [] { EmbedsAllowed(works[..|works| - 1]); }
  }
}
