/**
  The outbox and the embedding work together: a completed embedding delivery stands for a revision that was
  ready for vector search when it completed, in every joint run of both repositories.
*/
module EmbeddingDelivery {
  import opened Common
  import C = CollectionState
  import H = CollectionHistory
  import I = CollectionInvariants
  import opened W = EmbeddingWork
  import opened EmbeddingHistory

  datatype System = System(collection: C.Store, db: Db)

  datatype JointAction =
    | Collect(step: H.Action)
    | Embed(work: Action)
    | Deliver(revision: RevisionId, profile: Profile, now: Instant)   // completes the revision's embedding delivery

  /** Any collection step but completing an embedding delivery, which needs the evidence of the moment. */
  predicate Allowed(a: JointAction) {
    a.Collect? && a.step.CompleteWork? ==> !a.step.key.Embedding?
  }

  function DeliverStep(y: System, a: JointAction): C.Outcome<()>
    requires a.Deliver?
  {
    C.CompleteDelivery(y.collection, C.Embedding(a.revision), a.now, EmbeddingEvidence(y.db, a.revision, a.profile))
  }

  function JointStep(y: System, a: JointAction): System {
    match a
    case Collect(step) => y.(collection := H.Step(y.collection, step))
    case Embed(work) => y.(db := Step(y.db, work))
    case Deliver(_, _, _) => y.(collection := C.After(y.collection, DeliverStep(y, a)))
  }

  const START := System(C.EMPTY, EMPTY)

  /** The state after a joint run. */
  function Run(trace: seq<JointAction>): System
    decreases |trace|
  {
    if trace == [] then START else JointStep(Run(trace[..|trace| - 1]), trace[|trace| - 1])
  }

  predicate Delivered(s: C.Store, revision: RevisionId) {
    C.Embedding(revision) in s.outbox && s.outbox[C.Embedding(revision)].completedAt.Some?
  }

  // ---------- Only its own completion completes an embedding delivery ----------

  lemma {:induction false} InsertedEmbeddingsOpen(
      outbox: C.Outbox, revision: RevisionId, members: seq<C.PartitionId>, now: Instant, k: C.DeliveryKey)
    requires k in C.InsertEmbeddings(outbox, revision, members, now) && k !in outbox
    ensures C.InsertEmbeddings(outbox, revision, members, now)[k].completedAt.None?
    decreases |members|
  {
    if members != [] {
      var next := C.Insert(outbox, C.Embedding(revision), C.NewDelivery(members[0], 0, now));
      if k in next {
        I.InsertEmbeddingsFrame(next, revision, members[1..], now);
      } else {
        InsertedEmbeddingsOpen(next, revision, members[1..], now, k);
      }
    }
  }

  lemma CommitCompletesNone(s: C.Store, a: H.Action, revision: RevisionId)
    requires a.Commit? && Delivered(H.Step(s, a), revision)
    ensures Delivered(s, revision)
  {
    if C.CommitPage(s, a.claim, a.result, a.now).Done? {
      var target := C.ReadTarget(s.catalog, a.claim.target.id).value;
      I.AcquireItemsFrame(s, a.claim, target, a.result.items, a.now);
    }
  }

  lemma InsertsCompleteNone(s: C.Store, a: H.Action, revision: RevisionId)
    requires (a.Attach? || a.Replay?) && Delivered(H.Step(s, a), revision)
    ensures Delivered(s, revision)
  {
    var k := C.Embedding(revision);
    if a.Attach? {
      I.InsertEmbeddingsFrame(s.outbox, a.revision, a.members, a.now);
      if k in C.InsertEmbeddings(s.outbox, a.revision, a.members, a.now) && k !in s.outbox {
        InsertedEmbeddingsOpen(s.outbox, a.revision, a.members, a.now, k);
      }
    } else if C.Replan(s, a.scope, a.rows, a.requestedAt).Done? {
      I.ReplanFrame(s, a.rows, a.requestedAt);
    }
  }

  lemma PageStepCompletesNone(s: C.Store, a: H.Action, revision: RevisionId)
    requires H.OnPage(a) && !a.Commit? && Delivered(H.Step(s, a), revision)
    ensures Delivered(s, revision)
  {
    match a
    case ClaimNext(_, _, _, _, _) => assert H.Step(s, a).outbox == s.outbox;
    case _ =>
  }

  lemma LeaseCompletesNone(s: C.Store, a: H.Action, revision: RevisionId)
    requires a.LeaseDue? && Delivered(H.Step(s, a), revision)
    ensures Delivered(s, revision)
  {
    I.LeaseAllFrame(s.outbox, a.picked, a.now, a.leaseMs);
  }

  lemma OtherStepCompletesNone(s: C.Store, a: H.Action, revision: RevisionId)
    requires a.Administer? || a.AddRevision? || a.Sent? || (a.CompleteWork? && !a.key.Embedding?)
    requires Delivered(H.Step(s, a), revision)
    ensures Delivered(s, revision)
  {}

  lemma CollectCompletesNone(s: C.Store, a: H.Action, revision: RevisionId)
    requires Delivered(H.Step(s, a), revision)
    requires a.CompleteWork? ==> !a.key.Embedding?
    ensures Delivered(s, revision)
  {
    match a
    case Commit(_, _, _) => CommitCompletesNone(s, a, revision);
    case LeaseDue(_, _, _, _, _) => LeaseCompletesNone(s, a, revision);
    case Attach(_, _, _, _) => InsertsCompleteNone(s, a, revision);
    case Replay(_, _, _) => InsertsCompleteNone(s, a, revision);
    case _ => if H.OnPage(a) { PageStepCompletesNone(s, a, revision); } else { OtherStepCompletesNone(s, a, revision); }
  }

  // ---------- What a completed delivery stands for ----------

  lemma {:induction false} RunKeepsInv(trace: seq<JointAction>)
    ensures Inv(Run(trace).db)
    decreases |trace|
  {
    if trace != [] {
      var last := |trace| - 1;
      RunKeepsInv(trace[..last]);
      if trace[last].Embed? {
        StepKeepsInv(Run(trace[..last]).db, trace[last].work);
      }
    }
  }

  /** Step `i` completes the revision's delivery, and the revision is ready for the step's profile then. */
  ghost predicate ReadyAt(trace: seq<JointAction>, i: nat, revision: RevisionId) {
    && i < |trace| && trace[i].Deliver? && trace[i].revision == revision
    && VectorReady(Run(trace[..i]).db, revision, trace[i].profile)
  }

  /** An embedding delivery is completed by nothing but a step taken when its revision is ready. */
  lemma {:induction false} DeliveredWhenReady(trace: seq<JointAction>, revision: RevisionId)
    requires forall a :: a in trace ==> Allowed(a)
    requires Delivered(Run(trace).collection, revision)
    ensures exists i: nat :: ReadyAt(trace, i, revision)
    decreases |trace|
  {
    var last := |trace| - 1;
    assert trace != [] && trace[last] in trace;
    assert Allowed(trace[last]);
    var before := trace[..last];
    var y := Run(before);
    if Delivered(y.collection, revision) {
      DeliveredWhenReady(before, revision);
      var i: nat :| ReadyAt(before, i, revision);
      assert before[..i] == trace[..i];
      assert ReadyAt(trace, i, revision);
    } else if trace[last].Collect? {
      CollectCompletesNone(y.collection, trace[last].step, revision);
    } else {
      RunKeepsInv(before);
      forall c | c in ChunksOf(y.db, revision) ensures ChunkReady(y.db, c, trace[last].profile) {
        ChunkEvidenceIffReady(y.db, c, trace[last].profile);
      }
      assert ReadyAt(trace, last, revision);
    }
  }

  lemma {:induction false} RunGrows(trace: seq<JointAction>, i: nat)
    requires i <= |trace|
    ensures Grows(Run(trace[..i]).db, Run(trace).db)
    decreases |trace|
  {
    var last := |trace| - 1;
    if i == |trace| {
      assert trace[..i] == trace;
    } else {
      RunGrows(trace[..last], i);
      assert trace[..last][..i] == trace[..i];
      if trace[last].Embed? {
        StepGrows(Run(trace[..last]).db, trace[last].work);
      }
    }
  }

  /**
    A completed embedding delivery means vector readiness, under the profile it was completed for, exactly as
    long as the revision stays visible and every chunk it has gained since then has its embedding.
  */
  lemma DeliveredMeansReady(trace: seq<JointAction>, i: nat, revision: RevisionId)
    requires ReadyAt(trace, i, revision)
    ensures var past := Run(trace[..i]).db;
            var db := Run(trace).db;
            VectorReady(db, revision, trace[i].profile) <==>
              && Visible(db, revision)
              && forall c :: c in ChunksOf(db, revision) - ChunksOf(past, revision) ==>
                   ChunkReady(db, c, trace[i].profile)
  {
    var past := Run(trace[..i]).db;
    var db := Run(trace).db;
    RunGrows(trace, i);
    forall c | c in ChunksOf(past, revision)
      ensures c in ChunksOf(db, revision) && ChunkReady(db, c, trace[i].profile)
    {
      assert ChunkReady(past, c, trace[i].profile);
    }
    var c :| c in ChunksOf(past, revision);
    assert c in ChunksOf(db, revision);
  }

  lemma RunThen(trace: seq<JointAction>, a: JointAction)
    ensures Run(trace + [a]) == JointStep(Run(trace), a)
  {
    assert (trace + [a])[..|trace|] == trace;
  }

  /**
    A revision delivered when it is ready and then chunked again stays delivered and is not ready: from any joint
    run, by these two steps.
  */
  lemma RechunkedStaysDelivered(
      trace: seq<JointAction>, revision: RevisionId, p: Profile, now: Instant, c: ChunkId, hash: string)
    requires var y := Run(trace);
      C.Embedding(revision) in y.collection.outbox && VectorReady(y.db, revision, p) && c !in y.db.chunks
    ensures var later := Run(trace + [Deliver(revision, p, now)] + [Embed(SaveChunk(c, Chunk(revision, hash)))]);
            Delivered(later.collection, revision) && !VectorReady(later.db, revision, p)
  {
    var deliver, embed := Deliver(revision, p, now), Embed(SaveChunk(c, Chunk(revision, hash)));
    RunKeepsInv(trace);
    InvEvidenceIffReady(Run(trace).db, revision, p);
    RunThen(trace, deliver);
    RunThen(trace + [deliver], embed);
    NewChunkUnready(Run(trace).db, revision, p, c, hash);
  }

  // ---------- Joint runs from separate ones ----------

  function Collects(steps: seq<H.Action>): seq<JointAction> {
    if steps == [] then [] else Collects(steps[..|steps| - 1]) + [Collect(steps[|steps| - 1])]
  }

  function Embeds(works: seq<Action>): seq<JointAction> {
    if works == [] then [] else Embeds(works[..|works| - 1]) + [Embed(works[|works| - 1])]
  }

  lemma CollectsLast(trace: seq<JointAction>, before: seq<H.Action>, last: H.Action)
    ensures Run(trace + Collects(before + [last])) == JointStep(Run(trace + Collects(before)), Collect(last))
  {
    assert (before + [last])[..|before|] == before;
    Associative(trace, Collects(before), [Collect(last)]);
    RunThen(trace + Collects(before), Collect(last));
  }

  lemma {:induction false} CollectsRun(trace: seq<JointAction>, steps: seq<H.Action>)
    ensures Run(trace + Collects(steps)) ==
            Run(trace).(collection := H.Exec(Run(trace).collection, steps))
    decreases |steps|
  {
    if steps == [] {
      assert trace + [] == trace;
    } else {
      var before, last := steps[..|steps| - 1], steps[|steps| - 1];
      assert before + [last] == steps;
      CollectsRun(trace, before);
      CollectsLast(trace, before, last);
      H.ExecThen(Run(trace).collection, before, last);
    }
  }

  lemma EmbedsLast(trace: seq<JointAction>, before: seq<Action>, last: Action)
    ensures Run(trace + Embeds(before + [last])) == JointStep(Run(trace + Embeds(before)), Embed(last))
  {
    assert (before + [last])[..|before|] == before;
    Associative(trace, Embeds(before), [Embed(last)]);
    RunThen(trace + Embeds(before), Embed(last));
  }

  lemma {:induction false} EmbedsRun(trace: seq<JointAction>, works: seq<Action>)
    ensures Run(trace + Embeds(works)) == Run(trace).(db := Exec(Run(trace).db, works))
    decreases |works|
  {
    if works == [] {
      assert trace + [] == trace;
    } else {
      var before, last := works[..|works| - 1], works[|works| - 1];
      assert before + [last] == works;
      EmbedsRun(trace, before);
      EmbedsLast(trace, before, last);
      ExecThen(Run(trace).db, before, last);
    }
  }
}
