/** What handing out, marking, completing, attaching and replaying leave of the deliveries and memberships. */
module DeliveryEffects {
  import opened Common
  import opened CollectionState
  import opened CollectionInvariants
  import opened CollectionHistory
  import opened CollectionGates

  // ---------- Handing out ----------

  /** A delivery handed out is marked under its new epoch until the lease ends; only from then on it is due again. */
  lemma AfterHandOut(
      s: Store, picked: seq<DeliveryKey>, now: Instant, limit: int, leaseMs: int, mode: Option<Mode>, key: DeliveryKey,
      later: Instant)
    requires LeaseBatch(s, picked, now, limit, leaseMs, mode).Done? && key in picked
    ensures var t := LeaseBatch(s, picked, now, limit, leaseMs, mode).store;
            && 1 <= limit <= 100 && 1000 <= leaseMs <= 300000 && key in s.outbox && key in t.outbox
            && var epoch := s.outbox[key].leaseEpoch + 1;
            && t.outbox[key].leaseEpoch == epoch
            && (MarkSent(t, key, epoch, later).Done? <==> later < now + leaseMs)
            && (later >= now ==> (Due(t, key, later, mode) <==> now + leaseMs <= later))
  {
    LeaseAllEpochs(s.outbox, picked, now, leaseMs);
  }

  lemma HandOutTouches(
      s: Store, picked: seq<DeliveryKey>, now: Instant, limit: int, leaseMs: int, mode: Option<Mode>)
    requires LeaseBatch(s, picked, now, limit, leaseMs, mode).Done?
    ensures var t := LeaseBatch(s, picked, now, limit, leaseMs, mode).store;
            && t == s.(outbox := t.outbox) && t.outbox.Keys == s.outbox.Keys
            && forall k :: k in s.outbox && k !in picked ==> t.outbox[k] == s.outbox[k]
  {
    LeaseAllEpochs(s.outbox, picked, now, leaseMs);
  }

  /** Asking for one mode hands out the deliveries of that mode among those due. */
  lemma DueInMode(s: Store, key: DeliveryKey, now: Instant, mode: Mode)
    ensures Due(s, key, now, Some(mode)) <==>
            Due(s, key, now, None) && s.outbox[key].partition.mode == mode
  {}

  /** What is dispatched is what the current revision of an enabled target of an enabled source lets be stored. */
  lemma DispatchableIff(c: Catalog, id: PartitionId)
    requires id.target in c.revisions && c.revisions[id.target].target in c.targets
    requires var current := c.targets[c.revisions[id.target].target].current;
             current.Some? && current.value in c.revisions ==>
               c.revisions[current.value].target == c.revisions[id.target].target
    ensures Dispatchable(c, id, None) <==>
            var current := c.targets[c.revisions[id.target].target].current;
            && current.Some? && InUse(c, current.value)
            && var policy := c.revisions[current.value].policy; policy.approved && policy.fetch && policy.store
  {}

  // ---------- Marking and completing ----------

  /** A mark is accepted exactly under the delivery's present epoch, before its lease ends, if it is not completed. */
  lemma MarkedIff(s: Store, key: DeliveryKey, epoch: nat, now: Instant)
    ensures MarkSent(s, key, epoch, now).Done? <==>
            && key in s.outbox && s.outbox[key].leaseEpoch == epoch && s.outbox[key].completedAt.None?
            && s.outbox[key].leaseUntil.Some? && now < s.outbox[key].leaseUntil.value
  {}

  /** A mark is remembered with its time: the delivery is due again half a minute later, and its lease is gone. */
  lemma AfterMark(s: Store, key: DeliveryKey, epoch: nat, now: Instant, later: Instant, mode: Option<Mode>, again: nat)
    requires MarkSent(s, key, epoch, now).Done?
    ensures var t := MarkSent(s, key, epoch, now).store;
            && key in s.outbox && key in t.outbox && t == s.(outbox := t.outbox)
            && t.outbox == s.outbox[key := s.outbox[key].(sentAt := Some(now), leaseUntil := None)]
            && MarkSent(t, key, again, later) == Rejected(StaleLease)
            && var d := s.outbox[key];
            (Due(t, key, later, mode) <==>
              && now + 30000 <= later && d.notBefore <= later
              && d.partition in s.partitions && Dispatchable(s.catalog, d.partition, mode))
  {}

  /** A completed delivery is not due again, and completing it again changes nothing. */
  lemma AfterComplete(
      s: Store, key: DeliveryKey, now: Instant, evidence: bool, later: Instant, mode: Option<Mode>, again: bool)
    requires CompleteDelivery(s, key, now, evidence).Done?
    ensures var t := CompleteDelivery(s, key, now, evidence).store;
            && key in s.outbox && key in t.outbox && t == s.(outbox := t.outbox)
            && t.outbox == (if s.outbox[key].completedAt.Some? then s.outbox
                            else s.outbox[key := s.outbox[key].(completedAt := Some(now), leaseUntil := None)])
            && !Due(t, key, later, mode) && CompleteDelivery(t, key, later, again) == Done(t, ())
  {}

  /** What stands for the work: a page's checkpoint, or the evidence of the other two kinds. */
  lemma CompletedIff(s: Store, key: DeliveryKey, now: Instant, evidence: bool)
    ensures CompleteDelivery(s, key, now, evidence).Done? <==>
            && key in s.outbox
            && var d := s.outbox[key];
            || d.completedAt.Some?
            || if key.CollectionPage? then (d.partition, d.pageSequence) in s.checkpoints else evidence
  {}

  // ---------- Attaching a revision ----------

  lemma {:induction false} EmbeddingInserted(
      outbox: Outbox, revision: RevisionId, members: seq<PartitionId>, now: Instant)
    requires members != []
    ensures var after := InsertEmbeddings(outbox, revision, members, now);
            var key := Embedding(revision);
            after == if key in outbox then outbox
                     else outbox[key := Delivery(members[0], 0, now, None, None, 0, None)]
    decreases |members|
  {
    var next := Insert(outbox, Embedding(revision), NewDelivery(members[0], 0, now));
    if |members| > 1 { EmbeddingInserted(next, revision, members[1..], now); }
  }

  /** Every membership of the item names the revision from then on; one delivery is open to embed it. */
  lemma AfterAttach(s: Store, raw: RawId, revision: RevisionId, members: seq<PartitionId>, now: Instant)
    requires AttachRevision(s, raw, revision, members, now).Done?
    ensures var t := AttachRevision(s, raw, revision, members, now).store;
            && t == s.(memberships := t.memberships, outbox := t.outbox)
            && t.memberships.Keys == s.memberships.Keys
            && (forall m :: m in s.memberships ==>
                  t.memberships[m] ==
                  if m.1 == raw then Membership(s.memberships[m].run, Some(revision), s.memberships[m].acquiredAt)
                  else s.memberships[m])
            && var key := Embedding(revision);
            (if key in s.outbox || forall m :: m in s.memberships ==> m.1 != raw then t.outbox == s.outbox
             else exists p :: (p, raw) in s.memberships
                              && t.outbox == s.outbox[key := Delivery(p, 0, now, None, None, 0, None)])
  {
    if members != [] {
      EmbeddingInserted(s.outbox, revision, members, now);
      assert members[0] in MembersOf(s, raw);
    } else {
      forall m | m in s.memberships ensures m.1 != raw { assert m.1 == raw ==> m.0 in MembersOf(s, raw); }
    }
  }

  // ---------- Replaying ----------

  function Normalizes(m: (PartitionId, RawId)): DeliveryKey {
    Normalization(m.1, m.0.workflowVersion)
  }

  /** The normalization was completed before and is left, or is unsent and due at the time of the request. */
  ghost predicate Reopened(s: Store, t: Store, key: DeliveryKey, at: Instant) {
    && key in t.outbox
    && (if key !in s.outbox then
          && t.outbox[key].partition in s.partitions
          && t.outbox[key] == Delivery(t.outbox[key].partition, s.partitions[t.outbox[key].partition].pageSequence,
                                       at, None, None, 0, None)
        else if s.outbox[key].completedAt.Some? then t.outbox[key] == s.outbox[key]
        else t.outbox[key] == s.outbox[key].(sentAt := None, notBefore := at))
  }

  lemma ReplanRowReopens(s: Store, m: (PartitionId, RawId), at: Instant)
    requires ReplanRow(s, m, at).Done?
    ensures var t := ReplanRow(s, m, at).store;
            && Reopened(s, t, Normalizes(m), at)
            && t == s.(outbox := t.outbox) && t.outbox.Keys == s.outbox.Keys + {Normalizes(m)}
            && forall k :: k in s.outbox && k != Normalizes(m) ==> t.outbox[k] == s.outbox[k]
  {}

  lemma ReopenedTwice(s: Store, s1: Store, t: Store, k: DeliveryKey, at: Instant)
    requires s1.partitions == s.partitions && Reopened(s, s1, k, at) && Reopened(s1, t, k, at)
    ensures Reopened(s, t, k, at)
  {}

  lemma {:induction false} ReplanRowsReopen(s: Store, rows: seq<(PartitionId, RawId)>, at: Instant, k: DeliveryKey)
    requires ReplanRows(s, rows, at).Done?
    ensures var t := ReplanRows(s, rows, at).store;
            if exists m :: m in rows && Normalizes(m) == k then Reopened(s, t, k, at)
            else (k in t.outbox <==> k in s.outbox) && (k in s.outbox ==> t.outbox[k] == s.outbox[k])
    decreases |rows|
  {
    if rows != [] {
      var s1 := ReplanRow(s, rows[0], at).store;
      var t := ReplanRows(s, rows, at).store;
      assert t == ReplanRows(s1, rows[1..], at).store;
      ReplanRowReopens(s, rows[0], at);
      ReplanRowsReopen(s1, rows[1..], at, k);
      assert forall m :: m in rows <==> m == rows[0] || m in rows[1..];
      if exists m :: m in rows[1..] && Normalizes(m) == k {
        if k == Normalizes(rows[0]) { ReopenedTwice(s, s1, t, k, at); }
      }
    }
  }

  /** A replay of a run reopens the normalization of exactly the items that run acquired, of an item its own. */
  lemma AfterReplan(
      s: Store, scope: ReplayScope, rows: seq<(PartitionId, RawId)>, at: Instant, k: DeliveryKey)
    requires Replan(s, scope, rows, at).Done?
    ensures var t := Replan(s, scope, rows, at).store;
            if exists m ::
                 && m in s.memberships && m.0 in s.partitions && m.1 in s.rawItems && Normalizes(m) == k
                 && (match scope case OfRun(run) => s.memberships[m].run == run case OfItem(raw) => m.1 == raw)
            then Reopened(s, t, k, at)
            else (k in t.outbox <==> k in s.outbox) && (k in s.outbox ==> t.outbox[k] == s.outbox[k])
  {
    ReplanRowsReopen(s, rows, at, k);
    assert forall m :: m in rows <==> m in ScopeRows(s, scope);
  }

  lemma {:induction false} ListsCount<T>(q: seq<T>, rows: set<T>)
    requires Lists(q, rows)
    ensures |rows| == |q|
    decreases |q|
  {
    if q == [] {
      assert rows == {};
    } else {
      assert forall x :: x in q <==> x == q[0] || x in q[1..];
      assert forall x :: x in q[1..] ==> x != q[0];
      ListsCount(q[1..], rows - {q[0]});
    }
  }

  ghost predicate MayReplay(s: Store, rows: seq<(PartitionId, RawId)>) {
    forall m :: m in rows ==>
      m.0 in s.partitions && var target := ReadTarget(s.catalog, m.0.target);
      target.Some? && Collectable(target.value)
  }

  lemma {:induction false} ReplanRowsIff(s: Store, rows: seq<(PartitionId, RawId)>, at: Instant)
    ensures ReplanRows(s, rows, at).Done? <==> MayReplay(s, rows)
    ensures ReplanRows(s, rows, at) != Rejected(InvalidReplay)
    decreases |rows|
  {
    if rows != [] {
      assert forall m :: m in rows <==> m == rows[0] || m in rows[1..];
      var first := ReplanRow(s, rows[0], at);
      if first.Done? {
        ReplanRowReopens(s, rows[0], at);
        ReplanRowsIff(first.store, rows[1..], at);
        assert MayReplay(first.store, rows[1..]) <==> MayReplay(s, rows[1..]);
      }
    }
  }

  /** A replay is of 1 to 500 rows, and of rows only whose targets can all be collected now. */
  lemma ReplayedIff(s: Store, scope: ReplayScope, rows: seq<(PartitionId, RawId)>, at: Instant)
    requires Lists(rows, ScopeRows(s, scope))
    ensures Replan(s, scope, rows, at).Done? <==> 1 <= |rows| <= 500 && MayReplay(s, rows)
    ensures Replan(s, scope, rows, at) == Rejected(InvalidReplay) <==> |rows| == 0 || |rows| > 500
  {
    ListsCount(rows, ScopeRows(s, scope));
    ReplanRowsIff(s, rows, at);
  }

  ghost predicate AnswerOf(s: Store, rows: seq<(PartitionId, RawId)>, r: Replayed) {
    && (r.duplicate <==> forall m :: m in rows ==> Normalizes(m) in s.outbox)
    && Distinct(r.deliveries)
    && (forall k :: k in r.deliveries <==> exists m :: m in rows && Normalizes(m) == k)
  }

  /** The answer to a replay: whether each delivery was there before, and the deliveries, each once. */
  lemma {:induction false} ReplanAnswer(s: Store, rows: seq<(PartitionId, RawId)>, at: Instant)
    requires ReplanRows(s, rows, at).Done?
    ensures AnswerOf(s, rows, ReplanRows(s, rows, at).value)
    decreases |rows|
  {
    if rows != [] {
      var s1, known := ReplanRow(s, rows[0], at).store, Normalizes(rows[0]) in s.outbox;
      ReplanRowReopens(s, rows[0], at);
      ReplanAnswer(s1, rows[1..], at);
      AnswerMore(s, rows, s1, known, ReplanRows(s1, rows[1..], at).value);
    }
  }

  lemma AnswerMore(s: Store, rows: seq<(PartitionId, RawId)>, s1: Store, known: bool, rest: Replayed)
    requires rows != [] && AnswerOf(s1, rows[1..], rest) && (known <==> Normalizes(rows[0]) in s.outbox)
    requires s1.outbox.Keys == s.outbox.Keys + {Normalizes(rows[0])}
    ensures AnswerOf(s, rows, Together(Replayed(known, [Normalizes(rows[0])]), rest))
  {
    var k := Normalizes(rows[0]);
    var later := Without(rest.deliveries, [k]);
    WithoutDistinct(rest.deliveries, [k]);
    WithoutHas(rest.deliveries, [k], k);
    PrependDistinct(k, later);
    forall x ensures x in [k] + later <==> x == k || x in rest.deliveries { WithoutHas(rest.deliveries, [k], x); }
    assert forall m :: m in rows <==> m == rows[0] || m in rows[1..];
    SameKey(s, rows, s1, k);
  }

  lemma PrependDistinct(k: DeliveryKey, q: seq<DeliveryKey>)
    requires Distinct(q) && k !in q
    ensures Distinct([k] + q)
  {
    forall i, j | 0 <= i < j < |q| + 1 ensures ([k] + q)[i] != ([k] + q)[j] {
      assert ([k] + q)[j] == q[j - 1] && q[j - 1] in q;
    }
  }

  /** The rows after the first were there before exactly if they are there after it, but for those of its own key. */
  lemma SameKey(s: Store, rows: seq<(PartitionId, RawId)>, s1: Store, k: DeliveryKey)
    requires rows != [] && k == Normalizes(rows[0]) && s1.outbox.Keys == s.outbox.Keys + {k}
    ensures (forall m :: m in rows ==> Normalizes(m) in s.outbox) <==>
            k in s.outbox && forall m :: m in rows[1..] ==> Normalizes(m) in s1.outbox
  {
    assert forall m :: m in rows <==> m == rows[0] || m in rows[1..];
  }

  lemma {:induction false} WithoutHas(b: seq<DeliveryKey>, a: seq<DeliveryKey>, k: DeliveryKey)
    ensures k in Without(b, a) <==> k in b && k !in a
  {
    if b != [] { WithoutHas(b[1..], a, k); }
  }

  lemma {:induction false} WithoutDistinct(b: seq<DeliveryKey>, a: seq<DeliveryKey>)
    requires Distinct(b)
    ensures Distinct(Without(b, a))
  {
    if b != [] {
      assert Distinct(b[1..]);
      WithoutDistinct(b[1..], a);
      WithoutHas(b[1..], a, b[0]);
      assert b[0] !in b[1..];
    }
  }

  /** The deliveries of the rows, each where it first comes up, as a set that keeps its order gathers them. */
  function FirstSeen(rows: seq<(PartitionId, RawId)>): seq<DeliveryKey> {
    if rows == [] then [] else
    var before, k := FirstSeen(rows[..|rows| - 1]), Normalizes(rows[|rows| - 1]);
    if k in before then before else before + [k]
  }

  lemma {:induction false} WithoutLast(b: seq<DeliveryKey>, y: DeliveryKey, k: DeliveryKey)
    ensures Without(b + [y], [k]) == Without(b, [k]) + if y == k then [] else [y]
  {
    if b == [] {
      assert [] + [y] == [y] && [y][1..] == [];
    } else {
      ConsSplit(b, [y]);
      WithoutLast(b[1..], y, k);
    }
  }

  lemma {:induction false} FirstSeenCons(x: (PartitionId, RawId), rest: seq<(PartitionId, RawId)>)
    ensures FirstSeen([x] + rest) == [Normalizes(x)] + Without(FirstSeen(rest), [Normalizes(x)])
    decreases |rest|
  {
    var k := Normalizes(x);
    if rest == [] {
      assert ([x] + rest)[..0] == [] && [x] + rest == [x];
      assert FirstSeen([x]) == [] + [k];
    } else {
      var init, y := rest[..|rest| - 1], Normalizes(rest[|rest| - 1]);
      FirstSeenCons(x, init);
      assert ([x] + rest)[..|rest|] == [x] + init && ([x] + rest)[|rest|] == rest[|rest| - 1];
      WithoutLast(FirstSeen(init), y, k);
      WithoutHas(FirstSeen(init), [k], y);
    }
  }

  /** A replay names its deliveries in that order. */
  lemma {:induction false} ReplanInOrder(s: Store, rows: seq<(PartitionId, RawId)>, at: Instant)
    requires ReplanRows(s, rows, at).Done?
    ensures ReplanRows(s, rows, at).value.deliveries == FirstSeen(rows)
    decreases |rows|
  {
    if rows != [] {
      ReplanInOrder(ReplanRow(s, rows[0], at).store, rows[1..], at);
      FirstSeenCons(rows[0], rows[1..]);
      assert [rows[0]] + rows[1..] == rows;
    }
  }
}
