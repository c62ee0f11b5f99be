/** The order in which due deliveries are handed out, batch after batch. */
module DeliveryClaims {
  import opened Common
  import opened CollectionState
  import opened CollectionHistory

  /** The order of the random row ids. */
  type IdOrder = DeliveryKey -> nat

  ghost predicate Injective(ids: IdOrder) {
    forall a, b :: ids(a) == ids(b) ==> a == b
  }

  /** Earlier `notBefore` first, then the smaller id. */
  predicate Before(outbox: Outbox, ids: IdOrder, a: DeliveryKey, b: DeliveryKey)
    requires a in outbox && b in outbox
  {
    outbox[a].notBefore < outbox[b].notBefore || (outbox[a].notBefore == outbox[b].notBefore && ids(a) < ids(b))
  }

  predicate First(outbox: Outbox, ids: IdOrder, keys: set<DeliveryKey>, k: DeliveryKey)
    requires keys <= outbox.Keys
  {
    k in keys && forall j :: j in keys ==> j == k || Before(outbox, ids, k, j)
  }

  lemma {:induction false} FirstExists(outbox: Outbox, ids: IdOrder, keys: set<DeliveryKey>)
    requires Injective(ids) && keys <= outbox.Keys && keys != {}
    ensures exists k :: First(outbox, ids, keys, k)
    decreases |keys|
  {
    var a :| a in keys;
    if keys == {a} {
      assert First(outbox, ids, keys, a);
    } else {
      assert keys == (keys - {a}) + {a};
      FirstExists(outbox, ids, keys - {a});
      var k :| First(outbox, ids, keys - {a}, k);
      if Before(outbox, ids, a, k) {
        assert First(outbox, ids, keys, a);
      } else {
        assert First(outbox, ids, keys, k);
      }
    }
  }

  function Elements(q: seq<DeliveryKey>): (r: set<DeliveryKey>)
    ensures forall k :: k in r <==> k in q
  {
    set k | k in q
  }

  ghost function FirstOf(outbox: Outbox, ids: IdOrder, keys: set<DeliveryKey>): (k: DeliveryKey)
    requires Injective(ids) && keys <= outbox.Keys && keys != {}
    ensures First(outbox, ids, keys, k)
  {
    FirstExists(outbox, ids, keys);
    var k :| First(outbox, ids, keys, k);
    k
  }

  /** The keys in hand-out order. */
  ghost function InOrder(outbox: Outbox, ids: IdOrder, keys: set<DeliveryKey>): (q: seq<DeliveryKey>)
    requires Injective(ids) && keys <= outbox.Keys
    ensures |q| == |keys|
    decreases |keys|
  {
    if keys == {} then [] else
    var k := FirstOf(outbox, ids, keys);
    [k] + InOrder(outbox, ids, keys - {k})
  }

  lemma {:induction false} InOrderElements(outbox: Outbox, ids: IdOrder, keys: set<DeliveryKey>)
    requires Injective(ids) && keys <= outbox.Keys
    ensures forall k :: k in InOrder(outbox, ids, keys) <==> k in keys
    decreases |keys|
  {
    if keys != {} {
      InOrderElements(outbox, ids, keys - {FirstOf(outbox, ids, keys)});
    }
  }

  lemma {:induction false} InOrderSorted(outbox: Outbox, ids: IdOrder, keys: set<DeliveryKey>, i: nat, j: nat)
    requires Injective(ids) && keys <= outbox.Keys && i < j < |keys|
    ensures var q := InOrder(outbox, ids, keys);
            q[i] in outbox && q[j] in outbox && q[i] != q[j] &&
            outbox[q[i]].notBefore <= outbox[q[j]].notBefore &&
            (outbox[q[i]].notBefore == outbox[q[j]].notBefore ==> ids(q[i]) < ids(q[j]))
    decreases |keys|
  {
    var q := InOrder(outbox, ids, keys);
    var rest := InOrder(outbox, ids, keys - {q[0]});
    InOrderElements(outbox, ids, keys - {q[0]});
    assert q[1..] == rest && q[j] == rest[j - 1] && rest[j - 1] in rest;
    if i > 0 {
      InOrderSorted(outbox, ids, keys - {q[0]}, i - 1, j - 1);
    }
  }

  lemma InOrderDistinct(outbox: Outbox, ids: IdOrder, keys: set<DeliveryKey>)
    requires Injective(ids) && keys <= outbox.Keys
    ensures Distinct(InOrder(outbox, ids, keys))
  {
    var q := InOrder(outbox, ids, keys);
    forall i, j | 0 <= i < j < |q| ensures q[i] != q[j] {
      InOrderSorted(outbox, ids, keys, i, j);
    }
  }

  /** Leasing does not move a delivery in the order. */
  lemma {:induction false} OrderIgnoresLeases(a: Outbox, b: Outbox, ids: IdOrder, keys: set<DeliveryKey>)
    requires Injective(ids) && keys <= a.Keys && keys <= b.Keys
    requires forall k :: k in keys ==> a[k].notBefore == b[k].notBefore
    ensures InOrder(a, ids, keys) == InOrder(b, ids, keys)
    decreases |keys|
  {
    if keys != {} {
      var k := FirstOf(a, ids, keys);
      assert FirstOf(b, ids, keys) == k;
      OrderIgnoresLeases(a, b, ids, keys - {k});
    }
  }

  lemma InOrderCons(outbox: Outbox, ids: IdOrder, keys: set<DeliveryKey>, q: seq<DeliveryKey>)
    requires Injective(ids) && keys <= outbox.Keys && keys != {} && q == InOrder(outbox, ids, keys)
    ensures q != [] && q[0] in keys && q[1..] == InOrder(outbox, ids, keys - {q[0]})
  {}

  lemma {:induction false} OrderAfterPrefix(
      outbox: Outbox, ids: IdOrder, keys: set<DeliveryKey>, q: seq<DeliveryKey>, n: nat)
    requires Injective(ids) && keys <= outbox.Keys && q == InOrder(outbox, ids, keys) && n <= |q|
    ensures InOrder(outbox, ids, keys - Elements(q[..n])) == q[n..]
    decreases n
  {
    if n == 0 {
      assert keys - Elements(q[..0]) == keys;
    } else {
      InOrderCons(outbox, ids, keys, q);
      var rest := keys - {q[0]};
      OrderAfterPrefix(outbox, ids, rest, q[1..], n - 1);
      PrefixElements(q, n);
      assert keys - Elements(q[..n]) == rest - Elements(q[1..][..n - 1]);
    }
  }

  /** Leasing or not, the order of what is left after the first `n` is the rest of the order. */
  lemma OrderAfterBatch(a: Outbox, b: Outbox, ids: IdOrder, keys: set<DeliveryKey>, n: nat)
    requires Injective(ids) && keys <= a.Keys && keys <= b.Keys && n <= |keys|
    requires forall k :: k in keys ==> a[k].notBefore == b[k].notBefore
    ensures var q := InOrder(a, ids, keys);
            InOrder(b, ids, keys - Elements(q[..n])) == q[n..]
  {
    OrderAfterPrefix(a, ids, keys, InOrder(a, ids, keys), n);
    OrderIgnoresLeases(a, b, ids, keys - Elements(InOrder(a, ids, keys)[..n]));
  }

  lemma PrefixElements(q: seq<DeliveryKey>, n: nat)
    requires 0 < n <= |q|
    ensures Elements(q[..n]) == {q[0]} + Elements(q[1..][..n - 1])
  {
    assert q[..n] == [q[0]] + q[1..][..n - 1];
  }

  // ---------- Batches ----------

  ghost function DueKeys(s: Store, now: Instant, mode: Option<Mode>): set<DeliveryKey> {
    set k | k in s.outbox && Due(s, k, now, mode)
  }

  function UpTo<T>(q: seq<T>, n: nat): seq<T> {
    if |q| <= n then q else q[..n]
  }

  /** `p` is the first `n` of `q`, or all of it. */
  ghost predicate Takes<T>(p: seq<T>, q: seq<T>, n: nat) {
    p <= q && |p| == if |q| <= n then |q| else n
  }

  lemma UpToTakes<T>(p: seq<T>, q: seq<T>, n: nat)
    ensures Takes(p, q, n) <==> p == UpTo(q, n)
  {}

  lemma TakesJoin<T>(a: seq<T>, b: seq<T>, q: seq<T>, m: nat, n: nat)
    requires Takes(a, q, m) && Takes(b, q[|a|..], n)
    ensures Takes(a + b, q, m + n)
  {
    assert q == a + q[|a|..];
  }

  ghost function NextBatch(s: Store, ids: IdOrder, now: Instant, limit: nat, mode: Option<Mode>): seq<DeliveryKey>
    requires Injective(ids)
  {
    UpTo(InOrder(s.outbox, ids, DueKeys(s, now, mode)), limit)
  }

  /** `n` batches in a row at one instant: what they hand out, and the store they leave. */
  ghost function Batches(s: Store, ids: IdOrder, now: Instant, limit: nat, leaseMs: int, mode: Option<Mode>, n: nat)
    : (seq<DeliveryKey>, Store)
    requires Injective(ids)
    decreases n
  {
    if n == 0 then ([], s) else
    var batch := NextBatch(s, ids, now, limit, mode);
    var after := After(s, LeaseBatch(s, batch, now, limit, leaseMs, mode));
    var rest := Batches(after, ids, now, limit, leaseMs, mode, n - 1);
    (batch + rest.0, rest.1)
  }

  lemma InOrderStep(outbox: Outbox, ids: IdOrder, keys: set<DeliveryKey>, k: DeliveryKey)
    requires Injective(ids) && keys <= outbox.Keys && First(outbox, ids, keys, k)
    ensures InOrder(outbox, ids, keys) == [k] + InOrder(outbox, ids, keys - {k})
  {
    assert FirstOf(outbox, ids, keys) == k;
  }

  lemma OneMoreInOrder(
      outbox: Outbox, ids: IdOrder, keys: set<DeliveryKey>, k: DeliveryKey, rows: seq<DeliveryKey>,
      all: seq<DeliveryKey>)
    requires Injective(ids) && keys <= outbox.Keys && First(outbox, ids, keys, k)
    requires rows + InOrder(outbox, ids, keys) == all
    ensures rows + [k] + InOrder(outbox, ids, keys - {k}) == all
  {
    InOrderStep(outbox, ids, keys, k);
  }

  /** Order and limit: the first `limit` of the keys. */
  method PickFirst(outbox: Outbox, ids: IdOrder, keys: set<DeliveryKey>, limit: nat) returns (rows: seq<DeliveryKey>)
    requires Injective(ids) && keys <= outbox.Keys
    ensures rows == UpTo(InOrder(outbox, ids, keys), limit)
  {
    var remaining := keys;
    rows := [];
    ghost var all := InOrder(outbox, ids, keys);
    while |rows| < limit && remaining != {}
      invariant remaining <= outbox.Keys && |rows| <= limit
      invariant rows + InOrder(outbox, ids, remaining) == all
      decreases |remaining|
    {
      FirstExists(outbox, ids, remaining);
      var k :| k in remaining && First(outbox, ids, remaining, k);
      OneMoreInOrder(outbox, ids, remaining, k, rows, all);
      rows, remaining := rows + [k], remaining - {k};
    }
    UpToTakes(rows, all, limit);
  }

  lemma UpToInside<T>(q: seq<T>, n: nat)
    ensures |UpTo(q, n)| <= n && (Distinct(q) ==> Distinct(UpTo(q, n)))
    ensures forall k :: k in UpTo(q, n) ==> k in q
  {}

  lemma NextBatchIsDue(s: Store, ids: IdOrder, now: Instant, limit: nat, leaseMs: int, mode: Option<Mode>)
    requires Injective(ids) && ValidBatch(limit, leaseMs)
    ensures LeaseBatch(s, NextBatch(s, ids, now, limit, mode), now, limit, leaseMs, mode).Done?
  {
    var q := InOrder(s.outbox, ids, DueKeys(s, now, mode));
    InOrderDistinct(s.outbox, ids, DueKeys(s, now, mode));
    InOrderElements(s.outbox, ids, DueKeys(s, now, mode));
    UpToInside(q, limit);
  }

  lemma LeasedIsNotDue(s: Store, batch: seq<DeliveryKey>, now: Instant, limit: nat, leaseMs: int, mode: Option<Mode>)
    requires LeaseBatch(s, batch, now, limit, leaseMs, mode).Done?
    ensures var t := LeaseBatch(s, batch, now, limit, leaseMs, mode).store;
            && DueKeys(t, now, mode) == DueKeys(s, now, mode) - Elements(batch)
            && s.outbox.Keys <= t.outbox.Keys
            && forall k :: k in s.outbox ==> t.outbox[k].notBefore == s.outbox[k].notBefore
  {
    LeaseAllEpochs(s.outbox, batch, now, leaseMs);
  }

  /** A batch is leased past `now`, so exactly its deliveries stop being due; the others keep their order. */
  lemma BatchStopsBeingDue(s: Store, ids: IdOrder, now: Instant, limit: nat, leaseMs: int, mode: Option<Mode>)
    requires Injective(ids) && ValidBatch(limit, leaseMs)
    ensures var batch := NextBatch(s, ids, now, limit, mode);
            var o := LeaseBatch(s, batch, now, limit, leaseMs, mode);
            && o.Done?
            && InOrder(o.store.outbox, ids, DueKeys(o.store, now, mode)) ==
               InOrder(s.outbox, ids, DueKeys(s, now, mode))[|batch|..]
  {
    var due := DueKeys(s, now, mode);
    var batch := NextBatch(s, ids, now, limit, mode);
    NextBatchIsDue(s, ids, now, limit, leaseMs, mode);
    LeasedIsNotDue(s, batch, now, limit, leaseMs, mode);
    var t := LeaseBatch(s, batch, now, limit, leaseMs, mode).store;
    NextBatchIsPrefix(s, ids, now, limit, mode);
    OrderAfterBatch(s.outbox, t.outbox, ids, due, |batch|);
  }

  lemma NextBatchIsPrefix(s: Store, ids: IdOrder, now: Instant, limit: nat, mode: Option<Mode>)
    requires Injective(ids)
    ensures var batch := NextBatch(s, ids, now, limit, mode);
            |batch| <= |DueKeys(s, now, mode)| && batch == InOrder(s.outbox, ids, DueKeys(s, now, mode))[..|batch|]
  {}

  function Times(n: nat, limit: nat): nat {
    if n == 0 then 0 else limit + Times(n - 1, limit)
  }

  lemma {:induction false} TimesIsProduct(n: nat, limit: nat)
    ensures Times(n, limit) == n * limit
  {
    if n > 0 {
      TimesIsProduct(n - 1, limit);
      assert limit + (n - 1) * limit == n * limit;
    }
  }

  /** One batch takes the front of the order and leaves the rest as the order of the store it leaves. */
  lemma BatchTakesFront(
      s: Store, ids: IdOrder, now: Instant, limit: nat, leaseMs: int, mode: Option<Mode>, due: seq<DeliveryKey>)
    returns (batch: seq<DeliveryKey>, t: Store)
    requires Injective(ids) && ValidBatch(limit, leaseMs)
    requires due == InOrder(s.outbox, ids, DueKeys(s, now, mode))
    ensures batch == NextBatch(s, ids, now, limit, mode) && Takes(batch, due, limit)
    ensures t == After(s, LeaseBatch(s, batch, now, limit, leaseMs, mode))
    ensures due[|batch|..] == InOrder(t.outbox, ids, DueKeys(t, now, mode))
  {
    batch := NextBatch(s, ids, now, limit, mode);
    t := After(s, LeaseBatch(s, batch, now, limit, leaseMs, mode));
    UpToTakes(batch, due, limit);
    BatchStopsBeingDue(s, ids, now, limit, leaseMs, mode);
  }

  lemma BatchesCons(s: Store, ids: IdOrder, now: Instant, limit: nat, leaseMs: int, mode: Option<Mode>, n: nat,
                    batch: seq<DeliveryKey>, t: Store)
    requires Injective(ids) && n > 0 && batch == NextBatch(s, ids, now, limit, mode)
    requires t == After(s, LeaseBatch(s, batch, now, limit, leaseMs, mode))
    ensures Batches(s, ids, now, limit, leaseMs, mode, n).0 ==
            batch + Batches(t, ids, now, limit, leaseMs, mode, n - 1).0
  {}

  lemma FrontThenRest(batch: seq<DeliveryKey>, rest: seq<DeliveryKey>, due: seq<DeliveryKey>, limit: nat, n: nat)
    requires n > 0 && Takes(batch, due, limit) && Takes(rest, due[|batch|..], Times(n - 1, limit))
    ensures Takes(batch + rest, due, Times(n, limit))
  {
    TakesJoin(batch, rest, due, limit, Times(n - 1, limit));
  }

  lemma {:induction false} BatchesTake(
      s: Store, ids: IdOrder, now: Instant, limit: nat, leaseMs: int, mode: Option<Mode>, n: nat,
      due: seq<DeliveryKey>)
    requires Injective(ids) && ValidBatch(limit, leaseMs)
    requires due == InOrder(s.outbox, ids, DueKeys(s, now, mode))
    ensures Takes(Batches(s, ids, now, limit, leaseMs, mode, n).0, due, Times(n, limit))
    decreases n
  {
    if n > 0 {
      var batch, t := BatchTakesFront(s, ids, now, limit, leaseMs, mode, due);
      BatchesTake(t, ids, now, limit, leaseMs, mode, n - 1, due[|batch|..]);
      BatchesCons(s, ids, now, limit, leaseMs, mode, n, batch, t);
      FrontThenRest(batch, Batches(t, ids, now, limit, leaseMs, mode, n - 1).0, due, limit, n);
    }
  }

  /** Repeated batches at one instant hand out the due deliveries in order, each exactly once. */
  lemma BatchesHandOutInOrder(
      s: Store, ids: IdOrder, now: Instant, limit: nat, leaseMs: int, mode: Option<Mode>, n: nat)
    requires Injective(ids) && ValidBatch(limit, leaseMs)
    ensures Batches(s, ids, now, limit, leaseMs, mode, n).0 ==
            UpTo(InOrder(s.outbox, ids, DueKeys(s, now, mode)), n * limit)
  {
    TimesIsProduct(n, limit);
    var due := InOrder(s.outbox, ids, DueKeys(s, now, mode));
    BatchesTake(s, ids, now, limit, leaseMs, mode, n, due);
    UpToTakes(Batches(s, ids, now, limit, leaseMs, mode, n).0, due, n * limit);
  }

  function Ceiling(size: nat, limit: nat): nat
    requires limit > 0
  {
    (size + limit - 1) / limit
  }

  lemma CeilingCovers(size: nat, limit: nat)
    requires limit > 0
    ensures Times(Ceiling(size, limit), limit) >= size
  {
    TimesIsProduct(Ceiling(size, limit), limit);
  }

  lemma AllHandedOut(s: Store, ids: IdOrder, now: Instant, limit: nat, leaseMs: int, mode: Option<Mode>, n: nat)
    requires Injective(ids) && ValidBatch(limit, leaseMs) && Times(n, limit) >= |DueKeys(s, now, mode)|
    ensures Distinct(Batches(s, ids, now, limit, leaseMs, mode, n).0)
    ensures forall k :: k in Batches(s, ids, now, limit, leaseMs, mode, n).0 <==> k in DueKeys(s, now, mode)
  {
    BatchesTake(s, ids, now, limit, leaseMs, mode, n, InOrder(s.outbox, ids, DueKeys(s, now, mode)));
    InOrderDistinct(s.outbox, ids, DueKeys(s, now, mode));
    InOrderElements(s.outbox, ids, DueKeys(s, now, mode));
  }

  /** ceil(due / limit) batches are enough to hand out every due delivery, each once. */
  lemma EnoughBatches(s: Store, ids: IdOrder, now: Instant, limit: nat, leaseMs: int, mode: Option<Mode>, n: nat)
    requires Injective(ids) && ValidBatch(limit, leaseMs) && n == Ceiling(|DueKeys(s, now, mode)|, limit)
    ensures var handed := Batches(s, ids, now, limit, leaseMs, mode, n).0;
            && Distinct(handed)
            && (forall k :: k in handed <==> k in s.outbox && Due(s, k, now, mode))
  {
    assert Times(n, limit) >= |DueKeys(s, now, mode)| by {
      CeilingCovers(|DueKeys(s, now, mode)|, limit);
    }
    AllHandedOut(s, ids, now, limit, leaseMs, mode, n);
  }

  /** An open delivery is handed out again as soon as its lease and the resend gap have passed, and not before. */
  lemma OpenDeliveryComesBack(
      s: Store, key: DeliveryKey, ids: IdOrder, now: Instant, limit: nat, leaseMs: int, mode: Option<Mode>, n: nat)
    requires Injective(ids) && ValidBatch(limit, leaseMs) && n == Ceiling(|DueKeys(s, now, mode)|, limit)
    requires key in s.outbox && s.outbox[key].completedAt.None?
    requires s.outbox[key].partition in s.partitions && Dispatchable(s.catalog, s.outbox[key].partition, mode)
    ensures var d := s.outbox[key];
            key in Batches(s, ids, now, limit, leaseMs, mode, n).0 <==>
              && d.notBefore <= now
              && (d.leaseUntil.Some? ==> d.leaseUntil.value <= now)
              && (d.sentAt.Some? ==> d.sentAt.value + 30000 <= now)
  {
    EnoughBatches(s, ids, now, limit, leaseMs, mode, n);
  }
}
