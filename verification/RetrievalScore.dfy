/** The retrieval scores of a release evaluation. Sums are over the reals; `discount` is the weight of a rank. */
module RetrievalScore {
  import opened Common

  type Id = string
  type Discount = nat -> real

  datatype Hit = Hit(chunk: Id, revision: Id, document: Id, cluster: Option<Id>)

  datatype Score = Score(recall: Option<real>, ndcg: Option<real>, redundancy: real, repeated: real)

  /** A question's score, with the chunks and revisions it is of. */
  datatype Scored = Scored(id: Id, chunks: seq<Id>, revisions: seq<Id>, score: Score, latencyMs: int)

  /** What `1 / log2(rank + 2)` is: positive and strictly decreasing. */
  ghost predicate Decreasing(discount: Discount) {
    && (forall i: nat :: discount(i) > 0.0)
    && (forall i: nat, j: nat :: i < j ==> discount(i) > discount(j))
  }

  function Top(hits: seq<Hit>): seq<Hit> {
    hits[..Min(10, |hits|)]
  }

  // ---------- What the scores mean ----------

  /** The hit at rank `i` is relevant and the first of its revision. */
  predicate Gains(top: seq<Hit>, relevant: set<Id>, i: nat)
    requires i < |top|
  {
    top[i].revision in relevant && forall j :: 0 <= j < i ==> top[j].revision != top[i].revision
  }

  function Gain(top: seq<Hit>, relevant: set<Id>, discount: Discount, n: nat): real
    requires n <= |top|
  {
    if n == 0 then 0.0
    else Gain(top, relevant, discount, n - 1) + if Gains(top, relevant, n - 1) then discount(n - 1) else 0.0
  }

  function Ideal(discount: Discount, n: nat): real {
    if n == 0 then 0.0 else Ideal(discount, n - 1) + discount(n - 1)
  }

  /** How many distinct relevant revisions the first `n` hits name. */
  function Found(top: seq<Hit>, relevant: set<Id>, n: nat): (c: nat)
    requires n <= |top|
    ensures c <= n
  {
    if n == 0 then 0 else Found(top, relevant, n - 1) + if Gains(top, relevant, n - 1) then 1 else 0
  }

  function Revisions(top: seq<Hit>): set<Id> {
    set h | h in top :: h.revision
  }

  lemma RevisionsStep(top: seq<Hit>, i: nat)
    requires i < |top|
    ensures Revisions(top[..i + 1]) == Revisions(top[..i]) + {top[i].revision}
    ensures top[i].revision in Revisions(top[..i]) <==> exists j :: 0 <= j < i && top[j].revision == top[i].revision
  {
    assert top[..i + 1] == top[..i] + [top[i]];
    if j :| 0 <= j < i && top[j].revision == top[i].revision { assert top[..i][j] in top[..i]; }
  }

  lemma AddOne(a: set<Id>, b: set<Id>, x: Id)
    ensures |(a + {x}) * b| == |a * b| + if x in b && x !in a then 1 else 0
  {
    if x in b && x !in a {
      assert (a + {x}) * b == a * b + {x};
    } else {
      assert (a + {x}) * b == a * b;
    }
  }

  lemma GainsIff(top: seq<Hit>, relevant: set<Id>, i: nat)
    requires i < |top|
    ensures Gains(top, relevant, i) <==> top[i].revision in relevant && top[i].revision !in Revisions(top[..i])
  {
    RevisionsStep(top, i);
  }

  lemma {:induction false} FoundIsDistinct(top: seq<Hit>, relevant: set<Id>, n: nat)
    requires n <= |top|
    ensures Found(top, relevant, n) == |Revisions(top[..n]) * relevant|
  {
    if n == 0 {
      assert Revisions(top[..0]) * relevant == {};
    } else {
      var i := n - 1;
      FoundIsDistinct(top, relevant, i);
      GainsIff(top, relevant, i);
      RevisionsStep(top, i);
      AddOne(Revisions(top[..i]), relevant, top[i].revision);
    }
  }

  lemma {:induction false} IdealGrows(discount: Discount, m: nat, n: nat)
    requires Decreasing(discount) && m <= n
    ensures Ideal(discount, m) <= Ideal(discount, n)
    ensures m < n ==> Ideal(discount, m) < Ideal(discount, n)
  {
    if m < n { IdealGrows(discount, m, n - 1); }
  }

  ghost predicate AllGain(top: seq<Hit>, relevant: set<Id>, k: int)
    requires k <= |top|
  {
    forall i :: 0 <= i < k ==> Gains(top, relevant, i)
  }

  /** What is gained is the ideal exactly when as many hits gain at once, from the first on. */
  ghost predicate MeetsIff(top: seq<Hit>, relevant: set<Id>, discount: Discount, n: nat)
    requires n <= |top|
  {
    Gain(top, relevant, discount, n) == Ideal(discount, Found(top, relevant, n)) <==>
    AllGain(top, relevant, Found(top, relevant, n))
  }

  lemma NoGain(top: seq<Hit>, relevant: set<Id>, discount: Discount, n: nat)
    requires n < |top| && !Gains(top, relevant, n) && MeetsIff(top, relevant, discount, n)
    ensures MeetsIff(top, relevant, discount, n + 1)
  {
    assert Found(top, relevant, n + 1) == Found(top, relevant, n);
    assert Gain(top, relevant, discount, n + 1) == Gain(top, relevant, discount, n) + 0.0;
  }

  lemma EarlyGain(top: seq<Hit>, relevant: set<Id>, discount: Discount, n: nat)
    requires Decreasing(discount) && n < |top| && Gains(top, relevant, n) && Found(top, relevant, n) == n
    requires MeetsIff(top, relevant, discount, n)
    ensures MeetsIff(top, relevant, discount, n + 1)
  {}

  lemma LateMeets(top: seq<Hit>, relevant: set<Id>, discount: Discount, n: nat)
    requires Decreasing(discount) && n < |top| && Gains(top, relevant, n) && Found(top, relevant, n) < n
    requires Gain(top, relevant, discount, n) <= Ideal(discount, Found(top, relevant, n))
    ensures MeetsIff(top, relevant, discount, n + 1)
  {
    LateGain(top, relevant, discount, n);
    NotAllGain(top, relevant, n);
  }

  /** A gain that comes later than its rank among the gains is discounted more than the ideal. */
  lemma LateGain(top: seq<Hit>, relevant: set<Id>, discount: Discount, n: nat)
    requires Decreasing(discount) && n < |top| && Gains(top, relevant, n) && Found(top, relevant, n) < n
    requires Gain(top, relevant, discount, n) <= Ideal(discount, Found(top, relevant, n))
    ensures Gain(top, relevant, discount, n + 1) < Ideal(discount, Found(top, relevant, n + 1))
  {
    assert discount(n) < discount(Found(top, relevant, n));
  }

  lemma {:induction false} GainIdealBounds(top: seq<Hit>, relevant: set<Id>, discount: Discount, n: nat)
    requires Decreasing(discount) && n <= |top|
    ensures 0.0 <= Gain(top, relevant, discount, n) <= Ideal(discount, Found(top, relevant, n))
  {
    if n > 0 {
      GainIdealBounds(top, relevant, discount, n - 1);
      if Gains(top, relevant, n - 1) && Found(top, relevant, n - 1) < n - 1 {
        LateGain(top, relevant, discount, n - 1);
      }
    }
  }

  lemma {:induction false} GainMeetsIff(top: seq<Hit>, relevant: set<Id>, discount: Discount, n: nat)
    requires Decreasing(discount) && n <= |top|
    ensures MeetsIff(top, relevant, discount, n)
  {
    if n > 0 {
      GainMeetsIff(top, relevant, discount, n - 1);
      GainIdealBounds(top, relevant, discount, n - 1);
      if !Gains(top, relevant, n - 1) {
        NoGain(top, relevant, discount, n - 1);
      } else if Found(top, relevant, n - 1) == n - 1 {
        EarlyGain(top, relevant, discount, n - 1);
      } else {
        LateMeets(top, relevant, discount, n - 1);
      }
    }
  }

  /** The first `n` hits gain at most what as many relevant hits would in the first places. */
  lemma GainBelowIdeal(top: seq<Hit>, relevant: set<Id>, discount: Discount, n: nat)
    requires Decreasing(discount) && n <= |top|
    ensures 0.0 <= Gain(top, relevant, discount, n) <= Ideal(discount, Found(top, relevant, n))
    ensures Gain(top, relevant, discount, n) == Ideal(discount, Found(top, relevant, n)) <==>
            AllGain(top, relevant, Found(top, relevant, n))
  {
    GainIdealBounds(top, relevant, discount, n);
    GainMeetsIff(top, relevant, discount, n);
  }

  lemma {:induction false} AllGainFound(top: seq<Hit>, relevant: set<Id>, k: nat)
    requires k <= |top| && forall i :: 0 <= i < k ==> Gains(top, relevant, i)
    ensures Found(top, relevant, k) == k
  {
    if k > 0 { AllGainFound(top, relevant, k - 1); }
  }

  lemma {:induction false} FoundGrows(top: seq<Hit>, relevant: set<Id>, m: nat, n: nat)
    requires m <= n <= |top|
    ensures Found(top, relevant, m) <= Found(top, relevant, n)
  {
    if m < n { FoundGrows(top, relevant, m, n - 1); }
  }

  /** With fewer gains than hits before a gaining rank, some rank up to that count does not gain. */
  lemma NotAllGain(top: seq<Hit>, relevant: set<Id>, n: nat)
    requires n < |top| && Found(top, relevant, n) < n
    ensures !forall i :: 0 <= i < Found(top, relevant, n) + 1 ==> Gains(top, relevant, i)
  {
    var c := Found(top, relevant, n);
    if forall i :: 0 <= i < c + 1 ==> Gains(top, relevant, i) {
      AllGainFound(top, relevant, c + 1);
      FoundGrows(top, relevant, c + 1, n);
    }
  }

  // ---------- The scorer ----------

  function Relevant(ids: seq<Id>): set<Id> {
    set id | id in ids
  }

  function IndependentKeys(top: seq<Hit>): set<Id> {
    set h | h in top :: if h.cluster.Some? then h.cluster.value else h.document
  }

  function Chunks(top: seq<Hit>): set<Id> {
    set h | h in top :: h.chunk
  }

  function ScoreOf(ids: seq<Id>, hits: seq<Hit>, discount: Discount): Score {
    var top := Top(hits);
    var relevant := Relevant(ids);
    var ideal := Ideal(discount, Min(10, |relevant|));
    Score(
      if relevant != {} then Some(|Revisions(top) * relevant| as real / |relevant| as real) else None,
      if ideal != 0.0 then Some(Gain(top, relevant, discount, |top|) / ideal) else None,
      if |top| > 0 then 1.0 - |IndependentKeys(top)| as real / |top| as real else 0.0,
      if |top| > 0 then 1.0 - |Chunks(top)| as real / |top| as real else 0.0)
  }

  function Column(top: seq<Hit>, of: Hit -> Id): (q: seq<Id>)
    ensures |q| == |top| && forall i :: 0 <= i < |top| ==> q[i] == of(top[i])
  {
    seq(|top|, i requires 0 <= i < |top| => of(top[i]))
  }

  method ScoreRetrieval(id: Id, ids: seq<Id>, hits: seq<Hit>, discount: Discount, latencyMs: int)
    returns (r: Result<Scored, ()>)
    ensures latencyMs < 0 ==> r == Err(())
    ensures latencyMs >= 0 ==> r.Ok? && r.value.id == id && r.value.latencyMs == latencyMs
    ensures latencyMs >= 0 ==> r.value.score == ScoreOf(ids, hits, discount)
    ensures latencyMs >= 0 ==> |r.value.chunks| == |r.value.revisions| == Min(10, |hits|)
    ensures latencyMs >= 0 ==>
              forall i :: 0 <= i < Min(10, |hits|) ==>
                r.value.chunks[i] == hits[i].chunk && r.value.revisions[i] == hits[i].revision
  {
    if latencyMs < 0 { return Err(()); }
    var top := Top(hits);
    var relevant := Relevant(ids);
    var found := FoundRelevant(top, relevant);
    var dcg := DiscountedGain(top, relevant, discount);
    var ideal := IdealGain(discount, Min(10, |relevant|));
    var recall := if relevant != {} then Some(found as real / |relevant| as real) else None;
    var ndcg := if ideal != 0.0 then Some(dcg / ideal) else None;
    var redundancy := if |top| > 0 then 1.0 - |IndependentKeys(top)| as real / |top| as real else 0.0;
    var repeated := if |top| > 0 then 1.0 - |Chunks(top)| as real / |top| as real else 0.0;
    var score := Score(recall, ndcg, redundancy, repeated);
    return Ok(Scored(id, Column(top, (h: Hit) => h.chunk), Column(top, (h: Hit) => h.revision), score, latencyMs));
  }

  method IdealGain(discount: Discount, k: nat) returns (ideal: real)
    ensures ideal == Ideal(discount, k)
  {
    ideal := 0.0;
    for i := 0 to k
      invariant ideal == Ideal(discount, i)
    {
      ideal := ideal + discount(i);
    }
  }

  method FoundRelevant(top: seq<Hit>, relevant: set<Id>) returns (found: nat)
    ensures found == |Revisions(top) * relevant|
  {
    var revisions := DistinctRevisions(top);
    found := CountRelevant(revisions, relevant);
    assert Elements(revisions) == Revisions(top);
  }

  method DistinctRevisions(top: seq<Hit>) returns (revisions: seq<Id>)
    ensures forall id :: id in revisions <==> id in Revisions(top)
    ensures forall i, j :: 0 <= i < j < |revisions| ==> revisions[i] != revisions[j]
  {
    revisions := [];
    for i := 0 to |top|
      invariant forall id :: id in revisions <==> id in Revisions(top[..i])
      invariant forall i, j :: 0 <= i < j < |revisions| ==> revisions[i] != revisions[j]
    {
      assert top[..i + 1] == top[..i] + [top[i]];
      if top[i].revision !in revisions {
        revisions := revisions + [top[i].revision];
      }
    }
    assert top[..|top|] == top;
  }

  function Elements(q: seq<Id>): set<Id> {
    set id | id in q
  }

  lemma OneMore(q: seq<Id>, relevant: set<Id>, i: nat)
    requires i < |q| && forall j :: 0 <= j < i ==> q[j] != q[i]
    ensures |Elements(q[..i + 1]) * relevant| == |Elements(q[..i]) * relevant| + if q[i] in relevant then 1 else 0
  {
    assert q[..i + 1] == q[..i] + [q[i]];
    assert Elements(q[..i + 1]) == Elements(q[..i]) + {q[i]};
    assert q[i] !in Elements(q[..i]);
    if q[i] in relevant {
      assert Elements(q[..i + 1]) * relevant == Elements(q[..i]) * relevant + {q[i]};
    } else {
      assert Elements(q[..i + 1]) * relevant == Elements(q[..i]) * relevant;
    }
  }

  method CountRelevant(revisions: seq<Id>, relevant: set<Id>) returns (count: nat)
    requires forall i, j :: 0 <= i < j < |revisions| ==> revisions[i] != revisions[j]
    ensures count == |Elements(revisions) * relevant|
  {
    count := 0;
    assert Elements(revisions[..0]) * relevant == {};
    for i := 0 to |revisions|
      invariant count == |Elements(revisions[..i]) * relevant|
    {
      OneMore(revisions, relevant, i);
      if revisions[i] in relevant {
        count := count + 1;
      }
    }
    assert revisions[..|revisions|] == revisions;
  }

  method DiscountedGain(top: seq<Hit>, relevant: set<Id>, discount: Discount) returns (dcg: real)
    ensures dcg == Gain(top, relevant, discount, |top|)
  {
    var seen: set<Id> := {};
    dcg := 0.0;
    for i := 0 to |top|
      invariant seen == Revisions(top[..i])
      invariant dcg == Gain(top, relevant, discount, i)
    {
      var id := top[i].revision;
      RevisionsStep(top, i);
      if id in relevant && id !in seen {
        dcg := dcg + discount(i);
      }
      seen := seen + {id};
    }
  }

  // ---------- Every score is in range ----------

  /** The first `k` hits name `k` distinct relevant revisions. */
  ghost predicate PerfectStart(hits: seq<Hit>, relevant: set<Id>, k: nat) {
    && k <= |hits|
    && (forall i :: 0 <= i < k ==> hits[i].revision in relevant)
    && (forall i, j :: 0 <= i < j < k ==> hits[i].revision != hits[j].revision)
  }

  lemma FoundWithin(top: seq<Hit>, relevant: set<Id>)
    requires |top| <= 10
    ensures Found(top, relevant, |top|) <= Min(10, |relevant|)
  {
    FoundIsDistinct(top, relevant, |top|);
    SubsetSmaller(Revisions(top[..|top|]) * relevant, relevant);
  }

  lemma PerfectIff(hits: seq<Hit>, relevant: set<Id>, k: nat)
    requires k <= 10
    ensures PerfectStart(hits, relevant, k) <==>
            k <= |Top(hits)| && forall i :: 0 <= i < k ==> Gains(Top(hits), relevant, i)
  {
    var top := Top(hits);
    if PerfectStart(hits, relevant, k) {
      forall i | 0 <= i < k ensures Gains(top, relevant, i) {
        assert forall j :: 0 <= j <= i ==> top[j] == hits[j];
      }
    }
    if k <= |top| && forall i :: 0 <= i < k ==> Gains(top, relevant, i) {
      forall i | 0 <= i < k
        ensures hits[i].revision in relevant && forall j :: 0 <= j < i ==> hits[j].revision != hits[i].revision
      {
        assert Gains(top, relevant, i);
        assert forall j :: 0 <= j <= i ==> top[j] == hits[j];
      }
    }
  }

  lemma GainPerfect(hits: seq<Hit>, relevant: set<Id>, discount: Discount)
    requires Decreasing(discount)
    ensures var top, k := Top(hits), Min(10, |relevant|);
            && 0.0 <= Gain(top, relevant, discount, |top|) <= Ideal(discount, k)
            && (Gain(top, relevant, discount, |top|) == Ideal(discount, k) <==> PerfectStart(hits, relevant, k))
  {
    var top, k := Top(hits), Min(10, |relevant|);
    var c := Found(top, relevant, |top|);
    FoundWithin(top, relevant);
    GainBelowIdeal(top, relevant, discount, |top|);
    IdealGrows(discount, c, k);
    PerfectIff(hits, relevant, k);
    if PerfectStart(hits, relevant, k) {
      AllGainFound(top, relevant, k);
      FoundGrows(top, relevant, k, |top|);
    }
  }

  lemma Ratio(a: real, b: real)
    requires 0.0 <= a <= b && b > 0.0
    ensures 0.0 <= a / b <= 1.0 && (a / b == 1.0 <==> a == b)
  {
    assert a / b * b == a;
  }

  lemma {:induction false} SetOfSeq<T, U>(q: seq<T>, f: T -> U, s: set<U>)
    requires s == set x | x in q :: f(x)
    ensures |s| <= |q|
  {
    if q == [] {
      assert s == {};
    } else {
      var rest := set x | x in q[1..] :: f(x);
      SetOfSeq(q[1..], f, rest);
      assert s == rest + {f(q[0])} by {
        forall y | y in s ensures y in rest + {f(q[0])} {
          var x :| x in q && y == f(x);
          assert x == q[0] || x in q[1..];
        }
      }
    }
  }

  predicate InRange(x: Option<real>) {
    x.Some? && 0.0 <= x.value <= 1.0
  }

  /** What a resumed run accepts: four numbers between 0 and 1. */
  predicate Accepted(s: Score) {
    InRange(s.recall) && InRange(s.ndcg) && InRange(Some(s.redundancy)) && InRange(Some(s.repeated))
  }

  /** nDCG is 1 exactly when the first min(10, relevant) hits are that many distinct relevant revisions. */
  lemma NdcgOneIffPerfect(ids: seq<Id>, hits: seq<Hit>, discount: Discount)
    requires Decreasing(discount) && ids != []
    ensures InRange(ScoreOf(ids, hits, discount).ndcg)
    ensures ScoreOf(ids, hits, discount).ndcg == Some(1.0) <==>
            PerfectStart(hits, Relevant(ids), Min(10, |Relevant(ids)|))
  {
    var relevant := Relevant(ids);
    assert ids[0] in relevant;
    var k := Min(10, |relevant|);
    GainPerfect(hits, relevant, discount);
    IdealGrows(discount, 0, k);
    Ratio(Gain(Top(hits), relevant, discount, |Top(hits)|), Ideal(discount, k));
  }

  lemma OthersInRange(ids: seq<Id>, hits: seq<Hit>, discount: Discount)
    ensures var s := ScoreOf(ids, hits, discount);
            && (ids != [] ==> InRange(s.recall))
            && InRange(Some(s.redundancy)) && InRange(Some(s.repeated))
  {
    var top, relevant := Top(hits), Relevant(ids);
    if ids != [] {
      assert ids[0] in relevant;
      SubsetSmaller(Revisions(top) * relevant, relevant);
      Ratio(|Revisions(top) * relevant| as real, |relevant| as real);
    }
    if |top| > 0 {
      SetOfSeq(top, (h: Hit) => if h.cluster.Some? then h.cluster.value else h.document, IndependentKeys(top));
      SetOfSeq(top, (h: Hit) => h.chunk, Chunks(top));
      Ratio(|IndependentKeys(top)| as real, |top| as real);
      Ratio(|Chunks(top)| as real, |top| as real);
    }
  }

  /** A score passes the resume check exactly when its question has a relevant revision at all. */
  lemma ScoreAcceptedIff(ids: seq<Id>, hits: seq<Hit>, discount: Discount)
    requires Decreasing(discount)
    ensures Accepted(ScoreOf(ids, hits, discount)) <==> ids != []
  {
    OthersInRange(ids, hits, discount);
    if ids != [] {
      NdcgOneIffPerfect(ids, hits, discount);
    } else {
      assert Relevant(ids) == {};
    }
  }

  // ---------- Percentiles ----------

  function Insert(x: real, q: seq<real>): seq<real> {
    if q == [] || x <= q[0] then [x] + q else [q[0]] + Insert(x, q[1..])
  }

  function Sort(q: seq<real>): seq<real> {
    if q == [] then [] else Insert(q[0], Sort(q[1..]))
  }

  function Ceiling(x: real): int {
    if x == x.Floor as real then x.Floor else x.Floor + 1
  }

  function IndexOf(share: real): nat {
    var rank := Ceiling(share) - 1;
    if rank > 0 then rank else 0
  }

  /** The share of so many values: their number times the quantile. */
  function Share(count: nat, quantile: real): real {
    if count == 0 then 0.0 else Share(count - 1, quantile) + quantile
  }

  lemma {:induction false} ShareIsProduct(count: nat, quantile: real)
    ensures Share(count, quantile) == count as real * quantile
  {
    if count > 0 { ShareIsProduct(count - 1, quantile); }
  }

  lemma {:induction false} ShareOf(count: nat, quantile: real)
    requires count > 0
    ensures quantile > 0.0 <==> Share(count, quantile) > 0.0
    ensures quantile > 1.0 <==> Share(count, quantile) > count as real
  {
    if count > 1 { ShareOf(count - 1, quantile); }
  }

  function Index(count: nat, quantile: real): nat {
    IndexOf(Share(count, quantile))
  }

  function AtShare(sorted: seq<real>, share: real): Option<real> {
    if IndexOf(share) >= |sorted| then None else Some(sorted[IndexOf(share)])
  }

  function Percentile(values: seq<real>, quantile: real): Option<real> {
    AtShare(Sort(values), Share(|values|, quantile))
  }

  function Count(q: seq<real>, p: real -> bool): nat {
    if q == [] then 0 else (if p(q[0]) then 1 else 0) + Count(q[1..], p)
  }

  function Below(v: real): real -> bool {
    x => x < v
  }

  function UpTo(v: real): real -> bool {
    x => x <= v
  }

  ghost predicate Sorted(q: seq<real>) {
    forall i, j :: 0 <= i < j < |q| ==> q[i] <= q[j]
  }

  lemma Prepend(x: real, q: seq<real>)
    requires Sorted(q) && (q == [] || x <= q[0])
    ensures Sorted([x] + q)
  {
    assert forall k :: 0 <= k < |q| ==> x <= q[k];
  }

  lemma {:induction false} InsertSorted(x: real, q: seq<real>)
    requires Sorted(q)
    ensures Sorted(Insert(x, q)) && |Insert(x, q)| == |q| + 1
    ensures Insert(x, q)[0] == if q == [] || x <= q[0] then x else q[0]
  {
    if q != [] && x > q[0] {
      InsertSorted(x, q[1..]);
      Prepend(q[0], Insert(x, q[1..]));
    } else {
      Prepend(x, q);
    }
  }

  lemma {:induction false} InsertCount(x: real, q: seq<real>, p: real -> bool)
    ensures Count(Insert(x, q), p) == Count(q, p) + if p(x) then 1 else 0
  {
    if q != [] && x > q[0] {
      InsertCount(x, q[1..], p);
      assert Insert(x, q)[1..] == Insert(x, q[1..]);
    } else {
      assert ([x] + q)[1..] == q;
    }
  }

  lemma {:induction false} SortSorted(q: seq<real>)
    ensures Sorted(Sort(q)) && |Sort(q)| == |q|
  {
    if q != [] {
      SortSorted(q[1..]);
      InsertSorted(q[0], Sort(q[1..]));
    }
  }

  lemma {:induction false} SortCount(q: seq<real>, p: real -> bool)
    ensures Count(Sort(q), p) == Count(q, p)
  {
    if q != [] {
      SortCount(q[1..], p);
      InsertCount(q[0], Sort(q[1..]), p);
    }
  }

  lemma {:induction false} CountSplit(a: seq<real>, b: seq<real>, p: real -> bool)
    ensures Count(a + b, p) == Count(a, p) + Count(b, p)
  {
    if a == [] {
      assert a + b == b;
    } else {
      CountSplit(a[1..], b, p);
      assert (a + b)[1..] == a[1..] + b;
    }
  }

  lemma {:induction false} CountAll(q: seq<real>, p: real -> bool)
    requires forall i :: 0 <= i < |q| ==> p(q[i])
    ensures Count(q, p) == |q|
  {
    if q != [] { CountAll(q[1..], p); }
  }

  lemma {:induction false} CountNone(q: seq<real>, p: real -> bool)
    requires forall i :: 0 <= i < |q| ==> !p(q[i])
    ensures Count(q, p) == 0
  {
    if q != [] { CountNone(q[1..], p); }
  }

  lemma {:induction false} CountAtMost(q: seq<real>, p: real -> bool)
    ensures Count(q, p) <= |q|
  {
    if q != [] { CountAtMost(q[1..], p); }
  }

  lemma CountParts(q: seq<real>, i: nat, p: real -> bool)
    requires i <= |q|
    ensures Count(q, p) == Count(q[..i], p) + Count(q[i..], p)
  {
    assert q == q[..i] + q[i..];
    CountSplit(q[..i], q[i..], p);
  }

  /** In a sorted list, at most the values before a place are below the value there, and all up to it are at most it. */
  lemma SortedCounts(q: seq<real>, i: nat)
    requires Sorted(q) && i < |q|
    ensures Count(q, Below(q[i])) <= i && Count(q, UpTo(q[i])) >= i + 1
  {
    CountParts(q, i, Below(q[i]));
    CountAtMost(q[..i], Below(q[i]));
    CountNone(q[i..], Below(q[i]));
    CountParts(q, i + 1, UpTo(q[i]));
    CountAll(q[..i + 1], UpTo(q[i]));
  }

  lemma IndexOfShare(share: real, n: nat)
    ensures n > 0 ==> (share > n as real <==> IndexOf(share) >= n)
    ensures share <= 0.0 ==> IndexOf(share) == 0
    ensures share > 0.0 ==> IndexOf(share) as real < share <= (IndexOf(share) + 1) as real
  {}

  /** The value found has at most its index of values below it, and more than that up to it, in whatever order. */
  lemma PercentileRank(values: seq<real>, quantile: real)
    requires values != [] && quantile <= 1.0
    ensures Percentile(values, quantile).Some?
    ensures var v := Percentile(values, quantile).value;
            Count(values, Below(v)) <= Index(|values|, quantile) < Count(values, UpTo(v))
  {
    ShareOf(|values|, quantile);
    IndexOfShare(Share(|values|, quantile), |values|);
    SortedValueRank(values, Index(|values|, quantile));
  }

  lemma SortedValueRank(values: seq<real>, index: nat)
    requires index < |values|
    ensures |Sort(values)| == |values|
    ensures var v := Sort(values)[index]; Count(values, Below(v)) <= index < Count(values, UpTo(v))
  {
    SortSorted(values);
    var v := Sort(values)[index];
    SortCount(values, Below(v));
    SortCount(values, UpTo(v));
    SortedCounts(Sort(values), index);
  }

  /** What the value at the index of a share has of the values below it and up to it. */
  ghost predicate Reaches(values: seq<real>, v: real, share: real) {
    && Count(values, UpTo(v)) as real >= share && Count(values, UpTo(v)) > 0
    && if share > 0.0 then Count(values, Below(v)) as real < share else Count(values, Below(v)) == 0
  }

  lemma SortedReaches(values: seq<real>, share: real)
    requires IndexOf(share) < |values|
    ensures |Sort(values)| == |values| && Reaches(values, Sort(values)[IndexOf(share)], share)
  {
    IndexOfShare(share, |values|);
    SortedValueRank(values, IndexOf(share));
  }

  lemma AtShareReaches(values: seq<real>, share: real)
    requires values != []
    ensures AtShare(Sort(values), share).Some? <==> share <= |values| as real
    ensures AtShare(Sort(values), share).Some? ==> Reaches(values, AtShare(Sort(values), share).value, share)
  {
    IndexOfShare(share, |values|);
    SortSorted(values);
    if IndexOf(share) < |values| { SortedReaches(values, share); }
  }

  /**
    A percentile reaches its share of the values: so many are at most it, and fewer are below it. A quantile up to 0
    gives the least value, and one above 1 none.
  */
  lemma PercentileReaches(values: seq<real>, quantile: real)
    requires values != []
    ensures Percentile(values, quantile).Some? <==> quantile <= 1.0
    ensures quantile <= 1.0 ==> Reaches(values, Percentile(values, quantile).value, Share(|values|, quantile))
  {
    ShareOf(|values|, quantile);
    AtShareReaches(values, Share(|values|, quantile));
  }

  lemma {:induction false} CountedOne(q: seq<real>, v: real)
    requires Count(q, Below(v)) < Count(q, UpTo(v))
    ensures v in q
  {
    if q[0] != v { CountedOne(q[1..], v); }
  }

  /** A percentile is one of the values. */
  lemma PercentileIsValue(values: seq<real>, quantile: real)
    requires values != [] && quantile <= 1.0
    ensures Percentile(values, quantile).Some? && Percentile(values, quantile).value in values
  {
    PercentileRank(values, quantile);
    CountedOne(values, Percentile(values, quantile).value);
  }

  // ---------- When the scores are at their ends ----------

  ghost predicate Pairwise<T, U>(q: seq<T>, f: T -> U) {
    forall i, j :: 0 <= i < j < |q| ==> f(q[i]) != f(q[j])
  }

  ghost predicate FirstAlone<T, U>(q: seq<T>, f: T -> U)
    requires q != []
  {
    forall j :: 0 < j < |q| ==> f(q[j]) != f(q[0])
  }

  lemma PairwiseCons<T, U>(q: seq<T>, f: T -> U)
    requires q != []
    ensures Pairwise(q, f) <==> FirstAlone(q, f) && Pairwise(q[1..], f)
  {
    if FirstAlone(q, f) && Pairwise(q[1..], f) {
      forall i, j | 0 <= i < j < |q| ensures f(q[i]) != f(q[j]) {
        if i > 0 { assert q[i] == q[1..][i - 1] && q[j] == q[1..][j - 1]; }
      }
    }
    if Pairwise(q, f) {
      forall i, j | 0 <= i < j < |q[1..]| ensures f(q[1..][i]) != f(q[1..][j]) {
        assert q[1..][i] == q[i + 1] && q[1..][j] == q[j + 1];
      }
    }
  }

  lemma FirstAloneIff<T, U>(q: seq<T>, f: T -> U, rest: set<U>)
    requires q != [] && rest == set x | x in q[1..] :: f(x)
    ensures FirstAlone(q, f) <==> f(q[0]) !in rest
  {
    if f(q[0]) in rest {
      var x :| x in q[1..] && f(q[0]) == f(x);
      var j :| 0 <= j < |q[1..]| && q[1..][j] == x;
      assert f(q[j + 1]) == f(q[0]);
    }
    forall j | 0 < j < |q| ensures f(q[j]) in rest { assert q[1..][j - 1] == q[j]; }
  }

  lemma ImageCons<T, U>(q: seq<T>, f: T -> U)
    requires q != []
    ensures (set x | x in q :: f(x)) == (set x | x in q[1..] :: f(x)) + {f(q[0])}
  {
    assert forall x :: x in q <==> x == q[0] || x in q[1..];
  }

  lemma {:induction false} AllDifferent<T, U>(q: seq<T>, f: T -> U, s: set<U>)
    requires s == set x | x in q :: f(x)
    ensures |s| <= |q| && (|s| == |q| <==> Pairwise(q, f))
  {
    if q == [] {
      assert s == {};
    } else {
      var rest := set x | x in q[1..] :: f(x);
      AllDifferent(q[1..], f, rest);
      ImageCons(q, f);
      FirstAloneIff(q, f, rest);
      PairwiseCons(q, f);
    }
  }

  /** What makes two hits one source: the cluster if it has one, else the document. */
  function SourceOf(h: Hit): Id {
    match h.cluster
    case Some(cluster) => cluster
    case None => h.document
  }

  lemma OneLessRatioZero(n: nat, m: nat)
    requires m > 0 && n <= m
    ensures 1.0 - n as real / m as real == 0.0 <==> n == m
  {
    Ratio(n as real, m as real);
  }

  /** The first `n` hits differ pairwise in what `of` takes of them. */
  ghost predicate Differ(top: seq<Hit>, of: Hit -> Id, n: nat)
    requires n <= |top|
  {
    forall i, j :: 0 <= i < j < n ==> of(top[i]) != of(top[j])
  }

  lemma IndependentIff(top: seq<Hit>)
    ensures |IndependentKeys(top)| <= |top|
    ensures |IndependentKeys(top)| == |top| <==> Differ(top, SourceOf, |top|)
  {
    assert IndependentKeys(top) == set h | h in top :: SourceOf(h);
    AllDifferent(top, SourceOf, IndependentKeys(top));
  }

  function ChunkOf(h: Hit): Id {
    h.chunk
  }

  lemma ChunksIff(top: seq<Hit>)
    ensures |Chunks(top)| <= |top|
    ensures |Chunks(top)| == |top| <==> Differ(top, ChunkOf, |top|)
  {
    assert Chunks(top) == set h | h in top :: ChunkOf(h);
    AllDifferent(top, ChunkOf, Chunks(top));
  }

  lemma DifferInTop(hits: seq<Hit>, of: Hit -> Id)
    ensures Differ(Top(hits), of, |Top(hits)|) <==> Differ(hits, of, Min(10, |hits|))
  {
    assert forall i :: 0 <= i < Min(10, |hits|) ==> Top(hits)[i] == hits[i];
  }

  /** Nothing is redundant exactly when the first ten hits are of as many sources. */
  lemma RedundancyZeroIff(ids: seq<Id>, hits: seq<Hit>, discount: Discount)
    ensures ScoreOf(ids, hits, discount).redundancy == 0.0 <==> Differ(hits, SourceOf, Min(10, |hits|))
  {
    IndependentIff(Top(hits));
    DifferInTop(hits, SourceOf);
    if |Top(hits)| > 0 { OneLessRatioZero(|IndependentKeys(Top(hits))|, |Top(hits)|); }
  }

  /** Nothing is repeated exactly when they are of as many chunks. */
  lemma RepeatedZeroIff(ids: seq<Id>, hits: seq<Hit>, discount: Discount)
    ensures ScoreOf(ids, hits, discount).repeated == 0.0 <==> Differ(hits, ChunkOf, Min(10, |hits|))
  {
    ChunksIff(Top(hits));
    DifferInTop(hits, ChunkOf);
    if |Top(hits)| > 0 { OneLessRatioZero(|Chunks(Top(hits))|, |Top(hits)|); }
  }

  lemma SameSize<T>(a: set<T>, b: set<T>)
    requires a <= b
    ensures |a| == |b| <==> a == b
  {
    assert b == a + (b - a);
  }

  lemma AmongTop(hits: seq<Hit>, id: Id)
    ensures id in Revisions(Top(hits)) <==> exists i :: 0 <= i < Min(10, |hits|) && hits[i].revision == id
  {
    var top := Top(hits);
    if id in Revisions(top) {
      var h :| h in top && h.revision == id;
      var i :| 0 <= i < |top| && top[i] == h;
      assert hits[i].revision == id;
    }
    if i :| 0 <= i < Min(10, |hits|) && hits[i].revision == id { assert top[i] in top; }
  }

  lemma RecallOne(found: set<Id>, relevant: set<Id>)
    requires relevant != {}
    ensures |found * relevant| as real / |relevant| as real == 1.0 <==> relevant <= found
  {
    SubsetSmaller(found * relevant, relevant);
    SameSize(found * relevant, relevant);
    Ratio(|found * relevant| as real, |relevant| as real);
  }

  lemma RecallIs(ids: seq<Id>, hits: seq<Hit>, discount: Discount)
    requires ids != []
    ensures ScoreOf(ids, hits, discount).recall == Some(1.0) <==> Relevant(ids) <= Revisions(Top(hits))
  {
    assert ids[0] in Relevant(ids);
    RecallOne(Revisions(Top(hits)), Relevant(ids));
  }

  /** Recall is 1 exactly when each relevant revision is among the first ten hits. */
  lemma RecallOneIff(ids: seq<Id>, hits: seq<Hit>, discount: Discount)
    requires ids != []
    ensures ScoreOf(ids, hits, discount).recall == Some(1.0) <==>
            forall id :: id in ids ==> exists i :: 0 <= i < Min(10, |hits|) && hits[i].revision == id
  {
    RecallIs(ids, hits, discount);
    forall id ensures id in Revisions(Top(hits)) <==> exists i :: 0 <= i < Min(10, |hits|) && hits[i].revision == id {
      AmongTop(hits, id);
    }
    assert Relevant(ids) <= Revisions(Top(hits)) <==> forall id :: id in ids ==> id in Revisions(Top(hits)) by {
      assert forall id :: id in Relevant(ids) <==> id in ids;
    }
  }

  lemma {:induction false} GainOfOne(top: seq<Hit>, x: Id, discount: Discount, i: nat, n: nat)
    requires i < |top| && n <= |top| && top[i].revision == x && forall j :: 0 <= j < i ==> top[j].revision != x
    ensures Gain(top, {x}, discount, n) == if n > i then discount(i) else 0.0
  {
    if n > 0 { GainOfOne(top, x, discount, i, n - 1); }
  }

  /** With one relevant revision, found first at some rank of the ten, nDCG is that rank's weight over the first's. */
  lemma SingleRelevant(x: Id, hits: seq<Hit>, discount: Discount, i: nat)
    requires Decreasing(discount) && i < Min(10, |hits|)
    requires hits[i].revision == x && forall j :: 0 <= j < i ==> hits[j].revision != x
    ensures ScoreOf([x], hits, discount).ndcg == Some(discount(i) / discount(0))
  {
    var top := Top(hits);
    assert Relevant([x]) == {x};
    GainOfOne(top, x, discount, i, |top|);
    assert Ideal(discount, 1) == Ideal(discount, 0) + discount(0);
  }
}
