/**
  The requests of one arXiv collector: a lock that callers queue for, a pause between request starts, and a
  cache of successful answers. Any number of callers interleave at the points where a request awaits.

  `elapsed` is how far the clock moves before an action: the clock never goes back, and a sleep ends no earlier
  than it should.
*/
module ArxivRequests {
  import opened Common

  type Instant = int
  type Url = string

  datatype Config = Config(spacingMs: int, ttlMs: int)

  datatype Entry = Entry(timestamp: Instant, text: string)

  /** Where a request is that queued for the lock. `Pausing` is past the second look at the cache. */
  datatype Phase = Queued | Pausing(until: Instant, seenEra: nat) | Fetching | Over
  datatype Call = Call(url: Url, phase: Phase)

  /** A fetch that began; `text` once it succeeded. An era is the time between two clearings of the cache. */
  datatype Fetch = Fetch(ticket: nat, url: Url, start: Instant, seenEra: nat, text: Option<string>, doneEra: nat)

  /** A call's ticket is its place in `calls`, the order in which callers queued for the lock. */
  datatype Collector = Collector(
    clock: Instant, lastRequestTime: Instant, cache: map<Url, Entry>, era: nat,
    calls: seq<Call>, fetches: seq<Fetch>)

  function Start(clock: Instant): Collector {
    Collector(clock, 0, map[], 0, [], [])
  }

  datatype Action =
    | Request(elapsed: nat, url: Url, valid: bool)
    | Enter(elapsed: nat, ticket: nat)
    | Begin(elapsed: nat, ticket: nat)
    | Settle(elapsed: nat, ticket: nat, response: Option<string>)
    | ClearCache

  predicate Fresh(c: Config, s: Collector, url: Url, now: Instant) {
    url in s.cache && now - s.cache[url].timestamp < c.ttlMs
  }

  /** The lock a call waits for is a chain: it opens once every call before it has released its own. */
  predicate Granted(s: Collector, k: nat) {
    k < |s.calls| && forall j :: 0 <= j < k ==> s.calls[j].phase.Over?
  }

  function SetPhase(calls: seq<Call>, k: nat, phase: Phase): seq<Call>
    requires k < |calls|
  {
    calls[k := calls[k].(phase := phase)]
  }

  /** How long the call must wait before it may start its request. */
  function PauseUntil(c: Config, s: Collector): Instant {
    var elapsed := s.clock - s.lastRequestTime;
    if elapsed < c.spacingMs && s.lastRequestTime > 0 then s.clock + (c.spacingMs - elapsed) else s.clock
  }

  function EnterLock(c: Config, s: Collector, k: nat): Collector {
    if !Granted(s, k) || !s.calls[k].phase.Queued? then s
    else if Fresh(c, s, s.calls[k].url, s.clock) then s.(calls := SetPhase(s.calls, k, Over))
    else s.(calls := SetPhase(s.calls, k, Pausing(PauseUntil(c, s), s.era)))
  }

  function BeginFetch(s: Collector, k: nat): Collector {
    if k >= |s.calls| || !s.calls[k].phase.Pausing? || s.clock < s.calls[k].phase.until then s
    else s.(lastRequestTime := s.clock, calls := SetPhase(s.calls, k, Fetching),
            fetches := s.fetches + [Fetch(k, s.calls[k].url, s.clock, s.calls[k].phase.seenEra, None, 0)])
  }

  /** A failed response caches nothing; either way the lock is released. */
  function SettleFetch(s: Collector, k: nat, response: Option<string>): Collector {
    if k >= |s.calls| || !s.calls[k].phase.Fetching? || s.fetches == [] then s
    else
      var over := s.(calls := SetPhase(s.calls, k, Over));
      if response.None? then over
      else
        var last := |s.fetches| - 1;
        over.(cache := s.cache[s.calls[k].url := Entry(s.lastRequestTime, response.value)],
              fetches := s.fetches[last := s.fetches[last].(text := response, doneEra := s.era)])
  }

  function TakeTicket(c: Config, s: Collector, url: Url, valid: bool): Collector {
    if Fresh(c, s, url, s.clock) || !valid then s else s.(calls := s.calls + [Call(url, Queued)])
  }

  function Tick(s: Collector, elapsed: nat): Collector {
    s.(clock := s.clock + elapsed)
  }

  function Step(c: Config, s: Collector, a: Action): Collector {
    match a
    case Request(elapsed, url, valid) => TakeTicket(c, Tick(s, elapsed), url, valid)
    case Enter(elapsed, k) => EnterLock(c, Tick(s, elapsed), k)
    case Begin(elapsed, k) => BeginFetch(Tick(s, elapsed), k)
    case Settle(elapsed, k, response) => SettleFetch(Tick(s, elapsed), k, response)
    case ClearCache => s.(cache := map[], era := s.era + 1)
  }

  /** The text an action answers its caller from the cache, if it does. */
  function CachedAnswer(c: Config, s: Collector, a: Action): Option<(Url, string)> {
    match a
    case Request(elapsed, url, _) =>
      if Fresh(c, s, url, s.clock + elapsed) then Some((url, s.cache[url].text)) else None
    case Enter(elapsed, k) =>
      if Granted(s, k) && s.calls[k].phase.Queued? && Fresh(c, s, s.calls[k].url, s.clock + elapsed)
      then Some((s.calls[k].url, s.cache[s.calls[k].url].text)) else None
    case _ => None
  }

  function Run(c: Config, clock: Instant, trace: seq<Action>): Collector
    decreases |trace|
  {
    if trace == [] then Start(clock) else Step(c, Run(c, clock, trace[..|trace| - 1]), trace[|trace| - 1])
  }

  // ---------- The lock ----------

  predicate Active(p: Phase) {
    p.Pausing? || p.Fetching?
  }

  /** A call that is past its wait for the lock waited for all before it. */
  ghost predicate InLine(calls: seq<Call>) {
    forall j, k :: 0 <= j < k < |calls| && !calls[k].phase.Queued? ==> calls[j].phase.Over?
  }

  /** A fetch belongs to a call that is under way, and then it is the last one, or over. */
  ghost predicate FetchOk(s: Collector, i: nat)
    requires i < |s.fetches|
  {
    var f := s.fetches[i];
    && f.ticket < |s.calls| && f.url == s.calls[f.ticket].url
    && (s.calls[f.ticket].phase.Over? || (s.calls[f.ticket].phase.Fetching? && i == |s.fetches| - 1 && f.text.None?))
  }

  ghost predicate TicketsIncrease(fetches: seq<Fetch>) {
    forall i, j :: 0 <= i < j < |fetches| ==> fetches[i].ticket < fetches[j].ticket
  }

  ghost predicate LockInv(s: Collector) {
    && InLine(s.calls)
    && (forall i {:trigger FetchOk(s, i)} :: 0 <= i < |s.fetches| ==> FetchOk(s, i))
    && TicketsIncrease(s.fetches)
    && (forall k :: 0 <= k < |s.calls| && s.calls[k].phase.Fetching? ==>
         s.fetches != [] && s.fetches[|s.fetches| - 1].ticket == k)
  }

  lemma EnterKeepsLock(c: Config, s: Collector, k: nat)
    requires LockInv(s)
    ensures LockInv(EnterLock(c, s, k))
  {
    var t := EnterLock(c, s, k);
    assert InLine(t.calls);
    forall i | 0 <= i < |t.fetches| ensures FetchOk(t, i) { assert FetchOk(s, i); }
  }

  lemma BeginKeepsLock(s: Collector, k: nat)
    requires LockInv(s)
    ensures LockInv(BeginFetch(s, k))
  {
    var t := BeginFetch(s, k);
    if t != s {
      assert InLine(t.calls);
      forall i | 0 <= i < |s.fetches| ensures s.fetches[i].ticket < k && s.calls[s.fetches[i].ticket].phase.Over? {
        assert FetchOk(s, i);
      }
      forall i | 0 <= i < |t.fetches| ensures FetchOk(t, i) {
        if i < |s.fetches| { assert FetchOk(s, i); }
      }
    }
  }

  lemma SettleKeepsLock(s: Collector, k: nat, response: Option<string>)
    requires LockInv(s)
    ensures LockInv(SettleFetch(s, k, response))
  {
    var t := SettleFetch(s, k, response);
    assert InLine(t.calls);
    forall i | 0 <= i < |t.fetches| ensures FetchOk(t, i) {
      assert FetchOk(s, i);
    }
  }

  lemma RequestKeepsLock(c: Config, s: Collector, url: Url, valid: bool)
    requires LockInv(s)
    ensures LockInv(TakeTicket(c, s, url, valid))
  {
    var t := TakeTicket(c, s, url, valid);
    assert InLine(t.calls);
    forall i | 0 <= i < |t.fetches| ensures FetchOk(t, i) { assert FetchOk(s, i); }
  }

  /** Neither the clock nor the cache matters to the lock. */
  lemma LockIgnores(s: Collector, t: Collector)
    requires LockInv(s) && t.calls == s.calls && t.fetches == s.fetches
    ensures LockInv(t)
  {
    forall i | 0 <= i < |t.fetches| ensures FetchOk(t, i) { assert FetchOk(s, i); }
  }

  // ---------- Spacing ----------

  /** Starts never go back, and each is far enough from the one before, if that one was after the epoch. */
  ghost predicate Spaced(fetches: seq<Fetch>, spacingMs: int) {
    forall i, j :: 0 <= i && j == i + 1 < |fetches| ==>
      && fetches[i].start <= fetches[j].start
      && (fetches[i].start > 0 ==> fetches[j].start >= fetches[i].start + spacingMs)
  }

  ghost predicate SpacingInv(c: Config, s: Collector) {
    && (if s.fetches == [] then s.lastRequestTime == 0
        else s.lastRequestTime == s.fetches[|s.fetches| - 1].start <= s.clock)
    && (forall k :: 0 <= k < |s.calls| && s.calls[k].phase.Pausing? && s.lastRequestTime > 0 ==>
         s.calls[k].phase.until >= s.lastRequestTime + c.spacingMs)
    && Spaced(s.fetches, c.spacingMs)
  }

  lemma BeginKeepsSpacing(c: Config, s: Collector, k: nat)
    requires LockInv(s) && SpacingInv(c, s)
    ensures SpacingInv(c, BeginFetch(s, k))
  {
    var t := BeginFetch(s, k);
    if t != s {
      forall j | 0 <= j < |s.calls| && s.calls[j].phase.Pausing? ensures j == k {}
      assert Spaced(t.fetches, c.spacingMs);
    }
  }

  lemma SettleKeepsSpacing(c: Config, s: Collector, k: nat, response: Option<string>)
    requires LockInv(s) && SpacingInv(c, s)
    ensures SpacingInv(c, SettleFetch(s, k, response))
  {
    var t := SettleFetch(s, k, response);
    assert |t.fetches| == |s.fetches|;
    assert forall i :: 0 <= i < |s.fetches| ==> t.fetches[i].start == s.fetches[i].start;
  }

  lemma TickKeepsSpacing(c: Config, s: Collector, elapsed: nat)
    requires SpacingInv(c, s)
    ensures SpacingInv(c, Tick(s, elapsed))
  {}

  lemma EnterKeepsSpacing(c: Config, s: Collector, k: nat)
    requires SpacingInv(c, s)
    ensures SpacingInv(c, EnterLock(c, s, k))
  {}

  // ---------- The cache ----------

  function LastSuccess(fetches: seq<Fetch>, url: Url): (r: Option<Fetch>)
    ensures r.Some? ==> r.value in fetches && r.value.url == url && r.value.text.Some?
    decreases |fetches|
  {
    if fetches == [] then None
    else
      var last := fetches[|fetches| - 1];
      if last.url == url && last.text.Some? then Some(last) else LastSuccess(fetches[..|fetches| - 1], url)
  }

  /** The cache holds, of each URL, the last success of this era. */
  ghost predicate Cached(s: Collector, url: Url) {
    var last := LastSuccess(s.fetches, url);
    && (url in s.cache <==> last.Some? && last.value.doneEra == s.era)
    && (url in s.cache ==> s.cache[url] == Entry(last.value.start, last.value.text.value))
  }

  predicate SucceededIn(f: Fetch, url: Url, era: nat) {
    f.url == url && f.text.Some? && f.doneEra == era
  }

  /** A request that looked in the same era as an earlier one of its URL succeeded starts late enough. */
  ghost predicate Apart(c: Config, fetches: seq<Fetch>, url: Url, seenEra: nat, start: Instant) {
    forall i :: 0 <= i < |fetches| && SucceededIn(fetches[i], url, seenEra) ==> start >= fetches[i].start + c.ttlMs
  }

  ghost predicate StartsIncrease(fetches: seq<Fetch>) {
    forall i, j :: 0 <= i < j < |fetches| ==> fetches[i].start <= fetches[j].start
  }

  ghost predicate ErasIncrease(fetches: seq<Fetch>) {
    forall i, j :: 0 <= i < j < |fetches| && fetches[j].text.Some? ==> fetches[i].doneEra <= fetches[j].doneEra
  }

  ghost predicate PauseOk(c: Config, s: Collector, k: nat)
    requires k < |s.calls|
  {
    s.calls[k].phase.Pausing? ==>
      Apart(c, s.fetches, s.calls[k].url, s.calls[k].phase.seenEra, s.calls[k].phase.until)
  }

  ghost predicate StartOk(c: Config, fetches: seq<Fetch>, j: nat)
    requires j < |fetches|
  {
    Apart(c, fetches[..j], fetches[j].url, fetches[j].seenEra, fetches[j].start)
  }

  ghost predicate CacheInv(c: Config, s: Collector) {
    && (forall i :: 0 <= i < |s.fetches| ==> s.fetches[i].doneEra <= s.era)
    && StartsIncrease(s.fetches) && ErasIncrease(s.fetches)
    && (forall url {:trigger Cached(s, url)} :: Cached(s, url))
    && (forall k {:trigger PauseOk(c, s, k)} :: 0 <= k < |s.calls| ==> PauseOk(c, s, k))
    && (forall j {:trigger StartOk(c, s.fetches, j)} :: 0 <= j < |s.fetches| ==> StartOk(c, s.fetches, j))
  }

  /** The last success is as late as any, and of no earlier era. */
  lemma {:induction false} LastSuccessIsLast(fetches: seq<Fetch>, url: Url, i: nat)
    requires i < |fetches| && fetches[i].url == url && fetches[i].text.Some?
    requires StartsIncrease(fetches) && ErasIncrease(fetches)
    ensures var last := LastSuccess(fetches, url);
            last.Some? && last.value.start >= fetches[i].start && last.value.doneEra >= fetches[i].doneEra
    decreases |fetches|
  {
    var last := |fetches| - 1;
    if i < last && !(fetches[last].url == url && fetches[last].text.Some?) {
      LastSuccessIsLast(fetches[..last], url, i);
    }
  }

  /** Finding nothing fresh in the cache means every success of this era is old. */
  lemma NotFreshIsApart(c: Config, s: Collector, url: Url, now: Instant)
    requires CacheInv(c, s) && !Fresh(c, s, url, now)
    ensures Apart(c, s.fetches, url, s.era, now)
  {
    assert Cached(s, url);
    forall i | 0 <= i < |s.fetches| && SucceededIn(s.fetches[i], url, s.era)
      ensures now >= s.fetches[i].start + c.ttlMs
    {
      LastSuccessIsLast(s.fetches, url, i);
    }
  }

  lemma RequestKeepsCache(c: Config, s: Collector, url: Url, valid: bool)
    requires CacheInv(c, s)
    ensures CacheInv(c, TakeTicket(c, s, url, valid))
  {
    var t := TakeTicket(c, s, url, valid);
    forall u ensures Cached(t, u) { assert Cached(s, u); }
    forall k | 0 <= k < |t.calls| ensures PauseOk(c, t, k) {
      if k < |s.calls| { assert PauseOk(c, s, k); }
    }
  }

  lemma TickKeepsCache(c: Config, s: Collector, elapsed: nat)
    requires CacheInv(c, s)
    ensures CacheInv(c, Tick(s, elapsed))
  {
    var t := Tick(s, elapsed);
    forall u ensures Cached(t, u) { assert Cached(s, u); }
    forall k | 0 <= k < |t.calls| ensures PauseOk(c, t, k) { assert PauseOk(c, s, k); }
  }

  lemma EnterKeepsCache(c: Config, s: Collector, k: nat)
    requires CacheInv(c, s)
    ensures CacheInv(c, EnterLock(c, s, k))
  {
    var t := EnterLock(c, s, k);
    forall u ensures Cached(t, u) { assert Cached(s, u); }
    forall j | 0 <= j < |t.calls| ensures PauseOk(c, t, j) {
      assert PauseOk(c, s, j);
      if j == k && t != s && !Fresh(c, s, s.calls[k].url, s.clock) {
        NotFreshIsApart(c, s, s.calls[k].url, s.clock);
      }
    }
  }

  lemma {:induction false} AppendUnfinished(fetches: seq<Fetch>, f: Fetch, url: Url)
    requires f.text.None?
    ensures LastSuccess(fetches + [f], url) == LastSuccess(fetches, url)
  {
    assert (fetches + [f])[..|fetches|] == fetches;
  }

  lemma BeginStarts(c: Config, s: Collector, t: Collector, k: nat, j: nat)
    requires CacheInv(c, s) && SpacingInv(c, s) && t == BeginFetch(s, k) && t != s && j < |t.fetches|
    ensures StartOk(c, t.fetches, j)
  {
    if j < |s.fetches| {
      assert StartOk(c, s.fetches, j) && t.fetches[..j] == s.fetches[..j];
    } else {
      assert PauseOk(c, s, k) && t.fetches[..j] == s.fetches;
    }
  }

  lemma BeginCaches(c: Config, s: Collector, t: Collector, k: nat, url: Url)
    requires CacheInv(c, s) && t == BeginFetch(s, k) && t != s
    ensures Cached(t, url)
  {
    assert Cached(s, url);
    AppendUnfinished(s.fetches, t.fetches[|s.fetches|], url);
  }

  lemma BeginPauses(c: Config, s: Collector, t: Collector, k: nat, j: nat)
    requires CacheInv(c, s) && LockInv(s) && t == BeginFetch(s, k) && t != s && j < |t.calls|
    ensures PauseOk(c, t, j)
  {
    assert PauseOk(c, s, j);
  }

  lemma BeginKeepsCache(c: Config, s: Collector, k: nat)
    requires CacheInv(c, s) && LockInv(s) && SpacingInv(c, s)
    ensures CacheInv(c, BeginFetch(s, k))
  {
    var t := BeginFetch(s, k);
    if t != s {
      forall u ensures Cached(t, u) { BeginCaches(c, s, t, k, u); }
      forall j | 0 <= j < |t.calls| ensures PauseOk(c, t, j) { BeginPauses(c, s, t, k, j); }
      forall j | 0 <= j < |t.fetches| ensures StartOk(c, t.fetches, j) { BeginStarts(c, s, t, k, j); }
    }
  }

  lemma SettleCached(c: Config, s: Collector, k: nat, response: Option<string>, url: Url)
    requires CacheInv(c, s) && LockInv(s) && SpacingInv(c, s)
    ensures Cached(SettleFetch(s, k, response), url)
  {
    assert Cached(s, url);
    var t := SettleFetch(s, k, response);
    if t != s && response.Some? {
      var last := |s.fetches| - 1;
      assert FetchOk(s, last);
      assert t.fetches[..last] == s.fetches[..last];
    }
  }

  lemma SettleKeepsCache(c: Config, s: Collector, k: nat, response: Option<string>)
    requires CacheInv(c, s) && LockInv(s) && SpacingInv(c, s)
    ensures CacheInv(c, SettleFetch(s, k, response))
  {
    var t := SettleFetch(s, k, response);
    forall u ensures Cached(t, u) { SettleCached(c, s, k, response, u); }
    forall j | 0 <= j < |t.calls| ensures PauseOk(c, t, j) { assert PauseOk(c, s, j); }
    forall j | 0 <= j < |t.fetches| ensures StartOk(c, t.fetches, j) {
      assert StartOk(c, s.fetches, j) && t.fetches[..j] == s.fetches[..j];
    }
  }

  lemma ClearKeepsCache(c: Config, s: Collector)
    requires CacheInv(c, s)
    ensures CacheInv(c, s.(cache := map[], era := s.era + 1))
  {
    var t := s.(cache := map[], era := s.era + 1);
    forall u ensures Cached(t, u) {
      var last := LastSuccess(s.fetches, u);
      assert last.Some? ==> last.value.doneEra <= s.era;
    }
    forall j | 0 <= j < |t.calls| ensures PauseOk(c, t, j) { assert PauseOk(c, s, j); }
  }

  // ---------- Every run ----------

  ghost predicate Inv(c: Config, s: Collector) {
    LockInv(s) && SpacingInv(c, s) && CacheInv(c, s)
  }

  lemma TickKeepsInv(c: Config, s: Collector, elapsed: nat)
    requires Inv(c, s)
    ensures Inv(c, Tick(s, elapsed))
  {
    LockIgnores(s, Tick(s, elapsed));
    TickKeepsSpacing(c, s, elapsed);
    TickKeepsCache(c, s, elapsed);
  }

  lemma RequestKeepsInv(c: Config, s: Collector, url: Url, valid: bool)
    requires Inv(c, s)
    ensures Inv(c, TakeTicket(c, s, url, valid))
  {
    RequestKeepsLock(c, s, url, valid);
    RequestKeepsCache(c, s, url, valid);
  }

  lemma EnterKeepsInv(c: Config, s: Collector, k: nat)
    requires Inv(c, s)
    ensures Inv(c, EnterLock(c, s, k))
  {
    EnterKeepsLock(c, s, k);
    EnterKeepsSpacing(c, s, k);
    EnterKeepsCache(c, s, k);
  }

  lemma BeginKeepsInv(c: Config, s: Collector, k: nat)
    requires Inv(c, s)
    ensures Inv(c, BeginFetch(s, k))
  {
    BeginKeepsLock(s, k);
    BeginKeepsSpacing(c, s, k);
    BeginKeepsCache(c, s, k);
  }

  lemma SettleKeepsInv(c: Config, s: Collector, k: nat, response: Option<string>)
    requires Inv(c, s)
    ensures Inv(c, SettleFetch(s, k, response))
  {
    SettleKeepsLock(s, k, response);
    SettleKeepsSpacing(c, s, k, response);
    SettleKeepsCache(c, s, k, response);
  }

  lemma ClearKeepsInv(c: Config, s: Collector)
    requires Inv(c, s)
    ensures Inv(c, s.(cache := map[], era := s.era + 1))
  {
    LockIgnores(s, s.(cache := map[], era := s.era + 1));
    ClearKeepsCache(c, s);
  }

  lemma RequestStepKeepsInv(c: Config, s: Collector, elapsed: nat, url: Url, valid: bool, t: Collector)
    requires Inv(c, s) && t == TakeTicket(c, Tick(s, elapsed), url, valid)
    ensures Inv(c, t)
  {
    TickKeepsInv(c, s, elapsed);
    RequestKeepsInv(c, Tick(s, elapsed), url, valid);
  }

  lemma EnterStepKeepsInv(c: Config, s: Collector, elapsed: nat, k: nat, t: Collector)
    requires Inv(c, s) && t == EnterLock(c, Tick(s, elapsed), k)
    ensures Inv(c, t)
  {
    TickKeepsInv(c, s, elapsed);
    EnterKeepsInv(c, Tick(s, elapsed), k);
  }

  lemma BeginStepKeepsInv(c: Config, s: Collector, elapsed: nat, k: nat, t: Collector)
    requires Inv(c, s) && t == BeginFetch(Tick(s, elapsed), k)
    ensures Inv(c, t)
  {
    TickKeepsInv(c, s, elapsed);
    BeginKeepsInv(c, Tick(s, elapsed), k);
  }

  lemma SettleStepKeepsInv(c: Config, s: Collector, elapsed: nat, k: nat, response: Option<string>, t: Collector)
    requires Inv(c, s) && t == SettleFetch(Tick(s, elapsed), k, response)
    ensures Inv(c, t)
  {
    TickKeepsInv(c, s, elapsed);
    SettleKeepsInv(c, Tick(s, elapsed), k, response);
  }

  lemma StepKeepsInv(c: Config, s: Collector, a: Action, t: Collector)
    requires Inv(c, s) && t == Step(c, s, a)
    ensures Inv(c, t)
  {
    match a
    case Request(elapsed, url, valid) => RequestStepKeepsInv(c, s, elapsed, url, valid, t);
    case Enter(elapsed, k) => EnterStepKeepsInv(c, s, elapsed, k, t);
    case Begin(elapsed, k) => BeginStepKeepsInv(c, s, elapsed, k, t);
    case Settle(elapsed, k, response) => SettleStepKeepsInv(c, s, elapsed, k, response, t);
    case ClearCache => ClearKeepsInv(c, s);
  }

  lemma {:induction false} RunInv(c: Config, clock: Instant, trace: seq<Action>)
    ensures Inv(c, Run(c, clock, trace))
    decreases |trace|
  {
    if trace != [] {
      RunInv(c, clock, trace[..|trace| - 1]);
      StepKeepsInv(c, Run(c, clock, trace[..|trace| - 1]), trace[|trace| - 1], Run(c, clock, trace));
    } else {
      assert forall url :: Cached(Start(clock), url);
    }
  }

  /** At most one call is between its turn at the lock and its release, and fetches begin in lock order. */
  lemma OneAtATime(c: Config, clock: Instant, trace: seq<Action>)
    ensures var s := Run(c, clock, trace);
            && (forall j, k | 0 <= j < |s.calls| && 0 <= k < |s.calls| ::
                 Active(s.calls[j].phase) && Active(s.calls[k].phase) ==> j == k)
            && (forall i, j :: 0 <= i < j < |s.fetches| ==> s.fetches[i].ticket < s.fetches[j].ticket)
  {
    RunInv(c, clock, trace);
  }

  /** A request starts at least the spacing after the one before it, if that one started after time 0. */
  lemma RequestsSpaced(c: Config, clock: Instant, trace: seq<Action>, i: nat)
    requires i + 1 < |Run(c, clock, trace).fetches|
    ensures var f := Run(c, clock, trace).fetches;
            && f[i].start <= f[i + 1].start
            && (f[i].start > 0 ==> f[i + 1].start >= f[i].start + c.spacingMs)
  {
    RunInv(c, clock, trace);
    var j := i + 1;
  }

  lemma RunOn(c: Config, clock: Instant, trace: seq<Action>, a: Action)
    ensures Run(c, clock, trace + [a]) == Step(c, Run(c, clock, trace), a)
  {
    assert (trace + [a])[..|trace|] == trace;
  }

  /** A request that finds the lock free, nothing cached and no pause to make starts at once. */
  lemma AtOnce(c: Config, s: Collector, url: Url)
    requires s.cache == map[] && s.lastRequestTime <= 0 && forall k :: 0 <= k < |s.calls| ==> s.calls[k].phase.Over?
    ensures var k := |s.calls|;
            var s1 := Step(c, s, Request(0, url, true));
            var s2 := Step(c, s1, Enter(0, k));
            var s3 := Step(c, s2, Begin(0, k));
            && s3 == s.(lastRequestTime := s.clock, calls := s.calls + [Call(url, Fetching)],
                        fetches := s.fetches + [Fetch(k, url, s.clock, s.era, None, 0)])
            && Step(c, s3, Settle(0, k, None)) == s3.(calls := s.calls + [Call(url, Over)])
  {
    var k := |s.calls|;
    var s1 := Step(c, s, Request(0, url, true));
    assert s1 == s.(calls := s.calls + [Call(url, Queued)]);
    var s2 := Step(c, s1, Enter(0, k));
    assert s2 == s.(calls := s.calls + [Call(url, Pausing(s.clock, s.era))]);
  }

  /** That condition is needed: at any time up to 0 two requests can start together, whatever the spacing. */
  lemma UnspacedAtEpoch(c: Config, clock: Instant)
    requires clock <= 0
    ensures exists trace :: var f := Run(c, clock, trace).fetches; |f| == 2 && f[0].start == f[1].start == clock
  {
    var t1 := [Request(0, "a", true)];
    assert t1 == [] + [Request(0, "a", true)];
    RunOn(c, clock, [], Request(0, "a", true));
    RunOn(c, clock, t1, Enter(0, 0));
    RunOn(c, clock, t1 + [Enter(0, 0)], Begin(0, 0));
    var t4 := t1 + [Enter(0, 0)] + [Begin(0, 0)] + [Settle(0, 0, None)];
    RunOn(c, clock, t1 + [Enter(0, 0)] + [Begin(0, 0)], Settle(0, 0, None));
    AtOnce(c, Start(clock), "a");
    UnspacedSecond(c, clock, t4);
  }

  lemma UnspacedSecond(c: Config, clock: Instant, trace: seq<Action>)
    requires clock <= 0
    requires Run(c, clock, trace) ==
             Collector(clock, clock, map[], 0, [Call("a", Over)], [Fetch(0, "a", clock, 0, None, 0)])
    ensures exists trace :: var f := Run(c, clock, trace).fetches; |f| == 2 && f[0].start == f[1].start == clock
  {
    var t1 := trace + [Request(0, "b", true)];
    RunOn(c, clock, trace, Request(0, "b", true));
    RunOn(c, clock, t1, Enter(0, 1));
    RunOn(c, clock, t1 + [Enter(0, 1)], Begin(0, 1));
    AtOnce(c, Run(c, clock, trace), "b");
    var f := Run(c, clock, t1 + [Enter(0, 1)] + [Begin(0, 1)]).fetches;
    assert |f| == 2 && f[0].start == f[1].start == clock;
  }

  /** Two requests of a URL, the first a success of the era the second looked in, start at least the lifetime apart. */
  lemma SameUrlApart(c: Config, clock: Instant, trace: seq<Action>, i: nat, j: nat)
    requires i < j < |Run(c, clock, trace).fetches|
    ensures var f := Run(c, clock, trace).fetches;
            SucceededIn(f[i], f[j].url, f[j].seenEra) ==> f[j].start >= f[i].start + c.ttlMs
  {
    RunInv(c, clock, trace);
    var f := Run(c, clock, trace).fetches;
    assert StartOk(c, f, j) && f[..j][i] == f[i];
  }

  /** A cached answer is the text of the last successful request of its URL, which started within the lifetime. */
  lemma CachedAnswerIsLastSuccess(c: Config, clock: Instant, trace: seq<Action>, a: Action)
    requires CachedAnswer(c, Run(c, clock, trace), a).Some?
    ensures var s := Run(c, clock, trace);
            var (url, text) := CachedAnswer(c, s, a).value;
            var last := LastSuccess(s.fetches, url);
            && last.Some? && last.value.text == Some(text) && last.value.doneEra == s.era
            && s.clock + a.elapsed - last.value.start < c.ttlMs
  {
    RunInv(c, clock, trace);
    var s := Run(c, clock, trace);
    assert Cached(s, CachedAnswer(c, s, a).value.0);
  }

  /** A text that the URL's last success of this era brought is answered as long as it lives, and nobody queues. */
  lemma FreshIsAnswered(c: Config, clock: Instant, trace: seq<Action>, elapsed: nat, url: Url, valid: bool)
    ensures var s := Run(c, clock, trace);
            var last := LastSuccess(s.fetches, url);
            var now := s.clock + elapsed;
            last.Some? && last.value.doneEra == s.era && now - last.value.start < c.ttlMs ==>
              && CachedAnswer(c, s, Request(elapsed, url, valid)) == Some((url, last.value.text.value))
              && Step(c, s, Request(elapsed, url, valid)) == Tick(s, elapsed)
  {
    RunInv(c, clock, trace);
    assert Cached(Run(c, clock, trace), url);
  }

  /** What a request fetched is what the next requests of its URL are answered, for the lifetime from its start. */
  lemma SuccessIsAnswered(
      c: Config, clock: Instant, trace: seq<Action>, wait: nat, k: nat, text: string, elapsed: nat, valid: bool)
    requires k < |Run(c, clock, trace).calls| && Run(c, clock, trace).calls[k].phase.Fetching?
    ensures var s := Run(c, clock, trace);
            var t := Step(c, s, Settle(wait, k, Some(text)));
            var url := s.calls[k].url;
            && s.fetches != [] && s.fetches[|s.fetches| - 1].ticket == k
            && CachedAnswer(c, t, Request(elapsed, url, valid)) ==
               (if t.clock + elapsed - s.fetches[|s.fetches| - 1].start < c.ttlMs then Some((url, text)) else None)
            && Step(c, s, Settle(wait, k, None)).cache == s.cache
            && |t.calls| == |s.calls| && t.calls[k].phase.Over?
            && |Step(c, s, Settle(wait, k, None)).calls| == |s.calls|
            && Step(c, s, Settle(wait, k, None)).calls[k].phase.Over?
  {
    RunInv(c, clock, trace);
  }

  /** With the lock and no answer in the cache, a call waits exactly until the spacing is over, if it is not yet. */
  lemma PauseIsLeast(c: Config, s: Collector, k: nat)
    requires k < |s.calls| && (forall j :: 0 <= j < k ==> s.calls[j].phase.Over?)
    requires s.calls[k].phase.Queued? && !Fresh(c, s, s.calls[k].url, s.clock)
    ensures var t := EnterLock(c, s, k);
            var free := s.lastRequestTime + c.spacingMs;
            && |t.calls| == |s.calls|
            && t.calls[k].phase == Pausing(if s.lastRequestTime > 0 && s.clock < free then free else s.clock, s.era)
  {}

  /** With the lock and an answer in the cache, a call is over at once. */
  lemma CachedAtLock(c: Config, s: Collector, k: nat)
    requires k < |s.calls| && (forall j :: 0 <= j < k ==> s.calls[j].phase.Over?)
    requires s.calls[k].phase.Queued? && Fresh(c, s, s.calls[k].url, s.clock)
    ensures CachedAnswer(c, s, Enter(0, k)) == Some((s.calls[k].url, s.cache[s.calls[k].url].text))
    ensures EnterLock(c, s, k) == s.(calls := s.calls[k := Call(s.calls[k].url, Over)])
  {}

  /** Whoever queued asked for a valid URL: one that is not valid is refused before. */
  lemma {:induction false} OnlyValidQueue(c: Config, clock: Instant, trace: seq<Action>, k: nat)
    requires k < |Run(c, clock, trace).calls|
    ensures exists i :: 0 <= i < |trace| && trace[i].Request? && trace[i].valid
                        && trace[i].url == Run(c, clock, trace).calls[k].url
    decreases |trace|
  {
    var before, a := trace[..|trace| - 1], trace[|trace| - 1];
    var s := Run(c, clock, before);
    if k < |s.calls| {
      StepKeepsUrls(c, s, a, k);
      OnlyValidQueue(c, clock, before, k);
      var i :| 0 <= i < |before| && before[i].Request? && before[i].valid && before[i].url == s.calls[k].url;
      assert trace[i] == before[i];
    }
  }

  lemma StepKeepsUrls(c: Config, s: Collector, a: Action, k: nat)
    requires k < |s.calls|
    ensures k < |Step(c, s, a).calls| && Step(c, s, a).calls[k].url == s.calls[k].url
  {}

  ghost predicate Reachable(c: Config, s: Collector) {
    exists clock, trace :: s == Run(c, clock, trace)
  }

  lemma StepReachable(c: Config, s: Collector, t: Collector, a: Action)
    requires t == Step(c, s, a)
    ensures Reachable(c, s) ==> Reachable(c, t)
  {
    if Reachable(c, s) {
      var clock, trace :| s == Run(c, clock, trace);
      RunOn(c, clock, trace, a);
    }
  }

  // ---------- The collector ----------

  /** How a request gets on up to the lock: answered from the cache, refused for its URL, or waiting for its turn. */
  datatype Reply = Answered(text: string) | Refused | Waits(ticket: nat)

  /** The collector's fields; each method is what a request does between two awaits. */
  class ArxivCollector {
    const config: Config
    var clock: Instant
    var lastRequestTime: Instant
    var queryCache: map<Url, Entry>
    var era: nat
    var calls: seq<Call>
    var fetches: seq<Fetch>

    function State(): Collector
      reads this
    {
      Collector(clock, lastRequestTime, queryCache, era, calls, fetches)
    }

    constructor (config: Config, clock: Instant)
      ensures this.config == config && State() == Start(clock) && Reachable(config, State())
    {
      assert Run(config, clock, []) == Start(clock);
      this.config, this.clock, lastRequestTime := config, clock, 0;
      queryCache, era, calls, fetches := map[], 0, [], [];
    }

    /** Up to the lock: answer from the cache, refuse the URL, or queue. */
    method ExecuteRequest(elapsed: nat, url: Url, valid: bool) returns (r: Reply)
      modifies this
      ensures State() == Step(config, old(State()), Request(elapsed, url, valid))
      ensures var cached := CachedAnswer(config, old(State()), Request(elapsed, url, valid));
              r == if cached.Some? then Answered(cached.value.1) else if valid then Waits(old(|calls|)) else Refused
      ensures Reachable(config, old(State())) ==> Reachable(config, State())
    {
      StepReachable(config, State(), Step(config, State(), Request(elapsed, url, valid)), Request(elapsed, url, valid));
      clock := clock + elapsed;
      if url in queryCache && clock - queryCache[url].timestamp < config.ttlMs {
        return Answered(queryCache[url].text);
      }
      if !valid { return Refused; }
      calls := calls + [Call(url, Queued)];
      return Waits(|calls| - 1);
    }

    /** With the lock: look again, and else work out how long to sleep. */
    method AfterLock(elapsed: nat, k: nat) returns (answer: Option<string>)
      requires Granted(State(), k) && calls[k].phase.Queued?
      modifies this
      ensures State() == Step(config, old(State()), Enter(elapsed, k))
      ensures var cached := CachedAnswer(config, old(State()), Enter(elapsed, k));
              answer == if cached.Some? then Some(cached.value.1) else None
      ensures Reachable(config, old(State())) ==> Reachable(config, State())
    {
      StepReachable(config, State(), Step(config, State(), Enter(elapsed, k)), Enter(elapsed, k));
      clock := clock + elapsed;
      var url := calls[k].url;
      if url in queryCache && clock - queryCache[url].timestamp < config.ttlMs {
        calls := SetPhase(calls, k, Over);
        return Some(queryCache[url].text);
      }
      var sinceLast := clock - lastRequestTime;
      var waitMs := 0;
      if sinceLast < config.spacingMs && lastRequestTime > 0 {
        waitMs := config.spacingMs - sinceLast;
      }
      calls := SetPhase(calls, k, Pausing(clock + waitMs, era));
      return None;
    }

    method StartRequest(elapsed: nat, k: nat)
      requires k < |calls| && calls[k].phase.Pausing? && clock + elapsed >= calls[k].phase.until
      modifies this
      ensures State() == Step(config, old(State()), Begin(elapsed, k))
      ensures Reachable(config, old(State())) ==> Reachable(config, State())
    {
      StepReachable(config, State(), Step(config, State(), Begin(elapsed, k)), Begin(elapsed, k));
      clock := clock + elapsed;
      lastRequestTime := clock;
      fetches := fetches + [Fetch(k, calls[k].url, lastRequestTime, calls[k].phase.seenEra, None, 0)];
      calls := SetPhase(calls, k, Fetching);
    }

    method FinishRequest(elapsed: nat, k: nat, response: Option<string>)
      requires k < |calls| && calls[k].phase.Fetching? && fetches != []
      modifies this
      ensures State() == Step(config, old(State()), Settle(elapsed, k, response))
      ensures Reachable(config, old(State())) ==> Reachable(config, State())
    {
      StepReachable(config, State(), Step(config, State(), Settle(elapsed, k, response)), Settle(elapsed, k, response));
      clock := clock + elapsed;
      if response.Some? {
        queryCache := queryCache[calls[k].url := Entry(lastRequestTime, response.value)];
        var last := |fetches| - 1;
        fetches := fetches[last := fetches[last].(text := response, doneEra := era)];
      }
      calls := SetPhase(calls, k, Over);
    }

    method Clear()
      modifies this
      ensures State() == Step(config, old(State()), ClearCache)
      ensures Reachable(config, old(State())) ==> Reachable(config, State())
    {
      StepReachable(config, State(), Step(config, State(), ClearCache), ClearCache);
      queryCache := map[];
      era := era + 1;
    }
  }
}
