/**
  The limiter shared through one hash of tokens and expiries: the three scripts as atomic steps, and every
  interleaving of workers that acquire, renew, release, crash, or read their own clocks.
*/
module LeaseLimiter {
  import opened Common

  type Token = nat
  type Instant = int
  type Tokens = map<Token, Instant>

  // ---------- The scripts ----------

  function Unexpired(m: Tokens, now: Instant): Tokens {
    map t | t in m && m[t] > now :: m[t]
  }

  /** Drop what has expired; take a slot if there is one. */
  function Acquire(m: Tokens, token: Token, cap: nat, now: Instant, leaseMs: nat): (Tokens, bool) {
    var left := Unexpired(m, now);
    if |left| >= cap then (left, false) else (left[token := now + leaseMs], true)
  }

  function Renew(m: Tokens, token: Token, now: Instant, leaseMs: nat): (Tokens, bool) {
    if token in m then (m[token := now + leaseMs], true) else (m, false)
  }

  function Release(m: Tokens, token: Token): Tokens {
    m - {token}
  }

  class TokenHash {
    var tokens: Tokens

    method AcquireScript(token: Token, cap: nat, now: Instant, leaseMs: nat) returns (granted: bool)
      modifies this
      ensures (tokens, granted) == Acquire(old(tokens), token, cap, now, leaseMs)
    {
      var fields := tokens.Keys;
      while fields != {}
        invariant fields <= tokens.Keys <= old(tokens).Keys
        invariant forall t :: t in tokens ==> tokens[t] == old(tokens)[t] && (t in fields || tokens[t] > now)
        invariant forall t :: t in old(tokens) && old(tokens)[t] > now ==> t in tokens
        decreases |fields|
      {
        var field :| field in fields;
        if tokens[field] <= now {
          tokens := tokens - {field};
        }
        fields := fields - {field};
      }
      assert tokens == Unexpired(old(tokens), now);
      if |tokens| >= cap { return false; }
      tokens := tokens[token := now + leaseMs];
      return true;
    }

    method RenewScript(token: Token, now: Instant, leaseMs: nat) returns (renewed: bool)
      modifies this
      ensures (tokens, renewed) == Renew(old(tokens), token, now, leaseMs)
    {
      if token in tokens {
        tokens := tokens[token := now + leaseMs];
        return true;
      }
      return false;
    }

    method ReleaseScript(token: Token)
      modifies this
      ensures tokens == Release(old(tokens), token)
    {
      tokens := tokens - {token};
    }
  }

  // ---------- Runs ----------

  datatype Action =
    | Take(token: Token, now: Instant, leaseMs: nat)
    | Extend(token: Token, now: Instant, leaseMs: nat)
    | GiveBack(token: Token)
    | Crash(token: Token)

  /** The hash, and for each operation under way the expiry of the last lease it was granted. */
  datatype World = World(tokens: Tokens, held: map<Token, Instant>)

  const START := World(map[], map[])

  function Step(w: World, a: Action, cap: nat): World {
    match a
    case Take(token, now, leaseMs) =>
      var (tokens, granted) := Acquire(w.tokens, token, cap, now, leaseMs);
      World(tokens, if granted then w.held[token := now + leaseMs] else w.held)
    case Extend(token, now, leaseMs) =>
      var (tokens, renewed) := Renew(w.tokens, token, now, leaseMs);
      World(tokens, if renewed && token in w.held then w.held[token := now + leaseMs] else w.held)
    case GiveBack(token) => World(Release(w.tokens, token), w.held - {token})
    case Crash(token) => World(w.tokens, w.held - {token})
  }

  function Run(trace: seq<Action>, cap: nat): World
    decreases |trace|
  {
    if trace == [] then START else Step(Run(trace[..|trace| - 1], cap), trace[|trace| - 1], cap)
  }

  /** The hash never holds more tokens than the cap, whatever the workers' clocks show. */
  lemma {:induction false} NeverOverCap(trace: seq<Action>, cap: nat)
    ensures |Run(trace, cap).tokens| <= cap
    decreases |trace|
  {
    if trace != [] {
      var w := Run(trace[..|trace| - 1], cap);
      NeverOverCap(trace[..|trace| - 1], cap);
      match trace[|trace| - 1]
      case Take(token, now, leaseMs) =>
        var left := Unexpired(w.tokens, now);
        SubsetSmaller(left.Keys, w.tokens.Keys);
        assert left[token := now + leaseMs].Keys == left.Keys + {token};
      case Extend(token, now, leaseMs) =>
        if token in w.tokens { assert w.tokens[token := now + leaseMs].Keys == w.tokens.Keys; }
      case GiveBack(token) =>
        SubsetSmaller(Release(w.tokens, token).Keys, w.tokens.Keys);
      case Crash(token) =>
    }
  }

  /** A lease granted or renewed is in force for the time asked, counted from the clock read; one given back is not. */
  lemma LeaseInForce(m: Tokens, token: Token, cap: nat, now: Instant, leaseMs: nat, later: Instant)
    ensures Acquire(m, token, cap, now, leaseMs).1 ==>
              (token in InForce(Acquire(m, token, cap, now, leaseMs).0, later) <==> later < now + leaseMs)
    ensures Renew(m, token, now, leaseMs).1 <==> token in m
    ensures token in m ==> (token in InForce(Renew(m, token, now, leaseMs).0, later) <==> later < now + leaseMs)
    ensures token !in Release(m, token)
    ensures forall t :: t != token ==>
              && (t in InForce(Acquire(m, token, cap, now, leaseMs).0, later) <==>
                   t in InForce(m, later) && t in InForce(m, now))
              && (t in InForce(Renew(m, token, now, leaseMs).0, later) <==> t in InForce(m, later))
              && (t in InForce(Release(m, token), later) <==> t in InForce(m, later))
  {}

  ghost predicate NoCrash(trace: seq<Action>) {
    forall a :: a in trace ==> !a.Crash?
  }

  /** Whatever acquires, the clocks of those that did being at most at `now`. */
  ghost predicate TakesBy(trace: seq<Action>, now: Instant) {
    forall a :: a in trace && a.Take? ==> a.now <= now
  }

  function InForce(m: Tokens, now: Instant): set<Token> {
    set t | t in m && m[t] > now
  }

  lemma GrantedIff(m: Tokens, token: Token, cap: nat, now: Instant, leaseMs: nat)
    ensures Acquire(m, token, cap, now, leaseMs).1 <==> |InForce(m, now)| < cap
  {
    assert Unexpired(m, now).Keys == InForce(m, now);
  }

  /** In any run, on any clocks, an acquire is refused exactly when the unexpired leases of the hash are the cap. */
  lemma RefusedIffFull(trace: seq<Action>, cap: nat, token: Token, now: Instant, leaseMs: nat)
    ensures var m := Run(trace, cap).tokens;
            !Acquire(m, token, cap, now, leaseMs).1 <==> |InForce(m, now)| == cap
  {
    var m := Run(trace, cap).tokens;
    GrantedIff(m, token, cap, now, leaseMs);
    NeverOverCap(trace, cap);
    SubsetSmaller(InForce(m, now), m.Keys);
  }

  /** Each operation whose last lease has not expired is in the hash, with that very lease. */
  ghost predicate LeasesKept(w: World, now: Instant) {
    forall t :: t in w.held && w.held[t] > now ==> t in w.tokens && w.tokens[t] == w.held[t]
  }

  /** Renewals may read any clock. */
  lemma StepKeepsLeases(w: World, a: Action, cap: nat, now: Instant)
    requires LeasesKept(w, now)
    requires a.Take? ==> a.now <= now
    ensures LeasesKept(Step(w, a, cap), now)
  {}

  lemma {:induction false} UnexpiredHeld(trace: seq<Action>, cap: nat, now: Instant)
    requires TakesBy(trace, now)
    ensures LeasesKept(Run(trace, cap), now)
    decreases |trace|
  {
    if trace != [] {
      UnexpiredHeld(trace[..|trace| - 1], cap, now);
      StepKeepsLeases(Run(trace[..|trace| - 1], cap), trace[|trace| - 1], cap, now);
    }
  }

  /** The operations under way whose last granted lease has not expired. */
  function LiveHolders(w: World, now: Instant): set<Token> {
    set t | t in w.held && w.held[t] > now
  }

  /**
    While no acquire has read a clock ahead of `now`, in whatever order the scripts arrived, the operations that run
    on an unexpired lease are all in the hash and never more than the cap.
  */
  lemma HoldersWithinCap(trace: seq<Action>, cap: nat, now: Instant)
    requires TakesBy(trace, now)
    ensures LeasesKept(Run(trace, cap), now)
    ensures |LiveHolders(Run(trace, cap), now)| <= cap
  {
    UnexpiredHeld(trace, cap, now);
    NeverOverCap(trace, cap);
    SubsetSmaller(LiveHolders(Run(trace, cap), now), Run(trace, cap).tokens.Keys);
  }

  ghost predicate HashHeld(w: World) {
    forall t :: t in w.tokens ==> t in w.held && w.held[t] == w.tokens[t]
  }

  lemma StepKeepsHeld(w: World, a: Action, cap: nat)
    requires HashHeld(w) && !a.Crash?
    ensures HashHeld(Step(w, a, cap))
  {}

  /** Without crashes the hash holds nothing but leases of operations under way. */
  lemma {:induction false} HashIsHeld(trace: seq<Action>, cap: nat)
    requires NoCrash(trace)
    ensures HashHeld(Run(trace, cap))
    decreases |trace|
  {
    if trace != [] {
      HashIsHeld(trace[..|trace| - 1], cap);
      StepKeepsHeld(Run(trace[..|trace| - 1], cap), trace[|trace| - 1], cap);
    }
  }

  /** Then a slot is refused exactly when the cap of operations are running on unexpired leases. */
  lemma RefusedIffBusy(trace: seq<Action>, cap: nat, token: Token, now: Instant, leaseMs: nat)
    requires TakesBy(trace, now) && NoCrash(trace)
    ensures var w := Run(trace, cap);
            !Acquire(w.tokens, token, cap, now, leaseMs).1 <==> |LiveHolders(w, now)| == cap
  {
    var w := Run(trace, cap);
    RefusedIffFull(trace, cap, token, now, leaseMs);
    HashIsHeld(trace, cap);
    UnexpiredHeld(trace, cap, now);
    assert LiveHolders(w, now) == InForce(w.tokens, now);
  }

  // ---------- Clocks ahead ----------

  /** So many tokens are granted leases up to `expiry` at `now`. */
  function Fill(count: nat, now: Instant, expiry: Instant): seq<Action>
    requires now <= expiry
  {
    if count == 0 then [] else Fill(count - 1, now, expiry) + [Take(count - 1, now, expiry - now)]
  }

  function Leases(count: nat, expiry: Instant): Tokens {
    if count == 0 then map[] else Leases(count - 1, expiry)[count - 1 := expiry]
  }

  lemma {:induction false} LeasesAre(count: nat, expiry: Instant)
    ensures |Leases(count, expiry)| == count
    ensures forall t :: t in Leases(count, expiry) ==> t < count && Leases(count, expiry)[t] == expiry
  {
    if count > 0 {
      LeasesAre(count - 1, expiry);
      assert Leases(count, expiry).Keys == Leases(count - 1, expiry).Keys + {count - 1};
    }
  }

  lemma RunThen(trace: seq<Action>, a: Action, cap: nat)
    ensures Run(trace + [a], cap) == Step(Run(trace, cap), a, cap)
  {
    assert (trace + [a])[..|trace|] == trace;
  }

  lemma {:induction false} FillTakes(count: nat, now: Instant, expiry: Instant)
    requires now <= expiry
    ensures TakesBy(Fill(count, now, expiry), now)
  {
    if count > 0 { FillTakes(count - 1, now, expiry); }
  }

  ghost predicate AllLeased(w: World, count: nat, expiry: Instant) {
    w == World(Leases(count, expiry), Leases(count, expiry))
  }

  /** Taking a slot of a hash that has room and nothing expired, when all it holds is held. */
  lemma FreeSlot(m: Tokens, token: Token, cap: nat, now: Instant, leaseMs: nat)
    requires |m| < cap && forall t :: t in m ==> m[t] > now
    ensures Step(World(m, m), Take(token, now, leaseMs), cap) ==
            World(m[token := now + leaseMs], m[token := now + leaseMs])
  {
    assert Unexpired(m, now) == m;
  }

  lemma OneMoreLease(w: World, count: nat, cap: nat, now: Instant, expiry: Instant)
    requires count < cap && now < expiry && AllLeased(w, count, expiry)
    ensures AllLeased(Step(w, Take(count, now, expiry - now), cap), count + 1, expiry)
  {
    LeasesAre(count, expiry);
    FreeSlot(Leases(count, expiry), count, cap, now, expiry - now);
  }

  lemma {:induction false} FilledRun(count: nat, cap: nat, now: Instant, expiry: Instant)
    requires count <= cap && now < expiry
    ensures AllLeased(Run(Fill(count, now, expiry), cap), count, expiry)
  {
    if count > 0 {
      var before := Fill(count - 1, now, expiry);
      FilledRun(count - 1, cap, now, expiry);
      OneMoreLease(Run(before, cap), count - 1, cap, now, expiry);
      RunThen(before, Take(count - 1, now, expiry - now), cap);
    }
  }

  /** A worker whose clock is ahead evicts leases that are good for their holders. */
  function Overtake(cap: nat, now: Instant, ahead: Instant): seq<Action>
    requires now <= ahead
  {
    Fill(cap, now, ahead) + [Take(cap, ahead, 1)]
  }

  lemma OvertakenLeases(trace: seq<Action>, cap: nat, now: Instant, ahead: Instant)
    requires now < ahead && cap > 0 && AllLeased(Run(trace, cap), cap, ahead)
    ensures var w := Run(trace + [Take(cap, ahead, 1)], cap);
            |w.tokens| == 1 && LiveHolders(w, now) == Leases(cap, ahead).Keys + {cap}
  {
    LeasesAre(cap, ahead);
    assert Unexpired(Leases(cap, ahead), ahead) == map[];
    RunThen(trace, Take(cap, ahead, 1), cap);
  }

  lemma OvertakeExceedsCap(cap: nat, now: Instant, ahead: Instant)
    requires now < ahead && cap > 0
    ensures TakesBy(Overtake(cap, now, ahead), ahead)
    ensures var w := Run(Overtake(cap, now, ahead), cap); |w.tokens| == 1 && |LiveHolders(w, now)| == cap + 1
  {
    FillTakes(cap, now, ahead);
    FilledRun(cap, cap, now, ahead);
    OvertakenLeases(Fill(cap, now, ahead), cap, now, ahead);
    LeasesAre(cap, ahead);
  }

  /** The cap bounds the live holders at `now` in all runs whose acquires read at most `ahead` iff that is not ahead. */
  lemma CapHoldsIffNotAhead(cap: nat, now: Instant, ahead: Instant)
    ensures (forall trace :: TakesBy(trace, ahead) ==> |LiveHolders(Run(trace, cap), now)| <= cap) <==>
            cap == 0 || ahead <= now
  {
    if cap == 0 || ahead <= now {
      forall trace | TakesBy(trace, ahead) ensures |LiveHolders(Run(trace, cap), now)| <= cap {
        if ahead <= now { HoldersWithinCap(trace, cap, now); } else { NothingHeld(trace); }
      }
    } else {
      OvertakeExceedsCap(cap, now, ahead);
    }
  }

  lemma {:induction false} NothingHeld(trace: seq<Action>)
    ensures Run(trace, 0) == START
    decreases |trace|
  {
    if trace != [] { NothingHeld(trace[..|trace| - 1]); }
  }

  /** Cap 1, and two live holders. */
  lemma SkewedClocksExceedCap()
    ensures var w := Run([Take(0, 0, 1000), Take(1, 5000, 1000)], 1);
            |w.tokens| == 1 && |LiveHolders(w, 1)| == 2
  {
    var first, second := Take(0, 0, 1000), Take(1, 5000, 1000);
    assert [first, second][..1] == [first] && [first][..0] == [];
    assert Run([], 1) == START && Unexpired(START.tokens, 0) == map[];
    var w1 := Run([first], 1);
    assert w1 == Step(START, first, 1);
    assert w1 == World(map[0 := 1000], map[0 := 1000]);
    assert Unexpired(w1.tokens, 5000) == map[];
    var w := Run([first, second], 1);
    assert w == World(map[1 := 6000], map[0 := 1000, 1 := 6000]);
    assert LiveHolders(w, 1) == {0, 1};
  }

  predicate Touches(a: Action, token: Token) {
    !a.Crash? && a.token == token
  }

  /**
    A crashed holder leaves its lease as it was until the first acquire at or after its expiry, and that one
    finds the slot free: from then on its token is gone.
  */
  lemma {:induction false} CrashedSlotFreed(w: World, trace: seq<Action>, cap: nat, token: Token)
    requires token in w.tokens && forall a :: a in trace ==> !Touches(a, token)
    ensures var m := Continue(w, trace, cap).tokens;
            if exists a :: a in trace && a.Take? && a.now >= w.tokens[token] then token !in m
            else token in m && m[token] == w.tokens[token]
    decreases |trace|
  {
    if trace != [] {
      var a := trace[|trace| - 1];
      var before := trace[..|trace| - 1];
      CrashedSlotFreed(w, before, cap, token);
      assert trace == before + [a];
      assert !Touches(a, token);
    }
  }

  function Continue(w: World, trace: seq<Action>, cap: nat): World
    decreases |trace|
  {
    if trace == [] then w else Step(Continue(w, trace[..|trace| - 1], cap), trace[|trace| - 1], cap)
  }
}
