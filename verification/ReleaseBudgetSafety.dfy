/** Live object, journal and replay over every sequence of calls, failures, crashes and restarts. */
module ReleaseBudgetSafety {
  import opened Common
  import opened ReleaseBudget

  /** A call that reached the provider, and what the provider charges for it. */
  datatype Paid = Paid(reservation: Reservation, spent: Usage)

  datatype World = World(live: Option<Live>, journal: seq<Event>, calls: seq<Paid>)

  datatype Act = Do(request: Request, script: Script) | Restart

  /** An answer reports what was spent; without an answer the charge is anyone's guess. */
  function SpentOf(sc: Script): Usage {
    if sc.call.Answered? then sc.call.actual else sc.spent
  }

  function Ids(journal: seq<Event>): set<nat> {
    set e | e in journal && e.Reserve? :: e.reservation.id
  }

  /** One act; a request draws a random id, which no earlier reservation has. */
  function Next(t: Terms, w: World, a: Act): World {
    match a
    case Restart =>
      (match Replay(Start(t.initial), w.journal, t.caps)
       case Some(l) => w.(live := Some(Live(l.total, l.pending, false, false)))
       case None => w.(live := None))
    case Do(q, sc) =>
      if w.live.None? || q.id in Ids(w.journal) then w else
      var o := ExecuteStep(t, w.live.value, w.journal, q, sc);
      World(o.live, o.journal,
            if o.dispatched then w.calls + [Paid(ReservationOf(q), SpentOf(sc))] else w.calls)
  }

  function Run(t: Terms, w: World, acts: seq<Act>): World
    decreases |acts|
  {
    if acts == [] then w else Run(t, Next(t, w, acts[0]), acts[1..])
  }

  /** The ledger a restart would replay from the journal. */
  function Replayed(t: Terms, w: World): Ledger {
    var l := Replay(Start(t.initial), w.journal, t.caps);
    if l.Some? then l.value else Start(t.initial)
  }

  function Opening(t: Terms): World {
    World(Some(Live(t.initial, map[], false, false)), [], [])
  }

  ghost predicate ValidTerms(t: Terms) {
    ValidUsage(t.initial) && ValidUsage(t.caps)
  }

  // ---------- The journal and its replay ----------

  lemma {:induction false} ReplayAppend(l: Ledger, journal: seq<Event>, e: Event, caps: Usage)
    ensures Replay(l, journal + [e], caps) ==
            match Replay(l, journal, caps) case None => None case Some(m) => ReplayEvent(m, e, caps)
    decreases |journal|
  {
    if journal == [] {
      assert [] + [e] == [e] && [e][1..] == [];
    } else {
      assert (journal + [e])[1..] == journal[1..] + [e];
      var next := ReplayEvent(l, journal[0], caps);
      if next.Some? {
        ReplayAppend(next.value, journal[1..], e, caps);
      }
    }
  }

  /** (reserve settle)* reserve? with each settlement naming the reservation before it. */
  ghost predicate Alternates(journal: seq<Event>)
    decreases |journal|
  {
    || journal == []
    || (|journal| == 1 && journal[0].Reserve?)
    || (|journal| >= 2 && journal[0].Reserve? && journal[1].Settle?
        && journal[1].id == journal[0].reservation.id && Alternates(journal[2..]))
  }

  lemma {:induction false} AcceptedJournalsAlternate(l: Ledger, journal: seq<Event>, caps: Usage)
    requires l.pending == map[] && Replay(l, journal, caps).Some?
    ensures Alternates(journal)
    decreases |journal|
  {
    if |journal| >= 2 {
      var l1 := ReplayEvent(l, journal[0], caps).value;
      assert journal[1..][0] == journal[1];
      assert journal[0].reservation.id in l1.pending;
      var l2 := ReplayEvent(l1, journal[1], caps).value;
      assert l2.pending == l1.pending - {journal[1].id};
      assert l1.pending == map[journal[0].reservation.id := journal[0].reservation];
      assert l2.pending == map[];
      assert journal[1..][1..] == journal[2..];
      AcceptedJournalsAlternate(l2, journal[2..], caps);
    }
  }

  // ---------- The invariant ----------

  ghost function Outstanding(pending: map<nat, Reservation>): Usage {
    if pending == map[] then ZERO else var id :| id in pending; pending[id].reserved
  }

  ghost predicate AtMostOne(pending: map<nat, Reservation>) {
    pending == map[] || exists id :: id in pending && pending == map[id := pending[id]] && pending[id].id == id
  }

  function Spent(calls: seq<Paid>): Usage {
    if calls == [] then ZERO else Add(Spent(calls[..|calls| - 1]), calls[|calls| - 1].spent)
  }

  /** Whether the last dispatched call is still pending in the ledger. */
  predicate InDoubt(l: Ledger, calls: seq<Paid>) {
    calls != [] && calls[|calls| - 1].reservation.id in l.pending
  }

  ghost predicate LedgerOk(t: Terms, journal: seq<Event>, calls: seq<Paid>, l: Ledger) {
    && AtMostOne(l.pending) && l.used == Ids(journal) && l.pending.Keys <= l.used
    && ValidUsage(l.total) && Within(t.initial, l.total)
    && (forall id :: id in l.pending ==> ValidUsage(l.pending[id].reserved))
    && (Within(t.initial, t.caps) ==> Within(Add(l.total, Outstanding(l.pending)), t.caps))
    && (!Within(t.initial, t.caps) ==> journal == [])
    && (forall p :: p in calls ==> p.reservation.id in l.used)
    && (InDoubt(l, calls) ==>
          l.pending[calls[|calls| - 1].reservation.id] == calls[|calls| - 1].reservation)
    && Add(t.initial, Spent(calls)) ==
       Add(l.total, if InDoubt(l, calls) then calls[|calls| - 1].spent else ZERO)
  }

  ghost predicate LiveOk(t: Terms, b: Live, l: Ledger) {
    && !b.busy
    && (!b.poisoned ==> b.total == l.total && b.pending == l.pending)
    && ValidUsage(b.total)
    && (Within(t.initial, t.caps) ==> Within(Add(b.total, Outstanding(b.pending)), t.caps))
  }

  ghost predicate Consistent(t: Terms, w: World) {
    && Replay(Start(t.initial), w.journal, t.caps).Some?
    && var l := Replayed(t, w);
    && LedgerOk(t, w.journal, w.calls, l)
    && (w.live.Some? ==> LiveOk(t, w.live.value, l))
  }

  lemma OpeningConsistent(t: Terms)
    requires ValidTerms(t)
    ensures Consistent(t, Opening(t))
  {}

  /** A pending reservation, in the journal or in memory, refuses every call. */
  lemma PendingRefuses(t: Terms, w: World, q: Request)
    requires Consistent(t, w) && w.live.Some?
    requires Replayed(t, w).pending != map[]
    ensures RefusalOf(t, w.live.value, q).Some?
  {}

  /** The ledger once a reservation is in the journal. */
  lemma ReserveAdvances(t: Terms, w: World, q: Request, l: Ledger, calls: seq<Paid>, spent: Usage)
    requires ValidTerms(t) && Consistent(t, w) && w.live.Some? && q.id !in Ids(w.journal)
    requires RefusalOf(t, w.live.value, q).None?
    requires l == Replayed(t, w)
    requires calls == w.calls || calls == w.calls + [Paid(ReservationOf(q), spent)]
    ensures var next := Ledger(l.total, map[q.id := ReservationOf(q)], l.used + {q.id});
            && Replay(Start(t.initial), w.journal + [Reserve(ReservationOf(q))], t.caps) == Some(next)
            && LedgerOk(t, w.journal + [Reserve(ReservationOf(q))], calls, next)
            && (InDoubt(next, calls) <==> calls != w.calls)
  {
    var r := ReservationOf(q);
    var next := Ledger(l.total, map[q.id := r], l.used + {q.id});
    ReplayAppend(Start(t.initial), w.journal, Reserve(r), t.caps);
    assert Ids(w.journal + [Reserve(r)]) == Ids(w.journal) + {q.id};
    assert Outstanding(next.pending) == r.reserved;
    if calls != w.calls {
      assert calls[..|calls| - 1] == w.calls;
    } else if calls != [] {
      assert calls[|calls| - 1] in w.calls;
    }
  }

  lemma SettleReplays(t: Terms, journal: seq<Event>, r: Reservation, l: Ledger, actual: Usage)
    requires Replay(Start(t.initial), journal, t.caps) == Some(l) && l.pending == map[r.id := r]
    requires ValidUsage(l.total) && Within(Add(l.total, r.reserved), t.caps) && ValidUsage(t.caps)
    requires Settles(r, actual)
    ensures Sum(l.total, actual).Some?
    ensures Replay(Start(t.initial), journal + [Settle(r.id, actual)], t.caps) ==
            Some(Ledger(Add(l.total, actual), map[], l.used))
  {
    ReplayAppend(Start(t.initial), journal, Settle(r.id, actual), t.caps);
    assert map[r.id := r] - {r.id} == map[];
  }

  /** A settlement in the journal turns the doubt about the last call into its exact charge. */
  lemma SettledLedgerOk(
      t: Terms, journal: seq<Event>, calls: seq<Paid>, r: Reservation, l: Ledger, actual: Usage)
    requires ValidTerms(t) && Within(t.initial, t.caps)
    requires LedgerOk(t, journal, calls, l) && l.pending == map[r.id := r] && InDoubt(l, calls) && Settles(r, actual)
    requires calls[|calls| - 1].spent == actual && Outstanding(l.pending) == r.reserved
    ensures LedgerOk(t, journal + [Settle(r.id, actual)], calls, Ledger(Add(l.total, actual), map[], l.used))
  {
    assert Ids(journal + [Settle(r.id, actual)]) == Ids(journal);
  }

  /** The object once the call is over, one way or the other. */
  lemma LiveAfterCall(t: Terms, b: Live, l: Ledger, journal: seq<Event>, q: Request, sc: Script)
    requires ValidTerms(t) && LiveOk(t, b, l) && RefusalOf(t, b, q).None?
    ensures var o := ExecuteStep(t, b, journal, q, sc);
            o.live.Some? ==>
              var settled := sc.reserve == Persisted && sc.call.Answered?
                             && Settles(ReservationOf(q), sc.call.actual) && sc.settle == Persisted;
              && ValidUsage(o.live.value.total) && !o.live.value.busy
              && Within(Add(o.live.value.total, Outstanding(o.live.value.pending)), t.caps)
              && o.live.value.poisoned == !settled
              && (settled ==> o.live.value.total == Add(l.total, sc.call.actual) && o.live.value.pending == map[])
  {
    var r := ReservationOf(q);
    var held := map[q.id := r];
    assert q.id in held;
    assert b.pending[q.id := r] == held && Outstanding(held) == r.reserved && held - {q.id} == map[];
  }

  /** The settlement gets into the journal. */
  predicate Books(q: Request, sc: Script) {
    sc.reserve == Persisted && sc.call.Answered? && Settles(ReservationOf(q), sc.call.actual) && Kept(sc.settle)
  }

  predicate Admitted(t: Terms, w: World, q: Request) {
    w.live.Some? && q.id !in Ids(w.journal) && RefusalOf(t, w.live.value, q).None?
  }

  /** What an admitted call leaves in the journal, and whether it reached the provider. */
  lemma NextJournal(t: Terms, w: World, q: Request, sc: Script, after: World)
    requires Admitted(t, w, q) && after == Next(t, w, Do(q, sc))
    ensures after.journal ==
            if !Kept(sc.reserve) then w.journal
            else if !Books(q, sc) then w.journal + [Reserve(ReservationOf(q))]
            else w.journal + [Reserve(ReservationOf(q))] + [Settle(q.id, sc.call.actual)]
    ensures after.calls == if sc.reserve == Persisted then w.calls + [Paid(ReservationOf(q), SpentOf(sc))] else w.calls
  {}

  /** A call whose settlement got into the journal. */
  lemma BookedLedger(t: Terms, w: World, q: Request, sc: Script, l: Ledger)
    requires ValidTerms(t) && Consistent(t, w) && Admitted(t, w, q) && l == Replayed(t, w) && Books(q, sc)
    ensures var actual := sc.call.actual;
            var journal := w.journal + [Reserve(ReservationOf(q))] + [Settle(q.id, actual)];
            var next := Ledger(Add(l.total, actual), map[], l.used + {q.id});
            && Replay(Start(t.initial), journal, t.caps) == Some(next)
            && LedgerOk(t, journal, w.calls + [Paid(ReservationOf(q), actual)], next)
  {
    var r, calls := ReservationOf(q), w.calls + [Paid(ReservationOf(q), sc.call.actual)];
    var held := Ledger(l.total, map[q.id := r], l.used + {q.id});
    ReserveAdvances(t, w, q, l, calls, sc.call.actual);
    assert Outstanding(held.pending) == r.reserved;
    SettleReplays(t, w.journal + [Reserve(r)], r, held, sc.call.actual);
    SettledLedgerOk(t, w.journal + [Reserve(r)], calls, r, held, sc.call.actual);
  }

  lemma ExecuteLedger(t: Terms, w: World, q: Request, sc: Script, after: World, l: Ledger)
    requires ValidTerms(t) && Consistent(t, w) && Admitted(t, w, q)
    requires after == Next(t, w, Do(q, sc)) && l == Replayed(t, w)
    ensures Replay(Start(t.initial), after.journal, t.caps).Some?
    ensures LedgerOk(t, after.journal, after.calls, Replayed(t, after))
    ensures Books(q, sc) ==>
              Replayed(t, after).total == Add(l.total, sc.call.actual) && Replayed(t, after).pending == map[]
  {
    NextJournal(t, w, q, sc, after);
    if Books(q, sc) {
      BookedLedger(t, w, q, sc, l);
    } else if Kept(sc.reserve) {
      ReserveAdvances(t, w, q, l, after.calls, SpentOf(sc));
    }
  }

  lemma ExecuteKeepsConsistent(t: Terms, w: World, q: Request, sc: Script)
    requires ValidTerms(t) && Consistent(t, w)
    ensures Consistent(t, Next(t, w, Do(q, sc)))
  {
    if Admitted(t, w, q) {
      LiveAfterCall(t, w.live.value, Replayed(t, w), w.journal, q, sc);
      ExecuteLedger(t, w, q, sc, Next(t, w, Do(q, sc)), Replayed(t, w));
    }
  }

  lemma RestartKeepsConsistent(t: Terms, w: World)
    requires Consistent(t, w)
    ensures Consistent(t, Next(t, w, Restart)) && Next(t, w, Restart).live.Some?
  {}

  lemma {:induction false} RunKeepsConsistent(t: Terms, w: World, acts: seq<Act>)
    requires ValidTerms(t) && Consistent(t, w)
    ensures Consistent(t, Run(t, w, acts))
    decreases |acts|
  {
    if acts != [] {
      match acts[0] {
        case Restart => RestartKeepsConsistent(t, w);
        case Do(q, sc) => ExecuteKeepsConsistent(t, w, q, sc);
      }
      RunKeepsConsistent(t, Next(t, w, acts[0]), acts[1..]);
    }
  }

  // ---------- What it means ----------

  ghost predicate Reachable(t: Terms, w: World) {
    ValidTerms(t) && exists acts :: w == Run(t, Opening(t), acts)
  }

  lemma ReachableConsistent(t: Terms, w: World)
    requires Reachable(t, w)
    ensures Consistent(t, w)
  {
    var acts :| w == Run(t, Opening(t), acts);
    OpeningConsistent(t);
    RunKeepsConsistent(t, Opening(t), acts);
  }

  /**
    Whatever failed or crashed, the journal is one the replay accepts, of shape (reserve settle)* reserve?;
    and while nothing has failed, the replayed total and pending reservations are the live ones.
  */
  lemma JournalAlwaysReplays(t: Terms, w: World)
    requires Reachable(t, w)
    ensures Replay(Start(t.initial), w.journal, t.caps).Some?
    ensures Alternates(w.journal)
    ensures w.live.Some? && !w.live.value.poisoned ==>
              var l := Replayed(t, w);
              l.total == w.live.value.total && l.pending == w.live.value.pending
  {
    ReachableConsistent(t, w);
    AcceptedJournalsAlternate(Start(t.initial), w.journal, t.caps);
  }

  /** Spending and reservations never leave the caps, live or replayed; started above them, nothing is ever admitted. */
  lemma SpendStaysWithinCaps(t: Terms, w: World)
    requires Reachable(t, w)
    ensures Within(t.initial, t.caps) ==>
              var l := Replayed(t, w);
              && Within(Add(l.total, Outstanding(l.pending)), t.caps)
              && (w.live.Some? ==> Within(Add(w.live.value.total, Outstanding(w.live.value.pending)), t.caps))
    ensures !Within(t.initial, t.caps) ==> w.journal == [] && w.calls == []
  {
    ReachableConsistent(t, w);
  }

  /** What the ledger has booked and set aside is at least what was charged. */
  predicate Covers(l: Ledger, initial: Usage, calls: seq<Paid>, outstanding: Usage) {
    Within(Add(initial, Spent(calls)), Add(l.total, outstanding))
  }

  /**
    The journal covers what the provider charged exactly when the call in doubt, if there is one, was
    charged within its reservation: settled calls are covered to the unit.
  */
  lemma JournalCoversSpending(t: Terms, w: World)
    requires Reachable(t, w)
    ensures var l := Replayed(t, w);
            Covers(l, t.initial, w.calls, Outstanding(l.pending)) <==>
            (InDoubt(l, w.calls) ==>
               Within(w.calls[|w.calls| - 1].spent, w.calls[|w.calls| - 1].reservation.reserved))
  {
    ReachableConsistent(t, w);
    var l := Replayed(t, w);
    if InDoubt(l, w.calls) {
      assert Outstanding(l.pending) == w.calls[|w.calls| - 1].reservation.reserved;
    } else if l.pending != map[] {
      var id :| id in l.pending && l.pending == map[id := l.pending[id]];
      assert Outstanding(l.pending) == l.pending[id].reserved;
    }
  }

  /** An answer above its reservation cannot be settled: from then on the journal covers less than was charged. */
  lemma OverspendUncovered(t: Terms, w: World, q: Request, sc: Script)
    requires Reachable(t, w) && Admitted(t, w, q)
    requires sc.reserve == Persisted && sc.call.Answered? && !Within(sc.call.actual, q.reserved)
    ensures var after := Next(t, w, Do(q, sc));
            var l := Replayed(t, after);
            && !Covers(l, t.initial, after.calls, Outstanding(l.pending))
            && l.pending == map[q.id := ReservationOf(q)] && after.live.Some? && after.live.value.poisoned
  {
    ReachableConsistent(t, w);
    var after := Next(t, w, Do(q, sc));
    NextJournal(t, w, q, sc, after);
    ReserveAdvances(t, w, q, Replayed(t, w), after.calls, sc.call.actual);
    assert Outstanding(Replayed(t, after).pending) == q.reserved;
  }

  const FRESH := Terms(ZERO, RELEASE_CAPS, true)
  const HASH := seq(64, _ => 'a')
  const SMALL := Request(0, EmbeddingCall, HASH, Usage(10, 1, 100, 0, 0, 0))
  const ABOVE := Script(Persisted, Answered(Usage(11, 1, 110, 0, 0, 0)), ZERO, Persisted)

  lemma SmallAdmitted()
    ensures ValidTerms(FRESH) && Admitted(FRESH, Opening(FRESH), SMALL)
  {
    assert Sha256(HASH);
  }

  lemma RunOne(t: Terms, w: World, a: Act)
    ensures Run(t, w, [a]) == Next(t, w, a) && Run(t, w, []) == w
  {
    assert [a][1..] == [];
  }

  /** The first call of a new budget, answered above its reservation. */
  lemma OverspendReached()
    ensures ValidTerms(FRESH)
    ensures var after := Run(FRESH, Opening(FRESH), [Do(SMALL, ABOVE)]);
            var l := Replayed(FRESH, after);
            after.calls != [] && !Covers(l, FRESH.initial, after.calls, Outstanding(l.pending))
  {
    SmallAdmitted();
    RunOne(FRESH, Opening(FRESH), Do(SMALL, ABOVE));
    NextJournal(FRESH, Opening(FRESH), SMALL, ABOVE, Next(FRESH, Opening(FRESH), Do(SMALL, ABOVE)));
    assert Reachable(FRESH, Opening(FRESH));
    OverspendUncovered(FRESH, Opening(FRESH), SMALL, ABOVE);
  }

  /** Once a reservation is left pending in the journal, no act, not even a restart, gets another call through. */
  lemma {:induction false} InDoubtBlocksForever(t: Terms, w: World, acts: seq<Act>)
    requires ValidTerms(t) && Consistent(t, w)
    requires Replayed(t, w).pending != map[]
    ensures Run(t, w, acts).calls == w.calls && Run(t, w, acts).journal == w.journal
    decreases |acts|
  {
    if acts != [] {
      match acts[0] {
        case Restart => RestartKeepsConsistent(t, w);
        case Do(q, sc) =>
          ExecuteKeepsConsistent(t, w, q, sc);
          if w.live.Some? { PendingRefuses(t, w, q); }
      }
      InDoubtBlocksForever(t, Next(t, w, acts[0]), acts[1..]);
    }
  }

  /** While a call is suspended in a write or at the provider, a second call is refused and changes nothing. */
  lemma SuspendedCallRefusesOthers(t: Terms, b: Live, journal: seq<Event>, q: Request, sc: Script)
    requires b.busy || b.pending != map[]
    ensures ExecuteStep(t, b, journal, q, sc).reply.Refused?
    ensures ExecuteStep(t, b, journal, q, sc).live == Some(b) && ExecuteStep(t, b, journal, q, sc).journal == journal
  {}
}
