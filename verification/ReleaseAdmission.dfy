/** Which calls the release budget admits, which journals it accepts, and what the release's own caps come to. */
module ReleaseAdmission {
  import opened Common
  import opened ReleaseBudget
  import opened ReleaseBudgetSafety
  import opened ReleasePricing

  // ---------- Calls ----------

  /** An object that is free to call: within its caps, open for admission, with nothing pending, broken or under way. */
  predicate Ready(t: Terms, b: Live) {
    Within(b.total, t.caps) && t.admissible && !b.poisoned && b.pending == map[] && !b.busy
  }

  /** The sum of what is spent and what is asked for stays within the caps, and within what can be counted. */
  predicate Affordable(t: Terms, b: Live, u: Usage) {
    Within(Add(b.total, u), t.caps) && ValidUsage(Add(b.total, u))
  }

  /** An embedding call is admitted exactly when it reserves some tokens at some price, and can be afforded. */
  lemma EmbeddingAdmittedIff(t: Terms, b: Live, id: nat, hash: string, tokens: nat, rate: nat)
    requires ValidUsage(b.total) && Sha256(hash)
    ensures RefusalOf(t, b, Request(id, EmbeddingCall, hash, EmbeddingUsage(tokens, rate))).None? <==>
            Ready(t, b) && tokens > 0 && Money(tokens, rate) > 0 && Affordable(t, b, EmbeddingUsage(tokens, rate))
  {}

  /** A chat call is admitted exactly when it reserves input and output tokens at some price, and can be afforded. */
  lemma ChatAdmittedIff(t: Terms, b: Live, id: nat, hash: string, input: nat, output: nat, rate: nat)
    requires ValidUsage(b.total) && Sha256(hash)
    ensures RefusalOf(t, b, Request(id, ChatCall, hash, ChatUsage(input, output, rate))).None? <==>
            && Ready(t, b) && input > 0 && output > 0 && Money(input + output, rate) > 0
            && Affordable(t, b, ChatUsage(input, output, rate))
  {}

  /** What the two kinds reserve: one call each, its tokens and their price, and nothing of the other kind. */
  lemma UsageOfKinds(tokens: nat, input: nat, output: nat, rate: nat)
    ensures EmbeddingUsage(tokens, rate) == Usage((tokens * rate + 999) / 1000, 1, tokens, 0, 0, 0)
    ensures ChatUsage(input, output, rate) == Usage(((input + output) * rate + 999) / 1000, 0, 0, 1, input, output)
  {}

  /** Neither kind passes for the other, nor one without a digest of its request. */
  lemma KindsApart(t: Terms, b: Live, id: nat, hash: string, input: nat, output: nat, rate: nat, q: Request)
    ensures RefusalOf(t, b, Request(id, ChatCall, hash, EmbeddingUsage(input, rate))).Some?
    ensures RefusalOf(t, b, Request(id, EmbeddingCall, hash, ChatUsage(input, output, rate))).Some?
    ensures q.kind == UnknownKind || !Sha256(q.requestHash) || q.reserved.microUsd <= 0 ==> RefusalOf(t, b, q).Some?
  {}

  /** The first reason there is decides which error a call gets. */
  lemma RefusedFor(t: Terms, b: Live, q: Request)
    ensures !Within(b.total, t.caps) ==> RefusalOf(t, b, q) == Some(BudgetExhausted)
    ensures Within(b.total, t.caps) && !t.admissible ==> RefusalOf(t, b, q) == Some(HistoryUnreconciled)
    ensures Within(b.total, t.caps) && t.admissible && (b.poisoned || b.pending != map[]) ==>
              RefusalOf(t, b, q) == Some(OutcomeUnknown)
    ensures Within(b.total, t.caps) && t.admissible && !b.poisoned && b.pending == map[] && b.busy ==>
              RefusalOf(t, b, q) == Some(ConcurrencyExceeded)
    ensures Ready(t, b) && ValidUsage(q.reserved) && ValidUsage(Add(b.total, q.reserved))
            && !Within(Add(b.total, q.reserved), t.caps) ==>
              RefusalOf(t, b, q) == Some(BudgetExhausted)
  {}

  /** A caller gets an answer exactly when both writes succeeded and the charge was within the reservation. */
  lemma AnsweredIff(t: Terms, w: World, q: Request, sc: Script)
    requires Reachable(t, w) && w.live.Some? && RefusalOf(t, w.live.value, q).None?
    ensures var o := ExecuteStep(t, w.live.value, w.journal, q, sc);
            && (o.reply == Answer <==>
                  && sc.reserve == Persisted && sc.settle == Persisted && sc.call.Answered?
                  && Settling(ReservationOf(q), sc.call.actual, w.live.value.total))
            && (o.reply == Answer ==>
                  o.live == Some(Live(Add(w.live.value.total, sc.call.actual), map[], false, false)))
            && (o.live.None? <==> o.reply == NoReply)
            && (o.dispatched <==> sc.reserve == Persisted)
  {
    ReachableConsistent(t, w);
    assert map[q.id := ReservationOf(q)] - {q.id} == map[];
    assert w.live.value.pending[q.id := ReservationOf(q)] - {q.id} == map[];
  }

  // ---------- Journals ----------

  /** A reservation that may be written when so much is spent and these ids are used. */
  predicate Writable(r: Reservation, total: Usage, used: set<nat>, caps: Usage) {
    && r.id !in used && r.kind != UnknownKind && Sha256(r.requestHash) && ValidReservation(r.kind, r.reserved)
    && ValidUsage(Add(total, r.reserved)) && Within(Add(total, r.reserved), caps)
  }

  /** A charge within what was reserved, for the same calls, that can be counted. */
  predicate Settling(r: Reservation, actual: Usage, total: Usage) {
    && ValidUsage(actual) && Within(actual, r.reserved) && ValidUsage(Add(total, actual))
    && actual.chatCalls == r.reserved.chatCalls && actual.embeddingCalls == r.reserved.embeddingCalls
  }

  /** Reservations under new ids, each settled within before the next; the last one may be open. */
  predicate InPairs(total: Usage, used: set<nat>, journal: seq<Event>, caps: Usage)
    decreases |journal|
  {
    journal != [] ==>
      && journal[0].Reserve? && Writable(journal[0].reservation, total, used, caps)
      && (|journal| > 1 ==>
            && journal[1].Settle? && journal[1].id == journal[0].reservation.id
            && Settling(journal[0].reservation, journal[1].actual, total)
            && InPairs(Add(total, journal[1].actual), used + {journal[1].id}, journal[2..], caps))
  }

  lemma PairReplays(total: Usage, used: set<nat>, journal: seq<Event>, caps: Usage)
    requires |journal| > 1
    ensures var first := ReplayEvent(Ledger(total, map[], used), journal[0], caps);
            && (first.Some? <==> journal[0].Reserve? && Writable(journal[0].reservation, total, used, caps))
            && (first.Some? ==>
                  var second := ReplayEvent(first.value, journal[1], caps);
                  && (second.Some? <==>
                        && journal[1].Settle? && journal[1].id == journal[0].reservation.id
                        && Settling(journal[0].reservation, journal[1].actual, total))
                  && (second.Some? ==>
                        second.value == Ledger(Add(total, journal[1].actual), map[], used + {journal[1].id})))
  {
    if journal[0].Reserve? {
      var r := journal[0].reservation;
      assert r.id in map[r.id := r];
      assert map[r.id := r] - {r.id} == map[];
    }
  }

  /** A journal is accepted exactly when it is a row of such pairs. */
  lemma {:induction false} JournalAcceptedIff(total: Usage, used: set<nat>, journal: seq<Event>, caps: Usage)
    ensures Replay(Ledger(total, map[], used), journal, caps).Some? <==> InPairs(total, used, journal, caps)
    decreases |journal|
  {
    if |journal| == 1 {
      assert journal[1..] == [];
    } else if |journal| > 1 {
      PairReplays(total, used, journal, caps);
      assert journal[1..][0] == journal[1] && journal[1..][1..] == journal[2..];
      if journal[0].Reserve? && journal[1].Settle? {
        JournalAcceptedIff(Add(total, journal[1].actual), used + {journal[1].id}, journal[2..], caps);
      }
    }
  }

  function Charged(journal: seq<Event>): Usage {
    if journal == [] then ZERO
    else if journal[0].Settle? then Add(journal[0].actual, Charged(journal[1..])) else Charged(journal[1..])
  }

  lemma AddSteps(a: Usage, b: Usage, c: Usage)
    ensures Add(a, Add(b, c)) == Add(Add(a, b), c) && Add(a, ZERO) == a
  {}

  /** What an accepted journal comes to is the start and all that was settled. */
  lemma {:induction false} ReplayedTotal(l: Ledger, journal: seq<Event>, caps: Usage)
    requires Replay(l, journal, caps).Some?
    ensures Replay(l, journal, caps).value.total == Add(l.total, Charged(journal))
    decreases |journal|
  {
    AddSteps(l.total, ZERO, ZERO);
    if journal != [] {
      ReplayedTotal(ReplayEvent(l, journal[0], caps).value, journal[1..], caps);
      if journal[0].Settle? { AddSteps(l.total, journal[0].actual, Charged(journal[1..])); }
    }
  }

  // ---------- The release's caps ----------

  /** Under the release's own caps nothing that runs, fails or crashes goes beyond a quarter dollar or 60 chat calls. */
  lemma ReleaseNeverExceeds(t: Terms, w: World)
    requires Reachable(t, w) && t.caps == RELEASE_CAPS && Within(t.initial, t.caps)
    ensures var total := Replayed(t, w).total;
            && total.microUsd <= 250000
            && total.embeddingCalls <= 100 && total.embeddingInputTokens <= 100000
            && total.chatCalls <= 60 && total.chatInputTokens <= 300000 && total.chatOutputTokens <= 30000
  {
    SpendStaysWithinCaps(t, w);
    ReachableConsistent(t, w);
    OutstandingValid(Replayed(t, w).pending);
  }

  lemma OutstandingValid(pending: map<nat, Reservation>)
    requires forall id :: id in pending ==> ValidUsage(pending[id].reserved)
    ensures Within(ZERO, Outstanding(pending))
  {}
}
