/**
  The write-ahead spend journal: a live budget object, the events it persists before and after every
  paid call, and the replay that rebuilds the object from them after a crash.
*/
module ReleaseBudget {
  import opened Common

  datatype Usage = Usage(
    microUsd: int, embeddingCalls: int, embeddingInputTokens: int,
    chatCalls: int, chatInputTokens: int, chatOutputTokens: int)

  const ZERO := Usage(0, 0, 0, 0, 0, 0)
  const RELEASE_CAPS := Usage(250000, 100, 100000, 60, 300000, 30000)

  function Add(a: Usage, b: Usage): Usage {
    Usage(a.microUsd + b.microUsd, a.embeddingCalls + b.embeddingCalls,
          a.embeddingInputTokens + b.embeddingInputTokens, a.chatCalls + b.chatCalls,
          a.chatInputTokens + b.chatInputTokens, a.chatOutputTokens + b.chatOutputTokens)
  }

  /** Every component of `a` is at most that of `b`. */
  predicate Within(a: Usage, b: Usage) {
    && a.microUsd <= b.microUsd && a.embeddingCalls <= b.embeddingCalls
    && a.embeddingInputTokens <= b.embeddingInputTokens && a.chatCalls <= b.chatCalls
    && a.chatInputTokens <= b.chatInputTokens && a.chatOutputTokens <= b.chatOutputTokens
  }

  /** Non-negative safe integers. */
  predicate ValidUsage(u: Usage) {
    Within(ZERO, u) && Within(u, Usage(MAX_SAFE_INTEGER, MAX_SAFE_INTEGER, MAX_SAFE_INTEGER,
                                       MAX_SAFE_INTEGER, MAX_SAFE_INTEGER, MAX_SAFE_INTEGER))
  }

  /** The sum, unless a component leaves the safe integers. */
  function Sum(a: Usage, b: Usage): Option<Usage> {
    if ValidUsage(Add(a, b)) then Some(Add(a, b)) else None
  }

  // ---------- Events ----------

  datatype Kind = EmbeddingCall | ChatCall | UnknownKind

  datatype Reservation = Reservation(id: nat, kind: Kind, requestHash: string, reserved: Usage)

  datatype Event = Reserve(reservation: Reservation) | Settle(id: nat, actual: Usage) | Malformed

  predicate ValidReservation(kind: Kind, u: Usage) {
    && ValidUsage(u) && u.microUsd > 0
    && (match kind
        case EmbeddingCall =>
          u.embeddingCalls == 1 && u.embeddingInputTokens > 0
          && u.chatCalls == 0 && u.chatInputTokens == 0 && u.chatOutputTokens == 0
        case ChatCall =>
          u.chatCalls == 1 && u.chatInputTokens > 0 && u.chatOutputTokens > 0
          && u.embeddingCalls == 0 && u.embeddingInputTokens == 0
        case UnknownKind => false)
  }

  /** A reported usage the reservation covers, with the same calls. */
  predicate Settles(r: Reservation, actual: Usage) {
    && ValidUsage(actual) && Within(actual, r.reserved)
    && actual.chatCalls == r.reserved.chatCalls && actual.embeddingCalls == r.reserved.embeddingCalls
  }

  // ---------- Replay ----------

  datatype Ledger = Ledger(total: Usage, pending: map<nat, Reservation>, used: set<nat>)

  function ReplayEvent(l: Ledger, e: Event, caps: Usage): Option<Ledger> {
    match e
    case Malformed => None
    case Reserve(r) =>
      if r.id in l.used || l.pending != map[] || r.kind == UnknownKind || !Sha256(r.requestHash) then None
      else if !ValidReservation(r.kind, r.reserved) then None
      else if Sum(l.total, r.reserved).None? || !Within(Add(l.total, r.reserved), caps) then None
      else Some(Ledger(l.total, l.pending[r.id := r], l.used + {r.id}))
    case Settle(id, actual) =>
      if id !in l.pending || !Settles(l.pending[id], actual) || Sum(l.total, actual).None? then None
      else Some(Ledger(Add(l.total, actual), l.pending - {id}, l.used))
  }

  function Replay(l: Ledger, journal: seq<Event>, caps: Usage): Option<Ledger>
    decreases |journal|
  {
    if journal == [] then Some(l) else
    match ReplayEvent(l, journal[0], caps)
    case None => None
    case Some(next) => Replay(next, journal[1..], caps)
  }

  function Start(total: Usage): Ledger {
    Ledger(total, map[], {})
  }

  // ---------- The live object ----------

  datatype Live = Live(total: Usage, pending: map<nat, Reservation>, busy: bool, poisoned: bool)

  /** Fixed at creation: what was spent before, the caps, and whether admission is open at all. */
  datatype Terms = Terms(initial: Usage, caps: Usage, admissible: bool)

  datatype Error =
    | BudgetExhausted | HistoryUnreconciled | OutcomeUnknown | ConcurrencyExceeded
    | InvalidUsage | InvalidReservation | InvalidRequestHash

  datatype Request = Request(id: nat, kind: Kind, requestHash: string, reserved: Usage)

  function ReservationOf(q: Request): Reservation {
    Reservation(q.id, q.kind, q.requestHash, q.reserved)
  }

  function ReadyError(t: Terms, b: Live): Option<Error> {
    if !Within(b.total, t.caps) then Some(BudgetExhausted)
    else if !t.admissible then Some(HistoryUnreconciled)
    else if b.poisoned || b.pending != map[] then Some(OutcomeUnknown)
    else None
  }

  /** The synchronous checks before anything is written: why the call is refused, if it is. */
  function RefusalOf(t: Terms, b: Live, q: Request): Option<Error> {
    if ReadyError(t, b).Some? then ReadyError(t, b)
    else if b.busy then Some(ConcurrencyExceeded)
    else if !ValidUsage(q.reserved) || Sum(b.total, q.reserved).None? then Some(InvalidUsage)
    else if !Within(Add(b.total, q.reserved), t.caps) then Some(BudgetExhausted)
    else if !ValidReservation(q.kind, q.reserved) then Some(InvalidReservation)
    else if !Sha256(q.requestHash) then Some(InvalidRequestHash)
    else None
  }

  /** What becomes of one write: it may fail or the process may die, with the record kept or lost. */
  datatype Write = Persisted | FailedKept | FailedLost | CrashKept | CrashLost

  datatype Call = Answered(actual: Usage) | Threw | CrashedDuring

  /** Everything outside the object that an execute meets. `spent` is what the provider really charges. */
  datatype Script = Script(reserve: Write, call: Call, spent: Usage, settle: Write)

  datatype Reply = Refused(error: Error) | Answer | FailedOrUnknown | NoReply

  /** `live` is `None` when the process died. */
  datatype Executed = Executed(live: Option<Live>, journal: seq<Event>, dispatched: bool, reply: Reply)

  function Poison(b: Live): Live {
    b.(poisoned := true, busy := false)
  }

  function Kept(w: Write): bool {
    w in {Persisted, FailedKept, CrashKept}
  }

  function Append(journal: seq<Event>, e: Event, w: Write): seq<Event> {
    if Kept(w) then journal + [e] else journal
  }

  /** After the call was dispatched, with its reservation pending. */
  function Settled(b: Live, journal: seq<Event>, r: Reservation, sc: Script): Executed {
    match sc.call
    case CrashedDuring => Executed(None, journal, true, NoReply)
    case Threw => Executed(Some(Poison(b)), journal, true, FailedOrUnknown)
    case Answered(actual) =>
      if !Settles(r, actual) then Executed(Some(Poison(b)), journal, true, FailedOrUnknown) else
      var written := Append(journal, Settle(r.id, actual), sc.settle);
      if sc.settle in {CrashKept, CrashLost} then Executed(None, written, true, NoReply)
      else if sc.settle != Persisted || Sum(b.total, actual).None? then
        Executed(Some(Poison(b)), written, true, FailedOrUnknown)
      else
        Executed(Some(b.(total := Add(b.total, actual), pending := b.pending - {r.id}, busy := false)),
                 written, true, Answer)
  }

  function ExecuteStep(t: Terms, b: Live, journal: seq<Event>, q: Request, sc: Script): Executed {
    if RefusalOf(t, b, q).Some? then Executed(Some(b), journal, false, Refused(RefusalOf(t, b, q).value)) else
    var r := ReservationOf(q);
    var written := Append(journal, Reserve(r), sc.reserve);
    if sc.reserve in {CrashKept, CrashLost} then Executed(None, written, false, NoReply)
    else if sc.reserve != Persisted then Executed(Some(Poison(b)), written, false, FailedOrUnknown)
    else Settled(b.(pending := b.pending[r.id := r], busy := true), written, r, sc)
  }

  class Budget {
    const terms: Terms
    var total: Usage
    var pending: map<nat, Reservation>
    var busy: bool
    var poisoned: bool
    var journal: seq<Event>   // the append-only file

    function Object(): Live
      reads this
    {
      Live(total, pending, busy, poisoned)
    }

    constructor (terms: Terms)
      ensures this.terms == terms && Object() == Live(terms.initial, map[], false, false) && journal == []
    {
      this.terms := terms;
      total, pending, busy, poisoned, journal := terms.initial, map[], false, false, [];
    }

    /** Rebuild from a journal; `false` is the error that refuses to open it. */
    method Load(events: seq<Event>) returns (accepted: bool)
      modifies this
      ensures accepted == Replay(Start(terms.initial), events, terms.caps).Some?
      ensures accepted ==>
                var l := Replay(Start(terms.initial), events, terms.caps).value;
                Object() == Live(l.total, l.pending, false, false) && journal == events
    {
      total, pending, busy, poisoned, journal := terms.initial, map[], false, false, events;
      var used: set<nat> := {};
      for i := 0 to |events|
        invariant !busy && !poisoned && journal == events
        invariant Replay(Ledger(total, pending, used), events[i..], terms.caps) ==
                  Replay(Start(terms.initial), events, terms.caps)
      {
        assert events[i..][0] == events[i] && events[i..][1..] == events[i + 1..];
        match events[i] {
          case Malformed => return false;
          case Reserve(r) =>
            if r.id in used || pending != map[] || r.kind == UnknownKind || !Sha256(r.requestHash) { return false; }
            if !ValidReservation(r.kind, r.reserved) { return false; }
            var spend := Sum(total, r.reserved);
            if spend.None? || !Within(spend.value, terms.caps) { return false; }
            used, pending := used + {r.id}, pending[r.id := r];
          case Settle(id, actual) =>
            if id !in pending { return false; }
            if !Settles(pending[id], actual) { return false; }
            var spend := Sum(total, actual);
            if spend.None? { return false; }
            total, pending := spend.value, pending - {id};
        }
      }
      return true;
    }

    /** One paid call. When it dies half-way only the journal is left to speak of. */
    method Execute(q: Request, sc: Script) returns (reply: Reply)
      modifies this
      ensures var o := ExecuteStep(terms, old(Object()), old(journal), q, sc);
              journal == o.journal && reply == o.reply && (o.live.Some? ==> Object() == o.live.value)
    {
      if !Within(total, terms.caps) { return Refused(BudgetExhausted); }
      if !terms.admissible { return Refused(HistoryUnreconciled); }
      if poisoned || pending != map[] { return Refused(OutcomeUnknown); }
      if busy { return Refused(ConcurrencyExceeded); }
      if !ValidUsage(q.reserved) { return Refused(InvalidUsage); }
      var spend := Sum(total, q.reserved);
      if spend.None? { return Refused(InvalidUsage); }
      if !Within(spend.value, terms.caps) { return Refused(BudgetExhausted); }
      if !ValidReservation(q.kind, q.reserved) { return Refused(InvalidReservation); }
      if !Sha256(q.requestHash) { return Refused(InvalidRequestHash); }
      busy := true;
      var r := ReservationOf(q);
      if Kept(sc.reserve) { journal := journal + [Reserve(r)]; }
      if sc.reserve in {CrashKept, CrashLost} { return NoReply; }
      if sc.reserve in {FailedKept, FailedLost} { poisoned, busy := true, false; return FailedOrUnknown; }
      pending := pending[r.id := r];
      if sc.call == CrashedDuring { return NoReply; }
      if sc.call == Threw { poisoned, busy := true, false; return FailedOrUnknown; }
      var actual := sc.call.actual;
      if !Settles(r, actual) { poisoned, busy := true, false; return FailedOrUnknown; }
      if Kept(sc.settle) { journal := journal + [Settle(r.id, actual)]; }
      if sc.settle in {CrashKept, CrashLost} { return NoReply; }
      var paid := Sum(total, actual);
      if sc.settle in {FailedKept, FailedLost} || paid.None? {
        poisoned, busy := true, false;
        return FailedOrUnknown;
      }
      total, pending, busy := paid.value, pending - {r.id}, false;
      return Answer;
    }
  }
}
