/**
  The provider budget kept in the database: reservations of units and tokens against the limits of a scope, a day
  and a lane, each settled, held or released later.

  A reservation's random id and its place in the order of insertion determine each other; the model uses the place.
*/
module ProviderBudget {
  import opened Common

  type ScopeId = string
  type Lane = string
  type Day = int
  type Id = nat

  datatype Usage = Usage(units: int, tokens: int)

  datatype Config = Config(
    approved: bool, currency: string, daily: Usage, maxOutstanding: int, lanes: map<Lane, Usage>, profiles: seq<string>)

  /** Configuring a scope writes every column but `blocked`. */
  datatype Scope = Scope(config: Config, blocked: bool)

  datatype State = Reserved | Settled | Unknown | Released
  datatype Row = Row(
    scope: ScopeId, attempt: string, lane: Lane, day: Day, reserved: Usage, state: State, actual: Option<Usage>)

  datatype Ledger = Ledger(scopes: map<ScopeId, Scope>, rows: seq<Row>)

  const EMPTY := Ledger(map[], [])

  datatype Error = InvalidUsage | ApprovalRequired | ReservationConflict | BudgetExhausted | OutcomeUnknown

  datatype Outcome<+T> = Done(ledger: Ledger, value: T) | Rejected(error: Error)

  function After<T>(s: Ledger, o: Outcome<T>): Ledger {
    if o.Done? then o.ledger else s
  }

  // ---------- What is counted ----------

  datatype Measure = Units | Tokens

  /** The sums that a reservation is checked against: what is outstanding, and a day's charges, of a lane or of all. */
  datatype Counter =
    | Outstanding(scope: ScopeId)
    | Charged(scope: ScopeId, day: Day, lane: Option<Lane>, measure: Measure)

  function Of(u: Usage, m: Measure): int {
    if m.Units? then u.units else u.tokens
  }

  predicate Counts(c: Counter, r: Row) {
    && r.scope == c.scope
    && match c
       case Outstanding(_) => r.state == Reserved || r.state == Unknown
       case Charged(_, day, lane, _) => r.day == day && (lane.None? || r.lane == lane.value) && r.state != Released
  }

  function MeasureOf(c: Counter): Measure {
    if c.Outstanding? then Units else c.measure
  }

  /** What the row was reserved for, and what it was charged when that is known. */
  function Charge(c: Counter, r: Row): int {
    if c.Charged? && r.actual.Some? then Of(r.actual.value, MeasureOf(c)) else Of(r.reserved, MeasureOf(c))
  }

  function Weight(c: Counter, r: Row): int {
    if Counts(c, r) then Charge(c, r) else 0
  }

  function Sum(c: Counter, rows: seq<Row>): int {
    if rows == [] then 0 else Sum(c, rows[..|rows| - 1]) + Weight(c, rows[|rows| - 1])
  }

  /** The limit a scope sets for the counter; a lane it does not name has none. */
  function LimitOf(config: Config, c: Counter): Option<int> {
    match c
    case Outstanding(_) => Some(config.maxOutstanding)
    case Charged(_, _, None, m) => Some(Of(config.daily, m))
    case Charged(_, _, Some(lane), m) => if lane in config.lanes then Some(Of(config.lanes[lane], m)) else None
  }

  // ---------- The operations ----------

  predicate ValidUsage(u: Usage) {
    0 <= u.units <= MAX_SAFE_INTEGER && 0 <= u.tokens <= MAX_SAFE_INTEGER
  }

  predicate ValidConfig(id: ScopeId, config: Config) {
    && ValidUsage(config.daily) && ValidUsage(Usage(config.maxOutstanding, 0))
    && |config.currency| == 3 && (forall c :: c in config.currency ==> 'A' <= c <= 'Z') && id != ""
    && (forall lane :: lane in config.lanes ==> ValidUsage(config.lanes[lane]))
    && (forall hash :: hash in config.profiles ==> Sha256(hash))
  }

  function Configure(s: Ledger, id: ScopeId, config: Config): Outcome<()> {
    if !ValidConfig(id, config) then Rejected(InvalidUsage)
    else if id in s.scopes && s.scopes[id].config.currency != config.currency then Rejected(ReservationConflict)
    else Done(s.(scopes := s.scopes[id := Scope(config, id in s.scopes && s.scopes[id].blocked)]), ())
  }

  function FindAttempt(rows: seq<Row>, attempt: string): (r: Option<Id>)
    ensures r.Some? ==> r.value < |rows| && rows[r.value].attempt == attempt
    ensures r.None? ==> forall i :: 0 <= i < |rows| ==> rows[i].attempt != attempt
  {
    if rows == [] then None
    else if rows[|rows| - 1].attempt == attempt then Some(|rows| - 1)
    else FindAttempt(rows[..|rows| - 1], attempt)
  }

  predicate SameTerms(r: Row, scope: ScopeId, lane: Lane, u: Usage) {
    r.scope == scope && r.lane == lane && r.reserved == u
  }

  predicate Fits(s: Ledger, config: Config, c: Counter, more: int) {
    LimitOf(config, c).Some? && Sum(c, s.rows) + more <= LimitOf(config, c).value
  }

  predicate Admits(s: Ledger, config: Config, scope: ScopeId, lane: Lane, u: Usage, day: Day) {
    && Fits(s, config, Charged(scope, day, None, Units), u.units)
    && Fits(s, config, Charged(scope, day, None, Tokens), u.tokens)
    && Fits(s, config, Outstanding(scope), u.units)
    && Fits(s, config, Charged(scope, day, Some(lane), Units), u.units)
    && Fits(s, config, Charged(scope, day, Some(lane), Tokens), u.tokens)
  }

  predicate ValidAttempt(attempt: string) {
    0 < |attempt| <= 256
  }

  /** `day` is the day of the clock's reading; `None` is a reading that is no date. */
  function Reserve(s: Ledger, scope: ScopeId, attempt: string, lane: Lane, u: Usage, day: Option<Day>): Outcome<Id> {
    if !ValidUsage(u) || !ValidAttempt(attempt) || day.None? then Rejected(InvalidUsage)
    else if scope !in s.scopes || !s.scopes[scope].config.approved || lane !in s.scopes[scope].config.lanes
    then Rejected(ApprovalRequired)
    else
      match FindAttempt(s.rows, attempt)
      case Some(id) => if SameTerms(s.rows[id], scope, lane, u) then Done(s, id) else Rejected(ReservationConflict)
      case None =>
        if s.scopes[scope].blocked || !Admits(s, s.scopes[scope].config, scope, lane, u, day.value)
        then Rejected(BudgetExhausted)
        else Done(s.(rows := s.rows + [Row(scope, attempt, lane, day.value, u, Reserved, None)]), |s.rows|)
  }

  /** More than was reserved. */
  predicate Above(actual: Usage, r: Row) {
    actual.units > r.reserved.units || actual.tokens > r.reserved.tokens
  }

  function Block(scopes: map<ScopeId, Scope>, id: ScopeId): map<ScopeId, Scope> {
    if id in scopes then scopes[id := scopes[id].(blocked := true)] else scopes
  }

  function Settle(s: Ledger, id: Id, actual: Usage): Outcome<()> {
    if !ValidUsage(actual) then Rejected(InvalidUsage)
    else if id >= |s.rows| || s.rows[id].state == Released then Rejected(ReservationConflict)
    else
      var row := s.rows[id];
      if row.state == Settled then if row.actual != Some(actual) then Rejected(ReservationConflict) else Done(s, ())
      else
        Done(Ledger(if Above(actual, row) then Block(s.scopes, row.scope) else s.scopes,
                    s.rows[id := row.(state := Settled, actual := Some(actual))]), ())
  }

  function HoldUnknown(s: Ledger, id: Id): Ledger {
    if id < |s.rows| && s.rows[id].state == Reserved then s.(rows := s.rows[id := s.rows[id].(state := Unknown)]) else s
  }

  /** `sent` is whether a work item that holds the reservation may have made its call. */
  function ReleaseUnsent(s: Ledger, id: Id, sent: bool): Outcome<()> {
    if id >= |s.rows| then Rejected(ReservationConflict)
    else if s.rows[id].state == Released then Done(s, ())
    else if s.rows[id].state != Reserved || sent then Rejected(OutcomeUnknown)
    else Done(s.(rows := s.rows[id := s.rows[id].(state := Released)]), ())
  }

  // ---------- Runs ----------

  datatype Action =
    | ConfigureScope(id: ScopeId, config: Config)
    | ReserveFor(scope: ScopeId, attempt: string, lane: Lane, usage: Usage, day: Option<Day>)
    | SettleAt(row: Id, actual: Usage)
    | Hold(row: Id)
    | Release(row: Id, sent: bool)

  function Step(s: Ledger, a: Action): Ledger {
    match a
    case ConfigureScope(id, config) => After(s, Configure(s, id, config))
    case ReserveFor(scope, attempt, lane, u, day) => After(s, Reserve(s, scope, attempt, lane, u, day))
    case SettleAt(id, actual) => After(s, Settle(s, id, actual))
    case Hold(id) => HoldUnknown(s, id)
    case Release(id, sent) => After(s, ReleaseUnsent(s, id, sent))
  }

  function Exec(s: Ledger, trace: seq<Action>): Ledger
    decreases |trace|
  {
    if trace == [] then s else Step(Exec(s, trace[..|trace| - 1]), trace[|trace| - 1])
  }

  function Run(trace: seq<Action>): Ledger {
    Exec(EMPTY, trace)
  }

  lemma ExecThen(s: Ledger, trace: seq<Action>, a: Action)
    ensures Exec(s, trace + [a]) == Step(Exec(s, trace), a)
  {
    assert (trace + [a])[..|trace|] == trace;
  }

  ghost predicate Reachable(s: Ledger) {
    exists trace :: s == Run(trace)
  }

  lemma StepReachable(s: Ledger, t: Ledger, a: Action)
    requires t == Step(s, a)
    ensures Reachable(s) ==> Reachable(t)
  {
    if Reachable(s) {
      var trace :| s == Run(trace);
      ExecThen(EMPTY, trace, a);
      assert t == Run(trace + [a]);
    }
  }

  // ---------- What every step keeps ----------

  ghost predicate RowOk(s: Ledger, i: nat)
    requires i < |s.rows|
  {
    var r := s.rows[i];
    && ValidUsage(r.reserved) && r.scope in s.scopes
    && (r.state == Settled <==> r.actual.Some?)
    && (r.actual.Some? ==> ValidUsage(r.actual.value))
    && FindAttempt(s.rows, r.attempt) == Some(i)
  }

  ghost predicate Inv(s: Ledger) {
    forall i {:trigger RowOk(s, i)} :: 0 <= i < |s.rows| ==> RowOk(s, i)
  }

  lemma {:induction false} FindAfterUpdate(rows: seq<Row>, i: nat, r: Row, attempt: string)
    requires i < |rows| && r.attempt == rows[i].attempt
    ensures FindAttempt(rows[i := r], attempt) == FindAttempt(rows, attempt)
    decreases |rows|
  {
    var last := |rows| - 1;
    if i < last {
      FindAfterUpdate(rows[..last], i, r, attempt);
      assert rows[i := r][..last] == rows[..last][i := r];
    } else {
      assert rows[i := r][..last] == rows[..last];
    }
  }

  lemma FindAfterAppend(rows: seq<Row>, r: Row, attempt: string)
    ensures FindAttempt(rows + [r], attempt) ==
            if r.attempt == attempt then Some(|rows|) else FindAttempt(rows, attempt)
  {
    assert (rows + [r])[..|rows|] == rows;
  }

  /** A row changed in place, or a scope configured or blocked. */
  lemma UpdateKeepsInv(s: Ledger, t: Ledger, id: Id, r: Row)
    requires Inv(s) && id < |s.rows| && t.rows == s.rows[id := r] && s.scopes.Keys <= t.scopes.Keys
    requires r.scope == s.rows[id].scope && r.attempt == s.rows[id].attempt && r.reserved == s.rows[id].reserved
    requires (r.state == Settled <==> r.actual.Some?) && (r.actual.Some? ==> ValidUsage(r.actual.value))
    ensures Inv(t)
  {
    forall i | 0 <= i < |t.rows| ensures RowOk(t, i) {
      assert RowOk(s, i);
      FindAfterUpdate(s.rows, id, r, t.rows[i].attempt);
    }
  }

  lemma ConfigureKeepsInv(s: Ledger, t: Ledger)
    requires Inv(s) && t.rows == s.rows && s.scopes.Keys <= t.scopes.Keys
    ensures Inv(t)
  {
    forall i | 0 <= i < |t.rows| ensures RowOk(t, i) { assert RowOk(s, i); }
  }

  lemma AppendKeepsRow(s: Ledger, t: Ledger, r: Row, i: nat)
    requires Inv(s) && t == s.(rows := s.rows + [r]) && i < |t.rows|
    requires FindAttempt(s.rows, r.attempt).None? && ValidUsage(r.reserved) && r.scope in s.scopes
    requires r.state == Reserved && r.actual.None?
    ensures RowOk(t, i)
  {
    FindAfterAppend(s.rows, r, t.rows[i].attempt);
    if i < |s.rows| { assert RowOk(s, i); }
  }

  lemma AppendKeepsInv(s: Ledger, t: Ledger, r: Row)
    requires Inv(s) && t == s.(rows := s.rows + [r])
    requires FindAttempt(s.rows, r.attempt).None? && ValidUsage(r.reserved) && r.scope in s.scopes
    requires r.state == Reserved && r.actual.None?
    ensures Inv(t)
  {
    forall i | 0 <= i < |t.rows| ensures RowOk(t, i) { AppendKeepsRow(s, t, r, i); }
  }

  lemma ReserveKeepsInv(
      s: Ledger, scope: ScopeId, attempt: string, lane: Lane, u: Usage, day: Option<Day>, t: Ledger)
    requires Inv(s) && t == After(s, Reserve(s, scope, attempt, lane, u, day))
    ensures Inv(t)
  {
    if t != s {
      AppendKeepsInv(s, t, Row(scope, attempt, lane, day.value, u, Reserved, None));
    }
  }

  lemma StepKeepsInv(s: Ledger, a: Action)
    requires Inv(s)
    ensures Inv(Step(s, a))
  {
    var t := Step(s, a);
    match a
    case ConfigureScope(_, _) => ConfigureKeepsInv(s, t);
    case ReserveFor(scope, attempt, lane, u, day) =>
      ReserveKeepsInv(s, scope, attempt, lane, u, day, t);
    case _ =>
      if t != s {
        assert RowOk(s, a.row);
        UpdateKeepsInv(s, t, a.row, t.rows[a.row]);
      }
  }

  lemma {:induction false} ExecKeepsInv(s: Ledger, trace: seq<Action>)
    requires Inv(s)
    ensures Inv(Exec(s, trace))
    decreases |trace|
  {
    if trace != [] {
      ExecKeepsInv(s, trace[..|trace| - 1]);
      StepKeepsInv(Exec(s, trace[..|trace| - 1]), trace[|trace| - 1]);
    }
  }

  lemma ReachableInv(s: Ledger)
    requires Reachable(s)
    ensures Inv(s)
  {
    var trace :| s == Run(trace);
    ExecKeepsInv(EMPTY, trace);
  }

  // ---------- Sums ----------

  lemma {:induction false} SumUpdate(c: Counter, rows: seq<Row>, i: nat, r: Row)
    requires i < |rows|
    ensures Sum(c, rows[i := r]) == Sum(c, rows) - Weight(c, rows[i]) + Weight(c, r)
    decreases |rows|
  {
    var last := |rows| - 1;
    if i < last {
      SumUpdate(c, rows[..last], i, r);
      assert rows[i := r][..last] == rows[..last][i := r];
    } else {
      assert rows[i := r][..last] == rows[..last];
    }
  }

  lemma SumAppend(c: Counter, rows: seq<Row>, r: Row)
    ensures Sum(c, rows + [r]) == Sum(c, rows) + Weight(c, r)
  {
    assert (rows + [r])[..|rows|] == rows;
  }

  // ---------- Limits ----------

  /** The counter is within its limit, when its scope sets one. */
  predicate Within(s: Ledger, c: Counter) {
    c.scope in s.scopes && LimitOf(s.scopes[c.scope].config, c).Some? ==>
      Sum(c, s.rows) <= LimitOf(s.scopes[c.scope].config, c).value
  }

  /** A step that lowers the limit below the sum, or settles what leaves no room for the charge. */
  predicate Breaks(s: Ledger, a: Action, c: Counter) {
    || (a.ConfigureScope? && a.id == c.scope && Configure(s, a.id, a.config).Done?
        && LimitOf(a.config, c).Some? && Sum(c, s.rows) > LimitOf(a.config, c).value)
    || (a.SettleAt? && Settle(s, a.row, a.actual).Done? && Overdraws(s, a.row, a.actual, c))
  }

  /** The charge is above the reservation by more than the room the limit leaves. */
  predicate Overdraws(s: Ledger, id: Id, actual: Usage, c: Counter)
    requires id < |s.rows|
  {
    && c.Charged? && Counts(c, s.rows[id]) && s.rows[id].state != Settled
    && c.scope in s.scopes && LimitOf(s.scopes[c.scope].config, c).Some?
    && Sum(c, s.rows) + (Of(actual, c.measure) - Charge(c, s.rows[id])) > LimitOf(s.scopes[c.scope].config, c).value
  }

  lemma ReserveWithin(s: Ledger, a: Action, c: Counter)
    requires a.ReserveFor? && Within(s, c)
    ensures Within(Step(s, a), c)
  {
    if Step(s, a) != s {
      SumAppend(c, s.rows, Row(a.scope, a.attempt, a.lane, a.day.value, a.usage, Reserved, None));
    }
  }

  lemma SettleWithinIff(s: Ledger, a: Action, c: Counter)
    requires Inv(s) && a.SettleAt? && Within(s, c)
    ensures Within(Step(s, a), c) <==> !Breaks(s, a, c)
  {
    if Step(s, a) != s {
      assert RowOk(s, a.row);
      SumUpdate(c, s.rows, a.row, s.rows[a.row].(state := Settled, actual := Some(a.actual)));
    }
  }

  lemma HoldOrReleaseWithin(s: Ledger, a: Action, c: Counter)
    requires Inv(s) && (a.Hold? || a.Release?) && Within(s, c)
    ensures Within(Step(s, a), c)
  {
    var t := Step(s, a);
    if t != s {
      assert RowOk(s, a.row);
      SumUpdate(c, s.rows, a.row, t.rows[a.row]);
    }
  }

  lemma StepWithinIff(s: Ledger, a: Action, c: Counter)
    requires Inv(s) && Within(s, c)
    ensures Within(Step(s, a), c) <==> !Breaks(s, a, c)
  {
    match a
    case ConfigureScope(_, _) =>
    case ReserveFor(_, _, _, _, _) => ReserveWithin(s, a, c);
    case SettleAt(_, _) => SettleWithinIff(s, a, c);
    case _ => HoldOrReleaseWithin(s, a, c);
  }

  /** The counter is within its limit after every step up to the end. */
  ghost predicate AlwaysWithin(trace: seq<Action>, c: Counter)
    decreases |trace|
  {
    Within(Run(trace), c) && (trace != [] ==> AlwaysWithin(trace[..|trace| - 1], c))
  }

  ghost predicate NothingBreaks(trace: seq<Action>, c: Counter)
    decreases |trace|
  {
    trace != [] ==>
      var before := trace[..|trace| - 1];
      NothingBreaks(before, c) && !Breaks(Run(before), trace[|trace| - 1], c)
  }

  /**
    Throughout a run a scope's outstanding units, and a day's charges of a lane or of all, stay within their limits
    if and only if nobody lowers a limit below what is there, or settles a charge above its reservation by more than
    the room that is left.
  */
  lemma {:induction false} LimitsHoldIff(trace: seq<Action>, c: Counter)
    ensures AlwaysWithin(trace, c) <==> NothingBreaks(trace, c)
    decreases |trace|
  {
    if trace != [] {
      var before := trace[..|trace| - 1];
      LimitsHoldIff(before, c);
      ExecKeepsInv(EMPTY, before);
      if AlwaysWithin(before, c) { StepWithinIff(Run(before), trace[|trace| - 1], c); }
    }
  }

  /** No settlement breaks the outstanding limit, nor one within its reservation any other. */
  lemma SettlingWithinBreaksNothing(s: Ledger, a: Action, c: Counter)
    requires Reachable(s) && a.SettleAt? && Within(s, c)
    requires c.Outstanding? || (a.row < |s.rows| ==> !Above(a.actual, s.rows[a.row]))
    ensures !Breaks(s, a, c) && Within(Step(s, a), c)
  {
    ReachableInv(s);
    if a.row < |s.rows| { assert RowOk(s, a.row); }
    StepWithinIff(s, a, c);
  }

  // ---------- A limit that is lowered, and a charge above its reservation ----------

  function Offer(maxOutstanding: int): Config {
    Config(true, "USD", Usage(10, 10), maxOutstanding, map["lane" := Usage(10, 10)], [])
  }

  const RESERVING := [
    ConfigureScope("scope", Offer(10)), ReserveFor("scope", "attempt", "lane", Usage(10, 10), Some(0))]

  lemma ReservingRun()
    ensures Run(RESERVING) ==
            Ledger(map["scope" := Scope(Offer(10), false)],
                   [Row("scope", "attempt", "lane", 0, Usage(10, 10), Reserved, None)])
  {
    var first := ConfigureScope("scope", Offer(10));
    assert RESERVING == [] + [first] + [RESERVING[1]];
    ExecThen(EMPTY, [], first);
    ExecThen(EMPTY, [] + [first], RESERVING[1]);
    assert Admits(Run([] + [first]), Offer(10), "scope", "lane", Usage(10, 10), 0);
  }

  const TEN := Row("scope", "attempt", "lane", 0, Usage(10, 10), Reserved, None)

  lemma LoweringStep(s: Ledger)
    requires s == Ledger(map["scope" := Scope(Offer(10), false)], [TEN])
    ensures Step(s, ConfigureScope("scope", Offer(5))) == Ledger(map["scope" := Scope(Offer(5), false)], [TEN])
  {}

  lemma TenOutstanding()
    ensures Sum(Outstanding("scope"), [TEN]) == 10
  {
    assert [] + [TEN] == [TEN];
    SumAppend(Outstanding("scope"), [], TEN);
  }

  lemma LoweredLimitExceeded()
    ensures var s := Run(RESERVING + [ConfigureScope("scope", Offer(5))]);
            !Within(s, Outstanding("scope")) && Sum(Outstanding("scope"), s.rows) == 10
  {
    ReservingRun();
    ExecThen(EMPTY, RESERVING, ConfigureScope("scope", Offer(5)));
    LoweringStep(Run(RESERVING));
    TenOutstanding();
  }

  lemma OverdrawnDayExceeded()
    ensures var s := Run(RESERVING + [SettleAt(0, Usage(11, 10))]);
            !Within(s, Charged("scope", 0, None, Units)) && s.scopes["scope"].blocked
  {
    ReservingRun();
    ExecThen(EMPTY, RESERVING, SettleAt(0, Usage(11, 10)));
    var s := Run(RESERVING + [SettleAt(0, Usage(11, 10))]);
    SumAppend(Charged("scope", 0, None, Units), [], s.rows[0]);
    assert [] + [s.rows[0]] == s.rows;
  }

  // ---------- What lasts ----------

  /** Rows stay where they are with their terms; one that is settled or released stays as it is. */
  ghost predicate RowsLast(s: Ledger, t: Ledger) {
    && |s.rows| <= |t.rows|
    && (forall i :: 0 <= i < |s.rows| ==>
          && t.rows[i] == s.rows[i].(state := t.rows[i].state, actual := t.rows[i].actual)
          && (s.rows[i].state == Settled || s.rows[i].state == Released ==> t.rows[i] == s.rows[i]))
  }

  lemma StepRowsLast(s: Ledger, a: Action)
    ensures RowsLast(s, Step(s, a))
  {}

  lemma {:induction false} ExecRowsLast(s: Ledger, trace: seq<Action>)
    ensures RowsLast(s, Exec(s, trace))
    decreases |trace|
  {
    if trace != [] {
      ExecRowsLast(s, trace[..|trace| - 1]);
      StepRowsLast(Exec(s, trace[..|trace| - 1]), trace[|trace| - 1]);
    }
  }

  /** A reservation is settled at most once: later only the same numbers are accepted, and nothing changes. */
  lemma SettledOnce(s: Ledger, id: Id, actual: Usage, trace: seq<Action>, again: Usage)
    requires Settle(s, id, actual).Done? && (s.rows[id].state == Settled ==> s.rows[id].actual == Some(actual))
    ensures var t := Exec(Settle(s, id, actual).ledger, trace);
            Settle(t, id, again) == if !ValidUsage(again) then Rejected(InvalidUsage)
                                    else if again == actual then Done(t, ()) else Rejected(ReservationConflict)
  {
    ExecRowsLast(Settle(s, id, actual).ledger, trace);
  }

  /** An attempt has one reservation: asking again, at any later time, finds it or is refused, and reserves nothing. */
  lemma OneReservationAnAttempt(
      s: Ledger, scope: ScopeId, attempt: string, lane: Lane, u: Usage, day: Option<Day>, trace: seq<Action>,
      scope2: ScopeId, lane2: Lane, u2: Usage, day2: Option<Day>)
    requires Reachable(s) && Reserve(s, scope, attempt, lane, u, day).Done?
    ensures var o := Reserve(s, scope, attempt, lane, u, day);
            var t := Exec(o.ledger, trace);
            var again := Reserve(t, scope2, attempt, lane2, u2, day2);
            && After(t, again) == t
            && (again.Done? ==> again.value == o.value && (scope2, lane2, u2) == (scope, lane, u))
  {
    var o := Reserve(s, scope, attempt, lane, u, day);
    var t := Exec(o.ledger, trace);
    ReachableInv(s);
    ReserveKeepsInv(s, scope, attempt, lane, u, day, o.ledger);
    ExecKeepsInv(o.ledger, trace);
    ExecRowsLast(o.ledger, trace);
    assert t.rows[o.value].attempt == attempt;
    assert RowOk(t, o.value);
  }

  /** The rows of the scope have not become more. */
  ghost predicate NoneAdded(s: Ledger, t: Ledger, scope: ScopeId) {
    |s.rows| <= |t.rows| && forall i :: |s.rows| <= i < |t.rows| ==> t.rows[i].scope != scope
  }

  ghost predicate Blocked(s: Ledger, scope: ScopeId) {
    scope in s.scopes && s.scopes[scope].blocked
  }

  lemma BlockedStep(s: Ledger, a: Action, scope: ScopeId)
    requires Blocked(s, scope)
    ensures Blocked(Step(s, a), scope) && NoneAdded(s, Step(s, a), scope)
  {}

  lemma {:induction false} BlockedLasts(s: Ledger, trace: seq<Action>, scope: ScopeId)
    requires Blocked(s, scope)
    ensures Blocked(Exec(s, trace), scope) && NoneAdded(s, Exec(s, trace), scope)
    decreases |trace|
  {
    if trace != [] {
      BlockedLasts(s, trace[..|trace| - 1], scope);
      BlockedStep(Exec(s, trace[..|trace| - 1]), trace[|trace| - 1], scope);
      ExecRowsLast(s, trace[..|trace| - 1]);
      StepRowsLast(Exec(s, trace[..|trace| - 1]), trace[|trace| - 1]);
    }
  }

  /** A charge above its reservation ends the scope: configured again or not, it never reserves anything more. */
  lemma OverdraftEndsScope(s: Ledger, id: Id, actual: Usage, trace: seq<Action>)
    requires Reachable(s) && Settle(s, id, actual).Done? && s.rows[id].state != Settled && Above(actual, s.rows[id])
    ensures var t := Settle(s, id, actual).ledger;
            Blocked(Exec(t, trace), s.rows[id].scope) && NoneAdded(t, Exec(t, trace), s.rows[id].scope)
  {
    ReachableInv(s);
    assert RowOk(s, id);
    BlockedLasts(Settle(s, id, actual).ledger, trace, s.rows[id].scope);
  }

  // ---------- What each operation does to the sums ----------

  /** The row counts in the day's charges of its scope, of all lanes and of its own; in none once it is released. */
  predicate ChargedIn(r: Row, scope: ScopeId, day: Day, lane: Option<Lane>) {
    r.scope == scope && r.day == day && (lane == None || lane == Some(r.lane)) && r.state != Released
  }

  /** A reservation adds what it reserves: to its scope's outstanding units, and to the charges of its day and lane. */
  lemma ReservingAdds(
      s: Ledger, scope: ScopeId, attempt: string, lane: Lane, u: Usage, day: Option<Day>, other: ScopeId,
      on: Day, of: Option<Lane>, m: Measure)
    requires Reserve(s, scope, attempt, lane, u, day).Done? && FindAttempt(s.rows, attempt).None?
    ensures var t := Reserve(s, scope, attempt, lane, u, day).ledger;
            && Sum(Outstanding(other), t.rows) ==
               Sum(Outstanding(other), s.rows) + (if other == scope then u.units else 0)
            && Sum(Charged(other, on, of, m), t.rows) ==
               Sum(Charged(other, on, of, m), s.rows)
               + (if other == scope && day == Some(on) && (of == None || of == Some(lane)) then Of(u, m) else 0)
            && t.rows == s.rows + [Row(scope, attempt, lane, day.value, u, Reserved, None)] && t.scopes == s.scopes
  {
    var r := Row(scope, attempt, lane, day.value, u, Reserved, None);
    SumAppend(Outstanding(other), s.rows, r);
    SumAppend(Charged(other, on, of, m), s.rows, r);
  }

  /**
    It is accepted exactly when, the attempt being new, the scope is approved, names the lane and is not blocked, and
    no sum would go above its limit.
  */
  lemma ReservedIff(s: Ledger, scope: ScopeId, attempt: string, lane: Lane, u: Usage, day: Option<Day>)
    requires FindAttempt(s.rows, attempt).None?
    ensures Reserve(s, scope, attempt, lane, u, day).Done? <==>
            && ValidUsage(u) && 0 < |attempt| <= 256 && day.Some?
            && scope in s.scopes && !s.scopes[scope].blocked
            && var config := s.scopes[scope].config;
            && config.approved && lane in config.lanes
            && Sum(Outstanding(scope), s.rows) + u.units <= config.maxOutstanding
            && Sum(Charged(scope, day.value, None, Units), s.rows) + u.units <= config.daily.units
            && Sum(Charged(scope, day.value, None, Tokens), s.rows) + u.tokens <= config.daily.tokens
            && Sum(Charged(scope, day.value, Some(lane), Units), s.rows) + u.units <= config.lanes[lane].units
            && Sum(Charged(scope, day.value, Some(lane), Tokens), s.rows) + u.tokens <= config.lanes[lane].tokens
  {}

  /** A settlement replaces what was reserved by what was charged, and the reservation is no longer outstanding. */
  lemma SettlingMoves(s: Ledger, id: Id, actual: Usage, other: ScopeId, on: Day, of: Option<Lane>, m: Measure)
    requires Reachable(s) && Settle(s, id, actual).Done? && s.rows[id].state != Settled
    ensures var (t, r) := (Settle(s, id, actual).ledger, s.rows[id]);
            && Sum(Outstanding(other), t.rows) ==
               Sum(Outstanding(other), s.rows) - (if r.scope == other then r.reserved.units else 0)
            && Sum(Charged(other, on, of, m), t.rows) ==
               Sum(Charged(other, on, of, m), s.rows)
               + (if ChargedIn(r, other, on, of) then Of(actual, m) - Of(r.reserved, m) else 0)
  {
    ReachableInv(s);
    assert RowOk(s, id);
    var settled := s.rows[id].(state := Settled, actual := Some(actual));
    SumUpdate(Outstanding(other), s.rows, id, settled);
    SumUpdate(Charged(other, on, of, m), s.rows, id, settled);
  }

  /** Holding moves nothing; a release takes the reservation out of every sum. */
  lemma HoldingAndReleasing(s: Ledger, id: Id, other: ScopeId, on: Day, of: Option<Lane>, m: Measure)
    requires Reachable(s) && id < |s.rows| && s.rows[id].state == Reserved
    ensures var (h, t, r) := (HoldUnknown(s, id), ReleaseUnsent(s, id, false), s.rows[id]);
            && h.rows == s.rows[id := r.(state := Unknown)]
            && Sum(Outstanding(other), h.rows) == Sum(Outstanding(other), s.rows)
            && Sum(Charged(other, on, of, m), h.rows) == Sum(Charged(other, on, of, m), s.rows)
            && t.Done? && ReleaseUnsent(h, id, false) == Rejected(OutcomeUnknown)
            && ReleaseUnsent(s, id, true) == Rejected(OutcomeUnknown)
            && Sum(Outstanding(other), t.ledger.rows) ==
               Sum(Outstanding(other), s.rows) - (if r.scope == other then r.reserved.units else 0)
            && Sum(Charged(other, on, of, m), t.ledger.rows) ==
               Sum(Charged(other, on, of, m), s.rows) - (if ChargedIn(r, other, on, of) then Of(r.reserved, m) else 0)
  {
    ReachableInv(s);
    assert RowOk(s, id);
    var held, released := s.rows[id].(state := Unknown), s.rows[id].(state := Released);
    SumUpdate(Outstanding(other), s.rows, id, held);
    SumUpdate(Charged(other, on, of, m), s.rows, id, held);
    SumUpdate(Outstanding(other), s.rows, id, released);
    SumUpdate(Charged(other, on, of, m), s.rows, id, released);
  }

  /** A configuration is what the scope has from then on; only whether it is blocked stays. */
  lemma Configured(s: Ledger, id: ScopeId, config: Config)
    ensures var o := Configure(s, id, config);
            && (o.Done? <==>
                  && id != "" && |config.currency| == 3 && (forall c :: c in config.currency ==> 'A' <= c <= 'Z')
                  && ValidUsage(config.daily) && 0 <= config.maxOutstanding <= MAX_SAFE_INTEGER
                  && (forall lane :: lane in config.lanes ==> ValidUsage(config.lanes[lane]))
                  && (forall hash :: hash in config.profiles ==> Sha256(hash))
                  && (id in s.scopes ==> s.scopes[id].config.currency == config.currency))
            && (o.Done? ==>
                  && o.ledger.rows == s.rows && id in o.ledger.scopes
                  && o.ledger.scopes[id] == Scope(config, id in s.scopes && s.scopes[id].blocked)
                  && forall other :: other != id ==>
                       (other in o.ledger.scopes <==> other in s.scopes)
                       && (other in s.scopes ==> o.ledger.scopes[other] == s.scopes[other]))
  {}
}
