/** The budget's repository as code: each method is proved to take exactly the atomic step of its name. */
module ProviderBudgetRepository {
  import opened Common
  import opened ProviderBudget
  import B = ProviderBudget

  function Reply<T>(o: Outcome<T>): Result<T, Error> {
    match o
    case Done(_, value) => Ok(value)
    case Rejected(e) => Err(e)
  }

  class Repository {
    var scopes: map<ScopeId, Scope>
    var rows: seq<Row>

    function Current(): Ledger
      reads this
    {
      Ledger(scopes, rows)
    }

    constructor ()
      ensures Current() == EMPTY && Reachable(Current())
    {
      assert EMPTY == Run([]);
      scopes, rows := map[], [];
    }

    method ConfigureScope(id: ScopeId, config: Config) returns (r: Result<(), Error>)
      modifies this
      ensures Current() == After(old(Current()), Configure(old(Current()), id, config))
      ensures r == Reply(Configure(old(Current()), id, config))
      ensures Reachable(old(Current())) ==> Reachable(Current())
    {
      ghost var s := Current();
      if !ValidConfig(id, config) { return Err(InvalidUsage); }
      if id !in scopes {
        scopes := scopes[id := Scope(config, false)];
      }
      if scopes[id].config.currency != config.currency { return Err(ReservationConflict); }
      scopes := scopes[id := scopes[id].(config := config)];
      StepReachable(s, Current(), Action.ConfigureScope(id, config));
      return Ok(());
    }

    /** The sums the query asks for, of the rows that are not released. */
    method SumOf(c: Counter) returns (total: int)
      ensures total == Sum(c, rows)
    {
      total := 0;
      for i := 0 to |rows|
        invariant total == Sum(c, rows[..i])
      {
        assert rows[..i + 1] == rows[..i] + [rows[i]];
        SumAppend(c, rows[..i], rows[i]);
        total := total + Weight(c, rows[i]);
      }
      assert rows[..|rows|] == rows;
    }

    method HasRoom(config: Config, scope: ScopeId, lane: Lane, u: Usage, day: Day) returns (room: bool)
      requires lane in config.lanes
      ensures room <==> Admits(Current(), config, scope, lane, u, day)
    {
      var units := SumOf(Charged(scope, day, None, Units));
      var tokens := SumOf(Charged(scope, day, None, Tokens));
      var outstanding := SumOf(Outstanding(scope));
      var laneUnits := SumOf(Charged(scope, day, Some(lane), Units));
      var laneTokens := SumOf(Charged(scope, day, Some(lane), Tokens));
      return units + u.units <= config.daily.units && tokens + u.tokens <= config.daily.tokens
             && outstanding + u.units <= config.maxOutstanding
             && laneUnits + u.units <= config.lanes[lane].units && laneTokens + u.tokens <= config.lanes[lane].tokens;
    }

    method Reserve(scope: ScopeId, attempt: string, lane: Lane, u: Usage, day: Option<Day>)
      returns (r: Result<Id, Error>)
      modifies this
      ensures Current() == After(old(Current()), B.Reserve(old(Current()), scope, attempt, lane, u, day))
      ensures r == Reply(B.Reserve(old(Current()), scope, attempt, lane, u, day))
      ensures Reachable(old(Current())) ==> Reachable(Current())
    {
      ghost var s := Current();
      if !ValidUsage(u) || !ValidAttempt(attempt) || day.None? { return Err(InvalidUsage); }
      if scope !in scopes || !scopes[scope].config.approved || lane !in scopes[scope].config.lanes {
        return Err(ApprovalRequired);
      }
      var existing := FindAttempt(rows, attempt);
      if existing.Some? {
        if !SameTerms(rows[existing.value], scope, lane, u) { return Err(ReservationConflict); }
        return Ok(existing.value);
      }
      if scopes[scope].blocked { return Err(BudgetExhausted); }
      var room := HasRoom(scopes[scope].config, scope, lane, u, day.value);
      if !room { return Err(BudgetExhausted); }
      rows := rows + [Row(scope, attempt, lane, day.value, u, Reserved, None)];
      StepReachable(s, Current(), ReserveFor(scope, attempt, lane, u, day));
      return Ok(|rows| - 1);
    }

    method Settle(id: Id, actual: Usage) returns (r: Result<(), Error>)
      modifies this
      ensures Current() == After(old(Current()), B.Settle(old(Current()), id, actual))
      ensures r == Reply(B.Settle(old(Current()), id, actual))
      ensures Reachable(old(Current())) ==> Reachable(Current())
    {
      ghost var s := Current();
      if !ValidUsage(actual) { return Err(InvalidUsage); }
      if id >= |rows| || rows[id].state == Released { return Err(ReservationConflict); }
      var row := rows[id];
      if row.state == Settled {
        if row.actual != Some(actual) { return Err(ReservationConflict); }
        return Ok(());
      }
      rows := rows[id := row.(state := Settled, actual := Some(actual))];
      if (actual.units > row.reserved.units || actual.tokens > row.reserved.tokens) && row.scope in scopes {
        scopes := scopes[row.scope := scopes[row.scope].(blocked := true)];
      }
      StepReachable(s, Current(), SettleAt(id, actual));
      return Ok(());
    }

    method HoldUnknown(id: Id)
      modifies this
      ensures Current() == B.HoldUnknown(old(Current()), id)
      ensures Reachable(old(Current())) ==> Reachable(Current())
    {
      ghost var s := Current();
      if id < |rows| && rows[id].state == Reserved {
        rows := rows[id := rows[id].(state := Unknown)];
      }
      StepReachable(s, Current(), Hold(id));
    }

    method ReleaseUnsent(id: Id, sent: bool) returns (r: Result<(), Error>)
      modifies this
      ensures Current() == After(old(Current()), B.ReleaseUnsent(old(Current()), id, sent))
      ensures r == Reply(B.ReleaseUnsent(old(Current()), id, sent))
      ensures Reachable(old(Current())) ==> Reachable(Current())
    {
      ghost var s := Current();
      if id >= |rows| { return Err(ReservationConflict); }
      if rows[id].state == Released { return Ok(()); }
      if rows[id].state != Reserved || sent { return Err(OutcomeUnknown); }
      rows := rows[id := rows[id].(state := Released)];
      StepReachable(s, Current(), Release(id, sent));
      return Ok(());
    }
  }
}
