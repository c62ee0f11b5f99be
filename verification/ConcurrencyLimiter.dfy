/** The in-memory limiter: one first-in first-out lane for each source, with a cap on what runs at once. */
module ConcurrencyLimiter {
  import opened Common

  type Source(==)
  type Operation(==)

  datatype Caps = Everywhere(cap: int) | PerSource(caps: map<Source, int>)

  datatype Error = RangeError

  function CapFor(source: Source, caps: Caps, fallback: int): Result<nat, Error> {
    var cap := match caps
               case Everywhere(cap) => cap
               case PerSource(caps) => if source in caps then caps[source] else fallback;
    if cap < 1 || cap > 100 then Err(RangeError) else Ok(cap)
  }

  /** A source that is listed has its own cap, any other the fallback; one cap for all is every source's. */
  lemma CapOfSource(source: Source, cap: int, listed: map<Source, int>, fallback: int)
    ensures CapFor(source, Everywhere(cap), fallback) == if 1 <= cap <= 100 then Ok(cap) else Err(RangeError)
    ensures source in listed ==>
              CapFor(source, PerSource(listed), fallback) ==
              if 1 <= listed[source] <= 100 then Ok(listed[source]) else Err(RangeError)
    ensures source !in listed ==>
              CapFor(source, PerSource(listed), fallback) ==
              if 1 <= fallback <= 100 then Ok(fallback) else Err(RangeError)
  {}

  /** `started` is the operations begun so far, in the order they were begun. */
  datatype Lane = Lane(active: nat, waiters: seq<Operation>, started: seq<Operation>)

  const IDLE := Lane(0, [], [])

  function Drain(lane: Lane, cap: nat): Lane
    decreases |lane.waiters|
  {
    if lane.active < cap && |lane.waiters| > 0 then
      Drain(Lane(lane.active + 1, lane.waiters[1..], lane.started + [lane.waiters[0]]), cap)
    else lane
  }

  datatype Event = Submit(operation: Operation) | Finish

  function Step(lane: Lane, e: Event, cap: nat): Lane {
    match e
    case Submit(operation) => Drain(lane.(waiters := lane.waiters + [operation]), cap)
    case Finish => if lane.active == 0 then lane else Drain(lane.(active := lane.active - 1), cap)
  }

  function Run(trace: seq<Event>, cap: nat): Lane
    decreases |trace|
  {
    if trace == [] then IDLE else Step(Run(trace[..|trace| - 1], cap), trace[|trace| - 1], cap)
  }

  // ---------- Every run ----------

  function Submitted(trace: seq<Event>): seq<Operation>
    decreases |trace|
  {
    if trace == [] then [] else
    Submitted(trace[..|trace| - 1]) + if trace[|trace| - 1].Submit? then [trace[|trace| - 1].operation] else []
  }

  /** How many operations finished: only one that runs can. */
  function Finished(trace: seq<Event>, cap: nat): nat
    decreases |trace|
  {
    if trace == [] then 0 else
    Finished(trace[..|trace| - 1], cap) +
    if trace[|trace| - 1].Finish? && Run(trace[..|trace| - 1], cap).active > 0 then 1 else 0
  }

  /** The lane that has begun as many of the submitted operations, in order, as the cap and the finished ones allow. */
  function Fair(submitted: seq<Operation>, finished: nat, cap: nat): Lane
    requires finished <= |submitted|
  {
    var n := Min(|submitted|, finished + cap);
    Lane(n - finished, submitted[n..], submitted[..n])
  }

  lemma {:induction false} DrainIsFair(lane: Lane, submitted: seq<Operation>, finished: nat, cap: nat)
    requires submitted == lane.started + lane.waiters
    requires finished + lane.active == |lane.started| && lane.active <= cap
    ensures Drain(lane, cap) == Fair(submitted, finished, cap)
    decreases |lane.waiters|
  {
    if lane.active < cap && |lane.waiters| > 0 {
      var next := Lane(lane.active + 1, lane.waiters[1..], lane.started + [lane.waiters[0]]);
      assert submitted == next.started + next.waiters;
      DrainIsFair(next, submitted, finished, cap);
    }
  }

  /**
    Over any sequence of submissions and completions, the lane is determined by what was submitted and how many
    finished: operations begin in submission order and each once, as many as the cap allows at any time.
  */
  lemma {:induction false} RunIsFair(trace: seq<Event>, cap: nat)
    ensures Finished(trace, cap) <= |Submitted(trace)|
    ensures Run(trace, cap) == Fair(Submitted(trace), Finished(trace, cap), cap)
    decreases |trace|
  {
    if trace != [] {
      var before := trace[..|trace| - 1];
      RunIsFair(before, cap);
      var lane := Run(before, cap);
      var finished := Finished(before, cap);
      match trace[|trace| - 1]
      case Submit(operation) =>
        DrainIsFair(lane.(waiters := lane.waiters + [operation]), Submitted(trace), finished, cap);
      case Finish =>
        assert Submitted(trace) == Submitted(before);
        if lane.active > 0 {
          DrainIsFair(lane.(active := lane.active - 1), Submitted(trace), finished + 1, cap);
        }
    }
  }

  /** The cap holds, nothing is lost, and nobody waits while there is room. */
  lemma LaneSafe(trace: seq<Event>, cap: nat)
    ensures var lane := Run(trace, cap);
            && lane.active <= cap
            && lane.started <= Submitted(trace)
            && |Submitted(trace)| == |lane.waiters| + lane.active + Finished(trace, cap)
            && (lane.waiters != [] ==> lane.active == cap)
  {
    RunIsFair(trace, cap);
  }

  // ---------- The limiter ----------

  class InMemorySourceConcurrencyLimiter {
    const caps: Caps
    const fallback: int
    var states: map<Source, Lane>

    constructor (caps: Caps, fallback: int)
      ensures this.caps == caps && this.fallback == fallback && states == map[]
    {
      this.caps, this.fallback, states := caps, fallback, map[];
    }

    function LaneOf(source: Source): Lane
      reads this
    {
      if source in states then states[source] else IDLE
    }

    method Submit(source: Source, operation: Operation) returns (r: Result<(), Error>)
      modifies this
      ensures var cap := CapFor(source, caps, fallback);
              if cap.Err? then r == Err(RangeError) && states == old(states)
              else
                && r == Ok(())
                && states == old(states)[source := Step(old(LaneOf(source)), Event.Submit(operation), cap.value)]
    {
      var cap := CapFor(source, caps, fallback);
      if cap.Err? { return Err(RangeError); }
      var lane := LaneOf(source);
      states := states[source := lane.(waiters := lane.waiters + [operation])];
      DrainLane(source, cap.value);
      return Ok(());
    }

    /** What runs when an operation settles, whether it succeeded or not. */
    method Settle(source: Source)
      requires source in states && states[source].active > 0 && CapFor(source, caps, fallback).Ok?
      modifies this
      ensures states == old(states)[source := Step(old(states)[source], Finish, CapFor(source, caps, fallback).value)]
    {
      states := states[source := states[source].(active := states[source].active - 1)];
      DrainLane(source, CapFor(source, caps, fallback).value);
    }

    method DrainLane(source: Source, cap: nat)
      requires source in states
      modifies this
      ensures states == old(states)[source := Drain(old(states)[source], cap)]
    {
      var state := states[source];
      while state.active < cap && |state.waiters| > 0
        invariant Drain(state, cap) == Drain(old(states)[source], cap)
        decreases |state.waiters|
      {
        var waiter := state.waiters[0];
        state := Lane(state.active + 1, state.waiters[1..], state.started + [waiter]);
      }
      states := states[source := state];
    }
  }
}
