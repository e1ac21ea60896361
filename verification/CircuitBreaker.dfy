/** The circuit breaker of outgoing HTTP calls: a gate shared by every caller, and callers that try several
    times, checking the gate before each send. */
module CircuitBreaker {
  import Text

  datatype Options = Options(maxRetryAttempts: int, threshold: int, breakTime: int)

  function MaxAttempts(options: Options): nat {
    if options.maxRetryAttempts < 1 then 1 else options.maxRetryAttempts
  }

  function Threshold(options: Options): nat {
    if options.threshold < 1 then 1 else options.threshold
  }

  // ---------------------------------------------------------------- the gate

  datatype Gate = Gate(failures: int, openUntil: Text.Option<int>)

  const CLOSED := Gate(0, Text.None)

  predicate Expired(gate: Gate, now: int) {
    gate.openUntil.Some? && gate.openUntil.value <= now
  }

  predicate Refuses(gate: Gate, now: int) {
    gate.openUntil.Some? && !Expired(gate, now)
  }

  function AfterCheck(gate: Gate, now: int): Gate {
    if Expired(gate, now) then CLOSED else gate
  }

  predicate Opens(options: Options, gate: Gate) {
    gate.failures + 1 >= options.threshold
  }

  function AfterFailure(options: Options, gate: Gate, now: int): Gate {
    if Opens(options, gate) then Gate(0, Text.Some(now + options.breakTime)) else gate.(failures := gate.failures + 1)
  }

  // ---------------------------------------------------------------- callers over one gate

  /** Where a call is: before its gate check, past it, about to tell the gate how it went, or done. */
  datatype Pc =
    | AtGate(attempt: nat)
    | Sending(attempt: nat)
    | Succeeding(attempt: nat)
    | Failing(attempt: nat)
    | Finished

  /** How a send goes; a transient failure may be followed by a cancelled wait. */
  datatype Answer = Fine | Transient(cancelled: bool) | Broken

  datatype Op =
    | Passed(caller: nat, expired: bool)
    | Refused(caller: nat)
    | Sent(caller: nat)
    | Cleared(caller: nat)
    | Failed(caller: nat, tripped: bool)

  datatype World = World(gate: Gate, callers: map<nat, Pc>, history: seq<Op>)

  const START := World(CLOSED, map[], [])

  function PcOf(world: World, caller: nat): Pc {
    if caller in world.callers then world.callers[caller] else AtGate(1)
  }

  /** One atomic step of one caller at one reading of the clock. */
  datatype Step = Step(caller: nat, now: int, answer: Answer)

  function Next(options: Options, world: World, step: Step): World {
    var caller, gate := step.caller, world.gate;
    match PcOf(world, caller)
    case AtGate(attempt) =>
      if Refuses(gate, step.now) then
        World(gate, world.callers[caller := Finished], world.history + [Refused(caller)])
      else
        World(AfterCheck(gate, step.now), world.callers[caller := Sending(attempt)],
              world.history + [Passed(caller, Expired(gate, step.now))])
    case Sending(attempt) =>
      var pc :=
        match step.answer
        case Fine => Succeeding(attempt)
        case Broken => Finished
        case Transient(cancelled) =>
          if attempt >= MaxAttempts(options) then Failing(attempt)
          else if cancelled then Finished
          else AtGate(attempt + 1);
      World(gate, world.callers[caller := pc], world.history + [Sent(caller)])
    case Succeeding(_) =>
      World(CLOSED, world.callers[caller := Finished], world.history + [Cleared(caller)])
    case Failing(_) =>
      World(AfterFailure(options, gate, step.now), world.callers[caller := Finished],
            world.history + [Failed(caller, Opens(options, gate))])
    case Finished => world
  }

  /** Any interleaving of any number of calls. */
  function Run(options: Options, steps: seq<Step>): World {
    if steps == [] then START
    else Next(options, Run(options, steps[..|steps| - 1]), steps[|steps| - 1])
  }

  // ---------------------------------------------------------------- what the history says

  /** The gate was cleared by a success or by expiry, or opened. */
  predicate Starts(op: Op) {
    op.Cleared? || (op.Passed? && op.expired) || (op.Failed? && op.tripped)
  }

  /** Failures registered since then. */
  function FailuresSince(history: seq<Op>): nat {
    if history == [] then 0
    else
      var last := history[|history| - 1];
      if Starts(last) then 0 else FailuresSince(history[..|history| - 1]) + (if last.Failed? then 1 else 0)
  }

  predicate IsOpen(history: seq<Op>) {
    if history == [] then false
    else
      var last := history[|history| - 1];
      if Starts(last) then last.Failed? else IsOpen(history[..|history| - 1])
  }

  /** The gate is what the history says it is. */
  ghost predicate Follows(options: Options, world: World) {
    && world.gate.failures == FailuresSince(world.history) < Threshold(options)
    && (world.gate.openUntil.Some? <==> IsOpen(world.history))
  }

  lemma SameFollows(history: seq<Op>, op: Op)
    ensures FailuresSince(history + [op]) ==
            if Starts(op) then 0 else FailuresSince(history) + if op.Failed? then 1 else 0
    ensures IsOpen(history + [op]) == if Starts(op) then op.Failed? else IsOpen(history)
  {
    assert (history + [op])[..|history|] == history;
  }

  lemma NextFollows(options: Options, world: World, step: Step)
    requires Follows(options, world)
    ensures Follows(options, Next(options, world, step))
  {
    hide FailuresSince, IsOpen, MaxAttempts;
    var after := Next(options, world, step);
    if after.history != world.history {
      var op := after.history[|world.history|];
      SameFollows(world.history, op);
      assert after.history == world.history + [op];
    }
  }

  lemma {:induction false} GateFollowsHistory(options: Options, steps: seq<Step>)
    ensures Follows(options, Run(options, steps))
  {
    if steps != [] {
      GateFollowsHistory(options, steps[..|steps| - 1]);
      NextFollows(options, Run(options, steps[..|steps| - 1]), steps[|steps| - 1]);
    }
  }

  /** The failure count stays below the threshold under every interleaving. */
  lemma {:induction false} FailuresBelowThreshold(options: Options, steps: seq<Step>)
    ensures 0 <= Run(options, steps).gate.failures < Threshold(options)
  {
    GateFollowsHistory(options, steps);
  }

  lemma {:induction false} HistoryGrows(options: Options, steps: seq<Step>, i: nat) returns (k: nat)
    requires i < |Run(options, steps).history|
    ensures k < |steps| && Run(options, steps[..k]).history == Run(options, steps).history[..i]
    ensures Run(options, steps[..k + 1]).history == Run(options, steps).history[..i + 1]
  {
    hide Next;
    var front := steps[..|steps| - 1];
    NextHistory(options, Run(options, front), steps[|steps| - 1]);
    if i < |Run(options, front).history| {
      k := HistoryGrows(options, front, i);
      assert front[..k] == steps[..k] && front[..k + 1] == steps[..k + 1];
    } else {
      k := |front|;
      assert steps[..k + 1] == steps;
    }
  }

  lemma NextHistory(options: Options, world: World, step: Step)
    ensures var after := Next(options, world, step).history;
            after == world.history || (|after| == |world.history| + 1 && after[..|world.history|] == world.history)
    ensures PcOf(world, step.caller) == Finished ==> Next(options, world, step) == world
  {
  }

  /** A failure opens the circuit exactly when it is the threshold-th one since the circuit was last cleared, expired
      or opened. */
  lemma OpensAtThreshold(options: Options, steps: seq<Step>, i: nat)
    requires i < |Run(options, steps).history| && Run(options, steps).history[i].Failed?
    ensures var history := Run(options, steps).history;
            history[i].tripped <==> FailuresSince(history[..i]) + 1 == Threshold(options)
  {
    var k := HistoryGrows(options, steps, i);
    var history := Run(options, steps).history;
    GateFollowsHistory(options, steps[..k]);
    var world := Run(options, steps[..k]);
    assert steps[..k + 1][..k] == steps[..k];
    assert Run(options, steps[..k + 1]) == Next(options, world, steps[k]);
    assert history[..i + 1][i] == history[i];
  }

  /** No check passes an open circuit unless it has expired. */
  lemma OpenCircuitRefuses(options: Options, steps: seq<Step>, i: nat)
    requires i < |Run(options, steps).history| && IsOpen(Run(options, steps).history[..i])
    ensures var op := Run(options, steps).history[i]; op.Passed? ==> op.expired
  {
    var k := HistoryGrows(options, steps, i);
    var history := Run(options, steps).history;
    GateFollowsHistory(options, steps[..k]);
    var world := Run(options, steps[..k]);
    assert steps[..k + 1][..k] == steps[..k];
    assert Run(options, steps[..k + 1]) == Next(options, world, steps[k]);
    assert history[..i + 1][i] == history[i];
  }

  /** The step registers a failure that opens the circuit. */
  ghost predicate Trips(options: Options, world: World, step: Step) {
    PcOf(world, step.caller).Failing? && Opens(options, world.gate)
  }

  /** Since the operation at the position the gate was neither cleared nor opened. */
  ghost predicate NoStart(history: seq<Op>, from: nat) {
    forall m :: from <= m < |history| ==> !Starts(history[m])
  }

  lemma OpenStaysOnce(options: Options, world: World, step: Step, from: nat)
    requires from <= |world.history| && NoStart(Next(options, world, step).history, from)
    ensures NoStart(world.history, from) && Next(options, world, step).gate.openUntil == world.gate.openUntil
  {
    hide MaxAttempts;
    var after := Next(options, world, step);
    assert forall m :: 0 <= m < |world.history| ==> after.history[m] == world.history[m];
    if after.history != world.history {
      assert !Starts(after.history[|world.history|]);
    }
  }

  lemma TripOpens(options: Options, world: World, step: Step)
    requires Trips(options, world, step)
    ensures Next(options, world, step).gate.openUntil == Text.Some(step.now + options.breakTime)
  {
  }

  lemma {:induction false} OpenStays(options: Options, steps: seq<Step>, i: nat)
    requires i < |steps| && Trips(options, Run(options, steps[..i]), steps[i])
    requires NoStart(Run(options, steps).history, |Run(options, steps[..i + 1]).history|)
    ensures |Run(options, steps[..i + 1]).history| <= |Run(options, steps).history|
    ensures Run(options, steps).gate.openUntil == Text.Some(steps[i].now + options.breakTime)
  {
    hide Next, Trips, NoStart;
    HistoryNeverShrinks(options, steps, i + 1);
    if i + 1 == |steps| {
      assert steps[..i + 1] == steps && steps[..|steps| - 1] == steps[..i];
      TripOpens(options, Run(options, steps[..i]), steps[i]);
    } else {
      var front, last := steps[..|steps| - 1], steps[|steps| - 1];
      assert front[..i] == steps[..i] && front[..i + 1] == steps[..i + 1];
      HistoryNeverShrinks(options, front, i + 1);
      OpenStaysOnce(options, Run(options, front), last, |Run(options, steps[..i + 1]).history|);
      OpenStays(options, front, i);
    }
  }

  lemma {:induction false} HistoryNeverShrinks(options: Options, steps: seq<Step>, i: nat)
    requires i <= |steps|
    ensures |Run(options, steps[..i]).history| <= |Run(options, steps).history|
  {
    hide Next;
    if i == |steps| {
      assert steps[..i] == steps;
    } else {
      var front := steps[..|steps| - 1];
      assert front[..i] == steps[..i];
      HistoryNeverShrinks(options, front, i);
      NextHistory(options, Run(options, front), steps[|steps| - 1]);
    }
  }

  /** Once a failure has opened the circuit, and until it is cleared, expired or opened again, every check of every
      caller is refused exactly before the break time has passed since that failure. */
  lemma OpenUntilBreakEnds(options: Options, steps: seq<Step>, i: nat, check: Step)
    requires i < |steps| && Trips(options, Run(options, steps[..i]), steps[i])
    requires NoStart(Run(options, steps).history, |Run(options, steps[..i + 1]).history|)
    requires PcOf(Run(options, steps), check.caller).AtGate?
    ensures Run(options, steps + [check]).history ==
            Run(options, steps).history + [if check.now < steps[i].now + options.breakTime then Refused(check.caller)
                                           else Passed(check.caller, true)]
  {
    OpenStays(options, steps, i);
    hide Trips, NoStart;
    assert (steps + [check])[..|steps|] == steps;
  }

  // ---------------------------------------------------------------- what one call does

  datatype Kind = Pass | Refusal | Send | Clear | Failure

  function KindOf(op: Op): Kind {
    match op
    case Passed(_, _) => Pass
    case Refused(_) => Refusal
    case Sent(_) => Send
    case Cleared(_) => Clear
    case Failed(_, _) => Failure
  }

  /** The operations of one caller, in order. */
  function Own(history: seq<Op>, caller: nat): seq<Kind> {
    if history == [] then []
    else
      var last := history[|history| - 1];
      Own(history[..|history| - 1], caller) + (if last.caller == caller then [KindOf(last)] else [])
  }

  /** So many times a passed check followed by a send. */
  function Rounds(n: nat): seq<Kind> {
    if n == 0 then [] else Rounds(n - 1) + [Pass, Send]
  }

  /** What a call has done when it is at the given place. */
  ghost predicate Progress(options: Options, pc: Pc, own: seq<Kind>) {
    match pc
    case AtGate(attempt) => 1 <= attempt <= MaxAttempts(options) && own == Rounds(attempt - 1)
    case Sending(attempt) => 1 <= attempt <= MaxAttempts(options) && own == Rounds(attempt - 1) + [Pass]
    case Succeeding(attempt) => 1 <= attempt <= MaxAttempts(options) && own == Rounds(attempt)
    case Failing(attempt) => attempt == MaxAttempts(options) && own == Rounds(attempt)
    case Finished =>
      exists n: nat ::
        || (n < MaxAttempts(options) && own == Rounds(n) + [Refusal])
        || (1 <= n <= MaxAttempts(options) && (own == Rounds(n) || own == Rounds(n) + [Clear]))
        || (n == MaxAttempts(options) && own == Rounds(n) + [Failure])
  }

  /** Whatever the others do, a call is a number of checked sends, at most the bound, and then at most one word to the
      gate: a failure only when every attempt was made. */
  lemma {:induction false} CallShape(options: Options, steps: seq<Step>, caller: nat)
    ensures Progress(options, PcOf(Run(options, steps), caller), Own(Run(options, steps).history, caller))
  {
    if steps != [] {
      var front, step := steps[..|steps| - 1], steps[|steps| - 1];
      var before := Run(options, front);
      CallShape(options, front, caller);
      StepProgress(options, before, step, caller);
    }
  }

  lemma StepProgress(options: Options, before: World, step: Step, caller: nat)
    requires Progress(options, PcOf(before, caller), Own(before.history, caller))
    ensures var after := Next(options, before, step); Progress(options, PcOf(after, caller), Own(after.history, caller))
  {
    hide Refuses, Expired, Opens, AfterCheck, AfterFailure, MaxAttempts;
    var own, after := Own(before.history, caller), Next(options, before, step);
    if after.history != before.history {
      assert after.history[..|before.history|] == before.history;
      if step.caller == caller {
        match PcOf(before, caller)
        case AtGate(attempt) =>
        case Sending(attempt) =>
          assert own + [Send] == Rounds(attempt - 1) + [Pass, Send] == Rounds(attempt);
        case Succeeding(attempt) =>
        case Failing(attempt) =>
        case Finished =>
      } else {
        assert own + [] == own;
      }
    }
  }

  function Count(kinds: seq<Kind>, kind: Kind): nat {
    if kinds == [] then 0
    else Count(kinds[..|kinds| - 1], kind) + if kinds[|kinds| - 1] == kind then 1 else 0
  }

  lemma CountOne(kinds: seq<Kind>, one: Kind, kind: Kind)
    ensures Count(kinds + [one], kind) == Count(kinds, kind) + if one == kind then 1 else 0
  {
    assert (kinds + [one])[..|kinds|] == kinds;
  }

  lemma {:induction false} RoundsCount(n: nat, last: Kind)
    ensures Count(Rounds(n), Send) == n && Count(Rounds(n), Failure) == 0 && Count(Rounds(n), Clear) == 0
    ensures Count(Rounds(n) + [last], Send) == n + if last == Send then 1 else 0
    ensures Count(Rounds(n) + [last], Failure) == if last == Failure then 1 else 0
    ensures Count(Rounds(n) + [last], Clear) == if last == Clear then 1 else 0
  {
    if n > 0 {
      RoundsCount(n - 1, Pass);
      var passed := Rounds(n - 1) + [Pass];
      assert Rounds(n) == passed + [Send];
      CountOne(passed, Send, Send);
      CountOne(passed, Send, Failure);
      CountOne(passed, Send, Clear);
    }
    CountOne(Rounds(n), last, Send);
    CountOne(Rounds(n), last, Failure);
    CountOne(Rounds(n), last, Clear);
  }

  /** At most the bound's number of sends per call, and at most one failure or success registered. */
  lemma CallBounds(options: Options, steps: seq<Step>, caller: nat)
    ensures var own := Own(Run(options, steps).history, caller);
            && Count(own, Send) <= MaxAttempts(options) && Count(own, Failure) + Count(own, Clear) <= 1
            && (Count(own, Failure) == 1 ==> Count(own, Send) == MaxAttempts(options))
  {
    hide Run, Own, Count, Rounds;
    CallShape(options, steps, caller);
    var own := Own(Run(options, steps).history, caller);
    match PcOf(Run(options, steps), caller)
    case AtGate(attempt) => RoundsCount(attempt - 1, Pass);
    case Sending(attempt) => RoundsCount(attempt - 1, Pass);
    case Succeeding(attempt) => RoundsCount(attempt, Pass);
    case Failing(attempt) => RoundsCount(attempt, Pass);
    case Finished =>
      var n: nat :|
        || (n < MaxAttempts(options) && own == Rounds(n) + [Refusal])
        || (1 <= n <= MaxAttempts(options) && (own == Rounds(n) || own == Rounds(n) + [Clear]))
        || (n == MaxAttempts(options) && own == Rounds(n) + [Failure]);
      RoundsCount(n, Refusal);
      RoundsCount(n, Clear);
      RoundsCount(n, Failure);
  }

  // ---------------------------------------------------------------- the handler

  /** The handler's fields and its three sections under the lock. */
  class ResilienceHandler {
    const options: Options
    var consecutiveFailures: int
    var circuitOpenUntil: Text.Option<int>

    function State(): Gate
      reads this
    {
      Gate(consecutiveFailures, circuitOpenUntil)
    }

    constructor (options: Options)
      ensures State() == CLOSED && this.options == options
    {
      this.options := options;
      consecutiveFailures := 0;
      circuitOpenUntil := Text.None;
    }

    method ThrowIfCircuitOpen(now: int) returns (thrown: bool)
      modifies this
      ensures thrown == Refuses(old(State()), now) && State() == AfterCheck(old(State()), now)
      ensures thrown ==> State() == old(State())
    {
      var openUntil := circuitOpenUntil;
      if openUntil.Some? && openUntil.value <= now {
        circuitOpenUntil := Text.None;
        consecutiveFailures := 0;
        return false;
      }
      thrown := openUntil.Some?;
    }

    method ResetCircuit()
      modifies this
      ensures State() == CLOSED
    {
      consecutiveFailures := 0;
      circuitOpenUntil := Text.None;
    }

    method RegisterFailure(now: int)
      modifies this
      ensures State() == AfterFailure(options, old(State()), now)
    {
      consecutiveFailures := consecutiveFailures + 1;
      if consecutiveFailures >= options.threshold {
        circuitOpenUntil := Text.Some(now + options.breakTime);
        consecutiveFailures := 0;
      }
    }

    /** The attempt loop of SendAsync with no other call in between: it takes the steps of one caller, to the end. */
    method SendAsync(world: World, caller: nat, clock: nat -> int, answers: nat -> Answer)
      returns (sends: nat, ghost after: World)
      requires State() == world.gate && PcOf(world, caller) == AtGate(1)
      modifies this
      ensures after.gate == State() && PcOf(after, caller) == Finished
      ensures Reaches(options, world, after)
      ensures sends <= MaxAttempts(options)
    {
      hide Opens, AfterFailure, AfterCheck, Refuses, RunFrom, Reaches;
      after := world;
      sends := 0;
      var maxAttempts := MaxAttempts(options);
      ReachesItself(options, world);
      for attempt := 1 to maxAttempts + 1
        invariant State() == after.gate && PcOf(after, caller) == AtGate(attempt) && sends == attempt - 1
        invariant attempt <= maxAttempts
        invariant Reaches(options, world, after)
      {
        var thrown := ThrowIfCircuitOpen(clock(2 * attempt));
        after := Take(options, world, after, Step(caller, clock(2 * attempt), Fine));
        if thrown {
          return;
        }
        var answer := answers(attempt);
        sends := sends + 1;
        after := Take(options, world, after, Step(caller, clock(2 * attempt + 1), answer));
        match answer {
          case Fine =>
            ResetCircuit();
            after := Take(options, world, after, Step(caller, clock(2 * attempt + 1), answer));
            return;
          case Broken => return;
          case Transient(cancelled) =>
            if attempt >= maxAttempts {
              RegisterFailure(clock(2 * attempt + 1));
              after := Take(options, world, after, Step(caller, clock(2 * attempt + 1), answer));
              return;
            }
            if cancelled {
              return;
            }
        }
      }
    }
  }

  function RunFrom(options: Options, world: World, steps: seq<Step>): World {
    if steps == [] then world
    else Next(options, RunFrom(options, world, steps[..|steps| - 1]), steps[|steps| - 1])
  }

  ghost predicate Reaches(options: Options, world: World, after: World) {
    exists steps :: RunFrom(options, world, steps) == after
  }

  lemma ReachesItself(options: Options, world: World)
    ensures Reaches(options, world, world)
  {
    assert RunFrom(options, world, []) == world;
  }

  lemma Take(options: Options, world: World, middle: World, step: Step) returns (after: World)
    requires Reaches(options, world, middle)
    ensures after == Next(options, middle, step) && Reaches(options, world, after)
  {
    after := Next(options, middle, step);
    var steps :| RunFrom(options, world, steps) == middle;
    assert (steps + [step])[..|steps|] == steps;
    assert RunFrom(options, world, steps + [step]) == after;
  }
}
