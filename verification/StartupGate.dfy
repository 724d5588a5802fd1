/** When the startup loop hands over to the runtime loop: the gate as a fold over what each cycle observed. */
module StartupGate {
  import opened Bytes
  import opened PdoConfig
  import opened Wrappers
  import opened Readback
  import opened Schedule

  // ---------- the wait ----------

  const CONFIRMATIONS: nat := 5

  datatype WaitResult = Waiting | Ready | TimedOut

  datatype Wait = Wait(deadline: int, stable: nat)

  function ObserveWait(w: Wait, now: int, healthy: bool): (Wait, WaitResult) {
    if now >= w.deadline then (w, TimedOut)
    else
      var stable := if healthy then w.stable + 1 else 0;
      (w.(stable := stable), if stable >= CONFIRMATIONS then Ready else Waiting)
  }

  datatype Observation = Observation(now: int, healthy: bool)

  function Observed(w: Wait, seen: seq<Observation>): (r: Wait)
    ensures r.deadline == w.deadline
  {
    if seen == [] then w
    else
      var last := seen[|seen| - 1];
      ObserveWait(Observed(w, seen[..|seen| - 1]), last.now, last.healthy).0
  }

  /** The gate answers Ready exactly when the observation is in time and the last five were all healthy;
      an observation at or after the absolute deadline never is, however many cycles it took. */
  lemma {:induction false} ReadyMeansFiveInARow(w: Wait, seen: seq<Observation>)
    requires w.stable == 0 && seen != [] && forall o | o in seen[..|seen| - 1] :: o.now < w.deadline
    ensures var n := |seen|;
      ObserveWait(Observed(w, seen[..n - 1]), seen[n - 1].now, seen[n - 1].healthy).1.Ready? <==>
        seen[n - 1].now < w.deadline && n >= 5 && forall i | n - 5 <= i < n :: seen[i].healthy
  {
    var before := seen[..|seen| - 1];
    StableIsTrailing(w, before);
  }

  lemma {:induction false} StableIsTrailing(w: Wait, seen: seq<Observation>)
    requires w.stable == 0 && forall o | o in seen :: o.now < w.deadline
    ensures var r := Observed(w, seen);
      && r.stable <= |seen| && (forall i | |seen| - r.stable <= i < |seen| :: seen[i].healthy)
      && (r.stable < |seen| ==> !seen[|seen| - r.stable - 1].healthy)
  {
    if seen != [] {
      StableIsTrailing(w, seen[..|seen| - 1]);
    }
  }

  /** The allocation-free gate of the startup loop. */
  class StartupWait {
    const deadline: int
    var stable: nat

    ghost function Value(): Wait
      reads this
    {
      Wait(deadline, stable)
    }

    constructor (start: int, timeoutMs: uint32)
      ensures Value() == Wait(start + timeoutMs * 1000000, 0)
    {
      deadline := start + timeoutMs * 1000000;
      stable := 0;
    }

    method Observe(now: int, healthy: bool) returns (r: WaitResult)
      modifies this`stable
      ensures (Value(), r) == ObserveWait(old(Value()), now, healthy)
    {
      if now >= deadline {
        return TimedOut;
      }
      stable := if healthy then stable + 1 else 0;
      return if stable >= CONFIRMATIONS then Ready else Waiting;
    }
  }

  // ---------- one startup cycle ----------

  const WARM_UP: nat := 5

  datatype WcState = WcZero | WcIncomplete | WcComplete

  datatype BusState = BusState(linkUp: bool, responding: nat, alStates: nat, inputWc: nat, outputWc: nat,
                               inputState: WcState, outputState: WcState) {
    predicate Complete() {
      inputState.WcComplete? && outputState.WcComplete?
    }
  }

  /** Health of the bus: all slaves in OP and answering, link up, both working counters complete. */
  datatype Health = Health(allOperational: bool, state: BusState) {
    predicate Good(slaves: nat) {
      allOperational && state.linkUp && state.responding == slaves && state.Complete()
    }
  }

  /** Everything one startup cycle asks of its surroundings. */
  datatype Cycle = Cycle(stop: bool, sleepRc: int, wake: Option<Timespec>, timeSet: bool, wallRead: bool,
                         pollRc: int, health: Health, check: Option<Timespec>, answer: Answer, sent: bool,
                         finish: Option<Timespec>)

  datatype Config = Config(slaves: nat, periodUs: uint32, shared: bool)

  datatype Code = Errno | SleepError(rc: int) | Eio | Etimedout | Einval

  datatype Gate = Gate(wait: Wait, verifier: Verifier, warm: nat, deadline: Timespec, missed: nat)

  /** Still in the startup loop, through the gate, stopped by the flag, or given up. */
  datatype Phase = Starting(gate: Gate) | Opened(gate: Gate) | Stopped(gate: Gate) | GaveUp(gate: Gate, code: Code)

  function Aborted(v: Verifier, failure: Failure): Verifier {
    if v.started then FailWith(v, failure, 0, 0, 0) else v
  }

  function CycleOf(config: Config, g: Gate, c: Cycle): (p: Phase)
    requires g.verifier.Valid()
    ensures p.gate.verifier.Valid()
  {
    if c.stop then Stopped(g)
    else if c.sleepRc != 0 then GaveUp(g, SleepError(c.sleepRc))
    else if c.wake.None? then GaveUp(g, Errno)
    else if !c.timeSet then GaveUp(g, Eio)
    else if config.shared && !c.wallRead then GaveUp(g, Errno)
    else Inspect(config, g, c)
  }

  /** The health of the bus; until the verification starts, in how many cycles running it was good. */
  function Inspect(config: Config, g: Gate, c: Cycle): (p: Phase)
    requires g.verifier.Valid()
    ensures p.gate.verifier.Valid()
  {
    if c.pollRc != 0 then GaveUp(g.(verifier := Aborted(g.verifier, BusUnhealthy)), Eio)
    else
      var healthy := c.health.Good(config.slaves);
      var warm := if g.verifier.started then g.warm else if healthy then g.warm + 1 else 0;
      if g.verifier.started && !healthy then
        GaveUp(g.(warm := warm, verifier := Aborted(g.verifier, BusUnhealthy)), Eio)
      else if c.check.None? then GaveUp(g.(warm := warm), Errno)
      else Watch(config, g.(warm := warm), c, healthy, ToNs(c.check.value))
  }

  predicate Stepping(g: Gate, healthy: bool) {
    healthy && g.warm >= WARM_UP && !g.verifier.result.Complete?
  }

  /** The second half: the wait, one verification step once the bus is warm, sending, and the next deadline. */
  function Watch(config: Config, g: Gate, c: Cycle, healthy: bool, now: int): (p: Phase)
    requires g.verifier.Valid()
    ensures p.gate.verifier.Valid()
  {
    var (wait, result) := ObserveWait(g.wait, now, healthy && g.verifier.result.Complete?);
    var w := g.(wait := wait);
    if result.TimedOut? then GaveUp(w.(verifier := Aborted(g.verifier, StartupTimeout)), Etimedout)
    else
      var stepping := Stepping(g, healthy);
      var v := if stepping then StepOf(g.verifier, now, c.answer) else g.verifier;
      if stepping && v.result.Failed? then
        GaveUp(w.(verifier := v), if v.error.failure.RequestTimeout? then Etimedout else Eio)
      else Conclude(config, w.(verifier := v), c, result.Ready?)
  }

  /** Every cycle sends, and ends with its next deadline; only then does an open gate take effect. */
  function Conclude(config: Config, g: Gate, c: Cycle, ready: bool): (p: Phase)
    ensures p.gate.verifier == g.verifier
  {
    if !c.sent then GaveUp(g, Eio)
    else if c.finish.None? then GaveUp(g, Errno)
    else
      var next := AdvanceDeadline(g.deadline, config.periodUs, c.finish.value);
      var done := g.(deadline := next.deadline, missed := g.missed + next.missed);
      if ready then Opened(done) else Starting(done)
  }

  function Startup(config: Config, g: Gate, cycles: seq<Cycle>): (p: Phase)
    requires g.verifier.Valid()
    ensures p.gate.verifier.Valid()
  {
    if cycles == [] then Starting(g)
    else
      var before := Startup(config, g, cycles[..|cycles| - 1]);
      if before.Starting? then CycleOf(config, before.gate, cycles[|cycles| - 1]) else before
  }

  // ---------- the trail of a cycle ----------

  /** One thing asked of the surroundings, with the answer, or done to them. */
  datatype Note =
    | FlagRead(stop: bool)
    | Slept(stop: bool, rc: int)
    | ClockRead(time: Option<Timespec>)
    | TimeSet(nominal: int, ok: bool)
    | FramesReceived
    | StateRead(state: BusState)
    | WallRead(ok: bool)
    | Polled(rc: int, allOperational: bool)
    | FramesSent(ok: bool)
    | GatePassed
    | DataExchanged
    | ClientsNotified

  /** What a cycle leaves behind: what it asked and did, its calls to the SDO requests, and its end. */
  datatype Trail = Trail(log: seq<Note>, calls: seq<Call>, finishes: seq<Timespec>) {
    function Plus(other: Trail): Trail {
      Trail(log + other.log, calls + other.calls, finishes + other.finishes)
    }
  }

  const NO_TRAIL := Trail([], [], [])

  function Noted(notes: seq<Note>): Trail {
    Trail(notes, [], [])
  }

  function Called(calls: seq<Call>): Trail {
    Trail([], calls, [])
  }

  function CycleTrail(config: Config, g: Gate, c: Cycle): Trail
    requires g.verifier.Valid()
  {
    var slept := Noted([Slept(c.stop, c.sleepRc)]);
    var woken := slept.Plus(Noted([ClockRead(c.wake)]));
    var timed := woken.Plus(Noted([TimeSet(ToNs(g.deadline), c.timeSet)]));
    var received := timed.Plus(Noted([FramesReceived])).Plus(Noted([StateRead(c.health.state)]));
    var walled := if config.shared then received.Plus(Noted([WallRead(c.wallRead)])) else received;
    if c.stop || c.sleepRc != 0 then slept
    else if c.wake.None? then woken
    else if !c.timeSet then timed
    else if config.shared && !c.wallRead then walled
    else walled.Plus(InspectTrail(config, g, c))
  }

  function InspectTrail(config: Config, g: Gate, c: Cycle): Trail
    requires g.verifier.Valid()
  {
    Noted([Polled(c.pollRc, c.health.allOperational)]).Plus(
      if c.pollRc != 0 then NO_TRAIL else HealthTrail(config, g, c))
  }

  function HealthTrail(config: Config, g: Gate, c: Cycle): Trail
    requires g.verifier.Valid()
  {
    var healthy := c.health.Good(config.slaves);
    var warm := if g.verifier.started then g.warm else if healthy then g.warm + 1 else 0;
    if g.verifier.started && !healthy then NO_TRAIL
    else Noted([ClockRead(c.check)]).Plus(
           if c.check.None? then NO_TRAIL else WatchTrail(g.(warm := warm), c, healthy, ToNs(c.check.value)))
  }

  function WatchTrail(g: Gate, c: Cycle, healthy: bool, now: int): Trail
    requires g.verifier.Valid()
  {
    if ObserveWait(g.wait, now, healthy && g.verifier.result.Complete?).1.TimedOut? then NO_TRAIL
    else if !Stepping(g, healthy) then ConcludeTrail(c)
    else Called(CallsOf(g.verifier, now, c.answer)).Plus(
           if StepOf(g.verifier, now, c.answer).result.Failed? then NO_TRAIL else ConcludeTrail(c))
  }

  function ConcludeTrail(c: Cycle): Trail {
    Noted([FramesSent(c.sent)]).Plus(
      if !c.sent then NO_TRAIL
      else Trail([ClockRead(c.finish)], [], if c.finish.Some? then [c.finish.value] else []))
  }

  /** The trail of the startup loop: before each cycle the stop flag was clear. */
  function StartupTrail(config: Config, first: Gate, cycles: seq<Cycle>): Trail
    requires first.verifier.Valid()
  {
    if cycles == [] then NO_TRAIL
    else
      var before := cycles[..|cycles| - 1];
      var p := Startup(config, first, before);
      if p.Starting?
      then StartupTrail(config, first, before).Plus(
             Noted([FlagRead(false)]).Plus(CycleTrail(config, p.gate, cycles[|cycles| - 1])))
      else StartupTrail(config, first, before)
  }

  /** A cycle that leads on has set a finish time, and its calls are those of its verification step, if any. */
  lemma TrailLeadsOn(config: Config, g: Gate, c: Cycle)
    requires g.verifier.Valid()
    requires var p := CycleOf(config, g, c); p.Starting? || p.Opened?
    ensures c.finish.Some? && CycleTrail(config, g, c).finishes == [c.finish.value]
    ensures c.check.Some?
    ensures var healthy := c.health.Good(config.slaves);
      var warm := if g.verifier.started then g.warm else if healthy then g.warm + 1 else 0;
      CycleTrail(config, g, c).calls ==
      if Stepping(g.(warm := warm), healthy) then CallsOf(g.verifier, ToNs(c.check.value), c.answer) else []
  {
    hide ToNs, AdvanceDeadline, StepOf, CallsOf, Health.Good;
  }

  // ---------- what an open gate proves ----------

  /** At the start of the loop. */
  predicate Initial(g: Gate) {
    Fresh(g.verifier) && !g.verifier.busy && g.wait.stable == 0 && g.warm == 0
  }

  /** What a cycle must observe to count: every slave in OP, the link up, every configured slave answering, both
      working counters complete, in time. */
  predicate Good(config: Config, g: Gate, c: Cycle) {
    var state := c.health.state;
    && c.pollRc == 0 && c.health.allOperational && state.linkUp && state.responding == config.slaves
    && state.inputState.WcComplete? && state.outputState.WcComplete?
    && c.check.Some? && c.check.value.sec * 1000000000 + c.check.value.nsec < g.wait.deadline
  }

  lemma GoodMeans(config: Config, g: Gate, c: Cycle)
    ensures Good(config, g, c) <==>
      c.health.Good(config.slaves) && c.pollRc == 0 && c.check.Some? && ToNs(c.check.value) < g.wait.deadline
  {
  }

  /** These observations are in the log of the cycle. */
  ghost predicate Logged(config: Config, g: Gate, c: Cycle)
    requires g.verifier.Valid()
  {
    var log := CycleTrail(config, g, c).log;
    Polled(c.pollRc, c.health.allOperational) in log && StateRead(c.health.state) in log && ClockRead(c.check) in log
  }

  lemma LeadsOnLogged(config: Config, g: Gate, c: Cycle)
    requires g.verifier.Valid()
    requires var p := CycleOf(config, g, c); p.Starting? || p.Opened?
    ensures Logged(config, g, c)
  {
    hide ToNs, AdvanceDeadline, StepOf, CallsOf, Health.Good, WatchTrail;
  }

  /** Before each cycle of an open startup the loop was still going on, and the cycle's log shows what it saw. */
  lemma {:induction false} CyclesLogged(config: Config, first: Gate, cycles: seq<Cycle>, i: nat)
    requires first.verifier.Valid() && i < |cycles|
    requires var p := Startup(config, first, cycles);
      p.Starting? || (p.Opened? && Startup(config, first, cycles[..|cycles| - 1]).Starting?)
    ensures Startup(config, first, cycles[..i]).Starting? && Logged(config, Startup(config, first, cycles[..i]).gate, cycles[i])
  {
    hide CycleOf, Logged;
    var n := |cycles| - 1;
    if i < n {
      CyclesLogged(config, first, cycles[..n], i);
      assert cycles[..n][..i] == cycles[..i];
    } else {
      LeadsOnLogged(config, Startup(config, first, cycles[..n]).gate, cycles[n]);
    }
  }

  function OpOf(c: Cycle): Op {
    StepAt(if c.check.Some? then ToNs(c.check.value) else 0, c.answer)
  }

  /** The verification steps of n consecutive cycles. */
  function Ops(cycles: seq<Cycle>): (r: seq<Op>)
    ensures |r| == |cycles|
    ensures forall i | 0 <= i < |cycles| :: r[i] == OpOf(cycles[i])
  {
    seq(|cycles|, i requires 0 <= i < |cycles| => OpOf(cycles[i]))
  }

  /** The number of latest cycles that were all good. */
  function Window(g: Gate, steps: nat): nat {
    if steps == 0 then g.warm else WARM_UP - 1 + steps + g.wait.stable
  }

  /** So far: `steps` verification steps in as many consecutive cycles, `stable` cycles after them and four
      before them; all of these are the latest ones and were good. The calls so far are those of the steps. */
  ghost predicate Earned(config: Config, first: Gate, cycles: seq<Cycle>, g: Gate, steps: nat, calls: seq<Call>)
    requires Initial(first)
  {
    var n := |cycles|;
    && g.wait.deadline == first.wait.deadline && Window(g, steps) <= n
    && (forall i | n - Window(g, steps) <= i < n :: Good(config, first, cycles[i]))
    && (g.wait.stable > 0 ==> steps > 0 && g.verifier.result.Complete?)
    && (if steps == 0 then g.verifier == first.verifier && g.warm < WARM_UP && calls == []
        else
          && g.warm == WARM_UP && g.verifier.started && !g.verifier.result.Failed?
          && var ops := Ops(cycles[n - g.wait.stable - steps..n - g.wait.stable]);
             g.verifier == RunOf(first.verifier, ops) && calls == TraceOf(first.verifier, ops))
  }

  lemma EarnedInitially(config: Config, first: Gate)
    requires Initial(first)
    ensures Earned(config, first, [], first, 0, [])
  {
  }

  /** What a cycle that leads on must have looked like. */
  lemma CycleLeadsOn(config: Config, g: Gate, c: Cycle)
    requires g.verifier.Valid()
    requires var p := CycleOf(config, g, c); p.Starting? || p.Opened?
    ensures c.pollRc == 0 && c.check.Some? && ToNs(c.check.value) < g.wait.deadline
    ensures g.verifier.started ==> c.health.Good(config.slaves)
    ensures var p, healthy := CycleOf(config, g, c), c.health.Good(config.slaves);
      && p.gate.wait.deadline == g.wait.deadline
      && p.gate.warm == (if g.verifier.started then g.warm else if healthy then g.warm + 1 else 0)
      && p.gate.wait.stable == (if healthy && g.verifier.result.Complete? then g.wait.stable + 1 else 0)
      && (p.Opened? <==> p.gate.wait.stable >= CONFIRMATIONS)
      && (if Stepping(p.gate.(verifier := g.verifier), healthy)
          then p.gate.verifier == StepOf(g.verifier, ToNs(c.check.value), c.answer) && !p.gate.verifier.result.Failed?
          else p.gate.verifier == g.verifier)
  {
    hide ToNs, AdvanceDeadline;
  }

  /** The first step of the verification, in the fifth healthy cycle. */
  lemma FirstStep(v: Verifier, c: Cycle)
    requires Fresh(v) && !v.busy && c.check.Some?
    ensures StepOf(v, ToNs(c.check.value), c.answer) == RunOf(v, Ops([c]))
    ensures CallsOf(v, ToNs(c.check.value), c.answer) == TraceOf(v, Ops([c]))
    ensures StepOf(v, ToNs(c.check.value), c.answer).started
  {
    assert Ops([c]) == [OpOf(c)] && [OpOf(c)][..0] == [];
  }

  lemma NextStep(v: Verifier, cycles: seq<Cycle>, c: Cycle)
    requires Fresh(v) && c.check.Some?
    ensures RunOf(v, Ops(cycles + [c])) == StepOf(RunOf(v, Ops(cycles)), ToNs(c.check.value), c.answer)
    ensures TraceOf(v, Ops(cycles + [c])) ==
            TraceOf(v, Ops(cycles)) + CallsOf(RunOf(v, Ops(cycles)), ToNs(c.check.value), c.answer)
  {
    assert Ops(cycles + [c]) == Ops(cycles) + [OpOf(c)];
  }

  lemma StepStarts(v: Verifier, now: int, a: Answer)
    requires v.Valid() && v.started
    ensures StepOf(v, now, a).started
  {
  }

  lemma EarnedStep(config: Config, first: Gate, cycles: seq<Cycle>, g: Gate, steps: nat, calls: seq<Call>, c: Cycle)
    returns (steps': nat)
    requires Initial(first) && Earned(config, first, cycles, g, steps, calls) && g.verifier.Valid()
    requires var p := CycleOf(config, g, c); p.Starting? || p.Opened?
    ensures Earned(config, first, cycles + [c], CycleOf(config, g, c).gate, steps', calls + CycleTrail(config, g, c).calls)
  {
    hide CycleOf, CycleTrail, StepOf, CallsOf, RunOf, TraceOf, Ops, ToNs, Health.Good;
    var p, healthy := CycleOf(config, g, c), c.health.Good(config.slaves);
    CycleLeadsOn(config, g, c);
    TrailLeadsOn(config, g, c);
    GoodMeans(config, first, c);
    var stable := g.wait.stable;
    var stepped := cycles[|cycles| - stable - steps..|cycles| - stable];
    if steps > 0 && g.verifier.result.Complete? {
      steps' := steps;
      assert (cycles + [c])[|cycles| - stable - steps..|cycles| - stable] == stepped;
    } else if steps > 0 {
      steps' := steps + 1;
      NextStep(first.verifier, stepped, c);
      StepStarts(g.verifier, ToNs(c.check.value), c.answer);
      assert (cycles + [c])[|cycles| - steps..|cycles| + 1] == stepped + [c];
    } else if healthy && g.warm + 1 >= WARM_UP {
      steps' := 1;
      FirstStep(first.verifier, c);
      assert (cycles + [c])[|cycles|..|cycles| + 1] == [c];
    } else {
      steps' := 0;
    }
  }

  lemma {:induction false} StartupEarned(config: Config, first: Gate, cycles: seq<Cycle>) returns (steps: nat)
    requires Initial(first)
    requires var p := Startup(config, first, cycles);
      p.Starting? || (p.Opened? && (cycles == [] || Startup(config, first, cycles[..|cycles| - 1]).Starting?))
    ensures Earned(config, first, cycles, Startup(config, first, cycles).gate, steps, StartupTrail(config, first, cycles).calls)
  {
    hide CycleOf, CycleTrail, Earned;
    if cycles == [] {
      EarnedInitially(config, first);
      steps := 0;
    } else {
      var before, c := cycles[..|cycles| - 1], cycles[|cycles| - 1];
      steps := StartupEarned(config, first, before);
      var g := Startup(config, first, before).gate;
      var calls := StartupTrail(config, first, before).calls;
      assert Startup(config, first, cycles) == CycleOf(config, g, c);
      assert StartupTrail(config, first, cycles).calls == calls + CycleTrail(config, g, c).calls;
      steps := EarnedStep(config, first, before, g, steps, calls, c);
      assert before + [c] == cycles;
    }
  }

  /** Every cycle of an open startup has come to its end. */
  lemma {:induction false} StartupFinishes(config: Config, first: Gate, cycles: seq<Cycle>)
    requires first.verifier.Valid()
    requires var p := Startup(config, first, cycles);
      p.Starting? || (p.Opened? && (cycles == [] || Startup(config, first, cycles[..|cycles| - 1]).Starting?))
    ensures |StartupTrail(config, first, cycles).finishes| == |cycles|
    ensures forall i | 0 <= i < |cycles| ::
      cycles[i].finish.Some? && StartupTrail(config, first, cycles).finishes[i] == cycles[i].finish.value
  {
    hide CycleOf, CycleTrail;
    if cycles != [] {
      var before, c := cycles[..|cycles| - 1], cycles[|cycles| - 1];
      StartupFinishes(config, first, before);
      TrailLeadsOn(config, Startup(config, first, before).gate, c);
    }
  }

  lemma StartingBelowFive(config: Config, first: Gate, cycles: seq<Cycle>)
    requires Initial(first) && Startup(config, first, cycles).Starting?
    ensures Startup(config, first, cycles).gate.wait.stable < CONFIRMATIONS
  {
    hide CycleOf;
    if cycles != [] {
      CycleLeadsOn(config, Startup(config, first, cycles[..|cycles| - 1]).gate, cycles[|cycles| - 1]);
    }
  }

  lemma OpenedAtFive(config: Config, first: Gate, cycles: seq<Cycle>)
    requires Initial(first) && cycles != []
    requires Startup(config, first, cycles[..|cycles| - 1]).Starting? && Startup(config, first, cycles).Opened?
    ensures Startup(config, first, cycles).gate.wait.stable == CONFIRMATIONS
  {
    hide CycleOf;
    StartingBelowFive(config, first, cycles[..|cycles| - 1]);
    CycleLeadsOn(config, Startup(config, first, cycles[..|cycles| - 1]).gate, cycles[|cycles| - 1]);
  }

  /** The last `steps` + 9 cycles: four warm-up cycles, the verification, five confirmations; and all calls ever
      made to the SDO requests are those of the verification. */
  ghost predicate Evidence(config: Config, first: Gate, cycles: seq<Cycle>, steps: nat)
    requires Fresh(first.verifier)
  {
    var n, checks := |cycles|, first.verifier.checks;
    && 2 * |checks| <= steps && steps + 9 <= n
    && (forall i | n - (steps + 9) <= i < n ::
          Good(config, first, cycles[i]) && Logged(config, Startup(config, first, cycles[..i]).gate, cycles[i]))
    && var calls := StartupTrail(config, first, cycles).calls;
       && calls == TraceOf(first.verifier, Ops(cycles[n - 5 - steps..n - 5]))
       && Disciplined(calls) && Seen(calls).readings == Expected(checks, |checks|)
  }

  lemma VerifiedRun(v: Verifier, ops: seq<Op>)
    requires Fresh(v) && !v.busy && WholeAnswers(ops) && RunOf(v, ops).result.Complete?
    ensures 2 * |v.checks| <= |ops| && Disciplined(TraceOf(v, ops))
    ensures Seen(TraceOf(v, ops)).readings == Expected(v.checks, |v.checks|)
  {
    hide Disciplined, Seen, Expected, RunOf, TraceOf;
    CompleteMeansReadBack(v, ops);
    AtMostOneOutstanding(v, ops, 0);
    TwoStepsPerCheck(v, ops);
  }

  lemma EarnedIsEvidence(config: Config, first: Gate, cycles: seq<Cycle>, g: Gate, steps: nat)
    requires Initial(first) && g.wait.stable == CONFIRMATIONS
    requires Earned(config, first, cycles, g, steps, StartupTrail(config, first, cycles).calls)
    requires forall c | c in cycles :: c.answer.Whole()
    requires forall i | 0 <= i < |cycles| :: Logged(config, Startup(config, first, cycles[..i]).gate, cycles[i])
    ensures Evidence(config, first, cycles, steps)
  {
    hide Disciplined, Seen, Expected, RunOf, TraceOf, Good, StartupTrail, Startup, Logged;
    var ops := Ops(cycles[|cycles| - 5 - steps..|cycles| - 5]);
    assert WholeAnswers(ops);
    VerifiedRun(first.verifier, ops);
  }

  /** The gate opens only on evidence: if it opens in the last of these cycles, then for some number of steps,
      at least two per check, the latest steps + 9 cycles were all healthy and before the deadline; the steps
      were taken in consecutive ones of them, after four and before five, with no more than one request
      outstanding; and they read every check back, in order, with its expected bytes. */
  lemma OpenGateIsEarned(config: Config, first: Gate, cycles: seq<Cycle>) returns (steps: nat)
    requires Initial(first) && cycles != [] && forall c | c in cycles :: c.answer.Whole()
    requires Startup(config, first, cycles[..|cycles| - 1]).Starting? && Startup(config, first, cycles).Opened?
    ensures Evidence(config, first, cycles, steps)
  {
    hide Earned, Startup, StartupTrail, Evidence, Logged;
    steps := StartupEarned(config, first, cycles);
    OpenedAtFive(config, first, cycles);
    forall i | 0 <= i < |cycles| ensures Logged(config, Startup(config, first, cycles[..i]).gate, cycles[i]) {
      CyclesLogged(config, first, cycles, i);
    }
    EarnedIsEvidence(config, first, cycles, Startup(config, first, cycles).gate, steps);
  }

  // ---------- when the gate does open ----------

  /** A cycle in which nothing goes wrong. */
  predicate Smooth(config: Config, g: Gate, c: Cycle) {
    && !c.stop && c.sleepRc == 0 && c.wake.Some? && c.timeSet && (config.shared ==> c.wallRead)
    && Good(config, g, c) && c.sent && c.finish.Some?
  }

  lemma SmoothCycle(config: Config, first: Gate, g: Gate, c: Cycle)
    requires g.verifier.Valid() && Smooth(config, first, c) && g.wait.deadline == first.wait.deadline
    requires var warm := if g.verifier.started then g.warm else g.warm + 1;
      g.verifier.result.Complete? || warm < WARM_UP || !StepOf(g.verifier, ToNs(c.check.value), c.answer).result.Failed?
    ensures var p := CycleOf(config, g, c); p.Starting? || p.Opened?
  {
    hide StepOf, ToNs, AdvanceDeadline, Good, Health.Good;
    GoodMeans(config, first, c);
  }

  predicate Soon(previous: Cycle, c: Cycle) {
    previous.check.Some? && c.check.Some? &&
    ToNs(c.check.value) < ToNs(previous.check.value) + 1000000000
  }

  /** All cycles smooth, less than a request timeout apart, with the right answer to every read. */
  ghost predicate Undisturbed(config: Config, first: Gate, cycles: seq<Cycle>) {
    var checks := first.verifier.checks;
    && (forall c | c in cycles :: Smooth(config, first, c))
    && (forall i, j | 0 <= i < j < |cycles| && j == i + 1 :: Soon(cycles[i], cycles[j]))
    && (forall c | c in checks :: c.expected < Pow256(c.size))
    && (forall k | 0 <= k < 2 * |checks| && WARM_UP - 1 + k < |cycles| ::
          RightAnswer(checks[k / 2], cycles[WARM_UP - 1 + k].answer))
  }

  function Steps(first: Gate, n: nat): (steps: nat)
    ensures n >= WARM_UP ==> WARM_UP - 1 + steps <= n
  {
    var all := 2 * |first.verifier.checks|;
    if n < WARM_UP then 0 else if n < WARM_UP + all then n - (WARM_UP - 1) else all
  }

  /** After n undisturbed cycles. */
  ghost predicate OnCourse(first: Gate, cycles: seq<Cycle>, g: Gate)
    requires Initial(first)
  {
    var n, steps := |cycles|, Steps(first, |cycles|);
    && g.wait.deadline == first.wait.deadline
    && g.warm == (if n < WARM_UP then n else WARM_UP)
    && g.wait.stable == (if n < WARM_UP then 0 else n - (WARM_UP - 1) - steps)
    && (if n < WARM_UP then g.verifier == first.verifier
        else g.verifier.started && g.verifier == RunOf(first.verifier, Ops(cycles[WARM_UP - 1..WARM_UP - 1 + steps])))
  }

  lemma StepsGoWell(config: Config, first: Gate, cycles: seq<Cycle>, steps: nat)
    requires Initial(first) && Undisturbed(config, first, cycles)
    requires steps <= 2 * |first.verifier.checks| && WARM_UP - 1 + steps <= |cycles|
    ensures RunOf(first.verifier, Ops(cycles[WARM_UP - 1..WARM_UP - 1 + steps])).result
            == if steps == 2 * |first.verifier.checks| then Complete else Pending
  {
    hide RunOf, ToNs, RightAnswer;
    var part := cycles[WARM_UP - 1..WARM_UP - 1 + steps];
    forall i | 0 <= i < |part| ensures part[i].check.Some? && RightAnswer(first.verifier.checks[i / 2], Ops(part)[i].answer) {
      assert part[i] == cycles[WARM_UP - 1 + i] && part[i] in cycles && Smooth(config, first, part[i]);
    }
    forall i | 0 < i < |part| ensures Ops(part)[i].now <= Ops(part)[i - 1].now + 999999999 {
      assert part[i] == cycles[WARM_UP - 1 + i] && part[i - 1] == cycles[WARM_UP - 2 + i];
      assert Soon(cycles[WARM_UP - 2 + i], cycles[WARM_UP - 1 + i]);
    }
    RightAnswersComplete(first.verifier, Ops(part));
  }

  /** The cycles of the verification, one cycle later. */
  lemma NextSlice(first: Gate, cycles: seq<Cycle>, c: Cycle)
    requires WARM_UP <= |cycles| + 1 && first.verifier.checks != []
    ensures var n, part := |cycles|, (cycles + [c])[WARM_UP - 1..WARM_UP - 1 + Steps(first, |cycles| + 1)];
      && (n + 1 == WARM_UP ==> part == [c])
      && (WARM_UP < n + 1 < WARM_UP + 2 * |first.verifier.checks| ==>
            part == cycles[WARM_UP - 1..WARM_UP - 1 + Steps(first, n)] + [c])
      && (n + 1 >= WARM_UP + 2 * |first.verifier.checks| ==> part == cycles[WARM_UP - 1..WARM_UP - 1 + Steps(first, n)])
  {
  }

  lemma NextSteps(first: Gate, cycles: seq<Cycle>, g: Gate, c: Cycle)
    requires Initial(first) && OnCourse(first, cycles, g) && WARM_UP <= |cycles| + 1 && c.check.Some?
    ensures var next, steps := cycles + [c], Steps(first, |cycles| + 1);
      (if |cycles| + 1 < WARM_UP + 2 * |first.verifier.checks| then StepOf(g.verifier, ToNs(c.check.value), c.answer)
       else g.verifier) == RunOf(first.verifier, Ops(next[WARM_UP - 1..WARM_UP - 1 + steps]))
  {
    hide StepOf, RunOf, Ops, ToNs, Steps;
    NextSlice(first, cycles, c);
    if |cycles| + 1 == WARM_UP {
      FirstStep(first.verifier, c);
    } else {
      NextStep(first.verifier, cycles[WARM_UP - 1..WARM_UP - 1 + Steps(first, |cycles|)], c);
    }
  }

  lemma StartsOnFirst(v: Verifier, now: int, a: Answer)
    requires Fresh(v)
    ensures v.Valid() && StepOf(v, now, a).started
  {
  }

  /** The verification in one more undisturbed cycle, once the bus is warm. */
  lemma VerifierOnCourse(config: Config, first: Gate, cycles: seq<Cycle>, g: Gate, c: Cycle)
    requires Initial(first) && Undisturbed(config, first, cycles + [c]) && OnCourse(first, cycles, g) && g.verifier.Valid()
    requires WARM_UP <= |cycles| + 1 && c.check.Some?
    ensures var all, n := 2 * |first.verifier.checks|, |cycles| + 1;
      var v := if n < WARM_UP + all then StepOf(g.verifier, ToNs(c.check.value), c.answer) else g.verifier;
      && v == RunOf(first.verifier, Ops((cycles + [c])[WARM_UP - 1..WARM_UP - 1 + Steps(first, n)]))
      && v.started && v.result == (if Steps(first, n) == all then Complete else Pending)
      && g.verifier.result == (if n < WARM_UP + all then Pending else Complete)
  {
    hide StepOf, RunOf, Ops, ToNs, Undisturbed, RightAnswer;
    var n := |cycles|;
    StepsGoWell(config, first, cycles + [c], Steps(first, n + 1));
    NextSteps(first, cycles, g, c);
    if n + 1 == WARM_UP {
      StartsOnFirst(g.verifier, ToNs(c.check.value), c.answer);
    } else {
      StepStarts(g.verifier, ToNs(c.check.value), c.answer);
      UndisturbedPrefix(config, first, cycles, c);
      StepsGoWell(config, first, cycles, Steps(first, n));
    }
  }

  lemma OnCourseStep(config: Config, first: Gate, cycles: seq<Cycle>, g: Gate, c: Cycle)
    requires Initial(first) && Undisturbed(config, first, cycles + [c]) && OnCourse(first, cycles, g) && g.verifier.Valid()
    requires |cycles| < 2 * |first.verifier.checks| + 9
    ensures var p := CycleOf(config, g, c);
      && OnCourse(first, cycles + [c], p.gate)
      && (if |cycles| + 1 == 2 * |first.verifier.checks| + 9 then p.Opened? else p.Starting?)
  {
    hide CycleOf, StepOf, RunOf, Ops, ToNs, Undisturbed, RightAnswer;
    assert Smooth(config, first, c) by { SmoothLast(config, first, cycles, c); }
    if WARM_UP <= |cycles| + 1 {
      VerifierOnCourse(config, first, cycles, g, c);
    }
    SmoothCycle(config, first, g, c);
    CycleLeadsOn(config, g, c);
  }

  lemma SmoothLast(config: Config, first: Gate, cycles: seq<Cycle>, c: Cycle)
    requires Undisturbed(config, first, cycles + [c])
    ensures Smooth(config, first, c)
  {
    assert (cycles + [c])[|cycles|] == c;
  }

  lemma UndisturbedPrefix(config: Config, first: Gate, cycles: seq<Cycle>, c: Cycle)
    requires Undisturbed(config, first, cycles + [c])
    ensures Undisturbed(config, first, cycles)
  {
    hide Smooth, RightAnswer, ToNs;
    assert forall i | 0 <= i < |cycles| :: (cycles + [c])[i] == cycles[i];
    assert forall x | x in cycles :: x in cycles + [c];
  }

  /** A healthy bus that answers right and in time is let through after exactly 2N + 9 cycles. */
  lemma {:induction false} HealthyBusOpensGate(config: Config, first: Gate, cycles: seq<Cycle>)
    requires Initial(first) && Undisturbed(config, first, cycles) && |cycles| <= 2 * |first.verifier.checks| + 9
    ensures var p := Startup(config, first, cycles);
      && OnCourse(first, cycles, p.gate)
      && (if |cycles| == 2 * |first.verifier.checks| + 9 then p.Opened? else p.Starting?)
  {
    hide CycleOf, OnCourse, Undisturbed;
    if cycles == [] {
      StartsOnCourse(first);
    } else {
      var before, c := cycles[..|cycles| - 1], cycles[|cycles| - 1];
      assert before + [c] == cycles;
      UndisturbedPrefix(config, first, before, c);
      HealthyBusOpensGate(config, first, before);
      OnCourseStep(config, first, before, Startup(config, first, before).gate, c);
    }
  }

  lemma StartsOnCourse(first: Gate)
    requires Initial(first)
    ensures OnCourse(first, [], first)
  {
  }

  lemma InspectCases(config: Config, g: Gate, c: Cycle)
    requires g.verifier.Valid()
    ensures var healthy := c.health.Good(config.slaves);
      var w := g.(warm := if g.verifier.started then g.warm else if healthy then g.warm + 1 else 0);
      && (c.pollRc == 0 && g.verifier.started && !healthy ==>
            Inspect(config, g, c) == GaveUp(w.(verifier := Aborted(g.verifier, BusUnhealthy)), Eio))
      && (c.pollRc == 0 && (healthy || !g.verifier.started) && c.check.None? ==> Inspect(config, g, c) == GaveUp(w, Errno))
      && (c.pollRc == 0 && (healthy || !g.verifier.started) && c.check.Some? ==>
            Inspect(config, g, c) == Watch(config, w, c, healthy, ToNs(c.check.value)))
  {
    hide Watch, ToNs, Health.Good;
  }

  lemma WatchCases(config: Config, g: Gate, c: Cycle, healthy: bool, now: int)
    requires g.verifier.Valid()
    ensures var (wait, result) := ObserveWait(g.wait, now, healthy && g.verifier.result.Complete?);
      var w := g.(wait := wait);
      var v := StepOf(g.verifier, now, c.answer);
      var stepping := healthy && g.warm >= WARM_UP && !g.verifier.result.Complete?;
      && (result.TimedOut? ==>
            Watch(config, g, c, healthy, now) == GaveUp(w.(verifier := Aborted(g.verifier, StartupTimeout)), Etimedout))
      && (!result.TimedOut? && !stepping ==>
            Watch(config, g, c, healthy, now) == Conclude(config, w, c, result.Ready?))
      && (!result.TimedOut? && stepping && v.result.Failed? ==>
            Watch(config, g, c, healthy, now) ==
            GaveUp(w.(verifier := v), if v.error.failure.RequestTimeout? then Etimedout else Eio))
      && (!result.TimedOut? && stepping && !v.result.Failed? ==>
            Watch(config, g, c, healthy, now) == Conclude(config, w.(verifier := v), c, result.Ready?))
  {
    hide ObserveWait, StepOf, Conclude, Aborted;
  }

  lemma PlusNoTrail(t: Trail)
    ensures t.Plus(NO_TRAIL) == t
  {
  }

  lemma PlusAssociates(a: Trail, b: Trail, c: Trail)
    ensures a.Plus(b).Plus(c) == a.Plus(b.Plus(c))
  {
  }

  lemma HealthTrailCases(config: Config, g: Gate, c: Cycle, t: Trail)
    requires g.verifier.Valid()
    ensures var healthy := c.health.Good(config.slaves);
      var w := g.(warm := if g.verifier.started then g.warm else if healthy then g.warm + 1 else 0);
      && (g.verifier.started && !healthy ==> t.Plus(HealthTrail(config, g, c)) == t)
      && ((healthy || !g.verifier.started) && c.check.None? ==>
            t.Plus(HealthTrail(config, g, c)) == t.Plus(Noted([ClockRead(c.check)])))
      && ((healthy || !g.verifier.started) && c.check.Some? ==>
            t.Plus(HealthTrail(config, g, c)) ==
            t.Plus(Noted([ClockRead(c.check)])).Plus(WatchTrail(w, c, healthy, ToNs(c.check.value))))
  {
    hide WatchTrail, ToNs, Health.Good, Noted, Trail.Plus;
    var healthy := c.health.Good(config.slaves);
    var w := g.(warm := if g.verifier.started then g.warm else if healthy then g.warm + 1 else 0);
    PlusNoTrail(t);
    PlusNoTrail(Noted([ClockRead(c.check)]));
    if c.check.Some? {
      PlusAssociates(t, Noted([ClockRead(c.check)]), WatchTrail(w, c, healthy, ToNs(c.check.value)));
    }
  }

  lemma WatchTrailCases(g: Gate, c: Cycle, healthy: bool, now: int, t: Trail)
    requires g.verifier.Valid()
    ensures var result := ObserveWait(g.wait, now, healthy && g.verifier.result.Complete?).1;
      var failed, called := StepOf(g.verifier, now, c.answer).result.Failed?, Called(CallsOf(g.verifier, now, c.answer));
      var stepping := healthy && g.warm >= WARM_UP && !g.verifier.result.Complete?;
      && (result.TimedOut? ==> t.Plus(WatchTrail(g, c, healthy, now)) == t)
      && (!result.TimedOut? && !stepping ==> t.Plus(WatchTrail(g, c, healthy, now)) == t.Plus(ConcludeTrail(c)))
      && (!result.TimedOut? && stepping && failed ==> t.Plus(WatchTrail(g, c, healthy, now)) == t.Plus(called))
      && (!result.TimedOut? && stepping && !failed ==>
            t.Plus(WatchTrail(g, c, healthy, now)) == t.Plus(called).Plus(ConcludeTrail(c)))
  {
    hide ObserveWait, StepOf, CallsOf, ConcludeTrail, Called, Trail.Plus;
    PlusNoTrail(t);
    PlusNoTrail(Called(CallsOf(g.verifier, now, c.answer)));
    PlusAssociates(t, Called(CallsOf(g.verifier, now, c.answer)), ConcludeTrail(c));
  }

  lemma TrailGrows(config: Config, first: Gate, cycles: seq<Cycle>, c: Cycle)
    requires first.verifier.Valid() && Startup(config, first, cycles).Starting?
    ensures StartupTrail(config, first, cycles + [c]) ==
            StartupTrail(config, first, cycles).Plus(
              Noted([FlagRead(false)]).Plus(CycleTrail(config, Startup(config, first, cycles).gate, c)))
  {
    assert (cycles + [c])[..|cycles|] == cycles;
  }

  // ---------- the code of a failed startup ----------

  lemma LastOfPlus(a: Trail, b: Trail)
    ensures b.log != [] ==> a.Plus(b).log != [] && a.Plus(b).log[|a.Plus(b).log| - 1] == b.log[|b.log| - 1]
    ensures b.log == [] ==> a.Plus(b).log == a.log
  {
  }

  /** How a startup that ended with this note, at the gate g, ends: which code belongs to which last answer. */
  predicate EndsRight(g: Gate, last: Note, p: Phase) {
    match last
    case Slept(stop, rc) => if stop then p.Stopped? else rc != 0 && p.GaveUp? && p.code == SleepError(rc)
    case ClockRead(None) => p.GaveUp? && p.code == Errno
    case ClockRead(Some(now)) =>
      p.GaveUp? &&
      if now.sec * 1000000000 + now.nsec >= g.wait.deadline then p.code == Etimedout
      else p.gate.verifier.result.Failed? &&
           p.code == if p.gate.verifier.error.failure.RequestTimeout? then Etimedout else Eio
    case TimeSet(_, ok) => !ok && p.GaveUp? && p.code == Eio
    case WallRead(ok) => !ok && p.GaveUp? && p.code == Errno
    case Polled(rc, _) => (rc != 0 || g.verifier.started) && p.GaveUp? && p.code == Eio
    case FramesSent(ok) => !ok && p.GaveUp? && p.code == Eio
    case _ => false
  }

  ghost predicate LogEndsRight(g: Gate, log: seq<Note>, p: Phase) {
    log != [] && EndsRight(g, log[|log| - 1], p)
  }

  lemma ConcludeEndsRight(config: Config, g: Gate, start: Gate, c: Cycle, ready: bool)
    requires g.verifier.Valid()
    ensures var p := Conclude(config, g, c, ready); p.GaveUp? ==> LogEndsRight(start, ConcludeTrail(c).log, p)
    ensures !Conclude(config, g, c, ready).Stopped? && ConcludeTrail(c).log != []
  {
    hide AdvanceDeadline;
  }

  lemma WatchEndsRight(config: Config, g: Gate, start: Gate, c: Cycle, healthy: bool, now: Timespec, t: Trail)
    requires g.verifier.Valid() && g.wait == start.wait && t.log != [] && t.log[|t.log| - 1] == ClockRead(Some(now))
    ensures var p := Watch(config, g, c, healthy, ToNs(now));
      p.GaveUp? ==> LogEndsRight(start, t.Plus(WatchTrail(g, c, healthy, ToNs(now))).log, p)
    ensures !Watch(config, g, c, healthy, ToNs(now)).Stopped?
  {
    var (wait, result) := ObserveWait(g.wait, ToNs(now), healthy && g.verifier.result.Complete?);
    var v := StepOf(g.verifier, ToNs(now), c.answer);
    assert ToNs(now) == now.sec * 1000000000 + now.nsec;
    WatchCases(config, g, c, healthy, ToNs(now));
    WatchTrailCases(g, c, healthy, ToNs(now), t);
    var called := Called(CallsOf(g.verifier, ToNs(now), c.answer));
    LastOfPlus(t, called);
    LastOfPlus(t, ConcludeTrail(c));
    LastOfPlus(t.Plus(called), ConcludeTrail(c));
    ConcludeEndsRight(config, g.(wait := wait), start, c, result.Ready?);
    ConcludeEndsRight(config, g.(wait := wait, verifier := v), start, c, result.Ready?);
    hide Watch, WatchTrail, StepOf, CallsOf, Conclude, ConcludeTrail, Trail.Plus, ToNs, Aborted;
  }

  lemma InspectEndsRight(config: Config, g: Gate, c: Cycle, t: Trail)
    requires g.verifier.Valid()
    ensures var p := Inspect(config, g, c); p.GaveUp? ==> LogEndsRight(g, t.Plus(InspectTrail(config, g, c)).log, p)
    ensures !Inspect(config, g, c).Stopped?
  {
    hide Watch, WatchTrail, HealthTrail, ToNs, Health.Good, Trail.Plus, Aborted, EndsRight;
    var polled, clock := Noted([Polled(c.pollRc, c.health.allOperational)]), Noted([ClockRead(c.check)]);
    var healthy := c.health.Good(config.slaves);
    var w := g.(warm := if g.verifier.started then g.warm else if healthy then g.warm + 1 else 0);
    LastOfPlus(t, polled);
    LastOfPlus(t.Plus(polled), clock);
    PlusNoTrail(polled);
    PlusAssociates(t, polled, HealthTrail(config, g, c));
    InspectCases(config, g, c);
    HealthTrailCases(config, g, c, t.Plus(polled));
    if c.check.Some? {
      WatchEndsRight(config, w, g, c, healthy, c.check.value, t.Plus(polled).Plus(clock));
    }
    InspectEnds(g, Inspect(config, g, c), c);
  }

  lemma InspectEnds(g: Gate, p: Phase, c: Cycle)
    ensures p.GaveUp? && p.code == Eio && (c.pollRc != 0 || g.verifier.started) ==>
      EndsRight(g, Polled(c.pollRc, c.health.allOperational), p)
    ensures p.GaveUp? && p.code == Errno && c.check.None? ==> EndsRight(g, ClockRead(c.check), p)
  {
  }

  /** The code of a startup that gives up, or its clean stop, follows from the last answer in its log: a failed
      sleep gives its own error; a failed clock errno; a failed send, time or poll, and lost health, EIO; a clock
      reading at or past the deadline ETIMEDOUT; and a failed verification ETIMEDOUT just for a timed-out request. */
  lemma CodeFollowsLog(config: Config, g: Gate, c: Cycle)
    requires g.verifier.Valid()
    ensures var p := CycleOf(config, g, c); p.GaveUp? || p.Stopped? ==> LogEndsRight(g, CycleTrail(config, g, c).log, p)
  {
    hide Inspect, InspectTrail, ToNs, Trail.Plus;
    var slept := Noted([Slept(c.stop, c.sleepRc)]);
    var woken := slept.Plus(Noted([ClockRead(c.wake)]));
    var timed := woken.Plus(Noted([TimeSet(ToNs(g.deadline), c.timeSet)]));
    var frames := timed.Plus(Noted([FramesReceived]));
    var received := frames.Plus(Noted([StateRead(c.health.state)]));
    var walled := if config.shared then received.Plus(Noted([WallRead(c.wallRead)])) else received;
    LastOfPlus(slept, Noted([ClockRead(c.wake)]));
    LastOfPlus(woken, Noted([TimeSet(ToNs(g.deadline), c.timeSet)]));
    LastOfPlus(received, Noted([WallRead(c.wallRead)]));
    InspectEndsRight(config, g, c, walled);
  }

  // ---------- what startup does to its surroundings ----------

  /** No client sees data, none is told of a cycle, and the gate stays shut. */
  predicate Quiet(log: seq<Note>) {
    forall n | n in log :: !n.GatePassed? && !n.DataExchanged? && !n.ClientsNotified?
  }

  /** At most one application time is set, and it is this one. */
  ghost predicate SetsOnly(log: seq<Note>, nominal: int) {
    && (forall i | 0 <= i < |log| && log[i].TimeSet? :: log[i].nominal == nominal)
    && forall i, j | 0 <= i < j < |log| && log[i].TimeSet? :: !log[j].TimeSet?
  }

  predicate Timeless(log: seq<Note>) {
    forall n | n in log :: !n.TimeSet?
  }

  lemma QuietJoin(a: Trail, b: Trail, nominal: int)
    requires Quiet(a.log) && SetsOnly(a.log, nominal) && Quiet(b.log) && SetsOnly(b.log, nominal)
    requires Timeless(a.log) || Timeless(b.log)
    ensures Quiet(a.Plus(b).log) && SetsOnly(a.Plus(b).log, nominal)
    ensures Timeless(a.log) && Timeless(b.log) ==> Timeless(a.Plus(b).log)
  {
    assert forall i | 0 <= i < |a.log| :: a.log[i] in a.log;
    assert forall i | 0 <= i < |b.log| :: b.log[i] in b.log;
  }

  lemma QuietNote(note: Note, nominal: int)
    ensures !note.GatePassed? && !note.DataExchanged? && !note.ClientsNotified? ==> Quiet(Noted([note]).log)
    ensures note.TimeSet? ==> note.nominal == nominal ==> SetsOnly(Noted([note]).log, nominal)
    ensures !note.TimeSet? ==> Timeless(Noted([note]).log) && SetsOnly(Noted([note]).log, nominal)
  {
  }

  lemma CycleIsQuiet(config: Config, g: Gate, c: Cycle)
    requires g.verifier.Valid()
    ensures Quiet(CycleTrail(config, g, c).log) && SetsOnly(CycleTrail(config, g, c).log, ToNs(g.deadline))
  {
    hide InspectTrail, ToNs, Trail.Plus, Noted, Quiet, SetsOnly, Timeless;
    var nominal := ToNs(g.deadline);
    forall note | note in {Slept(c.stop, c.sleepRc), ClockRead(c.wake), FramesReceived, StateRead(c.health.state),
                           WallRead(c.wallRead), TimeSet(nominal, c.timeSet)}
      ensures Quiet(Noted([note]).log) && SetsOnly(Noted([note]).log, nominal)
      ensures !note.TimeSet? ==> Timeless(Noted([note]).log)
    {
      QuietNote(note, nominal);
    }
    var slept := Noted([Slept(c.stop, c.sleepRc)]);
    var woken := slept.Plus(Noted([ClockRead(c.wake)]));
    var timed := woken.Plus(Noted([TimeSet(nominal, c.timeSet)]));
    var frames := timed.Plus(Noted([FramesReceived]));
    var received := frames.Plus(Noted([StateRead(c.health.state)]));
    var walled := received.Plus(Noted([WallRead(c.wallRead)]));
    QuietJoin(slept, Noted([ClockRead(c.wake)]), nominal);
    QuietJoin(woken, Noted([TimeSet(nominal, c.timeSet)]), nominal);
    QuietJoin(timed, Noted([FramesReceived]), nominal);
    QuietJoin(frames, Noted([StateRead(c.health.state)]), nominal);
    QuietJoin(received, Noted([WallRead(c.wallRead)]), nominal);
    InspectIsQuiet(config, g, c, nominal);
    QuietJoin(received, InspectTrail(config, g, c), nominal);
    QuietJoin(walled, InspectTrail(config, g, c), nominal);
  }

  lemma InspectIsQuiet(config: Config, g: Gate, c: Cycle, nominal: int)
    requires g.verifier.Valid()
    ensures var log := InspectTrail(config, g, c).log; Quiet(log) && Timeless(log) && SetsOnly(log, nominal)
  {
    hide ToNs, Health.Good, StepOf, CallsOf, ObserveWait;
  }

  lemma {:induction false} StartupIsQuiet(config: Config, first: Gate, cycles: seq<Cycle>)
    requires first.verifier.Valid()
    ensures Quiet(StartupTrail(config, first, cycles).log)
  {
    hide CycleTrail, CycleOf;
    if cycles != [] {
      var before := cycles[..|cycles| - 1];
      StartupIsQuiet(config, first, before);
      CycleIsQuiet(config, Startup(config, first, before).gate, cycles[|cycles| - 1]);
    }
  }
}
