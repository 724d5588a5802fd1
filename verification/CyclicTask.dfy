/** The cyclic task: the fail-closed startup loop, then the runtime loop, on one schedule. */
module CyclicTask {
  import opened Bytes
  import opened Wrappers
  import opened Readback
  import opened Schedule
  import opened StartupGate
  import opened Timing
  import opened Plant
  import opened Windows
  import opened Runtime
  import Bus
  import V = PdoVerification

  const MIN_PERIOD_US: nat := 1000

  function PhaseOf(outcome: Outcome, g: Gate): Phase {
    match outcome
    case Going => Starting(g)
    case Open => Opened(g)
    case Stop => Stopped(g)
    case Give(code) => GaveUp(g, code)
  }

  lemma PhaseCases(outcome: Outcome, g: Gate)
    ensures outcome.Give? ==> PhaseOf(outcome, g) == GaveUp(g, outcome.code)
    ensures outcome.Stop? ==> PhaseOf(outcome, g).Stopped?
  {
  }

  /** No client sees data and none is told of a cycle before the gate opens; then data is exchanged right
      after receiving and clients are told right after successful sending, a clock reading apart. */
  ghost predicate GatedData(log: seq<Note>) {
    && (forall i | 0 <= i < |log| && log[i].DataExchanged? :: OpenBefore(log, i) && i > 1 && log[i - 2].FramesReceived?)
    && (forall i | 0 <= i < |log| && log[i].ClientsNotified? :: OpenBefore(log, i) && i > 1 && log[i - 2] == FramesSent(true))
  }

  ghost predicate OpenBefore(log: seq<Note>, i: int) {
    exists j :: 0 <= j < i && j < |log| && log[j].GatePassed?
  }

  ghost predicate OpenGate(log: seq<Note>) {
    OpenBefore(log, |log|)
  }

  ghost predicate Increasing(log: seq<Note>) {
    forall i, j | 0 <= i < j < |log| && log[i].TimeSet? && log[j].TimeSet? :: log[i].nominal < log[j].nominal
  }

  ghost predicate Before(log: seq<Note>, limit: int) {
    forall i | 0 <= i < |log| && log[i].TimeSet? :: log[i].nominal < limit
  }

  ghost predicate AllInPhase(origin: nat, periodUs: uint32, log: seq<Note>) {
    origin != 0 ==>
      forall i | 0 <= i < |log| && log[i].TimeSet? :: InPhase(origin, periodUs, log[i].nominal) && log[i].nominal > origin
  }

  lemma TimesGrow(origin: nat, periodUs: uint32, log: seq<Note>, notes: seq<Note>, nominal: int)
    requires Increasing(log) && Before(log, nominal) && AllInPhase(origin, periodUs, log) && SetsOnly(notes, nominal)
    requires origin != 0 ==> InPhase(origin, periodUs, nominal) && nominal > origin
    ensures Increasing(log + notes) && AllInPhase(origin, periodUs, log + notes)
    ensures forall later | later > nominal :: Before(log + notes, later)
  {
    hide InPhase;
  }

  lemma TimesStay(origin: nat, periodUs: uint32, log: seq<Note>, note: Note)
    requires !note.TimeSet?
    ensures Increasing(log) ==> Increasing(log + [note])
    ensures AllInPhase(origin, periodUs, log) ==> AllInPhase(origin, periodUs, log + [note])
    ensures forall limit | Before(log, limit) :: Before(log + [note], limit)
  {
    hide InPhase;
  }

  class CyclicTask {
    const machine: Machine
    const sdo: Bus.SdoRequests
    const verification: V.PdoVerification
    const statistics: CycleStatistics
    const periodUs: uint32
    const opTimeoutMs: uint32
    const slaves: nat
    const origin: nat   // phase origin of the distributed clocks, zero without them
    const shared: bool  // whether the shared bus is mapped
    var deadline: Timespec
    var warm: nat
    var lastWake: Timespec
    var windowStart: Timespec
    var totalWcErrors: nat
    var totalLinkDown: nat
    ghost var cycles: seq<Counts>  // what each completed runtime cycle counted
    ghost var start: Timespec
    ghost var first: Timespec
    ghost var finishes: seq<Timespec>
    ghost var missedBefore: nat

    constructor (machine: Machine, sdo: Bus.SdoRequests, verification: V.PdoVerification, periodUs: uint32,
                 opTimeoutMs: uint32, slaves: nat, origin: nat, shared: bool)
      ensures this.machine == machine && this.sdo == sdo && this.verification == verification
      ensures this.periodUs == periodUs && this.opTimeoutMs == opTimeoutMs && this.slaves == slaves
      ensures this.origin == origin && this.shared == shared
      ensures fresh(statistics) && statistics.Valid()
    {
      this.machine, this.sdo, this.verification := machine, sdo, verification;
      this.periodUs, this.opTimeoutMs, this.slaves := periodUs, opTimeoutMs, slaves;
      this.origin, this.shared := origin, shared;
      statistics := new CycleStatistics();
      deadline, warm, totalWcErrors, totalLinkDown, cycles := Timespec(0, 0), 0, 0, 0, [];
      lastWake, windowStart := Timespec(0, 0), Timespec(0, 0);
      start, first, finishes, missedBefore := Timespec(0, 0), Timespec(0, 0), [], 0;
    }

    ghost function Configured(): Config {
      Config(slaves, periodUs, shared)
    }

    ghost function GateOf(wait: StartupWait): Gate
      reads this`warm, this`deadline, wait, verification, statistics`missedDeadlines
    {
      Gate(wait.Value(), verification.Fields(), warm, deadline, statistics.missedDeadlines)
    }

    lemma GateFields(wait: StartupWait)
      requires verification.Valid()
      ensures var g := GateOf(wait);
        && g.verifier.Valid() && g.verifier.started == verification.started && g.verifier.result == verification.result
        && g.verifier.error == verification.error && g.warm == warm && g.deadline == deadline && Configured().slaves == slaves
    {
    }

    /** On a positive period, the deadline is where the schedule has it, and every skipped period was counted. */
    ghost predicate OnSchedule()
      reads this`deadline, this`start, this`first, this`finishes, this`missedBefore, statistics`missedDeadlines
    {
      periodUs > 0 && first == FirstDeadline(origin, periodUs, start) &&
      var due := After(first, periodUs, finishes);
      deadline == due.deadline && statistics.missedDeadlines == missedBefore + due.missed
    }

    /** The application times so far strictly increase and, with DC, keep the phase of the origin. */
    ghost predicate TimesOk()
      reads machine
    {
      Increasing(machine.log) && AllInPhase(origin, periodUs, machine.log)
    }

    /** Between two cycles: the schedule holds, and all application times lie before the next one. */
    ghost predicate OnTime()
      reads this`deadline, this`start, this`first, this`finishes, this`missedBefore, statistics`missedDeadlines
      reads machine
    {
      OnSchedule() && TimesOk() && Before(machine.log, ToNs(deadline))
    }

    lemma DeadlineInPhase()
      requires OnSchedule()
      ensures origin != 0 ==> InPhase(origin, periodUs, ToNs(deadline)) && ToNs(deadline) > origin
    {
      hide ToNs, After, FirstDeadline, InPhase;
      if origin != 0 {
        DcPhaseKept(origin, periodUs, start, finishes);
      }
    }

    /** Everything the task has asked and done so far. */
    ghost function Trace(): Trail
      reads machine, sdo, this`finishes
    {
      Trail(machine.log, sdo.calls, finishes)
    }

    twostate lemma Noting(note: Note)
      requires machine.log == old(machine.log) + [note] && sdo.calls == old(sdo.calls) && finishes == old(finishes)
      ensures Trace() == old(Trace()).Plus(Noted([note]))
    {
    }

    method Advance(finish: Timespec) returns (missed: nat)
      requires OnSchedule()
      modifies this`deadline, this`finishes, statistics`missedDeadlines
      ensures OnSchedule() && finishes == old(finishes) + [finish]
      ensures AdvanceDeadline(old(deadline), periodUs, finish) == Schedule.Advance(deadline, missed)
      ensures statistics.missedDeadlines == old(statistics.missedDeadlines) + missed
      ensures ToNs(deadline) > ToNs(old(deadline))
    {
      hide AdvanceDeadline, ToNs;
      LeastGridPoint(deadline, periodUs, finish);
      var next := AdvanceDeadline(deadline, periodUs, finish);
      deadline, missed := next.deadline, next.missed;
      statistics.Miss(missed);
      finishes := finishes + [finish];
      assert finishes[..|finishes| - 1] == old(finishes);
    }

    // ---------- startup ----------

    /** One cycle before the gate: exchanges zeroed process data with the bus and watches its health. */
    method StartupCycle(wait: StartupWait) returns (outcome: Outcome, ghost c: Cycle)
      requires verification.Valid() && OnSchedule()
      modifies machine, sdo, verification, wait, this`warm, this`lastWake, this`deadline, this`finishes, statistics`missedDeadlines
      ensures verification.Valid() && OnSchedule() && c.answer.Whole()
      ensures PhaseOf(outcome, GateOf(wait)) == CycleOf(Configured(), old(GateOf(wait)), c)
      ensures Trace() == old(Trace()).Plus(CycleTrail(Configured(), old(GateOf(wait)), c))
      ensures outcome.Going? || outcome.Open? ==> ToNs(deadline) > ToNs(old(deadline)) && c.wake == Some(lastWake)
    {
      hide *;
      ghost var g, t := GateOf(wait), Trace();
      GateFields(wait);
      var wake;
      outcome, wake, c := StartupWake(wait);
      if !outcome.Going? {
        return;
      }
      WokenIs(g, c, t);
      label received:
      machine.ReceiveAndProcess();
      Noting@received(FramesReceived);
      label seen:
      var state := machine.ReadState();
      Noting@seen(StateRead(state));
      c := c.(health := Health(false, state));
      if shared {
        label walled:
        var wallRead := machine.WallClock();
        Noting@walled(WallRead(wallRead));
        c := c.(wallRead := wallRead);
        if !wallRead {
          WokenIs(g, c, t);
          CycleCases(g, c, t);
          return Give(Errno), c;
        }
      }
      outcome, c := StartupInspect(wait, state, c);
      WokenIs(g, c, t);
      CycleCases(g, c, t);
      if outcome.Going? || outcome.Open? {
        lastWake := wake;
      }
    }

    /** Sleeps to the deadline and hands over the application time. */
    method StartupWake(wait: StartupWait) returns (outcome: Outcome, time: Timespec, ghost c: Cycle)
      requires verification.Valid()
      modifies machine
      ensures c.answer.Whole() && (outcome.Going? <==> !c.stop && c.sleepRc == 0 && c.wake.Some? && c.timeSet)
      ensures !outcome.Open? && (outcome.Going? ==> c.wake == Some(time) && Trace() == Woken(GateOf(wait), c, old(Trace())))
      ensures !outcome.Going? ==> PhaseOf(outcome, GateOf(wait)) == CycleOf(Configured(), GateOf(wait), c)
      ensures !outcome.Going? ==> Trace() == old(Trace()).Plus(CycleTrail(Configured(), GateOf(wait), c))
    {
      hide *;
      c, time := NO_CYCLE, deadline;
      NoCycleIsWhole();
      ghost var g, t := GateOf(wait), Trace();
      GateFields(wait);
      var stop, rc := machine.Sleep(deadline);
      Noting(Slept(stop, rc));
      c := c.(stop := stop, sleepRc := rc);
      if stop || rc != 0 {
        CycleCases(g, c, t);
        return if stop then Stop else Give(SleepError(rc)), time, c;
      }
      label woken:
      var wake := machine.Monotonic();
      Noting@woken(ClockRead(wake));
      c := c.(wake := wake);
      if wake.None? {
        CycleCases(g, c, t);
        return Give(Errno), time, c;
      }
      label timed:
      var timeSet := machine.SetApplicationTime(deadline);
      Noting@timed(TimeSet(ToNs(deadline), timeSet));
      c := c.(timeSet := timeSet);
      WokenIs(g, c, t);
      CycleCases(g, c, t);
      outcome, time := if timeSet then Going else Give(Eio), wake.value;
    }

    ghost function Woken(g: Gate, c: Cycle, t: Trail): Trail {
      t.Plus(Noted([Slept(c.stop, c.sleepRc)])).Plus(Noted([ClockRead(c.wake)])).Plus(
        Noted([TimeSet(ToNs(g.deadline), c.timeSet)]))
    }

    lemma WokenIs(g: Gate, c: Cycle, t: Trail)
      ensures Woken(g, c, t) == t.Plus(Noted([Slept(c.stop, c.sleepRc)])).Plus(Noted([ClockRead(c.wake)])).Plus(
                                  Noted([TimeSet(ToNs(g.deadline), c.timeSet)]))
    {
    }

    lemma CycleCases(g: Gate, c: Cycle, t: Trail)
      requires g.verifier.Valid()
      ensures var p, t' := CycleOf(Configured(), g, c), t.Plus(CycleTrail(Configured(), g, c));
        var slept := t.Plus(Noted([Slept(c.stop, c.sleepRc)]));
        var received := Woken(g, c, t).Plus(Noted([FramesReceived])).Plus(Noted([StateRead(c.health.state)]));
        var walled := if shared then received.Plus(Noted([WallRead(c.wallRead)])) else received;
        && (c.stop ==> p == PhaseOf(Stop, g) && t' == slept)
        && (!c.stop && c.sleepRc != 0 ==> p == PhaseOf(Give(SleepError(c.sleepRc)), g) && t' == slept)
        && (!c.stop && c.sleepRc == 0 && c.wake.None? ==>
              p == PhaseOf(Give(Errno), g) && t' == slept.Plus(Noted([ClockRead(c.wake)])))
        && (!c.stop && c.sleepRc == 0 && c.wake.Some? && !c.timeSet ==> p == PhaseOf(Give(Eio), g) && t' == Woken(g, c, t))
        && (!c.stop && c.sleepRc == 0 && c.wake.Some? && c.timeSet && shared && !c.wallRead ==>
              p == PhaseOf(Give(Errno), g) && t' == walled)
        && (!c.stop && c.sleepRc == 0 && c.wake.Some? && c.timeSet && (shared ==> c.wallRead) ==>
              p == Inspect(Configured(), g, c) && t' == walled.Plus(InspectTrail(Configured(), g, c)))
    {
      hide Inspect, InspectTrail, ToNs, Trail.Plus, Noted;
      var slept, clock := Noted([Slept(c.stop, c.sleepRc)]), Noted([ClockRead(c.wake)]);
      var timed := Noted([TimeSet(ToNs(g.deadline), c.timeSet)]);
      var woken := slept.Plus(clock).Plus(timed);
      var frames, state := Noted([FramesReceived]), Noted([StateRead(c.health.state)]);
      var received := woken.Plus(frames).Plus(state);
      var wall := Noted([WallRead(c.wallRead)]);
      PlusAssociates(t, slept, clock);
      PlusAssociates(t, slept.Plus(clock), timed);
      PlusAssociates(t, woken, frames);
      PlusAssociates(t, woken.Plus(frames), state);
      PlusAssociates(t, received, wall);
      PlusAssociates(t, if shared then received.Plus(wall) else received, InspectTrail(Configured(), g, c));
    }

    lemma NoCycleIsWhole()
      ensures NO_CYCLE.answer.Whole()
    {
    }

    method IsHealthy(health: Health) returns (healthy: bool)
      ensures healthy == health.Good(slaves)
    {
      var state := health.state;
      healthy := health.allOperational && state.linkUp && state.responding == slaves && state.inputState.WcComplete? &&
                 state.outputState.WcComplete?;
    }

    /** Counts healthy cycles running, until the verification starts. */
    method Warm(wait: StartupWait, healthy: bool)
      modifies this`warm
      ensures var g := old(GateOf(wait));
        GateOf(wait) == g.(warm := if g.verifier.started then g.warm else if healthy then g.warm + 1 else 0)
    {
      if !verification.started {
        warm := if healthy then warm + 1 else 0;
      }
    }

    /** Leaves the startup loop, failing a verification that has begun. */
    method GiveUp(wait: StartupWait, failure: Failure, code: Code) returns (outcome: Outcome)
      requires verification.Valid()
      modifies verification`result, verification`error
      ensures verification.Valid() && outcome == Give(code)
      ensures var g := old(GateOf(wait));
        PhaseOf(outcome, GateOf(wait)) == GaveUp(g.(verifier := Aborted(g.verifier, failure)), code)
    {
      if verification.started {
        verification.Abort(failure);
      }
      outcome := Give(code);
    }

    method StartupInspect(wait: StartupWait, state: BusState, ghost before: Cycle)
      returns (outcome: Outcome, ghost c: Cycle)
      requires verification.Valid() && OnSchedule() && before.answer.Whole() && before.health.state == state
      modifies machine, sdo, verification, wait, this`warm, this`deadline, this`finishes, statistics`missedDeadlines
      ensures verification.Valid() && OnSchedule() && c.answer.Whole() && c.health.state == state
      ensures c == before.(pollRc := c.pollRc, health := c.health, check := c.check, answer := c.answer, sent := c.sent,
                           finish := c.finish)
      ensures PhaseOf(outcome, GateOf(wait)) == Inspect(Configured(), old(GateOf(wait)), c)
      ensures Trace() == old(Trace()).Plus(InspectTrail(Configured(), old(GateOf(wait)), c))
      ensures outcome.Going? || outcome.Open? ==> ToNs(deadline) > ToNs(old(deadline))
    {
      assert GateOf(wait).verifier == verification.Fields();
      hide Aborted, Watch, HealthTrail, OnSchedule, ToNs, Health.Good, V.PdoVerification.Valid, Verifier.Valid, GateOf,
        Trail.Plus;
      ghost var g := GateOf(wait);
      var pollRc, allOperational := machine.PollSlaves();
      Noting(Polled(pollRc, allOperational));
      c := before.(pollRc := pollRc, health := Health(allOperational, state));
      if pollRc != 0 {
        PlusNoTrail(Noted([Polled(pollRc, allOperational)]));
        outcome := GiveUp(wait, BusUnhealthy, Eio);
      } else {
        outcome, c := StartupHealth(wait, Health(allOperational, state), c);
        PlusAssociates(old(Trace()), Noted([Polled(pollRc, allOperational)]), HealthTrail(Configured(), g, c));
      }
    }

    method StartupHealth(wait: StartupWait, health: Health, ghost before: Cycle) returns (outcome: Outcome, ghost c: Cycle)
      requires verification.Valid() && OnSchedule() && before.answer.Whole() && before.pollRc == 0 && before.health == health
      modifies machine, sdo, verification, wait, this`warm, this`deadline, this`finishes, statistics`missedDeadlines
      ensures verification.Valid() && OnSchedule() && c.answer.Whole()
      ensures c == before.(check := c.check, answer := c.answer, sent := c.sent, finish := c.finish)
      ensures PhaseOf(outcome, GateOf(wait)) == Inspect(Configured(), old(GateOf(wait)), c)
      ensures Trace() == old(Trace()).Plus(HealthTrail(Configured(), old(GateOf(wait)), c))
      ensures outcome.Going? || outcome.Open? ==> ToNs(deadline) > ToNs(old(deadline))
    {
      hide *;
      c := before;
      ghost var g, t := GateOf(wait), Trace();
      GateFields(wait);
      var healthy := IsHealthy(health);
      Warm(wait, healthy);
      // a slave that dropped out may come back with another mapping: what was read so far is void
      if verification.started && !healthy {
        outcome := GiveUp(wait, BusUnhealthy, Eio);
      } else {
        label reading:
        var check := machine.Monotonic();
        Noting@reading(ClockRead(check));
        c := c.(check := check);
        if check.None? {
          outcome := Give(Errno);
          PhaseCases(outcome, GateOf(wait));
        } else {
          outcome, c := StartupWatch(wait, healthy, check.value, c);
        }
      }
      InspectCases(Configured(), g, c);
      HealthTrailCases(Configured(), g, c, t);
    }

    method Observe(wait: StartupWait, check: Timespec, healthy: bool) returns (result: WaitResult)
      modifies wait
      ensures var g := old(GateOf(wait));
        var (w, r) := ObserveWait(g.wait, ToNs(check), healthy && g.verifier.result.Complete?);
        GateOf(wait) == g.(wait := w) && result == r
    {
      result := wait.Observe(ToNs(check), healthy && verification.result.Complete?);
    }

    method StepVerification(wait: StartupWait, check: Timespec) returns (stepped: Result, ghost a: Answer)
      requires verification.Valid()
      modifies sdo, verification
      ensures verification.Valid() && a.Whole() && stepped == verification.result
      ensures var g := old(GateOf(wait)); GateOf(wait) == g.(verifier := StepOf(g.verifier, ToNs(check), a))
      ensures Trace() == old(Trace()).Plus(Called(CallsOf(old(GateOf(wait)).verifier, ToNs(check), a)))
    {
      hide StepOf, CallsOf, ToNs;
      stepped, a := verification.Step(sdo, ToNs(check));
    }

    method StartupWatch(wait: StartupWait, healthy: bool, check: Timespec, ghost before: Cycle)
      returns (outcome: Outcome, ghost c: Cycle)
      requires verification.Valid() && OnSchedule() && before.answer.Whole()
      modifies machine, sdo, verification, wait, this`deadline, this`finishes, statistics`missedDeadlines
      ensures verification.Valid() && OnSchedule() && c.answer.Whole()
      ensures c == before.(answer := c.answer, sent := c.sent, finish := c.finish)
      ensures PhaseOf(outcome, GateOf(wait)) == Watch(Configured(), old(GateOf(wait)), c, healthy, ToNs(check))
      ensures Trace() == old(Trace()).Plus(WatchTrail(old(GateOf(wait)), c, healthy, ToNs(check)))
      ensures outcome.Going? || outcome.Open? ==> ToNs(deadline) > ToNs(old(deadline))
    {
      hide *;
      c := before;
      ghost var g, t := GateOf(wait), Trace();
      GateFields(wait);
      var result := Observe(wait, check, healthy);
      if result.TimedOut? {
        outcome := GiveUp(wait, StartupTimeout, Etimedout);
      } else if healthy && warm >= WARM_UP && !verification.result.Complete? {
        var stepped;
        ghost var answer;
        stepped, answer := StepVerification(wait, check);
        c := c.(answer := answer);
        GateFields(wait);
        if stepped.Failed? {
          outcome := Give(if verification.error.failure.RequestTimeout? then Etimedout else Eio);
          PhaseCases(outcome, GateOf(wait));
        } else {
          outcome, c := StartupConclude(wait, result.Ready?, c);
        }
      } else {
        outcome, c := StartupConclude(wait, result.Ready?, c);
      }
      WatchCases(Configured(), g, c, healthy, ToNs(check));
      WatchTrailCases(g, c, healthy, ToNs(check), t);
    }

    method StartupConclude(wait: StartupWait, ready: bool, ghost before: Cycle) returns (outcome: Outcome, ghost c: Cycle)
      requires OnSchedule()
      modifies machine, this`deadline, this`finishes, statistics`missedDeadlines
      ensures OnSchedule() && c == before.(sent := c.sent, finish := c.finish)
      ensures PhaseOf(outcome, GateOf(wait)) == Conclude(Configured(), old(GateOf(wait)), c, ready)
      ensures Trace() == old(Trace()).Plus(ConcludeTrail(c))
      ensures outcome.Going? || outcome.Open? ==> ToNs(deadline) > ToNs(old(deadline))
    {
      hide OnSchedule, AdvanceDeadline, ToNs;
      c := before;
      var sent := machine.QueueAndSend();
      c := c.(sent := sent);
      if !sent {
        return Give(Eio), c;
      }
      var finish := machine.Monotonic();
      c := c.(finish := finish);
      if finish.None? {
        return Give(Errno), c;
      }
      var missed := Advance(finish.value);
      outcome := if ready then Open else Going;
    }

    method TimedStartupCycle(wait: StartupWait) returns (outcome: Outcome, ghost c: Cycle)
      requires verification.Valid() && OnTime()
      modifies machine, sdo, verification, wait, this`warm, this`lastWake, this`deadline, this`finishes, statistics`missedDeadlines
      ensures verification.Valid() && c.answer.Whole()
      ensures PhaseOf(outcome, GateOf(wait)) == CycleOf(Configured(), old(GateOf(wait)), c)
      ensures Trace() == old(Trace()).Plus(CycleTrail(Configured(), old(GateOf(wait)), c))
      ensures OnSchedule() && TimesOk() && (outcome.Going? || outcome.Open? ==> OnTime() && c.wake == Some(lastWake))
    {
      hide Increasing, AllInPhase, Before, OnSchedule, CycleOf, CycleTrail, V.PdoVerification.Valid, ToNs, SetsOnly, Quiet;
      ghost var g := GateOf(wait);
      GateFields(wait);
      DeadlineInPhase();
      outcome, c := StartupCycle(wait);
      CycleIsQuiet(Configured(), g, c);
      TimesGrow(origin, periodUs, old(machine.log), CycleTrail(Configured(), g, c).log, ToNs(g.deadline));
    }

    /** What the startup loop may return. */
    ghost predicate LoopEnded(config: Config, first: Gate, cycles: seq<Cycle>, outcome: Outcome, g: Gate)
      requires first.verifier.Valid()
    {
      var p := Startup(config, first, cycles);
      && (forall c | c in cycles :: c.answer.Whole())
      && match outcome
         case Going => p == Starting(g)
         case Open => p == Opened(g) && cycles != [] && Startup(config, first, cycles[..|cycles| - 1]).Starting?
         case Stop => p == Stopped(g) || p == Starting(g)
         case Give(code) => p == GaveUp(g, code)
    }

    lemma LoopContinues(config: Config, first: Gate, cycles: seq<Cycle>, g: Gate, c: Cycle, outcome: Outcome, g': Gate,
                        t: Trail)
      requires first.verifier.Valid() && g.verifier.Valid() && c.answer.Whole()
      requires LoopEnded(config, first, cycles, Going, g) && PhaseOf(outcome, g') == CycleOf(config, g, c)
      ensures LoopEnded(config, first, cycles + [c], outcome, g')
      ensures Startup(config, first, cycles + [c]) == PhaseOf(outcome, g')
      ensures t.Plus(StartupTrail(config, first, cycles)).Plus(Noted([FlagRead(false)])).Plus(CycleTrail(config, g, c)) ==
              t.Plus(StartupTrail(config, first, cycles + [c]))
    {
      hide CycleOf, CycleTrail, StartupTrail, Trail.Plus, Noted;
      assert (cycles + [c])[..|cycles|] == cycles;
      TrailGrows(config, first, cycles, c);
      var s, flag, next := StartupTrail(config, first, cycles), Noted([FlagRead(false)]), CycleTrail(config, g, c);
      PlusAssociates(t.Plus(s), flag, next);
      PlusAssociates(t, s, flag.Plus(next));
    }

    lemma LoopBegins(config: Config, first: Gate)
      requires first.verifier.Valid()
      ensures LoopEnded(config, first, [], Going, first) && StartupTrail(config, first, []) == NO_TRAIL
    {
    }

    lemma LoopStops(config: Config, first: Gate, cycles: seq<Cycle>, g: Gate)
      requires first.verifier.Valid() && LoopEnded(config, first, cycles, Going, g)
      ensures LoopEnded(config, first, cycles, Stop, g)
    {
    }

    /** Startup cycles until the gate opens, the stop flag is set (after `lifetime` cycles at the latest), or a
        cycle gives up. What was asked and done is exactly what these cycles say. */
    method StartupLoop(wait: StartupWait, lifetime: nat) returns (outcome: Outcome, ghost cycles: seq<Cycle>)
      requires verification.Valid() && OnTime()
      modifies machine, sdo, verification, wait, this`warm, this`lastWake, this`deadline, this`finishes, statistics`missedDeadlines
      ensures verification.Valid() && !outcome.Going? && old(GateOf(wait)).verifier.Valid()
      ensures LoopEnded(Configured(), old(GateOf(wait)), cycles, outcome, GateOf(wait))
      ensures var t := old(Trace()).Plus(StartupTrail(Configured(), old(GateOf(wait)), cycles));
        Trace() == t || (outcome.Stop? && Trace() == t.Plus(Noted([FlagRead(true)])))
      ensures outcome.Stop? && Startup(Configured(), old(GateOf(wait)), cycles).Starting? ==>
        |cycles| == lifetime || machine.log == old(machine.log) + StartupTrail(Configured(), old(GateOf(wait)), cycles).log + [FlagRead(true)]
      ensures OnSchedule() && TimesOk()
      ensures outcome.Open? ==> OnTime() && cycles != [] && cycles[|cycles| - 1].wake == Some(lastWake)
    {
      ghost var first, t := GateOf(wait), Trace();
      GateFields(wait);
      cycles := [];
      LoopBegins(Configured(), first);
      PlusNoTrail(t);
      hide *;
      for n := 0 to lifetime
        invariant verification.Valid() && OnTime()
        invariant LoopEnded(Configured(), first, cycles, Going, GateOf(wait))
        invariant Trace() == t.Plus(StartupTrail(Configured(), first, cycles)) && |cycles| == n
      {
        ghost var g, c, s := GateOf(wait), NO_CYCLE, StartupTrail(Configured(), first, cycles);
        GateFields(wait);
        var stop := ReadFlag();
        if stop {
          LoopStops(Configured(), first, cycles, GateOf(wait));
          TraceLog(t, s);
          return Stop, cycles;
        }
        outcome, c := TimedStartupCycle(wait);
        PhaseCases(outcome, GateOf(wait));
        LoopContinues(Configured(), first, cycles, g, c, outcome, GateOf(wait), t);
        cycles := cycles + [c];
        if !outcome.Going? {
          return;
        }
      }
      LoopStops(Configured(), first, cycles, GateOf(wait));
      outcome := Stop;
    }

    lemma TraceLog(t: Trail, s: Trail)
      requires Trace() == t.Plus(s).Plus(Noted([FlagRead(true)]))
      ensures machine.log == t.log + s.log + [FlagRead(true)]
    {
    }

    /** The stop flag; nothing about the schedule depends on it. */
    method ReadFlag() returns (stop: bool)
      requires OnTime()
      modifies machine
      ensures OnTime() && OnSchedule() && TimesOk() && machine.log == old(machine.log) + [FlagRead(stop)]
      ensures Trace() == old(Trace()).Plus(Noted([FlagRead(stop)]))
    {
      hide Increasing, AllInPhase, Before, OnSchedule, ToNs;
      stop := machine.Stopped();
      TimesStay(origin, periodUs, old(machine.log), FlagRead(stop));
    }

    method ReadClock() returns (now: Option<Timespec>)
      requires OnTime()
      modifies machine
      ensures OnTime() && machine.log == old(machine.log) + [ClockRead(now)]
    {
      hide Increasing, AllInPhase, Before, OnSchedule, ToNs;
      now := machine.Monotonic();
      TimesStay(origin, periodUs, old(machine.log), ClockRead(now));
    }

    // ---------- runtime ----------

    /** The end of a cycle applies a pending reset: the timing aggregates and their published copies are zero
        before the ticket is acknowledged. */
    method ApplyReset(bus: SharedBus, port: ResetPort) returns (ghost ticket: nat, applied: bool)
      requires statistics.Valid()
      modifies statistics, bus, port
      ensures statistics.Valid() && statistics.missedDeadlines == old(statistics.missedDeadlines) && applied == (ticket > 0)
      ensures port.log == old(port.log) + [Asked(ticket)] + if applied then [Acknowledged(ticket, ZEROS)] else []
      ensures applied ==> statistics.values == [] && bus.Shown() == ZEROS
      ensures applied ==> statistics.minimum == statistics.maximum == statistics.average == statistics.current == 0.0
      ensures !applied ==> unchanged(statistics) && unchanged(bus)
    {
      var asked := port.Pending();
      ticket := asked;
      if asked == 0 {
        return ticket, false;
      }
      statistics.ResetTiming();
      bus.minimum, bus.maximum, bus.average, bus.current := 0.0, 0.0, 0.0, 0.0;
      port.Acknowledge(asked, bus);
      return ticket, true;
    }

    /** Accounts the cycle and publishes its statistics; a pending reset, and nothing else, clears them after that. */
    method Publish(cycleUs: real, bus: SharedBus, port: ResetPort) returns (ghost ticket: nat)
      requires statistics.Valid()
      modifies statistics, bus, port
      ensures statistics.Valid() && statistics.missedDeadlines == old(statistics.missedDeadlines)
      ensures ticket == 0 ==> statistics.values == old(statistics.values) + [cycleUs] && statistics.current == cycleUs
      ensures ticket > 0 ==> statistics.values == [] && bus.Shown() == ZEROS
      ensures port.log == old(port.log) + [Asked(ticket)] + if ticket > 0 then [Acknowledged(ticket, ZEROS)] else []
      ensures Handshaken(true, old(statistics.values), statistics.values, old(port.log), port.log, cycleUs, ticket)
      ensures bus.Shown() == Cells(statistics.minimum, statistics.maximum, statistics.average, statistics.current)
    {
      hide Describes;
      statistics.Account(cycleUs);
      bus.minimum, bus.maximum := statistics.minimum, statistics.maximum;
      bus.average, bus.current := statistics.average, statistics.current;
      var applied;
      ticket, applied := ApplyReset(bus, port);
    }

    /** Sleep, exchange, publish, send, notify: what one runtime cycle does, with the times it took. */
    method RuntimeWork(bus: SharedBus, port: ResetPort) returns (outcome: Outcome, stamps: Stamps, ghost w: Work)
      requires statistics.Valid()
      modifies machine, statistics, bus, port
      ensures statistics.Valid() && statistics.missedDeadlines == old(statistics.missedDeadlines) && !outcome.Open?
      ensures Adds(old(machine.log), machine.log, w.Planned(ToNs(deadline), shared), outcome)
      ensures outcome.Going? ==> w.Timed() && stamps == w.Stamped(ElapsedUs(lastWake, w.wake.value))
      ensures !w.flag && ((!outcome.Going? && statistics.values == old(statistics.values) && port.log == old(port.log)) ||
        (w.wake.Some? && Handshaken(shared, old(statistics.values), statistics.values, old(port.log), port.log,
                                    ElapsedUs(lastWake, w.wake.value), w.ticket)))
      ensures outcome.Going? ==> if shared
        then bus.Shown() == Cells(statistics.minimum, statistics.maximum, statistics.average, statistics.current)
        else statistics.current == ElapsedUs(lastWake, w.wake.value)
    {
      hide Describes, ToNs, CycleStatistics.Valid, ElapsedUs, Adds, Wakes, Receives, Publishes, Sends, Handshaken;
      w := NO_WORK;
      stamps := Stamps(deadline, 0.0, 0.0, 0.0, 0.0, NO_STATE);
      var wake;
      outcome, wake, w := RuntimeWake(w);
      ghost var woken, nominal := machine.log, ToNs(deadline);
      if !outcome.Going? {
        AddsStops(old(machine.log), woken, Wakes(nominal, w.stop, w.sleepRc, w.wake, w.timeSet), w.Exchanges(shared), outcome);
        return;
      }
      var cycleUs := ElapsedUs(lastWake, wake);
      statistics.Measure(cycleUs);
      outcome, stamps, w := RuntimeExchange(wake, cycleUs, bus, port, w);
      AddsThen(old(machine.log), woken, machine.log, Wakes(nominal, w.stop, w.sleepRc, w.wake, w.timeSet),
               w.Exchanges(shared), outcome);
    }

    method RuntimeWake(ghost before: Work) returns (outcome: Outcome, time: Timespec, ghost w: Work)
      modifies machine
      ensures w == before.(stop := w.stop, sleepRc := w.sleepRc, wake := w.wake, timeSet := w.timeSet) && !outcome.Open?
      ensures Adds(old(machine.log), machine.log, Wakes(ToNs(deadline), w.stop, w.sleepRc, w.wake, w.timeSet), outcome)
      ensures outcome.Going? ==> w.wake == Some(time)
    {
      hide *;
      w, time := before, deadline;
      ghost var log, nominal := machine.log, ToNs(deadline);
      var stop, rc := machine.Sleep(deadline);
      w := w.(stop := stop, sleepRc := rc);
      WakeCases(log, nominal, w.stop, w.sleepRc, w.wake, w.timeSet);
      if stop {
        return Stop, time, w;
      }
      if rc != 0 {
        return Give(SleepError(rc)), time, w;
      }
      var wake := machine.Monotonic();
      w := w.(wake := wake);
      WakeCases(log, nominal, w.stop, w.sleepRc, w.wake, w.timeSet);
      if wake.None? {
        return Give(Errno), time, w;
      }
      var timeSet := machine.SetApplicationTime(deadline);
      w := w.(timeSet := timeSet);
      WakeCases(log, nominal, w.stop, w.sleepRc, w.wake, w.timeSet);
      outcome, time := if timeSet then Going else Give(Eio), wake.value;
    }

    method RuntimeExchange(wake: Timespec, cycleUs: real, bus: SharedBus, port: ResetPort, ghost before: Work)
      returns (outcome: Outcome, stamps: Stamps, ghost w: Work)
      requires statistics.Valid() && before.wake == Some(wake)
      modifies machine, statistics, bus, port
      ensures statistics.Valid() && statistics.missedDeadlines == old(statistics.missedDeadlines) && !outcome.Open?
      ensures w.(flag := before.flag, stop := before.stop, sleepRc := before.sleepRc, wake := before.wake,
                 timeSet := before.timeSet) == w
      ensures Adds(old(machine.log), machine.log, w.Exchanges(shared), outcome)
      ensures Handshaken(shared, old(statistics.values), statistics.values, old(port.log), port.log, cycleUs, w.ticket) ||
        (!outcome.Going? && statistics.values == old(statistics.values) && port.log == old(port.log))
      ensures outcome.Going? && shared ==>
        bus.Shown() == Cells(statistics.minimum, statistics.maximum, statistics.average, statistics.current)
      ensures outcome.Going? ==> w.Timed() && stamps == w.Stamped(cycleUs)
      ensures !shared ==> statistics.current == old(statistics.current)
    {
      hide *;
      ghost var log := machine.log;
      w := before;
      stamps := Stamps(wake, cycleUs, 0.0, 0.0, 0.0, NO_STATE);
      var begin, end, pdoEnd;
      outcome, begin, end, pdoEnd, w := RuntimeReceive(wake, w);
      ghost var received := machine.log;
      WorkIs(w, shared);
      if !outcome.Going? {
        AddsStops(log, received, Receives(w.receiveBegin, w.receiveEnd, w.pdoEnd), Publishes(shared, w.state, w.wallRead), outcome);
        AddsStops(log, received, w.Received(shared), Sends(w.sendBegin, w.sent, w.sendEnd), outcome);
        return;
      }
      var state;
      outcome, state, w := RuntimePublish(cycleUs, bus, port, w);
      ghost var published := machine.log;
      WorkIs(w, shared);
      AddsThen(log, received, published, Receives(w.receiveBegin, w.receiveEnd, w.pdoEnd),
               Publishes(shared, w.state, w.wallRead), outcome);
      if !outcome.Going? {
        AddsStops(log, published, w.Received(shared), Sends(w.sendBegin, w.sent, w.sendEnd), outcome);
        return;
      }
      var sendBegin, sendEnd;
      outcome, sendBegin, sendEnd, w := RuntimeSend(wake, w);
      WorkIs(w, shared);
      AddsThen(log, published, machine.log, w.Received(shared), Sends(w.sendBegin, w.sent, w.sendEnd), outcome);
      if outcome.Going? {
        StampedIs(w, wake, begin, end, pdoEnd, sendBegin, sendEnd, cycleUs);
      }
      stamps := Stamps(wake, cycleUs, ElapsedUs(begin, end), ElapsedUs(end, pdoEnd), ElapsedUs(sendBegin, sendEnd), state);
    }

    method RuntimeReceive(wake: Timespec, ghost before: Work)
      returns (outcome: Outcome, begin: Timespec, end: Timespec, pdoEnd: Timespec, ghost w: Work)
      modifies machine
      ensures w == before.(receiveBegin := w.receiveBegin, receiveEnd := w.receiveEnd, pdoEnd := w.pdoEnd) && !outcome.Open?
      ensures Adds(old(machine.log), machine.log, Receives(w.receiveBegin, w.receiveEnd, w.pdoEnd), outcome)
      ensures outcome.Going? ==> w.receiveBegin == Some(begin) && w.receiveEnd == Some(end) && w.pdoEnd == Some(pdoEnd)
    {
      hide *;
      w, begin, end, pdoEnd := before, wake, wake, wake;
      ghost var log := machine.log;
      var t0 := machine.Monotonic();
      w := w.(receiveBegin := t0);
      ReceiveCases(log, w.receiveBegin, w.receiveEnd, w.pdoEnd);
      if t0.None? {
        return Give(Errno), begin, end, pdoEnd, w;
      }
      machine.ReceiveAndProcess();
      var t1 := machine.Monotonic();
      w := w.(receiveEnd := t1);
      ReceiveCases(log, w.receiveBegin, w.receiveEnd, w.pdoEnd);
      if t1.None? {
        return Give(Errno), begin, end, pdoEnd, w;
      }
      machine.ExchangeProcessData();
      var t2 := machine.Monotonic();
      w := w.(pdoEnd := t2);
      ReceiveCases(log, w.receiveBegin, w.receiveEnd, w.pdoEnd);
      if t2.None? {
        return Give(Errno), begin, end, pdoEnd, w;
      }
      outcome, begin, end, pdoEnd := Going, t0.value, t1.value, t2.value;
    }

    method RuntimePublish(cycleUs: real, bus: SharedBus, port: ResetPort, ghost before: Work)
      returns (outcome: Outcome, state: BusState, ghost w: Work)
      requires statistics.Valid()
      modifies machine, statistics, bus, port
      ensures statistics.Valid() && statistics.missedDeadlines == old(statistics.missedDeadlines) && !outcome.Open?
      ensures w == before.(state := state, wallRead := w.wallRead, ticket := w.ticket)
      ensures if outcome.Going?
        then Handshaken(shared, old(statistics.values), statistics.values, old(port.log), port.log, cycleUs, w.ticket)
        else statistics.values == old(statistics.values) && port.log == old(port.log)
      ensures !shared ==> statistics.current == old(statistics.current)
      ensures shared && outcome.Going? ==>
        bus.Shown() == Cells(statistics.minimum, statistics.maximum, statistics.average, statistics.current)
      ensures Adds(old(machine.log), machine.log, Publishes(shared, w.state, w.wallRead), outcome)
    {
      hide *;
      NotHandshaken(statistics.values, port.log, cycleUs, before.ticket);
      w := before;
      ghost var log := machine.log;
      state := machine.ReadState();
      w := w.(state := state);
      PublishCases(log, shared, w.state, w.wallRead);
      outcome := Going;
      if shared {
        var wallRead := machine.WallClock();
        w := w.(wallRead := wallRead);
        PublishCases(log, shared, w.state, w.wallRead);
        if !wallRead {
          return Give(Errno), state, w;
        }
        ghost var ticket := Publish(cycleUs, bus, port);
        w := w.(ticket := ticket);
      }
    }

    lemma NotHandshaken(values: seq<real>, log: seq<Handshake>, cycleUs: real, ticket: nat)
      ensures Handshaken(false, values, values, log, log, cycleUs, ticket)
    {
    }

    method RuntimeSend(wake: Timespec, ghost before: Work)
      returns (outcome: Outcome, begin: Timespec, end: Timespec, ghost w: Work)
      modifies machine
      ensures w == before.(sendBegin := w.sendBegin, sent := w.sent, sendEnd := w.sendEnd) && !outcome.Open?
      ensures Adds(old(machine.log), machine.log, Sends(w.sendBegin, w.sent, w.sendEnd), outcome)
      ensures outcome.Going? ==> w.sendBegin == Some(begin) && w.sendEnd == Some(end)
    {
      hide *;
      w, begin, end := before, wake, wake;
      ghost var log := machine.log;
      var t3 := machine.Monotonic();
      w := w.(sendBegin := t3);
      SendCases(log, w.sendBegin, w.sent, w.sendEnd);
      if t3.None? {
        return Give(Errno), begin, end, w;
      }
      var sent := machine.QueueAndSend();
      w := w.(sent := sent);
      SendCases(log, w.sendBegin, w.sent, w.sendEnd);
      if !sent {
        return Give(Eio), begin, end, w;
      }
      var t4 := machine.Monotonic();
      w := w.(sendEnd := t4);
      SendCases(log, w.sendBegin, w.sent, w.sendEnd);
      if t4.None? {
        return Give(Errno), begin, end, w;
      }
      machine.NotifyClients();
      outcome, begin, end := Going, t3.value, t4.value;
    }

    /** What the books are about. */
    ghost function DeskOf(window: Window, reporter: Reporter): Desk
      reads this`deadline, this`lastWake, this`windowStart, this`cycles, window`counts, window.cycle`values, window.task`values
      reads window.receive`values, window.pdo`values, window.send`values, reporter
    {
      Desk(deadline, lastWake, windowStart, cycles,
           Samples(window.cycle.values, window.task.values, window.receive.values, window.pdo.values, window.send.values,
                   window.counts), reporter.offered)
    }

    /** Windows, totals and reports agree with each other and with the cycles completed. */
    ghost predicate Books(window: Window, reporter: Reporter, before: nat)
      reads this`totalWcErrors, this`totalLinkDown, this`cycles, statistics`missedDeadlines, window`counts, reporter
    {
      Balanced(Counts(before, 0, 0), reporter.offered, window.counts,
               Counts(statistics.missedDeadlines, totalWcErrors, totalLinkDown), cycles)
    }

    /** The books at the end of a cycle, and a report once a second. */
    method RuntimeAccount(finish: Timespec, stamps: Stamps, window: Window, reporter: Reporter, ghost before: nat)
      requires OnSchedule() && window.Valid() && Books(window, reporter, before)
      modifies this`deadline, this`finishes, this`lastWake, this`windowStart, this`totalWcErrors, this`totalLinkDown
      modifies this`cycles, statistics`missedDeadlines, reporter
      modifies window, window.cycle, window.task, window.receive, window.pdo, window.send
      ensures OnSchedule() && window.Valid() && Books(window, reporter, before)
      ensures ToNs(deadline) > ToNs(old(deadline)) && finishes == old(finishes) + [finish]
      ensures statistics.missedDeadlines >= old(statistics.missedDeadlines)
      ensures cycles == old(cycles) + [CountsOf(statistics.missedDeadlines - old(statistics.missedDeadlines), stamps.state)]
      ensures ToNs(finish) - ToNs(old(windowStart)) >= SECOND <==> |reporter.offered| == |old(reporter.offered)| + 1
      ensures Entered(old(DeskOf(window, reporter)), DeskOf(window, reporter), periodUs, finish, stamps)
    {
      hide Told, Summarizes, Balanced, OnSchedule, Describes, TimingSummary.Valid, Window.Valid, Counts.Plus, ToNs, ElapsedUs, AdvanceDeadline,
        Books, CountsOf;
      var missed := CountCycle(finish, stamps, window, reporter, before);
      if ToNs(finish) - ToNs(windowStart) >= SECOND {
        CloseWindow(finish, stamps.state, window, reporter, before);
      }
    }

    /** Advances the deadline and enters the cycle in the window and the totals. */
    method CountCycle(finish: Timespec, stamps: Stamps, window: Window, reporter: Reporter, ghost before: nat)
      returns (missed: nat)
      requires OnSchedule() && window.Valid() && Books(window, reporter, before)
      modifies this`deadline, this`finishes, this`lastWake, this`totalWcErrors, this`totalLinkDown
      modifies this`cycles, statistics`missedDeadlines
      modifies window, window.cycle, window.task, window.receive, window.pdo, window.send
      ensures OnSchedule() && window.Valid() && Books(window, reporter, before) && lastWake == stamps.wake
      ensures ToNs(deadline) > ToNs(old(deadline)) && finishes == old(finishes) + [finish]
      ensures statistics.missedDeadlines == old(statistics.missedDeadlines) + missed
      ensures cycles == old(cycles) + [CountsOf(missed, stamps.state)]
      ensures window.cycle.values == old(window.cycle.values) + [stamps.cycleUs]
      ensures window.task.values == old(window.task.values) + [ElapsedUs(stamps.wake, finish)]
      ensures window.receive.values == old(window.receive.values) + [stamps.receiveUs]
      ensures window.pdo.values == old(window.pdo.values) + [stamps.pdoUs]
      ensures window.send.values == old(window.send.values) + [stamps.sendUs]
      ensures window.counts == old(window.counts).Plus(CountsOf(missed, stamps.state))
      ensures AdvanceDeadline(old(deadline), periodUs, finish) == Schedule.Advance(deadline, missed)
    {
      hide Balanced, OnSchedule, Describes, TimingSummary.Valid, Window.Valid, Counts.Plus, ToNs, ElapsedUs, AdvanceDeadline;
      ghost var missedSoFar := statistics.missedDeadlines;
      missed := Advance(finish);
      lastWake := stamps.wake;
      var wcError := !stamps.state.inputState.WcComplete? || !stamps.state.outputState.WcComplete?;
      var linkDown := !stamps.state.linkUp;
      var c := Counts(missed, if wcError then 1 else 0, if linkDown then 1 else 0);
      PlusIs(missedSoFar, totalWcErrors, totalLinkDown, c);
      BalancedCycle(Counts(before, 0, 0), reporter.offered, window.counts,
                    Counts(missedSoFar, totalWcErrors, totalLinkDown), cycles, c);
      window.Add(stamps.cycleUs, ElapsedUs(stamps.wake, finish), stamps.receiveUs, stamps.pdoUs, stamps.sendUs, c);
      totalWcErrors, totalLinkDown := totalWcErrors + c.wcErrors, totalLinkDown + c.linkDown;
      cycles := cycles + [c];
    }

    method CloseWindow(finish: Timespec, state: BusState, window: Window, reporter: Reporter, ghost before: nat)
      requires window.Valid() && Books(window, reporter, before) && ToNs(finish) - ToNs(windowStart) >= SECOND
      modifies this`windowStart, reporter, window, window.cycle, window.task, window.receive, window.pdo, window.send
      ensures window.Valid() && Books(window, reporter, before) && windowStart == finish
      ensures |reporter.offered| == |old(reporter.offered)| + 1 && old(reporter.offered) <= reporter.offered
      ensures Told(reporter.offered[|old(reporter.offered)|],
                   Heading(ElapsedUs(old(windowStart), finish) / 1000000.0, state, old(DeskOf(window, reporter).open)))
      ensures DeskOf(window, reporter).open == NO_SAMPLES
    {
      hide Summarizes, Balanced, Describes, TimingSummary.Valid, Counts.Plus, ToNs, ElapsedUs;
      var totals := Counts(statistics.missedDeadlines, totalWcErrors, totalLinkDown);
      ghost var counted := window.counts;
      ASecond(windowStart, finish);
      var r := window.Close(ElapsedUs(windowStart, finish) / 1000000.0, state, totals);
      BalancedPublish(Counts(before, 0, 0), reporter.offered, counted, totals, cycles, r);
      var accepted := reporter.Publish(r);
      windowStart := finish;
    }

    /** One cycle behind the gate, after a clear stop flag: its notes, in order, up to the first that ends it; and if
        it comes to its end, what it adds to the books. */
    method RuntimeCycle(bus: SharedBus, port: ResetPort, window: Window, reporter: Reporter, ghost before: nat)
      returns (outcome: Outcome, ghost w: Work)
      requires statistics.Valid() && OnTime() && GatedData(machine.log) && OpenGate(machine.log)
      requires window.Valid() && Books(window, reporter, before)
      modifies machine, statistics, bus, port, reporter, this`deadline, this`finishes, this`lastWake, this`windowStart
      modifies this`totalWcErrors, this`totalLinkDown, this`cycles
      modifies window, window.cycle, window.task, window.receive, window.pdo, window.send
      ensures statistics.Valid() && TimesOk() && (outcome.Going? ==> OnTime()) && OnSchedule() && !outcome.Open?
      ensures GatedData(machine.log) && OpenGate(machine.log) && window.Valid() && Books(window, reporter, before)
      ensures Adds(old(machine.log), machine.log, w.Planned(ToNs(old(deadline)), shared) + [ClockRead(w.finish)], outcome)
      ensures !w.flag && Advanced(old(DeskOf(window, reporter)), DeskOf(window, reporter), w, outcome)
      ensures finishes == old(finishes) + if outcome.Going? then [w.finish.value] else []
      ensures HandshakeOk(old(statistics.values), old(port.log), port, old(lastWake), w, outcome)
      ensures outcome.Going? ==> if shared
        then bus.Shown() == Cells(statistics.minimum, statistics.maximum, statistics.average, statistics.current)
        else statistics.current == ElapsedUs(old(lastWake), w.wake.value)
    {
      hide Increasing, AllInPhase, Before, GatedData, OpenGate, Balanced, After, FirstDeadline, ToNs, Window.Valid,
        CycleStatistics.Valid, Adds, SetsOnly, Work.Planned, InPhase, Entered, Handshaken, ElapsedUs, AdvanceDeadline;
      ghost var log, nominal := machine.log, ToNs(deadline);
      DeadlineInPhase();
      var stamps;
      outcome, stamps, w := RuntimeWork(bus, port);
      WorkIsGated(log, machine.log, nominal, shared, w, outcome);
      TimesGrow(origin, periodUs, log, machine.log[|log|..], nominal);
      if !outcome.Going? {
        AddsStops(log, machine.log, w.Planned(nominal, shared), [ClockRead(w.finish)], outcome);
        return;
      }
      ghost var done := machine.log;
      var finish := machine.Monotonic();
      TimesStay(origin, periodUs, done, ClockRead(finish));
      GatedSnoc(done, ClockRead(finish));
      ClockEnds(log, done, w.Planned(nominal, shared), finish);
      FinishIsLast(w, finish, nominal, shared);
      w := w.(finish := finish);
      if finish.None? {
        return Give(Errno), w;
      }
      RuntimeAccount(finish.value, stamps, window, reporter, before);
    }

    /** The books after a cycle: entered if it came to its end, and else as they were. */
    ghost predicate Advanced(d: Desk, d': Desk, w: Work, outcome: Outcome) {
      if outcome.Going? then
        && w.Timed() && w.finish.Some?
        && Entered(d, d', periodUs, w.finish.value, w.Stamped(ElapsedUs(d.wake, w.wake.value)))
      else d' == d
    }

    /** A completed cycle, and one that failed after it, accounted its time and asked for a reset, on a shared bus. */
    ghost predicate HandshakeOk(values: seq<real>, log: seq<Handshake>, port: ResetPort, last: Timespec, w: Work,
                                outcome: Outcome)
      reads statistics`values, port
    {
      || (!outcome.Going? && statistics.values == values && port.log == log)
      || (w.wake.Some? && Handshaken(shared, values, statistics.values, log, port.log, ElapsedUs(last, w.wake.value), w.ticket))
    }

    method RuntimeLoop(bus: SharedBus, port: ResetPort, window: Window, reporter: Reporter, ghost before: nat, lifetime: nat,
                       ghost m: Meter)
      returns (outcome: Outcome, ghost laps: seq<Lap>, ghost tail: seq<Note>, ghost w: Work)
      requires statistics.Valid() && OnTime() && GatedData(machine.log) && OpenGate(machine.log)
      requires window.Valid() && Books(window, reporter, before)
      requires Matches(DeskOf(window, reporter), m) && m.timed == statistics.values && m.asked == []
      modifies machine, statistics, bus, port, reporter, this`deadline, this`finishes, this`lastWake, this`windowStart
      modifies this`totalWcErrors, this`totalLinkDown, this`cycles
      modifies window, window.cycle, window.task, window.receive, window.pdo, window.send
      ensures !outcome.Going? && !outcome.Open? && TimesOk() && OnSchedule()
      ensures GatedData(machine.log) && OpenGate(machine.log) && Books(window, reporter, before)
      ensures machine.log == old(machine.log) + LapsLog(m, periodUs, shared, laps) + tail
      ensures Matches(DeskOf(window, reporter), Metered(m, periodUs, shared, laps))
      ensures finishes == old(finishes) + Finishes(laps)
      ensures AskedBy(old(port.log), port.log, Metered(m, periodUs, shared, laps).asked, tail, w)
      ensures (tail == [] && outcome == Stop && |laps| == lifetime) ||
        LoopEnds(Metered(m, periodUs, shared, laps), shared, tail, w, outcome)
    {
      hide *;
      laps, tail, w := [], [], NO_WORK;
      NoLaps(m, periodUs, shared, machine.log, finishes, port.log);
      ghost var meter := m;
      for n := 0 to lifetime
        invariant statistics.Valid() && OnTime() && GatedData(machine.log) && OpenGate(machine.log)
        invariant window.Valid() && Books(window, reporter, before)
        invariant |laps| == n && tail == [] && meter == Metered(m, periodUs, shared, laps)
        invariant machine.log == old(machine.log) + LapsLog(m, periodUs, shared, laps)
        invariant Matches(DeskOf(window, reporter), meter) && finishes == old(finishes) + Finishes(laps)
        invariant meter.timed == statistics.values && port.log == old(port.log) + meter.asked
      {
        ghost var log, desk, values, asked := machine.log, DeskOf(window, reporter), statistics.values, port.log;
        DeskIs(window, reporter);
        var stop := ReadFlag();
        GatedSnoc(log, FlagRead(stop));
        if stop {
          w, tail := NO_WORK.(flag := true), [FlagRead(true)];
          FlagEnds(meter, shared, w);
          NothingAsked(old(port.log), meter.asked, tail, w);
          return Stop, laps, tail, w;
        }
        outcome, w := RuntimeCycle(bus, port, window, reporter, before);
        AdvancedMeans(desk, DeskOf(window, reporter), w, outcome);
        HandshakeMeans(values, asked, port, desk.wake, w, outcome);
        FlagThen(log, machine.log, w, ToNs(desk.deadline), shared, outcome);
        if !outcome.Going? {
          tail := LapBreaks(old(machine.log), log, machine.log, m, periodUs, shared, laps, w, desk, outcome);
          AskedOnce(old(port.log), asked, port.log, values, statistics.values, meter.asked, desk.wake, tail, w);
          return;
        }
        LapAdds(old(machine.log), log, machine.log, m, periodUs, shared, laps, w, desk, DeskOf(window, reporter));
        LapShakes(old(port.log), asked, port.log, values, statistics.values, m, periodUs, shared, laps, w, desk);
        FinishesSnoc(old(finishes), laps, w);
        laps := laps + [LapOf(w)];
        meter := Metered(m, periodUs, shared, laps);
      }
      NothingAsked(old(port.log), meter.asked, tail, w);
      outcome := StopsHere();
    }

    /** At the end of its lifetime the loop stops as if told to. */
    method StopsHere() returns (outcome: Outcome)
      requires OnTime()
      ensures outcome == Stop && OnSchedule() && TimesOk()
    {
      outcome := Stop;
    }

    lemma DeskIs(window: Window, reporter: Reporter)
      ensures DeskOf(window, reporter).deadline == deadline && DeskOf(window, reporter).wake == lastWake
    {
    }

    lemma AdvancedMeans(d: Desk, d': Desk, w: Work, outcome: Outcome)
      requires Advanced(d, d', w, outcome)
      ensures !outcome.Going? ==> d' == d
      ensures outcome.Going? ==>
        w.Timed() && w.finish.Some? && Entered(d, d', periodUs, w.finish.value, w.Stamped(ElapsedUs(d.wake, w.wake.value)))
    {
    }

    lemma HandshakeMeans(values: seq<real>, log: seq<Handshake>, port: ResetPort, last: Timespec, w: Work, outcome: Outcome)
      requires HandshakeOk(values, log, port, last, w, outcome)
      ensures (!outcome.Going? && statistics.values == values && port.log == log) || (w.wake.Some? &&
        Handshaken(shared, values, statistics.values, log, port.log, ElapsedUs(last, w.wake.value), w.ticket))
    {
    }

    lemma NothingAsked(before: seq<Handshake>, asked: seq<Handshake>, tail: seq<Note>, w: Work)
      ensures AskedBy(before, before + asked, asked, tail, w)
    {
    }

    lemma AskedOnce(base: seq<Handshake>, before: seq<Handshake>, after: seq<Handshake>, values: seq<real>,
                    values': seq<real>, asked: seq<Handshake>, last: Timespec, tail: seq<Note>, w: Work)
      requires before == base + asked && tail != []
      requires after == before || (w.wake.Some? &&
        Handshaken(shared, values, values', before, after, ElapsedUs(last, w.wake.value), w.ticket))
      ensures AskedBy(base, after, asked, tail, w)
    {
    }

    /** The handshakes are those of the completed cycles, and at most one more of the cycle that ended the loop. */
    ghost predicate AskedBy(before: seq<Handshake>, after: seq<Handshake>, asked: seq<Handshake>, tail: seq<Note>, w: Work) {
      after == before + asked || (shared && tail != [] && after == before + asked + Shaken(w.ticket))
    }

    // ---------- the task ----------

    /** The startup loop, from `now` on: all that was asked and done is what the cycles say. */
    method RunStartup(now: Timespec, lifetime: nat) returns (outcome: Outcome, ghost opening: Gate, ghost seen: seq<Cycle>)
      requires verification.Valid() && periodUs > 0 && machine.log == [ClockRead(Some(now))]
      modifies machine, sdo, verification, this, statistics`missedDeadlines
      ensures verification.Valid() && !outcome.Going? && old(verification.Fields()).Valid()
      ensures opening == Opening(now, old(verification.Fields()), old(statistics.missedDeadlines))
      ensures Ended(Configured(), opening, seen, outcome, verification.Fields())
      ensures var t := Trail([ClockRead(Some(now))], old(sdo.calls), []).Plus(StartupTrail(Configured(), opening, seen));
        Trace() == t || (outcome.Stop? && Trace() == t.Plus(Noted([FlagRead(true)])))
      ensures outcome.Stop? && Startup(Configured(), opening, seen).Starting? && |seen| != lifetime ==>
        machine.log == [ClockRead(Some(now))] + StartupTrail(Configured(), opening, seen).log + [FlagRead(true)]
      ensures Quiet(machine.log) && start == now && missedBefore == old(statistics.missedDeadlines)
      ensures OnSchedule() && TimesOk()
      ensures outcome.Open? ==> OnTime() && seen != [] && seen[|seen| - 1].wake == Some(lastWake)
    {
      hide CycleOf, Startup, AdvanceDeadline, ToNs, LoopEnded, StartupTrail, Trail.Plus;
      GateFieldsValid();
      var next := FromNs(ToNs(now) + PeriodNs(periodUs));
      if origin != 0 {
        // the periods that activation took are passed over, on the grid of the origin
        next := AdvanceDeadline(FromNs(origin), periodUs, now).deadline;
      }
      deadline, lastWake, warm := next, now, 0;
      start, first, finishes, missedBefore := now, deadline, [], statistics.missedDeadlines;
      var wait := new StartupWait(ToNs(now), opTimeoutMs);
      opening := GateOf(wait);
      outcome, seen := StartupLoop(wait, lifetime);
      StartupIsQuiet(Configured(), opening, seen);
      QuietAfterClock(ClockRead(Some(now)), old(sdo.calls), StartupTrail(Configured(), opening, seen));
    }

    lemma QuietAfterClock(clock: Note, calls: seq<Call>, t: Trail)
      requires clock.ClockRead? && Quiet(t.log)
      ensures Quiet(Trail([clock], calls, []).Plus(t).log)
      ensures Quiet(Trail([clock], calls, []).Plus(t).Plus(Noted([FlagRead(true)])).log)
    {
    }

    /** The gate at the start of the loop. */
    ghost function Opening(now: Timespec, verifier: Verifier, missed: nat): (g: Gate)
      ensures g.verifier == verifier && g.wait.stable == 0 && g.warm == 0
    {
      Gate(Wait(ToNs(now) + opTimeoutMs * 1000000, 0), verifier, 0, FirstDeadline(origin, periodUs, now), missed)
    }

    lemma GateFieldsValid()
      requires verification.Valid()
      ensures verification.Fields().Valid()
    {
    }

    /** The startup ended so, with the verification as it is now. */
    ghost predicate Ended(config: Config, first: Gate, seen: seq<Cycle>, outcome: Outcome, verifier: Verifier)
      requires first.verifier.Valid()
    {
      exists g: Gate :: g.verifier == verifier && LoopEnded(config, first, seen, outcome, g)
    }

    lemma OpenMeansEvidence(opening: Gate, seen: seq<Cycle>) returns (steps: nat)
      requires opening.verifier.Valid() && Ended(Configured(), opening, seen, Open, verification.Fields())
      ensures Initial(opening) ==> Evidence(Configured(), opening, seen, steps)
    {
      steps := 0;
      hide CycleOf, Startup, Evidence, Initial;
      if Initial(opening) {
        steps := OpenGateIsEarned(Configured(), opening, seen);
      }
    }

    /** What a run means whose gate stayed shut, after a first reading of the clock: the log and the calls to the SDO
        requests are exactly those of the startup cycles, and the outcome is theirs; or the stop flag was set. */
    ghost predicate ShutBy(opening: Gate, seen: seq<Cycle>, calls: seq<Call>, outcome: Outcome, lifetime: nat)
      requires opening.verifier.Valid()
      reads machine, sdo, verification, this`start
    {
      var t := StartupTrail(Configured(), opening, seen);
      && sdo.calls == calls + t.calls
      && ((machine.log == [ClockRead(Some(start))] + t.log && !outcome.Open? && Ended(Configured(), opening, seen, outcome, verification.Fields()) &&
           (outcome.Stop? && Startup(Configured(), opening, seen).Starting? ==> |seen| == lifetime)) ||
          (machine.log == [ClockRead(Some(start))] + t.log + [FlagRead(true)] && outcome.Stop? &&
           (Ended(Configured(), opening, seen, Stop, verification.Fields()) || Ended(Configured(), opening, seen, Open, verification.Fields()))))
    }

    /** What an open gate means: the calls to the SDO requests are exactly those of the startup cycles, which opened the
        gate in the last of them and, from a fresh verification, on evidence. */
    ghost predicate OpenedBy(opening: Gate, seen: seq<Cycle>, steps: nat, calls: seq<Call>)
      requires opening.verifier.Valid()
      reads sdo, verification
    {
      && Ended(Configured(), opening, seen, Open, verification.Fields()) && seen != [] && seen[|seen| - 1].wake.Some?
      && (Fresh(opening.verifier) ==> Evidence(Configured(), opening, seen, steps))
      && sdo.calls == calls + StartupTrail(Configured(), opening, seen).calls
    }

    /** The books at the gate. */
    ghost function AtGate(deadline: Timespec, wake: Timespec, begin: Timespec, timed: seq<real>): Meter {
      Meter(deadline, wake, begin, [], NO_SAMPLES, [], timed, [])
    }

    /** What a run did behind the gate: its log from there on is the clock, the completed cycles and the answers of the
        one that ended it, with the outcome that belongs to the last of these; and deadline, counts, reports and
        handshakes are those of the completed cycles. */
    ghost predicate BehindGate(log: seq<Note>, finished: seq<Timespec>, asked: seq<Handshake>, m: Meter,
                               begin: Option<Timespec>, laps: seq<Lap>, tail: seq<Note>, w: Work, outcome: Outcome,
                               lifetime: nat, reporter: Reporter, port: ResetPort)
      reads machine, this`deadline, this`lastWake, this`windowStart, this`cycles, this`finishes, reporter, port
    {
      if begin.None? then
        && machine.log == log + [ClockRead(None)] && outcome == Give(Errno) && laps == [] && reporter.offered == []
        && finishes == finished && port.log == asked
      else
        var now := Metered(m, periodUs, shared, laps);
        && machine.log == log + [ClockRead(begin)] + LapsLog(m, periodUs, shared, laps) + tail
        && ((tail == [] && outcome == Stop && |laps| == lifetime) || LoopEnds(now, shared, tail, w, outcome))
        && deadline == now.deadline && lastWake == now.wake && windowStart == now.since && cycles == now.cycles
        && AllTold(reporter.offered, now.headings) && finishes == finished + Finishes(laps)
        && AskedBy(asked, port.log, now.asked, tail, w)
    }

    /** The whole task. Until the gate opens no client data moves; if it opens, what was asked and answered up to then
        earned that; deadlines and application times keep their grid; and what the task returns, reports and counts
        is what follows from the answers in its log: those of the startup cycles, and behind the gate those of the
        completed cycles and of the one that ended it. */
    method Run(bus: SharedBus, port: ResetPort, reporter: Reporter, lifetime: nat)
      returns (outcome: Outcome, ghost seen: seq<Cycle>, ghost steps: nat, ghost begin: Option<Timespec>,
               ghost laps: seq<Lap>, ghost tail: seq<Note>, ghost w: Work)
      requires verification.Valid() && statistics.Valid()
      requires machine.log == [] && reporter.offered == []
      modifies machine, sdo, verification, this, statistics, bus, port, reporter
      ensures outcome.Stop? || outcome.Give?
      ensures GatedData(machine.log) && TimesOk() && old(verification.Fields()).Valid()
      ensures !OpenGate(machine.log) ==> reporter.offered == []
      ensures var missed := old(statistics.missedDeadlines);
        var opening := Opening(start, old(verification.Fields()), missed);
        var t := StartupTrail(Configured(), opening, seen);
        var due := After(first, periodUs, t.finishes);
        if periodUs < 1000 || opTimeoutMs == 0 then outcome == Give(Einval) && machine.log == []
        else if machine.log == [ClockRead(None)] then outcome == Give(Errno)
        else if !OpenGate(machine.log) then ShutBy(opening, seen, old(sdo.calls), outcome, lifetime)
        else
          && OnSchedule() && missedBefore == missed && OpenedBy(opening, seen, steps, old(sdo.calls)) && |t.finishes| == |seen|
          && BehindGate([ClockRead(Some(start))] + t.log + [FlagRead(false)] + [GatePassed], t.finishes, old(port.log),
                        AtGate(due.deadline, seen[|seen| - 1].wake.value, if begin.Some? then begin.value else start,
                               old(statistics.values)), begin, laps, tail, w, outcome, lifetime, reporter, port)
          && AllBooked(Counts(missed + due.missed, 0, 0), reporter)
    {
      hide *;
      seen, steps, begin, laps, tail, w := [], 0, None, [], [], NO_WORK;
      GateFieldsValid();
      NothingYet();
      if periodUs < MIN_PERIOD_US || opTimeoutMs == 0 {
        outcome := Give(Einval);
        return;
      }
      var now := machine.Monotonic();
      NothingButClock(now);
      if now.None? {
        outcome := Give(Errno);
        return;
      }
      ghost var opening;
      outcome, opening, seen := RunStartup(now.value, lifetime);
      QuietIsShut(machine.log);
      StartsWithClock(opening, seen, old(sdo.calls), outcome);
      if !outcome.Open? {
        ShutAfter(opening, seen, old(sdo.calls), outcome, lifetime);
        return;
      }
      ghost var log := machine.log;
      var stop := ReadFlag();
      GatedSnoc(log, FlagRead(stop));
      if stop {
        ShutByFlag(opening, seen, old(sdo.calls), lifetime);
        outcome := Stop;
        return;
      }
      steps := OpenMeansEvidence(opening, seen);
      AtTheGate(opening, seen, old(sdo.calls));
      outcome, begin, laps, tail, w := RunOpen(bus, port, reporter, lifetime);
      Opens(opening, seen, steps, old(sdo.calls), log);
    }

    lemma NothingYet()
      requires machine.log == []
      ensures MIN_PERIOD_US == 1000
      ensures TimesOk() && GatedData(machine.log) && !OpenGate(machine.log)
    {
    }

    lemma NothingButClock(now: Option<Timespec>)
      requires machine.log == [] + [ClockRead(now)]
      ensures machine.log == [ClockRead(now)] && (now.Some? ==> machine.log == [ClockRead(Some(now.value))])
      ensures TimesOk() && GatedData(machine.log) && !OpenGate(machine.log)
    {
    }

    lemma AtTheGate(opening: Gate, seen: seq<Cycle>, calls: seq<Call>)
      requires opening.verifier.Valid() && Ended(Configured(), opening, seen, Open, verification.Fields()) && OnSchedule()
      requires Trace() == Trail([ClockRead(Some(start))], calls, []).Plus(StartupTrail(Configured(), opening, seen))
                                .Plus(Noted([FlagRead(false)]))
      ensures var t := StartupTrail(Configured(), opening, seen);
        && machine.log == [ClockRead(Some(start))] + t.log + [FlagRead(false)] && sdo.calls == calls + t.calls
        && finishes == t.finishes && |finishes| == |seen|
        && statistics.missedDeadlines == missedBefore + After(first, periodUs, t.finishes).missed
        && deadline == After(first, periodUs, t.finishes).deadline
    {
      hide CycleOf, Startup, StartupTrail, After, FirstDeadline;
      StartupFinishes(Configured(), opening, seen);
    }

    /** The log of a run that went beyond the first clock reading. */
    lemma StartsWithClock(opening: Gate, seen: seq<Cycle>, calls: seq<Call>, outcome: Outcome)
      requires opening.verifier.Valid()
      requires var t := Trail([ClockRead(Some(start))], calls, []).Plus(StartupTrail(Configured(), opening, seen));
        Trace() == t || (outcome.Stop? && Trace() == t.Plus(Noted([FlagRead(true)])))
      ensures machine.log != [ClockRead(None)]
      ensures var t := StartupTrail(Configured(), opening, seen);
        && sdo.calls == calls + t.calls && finishes == t.finishes
        && (machine.log == [ClockRead(Some(start))] + t.log ||
            (outcome.Stop? && machine.log == [ClockRead(Some(start))] + t.log + [FlagRead(true)]))
    {
      hide StartupTrail;
      assert machine.log[0] == ClockRead(Some(start));
    }

    lemma ShutAfter(opening: Gate, seen: seq<Cycle>, calls: seq<Call>, outcome: Outcome, lifetime: nat)
      requires opening.verifier.Valid() && Ended(Configured(), opening, seen, outcome, verification.Fields()) && !outcome.Open?
      requires var t := StartupTrail(Configured(), opening, seen);
        && sdo.calls == calls + t.calls
        && (machine.log == [ClockRead(Some(start))] + t.log ||
            (outcome.Stop? && machine.log == [ClockRead(Some(start))] + t.log + [FlagRead(true)]))
        && (outcome.Stop? && Startup(Configured(), opening, seen).Starting? ==>
              |seen| == lifetime || machine.log == [ClockRead(Some(start))] + t.log + [FlagRead(true)])
      ensures ShutBy(opening, seen, calls, outcome, lifetime)
    {
      hide StartupTrail, Startup, Ended;
    }

    lemma ShutByFlag(opening: Gate, seen: seq<Cycle>, calls: seq<Call>, lifetime: nat)
      requires opening.verifier.Valid() && Ended(Configured(), opening, seen, Open, verification.Fields())
      requires var t := StartupTrail(Configured(), opening, seen);
        sdo.calls == calls + t.calls && machine.log == [ClockRead(Some(start))] + t.log + [FlagRead(true)]
      ensures ShutBy(opening, seen, calls, Stop, lifetime)
      ensures machine.log != [ClockRead(None)]
    {
      hide StartupTrail, Startup, Ended;
      assert machine.log[0] == ClockRead(Some(start));
    }

    lemma Opens(opening: Gate, seen: seq<Cycle>, steps: nat, calls: seq<Call>, log: seq<Note>)
      requires opening.verifier.Valid() && Ended(Configured(), opening, seen, Open, verification.Fields())
      requires Initial(opening) ==> Evidence(Configured(), opening, seen, steps)
      requires opening.wait.stable == 0 && opening.warm == 0 && seen != [] && seen[|seen| - 1].wake.Some?
      requires sdo.calls == calls + StartupTrail(Configured(), opening, seen).calls
      requires log == [ClockRead(Some(start))] + StartupTrail(Configured(), opening, seen).log && log <= machine.log
      ensures OpenedBy(opening, seen, steps, calls) && machine.log != [ClockRead(None)]
    {
      hide CycleOf, Startup, StartupTrail, Evidence;
      assert machine.log[0] == log[0] == ClockRead(Some(start));
    }

    method RunOpen(bus: SharedBus, port: ResetPort, reporter: Reporter, lifetime: nat)
      returns (outcome: Outcome, ghost begin: Option<Timespec>, ghost laps: seq<Lap>, ghost tail: seq<Note>, ghost w: Work)
      requires statistics.Valid() && OnTime() && GatedData(machine.log) && reporter.offered == []
      modifies machine, statistics, bus, port, reporter, this`deadline, this`finishes, this`lastWake, this`windowStart
      modifies this`totalWcErrors, this`totalLinkDown, this`cycles
      ensures (outcome.Stop? || outcome.Give?) && TimesOk() && OnSchedule()
      ensures old(machine.log) <= machine.log && GatedData(machine.log) && OpenGate(machine.log)
      ensures BehindGate(old(machine.log) + [GatePassed], old(finishes), old(port.log),
                         AtGate(old(deadline), old(lastWake), if begin.Some? then begin.value else start, old(statistics.values)),
                         begin, laps, tail, w, outcome, lifetime, reporter, port)
      ensures AllBooked(Counts(old(statistics.missedDeadlines), 0, 0), reporter)
    {
      hide GatedData, OpenGate, Increasing, AllInPhase, Before, OnSchedule, Balanced, Window.Valid, CycleStatistics.Valid,
        LapsLog, Metered, LoopEnds, AskedBy, Finishes, AllTold;
      laps, tail, w := [], [], NO_WORK;
      ghost var before := statistics.missedDeadlines;
      GatedSnoc(machine.log, GatePassed);
      TimesStay(origin, periodUs, machine.log, GatePassed);
      machine.Open();
      totalWcErrors, totalLinkDown, cycles := 0, 0, [];
      BalancedAtStart(Counts(before, 0, 0), reporter.offered, cycles);
      ghost var log := machine.log;
      var now := ReadClock();
      begin := now;
      GatedSnoc(log, ClockRead(now));
      if now.None? {
        assert Balanced(Counts(before, 0, 0), reporter.offered, NOTHING,
                        Counts(statistics.missedDeadlines, totalWcErrors, totalLinkDown), cycles);
        outcome := Give(Errno);
        return;
      }
      windowStart := now.value;
      var window := new Window();
      ghost var m := AtGate(deadline, lastWake, now.value, statistics.values);
      NothingTold(m, reporter.offered);
      outcome, laps, tail, w := RuntimeLoop(bus, port, window, reporter, before, lifetime, m);
    }

    lemma NothingTold(m: Meter, offered: seq<Report>)
      requires m.headings == [] && offered == []
      ensures AllTold(offered, m.headings)
    {
    }

    /** Reports, totals and runtime cycles agree, on top of what was counted before the first cycle. */
    ghost predicate AllBooked(base: Counts, reporter: Reporter)
      reads this`totalWcErrors, this`totalLinkDown, this`cycles, statistics`missedDeadlines, reporter
    {
      exists window ::
        Balanced(base, reporter.offered, window, Counts(statistics.missedDeadlines, totalWcErrors, totalLinkDown), cycles)
    }
  }

  const NO_CYCLE := Cycle(false, 0, None, false, false, 0, Health(false, NO_STATE), None, Answer(0, 0, Unused, 0, None),
                          false, None)

  /** Data is exchanged after receiving and clients are told after sending, within these notes. */
  ghost predicate Framed(notes: seq<Note>) {
    && (forall i | 0 <= i < |notes| && notes[i].DataExchanged? :: i > 1 && notes[i - 2].FramesReceived?)
    && (forall i | 0 <= i < |notes| && notes[i].ClientsNotified? :: i > 1 && notes[i - 2].FramesSent?)
  }

  ghost predicate Unset(notes: seq<Note>) {
    forall i | 0 <= i < |notes| :: !notes[i].TimeSet?
  }

  lemma FramedJoin(a: seq<Note>, b: seq<Note>, nominal: int)
    requires Framed(a) && SetsOnly(a, nominal) && Framed(b) && Unset(b)
    ensures Framed(a + b) && SetsOnly(a + b, nominal)
  {
  }

  lemma PiecesAreFramed(nominal: int, shared: bool, w: Work)
    ensures var wakes := Wakes(nominal, w.stop, w.sleepRc, w.wake, w.timeSet); Framed(wakes) && SetsOnly(wakes, nominal)
    ensures var receives := Receives(w.receiveBegin, w.receiveEnd, w.pdoEnd); Framed(receives) && Unset(receives)
    ensures var publishes := Publishes(shared, w.state, w.wallRead); Framed(publishes) && Unset(publishes)
    ensures var sends := Sends(w.sendBegin, w.sent, w.sendEnd); Framed(sends) && Unset(sends)
  {
  }

  /** Where data is exchanged and clients are told in a planned cycle, and which time it sets. */
  lemma PlanIsFramed(nominal: int, shared: bool, w: Work)
    ensures Framed(w.Planned(nominal, shared)) && SetsOnly(w.Planned(nominal, shared), nominal)
  {
    hide Framed, Unset, SetsOnly, Wakes, Receives, Publishes, Sends;
    PiecesAreFramed(nominal, shared, w);
    var wakes, receives := Wakes(nominal, w.stop, w.sleepRc, w.wake, w.timeSet), Receives(w.receiveBegin, w.receiveEnd, w.pdoEnd);
    var publishes, sends := Publishes(shared, w.state, w.wallRead), Sends(w.sendBegin, w.sent, w.sendEnd);
    FramedJoin(wakes, receives, nominal);
    FramedJoin(wakes + receives, publishes, nominal);
    FramedJoin(wakes + receives + publishes, sends, nominal);
    assert w.Planned(nominal, shared) == wakes + receives + publishes + sends;
  }

  /** The same of what was taken of the plan; and clients are told only if sending succeeded. */
  lemma TakenIsFramed(notes: seq<Note>, planned: seq<Note>, nominal: int, outcome: Outcome)
    requires Taken(notes, planned, outcome) && Framed(planned) && SetsOnly(planned, nominal)
    ensures Framed(notes) && SetsOnly(notes, nominal)
    ensures forall i | 1 < i < |notes| && notes[i].ClientsNotified? :: notes[i - 2] == FramesSent(true)
  {
    assert forall i | 0 <= i < |notes| :: notes[i] == planned[i];
    forall i | 1 < i < |notes| && notes[i].ClientsNotified? ensures notes[i - 2] == FramesSent(true) {
      assert Verdict(notes[i - 2]).Going?;
    }
  }

  lemma GatedJoin(log: seq<Note>, notes: seq<Note>)
    requires GatedData(log) && OpenGate(log) && Framed(notes)
    requires forall i | 1 < i < |notes| && notes[i].ClientsNotified? :: notes[i - 2] == FramesSent(true)
    ensures GatedData(log + notes) && OpenGate(log + notes)
  {
    hide OpenBefore;
    var after := log + notes;
    OpenGrows(log, notes, |log|, |after|);
    forall i | 0 <= i < |after| && (after[i].DataExchanged? || after[i].ClientsNotified?)
      ensures OpenBefore(after, i) && i > 1
      ensures after[i].DataExchanged? ==> after[i - 2].FramesReceived?
      ensures after[i].ClientsNotified? ==> after[i - 2] == FramesSent(true)
    {
      if i < |log| {
        assert log[i] == after[i];
        OpenGrows(log, notes, i, i);
      } else {
        OpenGrows(log, notes, |log|, i);
        assert notes[i - |log|] == after[i];
      }
    }
  }

  /** What a runtime cycle did keeps data behind the gate and sets one time, wherever the cycle ended. */
  lemma WorkIsGated(log: seq<Note>, after: seq<Note>, nominal: int, shared: bool, w: Work, outcome: Outcome)
    requires GatedData(log) && OpenGate(log) && Adds(log, after, w.Planned(nominal, shared), outcome)
    ensures after == log + after[|log|..] && GatedData(after) && OpenGate(after) && SetsOnly(after[|log|..], nominal)
  {
    hide GatedData, OpenBefore, OpenGate, Work.Planned, Framed, SetsOnly, Taken;
    PlanIsFramed(nominal, shared, w);
    TakenIsFramed(after[|log|..], w.Planned(nominal, shared), nominal, outcome);
    GatedJoin(log, after[|log|..]);
  }

  lemma OpenGrows(log: seq<Note>, notes: seq<Note>, i: nat, j: nat)
    requires i <= |log| && i <= j && OpenBefore(log, i)
    ensures OpenBefore(log + notes, j)
  {
    var k: nat :| k < i && k < |log| && log[k].GatePassed?;
    assert (log + notes)[k].GatePassed?;
  }

  lemma GatedSnoc(log: seq<Note>, note: Note)
    requires GatedData(log) && !note.DataExchanged? && !note.ClientsNotified?
    ensures GatedData(log + [note])
    ensures OpenGate(log + [note]) <==> OpenGate(log) || note.GatePassed?
  {
    hide OpenBefore;
    forall i | 0 <= i < |log| && OpenBefore(log, i) ensures OpenBefore(log + [note], i) {
      OpenGrows(log, [note], i, i);
    }
    OpenSnoc(log, note);
  }

  lemma OpenSnoc(log: seq<Note>, note: Note)
    ensures OpenGate(log + [note]) <==> OpenGate(log) || note.GatePassed?
  {
    if OpenGate(log) {
      OpenGrows(log, [note], |log|, |log| + 1);
    }
    assert (log + [note])[|log|] == note;
  }

  lemma QuietIsShut(log: seq<Note>)
    requires Quiet(log)
    ensures GatedData(log) && !OpenGate(log)
  {
    assert forall i | 0 <= i < |log| :: log[i] in log;
  }
}
