/** The statistics reset handshake between one command worker and the cyclic thread, under every interleaving
    of their atomic steps. The cyclic side applies a pending request at the end of a cycle; its reset and each
    of its four stores to shared memory are separate steps. */
module StatisticsReset {
  datatype Outcome = StateMismatch | DeadlineExceeded | Busy | OutcomeUnknown | ResultOk

  /** Where the worker is inside `execute`. */
  datatype Worker =
    | Idle
    | PastStop                      // stop was clear
    | PastDeadline                  // and the deadline not reached
    | Loaded(previous: nat)         // `requested` was read
    | Checked(previous: nat)        // and was acknowledged
    | Polling(ticket: nat)          // about to read `acknowledged`
    | Pausing(ticket: nat)          // it was not there yet

  /** Where the cyclic thread is inside the end of its cycle. */
  datatype Cyclic =
    | Working
    | Fetched(ticket: nat)          // `requested` was read
    | Clearing(ticket: nat)         // and is pending
    | Zeroing(ticket: nat, cell: nat)

  const CELLS: nat := 4

  /** The timing aggregates, and apart from them the missed deadlines. */
  datatype Statistics = Statistics(cycles: nat, minimum: real, maximum: real, average: real, current: real, missed: nat)

  function Cleared(s: Statistics): Statistics {
    Statistics(0, 0.0, 0.0, 0.0, 0.0, s.missed)
  }

  /** What has happened for the latest request so far. */
  datatype Progress = Progress(ticket: nat, cleared: bool, zeroed: nat, acknowledged: bool)

  /** `applied` lists the tickets in the order they were acknowledged, `outcomes` what `execute` returned. */
  datatype State = State(requested: nat, acknowledged: nat, worker: Worker, cyclic: Cyclic,
                         statistics: Statistics, shared: seq<real>,
                         progress: Progress, applied: seq<nat>, outcomes: seq<Outcome>)

  const INITIAL := State(0, 0, Idle, Working, Statistics(0, 0.0, 0.0, 0.0, 0.0, 0), [0.0, 0.0, 0.0, 0.0],
                         Progress(0, false, 0, false), [], [])

  /** The worker's step, with what it reads from the stop flag and the clock; or a step of the cyclic thread,
      which between two resets publishes whatever timing it likes and adds to the missed deadlines. */
  datatype Action =
    | WorkerStep(stop: bool, late: bool)
    | CycleWork(timing: Statistics, missed: nat, shared: seq<real>)
    | CyclicStep

  function Return(s: State, outcome: Outcome): State {
    s.(worker := Idle, outcomes := s.outcomes + [outcome])
  }

  function WorkerNext(s: State, stop: bool, late: bool): State {
    match s.worker
    case Idle => if stop then Return(s, StateMismatch) else s.(worker := PastStop)
    case PastStop => if late then Return(s, DeadlineExceeded) else s.(worker := PastDeadline)
    case PastDeadline => s.(worker := Loaded(s.requested))
    case Loaded(previous) => if s.acknowledged != previous then Return(s, Busy) else s.(worker := Checked(previous))
    case Checked(previous) =>
      s.(requested := previous + 1, worker := Polling(previous + 1), progress := Progress(previous + 1, false, 0, false))
    case Polling(ticket) => if s.acknowledged == ticket then Return(s, ResultOk) else s.(worker := Pausing(ticket))
    case Pausing(ticket) => if stop || late then Return(s, OutcomeUnknown) else s.(worker := Polling(ticket))
  }

  function CyclicNext(s: State): State {
    match s.cyclic
    case Working => s.(cyclic := Fetched(s.requested))
    case Fetched(ticket) =>
      if ticket != s.acknowledged && ticket != 0 then s.(cyclic := Clearing(ticket)) else s.(cyclic := Working)
    case Clearing(ticket) =>
      s.(statistics := Cleared(s.statistics), cyclic := Zeroing(ticket, 0),
         progress := if s.progress.ticket == ticket then s.progress.(cleared := true) else s.progress)
    case Zeroing(ticket, cell) =>
      if cell < CELLS then
        s.(shared := if cell < |s.shared| then s.shared[cell := 0.0] else s.shared, cyclic := Zeroing(ticket, cell + 1),
           progress := if s.progress.ticket == ticket && s.progress.cleared then s.progress.(zeroed := cell + 1) else s.progress)
      else
        s.(acknowledged := ticket, cyclic := Working, applied := s.applied + [ticket],
           progress := if s.progress.ticket == ticket then s.progress.(acknowledged := true) else s.progress)
  }

  function Next(s: State, a: Action): State {
    match a
    case WorkerStep(stop, late) => WorkerNext(s, stop, late)
    case CyclicStep => CyclicNext(s)
    case CycleWork(timing, missed, shared) =>
      if s.cyclic.Working? && |shared| == CELLS
      then s.(statistics := timing.(missed := s.statistics.missed + missed), shared := shared) else s
  }

  function Run(actions: seq<Action>): State {
    if actions == [] then INITIAL else Next(Run(actions[..|actions| - 1]), actions[|actions| - 1])
  }

  /** The cyclic thread is at work on the pending request. */
  predicate Serving(s: State, ticket: nat) {
    ticket == s.requested == s.acknowledged + 1
  }

  predicate Zeroed(s: State, cells: nat) {
    && s.statistics == Cleared(s.statistics) && |s.shared| == CELLS && cells <= CELLS
    && forall i | 0 <= i < cells :: s.shared[i] == 0.0
  }

  ghost predicate Consistent(s: State) {
    && s.acknowledged <= s.requested <= s.acknowledged + 1
    && s.applied == seq(s.acknowledged, i requires 0 <= i < s.acknowledged => i + 1)
    && s.progress.ticket == s.requested
    && (s.requested > 0 && s.acknowledged == s.requested ==> s.progress == Progress(s.requested, true, CELLS, true))
    && (s.requested > s.acknowledged && !s.cyclic.Zeroing? ==> s.progress == Progress(s.requested, false, 0, false))
    && match s.worker {
         case Loaded(previous) => previous == s.requested
         case Checked(previous) => previous == s.requested == s.acknowledged
         case Polling(ticket) => 0 < ticket == s.requested
         case Pausing(ticket) => 0 < ticket == s.requested
         case _ => true
       }
    && match s.cyclic {
         case Working => true
         case Fetched(ticket) => ticket == s.requested || ticket == s.acknowledged
         case Clearing(ticket) => Serving(s, ticket)
         case Zeroing(ticket, cell) =>
           Serving(s, ticket) && Zeroed(s, cell) && s.progress == Progress(ticket, true, cell, false)
       }
    && |s.shared| == CELLS
  }

  lemma WorkerKeeps(s: State, stop: bool, late: bool)
    requires Consistent(s)
    ensures Consistent(WorkerNext(s, stop, late))
  {
  }

  lemma CyclicKeeps(s: State)
    requires Consistent(s)
    ensures Consistent(CyclicNext(s))
  {
  }

  lemma {:induction false} RunConsistent(actions: seq<Action>)
    ensures Consistent(Run(actions))
  {
    if actions != [] {
      var s, a := Run(actions[..|actions| - 1]), actions[|actions| - 1];
      RunConsistent(actions[..|actions| - 1]);
      hide Consistent, WorkerNext, CyclicNext, Run;
      match a
      case WorkerStep(stop, late) => WorkerKeeps(s, stop, late);
      case CyclicStep => CyclicKeeps(s);
      case CycleWork(_, _, _) => WorkKeeps(s, a);
    } else {
      InitiallyConsistent();
    }
  }

  lemma InitiallyConsistent()
    ensures Consistent(INITIAL)
  {
  }

  lemma WorkKeeps(s: State, a: Action)
    requires Consistent(s) && a.CycleWork?
    ensures Consistent(Next(s, a))
  {
  }

  /** At most one request is pending, and every ticket so far was applied exactly once, in order, or is the
      pending one. */
  lemma TicketsAppliedOnce(actions: seq<Action>)
    ensures var s := Run(actions);
      && s.acknowledged <= s.requested <= s.acknowledged + 1
      && |s.applied| == s.acknowledged && forall i | 0 <= i < s.acknowledged :: s.applied[i] == i + 1
  {
    RunConsistent(actions);
  }

  /** When `execute` returns RESULT_OK, the statistics were cleared and all four zeros published after its own
      request and before the return. */
  lemma OkMeansApplied(actions: seq<Action>, stop: bool, late: bool)
    requires var s := Run(actions);
      s.worker.Polling? && WorkerNext(s, stop, late) == Return(s, ResultOk)
    ensures var s := Run(actions); s.progress == Progress(s.worker.ticket, true, 4, true)
  {
    RunConsistent(actions);
    var s := Run(actions);
    hide Run;
    assert Return(s, ResultOk).worker.Idle?;
  }

  /** At the moment of the acknowledgement shared memory shows zeros. */
  lemma AcknowledgedWhileZero(actions: seq<Action>)
    requires CyclicNext(Run(actions)).acknowledged != Run(actions).acknowledged
    ensures var s := Run(actions);
      && s.shared == [0.0, 0.0, 0.0, 0.0] && s.statistics == Statistics(0, 0.0, 0.0, 0.0, 0.0, s.statistics.missed)
      && s.progress.cleared && s.progress.zeroed == 4
  {
    RunConsistent(actions);
  }

  // ---------- after an unknown outcome ----------

  function From(s: State, actions: seq<Action>): State {
    if actions == [] then s else Next(From(s, actions[..|actions| - 1]), actions[|actions| - 1])
  }

  /** The deadlines missed in the cycles of a run. */
  function Missed(s: State, actions: seq<Action>): nat {
    if actions == [] then 0
    else
      var before, last := actions[..|actions| - 1], actions[|actions| - 1];
      Missed(s, before) + if last.CycleWork? && Next(From(s, before), last) != From(s, before) then last.missed else 0
  }

  /** However many resets are applied on the way, and wherever they are interrupted, the count of missed deadlines
      is what it was plus what the cycles of the run missed. */
  lemma {:induction false} MissedSurvives(s: State, actions: seq<Action>)
    ensures From(s, actions).statistics.missed == s.statistics.missed + Missed(s, actions)
  {
    if actions != [] {
      MissedSurvives(s, actions[..|actions| - 1]);
    }
  }

  /** The worker is past no point where it could still submit. */
  predicate CannotSubmit(s: State) {
    s.requested == s.acknowledged + 1 && !s.worker.Checked? && !s.worker.Polling? && !s.worker.Pausing?
  }

  lemma BlockedStep(s: State, a: Action)
    requires Consistent(s) && CannotSubmit(s) && Next(s, a).acknowledged == s.acknowledged
    ensures Consistent(Next(s, a)) && CannotSubmit(Next(s, a)) && Next(s, a).requested == s.requested
    ensures s.outcomes <= Next(s, a).outcomes
    ensures forall i | |s.outcomes| <= i < |Next(s, a).outcomes| ::
      Next(s, a).outcomes[i] in {StateMismatch, DeadlineExceeded, Busy}
    ensures s.worker.Loaded? && a.WorkerStep? ==> Next(s, a) == Return(s, Busy)
  {
    match a
    case WorkerStep(stop, late) => WorkerKeeps(s, stop, late);
    case CyclicStep => CyclicKeeps(s);
    case CycleWork(_, _, _) => WorkKeeps(s, a);
  }

  lemma {:induction false} AcknowledgedGrows(s: State, actions: seq<Action>, n: nat)
    requires Consistent(s) && n <= |actions|
    ensures Consistent(From(s, actions)) && From(s, actions[..n]).acknowledged <= From(s, actions).acknowledged
    decreases |actions|
  {
    if n < |actions| {
      var before, last := actions[..|actions| - 1], actions[|actions| - 1];
      AcknowledgedGrows(s, before, n);
      assert before[..n] == actions[..n];
      hide Consistent;
      KeepsAndGrows(From(s, before), last);
    } else if actions != [] {
      assert actions[..n] == actions;
      AcknowledgedGrows(s, actions[..|actions| - 1], 0);
      hide Consistent;
      KeepsAndGrows(From(s, actions[..|actions| - 1]), actions[|actions| - 1]);
    }
  }

  lemma KeepsAndGrows(s: State, a: Action)
    requires Consistent(s)
    ensures Consistent(Next(s, a)) && s.acknowledged <= Next(s, a).acknowledged
  {
    match a
    case WorkerStep(stop, late) => WorkerKeeps(s, stop, late);
    case CyclicStep => CyclicKeeps(s);
    case CycleWork(_, _, _) => WorkKeeps(s, a);
  }

  /** If action k is the worker comparing the tickets, the call ends there with BUSY. */
  predicate BusyAt(s: State, actions: seq<Action>, k: nat)
    requires k < |actions|
  {
    var at := From(s, actions[..k]);
    at.worker.Loaded? && actions[k].WorkerStep? ==> Next(at, actions[k]) == Return(at, Busy)
  }

  /** After OUTCOME_UNKNOWN, and until the cyclic thread acknowledges, no further request is submitted: every
      later call that gets past the stop flag and the deadline, and so comes to compare the two tickets, answers
      BUSY right there. */
  lemma {:induction false} BusyUntilAcknowledged(s: State, actions: seq<Action>)
    requires Consistent(s) && CannotSubmit(s) && From(s, actions).acknowledged == s.acknowledged
    ensures var r := From(s, actions);
      && r.requested == s.requested && CannotSubmit(r) && Consistent(r) && s.outcomes <= r.outcomes
      && forall i | |s.outcomes| <= i < |r.outcomes| :: r.outcomes[i] in {StateMismatch, DeadlineExceeded, Busy}
    ensures forall k | 0 <= k < |actions| :: BusyAt(s, actions, k)
  {
    if actions != [] {
      var before, last := actions[..|actions| - 1], actions[|actions| - 1];
      AcknowledgedGrows(s, actions, |actions| - 1);
      AcknowledgedGrows(s, before, 0);
      hide Consistent, Next;
      BusyUntilAcknowledged(s, before);
      BlockedStep(From(s, before), last);
      forall k | 0 <= k < |actions| ensures BusyAt(s, actions, k) {
        if k < |before| {
          assert BusyAt(s, before, k) && before[..k] == actions[..k];
        }
      }
    }
  }

  /** An unknown outcome leaves the request pending, or acknowledged meanwhile. */
  lemma UnknownLeavesPending(actions: seq<Action>, stop: bool, late: bool)
    requires Run(actions).worker.Pausing? && (stop || late) && Run(actions).acknowledged < Run(actions).requested
    ensures Consistent(WorkerNext(Run(actions), stop, late)) && CannotSubmit(WorkerNext(Run(actions), stop, late))
  {
    RunConsistent(actions);
    WorkerKeeps(Run(actions), stop, late);
  }

  // ---------- what a call returns ----------

  /** What the worker reads or does in one step. */
  datatype Reading =
    | StopRead(stop: bool)
    | ClockRead(late: bool)
    | RequestRead
    | Compared(equal: bool)
    | Submitted
    | Polled(acknowledged: bool)
    | Paused(stop: bool, late: bool)

  function ReadingOf(s: State, stop: bool, late: bool): Reading {
    match s.worker
    case Idle => StopRead(stop)
    case PastStop => ClockRead(late)
    case PastDeadline => RequestRead
    case Loaded(previous) => Compared(s.acknowledged == previous)
    case Checked(_) => Submitted
    case Polling(ticket) => Polled(s.acknowledged == ticket)
    case Pausing(_) => Paused(stop, late)
  }

  /** The readings of the latest call. */
  function Readings(actions: seq<Action>): seq<Reading> {
    if actions == [] then []
    else
      var before, last := actions[..|actions| - 1], actions[|actions| - 1];
      if !last.WorkerStep? then Readings(before)
      else (if Run(before).worker.Idle? then [] else Readings(before)) + [ReadingOf(Run(before), last.stop, last.late)]
  }

  /** One poll after another: not acknowledged, and no reason to give up. */
  predicate Waiting(polls: seq<Reading>) {
    |polls| % 2 == 0 &&
    forall i | 0 <= i < |polls| :: polls[i] == if i % 2 == 0 then Polled(false) else Paused(false, false)
  }

  /** What `execute` returns, read from top to bottom: stop flag, deadline, the comparison of the two tickets; then,
      with the request submitted, polls until it is acknowledged, or stop flag or deadline end the wait. */
  ghost predicate Returns(readings: seq<Reading>, outcome: Outcome) {
    match outcome
    case StateMismatch => readings == [StopRead(true)]
    case DeadlineExceeded => readings == [StopRead(false), ClockRead(true)]
    case Busy => readings == [StopRead(false), ClockRead(false), RequestRead, Compared(false)]
    case ResultOk => exists polls: seq<Reading> :: Waiting(polls) && WaitedThen(readings, polls, [Polled(true)])
    case OutcomeUnknown =>
      exists polls: seq<Reading>, stop: bool, late: bool :: (stop || late) && Waiting(polls) &&
        WaitedThen(readings, polls, [Polled(false), Paused(stop, late)])
  }

  predicate WaitedThen(readings: seq<Reading>, polls: seq<Reading>, end: seq<Reading>) {
    readings == [StopRead(false), ClockRead(false), RequestRead, Compared(true), Submitted] + polls + end
  }

  /** Where the worker is, by its readings. */
  ghost predicate Located(s: State, readings: seq<Reading>) {
    match s.worker
    case Idle => true
    case PastStop => readings == [StopRead(false)]
    case PastDeadline => readings == [StopRead(false), ClockRead(false)]
    case Loaded(_) => readings == [StopRead(false), ClockRead(false), RequestRead]
    case Checked(_) => readings == [StopRead(false), ClockRead(false), RequestRead, Compared(true)]
    case Polling(_) => exists polls: seq<Reading> :: Waiting(polls) && WaitedThen(readings, polls, [])
    case Pausing(_) => exists polls: seq<Reading> :: Waiting(polls) && WaitedThen(readings, polls, [Polled(false)])
  }

  lemma WorkerLocated(s: State, readings: seq<Reading>, stop: bool, late: bool)
    requires Located(s, readings)
    ensures var next := (if s.worker.Idle? then [] else readings) + [ReadingOf(s, stop, late)];
      && Located(WorkerNext(s, stop, late), next)
      && (WorkerNext(s, stop, late).outcomes == s.outcomes ||
          exists outcome :: WorkerNext(s, stop, late).outcomes == s.outcomes + [outcome] && Returns(next, outcome))
      && (WorkerNext(s, stop, late).outcomes != s.outcomes <==> WorkerNext(s, stop, late).worker.Idle?)
  {
    hide Waiting, WaitedThen;
    var s', reading := WorkerNext(s, stop, late), ReadingOf(s, stop, late);
    var next := (if s.worker.Idle? then [] else readings) + [reading];
    if s.worker.Polling? || s.worker.Pausing? {
      WaitLocated(s, readings, stop, late);
    } else if s.worker.Checked? {
      NoPolls(next);
    }
  }

  lemma NoPolls(readings: seq<Reading>)
    requires readings == [StopRead(false), ClockRead(false), RequestRead, Compared(true), Submitted]
    ensures Waiting([]) && WaitedThen(readings, [], [])
  {
    assert readings + [] + [] == readings;
  }

  lemma WaitLocated(s: State, readings: seq<Reading>, stop: bool, late: bool)
    requires Located(s, readings) && (s.worker.Polling? || s.worker.Pausing?)
    ensures var next := readings + [ReadingOf(s, stop, late)];
      && Located(WorkerNext(s, stop, late), next)
      && (WorkerNext(s, stop, late).worker.Idle? ==>
            exists outcome :: WorkerNext(s, stop, late).outcomes == s.outcomes + [outcome] && Returns(next, outcome))
  {
    var next := readings + [ReadingOf(s, stop, late)];
    if s.worker.Polling? {
      var polls: seq<Reading> :| Waiting(polls) && WaitedThen(readings, polls, []);
      assert WaitedThen(next, polls, [ReadingOf(s, stop, late)]);
    } else {
      var polls: seq<Reading> :| Waiting(polls) && WaitedThen(readings, polls, [Polled(false)]);
      var more := polls + [Polled(false), Paused(stop, late)];
      assert WaitedThen(next, polls, [Polled(false), Paused(stop, late)]);
      if !stop && !late {
        assert Waiting(more);
        assert WaitedThen(next, more, []);
      }
    }
  }

  lemma {:induction false} RunLocated(actions: seq<Action>)
    ensures Located(Run(actions), Readings(actions))
  {
    if actions != [] {
      var before, last := actions[..|actions| - 1], actions[|actions| - 1];
      RunLocated(before);
      hide Located;
      if last.WorkerStep? {
        WorkerLocated(Run(before), Readings(before), last.stop, last.late);
      } else {
        OtherStep(Run(before), last, Readings(before));
      }
    }
  }

  lemma OtherStep(s: State, a: Action, readings: seq<Reading>)
    requires Located(s, readings) && !a.WorkerStep?
    ensures Located(Next(s, a), readings) && Next(s, a).outcomes == s.outcomes
  {
  }

  /** In every interleaving each call returns exactly what `execute`, read as sequential text, returns on the values
      this call has read. */
  lemma CallsReturn(actions: seq<Action>, stop: bool, late: bool)
    ensures var s, s' := Run(actions), Run(actions + [WorkerStep(stop, late)]);
      if s'.worker.Idle?
      then exists outcome :: s'.outcomes == s.outcomes + [outcome] && Returns(Readings(actions + [WorkerStep(stop, late)]), outcome)
      else s'.outcomes == s.outcomes
  {
    var all := actions + [WorkerStep(stop, late)];
    assert all[..|actions|] == actions;
    RunLocated(actions);
    hide Located;
    WorkerLocated(Run(actions), Readings(actions), stop, late);
  }

  // ---------- the cyclic thread does its part ----------

  /** The steps of the cyclic thread until the ticket is acknowledged. */
  function Distance(s: State, ticket: nat): nat {
    if s.acknowledged >= ticket then 0
    else match s.cyclic
      case Working => 8
      case Fetched(t) => if t == s.acknowledged || t == 0 then 9 else 7
      case Clearing(_) => 6
      case Zeroing(_, cell) => if cell <= 4 then 5 - cell else 1
  }

  lemma CloserStep(s: State, a: Action, ticket: nat)
    requires Consistent(s) && ticket <= s.requested
    ensures Consistent(Next(s, a)) && ticket <= Next(s, a).requested
    ensures Distance(Next(s, a), ticket) <= Distance(s, ticket)
    ensures a.CyclicStep? && Distance(s, ticket) > 0 ==> Distance(Next(s, a), ticket) == Distance(s, ticket) - 1
  {
    match a
    case WorkerStep(stop, late) => WorkerKeeps(s, stop, late);
    case CyclicStep => CyclicKeeps(s);
    case CycleWork(_, _, _) => WorkKeeps(s, a);
  }

  function CyclicSteps(actions: seq<Action>): nat {
    if actions == [] then 0
    else CyclicSteps(actions[..|actions| - 1]) + if actions[|actions| - 1].CyclicStep? then 1 else 0
  }

  lemma {:induction false} Closer(s: State, actions: seq<Action>, ticket: nat)
    requires Consistent(s) && ticket <= s.requested
    ensures Consistent(From(s, actions)) && ticket <= From(s, actions).requested
    ensures Distance(From(s, actions), ticket) == 0 ||
            Distance(From(s, actions), ticket) + CyclicSteps(actions) <= Distance(s, ticket)
  {
    hide Consistent, Next, Distance;
    if actions != [] {
      var before, last := actions[..|actions| - 1], actions[|actions| - 1];
      Closer(s, before, ticket);
      CloserStep(From(s, before), last, ticket);
    }
  }

  /** Nine steps of the cyclic thread after a request was submitted, whatever lies between them, it is acknowledged. */
  lemma RequestsAreServed(s: State, actions: seq<Action>)
    requires Consistent(s) && CyclicSteps(actions) >= 9
    ensures From(s, actions).acknowledged >= s.requested
  {
    Closer(s, actions, s.requested);
    hide From, CyclicSteps, Consistent;
  }
}
