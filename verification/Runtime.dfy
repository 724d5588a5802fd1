/** The runtime loop on values: what one cycle asks and does, in which order and up to where, and what it adds to
    the books: deadline, report window, reports and statistics. */
module Runtime {
  import opened Bytes
  import opened Wrappers
  import opened Schedule
  import opened StartupGate
  import opened Timing
  import opened Windows
  import opened Plant

  datatype Outcome = Going | Open | Stop | Give(code: Code)

  /** What a note means for the task: going on, or ending with a code. */
  function Verdict(note: Note): (outcome: Outcome)
    ensures !outcome.Open?
  {
    match note
    case FlagRead(stop) => if stop then Stop else Going
    case Slept(stop, rc) => if stop then Stop else if rc != 0 then Give(SleepError(rc)) else Going
    case ClockRead(time) => if time.None? then Give(Errno) else Going
    case TimeSet(_, ok) => if ok then Going else Give(Eio)
    case WallRead(ok) => if ok then Going else Give(Errno)
    case FramesSent(ok) => if ok then Going else Give(Eio)
    case _ => Going
  }

  /** These notes were taken from a sequence of planned ones: all of them, or up to the first that ends it. */
  ghost predicate Taken(notes: seq<Note>, planned: seq<Note>, outcome: Outcome) {
    && notes != [] && notes <= planned && outcome == Verdict(notes[|notes| - 1])
    && (forall i | 0 <= i < |notes| - 1 :: Verdict(notes[i]).Going?) && (outcome.Going? ==> notes == planned)
  }

  ghost predicate Adds(before: seq<Note>, after: seq<Note>, planned: seq<Note>, outcome: Outcome) {
    before <= after && Taken(after[|before|..], planned, outcome)
  }

  lemma AddsThen(a: seq<Note>, b: seq<Note>, c: seq<Note>, first: seq<Note>, rest: seq<Note>, outcome: Outcome)
    requires Adds(a, b, first, Going) && Adds(b, c, rest, outcome)
    ensures Adds(a, c, first + rest, outcome)
  {
    hide Verdict;
    assert c[|a|..] == b[|a|..] + c[|b|..];
  }

  lemma AddsStops(a: seq<Note>, b: seq<Note>, first: seq<Note>, rest: seq<Note>, outcome: Outcome)
    requires Adds(a, b, first, outcome) && !outcome.Going?
    ensures Adds(a, b, first + rest, outcome)
  {
    hide Verdict;
  }

  const NO_STATE := BusState(false, 0, 0, 0, 0, WcZero, WcZero)

  // ---------- one cycle ----------

  /** What one cycle hands to the books: its samples, in microseconds, and the bus state. */
  datatype Stamps = Stamps(wake: Timespec, cycleUs: real, receiveUs: real, pdoUs: real, sendUs: real, state: BusState)

  /** Everything one runtime cycle asks of its surroundings; `ticket` is the reset it found pending, zero for none. */
  datatype Work = Work(flag: bool, stop: bool, sleepRc: int, wake: Option<Timespec>, timeSet: bool, receiveBegin: Option<Timespec>,
                       receiveEnd: Option<Timespec>, pdoEnd: Option<Timespec>, state: BusState, wallRead: bool,
                       ticket: nat, sendBegin: Option<Timespec>, sent: bool, sendEnd: Option<Timespec>,
                       finish: Option<Timespec>) {
    predicate Timed() {
      wake.Some? && receiveBegin.Some? && receiveEnd.Some? && pdoEnd.Some? && sendBegin.Some? && sendEnd.Some?
    }

    /** Which clock readings each timing sample lies between. */
    function Stamped(cycleUs: real): Stamps
      requires Timed()
    {
      Stamps(wake.value, cycleUs, ElapsedUs(receiveBegin.value, receiveEnd.value),
             ElapsedUs(receiveEnd.value, pdoEnd.value), ElapsedUs(sendBegin.value, sendEnd.value), state)
    }

    /** What a cycle does if nothing fails. */
    function Planned(nominal: int, shared: bool): seq<Note> {
      Wakes(nominal, stop, sleepRc, wake, timeSet) + Exchanges(shared)
    }

    /** The same with the stop flag before it and the clock after it. */
    function Whole(nominal: int, shared: bool): seq<Note> {
      [FlagRead(flag)] + Planned(nominal, shared) + [ClockRead(finish)]
    }

    function Exchanges(shared: bool): seq<Note> {
      Received(shared) + Sends(sendBegin, sent, sendEnd)
    }

    function Received(shared: bool): seq<Note> {
      Receives(receiveBegin, receiveEnd, pdoEnd) + Publishes(shared, state, wallRead)
    }
  }

  const NO_WORK := Work(false, false, 0, None, false, None, None, None, NO_STATE, false, 0, None, false, None, None)

  function Wakes(nominal: int, stop: bool, rc: int, wake: Option<Timespec>, timeSet: bool): seq<Note> {
    [Slept(stop, rc), ClockRead(wake), TimeSet(nominal, timeSet)]
  }

  function Receives(begin: Option<Timespec>, end: Option<Timespec>, pdoEnd: Option<Timespec>): seq<Note> {
    [ClockRead(begin), FramesReceived, ClockRead(end), DataExchanged, ClockRead(pdoEnd)]
  }

  function Publishes(shared: bool, state: BusState, wallRead: bool): seq<Note> {
    [StateRead(state)] + if shared then [WallRead(wallRead)] else []
  }

  function Sends(begin: Option<Timespec>, sent: bool, end: Option<Timespec>): seq<Note> {
    [ClockRead(begin), FramesSent(sent), ClockRead(end), ClientsNotified]
  }

  /** Taking the first n of the planned notes. */
  lemma TakesFirst(log: seq<Note>, planned: seq<Note>, n: nat)
    requires 0 < n <= |planned| && (forall i | 0 <= i < n - 1 :: Verdict(planned[i]).Going?)
    requires Verdict(planned[n - 1]).Going? ==> n == |planned|
    ensures Adds(log, log + planned[..n], planned, Verdict(planned[n - 1]))
  {
    hide Verdict;
    assert (log + planned[..n])[|log|..] == planned[..n];
  }

  lemma WorkIs(w: Work, shared: bool)
    ensures w.Received(shared) == Receives(w.receiveBegin, w.receiveEnd, w.pdoEnd) + Publishes(shared, w.state, w.wallRead)
    ensures w.Exchanges(shared) == w.Received(shared) + Sends(w.sendBegin, w.sent, w.sendEnd)
  {
  }

  lemma StampedIs(w: Work, wake: Timespec, begin: Timespec, end: Timespec, pdoEnd: Timespec, sendBegin: Timespec,
                  sendEnd: Timespec, cycleUs: real)
    requires w.wake == Some(wake) && w.receiveBegin == Some(begin) && w.receiveEnd == Some(end) && w.pdoEnd == Some(pdoEnd)
    requires w.sendBegin == Some(sendBegin) && w.sendEnd == Some(sendEnd)
    ensures w.Timed() && w.Stamped(cycleUs) ==
      Stamps(wake, cycleUs, ElapsedUs(begin, end), ElapsedUs(end, pdoEnd), ElapsedUs(sendBegin, sendEnd), w.state)
  {
  }

  lemma WakeCases(log: seq<Note>, nominal: int, stop: bool, rc: int, wake: Option<Timespec>, timeSet: bool)
    ensures var planned := Wakes(nominal, stop, rc, wake, timeSet);
      var slept := log + [Slept(stop, rc)];
      var woken := slept + [ClockRead(wake)];
      && (stop ==> Adds(log, slept, planned, Stop))
      && (!stop && rc != 0 ==> Adds(log, slept, planned, Give(SleepError(rc))))
      && (!stop && rc == 0 && wake.None? ==> Adds(log, woken, planned, Give(Errno)))
      && (!stop && rc == 0 && wake.Some? ==>
            Adds(log, woken + [TimeSet(nominal, timeSet)], planned, if timeSet then Going else Give(Eio)))
  {
    hide Adds;
    var planned := Wakes(nominal, stop, rc, wake, timeSet);
    TakesFirst(log, planned, if stop || rc != 0 then 1 else if wake.None? then 2 else 3);
    assert log + [Slept(stop, rc)] == log + planned[..1];
    assert log + [Slept(stop, rc)] + [ClockRead(wake)] == log + planned[..2];
    assert log + [Slept(stop, rc)] + [ClockRead(wake)] + [TimeSet(nominal, timeSet)] == log + planned[..3];
  }

  lemma ReceiveCases(log: seq<Note>, t0: Option<Timespec>, t1: Option<Timespec>, t2: Option<Timespec>)
    ensures var planned := Receives(t0, t1, t2);
      var began := log + [ClockRead(t0)];
      var ended := began + [FramesReceived] + [ClockRead(t1)];
      var exchanged := ended + [DataExchanged] + [ClockRead(t2)];
      && (t0.None? ==> Adds(log, began, planned, Give(Errno)))
      && (t0.Some? && t1.None? ==> Adds(log, ended, planned, Give(Errno)))
      && (t0.Some? && t1.Some? ==> Adds(log, exchanged, planned, if t2.None? then Give(Errno) else Going))
  {
    hide Adds;
    var planned := Receives(t0, t1, t2);
    var n := if t0.None? then 1 else if t1.None? then 3 else 5;
    TakesFirst(log, planned, n);
    assert planned[..1] == [ClockRead(t0)];
    assert planned[..3] == [ClockRead(t0)] + [FramesReceived] + [ClockRead(t1)];
    assert planned[..5] == [ClockRead(t0)] + [FramesReceived] + [ClockRead(t1)] + [DataExchanged] + [ClockRead(t2)];
    assert log + [ClockRead(t0)] + [FramesReceived] + [ClockRead(t1)] == log + planned[..3];
    assert log + [ClockRead(t0)] + [FramesReceived] + [ClockRead(t1)] + [DataExchanged] + [ClockRead(t2)] == log + planned[..5];
  }

  lemma PublishCases(log: seq<Note>, shared: bool, state: BusState, wallRead: bool)
    ensures var planned := Publishes(shared, state, wallRead);
      var read := log + [StateRead(state)];
      && (!shared ==> Adds(log, read, planned, Going))
      && (shared ==> Adds(log, read + [WallRead(wallRead)], planned, if wallRead then Going else Give(Errno)))
  {
    hide Adds;
    var planned := Publishes(shared, state, wallRead);
    TakesFirst(log, planned, if shared then 2 else 1);
    assert log + [StateRead(state)] == log + planned[..1];
    assert shared ==> log + [StateRead(state)] + [WallRead(wallRead)] == log + planned[..2];
  }

  lemma SendCases(log: seq<Note>, t3: Option<Timespec>, sent: bool, t4: Option<Timespec>)
    ensures var planned := Sends(t3, sent, t4);
      var began := log + [ClockRead(t3)];
      var done := began + [FramesSent(sent)];
      var ended := done + [ClockRead(t4)];
      && (t3.None? ==> Adds(log, began, planned, Give(Errno)))
      && (t3.Some? && !sent ==> Adds(log, done, planned, Give(Eio)))
      && (t3.Some? && sent && t4.None? ==> Adds(log, ended, planned, Give(Errno)))
      && (t3.Some? && sent && t4.Some? ==> Adds(log, ended + [ClientsNotified], planned, Going))
  {
    hide Adds;
    var planned := Sends(t3, sent, t4);
    var n := if t3.None? then 1 else if !sent then 2 else if t4.None? then 3 else 4;
    TakesFirst(log, planned, n);
    assert planned[..1] == [ClockRead(t3)];
    assert log + [ClockRead(t3)] + [FramesSent(sent)] == log + planned[..2];
    assert log + [ClockRead(t3)] + [FramesSent(sent)] + [ClockRead(t4)] == log + planned[..3];
    assert log + [ClockRead(t3)] + [FramesSent(sent)] + [ClockRead(t4)] + [ClientsNotified] == log + planned[..4];
  }

  function ElapsedUs(from: Timespec, to: Timespec): real {
    (ToNs(to) - ToNs(from)) as real / 1000.0
  }

  /** What one cycle adds to the totals: a working counter error if either domain was incomplete. */
  function CountsOf(missed: nat, state: BusState): Counts {
    Counts(missed, if state.Complete() then 0 else 1, if state.linkUp then 0 else 1)
  }

  lemma ASecond(from: Timespec, to: Timespec)
    requires ToNs(to) - ToNs(from) >= SECOND
    ensures ElapsedUs(from, to) / 1000000.0 >= 1.0
  {
  }

  lemma PlusIs(missed: nat, wcErrors: nat, linkDown: nat, c: Counts)
    ensures Counts(missed, wcErrors, linkDown).Plus(c) ==
            Counts(missed + c.missed, wcErrors + c.wcErrors, linkDown + c.linkDown)
  {
  }

  // ---------- whole runs of the loop ----------

  /** A completed cycle: its clock readings, the bus state it read and the reset it found. */
  datatype Lap = Lap(wake: Timespec, receiveBegin: Timespec, receiveEnd: Timespec, pdoEnd: Timespec, state: BusState,
                     ticket: nat, sendBegin: Timespec, sendEnd: Timespec, finish: Timespec) {
    /** All it asks and does, with a clear stop flag and nothing refused. */
    function Notes(nominal: int, shared: bool): seq<Note> {
      [FlagRead(false), Slept(false, 0), ClockRead(Some(wake)), TimeSet(nominal, true), ClockRead(Some(receiveBegin)),
       FramesReceived, ClockRead(Some(receiveEnd)), DataExchanged, ClockRead(Some(pdoEnd)), StateRead(state)] +
      (if shared then [WallRead(true)] else []) +
      [ClockRead(Some(sendBegin)), FramesSent(true), ClockRead(Some(sendEnd)), ClientsNotified, ClockRead(Some(finish))]
    }

    /** What it counts: the periods skipped, one for an incomplete working counter, one for a lost link. */
    function Counted(missed: nat): Counts {
      Counts(missed, if state.inputState.WcComplete? && state.outputState.WcComplete? then 0 else 1, if state.linkUp then 0 else 1)
    }
  }

  function Nanoseconds(t: Timespec): int {
    t.sec * 1000000000 + t.nsec
  }

  function Microseconds(from: Timespec, to: Timespec): real {
    (Nanoseconds(to) - Nanoseconds(from)) as real / 1000.0
  }

  /** The samples of a report window, cycle after cycle, and what it counted. */
  datatype Samples = Samples(cycle: seq<real>, task: seq<real>, receive: seq<real>, pdo: seq<real>, send: seq<real>,
                             counts: Counts) {
    function With(cycleUs: real, taskUs: real, receiveUs: real, pdoUs: real, sendUs: real, c: Counts): Samples {
      Samples(cycle + [cycleUs], task + [taskUs], receive + [receiveUs], pdo + [pdoUs], send + [sendUs], counts.Plus(c))
    }
  }

  const NO_SAMPLES := Samples([], [], [], [], [], NOTHING)

  /** What a report must tell: how long its window was, the last bus state in it, and its samples. */
  datatype Heading = Heading(seconds: real, state: BusState, samples: Samples)

  ghost predicate Told(r: Report, h: Heading) {
    && r.seconds == h.seconds && r.state == h.state && r.counts == h.samples.counts
    && Summarizes(r.cycle, h.samples.cycle) && Summarizes(r.task, h.samples.task)
    && Summarizes(r.receive, h.samples.receive) && Summarizes(r.pdo, h.samples.pdo) && Summarizes(r.send, h.samples.send)
  }

  ghost predicate AllTold(reports: seq<Report>, headings: seq<Heading>) {
    |reports| == |headings| && forall i | 0 <= i < |reports| :: Told(reports[i], headings[i])
  }

  /** The books: the next deadline, the last wake, the begin of the window, what each cycle counted, the window under
      way and the reports due; and, on a shared bus, the cycle times since the last reset and the reset handshakes. */
  datatype Meter = Meter(deadline: Timespec, wake: Timespec, since: Timespec, cycles: seq<Counts>, open: Samples,
                         headings: seq<Heading>, timed: seq<real>, asked: seq<Handshake>)

  /** The cyclic side of the handshake in one cycle. */
  function Shaken(ticket: nat): seq<Handshake> {
    [Asked(ticket)] + if ticket > 0 then [Acknowledged(ticket, Cells(0.0, 0.0, 0.0, 0.0))] else []
  }

  function Timed(timed: seq<real>, cycleUs: real, ticket: nat): seq<real> {
    if ticket > 0 then [] else timed + [cycleUs]
  }

  /** What a cycle does to the statistics and the handshake: nothing, or it accounts its time and asks for a reset. */
  ghost predicate Handshaken(published: bool, values: seq<real>, values': seq<real>, log: seq<Handshake>,
                             log': seq<Handshake>, cycleUs: real, ticket: nat) {
    if published then values' == Timed(values, cycleUs, ticket) && log' == log + Shaken(ticket)
    else values' == values && log' == log
  }

  /** These samples with those of one more cycle. */
  function Sampled(m: Meter, periodUs: uint32, lap: Lap, samples: Samples): Samples {
    samples.With(Microseconds(m.wake, lap.wake), Microseconds(lap.wake, lap.finish),
                 Microseconds(lap.receiveBegin, lap.receiveEnd), Microseconds(lap.receiveEnd, lap.pdoEnd),
                 Microseconds(lap.sendBegin, lap.sendEnd),
                 lap.Counted(AdvanceDeadline(m.deadline, periodUs, lap.finish).missed))
  }

  /** One more completed cycle. A window closes with the first cycle that ends a second or more after it began. */
  function NextMeter(m: Meter, periodUs: uint32, shared: bool, lap: Lap): Meter {
    var next := AdvanceDeadline(m.deadline, periodUs, lap.finish);
    var open := Sampled(m, periodUs, lap, m.open);
    var full := Nanoseconds(lap.finish) - Nanoseconds(m.since) >= 1000000000;
    var heading := Heading((Nanoseconds(lap.finish) - Nanoseconds(m.since)) as real / 1000000000.0, lap.state, open);
    Meter(next.deadline, lap.wake, if full then lap.finish else m.since, m.cycles + [lap.Counted(next.missed)],
          if full then NO_SAMPLES else open, m.headings + if full then [heading] else [],
          if shared then Timed(m.timed, Microseconds(m.wake, lap.wake), lap.ticket) else m.timed,
          m.asked + if shared then Shaken(lap.ticket) else [])
  }

  function Metered(m: Meter, periodUs: uint32, shared: bool, laps: seq<Lap>): Meter {
    if laps == [] then m
    else NextMeter(Metered(m, periodUs, shared, laps[..|laps| - 1]), periodUs, shared, laps[|laps| - 1])
  }

  /** The log of completed cycles, each at the deadline the ones before it left. */
  function LapsLog(m: Meter, periodUs: uint32, shared: bool, laps: seq<Lap>): seq<Note> {
    if laps == [] then []
    else
      var before := laps[..|laps| - 1];
      LapsLog(m, periodUs, shared, before) +
      laps[|laps| - 1].Notes(Nanoseconds(Metered(m, periodUs, shared, before).deadline), shared)
  }

  lemma LapsSnoc(m: Meter, periodUs: uint32, shared: bool, laps: seq<Lap>, lap: Lap)
    ensures var now := Metered(m, periodUs, shared, laps);
      && Metered(m, periodUs, shared, laps + [lap]) == NextMeter(now, periodUs, shared, lap)
      && LapsLog(m, periodUs, shared, laps + [lap]) ==
         LapsLog(m, periodUs, shared, laps) + lap.Notes(Nanoseconds(now.deadline), shared)
  {
    assert (laps + [lap])[..|laps|] == laps;
  }

  /** What the k-th completed cycle counted: the periods skipped by its own step of the deadline, an error exactly if
      one of the working counters it read was not complete, a lost link exactly if it read one. */
  lemma {:induction false} CountedAsRead(m: Meter, periodUs: uint32, shared: bool, laps: seq<Lap>, k: nat)
    requires m.cycles == [] && k < |laps| && periodUs > 0
    ensures var r := Metered(m, periodUs, shared, laps);
      var due := Metered(m, periodUs, shared, laps[..k]).deadline;
      && |r.cycles| == |laps|
      && r.cycles[k].missed == AdvanceDeadline(due, periodUs, laps[k].finish).missed
      && (r.cycles[k].wcErrors == 1 <==> !laps[k].state.inputState.WcComplete? || !laps[k].state.outputState.WcComplete?)
      && (r.cycles[k].wcErrors != 1 ==> r.cycles[k].wcErrors == 0)
      && r.cycles[k].linkDown == (if laps[k].state.linkUp then 0 else 1)
  {
    hide AdvanceDeadline;
    CyclesCount(m, periodUs, shared, laps[..|laps| - 1]);
    var n := |laps| - 1;
    if k < n {
      CountedAsRead(m, periodUs, shared, laps[..n], k);
      assert laps[..n][..k] == laps[..k];
    }
  }

  lemma {:induction false} CyclesCount(m: Meter, periodUs: uint32, shared: bool, laps: seq<Lap>)
    ensures |Metered(m, periodUs, shared, laps).cycles| == |m.cycles| + |laps|
  {
    hide AdvanceDeadline;
    if laps != [] {
      CyclesCount(m, periodUs, shared, laps[..|laps| - 1]);
    }
  }

  function Joined(a: Samples, b: Samples): Samples {
    Samples(a.cycle + b.cycle, a.task + b.task, a.receive + b.receive, a.pdo + b.pdo, a.send + b.send, a.counts.Plus(b.counts))
  }

  function Reported(headings: seq<Heading>): Samples {
    if headings == [] then NO_SAMPLES else Joined(Reported(headings[..|headings| - 1]), headings[|headings| - 1].samples)
  }

  /** All samples of a run, as if no window were ever closed. */
  function AllSamples(m: Meter, periodUs: uint32, shared: bool, laps: seq<Lap>): Samples {
    if laps == [] then NO_SAMPLES
    else
      var before := laps[..|laps| - 1];
      Sampled(Metered(m, periodUs, shared, before), periodUs, laps[|laps| - 1], AllSamples(m, periodUs, shared, before))
  }

  lemma JoinNone(a: Samples)
    ensures Joined(a, NO_SAMPLES) == a
  {
  }

  lemma JoinedSampled(a: Samples, b: Samples, m: Meter, periodUs: uint32, lap: Lap)
    ensures Joined(a, Sampled(m, periodUs, lap, b)) == Sampled(m, periodUs, lap, Joined(a, b))
    ensures Joined(a, NO_SAMPLES) == a
  {
    hide Microseconds, AdvanceDeadline, Lap.Counted;
  }

  lemma ReportedSnoc(headings: seq<Heading>, h: Heading)
    ensures Reported(headings + [h]) == Joined(Reported(headings), h.samples) && Reported(headings + []) == Reported(headings)
  {
    assert (headings + [h])[..|headings|] == headings && headings + [] == headings;
  }

  lemma CoverStep(m: Meter, periodUs: uint32, shared: bool, lap: Lap)
    ensures var next := NextMeter(m, periodUs, shared, lap);
      Joined(Reported(next.headings), next.open) == Sampled(m, periodUs, lap, Joined(Reported(m.headings), m.open))
  {
    hide Microseconds, AdvanceDeadline, Lap.Counted, Sampled, Joined, Reported;
    var next := NextMeter(m, periodUs, shared, lap);
    JoinedSampled(Reported(m.headings), m.open, m, periodUs, lap);
    JoinedSampled(Reported(next.headings), next.open, m, periodUs, lap);
    ReportedSnoc(m.headings, if next.headings == m.headings then Heading(0.0, lap.state, m.open)
                             else next.headings[|m.headings|]);
  }

  /** Reports and the window under way share out the samples of all cycles: none is lost and none told twice. */
  lemma {:induction false} WindowsCoverLaps(m: Meter, periodUs: uint32, shared: bool, laps: seq<Lap>)
    requires m.open == NO_SAMPLES && m.headings == []
    ensures var r := Metered(m, periodUs, shared, laps); Joined(Reported(r.headings), r.open) == AllSamples(m, periodUs, shared, laps)
  {
    hide NextMeter, Sampled, Joined;
    if laps != [] {
      WindowsCoverLaps(m, periodUs, shared, laps[..|laps| - 1]);
      CoverStep(Metered(m, periodUs, shared, laps[..|laps| - 1]), periodUs, shared, laps[|laps| - 1]);
      hide Reported;
    } else {
      NothingJoined(m.headings);
    }
  }

  lemma NothingJoined(headings: seq<Heading>)
    requires headings == []
    ensures Joined(Reported(headings), NO_SAMPLES) == NO_SAMPLES
  {
    JoinNone(Reported(headings));
    hide Joined;
  }

  /** The k-th samples of a run: from wake to wake, from wake to finish, and between the readings around receiving,
      exchanging and sending. */
  lemma {:induction false} SampledAt(m: Meter, periodUs: uint32, shared: bool, laps: seq<Lap>, k: nat)
    requires k < |laps|
    ensures var all, lap := AllSamples(m, periodUs, shared, laps), laps[k];
      && |all.cycle| == |all.task| == |all.receive| == |all.pdo| == |all.send| == |laps|
      && all.cycle[k] == Microseconds(if k == 0 then m.wake else laps[k - 1].wake, lap.wake)
      && all.task[k] == Microseconds(lap.wake, lap.finish)
      && all.receive[k] == Microseconds(lap.receiveBegin, lap.receiveEnd)
      && all.pdo[k] == Microseconds(lap.receiveEnd, lap.pdoEnd) && all.send[k] == Microseconds(lap.sendBegin, lap.sendEnd)
  {
    hide AdvanceDeadline, Microseconds, Lap.Counted, Counts.Plus;
    var n := |laps| - 1;
    if n > 0 {
      SampledAt(m, periodUs, shared, laps[..n], if k < n then k else 0);
      assert Metered(m, periodUs, shared, laps[..n]).wake == laps[n - 1].wake;
    }
  }

  /** A report closes a window of a second or more, and it tells of at least one cycle, the last of them first to
      reach the second. */
  lemma HeadingCloses(m: Meter, periodUs: uint32, shared: bool, lap: Lap)
    ensures var next := NextMeter(m, periodUs, shared, lap);
      && (next.headings != m.headings <==> Nanoseconds(lap.finish) - Nanoseconds(m.since) >= 1000000000)
      && (next.headings != m.headings ==>
            && next.since == lap.finish && next.open == NO_SAMPLES && |next.headings| == |m.headings| + 1
            && next.headings[|m.headings|].seconds >= 1.0 && next.headings[|m.headings|].state == lap.state
            && |next.headings[|m.headings|].samples.cycle| == |m.open.cycle| + 1)
      && (next.headings == m.headings ==> next.since == m.since)
  {
    hide AdvanceDeadline, Microseconds, Lap.Counted, Counts.Plus;
  }

  // ---------- what the task keeps ----------

  /** The fields of the task, its window and its reporter that the books are about. */
  datatype Desk = Desk(deadline: Timespec, wake: Timespec, since: Timespec, cycles: seq<Counts>, open: Samples,
                       offered: seq<Report>)

  ghost predicate Matches(d: Desk, m: Meter) {
    && d.deadline == m.deadline && d.wake == m.wake && d.since == m.since && d.cycles == m.cycles && d.open == m.open
    && AllTold(d.offered, m.headings)
  }

  /** The fields after a cycle with these stamps. */
  ghost predicate Entered(d: Desk, d': Desk, periodUs: uint32, finish: Timespec, stamps: Stamps) {
    var next := AdvanceDeadline(d.deadline, periodUs, finish);
    var c := CountsOf(next.missed, stamps.state);
    var open := d.open.With(stamps.cycleUs, ElapsedUs(stamps.wake, finish), stamps.receiveUs, stamps.pdoUs, stamps.sendUs, c);
    && d'.deadline == next.deadline && d'.wake == stamps.wake && d'.cycles == d.cycles + [c]
    && if ToNs(finish) - ToNs(d.since) >= SECOND then
         && d'.since == finish && d'.open == NO_SAMPLES && |d'.offered| == |d.offered| + 1 && d.offered <= d'.offered
         && Told(d'.offered[|d.offered|], Heading(ElapsedUs(d.since, finish) / 1000000.0, stamps.state, open))
       else d'.since == d.since && d'.open == open && d'.offered == d.offered
  }

  lemma RawUnits(from: Timespec, to: Timespec)
    ensures ToNs(from) == Nanoseconds(from) && SECOND == 1000000000 && ElapsedUs(from, to) == Microseconds(from, to)
    ensures ElapsedUs(from, to) / 1000000.0 == (Nanoseconds(to) - Nanoseconds(from)) as real / 1000000000.0
  {
  }

  lemma MatchesNext(d: Desk, d': Desk, m: Meter, periodUs: uint32, shared: bool, w: Work)
    requires Matches(d, m) && w.Timed() && w.finish.Some?
    requires Entered(d, d', periodUs, w.finish.value, w.Stamped(ElapsedUs(d.wake, w.wake.value)))
    ensures Matches(d', NextMeter(m, periodUs, shared, LapOf(w)))
  {
    var lap := LapOf(w);
    RawUnits(d.wake, lap.wake);
    RawUnits(lap.wake, lap.finish);
    RawUnits(lap.receiveBegin, lap.receiveEnd);
    RawUnits(lap.receiveEnd, lap.pdoEnd);
    RawUnits(lap.sendBegin, lap.sendEnd);
    RawUnits(d.since, lap.finish);
    RawUnits(lap.finish, lap.finish);
    CountedIs(lap);
    hide AdvanceDeadline, ToNs, ElapsedUs, Microseconds, Nanoseconds, Told, CountsOf, Lap.Counted, Samples.With;
  }

  lemma CountedIs(lap: Lap)
    ensures forall missed :: CountsOf(missed, lap.state) == lap.Counted(missed)
  {
  }

  function LapOf(w: Work): Lap
    requires w.Timed() && w.finish.Some?
  {
    Lap(w.wake.value, w.receiveBegin.value, w.receiveEnd.value, w.pdoEnd.value, w.state, w.ticket, w.sendBegin.value,
        w.sendEnd.value, w.finish.value)
  }

  /** A cycle taken to its end left the notes of its lap. */
  lemma WholeLap(w: Work, nominal: int, shared: bool, notes: seq<Note>)
    requires w.Timed() && w.finish.Some? && Taken(notes, w.Whole(nominal, shared), Going)
    ensures notes == LapOf(w).Notes(nominal, shared)
  {
    var planned := w.Whole(nominal, shared);
    forall i | 0 <= i < |planned| ensures Verdict(planned[i]).Going? {
      assert notes[i] == planned[i];
    }
    var lap := LapOf(w);
    WholeIs(w, nominal, shared);
    hide Work.Whole;
    var tail := if shared then 11 else 10;
    assert planned[0] == FlagRead(w.flag) && planned[1] == Slept(w.stop, w.sleepRc) && planned[3] == TimeSet(nominal, w.timeSet);
    assert shared ==> planned[10] == WallRead(w.wallRead);
    assert planned[tail + 1] == FramesSent(w.sent);
  }

  lemma WholeIs(w: Work, nominal: int, shared: bool)
    ensures w.Whole(nominal, shared) ==
      [FlagRead(w.flag), Slept(w.stop, w.sleepRc), ClockRead(w.wake), TimeSet(nominal, w.timeSet), ClockRead(w.receiveBegin),
       FramesReceived, ClockRead(w.receiveEnd), DataExchanged, ClockRead(w.pdoEnd), StateRead(w.state)] +
      (if shared then [WallRead(w.wallRead)] else []) +
      [ClockRead(w.sendBegin), FramesSent(w.sent), ClockRead(w.sendEnd), ClientsNotified, ClockRead(w.finish)]
  {
  }

  function Finishes(laps: seq<Lap>): (r: seq<Timespec>)
    ensures |r| == |laps| && forall k | 0 <= k < |r| :: r[k] == laps[k].finish
  {
    seq(|laps|, k requires 0 <= k < |laps| => laps[k].finish)
  }

  /** How the loop ends: its lifetime is used up, or the first answer of a further cycle that does not go on ends it,
      with the code that belongs to this answer. */
  ghost predicate LoopEnds(m: Meter, shared: bool, tail: seq<Note>, w: Work, outcome: Outcome) {
    !outcome.Going? && Taken(tail, w.Whole(Nanoseconds(m.deadline), shared), outcome)
  }

  lemma FlagEnds(m: Meter, shared: bool, w: Work)
    requires w.flag
    ensures LoopEnds(m, shared, [FlagRead(true)], w, Stop)
  {
    assert w.Whole(Nanoseconds(m.deadline), shared)[0] == FlagRead(true);
  }

  /** A cycle after a clear flag. */
  lemma FlagThen(log: seq<Note>, after: seq<Note>, w: Work, nominal: int, shared: bool, outcome: Outcome)
    requires !w.flag && Adds(log + [FlagRead(false)], after, w.Planned(nominal, shared) + [ClockRead(w.finish)], outcome)
    ensures Adds(log, after, w.Whole(nominal, shared), outcome)
  {
    hide Work.Planned;
    assert (log + [FlagRead(false)])[|log|..] == [FlagRead(false)];
    AddsThen(log, log + [FlagRead(false)], after, [FlagRead(false)], w.Planned(nominal, shared) + [ClockRead(w.finish)], outcome);
    assert [FlagRead(w.flag)] + w.Planned(nominal, shared) + [ClockRead(w.finish)] ==
           [FlagRead(false)] + (w.Planned(nominal, shared) + [ClockRead(w.finish)]);
  }

  /** The last clock reading of a cycle. */
  lemma ClockEnds(log: seq<Note>, done: seq<Note>, planned: seq<Note>, time: Option<Timespec>)
    requires Adds(log, done, planned, Going)
    ensures Adds(log, done + [ClockRead(time)], planned + [ClockRead(time)], if time.Some? then Going else Give(Errno))
  {
    assert (done + [ClockRead(time)])[|done|..] == [ClockRead(time)];
    AddsThen(log, done, done + [ClockRead(time)], planned, [ClockRead(time)], if time.Some? then Going else Give(Errno));
  }

  lemma FinishIsLast(w: Work, finish: Option<Timespec>, nominal: int, shared: bool)
    ensures w.(finish := finish).Planned(nominal, shared) == w.Planned(nominal, shared)
    ensures w.Timed() ==> w.(finish := finish).Timed()
    ensures w.Timed() ==> forall cycleUs :: w.(finish := finish).Stamped(cycleUs) == w.Stamped(cycleUs)
  {
    hide ElapsedUs;
  }

  lemma NoLaps(m: Meter, periodUs: uint32, shared: bool, log: seq<Note>, finishes: seq<Timespec>, asked: seq<Handshake>)
    ensures Metered(m, periodUs, shared, []) == m && log + LapsLog(m, periodUs, shared, []) == log
    ensures finishes + Finishes([]) == finishes && (m.asked == [] ==> asked + m.asked == asked)
  {
  }

  lemma FinishesSnoc(before: seq<Timespec>, laps: seq<Lap>, w: Work)
    requires w.Timed() && w.finish.Some?
    ensures before + Finishes(laps + [LapOf(w)]) == before + Finishes(laps) + [w.finish.value]
  {
  }

  /** A completed cycle is one more lap, in the log and in the books. */
  lemma LapAdds(base: seq<Note>, log: seq<Note>, after: seq<Note>, m: Meter, periodUs: uint32, shared: bool, laps: seq<Lap>,
                w: Work, d: Desk, d': Desk)
    requires log == base + LapsLog(m, periodUs, shared, laps) && Matches(d, Metered(m, periodUs, shared, laps))
    requires w.Timed() && w.finish.Some? && Adds(log, after, w.Whole(ToNs(d.deadline), shared), Going)
    requires Entered(d, d', periodUs, w.finish.value, w.Stamped(ElapsedUs(d.wake, w.wake.value)))
    ensures after == base + LapsLog(m, periodUs, shared, laps + [LapOf(w)])
    ensures Matches(d', Metered(m, periodUs, shared, laps + [LapOf(w)]))
  {
    hide *;
    DeadlineIs(d, Metered(m, periodUs, shared, laps));
    LapNotes(log, after, w, ToNs(d.deadline), shared);
    MatchesNext(d, d', Metered(m, periodUs, shared, laps), periodUs, shared, w);
    LapsSnoc(m, periodUs, shared, laps, LapOf(w));
    Grouped(base, LapsLog(m, periodUs, shared, laps), LapOf(w).Notes(ToNs(d.deadline), shared));
  }

  lemma DeadlineIs(d: Desk, m: Meter)
    requires Matches(d, m)
    ensures ToNs(d.deadline) == Nanoseconds(m.deadline)
  {
  }

  lemma Grouped(a: seq<Note>, b: seq<Note>, c: seq<Note>)
    ensures a + b + c == a + (b + c)
  {
  }

  lemma LapNotes(log: seq<Note>, after: seq<Note>, w: Work, nominal: int, shared: bool)
    requires w.Timed() && w.finish.Some? && Adds(log, after, w.Whole(nominal, shared), Going)
    ensures after == log + LapOf(w).Notes(nominal, shared)
  {
    WholeLap(w, nominal, shared, after[|log|..]);
    hide Lap.Notes, Work.Whole, Taken;
    assert after == log + after[|log|..];
  }

  lemma LapShakes(base: seq<Handshake>, before: seq<Handshake>, after: seq<Handshake>, values: seq<real>, values': seq<real>,
                  m: Meter, periodUs: uint32, shared: bool, laps: seq<Lap>, w: Work, d: Desk)
    requires w.Timed() && w.finish.Some? && Matches(d, Metered(m, periodUs, shared, laps))
    requires Handshaken(shared, values, values', before, after, ElapsedUs(d.wake, w.wake.value), w.ticket)
    requires var meter := Metered(m, periodUs, shared, laps); values == meter.timed && before == base + meter.asked
    ensures var meter := Metered(m, periodUs, shared, laps + [LapOf(w)]); values' == meter.timed && after == base + meter.asked
  {
    LapsSnoc(m, periodUs, shared, laps, LapOf(w));
    RawUnits(d.wake, w.wake.value);
    hide Metered, LapsLog, AdvanceDeadline, Microseconds, ElapsedUs, Shaken, AllTold;
  }

  /** A cycle that does not come to its end ends the loop. */
  lemma LapBreaks(base: seq<Note>, log: seq<Note>, after: seq<Note>, m: Meter, periodUs: uint32, shared: bool, laps: seq<Lap>,
                  w: Work, d: Desk, outcome: Outcome) returns (tail: seq<Note>)
    requires log == base + LapsLog(m, periodUs, shared, laps) && Matches(d, Metered(m, periodUs, shared, laps))
    requires !outcome.Going? && Adds(log, after, w.Whole(ToNs(d.deadline), shared), outcome)
    ensures after == base + LapsLog(m, periodUs, shared, laps) + tail && tail != []
    ensures LoopEnds(Metered(m, periodUs, shared, laps), shared, tail, w, outcome)
  {
    tail := after[|log|..];
    RawUnits(d.deadline, d.deadline);
    hide Metered, LapsLog, Work.Whole;
  }
}
