/** The second verification, one non-blocking step per cycle, as a state machine over the answers of IgH.
    The class in PdoVerification.dfy is proved to take exactly these steps. */
module Readback {
  import opened Arithmetic
  import opened Bytes
  import opened PdoConfig
  import opened Protocol
  import opened Wrappers

  datatype Failure =
    | NoFailure | NotPrepared | SetIndex | StartRead | ReadFailed | WrongSize | WrongValue
    | RequestTimeout | StartupTimeout | BusUnhealthy | WriteFailed | PreopState | PreopTimeout | ClockFailed

  datatype Result = Pending | Complete | Failed

  datatype Error = Error(failure: Failure, check: Option<Check>, actual: nat, actualSize: nat, apiError: int)

  const NO_ERROR := Error(NoFailure, None, 0, 0, 0)

  const REQUEST_TIMEOUT: int := 1000 * 1000000

  datatype RequestState = Unused | Busy | Success | Fault

  /** What IgH would answer to each call one step may make; `data` is absent for a null buffer. */
  datatype Answer = Answer(indexRc: int, readRc: int, state: RequestState, size: nat, data: Option<seq<uint8>>) {
    predicate Whole() {
      data.Some? ==> |data.value| == size
    }
  }

  datatype Call =
    | Index(slave: nat, index: uint16, sub: uint8, rc: int)
    | Launch(slave: nat, rc: int)
    | Poll(slave: nat, state: RequestState)
    | Fetch(slave: nat, data: Option<seq<uint8>>)

  datatype Verifier = Verifier(checks: seq<Check>, requests: nat, cursor: nat, deadline: int, started: bool,
                               prepared: bool, busy: bool, result: Result, error: Error)
  {
    /** A pending verification has a check at its cursor, and a request for the slave of every check. */
    predicate Valid() {
      && (prepared ==> |checks| > 0 && forall c | c in checks :: c.slave < requests)
      && (prepared && result.Pending? ==> cursor < |checks|)
      && (busy || result.Complete? ==> started) && (started ==> prepared)
      && (result.Complete? ==> cursor == |checks| && !busy)
    }
  }

  /** The first failure is kept. */
  function FailWith(v: Verifier, failure: Failure, apiError: int, actual: nat, actualSize: nat): Verifier {
    if v.result.Failed? then v
    else
      var check := if v.checks == [] then None
                   else Some(v.checks[if v.cursor < |v.checks| then v.cursor else |v.checks| - 1]);
      v.(error := Error(failure, check, actual, actualSize, apiError), result := Failed)
  }

  function Judge(v: Verifier, size: nat, data: Option<seq<uint8>>): Verifier
    requires v.cursor < |v.checks|
  {
    var c := v.checks[v.cursor];
    if size != c.size then FailWith(v, WrongSize, 0, 0, size)
    else if data.None? then FailWith(v, ReadFailed, 0, 0, 0)
    else if Decode(data.value) != c.expected then FailWith(v, WrongValue, 0, Decode(data.value), size)
    else v.(busy := false, cursor := v.cursor + 1,
            result := if v.cursor + 1 == |v.checks| then Complete else Pending)
  }

  function StepOf(v: Verifier, now: int, a: Answer): (r: Verifier)
    requires v.Valid()
    ensures r.Valid() && r.checks == v.checks && r.prepared == v.prepared && r.requests == v.requests
  {
    if !v.result.Pending? then v
    else if !v.prepared then FailWith(v, NotPrepared, 0, 0, 0)
    else
      var s := v.(started := true);
      if !v.busy then
        if a.indexRc != 0 then FailWith(s, SetIndex, a.indexRc, 0, 0)
        else if a.readRc != 0 then FailWith(s, StartRead, a.readRc, 0, 0)
        else s.(deadline := now + REQUEST_TIMEOUT, busy := true)
      else if now >= v.deadline then FailWith(s, RequestTimeout, 0, 0, 0)
      else if a.state.Busy? then s
      else if !a.state.Success? then FailWith(s, ReadFailed, 0, 0, 0)
      else Judge(s, a.size, a.data)
  }

  /** The calls that step makes, with their answers. */
  function CallsOf(v: Verifier, now: int, a: Answer): seq<Call>
    requires v.Valid()
  {
    if !v.result.Pending? || !v.prepared then []
    else
      var c := v.checks[v.cursor];
      if !v.busy then
        [Index(c.slave, c.index, c.sub, a.indexRc)] + if a.indexRc == 0 then [Launch(c.slave, a.readRc)] else []
      else if now >= v.deadline then []
      else
        [Poll(c.slave, a.state)] + if a.state.Success? && a.size == c.size then [Fetch(c.slave, a.data)] else []
  }

  lemma FinishCases(v: Verifier, now: int, a: Answer)
    requires v.Valid() && v.result.Pending? && v.started && v.busy
    ensures var c := v.checks[v.cursor];
      && (now >= v.deadline ==> StepOf(v, now, a) == FailWith(v, RequestTimeout, 0, 0, 0) && CallsOf(v, now, a) == [])
      && (now < v.deadline && a.state.Busy? ==> StepOf(v, now, a) == v && CallsOf(v, now, a) == [Poll(c.slave, a.state)])
      && (now < v.deadline && !a.state.Busy? && !a.state.Success? ==>
            StepOf(v, now, a) == FailWith(v, ReadFailed, 0, 0, 0) && CallsOf(v, now, a) == [Poll(c.slave, a.state)])
      && (now < v.deadline && a.state.Success? ==>
            && StepOf(v, now, a) == Judge(v, a.size, a.data)
            && CallsOf(v, now, a) ==
               [Poll(c.slave, a.state)] + if a.size == c.size then [Fetch(c.slave, a.data)] else [])
  {
    hide FailWith, Judge;
  }

  lemma RestCases(v: Verifier, now: int, a: Answer)
    requires v.Valid()
    ensures !v.result.Pending? ==> StepOf(v, now, a) == v && CallsOf(v, now, a) == []
    ensures v.result.Pending? && !v.prepared ==> StepOf(v, now, a) == FailWith(v, NotPrepared, 0, 0, 0) && CallsOf(v, now, a) == []
    ensures v.prepared ==> v.(started := true).Valid()
    ensures v.result.Pending? && v.prepared && v.busy ==>
      StepOf(v.(started := true), now, a) == StepOf(v, now, a) && CallsOf(v.(started := true), now, a) == CallsOf(v, now, a)
  {
    hide FailWith, Judge;
  }

  lemma LaunchCases(v: Verifier, now: int, a: Answer, calls: seq<Call>)
    requires v.Valid() && v.result.Pending? && v.prepared && !v.busy
    ensures var s, c := v.(started := true), v.checks[v.cursor];
      var indexed := calls + [Index(c.slave, c.index, c.sub, a.indexRc)];
      && (a.indexRc != 0 ==>
            StepOf(v, now, a) == FailWith(s, SetIndex, a.indexRc, 0, 0) && calls + CallsOf(v, now, a) == indexed)
      && (a.indexRc == 0 && a.readRc != 0 ==>
            StepOf(v, now, a) == FailWith(s, StartRead, a.readRc, 0, 0) &&
            calls + CallsOf(v, now, a) == indexed + [Launch(c.slave, a.readRc)])
      && (a.indexRc == 0 && a.readRc == 0 ==>
            StepOf(v, now, a) == s.(deadline := now + REQUEST_TIMEOUT, busy := true) &&
            calls + CallsOf(v, now, a) == indexed + [Launch(c.slave, a.readRc)])
  {
    hide FailWith, Judge;
  }

  lemma JudgeAccepts(v: Verifier, size: nat, data: Option<seq<uint8>>)
    requires v.cursor < |v.checks|
    requires size == v.checks[v.cursor].size && data.Some? && Decode(data.value) == v.checks[v.cursor].expected
    ensures Judge(v, size, data) ==
            v.(busy := false, cursor := v.cursor + 1, result := if v.cursor + 1 == |v.checks| then Complete else Pending)
  {
  }

  // ---------- whole runs ----------

  datatype Op = StepAt(now: int, answer: Answer) | AbortWith(failure: Failure)

  function Apply(v: Verifier, op: Op): (r: Verifier)
    requires v.Valid()
    ensures r.Valid() && r.checks == v.checks && r.prepared == v.prepared
  {
    match op
    case StepAt(now, a) => StepOf(v, now, a)
    case AbortWith(f) => FailWith(v, f, 0, 0, 0)
  }

  function RunOf(v: Verifier, ops: seq<Op>): (r: Verifier)
    requires v.Valid()
    ensures r.Valid() && r.checks == v.checks && r.prepared == v.prepared
  {
    if ops == [] then v else Apply(RunOf(v, ops[..|ops| - 1]), ops[|ops| - 1])
  }

  function TraceOf(v: Verifier, ops: seq<Op>): seq<Call>
    requires v.Valid()
  {
    if ops == [] then []
    else
      var last := ops[|ops| - 1];
      TraceOf(v, ops[..|ops| - 1]) +
      if last.StepAt? then CallsOf(RunOf(v, ops[..|ops| - 1]), last.now, last.answer) else []
  }

  /** A prepared verifier before its first step. */
  predicate Fresh(v: Verifier) {
    v.Valid() && v.prepared && v.result.Pending? && !v.started && v.cursor == 0
  }

  lemma {:induction false} RunPrefix(v: Verifier, ops: seq<Op>, n: nat)
    requires v.Valid() && n < |ops|
    ensures RunOf(v, ops[..n + 1]) == Apply(RunOf(v, ops[..n]), ops[n])
  {
    assert ops[..n + 1][..n] == ops[..n];
  }

  /** Failure is absorbing and the first failure stays the reported one, whatever is called afterwards. */
  lemma {:induction false} FirstFailureIsKept(v: Verifier, ops: seq<Op>, n: nat)
    requires v.Valid() && n <= |ops| && RunOf(v, ops[..n]).result.Failed?
    ensures RunOf(v, ops) == RunOf(v, ops[..n]) && TraceOf(v, ops) == TraceOf(v, ops[..n])
    decreases |ops| - n
  {
    if n < |ops| {
      RunPrefix(v, ops, n);
      assert ops[..n + 1][..n] == ops[..n];
      FirstFailureIsKept(v, ops, n + 1);
    } else {
      assert ops[..n] == ops;
    }
  }

  // ---------- the requests as IgH sees them ----------

  datatype Reading = Reading(slave: nat, index: uint16, sub: uint8, data: seq<uint8>)

  datatype Target = Target(index: uint16, sub: uint8)

  /** Where each request points, which are outstanding, and what was read through them. */
  datatype Requests = Requests(target: map<nat, Target>, outstanding: set<nat>, readings: seq<Reading>)

  const NO_REQUESTS := Requests(map[], {}, [])

  /** An outstanding request may only be polled; data is fetched only through a finished one. */
  predicate Proper(r: Requests, call: Call) {
    match call
    case Index(s, _, _, _) => s !in r.outstanding
    case Launch(s, _) => s !in r.outstanding && s in r.target
    case Poll(s, _) => s in r.outstanding
    case Fetch(s, _) => s !in r.outstanding && s in r.target
  }

  function See(r: Requests, call: Call): Requests {
    match call
    case Index(s, index, sub, rc) => if rc == 0 then r.(target := r.target[s := Target(index, sub)]) else r
    case Launch(s, rc) => if rc == 0 then r.(outstanding := r.outstanding + {s}) else r
    case Poll(s, state) => if state.Busy? then r else r.(outstanding := r.outstanding - {s})
    case Fetch(s, data) =>
      if data.Some? && s in r.target
      then r.(readings := r.readings + [Reading(s, r.target[s].index, r.target[s].sub, data.value)])
      else r
  }

  function Seen(calls: seq<Call>): Requests {
    if calls == [] then NO_REQUESTS else See(Seen(calls[..|calls| - 1]), calls[|calls| - 1])
  }

  predicate Disciplined(calls: seq<Call>) {
    forall i | 0 <= i < |calls| :: Proper(Seen(calls[..i]), calls[i])
  }

  lemma DisciplinedSnoc(calls: seq<Call>, call: Call)
    requires Disciplined(calls) && Proper(Seen(calls), call)
    ensures Disciplined(calls + [call]) && Seen(calls + [call]) == See(Seen(calls), call)
  {
    var next := calls + [call];
    assert next[..|calls|] == calls;
    forall i | 0 <= i < |next| ensures Proper(Seen(next[..i]), next[i]) {
      if i < |calls| {
        assert next[..i] == calls[..i];
      }
    }
  }

  /** What a correct readback of the first n checks yields. */
  function Expected(checks: seq<Check>, n: nat): (r: seq<Reading>)
    requires n <= |checks|
    ensures |r| == n
    ensures forall i | 0 <= i < n :: r[i] == Reading(checks[i].slave, checks[i].index, checks[i].sub, Wire(checks[i]))
  {
    seq(n, i requires 0 <= i < n => Reading(checks[i].slave, checks[i].index, checks[i].sub, Wire(checks[i])))
  }

  /** The verifier's own state agrees with the requests. */
  predicate Linked(v: Verifier, r: Requests)
    requires v.Valid()
  {
    && v.cursor <= |v.checks| && |r.outstanding| <= 1 && Expected(v.checks, v.cursor) <= r.readings
    && (!v.result.Failed? ==> r.readings == Expected(v.checks, v.cursor))
    && (v.result.Pending? && v.busy ==>
          var c := v.checks[v.cursor];
          r.outstanding == {c.slave} && c.slave in r.target && r.target[c.slave] == Target(c.index, c.sub))
    && (!v.result.Failed? && !v.busy ==> r.outstanding == {})
  }

  lemma SingletonRemoved(s: nat)
    ensures {s} - {s} == {} && {} + {s} == {s}
  {
  }

  /** A step that fetches nothing new. */
  lemma StepStarts(v: Verifier, calls: seq<Call>, now: int, a: Answer)
    requires v.Valid() && v.prepared && v.result.Pending? && !v.busy && Linked(v, Seen(calls)) && Disciplined(calls)
    ensures Disciplined(calls + CallsOf(v, now, a))
    ensures Linked(StepOf(v, now, a), Seen(calls + CallsOf(v, now, a)))
  {
    hide Disciplined, Seen, Expected;
    var c := v.checks[v.cursor];
    var first := Index(c.slave, c.index, c.sub, a.indexRc);
    DisciplinedSnoc(calls, first);
    SingletonRemoved(c.slave);
    if a.indexRc == 0 {
      var second := Launch(c.slave, a.readRc);
      DisciplinedSnoc(calls + [first], second);
      assert calls + [first] + [second] == calls + CallsOf(v, now, a);
    } else {
      assert calls + [first] == calls + CallsOf(v, now, a);
    }
  }

  lemma StepPolls(v: Verifier, calls: seq<Call>, now: int, a: Answer)
    requires v.Valid() && v.prepared && v.result.Pending? && v.busy && Linked(v, Seen(calls)) && Disciplined(calls)
    requires a.Whole()
    ensures Disciplined(calls + CallsOf(v, now, a))
    ensures Linked(StepOf(v, now, a), Seen(calls + CallsOf(v, now, a)))
  {
    hide Disciplined, Seen, Wire, Decode;
    var c := v.checks[v.cursor];
    SingletonRemoved(c.slave);
    if now >= v.deadline {
      assert calls + [] == calls;
      return;
    }
    var first := Poll(c.slave, a.state);
    DisciplinedSnoc(calls, first);
    assert calls + CallsOf(v, now, a) == calls + [first] ||
           calls + CallsOf(v, now, a) == calls + [first] + [Fetch(c.slave, a.data)];
    if a.state.Success? && a.size == c.size {
      DisciplinedSnoc(calls + [first], Fetch(c.slave, a.data));
      if a.data.Some? && Decode(a.data.value) == c.expected {
        WireDecodes(c, a.data.value);
      }
    }
  }

  lemma WireDecodes(c: Check, data: seq<uint8>)
    requires |data| == c.size && Decode(data) == c.expected
    ensures data == Wire(c)
  {
    EncodeDecode(data);
  }

  predicate WholeAnswers(ops: seq<Op>) {
    forall op | op in ops :: op.StepAt? ==> op.answer.Whole()
  }

  lemma StepLinked(v: Verifier, calls: seq<Call>, now: int, a: Answer)
    requires v.Valid() && v.prepared && Linked(v, Seen(calls)) && Disciplined(calls) && a.Whole()
    ensures Disciplined(calls + CallsOf(v, now, a))
    ensures Linked(StepOf(v, now, a), Seen(calls + CallsOf(v, now, a)))
  {
    hide Disciplined, Seen, Linked;
    if !v.result.Pending? {
      assert calls + [] == calls;
    } else if v.busy {
      StepPolls(v, calls, now, a);
    } else {
      StepStarts(v, calls, now, a);
    }
  }

  lemma {:induction false} RunLinked(v: Verifier, ops: seq<Op>)
    requires Fresh(v) && WholeAnswers(ops)
    ensures Disciplined(TraceOf(v, ops)) && Linked(RunOf(v, ops), Seen(TraceOf(v, ops)))
  {
    hide Disciplined;
    if ops == [] {
      NothingSeen();
    } else {
      var before, last := ops[..|ops| - 1], ops[|ops| - 1];
      RunLinked(v, before);
      hide Seen;
      if last.StepAt? {
        StepLinked(RunOf(v, before), TraceOf(v, before), last.now, last.answer);
      } else {
        assert TraceOf(v, ops) == TraceOf(v, before);
      }
    }
  }

  lemma NothingSeen()
    ensures Disciplined([]) && Seen([]) == NO_REQUESTS
  {
  }

  /** In every run at most one request is outstanding, and an outstanding request is neither pointed
      elsewhere nor started again, nor is its buffer touched. */
  lemma AtMostOneOutstanding(v: Verifier, ops: seq<Op>, n: nat)
    requires Fresh(v) && WholeAnswers(ops) && n <= |ops|
    ensures Disciplined(TraceOf(v, ops)) && |Seen(TraceOf(v, ops[..n])).outstanding| <= 1
  {
    RunLinked(v, ops);
    RunLinked(v, ops[..n]);
  }

  /** A complete verification has read every check, in order and nothing else, with its expected bytes. */
  lemma CompleteMeansReadBack(v: Verifier, ops: seq<Op>)
    requires Fresh(v) && WholeAnswers(ops)
    ensures RunOf(v, ops).result.Complete? ==>
      Seen(TraceOf(v, ops)).readings == Expected(v.checks, |v.checks|)
    ensures RunOf(v, ops).result.Pending? ==>
      Seen(TraceOf(v, ops)).readings == Expected(v.checks, RunOf(v, ops).cursor)
  {
    RunLinked(v, ops);
  }

  // ---------- bounded time ----------

  /** Pending at `last`: the check at the cursor is still within its own share of the time. */
  predicate Paced(v: Verifier, first: int, last: int, p: nat) {
    v.result.Pending? ==>
      var begun := first + v.cursor * (REQUEST_TIMEOUT + p);
      if v.busy then last < v.deadline <= begun + REQUEST_TIMEOUT else v.cursor > 0 && last + p < begun
  }

  lemma PacedStep(v: Verifier, first: int, last: int, p: nat, now: int, a: Answer)
    requires v.Valid() && v.prepared && Paced(v, first, last, p) && now <= last + p
    ensures Paced(StepOf(v, now, a), first, now, p)
  {
    assert (v.cursor + 1) * (REQUEST_TIMEOUT + p) == v.cursor * (REQUEST_TIMEOUT + p) + REQUEST_TIMEOUT + p;
  }

  predicate Punctual(ops: seq<Op>, p: nat) {
    && (forall i | 0 <= i < |ops| :: ops[i].StepAt?)
    && (forall i | 0 < i < |ops| :: ops[i].now <= ops[i - 1].now + p)
  }

  lemma {:induction false} RunPaced(v: Verifier, ops: seq<Op>, p: nat)
    requires Fresh(v) && !v.busy && ops != [] && Punctual(ops, p)
    ensures Paced(RunOf(v, ops), ops[0].now, ops[|ops| - 1].now, p)
  {
    var before, last := ops[..|ops| - 1], ops[|ops| - 1];
    if before == [] {
      assert RunOf(v, ops) == StepOf(RunOf(v, []), last.now, last.answer);
    } else {
      RunPaced(v, before, p);
      hide Paced;
      PacedStep(RunOf(v, before), ops[0].now, before[|before| - 1].now, p, last.now, last.answer);
    }
  }

  /** With calls at most p apart, a verification of N checks is decided within N * (1000 ms + p), in nanoseconds. */
  lemma DecidedInTime(v: Verifier, ops: seq<Op>, p: nat)
    requires Fresh(v) && ops != [] && Punctual(ops, p)
    requires ops[|ops| - 1].now >= ops[0].now + |v.checks| * (1000000000 + p)
    ensures !RunOf(v, ops).result.Pending?
  {
    RunPaced(v, ops, p);
    hide Fresh, Punctual;
    var r := RunOf(v, ops);
    if r.result.Pending? {
      SharesAdd(r.cursor, |v.checks|, REQUEST_TIMEOUT + p);
    }
  }

  lemma SharesAdd(n: nat, all: nat, share: nat)
    requires n < all
    ensures n * share + share <= all * share
  {
    Distribute(n, 1, share);
    MulMonotone(n + 1, all, share);
  }

  // ---------- completion ----------

  lemma StepIsHalf(v: Verifier, now: int, a: Answer)
    requires v.Valid() && v.prepared
    ensures var r := StepOf(v, now, a);
      !r.result.Failed? ==> 2 * r.cursor + (if r.busy then 1 else 0) <= 2 * v.cursor + (if v.busy then 1 else 0) + 1
  {
  }

  /** No check is read in fewer than two steps. */
  lemma {:induction false} TwoStepsPerCheck(v: Verifier, ops: seq<Op>)
    requires Fresh(v) && !v.busy
    ensures var r := RunOf(v, ops);
      !r.result.Failed? ==> 2 * r.cursor + (if r.busy then 1 else 0) <= |ops|
  {
    if ops != [] {
      var before, last := ops[..|ops| - 1], ops[|ops| - 1];
      TwoStepsPerCheck(v, before);
      if last.StepAt? {
        StepIsHalf(RunOf(v, before), last.now, last.answer);
      }
    }
  }

  predicate RightAnswer(c: Check, a: Answer) {
    a.indexRc == 0 && a.readRc == 0 && a.state.Success? && a.size == c.size && a.data == Some(Wire(c))
  }

  lemma RightStep(v: Verifier, now: int, a: Answer)
    requires v.Valid() && v.prepared && v.result.Pending? && RightAnswer(v.checks[v.cursor], a)
    requires v.busy ==> now < v.deadline
    requires v.checks[v.cursor].expected < Pow256(v.checks[v.cursor].size)
    ensures var r := StepOf(v, now, a);
      if v.busy then
        !r.busy && r.cursor == v.cursor + 1 && r.result == if r.cursor == |v.checks| then Complete else Pending
      else r.busy && r.cursor == v.cursor && r.result.Pending? && r.deadline == now + REQUEST_TIMEOUT
  {
    DecodeEncode(v.checks[v.cursor].expected, v.checks[v.cursor].size);
  }

  /** The limit of one request is 1000 ms from its launch: before that, a busy request is waited for and the right
      answer is accepted; from then on the verification fails, whatever the request has to say. */
  lemma RequestLimit(v: Verifier, launch: int, a: Answer, now: int, b: Answer)
    requires v.Valid() && v.prepared && v.result.Pending? && !v.busy && a.indexRc == 0 && a.readRc == 0
    requires v.checks[v.cursor].expected < Pow256(v.checks[v.cursor].size)
    ensures var s := StepOf(v, launch, a);
      && s.result.Pending? && s.busy && s.cursor == v.cursor
      && (now < launch + 1000000000 && b.state.Busy? ==> StepOf(s, now, b) == s)
      && (now < launch + 1000000000 && RightAnswer(v.checks[v.cursor], b) ==>
            StepOf(s, now, b).cursor == v.cursor + 1 && !StepOf(s, now, b).result.Failed?)
      && (now >= launch + 1000000000 ==>
            StepOf(s, now, b).result.Failed? && StepOf(s, now, b).error.failure == RequestTimeout)
  {
    DecodeEncode(v.checks[v.cursor].expected, v.checks[v.cursor].size);
  }

  /** Right and prompt answers complete the verification, in exactly two steps per check. */
  lemma {:induction false} RightAnswersComplete(v: Verifier, ops: seq<Op>)
    requires Fresh(v) && !v.busy && |ops| <= 2 * |v.checks| && Punctual(ops, 999999999)
    requires forall c | c in v.checks :: c.expected < Pow256(c.size)
    requires forall n | 0 <= n < |ops| :: RightAnswer(v.checks[n / 2], ops[n].answer)
    ensures var r := RunOf(v, ops);
      && r.cursor == |ops| / 2 && r.busy == (|ops| % 2 == 1)
      && r.result == (if |ops| == 2 * |v.checks| then Complete else Pending)
      && (r.busy ==> r.deadline == ops[|ops| - 1].now + 1000000000)
  {
    if ops != [] {
      var n := |ops| - 1;
      var before, last := ops[..n], ops[n];
      RightAnswersComplete(v, before);
      hide RightAnswer, Wire;
      assert RightAnswer(v.checks[n / 2], ops[n].answer);
      RightStep(RunOf(v, before), last.now, last.answer);
    }
  }
}
