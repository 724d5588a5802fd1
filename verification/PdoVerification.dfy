/** The verifier: PREOP configuration with readback, and the asynchronous second verification. */
module PdoVerification {
  import opened Bytes
  import opened PdoConfig
  import opened Protocol
  import opened Wrappers
  import opened PreopPhases
  import opened PreopCalls
  import opened PreopSafety
  import opened PreopDictionary
  import opened PreopPreflight
  import opened PreopWriting
  import opened PreopSlaves
  import opened PreopReport
  import opened Readback
  import Bus

  /** Failures after which nothing may be retried. */
  predicate IsGuardFailure(f: Failure) {
    f.PreopState? || f.PreopTimeout? || f.ClockFailed?
  }

  /** A slave whose configuration is acceptable, with its handle present and its SDO request granted. */
  predicate Preparable(slave: Slave, handle: bool, granted: bool) {
    SlaveOk(slave) && handle && granted
  }

  class PdoVerification {
    var initWrites: seq<InitWrite>
    var checks: seq<Check>
    var requests: nat  // one preallocated SDO request per slave
    var cursor: nat
    var requestDeadline: int
    var started: bool
    var prepared: bool
    var busy: bool
    var result: Result
    var error: Error

    /** The fields as one value; `Readback` describes the asynchronous verification on it. */
    ghost function Fields(): Verifier
      reads this
    {
      Verifier(checks, requests, cursor, requestDeadline, started, prepared, busy, result, error)
    }

    /** A prepared check list has its block structure, and the fields agree with each other. */
    ghost predicate Valid()
      reads this
    {
      Fields().Valid() && (prepared ==> WellFormed(checks) && checks != [])
    }

    /** Runs that may go on: the guard never tripped and no call of this attempt was rejected. */
    ghost predicate Going(job: Job, deadline: int, m: Monitor)
      reads `result
    {
      result == Pending && m.gate.deadline == Some(deadline) && !m.gate.tripped && !m.progress.stopped
    }

    /** A failed attempt knows whether a guard tripped, had a cause, and its error tells of the last answer. */
    ghost predicate Broken(job: Job, deadline: int, t: seq<Event>)
      reads `result, `error
    {
      var m := Run(job, t);
      && result == Failed && m.gate.deadline == Some(deadline) && (m.gate.tripped <==> IsGuardFailure(error.failure))
      && Caused(job, m) && Tells(error, Some(deadline), t)
    }

    /** The error tells of the last answer, judged by the deadline of the run. */
    ghost predicate ReportedBy(job: Job, deadline: int, t: seq<Event>)
      reads `error
    {
      Run(job, t).gate.deadline == Some(deadline) && Reported(error, Some(deadline), t)
    }

    lemma ReportedMeans(job: Job, deadline: int, t: seq<Event>)
      requires ReportedBy(job, deadline, t)
      ensures Reported(error, Run(job, t).gate.deadline, t)
    {
      hide Run, Reported;
    }

    lemma OutcomeOf(job: Job, deadline: int, t: seq<Event>)
      ensures var m := Run(job, t);
        Going(job, deadline, m) ==> result == Pending && m.gate.deadline == Some(deadline) && !m.gate.tripped
      ensures Broken(job, deadline, t) ==> result == Failed && Tells(error, Some(deadline), t) && Caused(job, Run(job, t))
      ensures Broken(job, deadline, t) ==>
        Run(job, t).gate.deadline == Some(deadline) && (Run(job, t).gate.tripped <==> IsGuardFailure(error.failure))
    {
    }

    lemma WrongAnswerBreaks(job: Job, deadline: int, t: seq<Event>, i: nat, data: seq<uint8>)
      requires result == Failed && i < |job.checks| && data != Wire(job.checks[i]) && CheckOk(job.checks, i)
      requires error.check == Some(job.checks[i])
      requires error.failure == if |data| != job.checks[i].size then WrongSize else WrongValue
      requires error.actualSize == |data| && (|data| == job.checks[i].size ==> error.actual == Decode(data))
      requires Answered(t, deadline, Upload(KeyOf(job.checks[i]), 0, data))
      requires var m := Run(job, t);
        && m.gate.deadline == Some(deadline) && !m.gate.tripped && InBlock(job, m.progress, i)
        && KeyOf(job.checks[i]) in m.ledger.confirmed && m.ledger.confirmed[KeyOf(job.checks[i])] == data
        && (KeysDistinct(job.checks) ==> Restored(job, m.progress, m.ledger))
      ensures Broken(job, deadline, t)
    {
      hide Run, InBlock, KeysDistinct, Restored;
      ExpectedFits(job.checks, i);
      WireMatches(job.checks[i], data);
      assert WrongValueRead(Run(job, t).ledger, job.checks[i]);
      CallTold(error, deadline, t, Upload(KeyOf(job.checks[i]), 0, data));
    }

    method Reset()
      modifies this
      ensures initWrites == [] && checks == [] && requests == 0
      ensures cursor == 0 && requestDeadline == 0 && !started && !prepared && !busy
      ensures result.Pending? && error == NO_ERROR
    {
      initWrites, checks, requests := [], [], 0;
      cursor, requestDeadline := 0, 0;
      started, prepared, busy := false, false, false;
      result, error := Pending, NO_ERROR;
    }

    method Add(position: uint16, s: nat, sync: uint8, index: uint16, sub: uint8, size: uint8, value: uint32, field: Field)
      modifies this`checks
      ensures checks == old(checks) + [Check(position, sync, index, sub, size, value, field, s)]
    {
      checks := checks + [Check(position, sync, index, sub, size, value, field, s)];
    }

    /** The checks of one Sync Manager: its count, then each PDO with its mapping. */
    method PrepareSync(position: uint16, s: nat, sm: Sync) returns (ok: bool)
      requires sm.Process()
      modifies this`checks
      ensures ok <==> SyncOk(sm)
      ensures ok ==> checks == old(checks) + CompileSync(position, s, sm)
    {
      hide *;
      SyncOkMeans(sm);
      if (sm.pdos.Missing? && sm.pdos.claimed != 0) || |sm.pdos.Items()| > 255 {
        return false;
      }
      var pdos := sm.pdos.Items();
      ManagerIndex(sm);
      Add(position, s, sm.index, 0x1c10 + sm.index, 0, 1, |pdos|, AssignmentCount);
      ghost var base := checks;
      PdosNone(position, s, sm);
      for p := 0 to |pdos|
        invariant forall i | 0 <= i < p :: PdoOk(pdos[i])
        invariant checks == base + CompilePdos(position, s, sm, p)
      {
        ok := PreparePdo(position, s, sm, p);
        if !ok {
          return;
        }
        PdosNext(position, s, sm, p);
      }
      SyncWhole(position, s, sm);
      return true;
    }

    method PreparePdo(position: uint16, s: nat, sm: Sync, p: nat) returns (ok: bool)
      requires sm.Process() && p < |sm.pdos.Items()| <= 255
      modifies this`checks
      ensures ok <==> PdoOk(sm.pdos.Items()[p])
      ensures ok ==> checks == old(checks) + CompilePdo(position, s, sm, p)
    {
      hide *;
      ManagerIndex(sm);
      var pdo := sm.pdos.Items()[p];
      PdoOkMeans(pdo);
      Add(position, s, sm.index, 0x1c10 + sm.index, p + 1, 2, pdo.index, Assignment);
      if (pdo.entries.Missing? && pdo.entries.claimed != 0) || |pdo.entries.Items()| > 255 {
        return false;
      }
      var entries := pdo.entries.Items();
      Add(position, s, sm.index, pdo.index, 0, 1, |entries|, MappingCount);
      ghost var base := checks;
      EntriesNone(position, s, sm.index, pdo);
      for e := 0 to |entries|
        invariant checks == base + CompileEntries(position, s, sm.index, pdo, e)
      {
        EntriesNext(position, s, sm.index, pdo, e);
        var entry := entries[e];
        MappingWord(entry);
        Add(position, s, sm.index, pdo.index, e + 1, 4, entry.index * 0x1_0000 + entry.sub * 0x100 + entry.bits, MappingEntry);
      }
      PdoWhole(position, s, sm, p);
      return true;
    }

    /** The init downloads and the checks of one slave, and its preallocated request. */
    method PrepareSlave(slave: Slave, s: nat, handle: bool, granted: bool) returns (ok: bool)
      modifies this`checks, this`initWrites, this`requests
      ensures ok <==> SlaveOk(slave) && handle && granted
      ensures ok ==> checks == old(checks) + CompileSlave(slave, s)
      ensures ok ==> initWrites == old(initWrites) + SlaveInits(slave) && requests == old(requests) + 1
    {
      if slave.syncs.Missing? || !handle || (slave.inits.Missing? && slave.inits.claimed != 0) {
        return false;
      }
      ok := PrepareInits(slave);
      if ok {
        ok := PrepareSyncs(slave, s);
      }
      if !ok || !granted {
        return false;
      }
      requests := requests + 1;
    }

    method PrepareInits(slave: Slave) returns (ok: bool)
      modifies this`initWrites
      ensures ok <==> forall c | c in slave.inits.Items() :: CommandOk(c)
      ensures ok ==> initWrites == old(initWrites) + SlaveInits(slave)
    {
      var inits := slave.inits.Items();
      for i := 0 to |inits|
        invariant forall c | c in inits[..i] :: CommandOk(c)
        invariant initWrites == old(initWrites) + SlaveInits(slave)[..i]
      {
        var size := |inits[i].data|;
        if size != 1 && size != 2 && size != 4 && size != 8 {
          assert inits[i] in inits && !CommandOk(inits[i]);
          return false;
        }
        initWrites := initWrites + [InitWrite(Key(slave.position, inits[i].index, inits[i].sub), inits[i].data)];
        assert inits[..i + 1] == inits[..i] + [inits[i]];
      }
      assert inits[..|inits|] == inits;
      assert SlaveInits(slave)[..|inits|] == SlaveInits(slave);
      return true;
    }

    method PrepareSyncs(slave: Slave, s: nat) returns (ok: bool)
      requires slave.syncs.Present?
      modifies this`checks
      ensures ok <==>
        UniqueManagers(Managers(slave)) && (forall m | m in Managers(slave) :: SyncOk(m)) && |Managers(slave)| == 2
      ensures ok ==> checks == old(checks) + CompileSyncs(slave.position, s, Managers(slave), |Managers(slave)|)
    {
      hide CompileSync, CompileSyncs, SyncOk, UniqueManagers, ProcessSyncs, Scanned;
      var syncs := slave.syncs.Items();
      var seen2, seen3 := false, false;
      ghost var done: seq<Sync> := [];
      ScanBegins(slave.position, s, syncs);
      for i := 0 to |syncs|
        invariant Scanned(syncs, i, done, seen2, seen3)
        invariant forall m | m in done :: m.Process() && SyncOk(m)
        invariant checks == old(checks) + CompileSyncs(slave.position, s, done, |done|)
      {
        var sm := syncs[i];
        if sm.index != 2 && sm.index != 3 {
          ScanSkips(syncs, i, done, seen2, seen3);
          continue;
        }
        if (sm.index == 2 && seen2) || (sm.index == 3 && seen3) {
          ScanRepeats(syncs, i, done, seen2, seen3);
          return false;
        }
        ok := PrepareSync(slave.position, s, sm);
        if !ok {
          ScanRejects(syncs, i, done, seen2, seen3);
          return;
        }
        ScanTakes(syncs, i, done, seen2, seen3);
        CompileSyncsSnoc(slave.position, s, done, sm);
        seen2, seen3, done := seen2 || sm.index == 2, seen3 || sm.index == 3, done + [sm];
      }
      ScanEnds(syncs, done, seen2, seen3);
      return seen2 && seen3;
    }

    /** Slave after slave, up to the first that cannot be prepared. */
    method PrepareSlaves(slaves: seq<Slave>, handles: seq<bool>, grants: seq<bool>) returns (ok: bool)
      requires |handles| == |slaves| <= |grants|
      requires checks == [] && initWrites == [] && requests == 0
      modifies this`checks, this`initWrites, this`requests
      ensures ok <==> forall s | 0 <= s < |slaves| :: Preparable(slaves[s], handles[s], grants[s])
      ensures ok ==> (forall s | 0 <= s < |slaves| :: SlaveOk(slaves[s])) && checks == Compile(slaves, |slaves|)
      ensures ok ==> initWrites == Inits(slaves, |slaves|) && requests == |slaves|
    {
      hide SlaveOk, CompileSlave, SlaveInits, Compile, Inits;
      CompileNone(slaves);
      for s := 0 to |slaves|
        invariant forall k | 0 <= k < s :: Preparable(slaves[k], handles[k], grants[k])
        invariant checks == Compile(slaves, s) && initWrites == Inits(slaves, s) && requests == s
      {
        ok := PrepareSlave(slaves[s], s, handles[s], grants[s]);
        if !ok {
          return;
        }
        CompileNext(slaves, s);
      }
      return true;
    }

    /** Compiles the configuration; all or nothing counts as prepared. `handles` says which slave handles
        are present, `grants` which SDO requests the master hands out. */
    method Prepare(config: Table<Slave>, handles: seq<bool>, grants: seq<bool>) returns (ok: bool)
      requires |grants| >= |config.Items()|
      modifies this
      ensures Valid()
      ensures ok <==>
        && config.Present? && config.items != [] && |handles| == |config.items|
        && forall s | 0 <= s < |config.items| :: Preparable(config.items[s], handles[s], grants[s])
      ensures prepared == ok
      ensures result.Pending? && !started && !busy && cursor == 0
      ensures ok ==> (forall s | 0 <= s < |config.items| :: SlaveOk(config.items[s]))
      ensures ok ==> checks == Compile(config.items, |config.items|)
      ensures ok ==> initWrites == Inits(config.items, |config.items|) && requests == |config.items|
    {
      hide Preparable, SlaveOk, Compile, Inits, WellFormed;
      Reset();
      if config.Missing? || config.items == [] || |handles| != |config.items| {
        return false;
      }
      ok := PrepareSlaves(config.items, handles, grants);
      if ok {
        CompileWellFormed(config.items, |config.items|);
        prepared := true;
      }
    }

    /** One step of the second verification, called from the cycle: it never waits. */
    method Step(bus: Bus.SdoRequests, now: int) returns (r: Result, ghost a: Answer)
      requires Valid()
      modifies bus, this`cursor, this`requestDeadline, this`started, this`busy, this`result, this`error
      ensures Valid() && r == result && a.Whole()
      ensures Fields() == StepOf(old(Fields()), now, a)
      ensures bus.calls == old(bus.calls) + CallsOf(old(Fields()), now, a)
    {
      hide *;
      ghost var v, calls := Fields(), bus.calls;
      FieldsAre();
      a := Answer(0, 0, Unused, 0, None);
      r := result;
      WholeAnswer(a);
      RestCases(v, now, a);
      if result != Pending {
        NoCallsMore(calls);
        return;
      }
      if !prepared {
        Fail(NotPrepared, 0, 0, 0);
        FieldsAre();
        NoCallsMore(calls);
        return result, a;
      }
      started := true;
      FieldsAre();
      if busy {
        a := Finish(bus, now);
        RestCases(v, now, a);
        r := result;
        return;
      }
      var check := checks[cursor];
      var request := check.slave;
      var indexRc := bus.SetIndex(request, check.index, check.sub);
      a := a.(indexRc := indexRc);
      LaunchCases(v, now, a, calls);
      WholeAnswer(a);
      if indexRc != 0 {
        Fail(SetIndex, indexRc, 0, 0);
        FieldsAre();
        return result, a;
      }
      var readRc := bus.Read(request);
      a := a.(readRc := readRc);
      LaunchCases(v, now, a, calls);
      WholeAnswer(a);
      if readRc != 0 {
        Fail(StartRead, readRc, 0, 0);
        FieldsAre();
        return result, a;
      }
      requestDeadline := now + REQUEST_TIMEOUT;
      busy := true;
      FieldsAre();
    }

    lemma NoCallsMore(calls: seq<Call>)
      ensures calls + [] == calls
    {
    }

    /** The step of a busy request: it is judged once IgH is done with it. */
    method Finish(bus: Bus.SdoRequests, now: int) returns (ghost a: Answer)
      requires Valid() && prepared && started && busy && result.Pending?
      modifies bus, this`cursor, this`busy, this`result, this`error
      ensures Valid() && a.Whole()
      ensures Fields() == StepOf(old(Fields()), now, a)
      ensures bus.calls == old(bus.calls) + CallsOf(old(Fields()), now, a)
    {
      hide *;
      ghost var v := Fields();
      FieldsAre();
      a := Answer(0, 0, Unused, 0, None);
      WholeAnswer(a);
      var check := checks[cursor];
      var request := check.slave;
      // the limit of a request does not depend on its answers
      if now >= requestDeadline {
        FinishCases(v, now, a);
        Fail(RequestTimeout, 0, 0, 0);
        FieldsAre();
        return;
      }
      var state := bus.State(request);
      a := a.(state := state);
      WholeAnswer(a);
      if state.Busy? {
        FinishCases(v, now, a);
        return;
      }
      if !state.Success? {
        FinishCases(v, now, a);
        Fail(ReadFailed, 0, 0, 0);
        FieldsAre();
        return;
      }
      var size := bus.DataSize(request);
      a := a.(size := size);
      var data := None;
      if size == check.size {
        data := bus.Data(request, size);
        a := a.(data := data);
      }
      WholeAnswer(a);
      FinishCases(v, now, a);
      CheckIsOk(checks, cursor);
      var ok := Compare(data, size);
      if !ok {
        FieldsAre();
        return;
      }
      JudgeAccepts(v, size, data);
      busy := false;
      cursor := cursor + 1;
      if cursor == |checks| {
        result := Complete;
      }
      FieldsAre();
    }

    lemma FieldsAre()
      ensures Fields() == Verifier(checks, requests, cursor, requestDeadline, started, prepared, busy, result, error)
      ensures Valid() <==> Fields().Valid() && (prepared ==> WellFormed(checks) && checks != [])
      ensures Valid() && prepared && result.Pending? ==> cursor < |checks|
    {
    }

    lemma WholeAnswer(a: Answer)
      ensures a.Whole() <==> (a.data.Some? ==> |a.data.value| == a.size)
    {
    }

    /** Gives the verification up from outside, e.g. when the bus loses its health. */
    method Abort(failure: Failure)
      requires Valid()
      modifies this`result, this`error
      ensures Valid() && Fields() == FailWith(old(Fields()), failure, 0, 0, 0)
    {
      Fail(failure, 0, 0, 0);
    }

    method Fail(failure: Failure, apiError: int, actual: nat, actualSize: nat)
      modifies this`result, this`error
      ensures result == Failed
      ensures old(result) == Failed ==> error == old(error)
      ensures old(result) != Failed ==>
        error.failure == failure && error.apiError == apiError && error.actual == actual &&
        error.actualSize == actualSize
      ensures old(result) != Failed && cursor < |checks| ==> error.check == Some(checks[cursor])
      ensures Fields() == FailWith(old(Fields()), failure, apiError, actual, actualSize)
    {
      if result == Failed {
        return;
      }
      var check := None;
      if checks != [] {
        check := Some(checks[if cursor < |checks| then cursor else |checks| - 1]);
      }
      error := Error(failure, check, actual, actualSize, apiError);
      result := Failed;
    }

    /** Queries the slave, then the clock; both must be right before and after every SDO call. */
    method Guard(ghost job: Job, bus: Bus.Master, deadline: int, c: Check) returns (ok: bool)
      requires Safe(job, bus.trace) && Run(job, bus.trace).gate.deadline == Some(deadline)
      requires result == Pending
      modifies bus, this`result, this`error
      ensures Safe(job, bus.trace)
      ensures ok ==> result == Pending && error == old(error)
      ensures ok ==> Run(job, bus.trace) == Opened(Run(job, old(bus.trace)), c.position)
      ensures !ok ==> result == Failed && IsGuardFailure(error.failure) && error.check == Some(c)
      ensures old(bus.trace) <= bus.trace
      ensures if ok then |bus.trace| == |old(bus.trace)| + 2 && Passed(bus.trace, deadline)
              else Tells(error, Some(deadline), bus.trace)
      ensures !ok ==> Run(job, bus.trace) == Tripped(Run(job, old(bus.trace)))
      ensures Sdos(bus.trace) == Sdos(old(bus.trace))
    {
      hide Run, Sdos;
      ghost var before := bus.trace;
      var rc, al, errorFlag := bus.GetSlave(c.position);
      SafeSnoc(job, before, State(c.position, rc, al, errorFlag));
      SdosSnoc(before, State(c.position, rc, al, errorFlag));
      if rc != 0 || al != AL_PREOP || errorFlag != 0 {
        Fail(PreopState, rc, al, errorFlag);
        error := error.(check := Some(c));
        return false;
      }
      before := bus.trace;
      var time := bus.Monotonic();
      SafeSnoc(job, before, Clock(time));
      SdosSnoc(before, Clock(time));
      match time {
        case None => Fail(ClockFailed, 0, 0, 0);
        case Some(now) =>
          if now >= deadline {
            Fail(PreopTimeout, 0, 0, 0);
          }
      }
      if result == Failed {
        error := error.(check := Some(c));
      }
      ok := result != Failed;
    }

    /** One guarded write of check c. */
    method Write(ghost job: Job, bus: Bus.Master, deadline: int, c: Check, phase: nat) returns (ok: bool)
      requires Safe(job, bus.trace) && Going(job, deadline, Run(job, bus.trace))
      requires job.checks == checks && cursor < |checks| && c == checks[cursor]
      requires Run(job, bus.trace).progress.inits == |job.inits|
      requires PdoWrite(job, Run(job, bus.trace).progress, Run(job, bus.trace).ledger, cursor, KeyOf(c), PhaseData(c, phase))
      requires CheckOk(checks, cursor)
      modifies bus, this`result, this`error
      ensures Safe(job, bus.trace) && Within(Run(job, old(bus.trace)), Run(job, bus.trace), 1)
      ensures OnlyPosition(Run(job, old(bus.trace)).device.dict, Run(job, bus.trace).device.dict, c.position)
      ensures ok ==> Going(job, deadline, Run(job, bus.trace)) && error == old(error)
      ensures ok ==> Written(Run(job, old(bus.trace)), Run(job, bus.trace), KeyOf(c), PhaseData(c, phase))
      ensures ok ==> Sdos(bus.trace) == Sdos(old(bus.trace)) + [Download(KeyOf(c), PhaseData(c, phase), 0)]
      ensures ok ==> Run(job, bus.trace).progress == Run(job, old(bus.trace)).progress
      ensures !ok ==> Broken(job, deadline, bus.trace) && !Run(job, bus.trace).Healthy()
    {
      hide Run, Safe, InOrder, PdoWrite, InBlock, KeysDistinct, WellFormed, Fields, FailWith, PhaseValue, Encode, Sdos, InitImage,
        Restored;
      ok := Guard(job, bus, deadline, c);
      if !ok {
        return;
      }
      var value := PhaseValue(c, phase);
      var data := Pack(value, c.size);
      ghost var before := bus.trace;
      var rc := bus.SdoDownload(KeyOf(c), data);
      SafeSnoc(job, before, Download(KeyOf(c), data, rc));
      SdosSnoc(before, Download(KeyOf(c), data, rc));
      ok := Guard(job, bus, deadline, c);  // an answer counts only if time and state were still right after it
      if ok && rc != 0 {
        Fail(WriteFailed, rc, value, c.size);
        ExpectedFits(checks, cursor);
        PhaseFits(c, phase);
        CallTold(error, deadline, bus.trace, Download(KeyOf(c), data, rc));
        ok := false;
      }
    }

    /** One guarded read of check c. */
    method Read(ghost job: Job, bus: Bus.Master, deadline: int, c: Check) returns (ok: bool, data: seq<uint8>)
      requires Safe(job, bus.trace) && Going(job, deadline, Run(job, bus.trace))
      requires job.checks == checks && cursor < |checks| && c == checks[cursor]
      requires Run(job, bus.trace).progress.inits == |job.inits|
      requires InBlock(job, Run(job, bus.trace).progress, cursor)
      modifies bus, this`result, this`error
      ensures Safe(job, bus.trace) && Within(Run(job, old(bus.trace)), Run(job, bus.trace), 1)
      ensures Run(job, bus.trace).device.dict == Run(job, old(bus.trace)).device.dict
      ensures ok ==> Going(job, deadline, Run(job, bus.trace)) && error == old(error)
      ensures ok ==> WasRead(Run(job, old(bus.trace)), Run(job, bus.trace), KeyOf(c), data)
      ensures ok ==> Sdos(bus.trace) == Sdos(old(bus.trace)) + [Upload(KeyOf(c), 0, data)]
      ensures ok ==> Answered(bus.trace, deadline, Upload(KeyOf(c), 0, data))
      ensures !ok ==> Broken(job, deadline, bus.trace) && !Run(job, bus.trace).Healthy()
      ensures ok ==> Run(job, bus.trace).progress == Run(job, old(bus.trace)).progress
    {
      hide Run, Safe, InBlock, KeysDistinct, WellFormed, Fields, FailWith, Sdos, Restored;
      data := [];
      ok := Guard(job, bus, deadline, c);
      if !ok {
        return;
      }
      ghost var before := bus.trace;
      var rc;
      rc, data := bus.SdoUpload(KeyOf(c));
      assert PdoRead(job, Run(job, before).progress, cursor, KeyOf(c));
      SafeSnoc(job, before, Upload(KeyOf(c), rc, data));
      SdosSnoc(before, Upload(KeyOf(c), rc, data));
      ok := Guard(job, bus, deadline, c);
      if ok && rc != 0 {
        Fail(ReadFailed, rc, 0, 0);
        CallTold(error, deadline, bus.trace, Upload(KeyOf(c), rc, data));
        ok := false;
      }
    }

    /** Reads the object at the cursor and compares it with what is expected. */
    method ProbeObject(ghost job: Job, bus: Bus.Master, deadline: int) returns (ok: bool, same: bool, ghost data: seq<uint8>)
      requires Safe(job, bus.trace) && Going(job, deadline, Run(job, bus.trace))
      requires job.checks == checks && cursor < |checks| && CheckOk(checks, cursor)
      requires Run(job, bus.trace).progress.inits == |job.inits|
      requires InBlock(job, Run(job, bus.trace).progress, cursor)
      modifies bus, this`result, this`error
      ensures Safe(job, bus.trace)
      ensures result.Pending? ==> Going(job, deadline, Run(job, bus.trace)) && error == old(error)
      ensures result.Pending? ==> Run(job, bus.trace).progress == Run(job, old(bus.trace)).progress
      ensures !result.Pending? ==> Broken(job, deadline, bus.trace)
      ensures ok ==> ReadOf(Run(job, old(bus.trace)), Run(job, bus.trace), checks[cursor], data)
      ensures ok ==> OnlyReads(Sdos(old(bus.trace)), Sdos(bus.trace))
      ensures ok ==> (result.Pending? <==> |data| == checks[cursor].size)
      ensures ok ==> (result.Pending? && same <==> data == Wire(checks[cursor]))
      ensures !ok ==> !result.Pending? && ReadFailure(Run(job, old(bus.trace)), Run(job, bus.trace))
    {
      hide Run, Safe, Sdos, InBlock, Restored, KeysDistinct;
      var c := checks[cursor];
      var bytes;
      ok, bytes := Read(job, bus, deadline, c);
      same, data := false, bytes;
      if !ok {
        return;
      }
      ExpectedFits(checks, cursor);
      WireMatches(c, bytes);
      if |bytes| != c.size {
        Fail(WrongSize, 0, 0, |bytes|);
        CallTold(error, deadline, bus.trace, Upload(KeyOf(c), 0, bytes));
        assert WrongSizeRead(Run(job, bus.trace).ledger, c);
        return;
      }
      var value := Unpack(bytes);
      same := value == c.expected;
    }

    /** Reads one non-empty mapping, count first, until an object fails or differs. */
    method ProbeGroup(ghost job: Job, bus: Bus.Master, deadline: int, head: nat) returns (matches: bool)
      requires Safe(job, bus.trace) && Going(job, deadline, Run(job, bus.trace))
      requires job.checks == checks && WellFormed(checks)
      requires Run(job, bus.trace).progress.inits == |job.inits|
      requires InBlock(job, Run(job, bus.trace).progress, head)
      requires checks[head].field.MappingCount?
      modifies bus, this`cursor, this`result, this`error
      ensures cursor == head + checks[head].expected
      ensures Safe(job, bus.trace)
      ensures Probed(job, head, Run(job, old(bus.trace)), Run(job, bus.trace), result.Pending?, matches)
      ensures result.Pending? ==> OnlyReads(Sdos(old(bus.trace)), Sdos(bus.trace))
      ensures result.Pending? ==> Going(job, deadline, Run(job, bus.trace)) && error == old(error)
      ensures result.Pending? ==> Run(job, bus.trace).progress == Run(job, old(bus.trace)).progress
      ensures !result.Pending? ==> Broken(job, deadline, bus.trace)
    {
      hide Run, Safe, Probing, Probed, ReadOf, ReadFailure, WellFormed, CheckOk, Protocol.Step, KeyOf, Wire, Sdos, OnlyReads,
        Caused, Tells;
      NothingRead(Sdos(bus.trace));
      matches := true;
      ghost var start := Run(job, bus.trace);
      GroupFits(checks, head);
      ProbeBegins(checks, head, start);
      var end := head + 1 + checks[head].expected;
      cursor := head;
      while cursor < end && matches && result.Pending?
        invariant head <= cursor <= end
        invariant Safe(job, bus.trace)
        invariant result.Pending? ==> Going(job, deadline, Run(job, bus.trace)) && error == old(error)
        invariant result.Pending? ==> Run(job, bus.trace).progress == start.progress
        invariant result.Pending? ==> OnlyReads(Sdos(old(bus.trace)), Sdos(bus.trace))
        invariant !result.Pending? ==> Broken(job, deadline, bus.trace)
        invariant if result.Pending? && matches then Probing(checks, head, cursor, start, Run(job, bus.trace))
                  else Probed(job, head, start, Run(job, bus.trace), result.Pending?, matches)
      {
        GroupMember(job, start.progress, head, cursor);
        ghost var before, calls := Run(job, bus.trace), Sdos(bus.trace);
        var ok;
        ghost var data;
        ok, matches, data := ProbeObject(job, bus, deadline);
        MoreRead(Sdos(old(bus.trace)), calls, Sdos(bus.trace));
        if !ok {
          ProbeFails(job, head, cursor, start, before, Run(job, bus.trace), matches);
        } else if result.Pending? && matches {
          ProbeMatches(checks, head, cursor, start, before, Run(job, bus.trace));
        } else {
          ProbeDiffers(job, head, cursor, start, before, Run(job, bus.trace), data, matches);
        }
        cursor := cursor + 1;
      }
      if result.Pending? && matches {
        ProbeCompletes(job, head, start, Run(job, bus.trace));
      }
      cursor := end - 1;
    }

    /** Marks the mappings that already are as configured; these are never rewritten. */
    method Preflight(ghost job: Job, bus: Bus.Master, deadline: int, begin: nat, end: nat, keep: array<bool>)
      requires Safe(job, bus.trace) && Going(job, deadline, Run(job, bus.trace))
      requires job.checks == checks && WellFormed(checks) && IsBlock(checks, begin, end) && keep.Length == |checks|
      requires Run(job, bus.trace).progress == Progress(|job.inits|, begin, false)
      requires Run(job, bus.trace).ledger == EMPTY_LEDGER
      requires forall i | begin <= i < end :: !keep[i]
      modifies bus, keep, this`cursor, this`result, this`error
      ensures Safe(job, bus.trace)
      ensures Within(Run(job, old(bus.trace)), Run(job, bus.trace), MappingCost(checks, begin, end))
      ensures Run(job, bus.trace).device.dict == Run(job, old(bus.trace)).device.dict
      ensures result.Pending? ==> Going(job, deadline, Run(job, bus.trace)) && error == old(error)
      ensures result.Pending? ==> Run(job, bus.trace).progress == Run(job, old(bus.trace)).progress
      ensures result.Pending? ==> Run(job, bus.trace).ledger.written == map[]
      ensures result.Pending? ==> KeepOk(job, Run(job, bus.trace).ledger, keep[..], begin, end)
      ensures result.Pending? ==> OnlyReads(Sdos(old(bus.trace)), Sdos(bus.trace))
      ensures !result.Pending? ==> Broken(job, deadline, bus.trace)
      ensures Run(job, bus.trace).Healthy() && Run(job, bus.trace).device.honest ==>
        (result.Pending? <==> AllReadable(Run(job, bus.trace).device.dict, checks, begin, end))
    {
      hide Run, Safe, Preflighting, Probed, WellFormed, KeyOf, Wire, Protocol.Step, KeepOk, AllReadable, Sdos, OnlyReads, Caused,
        Tells;
      NothingRead(Sdos(bus.trace));
      cursor := begin;
      ghost var start := Run(job, bus.trace);
      PreflightBegins(job, start, keep[..], begin, end);
      while cursor < end && result.Pending?
        invariant begin <= cursor <= end
        invariant Safe(job, bus.trace)
        invariant Preflighting(job, start, Run(job, bus.trace), keep[..], begin, end, cursor, result.Pending?)
        invariant result.Pending? ==> Going(job, deadline, Run(job, bus.trace)) && error == old(error)
        invariant result.Pending? ==> Run(job, bus.trace).progress == start.progress
        invariant result.Pending? ==> OnlyReads(Sdos(old(bus.trace)), Sdos(bus.trace))
        invariant !result.Pending? ==> Broken(job, deadline, bus.trace)
        decreases end - cursor
      {
        if checks[cursor].field != MappingCount || checks[cursor].expected == 0 {
          PreflightSkips(job, start, Run(job, bus.trace), keep[..], begin, end, cursor);
          cursor := cursor + 1;
          continue;
        }
        var head := cursor;
        ghost var before, marks := Run(job, bus.trace), keep[..];
        GroupInBlock(checks, begin, end, head);
        ghost var calls := Sdos(bus.trace);
        var matches := ProbeGroup(job, bus, deadline, head);
        MoreRead(Sdos(old(bus.trace)), calls, Sdos(bus.trace));
        if result.Pending? {
          if matches {
            forall i | head <= i <= head + checks[head].expected {
              keep[i] := true;
            }
            assert Marked(checks, marks, keep[..], begin, end, head, true);
          }
          PreflightProbes(job, start, before, Run(job, bus.trace), marks, keep[..], begin, end, head, matches);
        } else {
          PreflightFails(job, start, before, Run(job, bus.trace), marks, begin, end, head, matches);
        }
        cursor := cursor + 1;
      }
      PreflightEnds(job, start, Run(job, bus.trace), keep[..], begin, end, cursor, result.Pending?);
    }

    /** Assignments off, mappings off, entries, mappings on, assignment entries, assignments on. */
    method WritePhases(ghost job: Job, bus: Bus.Master, deadline: int, begin: nat, end: nat, keep: array<bool>)
      requires Safe(job, bus.trace) && Going(job, deadline, Run(job, bus.trace))
      requires job.checks == checks && WellFormed(checks) && IsBlock(checks, begin, end) && keep.Length == |checks|
      requires Run(job, bus.trace).progress == Progress(|job.inits|, begin, false)
      requires Run(job, bus.trace).ledger.written == map[]
      requires KeepOk(job, Run(job, bus.trace).ledger, keep[..], begin, end)
      modifies bus, this`cursor, this`result, this`error
      ensures Safe(job, bus.trace)
      ensures result.Pending? ==>
        && Going(job, deadline, Run(job, bus.trace)) && error == old(error)
        && Run(job, bus.trace).progress == Run(job, old(bus.trace)).progress
        && Writing(job, Run(job, old(bus.trace)), Run(job, bus.trace), keep[..], begin, end, PHASES, begin)
        && Sdos(bus.trace) == Sdos(old(bus.trace)) + AttemptDownloads(checks, keep[..], begin, end, 6)
      ensures !result.Pending? ==>
        && Broken(job, deadline, bus.trace)
        && WritingFailed(job, Run(job, old(bus.trace)), Run(job, bus.trace), begin, end)
    {
      hide Run, Safe, Writing, WritingFailed, WellFormed, KeysDistinct, KeepOk, InOrder, Protocol.Step, OnlyPosition, Broken,
        Sdos, AttemptDownloads, PhaseDownloads;
      ghost var start, marks := Run(job, bus.trace), keep[..];
      NoDownloads(checks, marks, begin, end, 0, Sdos(bus.trace));
      WritingBegins(job, start, marks, begin, end);
      var phase := 0;
      while phase < PHASES && result.Pending?
        invariant phase <= PHASES
        invariant Safe(job, bus.trace)
        invariant result.Pending? ==> Going(job, deadline, Run(job, bus.trace)) && error == old(error)
        invariant result.Pending? ==> Run(job, bus.trace).progress == start.progress
        invariant result.Pending? ==> Writing(job, start, Run(job, bus.trace), marks, begin, end, phase, begin)
        invariant result.Pending? ==> Sdos(bus.trace) == Sdos(old(bus.trace)) + AttemptDownloads(checks, marks, begin, end, phase)
        invariant !result.Pending? ==> Broken(job, deadline, bus.trace) && result.Failed?
        invariant !result.Pending? ==> WritingFailed(job, start, Run(job, bus.trace), begin, end)
        decreases PHASES - phase
      {
        WritePhase(job, bus, deadline, begin, end, keep, phase, start);
        OutcomeOf(job, deadline, bus.trace);
        if result.Pending? {
          NextDownloads(checks, marks, begin, end, phase, Sdos(old(bus.trace)));
          WritingAdvances(job, start, Run(job, bus.trace), marks, begin, end, phase);
        }
        phase := phase + 1;
      }
    }

    /** Writes every check of the slave that belongs to the phase and is neither kept nor an empty count. */
    method WritePhase(ghost job: Job, bus: Bus.Master, deadline: int, begin: nat, end: nat, keep: array<bool>,
                      phase: nat, ghost start: Monitor)
      requires Safe(job, bus.trace) && Going(job, deadline, Run(job, bus.trace))
      requires job.checks == checks && WellFormed(checks) && IsBlock(checks, begin, end) && keep.Length == |checks|
      requires Run(job, bus.trace).progress == Progress(|job.inits|, begin, false) && phase < PHASES
      requires Writing(job, start, Run(job, bus.trace), keep[..], begin, end, phase, begin)
      modifies bus, this`cursor, this`result, this`error
      ensures Safe(job, bus.trace)
      ensures result.Pending? ==>
        && Going(job, deadline, Run(job, bus.trace)) && error == old(error)
        && Run(job, bus.trace).progress == Run(job, old(bus.trace)).progress
        && Writing(job, start, Run(job, bus.trace), keep[..], begin, end, phase, end)
        && Sdos(bus.trace) == Sdos(old(bus.trace)) + PhaseDownloads(checks, keep[..], begin, end, phase)
      ensures !result.Pending? ==>
        Broken(job, deadline, bus.trace) && WritingFailed(job, start, Run(job, bus.trace), begin, end)
    {
      hide *;
      BlockRange(checks, begin, end);
      OutcomeOf(job, deadline, bus.trace);
      ghost var marks := keep[..];
      NoDownloads(checks, marks, begin, end, phase, Sdos(bus.trace));
      cursor := begin;
      while cursor < end
        invariant begin <= cursor <= end
        invariant Sdos(bus.trace) == Sdos(old(bus.trace)) + PhaseDownloads(checks, marks, begin, cursor, phase)
        invariant Safe(job, bus.trace) && Going(job, deadline, Run(job, bus.trace)) && error == old(error)
        invariant Run(job, bus.trace).progress == Progress(|job.inits|, begin, false)
        invariant Writing(job, start, Run(job, bus.trace), marks, begin, end, phase, cursor)
      {
        var c := checks[cursor];
        WritableMeans(c, keep[cursor]);
        BlockPosition(checks, begin, end, cursor);
        NextDownload(checks, marks, begin, cursor, phase, Sdos(old(bus.trace)));
        if c.field != PhaseField(phase) || keep[cursor] || (c.field == MappingCount && c.expected == 0) {
          WritingSkips(job, start, Run(job, bus.trace), marks, begin, end, phase, cursor);
          cursor := cursor + 1;
          continue;
        }
        ghost var before := Run(job, bus.trace);
        CheckIsOk(checks, cursor);
        WritingAllowed(job, start, before, marks, begin, end, phase, cursor);
        var ok := Write(job, bus, deadline, c, phase);
        OutcomeOf(job, deadline, bus.trace);
        if !ok {
          WritingBreaks(job, start, before, Run(job, bus.trace), marks, begin, end, phase, cursor);
          return;
        }
        WritingWrites(job, start, before, Run(job, bus.trace), marks, begin, end, phase, cursor);
        cursor := cursor + 1;
      }
      OutcomeOf(job, deadline, bus.trace);
    }

    /** Compares an answer with the check at the cursor; `data` is absent when the buffer must not be used. */
    method Compare(data: Option<seq<uint8>>, size: nat) returns (ok: bool)
      requires cursor < |checks| && CheckOk(checks, cursor) && result.Pending?
      requires data.Some? ==> |data.value| == size
      modifies this`result, this`error
      ensures ok <==> result.Pending?
      ensures ok <==> data == Some(Wire(checks[cursor]))
      ensures ok ==> error == old(error)
      ensures ok ==> Fields() == old(Fields())
      ensures ok ==> size == checks[cursor].size && data.Some? && Decode(data.value) == checks[cursor].expected
      ensures !ok ==> Fields() == Judge(old(Fields()), size, data)
      ensures !ok ==> result.Failed? && error.check == Some(checks[cursor]) && !IsGuardFailure(error.failure)
      ensures !ok ==>
        error.failure == if size != checks[cursor].size then WrongSize else if data.None? then ReadFailed else WrongValue
      ensures error.failure.WrongValue? && !ok ==> error.actual == Decode(data.value) != checks[cursor].expected
      ensures !ok && !error.failure.ReadFailed? ==> error.actualSize == size
    {
      var check := checks[cursor];
      ExpectedFits(checks, cursor);
      if data.Some? {
        WireMatches(check, data.value);
      }
      if size != check.size {
        Fail(WrongSize, 0, 0, size);
        return false;
      }
      if data.None? {
        Fail(ReadFailed, 0, 0, 0);
        return false;
      }
      var value := Unpack(data.value);
      if value != check.expected {
        Fail(WrongValue, 0, value, size);
        return false;
      }
      return true;
    }

    /** Reads every object of the slave back after its last write: success means that the SDO calls since then
        are exactly one accepted upload per check, in order and with its expected bytes, repeated objects
        included. */
    method Readback(ghost job: Job, bus: Bus.Master, deadline: int, begin: nat, end: nat)
      requires Safe(job, bus.trace) && Going(job, deadline, Run(job, bus.trace))
      requires job.checks == checks && WellFormed(checks) && IsBlock(checks, begin, end)
      requires Run(job, bus.trace).progress == Progress(|job.inits|, begin, false)
      requires KeysDistinct(checks) ==> Restored(job, Run(job, bus.trace).progress, Run(job, bus.trace).ledger)
      modifies bus, this`cursor, this`result, this`error
      ensures Safe(job, bus.trace)
      ensures ReadBackDone(job, Run(job, old(bus.trace)), Run(job, bus.trace), begin, end, result.Pending?)
      ensures result.Pending? ==> Sdos(bus.trace) == Sdos(old(bus.trace)) + RightUploads(checks, begin, end)
      ensures result.Pending? ==> Going(job, deadline, Run(job, bus.trace)) && error == old(error)
      ensures result.Pending? ==> Run(job, bus.trace).progress == Run(job, old(bus.trace)).progress
      ensures !result.Pending? ==> Broken(job, deadline, bus.trace)
    {
      hide *;
      BlockRange(checks, begin, end);
      OutcomeOf(job, deadline, bus.trace);
      ghost var start := Run(job, bus.trace);
      NothingConfirmed(job, start, begin);
      NoUploads(checks, begin, Sdos(bus.trace));
      cursor := begin;
      while cursor < end
        invariant begin <= cursor <= end
        invariant Sdos(bus.trace) == Sdos(old(bus.trace)) + RightUploads(checks, begin, cursor)
        invariant Safe(job, bus.trace) && Going(job, deadline, Run(job, bus.trace)) && error == old(error)
        invariant Run(job, bus.trace).progress == start.progress
        invariant Confirming(job, start, Run(job, bus.trace), begin, cursor)
      {
        CheckIsOk(checks, cursor);
        InThisBlock(job, Run(job, bus.trace).progress, begin, end, cursor);
        ghost var before := Run(job, bus.trace);
        var c := checks[cursor];
        var ok, data := Read(job, bus, deadline, c);
        OutcomeOf(job, deadline, bus.trace);
        ReadOutcome(before, Run(job, bus.trace), c, data, ok);
        if ok {
          ok := Compare(Some(data), |data|);
          if !ok {
            WrongAnswerCases(job, start, before, Run(job, bus.trace), begin, cursor, data);
            WrongAnswerBreaks(job, deadline, bus.trace, cursor, data);
          }
        }
        if !ok {
          ConfirmingBreaks(job, start, before, Run(job, bus.trace), begin, end, cursor, data);
          return;
        }
        ConfirmingContinues(job, start, before, Run(job, bus.trace), begin, end, cursor);
        NextUpload(checks, begin, cursor, Sdos(old(bus.trace)));
        cursor := cursor + 1;
      }
      OutcomeOf(job, deadline, bus.trace);
      ConfirmingEnds(job, start, Run(job, bus.trace), begin, end);
    }

    /** One attempt at one slave: preflight, the six phases, full readback. Success means that its SDO calls are reads,
        then the writes of the phases in order, then one right answer per check. */
    method Attempt(ghost job: Job, bus: Bus.Master, deadline: int, begin: nat, end: nat, keep: array<bool>)
      returns (ghost probes: seq<Event>)
      requires Safe(job, bus.trace)
      requires job.checks == checks && WellFormed(checks) && IsBlock(checks, begin, end) && keep.Length == |checks|
      requires Run(job, bus.trace).progress == Progress(|job.inits|, begin, false)
      requires Run(job, bus.trace).ledger == EMPTY_LEDGER
      requires Run(job, bus.trace).gate.deadline == Some(deadline) && !Run(job, bus.trace).gate.tripped
      modifies bus, keep, this`cursor, this`result, this`error
      ensures Safe(job, bus.trace)
      ensures Attempted(job, Run(job, old(bus.trace)), Run(job, bus.trace), begin, end, result.Pending?)
      ensures result.Pending? ==> OnlyReads(Sdos(old(bus.trace)), probes)
      ensures result.Pending? ==>
        Sdos(bus.trace) == probes + AttemptDownloads(checks, keep[..], begin, end, 6) + RightUploads(checks, begin, end)
      ensures result.Pending? ==> Going(job, deadline, Run(job, bus.trace)) && error == NO_ERROR
      ensures result.Pending? ==> Run(job, bus.trace).progress == Run(job, old(bus.trace)).progress
      ensures !result.Pending? ==> Broken(job, deadline, bus.trace)
    {
      hide Run, Safe, Protocol.Step, WellFormed, KeepOk, AllReadable, Writing, WritingFailed, ReadBackDone, KeysDistinct, Attempted,
        Within, Sdos, AttemptDownloads, RightUploads, Broken, Restored;
      result := Pending;
      error := NO_ERROR;
      forall i | begin <= i < end {
        keep[i] := false;
      }
      ghost var start := Run(job, bus.trace);
      Preflight(job, bus, deadline, begin, end, keep);
      ghost var probed := Run(job, bus.trace);
      probes := Sdos(bus.trace);
      if !result.Pending? {
        AttemptUnreadable(job, start, probed, begin, end);
        return;
      }
      WritePhases(job, bus, deadline, begin, end, keep);
      ghost var written := Run(job, bus.trace);
      if !result.Pending? {
        AttemptRejected(job, start, probed, written, begin, end);
        return;
      }
      ghost var t := bus.trace;
      AllRestored(job, probed, written, keep[..], begin, end);
      Readback(job, bus, deadline, begin, end);
      AttemptReadBack(job, t, start, probed, written, Run(job, bus.trace), keep[..], begin, end, result.Pending?);
    }

    /** Attempts at one slave until it is verified, the attempts run out, or a guard fails. */
    method ConfigureSlave(ghost job: Job, bus: Bus.Master, deadline: int, begin: nat, end: nat, keep: array<bool>,
                          maxAttempts: nat) returns (verified: bool)
      requires Safe(job, bus.trace) && maxAttempts > 0
      requires job.checks == checks && WellFormed(checks) && IsBlock(checks, begin, end) && keep.Length == |checks|
      requires ReadyForSlave(job, Run(job, bus.trace), deadline, begin)
      modifies bus, keep, this`cursor, this`result, this`error
      ensures Safe(job, bus.trace)
      ensures SlaveDone(job, Run(job, old(bus.trace)), Run(job, bus.trace), begin, end, maxAttempts, verified)
      ensures verified ==> result.Pending? && ReadyForSlave(job, Run(job, bus.trace), deadline, end)
      ensures !verified ==> result.Failed? && ReportedBy(job, deadline, bus.trace)
    {
      hide Run, Safe, WellFormed, Attempted, Tried, SlaveDone, KeysDistinct, Protocol.Step, Broken, Caused, Tells, Reported;
      ghost var start := Run(job, bus.trace);
      NothingTried(job, start, begin, end);
      var attempt := 1;
      while attempt <= maxAttempts
        invariant 1 <= attempt <= maxAttempts + 1
        invariant Safe(job, bus.trace)
        invariant ReadyForSlave(job, Run(job, bus.trace), deadline, begin)
        invariant Tried(job, start, Run(job, bus.trace), begin, end, attempt - 1)
        invariant attempt > 1 ==> result.Failed? && ReportedBy(job, deadline, bus.trace)
      {
        ghost var before := Run(job, bus.trace);
        ghost var probes := Attempt(job, bus, deadline, begin, end, keep);
        ghost var after, t := Run(job, bus.trace), bus.trace;
        if result.Pending? {
          bus.Log(Verified);
          ConfirmedBlock(job, before, after, begin, end);
          SafeSnoc(job, t, Verified);
          AttemptSucceeds(job, start, before, after, begin, end, attempt - 1, maxAttempts, deadline);
          return true;
        }
        OutcomeOf(job, deadline, bus.trace);
        bus.Log(AttemptFailed);
        ReportedAfterAttempt(error, Some(deadline), t);
        AttemptFails(job, start, before, after, begin, end, attempt - 1, deadline);
        SafeSnoc(job, t, AttemptFailed);
        StepFacts(job, after, AttemptFailed);
        if IsGuardFailure(error.failure) {
          GivesUp(job, start, Run(job, bus.trace), begin, end, attempt, maxAttempts);
          return false;  // a failed guard ends all attempts
        }
        attempt := attempt + 1;
      }
      GivesUp(job, start, Run(job, bus.trace), begin, end, maxAttempts, maxAttempts);
      return false;
    }

    /** The first n init commands are stored and nothing else was done. */
    ghost predicate InitsSent(job: Job, m: Monitor, deadline: int, n: nat) {
      && n <= |job.inits| && m.gate.deadline == Some(deadline) && !m.gate.tripped
      && m.progress == Progress(n, 0, false) && m.ledger == EMPTY_LEDGER
      && m.tally.sdo == n && m.tally.attempts == m.tally.failed == 0 && m.device.dict == InitImage(job, n)
    }

    lemma NoInitsSent(job: Job, m: Monitor, deadline: int)
      requires m == Start(job).(gate := Gate(Some(deadline), Shut, false))
      ensures InitsSent(job, m, deadline, 0)
    {
    }

    lemma AllInitsSent(job: Job, m: Monitor, deadline: int)
      requires InitsSent(job, m, deadline, |job.inits|)
      ensures ReadyForSlave(job, m, deadline, 0) && m.device.dict == InitImage(job, |job.inits|)
      ensures m.tally.sdo == |job.inits| && m.tally.attempts == m.tally.failed == 0
    {
    }

    /** The n-th init command. */
    method SendInit(ghost job: Job, bus: Bus.Master, deadline: int, n: nat) returns (ok: bool)
      requires job.inits == initWrites && job.checks == checks && n < |initWrites|
      requires Safe(job, bus.trace) && result.Pending? && InitsSent(job, Run(job, bus.trace), deadline, n)
      modifies bus, this`result, this`error
      ensures Safe(job, bus.trace)
      ensures ok ==> result.Pending? && error == old(error) && InitsSent(job, Run(job, bus.trace), deadline, n + 1)
      ensures !ok ==> result.Failed? && !CleanRun(job, Run(job, bus.trace)) && ReportedBy(job, deadline, bus.trace)
      ensures !ok ==> Run(job, bus.trace).gate.tripped || Run(job, bus.trace).progress.inits < |job.inits|
      ensures !ok ==> Run(job, bus.trace).tally.sdo <= |initWrites| && Run(job, bus.trace).tally.attempts == 0
    {
      hide Run, Safe, KeysDistinct, PdoWrite, Fields, FailWith, WellFormed, Sdos;
      var write := initWrites[n];
      var c := Check(write.key.position, 0, write.key.index, write.key.sub, |write.data| % 0x100, 0, InitField, 0);
      ok := Guard(job, bus, deadline, c);
      if !ok {
        return;
      }
      ghost var before := bus.trace;
      var rc := bus.SdoDownload(write.key, write.data);
      SafeSnoc(job, before, Download(write.key, write.data, rc));
      ok := Guard(job, bus, deadline, c);
      if ok && rc != 0 {
        Fail(WriteFailed, rc, 0, 0);
        error := error.(check := Some(c));
        CallTold(error, deadline, bus.trace, Download(write.key, write.data, rc));
        ok := false;
      }
      if !ok {
        return;
      }
      before := bus.trace;
      bus.Log(InitWritten);
      SafeSnoc(job, before, InitWritten);
    }

    /** The init commands, once each and in order. */
    method SendInits(ghost job: Job, bus: Bus.Master, deadline: int) returns (ok: bool)
      requires job.inits == initWrites && job.checks == checks
      requires Safe(job, bus.trace) && result.Pending?
      requires Run(job, bus.trace) == Start(job).(gate := Gate(Some(deadline), Shut, false))
      modifies bus, this`result, this`error
      ensures Safe(job, bus.trace)
      ensures Run(job, bus.trace).tally.sdo <= |initWrites|
      ensures ok ==> Run(job, bus.trace).tally.attempts == Run(job, bus.trace).tally.failed == 0
      ensures ok ==> result.Pending? && error == old(error) && ReadyForSlave(job, Run(job, bus.trace), deadline, 0)
      ensures ok ==> Run(job, bus.trace).device.dict == InitImage(job, |job.inits|)
      ensures !ok ==> result.Failed? && !CleanRun(job, Run(job, bus.trace)) && ReportedBy(job, deadline, bus.trace)
      ensures !ok ==> Run(job, bus.trace).gate.tripped || Run(job, bus.trace).progress.inits < |job.inits|
    {
      hide *;
      NoInitsSent(job, Run(job, bus.trace), deadline);
      for n := 0 to |initWrites|
        invariant Safe(job, bus.trace) && result.Pending? && error == old(error)
        invariant InitsSent(job, Run(job, bus.trace), deadline, n)
      {
        ok := SendInit(job, bus, deadline, n);
        if !ok {
          return;
        }
      }
      AllInitsSent(job, Run(job, bus.trace), deadline);
      ok := true;
    }

    /** Whether the call gets past its own checks; it then depends on the bus alone. */
    predicate Callable(hasMaster: bool, maxAttempts: nat)
      reads this
    {
      maxAttempts > 0 && prepared && hasMaster && !started && result.Pending?
    }

    /** Slave after slave, each to the end before the next. */
    method ConfigureSlaves(ghost job: Job, bus: Bus.Master, deadline: int, maxAttempts: nat) returns (ok: bool)
      requires job.checks == checks && WellFormed(checks) && maxAttempts > 0
      requires Safe(job, bus.trace) && result.Pending?
      requires ReadyForSlave(job, Run(job, bus.trace), deadline, 0) && Reaching(job, Run(job, bus.trace), 0, maxAttempts)
      modifies bus, this`cursor, this`result, this`error
      ensures Safe(job, bus.trace)
      ensures ok ==> ReadyForSlave(job, Run(job, bus.trace), deadline, |checks|)
      ensures ok ==> Reaching(job, Run(job, bus.trace), |checks|, maxAttempts)
      ensures !ok ==> result.Failed? && GaveUp(job, Run(job, bus.trace), maxAttempts)
      ensures !ok ==> ReportedBy(job, deadline, bus.trace)
    {
      hide Run, Safe, WellFormed, Reaching, GaveUp, SlaveDone, Protocol.Step;
      var keep := new bool[|checks|](_ => false);
      var begin := 0;
      while begin < |checks|
        invariant begin <= |checks| && AtBoundary(checks, begin)
        invariant Safe(job, bus.trace)
        invariant ReadyForSlave(job, Run(job, bus.trace), deadline, begin)
        invariant Reaching(job, Run(job, bus.trace), begin, maxAttempts)
      {
        var end := begin + 1;
        while end < |checks| && checks[end].slave == checks[begin].slave
          invariant begin < end <= |checks|
          invariant forall i | begin <= i < end :: checks[i].slave == checks[begin].slave
          invariant ScanBlock(checks, begin, begin + 1) == ScanBlock(checks, begin, end)
        {
          end := end + 1;
        }
        assert IsBlock(checks, begin, end);
        EndIsBoundary(checks, begin);
        ghost var before := Run(job, bus.trace);
        ok := ConfigureSlave(job, bus, deadline, begin, end, keep, maxAttempts);
        if !ok {
          ReachFails(job, before, Run(job, bus.trace), begin, end, maxAttempts);
          return;
        }
        ReachNext(job, before, Run(job, bus.trace), begin, end, maxAttempts);
        begin := end;
      }
      ok := true;
    }

    /** The call's own checks, the shared deadline, and the init commands. */
    method Begin(ghost job: Job, bus: Bus.Master, hasMaster: bool, timeoutMs: uint32)
      returns (ok: bool, deadline: int)
      requires Valid() && bus.trace == []
      requires job.checks == checks && job.inits == initWrites && job.timeout == timeoutMs * 1000000
      modifies bus, this`result, this`error
      ensures Safe(job, bus.trace)
      ensures Run(job, bus.trace).tally.sdo <= |initWrites|
      ensures ok ==> old(Callable(hasMaster, 1)) && result.Pending?
      ensures ok ==> ReadyForSlave(job, Run(job, bus.trace), deadline, 0)
      ensures ok ==> Reaching(job, Run(job, bus.trace), 0, 1)
      ensures !ok ==> result.Failed?
      ensures !ok && old(Callable(hasMaster, 1)) ==>
        && !CleanRun(job, Run(job, bus.trace))
        && (Run(job, bus.trace).gate.tripped || Run(job, bus.trace).progress.inits < |job.inits|)
        && Reported(error, Run(job, bus.trace).gate.deadline, bus.trace)
      ensures !ok && !old(Callable(hasMaster, 1)) ==> if old(result.Failed?) then error == old(error) else error.failure.NotPrepared?
      ensures !old(Callable(hasMaster, 1)) ==> Run(job, bus.trace).tally.sdo == 0
    {
      NoCalls(job);
      hide Run, Safe, WellFormed, KeysDistinct, Configurable, Allowed, Protocol.Step, Reaching, CleanRun, ReportedBy;
      ok, deadline := false, 0;
      if !prepared || !hasMaster || started {
        Fail(NotPrepared, 0, 0, 0);
        return;
      }
      var time := bus.Monotonic();
      assert bus.trace == [Clock(time)];
      FirstClock(job, time);
      if time.None? {
        Fail(ClockFailed, 0, 0, 0);
      }
      if result.Failed? {
        return;
      }
      deadline := time.value + timeoutMs * 1000000;
      ok := SendInits(job, bus, deadline);
      if ok {
        ReachFirst(job, Run(job, bus.trace), 1);
      } else {
        ReportedMeans(job, deadline, bus.trace);
      }
    }

    /** PREOP success grants no readiness: the startup loop verifies again, from the first check. */
    method Rewind()
      requires prepared && !started && !busy && checks != []
      requires WellFormed(checks) && forall c | c in checks :: c.slave < requests
      modifies this`cursor, this`result, this`error
      ensures Valid() && Fresh(Fields())
      ensures result.Pending? && cursor == 0 && error == NO_ERROR
    {
      cursor := 0;
      result := Pending;
      error := NO_ERROR;
    }

    /** PREOP configuration of the whole bus. `image` is the dictionary of the bus at the call. */
    method ConfigurePreop(bus: Bus.Master, hasMaster: bool, timeoutMs: uint32, maxAttempts: uint32, ghost image: Dict)
      returns (ok: bool, ghost job: Job)
      requires Valid() && bus.trace == []
      modifies bus, this`cursor, this`result, this`error
      ensures Valid()
      ensures job == Job(checks, initWrites, timeoutMs * 1000000, image)
      ensures Safe(job, bus.trace)
      ensures Configured(job, Run(job, bus.trace), old(Callable(hasMaster, maxAttempts)), maxAttempts, ok)
      ensures ok ==> result.Pending? && cursor == 0 && error == NO_ERROR && !started
      ensures ok ==> Fresh(Fields())
      ensures maxAttempts == 0 ==> Fields() == old(Fields()) && bus.trace == []
      ensures !ok && maxAttempts > 0 ==> result.Failed?
      ensures !ok && old(Callable(hasMaster, maxAttempts)) ==> Reported(error, Run(job, bus.trace).gate.deadline, bus.trace)
      ensures maxAttempts > 0 && !old(Callable(hasMaster, maxAttempts)) ==>
        if old(result.Failed?) then error == old(error) else error.failure.NotPrepared?
    {
      hide *;
      job := Job(checks, initWrites, timeoutMs * 1000000, image);
      NoCalls(job);
      NothingDone(job);
      CallableMeans(hasMaster, maxAttempts);
      if maxAttempts == 0 {
        NotConfigured(job, Run(job, bus.trace), false, maxAttempts);
        return false, job;
      }
      var deadline;
      ok, deadline := Begin(job, bus, hasMaster, timeoutMs);
      if !ok {
        FailedStaysValid();
        NotConfigured(job, Run(job, bus.trace), old(Callable(hasMaster, maxAttempts)), maxAttempts);
        return;
      }
      ReachMore(job, Run(job, bus.trace), maxAttempts);
      ok := ConfigureSlaves(job, bus, deadline, maxAttempts);
      if !ok {
        FailedStaysValid();
        GaveUpMeans(job, Run(job, bus.trace), maxAttempts);
        ReportedMeans(job, deadline, bus.trace);
        return;
      }
      ReachedMeans(job, Run(job, bus.trace), deadline, maxAttempts);
      Rewind();
    }

    lemma NothingDone(job: Job)
      ensures Start(job).tally.sdo == 0
    {
    }

    /** What the call may rely on once it is past its own checks. */
    lemma CallableMeans(hasMaster: bool, maxAttempts: nat)
      requires Valid()
      ensures Callable(hasMaster, maxAttempts) <==> maxAttempts > 0 && Callable(hasMaster, 1)
      ensures Callable(hasMaster, 1) ==>
        && prepared && !started && !busy && result.Pending? && checks != [] && WellFormed(checks)
        && forall c | c in checks :: c.slave < requests
    {
    }

    twostate lemma FailedStaysValid()
      requires old(Valid()) && result.Failed?
      requires checks == old(checks) && requests == old(requests) && started == old(started) && prepared == old(prepared)
      requires busy == old(busy)
      ensures Valid()
    {
    }
  }
}
