/** From attempts to slaves, and from slaves to the whole bus. */
module PreopSlaves {
  import opened Arithmetic
  import opened Bytes
  import opened PdoConfig
  import opened Protocol
  import opened Wrappers
  import opened PreopPhases
  import opened PreopCalls
  import opened PreopDictionary
  import opened PreopPreflight
  import opened PreopWriting

  /** All earlier slaves are verified, the init commands are sent and nothing has gone wrong for good. */
  ghost predicate ReadyForSlave(job: Job, m: Monitor, deadline: int, begin: nat) {
    && m.progress == Progress(|job.inits|, begin, false) && m.ledger == EMPTY_LEDGER
    && m.gate.deadline == Some(deadline) && !m.gate.tripped
  }

  ghost predicate CleanRun(job: Job, m: Monitor) {
    m.Healthy() && m.device.honest && KeysDistinct(job.checks) && PositionsDistinct(job.checks)
  }

  /** n attempts at the slave have failed. */
  ghost predicate Tried(job: Job, start: Monitor, m: Monitor, begin: nat, end: nat, n: nat)
    requires begin < end <= |job.checks|
  {
    && m.tally.sdo <= start.tally.sdo + 4 * (end - begin) * n
    && m.tally.attempts == start.tally.attempts + n && m.tally.failed == start.tally.failed + n
    && OnlyPosition(start.device.dict, m.device.dict, job.checks[begin].position)
    && (CleanRun(job, m) ==> CleanRun(job, start))
    && (CleanRun(job, m) && n > 0 ==>
          !Configurable(start.device.dict, job.checks, begin, end) && !Configurable(m.device.dict, job.checks, begin, end))
    && (n == 0 ==> m.device.dict == start.device.dict)
  }

  /** The outcome for one slave: the attempts end with the first that succeeds, and without one only at a failed
      guard or when all of them are used up. */
  ghost predicate SlaveDone(job: Job, start: Monitor, m: Monitor, begin: nat, end: nat, maxAttempts: nat, verified: bool)
    requires begin < end <= |job.checks|
  {
    && m.tally.sdo <= start.tally.sdo + 4 * (end - begin) * maxAttempts
    && m.tally.attempts <= start.tally.attempts + maxAttempts
    && (verified ==> m.tally.failed == 0)
    && (!verified ==> m.gate.tripped || m.tally.failed == start.tally.failed + maxAttempts)
    && OnlyPosition(start.device.dict, m.device.dict, job.checks[begin].position)
    && (CleanRun(job, m) ==>
          && CleanRun(job, start)
          && (verified <==> Configurable(start.device.dict, job.checks, begin, end))
          && (verified ==> m.tally.attempts == start.tally.attempts + 1))
  }

  lemma NothingTried(job: Job, m: Monitor, begin: nat, end: nat)
    requires begin < end <= |job.checks|
    ensures Tried(job, m, m, begin, end, 0)
  {
  }

  lemma ConfirmedBlock(job: Job, before: Monitor, m: Monitor, begin: nat, end: nat)
    requires begin < end <= |job.checks| && end == BlockEnd(job.checks, begin)
    requires Attempted(job, before, m, begin, end, true) && m.progress == Progress(|job.inits|, begin, false)
    requires !m.gate.tripped
    ensures Allowed(job, m, Verified)
  {
    if KeysDistinct(job.checks) || m.device.honest {
      forall i | InBlock(job, m.progress, i)
        ensures KeyOf(job.checks[i]) in m.ledger.confirmed &&
                m.ledger.confirmed[KeyOf(job.checks[i])] == Wire(job.checks[i])
      {
        assert HasValue(m.ledger.confirmed, job.checks[i]);
      }
    }
  }

  lemma CostOfAttempt(length: nat, n: nat)
    ensures 4 * length * n + 4 * length == 4 * length * (n + 1)
  {
  }

  lemma CostMonotone(length: nat, n: nat, n': nat)
    requires n <= n'
    ensures 4 * length * n <= 4 * length * n'
  {
  }

  lemma AttemptSucceeds(job: Job, start: Monitor, before: Monitor, m: Monitor, begin: nat, end: nat, n: nat,
                        maxAttempts: nat, deadline: int)
    requires begin < end <= |job.checks| && n < maxAttempts && end == BlockEnd(job.checks, begin)
    requires m.progress == Progress(|job.inits|, begin, false)
    requires m.gate.deadline == Some(deadline) && !m.gate.tripped
    requires Tried(job, start, before, begin, end, n) && Attempted(job, before, m, begin, end, true)
    ensures SlaveDone(job, start, Step(job, m, Verified), begin, end, maxAttempts, true)
    ensures ReadyForSlave(job, Step(job, m, Verified), deadline, end)
  {
    hide Configurable, KeysDistinct, PositionsDistinct;
    CostOfAttempt(end - begin, n);
    CostMonotone(end - begin, n + 1, maxAttempts);
  }

  lemma AttemptFails(job: Job, start: Monitor, before: Monitor, m: Monitor, begin: nat, end: nat, n: nat, deadline: int)
    requires begin < end <= |job.checks| && ReadyForSlave(job, before, deadline, begin)
    requires Tried(job, start, before, begin, end, n) && Attempted(job, before, m, begin, end, false) && Caused(job, m)
    ensures Allowed(job, m, AttemptFailed)
    ensures Tried(job, start, Step(job, m, AttemptFailed), begin, end, n + 1)
    ensures !m.gate.tripped ==> ReadyForSlave(job, Step(job, m, AttemptFailed), deadline, begin)
    ensures Step(job, m, AttemptFailed).gate.tripped == m.gate.tripped
  {
    hide Configurable, KeysDistinct, PositionsDistinct, Caused;
    CostOfAttempt(end - begin, n);
  }

  lemma GivesUp(job: Job, start: Monitor, m: Monitor, begin: nat, end: nat, n: nat, maxAttempts: nat)
    requires begin < end <= |job.checks| && 0 < n <= maxAttempts && Tried(job, start, m, begin, end, n)
    requires m.gate.tripped || n == maxAttempts
    ensures SlaveDone(job, start, m, begin, end, maxAttempts, false)
  {
    hide Configurable, KeysDistinct, PositionsDistinct;
    CostMonotone(end - begin, n, maxAttempts);
  }

  // ---------- the whole bus ----------

  /** The number of slaves with a check before n. */
  function SlaveCount(checks: seq<Check>, n: nat): nat
    requires n <= |checks|
  {
    if n == 0 then 0
    else SlaveCount(checks, n - 1) + if n == 1 || checks[n - 1].slave != checks[n - 2].slave then 1 else 0
  }

  lemma {:induction false} CountBlock(checks: seq<Check>, begin: nat, n: nat)
    requires begin < n <= |checks| && forall i | begin <= i < n :: checks[i].slave == checks[begin].slave
    requires begin > 0 ==> checks[begin - 1].slave != checks[begin].slave
    ensures SlaveCount(checks, n) == SlaveCount(checks, begin) + 1
  {
    if n > begin + 1 {
      CountBlock(checks, begin, n - 1);
    }
  }

  /** Configuration has reached the slave that starts at check `begin`. */
  ghost predicate Reaching(job: Job, m: Monitor, begin: nat, maxAttempts: nat)
    requires begin <= |job.checks|
  {
    && m.tally.sdo <= |job.inits| + 4 * begin * maxAttempts
    && m.tally.attempts <= begin * maxAttempts && m.tally.failed == 0
    && (CleanRun(job, m) ==>
          var image := InitImage(job, |job.inits|);
          && Configurable(image, job.checks, 0, begin)
          && m.tally.attempts == SlaveCount(job.checks, begin)
          && forall i | begin <= i < |job.checks| :: Same(image, m.device.dict, KeyOf(job.checks[i])))
  }

  /** Configuration ended at some slave. */
  ghost predicate GaveUp(job: Job, m: Monitor, maxAttempts: nat) {
    && m.tally.sdo <= |job.inits| + 4 * |job.checks| * maxAttempts
    && (m.gate.tripped || m.tally.failed == maxAttempts)
    && (CleanRun(job, m) ==> !Configurable(InitImage(job, |job.inits|), job.checks, 0, |job.checks|))
  }

  lemma ReachFirst(job: Job, m: Monitor, maxAttempts: nat)
    requires m.tally.sdo <= |job.inits| && m.tally.attempts == m.tally.failed == 0
    requires m.device.dict == InitImage(job, |job.inits|)
    ensures Reaching(job, m, 0, maxAttempts)
  {
  }

  lemma ReachMore(job: Job, m: Monitor, maxAttempts: nat)
    requires Reaching(job, m, 0, 1)
    ensures Reaching(job, m, 0, maxAttempts)
  {
  }

  lemma ReadableSame(d: Dict, d': Dict, checks: seq<Check>, begin: nat, end: nat, head: nat)
    requires WellFormed(checks) && IsBlock(checks, begin, end) && begin <= head < end
    requires checks[head].field == MappingCount && Readable(d, checks, head)
    requires forall i | begin <= i < end :: Same(d, d', KeyOf(checks[i]))
    ensures Readable(d', checks, head)
  {
    GroupInBlock(checks, begin, end, head);
    hide WellFormed, IsBlock;
    forall j | InGroup(checks, head, j) && forall i | head <= i < j :: HasValue(d', checks[i])
      ensures HasSize(d', checks[j])
    {
      assert forall i | head <= i < j :: Same(d, d', KeyOf(checks[i])) && HasValue(d', checks[i]);
      assert forall i | head <= i < j :: HasValue(d, checks[i]);
      assert Same(d, d', KeyOf(checks[j]));
      assert HasSize(d, checks[j]);
    }
  }

  lemma ConfigurableSame(d: Dict, d': Dict, checks: seq<Check>, begin: nat, end: nat)
    requires WellFormed(checks) && IsBlock(checks, begin, end)
    requires forall i | begin <= i < end :: Same(d, d', KeyOf(checks[i]))
    requires Configurable(d, checks, begin, end)
    ensures Configurable(d', checks, begin, end)
  {
    forall h | begin <= h < end && checks[h].field == MappingCount
      ensures if checks[h].expected == 0 then HasValue(d', checks[h]) else Readable(d', checks, h)
    {
      assert Same(d, d', KeyOf(checks[h]));
      if checks[h].expected != 0 {
        ReadableSame(d, d', checks, begin, end, h);
      }
    }
  }

  lemma OthersKept(checks: seq<Check>, image: Dict, d: Dict, d': Dict, begin: nat, end: nat)
    requires WellFormed(checks) && PositionsDistinct(checks) && IsBlock(checks, begin, end)
    requires forall i | begin <= i < |checks| :: Same(image, d, KeyOf(checks[i]))
    requires OnlyPosition(d, d', checks[begin].position)
    ensures forall i | end <= i < |checks| :: Same(image, d', KeyOf(checks[i]))
  {
    forall i | end <= i < |checks| ensures Same(image, d', KeyOf(checks[i])) {
      EndIsBoundary(checks, begin);
      BoundaryOrder(checks, end, begin, i);
      assert Same(image, d, KeyOf(checks[i]));
    }
  }

  lemma CostOfSlave(begin: nat, end: nat, maxAttempts: nat)
    requires begin <= end
    ensures 4 * begin * maxAttempts + 4 * (end - begin) * maxAttempts == 4 * end * maxAttempts
    ensures begin < end ==> begin * maxAttempts + maxAttempts <= end * maxAttempts
  {
    Distribute(4 * begin, 4 * (end - begin), maxAttempts);
    if begin < end {
      Distribute(begin, 1, maxAttempts);
      Distribute(begin + 1, end - begin - 1, maxAttempts);
      assert 0 <= (end - begin - 1) * maxAttempts;
    }
  }

  lemma BlockConfigurable(job: Job, m: Monitor, begin: nat, end: nat, image: Dict)
    requires WellFormed(job.checks) && IsBlock(job.checks, begin, end)
    requires forall i | begin <= i < |job.checks| :: Same(image, m.device.dict, KeyOf(job.checks[i]))
    ensures Configurable(image, job.checks, begin, end) <==> Configurable(m.device.dict, job.checks, begin, end)
  {
    if Configurable(image, job.checks, begin, end) {
      ConfigurableSame(image, m.device.dict, job.checks, begin, end);
    }
    if Configurable(m.device.dict, job.checks, begin, end) {
      ConfigurableSame(m.device.dict, image, job.checks, begin, end);
    }
  }

  lemma ReachNext(job: Job, m: Monitor, m': Monitor, begin: nat, end: nat, maxAttempts: nat)
    requires WellFormed(job.checks) && IsBlock(job.checks, begin, end)
    requires Reaching(job, m, begin, maxAttempts) && SlaveDone(job, m, m', begin, end, maxAttempts, true)
    ensures Reaching(job, m', end, maxAttempts)
  {
    hide WellFormed, KeysDistinct, PositionsDistinct, Readable, OnlyPosition, HasValue, InitImage, SlaveCount;
    CostOfSlave(begin, end, maxAttempts);
    if CleanRun(job, m') {
      var image := InitImage(job, |job.inits|);
      BlockConfigurable(job, m, begin, end, image);
      OthersKept(job.checks, image, m.device.dict, m'.device.dict, begin, end);
      CountBlock(job.checks, begin, end);
    }
  }

  lemma ReachFails(job: Job, m: Monitor, m': Monitor, begin: nat, end: nat, maxAttempts: nat)
    requires WellFormed(job.checks) && IsBlock(job.checks, begin, end)
    requires Reaching(job, m, begin, maxAttempts) && SlaveDone(job, m, m', begin, end, maxAttempts, false)
    ensures GaveUp(job, m', maxAttempts)
  {
    hide WellFormed, KeysDistinct, PositionsDistinct, Readable, OnlyPosition, HasValue, Same;
    CostOfSlave(begin, end, maxAttempts);
    CostOfSlave(end, |job.checks|, maxAttempts);
    var image := InitImage(job, |job.inits|);
    if CleanRun(job, m') {
      BlockConfigurable(job, m, begin, end, image);
      if Configurable(image, job.checks, 0, |job.checks|) {
        BlockOfAll(image, job.checks, begin, end);
      }
    }
  }

  lemma BlockOfAll(d: Dict, checks: seq<Check>, begin: nat, end: nat)
    requires end <= |checks| && Configurable(d, checks, 0, |checks|)
    ensures Configurable(d, checks, begin, end)
  {
  }

  lemma NoCalls(job: Job)
    ensures Safe(job, []) && Run(job, []) == Start(job)
  {
  }

  /** The most SDO calls one configuration may make. */
  function CallLimit(inits: nat, checks: nat, maxAttempts: nat): nat {
    inits + 4 * checks * maxAttempts
  }

  /** The outcome of the whole call. Its cost is bounded; it makes no SDO call unless its own checks pass;
      success means every slave is verified; without success some init command was refused, a guard failed, or
      all attempts at one slave failed, one after the other; and on a healthy passive bus with distinct objects it succeeds
      exactly when the bus is configurable, and then at the first attempt for every slave. */
  ghost predicate Configured(job: Job, m: Monitor, callable: bool, maxAttempts: nat, ok: bool) {
    && m.tally.sdo <= CallLimit(|job.inits|, |job.checks|, maxAttempts)
    && (!callable ==> !ok && m.tally.sdo == 0)
    && (ok ==> m.progress == Progress(|job.inits|, |job.checks|, false) && !m.gate.tripped)
    && (callable && !ok ==> m.gate.tripped || m.progress.inits < |job.inits| || m.tally.failed == maxAttempts)
    && (callable && CleanRun(job, m) ==>
          && (ok <==> Configurable(InitImage(job, |job.inits|), job.checks, 0, |job.checks|))
          && (ok ==> m.tally.attempts == SlaveCount(job.checks, |job.checks|)))
  }

  lemma NotConfigured(job: Job, m: Monitor, callable: bool, maxAttempts: nat)
    requires m.tally.sdo <= |job.inits| && (callable ==> !CleanRun(job, m)) && (!callable ==> m.tally.sdo == 0)
    requires callable ==> m.gate.tripped || m.progress.inits < |job.inits|
    ensures Configured(job, m, callable, maxAttempts, false)
  {
  }

  lemma GaveUpMeans(job: Job, m: Monitor, maxAttempts: nat)
    requires GaveUp(job, m, maxAttempts)
    ensures Configured(job, m, true, maxAttempts, false)
  {
  }

  lemma ReachedMeans(job: Job, m: Monitor, deadline: int, maxAttempts: nat)
    requires Reaching(job, m, |job.checks|, maxAttempts) && ReadyForSlave(job, m, deadline, |job.checks|)
    ensures Configured(job, m, true, maxAttempts, true)
  {
  }

  lemma FirstClock(job: Job, time: Option<int>)
    ensures Safe(job, [Clock(time)])
    ensures time.None? ==> Run(job, [Clock(time)]) == Start(job).(gate := Gate(None, Shut, true))
    ensures time.None? ==> !CleanRun(job, Run(job, [Clock(time)]))
    ensures time.Some? ==>
      Run(job, [Clock(time)]) == Start(job).(gate := Gate(Some(time.value + job.timeout), Shut, false))
  {
    NoCalls(job);
    SafeSnoc(job, [], Clock(time));
    assert [] + [Clock(time)] == [Clock(time)];
  }
}
