/** What every safe PREOP configuration run guarantees, whatever the bus answers. */
module PreopSafety {
  import opened Bytes
  import opened PdoConfig
  import opened Protocol
  import opened Wrappers

  lemma PrefixSafe(job: Job, t: seq<Event>, n: nat)
    requires n <= |t| && Safe(job, t)
    ensures Safe(job, t[..n])
  {
    forall i | 0 <= i < n ensures Allowed(job, Run(job, t[..n][..i]), t[..n][i]) {
      assert t[..n][..i] == t[..i];
    }
  }

  lemma RunStep(job: Job, t: seq<Event>, n: nat)
    requires n < |t|
    ensures Run(job, t[..n + 1]) == Step(job, Run(job, t[..n]), t[n])
  {
    assert t[..n + 1][..n] == t[..n];
  }

  // ---------- guard discipline ----------

  lemma StepFacts(job: Job, m: Monitor, e: Event)
    ensures var m' := Step(job, m, e);
      && (m.gate.deadline.Some? ==> m'.gate.deadline == m.gate.deadline)
      && (m.gate.tripped ==> m'.gate.tripped)
      && (m'.gate.pass.Seen? ==> e == State(m'.gate.pass.position, 0, AL_PREOP, 0))
      && (m'.gate.pass.Open? ==>
            && e.Clock? && e.time.Some? && m.gate.pass == Seen(m'.gate.pass.position)
            && m.gate.deadline.Some? && e.time.value < m.gate.deadline.value)
  {
  }

  lemma {:induction false} DeadlineKept(job: Job, t: seq<Event>, n: nat)
    requires n <= |t| && Run(job, t[..n]).gate.deadline.Some?
    ensures Run(job, t).gate.deadline == Run(job, t[..n]).gate.deadline
    decreases |t| - n
  {
    if n < |t| {
      hide Run, Step;
      RunStep(job, t, n);
      StepFacts(job, Run(job, t[..n]), t[n]);
      DeadlineKept(job, t, n + 1);
    } else {
      assert t[..n] == t;
    }
  }

  /** One budget for all slaves and attempts: the first clock reading fixes the deadline of the run. */
  lemma DeadlineIsShared(job: Job, t: seq<Event>)
    requires |t| > 0 && t[0].Clock? && t[0].time.Some?
    ensures Run(job, t).gate.deadline == Some(t[0].time.value + job.timeout)
  {
    RunStep(job, t, 0);
    DeadlineKept(job, t, 1);
  }

  /** Every SDO call comes right after a state query that found its slave in error-free PREOP (state 2) and a clock
      reading before the shared deadline. */
  lemma SdoIsGuarded(job: Job, t: seq<Event>, i: nat)
    requires Safe(job, t) && i < |t| && t[i].Sdo()
    ensures i >= 2
    ensures t[i - 2] == State(t[i].SdoKey().position, 0, 2, 0)
    ensures t[i - 1].Clock? && t[i - 1].time.Some?
    ensures Run(job, t).gate.deadline.Some? && t[i - 1].time.value < Run(job, t).gate.deadline.value
  {
    assert Allowed(job, Run(job, t[..i]), t[i]);
    assert Run(job, t[..0]).gate.pass.Shut?;
    hide Run, Step;
    RunStep(job, t, i - 1);
    StepFacts(job, Run(job, t[..i - 1]), t[i - 1]);
    assert i - 1 > 0;
    RunStep(job, t, i - 2);
    StepFacts(job, Run(job, t[..i - 2]), t[i - 2]);
    DeadlineKept(job, t, i - 1);
  }

  /** Event i is a check that failed its guard. */
  ghost predicate FailedGuard(job: Job, t: seq<Event>, i: nat)
    requires i < |t|
  {
    match t[i]
    case State(_, rc, al, flag) => rc != 0 || al != 2 || flag != 0
    case Clock(None) => true
    case Clock(Some(x)) => var d := Run(job, t[..i]).gate.deadline; d.Some? && x >= d.value
    case _ => false
  }

  lemma {:induction false} StaysTripped(job: Job, t: seq<Event>, i: nat, j: nat)
    requires i <= j <= |t| && Run(job, t[..i]).gate.tripped
    ensures Run(job, t[..j]).gate.tripped
    decreases j - i
  {
    if i < j {
      hide Run, Step;
      RunStep(job, t, i);
      StepFacts(job, Run(job, t[..i]), t[i]);
      StaysTripped(job, t, i + 1, j);
    }
  }

  /** Once a guard fails, no slave sees another SDO call. */
  lemma NothingAfterFailedGuard(job: Job, t: seq<Event>, i: nat, j: nat)
    requires Safe(job, t) && i < j < |t| && FailedGuard(job, t, i)
    ensures !t[j].Sdo()
  {
    RunStep(job, t, i);
    StaysTripped(job, t, i + 1, j);
    assert Allowed(job, Run(job, t[..j]), t[j]);
  }

  // ---------- init commands ----------

  /** The SDO calls of a trace, in order. */
  function Sdos(t: seq<Event>): seq<Event> {
    if t == [] then []
    else Sdos(t[..|t| - 1]) + if t[|t| - 1].Sdo() then [t[|t| - 1]] else []
  }

  lemma SdosSnoc(t: seq<Event>, e: Event)
    ensures Sdos(t + [e]) == if e.Sdo() then Sdos(t) + [e] else Sdos(t)
  {
    assert (t + [e])[..|t|] == t;
  }

  /** The failed attempts since the last verification. */
  function FailuresInRow(t: seq<Event>): nat {
    if t == [] then 0
    else match t[|t| - 1]
      case AttemptFailed => FailuresInRow(t[..|t| - 1]) + 1
      case Verified => 0
      case _ => FailuresInRow(t[..|t| - 1])
  }

  lemma {:induction false} FailuresAreCounted(job: Job, t: seq<Event>)
    ensures Run(job, t).tally.failed == FailuresInRow(t)
  {
    if t != [] {
      FailuresAreCounted(job, t[..|t| - 1]);
    }
  }

  function Rc(e: Event): int
    requires e.Sdo()
  {
    e.rc
  }

  ghost predicate OnCheck(job: Job, e: Event) {
    e.Sdo() && exists i :: 0 <= i < |job.checks| && e.SdoKey() == KeyOf(job.checks[i])
  }

  ghost predicate InitPhase(job: Job, m: Monitor, calls: seq<Event>) {
    && m.progress.inits <= |job.inits| && m.progress.inits <= |calls| && m.tally.sdo == |calls|
    && (forall k | 0 <= k < |calls| && k < |job.inits| ::
          calls[k].Download? && job.inits[k] == InitWrite(calls[k].key, calls[k].data))
    && (forall k | |job.inits| <= k < |calls| :: OnCheck(job, calls[k]))
    && (forall k | 0 <= k < m.progress.inits :: calls[k].Sdo() && Rc(calls[k]) == 0)
    && (m.progress.inits < |job.inits| ==> |calls| == m.progress.inits + if m.progress.stopped then 1 else 0)
  }

  lemma InitPhaseStep(job: Job, m: Monitor, calls: seq<Event>, e: Event)
    requires InitPhase(job, m, calls) && Allowed(job, m, e) && e.Sdo()
    ensures InitPhase(job, Step(job, m, e), calls + [e])
  {
    if m.progress.inits == |job.inits| {
      assert OnCheck(job, e) by {
        if e.Download? {
          var i: nat :| PdoWrite(job, m.progress, m.ledger, i, e.key, e.data);
          assert 0 <= i < |job.checks| && e.SdoKey() == KeyOf(job.checks[i]);
        } else {
          var i: nat :| PdoRead(job, m.progress, i, e.key);
          assert 0 <= i < |job.checks| && e.SdoKey() == KeyOf(job.checks[i]);
        }
      }
      assert forall k | |job.inits| <= k < |calls + [e]| :: (calls + [e])[k] == if k < |calls| then calls[k] else e;
    }
  }

  lemma {:induction false} InitPhaseHolds(job: Job, t: seq<Event>)
    requires Safe(job, t)
    ensures InitPhase(job, Run(job, t), Sdos(t))
  {
    if t != [] {
      var n := |t| - 1;
      PrefixSafe(job, t, n);
      InitPhaseHolds(job, t[..n]);
      assert Run(job, t) == Step(job, Run(job, t[..n]), t[n]);
      assert Sdos(t) == if t[n].Sdo() then Sdos(t[..n]) + [t[n]] else Sdos(t[..n]);
      assert Allowed(job, Run(job, t[..n]), t[n]);
      hide Run, Sdos;
      if t[n].Sdo() {
        InitPhaseStep(job, Run(job, t[..n]), Sdos(t[..n]), t[n]);
      }
    }
  }

  /** The k-th SDO call of a run is the k-th init command while there are any: each is sent at most once,
      in order, after all earlier ones were accepted, and before any PDO access. */
  lemma InitCommandsFirstAndOnce(job: Job, t: seq<Event>)
    requires Safe(job, t)
    ensures var calls := Sdos(t);
      && (forall k | 0 <= k < |calls| && k < |job.inits| ::
            calls[k].Download? && calls[k].key == job.inits[k].key && calls[k].data == job.inits[k].data)
      && (forall k | 0 <= k < |calls| - 1 && k < |job.inits| :: calls[k].Download? && calls[k].rc == 0)
      && (forall k | |job.inits| <= k < |calls| :: OnCheck(job, calls[k]))
  {
    InitPhaseHolds(job, t);
  }
}
