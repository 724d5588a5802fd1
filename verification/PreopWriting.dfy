/** Inside the six write phases and the readback of one attempt. */
module PreopWriting {
  import opened Bytes
  import opened PdoConfig
  import opened Protocol
  import opened PreopPhases
  import opened PreopCalls
  import opened PreopPreflight
  import opened PreopDictionary

  /** Only what this attempt wrote may differ from the dictionary it found. */
  ghost predicate WroteOnly(d: Dict, m: Monitor) {
    forall k: Key | k !in m.ledger.written ::
      (k in d <==> k in m.device.dict) && (k in d ==> d[k] == m.device.dict[k])
  }

  function PhasesCost(checks: seq<Check>, begin: nat, end: nat, phase: nat, cursor: nat): nat
    requires begin <= cursor <= end <= |checks|
  {
    PhaseCost(checks, begin, end, phase) +
    if phase < PHASES then Count(checks, PhaseField(phase), begin, cursor) else 0
  }

  /** The writing part of an attempt at phase `phase`, with the checks before the cursor done. */
  ghost predicate Writing(job: Job, start: Monitor, m: Monitor, keep: seq<bool>, begin: nat, end: nat,
                          phase: nat, cursor: nat)
    requires begin <= cursor <= end <= |job.checks| == |keep| && begin < end
  {
    && Within(start, m, PhasesCost(job.checks, begin, end, phase, cursor))
    && m.ledger.probed == start.ledger.probed
    && m.ledger.written == WrittenAt(job.checks, keep, begin, end, phase, cursor)
    && OnlyPosition(start.device.dict, m.device.dict, job.checks[begin].position)
    && WroteOnly(start.device.dict, m)
    && m.device.honest == start.device.honest && m.Healthy() == start.Healthy()
    && KeepOk(job, m.ledger, keep, begin, end)
    && (KeysDistinct(job.checks) ==> Progressed(job.checks, m.ledger, keep, begin, end, phase, cursor))
  }

  /** The writing part broke off on a rejected call or a failed guard. */
  ghost predicate WritingFailed(job: Job, start: Monitor, m: Monitor, begin: nat, end: nat)
    requires begin < end <= |job.checks|
  {
    && Within(start, m, PhaseCost(job.checks, begin, end, PHASES))
    && OnlyPosition(start.device.dict, m.device.dict, job.checks[begin].position)
    && !m.Healthy()
  }

  lemma KeepOkKept(job: Job, l: Ledger, l': Ledger, keep: seq<bool>, begin: nat, end: nat)
    requires end <= |job.checks| == |keep| && l.probed == l'.probed && KeepOk(job, l, keep, begin, end)
    ensures KeepOk(job, l', keep, begin, end)
  {
    if KeysDistinct(job.checks) {
      forall i | begin <= i < end && job.checks[i].field == MappingCount && Writable(job.checks[i], keep[i])
        ensures Mismatched(job, l', i)
      {
        assert Mismatched(job, l, i);
        var j :| InGroup(job.checks, i, j) && Differs(l, job.checks[j]);
        assert Differs(l', job.checks[j]);
      }
    }
  }

  lemma NothingWritten(checks: seq<Check>, l: Ledger, keep: seq<bool>, begin: nat, end: nat)
    requires end <= |checks| == |keep| && l.written == map[]
    ensures Progressed(checks, l, keep, begin, end, 0, begin)
  {
  }

  lemma WritingBegins(job: Job, m: Monitor, keep: seq<bool>, begin: nat, end: nat)
    requires begin < end <= |job.checks| == |keep|
    requires m.ledger.written == map[] && KeepOk(job, m.ledger, keep, begin, end)
    ensures Writing(job, m, m, keep, begin, end, 0, begin)
  {
    NothingWritten(job.checks, m.ledger, keep, begin, end);
  }

  lemma {:induction false} CountGrows(checks: seq<Check>, field: Field, begin: nat, mid: nat, end: nat)
    requires begin <= mid <= end <= |checks|
    ensures Count(checks, field, begin, mid) <= Count(checks, field, begin, end)
  {
    if mid < end {
      CountGrows(checks, field, begin, mid, end - 1);
    }
  }

  lemma {:induction false} PhaseCostGrows(checks: seq<Check>, begin: nat, end: nat, phase: nat, phases: nat)
    requires begin <= end <= |checks| && phase <= phases
    ensures PhaseCost(checks, begin, end, phase) <= PhaseCost(checks, begin, end, phases)
  {
    if phase < phases {
      PhaseCostGrows(checks, begin, end, phase, phases - 1);
    }
  }

  lemma CostBounded(checks: seq<Check>, begin: nat, end: nat, phase: nat, cursor: nat)
    requires begin <= cursor <= end <= |checks| && phase < PHASES
    ensures PhasesCost(checks, begin, end, phase, cursor) <= PhaseCost(checks, begin, end, PHASES)
  {
    CountGrows(checks, PhaseField(phase), begin, cursor, end);
    assert PhaseCost(checks, begin, end, phase + 1) ==
           PhaseCost(checks, begin, end, phase) + Count(checks, PhaseField(phase), begin, end);
    PhaseCostGrows(checks, begin, end, phase + 1, PHASES);
  }

  lemma WritingSkips(job: Job, start: Monitor, m: Monitor, keep: seq<bool>, begin: nat, end: nat,
                     phase: nat, cursor: nat)
    requires begin <= cursor < end <= |job.checks| == |keep| && phase < PHASES
    requires Writing(job, start, m, keep, begin, end, phase, cursor)
    requires job.checks[cursor].field != PhaseField(phase) || !Writable(job.checks[cursor], keep[cursor])
    ensures Writing(job, start, m, keep, begin, end, phase, cursor + 1)
  {
    hide KeepOk, Progressed, KeysDistinct, WroteOnly, OnlyPosition, WrittenAt;
    WrittenNext(job.checks, keep, begin, end, phase, cursor);
    if KeysDistinct(job.checks) {
      PhaseSkips(job.checks, m.ledger, keep, begin, end, phase, cursor);
    }
    assert PhasesCost(job.checks, begin, end, phase, cursor) <= PhasesCost(job.checks, begin, end, phase, cursor + 1);
  }

  lemma WritingWrites(job: Job, start: Monitor, m: Monitor, m': Monitor, keep: seq<bool>, begin: nat, end: nat,
                      phase: nat, cursor: nat)
    requires IsBlock(job.checks, begin, end) && begin <= cursor < end <= |job.checks| == |keep| && phase < PHASES
    requires Writing(job, start, m, keep, begin, end, phase, cursor)
    requires job.checks[cursor].field == PhaseField(phase) && Writable(job.checks[cursor], keep[cursor])
    requires job.checks[cursor].position == job.checks[begin].position
    requires Within(m, m', 1)
    requires Written(m, m', KeyOf(job.checks[cursor]), PhaseData(job.checks[cursor], phase))
    ensures Writing(job, start, m', keep, begin, end, phase, cursor + 1)
  {
    hide KeepOk, Progressed, KeysDistinct, WrittenAt;
    WrittenNext(job.checks, keep, begin, end, phase, cursor);
    KeepOkKept(job, m.ledger, m'.ledger, keep, begin, end);
    if KeysDistinct(job.checks) {
      PhaseWrites(job.checks, m.ledger, m'.ledger, keep, begin, end, phase, cursor);
    }
    assert PhasesCost(job.checks, begin, end, phase, cursor + 1) ==
           PhasesCost(job.checks, begin, end, phase, cursor) + 1;
  }

  lemma WritingBreaks(job: Job, start: Monitor, m: Monitor, m': Monitor, keep: seq<bool>, begin: nat, end: nat,
                      phase: nat, cursor: nat)
    requires begin <= cursor < end <= |job.checks| == |keep| && phase < PHASES
    requires Writing(job, start, m, keep, begin, end, phase, cursor)
    requires job.checks[cursor].field == PhaseField(phase)
    requires Within(m, m', 1) && !m'.Healthy()
    requires OnlyPosition(m.device.dict, m'.device.dict, job.checks[begin].position)
    ensures WritingFailed(job, start, m', begin, end)
  {
    hide KeepOk, Progressed, KeysDistinct, WroteOnly, WrittenAt;
    CostBounded(job.checks, begin, end, phase, cursor + 1);
    assert PhasesCost(job.checks, begin, end, phase, cursor + 1) ==
           PhasesCost(job.checks, begin, end, phase, cursor) + 1;
  }

  lemma WritingAdvances(job: Job, start: Monitor, m: Monitor, keep: seq<bool>, begin: nat, end: nat, phase: nat)
    requires begin < end <= |job.checks| == |keep| && phase < PHASES
    requires Writing(job, start, m, keep, begin, end, phase, end)
    ensures Writing(job, start, m, keep, begin, end, phase + 1, begin)
  {
    hide KeepOk, Progressed, KeysDistinct, WroteOnly, OnlyPosition, WrittenAt;
    WrittenNextPhase(job.checks, keep, begin, end, phase);
    if KeysDistinct(job.checks) {
      NextPhase(job.checks, m.ledger, keep, begin, end, phase);
    }
    assert PhaseCost(job.checks, begin, end, phase + 1) ==
           PhaseCost(job.checks, begin, end, phase) + Count(job.checks, PhaseField(phase), begin, end);
    assert phase + 1 < PHASES ==> Count(job.checks, PhaseField(phase + 1), begin, begin) == 0;
  }

  /** The write at the cursor is one the protocol allows. */
  lemma WritingAllowed(job: Job, start: Monitor, m: Monitor, keep: seq<bool>, begin: nat, end: nat,
                       phase: nat, cursor: nat)
    requires WellFormed(job.checks) && IsBlock(job.checks, begin, end)
    requires begin <= cursor < end && |keep| == |job.checks| && phase < PHASES
    requires m.progress.current == begin && Writing(job, start, m, keep, begin, end, phase, cursor)
    requires job.checks[cursor].field == PhaseField(phase) && Writable(job.checks[cursor], keep[cursor])
    ensures PdoWrite(job, m.progress, m.ledger, cursor, KeyOf(job.checks[cursor]), PhaseData(job.checks[cursor], phase))
  {
    hide KeepOk, Progressed, WroteOnly, OnlyPosition, WellFormed, InOrder, KeysDistinct, WrittenAt;
    if KeysDistinct(job.checks) {
      PhaseInOrder(job, m.progress, m.ledger, keep, phase, cursor);
    }
  }

  // ---------- readback ----------

  /** One accepted read of each check, in order, with its expected bytes. */
  function RightUploads(checks: seq<Check>, begin: nat, end: nat): (r: seq<Event>)
    requires begin <= end <= |checks|
    ensures |r| == end - begin
    ensures forall i | 0 <= i < |r| :: r[i] == Upload(KeyOf(checks[begin + i]), 0, Wire(checks[begin + i]))
  {
    seq(end - begin, i requires 0 <= i < end - begin => Upload(KeyOf(checks[begin + i]), 0, Wire(checks[begin + i])))
  }

  lemma NoUploads(checks: seq<Check>, begin: nat, before: seq<Event>)
    requires begin <= |checks|
    ensures before + RightUploads(checks, begin, begin) == before
  {
  }

  lemma NextUpload(checks: seq<Check>, begin: nat, cursor: nat, before: seq<Event>)
    requires begin <= cursor < |checks|
    ensures before + RightUploads(checks, begin, cursor) + [Upload(KeyOf(checks[cursor]), 0, Wire(checks[cursor]))] ==
            before + RightUploads(checks, begin, cursor + 1)
  {
    hide Wire;
  }

  /** The readback with every check before the cursor confirmed. */
  ghost predicate Confirming(job: Job, start: Monitor, m: Monitor, begin: nat, cursor: nat)
    requires begin <= cursor <= |job.checks|
  {
    && Within(start, m, cursor - begin)
    && m.device.dict == start.device.dict && m.ledger.written == start.ledger.written
    && (KeysDistinct(job.checks) ==> forall i | begin <= i < cursor :: HasValue(m.ledger.confirmed, job.checks[i]))
    && (m.device.honest ==> forall i | begin <= i < cursor ::
          HasValue(m.ledger.confirmed, job.checks[i]) && HasValue(m.device.dict, job.checks[i]))
  }

  lemma ConfirmingContinues(job: Job, start: Monitor, m: Monitor, m': Monitor, begin: nat, end: nat, cursor: nat)
    requires IsBlock(job.checks, begin, end) && begin <= cursor < end
    requires Confirming(job, start, m, begin, cursor)
    requires ReadOf(m, m', job.checks[cursor], Wire(job.checks[cursor]))
    ensures Confirming(job, start, m', begin, cursor + 1)
  {
    var c := job.checks[cursor];
    if KeysDistinct(job.checks) {
      forall i | begin <= i < cursor + 1 ensures HasValue(m'.ledger.confirmed, job.checks[i]) {
        if i < cursor {
          assert HasValue(m.ledger.confirmed, job.checks[i]);
          assert KeyOf(job.checks[i]) != KeyOf(c);
        }
      }
    }
    if m'.device.honest {
      forall i | begin <= i < cursor + 1
        ensures HasValue(m'.ledger.confirmed, job.checks[i]) && HasValue(m'.device.dict, job.checks[i])
      {
        assert i < cursor ==> HasValue(m.ledger.confirmed, job.checks[i]);
      }
    }
  }

  ghost predicate AllHeld(d: Dict, checks: seq<Check>, begin: nat, end: nat)
    requires end <= |checks|
  {
    forall i | begin <= i < end :: HasValue(d, checks[i])
  }

  ghost predicate ReadBackDone(job: Job, start: Monitor, m: Monitor, begin: nat, end: nat, pending: bool)
    requires begin <= end <= |job.checks|
  {
    && Within(start, m, end - begin)
    && m.device.dict == start.device.dict
    && (pending && (KeysDistinct(job.checks) || m.device.honest) ==>
          forall i | begin <= i < end :: HasValue(m.ledger.confirmed, job.checks[i]))
    && (m.Healthy() && m.device.honest ==> (pending <==> AllHeld(m.device.dict, job.checks, begin, end)))
  }

  lemma ConfirmingEnds(job: Job, start: Monitor, m: Monitor, begin: nat, end: nat)
    requires begin <= end <= |job.checks| && Confirming(job, start, m, begin, end)
    ensures ReadBackDone(job, start, m, begin, end, true)
  {
  }

  lemma ConfirmingBreaks(job: Job, start: Monitor, m: Monitor, m': Monitor, begin: nat, end: nat, cursor: nat,
                         data: seq<uint8>)
    requires begin <= cursor < end <= |job.checks| && Confirming(job, start, m, begin, cursor)
    requires ReadFailure(m, m') || (ReadOf(m, m', job.checks[cursor], data) && data != Wire(job.checks[cursor]))
    ensures ReadBackDone(job, start, m', begin, end, false)
  {
  }

  // ---------- one whole attempt ----------

  /** After the six phases a passive device holds every check of the slave, except that empty mappings are
      as the attempt found them. */
  lemma AllWritten(job: Job, start: Monitor, m: Monitor, keep: seq<bool>, begin: nat, end: nat, i: nat)
    requires Local(job.checks) && KeysDistinct(job.checks) && begin <= i < end <= |job.checks| == |keep|
    requires Writing(job, start, m, keep, begin, end, PHASES, begin)
    requires Truthful(m.device.dict, m.ledger)
    ensures HasValue(m.device.dict, job.checks[i]) <==>
            (IsEmptyCount(job.checks[i]) ==> HasValue(start.device.dict, job.checks[i]))
  {
    var c := job.checks[i];
    assert CheckOk(job.checks, i);
    assert Reached(m.ledger, c, keep[i], Done(i, PHASES, begin));
    assert keep[i] ==> HasValue(m.ledger.probed, c);
  }

  lemma AttemptDecided(job: Job, start: Monitor, m: Monitor, keep: seq<bool>, begin: nat, end: nat)
    requires Local(job.checks) && KeysDistinct(job.checks) && begin < end <= |job.checks| == |keep|
    requires Writing(job, start, m, keep, begin, end, PHASES, begin)
    requires Truthful(m.device.dict, m.ledger)
    requires AllReadable(start.device.dict, job.checks, begin, end)
    ensures AllHeld(m.device.dict, job.checks, begin, end) <==> Configurable(start.device.dict, job.checks, begin, end)
    ensures !AllHeld(m.device.dict, job.checks, begin, end) ==> !Configurable(m.device.dict, job.checks, begin, end)
  {
    forall i | begin <= i < end
      ensures HasValue(m.device.dict, job.checks[i]) <==>
              (IsEmptyCount(job.checks[i]) ==> HasValue(start.device.dict, job.checks[i]))
    {
      AllWritten(job, start, m, keep, begin, end, i);
    }
    hide Writing, Truthful, Readable, Local, KeysDistinct;
    if i :| begin <= i < end && !HasValue(m.device.dict, job.checks[i]) {
      assert job.checks[i].field == MappingCount && job.checks[i].expected == 0;
    }
  }

  lemma UnreadableIsNotConfigurable(d: Dict, checks: seq<Check>, begin: nat, end: nat)
    requires end <= |checks| && !AllReadable(d, checks, begin, end)
    ensures !Configurable(d, checks, begin, end)
  {
  }

  /** After the six phases both assignments have their final counts. */
  lemma AllRestored(job: Job, start: Monitor, m: Monitor, keep: seq<bool>, begin: nat, end: nat)
    requires IsBlock(job.checks, begin, end) && |keep| == |job.checks| && m.progress.current == begin
    requires Writing(job, start, m, keep, begin, end, PHASES, begin)
    ensures KeysDistinct(job.checks) ==> Restored(job, m.progress, m.ledger)
  {
    hide KeysDistinct, WrittenAt, OnlyPosition, WroteOnly, KeepOk;
    if KeysDistinct(job.checks) {
      forall i | InBlock(job, m.progress, i) && job.checks[i].field.AssignmentCount?
        ensures HasValue(m.ledger.written, job.checks[i])
      {
        assert Reached(m.ledger, job.checks[i], keep[i], Done(i, PHASES, begin));
        NeverKept(job, m.ledger, keep, begin, end, i);
      }
    }
  }

  lemma NeverKept(job: Job, l: Ledger, keep: seq<bool>, begin: nat, end: nat, i: nat)
    requires end <= |job.checks| == |keep| && KeepOk(job, l, keep, begin, end) && begin <= i < end
    requires job.checks[i].field.AssignmentCount?
    ensures !keep[i]
  {
  }

  /** A wrong answer to the readback contradicts what was written. */
  lemma WrongAnswerCases(job: Job, start: Monitor, before: Monitor, m: Monitor, begin: nat, cursor: nat, data: seq<uint8>)
    requires begin <= cursor < |job.checks| && Confirming(job, start, before, begin, cursor)
    requires ReadOf(before, m, job.checks[cursor], data) && m.progress == start.progress
    requires KeysDistinct(job.checks) ==> Restored(job, start.progress, start.ledger)
    ensures KeyOf(job.checks[cursor]) in m.ledger.confirmed && m.ledger.confirmed[KeyOf(job.checks[cursor])] == data
    ensures KeysDistinct(job.checks) ==> Restored(job, m.progress, m.ledger)
  {
    hide KeysDistinct;
  }

  lemma NothingConfirmed(job: Job, m: Monitor, begin: nat)
    requires begin <= |job.checks|
    ensures Confirming(job, m, m, begin, begin)
  {
  }

  lemma ReadOutcome(m: Monitor, m': Monitor, c: Check, data: seq<uint8>, ok: bool)
    requires Within(m, m', 1) && m'.device.dict == m.device.dict
    requires if ok then WasRead(m, m', KeyOf(c), data) else !m'.Healthy()
    ensures if ok then ReadOf(m, m', c, data) else ReadFailure(m, m')
  {
  }

  /** The outcome of one attempt: bounded cost, one slave touched, and on a healthy passive bus it succeeds
      exactly when the slave was configurable, while a failure leaves a slave that is still not. */
  ghost predicate Attempted(job: Job, start: Monitor, m: Monitor, begin: nat, end: nat, pending: bool)
    requires begin < end <= |job.checks|
  {
    && Within(start, m, 4 * (end - begin))
    && OnlyPosition(start.device.dict, m.device.dict, job.checks[begin].position)
    && (pending && (KeysDistinct(job.checks) || m.device.honest) ==>
          forall i | begin <= i < end :: HasValue(m.ledger.confirmed, job.checks[i]))
    && (m.Healthy() && m.device.honest && KeysDistinct(job.checks) && PositionsDistinct(job.checks) ==>
          && (pending <==> Configurable(start.device.dict, job.checks, begin, end))
          && (!pending ==> !Configurable(m.device.dict, job.checks, begin, end)))
  }

  lemma AttemptUnreadable(job: Job, start: Monitor, m: Monitor, begin: nat, end: nat)
    requires begin < end <= |job.checks|
    requires Within(start, m, MappingCost(job.checks, begin, end)) && m.device.dict == start.device.dict
    requires m.Healthy() && m.device.honest ==> !AllReadable(m.device.dict, job.checks, begin, end)
    ensures Attempted(job, start, m, begin, end, false)
  {
    AttemptCost(job.checks, begin, end);
    if m.Healthy() && m.device.honest {
      UnreadableIsNotConfigurable(m.device.dict, job.checks, begin, end);
    }
  }

  lemma AttemptRejected(job: Job, start: Monitor, probed: Monitor, m: Monitor, begin: nat, end: nat)
    requires begin < end <= |job.checks|
    requires Within(start, probed, MappingCost(job.checks, begin, end)) && probed.device.dict == start.device.dict
    requires WritingFailed(job, probed, m, begin, end)
    ensures Attempted(job, start, m, begin, end, false)
  {
    AttemptCost(job.checks, begin, end);
  }

  lemma AttemptReadBack(job: Job, t: seq<Event>, start: Monitor, probed: Monitor, written: Monitor, m: Monitor,
                        keep: seq<bool>, begin: nat, end: nat, pending: bool)
    requires WellFormed(job.checks) && begin < end <= |job.checks| == |keep|
    requires Safe(job, t) && written == Run(job, t)
    requires Within(start, probed, MappingCost(job.checks, begin, end)) && probed.device.dict == start.device.dict
    requires probed.Healthy() && probed.device.honest ==> AllReadable(probed.device.dict, job.checks, begin, end)
    requires Writing(job, probed, written, keep, begin, end, PHASES, begin)
    requires ReadBackDone(job, written, m, begin, end, pending)
    ensures Attempted(job, start, m, begin, end, pending)
  {
    AttemptCost(job.checks, begin, end);
    if m.Healthy() && m.device.honest && KeysDistinct(job.checks) && PositionsDistinct(job.checks) {
      RunStanding(job, t);
      AttemptDecided(job, probed, written, keep, begin, end);
    }
    hide Run, Safe, WellFormed, KeepOk, Progressed, AllReadable, AllHeld, Configurable, WroteOnly, KeysDistinct;
  }
}
