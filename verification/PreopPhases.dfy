/** The six ordered write phases of one attempt: what each writes, why the order is safe, what it costs. */
module PreopPhases {
  import opened Bytes
  import opened PdoConfig
  import opened Protocol
  import opened Wrappers

  const PHASES: nat := 6

  function PhaseField(phase: nat): Field {
    match phase
    case 0 => AssignmentCount
    case 1 => MappingCount
    case 2 => MappingEntry
    case 3 => MappingCount
    case 4 => Assignment
    case _ => AssignmentCount
  }

  /** Counts are first zeroed, then restored. */
  function PhaseValue(c: Check, phase: nat): uint32 {
    if phase < 2 then 0 else c.expected
  }

  function PhaseData(c: Check, phase: nat): seq<uint8> {
    Encode(PhaseValue(c, phase), c.size)
  }

  /** The count of a PDO without entries; some devices do not let it be written, not even with its own value. */
  predicate IsEmptyCount(c: Check) {
    c.field == MappingCount && c.expected == 0
  }

  predicate Writable(c: Check, keep: bool) {
    !keep && !IsEmptyCount(c)
  }

  lemma WritableMeans(c: Check, keep: bool)
    ensures Writable(c, keep) <==> !keep && !(c.field == MappingCount && c.expected == 0)
  {
  }

  /** The last phase before `done` that writes checks of this field. */
  function LastPhase(field: Field, done: nat): Option<nat> {
    match field
    case AssignmentCount => if done >= 6 then Some(5) else if done >= 1 then Some(0) else None
    case MappingCount => if done >= 4 then Some(3) else if done >= 2 then Some(1) else None
    case MappingEntry => if done >= 3 then Some(2) else None
    case Assignment => if done >= 5 then Some(4) else None
    case InitField => None
  }

  /** With `done` phases behind it, a writable check has the value of its last phase. */
  ghost predicate Reached(l: Ledger, c: Check, keep: bool, done: nat) {
    if Writable(c, keep) then
      LastPhase(c.field, done).Some? ==>
        KeyOf(c) in l.written && l.written[KeyOf(c)] == PhaseData(c, LastPhase(c.field, done).value)
    else KeyOf(c) !in l.written
  }

  /** The writes of one phase, up to the cursor. */
  function PhaseWritten(d: Dict, checks: seq<Check>, keep: seq<bool>, begin: nat, cursor: nat, phase: nat): Dict
    requires begin <= cursor <= |checks| == |keep|
  {
    if cursor == begin then d
    else
      var before, c := PhaseWritten(d, checks, keep, begin, cursor - 1, phase), checks[cursor - 1];
      if c.field == PhaseField(phase) && Writable(c, keep[cursor - 1]) then before[KeyOf(c) := PhaseData(c, phase)] else before
  }

  /** Everything the first `phases` phases of an attempt write, a later write replacing an earlier one. */
  function AttemptWritten(checks: seq<Check>, keep: seq<bool>, begin: nat, end: nat, phases: nat): Dict
    requires begin <= end <= |checks| == |keep|
  {
    if phases == 0 then map[]
    else PhaseWritten(AttemptWritten(checks, keep, begin, end, phases - 1), checks, keep, begin, end, phases - 1)
  }

  function WrittenAt(checks: seq<Check>, keep: seq<bool>, begin: nat, end: nat, phase: nat, cursor: nat): Dict
    requires begin <= cursor <= end <= |checks| == |keep|
  {
    PhaseWritten(AttemptWritten(checks, keep, begin, end, phase), checks, keep, begin, cursor, phase)
  }

  lemma WrittenNext(checks: seq<Check>, keep: seq<bool>, begin: nat, end: nat, phase: nat, cursor: nat)
    requires begin <= cursor < end <= |checks| == |keep|
    ensures WrittenAt(checks, keep, begin, end, phase, cursor + 1) ==
            (var before, c := WrittenAt(checks, keep, begin, end, phase, cursor), checks[cursor];
             if c.field == PhaseField(phase) && Writable(c, keep[cursor]) then before[KeyOf(c) := PhaseData(c, phase)] else before)
  {
    hide AttemptWritten;
  }

  lemma WrittenNextPhase(checks: seq<Check>, keep: seq<bool>, begin: nat, end: nat, phase: nat)
    requires begin <= end <= |checks| == |keep|
    ensures WrittenAt(checks, keep, begin, end, phase, end) == WrittenAt(checks, keep, begin, end, phase + 1, begin)
  {
  }

  /** The downloads of one phase up to the cursor, in order and all accepted. */
  function PhaseDownloads(checks: seq<Check>, keep: seq<bool>, begin: nat, cursor: nat, phase: nat): seq<Event>
    requires begin <= cursor <= |checks| == |keep|
  {
    if cursor == begin then []
    else
      var c := checks[cursor - 1];
      PhaseDownloads(checks, keep, begin, cursor - 1, phase) +
      if c.field == PhaseField(phase) && Writable(c, keep[cursor - 1]) then [Download(KeyOf(c), PhaseData(c, phase), 0)] else []
  }

  function AttemptDownloads(checks: seq<Check>, keep: seq<bool>, begin: nat, end: nat, phases: nat): seq<Event>
    requires begin <= end <= |checks| == |keep|
  {
    if phases == 0 then []
    else AttemptDownloads(checks, keep, begin, end, phases - 1) + PhaseDownloads(checks, keep, begin, end, phases - 1)
  }

  lemma NoDownloads(checks: seq<Check>, keep: seq<bool>, begin: nat, end: nat, phase: nat, before: seq<Event>)
    requires begin <= end <= |checks| == |keep|
    ensures before + PhaseDownloads(checks, keep, begin, begin, phase) == before
    ensures before + AttemptDownloads(checks, keep, begin, end, 0) == before
  {
  }

  lemma NextDownload(checks: seq<Check>, keep: seq<bool>, begin: nat, cursor: nat, phase: nat, before: seq<Event>)
    requires begin <= cursor < |checks| == |keep|
    ensures var c := checks[cursor];
      before + PhaseDownloads(checks, keep, begin, cursor + 1, phase) ==
      if c.field == PhaseField(phase) && Writable(c, keep[cursor])
      then before + PhaseDownloads(checks, keep, begin, cursor, phase) + [Download(KeyOf(c), PhaseData(c, phase), 0)]
      else before + PhaseDownloads(checks, keep, begin, cursor, phase)
  {
    hide PhaseData, PhaseField, Writable;
    var done := PhaseDownloads(checks, keep, begin, cursor, phase);
    assert before + done + [] == before + done;
  }

  lemma NextDownloads(checks: seq<Check>, keep: seq<bool>, begin: nat, end: nat, phase: nat, before: seq<Event>)
    requires begin <= end <= |checks| == |keep|
    ensures before + AttemptDownloads(checks, keep, begin, end, phase) + PhaseDownloads(checks, keep, begin, end, phase) ==
            before + AttemptDownloads(checks, keep, begin, end, phase + 1)
  {
    hide PhaseDownloads;
  }

  function Done(i: int, phase: nat, cursor: nat): nat {
    if i < cursor then phase + 1 else phase
  }

  /** Inside phase `phase` at `cursor`: checks before the cursor have passed the phase. */
  ghost predicate Progressed(checks: seq<Check>, l: Ledger, keep: seq<bool>, begin: nat, end: nat,
                             phase: nat, cursor: nat)
    requires end <= |checks| == |keep|
  {
    forall i | begin <= i < end :: Reached(l, checks[i], keep[i], Done(i, phase, cursor))
  }

  /** The keep marks describe whole mapping groups: kept ones were read back as expected, the others not. */
  ghost predicate KeepOk(job: Job, l: Ledger, keep: seq<bool>, begin: nat, end: nat)
    requires end <= |job.checks| == |keep|
  {
    && (forall i | begin <= i < end && keep[i] :: IsMapping(job.checks[i]) && !IsEmptyCount(job.checks[i]))
    && (forall i | begin <= i < end && job.checks[i].field == MappingEntry ::
          begin + job.checks[i].sub <= i && keep[i] == keep[i - job.checks[i].sub])
    && (KeysDistinct(job.checks) ==> Judged(job, l, keep, begin, end))
  }

  ghost predicate Judged(job: Job, l: Ledger, keep: seq<bool>, begin: nat, end: nat)
    requires end <= |job.checks| == |keep|
  {
    && (forall i | begin <= i < end && keep[i] :: HasValue(l.probed, job.checks[i]))
    && (forall i | begin <= i < end && job.checks[i].field == MappingCount && Writable(job.checks[i], keep[i]) ::
          Mismatched(job, l, i))
  }

  lemma EncodeZero()
    ensures Encode(0, 1) == [0]
  {
    assert Encode(0, 0) == [];
  }

  /** Moving the cursor over a check this phase does not write. */
  lemma PhaseSkips(checks: seq<Check>, l: Ledger, keep: seq<bool>, begin: nat, end: nat, phase: nat, cursor: nat)
    requires end <= |checks| == |keep| && begin <= cursor < end && phase < PHASES
    requires Progressed(checks, l, keep, begin, end, phase, cursor)
    requires checks[cursor].field != PhaseField(phase) || !Writable(checks[cursor], keep[cursor])
    ensures Progressed(checks, l, keep, begin, end, phase, cursor + 1)
  {
  }

  /** Moving the cursor over a check this phase has just written. */
  lemma PhaseWrites(checks: seq<Check>, l: Ledger, l': Ledger, keep: seq<bool>, begin: nat, end: nat,
                    phase: nat, cursor: nat)
    requires end <= |checks| == |keep| && begin <= cursor < end && phase < PHASES
    requires Progressed(checks, l, keep, begin, end, phase, cursor)
    requires KeysDistinct(checks) && forall i | begin <= i < end :: checks[i].slave == checks[begin].slave
    requires checks[cursor].field == PhaseField(phase) && Writable(checks[cursor], keep[cursor])
    requires l'.written == l.written[KeyOf(checks[cursor]) := PhaseData(checks[cursor], phase)]
    ensures Progressed(checks, l', keep, begin, end, phase, cursor + 1)
  {
    forall i | begin <= i < end
      ensures Reached(l', checks[i], keep[i], Done(i, phase, cursor + 1))
    {
      assert Reached(l, checks[i], keep[i], Done(i, phase, cursor));
      if i != cursor {
        assert KeyOf(checks[i]) != KeyOf(checks[cursor]);
      }
    }
  }

  lemma NextPhase(checks: seq<Check>, l: Ledger, keep: seq<bool>, begin: nat, end: nat, phase: nat)
    requires end <= |checks| == |keep|
    requires Progressed(checks, l, keep, begin, end, phase, end)
    ensures Progressed(checks, l, keep, begin, end, phase + 1, begin)
  {
    forall i | begin <= i < end ensures Reached(l, checks[i], keep[i], phase + 1) {
      assert Reached(l, checks[i], keep[i], Done(i, phase, end));
    }
  }

  // ---------- the order is safe ----------

  lemma CountInBlock(job: Job, p: Progress, s: nat, index: uint16) returns (a: nat)
    requires WellFormed(job.checks) && p.current < |job.checks| && job.checks[p.current].slave == s
    requires p.current > 0 ==> job.checks[p.current - 1].slave < s
    requires index == RX_ASSIGNMENT || index == TX_ASSIGNMENT
    ensures InBlock(job, p, a) && IsCount(job.checks[a], s, index)
  {
    assert HasCount(job.checks, job.checks[p.current].slave, index);
    a :| 0 <= a < |job.checks| && IsCount(job.checks[a], s, index);
  }

  /** From phase 1 to the end of phase 4 the assignment counts are zero. */
  lemma AssignmentOff(job: Job, p: Progress, l: Ledger, keep: seq<bool>, phase: nat, cursor: nat, index: uint16)
    requires WellFormed(job.checks) && p.current < |job.checks| == |keep|
    requires p.current > 0 ==> job.checks[p.current - 1].slave < job.checks[p.current].slave
    requires var end := BlockEnd(job.checks, p.current);
      && KeepOk(job, l, keep, p.current, end)
      && Progressed(job.checks, l, keep, p.current, end, phase, cursor)
    requires 1 <= phase <= 4 && (index == RX_ASSIGNMENT || index == TX_ASSIGNMENT)
    ensures Zeroed(l, job.checks[p.current].position, index)
  {
    hide KeysDistinct, Judged, Encode;
    var a := CountInBlock(job, p, job.checks[p.current].slave, index);
    assert CheckOk(job.checks, a);
    assert Reached(l, job.checks[a], keep[a], Done(a, phase, cursor));
    EncodeZero();
  }

  ghost predicate AtPhase(job: Job, p: Progress, l: Ledger, keep: seq<bool>, phase: nat, cursor: nat)
  {
    && WellFormed(job.checks) && KeysDistinct(job.checks) && |job.checks| == |keep| && phase < PHASES
    && p.current <= cursor < |job.checks| && InBlock(job, p, cursor)
    && (p.current > 0 ==> job.checks[p.current - 1].slave < job.checks[p.current].slave)
    && KeepOk(job, l, keep, p.current, BlockEnd(job.checks, p.current))
    && Progressed(job.checks, l, keep, p.current, BlockEnd(job.checks, p.current), phase, cursor)
    && job.checks[cursor].field == PhaseField(phase) && Writable(job.checks[cursor], keep[cursor])
  }

  lemma SamePosition(job: Job, p: Progress, i: nat)
    requires WellFormed(job.checks) && InBlock(job, p, i)
    ensures job.checks[i].position == job.checks[p.current].position
  {
  }

  /** In phases 1 and 3 nothing points at a mapping whose count is written, and it differs. */
  lemma CountIsFree(job: Job, p: Progress, l: Ledger, keep: seq<bool>, phase: nat, cursor: nat)
    requires AtPhase(job, p, l, keep, phase, cursor) && (phase == 1 || phase == 3)
    ensures var c := job.checks[cursor];
      c.field.MappingCount? && c.expected != 0 && c.size == 1 && BothDisabled(l, c.position) && Mismatched(job, l, cursor)
  {
    hide WellFormed, KeysDistinct, Progressed, Mismatched, InGroup;
    SamePosition(job, p, cursor);
    AssignmentOff(job, p, l, keep, phase, cursor, RX_ASSIGNMENT);
    AssignmentOff(job, p, l, keep, phase, cursor, TX_ASSIGNMENT);
    CheckIsOk(job.checks, cursor);
  }

  lemma CountZeroInOrder(job: Job, p: Progress, l: Ledger, keep: seq<bool>, cursor: nat)
    requires AtPhase(job, p, l, keep, 1, cursor)
    ensures InOrder(job, p, l, cursor, PhaseData(job.checks[cursor], 1))
  {
    CountIsFree(job, p, l, keep, 1, cursor);
    EncodeZero();
    hide WellFormed, KeysDistinct, KeepOk, Progressed, BothDisabled, Mismatched, InGroup, InBlock, Encode;
  }

  /** The entries of a mapping are in place before its count is restored. */
  lemma GroupIsWritten(job: Job, p: Progress, l: Ledger, keep: seq<bool>, cursor: nat, j: nat)
    requires AtPhase(job, p, l, keep, 3, cursor) && cursor < j && InGroup(job.checks, cursor, j)
    ensures HasValue(l.written, job.checks[j])
  {
    hide KeysDistinct, Judged, Encode;
    GroupStaysInBlock(job, p, cursor, j);
    assert Reached(l, job.checks[j], keep[j], Done(j, 3, cursor));
  }

  lemma CountRestoreInOrder(job: Job, p: Progress, l: Ledger, keep: seq<bool>, cursor: nat)
    requires AtPhase(job, p, l, keep, 3, cursor)
    ensures InOrder(job, p, l, cursor, PhaseData(job.checks[cursor], 3))
  {
    forall j | cursor < j && InGroup(job.checks, cursor, j)
      ensures HasValue(l.written, job.checks[j])
    {
      GroupIsWritten(job, p, l, keep, cursor, j);
    }
    CountIsFree(job, p, l, keep, 3, cursor);
    hide WellFormed, KeysDistinct, KeepOk, Progressed, BothDisabled, Mismatched, InGroup, InBlock, Encode;
  }

  lemma GroupStaysInBlock(job: Job, p: Progress, head: nat, j: nat)
    requires WellFormed(job.checks) && InBlock(job, p, head) && head < j && InGroup(job.checks, head, j)
    ensures InBlock(job, p, j) && EntryOfGroup(job.checks[j], job.checks[head], j - head)
  {
    assert CheckOk(job.checks, head);
  }

  lemma HeadIsZeroed(job: Job, l: Ledger, keep: seq<bool>, begin: nat, end: nat, head: nat, cursor: nat)
    requires begin <= head < end <= |job.checks| == |keep| && head < cursor
    requires Local(job.checks) && Judged(job, l, keep, begin, end)
    requires job.checks[head].field.MappingCount? && Writable(job.checks[head], keep[head])
    requires Reached(l, job.checks[head], keep[head], Done(head, 2, cursor))
    ensures Zeroed(l, job.checks[head].position, job.checks[head].index) && Mismatched(job, l, head)
  {
    EncodeZero();
    assert CheckOk(job.checks, head);
  }

  lemma HeadOf(job: Job, p: Progress, keep: seq<bool>, l: Ledger, cursor: nat)
    requires WellFormed(job.checks) && InBlock(job, p, cursor) && |job.checks| == |keep|
    requires job.checks[cursor].field.MappingEntry? && !keep[cursor]
    requires KeepOk(job, l, keep, p.current, BlockEnd(job.checks, p.current))
    ensures var head := cursor - job.checks[cursor].sub;
      && p.current <= head < cursor && !keep[head]
      && job.checks[head].field.MappingCount? && job.checks[head].expected != 0
      && job.checks[head].position == job.checks[cursor].position
      && job.checks[head].index == job.checks[cursor].index
  {
    assert CheckOk(job.checks, cursor);
  }

  lemma EntryWriteInOrder(job: Job, p: Progress, l: Ledger, keep: seq<bool>, cursor: nat)
    requires AtPhase(job, p, l, keep, 2, cursor)
    ensures InOrder(job, p, l, cursor, PhaseData(job.checks[cursor], 2))
  {
    AssignmentOff(job, p, l, keep, 2, cursor, RX_ASSIGNMENT);
    AssignmentOff(job, p, l, keep, 2, cursor, TX_ASSIGNMENT);
    HeadOf(job, p, keep, l, cursor);
    HeadIsZeroed(job, l, keep, p.current, BlockEnd(job.checks, p.current), cursor - job.checks[cursor].sub, cursor);
  }

  lemma AssignmentWriteInOrder(job: Job, p: Progress, l: Ledger, keep: seq<bool>, cursor: nat)
    requires AtPhase(job, p, l, keep, 4, cursor)
    ensures InOrder(job, p, l, cursor, PhaseData(job.checks[cursor], 4))
  {
    assert CheckOk(job.checks, cursor);
    AssignmentOff(job, p, l, keep, 4, cursor, job.checks[cursor].index);
  }

  lemma MandatoryInPlace(job: Job, l: Ledger, keep: seq<bool>, begin: nat, end: nat, i: nat, done: nat)
    requires begin <= i < end <= |job.checks| == |keep| && Judged(job, l, keep, begin, end)
    requires Mandatory(job.checks[i]) && done >= 5 && Reached(l, job.checks[i], keep[i], done)
    ensures InPlace(l, KeyOf(job.checks[i]), Wire(job.checks[i]))
  {
  }

  lemma EnableInOrder(job: Job, p: Progress, l: Ledger, keep: seq<bool>, cursor: nat)
    requires AtPhase(job, p, l, keep, 5, cursor)
    ensures ReadyToEnable(job, p, l)
  {
    var end := BlockEnd(job.checks, p.current);
    forall i | InBlock(job, p, i) && Mandatory(job.checks[i])
      ensures InPlace(l, KeyOf(job.checks[i]), Wire(job.checks[i]))
    {
      MandatoryInPlace(job, l, keep, p.current, end, i, Done(i, 5, cursor));
    }
  }

  lemma PhaseIsWritable(job: Job, p: Progress, l: Ledger, keep: seq<bool>, phase: nat, cursor: nat)
    requires AtPhase(job, p, l, keep, phase, cursor)
    ensures phase < PHASES && cursor < |job.checks|
  {
    hide WellFormed, KeysDistinct, KeepOk, Progressed, Writable;
  }

  /** Each write of the six phases respects every ordering rule of the protocol. */
  lemma PhaseInOrder(job: Job, p: Progress, l: Ledger, keep: seq<bool>, phase: nat, cursor: nat)
    requires AtPhase(job, p, l, keep, phase, cursor)
    ensures InOrder(job, p, l, cursor, PhaseData(job.checks[cursor], phase))
  {
    hide AtPhase, InOrder;
    PhaseIsWritable(job, p, l, keep, phase, cursor);
    if phase == 1 {
      CountZeroInOrder(job, p, l, keep, cursor);
    } else if phase == 3 {
      CountRestoreInOrder(job, p, l, keep, cursor);
    } else if phase == 2 {
      EntryWriteInOrder(job, p, l, keep, cursor);
    } else if phase == 4 {
      AssignmentWriteInOrder(job, p, l, keep, cursor);
    } else {
      AssignmentCountInOrder(job, p, l, keep, phase, cursor);
    }
  }

  lemma AssignmentCountInOrder(job: Job, p: Progress, l: Ledger, keep: seq<bool>, phase: nat, cursor: nat)
    requires AtPhase(job, p, l, keep, phase, cursor) && (phase == 0 || phase == 5)
    ensures InOrder(job, p, l, cursor, PhaseData(job.checks[cursor], phase))
  {
    assert CheckOk(job.checks, cursor);
    EncodeZero();
    if phase == 5 {
      EnableInOrder(job, p, l, keep, cursor);
    }
  }

  // ---------- when the order is not safe ----------

  ghost predicate NonzeroCount(written: Dict, k: Key) {
    k in written && written[k] != [0]
  }

  /** No later write of phase 3 undoes a restored nonzero count, and phase 4 writes no count at all. */
  lemma {:induction false} RestoredStays(d: Dict, checks: seq<Check>, keep: seq<bool>, begin: nat, cursor: nat, phase: nat,
                                         k: Key)
    requires begin <= cursor <= |checks| == |keep| && (phase == 3 || phase == 4) && k.sub == 0
    requires forall i | begin <= i < cursor :: CheckOk(checks, i)
    requires NonzeroCount(d, k)
      || (phase == 3 && exists i :: begin <= i < cursor && RestoredHere(checks, keep, i, k))
    ensures NonzeroCount(PhaseWritten(d, checks, keep, begin, cursor, phase), k)
  {
    if begin < cursor {
      var c, n := checks[cursor - 1], cursor - 1;
      assert CheckOk(checks, n);
      if c.field.MappingCount? && Writable(c, keep[n]) {
        NonzeroIsNotZero(c);
      }
      if !(phase == 3 && RestoredHere(checks, keep, n, k)) {
        RestoredStays(d, checks, keep, begin, n, phase, k);
      }
    }
  }

  predicate RestoredHere(checks: seq<Check>, keep: seq<bool>, i: nat, k: Key)
    requires |checks| == |keep|
  {
    i < |checks| && checks[i].field.MappingCount? && Writable(checks[i], keep[i]) && KeyOf(checks[i]) == k
  }

  lemma NonzeroIsNotZero(c: Check)
    requires c.size == 1 && 0 < c.expected <= 255
    ensures Wire(c) != [0]
  {
    Pow256Table();
    DecodeEncode(c.expected, 1);
    DecodeEncode(0, 1);
    EncodeZero();
  }

  /** A mapping that is to be written and whose object is an assignment object breaks the order: its count is
      restored before the assignment entries are written, so at each of them the assignment is not off. */
  lemma MappedAssignmentBreaksOrder(job: Job, p: Progress, l: Ledger, keep: seq<bool>, begin: nat, end: nat, head: nat,
                                    cursor: nat)
    requires Local(job.checks) && begin <= end <= |job.checks| == |keep|
    requires begin <= head < end && job.checks[head].field.MappingCount? && Writable(job.checks[head], keep[head])
    requires begin <= cursor < end && job.checks[cursor].field.Assignment?
    requires job.checks[cursor].position == job.checks[head].position && job.checks[cursor].index == job.checks[head].index
    requires l.written == WrittenAt(job.checks, keep, begin, end, 4, cursor)
    ensures !InOrder(job, p, l, cursor, PhaseData(job.checks[cursor], 4))
  {
    var checks, k := job.checks, Key(job.checks[head].position, job.checks[head].index, 0);
    hide PhaseWritten, CheckOk;
    assert KeyOf(checks[head]) == k by { HeadIsZeroth(checks, head); }
    assert RestoredHere(checks, keep, head, k);
    RestoredStays(AttemptWritten(checks, keep, begin, end, 3), checks, keep, begin, end, 3, k);
    RestoredStays(AttemptWritten(checks, keep, begin, end, 4), checks, keep, begin, cursor, 4, k);
  }

  lemma HeadIsZeroth(checks: seq<Check>, head: nat)
    requires head < |checks| && CheckOk(checks, head) && checks[head].field.MappingCount?
    ensures checks[head].sub == 0
  {
  }

  // ---------- cost ----------

  function Count(checks: seq<Check>, field: Field, begin: nat, end: nat): nat
    requires begin <= end <= |checks|
  {
    if begin == end then 0
    else Count(checks, field, begin, end - 1) + if checks[end - 1].field == field then 1 else 0
  }

  function PhaseCost(checks: seq<Check>, begin: nat, end: nat, phases: nat): nat
    requires begin <= end <= |checks|
  {
    if phases == 0 then 0
    else PhaseCost(checks, begin, end, phases - 1) + Count(checks, PhaseField(phases - 1), begin, end)
  }

  lemma {:induction false} CountsPartition(checks: seq<Check>, begin: nat, end: nat)
    requires begin <= end <= |checks|
    ensures Count(checks, AssignmentCount, begin, end) + Count(checks, Assignment, begin, end)
         + Count(checks, MappingCount, begin, end) + Count(checks, MappingEntry, begin, end) <= end - begin
  {
    if begin < end {
      CountsPartition(checks, begin, end - 1);
    }
  }

  /** One attempt: preflight reads, six phases and the full readback, at most four calls per check. */
  lemma AttemptCost(checks: seq<Check>, begin: nat, end: nat)
    requires begin <= end <= |checks|
    ensures Count(checks, MappingCount, begin, end) + Count(checks, MappingEntry, begin, end)
         + PhaseCost(checks, begin, end, PHASES) + (end - begin) <= 4 * (end - begin)
  {
    CountsPartition(checks, begin, end);
    assert PhaseCost(checks, begin, end, 6) ==
           PhaseCost(checks, begin, end, 4) + Count(checks, Assignment, begin, end)
           + Count(checks, AssignmentCount, begin, end);
    assert PhaseCost(checks, begin, end, 4) ==
           PhaseCost(checks, begin, end, 2) + Count(checks, MappingEntry, begin, end)
           + Count(checks, MappingCount, begin, end);
    assert PhaseCost(checks, begin, end, 2) ==
           PhaseCost(checks, begin, end, 1) + Count(checks, MappingCount, begin, end);
    assert PhaseCost(checks, begin, end, 1) == Count(checks, AssignmentCount, begin, end);
  }

  // ---------- when an attempt succeeds ----------

  predicate HasSize(d: Dict, c: Check) {
    KeyOf(c) in d && |d[KeyOf(c)]| == c.size
  }

  /** The preflight over this mapping meets no object of the wrong size: it reads the count and then entry
      after entry until one differs. */
  ghost predicate Readable(d: Dict, checks: seq<Check>, head: nat) {
    forall j | InGroup(checks, head, j) && (forall i | head <= i < j :: HasValue(d, checks[i])) :: HasSize(d, checks[j])
  }

  /** What a healthy passive device must offer before an attempt: readable non-empty mappings, and empty
      mappings that are already empty. */
  ghost predicate Configurable(d: Dict, checks: seq<Check>, begin: nat, end: nat)
    requires end <= |checks|
  {
    forall i | begin <= i < end && checks[i].field == MappingCount ::
      if checks[i].expected == 0 then HasValue(d, checks[i]) else Readable(d, checks, i)
  }

  /** Where the preflight stops decides: at a difference, or at the end, the mapping was readable. */
  lemma StopDecides(d: Dict, checks: seq<Check>, head: nat, stop: nat)
    requires head <= stop && forall i | head <= i < stop && InGroup(checks, head, i) :: HasValue(d, checks[i])
    requires InGroup(checks, head, stop) ==> !HasValue(d, checks[stop])
    requires head < |checks| && stop <= head + checks[head].expected + 1 <= |checks|
    requires checks[head].field == MappingCount
    ensures Readable(d, checks, head) <==> (InGroup(checks, head, stop) ==> HasSize(d, checks[stop]))
  {
    if InGroup(checks, head, stop) {
      assert forall i | head <= i < stop :: InGroup(checks, head, i);
      forall j | InGroup(checks, head, j) && j != stop && forall i | head <= i < j :: HasValue(d, checks[i])
        ensures HasSize(d, checks[j])
      {
        assert j < stop;
      }
    }
  }

  /** Comparing size and decoded value is comparing the bytes. */
  lemma WireMatches(c: Check, data: seq<uint8>)
    requires c.expected < Pow256(c.size)
    ensures data == Wire(c) <==> |data| == c.size && Decode(data) == c.expected
  {
    DecodeEncode(c.expected, c.size);
    EncodeDecode(data);
  }

  /** The value of a phase is recovered from its bytes. */
  lemma PhaseFits(c: Check, phase: nat)
    requires c.expected < Pow256(c.size)
    ensures Decode(PhaseData(c, phase)) == PhaseValue(c, phase) && |PhaseData(c, phase)| == c.size
  {
    DecodeEncode(PhaseValue(c, phase), c.size);
  }

  lemma ExpectedFits(checks: seq<Check>, i: nat)
    requires i < |checks| && CheckOk(checks, i)
    ensures checks[i].expected < Pow256(checks[i].size) && checks[i].size <= 4
  {
    Pow256Table();
  }
}
