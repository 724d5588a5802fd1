/** The PREOP configuration protocol as a monitor over everything the verifier asks of the bus.

    A run is a trace of events. `Run` folds it into what is known at each point, `Allowed` says which event
    may come next, and `Safe` says every event of a trace was allowed when it happened. The class in
    PdoVerification.dfy proves that its traces are safe against any bus; the lemmas here say what safe
    traces guarantee. */
module Protocol {
  import opened Bytes
  import opened PdoConfig
  import opened Wrappers

  const AL_PREOP: nat := 2

  /** One answered call, or one line of the configuration log. */
  datatype Event =
    | State(position: uint16, rc: int, al: nat, errorFlag: nat)
    | Clock(time: Option<int>)
    | Download(key: Key, data: seq<uint8>, rc: int)
    | Upload(key: Key, rc: int, data: seq<uint8>)
    | InitWritten
    | AttemptFailed
    | Verified
  {
    predicate Sdo() {
      Download? || Upload?
    }

    function SdoKey(): Key
      requires Sdo()
    {
      key
    }
  }

  /** What one call works on: the checks, the init downloads, the time budget, and the dictionary of the
      bus when the call begins. */
  datatype Job = Job(checks: seq<Check>, inits: seq<InitWrite>, timeout: int, image: Dict)

  /** How far the guard in front of the next SDO call has come. */
  datatype Pass = Shut | Seen(position: uint16) | Open(position: uint16)

  /** `deadline` is set by the first clock reading; `tripped` once a query or a reading fails the guard. */
  datatype Gate = Gate(deadline: Option<int>, pass: Pass, tripped: bool)

  /** `dict` is the dictionary if every device is passive: an accepted write stores its bytes and nothing
      else changes. `honest` while every accepted upload agrees with that. */
  datatype Device = Device(dict: Dict, honest: bool)

  /** Accepted init commands, first check of the slave being configured, and whether an SDO call of this
      attempt was rejected. */
  datatype Progress = Progress(inits: nat, current: nat, stopped: bool)

  /** Accepted writes and reads of this attempt, and the reads since its last write. */
  datatype Ledger = Ledger(written: Dict, probed: Dict, confirmed: Dict)

  /** `failed` counts the failed attempts since the last verification. */
  datatype Tally = Tally(rejected: bool, attempts: nat, failed: nat, sdo: nat)

  datatype Monitor = Monitor(gate: Gate, device: Device, progress: Progress, ledger: Ledger, tally: Tally) {
    /** Every guard passed and every SDO call was accepted so far. */
    predicate Healthy() {
      !gate.tripped && !tally.rejected
    }
  }

  const EMPTY_LEDGER := Ledger(map[], map[], map[])

  function Start(job: Job): Monitor {
    Monitor(Gate(None, Shut, false), Device(job.image, true), Progress(0, 0, false), EMPTY_LEDGER,
            Tally(false, 0, 0, 0))
  }

  function BlockEnd(checks: seq<Check>, begin: nat): (end: nat)
    requires begin < |checks|
    ensures begin < end <= |checks|
    ensures forall i | begin <= i < end :: checks[i].slave == checks[begin].slave
    ensures end < |checks| ==> checks[end].slave != checks[begin].slave
  {
    ScanBlock(checks, begin, begin + 1)
  }

  function ScanBlock(checks: seq<Check>, begin: nat, end: nat): (r: nat)
    requires begin < end <= |checks|
    requires forall i | begin <= i < end :: checks[i].slave == checks[begin].slave
    ensures end <= r <= |checks|
    ensures forall i | begin <= i < r :: checks[i].slave == checks[begin].slave
    ensures r < |checks| ==> checks[r].slave != checks[begin].slave
    decreases |checks| - end
  {
    if end < |checks| && checks[end].slave == checks[begin].slave
    then ScanBlock(checks, begin, end + 1)
    else end
  }

  function StepGate(timeout: int, g: Gate, e: Event): Gate {
    match e
    case State(p, rc, al, flag) =>
      if rc == 0 && al == AL_PREOP && flag == 0 then g.(pass := Seen(p)) else g.(pass := Shut, tripped := true)
    case Clock(None) => g.(pass := Shut, tripped := true)
    case Clock(Some(t)) =>
      if g.deadline.None? then g.(pass := Shut, deadline := Some(t + timeout))
      else if t >= g.deadline.value then g.(pass := Shut, tripped := true)
      else g.(pass := if g.pass.Seen? then Open(g.pass.position) else Shut)
    case _ => g.(pass := Shut)
  }

  function StepDevice(d: Device, e: Event): Device {
    match e
    case Download(k, data, rc) => if rc == 0 then d.(dict := d.dict[k := data]) else d
    case Upload(k, rc, data) =>
      if rc == 0 then d.(honest := d.honest && k in d.dict && d.dict[k] == data) else d
    case _ => d
  }

  function StepProgress(job: Job, p: Progress, e: Event): Progress {
    match e
    case Download(_, _, rc) =>
      if rc != 0 then p.(stopped := true)
      else if p.inits < |job.inits| then p.(inits := p.inits + 1)
      else p
    case Upload(_, rc, _) => if rc != 0 then p.(stopped := true) else p
    case AttemptFailed => p.(stopped := false)
    case Verified =>
      p.(stopped := false,
         current := if p.current < |job.checks| then BlockEnd(job.checks, p.current) else p.current)
    case _ => p
  }

  function StepLedger(configuring: bool, l: Ledger, e: Event): Ledger {
    match e
    case Download(k, data, rc) =>
      Ledger(if configuring && rc == 0 then l.written[k := data] else l.written, l.probed, map[])
    case Upload(k, rc, data) =>
      if rc == 0 then l.(probed := l.probed[k := data], confirmed := l.confirmed[k := data]) else l
    case AttemptFailed => EMPTY_LEDGER
    case Verified => EMPTY_LEDGER
    case _ => l
  }

  function StepTally(t: Tally, e: Event): Tally {
    match e
    case Download(_, _, rc) => t.(rejected := t.rejected || rc != 0, sdo := t.sdo + 1)
    case Upload(_, rc, _) => t.(rejected := t.rejected || rc != 0, sdo := t.sdo + 1)
    case AttemptFailed => t.(attempts := t.attempts + 1, failed := t.failed + 1)
    case Verified => t.(attempts := t.attempts + 1, failed := 0)
    case _ => t
  }

  predicate Configuring(job: Job, p: Progress) {
    p.inits >= |job.inits|
  }

  function Step(job: Job, m: Monitor, e: Event): Monitor {
    Monitor(StepGate(job.timeout, m.gate, e), StepDevice(m.device, e), StepProgress(job, m.progress, e),
            StepLedger(Configuring(job, m.progress), m.ledger, e), StepTally(m.tally, e))
  }

  function Run(job: Job, t: seq<Event>): Monitor {
    if t == [] then Start(job) else Step(job, Run(job, t[..|t| - 1]), t[|t| - 1])
  }

  // ---------- what may come next ----------

  /** Checks i and j belong to the mapping object whose count is check `head`. */
  ghost predicate InGroup(checks: seq<Check>, head: nat, j: int) {
    head <= j < |checks| && checks[head].field == MappingCount && j <= head + checks[head].expected
  }

  ghost predicate InBlock(job: Job, p: Progress, i: int) {
    p.current < |job.checks| && p.current <= i < BlockEnd(job.checks, p.current)
  }

  /** This attempt wrote, or else read, exactly these bytes. */
  ghost predicate InPlace(l: Ledger, k: Key, data: seq<uint8>) {
    if k in l.written then l.written[k] == data else k in l.probed && l.probed[k] == data
  }

  /** This attempt disabled the object with this count. */
  ghost predicate Zeroed(l: Ledger, position: uint16, index: uint16) {
    var k := Key(position, index, 0);
    k in l.written && l.written[k] == [0]
  }

  ghost predicate BothDisabled(l: Ledger, position: uint16) {
    Zeroed(l, position, RX_ASSIGNMENT) && Zeroed(l, position, TX_ASSIGNMENT)
  }

  /** This attempt read a value of the group that differs from the expected one. */
  ghost predicate Mismatched(job: Job, l: Ledger, head: nat) {
    exists j :: InGroup(job.checks, head, j) && Differs(l, job.checks[j])
  }

  ghost predicate Differs(l: Ledger, c: Check) {
    KeyOf(c) in l.probed && l.probed[KeyOf(c)] != Wire(c)
  }

  /** Everything an assignment may point at is in place: all assignment entries and all non-empty mappings. */
  ghost predicate ReadyToEnable(job: Job, p: Progress, l: Ledger) {
    forall i | InBlock(job, p, i) && Mandatory(job.checks[i]) ::
      InPlace(l, KeyOf(job.checks[i]), Wire(job.checks[i]))
  }

  predicate Mandatory(c: Check) {
    c.field == Assignment || c.field == MappingEntry || (c.field == MappingCount && c.expected != 0)
  }

  /** The ordering rules for one write of check i. */
  ghost predicate InOrder(job: Job, p: Progress, l: Ledger, i: nat, data: seq<uint8>)
    requires i < |job.checks|
  {
    var c := job.checks[i];
    match c.field
    case AssignmentCount =>
      data == [0] || (data == Wire(c) && ReadyToEnable(job, p, l))
    case MappingCount =>
      && c.expected != 0 && BothDisabled(l, c.position) && Mismatched(job, l, i)
      && (data == [0] ||
          (data == Wire(c) &&
           forall j | i < j && InGroup(job.checks, i, j) :: HasValue(l.written, job.checks[j])))
    case MappingEntry =>
      && data == Wire(c) && BothDisabled(l, c.position) && Zeroed(l, c.position, c.index)
      && c.sub <= i && Mismatched(job, l, i - c.sub)
    case Assignment =>
      data == Wire(c) && Zeroed(l, c.position, c.index)
    case InitField => false
  }

  /** No two checks of one slave address the same object. */
  ghost predicate KeysDistinct(checks: seq<Check>) {
    forall i, j | 0 <= i < j < |checks| && checks[i].slave == checks[j].slave :: KeyOf(checks[i]) != KeyOf(checks[j])
  }

  ghost predicate PositionsDistinct(checks: seq<Check>) {
    forall i, j | 0 <= i < j < |checks| && checks[i].slave != checks[j].slave ::
      checks[i].position != checks[j].position
  }

  ghost predicate PdoWrite(job: Job, p: Progress, l: Ledger, i: nat, k: Key, data: seq<uint8>) {
    && InBlock(job, p, i) && k == KeyOf(job.checks[i])
    && (KeysDistinct(job.checks) ==> InOrder(job, p, l, i, data))
  }

  ghost predicate PdoRead(job: Job, p: Progress, i: nat, k: Key) {
    InBlock(job, p, i) && k == KeyOf(job.checks[i])
  }

  ghost predicate Entitled(m: Monitor, position: uint16) {
    m.gate.pass == Open(position) && !m.gate.tripped && !m.progress.stopped
  }

  ghost predicate BlockConfirmed(job: Job, p: Progress, l: Ledger) {
    forall i | InBlock(job, p, i) :: HasValue(l.confirmed, job.checks[i])
  }

  /** The device reported the object in another size. */
  ghost predicate WrongSizeRead(l: Ledger, c: Check) {
    KeyOf(c) in l.probed && |l.probed[KeyOf(c)]| != c.size
  }

  /** The device reported another value after the last write. */
  ghost predicate WrongValueRead(l: Ledger, c: Check) {
    KeyOf(c) in l.confirmed && l.confirmed[KeyOf(c)] != Wire(c)
  }

  /** Both assignments have their final counts: everything has been written. */
  ghost predicate Restored(job: Job, p: Progress, l: Ledger) {
    forall i | InBlock(job, p, i) && job.checks[i].field.AssignmentCount? :: HasValue(l.written, job.checks[i])
  }

  /** What alone makes an attempt fail: a failed guard, a rejected call, an object of the wrong size, or a wrong
      value once everything is written. */
  ghost predicate Caused(job: Job, m: Monitor) {
    || m.gate.tripped || m.progress.stopped
    || (exists i :: InBlock(job, m.progress, i) && WrongSizeRead(m.ledger, job.checks[i]))
    || ((KeysDistinct(job.checks) ==> Restored(job, m.progress, m.ledger)) &&
        exists i :: InBlock(job, m.progress, i) && WrongValueRead(m.ledger, job.checks[i]))
  }

  ghost predicate Allowed(job: Job, m: Monitor, e: Event) {
    match e
    case State(_, _, _, _) => true
    case Clock(_) => true
    case Download(k, data, _) =>
      && Entitled(m, k.position)
      && if m.progress.inits < |job.inits| then job.inits[m.progress.inits] == InitWrite(k, data)
         else exists i :: PdoWrite(job, m.progress, m.ledger, i, k, data)
    case Upload(k, _, _) =>
      Entitled(m, k.position) && m.progress.inits == |job.inits| && exists i :: PdoRead(job, m.progress, i, k)
    case InitWritten => true
    case AttemptFailed => m.progress.inits == |job.inits| && m.progress.current < |job.checks| && Caused(job, m)
    case Verified =>
      && m.progress.inits == |job.inits| && m.progress.current < |job.checks| && !m.gate.tripped && !m.progress.stopped
      && (KeysDistinct(job.checks) || m.device.honest ==> BlockConfirmed(job, m.progress, m.ledger))
  }

  ghost predicate Safe(job: Job, t: seq<Event>) {
    forall i | 0 <= i < |t| :: Allowed(job, Run(job, t[..i]), t[i])
  }

  lemma SafeSnoc(job: Job, t: seq<Event>, e: Event)
    requires Safe(job, t) && Allowed(job, Run(job, t), e)
    ensures Safe(job, t + [e]) && Run(job, t + [e]) == Step(job, Run(job, t), e)
  {
    assert (t + [e])[..|t|] == t;
    forall i | 0 <= i < |t + [e]| ensures Allowed(job, Run(job, (t + [e])[..i]), (t + [e])[i]) {
      if i < |t| {
        assert (t + [e])[..i] == t[..i];
      }
    }
  }
}
