/** What safe PREOP configuration runs do to the dictionaries of passive devices. */
module PreopDictionary {
  import opened Bytes
  import opened PdoConfig
  import opened Protocol
  import opened PreopSafety

  /** The bus dictionary once the first n init commands are stored. */
  function InitImage(job: Job, n: nat): Dict
    requires n <= |job.inits|
  {
    if n == 0 then job.image else InitImage(job, n - 1)[job.inits[n - 1].key := job.inits[n - 1].data]
  }

  function KeySet(checks: seq<Check>): set<Key> {
    set c | c in checks :: KeyOf(c)
  }

  ghost predicate Same(d: Dict, d': Dict, k: Key) {
    (k in d <==> k in d') && (k in d ==> d[k] == d'[k])
  }

  ghost predicate SameOutside(d: Dict, d': Dict, keys: set<Key>) {
    forall k | k !in keys :: Same(d, d', k)
  }

  ghost predicate AtBoundary(checks: seq<Check>, n: nat) {
    n <= |checks| && (0 < n < |checks| ==> checks[n - 1].slave < checks[n].slave)
  }

  /** The checks of all verified slaves and of the one being configured. */
  function Reach(job: Job, p: Progress): (n: nat)
    ensures n <= |job.checks|
  {
    if p.current < |job.checks| then BlockEnd(job.checks, p.current) else |job.checks|
  }

  /** The ledger of the attempt is the truth about a passive device. */
  ghost predicate Truthful(d: Dict, l: Ledger) {
    && (forall k | k in l.written :: k in d && d[k] == l.written[k])
    && (forall k | k in l.probed && k !in l.written :: k in d && d[k] == l.probed[k])
    && (forall k | k in l.confirmed :: k in d && d[k] == l.confirmed[k])
  }

  /** Before the init commands are done, nothing but them has happened. */
  ghost predicate Initializing(job: Job, m: Monitor) {
    && m.progress.inits <= |job.inits|
    && AtBoundary(job.checks, m.progress.current)
    && (m.progress.inits < |job.inits| ==>
          m.progress.current == 0 && m.ledger == EMPTY_LEDGER && m.device.dict == InitImage(job, m.progress.inits))
  }

  /** After them, only objects of the slaves configured so far may have changed. */
  ghost predicate Framed(job: Job, m: Monitor)
    requires m.progress.inits <= |job.inits|
  {
    m.progress.inits == |job.inits| ==>
      SameOutside(m.device.dict, InitImage(job, |job.inits|), KeySet(job.checks[..Reach(job, m.progress)]))
  }

  /** Verified slaves keep what was verified. */
  ghost predicate Settled(job: Job, m: Monitor)
    requires m.progress.current <= |job.checks|
  {
    m.device.honest ==>
      Truthful(m.device.dict, m.ledger) && Holds(m.device.dict, job.checks[..m.progress.current])
  }

  ghost predicate Standing(job: Job, m: Monitor) {
    Initializing(job, m) && Framed(job, m) && Settled(job, m)
  }

  lemma BoundaryOrder(checks: seq<Check>, n: nat, i: nat, j: nat)
    requires WellFormed(checks) && AtBoundary(checks, n) && i < n <= j < |checks|
    ensures checks[i].slave < checks[j].slave
  {
  }

  lemma EndIsBoundary(checks: seq<Check>, n: nat)
    requires WellFormed(checks) && n < |checks|
    ensures AtBoundary(checks, BlockEnd(checks, n))
  {
  }

  lemma PrefixGrows(checks: seq<Check>, n: nat, n': nat)
    requires n <= n' <= |checks|
    ensures forall c | c in checks[..n] :: c in checks[..n']
  {
    forall c | c in checks[..n] ensures c in checks[..n'] {
      var j :| 0 <= j < n && checks[j] == c;
      assert checks[..n'][j] == c;
    }
  }

  lemma NextInit(job: Job, n: nat)
    requires n < |job.inits|
    ensures InitImage(job, n + 1) == InitImage(job, n)[job.inits[n].key := job.inits[n].data]
  {
  }

  lemma InitializingStep(job: Job, m: Monitor, e: Event)
    requires WellFormed(job.checks) && Initializing(job, m) && Allowed(job, m, e)
    ensures Initializing(job, Step(job, m, e))
  {
    hide WellFormed, KeysDistinct, PdoWrite, PdoRead, BlockConfirmed, InitImage, Entitled;
    if m.progress.inits < |job.inits| && e.Download? && e.rc == 0 {
      NextInit(job, m.progress.inits);
    }
    if e.Verified? {
      EndIsBoundary(job.checks, m.progress.current);
    }
  }

  lemma WriteTarget(job: Job, m: Monitor, e: Event)
    requires Allowed(job, m, e) && e.Download? && m.progress.inits == |job.inits|
    ensures e.key in KeySet(job.checks[..Reach(job, m.progress)])
  {
    var i: nat :| PdoWrite(job, m.progress, m.ledger, i, e.key, e.data);
    assert job.checks[..Reach(job, m.progress)][i] == job.checks[i];
  }

  lemma LastInit(job: Job, m: Monitor, e: Event)
    requires Initializing(job, m) && Allowed(job, m, e) && e.Download?
    requires m.progress.inits == |job.inits| - 1 && e.rc == 0
    ensures StepDevice(m.device, e).dict == InitImage(job, |job.inits|)
  {
  }

  lemma FramedStep(job: Job, m: Monitor, e: Event)
    requires WellFormed(job.checks) && Initializing(job, m) && Framed(job, m) && Allowed(job, m, e)
    requires Initializing(job, Step(job, m, e))
    ensures Framed(job, Step(job, m, e))
  {
    hide WellFormed, KeysDistinct, PdoWrite, PdoRead, BlockConfirmed, InitImage, Entitled;
    var p := StepProgress(job, m.progress, e);
    if p.inits == |job.inits| {
      if e.Download? && m.progress.inits < p.inits {
        LastInit(job, m, e);
      } else {
        assert m.progress.inits == |job.inits|;
        if e.Download? {
          WriteTarget(job, m, e);
        } else if e.Verified? {
          PrefixGrows(job.checks, Reach(job, m.progress), Reach(job, p));
        }
      }
    }
  }

  lemma TruthfulStep(configuring: bool, d: Device, l: Ledger, e: Event)
    requires d.honest ==> Truthful(d.dict, l)
    requires !configuring ==> l == EMPTY_LEDGER
    ensures StepDevice(d, e).honest ==> Truthful(StepDevice(d, e).dict, StepLedger(configuring, l, e))
  {
  }

  lemma WriteElsewhere(job: Job, m: Monitor, e: Event)
    requires WellFormed(job.checks) && PositionsDistinct(job.checks)
    requires Initializing(job, m) && Allowed(job, m, e)
    requires e.Download? && m.progress.inits == |job.inits|
    ensures e.key !in KeySet(job.checks[..m.progress.current])
  {
    var i: nat :| PdoWrite(job, m.progress, m.ledger, i, e.key, e.data);
    var current := m.progress.current;
    forall c | c in job.checks[..current] ensures KeyOf(c) != e.key {
      var j :| 0 <= j < current && job.checks[j] == c;
      BoundaryOrder(job.checks, current, j, i);
    }
  }

  lemma BlockHolds(job: Job, m: Monitor)
    requires m.progress.current < |job.checks| && Truthful(m.device.dict, m.ledger)
    requires Holds(m.device.dict, job.checks[..m.progress.current]) && BlockConfirmed(job, m.progress, m.ledger)
    ensures Holds(m.device.dict, job.checks[..BlockEnd(job.checks, m.progress.current)])
  {
    var current, end := m.progress.current, BlockEnd(job.checks, m.progress.current);
    forall c | c in job.checks[..end]
      ensures HasValue(m.device.dict, c)
    {
      var j :| 0 <= j < end && job.checks[j] == c;
      if j < current {
        assert job.checks[..current][j] == c;
      } else {
        assert InBlock(job, m.progress, j) && HasValue(m.ledger.confirmed, job.checks[j]);
      }
    }
  }

  lemma SettledStep(job: Job, m: Monitor, e: Event)
    requires WellFormed(job.checks) && PositionsDistinct(job.checks)
    requires Initializing(job, m) && Settled(job, m) && Allowed(job, m, e)
    requires Initializing(job, Step(job, m, e))
    ensures Settled(job, Step(job, m, e))
  {
    var m' := Step(job, m, e);
    if m'.device.honest {
      TruthfulStep(Configuring(job, m.progress), m.device, m.ledger, e);
      if e.Download? && e.rc == 0 && m.progress.inits == |job.inits| {
        WriteElsewhere(job, m, e);
      } else if e.Verified? {
        BlockHolds(job, m);
      }
    }
  }

  lemma {:induction false} RunStanding(job: Job, t: seq<Event>)
    requires WellFormed(job.checks) && PositionsDistinct(job.checks) && Safe(job, t)
    ensures Standing(job, Run(job, t))
  {
    if t != [] {
      var n := |t| - 1;
      PrefixSafe(job, t, n);
      RunStanding(job, t[..n]);
      assert Allowed(job, Run(job, t[..n]), t[n]);
      assert Run(job, t) == Step(job, Run(job, t[..n]), t[n]);
      hide Run, Step, Allowed;
      var m := Run(job, t[..n]);
      InitializingStep(job, m, t[n]);
      FramedStep(job, m, t[n]);
      SettledStep(job, m, t[n]);
    }
  }

  // ---------- the final dictionary ----------

  /** Every check written, in order and with none kept. */
  function FullRewrite(d: Dict, checks: seq<Check>): Dict {
    if checks == [] then d
    else FullRewrite(d, checks[..|checks| - 1])[KeyOf(checks[|checks| - 1]) := Wire(checks[|checks| - 1])]
  }

  lemma {:induction false} RewriteKey(d: Dict, checks: seq<Check>, target: Dict, k: Key)
    requires Holds(target, checks)
    ensures Same(FullRewrite(d, checks), if k in KeySet(checks) then target else d, k)
  {
    if checks != [] {
      var n := |checks| - 1;
      assert checks[n] in checks && forall c | c in checks[..n] :: c in checks;
      RewriteKey(d, checks[..n], target, k);
      assert forall c | c in checks :: c in checks[..n] || c == checks[n];
    }
  }

  /** A run that verifies every slave of a passive bus leaves exactly the dictionary of a full rewrite: the
      init commands, then every expected value of every slave, and nothing else changed. Kept mappings,
      failed attempts and retries leave no trace. */
  lemma FinalDictionary(job: Job, t: seq<Event>)
    requires WellFormed(job.checks) && PositionsDistinct(job.checks) && Safe(job, t)
    requires Run(job, t).device.honest
    requires Run(job, t).progress.current == |job.checks| && Run(job, t).progress.inits == |job.inits|
    ensures Run(job, t).device.dict == FullRewrite(InitImage(job, |job.inits|), job.checks)
    ensures Holds(Run(job, t).device.dict, job.checks)
  {
    RunStanding(job, t);
    hide Run;
    assert job.checks[..|job.checks|] == job.checks;
    RewriteIsUnique(InitImage(job, |job.inits|), job.checks, Run(job, t).device.dict);
  }

  lemma RewriteIsUnique(d: Dict, checks: seq<Check>, target: Dict)
    requires Holds(target, checks) && SameOutside(target, d, KeySet(checks))
    ensures target == FullRewrite(d, checks)
  {
    var rewritten := FullRewrite(d, checks);
    forall k: Key ensures (k in rewritten <==> k in target) && (k in target ==> rewritten[k] == target[k]) {
      RewriteKey(d, checks, target, k);
      assert k !in KeySet(checks) ==> Same(target, d, k);
    }
    assert rewritten.Keys == target.Keys;
  }

  // ---------- ordering on the device ----------

  ghost predicate DeviceZero(d: Dict, position: uint16, index: uint16) {
    var k := Key(position, index, 0);
    k in d && d[k] == [0]
  }

  /** Event i is a PDO configuration write. */
  ghost predicate PdoDownload(job: Job, t: seq<Event>, i: nat) {
    i < |t| && t[i].Download? && Run(job, t[..i]).progress.inits == |job.inits|
  }

  lemma {:induction false} HonestPrefix(job: Job, t: seq<Event>, n: nat)
    requires n <= |t| && Run(job, t).device.honest
    ensures Run(job, t[..n]).device.honest
    decreases |t| - n
  {
    if n < |t| {
      RunStep(job, t, n);
      HonestPrefix(job, t, n + 1);
    } else {
      assert t[..n] == t;
    }
  }

  /** What a passive device holds at the moment check c is written. */
  ghost predicate OrderedOnDevice(job: Job, d: Dict, c: Check, data: seq<uint8>) {
    match c.field
    case AssignmentCount =>
      data != [0] ==>
        data == Wire(c) && Holds(d, Filtered(job.checks, c.slave))
    case MappingCount =>
      && c.expected != 0 && DeviceZero(d, c.position, RX_ASSIGNMENT) && DeviceZero(d, c.position, TX_ASSIGNMENT)
    case MappingEntry =>
      && DeviceZero(d, c.position, RX_ASSIGNMENT) && DeviceZero(d, c.position, TX_ASSIGNMENT)
      && DeviceZero(d, c.position, c.index)
    case Assignment => DeviceZero(d, c.position, c.index)
    case InitField => false
  }

  /** The assignment entries and non-empty mappings of one slave. */
  function Filtered(checks: seq<Check>, s: nat): (r: seq<Check>)
    ensures forall c :: c in r <==> c in checks && c.slave == s && Mandatory(c)
  {
    if checks == [] then []
    else Filtered(checks[..|checks| - 1], s) +
         var c := checks[|checks| - 1]; if c.slave == s && Mandatory(c) then [c] else []
  }

  lemma WholeBlock(job: Job, m: Monitor, i: nat, j: nat)
    requires WellFormed(job.checks) && AtBoundary(job.checks, m.progress.current)
    requires InBlock(job, m.progress, i) && j < |job.checks| && job.checks[j].slave == job.checks[i].slave
    ensures InBlock(job, m.progress, j)
  {
  }

  lemma InPlaceOnDevice(m: Monitor, k: Key, data: seq<uint8>)
    requires Truthful(m.device.dict, m.ledger) && InPlace(m.ledger, k, data)
    ensures k in m.device.dict && m.device.dict[k] == data
  {
  }

  lemma EnabledOnDevice(job: Job, m: Monitor, i: nat)
    requires WellFormed(job.checks) && AtBoundary(job.checks, m.progress.current)
    requires Truthful(m.device.dict, m.ledger) && InBlock(job, m.progress, i) && ReadyToEnable(job, m.progress, m.ledger)
    ensures Holds(m.device.dict, Filtered(job.checks, job.checks[i].slave))
  {
    forall c | c in Filtered(job.checks, job.checks[i].slave)
      ensures HasValue(m.device.dict, c)
    {
      var j :| 0 <= j < |job.checks| && job.checks[j] == c;
      WholeBlock(job, m, i, j);
      InPlaceOnDevice(m, KeyOf(c), Wire(c));
    }
  }

  ghost predicate WrittenInOrder(job: Job, d: Dict, k: Key, data: seq<uint8>) {
    exists n :: 0 <= n < |job.checks| && OrderedWriteOf(job, d, job.checks[n], k, data)
  }

  ghost predicate OrderedWriteOf(job: Job, d: Dict, c: Check, k: Key, data: seq<uint8>) {
    k == KeyOf(c) && OrderedOnDevice(job, d, c, data)
  }

  lemma WriteIsOrdered(job: Job, m: Monitor, n: nat, k: Key, data: seq<uint8>)
    requires WellFormed(job.checks) && KeysDistinct(job.checks) && AtBoundary(job.checks, m.progress.current)
    requires Truthful(m.device.dict, m.ledger) && PdoWrite(job, m.progress, m.ledger, n, k, data)
    ensures OrderedWriteOf(job, m.device.dict, job.checks[n], k, data)
  {
    var c := job.checks[n];
    if c.field.AssignmentCount? && data != [0] {
      EnabledOnDevice(job, m, n);
    }
  }

  /** On passive devices: a mapping object is only written while both assignments are off, a mapping entry
      only while its own count is zero too, an assignment entry only while its assignment is off, and a
      nonzero assignment count only when all assignment entries and all non-empty mappings of the slave
      hold their expected values. */
  lemma WritesAreOrdered(job: Job, t: seq<Event>, i: nat)
    requires WellFormed(job.checks) && PositionsDistinct(job.checks) && KeysDistinct(job.checks)
    requires Safe(job, t) && Run(job, t).device.honest && PdoDownload(job, t, i)
    ensures WrittenInOrder(job, Run(job, t[..i]).device.dict, t[i].key, t[i].data)
  {
    PrefixSafe(job, t, i);
    HonestPrefix(job, t, i);
    RunStanding(job, t[..i]);
    var m := Run(job, t[..i]);
    assert Allowed(job, m, t[i]);
    hide Run;
    var n: nat :| PdoWrite(job, m.progress, m.ledger, n, t[i].key, t[i].data);
    WriteIsOrdered(job, m, n, t[i].key, t[i].data);
  }

  // ---------- verified slaves ----------

  lemma {:induction false} CurrentGrows(job: Job, t: seq<Event>, i: nat, j: nat)
    requires i <= j <= |t|
    ensures Run(job, t[..i]).progress.current <= Run(job, t[..j]).progress.current
    decreases j - i
  {
    if i < j {
      RunStep(job, t, i);
      CurrentGrows(job, t, i + 1, j);
    }
  }

  /** After a slave is verified no event of the run touches it again, and before that no later slave is
      touched: PDO accesses visit the slaves in order. */
  lemma VerifiedSlaveIsLeftAlone(job: Job, t: seq<Event>, v: nat, i: nat)
    requires WellFormed(job.checks) && PositionsDistinct(job.checks) && Safe(job, t)
    requires v < |t| && t[v].Verified? && i < |t| && t[i].Sdo()
    requires Run(job, t[..i]).progress.inits == |job.inits|
    ensures var current := Run(job, t[..v]).progress.current;
      && current < |job.checks|
      && (KeysDistinct(job.checks) ==> BlockConfirmed(job, Run(job, t[..v]).progress, Run(job, t[..v]).ledger))
      && (v < i ==> t[i].SdoKey().position != job.checks[current].position)
      && (i < v ==> forall n | BlockEnd(job.checks, current) <= n < |job.checks| ::
            t[i].SdoKey().position != job.checks[n].position)
  {
    hide Run, Step, Allowed, Safe, WellFormed, KeysDistinct, PositionsDistinct, Standing, BlockConfirmed;
    PrefixSafe(job, t, v);
    PrefixSafe(job, t, i);
    BoundaryAt(job, t[..v]);
    BoundaryAt(job, t[..i]);
    AllowedAt(job, t, v);
    AllowedAt(job, t, i);
    var m, at := Run(job, t[..v]), Run(job, t[..i]);
    VerifiedMeans(job, m);
    RunStep(job, t, v);
    if v < i {
      CurrentGrows(job, t, v + 1, i);
    } else if i < v {
      CurrentGrows(job, t, i, v);
    }
    var n: nat := AccessedCheck(job, at, t[i]);
    OrderedBlocks(job, m, at, n);
  }

  /** Event v verifies the slave of check n. */
  ghost predicate VerifiesSlaveOf(job: Job, t: seq<Event>, v: nat, n: nat) {
    v < |t| && t[v].Verified? && InBlock(job, Run(job, t[..v]).progress, n)
  }

  lemma {:induction false} PassedMeansVerified(job: Job, t: seq<Event>, i: nat, n: nat) returns (v: nat)
    requires WellFormed(job.checks) && PositionsDistinct(job.checks) && Safe(job, t)
    requires i <= |t| && n < |job.checks| && n < Run(job, t[..i]).progress.current
    ensures v < i && VerifiesSlaveOf(job, t, v, n)
  {
    assert t[..0] == [];
    RunStep(job, t, i - 1);
    AllowedAt(job, t, i - 1);
    hide Run, Safe, WellFormed, PositionsDistinct, Allowed;
    if n < Run(job, t[..i - 1]).progress.current {
      v := PassedMeansVerified(job, t, i - 1, n);
    } else {
      v := i - 1;
    }
  }

  lemma EarlierSlavesArePassed(job: Job, p: Progress, m: nat, n: nat)
    requires WellFormed(job.checks) && AtBoundary(job.checks, p.current)
    requires InBlock(job, p, m) && n < |job.checks| && job.checks[n].slave < job.checks[m].slave
    ensures n < p.current
  {
  }

  /** While a slave has not been verified, no SDO call after the init commands reaches a slave behind it, also
      in a run that never verifies it: behind every such call lies the verification of each earlier slave. */
  lemma LaterSlavesWait(job: Job, t: seq<Event>, i: nat, j: nat, n: nat) returns (v: nat)
    requires WellFormed(job.checks) && PositionsDistinct(job.checks) && Safe(job, t)
    requires i < |t| && t[i].Sdo() && Run(job, t[..i]).progress.inits == |job.inits|
    requires j < |job.checks| && t[i].SdoKey().position == job.checks[j].position
    requires n < |job.checks| && job.checks[n].slave < job.checks[j].slave
    ensures v < i && VerifiesSlaveOf(job, t, v, n)
    ensures KeysDistinct(job.checks) ==> BlockConfirmed(job, Run(job, t[..v]).progress, Run(job, t[..v]).ledger)
  {
    PrefixSafe(job, t, i);
    AllowedAt(job, t, i);
    BoundaryAt(job, t[..i]);
    hide Run, Step, Allowed, Safe, WellFormed, KeysDistinct, Standing, BlockConfirmed;
    var m: nat := AccessedCheck(job, Run(job, t[..i]), t[i]);
    assert job.checks[m].slave == job.checks[j].slave;
    EarlierSlavesArePassed(job, Run(job, t[..i]).progress, m, n);
    v := PassedMeansVerified(job, t, i, n);
    AllowedAt(job, t, v);
    VerifiedMeans(job, Run(job, t[..v]));
  }

  lemma AllowedAt(job: Job, t: seq<Event>, i: nat)
    requires Safe(job, t) && i < |t|
    ensures Allowed(job, Run(job, t[..i]), t[i])
  {
    hide Run, Allowed;
  }

  lemma BoundaryAt(job: Job, t: seq<Event>)
    requires WellFormed(job.checks) && PositionsDistinct(job.checks) && Safe(job, t)
    ensures AtBoundary(job.checks, Run(job, t).progress.current)
  {
    hide Run, Safe, WellFormed, PositionsDistinct;
    RunStanding(job, t);
  }

  lemma VerifiedMeans(job: Job, m: Monitor)
    requires Allowed(job, m, Verified)
    ensures m.progress.current < |job.checks|
    ensures KeysDistinct(job.checks) ==> BlockConfirmed(job, m.progress, m.ledger)
    ensures Step(job, m, Verified).progress.current == BlockEnd(job.checks, m.progress.current)
  {
    hide KeysDistinct, BlockConfirmed;
  }

  lemma AccessedCheck(job: Job, m: Monitor, e: Event) returns (n: nat)
    requires Allowed(job, m, e) && e.Sdo() && m.progress.inits == |job.inits|
    ensures InBlock(job, m.progress, n) && e.SdoKey() == KeyOf(job.checks[n])
  {
    if e.Download? {
      n :| PdoWrite(job, m.progress, m.ledger, n, e.key, e.data);
    } else {
      n :| PdoRead(job, m.progress, n, e.key);
    }
  }

  lemma OrderedBlocks(job: Job, m: Monitor, at: Monitor, n: nat)
    requires WellFormed(job.checks) && PositionsDistinct(job.checks)
    requires AtBoundary(job.checks, m.progress.current) && AtBoundary(job.checks, at.progress.current)
    requires m.progress.current < |job.checks| && InBlock(job, at.progress, n)
    ensures var current, end := m.progress.current, BlockEnd(job.checks, m.progress.current);
      && (at.progress.current >= end ==> job.checks[n].position != job.checks[current].position)
      && (at.progress.current <= current ==>
            forall k | end <= k < |job.checks| :: job.checks[n].position != job.checks[k].position)
  {
    var current, end := m.progress.current, BlockEnd(job.checks, m.progress.current);
    if at.progress.current <= current {
      forall k | end <= k < |job.checks| ensures job.checks[n].position != job.checks[k].position {
        EndIsBoundary(job.checks, current);
        if at.progress.current < current {
          WholeBlockBefore(job, at, current, n);
        }
        BoundaryOrder(job.checks, end, n, k);
      }
    } else if at.progress.current >= end {
      EndIsBoundary(job.checks, current);
      BoundaryOrder(job.checks, at.progress.current, current, n);
    }
  }

  lemma WholeBlockBefore(job: Job, m: Monitor, boundary: nat, n: nat)
    requires WellFormed(job.checks) && InBlock(job, m.progress, n)
    requires AtBoundary(job.checks, boundary) && m.progress.current < boundary <= |job.checks|
    ensures n < boundary
  {
    if n >= boundary {
      BoundaryOrder(job.checks, boundary, m.progress.current, n);
    }
  }

  // ---------- kept mappings ----------

  ghost predicate GroupKey(checks: seq<Check>, head: nat, k: Key) {
    exists j :: InGroup(checks, head, j) && KeyOf(checks[j]) == k
  }

  ghost predicate GroupHeld(d: Dict, checks: seq<Check>, head: nat) {
    forall j | InGroup(checks, head, j) :: HasValue(d, checks[j])
  }

  /** Before the PDO accesses start, or with the group still as configured and never read otherwise. */
  ghost predicate Kept(job: Job, m: Monitor, head: nat) {
    m.progress.inits == |job.inits| ==>
      && GroupHeld(m.device.dict, job.checks, head)
      && forall j | InGroup(job.checks, head, j) :: !Differs(m.ledger, job.checks[j])
  }

  lemma KeyOwner(checks: seq<Check>, i: nat, j: nat)
    requires OnePosition(checks) && KeysDistinct(checks) && PositionsDistinct(checks)
    requires i < |checks| && j < |checks| && KeyOf(checks[i]) == KeyOf(checks[j])
    ensures i == j
  {
  }

  lemma GroupWriteNeedsMismatch(job: Job, m: Monitor, head: nat, i: nat, data: seq<uint8>)
    requires Local(job.checks) && InGroup(job.checks, head, i) && InOrder(job, m.progress, m.ledger, i, data)
    ensures job.checks[head].expected != 0 && Mismatched(job, m.ledger, head)
  {
    assert CheckOk(job.checks, head);
    if i > head {
      assert EntryOfGroup(job.checks[i], job.checks[head], i - head);
    }
  }

  lemma WriteAvoidsGroup(job: Job, m: Monitor, e: Event, head: nat)
    requires WellFormed(job.checks) && KeysDistinct(job.checks) && PositionsDistinct(job.checks)
    requires head < |job.checks| && job.checks[head].field.MappingCount?
    requires job.checks[head].expected == 0 || !Mismatched(job, m.ledger, head)
    requires Allowed(job, m, e) && e.Download? && m.progress.inits == |job.inits|
    ensures !GroupKey(job.checks, head, e.key)
  {
    var i: nat :| PdoWrite(job, m.progress, m.ledger, i, e.key, e.data);
    hide CheckOk, InOrder;
    if j :| InGroup(job.checks, head, j) && KeyOf(job.checks[j]) == e.key {
      KeyOwner(job.checks, i, j);
      GroupWriteNeedsMismatch(job, m, head, i, e.data);
    }
  }

  lemma KeptNotMismatched(job: Job, m: Monitor, head: nat)
    requires Kept(job, m, head) && m.progress.inits == |job.inits|
    ensures !Mismatched(job, m.ledger, head)
  {
  }

  lemma KeptWrite(job: Job, m: Monitor, e: Event, head: nat)
    requires Kept(job, m, head) && m.progress.inits == |job.inits|
    requires e.Download? && !GroupKey(job.checks, head, e.key)
    ensures Kept(job, Step(job, m, e), head)
  {
    assert forall j | InGroup(job.checks, head, j) :: KeyOf(job.checks[j]) != e.key;
  }

  lemma KeptOther(job: Job, m: Monitor, e: Event, head: nat)
    requires Kept(job, m, head) && m.progress.inits == |job.inits|
    requires !e.Download? && StepDevice(m.device, e).honest
    ensures Kept(job, Step(job, m, e), head)
  {
  }

  lemma KeptStep(job: Job, m: Monitor, e: Event, head: nat)
    requires WellFormed(job.checks) && KeysDistinct(job.checks) && PositionsDistinct(job.checks)
    requires head < |job.checks| && job.checks[head].field.MappingCount?
    requires GroupHeld(InitImage(job, |job.inits|), job.checks, head)
    requires Initializing(job, m) && Kept(job, m, head) && Allowed(job, m, e)
    requires StepDevice(m.device, e).honest
    ensures Kept(job, Step(job, m, e), head)
  {
    if m.progress.inits < |job.inits| {
      if e.Download? && e.rc == 0 && m.progress.inits == |job.inits| - 1 {
        LastInit(job, m, e);
      }
    } else if e.Download? {
      KeptNotMismatched(job, m, head);
      WriteAvoidsGroup(job, m, e, head);
      KeptWrite(job, m, e, head);
    } else {
      KeptOther(job, m, e, head);
    }
  }

  lemma {:induction false} RunKept(job: Job, t: seq<Event>, head: nat)
    requires WellFormed(job.checks) && KeysDistinct(job.checks) && PositionsDistinct(job.checks)
    requires head < |job.checks| && job.checks[head].field.MappingCount?
    requires GroupHeld(InitImage(job, |job.inits|), job.checks, head)
    requires Safe(job, t) && Run(job, t).device.honest
    ensures Kept(job, Run(job, t), head)
  {
    if t != [] {
      var n := |t| - 1;
      PrefixSafe(job, t, n);
      HonestPrefix(job, t, n);
      RunKept(job, t[..n], head);
      RunStanding(job, t[..n]);
      assert Allowed(job, Run(job, t[..n]), t[n]);
      assert Run(job, t) == Step(job, Run(job, t[..n]), t[n]);
      hide Run, Allowed, Kept;
      KeptStep(job, Run(job, t[..n]), t[n], head);
    }
  }

  /** A mapping the passive device already holds after the init commands is never written, in no attempt:
      neither its count nor any of its entries. */
  lemma MatchingMappingIsNeverWritten(job: Job, t: seq<Event>, i: nat, head: nat)
    requires WellFormed(job.checks) && KeysDistinct(job.checks) && PositionsDistinct(job.checks)
    requires head < |job.checks| && job.checks[head].field.MappingCount?
    requires GroupHeld(InitImage(job, |job.inits|), job.checks, head)
    requires Safe(job, t) && Run(job, t).device.honest && PdoDownload(job, t, i)
    ensures !GroupKey(job.checks, head, t[i].key)
  {
    PrefixSafe(job, t, i);
    HonestPrefix(job, t, i);
    RunKept(job, t[..i], head);
    assert Allowed(job, Run(job, t[..i]), t[i]);
    hide Run, Allowed;
    KeptNotMismatched(job, Run(job, t[..i]), head);
    WriteAvoidsGroup(job, Run(job, t[..i]), t[i], head);
  }

  /** A PDO configured without entries is never written, on any device. */
  lemma EmptyMappingIsNeverWritten(job: Job, t: seq<Event>, i: nat, head: nat)
    requires WellFormed(job.checks) && KeysDistinct(job.checks) && PositionsDistinct(job.checks)
    requires head < |job.checks| && job.checks[head].field.MappingCount? && job.checks[head].expected == 0
    requires Safe(job, t) && PdoDownload(job, t, i)
    ensures t[i].key != KeyOf(job.checks[head])
  {
    var m := Run(job, t[..i]);
    assert Allowed(job, m, t[i]);
    hide Run;
    WriteAvoidsGroup(job, m, t[i], head);
    assert InGroup(job.checks, head, head);
  }
}
