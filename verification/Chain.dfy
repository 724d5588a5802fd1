/** The whole startup path: discovery, building, check list and PREOP configuration agree with each other. */
module Chain {
  import opened Bytes
  import opened PdoConfig
  import opened Wrappers
  import opened Protocol
  import opened SlaveConfig
  import opened Discovery
  import opened ConfigKeys
  import opened PreopPhases
  import opened PreopSafety
  import opened PreopDictionary
  import opened PdoDecoding

  function Slaves(sources: seq<Source>): (r: seq<Slave>)
    ensures |r| == |sources| && forall s | 0 <= s < |r| :: r[s] == BuiltSlave(sources[s])
  {
    seq(|sources|, s requires 0 <= s < |sources| => BuiltSlave(sources[s]))
  }

  /** What `prepare` accepts of a built configuration: it fits the subindices, positions and mapped objects are
      distinct. Init commands have been validated by then. */
  ghost predicate Consistent(sources: seq<Source>) {
    && (forall s | 0 <= s < |sources| :: SlaveOk(BuiltSlave(sources[s])) && DistinctObjects(BuiltSlave(sources[s])))
    && (forall a, b | 0 <= a < b < |sources| :: sources[a].id != sources[b].id)
  }

  /** A job that configures these sources, starting from a bus with this dictionary. */
  ghost predicate Configures(job: Job, sources: seq<Source>)
    requires Consistent(sources)
  {
    job.checks == Compile(Slaves(sources), |sources|) && job.inits == Inits(Slaves(sources), |sources|)
  }

  lemma JobIsSound(job: Job, sources: seq<Source>)
    requires Consistent(sources) && Configures(job, sources)
    ensures WellFormed(job.checks) && KeysDistinct(job.checks) && PositionsDistinct(job.checks)
  {
    hide SlaveOk, DistinctObjects, WellFormed, KeysDistinct, PositionsDistinct, Compile;
    CompileWellFormed(Slaves(sources), |sources|);
    ConfigurationKeys(Slaves(sources), |sources|);
  }

  // ---------- the check list of one PDO inside the whole ----------

  function ManagerOf(source: Source, rx: bool): Sync {
    if rx then Sync(2, true, Present(PdosOf(source.rx))) else Sync(3, false, Present(PdosOf(source.tx)))
  }

  function MappingsOf(source: Source, rx: bool): seq<Mapping> {
    if rx then source.rx else source.tx
  }

  lemma BuiltManagers(source: Source)
    ensures Managers(BuiltSlave(source)) == [ManagerOf(source, true), ManagerOf(source, false)]
  {
    var syncs := BuiltSlave(source).syncs.Items();
    assert ProcessSyncs(syncs, 1) == ProcessSyncs(syncs, 0) + [syncs[0]];
    assert ProcessSyncs(syncs, 2) == ProcessSyncs(syncs, 1) + [syncs[1]];
  }

  lemma BuiltPosition(source: Source)
    ensures BuiltSlave(source).position == source.id
  {
  }

  lemma {:induction false} PdoInPdos(position: uint16, s: nat, sm: Sync, n: nat, p: nat)
    requires sm.Process() && SyncOk(sm) && p < n <= |sm.pdos.Items()|
    ensures PdoOk(sm.pdos.Items()[p])
    ensures forall c | c in CompilePdo(position, s, sm, p) :: c in CompilePdos(position, s, sm, n)
  {
    hide CompilePdo;
    assert sm.pdos.Items()[p] in sm.pdos.Items();
    if p < n - 1 {
      PdoInPdos(position, s, sm, n - 1, p);
    }
  }

  lemma ManagersOk(source: Source)
    requires SlaveOk(BuiltSlave(source))
    ensures SyncOk(ManagerOf(source, true)) && SyncOk(ManagerOf(source, false))
  {
    var m := Managers(BuiltSlave(source));
    BuiltManagers(source);
    assert m[0] in m && m[1] in m;
  }

  lemma PdoInJob(job: Job, sources: seq<Source>, s: nat, rx: bool, p: nat)
    requires Consistent(sources) && Configures(job, sources) && s < |sources| && p < |MappingsOf(sources[s], rx)|
    ensures var sm := ManagerOf(sources[s], rx);
      SyncOk(sm) && p < |sm.pdos.Items()| <= 255 && PdoOk(sm.pdos.Items()[p])
    ensures forall c | c in CompilePdo(sources[s].id, s, ManagerOf(sources[s], rx), p) :: c in job.checks
  {
    var sm, slave := ManagerOf(sources[s], rx), BuiltSlave(sources[s]);
    var m := Managers(slave);
    BuiltManagers(sources[s]);
    ManagersOk(sources[s]);
    PdosAreOk(sm);
    hide CompilePdo, CompilePdos, CompileSync, CompileSyncs, CompileSlave, Compile, SlaveOk, SyncOk, PdoOk, DistinctObjects,
      PdosOf, ProcessSyncs;
    PdoInPdos(sources[s].id, s, sm, |sm.pdos.Items()|, p);
    SyncInSyncs(sources[s].id, s, m, 2, if rx then 0 else 1);
    SlaveInCompile(Slaves(sources), |sources|, s);
    SlaveWhole(slave, s);
    SyncWhole(sources[s].id, s, sm);
  }

  lemma SlaveWhole(slave: Slave, s: nat)
    requires SlaveOk(slave)
    ensures CompileSlave(slave, s) == CompileSyncs(slave.position, s, Managers(slave), |Managers(slave)|)
  {
  }

  // ---------- a discovered mapping ----------

  lemma ReportedWire(d: Dict, c: Check)
    requires KeyOf(c) in d && |d[KeyOf(c)]| == c.size && Decode(d[KeyOf(c)]) == c.expected
    ensures d[KeyOf(c)] == Wire(c)
  {
    EncodeDecode(d[KeyOf(c)]);
  }

  /** What was discovered and built is, check for check, what the device holds. */
  lemma ReportedPdoHolds(d: Dict, position: uint16, s: nat, sm: Sync, p: nat)
    requires sm.Process() && SyncOk(sm) && p < |sm.pdos.Items()|
    requires Reports(d, position, sm.pdos.Items()[p].index, sm.pdos.Items()[p].entries.Items())
    ensures PdoOk(sm.pdos.Items()[p])
    ensures forall c | c in CompilePdo(position, s, sm, p) && IsMapping(c) :: HasValue(d, c)
  {
    var pdo := sm.pdos.Items()[p];
    assert pdo in sm.pdos.Items();
    var entries := pdo.entries.Items();
    var r := CompilePdo(position, s, sm, p);
    forall c | c in r && IsMapping(c) ensures HasValue(d, c) {
      var i :| 0 <= i < |r| && r[i] == c;
      if i == 1 {
        ReportedWire(d, c);
      } else {
        assert i >= 2;
        assert ReportsEntry(d, Key(position, pdo.index, i - 1), entries[i - 2]);
        ReportedWire(d, c);
      }
    }
  }

  lemma {:induction false} InitsElsewhere(job: Job, n: nat, k: Key)
    requires n <= |job.inits| && forall w | w in job.inits :: w.key != k
    ensures Same(InitImage(job, n), job.image, k)
  {
    if n > 0 {
      InitsElsewhere(job, n - 1, k);
      assert job.inits[n - 1] in job.inits;
    }
  }

  /** The group of a count check consists of the checks compiled for its PDO. */
  lemma GroupIsPdo(job: Job, position: uint16, s: nat, sm: Sync, p: nat, head: nat, j: nat)
    requires sm.Process() && p < |sm.pdos.Items()| <= 255 && PdoOk(sm.pdos.Items()[p])
    requires WellFormed(job.checks) && KeysDistinct(job.checks)
    requires forall c | c in CompilePdo(position, s, sm, p) :: c in job.checks
    requires head < |job.checks| && job.checks[head] == CompilePdo(position, s, sm, p)[1] && InGroup(job.checks, head, j)
    ensures job.checks[j] == CompilePdo(position, s, sm, p)[1 + j - head] && IsMapping(job.checks[j])
  {
    var r := CompilePdo(position, s, sm, p);
    var c := r[1 + j - head];
    CheckIsOk(job.checks, head);
    if j > head {
      assert EntryOfGroup(job.checks[j], job.checks[head], j - head);
    }
    hide WellFormed, CheckOk;
    assert c in job.checks;
    var i :| 0 <= i < |job.checks| && job.checks[i] == c;
    assert KeyOf(job.checks[i]) == KeyOf(job.checks[j]) && job.checks[i].slave == job.checks[j].slave;
  }

  lemma ReportedGroupHeld(job: Job, position: uint16, s: nat, sm: Sync, p: nat, head: nat)
    requires sm.Process() && SyncOk(sm) && p < |sm.pdos.Items()|
    requires PdoOk(sm.pdos.Items()[p])
    requires WellFormed(job.checks) && KeysDistinct(job.checks)
    requires forall c | c in CompilePdo(position, s, sm, p) :: c in job.checks
    requires head < |job.checks| && job.checks[head] == CompilePdo(position, s, sm, p)[1]
    requires Reports(job.image, position, sm.pdos.Items()[p].index, sm.pdos.Items()[p].entries.Items())
    requires forall w | w in job.inits :: w.key.position != position || w.key.index != sm.pdos.Items()[p].index
    ensures GroupHeld(InitImage(job, |job.inits|), job.checks, head)
  {
    ReportedPdoHolds(job.image, position, s, sm, p);
    var r := CompilePdo(position, s, sm, p);
    var index := sm.pdos.Items()[p].index;
    assert forall i | 1 <= i < |r| :: r[i].position == position && r[i].index == index;
    hide WellFormed, KeysDistinct, SyncOk, Reports, InitImage, CompilePdo;
    forall j | InGroup(job.checks, head, j)
      ensures var k := KeyOf(job.checks[j]);
        k in InitImage(job, |job.inits|) && InitImage(job, |job.inits|)[k] == Wire(job.checks[j])
    {
      GroupIsPdo(job, position, s, sm, p, head, j);
      assert r[1 + j - head] in r;
      InitsElsewhere(job, |job.inits|, KeyOf(job.checks[j]));
    }
  }

  lemma MemberOfGroup(job: Job, position: uint16, s: nat, sm: Sync, p: nat, head: nat, k: Key)
    requires sm.Process() && p < |sm.pdos.Items()| <= 255 && PdoOk(sm.pdos.Items()[p])
    requires WellFormed(job.checks) && KeysDistinct(job.checks)
    requires forall c | c in CompilePdo(position, s, sm, p) :: c in job.checks
    requires head < |job.checks| && job.checks[head] == CompilePdo(position, s, sm, p)[1]
    requires k.position == position && k.index == sm.pdos.Items()[p].index && k.sub <= |sm.pdos.Items()[p].entries.Items()|
    ensures GroupKey(job.checks, head, k)
  {
    CheckIsOk(job.checks, head);
    assert InGroup(job.checks, head, head + k.sub);
    GroupIsPdo(job, position, s, sm, p, head, head + k.sub);
  }

  /** The device still reports what discovery read, and no init command touches the object. */
  ghost predicate StillReported(job: Job, source: Source, m: Mapping) {
    && Reports(job.image, source.id, m.index, EntriesOf(m.entries))
    && forall w | w in job.inits :: w.key.position != source.id || w.key.index != m.index
  }

  /** The group of checks of one mapping: held by the device, and all of its objects. */
  ghost predicate HeldGroup(job: Job, source: Source, m: Mapping, head: nat) {
    && head < |job.checks| && job.checks[head].field.MappingCount?
    && GroupHeld(InitImage(job, |job.inits|), job.checks, head)
    && forall k: Key | k.position == source.id && k.index == m.index && k.sub <= |m.entries| ::
         GroupKey(job.checks, head, k)
  }

  lemma CountOfPdo(position: uint16, s: nat, sm: Sync, p: nat)
    requires sm.Process() && p < |sm.pdos.Items()| <= 255 && PdoOk(sm.pdos.Items()[p])
    ensures var r, pdo := CompilePdo(position, s, sm, p), sm.pdos.Items()[p];
      |r| >= 2 && r[1] == Check(position, sm.index, pdo.index, 0, 1, |pdo.entries.Items()|, MappingCount, s)
  {
  }

  lemma PdoOfMapping(source: Source, rx: bool, p: nat)
    requires p < |MappingsOf(source, rx)|
    ensures var sm, m := ManagerOf(source, rx), MappingsOf(source, rx)[p];
      && sm.Process() && p < |sm.pdos.Items()| == |MappingsOf(source, rx)|
      && sm.pdos.Items()[p].index == m.index && sm.pdos.Items()[p].entries.Items() == EntriesOf(m.entries)
      && |sm.pdos.Items()[p].entries.Items()| == |m.entries|
  {
  }

  lemma DiscoveredGroup(job: Job, sources: seq<Source>, s: nat, rx: bool, p: nat) returns (head: nat)
    requires Consistent(sources) && Configures(job, sources) && s < |sources| && p < |MappingsOf(sources[s], rx)|
    requires StillReported(job, sources[s], MappingsOf(sources[s], rx)[p])
    ensures HeldGroup(job, sources[s], MappingsOf(sources[s], rx)[p], head)
  {
    hide Consistent, Configures, WellFormed, KeysDistinct, PositionsDistinct, SyncOk, PdoOk, StillReported, HeldGroup,
      CompilePdo, PdosOf, EntriesOf, ManagerOf, MappingsOf;
    JobIsSound(job, sources);
    PdoInJob(job, sources, s, rx, p);
    PdoOfMapping(sources[s], rx, p);
    head := HeldPdo(job, sources[s], MappingsOf(sources[s], rx)[p], s, ManagerOf(sources[s], rx), p);
  }

  lemma HeldPdo(job: Job, source: Source, m: Mapping, s: nat, sm: Sync, p: nat) returns (head: nat)
    requires sm.Process() && SyncOk(sm) && p < |sm.pdos.Items()| <= 255 && PdoOk(sm.pdos.Items()[p])
    requires sm.pdos.Items()[p].index == m.index && sm.pdos.Items()[p].entries.Items() == EntriesOf(m.entries)
    requires WellFormed(job.checks) && KeysDistinct(job.checks) && StillReported(job, source, m)
    requires forall c | c in CompilePdo(source.id, s, sm, p) :: c in job.checks
    ensures HeldGroup(job, source, m, head)
  {
    hide WellFormed, KeysDistinct, SyncOk, PdoOk, Reports, GroupHeld, InitImage, GroupKey, CompilePdo, EntriesOf;
    var r := CompilePdo(source.id, s, sm, p);
    CountOfPdo(source.id, s, sm, p);
    assert r[1] in r;
    head :| head < |job.checks| && job.checks[head] == r[1];
    ReportedGroupHeld(job, source.id, s, sm, p, head);
    MembersOfGroup(job, source.id, s, sm, p, head);
  }

  lemma MembersOfGroup(job: Job, position: uint16, s: nat, sm: Sync, p: nat, head: nat)
    requires sm.Process() && p < |sm.pdos.Items()| <= 255 && PdoOk(sm.pdos.Items()[p])
    requires WellFormed(job.checks) && KeysDistinct(job.checks)
    requires forall c | c in CompilePdo(position, s, sm, p) :: c in job.checks
    requires head < |job.checks| && job.checks[head] == CompilePdo(position, s, sm, p)[1]
    ensures var pdo := sm.pdos.Items()[p];
      forall k: Key | k.position == position && k.index == pdo.index && k.sub <= |pdo.entries.Items()| ::
        GroupKey(job.checks, head, k)
  {
    var pdo := sm.pdos.Items()[p];
    hide WellFormed, KeysDistinct, CompilePdo, GroupKey, PdoOk;
    forall k: Key | k.position == position && k.index == pdo.index && k.sub <= |pdo.entries.Items()|
      ensures GroupKey(job.checks, head, k)
    {
      MemberOfGroup(job, position, s, sm, p, head, k);
    }
  }

  /** If the device still reports what discovery read, and no init command touches the object, configuration
      issues no download to the mapping: not to its count and not to any of its entries, in no attempt. */
  lemma DiscoveredMappingIsNeverWritten(job: Job, t: seq<Event>, i: nat, sources: seq<Source>, s: nat, rx: bool, p: nat)
    requires Consistent(sources) && Configures(job, sources) && s < |sources| && p < |MappingsOf(sources[s], rx)|
    requires StillReported(job, sources[s], MappingsOf(sources[s], rx)[p])
    requires Safe(job, t) && Run(job, t).device.honest && PdoDownload(job, t, i)
    ensures var m := MappingsOf(sources[s], rx)[p];
      t[i].key.position != sources[s].id || t[i].key.index != m.index || t[i].key.sub > |m.entries|
  {
    hide Consistent, Configures, StillReported, WellFormed, KeysDistinct, PositionsDistinct, Safe, Run, GroupHeld, InitImage,
      GroupKey;
    var head := DiscoveredGroup(job, sources, s, rx, p);
    JobIsSound(job, sources);
    MatchingMappingIsNeverWritten(job, t, i, head);
  }

  // ---------- when a healthy bus cannot be configured ----------

  /** A mapping count that a device reports in more (or fewer) bytes than one makes the preflight of its slave fail
      in every attempt: the bus is not configurable, although each access to it is accepted. */
  lemma OddCountIsNeverRepaired(job: Job, d: Dict, sources: seq<Source>, s: nat, rx: bool, p: nat)
    requires Consistent(sources) && Configures(job, sources) && s < |sources| && p < |MappingsOf(sources[s], rx)|
    requires var m := MappingsOf(sources[s], rx)[p];
      m.entries != [] && var k := Key(sources[s].id, m.index, 0); k in d && |d[k]| != 1
    ensures !Configurable(d, job.checks, 0, |job.checks|)
  {
    PdoInJob(job, sources, s, rx, p);
    PdoOfMapping(sources[s], rx, p);
    CountOfPdo(sources[s].id, s, ManagerOf(sources[s], rx), p);
    hide Consistent, Configures, SyncOk, PdoOk, PdosOf, EntriesOf, ManagerOf, MappingsOf, CompilePdo, Configurable;
    var r := CompilePdo(sources[s].id, s, ManagerOf(sources[s], rx), p);
    assert r[1] in r;
    var head: nat :| head < |job.checks| && job.checks[head] == r[1];
    OddHeadIsUnreadable(d, job.checks, head);
  }

  lemma OddHeadIsUnreadable(d: Dict, checks: seq<Check>, head: nat)
    requires head < |checks| && checks[head].field.MappingCount? && checks[head].expected != 0
    requires !HasSize(d, checks[head])
    ensures !Configurable(d, checks, 0, |checks|)
  {
    assert InGroup(checks, head, head);
    assert !Readable(d, checks, head);
  }

  /** One slave, one output mapped in 0x1600. */
  const ONE_OUTPUT: Source :=
    Source(0, "drive", 0, 0, [Mapping(0x1600, [NamedEntry("target", Entry(0x7000, 1, 8))])], [], [])

  /** For instance this slave, when its device reports the count of 0x1600 in two bytes. */
  lemma OddCountExample(job: Job, d: Dict)
    requires job.checks == Compile(Slaves([ONE_OUTPUT]), 1) && job.inits == Inits(Slaves([ONE_OUTPUT]), 1)
    requires d == map[Key(0, 0x1600, 0) := [1, 0]]
    ensures !Configurable(d, job.checks, 0, |job.checks|)
  {
    hide Compile, Inits, Configurable;
    ExampleIsConsistent();
    OddCountIsNeverRepaired(job, d, [ONE_OUTPUT], 0, true, 0);
  }

  lemma ExampleIsConsistent()
    ensures Consistent([ONE_OUTPUT])
  {
    var slave := BuiltSlave(ONE_OUTPUT);
    BuiltManagers(ONE_OUTPUT);
    var m := Managers(slave);
    TwoManagers(m);
    assert PdosOf(ONE_OUTPUT.tx) == [];
    assert AllPdos(m) == PdosOf(ONE_OUTPUT.rx);
    assert SlaveOk(slave) by {
      forall x | x in m ensures SyncOk(x) {}
    }
  }

  // ---------- when the write order does not hold ----------

  /** One slave whose only output PDO has the index of the assignment object itself; `prepare` accepts it. */
  const MAPPED_ASSIGNMENT: Source :=
    Source(0, "drive", 0, 0, [Mapping(0x1c12, [NamedEntry("target", Entry(0x7000, 1, 8))])], [], [])

  const MAPPED_ASSIGNMENT_CHECKS: seq<Check> :=
    [Check(0, 2, 0x1c12, 0, 1, 1, AssignmentCount, 0), Check(0, 2, 0x1c12, 1, 2, 0x1c12, Assignment, 0),
     Check(0, 2, 0x1c12, 0, 1, 1, MappingCount, 0), Check(0, 2, 0x1c12, 1, 4, 0x7000_0108, MappingEntry, 0),
     Check(0, 3, 0x1c13, 0, 1, 0, AssignmentCount, 0)]

  lemma MappedAssignmentSyncs()
    ensures var sm, none := ManagerOf(MAPPED_ASSIGNMENT, true), ManagerOf(MAPPED_ASSIGNMENT, false);
      && SlaveOk(BuiltSlave(MAPPED_ASSIGNMENT)) && SyncOk(sm) && SyncOk(none)
      && CompileSync(0, 0, sm) + CompileSync(0, 0, none) == MAPPED_ASSIGNMENT_CHECKS
  {
    var slave := BuiltSlave(MAPPED_ASSIGNMENT);
    var m := Managers(slave);
    BuiltManagers(MAPPED_ASSIGNMENT);
    TwoManagers(m);
    assert PdosOf(MAPPED_ASSIGNMENT.tx) == [];
    assert SlaveOk(slave) by {
      forall x | x in m ensures SyncOk(x) {}
    }
    assert CompilePdos(0, 0, m[1], 0) == [];
    assert CompilePdos(0, 0, m[0], 1) == CompilePdos(0, 0, m[0], 0) + CompilePdo(0, 0, m[0], 0);
  }

  /** This is its check list. */
  lemma MappedAssignmentIsAccepted(slaves: seq<Slave>)
    requires slaves == [BuiltSlave(MAPPED_ASSIGNMENT)]
    ensures SlaveOk(slaves[0]) && Compile(slaves, 1) == MAPPED_ASSIGNMENT_CHECKS
  {
    MappedAssignmentSyncs();
    BuiltManagers(MAPPED_ASSIGNMENT);
    BuiltPosition(MAPPED_ASSIGNMENT);
    hide CompileSync, SlaveOk, SyncOk, ManagerOf, Managers, BuiltSlave, CompileSlave;
    CompileNone(slaves);
    CompileNext(slaves, 0);
    SlaveOkMeans(slaves[0], 0);
  }

  /** In every attempt at this slave that did not find its mapping in place, the write of the assignment entry
      is out of order: the count of its object has just been restored. */
  lemma MappedAssignmentExample(job: Job, p: Progress, l: Ledger, keep: seq<bool>)
    requires job.checks == MAPPED_ASSIGNMENT_CHECKS && |keep| == 5 && !keep[2]
    requires l.written == WrittenAt(job.checks, keep, 0, 5, 4, 1)
    ensures job.checks[1].field.Assignment? && !InOrder(job, p, l, 1, PhaseData(job.checks[1], 4))
  {
    hide WrittenAt, InOrder, PhaseData;
    MappedAssignmentBreaksOrder(job, p, l, keep, 0, 5, 2, 1);
  }

  // ---------- the result on the devices ----------

  lemma HeldConfig(d: Dict, sources: seq<Source>, s: nat, rx: bool)
    requires Consistent(sources) && s < |sources| && Holds(d, Compile(Slaves(sources), |sources|))
    ensures ReadSync(d, sources[s].id, if rx then 2 else 3) == Shape(PdosOf(MappingsOf(sources[s], rx)))
  {
    hide SlaveOk, DistinctObjects, ReadSync, Shape, Compile, PdosOf, Holds, BuiltSlave;
    BuiltManagers(sources[s]);
    BuiltPosition(sources[s]);
    DeviceReportsConfig(d, Slaves(sources), s, if rx then 0 else 1);
  }

  /** The end of a successful configuration: every device reports, for its SM2 and SM3, exactly the configured
      PDOs in order with exactly the configured mappings, and nothing else differs from the dictionary left by
      the init commands, whatever failed and was retried on the way. */
  lemma ConfiguredBusReportsConfig(job: Job, t: seq<Event>, sources: seq<Source>, s: nat, rx: bool)
    requires Consistent(sources) && Configures(job, sources) && s < |sources|
    requires Safe(job, t) && Run(job, t).device.honest
    requires Run(job, t).progress == Progress(|job.inits|, |job.checks|, false)
    ensures var d := Run(job, t).device.dict;
      && ReadSync(d, sources[s].id, if rx then 2 else 3) == Shape(PdosOf(MappingsOf(sources[s], rx)))
      && d == FullRewrite(InitImage(job, |job.inits|), job.checks)
  {
    hide WellFormed, KeysDistinct, PositionsDistinct, Safe, Run, SlaveOk, DistinctObjects, FullRewrite, InitImage, ReadSync,
      Shape, Compile, PdosOf, Holds, BuiltSlave;
    JobIsSound(job, sources);
    FinalDictionary(job, t);
    HeldConfig(Run(job, t).device.dict, sources, s, rx);
  }
}
