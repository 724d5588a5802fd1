/** The nested PDO configuration of the bus and its flat list of expected dictionary values. */
module PdoConfig {
  import opened Bytes

  /** A counted pointer of the IgH tables: either null with a claimed count, or that many items. */
  datatype Table<+T> = Missing(claimed: nat) | Present(items: seq<T>) {
    predicate Usable() {
      Missing? ==> claimed == 0
    }

    function Items(): seq<T> {
      if Present? then items else []
    }
  }

  datatype Entry = Entry(index: uint16, sub: uint8, bits: uint8)

  datatype Pdo = Pdo(index: uint16, entries: Table<Entry>)

  type SyncIndex = x: uint8 | x != 0xff  // 0xff is the table terminator

  datatype Sync = Sync(index: SyncIndex, output: bool, pdos: Table<Pdo>) {
    predicate Process() {
      index == 2 || index == 3
    }
  }

  /** One scalar initialization download; `data` is the part of the buffer that is sent. */
  datatype InitCommand = InitCommand(index: uint16, sub: uint8, data: seq<uint8>)

  datatype Slave = Slave(position: uint16, syncs: Table<Sync>, inits: Table<InitCommand>)

  const RX_ASSIGNMENT: uint16 := 0x1c12
  const TX_ASSIGNMENT: uint16 := 0x1c13

  datatype Field = AssignmentCount | Assignment | MappingCount | MappingEntry | InitField

  datatype Check = Check(position: uint16, sync: uint8, index: uint16, sub: uint8, size: uint8,
                         expected: uint32, field: Field, slave: nat)

  datatype Key = Key(position: uint16, index: uint16, sub: uint8)

  /** A device dictionary, for all slaves of the bus together. */
  type Dict = map<Key, seq<uint8>>

  function KeyOf(c: Check): Key {
    Key(c.position, c.index, c.sub)
  }

  function Wire(c: Check): seq<uint8> {
    Encode(c.expected, c.size)
  }

  predicate IsMapping(c: Check) {
    c.field == MappingCount || c.field == MappingEntry
  }

  function EntryValue(e: Entry): uint32 {
    e.index * 0x1_0000 + e.sub * 0x100 + e.bits
  }

  /** The three fields of a mapping word, as discovery splits it. */
  function EntryOf(value: uint32): Entry {
    Entry(value / 0x1_0000, value / 0x100 % 0x100, value % 0x100)
  }

  lemma EntryRoundTrip(e: Entry, value: uint32)
    ensures EntryOf(EntryValue(e)) == e
    ensures EntryValue(EntryOf(value)) == value
  {
    assert EntryValue(e) / 0x100 == e.index * 0x100 + e.sub;
  }

  // ---------- acceptance and compilation ----------

  predicate CommandOk(command: InitCommand) {
    |command.data| == 1 || |command.data| == 2 || |command.data| == 4 || |command.data| == 8
  }

  predicate PdoOk(pdo: Pdo) {
    pdo.entries.Usable() && |pdo.entries.Items()| <= 255
  }

  predicate SyncOk(sync: Sync) {
    sync.pdos.Usable() && |sync.pdos.Items()| <= 255 &&
    forall p | p in sync.pdos.Items() :: PdoOk(p)
  }

  /** The SM2/SM3 entries of the first n table rows, in table order. */
  function ProcessSyncs(syncs: seq<Sync>, n: nat): (r: seq<Sync>)
    requires n <= |syncs|
    ensures forall s | s in r :: s.Process() && s in syncs
  {
    if n == 0 then []
    else ProcessSyncs(syncs, n - 1) + if syncs[n - 1].Process() then [syncs[n - 1]] else []
  }

  function Managers(slave: Slave): seq<Sync> {
    ProcessSyncs(slave.syncs.Items(), |slave.syncs.Items()|)
  }

  predicate UniqueManagers(syncs: seq<Sync>) {
    forall i, j | 0 <= i < j < |syncs| :: syncs[i].index != syncs[j].index
  }

  /** Both process data managers appear, each once, with usable tables. */
  predicate SlaveOk(slave: Slave) {
    && slave.syncs.Present?
    && slave.inits.Usable()
    && (forall c | c in slave.inits.Items() :: CommandOk(c))
    && (forall s | s in Managers(slave) :: SyncOk(s))
    && UniqueManagers(Managers(slave))
    && |Managers(slave)| == 2
  }

  function CompilePdo(position: uint16, s: nat, sm: Sync, p: nat): seq<Check>
    requires sm.Process() && p < |sm.pdos.Items()| <= 255 && PdoOk(sm.pdos.Items()[p])
  {
    var pdo := sm.pdos.Items()[p];
    [Check(position, sm.index, 0x1c10 + sm.index, p + 1, 2, pdo.index, Assignment, s),
     Check(position, sm.index, pdo.index, 0, 1, |pdo.entries.Items()|, MappingCount, s)] +
    CompileEntries(position, s, sm.index, pdo, |pdo.entries.Items()|)
  }

  function CompileEntries(position: uint16, s: nat, sync: uint8, pdo: Pdo, n: nat): (r: seq<Check>)
    requires PdoOk(pdo) && n <= |pdo.entries.Items()|
    ensures |r| == n
    ensures forall k | 0 <= k < n ::
      r[k] == Check(position, sync, pdo.index, k + 1, 4, EntryValue(pdo.entries.Items()[k]), MappingEntry, s)
  {
    seq(n, k requires 0 <= k < n =>
      Check(position, sync, pdo.index, k + 1, 4, EntryValue(pdo.entries.Items()[k]), MappingEntry, s))
  }

  function CompilePdos(position: uint16, s: nat, sm: Sync, n: nat): seq<Check>
    requires sm.Process() && n <= |sm.pdos.Items()| <= 255
    requires forall p | 0 <= p < n :: PdoOk(sm.pdos.Items()[p])
  {
    if n == 0 then [] else CompilePdos(position, s, sm, n - 1) + CompilePdo(position, s, sm, n - 1)
  }

  function CountCheck(position: uint16, s: nat, sm: Sync): Check
    requires sm.Process() && |sm.pdos.Items()| <= 255
  {
    Check(position, sm.index, 0x1c10 + sm.index, 0, 1, |sm.pdos.Items()|, AssignmentCount, s)
  }

  function CompileSync(position: uint16, s: nat, sm: Sync): seq<Check>
    requires sm.Process() && SyncOk(sm)
  {
    [CountCheck(position, s, sm)] + CompilePdos(position, s, sm, |sm.pdos.Items()|)
  }

  function CompileSyncs(position: uint16, s: nat, syncs: seq<Sync>, n: nat): seq<Check>
    requires n <= |syncs|
    requires forall m | m in syncs :: m.Process() && SyncOk(m)
  {
    if n == 0 then []
    else CompileSyncs(position, s, syncs, n - 1) + CompileSync(position, s, syncs[n - 1])
  }

  function CompileSlave(slave: Slave, s: nat): seq<Check>
    requires SlaveOk(slave)
  {
    CompileSyncs(slave.position, s, Managers(slave), |Managers(slave)|)
  }

  /** The whole check list: one block per slave, in configuration order. */
  function Compile(slaves: seq<Slave>, n: nat): seq<Check>
    requires n <= |slaves|
    requires forall k | 0 <= k < n :: SlaveOk(slaves[k])
  {
    if n == 0 then [] else Compile(slaves, n - 1) + CompileSlave(slaves[n - 1], n - 1)
  }

  datatype InitWrite = InitWrite(key: Key, data: seq<uint8>)

  function SlaveInits(slave: Slave): seq<InitWrite> {
    var items := slave.inits.Items();
    seq(|items|, i requires 0 <= i < |items| =>
      InitWrite(Key(slave.position, items[i].index, items[i].sub), items[i].data))
  }

  /** All initialization downloads, slave by slave in order. */
  function Inits(slaves: seq<Slave>, n: nat): seq<InitWrite>
    requires n <= |slaves|
  {
    if n == 0 then [] else Inits(slaves, n - 1) + SlaveInits(slaves[n - 1])
  }

  // ---------- structure of the check list ----------

  /** The shape of check i and of the group it belongs to, relative to its neighbours. */
  predicate CheckOk(checks: seq<Check>, i: nat)
    requires i < |checks|
  {
    var c := checks[i];
    match c.field
    case AssignmentCount =>
      c.sub == 0 && c.size == 1 && c.expected <= 255 && c.index in {RX_ASSIGNMENT, TX_ASSIGNMENT}
    case Assignment =>
      c.sub > 0 && c.size == 2 && c.expected < 0x1_0000 && c.index in {RX_ASSIGNMENT, TX_ASSIGNMENT}
    case MappingCount =>
      && c.sub == 0 && c.size == 1 && c.expected <= 255 && i + c.expected < |checks|
      && forall j | i < j <= i + c.expected :: EntryOfGroup(checks[j], c, j - i)
    case MappingEntry =>
      && c.size == 4 && 0 < c.sub <= i
      && var head := checks[i - c.sub];
         head.field == MappingCount && c.sub <= head.expected && EntryOfGroup(c, head, c.sub)
    case InitField => false
  }

  predicate EntryOfGroup(c: Check, head: Check, sub: nat) {
    c.field == MappingEntry && c.position == head.position && c.slave == head.slave &&
    c.index == head.index && c.sub == sub
  }

  predicate Local(checks: seq<Check>) {
    forall i | 0 <= i < |checks| :: CheckOk(checks, i)
  }

  predicate HasCount(checks: seq<Check>, s: nat, index: uint16) {
    exists a :: 0 <= a < |checks| && IsCount(checks[a], s, index)
  }

  predicate IsCount(c: Check, s: nat, index: uint16) {
    c.slave == s && c.field == AssignmentCount && c.index == index
  }

  predicate Ordered(checks: seq<Check>) {
    forall i, j | 0 <= i <= j < |checks| :: checks[i].slave <= checks[j].slave
  }

  predicate OnePosition(checks: seq<Check>) {
    forall i, j | 0 <= i < |checks| && 0 <= j < |checks| && checks[i].slave == checks[j].slave ::
      checks[i].position == checks[j].position
  }

  /** One contiguous block per slave, whole mapping groups, both assignment counts in each block. */
  predicate WellFormed(checks: seq<Check>) {
    && Local(checks) && Ordered(checks) && OnePosition(checks)
    && (forall i | 0 <= i < |checks| ::
          HasCount(checks, checks[i].slave, RX_ASSIGNMENT) && HasCount(checks, checks[i].slave, TX_ASSIGNMENT))
  }

  lemma CheckIsOk(checks: seq<Check>, i: nat)
    requires WellFormed(checks) && i < |checks|
    ensures CheckOk(checks, i)
  {
  }

  predicate AllOf(checks: seq<Check>, position: uint16, s: nat) {
    forall c | c in checks :: c.position == position && c.slave == s
  }

  lemma LocalConcat(a: seq<Check>, b: seq<Check>)
    requires Local(a) && Local(b)
    ensures Local(a + b)
  {
    forall i | 0 <= i < |a + b| ensures CheckOk(a + b, i) {
      if i < |a| {
        assert CheckOk(a, i);
        assert forall j | 0 <= j < |a| :: (a + b)[j] == a[j];
      } else {
        assert CheckOk(b, i - |a|);
        assert forall j | 0 <= j < |b| :: (a + b)[|a| + j] == b[j];
      }
    }
  }

  lemma {:induction false} PdosLocal(position: uint16, s: nat, sm: Sync, n: nat)
    requires sm.Process() && SyncOk(sm) && n <= |sm.pdos.Items()|
    ensures Local(CompilePdos(position, s, sm, n)) && AllOf(CompilePdos(position, s, sm, n), position, s)
  {
    hide CompilePdo, CheckOk, Local;
    if n > 0 {
      PdosLocal(position, s, sm, n - 1);
      PdoLocal(position, s, sm, n - 1);
      LocalConcat(CompilePdos(position, s, sm, n - 1), CompilePdo(position, s, sm, n - 1));
    } else {
      EmptyLocal();
    }
  }

  lemma EmptyLocal()
    ensures Local([])
  {
  }

  lemma PdoLocal(position: uint16, s: nat, sm: Sync, p: nat)
    requires sm.Process() && SyncOk(sm) && p < |sm.pdos.Items()|
    ensures Local(CompilePdo(position, s, sm, p)) && AllOf(CompilePdo(position, s, sm, p), position, s)
  {
    var pdo := sm.pdos.Items()[p];
    assert PdoOk(pdo);
    var r := CompilePdo(position, s, sm, p);
    forall j | 2 <= j < |r| ensures EntryOfGroup(r[j], r[1], j - 1) {}
    assert CheckOk(r, 0) && CheckOk(r, 1);
    forall i | 2 <= i < |r| ensures CheckOk(r, i) {
      assert r[i].sub == i - 1;
    }
  }

  lemma SyncLocal(position: uint16, s: nat, sm: Sync)
    requires sm.Process() && SyncOk(sm)
    ensures var r := CompileSync(position, s, sm);
      Local(r) && AllOf(r, position, s) && HasCount(r, s, 0x1c10 + sm.index)
  {
    var head, tail := [CountCheck(position, s, sm)], CompilePdos(position, s, sm, |sm.pdos.Items()|);
    PdosLocal(position, s, sm, |sm.pdos.Items()|);
    assert CheckOk(head, 0);
    LocalConcat(head, tail);
    assert IsCount((head + tail)[0], s, 0x1c10 + sm.index);
  }

  lemma {:induction false} SyncsLocal(position: uint16, s: nat, syncs: seq<Sync>, n: nat)
    requires n <= |syncs|
    requires forall m | m in syncs :: m.Process() && SyncOk(m)
    ensures Local(CompileSyncs(position, s, syncs, n)) && AllOf(CompileSyncs(position, s, syncs, n), position, s)
  {
    if n > 0 {
      SyncsLocal(position, s, syncs, n - 1);
      SyncLocal(position, s, syncs[n - 1]);
      LocalConcat(CompileSyncs(position, s, syncs, n - 1), CompileSync(position, s, syncs[n - 1]));
    }
  }

  lemma {:induction false} SyncsCount(position: uint16, s: nat, syncs: seq<Sync>, n: nat, k: nat)
    requires k < n <= |syncs|
    requires forall m | m in syncs :: m.Process() && SyncOk(m)
    ensures HasCount(CompileSyncs(position, s, syncs, n), s, 0x1c10 + syncs[k].index)
  {
    if k < n - 1 {
      SyncsCount(position, s, syncs, n - 1, k);
    } else {
      SyncLocal(position, s, syncs[k]);
    }
    CountInConcat(CompileSyncs(position, s, syncs, n - 1), CompileSync(position, s, syncs[n - 1]),
                  s, 0x1c10 + syncs[k].index);
  }

  lemma SlaveBlock(slave: Slave, s: nat)
    requires SlaveOk(slave)
    ensures var r := CompileSlave(slave, s);
      Local(r) && AllOf(r, slave.position, s) &&
      HasCount(r, s, RX_ASSIGNMENT) && HasCount(r, s, TX_ASSIGNMENT)
  {
    var m := Managers(slave);
    SyncsLocal(slave.position, s, m, |m|);
    SyncsCount(slave.position, s, m, |m|, 0);
    SyncsCount(slave.position, s, m, |m|, 1);
    assert m[0] in m && m[1] in m && m[0].index != m[1].index;
  }

  lemma AppendBlock(a: seq<Check>, b: seq<Check>, position: uint16, s: nat)
    requires WellFormed(a) && forall c | c in a :: c.slave < s
    requires Local(b) && AllOf(b, position, s)
    requires HasCount(b, s, RX_ASSIGNMENT) && HasCount(b, s, TX_ASSIGNMENT)
    ensures WellFormed(a + b)
  {
    var r := a + b;
    LocalConcat(a, b);
    assert forall i | 0 <= i < |a| :: r[i] in a;
    assert forall i | |a| <= i < |r| :: r[i] in b;
    forall i | 0 <= i < |r|
      ensures HasCount(r, r[i].slave, RX_ASSIGNMENT) && HasCount(r, r[i].slave, TX_ASSIGNMENT)
    {
      CountInConcat(a, b, r[i].slave, RX_ASSIGNMENT);
      CountInConcat(a, b, r[i].slave, TX_ASSIGNMENT);
    }
  }

  /** What `prepare` builds has the block and group structure `configurePreop` walks over. */
  lemma {:induction false} CompileWellFormed(slaves: seq<Slave>, n: nat)
    requires n <= |slaves|
    requires forall k | 0 <= k < n :: SlaveOk(slaves[k])
    ensures WellFormed(Compile(slaves, n))
    ensures forall c | c in Compile(slaves, n) :: c.slave < n && c.position == slaves[c.slave].position
    ensures n > 0 ==> |Compile(slaves, n)| > 0
  {
    if n > 0 {
      CompileWellFormed(slaves, n - 1);
      SlaveBlock(slaves[n - 1], n - 1);
      AppendBlock(Compile(slaves, n - 1), CompileSlave(slaves[n - 1], n - 1), slaves[n - 1].position, n - 1);
    }
  }

  lemma CountInConcat(a: seq<Check>, b: seq<Check>, s: nat, index: uint16)
    requires HasCount(a, s, index) || HasCount(b, s, index)
    ensures HasCount(a + b, s, index)
  {
    if HasCount(a, s, index) {
      var i :| 0 <= i < |a| && IsCount(a[i], s, index);
      assert IsCount((a + b)[i], s, index);
    } else {
      var i :| 0 <= i < |b| && IsCount(b[i], s, index);
      assert IsCount((a + b)[|a| + i], s, index);
    }
  }

  // ---------- reading a configuration back from a device ----------

  /** The scalar stored at a key; zero when it is absent or wider than `size` bytes. */
  function Get(d: Dict, k: Key, size: nat): (v: nat)
    ensures v < Pow256(size)
  {
    if k in d && |d[k]| == size then (DecodeBound(d[k]); Decode(d[k])) else 0
  }

  /** The mapping a device reports for one PDO object. */
  function ReadPdo(d: Dict, position: uint16, index: uint16): seq<Entry> {
    Pow256Table();
    var n := Get(d, Key(position, index, 0), 1);
    seq(n, e requires 0 <= e < n => EntryOf(Get(d, Key(position, index, e + 1), 4)))
  }

  /** The PDOs, in order and with their mappings, that a device reports for one Sync Manager. */
  function ReadSync(d: Dict, position: uint16, sync: uint8): seq<(uint16, seq<Entry>)>
    requires sync == 2 || sync == 3
  {
    Pow256Table();
    var n := Get(d, Key(position, 0x1c10 + sync, 0), 1);
    seq(n, p requires 0 <= p < n =>
      var index: uint16 := Get(d, Key(position, 0x1c10 + sync, p + 1), 2);
      (index, ReadPdo(d, position, index)))
  }

  /** The expected bytes are stored under the key of the check. */
  predicate HasValue(d: Dict, c: Check) {
    KeyOf(c) in d && d[KeyOf(c)] == Wire(c)
  }

  predicate Holds(d: Dict, checks: seq<Check>) {
    forall c | c in checks :: HasValue(d, c)
  }

  lemma HeldValue(d: Dict, checks: seq<Check>, c: Check)
    requires c in checks && Holds(d, checks)
    requires c.expected < Pow256(c.size)
    ensures Get(d, KeyOf(c), c.size) == c.expected
  {
    DecodeEncode(c.expected, c.size);
  }

  lemma PdoReadBack(d: Dict, position: uint16, s: nat, sm: Sync, p: nat)
    requires sm.Process() && SyncOk(sm) && p < |sm.pdos.Items()|
    requires Holds(d, CompilePdo(position, s, sm, p))
    ensures Get(d, Key(position, 0x1c10 + sm.index, p + 1), 2) == sm.pdos.Items()[p].index
    ensures ReadPdo(d, position, sm.pdos.Items()[p].index) == sm.pdos.Items()[p].entries.Items()
  {
    var pdo := sm.pdos.Items()[p];
    assert PdoOk(pdo);
    var r := CompilePdo(position, s, sm, p);
    Pow256Table();
    HeldValue(d, r, r[0]);
    HeldValue(d, r, r[1]);
    var tail := CompileEntries(position, s, sm.index, pdo, |pdo.entries.Items()|);
    assert Holds(d, tail) by { assert forall c | c in tail :: c in r; }
    EntriesReadBack(d, position, s, sm.index, pdo);
  }

  lemma EntriesReadBack(d: Dict, position: uint16, s: nat, sync: uint8, pdo: Pdo)
    requires PdoOk(pdo) && Holds(d, CompileEntries(position, s, sync, pdo, |pdo.entries.Items()|))
    requires Get(d, Key(position, pdo.index, 0), 1) == |pdo.entries.Items()|
    ensures ReadPdo(d, position, pdo.index) == pdo.entries.Items()
  {
    var entries := pdo.entries.Items();
    var tail := CompileEntries(position, s, sync, pdo, |entries|);
    forall e | 0 <= e < |entries| ensures ReadPdo(d, position, pdo.index)[e] == entries[e] {
      EntryReadBack(d, tail, entries[e], tail[e]);
    }
  }

  lemma EntryReadBack(d: Dict, checks: seq<Check>, e: Entry, c: Check)
    requires Holds(d, checks) && c in checks && c.size == 4 && c.expected == EntryValue(e)
    ensures Pow256(4) == 0x1_0000_0000
    ensures EntryOf(Get(d, KeyOf(c), 4)) == e
  {
    Pow256Table();
    HeldValue(d, checks, c);
    EntryRoundTrip(e, 0);
  }

  lemma {:induction false} PdosReadBack(d: Dict, position: uint16, s: nat, sm: Sync, n: nat)
    requires sm.Process() && SyncOk(sm) && n <= |sm.pdos.Items()|
    requires Holds(d, CompilePdos(position, s, sm, n))
    ensures forall p | 0 <= p < n ::
      Get(d, Key(position, 0x1c10 + sm.index, p + 1), 2) == sm.pdos.Items()[p].index &&
      ReadPdo(d, position, sm.pdos.Items()[p].index) == sm.pdos.Items()[p].entries.Items()
  {
    hide CompilePdo, ReadPdo, SyncOk, PdoOk, Encode, Get;
    if n > 0 {
      PdosReadBack(d, position, s, sm, n - 1);
      PdoReadBack(d, position, s, sm, n - 1);
    }
  }

  function Shape(pdos: seq<Pdo>): seq<(uint16, seq<Entry>)> {
    seq(|pdos|, p requires 0 <= p < |pdos| => (pdos[p].index, pdos[p].entries.Items()))
  }

  lemma SyncReadBack(d: Dict, position: uint16, s: nat, sm: Sync)
    requires sm.Process() && SyncOk(sm)
    requires Holds(d, CompileSync(position, s, sm))
    ensures ReadSync(d, position, sm.index) == Shape(sm.pdos.Items())
  {
    var items := sm.pdos.Items();
    assert Get(d, Key(position, 0x1c10 + sm.index, 0), 1) == |items| by {
      Pow256Table();
      HeldValue(d, CompileSync(position, s, sm), CountCheck(position, s, sm));
    }
    PdosReadBack(d, position, s, sm, |items|);
    forall p | 0 <= p < |items| ensures ReadSync(d, position, sm.index)[p] == Shape(items)[p] {}
  }

  lemma {:induction false} SyncInSyncs(position: uint16, s: nat, syncs: seq<Sync>, n: nat, k: nat)
    requires k < n <= |syncs|
    requires forall m | m in syncs :: m.Process() && SyncOk(m)
    ensures forall c | c in CompileSync(position, s, syncs[k]) :: c in CompileSyncs(position, s, syncs, n)
  {
    if k < n - 1 {
      SyncInSyncs(position, s, syncs, n - 1, k);
    }
  }

  lemma {:induction false} SlaveInCompile(slaves: seq<Slave>, n: nat, s: nat)
    requires s < n <= |slaves|
    requires forall k | 0 <= k < n :: SlaveOk(slaves[k])
    ensures forall c | c in CompileSlave(slaves[s], s) :: c in Compile(slaves, n)
  {
    hide SlaveOk, CompileSlave;
    if s < n - 1 {
      SlaveInCompile(slaves, n - 1, s);
    }
  }

  /** The check list determines the device: a dictionary that holds it reports, for SM2 and SM3 of every
      slave, exactly the configured PDOs in order with exactly the configured mappings. */
  lemma DeviceReportsConfig(d: Dict, slaves: seq<Slave>, s: nat, k: nat)
    requires s < |slaves|
    requires forall x | 0 <= x < |slaves| :: SlaveOk(slaves[x])
    requires k < |Managers(slaves[s])|
    requires Holds(d, Compile(slaves, |slaves|))
    ensures var sm := Managers(slaves[s])[k];
      sm.Process() && ReadSync(d, slaves[s].position, sm.index) == Shape(sm.pdos.Items())
  {
    SlaveInCompile(slaves, |slaves|, s);
    var m := Managers(slaves[s]);
    assert m[k] in m;
    SyncInSyncs(slaves[s].position, s, m, |m|, k);
    SyncReadBack(d, slaves[s].position, s, m[k]);
  }

  // ---------- growing tables ----------

  lemma {:induction false} ProcessPrefix(syncs: seq<Sync>, i: nat, n: nat)
    requires i <= n <= |syncs|
    ensures ProcessSyncs(syncs, i) <= ProcessSyncs(syncs, n)
  {
    if i < n {
      ProcessPrefix(syncs, i, n - 1);
    }
  }

  lemma {:induction false} CompileSyncsPrefix(position: uint16, s: nat, a: seq<Sync>, b: seq<Sync>, n: nat)
    requires n <= |a| && a <= b && forall m | m in b :: m.Process() && SyncOk(m)
    ensures CompileSyncs(position, s, a, n) == CompileSyncs(position, s, b, n)
  {
    hide CompileSync, SyncOk;
    assert forall m | m in a :: m in b;
    if n > 0 {
      CompileSyncsPrefix(position, s, a, b, n - 1);
    }
  }

  ghost predicate SeenManager(done: seq<Sync>, index: nat) {
    exists k :: 0 <= k < |done| && done[k].index == index
  }

  lemma ManagerSnoc(done: seq<Sync>, sm: Sync)
    requires UniqueManagers(done)
    ensures UniqueManagers(done + [sm]) <==> !SeenManager(done, sm.index)
    ensures forall index: nat :: SeenManager(done + [sm], index) <==> SeenManager(done, index) || index == sm.index
  {
    var next := done + [sm];
    forall index: nat
      ensures SeenManager(next, index) <==> SeenManager(done, index) || index == sm.index
    {
      assert next[|done|] == sm;
      if k :| 0 <= k < |done| && done[k].index == index {
        assert next[k].index == index;
      }
    }
    if k :| 0 <= k < |done| && done[k].index == sm.index {
      assert next[k].index == next[|done|].index;
    }
  }

  lemma ManagersPrefix(a: seq<Sync>, b: seq<Sync>)
    requires a <= b && !UniqueManagers(a)
    ensures !UniqueManagers(b)
  {
  }

  /** Rows 0..i of a Sync Manager table: `done` are its SM2/SM3 rows, acceptable and without repetition. */
  ghost predicate Scanned(syncs: seq<Sync>, i: nat, done: seq<Sync>, seen2: bool, seen3: bool) {
    && i <= |syncs| && done == ProcessSyncs(syncs, i) && UniqueManagers(done)
    && (forall m | m in done :: SyncOk(m))
    && (seen2 <==> SeenManager(done, 2)) && (seen3 <==> SeenManager(done, 3))
    && |done| == (if seen2 then 1 else 0) + (if seen3 then 1 else 0)
  }

  lemma ScanBegins(position: uint16, s: nat, syncs: seq<Sync>)
    ensures Scanned(syncs, 0, [], false, false) && CompileSyncs(position, s, [], 0) == []
  {
  }

  lemma ScanSkips(syncs: seq<Sync>, i: nat, done: seq<Sync>, seen2: bool, seen3: bool)
    requires i < |syncs| && Scanned(syncs, i, done, seen2, seen3) && !syncs[i].Process()
    ensures Scanned(syncs, i + 1, done, seen2, seen3)
  {
    hide SyncOk, UniqueManagers, SeenManager;
  }

  lemma ScanRepeats(syncs: seq<Sync>, i: nat, done: seq<Sync>, seen2: bool, seen3: bool)
    requires i < |syncs| && Scanned(syncs, i, done, seen2, seen3) && syncs[i].Process()
    requires (syncs[i].index == 2 && seen2) || (syncs[i].index == 3 && seen3)
    ensures !UniqueManagers(ProcessSyncs(syncs, |syncs|))
  {
    hide SyncOk, UniqueManagers;
    ManagerSnoc(done, syncs[i]);
    ProcessPrefix(syncs, i + 1, |syncs|);
    ManagersPrefix(done + [syncs[i]], ProcessSyncs(syncs, |syncs|));
  }

  lemma ScanRejects(syncs: seq<Sync>, i: nat, done: seq<Sync>, seen2: bool, seen3: bool)
    requires i < |syncs| && Scanned(syncs, i, done, seen2, seen3) && syncs[i].Process()
    ensures syncs[i] in ProcessSyncs(syncs, |syncs|)
  {
    hide SyncOk, UniqueManagers, SeenManager;
    ProcessPrefix(syncs, i + 1, |syncs|);
    assert ProcessSyncs(syncs, |syncs|)[|done|] == syncs[i];
  }

  lemma ScanTakes(syncs: seq<Sync>, i: nat, done: seq<Sync>, seen2: bool, seen3: bool)
    requires i < |syncs| && Scanned(syncs, i, done, seen2, seen3) && syncs[i].Process() && SyncOk(syncs[i])
    requires !(syncs[i].index == 2 && seen2) && !(syncs[i].index == 3 && seen3)
    ensures Scanned(syncs, i + 1, done + [syncs[i]], seen2 || syncs[i].index == 2, seen3 || syncs[i].index == 3)
  {
    hide SyncOk, UniqueManagers, SeenManager;
    ManagerSnoc(done, syncs[i]);
  }

  lemma ScanEnds(syncs: seq<Sync>, done: seq<Sync>, seen2: bool, seen3: bool)
    requires Scanned(syncs, |syncs|, done, seen2, seen3)
    ensures done == ProcessSyncs(syncs, |syncs|) && UniqueManagers(done) && forall m | m in done :: SyncOk(m)
    ensures |done| == 2 <==> seen2 && seen3
  {
  }

  lemma PdosNone(position: uint16, s: nat, sm: Sync)
    requires sm.Process() && |sm.pdos.Items()| <= 255
    ensures CompilePdos(position, s, sm, 0) == []
  {
  }

  lemma PdosNext(position: uint16, s: nat, sm: Sync, p: nat)
    requires sm.Process() && p < |sm.pdos.Items()| <= 255
    requires forall i | 0 <= i < p + 1 :: PdoOk(sm.pdos.Items()[i])
    ensures CompilePdos(position, s, sm, p + 1) == CompilePdos(position, s, sm, p) + CompilePdo(position, s, sm, p)
  {
    hide CompilePdo;
  }

  /** The assignment object of a process data manager, and its count. */
  lemma ManagerIndex(sm: Sync)
    requires sm.Process()
    ensures sm.index == 2 || sm.index == 3
    ensures |sm.pdos.Items()| <= 255 ==> forall position, s ::
      CountCheck(position, s, sm) == Check(position, sm.index, 0x1c10 + sm.index, 0, 1, |sm.pdos.Items()|, AssignmentCount, s)
  {
  }

  lemma PdoOkMeans(pdo: Pdo)
    ensures PdoOk(pdo) <==> (pdo.entries.Missing? ==> pdo.entries.claimed == 0) && |pdo.entries.Items()| <= 255
  {
  }

  lemma SyncOkMeans(sm: Sync)
    ensures SyncOk(sm) <==>
      (sm.pdos.Missing? ==> sm.pdos.claimed == 0) && |sm.pdos.Items()| <= 255 && forall i | 0 <= i < |sm.pdos.Items()| :: PdoOk(sm.pdos.Items()[i])
  {
    hide PdoOk;
    assert forall i | 0 <= i < |sm.pdos.Items()| :: sm.pdos.Items()[i] in sm.pdos.Items();
  }

  lemma MappingWord(e: Entry)
    ensures EntryValue(e) == e.index * 0x1_0000 + e.sub * 0x100 + e.bits
  {
  }

  lemma EntriesNone(position: uint16, s: nat, sync: uint8, pdo: Pdo)
    requires PdoOk(pdo)
    ensures CompileEntries(position, s, sync, pdo, 0) == []
  {
  }

  lemma EntriesNext(position: uint16, s: nat, sync: uint8, pdo: Pdo, e: nat)
    requires PdoOk(pdo) && e < |pdo.entries.Items()|
    ensures CompileEntries(position, s, sync, pdo, e + 1) ==
            CompileEntries(position, s, sync, pdo, e) +
            [Check(position, sync, pdo.index, e + 1, 4, EntryValue(pdo.entries.Items()[e]), MappingEntry, s)]
  {
    hide EntryValue;
  }

  lemma PdoWhole(position: uint16, s: nat, sm: Sync, p: nat)
    requires sm.Process() && p < |sm.pdos.Items()| <= 255 && PdoOk(sm.pdos.Items()[p])
    ensures var pdo := sm.pdos.Items()[p];
      CompilePdo(position, s, sm, p) ==
      [Check(position, sm.index, 0x1c10 + sm.index, p + 1, 2, pdo.index, Assignment, s),
       Check(position, sm.index, pdo.index, 0, 1, |pdo.entries.Items()|, MappingCount, s)] +
      CompileEntries(position, s, sm.index, pdo, |pdo.entries.Items()|)
  {
  }

  lemma SyncWhole(position: uint16, s: nat, sm: Sync)
    requires sm.Process() && SyncOk(sm)
    ensures CompileSync(position, s, sm) ==
            [CountCheck(position, s, sm)] + CompilePdos(position, s, sm, |sm.pdos.Items()|)
  {
  }

  lemma SyncsNext(position: uint16, s: nat, syncs: seq<Sync>, n: nat)
    requires n < |syncs| && forall m | m in syncs :: m.Process() && SyncOk(m)
    ensures CompileSyncs(position, s, syncs, n + 1) ==
            CompileSyncs(position, s, syncs, n) + CompileSync(position, s, syncs[n])
  {
    hide CompileSync, SyncOk;
  }

  lemma CompileSyncsSnoc(position: uint16, s: nat, done: seq<Sync>, sm: Sync)
    requires sm.Process() && SyncOk(sm) && forall m | m in done :: m.Process() && SyncOk(m)
    ensures CompileSyncs(position, s, done + [sm], |done| + 1) ==
            CompileSyncs(position, s, done, |done|) + CompileSync(position, s, sm)
  {
    hide *;
    CompileSyncsPrefix(position, s, done, done + [sm], |done|);
    SyncsNext(position, s, done + [sm], |done|);
  }

  lemma CompileNone(slaves: seq<Slave>)
    ensures Compile(slaves, 0) == [] && Inits(slaves, 0) == []
  {
  }

  lemma CompileNext(slaves: seq<Slave>, n: nat)
    requires n < |slaves| && forall k | 0 <= k < n + 1 :: SlaveOk(slaves[k])
    ensures Compile(slaves, n + 1) == Compile(slaves, n) + CompileSlave(slaves[n], n)
    ensures Inits(slaves, n + 1) == Inits(slaves, n) + SlaveInits(slaves[n])
  {
    hide SlaveOk, CompileSlave, SlaveInits;
  }
}
