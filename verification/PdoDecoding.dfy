/** The flat check list, read as a configuration again. */
module PdoDecoding {
  import opened Bytes
  import opened PdoConfig

  predicate About(c: Check, s: nat, sync: uint8) {
    c.slave == s && c.sync == sync
  }

  /** The PDOs and mappings that a check list asks for in one Sync Manager of slave s: an assignment check names
      the next PDO, each mapping entry after it adds to that PDO. */
  function AskedPdos(checks: seq<Check>, s: nat, sync: uint8): seq<(uint16, seq<Entry>)> {
    if checks == [] then []
    else WithCheck(AskedPdos(checks[..|checks| - 1], s, sync), checks[|checks| - 1], s, sync)
  }

  function WithCheck(pdos: seq<(uint16, seq<Entry>)>, c: Check, s: nat, sync: uint8): seq<(uint16, seq<Entry>)> {
    if About(c, s, sync) && c.field.Assignment? then pdos + [(c.expected % 0x1_0000, [])]
    else if About(c, s, sync) && c.field.MappingEntry? && pdos != [] then WithEntry(pdos, EntryOf(c.expected))
    else pdos
  }

  function WithEntry(pdos: seq<(uint16, seq<Entry>)>, e: Entry): seq<(uint16, seq<Entry>)>
    requires pdos != []
  {
    var last := pdos[|pdos| - 1];
    pdos[..|pdos| - 1] + [(last.0, last.1 + [e])]
  }

  /** The Sync Managers of slave s, in the order of their assignment counts. */
  function AskedManagers(checks: seq<Check>, s: nat): seq<uint8> {
    if checks == [] then []
    else
      var c := checks[|checks| - 1];
      AskedManagers(checks[..|checks| - 1], s) + if c.slave == s && c.field.AssignmentCount? then [c.sync] else []
  }

  lemma PdosSnoc(checks: seq<Check>, c: Check, s: nat, sync: uint8)
    ensures AskedPdos(checks + [c], s, sync) == WithCheck(AskedPdos(checks, s, sync), c, s, sync)
  {
    assert (checks + [c])[..|checks|] == checks;
  }

  lemma {:induction false} PdosElsewhere(a: seq<Check>, b: seq<Check>, s: nat, sync: uint8)
    requires forall c | c in b :: !About(c, s, sync)
    ensures AskedPdos(a + b, s, sync) == AskedPdos(a, s, sync)
  {
    if b == [] {
      assert a + b == a;
    } else {
      var n := |b| - 1;
      assert a + b == (a + b[..n]) + [b[n]];
      PdosElsewhere(a, b[..n], s, sync);
      PdosSnoc(a + b[..n], b[n], s, sync);
    }
  }

  lemma {:induction false} PdosOnlyLater(a: seq<Check>, b: seq<Check>, s: nat, sync: uint8)
    requires forall c | c in a :: !About(c, s, sync)
    ensures AskedPdos(a + b, s, sync) == AskedPdos(b, s, sync)
  {
    if b == [] {
      assert a + b == b + a;
      PdosElsewhere(b, a, s, sync);
    } else {
      var n := |b| - 1;
      assert a + b == (a + b[..n]) + [b[n]];
      PdosOnlyLater(a, b[..n], s, sync);
      PdosSnoc(a + b[..n], b[n], s, sync);
    }
  }

  lemma {:induction false} ManagersConcat(a: seq<Check>, b: seq<Check>, s: nat)
    ensures AskedManagers(a + b, s) == AskedManagers(a, s) + AskedManagers(b, s)
  {
    if b == [] {
      assert a + b == a;
    } else {
      var n := |b| - 1;
      assert (a + b)[..|a + b| - 1] == a + b[..n];
      ManagersConcat(a, b[..n], s);
    }
  }

  lemma {:induction false} ManagersNone(checks: seq<Check>, s: nat)
    requires forall c | c in checks :: c.slave != s || !c.field.AssignmentCount?
    ensures AskedManagers(checks, s) == []
  {
    if checks != [] {
      ManagersNone(checks[..|checks| - 1], s);
    }
  }

  // ---------- one Sync Manager ----------

  lemma {:induction false} EntriesAsked(before: seq<Check>, position: uint16, s: nat, sync: uint8, pdo: Pdo, n: nat,
                                        pdos: seq<(uint16, seq<Entry>)>)
    requires PdoOk(pdo) && n <= |pdo.entries.Items()| && AskedPdos(before, s, sync) == pdos + [(pdo.index, [])]
    ensures AskedPdos(before + CompileEntries(position, s, sync, pdo, n), s, sync) ==
            pdos + [(pdo.index, pdo.entries.Items()[..n])]
  {
    hide EntryValue, EntryOf, AskedPdos;
    var entries := pdo.entries.Items();
    if n == 0 {
      assert before + CompileEntries(position, s, sync, pdo, 0) == before && entries[..0] == [];
    } else {
      EntriesAsked(before, position, s, sync, pdo, n - 1, pdos);
      var shorter := before + CompileEntries(position, s, sync, pdo, n - 1);
      var c := CompileEntries(position, s, sync, pdo, n)[n - 1];
      assert before + CompileEntries(position, s, sync, pdo, n) == shorter + [c];
      PdosSnoc(shorter, c, s, sync);
      EntryRoundTrip(entries[n - 1], 0);
      assert entries[..n] == entries[..n - 1] + [entries[n - 1]];
      assert (pdos + [(pdo.index, entries[..n - 1])])[..|pdos|] == pdos;
    }
  }

  lemma PdoAsked(before: seq<Check>, position: uint16, s: nat, sm: Sync, p: nat)
    requires sm.Process() && SyncOk(sm) && p < |sm.pdos.Items()|
    ensures AskedPdos(before + CompilePdo(position, s, sm, p), s, sm.index) ==
            AskedPdos(before, s, sm.index) + [(sm.pdos.Items()[p].index, sm.pdos.Items()[p].entries.Items())]
  {
    var pdo, pdos := sm.pdos.Items()[p], AskedPdos(before, s, sm.index);
    assert PdoOk(pdo);
    hide AskedPdos, SyncOk, PdoOk, CompileEntries, EntryValue;
    var entries := pdo.entries.Items();
    var first := Check(position, sm.index, 0x1c10 + sm.index, p + 1, 2, pdo.index, Assignment, s);
    var second := Check(position, sm.index, pdo.index, 0, 1, |entries|, MappingCount, s);
    var tail := CompileEntries(position, s, sm.index, pdo, |entries|);
    PdoWhole(position, s, sm, p);
    PrefixTwo(before, first, second, tail);
    PdosSnoc(before, first, s, sm.index);
    PdosSnoc(before + [first], second, s, sm.index);
    EntriesAsked(before + [first] + [second], position, s, sm.index, pdo, |entries|, pdos);
    assert entries[..|entries|] == entries;
  }

  lemma PrefixTwo(before: seq<Check>, first: Check, second: Check, tail: seq<Check>)
    ensures before + ([first, second] + tail) == before + [first] + [second] + tail
  {
  }

  lemma {:induction false} PdosAsked(before: seq<Check>, position: uint16, s: nat, sm: Sync, n: nat)
    requires sm.Process() && SyncOk(sm) && n <= |sm.pdos.Items()|
    ensures AskedPdos(before + CompilePdos(position, s, sm, n), s, sm.index) ==
            AskedPdos(before, s, sm.index) + Shape(sm.pdos.Items()[..n])
  {
    hide SyncOk, PdoOk, AskedPdos, CompilePdo;
    SyncOkMeans(sm);
    var items := sm.pdos.Items();
    if n == 0 {
      assert before + CompilePdos(position, s, sm, 0) == before;
    } else {
      PdosAsked(before, position, s, sm, n - 1);
      var shorter := before + CompilePdos(position, s, sm, n - 1);
      PdoAsked(shorter, position, s, sm, n - 1);
      assert before + CompilePdos(position, s, sm, n) == shorter + CompilePdo(position, s, sm, n - 1);
      assert Shape(items[..n]) == Shape(items[..n - 1]) + [(items[n - 1].index, items[n - 1].entries.Items())];
    }
  }

  lemma CountAsked(head: seq<Check>, position: uint16, s: nat, sm: Sync)
    requires sm.Process() && |sm.pdos.Items()| <= 255 && head == [CountCheck(position, s, sm)]
    ensures AskedPdos(head, s, sm.index) == [] && AskedManagers(head, s) == [sm.index] && head[0].sync == sm.index
  {
    assert head[..0] == [];
  }

  lemma SyncAsked(position: uint16, s: nat, sm: Sync)
    requires sm.Process() && SyncOk(sm)
    ensures AskedPdos(CompileSync(position, s, sm), s, sm.index) == Shape(sm.pdos.Items())
    ensures AskedManagers(CompileSync(position, s, sm), s) == [sm.index]
    ensures forall c | c in CompileSync(position, s, sm) :: c.sync == sm.index
  {
    hide AskedPdos, AskedManagers, CompilePdos, CountCheck, Shape, PdoOk;
    var head, items := [CountCheck(position, s, sm)], sm.pdos.Items();
    var tail := CompilePdos(position, s, sm, |items|);
    CountAsked(head, position, s, sm);
    PdosAsked(head, position, s, sm, |items|);
    assert items[..|items|] == items;
    PdosSync(position, s, sm, |items|);
    ManagersNone(tail, s);
    ManagersConcat(head, tail, s);
  }

  lemma {:induction false} PdosSync(position: uint16, s: nat, sm: Sync, n: nat)
    requires sm.Process() && SyncOk(sm) && n <= |sm.pdos.Items()|
    ensures forall c | c in CompilePdos(position, s, sm, n) :: c.sync == sm.index && !c.field.AssignmentCount?
  {
    if n > 0 {
      PdosSync(position, s, sm, n - 1);
    }
  }

  // ---------- whole lists ----------

  lemma TwoSyncsAsked(position: uint16, s: nat, x: Sync, y: Sync)
    requires x.Process() && SyncOk(x) && y.Process() && SyncOk(y) && x.index != y.index
    ensures var block := CompileSync(position, s, x) + CompileSync(position, s, y);
      && AskedManagers(block, s) == [x.index, y.index]
      && AskedPdos(block, s, x.index) == Shape(x.pdos.Items()) && AskedPdos(block, s, y.index) == Shape(y.pdos.Items())
  {
    hide AskedPdos, AskedManagers, CompileSync, SyncOk, Shape;
    SyncAsked(position, s, x);
    SyncAsked(position, s, y);
    var a, b := CompileSync(position, s, x), CompileSync(position, s, y);
    ManagersConcat(a, b, s);
    PdosElsewhere(a, b, s, x.index);
    PdosOnlyLater(a, b, s, y.index);
  }

  lemma SlaveOkMeans(slave: Slave, s: nat)
    requires SlaveOk(slave)
    ensures var m := Managers(slave);
      && |m| == 2 && (forall k | 0 <= k < 2 :: m[k].Process() && SyncOk(m[k])) && m[0].index != m[1].index
      && CompileSlave(slave, s) == CompileSync(slave.position, s, m[0]) + CompileSync(slave.position, s, m[1])
  {
    hide CompileSync, SyncOk;
    var m := Managers(slave);
    assert m[0] in m && m[1] in m;
    assert CompileSyncs(slave.position, s, m, 1) == CompileSync(slave.position, s, m[0]);
  }

  /** The list says this about slave s: its position, its process data managers in table order, and for each of
      them the PDOs in order with their mappings. */
  ghost predicate Says(checks: seq<Check>, s: nat, slave: Slave) {
    var m := Managers(slave);
    && |m| == 2 && (exists c :: c in checks && c.slave == s)
    && (forall c | c in checks && c.slave == s :: c.position == slave.position)
    && AskedManagers(checks, s) == [m[0].index, m[1].index]
    && AskedPdos(checks, s, m[0].index) == Shape(m[0].pdos.Items())
    && AskedPdos(checks, s, m[1].index) == Shape(m[1].pdos.Items())
  }

  lemma BlockSays(slave: Slave, s: nat)
    requires SlaveOk(slave)
    ensures Says(CompileSlave(slave, s), s, slave) && forall c | c in CompileSlave(slave, s) :: c.slave == s
  {
    hide AskedPdos, AskedManagers, CompileSlave, CompileSync, SlaveOk, SyncOk, Shape, HasCount, Local, Managers;
    SlaveOkMeans(slave, s);
    SlaveBlock(slave, s);
    var m := Managers(slave);
    TwoSyncsAsked(slave.position, s, m[0], m[1]);
    assert CompileSlave(slave, s)[0] in CompileSlave(slave, s) by { SyncNotEmpty(slave.position, s, m[0]); }
  }

  lemma SyncNotEmpty(position: uint16, s: nat, sm: Sync)
    requires sm.Process() && SyncOk(sm)
    ensures CompileSync(position, s, sm) != []
  {
  }

  lemma SaysWithin(a: seq<Check>, b: seq<Check>, c: seq<Check>, s: nat, slave: Slave)
    requires Says(b, s, slave) && (forall x | x in a :: x.slave != s) && forall x | x in c :: x.slave != s
    ensures Says(a + b + c, s, slave)
  {
    hide AskedPdos, AskedManagers, Shape, Managers;
    var m := Managers(slave);
    ManagersNone(a, s);
    ManagersNone(c, s);
    ManagersConcat(a, b, s);
    ManagersConcat(a + b, c, s);
    PdosOnlyLater(a, b, s, m[0].index);
    PdosOnlyLater(a, b, s, m[1].index);
    PdosElsewhere(a + b, c, s, m[0].index);
    PdosElsewhere(a + b, c, s, m[1].index);
    var x :| x in b && x.slave == s;
    assert x in a + b + c;
  }

  /** Reading the compiled list gives the configuration of each slave back; repeated PDO indices and repeated
      positions included. */
  lemma {:induction false} CheckListDecodes(slaves: seq<Slave>, n: nat, s: nat)
    requires n <= |slaves| && (forall x | 0 <= x < n :: SlaveOk(slaves[x])) && s < n
    ensures Says(Compile(slaves, n), s, slaves[s])
  {
    hide CompileSlave, SlaveOk, WellFormed, Says;
    var before, block := Compile(slaves, n - 1), CompileSlave(slaves[n - 1], n - 1);
    BlockSays(slaves[n - 1], n - 1);
    CompileWellFormed(slaves, n - 1);
    assert [] + before + block == before + block && before + block + [] == before + block;
    if s < n - 1 {
      CheckListDecodes(slaves, n - 1, s);
      SaysWithin([], before, block, s, slaves[s]);
    } else {
      SaysWithin(before, block, [], s, slaves[s]);
    }
  }

  /** Two acceptable configurations with the same check list have as many slaves, at the same positions, and for
      every process data manager of every slave the same index, the same PDOs in the same order and the same
      mappings. */
  lemma ChecksDetermineConfig(a: seq<Slave>, b: seq<Slave>)
    requires (forall x | x in a :: SlaveOk(x)) && (forall x | x in b :: SlaveOk(x))
    requires Compile(a, |a|) == Compile(b, |b|)
    ensures |a| == |b|
    ensures forall s | 0 <= s < |a| :: SameSlave(a[s], b[s])
  {
    hide SlaveOk, Compile, SameSlave, Says, WellFormed;
    NotFewerSlaves(a, b);
    NotFewerSlaves(b, a);
    forall s | 0 <= s < |a| ensures SameSlave(a[s], b[s]) {
      CheckListDecodes(a, |a|, s);
      CheckListDecodes(b, |b|, s);
      SaysOnce(Compile(a, |a|), s, a[s], b[s]);
    }
  }

  predicate SameSlave(x: Slave, y: Slave) {
    var m, n := Managers(x), Managers(y);
    && x.position == y.position && |m| == |n| == 2
    && forall k | 0 <= k < 2 :: m[k].index == n[k].index && Shape(m[k].pdos.Items()) == Shape(n[k].pdos.Items())
  }

  lemma SaysOnce(checks: seq<Check>, s: nat, x: Slave, y: Slave)
    requires Says(checks, s, x) && Says(checks, s, y)
    ensures SameSlave(x, y)
  {
    hide AskedPdos, AskedManagers, Shape, Managers;
    var m, n := Managers(x), Managers(y);
    assert [m[0].index, m[1].index][0] == [n[0].index, n[1].index][0];
    assert [m[0].index, m[1].index][1] == [n[0].index, n[1].index][1];
  }

  lemma NotFewerSlaves(a: seq<Slave>, b: seq<Slave>)
    requires (forall x | x in a :: SlaveOk(x)) && (forall x | x in b :: SlaveOk(x))
    requires Compile(a, |a|) == Compile(b, |b|)
    ensures |a| <= |b|
  {
    hide SlaveOk, Compile, WellFormed, Says;
    if |a| > 0 {
      CheckListDecodes(a, |a|, |a| - 1);
      CompileWellFormed(b, |b|);
      HasCheck(Compile(a, |a|), |a| - 1, a[|a| - 1]);
    }
  }

  lemma HasCheck(checks: seq<Check>, s: nat, slave: Slave)
    requires Says(checks, s, slave)
    ensures exists c :: c in checks && c.slave == s
  {
    hide AskedPdos, AskedManagers, Shape, Managers;
  }
}
