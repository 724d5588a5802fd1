/** When a configuration addresses every object of a slave only once. */
module ConfigKeys {
  import opened Bytes
  import opened PdoConfig
  import opened Protocol

  /** PDO p of the manager, and whatever else the slave maps, are different objects and none is an assignment. */
  ghost predicate DistinctPdos(pdos: seq<Pdo>) {
    && (forall p, q | 0 <= p < q < |pdos| :: pdos[p].index != pdos[q].index)
    && (forall p | 0 <= p < |pdos| :: pdos[p].index != RX_ASSIGNMENT && pdos[p].index != TX_ASSIGNMENT)
  }

  function AllPdos(syncs: seq<Sync>): seq<Pdo> {
    if syncs == [] then [] else AllPdos(syncs[..|syncs| - 1]) + syncs[|syncs| - 1].pdos.Items()
  }

  ghost predicate DistinctObjects(slave: Slave) {
    DistinctPdos(AllPdos(Managers(slave)))
  }

  ghost predicate Unique(checks: seq<Check>) {
    forall i, j | 0 <= i < j < |checks| :: KeyOf(checks[i]) != KeyOf(checks[j])
  }

  ghost predicate Apart(a: seq<Check>, b: seq<Check>) {
    forall x, y | x in a && y in b :: KeyOf(x) != KeyOf(y)
  }

  lemma UniqueConcat(a: seq<Check>, b: seq<Check>)
    requires Unique(a) && Unique(b) && Apart(a, b)
    ensures Unique(a + b)
  {
    forall i, j | 0 <= i < j < |a + b| ensures KeyOf((a + b)[i]) != KeyOf((a + b)[j]) {
      if i < |a| <= j {
        assert a[i] in a && b[j - |a|] in b;
      }
    }
  }

  /** The objects a list of PDOs of one manager may address. */
  ghost predicate OfManager(c: Check, sm: Sync, n: nat)
    requires n <= |sm.pdos.Items()|
  {
    || (c.index == 0x1c10 + sm.index && 0 < c.sub <= n)
    || OfPdo(c, sm.pdos.Items(), n)
  }

  ghost predicate OfPdo(c: Check, pdos: seq<Pdo>, n: nat)
    requires n <= |pdos|
  {
    exists p :: 0 <= p < n && c.index == pdos[p].index
  }

  lemma PdoKeys(position: uint16, s: nat, sm: Sync, p: nat)
    requires sm.Process() && p < |sm.pdos.Items()| <= 255 && PdoOk(sm.pdos.Items()[p])
    requires DistinctPdos(sm.pdos.Items())
    ensures var r := CompilePdo(position, s, sm, p);
      && Unique(r) && (forall c | c in r :: OfManager(c, sm, p + 1))
      && forall c | c in r :: (c.index == 0x1c10 + sm.index && c.sub == p + 1) || c.index == sm.pdos.Items()[p].index
  {
    var pdo := sm.pdos.Items()[p];
    var tail := CompileEntries(position, s, sm.index, pdo, |pdo.entries.Items()|);
    var head := [Check(position, sm.index, 0x1c10 + sm.index, p + 1, 2, pdo.index, Assignment, s),
                 Check(position, sm.index, pdo.index, 0, 1, |pdo.entries.Items()|, MappingCount, s)];
    assert CompilePdo(position, s, sm, p) == head + tail;
    UniqueConcat(head, tail);
  }

  lemma {:induction false} PdosKeys(position: uint16, s: nat, sm: Sync, n: nat)
    requires sm.Process() && SyncOk(sm) && n <= |sm.pdos.Items()| && DistinctPdos(sm.pdos.Items())
    ensures var r := CompilePdos(position, s, sm, n);
      Unique(r) && forall c | c in r :: OfManager(c, sm, n)
  {
    hide CompilePdo, CompilePdos, SyncOk, PdoOk, Unique, OfManager, DistinctPdos;
    PdosAreOk(sm);
    NothingUnique();
    PdosNone(position, s, sm);
    if n > 0 {
      PdosKeys(position, s, sm, n - 1);
      PdoKeys(position, s, sm, n - 1);
      PdosNext(position, s, sm, n - 1);
      PdosKeysStep(CompilePdos(position, s, sm, n - 1), CompilePdo(position, s, sm, n - 1), sm, n);
    }
  }

  lemma PdosAreOk(sm: Sync)
    requires SyncOk(sm)
    ensures |sm.pdos.Items()| <= 255 && forall i | 0 <= i < |sm.pdos.Items()| :: PdoOk(sm.pdos.Items()[i])
  {
    assert forall i | 0 <= i < |sm.pdos.Items()| :: sm.pdos.Items()[i] in sm.pdos.Items();
  }

  lemma NothingUnique()
    ensures Unique([])
  {
  }

  lemma PdosKeysStep(a: seq<Check>, b: seq<Check>, sm: Sync, n: nat)
    requires sm.Process() && 0 < n <= |sm.pdos.Items()| <= 255 && DistinctPdos(sm.pdos.Items())
    requires Unique(a) && (forall c | c in a :: OfManager(c, sm, n - 1))
    requires Unique(b) && (forall c | c in b :: OfManager(c, sm, n))
    requires forall c | c in b :: (c.index == 0x1c10 + sm.index && c.sub == n) || c.index == sm.pdos.Items()[n - 1].index
    ensures Unique(a + b) && forall c | c in a + b :: OfManager(c, sm, n)
  {
    hide Unique, OfManager, DistinctPdos;
    forall x: Check, y: Check | x in a && y in b ensures KeyOf(x) != KeyOf(y) {
      EarlierPdo(x, y, sm, n);
    }
    UniqueConcat(a, b);
    forall c: Check | c in a ensures OfManager(c, sm, n) {
      ManagerGrows(c, sm, n - 1);
    }
  }

  lemma EarlierPdo(x: Check, y: Check, sm: Sync, n: nat)
    requires sm.Process() && 0 < n <= |sm.pdos.Items()| <= 255 && DistinctPdos(sm.pdos.Items()) && OfManager(x, sm, n - 1)
    requires (y.index == 0x1c10 + sm.index && y.sub == n) || y.index == sm.pdos.Items()[n - 1].index
    ensures KeyOf(x) != KeyOf(y)
  {
  }

  lemma ManagerGrows(c: Check, sm: Sync, n: nat)
    requires n < |sm.pdos.Items()| && OfManager(c, sm, n)
    ensures OfManager(c, sm, n + 1)
  {
    if OfPdo(c, sm.pdos.Items(), n) {
      var p :| 0 <= p < n && c.index == sm.pdos.Items()[p].index;
      assert OfPdo(c, sm.pdos.Items(), n + 1);
    }
  }

  lemma SyncKeys(position: uint16, s: nat, sm: Sync)
    requires sm.Process() && SyncOk(sm) && DistinctPdos(sm.pdos.Items())
    ensures var r := CompileSync(position, s, sm);
      Unique(r) && forall c | c in r :: c.index == 0x1c10 + sm.index || OfPdo(c, sm.pdos.Items(), |sm.pdos.Items()|)
  {
    var n := |sm.pdos.Items()|;
    PdosKeys(position, s, sm, n);
    hide CompilePdos, SyncOk, OfPdo;
    var head, tail := [CountCheck(position, s, sm)], CompilePdos(position, s, sm, n);
    forall x: Check, y: Check | x in head && y in tail ensures KeyOf(x) != KeyOf(y) {
      assert OfManager(y, sm, n);
      if y.index == 0x1c10 + sm.index {
        NotAnAssignment(y, sm.pdos.Items());
      }
    }
    UniqueConcat(head, tail);
    forall c: Check | c in head + tail ensures c.index == 0x1c10 + sm.index || OfPdo(c, sm.pdos.Items(), n) {
      assert c in head || OfManager(c, sm, n);
    }
  }

  lemma NotAnAssignment(c: Check, pdos: seq<Pdo>)
    requires DistinctPdos(pdos) && (c.index == RX_ASSIGNMENT || c.index == TX_ASSIGNMENT)
    ensures !OfPdo(c, pdos, |pdos|)
  {
  }

  lemma SplitPdos(a: seq<Pdo>, b: seq<Pdo>)
    requires DistinctPdos(a + b)
    ensures DistinctPdos(a) && DistinctPdos(b)
    ensures forall p, q | 0 <= p < |a| && 0 <= q < |b| :: a[p].index != b[q].index
  {
    forall p, q | 0 <= p < |a| && 0 <= q < |b| ensures a[p].index != b[q].index {
      assert (a + b)[p] == a[p] && (a + b)[|a| + q] == b[q];
    }
    forall p, q | 0 <= p < q < |b| ensures b[p].index != b[q].index {
      assert (a + b)[|a| + p] == b[p] && (a + b)[|a| + q] == b[q];
    }
    forall p | 0 <= p < |a| ensures a[p].index != RX_ASSIGNMENT && a[p].index != TX_ASSIGNMENT {
      assert (a + b)[p] == a[p];
    }
    forall p | 0 <= p < |b| ensures b[p].index != RX_ASSIGNMENT && b[p].index != TX_ASSIGNMENT {
      assert (a + b)[|a| + p] == b[p];
    }
    forall p, q | 0 <= p < q < |a| ensures a[p].index != a[q].index {
      assert (a + b)[p] == a[p] && (a + b)[q] == a[q];
    }
  }

  /** The check list of one slave with distinct PDO indices has distinct keys. */
  lemma SlaveKeys(slave: Slave, s: nat)
    requires SlaveOk(slave) && DistinctObjects(slave)
    ensures Unique(CompileSlave(slave, s))
  {
    var m := Managers(slave);
    var a, b := m[0], m[1];
    assert a in m && b in m;
    var pa, pb := a.pdos.Items(), b.pdos.Items();
    TwoManagers(m);
    SplitPdos(pa, pb);
    SyncKeys(slave.position, s, a);
    SyncKeys(slave.position, s, b);
    var x, y := CompileSync(slave.position, s, a), CompileSync(slave.position, s, b);
    CompileTwo(slave.position, s, m);
    hide CompileSync, SlaveOk, SyncOk, OfPdo, DistinctPdos;
    forall c: Check, e: Check | c in x && e in y ensures KeyOf(c) != KeyOf(e) {
      if c.index == e.index {
        DifferentObjects(c, e, a, b);
      }
    }
    UniqueConcat(x, y);
  }

  lemma DifferentObjects(c: Check, e: Check, a: Sync, b: Sync)
    requires a.Process() && b.Process() && a.index != b.index
    requires DistinctPdos(a.pdos.Items()) && DistinctPdos(b.pdos.Items())
    requires forall p, q | 0 <= p < |a.pdos.Items()| && 0 <= q < |b.pdos.Items()| ::
      a.pdos.Items()[p].index != b.pdos.Items()[q].index
    requires c.index == 0x1c10 + a.index || OfPdo(c, a.pdos.Items(), |a.pdos.Items()|)
    requires e.index == 0x1c10 + b.index || OfPdo(e, b.pdos.Items(), |b.pdos.Items()|)
    ensures c.index != e.index
  {
  }

  lemma TwoManagers(m: seq<Sync>)
    requires |m| == 2
    ensures AllPdos(m) == m[0].pdos.Items() + m[1].pdos.Items()
  {
    assert m[..1] == [m[0]] && m[..1][..0] == [];
    assert AllPdos(m[..1]) == AllPdos(m[..1][..0]) + m[0].pdos.Items();
  }

  lemma CompileTwo(position: uint16, s: nat, m: seq<Sync>)
    requires |m| == 2 && forall x | x in m :: x.Process() && SyncOk(x)
    ensures CompileSyncs(position, s, m, 2) == CompileSync(position, s, m[0]) + CompileSync(position, s, m[1])
  {
    hide CompileSync, SyncOk;
    assert CompileSyncs(position, s, m, 1) == CompileSyncs(position, s, m, 0) + CompileSync(position, s, m[0]);
  }

  /** Distinct PDO indices within each slave, none of them an assignment object, give distinct keys within each
      slave; distinct positions keep the slaves apart. */
  lemma {:induction false} ConfigurationKeys(slaves: seq<Slave>, n: nat)
    requires n <= |slaves| && forall k | 0 <= k < n :: SlaveOk(slaves[k])
    requires forall k | 0 <= k < n :: DistinctObjects(slaves[k])
    ensures KeysDistinct(Compile(slaves, n))
    ensures (forall a, b | 0 <= a < b < n :: slaves[a].position != slaves[b].position) ==>
      PositionsDistinct(Compile(slaves, n))
  {
    if n > 0 {
      ConfigurationKeys(slaves, n - 1);
      SlaveKeys(slaves[n - 1], n - 1);
      SlaveBlock(slaves[n - 1], n - 1);
      CompileWellFormed(slaves, n - 1);
      CompileWellFormed(slaves, n);
      var a, b := Compile(slaves, n - 1), CompileSlave(slaves[n - 1], n - 1);
      hide CompileSlave, SlaveOk, DistinctObjects, WellFormed, Local, HasCount;
      KeysConcat(a, b, n - 1);
      PositionsFromSlaves(slaves, Compile(slaves, n), n);
    }
  }

  lemma KeysConcat(a: seq<Check>, b: seq<Check>, s: nat)
    requires KeysDistinct(a) && Unique(b) && (forall c | c in a :: c.slave < s) && forall c | c in b :: c.slave == s
    ensures KeysDistinct(a + b)
  {
    assert forall i | 0 <= i < |a| :: a[i] in a;
    assert forall i | 0 <= i < |b| :: b[i] in b;
  }

  lemma PositionsFromSlaves(slaves: seq<Slave>, checks: seq<Check>, n: nat)
    requires n <= |slaves| && forall c | c in checks :: c.slave < n && c.position == slaves[c.slave].position
    ensures (forall a, b | 0 <= a < b < n :: slaves[a].position != slaves[b].position) ==> PositionsDistinct(checks)
  {
    if forall a, b | 0 <= a < b < n :: slaves[a].position != slaves[b].position {
      forall i, j | 0 <= i < j < |checks| && checks[i].slave != checks[j].slave
        ensures checks[i].position != checks[j].position
      {
        assert checks[i] in checks && checks[j] in checks;
      }
    }
  }
}
