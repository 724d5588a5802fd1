/** From a loaded bus configuration to the nested IgH tables and the flat list of process data entries, and
    back: registration walks the nested tables while counting through the flat list. */
module SlaveConfig {
  import opened Bytes
  import opened PdoConfig

  datatype NamedEntry = NamedEntry(name: string, entry: Entry)

  datatype Mapping = Mapping(index: uint16, entries: seq<NamedEntry>)

  datatype Source = Source(id: uint16, name: string, vendor: uint32, product: uint32,
                           rx: seq<Mapping>, tx: seq<Mapping>, inits: seq<InitCommand>)

  /** One process data entry in the flat list of a slave. */
  datatype EntrySpec = EntrySpec(name: string, output: bool, entry: Entry)

  datatype Loaded = Loaded(source: Source, slave: Slave, entries: seq<EntrySpec>)

  datatype Limits = Limits(inputs: nat, outputs: nat)

  // ---------- what is built ----------

  function EntriesOf(entries: seq<NamedEntry>): (r: seq<Entry>)
    ensures |r| == |entries| && forall e | 0 <= e < |r| :: r[e] == entries[e].entry
  {
    seq(|entries|, e requires 0 <= e < |entries| => entries[e].entry)
  }

  function PdoOf(m: Mapping): Pdo {
    Pdo(m.index, Present(EntriesOf(m.entries)))
  }

  function PdosOf(mappings: seq<Mapping>): (r: seq<Pdo>)
    ensures |r| == |mappings| && forall p | 0 <= p < |r| :: r[p] == PdoOf(mappings[p])
  {
    seq(|mappings|, p requires 0 <= p < |mappings| => PdoOf(mappings[p]))
  }

  function FlatPdo(m: Mapping, output: bool): (r: seq<EntrySpec>)
    ensures |r| == |m.entries|
    ensures forall e | 0 <= e < |r| :: r[e] == EntrySpec(m.entries[e].name, output, m.entries[e].entry)
  {
    seq(|m.entries|, e requires 0 <= e < |m.entries| => EntrySpec(m.entries[e].name, output, m.entries[e].entry))
  }

  /** The entries of the first n mappings, one after the other. */
  function Flat(mappings: seq<Mapping>, output: bool, n: nat): seq<EntrySpec>
    requires n <= |mappings|
  {
    if n == 0 then [] else Flat(mappings, output, n - 1) + FlatPdo(mappings[n - 1], output)
  }

  /** SM2 carries the outputs, SM3 the inputs. */
  function BuiltSlave(source: Source): Slave {
    Slave(source.id, Present([Sync(2, true, Present(PdosOf(source.rx))), Sync(3, false, Present(PdosOf(source.tx)))]),
          Present(source.inits))
  }

  function Built(source: Source): Loaded {
    Loaded(source, BuiltSlave(source), Flat(source.rx, true, |source.rx|) + Flat(source.tx, false, |source.tx|))
  }

  // ---------- counting ----------

  function Total(mappings: seq<Mapping>): nat {
    if mappings == [] then 0 else Total(mappings[..|mappings| - 1]) + |mappings[|mappings| - 1].entries|
  }

  lemma {:induction false} TotalUpdate(mappings: seq<Mapping>, p: nat, m: Mapping)
    requires p < |mappings| && mappings[p].entries == []
    ensures Total(mappings[p := m]) == Total(mappings) + |m.entries|
  {
    var n := |mappings| - 1;
    if p < n {
      TotalUpdate(mappings[..n], p, m);
      assert mappings[p := m][..n] == mappings[..n][p := m];
    } else {
      assert mappings[p := m][..n] == mappings[..n];
    }
  }

  method CountEntries(mappings: seq<Mapping>) returns (total: nat)
    ensures total == Total(mappings)
  {
    total := 0;
    for p := 0 to |mappings|
      invariant total == Total(mappings[..p])
    {
      assert mappings[..p + 1][..p] == mappings[..p];
      total := total + |mappings[p].entries|;
    }
    assert mappings[..|mappings|] == mappings;
  }

  // ---------- structural validation ----------

  predicate Named(name: string) {
    name != "" && name[0] != '\0'
  }

  predicate EntryOk(e: EntrySpec) {
    Named(e.name) && e.entry.bits > 0 && e.entry.bits % 8 == 0
  }

  function CountDirection(entries: seq<EntrySpec>, output: bool): (n: nat)
    ensures n <= |entries|
  {
    if entries == [] then 0
    else CountDirection(entries[..|entries| - 1], output) + if entries[|entries| - 1].output == output then 1 else 0
  }

  predicate Acceptable(l: Loaded, limits: Limits) {
    && (l.source.vendor == 0 <==> l.source.product == 0) && Named(l.source.name)
    && (forall c | c in l.source.inits :: CommandOk(c))
    && EntriesOk(l.entries, limits)
  }

  predicate EntriesOk(entries: seq<EntrySpec>, limits: Limits) {
    && (forall e | e in entries :: EntryOk(e))
    && CountDirection(entries, false) <= limits.inputs && CountDirection(entries, true) <= limits.outputs
  }

  lemma {:induction false} CountGrows(entries: seq<EntrySpec>, output: bool, n: nat)
    requires n <= |entries|
    ensures CountDirection(entries[..n], output) <= CountDirection(entries, output)
    decreases |entries| - n
  {
    if n < |entries| {
      assert entries[..n + 1][..n] == entries[..n];
      CountGrows(entries, output, n + 1);
    } else {
      assert entries[..n] == entries;
    }
  }

  method Validate(l: Loaded, limits: Limits) returns (ok: bool)
    ensures ok <==> Acceptable(l, limits)
  {
    var name := l.source.name;
    if (l.source.vendor == 0) != (l.source.product == 0) || name == "" || name[0] == '\0' {
      return false;
    }
    for i := 0 to |l.source.inits|
      invariant forall k | 0 <= k < i :: CommandOk(l.source.inits[k])
    {
      var size := |l.source.inits[i].data|;
      if size != 1 && size != 2 && size != 4 && size != 8 {
        assert l.source.inits[i] in l.source.inits;
        return false;
      }
    }
    ok := ValidateEntries(l.entries, limits);
  }

  method ValidateEntries(entries: seq<EntrySpec>, limits: Limits) returns (ok: bool)
    ensures ok <==> EntriesOk(entries, limits)
  {
    var inputs, outputs := 0, 0;
    for k := 0 to |entries|
      invariant forall i | 0 <= i < k :: EntryOk(entries[i])
      invariant inputs == CountDirection(entries[..k], false) <= limits.inputs
      invariant outputs == CountDirection(entries[..k], true) <= limits.outputs
    {
      var e := entries[k];
      assert entries[..k + 1][..k] == entries[..k];
      CountGrows(entries, false, k + 1);
      CountGrows(entries, true, k + 1);
      if e.name == "" || e.name[0] == '\0' || e.entry.bits == 0 || e.entry.bits % 8 != 0 {
        assert e in entries && !EntryOk(e);
        return false;
      }
      if e.output {
        outputs := outputs + 1;
      } else {
        inputs := inputs + 1;
      }
      if inputs > limits.inputs || outputs > limits.outputs {
        return false;
      }
    }
    assert entries[..|entries|] == entries;
    ok := true;
  }

  // ---------- building ----------

  /** Owns the tables; a failed build leaves the previous ones in place. */
  class LoadedSlaveConfig {
    var loaded: seq<Loaded>

    constructor ()
      ensures loaded == []
    {
      loaded := [];
    }

    method Build(config: seq<Source>, limits: Limits) returns (ok: bool)
      modifies this
      ensures ok <==> forall s | 0 <= s < |config| :: Acceptable(Built(config[s]), limits)
      ensures ok ==> |loaded| == |config| && forall s | 0 <= s < |config| :: loaded[s] == Built(config[s])
      ensures !ok ==> loaded == old(loaded)
    {
      hide *;
      var built: seq<Loaded> := [];
      for s := 0 to |config|
        invariant |built| == s && forall k | 0 <= k < s :: built[k] == Built(config[k])
        invariant loaded == old(loaded)
      {
        var l := BuildSlave(config[s]);
        built := built + [l];
      }
      for s := 0 to |built|
        invariant forall k | 0 <= k < s :: Acceptable(Built(config[k]), limits)
        invariant loaded == old(loaded)
      {
        ok := Validate(built[s], limits);
        if !ok {
          return;
        }
      }
      loaded := built;
      return true;
    }
  }

  method BuildSlave(source: Source) returns (l: Loaded)
    ensures l == Built(source)
  {
    var rx := StorePdos(source.rx);
    var tx := StorePdos(source.tx);
    var entries := AppendEntryViews(source.rx, true, []);
    entries := AppendEntryViews(source.tx, false, entries);
    l := Loaded(source, Slave(source.id, Present([Sync(2, true, Present(rx)), Sync(3, false, Present(tx))]),
                              Present(source.inits)), entries);
  }

  method StorePdos(mappings: seq<Mapping>) returns (target: seq<Pdo>)
    ensures target == PdosOf(mappings)
  {
    target := [];
    for p := 0 to |mappings|
      invariant |target| == p && forall k | 0 <= k < p :: target[k] == PdoOf(mappings[k])
    {
      var entries: seq<Entry> := [];
      for e := 0 to |mappings[p].entries|
        invariant |entries| == e && forall k | 0 <= k < e :: entries[k] == mappings[p].entries[k].entry
      {
        entries := entries + [mappings[p].entries[e].entry];
      }
      assert entries == EntriesOf(mappings[p].entries);
      target := target + [Pdo(mappings[p].index, Present(entries))];
    }
  }

  method AppendEntryViews(mappings: seq<Mapping>, output: bool, before: seq<EntrySpec>) returns (entries: seq<EntrySpec>)
    ensures entries == before + Flat(mappings, output, |mappings|)
  {
    hide Flat, FlatPdo;
    entries := before;
    FlatNone(mappings, output, before);
    for p := 0 to |mappings|
      invariant entries == before + Flat(mappings, output, p)
    {
      ghost var base := entries;
      var m := mappings[p];
      for e := 0 to |m.entries|
        invariant entries == base + FlatPdo(m, output)[..e]
      {
        FlatEntry(m, output, e, base);
        entries := entries + [EntrySpec(m.entries[e].name, output, m.entries[e].entry)];
      }
      FlatAppends(mappings, output, p, before);
    }
  }

  lemma FlatNone(mappings: seq<Mapping>, output: bool, before: seq<EntrySpec>)
    ensures before + Flat(mappings, output, 0) == before
  {
  }

  lemma FlatEntry(m: Mapping, output: bool, e: nat, base: seq<EntrySpec>)
    requires e < |m.entries|
    ensures base + FlatPdo(m, output)[..e] + [EntrySpec(m.entries[e].name, output, m.entries[e].entry)] ==
            base + FlatPdo(m, output)[..e + 1]
  {
    assert FlatPdo(m, output)[..e + 1] == FlatPdo(m, output)[..e] + [FlatPdo(m, output)[e]];
  }

  lemma FlatAppends(mappings: seq<Mapping>, output: bool, p: nat, before: seq<EntrySpec>)
    requires p < |mappings|
    ensures before + Flat(mappings, output, p) + FlatPdo(mappings[p], output)[..|mappings[p].entries|] ==
            before + Flat(mappings, output, p + 1)
  {
    hide FlatPdo;
    assert FlatPdo(mappings[p], output)[..|mappings[p].entries|] == FlatPdo(mappings[p], output);
  }

  // ---------- registration ----------

  /** Where the nested tables hold an entry. */
  datatype Place = Place(sync: uint8, pdo: nat, entry: nat)

  /** The places of the first n entries of one PDO. */
  function PdoPlaces(sync: uint8, p: nat, n: nat): (r: seq<Place>)
    ensures |r| == n && forall e | 0 <= e < n :: r[e] == Place(sync, p, e)
  {
    seq(n, e requires 0 <= e < n => Place(sync, p, e))
  }

  function SyncPlaces(sm: Sync, n: nat): seq<Place>
    requires n <= |sm.pdos.Items()|
  {
    if n == 0 then []
    else SyncPlaces(sm, n - 1) + PdoPlaces(sm.index, n - 1, |sm.pdos.Items()[n - 1].entries.Items()|)
  }

  /** Every entry of the process data Sync Managers, in the order of the tables. */
  function Places(syncs: seq<Sync>, n: nat): seq<Place>
    requires n <= |syncs|
  {
    if n == 0 then []
    else Places(syncs, n - 1) +
         if syncs[n - 1].Process() then SyncPlaces(syncs[n - 1], |syncs[n - 1].pdos.Items()|) else []
  }

  predicate Directed(sm: Sync) {
    sm.Process() ==> (sm.index == 2 <==> sm.output)
  }

  datatype Registration = Registered | WrongDirection | TableMismatch | NotRegistered | BadBitPosition

  datatype Location = Location(offset: nat, bit: nat)

  /** What IgH answers to one registration: an offset in the domain, negative for a failure, and a bit position. */
  datatype Placed = Placed(offset: int, bit: nat)

  class Registrar {
    ghost var calls: seq<Place>
    ghost var answers: seq<Placed>

    constructor ()
      ensures calls == [] && answers == []
    {
      calls, answers := [], [];
    }

    method Register(sync: uint8, pdo: nat, entry: nat) returns (offset: int, bit: nat)
      modifies this
      ensures calls == old(calls) + [Place(sync, pdo, entry)] && answers == old(answers) + [Placed(offset, bit)]
    {
      offset, bit := *, *;
      calls, answers := calls + [Place(sync, pdo, entry)], answers + [Placed(offset, bit)];
    }
  }

  /** So many entries registered, each at a whole offset and a bit of a byte, stored at its running index. */
  ghost predicate Filled(registrar: Registrar, locations: array<Location>, n: nat)
    reads registrar, locations
  {
    n <= locations.Length && |registrar.answers| == n && |registrar.calls| == n && Stored(registrar, locations, n)
  }

  ghost predicate Stored(registrar: Registrar, locations: array<Location>, n: nat)
    requires n <= locations.Length && n <= |registrar.answers|
    reads registrar, locations
  {
    forall k | 0 <= k < n ::
      && registrar.answers[k].offset >= 0 && registrar.answers[k].bit <= 7
      && locations[k] == Location(registrar.answers[k].offset, registrar.answers[k].bit)
  }

  /** A registration that was refused: after good answers the last one was a failure, or too high a bit. */
  ghost predicate Refused(registrar: Registrar, locations: array<Location>, r: Registration)
    reads registrar, locations
  {
    var n := |registrar.answers|;
    && n > 0 && n - 1 <= locations.Length && |registrar.calls| == n && Stored(registrar, locations, n - 1)
    && var last := registrar.answers[n - 1];
       (r.NotRegistered? && last.offset < 0) || (r.BadBitPosition? && last.offset >= 0 && last.bit > 7)
  }

  /** Registers all entries of one PDO from the running index on. */
  method RegisterPdo(registrar: Registrar, sync: uint8, p: nat, n: nat, locations: array<Location>, begin: nat)
    returns (r: Registration)
    requires Filled(registrar, locations, begin)
    modifies registrar, locations
    ensures r.Registered? || r.TableMismatch? || r.NotRegistered? || r.BadBitPosition?
    ensures r.Registered? ==> Filled(registrar, locations, begin + n)
    ensures r.Registered? ==> registrar.calls == old(registrar.calls) + PdoPlaces(sync, p, n)
    ensures r.TableMismatch? ==> begin + n > locations.Length
    ensures r.NotRegistered? || r.BadBitPosition? ==> Refused(registrar, locations, r)
  {
    var index := begin;
    for e := 0 to n
      invariant index == begin + e && Filled(registrar, locations, index)
      invariant registrar.calls == old(registrar.calls) + PdoPlaces(sync, p, n)[..e]
    {
      if index >= locations.Length {
        return TableMismatch;
      }
      var offset, bit := registrar.Register(sync, p, e);
      if offset < 0 {
        return NotRegistered;
      }
      if bit > 7 {
        return BadBitPosition;
      }
      locations[index] := Location(offset, bit);
      index := index + 1;
    }
    assert PdoPlaces(sync, p, n)[..n] == PdoPlaces(sync, p, n);
    r := Registered;
  }

  method RegisterSync(registrar: Registrar, sm: Sync, locations: array<Location>, begin: nat) returns (r: Registration, index: nat)
    requires Filled(registrar, locations, begin)
    modifies registrar, locations
    ensures r.Registered? || r.TableMismatch? || r.NotRegistered? || r.BadBitPosition?
    ensures r.Registered? ==>
      && Filled(registrar, locations, index) && index == begin + |SyncPlaces(sm, |sm.pdos.Items()|)|
      && registrar.calls == old(registrar.calls) + SyncPlaces(sm, |sm.pdos.Items()|)
    ensures r.TableMismatch? ==> begin + |SyncPlaces(sm, |sm.pdos.Items()|)| > locations.Length
    ensures r.NotRegistered? || r.BadBitPosition? ==> Refused(registrar, locations, r)
  {
    hide Filled, Stored, Refused, SyncPlaces;
    index := begin;
    var pdos := sm.pdos.Items();
    SyncPlacesNext(sm, 0);
    for p := 0 to |pdos|
      invariant Filled(registrar, locations, index) && index == begin + |SyncPlaces(sm, p)|
      invariant registrar.calls == old(registrar.calls) + SyncPlaces(sm, p)
    {
      SyncPlacesGrow(sm, p + 1, |pdos|);
      SyncPlacesNext(sm, p);
      r := RegisterPdo(registrar, sm.index, p, |pdos[p].entries.Items()|, locations, index);
      if !r.Registered? {
        return;
      }
      index := index + |pdos[p].entries.Items()|;
    }
    r := Registered;
  }

  lemma SyncPlacesNext(sm: Sync, p: nat)
    ensures SyncPlaces(sm, 0) == []
    ensures p < |sm.pdos.Items()| ==>
      SyncPlaces(sm, p + 1) == SyncPlaces(sm, p) + PdoPlaces(sm.index, p, |sm.pdos.Items()[p].entries.Items()|)
  {
  }

  lemma {:induction false} SyncPlacesGrow(sm: Sync, i: nat, n: nat)
    requires i <= n <= |sm.pdos.Items()|
    ensures |SyncPlaces(sm, i)| <= |SyncPlaces(sm, n)|
  {
    if i < n {
      SyncPlacesGrow(sm, i, n - 1);
    }
  }

  lemma {:induction false} PlacesGrow(syncs: seq<Sync>, i: nat, n: nat)
    requires i <= n <= |syncs|
    ensures |Places(syncs, i)| <= |Places(syncs, n)|
  {
    if i < n {
      PlacesGrow(syncs, i, n - 1);
    }
  }

  /** Registers the entries of one slave: walks the nested tables and counts through the flat list. */
  method Register(registrar: Registrar, slave: Slave, locations: array<Location>) returns (r: Registration)
    requires registrar.calls == [] && registrar.answers == []
    modifies registrar, locations
    ensures r.Registered? ==>
      && registrar.calls == Places(slave.syncs.Items(), |slave.syncs.Items()|) && |registrar.calls| == locations.Length
      && Filled(registrar, locations, locations.Length)
    ensures r.TableMismatch? ==> |Places(slave.syncs.Items(), |slave.syncs.Items()|)| != locations.Length
    ensures r.WrongDirection? ==> exists sm :: sm in slave.syncs.Items() && !Directed(sm)
    ensures r.Registered? ==> forall sm | sm in slave.syncs.Items() :: Directed(sm)
    ensures r.NotRegistered? || r.BadBitPosition? ==> Refused(registrar, locations, r)
  {
    var syncs := slave.syncs.Items();
    var index := 0;
    for s := 0 to |syncs|
      invariant Filled(registrar, locations, index) && index == |Places(syncs, s)|
      invariant registrar.calls == Places(syncs, s) && forall k | 0 <= k < s :: Directed(syncs[k])
    {
      var sm := syncs[s];
      if sm.index != 2 && sm.index != 3 {
        continue;
      }
      PlacesGrow(syncs, s + 1, |syncs|);
      if (sm.index == 2) != sm.output {
        assert sm in slave.syncs.Items() && !Directed(sm);
        return WrongDirection;
      }
      r, index := RegisterSync(registrar, sm, locations, index);
      if !r.Registered? {
        return;
      }
    }
    if index != locations.Length {
      return TableMismatch;
    }
    r := Registered;
  }

  // ---------- agreement ----------

  predicate Holder(syncs: seq<Sync>, place: Place, e: Entry, output: bool) {
    exists s | 0 <= s < |syncs| ::
      && syncs[s].index == place.sync && syncs[s].output == output && place.pdo < |syncs[s].pdos.Items()|
      && place.entry < |syncs[s].pdos.Items()[place.pdo].entries.Items()|
      && syncs[s].pdos.Items()[place.pdo].entries.Items()[place.entry] == e
  }

  /** The place names this entry of the mappings. */
  predicate Names(mappings: seq<Mapping>, place: Place, e: Entry) {
    && place.pdo < |mappings| && place.entry < |mappings[place.pdo].entries|
    && mappings[place.pdo].entries[place.entry].entry == e
  }

  lemma {:induction false} SyncAgrees(sm: Sync, mappings: seq<Mapping>, n: nat, k: nat)
    requires sm.pdos == Present(PdosOf(mappings)) && n <= |mappings|
    ensures |SyncPlaces(sm, n)| == |Flat(mappings, sm.output, n)|
    ensures k < |SyncPlaces(sm, n)| ==>
      && SyncPlaces(sm, n)[k].sync == sm.index && Flat(mappings, sm.output, n)[k].output == sm.output
      && Names(mappings, SyncPlaces(sm, n)[k], Flat(mappings, sm.output, n)[k].entry)
  {
    hide Names, PdosOf, FlatPdo, PdoPlaces, SyncPlaces, Flat;
    SyncPlacesNext(sm, 0);
    FlatNext(mappings, sm.output, 0);
    if n > 0 {
      SyncAgrees(sm, mappings, n - 1, k);
      PdoAgrees(sm, mappings, n - 1);
      SyncPlacesNext(sm, n - 1);
      FlatNext(mappings, sm.output, n - 1);
    }
  }

  lemma FlatNext(mappings: seq<Mapping>, output: bool, p: nat)
    ensures Flat(mappings, output, 0) == []
    ensures p < |mappings| ==> Flat(mappings, output, p + 1) == Flat(mappings, output, p) + FlatPdo(mappings[p], output)
  {
  }

  lemma PdoAgrees(sm: Sync, mappings: seq<Mapping>, p: nat)
    requires sm.pdos == Present(PdosOf(mappings)) && p < |mappings|
    ensures var places, flat := PdoPlaces(sm.index, p, |mappings[p].entries|), FlatPdo(mappings[p], sm.output);
      && |sm.pdos.Items()[p].entries.Items()| == |mappings[p].entries|
      && forall e | 0 <= e < |mappings[p].entries| ::
           places[e].sync == sm.index && flat[e].output == sm.output && Names(mappings, places[e], flat[e].entry)
  {
  }

  lemma PlacesOfTwo(syncs: seq<Sync>)
    requires |syncs| == 2 && syncs[0].Process() && syncs[1].Process()
    ensures Places(syncs, 2) == SyncPlaces(syncs[0], |syncs[0].pdos.Items()|) + SyncPlaces(syncs[1], |syncs[1].pdos.Items()|)
  {
    hide SyncPlaces;
    assert Places(syncs, 1) == Places(syncs, 0) + SyncPlaces(syncs[0], |syncs[0].pdos.Items()|);
  }

  lemma NamedIsHeld(syncs: seq<Sync>, s: nat, mappings: seq<Mapping>, place: Place, e: Entry)
    requires s < |syncs| && syncs[s].pdos == Present(PdosOf(mappings)) && place.sync == syncs[s].index
    requires Names(mappings, place, e)
    ensures Holder(syncs, place, e, syncs[s].output)
  {
    assert syncs[s].pdos.Items()[place.pdo].entries.Items()[place.entry] == e;
  }

  /** For every configuration: the k-th entry of the flat list is the k-th entry registration visits, with the
      same object, width and direction, and both lists end together. */
  lemma FlatAgreesWithNested(source: Source, k: nat)
    ensures var syncs := Built(source).slave.syncs.Items();
      && |Places(syncs, 2)| == |Built(source).entries| && |syncs| == 2
      && (k < |Places(syncs, 2)| ==>
            Holder(syncs, Places(syncs, 2)[k], Built(source).entries[k].entry, Built(source).entries[k].output))
  {
    hide SyncPlaces, Flat, Names, Holder, Places, PdosOf;
    var syncs := Built(source).slave.syncs.Items();
    PlacesOfTwo(syncs);
    SyncAgrees(syncs[0], source.rx, |source.rx|, k);
    var outputs := |SyncPlaces(syncs[0], |source.rx|)|;
    var j := if k >= outputs then k - outputs else 0;
    SyncAgrees(syncs[1], source.tx, |source.tx|, j);
    if k < outputs {
      NamedIsHeld(syncs, 0, source.rx, Places(syncs, 2)[k], Built(source).entries[k].entry);
    } else if k < |Places(syncs, 2)| {
      NamedIsHeld(syncs, 1, source.tx, Places(syncs, 2)[k], Built(source).entries[k].entry);
    }
  }

  /** So neither mismatch error of `Register` can fire for a built configuration, whatever IgH answers. */
  lemma BuiltIsRegistrable(source: Source)
    ensures var syncs := Built(source).slave.syncs.Items();
      && |Places(syncs, |syncs|)| == |Built(source).entries| && forall sm | sm in syncs :: Directed(sm)
  {
    hide Places, Flat, PdosOf;
    FlatAgreesWithNested(source, 0);
  }
}
