/** Normalisation of an ENI description, from its parsed tree: which PDOs a slave gets, in which order, and in
    which order the slaves come. */
module Eni {
  import opened Bytes
  import opened PdoConfig
  import opened SlaveConfig
  import opened Sorting
  import opened Wrappers

  /** A declared PDO. `sm` is its Sm attribute, `unit` its SyncUnit, if present. */
  datatype Declaration = Declaration(index: uint16, sm: Option<uint8>, unit: Option<nat>, entries: seq<NamedEntry>)

  /** An SM2/SM3 element: whether its Type fits the direction, whether it is disabled, and its PDO list. */
  datatype Manager = Manager(typeFits: bool, disabled: bool, listed: seq<uint16>)

  function Assigned(manager: Option<Manager>): seq<uint16> {
    if manager.Some? then manager.value.listed else []
  }

  function SmOf(rx: bool): uint8 {
    if rx then 2 else 3
  }

  /** The declarations with an Sm attribute, in document order. */
  function Marked(declared: seq<Declaration>): (r: seq<Declaration>)
    ensures forall d :: d in r <==> d in declared && d.sm.Some?
  {
    if declared == [] then []
    else Marked(declared[..|declared| - 1]) +
         if declared[|declared| - 1].sm.Some? then [declared[|declared| - 1]] else []
  }

  lemma MarkedSnoc(declared: seq<Declaration>, d: Declaration)
    ensures Marked(declared + [d]) == if d.sm.Some? then Marked(declared) + [d] else Marked(declared)
  {
    assert (declared + [d])[..|declared|] == declared;
  }

  /** Selection by marks goes through the document once and keeps its order. */
  lemma {:induction false} MarkedInOrder(a: seq<Declaration>, b: seq<Declaration>)
    ensures Marked(a + b) == Marked(a) + Marked(b)
  {
    hide Marked;
    if b == [] {
      assert a + b == a;
      NothingMarked(b);
    } else {
      var n := |b| - 1;
      MarkedInOrder(a, b[..n]);
      MarkedSnoc(a + b[..n], b[n]);
      MarkedSnoc(b[..n], b[n]);
      assert a + b == a + b[..n] + [b[n]] && b == b[..n] + [b[n]];
    }
  }

  lemma NothingMarked(declared: seq<Declaration>)
    requires declared == []
    ensures Marked(declared) == []
  {
  }

  predicate DistinctIndices(declared: seq<Declaration>) {
    forall i, j | 0 <= i < j < |declared| :: declared[i].index != declared[j].index
  }

  predicate DistinctAssignments(listed: seq<uint16>) {
    forall i, j | 0 <= i < j < |listed| :: listed[i] != listed[j]
  }

  predicate Declares(declared: seq<Declaration>, index: uint16) {
    exists d | d in declared :: d.index == index
  }

  predicate MarkFits(d: Declaration, rx: bool, listed: seq<uint16>) {
    d.sm.Some? ==> d.sm.value == SmOf(rx) && (listed == [] || d.index in listed)
  }

  /** A disabled manager excuses everything but a selection. */
  predicate Selectable(rx: bool, manager: Option<Manager>, declared: seq<Declaration>) {
    && (manager.Some? ==> manager.value.typeFits)
    && if manager.Some? && manager.value.disabled then
         manager.value.listed == [] && forall d | d in declared :: d.sm.None?
       else
         && DistinctIndices(declared) && DistinctAssignments(Assigned(manager))
         && (forall d | d in declared :: MarkFits(d, rx, Assigned(manager)))
         && forall index | index in Assigned(manager) :: Declares(declared, index)
  }

  /** The PDOs selected: those of the manager's list, as it orders them; without a list those marked, in
      document order. */
  ghost predicate Selected(manager: Option<Manager>, declared: seq<Declaration>, r: seq<Declaration>) {
    var listed := Assigned(manager);
    if listed == [] then r == Marked(declared)
    else |r| == |listed| && forall i | 0 <= i < |r| :: r[i].index == listed[i] && r[i] in declared
  }

  /** The declaration of an index; without one, an empty one. */
  function Lookup(declared: seq<Declaration>, index: uint16): (d: Declaration)
    ensures d.index == index && (Declares(declared, index) ==> d in declared)
  {
    if declared == [] then Declaration(index, None, None, [])
    else if declared[|declared| - 1].index == index then declared[|declared| - 1]
    else Lookup(declared[..|declared| - 1], index)
  }

  /** The selection as a function of the description. */
  function Chosen(manager: Option<Manager>, declared: seq<Declaration>): seq<Declaration> {
    var listed := Assigned(manager);
    if listed == [] then Marked(declared)
    else seq(|listed|, i requires 0 <= i < |listed| => Lookup(declared, listed[i]))
  }

  lemma SelectedIsChosen(rx: bool, manager: Option<Manager>, declared: seq<Declaration>, r: seq<Declaration>)
    requires Selectable(rx, manager, declared) && Selected(manager, declared, r)
    ensures r == Chosen(manager, declared)
  {
    hide Marked, Lookup;
    var listed := Assigned(manager);
    if listed != [] {
      forall i | 0 <= i < |r| ensures r[i] == Chosen(manager, declared)[i] {
        assert listed[i] in listed;
        assert Declares(declared, listed[i]);
        SameDeclaration(declared, r[i], Lookup(declared, listed[i]));
      }
    }
  }

  lemma SameDeclaration(declared: seq<Declaration>, a: Declaration, b: Declaration)
    requires DistinctIndices(declared) && a in declared && b in declared && a.index == b.index
    ensures a == b
  {
  }

  method Find(selected: seq<Declaration>, index: uint16) returns (found: Option<Declaration>)
    ensures found.Some? ==> found.value in selected && found.value.index == index
    ensures found.None? ==> !Declares(selected, index)
  {
    for i := 0 to |selected|
      invariant forall k | 0 <= k < i :: selected[k].index != index
    {
      if selected[i].index == index {
        return Some(selected[i]);
      }
    }
    found := None;
  }

  lemma NoneMarked(declared: seq<Declaration>)
    requires forall d | d in declared :: d.sm.None?
    ensures Marked(declared) == []
  {
    if Marked(declared) != [] {
      assert Marked(declared)[0] in Marked(declared);
    }
  }

  /** The first loop: rejects contradictions and collects what is selected, in document order. */
  method Collect(rx: bool, listed: seq<uint16>, declared: seq<Declaration>) returns (ok: bool, selected: seq<Declaration>)
    ensures ok <==> DistinctIndices(declared) && forall d | d in declared :: MarkFits(d, rx, listed)
    ensures ok && listed == [] ==> selected == Marked(declared)
    ensures ok && listed != [] ==> forall d :: d in selected <==> d in declared && d.index in listed
  {
    selected := [];
    for i := 0 to |declared|
      invariant DistinctIndices(declared[..i]) && forall d | d in declared[..i] :: MarkFits(d, rx, listed)
      invariant listed == [] ==> selected == Marked(declared[..i])
      invariant listed != [] ==> forall d :: d in selected <==> d in declared[..i] && d.index in listed
    {
      var d := declared[i];
      assert declared[..i + 1] == declared[..i] + [d];
      var known := Find(declared[..i], d.index);
      if known.Some? {
        var k: nat :| k < i && declared[..i][k] == known.value;
        assert declared[k].index == declared[i].index;
        return false, selected;
      }
      assert forall k | 0 <= k < i :: declared[..i][k] in declared[..i];
      if d.sm.Some? && (d.sm.value != (if rx then 2 else 3) || (listed != [] && d.index !in listed)) {
        assert d in declared && !MarkFits(d, rx, listed);
        return false, selected;
      }
      if (if listed == [] then d.sm.Some? else d.index in listed) {
        selected := selected + [d];
      }
    }
    assert declared[..|declared|] == declared;
    ok := true;
  }

  /** The second loop: the manager's list in its own order. */
  method Arrange(listed: seq<uint16>, selected: seq<Declaration>) returns (ok: bool, ordered: seq<Declaration>)
    ensures ok <==> DistinctAssignments(listed) && forall index | index in listed :: Declares(selected, index)
    ensures ok ==> |ordered| == |listed|
    ensures ok ==> forall i | 0 <= i < |ordered| :: ordered[i].index == listed[i] && ordered[i] in selected
  {
    ordered := [];
    for i := 0 to |listed|
      invariant |ordered| == i && DistinctAssignments(listed[..i])
      invariant forall k | 0 <= k < i :: ordered[k].index == listed[k] && ordered[k] in selected
    {
      if listed[i] in listed[..i] {
        var k: nat :| k < i && listed[..i][k] == listed[i];
        assert listed[k] == listed[i];
        return false, ordered;
      }
      assert forall k | 0 <= k < i :: listed[..i][k] in listed[..i];
      var found := Find(selected, listed[i]);
      if found.None? {
        assert listed[i] in listed;
        return false, ordered;
      }
      ordered := ordered + [found.value];
      assert listed[..i + 1] == listed[..i] + [listed[i]];
    }
    assert listed[..|listed|] == listed;
    forall index | index in listed ensures Declares(selected, index) {
      var k: nat :| k < |listed| && listed[k] == index;
      assert ordered[k] in selected;
    }
    ok := true;
  }

  method Select(rx: bool, manager: Option<Manager>, declared: seq<Declaration>) returns (r: Option<seq<Declaration>>)
    ensures r.Some? <==> Selectable(rx, manager, declared)
    ensures r.Some? ==> Selected(manager, declared, r.value)
  {
    var listed := if manager.Some? then manager.value.listed else [];
    if manager.Some? {
      if !manager.value.typeFits {
        return None;
      }
      if manager.value.disabled {
        if listed != [] {
          return None;
        }
        for i := 0 to |declared|
          invariant forall k | 0 <= k < i :: declared[k].sm.None?
        {
          if declared[i].sm.Some? {
            assert declared[i] in declared;
            return None;
          }
        }
        NoneMarked(declared);
        return Some([]);
      }
    }
    var ok, selected := Collect(rx, listed, declared);
    if !ok {
      return None;
    }
    if listed == [] {
      return Some(selected);
    }
    ListedIsDeclared(listed, declared, selected);
    ok, selected := Arrange(listed, selected);
    r := if ok then Some(selected) else None;
  }

  lemma ListedIsDeclared(listed: seq<uint16>, declared: seq<Declaration>, selected: seq<Declaration>)
    requires forall d :: d in selected <==> d in declared && d.index in listed
    ensures forall index | index in listed :: Declares(selected, index) <==> Declares(declared, index)
  {
    forall index | index in listed ensures Declares(selected, index) <==> Declares(declared, index) {
      if Declares(declared, index) {
        var d :| d in declared && d.index == index;
        assert d in selected;
      }
    }
  }

  /** The third loop: the mappings of the selected PDOs. */
  predicate Importable(selected: seq<Declaration>, limit: nat) {
    && (forall d | d in selected :: d.unit.Some? ==> d.unit.value == 0)
    && (forall d | d in selected :: Aligned(d.entries))
    && Total(MappingsFor(selected)) <= limit
  }

  function MappingsFor(selected: seq<Declaration>): (r: seq<Mapping>)
    ensures |r| == |selected|
    ensures forall i | 0 <= i < |r| :: r[i] == Mapping(selected[i].index, selected[i].entries)
  {
    seq(|selected|, i requires 0 <= i < |selected| => Mapping(selected[i].index, selected[i].entries))
  }

  predicate Aligned(entries: seq<NamedEntry>) {
    forall e | e in entries :: e.entry.bits > 0 && e.entry.bits % 8 == 0
  }

  /** The entries of one PDO: byte-aligned, and within what is left of the capacity. */
  method ImportEntries(entries: seq<NamedEntry>, room: nat) returns (ok: bool)
    ensures ok <==> Aligned(entries) && |entries| <= room
  {
    for e := 0 to |entries|
      invariant e <= room && forall k | 0 <= k < e :: entries[k].entry.bits > 0 && entries[k].entry.bits % 8 == 0
    {
      if entries[e].entry.bits == 0 || entries[e].entry.bits % 8 != 0 {
        assert entries[e] in entries;
        return false;
      }
      if e + 1 > room {
        return false;
      }
    }
    ok := true;
  }

  method Import(selected: seq<Declaration>, limit: nat) returns (r: Option<seq<Mapping>>)
    ensures r.Some? <==> Importable(selected, limit)
    ensures r.Some? ==> r.value == MappingsFor(selected)
  {
    hide Aligned, MappingsFor;
    var result: seq<Mapping> := [];
    var count := 0;
    for i := 0 to |selected|
      invariant result == MappingsFor(selected)[..i] && count == Total(result) <= limit
      invariant forall k | 0 <= k < i :: selected[k].unit.Some? ==> selected[k].unit.value == 0
      invariant forall k | 0 <= k < i :: Aligned(selected[k].entries)
    {
      var d := selected[i];
      var m := Mapping(d.index, d.entries);
      assert d in selected;
      assert MappingsFor(selected)[..i + 1] == result + [m];
      assert (result + [m])[..i] == result;
      if d.unit.Some? && d.unit.value != 0 {
        return None;
      }
      var ok := ImportEntries(d.entries, limit - count);
      if !ok {
        TotalPrefix(MappingsFor(selected), i + 1);
        return None;
      }
      count := count + |d.entries|;
      result := result + [m];
    }
    assert MappingsFor(selected)[..|selected|] == MappingsFor(selected);
    r := Some(result);
  }

  /** What the description says about one direction: the Sync Manager element, and the declared PDOs. */
  datatype Direction = Direction(manager: Option<Manager>, declared: seq<Declaration>) {
    predicate Ok(rx: bool, limit: nat) {
      Selectable(rx, manager, declared) && Importable(Chosen(manager, declared), limit)
    }

    function Mappings(): seq<Mapping> {
      MappingsFor(Chosen(manager, declared))
    }
  }

  /** The PDOs of one direction: selected, ordered, and with their entries. */
  method Pdos(rx: bool, description: Direction, limit: nat) returns (r: Option<seq<Mapping>>)
    ensures r.Some? <==> description.Ok(rx, limit)
    ensures r.Some? ==> r.value == description.Mappings()
    ensures r.Some? ==> Selected(description.manager, description.declared, Chosen(description.manager, description.declared))
  {
    hide Selectable, Selected, Importable, MappingsFor, Chosen;
    var chosen := Select(rx, description.manager, description.declared);
    if chosen.None? {
      return None;
    }
    SelectedIsChosen(rx, description.manager, description.declared, chosen.value);
    r := Import(chosen.value, limit);
  }

  lemma {:induction false} TotalPrefix(mappings: seq<Mapping>, n: nat)
    requires n <= |mappings|
    ensures Total(mappings[..n]) <= Total(mappings)
    decreases |mappings| - n
  {
    if n < |mappings| {
      assert mappings[..n + 1][..n] == mappings[..n];
      TotalPrefix(mappings, n + 1);
    } else {
      assert mappings[..n] == mappings;
    }
  }

  // ---------- slaves ----------

  /** A parsed Slave element. `foreign` tells of a Sync Manager other than SM2 and SM3 for process data. */
  datatype Element = Element(autoInc: uint16, station: uint16, name: string, vendor: uint32, product: uint32, foreign: bool,
                             rx: Direction, tx: Direction, reference: bool, dc: bool, inits: seq<InitCommand>)

  /** The auto increment address counts down from zero. */
  function Position(e: Element): uint16 {
    (0x1_0000 - e.autoInc) % 0x1_0000
  }

  function Station(e: Element): int {
    e.station
  }

  function Reference(e: Element): int {
    if e.dc && e.reference then 1 else 0
  }

  function Id(slave: Source): int {
    slave.id
  }

  function SourceOf(e: Element): Source {
    Source(Position(e), e.name, e.vendor, e.product, e.rx.Mappings(), e.tx.Mappings(), e.inits)
  }

  function Sources(elements: seq<Element>): (r: seq<Source>)
    ensures |r| == |elements| && forall i | 0 <= i < |r| :: r[i] == SourceOf(elements[i])
  {
    Map(elements, SourceOf)
  }

  predicate ElementOk(e: Element, limits: Limits) {
    && e.station != 0 && e.vendor != 0 && e.product != 0 && !e.foreign
    && e.rx.Ok(true, limits.outputs) && e.tx.Ok(false, limits.inputs)
  }

  /** Non-empty, within capacity, acceptable slaves, stations and positions distinct, positions contiguous from
      zero, and exactly one reference clock if there are clocks. */
  predicate Loadable(elements: seq<Element>, capacity: nat, limits: Limits) {
    && 0 < |elements| <= capacity && (forall i | 0 <= i < |elements| :: ElementOk(elements[i], limits))
    && Distinct(elements, Station) && Distinct(Sources(elements), Id)
    && (forall i | 0 <= i < |elements| :: Position(elements[i]) < |elements|)
    && ((exists e | e in elements :: e.dc) ==> Sum(elements, Reference) == 1)
  }

  lemma {:induction false} AscendingFills(sorted: seq<Source>, i: nat)
    requires Ascending(sorted, Id) && Distinct(sorted, Id) && i < |sorted|
    ensures sorted[i].id >= i
  {
    if i > 0 {
      AscendingFills(sorted, i - 1);
      assert Id(sorted[i - 1]) != Id(sorted[i]);
    }
  }

  lemma {:induction false} AscendingFits(sorted: seq<Source>, i: nat)
    requires Ascending(sorted, Id) && Distinct(sorted, Id) && i < |sorted|
    requires forall k | 0 <= k < |sorted| :: sorted[k].id < |sorted|
    ensures sorted[i].id <= i
    decreases |sorted| - i
  {
    if i < |sorted| - 1 {
      AscendingFits(sorted, i + 1);
      assert Id(sorted[i]) != Id(sorted[i + 1]);
    }
  }

  /** The check after sorting: slave i has position i. */
  predicate InPlace(sorted: seq<Source>) {
    forall i | 0 <= i < |sorted| :: sorted[i].id == i
  }

  /** ...which is to say that the positions are distinct and contiguous. */
  lemma InPlaceMeansContiguous(slaves: seq<Source>)
    ensures InPlace(Sort(slaves, Id)) <==> Distinct(slaves, Id) && forall i | 0 <= i < |slaves| :: slaves[i].id < |slaves|
  {
    var sorted := Sort(slaves, Id);
    SortSorts(slaves, Id);
    assert |sorted| == |multiset(sorted)| == |multiset(slaves)| == |slaves|;
    if InPlace(sorted) {
      assert Distinct(sorted, Id);
      DistinctSurvives(sorted, slaves, Id);
      forall i | 0 <= i < |slaves| ensures slaves[i].id < |slaves| {
        assert slaves[i] in multiset(sorted);
      }
    }
    if Distinct(slaves, Id) && forall i | 0 <= i < |slaves| :: slaves[i].id < |slaves| {
      DistinctSurvives(slaves, sorted, Id);
      forall i | 0 <= i < |sorted| ensures sorted[i].id < |sorted| {
        assert sorted[i] in multiset(slaves);
      }
      forall i | 0 <= i < |sorted| ensures sorted[i].id == i {
        AscendingFills(sorted, i);
        AscendingFits(sorted, i);
      }
    }
  }

  lemma NoElements(elements: seq<Element>)
    requires elements == []
    ensures Sum(elements, Reference) == 0 && Sources(elements) == []
  {
  }

  /** One Slave element, its PDOs imported. */
  method LoadSlave(e: Element, limits: Limits) returns (r: Option<Source>)
    ensures r.Some? <==> ElementOk(e, limits)
    ensures r.Some? ==> r.value == SourceOf(e)
  {
    hide Direction.Ok, Direction.Mappings, Selected, Chosen;
    if e.station == 0 || e.vendor == 0 || e.product == 0 || e.foreign {
      return None;
    }
    var rx := Pdos(true, e.rx, limits.outputs);
    if rx.None? {
      return None;
    }
    var tx := Pdos(false, e.tx, limits.inputs);
    if tx.None? {
      return None;
    }
    var position: uint16 := (0x1_0000 - e.autoInc) % 0x1_0000;
    r := Some(Source(position, e.name, e.vendor, e.product, rx.value, tx.value, e.inits));
  }

  /** Collects the slaves with their PDOs, sorts them by position, and checks that position i is slave i. */
  method Load(elements: seq<Element>, capacity: nat, limits: Limits) returns (r: Option<seq<Source>>)
    ensures r.Some? <==> Loadable(elements, capacity, limits)
    ensures r.Some? ==> r.value == Sort(Sources(elements), Id) && InPlace(r.value)
  {
    hide Sort, Insert, Sum, InPlace, ElementOk, SourceOf;
    var stations: set<int> := {};
    NoElements(elements[..0]);
    var references, clocked := 0, false;
    var loaded: seq<Source> := [];
    for i := 0 to |elements|
      invariant i <= capacity && forall k | 0 <= k < i :: ElementOk(elements[k], limits)
      invariant loaded == Sources(elements[..i]) && Distinct(elements[..i], Station)
      invariant forall x :: x in stations <==> exists k :: 0 <= k < i && elements[k].station == x
      invariant references == Sum(elements[..i], Reference) && (clocked <==> exists e | e in elements[..i] :: e.dc)
    {
      var e := elements[i];
      if i == capacity || e.station in stations {
        return None;
      }
      var slave := LoadSlave(e, limits);
      if slave.None? {
        return None;
      }
      stations := stations + {e.station};
      assert elements[..i + 1] == elements[..i] + [e];
      assert Sources(elements[..i + 1]) == loaded + [slave.value];
      SumSnoc(elements[..i], e, Reference);
      loaded := loaded + [slave.value];
      references := references + if e.dc && e.reference then 1 else 0;
      clocked := clocked || e.dc;
    }
    assert elements[..|elements|] == elements;
    if elements == [] {
      return None;
    }
    var sorted := Sort(loaded, Id);
    SourceIds(elements);
    InPlaceMeansContiguous(loaded);
    if !InPlace(sorted) || (clocked && references != 1) {
      return None;
    }
    r := Some(sorted);
  }

  lemma SourceIds(elements: seq<Element>)
    ensures forall i | 0 <= i < |elements| :: Sources(elements)[i].id == Position(elements[i])
  {
    hide Direction.Mappings, Position;
  }

  /** The order of the Slave elements is irrelevant: a permutation loads just when the original does, and to the
      same slaves with the same PDOs. */
  lemma LoadIgnoresOrder(a: seq<Element>, b: seq<Element>, capacity: nat, limits: Limits)
    requires multiset(a) == multiset(b)
    ensures Loadable(a, capacity, limits) <==> Loadable(b, capacity, limits)
    ensures Loadable(a, capacity, limits) ==> Sort(Sources(a), Id) == Sort(Sources(b), Id)
  {
    if Loadable(a, capacity, limits) {
      LoadablePermutes(a, b, capacity, limits);
      MapPermutes(a, b, SourceOf);
      SortIsCanonical(Sources(a), Sources(b), Id);
    }
    if Loadable(b, capacity, limits) {
      LoadablePermutes(b, a, capacity, limits);
    }
  }

  lemma LoadablePermutes(a: seq<Element>, b: seq<Element>, capacity: nat, limits: Limits)
    requires multiset(a) == multiset(b) && Loadable(a, capacity, limits)
    ensures Loadable(b, capacity, limits)
  {
    hide ElementOk, SourceOf;
    assert |a| == |multiset(a)| == |multiset(b)| == |b|;
    DistinctSurvives(a, b, Station);
    MapPermutes(a, b, SourceOf);
    DistinctSurvives(Sources(a), Sources(b), Id);
    forall i | 0 <= i < |b| ensures ElementOk(b[i], limits) && Position(b[i]) < |b| {
      assert b[i] in multiset(a);
    }
    SumPermutes(a, b, Reference);
    if e :| e in b && e.dc {
      assert e in multiset(a);
      assert e in a;
    }
  }
}
