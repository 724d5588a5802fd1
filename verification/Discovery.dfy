/** Discovery of the mappings that the configuration leaves empty: read from the devices, checked, and committed
    all together or not at all. */
module Discovery {
  import opened Bytes
  import opened PdoConfig
  import opened Wrappers
  import opened Protocol
  import opened SlaveConfig
  import opened PreopSafety
  import Bus

  // ---------- what a device reports ----------

  /** The passive device reports exactly these entries for the mapping object. */
  ghost predicate Reports(d: Dict, position: uint16, index: uint16, entries: seq<Entry>) {
    && ReportsCount(d, Key(position, index, 0), |entries|)
    && |entries| <= 255
    && forall e | 0 <= e < |entries| :: ReportsEntry(d, Key(position, index, e + 1), entries[e])
  }

  ghost predicate ReportsCount(d: Dict, k: Key, n: nat) {
    k in d && |d[k]| == 1 && Decode(d[k]) == n
  }

  ghost predicate ReportsEntry(d: Dict, k: Key, e: Entry) {
    k in d && |d[k]| == 4 && Decode(d[k]) == EntryValue(e)
  }

  lemma ReportedEntry(d: Dict, k: Key, e: Entry)
    requires ReportsEntry(d, k, e)
    ensures Get(d, k, 4) == EntryValue(e) && EntryOf(EntryValue(e)) == e
  {
    EntryRoundTrip(e, 0);
  }

  /** What `Reports` says is what reading the device back yields. */
  lemma ReportsMeansReadPdo(d: Dict, position: uint16, index: uint16, entries: seq<Entry>)
    requires Reports(d, position, index, entries)
    ensures ReadPdo(d, position, index) == entries
  {
    assert Get(d, Key(position, index, 0), 1) == |entries|;
    Pow256Table();
    hide Get, EntryOf, EntryValue, Decode, ReportsEntry, Pow256;
    forall e | 0 <= e < |entries|
      ensures ReadPdo(d, position, index)[e] == entries[e]
    {
      ReportedEntry(d, Key(position, index, e + 1), entries[e]);
    }
  }

  /** What discovery asks of one mapping object: a count of one byte, and that many entries of four bytes, none
      of zero length. */
  ghost predicate Acceptable(d: Dict, position: uint16, index: uint16) {
    Pow256Table();
    var k := Key(position, index, 0);
    k in d && |d[k]| == 1 && forall e | 0 <= e < Get(d, k, 1) :: AcceptableEntry(d, position, index, e)
  }

  ghost predicate AcceptableEntry(d: Dict, position: uint16, index: uint16, e: nat)
    requires e < 255
  {
    Pow256Table();
    var k := Key(position, index, e + 1);
    k in d && |d[k]| == 4 && EntryOf(Get(d, k, 4)).bits > 0
  }

  /** The entries of a list once the empty mappings among its first n are resolved. */
  ghost function Wanted(d: Dict, position: uint16, mappings: seq<Mapping>, n: nat): nat
    requires n <= |mappings|
  {
    if n == 0 then Total(mappings)
    else
      Wanted(d, position, mappings, n - 1) +
      if mappings[n - 1].entries == [] then Get(d, Key(position, mappings[n - 1].index, 0), 1) else 0
  }

  lemma {:induction false} WantedGrows(d: Dict, position: uint16, mappings: seq<Mapping>, n: nat, n': nat)
    requires n <= n' <= |mappings|
    ensures Wanted(d, position, mappings, n) <= Wanted(d, position, mappings, n')
  {
    if n < n' {
      WantedGrows(d, position, mappings, n, n' - 1);
    }
  }

  ghost predicate AcceptableTo(d: Dict, position: uint16, mappings: seq<Mapping>, n: nat)
    requires n <= |mappings|
  {
    forall p | 0 <= p < n && mappings[p].entries == [] :: Acceptable(d, position, mappings[p].index)
  }

  ghost predicate AcceptableList(d: Dict, position: uint16, mappings: seq<Mapping>, limit: nat) {
    AcceptableTo(d, position, mappings, |mappings|) && Wanted(d, position, mappings, |mappings|) <= limit
  }

  ghost predicate AcceptableSlave(d: Dict, slave: Source, limits: Limits) {
    AcceptableList(d, slave.id, slave.rx, limits.outputs) && AcceptableList(d, slave.id, slave.tx, limits.inputs)
  }

  // ---------- guarded uploads ----------

  /** Every accepted upload of the trace agrees with the dictionary of the devices. */
  ghost predicate AnswersFrom(d: Dict, t: seq<Event>) {
    forall i | 0 <= i < |t| && t[i].Upload? && t[i].rc == 0 :: t[i].key in d && d[t[i].key] == t[i].data
  }

  /** Every check passed, and every SDO call was accepted. */
  ghost predicate Healthy(t: seq<Event>, deadline: int) {
    forall i | 0 <= i < |t| ::
      match t[i]
      case Clock(time) => time.Some? && time.value < deadline
      case State(_, rc, al, flag) => rc == 0 && al == 2 && flag == 0
      case Upload(_, rc, _) => rc == 0
      case _ => true
  }

  /** A healthy run whose answers are those of passive devices. */
  ghost predicate Serving(hasMaster: bool, t: seq<Event>, deadline: int, d: Dict) {
    hasMaster && Healthy(t, deadline) && AnswersFrom(d, t)
  }

  lemma NotHealthy(t: seq<Event>, deadline: int)
    requires t != []
    ensures var e := t[|t| - 1];
      && (e.Clock? && (e.time.None? || e.time.value >= deadline) ==> !Healthy(t, deadline))
      && (e.State? && (e.rc != 0 || e.al != 2 || e.errorFlag != 0) ==> !Healthy(t, deadline))
  {
  }

  /** The time was before the deadline, and then the slave in error-free PREOP. */
  ghost predicate Cleared(clock: Event, state: Event, position: uint16, deadline: int) {
    && clock.Clock? && clock.time.Some? && clock.time.value < deadline
    && state == State(position, 0, 2, 0)
  }

  /** Every SDO call is an upload, right after a check of time and state. */
  ghost predicate Guarded(t: seq<Event>, deadline: int) {
    forall i | 0 <= i < |t| && t[i].Sdo() ::
      t[i].Upload? && i >= 2 && Cleared(t[i - 2], t[i - 1], t[i].key.position, deadline)
  }

  /** Every SDO call was checked again right after it. */
  ghost predicate Confirmed(t: seq<Event>, deadline: int) {
    forall i | 0 <= i < |t| && t[i].Sdo() ::
      i + 2 < |t| && Cleared(t[i + 1], t[i + 2], t[i].SdoKey().position, deadline)
  }

  lemma GuardedSnoc(t: seq<Event>, deadline: int, e: Event)
    requires Guarded(t, deadline)
    requires e.Sdo() ==> e.Upload? && |t| >= 2 && Cleared(t[|t| - 2], t[|t| - 1], e.key.position, deadline)
    ensures Guarded(t + [e], deadline)
  {
    assert forall i | 0 <= i < |t| :: (t + [e])[i] == t[i];
  }

  lemma ConfirmedRead(t: seq<Event>, deadline: int, c0: Event, s0: Event, u: Event, c1: Event, s1: Event)
    requires Confirmed(t, deadline) && u.Upload? && !c0.Sdo() && !s0.Sdo() && Cleared(c1, s1, u.key.position, deadline)
    ensures Confirmed(t + [c0, s0, u, c1, s1], deadline)
  {
    var r := t + [c0, s0, u, c1, s1];
    assert forall i | 0 <= i < |t| :: r[i] == t[i];
  }

  lemma ConfirmedSnoc(t: seq<Event>, deadline: int, e: Event)
    requires Confirmed(t, deadline) && !e.Sdo()
    ensures Confirmed(t + [e], deadline)
  {
    assert forall i | 0 <= i < |t| :: (t + [e])[i] == t[i];
  }

  lemma AnswersKept(d: Dict, t: seq<Event>, n: nat)
    requires n <= |t| && AnswersFrom(d, t)
    ensures AnswersFrom(d, t[..n])
  {
  }

  /** One check; the clock comes first. */
  method Guard(bus: Bus.Master, hasMaster: bool, position: uint16, deadline: int) returns (ok: bool)
    requires Guarded(bus.trace, deadline)
    modifies bus
    ensures Guarded(bus.trace, deadline) && old(bus.trace) <= bus.trace
    ensures ok ==> hasMaster && |bus.trace| == |old(bus.trace)| + 2
    ensures ok ==> Cleared(bus.trace[|bus.trace| - 2], bus.trace[|bus.trace| - 1], position, deadline)
    ensures !ok ==> !hasMaster || !Healthy(bus.trace, deadline)
    ensures Sdos(bus.trace) == Sdos(old(bus.trace))
  {
    hide Guarded, Healthy, Sdos;
    if !hasMaster {
      return false;
    }
    var time := bus.Monotonic();
    NotHealthy(bus.trace, deadline);
    GuardedSnoc(old(bus.trace), deadline, Clock(time));
    SdosSnoc(old(bus.trace), Clock(time));
    if time.None? || time.value >= deadline {
      return false;
    }
    ghost var before := bus.trace;
    var rc, al, flag := bus.GetSlave(position);
    GuardedSnoc(before, deadline, State(position, rc, al, flag));
    SdosSnoc(before, State(position, rc, al, flag));
    NotHealthy(bus.trace, deadline);
    ok := rc == 0 && al == AL_PREOP && flag == 0;
  }

  /** One guarded upload of the expected size, decoded. `d` is any dictionary the answers may come from. */
  method Upload(bus: Bus.Master, hasMaster: bool, key: Key, size: nat, deadline: int, ghost d: Dict)
    returns (ok: bool, value: nat, ghost data: seq<uint8>)
    requires Guarded(bus.trace, deadline) && Confirmed(bus.trace, deadline)
    modifies bus
    ensures ok ==> Sdos(bus.trace) == Sdos(old(bus.trace)) + [Protocol.Upload(key, 0, data)] && |data| == size && Decode(data) == value
    ensures Guarded(bus.trace, deadline) && old(bus.trace) <= bus.trace
    ensures ok ==> Confirmed(bus.trace, deadline) && value < Pow256(size)
    ensures ok && AnswersFrom(d, bus.trace) ==> key in d && |d[key]| == size && Decode(d[key]) == value
    ensures !ok && Serving(hasMaster, bus.trace, deadline, d) ==> key in d && |d[key]| != size
  {
    hide Guarded, Confirmed, Cleared, Healthy, Sdos;
    value, data := 0, [];
    ghost var t := bus.trace;
    ok := Guard(bus, hasMaster, key.position, deadline);
    if !ok {
      return;
    }
    ghost var before := bus.trace;
    var rc, bytes := bus.SdoUpload(key);
    data := bytes;
    GuardedSnoc(before, deadline, Protocol.Upload(key, rc, bytes));
    SdosSnoc(before, Protocol.Upload(key, rc, bytes));
    ghost var at := |before|;
    ok := Guard(bus, hasMaster, key.position, deadline);  // how long the upload took shows only here
    assert bus.trace[at] == Protocol.Upload(key, rc, data);
    if !ok || rc != 0 || |bytes| != size {
      if ok {
        RefusedRead(bus.trace, at, deadline, d);
      }
      return false, 0, data;
    }
    value := Unpack(bytes);
    DecodeBound(data);
    assert bus.trace[at] == Protocol.Upload(key, 0, data);
    assert bus.trace == t + [bus.trace[at - 2], bus.trace[at - 1], bus.trace[at], bus.trace[at + 1], bus.trace[at + 2]];
    ReadConfirms(t, bus.trace, deadline);
  }

  lemma RefusedRead(t: seq<Event>, at: nat, deadline: int, d: Dict)
    requires at < |t| && t[at].Upload?
    ensures t[at].rc != 0 ==> !Healthy(t, deadline)
    ensures t[at].rc == 0 && AnswersFrom(d, t) ==> t[at].key in d && d[t[at].key] == t[at].data
  {
  }

  lemma ReadConfirms(t: seq<Event>, r: seq<Event>, deadline: int)
    requires Confirmed(t, deadline) && |r| == |t| + 5
    requires r == t + [r[|t|], r[|t| + 1], r[|t| + 2], r[|t| + 3], r[|t| + 4]]
    requires r[|t| + 2].Upload? && Cleared(r[|t|], r[|t| + 1], r[|t| + 2].key.position, deadline)
    requires Cleared(r[|t| + 3], r[|t| + 4], r[|t| + 2].key.position, deadline)
    ensures Confirmed(r, deadline)
  {
    ConfirmedRead(t, deadline, r[|t|], r[|t| + 1], r[|t| + 2], r[|t| + 3], r[|t| + 4]);
  }

  // ---------- discovery ----------

  function HexDigit(n: nat): char {
    if n < 10 then ('0' as int + n) as char else if n < 16 then ('A' as int + n - 10) as char else '0'
  }

  function Decimal(n: nat): string {
    (if n >= 100 then [HexDigit(n / 100 % 10)] else "") + [HexDigit(n / 10 % 10), HexDigit(n % 10)]
  }

  function DefaultName(rx: bool, index: uint16, sub: nat): string {
    (if rx then "RxPDO_" else "TxPDO_") +
    [HexDigit(index / 0x1000), HexDigit(index / 0x100 % 16), HexDigit(index / 0x10 % 16), HexDigit(index % 16), '_'] +
    Decimal(sub)
  }

  lemma DigitsDiffer(n: nat, m: nat)
    requires n < 16 && m < 16
    ensures HexDigit(n) == HexDigit(m) ==> n == m
  {
  }

  lemma DecimalDigits(n: nat)
    requires n < 1000
    ensures n == 100 * (n / 100 % 10) + 10 * (n / 10 % 10) + n % 10 && (n < 100 ==> n / 100 % 10 == 0)
    ensures var d := Decimal(n);
      && |d| == (if n < 100 then 2 else 3) && d[|d| - 1] == HexDigit(n % 10) && d[|d| - 2] == HexDigit(n / 10 % 10)
      && (n >= 100 ==> d[0] == HexDigit(n / 100 % 10))
  {
    hide HexDigit;
  }

  lemma DecimalsDiffer(n: nat, m: nat)
    requires n < 1000 && m < 1000
    ensures Decimal(n) == Decimal(m) ==> n == m
  {
    DecimalDigits(n);
    DecimalDigits(m);
    hide HexDigit, Decimal;
    DigitsDiffer(n % 10, m % 10);
    DigitsDiffer(n / 10 % 10, m / 10 % 10);
    DigitsDiffer(n / 100 % 10, m / 100 % 10);
  }

  lemma HexDigits(index: uint16)
    ensures index == 0x1000 * (index / 0x1000) + 0x100 * (index / 0x100 % 16) + 0x10 * (index / 0x10 % 16) + index % 16
    ensures index / 0x1000 < 16
  {
  }

  lemma DefaultNameIs(rx: bool, index: uint16, sub: nat)
    ensures var name := DefaultName(rx, index, sub);
      && |name| >= 11 && name[0] == (if rx then 'R' else 'T') && name[6] == HexDigit(index / 0x1000)
      && name[7] == HexDigit(index / 0x100 % 16) && name[8] == HexDigit(index / 0x10 % 16) && name[9] == HexDigit(index % 16)
      && name[11..] == Decimal(sub)
  {
    hide HexDigit, Decimal;
  }

  /** The default name of an entry tells direction, PDO and subindex, so that no two entries of a slave share one. */
  lemma DefaultNamesDiffer(rx: bool, index: uint16, sub: nat, rx': bool, index': uint16, sub': nat)
    requires sub < 1000 && sub' < 1000 && DefaultName(rx, index, sub) == DefaultName(rx', index', sub')
    ensures rx == rx' && index == index' && sub == sub'
  {
    DefaultNameIs(rx, index, sub);
    DefaultNameIs(rx', index', sub');
    HexDigits(index);
    HexDigits(index');
    hide HexDigit, Decimal, DefaultName;
    DigitsDiffer(index / 0x1000, index' / 0x1000);
    DigitsDiffer(index / 0x100 % 16, index' / 0x100 % 16);
    DigitsDiffer(index / 0x10 % 16, index' / 0x10 % 16);
    DigitsDiffer(index % 16, index' % 16);
    DecimalsDiffer(sub, sub');
  }

  lemma DefaultNameExample()
    ensures DefaultName(true, 0x1600, 1) == "RxPDO_1600_01" && DefaultName(false, 0x1A03, 128) == "TxPDO_1A03_128"
  {
  }

  /** A mapping after discovery: kept if it had entries, otherwise what the device reports, none of it empty. */
  ghost predicate ResolvedMapping(d: Dict, position: uint16, before: Mapping, after: Mapping) {
    && after.index == before.index
    && (if before.entries != [] then after == before
        else
          && Reports(d, position, before.index, EntriesOf(after.entries))
          && forall e | e in after.entries :: e.entry.bits > 0)
  }

  ghost predicate ResolvedList(d: Dict, position: uint16, before: seq<Mapping>, after: seq<Mapping>) {
    |after| == |before| && forall p | 0 <= p < |before| :: ResolvedMapping(d, position, before[p], after[p])
  }

  ghost predicate ResolvedSlave(d: Dict, before: Source, after: Source, limits: Limits) {
    && after == before.(rx := after.rx, tx := after.tx)
    && ResolvedList(d, before.id, before.rx, after.rx) && ResolvedList(d, before.id, before.tx, after.tx)
    && Total(after.rx) <= limits.outputs && Total(after.tx) <= limits.inputs
  }

  predicate HasEmpty(mappings: seq<Mapping>) {
    exists p | 0 <= p < |mappings| :: mappings[p].entries == []
  }

  /** One read of four bytes per entry, in order, each with the word of its entry. */
  ghost predicate EntriesRead(answers: seq<Event>, position: uint16, index: uint16, entries: seq<NamedEntry>) {
    && |answers| == |entries| <= 255
    && forall e | 0 <= e < |answers| ::
         && answers[e].Upload? && answers[e].key == Key(position, index, e + 1) && answers[e].rc == 0
         && |answers[e].data| == 4 && Decode(answers[e].data) == EntryValue(entries[e].entry)
  }

  /** Reads count, entries and count again; whatever the device does meanwhile, the result is exactly what these answers
      say, with both counts equal. */
  method DiscoverPdo(bus: Bus.Master, hasMaster: bool, position: uint16, rx: bool, mapping: Mapping, room: int,
                     deadline: int, ghost d: Dict)
    returns (ok: bool, resolved: Mapping, ghost counts: (seq<uint8>, seq<uint8>), ghost answers: seq<Event>)
    requires Guarded(bus.trace, deadline) && Confirmed(bus.trace, deadline) && mapping.entries == []
    modifies bus
    ensures Guarded(bus.trace, deadline) && old(bus.trace) <= bus.trace
    ensures ok ==> Confirmed(bus.trace, deadline) && |resolved.entries| <= room && resolved.index == mapping.index
    ensures ok ==>
      var k := Key(position, mapping.index, 0);
      && Sdos(bus.trace) == Sdos(old(bus.trace)) + [Protocol.Upload(k, 0, counts.0)] + answers + [Protocol.Upload(k, 0, counts.1)]
      && |counts.0| == |counts.1| == 1 && Decode(counts.0) == Decode(counts.1) == |resolved.entries|
      && EntriesRead(answers, position, mapping.index, resolved.entries)
      && forall e | 0 <= e < |resolved.entries| :: resolved.entries[e].name == DefaultName(rx, mapping.index, e + 1)
    ensures ok && AnswersFrom(d, bus.trace) ==> ResolvedMapping(d, position, mapping, resolved)
    ensures Serving(hasMaster, bus.trace, deadline, d) ==>
      (ok <==> Acceptable(d, position, mapping.index) && Get(d, Key(position, mapping.index, 0), 1) <= room)
  {
    hide Guarded, Confirmed, AnswersFrom, Decode, DefaultName, Healthy, Sdos;
    resolved, answers := mapping, [];
    Pow256Table();
    var count;
    ghost var zeroth, data;
    ok, count, zeroth := Upload(bus, hasMaster, Key(position, mapping.index, 0), 1, deadline, d);
    counts := (zeroth, zeroth);
    if !ok || count > room {
      return false, resolved, counts, answers;
    }
    ghost var first := bus.trace;
    var entries: seq<NamedEntry> := [];
    for sub := 1 to count + 1
      invariant forall e | 0 <= e < |entries| :: entries[e].name == DefaultName(rx, mapping.index, e + 1)
      invariant |entries| == sub - 1 && EntriesRead(answers, position, mapping.index, entries)
      invariant Sdos(bus.trace) == Sdos(old(bus.trace)) + [Protocol.Upload(Key(position, mapping.index, 0), 0, zeroth)] + answers
      invariant Guarded(bus.trace, deadline) && Confirmed(bus.trace, deadline) && first <= bus.trace
      invariant forall e | 0 <= e < |entries| :: entries[e].entry.bits > 0
      invariant AnswersFrom(d, bus.trace) ==> forall e | 0 <= e < |entries| ::
        ReportsEntry(d, Key(position, mapping.index, e + 1), entries[e].entry)
    {
      ghost var before := bus.trace;
      var value;
      ok, value, data := Upload(bus, hasMaster, Key(position, mapping.index, sub), 4, deadline, d);
      AnswersBefore(d, first, bus.trace);
      EntryRefused(d, position, mapping.index, count, sub - 1);
      if !ok {
        return;
      }
      var entry := Entry(value / 0x1_0000, value / 0x100 % 0x100, value % 0x100);
      assert entry == EntryOf(value);
      if entry.bits == 0 {
        return false, resolved, counts, answers;
      }
      EntryRoundTrip(entry, value);
      AnswersBefore(d, before, bus.trace);
      answers := answers + [Protocol.Upload(Key(position, mapping.index, sub), 0, data)];
      entries := entries + [NamedEntry(DefaultName(rx, mapping.index, sub), entry)];
    }
    ghost var read := bus.trace;
    // the entries only count if there are as many after reading them as before
    var again;
    ok, again, data := Upload(bus, hasMaster, Key(position, mapping.index, 0), 1, deadline, d);
    AnswersBefore(d, first, bus.trace);
    AnswersBefore(d, read, bus.trace);
    if !ok || again != count {
      return false, resolved, counts, answers;
    }
    counts := (zeroth, data);
    resolved := mapping.(entries := entries);
    ResolvedCount(d, position, mapping, resolved);
  }

  lemma EntryRefused(d: Dict, position: uint16, index: uint16, count: nat, e: nat)
    requires e < count < 256
    ensures var k, k0 := Key(position, index, e + 1), Key(position, index, 0);
      k0 in d && |d[k0]| == 1 && Decode(d[k0]) == count ==>
        && (k in d && |d[k]| != 4 ==> !Acceptable(d, position, index))
        && (k in d && |d[k]| == 4 && Decode(d[k]) < 0x1_0000_0000 && EntryOf(Decode(d[k])).bits == 0 ==>
              !Acceptable(d, position, index))
  {
    Pow256Table();
    hide Decode;
    if Acceptable(d, position, index) && Get(d, Key(position, index, 0), 1) == count {
      assert AcceptableEntry(d, position, index, e);
    }
  }

  lemma AnswersBefore(d: Dict, before: seq<Event>, after: seq<Event>)
    requires before <= after
    ensures AnswersFrom(d, after) ==> AnswersFrom(d, before)
  {
    if AnswersFrom(d, after) {
      AnswersKept(d, after, |before|);
    }
  }

  method DiscoverList(bus: Bus.Master, hasMaster: bool, position: uint16, rx: bool, mappings: seq<Mapping>, limit: nat,
                      deadline: int, ghost d: Dict) returns (ok: bool, resolved: seq<Mapping>, discovered: bool)
    requires Guarded(bus.trace, deadline) && Confirmed(bus.trace, deadline)
    modifies bus
    ensures Guarded(bus.trace, deadline) && old(bus.trace) <= bus.trace
    ensures ok ==> Confirmed(bus.trace, deadline) && Total(resolved) <= limit
    ensures ok ==> (discovered <==> HasEmpty(mappings)) && (!discovered ==> resolved == mappings)
    ensures ok && AnswersFrom(d, bus.trace) ==> ResolvedList(d, position, mappings, resolved)
    ensures Serving(hasMaster, bus.trace, deadline, d) ==> (ok <==> AcceptableList(d, position, mappings, limit))
  {
    hide Guarded, Confirmed, AnswersFrom, Healthy, Reports, Total, Acceptable, AcceptableTo, Wanted, ResolvedMapping, Get;
    WantedBegins(d, position, mappings);
    resolved, discovered := mappings, false;
    var total := CountEntries(mappings);
    if total > limit {
      return false, resolved, discovered;
    }
    for p := 0 to |mappings|
      invariant |resolved| == |mappings| && resolved[p..] == mappings[p..] && total == Total(resolved) <= limit
      invariant Guarded(bus.trace, deadline) && Confirmed(bus.trace, deadline) && old(bus.trace) <= bus.trace
      invariant discovered <==> exists k | 0 <= k < p :: mappings[k].entries == []
      invariant !discovered ==> resolved == mappings
      invariant AnswersFrom(d, bus.trace) ==> forall k | 0 <= k < p :: ResolvedMapping(d, position, mappings[k], resolved[k])
      invariant AnswersFrom(d, bus.trace) ==> AcceptableTo(d, position, mappings, p) && total == Wanted(d, position, mappings, p)
    {
      assert resolved[p] == mappings[p];
      WantedNext(d, position, mappings, p);
      KeptMapping(d, position, mappings[p]);
      if mappings[p].entries != [] {
        continue;
      }
      ghost var before := bus.trace;
      var m;
      ghost var counts, answers;
      ok, m, counts, answers := DiscoverPdo(bus, hasMaster, position, rx, mappings[p], limit - total, deadline, d);
      AnswersBefore(d, before, bus.trace);
      if !ok {
        return;
      }
      ResolvedCount(d, position, mappings[p], m);
      TotalUpdate(resolved, p, m);
      total := total + |m.entries|;
      resolved := resolved[p := m];
      discovered := true;
    }
    ok := true;
  }

  lemma WantedBegins(d: Dict, position: uint16, mappings: seq<Mapping>)
    ensures Wanted(d, position, mappings, 0) == Total(mappings) && AcceptableTo(d, position, mappings, 0)
    ensures Wanted(d, position, mappings, |mappings|) >= Total(mappings)
  {
    WantedGrows(d, position, mappings, 0, |mappings|);
  }

  lemma WantedNext(d: Dict, position: uint16, mappings: seq<Mapping>, p: nat)
    requires p < |mappings|
    ensures Wanted(d, position, mappings, p + 1) ==
            Wanted(d, position, mappings, p) +
            if mappings[p].entries == [] then Get(d, Key(position, mappings[p].index, 0), 1) else 0
    ensures Wanted(d, position, mappings, p + 1) <= Wanted(d, position, mappings, |mappings|)
    ensures var here := mappings[p].entries == [] ==> Acceptable(d, position, mappings[p].index);
      && (AcceptableTo(d, position, mappings, p + 1) <==> AcceptableTo(d, position, mappings, p) && here)
      && (AcceptableTo(d, position, mappings, |mappings|) ==> here)
  {
    hide Acceptable, Get;
    WantedGrows(d, position, mappings, p + 1, |mappings|);
  }

  lemma KeptMapping(d: Dict, position: uint16, m: Mapping)
    ensures m.entries != [] ==> ResolvedMapping(d, position, m, m)
  {
  }

  /** What was resolved was acceptable. */
  lemma ResolvedCount(d: Dict, position: uint16, before: Mapping, after: Mapping)
    requires before.entries == []
    ensures ResolvedMapping(d, position, before, after) ==>
      Get(d, Key(position, before.index, 0), 1) == |after.entries| && Acceptable(d, position, before.index)
  {
    if ResolvedMapping(d, position, before, after) {
      var entries := EntriesOf(after.entries);
      forall e | 0 <= e < |entries| ensures AcceptableEntry(d, position, before.index, e) {
        Pow256Table();
        assert ReportsEntry(d, Key(position, before.index, e + 1), entries[e]);
        ReportedEntry(d, Key(position, before.index, e + 1), entries[e]);
        assert after.entries[e] in after.entries;
      }
    }
  }

  /** One attempt to write the configuration file; a failed one leaves the file alone. */
  datatype Writing = Writing(resolved: seq<Source>, ok: bool)

  class Store {
    ghost var log: seq<Writing>

    constructor ()
      ensures log == []
    {
      log := [];
    }

    method Save(resolved: seq<Source>) returns (ok: bool)
      modifies this
      ensures log == old(log) + [Writing(resolved, ok)]
    {
      ok := *;
      log := log + [Writing(resolved, ok)];
    }
  }

  predicate AnyEmpty(config: seq<Source>, n: nat)
    requires n <= |config|
  {
    exists s | 0 <= s < n :: HasEmpty(config[s].rx) || HasEmpty(config[s].tx)
  }

  ghost predicate AcceptableAll(d: Dict, config: seq<Source>, limits: Limits, n: nat)
    requires n <= |config|
  {
    forall s | 0 <= s < n :: AcceptableSlave(d, config[s], limits)
  }

  ghost predicate ResolvedAll(d: Dict, before: seq<Source>, after: seq<Source>, limits: Limits, n: nat) {
    n <= |before| == |after| && forall s | 0 <= s < n :: ResolvedSlave(d, before[s], after[s], limits)
  }

  /** Resolves every empty mapping of the configuration and writes the file, or changes neither. On a healthy bus
      of passive devices it resolves them exactly if every mapping read is acceptable and the lists stay within
      the limits; then only the file can still refuse. */
  method Discover(bus: Bus.Master, hasMaster: bool, store: Store, config: seq<Source>, limits: Limits, deadline: int,
                  ghost d: Dict) returns (ok: bool, resolved: seq<Source>)
    requires bus.trace == []
    modifies bus, store
    ensures Guarded(bus.trace, deadline)
    ensures ok ==> store.log == old(store.log) + if AnyEmpty(config, |config|) then [Writing(resolved, true)] else []
    ensures ok ==> Confirmed(bus.trace, deadline) && (AnyEmpty(config, |config|) || resolved == config)
    ensures !ok ==> resolved == config
    ensures !ok ==> store.log == old(store.log) || exists r :: store.log == old(store.log) + [Writing(r, false)]
    ensures ok && AnswersFrom(d, bus.trace) ==> ResolvedAll(d, config, resolved, limits, |config|)
    ensures Serving(hasMaster, bus.trace, deadline, d) ==>
      (ok || store.log != old(store.log) <==> AcceptableAll(d, config, limits, |config|))
  {
    hide Guarded, Confirmed, AnswersFrom, Healthy, ResolvedList, HasEmpty, Total, AcceptableList, AnyEmpty, AcceptableAll;
    resolved := config;
    var discovered := false;
    NothingRead(deadline);
    NoneYet(d, config, limits);
    for s := 0 to |config|
      invariant |resolved| == |config| && resolved[s..] == config[s..]
      invariant Guarded(bus.trace, deadline) && Confirmed(bus.trace, deadline)
      invariant AnswersFrom(d, bus.trace) ==> ResolvedAll(d, config, resolved, limits, s)
      invariant Serving(hasMaster, bus.trace, deadline, d) ==> AcceptableAll(d, config, limits, s)
      invariant (!discovered ==> resolved == config) && (discovered <==> AnyEmpty(config, s))
      invariant store.log == old(store.log)
    {
      assert resolved[s] == config[s];
      OneMore(d, config, limits, s);
      ghost var before := bus.trace;
      var rx, tx, inRx, inTx;
      ok, rx, inRx := DiscoverList(bus, hasMaster, config[s].id, true, config[s].rx, limits.outputs, deadline, d);
      if !ok {
        return false, config;
      }
      ghost var middle := bus.trace;
      ok, tx, inTx := DiscoverList(bus, hasMaster, config[s].id, false, config[s].tx, limits.inputs, deadline, d);
      if !ok {
        return false, config;
      }
      discovered := discovered || inRx || inTx;
      AnswersBefore(d, before, bus.trace);
      AnswersBefore(d, middle, bus.trace);
      ServingBack(hasMaster, before, bus.trace, deadline, d);
      ServingBack(hasMaster, middle, bus.trace, deadline, d);
      ResolvedNext(d, config, resolved, limits, s, config[s].(rx := rx, tx := tx));
      resolved := resolved[s := config[s].(rx := rx, tx := tx)];
    }
    if !discovered {
      return true, config;
    }
    ghost var read := bus.trace;
    var time := bus.Monotonic();
    GuardedSnoc(read, deadline, Clock(time));
    ConfirmedSnoc(read, deadline, Clock(time));
    AnswersBefore(d, read, bus.trace);
    ServingBack(hasMaster, read, bus.trace, deadline, d);
    NotHealthy(bus.trace, deadline);
    if time.None? || time.value >= deadline {
      return false, config;
    }
    ok := store.Save(resolved);
    if !ok {
      resolved := config;
    }
  }

  lemma ServingBack(hasMaster: bool, before: seq<Event>, after: seq<Event>, deadline: int, d: Dict)
    requires before <= after
    ensures Serving(hasMaster, after, deadline, d) ==> Serving(hasMaster, before, deadline, d)
  {
    if Serving(hasMaster, after, deadline, d) {
      assert forall i | 0 <= i < |before| :: before[i] == after[i];
    }
  }

  lemma NoneYet(d: Dict, config: seq<Source>, limits: Limits)
    ensures AcceptableAll(d, config, limits, 0) && !AnyEmpty(config, 0)
  {
  }

  lemma OneMore(d: Dict, config: seq<Source>, limits: Limits, s: nat)
    requires s < |config|
    ensures AnyEmpty(config, s + 1) <==> AnyEmpty(config, s) || HasEmpty(config[s].rx) || HasEmpty(config[s].tx)
    ensures AcceptableAll(d, config, limits, s + 1) <==>
      AcceptableAll(d, config, limits, s) && AcceptableSlave(d, config[s], limits)
    ensures AcceptableAll(d, config, limits, |config|) ==> AcceptableSlave(d, config[s], limits)
  {
    hide AcceptableSlave, HasEmpty;
  }

  lemma ResolvedNext(d: Dict, before: seq<Source>, after: seq<Source>, limits: Limits, s: nat, slave: Source)
    requires s < |before| == |after|
    ensures ResolvedAll(d, before, after, limits, s) && ResolvedSlave(d, before[s], slave, limits) ==>
      ResolvedAll(d, before, after[s := slave], limits, s + 1)
  {
    hide ResolvedSlave;
  }

  lemma NothingRead(deadline: int)
    ensures Guarded([], deadline) && Confirmed([], deadline)
  {
  }
}
