/** The preflight over one slave: which mappings may be kept, and what it costs to find out. */
module PreopPreflight {
  import opened Bytes
  import opened PdoConfig
  import opened Protocol
  import opened PreopPhases
  import opened PreopCalls

  ghost predicate GroupProbed(checks: seq<Check>, head: nat, probed: Dict) {
    forall j | InGroup(checks, head, j) :: HasValue(probed, checks[j])
  }

  /** Reads of one mapping group leave what is known of other objects alone. */
  ghost predicate ProbedOnly(checks: seq<Check>, head: nat, before: Dict, after: Dict) {
    forall k: Key | (forall j | InGroup(checks, head, j) :: KeyOf(checks[j]) != k) ::
      (k in before <==> k in after) && (k in before ==> before[k] == after[k])
  }

  lemma GroupFits(checks: seq<Check>, head: nat)
    requires WellFormed(checks) && head < |checks| && checks[head].field == MappingCount
    ensures head + checks[head].expected < |checks|
  {
    assert CheckOk(checks, head);
  }

  lemma GroupMember(job: Job, p: Progress, head: nat, j: nat)
    requires WellFormed(job.checks) && InBlock(job, p, head) && InGroup(job.checks, head, j)
    ensures InBlock(job, p, j) && CheckOk(job.checks, j)
    ensures forall i | head <= i < j :: KeyOf(job.checks[i]) != KeyOf(job.checks[j])
  {
    assert CheckOk(job.checks, head) && CheckOk(job.checks, j);
    if j > head {
      assert EntryOfGroup(job.checks[j], job.checks[head], j - head);
      forall i | head < i < j ensures KeyOf(job.checks[i]) != KeyOf(job.checks[j]) {
        assert EntryOfGroup(job.checks[i], job.checks[head], i - head);
      }
    }
  }

  /** Inside a probe, after j - head matching objects. */
  ghost predicate Probing(checks: seq<Check>, head: nat, j: nat, m: Monitor, m': Monitor)
    requires head <= j <= |checks|
  {
    && Within(m, m', j - head)
    && m'.device.dict == m.device.dict && m'.ledger.written == m.ledger.written
    && ProbedOnly(checks, head, m.ledger.probed, m'.ledger.probed)
    && (forall i | head <= i < j :: HasValue(m'.ledger.probed, checks[i]))
    && (m'.device.honest ==> forall i | head <= i < j :: HasValue(m'.device.dict, checks[i]))
  }

  /** The outcome of a probe: at most the group was read, and on a healthy passive bus it only fails on an
      object of the wrong size. */
  ghost predicate Probed(job: Job, head: nat, m: Monitor, m': Monitor, pending: bool, matches: bool)
    requires head < |job.checks|
  {
    && Within(m, m', job.checks[head].expected + 1)
    && m'.device.dict == m.device.dict
    && (pending ==> m'.ledger.written == m.ledger.written)
    && (pending ==> ProbedOnly(job.checks, head, m.ledger.probed, m'.ledger.probed))
    && (pending && matches ==> GroupProbed(job.checks, head, m'.ledger.probed))
    && (pending && !matches ==> Mismatched(job, m'.ledger, head))
    && (m'.Healthy() && m'.device.honest ==> (pending <==> Readable(m'.device.dict, job.checks, head)))
  }

  lemma ProbeMatches(checks: seq<Check>, head: nat, j: nat, m0: Monitor, m: Monitor, m': Monitor)
    requires InGroup(checks, head, j) && forall i | head <= i < j :: KeyOf(checks[i]) != KeyOf(checks[j])
    requires Probing(checks, head, j, m0, m) && ReadOf(m, m', checks[j], Wire(checks[j]))
    ensures Probing(checks, head, j + 1, m0, m')
  {
    ProbeExtends(checks, head, j, m0.ledger.probed, m.ledger.probed, Wire(checks[j]));
    forall i | head <= i < j + 1 ensures HasValue(m'.ledger.probed, checks[i]) {
      assert i < j ==> HasValue(m.ledger.probed, checks[i]);
    }
  }

  lemma ProbeExtends(checks: seq<Check>, head: nat, j: nat, start: Dict, before: Dict, data: seq<uint8>)
    requires InGroup(checks, head, j) && ProbedOnly(checks, head, start, before)
    ensures ProbedOnly(checks, head, start, before[KeyOf(checks[j]) := data])
  {
  }

  lemma ProbeBegins(checks: seq<Check>, head: nat, m: Monitor)
    requires head <= |checks|
    ensures Probing(checks, head, head, m, m)
  {
  }

  lemma ProbeFails(job: Job, head: nat, j: nat, m0: Monitor, m: Monitor, m': Monitor, matches: bool)
    requires head <= j < |job.checks| && j <= head + job.checks[head].expected
    requires Probing(job.checks, head, j, m0, m) && ReadFailure(m, m')
    ensures Probed(job, head, m0, m', false, matches)
  {
  }

  lemma ProbeDiffers(job: Job, head: nat, j: nat, m0: Monitor, m: Monitor, m': Monitor, data: seq<uint8>, matches: bool)
    requires WellFormed(job.checks) && InGroup(job.checks, head, j) && job.checks[head].field.MappingCount?
    requires Probing(job.checks, head, j, m0, m) && ReadOf(m, m', job.checks[j], data)
    requires data != Wire(job.checks[j]) && (|data| == job.checks[j].size ==> !matches)
    ensures Probed(job, head, m0, m', |data| == job.checks[j].size, matches)
  {
    var checks := job.checks;
    assert CheckOk(checks, head);
    assert Differs(m'.ledger, checks[j]);
    if m'.device.honest {
      StopDecides(m'.device.dict, checks, head, j);
    }
  }

  lemma ProbeCompletes(job: Job, head: nat, m0: Monitor, m: Monitor)
    requires WellFormed(job.checks) && head < |job.checks| && job.checks[head].field.MappingCount?
    requires head + job.checks[head].expected < |job.checks|
    requires Probing(job.checks, head, head + job.checks[head].expected + 1, m0, m)
    ensures Probed(job, head, m0, m, true, true)
  {
    if m.device.honest {
      StopDecides(m.device.dict, job.checks, head, head + job.checks[head].expected + 1);
    }
  }

  /** Keep marks before the cursor are settled, group by whole group; after it there are none. */
  ghost predicate Screened(checks: seq<Check>, keep: seq<bool>, begin: nat, end: nat, cursor: nat)
    requires cursor <= end <= |checks| == |keep|
  {
    && (forall i | begin <= i < end && keep[i] :: i < cursor && IsMapping(checks[i]) && !IsEmptyCount(checks[i]))
    && (forall h | begin <= h < cursor && checks[h].field == MappingCount :: h + checks[h].expected < cursor)
    && (forall i | begin <= i < cursor && checks[i].field == MappingEntry ::
          begin + checks[i].sub <= i && keep[i] == keep[i - checks[i].sub])
  }

  /** Kept checks were read as expected; every other non-empty mapping showed a difference. */
  ghost predicate Evidenced(job: Job, l: Ledger, keep: seq<bool>, begin: nat, cursor: nat)
    requires cursor <= |job.checks| == |keep|
  {
    && (forall i | begin <= i < cursor && keep[i] :: HasValue(l.probed, job.checks[i]))
    && (forall h | begin <= h < cursor && job.checks[h].field == MappingCount && Writable(job.checks[h], keep[h]) ::
          Mismatched(job, l, h))
  }

  /** The block being configured. */
  ghost predicate IsBlock(checks: seq<Check>, begin: nat, end: nat) {
    && begin < |checks| && end == BlockEnd(checks, begin)
    && (begin > 0 ==> checks[begin - 1].slave < checks[begin].slave)
  }

  lemma BlockPosition(checks: seq<Check>, begin: nat, end: nat, cursor: nat)
    requires WellFormed(checks) && IsBlock(checks, begin, end) && begin <= cursor < end <= |checks|
    ensures checks[cursor].position == checks[begin].position
  {
  }

  lemma InThisBlock(job: Job, p: Progress, begin: nat, end: nat, cursor: nat)
    requires IsBlock(job.checks, begin, end) && begin <= cursor < end && p.current == begin
    ensures InBlock(job, p, cursor)
  {
  }

  lemma BlockRange(checks: seq<Check>, begin: nat, end: nat)
    requires IsBlock(checks, begin, end)
    ensures begin < end <= |checks|
  {
  }

  /** A cursor that jumps over whole groups never rests on an entry. */
  lemma NotOnEntry(checks: seq<Check>, keep: seq<bool>, begin: nat, end: nat, cursor: nat)
    requires WellFormed(checks) && IsBlock(checks, begin, end) && begin <= cursor < end && |keep| == |checks|
    requires Screened(checks, keep, begin, end, cursor)
    ensures checks[cursor].field != MappingEntry
  {
    assert CheckOk(checks, cursor);
  }

  lemma ScreenSkips(checks: seq<Check>, keep: seq<bool>, begin: nat, end: nat, cursor: nat)
    requires WellFormed(checks) && IsBlock(checks, begin, end) && begin <= cursor < end && |keep| == |checks|
    requires Screened(checks, keep, begin, end, cursor)
    requires checks[cursor].field != MappingCount || checks[cursor].expected == 0
    ensures Screened(checks, keep, begin, end, cursor + 1)
  {
    NotOnEntry(checks, keep, begin, end, cursor);
  }

  lemma GroupInBlock(checks: seq<Check>, begin: nat, end: nat, head: nat)
    requires WellFormed(checks) && IsBlock(checks, begin, end) && begin <= head < end
    requires checks[head].field == MappingCount
    ensures head + checks[head].expected < end
    ensures forall j | head < j <= head + checks[head].expected :: EntryOfGroup(checks[j], checks[head], j - head)
  {
    assert CheckOk(checks, head);
    var last := head + checks[head].expected;
    if last > head {
      assert EntryOfGroup(checks[last], checks[head], last - head);
    }
  }

  ghost predicate Marked(checks: seq<Check>, keep: seq<bool>, keep': seq<bool>, begin: nat, end: nat,
                         head: nat, mark: bool)
    requires head < |checks| && end <= |checks| == |keep| == |keep'|
  {
    forall i | begin <= i < end :: keep'[i] == if head <= i <= head + checks[head].expected then mark else keep[i]
  }

  lemma ScreenGroup(checks: seq<Check>, keep: seq<bool>, keep': seq<bool>, begin: nat, end: nat, head: nat, mark: bool)
    requires begin <= head < |checks| && head + checks[head].expected < end <= |checks|
    requires forall j | head < j <= head + checks[head].expected :: EntryOfGroup(checks[j], checks[head], j - head)
    requires |keep| == |checks| == |keep'| && Screened(checks, keep, begin, end, head)
    requires checks[head].field == MappingCount && checks[head].expected != 0
    requires Marked(checks, keep, keep', begin, end, head, mark)
    ensures Screened(checks, keep', begin, end, head + checks[head].expected + 1)
  {
    var last := head + checks[head].expected;
    forall i | begin <= i < end && keep'[i] ensures i <= last && IsMapping(checks[i]) && !IsEmptyCount(checks[i]) {
      if i > head && i <= last {
        assert EntryOfGroup(checks[i], checks[head], i - head);
      }
    }
    assert forall h | head < h <= last :: checks[h].field == MappingEntry;
    forall i | begin <= i <= last && checks[i].field == MappingEntry
      ensures begin + checks[i].sub <= i && keep'[i] == keep'[i - checks[i].sub]
    {
      if i > head {
        assert EntryOfGroup(checks[i], checks[head], i - head);
      }
    }
  }

  lemma GroupKeysApart(checks: seq<Check>, begin: nat, end: nat, head: nat)
    requires WellFormed(checks) && KeysDistinct(checks) && IsBlock(checks, begin, end)
    requires begin <= head < end && checks[head].field == MappingCount
    ensures forall i, j | begin <= i < head && InGroup(checks, head, j) :: KeyOf(checks[i]) != KeyOf(checks[j])
  {
    GroupInBlock(checks, begin, end, head);
  }

  /** Probing one more group keeps the evidence of the earlier ones. */
  lemma EvidenceKept(job: Job, l: Ledger, l': Ledger, keep: seq<bool>, begin: nat, end: nat, head: nat)
    requires begin <= head < end <= |job.checks| == |keep|
    requires forall i, j | begin <= i < head && InGroup(job.checks, head, j) ::
      KeyOf(job.checks[i]) != KeyOf(job.checks[j])
    requires Screened(job.checks, keep, begin, end, head) && Evidenced(job, l, keep, begin, head)
    requires ProbedOnly(job.checks, head, l.probed, l'.probed)
    ensures Evidenced(job, l', keep, begin, head)
  {
    forall i | begin <= i < head && keep[i] ensures HasValue(l'.probed, job.checks[i]) {
      assert HasValue(l.probed, job.checks[i]);
    }
    forall h | begin <= h < head && job.checks[h].field == MappingCount && Writable(job.checks[h], keep[h])
      ensures Mismatched(job, l', h)
    {
      assert Mismatched(job, l, h);
      var j :| InGroup(job.checks, h, j) && Differs(l, job.checks[j]);
      assert Differs(l', job.checks[j]);
    }
  }

  lemma EvidenceGroup(job: Job, l: Ledger, keep: seq<bool>, keep': seq<bool>, begin: nat, end: nat, head: nat, mark: bool)
    requires begin <= head < |job.checks| && head + job.checks[head].expected < end <= |job.checks|
    requires forall j | head < j <= head + job.checks[head].expected ::
      EntryOfGroup(job.checks[j], job.checks[head], j - head)
    requires |keep| == |job.checks| == |keep'| && Evidenced(job, l, keep, begin, head)
    requires job.checks[head].field == MappingCount && Marked(job.checks, keep, keep', begin, end, head, mark)
    requires if mark then GroupProbed(job.checks, head, l.probed) else Mismatched(job, l, head)
    ensures Evidenced(job, l, keep', begin, head + job.checks[head].expected + 1)
  {
    var last := head + job.checks[head].expected;
    forall i | begin <= i <= last && keep'[i] ensures HasValue(l.probed, job.checks[i]) {
      assert i >= head ==> InGroup(job.checks, head, i);
    }
    assert forall h | head < h <= last :: job.checks[h].field == MappingEntry;
  }

  lemma ScreenedIsKeepOk(job: Job, l: Ledger, keep: seq<bool>, begin: nat, end: nat)
    requires end <= |job.checks| == |keep|
    requires Screened(job.checks, keep, begin, end, end)
    requires KeysDistinct(job.checks) ==> Evidenced(job, l, keep, begin, end)
    ensures KeepOk(job, l, keep, begin, end)
  {
  }

  // ---------- cost ----------

  function MappingCost(checks: seq<Check>, begin: nat, end: nat): nat
    requires begin <= end <= |checks|
  {
    Count(checks, MappingCount, begin, end) + Count(checks, MappingEntry, begin, end)
  }

  lemma {:induction false} GroupCost(checks: seq<Check>, begin: nat, head: nat, n: nat)
    requires begin <= head && head + n < |checks| && checks[head].field == MappingCount
    requires forall j | head < j <= head + n :: checks[j].field == MappingEntry
    ensures MappingCost(checks, begin, head + n + 1) == MappingCost(checks, begin, head) + n + 1
  {
    if n > 0 {
      GroupCost(checks, begin, head, n - 1);
      assert checks[head + n].field == MappingEntry;
    }
  }

  // ---------- success ----------

  ghost predicate AllReadable(d: Dict, checks: seq<Check>, begin: nat, end: nat)
    requires end <= |checks|
  {
    forall h | begin <= h < end && checks[h].field == MappingCount && checks[h].expected != 0 ::
      Readable(d, checks, h)
  }

  /** Inside the preflight, with every group before the cursor decided. */
  ghost predicate Preflighting(job: Job, start: Monitor, m: Monitor, keep: seq<bool>, begin: nat, end: nat,
                               cursor: nat, pending: bool)
    requires begin <= cursor <= end <= |job.checks| == |keep|
  {
    && Within(start, m, MappingCost(job.checks, begin, cursor))
    && m.device.dict == start.device.dict
    && (pending ==>
          && m.ledger.written == map[]
          && Screened(job.checks, keep, begin, end, cursor)
          && (KeysDistinct(job.checks) ==> Evidenced(job, m.ledger, keep, begin, cursor))
          && (m.Healthy() && m.device.honest ==> AllReadable(m.device.dict, job.checks, begin, cursor)))
    && (!pending && m.Healthy() && m.device.honest ==> !AllReadable(m.device.dict, job.checks, begin, end))
  }

  lemma PreflightBegins(job: Job, m: Monitor, keep: seq<bool>, begin: nat, end: nat)
    requires begin <= end <= |job.checks| == |keep|
    requires m.ledger.written == map[] && forall i | begin <= i < end :: !keep[i]
    ensures Preflighting(job, m, m, keep, begin, end, begin, true)
  {
  }

  lemma PreflightSkips(job: Job, start: Monitor, m: Monitor, keep: seq<bool>, begin: nat, end: nat, cursor: nat)
    requires WellFormed(job.checks) && IsBlock(job.checks, begin, end) && begin <= cursor < end
    requires |keep| == |job.checks| && Preflighting(job, start, m, keep, begin, end, cursor, true)
    requires job.checks[cursor].field != MappingCount || job.checks[cursor].expected == 0
    ensures Preflighting(job, start, m, keep, begin, end, cursor + 1, true)
  {
    hide WellFormed, Evidenced, AllReadable, KeysDistinct, MappingCost, Screened, Readable, Mismatched;
    ScreenSkips(job.checks, keep, begin, end, cursor);
    SkippedKeeps(job, m, keep, begin, end, cursor);
  }

  /** Nothing is known or asked of a check outside the non-empty mappings. */
  lemma SkippedKeeps(job: Job, m: Monitor, keep: seq<bool>, begin: nat, end: nat, cursor: nat)
    requires WellFormed(job.checks) && IsBlock(job.checks, begin, end) && begin <= cursor < end
    requires |keep| == |job.checks| && Screened(job.checks, keep, begin, end, cursor)
    requires job.checks[cursor].field != MappingCount || job.checks[cursor].expected == 0
    ensures Evidenced(job, m.ledger, keep, begin, cursor) ==> Evidenced(job, m.ledger, keep, begin, cursor + 1)
    ensures AllReadable(m.device.dict, job.checks, begin, cursor) ==> AllReadable(m.device.dict, job.checks, begin, cursor + 1)
    ensures MappingCost(job.checks, begin, cursor) <= MappingCost(job.checks, begin, cursor + 1)
  {
    hide WellFormed, Readable, Mismatched;
  }

  lemma PreflightFails(job: Job, start: Monitor, m: Monitor, m': Monitor, keep: seq<bool>, begin: nat, end: nat,
                       head: nat, matches: bool)
    requires WellFormed(job.checks) && IsBlock(job.checks, begin, end) && begin <= head < end
    requires |keep| == |job.checks| && Preflighting(job, start, m, keep, begin, end, head, true)
    requires job.checks[head].field == MappingCount && job.checks[head].expected != 0
    requires Probed(job, head, m, m', false, matches)
    ensures head + job.checks[head].expected < end
    ensures Preflighting(job, start, m', keep, begin, end, head + job.checks[head].expected + 1, false)
  {
    hide WellFormed, Screened, Evidenced, Readable, ProbedOnly, GroupProbed, Mismatched, MappingCost, KeysDistinct;
    GroupInBlock(job.checks, begin, end, head);
    GroupCost(job.checks, begin, head, job.checks[head].expected);
  }

  lemma NothingMarked(checks: seq<Check>, keep: seq<bool>, begin: nat, end: nat, head: nat)
    requires begin <= head < end <= |checks| == |keep| && Screened(checks, keep, begin, end, head)
    ensures Marked(checks, keep, keep, begin, end, head, false)
  {
  }

  lemma GroupDecided(job: Job, l: Ledger, l': Ledger, keep: seq<bool>, keep': seq<bool>,
                     begin: nat, end: nat, head: nat, matches: bool)
    requires WellFormed(job.checks) && IsBlock(job.checks, begin, end) && begin <= head < end
    requires |keep| == |job.checks| == |keep'|
    requires job.checks[head].field == MappingCount && job.checks[head].expected != 0
    requires Screened(job.checks, keep, begin, end, head)
    requires KeysDistinct(job.checks) ==> Evidenced(job, l, keep, begin, head)
    requires ProbedOnly(job.checks, head, l.probed, l'.probed)
    requires if matches then GroupProbed(job.checks, head, l'.probed) else Mismatched(job, l', head)
    requires if matches then Marked(job.checks, keep, keep', begin, end, head, true) else keep' == keep
    ensures head + job.checks[head].expected < end
    ensures Screened(job.checks, keep', begin, end, head + job.checks[head].expected + 1)
    ensures KeysDistinct(job.checks) ==> Evidenced(job, l', keep', begin, head + job.checks[head].expected + 1)
  {
    hide WellFormed, KeysDistinct, Screened, Evidenced, Marked, ProbedOnly, GroupProbed, Mismatched;
    GroupInBlock(job.checks, begin, end, head);
    if !matches {
      NothingMarked(job.checks, keep, begin, end, head);
    }
    ScreenGroup(job.checks, keep, keep', begin, end, head, matches);
    if KeysDistinct(job.checks) {
      GroupKeysApart(job.checks, begin, end, head);
      EvidenceKept(job, l, l', keep, begin, end, head);
      EvidenceGroup(job, l', keep, keep', begin, end, head, matches);
    }
  }

  lemma PreflightProbes(job: Job, start: Monitor, m: Monitor, m': Monitor, keep: seq<bool>, keep': seq<bool>,
                        begin: nat, end: nat, head: nat, matches: bool)
    requires WellFormed(job.checks) && IsBlock(job.checks, begin, end) && begin <= head < end
    requires |keep| == |job.checks| == |keep'| && Preflighting(job, start, m, keep, begin, end, head, true)
    requires job.checks[head].field == MappingCount && job.checks[head].expected != 0
    requires Probed(job, head, m, m', true, matches)
    requires if matches then Marked(job.checks, keep, keep', begin, end, head, true) else keep' == keep
    ensures head + job.checks[head].expected < end
    ensures Preflighting(job, start, m', keep', begin, end, head + job.checks[head].expected + 1, true)
  {
    hide Screened, Evidenced, Marked, ProbedOnly, KeysDistinct, WellFormed, Readable, AllReadable,
      GroupProbed, Mismatched, MappingCost;
    GroupDecided(job, m.ledger, m'.ledger, keep, keep', begin, end, head, matches);
    GroupInBlock(job.checks, begin, end, head);
    GroupCost(job.checks, begin, head, job.checks[head].expected);
    if m'.Healthy() && m'.device.honest {
      ReadableGroup(job.checks, m'.device.dict, begin, head);
    }
  }

  lemma ReadableGroup(checks: seq<Check>, d: Dict, begin: nat, head: nat)
    requires begin <= head < |checks| && head + checks[head].expected < |checks|
    requires forall j | head < j <= head + checks[head].expected :: EntryOfGroup(checks[j], checks[head], j - head)
    requires AllReadable(d, checks, begin, head) && Readable(d, checks, head)
    ensures AllReadable(d, checks, begin, head + checks[head].expected + 1)
  {
    assert forall h | head < h <= head + checks[head].expected :: checks[h].field == MappingEntry;
  }

  lemma {:induction false} CostGrows(checks: seq<Check>, begin: nat, mid: nat, end: nat)
    requires begin <= mid <= end <= |checks|
    ensures MappingCost(checks, begin, mid) <= MappingCost(checks, begin, end)
  {
    if mid < end {
      CostGrows(checks, begin, mid, end - 1);
    }
  }

  lemma PreflightEnds(job: Job, start: Monitor, m: Monitor, keep: seq<bool>, begin: nat, end: nat, cursor: nat,
                      pending: bool)
    requires begin <= cursor <= end <= |job.checks| == |keep|
    requires Preflighting(job, start, m, keep, begin, end, cursor, pending) && (pending ==> cursor == end)
    ensures Within(start, m, MappingCost(job.checks, begin, end)) && m.device.dict == start.device.dict
    ensures pending ==> m.ledger.written == map[] && KeepOk(job, m.ledger, keep, begin, end)
    ensures m.Healthy() && m.device.honest ==> (pending <==> AllReadable(m.device.dict, job.checks, begin, end))
  {
    CostGrows(job.checks, begin, cursor, end);
    if pending {
      ScreenedIsKeepOk(job, m.ledger, keep, begin, end);
    }
  }
}
