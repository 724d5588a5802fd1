/** What single guarded calls do to the monitor of a run. */
module PreopCalls {
  import opened Bytes
  import opened PdoConfig
  import opened Protocol

  ghost predicate OnlyPosition(d: Dict, d': Dict, position: uint16) {
    forall k: Key | k.position != position :: (k in d <==> k in d') && (k in d ==> d[k] == d'[k])
  }

  /** What any sequence of calls inside one attempt does to the monitor. */
  ghost predicate Within(m: Monitor, m': Monitor, calls: nat) {
    && m'.progress.inits == m.progress.inits && m'.progress.current == m.progress.current
    && m'.gate.deadline == m.gate.deadline
    && m'.tally.attempts == m.tally.attempts && m'.tally.failed == m.tally.failed
    && m.tally.sdo <= m'.tally.sdo <= m.tally.sdo + calls
    && (m'.device.honest ==> m.device.honest)
    && (m'.Healthy() ==> m.Healthy())
  }

  ghost function Opened(m: Monitor, position: uint16): Monitor {
    m.(gate := m.gate.(pass := Open(position)))
  }

  ghost function Tripped(m: Monitor): Monitor {
    m.(gate := Gate(m.gate.deadline, Shut, true))
  }

  /** An accepted write and nothing else. */
  ghost predicate Written(m: Monitor, m': Monitor, k: Key, data: seq<uint8>) {
    && m'.device == m.device.(dict := m.device.dict[k := data])
    && m'.ledger == Ledger(m.ledger.written[k := data], m.ledger.probed, map[])
    && m'.Healthy() == m.Healthy()
  }

  /** An accepted read and nothing else. */
  ghost predicate WasRead(m: Monitor, m': Monitor, k: Key, data: seq<uint8>) {
    && (m'.device.honest <==> m.device.honest && k in m.device.dict && m.device.dict[k] == data)
    && m'.ledger == Ledger(m.ledger.written, m.ledger.probed[k := data], m.ledger.confirmed[k := data])
    && m'.Healthy() == m.Healthy()
  }

  /** A read of check c that was accepted and guarded on both sides. */
  ghost predicate ReadOf(m: Monitor, m': Monitor, c: Check, data: seq<uint8>) {
    Within(m, m', 1) && m'.device.dict == m.device.dict && WasRead(m, m', KeyOf(c), data)
  }

  /** A read that did not go through. */
  ghost predicate ReadFailure(m: Monitor, m': Monitor) {
    Within(m, m', 1) && m'.device.dict == m.device.dict && !m'.Healthy()
  }

  /** These calls continue with accepted or refused reads alone. */
  ghost predicate OnlyReads(before: seq<Event>, after: seq<Event>) {
    before <= after && forall i | |before| <= i < |after| :: after[i].Upload?
  }

  lemma NothingRead(calls: seq<Event>)
    ensures OnlyReads(calls, calls)
  {
  }

  lemma MoreRead(a: seq<Event>, b: seq<Event>, c: seq<Event>)
    ensures OnlyReads(a, b) && OnlyReads(b, c) ==> OnlyReads(a, c)
  {
  }
}
