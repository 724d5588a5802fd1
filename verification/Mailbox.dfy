/** The report mailbox between the cyclic thread and the reporter, under every interleaving of their steps.
    A report is copied word by word, so a torn report is a state this machine could reach. */
module Mailbox {
  type Report = seq<int>

  /** Where the cyclic thread is inside `publish`. */
  datatype Producer = Offering | Filling(report: Report, done: nat)

  /** Where the reporter is inside `consume`, with the words read so far. */
  datatype Consumer = Waiting | Draining(copy: Report)

  /** `offered`, `accepted` and `consumed` are the histories of completed loads, publications and consumptions;
      marks[i] says which offer the i-th accepted report was. */
  datatype Box = Box(ready: bool, slot: Report, producer: Producer, consumer: Consumer,
                     offered: seq<Report>, accepted: seq<Report>, marks: seq<nat>, consumed: seq<Report>)

  datatype Action =
    | Offer(report: Report)  // load the flag; drop the report when the slot is still taken
    | FillWord
    | Release                // set the flag
    | Look                   // load the flag; nothing to consume when it is clear
    | DrainWord
    | Return                 // clear the flag

  function Empty(slot: Report): Box {
    Box(false, slot, Offering, Waiting, [], [], [], [])
  }

  /** One atomic step of either thread; a step its thread is not ready for does nothing. */
  function Next(b: Box, a: Action): Box {
    match a
    case Offer(report) =>
      if !b.producer.Offering? || |report| != |b.slot| then b
      else
        var o := b.(offered := b.offered + [report]);
        if b.ready then o else o.(producer := Filling(report, 0))
    case FillWord =>
      if b.producer.Filling? && b.producer.done < |b.slot| == |b.producer.report| then
        b.(slot := b.slot[b.producer.done := b.producer.report[b.producer.done]],
           producer := Filling(b.producer.report, b.producer.done + 1))
      else b
    case Release =>
      if b.producer.Filling? && b.producer.done == |b.slot| then
        b.(ready := true, producer := Offering, accepted := b.accepted + [b.producer.report],
           marks := b.marks + [if |b.offered| > 0 then |b.offered| - 1 else 0])
      else b
    case Look => if b.consumer.Waiting? && b.ready then b.(consumer := Draining([])) else b
    case DrainWord =>
      if b.consumer.Draining? && |b.consumer.copy| < |b.slot| then
        b.(consumer := Draining(b.consumer.copy + [b.slot[|b.consumer.copy|]]))
      else b
    case Return =>
      if b.consumer.Draining? && |b.consumer.copy| == |b.slot| then
        b.(ready := false, consumer := Waiting, consumed := b.consumed + [b.consumer.copy])
      else b
  }

  function Run(slot: Report, actions: seq<Action>): Box {
    if actions == [] then Empty(slot) else Next(Run(slot, actions[..|actions| - 1]), actions[|actions| - 1])
  }

  /** The slot belongs to one side at a time, and the flag says to which. */
  ghost predicate Owned(b: Box) {
    && (b.producer.Filling? ==>
          && !b.ready && |b.producer.report| == |b.slot| && b.producer.done <= |b.slot|
          && b.slot[..b.producer.done] == b.producer.report[..b.producer.done]
          && |b.offered| > 0 && b.offered[|b.offered| - 1] == b.producer.report)
    && (b.consumer.Draining? ==> b.ready && b.consumer.copy <= b.slot)
    && (b.ready ==> |b.accepted| > 0 && b.accepted[|b.accepted| - 1] == b.slot)
    && b.consumed <= b.accepted
    && |b.accepted| == |b.consumed| + (if b.ready then 1 else 0)
  }

  /** The accepted reports are offers, in order and without repetition. */
  ghost predicate Traced(b: Box) {
    && |b.marks| == |b.accepted|
    && (forall i | 0 <= i < |b.marks| :: b.marks[i] < |b.offered| && b.accepted[i] == b.offered[b.marks[i]])
    && (forall i, j | 0 <= i < j < |b.marks| :: b.marks[i] < b.marks[j])
    && (b.producer.Filling? && |b.marks| > 0 ==> b.marks[|b.marks| - 1] < |b.offered| - 1)
  }

  lemma OwnedNext(b: Box, a: Action)
    requires Owned(b)
    ensures Owned(Next(b, a))
  {
    var n := Next(b, a);
    if a.FillWord? && n != b {
      var k := b.producer.done;
      assert n.slot[..k + 1] == n.producer.report[..k + 1] by {
        assert forall i | 0 <= i < k :: b.slot[..k][i] == b.producer.report[..k][i];
      }
    } else if a.Release? && n != b {
      assert b.slot[..|b.slot|] == b.slot && b.producer.report[..|b.slot|] == b.producer.report;
    } else if a.Return? && n != b {
      assert b.accepted == b.consumed + [b.slot] && b.consumer.copy == b.slot;
    }
  }

  lemma TracedNext(b: Box, a: Action)
    requires Owned(b) && Traced(b)
    ensures Traced(Next(b, a))
  {
  }

  lemma {:induction false} RunInvariant(slot: Report, actions: seq<Action>)
    ensures Owned(Run(slot, actions)) && Traced(Run(slot, actions))
  {
    if actions != [] {
      var before := Run(slot, actions[..|actions| - 1]);
      RunInvariant(slot, actions[..|actions| - 1]);
      OwnedNext(before, actions[|actions| - 1]);
      TracedNext(before, actions[|actions| - 1]);
    }
  }

  /** Never are both threads inside the slot. */
  lemma SlotIsExclusive(slot: Report, actions: seq<Action>)
    ensures var b := Run(slot, actions); !(b.producer.Filling? && b.consumer.Draining?)
  {
    RunInvariant(slot, actions);
  }

  /** Whatever the interleaving: the reporter has consumed exactly the accepted reports, whole and in order,
      except for at most the latest one; and these are distinct offers in the order they were made. */
  lemma ConsumedIsPublished(slot: Report, actions: seq<Action>)
    ensures var b := Run(slot, actions);
      && b.consumed <= b.accepted && |b.accepted| <= |b.consumed| + 1
      && (b.ready <==> |b.accepted| == |b.consumed| + 1)
      && |b.marks| == |b.accepted|
      && (forall i | 0 <= i < |b.consumed| :: b.marks[i] < |b.offered| && b.consumed[i] == b.offered[b.marks[i]])
      && (forall i, j | 0 <= i < j < |b.consumed| :: b.marks[i] < b.marks[j])
  {
    RunInvariant(slot, actions);
  }

  /** Word f of the reports, e.g. a total, never goes down from one report to the next. */
  ghost predicate Rising(reports: seq<Report>, f: nat) {
    forall i, j | 0 <= i <= j < |reports| && f < |reports[i]| && f < |reports[j]| :: reports[i][f] <= reports[j][f]
  }

  /** A total that never goes down where it is counted never goes down at the reporter, however many reports
      were dropped. */
  lemma TotalsNeverDecrease(slot: Report, actions: seq<Action>, f: nat)
    requires Rising(Run(slot, actions).offered, f)
    ensures Rising(Run(slot, actions).consumed, f)
  {
    ConsumedIsPublished(slot, actions);
    hide Run;
    var b := Run(slot, actions);
    forall i, j | 0 <= i <= j < |b.consumed| && f < |b.consumed[i]| && f < |b.consumed[j]|
      ensures b.consumed[i][f] <= b.consumed[j][f]
    {
      assert b.marks[i] <= b.marks[j];
      assert b.offered[b.marks[i]] == b.consumed[i] && b.offered[b.marks[j]] == b.consumed[j];
    }
  }

  // ---------- the two calls, uninterrupted ----------

  function Fill(b: Box, n: nat): Box {
    if n == 0 then b else Next(Fill(b, n - 1), FillWord)
  }

  function Drain(b: Box, n: nat): Box {
    if n == 0 then b else Next(Drain(b, n - 1), DrainWord)
  }

  /** A whole `publish` as steps of the machine. */
  function PublishCall(b: Box, report: Report): Box {
    Next(Fill(Next(b, Offer(report)), |b.slot|), Release)
  }

  function ConsumeCall(b: Box): Box {
    Next(Drain(Next(b, Look), |b.slot|), Return)
  }

  lemma {:induction false} FillCopies(b: Box, n: nat)
    requires b.producer.Filling? && b.producer.done == 0 && |b.producer.report| == |b.slot| && n <= |b.slot|
    ensures Fill(b, n) == b.(slot := b.producer.report[..n] + b.slot[n..], producer := Filling(b.producer.report, n))
  {
    if n > 0 {
      FillCopies(b, n - 1);
      var report := b.producer.report;
      assert (report[..n - 1] + b.slot[n - 1..])[n - 1 := report[n - 1]] == report[..n] + b.slot[n..];
    }
  }

  lemma {:induction false} FillIdle(b: Box, n: nat)
    requires b.producer.Offering?
    ensures Fill(b, n) == b
  {
    if n > 0 {
      FillIdle(b, n - 1);
    }
  }

  lemma {:induction false} DrainCopies(b: Box, n: nat)
    requires b.consumer == Draining([]) && n <= |b.slot|
    ensures Drain(b, n) == b.(consumer := Draining(b.slot[..n]))
  {
    if n > 0 {
      DrainCopies(b, n - 1);
      assert b.slot[..n] == b.slot[..n - 1] + [b.slot[n - 1]];
    }
  }

  lemma {:induction false} DrainIdle(b: Box, n: nat)
    requires b.consumer.Waiting?
    ensures Drain(b, n) == b
  {
    if n > 0 {
      DrainIdle(b, n - 1);
    }
  }

  /** Between two idle threads a call is atomic: publish stores and takes effect unless the slot is taken,
      consume hands out what was stored and frees the slot. */
  lemma CallsAreAtomic(b: Box, report: Report)
    requires b.producer.Offering? && b.consumer.Waiting? && |report| == |b.slot|
    ensures var p := PublishCall(b, report);
      && p.ready && p.slot == (if b.ready then b.slot else report)
      && p.accepted == b.accepted + (if b.ready then [] else [report])
    ensures var c := ConsumeCall(b);
      !c.ready && c.slot == b.slot && c.consumed == b.consumed + if b.ready then [b.slot] else []
  {
    var o, l := Next(b, Offer(report)), Next(b, Look);
    if b.ready {
      FillIdle(o, |b.slot|);
      DrainCopies(l, |b.slot|);
      assert b.slot[..|b.slot|] == b.slot;
    } else {
      FillCopies(o, |b.slot|);
      DrainIdle(l, |b.slot|);
      assert report[..|b.slot|] + b.slot[|b.slot|..] == report;
    }
  }

  /** The mailbox as the two threads hold it. */
  class RuntimeReportMailbox {
    const slot: array<int>
    var ready: bool

    constructor (width: nat)
      ensures fresh(slot) && slot.Length == width && !ready
    {
      slot := new int[width](_ => 0);
      ready := false;
    }

    ghost function Value(): Box
      reads this, slot
    {
      Empty(slot[..]).(ready := ready)
    }

    method Publish(report: array<int>) returns (ok: bool)
      requires report.Length == slot.Length && report != slot
      modifies this`ready, slot
      ensures ok == !old(ready)
      ensures (slot[..], ready) == (PublishCall(old(Value()), report[..]).slot, PublishCall(old(Value()), report[..]).ready)
    {
      CallsAreAtomic(Value(), report[..]);
      if ready {
        return false;
      }
      for k := 0 to slot.Length
        invariant slot[..k] == report[..k]
        invariant report[..] == old(report[..]) && !ready
      {
        slot[k] := report[k];
      }
      assert slot[..] == slot[..slot.Length] && report[..] == report[..slot.Length];
      ready := true;
      return true;
    }

    method Consume(report: array<int>) returns (ok: bool)
      requires report.Length == slot.Length && report != slot
      modifies this`ready, report
      ensures ok == old(ready) && !ready
      ensures ok ==> ConsumeCall(old(Value())).consumed == [report[..]]
      ensures !ok ==> report[..] == old(report[..])
    {
      CallsAreAtomic(Value(), report[..]);
      if !ready {
        return false;
      }
      for k := 0 to slot.Length
        invariant report[..k] == slot[..k]
        invariant slot[..] == old(slot[..]) && ready
      {
        report[k] := slot[k];
      }
      assert report[..] == report[..slot.Length] && slot[..] == slot[..slot.Length];
      ready := false;
      return true;
    }
  }
}
