/** Report windows: what is counted in one window, and the totals every report carries. */
module Windows {
  import opened Timing
  import opened StartupGate

  datatype Counts = Counts(missed: nat, wcErrors: nat, linkDown: nat) {
    function Plus(other: Counts): Counts {
      Counts(missed + other.missed, wcErrors + other.wcErrors, linkDown + other.linkDown)
    }
  }

  const NOTHING := Counts(0, 0, 0)

  /** One second or more of runtime cycles, with the bus state of the last of them and the totals
      up to its end. */
  datatype Report = Report(seconds: real, state: BusState, cycle: Summary, task: Summary, receive: Summary, pdo: Summary,
                           send: Summary, counts: Counts, totals: Counts)

  function Sum(counts: seq<Counts>): Counts {
    if counts == [] then NOTHING else Sum(counts[..|counts| - 1]).Plus(counts[|counts| - 1])
  }

  function WindowCounts(reports: seq<Report>): (r: seq<Counts>)
    ensures |r| == |reports| && forall i | 0 <= i < |r| :: r[i] == reports[i].counts
  {
    seq(|reports|, i requires 0 <= i < |reports| => reports[i].counts)
  }

  /** Every report's totals are the sum over all windows so far, whether their reports were accepted or
      dropped, on top of what was counted before the first window. */
  ghost predicate Accounted(before: Counts, reports: seq<Report>) {
    forall k | 0 <= k < |reports| ::
      reports[k].totals == before.Plus(Sum(WindowCounts(reports)[..k + 1])) && reports[k].seconds >= 1.0
  }

  /** The books during a window: running totals, closed windows, and the cycles they count. */
  ghost predicate Balanced(before: Counts, reports: seq<Report>, window: Counts, totals: Counts, cycles: seq<Counts>) {
    && Accounted(before, reports) && totals == before.Plus(Sum(WindowCounts(reports)).Plus(window))
    && Sum(cycles) == Sum(WindowCounts(reports)).Plus(window)
  }

  lemma SumSnoc(counts: seq<Counts>, c: Counts)
    ensures Sum(counts + [c]) == Sum(counts).Plus(c)
  {
    assert (counts + [c])[..|counts|] == counts;
  }

  lemma BalancedCycle(before: Counts, reports: seq<Report>, window: Counts, totals: Counts, cycles: seq<Counts>, c: Counts)
    requires Balanced(before, reports, window, totals, cycles)
    ensures Balanced(before, reports, window.Plus(c), totals.Plus(c), cycles + [c])
  {
    SumSnoc(cycles, c);
  }

  lemma BalancedPublish(before: Counts, reports: seq<Report>, window: Counts, totals: Counts, cycles: seq<Counts>, r: Report)
    requires Balanced(before, reports, window, totals, cycles)
    requires r.counts == window && r.totals == totals && r.seconds >= 1.0
    ensures Balanced(before, reports + [r], NOTHING, totals, cycles)
  {
    hide Counts.Plus;
    PlusNothing(Sum(WindowCounts(reports + [r])));
    var next := reports + [r];
    assert WindowCounts(next) == WindowCounts(reports) + [window];
    SumSnoc(WindowCounts(reports), window);
    forall k | 0 <= k < |next|
      ensures next[k].totals == before.Plus(Sum(WindowCounts(next)[..k + 1])) && next[k].seconds >= 1.0
    {
      if k < |reports| {
        assert WindowCounts(next)[..k + 1] == WindowCounts(reports)[..k + 1];
        assert next[k] == reports[k];
      } else {
        assert WindowCounts(next)[..k + 1] == WindowCounts(next);
      }
    }
  }

  lemma PlusNothing(c: Counts)
    ensures c.Plus(NOTHING) == c
  {
  }

  lemma BalancedAtStart(before: Counts, reports: seq<Report>, cycles: seq<Counts>)
    requires reports == [] && cycles == []
    ensures Balanced(before, reports, NOTHING, before, cycles)
  {
    hide Counts.Plus;
    PlusNothing(NOTHING);
    PlusNothing(before);
    assert WindowCounts(reports) == cycles;
  }

  lemma TotalsNext(before: Counts, reports: seq<Report>, j: nat)
    requires Accounted(before, reports) && 0 < j < |reports|
    ensures reports[j].totals == reports[j - 1].totals.Plus(reports[j].counts)
  {
    hide Sum;
    var all := WindowCounts(reports);
    assert all[..j + 1] == all[..j] + [all[j]];
    SumSnoc(all[..j], all[j]);
    assert reports[j - 1].totals == before.Plus(Sum(all[..j - 1 + 1]));
  }

  /** Totals never go down from report to report. */
  lemma {:induction false} TotalsGrow(before: Counts, reports: seq<Report>, i: nat, j: nat)
    requires Accounted(before, reports) && i <= j < |reports|
    ensures var a, b := reports[i].totals, reports[j].totals;
      a.missed <= b.missed && a.wcErrors <= b.wcErrors && a.linkDown <= b.linkDown
    decreases j - i
  {
    hide Accounted;
    if i < j {
      TotalsGrow(before, reports, i, j - 1);
      TotalsNext(before, reports, j);
    }
  }

  /** The window under way. */
  class Window {
    const cycle: TimingSummary
    const task: TimingSummary
    const receive: TimingSummary
    const pdo: TimingSummary
    const send: TimingSummary
    var counts: Counts

    ghost predicate Valid()
      reads this, cycle, task, receive, pdo, send
    {
      && cycle != task && cycle != receive && cycle != pdo && cycle != send
      && task != receive && task != pdo && task != send && receive != pdo && receive != send && pdo != send
      && cycle.Valid() && task.Valid() && receive.Valid() && pdo.Valid() && send.Valid()
    }

    constructor ()
      ensures Valid() && counts == NOTHING
      ensures cycle.values == [] && task.values == [] && receive.values == [] && pdo.values == [] && send.values == []
      ensures fresh(cycle) && fresh(task) && fresh(receive) && fresh(pdo) && fresh(send)
    {
      cycle := new TimingSummary();
      task := new TimingSummary();
      receive := new TimingSummary();
      pdo := new TimingSummary();
      send := new TimingSummary();
      counts := NOTHING;
    }

    method Add(cycleUs: real, taskUs: real, receiveUs: real, pdoUs: real, sendUs: real, c: Counts)
      requires Valid()
      modifies this, cycle, task, receive, pdo, send
      ensures Valid() && counts == old(counts).Plus(c)
      ensures cycle.values == old(cycle.values) + [cycleUs] && task.values == old(task.values) + [taskUs]
      ensures receive.values == old(receive.values) + [receiveUs] && pdo.values == old(pdo.values) + [pdoUs]
      ensures send.values == old(send.values) + [sendUs]
    {
      hide Describes;
      cycle.Add(cycleUs);
      task.Add(taskUs);
      receive.Add(receiveUs);
      pdo.Add(pdoUs);
      send.Add(sendUs);
      counts := counts.Plus(c);
    }

    method Close(seconds: real, state: BusState, totals: Counts) returns (r: Report)
      requires Valid()
      modifies this, cycle, task, receive, pdo, send
      ensures Valid() && counts == NOTHING
      ensures cycle.values == [] && task.values == [] && receive.values == [] && pdo.values == [] && send.values == []
      ensures r.seconds == seconds && r.state == state && r.counts == old(counts) && r.totals == totals
      ensures r.cycle == old(cycle.Value()) && r.task == old(task.Value()) && r.receive == old(receive.Value())
      ensures r.pdo == old(pdo.Value()) && r.send == old(send.Value())
      ensures Summarizes(r.cycle, old(cycle.values)) && Summarizes(r.task, old(task.values))
      ensures Summarizes(r.receive, old(receive.values)) && Summarizes(r.pdo, old(pdo.values))
      ensures Summarizes(r.send, old(send.values))
    {
      hide Describes;
      r := Report(seconds, state, cycle.Value(), task.Value(), receive.Value(), pdo.Value(), send.Value(), counts, totals);
      cycle.Clear();
      task.Clear();
      receive.Clear();
      pdo.Clear();
      send.Clear();
      counts := NOTHING;
    }
  }
}
