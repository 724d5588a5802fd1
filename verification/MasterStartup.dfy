/** Around PREOP configuration: waiting until every slave is steadily in PREOP, and activation with the first
    application times. */
module MasterStartup {
  import opened Bytes
  import opened Protocol
  import opened Wrappers
  import Bus

  const CONFIRMATIONS: nat := 5

  /** What one poll saw of every slave, in configuration order. */
  type Poll = seq<Event>

  predicate IsPoll(poll: Poll, positions: seq<uint16>) {
    |poll| == |positions| && forall s | 0 <= s < |poll| :: poll[s].State? && poll[s].position == positions[s] && poll[s].rc == 0
  }

  predicate AllReady(poll: Poll) {
    forall s | 0 <= s < |poll| :: poll[s].State? && poll[s].al == 2 && poll[s].errorFlag == 0
  }

  /** One whole poll, between two readings of the clock. */
  datatype Round = Round(early: int, poll: Poll, late: int) {
    predicate InTime(positions: seq<uint16>, deadline: int) {
      early < deadline && late < deadline && IsPoll(poll, positions)
    }

    function Events(): seq<Event> {
      [Clock(Some(early))] + poll + [Clock(Some(late))]
    }
  }

  function AllEvents(rounds: seq<Round>): seq<Event> {
    if rounds == [] then [] else AllEvents(rounds[..|rounds| - 1]) + rounds[|rounds| - 1].Events()
  }

  /** The number of latest rounds that found every slave ready. */
  function Stable(rounds: seq<Round>): (n: nat)
    ensures n <= |rounds| && forall k | |rounds| - n <= k < |rounds| :: AllReady(rounds[k].poll)
    ensures n < |rounds| ==> !AllReady(rounds[|rounds| - n - 1].poll)
  {
    if rounds == [] || !AllReady(rounds[|rounds| - 1].poll) then 0 else Stable(rounds[..|rounds| - 1]) + 1
  }

  /** A query that failed, after some that did not. */
  predicate BrokenPoll(poll: Poll, positions: seq<uint16>) {
    && 0 < |poll| <= |positions| && IsPoll(poll[..|poll| - 1], positions[..|poll| - 1])
    && var last := poll[|poll| - 1]; last.State? && last.position == positions[|poll| - 1] && last.rc != 0
  }

  predicate Late(e: Event, deadline: int) {
    e.Clock? && (e.time.None? || e.time.value >= deadline)
  }

  /** What ends the wait inside a round: the deadline before or after the poll, or a failed query. */
  ghost predicate Broken(events: seq<Event>, positions: seq<uint16>, deadline: int) {
    || (|events| == 1 && Late(events[0], deadline))
    || exists early: int, poll: Poll :: early < deadline && BrokenRound(events, early, poll, positions, deadline)
  }

  predicate BrokenRound(events: seq<Event>, early: int, poll: Poll, positions: seq<uint16>, deadline: int) {
    || (BrokenPoll(poll, positions) && events == [Clock(Some(early))] + poll)
    || (IsPoll(poll, positions) && events != [] && Late(events[|events| - 1], deadline) &&
        events == [Clock(Some(early))] + poll + [events[|events| - 1]])
  }

  /** Polls one slave after the other; a failed query ends the wait. */
  method PollSlaves(bus: Bus.Master, positions: seq<uint16>) returns (ok: bool, ready: bool, ghost poll: Poll)
    modifies bus
    ensures bus.trace == old(bus.trace) + poll
    ensures if ok then IsPoll(poll, positions) && (ready <==> AllReady(poll)) else BrokenPoll(poll, positions)
  {
    ready, poll := true, [];
    for s := 0 to |positions|
      invariant IsPoll(poll, positions[..s]) && (ready <==> AllReady(poll))
      invariant bus.trace == old(bus.trace) + poll
    {
      var rc, al, flag := bus.GetSlave(positions[s]);
      ghost var before := poll;
      poll := poll + [State(positions[s], rc, al, flag)];
      assert poll[..s] == before;
      if rc != 0 {
        return false, ready, poll;
      }
      ready := ready && al == AL_PREOP && flag == 0;
      assert forall k | 0 <= k < |before| :: poll[k] == before[k];
    }
    assert positions[..|positions|] == positions;
    ok := true;
  }

  /** One attempt: a poll between two clock readings before the deadline, or what broke it off. */
  method PollRound(bus: Bus.Master, positions: seq<uint16>, deadline: int)
    returns (whole: bool, ready: bool, ghost r: Round, ghost events: seq<Event>)
    modifies bus
    ensures bus.trace == old(bus.trace) + events
    ensures whole ==> events == r.Events() && r.InTime(positions, deadline) && (ready <==> AllReady(r.poll))
    ensures !whole ==> Broken(events, positions, deadline)
  {
    hide IsPoll, BrokenPoll, AllReady;
    r, ready := Round(0, [], 0), false;
    var early := bus.Monotonic();
    if early.None? || early.value >= deadline {
      return false, ready, r, [Clock(early)];
    }
    var found;
    ghost var poll;
    found, ready, poll := PollSlaves(bus, positions);
    events := [Clock(Some(early.value))] + poll;
    if !found {
      assert BrokenRound(events, early.value, poll, positions, deadline);
      return false, ready, r, events;
    }
    var late := bus.Monotonic();
    events := events + [Clock(late)];
    if late.None? || late.value >= deadline {
      assert BrokenRound(events, early.value, poll, positions, deadline);
      return false, ready, r, events;
    }
    whole, r := true, Round(early.value, poll, late.value);
  }

  /** Rounds in time, with too few confirmations before the last of them. */
  ghost predicate Waited(rounds: seq<Round>, positions: seq<uint16>, deadline: int) {
    && (forall k | 0 <= k < |rounds| :: rounds[k].InTime(positions, deadline))
    && (forall k | 0 <= k < |rounds| :: Stable(rounds[..k]) < 5)
  }

  lemma NextRound(rounds: seq<Round>, r: Round, before: seq<Event>)
    ensures Stable(rounds + [r]) == if AllReady(r.poll) then Stable(rounds) + 1 else 0
    ensures before + AllEvents(rounds) + r.Events() == before + AllEvents(rounds + [r])
  {
    hide Round.Events;
    assert (rounds + [r])[..|rounds|] == rounds;
    assert AllEvents(rounds + [r]) == AllEvents(rounds) + r.Events();
    hide AllEvents, Stable;
  }

  lemma FiveConfirmations()
    ensures CONFIRMATIONS == 5
  {
  }

  lemma NoRounds(rounds: seq<Round>, positions: seq<uint16>, deadline: int, before: seq<Event>)
    requires rounds == []
    ensures Waited(rounds, positions, deadline) && Stable(rounds) == 0
    ensures before + AllEvents(rounds) == before
  {
  }

  lemma WaitedNext(rounds: seq<Round>, r: Round, positions: seq<uint16>, deadline: int)
    requires Waited(rounds, positions, deadline) && Stable(rounds) < 5 && r.InTime(positions, deadline)
    ensures Waited(rounds + [r], positions, deadline)
  {
    hide Stable, Round.InTime;
    assert rounds[..|rounds|] == rounds;
    assert forall k | 0 <= k <= |rounds| :: (rounds + [r])[..k] == rounds[..k];
  }

  /** Polls before the deadline until every slave was found ready five times running: one good sample is not
      enough, a bad one starts the count again. Everything asked of the bus is these rounds and, when the wait
      fails before `lifetime` rounds are used up, what broke off the last one. */
  method WaitForPreop(bus: Bus.Master, positions: seq<uint16>, deadline: int, lifetime: nat)
    returns (ok: bool, ghost rounds: seq<Round>, ghost rest: seq<Event>)
    modifies bus
    ensures bus.trace == old(bus.trace) + AllEvents(rounds) + rest
    ensures Waited(rounds, positions, deadline) && (ok <==> Stable(rounds) >= 5)
    ensures if ok || |rounds| == lifetime then rest == [] else Broken(rest, positions, deadline)
  {
    hide *;
    rounds, rest := [], [];
    NoRounds(rounds, positions, deadline, bus.trace);
    FiveConfirmations();
    var stable := 0;
    for attempt := 0 to lifetime
      invariant rest == [] && bus.trace == old(bus.trace) + AllEvents(rounds) && |rounds| == attempt
      invariant Waited(rounds, positions, deadline) && stable == Stable(rounds) < 5
    {
      var whole, ready;
      ghost var r, events;
      whole, ready, r, events := PollRound(bus, positions, deadline);
      if !whole {
        rest := events;
        return false, rounds, rest;
      }
      NextRound(rounds, r, old(bus.trace));
      WaitedNext(rounds, r, positions, deadline);
      rounds := rounds + [r];
      stable := if ready then stable + 1 else 0;
      if stable >= CONFIRMATIONS {
        return true, rounds, rest;
      }
    }
    ok := false;
  }

  // ---------- activation ----------

  datatype Effect = Seeded(time: nat) | Activated

  class Activation {
    var origin: nat  // phase origin of the distributed clocks, zero without them
    ghost var effects: seq<Effect>

    constructor ()
      ensures origin == 0 && effects == []
    {
      origin, effects := 0, [];
    }

    /** Hands the current time to the master; the first one becomes the phase origin. */
    method SupplyTime(initial: bool) returns (ok: bool)
      modifies this
      ensures ok ==> exists time: nat :: effects == old(effects) + [Seeded(time)] && origin == if initial then time else old(origin)
      ensures !ok ==> effects == old(effects) && origin == old(origin)
    {
      var now: Option<nat>, rc: int := *, *;
      if now.None? || rc != 0 {
        return false;
      }
      effects := effects + [Seeded(now.value)];
      if initial {
        origin := now.value;
      }
      ok := true;
    }

    /** With DC the master never activates without an application time, and that first one is the origin the
        cyclic schedule keeps to. */
    method Activate(dc: bool) returns (ok: bool)
      requires effects == []
      modifies this
      ensures !dc ==> origin == 0 && (effects == [Activated] || (effects == [] && !ok)) && (ok ==> effects == [Activated])
      ensures dc && Activated in effects ==> |effects| >= 2 && effects[0] == Seeded(origin) && effects[1] == Activated
      ensures dc && ok ==> |effects| == 3 && effects[2].Seeded?
    {
      origin := 0;
      if dc {
        var seeded := SupplyTime(true);
        if !seeded {
          return false;
        }
      }
      var rc := *;
      if rc != 0 {
        return false;
      }
      effects := effects + [Activated];
      if !dc {
        return true;
      }
      ok := SupplyTime(false);
    }
  }
}
