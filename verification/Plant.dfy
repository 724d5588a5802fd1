/** What surrounds the cyclic task: clocks, master, shared memory and reporter. Every answer is arbitrary;
    ghost logs record what was asked and done, with the answers. */
module Plant {
  import opened Wrappers
  import opened Schedule
  import opened StartupGate
  import opened Windows

  class Machine {
    ghost var log: seq<Note>

    constructor ()
      ensures log == []
    {
      log := [];
    }

    /** Sleeps until the deadline, across interruptions; `stop` is the flag afterwards. */
    method Sleep(deadline: Timespec) returns (stop: bool, rc: int)
      modifies this
      ensures log == old(log) + [Slept(stop, rc)]
    {
      stop, rc := *, *;
      log := log + [Slept(stop, rc)];
    }

    method Monotonic() returns (now: Option<Timespec>)
      modifies this
      ensures log == old(log) + [ClockRead(now)]
    {
      now := *;
      log := log + [ClockRead(now)];
    }

    method WallClock() returns (ok: bool)
      modifies this
      ensures log == old(log) + [WallRead(ok)]
    {
      ok := *;
      log := log + [WallRead(ok)];
    }

    method SetApplicationTime(deadline: Timespec) returns (ok: bool)
      modifies this
      ensures log == old(log) + [TimeSet(ToNs(deadline), ok)]
    {
      ok := *;
      log := log + [TimeSet(ToNs(deadline), ok)];
    }

    method ReceiveAndProcess()
      modifies this
      ensures log == old(log) + [FramesReceived]
    {
      log := log + [FramesReceived];
    }

    method ReadState() returns (state: BusState)
      modifies this
      ensures log == old(log) + [StateRead(state)]
    {
      state := *;
      log := log + [StateRead(state)];
    }

    method PollSlaves() returns (rc: int, allOperational: bool)
      modifies this
      ensures log == old(log) + [Polled(rc, allOperational)]
    {
      rc, allOperational := *, *;
      log := log + [Polled(rc, allOperational)];
    }

    method ExchangeProcessData()
      modifies this
      ensures log == old(log) + [DataExchanged]
    {
      log := log + [DataExchanged];
    }

    method QueueAndSend() returns (ok: bool)
      modifies this
      ensures log == old(log) + [FramesSent(ok)]
    {
      ok := *;
      log := log + [FramesSent(ok)];
    }

    method NotifyClients()
      modifies this
      ensures log == old(log) + [ClientsNotified]
    {
      log := log + [ClientsNotified];
    }

    ghost method Open()
      modifies this
      ensures log == old(log) + [GatePassed]
    {
      log := log + [GatePassed];
    }

    method Stopped() returns (stop: bool)
      modifies this
      ensures log == old(log) + [FlagRead(stop)]
    {
      stop := *;
      log := log + [FlagRead(stop)];
    }
  }

  class Reporter {
    ghost var offered: seq<Report>  // accepted or dropped

    constructor ()
      ensures offered == []
    {
      offered := [];
    }

    method Publish(report: Report) returns (accepted: bool)
      modifies this
      ensures offered == old(offered) + [report]
    {
      accepted := *;
      offered := offered + [report];
    }
  }

  datatype Cells = Cells(minimum: real, maximum: real, average: real, current: real)

  const ZEROS := Cells(0.0, 0.0, 0.0, 0.0)

  /** The four timing cells of the shared bus. */
  class SharedBus {
    var minimum: real
    var maximum: real
    var average: real
    var current: real

    ghost function Shown(): Cells
      reads this
    {
      Cells(minimum, maximum, average, current)
    }

    constructor ()
      ensures Shown() == ZEROS
    {
      minimum, maximum, average, current := 0.0, 0.0, 0.0, 0.0;
    }
  }

  /** Zero asks for no reset; an acknowledgement comes with what the shared bus showed at that time. */
  datatype Handshake = Asked(ticket: nat) | Acknowledged(ticket: nat, shown: Cells)

  /** The cyclic side of the reset handshake. */
  class ResetPort {
    ghost var log: seq<Handshake>

    constructor ()
      ensures log == []
    {
      log := [];
    }

    method Pending() returns (ticket: nat)
      modifies this
      ensures log == old(log) + [Asked(ticket)]
    {
      ticket := *;
      log := log + [Asked(ticket)];
    }

    method Acknowledge(ticket: nat, bus: SharedBus)
      modifies this
      ensures log == old(log) + [Acknowledged(ticket, bus.Shown())]
    {
      log := log + [Acknowledged(ticket, bus.Shown())];
    }
  }
}
