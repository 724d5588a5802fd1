/** The bus as the verifier sees it before activation: every answer is arbitrary, every call is recorded. */
module Bus {
  import opened Bytes
  import opened PdoConfig
  import opened Protocol
  import opened Wrappers
  import opened Readback

  class Master {
    ghost var trace: seq<Event>

    constructor ()
      ensures trace == []
    {
      trace := [];
    }

    method GetSlave(position: uint16) returns (rc: int, al: nat, errorFlag: nat)
      modifies this
      ensures trace == old(trace) + [State(position, rc, al, errorFlag)]
    {
      rc, al, errorFlag := *, *, *;
      trace := trace + [State(position, rc, al, errorFlag)];
    }

    method Monotonic() returns (time: Option<int>)
      modifies this
      ensures trace == old(trace) + [Clock(time)]
    {
      time := *;
      trace := trace + [Clock(time)];
    }

    method SdoDownload(key: Key, data: seq<uint8>) returns (rc: int)
      modifies this
      ensures trace == old(trace) + [Download(key, data, rc)]
    {
      rc := *;
      trace := trace + [Download(key, data, rc)];
    }

    method SdoUpload(key: Key) returns (rc: int, data: seq<uint8>)
      modifies this
      ensures trace == old(trace) + [Upload(key, rc, data)]
    {
      rc, data := *, *;
      trace := trace + [Upload(key, rc, data)];
    }

    method Log(line: Event)
      requires line.InitWritten? || line.AttemptFailed? || line.Verified?
      modifies this
      ensures trace == old(trace) + [line]
    {
      trace := trace + [line];
    }
  }

  /** The asynchronous SDO requests inside the cycle: no call blocks, every answer is arbitrary. */
  class SdoRequests {
    ghost var calls: seq<Call>

    constructor ()
      ensures calls == []
    {
      calls := [];
    }

    method SetIndex(slave: nat, index: uint16, sub: uint8) returns (rc: int)
      modifies this
      ensures calls == old(calls) + [Index(slave, index, sub, rc)]
    {
      rc := *;
      calls := calls + [Index(slave, index, sub, rc)];
    }

    method Read(slave: nat) returns (rc: int)
      modifies this
      ensures calls == old(calls) + [Launch(slave, rc)]
    {
      rc := *;
      calls := calls + [Launch(slave, rc)];
    }

    method State(slave: nat) returns (state: RequestState)
      modifies this
      ensures calls == old(calls) + [Poll(slave, state)]
    {
      state := *;
      calls := calls + [Poll(slave, state)];
    }

    method DataSize(slave: nat) returns (size: nat) {
      size := *;
    }

    method Data(slave: nat, size: nat) returns (data: Option<seq<uint8>>)
      modifies this
      ensures data.Some? ==> |data.value| == size
      ensures calls == old(calls) + [Fetch(slave, data)]
    {
      data := *;
      if data.Some? && |data.value| != size {
        data := None;
      }
      calls := calls + [Fetch(slave, data)];
    }
  }
}
