/** What a failed PREOP configuration reports: the check and the answer that ended it. */
module PreopReport {
  import opened Bytes
  import opened PdoConfig
  import opened Protocol
  import opened Wrappers
  import opened Readback

  /** A query that found its slave in error-free PREOP, and then a time before the deadline. */
  ghost predicate Passed(t: seq<Event>, deadline: int) {
    && |t| >= 2 && t[|t| - 2].State? && t[|t| - 2].rc == 0 && t[|t| - 2].al == 2 && t[|t| - 2].errorFlag == 0
    && t[|t| - 1].Clock? && t[|t| - 1].time.Some? && t[|t| - 1].time.value < deadline
  }

  /** The error tells of this answer: a refused call, or an object of another size or value than expected. Of a
      PDO write it also tells the value, of an init command only the object. */
  predicate TellsCall(e: Error, call: Event) {
    && call.Sdo() && e.check.Some? && KeyOf(e.check.value) == call.SdoKey()
    && match call
       case Download(_, data, rc) =>
         && rc != 0 && e.failure == WriteFailed && e.apiError == rc
         && (!e.check.value.field.InitField? ==> e.actual == Decode(data) && e.actualSize == |data|)
       case Upload(_, rc, data) =>
         if rc != 0 then e.failure == ReadFailed && e.apiError == rc
         else if |data| != e.check.value.size then e.failure == WrongSize && e.actualSize == |data|
         else e.failure == WrongValue && e.actual == Decode(data) && e.actual != e.check.value.expected
       case _ => false
  }

  /** The error tells of the last answer of the run. */
  predicate Tells(e: Error, deadline: Option<int>, t: seq<Event>) {
    t != [] && match t[|t| - 1]
      case State(position, rc, al, flag) =>
        && (rc != 0 || al != 2 || flag != 0) && e.failure == PreopState && e.apiError == rc && e.actual == al
        && e.actualSize == flag && e.check.Some? && e.check.value.position == position
      case Clock(None) => e.failure == ClockFailed
      case Clock(Some(now)) =>
        if deadline.Some? && now >= deadline.value then e.failure == PreopTimeout
        else |t| >= 3 && TellsCall(e, t[|t| - 3])
      case _ => false
  }

  /** The same, past the log line of a failed attempt. */
  predicate Reported(e: Error, deadline: Option<int>, t: seq<Event>) {
    t != [] && if t[|t| - 1].AttemptFailed? then Tells(e, deadline, t[..|t| - 1]) else Tells(e, deadline, t)
  }

  lemma ReportedAfterAttempt(e: Error, deadline: Option<int>, t: seq<Event>)
    requires Tells(e, deadline, t)
    ensures Reported(e, deadline, t) && Reported(e, deadline, t + [AttemptFailed])
  {
    assert (t + [AttemptFailed])[..|t|] == t;
  }

  /** A call, and then a passed guard. */
  ghost predicate Answered(t: seq<Event>, deadline: int, call: Event) {
    Passed(t, deadline) && |t| >= 3 && t[|t| - 3] == call
  }

  lemma CallTold(e: Error, deadline: int, t: seq<Event>, call: Event)
    requires Answered(t, deadline, call) && TellsCall(e, call)
    ensures Tells(e, Some(deadline), t)
  {
  }
}
