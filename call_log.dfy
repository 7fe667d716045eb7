/** The call-log record (models/callLog.js): the call kind and the two enums
    of its lifecycle, the record itself, and what creating one fills in. */
module CallLogSchema {
  import opened Seqs
  import opened Common

  /** `callType`: required, one of "audio" and "video". */
  datatype CallType = Audio | Video

  /** `status`: one of "Ongoing" and "Ended". */
  datatype CallStatus = Ongoing | Ended

  /** `verdict`: optional, one of "Accepted", "Denied", "Missed" and "Busy". */
  datatype Verdict = Accepted | Denied | Missed | Busy

  function CallTypeName(t: CallType): string
  {
    match t
    case Audio => "audio"
    case Video => "video"
  }

  /** A call log. `endTime` is the schema's end-time field; nothing in the core
      writes it (the handlers write a field named `endedAt`, which the schema
      does not declare and therefore drops). */
  datatype CallLog = CallLog(
    id: Id,
    callType: CallType,
    participants: seq<Id>,
    from: Id,
    to: Id,
    startTime: Time,
    endTime: Option<Time>,
    status: CallStatus,
    verdict: Option<Verdict>)

  /** `CallLog.create(...)` with the schema's defaults applied: `startTime`
      defaults to the creation time, `status` to "Ended" when omitted, and
      `verdict` and `endTime` stay unset. */
  function CreateCallLog(id: Id, callType: CallType, participants: seq<Id>, from: Id, to: Id,
                         now: Time, status: Option<CallStatus>): (l: CallLog)
    ensures l.id == id && l.callType == callType && l.participants == participants
    ensures l.from == from && l.to == to && l.startTime == now
    ensures status.None? ==> l.status == Ended
    ensures status.Some? ==> l.status == status.value
    ensures l.verdict.None? && l.endTime.None?
  {
    CallLog(id, callType, participants, from, to, now, None,
            match status case None => Ended case Some(s) => s,
            None)
  }
}
