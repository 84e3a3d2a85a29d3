// The sequential meaning of the four calls on a usbTransfer. TransferProtocol.dfy
// shows that the real calls, running concurrently with each other and with
// libusb's callback thread, are linearizable to it; Transfers.dfy implements it
// with atomic calls; TransferRefinement.dfy shows that nothing else is assumed of
// a transfer by the streams.
module TransferSpec {
  import opened Base

  // The submissions of a transfer that libusb accepted are numbered: Idle(k) is
  // before submission k, Flying(k) between it and the wait for it.
  datatype Phase = Idle(k: nat) | Flying(k: nat) | Freed

  datatype Call = Submit | Wait | Cancel | Free

  // What libusb reports about submission k when it is finished: the result of
  // data(), and the buffer after it.
  datatype Report = Report(k: nat, n: nat, err: Option<Error>, contents: seq<byte>)

  // Fine is a nil error; Busy is the error for using a transfer in flight;
  // LibError is an error of libusb; Result is what a wait reports about a
  // finished submission.
  datatype Reply = Fine | Busy | LibError(reason: Error) | Result(report: Report)

  // The phase after the call c was answered with r, or None if c may not be
  // answered with r. A wait reports about the submission in flight. No answer to
  // Submit on a freed transfer is right.
  function After(p: Phase, c: Call, r: Reply): Option<Phase> {
    match (p, c, r)
    case (Idle(k), Submit, Fine) => Some(Flying(k))
    case (Idle(k), Submit, LibError(_)) => Some(p)
    case (Flying(k), Submit, Busy) => Some(p)
    case (Flying(k), Wait, Result(report)) => if report.k == k then Some(Idle(k + 1)) else None
    case (Idle(k), Wait, Fine) => Some(p)
    case (Freed, Wait, Fine) => Some(p)
    case (Flying(k), Cancel, Fine) => Some(p)
    case (Flying(k), Cancel, LibError(_)) => Some(p)
    case (Idle(k), Cancel, Fine) => Some(p)
    case (Freed, Cancel, Fine) => Some(p)
    case (Flying(k), Free, Busy) => Some(p)
    case (Idle(k), Free, Fine) => Some(Freed)
    case (Freed, Free, Fine) => Some(p)
    case _ => None
  }

  datatype Entry = Entry(call: Call, reply: Reply)

  // The phase after a sequential history on a new transfer.
  function Replay(h: seq<Entry>): Option<Phase> {
    if h == [] then Some(Idle(0)) else
      var before := Replay(h[..|h| - 1]);
      var e := h[|h| - 1];
      if before.None? then None else After(before.value, e.call, e.reply)
  }

  // A history of many transfers, and the part of it that is about one.
  datatype Event<T> = Event(t: T, entry: Entry)

  function Of<T(==)>(log: seq<Event<T>>, t: T): seq<Entry> {
    if log == [] then [] else
      var last := log[|log| - 1];
      Of(log[..|log| - 1], t) + (if last.t == t then [last.entry] else [])
  }

  // Every transfer's part is a legal sequential history.
  ghost predicate Legal<T(!new)>(log: seq<Event<T>>) {
    forall t: T :: Replay(Of(log, t)).Some?
  }
}
