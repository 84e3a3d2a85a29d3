// The transfer streams as a state machine on values: what one call on a
// stream does to the ring of transfers, given what the device answers. The
// classes in Streams.dfy are proved against these functions; the theorems
// about whole runs are in ReadTheorems.dfy and WriteTheorems.dfy.
module StreamSpec {
  import opened Base

  // What the device makes of the k-th submit() on a stream: libusb refuses the
  // submission, or accepts it and the wait() for it answers with a byte count,
  // perhaps an error, and the contents of the buffer after it. On an OUT endpoint
  // these may differ from what was submitted, too: wait() compacts the buffer of
  // an isochronous transfer in either direction.
  datatype Outcome =
    | Rejected(reason: Error)
    | Done(n: nat, err: Option<Error>, contents: seq<byte>)

  // An endpoint of a device, with its answers to all the submissions to come.
  // Theorems quantify over it, so they cover every behaviour of the device and
  // of the cancellation contexts.
  datatype Endpoint = Endpoint(outcome: nat -> Outcome, inbound: bool, size: nat)

  // libusb never reports more bytes than the buffer holds; IsoLayout.dfy shows
  // why this is so for isochronous transfers.
  ghost predicate Bounded(ep: Endpoint) {
    forall k: nat :: ep.outcome(k).Done? ==>
         |ep.outcome(k).contents| == ep.size && ep.outcome(k).n <= ep.size
  }

  // Streams also need a buffer to put bytes into.
  ghost predicate WellFormed(ep: Endpoint) {
    ep.size > 0 && Bounded(ep)
  }

  // A transfer as its stream sees it. Flying(k, _) was accepted by the k-th
  // submit and has not been waited for.
  datatype Xfer =
    | Idle(buf: seq<byte>)
    | Flying(k: nat, buf: seq<byte>)
    | Freed

  // The stream struct. `open` is transfers != nil; `xfers`, `attempts`, `wire`
  // (the buffer handed over at each accepted submit) and `returned` (the
  // transfers given back to libusb, with multiplicity) are the device's side.
  datatype Ring<!T> = Ring(
    queue: seq<T>,
    open: bool,
    err: Option<Error>,
    finished: bool,
    xfers: map<T, Xfer>,
    attempts: nat,
    wire: seq<seq<byte>>,
    returned: multiset<T>)

  // ---- one operation on one transfer ----

  // wait(): an unsubmitted transfer answers 0 bytes and no error at once.
  ghost function Waited(ep: Endpoint, x: Xfer): (Xfer, nat, Option<Error>) {
    match x
    case Flying(k, buf) =>
      var o := ep.outcome(k);
      if o.Done? then (Idle(o.contents), o.n, o.err) else (Idle(buf), 0, None)
    case _ => (x, 0, None)
  }

  ghost function Wait<T>(ep: Endpoint, s: Ring<T>, t: T): (Ring<T>, nat, Option<Error>)
    requires t in s.xfers
  {
    var (x, n, err) := Waited(ep, s.xfers[t]);
    (s.(xfers := s.xfers[t := x]), n, err)
  }

  ghost function Submit<T>(ep: Endpoint, s: Ring<T>, t: T): (Ring<T>, Option<Error>)
    requires t in s.xfers && s.xfers[t].Idle?
  {
    match ep.outcome(s.attempts)
    case Rejected(reason) => (s.(attempts := s.attempts + 1), Some(reason))
    case Done(_, _, _) =>
      var buf := s.xfers[t].buf;
      (s.(xfers := s.xfers[t := Flying(s.attempts, buf)], attempts := s.attempts + 1, wire := s.wire + [buf]), None)
  }

  // free(): never used on a transfer in flight, without effect the second time.
  ghost function Free<T>(s: Ring<T>, t: T): Ring<T>
    requires t in s.xfers && !s.xfers[t].Flying?
  {
    if s.xfers[t].Idle?
    then s.(xfers := s.xfers[t := Freed], returned := s.returned + multiset{t})
    else s
  }

  // gotError() followed by noMore().
  ghost function Fail<T>(s: Ring<T>, e: Error): Ring<T> {
    s.(err := if s.err.None? then Some(e) else s.err, finished := true)
  }

  // ---- the operations of the stream struct ----

  ghost predicate Tracked<T>(s: Ring<T>) {
    forall t :: t in s.queue ==> t in s.xfers
  }

  // flushRemaining(): every queued transfer is waited for and freed.
  ghost function Flush<T>(s: Ring<T>): Ring<T> {
    s.(queue := [], finished := true,
       xfers := map t | t in s.xfers :: if t in s.queue then Freed else s.xfers[t],
       returned := s.returned + multiset(s.queue))
  }

  // The second loop of submitAll(), over the transfers taken off the queue.
  ghost function SubmitFrom<T>(ep: Endpoint, s: Ring<T>, all: seq<T>): Ring<T>
    requires forall t :: t in all ==> t in s.xfers && s.xfers[t].Idle?
    requires forall i, j :: 0 <= i < j < |all| ==> all[i] != all[j]
    decreases |all|
  {
    if all == [] then s else
      var (s', e) := Submit(ep, s, all[0]);
      if e.Some? then Fail(Free(s', all[0]), e.value)
      else SubmitFrom(ep, s'.(queue := s'.queue + [all[0]]), all[1..])
  }

  ghost function NewRing<T>(pool: seq<T>, blank: map<T, Xfer>): Ring<T> {
    Ring(pool, true, None, false, blank, 0, [], multiset{})
  }

  // ---- ReadStream ----

  datatype ReadState<!T> = ReadState(ring: Ring<T>, current: Option<T>, total: nat, used: nat)

  datatype ReadResult = ReadResult(n: nat, err: Option<Error>, bytes: seq<byte>)

  // What the body of ReadContext needs of the state it starts from.
  ghost predicate ReadReady<T>(r: ReadState<T>) {
    && Tracked(r.ring)
    && (r.current.Some? ==>
          && r.current.value in r.ring.xfers
          && r.ring.xfers[r.current.value].Idle?
          && r.used <= r.total <= |r.ring.xfers[r.current.value].buf|)
  }

  // The first part of ReadContext: wait for the transfer t just taken off the
  // queue. A failed wait ends the stream.
  ghost function Receive<T>(ep: Endpoint, r: ReadState<T>, t: T): (ReadState<T>, ReadResult)
    requires t in r.ring.xfers
  {
    var (s, n, err) := Wait(ep, r.ring, t);
    if err.Some? then
      (r.(ring := Flush(Free(s, t)).(open := false)), ReadResult(n, err, []))
    else
      (ReadState(s, Some(t), n, 0), ReadResult(0, None, []))
  }

  ghost function Fetch<T>(ep: Endpoint, r: ReadState<T>): (ReadState<T>, ReadResult)
    requires ReadReady(r) && r.current.None?
  {
    if r.ring.queue == []
    then (r.(ring := r.ring.(open := false)), ReadResult(0, r.ring.err, []))
    else Receive(ep, r.(ring := r.ring.(queue := r.ring.queue[1..])), r.ring.queue[0])
  }

  // The last part: a used-up transfer goes back into flight, or is freed when
  // the stream has failed or was closed.
  ghost function Resubmit<T>(ep: Endpoint, s: Ring<T>, t: T): Ring<T>
    requires t in s.xfers && s.xfers[t].Idle?
  {
    var (s', e) := Submit(ep, s, t);
    if e.None? then s'.(queue := s'.queue + [t]) else Fail(s', e.value)
  }

  ghost function Recycle<T>(ep: Endpoint, r: ReadState<T>): ReadState<T>
    requires ReadReady(r) && r.current.Some?
  {
    var t := r.current.value;
    var s := if r.ring.err.Some? then r.ring else Resubmit(ep, r.ring, t);
    r.(ring := if s.err.Some? then Free(s, t) else s, current := None)
  }

  // The middle part: hand out at most `room` bytes of the current transfer.
  ghost function Consume<T>(ep: Endpoint, r: ReadState<T>, room: nat): (ReadState<T>, ReadResult)
    requires ReadReady(r) && r.current.Some?
  {
    var use := Min(r.total - r.used, room);
    var bytes := r.ring.xfers[r.current.value].buf[r.used..r.used + use];
    var r' := r.(used := r.used + use);
    (if r'.used == r'.total then Recycle(ep, r') else r', ReadResult(use, None, bytes))
  }

  ghost function Read<T>(ep: Endpoint, r: ReadState<T>, room: nat): (ReadState<T>, ReadResult)
    requires ReadReady(r)
    requires r.current.None? && r.ring.open ==> ReadReady(Fetch(ep, r).0)
  {
    if !r.ring.open then (r, ReadResult(0, Some(ErrClosedPipe), []))
    else if r.current.Some? then Consume(ep, r, room)
    else
      var (r', res) := Fetch(ep, r);
      if r'.current.Some? then Consume(ep, r', room) else (r', res)
  }

  ghost function CloseRead<T>(r: ReadState<T>): ReadState<T> {
    if r.ring.open then r.(ring := Fail(r.ring, EOF)) else r
  }

  // ---- what holds between two calls on a stream ----

  // The number of submissions accepted so far. Only the last attempt can have
  // been refused (see Sound), so they are the attempts 0 .. Flown - 1.
  ghost function Flown<T>(ep: Endpoint, s: Ring<T>): nat {
    if s.attempts > 0 && ep.outcome(s.attempts - 1).Rejected? then s.attempts - 1 else s.attempts
  }

  // The number of submissions waited for (negative while the queue still holds
  // transfers that were never submitted).
  ghost function Waits<T>(ep: Endpoint, s: Ring<T>): int {
    Flown(ep, s) - |s.queue|
  }

  // What the transfer at position i of the queue must be, when `waits`
  // submissions have been waited for: the tail of the queue is the last accepted
  // submissions in order, transfers that were never submitted come first.
  ghost predicate InPlace<T>(ep: Endpoint, waits: int, q: seq<T>, xfers: map<T, Xfer>, i: nat)
    requires i < |q|
  {
    && q[i] in xfers
    && var x := xfers[q[i]];
       && (if waits + i < 0 then x.Idle? else x.Flying? && x.k == waits + i)
       && |x.buf| == ep.size
  }

  ghost function Elements<T>(q: seq<T>): set<T> {
    set t | t in q
  }

  ghost predicate Distinct<T>(q: seq<T>) {
    forall i, j :: 0 <= i < j < |q| ==> q[i] != q[j]
  }

  // A transfer outside the queue, other than the one the stream holds, was
  // freed, or was never submitted because submitAll() stopped before it.
  ghost predicate Parked<T>(dropped: set<T>, xfers: map<T, Xfer>, t: T)
    requires t in xfers
  {
    if t in dropped then xfers[t].Idle? else xfers[t].Freed?
  }

  // The queue and the device's side of it.
  ghost predicate Queued<T>(ep: Endpoint, s: Ring<T>) {
    && WellFormed(ep)
    && Tracked(s) && Distinct(s.queue)
    && (forall i :: 0 <= i < |s.queue| ==> InPlace(ep, Waits(ep, s), s.queue, s.xfers, i))
    && (forall k :: 0 <= k < Flown(ep, s) ==> ep.outcome(k).Done?)
    && |s.wire| == Flown(ep, s)
    && (s.err.None? ==> Flown(ep, s) == s.attempts)
  }

  // Where every transfer is, with `held` the one the stream keeps outside the
  // queue and `dropped` those abandoned by submitAll().
  ghost predicate Ledger<T>(ep: Endpoint, dropped: set<T>, held: Option<T>, s: Ring<T>) {
    && (held.Some? ==>
          && held.value !in s.queue && held.value in s.xfers
          && s.xfers[held.value].Idle? && |s.xfers[held.value].buf| == ep.size)
    && (forall t :: t in dropped ==> t in s.xfers && t !in s.queue && Some(t) != held)
    && (forall t :: t in s.xfers && t !in s.queue && Some(t) != held ==> Parked(dropped, s.xfers, t))
    && (!s.finished ==> forall t :: t in s.xfers ==> t in s.queue || Some(t) == held)
  }

  // What went back to libusb: exactly the freed transfers, each once.
  ghost predicate Settled<T>(s: Ring<T>) {
    && (forall t :: t in s.returned ==> t in s.xfers)
    && (forall t :: t in s.xfers ==> s.returned[t] == if s.xfers[t].Freed? then 1 else 0)
  }

  ghost predicate Kept<T>(ep: Endpoint, dropped: set<T>, held: Option<T>, s: Ring<T>) {
    Queued(ep, s) && Ledger(ep, dropped, held, s) && Settled(s) && s.xfers.Keys != {}
  }

  // The ring invariant.
  ghost predicate Sound<T>(ep: Endpoint, dropped: set<T>, held: Option<T>, s: Ring<T>) {
    && Kept(ep, dropped, held, s)
    && (s.open ==> (s.finished <==> s.err.Some?))
    && (!s.open ==> s.queue == [] && s.finished && held.None?)
  }

  // The data of one submission, as far as it completed without an error.
  ghost function Data(o: Outcome): seq<byte> {
    if o.Done? && o.err.None? && o.n <= |o.contents| then o.contents[..o.n] else []
  }

  // The data of the first m submissions, in submission order.
  ghost function Payload(ep: Endpoint, m: nat): seq<byte> {
    if m == 0 then [] else Payload(ep, m - 1) + Data(ep.outcome(m - 1))
  }

  // ReadCore holds inside a call too; ReadInv at its boundaries.
  ghost predicate ReadCore<T>(ep: Endpoint, dropped: set<T>, r: ReadState<T>) {
    && Sound(ep, dropped, r.current, r.ring)
    && ep.inbound
    && (r.ring.open ==>
          && Waits(ep, r.ring) >= 0
          && (forall k: nat :: k < Waits(ep, r.ring) ==> ep.outcome(k).err.None?))
    && (r.current.Some? ==>
          var w := Waits(ep, r.ring);
          && w > 0
          && r.ring.xfers[r.current.value].buf == ep.outcome(w - 1).contents
          && r.total == ep.outcome(w - 1).n
          && r.used <= r.total)
  }

  ghost predicate ReadInv<T>(ep: Endpoint, dropped: set<T>, r: ReadState<T>) {
    ReadCore(ep, dropped, r) && (r.current.Some? ==> r.used < r.total)
  }

  // The bytes handed out so far.
  ghost function Handed<T>(ep: Endpoint, dropped: set<T>, r: ReadState<T>): seq<byte>
    requires ReadCore(ep, dropped, r) && r.ring.open
  {
    if r.current.Some?
    then Payload(ep, Waits(ep, r.ring) - 1) + r.ring.xfers[r.current.value].buf[..r.used]
    else Payload(ep, Waits(ep, r.ring))
  }

  // ---- WriteStream ----

  // `chunks` records the part of the caller's data copied into the buffer of
  // each accepted submission.
  datatype WriteState<!T> = WriteState(ring: Ring<T>, total: nat, chunks: seq<seq<byte>>)

  datatype Sent<!T> = Sent(state: WriteState<T>, written: nat, err: Option<Error>)

  // The wait at the top of both loops of a write stream: the next transfer is
  // taken off the queue and its bytes are added to the total.
  ghost function Taken<T>(ep: Endpoint, w: WriteState<T>): WriteState<T>
    requires w.ring.queue != [] && Tracked(w.ring)
  {
    var (s, n, _) := Wait(ep, w.ring.(queue := w.ring.queue[1..]), w.ring.queue[0]);
    w.(ring := s, total := w.total + n)
  }

  // The error of that wait.
  ghost function Answer<T>(ep: Endpoint, w: WriteState<T>): Option<Error>
    requires w.ring.queue != [] && Tracked(w.ring)
  {
    Wait(ep, w.ring.(queue := w.ring.queue[1..]), w.ring.queue[0]).2
  }

  // Submitting a transfer whose buffer begins with the chunk.
  ghost function Launch<T>(ep: Endpoint, w: WriteState<T>, t: T, chunk: seq<byte>): Sent<T>
    requires t in w.ring.xfers && w.ring.xfers[t].Idle?
  {
    var (s, e) := Submit(ep, w.ring, t);
    if e.Some? then Sent(w.(ring := Free(Fail(s, e.value), t)), 0, e)
    else Sent(w.(ring := s.(queue := s.queue + [t]), chunks := w.chunks + [chunk]), |chunk|, None)
  }

  // Filling the buffer of a transfer and submitting it.
  ghost function Fill<T>(ep: Endpoint, w: WriteState<T>, t: T, p: seq<byte>): Sent<T>
    requires t in w.ring.xfers && w.ring.xfers[t].Idle?
  {
    var buf := w.ring.xfers[t].buf;
    var use := Min(|p|, |buf|);
    var filled := w.ring.(xfers := w.ring.xfers[t := Idle(p[..use] + buf[use..])]);
    Launch(ep, w.(ring := filled), t, p[..use])
  }

  // One round of the loop of WriteContext.
  ghost function SendOne<T>(ep: Endpoint, w: WriteState<T>, p: seq<byte>): Sent<T>
    requires w.ring.queue != [] && Tracked(w.ring) && !w.ring.xfers[w.ring.queue[0]].Freed?
  {
    var t := w.ring.queue[0];
    var w' := Taken(ep, w);
    var err := Answer(ep, w);
    if err.Some? then Sent(w'.(ring := Flush(Free(Fail(w'.ring, err.value), t))), 0, err)
    else Fill(ep, w', t, p)
  }

  // One round of the loop of CloseContext. After a failed wait nothing is left
  // in the queue, so the loop ends.
  ghost function DrainOne<T>(ep: Endpoint, w: WriteState<T>): WriteState<T>
    requires w.ring.queue != [] && Tracked(w.ring)
  {
    var t := w.ring.queue[0];
    var w' := Taken(ep, w);
    var err := Answer(ep, w);
    w'.(ring := if err.Some? then Flush(Free(Fail(w'.ring, err.value), t)) else Free(w'.ring, t))
  }

  ghost function Drain<T>(ep: Endpoint, w: WriteState<T>): WriteState<T>
    requires Tracked(w.ring)
    decreases |w.ring.queue|
  {
    if w.ring.queue == [] then w else Drain(ep, DrainOne(ep, w))
  }

  ghost function CloseWrite<T>(ep: Endpoint, w: WriteState<T>): (WriteState<T>, Option<Error>)
    requires Tracked(w.ring)
  {
    if !w.ring.open then (w, Some(ErrClosedPipe)) else
      var d := Drain(ep, w.(ring := w.ring.(finished := true)));
      (d.(ring := d.ring.(open := false)), d.ring.err)
  }

  // None of the first m submissions failed while in flight.
  ghost predicate Clean(ep: Endpoint, m: nat) {
    forall k: nat :: k < m ==> ep.outcome(k).Done? && ep.outcome(k).err.None?
  }

  // The bytes reported for the first m submissions, up to and including the
  // first one that failed.
  ghost function Tally(ep: Endpoint, m: nat): nat {
    if m == 0 then 0 else
      Tally(ep, m - 1) + if Clean(ep, m - 1) && ep.outcome(m - 1).Done? then ep.outcome(m - 1).n else 0
  }

  // The error of the first of the first m submissions that failed in flight.
  ghost function FirstBroken(ep: Endpoint, m: nat): Option<Error> {
    if m == 0 then None else
      var e := FirstBroken(ep, m - 1);
      if e.None? && ep.outcome(m - 1).Done? then ep.outcome(m - 1).err else e
  }

  // The first error of a stream that made `attempts` submits and has waited for
  // the first m of them: a refused submit is always the last thing tried, so it
  // comes before any failure noticed later.
  ghost function FirstError(ep: Endpoint, attempts: nat, m: nat): Option<Error> {
    if attempts > 0 && ep.outcome(attempts - 1).Rejected?
    then Some(ep.outcome(attempts - 1).reason)
    else FirstBroken(ep, m)
  }

  // The chunks are what the caller's data became: each is the front part of a
  // full buffer handed to libusb.
  ghost predicate Framed(ep: Endpoint, chunks: seq<seq<byte>>, wire: seq<seq<byte>>) {
    && |chunks| == |wire|
    && forall k :: 0 <= k < |wire| ==>
         && |wire[k]| == ep.size && 0 < |chunks[k]| <= ep.size
         && wire[k][..|chunks[k]|] == chunks[k]
  }

  // The byte count and the error agree with what the device answered to the
  // first m submissions, all those waited for.
  ghost predicate Balanced<T>(ep: Endpoint, w: WriteState<T>, m: nat) {
    && w.total == Tally(ep, m)
    && w.ring.err == FirstError(ep, w.ring.attempts, m)
    && (w.ring.queue != [] ==> Clean(ep, m))
  }

  ghost predicate WriteInv<T>(ep: Endpoint, w: WriteState<T>) {
    && !ep.inbound
    && Sound(ep, {}, None, w.ring)
    && Balanced(ep, w, Max(0, Waits(ep, w.ring)))
    && Framed(ep, w.chunks, w.ring.wire)
  }
}
