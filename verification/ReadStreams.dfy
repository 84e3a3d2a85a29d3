// ReadStream. Each method does to the value of the stream exactly what the
// functions of StreamSpec say; ReadTheorems.dfy says what that amounts to.
module ReadStreams {
  import opened Base
  import opened StreamSpec
  import opened RingLemmas
  import opened ReadTheorems
  import opened Transfers
  import opened Streams

  class ReadStream {
    const s: Stream
    var current: UsbTransfer?
    var total: nat
    var used: nat
    // The transfers submitAll gave up on.
    ghost const dropped: set<UsbTransfer>

    ghost function View(): ReadState<UsbTransfer>
      reads this, s
    {
      var held: Option<UsbTransfer> := if current == null then None else Some(current);
      ReadState(s.view, held, total, used)
    }

    ghost predicate Valid()
      reads this, s, s.footprint
    {
      this !in s.footprint && s.Wired() && ReadInv(s.bus.ep, dropped, View())
    }

    constructor (s: Stream, ghost dropped: set<UsbTransfer>)
      requires s.Wired() && ReadInv(s.bus.ep, dropped, ReadState(s.view, None, 0, 0))
      ensures this.s == s && this.dropped == dropped
      ensures View() == ReadState(s.view, None, 0, 0)
      ensures Valid()
    {
      this.s, this.dropped := s, dropped;
      current, total, used := null, 0, 0;
    }

    // p must not be the memory of a transfer of this stream.
    method ReadContext(p: array<byte>) returns (n: nat, err: Option<Error>)
      requires Valid() && p !in s.footprint
      modifies this`current, this`total, this`used, s.footprint, p
      ensures var (r, res) := Step(s.bus.ep, dropped, old(View()), ReadOp(p.Length));
        && View() == r && res == ReadResult(n, err, res.bytes)
        && |res.bytes| == (if err.None? then n else 0) <= p.Length
        && p[..|res.bytes|] == res.bytes
        && forall i :: |res.bytes| <= i < p.Length ==> p[i] == old(p[i])
      ensures Valid()
    {
      ghost var r := View();
      ReadUnfolds(s.bus.ep, dropped, r, p.Length);
      hide ReadInv, ReadReady, Step, StreamSpec.Fetch, StreamSpec.Consume, Stream.Wired;
      if s.transfers == null {
        return 0, Some(ErrClosedPipe);
      }
      if current == null {
        n, err := Fetch();
        if current == null {
          return n, err;
        }
      }
      n := Consume(p);
      err := None;
    }

    method Close()
      requires Valid()
      modifies s.footprint
      ensures Valid()
      ensures View() == CloseRead(old(View()))
    {
      CloseKeeps(s.bus.ep, dropped, View());
      hide ReadInv, Stream.Wired;
      if s.transfers == null {
        return;
      }
      s.GotError(EOF);
      s.NoMore();
    }

    // The parts of ReadContext, in the order in which they run.
    method Fetch() returns (n: nat, err: Option<Error>)
      requires Valid() && s.view.open && current == null
      modifies this`current, this`total, this`used, s.footprint
      ensures s.Wired()
      ensures ReadReady(old(View()))
      ensures (View(), ReadResult(n, err, [])) == StreamSpec.Fetch(s.bus.ep, old(View()))
    {
      FetchNeeds(s.bus.ep, dropped, View());
      hide ReadInv, StreamSpec.Receive, Stream.Wired;
      var x := s.Pop();
      if x.None? {
        s.Forget();
        return 0, s.err;
      }
      n, err := Receive(x.value);
    }

    method Receive(t: UsbTransfer) returns (n: nat, err: Option<Error>)
      requires this !in s.footprint && s.Wired() && s.view.open && WellFormed(s.bus.ep)
      requires t in s.pool && Distinct(s.view.queue) && t !in s.view.queue
      requires forall u :: u in s.view.queue ==> !s.view.xfers[u].Freed?
      modifies this`current, this`total, this`used, s.footprint
      ensures s.Wired()
      ensures (View(), ReadResult(n, err, [])) == StreamSpec.Receive(s.bus.ep, old(View()), t)
    {
      hide Free, Flush, Stream.Wired;
      n, err := s.WaitFor(t);
      if err.Some? {
        Abort(t);
      } else {
        current := t;
        total := n;
        used := 0;
        n := 0;
      }
    }

    // A failed wait: all remaining data is invalid.
    method Abort(t: UsbTransfer)
      requires s.Wired() && s.view.open && WellFormed(s.bus.ep)
      requires t in s.pool && !s.view.xfers[t].Flying?
      requires Distinct(s.view.queue) && t !in s.view.queue
      requires forall u :: u in s.view.queue ==> !s.view.xfers[u].Freed?
      modifies s.footprint
      ensures s.Wired()
      ensures s.view == Flush(StreamSpec.Free(old(s.view), t)).(open := false)
    {
      s.Release(t);
      s.FlushRemaining();
      s.Forget();
    }

    // A used-up transfer goes back into flight, or is given back.
    method Recycle()
      requires this !in s.footprint && s.Wired()
      requires ConsumeReady(View())
      modifies this`current, s.footprint
      ensures s.Wired()
      ensures View() == StreamSpec.Recycle(s.bus.ep, old(View()))
    {
      hide Stream.Wired, Free, StreamSpec.Resubmit;
      var t := current;
      if s.err.None? {
        Resubmit(t);
      }
      if s.err.Some? {
        s.Release(t);
      }
      current := null;
    }

    method Resubmit(t: UsbTransfer)
      requires s.Wired() && s.view.open && !s.view.finished && s.view.err.None?
      requires t in s.pool && s.view.xfers[t].Idle? && |s.view.queue| < |s.pool|
      modifies s.footprint
      ensures s.Wired()
      ensures s.view == StreamSpec.Resubmit(s.bus.ep, old(s.view), t)
      ensures !s.view.xfers[t].Flying? || s.view.err.None?
    {
      var e := s.SubmitTo(t);
      if e.None? {
        s.Push(t);
      } else {
        s.GotError(e.value);
        s.NoMore();
      }
    }

    // Copies what fits of the current transfer to p.
    method Consume(p: array<byte>) returns (n: nat)
      requires this !in s.footprint && p !in s.footprint
      requires s.Wired() && ConsumeReady(View())
      modifies this`current, this`used, s.footprint, p
      ensures s.Wired()
      ensures var (r, res) := StreamSpec.Consume(s.bus.ep, old(View()), p.Length);
        && View() == r && res == ReadResult(n, None, res.bytes) && n == |res.bytes| <= p.Length
        && p[..|res.bytes|] == res.bytes
        && forall i :: n <= i < p.Length ==> p[i] == old(p[i])
    {
      n := Min(total - used, p.Length);
      CopyOut(current, used, n, p);
      used := used + n;
      hide StreamSpec.Recycle, Stream.Wired;
      if used == total {
        Recycle();
      }
    }

    // copy(p, t.data()[from:from+n])
    method CopyOut(t: UsbTransfer, from: nat, n: nat, p: array<byte>)
      requires t.live && !t.submitted && p != t.mem
      requires from + n <= t.mem.Length && n <= p.Length
      modifies p
      ensures p[..n] == t.mem[from..from + n]
      ensures forall i :: n <= i < p.Length ==> p[i] == old(p[i])
    {
      forall i | 0 <= i < n {
        p[i] := t.mem[from + i];
      }
    }
  }

  // InEndpoint.NewStream, once its transfers are allocated.
  method NewStream(bus: Bus, tt: seq<UsbTransfer>) returns (r: ReadStream)
    requires bus.ep.inbound && bus.attempts == 0 && bus.wire == [] && bus.returned == multiset{}
    requires Separate(bus, tt) && Fresh(bus.ep, tt, Views(tt))
    modifies bus, Elements(tt), Memory(Elements(tt))
    ensures fresh(r) && r.s.bus == bus && r.s.pool == Elements(tt)
    ensures fresh(r.s.footprint - {bus} - Elements(tt) - Memory(Elements(tt)))
    ensures r.View() == NewRead(bus.ep, tt, old(Views(tt)))
    ensures r.dropped == Abandoned(tt, AcceptedRun(bus.ep, 0, |tt|))
    ensures r.Valid() && Started(bus.ep, r.dropped, r.View())
  {
    ghost var xfers := Views(tt);
    NewReadStarts(bus.ep, tt, xfers);
    FreshIsIdle(bus.ep, tt, xfers);
    hide Fresh, Separate, Views, Started, Abandoned, NewRead, NewRing, AcceptedRun, SubmitFrom, ReadInv,
      Stream.Wired, ReadStream.Valid, ReadStream.View;
    var s := new Stream(bus, tt);
    assert s.view.(queue := []) == NewRing([], xfers);
    s.SubmitAll();
    r := new ReadStream(s, Abandoned(tt, AcceptedRun(bus.ep, 0, |tt|)));
  }

  lemma FreshIsIdle<T>(ep: Endpoint, tt: seq<T>, xfers: map<T, Xfer>)
    requires Fresh(ep, tt, xfers)
    ensures Distinct(tt) && forall t :: t in tt ==> t in xfers && xfers[t].Idle?
    ensures NewRead(ep, tt, xfers) == ReadState(SubmitFrom(ep, NewRing([], xfers), tt), None, 0, 0)
    ensures NewRing([], xfers) == Ring([], true, None, false, xfers, 0, [], multiset{})
    ensures Started(ep, Abandoned(tt, AcceptedRun(ep, 0, |tt|)), NewRead(ep, tt, xfers)) ==>
      ReadInv(ep, Abandoned(tt, AcceptedRun(ep, 0, |tt|)), NewRead(ep, tt, xfers))
  {
  }

  ghost predicate ConsumeReady<T>(r: ReadState<T>) {
    && r.ring.open && r.current.Some? && ReadReady(r)
    && (r.ring.finished <==> r.ring.err.Some?)
    && |r.ring.queue| < |r.ring.xfers.Keys|
  }

  lemma CoreIsReady<T>(ep: Endpoint, dropped: set<T>, r: ReadState<T>)
    requires ReadCore(ep, dropped, r) && r.ring.open && r.current.Some?
    ensures ConsumeReady(r)
  {
    DistinctFits(r.ring.queue + [r.current.value], r.ring.xfers.Keys);
  }

  // A read in its parts.
  lemma ReadUnfolds<T>(ep: Endpoint, dropped: set<T>, r: ReadState<T>, room: nat)
    requires ReadInv(ep, dropped, r)
    ensures !r.ring.open ==> Step(ep, dropped, r, ReadOp(room)) == (r, ReadResult(0, Some(ErrClosedPipe), []))
    ensures r.ring.open && r.current.Some? ==>
      ConsumeReady(r) && Step(ep, dropped, r, ReadOp(room)) == Consume(ep, r, room)
    ensures r.ring.open && r.current.None? ==>
      && ReadReady(r)
      && var f := Fetch(ep, r);
         && f.1.bytes == []
         && (f.0.current.None? ==> f.1.err.Some? && Step(ep, dropped, r, ReadOp(room)) == f)
         && (f.0.current.Some? ==>
               ConsumeReady(f.0) && Step(ep, dropped, r, ReadOp(room)) == Consume(ep, f.0, room))
  {
    if r.ring.open {
      ReadKeeps(ep, dropped, r, room);
      if r.current.Some? {
        CoreIsReady(ep, dropped, r);
      } else {
        FetchKeeps(ep, dropped, r);
        var f := Fetch(ep, r).0;
        if f.current.Some? { CoreIsReady(ep, dropped, f); }
      }
    }
  }

  lemma FetchNeeds<T>(ep: Endpoint, dropped: set<T>, r: ReadState<T>)
    requires ReadInv(ep, dropped, r) && r.ring.open && r.current.None?
    ensures WellFormed(ep) && ReadReady(r) && Distinct(r.ring.queue)
    ensures r.ring.queue != [] || r.ring.finished
    ensures forall t :: t in r.ring.queue ==> t in r.ring.xfers && !r.ring.xfers[t].Freed?
  {
    QueuedAlive(ep, r.ring);
    assert exists t :: t in r.ring.xfers;
  }
}
