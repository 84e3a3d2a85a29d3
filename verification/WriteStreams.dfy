// WriteStream. Each method does to the value of the stream exactly what the
// functions of StreamSpec and WriteTheorems say.
module WriteStreams {
  import opened Base
  import opened StreamSpec
  import opened RingLemmas
  import opened WriteTheorems
  import opened Transfers
  import opened Streams

  class WriteStream {
    const s: Stream
    var total: nat
    // What the writes copied into the buffer of each accepted submission.
    ghost var chunks: seq<seq<byte>>

    ghost function View(): WriteState<UsbTransfer>
      reads this, s
    {
      WriteState(s.view, total, chunks)
    }

    ghost predicate Valid()
      reads this, s, s.footprint
    {
      this !in s.footprint && s.Wired() && WriteInv(s.bus.ep, View())
    }

    constructor (s: Stream)
      requires s.Wired() && WriteInv(s.bus.ep, WriteState(s.view, 0, []))
      ensures this.s == s
      ensures View() == WriteState(s.view, 0, [])
      ensures Valid()
    {
      this.s := s;
      total, chunks := 0, [];
    }

    // The wait at the top of both loops.
    method TakeNext() returns (t: UsbTransfer, err: Option<Error>)
      requires this !in s.footprint && s.Wired() && s.view.open && s.view.queue != [] && WellFormed(s.bus.ep)
      requires Tracked(s.view)
      modifies this`total, s.footprint
      ensures s.Wired() && t == old(s.view).queue[0] && t in s.pool && !s.view.xfers[t].Flying?
      ensures View() == Taken(s.bus.ep, old(View()))
      ensures err == Answer(s.bus.ep, old(View()))
    {
      hide Stream.Wired, Wait, WellFormed;
      var x := s.Pop();
      t := x.value;
      var n;
      n, err := s.WaitFor(t);
      total := total + n;
    }

    // After a failed wait: whatever is left in flight must be ignored.
    method Ignore(e: Error)
      requires s.Wired() && s.view.open && WellFormed(s.bus.ep)
      requires Distinct(s.view.queue)
      requires forall u :: u in s.view.queue ==> !s.view.xfers[u].Freed?
      modifies s.footprint
      ensures s.Wired()
      ensures s.view == Flush(Fail(old(s.view), e))
    {
      s.GotError(e);
      s.FlushRemaining();
    }

    // The rest of a round of the write loop.
    method Fill(t: UsbTransfer, p: seq<byte>) returns (use: nat, err: Option<Error>)
      requires this !in s.footprint && s.Wired() && s.view.open && !s.view.finished && s.view.err.None?
      requires t in s.pool && s.view.xfers[t].Idle? && |s.view.queue| < |s.pool|
      modifies this`chunks, s.footprint
      ensures s.Wired()
      ensures Sent(View(), use, err) == StreamSpec.Fill(s.bus.ep, old(View()), t, p)
    {
      use := Min(|p|, t.mem.Length);
      assert t.mem.Length == |s.view.xfers[t].buf|;
      hide Stream.Wired, StreamSpec.Launch;
      s.CopyIn(t, p, use);
      use, err := Launch(t, p[..use]);
    }

    method Launch(t: UsbTransfer, chunk: seq<byte>) returns (use: nat, err: Option<Error>)
      requires this !in s.footprint && s.Wired() && s.view.open && !s.view.finished && s.view.err.None?
      requires t in s.pool && s.view.xfers[t].Idle? && |s.view.queue| < |s.pool|
      modifies this`chunks, s.footprint
      ensures s.Wired()
      ensures Sent(View(), use, err) == StreamSpec.Launch(s.bus.ep, old(View()), t, chunk)
    {
      hide Stream.Wired, Submit, Free;
      err := s.SubmitTo(t);
      if err.Some? {
        FreeThenFail(s.view, t, err.value);
        s.Release(t);
        s.GotError(err.value);
        s.NoMore();
        return 0, err;
      }
      s.Push(t);
      chunks := chunks + [chunk];
      return |chunk|, None;
    }

    // One round of the write loop.
    method SendOne(p: seq<byte>) returns (use: nat, err: Option<Error>)
      requires Valid() && s.view.open && s.view.err.None? && p != []
      modifies this`total, this`chunks, s.footprint
      ensures SendReady(old(View()))
      ensures Sent(View(), use, err) == StreamSpec.SendOne(s.bus.ep, old(View()), p)
      ensures Valid()
    {
      SendNeeds(s.bus.ep, View(), p);
      hide WriteInv, StreamSpec.Fill, Flush, Free, Fail, Taken, Answer, Stream.Wired;
      var t;
      t, err := TakeNext();
      if err.Some? {
        FreeThenFail(s.view, t, err.value);
        s.Release(t);
        Ignore(err.value);
        return 0, err;
      }
      use, err := Fill(t, p);
    }

    // The data are values: nothing writes to the slice while this runs.
    method WriteContext(p: seq<byte>) returns (written: nat, err: Option<Error>)
      requires Valid()
      modifies this`total, this`chunks, s.footprint
      ensures Sent(View(), written, err) == Write(s.bus.ep, old(View()), p)
      ensures Valid()
    {
      ghost var w := View();
      hide WriteInv, Stream.Wired, StreamSpec.SendOne;
      if s.transfers == null || s.err.Some? {
        return 0, Some(ErrClosedPipe);
      }
      written := 0;
      assert p[0..] == p;
      while written < |p|
        invariant Valid() && s.view.open && s.view.err.None? && written <= |p|
        invariant var rest := WriteAll(s.bus.ep, View(), p[written..]);
          WriteAll(s.bus.ep, w, p) == Sent(rest.state, written + rest.written, rest.err)
        decreases |p| - written
      {
        SendKeeps(s.bus.ep, View(), p[written..]);
        var use;
        use, err := SendOne(p[written..]);
        if err.Some? {
          return written, err;
        }
        assert p[written..][use..] == p[written + use..];
        written := written + use;
      }
      return written, None;
    }

    // One round of the loop of CloseContext. The second free is without effect.
    method CloseOne()
      requires this !in s.footprint && s.Wired() && s.view.open && s.view.queue != []
      requires Draining(s.bus.ep, View())
      modifies this`total, s.footprint
      ensures s.Wired() && s.view.open
      ensures View() == DrainOne(s.bus.ep, old(View()))
    {
      DrainNeeds(s.bus.ep, View());
      hide Draining, Flush, Free, Fail, Taken, Answer, Stream.Wired;
      var t, err := TakeNext();
      if err.Some? { FreeThenFail(s.view, t, err.value); }
      FreeTwice(s.view, t);
      s.Release(t);
      if err.Some? {
        Ignore(err.value);
      }
      s.Release(t);
    }

    method CloseContext() returns (err: Option<Error>)
      requires Valid()
      modifies this`total, s.footprint
      ensures (View(), WriteResult(0, err)) == Step(s.bus.ep, old(View()), WriteOp.CloseOp)
      ensures Valid()
    {
      ghost var w := View();
      CloseUnfolds(s.bus.ep, w);
      hide WriteInv, Stream.Wired, Draining, Step, CloseWrite;
      if s.transfers == null {
        return Some(ErrClosedPipe);
      }
      s.NoMore();
      ghost var d := View();
      while s.transfers.items != []
        invariant this !in s.footprint && s.Wired() && s.view.open && Draining(s.bus.ep, View())
        invariant Tracked(s.view) && Drain(s.bus.ep, View()) == Drain(s.bus.ep, d)
        decreases |s.view.queue|
      {
        DrainOneKeeps(s.bus.ep, View());
        CloseOne();
      }
      s.Forget();
      return s.err;
    }

    // Written may be called once the stream is closed. It then answers with the
    // bytes the device confirmed up to the first failed submission.
    method Written() returns (n: nat)
      requires Valid() && !s.view.open
      ensures n == Tally(s.bus.ep, Flown(s.bus.ep, s.view))
    {
      ClosedTally(s.bus.ep, View());
      return total;
    }
  }

  lemma ClosedTally<T>(ep: Endpoint, w: WriteState<T>)
    requires WriteInv(ep, w) && !w.ring.open
    ensures w.total == Tally(ep, Flown(ep, w.ring))
  {}

  ghost predicate SendReady<T>(w: WriteState<T>) {
    w.ring.queue != [] && Tracked(w.ring) && !w.ring.xfers[w.ring.queue[0]].Freed?
  }

  lemma FreeThenFail<T>(s: Ring<T>, t: T, e: Error)
    requires t in s.xfers && !s.xfers[t].Flying?
    ensures Free(Fail(s, e), t) == Fail(Free(s, t), e)
    ensures Free(s, t).open == s.open
  {
  }

  lemma FreeTwice<T>(s: Ring<T>, t: T)
    requires t in s.xfers && !s.xfers[t].Flying? && t !in s.queue
    ensures Free(Free(s, t), t) == Free(s, t)
    ensures forall e :: Free(Flush(Fail(Free(s, t), e)), t) == Flush(Fail(Free(s, t), e))
  {
  }

  lemma DrainNeeds<T>(ep: Endpoint, w: WriteState<T>)
    requires Draining(ep, w) && w.ring.queue != []
    ensures Tracked(w.ring) && WellFormed(ep)
    ensures var w' := Taken(ep, w);
      var t := w.ring.queue[0];
      && w'.ring.open == w.ring.open
      && t in w'.ring.xfers && w'.ring.xfers[t].Idle?
      && TakeNeeds(w'.ring, t)
  {
    TakeForDrain(ep, w);
    TakenNeeds(ep, w);
  }

  lemma CloseUnfolds<T>(ep: Endpoint, w: WriteState<T>)
    requires WriteInv(ep, w)
    ensures !w.ring.open ==> Step(ep, w, WriteOp.CloseOp) == (w, WriteResult(0, Some(ErrClosedPipe)))
    ensures w.ring.open ==>
      var w0 := w.(ring := w.ring.(finished := true));
      && Draining(ep, w0) && Tracked(w0.ring)
      && var d := Drain(ep, w0);
         Step(ep, w, WriteOp.CloseOp) == (d.(ring := d.ring.(open := false)), WriteResult(0, d.ring.err))
  {}

  lemma SendNeeds<T>(ep: Endpoint, w: WriteState<T>, p: seq<byte>)
    requires WriteInv(ep, w) && w.ring.open && w.ring.err.None? && p != []
    ensures SendReady(w) && WellFormed(ep)
    ensures var w' := Taken(ep, w);
      var t := w.ring.queue[0];
      && w'.ring.open && !w'.ring.finished && w'.ring.err.None?
      && t in w'.ring.xfers && w'.ring.xfers[t].Idle?
      && TakeNeeds(w'.ring, t)
    ensures WriteInv(ep, StreamSpec.SendOne(ep, w, p).state)
  {
    SendKeeps(ep, w, p);
    TakeAnswers(ep, w.ring);
    TakenNeeds(ep, w);
  }

  // What a round needs to know of the rest of the queue.
  ghost predicate TakeNeeds<T>(s: Ring<T>, t: T) {
    && Distinct(s.queue) && t !in s.queue && |s.queue| < |s.xfers.Keys|
    && (forall u :: u in s.queue ==> u in s.xfers && !s.xfers[u].Freed?)
  }

  lemma TakenNeeds<T>(ep: Endpoint, w: WriteState<T>)
    requires Queued(ep, w.ring) && w.ring.queue != []
    ensures TakeNeeds(Taken(ep, w).ring, w.ring.queue[0])
  {
    QueuedAlive(ep, w.ring);
    DistinctFits(w.ring.queue, w.ring.xfers.Keys);
  }

  // OutEndpoint.NewStream, once its transfers are allocated.
  method NewStream(bus: Bus, tt: seq<UsbTransfer>) returns (w: WriteStream)
    requires !bus.ep.inbound && bus.attempts == 0 && bus.wire == [] && bus.returned == multiset{}
    requires Separate(bus, tt) && Fresh(bus.ep, tt, Views(tt))
    ensures fresh(w) && w.s.bus == bus && w.s.pool == Elements(tt)
    ensures fresh(w.s.footprint - {bus} - Elements(tt) - Memory(Elements(tt)))
    ensures w.View() == NewWrite(tt, old(Views(tt))) && w.View().ring.open
    ensures w.Valid()
  {
    hide *;
    ghost var xfers := Views(tt);
    NewWriteStarts(bus.ep, tt, xfers);
    NewWriteIs(tt, xfers);
    var s := new Stream(bus, tt);
    w := new WriteStream(s);
  }

  lemma NewWriteIs<T>(pool: seq<T>, xfers: map<T, Xfer>)
    ensures NewWrite(pool, xfers) == WriteState(Ring(pool, true, None, false, xfers, 0, [], multiset{}), 0, [])
  {}
}
