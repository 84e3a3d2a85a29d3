// The write stream over whole runs.
module WriteTheorems {
  import opened Base
  import opened StreamSpec
  import opened RingLemmas

  // ---- one call ----

  // Counting one more submission.
  lemma TallyStep(ep: Endpoint, m: nat)
    requires Clean(ep, m) && ep.outcome(m).Done?
    ensures Tally(ep, m + 1) == Tally(ep, m) + ep.outcome(m).n
    ensures FirstBroken(ep, m).None?
    ensures FirstBroken(ep, m + 1) == ep.outcome(m).err
    ensures ep.outcome(m).err.None? ==> Clean(ep, m + 1)
  {
    CleanIsUnbroken(ep, m);
  }

  lemma {:induction false} CleanIsUnbroken(ep: Endpoint, m: nat)
    requires Clean(ep, m)
    ensures FirstBroken(ep, m).None?
  {
    if m > 0 { CleanIsUnbroken(ep, m - 1); }
  }

  lemma TakenBalances<T>(ep: Endpoint, w: WriteState<T>)
    requires Queued(ep, w.ring) && w.ring.queue != []
    requires Balanced(ep, w, Max(0, Waits(ep, w.ring)))
    ensures var w' := Taken(ep, w);
      var m := Max(0, Waits(ep, w'.ring));
      && Waits(ep, w'.ring) == Waits(ep, w.ring) + 1
      && w'.total == Tally(ep, m)
      && (Answer(ep, w).None? ==> Clean(ep, m) && FirstBroken(ep, m).None?)
      && (Answer(ep, w).Some? ==> m == Waits(ep, w'.ring) && FirstBroken(ep, m) == Answer(ep, w))
  {
    TakeAnswers(ep, w.ring);
    var v := Waits(ep, w.ring);
    if v >= 0 { TallyStep(ep, v); }
  }

  // Nothing is counted after the first failure.
  lemma {:induction false} TallyStops(ep: Endpoint, m: nat, n: nat)
    requires m <= n && FirstBroken(ep, m).Some?
    ensures Tally(ep, n) == Tally(ep, m) && FirstBroken(ep, n) == FirstBroken(ep, m)
  {
    if m < n {
      TallyStops(ep, m, n - 1);
      if Clean(ep, n - 1) { CleanIsUnbroken(ep, n - 1); }
    }
  }

  lemma FailKeeps<T>(ep: Endpoint, t: T, s: Ring<T>, e: Error)
    requires Kept(ep, {}, Some(t), s)
    ensures Kept(ep, {}, Some(t), Fail(s, e))
  {
    assert Waits(ep, Fail(s, e)) == Waits(ep, s);
  }

  // A failed wait: everything left is flushed, and the books are closed.
  lemma BreakKeeps<T>(ep: Endpoint, w: WriteState<T>, t: T, e: Error)
    requires Kept(ep, {}, Some(t), w.ring)
    requires 0 <= Waits(ep, w.ring)
    requires w.total == Tally(ep, Waits(ep, w.ring))
    requires FirstBroken(ep, Waits(ep, w.ring)) == Some(e)
    requires w.ring.err == FirstError(ep, w.ring.attempts, 0)
    ensures var s := Flush(Free(Fail(w.ring, e), t));
      && Kept(ep, {}, None, s) && s.err.Some? && s.finished && s.queue == []
      && Balanced(ep, w.(ring := s), Waits(ep, s))
  {
    hide Sound, Ledger, Settled, InPlace;
    FailKeeps(ep, t, w.ring, e);
    FlushKeeps(ep, {}, Fail(w.ring, e), t);
    TallyStops(ep, Waits(ep, w.ring), Flown(ep, w.ring));
  }

  // When a wait fails every transfer left in the queue is in flight, as the
  // comment in the source claims.
  lemma BrokenMeansAllFlying<T>(ep: Endpoint, w: WriteState<T>)
    requires Queued(ep, w.ring) && w.ring.queue != [] && Answer(ep, w).Some?
    ensures forall t :: t in w.ring.queue ==> w.ring.xfers[t].Flying?
  {
    TakeAnswers(ep, w.ring);
    forall t | t in w.ring.queue ensures w.ring.xfers[t].Flying? {
      var i :| 0 <= i < |w.ring.queue| && w.ring.queue[i] == t;
      assert InPlace(ep, Waits(ep, w.ring), w.ring.queue, w.ring.xfers, i);
    }
  }

  // The wait of a round touches only its transfer and the count.
  lemma TakenShape<T>(ep: Endpoint, w: WriteState<T>)
    requires w.ring.queue != [] && Tracked(w.ring)
    ensures var w' := Taken(ep, w);
      && w'.ring == Wait(ep, w.ring.(queue := w.ring.queue[1..]), w.ring.queue[0]).0
      && w'.chunks == w.chunks && w'.ring.wire == w.ring.wire
      && w'.ring.open == w.ring.open && w'.ring.err == w.ring.err && w'.ring.attempts == w.ring.attempts
  {}

  lemma BrokenInv<T>(ep: Endpoint, w: WriteState<T>, t: T, e: Error)
    requires t in w.ring.xfers && !w.ring.xfers[t].Flying? && !ep.inbound && w.ring.open
    requires var s := Flush(Free(Fail(w.ring, e), t));
      && Kept(ep, {}, None, s) && s.err.Some? && s.finished && s.queue == []
      && Balanced(ep, w.(ring := s), Waits(ep, s)) && 0 <= Waits(ep, s)
    requires Framed(ep, w.chunks, w.ring.wire) && w.ring.err.None?
    ensures var s := Flush(Free(Fail(w.ring, e), t));
      WriteInv(ep, w.(ring := s)) && s.open && s.err == Some(e)
  {
    hide Kept, Balanced, Waits, Framed;
  }

  lemma SendBroken<T>(ep: Endpoint, w: WriteState<T>, p: seq<byte>)
    requires WriteInv(ep, w) && w.ring.open && w.ring.err.None? && w.ring.queue != []
    requires Answer(ep, w).Some?
    requires !w.ring.xfers[w.ring.queue[0]].Freed?
    ensures var o := SendOne(ep, w, p);
      && WriteInv(ep, o.state) && o.state.ring.open && o.state.ring.err == o.err
      && o.err.Some? && o.written == 0 && o.state.chunks == w.chunks
  {
    var t := w.ring.queue[0];
    var w', e := Taken(ep, w), Answer(ep, w).value;
    TakeKeeps(ep, {}, w.ring);
    TakenBalances(ep, w);
    TakenShape(ep, w);
    BreakKeeps(ep, w', t, e);
    hide Taken, Answer, Kept, Balanced, Flush, Free, Fail, Tally, FirstBroken, FirstError;
    BrokenInv(ep, w', t, e);
  }

  // The wait succeeds and there is data left.
  lemma FillKeeps<T>(ep: Endpoint, w: WriteState<T>, t: T, p: seq<byte>)
    requires Sound(ep, {}, Some(t), w.ring) && w.ring.open && w.ring.err.None? && p != []
    ensures var o := Fill(ep, w, t, p);
      && Sound(ep, {}, None, o.state.ring)
      && Waits(ep, o.state.ring) == Waits(ep, w.ring)
  {
    var buf := w.ring.xfers[t].buf;
    var use := Min(|p|, |buf|);
    var filled := w.ring.(xfers := w.ring.xfers[t := Idle(p[..use] + buf[use..])]);
    forall i | 0 <= i < |filled.queue| ensures InPlace(ep, Waits(ep, filled), filled.queue, filled.xfers, i) {
      assert InPlace(ep, Waits(ep, w.ring), w.ring.queue, w.ring.xfers, i);
    }
    SubmitKeeps(ep, {}, filled, t);
  }

  lemma FillFrames<T>(ep: Endpoint, w: WriteState<T>, t: T, p: seq<byte>)
    requires Ledger(ep, {}, Some(t), w.ring) && ep.size > 0 && p != []
    requires Framed(ep, w.chunks, w.ring.wire)
    ensures var o := Fill(ep, w, t, p);
      && Framed(ep, o.state.chunks, o.state.ring.wire)
      && (o.err.None? ==> 0 < o.written == Min(|p|, ep.size) && o.state.chunks == w.chunks + [p[..o.written]])
      && (o.err.Some? ==> o.written == 0 && o.state.chunks == w.chunks)
  {
  }

  // Filling and submitting when every wait so far succeeded.
  lemma FillBalances<T>(ep: Endpoint, w: WriteState<T>, t: T, p: seq<byte>)
    requires Sound(ep, {}, Some(t), w.ring) && w.ring.open && w.ring.err.None?
    requires var m := Max(0, Waits(ep, w.ring));
      w.total == Tally(ep, m) && Clean(ep, m) && FirstBroken(ep, m).None?
    ensures var o := Fill(ep, w, t, p);
      && Balanced(ep, o.state, Max(0, Waits(ep, w.ring)))
      && o.state.ring.open && o.state.ring.err == o.err
      && (o.err.None? ==> o.state.ring.queue != [])
  {
  }

  // One round of the write loop.
  lemma SendKeeps<T>(ep: Endpoint, w: WriteState<T>, p: seq<byte>)
    requires WriteInv(ep, w) && w.ring.open && w.ring.err.None? && p != []
    ensures w.ring.queue != [] && Tracked(w.ring) && !w.ring.xfers[w.ring.queue[0]].Freed?
    ensures var o := SendOne(ep, w, p);
      && WriteInv(ep, o.state) && o.state.ring.open && o.state.ring.err == o.err
      && (o.err.None? ==> 0 < o.written == Min(|p|, ep.size) && o.state.chunks == w.chunks + [p[..o.written]])
      && (o.err.Some? ==> o.written == 0 && o.state.chunks == w.chunks)
  {
    assert exists t :: t in w.ring.xfers;
    QueuedAlive(ep, w.ring);
    if Answer(ep, w).Some? { SendBroken(ep, w, p); } else { SendNext(ep, w, p); }
  }

  lemma SendNext<T>(ep: Endpoint, w: WriteState<T>, p: seq<byte>)
    requires WriteInv(ep, w) && w.ring.open && w.ring.err.None? && w.ring.queue != [] && p != []
    requires Answer(ep, w).None?
    requires !w.ring.xfers[w.ring.queue[0]].Freed?
    ensures var o := SendOne(ep, w, p);
      && WriteInv(ep, o.state) && o.state.ring.open && o.state.ring.err == o.err
      && (o.err.None? ==> 0 < o.written == Min(|p|, ep.size) && o.state.chunks == w.chunks + [p[..o.written]])
      && (o.err.Some? ==> o.written == 0 && o.state.chunks == w.chunks)
  {
    TakeKeeps(ep, {}, w.ring);
    TakenBalances(ep, w);
    var w' := Taken(ep, w);
    FillKeeps(ep, w', w.ring.queue[0], p);
    FillFrames(ep, w', w.ring.queue[0], p);
    FillBalances(ep, w', w.ring.queue[0], p);
  }

  // What a round does, in terms of the answers of the device: the oldest submission
  // is waited for, if the transfer was submitted before; if that succeeds, the
  // front of the buffer is overwritten with the next data, and the rest stays as
  // the device left it; and the whole buffer is submitted.
  lemma RoundIs<T>(ep: Endpoint, w: WriteState<T>, p: seq<byte>)
    requires WriteInv(ep, w) && w.ring.open && w.ring.err.None? && p != []
    ensures w.ring.queue != [] && Tracked(w.ring) && !w.ring.xfers[w.ring.queue[0]].Freed?
    ensures var o := SendOne(ep, w, p);
      var v := Waits(ep, w.ring);
      var before := if v >= 0 then ep.outcome(v).contents else w.ring.xfers[w.ring.queue[0]].buf;
      var submit := ep.outcome(w.ring.attempts);
      && (v >= 0 ==> ep.outcome(v).Done?) && |before| == ep.size
      && o.state.total == w.total + (if v >= 0 then ep.outcome(v).n else 0)
      && (if v >= 0 && ep.outcome(v).err.Some? then
            o.err == ep.outcome(v).err && o.state.ring.attempts == w.ring.attempts
          else
            && o.err == (if submit.Rejected? then Some(submit.reason) else None)
            && o.state.ring.attempts == w.ring.attempts + 1)
      && (if o.err.Some? then o.written == 0 && o.state.ring.wire == w.ring.wire
          else
            && o.written == (if |p| < ep.size then |p| else ep.size)
            && o.state.ring.wire == w.ring.wire + [p[..o.written] + before[o.written..]])
  {
    SendKeeps(ep, w, p);
    TakeAnswers(ep, w.ring);
    assert InPlace(ep, Waits(ep, w.ring), w.ring.queue, w.ring.xfers, 0);
    hide Sound, Balanced, Framed;
  }

  // The loop of WriteContext. It ends because every round without an error
  // writes something.
  ghost function WriteAll<T>(ep: Endpoint, w: WriteState<T>, p: seq<byte>): (o: Sent<T>)
    requires WriteInv(ep, w) && w.ring.open && w.ring.err.None?
    ensures WriteInv(ep, o.state) && o.state.ring.open && o.state.ring.err == o.err
    decreases |p|
  {
    if p == [] then Sent(w, 0, None) else
      SendKeeps(ep, w, p);
      var o := SendOne(ep, w, p);
      if o.err.Some? then o else
        var rest := WriteAll(ep, o.state, p[o.written..]);
        Sent(rest.state, o.written + rest.written, rest.err)
  }

  ghost function Write<T>(ep: Endpoint, w: WriteState<T>, p: seq<byte>): (o: Sent<T>)
    requires WriteInv(ep, w)
    ensures WriteInv(ep, o.state)
  {
    if !w.ring.open || w.ring.err.Some? then Sent(w, 0, Some(ErrClosedPipe)) else WriteAll(ep, w, p)
  }

  // ---- what a write does to the data ----

  ghost function Flatten(chunks: seq<seq<byte>>): seq<byte> {
    if chunks == [] then [] else Flatten(chunks[..|chunks| - 1]) + chunks[|chunks| - 1]
  }

  // Chunks that came from one call: all full, except perhaps the last chunk of
  // a call that wrote everything.
  ghost predicate FullBut(ep: Endpoint, chunks: seq<seq<byte>>, from: nat, complete: bool) {
    forall k :: from <= k < |chunks| ==> |chunks[k]| == ep.size || (complete && k == |chunks| - 1)
  }

  ghost predicate Copied<T>(ep: Endpoint, w: WriteState<T>, p: seq<byte>, o: Sent<T>) {
    && o.written <= |p|
    && Flatten(o.state.chunks) == Flatten(w.chunks) + p[..o.written]
    && w.chunks <= o.state.chunks
    && FullBut(ep, o.state.chunks, |w.chunks|, o.written == |p|)
    && (o.err.None? ==> o.written == |p|)
    && (p == [] ==> o.state.chunks == w.chunks)
  }

  lemma CopiedNothing<T>(ep: Endpoint, w: WriteState<T>, p: seq<byte>, o: Sent<T>)
    requires o.written == 0 && o.state.chunks == w.chunks
    requires o.err.Some? || p == []
    ensures Copied(ep, w, p, o)
  {
  }

  lemma CopiedAfter<T>(ep: Endpoint, w: WriteState<T>, p: seq<byte>, o: Sent<T>, rest: Sent<T>)
    requires 0 < o.written == Min(|p|, ep.size) && o.state.chunks == w.chunks + [p[..o.written]]
    requires Copied(ep, o.state, p[o.written..], rest)
    ensures Copied(ep, w, p, Sent(rest.state, o.written + rest.written, rest.err))
  {}

  // A write copies exactly the front part of the data it reports as written,
  // into full-size chunks; without an error that is all of the data.
  lemma {:induction false} WriteCopies<T>(ep: Endpoint, w: WriteState<T>, p: seq<byte>)
    requires WriteInv(ep, w)
    ensures Copied(ep, w, p, Write(ep, w, p))
    decreases |p|
  {
    hide Kept, Balanced, Copied, SendOne;
    if !w.ring.open || w.ring.err.Some? || p == [] {
      CopiedNothing(ep, w, p, Write(ep, w, p));
    } else {
      SendKeeps(ep, w, p);
      var o := SendOne(ep, w, p);
      if o.err.Some? { CopiedNothing(ep, w, p, o); }
      else {
        WriteCopies(ep, o.state, p[o.written..]);
        CopiedAfter(ep, w, p, o, WriteAll(ep, o.state, p[o.written..]));
      }
    }
  }

  ghost predicate AllFull(ep: Endpoint, chunks: seq<seq<byte>>) {
    forall k :: 0 <= k < |chunks| ==> |chunks[k]| == ep.size
  }

  lemma {:induction false} FlatLength(ep: Endpoint, chunks: seq<seq<byte>>)
    requires forall k :: 0 <= k < |chunks| ==> |chunks[k]| <= ep.size
    ensures |Flatten(chunks)| <= |chunks| * ep.size
    ensures |Flatten(chunks)| == |chunks| * ep.size <==> AllFull(ep, chunks)
  {
    if chunks != [] {
      var m := |chunks| - 1;
      FlatLength(ep, chunks[..m]);
      assert |chunks| * ep.size == m * ep.size + ep.size;
      assert AllFull(ep, chunks) <==> AllFull(ep, chunks[..m]) && |chunks[m]| == ep.size;
    }
  }

  // The documentation says that the last transfer of a Write is sent with less
  // data than the full buffer. It is not: libusb always gets the whole buffer,
  // so what is handed over is the data written if and only if every chunk is
  // full.
  lemma ShortChunksArePadded(ep: Endpoint, chunks: seq<seq<byte>>, wire: seq<seq<byte>>)
    requires Framed(ep, chunks, wire)
    ensures |Flatten(wire)| == |chunks| * ep.size
    ensures Flatten(wire) == Flatten(chunks) <==> AllFull(ep, chunks)
  {
    FlatLength(ep, wire);
    FlatLength(ep, chunks);
    if AllFull(ep, chunks) {
      forall k | 0 <= k < |wire| ensures wire[k] == chunks[k] {
        assert wire[k] == wire[k][..|chunks[k]|];
      }
      assert wire == chunks;
    }
  }

  // ---- closing ----

  // What the loop of CloseContext achieves: everything is waited for and given
  // back, and the books are closed.
  ghost predicate Drained<T>(ep: Endpoint, w: WriteState<T>, d: WriteState<T>) {
    && Kept(ep, {}, None, d.ring) && d.ring.finished && d.ring.queue == []
    && d.ring.attempts == w.ring.attempts
    && d.ring.wire == w.ring.wire && d.chunks == w.chunks
    && Balanced(ep, d, Flown(ep, d.ring))
  }

  // The invariant of that loop.
  ghost predicate Draining<T>(ep: Endpoint, w: WriteState<T>) {
    && Kept(ep, {}, None, w.ring) && w.ring.finished
    && Balanced(ep, w, Max(0, Waits(ep, w.ring)))
  }

  lemma {:induction false} DrainKeeps<T>(ep: Endpoint, w: WriteState<T>)
    requires Draining(ep, w)
    ensures Drained(ep, w, Drain(ep, w))
    decreases |w.ring.queue|
  {
    if w.ring.queue != [] {
      DrainOneKeeps(ep, w);
      DrainKeeps(ep, DrainOne(ep, w));
    }
  }

  lemma DrainOneKeeps<T>(ep: Endpoint, w: WriteState<T>)
    requires Draining(ep, w) && w.ring.queue != []
    ensures Tracked(w.ring)
    ensures var w' := DrainOne(ep, w);
      && Draining(ep, w') && |w'.ring.queue| < |w.ring.queue|
      && w'.ring.attempts == w.ring.attempts && w'.ring.wire == w.ring.wire && w'.chunks == w.chunks
  {
    TakeForDrain(ep, w);
    if Answer(ep, w).Some? { BreakKeeps(ep, Taken(ep, w), w.ring.queue[0], Answer(ep, w).value); }
  }

  lemma DrainingIs<T>(ep: Endpoint, w: WriteState<T>)
    requires Draining(ep, w)
    ensures Kept(ep, {}, None, w.ring) && Queued(ep, w.ring) && Tracked(w.ring) && w.ring.finished
    ensures Balanced(ep, w, Max(0, Waits(ep, w.ring)))
  {
    hide Queued, Ledger, Settled, Balanced;
    assert Queued(ep, w.ring);
    hide Kept;
    QueuedIsTracked(ep, w.ring);
  }

  lemma QueuedIsTracked<T>(ep: Endpoint, s: Ring<T>)
    requires Queued(ep, s)
    ensures Tracked(s)
  {}

  lemma DrainingOn<T>(ep: Endpoint, w: WriteState<T>)
    requires Kept(ep, {}, None, w.ring) && w.ring.finished
    requires Balanced(ep, w, Max(0, Waits(ep, w.ring)))
    ensures Draining(ep, w)
  {}

  lemma FreeShape<T>(ep: Endpoint, s: Ring<T>, t: T)
    requires t in s.xfers && !s.xfers[t].Flying?
    ensures var f := Free(s, t);
      && Waits(ep, f) == Waits(ep, s) && f.queue == s.queue && f.finished == s.finished
      && f.err == s.err && f.attempts == s.attempts
  {}

  lemma TakeForDrain<T>(ep: Endpoint, w: WriteState<T>)
    requires Draining(ep, w) && w.ring.queue != []
    ensures Tracked(w.ring)
    ensures var w' := Taken(ep, w);
      var t := w.ring.queue[0];
      && Kept(ep, {}, Some(t), w'.ring) && t in w'.ring.xfers && w'.ring.xfers[t].Idle?
      && w'.ring.err == FirstError(ep, w'.ring.attempts, 0)
      && (Answer(ep, w).Some? ==>
            && 0 <= Waits(ep, w'.ring)
            && w'.total == Tally(ep, Waits(ep, w'.ring))
            && FirstBroken(ep, Waits(ep, w'.ring)) == Answer(ep, w))
      && (Answer(ep, w).None? ==> Draining(ep, w'.(ring := Free(w'.ring, t))))
  {
    DrainingIs(ep, w);
    TakeKeeps(ep, {}, w.ring);
    TakenBalances(ep, w);
    TakenShape(ep, w);
    TakeAnswers(ep, w.ring);
    CleanIsUnbroken(ep, Max(0, Waits(ep, w.ring)));
    var s, t := Taken(ep, w).ring, w.ring.queue[0];
    hide Draining, Kept, Queued, Taken, Answer, Wait, Tally, Clean, FirstBroken, Waits;
    FreeKeeps(ep, {}, s, t);
    FreeShape(ep, s, t);
    if Answer(ep, w).None? { DrainingOn(ep, Taken(ep, w).(ring := Free(s, t))); }
  }

  // The bytes reported for the first m submissions, failed ones included.
  ghost function Reported(ep: Endpoint, m: nat): nat {
    if m == 0 then 0 else Reported(ep, m - 1) + if ep.outcome(m - 1).Done? then ep.outcome(m - 1).n else 0
  }

  lemma {:induction false} TallyOfClean(ep: Endpoint, m: nat)
    requires forall k: nat :: k < m ==> ep.outcome(k).Done?
    ensures Clean(ep, m) ==> Tally(ep, m) == Reported(ep, m)
    ensures Clean(ep, m) <==> FirstBroken(ep, m).None?
  {
    if m > 0 { TallyOfClean(ep, m - 1); }
  }

  lemma KeptWhenFinished<T>(ep: Endpoint, s: Ring<T>)
    requires Kept(ep, {}, None, s)
    ensures Kept(ep, {}, None, s.(finished := true))
    ensures Tracked(s)
    ensures forall k: nat :: k < Flown(ep, s) ==> ep.outcome(k).Done?
    ensures s.err.None? ==> Flown(ep, s) == s.attempts
  {
    assert Waits(ep, s.(finished := true)) == Waits(ep, s);
  }

  lemma KeptWhenClosed<T>(ep: Endpoint, s: Ring<T>)
    requires Kept(ep, {}, None, s) && s.finished && s.queue == []
    ensures Sound(ep, {}, None, s.(open := false))
  {}

  // Close reports the first error of the stream; it reports none exactly when
  // no submit and no wait failed, and then Written covers every submission.
  // Otherwise Written covers the submissions up to the first failed one.
  lemma CloseReports<T>(ep: Endpoint, w: WriteState<T>)
    requires WriteInv(ep, w) && w.ring.open
    ensures var (w', e) := CloseWrite(ep, w);
      var m := Flown(ep, w.ring);
      && WriteInv(ep, w') && !w'.ring.open
      && Flown(ep, w'.ring) == m && w'.ring.attempts == w.ring.attempts
      && w'.chunks == w.chunks
      && w'.total == Tally(ep, m)
      && e == FirstError(ep, w.ring.attempts, m)
      && (w.ring.err.Some? ==> e == w.ring.err)
      && (e.None? <==> forall k: nat :: k < w.ring.attempts ==> ep.outcome(k).Done? && ep.outcome(k).err.None?)
      && (e.None? ==> w'.total == Reported(ep, w.ring.attempts))
  {
    CloseEnds(ep, w);
    CloseAnswers(ep, w);
    hide *;
  }

  lemma DrainingStarts<T>(ep: Endpoint, w: WriteState<T>)
    requires WriteInv(ep, w) && w.ring.open
    ensures var w0 := w.(ring := w.ring.(finished := true));
      Draining(ep, w0) && Tracked(w.ring) && Tracked(w0.ring) && Flown(ep, w0.ring) == Flown(ep, w.ring)
  {
    KeptWhenFinished(ep, w.ring);
    hide Kept, Framed;
    assert Waits(ep, w.ring.(finished := true)) == Waits(ep, w.ring);
  }

  lemma CloseIs<T>(ep: Endpoint, w: WriteState<T>)
    requires w.ring.open && Tracked(w.ring)
    ensures var w0 := w.(ring := w.ring.(finished := true));
      && Tracked(w0.ring)
      && var d := Drain(ep, w0);
         CloseWrite(ep, w) == (d.(ring := d.ring.(open := false)), d.ring.err)
  {
    hide Drain;
  }

  lemma DrainedMeans<T>(ep: Endpoint, w: WriteState<T>, d: WriteState<T>)
    requires WriteInv(ep, w) && Drained(ep, w.(ring := w.ring.(finished := true)), d)
    ensures var w' := d.(ring := d.ring.(open := false));
      var m := Flown(ep, w.ring);
      && WriteInv(ep, w') && !w'.ring.open
      && Flown(ep, w'.ring) == m && w'.ring.attempts == w.ring.attempts
      && w'.chunks == w.chunks && w'.total == Tally(ep, m)
      && d.ring.err == FirstError(ep, w.ring.attempts, m)
  {
    KeptWhenClosed(ep, d.ring);
    hide Kept, Sound, Clean, Tally, FirstBroken, Framed;
  }

  // The books after Close.
  lemma CloseEnds<T>(ep: Endpoint, w: WriteState<T>)
    requires WriteInv(ep, w) && w.ring.open
    ensures var (w', e) := CloseWrite(ep, w);
      var m := Flown(ep, w.ring);
      && WriteInv(ep, w') && !w'.ring.open
      && Flown(ep, w'.ring) == m && w'.ring.attempts == w.ring.attempts
      && w'.chunks == w.chunks && w'.total == Tally(ep, m)
      && e == FirstError(ep, w.ring.attempts, m)
  {
    hide *;
    var w0 := w.(ring := w.ring.(finished := true));
    DrainingStarts(ep, w);
    DrainKeeps(ep, w0);
    DrainedMeans(ep, w, Drain(ep, w0));
    CloseIs(ep, w);
  }

  // What the first error means.
  lemma CloseAnswers<T>(ep: Endpoint, w: WriteState<T>)
    requires WriteInv(ep, w) && w.ring.open
    ensures var m := Flown(ep, w.ring);
      var e := FirstError(ep, w.ring.attempts, m);
      && (w.ring.err.Some? ==> e == w.ring.err)
      && (e.None? <==> forall k: nat :: k < w.ring.attempts ==> ep.outcome(k).Done? && ep.outcome(k).err.None?)
      && (e.None? ==> Tally(ep, m) == Reported(ep, w.ring.attempts))
  {
    KeptWhenFinished(ep, w.ring);
    hide Kept, Framed, Tally;
    var m := Flown(ep, w.ring);
    TallyOfClean(ep, m);
    if w.ring.err.Some? && FirstBroken(ep, Max(0, Waits(ep, w.ring))).Some? {
      TallyStops(ep, Max(0, Waits(ep, w.ring)), m);
    }
  }

  // What the first error and the count are: if submission k is the first that
  // failed in flight, it is its error, and the bytes reported for the submissions
  // up to and including k.
  lemma {:induction false} FirstFailure(ep: Endpoint, m: nat, k: nat)
    requires forall j: nat :: j < m ==> ep.outcome(j).Done?
    requires k < m && ep.outcome(k).err.Some? && forall j: nat :: j < k ==> ep.outcome(j).err.None?
    ensures FirstBroken(ep, m) == ep.outcome(k).err && Tally(ep, m) == Reported(ep, k + 1)
  {
    assert Clean(ep, k);
    TallyStep(ep, k);
    TallyOfClean(ep, k);
    TallyStops(ep, k + 1, m);
  }

  // ---- runs ----

  datatype WriteOp = WriteOp(data: seq<byte>) | CloseOp

  // What the caller sees of one operation.
  datatype WriteResult = WriteResult(n: nat, err: Option<Error>)

  ghost function NewWrite<T>(pool: seq<T>, xfers: map<T, Xfer>): WriteState<T> {
    WriteState(NewRing(pool, xfers), 0, [])
  }

  lemma NewWriteStarts<T>(ep: Endpoint, pool: seq<T>, xfers: map<T, Xfer>)
    requires Fresh(ep, pool, xfers) && !ep.inbound
    ensures WriteInv(ep, NewWrite(pool, xfers)) && NewWrite(pool, xfers).ring.open
  {
    var s := NewRing(pool, xfers);
    assert pool[0] in xfers;
    forall i | 0 <= i < |pool| ensures InPlace(ep, Waits(ep, s), s.queue, s.xfers, i) {
      assert pool[i] in pool;
    }
  }

  ghost function Step<T>(ep: Endpoint, w: WriteState<T>, op: WriteOp): (out: (WriteState<T>, WriteResult))
    requires WriteInv(ep, w)
    ensures WriteInv(ep, out.0)
  {
    match op
    case WriteOp(p) => var o := Write(ep, w, p); (o.state, WriteResult(o.written, o.err))
    case CloseOp =>
      if w.ring.open then CloseReports(ep, w); var (w', e) := CloseWrite(ep, w); (w', WriteResult(0, e))
      else (w, WriteResult(0, Some(ErrClosedPipe)))
  }

  ghost function Run<T>(ep: Endpoint, w: WriteState<T>, ops: seq<WriteOp>): (out: (WriteState<T>, seq<WriteResult>))
    requires WriteInv(ep, w)
    ensures WriteInv(ep, out.0) && |out.1| == |ops|
  {
    if ops == [] then (w, []) else
      var (w1, rs) := Run(ep, w, ops[..|ops| - 1]);
      var (w2, res) := Step(ep, w1, ops[|ops| - 1]);
      (w2, rs + [res])
  }

  lemma RunNothing<T>(ep: Endpoint, w0: WriteState<T>)
    requires WriteInv(ep, w0)
    ensures Run(ep, w0, []) == (w0, [])
  {}

  lemma RunSnoc<T>(ep: Endpoint, w0: WriteState<T>, ops: seq<WriteOp>, op: WriteOp)
    requires WriteInv(ep, w0)
    ensures var (w, rs) := Run(ep, w0, ops);
      var (w', res) := Step(ep, w, op);
      Run(ep, w0, ops + [op]) == (w', rs + [res])
  {
    hide WriteInv, Step;
    assert (ops + [op])[..|ops|] == ops;
  }

  // After an error every write answers ErrClosedPipe, and after Close, whatever it
  // answered, so do all operations; and nothing changes.
  lemma FailedForGood<T>(ep: Endpoint, w: WriteState<T>, op: WriteOp, next: WriteOp)
    requires WriteInv(ep, w)
    ensures var (w', res) := Step(ep, w, op);
      (op.CloseOp? || res.err.Some?) && (next.WriteOp? || op.CloseOp?) ==>
        Step(ep, w', next) == (w', WriteResult(0, Some(ErrClosedPipe)))
  {
    if op.CloseOp? && w.ring.open { CloseReports(ep, w); }
    hide WriteInv, CloseWrite;
  }

  // The part of its data an operation reported as written ...
  ghost function Gained(op: WriteOp, res: WriteResult): seq<byte> {
    if op.WriteOp? && res.n <= |op.data| then op.data[..res.n] else []
  }

  // ... and those of a run.
  ghost function Written(ops: seq<WriteOp>, rs: seq<WriteResult>): seq<byte>
    requires |ops| == |rs|
  {
    if ops == [] then [] else
      var m := |ops| - 1;
      Written(ops[..m], rs[..m]) + Gained(ops[m], rs[m])
  }

  lemma WrittenSnoc(ops: seq<WriteOp>, rs: seq<WriteResult>, op: WriteOp, res: WriteResult)
    requires |ops| == |rs|
    ensures Written(ops + [op], rs + [res]) == Written(ops, rs) + Gained(op, res)
  {
    hide Gained;
    assert (ops + [op])[..|ops|] == ops && (rs + [res])[..|rs|] == rs;
  }

  lemma StepGains<T>(ep: Endpoint, w: WriteState<T>, op: WriteOp)
    requires WriteInv(ep, w)
    ensures var (w', res) := Step(ep, w, op); Flatten(w'.chunks) == Flatten(w.chunks) + Gained(op, res)
  {
    match op {
      case WriteOp(p) => WriteCopies(ep, w, p);
      case CloseOp => if w.ring.open { CloseReports(ep, w); }
    }
    hide WriteInv, CloseWrite, Write, Flatten;
  }

  lemma ChunksFlown<T>(ep: Endpoint, w: WriteState<T>)
    requires WriteInv(ep, w)
    ensures |w.chunks| == Flown(ep, w.ring)
  {}

  lemma NothingWritten<T>(ep: Endpoint, w0: WriteState<T>)
    requires WriteInv(ep, w0) && w0.chunks == []
    ensures Run(ep, w0, []) == (w0, []) && Flatten(w0.chunks) == Written([], [])
  {}

  // Fidelity: over any run, the chunks submitted, in submission order, are
  // exactly the data the writes reported as written.
  lemma {:induction false} WriteFidelity<T>(ep: Endpoint, w0: WriteState<T>, ops: seq<WriteOp>)
    requires WriteInv(ep, w0) && w0.chunks == []
    ensures var (w, rs) := Run(ep, w0, ops);
      && Flatten(w.chunks) == Written(ops, rs)
      && |w.chunks| == Flown(ep, w.ring)
  {
    hide *;
    ChunksFlown(ep, Run(ep, w0, ops).0);
    if ops == [] {
      NothingWritten(ep, w0);
    } else {
      var init, op := ops[..|ops| - 1], ops[|ops| - 1];
      assert ops == init + [op];
      WriteFidelity(ep, w0, init);
      var (w1, rs) := Run(ep, w0, init);
      RunSnoc(ep, w0, init, op);
      StepGains(ep, w1, op);
      WrittenSnoc(init, rs, op, Step(ep, w1, op).1);
    }
  }

  // Conservation: after Close every transfer has gone back to libusb exactly
  // once, although CloseContext frees each of them twice.
  lemma WriteConservation<T>(ep: Endpoint, w: WriteState<T>)
    requires WriteInv(ep, w) && !w.ring.open
    ensures w.ring.returned == multiset(w.ring.xfers.Keys)
  {}

  // ---- short writes ----

  lemma {:induction false} FullPart(ep: Endpoint, chunks: seq<seq<byte>>, from: nat)
    requires from <= |chunks| && forall k :: from <= k < |chunks| ==> |chunks[k]| == ep.size
    ensures |Flatten(chunks)| == |Flatten(chunks[..from])| + (|chunks| - from) * ep.size
  {
    if from < |chunks| {
      var m := |chunks| - 1;
      FullPart(ep, chunks[..m], from);
      assert chunks[..m][..from] == chunks[..from];
      assert |Flatten(chunks)| == |Flatten(chunks[..m])| + ep.size;
      hide Flatten;
      OneMore(m - from, ep.size);
    } else {
      assert chunks[..from] == chunks;
    }
  }

  // The chunks of one complete write are all full exactly if its length is a
  // multiple of the buffer size.
  lemma ChunksFill(ep: Endpoint, before: seq<seq<byte>>, chunks: seq<seq<byte>>, p: seq<byte>)
    requires ep.size > 0 && before <= chunks && Flatten(chunks) == Flatten(before) + p
    requires forall k :: |before| <= k < |chunks| ==> 0 < |chunks[k]| <= ep.size
    requires FullBut(ep, chunks, |before|, true)
    ensures |p| % ep.size == 0 <==> forall k :: |before| <= k < |chunks| ==> |chunks[k]| == ep.size
  {
    hide *;
    if |before| < |chunks| {
      LengthOfChunks(ep, before, chunks, p);
      LastDecides(ep, before, chunks);
      Divides(|p|, |chunks| - 1 - |before|, |chunks[|chunks| - 1]|, ep.size);
    } else {
      NothingFilled(ep, before, chunks, p);
    }
  }

  lemma NothingFilled(ep: Endpoint, before: seq<seq<byte>>, chunks: seq<seq<byte>>, p: seq<byte>)
    requires ep.size > 0 && before <= chunks && |chunks| <= |before| && Flatten(chunks) == Flatten(before) + p
    ensures |p| % ep.size == 0
  {
    assert chunks == before;
    assert |p| == 0;
  }

  lemma LastDecides(ep: Endpoint, before: seq<seq<byte>>, chunks: seq<seq<byte>>)
    requires |before| < |chunks| && FullBut(ep, chunks, |before|, true)
    ensures |chunks[|chunks| - 1]| == ep.size <==> forall k :: |before| <= k < |chunks| ==> |chunks[k]| == ep.size
  {}

  lemma Divides(n: nat, a: nat, r: nat, d: nat)
    requires 0 < r <= d && n == a * d + r
    ensures n % d == 0 <==> r == d
  {
    Remainder(a, r, d);
  }

  lemma LengthOfChunks(ep: Endpoint, before: seq<seq<byte>>, chunks: seq<seq<byte>>, p: seq<byte>)
    requires before < chunks && Flatten(chunks) == Flatten(before) + p
    requires FullBut(ep, chunks, |before|, true)
    ensures |p| == (|chunks| - 1 - |before|) * ep.size + |chunks[|chunks| - 1]|
  {
    var m := |chunks| - 1;
    FullPart(ep, chunks[..m], |before|);
    assert chunks[..m][..|before|] == before;
  }

  lemma Remainder(a: nat, r: nat, d: nat)
    requires 0 < r <= d
    ensures (a * d + r) % d == 0 <==> r == d
  {
    var n := a * d + r;
    var q, m := n / d, n % d;
    assert n == q * d + m;
    if m == 0 { Next(q, a, r, d); }
    if r == d && m > 0 {
      Next(a + 1, q, m, d);
      assert false;
    }
  }

  lemma Next(x: nat, y: nat, r: nat, d: nat)
    requires x * d == y * d + r && 0 < r <= d
    ensures x == y + 1 && r == d
  {
    if x <= y {
      Scale(x, y, d);
      assert false;
    }
    Scale(y + 1, x, d);
    if x > y + 1 {
      Scale(y + 2, x, d);
      assert false;
    }
  }

  lemma Scale(x: nat, y: nat, d: nat)
    requires x <= y
    ensures x * d <= y * d
  {}

  // All writes of a run succeeded.
  predicate NoErrors(ops: seq<WriteOp>, rs: seq<WriteResult>)
    requires |ops| == |rs|
  {
    forall i :: 0 <= i < |ops| && ops[i].WriteOp? ==> rs[i].err.None?
  }

  predicate WholeBuffers(size: nat, ops: seq<WriteOp>)
    requires size > 0
  {
    forall i :: 0 <= i < |ops| && ops[i].WriteOp? ==> |ops[i].data| % size == 0
  }

  lemma {:induction false} RunFills<T>(ep: Endpoint, w0: WriteState<T>, ops: seq<WriteOp>)
    requires WriteInv(ep, w0) && w0.chunks == [] && ep.size > 0
    requires NoErrors(ops, Run(ep, w0, ops).1)
    ensures AllFull(ep, Run(ep, w0, ops).0.chunks) <==> WholeBuffers(ep.size, ops)
  {
    if ops != [] {
      hide *;
      var m := |ops| - 1;
      var w1, rs := RunLast(ep, w0, ops);
      LastErrors(ops, rs, Step(ep, w1, ops[m]).1);
      RunFills(ep, w0, ops[..m]);
      StepFills(ep, w1, ops[m]);
      LastWhole(ep.size, ops);
    }
  }

  lemma RunLast<T>(ep: Endpoint, w0: WriteState<T>, ops: seq<WriteOp>) returns (w1: WriteState<T>, rs: seq<WriteResult>)
    requires WriteInv(ep, w0) && ops != []
    ensures WriteInv(ep, w1) && |rs| == |ops| - 1
    ensures Run(ep, w0, ops[..|ops| - 1]) == (w1, rs)
    ensures var (w, r) := Step(ep, w1, ops[|ops| - 1]); Run(ep, w0, ops) == (w, rs + [r])
  {
    hide WriteInv, Step;
    var before := Run(ep, w0, ops[..|ops| - 1]);
    w1, rs := before.0, before.1;
  }

  lemma LastErrors(ops: seq<WriteOp>, rs: seq<WriteResult>, r: WriteResult)
    requires |ops| == |rs| + 1 && NoErrors(ops, rs + [r])
    ensures NoErrors(ops[..|rs|], rs) && (ops[|rs|].WriteOp? ==> r.err.None?)
  {
    assert forall i :: 0 <= i < |rs| ==> (rs + [r])[i] == rs[i];
  }

  lemma LastWhole(size: nat, ops: seq<WriteOp>)
    requires size > 0 && ops != []
    ensures var m := |ops| - 1;
      WholeBuffers(size, ops) <==> WholeBuffers(size, ops[..m]) && (ops[m].WriteOp? ==> |ops[m].data| % size == 0)
  {}

  lemma StepFills<T>(ep: Endpoint, w: WriteState<T>, op: WriteOp)
    requires WriteInv(ep, w) && ep.size > 0
    requires op.WriteOp? ==> Step(ep, w, op).1.err.None?
    ensures AllFull(ep, Step(ep, w, op).0.chunks) <==>
      AllFull(ep, w.chunks) && (op.WriteOp? ==> |op.data| % ep.size == 0)
  {
    var w' := Step(ep, w, op).0;
    assert Framed(ep, w'.chunks, w'.ring.wire);
    hide WriteInv, Write, CloseWrite;
    if op.WriteOp? {
      WriteCopies(ep, w, op.data);
      assert op.data[..|op.data|] == op.data;
      ChunksFill(ep, w.chunks, w'.chunks, op.data);
      assert forall k :: 0 <= k < |w.chunks| ==> w'.chunks[k] == w.chunks[k];
    } else if w.ring.open {
      CloseReports(ep, w);
    }
  }

  // The documentation says that the last transfer of a Write is sent with less
  // data than the full buffer. It is not: over a run without failed writes, what
  // libusb was given is the data written if and only if every Write was of a
  // multiple of the buffer size.
  lemma WireIsDataWritten<T>(ep: Endpoint, w0: WriteState<T>, ops: seq<WriteOp>)
    requires WriteInv(ep, w0) && w0.chunks == [] && ep.size > 0
    requires NoErrors(ops, Run(ep, w0, ops).1)
    ensures var (w, rs) := Run(ep, w0, ops);
      Flatten(w.ring.wire) == Written(ops, rs) <==> WholeBuffers(ep.size, ops)
  {
    WriteFidelity(ep, w0, ops);
    RunFills(ep, w0, ops);
    var w := Run(ep, w0, ops).0;
    ShortChunksArePadded(ep, w.chunks, w.ring.wire);
  }

  lemma AllWritten<T>(ep: Endpoint, w: WriteState<T>, p: seq<byte>)
    requires WriteInv(ep, w) && w.chunks == [] && Step(ep, w, WriteOp(p)).1.err.None?
    ensures var w' := Step(ep, w, WriteOp(p)).0;
      Flatten(w'.chunks) == p && FullBut(ep, w'.chunks, 0, true) && Framed(ep, w'.chunks, w'.ring.wire)
  {
    WriteCopies(ep, w, p);
    assert WriteInv(ep, Step(ep, w, WriteOp(p)).0);
    hide Write, Sound, Balanced;
  }

  // For instance, after one short write libusb has a full buffer.
  lemma ShortWrite<T>(ep: Endpoint, w0: WriteState<T>, p: seq<byte>)
    requires WriteInv(ep, w0) && w0.chunks == [] && 0 < |p| < ep.size
    requires Run(ep, w0, [WriteOp(p)]).1[0].err.None?
    ensures |Flatten(Run(ep, w0, [WriteOp(p)]).0.ring.wire)| == ep.size
  {
    hide *;
    RunNothing(ep, w0);
    RunSnoc(ep, w0, [], WriteOp(p));
    assert [] + [WriteOp(p)] == [WriteOp(p)];
    var w := Step(ep, w0, WriteOp(p)).0;
    AllWritten(ep, w0, p);
    ShortChunksArePadded(ep, w.chunks, w.ring.wire);
    OneChunk(ep, w.chunks, p);
  }

  lemma OneChunk(ep: Endpoint, chunks: seq<seq<byte>>, p: seq<byte>)
    requires Flatten(chunks) == p && 0 < |p| < ep.size && FullBut(ep, chunks, 0, true)
    ensures |chunks| == 1
  {
    if chunks != [] {
      LengthOfChunks(ep, [], chunks, p);
      hide *;
      NoBlock(|chunks| - 1, |chunks[|chunks| - 1]|, ep.size);
    }
  }

  lemma NoBlock(k: nat, last: nat, size: nat)
    requires k * size + last < size
    ensures k == 0
  {
    if k > 0 { Scale(1, k, size); }
  }

  lemma OneMore(k: nat, size: nat)
    ensures (k + 1) * size == k * size + size
  {}
}
