// stream, the part ReadStream and WriteStream share.
module Streams {
  import opened Base
  import opened Channels
  import opened StreamSpec
  import opened RingLemmas
  import opened Transfers
  import P = TransferSpec

  ghost function Memory(tt: set<UsbTransfer>): set<array<byte>> {
    set t | t in tt :: t.mem
  }

  ghost function Views(tt: seq<UsbTransfer>): map<UsbTransfer, Xfer>
    reads tt, Memory(Elements(tt))
  {
    map t | t in tt :: t.View()
  }

  // Transfers as newUSBTransfer makes them, each with memory of its own.
  ghost predicate Separate(bus: Bus, tt: seq<UsbTransfer>)
    reads tt
  {
    && Distinct(tt)
    && (forall t :: t in tt ==> t.bus == bus && t.Valid())
    && (forall t, u :: t in tt && u in tt && t.mem == u.mem ==> t == u)
  }

  class Stream {
    const bus: Bus
    // The channel made by newStream, and the transfers put into it.
    const ring: Channel<UsbTransfer>
    ghost const pool: set<UsbTransfer>
    // The fields of the Go struct. transfers becomes nil when the stream is over.
    var transfers: Channel?<UsbTransfer>
    var err: Option<Error>
    var finished: bool
    // The stream as a value: see StreamSpec.
    ghost var view: Ring<UsbTransfer>

    // Everything the stream may change.
    ghost const footprint: set<object>

    // The parts of the heap fit together, and `view` is what they amount to.
    ghost predicate Wired()
      reads this, footprint
      ensures Wired() ==>
        && view.open == (transfers != null) && view.err == err && view.finished == finished
        && view.xfers.Keys == pool && this in footprint
    {
      && this in footprint && ring in footprint && bus in footprint
      && (forall t :: t in pool ==> t in footprint && t.mem in footprint)
      && (transfers == null || transfers == ring)
      && ring.closed == finished
      && ring.capacity == |pool|
      && (forall t :: t in ring.items ==> t in pool)
      && (forall t :: t in pool ==> t.bus == bus && t.Valid())
      && (forall t, u :: t in pool && u in pool && t.mem == u.mem ==> t == u)
      && view.queue == ring.items && view.open == (transfers != null)
      && view.err == err && view.finished == finished
      && view.attempts == bus.attempts && view.wire == bus.wire && view.returned == bus.returned
      && view.xfers.Keys == pool
      && (forall t :: t in pool ==> view.xfers[t] == t.View())
    }

    // The channel of newStream: it has room for all the transfers, and holds
    // them.
    static method Load(tt: seq<UsbTransfer>) returns (ch: Channel<UsbTransfer>)
      ensures fresh(ch) && ch.items == tt && !ch.closed && ch.capacity == |tt|
    {
      ch := new Channel(|tt|);
      for i := 0 to |tt|
        invariant ch.items == tt[..i] && !ch.closed && ch.capacity == |tt|
      {
        ch.Send(tt[i]);
      }
    }

    constructor (bus: Bus, tt: seq<UsbTransfer>)
      requires Separate(bus, tt)
      ensures fresh(ring) && this.bus == bus && pool == Elements(tt)
      ensures Wired() && fresh(footprint - {bus} - Elements(tt) - Memory(Elements(tt)))
      ensures view == Ring(tt, true, None, false, old(Views(tt)), bus.attempts, bus.wire, bus.returned)
    {
      ghost var xfers := Views(tt);
      DistinctFits(tt, Elements(tt));
      var ch := Load(tt);
      this.bus := bus;
      pool := Elements(tt);
      err, finished := None, false;
      view := Ring(tt, true, None, false, xfers, bus.attempts, bus.wire, bus.returned);
      ring, transfers := ch, ch;
      footprint := {this, ch, bus} + Elements(tt) + Memory(Elements(tt));
    }

    method GotError(e: Error)
      requires Wired()
      modifies footprint
      ensures Wired()
      ensures bus.cancelled == old(bus.cancelled)
      ensures view == old(view).(err := if old(view).err.None? then Some(e) else old(view).err)
    {
      if err.None? {
        err := Some(e);
        view := view.(err := err);
      }
    }

    method NoMore()
      requires Wired() && view.open
      modifies footprint
      ensures Wired()
      ensures bus.cancelled == old(bus.cancelled)
      ensures view == old(view).(finished := true)
    {
      if !finished {
        transfers.Close();
        finished := true;
        view := view.(finished := true);
      }
    }

    // s.transfers = nil
    method Forget()
      requires Wired()
      modifies footprint
      ensures Wired()
      ensures bus.cancelled == old(bus.cancelled)
      ensures view == old(view).(open := false)
    {
      transfers := null;
      view := view.(open := false);
    }

    // ---- the calls on single transfers, with their effect on the view ----

    method Pop() returns (x: Option<UsbTransfer>)
      requires Wired() && view.open && (view.queue != [] || view.finished)
      modifies footprint
      ensures Wired()
      ensures bus.cancelled == old(bus.cancelled)
      ensures old(view).queue == [] ==> x.None? && view == old(view)
      ensures old(view).queue != [] ==>
        && x == Some(old(view).queue[0]) && x.value in pool
        && view == old(view).(queue := old(view).queue[1..])
    {
      x := transfers.Receive();
      view := view.(queue := ring.items);
    }

    method Push(t: UsbTransfer)
      requires Wired() && view.open && !view.finished && t in pool && |view.queue| < |pool|
      modifies footprint
      ensures Wired()
      ensures view == old(view).(queue := old(view).queue + [t])
    {
      transfers.Send(t);
      view := view.(queue := ring.items);
    }

    method WaitFor(t: UsbTransfer) returns (n: nat, e: Option<Error>)
      requires Wired() && t in pool && WellFormed(bus.ep)
      modifies footprint
      ensures Wired()
      ensures bus.cancelled == old(bus.cancelled)
      ensures (view, n, e) == Wait(bus.ep, old(view), t)
      ensures !view.xfers[t].Flying?
    {
      hide P.After, UsbTransfer.Phase;
      n, e := t.Wait();
      view := view.(xfers := view.xfers[t := t.View()]);
    }

    // copy(t.data(), p[:n])
    method CopyIn(t: UsbTransfer, p: seq<byte>, n: nat)
      requires Wired() && t in pool && view.xfers[t].Idle?
      requires n <= |p| && n <= |view.xfers[t].buf|
      modifies footprint
      ensures Wired()
      ensures var buf := old(view).xfers[t].buf;
        view == old(view).(xfers := old(view).xfers[t := Idle(p[..n] + buf[n..])])
    {
      ghost var buf := t.mem[..];
      forall i | 0 <= i < n {
        t.mem[i] := p[i];
      }
      assert t.mem[..] == p[..n] + buf[n..];
      view := view.(xfers := view.xfers[t := t.View()]);
    }

    method SubmitTo(t: UsbTransfer) returns (e: Option<Error>)
      requires Wired() && t in pool && view.xfers[t].Idle?
      modifies footprint
      ensures Wired()
      ensures (view, e) == Submit(bus.ep, old(view), t)
      ensures view.open == old(view).open && view.queue == old(view).queue
      ensures view.finished == old(view).finished && view.err == old(view).err
      ensures e.Some? ==> view.xfers == old(view).xfers
    {
      hide P.After, UsbTransfer.Phase;
      e := t.Submit();
      if e.None? {
        view := view.(xfers := view.xfers[t := t.View()], attempts := bus.attempts, wire := bus.wire);
      } else {
        view := view.(attempts := bus.attempts);
      }
      SubmitShape(bus.ep, old(view), t);
    }

    method Release(t: UsbTransfer)
      requires Wired() && t in pool && !view.xfers[t].Flying?
      modifies footprint
      ensures Wired()
      ensures bus.cancelled == old(bus.cancelled)
      ensures view == Free(old(view), t)
    {
      hide P.After, UsbTransfer.Phase;
      ghost var was := t.live;
      var _ := t.Free();
      if was {
        view := view.(xfers := view.xfers[t := Freed], returned := bus.returned);
      }
    }

    // ---- the methods of the Go struct ----

    // One round of the loop of flushRemaining.
    method FlushOne()
      requires Wired() && view.open && view.queue != [] && WellFormed(bus.ep)
      modifies footprint
      ensures Wired()
      ensures bus.cancelled == old(bus.cancelled) + InFlight(old(view), [old(view).queue[0]])
      ensures var t := old(view).queue[0];
        view == Free(Wait(bus.ep, old(view).(queue := old(view).queue[1..]), t).0, t)
    {
      hide Wait, Free;
      var x := Pop();
      var _ := x.value.Cancel(None);
      var _, _ := WaitFor(x.value);
      Release(x.value);
    }

    method FlushRemaining()
      requires Wired() && view.open && WellFormed(bus.ep)
      requires Distinct(view.queue) && forall t :: t in view.queue ==> !view.xfers[t].Freed?
      modifies footprint
      ensures Wired()
      ensures bus.cancelled == old(bus.cancelled) + InFlight(old(view), old(view).queue)
      ensures view == Flush(old(view))
    {
      ghost var s := view;
      NoMore();
      ghost var i := 0;
      FlushNone(s);
      hide FlushFirst, Flush, Wait, Free, InFlight;
      while transfers.items != []
        invariant Wired() && view.open && view.finished
        invariant i <= |s.queue| && view == FlushFirst(s, i)
        invariant bus.cancelled == old(bus.cancelled) + InFlight(s, s.queue[..i])
        decreases |s.queue| - i
      {
        FlushLength(s, i);
        InFlightNext(s, i);
        FlushNext(bus.ep, s, i);
        FlushOne();
        i := i + 1;
      }
      FlushLength(s, i);
      assert s.queue[..i] == s.queue;
      var _ := Pop();
      FlushAll(s);
    }

    // The first loop of submitAll.
    method TakeAll() returns (all: seq<UsbTransfer>)
      requires Wired() && view.open
      modifies footprint
      ensures Wired() && all == old(view).queue
      ensures view == old(view).(queue := [])
    {
      ghost var s := view;
      var count := |transfers.items|;
      all := [];
      for i := 0 to count
        invariant Wired() && transfers == ring && count == |s.queue|
        invariant all == s.queue[..i] && view == s.(queue := s.queue[i..])
      {
        var x := Pop();
        all := all + [x.value];
      }
    }

    // One round of the second loop.
    method SubmitNext(t: UsbTransfer) returns (ok: bool)
      requires Wired() && view.open && !view.finished && view.err.None?
      requires t in pool && view.xfers[t].Idle? && |view.queue| < |pool|
      modifies footprint
      ensures Wired()
      ensures var (s', e) := Submit(bus.ep, old(view), t);
        && ok == e.None?
        && view == if e.Some? then Fail(Free(s', t), e.value) else s'.(queue := s'.queue + [t])
    {
      var e := SubmitTo(t);
      if e.Some? {
        Release(t);
        GotError(e.value);
        NoMore();
        return false;
      }
      Push(t);
      return true;
    }

    method SubmitAll()
      requires Wired() && view.open && !view.finished && view.err.None?
      requires Distinct(view.queue)
      requires forall t :: t in view.queue ==> view.xfers[t].Idle?
      modifies footprint
      ensures Wired()
      ensures view == SubmitFrom(bus.ep, old(view).(queue := []), old(view).queue)
    {
      ghost var s := view.(queue := []);
      assert forall t :: t in view.queue ==> t in pool;
      hide *;
      TakableAll(bus.ep, s, view.queue);
      ghost var target := StillToSubmit(bus.ep, s, view.queue, 0);
      DistinctFits(view.queue, pool);
      var all := TakeAll();
      for i := 0 to |all|
        invariant Wired() && view.open && view.err.None? && !view.finished
        invariant |view.queue| == i && |all| <= |pool|
        invariant Takable(view, all, i) && StillToSubmit(bus.ep, view, all, i) == target
      {
        TakableNext(bus.ep, view, all, i);
        var ok := SubmitNext(all[i]);
        if !ok { return; }
      }
      TakableNone(bus.ep, view, all);
    }
  }

  // What a submit leaves alone.
  lemma SubmitShape<T>(ep: Endpoint, s: Ring<T>, t: T)
    requires t in s.xfers && s.xfers[t].Idle?
    ensures var (s', e) := Submit(ep, s, t);
      && s'.open == s.open && s'.queue == s.queue && s'.finished == s.finished && s'.err == s.err
      && (e.Some? ==> s'.xfers == s.xfers)
  {}

  // In the middle of submitAll(): the transfers from number i on can be submitted.
  ghost predicate Takable<T>(s: Ring<T>, all: seq<T>, i: nat) {
    i <= |all| && Distinct(all) && forall j :: i <= j < |all| ==> all[j] in s.xfers && s.xfers[all[j]].Idle?
  }

  ghost function StillToSubmit<T>(ep: Endpoint, s: Ring<T>, all: seq<T>, i: nat): Ring<T>
    requires Takable(s, all, i)
  {
    SubmitFrom(ep, s, all[i..])
  }

  lemma TakableAll<T>(ep: Endpoint, s: Ring<T>, all: seq<T>)
    requires Distinct(all) && forall t :: t in all ==> t in s.xfers && s.xfers[t].Idle?
    ensures Takable(s, all, 0) && StillToSubmit(ep, s, all, 0) == SubmitFrom(ep, s, all)
  {
    assert all[0..] == all;
  }

  lemma TakableNext<T>(ep: Endpoint, s: Ring<T>, all: seq<T>, i: nat)
    requires i < |all| && Takable(s, all, i)
    ensures all[i] in s.xfers && s.xfers[all[i]].Idle?
    ensures var (s', e) := Submit(ep, s, all[i]);
      var q := s'.(queue := s'.queue + [all[i]]);
      && (e.Some? ==> StillToSubmit(ep, s, all, i) == Fail(Free(s', all[i]), e.value))
      && (e.None? ==> Takable(q, all, i + 1) && StillToSubmit(ep, s, all, i) == StillToSubmit(ep, q, all, i + 1))
      && s'.queue == s.queue && s'.open == s.open && s'.finished == s.finished && s'.err == s.err
  {
    assert all[i..][0] == all[i] && all[i..][1..] == all[i + 1..];
  }

  lemma TakableNone<T>(ep: Endpoint, s: Ring<T>, all: seq<T>)
    requires Takable(s, all, |all|)
    ensures StillToSubmit(ep, s, all, |all|) == s
  {}

  // Those of the transfers that are in flight.
  ghost function InFlight<T>(s: Ring<T>, ts: seq<T>): multiset<T>
    requires forall t :: t in ts ==> t in s.xfers
  {
    if ts == [] then multiset{} else
      var last := ts[|ts| - 1];
      InFlight(s, ts[..|ts| - 1]) + if s.xfers[last].Flying? then multiset{last} else multiset{}
  }

  lemma InFlightNext<T>(s: Ring<T>, i: nat)
    requires i < |s.queue| && Tracked(s) && Distinct(s.queue)
    ensures var f := FlushFirst(s, i);
      && f.queue != [] && Tracked(f)
      && InFlight(s, s.queue[..i + 1]) == InFlight(s, s.queue[..i]) + InFlight(f, [f.queue[0]])
  {
    var f := FlushFirst(s, i);
    var t := s.queue[i];
    assert t !in s.queue[..i];
    assert f.xfers[t] == s.xfers[t];
    assert s.queue[..i + 1][..i] == s.queue[..i];
    assert [t][..0] == [];
  }

  // flushRemaining() after i rounds of its loop.
  ghost function FlushFirst<T>(s: Ring<T>, i: nat): Ring<T>
    requires i <= |s.queue|
  {
    s.(queue := s.queue[i..], finished := true,
       xfers := map t | t in s.xfers :: if t in s.queue[..i] then Freed else s.xfers[t],
       returned := s.returned + multiset(s.queue[..i]))
  }

  lemma FlushNone<T>(s: Ring<T>)
    requires Tracked(s)
    ensures FlushFirst(s, 0) == s.(finished := true) && InFlight(s, s.queue[..0]) == multiset{}
  {}

  lemma FlushAll<T>(s: Ring<T>)
    ensures FlushFirst(s, |s.queue|) == Flush(s)
  {
    assert s.queue[..|s.queue|] == s.queue;
  }

  lemma FlushLength<T>(s: Ring<T>, i: nat)
    requires i <= |s.queue|
    ensures |FlushFirst(s, i).queue| == |s.queue| - i
  {
  }

  lemma FlushNext<T>(ep: Endpoint, s: Ring<T>, i: nat)
    requires i < |s.queue| && Distinct(s.queue) && Tracked(s)
    requires forall t :: t in s.queue ==> !s.xfers[t].Freed?
    ensures var t := s.queue[i];
      var f := FlushFirst(s, i);
      && f.queue != [] && f.queue[0] == t && t in f.xfers && !f.xfers[t].Freed?
      && FlushFirst(s, i + 1) == Free(Wait(ep, f.(queue := f.queue[1..]), t).0, t)
  {
    var t := s.queue[i];
    var f := FlushFirst(s, i);
    var g := Free(Wait(ep, f.(queue := f.queue[1..]), t).0, t);
    assert s.queue[..i + 1] == s.queue[..i] + [t];
    assert t !in s.queue[..i];
    assert FlushFirst(s, i + 1).xfers == g.xfers;
    assert FlushFirst(s, i + 1).queue == g.queue;
  }
}
