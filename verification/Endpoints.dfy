// Opening a stream on an endpoint: allocating its transfers.
module Endpoints {
  import opened Base
  import opened StreamSpec
  import I = IsoLayout
  import opened RingLemmas
  import RT = ReadTheorems
  import WT = WriteTheorems
  import opened Transfers
  import opened Streams
  import opened ReadStreams
  import opened WriteStreams

  // endpoint.newStream: allocate `count` transfers, or report the first refused
  // allocation after giving back every transfer allocated before it. `memory`
  // says when libusb has memory to give; `lost` is the number of blocks that
  // alloc refused without giving them back.
  method NewTransfers(bus: Bus, count: nat, memory: nat -> bool)
    returns (tt: seq<UsbTransfer>, err: Option<Error>, ghost made: seq<UsbTransfer>, ghost lost: nat)
    requires WellFormed(bus.ep) && count > 0
    modifies bus`returned
    ensures Separate(bus, made) && forall t :: t in made ==> fresh(t) && fresh(t.mem)
    ensures err.None? <==> forall i: nat :: i < count ==> I.Allocates(bus.ep.size, memory(i))
    ensures err.None? ==>
      && tt == made && |tt| == count && bus.returned == old(bus.returned) && lost == 0
      && Fresh(bus.ep, tt, Views(tt))
    ensures err.Some? ==>
      && |made| < count && err == Some(Refused) && !I.Allocates(bus.ep.size, memory(|made|))
      && tt == [] && bus.returned == old(bus.returned) + multiset(made)
      && forall t :: t in made ==> !t.live
    ensures lost == if err.Some? && memory(|made|) then 1 else 0
    ensures lost > 0 ==> made == [] && bus.ep.size >= 0x8000_0000
  {
    tt, made, lost := [], [], 0;
    for i := 0 to count
      invariant |tt| == i && tt == made && Separate(bus, tt)
      invariant forall t :: t in tt ==> fresh(t) && fresh(t.mem) && t.live && !t.submitted
      invariant forall j: nat :: j < i ==> I.Allocates(bus.ep.size, memory(j))
      invariant bus.returned == old(bus.returned) && lost == 0
    {
      if !I.Allocates(bus.ep.size, memory(i)) {
        assert forall t :: t in tt ==> fresh(t);
        assert i > 0 ==> I.Allocates(bus.ep.size, memory(0));
        lost := if memory(i) then 1 else 0;
        Release(bus, tt);
        return [], Some(Refused), made, lost;
      }
      var t := new UsbTransfer(bus);
      tt := tt + [t];
      made := tt;
    }
    assert tt[0] in tt;
    return tt, None, made, lost;
  }

  method Release(bus: Bus, ts: seq<UsbTransfer>)
    requires Separate(bus, ts) && forall t :: t in ts ==> t.live && !t.submitted
    modifies Elements(ts), bus`returned
    ensures Separate(bus, ts) && forall t :: t in ts ==> !t.live
    ensures bus.returned == old(bus.returned) + multiset(ts)
  {
    hide Separate;
    for i := 0 to |ts|
      invariant Separate(bus, ts)
      invariant forall j :: 0 <= j < |ts| ==> !ts[j].submitted && (ts[j].live <==> i <= j)
      invariant bus.returned == old(bus.returned) + multiset(ts[..i])
    {
      FreeOne(bus, ts, i, ts[i]);
      assert ts[..i + 1] == ts[..i] + [ts[i]];
    }
    assert ts[..|ts|] == ts;
  }

  method FreeOne(bus: Bus, ts: seq<UsbTransfer>, i: nat, t: UsbTransfer)
    requires Separate(bus, ts) && i < |ts| && t == ts[i] && t.live && !t.submitted
    modifies t`live, bus`returned
    ensures Separate(bus, ts) && !t.live
    ensures forall j :: 0 <= j < |ts| && j != i ==> ts[j].live == old(ts[j].live)
    ensures bus.returned == old(bus.returned) + multiset{t}
  {
    var _ := t.Free();
  }

  // endpoint.transfer: one transfer of its own for every Read or Write, which is
  // given back whatever happens.
  method Transfer(bus: Bus, buf: array<byte>, memory: bool)
    returns (n: nat, err: Option<Error>, ghost t: UsbTransfer?)
    requires bus.ep.size == buf.Length && Bounded(bus.ep)
    modifies bus, buf
    ensures t == null <==> !I.Allocates(buf.Length, memory)
    ensures t == null ==> n == 0 && err == Some(Refused) && unchanged(bus) && unchanged(buf)
    ensures t != null ==> fresh(t) && !t.live && bus.returned == old(bus.returned) + multiset{t}
    ensures t != null ==>
      var o := bus.ep.outcome(old(bus.attempts));
      && bus.attempts == old(bus.attempts) + 1
      && (o.Rejected? ==> n == 0 && err == Some(o.reason) && buf[..] == old(buf[..]) && bus.wire == old(bus.wire))
      && (o.Done? ==>
            && n == o.n <= buf.Length && err == o.err
            && |bus.wire| == |old(bus.wire)| + 1
            && if bus.ep.inbound then buf[..] == o.contents
               else buf[..] == old(buf[..]) && bus.wire == old(bus.wire) + [old(buf[..])])
  {
    if !I.Allocates(buf.Length, memory) {
      return 0, Some(Refused), null;
    }
    var x := new UsbTransfer(bus);
    t := x;
    ghost var content := buf[..];
    if !bus.ep.inbound {
      forall i | 0 <= i < buf.Length { x.mem[i] := buf[i]; }
      assert x.mem[..] == content;
    }
    err := x.Submit();
    if err.Some? {
      var _ := x.Free();
      return 0, err, t;
    }
    n, err := x.Wait();
    if bus.ep.inbound {
      forall i | 0 <= i < buf.Length { buf[i] := x.mem[i]; }
      assert buf[..] == x.mem[..];
    }
    var _ := x.Free();
  }

  // InEndpoint.NewStream
  method NewReadStream(bus: Bus, count: nat, memory: nat -> bool) returns (r: ReadStream?, err: Option<Error>)
    requires WellFormed(bus.ep) && bus.ep.inbound && count > 0
    requires bus.attempts == 0 && bus.wire == [] && bus.returned == multiset{}
    modifies bus
    ensures r != null <==> forall i: nat :: i < count ==> I.Allocates(bus.ep.size, memory(i))
    ensures err.None? <==> r != null
    ensures r != null ==>
      && fresh(r) && r.Valid() && fresh(r.s.footprint - {bus}) && |r.s.pool| == count
      && RT.Started(bus.ep, r.dropped, r.View()) && r.s.bus == bus
  {
    hide Fresh, Views, WellFormed, RT.Started, RT.NewRead, RT.Abandoned, RT.AcceptedRun, ReadStream.Valid, ReadStream.View;
    var tt; ghost var made, lost;
    tt, err, made, lost := NewTransfers(bus, count, memory);
    if err.Some? {
      return null, err;
    }
    DistinctFits(tt, Elements(tt));
    hide Separate;
    r := ReadStreams.NewStream(bus, tt);
  }

  // OutEndpoint.NewStream
  method NewWriteStream(bus: Bus, count: nat, memory: nat -> bool) returns (w: WriteStream?, err: Option<Error>)
    requires WellFormed(bus.ep) && !bus.ep.inbound && count > 0
    requires bus.attempts == 0 && bus.wire == [] && bus.returned == multiset{}
    modifies bus
    ensures w != null <==> forall i: nat :: i < count ==> I.Allocates(bus.ep.size, memory(i))
    ensures err.None? <==> w != null
    ensures w != null ==>
      && fresh(w) && w.Valid() && fresh(w.s.footprint - {bus}) && |w.s.pool| == count
      && w.View().ring.open && w.chunks == [] && w.s.bus == bus
  {
    hide Fresh, Views, WellFormed, WriteStream.Valid;
    var tt; ghost var made, lost;
    tt, err, made, lost := NewTransfers(bus, count, memory);
    if err.Some? {
      return null, err;
    }
    DistinctFits(tt, Elements(tt));
    hide Separate;
    w := WriteStreams.NewStream(bus, tt);
  }

  lemma ReadValid(r: ReadStream)
    requires r.Valid()
    ensures ReadInv(r.s.bus.ep, r.dropped, r.View())
  {}

  lemma WriteValid(w: WriteStream)
    requires w.Valid()
    ensures WriteInv(w.s.bus.ep, w.View())
  {}

  method ApplyRead(r: ReadStream, op: RT.ReadOp) returns (res: ReadResult)
    requires r.Valid()
    modifies r, r.s.footprint
    ensures (r.View(), res) == RT.Step(r.s.bus.ep, r.dropped, old(r.View()), op)
    ensures r.Valid()
  {
    RT.CloseStep(r.s.bus.ep, r.dropped, r.View());
    hide ReadInv, RT.Step;
    match op {
      case ReadOp(room) =>
        var p := new byte[room];
        var n, err := r.ReadContext(p);
        res := ReadResult(n, err, p[..if err.None? then n else 0]);
      case CloseOp =>
        r.Close();
        res := ReadResult(0, None, []);
    }
  }

  // Any sequence of reads and closes on a stream is a run of ReadTheorems.
  method DriveRead(r: ReadStream, ops: seq<RT.ReadOp>) returns (rs: seq<ReadResult>)
    requires r.Valid()
    modifies r, r.s.footprint
    ensures (r.View(), rs) == RT.Run(r.s.bus.ep, r.dropped, old(r.View()), ops)
    ensures r.Valid()
  {
    hide *;
    ghost var r0 := r.View();
    ReadValid(r);
    rs := [];
    RT.RunNothing(r.s.bus.ep, r.dropped, r0);
    assert ops[..0] == [];
    for i := 0 to |ops|
      invariant r.Valid()
      invariant (r.View(), rs) == RT.Run(r.s.bus.ep, r.dropped, r0, ops[..i])
    {
      RT.RunSnoc(r.s.bus.ep, r.dropped, r0, ops[..i], ops[i]);
      assert ops[..i] + [ops[i]] == ops[..i + 1];
      var res := ApplyRead(r, ops[i]);
      rs := rs + [res];
    }
    assert ops[..|ops|] == ops;
  }

  method ApplyWrite(w: WriteStream, op: WT.WriteOp) returns (res: WT.WriteResult)
    requires w.Valid()
    modifies w, w.s.footprint
    ensures (w.View(), res) == WT.Step(w.s.bus.ep, old(w.View()), op)
    ensures w.Valid()
  {
    hide WriteInv;
    match op {
      case WriteOp(p) =>
        var n, err := w.WriteContext(p);
        res := WT.WriteResult(n, err);
      case CloseOp =>
        hide WT.Step;
        var err := w.CloseContext();
        res := WT.WriteResult(0, err);
    }
  }

  // Any sequence of writes and closes is a run of WriteTheorems.
  method DriveWrite(w: WriteStream, ops: seq<WT.WriteOp>) returns (rs: seq<WT.WriteResult>)
    requires w.Valid()
    modifies w, w.s.footprint
    ensures (w.View(), rs) == WT.Run(w.s.bus.ep, old(w.View()), ops)
    ensures w.Valid()
  {
    hide *;
    ghost var w0 := w.View();
    WriteValid(w);
    rs := [];
    WT.RunNothing(w.s.bus.ep, w0);
    assert ops[..0] == [];
    for i := 0 to |ops|
      invariant w.Valid()
      invariant (w.View(), rs) == WT.Run(w.s.bus.ep, w0, ops[..i])
    {
      WT.RunSnoc(w.s.bus.ep, w0, ops[..i], ops[i]);
      assert ops[..i] + [ops[i]] == ops[..i + 1];
      var res := ApplyWrite(w, ops[i]);
      rs := rs + [res];
    }
    assert ops[..|ops|] == ops;
  }
}
