// Isochronous transfers: how newUSBTransfer divides a buffer into packets, and
// how the payloads are shifted together inside the buffer when the transfer is
// complete.
module IsoLayout {
  import opened Base
  import S = StreamSpec

  // ---- layout ----

  datatype Layout = Layout(packets: nat, size: nat)

  function IsoPackets(maxPacket: nat, bufLen: nat): Layout {
    var size := Min(maxPacket, bufLen);
    Layout(if size > 0 then bufLen / size else 1, size)
  }

  // C.int(n): the value of the low 32 bits.
  function CInt(n: nat): int {
    var low := n % 0x1_0000_0000;
    if low < 0x8000_0000 then low else low - 0x1_0000_0000
  }

  function UInt32(n: nat): nat {
    n % 0x1_0000_0000
  }

  // The end of alloc: no memory; or the length did not survive the conversion to
  // C's int, which is refused without giving the memory back; or what libusb gets
  // to know.
  datatype Allocation =
    | NoMemory
    | CutShort(length: int)
    | Described(length: int, packets: int, packetLength: nat)

  // There is memory, and the length survives.
  predicate Allocates(bufLen: nat, memory: bool) {
    memory && CInt(bufLen) == bufLen
  }

  function Describe(bufLen: nat, l: Layout, memory: bool): (a: Allocation)
    ensures a.Described? <==> Allocates(bufLen, memory)
  {
    if !memory then NoMemory
    else if CInt(bufLen) != bufLen then CutShort(CInt(bufLen))
    else Described(CInt(bufLen), CInt(l.packets), UInt32(l.size))
  }

  // The packets libusb is told about lie inside the buffer and leave less than
  // one packet of it unused; and none of the three narrowing conversions
  // loses anything.
  lemma LayoutFits(maxPacket: nat, bufLen: nat, memory: bool)
    ensures var l := IsoPackets(maxPacket, bufLen);
      && l.packets >= 1
      && l.size <= maxPacket && l.size <= bufLen && (l.size == maxPacket || l.size == bufLen)
      && l.packets * l.size <= bufLen
      && (l.size > 0 ==> bufLen - l.packets * l.size < l.size)
      && (l.size == 0 <==> bufLen == 0 || maxPacket == 0) && (l.size == 0 ==> l.packets == 1)
      && (memory && bufLen < 0x8000_0000 <==> Describe(bufLen, l, memory) == Described(bufLen, l.packets, l.size))
  {
    var l := IsoPackets(maxPacket, bufLen);
    if l.size > 0 {
      QuotientBounds(bufLen, l.size);
    }
  }

  // An allocation is refused with memory lost exactly for a length of 2^31 or more
  // for which libusb had memory to give.
  lemma LosesMemory(maxPacket: nat, bufLen: nat, memory: bool)
    ensures var a := Describe(bufLen, IsoPackets(maxPacket, bufLen), memory);
      && (a.CutShort? <==> memory && bufLen >= 0x8000_0000)
      && (a.CutShort? ==> a.length < bufLen)
      && (a.NoMemory? <==> !memory)
  {}

  lemma QuotientBounds(n: nat, d: nat)
    requires 0 < d <= n
    ensures 1 <= n / d <= n && (n / d) * d <= n < (n / d) * d + d
  {
    var q, r := n / d, n % d;
    assert n == q * d + r;
    if q == 0 {
      assert false;
    }
    Scale(q, 1, d);
  }

  lemma Scale(q: nat, x: nat, y: nat)
    requires x <= y
    ensures q * x <= q * y
  {}

  // ---- what the device left in the buffer ----

  // One libusb_iso_packet_descriptor after completion.
  datatype Packet = Packet(length: nat, actual: nat, status: int)

  function Total(pkts: seq<Packet>): nat {
    if pkts == [] then 0 else pkts[0].length + Total(pkts[1..])
  }

  predicate Fits(pkts: seq<Packet>, room: nat) {
    && (forall i :: 0 <= i < |pkts| ==> pkts[i].actual <= pkts[i].length)
    && Total(pkts) <= room
  }

  // The payloads of the packets before the first one with a non-zero status: each
  // packet has a slot of its own, filled from the start.
  function Payload(b: seq<byte>, pkts: seq<Packet>): seq<byte>
    requires Fits(pkts, |b|)
  {
    if pkts == [] || pkts[0].status != 0 then [] else
      b[..pkts[0].actual] + Payload(b[pkts[0].length..], pkts[1..])
  }

  // How much of the buffer these packets occupy.
  function Used(pkts: seq<Packet>): nat {
    if pkts == [] || pkts[0].status != 0 then 0 else pkts[0].length + Used(pkts[1..])
  }

  function FirstStatus(pkts: seq<Packet>): int {
    if pkts == [] then 0 else if pkts[0].status != 0 then pkts[0].status else FirstStatus(pkts[1..])
  }

  // The packets before the first one that failed.
  ghost predicate Succeeded(pkts: seq<Packet>, n: nat) {
    n <= |pkts| && (forall i :: 0 <= i < n ==> pkts[i].status == 0) && (n < |pkts| ==> pkts[n].status != 0)
  }

  function Received(pkts: seq<Packet>): nat {
    if pkts == [] then 0 else pkts[0].actual + Received(pkts[1..])
  }

  // Their payloads and slots are all there is to it ...
  lemma {:induction false} PayloadSize(b: seq<byte>, pkts: seq<Packet>, n: nat)
    requires Fits(pkts, |b|) && Succeeded(pkts, n)
    ensures |Payload(b, pkts)| == Received(pkts[..n]) && Used(pkts) == Total(pkts[..n])
    ensures FirstStatus(pkts) == if n < |pkts| then pkts[n].status else 0
    decreases n
  {
    if n == 0 {
      assert pkts[..0] == [];
    } else {
      PayloadSize(b[pkts[0].length..], pkts[1..], n - 1);
      FirstOf(pkts, n);
    }
  }

  // ... and the i-th contributes the first bytes of its own slot, which begins
  // where the slots of the packets before it end.
  lemma {:induction false} PayloadIs(b: seq<byte>, pkts: seq<Packet>, n: nat, i: nat)
    requires Fits(pkts, |b|) && Succeeded(pkts, n) && i < n
    ensures var from, to, len := Total(pkts[..i]), Received(pkts[..i]), pkts[i].actual;
      && from + len <= |b| && to + len <= |Payload(b, pkts)|
      && Payload(b, pkts)[to..to + len] == b[from..from + len]
    decreases i
  {
    if i == 0 {
      assert pkts[..0] == [];
    } else {
      var p, rest := pkts[0], pkts[1..];
      PayloadIs(b[p.length..], rest, n - 1, i - 1);
      FirstOf(pkts, i);
      var from, to, len := Total(rest[..i - 1]), Received(rest[..i - 1]), rest[i - 1].actual;
      hide Total, Received, Fits, Succeeded;
      Shifted(b, b[..p.actual], Payload(b[p.length..], rest), p.length, from, to, len);
    }
  }

  lemma Shifted(b: seq<byte>, head: seq<byte>, tail: seq<byte>, skip: nat, from: nat, to: nat, len: nat)
    requires skip + from + len <= |b| && to + len <= |tail|
    requires tail[to..to + len] == b[skip..][from..from + len]
    ensures (head + tail)[|head| + to..|head| + to + len] == b[skip + from..skip + from + len]
  {
    assert (head + tail)[|head| + to..|head| + to + len] == tail[to..to + len];
    assert b[skip..][from..from + len] == b[skip + from..skip + from + len];
  }

  lemma FirstOf(pkts: seq<Packet>, i: nat)
    requires 0 < i <= |pkts|
    ensures Total(pkts[..i]) == pkts[0].length + Total(pkts[1..][..i - 1])
    ensures Received(pkts[..i]) == pkts[0].actual + Received(pkts[1..][..i - 1])
  {
    assert pkts[..i][1..] == pkts[1..][..i - 1];
  }

  // ---- gousb_compact_iso_data ----

  // memmove(b + to, b + from, len)
  function Moved(b: seq<byte>, to: nat, from: nat, len: nat): (r: seq<byte>)
    requires to + len <= |b| && from + len <= |b|
    ensures |r| == |b|
  {
    b[..to] + b[from..from + len] + b[to + len..]
  }

  // The loop, from the packets still to come and the offsets `in` and `out`.
  function Compacted(b: seq<byte>, pkts: seq<Packet>, from: nat, to: nat): seq<byte>
    requires to <= from <= |b| && Fits(pkts, |b| - from)
    decreases |pkts|
  {
    if pkts == [] || pkts[0].status != 0 then b else
      Compacted(Moved(b, to, from, pkts[0].actual), pkts[1..], from + pkts[0].length, to + pkts[0].actual)
  }

  // Although source and destination overlap, no payload is overwritten before it
  // has been moved: the payloads end up side by side, and neither what was
  // compacted before nor the slots from the failed packet on are disturbed.
  lemma {:induction false} CompactedIsPayload(b: seq<byte>, pkts: seq<Packet>, from: nat, to: nat)
    requires to <= from <= |b| && Fits(pkts, |b| - from)
    ensures Tight(b, Compacted(b, pkts, from, to), from, to, Payload(b[from..], pkts), Used(pkts))
    decreases |pkts|
  {
    if pkts != [] && pkts[0].status == 0 {
      hide Tight;
      var p := pkts[0];
      var b' := Moved(b, to, from, p.actual);
      var from' := from + p.length;
      assert Fits(pkts[1..], |b'| - from');
      CompactedIsPayload(b', pkts[1..], from', to + p.actual);
      assert b'[from'..] == b[from..][p.length..];
      Glue(b, b', Compacted(b, pkts, from, to), to, from, p, Payload(b'[from'..], pkts[1..]), Used(pkts[1..]));
    }
  }

  // r is b with `load` at `to`, and as it was before that and after the `used`
  // bytes from `from` on.
  predicate Tight(b: seq<byte>, r: seq<byte>, from: nat, to: nat, load: seq<byte>, used: nat) {
    && |r| == |b|
    && to <= from && from + used <= |b| && |load| <= used
    && r[..to] == b[..to]
    && r[to..to + |load|] == load
    && r[from + used..] == b[from + used..]
  }

  lemma Glue(b: seq<byte>, b': seq<byte>, r: seq<byte>, to: nat, from: nat, p: Packet, rest: seq<byte>, used: nat)
    requires to <= from && p.actual <= p.length && from + p.length <= |b|
    requires b' == Moved(b, to, from, p.actual)
    requires Tight(b', r, from + p.length, to + p.actual, rest, used)
    ensures Tight(b, r, from, to, b[from..][..p.actual] + rest, p.length + used)
  {
    var k, end := to + p.actual, from + p.length + used;
    assert r[..to] == r[..k][..to] && b'[..k][..to] == b'[..to] == b[..to];
    assert r[to..k] == r[..k][to..] && b'[..k][to..] == b'[to..k] == b[from..][..p.actual];
    assert r[to..k + |rest|] == r[to..k] + r[k..k + |rest|];
    assert b'[end..] == b[end..];
  }

  // Total and status: the C function's two results.
  method CompactIsoData(buffer: array<byte>, pkts: seq<Packet>) returns (sum: nat, status: int)
    requires Fits(pkts, buffer.Length)
    modifies buffer
    ensures buffer[..] == Compacted(old(buffer[..]), pkts, 0, 0)
    ensures sum <= buffer.Length && buffer[..sum] == Payload(old(buffer[..]), pkts)
    ensures Used(pkts) <= buffer.Length
    ensures buffer[Used(pkts)..] == old(buffer[..])[Used(pkts)..]
    ensures status == FirstStatus(pkts)
  {
    ghost var b0 := buffer[..];
    status, sum := Shift(buffer, pkts);
    CompactedIsPayload(b0, pkts, 0, 0);
    assert b0[0..] == b0;
    assert buffer[..][0..0 + sum] == buffer[..sum];
  }

  // The C function's loop.
  method Shift(buffer: array<byte>, pkts: seq<Packet>) returns (status: int, sum: nat)
    requires Fits(pkts, buffer.Length)
    modifies buffer
    ensures buffer[..] == Compacted(old(buffer[..]), pkts, 0, 0)
    ensures sum == |Payload(old(buffer[..]), pkts)| && status == FirstStatus(pkts)
  {
    hide *;
    ghost var b0 := buffer[..];
    status, sum := 0, 0;
    var from := 0;
    var i := 0;
    ghost var b := b0;
    ghost var rest := pkts;
    ghost var goal := Ahead(b0, pkts, 0, 0);
    while i < |pkts|
      invariant i <= |pkts| && sum <= from <= buffer.Length && buffer[..] == b && rest == pkts[i..]
      invariant Fits(rest, |b| - from)
      invariant Ahead(b, rest, from, sum) == goal
      invariant status == 0
    {
      ShiftStep(b, rest, from, sum);
      if pkts[i].status != 0 {
        status := pkts[i].status;
        break;
      }
      MoveBytes(buffer, sum, from, pkts[i].actual);
      b, rest := buffer[..], rest[1..];
      sum, from, i := sum + pkts[i].actual, from + pkts[i].length, i + 1;
    }
    ShiftEnds(b, rest, from, sum);
    AheadOfAll(b0, pkts);
  }

  // What the loop is going to produce: the buffer, the count and the status.
  function Ahead(b: seq<byte>, pkts: seq<Packet>, from: nat, to: nat): (seq<byte>, nat, int)
    requires to <= from <= |b| && Fits(pkts, |b| - from)
  {
    (Compacted(b, pkts, from, to), to + |Payload(b[from..], pkts)|, FirstStatus(pkts))
  }

  lemma AheadOfAll(b: seq<byte>, pkts: seq<Packet>)
    requires Fits(pkts, |b|)
    ensures Ahead(b, pkts, 0, 0) == (Compacted(b, pkts, 0, 0), |Payload(b, pkts)|, FirstStatus(pkts))
  {}

  // One iteration.
  lemma ShiftStep(b: seq<byte>, pkts: seq<Packet>, from: nat, to: nat)
    requires pkts != [] && to <= from <= |b| && Fits(pkts, |b| - from)
    ensures var p := pkts[0];
      p.status == 0 ==>
        var from', to' := from + p.length, to + p.actual;
        && p.actual <= p.length && to' <= from' <= |b| && Fits(pkts[1..], |b| - from')
        && Ahead(b, pkts, from, to) == Ahead(Moved(b, to, from, p.actual), pkts[1..], from', to')
  {
    if pkts[0].status == 0 {
      assert Fits(pkts[1..], |b| - from - pkts[0].length);
      var b' := Moved(b, to, from, pkts[0].actual);
      assert b'[from + pkts[0].length..] == b[from..][pkts[0].length..];
    }
  }

  lemma ShiftEnds(b: seq<byte>, pkts: seq<Packet>, from: nat, to: nat)
    requires to <= from <= |b| && Fits(pkts, |b| - from)
    ensures pkts == [] ==> Ahead(b, pkts, from, to) == (b, to, 0)
    ensures pkts != [] && pkts[0].status != 0 ==> Ahead(b, pkts, from, to) == (b, to, pkts[0].status)
  {}

  method MoveBytes(buffer: array<byte>, to: nat, from: nat, len: nat)
    requires to + len <= buffer.Length && from + len <= buffer.Length
    modifies buffer
    ensures buffer[..] == Moved(old(buffer[..]), to, from, len)
  {
    forall k | to <= k < to + len {
      buffer[k] := buffer[from + (k - to)];
    }
  }

  // ---- what a wait on a transfer of a stream sees ----

  // What libusb reports about a completed submission.
  datatype Completion = Completion(status: int, actual: nat, pkts: seq<Packet>, memory: seq<byte>)

  // libusb's contract for a transfer with this buffer length and layout.
  predicate Delivered(c: Completion, bufLen: nat, l: Option<Layout>) {
    && |c.memory| == bufLen
    && c.actual <= bufLen
    && (l.Some? ==>
          && |c.pkts| == l.value.packets
          && forall i :: 0 <= i < |c.pkts| ==>
               && c.pkts[i].length == l.value.size
               && c.pkts[i].actual <= c.pkts[i].length)
  }

  lemma {:induction false} TotalOfEqual(pkts: seq<Packet>, size: nat)
    requires forall i :: 0 <= i < |pkts| ==> pkts[i].length == size
    ensures Total(pkts) == |pkts| * size
  {
    if pkts != [] {
      TotalOfEqual(pkts[1..], size);
      assert |pkts| * size == (|pkts| - 1) * size + size;
    }
  }

  lemma DeliveredFits(c: Completion, bufLen: nat, maxPacket: nat)
    requires Delivered(c, bufLen, Some(IsoPackets(maxPacket, bufLen)))
    ensures Fits(c.pkts, bufLen)
  {
    LayoutFits(maxPacket, bufLen, true);
    TotalOfEqual(c.pkts, IsoPackets(maxPacket, bufLen).size);
  }

  // The end of usbTransfer.wait: libusbImpl.data and the status check.
  ghost function Answer(c: Completion, bufLen: nat, maxPacket: Option<nat>): S.Outcome
    requires Delivered(c, bufLen, if maxPacket.Some? then Some(IsoPackets(maxPacket.value, bufLen)) else None)
  {
    if maxPacket.None? then
      S.Done(c.actual, if c.status == 0 then None else Some(Usb(c.status)), c.memory)
    else
      DeliveredFits(c, bufLen, maxPacket.value);
      var status := FirstStatus(c.pkts);
      S.Done(|Payload(c.memory, c.pkts)|,
             if status == 0 then None else Some(Usb(status)),
             Compacted(c.memory, c.pkts, 0, 0))
  }

  lemma {:induction false} FirstFailed(pkts: seq<Packet>) returns (n: nat)
    ensures Succeeded(pkts, n)
    ensures forall m: nat :: Succeeded(pkts, m) ==> m == n
  {
    n := 0;
    while n < |pkts| && pkts[n].status == 0
      invariant n <= |pkts| && forall i :: 0 <= i < n ==> pkts[i].status == 0
    {
      n := n + 1;
    }
  }

  // The count a wait returns never exceeds the buffer, and on an isochronous
  // endpoint the bytes a stream slices off are the payloads.
  lemma AnswerIsBounded(c: Completion, bufLen: nat, maxPacket: Option<nat>)
    requires Delivered(c, bufLen, if maxPacket.Some? then Some(IsoPackets(maxPacket.value, bufLen)) else None)
    ensures var o := Answer(c, bufLen, maxPacket);
      && o.Done? && |o.contents| == bufLen && o.n <= bufLen
      && (maxPacket.Some? ==>
            && Fits(c.pkts, bufLen) && o.contents[..o.n] == Payload(c.memory, c.pkts)
            && (o.err.None? <==> forall i :: 0 <= i < |c.pkts| ==> c.pkts[i].status == 0)
            && (forall n: nat :: n < |c.pkts| && Succeeded(c.pkts, n) ==> o.err == Some(Usb(c.pkts[n].status))))
      && (maxPacket.None? ==>
            && o.n == c.actual && o.contents == c.memory
            && (if c.status == 0 then o.err.None? else o.err == Some(Usb(c.status))))
  {
    if maxPacket.Some? {
      DeliveredFits(c, bufLen, maxPacket.value);
      var k := FirstFailed(c.pkts);
      PayloadSize(c.memory, c.pkts, k);
      CompactedIsPayload(c.memory, c.pkts, 0, 0);
      assert c.memory[0..] == c.memory;
      var r := Compacted(c.memory, c.pkts, 0, 0);
      var n := |Payload(c.memory, c.pkts)|;
      assert r[0..0 + n] == r[..n];
    }
  }

  // So streams on any endpoint, isochronous or not, meet the assumption of the
  // theorems about them.
  lemma StreamsAreWellFormed(ep: S.Endpoint, maxPacket: Option<nat>)
    requires ep.size > 0
    requires forall k: nat :: ep.outcome(k).Done? ==>
      exists c: Completion ::
        && Delivered(c, ep.size, if maxPacket.Some? then Some(IsoPackets(maxPacket.value, ep.size)) else None)
        && ep.outcome(k) == Answer(c, ep.size, maxPacket)
    ensures S.WellFormed(ep)
  {
    forall k: nat | ep.outcome(k).Done?
      ensures |ep.outcome(k).contents| == ep.size && ep.outcome(k).n <= ep.size
    {
      var c: Completion :|
        && Delivered(c, ep.size, if maxPacket.Some? then Some(IsoPackets(maxPacket.value, ep.size)) else None)
        && ep.outcome(k) == Answer(c, ep.size, maxPacket);
      AnswerIsBounded(c, ep.size, maxPacket);
    }
  }
}
