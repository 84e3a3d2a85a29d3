// usbTransfer as its clients see it: every call is atomic. TransferProtocol.dfy
// shows that the mutex, the done channel and the callback thread implement this.
module Transfers {
  import opened Base
  import opened StreamSpec
  import P = TransferSpec

  // libusb as one stream of transfers on one endpoint sees it. The ghost fields
  // record the buffers handed over, the transfers given back, and those cancelled
  // while in flight.
  class Bus {
    const ep: Endpoint
    var attempts: nat
    ghost var wire: seq<seq<byte>>
    ghost var returned: multiset<UsbTransfer>
    ghost var cancelled: multiset<UsbTransfer>

    constructor (ep: Endpoint)
      ensures this.ep == ep && attempts == 0 && wire == [] && returned == multiset{} && cancelled == multiset{}
    {
      this.ep := ep;
      attempts, wire, returned, cancelled := 0, [], multiset{}, multiset{};
    }
  }

  // mem is the memory behind both buf and xfer.buffer; `live` is
  // xfer != nil, which buf != nil and done != nil always equal; `attempt` is the
  // libusb submission in flight.
  class UsbTransfer {
    const bus: Bus
    const mem: array<byte>
    var live: bool
    var submitted: bool
    var attempt: nat
    // The number of submissions waited for.
    ghost var waited: nat

    ghost predicate Valid()
      reads this
    {
      && mem.Length == bus.ep.size
      && (submitted ==> live && bus.ep.outcome(attempt).Done?)
    }

    ghost function View(): Xfer
      reads this, mem
    {
      if !live then Freed
      else if submitted then Flying(attempt, mem[..])
      else Idle(mem[..])
    }

    // The phase in the sequential meaning of the four calls, which each method
    // below is shown to follow.
    ghost function Phase(): P.Phase
      reads this
    {
      if !live then P.Freed else if submitted then P.Flying(waited) else P.Idle(waited)
    }

    constructor (bus: Bus)
      ensures this.bus == bus && fresh(mem) && live && !submitted && mem.Length == bus.ep.size && waited == 0
    {
      this.bus := bus;
      mem := new byte[bus.ep.size];
      live, submitted, attempt, waited := true, false, 0, 0;
    }

    // A transfer in flight is refused. Nothing checks for a freed one: that is
    // left to the caller.
    method Submit() returns (err: Option<Error>)
      requires Valid() && live
      modifies this`submitted, this`attempt, bus`attempts, bus`wire
      ensures Valid()
      ensures old(submitted) ==> err.Some? && unchanged(this) && unchanged(bus)
      ensures !old(submitted) ==> bus.attempts == old(bus.attempts) + 1
      ensures !old(submitted) && bus.ep.outcome(old(bus.attempts)).Rejected? ==>
        && err == Some(bus.ep.outcome(old(bus.attempts)).reason)
        && View() == old(View()) && unchanged(bus`wire)
      ensures !old(submitted) && bus.ep.outcome(old(bus.attempts)).Done? ==>
        && err == None && View() == Flying(old(bus.attempts), mem[..])
        && bus.wire == old(bus.wire) + [mem[..]]
      ensures P.After(old(Phase()), P.Submit,
          if err.None? then P.Fine else if old(submitted) then P.Busy else P.LibError(err.value)) == Some(Phase())
    {
      if submitted {
        return Some(Refused);
      }
      var o := bus.ep.outcome(bus.attempts);
      bus.attempts := bus.attempts + 1;
      if o.Rejected? {
        return Some(o.reason);
      }
      submitted, attempt := true, bus.attempts - 1;
      bus.wire := bus.wire + [mem[..]];
      return None;
    }

    // The device has filled the buffer, or the compaction of an isochronous
    // transfer has changed it. Whether the context was cancelled only matters for
    // what the device answers.
    method Wait() returns (n: nat, err: Option<Error>)
      requires Valid() && Bounded(bus.ep)
      modifies this`submitted, this`waited, mem
      ensures Valid() && !submitted
      ensures (View(), n, err) == Waited(bus.ep, old(View()))
      ensures P.After(old(Phase()), P.Wait,
          if old(submitted) then P.Result(P.Report(old(waited), n, err, mem[..])) else P.Fine) == Some(Phase())
    {
      if !submitted {
        return 0, None;
      }
      submitted := false;
      waited := waited + 1;
      var o := bus.ep.outcome(attempt);
      forall i | 0 <= i < mem.Length {
        mem[i] := o.contents[i];
      }
      assert mem[..] == o.contents;
      return o.n, o.err;
    }

    // `answer` is what libusb says. Cancellation is asynchronous: libusb finishes
    // the transfer some time later, so nothing the client can see changes.
    method Cancel(answer: Option<Error>) returns (err: Option<Error>)
      requires Valid()
      modifies bus`cancelled
      ensures bus.cancelled == old(bus.cancelled) + if submitted then multiset{this} else multiset{}
      ensures err == if !submitted || answer == Some(NOT_FOUND) then None else answer
      ensures P.After(Phase(), P.Cancel, if err.None? then P.Fine else P.LibError(err.value)) == Some(Phase())
    {
      if !submitted {
        return None;
      }
      bus.cancelled := bus.cancelled + multiset{this};
      if answer == Some(NOT_FOUND) {
        return None;
      }
      return answer;
    }

    // Refused while in flight; without effect the second time.
    method Free() returns (err: Option<Error>)
      requires Valid()
      modifies this`live, bus`returned
      ensures Valid()
      ensures old(submitted) <==> err.Some?
      ensures old(submitted) || !old(live) ==> unchanged(this) && unchanged(bus)
      ensures !old(submitted) && old(live) ==>
        View() == Freed && bus.returned == old(bus.returned) + multiset{this}
      ensures P.After(old(Phase()), P.Free, if err.None? then P.Fine else P.Busy) == Some(Phase())
    {
      if submitted {
        return Some(Refused);
      }
      if !live {
        return None;
      }
      bus.returned := bus.returned + multiset{this};
      live := false;
      return None;
    }
  }
}
