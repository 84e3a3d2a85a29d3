// A buffered Go channel, after "Send statements", "Receive operator" and "Close"
// in the Go Language Specification. The preconditions rule out everything that
// would panic or block a single goroutine: sending on a closed or full channel,
// receiving from an open empty one, closing twice.
module Channels {
  import opened Base

  class Channel<T> {
    const capacity: nat
    var items: seq<T>
    var closed: bool

    constructor (capacity: nat)
      ensures this.capacity == capacity && items == [] && !closed
    {
      this.capacity := capacity;
      items, closed := [], false;
    }

    method Send(x: T)
      requires !closed && |items| < capacity
      modifies this`items
      ensures items == old(items) + [x]
    {
      items := items + [x];
    }

    // None is the answer of a closed and drained channel.
    method Receive() returns (x: Option<T>)
      requires items != [] || closed
      modifies this`items
      ensures old(items) == [] ==> x.None? && items == []
      ensures old(items) != [] ==> x == Some(old(items)[0]) && items == old(items)[1..]
    {
      if items == [] {
        x := None;
      } else {
        x, items := Some(items[0]), items[1..];
      }
    }

    method Close()
      requires !closed
      modifies this`closed
      ensures closed
    {
      closed := true;
    }
  }
}
