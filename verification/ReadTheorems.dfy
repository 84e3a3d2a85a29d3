// The read stream over whole runs: any number of transfers, any device, any
// sequence of reads and closes.
module ReadTheorems {
  import opened Base
  import opened StreamSpec
  import opened RingLemmas

  // ---- one call ----

  // What every part of a call guarantees: the invariant survives, submissions
  // are only added, and the bytes of the answer are the next ones in order.
  ghost predicate Advances<T>(ep: Endpoint, dropped: set<T>, r: ReadState<T>, r': ReadState<T>, res: ReadResult)
    requires ReadCore(ep, dropped, r) && r.ring.open
  {
    && ReadCore(ep, dropped, r')
    && Flown(ep, r.ring) <= Flown(ep, r'.ring)
    && (r'.ring.open ==>
          && res.err.None? && res.n == |res.bytes|
          && Handed(ep, dropped, r') == Handed(ep, dropped, r) + res.bytes)
  }

  // The next transfer completed, or failed and took the stream down with it.
  lemma FetchNext<T>(ep: Endpoint, dropped: set<T>, r: ReadState<T>)
    requires ReadInv(ep, dropped, r) && r.ring.open && r.current.None? && r.ring.queue != []
    ensures ReadReady(r)
    ensures var (r', res) := Fetch(ep, r);
      var o := ep.outcome(Waits(ep, r.ring));
      && ReadCore(ep, dropped, r')
      && Flown(ep, r'.ring) == Flown(ep, r.ring)
      && Waits(ep, r'.ring) >= Waits(ep, r.ring)
      && (r'.ring.open ==> Waits(ep, r'.ring) == Waits(ep, r.ring) + 1)
      && (if o.err.Some? then !r'.ring.open && res == ReadResult(o.n, o.err, [])
          else r'.ring.open && r'.current == Some(r.ring.queue[0]) && r'.used == 0
               && res == ReadResult(0, None, []))
  {
    hide Ledger, Settled;
    TakeKeeps(ep, dropped, r.ring);
    TakeAnswers(ep, r.ring);
    var t := r.ring.queue[0];
    var (s, n, err) := Wait(ep, r.ring.(queue := r.ring.queue[1..]), t);
    if err.Some? { FlushKeeps(ep, dropped, s, t); }
  }

  lemma FetchDrained<T>(ep: Endpoint, dropped: set<T>, r: ReadState<T>)
    requires ReadInv(ep, dropped, r) && r.ring.open && r.current.None? && r.ring.queue == []
    ensures Fetch(ep, r) == (r.(ring := r.ring.(open := false)), ReadResult(0, r.ring.err, []))
    ensures r.ring.finished && r.ring.err.Some?
    ensures ReadCore(ep, dropped, Fetch(ep, r).0)
  {
  }

  // A transfer nothing was read from yet adds nothing.
  lemma HandedAtStart<T>(ep: Endpoint, dropped: set<T>, r: ReadState<T>)
    requires ReadCore(ep, dropped, r) && r.ring.open && r.current.Some? && r.used == 0
    ensures Handed(ep, dropped, r) == Payload(ep, Waits(ep, r.ring) - 1)
  {}

  lemma FetchKeeps<T>(ep: Endpoint, dropped: set<T>, r: ReadState<T>)
    requires ReadInv(ep, dropped, r) && r.ring.open && r.current.None?
    ensures ReadReady(r)
    ensures var (r', res) := Fetch(ep, r);
      && Advances(ep, dropped, r, r', res)
      && (if r'.ring.open then r'.current.Some? && res.bytes == []
          else r'.current.None? && res.err.Some?)
  {
    if r.ring.queue == [] {
      FetchDrained(ep, dropped, r);
    } else {
      FetchNext(ep, dropped, r);
      hide Kept, ReadReady, Fetch;
      var r' := Fetch(ep, r).0;
      if r'.ring.open { HandedAtStart(ep, dropped, r'); }
    }
  }

  lemma RecycleKeeps<T>(ep: Endpoint, dropped: set<T>, r: ReadState<T>)
    requires ReadCore(ep, dropped, r) && r.ring.open && r.current.Some? && r.used == r.total
    ensures ReadInv(ep, dropped, Recycle(ep, r)) && Recycle(ep, r).ring.open
    ensures Handed(ep, dropped, Recycle(ep, r)) == Handed(ep, dropped, r)
    ensures Flown(ep, r.ring) <= Flown(ep, Recycle(ep, r).ring)
  {
    hide Ledger, Settled;
    var t := r.current.value;
    if r.ring.err.Some? { FreeKeeps(ep, dropped, r.ring, t); }
    else { SubmitKeeps(ep, dropped, r.ring, t); }
  }

  lemma AdvanceKeeps<T>(ep: Endpoint, dropped: set<T>, r: ReadState<T>, use: nat)
    requires ReadCore(ep, dropped, r) && r.ring.open && r.current.Some? && r.used + use <= r.total
    ensures r.total <= |r.ring.xfers[r.current.value].buf|
    ensures var r' := r.(used := r.used + use);
      && ReadCore(ep, dropped, r')
      && Handed(ep, dropped, r')
         == Handed(ep, dropped, r) + r.ring.xfers[r.current.value].buf[r.used..r.used + use]
  {}

  lemma ConsumeKeeps<T>(ep: Endpoint, dropped: set<T>, r: ReadState<T>, room: nat)
    requires ReadCore(ep, dropped, r) && r.ring.open && r.current.Some?
    ensures var (r', res) := Consume(ep, r, room);
      && Advances(ep, dropped, r, r', res)
      && ReadInv(ep, dropped, r') && r'.ring.open
      && |res.bytes| <= room
  {
    hide Queued, Ledger, Settled;
    var use := Min(r.total - r.used, room);
    AdvanceKeeps(ep, dropped, r, use);
    if r.used + use == r.total { RecycleKeeps(ep, dropped, r.(used := r.used + use)); }
  }

  // Two parts of a call, the first of which hands out nothing, make one.
  lemma AdvancesAfter<T>(ep: Endpoint, dropped: set<T>, r: ReadState<T>, f: ReadState<T>, r': ReadState<T>, first: ReadResult, res: ReadResult)
    requires ReadCore(ep, dropped, r) && r.ring.open
    requires Advances(ep, dropped, r, f, first) && f.ring.open && first.bytes == []
    requires Advances(ep, dropped, f, r', res)
    ensures Advances(ep, dropped, r, r', res)
  {
    hide ReadCore, Handed, Flown;
  }

  lemma ReadKeeps<T>(ep: Endpoint, dropped: set<T>, r: ReadState<T>, room: nat)
    requires ReadInv(ep, dropped, r) && r.ring.open
    ensures r.current.None? ==> ReadReady(Fetch(ep, r).0)
    ensures var (r', res) := Read(ep, r, room);
      && Advances(ep, dropped, r, r', res)
      && ReadInv(ep, dropped, r')
      && (!r'.ring.open ==> res.err.Some?)
  {
    if r.current.Some? {
      ConsumeKeeps(ep, dropped, r, room);
    } else {
      FetchKeeps(ep, dropped, r);
      var (f, first) := Fetch(ep, r);
      if f.ring.open {
        ConsumeKeeps(ep, dropped, f, room);
        var (r', res) := Consume(ep, f, room);
        AdvancesAfter(ep, dropped, r, f, r', first, res);
      }
    }
  }

  lemma CloseKeeps<T>(ep: Endpoint, dropped: set<T>, r: ReadState<T>)
    requires ReadInv(ep, dropped, r)
    ensures ReadInv(ep, dropped, CloseRead(r))
    ensures r.ring.open ==> Advances(ep, dropped, r, CloseRead(r), ReadResult(0, None, []))
  {
    if r.ring.open {
      FailSound(ep, dropped, r.current, r.ring, EOF);
      hide Kept, Sound, Queued, Payload;
    }
  }

  // ---- starting up ----

  // How many of the n submits beginning with attempt `from` succeed before one
  // is refused.
  ghost function AcceptedRun(ep: Endpoint, from: nat, n: nat): (k: nat)
    ensures k <= n
    ensures forall i: nat :: from <= i < from + k ==> ep.outcome(i).Done?
    ensures k < n ==> ep.outcome(from + k).Rejected?
    decreases n
  {
    if n == 0 || ep.outcome(from).Rejected? then 0 else 1 + AcceptedRun(ep, from + 1, n - 1)
  }

  // The transfers submitAll() neither submits nor frees when submit number k is
  // the first one refused.
  ghost function Abandoned<T>(all: seq<T>, k: nat): set<T> {
    if k < |all| then Elements(all[k + 1..]) else {}
  }

  // The error of the last submit, if it was refused. There is no submit after a
  // refused one.
  ghost function Refusal<T>(ep: Endpoint, s: Ring<T>): Option<Error> {
    if s.attempts > 0 && ep.outcome(s.attempts - 1).Rejected?
    then Some(ep.outcome(s.attempts - 1).reason)
    else None
  }

  // The ring in the middle of submitAll(), with `rest` still to submit.
  ghost predicate Starting<T>(ep: Endpoint, s: Ring<T>, rest: seq<T>) {
    && Queued(ep, s) && Settled(s) && s.xfers.Keys != {} && !s.finished
    && s.open && s.err.None? && Waits(ep, s) == 0
    && Distinct(rest)
    && (forall t :: t in rest ==>
          t in s.xfers && t !in s.queue && s.xfers[t].Idle? && |s.xfers[t].buf| == ep.size)
    && (forall t :: t in s.xfers ==> t in s.queue || t in rest)
  }

  lemma StartQueued<T>(ep: Endpoint, s: Ring<T>, rest: seq<T>)
    requires Starting(ep, s, rest) && rest != []
    requires ep.outcome(s.attempts).Done?
    ensures var s' := Submit(ep, s, rest[0]).0;
      var q := s'.(queue := s'.queue + [rest[0]]);
      Queued(ep, q) && Waits(ep, q) == 0
  {
    hide Settled;
    var t := rest[0];
    var s' := Submit(ep, s, t).0;
    var q := s'.(queue := s'.queue + [t]);
    forall i | 0 <= i < |q.queue| ensures InPlace(ep, Waits(ep, q), q.queue, q.xfers, i) {
      if i < |s.queue| { assert InPlace(ep, Waits(ep, s), s.queue, s.xfers, i); }
    }
  }

  lemma StartSubmit<T>(ep: Endpoint, s: Ring<T>, rest: seq<T>)
    requires Starting(ep, s, rest) && rest != []
    requires ep.outcome(s.attempts).Done?
    ensures var s' := Submit(ep, s, rest[0]).0;
      Starting(ep, s'.(queue := s'.queue + [rest[0]]), rest[1..])
  {
    var t := rest[0];
    var s' := Submit(ep, s, t).0;
    var q := s'.(queue := s'.queue + [t]);
    StartQueued(ep, s, rest);
    hide Queued, InPlace;
    assert Waits(ep, q) == 0;
  }

  lemma StartRefused<T>(ep: Endpoint, s: Ring<T>, rest: seq<T>)
    requires Starting(ep, s, rest) && rest != []
    requires ep.outcome(s.attempts).Rejected?
    ensures var (s', e) := Submit(ep, s, rest[0]);
      && Sound(ep, Abandoned(rest, 0), None, Fail(Free(s', rest[0]), e.value))
      && Waits(ep, Fail(Free(s', rest[0]), e.value)) == 0
  {
    var (s', e) := Submit(ep, s, rest[0]);
    var f := Fail(Free(s', rest[0]), e.value);
    assert Flown(ep, f) == Flown(ep, s);
    forall i | 0 <= i < |f.queue| ensures InPlace(ep, Waits(ep, f), f.queue, f.xfers, i) {
      assert InPlace(ep, Waits(ep, s), s.queue, s.xfers, i);
    }
    RefusedLedger(ep, s, rest);
  }

  lemma RefusedLedger<T>(ep: Endpoint, s: Ring<T>, rest: seq<T>)
    requires Starting(ep, s, rest) && rest != []
    requires ep.outcome(s.attempts).Rejected?
    ensures var (s', e) := Submit(ep, s, rest[0]);
      Ledger(ep, Abandoned(rest, 0), None, Fail(Free(s', rest[0]), e.value))
  {}

  // The outcome of submitAll(): a prefix of the transfers is in flight; if that
  // is not all of them, exactly those after the refused one are abandoned.
  ghost predicate StartedFrom<T>(ep: Endpoint, s: Ring<T>, rest: seq<T>, s': Ring<T>) {
    var k := AcceptedRun(ep, s.attempts, |rest|);
    && s'.queue == s.queue + rest[..k]
    && s'.err == (if k < |rest| then Some(ep.outcome(s.attempts + k).reason) else None)
    && s'.err == Refusal(ep, s')
    && s'.open && Waits(ep, s') == 0
    && Sound(ep, Abandoned(rest, k), None, s')
  }

  lemma StartedAfter<T>(ep: Endpoint, s: Ring<T>, rest: seq<T>, s1: Ring<T>, s': Ring<T>)
    requires rest != [] && ep.outcome(s.attempts).Done?
    requires s1.attempts == s.attempts + 1 && s1.queue == s.queue + [rest[0]]
    requires StartedFrom(ep, s1, rest[1..], s')
    ensures StartedFrom(ep, s, rest, s')
  {
    hide Queued, Ledger, Settled;
    var k := AcceptedRun(ep, s1.attempts, |rest| - 1);
    assert AcceptedRun(ep, s.attempts, |rest|) == k + 1;
    assert s1.queue + rest[1..][..k] == s.queue + rest[..k + 1];
    assert Abandoned(rest[1..], k) == Abandoned(rest, k + 1) by {
      if k < |rest[1..]| { assert rest[1..][k + 1..] == rest[k + 2..]; }
    }
  }

  // submitAll() takes only transfers that can be submitted.
  lemma StartsIdle<T>(ep: Endpoint, s: Ring<T>, rest: seq<T>)
    requires Starting(ep, s, rest)
    ensures forall t :: t in rest ==> t in s.xfers && s.xfers[t].Idle?
    ensures forall i, j :: 0 <= i < j < |rest| ==> rest[i] != rest[j]
  {
    hide Queued, Settled, Waits;
  }

  lemma StartedNothing<T>(ep: Endpoint, s: Ring<T>)
    requires Starting(ep, s, [])
    ensures StartedFrom(ep, s, [], SubmitFrom(ep, s, []))
  {}

  lemma RefusedIs<T>(ep: Endpoint, s: Ring<T>, rest: seq<T>)
    requires Starting(ep, s, rest) && rest != [] && ep.outcome(s.attempts).Rejected?
    requires (forall t :: t in rest ==> t in s.xfers && s.xfers[t].Idle?)
      && (forall i, j :: 0 <= i < j < |rest| ==> rest[i] != rest[j])
    ensures var (s', e) := Submit(ep, s, rest[0]);
      && e.Some? && SubmitFrom(ep, s, rest) == Fail(Free(s', rest[0]), e.value)
      && SubmitFrom(ep, s, rest).queue == s.queue && SubmitFrom(ep, s, rest).open
      && SubmitFrom(ep, s, rest).err == Some(ep.outcome(s.attempts).reason)
      && SubmitFrom(ep, s, rest).err == Refusal(ep, SubmitFrom(ep, s, rest))
  {
    hide Queued, Settled, Waits;
  }

  lemma RefusedMeans<T>(ep: Endpoint, s: Ring<T>, rest: seq<T>, s': Ring<T>)
    requires rest != [] && ep.outcome(s.attempts).Rejected?
    requires s'.queue == s.queue && s'.open && s'.err == Some(ep.outcome(s.attempts).reason) == Refusal(ep, s')
    requires Sound(ep, Abandoned(rest, 0), None, s') && Waits(ep, s') == 0
    ensures StartedFrom(ep, s, rest, s')
  {
    hide Sound, Waits, Abandoned;
    assert s.queue + rest[..0] == s.queue;
  }

  lemma StartedRefused<T>(ep: Endpoint, s: Ring<T>, rest: seq<T>)
    requires Starting(ep, s, rest) && rest != [] && ep.outcome(s.attempts).Rejected?
    ensures (forall t :: t in rest ==> t in s.xfers && s.xfers[t].Idle?)
      && (forall i, j :: 0 <= i < j < |rest| ==> rest[i] != rest[j])
      && StartedFrom(ep, s, rest, SubmitFrom(ep, s, rest))
  {
    hide *;
    StartRefused(ep, s, rest);
    StartsIdle(ep, s, rest);
    RefusedIs(ep, s, rest);
    RefusedMeans(ep, s, rest, SubmitFrom(ep, s, rest));
  }

  // One step of submitAll().
  lemma StartedOne<T>(ep: Endpoint, s: Ring<T>, rest: seq<T>) returns (s1: Ring<T>)
    requires Starting(ep, s, rest) && rest != [] && ep.outcome(s.attempts).Done?
    requires rest[0] in s.xfers && s.xfers[rest[0]].Idle?
    requires var q := Submit(ep, s, rest[0]).0; Starting(ep, q.(queue := q.queue + [rest[0]]), rest[1..])
    ensures Starting(ep, s1, rest[1..])
    ensures s1.attempts == s.attempts + 1 && s1.queue == s.queue + [rest[0]]
    ensures (forall t :: t in rest ==> t in s.xfers && s.xfers[t].Idle?)
      && (forall i, j :: 0 <= i < j < |rest| ==> rest[i] != rest[j])
    ensures (forall t :: t in rest[1..] ==> t in s1.xfers && s1.xfers[t].Idle?)
      && (forall i, j :: 0 <= i < j < |rest[1..]| ==> rest[1..][i] != rest[1..][j])
    ensures SubmitFrom(ep, s, rest) == SubmitFrom(ep, s1, rest[1..])
  {
    StartsIdle(ep, s, rest);
    var q := Submit(ep, s, rest[0]).0;
    s1 := q.(queue := q.queue + [rest[0]]);
    StartsIdle(ep, s1, rest[1..]);
    hide Starting;
  }

  lemma {:induction false} SubmitAllStarts<T>(ep: Endpoint, s: Ring<T>, rest: seq<T>)
    requires Starting(ep, s, rest)
    ensures StartedFrom(ep, s, rest, SubmitFrom(ep, s, rest))
    decreases |rest|
  {
    hide *;
    if rest == [] {
      StartedNothing(ep, s);
    } else if ep.outcome(s.attempts).Rejected? {
      StartedRefused(ep, s, rest);
    } else {
      StartsIdle(ep, s, rest);
      assert rest[0] in rest;
      StartSubmit(ep, s, rest);
      var s1 := StartedOne(ep, s, rest);
      SubmitAllStarts(ep, s1, rest[1..]);
      StartedAfter(ep, s, rest, s1, SubmitFrom(ep, s1, rest[1..]));
    }
  }

  lemma {:induction false} SameKeys<T>(ep: Endpoint, s: Ring<T>, all: seq<T>)
    requires Distinct(all) && forall t :: t in all ==> t in s.xfers && s.xfers[t].Idle?
    ensures SubmitFrom(ep, s, all).xfers.Keys == s.xfers.Keys
    decreases |all|
  {
    if all != [] && ep.outcome(s.attempts).Done? {
      var s' := Submit(ep, s, all[0]).0;
      SameKeys(ep, s'.(queue := s'.queue + [all[0]]), all[1..]);
    }
  }

  // A read stream as InEndpoint.NewStream returns it.
  ghost function NewRead<T>(ep: Endpoint, pool: seq<T>, xfers: map<T, Xfer>): ReadState<T>
    requires Fresh(ep, pool, xfers)
  {
    ReadState(SubmitFrom(ep, NewRing([], xfers), pool), None, 0, 0)
  }

  lemma NewReadStarts<T>(ep: Endpoint, pool: seq<T>, xfers: map<T, Xfer>)
    requires Fresh(ep, pool, xfers) && ep.inbound
    ensures var k := AcceptedRun(ep, 0, |pool|);
      && Started(ep, Abandoned(pool, k), NewRead(ep, pool, xfers))
      && NewRead(ep, pool, xfers).ring.queue == pool[..k]
      && NewRead(ep, pool, xfers).ring.err == (if k < |pool| then Some(ep.outcome(k).reason) else None)
  {
    var s := NewRing([], xfers);
    assert pool[0] in xfers;
    assert Starting(ep, s, pool);
    SubmitAllStarts(ep, s, pool);
  }

  // What went back is what is neither queued nor abandoned.
  lemma ReturnedIs<T>(ep: Endpoint, dropped: set<T>, s: Ring<T>)
    requires Sound(ep, dropped, None, s)
    ensures forall t :: s.returned[t] == if t in s.xfers && t !in s.queue && t !in dropped then 1 else 0
    ensures forall t :: t in dropped ==> t in s.xfers && s.xfers[t].Idle? && t !in s.queue
  {
    QueuedAlive(ep, s);
    hide Queued;
  }

  lemma PoolParts<T>(pool: seq<T>, k: nat, t: T)
    requires Distinct(pool) && k <= |pool|
    ensures t in pool <==> t in pool[..k] || (k < |pool| && t == pool[k]) || t in Abandoned(pool, k)
    ensures k < |pool| ==> pool[k] !in pool[..k] && pool[k] !in Abandoned(pool, k)
  {
    if k < |pool| { assert pool == pool[..k] + [pool[k]] + pool[k + 1..]; } else { assert pool[..k] == pool; }
  }

  // submitAll() gives back only the transfer whose submit was refused, and leaves
  // those after it as they are.
  lemma StartReturns<T>(ep: Endpoint, pool: seq<T>, xfers: map<T, Xfer>)
    requires Fresh(ep, pool, xfers) && ep.inbound
    ensures var s, k := NewRead(ep, pool, xfers).ring, AcceptedRun(ep, 0, |pool|);
      && s.returned == (if k < |pool| then multiset{pool[k]} else multiset{})
      && forall i :: k < i < |pool| ==> pool[i] in s.xfers && s.xfers[pool[i]].Idle? && pool[i] !in s.queue
  {
    var s, k := NewRead(ep, pool, xfers).ring, AcceptedRun(ep, 0, |pool|);
    NewReadStarts(ep, pool, xfers);
    SameKeys(ep, NewRing([], xfers), pool);
    assert Distinct(pool) && forall t :: t in xfers <==> t in pool;
    assert Sound(ep, Abandoned(pool, k), None, s) && s.xfers.Keys == xfers.Keys && s.queue == pool[..k];
    hide *;
    ReturnedIs(ep, Abandoned(pool, k), s);
    var back := if k < |pool| then multiset{pool[k]} else multiset{};
    forall t ensures s.returned[t] == back[t] { PoolParts(pool, k, t); }
    forall i | k < i < |pool| ensures pool[i] in Abandoned(pool, k) { AbandonedAt(pool, k, i); }
  }

  lemma AbandonedAt<T>(pool: seq<T>, k: nat, i: nat)
    requires k < i < |pool|
    ensures pool[i] in Abandoned(pool, k)
  {
    assert pool[k + 1..][i - k - 1] == pool[i];
  }

  // ---- runs ----

  datatype ReadOp = ReadOp(room: nat) | CloseOp

  // One operation. Close answers 0 bytes and no error.
  ghost function Step<T>(ep: Endpoint, dropped: set<T>, r: ReadState<T>, op: ReadOp): (out: (ReadState<T>, ReadResult))
    requires ReadInv(ep, dropped, r)
    ensures ReadInv(ep, dropped, out.0)
  {
    match op
    case ReadOp(room) =>
      if r.ring.open then ReadKeeps(ep, dropped, r, room); Read(ep, r, room) else Read(ep, r, room)
    case CloseOp => CloseKeeps(ep, dropped, r); (CloseRead(r), ReadResult(0, None, []))
  }

  lemma CloseStep<T>(ep: Endpoint, dropped: set<T>, r: ReadState<T>)
    requires ReadInv(ep, dropped, r)
    ensures Step(ep, dropped, r, CloseOp) == (CloseRead(r), ReadResult(0, None, []))
  {
  }

  ghost function Run<T>(ep: Endpoint, dropped: set<T>, r: ReadState<T>, ops: seq<ReadOp>): (out: (ReadState<T>, seq<ReadResult>))
    requires ReadInv(ep, dropped, r)
    ensures ReadInv(ep, dropped, out.0)
  {
    if ops == [] then (r, []) else
      var (r1, rs) := Run(ep, dropped, r, ops[..|ops| - 1]);
      var (r2, res) := Step(ep, dropped, r1, ops[|ops| - 1]);
      (r2, rs + [res])
  }

  lemma RunNothing<T>(ep: Endpoint, dropped: set<T>, r0: ReadState<T>)
    requires ReadInv(ep, dropped, r0)
    ensures Run(ep, dropped, r0, []) == (r0, [])
  {}

  lemma RunSnoc<T>(ep: Endpoint, dropped: set<T>, r0: ReadState<T>, ops: seq<ReadOp>, op: ReadOp)
    requires ReadInv(ep, dropped, r0)
    ensures var (r, rs) := Run(ep, dropped, r0, ops);
      var (r', res) := Step(ep, dropped, r, op);
      Run(ep, dropped, r0, ops + [op]) == (r', rs + [res])
  {
    hide ReadInv, Step;
    assert (ops + [op])[..|ops|] == ops;
  }

  // The bytes a read with a nil error copied to its caller ...
  ghost function Brought(res: ReadResult): seq<byte> {
    if res.err.None? then res.bytes else []
  }

  // ... and those of a run, in order.
  ghost function Delivered(rs: seq<ReadResult>): seq<byte> {
    if rs == [] then [] else
      var last := rs[|rs| - 1];
      Delivered(rs[..|rs| - 1]) + Brought(last)
  }

  lemma DeliveredSnoc(rs: seq<ReadResult>, res: ReadResult)
    ensures Delivered(rs + [res]) == Delivered(rs) + Brought(res)
  {
    assert (rs + [res])[..|rs|] == rs;
  }

  // A stream as NewStream leaves it: nothing read, nothing waited for, and no error
  // but that of a refused submit.
  ghost predicate Started<T>(ep: Endpoint, dropped: set<T>, r: ReadState<T>) {
    && ReadInv(ep, dropped, r) && r.ring.open && r.current.None? && Waits(ep, r.ring) == 0
    && r.ring.err == Refusal(ep, r.ring)
  }

  lemma {:induction false} PayloadPrefix(ep: Endpoint, m: nat, n: nat)
    requires m <= n
    ensures Payload(ep, m) <= Payload(ep, n)
  {
    if m < n { PayloadPrefix(ep, m, n - 1); }
  }

  // What was handed out, as part of the data of the submissions waited for.
  lemma WaitedFor<T>(ep: Endpoint, dropped: set<T>, r: ReadState<T>)
    requires ReadInv(ep, dropped, r) && r.ring.open
    ensures var w := Waits(ep, r.ring);
      && 0 <= w <= Flown(ep, r.ring)
      && (r.current.None? ==> Handed(ep, dropped, r) == Payload(ep, w))
      && (r.current.Some? ==>
            && w > 0 && r.used <= |Data(ep.outcome(w - 1))|
            && Handed(ep, dropped, r) == Payload(ep, w - 1) + Data(ep.outcome(w - 1))[..r.used])
  {
    hide Payload;
    if r.current.Some? {
      var d := Data(ep.outcome(Waits(ep, r.ring) - 1));
      assert r.ring.xfers[r.current.value].buf[..r.used] == d[..r.used];
    }
  }

  lemma PartOfNext(ep: Endpoint, w: nat, used: nat)
    requires used <= |Data(ep.outcome(w))|
    ensures Payload(ep, w) + Data(ep.outcome(w))[..used] <= Payload(ep, w + 1)
  {
    hide Data;
  }

  // Handing out bytes never runs ahead of what was submitted.
  lemma HandedPrefix<T>(ep: Endpoint, dropped: set<T>, r: ReadState<T>)
    requires ReadInv(ep, dropped, r) && r.ring.open
    ensures Handed(ep, dropped, r) <= Payload(ep, Flown(ep, r.ring))
  {
    hide *;
    var w := Waits(ep, r.ring);
    WaitedFor(ep, dropped, r);
    PayloadPrefix(ep, w, Flown(ep, r.ring));
    if r.current.Some? {
      PartOfNext(ep, w - 1, r.used);
    }
  }

  lemma StepAdvances<T>(ep: Endpoint, dropped: set<T>, r: ReadState<T>, op: ReadOp)
    requires ReadInv(ep, dropped, r) && r.ring.open
    ensures var (r', res) := Step(ep, dropped, r, op);
      && Advances(ep, dropped, r, r', res)
      && (!r'.ring.open ==> res.err.Some?)
  {
    match op
    case CloseOp => CloseKeeps(ep, dropped, r);
    case ReadOp(room) => ReadKeeps(ep, dropped, r, room);
  }

  // What was delivered is what the stream handed out as long as it is open, and
  // part of the data of the submissions.
  ghost predicate Faithful<T>(ep: Endpoint, dropped: set<T>, r: ReadState<T>, delivered: seq<byte>)
    requires ReadInv(ep, dropped, r)
  {
    && delivered <= Payload(ep, Flown(ep, r.ring))
    && (r.ring.open ==> delivered == Handed(ep, dropped, r))
  }

  lemma NothingHanded<T>(ep: Endpoint, dropped: set<T>, r: ReadState<T>)
    requires Started(ep, dropped, r)
    ensures ReadInv(ep, dropped, r) && Faithful(ep, dropped, r, [])
  {}

  lemma StepIsFaithful<T>(ep: Endpoint, dropped: set<T>, r: ReadState<T>, op: ReadOp, delivered: seq<byte>)
    requires ReadInv(ep, dropped, r) && Faithful(ep, dropped, r, delivered)
    ensures var (r', res) := Step(ep, dropped, r, op); Faithful(ep, dropped, r', delivered + Brought(res))
  {
    var (r', res) := Step(ep, dropped, r, op);
    if r.ring.open {
      StepAdvances(ep, dropped, r, op);
      hide ReadInv, Handed, Payload, Step;
      PayloadPrefix(ep, Flown(ep, r.ring), Flown(ep, r'.ring));
      if r'.ring.open { HandedPrefix(ep, dropped, r'); }
    } else {
      hide ReadInv, Handed, Payload;
    }
  }

  lemma NothingDelivered()
    ensures Delivered([]) == []
  {}

  lemma {:induction false} RunIsFaithful<T>(ep: Endpoint, dropped: set<T>, r0: ReadState<T>, ops: seq<ReadOp>)
    requires Started(ep, dropped, r0)
    ensures ReadInv(ep, dropped, r0)
    ensures var (r, rs) := Run(ep, dropped, r0, ops); Faithful(ep, dropped, r, Delivered(rs))
  {
    hide *;
    NothingHanded(ep, dropped, r0);
    if ops == [] {
      RunNothing(ep, dropped, r0);
      assert Delivered([]) == [] by { NothingDelivered(); }
    } else {
      var init, op := ops[..|ops| - 1], ops[|ops| - 1];
      assert ops == init + [op];
      RunIsFaithful(ep, dropped, r0, init);
      var (r, rs) := Run(ep, dropped, r0, init);
      RunSnoc(ep, dropped, r0, init, op);
      StepIsFaithful(ep, dropped, r, op, Delivered(rs));
      DeliveredSnoc(rs, Step(ep, dropped, r, op).1);
    }
  }

  // Fidelity: whatever is read and whenever the stream is closed, the bytes
  // delivered are a prefix of the data of the submissions in submission order.
  lemma ReadFidelity<T>(ep: Endpoint, dropped: set<T>, r0: ReadState<T>, ops: seq<ReadOp>)
    requires Started(ep, dropped, r0)
    ensures var (r, rs) := Run(ep, dropped, r0, ops);
      && Delivered(rs) <= Payload(ep, Flown(ep, r.ring))
      && (r.ring.open ==> Delivered(rs) == Handed(ep, dropped, r))
  {
    RunIsFaithful(ep, dropped, r0, ops);
    hide ReadInv, Handed, Payload, Run, Delivered, Flown;
  }

  // ---- closed streams ----

  // Once a read has answered with an error, all later ones answer
  // ErrClosedPipe and nothing changes any more.
  lemma ClosedForGood<T>(ep: Endpoint, dropped: set<T>, r: ReadState<T>, op: ReadOp)
    requires ReadInv(ep, dropped, r)
    ensures r.ring.open && Step(ep, dropped, r, op).1.err.Some? ==> !Step(ep, dropped, r, op).0.ring.open
    ensures !r.ring.open ==>
      Step(ep, dropped, r, op) == (r, ReadResult(0, if op.ReadOp? then Some(ErrClosedPipe) else None, []))
  {}

  // ---- how much a read hands out ----

  // The submission a read is going to hand out bytes of, or find failed.
  ghost function Reading<T>(ep: Endpoint, r: ReadState<T>): int {
    Waits(ep, r.ring) - if r.current.Some? then 1 else 0
  }

  // The bytes are the next ones of submission w: all that is left of it, or as many
  // as there is room for.
  ghost predicate HandsOut(ep: Endpoint, handed: seq<byte>, w: nat, room: nat, bytes: seq<byte>) {
    && |Payload(ep, w)| <= |handed| <= |Payload(ep, w + 1)|
    && handed + bytes <= Payload(ep, w + 1)
    && var left := |Payload(ep, w + 1)| - |handed|;
       |bytes| == if room < left then room else left
  }

  // A read that does not end the stream hands out bytes of one submission like this.
  lemma ReadAmount<T>(ep: Endpoint, dropped: set<T>, r: ReadState<T>, room: nat)
    requires ReadInv(ep, dropped, r) && r.ring.open
    requires Step(ep, dropped, r, ReadOp(room)).0.ring.open
    ensures var res := Step(ep, dropped, r, ReadOp(room)).1;
      && 0 <= Reading(ep, r) < Flown(ep, r.ring)
      && res.err.None? && res.n == |res.bytes|
      && HandsOut(ep, Handed(ep, dropped, r), Reading(ep, r), room, res.bytes)
  {
    hide *;
    ReadIs(ep, dropped, r, room);
    ReadingIs(ep, r);
    if r.current.Some? {
      CurrentAmount(ep, dropped, r, room);
    } else {
      FetchNext(ep, dropped, r);
      var f := Fetch(ep, r).0;
      HandedAtStart(ep, dropped, f);
      WaitedFor(ep, dropped, r);
      CurrentAmount(ep, dropped, f, room);
    }
  }

  lemma ReadingIs<T>(ep: Endpoint, r: ReadState<T>)
    ensures Reading(ep, r) == Waits(ep, r.ring) - if r.current.Some? then 1 else 0
  {}

  // A read in its parts.
  lemma ReadIs<T>(ep: Endpoint, dropped: set<T>, r: ReadState<T>, room: nat)
    requires ReadInv(ep, dropped, r) && r.ring.open
    ensures ReadCore(ep, dropped, r) && ReadReady(r)
    ensures r.current.None? ==> ReadReady(Fetch(ep, r).0)
    ensures Step(ep, dropped, r, ReadOp(room)) == Read(ep, r, room)
    ensures r.current.Some? ==> r.used < r.total
    ensures r.current.Some? ==> Step(ep, dropped, r, ReadOp(room)) == Consume(ep, r, room)
    ensures r.current.None? ==>
      var f := Fetch(ep, r);
      && (r.ring.queue == [] ==> !f.0.ring.open)
      && (f.0.ring.open <==> f.0.current.Some?)
      && Step(ep, dropped, r, ReadOp(room)) == if f.0.current.Some? then Consume(ep, f.0, room) else f
  {
    ReadKeeps(ep, dropped, r, room);
    assert ReadReady(r);
    if r.current.None? {
      FetchKeeps(ep, dropped, r);
      if r.ring.queue == [] { FetchDrained(ep, dropped, r); }
    }
    hide ReadInv, ReadReady, Fetch, Consume;
  }

  lemma ConsumeBytes<T>(ep: Endpoint, r: ReadState<T>, room: nat) returns (res: ReadResult)
    requires ReadReady(r) && r.current.Some?
    ensures res == Consume(ep, r, room).1 && res.err.None? && res.n == |res.bytes|
    ensures |res.bytes| == if room < r.total - r.used then room else r.total - r.used
    ensures r.used + |res.bytes| <= r.total && r.current.value in r.ring.xfers && r.ring.xfers[r.current.value].Idle?
    ensures r.total <= |r.ring.xfers[r.current.value].buf|
    ensures res.bytes == r.ring.xfers[r.current.value].buf[..r.total][r.used..r.used + |res.bytes|]
  {
    res := Consume(ep, r, room).1;
  }

  lemma NextBytes(ep: Endpoint, w: nat, used: nat, n: nat)
    requires used + n <= |Data(ep.outcome(w))|
    ensures var d := Data(ep.outcome(w));
      && |Payload(ep, w + 1)| == |Payload(ep, w)| + |d|
      && Payload(ep, w) + d[..used] + d[used..used + n] <= Payload(ep, w + 1)
  {
    hide Data;
    var d := Data(ep.outcome(w));
    assert d[..used] + d[used..used + n] == d[..used + n];
    assert Payload(ep, w) + d[..used] + d[used..used + n] == Payload(ep, w) + d[..used + n];
  }

  lemma HandsOutIs(ep: Endpoint, handed: seq<byte>, w: nat, room: nat, bytes: seq<byte>)
    requires |Payload(ep, w)| <= |handed| <= |Payload(ep, w + 1)| && handed + bytes <= Payload(ep, w + 1)
    requires var left := |Payload(ep, w + 1)| - |handed|; |bytes| == if room < left then room else left
    ensures HandsOut(ep, handed, w, room, bytes)
  {}

  lemma CurrentAmount<T>(ep: Endpoint, dropped: set<T>, r: ReadState<T>, room: nat)
    requires ReadCore(ep, dropped, r) && r.ring.open && r.current.Some?
    ensures ReadReady(r)
    ensures var w := Waits(ep, r.ring) - 1;
      var res := Consume(ep, r, room).1;
      && 0 <= w < Flown(ep, r.ring)
      && res.err.None? && res.n == |res.bytes|
      && HandsOut(ep, Handed(ep, dropped, r), w, room, res.bytes)
  {
    hide *;
    var w := Waits(ep, r.ring) - 1;
    CurrentData(ep, dropped, r);
    var res := ConsumeBytes(ep, r, room);
    NextBytes(ep, w, r.used, |res.bytes|);
    var d := Data(ep.outcome(w));
    assert res.bytes == d[r.used..r.used + |res.bytes|];
    HandsOutIs(ep, Handed(ep, dropped, r), w, room, res.bytes);
  }

  // The transfer a stream holds has the data of the last submission waited for.
  lemma CurrentData<T>(ep: Endpoint, dropped: set<T>, r: ReadState<T>)
    requires ReadCore(ep, dropped, r) && r.ring.open && r.current.Some?
    ensures ReadReady(r)
    ensures var w := Waits(ep, r.ring) - 1;
      && 0 <= w < Flown(ep, r.ring)
      && var d := Data(ep.outcome(w));
         && |d| == r.total && Handed(ep, dropped, r) == Payload(ep, w) + d[..r.used]
         && r.ring.xfers[r.current.value].buf[..r.total] == d
  {
    hide Payload, Settled;
    var d := Data(ep.outcome(Waits(ep, r.ring) - 1));
    assert r.ring.xfers[r.current.value].buf[..r.total] == d;
    assert r.ring.xfers[r.current.value].buf[..r.used] == d[..r.used];
  }

  // ---- the error of a stream ----

  // While the stream is open its error is that of the refused submit, or EOF once
  // it was closed, and there is none otherwise. A submit that was refused came
  // before any Close: see NoMoreSubmits.
  ghost predicate ErrorIs<T>(ep: Endpoint, s: Ring<T>, closed: bool) {
    s.err == if Refusal(ep, s).Some? then Refusal(ep, s) else if closed then Some(EOF) else None
  }

  // What a part of a call does to the error and the number of submits.
  ghost predicate ErrorStays<T>(ep: Endpoint, s: Ring<T>, s': Ring<T>) {
    && (forall closed :: ErrorIs(ep, s, closed) ==> ErrorIs(ep, s', closed))
    && (s.err.Some? ==> s'.attempts == s.attempts && s'.err.Some?)
  }

  lemma RecycleError<T>(ep: Endpoint, r: ReadState<T>)
    requires ReadReady(r) && r.current.Some?
    ensures ErrorStays(ep, r.ring, Recycle(ep, r).ring)
  {}

  lemma ConsumeError<T>(ep: Endpoint, r: ReadState<T>, room: nat)
    requires ReadReady(r) && r.current.Some?
    ensures ErrorStays(ep, r.ring, Consume(ep, r, room).0.ring)
  {
    var use := Min(r.total - r.used, room);
    var r' := r.(used := r.used + use);
    if r'.used == r'.total { RecycleError(ep, r'); }
  }

  lemma FetchError<T>(ep: Endpoint, r: ReadState<T>)
    requires ReadReady(r) && r.current.None?
    ensures var s := Fetch(ep, r).0.ring; s.attempts == r.ring.attempts && s.err == r.ring.err
  {}

  lemma SameError<T>(ep: Endpoint, s: Ring<T>, f: Ring<T>, s': Ring<T>)
    requires f.attempts == s.attempts && f.err == s.err && ErrorStays(ep, f, s')
    ensures ErrorStays(ep, s, s')
  {
    assert forall closed :: ErrorIs(ep, s, closed) ==> ErrorIs(ep, f, closed);
  }

  lemma NoError<T>(ep: Endpoint, s: Ring<T>)
    ensures ErrorStays(ep, s, s)
  {}

  lemma ReadError<T>(ep: Endpoint, dropped: set<T>, r: ReadState<T>, room: nat)
    requires ReadInv(ep, dropped, r) && r.ring.open
    ensures ErrorStays(ep, r.ring, Step(ep, dropped, r, ReadOp(room)).0.ring)
  {
    hide *;
    ReadIs(ep, dropped, r, room);
    if r.current.Some? {
      ConsumeError(ep, r, room);
    } else {
      FetchError(ep, r);
      var f := Fetch(ep, r).0;
      if f.current.Some? {
        ConsumeError(ep, f, room);
        SameError(ep, r.ring, f.ring, Consume(ep, f, room).0.ring);
      } else {
        NoError(ep, f.ring);
        SameError(ep, r.ring, f.ring, f.ring);
      }
    }
  }

  lemma CloseError<T>(ep: Endpoint, dropped: set<T>, r: ReadState<T>)
    requires ReadInv(ep, dropped, r)
    ensures var s := Step(ep, dropped, r, CloseOp).0.ring;
      && s.attempts == r.ring.attempts && (r.ring.err.Some? ==> s.err == r.ring.err)
      && (forall closed :: r.ring.open && ErrorIs(ep, r.ring, closed) ==> ErrorIs(ep, s, true))
  {
    CloseStep(ep, dropped, r);
    hide ReadInv;
  }

  lemma StepError<T>(ep: Endpoint, dropped: set<T>, r: ReadState<T>, op: ReadOp, closed: bool)
    requires ReadInv(ep, dropped, r)
    ensures var s := Step(ep, dropped, r, op).0.ring;
      && (s.open ==> r.ring.open && (ErrorIs(ep, r.ring, closed) ==> ErrorIs(ep, s, closed || op.CloseOp?)))
      && (r.ring.err.Some? ==> s.attempts == r.ring.attempts && s.err.Some?)
  {
    if !r.ring.open { ClosedForGood(ep, dropped, r, op); }
    hide ReadInv, Step, ErrorIs;
    match op
    case CloseOp => CloseError(ep, dropped, r);
    case ReadOp(room) => if r.ring.open { ReadError(ep, dropped, r, room); }
  }

  // After an error no submit is made any more.
  lemma {:induction false} NoMoreSubmits<T>(ep: Endpoint, dropped: set<T>, r: ReadState<T>, ops: seq<ReadOp>)
    requires ReadInv(ep, dropped, r) && r.ring.err.Some?
    ensures var s := Run(ep, dropped, r, ops).0.ring; s.attempts == r.ring.attempts && s.err.Some?
  {
    hide *;
    if ops == [] {
      RunNothing(ep, dropped, r);
    } else {
      var init, op := ops[..|ops| - 1], ops[|ops| - 1];
      assert ops == init + [op];
      NoMoreSubmits(ep, dropped, r, init);
      RunSnoc(ep, dropped, r, init, op);
      StepError(ep, dropped, Run(ep, dropped, r, init).0, op, true);
    }
  }

  // The error of every state of a run.
  lemma {:induction false} RunError<T>(ep: Endpoint, dropped: set<T>, r0: ReadState<T>, ops: seq<ReadOp>)
    requires Started(ep, dropped, r0)
    ensures ReadInv(ep, dropped, r0)
    ensures var s := Run(ep, dropped, r0, ops).0.ring; s.open ==> ErrorIs(ep, s, CloseOp in ops)
  {
    hide *;
    StartError(ep, dropped, r0);
    if ops == [] {
      RunNothing(ep, dropped, r0);
    } else {
      var init, op := ops[..|ops| - 1], ops[|ops| - 1];
      assert ops == init + [op];
      RunError(ep, dropped, r0, init);
      RunSnoc(ep, dropped, r0, init, op);
      StepError(ep, dropped, Run(ep, dropped, r0, init).0, op, CloseOp in init);
    }
  }

  lemma ErrorMeans<T>(ep: Endpoint, s: Ring<T>, s': Ring<T>)
    requires ErrorIs(ep, s, false) && s'.attempts == s.attempts
    ensures s.err == Refusal(ep, s)
    ensures ErrorIs(ep, s', true) ==> s'.err == Some(if Refusal(ep, s).Some? then Refusal(ep, s).value else EOF)
  {}

  // What comes first counts: a Close leaves EOF if no submit was refused before it,
  // whatever is read after it, and the refused submit's reason stays otherwise.
  lemma FirstErrorStays<T>(ep: Endpoint, dropped: set<T>, r0: ReadState<T>, a: seq<ReadOp>, b: seq<ReadOp>)
    requires Started(ep, dropped, r0) && CloseOp !in a && Run(ep, dropped, r0, a).0.ring.open
    ensures var s := Run(ep, dropped, r0, a).0.ring;
      && s.err == Refusal(ep, s)
      && var s' := Run(ep, dropped, r0, a + [CloseOp] + b).0.ring;
         s'.open ==> s'.err == Some(if Refusal(ep, s).Some? then Refusal(ep, s).value else EOF)
  {
    hide *;
    RunError(ep, dropped, r0, a);
    RunError(ep, dropped, r0, a + [CloseOp] + b);
    assert (a + [CloseOp] + b)[|a|] == CloseOp;
    RunSnoc(ep, dropped, r0, a, CloseOp);
    var c := Run(ep, dropped, r0, a + [CloseOp]).0;
    ClosedHasError(ep, dropped, Run(ep, dropped, r0, a).0);
    RunOn(ep, dropped, r0, a + [CloseOp], b);
    NoMoreSubmits(ep, dropped, c, b);
    ErrorMeans(ep, Run(ep, dropped, r0, a).0.ring, Run(ep, dropped, r0, a + [CloseOp] + b).0.ring);
  }

  lemma ClosedHasError<T>(ep: Endpoint, dropped: set<T>, r: ReadState<T>)
    requires ReadInv(ep, dropped, r) && r.ring.open
    ensures var s := Step(ep, dropped, r, CloseOp).0.ring; s.err.Some? && s.attempts == r.ring.attempts
  {
    CloseStep(ep, dropped, r);
    hide ReadInv, Step;
  }

  lemma {:induction false} RunOn<T>(ep: Endpoint, dropped: set<T>, r0: ReadState<T>, a: seq<ReadOp>, b: seq<ReadOp>)
    requires ReadInv(ep, dropped, r0)
    ensures Run(ep, dropped, r0, a + b).0 == Run(ep, dropped, Run(ep, dropped, r0, a).0, b).0
    decreases |b|
  {
    hide *;
    var r := Run(ep, dropped, r0, a).0;
    if b == [] {
      assert a + b == a;
      RunNothing(ep, dropped, r);
    } else {
      var init, op := b[..|b| - 1], b[|b| - 1];
      RunOn(ep, dropped, r0, a, init);
      assert b == init + [op] && a + b == a + init + [op];
      RunSnoc(ep, dropped, r0, a + init, op);
      RunSnoc(ep, dropped, r, init, op);
    }
  }

  lemma StartError<T>(ep: Endpoint, dropped: set<T>, r: ReadState<T>)
    requires Started(ep, dropped, r)
    ensures ReadInv(ep, dropped, r) && ErrorIs(ep, r.ring, false)
  {}

  // ---- how a stream ends ----

  // When a read meets the end of a stream, every byte that could be delivered
  // has been. Either the channel is drained: the answer is the reason of the
  // refused submit, or else EOF after a Close, and the bytes handed out are all the
  // data of all the submissions. Or the next transfer failed: the answer is its
  // error and the bytes are all the data of the submissions before it.
  ghost predicate EndsWith<T>(ep: Endpoint, r: ReadState<T>, closed: bool, res: ReadResult, delivered: seq<byte>) {
    if r.ring.queue == [] then
      && (Refusal(ep, r.ring).Some? || closed)
      && res == ReadResult(0, if Refusal(ep, r.ring).Some? then Refusal(ep, r.ring) else Some(EOF), [])
      && delivered == Payload(ep, Flown(ep, r.ring))
    else
      var w := Waits(ep, r.ring);
      && w >= 0 && ep.outcome(w).Done? && ep.outcome(w).err.Some?
      && res == ReadResult(ep.outcome(w).n, ep.outcome(w).err, [])
      && delivered == Payload(ep, w)
  }

  lemma ReadEnds<T>(ep: Endpoint, dropped: set<T>, r: ReadState<T>, room: nat, closed: bool)
    requires ReadInv(ep, dropped, r) && r.ring.open && ErrorIs(ep, r.ring, closed)
    requires !Step(ep, dropped, r, ReadOp(room)).0.ring.open
    ensures EndsWith(ep, r, closed, Step(ep, dropped, r, ReadOp(room)).1, Handed(ep, dropped, r))
  {
    hide Refusal;
    ReadKeeps(ep, dropped, r, room);
    if r.current.Some? {
      ConsumeKeeps(ep, dropped, r, room);
    } else if r.ring.queue == [] {
      FetchDrained(ep, dropped, r);
    } else {
      FetchNext(ep, dropped, r);
      var f := Fetch(ep, r).0;
      if f.ring.open { ConsumeKeeps(ep, dropped, f, room); }
    }
  }

  lemma EndDeliversAll<T>(ep: Endpoint, dropped: set<T>, r0: ReadState<T>, ops: seq<ReadOp>, room: nat)
    requires Started(ep, dropped, r0)
    requires Run(ep, dropped, r0, ops).0.ring.open
    requires !Run(ep, dropped, r0, ops + [ReadOp(room)]).0.ring.open
    ensures var (r, rs) := Run(ep, dropped, r0, ops);
      var (r', rs') := Run(ep, dropped, r0, ops + [ReadOp(room)]);
      && |rs'| == |rs| + 1 && rs'[..|rs|] == rs
      && EndsWith(ep, r, CloseOp in ops, rs'[|rs|], Delivered(rs))
  {
    hide Step, EndsWith, ErrorIs;
    ReadFidelity(ep, dropped, r0, ops);
    RunError(ep, dropped, r0, ops);
    RunSnoc(ep, dropped, r0, ops, ReadOp(room));
    ReadEnds(ep, dropped, Run(ep, dropped, r0, ops).0, room, CloseOp in ops);
  }

  // Conservation: when the stream is over, every transfer went back to libusb
  // exactly once, except the ones submitAll() abandoned, which never did.
  lemma ReadConservation<T>(ep: Endpoint, dropped: set<T>, r: ReadState<T>)
    requires ReadInv(ep, dropped, r) && !r.ring.open
    ensures r.ring.returned == multiset(r.ring.xfers.Keys - dropped)
    ensures forall t :: t in dropped ==> r.ring.xfers[t].Idle?
  {}

  // While the stream is unfinished its transfers are all in the ring.
  lemma RingIsFull<T>(ep: Endpoint, dropped: set<T>, r: ReadState<T>)
    requires ReadInv(ep, dropped, r)
    ensures r.ring.open && r.ring.err.None? ==>
      |r.ring.queue| + (if r.current.Some? then 1 else 0) == |r.ring.xfers.Keys|
    ensures |r.ring.queue| + (if r.current.Some? then 1 else 0) <= |r.ring.xfers.Keys|
  {
    var all := r.ring.queue + if r.current.Some? then [r.current.value] else [];
    DistinctFits(all, r.ring.xfers.Keys);
  }

  // An upper bound on the reads a finished stream still answers without error.
  ghost function Remaining<T>(ep: Endpoint, r: ReadState<T>): int {
    |r.ring.queue| * ep.size + if r.current.Some? then r.total - r.used else 0
  }

  lemma ConsumeDrains<T>(ep: Endpoint, dropped: set<T>, r: ReadState<T>, room: nat)
    requires ReadCore(ep, dropped, r) && r.ring.open && r.ring.finished && r.current.Some? && room > 0
    ensures var r' := Consume(ep, r, room).0;
      && r'.ring.finished && r'.ring.queue == r.ring.queue
      && (r'.current.Some? ==> r'.total - r'.used < r.total - r.used)
  {
  }

  lemma FetchedDrains<T>(ep: Endpoint, dropped: set<T>, r: ReadState<T>, room: nat)
    requires ReadInv(ep, dropped, r) && r.ring.open && r.ring.finished && room > 0
    requires r.current.None? && r.ring.queue != []
    ensures ReadReady(Fetch(ep, r).0) && ep.size > 0
    ensures var f := Fetch(ep, r).0;
      f.ring.open ==>
        var r' := Consume(ep, f, room).0;
        && r'.ring.finished && |r'.ring.queue| == |r.ring.queue| - 1
        && (r'.current.Some? ==> r'.total - r'.used < ep.size)
  {
    FetchNext(ep, dropped, r);
    var f := Fetch(ep, r).0;
    if f.ring.open { ConsumeDrains(ep, dropped, f, room); }
  }

  lemma ReadsOn<T>(ep: Endpoint, r: ReadState<T>, r': ReadState<T>)
    requires r.current.Some? && r.used < r.total && r'.ring.queue == r.ring.queue
    requires r'.current.Some? ==> r'.total - r'.used < r.total - r.used
    ensures Remaining(ep, r') < Remaining(ep, r)
  {}

  lemma ReadsNext<T>(ep: Endpoint, r: ReadState<T>, r': ReadState<T>)
    requires r.current.None? && |r'.ring.queue| == |r.ring.queue| - 1 && ep.size > 0
    requires r'.current.Some? ==> r'.total - r'.used < ep.size
    ensures Remaining(ep, r') < Remaining(ep, r)
  {
    assert |r.ring.queue| * ep.size == (|r.ring.queue| - 1) * ep.size + ep.size;
  }

  lemma ReadDrains<T>(ep: Endpoint, dropped: set<T>, r: ReadState<T>, room: nat)
    requires ReadInv(ep, dropped, r) && r.ring.open && r.ring.finished && room > 0
    ensures r.current.None? ==> ReadReady(Fetch(ep, r).0)
    ensures var r' := Read(ep, r, room).0;
      r'.ring.open ==> r'.ring.finished && Remaining(ep, r') < Remaining(ep, r)
  {
    hide *;
    ReadIs(ep, dropped, r, room);
    if r.current.Some? {
      ConsumeDrains(ep, dropped, r, room);
      ReadsOn(ep, r, Read(ep, r, room).0);
    } else if r.ring.queue != [] {
      FetchedDrains(ep, dropped, r, room);
      FetchNext(ep, dropped, r);
      if Fetch(ep, r).0.ring.open { ReadsNext(ep, r, Read(ep, r, room).0); }
    }
  }

  lemma NatProduct(a: nat, b: nat)
    ensures a * b >= 0
  {}

  lemma RemainingBounded<T>(ep: Endpoint, dropped: set<T>, r: ReadState<T>)
    requires ReadInv(ep, dropped, r)
    ensures 0 <= Remaining(ep, r)
  {
    hide Queued, Ledger, Settled;
    NatProduct(|r.ring.queue|, ep.size);
  }

  // After Close at most N * size + 1 reads with room for data reach the error
  // that ends the stream.
  lemma {:induction false} CloseDrains<T>(ep: Endpoint, dropped: set<T>, r: ReadState<T>, ops: seq<ReadOp>)
    requires ReadInv(ep, dropped, r) && r.ring.finished
    requires forall i :: 0 <= i < |ops| ==> ops[i].ReadOp? && ops[i].room > 0
    ensures var r' := Run(ep, dropped, r, ops).0;
      r'.ring.open ==> r'.ring.finished && |ops| <= Remaining(ep, r) - Remaining(ep, r') <= Remaining(ep, r)
  {
    var r' := Run(ep, dropped, r, ops).0;
    RemainingBounded(ep, dropped, r');
    if ops != [] {
      var before := ops[..|ops| - 1];
      CloseDrains(ep, dropped, r, before);
      var r1 := Run(ep, dropped, r, before).0;
      if r1.ring.open { ReadDrains(ep, dropped, r1, ops[|ops| - 1].room); }
    }
  }
}
