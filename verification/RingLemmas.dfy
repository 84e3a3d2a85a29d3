// Each operation on a single transfer keeps the ring invariant. Both streams
// are built from these steps.
module RingLemmas {
  import opened Base
  import opened StreamSpec

  // Taking the head of the queue and waiting for it.
  lemma TakeKeeps<T>(ep: Endpoint, dropped: set<T>, s: Ring<T>)
    requires Kept(ep, dropped, None, s) && s.queue != []
    ensures Kept(ep, dropped, Some(s.queue[0]), Wait(ep, s.(queue := s.queue[1..]), s.queue[0]).0)
  {
    var t := s.queue[0];
    var s' := Wait(ep, s.(queue := s.queue[1..]), t).0;
    TakeAnswers(ep, s);
    TakeQueued(ep, s);
    assert Ledger(ep, dropped, Some(t), s');
  }

  lemma TakeAnswers<T>(ep: Endpoint, s: Ring<T>)
    requires Queued(ep, s) && s.queue != []
    ensures var t := s.queue[0];
      var (s', n, err) := Wait(ep, s.(queue := s.queue[1..]), t);
      && s'.xfers[t].Idle? && |s'.xfers[t].buf| == ep.size
      && (Waits(ep, s) < 0 ==> n == 0 && err.None? && s'.xfers[t] == s.xfers[t])
      && (Waits(ep, s) >= 0 ==>
            var o := ep.outcome(Waits(ep, s));
            && o.Done? && n == o.n && err == o.err
            && s'.xfers[t].buf == o.contents)
  {
    assert InPlace(ep, Waits(ep, s), s.queue, s.xfers, 0);
  }

  lemma TakeQueued<T>(ep: Endpoint, s: Ring<T>)
    requires Queued(ep, s) && s.queue != []
    ensures Queued(ep, Wait(ep, s.(queue := s.queue[1..]), s.queue[0]).0)
  {
    var s' := Wait(ep, s.(queue := s.queue[1..]), s.queue[0]).0;
    forall i | 0 <= i < |s'.queue| ensures InPlace(ep, Waits(ep, s'), s'.queue, s'.xfers, i) {
      assert InPlace(ep, Waits(ep, s), s.queue, s.xfers, i + 1);
    }
  }

  // Submitting the held transfer: it joins the end of the queue, or ends the
  // stream.
  lemma SubmitQueued<T>(ep: Endpoint, dropped: set<T>, s: Ring<T>, t: T)
    requires Sound(ep, dropped, Some(t), s) && s.open && s.err.None?
    ensures var (s', e) := Submit(ep, s, t);
      && (e.None? ==> Queued(ep, s'.(queue := s'.queue + [t])))
      && (e.Some? ==> Queued(ep, Free(Fail(s', e.value), t)))
  {
    hide Settled;
    var (s', e) := Submit(ep, s, t);
    var q := if e.None? then s'.(queue := s'.queue + [t]) else Free(Fail(s', e.value), t);
    assert Flown(ep, q) == Flown(ep, s) + if e.None? then 1 else 0;
    forall i | 0 <= i < |q.queue| ensures InPlace(ep, Waits(ep, q), q.queue, q.xfers, i) {
      if i < |s.queue| { assert InPlace(ep, Waits(ep, s), s.queue, s.xfers, i); }
    }
  }

  lemma SubmitLedger<T>(ep: Endpoint, dropped: set<T>, s: Ring<T>, t: T)
    requires Sound(ep, dropped, Some(t), s) && s.open && s.err.None?
    ensures var (s', e) := Submit(ep, s, t);
      && (e.None? ==> Ledger(ep, dropped, None, s'.(queue := s'.queue + [t])))
      && (e.Some? ==> Ledger(ep, dropped, None, Free(Fail(s', e.value), t)))
  {
    hide Queued, Settled;
  }

  lemma SubmitSettles<T>(ep: Endpoint, dropped: set<T>, s: Ring<T>, t: T)
    requires Sound(ep, dropped, Some(t), s) && s.open && s.err.None?
    ensures var (s', e) := Submit(ep, s, t);
      && (e.None? ==> Settled(s'.(queue := s'.queue + [t])))
      && (e.Some? ==> Settled(Free(Fail(s', e.value), t)))
  {
    hide Queued;
  }

  lemma SubmitKeeps<T>(ep: Endpoint, dropped: set<T>, s: Ring<T>, t: T)
    requires Sound(ep, dropped, Some(t), s) && s.open && s.err.None?
    ensures var (s', e) := Submit(ep, s, t);
      && (e.None? ==> Sound(ep, dropped, None, s'.(queue := s'.queue + [t])))
      && (e.Some? ==> Sound(ep, dropped, None, Free(Fail(s', e.value), t)))
  {
    SubmitQueued(ep, dropped, s, t);
    SubmitLedger(ep, dropped, s, t);
    SubmitSettles(ep, dropped, s, t);
    hide Queued, Ledger, Settled, WellFormed;
  }

  // Giving the held transfer back once the stream has failed.
  lemma FreeKeeps<T>(ep: Endpoint, dropped: set<T>, s: Ring<T>, t: T)
    requires Kept(ep, dropped, Some(t), s) && s.finished
    ensures Kept(ep, dropped, None, Free(s, t))
  {
    var s' := Free(s, t);
    forall i | 0 <= i < |s'.queue| ensures InPlace(ep, Waits(ep, s'), s'.queue, s'.xfers, i) {
      assert InPlace(ep, Waits(ep, s), s.queue, s.xfers, i);
    }
  }

  // Recording an error.
  lemma FailSound<T>(ep: Endpoint, dropped: set<T>, held: Option<T>, s: Ring<T>, e: Error)
    requires Sound(ep, dropped, held, s) && s.open
    ensures Sound(ep, dropped, held, Fail(s, e))
    ensures Waits(ep, Fail(s, e)) == Waits(ep, s) && Flown(ep, Fail(s, e)) == Flown(ep, s)
  {
    assert Waits(ep, Fail(s, e)) == Waits(ep, s);
    hide Waits, InPlace;
  }

  // Giving everything back.
  lemma FlushKeeps<T>(ep: Endpoint, dropped: set<T>, s: Ring<T>, t: T)
    requires Kept(ep, dropped, Some(t), s)
    ensures Kept(ep, dropped, None, Flush(Free(s, t)))
    ensures Sound(ep, dropped, None, Flush(Free(s, t)).(open := false))
  {
    QueuedAlive(ep, s);
    FreeSettles(s, t);
    FlushSettles(Free(s, t));
    FlushLedger(ep, dropped, s, t);
    FlushQueued(ep, s, t);
    hide Queued, Ledger, Settled;
  }

  lemma FreeSettles<T>(s: Ring<T>, t: T)
    requires Settled(s) && t in s.xfers && s.xfers[t].Idle?
    ensures Settled(Free(s, t))
  {}

  lemma FlushQueued<T>(ep: Endpoint, s: Ring<T>, t: T)
    requires Queued(ep, s) && t in s.xfers && s.xfers[t].Idle?
    ensures Queued(ep, Flush(Free(s, t))) && Queued(ep, Flush(Free(s, t)).(open := false))
  {}

  lemma QueuedAlive<T>(ep: Endpoint, s: Ring<T>)
    requires Queued(ep, s)
    ensures forall u :: u in s.queue ==> !s.xfers[u].Freed?
  {
    forall u | u in s.queue ensures !s.xfers[u].Freed? {
      var i :| 0 <= i < |s.queue| && s.queue[i] == u;
      assert InPlace(ep, Waits(ep, s), s.queue, s.xfers, i);
    }
  }

  lemma FlushLedger<T>(ep: Endpoint, dropped: set<T>, s: Ring<T>, t: T)
    requires Tracked(s) && Ledger(ep, dropped, Some(t), s)
    ensures Ledger(ep, dropped, None, Flush(Free(s, t)))
    ensures Ledger(ep, dropped, None, Flush(Free(s, t)).(open := false))
  {
  }

  lemma FlushSettles<T>(s: Ring<T>)
    requires Settled(s) && Tracked(s) && Distinct(s.queue)
    requires forall t :: t in s.queue ==> !s.xfers[t].Freed?
    ensures Settled(Flush(s))
  {
    var s' := Flush(s);
    forall u | u in s'.xfers ensures s'.returned[u] == if s'.xfers[u].Freed? then 1 else 0 {
      OnceInDistinct(s.queue, u);
    }
  }

  // The queue is unsubmitted transfers followed by transfers in flight, in the
  // order of their submissions.
  lemma QueueShape<T>(ep: Endpoint, s: Ring<T>, i: nat, j: nat)
    requires Queued(ep, s) && i < j < |s.queue| && s.xfers[s.queue[i]].Flying?
    ensures s.xfers[s.queue[j]].Flying? && s.xfers[s.queue[j]].k == s.xfers[s.queue[i]].k + (j - i)
  {
    assert InPlace(ep, Waits(ep, s), s.queue, s.xfers, i);
    assert InPlace(ep, Waits(ep, s), s.queue, s.xfers, j);
  }

  // The transfers newStream() is called with.
  ghost predicate Fresh<T>(ep: Endpoint, pool: seq<T>, xfers: map<T, Xfer>) {
    && WellFormed(ep)
    && pool != [] && Distinct(pool)
    && (forall t :: t in pool ==> t in xfers)
    && (forall t :: t in xfers ==> t in pool && xfers[t].Idle? && |xfers[t].buf| == ep.size)
  }

  lemma {:induction false} OnceInDistinct<T>(q: seq<T>, t: T)
    requires Distinct(q)
    ensures multiset(q)[t] == if t in q then 1 else 0
  {
    if q != [] {
      OnceInDistinct(q[1..], t);
      assert q == [q[0]] + q[1..];
    }
  }

  // A queue of distinct transfers from a set is no longer than the set.
  lemma {:induction false} DistinctFits<T>(q: seq<T>, s: set<T>)
    requires Distinct(q) && forall t :: t in q ==> t in s
    ensures |q| <= |s|
    ensures (forall t :: t in s ==> t in q) ==> |q| == |s|
  {
    if q == [] {
    } else {
      var rest := s - {q[0]};
      DistinctFits(q[1..], rest);
      assert q == [q[0]] + q[1..];
    }
  }
}
