// What the invariant of TransferProtocol.dfy means for a transfer and its users.
module TransferTheorems {
  import opened Base
  import opened TransferSpec
  import opened TransferProtocol

  // ---- the invariant holds in every run ----

  lemma StepKeeps(s: State, a: Action)
    requires Inv(s) && Enabled(s, a)
    ensures Inv(Do(s, a))
  {
    hide Inv, Do;
    match a {
      case Lock(th) => LockKeeps(s, th);
      case Look(th, err) => LookKeeps(s, th, err);
      case Mark(th) => MarkKeeps(s, th);
      case ContextDone(th) => ContextDoneKeeps(s, th);
      case Take(th) => TakeKeeps(s, th);
      case Collect(th) => CollectKeeps(s, th);
      case Unmap(th) => UnmapKeeps(s, th);
      case Release(th) => ReleaseKeeps(s, th);
      case Clear(th) => ClearKeeps(s, th);
      case Unlock(th) => UnlockKeeps(s, th);
      case Alloc(th, p) => AllocKeeps(s, th, p);
      case Register(th, t) => RegisterKeeps(s, th, t);
      case Send(p) => SendKeeps(s, p);
      case Invoke(th, t, c) => InvokeKeeps(s, th, t, c);
      case Lookup(p) => LookupKeeps(s, p);
      case Complete(_, _, _, _) => CompleteKeeps(s, a);
    }
  }

  lemma {:induction false} RunKeeps(s: State, run: seq<Action>)
    requires Inv(s)
    ensures Exec(s, run).Some? ==> Inv(Exec(s, run).value)
    decreases |run|
  {
    if run != [] && Enabled(s, run[0]) {
      StepKeeps(s, run[0]);
      RunKeeps(Do(s, run[0]), run[1..]);
    }
  }

  // The invariant holds in every state of every run.
  lemma ReachableOk(s: State)
    requires Reachable(s)
    ensures Inv(s)
  {
    var run :| Exec(START, run) == Some(s);
    RunKeeps(START, run);
  }

  // ---- histories ----

  lemma ReplayNext(h: seq<Entry>, e: Entry)
    ensures Replay(h + [e]) ==
      if Replay(h).None? then None else After(Replay(h).value, e.call, e.reply)
  {}

  lemma OfNext<T>(log: seq<Event<T>>, e: Event<T>, t: T)
    ensures Of(log + [e], t) == if e.t == t then Of(log, t) + [e.entry] else Of(log, t)
  {}

  // ---- tokens ----

  // Every submission libusb accepted yields exactly one token, received by
  // exactly one wait, which evaluates the outcome exactly once. While nobody
  // holds the mutex of a transfer that is not in flight, all are settled and the
  // channel is empty.
  lemma TokensBalance(s: State, t: Transfer)
    requires Reachable(s) && t in s.objs
    ensures var o := s.objs[t];
      && o.done <= 1
      && o.evaluated <= o.received <= o.sent <= o.accepted <= o.evaluated + 1
      && (o.mu.None? && !o.submitted ==> o.done == 0 && o.accepted == o.sent == o.received == o.evaluated)
      && (o.mu.None? && o.submitted ==> o.accepted == o.received + 1)
  {
    ReachableOk(s);
    assert ObjOk(s, t);
  }

  // The callback never gets stuck: it finds the done channel of the transfer
  // that owns the memory, whatever memory was freed and handed out again before,
  // and its send does not block.
  lemma CallbackRoutes(s: State, p: Ptr)
    requires Reachable(s) && p in s.lib
    ensures s.lib[p].phase.Called? ==>
      && Enabled(s, Lookup(p))
      && s.lib[p].owner == Some(s.doneMap[p])
    ensures s.lib[p].phase.Signalling? ==>
      && Enabled(s, Send(p))
      && s.lib[p].owner == Some(s.lib[p].phase.ch)
      && s.objs[s.lib[p].phase.ch].xfer == Some(p)
  {
    ReachableOk(s);
    assert PtrOk(s, p);
    if p in s.doneMap { assert ObjOk(s, s.doneMap[p]); }
  }

  // Every transfer has memory of its own, reachable through xferDoneMap unless
  // it is just being freed. While free has given the memory back and not yet set
  // t.xfer to nil, libusb may have handed it out again: the old pointer is then
  // equal to that of another transfer, but leads nowhere.
  lemma MemoryIsOwn(s: State, t: Transfer)
    requires Reachable(s) && t in s.objs && s.objs[t].xfer.Some?
    ensures var p := s.objs[t].xfer.value;
      if Holder(s, s.objs[t]).Clearing? then p in s.doneMap ==> s.doneMap[p] != t
      else p in s.lib && s.lib[p].owner == Some(t)
    ensures !Holder(s, s.objs[t]).Clearing? ==>
      forall u :: u in s.objs && s.objs[u].xfer == s.objs[t].xfer && !Holder(s, s.objs[u]).Clearing? ==> u == t
    ensures !Holder(s, s.objs[t]).Clearing? ==>
      var p := s.objs[t].xfer.value;
      if Holder(s, s.objs[t]).Releasing? then p !in s.doneMap else p in s.doneMap && s.doneMap[p] == t
  {
    ReachableOk(s);
    assert ObjOk(s, t);
    forall u | u in s.objs && s.objs[u].xfer == s.objs[t].xfer
      ensures !Holder(s, s.objs[t]).Clearing? && !Holder(s, s.objs[u]).Clearing? ==> u == t
    {
      assert ObjOk(s, u);
    }
  }

  // One goroutine at a time is inside a call on a transfer. So while one waits,
  // no cancel of another can take effect: it does not get past the mutex.
  lemma OneAtATime(s: State, th: Thread, u: Thread)
    requires Reachable(s) && At(s, th).Holds().Some? && At(s, th).Holds() == At(s, u).Holds()
    ensures th == u
  {
    ReachableOk(s);
    assert ThreadOk(s, th) && ThreadOk(s, u);
  }

  lemma CancelWaitsForWait(s: State, th: Thread, u: Thread)
    requires Reachable(s) && At(s, th).Waiting? && u != th
    requires At(s, u).Want? && At(s, u).t == At(s, th).t
    ensures !Enabled(s, Lock(u))
  {
    ReachableOk(s);
    assert ThreadOk(s, th);
  }

  // data() is evaluated only after libusb is through with the submission: its
  // callback has sent the token, which was received, and every submission has
  // been accounted for.
  lemma DataIsFinished(s: State, th: Thread)
    requires Reachable(s) && At(s, th).Received?
    ensures var t := At(s, th).t;
      && t in s.objs && s.objs[t].xfer.Some? && s.objs[t].xfer.value in s.lib
      && var o := s.objs[t];
         var m := s.lib[o.xfer.value];
         && m.phase.Quiet? && o.done == 0
         && o.accepted == o.sent == o.received == o.evaluated + 1
         && m.report.k == m.number == o.evaluated
  {
    ReachableOk(s);
    assert ThreadOk(s, th);
    assert ObjOk(s, At(s, th).t);
    assert Enabled(s, Collect(th));
  }

  // Memory is released only when libusb has nothing to do with it; submit and
  // cancel get allocated memory, and submit only memory that is not in flight.
  lemma LibraryIsSafe(s: State, th: Thread)
    requires Reachable(s)
    ensures var pc := At(s, th);
      && (pc.Releasing? ==> pc.p in s.lib && s.lib[pc.p].phase.Quiet? && pc.p !in s.doneMap)
      && (pc.Enter? || pc.Waiting? || pc.Received? ==>
            && pc.t in s.objs
            && var o := s.objs[pc.t];
               && (o.submitted ==> o.xfer.Some?)
               && (o.xfer.Some? ==> o.xfer.value in s.lib)
               && (pc.Enter? && !o.submitted && o.xfer.Some? ==> s.lib[o.xfer.value].phase.Quiet?)
               && (!pc.Enter? ==> o.submitted))
  {
    ReachableOk(s);
    assert ThreadOk(s, th);
    var pc := At(s, th);
    if pc.Holds().Some? { assert ObjOk(s, pc.t); }
    if pc.Releasing? { assert PtrOk(s, pc.p); }
  }

  // Linearizability. The calls answered so far, in the order in which they took
  // effect, are a legal sequential history of the transfer, ...
  lemma HistoryIsLegal(s: State, t: Transfer)
    requires Reachable(s) && t in s.objs
    ensures Replay(s.objs[t].hist) == Some(PhaseOf(s.objs[t]))
  {
    ReachableOk(s);
    assert ObjOk(s, t);
  }

  // Also the calls on all transfers together are, in one order.
  predicate LogOk(s: State, t: Transfer) {
    Of(s.log, t) == HistOf(s, t)
  }

  function HistOf(s: State, t: Transfer): seq<Entry> {
    if t in s.objs then s.objs[t].hist else []
  }

  // A step answers no call, or one.
  predicate Logged(s: State, s': State, t: Transfer) {
    || (s'.log == s.log && HistOf(s', t) == HistOf(s, t))
    || (s'.log != [] && var e := s'.log[|s'.log| - 1];
          s'.log == s.log + [e] && HistOf(s', t) == HistOf(s, t) + if e.t == t then [e.entry] else [])
  }

  lemma AnswerLogs(s: State, th: Thread, u: Transfer, o: Obj, c: Call, r: Reply, t: Transfer)
    requires u in s.objs && o.hist == s.objs[u].hist
    ensures Logged(s, Answer(s, th, u, o, c, r), t)
  {
    var s' := Answer(s, th, u, o, c, r);
    assert s'.log[|s'.log| - 1] == Event(u, Entry(c, r));
    assert HistOf(s, t) + [] == HistOf(s, t);
  }

  lemma LookLogs(s: State, th: Thread, err: Option<Error>, t: Transfer)
    requires Enabled(s, Look(th, err))
    ensures Logged(s, Do(s, Look(th, err)), t)
  {
    hide *;
    LookShape(s, th, err);
    var s' := Do(s, Look(th, err));
    var pc := At(s, th);
    LookAt(s, th, err);
    LookedMeans(s, s', th);
    if At(s', th).Leaving? {
      AnswerLogs(s, th, pc.t, Asking(s.objs[pc.t], s'.objs[pc.t].asked), pc.call, At(s', th).reply, t);
    } else {
      SameHistOf(s, s', t);
      LogSame(s, s', t);
    }
  }

  lemma LookAt(s: State, th: Thread, err: Option<Error>)
    requires Enabled(s, Look(th, err))
    ensures At(s, th).Enter? && At(s, th).t in s.objs
  {}

  lemma SameHistOf(s: State, s': State, t: Transfer)
    requires s'.objs.Keys == s.objs.Keys && forall u :: u in s.objs ==> s'.objs[u].hist == s.objs[u].hist
    ensures HistOf(s', t) == HistOf(s, t)
  {}

  lemma LogSame(s: State, s': State, t: Transfer)
    requires s'.log == s.log && HistOf(s', t) == HistOf(s, t)
    ensures Logged(s, s', t)
  {}

  lemma StepLogs(s: State, a: Action, t: Transfer)
    requires Enabled(s, a)
    ensures Logged(s, Do(s, a), t)
  {
    hide Logged, LookStep;
    match a {
      case Look(th, err) => LookLogs(s, th, err, t);
      case Mark(th) =>
        AnswerLogs(s, th, At(s, th).t, s.objs[At(s, th).t].(submitted := true), Submit, Fine, t);
      case Collect(th) =>
        var o := s.objs[At(s, th).t];
        AnswerLogs(s, th, At(s, th).t, o.(submitted := false, evaluated := o.evaluated + 1), Wait,
                   Result(s.lib[o.xfer.value].report), t);
      case Clear(th) => ClearLogs(s, th, t);
      case _ => LogSame(s, Do(s, a), t);
    }
  }

  lemma ClearLogs(s: State, th: Thread, t: Transfer)
    requires Enabled(s, Clear(th))
    ensures Logged(s, Do(s, Clear(th)), t)
  {
    AnswerLogs(s, th, At(s, th).t, s.objs[At(s, th).t].(xfer := None), Free, Fine, t);
  }

  lemma LoggedKeeps(s: State, s': State, t: Transfer)
    requires Logged(s, s', t) && LogOk(s, t)
    ensures LogOk(s', t)
  {
    hide Of, HistOf;
    if s'.log != s.log {
      OfNext(s.log, s'.log[|s'.log| - 1], t);
    } else {
      SameHist(s, s', t);
    }
  }

  lemma SameHist(s: State, s': State, t: Transfer)
    requires Logged(s, s', t) && s'.log == s.log
    ensures HistOf(s', t) == HistOf(s, t)
  {
    hide HistOf;
    assert s'.log != [] ==> s'.log != s.log + [s'.log[|s'.log| - 1]];
  }

  lemma LogKeeps(s: State, a: Action, t: Transfer)
    requires Enabled(s, a) && LogOk(s, t)
    ensures LogOk(Do(s, a), t)
  {
    StepLogs(s, a, t);
    hide *;
    LoggedKeeps(s, Do(s, a), t);
  }

  lemma {:induction false} LogRunKeeps(s: State, run: seq<Action>, t: Transfer)
    requires Inv(s) && LogOk(s, t)
    ensures Exec(s, run).Some? ==> LogOk(Exec(s, run).value, t)
    decreases |run|
  {
    if run != [] && Enabled(s, run[0]) {
      StepKeeps(s, run[0]);
      LogKeeps(s, run[0], t);
      LogRunKeeps(Do(s, run[0]), run[1..], t);
    }
  }

  lemma LogIsLegal(s: State)
    requires Reachable(s)
    ensures Legal(s.log)
    ensures forall t: Transfer :: Of(s.log, t) == if t in s.objs then s.objs[t].hist else []
  {
    var run :| Exec(START, run) == Some(s);
    forall t: Transfer
      ensures LogOk(s, t) && Replay(Of(s.log, t)).Some?
    {
      LogRunKeeps(START, run, t);
      if t in s.objs { HistoryIsLegal(s, t); }
    }
  }

  // ... and a call takes effect exactly once, between its Lock and its Unlock,
  // with the reply it returns: only a step of the goroutine that is in the call
  // adds to the history, and it adds what the goroutine then returns.
  lemma OneEntryPerCall(s: State, a: Action, th: Thread, t: Transfer)
    requires Reachable(s) && Enabled(s, a) && t in s.objs && Actor(a) == Some(th)
    ensures t in Do(s, a).objs && Recorded(s, Do(s, a), th, t)
    ensures Running(At(s, th)) == Running(At(Do(s, a), th))
      || a.Invoke? || a.Unlock? || At(Do(s, a), th).Crashed?
  {
    ReachableOk(s);
    assert ThreadOk(s, th);
    if a.Look? { LookRecords(s, th, a.err, t); } else { ElseRecords(s, a, th, t); }
  }

  predicate Recorded(s: State, s': State, th: Thread, t: Transfer)
    requires t in s.objs && t in s'.objs
  {
    var pc := At(s, th);
    var pc' := At(s', th);
    if pc'.Leaving? && pc'.t == t then
      && s'.objs[t].hist == s.objs[t].hist + [Entry(pc'.call, pc'.reply)]
      && s.objs[t].mu == Some(th)
      && !pc.Leaving? && Running(pc) == Some(Invocation(t, pc'.call))
    else
      s'.objs[t].hist == s.objs[t].hist
  }

  function Asking(o: Obj, asked: nat): (o': Obj)
    ensures o'.hist == o.hist
  {
    o.(asked := asked)
  }

  // A call is answered at its first statements, or goes on.
  predicate Looked(s: State, s': State, th: Thread)
    requires At(s, th).Enter? && At(s, th).t in s.objs
  {
    var pc := At(s, th);
    if At(s', th).Leaving? then
      pc.t in s'.objs && s' == Answer(s, th, pc.t, Asking(s.objs[pc.t], s'.objs[pc.t].asked), pc.call, At(s', th).reply)
    else
      && s'.log == s.log && s'.objs.Keys == s.objs.Keys
      && (forall t :: t in s.objs ==> s'.objs[t].hist == s.objs[t].hist)
      && (Running(pc) == Running(At(s', th)) || At(s', th).Crashed?)
  }

  lemma LookShape(s: State, th: Thread, err: Option<Error>)
    requires Enabled(s, Look(th, err))
    ensures Looked(s, Do(s, Look(th, err)), th)
  {
    if At(s, th).call == Submit { SubmitShape(s, th, err); } else { OtherShape(s, th, err); }
    hide Looked;
  }

  lemma SubmitShape(s: State, th: Thread, err: Option<Error>)
    requires Enabled(s, Look(th, err)) && At(s, th).call == Submit
    ensures Looked(s, Do(s, Look(th, err)), th)
  {}

  lemma OtherShape(s: State, th: Thread, err: Option<Error>)
    requires Enabled(s, Look(th, err)) && At(s, th).call != Submit
    ensures Looked(s, Do(s, Look(th, err)), th)
  {}

  lemma LookedMeans(s: State, s': State, th: Thread)
    requires At(s, th).Enter? && At(s, th).t in s.objs && Looked(s, s', th)
    ensures var pc := At(s, th);
      if At(s', th).Leaving? then
        && pc.t in s'.objs
        && s' == Answer(s, th, pc.t, Asking(s.objs[pc.t], s'.objs[pc.t].asked), pc.call, At(s', th).reply)
      else
        && s'.log == s.log && s'.objs.Keys == s.objs.Keys
        && (forall t :: t in s.objs ==> s'.objs[t].hist == s.objs[t].hist)
        && (Running(pc) == Running(At(s', th)) || At(s', th).Crashed?)
  {}

  lemma LookHolds(s: State, th: Thread, err: Option<Error>)
    requires Enabled(s, Look(th, err)) && ThreadOk(s, th)
    ensures var pc := At(s, th);
      && pc.Enter? && pc.t in s.objs && s.objs[pc.t].mu == Some(th)
      && Running(pc) == Some(Invocation(pc.t, pc.call))
  {}

  lemma NothingRecorded(s: State, s': State, th: Thread, t: Transfer)
    requires t in s.objs && t in s'.objs && s'.objs[t].hist == s.objs[t].hist && !At(s', th).Leaving?
    ensures Recorded(s, s', th, t)
  {}

  lemma LookRecords(s: State, th: Thread, err: Option<Error>, t: Transfer)
    requires Enabled(s, Look(th, err)) && ThreadOk(s, th) && t in s.objs
    ensures var s' := Do(s, Look(th, err));
      && t in s'.objs && Recorded(s, s', th, t)
      && (Running(At(s, th)) == Running(At(s', th)) || At(s', th).Crashed?)
  {
    hide *;
    LookShape(s, th, err);
    var s' := Do(s, Look(th, err));
    var pc := At(s, th);
    LookHolds(s, th, err);
    LookedMeans(s, s', th);
    if At(s', th).Leaving? {
      AnswerRecords(s, th, pc.t, Asking(s.objs[pc.t], s'.objs[pc.t].asked), pc.call, At(s', th).reply, t);
    } else {
      NothingRecorded(s, s', th, t);
    }
  }

  lemma AnswerRecords(s: State, th: Thread, u: Transfer, o: Obj, c: Call, r: Reply, t: Transfer)
    requires u in s.objs && t in s.objs && o.hist == s.objs[u].hist
    requires Running(At(s, th)) == Some(Invocation(u, c)) && !At(s, th).Leaving? && s.objs[u].mu == Some(th)
    ensures var s' := Answer(s, th, u, o, c, r);
      t in s'.objs && Recorded(s, s', th, t) && Running(At(s', th)) == Running(At(s, th))
  {}

  lemma ElseRecords(s: State, a: Action, th: Thread, t: Transfer)
    requires Enabled(s, a) && ThreadOk(s, th) && t in s.objs && Actor(a) == Some(th) && !a.Look?
    ensures var s' := Do(s, a);
      && t in s'.objs && Recorded(s, s', th, t)
      && (Running(At(s, th)) == Running(At(s', th)) || a.Invoke? || a.Unlock?)
  {
    hide LookStep;
  }

  // The goroutine that takes a step; none for libusb.
  function Actor(a: Action): Option<Thread> {
    match a
    case Complete(_, _, _, _) => None
    case Lookup(_) => None
    case Send(_) => None
    case _ => Some(a.th)
  }

  datatype Invocation = Invocation(t: Transfer, call: Call)

  // The call a goroutine is in.
  function Running(pc: Pc): Option<Invocation> {
    match pc
    case Want(t, c) => Some(Invocation(t, c))
    case Enter(t, c) => Some(Invocation(t, c))
    case Accepted(t) => Some(Invocation(t, Submit))
    case Waiting(t, _) => Some(Invocation(t, Wait))
    case Received(t) => Some(Invocation(t, Wait))
    case Unmapping(t) => Some(Invocation(t, Free))
    case Releasing(t, _) => Some(Invocation(t, Free))
    case Clearing(t) => Some(Invocation(t, Free))
    case Leaving(t, c, _) => Some(Invocation(t, c))
    case Out => None
    case Allocating(_) => None
    case Crashed(_) => None
  }

  // libusb's own steps, and the steps of other goroutines, leave everybody's
  // place and every history alone.
  lemma OthersStay(s: State, a: Action, th: Thread, t: Transfer)
    requires Enabled(s, a) && t in s.objs && Actor(a) != Some(th)
    ensures At(Do(s, a), th) == At(s, th)
    ensures Actor(a).None? ==> t in Do(s, a).objs && Do(s, a).objs[t].hist == s.objs[t].hist
  {
    hide LookStep;
    if a.Look? { LookStays(s, a.th, a.err, th); }
  }

  lemma LookStays(s: State, th: Thread, err: Option<Error>, u: Thread)
    requires Enabled(s, Look(th, err)) && u != th
    ensures At(LookStep(s, th, err), u) == At(s, u)
  {}

  // A call fails with libusb's error exactly if libusb was asked and refused, except
  // that a cancel of a submission libusb does not know any more succeeds; and with
  // an error of its own exactly if the transfer is in flight and must not be.
  lemma ErrorsAreLibusbs(s: State, th: Thread, err: Option<Error>)
    requires Enabled(s, Look(th, err)) && !At(Do(s, Look(th, err)), th).Crashed?
    ensures var pc, pc' := At(s, th), At(Do(s, Look(th, err)), th);
      var flying := s.objs[pc.t].submitted;
      && (pc'.Leaving? && pc'.reply == Busy <==> flying && (pc.call == Submit || pc.call == Free))
      && (pc.call == Submit && !flying && err.Some? ==> pc'.Leaving? && pc'.reply == LibError(err.value))
      && (pc.call == Cancel && flying && err.Some? ==>
            pc'.Leaving? && pc'.reply == if err == Some(Usb(-5)) then Fine else LibError(err.value))
      && (pc'.Leaving? && pc'.reply.LibError? ==> pc.call == (if flying then Cancel else Submit))
  {}

  // libusb is asked to cancel a submission by every cancel that finds one in flight
  // and when the context of a wait is done, and otherwise never.
  lemma CancelsAreAsked(s: State, a: Action, t: Transfer)
    requires Enabled(s, a) && t in s.objs
    ensures t in Do(s, a).objs
    ensures Do(s, a).objs[t].asked == s.objs[t].asked +
      if a.ContextDone? && At(s, a.th).t == t then 1
      else if a.Look? && At(s, a.th) == Enter(t, Cancel) && s.objs[t].submitted then 1
      else 0
  {
    hide LookStep;
    if a.Look? { LookAsks(s, a.th, a.err, t); }
  }

  lemma LookAsks(s: State, th: Thread, err: Option<Error>, t: Transfer)
    requires Enabled(s, Look(th, err)) && t in s.objs
    ensures var s' := LookStep(s, th, err);
      && t in s'.objs
      && s'.objs[t].asked == s.objs[t].asked + if At(s, th) == Enter(t, Cancel) && s.objs[t].submitted then 1 else 0
  {
    if At(s, th).call == Submit { SubmitAsksNothing(s, th, err, t); }
  }

  lemma SubmitAsksNothing(s: State, th: Thread, err: Option<Error>, t: Transfer)
    requires Enabled(s, Look(th, err)) && t in s.objs && At(s, th).call == Submit
    ensures var s' := LookStep(s, th, err); t in s'.objs && s'.objs[t].asked == s.objs[t].asked
  {}

  // ---- runs ----

  lemma {:induction false} ExecAppend(s: State, r: seq<Action>, q: seq<Action>)
    ensures Exec(s, r + q) == if Exec(s, r).None? then None else Exec(Exec(s, r).value, q)
    decreases |r|
  {
    if r == [] {
      assert r + q == q;
    } else {
      assert (r + q)[1..] == r[1..] + q && (r + q)[0] == r[0];
      if Enabled(s, r[0]) { ExecAppend(Do(s, r[0]), r[1..], q); }
    }
  }

  lemma ExecOne(s: State, a: Action)
    requires Enabled(s, a)
    ensures Exec(s, [a]) == Some(Do(s, a))
  {
    assert [a][1..] == [];
  }

  // ---- reports ----

  // libusb has reported this in the run.
  ghost predicate Told(run: seq<Action>, report: Report) {
    exists i :: 0 <= i < |run| && run[i].Complete?
      && run[i].n == report.n && run[i].status == report.err && run[i].contents == report.contents
  }

  // Memory no submission was made with.
  predicate Unused(s: State, p: Ptr)
    requires p in s.lib
  {
    s.lib[p].owner.Some? ==>
      && s.lib[p].owner.value in s.objs
      && var o := s.objs[s.lib[p].owner.value];
         o.accepted == 0 && (o.xfer == Some(p) || o.xfer.None?)
  }

  // Memory without a report about a submission.
  predicate Pending(s: State, p: Ptr)
    requires p in s.lib
  {
    s.lib[p].phase.InFlight? || Unused(s, p)
  }

  // What is in finished memory, and what waits answered, is what libusb reported.
  ghost predicate AllTold(s: State, run: seq<Action>) {
    && (forall p :: p in s.lib ==> Pending(s, p) || Told(run, s.lib[p].report))
    && (forall e :: e in s.log && e.entry.reply.Result? ==> Told(run, e.entry.reply.report))
  }

  lemma ToldStays(run: seq<Action>, a: Action)
    ensures forall report :: Told(run, report) ==> Told(run + [a], report)
    ensures a.Complete? ==> forall k :: Told(run + [a], Report(k, a.n, a.status, a.contents))
  {
    forall report | Told(run, report) ensures Told(run + [a], report) {
      var i :| 0 <= i < |run| && run[i].Complete?
        && run[i].n == report.n && run[i].status == report.err && run[i].contents == report.contents;
      assert (run + [a])[i] == run[i];
    }
    assert (run + [a])[|run|] == a;
  }

  // A step leaves what is in finished memory alone, except when libusb reports.
  lemma LibTold(s: State, a: Action, p: Ptr)
    requires Enabled(s, a) && p in Do(s, a).lib
    ensures var s' := Do(s, a);
      || Pending(s', p)
      || (p in s.lib && s'.lib[p].report == s.lib[p].report && !Pending(s, p))
      || (a.Complete? && s'.lib[p].report == Report(s.lib[p].number, a.n, a.status, a.contents))
  {
    hide LookStep;
    if a.Look? { LookTold(s, a.th, a.err, p); }
  }

  lemma LookTold(s: State, th: Thread, err: Option<Error>, p: Ptr)
    requires Enabled(s, Look(th, err)) && p in LookStep(s, th, err).lib
    ensures var s' := LookStep(s, th, err);
      Pending(s', p) || (p in s.lib && s'.lib[p].report == s.lib[p].report && !Pending(s, p))
  {
    if At(s, th).call == Submit { SubmitTold(s, th, err, p); }
  }

  lemma SubmitTold(s: State, th: Thread, err: Option<Error>, p: Ptr)
    requires Enabled(s, Look(th, err)) && p in LookStep(s, th, err).lib && At(s, th).call == Submit
    ensures var s' := LookStep(s, th, err);
      Pending(s', p) || (p in s.lib && s'.lib[p].report == s.lib[p].report && !Pending(s, p))
  {}

  // Only a wait answers with a report, and with the one in its memory.
  lemma LogTold(s: State, a: Action)
    requires Enabled(s, a)
    ensures var s' := Do(s, a);
      || s'.log == s.log
      || exists e :: s'.log == s.log + [e] && (e.entry.reply.Result? ==>
           a.Collect? && e.entry.reply.report == s.lib[s.objs[At(s, a.th).t].xfer.value].report)
  {
    hide LookStep;
    if a.Look? { LookAnswersNone(s, a.th, a.err); }
  }

  lemma LookAnswersNone(s: State, th: Thread, err: Option<Error>)
    requires Enabled(s, Look(th, err))
    ensures var s' := LookStep(s, th, err);
      s'.log == s.log || exists e :: s'.log == s.log + [e] && !e.entry.reply.Result?
  {}

  lemma CollectedIsUsed(s: State, th: Thread)
    requires Inv(s) && Enabled(s, Collect(th))
    ensures var p := s.objs[At(s, th).t].xfer.value; p in s.lib && !Pending(s, p)
  {
    hide Replay;
    assert ThreadOk(s, th) && ObjOk(s, At(s, th).t);
  }

  lemma StepTold(s: State, run: seq<Action>, a: Action)
    requires Inv(s) && AllTold(s, run) && Enabled(s, a)
    ensures AllTold(Do(s, a), run + [a])
  {
    var s' := Do(s, a);
    ToldStays(run, a);
    if a.Collect? { CollectedIsUsed(s, a.th); }
    hide Do, Enabled, Inv, Told, Pending, Unused;
    forall p | p in s'.lib ensures Pending(s', p) || Told(run + [a], s'.lib[p].report) { LibTold(s, a, p); }
    LogTold(s, a);
  }

  lemma {:induction false} RunTold(run: seq<Action>)
    requires Exec(START, run).Some?
    ensures AllTold(Exec(START, run).value, run)
    decreases |run|
  {
    if run != [] {
      var init, a := run[..|run| - 1], run[|run| - 1];
      assert run == init + [a];
      ExecAppend(START, init, [a]);
      assert Exec(START, init).Some?;
      ExecOne(Exec(START, init).value, a);
      RunTold(init);
      var s := Exec(START, init).value;
      RunKeeps(START, init);
      StepTold(s, init, a);
    }
  }

  // Whatever a wait answers, libusb has reported: the count, the status and the
  // data, in a step of the same run. HistoryIsLegal says about which submission.
  lemma ResultsAreReported(run: seq<Action>, e: Event<Transfer>)
    requires Exec(START, run).Some? && e in Exec(START, run).value.log && e.entry.reply.Result?
    ensures Told(run, e.entry.reply.report)
  {
    RunTold(run);
  }

  // submit hands a nil pointer to libusb exactly when it finds the transfer
  // freed: it does not check.
  lemma CrashesIffFreed(s: State, th: Thread, err: Option<Error>)
    requires Reachable(s) && Enabled(s, Look(th, err))
    ensures At(Do(s, Look(th, err)), th).Crashed?
        <==> At(s, th).call == Submit && Replay(s.objs[At(s, th).t].hist) == Some(Freed)
  {
    HistoryIsLegal(s, At(s, th).t);
    ReachableOk(s);
    assert ThreadOk(s, th) && ObjOk(s, At(s, th).t);
  }

  lemma Extend(s: State, a: Action)
    requires Reachable(s) && Enabled(s, a)
    ensures Reachable(Do(s, a))
  {
    var run :| Exec(START, run) == Some(s);
    ExecAppend(START, run, [a]);
    ExecOne(s, a);
  }

  // Such runs exist: from any state a goroutine that is alone with an idle
  // transfer can free it ...
  lemma FreeRuns(s: State, th: Thread, t: Transfer) returns (s': State)
    requires Reachable(s) && At(s, th).Out? && t in s.objs
    requires s.objs[t].mu.None? && s.objs[t].xfer.Some? && !s.objs[t].submitted
    ensures Reachable(s') && At(s', th).Out? && t in s'.objs && s'.objs[t].mu.None? && s'.objs[t].xfer.None?
    ensures !s'.objs[t].submitted
  {
    s' := Enters(s, th, t, Free);
    s' := FreeUnmaps(s', th, t);
    s' := FreeEnds(s', th, t);
  }

  lemma Enters(s: State, th: Thread, t: Transfer, c: Call) returns (s': State)
    requires Reachable(s) && At(s, th).Out? && t in s.objs && s.objs[t].mu.None?
    ensures Reachable(s') && At(s', th) == Enter(t, c) && t in s'.objs
    ensures s'.objs[t].xfer == s.objs[t].xfer && s'.objs[t].submitted == s.objs[t].submitted
  {
    hide Reachable;
    Extend(s, Invoke(th, t, c));
    var s1 := Do(s, Invoke(th, t, c));
    Extend(s1, Lock(th));
    s' := Do(s1, Lock(th));
  }

  lemma FreeUnmaps(s: State, th: Thread, t: Transfer) returns (s': State)
    requires Reachable(s) && At(s, th) == Enter(t, Free) && t in s.objs
    requires s.objs[t].xfer.Some? && !s.objs[t].submitted
    ensures Reachable(s') && At(s', th).Releasing? && At(s', th).t == t && t in s'.objs && !s'.objs[t].submitted
  {
    hide Reachable;
    Extend(s, Look(th, None));
    var s1 := Do(s, Look(th, None));
    Extend(s1, Unmap(th));
    s' := Do(s1, Unmap(th));
  }

  lemma FreeEnds(s: State, th: Thread, t: Transfer) returns (s': State)
    requires Reachable(s) && At(s, th).Releasing? && At(s, th).t == t && t in s.objs && !s.objs[t].submitted
    ensures Reachable(s') && At(s', th).Out? && t in s'.objs && s'.objs[t].mu.None? && s'.objs[t].xfer.None?
    ensures !s'.objs[t].submitted
  {
    hide Reachable;
    Extend(s, Release(th));
    var s1 := Do(s, Release(th));
    Extend(s1, Clear(th));
    var s2 := Do(s1, Clear(th));
    Extend(s2, Unlock(th));
    s' := Do(s2, Unlock(th));
  }

  // ... and then crash by submitting it.
  lemma SubmitAfterFree(s: State, th: Thread, t: Transfer) returns (s': State)
    requires Reachable(s) && At(s, th).Out? && t in s.objs
    requires s.objs[t].mu.None? && s.objs[t].xfer.Some? && !s.objs[t].submitted
    ensures Reachable(s') && At(s', th) == Crashed(t)
  {
    hide Reachable;
    s' := FreeRuns(s, th, t);
    s' := Enters(s', th, t, Submit);
    Extend(s', Look(th, None));
    s' := Do(s', Look(th, None));
  }
}
