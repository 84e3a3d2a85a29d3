// Nobody waits for ever inside a call on a usbTransfer, as long as libusb finishes
// what it accepted: from every reachable state there is a short run that ends it.
module TransferProgress {
  import opened Base
  import opened TransferSpec
  import opened TransferProtocol
  import opened TransferTheorems

  // ---- a wait gets its token ----

  // How many steps libusb is away from having sent the token for a submission.
  function ToGo(phase: LibPhase): nat {
    match phase
    case Quiet => 0
    case Signalling(_) => 1
    case Called => 2
    case InFlight => 3
  }

  // The next of them; the submission is finished with n bytes, a status and data.
  function LibStep(p: Ptr, phase: LibPhase, n: nat, status: Option<Error>, contents: seq<byte>): Action {
    if phase.InFlight? then Complete(p, n, status, contents) else if phase.Called? then Lookup(p) else Send(p)
  }

  // The memory of the submission a goroutine waits for.
  lemma Awaited(s: State, th: Thread) returns (p: Ptr)
    requires Inv(s) && At(s, th).Waiting?
    ensures At(s, th).t in s.objs && s.objs[At(s, th).t].xfer == Some(p) && p in s.lib
    ensures s.lib[p].phase.Quiet? ==> Enabled(s, Take(th))
    ensures !s.lib[p].phase.Quiet? ==> forall n, status, contents ::
      Enabled(s, LibStep(p, s.lib[p].phase, n, status, contents))
  {
    assert ThreadOk(s, th);
    assert ObjOk(s, At(s, th).t);
    p := s.objs[At(s, th).t].xfer.value;
    assert PtrOk(s, p);
  }

  lemma LibStepGoes(s: State, p: Ptr, n: nat, status: Option<Error>, contents: seq<byte>)
    requires p in s.lib && !s.lib[p].phase.Quiet? && Enabled(s, LibStep(p, s.lib[p].phase, n, status, contents))
    ensures var s' := Do(s, LibStep(p, s.lib[p].phase, n, status, contents));
      && s'.pcs == s.pcs && p in s'.lib && ToGo(s'.lib[p].phase) == ToGo(s.lib[p].phase) - 1
      && s'.objs.Keys == s.objs.Keys && forall t :: t in s.objs ==> s'.objs[t].xfer == s.objs[t].xfer
  {
    hide LookStep;
  }

  // A goroutine waiting for a token gets it: whatever libusb reports, after at most
  // three steps of libusb and none of anybody else the token is there to take.
  lemma WaiterIsServed(s: State, th: Thread, n: nat, status: Option<Error>, contents: seq<byte>)
      returns (run: seq<Action>)
    requires Inv(s) && At(s, th).Waiting?
    ensures |run| <= 3 && (forall a :: a in run ==> Actor(a).None?)
    ensures Exec(s, run).Some?
    ensures var end := Exec(s, run).value; Inv(end) && end.pcs == s.pcs && Enabled(end, Take(th))
  {
    var p := Awaited(s, th);
    run := Serves(s, th, p, n, status, contents);
  }

  lemma {:induction false} Serves(s: State, th: Thread, p: Ptr, n: nat, status: Option<Error>, contents: seq<byte>)
      returns (run: seq<Action>)
    requires Inv(s) && At(s, th).Waiting? && At(s, th).t in s.objs && s.objs[At(s, th).t].xfer == Some(p) && p in s.lib
    ensures |run| == ToGo(s.lib[p].phase) && (forall a :: a in run ==> Actor(a).None?)
    ensures Exec(s, run).Some?
    ensures var end := Exec(s, run).value; Inv(end) && end.pcs == s.pcs && Enabled(end, Take(th))
    decreases ToGo(s.lib[p].phase)
  {
    hide Inv, Enabled, Do;
    var q := Awaited(s, th);
    if s.lib[p].phase.Quiet? {
      run := [];
    } else {
      var a := LibStep(p, s.lib[p].phase, n, status, contents);
      StepKeeps(s, a);
      LibStepGoes(s, p, n, status, contents);
      var rest := Serves(Do(s, a), th, p, n, status, contents);
      run := [a] + rest;
      assert run[0] == a && run[1..] == rest;
    }
  }

  // ---- so does everybody else inside a call ----

  // A bound for the steps the holder of a mutex still needs.
  function Left(s: State, th: Thread): nat {
    match At(s, th)
    case Enter(_, _) => 7
    case Waiting(t, _) =>
      3 + if t in s.objs && s.objs[t].xfer.Some? && s.objs[t].xfer.value in s.lib
          then ToGo(s.lib[s.objs[t].xfer.value].phase) else 0
    case Unmapping(_) => 4
    case Releasing(_, _) => 3
    case Accepted(_) => 2
    case Received(_) => 2
    case Clearing(_) => 2
    case Leaving(_, _, _) => 1
    case _ => 0
  }

  // What the holder of the mutex of t has become after a step of its own or of
  // libusb; everybody else is where he was.
  ghost predicate Advanced(s: State, s': State, th: Thread, t: Transfer) {
    && Inv(s') && Left(s', th) < Left(s, th)
    && (At(s', th).Holds() == Some(t) || (At(s', th).Out? && t in s'.objs && s'.objs[t].mu.None?))
    && (forall u :: u != th ==> At(s', u) == At(s, u))
  }

  // The goroutine's own next step, unless it waits.
  function OwnStep(s: State, th: Thread): Action {
    match At(s, th)
    case Enter(_, _) => Look(th, None)
    case Accepted(_) => Mark(th)
    case Waiting(_, _) => Take(th)
    case Received(_) => Collect(th)
    case Unmapping(_) => Unmap(th)
    case Releasing(_, _) => Release(th)
    case Clearing(_) => Clear(th)
    case _ => Unlock(th)
  }

  lemma OwnStepEnabled(s: State, th: Thread, t: Transfer)
    requires Inv(s) && At(s, th).Holds() == Some(t) && !At(s, th).Crashed? && !At(s, th).Waiting?
    ensures Enabled(s, OwnStep(s, th))
  {
    hide Replay, Left;
    assert ThreadOk(s, th);
    assert ObjOk(s, t);
  }

  lemma OwnStepGoes(s: State, th: Thread, t: Transfer)
    requires At(s, th).Holds() == Some(t) && !At(s, th).Crashed? && !At(s, th).Enter?
    requires Enabled(s, OwnStep(s, th))
    ensures var s' := Do(s, OwnStep(s, th));
      && Left(s', th) < Left(s, th)
      && (At(s', th).Holds() == Some(t) || (At(s', th).Out? && t in s'.objs && s'.objs[t].mu.None?))
  {
    hide LookStep;
  }

  // Where the first statements of a call lead.
  lemma LookLeads(s: State, th: Thread, t: Transfer)
    requires At(s, th).Enter? && At(s, th).t == t && Enabled(s, Look(th, None))
    ensures var pc := At(LookStep(s, th, None), th);
      && (pc.Leaving? || pc.Accepted? || pc.Unmapping? || pc.Waiting? || pc.Crashed?) && pc.t == t
  {}

  lemma LookGoes(s: State, th: Thread, t: Transfer)
    requires At(s, th).Holds() == Some(t) && At(s, th).Enter? && Enabled(s, Look(th, None))
    ensures var s' := Do(s, Look(th, None)); Left(s', th) < Left(s, th) && At(s', th).Holds() == Some(t)
  {
    hide LookStep;
    LookLeads(s, th, t);
  }

  lemma LibStepAdvances(s: State, th: Thread, t: Transfer, p: Ptr)
    requires At(s, th).Waiting? && At(s, th).t == t && t in s.objs && s.objs[t].xfer == Some(p) && p in s.lib
    requires !s.lib[p].phase.Quiet? && Enabled(s, LibStep(p, s.lib[p].phase, 0, None, []))
    ensures var s' := Do(s, LibStep(p, s.lib[p].phase, 0, None, []));
      Left(s', th) < Left(s, th) && s'.pcs == s.pcs
  {
    LibStepGoes(s, p, 0, None, []);
    hide Do, Enabled, LibStep;
  }

  lemma HolderIs(s: State, th: Thread, t: Transfer)
    requires Inv(s)
    ensures At(s, th).Holds() == Some(t) ==> t in s.objs && s.objs[t].mu == Some(th)
    ensures t in s.objs && s.objs[t].mu == Some(th) ==> At(s, th).Holds() == Some(t)
  {
    hide Replay, Consistent, Memory;
    assert ThreadOk(s, th);
    if t in s.objs { assert ObjOk(s, t); }
  }

  // The holder of a mutex can take a step, or libusb can for it.
  lemma HolderAdvances(s: State, th: Thread, t: Transfer) returns (a: Action)
    requires Inv(s) && At(s, th).Holds() == Some(t) && !At(s, th).Crashed?
    ensures Enabled(s, a) && (Actor(a).None? || Actor(a) == Some(th)) && Advanced(s, Do(s, a), th, t)
  {
    hide Inv, Enabled, Do, Left;
    a := OwnStep(s, th);
    if At(s, th).Waiting? {
      var p := Awaited(s, th);
      if !s.lib[p].phase.Quiet? {
        a := LibStep(p, s.lib[p].phase, 0, None, []);
        LibStepAdvances(s, th, t, p);
      } else { OwnStepGoes(s, th, t); }
    } else {
      OwnStepEnabled(s, th, t);
      if At(s, th).Enter? { LookGoes(s, th, t); } else { OwnStepGoes(s, th, t); }
    }
    StepKeeps(s, a);
    HolderIs(s, th, t);
    forall u | u != th ensures At(Do(s, a), u) == At(s, u) { OthersStay(s, a, u, t); }
  }

  // Where a run of the holder of the mutex of t and of libusb leads.
  ghost predicate Ended(s: State, run: seq<Action>, th: Thread, t: Transfer) {
    && Exec(s, run).Some?
    && (forall a :: a in run ==> Actor(a).None? || Actor(a) == Some(th))
    && var end := Exec(s, run).value;
       && Inv(end) && (forall u :: u != th ==> At(end, u) == At(s, u))
       && (At(end, th) == Crashed(t) || (At(end, th).Out? && t in end.objs && end.objs[t].mu.None?))
  }

  lemma {:induction false} HolderReturns(s: State, th: Thread, t: Transfer) returns (run: seq<Action>)
    requires Inv(s) && At(s, th).Holds() == Some(t)
    ensures |run| <= Left(s, th) && Ended(s, run, th, t)
    decreases Left(s, th)
  {
    hide Inv, Enabled, Do, Left;
    if At(s, th).Crashed? {
      run := [];
    } else {
      var a := HolderAdvances(s, th, t);
      var s' := Do(s, a);
      if At(s', th).Out? {
        run := [a];
        ExecOne(s, a);
      } else {
        var rest := HolderReturns(s', th, t);
        run := [a] + rest;
        assert run[0] == a && run[1..] == rest;
      }
    }
  }

  // A goroutine at the mutex, which is free, goes through the call.
  lemma GoesThrough(s: State, th: Thread, t: Transfer) returns (run: seq<Action>)
    requires Inv(s) && At(s, th).Want? && At(s, th).t == t && t in s.objs && s.objs[t].mu.None?
    ensures |run| <= 8 && Ended(s, run, th, t)
  {
    var s' := Do(s, Lock(th));
    StepKeeps(s, Lock(th));
    var rest := HolderReturns(s', th, t);
    run := [Lock(th)] + rest;
    assert run[0] == Lock(th) && run[1..] == rest;
  }

  // With the mutex taken, the holder has to finish first.
  lemma BehindHolder(s: State, th: Thread, t: Transfer) returns (run: seq<Action>)
    requires Inv(s) && At(s, th).Want? && At(s, th).t == t && t in s.objs
    ensures |run| <= 15 && Exec(s, run).Some?
    ensures forall a :: a in run ==> Actor(a).None? || Actor(a) == Some(th) || Actor(a) == s.objs[t].mu
    ensures var end := Exec(s, run).value;
      At(end, th).Out? || At(end, th) == Crashed(t)
      || (s.objs[t].mu.Some? && At(end, s.objs[t].mu.value) == Crashed(t))
  {
    hide Inv, Enabled, Do, Exec;
    if s.objs[t].mu.None? {
      run := GoesThrough(s, th, t);
    } else {
      var u := s.objs[t].mu.value;
      HolderIs(s, u, t);
      run := HolderReturns(s, u, t);
      var mid := Exec(s, run).value;
      if !At(mid, u).Crashed? {
        var rest := GoesThrough(mid, th, t);
        ExecAppend(s, run, rest);
        run := run + rest;
      }
    }
  }

  // So nobody is stuck in a call, or before the mutex of one: a run of at most
  // fifteen steps of libusb, of the present holder of the mutex and of the
  // goroutine itself takes it out of the call, unless one of the two hands the nil
  // pointer of a freed transfer to libusb.
  lemma NobodyIsStuck(s: State, th: Thread) returns (run: seq<Action>)
    requires Reachable(s) && Running(At(s, th)).Some?
    ensures var t := At(s, th).t;
      && t in s.objs && |run| <= 15 && Exec(s, run).Some?
      && (forall a :: a in run ==> Actor(a).None? || Actor(a) == Some(th) || Actor(a) == s.objs[t].mu)
      && var end := Exec(s, run).value;
         At(end, th).Out? || At(end, th) == Crashed(t)
         || (s.objs[t].mu.Some? && At(end, s.objs[t].mu.value) == Crashed(t))
  {
    ReachableOk(s);
    assert ThreadOk(s, th);
    var t := At(s, th).t;
    assert ObjOk(s, t);
    if At(s, th).Want? {
      run := BehindHolder(s, th, t);
    } else {
      run := HolderReturns(s, th, t);
    }
  }
}
