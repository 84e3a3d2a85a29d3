// One usbTransfer is shared by goroutines calling submit, wait, cancel and free,
// and by libusb's event thread running xferCallback. This is the system of all
// of them, for any number of transfers. Every access to what several of them can
// see at the same time, libusb's memory and xferDoneMap included, is an atomic
// step of its own, so a run is an arbitrary interleaving. Statements that follow
// each other without such an access, and use only what t.mu protects, are joined
// with the step before or after them.
module TransferProtocol {
  import opened Base
  import opened TransferSpec

  type Thread = nat
  type Transfer = nat
  type Ptr = nat

  // Where a goroutine is.
  datatype Pc =
    | Out
    // called, waiting for t.mu
    | Want(t: Transfer, call: Call)
    // holding t.mu, at the first statement after Lock
    | Enter(t: Transfer, call: Call)
    // submit: libusb accepted, t.submitted not yet set
    | Accepted(t: Transfer)
    // wait: at the receive from t.done, perhaps after cancelling
    | Waiting(t: Transfer, cancelled: bool)
    // wait: token received, t.submitted not yet reset
    | Received(t: Transfer)
    // free: about to delete the entry of xferDoneMap
    | Unmapping(t: Transfer)
    // free: about to release the memory
    | Releasing(t: Transfer, p: Ptr)
    // free: memory released, t.xfer not yet set to nil
    | Clearing(t: Transfer)
    // about to unlock t.mu and return
    | Leaving(t: Transfer, call: Call, reply: Reply)
    // newUSBTransfer: memory allocated, not yet in xferDoneMap
    | Allocating(p: Ptr)
    // submit passed a nil pointer to libusb
    | Crashed(t: Transfer)
  {
    // The transfer whose mutex the goroutine holds.
    function Holds(): Option<Transfer> {
      match this
      case Out => None
      case Want(_, _) => None
      case Allocating(_) => None
      case _ => Some(t)
    }
  }

  // What libusb is doing with an allocated libusb_transfer: nothing; it is in
  // flight; its callback was called; the callback has found the done channel of
  // a transfer and is about to send on it.
  datatype LibPhase = Quiet | InFlight | Called | Signalling(ch: Transfer)

  // Memory handed out by libusb, with the goroutine that asked for it and the
  // transfer it became part of. `number` is the submission it was last used for,
  // `report` what libusb wrote into it when it last finished one.
  datatype Mem = Mem(maker: Thread, owner: Option<Transfer>, phase: LibPhase, number: nat, report: Report)

  const BLANK := Report(0, 0, None, [])

  // The struct. `done` is the number of tokens in its 1-slot channel, hist the
  // calls answered so far; the counters count the submissions libusb accepted,
  // the tokens sent and received, the evaluations of the outcome by data(), and
  // the cancellations asked of libusb.
  datatype Obj = Obj(
    mu: Option<Thread>, xfer: Option<Ptr>, submitted: bool, done: nat,
    hist: seq<Entry>, accepted: nat, sent: nat, received: nat, evaluated: nat, asked: nat)

  // `doneMap` is xferDoneMap; lib is the memory libusb has handed out; log is all
  // calls answered so far.
  datatype State = State(
    objs: map<Transfer, Obj>,
    pcs: map<Thread, Pc>,
    lib: map<Ptr, Mem>,
    doneMap: map<Ptr, Transfer>,
    log: seq<Event<Transfer>>)

  function At(s: State, th: Thread): Pc {
    if th in s.pcs then s.pcs[th] else Out
  }

  const START := State(map[], map[], map[], map[], [])

  datatype Action =
    | Invoke(th: Thread, t: Transfer, call: Call)
    | Lock(th: Thread)
    // the first statements of a call; `err` is libusb's answer if it is asked
    | Look(th: Thread, err: Option<Error>)
    | Mark(th: Thread)
    | ContextDone(th: Thread)
    | Take(th: Thread)
    | Collect(th: Thread)
    | Unmap(th: Thread)
    | Release(th: Thread)
    | Clear(th: Thread)
    | Unlock(th: Thread)
    | Alloc(th: Thread, p: Ptr)
    | Register(th: Thread, t: Transfer)
    // libusb's side
    // a submission is finished with n bytes, a status and data in the buffer
    | Complete(p: Ptr, n: nat, status: Option<Error>, contents: seq<byte>)
    | Lookup(p: Ptr)
    | Send(p: Ptr)

  // ---- the steps ----

  function Goto(s: State, th: Thread, pc: Pc): State {
    s.(pcs := s.pcs[th := pc])
  }

  function SetObj(s: State, t: Transfer, o: Obj): State {
    s.(objs := s.objs[t := o])
  }

  function SetPhase(s: State, p: Ptr, phase: LibPhase): State
    requires p in s.lib
  {
    s.(lib := s.lib[p := s.lib[p].(phase := phase)])
  }

  // A call is answered: this is the point where it takes effect.
  function Answer(s: State, th: Thread, t: Transfer, o: Obj, c: Call, r: Reply): State {
    Goto(SetObj(s, t, o.(hist := o.hist + [Entry(c, r)])), th, Leaving(t, c, r))
      .(log := s.log + [Event(t, Entry(c, r))])
  }

  predicate Enabled(s: State, a: Action) {
    match a
    case Invoke(th, t, _) => At(s, th).Out? && t in s.objs
    case Lock(th) => At(s, th).Want? && At(s, th).t in s.objs && s.objs[At(s, th).t].mu.None?
    case Look(th, _) => At(s, th).Enter? && At(s, th).t in s.objs
    case Mark(th) => At(s, th).Accepted? && At(s, th).t in s.objs
    case ContextDone(th) => At(s, th).Waiting? && !At(s, th).cancelled && At(s, th).t in s.objs
    // a receive blocks on an empty channel
    case Take(th) => At(s, th).Waiting? && At(s, th).t in s.objs && s.objs[At(s, th).t].done > 0
    case Collect(th) =>
      At(s, th).Received? && At(s, th).t in s.objs
      && s.objs[At(s, th).t].xfer.Some? && s.objs[At(s, th).t].xfer.value in s.lib
    case Unmap(th) => At(s, th).Unmapping? && At(s, th).t in s.objs && s.objs[At(s, th).t].xfer.Some?
    case Release(th) => At(s, th).Releasing? && At(s, th).t in s.objs
    case Clear(th) => At(s, th).Clearing? && At(s, th).t in s.objs
    case Unlock(th) => At(s, th).Leaving? && At(s, th).t in s.objs
    // libusb is free to hand out memory that was freed before
    case Alloc(th, p) => At(s, th).Out? && p !in s.lib
    case Register(th, t) => At(s, th).Allocating? && At(s, th).p in s.lib && t !in s.objs
    case Complete(p, _, _, _) => p in s.lib && s.lib[p].phase.InFlight?
    // receiving from a nil map entry would leave the callback without a channel
    case Lookup(p) => p in s.lib && s.lib[p].phase.Called? && p in s.doneMap
    // a send blocks on a full channel
    case Send(p) =>
      p in s.lib && s.lib[p].phase.Signalling?
      && s.lib[p].phase.ch in s.objs && s.objs[s.lib[p].phase.ch].done < 1
  }

  // The first statements of each call.
  function LookStep(s: State, th: Thread, err: Option<Error>): State
    requires Enabled(s, Look(th, err))
  {
    var t := At(s, th).t;
    var c := At(s, th).call;
    var o := s.objs[t];
    match c
    case Submit =>
      if o.submitted then Answer(s, th, t, o, c, Busy)
      else if o.xfer.None? then Goto(s, th, Crashed(t))
      else if err.Some? then Answer(s, th, t, o, c, LibError(err.value))
      // that libusb does not know the memory never happens, see TransferTheorems.LibraryIsSafe
      else if o.xfer.value !in s.lib then Answer(s, th, t, o, c, LibError(NOT_FOUND))
      else AcceptStep(s, th, t, o.xfer.value)
    case Wait =>
      if !o.submitted then Answer(s, th, t, o, c, Fine) else Goto(s, th, Waiting(t, false))
    case Cancel =>
      if !o.submitted then Answer(s, th, t, o, c, Fine)
      else
        Answer(s, th, t, o.(asked := o.asked + 1), c,
               if err.None? || err.value == NOT_FOUND then Fine else LibError(err.value))
    case Free =>
      if o.submitted then Answer(s, th, t, o, c, Busy)
      else if o.xfer.None? then Answer(s, th, t, o, c, Fine)
      else Goto(s, th, Unmapping(t))
  }

  // libusb takes the memory over: the transfer's next submission.
  function AcceptStep(s: State, th: Thread, t: Transfer, p: Ptr): State
    requires t in s.objs && p in s.lib
  {
    var o := s.objs[t];
    Goto(SetObj(s, t, o.(accepted := o.accepted + 1)), th, Accepted(t))
      .(lib := s.lib[p := s.lib[p].(phase := InFlight, number := o.accepted)])
  }

  function Do(s: State, a: Action): State
    requires Enabled(s, a)
  {
    match a
    case Invoke(th, t, c) => Goto(s, th, Want(t, c))
    case Lock(th) =>
      var pc := At(s, th);
      Goto(SetObj(s, pc.t, s.objs[pc.t].(mu := Some(th))), th, Enter(pc.t, pc.call))
    case Look(th, err) => LookStep(s, th, err)
    case Mark(th) =>
      var t := At(s, th).t;
      Answer(s, th, t, s.objs[t].(submitted := true), Submit, Fine)
    case ContextDone(th) =>
      var t := At(s, th).t;
      Goto(SetObj(s, t, s.objs[t].(asked := s.objs[t].asked + 1)), th, Waiting(t, true))
    case Take(th) =>
      var t := At(s, th).t;
      var o := s.objs[t];
      Goto(SetObj(s, t, o.(done := o.done - 1, received := o.received + 1)), th, Received(t))
    case Collect(th) =>
      var t := At(s, th).t;
      var o := s.objs[t];
      Answer(s, th, t, o.(submitted := false, evaluated := o.evaluated + 1), Wait,
             Result(s.lib[o.xfer.value].report))
    case Unmap(th) =>
      var t := At(s, th).t;
      var p := s.objs[t].xfer.value;
      Goto(s, th, Releasing(t, p)).(doneMap := s.doneMap - {p})
    case Release(th) => Goto(s, th, Clearing(At(s, th).t)).(lib := s.lib - {At(s, th).p})
    case Clear(th) =>
      var t := At(s, th).t;
      Answer(s, th, t, s.objs[t].(xfer := None), Free, Fine)
    case Unlock(th) =>
      var t := At(s, th).t;
      Goto(SetObj(s, t, s.objs[t].(mu := None)), th, Out)
    case Alloc(th, p) => Goto(s, th, Allocating(p)).(lib := s.lib[p := Mem(th, None, Quiet, 0, BLANK)])
    case Register(th, t) =>
      var p := At(s, th).p;
      Goto(SetObj(s, t, Obj(None, Some(p), false, 0, [], 0, 0, 0, 0, 0)), th, Out)
        .(doneMap := s.doneMap[p := t], lib := s.lib[p := s.lib[p].(owner := Some(t))])
    case Complete(p, n, status, contents) =>
      var m := s.lib[p];
      s.(lib := s.lib[p := m.(phase := Called, report := Report(m.number, n, status, contents))])
    case Lookup(p) => SetPhase(s, p, Signalling(s.doneMap[p]))
    case Send(p) =>
      var t := s.lib[p].phase.ch;
      var o := s.objs[t];
      SetPhase(SetObj(s, t, o.(done := o.done + 1, sent := o.sent + 1)), p, Quiet)
  }

  // The state a run from s ends in, or None if some step of it is not enabled.
  function Exec(s: State, run: seq<Action>): Option<State>
    decreases |run|
  {
    if run == [] then Some(s)
    else if !Enabled(s, run[0]) then None
    else Exec(Do(s, run[0]), run[1..])
  }

  ghost predicate Reachable(s: State) {
    exists run :: Exec(START, run) == Some(s)
  }

  // ---- the invariant ----

  predicate InUse(lib: map<Ptr, Mem>, p: Ptr) {
    p in lib && !lib[p].phase.Quiet?
  }

  // A goroutine inside a call holds the mutex of its transfer, and finds what it
  // relies on.
  predicate ThreadOk(s: State, th: Thread) {
    var pc := At(s, th);
    && (pc.Want? ==> pc.t in s.objs)
    && (pc.Allocating? ==>
          && pc.p in s.lib && s.lib[pc.p].maker == th && s.lib[pc.p].owner.None? && s.lib[pc.p].phase.Quiet?
          && pc.p !in s.doneMap)
    && (pc.Holds().Some? ==>
          && pc.t in s.objs && s.objs[pc.t].mu == Some(th)
          && HolderOk(pc, s.objs[pc.t]))
  }

  predicate HolderOk(pc: Pc, o: Obj) {
    match pc
    case Accepted(_) => !o.submitted && o.xfer.Some?
    case Unmapping(_) => !o.submitted && o.xfer.Some?
    case Releasing(_, p) => !o.submitted && o.xfer == Some(p)
    case Clearing(_) => !o.submitted && o.xfer.Some?
    case Waiting(_, _) => o.submitted
    case Received(_) => o.submitted
    case Leaving(_, c, r) => o.hist != [] && o.hist[|o.hist| - 1] == Entry(c, r)
    case Crashed(_) => o.xfer.None?
    case _ => true
  }

  function PhaseOf(o: Obj): Phase {
    if o.xfer.None? then Freed else if o.submitted then Flying(o.evaluated) else Idle(o.evaluated)
  }

  // The holder of the mutex, as far as others need to know.
  function Holder(s: State, o: Obj): Pc {
    if o.mu.Some? then At(s, o.mu.value) else Out
  }

  predicate ObjOk(s: State, t: Transfer)
    requires t in s.objs
  {
    var o := s.objs[t];
    && (o.mu.Some? ==> Holder(s, o).Holds() == Some(t))
    && Consistent(o, Holder(s, o))
    && Memory(t, o, Holder(s, o), s.lib, s.doneMap)
  }

  // The tokens due: a submission libusb accepted is matched by one token, on its
  // way or in the channel, until a wait receives it.
  function Due(o: Obj, holder: Pc): nat {
    if holder.Accepted? then 1 else if holder.Received? then 0 else if o.submitted then 1 else 0
  }

  // The struct and its histories agree.
  predicate Consistent(o: Obj, holder: Pc) {
    && (o.submitted ==> o.xfer.Some?)
    && Replay(o.hist) == Some(PhaseOf(o))
    && o.accepted == o.received + Due(o, holder)
    && o.sent == o.received + o.done
    && o.received == o.evaluated + (if holder.Received? then 1 else 0)
  }

  // The struct, libusb's memory and xferDoneMap agree. What t.xfer points to while
  // it is being cleared may already belong to another transfer.
  predicate Memory(t: Transfer, o: Obj, holder: Pc, lib: map<Ptr, Mem>, doneMap: map<Ptr, Transfer>) {
    match o.xfer
    case None => o.done == 0 && Due(o, holder) == 0
    case Some(p) =>
      if holder.Clearing? then o.done == 0 && Due(o, holder) == 0 && (p in doneMap ==> doneMap[p] != t) else
      && p in lib && lib[p].owner == Some(t)
      && (if holder.Releasing? then p !in doneMap else p in doneMap && doneMap[p] == t)
      && o.done + (if InUse(lib, p) then 1 else 0) == Due(o, holder)
      && (o.submitted || holder.Accepted? ==>
            && lib[p].number == o.evaluated
            && (lib[p].phase.InFlight? || lib[p].report.k == o.evaluated))
  }

  predicate PtrOk(s: State, p: Ptr) {
    && (p in s.doneMap ==>
          && p in s.lib && s.lib[p].owner == Some(s.doneMap[p])
          && s.doneMap[p] in s.objs && s.objs[s.doneMap[p]].xfer == Some(p))
    && (InUse(s.lib, p) ==> p in s.doneMap)
    && (p in s.lib && s.lib[p].phase.Signalling? ==> p in s.doneMap && s.doneMap[p] == s.lib[p].phase.ch)
  }

  ghost predicate Inv(s: State) {
    && (forall th: Thread :: ThreadOk(s, th))
    && (forall t: Transfer :: t in s.objs ==> ObjOk(s, t))
    && (forall p: Ptr :: PtrOk(s, p))
  }

  // ---- every step keeps it ----

  // A step concerns at most one goroutine, one transfer and one piece of memory;
  // `None` stands for none. Everything else stays as it was, and as good.
  ghost predicate Confined(s: State, s': State, th: Option<Thread>, t: Option<Transfer>, p: Option<Ptr>) {
    && (forall u: Thread :: Some(u) != th ==> At(s', u) == At(s, u))
    && (forall u: Transfer :: u in s.objs ==> u in s'.objs)
    && (forall u: Transfer :: Some(u) != t && u in s'.objs ==> u in s.objs && s'.objs[u] == s.objs[u])
    && (forall q: Ptr :: Some(q) != p ==> SameAt(s.lib, s'.lib, q) && SameAt(s.doneMap, s'.doneMap, q))
  }

  predicate SameAt<K, V(==)>(m: map<K, V>, m': map<K, V>, k: K) {
    (k in m <==> k in m') && (k in m ==> m[k] == m'[k])
  }

  // What the step must respect for that.
  ghost predicate Respects(s: State, s': State, th: Option<Thread>, t: Option<Transfer>, p: Option<Ptr>) {
    // nobody else is inside a call on t, or only the tokens of t change
    && (t.Some? && t.value in s.objs ==>
          && t.value in s'.objs
          && (s'.objs[t.value].xfer == s.objs[t.value].xfer || s.objs[t.value].xfer == p || Dangling(s, t.value))
          && (s.objs[t.value].mu == None || s.objs[t.value].mu == th || OnlyTokens(s.objs[t.value], s'.objs[t.value])))
    // p belongs to t, or to nobody
    && (p.Some? && p.value in s.lib ==>
          && (s.lib[p.value].owner == t || s.lib[p.value].owner == None)
          && (s.lib[p.value].owner == None ==> th == Some(s.lib[p.value].maker)))
    // and is entered into xferDoneMap for t only
    && (p.Some? && p.value in s'.doneMap ==>
          SameAt(s.doneMap, s'.doneMap, p.value) || Some(s'.doneMap[p.value]) == t)
    // the goroutine is not inside a call on another transfer
    && (th.Some? ==> At(s, th.value).Holds() == None || At(s, th.value).Holds() == t)
  }

  // Nothing is known about t through the memory it points to.
  predicate Dangling(s: State, t: Transfer)
    requires t in s.objs
  {
    s.objs[t].xfer.Some? && (s.objs[t].xfer.value in s.doneMap ==> s.doneMap[s.objs[t].xfer.value] != t)
  }

  predicate OnlyTokens(o: Obj, o': Obj) {
    o' == o.(done := o'.done, sent := o'.sent)
  }

  lemma OtherThreads(s: State, s': State, th: Option<Thread>, t: Option<Transfer>, p: Option<Ptr>, u: Thread)
    requires Inv(s) && Confined(s, s', th, t, p) && Respects(s, s', th, t, p) && Some(u) != th
    ensures ThreadOk(s', u)
  {
    hide Replay, Memory, Consistent;
    assert ThreadOk(s, u);
    var pc := At(s, u);
    assert At(s', u) == pc;
    if pc.Holds().Some? { assert ObjOk(s, pc.Holds().value); }
    if pc.Allocating? {
      assert Some(pc.p) != p;
      assert SameAt(s.lib, s'.lib, pc.p) && SameAt(s.doneMap, s'.doneMap, pc.p);
    }
  }

  lemma OtherObjs(s: State, s': State, th: Option<Thread>, t: Option<Transfer>, p: Option<Ptr>, u: Transfer)
    requires Inv(s) && Confined(s, s', th, t, p) && Respects(s, s', th, t, p) && Some(u) != t && u in s'.objs
    ensures ObjOk(s', u)
  {
    hide Replay, Consistent;
    assert ObjOk(s, u);
    var o := s.objs[u];
    assert o.mu.Some? ==> Some(o.mu.value) != th;
    if o.xfer.Some? && !Holder(s, o).Clearing? {
      assert Some(o.xfer.value) != p;
      assert SameAt(s.lib, s'.lib, o.xfer.value) && SameAt(s.doneMap, s'.doneMap, o.xfer.value);
    }
  }

  lemma OtherPtrs(s: State, s': State, th: Option<Thread>, t: Option<Transfer>, p: Option<Ptr>, q: Ptr)
    requires Inv(s) && Confined(s, s', th, t, p) && Respects(s, s', th, t, p) && Some(q) != p
    ensures PtrOk(s', q)
  {
    assert PtrOk(s, q);
    assert SameAt(s.lib, s'.lib, q) && SameAt(s.doneMap, s'.doneMap, q);
  }

  // So only the concerned ones need a look.
  lemma Elsewhere(s: State, s': State, th: Option<Thread>, t: Option<Transfer>, p: Option<Ptr>)
    requires Inv(s) && Confined(s, s', th, t, p) && Respects(s, s', th, t, p)
    requires th.Some? ==> ThreadOk(s', th.value)
    requires t.Some? && t.value in s'.objs ==> ObjOk(s', t.value)
    requires p.Some? ==> PtrOk(s', p.value)
    ensures Inv(s')
  {
    hide ThreadOk, ObjOk, PtrOk, Confined, Respects;
    forall u: Thread ensures ThreadOk(s', u) { if Some(u) != th { OtherThreads(s, s', th, t, p, u); } }
    forall u: Transfer | u in s'.objs ensures ObjOk(s', u) { if Some(u) != t { OtherObjs(s, s', th, t, p, u); } }
    forall q: Ptr ensures PtrOk(s', q) { if Some(q) != p { OtherPtrs(s, s', th, t, p, q); } }
  }

  lemma LocalHolds(s: State, me: Thread, t: Transfer)
    requires Inv(s) && At(s, me).Holds() == Some(t)
    ensures t in s.objs && s.objs[t].mu == Some(me)
  {
    assert ThreadOk(s, me);
  }

  // Moving on inside a call, or in and out of one, touches only the struct.
  lemma StructOnly(s: State, s': State, me: Thread, t: Transfer, o': Obj, pc': Pc)
    requires t in s.objs && s' == Goto(SetObj(s, t, o'), me, pc').(log := s'.log)
    requires s.objs[t].mu == None || s.objs[t].mu == Some(me)
    requires o'.xfer == s.objs[t].xfer || Dangling(s, t)
    requires At(s, me).Holds() == None || At(s, me).Holds() == Some(t)
    ensures Confined(s, s', Some(me), Some(t), None) && Respects(s, s', Some(me), Some(t), None)
    ensures At(s', me) == pc' && t in s'.objs && s'.objs[t] == o' && s'.lib == s.lib && s'.doneMap == s.doneMap
    ensures o'.mu == Some(me) ==> Holder(s', o') == pc'
  {}

  // A step of the goroutine `me` inside a call on t, which leaves libusb and
  // xferDoneMap alone.
  lemma LocalStep(s: State, s': State, me: Thread, t: Transfer, o': Obj, pc': Pc)
    requires Inv(s) && At(s, me).Holds() == Some(t) && t in s.objs
    requires s' == Goto(SetObj(s, t, o'), me, pc').(log := s'.log)
    requires pc'.Holds() == Some(t) && o'.mu == Some(me) && (o'.xfer == s.objs[t].xfer || Dangling(s, t))
    requires HolderOk(pc', o') && Consistent(o', pc') && Memory(t, o', pc', s.lib, s.doneMap)
    ensures Inv(s')
  {
    LocalHolds(s, me, t);
    StructOnly(s, s', me, t, o', pc');
    hide Replay, HolderOk, Consistent, Memory, Confined, Respects, Inv, Goto, SetObj;
    Elsewhere(s, s', Some(me), Some(t), None);
  }

  lemma Answered(h: seq<Entry>, p: Phase, c: Call, r: Reply)
    requires Replay(h) == Some(p)
    ensures Replay(h + [Entry(c, r)]) == After(p, c, r)
  {}

  // Answering a call without changing libusb's side.
  lemma AnswerKeeps(s: State, me: Thread, t: Transfer, o': Obj, c: Call, r: Reply)
    requires Inv(s) && At(s, me).Holds() == Some(t) && t in s.objs
    requires o'.mu == Some(me) && (o'.xfer == s.objs[t].xfer || Dangling(s, t)) && o'.hist == s.objs[t].hist
    requires After(PhaseOf(s.objs[t]), c, r) == Some(PhaseOf(o'))
    requires var o1 := o'.(hist := o'.hist + [Entry(c, r)]);
      && Memory(t, o1, Leaving(t, c, r), s.lib, s.doneMap)
      && (Replay(o1.hist) == Some(PhaseOf(o1)) ==> Consistent(o1, Leaving(t, c, r)))
    ensures Inv(Answer(s, me, t, o', c, r))
  {
    assert ObjOk(s, t);
    Answered(o'.hist, PhaseOf(s.objs[t]), c, r);
    LocalStep(s, Answer(s, me, t, o', c, r), me, t, o'.(hist := o'.hist + [Entry(c, r)]), Leaving(t, c, r));
  }

  lemma LookKeeps(s: State, th: Thread, err: Option<Error>)
    requires Inv(s) && Enabled(s, Look(th, err))
    ensures Inv(Do(s, Look(th, err)))
  {
    hide Inv, Do;
    match At(s, th).call {
      case Submit => SubmitLookKeeps(s, th, err);
      case Free => FreeLookKeeps(s, th, err);
      case Wait => WaitLookKeeps(s, th, err);
      case Cancel => CancelLookKeeps(s, th, err);
    }
  }

  lemma SubmitLookKeeps(s: State, th: Thread, err: Option<Error>)
    requires Inv(s) && Enabled(s, Look(th, err)) && At(s, th).call == Submit
    ensures Inv(Do(s, Look(th, err)))
  {
    var t := At(s, th).t;
    var o := s.objs[t];
    assert ThreadOk(s, th) && ObjOk(s, t);
    if o.submitted { AnswerKeeps(s, th, t, o, Submit, Busy); }
    else if o.xfer.None? {
      assert s.objs[t := o] == s.objs;
      LocalStep(s, Do(s, Look(th, err)), th, t, o, Crashed(t));
    }
    else if err.Some? { AnswerKeeps(s, th, t, o, Submit, LibError(err.value)); }
    else { AcceptKeeps(s, th, err); }
  }

  lemma FreeLookKeeps(s: State, th: Thread, err: Option<Error>)
    requires Inv(s) && Enabled(s, Look(th, err)) && At(s, th).call == Free
    ensures Inv(Do(s, Look(th, err)))
  {
    var t := At(s, th).t;
    var o := s.objs[t];
    assert ThreadOk(s, th) && ObjOk(s, t);
    if o.submitted { AnswerKeeps(s, th, t, o, Free, Busy); }
    else if o.xfer.None? { AnswerKeeps(s, th, t, o, Free, Fine); }
    else {
      assert s.objs[t := o] == s.objs;
      LocalStep(s, Do(s, Look(th, err)), th, t, o, Unmapping(t));
    }
  }

  lemma WaitLookKeeps(s: State, th: Thread, err: Option<Error>)
    requires Inv(s) && Enabled(s, Look(th, err)) && At(s, th).call == Wait
    ensures Inv(Do(s, Look(th, err)))
  {
    var t := At(s, th).t;
    var o := s.objs[t];
    assert ThreadOk(s, th) && ObjOk(s, t);
    if !o.submitted {
      AnswerKeeps(s, th, t, o, Wait, Fine);
    } else {
      assert s.objs[t := o] == s.objs;
      LocalStep(s, Do(s, Look(th, err)), th, t, o, Waiting(t, false));
    }
  }

  lemma CancelLookKeeps(s: State, th: Thread, err: Option<Error>)
    requires Inv(s) && Enabled(s, Look(th, err)) && At(s, th).call == Cancel
    ensures Inv(Do(s, Look(th, err)))
  {
    var t := At(s, th).t;
    var o := s.objs[t];
    assert ThreadOk(s, th) && ObjOk(s, t);
    if o.submitted {
      var r := if err.None? || err.value == NOT_FOUND then Fine else LibError(err.value);
      AnswerKeeps(s, th, t, o.(asked := o.asked + 1), Cancel, r);
    } else {
      AnswerKeeps(s, th, t, o, Cancel, Fine);
    }
  }

  // libusb accepts a submission: the callback may run from now on, before
  // t.submitted is set.
  lemma AcceptKeeps(s: State, th: Thread, err: Option<Error>)
    requires Inv(s) && Enabled(s, Look(th, err)) && err.None?
    requires At(s, th).call == Submit && !s.objs[At(s, th).t].submitted && s.objs[At(s, th).t].xfer.Some?
    ensures Inv(Do(s, Look(th, err)))
  {
    hide Inv, ThreadOk, ObjOk, PtrOk, Confined, Respects;
    var t := At(s, th).t;
    var p := s.objs[t].xfer.value;
    AcceptFacts(s, th, t, p);
    var s' := AcceptStep(s, th, t, p);
    assert s' == Do(s, Look(th, err));
    AcceptFrame(s, th, t, p);
    AcceptSelf(s, th, t, p);
    hide *;
    Elsewhere(s, s', Some(th), Some(t), Some(p));
  }

  ghost predicate Accepting(s: State, th: Thread, t: Transfer, p: Ptr) {
    && At(s, th) == Enter(t, Submit) && t in s.objs && s.objs[t].xfer == Some(p) && !s.objs[t].submitted
    && p in s.lib && s.lib[p].owner == Some(t) && s.objs[t].mu == Some(th)
    && ThreadOk(s, th) && ObjOk(s, t) && PtrOk(s, p)
  }

  lemma AcceptFacts(s: State, th: Thread, t: Transfer, p: Ptr)
    requires Inv(s) && At(s, th) == Enter(t, Submit)
    requires t in s.objs && s.objs[t].xfer == Some(p) && !s.objs[t].submitted
    ensures Accepting(s, th, t, p)
  {
    hide Replay, Consistent;
    assert ThreadOk(s, th) && ObjOk(s, t) && PtrOk(s, p);
  }

  lemma AcceptFrame(s: State, th: Thread, t: Transfer, p: Ptr)
    requires Accepting(s, th, t, p)
    ensures var s' := AcceptStep(s, th, t, p);
      Confined(s, s', Some(th), Some(t), Some(p)) && Respects(s, s', Some(th), Some(t), Some(p))
  {
    hide ThreadOk, ObjOk, PtrOk;
  }

  lemma AcceptSelf(s: State, th: Thread, t: Transfer, p: Ptr)
    requires Accepting(s, th, t, p)
    ensures var s' := AcceptStep(s, th, t, p); ThreadOk(s', th) && t in s'.objs && ObjOk(s', t) && PtrOk(s', p)
  {
    hide Replay;
  }

  lemma UnmapFacts(s: State, th: Thread)
    requires Inv(s) && Enabled(s, Unmap(th))
    ensures var t := At(s, th).t;
      var p := s.objs[t].xfer.value;
      && s.objs[t].mu == Some(th) && p in s.lib && s.lib[p].owner == Some(t)
      && ThreadOk(s, th) && ObjOk(s, t) && PtrOk(s, p)
  {
    hide Replay, Consistent;
    assert ThreadOk(s, th) && ObjOk(s, At(s, th).t) && PtrOk(s, s.objs[At(s, th).t].xfer.value);
  }

  lemma UnmapFrame(s: State, th: Thread)
    requires Inv(s) && Enabled(s, Unmap(th))
    ensures var t := At(s, th).t;
      var p, s' := s.objs[t].xfer.value, Do(s, Unmap(th));
      Confined(s, s', Some(th), Some(t), Some(p)) && Respects(s, s', Some(th), Some(t), Some(p))
  {
    UnmapFacts(s, th);
    hide Inv, ThreadOk, ObjOk, PtrOk;
  }

  lemma UnmapSelf(s: State, th: Thread)
    requires Inv(s) && Enabled(s, Unmap(th))
    ensures var t := At(s, th).t;
      var p, s' := s.objs[t].xfer.value, Do(s, Unmap(th));
      ThreadOk(s', th) && t in s'.objs && ObjOk(s', t) && PtrOk(s', p)
  {
    UnmapFacts(s, th);
    hide Replay, Inv;
  }

  lemma UnmapKeeps(s: State, th: Thread)
    requires Inv(s) && Enabled(s, Unmap(th))
    ensures Inv(Do(s, Unmap(th)))
  {
    var t := At(s, th).t;
    var p := s.objs[t].xfer.value;
    UnmapFacts(s, th);
    UnmapFrame(s, th);
    UnmapSelf(s, th);
    hide *;
    Elsewhere(s, Do(s, Unmap(th)), Some(th), Some(t), Some(p));
  }

  // What a step with memory must respect, spelled out.
  lemma StructAndMemory(s: State, s': State, th: Thread, t: Transfer, p: Ptr, o': Obj, pc': Pc)
    requires s'.objs == s.objs[t := o'] && s'.pcs == s.pcs[th := pc']
    requires s'.lib - {p} == s.lib - {p} && s'.doneMap - {p} == s.doneMap - {p}
    requires t in s.objs ==>
      s.objs[t].mu == Some(th) && (o'.xfer == s.objs[t].xfer || s.objs[t].xfer == Some(p))
    requires p in s'.doneMap ==> SameAt(s.doneMap, s'.doneMap, p) || s'.doneMap[p] == t
    requires p in s.lib && (s.lib[p].owner == Some(t) || (s.lib[p].owner == None && s.lib[p].maker == th))
    requires At(s, th).Holds() == None || At(s, th).Holds() == Some(t)
    ensures Confined(s, s', Some(th), Some(t), Some(p)) && Respects(s, s', Some(th), Some(t), Some(p))
  {
    forall q: Ptr | q != p ensures SameAt(s.lib, s'.lib, q) && SameAt(s.doneMap, s'.doneMap, q) {
      OffOne(s.lib, s'.lib, p, q);
      OffOne(s.doneMap, s'.doneMap, p, q);
    }
    hide SameAt;
  }

  lemma OffOne<K, V>(m: map<K, V>, m': map<K, V>, p: K, q: K)
    requires m' - {p} == m - {p} && q != p
    ensures SameAt(m, m', q)
  {
    assert q in m <==> q in m - {p};
    assert q in m' <==> q in m' - {p};
    assert q in m ==> m[q] == (m - {p})[q];
    assert q in m' ==> m'[q] == (m' - {p})[q];
  }

  lemma ReleaseFacts(s: State, th: Thread)
    requires Inv(s) && Enabled(s, Release(th))
    ensures var t, p := At(s, th).t, At(s, th).p;
      && t in s.objs && s.objs[t].mu == Some(th) && p in s.lib && s.lib[p].owner == Some(t)
      && ThreadOk(s, th) && ObjOk(s, t) && PtrOk(s, p)
  {
    hide Replay, Consistent;
    assert ThreadOk(s, th) && ObjOk(s, At(s, th).t) && PtrOk(s, At(s, th).p);
  }

  lemma ReleaseFrame(s: State, th: Thread)
    requires Inv(s) && Enabled(s, Release(th))
    ensures var t, p, s' := At(s, th).t, At(s, th).p, Do(s, Release(th));
      Confined(s, s', Some(th), Some(t), Some(p)) && Respects(s, s', Some(th), Some(t), Some(p))
  {
    ReleaseFacts(s, th);
    hide Inv, ThreadOk, ObjOk, PtrOk, Confined, Respects;
    var s' := Do(s, Release(th));
    var t, p := At(s, th).t, At(s, th).p;
    assert s'.lib - {p} == s.lib - {p};
    assert s'.objs == s.objs[t := s.objs[t]];
    StructAndMemory(s, s', th, t, p, s.objs[t], Clearing(t));
  }

  lemma ReleaseSelf(s: State, th: Thread)
    requires Inv(s) && Enabled(s, Release(th))
    ensures var t, p, s' := At(s, th).t, At(s, th).p, Do(s, Release(th));
      ThreadOk(s', th) && t in s'.objs && ObjOk(s', t) && PtrOk(s', p)
  {
    ReleaseFacts(s, th);
    hide Replay, Inv;
  }

  lemma ReleaseKeeps(s: State, th: Thread)
    requires Inv(s) && Enabled(s, Release(th))
    ensures Inv(Do(s, Release(th)))
  {
    var t := At(s, th).t;
    var p := At(s, th).p;
    ReleaseFrame(s, th);
    ReleaseSelf(s, th);
    hide *;
    Elsewhere(s, Do(s, Release(th)), Some(th), Some(t), Some(p));
  }

  lemma ClearKeeps(s: State, th: Thread)
    requires Inv(s) && Enabled(s, Clear(th))
    ensures Inv(Do(s, Clear(th)))
  {
    var t := At(s, th).t;
    assert ThreadOk(s, th) && ObjOk(s, t);
    AnswerKeeps(s, th, t, s.objs[t].(xfer := None), Free, Fine);
  }

  lemma LockKeeps(s: State, th: Thread)
    requires Inv(s) && Enabled(s, Lock(th))
    ensures Inv(Do(s, Lock(th)))
  {
    hide Replay;
    var s' := Do(s, Lock(th));
    var t := At(s, th).t;
    assert ThreadOk(s, th) && ObjOk(s, t);
    Elsewhere(s, s', Some(th), Some(t), None);
  }

  lemma UnlockFrame(s: State, th: Thread)
    requires Inv(s) && Enabled(s, Unlock(th))
    ensures var t, s' := At(s, th).t, Do(s, Unlock(th));
      Confined(s, s', Some(th), Some(t), None) && Respects(s, s', Some(th), Some(t), None)
  {
    var t := At(s, th).t;
    LocalHolds(s, th, t);
    hide Inv;
    StructOnly(s, Do(s, Unlock(th)), th, t, s.objs[t].(mu := None), Out);
  }

  lemma UnlockSelf(s: State, th: Thread)
    requires Inv(s) && Enabled(s, Unlock(th))
    ensures var t, s' := At(s, th).t, Do(s, Unlock(th)); ThreadOk(s', th) && t in s'.objs && ObjOk(s', t)
  {
    hide Replay;
    assert ThreadOk(s, th) && ObjOk(s, At(s, th).t);
  }

  lemma UnlockKeeps(s: State, th: Thread)
    requires Inv(s) && Enabled(s, Unlock(th))
    ensures Inv(Do(s, Unlock(th)))
  {
    var t := At(s, th).t;
    UnlockFrame(s, th);
    UnlockSelf(s, th);
    hide *;
    Elsewhere(s, Do(s, Unlock(th)), Some(th), Some(t), None);
  }

  lemma AllocKeeps(s: State, th: Thread, p: Ptr)
    requires Inv(s) && Enabled(s, Alloc(th, p))
    ensures Inv(Do(s, Alloc(th, p)))
  {
    hide Replay;
    var s' := Do(s, Alloc(th, p));
    assert ThreadOk(s, th) && PtrOk(s, p);
    Elsewhere(s, s', Some(th), None, Some(p));
  }

  lemma RegisterFrame(s: State, th: Thread, t: Transfer)
    requires Inv(s) && Enabled(s, Register(th, t))
    ensures var p, s' := At(s, th).p, Do(s, Register(th, t));
      Confined(s, s', Some(th), Some(t), Some(p)) && Respects(s, s', Some(th), Some(t), Some(p))
  {
    var p := At(s, th).p;
    assert ThreadOk(s, th);
    hide Inv, ThreadOk, ObjOk, PtrOk, Confined, Respects;
    var s' := Do(s, Register(th, t));
    assert s'.lib - {p} == s.lib - {p};
    assert s'.doneMap - {p} == s.doneMap - {p};
    StructAndMemory(s, s', th, t, p, s'.objs[t], s'.pcs[th]);
  }

  lemma RegisterSelf(s: State, th: Thread, t: Transfer)
    requires Inv(s) && Enabled(s, Register(th, t))
    ensures var p, s' := At(s, th).p, Do(s, Register(th, t));
      ThreadOk(s', th) && t in s'.objs && ObjOk(s', t) && PtrOk(s', p)
  {
    assert Replay([]) == Some(Idle(0));
    assert ThreadOk(s, th) && PtrOk(s, At(s, th).p);
    hide Replay;
  }

  lemma RegisterKeeps(s: State, th: Thread, t: Transfer)
    requires Inv(s) && Enabled(s, Register(th, t))
    ensures Inv(Do(s, Register(th, t)))
  {
    var p := At(s, th).p;
    RegisterFrame(s, th, t);
    RegisterSelf(s, th, t);
    hide *;
    Elsewhere(s, Do(s, Register(th, t)), Some(th), Some(t), Some(p));
  }

  // The callback's steps, and Invoke, touch no mutex.
  lemma InvokeKeeps(s: State, th: Thread, t: Transfer, c: Call)
    requires Inv(s) && Enabled(s, Invoke(th, t, c))
    ensures Inv(Do(s, Invoke(th, t, c)))
  {
    hide Replay;
    assert ThreadOk(s, th);
    Elsewhere(s, Do(s, Invoke(th, t, c)), Some(th), None, None);
  }

  lemma CompleteKeeps(s: State, a: Action)
    requires Inv(s) && Enabled(s, a) && a.Complete?
    ensures Inv(Do(s, a))
  {
    hide Replay;
    assert PtrOk(s, a.p);
    var t := s.doneMap[a.p];
    assert ObjOk(s, t);
    Elsewhere(s, Do(s, a), None, Some(t), Some(a.p));
  }

  // The transfer whose memory the callback is called with.
  lemma CallbackOwner(s: State, p: Ptr) returns (t: Transfer)
    requires Inv(s) && InUse(s.lib, p)
    ensures p in s.doneMap && s.doneMap[p] == t && t in s.objs && s.objs[t].xfer == Some(p)
    ensures s.lib[p].owner == Some(t) && PtrOk(s, p) && ObjOk(s, t)
  {
    hide Replay;
    assert PtrOk(s, p);
    t := s.doneMap[p];
    assert ObjOk(s, t);
  }

  lemma LookupFrame(s: State, p: Ptr, t: Transfer)
    requires Enabled(s, Lookup(p)) && t in s.objs && s.lib[p].owner == Some(t) && s.objs[t].xfer == Some(p)
    ensures var s' := Do(s, Lookup(p));
      Confined(s, s', None, Some(t), Some(p)) && Respects(s, s', None, Some(t), Some(p))
  {}

  lemma LookupSelf(s: State, p: Ptr, t: Transfer)
    requires Enabled(s, Lookup(p)) && t in s.objs && s.doneMap[p] == t && s.objs[t].xfer == Some(p)
    requires PtrOk(s, p) && ObjOk(s, t)
    ensures var s' := Do(s, Lookup(p)); t in s'.objs && ObjOk(s', t) && PtrOk(s', p)
  {
    hide Replay;
  }

  lemma LookupKeeps(s: State, p: Ptr)
    requires Inv(s) && Enabled(s, Lookup(p))
    ensures Inv(Do(s, Lookup(p)))
  {
    var t := CallbackOwner(s, p);
    LookupFrame(s, p, t);
    LookupSelf(s, p, t);
    hide *;
    Elsewhere(s, Do(s, Lookup(p)), None, Some(t), Some(p));
  }

  lemma SendOwner(s: State, p: Ptr) returns (t: Transfer)
    requires Inv(s) && Enabled(s, Send(p))
    ensures s.lib[p].phase == Signalling(t) && t in s.objs && s.objs[t].xfer == Some(p)
    ensures s.lib[p].owner == Some(t) && PtrOk(s, p) && ObjOk(s, t)
    ensures s.objs[t].mu.Some? ==> ThreadOk(s, s.objs[t].mu.value)
  {
    hide Replay;
    t := s.lib[p].phase.ch;
    assert PtrOk(s, p);
    if s.objs[t].mu.Some? { assert ThreadOk(s, s.objs[t].mu.value); }
  }

  lemma SendFrame(s: State, p: Ptr, t: Transfer)
    requires Enabled(s, Send(p)) && s.lib[p].phase == Signalling(t) && t in s.objs && s.lib[p].owner == Some(t)
    ensures var s' := Do(s, Send(p));
      Confined(s, s', None, Some(t), Some(p)) && Respects(s, s', None, Some(t), Some(p))
  {}

  lemma SendSelf(s: State, p: Ptr, t: Transfer)
    requires Enabled(s, Send(p)) && s.lib[p].phase == Signalling(t) && t in s.objs && s.objs[t].xfer == Some(p)
    requires PtrOk(s, p) && ObjOk(s, t)
    ensures var s' := Do(s, Send(p)); t in s'.objs && ObjOk(s', t) && PtrOk(s', p)
  {
    hide Replay;
  }

  lemma SendKeeps(s: State, p: Ptr)
    requires Inv(s) && Enabled(s, Send(p))
    ensures Inv(Do(s, Send(p)))
  {
    var t := SendOwner(s, p);
    SendFrame(s, p, t);
    SendSelf(s, p, t);
    hide *;
    Elsewhere(s, Do(s, Send(p)), None, Some(t), Some(p));
  }

  lemma MarkKeeps(s: State, th: Thread)
    requires Inv(s) && Enabled(s, Mark(th))
    ensures Inv(Do(s, Mark(th)))
  {
    var t := At(s, th).t;
    assert ThreadOk(s, th) && ObjOk(s, t);
    AnswerKeeps(s, th, t, s.objs[t].(submitted := true), Submit, Fine);
  }

  lemma ContextDoneKeeps(s: State, th: Thread)
    requires Inv(s) && Enabled(s, ContextDone(th))
    ensures Inv(Do(s, ContextDone(th)))
  {
    hide Replay, After;
    var t := At(s, th).t;
    assert ThreadOk(s, th) && ObjOk(s, t);
    LocalStep(s, Do(s, ContextDone(th)), th, t, s.objs[t].(asked := s.objs[t].asked + 1), Waiting(t, true));
  }

  lemma TakeKeeps(s: State, th: Thread)
    requires Inv(s) && Enabled(s, Take(th))
    ensures Inv(Do(s, Take(th)))
  {
    hide Replay, After;
    var t := At(s, th).t;
    var o := s.objs[t];
    assert ThreadOk(s, th) && ObjOk(s, t);
    LocalStep(s, Do(s, Take(th)), th, t, o.(done := o.done - 1, received := o.received + 1), Received(t));
  }

  // The report a wait finds is about the submission in flight.
  lemma CollectFacts(s: State, th: Thread) returns (r: Report)
    requires Inv(s) && Enabled(s, Collect(th))
    ensures var t := At(s, th).t;
      var o := s.objs[t];
      && o.mu == Some(th) && At(s, th).Holds() == Some(t) && o.submitted && o.xfer.Some?
      && Holder(s, o) == At(s, th) && ObjOk(s, t)
      && s.lib[o.xfer.value].report == r && r.k == o.evaluated
  {
    hide Replay;
    var t := At(s, th).t;
    assert ThreadOk(s, th) && ObjOk(s, t);
    r := s.lib[s.objs[t].xfer.value].report;
  }

  lemma CollectOk(s: State, th: Thread, r: Report)
    requires Enabled(s, Collect(th))
    requires var t := At(s, th).t;
      var o := s.objs[t];
      && o.submitted && o.xfer.Some? && Holder(s, o) == At(s, th) && ObjOk(s, t) && r.k == o.evaluated
    ensures var t := At(s, th).t;
      var o := s.objs[t];
      var o' := o.(submitted := false, evaluated := o.evaluated + 1);
      var o1 := o'.(hist := o'.hist + [Entry(Wait, Result(r))]);
      && After(PhaseOf(o), Wait, Result(r)) == Some(PhaseOf(o'))
      && Memory(t, o1, Leaving(t, Wait, Result(r)), s.lib, s.doneMap)
      && (Replay(o1.hist) == Some(PhaseOf(o1)) ==> Consistent(o1, Leaving(t, Wait, Result(r))))
  {
    hide Replay;
  }

  lemma CollectIs(s: State, th: Thread, r: Report)
    requires Enabled(s, Collect(th)) && s.lib[s.objs[At(s, th).t].xfer.value].report == r
    ensures var t := At(s, th).t;
      var o := s.objs[t];
      Do(s, Collect(th)) == Answer(s, th, t, o.(submitted := false, evaluated := o.evaluated + 1), Wait, Result(r))
  {
    hide Answer;
  }

  lemma CollectKeeps(s: State, th: Thread)
    requires Inv(s) && Enabled(s, Collect(th))
    ensures Inv(Do(s, Collect(th)))
  {
    var t := At(s, th).t;
    var o := s.objs[t];
    var r := CollectFacts(s, th);
    CollectOk(s, th, r);
    hide *;
    AnswerKeeps(s, th, t, o.(submitted := false, evaluated := o.evaluated + 1), Wait, Result(r));
    CollectIs(s, th, r);
  }
}
