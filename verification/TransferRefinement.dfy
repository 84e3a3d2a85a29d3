// The streams rely on no more than the transfers give: whatever the transfers of
// TransferProtocol.dfy answer in any interleaving is what the transfers of
// StreamSpec.dfy answer on some endpoint.
module TransferRefinement {
  import opened Base
  import opened TransferSpec
  import S = StreamSpec
  import P = TransferProtocol
  import opened TransferTheorems

  // ---- the streams' view of a call ----

  // The state after the call e on the transfers of a stream; None if they would
  // not answer like this. What libusb says to a cancel is not up to the endpoint.
  ghost function Serve<T>(ep: S.Endpoint, s: S.Ring<T>, e: Event<T>): Option<S.Ring<T>> {
    if e.t !in s.xfers then None else
      var x := s.xfers[e.t];
      match e.entry.call
      case Submit =>
        if x.Flying? then When(e.entry.reply == Busy, s)
        else if x.Freed? then None
        else
          var (s', err) := S.Submit(ep, s, e.t);
          When(e.entry.reply == (if err.None? then Fine else LibError(err.value)), s')
      case Wait =>
        var (s', n, err) := S.Wait(ep, s, e.t);
        if x.Flying? then
          When(e.entry.reply.Result? && s'.xfers[e.t].Idle?
               && n == e.entry.reply.report.n && err == e.entry.reply.report.err
               && s'.xfers[e.t].buf == e.entry.reply.report.contents, s')
        else When(e.entry.reply == Fine && n == 0 && err == None, s')
      case Cancel =>
        When(e.entry.reply == Fine || (e.entry.reply.LibError? && x.Flying?), s)
      case Free =>
        if x.Flying? then When(e.entry.reply == Busy, s)
        else When(e.entry.reply == Fine, S.Free(s, e.t))
  }

  function When<A>(c: bool, a: A): Option<A> {
    if c then Some(a) else None
  }

  ghost function ServeAll<T>(ep: S.Endpoint, s: S.Ring<T>, log: seq<Event<T>>): Option<S.Ring<T>>
    decreases |log|
  {
    if log == [] then Some(s) else
      var s' := Serve(ep, s, log[0]);
      if s'.None? then None else ServeAll(ep, s'.value, log[1..])
  }

  // ---- the endpoint that gives the answers of a history ----

  // The next report on the transfer t.
  function NextReport<T(==)>(log: seq<Event<T>>, t: T): Option<Report>
    decreases |log|
  {
    if log == [] then None
    else if log[0].t == t && log[0].entry.reply.Result? then Some(log[0].entry.reply.report)
    else NextReport(log[1..], t)
  }

  // A submission nobody has waited for yet may end in any way.
  function Default(size: nat): Report {
    Report(0, 0, None, seq(size, _ => 0))
  }

  function OutcomeOf(size: nat, report: Option<Report>): S.Outcome {
    var r := if report.Some? then report.value else Default(size);
    S.Done(r.n, r.err, r.contents)
  }

  predicate IsAttempt(e: Entry) {
    e.call == Submit && (e.reply == Fine || e.reply.LibError?)
  }

  // The outcomes of the submit attempts of a history, in order.
  function Outcomes<T(==)>(size: nat, log: seq<Event<T>>): seq<S.Outcome>
    decreases |log|
  {
    if log == [] then [] else
      var e := log[0];
      var rest := Outcomes(size, log[1..]);
      if !IsAttempt(e.entry) then rest
      else if e.entry.reply.LibError? then [S.Rejected(e.entry.reply.reason)] + rest
      else [OutcomeOf(size, NextReport(log[1..], e.t))] + rest
  }

  function EndpointOf<T(==)>(size: nat, inbound: bool, log: seq<Event<T>>): S.Endpoint {
    var os := Outcomes(size, log);
    S.Endpoint((k: nat) => if k < |os| then os[k] else OutcomeOf(size, None), inbound, size)
  }

  // ---- the simulation ----

  // The transfer t in the ring and its phase; what is still to come of the
  // history settles what the endpoint answers for a submission in flight.
  ghost predicate Agree<T>(ep: S.Endpoint, x: S.Xfer, p: Phase, rest: seq<Event<T>>, t: T) {
    match p
    case Idle(_) => x.Idle?
    case Freed => x.Freed?
    case Flying(_) => x.Flying? && ep.outcome(x.k) == OutcomeOf(ep.size, NextReport(rest, t))
  }

  ghost predicate PhasesAgree<T>(ep: S.Endpoint, s: S.Ring<T>, log: seq<Event<T>>, i: nat)
    requires i <= |log|
  {
    forall t :: t in s.xfers ==>
      Replay(Of(log[..i], t)).Some? && Agree(ep, s.xfers[t], Replay(Of(log[..i], t)).value, log[i..], t)
  }

  ghost predicate AttemptsAgree<T>(ep: S.Endpoint, attempts: nat, rest: seq<Event<T>>) {
    var os := Outcomes(ep.size, rest);
    forall k: nat :: k < |os| ==> ep.outcome(attempts + k) == os[k]
  }

  // One call: the ring answers as the history says, and stays in step with it.
  lemma ServeKeeps<T>(ep: S.Endpoint, s: S.Ring<T>, log: seq<Event<T>>, i: nat)
    requires i < |log| && log[i].t in s.xfers
    requires PhasesAgree(ep, s, log, i) && AttemptsAgree(ep, s.attempts, log[i..])
    requires Replay(Of(log[..i + 1], log[i].t)).Some?
    ensures var s' := Serve(ep, s, log[i]);
      && s'.Some? && s'.value.xfers.Keys == s.xfers.Keys
      && PhasesAgree(ep, s'.value, log, i + 1) && AttemptsAgree(ep, s'.value.attempts, log[i + 1..])
  {
    hide *;
    var e := log[i];
    var p, p' := PhasesOf(log, i);
    PhaseNow(ep, s, log, i, p);
    Cut(log, i);
    OneCall(ep, s, log[i..], p, p');
    var s' := ServedGives(ep, s, log[i..], p');
    forall t | t in s'.xfers
      ensures Replay(Of(log[..i + 1], t)).Some?
        && Agree(ep, s'.xfers[t], Replay(Of(log[..i + 1], t)).value, log[i + 1..], t)
    {
      if t != e.t {
        OthersPhase(ep, s, log, i, t);
      }
    }
    PhasesAgreeNext(ep, s', log, i + 1);
  }

  lemma Cut<T>(log: seq<Event<T>>, i: nat)
    requires i < |log|
    ensures log[i..] != [] && log[i..][0] == log[i] && log[i..][1..] == log[i + 1..]
    ensures log[..i + 1] == log[..i] + [log[i]]
  {}

  // The phases before and after the call.
  lemma PhasesOf<T>(log: seq<Event<T>>, i: nat) returns (p: Phase, p': Phase)
    requires i < |log| && Replay(Of(log[..i + 1], log[i].t)).Some?
    ensures Replay(Of(log[..i], log[i].t)) == Some(p)
    ensures Replay(Of(log[..i + 1], log[i].t)) == Some(p')
    ensures After(p, log[i].entry.call, log[i].entry.reply) == Some(p')
  {
    hide Of, Replay, After;
    Cut(log, i);
    OfNext(log[..i], log[i], log[i].t);
    ReplayNext(Of(log[..i], log[i].t), log[i].entry);
    p := Replay(Of(log[..i], log[i].t)).value;
    p' := Replay(Of(log[..i + 1], log[i].t)).value;
  }

  lemma PhaseNow<T>(ep: S.Endpoint, s: S.Ring<T>, log: seq<Event<T>>, i: nat, p: Phase)
    requires i < |log| && log[i].t in s.xfers && PhasesAgree(ep, s, log, i)
    requires Replay(Of(log[..i], log[i].t)) == Some(p)
    ensures Agree(ep, s.xfers[log[i].t], p, log[i..], log[i].t)
  {
    hide Of, Replay, Agree;
  }

  lemma OthersPhase<T>(ep: S.Endpoint, s: S.Ring<T>, log: seq<Event<T>>, i: nat, t: T)
    requires i < |log| && t in s.xfers && t != log[i].t && PhasesAgree(ep, s, log, i)
    ensures Replay(Of(log[..i + 1], t)).Some?
    ensures Agree(ep, s.xfers[t], Replay(Of(log[..i + 1], t)).value, log[i + 1..], t)
  {
    hide Of, Replay, Agree;
    Cut(log, i);
    OfNext(log[..i], log[i], t);
    AgreeStays(ep, s.xfers[t], Replay(Of(log[..i], t)).value, log[i..], t);
  }

  lemma PhasesAgreeNext<T>(ep: S.Endpoint, s: S.Ring<T>, log: seq<Event<T>>, i: nat)
    requires i <= |log|
    requires forall t :: t in s.xfers ==>
      Replay(Of(log[..i], t)).Some? && Agree(ep, s.xfers[t], Replay(Of(log[..i], t)).value, log[i..], t)
    ensures PhasesAgree(ep, s, log, i)
  {
    hide Of, Replay, Agree;
  }

  lemma ServedGives<T>(ep: S.Endpoint, s: S.Ring<T>, log: seq<Event<T>>, p': Phase) returns (s': S.Ring<T>)
    requires log != [] && Served(ep, s, log, p')
    ensures Serve(ep, s, log[0]) == Some(s') && s'.xfers.Keys == s.xfers.Keys && log[0].t in s'.xfers
    ensures forall t :: t in s.xfers && t != log[0].t ==> s'.xfers[t] == s.xfers[t]
    ensures Agree(ep, s'.xfers[log[0].t], p', log[1..], log[0].t)
    ensures AttemptsAgree(ep, s'.attempts, log[1..])
  {
    hide Serve, Agree, AttemptsAgree;
    s' := Serve(ep, s, log[0]).value;
  }

  lemma AgreeStays<T>(ep: S.Endpoint, x: S.Xfer, p: Phase, log: seq<Event<T>>, t: T)
    requires log != [] && log[0].t != t && Agree(ep, x, p, log, t)
    ensures Agree(ep, x, p, log[1..], t)
  {}

  ghost predicate Served<T>(ep: S.Endpoint, s: S.Ring<T>, log: seq<Event<T>>, p': Phase)
    requires log != []
  {
    var e := log[0];
    var s' := Serve(ep, s, e);
    && s'.Some? && e.t in s'.value.xfers && e.t in s.xfers
    && s'.value.xfers == s.xfers[e.t := s'.value.xfers[e.t]]
    && Agree(ep, s'.value.xfers[e.t], p', log[1..], e.t)
    && AttemptsAgree(ep, s'.value.attempts, log[1..])
  }

  lemma OneCall<T>(ep: S.Endpoint, s: S.Ring<T>, log: seq<Event<T>>, p: Phase, p': Phase)
    requires log != [] && log[0].t in s.xfers && After(p, log[0].entry.call, log[0].entry.reply) == Some(p')
    requires Agree(ep, s.xfers[log[0].t], p, log, log[0].t) && AttemptsAgree(ep, s.attempts, log)
    ensures Served(ep, s, log, p')
  {
    hide Served;
    AttemptNext(ep, s.attempts, log);
    match log[0].entry.call {
      case Submit => SubmitServed(ep, s, log, p, p');
      case Wait => WaitServed(ep, s, log, p, p');
      case _ => OtherServed(ep, s, log, p, p');
    }
  }

  // What the endpoint says to the next attempt, and that the later ones follow.
  ghost predicate NextAttempt<T>(ep: S.Endpoint, attempts: nat, log: seq<Event<T>>)
    requires log != []
  {
    var e := log[0];
    if IsAttempt(e.entry) then
      && AttemptsAgree(ep, attempts + 1, log[1..])
      && ep.outcome(attempts) ==
           (if e.entry.reply.LibError? then S.Rejected(e.entry.reply.reason)
            else OutcomeOf(ep.size, NextReport(log[1..], e.t)))
    else AttemptsAgree(ep, attempts, log[1..])
  }

  lemma AttemptNext<T>(ep: S.Endpoint, attempts: nat, log: seq<Event<T>>)
    requires log != [] && AttemptsAgree(ep, attempts, log)
    ensures NextAttempt(ep, attempts, log)
  {
    var os, rest := Outcomes(ep.size, log), Outcomes(ep.size, log[1..]);
    if IsAttempt(log[0].entry) {
      assert ep.outcome(attempts + 0) == os[0];
      forall k: nat | k < |rest| ensures ep.outcome(attempts + 1 + k) == rest[k] {
        assert ep.outcome(attempts + (k + 1)) == os[k + 1];
      }
    }
  }

  lemma SubmitServed<T>(ep: S.Endpoint, s: S.Ring<T>, log: seq<Event<T>>, p: Phase, p': Phase)
    requires log != [] && log[0].t in s.xfers && After(p, Submit, log[0].entry.reply) == Some(p')
    requires log[0].entry.call == Submit
    requires Agree(ep, s.xfers[log[0].t], p, log, log[0].t) && NextAttempt(ep, s.attempts, log)
    ensures Served(ep, s, log, p')
  {
    hide AttemptsAgree;
    SameXfer(s, log[0].t);
  }

  lemma WaitServed<T>(ep: S.Endpoint, s: S.Ring<T>, log: seq<Event<T>>, p: Phase, p': Phase)
    requires log != [] && log[0].t in s.xfers && After(p, Wait, log[0].entry.reply) == Some(p')
    requires log[0].entry.call == Wait
    requires Agree(ep, s.xfers[log[0].t], p, log, log[0].t) && NextAttempt(ep, s.attempts, log)
    ensures Served(ep, s, log, p')
  {
    hide AttemptsAgree;
    SameXfer(s, log[0].t);
  }

  lemma OtherServed<T>(ep: S.Endpoint, s: S.Ring<T>, log: seq<Event<T>>, p: Phase, p': Phase)
    requires log != [] && log[0].t in s.xfers && After(p, log[0].entry.call, log[0].entry.reply) == Some(p')
    requires log[0].entry.call == Cancel || log[0].entry.call == Free
    requires Agree(ep, s.xfers[log[0].t], p, log, log[0].t) && NextAttempt(ep, s.attempts, log)
    ensures Served(ep, s, log, p')
  {
    hide AttemptsAgree;
    SameXfer(s, log[0].t);
  }

  lemma SameXfer<T>(s: S.Ring<T>, t: T)
    requires t in s.xfers
    ensures s.xfers[t := s.xfers[t]] == s.xfers
  {}

  // ---- the result ----

  lemma {:induction false} ServesFrom<T>(ep: S.Endpoint, s: S.Ring<T>, log: seq<Event<T>>, i: nat)
    requires i <= |log| && forall e :: e in log ==> e.t in s.xfers
    requires PhasesAgree(ep, s, log, i) && AttemptsAgree(ep, s.attempts, log[i..])
    requires forall t, j :: 0 <= j <= |log| ==> t in s.xfers ==> Replay(Of(log[..j], t)).Some?
    ensures ServeAll(ep, s, log[i..]).Some?
    decreases |log| - i
  {
    if i < |log| {
      assert log[i] in log && log[i..][0] == log[i] && log[i..][1..] == log[i + 1..];
      ServeKeeps(ep, s, log, i);
      hide PhasesAgree, AttemptsAgree, Serve, Replay, Of;
      ServesFrom(ep, Serve(ep, s, log[i]).value, log, i + 1);
    }
  }

  // A legal history has only legal beginnings.
  lemma {:induction false} LegalBefore<T>(log: seq<Event<T>>, t: T, j: nat)
    requires j <= |log| && Replay(Of(log, t)).Some?
    ensures Replay(Of(log[..j], t)).Some?
  {
    if j == |log| {
      assert log[..j] == log;
    } else {
      var init, e := log[..|log| - 1], log[|log| - 1];
      assert log == init + [e];
      OfNext(init, e, t);
      ReplayNext(Of(init, t), e.entry);
      LegalBefore(init, t, j);
      assert init[..j] == log[..j];
    }
  }

  // For every legal history of any transfers there is an endpoint on which the
  // transfers of a stream give the same replies, with the same counts, errors and
  // data; and if libusb kept to the size of the buffers, it is one the theorems
  // about streams speak about.
  lemma HistoryIsServed<T(!new)>(log: seq<Event<T>>, xfers: map<T, S.Xfer>, size: nat, inbound: bool)
    requires Legal(log)
    requires forall t :: t in xfers ==> xfers[t].Idle?
    requires forall e :: e in log ==> e.t in xfers
    ensures var ep := EndpointOf(size, inbound, log);
      && ep.size == size && ep.inbound == inbound
      && ServeAll(ep, S.NewRing([], xfers), log).Some?
      && (ReportsFit(log, size) ==> S.Bounded(ep))
  {
    var ep := EndpointOf(size, inbound, log);
    var s := S.NewRing([], xfers);
    assert log[..0] == [] && log[0..] == log;
    forall t, j | 0 <= j <= |log| && t in s.xfers ensures Replay(Of(log[..j], t)).Some? {
      LegalBefore(log, t, j);
    }
    ServesFrom(ep, s, log, 0);
    if ReportsFit(log, size) {
      OutcomesFit(log, size);
      forall k: nat ensures Fits(ep.outcome(k), size) {
        if k >= |Outcomes(size, log)| { assert Fits(OutcomeOf(size, None), size); }
      }
    }
  }

  ghost predicate ReportsFit<T>(log: seq<Event<T>>, size: nat) {
    forall e :: e in log && e.entry.reply.Result? ==>
      var r := e.entry.reply.report;
      |r.contents| == size && r.n <= size
  }

  predicate Fits(o: S.Outcome, size: nat) {
    o.Done? ==> |o.contents| == size && o.n <= size
  }

  lemma {:induction false} OutcomesFit<T>(log: seq<Event<T>>, size: nat)
    requires ReportsFit(log, size)
    ensures forall k :: 0 <= k < |Outcomes(size, log)| ==> Fits(Outcomes(size, log)[k], size)
    ensures forall t :: Fits(OutcomeOf(size, NextReport(log, t)), size)
    decreases |log|
  {
    if log != [] {
      assert log[0] in log;
      OutcomesFit(log[1..], size);
    }
  }

  // ---- the transfers of one stream ----

  // The part of a history that is about some of the transfers.
  ghost function Mine<T>(log: seq<Event<T>>, mine: set<T>): seq<Event<T>> {
    if log == [] then [] else
      var last := log[|log| - 1];
      Mine(log[..|log| - 1], mine) + (if last.t in mine then [last] else [])
  }

  lemma {:induction false} OfMine<T>(log: seq<Event<T>>, mine: set<T>, t: T)
    ensures Of(Mine(log, mine), t) == if t in mine then Of(log, t) else []
    ensures forall e :: e in Mine(log, mine) <==> e in log && e.t in mine
  {
    if log != [] {
      var init, last := log[..|log| - 1], log[|log| - 1];
      OfMine(init, mine, t);
      assert log == init + [last];
      OfNext(init, last, t);
      if last.t in mine { OfNext(Mine(init, mine), last, t); }
      else { assert Mine(init, mine) + [] == Mine(init, mine); }
    }
  }

  // So whatever happens in the protocol, in whatever order: for the transfers of
  // any one stream it is behaviour of the transfers that streams are proved about,
  // on an endpoint that answers these transfers only. That endpoint is as the
  // theorems assume if libusb kept to the buffers of these transfers, which may
  // have another size than those of other streams.
  lemma ProtocolIsServed(s: P.State, mine: set<P.Transfer>, blank: seq<byte>, inbound: bool)
    requires P.Reachable(s)
    ensures var log := Mine(s.log, mine);
      exists ep: S.Endpoint ::
        && ep.size == |blank| && ep.inbound == inbound
        && ServeAll(ep, S.NewRing([], map t | t in mine :: S.Idle(blank)), log).Some?
        && (ReportsFit(log, |blank|) ==> S.Bounded(ep))
    ensures forall t :: t in mine ==> Of(Mine(s.log, mine), t) == Of(s.log, t)
  {
    LogIsLegal(s);
    var log := Mine(s.log, mine);
    forall t: P.Transfer
      ensures Replay(Of(log, t)).Some? && (t in mine ==> Of(log, t) == Of(s.log, t))
      ensures forall e :: e in log ==> e.t in mine
    {
      OfMine(s.log, mine, t);
    }
    OfMine(s.log, mine, 0);
    HistoryIsServed(log, map t | t in mine :: S.Idle(blank), |blank|, inbound);
  }
}
