// Sequences of calls on the four classes are runs of ClaimSpec.
module ClaimRuns {
  import opened Base
  import opened Descriptors
  import opened ClaimSpec
  import opened ClaimTree

  type Step = Event<Device, Config, Interface>

  // ---- what the methods rely on ----

  // In an orderly tree every object is usable: libusb is given open handles only.
  lemma AllUsable(ctx: Context)
    requires ctx.Wired() && Inv(ctx.View())
    ensures forall d :: d in ctx.devs ==> d.Usable()
    ensures forall c :: c in ctx.cfgs ==> c.Usable()
    ensures forall i :: i in ctx.intfs && i.config != null ==> i.config.dev != null && i.config.Usable()
  {
    var t := ctx.View();
    forall d | d in ctx.devs ensures d.Usable() {
      assert t.devs[d] == d.View();
    }
    forall c | c in ctx.cfgs ensures c.Usable() {
      assert t.cfgs[c] == c.View();
      if c.dev != null { assert t.devs[c.dev] == c.dev.View(); }
    }
    forall i | i in ctx.intfs && i.config != null ensures i.config.dev != null {
      assert t.intfs[i] == i.View() && t.cfgs[i.config] == i.config.View();
    }
  }

  // Interface numbers as libusb's descriptors have them: a byte, and the same in
  // an interface and in its settings.
  predicate Numbers(c: ConfigDesc) {
    forall i, j :: 0 <= i < |c.interfaces| && 0 <= j < |c.interfaces[i].settings| ==>
      c.interfaces[i].settings[j].number == c.interfaces[i].number < 256
  }

  predicate Sane(d: DeviceDesc) {
    forall n :: n in d.configs ==> Numbers(d.configs[n])
  }

  lemma FoundNumber(c: ConfigDesc, num: int, alt: int, s: InterfaceSetting)
    requires Numbers(c) && Describes(c, num, alt, s)
    ensures s.number == num < 256
  {}

  // ---- the calls ----

  // What a client has got so far.
  datatype Known = Known(devs: seq<Device>, cfgs: seq<Config>, intfs: seq<Interface>)

  // A call on the k-th object of its kind, with libusb's answers.
  datatype Call =
    | Enumerate(list: Result<seq<Listed>>, opener: Opener)
    | Find(list: Result<seq<Listed>>, vid: nat, pid: nat)
    | Select(k: nat, num: int, detach: nat -> Option<Error>, active: Result<nat>, chosen: Option<Error>)
    | SelectDefault(k: nat, now: Result<nat>, detach: nat -> Option<Error>, active: Result<nat>,
                    chosen: Option<Error>, claim: Option<Error>, setAlt: Option<Error>)
    | Acquire(k: nat, num: int, alt: int, claim: Option<Error>, setAlt: Option<Error>)
    | EndIntf(k: nat)
    | EndCfg(k: nat)
    | EndDev(k: nat)
    | EndCtx(exit: Option<Error>)
    | ResetDev(k: nat, answer: Option<Error>)
    | AutoDetach(k: nat, on: bool, answer: Option<Error>)

  // libusb lists sane descriptors.
  predicate Plausible(call: Call) {
    var list := if call.Enumerate? || call.Find? then call.list else Ok([]);
    list.Ok? ==> forall l :: l in list.value && l.desc.Ok? ==> Sane(l.desc.value)
  }

  // What holds between two calls.
  ghost predicate Ready(ctx: Context, known: Known)
    reads ctx, ctx.lib, ctx.devs, ctx.cfgs, ctx.intfs
  {
    && ctx.Wired() && Inv(ctx.View())
    && (forall d :: d in ctx.devs ==> Sane(d.desc))
    && (forall c :: c in ctx.cfgs ==> Numbers(c.desc))
    && (forall d :: d in known.devs ==> d in ctx.devs)
    && (forall c :: c in known.cfgs ==> c in ctx.cfgs)
    && (forall i :: i in known.intfs ==> i in ctx.intfs)
  }

  // One call has made these steps.
  twostate predicate Made(ctx: Context, new known: Known, new evs: seq<Step>)
    reads ctx, ctx.lib, ctx.devs, ctx.cfgs, ctx.intfs
  {
    && Ready(ctx, known)
    && Possible(old(ctx.View()), evs) && ctx.View() == Run(old(ctx.View()), evs)
    && fresh(ctx.devs - old(ctx.devs)) && fresh(ctx.cfgs - old(ctx.cfgs)) && fresh(ctx.intfs - old(ctx.intfs))
  }

  method CallOpen(ctx: Context, known: Known, list: Result<seq<Listed>>, opener: Opener)
    returns (known': Known, ghost evs: seq<Step>)
    requires Ready(ctx, known) && Plausible(Enumerate(list, opener))
    requires list.Ok? ==> FreshHandles(list.value, ctx.lib.claims.Keys)
    modifies ctx, ctx.lib
    ensures Made(ctx, known', evs)
  {
    hide Possible, Run, Inv;
    var devs, err; ghost var steps;
    devs, err, steps := ctx.OpenDevices(list, opener);
    if ctx.open && list.Ok? { OpenedAreSane(list.value, opener, devs, steps); }
    RunKeeps(old(ctx.View()), steps);
    return known.(devs := known.devs + devs), steps;
  }

  lemma OpenedAreSane(list: seq<Listed>, opener: Opener, devs: seq<Device>, evs: seq<Step>)
    requires Plausible(Enumerate(Ok(list), opener)) && Opens(evs, devs, ToOpen(list, opener))
    ensures forall d :: d in devs ==> Sane(d.desc)
  {
    OpenedAreListed(list, opener);
    forall d | d in devs ensures Sane(d.desc) {
      var j :| 0 <= j < |devs| && devs[j] == d;
      assert ToOpen(list, opener)[j] in list;
    }
  }

  lemma {:induction false} OpenedAreListed(list: seq<Listed>, opener: Opener)
    ensures forall l :: l in ToOpen(list, opener) ==> l in list
  {
    if list != [] { OpenedAreListed(list[..|list| - 1], opener); }
  }

  method CallFind(ctx: Context, known: Known, list: Result<seq<Listed>>, vid: nat, pid: nat)
    returns (known': Known, ghost evs: seq<Step>)
    requires Ready(ctx, known) && Plausible(Find(list, vid, pid))
    requires list.Ok? ==> FreshHandles(list.value, ctx.lib.claims.Keys)
    modifies ctx, ctx.lib
    ensures Made(ctx, known', evs)
  {
    hide Possible, Run, Inv, Do, Can, Disciplined;
    ghost var before := ctx.View();
    var d, err; ghost var h;
    d, err, h := ctx.OpenDeviceWithVIDPID(list, vid, pid);
    if d == null {
      return known, NoStep(before);
    }
    assert Sane(d.desc) by {
      var k :| 0 <= k < |list.value| && FirstMatch(list.value, vid, pid, k) && d.desc == list.value[k].desc.value;
      assert list.value[k] in list.value;
    }
    var dev: Device := d;
    FreeSteps(before);
    return known.(devs := known.devs + [dev]), OneStep(before, Open(dev, h));
  }

  // Steps of a call.
  ghost function NoStep(t: World): (evs: seq<Step>)
    requires Inv(t)
    ensures Possible(t, evs) && Run(t, evs) == t
  {
    []
  }

  ghost function OneStep(t: World, e: Step): (evs: seq<Step>)
    requires Inv(t) && Can(t, e) && Disciplined(t, e)
    ensures Possible(t, evs) && Run(t, evs) == Do(t, e) && Inv(Do(t, e))
  {
    StepKeeps(t, e);
    StepRuns(t, e);
    [e]
  }

  // Which steps are disciplined anyway.
  lemma FreeSteps(t: World)
    ensures forall d, h :: Can(t, Open(d, h)) ==> Disciplined(t, Open(d, h))
    ensures forall i :: Can(t, CloseIntf(i)) ==> Disciplined(t, CloseIntf(i))
    ensures forall c :: Can(t, CloseCfg(c)) ==> Disciplined(t, CloseCfg(c))
    ensures forall d :: Can(t, CloseDev(d)) ==> Disciplined(t, CloseDev(d))
    ensures Can(t, CloseCtx) ==> Disciplined(t, CloseCtx)
  {}

  method CallSelect(ctx: Context, known: Known, d: Device, num: int, detach: nat -> Option<Error>,
                    active: Result<nat>, chosen: Option<Error>)
    returns (known': Known, ghost evs: seq<Step>)
    requires Ready(ctx, known) && d in ctx.devs && d.claimed == null
    modifies d, ctx, ctx.lib
    ensures Made(ctx, known', evs)
  {
    hide Possible, Run, Inv, Do, Can, Disciplined;
    ghost var before := ctx.View();
    AllUsable(ctx);
    var cfg, err := d.Config(num, detach, active, chosen);
    if cfg == null {
      return known, NoStep(before);
    }
    ClaimStarts(before, d, cfg);
    return known.(cfgs := known.cfgs + [cfg]), OneStep(before, Claim(d, cfg));
  }

  method CallDefault(ctx: Context, known: Known, d: Device, now: Result<nat>, detach: nat -> Option<Error>,
                     active: Result<nat>, chosen: Option<Error>, claim: Option<Error>, setAlt: Option<Error>)
    returns (known': Known, ghost evs: seq<Step>)
    requires Ready(ctx, known) && d in ctx.devs && d.claimed == null
    modifies d, ctx, ctx.lib
    ensures Made(ctx, known', evs)
  {
    hide Possible, Run, Inv, Do, Can, Disciplined;
    ghost var before := ctx.View();
    AllUsable(ctx);
    var intf, cfg, err; ghost var steps;
    intf, cfg, err, steps := d.DefaultInterface(now, detach, active, chosen, claim, setAlt);
    forall c | c in ctx.cfgs && c !in old(ctx.cfgs) ensures Numbers(c.desc) {
      var n :| n in d.desc.configs && d.desc.configs[n] == c.desc;
    }
    if intf == null {
      RunKeeps(before, steps);
      return known, steps;
    }
    FoundNumber(cfg.desc, 0, 0, intf.setting);
    DefaultRuns(before, d, cfg, intf, intf.setting.number);
    RunKeeps(before, steps);
    return known.(cfgs := known.cfgs + [cfg], intfs := known.intfs + [intf]), steps;
  }

  lemma DefaultRuns(t: World, d: Device, c: Config, i: Interface, number: nat)
    requires CanDefault(t, d, c, i, number) && t.devs[d].claimed.None? && number == 0
    ensures var evs := [Claim(d, c), Take(c, i, 0, number)];
      Possible(t, evs) && Run(t, evs) == Defaulted(t, d, c, i, number)
  {
    TwoEvents(t, Claim(d, c), Take(c, i, 0, number));
  }

  method CallAcquire(ctx: Context, known: Known, c: Config, num: int, alt: int,
                     claim: Option<Error>, setAlt: Option<Error>)
    returns (known': Known, ghost evs: seq<Step>)
    requires Ready(ctx, known) && c in ctx.cfgs
    modifies c, ctx, ctx.lib
    ensures Made(ctx, known', evs)
  {
    hide Possible, Run, Inv, Do, Can, Disciplined, Describes;
    ghost var before := ctx.View();
    AllUsable(ctx);
    var intf, err := c.Interface(num, alt, claim, setAlt);
    if intf == null {
      if num >= 256 {
        forall s ensures !Describes(c.desc, num, alt, s) {
          if Describes(c.desc, num, alt, s) { FoundNumber(c.desc, num, alt, s); }
        }
      }
      return known, NoStep(before);
    }
    FoundNumber(c.desc, num, alt, intf.setting);
    TakeIsDisciplined(before, c, intf, num);
    return known.(intfs := known.intfs + [intf]), OneStep(before, Take(c, intf, num, num));
  }

  lemma TakeIsDisciplined(t: World, c: Config, i: Interface, num: nat)
    requires Can(t, Take(c, i, num, num)) && num < 256
    ensures Disciplined(t, Take(c, i, num, num))
  {}

  method CallEndIntf(ctx: Context, known: Known, i: Interface) returns (known': Known, ghost evs: seq<Step>)
    requires Ready(ctx, known) && i in ctx.intfs
    modifies i, i.config, ctx.lib
    ensures Made(ctx, known', evs)
  {
    hide Possible, Run, Inv, Do, Can, Disciplined;
    ghost var before := ctx.View();
    ghost var was := i.config;
    AllUsable(ctx);
    FreeSteps(before);
    i.Close();
    return known, if was == null then NoStep(before) else OneStep(before, CloseIntf(i));
  }

  method CallEndCfg(ctx: Context, known: Known, c: Config) returns (known': Known, ghost evs: seq<Step>)
    requires Ready(ctx, known) && c in ctx.cfgs
    modifies c, c.dev
    ensures Made(ctx, known', evs)
  {
    hide Possible, Run, Inv, Do, Can, Disciplined;
    ghost var before := ctx.View();
    ghost var open := c.dev != null && c.claimed == {};
    FreeSteps(before);
    var _ := c.Close();
    return known, if open then OneStep(before, CloseCfg(c)) else NoStep(before);
  }

  method CallEndDev(ctx: Context, known: Known, d: Device) returns (known': Known, ghost evs: seq<Step>)
    requires Ready(ctx, known) && d in ctx.devs
    modifies d, ctx, ctx.lib
    ensures Made(ctx, known', evs)
  {
    hide Possible, Run, Inv, Do, Can, Disciplined;
    ghost var before := ctx.View();
    ghost var open := d.handle.Some? && d.claimed == null;
    AllUsable(ctx);
    FreeSteps(before);
    var _ := d.Close();
    return known, if open then OneStep(before, CloseDev(d)) else NoStep(before);
  }

  method CallEndCtx(ctx: Context, known: Known, exit: Option<Error>) returns (known': Known, ghost evs: seq<Step>)
    requires Ready(ctx, known)
    modifies ctx
    ensures Made(ctx, known', evs)
  {
    hide Possible, Run, Inv, Do, Can, Disciplined;
    ghost var before := ctx.View();
    ghost var open := ctx.open && Can(before, CloseCtx);
    FreeSteps(before);
    var _ := ctx.Close(exit);
    return known, if open then OneStep(before, CloseCtx) else NoStep(before);
  }

  method CallReset(ctx: Context, known: Known, d: Device, answer: Option<Error>)
    returns (known': Known, ghost evs: seq<Step>)
    requires Ready(ctx, known) && d in ctx.devs
    modifies ctx.lib
    ensures Made(ctx, known', evs)
  {
    hide Possible, Run, Inv;
    AllUsable(ctx);
    ghost var before := ctx.View();
    var _ := d.Reset(answer);
    return known, NoStep(before);
  }

  // From now on Config of this device asks libusb to detach kernel drivers.
  method CallAutoDetach(ctx: Context, known: Known, d: Device, on: bool, answer: Option<Error>)
    returns (known': Known, ghost evs: seq<Step>)
    requires Ready(ctx, known) && d in ctx.devs
    modifies d`autodetach, ctx.lib
    ensures Made(ctx, known', evs)
  {
    hide Possible, Run, Inv;
    ghost var before := ctx.View();
    AllUsable(ctx);
    var _ := d.SetAutoDetach(on, answer);
    return known, NoStep(before);
  }

  // One call. Calls on objects the client does not have, a call of Config or
  // DefaultInterface on a claimed device, and answers that libusb cannot give are
  // left out.
  method Apply(ctx: Context, known: Known, call: Call) returns (known': Known, ghost evs: seq<Step>)
    requires Ready(ctx, known) && Plausible(call)
    modifies ctx, ctx.lib, ctx.devs, ctx.cfgs, ctx.intfs
    ensures Made(ctx, known', evs)
  {
    hide Possible, Run, Inv, Do, Can, Disciplined, Numbers;
    known', evs := known, NoStep(ctx.View());
    match call {
      case Enumerate(list, opener) =>
        if list.Err? || FreshHandles(list.value, ctx.lib.claims.Keys) {
          known', evs := CallOpen(ctx, known, list, opener);
        }
      case Find(list, vid, pid) =>
        if list.Err? || FreshHandles(list.value, ctx.lib.claims.Keys) {
          known', evs := CallFind(ctx, known, list, vid, pid);
        }
      case EndCtx(exit) => known', evs := CallEndCtx(ctx, known, exit);
      case _ => known', evs := ApplyToKnown(ctx, known, call);
    }
  }

  method ApplyToKnown(ctx: Context, known: Known, call: Call) returns (known': Known, ghost evs: seq<Step>)
    requires Ready(ctx, known) && !call.Enumerate? && !call.Find? && !call.EndCtx?
    modifies ctx, ctx.lib, ctx.devs, ctx.cfgs, ctx.intfs
    ensures Made(ctx, known', evs)
  {
    hide Possible, Run, Inv, Do, Can, Disciplined, Numbers;
    known', evs := known, NoStep(ctx.View());
    match call {
      case Select(k, num, detach, active, chosen) =>
        if k < |known.devs| && known.devs[k].claimed == null {
          known', evs := CallSelect(ctx, known, known.devs[k], num, detach, active, chosen);
        }
      case SelectDefault(k, now, detach, active, chosen, claim, setAlt) =>
        if k < |known.devs| && known.devs[k].claimed == null {
          known', evs := CallDefault(ctx, known, known.devs[k], now, detach, active, chosen, claim, setAlt);
        }
      case Acquire(k, num, alt, claim, setAlt) =>
        if k < |known.cfgs| {
          known', evs := CallAcquire(ctx, known, known.cfgs[k], num, alt, claim, setAlt);
        }
      case EndIntf(k) =>
        if k < |known.intfs| { known', evs := CallEndIntf(ctx, known, known.intfs[k]); }
      case EndCfg(k) =>
        if k < |known.cfgs| { known', evs := CallEndCfg(ctx, known, known.cfgs[k]); }
      case EndDev(k) =>
        if k < |known.devs| { known', evs := CallEndDev(ctx, known, known.devs[k]); }
      case ResetDev(k, answer) =>
        if k < |known.devs| { known', evs := CallReset(ctx, known, known.devs[k], answer); }
      case AutoDetach(k, on, answer) =>
        if k < |known.devs| { known', evs := CallAutoDetach(ctx, known, known.devs[k], on, answer); }
    }
  }

  lemma {:induction false} RunConcat(t: World, a: seq<Step>, b: seq<Step>)
    requires Possible(t, a) && Possible(Run(t, a), b)
    ensures Possible(t, a + b) && Run(t, a + b) == Run(Run(t, a), b)
    decreases |a|
  {
    hide Do, Can, Disciplined;
    if a == [] {
      assert a + b == b;
    } else {
      RunConcat(Do(t, a[0]), a[1..], b);
      assert (a + b)[0] == a[0] && (a + b)[1..] == a[1..] + b;
    }
  }

  // Whatever a disciplined client does with a new context, the objects are in a
  // state the theorems speak about.
  method Drive(calls: seq<Call>) returns (ctx: Context, known: Known, ghost evs: seq<Step>)
    requires forall k :: 0 <= k < |calls| ==> Plausible(calls[k])
    ensures fresh(ctx) && Ready(ctx, known)
    ensures Possible(NewTree(), evs) && ctx.View() == Run(NewTree(), evs)
  {
    hide Possible, Run, Inv, Do, Numbers;
    ctx := new Context();
    NewTreeOk<Device, Config, Interface>();
    known, evs := Known([], [], []), NoStep(NewTree());
    for k := 0 to |calls|
      invariant fresh(ctx) && fresh(ctx.lib) && fresh(ctx.devs) && fresh(ctx.cfgs) && fresh(ctx.intfs)
      invariant Ready(ctx, known)
      invariant Possible(NewTree(), evs) && ctx.View() == Run(NewTree(), evs)
    {
      ghost var steps;
      known, steps := Apply(ctx, known, calls[k]);
      RunConcat(NewTree(), evs, steps);
      evs := evs + steps;
    }
  }
}
