// The tree of claims on values: which Device, Config and Interface objects are
// open and what libusb has claimed. ClaimTree.dfy shows that the methods of the
// four classes make these steps; here the invariant of the tree is proved for
// all sequences of steps.
module ClaimSpec {
  import opened Base

  type Handle = int

  // uint8(n)
  function U8(n: int): nat {
    n % 256
  }

  // The fields of the objects; None is nil. An Interface keeps the number its
  // setting carries.
  datatype Dev<+C> = Dev(handle: Option<Handle>, claimed: Option<C>)
  datatype Cfg<+D> = Cfg(dev: Option<D>, claimed: set<nat>)
  datatype Intf<+C> = Intf(config: Option<C>, number: nat)

  // `open` and `devices` belong to the context; devs, cfgs and intfs are all
  // objects that were ever created; claims is libusb's record of open handles
  // and the interfaces claimed through each.
  datatype Tree<!D, !C, !I> = Tree(
    open: bool,
    devices: set<D>,
    devs: map<D, Dev<C>>,
    cfgs: map<C, Cfg<D>>,
    intfs: map<I, Intf<C>>,
    claims: map<Handle, set<nat>>)

  // ---- the steps: what the calls do when they succeed ----

  datatype Event<+D, +C, +I> =
    | Open(d: D, h: Handle)
    | Claim(d: D, c: C)
    // interface `num` was asked for, and the setting found carries `number`
    | Take(c: C, i: I, num: nat, number: nat)
    | CloseIntf(i: I)
    | CloseCfg(c: C)
    | CloseDev(d: D)
    | CloseCtx

  // The device whose handle a Config uses.
  function DeviceOf<D, C, I>(t: Tree<D, C, I>, c: C): Option<D> {
    if c in t.cfgs then t.cfgs[c].dev else None
  }

  predicate HasHandle<D, C, I>(t: Tree<D, C, I>, d: D) {
    d in t.devs && t.devs[d].handle.Some? && t.devs[d].handle.value in t.claims
  }

  // The checks the code makes, and the non-nil handles it relies on. Claim has
  // no check for an earlier claim.
  predicate Can<D, C, I>(t: Tree<D, C, I>, e: Event<D, C, I>) {
    match e
    case Open(d, h) => t.open && d !in t.devs && h !in t.claims
    case Claim(d, c) => HasHandle(t, d) && c !in t.cfgs
    case Take(c, i, num, _) =>
      && DeviceOf(t, c).Some? && HasHandle(t, DeviceOf(t, c).value)
      && num !in t.cfgs[c].claimed && i !in t.intfs
    case CloseIntf(i) =>
      && i in t.intfs && t.intfs[i].config.Some?
      && DeviceOf(t, t.intfs[i].config.value).Some?
      && HasHandle(t, DeviceOf(t, t.intfs[i].config.value).value)
    case CloseCfg(c) => DeviceOf(t, c).Some? && DeviceOf(t, c).value in t.devs && t.cfgs[c].claimed == {}
    case CloseDev(d) => HasHandle(t, d) && t.devs[d].claimed.None?
    case CloseCtx => t.open && t.devices == {}
  }

  function HandleOf<D, C, I>(t: Tree<D, C, I>, c: C): Handle
    requires DeviceOf(t, c).Some? && HasHandle(t, DeviceOf(t, c).value)
  {
    t.devs[DeviceOf(t, c).value].handle.value
  }

  ghost function Do<D, C, I>(t: Tree<D, C, I>, e: Event<D, C, I>): Tree<D, C, I>
    requires Can(t, e)
  {
    match e
    case Open(d, h) =>
      t.(devices := t.devices + {d}, devs := t.devs[d := Dev(Some(h), None)], claims := t.claims[h := {}])
    case Claim(d, c) =>
      t.(devs := t.devs[d := t.devs[d].(claimed := Some(c))], cfgs := t.cfgs[c := Cfg(Some(d), {})])
    case Take(c, i, num, number) =>
      var h := HandleOf(t, c);
      t.(claims := t.claims[h := t.claims[h] + {U8(num)}],
         cfgs := t.cfgs[c := t.cfgs[c].(claimed := t.cfgs[c].claimed + {num})],
         intfs := t.intfs[i := Intf(Some(c), number)])
    case CloseIntf(i) =>
      var c, number := t.intfs[i].config.value, t.intfs[i].number;
      var h := HandleOf(t, c);
      t.(claims := t.claims[h := t.claims[h] - {U8(number)}],
         cfgs := t.cfgs[c := t.cfgs[c].(claimed := t.cfgs[c].claimed - {number})],
         intfs := t.intfs[i := Intf(None, number)])
    case CloseCfg(c) =>
      var d := t.cfgs[c].dev.value;
      t.(devs := t.devs[d := t.devs[d].(claimed := None)], cfgs := t.cfgs[c := t.cfgs[c].(dev := None)])
    case CloseDev(d) =>
      t.(devices := t.devices - {d}, devs := t.devs[d := Dev(None, None)], claims := t.claims - {t.devs[d].handle.value})
    case CloseCtx => t.(open := false)
  }

  // ---- the invariant ----

  // The devices of the context are those with a handle, each its own, and libusb
  // knows no other; a closed context has none.
  ghost predicate DevicesOk<D, C, I>(t: Tree<D, C, I>) {
    && (!t.open ==> t.devices == {})
    && (forall d :: d in t.devices ==> d in t.devs)
    && (forall d :: d in t.devs && t.devs[d].handle.Some? ==> d in t.devices)
    && (forall d :: d in t.devices ==> HasHandle(t, d))
    && (forall d, e :: d in t.devices && e in t.devices && t.devs[d].handle == t.devs[e].handle ==> d == e)
    && (forall h :: h in t.claims ==> Owned(t, h))
  }

  ghost predicate Owned<D, C, I>(t: Tree<D, C, I>, h: Handle) {
    exists d :: d in t.devices && d in t.devs && t.devs[d].handle == Some(h)
  }

  // Device.claimed and Config.dev point at each other.
  ghost predicate ConfigsOk<D, C, I>(t: Tree<D, C, I>) {
    && (forall d :: d in t.devs && t.devs[d].claimed.Some? ==>
          && d in t.devices && t.devs[d].claimed.value in t.cfgs
          && t.cfgs[t.devs[d].claimed.value].dev == Some(d))
    && (forall c :: c in t.cfgs && t.cfgs[c].dev.Some? ==>
          t.cfgs[c].dev.value in t.devs && t.devs[t.cfgs[c].dev.value].claimed == Some(c))
  }

  // The open Interfaces of a Config are those in its `claimed`, one for each.
  ghost predicate InterfacesOk<D, C, I>(t: Tree<D, C, I>) {
    && (forall i :: i in t.intfs && t.intfs[i].config.Some? ==>
          && DeviceOf(t, t.intfs[i].config.value).Some?
          && t.intfs[i].number in t.cfgs[t.intfs[i].config.value].claimed)
    && (forall i, j :: i in t.intfs && j in t.intfs && t.intfs[i].config.Some? && t.intfs[i] == t.intfs[j] ==> i == j)
    && (forall c, n :: c in t.cfgs && n in t.cfgs[c].claimed ==> Backed(t, c, n))
  }

  ghost predicate Backed<D, C, I>(t: Tree<D, C, I>, c: C, n: nat) {
    exists i :: i in t.intfs && t.intfs[i] == Intf(Some(c), n)
  }

  // What libusb has claimed on a device is what its Config says.
  ghost predicate Mirrored<D, C, I>(t: Tree<D, C, I>)
    requires DevicesOk(t) && ConfigsOk(t)
  {
    && (forall h, n :: h in t.claims && n in t.claims[h] ==> n < 256)
    && forall d :: d in t.devices ==>
      t.claims[t.devs[d].handle.value] ==
        if t.devs[d].claimed.None? then {} else t.cfgs[t.devs[d].claimed.value].claimed
  }

  ghost predicate Inv<D, C, I>(t: Tree<D, C, I>) {
    DevicesOk(t) && ConfigsOk(t) && InterfacesOk(t) && Mirrored(t)
  }

  // ---- every step keeps it ----

  lemma OpenDevices<D, C, I>(t: Tree<D, C, I>, d: D, h: Handle)
    requires DevicesOk(t) && Can(t, Open(d, h))
    ensures DevicesOk(Do(t, Open(d, h)))
  {
    var t' := Do(t, Open(d, h));
    assert t'.devs[d].handle == Some(h);
    forall g | g in t'.claims ensures Owned(t', g) {
      if g != h {
        assert Owned(t, g);
        var e :| e in t.devices && t.devs[e].handle == Some(g);
        assert e in t'.devices && t'.devs[e].handle == Some(g);
      }
    }
  }

  lemma OpenKeeps<D, C, I>(t: Tree<D, C, I>, d: D, h: Handle)
    requires Inv(t) && Can(t, Open(d, h))
    ensures Inv(Do(t, Open(d, h)))
  {
    var t' := Do(t, Open(d, h));
    OpenDevices(t, d, h);
    assert ConfigsOk(t') && Mirrored(t') by {
      hide InterfacesOk, Owned;
    }
    hide DevicesOk, ConfigsOk, Mirrored;
    SameBacking(t, t');
  }

  lemma SameBacking<D, C, I>(t: Tree<D, C, I>, t': Tree<D, C, I>)
    requires InterfacesOk(t) && t'.intfs == t.intfs
    requires forall c :: c in t.cfgs ==> c in t'.cfgs && t'.cfgs[c].claimed == t.cfgs[c].claimed
    requires forall c :: c in t'.cfgs && c !in t.cfgs ==> t'.cfgs[c].claimed == {}
    requires forall c :: c in t.cfgs && t.cfgs[c].claimed != {} ==> t'.cfgs[c].dev == t.cfgs[c].dev
    ensures InterfacesOk(t')
  {}

  // Claiming a device that is already claimed is exactly what breaks the tree:
  // the earlier Config stays open without being its device's claim.
  lemma ClaimConfigs<D, C, I>(t: Tree<D, C, I>, d: D, c: C)
    requires Inv(t) && Can(t, Claim(d, c)) && t.devs[d].claimed.None?
    ensures var t' := Do(t, Claim(d, c)); DevicesOk(t') && ConfigsOk(t') && Mirrored(t')
  {
    hide InterfacesOk, Owned;
    SameHandles(t, Do(t, Claim(d, c)));
  }

  lemma ClaimKeeps<D, C, I>(t: Tree<D, C, I>, d: D, c: C)
    requires Inv(t) && Can(t, Claim(d, c))
    ensures Inv(Do(t, Claim(d, c))) <==> t.devs[d].claimed.None?
  {
    var t' := Do(t, Claim(d, c));
    if t.devs[d].claimed.Some? {
      hide DevicesOk, InterfacesOk, Mirrored;
      var earlier := t.devs[d].claimed.value;
      assert t'.cfgs[earlier].dev == Some(d) && t'.devs[d].claimed == Some(c);
      assert !ConfigsOk(t');
    } else {
      ClaimConfigs(t, d, c);
      hide DevicesOk, ConfigsOk, Mirrored;
      SameBacking(t, t');
    }
  }

  lemma SameHandles<D, C, I>(t: Tree<D, C, I>, t': Tree<D, C, I>)
    requires DevicesOk(t) && t'.open == t.open && t'.devices == t.devices && t'.claims.Keys == t.claims.Keys
    requires t'.devs.Keys == t.devs.Keys && forall d :: d in t.devs ==> t'.devs[d].handle == t.devs[d].handle
    ensures DevicesOk(t')
  {}

  // The Interface must carry the number it was claimed under, and the number
  // must survive the conversion to a byte.
  lemma TakeKeeps<D, C, I>(t: Tree<D, C, I>, c: C, i: I, num: nat, number: nat)
    requires Inv(t) && Can(t, Take(c, i, num, number))
    ensures Inv(Do(t, Take(c, i, num, number))) <==> num < 256 && number == num
  {
    var t' := Do(t, Take(c, i, num, number));
    TakeMirrors(t, c, i, num, number);
    if number == num {
      TakeBacks(t, c, i, num);
    } else {
      TakeUnbacked(t, c, i, num, number);
    }
  }

  lemma TakeMirrors<D, C, I>(t: Tree<D, C, I>, c: C, i: I, num: nat, number: nat)
    requires Inv(t) && Can(t, Take(c, i, num, number))
    ensures var t' := Do(t, Take(c, i, num, number));
      DevicesOk(t') && ConfigsOk(t') && (Mirrored(t') <==> num < 256)
  {
    hide InterfacesOk, Owned;
    var t' := Do(t, Take(c, i, num, number));
    SameHandles(t, t');
    assert ConfigsOk(t');
    var d := DeviceOf(t, c).value;
    var h := HandleOf(t, c);
    assert d in t'.devices && t'.claims[h] == t.claims[h] + {U8(num)};
    assert t'.cfgs[c].claimed == t.cfgs[c].claimed + {num};
    if num >= 256 {
      assert num in t'.cfgs[c].claimed && num !in t'.claims[h];
    }
  }

  lemma TakeUnbacked<D, C, I>(t: Tree<D, C, I>, c: C, i: I, num: nat, number: nat)
    requires InterfacesOk(t) && Can(t, Take(c, i, num, number)) && number != num
    ensures !InterfacesOk(Do(t, Take(c, i, num, number)))
  {
    var t' := Do(t, Take(c, i, num, number));
    assert t'.intfs[i] == Intf(Some(c), number);
    if number in t.cfgs[c].claimed {
      assert Backed(t, c, number);
      var j :| j in t.intfs && t.intfs[j] == Intf(Some(c), number);
      assert t'.intfs[j] == t'.intfs[i] && i != j;
    }
  }

  lemma TakeBacks<D, C, I>(t: Tree<D, C, I>, c: C, i: I, num: nat)
    requires Inv(t) && Can(t, Take(c, i, num, num))
    ensures InterfacesOk(Do(t, Take(c, i, num, num)))
  {
    var t' := Do(t, Take(c, i, num, num));
    forall b, n | b in t'.cfgs && n in t'.cfgs[b].claimed ensures Backed(t', b, n) {
      if b == c && n == num {
        assert t'.intfs[i] == Intf(Some(b), n);
      } else {
        assert Backed(t, b, n);
        var j :| j in t.intfs && t.intfs[j] == Intf(Some(b), n);
        assert t'.intfs[j] == Intf(Some(b), n);
      }
    }
  }

  lemma CloseIntfKeeps<D, C, I>(t: Tree<D, C, I>, i: I)
    requires Inv(t) && Can(t, CloseIntf(i))
    ensures Inv(Do(t, CloseIntf(i)))
  {
    CloseIntfMirrors(t, i);
    CloseIntfBacks(t, i);
  }

  lemma CloseIntfMirrors<D, C, I>(t: Tree<D, C, I>, i: I)
    requires Inv(t) && Can(t, CloseIntf(i))
    ensures var t' := Do(t, CloseIntf(i)); DevicesOk(t') && ConfigsOk(t') && Mirrored(t')
  {
    hide Owned;
    var t' := Do(t, CloseIntf(i));
    SameHandles(t, t');
    assert ConfigsOk(t');
    assert U8(t.intfs[i].number) == t.intfs[i].number;
  }

  lemma CloseIntfBacks<D, C, I>(t: Tree<D, C, I>, i: I)
    requires InterfacesOk(t) && Can(t, CloseIntf(i))
    ensures InterfacesOk(Do(t, CloseIntf(i)))
  {
    var t' := Do(t, CloseIntf(i));
    forall b, n | b in t'.cfgs && n in t'.cfgs[b].claimed ensures Backed(t', b, n) {
      assert Backed(t, b, n);
      var j :| j in t.intfs && t.intfs[j] == Intf(Some(b), n);
      assert t'.intfs[j] == Intf(Some(b), n);
    }
  }

  lemma CloseCfgConfigs<D, C, I>(t: Tree<D, C, I>, c: C)
    requires Inv(t) && Can(t, CloseCfg(c))
    ensures var t' := Do(t, CloseCfg(c)); DevicesOk(t') && ConfigsOk(t') && Mirrored(t')
  {
    hide InterfacesOk, Owned;
    SameHandles(t, Do(t, CloseCfg(c)));
  }

  lemma CloseCfgKeeps<D, C, I>(t: Tree<D, C, I>, c: C)
    requires Inv(t) && Can(t, CloseCfg(c))
    ensures Inv(Do(t, CloseCfg(c)))
  {
    CloseCfgConfigs(t, c);
    hide DevicesOk, ConfigsOk, Mirrored;
    SameBacking(t, Do(t, CloseCfg(c)));
  }

  lemma CloseDevKeeps<D, C, I>(t: Tree<D, C, I>, d: D)
    requires Inv(t) && Can(t, CloseDev(d))
    ensures Inv(Do(t, CloseDev(d)))
  {
    var t' := Do(t, CloseDev(d));
    forall h | h in t'.claims ensures Owned(t', h) {
      assert Owned(t, h);
      var e :| e in t.devices && t.devs[e].handle == Some(h);
      assert e in t'.devices && t'.devs[e].handle == Some(h);
    }
    assert DevicesOk(t');
    assert ConfigsOk(t');
    SameBacking(t, t');
  }

  // A number a Config has not claimed is not claimed at libusb either, so that
  // releasing it after a failed setAlt takes nothing else away.
  lemma NumberIsFree<D, C, I>(t: Tree<D, C, I>, c: C, num: nat)
    requires Inv(t) && DeviceOf(t, c).Some? && HasHandle(t, DeviceOf(t, c).value)
    requires num < 256 && num !in t.cfgs[c].claimed
    ensures U8(num) !in t.claims[HandleOf(t, c)]
    ensures t.claims[HandleOf(t, c) := t.claims[HandleOf(t, c)] - {U8(num)}] == t.claims
  {
    var h := HandleOf(t, c);
    assert DeviceOf(t, c).value in t.devices;
    assert t.claims[h] - {U8(num)} == t.claims[h];
  }

  // ---- whole runs ----

  // What the caller and the descriptors owe: no second claim of a device, and
  // interface numbers as in libusb's descriptors.
  predicate Disciplined<D, C, I>(t: Tree<D, C, I>, e: Event<D, C, I>)
    requires Can(t, e)
  {
    match e
    case Claim(d, _) => t.devs[d].claimed.None?
    case Take(_, _, num, number) => num < 256 && number == num
    case _ => true
  }

  // A step keeps the tree in order exactly if it is disciplined.
  lemma StepKeeps<D, C, I>(t: Tree<D, C, I>, e: Event<D, C, I>)
    requires Inv(t) && Can(t, e)
    ensures Inv(Do(t, e)) <==> Disciplined(t, e)
  {
    hide Inv, Do;
    match e {
      case Open(d, h) => OpenKeeps(t, d, h);
      case Claim(d, c) => ClaimKeeps(t, d, c);
      case Take(c, i, num, number) => TakeKeeps(t, c, i, num, number);
      case CloseIntf(i) => CloseIntfKeeps(t, i);
      case CloseCfg(c) => CloseCfgKeeps(t, c);
      case CloseDev(d) => CloseDevKeeps(t, d);
      case CloseCtx => CloseCtxKeeps(t);
    }
  }

  lemma CloseCtxKeeps<D, C, I>(t: Tree<D, C, I>)
    requires Inv(t) && Can(t, CloseCtx)
    ensures Inv(Do(t, CloseCtx))
  {}

  ghost predicate Possible<D, C, I>(t: Tree<D, C, I>, run: seq<Event<D, C, I>>)
    decreases |run|
  {
    run == [] || (Can(t, run[0]) && Disciplined(t, run[0]) && Possible(Do(t, run[0]), run[1..]))
  }

  ghost function Run<D, C, I>(t: Tree<D, C, I>, run: seq<Event<D, C, I>>): Tree<D, C, I>
    requires Possible(t, run)
    decreases |run|
  {
    if run == [] then t else Run(Do(t, run[0]), run[1..])
  }

  lemma {:induction false} RunAppend<D, C, I>(t: Tree<D, C, I>, run: seq<Event<D, C, I>>, e: Event<D, C, I>)
    requires Possible(t, run) && Can(Run(t, run), e) && Disciplined(Run(t, run), e)
    ensures Possible(t, run + [e]) && Run(t, run + [e]) == Do(Run(t, run), e)
    decreases |run|
  {
    hide Do, Can, Disciplined;
    if run != [] {
      RunAppend(Do(t, run[0]), run[1..], e);
      assert (run + [e])[1..] == run[1..] + [e];
    } else {
      assert run + [e] == [e] && [e][1..] == [];
    }
  }

  function NewTree<D, C, I>(): Tree<D, C, I> {
    Tree(true, {}, map[], map[], map[], map[])
  }

  lemma {:induction false} RunKeeps<D, C, I>(t: Tree<D, C, I>, run: seq<Event<D, C, I>>)
    requires Inv(t) && Possible(t, run)
    ensures Inv(Run(t, run))
    decreases |run|
  {
    hide Inv, Do;
    if run != [] {
      StepKeeps(t, run[0]);
      RunKeeps(Do(t, run[0]), run[1..]);
    }
  }

  // After any disciplined run an open Interface has an open Config, that Config
  // is what its device is claimed by, the device has an open handle and belongs
  // to the context, the context is open, and libusb has the interface claimed on
  // that handle.
  lemma OpenInterfaceHolds<D, C, I>(run: seq<Event<D, C, I>>, i: I)
    requires Possible(NewTree(), run)
    ensures var t := Run(NewTree(), run);
      i in t.intfs && t.intfs[i].config.Some? ==>
        var c := t.intfs[i].config.value;
        && DeviceOf(t, c).Some?
        && var d := DeviceOf(t, c).value;
           && HasHandle(t, d) && t.devs[d].claimed == Some(c) && d in t.devices && t.open
           && t.intfs[i].number in t.claims[t.devs[d].handle.value]
  {
    RunKeeps<D, C, I>(NewTree(), run);
  }

  // So closing is possible only bottom-up: a Config can be closed exactly when
  // none of its Interfaces is open, a Device exactly when no Config of it is
  // open, the Context exactly when no Device is.
  lemma BottomUp<D, C, I>(run: seq<Event<D, C, I>>)
    requires Possible(NewTree(), run)
    ensures var t := Run(NewTree(), run);
      && (forall c :: c in t.cfgs && t.cfgs[c].dev.Some? ==>
            (Can(t, CloseCfg(c)) <==> !exists i :: i in t.intfs && t.intfs[i].config == Some(c)))
      && (forall d :: d in t.devs && t.devs[d].handle.Some? ==>
            (Can(t, CloseDev(d)) <==> !exists c :: c in t.cfgs && t.cfgs[c].dev == Some(d)))
      && (t.open ==> (Can(t, CloseCtx) <==> !exists d :: d in t.devs && t.devs[d].handle.Some?))
  {
    hide Inv;
    var t := Run(NewTree(), run);
    NewTreeOk<D, C, I>();
    RunKeeps<D, C, I>(NewTree(), run);
    forall c | c in t.cfgs && t.cfgs[c].dev.Some?
      ensures Can(t, CloseCfg(c)) <==> !exists i :: i in t.intfs && t.intfs[i].config == Some(c) {
      ConfigCloses(t, c);
    }
    forall d | d in t.devs && t.devs[d].handle.Some?
      ensures Can(t, CloseDev(d)) <==> !exists c :: c in t.cfgs && t.cfgs[c].dev == Some(d) {
      DeviceCloses(t, d);
    }
    if t.open { ContextCloses(t); }
  }

  lemma NewTreeOk<D, C, I>()
    ensures Inv(NewTree<D, C, I>())
  {}

  lemma ConfigCloses<D, C, I>(t: Tree<D, C, I>, c: C)
    requires Inv(t) && c in t.cfgs && t.cfgs[c].dev.Some?
    ensures Can(t, CloseCfg(c)) <==> !exists i :: i in t.intfs && t.intfs[i].config == Some(c)
  {}

  lemma DeviceCloses<D, C, I>(t: Tree<D, C, I>, d: D)
    requires Inv(t) && d in t.devs && t.devs[d].handle.Some?
    ensures Can(t, CloseDev(d)) <==> !exists c :: c in t.cfgs && t.cfgs[c].dev == Some(d)
  {}

  lemma ContextCloses<D, C, I>(t: Tree<D, C, I>)
    requires Inv(t) && t.open
    ensures Can(t, CloseCtx) <==> !exists d :: d in t.devs && t.devs[d].handle.Some?
  {}

  // libusb's claims on an open handle are the numbers of the Interfaces open on
  // that device, and there is at most one Interface for each.
  lemma ClaimsBalance<D, C, I>(run: seq<Event<D, C, I>>, d: D)
    requires Possible(NewTree(), run)
    ensures var t := Run(NewTree(), run);
      d in t.devs && t.devs[d].handle.Some? ==>
        && t.devs[d].handle.value in t.claims
        && (forall n :: n in t.claims[t.devs[d].handle.value] <==>
              exists i :: OpenOn(t, i, d) && t.intfs[i].number == n)
        && (forall i, j :: OpenOn(t, i, d) && OpenOn(t, j, d) && t.intfs[i].number == t.intfs[j].number ==>
              i == j)
  {
    var t := Run(NewTree(), run);
    RunKeeps<D, C, I>(NewTree(), run);
    if d in t.devs && t.devs[d].handle.Some? {
      forall n | n in t.claims[t.devs[d].handle.value]
        ensures exists i :: OpenOn(t, i, d) && t.intfs[i].number == n {
        assert Backed(t, t.devs[d].claimed.value, n);
      }
    }
  }

  predicate OpenOn<D, C, I>(t: Tree<D, C, I>, i: I, d: D) {
    i in t.intfs && t.intfs[i].config.Some? && DeviceOf(t, t.intfs[i].config.value) == Some(d)
  }

  // What goes wrong otherwise. With an Interface open, claim the device a second
  // time: now both the second Config and the device can be closed, and the
  // Interface is left without a handle, so that it cannot even be closed.
  lemma SecondClaim<D, C, I>(t: Tree<D, C, I>, d: D, c: C, i: I)
    requires Inv(t) && OpenOn(t, i, d) && Can(t, Claim(d, c))
    ensures var t1 := Do(t, Claim(d, c));
      && Can(t1, CloseCfg(c))
      && var t2 := Do(t1, CloseCfg(c));
         && Can(t2, CloseDev(d))
         && var t3 := Do(t2, CloseDev(d));
            t3.intfs[i].config.Some? && !Can(t3, CloseIntf(i))
  {
  }
}
