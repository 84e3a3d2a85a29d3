// Context, Device, Config and Interface, the classes whose objects form the tree
// of claims. The answers of libusb are parameters of the calls. Every method is
// proved to make the step of ClaimSpec that its name says, or none at all.
module ClaimTree {
  import opened Base
  import opened Descriptors
  import opened DescriptorTheorems
  import opened ClaimSpec

  type World = Tree<Device, Config, Interface>

  lemma NoEvents(t: World)
    ensures Possible(t, []) && Run(t, []) == t
  {}

  function MaybeConfig(c: Config?): Option<Config> {
    if c == null then None else Some(c)
  }

  function MaybeDevice(d: Device?): Option<Device> {
    if d == null then None else Some(d)
  }

  // What libusb was told to do with a device, and did.
  datatype Command =
    | Detached(h: Handle, n: nat)
    | Configured(h: Handle, num: nat)
    | Selected(h: Handle, n: nat, alt: nat)
    | WasReset(h: Handle)
    | AutoDetach(h: Handle, on: bool)

  // libusb's own record: the open device handles and the interfaces claimed
  // through each, and the commands carried out. Every method needs a handle that
  // is open; `answer` is what libusb says.
  class Libusb {
    var claims: map<Handle, set<nat>>
    ghost var log: seq<Command>

    constructor ()
      ensures claims == map[] && log == []
    {
      claims, log := map[], [];
    }

    method OpenHandle(h: Handle)
      requires h !in claims
      modifies this`claims
      ensures claims == old(claims)[h := {}]
    {
      claims := claims[h := {}];
    }

    method CloseHandle(h: Handle)
      requires h in claims
      modifies this`claims
      ensures claims == old(claims) - {h}
    {
      claims := claims - {h};
    }

    method ClaimInterface(h: Handle, n: nat, answer: Option<Error>) returns (err: Option<Error>)
      requires h in claims
      modifies this`claims
      ensures err == answer
      ensures claims == if err.None? then old(claims)[h := old(claims)[h] + {n}] else old(claims)
    {
      if answer.None? {
        claims := claims[h := claims[h] + {n}];
      }
      return answer;
    }

    method Release(h: Handle, n: nat)
      requires h in claims
      modifies this`claims
      ensures claims == old(claims)[h := old(claims)[h] - {n}]
    {
      claims := claims[h := claims[h] - {n}];
    }

    // The other commands. Only a claimed interface can be switched.
    method Tell(c: Command, answer: Option<Error>) returns (err: Option<Error>)
      requires c.h in claims && (c.Selected? ==> c.n in claims[c.h])
      modifies this`log
      ensures err == answer
      ensures log == if err.None? then old(log) + [c] else old(log)
    {
      log := if answer.None? then log + [c] else log;
      return answer;
    }

    // How Config.Interface uses it: the setting is selected only if there are
    // several, and a claim is given up if that fails.
    method ClaimAndSet(h: Handle, n: nat, alt: nat, many: bool, claim: Option<Error>, setAlt: Option<Error>)
      returns (err: Option<Error>)
      requires h in claims
      modifies this
      ensures err == if claim.Some? || !many then claim else setAlt
      ensures claims ==
        if err.None? then old(claims)[h := old(claims)[h] + {n}]
        else if claim.Some? then old(claims)
        else old(claims)[h := old(claims)[h] - {n}]
      ensures log == if err.None? && many then old(log) + [Selected(h, n, alt)] else old(log)
    {
      ghost var taken := claims[h];
      err := ClaimInterface(h, n, claim);
      if err.None? && many {
        err := Tell(Selected(h, n, alt), setAlt);
        if err.Some? {
          Release(h, n);
          assert taken + {n} - {n} == taken - {n};
        }
      }
    }
  }

  // A device of libusb's list: its descriptor and the handle that opening it
  // gives.
  datatype Listed = Listed(desc: Result<DeviceDesc>, open: Result<Handle>)

  // The caller's opener. What a closure answers may depend on the descriptors it
  // was called with before.
  type Opener = (seq<DeviceDesc>, DeviceDesc) -> bool

  function Asked(list: seq<Listed>): seq<DeviceDesc> {
    if list == [] then [] else
      var last := list[|list| - 1];
      Asked(list[..|list| - 1]) + (if last.desc.Ok? then [last.desc.value] else [])
  }

  predicate Wanted(before: seq<Listed>, l: Listed, opener: Opener) {
    l.desc.Ok? && opener(Asked(before), l.desc.value)
  }

  // The devices to be opened, in order, and the error to be reported: the last
  // one met.
  function ToOpen(list: seq<Listed>, opener: Opener): seq<Listed> {
    if list == [] then [] else
      var before, last := list[..|list| - 1], list[|list| - 1];
      ToOpen(before, opener) + (if Wanted(before, last, opener) && last.open.Ok? then [last] else [])
  }

  function LastError(list: seq<Listed>, opener: Opener): Option<Error> {
    if list == [] then None else
      var before, last := list[..|list| - 1], list[|list| - 1];
      if last.desc.Err? then Some(last.desc.error)
      else if Wanted(before, last, opener) && last.open.Err? then Some(last.open.error)
      else LastError(before, opener)
  }

  function Detaches(h: Handle, ds: seq<InterfaceDesc>): seq<Command> {
    seq(|ds|, i requires 0 <= i < |ds| => Detached(h, ds[i].number % 256))
  }

  // The first interface whose driver cannot be detached, and why.
  predicate FirstAttached(ds: seq<InterfaceDesc>, detach: nat -> Option<Error>, i: nat, err: Option<Error>) {
    && i < |ds| && detach(ds[i].number % 256).Some? && err == detach(ds[i].number % 256)
    && forall j :: 0 <= j < i ==> detach(ds[j].number % 256).None?
  }

  // The opener is called with every descriptor there is, in order, ...
  lemma AskedIs(list: seq<Listed>, k: nat)
    requires k < |list|
    ensures Asked(list[..k + 1]) == Asked(list[..k]) + if list[k].desc.Ok? then [list[k].desc.value] else []
    ensures Asked(list[..0]) == []
  {
    assert list[..k + 1][..k] == list[..k];
  }

  // ... and exactly the devices it accepts and libusb can open are opened, in order.
  predicate Accepted(list: seq<Listed>, opener: Opener, k: nat)
    requires k < |list|
  {
    list[k].desc.Ok? && opener(Asked(list[..k]), list[k].desc.value) && list[k].open.Ok?
  }

  ghost predicate OpensAt(list: seq<Listed>, opener: Opener, ls: seq<Listed>, at: seq<nat>) {
    && |at| == |ls|
    && (forall j :: 0 <= j < |at| ==> at[j] < |list| && ls[j] == list[at[j]])
    && (forall i, j :: 0 <= i < j < |at| ==> at[i] < at[j])
    && (forall k :: 0 <= k < |list| ==> (k in at <==> Accepted(list, opener, k)))
  }

  lemma {:induction false} ToOpenIs(list: seq<Listed>, opener: Opener) returns (at: seq<nat>)
    ensures OpensAt(list, opener, ToOpen(list, opener), at)
  {
    if list == [] {
      return [];
    }
    hide OpensAt;
    var n := |list| - 1;
    at := ToOpenIs(list[..n], opener);
    OpensMore(list, opener, ToOpen(list[..n], opener), at);
    if Wanted(list[..n], list[n], opener) && list[n].open.Ok? {
      at := at + [n];
    }
  }

  lemma OpensMore(list: seq<Listed>, opener: Opener, ls: seq<Listed>, at: seq<nat>)
    requires list != [] && OpensAt(list[..|list| - 1], opener, ls, at)
    ensures var n := |list| - 1;
      if Accepted(list, opener, n) then OpensAt(list, opener, ls + [list[n]], at + [n])
      else OpensAt(list, opener, ls, at)
  {
    var n := |list| - 1;
    forall k | 0 <= k < n ensures Accepted(list[..n], opener, k) == Accepted(list, opener, k) {
      assert list[..n][..k] == list[..k];
    }
    hide Accepted;
    assert forall k :: k in at + [n] <==> k in at || k == n;
  }

  predicate Faulty(list: seq<Listed>, opener: Opener, k: nat, e: Error)
    requires k < |list|
  {
    if list[k].desc.Err? then e == list[k].desc.error
    else opener(Asked(list[..k]), list[k].desc.value) && list[k].open == Err(e)
  }

  // The error reported is the last one met, if any: of reading a descriptor, or of
  // opening a device that was accepted.
  lemma {:induction false} LastErrorIs(list: seq<Listed>, opener: Opener)
    ensures LastError(list, opener).None? <==> forall k, e :: 0 <= k < |list| ==> !Faulty(list, opener, k, e)
    ensures LastError(list, opener).Some? ==>
      exists k :: 0 <= k < |list| && Faulty(list, opener, k, LastError(list, opener).value)
        && forall j, e :: k < j < |list| ==> !Faulty(list, opener, j, e)
  {
    if list != [] {
      var n := |list| - 1;
      LastErrorIs(list[..n], opener);
      forall k, e | 0 <= k < n ensures Faulty(list[..n], opener, k, e) == Faulty(list, opener, k, e) {
        assert list[..n][..k] == list[..k];
      }
      if list[n].desc.Err? { assert Faulty(list, opener, n, list[n].desc.error); }
      else if Wanted(list[..n], list[n], opener) && list[n].open.Err? { assert Faulty(list, opener, n, list[n].open.error); }
    }
  }

  // The opener of OpenDeviceWithVIDPID: `found` is set by the first match.
  function PickFirst(vid: nat, pid: nat): Opener {
    (asked, desc) => (forall a :: a in asked ==> !Matches(a, vid, pid)) && Matches(desc, vid, pid)
  }

  predicate Matches(d: DeviceDesc, vid: nat, pid: nat) {
    d.vendor == vid && d.product == pid
  }

  predicate FirstMatch(list: seq<Listed>, vid: nat, pid: nat, k: nat)
    requires k < |list|
  {
    && list[k].desc.Ok? && list[k].desc.value.vendor == vid && list[k].desc.value.product == pid
    && forall j :: 0 <= j < k && list[j].desc.Ok? ==>
         list[j].desc.value.vendor != vid || list[j].desc.value.product != pid
  }

  lemma {:induction false} AskedAre(list: seq<Listed>, d: DeviceDesc)
    ensures d in Asked(list) <==> exists j :: 0 <= j < |list| && list[j].desc == Ok(d)
  {
    if list != [] {
      var init, last := list[..|list| - 1], list[|list| - 1];
      AskedAre(init, d);
      assert d in Asked(list) <==> d in Asked(init) || last.desc == Ok(d);
      hide Asked;
      assert list == init + [last];
    }
  }

  lemma WantedIsFirst(list: seq<Listed>, k: nat, vid: nat, pid: nat)
    requires k < |list|
    ensures Wanted(list[..k], list[k], PickFirst(vid, pid)) <==> FirstMatch(list, vid, pid, k)
  {
    var before := list[..k];
    if FirstMatch(list, vid, pid, k) {
      forall a | a in Asked(before) ensures !Matches(a, vid, pid) {
        AskedAre(before, a);
        var j :| 0 <= j < k && list[j].desc == Ok(a);
      }
    }
    if Wanted(before, list[k], PickFirst(vid, pid)) {
      forall j | 0 <= j < k && list[j].desc.Ok? ensures !Matches(list[j].desc.value, vid, pid) {
        assert before[j].desc == Ok(list[j].desc.value);
        AskedAre(before, list[j].desc.value);
      }
    }
  }

  lemma OneFirst(list: seq<Listed>, vid: nat, pid: nat, j: nat, k: nat)
    requires j < |list| && k < |list| && FirstMatch(list, vid, pid, j) && FirstMatch(list, vid, pid, k)
    ensures j == k
  {}

  // OpenDeviceWithVIDPID opens the first match or nothing: a match after one that
  // could not be opened is not tried.
  lemma OneToOpen(list: seq<Listed>, vid: nat, pid: nat)
    ensures var l := ToOpen(list, PickFirst(vid, pid));
      || (l == [] && forall k :: 0 <= k < |list| && FirstMatch(list, vid, pid, k) ==> list[k].open.Err?)
      || exists k :: 0 <= k < |list| && FirstMatch(list, vid, pid, k) && list[k].open.Ok? && l == [list[k]]
  {
    var pick := PickFirst(vid, pid);
    var at := ToOpenIs(list, pick);
    forall k | 0 <= k < |list|
      ensures k in at <==> FirstMatch(list, vid, pid, k) && list[k].open.Ok?
    {
      WantedIsFirst(list, k, vid, pid);
    }
    hide FirstMatch, PickFirst, Asked, ToOpen, Accepted;
    if |at| > 1 {
      assert at[0] in at && at[1] in at;
      OneFirst(list, vid, pid, at[0], at[1]);
    }
    if at != [] { assert at[0] in at; }
  }

  lemma StepRuns(t: World, e: Event<Device, Config, Interface>)
    requires Can(t, e) && Disciplined(t, e)
    ensures Possible(t, [e]) && Run(t, [e]) == Do(t, e)
  {
    hide Do, Can, Disciplined;
    assert [e][1..] == [];
    NoEvents(Do(t, e));
  }

  lemma TwoEvents(t: World, e: Event<Device, Config, Interface>, f: Event<Device, Config, Interface>)
    requires Can(t, e) && Disciplined(t, e) && Can(Do(t, e), f) && Disciplined(Do(t, e), f)
    ensures Possible(t, [e, f]) && Run(t, [e, f]) == Do(Do(t, e), f)
  {
    hide Do, Can, Disciplined;
    assert [e, f][1..] == [f];
    StepRuns(Do(t, e), f);
  }

  lemma OneEvent(t: World, e: Event<Device, Config, Interface>)
    requires Possible(t, [e])
    ensures Can(t, e) && Run(t, [e]) == Do(t, e)
  {}

  // libusb gives every opened device a handle of its own.
  predicate FreshHandles(list: seq<Listed>, used: set<Handle>) {
    && (forall k :: 0 <= k < |list| && list[k].open.Ok? ==> list[k].open.value !in used)
    && (forall j, k :: 0 <= j < k < |list| && list[j].open.Ok? && list[k].open.Ok? ==>
          list[j].open.value != list[k].open.value)
  }

  lemma NothingListed(opener: Opener)
    ensures ToOpen([], opener) == [] && Asked([]) == [] && LastError([], opener) == None
    ensures Opens([], [], [])
  {}

  lemma OpenIsDo(t: World, t': World, d: Device, h: Handle)
    requires t.open && d !in t.devs && h !in t.claims
    requires t'.devs == t.devs[d := Dev(Some(h), None)] && t'.cfgs == t.cfgs && t'.intfs == t.intfs
    requires t'.open == t.open && t'.devices == t.devices + {d} && t'.claims == t.claims[h := {}]
    ensures Can(t, Open(d, h)) && Disciplined(t, Open(d, h)) && t' == Do(t, Open(d, h))
  {}

  // One more device of the list.
  lemma ListedNext(list: seq<Listed>, k: nat, opener: Opener)
    requires k < |list|
    ensures var before, l := list[..k], list[k];
      var wanted := l.desc.Ok? && opener(Asked(before), l.desc.value);
      && Asked(list[..k + 1]) == (if l.desc.Ok? then Asked(before) + [l.desc.value] else Asked(before))
      && ToOpen(list[..k + 1], opener) == (if wanted && l.open.Ok? then ToOpen(before, opener) + [l] else ToOpen(before, opener))
      && LastError(list[..k + 1], opener) ==
           if l.desc.Err? then Some(l.desc.error)
           else if wanted && l.open.Err? then Some(l.open.error)
           else LastError(before, opener)
  {
    assert list[..k + 1][..k] == list[..k];
  }

  lemma FreshNext(list: seq<Listed>, k: nat, used: set<Handle>)
    requires k < |list| && FreshHandles(list[k..], used)
    ensures FreshHandles(list[k + 1..], used)
    ensures list[k].open.Ok? ==>
      list[k].open.value !in used && FreshHandles(list[k + 1..], used + {list[k].open.value})
  {
    var rest := list[k..];
    assert rest[0] == list[k] && rest[1..] == list[k + 1..];
    assert forall j :: 0 <= j < |rest[1..]| ==> rest[1..][j] == rest[j + 1];
  }

  lemma OpensNext(evs: seq<Event<Device, Config, Interface>>, devs: seq<Device>, ls: seq<Listed>,
                  d: Device, e: Event<Device, Config, Interface>, l: Listed)
    requires Opens(evs, devs, ls) && l.desc.Ok? && l.open.Ok?
    requires d.desc == l.desc.value && e == Open(d, l.open.value)
    ensures Opens(evs + [e], devs + [d], ls + [l])
  {}

  // The steps that open `devs` as the listed devices.
  ghost predicate Opens(evs: seq<Event<Device, Config, Interface>>, devs: seq<Device>, ls: seq<Listed>) {
    && |evs| == |devs| == |ls|
    && forall j :: 0 <= j < |ls| ==>
         && ls[j].desc.Ok? && ls[j].open.Ok?
         && devs[j].desc == ls[j].desc.value && evs[j] == Open(devs[j], ls[j].open.value)
  }

  // `open` is ctx != nil. The ghost sets hold every object created so far.
  class Context {
    const lib: Libusb
    var open: bool
    var devices: set<Device>
    ghost var devs: set<Device>
    ghost var cfgs: set<Config>
    ghost var intfs: set<Interface>

    constructor ()
      ensures Wired() && View() == NewTree() && fresh(lib) && devs == {} && cfgs == {} && intfs == {}
    {
      open, devices, devs, cfgs, intfs := true, {}, {}, {}, {};
      lib := new Libusb();
    }

    ghost function View(): World
      reads this, lib, devs, cfgs, intfs
    {
      Tree(open, devices,
           map d | d in devs :: d.View(),
           map c | c in cfgs :: c.View(),
           map i | i in intfs :: i.View(),
           lib.claims)
    }

    // The objects of a context belong to it.
    ghost predicate Wired()
      reads this, cfgs, intfs
    {
      && devices <= devs
      && (forall d :: d in devs ==> d.ctx == this)
      && (forall c :: c in cfgs ==> c.world == this && (c.dev != null ==> c.dev in devs))
      && (forall i :: i in intfs ==> i.world == this && (i.config != null ==> i.config in cfgs))
    }

    // Whether or not an error is reported, exactly the wanted devices that could
    // be opened are opened.
    method OpenDevices(list: Result<seq<Listed>>, opener: Opener)
      returns (devs: seq<Device>, err: Option<Error>, ghost evs: seq<Event<Device, Config, Interface>>)
      requires Wired()
      requires list.Ok? ==> FreshHandles(list.value, lib.claims.Keys)
      modifies this`devices, this`devs, lib
      ensures Wired()
      ensures !open ==> devs == [] && err == Some(Refused) && evs == []
      ensures open && list.Err? ==> devs == [] && err == Some(list.error) && evs == []
      ensures open && list.Ok? ==>
        && err == LastError(list.value, opener)
        && Opens(evs, devs, ToOpen(list.value, opener))
      ensures forall d :: d in devs ==> fresh(d)
      ensures this.devs == old(this.devs) + set d | d in devs
      ensures Possible(old(View()), evs) && View() == Run(old(View()), evs)
    {
      hide *;
      devs, err, evs := [], None, [];
      NothingListed(opener);
      NoEvents(View());
      if !open {
        return devs, Some(Refused), evs;
      }
      if list.Err? {
        return devs, Some(list.error), evs;
      }
      var asked := [];
      assert list.value[..0] == [] && list.value[0..] == list.value;
      for k := 0 to |list.value|
        invariant Wired() && open
        invariant err == LastError(list.value[..k], opener) && asked == Asked(list.value[..k])
        invariant Opens(evs, devs, ToOpen(list.value[..k], opener))
        invariant forall d :: d in devs ==> fresh(d)
        invariant this.devs == old(this.devs) + set d | d in devs
        invariant FreshHandles(list.value[k..], lib.claims.Keys)
        invariant Possible(old(View()), evs) && View() == Run(old(View()), evs)
      {
        var l := list.value[k];
        ListedNext(list.value, k, opener);
        FreshNext(list.value, k, lib.claims.Keys);
        if l.desc.Err? {
          err := Some(l.desc.error);
          continue;
        }
        asked := asked + [l.desc.value];
        if !opener(asked[..|asked| - 1], l.desc.value) {
          continue;
        }
        if l.open.Err? {
          err := Some(l.open.error);
          continue;
        }
        var d, e := OpenDevice(l.desc.value, l.open.value);
        RunAppend(old(View()), evs, e);
        OpensNext(evs, devs, ToOpen(list.value[..k], opener), d, e, l);
        devs, evs := devs + [d], evs + [e];
      }
      assert list.value[..|list.value|] == list.value;
    }

    // The first device with these ids, if it can be opened. At most one device is
    // opened, so none is left open behind the caller's back. An error is only
    // reported when there is no device.
    method OpenDeviceWithVIDPID(list: Result<seq<Listed>>, vid: nat, pid: nat)
      returns (d: Device?, err: Option<Error>, ghost h: Handle)
      requires Wired()
      requires list.Ok? ==> FreshHandles(list.value, lib.claims.Keys)
      modifies this`devices, this`devs, lib
      ensures Wired()
      ensures d == null ==> View() == old(View()) && devs == old(devs)
      ensures d != null ==>
        && err.None? && devs == old(devs) + {d} && fresh(d) && open && list.Ok?
        && Can(old(View()), Open(d, h)) && View() == Do(old(View()), Open(d, h))
        && exists k :: 0 <= k < |list.value| && FirstMatch(list.value, vid, pid, k)
             && list.value[k].open == Ok(h) && d.desc == list.value[k].desc.value
      ensures d != null ==> d.desc.vendor == vid && d.desc.product == pid
      ensures d == null ==>
        err == if !open then Some(Refused) else if list.Err? then Some(list.error)
               else LastError(list.value, PickFirst(vid, pid))
      ensures d == null && open && list.Ok? ==>
        forall k :: 0 <= k < |list.value| && FirstMatch(list.value, vid, pid, k) ==> list.value[k].open.Err?
    {
      hide LastError, FreshHandles;
      var devs; ghost var evs;
      h := 0;
      devs, err, evs := OpenDevices(list, PickFirst(vid, pid));
      if open && list.Ok? { OneToOpen(list.value, vid, pid); }
      NoEvents(old(View()));
      if |devs| == 0 {
        assert evs == [];
        return null, err, h;
      }
      ghost var k :| 0 <= k < |list.value| && FirstMatch(list.value, vid, pid, k)
        && ToOpen(list.value, PickFirst(vid, pid)) == [list.value[k]];
      h := list.value[k].open.value;
      assert evs == [Open(devs[0], h)];
      OneEvent(old(View()), Open(devs[0], h));
      return devs[0], None, h;
    }

    method OpenDevice(desc: DeviceDesc, h: Handle)
      returns (d: Device, ghost e: Event<Device, Config, Interface>)
      requires Wired() && open && h !in lib.claims
      modifies this`devices, this`devs, lib
      ensures Wired() && fresh(d) && d in devs && d.desc == desc && e == Open(d, h)
      ensures lib.claims.Keys == old(lib.claims.Keys) + {h} && devs == old(devs) + {d}
      ensures Can(old(View()), e) && Disciplined(old(View()), e) && View() == Do(old(View()), e)
    {
      hide Do, Can, Disciplined;
      ghost var before := View();
      lib.OpenHandle(h);
      d := new Device(this, desc, h);
      devices, devs := devices + {d}, devs + {d};
      e := Open(d, h);
      ghost var after := View();
      assert after.devs == before.devs[d := Dev(Some(h), None)];
      assert after.cfgs == before.cfgs && after.intfs == before.intfs;
      OpenIsDo(before, after, d, h);
    }

    // Refused while devices are open.
    method Close(exit: Option<Error>) returns (err: Option<Error>)
      requires Wired()
      modifies this`open
      ensures Wired()
      ensures !old(open) ==> err.None? && View() == old(View())
      ensures old(open) && !Can(old(View()), CloseCtx) ==> err == Some(Refused) && View() == old(View())
      ensures old(open) && Can(old(View()), CloseCtx) ==> err == exit && View() == Do(old(View()), CloseCtx)
      ensures open <==> old(open) && devices != {}
    {
      if !open {
        return None;
      }
      if |devices| > 0 {
        return Some(Refused);
      }
      open := false;
      return exit;
    }

    method CloseDevice(d: Device)
      requires d.handle.Some? && d.handle.value in lib.claims
      modifies this`devices, lib`claims
      ensures lib.claims == old(lib.claims) - {d.handle.value}
      ensures devices == old(devices) - {d}
    {
      lib.CloseHandle(d.handle.value);
      devices := devices - {d};
    }
  }

  class Device {
    const ctx: Context
    const desc: DeviceDesc
    var handle: Option<Handle>
    var claimed: Config?
    var autodetach: bool

    constructor (ctx: Context, desc: DeviceDesc, handle: Handle)
      ensures this.ctx == ctx && this.desc == desc
      ensures View() == Dev(Some(handle), None) && !autodetach
    {
      this.ctx, this.desc, this.handle := ctx, desc, Some(handle);
      claimed, autodetach := null, false;
    }

    ghost function View(): Dev<Config>
      reads this
    {
      Dev(handle, MaybeConfig(claimed))
    }

    // libusb is only ever given open handles.
    ghost predicate Usable()
      reads this, ctx, ctx.lib
    {
      this in ctx.devs && (handle.Some? ==> handle.value in ctx.lib.claims)
    }

    method Reset(answer: Option<Error>) returns (err: Option<Error>)
      requires Usable() && ctx.Wired()
      modifies ctx.lib`log
      ensures err == if handle.None? || claimed != null then Some(Refused) else answer
      ensures ctx.lib.log == if err.None? then old(ctx.lib.log) + [WasReset(handle.value)] else old(ctx.lib.log)
      ensures ctx.Wired() && ctx.View() == old(ctx.View())
    {
      if handle.None? {
        return Some(Refused);
      }
      if claimed != null {
        return Some(Refused);
      }
      err := ctx.lib.Tell(WasReset(handle.value), answer);
    }

    method ActiveConfigNum(answer: Result<nat>) returns (r: Result<nat>)
      requires Usable()
      ensures r == if handle.None? then Err(Refused) else answer
    {
      if handle.None? {
        return Err(Refused);
      }
      return answer;
    }

    method SetAutoDetach(autodetach: bool, answer: Option<Error>) returns (err: Option<Error>)
      requires Usable() && ctx.Wired()
      modifies this`autodetach, ctx.lib`log
      ensures err == if handle.None? then Some(Refused) else answer
      ensures this.autodetach == if handle.None? then old(this.autodetach) else autodetach
      ensures ctx.lib.log ==
        if err.None? then old(ctx.lib.log) + [AutoDetach(handle.value, autodetach)] else old(ctx.lib.log)
      ensures ctx.Wired() && ctx.View() == old(ctx.View())
    {
      if handle.None? {
        return Some(Refused);
      }
      this.autodetach := autodetach;
      err := ctx.lib.Tell(AutoDetach(handle.value, autodetach), answer);
    }

    // libusb agrees to detach the kernel drivers of these interfaces.
    ghost predicate Detachable(ds: seq<InterfaceDesc>, detach: nat -> Option<Error>) {
      forall i :: 0 <= i < |ds| ==> detach(ds[i].number % 256).None?
    }

    // An earlier claim does not keep Config from succeeding. A configuration that
    // is not the active one is selected.
    method Config(num: int, detach: nat -> Option<Error>, active: Result<nat>, chosen: Option<Error>)
      returns (cfg: Config?, err: Option<Error>)
      requires Usable() && ctx.Wired()
      modifies this`claimed, ctx`cfgs, ctx.lib`log
      ensures ctx.Wired()
      ensures cfg != null <==> err.None?
      ensures cfg != null <==>
        && handle.Some? && num in desc.configs
        && (autodetach ==> Detachable(desc.configs[num].interfaces, detach))
        && active.Ok? && (active.value == num || chosen.None?)
      ensures cfg == null ==> unchanged(this) && unchanged(ctx) && ctx.View() == old(ctx.View())
      ensures cfg != null ==>
        && fresh(cfg) && cfg.desc == desc.configs[num] && cfg.dev == this && cfg.claimed == {} && claimed == cfg
        && ctx.cfgs == old(ctx.cfgs) + {cfg}
        && Can(old(ctx.View()), Claim(this, cfg)) && ctx.View() == Do(old(ctx.View()), Claim(this, cfg))
        && ctx.lib.log == old(ctx.lib.log)
           + (if autodetach then Detaches(handle.value, cfg.desc.interfaces) else [])
           + (if active.value != num then [Configured(handle.value, num % 256)] else [])
      ensures err.Some? && (handle.None? || num !in desc.configs) ==> err == Some(Refused)
      ensures err.Some? && handle.Some? && num in desc.configs ==>
        if autodetach && !Detachable(desc.configs[num].interfaces, detach) then
          exists i :: FirstAttached(desc.configs[num].interfaces, detach, i, err)
        else if active.Err? then err == Some(active.error)
        else err == chosen
    {
      hide Do, Can, Context.Wired, Context.View, Detachable, FirstAttached, Detaches;
      err := Select(num, detach, active, chosen);
      if err.Some? {
        return null, err;
      }
      cfg := ClaimWith(desc.configs[num]);
    }

    // The part of Config that follows.
    method ClaimWith(c: ConfigDesc) returns (cfg: Config)
      requires Usable() && ctx.Wired() && handle.Some?
      modifies this`claimed, ctx`cfgs
      ensures ctx.Wired() && fresh(cfg) && cfg.desc == c && cfg.dev == this && cfg.claimed == {} && claimed == cfg
      ensures ctx.cfgs == old(ctx.cfgs) + {cfg}
      ensures Can(old(ctx.View()), Claim(this, cfg)) && ctx.View() == Do(old(ctx.View()), Claim(this, cfg))
    {
      ghost var before := ctx.View();
      cfg := new Config(ctx, c, this);
      ctx.cfgs := ctx.cfgs + {cfg};
      claimed := cfg;
      ghost var after := ctx.View();
      assert after.devs == before.devs[this := before.devs[this].(claimed := Some(cfg))];
      assert after.cfgs == before.cfgs[cfg := Cfg(Some(this), {})];
      assert after.intfs == before.intfs;
    }

    // The part of Config that talks to libusb.
    method Select(num: int, detach: nat -> Option<Error>, active: Result<nat>, chosen: Option<Error>)
      returns (err: Option<Error>)
      requires Usable() && ctx.Wired()
      modifies ctx.lib`log
      ensures ctx.Wired() && ctx.View() == old(ctx.View())
      ensures err.None? <==>
        && handle.Some? && num in desc.configs
        && (autodetach ==> Detachable(desc.configs[num].interfaces, detach))
        && active.Ok? && (active.value == num || chosen.None?)
      ensures err.None? ==>
        ctx.lib.log == old(ctx.lib.log)
          + (if autodetach then Detaches(handle.value, desc.configs[num].interfaces) else [])
          + (if active.value != num then [Configured(handle.value, num % 256)] else [])
      ensures err.Some? && (handle.None? || num !in desc.configs) ==> err == Some(Refused)
      ensures err.Some? && handle.Some? && num in desc.configs ==>
        if autodetach && !Detachable(desc.configs[num].interfaces, detach) then
          exists i :: FirstAttached(desc.configs[num].interfaces, detach, i, err)
        else if active.Err? then err == Some(active.error)
        else err == chosen
    {
      hide Context.Wired, Context.View, Detachable, FirstAttached, Detaches;
      if handle.None? {
        return Some(Refused);
      }
      if num !in desc.configs {
        return Some(Refused);
      }
      if autodetach {
        err := DetachAll(desc.configs[num].interfaces, detach);
        if err.Some? {
          return err;
        }
      }
      err := Activate(num, active, chosen);
    }

    method Activate(num: nat, active: Result<nat>, chosen: Option<Error>) returns (err: Option<Error>)
      requires Usable() && handle.Some? && ctx.Wired()
      modifies ctx.lib`log
      ensures err == if active.Err? then Some(active.error) else if active.value == num then None else chosen
      ensures err.None? ==>
        ctx.lib.log == old(ctx.lib.log) + if active.value != num then [Configured(handle.value, num % 256)] else []
      ensures ctx.Wired() && ctx.View() == old(ctx.View())
    {
      var now := ActiveConfigNum(active);
      if now.Err? {
        return Some(now.error);
      }
      if num != now.value {
        err := ctx.lib.Tell(Configured(handle.value, U8(num)), chosen);
        return err;
      }
      return None;
    }

    method DetachAll(ds: seq<InterfaceDesc>, detach: nat -> Option<Error>) returns (err: Option<Error>)
      requires Usable() && handle.Some? && ctx.Wired()
      modifies ctx.lib`log
      ensures ctx.Wired() && ctx.View() == old(ctx.View())
      ensures err.None? <==> Detachable(ds, detach)
      ensures err.None? ==> ctx.lib.log == old(ctx.lib.log) + Detaches(handle.value, ds)
      ensures err.Some? ==> exists i :: FirstAttached(ds, detach, i, err)
    {
      for i := 0 to |ds|
        invariant ctx.Wired() && ctx.View() == old(ctx.View())
        invariant Detachable(ds[..i], detach)
        invariant ctx.lib.log == old(ctx.lib.log) + Detaches(handle.value, ds[..i])
      {
        err := ctx.lib.Tell(Detached(handle.value, U8(ds[i].number)), detach(U8(ds[i].number)));
        if err.Some? {
          assert FirstAttached(ds, detach, i, err);
          return err;
        }
        assert Detaches(handle.value, ds[..i + 1]) ==
          Detaches(handle.value, ds[..i]) + [Detached(handle.value, U8(ds[i].number))];
      }
      assert ds[..|ds|] == ds;
      return None;
    }

    // Either a Config and the interface 0 in its setting 0 are claimed, or
    // nothing is left claimed. `evs` are the steps made.
    method DefaultInterface(active: Result<nat>, detach: nat -> Option<Error>, again: Result<nat>,
                            chosen: Option<Error>, claim: Option<Error>, setAlt: Option<Error>)
      returns (intf: Interface?, cfg: Config?, err: Option<Error>, ghost evs: seq<Event<Device, Config, Interface>>)
      requires Usable() && ctx.Wired()
      modifies this, ctx`cfgs, ctx`intfs, ctx.lib
      ensures ctx.Wired()
      ensures intf != null <==> err.None?
      ensures intf != null <==>
        && old(handle).Some? && active.Ok? && active.value in desc.configs
        && var c := desc.configs[active.value];
           && (old(autodetach) ==> Detachable(c.interfaces, detach))
           && again.Ok? && (again.value == active.value || chosen.None?)
           && (exists s :: Describes(c, 0, 0, s))
           && claim.None? && (Several(c, 0) ==> setAlt.None?)
      ensures intf != null ==>
        && cfg != null && fresh(cfg) && fresh(intf) && cfg in ctx.cfgs && intf in ctx.intfs && cfg.dev == this
        && active.Ok? && active.value in desc.configs
        && cfg.desc == desc.configs[active.value] && Describes(cfg.desc, 0, 0, intf.setting)
        && evs == [Claim(this, cfg), Take(cfg, intf, 0, intf.setting.number)]
        && CanDefault(old(ctx.View()), this, cfg, intf, intf.setting.number)
        && ctx.View() == Defaulted(old(ctx.View()), this, cfg, intf, intf.setting.number)
      ensures intf == null && Inv(old(ctx.View())) && old(claimed) == null ==>
        && claimed == null && ctx.lib.claims == old(ctx.lib.claims)
        && Possible(old(ctx.View()), evs) && ctx.View() == Run(old(ctx.View()), evs)
      // an earlier claim is forgotten if a Config was made, and stays otherwise
      ensures intf == null ==> claimed == if evs == [] then old(claimed) else null
      ensures forall c :: c in ctx.cfgs && c !in old(ctx.cfgs) ==> fresh(c) && c.desc in desc.configs.Values
      ensures forall i :: i in ctx.intfs && i !in old(ctx.intfs) ==> i == intf
      ensures old(ctx.cfgs) <= ctx.cfgs && old(ctx.intfs) <= ctx.intfs
    {
      hide Inv, Describes, Do, Can, Possible, Run, Disciplined, Detachable, FirstAttached, Detaches, Several;
      evs := [];
      ghost var before := ctx.View();
      NoEvents(before);
      var now := ActiveConfigNum(active);
      if now.Err? {
        return null, null, Some(now.error), evs;
      }
      cfg, err := Config(now.value, detach, again, chosen);
      if err.Some? {
        return null, null, err, evs;
      }
      intf, err, evs := TakeDefault(cfg, before, claim, setAlt);
      if err.Some? {
        return null, null, err, evs;
      }
    }

    // The part of DefaultInterface that follows.
    method TakeDefault(cfg: Config, ghost before: World, claim: Option<Error>, setAlt: Option<Error>)
      returns (intf: Interface?, err: Option<Error>, ghost evs: seq<Event<Device, Config, Interface>>)
      requires cfg.world == ctx && cfg.Usable() && ctx.Wired() && cfg.dev == this && cfg.claimed == {}
      requires this in before.devs && Can(before, Claim(this, cfg)) && ctx.View() == Do(before, Claim(this, cfg))
      modifies this, cfg, ctx`intfs, ctx.lib
      ensures ctx.Wired()
      ensures intf != null <==> err.None?
      ensures intf != null <==>
        (exists s :: Describes(cfg.desc, 0, 0, s)) && claim.None? && (Several(cfg.desc, 0) ==> setAlt.None?)
      ensures intf != null ==>
        && fresh(intf) && ctx.intfs == old(ctx.intfs) + {intf} && cfg.dev == this
        && Describes(cfg.desc, 0, 0, intf.setting)
        && evs == [Claim(this, cfg), Take(cfg, intf, 0, intf.setting.number)]
        && CanDefault(before, this, cfg, intf, intf.setting.number)
        && ctx.View() == Defaulted(before, this, cfg, intf, intf.setting.number)
      ensures intf == null ==>
        ctx.intfs == old(ctx.intfs) && claimed == null && evs == [Claim(this, cfg), CloseCfg(cfg)]
      ensures intf == null && Inv(before) && before.devs[this].claimed.None? ==>
        && ctx.lib.claims == before.claims
        && Possible(before, evs) && ctx.View() == Run(before, evs)
    {
      hide Inv, Describes, Do, Can, Possible, Run, Disciplined, Several;
      ghost var middle := ctx.View();
      ghost var e := Claim(this, cfg);
      ClaimStarts(before, this, cfg);
      intf, err := cfg.InterfaceOrClose(claim, setAlt);
      if err.Some? {
        evs := [e, CloseCfg(cfg)];
        if Inv(before) && before.devs[this].claimed.None? {
          ClosingIsDisciplined(middle, cfg);
          TwoEvents(before, e, CloseCfg(cfg));
        }
        return null, err, evs;
      }
      evs := [e, Take(cfg, intf, 0, intf.setting.number)];
    }

    // Refused while a Config is claimed; without effect the second time.
    method Close() returns (err: Option<Error>)
      requires Usable() && ctx.Wired()
      modifies this`handle, ctx`devices, ctx.lib
      ensures ctx.Wired()
      ensures err.None? <==> old(handle).None? || claimed == null
      ensures err.None? ==> handle.None? && (old(handle).Some? ==> old(handle).value !in ctx.lib.claims)
      ensures old(handle).None? || claimed != null ==> ctx.View() == old(ctx.View())
      ensures old(handle).Some? && claimed == null ==>
        Can(old(ctx.View()), CloseDev(this)) && ctx.View() == Do(old(ctx.View()), CloseDev(this))
    {
      if handle.None? {
        return None;
      }
      if claimed != null {
        return Some(Refused);
      }
      ctx.CloseDevice(this);
      handle := None;
      return None;
    }
  }

  class Config {
    ghost const world: Context
    const desc: ConfigDesc
    var dev: Device?
    var claimed: set<nat>

    constructor (ghost world: Context, desc: ConfigDesc, dev: Device)
      ensures this.world == world && this.desc == desc && View() == Cfg(Some(dev), {})
    {
      this.world, this.desc, this.dev := world, desc, dev;
      claimed := {};
    }

    ghost function View(): Cfg<Device>
      reads this
    {
      Cfg(MaybeDevice(dev), claimed)
    }

    // An open Config has a device with an open handle.
    ghost predicate Usable()
      reads this, world, world.lib, dev
    {
      this in world.cfgs && (dev != null ==> dev.handle.Some? && dev.handle.value in world.lib.claims)
    }

    // The call gets as far as asking libusb.
    ghost predicate CanAsk(num: int, alt: int)
      reads this
    {
      dev != null && num !in claimed && exists s :: Describes(desc, num, alt, s)
    }

    // The interface is claimed and its alternate setting selected, or nothing is
    // claimed.
    method Interface(num: int, alt: int, claim: Option<Error>, setAlt: Option<Error>)
      returns (intf: Interface?, err: Option<Error>)
      requires Usable() && world.Wired()
      modifies this`claimed, world`intfs, world.lib
      ensures world.Wired()
      ensures intf != null <==> err.None?
      ensures intf != null <==> old(CanAsk(num, alt)) && claim.None? && (Several(desc, num) ==> setAlt.None?)
      ensures intf == null ==>
        err == if !old(CanAsk(num, alt)) then Some(Refused) else if claim.Some? then claim else setAlt
      // the setting is selected if there are several
      ensures world.lib.log ==
        if intf != null && Several(desc, num)
        then old(world.lib.log) + [Selected(old(dev.handle.value), num % 256, alt % 256)]
        else old(world.lib.log)
      ensures intf == null ==> world.intfs == old(world.intfs) && claimed == old(claimed)
      ensures intf == null && num < 256 && Inv(old(world.View())) ==> world.View() == old(world.View())
      ensures !old(CanAsk(num, alt)) ==> world.View() == old(world.View())
      ensures intf != null ==>
        && fresh(intf) && world.intfs == old(world.intfs) + {intf} && claimed == old(claimed) + {num}
        && num >= 0 && Describes(desc, num, alt, intf.setting)
        && var e := Take(this, intf, num, intf.setting.number);
           Can(old(world.View()), e) && world.View() == Do(old(world.View()), e)
    {
      hide Inv, Describes;
      if dev == null {
        return null, Some(Refused);
      }
      var s, many := Lookup(desc, num, alt);
      if s.None? || num in claimed {
        return null, Some(Refused);
      }
      ghost var before := world.View();
      err := Acquire(num, alt, many, claim, setAlt);
      if err.Some? {
        if num < 256 && Inv(before) {
          NumberIsFree(before, this, num);
        }
        return null, err;
      }
      intf := Record(num, s.value);
    }

    // The part of Interface that follows.
    method Record(num: nat, s: InterfaceSetting) returns (intf: Interface)
      requires this in world.cfgs && world.Wired()
      modifies this`claimed, world`intfs
      ensures world.Wired() && fresh(intf) && intf.setting == s
      ensures world.intfs == old(world.intfs) + {intf} && claimed == old(claimed) + {num}
      ensures world.View() ==
        var t := old(world.View());
        t.(cfgs := t.cfgs[this := t.cfgs[this].(claimed := t.cfgs[this].claimed + {num})],
           intfs := t.intfs[intf := Intf(Some(this), s.number)])
    {
      ghost var before := world.View();
      claimed := claimed + {num};
      intf := new Interface(world, s, this);
      world.intfs := world.intfs + {intf};
      ghost var after := world.View();
      assert after.devs == before.devs;
      assert after.cfgs == before.cfgs[this := before.cfgs[this].(claimed := before.cfgs[this].claimed + {num})];
      assert after.intfs == before.intfs[intf := Intf(Some(this), s.number)];
    }

    // The part of Interface that talks to libusb.
    method Acquire(num: nat, alt: int, many: bool, claim: Option<Error>, setAlt: Option<Error>)
      returns (err: Option<Error>)
      requires Usable() && world.Wired() && dev != null && num !in claimed
      modifies world.lib
      ensures world.Wired() && world.View() == old(world.View()).(claims := world.lib.claims)
      ensures err == if claim.Some? || !many then claim else setAlt
      ensures world.lib.log ==
        if err.None? && many
        then old(world.lib.log) + [Selected(dev.handle.value, U8(num), U8(alt))]
        else old(world.lib.log)
      ensures var h, n := dev.handle.value, U8(num);
        world.lib.claims ==
          if err.None? then old(world.lib.claims)[h := old(world.lib.claims)[h] + {n}]
          else if claim.Some? then old(world.lib.claims)
          else old(world.lib.claims)[h := old(world.lib.claims)[h] - {n}]
    {
      err := dev.ctx.lib.ClaimAndSet(dev.handle.value, U8(num), U8(alt), many, claim, setAlt);
    }

    // The rest of DefaultInterface: claims interface 0, or closes the Config.
    method InterfaceOrClose(claim: Option<Error>, setAlt: Option<Error>)
      returns (intf: Interface?, err: Option<Error>)
      requires Usable() && world.Wired() && dev != null && claimed == {}
      modifies this, dev, world`intfs, world.lib
      ensures world.Wired()
      ensures intf != null <==> err.None?
      ensures intf != null <==>
        (exists s :: Describes(desc, 0, 0, s)) && claim.None? && (Several(desc, 0) ==> setAlt.None?)
      ensures intf != null ==>
        && fresh(intf) && world.intfs == old(world.intfs) + {intf}
        && dev == old(dev) && Describes(desc, 0, 0, intf.setting)
        && var e := Take(this, intf, 0, intf.setting.number);
           Can(old(world.View()), e) && world.View() == Do(old(world.View()), e)
      ensures intf == null ==> world.intfs == old(world.intfs) && old(dev).claimed == null
      ensures intf == null && Inv(old(world.View())) ==>
        && world.lib.claims == old(world.lib.claims)
        && Can(old(world.View()), CloseCfg(this)) && world.View() == Do(old(world.View()), CloseCfg(this))
    {
      hide Inv, Describes, Do, Can;
      intf, err := Interface(0, 0, claim, setAlt);
      if err.Some? {
        ghost var before := world.View();
        var _ := Close();
        CloseCfgClaims(before, this);
      }
    }

    // Refused while interfaces are claimed; without effect the second time.
    method Close() returns (err: Option<Error>)
      requires this in world.cfgs && world.Wired()
      modifies this`dev, dev
      ensures world.Wired()
      ensures err.None? <==> old(dev) == null || claimed == {}
      ensures err.None? ==> dev == null && (old(dev) != null ==> old(dev).claimed == null)
      ensures old(dev) == null || claimed != {} ==> world.View() == old(world.View())
      ensures old(dev) != null && claimed == {} ==>
        Can(old(world.View()), CloseCfg(this)) && world.View() == Do(old(world.View()), CloseCfg(this))
    {
      if dev == null {
        return None;
      }
      if |claimed| > 0 {
        return Some(Refused);
      }
      dev.claimed := null;
      dev := null;
      return None;
    }
  }

  method Lookup(c: ConfigDesc, num: int, alt: int) returns (s: Option<InterfaceSetting>, many: bool)
    ensures s.Some? ==> num >= 0 && Describes(c, num, alt, s.value)
    ensures s.None? ==> !exists s' :: Describes(c, num, alt, s')
    ensures many <==> Several(c, num)
  {
    var d := IntfDesc(c, num);
    if d.None? {
      return None, false;
    }
    s := AltSetting(d.value, alt);
    many := |d.value.settings| > 1;
  }

  ghost predicate CanDefault(t: World, d: Device, c: Config, i: Interface, number: nat) {
    Can(t, Claim(d, c)) && Can(Do(t, Claim(d, c)), Take(c, i, 0, number))
  }

  lemma CloseCfgClaims(t: World, c: Config)
    ensures Can(t, CloseCfg(c)) ==> Do(t, CloseCfg(c)).claims == t.claims
  {}

  // Claiming an unclaimed device is a disciplined step.
  lemma ClaimStarts(t: World, d: Device, c: Config)
    requires Can(t, Claim(d, c))
    ensures t.devs[d].claimed.None? ==> Disciplined(t, Claim(d, c)) && (Inv(t) ==> Inv(Do(t, Claim(d, c))))
    ensures Do(t, Claim(d, c)).claims == t.claims
  {
    if Inv(t) { ClaimKeeps(t, d, c); }
  }

  lemma ClosingIsDisciplined(t: World, c: Config)
    requires Can(t, CloseCfg(c))
    ensures Disciplined(t, CloseCfg(c))
  {}


  // The steps of a successful DefaultInterface.
  ghost function Defaulted(t: World, d: Device, c: Config, i: Interface, number: nat): World
    requires CanDefault(t, d, c, i, number)
  {
    Do(Do(t, Claim(d, c)), Take(c, i, 0, number))
  }

  // The interface with this number has more than one setting.
  ghost predicate Several(c: ConfigDesc, num: int) {
    exists i :: 0 <= i < |c.interfaces| && IsFirstInterface(c, num, i) && |c.interfaces[i].settings| > 1
  }

  // The setting that looking up these numbers gives.
  ghost predicate Describes(c: ConfigDesc, num: int, alt: int, s: InterfaceSetting) {
    exists i, j ::
      && 0 <= i < |c.interfaces| && 0 <= j < |c.interfaces[i].settings|
      && IsFirstInterface(c, num, i) && IsFirstSetting(c.interfaces[i], alt, j)
      && s == c.interfaces[i].settings[j]
  }

  class Interface {
    ghost const world: Context
    const setting: InterfaceSetting
    var config: Config?

    constructor (ghost world: Context, setting: InterfaceSetting, config: Config)
      ensures this.world == world && this.setting == setting && this.config == config
    {
      this.world, this.setting, this.config := world, setting, config;
    }

    ghost function View(): Intf<Config>
      reads this
    {
      Intf(MaybeConfig(config), setting.number)
    }

    method Close()
      requires this in world.intfs && world.Wired()
      requires config != null ==> config.dev != null && config.Usable()
      modifies this`config, config, world.lib
      ensures world.Wired() && config == null
      ensures old(config) != null ==>
        old(config).dev == old(config.dev) && old(config).claimed == old(config.claimed) - {setting.number}
      ensures old(config) == null ==> world.View() == old(world.View())
      ensures old(config) != null ==>
        Can(old(world.View()), CloseIntf(this)) && world.View() == Do(old(world.View()), CloseIntf(this))
    {
      if config == null {
        return;
      }
      ghost var before, c := world.View(), config;
      assert Can(before, CloseIntf(this));
      hide Do, Can;
      Unclaim();
      CloseIsDo(before, world.View(), this, c);
    }

    method Unclaim()
      requires this in world.intfs && world.Wired()
      requires config != null && config.dev != null && config.dev.handle.Some? && config.Usable()
      modifies this`config, config, world.lib
      ensures world.Wired() && config == null
      ensures old(config).dev == old(config.dev) && old(config).claimed == old(config.claimed) - {setting.number}
      ensures var t, c, h := old(world.View()), old(config), old(config.dev.handle.value);
        world.View() == t.(
          cfgs := t.cfgs[c := t.cfgs[c].(claimed := t.cfgs[c].claimed - {setting.number})],
          intfs := t.intfs[this := Intf(None, setting.number)],
          claims := t.claims[h := t.claims[h] - {U8(setting.number)}])
    {
      ghost var before, c := world.View(), config;
      config.dev.ctx.lib.Release(config.dev.handle.value, U8(setting.number));
      config.claimed := config.claimed - {setting.number};
      config := null;
      ghost var after := world.View();
      assert after.devs == before.devs;
      assert after.cfgs == before.cfgs[c := before.cfgs[c].(claimed := before.cfgs[c].claimed - {setting.number})];
      assert after.intfs == before.intfs[this := Intf(None, setting.number)];
    }
  }

  lemma CloseIsDo(t: World, t': World, i: Interface, c: Config)
    requires Can(t, CloseIntf(i)) && t.intfs[i].config == Some(c)
    requires t'.open == t.open && t'.devices == t.devices && t'.devs == t.devs
    requires t'.cfgs == t.cfgs[c := t.cfgs[c].(claimed := t.cfgs[c].claimed - {t.intfs[i].number})]
    requires t'.intfs == t.intfs[i := Intf(None, t.intfs[i].number)]
    requires var h := HandleOf(t, c);
      t'.claims == t.claims[h := t.claims[h] - {U8(t.intfs[i].number)}]
    ensures t' == Do(t, CloseIntf(i))
  {}

  // On descriptors with one entry for each interface number every setting carries
  // the number it is found under, as a disciplined Take demands.
  lemma TidyIsDisciplined(entries: seq<seq<RawSetting>>, c: ConfigDesc, num: int, alt: int, s: InterfaceSetting)
    requires Tidy(entries) && Interfaces(entries) == Some(c.interfaces) && Describes(c, num, alt, s)
    ensures s.number == num
  {
    TidyStays(entries);
    var i, j :| 0 <= i < |c.interfaces| && 0 <= j < |c.interfaces[i].settings|
      && IsFirstInterface(c, num, i) && s == c.interfaces[i].settings[j];
    assert c.interfaces[i] in c.interfaces && s in c.interfaces[i].settings;
  }

  // The `done` function that DefaultInterface returns.
  method Done(intf: Interface, cfg: Config)
    requires cfg.Usable() && cfg.world.Wired() && intf in cfg.world.intfs
    requires intf.config == null || intf.config == cfg
    requires intf.config == cfg ==> cfg.dev != null
    modifies intf, cfg, cfg.dev, cfg.world.lib
    ensures cfg.world.Wired() && intf.config == null
    ensures Inv(old(cfg.world.View())) ==> Inv(cfg.world.View())
    ensures old(cfg.claimed) <= {intf.setting.number} && (old(cfg.claimed) != {} ==> old(intf.config) == cfg) ==>
      && cfg.dev == null
      && (old(cfg.dev) != null ==> old(cfg.dev).claimed == null)
  {
    hide Inv, Do, Can;
    ghost var before := cfg.world.View();
    intf.Close();
    ghost var middle := cfg.world.View();
    if Inv(before) && middle != before { CloseIntfKeeps(before, intf); }
    var _ := cfg.Close();
    if Inv(middle) && cfg.world.View() != middle { CloseCfgKeeps(middle, cfg); }
  }
}
