// What building a configuration descriptor guarantees.
module DescriptorTheorems {
  import opened Base
  import opened Descriptors

  function PairOf(r: RawSetting): Pair {
    (r.number, r.alternate)
  }

  predicate SameNumbers(r: RawSetting, q: RawSetting) {
    r.number == q.number && r.alternate == q.alternate
  }

  // No earlier setting of rs has the numbers of rs[k], nor has one of those seen
  // before.
  predicate New(seen: set<Pair>, rs: seq<RawSetting>, k: nat)
    requires k < |rs|
  {
    (rs[k].number, rs[k].alternate) !in seen && forall q :: 0 <= q < k ==> !SameNumbers(rs[q], rs[k])
  }

  lemma PairsMember(rs: seq<RawSetting>, p: Pair)
    ensures p in Pairs(rs) <==> exists q :: 0 <= q < |rs| && PairOf(rs[q]) == p
  {}

  // ---- one setting ----

  predicate LastWithAddress(ends: seq<EndpointDesc>, j: nat)
    requires j < |ends|
  {
    forall l :: j < l < |ends| ==> ends[l].address != ends[j].address
  }

  // Every address of an endpoint is there, with the last endpoint that has it.
  ghost predicate EndpointsOf(m: map<nat, EndpointDesc>, ends: seq<EndpointDesc>) {
    && (forall a :: a in m <==> exists j :: 0 <= j < |ends| && ends[j].address == a)
    && (forall j :: 0 <= j < |ends| && LastWithAddress(ends, j) ==> m[ends[j].address] == ends[j])
  }

  lemma {:induction false} EndpointMapIs(ends: seq<EndpointDesc>)
    ensures EndpointsOf(EndpointMap(ends), ends)
  {
    if ends != [] {
      var init, last := ends[..|ends| - 1], ends[|ends| - 1];
      EndpointMapIs(init);
      assert ends == init + [last];
      hide EndpointsOf;
      EndpointsMore(EndpointMap(init), init, last);
    }
  }

  lemma EndpointsMore(m: map<nat, EndpointDesc>, ends: seq<EndpointDesc>, last: EndpointDesc)
    requires EndpointsOf(m, ends)
    ensures EndpointsOf(m[last.address := last], ends + [last])
  {
    var m', ends' := m[last.address := last], ends + [last];
    forall a ensures a in m' <==> exists j :: 0 <= j < |ends'| && ends'[j].address == a {
      assert ends'[|ends|].address == last.address;
      if a in m {
        var j :| 0 <= j < |ends| && ends[j].address == a;
        assert ends'[j].address == a;
      }
    }
    forall j | 0 <= j < |ends'| && LastWithAddress(ends', j) ensures m'[ends'[j].address] == ends'[j] {
      if j < |ends| {
        assert ends'[|ends|].address != ends'[j].address;
        forall l | j < l < |ends| ensures ends[l].address != ends[j].address { assert ends'[l] == ends[l]; }
        assert LastWithAddress(ends, j);
      }
    }
  }

  // A kept setting has the numbers, the other fields and the endpoints of the one
  // it was made from.
  ghost predicate CopyOf(s: InterfaceSetting, r: RawSetting) {
    s.number == r.number && s.alternate == r.alternate && s.body == r.body && EndpointsOf(s.endpoints, r.ends)
  }

  lemma BuiltIsCopy(r: RawSetting)
    ensures CopyOf(Built(r), r)
  {
    EndpointMapIs(r.ends);
  }

  // ---- when it panics ----

  lemma {:induction false} NothingNew(seen: set<Pair>, rs: seq<RawSetting>)
    ensures Unseen(seen, rs) == [] <==> Pairs(rs) <= seen
  {
    if rs != [] {
      var init, last := rs[..|rs| - 1], rs[|rs| - 1];
      NothingNew(seen, init);
      PairsAppend(init, last);
      assert init + [last] == rs;
    }
  }

  // ---- what it keeps ----

  lemma Associates<T>(a: seq<T>, b: seq<T>, c: seq<T>)
    ensures a + (b + c) == a + b + c
  {}

  lemma {:induction false} UnseenConcat(seen: set<Pair>, a: seq<RawSetting>, b: seq<RawSetting>)
    ensures Unseen(seen, a + b) == Unseen(seen, a) + Unseen(seen + Pairs(a), b)
  {
    hide *;
    if b == [] {
      NothingUnseen(seen + Pairs(a));
      assert a + b == a;
      assert Unseen(seen, a) + [] == Unseen(seen, a);
    } else {
      var init, last := b[..|b| - 1], b[|b| - 1];
      UnseenConcat(seen, a, init);
      PairsConcat(a, init);
      UnseenNext(seen, a + init, last);
      UnseenNext(seen + Pairs(a), init, last);
      assert seen + (Pairs(a) + Pairs(init)) == seen + Pairs(a) + Pairs(init);
      Associates(a, init, [last]);
      assert b == init + [last];
      Associates(Unseen(seen, a), Unseen(seen + Pairs(a), init),
                 if (last.number, last.alternate) in seen + Pairs(a) + Pairs(init) then [] else [Built(last)]);
    }
  }

  lemma FlatAppend(ds: seq<InterfaceDesc>, d: InterfaceDesc)
    ensures Flat(Settings(ds + [d])) == Flat(Settings(ds)) + d.settings
  {
    assert Settings(ds + [d])[..|ds|] == Settings(ds);
  }

  // Nothing but repetitions is lost, nothing is added, and the order stays.
  lemma {:induction false} KeepsUnseen(entries: seq<seq<RawSetting>>)
    requires Interfaces(entries).Some?
    ensures Flat(Settings(Interfaces(entries).value)) == Unseen({}, Flat(entries))
  {
    if entries == [] {
      assert Settings([]) == [];
    } else {
      var before, entry := entries[..|entries| - 1], entries[|entries| - 1];
      hide Pairs;
      KeepsUnseen(before);
      UnseenConcat({}, Flat(before), entry);
      assert {} + Pairs(Flat(before)) == Pairs(Flat(before));
      var descs := Unseen(Pairs(Flat(before)), entry);
      if entry != [] {
        FlatAppend(Interfaces(before).value, InterfaceDesc(descs[0].number, descs));
      }
    }
  }

  // Where the kept settings come from: `at` lists, in order, all positions of rs
  // at which a pair of numbers occurs for the first time.
  ghost predicate FirstsAt(seen: set<Pair>, rs: seq<RawSetting>, at: seq<nat>) {
    && (forall j :: 0 <= j < |at| ==> at[j] < |rs| && New(seen, rs, at[j]))
    && (forall i, j :: 0 <= i < j < |at| ==> at[i] < at[j])
    && (forall k :: 0 <= k < |rs| && New(seen, rs, k) ==> k in at)
  }

  ghost predicate TakenFrom(rs: seq<RawSetting>, at: seq<nat>, kept: seq<InterfaceSetting>) {
    && |kept| == |at|
    && forall j :: 0 <= j < |at| ==> at[j] < |rs| && CopyOf(kept[j], rs[at[j]])
  }

  lemma {:induction false} KeepsFirsts(seen: set<Pair>, rs: seq<RawSetting>) returns (at: seq<nat>)
    ensures FirstsAt(seen, rs, at) && TakenFrom(rs, at, Unseen(seen, rs))
  {
    if rs == [] {
      return [];
    }
    hide *;
    var before := KeepsFirsts(seen, rs[..|rs| - 1]);
    at := MoreFirsts(seen, rs, before);
  }

  lemma MoreFirsts(seen: set<Pair>, rs: seq<RawSetting>, before: seq<nat>) returns (at: seq<nat>)
    requires rs != []
    requires FirstsAt(seen, rs[..|rs| - 1], before) && TakenFrom(rs[..|rs| - 1], before, Unseen(seen, rs[..|rs| - 1]))
    ensures FirstsAt(seen, rs, at) && TakenFrom(rs, at, Unseen(seen, rs))
  {
    hide *;
    var n := |rs| - 1;
    var init, last := rs[..n], rs[n];
    LastIsNew(seen, rs);
    OneMoreFirst(seen, rs, before);
    TakenFromMore(rs, before, Unseen(seen, init));
    UnseenLast(seen, rs);
    at := if New(seen, rs, n) then before + [n] else before;
  }

  lemma UnseenLast(seen: set<Pair>, rs: seq<RawSetting>)
    requires rs != []
    ensures var init, last := rs[..|rs| - 1], rs[|rs| - 1];
      Unseen(seen, rs) ==
        if PairOf(last) in seen + Pairs(init) then Unseen(seen, init) else Unseen(seen, init) + [Built(last)]
  {}

  lemma LastIsNew(seen: set<Pair>, rs: seq<RawSetting>)
    requires rs != []
    ensures New(seen, rs, |rs| - 1) <==> PairOf(rs[|rs| - 1]) !in seen + Pairs(rs[..|rs| - 1])
  {
    var init, last := rs[..|rs| - 1], rs[|rs| - 1];
    PairsMember(init, PairOf(last));
    assert forall q :: 0 <= q < |init| ==> (SameNumbers(rs[q], last) <==> PairOf(init[q]) == PairOf(last));
  }

  lemma SameNew(seen: set<Pair>, rs: seq<RawSetting>)
    requires rs != []
    ensures forall k :: 0 <= k < |rs| - 1 ==> (New(seen, rs, k) <==> New(seen, rs[..|rs| - 1], k))
  {}

  lemma OneMoreFirst(seen: set<Pair>, rs: seq<RawSetting>, before: seq<nat>)
    requires rs != [] && FirstsAt(seen, rs[..|rs| - 1], before)
    ensures FirstsAt(seen, rs, if New(seen, rs, |rs| - 1) then before + [|rs| - 1] else before)
  {
    SameNew(seen, rs);
    hide New;
    var n := |rs| - 1;
    if New(seen, rs, n) {
      assert forall k :: k in before + [n] <==> k in before || k == n;
    }
  }

  lemma TakenFromMore(rs: seq<RawSetting>, before: seq<nat>, kept: seq<InterfaceSetting>)
    requires rs != [] && TakenFrom(rs[..|rs| - 1], before, kept)
    ensures TakenFrom(rs, before, kept)
    ensures TakenFrom(rs, before + [|rs| - 1], kept + [Built(rs[|rs| - 1])])
  {
    BuiltIsCopy(rs[|rs| - 1]);
    hide CopyOf, Built;
  }

  // No setting of an entry before the e-th, and none before the k-th in it, has
  // the numbers of this one.
  predicate FirstOfAll(entries: seq<seq<RawSetting>>, e: nat, k: nat)
    requires e < |entries| && k < |entries[e]|
  {
    && (forall f, q :: 0 <= f < e && 0 <= q < |entries[f]| ==> !SameNumbers(entries[f][q], entries[e][k]))
    && (forall q :: 0 <= q < k ==> !SameNumbers(entries[e][q], entries[e][k]))
  }

  lemma {:induction false} FlatPairs(entries: seq<seq<RawSetting>>, r: RawSetting)
    ensures PairOf(r) in Pairs(Flat(entries)) <==>
      exists f, q :: 0 <= f < |entries| && 0 <= q < |entries[f]| && SameNumbers(entries[f][q], r)
  {
    if entries != [] {
      var n := |entries| - 1;
      FlatPairs(entries[..n], r);
      PairsConcat(Flat(entries[..n]), entries[n]);
      PairsMember(entries[n], PairOf(r));
      assert forall f :: 0 <= f < n ==> entries[..n][f] == entries[f];
      assert Flat(entries) == Flat(entries[..n]) + entries[n];
      hide Pairs, Flat;
      if q :| 0 <= q < |entries[n]| && PairOf(entries[n][q]) == PairOf(r) { assert SameNumbers(entries[n][q], r); }
    }
  }

  lemma NewIsFirstOfAll(entries: seq<seq<RawSetting>>, e: nat, k: nat)
    requires e < |entries| && k < |entries[e]|
    ensures New(Pairs(Flat(entries[..e])), entries[e], k) <==> FirstOfAll(entries, e, k)
  {
    FlatPairs(entries[..e], entries[e][k]);
    assert forall f :: 0 <= f < e ==> entries[..e][f] == entries[f];
    hide Pairs, Flat;
  }

  // An interface has the settings of one entry that no setting before them in the
  // descriptor has the numbers of, in order, and the number of the first of them.
  ghost predicate MadeFrom(entries: seq<seq<RawSetting>>, e: nat, d: InterfaceDesc, at: seq<nat>) {
    && e < |entries| && d.settings != [] && d.number == d.settings[0].number
    && TakenFrom(entries[e], at, d.settings)
    && (forall i, j :: 0 <= i < j < |at| ==> at[i] < at[j])
    && (forall k :: 0 <= k < |entries[e]| ==> (FirstOfAll(entries, e, k) <==> k in at))
  }

  ghost predicate Made(entries: seq<seq<RawSetting>>, e: nat, d: InterfaceDesc) {
    exists at :: MadeFrom(entries, e, d, at)
  }

  // The entries the interfaces are made from: all that are not empty, in order.
  ghost predicate AllMade(entries: seq<seq<RawSetting>>, ds: seq<InterfaceDesc>, from: seq<nat>) {
    && |ds| == |from|
    && (forall i, j :: 0 <= i < j < |from| ==> from[i] < from[j])
    && (forall e :: e in from <==> 0 <= e < |entries| && entries[e] != [])
    && (forall i :: 0 <= i < |ds| ==> Made(entries, from[i], ds[i]))
  }

  lemma InterfacesSnoc(entries: seq<seq<RawSetting>>)
    requires entries != [] && Interfaces(entries).Some?
    ensures var before, entry := entries[..|entries| - 1], entries[|entries| - 1];
      var descs := Unseen(Pairs(Flat(before)), entry);
      && Interfaces(before).Some?
      && (entry == [] ==> Interfaces(entries) == Interfaces(before))
      && (entry != [] ==>
            && descs != []
            && Interfaces(entries).value == Interfaces(before).value + [InterfaceDesc(descs[0].number, descs)])
  {
    hide Pairs, Flat, Unseen;
  }

  lemma LastMade(entries: seq<seq<RawSetting>>, d: InterfaceDesc)
    requires entries != []
    requires d.settings == Unseen(Pairs(Flat(entries[..|entries| - 1])), entries[|entries| - 1])
    requires d.settings != [] && d.number == d.settings[0].number
    ensures Made(entries, |entries| - 1, d)
  {
    var e := |entries| - 1;
    var seen := Pairs(Flat(entries[..e]));
    var at := KeepsFirsts(seen, entries[e]);
    forall k | 0 <= k < |entries[e]| ensures FirstOfAll(entries, e, k) <==> k in at {
      NewIsFirstOfAll(entries, e, k);
    }
    hide Unseen, Pairs, Flat, New, FirstOfAll, TakenFrom;
    assert MadeFrom(entries, e, d, at);
  }

  lemma MadeStays(entries: seq<seq<RawSetting>>, e: nat, d: InterfaceDesc)
    requires e < |entries| - 1 && Made(entries[..|entries| - 1], e, d)
    ensures Made(entries, e, d)
  {
    var before := entries[..|entries| - 1];
    var at :| MadeFrom(before, e, d, at);
    assert before[e] == entries[e];
    forall k | 0 <= k < |entries[e]| ensures FirstOfAll(entries, e, k) <==> FirstOfAll(before, e, k) {
      assert forall f :: 0 <= f < e ==> before[f] == entries[f];
    }
    hide FirstOfAll, TakenFrom;
    assert MadeFrom(entries, e, d, at);
  }

  lemma StillMade(entries: seq<seq<RawSetting>>, ds: seq<InterfaceDesc>, from: seq<nat>)
    requires entries != [] && AllMade(entries[..|entries| - 1], ds, from)
    ensures forall i :: 0 <= i < |ds| ==> from[i] < |entries| - 1 && Made(entries, from[i], ds[i])
  {
    hide Made;
    forall i | 0 <= i < |ds| ensures from[i] < |entries| - 1 && Made(entries, from[i], ds[i]) {
      assert from[i] in from;
      MadeStays(entries, from[i], ds[i]);
    }
  }

  lemma OneMoreMade(entries: seq<seq<RawSetting>>, ds: seq<InterfaceDesc>, from: seq<nat>, d: InterfaceDesc)
    requires entries != [] && AllMade(entries[..|entries| - 1], ds, from)
    ensures entries[|entries| - 1] == [] ==> AllMade(entries, ds, from)
    ensures entries[|entries| - 1] != [] && Made(entries, |entries| - 1, d) ==>
      AllMade(entries, ds + [d], from + [|entries| - 1])
  {
    StillMade(entries, ds, from);
    hide Made;
    var n := |entries| - 1;
    forall e ensures e in from <==> 0 <= e < n && entries[e] != [] {
      assert 0 <= e < n ==> entries[..n][e] == entries[e];
    }
    assert forall e :: e in from + [n] <==> e in from || e == n;
  }

  // The whole descriptor, if it is not rejected.
  lemma {:induction false} DescriptorIs(entries: seq<seq<RawSetting>>) returns (from: seq<nat>)
    requires Interfaces(entries).Some?
    ensures AllMade(entries, Interfaces(entries).value, from)
  {
    if entries == [] {
      return [];
    }
    hide *;
    var n := |entries| - 1;
    InterfacesSnoc(entries);
    from := DescriptorIs(entries[..n]);
    var ds := Interfaces(entries[..n]).value;
    if entries[n] == [] {
      OneMoreMade(entries, ds, from, InterfaceDesc(0, []));
    } else {
      var d := Interfaces(entries).value[|ds|];
      LastMade(entries, d);
      OneMoreMade(entries, ds, from, d);
      from := from + [n];
    }
  }

  // An entry that only repeats settings of the entries before it.
  predicate Redundant(entries: seq<seq<RawSetting>>, e: nat)
    requires e < |entries|
  {
    entries[e] != [] && forall k :: 0 <= k < |entries[e]| ==> !FirstOfAll(entries, e, k)
  }

  lemma RedundantIs(entries: seq<seq<RawSetting>>, e: nat)
    requires e < |entries|
    ensures Redundant(entries, e) <==> entries[e] != [] && Unseen(Pairs(Flat(entries[..e])), entries[e]) == []
  {
    var seen := Pairs(Flat(entries[..e]));
    var at := KeepsFirsts(seen, entries[e]);
    forall k | 0 <= k < |entries[e]| ensures FirstOfAll(entries, e, k) <==> k in at {
      NewIsFirstOfAll(entries, e, k);
    }
    hide Unseen, Pairs, Flat, New, FirstOfAll;
    assert at != [] ==> at[0] in at;
  }

  // The descriptor is rejected with an index out of range exactly if it has
  // such an entry.
  lemma {:induction false} PanicsExactly(entries: seq<seq<RawSetting>>)
    ensures Interfaces(entries).None? <==> exists e :: 0 <= e < |entries| && Redundant(entries, e)
  {
    if entries != [] {
      hide Pairs, Flat, Unseen, FirstOfAll;
      var n := |entries| - 1;
      var before := entries[..n];
      PanicsExactly(before);
      RedundantIs(entries, n);
      forall e | 0 <= e < n ensures Redundant(before, e) <==> Redundant(entries, e) {
        SameRedundant(entries, e);
      }
      assert Interfaces(entries).None? <==> Interfaces(before).None? || Redundant(entries, n);
    }
  }

  lemma SameRedundant(entries: seq<seq<RawSetting>>, e: nat)
    requires e < |entries| - 1
    ensures Redundant(entries[..|entries| - 1], e) <==> Redundant(entries, e)
  {
    var before := entries[..|entries| - 1];
    assert forall k :: 0 <= k < |entries[e]| ==> (FirstOfAll(entries, e, k) <==> FirstOfAll(before, e, k));
  }

  // In a descriptor that is not rejected every pair of numbers that was
  // enumerated is there exactly once.
  lemma EachPairOnce(entries: seq<seq<RawSetting>>)
    requires Interfaces(entries).Some?
    ensures var kept := Flat(Settings(Interfaces(entries).value));
      && BuiltPairs(kept) == Pairs(Flat(entries))
      && forall i, j :: 0 <= i < j < |kept| ==>
           (kept[i].number, kept[i].alternate) != (kept[j].number, kept[j].alternate)
  {
    hide EndpointsOf, Unseen, Interfaces;
    var rs := Flat(entries);
    var kept := Flat(Settings(Interfaces(entries).value));
    KeepsUnseen(entries);
    var at := KeepsFirsts({}, rs);
    forall p: Pair ensures p in BuiltPairs(kept) <==> p in Pairs(rs) {
      if p in BuiltPairs(kept) {
        var s :| s in kept && p == (s.number, s.alternate);
        var j :| 0 <= j < |kept| && kept[j] == s;
        assert rs[at[j]] in rs;
      }
      if p in Pairs(rs) {
        PairsMember(rs, p);
        var k := FirstWith(rs, p);
        var j :| 0 <= j < |at| && at[j] == k;
        assert kept[j] in kept;
      }
    }
  }

  lemma {:induction false} FirstWith(rs: seq<RawSetting>, p: Pair) returns (k: nat)
    requires exists q :: 0 <= q < |rs| && PairOf(rs[q]) == p
    ensures k < |rs| && PairOf(rs[k]) == p && New({}, rs, k)
  {
    var q :| 0 <= q < |rs| && PairOf(rs[q]) == p;
    k := 0;
    while PairOf(rs[k]) != p
      invariant k <= q && forall j :: 0 <= j < k ==> PairOf(rs[j]) != p
      decreases q - k
    {
      k := k + 1;
    }
  }

  // ---- lookups ----

  // ConfigDesc.intfDesc
  method IntfDesc(c: ConfigDesc, num: int) returns (d: Option<InterfaceDesc>)
    ensures d.Some? ==> exists i :: 0 <= i < |c.interfaces| && IsFirstInterface(c, num, i) && d.value == c.interfaces[i]
    ensures d.None? ==> forall i :: 0 <= i < |c.interfaces| ==> c.interfaces[i].number != num
  {
    for i := 0 to |c.interfaces|
      invariant forall j :: 0 <= j < i ==> c.interfaces[j].number != num
    {
      if c.interfaces[i].number == num {
        assert IsFirstInterface(c, num, i);
        return Some(c.interfaces[i]);
      }
    }
    return None;
  }

  // InterfaceDesc.altSetting
  method AltSetting(d: InterfaceDesc, alt: int) returns (s: Option<InterfaceSetting>)
    ensures s.Some? ==> exists j :: 0 <= j < |d.settings| && IsFirstSetting(d, alt, j) && s.value == d.settings[j]
    ensures s.None? ==> forall j :: 0 <= j < |d.settings| ==> d.settings[j].alternate != alt
  {
    for j := 0 to |d.settings|
      invariant forall k :: 0 <= k < j ==> d.settings[k].alternate != alt
    {
      if d.settings[j].alternate == alt {
        assert IsFirstSetting(d, alt, j);
        return Some(d.settings[j]);
      }
    }
    return None;
  }

  predicate IsFirstInterface(c: ConfigDesc, num: int, i: nat)
    requires i < |c.interfaces|
  {
    c.interfaces[i].number == num && forall j :: 0 <= j < i ==> c.interfaces[j].number != num
  }

  predicate IsFirstSetting(d: InterfaceDesc, alt: int, j: nat)
    requires j < |d.settings|
  {
    d.settings[j].alternate == alt && forall k :: 0 <= k < j ==> d.settings[k].alternate != alt
  }

  // An interface whose settings carry one number has at most one setting for an
  // alternate number.
  lemma SettingIsUnique(entries: seq<seq<RawSetting>>, i: nat, j: nat, k: nat)
    requires Interfaces(entries).Some? && i < |Interfaces(entries).value|
    requires var d := Interfaces(entries).value[i];
      j < k < |d.settings| && d.settings[j].number == d.settings[k].number
    ensures var d := Interfaces(entries).value[i];
      d.settings[j].alternate != d.settings[k].alternate
  {
    EachPairOnce(entries);
    var offset := FlatPart(Settings(Interfaces(entries).value), i);
    var kept := Flat(Settings(Interfaces(entries).value));
    assert kept[offset + j] == Interfaces(entries).value[i].settings[j];
    assert kept[offset + k] == Interfaces(entries).value[i].settings[k];
  }

  lemma {:induction false} FlatPart<T>(parts: seq<seq<T>>, i: nat) returns (offset: nat)
    requires i < |parts|
    ensures offset + |parts[i]| <= |Flat(parts)|
    ensures Flat(parts)[offset..offset + |parts[i]|] == parts[i]
  {
    var n := |parts| - 1;
    if i == n {
      return |Flat(parts[..n])|;
    }
    offset := FlatPart(parts[..n], i);
    assert Flat(parts)[..|Flat(parts[..n])|] == Flat(parts[..n]);
  }

  // As the USB specification demands: one entry for one interface number.
  predicate Tidy(entries: seq<seq<RawSetting>>) {
    forall e, f :: 0 <= e < |entries| && 0 <= f < |entries| ==> Apart(entries[e], entries[f], e == f)
  }

  predicate Apart(a: seq<RawSetting>, b: seq<RawSetting>, same: bool) {
    forall r, q :: r in a && q in b ==> (r.number == q.number <==> same)
  }

  // The settings of an interface carry its number, and interfaces differ in it.
  ghost predicate TidyInterfaces(ds: seq<InterfaceDesc>) {
    && (forall d :: d in ds ==> forall s :: s in d.settings ==> s.number == d.number)
    && (forall i, j :: 0 <= i < j < |ds| ==> ds[i].number != ds[j].number)
  }

  // Then the descriptor is accepted and just as tidy ...
  lemma {:induction false} TidyStays(entries: seq<seq<RawSetting>>)
    requires Tidy(entries)
    ensures Interfaces(entries).Some? && TidyInterfaces(Interfaces(entries).value)
    ensures NumbersAmong(Interfaces(entries).value, Flat(entries))
  {
    if entries != [] {
      var n := |entries| - 1;
      var before, entry := entries[..n], entries[n];
      TidyStays(before);
      TidyEntry(before, entry, Interfaces(before).value);
    }
  }

  ghost predicate NumbersAmong(ds: seq<InterfaceDesc>, rs: seq<RawSetting>) {
    forall d :: d in ds ==> exists r :: r in rs && r.number == d.number
  }

  lemma TidyEntry(before: seq<seq<RawSetting>>, entry: seq<RawSetting>, ds: seq<InterfaceDesc>)
    requires forall e :: 0 <= e < |before| ==> Apart(before[e], entry, false)
    requires Apart(entry, entry, true)
    requires TidyInterfaces(ds) && NumbersAmong(ds, Flat(before))
    ensures var next := AddEntry(Some(ds), Pairs(Flat(before)), entry);
      next.Some? && TidyInterfaces(next.value) && NumbersAmong(next.value, Flat(before) + entry)
  {
    hide Pairs, TidyInterfaces, Flat, NumbersAmong, Unseen;
    var seen := Pairs(Flat(before));
    ApartFromAll(before, entry);
    if entry == [] {
      assert Flat(before) + entry == Flat(before);
    } else {
      NothingNew(seen, entry);
      PairsMember(Flat(before), PairOf(entry[0]));
      PairsMember(entry, PairOf(entry[0]));
      var descs := Unseen(seen, entry);
      var d := InterfaceDesc(descs[0].number, descs);
      assert d.number == entry[0].number && forall s :: s in descs ==> s.number == d.number by {
        NumbersFrom(seen, entry, entry[0].number);
        assert descs[0] in descs;
      }
      assert entry[0] in entry;
      OneMoreTidy(ds, d, Flat(before), entry);
    }
  }

  lemma OneMoreTidy(ds: seq<InterfaceDesc>, d: InterfaceDesc, rs: seq<RawSetting>, entry: seq<RawSetting>)
    requires TidyInterfaces(ds) && NumbersAmong(ds, rs)
    requires forall s :: s in d.settings ==> s.number == d.number
    requires entry != [] && entry[0].number == d.number && Apart(rs, entry, false)
    ensures TidyInterfaces(ds + [d]) && NumbersAmong(ds + [d], rs + entry)
  {}

  lemma {:induction false} NumbersFrom(seen: set<Pair>, rs: seq<RawSetting>, n: nat)
    requires forall r :: r in rs ==> r.number == n
    ensures forall s :: s in Unseen(seen, rs) ==> s.number == n
  {
    if rs != [] { NumbersFrom(seen, rs[..|rs| - 1], n); }
  }

  lemma {:induction false} ApartFromAll(before: seq<seq<RawSetting>>, entry: seq<RawSetting>)
    requires forall e :: 0 <= e < |before| ==> Apart(before[e], entry, false)
    ensures Apart(Flat(before), entry, false)
  {
    if before != [] { ApartFromAll(before[..|before| - 1], entry); }
  }

  // ... and looking up the numbers of any enumerated setting finds the first
  // setting that was enumerated with them.
  lemma LookupFindsFirst(c: ConfigDesc, entries: seq<seq<RawSetting>>, k: nat)
    requires Tidy(entries) && Interfaces(entries) == Some(c.interfaces)
    requires k < |Flat(entries)| && New({}, Flat(entries), k)
    ensures var raw := Flat(entries)[k];
      exists i, j :: 0 <= i < |c.interfaces| && 0 <= j < |c.interfaces[i].settings|
        && IsFirstInterface(c, raw.number, i)
        && IsFirstSetting(c.interfaces[i], raw.alternate, j)
        && CopyOf(c.interfaces[i].settings[j], raw)
  {
    var raw := Flat(entries)[k];
    TidyStays(entries);
    KeepsUnseen(entries);
    var at := KeepsFirsts({}, Flat(entries));
    var m :| 0 <= m < |at| && at[m] == k;
    var parts := Settings(c.interfaces);
    assert CopyOf(Flat(parts)[m], raw);
    var i, j := WhichPart(parts, m);
    var d := c.interfaces[i];
    assert d in c.interfaces && d.settings[j] in d.settings;
    assert IsFirstInterface(c, raw.number, i);
    forall l | 0 <= l < j ensures d.settings[l].alternate != raw.alternate {
      assert d.settings[l] in d.settings;
      SettingIsUnique(entries, i, l, j);
    }
    assert IsFirstSetting(d, raw.alternate, j);
  }

  lemma {:induction false} WhichPart<T>(parts: seq<seq<T>>, m: nat) returns (i: nat, j: nat)
    requires m < |Flat(parts)|
    ensures i < |parts| && j < |parts[i]| && parts[i][j] == Flat(parts)[m]
  {
    var n := |parts| - 1;
    var before := Flat(parts[..n]);
    if m < |before| {
      i, j := WhichPart(parts[..n], m);
    } else {
      i, j := n, m - |before|;
    }
  }
}
