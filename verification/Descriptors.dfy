// Configuration descriptors: building them from what libusb enumerates, dropping
// settings that appear twice, and looking interfaces and settings up in them.
module Descriptors {
  import opened Base

  // `body` stands for the fields that are only copied.
  datatype EndpointDesc = EndpointDesc(address: nat, body: int)

  datatype RawSetting = RawSetting(number: nat, alternate: nat, body: int, ends: seq<EndpointDesc>)

  datatype InterfaceSetting = InterfaceSetting(number: nat, alternate: nat, body: int, endpoints: map<nat, EndpointDesc>)

  datatype InterfaceDesc = InterfaceDesc(number: nat, settings: seq<InterfaceSetting>)

  datatype ConfigDesc = ConfigDesc(number: nat, interfaces: seq<InterfaceDesc>)

  datatype DeviceDesc = DeviceDesc(vendor: nat, product: nat, configs: map<nat, ConfigDesc>)

  // An interface number with an alternate setting number.
  type Pair = (nat, nat)

  function EndpointMap(ends: seq<EndpointDesc>): map<nat, EndpointDesc> {
    if ends == [] then map[] else
      var last := ends[|ends| - 1];
      EndpointMap(ends[..|ends| - 1])[last.address := last]
  }

  function Built(r: RawSetting): InterfaceSetting {
    InterfaceSetting(r.number, r.alternate, r.body, EndpointMap(r.ends))
  }

  // ---- what is to be built ----

  // All settings in the order of the descriptor.
  function Flat<T>(entries: seq<seq<T>>): seq<T> {
    if entries == [] then [] else Flat(entries[..|entries| - 1]) + entries[|entries| - 1]
  }

  function Pairs(rs: seq<RawSetting>): set<Pair> {
    set r | r in rs :: (r.number, r.alternate)
  }

  function BuiltPairs(ss: seq<InterfaceSetting>): set<Pair> {
    set s | s in ss :: (s.number, s.alternate)
  }

  // The settings of rs that repeat neither an earlier one nor one of `seen`.
  function Unseen(seen: set<Pair>, rs: seq<RawSetting>): seq<InterfaceSetting> {
    if rs == [] then [] else
      var init, last := rs[..|rs| - 1], rs[|rs| - 1];
      Unseen(seen, init)
      + (if (last.number, last.alternate) in seen + Pairs(init) then [] else [Built(last)])
  }

  function Settings(ds: seq<InterfaceDesc>): seq<seq<InterfaceSetting>> {
    seq(|ds|, i requires 0 <= i < |ds| => ds[i].settings)
  }

  // What the built interfaces are: one for each non-empty entry, with the
  // settings no earlier entry had.
  function Interfaces(entries: seq<seq<RawSetting>>): Option<seq<InterfaceDesc>> {
    if entries == [] then Some([]) else
      var before := entries[..|entries| - 1];
      AddEntry(Interfaces(before), Pairs(Flat(before)), entries[|entries| - 1])
  }

  function AddEntry(ifs: Option<seq<InterfaceDesc>>, seen: set<Pair>, entry: seq<RawSetting>): Option<seq<InterfaceDesc>> {
    if ifs.None? || entry == [] then ifs else
      var descs := Unseen(seen, entry);
      if descs == [] then None else Some(ifs.value + [InterfaceDesc(descs[0].number, descs)])
  }

  function PairsOf(has: map<nat, set<nat>>): set<Pair> {
    set n: nat, a: nat | n in has && a in has[n] :: (n, a)
  }

  // ---- what one more setting or entry changes ----

  lemma InPairsOf(has: map<nat, set<nat>>, n: nat, a: nat)
    ensures (n, a) in PairsOf(has) <==> n in has && a in has[n]
  {}

  lemma PairsOfAdd(has: map<nat, set<nat>>, n: nat, a: nat)
    ensures PairsOf(has[n := (if n in has then has[n] else {}) + {a}]) == PairsOf(has) + {(n, a)}
  {}

  lemma PairsAppend(rs: seq<RawSetting>, r: RawSetting)
    ensures Pairs(rs + [r]) == Pairs(rs) + {(r.number, r.alternate)}
  {}

  lemma NothingUnseen(seen: set<Pair>)
    ensures Unseen(seen, []) == [] && Pairs([]) == {}
  {}

  lemma UnseenNext(seen: set<Pair>, rs: seq<RawSetting>, r: RawSetting)
    ensures var p := (r.number, r.alternate);
      && Pairs(rs + [r]) == Pairs(rs) + {p}
      && Unseen(seen, rs + [r]) == Unseen(seen, rs) + (if p in seen + Pairs(rs) then [] else [Built(r)])
  {}

  lemma NoEntries()
    ensures PairsOf(map[]) == {} == Pairs(Flat<RawSetting>([]))
  {}

  lemma InterfacesNext(entries: seq<seq<RawSetting>>, i: nat)
    requires i < |entries|
    ensures var before, entry := entries[..i], entries[i];
      && Pairs(Flat(entries[..i + 1])) == Pairs(Flat(before)) + Pairs(entry)
      && Interfaces(entries[..i + 1]) == AddEntry(Interfaces(before), Pairs(Flat(before)), entry)
      && (Interfaces(entries[..i + 1]).None? ==> Interfaces(entries).None?)
      && (entry == [] ==> Pairs(entry) == {})
  {
    NothingUnseen({});
    hide Unseen, Pairs, AddEntry;
    assert entries[..i + 1][..i] == entries[..i];
    PairsConcat(Flat(entries[..i]), entries[i]);
    if Interfaces(entries[..i + 1]).None? { PanicStays(entries, i + 1); }
  }

  lemma {:induction false} PanicStays(entries: seq<seq<RawSetting>>, i: nat)
    requires i <= |entries| && Interfaces(entries[..i]).None?
    ensures Interfaces(entries).None?
    decreases |entries| - i
  {
    hide Unseen, Pairs;
    if i < |entries| {
      assert entries[..i + 1][..i] == entries[..i];
      PanicStays(entries, i + 1);
    } else {
      assert entries[..i] == entries;
    }
  }

  lemma PairsConcat(a: seq<RawSetting>, b: seq<RawSetting>)
    ensures Pairs(a + b) == Pairs(a) + Pairs(b)
  {}

  // ---- getDeviceDesc ----

  method BuildEndpoints(ends: seq<EndpointDesc>) returns (m: map<nat, EndpointDesc>)
    ensures m == EndpointMap(ends)
  {
    m := map[];
    for i := 0 to |ends|
      invariant m == EndpointMap(ends[..i])
    {
      assert ends[..i + 1][..i] == ends[..i];
      m := m[ends[i].address := ends[i]];
    }
    assert ends[..|ends|] == ends;
  }

  // One entry of the descriptor: its new settings, and hasIntf with them.
  method BuildSettings(hasIntf: map<nat, set<nat>>, alts: seq<RawSetting>)
    returns (descs: seq<InterfaceSetting>, has: map<nat, set<nat>>)
    ensures descs == Unseen(PairsOf(hasIntf), alts)
    ensures PairsOf(has) == PairsOf(hasIntf) + Pairs(alts)
  {
    hide Unseen, Pairs, PairsOf;
    descs, has := [], hasIntf;
    NothingUnseen(PairsOf(hasIntf));
    assert alts[..0] == [];
    for i := 0 to |alts|
      invariant descs == Unseen(PairsOf(hasIntf), alts[..i])
      invariant PairsOf(has) == PairsOf(hasIntf) + Pairs(alts[..i])
    {
      var alt := alts[i];
      assert alts[..i + 1] == alts[..i] + [alt];
      UnseenNext(PairsOf(hasIntf), alts[..i], alt);
      var known := if alt.number in has then has[alt.number] else {};
      InPairsOf(has, alt.number, alt.alternate);
      if alt.alternate in known {
        continue;
      }
      PairsOfAdd(has, alt.number, alt.alternate);
      has := has[alt.number := known + {alt.alternate}];
      var m := BuildEndpoints(alt.ends);
      descs := descs + [InterfaceSetting(alt.number, alt.alternate, alt.body, m)];
    }
    assert alts[..|alts|] == alts;
  }

  // All entries of a configuration. None stands for the panic that descs[0]
  // raises when an entry has nothing but repetitions.
  method BuildInterfaces(entries: seq<seq<RawSetting>>) returns (built: Option<seq<InterfaceDesc>>)
    ensures built == Interfaces(entries)
  {
    hide Unseen, Pairs, PairsOf, Flat;
    var hasIntf := map[];
    var ifs := [];
    NoEntries();
    assert entries[..0] == [];
    for i := 0 to |entries|
      invariant Interfaces(entries[..i]) == Some(ifs)
      invariant PairsOf(hasIntf) == Pairs(Flat(entries[..i]))
    {
      InterfacesNext(entries, i);
      if |entries[i]| == 0 {
        continue;
      }
      var descs;
      descs, hasIntf := BuildSettings(hasIntf, entries[i]);
      if |descs| == 0 {
        return None;
      }
      ifs := ifs + [InterfaceDesc(descs[0].number, descs)];
    }
    assert entries[..|entries|] == entries;
    return Some(ifs);
  }
}
