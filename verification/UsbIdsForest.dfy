// Listing a database entry by entry, parents before children, gives it back.
module UsbIdsForest {
  import opened Base
  import opened UsbIdsSpec
  import opened UsbIds

  // A database in some order. An id that occurs twice counts the last time.
  datatype LeafDoc = LeafDoc(id: nat, name: string)
  datatype MidDoc = MidDoc(id: nat, name: string, leaves: seq<LeafDoc>)
  datatype TopDoc = TopDoc(id: nat, name: string, mids: seq<MidDoc>)

  function LeavesOf(ls: seq<LeafDoc>): map<nat, string> {
    if ls == [] then map[] else
      var last := ls[|ls| - 1];
      LeavesOf(ls[..|ls| - 1])[last.id := last.name]
  }

  function MidsOf(ms: seq<MidDoc>): map<nat, Mid> {
    if ms == [] then map[] else
      var last := ms[|ms| - 1];
      MidsOf(ms[..|ms| - 1])[last.id := Mid(last.name, LeavesOf(last.leaves))]
  }

  function TopsOf(ts: seq<TopDoc>): map<nat, Top> {
    if ts == [] then map[] else
      var last := ts[|ts| - 1];
      TopsOf(ts[..|ts| - 1])[last.id := Top(last.name, MidsOf(last.mids))]
  }

  function LeafEntries(ls: seq<LeafDoc>): seq<Entry> {
    if ls == [] then [] else
      var last := ls[|ls| - 1];
      LeafEntries(ls[..|ls| - 1]) + [Entry(2, last.id, last.name)]
  }

  function MidEntries(ms: seq<MidDoc>): seq<Entry> {
    if ms == [] then [] else
      var last := ms[|ms| - 1];
      MidEntries(ms[..|ms| - 1]) + [Entry(1, last.id, last.name)] + LeafEntries(last.leaves)
  }

  function TopEntries(ts: seq<TopDoc>): seq<Entry> {
    if ts == [] then [] else
      var last := ts[|ts| - 1];
      TopEntries(ts[..|ts| - 1]) + [Entry(0, last.id, last.name)] + MidEntries(last.mids)
  }

  // ---- the effect of one entry on the forest ----

  lemma {:induction false} TopIds(es: seq<Entry>, n: nat)
    requires n <= |es|
    ensures forall id :: id in Tops(es, n) ==> Tops(es, n)[id] < n && es[Tops(es, n)[id]].id == id
  {
    if n > 0 { TopIds(es, n - 1); }
  }

  lemma {:induction false} MidIds(es: seq<Entry>, k: nat, n: nat)
    requires n <= |es|
    ensures forall id :: id in Mids(es, k, n) ==>
      Mids(es, k, n)[id] < n && es[Mids(es, k, n)[id]].id == id
  {
    if n > 0 { MidIds(es, k, n - 1); }
  }

  // The latest top entry is the one in the map under its id.
  lemma {:induction false} LatestTopIsIn(es: seq<Entry>, n: nat)
    requires n <= |es| && Latest(es, n, 0).Some?
    ensures var k := Latest(es, n, 0).value;
      es[k].id in Tops(es, n) && Tops(es, n)[es[k].id] == k
  {
    if es[n - 1].level != 0 { LatestTopIsIn(es, n - 1); }
  }

  // So is the latest mid entry, below the latest top entry before it.
  lemma {:induction false} LatestMidIsIn(es: seq<Entry>, n: nat, k: nat)
    requires n <= |es| && Latest(es, n, 1).Some? && Latest(es, Latest(es, n, 1).value, 0) == Some(k)
    ensures var m := Latest(es, n, 1).value;
      es[m].id in Mids(es, k, n) && Mids(es, k, n)[es[m].id] == m
  {
    if es[n - 1].level != 1 { LatestMidIsIn(es, n - 1, k); }
  }

  lemma AddTopEntry(es: seq<Entry>, id: nat, name: string)
    ensures Forest(es + [Entry(0, id, name)]) == Forest(es)[id := Top(name, map[])]
  {
    var e := Entry(0, id, name);
    var es' := es + [e];
    Extend(es, e);
    IndicesInRange(es, 0, |es|);
    IndicesInRange(es', 0, |es'|);
    forall j | j in Tops(es, |es|) ensures TopAt(es', Tops(es, |es|)[j]) == TopAt(es, Tops(es, |es|)[j]) {
      SameTopAt(es, e, Tops(es, |es|)[j]);
    }
    assert TopAt(es', |es|).mids == map[];
  }

  // An entry changes nothing below the other ones.
  lemma SameTopAt(es: seq<Entry>, e: Entry, k: nat)
    requires k < |es|
    requires e.level == 1 ==> Latest(es, |es|, 0) != Some(k)
    requires e.level == 2 && Latest(es, |es|, 1).Some? ==> Latest(es, |es|, 1).value !in Mids(es, k, |es|).Values
    ensures TopAt(es + [e], k) == TopAt(es, k)
  {
    var es' := es + [e];
    Extend(es, e);
    IndicesInRange(es, k, |es|);
    IndicesInRange(es', k, |es'|);
    var mids := Mids(es, k, |es|);
    assert Mids(es', k, |es'|) == mids;
    forall id | id in mids ensures MidAt(es', mids[id]) == MidAt(es, mids[id]) {
      assert mids[id] in mids.Values;
    }
  }

  // An entry that concerns the top entry k changes that one only.
  lemma OneTopChanges(es: seq<Entry>, e: Entry, k: nat)
    requires k in Tops(es, |es|).Values && 1 <= e.level <= 2
    requires forall j :: j in Tops(es, |es|).Values && j != k ==> j < |es| && TopAt(es + [e], j) == TopAt(es, j)
    ensures k < |es| && es[k].id in Forest(es) && Forest(es)[es[k].id] == TopAt(es, k)
    ensures Forest(es + [e]) == Forest(es)[es[k].id := TopAt(es + [e], k)]
  {
    hide TopAt;
    var es' := es + [e];
    Extend(es, e);
    IndicesInRange(es, k, |es|);
    IndicesInRange(es', k, |es'|);
    TopIds(es, |es|);
    var tops := Tops(es, |es|);
    forall id | id in tops && id != es[k].id ensures TopAt(es', tops[id]) == TopAt(es, tops[id]) {
      assert tops[id] in tops.Values;
    }
  }

  lemma AddMidEntry(es: seq<Entry>, id: nat, name: string, k: nat)
    requires Latest(es, |es|, 0) == Some(k)
    ensures var t := es[k].id;
      t in Forest(es) && Forest(es + [Entry(1, id, name)]) == PutMid(Forest(es), t, id, Mid(name, map[]))
  {
    hide TopAt, Forest;
    var e := Entry(1, id, name);
    IndicesInRange(es, k, |es|);
    forall j | j in Tops(es, |es|).Values && j != k ensures j < |es| && TopAt(es + [e], j) == TopAt(es, j) {
      SameTopAt(es, e, j);
    }
    LatestTopIsIn(es, |es|);
    OneTopChanges(es, e, k);
    MoreMid(es, e, k);
  }

  function WithMid(t: Top, id: nat, m: Mid): Top {
    t.(mids := t.mids[id := m])
  }

  function PutMid(f: map<nat, Top>, t: nat, u: nat, m: Mid): map<nat, Top>
    requires t in f
  {
    f[t := WithMid(f[t], u, m)]
  }

  predicate HasMid(f: map<nat, Top>, t: nat, u: nat) {
    t in f && u in f[t].mids
  }

  lemma PutTwice(f: map<nat, Top>, t: nat, u: nat, x: Mid, y: Mid)
    requires t in f
    ensures var g := PutMid(f, t, u, x);
      && HasMid(g, t, u) && g[t].mids[u] == x
      && PutMid(g, t, u, y) == PutMid(f, t, u, y)
    ensures HasMid(f, t, u) && f[t].mids[u] == x ==> PutMid(f, t, u, x) == f
  {
    var g := PutMid(f, t, u, x);
    assert g[t].mids[u := y] == f[t].mids[u := y];
    if HasMid(f, t, u) && f[t].mids[u] == x {
      assert f[t].mids == f[t].mids[u := x];
    }
  }

  // A top entry as a value: the objects of its mid entries.
  lemma TopIs(es: seq<Entry>, k: nat)
    requires k < |es|
    ensures var mids, t := Mids(es, k, |es|), TopAt(es, k);
      && t.name == es[k].name && t.mids.Keys == mids.Keys
      && forall id :: id in mids ==> mids[id] < |es| && t.mids[id] == MidAt(es, mids[id])
  {
    IndicesInRange(es, k, |es|);
    hide MidAt, Mids;
  }

  lemma WithOne(t: Top, u: Top, id: nat, m: Mid)
    requires t.name == u.name && t.mids.Keys == u.mids.Keys + {id} && t.mids[id] == m
    requires forall j :: j in u.mids && j != id ==> j in t.mids && t.mids[j] == u.mids[j]
    ensures t == WithMid(u, id, m)
  {
    assert t.mids == u.mids[id := m];
  }

  lemma MidsMore(es: seq<Entry>, e: Entry, k: nat)
    requires Latest(es, |es|, 0) == Some(k) && e.level == 1
    ensures Mids(es + [e], k, |es + [e]|) == Mids(es, k, |es|)[e.id := |es|]
    ensures MidAt(es + [e], |es|) == Mid(e.name, map[])
    ensures forall j: nat :: j < |es| ==> MidAt(es + [e], j) == MidAt(es, j)
  {
    Extend(es, e);
    hide Mids, Leaves, Latest;
  }

  lemma MoreMid(es: seq<Entry>, e: Entry, k: nat)
    requires Latest(es, |es|, 0) == Some(k) && e.level == 1
    ensures TopAt(es + [e], k) == WithMid(TopAt(es, k), e.id, Mid(e.name, map[]))
  {
    MidsMore(es, e, k);
    hide *;
    TopIs(es, k);
    TopIs(es + [e], k);
    WithOne(TopAt(es + [e], k), TopAt(es, k), e.id, Mid(e.name, map[]));
  }

  // A leaf goes to the latest mid entry m, even if a new top entry has come after
  // it: to the mid entry's own top entry k. If k itself was replaced by a later
  // entry with its id, the leaf is attached to an object that is in no map.
  lemma LeafJoinsLatestMid(es: seq<Entry>, e: Entry, k: nat, m: nat)
    requires e.level == 2 && Latest(es, |es|, 1) == Some(m) && Latest(es, m, 0) == Some(k)
    ensures Attach(es, e) == Good(es + [e])
    ensures if k in Tops(es, |es|).Values
      then
        var t, u := es[k].id, es[m].id;
        && HasMid(Forest(es), t, u)
        && Forest(es + [e]) == PutMid(Forest(es), t, u, WithLeaf(Forest(es)[t].mids[u], e.id, e.name))
      else
        Forest(es + [e]) == Forest(es)
  {
    var tops := Tops(es, |es|);
    IndicesInRange(es, k, |es|);
    forall j | j in tops.Values && j != k ensures j < |es| && TopAt(es + [e], j) == TopAt(es, j) {
      OtherTop(es, j, |es|, m, k);
      SameTopAt(es, e, j);
    }
    if k in tops.Values {
      hide TopAt, Forest;
      OneTopChanges(es, e, k);
      MoreLeaf(es, e, k, m);
    } else {
      NoTopChanges(es, e);
    }
  }

  lemma NoTopChanges(es: seq<Entry>, e: Entry)
    requires 1 <= e.level <= 2
    requires forall j :: j in Tops(es, |es|).Values ==> j < |es| && TopAt(es + [e], j) == TopAt(es, j)
    ensures Forest(es + [e]) == Forest(es)
  {
    hide TopAt;
    Extend(es, e);
    IndicesInRange(es, 0, |es|);
    IndicesInRange(es + [e], 0, |es| + 1);
    var tops := Tops(es, |es|);
    forall id | id in tops ensures TopAt(es + [e], tops[id]) == TopAt(es, tops[id]) {
      assert tops[id] in tops.Values;
    }
  }

  lemma AddLeafEntry(es: seq<Entry>, id: nat, name: string, k: nat, m: nat)
    requires At(es, k, m)
    ensures var t, u := es[k].id, es[m].id;
      && HasMid(Forest(es), t, u)
      && Forest(es + [Entry(2, id, name)]) ==
           PutMid(Forest(es), t, u, WithLeaf(Forest(es)[t].mids[u], id, name))
  {
    LatestTopIsIn(es, |es|);
    assert k in Tops(es, |es|).Values;
    hide TopAt, Forest;
    LeafJoinsLatestMid(es, Entry(2, id, name), k, m);
  }

  function WithLeaf(m: Mid, id: nat, name: string): Mid {
    m.(leaves := m.leaves[id := name])
  }

  // A mid entry is below one top entry only.
  lemma {:induction false} OtherTop(es: seq<Entry>, k: nat, n: nat, m: nat, owner: nat)
    requires n <= |es| && m < |es| && es[m].level == 1 && Latest(es, m, 0) == Some(owner) && k != owner
    ensures m !in Mids(es, k, n).Values
  {
    if n > 0 { OtherTop(es, k, n - 1, m, owner); }
  }

  lemma LeavesMore(es: seq<Entry>, e: Entry, k: nat, m: nat)
    requires e.level == 2 && Latest(es, |es|, 1) == Some(m) && Latest(es, m, 0) == Some(k)
    ensures Mids(es + [e], k, |es + [e]|) == Mids(es, k, |es|)
    ensures es[m].id in Mids(es, k, |es|) && Mids(es, k, |es|)[es[m].id] == m
    ensures MidAt(es + [e], m) == WithLeaf(MidAt(es, m), e.id, e.name)
    ensures forall id :: id in Mids(es, k, |es|) && id != es[m].id ==>
      var j := Mids(es, k, |es|)[id]; j < |es| && MidAt(es + [e], j) == MidAt(es, j)
  {
    hide Latest, Tops, Mids, Leaves;
    Extend(es, e);
    LatestMidIsIn(es, |es|, k);
    MidIds(es, k, |es|);
  }

  lemma MoreLeaf(es: seq<Entry>, e: Entry, k: nat, m: nat)
    requires e.level == 2 && Latest(es, |es|, 1) == Some(m) && Latest(es, m, 0) == Some(k)
    ensures var u := es[m].id;
      && u in TopAt(es, k).mids
      && TopAt(es + [e], k) == WithMid(TopAt(es, k), u, WithLeaf(TopAt(es, k).mids[u], e.id, e.name))
  {
    LeavesMore(es, e, k, m);
    hide *;
    TopIs(es, k);
    TopIs(es + [e], k);
    WithOne(TopAt(es + [e], k), TopAt(es, k), es[m].id, WithLeaf(MidAt(es, m), e.id, e.name));
  }

  // ---- whole listings ----

  // Entries of other levels leave the latest entry of a level where it is.
  lemma {:induction false} LatestStays(es: seq<Entry>, more: seq<Entry>, level: nat)
    requires forall e :: e in more ==> e.level != level
    ensures Latest(es + more, |es + more|, level) == Latest(es, |es|, level)
  {
    if more == [] {
      assert es + more == es;
    } else {
      var init := more[..|more| - 1];
      LatestStays(es, init, level);
      assert es + more == (es + init) + [more[|more| - 1]];
      assert more[|more| - 1] in more;
      SameLatest(es + init, es + more, |es + init|, level);
    }
  }

  lemma {:induction false} LeafLevels(ls: seq<LeafDoc>)
    ensures forall e :: e in LeafEntries(ls) ==> e.level == 2
  {
    if ls != [] { LeafLevels(ls[..|ls| - 1]); }
  }

  lemma {:induction false} MidLevels(ms: seq<MidDoc>)
    ensures forall e :: e in MidEntries(ms) ==> e.level == 1 || e.level == 2
  {
    if ms != [] {
      MidLevels(ms[..|ms| - 1]);
      LeafLevels(ms[|ms| - 1].leaves);
    }
  }

  // The place where the next entries go.
  ghost predicate At(es: seq<Entry>, k: nat, m: nat) {
    Latest(es, |es|, 0) == Some(k) && Latest(es, |es|, 1) == Some(m) && Latest(es, m, 0) == Some(k)
  }

  lemma {:induction false} ListLeaves(es: seq<Entry>, ls: seq<LeafDoc>, k: nat, m: nat)
    requires At(es, k, m)
    requires HasMid(Forest(es), es[k].id, es[m].id) && Forest(es)[es[k].id].mids[es[m].id].leaves == map[]
    ensures At(es + LeafEntries(ls), k, m)
    ensures var t, u := es[k].id, es[m].id;
      Forest(es + LeafEntries(ls)) == PutMid(Forest(es), t, u, Forest(es)[t].mids[u].(leaves := LeavesOf(ls)))
  {
    var t, u := es[k].id, es[m].id;
    var x := Forest(es)[t].mids[u];
    LeavesStay(es, ls, k, m);
    hide Forest, Latest, PutMid, HasMid, At;
    if ls == [] {
      PutTwice(Forest(es), t, u, x, x);
      assert es + LeafEntries(ls) == es;
    } else {
      var init, last := ls[..|ls| - 1], ls[|ls| - 1];
      var before := es + LeafEntries(init);
      ListLeaves(es, init, k, m);
      assert es + LeafEntries(ls) == before + [Entry(2, last.id, last.name)];
      AddLeafEntry(before, last.id, last.name, k, m);
      InRange(es, k, m);
      assert before[k] == es[k] && before[m] == es[m];
      PutTwice(Forest(es), t, u, x.(leaves := LeavesOf(init)), x.(leaves := LeavesOf(ls)));
    }
  }

  lemma InRange(es: seq<Entry>, k: nat, m: nat)
    requires At(es, k, m)
    ensures k < |es| && m < |es|
  {}

  lemma LeavesStay(es: seq<Entry>, ls: seq<LeafDoc>, k: nat, m: nat)
    requires At(es, k, m)
    ensures At(es + LeafEntries(ls), k, m)
  {
    LeafLevels(ls);
    LatestStays(es, LeafEntries(ls), 0);
    LatestStays(es, LeafEntries(ls), 1);
    SameLatest(es, es + LeafEntries(ls), m, 0);
  }

  lemma {:induction false} ListMids(es: seq<Entry>, ms: seq<MidDoc>, k: nat)
    requires Latest(es, |es|, 0) == Some(k)
    requires es[k].id in Forest(es) && Forest(es)[es[k].id].mids == map[]
    ensures Latest(es + MidEntries(ms), |es + MidEntries(ms)|, 0) == Some(k)
    ensures Forest(es + MidEntries(ms)) == Forest(es)[es[k].id := Forest(es)[es[k].id].(mids := MidsOf(ms))]
  {
    MidLevels(ms);
    LatestStays(es, MidEntries(ms), 0);
    if ms == [] {
      assert es + MidEntries(ms) == es;
    } else {
      hide Forest, Latest, LeavesOf, LeafEntries, PutMid, MidsOf;
      var init, last := ms[..|ms| - 1], ms[|ms| - 1];
      ListMids(es, init, k);
      ListMid(es + MidEntries(init), last, k);
      MidsOfAre(Forest(es), es[k].id, init, last);
      assert (es + MidEntries(init))[k] == es[k] && init + [last] == ms;
      Regroup(es, MidEntries(init), [Entry(1, last.id, last.name)], LeafEntries(last.leaves));
    }
  }

  lemma Regroup<T>(a: seq<T>, b: seq<T>, c: seq<T>, d: seq<T>)
    ensures a + (b + c + d) == a + b + c + d
  {}

  lemma MidsOfAre(f: map<nat, Top>, t: nat, init: seq<MidDoc>, last: MidDoc)
    requires t in f
    ensures PutMid(f[t := f[t].(mids := MidsOf(init))], t, last.id, Mid(last.name, LeavesOf(last.leaves))) ==
      f[t := f[t].(mids := MidsOf(init + [last]))]
  {}

  lemma ListMid(es: seq<Entry>, d: MidDoc, k: nat)
    requires Latest(es, |es|, 0) == Some(k)
    ensures var t := es[k].id;
      && t in Forest(es)
      && Forest(es + [Entry(1, d.id, d.name)] + LeafEntries(d.leaves)) ==
           PutMid(Forest(es), t, d.id, Mid(d.name, LeavesOf(d.leaves)))
  {
    var e := Entry(1, d.id, d.name);
    var es1 := es + [e];
    var t := es[k].id;
    var x := Mid(d.name, map[]);
    MidStarts(es, e, k);
    AddMidEntry(es, d.id, d.name, k);
    hide Forest, Latest, PutMid, HasMid, At, LeavesOf, LeafEntries;
    PutTwice(Forest(es), t, d.id, x, x.(leaves := LeavesOf(d.leaves)));
    assert es1[k] == es[k] && es1[|es|] == e;
    ListLeaves(es1, d.leaves, k, |es|);
  }

  lemma MidStarts(es: seq<Entry>, e: Entry, k: nat)
    requires Latest(es, |es|, 0) == Some(k) && e.level == 1
    ensures k < |es| && At(es + [e], k, |es|)
  {
    Extend(es, e);
    SameLatest(es, es + [e], |es|, 0);
  }

  // The objects a listing builds are the database it lists.
  lemma {:induction false} ListTops(ts: seq<TopDoc>)
    ensures Forest(TopEntries(ts)) == TopsOf(ts)
  {
    if ts == [] {
      IndicesInRange([], 0, 0);
    } else {
      var init, last := ts[..|ts| - 1], ts[|ts| - 1];
      ListTops(init);
      ListTop(TopEntries(init), last);
      hide Forest, MidEntries, MidsOf;
    }
  }

  lemma ListTop(es: seq<Entry>, d: TopDoc)
    ensures Forest(es + [Entry(0, d.id, d.name)] + MidEntries(d.mids)) ==
      Forest(es)[d.id := Top(d.name, MidsOf(d.mids))]
  {
    var e := Entry(0, d.id, d.name);
    var es1 := es + [e];
    AddTopEntry(es, d.id, d.name);
    assert Latest(es1, |es1|, 0) == Some(|es|);
    hide Forest, MidEntries, MidsOf, Latest;
    ListMids(es1, d.mids, |es|);
  }
}
