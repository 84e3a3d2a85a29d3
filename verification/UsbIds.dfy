// ParseIDs with its objects and pointers. parseVendor and parseClass are the same
// code at two types, modelled once: an Outer is a Vendor or a Class, an Inner a
// Product or a SubClass.
module UsbIds {
  import opened Base
  import opened UsbIdsSpec

  class Inner {
    const name: string
    var leaves: map<nat, string>

    constructor (name: string)
      ensures this.name == name && leaves == map[]
    {
      this.name, leaves := name, map[];
    }

    ghost function View(): Mid
      reads this
    {
      Mid(name, leaves)
    }
  }

  class Outer {
    const name: string
    var mids: map<nat, Inner>

    constructor (name: string)
      ensures this.name == name && mids == map[]
    {
      this.name, mids := name, map[];
    }

    ghost function View(): Top
      reads this, mids.Values
    {
      Top(name, map id | id in mids :: mids[id].View())
    }
  }

  // The map under construction with the interim values of its closure. The ghost
  // fields say which entry made which object; objects that fell out of the map
  // are still among them.
  class Block {
    var tops: map<nat, Outer>
    var top: Outer?
    var mid: Inner?
    ghost var log: seq<Entry>
    ghost var outers: map<nat, Outer>
    ghost var inners: map<nat, Inner>

    constructor ()
      ensures Valid() && log == [] && outers == map[] && inners == map[]
    {
      tops, top, mid := map[], null, null;
      log, outers, inners := [], map[], map[];
    }

    // The objects hold what the entries say.
    ghost predicate OuterOk(k: nat)
      reads this, outers.Values
    {
      && k in outers && k < |log| && outers[k].name == log[k].name
      && Refers(outers[k].mids, Mids(log, k, |log|), inners)
    }

    ghost predicate InnerOk(k: nat)
      reads this, inners.Values
    {
      && k in inners && k < |log| && inners[k].name == log[k].name
      && inners[k].leaves == Leaves(log, k, |log|)
    }

    ghost predicate Valid()
      reads this, outers.Values, inners.Values
    {
      && Numbered(log, 0, outers) && Numbered(log, 1, inners)
      && Refers(tops, Tops(log, |log|), outers)
      && Points(MaybeOuter(top), Latest(log, |log|, 0), outers)
      && Points(MaybeInner(mid), Latest(log, |log|, 1), inners)
      && (forall k :: k in outers ==> OuterOk(k))
      && (forall k :: k in inners ==> InnerOk(k))
    }

    // So the map is what the entries mean.
    lemma MapIsForest()
      requires Valid()
      ensures Image(tops) == Forest(log)
    {
      IndicesInRange(log, 0, |log|);
      var which := Tops(log, |log|);
      forall id | id in tops ensures tops[id].View() == TopAt(log, which[id]) {
        OuterIsTop(which[id]);
      }
    }

    lemma OuterIsTop(k: nat)
      requires Valid() && k in outers
      ensures k < |log| && outers[k].View() == TopAt(log, k)
    {}

    // parseVendor, parseClass
    method Add(level: nat, id: nat, name: string) returns (err: Option<Why>)
      requires Valid()
      modifies this, outers.Values, inners.Values
      ensures match Attach(old(log), Entry(level, id, name)) {
        case Good(es) => err == None && log == es
        case Bad(why) => err == Some(why) && log == old(log)
      }
      ensures fresh(outers.Values - old(outers.Values)) && fresh(inners.Values - old(inners.Values))
      ensures Valid()
    {
      hide Refers, Tops, Mids, Leaves, Numbered, OuterOk, InnerOk;
      match level {
        case 0 => AddTop(id, name);
        case 1 =>
          if top == null { return Some(Orphan); }
          Pointed<Outer>(log, 0, top, outers);
          AddMid(id, name);
        case 2 =>
          if mid == null { return Some(Orphan); }
          Pointed<Inner>(log, 1, mid, inners);
          AddLeaf(id, name);
        case _ => return Some(TooDeep);
      }
      return None;
    }

    method AddTop(id: nat, name: string)
      requires Valid()
      modifies this
      ensures log == old(log) + [Entry(0, id, name)] && inners == old(inners)
      ensures Grown(old(outers), outers, |old(log)|) && fresh(outers[|old(log)|])
      ensures Valid()
    {
      hide Tops, Mids, Leaves, Latest, Numbered, Points, Refers, Grown, InnerOk;
      ghost var e := Entry(0, id, name);
      ExtendTop(log, e);
      var o := new Outer(name);
      GrownNumbered(log, e, outers, o, 1, inners);
      RefersNothing(inners);
      RefersGrows(tops, Tops(log, |log|), outers, |log|, o, id);
      top, tops, outers, log := o, tops[id := o], outers[|log| := o], log + [e];
      forall k | k in outers ensures OuterOk(k) {
        assert k in old(outers) ==> old(OuterOk(k));
      }
      InnersStay(e);
    }

    // A new top entry is none of the business of the mid ones.
    twostate lemma InnersStay(e: Entry)
      requires e.level == 0 && log == old(log) + [e] && inners == old(inners)
      requires forall k :: k in inners ==> unchanged(inners[k]) && old(InnerOk(k))
      ensures forall k :: k in inners ==> InnerOk(k)
    {
      hide Leaves;
      ExtendTop(old(log), e);
    }

    method AddMid(id: nat, name: string)
      requires Valid() && top != null
      modifies this, top
      ensures log == old(log) + [Entry(1, id, name)] && outers == old(outers)
      ensures Grown(old(inners), inners, |old(log)|) && fresh(inners[|old(log)|])
      ensures Valid()
    {
      hide Tops, Mids, Leaves, Latest, Numbered, Points, Refers, Grown;
      ghost var e := Entry(1, id, name);
      ExtendMid(log, e);
      var m := new Inner(name);
      GrownNumbered(log, e, inners, m, 0, outers);
      Pointed<Outer>(log, 0, top, outers);
      RefersGrows(top.mids, Mids(log, Latest(log, |log|, 0).value, |log|), inners, |log|, m, id);
      top.mids := top.mids[id := m];
      mid, inners := m, inners[|log| := m];
      log := log + [e];
      forall k | k in outers ensures OuterOk(k) { assert old(OuterOk(k)); }
      forall k | k in inners ensures InnerOk(k) {
        assert k in old(inners) ==> old(InnerOk(k));
      }
    }

    method AddLeaf(id: nat, name: string)
      requires Valid() && mid != null
      modifies this, mid
      ensures log == old(log) + [Entry(2, id, name)] && outers == old(outers) && inners == old(inners)
      ensures Valid()
    {
      hide Tops, Mids, Leaves, Latest, Numbered, Points, Refers, Grown;
      ghost var e := Entry(2, id, name);
      ExtendLeaf(log, e);
      Pointed<Inner>(log, 1, mid, inners);
      SameNumbered(log, e, outers, inners);
      mid.leaves := mid.leaves[id := name];
      log := log + [e];
      forall k | k in outers ensures OuterOk(k) { assert old(OuterOk(k)); }
      forall k | k in inners ensures InnerOk(k) { assert old(InnerOk(k)); }
    }
  }

  // A map of the result as a value.
  ghost function Image(tops: map<nat, Outer>): map<nat, Top>
    reads tops.Values, set o, id | o in tops.Values && id in o.mids :: o.mids[id]
  {
    map id | id in tops :: tops[id].View()
  }

  // Every entry of this level has its own object.
  ghost predicate Numbered<T>(log: seq<Entry>, level: nat, objects: map<nat, T>) {
    && (forall k :: k in objects <==> 0 <= k < |log| && log[k].level == level)
    && (forall j, k :: j in objects && k in objects && objects[j] == objects[k] ==> j == k)
  }

  // p is the k-th object, or nil.
  ghost predicate Points<T>(p: Option<T>, k: Option<nat>, objects: map<nat, T>) {
    if k.Some? then k.value in objects && p == Some(objects[k.value]) else p == None
  }

  function MaybeOuter(o: Outer?): Option<Outer> {
    if o == null then None else Some(o)
  }

  function MaybeInner(i: Inner?): Option<Inner> {
    if i == null then None else Some(i)
  }

  lemma GrownNumbered<T, U>(log: seq<Entry>, e: Entry, objects: map<nat, T>, x: T, level: nat, others: map<nat, U>)
    requires Numbered(log, e.level, objects) && Numbered(log, level, others) && level != e.level
    requires x !in objects.Values
    ensures var objects' := objects[|log| := x];
      && Numbered(log + [e], e.level, objects') && Numbered(log + [e], level, others)
      && |log| !in objects && Grown(objects, objects', |log|)
      && Points(Some(x), Some(|log|), objects')
  {}

  lemma SameNumbered<T, U>(log: seq<Entry>, e: Entry, objects: map<nat, T>, others: map<nat, U>)
    requires Numbered(log, 0, objects) && Numbered(log, 1, others) && e.level > 1
    ensures Numbered(log + [e], 0, objects) && Numbered(log + [e], 1, others)
  {}

  lemma Pointed<T>(log: seq<Entry>, level: nat, p: T, objects: map<nat, T>)
    requires Numbered(log, level, objects) && Points(Some(p), Latest(log, |log|, level), objects)
    ensures var k := Latest(log, |log|, level);
      k.Some? && k.value in objects && objects[k.value] == p
      && forall j :: j in objects ==> (objects[j] == p <==> j == k.value)
  {}

  ghost predicate Grown<T>(m: map<nat, T>, m': map<nat, T>, k: nat) {
    k !in m && k in m' && m' == m[k := m'[k]]
  }

  // m holds the objects whose numbers `which` gives.
  ghost predicate Refers<T>(m: map<nat, T>, which: map<nat, nat>, objects: map<nat, T>) {
    m.Keys == which.Keys && forall id :: id in m ==> which[id] in objects && m[id] == objects[which[id]]
  }

  lemma RefersGrows<T>(m: map<nat, T>, which: map<nat, nat>, objects: map<nat, T>, k: nat, x: T, id: nat)
    requires Refers(m, which, objects) && k !in objects
    ensures var objects' := objects[k := x];
      && Refers(m[id := x], which[id := k], objects')
      && (forall n: map<nat, T>, w :: Refers(n, w, objects) ==> Refers(n, w, objects'))
  {}

  lemma RefersNothing<T>(objects: map<nat, T>)
    ensures Refers<T>(map[], map[], objects)
  {}

  // The effect of one more entry on what the entries mean.
  lemma Extend(es: seq<Entry>, e: Entry)
    ensures var es' := es + [e];
      && Tops(es', |es'|) == (if e.level == 0 then Tops(es, |es|)[e.id := |es|] else Tops(es, |es|))
      && (forall k: nat :: Mids(es', k, |es'|) ==
            if e.level == 1 && Latest(es, |es|, 0) == Some(k) then Mids(es, k, |es|)[e.id := |es|] else Mids(es, k, |es|))
      && (forall k: nat :: Leaves(es', k, |es'|) ==
            if e.level == 2 && Latest(es, |es|, 1) == Some(k) then Leaves(es, k, |es|)[e.id := e.name] else Leaves(es, k, |es|))
      && (forall level: nat :: Latest(es', |es'|, level) == if e.level == level then Some(|es|) else Latest(es, |es|, level))
      && (forall k: nat :: |es| <= k ==> Mids(es, k, |es|) == map[] && Leaves(es, k, |es|) == map[])
  {
    var es' := es + [e];
    forall level: nat ensures Latest(es', |es|, level) == Latest(es, |es|, level) { SameLatest(es, es', |es|, level); }
    SameTops(es, es', |es|);
    forall k: nat
      ensures Mids(es', k, |es|) == Mids(es, k, |es|)
      ensures Leaves(es', k, |es|) == Leaves(es, k, |es|)
      ensures |es| <= k ==> Mids(es, k, |es|) == map[] && Leaves(es, k, |es|) == map[]
    {
      SameBelow(es, es', k, |es|);
      if |es| <= k { NothingBelow(es, k, |es|); }
    }
  }

  // The same for each kind of entry.
  lemma ExtendTop(es: seq<Entry>, e: Entry)
    requires e.level == 0
    ensures var es' := es + [e];
      && Tops(es', |es'|) == Tops(es, |es|)[e.id := |es|]
      && Latest(es', |es'|, 0) == Some(|es|) && Latest(es', |es'|, 1) == Latest(es, |es|, 1)
      && (forall k: nat :: Mids(es', k, |es'|) == Mids(es, k, |es|) && Leaves(es', k, |es'|) == Leaves(es, k, |es|))
      && Mids(es, |es|, |es|) == map[]
  {
    Extend(es, e);
  }

  lemma ExtendMid(es: seq<Entry>, e: Entry)
    requires e.level == 1
    ensures var es' := es + [e];
      && Tops(es', |es'|) == Tops(es, |es|)
      && Latest(es', |es'|, 0) == Latest(es, |es|, 0) && Latest(es', |es'|, 1) == Some(|es|)
      && (forall k: nat :: Leaves(es', k, |es'|) == Leaves(es, k, |es|))
      && (forall k: nat :: Mids(es', k, |es'|) ==
            if Latest(es, |es|, 0) == Some(k) then Mids(es, k, |es|)[e.id := |es|] else Mids(es, k, |es|))
      && Leaves(es, |es|, |es|) == map[]
  {
    Extend(es, e);
  }

  lemma ExtendLeaf(es: seq<Entry>, e: Entry)
    requires e.level == 2
    ensures var es' := es + [e];
      && Tops(es', |es'|) == Tops(es, |es|)
      && Latest(es', |es'|, 0) == Latest(es, |es|, 0) && Latest(es', |es'|, 1) == Latest(es, |es|, 1)
      && (forall k: nat :: Mids(es', k, |es'|) == Mids(es, k, |es|))
      && (forall k: nat :: Leaves(es', k, |es'|) ==
            if Latest(es, |es|, 1) == Some(k) then Leaves(es, k, |es|)[e.id := e.name] else Leaves(es, k, |es|))
  {
    Extend(es, e);
  }

  lemma {:induction false} SameLatest(es: seq<Entry>, es': seq<Entry>, n: nat, level: nat)
    requires n <= |es| <= |es'| && es'[..|es|] == es
    ensures Latest(es', n, level) == Latest(es, n, level)
  {}

  lemma {:induction false} SameTops(es: seq<Entry>, es': seq<Entry>, n: nat)
    requires n <= |es| <= |es'| && es'[..|es|] == es
    ensures Tops(es', n) == Tops(es, n)
  {
    if n > 0 {
      assert es'[n - 1] == es[n - 1];
      SameTops(es, es', n - 1);
    }
  }

  lemma {:induction false} SameBelow(es: seq<Entry>, es': seq<Entry>, k: nat, n: nat)
    requires n <= |es| <= |es'| && es'[..|es|] == es
    ensures Mids(es', k, n) == Mids(es, k, n) && Leaves(es', k, n) == Leaves(es, k, n)
  {
    if n > 0 {
      assert es'[n - 1] == es[n - 1];
      SameBelow(es, es', k, n - 1);
      SameLatest(es, es', n - 1, 0);
      SameLatest(es, es', n - 1, 1);
    }
  }

  lemma {:induction false} NothingBelow(es: seq<Entry>, k: nat, n: nat)
    requires n <= |es| && n <= k
    ensures Mids(es, k, n) == map[] && Leaves(es, k, n) == map[]
  {
    if n > 0 { NothingBelow(es, k, n - 1); }
  }

  // ---- reading ----

  // bufio.Reader over a file; `pos` is how much of it was taken.
  class Reader {
    const text: string
    const end: Ending
    var pos: nat

    constructor (text: string, end: Ending)
      ensures this.text == text && this.end == end && pos == 0
    {
      this.text, this.end, pos := text, end, 0;
    }

    ghost predicate Valid()
      reads this
    {
      pos <= |text|
    }

    ghost function Rest(): string
      reads this
      requires Valid()
    {
      text[pos..]
    }

    method ReadLine() returns (line: string, isPrefix: bool, err: Option<Error>)
      requires Valid()
      modifies this
      ensures Valid()
      ensures match ReadOne(old(Rest()), end.eager) {
        case Done => err == Some(end.error)
        case Full => err == None && isPrefix
        case Line(l, rest) => err == None && !isPrefix && line == l && Rest() == rest && pos > old(pos)
      }
    {
      if pos == |text| {
        return "", false, Some(end.error);
      }
      var n := pos;
      while n < |text| && text[n] != '\n' && n - pos < BUFFER
        invariant pos <= n <= |text| && n - pos <= BUFFER
        invariant forall i :: pos <= i < n ==> text[i] != '\n'
      {
        n := n + 1;
      }
      assert text[pos..][..n - pos] == text[pos..n];
      if n - pos == BUFFER && !(end.eager && n == |text|) {
        line, pos := text[pos..n], n;
        return line, true, None;
      }
      if n == |text| {
        line, pos := text[pos..], n;
        return line, false, None;
      }
      assert text[pos..][n - pos + 1..] == text[n + 1..];
      line := Chomp(text[pos..n]);
      pos := n + 1;
      return line, false, None;
    }
  }

  // split
  method Split(s: string) returns (kind: string, level: nat, id: nat, name: string, err: Option<Why>)
    ensures match SplitLine(s) {
      case Good(it) => err == None && it == Item(kind, level, id, name)
      case Bad(why) => err == Some(why)
    }
  {
    kind, level, id, name, err := "", 0, 0, "", None;
    var g := Gap(s);
    if g.None? {
      return kind, level, id, name, Some(Malformatted);
    }
    name := s[g.value + 2..];
    var word := s[..g.value];
    while |word| > 0 && word[0] == '\t'
      invariant level <= g.value && word == s[..g.value][level..]
      invariant Tabs(s[..g.value]) == level + Tabs(word)
      decreases |word|
    {
      level, word := level + 1, word[1..];
    }
    var pieces := Kinded(word);
    kind := pieces.0;
    var i := ParseUint16(pieces.1);
    if i.None? {
      return kind, level, id, name, Some(BadId);
    }
    id := i.value;
  }

  // Two blocks share no objects.
  ghost predicate Apart(a: Block, b: Block)
    reads a, b
  {
    a != b && a.outers.Values !! b.outers.Values && a.inners.Values !! b.inners.Values
  }

  // An entry for one block leaves the other alone.
  method AddBeside(b: Block, other: Block, level: nat, id: nat, name: string) returns (why: Option<Why>)
    requires b.Valid() && other.Valid() && (Apart(b, other) || Apart(other, b))
    modifies b, b.outers.Values, b.inners.Values
    ensures match Attach(old(b.log), Entry(level, id, name)) {
      case Good(es) => why == None && b.log == es
      case Bad(w) => why == Some(w) && b.log == old(b.log)
    }
    ensures fresh(b.outers.Values - old(b.outers.Values)) && fresh(b.inners.Values - old(b.inners.Values))
    ensures other.log == old(other.log) && other.outers == old(other.outers) && other.inners == old(other.inners)
    ensures Apart(b, other) && Apart(other, b) && b.Valid() && other.Valid()
  {
    hide Attach, Block.Valid;
    why := b.Add(level, id, name);
  }

  // The rest of one turn of the loop: an item goes to the block its kind says.
  method Dispatch(kind: string, v: Block, c: Block, level: nat, id: nat, name: string) returns (why: Option<Why>)
    requires v.Valid() && c.Valid() && Apart(v, c)
    modifies v, v.outers.Values, v.inners.Values, c, c.outers.Values, c.inners.Values
    ensures match AcceptItem(State(kind, old(v.log), old(c.log)), level, id, name) {
      case Good(s) => why == None && s == State(kind, v.log, c.log)
      case Bad(w) => why == Some(w)
    }
    ensures fresh(v.outers.Values + c.outers.Values - old(v.outers.Values + c.outers.Values))
    ensures fresh(v.inners.Values + c.inners.Values - old(v.inners.Values + c.inners.Values))
    ensures Apart(v, c) && v.Valid() && c.Valid()
  {
    hide Attach, Block.Valid, Apart;
    why := None;
    if kind == "" {
      why := AddBeside(v, c, level, id, name);
    } else if kind == "C" {
      why := AddBeside(c, v, level, id % 256, name);
    }
  }

  // The maps of vendors and classes, or an error and no maps.
  method ParseIDs(r: Reader) returns (vendors: map<nat, Outer>, classes: map<nat, Outer>, err: Option<Failure>)
    requires r.Valid()
    modifies r
    ensures match Parse(old(r.Rest()), r.end, 0, START) {
      case Ids(db) => err == None && Image(vendors) == db.vendors && Image(classes) == db.classes
      case Failed(why) => err == Some(why) && vendors == map[] && classes == map[]
    }
  {
    hide AcceptItem, Block.Valid, Image, Forest, SplitLine, ReadOne;
    var v := new Block();
    var c := new Block();
    var kind := "";
    var number := 0;
    ghost var goal := Parse(r.Rest(), r.end, 0, START);
    while true
      invariant r.Valid() && Apart(v, c) && v.Valid() && c.Valid()
      invariant fresh(v) && fresh(c) && fresh(v.outers.Values + c.outers.Values) && fresh(v.inners.Values + c.inners.Values)
      invariant Parse(r.Rest(), r.end, number, State(kind, v.log, c.log)) == goal
      decreases |r.text| - r.pos
    {
      var line, isPrefix, e := r.ReadLine();
      if e == Some(EOF) {
        break;
      }
      if e.Some? {
        return map[], map[], Some(ReadFailed(e.value));
      }
      if isPrefix {
        return map[], map[], Some(AtLine(number, LineTooLong));
      }
      if |line| > 0 && line[0] != '#' {
        var k, level, id, name, why := Split(line);
        if why.None? {
          kind := if k != "" then k else kind;
          why := Dispatch(kind, v, c, level, id, name);
        }
        if why.Some? {
          return map[], map[], Some(AtLine(number, why.value));
        }
      }
      number := number + 1;
    }
    v.MapIsForest();
    c.MapIsForest();
    return v.tops, c.tops, None;
  }
}
