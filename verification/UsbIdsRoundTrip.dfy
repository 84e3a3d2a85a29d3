// Printing a database in the format of usb.ids and parsing it again.
module UsbIdsRoundTrip {
  import opened Base
  import opened UsbIdsSpec
  import opened UsbIds
  import opened UsbIdsForest
  import opened UsbIdsLines

  // ---- printing ----

  function Pow16(w: nat): nat {
    if w == 0 then 1 else 16 * Pow16(w - 1)
  }

  function HexChar(d: nat): char
    requires d < 16
  {
    "0123456789abcdef"[d]
  }

  // The last w hexadecimal digits of n.
  function HexDigits(n: nat, w: nat): (s: string)
    ensures |s| == w
  {
    if w == 0 then "" else HexDigits(n / 16, w - 1) + [HexChar(n % 16)]
  }

  function Indent(level: nat): (s: string)
    ensures |s| == level && forall i :: 0 <= i < level ==> s[i] == '\t'
  {
    seq(level, _ => '\t')
  }

  function Word(kind: string, digits: string): string {
    if kind == "" then digits else kind + " " + digits
  }

  function LineOf(level: nat, kind: string, digits: string, name: string): string {
    Indent(level) + Word(kind, digits) + "  " + name
  }

  // An entry may be spelled with as many hexadecimal digits as one likes, in
  // either case: usb.ids has four for vendors and products and two for classes
  // and the interfaces of a product.
  predicate Spells(line: string, kind: string, digits: string, e: Entry) {
    digits != "" && IsHex(digits) && Hex(digits) == Some(e.id) && line == LineOf(e.level, kind, digits, e.name)
  }

  ghost predicate IsVendorLine(line: string, e: Entry) {
    exists digits :: Spells(line, "", digits, e)
  }

  // Only the line of a class itself has a kind.
  ghost predicate IsClassLine(line: string, e: Entry) {
    exists digits :: Spells(line, ClassKind(e.level), digits, e)
  }

  function ClassKind(level: nat): string {
    if level == 0 then "C" else ""
  }

  ghost predicate VendorLines(lines: seq<string>, es: seq<Entry>) {
    |lines| == |es| && forall i :: 0 <= i < |es| ==> IsVendorLine(lines[i], es[i])
  }

  ghost predicate ClassLines(lines: seq<string>, es: seq<Entry>) {
    |lines| == |es| && forall i :: 0 <= i < |es| ==> IsClassLine(lines[i], es[i])
  }

  // All vendors come before all classes.
  datatype Doc = Doc(vendors: seq<TopDoc>, classes: seq<TopDoc>)

  ghost predicate Lists(lines: seq<string>, d: Doc) {
    var n := |TopEntries(d.vendors)|;
    && n <= |lines|
    && VendorLines(lines[..n], TopEntries(d.vendors))
    && ClassLines(lines[n..], TopEntries(d.classes))
  }

  function Meaning(d: Doc): Database {
    Database(TopsOf(d.vendors), TopsOf(d.classes))
  }

  // ---- one line ----

  predicate IsHex(s: string) {
    forall i :: 0 <= i < |s| ==> Digit(s[i]).Some?
  }

  lemma HexDigitReads(d: nat)
    requires d < 16
    ensures Digit(HexChar(d)) == Some(d)
  {}

  lemma {:induction false} HexReadsBack(n: nat, w: nat)
    requires n < Pow16(w)
    ensures Hex(HexDigits(n, w)) == Some(n) && IsHex(HexDigits(n, w))
  {
    if w > 0 {
      HexReadsBack(n / 16, w - 1);
      HexDigitReads(n % 16);
      hide Digit, HexChar;
      var high, low := HexDigits(n / 16, w - 1), HexChar(n % 16);
      assert HexDigits(n, w) == high + [low] && (high + [low])[..w - 1] == high;
      assert n == 16 * (n / 16) + n % 16;
    }
  }

  // A line made of tabs, perhaps a kind, an id and a name.
  lemma LineSplits(level: nat, kind: string, digits: string, name: string, id: nat)
    requires digits != "" && IsHex(digits) && Hex(digits) == Some(id) && id <= 0xFFFF
    requires kind == "" || kind == "C"
    ensures var s := LineOf(level, kind, digits, name);
      SplitLine(s) == Good(Item(kind, level, id, name)) && !Skipped(s)
  {
    assert ParseUint16(digits) == Some(id);
    hide *;
    WordSplits(kind, digits);
    HeadOk(level, Word(kind, digits));
    HeadSplits(Indent(level) + Word(kind, digits), name, level, kind, digits, id);
    LineIs(level, kind, digits, name);
  }

  lemma LineIs(level: nat, kind: string, digits: string, name: string)
    ensures LineOf(level, kind, digits, name) == Indent(level) + Word(kind, digits) + "  " + name
  {}

  lemma HeadSplits(head: string, name: string, level: nat, kind: string, digits: string, id: nat)
    requires head != "" && head[0] != '#' && head[|head| - 1] != ' '
    requires forall i :: 0 <= i < |head| - 1 ==> !(head[i] == head[i + 1] == ' ')
    requires Tabs(head) == level && Kinded(head[level..]) == (kind, digits) && ParseUint16(digits) == Some(id)
    ensures SplitLine(head + "  " + name) == Good(Item(kind, level, id, name)) && !Skipped(head + "  " + name)
  {
    hide Kinded, ParseUint16, Gap;
    var s := head + "  " + name;
    FirstGap(head, name);
    assert s[..|head|] == head && s[|head| + 2..] == name && s[0] == head[0];
  }

  // The part before the gap.
  lemma HeadOk(level: nat, word: string)
    requires word != "" && word[0] != '\t' && word[0] != '#' && word[|word| - 1] != ' '
    requires forall i :: 0 <= i < |word| - 1 ==> !(word[i] == word[i + 1] == ' ')
    ensures var head := Indent(level) + word;
      && head != "" && head[0] != '#' && head[|head| - 1] != ' '
      && (forall i :: 0 <= i < |head| - 1 ==> !(head[i] == head[i + 1] == ' '))
      && Tabs(head) == level && head[level..] == word
  {
    CountTabs(level, word);
  }

  lemma WordSplits(kind: string, digits: string)
    requires digits != "" && IsHex(digits) && (kind == "" || kind == "C")
    ensures var word := Word(kind, digits);
      && Kinded(word) == (kind, digits) && word != "" && word[0] != '\t' && word[0] != '#'
      && word[|word| - 1] != ' ' && forall i :: 0 <= i < |word| - 1 ==> !(word[i] == word[i + 1] == ' ')
  {
    var word := Word(kind, digits);
    assert Digit(digits[0]).Some? && Digit(digits[|digits| - 1]).Some?;
    assert forall i :: 0 <= i < |digits| ==> digits[i] != ' ';
    if kind == "C" {
      assert Space(word) == Some(1);
      assert word[..1] == "C" && word[2..] == digits;
    }
  }

  lemma {:induction false} CountTabs(level: nat, word: string)
    requires word != "" && word[0] != '\t'
    ensures Tabs(Indent(level) + word) == level
  {
    var s := Indent(level) + word;
    assert s[level] == word[0];
    assert forall i :: 0 <= i < level ==> s[i] == Indent(level)[i];
  }

  // The gap is where the head ends if there is none inside it.
  lemma FirstGap(head: string, name: string)
    requires head != "" && head[|head| - 1] != ' '
    requires forall i :: 0 <= i < |head| - 1 ==> !(head[i] == head[i + 1] == ' ')
    ensures Gap(head + "  " + name) == Some(|head|)
  {
    var s := head + "  " + name;
    assert s[|head|] == ' ' && s[|head| + 1] == ' ';
    var g := Gap(s);
    assert forall i :: 0 <= i < |head| ==> s[i] == head[i];
  }

  lemma VendorLineReads(line: string, e: Entry)
    requires IsVendorLine(line, e) && e.id <= 0xFFFF
    ensures SplitLine(line) == Good(Item("", e.level, e.id, e.name)) && !Skipped(line)
  {
    var digits :| Spells(line, "", digits, e);
    LineSplits(e.level, "", digits, e.name, e.id);
  }

  lemma ClassLineReads(line: string, e: Entry)
    requires IsClassLine(line, e) && e.id <= 0xFFFF
    ensures SplitLine(line) == Good(Item(if e.level == 0 then "C" else "", e.level, e.id, e.name)) && !Skipped(line)
  {
    var digits :| Spells(line, ClassKind(e.level), digits, e);
    LineSplits(e.level, ClassKind(e.level), digits, e.name, e.id);
  }

  // The other way round: an accepted line is its tabs, its kind, its digits, the
  // first gap and its name.
  lemma LineIsMadeOf(s: string)
    requires SplitLine(s).Good?
    ensures exists word, digits :: MadeOf(s, SplitLine(s).value, word, digits)
  {
    hide *;
    SplitFacts(s);
    var it := SplitLine(s).value;
    var g := Gap(s).value;
    var word := s[..g][it.level..];
    var digits := Kinded(word).1;
    KindedIs(word);
    Cut(s, it.level, g);
    MadeUp(s, it, word, digits);
  }

  lemma SplitFacts(s: string)
    requires SplitLine(s).Good?
    ensures var it := SplitLine(s).value;
      && Gap(s).Some?
      && var head := s[..Gap(s).value];
         && it.level == Tabs(head) && it.level <= |head| && Gap(s) == Some(it.level + |head[it.level..]|)
         && it.name == s[Gap(s).value + 2..]
         && Kinded(head[it.level..]).0 == it.kind
         && ParseUint16(Kinded(head[it.level..]).1) == Some(it.id)
  {
    hide Kinded, ParseUint16, Gap, Tabs;
  }

  predicate MadeOf(s: string, it: Item, word: string, digits: string) {
    && s == Indent(it.level) + word + "  " + it.name
    && Gap(s) == Some(it.level + |word|)
    && word == (if ' ' in word then it.kind + " " + digits else digits)
    && (' ' !in word ==> it.kind == "") && ' ' !in it.kind
    && ParseUint16(digits) == Some(it.id)
  }

  lemma Cut(s: string, level: nat, g: nat)
    requires g + 2 <= |s| && level == Tabs(s[..g]) && s[g] == s[g + 1] == ' '
    ensures s == Indent(level) + s[..g][level..] + "  " + s[g + 2..]
  {
    assert s[..g][..level] == Indent(level);
  }

  lemma MadeUp(s: string, it: Item, word: string, digits: string)
    requires s == Indent(it.level) + word + "  " + it.name
    requires Gap(s) == Some(it.level + |word|)
    requires word == if ' ' in word then it.kind + " " + digits else digits
    requires (' ' !in word ==> it.kind == "") && ' ' !in it.kind
    requires ParseUint16(digits) == Some(it.id)
    ensures exists word, digits :: MadeOf(s, it, word, digits)
  {
    hide Indent, Gap, ParseUint16;
    assert MadeOf(s, it, word, digits);
  }

  lemma KindedIs(word: string)
    ensures var (kind, digits) := Kinded(word);
      && word == (if ' ' in word then kind + " " + digits else digits)
      && (' ' !in word ==> kind == "") && ' ' !in kind
  {
    var p := Space(word);
    if p.Some? {
      assert word[p.value] in word;
      assert word == word[..p.value] + [word[p.value]] + word[p.value + 1..];
    }
  }

  // ---- listings ----

  // Every entry finds its parent before it.
  ghost predicate Sensible(es: seq<Entry>) {
    forall n :: 0 <= n < |es| ==> HasParent(es, n, es[n].level)
  }

  predicate HasParent(es: seq<Entry>, n: nat, level: nat)
    requires n <= |es|
  {
    level <= 2 && (level > 0 ==> Latest(es, n, level - 1).Some?)
  }

  lemma AttachesNext(es: seq<Entry>, n: nat)
    requires n < |es| && HasParent(es, n, es[n].level)
    ensures Attach(es[..n], es[n]) == Good(es[..n + 1])
  {
    var before := es[..n];
    if es[n].level > 0 { SameLatest(before, es, n, es[n].level - 1); }
    hide Latest;
    assert before + [es[n]] == es[..n + 1];
  }

  lemma AcceptsVendor(es: seq<Entry>, n: nat, line: string)
    requires n < |es| && HasParent(es, n, es[n].level) && es[n].id <= 0xFFFF && IsVendorLine(line, es[n])
    ensures Accept(State("", es[..n], []), line) == Good(State("", es[..n + 1], []))
  {
    VendorLineReads(line, es[n]);
    AttachesNext(es, n);
    hide SplitLine, Attach, IsVendorLine, Skipped, HasParent;
  }

  lemma FirstIsTop(es: seq<Entry>, n: nat)
    requires n < |es| && HasParent(es, n, es[n].level)
    ensures n == 0 ==> es[n].level == 0
  {}

  lemma AcceptsItem(kind: string, vs: seq<Entry>, es: seq<Entry>, n: nat, line: string)
    requires n < |es| && es[n].id < 256 && !Skipped(line)
    requires SplitLine(line) == Good(Item(if es[n].level == 0 then "C" else "", es[n].level, es[n].id, es[n].name))
    requires kind == "C" || (kind == "" && es[n].level == 0)
    requires Attach(es[..n], es[n]) == Good(es[..n + 1])
    ensures Accept(State(kind, vs, es[..n]), line) == Good(State("C", vs, es[..n + 1]))
  {
    hide SplitLine, Attach, Skipped;
    assert es[n] == Entry(es[n].level, es[n].id % 256, es[n].name);
  }

  lemma AcceptsClass(vs: seq<Entry>, es: seq<Entry>, n: nat, line: string)
    requires n < |es| && HasParent(es, n, es[n].level) && es[n].id < 256 && IsClassLine(line, es[n])
    ensures Accept(State(if n == 0 then "" else "C", vs, es[..n]), line) == Good(State("C", vs, es[..n + 1]))
  {
    hide *;
    ClassLineReads(line, es[n]);
    AttachesNext(es, n);
    FirstIsTop(es, n);
    AcceptsItem(if n == 0 then "" else "C", vs, es, n, line);
  }

  lemma {:induction false} VendorsFold(lines: seq<string>, es: seq<Entry>, n: nat, number: nat)
    requires VendorLines(lines, es) && Sensible(es) && n <= |es| && forall e :: e in es ==> e.id <= 0xFFFF
    ensures Fold(State("", es[..n], []), lines[n..], number) == Ended(State("", es, []))
    decreases |es| - n
  {
    hide Accept, IsVendorLine, HasParent;
    if n == |es| {
      assert es[..n] == es;
    } else {
      AcceptsVendor(es, n, lines[n]);
      VendorsFold(lines, es, n + 1, number + 1);
      assert lines[n..][0] == lines[n] && lines[n..][1..] == lines[n + 1..];
    }
  }

  // The kind on the first class line holds for all lines after it.
  lemma {:induction false} ClassesFold(lines: seq<string>, vs: seq<Entry>, es: seq<Entry>, n: nat, number: nat)
    requires ClassLines(lines, es) && Sensible(es) && n <= |es| && forall e :: e in es ==> e.id < 256
    ensures Fold(State(if n == 0 then "" else "C", vs, es[..n]), lines[n..], number)
      == Ended(State(if es == [] then "" else "C", vs, es))
    decreases |es| - n
  {
    hide Accept, IsClassLine, HasParent;
    if n == |es| {
      assert es[..n] == es;
    } else {
      AcceptsClass(vs, es, n, lines[n]);
      ClassesFold(lines, vs, es, n + 1, number + 1);
      assert lines[n..][0] == lines[n] && lines[n..][1..] == lines[n + 1..];
    }
  }

  lemma {:induction false} LeavesSensible(es: seq<Entry>, ls: seq<LeafDoc>)
    requires Sensible(es) && Latest(es, |es|, 0).Some? && Latest(es, |es|, 1).Some?
    ensures Sensible(es + LeafEntries(ls))
  {
    if ls == [] {
      assert es + LeafEntries(ls) == es;
    } else {
      var init, last := ls[..|ls| - 1], ls[|ls| - 1];
      LeavesSensible(es, init);
      LeafLevels(init);
      LatestStays(es, LeafEntries(init), 1);
      SensibleMore(es + LeafEntries(init), Entry(2, last.id, last.name));
      assert es + LeafEntries(ls) == es + LeafEntries(init) + [Entry(2, last.id, last.name)];
    }
  }

  lemma SensibleMore(es: seq<Entry>, e: Entry)
    requires Sensible(es) && HasParent(es, |es|, e.level)
    ensures Sensible(es + [e])
  {
    var es' := es + [e];
    forall n | 0 <= n < |es'| ensures HasParent(es', n, es'[n].level) {
      if es'[n].level > 0 { SameLatest(es, es', n, es'[n].level - 1); }
      if n < |es| { assert HasParent(es, n, es[n].level); }
    }
  }

  lemma {:induction false} MidsSensible(es: seq<Entry>, ms: seq<MidDoc>)
    requires Sensible(es) && Latest(es, |es|, 0).Some?
    ensures Sensible(es + MidEntries(ms))
  {
    if ms == [] {
      assert es + MidEntries(ms) == es;
    } else {
      hide Sensible, Latest, LeafEntries;
      var init, last := ms[..|ms| - 1], ms[|ms| - 1];
      var before, e := es + MidEntries(init), Entry(1, last.id, last.name);
      MidsSensible(es, init);
      MidLevels(init);
      LatestStays(es, MidEntries(init), 0);
      SensibleMore(before, e);
      Extend(before, e);
      LeavesSensible(before + [e], last.leaves);
      Regroup(es, MidEntries(init), [e], LeafEntries(last.leaves));
    }
  }

  lemma {:induction false} TopsSensible(ts: seq<TopDoc>)
    ensures Sensible(TopEntries(ts))
  {
    if ts != [] {
      hide Sensible;
      var init, last := ts[..|ts| - 1], ts[|ts| - 1];
      var before, e := TopEntries(init), Entry(0, last.id, last.name);
      TopsSensible(init);
      SensibleMore(before, e);
      Extend(before, e);
      MidsSensible(before + [e], last.mids);
    }
  }

  // ---- the round trip ----

  predicate IdsFit(d: Doc) {
    && (forall e :: e in TopEntries(d.vendors) ==> e.id <= 0xFFFF)
    && (forall e :: e in TopEntries(d.classes) ==> e.id < 256)
  }

  // Any text whose lines, with blank ones and comments anywhere between them, list a
  // database is parsed to that database, whatever spelling of the ids it uses.
  lemma RoundTrip(d: Doc, lines: seq<string>, others: seq<string>, ends: seq<string>, eager: bool)
    requires IdsFit(d) && Lists(others, d) && Interspersed(lines, others) && Framed(lines, ends, eager, "")
    ensures Parse(Joined(lines, ends, ""), Ending(EOF, eager), 0, START) == Ids(Meaning(d))
  {
    hide Accept, Forest, Framed, Sensible, TopEntries, TopsOf, VendorLines, ClassLines, Parse, Interspersed;
    var vs, cs := TopEntries(d.vendors), TopEntries(d.classes);
    TopsSensible(d.vendors);
    TopsSensible(d.classes);
    VendorsFold(others[..|vs|], vs, 0, 0);
    ClassesFold(others[|vs|..], vs, cs, 0, |vs|);
    assert vs[..0] == [] && cs[..0] == [];
    assert others[..|vs|][0..] == others[..|vs|] && others[|vs|..][0..] == others[|vs|..];
    assert others[..|vs|] + others[|vs|..] == others;
    FoldAppend(START, others[..|vs|], others[|vs|..], 0);
    CommentsDoNothing(START, lines, others, 0, 0);
    ParseIsFold(lines, ends, "", Ending(EOF, eager), 0, START);
    ListTops(d.vendors);
    ListTops(d.classes);
  }

  // Names that fit on a line of usb.ids at every level: with two tabs, four digits,
  // two spaces and "\r\n".
  predicate Writable(name: string) {
    '\n' !in name && |name| + 10 <= BUFFER
  }

  predicate NamesFit(d: Doc) {
    forall e :: e in TopEntries(d.vendors) + TopEntries(d.classes) ==> Writable(e.name)
  }

  predicate FitsFile(line: string) {
    '\n' !in line && |line| + 2 <= BUFFER
  }

  // Every such listing can be written to a file, with, for example, four and two
  // digits.
  lemma EveryListingHasLines(d: Doc) returns (lines: seq<string>)
    requires IdsFit(d) && NamesFit(d)
    ensures Lists(lines, d)
    ensures forall l :: l in lines ==> FitsFile(l)
  {
    var vs, cs := TopEntries(d.vendors), TopEntries(d.classes);
    TopsSensible(d.vendors);
    TopsSensible(d.classes);
    LevelsFit(vs);
    LevelsFit(cs);
    var v := WriteVendors(vs);
    var c := WriteClasses(cs);
    lines := v + c;
    assert lines[..|vs|] == v && lines[|vs|..] == c;
  }

  lemma LevelsFit(es: seq<Entry>)
    requires Sensible(es)
    ensures forall e :: e in es ==> e.level <= 2
  {
    forall e | e in es ensures e.level <= 2 {
      var n :| 0 <= n < |es| && es[n] == e;
      assert HasParent(es, n, e.level);
    }
  }

  predicate WritableEntry(e: Entry, bound: nat) {
    e.id < bound && e.level <= 2 && Writable(e.name)
  }

  lemma {:induction false} WriteVendors(es: seq<Entry>) returns (lines: seq<string>)
    requires forall e :: e in es ==> WritableEntry(e, 0x1_0000)
    ensures VendorLines(lines, es) && forall l :: l in lines ==> FitsFile(l)
  {
    hide IsVendorLine, FitsFile, WritableEntry;
    if es == [] {
      return [];
    }
    lines := WriteVendors(es[..|es| - 1]);
    var line := WriteVendor(es[|es| - 1]);
    lines := lines + [line];
  }

  lemma WriteVendor(e: Entry) returns (line: string)
    requires WritableEntry(e, 0x1_0000)
    ensures IsVendorLine(line, e) && FitsFile(line)
  {
    var digits := HexDigits(e.id, 4);
    assert Pow16(4) == 0x1_0000;
    HexReadsBack(e.id, 4);
    LineFits(e, "", digits);
    hide *;
    line := SpellOut(e, "", digits);
    IsSpelled(line, e, digits);
  }

  lemma {:induction false} WriteClasses(es: seq<Entry>) returns (lines: seq<string>)
    requires forall e :: e in es ==> WritableEntry(e, 256)
    ensures ClassLines(lines, es) && forall l :: l in lines ==> FitsFile(l)
  {
    hide IsClassLine, FitsFile, WritableEntry;
    if es == [] {
      return [];
    }
    lines := WriteClasses(es[..|es| - 1]);
    var line := WriteClass(es[|es| - 1]);
    lines := lines + [line];
  }

  lemma WriteClass(e: Entry) returns (line: string)
    requires WritableEntry(e, 256)
    ensures IsClassLine(line, e) && FitsFile(line)
  {
    var digits := HexDigits(e.id, 2);
    assert Pow16(2) == 256;
    HexReadsBack(e.id, 2);
    LineFits(e, ClassKind(e.level), digits);
    hide *;
    line := SpellOut(e, ClassKind(e.level), digits);
    IsSpelled(line, e, digits);
  }

  lemma LineFits(e: Entry, kind: string, digits: string)
    requires e.level <= 2 && Writable(e.name) && IsHex(digits) && |digits| <= 4
    requires kind == "" || (kind == "C" && e.level == 0)
    ensures FitsFile(LineOf(e.level, kind, digits, e.name))
  {
    assert '\n' !in digits by { assert Digit('\n').None?; }
    assert '\n' !in Indent(e.level);
    assert '\n' !in Word(kind, digits);
  }

  lemma SpellOut(e: Entry, kind: string, digits: string) returns (line: string)
    requires digits != "" && IsHex(digits) && Hex(digits) == Some(e.id)
    ensures Spells(line, kind, digits, e) && line == LineOf(e.level, kind, digits, e.name)
  {
    line := LineOf(e.level, kind, digits, e.name);
  }

  lemma IsSpelled(line: string, e: Entry, digits: string)
    ensures Spells(line, "", digits, e) ==> IsVendorLine(line, e)
    ensures Spells(line, ClassKind(e.level), digits, e) ==> IsClassLine(line, e)
  {}

  // A line as the repository's own file has it.
  lemma TwoDigitInterface()
    ensures IsVendorLine("\t\t12  Interface One", Entry(2, 0x12, "Interface One"))
  {
    var digits := "12";
    assert digits[..1] == "1" && digits[..1][..0] == "";
    assert Hex("") == Some(0) && Hex("1") == Some(1) && Hex(digits) == Some(0x12);
    assert Indent(2) == "\t\t";
    assert LineOf(2, "", digits, "Interface One") == "\t\t12  Interface One";
    assert Spells("\t\t12  Interface One", "", digits, Entry(2, 0x12, "Interface One"));
  }

  // Every database has a listing. `ok` is any property its names have.
  lemma {:induction false} ListLeafMap(m: map<nat, string>, ok: string -> bool) returns (ls: seq<LeafDoc>)
    requires forall id :: id in m ==> ok(m[id])
    ensures LeavesOf(ls) == m
    ensures forall e :: e in LeafEntries(ls) ==> e.id in m && ok(e.name)
    decreases |m|
  {
    if m == map[] {
      return [];
    }
    var id :| id in m;
    ls := ListLeafMap(m - {id}, ok);
    ls := ls + [LeafDoc(id, m[id])];
    assert ls[..|ls| - 1] + [ls[|ls| - 1]] == ls;
  }

  predicate MidIsOk(m: Mid, bound: nat, ok: string -> bool) {
    ok(m.name) && forall l :: l in m.leaves ==> l < bound && ok(m.leaves[l])
  }

  predicate MidsAreOk(ms: map<nat, Mid>, bound: nat, ok: string -> bool) {
    forall id :: id in ms ==> id < bound && MidIsOk(ms[id], bound, ok)
  }

  predicate TopsAreOk(ts: map<nat, Top>, bound: nat, ok: string -> bool) {
    forall id :: id in ts ==> id < bound && ok(ts[id].name) && MidsAreOk(ts[id].mids, bound, ok)
  }

  lemma {:induction false} ListMidMap(m: map<nat, Mid>, bound: nat, ok: string -> bool) returns (ms: seq<MidDoc>)
    requires MidsAreOk(m, bound, ok)
    ensures MidsOf(ms) == m
    ensures forall e :: e in MidEntries(ms) ==> e.id < bound && ok(e.name)
    decreases |m|
  {
    if m == map[] {
      return [];
    }
    var id :| id in m;
    var init := ListMidMap(m - {id}, bound, ok);
    var ls := ListLeafMap(m[id].leaves, ok);
    ms := init + [MidDoc(id, m[id].name, ls)];
    assert ms[..|ms| - 1] == init;
  }

  lemma {:induction false} ListTopMap(m: map<nat, Top>, bound: nat, ok: string -> bool) returns (ts: seq<TopDoc>)
    requires TopsAreOk(m, bound, ok)
    ensures TopsOf(ts) == m
    ensures forall e :: e in TopEntries(ts) ==> e.id < bound && ok(e.name)
    decreases |m|
  {
    if m == map[] {
      return [];
    }
    var id :| id in m;
    var init := ListTopMap(m - {id}, bound, ok);
    var ms := ListMidMap(m[id].mids, bound, ok);
    ts := init + [TopDoc(id, m[id].name, ms)];
    assert ts[..|ts| - 1] == init;
  }

  // A database with 16-bit and 8-bit ids and such names.
  predicate DatabaseIsOk(db: Database, ok: string -> bool) {
    TopsAreOk(db.vendors, 0x1_0000, ok) && TopsAreOk(db.classes, 256, ok)
  }

  lemma EveryDatabaseIsListed(db: Database, ok: string -> bool) returns (d: Doc)
    requires DatabaseIsOk(db, ok)
    ensures IdsFit(d) && Meaning(d) == db
    ensures forall e :: e in TopEntries(d.vendors) + TopEntries(d.classes) ==> ok(e.name)
  {
    var vs := ListTopMap(db.vendors, 0x1_0000, ok);
    var cs := ListTopMap(db.classes, 256, ok);
    d := Doc(vs, cs);
  }

  // So every database whose names fit on a line is what some file is parsed to.
  lemma EveryDatabaseComesBack(db: Database, eager: bool) returns (text: string)
    requires DatabaseIsOk(db, name => Writable(name))
    ensures Parse(text, Ending(EOF, eager), 0, START) == Ids(db)
  {
    hide *;
    var d := EveryDatabaseIsListed(db, name => Writable(name));
    NamesDoFit(d);
    var lines := EveryListingHasLines(d);
    var ends := FileEnds(lines, eager);
    text := Joined(lines, ends, "");
    NoneInterspersed(lines);
    RoundTrip(d, lines, lines, ends, eager);
  }

  lemma NamesDoFit(d: Doc)
    requires forall e :: e in TopEntries(d.vendors) + TopEntries(d.classes) ==> Writable(e.name)
    ensures NamesFit(d)
  {}

  lemma FileEnds(lines: seq<string>, eager: bool) returns (ends: seq<string>)
    requires forall l :: l in lines ==> FitsFile(l)
    ensures |ends| == |lines| && Framed(lines, ends, eager, "")
  {
    ends := seq(|lines|, _ => "\r\n");
    forall i | 0 <= i < |lines| ensures Fits(lines[i], ends[i], eager) {
      assert lines[i] in lines;
    }
  }

  // ---- lines in another order ----

  // A line of a new vendor goes to the vendors if and only if no line before it
  // brought a kind. After a class line it becomes a class, with its id cut to a
  // byte; after a line of any other kind it is dropped.
  lemma VendorLineLands(lines: seq<string>, line: string, v: Entry)
    requires Fold(START, lines, 0).Ended? && IsVendorLine(line, v) && v.level == 0 && v.id <= 0xFFFF
    ensures var s := Fold(START, lines, 0).s;
      && (s.kind == "" <==> forall i :: 0 <= i < |lines| ==> Kindless(lines[i]))
      && Accept(s, line) == Good(
           if s.kind == "" then s.(vendors := s.vendors + [v])
           else if s.kind == "C" then s.(classes := s.classes + [v.(id := v.id % 256)])
           else s)
  {
    KindSticks(START, lines, 0);
    VendorLineReads(line, v);
    hide SplitLine, IsVendorLine, Skipped, Fold, Kindless;
  }
}
