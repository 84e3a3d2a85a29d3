// A usb.ids file as lines: parsing is a fold over them, for every text.
module UsbIdsLines {
  import opened Base
  import opened UsbIdsSpec

  // ---- the fold ----

  // The parser as a fold over lines: the final state, or the first line that was
  // rejected.
  datatype Folded = Ended(s: State) | Stopped(number: nat, why: Why)

  function Fold(s: State, lines: seq<string>, number: nat): Folded
    decreases |lines|
  {
    if lines == [] then Ended(s) else
      match Accept(s, lines[0])
      case Bad(why) => Stopped(number, why)
      case Good(s') => Fold(s', lines[1..], number + 1)
  }

  lemma {:induction false} FoldAppend(s: State, a: seq<string>, b: seq<string>, number: nat)
    ensures Fold(s, a + b, number) ==
      match Fold(s, a, number)
      case Stopped(n, why) => Stopped(n, why)
      case Ended(s') => Fold(s', b, number + |a|)
    decreases |a|
  {
    hide Accept;
    if a == [] {
      assert a + b == b;
    } else {
      assert (a + b)[0] == a[0] && (a + b)[1..] == a[1..] + b;
      if Accept(s, a[0]).Good? { FoldAppend(Accept(s, a[0]).value, a[1..], b, number + 1); }
    }
  }

  // The fold stops exactly at the first line that is not acceptable after the
  // lines before it.
  lemma StopsAtFirstBad(s: State, lines: seq<string>, number: nat, k: nat, why: Why)
    ensures Fold(s, lines, number) == Stopped(number + k, why) <==>
      k < |lines| && Fold(s, lines[..k], number).Ended? && Accept(Fold(s, lines[..k], number).s, lines[k]) == Bad(why)
  {
    hide Accept;
    StopsWithin(s, lines, number);
    if k < |lines| {
      FoldAppend(s, lines[..k], lines[k..], number);
      assert lines[..k] + lines[k..] == lines;
      StopsWithin(s, lines[..k], number);
      if Fold(s, lines[..k], number).Ended? {
        var s' := Fold(s, lines[..k], number).s;
        if Accept(s', lines[k]).Good? { StopsWithin(Accept(s', lines[k]).value, lines[k..][1..], number + k + 1); }
      }
    }
  }

  lemma {:induction false} StopsWithin(s: State, lines: seq<string>, number: nat)
    ensures Fold(s, lines, number).Stopped? ==> number <= Fold(s, lines, number).number < number + |lines|
    decreases |lines|
  {
    hide Accept;
    if lines != [] && Accept(s, lines[0]).Good? {
      StopsWithin(Accept(s, lines[0]).value, lines[1..], number + 1);
    }
  }

  // A blank line or a comment changes nothing. Any other line must be well-formed;
  // what is wrong with it otherwise is that nothing separates the id from the name,
  // or else the id.
  lemma OnlyCommentsAreSkipped(s: State, line: string)
    ensures line == "" || line[0] == '#' ==> Accept(s, line) == Good(s)
    ensures line != "" && line[0] != '#' ==>
      && (SplitLine(line) == Bad(Malformatted) <==> forall i :: 0 <= i < |line| - 1 ==> !(line[i] == line[i + 1] == ' '))
      && (SplitLine(line).Bad? ==> Accept(s, line) == Bad(SplitLine(line).why))
      && (SplitLine(line).Bad? ==> SplitLine(line).why == Malformatted || SplitLine(line).why == BadId)
  {}

  // These lines are the others with blank lines and comments in between.
  ghost predicate Interspersed(lines: seq<string>, others: seq<string>)
    decreases |lines|
  {
    if lines == [] then others == [] else
      || ((lines[0] == "" || lines[0][0] == '#') && Interspersed(lines[1..], others))
      || (others != [] && lines[0] == others[0] && Interspersed(lines[1..], others[1..]))
  }

  lemma {:induction false} CommentsDoNothing(s: State, lines: seq<string>, others: seq<string>, n: nat, m: nat)
    requires Interspersed(lines, others) && Fold(s, others, m).Ended?
    ensures Fold(s, lines, n) == Fold(s, others, m)
    decreases |lines|
  {
    if lines != [] {
      OnlyCommentsAreSkipped(s, lines[0]);
      hide Accept, SplitLine;
      if (lines[0] == "" || lines[0][0] == '#') && Interspersed(lines[1..], others) {
        CommentsDoNothing(s, lines[1..], others, n + 1, m);
      } else {
        CommentsDoNothing(Accept(s, lines[0]).value, lines[1..], others[1..], n + 1, m + 1);
      }
    }
  }

  lemma {:induction false} NoneInterspersed(lines: seq<string>)
    ensures Interspersed(lines, lines)
    decreases |lines|
  {
    if lines != [] { NoneInterspersed(lines[1..]); }
  }

  // ---- the kind ----

  // A line that brings no kind.
  predicate Kindless(line: string) {
    line == "" || line[0] == '#' || (SplitLine(line).Good? && SplitLine(line).value.kind == "")
  }

  // Lines are vendor lines as long as none brought a kind, and never again after.
  lemma {:induction false} KindSticks(s: State, lines: seq<string>, number: nat)
    requires Fold(s, lines, number).Ended?
    ensures Fold(s, lines, number).s.kind == "" <==>
      s.kind == "" && forall i :: 0 <= i < |lines| ==> Kindless(lines[i])
    ensures s.kind != "" ==> Fold(s, lines, number).s.vendors == s.vendors
    decreases |lines|
  {
    if lines != [] {
      var s' := Accept(s, lines[0]).value;
      KindSticks(s', lines[1..], number + 1);
      KindOfOne(s, lines[0]);
      hide Accept, Kindless;
      assert forall i :: 1 <= i < |lines| ==> lines[i] == lines[1..][i - 1];
    }
  }

  lemma KindOfOne(s: State, line: string)
    requires Accept(s, line).Good?
    ensures Accept(s, line).value.kind == "" <==> s.kind == "" && Kindless(line)
    ensures s.kind != "" ==> Accept(s, line).value.kind != "" && Accept(s, line).value.vendors == s.vendors
  {}

  // ---- entries ----

  // An entry is refused exactly if it is too deep or there is nothing it belongs to.
  lemma RefusedEntries(es: seq<Entry>, e: Entry)
    ensures Attach(es, e) ==
      if e.level >= 3 then Bad(TooDeep)
      else if e.level >= 1 && forall k :: 0 <= k < |es| ==> es[k].level != e.level - 1 then Bad(Orphan)
      else Good(es + [e])
  {}

  // ---- ids ----

  // The digits are hexadecimal, in either case.
  lemma DigitIs(c: char, d: nat)
    ensures Digit(c) == Some(d) <==> d < 16 && (c == "0123456789abcdef"[d] || c == "0123456789ABCDEF"[d])
  {}

  // An id is a number of such digits that fits 16 bits, its value in base 16.
  lemma IdIs(s: string)
    ensures ParseUint16(s).None? <==>
      s == "" || (exists i :: 0 <= i < |s| && Digit(s[i]).None?) || (Hex(s).Some? && Hex(s).value >= 65536)
    ensures ParseUint16(s).Some? ==> ParseUint16(s) == Hex(s)
    ensures s != "" && Hex(s).Some? ==>
      Digit(s[|s| - 1]).Some? && Hex(s[..|s| - 1]).Some?
      && Hex(s).value == 16 * Hex(s[..|s| - 1]).value + Digit(s[|s| - 1]).value
  {
    HexDefined(s);
  }

  lemma {:induction false} HexDefined(s: string)
    ensures Hex(s).None? <==> exists i :: 0 <= i < |s| && Digit(s[i]).None?
  {
    if s != "" {
      var n := |s| - 1;
      HexDefined(s[..n]);
      assert forall i :: 0 <= i < n ==> s[..n][i] == s[i];
      hide Digit;
      if Hex(s).None? && Digit(s[n]).Some? {
        var i :| 0 <= i < n && Digit(s[..n][i]).None?;
        assert Digit(s[i]).None?;
      }
    }
  }

  // ---- text ----

  // A line is too long if there is no newline among 512 bytes, unless the file
  // ends with them and the reader says so at once.
  lemma TooLongIs(text: string, eager: bool)
    ensures ReadOne(text, eager) == Full <==>
      && |text| >= 512 && (forall i :: 0 <= i < 512 ==> text[i] != '\n')
      && !(eager && |text| == 512)
  {}


  // A line with its terminator.
  predicate Fits(line: string, end: string, eager: bool) {
    && '\n' !in line
    && match end
       case "\n" => |line| + 1 <= BUFFER && Chomp(line) == line
       case "\r\n" => |line| + 2 <= BUFFER
       case "" => 0 < |line| < BUFFER + (if eager then 1 else 0)
       case _ => false
  }

  // Lines as they may stand in a file before `rest`. Only the very last line may
  // have no terminator.
  predicate Framed(lines: seq<string>, ends: seq<string>, eager: bool, rest: string) {
    && |lines| == |ends|
    && forall i :: 0 <= i < |lines| ==>
         Fits(lines[i], ends[i], eager) && (ends[i] == "" ==> i == |lines| - 1 && rest == "")
  }

  function Joined(lines: seq<string>, ends: seq<string>, rest: string): string
    requires |lines| == |ends|
  {
    if lines == [] then rest else lines[0] + ends[0] + Joined(lines[1..], ends[1..], rest)
  }

  lemma LineEndsAt(line: string, rest: string)
    requires '\n' !in line && (rest == "" || rest[0] == '\n')
    ensures LineEnd(line + rest) == |line|
  {
    var text := line + rest;
    assert forall i :: 0 <= i < |line| ==> text[i] == line[i];
    assert rest != "" ==> text[|line|] == rest[0];
  }

  lemma ReadsLine(line: string, end: string, eager: bool, rest: string)
    requires Fits(line, end, eager) && (end == "" ==> rest == "")
    ensures ReadOne(line + end + rest, eager) == Line(line, rest)
  {
    var text := line + end + rest;
    if end == "" {
      LineEndsAt(line, "");
      assert text == line + "" == line;
    } else if end == "\n" {
      LineEndsAt(line, end + rest);
      assert text == line + (end + rest);
      assert text[..|line|] == line && text[|line| + 1..] == rest;
    } else {
      LineEndsAt(line + "\r", "\n" + rest);
      assert text == line + "\r" + ("\n" + rest);
      assert text[..|line| + 1] == line + "\r" && text[|line| + 2..] == rest;
      assert (line + "\r")[..|line|] == line;
    }
  }

  // The outcome after the lines of a file, of which `rest` could not be read.
  ghost function Verdict(f: Folded, end: Ending, number: nat, rest: string): Outcome {
    match f
    case Stopped(k, why) => Failed(AtLine(k, why))
    case Ended(s) =>
      if rest != "" then Failed(AtLine(number, LineTooLong))
      else if end.error == EOF then Ids(Database(Forest(s.vendors), Forest(s.classes)))
      else Failed(ReadFailed(end.error))
  }

  // Reading such a text is folding over its lines.
  lemma {:induction false} ParseIsFold(lines: seq<string>, ends: seq<string>, rest: string, end: Ending, number: nat, s: State)
    requires Framed(lines, ends, end.eager, rest)
    requires rest == "" || ReadOne(rest, end.eager) == Full
    ensures Parse(Joined(lines, ends, rest), end, number, s)
      == Verdict(Fold(s, lines, number), end, number + |lines|, rest)
    decreases |lines|
  {
    hide *;
    if lines == [] {
      NoLines(ends, rest, end, number, s);
    } else {
      var more := FirstLine(lines, ends, end.eager, rest);
      ParseGoesOn(Joined(lines, ends, rest), end, number, s, lines[0], more);
      FoldGoesOn(s, lines, number);
      var next := Accept(s, lines[0]);
      if next.Good? {
        ParseIsFold(lines[1..], ends[1..], rest, end, number + 1, next.value);
      } else {
        StoppedVerdict(number, next.why, end, number + |lines|, rest);
      }
    }
  }

  lemma FirstLine(lines: seq<string>, ends: seq<string>, eager: bool, rest: string) returns (more: string)
    requires lines != [] && Framed(lines, ends, eager, rest)
    ensures |ends| == |lines| && Framed(lines[1..], ends[1..], eager, rest)
    ensures more == Joined(lines[1..], ends[1..], rest)
    ensures ReadOne(Joined(lines, ends, rest), eager) == Line(lines[0], more)
  {
    hide Fits, ReadOne;
    more := Joined(lines[1..], ends[1..], rest);
    ReadsLine(lines[0], ends[0], eager, more);
  }

  lemma FoldGoesOn(s: State, lines: seq<string>, number: nat)
    requires lines != []
    ensures Fold(s, lines, number) ==
      match Accept(s, lines[0])
      case Bad(why) => Stopped(number, why)
      case Good(s') => Fold(s', lines[1..], number + 1)
  {}

  lemma NoLines(ends: seq<string>, rest: string, end: Ending, number: nat, s: State)
    requires Framed([], ends, end.eager, rest)
    requires rest == "" || ReadOne(rest, end.eager) == Full
    ensures Parse(Joined([], ends, rest), end, number, s) == Verdict(Fold(s, [], number), end, number, rest)
  {
    hide Parse, Verdict, ReadOne;
    ParseEnds(rest, end, number, s);
  }

  lemma ParseEnds(rest: string, end: Ending, number: nat, s: State)
    requires rest == "" || ReadOne(rest, end.eager) == Full
    ensures Parse(rest, end, number, s) == Verdict(Ended(s), end, number, rest)
  {}

  lemma ParseGoesOn(text: string, end: Ending, number: nat, s: State, line: string, more: string)
    requires ReadOne(text, end.eager) == Line(line, more)
    ensures Parse(text, end, number, s) ==
      match Accept(s, line)
      case Bad(why) => Failed(AtLine(number, why))
      case Good(s') => Parse(more, end, number + 1, s')
  {}

  lemma StoppedVerdict(k: nat, why: Why, end: Ending, number: nat, rest: string)
    ensures Verdict(Stopped(k, why), end, number, rest) == Failed(AtLine(k, why))
  {}

  // And every text is such a text: lines that fit, up to its end or to a first
  // one that does not.
  lemma {:induction false} TextIsLines(text: string, eager: bool) returns (lines: seq<string>, ends: seq<string>, rest: string)
    ensures Framed(lines, ends, eager, rest) && text == Joined(lines, ends, rest)
    ensures rest == "" || ReadOne(rest, eager) == Full
    decreases |text|
  {
    hide *;
    match ReadOne(text, eager) {
      case Done =>
        NothingFramed("", eager);
        DoneIsEmpty(text, eager);
        return [], [], "";
      case Full =>
        NothingFramed(text, eager);
        return [], [], text;
      case Line(line, more) =>
        var end := Terminator(text, eager, line, more);
        var ls, es;
        ls, es, rest := TextIsLines(more, eager);
        OneMoreLine(line, end, ls, es, eager, rest);
        return [line] + ls, [end] + es, rest;
    }
  }

  lemma DoneIsEmpty(text: string, eager: bool)
    requires ReadOne(text, eager).Done?
    ensures text == ""
  {}

  lemma NothingFramed(rest: string, eager: bool)
    ensures Framed([], [], eager, rest) && Joined([], [], rest) == rest
  {}

  lemma OneMoreLine(line: string, end: string, lines: seq<string>, ends: seq<string>, eager: bool, rest: string)
    requires Framed(lines, ends, eager, rest) && Fits(line, end, eager)
    requires end == "" ==> Joined(lines, ends, rest) == ""
    ensures Framed([line] + lines, [end] + ends, eager, rest)
    ensures Joined([line] + lines, [end] + ends, rest) == line + end + Joined(lines, ends, rest)
  {
    assert lines != [] ==> Joined(lines, ends, rest) != "" by {
      if lines != [] { assert Fits(lines[0], ends[0], eager); }
    }
    hide Fits;
    assert ([line] + lines)[1..] == lines && ([end] + ends)[1..] == ends;
  }

  lemma Terminator(text: string, eager: bool, line: string, more: string) returns (end: string)
    requires ReadOne(text, eager) == Line(line, more)
    ensures Fits(line, end, eager) && text == line + end + more && (end == "" ==> more == "")
    ensures |more| < |text|
  {
    var n := LineEnd(text);
    if n == |text| {
      return "";
    }
    var raw := text[..n];
    assert text == raw + "\n" + more;
    if raw != "" && raw[n - 1] == '\r' {
      assert raw == line + "\r";
      assert text == line + "\r\n" + more;
      return "\r\n";
    }
    return "\n";
  }

  // So every file is parsed as a fold over its lines, and fails with the first
  // line that the fold rejects or that is too long, whichever comes first.
  lemma EveryTextIsFolded(text: string, end: Ending)
    ensures exists lines, ends, rest ::
      && Framed(lines, ends, end.eager, rest) && text == Joined(lines, ends, rest)
      && (rest == "" || ReadOne(rest, end.eager) == Full)
      && Parse(text, end, 0, START) == Verdict(Fold(START, lines, 0), end, |lines|, rest)
  {
    var lines, ends, rest := TextIsLines(text, end.eager);
    ParseIsFold(lines, ends, rest, end, 0, START);
  }
}
