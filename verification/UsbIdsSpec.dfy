// The usb.ids format and the meaning of a file in it, on values. Characters stand
// for bytes. UsbIds.dfy is the parser with its objects and pointers.
module UsbIdsSpec {
  import opened Base

  datatype Why = LineTooLong | Malformatted | BadId | Orphan | TooDeep

  datatype Failure = ReadFailed(error: Error) | AtLine(number: nat, why: Why)

  datatype Parsed<+T> = Good(value: T) | Bad(why: Why)

  // ---- lines ----

  // The size of the bufio.Reader.
  const BUFFER := 512

  // The position of the first newline, or the length.
  function LineEnd(text: string): (n: nat)
    ensures n <= |text|
    ensures forall i :: 0 <= i < n ==> text[i] != '\n'
    ensures n < |text| ==> text[n] == '\n'
  {
    if text == "" || text[0] == '\n' then 0 else 1 + LineEnd(text[1..])
  }

  // ReadLine drops "\r\n" as well as "\n".
  function Chomp(line: string): string {
    if line != "" && line[|line| - 1] == '\r' then line[..|line| - 1] else line
  }

  datatype Read = Line(line: string, rest: string) | Full | Done

  // How the reader ends: with which error, normally io.EOF, and whether it reports
  // it together with the last bytes or only when asked for more.
  datatype Ending = Ending(error: Error, eager: bool)

  // One ReadLine: the buffer must hold the line with its newline. A full buffer
  // without a newline is one line only if the end of the file is known by then.
  function ReadOne(text: string, eager: bool): Read {
    var n := LineEnd(text);
    if text == "" then Done
    else if n >= BUFFER && !(eager && n == BUFFER == |text|) then Full
    else if n == |text| then Line(text, "")
    else Line(Chomp(text[..n]), text[n + 1..])
  }

  // ---- one line ----

  // The first position of two spaces.
  function Gap(s: string): (g: Option<nat>)
    ensures g.Some? ==> g.value + 2 <= |s| && s[g.value] == s[g.value + 1] == ' '
    ensures g.Some? ==> forall i :: 0 <= i < g.value ==> !(s[i] == s[i + 1] == ' ')
    ensures g.None? ==> forall i :: 0 <= i < |s| - 1 ==> !(s[i] == s[i + 1] == ' ')
  {
    if |s| < 2 then None
    else if s[0] == s[1] == ' ' then Some(0)
    else var g := Gap(s[1..]); if g.Some? then Some(g.value + 1) else None
  }

  function Space(s: string): (p: Option<nat>)
    ensures p.Some? ==> p.value < |s| && s[p.value] == ' '
    ensures p.Some? ==> forall i :: 0 <= i < p.value ==> s[i] != ' '
    ensures p.None? ==> ' ' !in s
  {
    if s == "" then None
    else if s[0] == ' ' then Some(0)
    else var p := Space(s[1..]); if p.Some? then Some(p.value + 1) else None
  }

  function Tabs(s: string): (n: nat)
    ensures n <= |s|
    ensures forall i :: 0 <= i < n ==> s[i] == '\t'
    ensures n < |s| ==> s[n] != '\t'
  {
    if s != "" && s[0] == '\t' then 1 + Tabs(s[1..]) else 0
  }

  function Digit(c: char): Option<nat> {
    if '0' <= c <= '9' then Some(c as nat - '0' as nat)
    else if 'a' <= c <= 'f' then Some(c as nat - 'a' as nat + 10)
    else if 'A' <= c <= 'F' then Some(c as nat - 'A' as nat + 10)
    else None
  }

  function Hex(s: string): Option<nat> {
    if s == "" then Some(0) else
      var high, low := Hex(s[..|s| - 1]), Digit(s[|s| - 1]);
      if high.Some? && low.Some? then Some(16 * high.value + low.value) else None
  }

  // strconv.ParseUint(s, 16, 16)
  function ParseUint16(s: string): Option<nat> {
    if s == "" || Hex(s).None? || Hex(s).value > 0xFFFF then None else Hex(s)
  }

  datatype Item = Item(kind: string, level: nat, id: nat, name: string)

  // An optional kind before the id.
  function Kinded(word: string): (string, string) {
    match Space(word)
    case None => ("", word)
    case Some(p) => (word[..p], word[p + 1..])
  }

  function SplitLine(s: string): Parsed<Item> {
    match Gap(s)
    case None => Bad(Malformatted)
    case Some(g) =>
      var head := s[..g];
      var level := Tabs(head);
      var (kind, digits) := Kinded(head[level..]);
      match ParseUint16(digits)
      case None => Bad(BadId)
      case Some(id) => Good(Item(kind, level, id, s[g + 2..]))
  }

  // ---- all lines ----

  // A line of the vendor block or of the class block.
  datatype Entry = Entry(level: nat, id: nat, name: string)

  // The last of the first n entries with this level.
  function Latest(es: seq<Entry>, n: nat, level: nat): (k: Option<nat>)
    requires n <= |es|
    ensures k.Some? ==> k.value < n && es[k.value].level == level
    ensures k.Some? ==> forall j :: k.value < j < n ==> es[j].level != level
    ensures k.None? ==> forall j :: 0 <= j < n ==> es[j].level != level
  {
    if n == 0 then None
    else if es[n - 1].level == level then Some(n - 1)
    else Latest(es, n - 1, level)
  }

  // An entry belongs to the latest entry one level up, wherever that is.
  function Attach(es: seq<Entry>, e: Entry): Parsed<seq<Entry>> {
    if e.level > 2 then Bad(TooDeep)
    else if e.level > 0 && Latest(es, |es|, e.level - 1).None? then Bad(Orphan)
    else Good(es + [e])
  }

  // `kind` stays until a line brings another one.
  datatype State = State(kind: string, vendors: seq<Entry>, classes: seq<Entry>)

  const START := State("", [], [])

  predicate Skipped(line: string) {
    line == "" || line[0] == '#'
  }

  function Accept(s: State, line: string): Parsed<State> {
    if Skipped(line) then Good(s) else
      match SplitLine(line)
      case Bad(why) => Bad(why)
      case Good(it) => AcceptItem(s.(kind := if it.kind != "" then it.kind else s.kind), it.level, it.id, it.name)
  }

  // Class, subclass and protocol ids are cut to a byte.
  function AcceptItem(s: State, level: nat, id: nat, name: string): Parsed<State> {
    if s.kind == "" then
      match Attach(s.vendors, Entry(level, id, name)) {
        case Bad(why) => Bad(why)
        case Good(es) => Good(s.(vendors := es))
      }
    else if s.kind == "C" then
      match Attach(s.classes, Entry(level, id % 256, name)) {
        case Bad(why) => Bad(why)
        case Good(es) => Good(s.(classes := es))
      }
    else Good(s)
  }

  // ---- the database ----

  // A product with its interfaces, or a subclass with its protocols.
  datatype Mid = Mid(name: string, leaves: map<nat, string>)

  // A vendor with its products, or a class with its subclasses.
  datatype Top = Top(name: string, mids: map<nat, Mid>)

  datatype Database = Database(vendors: map<nat, Top>, classes: map<nat, Top>)

  // Which of the first n entries are the top ones: the last one for each id.
  function Tops(es: seq<Entry>, n: nat): map<nat, nat>
    requires n <= |es|
  {
    if n == 0 then map[]
    else if es[n - 1].level == 0 then Tops(es, n - 1)[es[n - 1].id := n - 1]
    else Tops(es, n - 1)
  }

  // Which of the first n entries belong to the top entry k.
  function Mids(es: seq<Entry>, k: nat, n: nat): map<nat, nat>
    requires n <= |es|
  {
    if n == 0 then map[]
    else if es[n - 1].level == 1 && Latest(es, n - 1, 0) == Some(k) then Mids(es, k, n - 1)[es[n - 1].id := n - 1]
    else Mids(es, k, n - 1)
  }

  function Leaves(es: seq<Entry>, k: nat, n: nat): map<nat, string>
    requires n <= |es|
  {
    if n == 0 then map[]
    else if es[n - 1].level == 2 && Latest(es, n - 1, 1) == Some(k) then Leaves(es, k, n - 1)[es[n - 1].id := es[n - 1].name]
    else Leaves(es, k, n - 1)
  }

  ghost function MidAt(es: seq<Entry>, k: nat): Mid
    requires k < |es|
  {
    Mid(es[k].name, Leaves(es, k, |es|))
  }

  lemma {:induction n} IndicesInRange(es: seq<Entry>, k: nat, n: nat)
    requires n <= |es|
    ensures forall id :: id in Tops(es, n) ==> Tops(es, n)[id] < n
    ensures forall id :: id in Mids(es, k, n) ==> Mids(es, k, n)[id] < n
  {}

  ghost function TopAt(es: seq<Entry>, k: nat): Top
    requires k < |es|
  {
    IndicesInRange(es, k, |es|);
    var mids := Mids(es, k, |es|);
    Top(es[k].name, map id | id in mids :: MidAt(es, mids[id]))
  }

  ghost function Forest(es: seq<Entry>): map<nat, Top> {
    IndicesInRange(es, 0, |es|);
    var tops := Tops(es, |es|);
    map id | id in tops :: TopAt(es, tops[id])
  }

  datatype Outcome = Ids(db: Database) | Failed(failure: Failure)

  // The whole file.
  ghost function Parse(text: string, end: Ending, number: nat, s: State): Outcome
    decreases |text|
  {
    match ReadOne(text, end.eager)
    case Done =>
      if end.error == EOF then Ids(Database(Forest(s.vendors), Forest(s.classes)))
      else Failed(ReadFailed(end.error))
    case Full => Failed(AtLine(number, LineTooLong))
    case Line(line, rest) =>
      match Accept(s, line)
      case Bad(why) => Failed(AtLine(number, why))
      case Good(s') => Parse(rest, end, number + 1, s')
  }
}
