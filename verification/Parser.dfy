/** The parser combinators (`src/parser.c`, `src/parser.h`) and the elements that
    `src/actions.c` adds to them. A parser is a tree; running it moves a cursor over a
    text, keeps the error status, and writes what it reads into the fields of a rule. */
module Parsers {
  import opened Options
  import opened Texts

  datatype End = Source | Target

  /** The fields that elements write to; a field that is not in the map was never written. */
  datatype Slot =
    | Pos | Proto | Direction | Mode
    | HostType(end: End) | HostAddr(end: End) | HostPort(end: End) | Address | Service
    | ConditionType | ConditionData(index: nat)
    | TaskType | TaskData(index: nat)
    | NextType | NextLine

  datatype Value = Number(n: int) | Word(text: string) | NoWord

  type Fields = map<Slot, Value>

  datatype Choice = Choice(constant: string, value: int)

  /** A condition or a task by its name, with the parser of its argument if it has one. */
  datatype Definition = Plain(name: string) | Argument(name: string, argument: Parser)

  datatype Parser =
    | Suite(parts: seq<Parser>)
    | First(parts: seq<Parser>)
    | Optional(parts: seq<Parser>)
    | IntElement(dest: Slot)
    | RangedInt(dest: Slot, low: int, high: int)
    | WordElement(dest: Slot)
    | FileElement(dest: Slot)
    | Constant(constant: string)
    | EnumElement(dest: Slot, table: seq<Choice>, otherwise: int)
    | SpaceElement
    | EobElement
    | HostElement(end: End, body: Parser)
    | Named(dest: Slot, definitions: seq<Definition>)
    | NextElement
    | Assign(dest: Slot, value: int)

  /** `Parser_addSpaced`. */
  function Spaced(p: Parser): Parser {
    Suite([p, SpaceElement])
  }

  const HOST_ADDRESS := 4

  const GOTO_LINE := 1

  const EXEC_LINE := 3

  const GOTOS := [Choice("continue", 0), Choice("goto", 1), Choice("next", 2), Choice("exec", 3), Choice("stop", 4)]

  /** The cursor as the remaining text, the error status as the length of the text at the
      position of the error, and the fields written so far. */
  datatype State = State(text: string, status: Option<nat>, fields: Fields)

  datatype Outcome = Outcome(ok: bool, after: State)

  /** The resolver: the addresses of host names and the ports of services. */
  datatype Names = Names(hosts: map<string, int>, services: map<string, int>)

  // ----- the status -----

  /** An element fails at `where`: the error is set unless one is set already. */
  function Failed(s: State, where: string): Outcome {
    Outcome(false, State(where, if s.status == None then Some(|where|) else s.status, s.fields))
  }

  function Forced(s: State, where: string): Outcome {
    Outcome(false, State(where, Some(|where|), s.fields))
  }

  /** An element of `src/actions.c` fails after an element it called has set the status. */
  function Abandoned(s: State, where: string): Outcome {
    Outcome(false, s.(text := where))
  }

  function Cleared(s: State): Outcome {
    Outcome(true, s.(status := None))
  }

  function Write(s: State, dest: Slot, v: Value): State {
    s.(fields := s.fields[dest := v])
  }

  predicate Is(f: Fields, slot: Slot, n: int) {
    slot in f && f[slot] == Number(n)
  }

  // ----- the elements -----

  function ReadInt(s: State, dest: Slot): Outcome {
    match Int(s.text)
    case Some(i) => Cleared(Write(State(s.text[i.length..], s.status, s.fields), dest, Number(i.value)))
    case None => Failed(if s.text != "" && s.text[0] == '-' then Write(s, dest, Number(0)) else s, s.text)
  }

  function ReadRanged(s: State, dest: Slot, low: int, high: int): Outcome {
    var r := ReadInt(s, dest);
    if r.ok && Int(s.text).Some? && low <= Int(s.text).value.value <= high then r else Failed(r.after, s.text)
  }

  function ReadWord(s: State, dest: Slot): Outcome {
    match Until(s.text, None, WORD_ENDS)
    case Some(n) => Cleared(Write(State(s.text[n..], s.status, s.fields), dest, Word(s.text[..n])))
    case None => Failed(Write(s, dest, NoWord), s.text)
  }

  /** The argument of `log`: `-` stands for no file. */
  function ReadFile(s: State, dest: Slot): Outcome {
    var r := ReadWord(s, dest);
    if r.ok && dest in r.after.fields && r.after.fields[dest] == Word("-") then Outcome(true, Write(r.after, dest, NoWord)) else r
  }

  function ReadConstant(s: State, constant: string, ends: string): Outcome {
    match Until(s.text, Some(constant), ends)
    case Some(n) => Cleared(State(s.text[n..], s.status, s.fields))
    case None => Failed(s, s.text)
  }

  /** The first entry from `i` whose constant is read. */
  function Choose(table: seq<Choice>, i: nat, text: string): (r: Option<nat>)
    requires i <= |table|
    ensures r.Some? ==> i <= r.value < |table| && Until(text, Some(table[r.value].constant), ENUM_ENDS).Some?
    decreases |table| - i
  {
    if i == |table| then None
    else if Until(text, Some(table[i].constant), ENUM_ENDS).Some? then Some(i)
    else Choose(table, i + 1, text)
  }

  function ReadEnum(s: State, dest: Slot, table: seq<Choice>, otherwise: int): Outcome {
    match Choose(table, 0, s.text)
    case Some(i) =>
      var r := ReadConstant(s, table[i].constant, ENUM_ENDS);
      Outcome(true, Write(r.after, dest, Number(table[i].value)))
    case None => Forced(Write(s, dest, Number(otherwise)), s.text)
  }

  function ReadSpace(s: State): Outcome {
    if s.text == "" || !IsSpace(s.text[0]) then Failed(s, s.text)
    else Cleared(State(SkipSpace(s.text), s.status, s.fields))
  }

  function ReadEob(s: State): Outcome {
    if s.text == "" then Cleared(s) else Failed(s, s.text)
  }

  function ReadNext(s: State): Outcome {
    var r := ReadEnum(Write(s, NextLine, Number(0)), NextType, GOTOS, 4);
    if !r.ok then Abandoned(r.after, s.text)
    else if Is(r.after.fields, NextType, GOTO_LINE) || Is(r.after.fields, NextType, EXEC_LINE) then
      var sp := ReadSpace(r.after);
      if !sp.ok then Abandoned(sp.after, s.text)
      else
        var n := ReadInt(sp.after, NextLine);
        if !n.ok then Abandoned(n.after, s.text) else n
    else r
  }

  function FirstNamed(definitions: seq<Definition>, i: nat, name: string): (r: Option<nat>)
    requires i <= |definitions|
    ensures r.Some? ==> i <= r.value < |definitions| && definitions[r.value].name == name
    ensures r.Some? ==> forall k :: i <= k < r.value ==> definitions[k].name != name
    ensures r == None ==> forall k :: i <= k < |definitions| ==> definitions[k].name != name
    decreases |definitions| - i
  {
    if i == |definitions| then None
    else if definitions[i].name == name then Some(i) else FirstNamed(definitions, i + 1, name)
  }

  /** What a host element writes before it reads, and the look-ups it does after. */
  function Start(f: Fields, end: End): Fields {
    f[HostAddr(end) := Number(0)][HostPort(end) := Number(-1)][Address := NoWord][Service := NoWord]
  }

  function StartHost(s: State, end: End): State {
    s.(fields := Start(s.fields, end))
  }

  function WordAt(f: Fields, slot: Slot): Option<string> {
    if slot in f && f[slot].Word? then Some(f[slot].text) else None
  }

  function ResolveHost(f: Fields, end: End, names: Names): Option<Fields> {
    if !Is(f, HostType(end), HOST_ADDRESS) then Some(f)
    else
      match WordAt(f, Address)
      case Some(w) => if w in names.hosts then Some(f[HostAddr(end) := Number(names.hosts[w])]) else None
      case None => None
  }

  function ResolveService(f: Fields, end: End, names: Names): Option<Fields> {
    match WordAt(f, Service)
    case Some(w) => if w in names.services then Some(f[HostPort(end) := Number(names.services[w])]) else None
    case None => Some(f)
  }

  function FinishHost(start: string, r: State, end: End, names: Names): Outcome {
    match ResolveHost(r.fields, end, names)
    case None => Failed(r, start)
    case Some(f) =>
      match ResolveService(f, end, names)
      case None => Failed(r.(fields := f), start)
      case Some(g) => Outcome(true, r.(fields := g))
  }

  /** The look-ups succeed exactly if the resolver knows the host name and the service that were read,
      if any; then the host has that address and that port, and nothing else is written. */
  lemma HostIsResolved(start: string, r: State, end: End, names: Names)
    ensures var o := FinishHost(start, r, end, names);
            var host, service := WordAt(r.fields, Address), WordAt(r.fields, Service);
            var named := Is(r.fields, HostType(end), HOST_ADDRESS);
            && (o.ok <==> (named ==> host.Some? && host.value in names.hosts) && (service.Some? ==> service.value in names.services))
            && (o.ok && named ==> Is(o.after.fields, HostAddr(end), names.hosts[host.value]))
            && (o.ok && service.Some? ==> Is(o.after.fields, HostPort(end), names.services[service.value]))
            && (o.ok ==> o.after.text == r.text && o.after.status == r.status)
            && (o.ok ==> forall k :: k in o.after.fields && (k != HostAddr(end) || !named) && (k != HostPort(end) || service.None?) ==>
                           k in r.fields && o.after.fields[k] == r.fields[k])
            && (!o.ok ==> o.after.text == start && o.after.status.Some?)
  {
  }

  // ----- running a parser -----

  function Run(p: Parser, s: State, names: Names): Outcome
    decreases p
  {
    match p
    case Suite(_) =>
      var r := RunAll(p, 0, s, names);
      if r.ok then Cleared(r.after) else Failed(r.after, s.text)
    case First(_) => RunFirst(p, 0, s, names)
    case Optional(_) =>
      var r := RunAll(p, 0, s, names);
      Cleared(if r.ok then r.after else r.after.(text := s.text))
    case IntElement(dest) => ReadInt(s, dest)
    case RangedInt(dest, low, high) => ReadRanged(s, dest, low, high)
    case WordElement(dest) => ReadWord(s, dest)
    case FileElement(dest) => ReadFile(s, dest)
    case Constant(c) => ReadConstant(s, c, WORD_ENDS)
    case EnumElement(dest, table, otherwise) => ReadEnum(s, dest, table, otherwise)
    case SpaceElement => ReadSpace(s)
    case EobElement => ReadEob(s)
    case HostElement(end, body) =>
      var r := Run(body, StartHost(s, end), names);
      if r.ok then FinishHost(s.text, r.after, end, names) else Abandoned(r.after, s.text)
    case Named(dest, definitions) => RunNamed(p, s, names)
    case NextElement => ReadNext(s)
    case Assign(dest, value) => Outcome(true, Write(s, dest, Number(value)))
  }

  /** The parts from `i`, one after the other, up to the first that fails. */
  function RunAll(p: Parser, i: nat, s: State, names: Names): Outcome
    requires (p.Suite? || p.Optional?) && i <= |p.parts|
    decreases p, |p.parts| - i
  {
    if i == |p.parts| then Outcome(true, s)
    else
      var r := Run(p.parts[i], s, names);
      if r.ok then RunAll(p, i + 1, r.after, names) else r
  }

  /** The parts from `i`, up to the first that succeeds. */
  function RunFirst(p: Parser, i: nat, s: State, names: Names): Outcome
    requires p.First? && i <= |p.parts|
    decreases p, |p.parts| - i
  {
    if i == |p.parts| then Forced(s, s.text)
    else
      var r := Run(p.parts[i], s, names);
      if r.ok then Cleared(r.after) else RunFirst(p, i + 1, r.after, names)
  }

  function RunNamed(p: Parser, s: State, names: Names): Outcome
    requires p.Named?
    decreases p, 0
  {
    match Until(s.text, None, WORD_ENDS)
    case None => Failed(s, s.text)
    case Some(n) =>
      var named := State(s.text[n..], None, s.fields);
      match FirstNamed(p.definitions, 0, s.text[..n])
      case None => Failed(named, s.text)
      case Some(i) =>
        if p.definitions[i].Plain? then Outcome(true, Write(named, p.dest, Number(i)))
        else
          var sp := ReadSpace(named);
          if !sp.ok then Abandoned(sp.after, s.text)
          else
            var r := Run(p.definitions[i].argument, sp.after, names);
            if !r.ok then Abandoned(r.after, s.text) else Outcome(true, Write(r.after, p.dest, Number(i)))
  }

  // ----- running the parts of a tree -----

  lemma NextPart(p: Parser, i: nat, s: State, names: Names)
    requires (p.Suite? || p.Optional?) && i < |p.parts|
    ensures RunAll(p, i, s, names) == var r := Run(p.parts[i], s, names); if r.ok then RunAll(p, i + 1, r.after, names) else r
  {
    hide Run;
  }

  lemma NoMoreParts(p: Parser, s: State, names: Names)
    requires p.Suite? || p.Optional?
    ensures RunAll(p, |p.parts|, s, names) == Outcome(true, s)
  {
  }

  lemma NextChoice(p: Parser, i: nat, s: State, names: Names)
    requires p.First? && i < |p.parts|
    ensures RunFirst(p, i, s, names) == var r := Run(p.parts[i], s, names); if r.ok then Cleared(r.after) else RunFirst(p, i + 1, r.after, names)
  {
    hide Run;
  }

  lemma NoMoreChoices(p: Parser, s: State, names: Names)
    requires p.First?
    ensures RunFirst(p, |p.parts|, s, names) == Forced(s, s.text)
  {
  }

  lemma RunHost(end: End, body: Parser, s: State, names: Names)
    ensures Run(HostElement(end, body), s, names)
            == var r := Run(body, State(s.text, s.status, Start(s.fields, end)), names);
               if r.ok then FinishHost(s.text, r.after, end, names) else Abandoned(r.after, s.text)
  {
    hide FinishHost;
  }

  lemma RunsNamed(p: Parser, s: State, names: Names)
    requires p.Named?
    ensures Run(p, s, names) == RunNamed(p, s, names)
  {
    hide RunNamed;
  }

  // ----- the contract of an element -----

  predicate Suffix(a: string, b: string) {
    |a| <= |b| && a == b[|b| - |a|..]
  }

  lemma SuffixTransitive(a: string, b: string, c: string)
    requires Suffix(a, b) && Suffix(b, c)
    ensures Suffix(a, c)
  {
    assert c[|c| - |b|..][|b| - |a|..] == c[|c| - |a|..];
  }

  /** The element always clears the status when it succeeds. Only the assignment does not. */
  predicate Clears(p: Parser) {
    match p
    case Assign(_, _) => false
    case HostElement(_, body) => Clears(body)
    case _ => true
  }

  /** What `parser.h` demands of every element: a failure leaves the cursor and sets the
      status; a success moves the cursor on in the text and clears the status. */
  predicate Obeys(s: State, r: Outcome, clears: bool) {
    if r.ok then Suffix(r.after.text, s.text) && (r.after.status == None || (!clears && r.after.status == s.status))
    else r.after.text == s.text && r.after.status.Some?
  }

  lemma {:induction false} Contract(p: Parser, s: State, names: Names)
    ensures Obeys(s, Run(p, s, names), Clears(p))
    decreases p
  {
    hide ReadInt, ReadRanged, ReadWord, ReadFile, ReadConstant, ReadEnum, ReadSpace, ReadEob, ReadNext, RunNamed, Suffix;
    match p
    case Suite(_) => AllObey(p, 0, s, names);
    case First(_) => FirstObeys(p, 0, s, names);
    case Optional(_) =>
      AllObey(p, 0, s, names);
      SuffixSelf(s.text);
    case HostElement(end, body) => Contract(body, StartHost(s, end), names);
    case Named(_, _) => NamedObeys(p, s, names);
    case NextElement => NextObeys(s);
    case _ => LeafObeys(p, s, names);
  }

  lemma SuffixSelf(a: string)
    ensures Suffix(a, a)
  {
  }

  lemma LeafObeys(p: Parser, s: State, names: Names)
    requires p.IntElement? || p.RangedInt? || p.WordElement? || p.FileElement? || p.Constant? || p.EnumElement? || p.SpaceElement?
             || p.EobElement? || p.Assign?
    ensures Obeys(s, Run(p, s, names), Clears(p))
  {
    hide Until, Int, Choose, SkipSpace;
    assert s.text[0..] == s.text;
  }

  lemma NextObeys(s: State)
    ensures Obeys(s, ReadNext(s), true)
  {
    hide Until, Int, Choose, SkipSpace, ReadEnum, ReadSpace, ReadInt, Suffix, Is;
    var none := Names(map[], map[]);
    var t := Write(s, NextLine, Number(0));
    LeafObeys(EnumElement(NextType, GOTOS, 4), t, none);
    var r := ReadEnum(t, NextType, GOTOS, 4);
    if r.ok {
      LeafObeys(SpaceElement, r.after, none);
      var sp := ReadSpace(r.after);
      if sp.ok {
        LeafObeys(IntElement(NextLine), sp.after, none);
        SuffixTransitive(sp.after.text, r.after.text, s.text);
        var n := ReadInt(sp.after, NextLine);
        if n.ok {
          SuffixTransitive(n.after.text, sp.after.text, s.text);
        }
      }
    }
  }

  lemma {:induction false} NamedObeys(p: Parser, s: State, names: Names)
    requires p.Named?
    ensures Obeys(s, RunNamed(p, s, names), true)
    decreases p, 0
  {
    hide Until, SkipSpace, Run;
    var word := Until(s.text, None, WORD_ENDS);
    if word.Some? {
      var named := State(s.text[word.value..], None, s.fields);
      var found := FirstNamed(p.definitions, 0, s.text[..word.value]);
      if found.Some? && p.definitions[found.value].Argument? {
        var sp := ReadSpace(named);
        if sp.ok {
          Contract(p.definitions[found.value].argument, sp.after, names);
          SuffixTransitive(sp.after.text, named.text, s.text);
          var r := Run(p.definitions[found.value].argument, sp.after, names);
          if r.ok {
            SuffixTransitive(r.after.text, sp.after.text, s.text);
          }
        }
      }
    }
  }

  lemma {:induction false} AllObey(p: Parser, i: nat, s: State, names: Names)
    requires (p.Suite? || p.Optional?) && i <= |p.parts|
    ensures var r := RunAll(p, i, s, names);
            if r.ok then Suffix(r.after.text, s.text) else r.after.status.Some?
    decreases p, |p.parts| - i
  {
    hide Run;
    if i < |p.parts| {
      Contract(p.parts[i], s, names);
      var r := Run(p.parts[i], s, names);
      if r.ok {
        AllObey(p, i + 1, r.after, names);
        var all := RunAll(p, i + 1, r.after, names);
        if all.ok {
          SuffixTransitive(all.after.text, r.after.text, s.text);
        }
      }
    }
  }

  lemma {:induction false} FirstObeys(p: Parser, i: nat, s: State, names: Names)
    requires p.First? && i <= |p.parts|
    ensures Obeys(s, RunFirst(p, i, s, names), true)
    decreases p, |p.parts| - i
  {
    hide Run;
    if i < |p.parts| {
      Contract(p.parts[i], s, names);
      var r := Run(p.parts[i], s, names);
      if !r.ok {
        FirstObeys(p, i + 1, r.after, names);
      }
    }
  }

  // ----- enumerations -----

  /** No constant is empty, holds a delimiter, or stands for two values. */
  predicate Consistent(table: seq<Choice>) {
    && (forall c :: c in table ==> c.constant != "" && forall x :: x in c.constant ==> x !in ENUM_ENDS)
    && (forall c, d :: c in table && d in table && c.constant == d.constant ==> c == d)
  }

  /** A text does not start with two words. */
  lemma OneWord(text: string, a: string, b: string, ends: string)
    requires StartsWithWord(text, a, ends) && StartsWithWord(text, b, ends)
    requires (forall x :: x in a ==> x !in ends) && (forall x :: x in b ==> x !in ends)
    ensures a == b
  {
    assert forall k :: 0 <= k < |a| ==> text[k] == a[k] && a[k] in a;
    assert forall k :: 0 <= k < |b| ==> text[k] == b[k] && b[k] in b;
  }

  lemma {:induction false} ChosenIsFirst(table: seq<Choice>, i: nat, text: string)
    requires i <= |table|
    ensures match Choose(table, i, text)
            case Some(k) => StartsWithWord(text, table[k].constant, ENUM_ENDS)
            case None => forall k :: i <= k < |table| ==> !StartsWithWord(text, table[k].constant, ENUM_ENDS)
    decreases |table| - i
  {
    hide Until;
    if i < |table| {
      ConstantIff(text, table[i].constant, ENUM_ENDS);
      ChosenIsFirst(table, i + 1, text);
    }
  }

  /** An enumeration accepts exactly the constants of its table, whatever their order. */
  lemma EnumIff(s: State, dest: Slot, table: seq<Choice>, otherwise: int)
    requires Consistent(table)
    ensures forall c :: c in table && StartsWithWord(s.text, c.constant, ENUM_ENDS) ==>
              ReadEnum(s, dest, table, otherwise)
              == Outcome(true, State(s.text[|c.constant|..], None, s.fields[dest := Number(c.value)]))
    ensures !ReadEnum(s, dest, table, otherwise).ok <==> forall c :: c in table ==> !StartsWithWord(s.text, c.constant, ENUM_ENDS)
  {
    hide Until, Choose, StartsWithWord;
    ChosenIsFirst(table, 0, s.text);
    var k := Choose(table, 0, s.text);
    if k.Some? {
      ConstantIff(s.text, table[k.value].constant, ENUM_ENDS);
      forall c | c in table && StartsWithWord(s.text, c.constant, ENUM_ENDS) ensures c == table[k.value] {
        OneWord(s.text, c.constant, table[k.value].constant, ENUM_ENDS);
      }
    }
  }

  /** Two tables with the same entries, in whatever order, read the same. */
  lemma EnumOrderIsIrrelevant(s: State, dest: Slot, a: seq<Choice>, b: seq<Choice>, otherwise: int)
    requires Consistent(a) && forall c :: c in a <==> c in b
    ensures ReadEnum(s, dest, a, otherwise) == ReadEnum(s, dest, b, otherwise)
  {
    hide StartsWithWord, Until;
    EnumIff(s, dest, a, otherwise);
    EnumIff(s, dest, b, otherwise);
    ChosenIsFirst(a, 0, s.text);
    ChosenIsFirst(b, 0, s.text);
  }
}
