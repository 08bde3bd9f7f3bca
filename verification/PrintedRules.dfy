/** Section by section, what a printed rule holds is read back (`Action_show` and
    `Action_parse` of `src/actions.c`). */
module PrintedRules {
  import opened Options
  import opened Texts
  import opened Parsers
  import opened Grammar
  import opened RoundTrip

  lemma Regroup(name: string, argument: string, rest: string)
    ensures Phrase(name, argument) + rest == name + (" " + (argument + rest))
  {
  }

  // ----- the condition -----

  function ConditionParser(): Parser {
    Named(ConditionType, CONDITIONS)
  }

  /** The fields after a condition has been read. */
  function ConditionFields(f: Fields, c: Condition): Fields {
    match c
    case After(ms) => f[CD0 := Number(ms)][ConditionType := Number(0)]
    case Always => f[ConditionType := Number(1)]
    case Before(ms) => f[CD0 := Number(ms)][ConditionType := Number(2)]
    case Between(a, b) => f[CD0 := Number(a)][CD1 := Number(b)][ConditionType := Number(3)]
    case Cycle(start, a, b) => f[CD0 := Number(if start then 1 else 0)][CD1 := Number(a)][CD2 := Number(b)][ConditionType := Number(4)]
    case Matched => f[ConditionType := Number(5)]
    case Never => f[ConditionType := Number(6)]
    case Prob(percent) => f[CD0 := Number(percent)][ConditionType := Number(7)]
    case Unmatched => f[ConditionType := Number(8)]
  }

  function CycleParser(): Parser {
    Suite([Spaced(EnumElement(CD0, BOOLS, 0)), Spaced(IntElement(CD1)), IntElement(CD2)])
  }

  lemma BetweenReads(a: int, b: int, d0: Slot, d1: Slot, s: State, rest: string, names: Names)
    requires Int32(a) && Int32(b) && Ends(rest, " ") && s.text == Decimal(a) + (" " + (Decimal(b) + rest))
    ensures Run(Suite([IntElement(d0), SpaceElement, IntElement(d1)]), s, names)
            == Outcome(true, State(rest, None, s.fields[d0 := Number(a)][d1 := Number(b)]))
  {
    hide Run, Decimal;
    var p := Suite([IntElement(d0), SpaceElement, IntElement(d1)]);
    NumberStarts(b, rest);
    IntReads(s, d0, a, " " + (Decimal(b) + rest));
    RunLeaf(IntElement(d0), s, names);
    var one := State(" " + (Decimal(b) + rest), None, s.fields[d0 := Number(a)]);
    SpaceReads(one, Decimal(b) + rest);
    RunLeaf(SpaceElement, one, names);
    var two := State(Decimal(b) + rest, None, one.fields);
    IntReads(two, d1, b, rest);
    RunLeaf(IntElement(d1), two, names);
    ThreeParts(p, s, one, two, State(rest, None, two.fields[d1 := Number(b)]), names);
  }

  lemma SpacedIntReads(dest: Slot, n: int, s: State, rest: string, names: Names)
    requires Int32(n) && (rest == "" || !IsSpace(rest[0])) && s.text == Decimal(n) + (" " + rest)
    ensures Run(Spaced(IntElement(dest)), s, names) == Outcome(true, State(rest, None, s.fields[dest := Number(n)]))
  {
    hide Run, Decimal;
    IntReads(s, dest, n, " " + rest);
    RunLeaf(IntElement(dest), s, names);
    SpacedReads(IntElement(dest), s, rest, None, s.fields[dest := Number(n)], names);
  }

  lemma SpacedEnumReads(dest: Slot, table: seq<Choice>, otherwise: int, c: Choice, s: State, rest: string, names: Names)
    requires Consistent(table) && c in table && (rest == "" || !IsSpace(rest[0])) && s.text == c.constant + (" " + rest)
    ensures Run(Spaced(EnumElement(dest, table, otherwise)), s, names) == Outcome(true, State(rest, None, s.fields[dest := Number(c.value)]))
  {
    hide Run, Consistent;
    EnumReads(s, dest, table, otherwise, c, " " + rest);
    RunLeaf(EnumElement(dest, table, otherwise), s, names);
    SpacedReads(EnumElement(dest, table, otherwise), s, rest, None, s.fields[dest := Number(c.value)], names);
  }

  lemma CycleReads(start: bool, a: int, b: int, s: State, rest: string, names: Names)
    requires Int32(a) && Int32(b) && Ends(rest, " ")
    requires s.text == (if start then "true" else "false") + (" " + (Decimal(a) + (" " + (Decimal(b) + rest))))
    ensures Run(CycleParser(), s, names)
            == Outcome(true, State(rest, None, s.fields[CD0 := Number(if start then 1 else 0)][CD1 := Number(a)][CD2 := Number(b)]))
  {
    hide Run, Decimal, Consistent;
    TablesAreConsistent();
    assert BOOLS[0] == Choice("true", 1) && BOOLS[1] == Choice("false", 0);
    var c := if start then Choice("true", 1) else Choice("false", 0);
    var tail := Decimal(a) + (" " + (Decimal(b) + rest));
    NumberStarts(a, " " + (Decimal(b) + rest));
    NumberStarts(b, rest);
    SpacedEnumReads(CD0, BOOLS, 0, c, s, tail, names);
    var one := State(tail, None, s.fields[CD0 := Number(c.value)]);
    SpacedIntReads(CD1, a, one, Decimal(b) + rest, names);
    var two := State(Decimal(b) + rest, None, one.fields[CD1 := Number(a)]);
    IntReads(two, CD2, b, rest);
    RunLeaf(IntElement(CD2), two, names);
    ThreeParts(CycleParser(), s, one, two, State(rest, None, two.fields[CD2 := Number(b)]), names);
  }

  lemma ConditionReads(c: Condition, s: State, rest: string, names: Names)
    requires GoodCondition(c) && rest != "" && rest[0] == ' ' && s.text == ShowCondition(c) + rest
    ensures Run(ConditionParser(), s, names) == Outcome(true, State(rest, None, ConditionFields(s.fields, c)))
  {
    hide Run, Decimal, Plainly, WithArgument, Phrase;
    match c
    case After(ms) =>
      Regroup("after", Decimal(ms), rest);
      ArgumentCondition(0, "after", IntElement(CD0));
      NumberArgumentReads(ConditionParser(), 0, "after", CD0, ms, s, rest, names);
    case Always =>
      PlainCondition(1, "always");
      PlainReads(ConditionParser(), 1, "always", s, rest, names);
    case Before(ms) =>
      Regroup("before", Decimal(ms), rest);
      ArgumentCondition(2, "before", IntElement(CD0));
      NumberArgumentReads(ConditionParser(), 2, "before", CD0, ms, s, rest, names);
    case Between(a, b) => BetweenConditionReads(a, b, s, rest, names);
    case Cycle(start, a, b) => CycleConditionReads(start, a, b, s, rest, names);
    case Matched =>
      PlainCondition(5, "matched");
      PlainReads(ConditionParser(), 5, "matched", s, rest, names);
    case Never =>
      PlainCondition(6, "never");
      PlainReads(ConditionParser(), 6, "never", s, rest, names);
    case Prob(percent) =>
      Regroup("prob", Decimal(percent), rest);
      ArgumentCondition(7, "prob", RangedInt(CD0, 0, 100));
      RangedArgumentReads(ConditionParser(), 7, "prob", CD0, percent, s, rest, names);
    case Unmatched =>
      PlainCondition(8, "unmatched");
      PlainReads(ConditionParser(), 8, "unmatched", s, rest, names);
  }

  lemma BetweenConditionReads(a: int, b: int, s: State, rest: string, names: Names)
    requires Int32(a) && Int32(b) && rest != "" && rest[0] == ' ' && s.text == ShowCondition(Between(a, b)) + rest
    ensures Run(ConditionParser(), s, names) == Outcome(true, State(rest, None, ConditionFields(s.fields, Between(a, b))))
  {
    hide Run, Decimal, WithArgument, Plainly;
    ArgumentCondition(3, "between", Suite([IntElement(CD0), SpaceElement, IntElement(CD1)]));
    var body := Decimal(a) + (" " + (Decimal(b) + rest));
    Regroup("between", Phrase(Decimal(a), Decimal(b)), rest);
    Regroup(Decimal(a), Decimal(b), rest);
    var t := State(body, None, s.fields);
    BetweenReads(a, b, CD0, CD1, t, rest, names);
    NumberStarts(a, " " + (Decimal(b) + rest));
    ArgumentReads(ConditionParser(), 3, "between", Suite([IntElement(CD0), SpaceElement, IntElement(CD1)]), s, body,
                  s.fields[CD0 := Number(a)][CD1 := Number(b)], rest, names);
  }

  lemma CycleConditionReads(start: bool, a: int, b: int, s: State, rest: string, names: Names)
    requires Int32(a) && Int32(b) && rest != "" && rest[0] == ' ' && s.text == ShowCondition(Cycle(start, a, b)) + rest
    ensures Run(ConditionParser(), s, names) == Outcome(true, State(rest, None, ConditionFields(s.fields, Cycle(start, a, b))))
  {
    hide Run, Decimal, WithArgument, Plainly;
    ArgumentCondition(4, "cycle", CycleParser());
    var first := if start then "true" else "false";
    var body := first + (" " + (Decimal(a) + (" " + (Decimal(b) + rest))));
    Regroup("cycle", Phrase(first, Phrase(Decimal(a), Decimal(b))), rest);
    Regroup(first, Phrase(Decimal(a), Decimal(b)), rest);
    Regroup(Decimal(a), Decimal(b), rest);
    var t := State(body, None, s.fields);
    CycleReads(start, a, b, t, rest, names);
    ArgumentReads(ConditionParser(), 4, "cycle", CycleParser(), s, body,
                  s.fields[CD0 := Number(if start then 1 else 0)][CD1 := Number(a)][CD2 := Number(b)], rest, names);
  }

  lemma WhenReads(c: Condition, s: State, rest: string, names: Names)
    requires GoodCondition(c) && (rest == "" || !IsSpace(rest[0])) && s.text == "when" + (" " + (ShowCondition(c) + (" " + rest)))
    ensures Run(WhenParser(), s, names) == Outcome(true, State(rest, None, ConditionFields(s.fields, c)))
  {
    hide Run, ShowCondition, ConditionFields, ConditionParser;
    ConditionStarts(c, " " + rest);
    var t := State(ShowCondition(c) + (" " + rest), None, s.fields);
    SpacedConstantReads("when", s, t.text, names);
    ConditionReads(c, t, " " + rest, names);
    SpacedReads(ConditionParser(), t, rest, None, ConditionFields(s.fields, c), names);
    WhenIs();
    TwoParts(WhenParser(), s, t, State(rest, None, ConditionFields(s.fields, c)), names);
  }

  lemma WhenIs()
    ensures WhenParser() == Optional([Spaced(Constant("when")), Spaced(ConditionParser())])
  {
  }

  lemma ConditionStarts(c: Condition, rest: string)
    ensures ShowCondition(c) + rest != "" && !IsSpace((ShowCondition(c) + rest)[0])
  {
    hide Decimal;
  }

  // ----- the task -----

  function TaskParser(): Parser {
    Named(TaskType, TASKS)
  }

  function NumberCode(t: Task): Option<nat> {
    match t
    case Alter(_) => Some(0)
    case Hang(_) => Some(7)
    case LocalHang(_) => Some(8)
    case RemoteHang(_) => Some(12)
    case Remove(_) => Some(13)
    case _ => None
  }

  function PlainCode(t: Task): Option<nat> {
    match t
    case CancelSyscall => Some(1)
    case Drop => Some(2)
    case Nop => Some(11)
    case Reset => Some(15)
    case Syscall => Some(17)
    case _ => None
  }

  /** The fields after a printed task has been read. */
  function TaskFields(f: Fields, t: Task): Fields
    requires Printable(t)
  {
    if PlainCode(t).Some? then f[TaskType := Number(PlainCode(t).value)]
    else if NumberCode(t).Some? then f[TD0 := Number(t.n)][TaskType := Number(NumberCode(t).value)]
    else
      match t
      case Dump(file) => f[TD1 := Word(file)][TaskType := Number(3)]
      case Echo(word) => f[TD0 := Word(word)][TaskType := Number(4)]
      case Emit(n) => f[TD0 := Number(1)][TaskType := Number(5)]
      case Error(n) => f[TD0 := Number(11)][TaskType := Number(6)]
      case Log(file) =>
        (if file.Some? then f[TD1 := Word(file.value)] else f[TD1 := Word("-")][TD1 := NoWord])[TaskType := Number(9)]
      case MarkDone(call, n) => f[TD0 := Number(if call then 1 else 2)][TD1 := Number(n)][TaskType := Number(10)]
      case Replay(file) => f[TD1 := Word(file)][TaskType := Number(14)]
      case Split(n) => f[TD0 := Number(n)][TaskType := Number(16)]
      case _ => f
  }

  lemma NumberTaskReads(t: Task, i: nat, name: string, s: State, rest: string, names: Names)
    requires NumberCode(t) == Some(i) && GoodTask(t) && i < |TASKS| && TASKS[i] == Argument(name, IntElement(TD0))
    requires ShowTask(t) == Some(Phrase(name, Decimal(t.n))) && rest != "" && rest[0] == ' ' && s.text == ShowTask(t).value + rest
    ensures Run(TaskParser(), s, names) == Outcome(true, State(rest, None, TaskFields(s.fields, t)))
  {
    hide Run, Decimal, WithArgument, Phrase;
    ArgumentTask(i, name, IntElement(TD0));
    Regroup(name, Decimal(t.n), rest);
    NumberArgumentReads(TaskParser(), i, name, TD0, t.n, s, rest, names);
  }

  lemma PlainTaskReads(t: Task, i: nat, name: string, s: State, rest: string, names: Names)
    requires PlainCode(t) == Some(i) && i < |TASKS| && TASKS[i] == Plain(name)
    requires ShowTask(t) == Some(name) && rest != "" && rest[0] == ' ' && s.text == name + rest
    ensures Run(TaskParser(), s, names) == Outcome(true, State(rest, None, TaskFields(s.fields, t)))
  {
    hide Run, Plainly;
    PlainTaskName(i, name);
    PlainReads(TaskParser(), i, name, s, rest, names);
  }

  lemma WordTaskReads(i: nat, name: string, dest: Slot, w: string, s: State, rest: string, names: Names)
    requires i < |TASKS| && TASKS[i] == Argument(name, WordElement(dest)) && IsWord(w)
    requires rest != "" && rest[0] == ' ' && s.text == Phrase(name, w) + rest
    ensures Run(TaskParser(), s, names) == Outcome(true, State(rest, None, s.fields[dest := Word(w)][TaskType := Number(i)]))
  {
    hide Run, WithArgument, Phrase;
    ArgumentTask(i, name, WordElement(dest));
    Regroup(name, w, rest);
    WordArgumentReads(TaskParser(), i, name, dest, w, s, rest, names);
  }

  lemma LogReads(file: Option<string>, s: State, rest: string, names: Names)
    requires GoodTask(Log(file)) && rest != "" && rest[0] == ' ' && s.text == ShowTask(Log(file)).value + rest
    ensures Run(TaskParser(), s, names) == Outcome(true, State(rest, None, TaskFields(s.fields, Log(file))))
  {
    hide Run, WithArgument, Phrase;
    var w := if file.Some? then file.value else "-";
    ArgumentTask(9, "log", FileElement(TD1));
    Regroup("log", w, rest);
    WordStarts(w, rest);
    var t := State(w + rest, None, s.fields);
    WordReads(t, TD1, w, rest);
    RunLeaf(FileElement(TD1), t, names);
    var f := s.fields[TD1 := Word(w)];
    ArgumentReads(TaskParser(), 9, "log", FileElement(TD1), s, w + rest, if file.Some? then f else f[TD1 := NoWord], rest, names);
  }

  lemma MarkDoneReads(call: bool, n: int, s: State, rest: string, names: Names)
    requires Int32(n) && rest != "" && rest[0] == ' ' && s.text == ShowTask(MarkDone(call, n)).value + rest
    ensures Run(TaskParser(), s, names) == Outcome(true, State(rest, None, TaskFields(s.fields, MarkDone(call, n))))
  {
    hide Run, WithArgument, Decimal;
    var p := Suite([EnumElement(TD0, DONE_FOR, 0), SpaceElement, IntElement(TD1)]);
    var word := if call then "call" else "socket";
    var c := Choice(word, if call then 1 else 2);
    var body := word + (" " + (Decimal(n) + rest));
    ArgumentTask(10, "mark-done", p);
    Regroup("mark-done", Phrase(word, Decimal(n)), rest);
    Regroup(word, Decimal(n), rest);
    var t := State(body, None, s.fields);
    DoneForReads(c, n, t, rest, names);
    ArgumentReads(TaskParser(), 10, "mark-done", p, s, body, s.fields[TD0 := Number(c.value)][TD1 := Number(n)], rest, names);
  }

  lemma DoneForReads(c: Choice, n: int, s: State, rest: string, names: Names)
    requires (c == Choice("call", 1) || c == Choice("socket", 2)) && Int32(n) && Ends(rest, " ")
    requires s.text == c.constant + (" " + (Decimal(n) + rest))
    ensures Run(Suite([EnumElement(TD0, DONE_FOR, 0), SpaceElement, IntElement(TD1)]), s, names)
            == Outcome(true, State(rest, None, s.fields[TD0 := Number(c.value)][TD1 := Number(n)]))
  {
    hide Run, Decimal, Consistent;
    TablesAreConsistent();
    assert DONE_FOR[0] == Choice("call", 1) && DONE_FOR[1] == Choice("socket", 2);
    var p := Suite([EnumElement(TD0, DONE_FOR, 0), SpaceElement, IntElement(TD1)]);
    NumberStarts(n, rest);
    EnumReads(s, TD0, DONE_FOR, 0, c, " " + (Decimal(n) + rest));
    RunLeaf(p.parts[0], s, names);
    var one := State(" " + (Decimal(n) + rest), None, s.fields[TD0 := Number(c.value)]);
    SpaceReads(one, Decimal(n) + rest);
    RunLeaf(p.parts[1], one, names);
    var two := State(Decimal(n) + rest, None, one.fields);
    IntReads(two, TD1, n, rest);
    RunLeaf(p.parts[2], two, names);
    ThreeParts(p, s, one, two, State(rest, None, two.fields[TD1 := Number(n)]), names);
  }

  /** The first entry of the table of an enumeration as an argument. */
  lemma FirstEntryTaskReads(i: nat, name: string, table: seq<Choice>, s: State, rest: string, names: Names)
    requires i < |TASKS| && TASKS[i] == Argument(name, EnumElement(TD0, table, 0)) && table != [] && IsWord(table[0].constant)
    requires rest != "" && rest[0] == ' ' && s.text == Phrase(name, table[0].constant) + rest
    ensures Run(TaskParser(), s, names)
            == Outcome(true, State(rest, None, s.fields[TD0 := Number(table[0].value)][TaskType := Number(i)]))
  {
    hide Run, WithArgument, Phrase;
    var w := table[0].constant;
    ArgumentTask(i, name, EnumElement(TD0, table, 0));
    Regroup(name, w, rest);
    WordStarts(w, rest);
    var t := State(w + rest, None, s.fields);
    FirstEntryReads(t, TD0, table, 0, rest);
    RunLeaf(EnumElement(TD0, table, 0), t, names);
    ArgumentReads(TaskParser(), i, name, EnumElement(TD0, table, 0), s, w + rest, s.fields[TD0 := Number(table[0].value)], rest, names);
  }

  lemma SplitReads(n: int, s: State, rest: string, names: Names)
    requires 0 <= n <= 100 && rest != "" && rest[0] == ' ' && s.text == ShowTask(Split(n)).value + rest
    ensures Run(TaskParser(), s, names) == Outcome(true, State(rest, None, TaskFields(s.fields, Split(n))))
  {
    hide Run, Decimal, WithArgument, Phrase;
    ArgumentTask(16, "split", RangedInt(TD0, 0, 100));
    Regroup("split", Decimal(n), rest);
    RangedArgumentReads(TaskParser(), 16, "split", TD0, n, s, rest, names);
  }

  lemma WordyTaskReads(t: Task, s: State, rest: string, names: Names)
    requires t.Dump? || t.Echo? || t.Emit? || t.Error? || t.Log? || t.MarkDone? || t.Replay? || t.Split?
    requires GoodTask(t) && Printable(t) && rest != "" && rest[0] == ' ' && s.text == ShowTask(t).value + rest
    ensures Run(TaskParser(), s, names) == Outcome(true, State(rest, None, TaskFields(s.fields, t)))
  {
    hide Run, Decimal, Phrase, IsWord, GoodTask, TaskParser;
    GoodWords(t);
    match t
    case Dump(file) => WordTaskReads(3, "dump", TD1, file, s, rest, names);
    case Echo(word) => WordTaskReads(4, "echo", TD0, word, s, rest, names);
    case Emit(_) => FirstEntryTaskReads(5, "emit", SIGNALS, s, rest, names);
    case Error(_) => FirstEntryTaskReads(6, "error", ERRORS, s, rest, names);
    case Log(file) => LogReads(file, s, rest, names);
    case MarkDone(call, n) => MarkDoneReads(call, n, s, rest, names);
    case Replay(file) => WordTaskReads(14, "replay", TD1, file, s, rest, names);
    case Split(n) => SplitReads(n, s, rest, names);
  }

  lemma TaskReads(t: Task, s: State, rest: string, names: Names)
    requires GoodTask(t) && Printable(t) && rest != "" && rest[0] == ' ' && s.text == ShowTask(t).value + rest
    ensures Run(TaskParser(), s, names) == Outcome(true, State(rest, None, TaskFields(s.fields, t)))
  {
    hide Run, Decimal, Phrase, GoodTask, TaskParser, TaskFields;
    match t
    case Alter(_) => NumberTaskReads(t, 0, "alter", s, rest, names);
    case CancelSyscall => PlainTaskReads(t, 1, "cancel-syscall", s, rest, names);
    case Drop => PlainTaskReads(t, 2, "drop", s, rest, names);
    case Hang(_) => NumberTaskReads(t, 7, "hang", s, rest, names);
    case LocalHang(_) => NumberTaskReads(t, 8, "local-hang", s, rest, names);
    case Nop => PlainTaskReads(t, 11, "nop", s, rest, names);
    case RemoteHang(_) => NumberTaskReads(t, 12, "remote-hang", s, rest, names);
    case Remove(_) => NumberTaskReads(t, 13, "remove", s, rest, names);
    case Reset => PlainTaskReads(t, 15, "reset", s, rest, names);
    case Syscall => PlainTaskReads(t, 17, "syscall", s, rest, names);
    case _ => WordyTaskReads(t, s, rest, names);
  }

  lemma GoodWords(t: Task)
    requires GoodTask(t)
    ensures t.Dump? || t.Replay? ==> IsWord(t.file)
    ensures t.Echo? ==> IsWord(t.word)
    ensures t.MarkDone? ==> Int32(t.n)
    ensures t.Split? ==> 0 <= t.n <= 100
    ensures IsWord("SIGHUP") && IsWord("EAGAIN")
  {
    NameChars("SIGHUP");
    NameChars("EAGAIN");
  }

  lemma TaskStarts(t: Task, rest: string)
    requires ShowTask(t).Some?
    ensures ShowTask(t).value + rest != "" && !IsSpace((ShowTask(t).value + rest)[0])
  {
    hide Decimal;
  }

  function ModeCode(m: DoMode): int {
    match m
    case Normal => 0
    case Once => 1
    case OncePerCall => 2
    case OncePerSocket => 3
  }

  lemma ModeReads(m: DoMode, s: State, rest: string, names: Names)
    requires s.text == ShowMode(m) + (" " + rest) && (rest == "" || !IsSpace(rest[0]))
    ensures Run(Spaced(EnumElement(Mode, MODES, 0)), s, names) == Outcome(true, State(rest, None, s.fields[Mode := Number(ModeCode(m))]))
  {
    hide Run, Consistent;
    TablesAreConsistent();
    var c := MODES[ModeCode(m)];
    assert c in MODES && c.constant == ShowMode(m);
    SpacedEnumReads(Mode, MODES, 0, c, s, rest, names);
  }

  function DoFields(f: Fields, m: DoMode, t: Task): Fields
    requires Printable(t)
  {
    TaskFields(f[Mode := Number(ModeCode(m))], t)
  }

  lemma DoIs()
    ensures DoParser() == Optional([Spaced(EnumElement(Mode, MODES, 0)), Spaced(TaskParser())])
  {
  }

  lemma DoReads(m: DoMode, t: Task, s: State, rest: string, names: Names)
    requires GoodTask(t) && Printable(t) && (rest == "" || !IsSpace(rest[0]))
    requires s.text == ShowMode(m) + (" " + (ShowTask(t).value + (" " + rest)))
    ensures Run(DoParser(), s, names) == Outcome(true, State(rest, None, DoFields(s.fields, m, t)))
  {
    hide Run, ShowTask, TaskFields, TaskParser, GoodTask, ShowMode;
    PrintableEnds(t);
    var task := ShowTask(t).value;
    TaskStarts(t, " " + rest);
    ModeReads(m, s, task + (" " + rest), names);
    var u := State(task + (" " + rest), None, s.fields[Mode := Number(ModeCode(m))]);
    TaskReads(t, u, " " + rest, names);
    SpacedReads(TaskParser(), u, rest, None, TaskFields(u.fields, t), names);
    DoIs();
    TwoParts(DoParser(), s, u, State(rest, None, TaskFields(u.fields, t)), names);
  }

  lemma PrintableEnds(t: Task)
    requires Printable(t)
    ensures ShowTask(t).Some?
  {
    hide Decimal;
  }

  // ----- what to do next -----

  function JumpFields(f: Fields, j: Jump): Fields {
    match j
    case Continue => f[NextLine := Number(0)][NextType := Number(0)]
    case Goto(line) => f[NextLine := Number(0)][NextType := Number(1)][NextLine := Number(line)]
    case NextRule => f[NextLine := Number(0)][NextType := Number(2)]
    case Exec(line) => f[NextLine := Number(0)][NextType := Number(3)][NextLine := Number(line)]
    case Stop => f[NextLine := Number(0)][NextType := Number(4)]
  }

  function JumpCode(j: Jump): nat {
    match j
    case Continue => 0
    case Goto(_) => 1
    case NextRule => 2
    case Exec(_) => 3
    case Stop => 4
  }

  lemma JumpReads(j: Jump, s: State, rest: string)
    requires GoodJump(j) && (rest == "" || rest[0] == '\n') && s.text == ShowJump(j) + rest
    ensures ReadNext(s) == Outcome(true, State(rest, None, JumpFields(s.fields, j)))
  {
    hide ReadEnum, ReadNext, Decimal, Phrase, JumpFields;
    var c := GOTOS[JumpCode(j)];
    var t := Write(s, NextLine, Number(0));
    if j.Goto? || j.Exec? {
      Regroup(c.constant, Decimal(j.line), rest);
      GotoReads(c, t, " " + (Decimal(j.line) + rest));
      LineReads(c, j.line, s, rest);
      JumpFieldsAre(j, s.fields);
    } else {
      GotoReads(c, t, rest);
      NoLine(c, s, rest);
      JumpFieldsAre(j, s.fields);
    }
  }

  lemma JumpFieldsAre(j: Jump, f: Fields)
    ensures JumpFields(f, j) == var g := f[NextLine := Number(0)][NextType := Number(JumpCode(j))];
                                if j.Goto? || j.Exec? then g[NextLine := Number(j.line)] else g
  {
  }

  lemma GotoReads(c: Choice, s: State, rest: string)
    requires c in GOTOS && Ends(rest, ENUM_ENDS) && s.text == c.constant + rest
    ensures ReadEnum(s, NextType, GOTOS, 4) == Outcome(true, State(rest, None, s.fields[NextType := Number(c.value)]))
  {
    hide ReadEnum, Consistent, Ends;
    TablesAreConsistent();
    EnumReads(s, NextType, GOTOS, 4, c, rest);
  }

  lemma NoLine(c: Choice, s: State, rest: string)
    requires c.value != GOTO_LINE && c.value != EXEC_LINE
    requires ReadEnum(Write(s, NextLine, Number(0)), NextType, GOTOS, 4)
             == Outcome(true, State(rest, None, s.fields[NextLine := Number(0)][NextType := Number(c.value)]))
    ensures ReadNext(s) == Outcome(true, State(rest, None, s.fields[NextLine := Number(0)][NextType := Number(c.value)]))
  {
    hide ReadEnum, ReadSpace, ReadInt;
  }

  lemma LineReads(c: Choice, line: int, s: State, rest: string)
    requires (c.value == GOTO_LINE || c.value == EXEC_LINE) && Int32(line) && (rest == "" || rest[0] == '\n')
    requires ReadEnum(Write(s, NextLine, Number(0)), NextType, GOTOS, 4)
             == Outcome(true, State(" " + (Decimal(line) + rest), None, s.fields[NextLine := Number(0)][NextType := Number(c.value)]))
    ensures ReadNext(s)
            == Outcome(true, State(rest, None, s.fields[NextLine := Number(0)][NextType := Number(c.value)][NextLine := Number(line)]))
  {
    hide ReadEnum, ReadSpace, ReadInt, Decimal;
    var tail := Decimal(line) + rest;
    var f := s.fields[NextLine := Number(0)][NextType := Number(c.value)];
    NumberStarts(line, rest);
    SpaceReads(State(" " + tail, None, f), tail);
    IntReads(State(tail, None, f), NextLine, line, rest);
  }

  lemma NewlineIsSpace()
    ensures SkipSpace("\n") == ""
  {
    assert IsSpace('\n') && "\n"[1..] == "";
    hide IsSpace;
  }

  lemma EndReads(end: LineEnd, s: State, names: Names)
    requires s.text == end
    ensures Run(Optional([SpaceElement]), s, names) == Outcome(true, State("", None, s.fields))
  {
    hide Run, RunAll, SkipSpace;
    var p := Optional([SpaceElement]);
    NewlineIsSpace();
    RunOptional(p, s, names);
    NextPart(p, 0, s, names);
    RunLeaf(SpaceElement, s, names);
    if end != "" {
      NoMoreParts(p, ReadSpace(s).after, names);
    }
  }
}
