/** From the words of an instruction to what the interpreter does (`src/actions.c`,
    `src/actions/`): what each mode, task and jump is called, and where a search of the
    rules leads. */
module Instructions {
  import opened Options
  import opened Texts
  import opened Parsers
  import opened Grammar
  import opened RoundTrip
  import opened PrintedRules
  import opened RuleText
  import opened ParsedRules
  import opened AcceptedRules
  import opened Reload
  import Call
  import Queue

  // ----- tasks by their names -----

  /** The text that stands for a task; a signal or an error is written with its name `w`. */
  function TaskText(t: Task, w: string): string {
    match t
    case Nop => "nop"
    case Syscall => "syscall"
    case Drop => "drop"
    case CancelSyscall => "cancel-syscall"
    case Reset => "reset"
    case Dump(file) => "dump " + file
    case Echo(word) => "echo " + word
    case Replay(file) => "replay " + file
    case Log(None) => "log -"
    case Log(Some(file)) => "log " + file
    case Alter(n) => "alter " + Decimal(n)
    case Split(n) => "split " + Decimal(n)
    case Hang(n) => "hang " + Decimal(n)
    case LocalHang(n) => "local-hang " + Decimal(n)
    case RemoteHang(n) => "remote-hang " + Decimal(n)
    case Truncate(n) => "truncate " + Decimal(n)
    case Remove(n) => "remove " + Decimal(n)
    case MarkDone(true, n) => "mark-done call " + Decimal(n)
    case MarkDone(false, n) => "mark-done socket " + Decimal(n)
    case Emit(_) => "emit " + w
    case Error(_) => "error " + w
  }

  /** The name of the signal or error, where there is one. */
  predicate Names(t: Task, w: string) {
    match t
    case Emit(n) => Choice(w, n) in SIGNALS
    case Error(n) => Choice(w, n) in ERRORS
    case _ => true
  }

  /** A name and an argument, with the space in the literal. */
  lemma Glue(name: string, text: string, argument: string)
    requires text == name + " "
    ensures Phrase(name, argument) == text + argument
  {
    assert name + (" " + argument) == name + " " + argument;
  }

  /** A name, a word and an argument, with the spaces in the literal. */
  lemma GlueTwo(name: string, word: string, text: string, argument: string)
    requires text == name + " " + word + " "
    ensures Phrase(name, Phrase(word, argument)) == text + argument
  {
    Glue(word, word + " ", argument);
    Glue(name, name + " ", word + " " + argument);
    assert name + " " + (word + " " + argument) == (name + " " + (word + " ")) + argument;
    assert name + " " + (word + " ") == text;
  }

  lemma MarkTextIsShown(call: bool, n: int)
    ensures ShowTask(MarkDone(call, n)) == Some(TaskText(MarkDone(call, n), ""))
  {
    GlueTwo("mark-done", "call", "mark-done call ", Decimal(n));
    GlueTwo("mark-done", "socket", "mark-done socket ", Decimal(n));
    hide Phrase, Decimal;
  }

  lemma LogTextIsShown(sink: Option<string>)
    ensures ShowTask(Log(sink)) == Some(TaskText(Log(sink), ""))
  {
    Glue("log", "log ", if sink.Some? then sink.value else "-");
    assert "log " + "-" == "log -";
  }

  lemma NumberTextIsShown(t: Task, w: string)
    requires t.Alter? || t.Split? || t.Hang? || t.LocalHang? || t.RemoteHang? || t.Remove?
    ensures ShowTask(t) == Some(TaskText(t, w))
  {
    hide Decimal;
    match t
    case Alter(n) => Glue("alter", "alter ", Decimal(n));
    case Split(n) => Glue("split", "split ", Decimal(n));
    case Hang(n) => Glue("hang", "hang ", Decimal(n));
    case LocalHang(n) => Glue("local-hang", "local-hang ", Decimal(n));
    case RemoteHang(n) => Glue("remote-hang", "remote-hang ", Decimal(n));
    case Remove(n) => Glue("remove", "remove ", Decimal(n));
  }

  /** A printable task is printed as it is written. */
  lemma TextIsShown(t: Task, w: string)
    requires Printable(t) && !t.Emit? && !t.Error?
    ensures ShowTask(t) == Some(TaskText(t, w))
  {
    hide Decimal;
    match t
    case Dump(file) => Glue("dump", "dump ", file);
    case Echo(word) => Glue("echo", "echo ", word);
    case Replay(file) => Glue("replay", "replay ", file);
    case Log(sink) => LogTextIsShown(sink);
    case MarkDone(call, n) => MarkTextIsShown(call, n);
    case Nop =>
    case Syscall =>
    case Drop =>
    case CancelSyscall =>
    case Reset =>
    case _ => NumberTextIsShown(t, w);
  }

  lemma TruncateReads(n: int, s: State, rest: string, names: Parsers.Names)
    requires Int32(n) && rest != "" && rest[0] == ' ' && s.text == TaskText(Truncate(n), "") + rest
    ensures var r := Run(TaskParser(), s, names); r.ok && r.after.text == rest && TaskOf(r.after.fields) == Some(Truncate(n))
  {
    hide Run, Decimal, WithArgument;
    ArgumentTask(18, "truncate", IntElement(TD0));
    assert s.text == "truncate" + (" " + (Decimal(n) + rest));
    NumberArgumentReads(TaskParser(), 18, "truncate", TD0, n, s, rest, names);
  }

  /** An argument that is the name of a table entry. */
  lemma EntryReads(i: nat, name: string, table: seq<Choice>, c: Choice, s: State, rest: string, names: Parsers.Names)
    requires i < |TASKS| && TASKS[i] == Argument(name, EnumElement(TD0, table, 0)) && Consistent(table) && c in table && IsWord(c.constant)
    requires rest != "" && rest[0] == ' ' && s.text == name + (" " + (c.constant + rest))
    ensures Run(TaskParser(), s, names) == Outcome(true, State(rest, None, s.fields[TD0 := Number(c.value)][TaskType := Number(i)]))
  {
    hide Run, WithArgument, Consistent, IsWord;
    ArgumentTask(i, name, EnumElement(TD0, table, 0));
    WordStarts(c.constant, rest);
    var t := State(c.constant + rest, None, s.fields);
    EnumReads(t, TD0, table, 0, c, rest);
    RunLeaf(EnumElement(TD0, table, 0), t, names);
    ArgumentReads(TaskParser(), i, name, EnumElement(TD0, table, 0), s, c.constant + rest, s.fields[TD0 := Number(c.value)], rest, names);
  }

  lemma SignalIsName(i: nat)
    requires i < |SIGNALS|
    ensures IsName(SIGNALS[i].constant)
  {
  }

  lemma ErrorIsName(i: nat)
    requires i < |ERRORS|
    ensures IsName(ERRORS[i].constant)
  {
  }

  lemma SignalsDiffer(i: nat, k: nat)
    requires k < i < |SIGNALS|
    ensures SIGNALS[k].constant != SIGNALS[i].constant
  {
  }

  lemma ErrorsDiffer(i: nat, k: nat)
    requires k < i < |ERRORS| && ERRORS[k].value != ERRORS[i].value
    ensures ERRORS[k].constant != ERRORS[i].constant
  {
  }

  /** The tables of signals and errors are consistent, and their constants are words. */
  lemma NamesAreConsistent()
    ensures Consistent(SIGNALS) && Consistent(ERRORS)
    ensures forall c :: c in SIGNALS || c in ERRORS ==> IsWord(c.constant)
  {
    var signals, errors := SIGNALS, ERRORS;
    assert signals == SIGNALS && errors == ERRORS;
    forall i: nat | i < |signals| ensures IsName(signals[i].constant) && IsWord(signals[i].constant) {
      SignalIsName(i);
      NameChars(signals[i].constant);
    }
    forall i: nat | i < |errors| ensures IsName(errors[i].constant) && IsWord(errors[i].constant) {
      ErrorIsName(i);
      NameChars(errors[i].constant);
    }
    hide Consistent, IsName, IsWord, SIGNALS, ERRORS;
    forall i: nat, k: nat | k < i < |signals| ensures signals[k].constant != signals[i].constant {
      SignalsDiffer(i, k);
    }
    forall i: nat, k: nat | k < i < |errors| && errors[k].constant == errors[i].constant ensures errors[k] == errors[i] {
      if errors[k].value != errors[i].value {
        ErrorsDiffer(i, k);
      }
    }
    ConsistentByIndex(signals);
    ConsistentByIndex(errors);
  }

  lemma EntryTask(f: Fields, n: int)
    ensures TaskOf(f[TD0 := Number(n)][TaskType := Number(5)]) == Some(Emit(n))
    ensures TaskOf(f[TD0 := Number(n)][TaskType := Number(6)]) == Some(Error(n))
  {
  }

  lemma Regrouped(name: string, text: string, w: string, rest: string)
    requires text == name + " "
    ensures text + w + rest == name + (" " + (w + rest))
  {
    assert text + w + rest == text + (w + rest);
    assert name + " " + (w + rest) == name + (" " + (w + rest));
  }

  lemma TaskTables()
    ensures |TASKS| == 19 && TASKS[5] == Argument("emit", EnumElement(TD0, SIGNALS, 0)) && TASKS[6] == Argument("error", EnumElement(TD0, ERRORS, 0))
  {
  }

  lemma EmitReads(n: int, w: string, s: State, rest: string, names: Parsers.Names)
    requires Choice(w, n) in SIGNALS && rest != "" && rest[0] == ' ' && s.text == "emit " + w + rest
    ensures var r := Run(TaskParser(), s, names); r.ok && r.after.text == rest && TaskOf(r.after.fields) == Some(Emit(n))
  {
    NamesAreConsistent();
    EntryTask(s.fields, n);
    TaskTables();
    hide Run, Consistent, IsWord, TaskOf, SIGNALS, ERRORS, TASKS, TaskParser;
    Regrouped("emit", "emit ", w, rest);
    EntryReads(5, "emit", SIGNALS, Choice(w, n), s, rest, names);
  }

  lemma ErrorReads(n: int, w: string, s: State, rest: string, names: Parsers.Names)
    requires Choice(w, n) in ERRORS && rest != "" && rest[0] == ' ' && s.text == "error " + w + rest
    ensures var r := Run(TaskParser(), s, names); r.ok && r.after.text == rest && TaskOf(r.after.fields) == Some(Error(n))
  {
    NamesAreConsistent();
    EntryTask(s.fields, n);
    TaskTables();
    hide Run, Consistent, IsWord, TaskOf, SIGNALS, ERRORS, TASKS, TaskParser;
    Regrouped("error", "error ", w, rest);
    EntryReads(6, "error", ERRORS, Choice(w, n), s, rest, names);
  }

  lemma EntryTaskReads(t: Task, w: string, s: State, rest: string, names: Parsers.Names)
    requires (t.Emit? || t.Error?) && Names(t, w) && rest != "" && rest[0] == ' ' && s.text == TaskText(t, w) + rest
    ensures var r := Run(TaskParser(), s, names); r.ok && r.after.text == rest && TaskOf(r.after.fields) == Some(t)
  {
    hide Run, TaskOf, SIGNALS, ERRORS, TASKS, TaskParser;
    if t.Emit? {
      EmitReads(t.n, w, s, rest, names);
    } else {
      ErrorReads(t.n, w, s, rest, names);
    }
  }

  /** Every task is read from its text, those that are not printed in a way that is read back included. */
  lemma TaskTextReads(t: Task, w: string, s: State, rest: string, names: Parsers.Names)
    requires GoodTask(t) && Names(t, w) && rest != "" && rest[0] == ' ' && s.text == TaskText(t, w) + rest
    ensures var r := Run(TaskParser(), s, names); r.ok && r.after.text == rest && TaskOf(r.after.fields) == Some(t)
  {
    hide Run, TaskText, Names, TaskOf, TaskParser, ShowTask, TaskFields;
    if t.Emit? || t.Error? {
      EntryTaskReads(t, w, s, rest, names);
    } else if t.Truncate? {
      TruncateNeeds(t, w);
      TruncateReads(t.n, s, rest, names);
    } else {
      TextIsShown(t, w);
      TaskReads(t, s, rest, names);
      ReadTask(s.fields, t);
    }
  }

  lemma TruncateNeeds(t: Task, w: string)
    requires GoodTask(t) && t.Truncate?
    ensures Int32(t.n) && t == Truncate(t.n) && TaskText(t, w) == TaskText(Truncate(t.n), "")
  {
  }

  lemma ReadTask(f: Fields, t: Task)
    requires Printable(t)
    ensures TaskOf(TaskFields(f, t)) == Some(t)
  {
  }

  /** What the interpreter does for a task, by its text. */
  lemma TaskTextMeans(n: int, file: string)
    ensures TaskOfRule(Nop) == Some(Call.Nop) && TaskOfRule(Syscall) == Some(Call.DoSyscall)
    ensures TaskOfRule(Drop) == Some(Call.Drop) && TaskOfRule(CancelSyscall) == Some(Call.CancelSyscall)
    ensures TaskOfRule(Dump(file)) == TaskOfRule(Echo(file)) == TaskOfRule(Log(Some(file))) == Some(Call.Report)
    ensures TaskOfRule(Hang(n)) == Some(Call.Hang(n)) && TaskOfRule(LocalHang(n)) == Some(Call.LocalHang(n))
    ensures TaskOfRule(RemoteHang(n)) == Some(Call.RemoteHang(n)) && TaskOfRule(Truncate(n)) == Some(Call.Truncate(n))
    ensures TaskOfRule(MarkDone(true, n)) == Some(Call.MarkDone(false, n)) && TaskOfRule(MarkDone(false, n)) == Some(Call.MarkDone(true, n))
    ensures TaskOfRule(Emit(n)) == Some(Call.Emit(n)) && TaskOfRule(Error(n)) == Some(Call.Error(n))
    ensures 0 < n < 0x4000_0000 ==> TaskOfRule(Alter(n)) == Some(Call.DoAlter(n))
    ensures 0 <= n <= 100 ==> TaskOfRule(Split(n)) == Some(Call.Split(n))
  {
  }

  // ----- every rule can be written -----

  /** An instruction for a rule: it differs from what is printed in the text of the task only. */
  function Written(r: Rule, w: string, end: LineEnd): string {
    Decimal(r.pos) + (" on " + (ShowProto(r.proto) + (" " + (ShowWho(r) + ShowTail(r, TaskText(r.task, w), end)))))
  }

  lemma TaskTextStarts(t: Task, w: string, rest: string)
    ensures TaskText(t, w) + rest != "" && !IsSpace((TaskText(t, w) + rest)[0])
  {
    hide Decimal;
  }

  /** The mode and the task, up to what comes next. */
  lemma DoTextReads(m: DoMode, t: Task, w: string, s: State, rest: string, names: Parsers.Names) returns (f: Fields)
    requires GoodTask(t) && Names(t, w) && (rest == "" || !IsSpace(rest[0]))
    requires s.text == ShowMode(m) + (" " + (TaskText(t, w) + (" " + rest)))
    ensures Run(DoParser(), s, names) == Outcome(true, State(rest, None, f)) && TaskOf(f) == Some(t) && ModeOf(f) == Some(m)
  {
    hide Run, TaskText, TaskParser, GoodTask, ShowMode, TaskOf, Names, ModeCode;
    var task := TaskText(t, w);
    TaskTextStarts(t, w, " " + rest);
    ModeReads(m, s, task + (" " + rest), names);
    var u := State(task + (" " + rest), None, s.fields[Mode := Number(ModeCode(m))]);
    TaskTextReads(t, w, u, " " + rest, names);
    var v := Run(TaskParser(), u, names).after;
    f := v.fields;
    SpacedReads(TaskParser(), u, rest, v.status, f, names);
    DoIs();
    TwoParts(DoParser(), s, u, State(rest, None, f), names);
    TaskLeavesMode(u, names);
    ModeIsRead(m, u.fields, f);
  }

  lemma TaskLeavesMode(s: State, names: Parsers.Names)
    ensures Agree(s.fields, Run(TaskParser(), s, names).after.fields, Mode)
  {
    hide Run, Mentions;
    var p := TaskParser();
    forall i: nat | i < |p.definitions| && p.definitions[i].Argument? ensures !Mentions(p.definitions[i].argument, Mode) {
      TaskMentions(i, Mode);
    }
    NoDefinitionMentions(p, Mode);
    Frame(p, s, names, Mode);
  }

  lemma ModeIsRead(m: DoMode, f: Fields, g: Fields)
    requires Mode in f && f[Mode] == Number(ModeCode(m)) && Agree(f, g, Mode)
    ensures ModeOf(g) == Some(m)
  {
  }

  /** The instruction is accepted to its end, and leaves these fields. */
  lemma WrittenReads(r: Rule, w: string, end: LineEnd, status: Option<nat>, names: Parsers.Names) returns (g: Fields)
    requires Good(r) && KeepsQuads(names) && Names(r.task, w)
    ensures Parse(Written(r, w, end), status, names) == Outcome(true, State("", None, JumpFields(g, r.jump)))
    ensures TaskOf(g) == Some(r.task) && ModeOf(g) == Some(r.mode)
    ensures forall k :: !TaskSlot(k) ==> Agree(ToWhen(Defaults(), r), g, k)
  {
    hide Run, RunAll, ShowTail, ShowProto, ShowWho, ShowMode, ShowJump, Decimal, KeepsQuads, JumpFields, ToWhen, TaskText, Names, Mentions, Agree,
      GoodHosts, GoodTask, GoodJump, GoodCondition, Defaults, DoParser, TaskOf, ModeOf, ReadNext, RuleParser, TaskSlot;
    var task := TaskText(r.task, w);
    var s := State(Written(r, w, end), status, Defaults());
    UpToTaskReads(r, task, end, s, names);
    var rest := ShowJump(r.jump) + end;
    JumpStarts(r.jump, end);
    var t := State(ShowMode(r.mode) + (" " + (task + (" " + rest))), None, ToWhen(s.fields, r));
    g := DoTextReads(r.mode, r.task, w, t, rest, names);
    forall k | !TaskSlot(k) ensures Agree(ToWhen(Defaults(), r), g, k) {
      DoMentions(k);
      Frame(DoParser(), t, names, k);
    }
    RuleParts();
    NextPart(RuleParser(), 5, t, names);
    var u := State(rest, None, g);
    JumpReads(r.jump, u, end);
    RunLeaf(NextElement, u, names);
    NextPart(RuleParser(), 6, u, names);
    EndOfRule(end, State(end, None, JumpFields(g, r.jump)), names);
    RunSuite(RuleParser(), s, names);
  }

  lemma AgreeThere(f: Fields, g: Fields, h: Fields, k: Slot)
    requires Agree(f, g, k) && Agree(f, h, k)
    ensures Agree(g, h, k)
  {
  }

  /** Fields that agree but for the task make up the same rule but for the task. */
  lemma SameButTask(f: Fields, g: Fields)
    requires forall k :: !TaskSlot(k) ==> Agree(f, g, k)
    ensures NumberAt(f, Pos) == NumberAt(g, Pos) && ProtocolOf(f) == ProtocolOf(g) && CourseOf(f) == CourseOf(g)
    ensures HostOf(f, Source) == HostOf(g, Source) && HostOf(f, Target) == HostOf(g, Target)
    ensures ConditionOf(f) == ConditionOf(g) && JumpOf(f) == JumpOf(g)
  {
    assert Agree(f, g, Pos) && Agree(f, g, Proto) && Agree(f, g, Direction) && Agree(f, g, NextType) && Agree(f, g, NextLine);
    assert Agree(f, g, ConditionType) && Agree(f, g, CD0) && Agree(f, g, CD1) && Agree(f, g, CD2);
    assert Agree(f, g, HostType(Source)) && Agree(f, g, HostAddr(Source)) && Agree(f, g, HostPort(Source));
    assert Agree(f, g, HostType(Target)) && Agree(f, g, HostAddr(Target)) && Agree(f, g, HostPort(Target));
    SameCondition(f, g);
    HasSameHost(f, g, Source);
    HasSameHost(f, g, Target);
    hide ConditionOf, HostOf;
  }

  lemma JumpKeepsAgreement(f: Fields, g: Fields, j: Jump, k: Slot)
    requires Agree(f, g, k)
    ensures Agree(JumpFields(f, j), JumpFields(g, j), k)
  {
  }

  lemma JumpLeavesTask(f: Fields, j: Jump)
    ensures TaskOf(JumpFields(f, j)) == TaskOf(f) && ModeOf(JumpFields(f, j)) == ModeOf(f)
  {
    JumpKeeps(f, j, TaskType);
    JumpKeeps(f, j, TD0);
    JumpKeeps(f, j, TD1);
    JumpKeeps(f, j, Mode);
    SameTask(f, JumpFields(f, j));
  }

  /** Every rule that an instruction can give is given by the instruction that writes it down, whatever its
      task; `truncate`, `emit` and `error` are written although they are not printed like that. */
  lemma EveryRuleCanBeWritten(r: Rule, w: string, end: LineEnd, status: Option<nat>, names: Parsers.Names)
    requires Good(r) && KeepsQuads(names) && Names(r.task, w)
    ensures var o := Parse(Written(r, w, end), status, names);
            o.ok && o.after.text == "" && o.after.status == None && RuleOf(o.after.fields) == Some(Normalized(r))
  {
    hide Parse, Written, RuleFields, HostOf, ConditionOf, TaskOf, ModeOf, JumpOf, CourseOf, ProtocolOf, NumberAt, KeepsQuads, GoodHosts,
      GoodTask, GoodJump, GoodCondition, Names, TaskSlot, Agree, ToWhen, JumpFields, DoFields, Defaults, NormalHost;
    var g := WrittenReads(r, w, end, status, names);
    var plain := r.(task := Nop);
    SameStart(r);
    DefaultsAreFresh();
    HeadStays(Defaults(), plain);
    WhoStays(Defaults(), plain);
    RestStays(Defaults(), plain);
    var f0, f := RuleFields(Defaults(), plain), JumpFields(g, r.jump);
    forall k | !TaskSlot(k) ensures Agree(f0, f, k) {
      PlainAgrees(r, g, k);
    }
    SameButTask(f0, f);
    JumpLeavesTask(g, r.jump);
  }

  lemma SameStart(r: Rule)
    ensures ToWhen(Defaults(), r.(task := Nop)) == ToWhen(Defaults(), r) && (Good(r) ==> GoodHosts(r.(task := Nop)))
  {
    hide Defaults;
  }

  lemma PlainAgrees(r: Rule, g: Fields, k: Slot)
    requires !TaskSlot(k) && Agree(ToWhen(Defaults(), r), g, k)
    ensures Agree(RuleFields(Defaults(), r.(task := Nop)), JumpFields(g, r.jump), k)
  {
    SameStart(r);
    hide ToWhen, JumpFields, DoFields, Agree, Defaults;
    var when := ToWhen(Defaults(), r);
    var do := DoFields(when, r.mode, Nop);
    DoKeeps(when, r.mode, Nop, k);
    AgreeThere(when, do, g, k);
    JumpKeepsAgreement(do, g, r.jump, k);
  }

  // ----- modes and jumps by their names -----

  /** The words for the modes and for what comes next, as they are written, and what they mean to the interpreter. */
  lemma ModesAndJumpsMean(line: nat)
    ensures ShowMode(Normal) == "do" && ModeOfRule(Normal) == Some(Queue.Normal)
    ensures ShowMode(OncePerCall) == "do-once-per-call" && ModeOfRule(OncePerCall) == Some(Queue.OncePerCall)
    ensures ShowMode(OncePerSocket) == "do-once-per-socket" && ModeOfRule(OncePerSocket) == Some(Queue.OncePerSocket)
    ensures ShowMode(Once) == "do-once" && ModeOfRule(Once) == None
    ensures ShowJump(Continue) == "continue" && NextOfRule(Continue) == Some(Queue.Continue)
    ensures ShowJump(NextRule) == "next" && NextOfRule(NextRule) == Some(Queue.FollowNext)
    ensures ShowJump(Stop) == "stop" && NextOfRule(Stop) == Some(Queue.Stop)
    ensures ShowJump(Goto(line)) == "goto " + Decimal(line) && NextOfRule(Goto(line)) == Some(Queue.Goto(line))
    ensures ShowJump(Exec(line)) == "exec " + Decimal(line) && NextOfRule(Exec(line)) == Some(Queue.Exec(line))
  {
    hide Decimal;
    Glue("goto", "goto ", Decimal(line));
    Glue("exec", "exec ", Decimal(line));
  }

  /** A rule is part of the interpreter's model exactly if its mode, its task and its jump are, and then it is run
      with these three. */
  lemma RuleMeans(r: Rule, q: Queue.Rule)
    ensures Compiled(r) == Some(q) <==> ModeOfRule(r.mode) == Some(q.mode) && TaskOfRule(r.task) == Some(q.task) && NextOfRule(r.jump) == Some(q.next)
  {
    hide TaskOfRule;
  }

  // ----- where a search leads -----

  /** The rule on a line matches at search `k`: the codes of its instruction fit the socket and the event,
      and its condition holds then. */
  predicate LineMatches(rules: RuleLines, o: Outside, e: Event, k: nat, line: nat) {
    && line < |rules| && rules[line].Some?
    && k < |o.holds| && line in o.holds[k]
    && Matches(rules[line].value, o.si, e, true)
  }

  lemma LineMatchesIff(rules: RuleLines, o: Outside, e: Event, k: nat, line: nat)
    requires Compilable(rules)
    ensures Queue.MatchesLine(EnvOf(rules, o, e), Program(rules), k, line) <==> LineMatches(rules, o, e, k, line)
  {
    hide Matches, CompiledLine;
  }

  /** In a table of instructions a call runs first the rule of the first line that matches it, and is left
      alone if there is none; `Meanings` says which those are. */
  lemma SearchFindsFirstMatch(rules: RuleLines, o: Outside, e: Event, k: nat, pos: nat)
    requires Compilable(rules)
    ensures var r := Queue.GetMatch(EnvOf(rules, o, e), Program(rules), k, pos);
            match r
            case Some(i) =>
              && pos <= i && LineMatches(rules, o, e, k, i) && Program(rules)[i] == CompiledLine(rules[i])
              && forall j: nat :: pos <= j < i ==> !LineMatches(rules, o, e, k, j)
            case None => forall j: nat :: pos <= j ==> !LineMatches(rules, o, e, k, j)
  {
    Queue.FindsFirstMatch(EnvOf(rules, o, e), Program(rules), k, pos);
    forall j: nat ensures Queue.MatchesLine(EnvOf(rules, o, e), Program(rules), k, j) <==> LineMatches(rules, o, e, k, j) {
      LineMatchesIff(rules, o, e, k, j);
    }
    hide Queue.GetMatch, Queue.MatchesLine, EnvOf, CompiledLine;
  }
}
