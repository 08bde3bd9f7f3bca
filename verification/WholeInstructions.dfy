/** From the text of an instruction to what the program sees: the instruction is read, put in the
    table, found by the search of a call, and run (`src/actions.c`, `src/actions/`). */
module WholeInstructions {
  import opened Options
  import opened Parsers
  import opened Grammar
  import opened RuleText
  import opened Reload
  import opened Instructions
  import Call
  import Queue
  import Light
  import WholeCalls

  /** Line `i` is the first that matches a call on a socket, and may run. */
  ghost predicate MeetsFirst(rules: RuleLines, o: Outside, w: Call.World, sock: Call.SocketData, input: Queue.Input, i: nat) {
    && 0 < |sock.lines.slots| && input.len <= |input.bytes| && !sock.hanging
    && LineMatches(rules, o, EventOf(input.direction), w.searches, i)
    && (forall j: nat :: j < i ==> !LineMatches(rules, o, EventOf(input.direction), w.searches, j))
    && !(rules[i].value.mode.OncePerSocket? && Light.Contains(sock.lines, i))
  }

  /** What a call comes to, by the task of the instruction on line `i` that it meets. */
  predicate ComesTo(t: Task, i: nat, env: Call.Env, w: Call.World, input: Queue.Input, m: Call.Machine)
    requires input.len <= |input.bytes|
  {
    match t
    case Nop => WholeCalls.IsPlainCall(env, w, input, input.len, m)
    case Echo(_) => WholeCalls.IsPlainCall(env, w, input, input.len, m)
    case Log(_) => WholeCalls.IsPlainCall(env, w, input, input.len, m)
    case Dump(_) => WholeCalls.IsPlainCall(env, w, input, input.len, m)
    case MarkDone(_, _) => WholeCalls.IsPlainCall(env, w, input, input.len, m)
    case Syscall => WholeCalls.IsPlainCall(env, w, input, input.len, m)
    case Drop => WholeCalls.IsSettled(w, input, m, input.len, input.errno)
    case CancelSyscall => WholeCalls.IsSettled(w, input, m, -1, input.errno)
    case Error(e) =>
      if input.blocking && e == 11 then WholeCalls.IsPlainCall(env, w, input, input.len, m) else WholeCalls.IsSettled(w, input, m, -1, e)
    case Emit(signal) => WholeCalls.IsSettled(w, input, m, -1, if signal == 13 then 32 else 4)
    case Truncate(size) =>
      var asked := if Call.CarriesData(input.direction) && 0 <= size < input.len then size else input.len;
      WholeCalls.IsPlainCall(env, w, input, asked, m)
    case Hang(ms) => IsPutOff(ms, i, env, w, input, m)
    case RemoteHang(ms) => IsPutOff(ms, i, env, w, input, m)
    case LocalHang(_) => WholeCalls.IsPlainCall(env, w, input, input.len, m) && !m.sock.hanging
    case _ => true
  }

  /** A read of a non-blocking socket fails, to be repeated `ms` milliseconds later; any other call goes on. */
  predicate IsPutOff(ms: int, i: nat, env: Call.Env, w: Call.World, input: Queue.Input, m: Call.Machine)
    requires input.len <= |input.bytes|
  {
    if input.direction.Reading? && !input.blocking then
      && WholeCalls.IsSettled(w, input, m, -1, 11)
      && m.sock.hanging && m.sock.pos == i && m.sock.msec == (Call.TimeAt(env, w.clocks) + ms) % Call.SIZE_MODULUS
    else WholeCalls.IsPlainCall(env, w, input, input.len, m) && !m.sock.hanging
  }

  /** An instruction that stops is the only one that runs in a call that meets it first. */
  lemma InstructionRuns(rules: RuleLines, o: Outside, w: Call.World, sock: Call.SocketData, input: Queue.Input, i: nat)
    requires Compilable(rules) && MeetsFirst(rules, o, w, sock, input, i) && rules[i].value.jump == Stop
    ensures WholeCalls.OnlyRule(EnvOf(rules, o, EventOf(input.direction)), Program(rules), w, sock, input, i)
    ensures TaskOfRule(rules[i].value.task) == Some(Program(rules)[i].value.task)
  {
    var e := EventOf(input.direction);
    var env, program := EnvOf(rules, o, e), Program(rules);
    assert CompiledLine(rules[i]).Some? && program[i] == CompiledLine(rules[i]);
    forall j: nat ensures Queue.MatchesLine(env, program, w.searches, j) <==> LineMatches(rules, o, e, w.searches, j) {
      LineMatchesIff(rules, o, e, w.searches, j);
    }
    hide Queue.MatchesLine, LineMatches, TaskOfRule, Light.Contains, EnvOf, Program;
  }

  lemma TasksAre(t: Task)
    ensures t.Nop? ==> TaskOfRule(t) == Some(Call.Nop)
    ensures t.Echo? || t.Log? || t.Dump? ==> TaskOfRule(t) == Some(Call.Report)
    ensures t.MarkDone? ==> TaskOfRule(t) == Some(Call.MarkDone(!t.call, t.n))
    ensures t.Syscall? ==> TaskOfRule(t) == Some(Call.DoSyscall)
    ensures t.Drop? ==> TaskOfRule(t) == Some(Call.Drop)
    ensures t.CancelSyscall? ==> TaskOfRule(t) == Some(Call.CancelSyscall)
    ensures t.Error? ==> TaskOfRule(t) == Some(Call.Error(t.n))
    ensures t.Emit? ==> TaskOfRule(t) == Some(Call.Emit(t.n))
    ensures t.Truncate? ==> TaskOfRule(t) == Some(Call.Truncate(t.n))
    ensures t.Hang? ==> TaskOfRule(t) == Some(Call.Hang(t.n))
    ensures t.LocalHang? ==> TaskOfRule(t) == Some(Call.LocalHang(t.n))
    ensures t.RemoteHang? ==> TaskOfRule(t) == Some(Call.RemoteHang(t.n))
  {
  }

  lemma HangComesTo(env: Call.Env, program: Queue.Rules, w: Call.World, sock: Call.SocketData, input: Queue.Input, i: nat, n: nat, t: Task)
    requires WholeCalls.OnlyRule(env, program, w, sock, input, i) && 1 <= n
    requires (t.Hang? || t.LocalHang? || t.RemoteHang?) && TaskOfRule(t) == Some(program[i].value.task)
    ensures ComesTo(t, i, env, w, input, Queue.ProcessCall(env, program, w, sock, input, n))
  {
    TasksAre(t);
    hide WholeCalls.OnlyRule, Queue.ProcessCall, TaskOfRule, WholeCalls.IsPlainCall, WholeCalls.IsSettled;
    WholeCalls.HangsPutReadsOff(env, program, w, sock, input, i, n);
  }

  lemma FailureComesTo(env: Call.Env, program: Queue.Rules, w: Call.World, sock: Call.SocketData, input: Queue.Input, i: nat, n: nat, t: Task)
    requires WholeCalls.OnlyRule(env, program, w, sock, input, i) && 1 <= n
    requires (t.Error? || t.Emit? || t.CancelSyscall?) && TaskOfRule(t) == Some(program[i].value.task)
    ensures ComesTo(t, i, env, w, input, Queue.ProcessCall(env, program, w, sock, input, n))
  {
    TasksAre(t);
    hide WholeCalls.OnlyRule, Queue.ProcessCall, TaskOfRule, WholeCalls.IsPlainCall, WholeCalls.IsSettled;
    WholeCalls.FailuresAreTold(env, program, w, sock, input, i, n);
  }

  lemma RuleComesTo(rules: RuleLines, o: Outside, w: Call.World, sock: Call.SocketData, input: Queue.Input, i: nat, n: nat)
    requires Compilable(rules) && MeetsFirst(rules, o, w, sock, input, i) && rules[i].value.jump == Stop && 1 <= n
    requires GoodTask(rules[i].value.task) && input.len < 0x8000_0000_0000_0000
    ensures 0 < |rules|
    ensures var env := EnvOf(rules, o, EventOf(input.direction));
            ComesTo(rules[i].value.task, i, env, w, input, Queue.ProcessCall(env, Program(rules), w, sock, input, n))
  {
    InstructionRuns(rules, o, w, sock, input, i);
    var t := rules[i].value.task;
    TasksAre(t);
    var env, program := EnvOf(rules, o, EventOf(input.direction)), Program(rules);
    hide EnvOf, Program, TaskOfRule, WholeCalls.OnlyRule, Queue.ProcessCall, WholeCalls.IsPlainCall, WholeCalls.IsSettled, LineMatches, Light.Contains, IsPutOff;
    match t
    case Syscall => WholeCalls.SyscallIsPlain(env, program, w, sock, input, i, n);
    case Drop => WholeCalls.DropTellsSuccess(env, program, w, sock, input, i, n);
    case Truncate(_) => WholeCalls.TruncateAsksForLess(env, program, w, sock, input, i, n);
    case Hang(_) => HangComesTo(env, program, w, sock, input, i, n, t);
    case RemoteHang(_) => HangComesTo(env, program, w, sock, input, i, n, t);
    case LocalHang(_) => HangComesTo(env, program, w, sock, input, i, n, t);
    case Error(_) => FailureComesTo(env, program, w, sock, input, i, n, t);
    case Emit(_) => FailureComesTo(env, program, w, sock, input, i, n, t);
    case CancelSyscall => FailureComesTo(env, program, w, sock, input, i, n, t);
    case Nop => WholeCalls.ReportIsPlain(env, program, w, sock, input, i, n);
    case Echo(_) => WholeCalls.ReportIsPlain(env, program, w, sock, input, i, n);
    case Log(_) => WholeCalls.ReportIsPlain(env, program, w, sock, input, i, n);
    case Dump(_) => WholeCalls.ReportIsPlain(env, program, w, sock, input, i, n);
    case MarkDone(_, _) => WholeCalls.ReportIsPlain(env, program, w, sock, input, i, n);
    case _ =>
  }

  lemma SameOutside(rules: RuleLines, o: Outside, e: Event)
    ensures var env := EnvOf(rules, o, e); env.replies == o.replies && env.clock == o.clock && env.rand == o.rand
  {
  }

  /** The text that writes a rule down, read and put on a line of a table, has its effect on every call that
      it is the first to match: `error` makes the call fail with the error of that name, `drop` makes it
      succeed without being made, `truncate` makes it shorter, `hang` puts it off, and so on. `WholeCalls` says
      what becomes of `alter` and `split`. */
  lemma InstructionHasItsEffect(r: Rule, word: string, end: LineEnd, names: Parsers.Names, rules: RuleLines, o: Outside,
                                w: Call.World, sock: Call.SocketData, input: Queue.Input, i: nat, n: nat)
    requires Good(r) && KeepsQuads(names) && Instructions.Names(r.task, word) && r.jump == Stop
    requires i < |rules| && rules[i].Some? && rules[i] == RuleOf(Parse(Written(r, word, end), None, names).after.fields)
    requires Compilable(rules) && MeetsFirst(rules, o, w, sock, input, i) && 1 <= n && input.len < 0x8000_0000_0000_0000
    ensures var env := EnvOf(rules, o, EventOf(input.direction));
            && env.replies == o.replies && env.clock == o.clock && env.rand == o.rand
            && ComesTo(r.task, i, env, w, input, Queue.ProcessCall(env, Program(rules), w, sock, input, n))
  {
    SameOutside(rules, o, EventOf(input.direction));
    hide Parse, Written, RuleOf, KeepsQuads, Instructions.Names, Compilable, EnvOf, Program, Queue.ProcessCall, ComesTo, GoodHosts, GoodTask,
      GoodCondition, MeetsFirst, NormalHost;
    EveryRuleCanBeWritten(r, word, end, None, names);
    assert rules[i].value == Normalized(r);
    RuleComesTo(rules, o, w, sock, input, i, n);
  }
}
