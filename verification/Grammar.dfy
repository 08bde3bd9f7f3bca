/** The language of the rules (`src/actions.c`, with the arguments in `src/actions/` and
    `src/conditions/`): the parser of an instruction, and the printer of a rule. */
module Grammar {
  import opened Options
  import opened Texts
  import opened Parsers

  // ----- rules -----

  datatype HostKind = Nobody | Me | Dns | At | Any

  /** The port is -1 if every port is meant. */
  datatype HostRule = HostRule(kind: HostKind, addr: int, port: int)

  datatype Protocol = Tcp | Udp | Ip

  datatype Course = OnData | OnConnect | OnClose | OnAll

  datatype Condition =
    | After(ms: int) | Always | Before(ms: int) | Between(first: int, second: int)
    | Cycle(start: bool, first: int, second: int) | Matched | Never | Prob(percent: int) | Unmatched

  datatype DoMode = Normal | Once | OncePerCall | OncePerSocket

  datatype Task =
    | Alter(n: int) | CancelSyscall | Drop | Dump(file: string) | Echo(word: string) | Emit(n: int) | Error(n: int)
    | Hang(n: int) | LocalHang(n: int) | Log(sink: Option<string>) | MarkDone(call: bool, n: int) | Nop
    | RemoteHang(n: int) | Remove(n: int) | Replay(file: string) | Reset | Split(n: int) | Syscall | Truncate(n: int)

  datatype Jump = Continue | Goto(line: int) | NextRule | Exec(line: int) | Stop

  datatype Rule = Rule(pos: int, proto: Protocol, course: Course, source: HostRule, target: HostRule,
                       condition: Condition, mode: DoMode, task: Task, jump: Jump)

  // ----- the parser of an instruction -----

  const HOSTS := [Choice("me", 1), Choice("any", 7), Choice("dns", 2)]

  const PROTOS := [Choice("ip", 3), Choice("tcp", 1), Choice("udp", 2)]

  const MODES := [Choice("do", 0), Choice("do-once", 1), Choice("do-once-per-call", 2), Choice("do-once-per-socket", 3)]

  const BOOLS := [Choice("true", 1), Choice("false", 0)]

  const DONE_FOR := [Choice("call", 1), Choice("socket", 2)]

  const SIGNALS := [
    Choice("SIGHUP", 1), Choice("SIGINT", 2), Choice("SIGQUIT", 3), Choice("SIGILL", 4), Choice("SIGABRT", 6),
    Choice("SIGFPE", 8), Choice("SIGKILL", 9), Choice("SIGSEGV", 11), Choice("SIGPIPE", 13), Choice("SIGALRM", 14),
    Choice("SIGTERM", 15), Choice("SIGUSR1", 10), Choice("SIGUSR2", 12), Choice("SIGCHLD", 17), Choice("SIGCONT", 18),
    Choice("SIGSTOP", 19), Choice("SIGTSTP", 20), Choice("SIGTTIN", 21), Choice("SIGTTOU", 22)]

  const ERRORS := [
    Choice("EAGAIN", 11), Choice("EBADF", 9), Choice("EFAULT", 14), Choice("EINVAL", 22), Choice("EIO", 5), Choice("EBADF", 9),
    Choice("EPERM", 1), Choice("EACCES", 13), Choice("EADDRINUSE", 98), Choice("EAFNOSUPPORT", 97), Choice("EALREADY", 114),
    Choice("EPERM", 1), Choice("EBADF", 9), Choice("ECONNREFUSED", 111), Choice("EFAULT", 14), Choice("EINPROGRESS", 115),
    Choice("EISCONN", 106), Choice("ENETUNREACH", 101), Choice("ENOTSOCK", 88), Choice("ETIMEDOUT", 110)]

  const CD0 := ConditionData(0)
  const CD1 := ConditionData(1)
  const CD2 := ConditionData(2)
  const TD0 := TaskData(0)
  const TD1 := TaskData(1)

  /** The conditions and the tasks. The functions that read an argument of several parts do
      what a suite of these parts does, so they are suites here. */
  const CONDITIONS := [
    Argument("after", IntElement(CD0)),
    Plain("always"),
    Argument("before", IntElement(CD0)),
    Argument("between", Suite([IntElement(CD0), SpaceElement, IntElement(CD1)])),
    Argument("cycle", Suite([Spaced(EnumElement(CD0, BOOLS, 0)), Spaced(IntElement(CD1)), IntElement(CD2)])),
    Plain("matched"),
    Plain("never"),
    Argument("prob", RangedInt(CD0, 0, 100)),
    Plain("unmatched")]

  const TASKS := [
    Argument("alter", IntElement(TD0)),
    Plain("cancel-syscall"),
    Plain("drop"),
    Argument("dump", WordElement(TD1)),
    Argument("echo", WordElement(TD0)),
    Argument("emit", EnumElement(TD0, SIGNALS, 0)),
    Argument("error", EnumElement(TD0, ERRORS, 0)),
    Argument("hang", IntElement(TD0)),
    Argument("local-hang", IntElement(TD0)),
    Argument("log", FileElement(TD1)),
    Argument("mark-done", Suite([EnumElement(TD0, DONE_FOR, 0), SpaceElement, IntElement(TD1)])),
    Plain("nop"),
    Argument("remote-hang", IntElement(TD0)),
    Argument("remove", IntElement(TD0)),
    Argument("replay", WordElement(TD1)),
    Plain("reset"),
    Argument("split", RangedInt(TD0, 0, 100)),
    Plain("syscall"),
    Argument("truncate", IntElement(TD0))]

  const ALWAYS := 1

  const NOP := 11

  function PortParser(end: End): Parser {
    Optional([SpaceElement, Spaced(Constant("port")), First([IntElement(HostPort(end)), WordElement(Service)])])
  }

  function NameParser(end: End): Parser {
    First([EnumElement(HostType(end), HOSTS, HOST_ADDRESS), WordElement(Address)])
  }

  /** `Action_parse_host`. */
  function HostParser(keyword: string, end: End): Parser {
    HostElement(end, Suite([Spaced(Constant(keyword)), NameParser(end), PortParser(end)]))
  }

  function WithParser(): Parser {
    Suite([Spaced(HostParser("with", Source)), Assign(Direction, 15)])
  }

  function StartParser(): Parser {
    First([
      Spaced(Suite([Constant("connect"), Assign(Direction, 4)])),
      Spaced(Suite([Constant("close"), Assign(Direction, 8)])),
      Spaced(HostParser("from", Source))])
  }

  function WhoParser(): Parser {
    First([
      WithParser(),
      Spaced(HostParser("talk-with", Source)),
      Suite([StartParser(), Spaced(HostParser("to", Target))])])
  }

  function WhenParser(): Parser {
    Optional([Spaced(Constant("when")), Spaced(Named(ConditionType, CONDITIONS))])
  }

  function DoParser(): Parser {
    Optional([Spaced(EnumElement(Mode, MODES, 0)), Spaced(Named(TaskType, TASKS))])
  }

  function RuleParser(): Parser {
    Suite([
      Spaced(IntElement(Pos)),
      Spaced(Constant("on")),
      Spaced(EnumElement(Proto, PROTOS, 0)),
      WhoParser(),
      WhenParser(),
      DoParser(),
      NextElement,
      Optional([SpaceElement]),
      EobElement])
  }

  function Defaults(): Fields {
    map[Direction := Number(3), ConditionType := Number(ALWAYS), Mode := Number(0), TaskType := Number(NOP),
        HostType(Source) := Number(0), HostType(Target) := Number(0)]
  }

  /** `Action_parse`. */
  function Parse(instruction: string, status: Option<nat>, names: Names): Outcome {
    Run(RuleParser(), State(instruction, status, Defaults()), names)
  }

  // ----- the rule that the fields make up -----

  function NumberAt(f: Fields, slot: Slot): Option<int> {
    if slot in f && f[slot].Number? then Some(f[slot].n) else None
  }

  function KindOf(code: int): Option<HostKind> {
    match code
    case 0 => Some(Nobody)
    case 1 => Some(Me)
    case 2 => Some(Dns)
    case 4 => Some(At)
    case 7 => Some(Any)
    case _ => None
  }

  /** The address and the port of a host that is not set are never looked at. */
  function HostOf(f: Fields, end: End): Option<HostRule> {
    match NumberAt(f, HostType(end))
    case None => None
    case Some(code) =>
      if code == 0 then Some(HostRule(Nobody, 0, -1))
      else
        match (KindOf(code), NumberAt(f, HostAddr(end)), NumberAt(f, HostPort(end)))
        case (Some(kind), Some(addr), Some(port)) => Some(HostRule(kind, addr, port))
        case _ => None
  }

  function ProtocolOf(f: Fields): Option<Protocol> {
    match NumberAt(f, Proto)
    case Some(1) => Some(Tcp)
    case Some(2) => Some(Udp)
    case Some(3) => Some(Ip)
    case _ => None
  }

  function CourseOf(f: Fields): Option<Course> {
    match NumberAt(f, Direction)
    case Some(3) => Some(OnData)
    case Some(4) => Some(OnConnect)
    case Some(8) => Some(OnClose)
    case Some(15) => Some(OnAll)
    case _ => None
  }

  function ModeOf(f: Fields): Option<DoMode> {
    match NumberAt(f, Mode)
    case Some(0) => Some(Normal)
    case Some(1) => Some(Once)
    case Some(2) => Some(OncePerCall)
    case Some(3) => Some(OncePerSocket)
    case _ => None
  }

  function ConditionOf(f: Fields): Option<Condition> {
    match NumberAt(f, ConditionType)
    case None => None
    case Some(code) =>
      var a, b, c := NumberAt(f, CD0), NumberAt(f, CD1), NumberAt(f, CD2);
      if code == 0 && a.Some? then Some(After(a.value))
      else if code == 1 then Some(Always)
      else if code == 2 && a.Some? then Some(Before(a.value))
      else if code == 3 && a.Some? && b.Some? then Some(Between(a.value, b.value))
      else if code == 4 && a.Some? && b.Some? && c.Some? then Some(Cycle(a.value != 0, b.value, c.value))
      else if code == 5 then Some(Matched)
      else if code == 6 then Some(Never)
      else if code == 7 && a.Some? then Some(Prob(a.value))
      else if code == 8 then Some(Unmatched)
      else None
  }

  function NumberTask(code: int, n: int): Option<Task> {
    match code
    case 0 => Some(Alter(n))
    case 5 => Some(Emit(n))
    case 6 => Some(Error(n))
    case 7 => Some(Hang(n))
    case 8 => Some(LocalHang(n))
    case 12 => Some(RemoteHang(n))
    case 13 => Some(Remove(n))
    case 16 => Some(Split(n))
    case 18 => Some(Truncate(n))
    case _ => None
  }

  function PlainTask(code: int): Option<Task> {
    match code
    case 1 => Some(CancelSyscall)
    case 2 => Some(Drop)
    case 11 => Some(Nop)
    case 15 => Some(Reset)
    case 17 => Some(Syscall)
    case _ => None
  }

  function TaskOf(f: Fields): Option<Task> {
    match NumberAt(f, TaskType)
    case None => None
    case Some(code) =>
      if PlainTask(code).Some? then PlainTask(code)
      else if code == 3 && WordAt(f, TD1).Some? then Some(Dump(WordAt(f, TD1).value))
      else if code == 4 && WordAt(f, TD0).Some? then Some(Echo(WordAt(f, TD0).value))
      else if code == 9 then Some(Log(WordAt(f, TD1)))
      else if code == 14 && WordAt(f, TD1).Some? then Some(Replay(WordAt(f, TD1).value))
      else if code == 10 then
        if NumberAt(f, TD0).Some? && NumberAt(f, TD1).Some? then Some(MarkDone(NumberAt(f, TD0).value == 1, NumberAt(f, TD1).value)) else None
      else if NumberAt(f, TD0).Some? then NumberTask(code, NumberAt(f, TD0).value)
      else None
  }

  function JumpOf(f: Fields): Option<Jump> {
    match (NumberAt(f, NextType), NumberAt(f, NextLine))
    case (Some(0), _) => Some(Continue)
    case (Some(1), Some(line)) => Some(Goto(line))
    case (Some(2), _) => Some(NextRule)
    case (Some(3), Some(line)) => Some(Exec(line))
    case (Some(4), _) => Some(Stop)
    case _ => None
  }

  /** The rule in the fields, unless a field that belongs to it was never written. */
  function RuleOf(f: Fields): Option<Rule> {
    var pos, proto, course, source, target := NumberAt(f, Pos), ProtocolOf(f), CourseOf(f), HostOf(f, Source), HostOf(f, Target);
    var condition, mode, task, jump := ConditionOf(f), ModeOf(f), TaskOf(f), JumpOf(f);
    if pos.Some? && proto.Some? && course.Some? && source.Some? && target.Some? && condition.Some? && mode.Some? && task.Some? && jump.Some?
    then Some(Rule(pos.value, proto.value, course.value, source.value, target.value, condition.value, mode.value, task.value, jump.value))
    else None
  }

  // ----- the printer -----

  function Quad(addr: int): string
    requires 0 <= addr < 0x1_0000_0000
  {
    Decimal(addr / 0x100_0000 % 256) + "." + Decimal(addr / 0x1_0000 % 256) + "." + Decimal(addr / 0x100 % 256) + "." + Decimal(addr % 256)
  }

  /** The name that is printed for a host; a host that is not set is never printed. */
  function ShowName(h: HostRule): string {
    match h.kind
    case Me => "me"
    case Any => "any"
    case Dns => "dns"
    case At => if 0 <= h.addr < 0x1_0000_0000 then Quad(h.addr) else ""
    case Nobody => "?none?"
  }

  function ShowPort(h: HostRule): string {
    if h.port != -1 && h.kind != Dns then " port " + Decimal(h.port) else ""
  }

  /** `Action_show_address`. */
  function ShowHost(keyword: string, h: HostRule): string {
    keyword + (" " + (ShowName(h) + (ShowPort(h) + " ")))
  }

  function ShowWho(r: Rule): string {
    match r.course
    case OnAll => ShowHost("with", r.source)
    case OnConnect => "connect " + ShowHost("to", r.target)
    case OnClose => "close " + ShowHost("to", r.target)
    case OnData => if r.target.kind == Nobody then ShowHost("talk-with", r.source) else ShowHost("from", r.source) + ShowHost("to", r.target)
  }

  function ShowProto(p: Protocol): string {
    match p
    case Tcp => "tcp"
    case Udp => "udp"
    case Ip => "ip"
  }

  function Phrase(name: string, argument: string): string {
    name + (" " + argument)
  }

  function ShowCondition(c: Condition): string {
    match c
    case After(ms) => Phrase("after", Decimal(ms))
    case Always => "always"
    case Before(ms) => Phrase("before", Decimal(ms))
    case Between(a, b) => Phrase("between", Phrase(Decimal(a), Decimal(b)))
    case Cycle(start, a, b) => Phrase("cycle", Phrase(if start then "true" else "false", Phrase(Decimal(a), Decimal(b))))
    case Matched => "matched"
    case Never => "never"
    case Prob(percent) => Phrase("prob", Decimal(percent))
    case Unmatched => "unmatched"
  }

  function ShowMode(m: DoMode): string {
    match m
    case Normal => "do"
    case Once => "do-once"
    case OncePerCall => "do-once-per-call"
    case OncePerSocket => "do-once-per-socket"
  }

  /** What is printed for a task. The printers of `emit` and `error` search their table for the
      value but look at its first entry only: they never end for any other value. */
  function ShowTask(t: Task): Option<string> {
    match t
    case Alter(n) => Some(Phrase("alter", Decimal(n)))
    case CancelSyscall => Some("cancel-syscall")
    case Drop => Some("drop")
    case Dump(file) => Some(Phrase("dump", file))
    case Echo(word) => Some(Phrase("echo", word))
    case Emit(n) => if n == 1 then Some(Phrase("emit", "SIGHUP")) else None
    case Error(n) => if n == 11 then Some(Phrase("error", "EAGAIN")) else None
    case Hang(n) => Some(Phrase("hang", Decimal(n)))
    case LocalHang(n) => Some(Phrase("local-hang", Decimal(n)))
    case Log(file) => Some(Phrase("log", if file.Some? then file.value else "-"))
    case MarkDone(call, n) => Some(Phrase("mark-done", Phrase(if call then "call" else "socket", Decimal(n))))
    case Nop => Some("nop")
    case RemoteHang(n) => Some(Phrase("remote-hang", Decimal(n)))
    case Remove(n) => Some(Phrase("remove", Decimal(n)))
    case Replay(file) => Some(Phrase("replay", file))
    case Reset => Some("reset")
    case Split(n) => Some(Phrase("split", Decimal(n)))
    case Syscall => Some("syscall")
    case Truncate(n) => Some(Phrase("trucate", Decimal(n)))
  }

  function ShowJump(j: Jump): string {
    match j
    case Continue => "continue"
    case Goto(line) => Phrase("goto", Decimal(line))
    case NextRule => "next"
    case Exec(line) => Phrase("exec", Decimal(line))
    case Stop => "stop"
  }

  /** How a line ends: as it is printed, or without the newline, as the readers of lines hand it on. */
  type LineEnd = s: string | s == "" || s == "\n"

  /** The text after the hosts, for a printed task. */
  function ShowTail(r: Rule, task: string, end: LineEnd): string {
    "when " + (ShowCondition(r.condition) + (" " + (ShowMode(r.mode) + (" " + (task + (" " + (ShowJump(r.jump) + end)))))))
  }

  /** What `Action_show` writes, with the given end of the line; nothing if it does not end. */
  function Show(r: Rule, end: LineEnd): Option<string> {
    match ShowTask(r.task)
    case None => None
    case Some(task) => Some(Decimal(r.pos) + (" on " + (ShowProto(r.proto) + (" " + (ShowWho(r) + ShowTail(r, task, end))))))
  }

  // ----- the rules that instructions give -----

  predicate Int32(n: int) {
    -0x8000_0000 <= n < 0x8000_0000
  }

  /** A word that `Parse_word` reads after white space. */
  predicate IsWord(w: string) {
    w != "" && !IsSpace(w[0]) && forall c :: c in w ==> c !in WORD_ENDS
  }

  predicate GoodHost(h: HostRule) {
    h.kind != Nobody && 0 <= h.addr < 0x1_0000_0000 && (h.kind != At ==> h.addr == 0) && Int32(h.port)
  }

  predicate NoHost(h: HostRule) {
    h == HostRule(Nobody, 0, -1)
  }

  predicate GoodHosts(r: Rule) {
    match r.course
    case OnAll => GoodHost(r.source) && NoHost(r.target)
    case OnConnect => NoHost(r.source) && GoodHost(r.target)
    case OnClose => NoHost(r.source) && GoodHost(r.target)
    case OnData => GoodHost(r.source) && (NoHost(r.target) || GoodHost(r.target))
  }

  predicate GoodCondition(c: Condition) {
    match c
    case After(ms) => Int32(ms)
    case Before(ms) => Int32(ms)
    case Between(a, b) => Int32(a) && Int32(b)
    case Cycle(_, a, b) => Int32(a) && Int32(b)
    case Prob(percent) => 0 <= percent <= 100
    case _ => true
  }

  predicate GoodTask(t: Task) {
    match t
    case Dump(file) => IsWord(file)
    case Echo(word) => IsWord(word)
    case Log(file) => file.Some? ==> IsWord(file.value) && file.value != "-"
    case Replay(file) => IsWord(file)
    case Emit(n) => exists c :: c in SIGNALS && c.value == n
    case Error(n) => exists c :: c in ERRORS && c.value == n
    case Split(n) => 0 <= n <= 100
    case Alter(n) => Int32(n)
    case Hang(n) => Int32(n)
    case LocalHang(n) => Int32(n)
    case MarkDone(_, n) => Int32(n)
    case RemoteHang(n) => Int32(n)
    case Remove(n) => Int32(n)
    case Truncate(n) => Int32(n)
    case _ => true
  }

  predicate GoodJump(j: Jump) {
    match j
    case Goto(line) => Int32(line)
    case Exec(line) => Int32(line)
    case _ => true
  }

  /** The rules that an instruction can give. */
  predicate Good(r: Rule) {
    Int32(r.pos) && GoodHosts(r) && GoodCondition(r.condition) && GoodTask(r.task) && GoodJump(r.jump)
  }

  /** The resolver gives a dotted quad its own address. */
  predicate KeepsQuads(names: Names) {
    forall addr :: 0 <= addr < 0x1_0000_0000 ==> Quad(addr) in names.hosts && names.hosts[Quad(addr)] == addr
  }

  function NormalHost(h: HostRule): HostRule {
    if h.kind == Dns then h.(port := -1) else h
  }

  /** What is left of a rule when it is printed and parsed: the port of `dns` is gone. */
  function Normalized(r: Rule): Rule {
    r.(source := NormalHost(r.source), target := NormalHost(r.target))
  }

  /** The tasks that are printed in a way that is read back. */
  predicate Printable(t: Task) {
    !t.Truncate? && (t.Emit? ==> t.n == 1) && (t.Error? ==> t.n == 11)
  }
}
