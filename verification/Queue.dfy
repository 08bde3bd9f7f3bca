/** The rule interpreter of `src/actions.c`: one step of its loop, whole runs, and
    the calls that surround a run. The rules are fixed during a call. */
module Queue {
  import opened Options
  import opened Alter
  import opened Light
  import opened Call

  /** The modes of a rule. `do-once`, which removes the rule while the thread still
      counts as its user, is not part of this model. */
  datatype Mode = Normal | OncePerCall | OncePerSocket

  datatype Next = Continue | Goto(line: nat) | FollowNext | Exec(line: nat) | Stop

  datatype Rule = Rule(mode: Mode, task: Task, next: Next)

  /** The table of rules; the line of a rule is its index. */
  type Rules = seq<Option<Rule>>

  predicate IsRule(rules: Rules, i: int) {
    0 <= i < |rules| && rules[i].Some?
  }

  /** The first rule from `pos` on. */
  function GetFrom(rules: Rules, pos: nat): (r: Option<nat>)
    ensures r.Some? ==> pos <= r.value && IsRule(rules, r.value)
    decreases |rules| - pos
  {
    if pos >= |rules| then None
    else if rules[pos].Some? then Some(pos)
    else GetFrom(rules, pos + 1)
  }

  /** The first rule from `pos` on that matches at search number `k`. */
  function GetMatch(env: Env, rules: Rules, k: nat, pos: nat): (r: Option<nat>)
    ensures r.Some? ==> pos <= r.value && IsRule(rules, r.value) && MatchesAt(env, k, r.value)
    decreases |rules| - pos
  {
    if pos >= |rules| then None
    else if rules[pos].Some? && MatchesAt(env, k, pos) then Some(pos)
    else GetMatch(env, rules, k, pos + 1)
  }

  /** A line holds a rule that matches at search number `k`. */
  predicate MatchesLine(env: Env, rules: Rules, k: nat, line: nat) {
    IsRule(rules, line) && MatchesAt(env, k, line)
  }

  /** `r` is the first line from `pos` on that holds a matching rule, or nothing if there is none. */
  ghost predicate FirstMatching(env: Env, rules: Rules, k: nat, pos: nat, r: Option<nat>) {
    match r
    case Some(i) => pos <= i && MatchesLine(env, rules, k, i) && forall j: nat :: pos <= j < i ==> !MatchesLine(env, rules, k, j)
    case None => forall j: nat :: pos <= j ==> !MatchesLine(env, rules, k, j)
  }

  /** `r` is the first line from `pos` on that holds a rule at all. */
  ghost predicate FirstRule(rules: Rules, pos: nat, r: Option<nat>) {
    match r
    case Some(i) => pos <= i && IsRule(rules, i) && forall j: nat :: pos <= j < i ==> !IsRule(rules, j)
    case None => forall j: nat :: pos <= j ==> !IsRule(rules, j)
  }

  lemma {:induction false} FindsFirstMatch(env: Env, rules: Rules, k: nat, pos: nat)
    ensures FirstMatching(env, rules, k, pos, GetMatch(env, rules, k, pos))
    decreases |rules| - pos
  {
    if pos < |rules| && !MatchesLine(env, rules, k, pos) {
      FindsFirstMatch(env, rules, k, pos + 1);
    }
  }

  /** The search answers a line if and only if it is the first that holds a matching rule. */
  lemma FirstMatchIff(env: Env, rules: Rules, k: nat, pos: nat, r: Option<nat>)
    ensures GetMatch(env, rules, k, pos) == r <==> FirstMatching(env, rules, k, pos, r)
  {
    FindsFirstMatch(env, rules, k, pos);
    hide GetMatch, MatchesLine;
    match (r, GetMatch(env, rules, k, pos))
    case (Some(i), Some(j)) => assert i < j || j < i || i == j;
    case _ =>
  }

  lemma {:induction false} FindsFirstRule(rules: Rules, pos: nat)
    ensures FirstRule(rules, pos, GetFrom(rules, pos))
    decreases |rules| - pos
  {
    if pos < |rules| && !IsRule(rules, pos) {
      FindsFirstRule(rules, pos + 1);
    }
  }

  /** Without matching, it answers a line if and only if it is the first that holds a rule. */
  lemma FirstRuleIff(rules: Rules, pos: nat, r: Option<nat>)
    ensures GetFrom(rules, pos) == r <==> FirstRule(rules, pos, r)
  {
    FindsFirstRule(rules, pos);
    hide GetFrom, IsRule;
    match (r, GetFrom(rules, pos))
    case (Some(i), Some(j)) => assert i < j || j < i || i == j;
    case _ =>
  }

  /** The state of the loop: the machine, the current rule, and the lines of the
      rules completed so far in this call, which the source does not record. */
  datatype State = State(m: Machine, at: Option<nat>, completed: seq<nat>)

  predicate Ready(rules: Rules, st: State) {
    HasTables(st.m) && (st.at.Some? ==> IsRule(rules, st.at.value))
  }

  predicate Skipped(rule: Rule, pos: nat, m: Machine)
    requires HasTables(m)
  {
    || (rule.mode.OncePerCall? && Contains(m.call.lines, pos))
    || (rule.mode.OncePerSocket? && Contains(m.sock.lines, pos))
  }

  /** One rule: a pending hang that has expired completes the rule that armed it. */
  function ActionProcess(env: Env, m: Machine, pos: nat, task: Task): (Machine, bool)
    requires HasTables(m)
  {
    if m.call.direction.Reading? && m.sock.hanging then
      var m := m.(sock := m.sock.(hanging := false));
      if task.Hang? then (m, true) else Perform(env, m, pos, task)
    else
      Perform(env, m, pos, task)
  }

  function Searched(m: Machine): Machine {
    m.(world := m.world.(searches := m.world.searches + 1))
  }

  function MarkCompleted(m: Machine, pos: nat): Machine
    requires HasTables(m)
  {
    m.(call := m.call.(lines := Marked(m.call.lines, pos)), sock := m.sock.(lines := Marked(m.sock.lines, pos)))
  }

  function Follow(env: Env, rules: Rules, m: Machine, pos: nat, next: Next): (Machine, Option<nat>) {
    match next
    case Continue => (Searched(m), GetMatch(env, rules, m.world.searches, pos + 1))
    case Goto(line) => (Searched(m), GetMatch(env, rules, m.world.searches, line))
    case FollowNext => (m, GetFrom(rules, pos + 1))
    case Exec(line) => (m, GetFrom(rules, line))
    case Stop => (m, None)
  }

  /** One round of the loop. */
  function Step(env: Env, rules: Rules, st: State): (r: State)
    requires Ready(rules, st) && st.at.Some?
    ensures Ready(rules, r)
  {
    var pos := st.at.value;
    var rule := rules[pos].value;
    if Skipped(rule, pos, st.m) then
      st.(m := Searched(st.m), at := GetMatch(env, rules, st.m.world.searches, pos + 1))
    else
      var (m, ok) := ActionProcess(env, st.m, pos, rule.task);
      PerformKeepsTables(env, st.m, pos, rule.task);
      if !ok || m.sock.hanging then
        State(m, None, st.completed)
      else
        var (m', next) := Follow(env, rules, MarkCompleted(m, pos), pos, rule.next);
        State(m', next, st.completed + [pos])
  }

  lemma PutKeepsCapacity(t: Table<()>, line: int)
    requires 0 < |t.slots|
    ensures |Marked(t, line).slots| == |t.slots|
  {
  }

  /** What no task changes but `mark-done`, `hang` and `local-hang`. */
  predicate SameLines(m: Machine, m': Machine) {
    && m'.call.lines == m.call.lines && m'.sock.lines == m.sock.lines
    && m'.call.direction == m.call.direction && m'.call.blocking == m.call.blocking
  }

  lemma SyscallFrame(env: Env, m: Machine)
    ensures SameLines(m, Syscall(env, m).0) && Syscall(env, m).0.sock == m.sock
  {
  }

  lemma SplitFrame(env: Env, m: Machine, percent: Percent)
    ensures SameLines(m, PerformSplit(env, m, percent).0) && PerformSplit(env, m, percent).0.sock == m.sock
  {
    hide Invoke, Share;
  }

  lemma AlterFrame(env: Env, m: Machine, p: Proportion)
    ensures SameLines(m, PerformAlter(env, m, p).0) && PerformAlter(env, m, p).0.sock == m.sock
  {
    hide Invoke, Altered, NextDraw, Fetch;
  }

  lemma HangFrame(env: Env, m: Machine, pos: nat, ms: int)
    ensures SameLines(m, PerformHang(env, m, pos, ms).0)
    ensures SameLines(m, PerformLocalHang(env, m, pos, ms).0)
  {
    hide Invoke;
  }

  /** What a task may do to the two sets of lines. */
  lemma TaskLines(env: Env, m: Machine, pos: nat, task: Task)
    requires HasTables(m)
    ensures var r := ActionProcess(env, m, pos, task).0;
            && r.call.lines == (if task.MarkDone? && !task.perSocket then Marked(m.call.lines, task.line) else m.call.lines)
            && r.sock.lines == (if task.MarkDone? && task.perSocket then Marked(m.sock.lines, task.line) else m.sock.lines)
            && r.call.direction == m.call.direction
  {
    hide Syscall, PerformSplit, PerformAlter, PerformHang, PerformLocalHang, Marked, PerformTruncate;
    var m0 := if m.call.direction.Reading? then m.(sock := m.sock.(hanging := false)) else m;
    match task
    case DoSyscall => SyscallFrame(env, m0); SyscallFrame(env, m);
    case Split(percent) => SplitFrame(env, m0, percent); SplitFrame(env, m, percent);
    case DoAlter(p) => AlterFrame(env, m0, p); AlterFrame(env, m, p);
    case Hang(ms) => HangFrame(env, m0, pos, ms); HangFrame(env, m, pos, ms);
    case LocalHang(ms) => HangFrame(env, m0, pos, ms); HangFrame(env, m, pos, ms);
    case RemoteHang(ms) => HangFrame(env, m0, pos, ms); HangFrame(env, m, pos, ms);
    case Truncate(size) => TruncateFrame(m0, size); TruncateFrame(m, size);
    case _ =>
  }

  lemma TruncateFrame(m: Machine, size: int)
    ensures SameLines(m, PerformTruncate(m, size).0) && PerformTruncate(m, size).0.sock == m.sock
  {
  }

  lemma PerformKeepsTables(env: Env, m: Machine, pos: nat, task: Task)
    requires HasTables(m)
    ensures HasTables(ActionProcess(env, m, pos, task).0)
    ensures |ActionProcess(env, m, pos, task).0.call.lines.slots| == |m.call.lines.slots|
    ensures |ActionProcess(env, m, pos, task).0.sock.lines.slots| == |m.sock.lines.slots|
  {
    hide ActionProcess, Marked;
    TaskLines(env, m, pos, task);
    if task.MarkDone? {
      PutKeepsCapacity(m.call.lines, task.line);
      PutKeepsCapacity(m.sock.lines, task.line);
    }
  }

  /** A task fails exactly if there is nothing that it can act on: a call that was made or settled before,
      or that carries no data; and `error EAGAIN` on a blocking socket. Then it leaves everything as it is. */
  lemma TaskFailsIff(env: Env, m: Machine, pos: nat, task: Task)
    requires HasTables(m)
    ensures var (r, ok) := Perform(env, m, pos, task);
            var c := m.call;
            && (!ok ==> r == m)
            && (!ok <==> match task
                         case DoSyscall => c.aborted
                         case Split(_) => c.done || c.aborted || !CarriesData(c.direction)
                         case Truncate(_) => c.done || c.aborted || !CarriesData(c.direction)
                         case DoAlter(_) => !CarriesData(c.direction) || (c.direction.Writing? && c.done)
                         case Error(errno) => c.done || (c.blocking && errno == EAGAIN)
                         case Drop => c.done
                         case CancelSyscall => c.done
                         case Emit(_) => c.done
                         case _ => false)
  {
    hide Invoke, SplitWrite, AlterBuffer, FirstPart, Marked;
  }

  /** The loop for at most `n` rounds. */
  function Run(env: Env, rules: Rules, st: State, n: nat): (r: State)
    requires Ready(rules, st)
    ensures Ready(rules, r)
    decreases n
  {
    if n == 0 || st.at.None? then st else Run(env, rules, Step(env, rules, st), n - 1)
  }

  lemma {:induction false} RunStep(env: Env, rules: Rules, st: State, n: nat)
    requires Ready(rules, st) && Run(env, rules, st, n).at.Some?
    ensures Run(env, rules, st, n + 1) == Step(env, rules, Run(env, rules, st, n))
    decreases n
  {
    if n > 0 {
      RunStep(env, rules, Step(env, rules, st), n - 1);
    }
  }

  // ----- where a round goes -----

  /** Where the loop goes after a completed rule: on to the next matching rule, to the first
      matching one from a line on, to the next rule or the rule of a line whether it matches or
      not, or to its end. Only the first two search, and a search is counted. */
  ghost predicate GoesTo(env: Env, rules: Rules, k: nat, pos: nat, next: Next, r: Option<nat>, searches: nat) {
    match next
    case Continue => FirstMatching(env, rules, k, pos + 1, r) && searches == k + 1
    case Goto(line) => FirstMatching(env, rules, k, line, r) && searches == k + 1
    case FollowNext => FirstRule(rules, pos + 1, r) && searches == k
    case Exec(line) => FirstRule(rules, line, r) && searches == k
    case Stop => r == None && searches == k
  }

  lemma FollowGoesTo(env: Env, rules: Rules, m: Machine, pos: nat, next: Next)
    ensures var (m', r) := Follow(env, rules, m, pos, next);
            && GoesTo(env, rules, m.world.searches, pos, next, r, m'.world.searches)
            && m' == m.(world := m.world.(searches := m'.world.searches))
  {
    hide GetMatch, GetFrom, FirstMatching, FirstRule;
    var k := m.world.searches;
    match next
    case Continue => FindsFirstMatch(env, rules, k, pos + 1);
    case Goto(line) => FindsFirstMatch(env, rules, k, line);
    case FollowNext => FindsFirstRule(rules, pos + 1);
    case Exec(line) => FindsFirstRule(rules, line);
    case Stop =>
  }

  /** A round that skips its rule goes on to the next matching one. A round whose task fails, or
      leaves a hang pending, ends the loop and completes nothing. Any other completes its rule,
      in order, and goes where the rule says. */
  lemma RoundGoesTo(env: Env, rules: Rules, st: State)
    requires Ready(rules, st) && st.at.Some?
    ensures var pos := st.at.value;
            var rule := rules[pos].value;
            var st' := Step(env, rules, st);
            var (m, ok) := ActionProcess(env, st.m, pos, rule.task);
            if Skipped(rule, pos, st.m) then
              && FirstMatching(env, rules, st.m.world.searches, pos + 1, st'.at) && st'.completed == st.completed
              && st'.m == st.m.(world := st.m.world.(searches := st.m.world.searches + 1))
            else if !ok || m.sock.hanging then
              st'.at == None && st'.completed == st.completed && st'.m == m
            else
              && st'.completed == st.completed + [pos]
              && GoesTo(env, rules, m.world.searches, pos, rule.next, st'.at, st'.m.world.searches)
              && st'.m.world == m.world.(searches := st'.m.world.searches)
              && st'.m.call == m.call.(lines := st'.m.call.lines) && st'.m.sock == m.sock.(lines := st'.m.sock.lines)
  {
    var pos := st.at.value;
    var rule := rules[pos].value;
    var m := ActionProcess(env, st.m, pos, rule.task).0;
    PerformKeepsTables(env, st.m, pos, rule.task);
    hide ActionProcess, Marked, Contains, GetMatch, GetFrom, FirstMatching, GoesTo, Follow;
    FindsFirstMatch(env, rules, st.m.world.searches, pos + 1);
    FollowGoesTo(env, rules, MarkCompleted(m, pos), pos, rule.next);
  }

  // ----- a whole call -----

  /** What the caller of an intercepted function passes. */
  datatype Input = Input(direction: Direction, blocking: bool, bytes: seq<Byte>, len: nat, errno: int)

  function NewSocket(capacity: nat): SocketData {
    SocketData(Empty(capacity), false, 0, 0)
  }

  function NewCall(input: Input, capacity: nat): CallData {
    CallData(input.direction, input.blocking, input.bytes, input.len,
             if input.direction.Reading? then At(Own, 0) else Null,
             if input.direction.Writing? then 0 else input.len,
             [], false, false, Empty(capacity), input.errno, 0)
  }

  /** How a call starts: straight to the system call, put off by a pending hang, or into the loop. */
  datatype Entry = Bypassed(m: Machine) | Deferred(m: Machine) | Entered(st: State)

  function Begin(env: Env, rules: Rules, w: World, sock: SocketData, input: Input): (r: Entry)
    requires 0 < |sock.lines.slots| && 0 < |rules|
    ensures r.Entered? ==> Ready(rules, r.st)
  {
    BeginWith(env, rules, Machine(w, NewCall(input, |rules|), sock))
  }

  function BeginWith(env: Env, rules: Rules, m: Machine): (r: Entry)
    requires HasTables(m)
    ensures r.Entered? ==> Ready(rules, r.st) && r.st.at.Some?
  {
    var sock := m.sock;
    match GetMatch(env, rules, m.world.searches, 0)
    case None => Bypassed(Invoke(env, Searched(m)))
    case Some(first) =>
      var m := Searched(m);
      if !m.call.direction.Reading? || !sock.hanging then
        Entered(State(m, Some(first), []))
      else
        BeginHanging(env, rules, m)
  }

  /** A read while a hang is pending. */
  function BeginHanging(env: Env, rules: Rules, m: Machine): (r: Entry)
    requires HasTables(m)
    ensures r.Entered? ==> Ready(rules, r.st) && r.st.at.Some?
  {
    var sock := m.sock;
    var now := TimeAt(env, m.world.clocks);
    var m := m.(world := m.world.(clocks := m.world.clocks + 1));
    if sock.msec > now then
      Deferred(m.(call := m.call.(result := -1, err := EAGAIN)))
    else if IsRule(rules, sock.pos) then
      Entered(State(m, Some(sock.pos), []))
    else
      // The rule is gone. The arguments of this search are in the wrong order
      // in the source, so that it starts at line 1.
      match GetMatch(env, rules, m.world.searches, 1)
      case Some(pos) => Entered(State(Searched(m), Some(pos), []))
      case None => Bypassed(Invoke(env, Searched(m.(sock := sock.(hanging := false)))))
  }

  /** After the loop the system call is made unless a rule settled it. */
  function Finish(env: Env, m: Machine): Machine {
    if !m.call.done && !m.call.aborted then Syscall(env, m).0 else m
  }

  /** The end of a call whose loop is followed for at most `n` rounds. */
  function ProcessCall(env: Env, rules: Rules, w: World, sock: SocketData, input: Input, n: nat): Machine
    requires 0 < |sock.lines.slots| && 0 < |rules|
  {
    ProcessFrom(env, rules, Machine(w, NewCall(input, |rules|), sock), n)
  }

  function ProcessFrom(env: Env, rules: Rules, m: Machine, n: nat): Machine
    requires HasTables(m)
  {
    match BeginWith(env, rules, m)
    case Bypassed(m) => m
    case Deferred(m) => m
    case Entered(st) => Finish(env, Run(env, rules, st, n).m)
  }
}
