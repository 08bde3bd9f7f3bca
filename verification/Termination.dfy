/** The interpreter loop ends when every rule that jumps back is marked once it has run. */
module Termination {
  import opened Options
  import opened Light
  import opened Call
  import opened Marks
  import opened Queue

  // ----- marks -----

  /** The marks that the once-rules of a call look at, or those of a socket. */
  function TableOf(m: Machine, perSocket: bool): Table<()> {
    if perSocket then m.sock.lines else m.call.lines
  }

  predicate MarksLine(rules: Rules, i: int, perSocket: bool) {
    IsRule(rules, i) && rules[i].value.task.MarkDone?
    && rules[i].value.task.perSocket == perSocket && rules[i].value.task.line != FREE
  }

  /** All lines that may be marked there: those of the rules, which are marked when they are
      completed, and those that `mark-done` names, of rules or not. The line -1 takes no slot. */
  function MarkedLines(rules: Rules, perSocket: bool): set<int> {
    (set i | 0 <= i < |rules| && rules[i].Some?)
    + (set i | 0 <= i < |rules| && MarksLine(rules, i, perSocket) :: rules[i].value.task.line)
  }

  ghost predicate Roomy(rules: Rules, m: Machine, perSocket: bool) {
    HasTables(m) && HasRoom(TableOf(m, perSocket), MarkedLines(rules, perSocket))
  }

  /** A round of the loop loses no mark. */
  ghost predicate MarksGrow(rules: Rules, m: Machine, m': Machine, perSocket: bool) {
    Roomy(rules, m, perSocket) && Roomy(rules, m', perSocket) && Grows(TableOf(m, perSocket), TableOf(m', perSocket))
  }

  /** A round of the loop takes no mark away, room or not. It completes only a rule that it does
      not skip, and marks it, unless the table is full. */
  lemma StepKeepsMarks(env: Env, rules: Rules, st: State, perSocket: bool)
    requires Ready(rules, st) && st.at.Some? && IsMap(TableOf(st.m, perSocket))
    ensures IsMap(TableOf(Step(env, rules, st).m, perSocket))
    ensures Grows(TableOf(st.m, perSocket), TableOf(Step(env, rules, st).m, perSocket))
    ensures Step(env, rules, st).completed == st.completed
         || (&& Step(env, rules, st).completed == st.completed + [st.at.value]
             && !Skipped(rules[st.at.value].value, st.at.value, st.m)
             && var t := TableOf(Step(env, rules, st).m, perSocket);
                Contains(t, st.at.value) || IsFull(t))
  {
    hide IsFull, GetMatch, GetFrom, ActionProcess, Contains, Marked, IsMap;
    var pos := st.at.value;
    var task := rules[pos].value.task;
    TaskLines(env, st.m, pos, task);
    PerformKeepsTables(env, st.m, pos, task);
    var m := ActionProcess(env, st.m, pos, task).0;
    if task.MarkDone? && task.perSocket == perSocket {
      MarkAddsOnly(TableOf(st.m, perSocket), task.line);
    }
    MarkAddsOnly(TableOf(m, perSocket), pos);
    LostMeansFull(TableOf(m, perSocket), pos);
  }

  /** A round marks no line but that of the rule it completes and the one that `mark-done` names. */
  lemma RoundMarksOnly(env: Env, rules: Rules, st: State, perSocket: bool, line: int)
    requires Ready(rules, st) && st.at.Some? && IsMap(TableOf(st.m, perSocket))
    requires line != FREE && !Contains(TableOf(st.m, perSocket), line) && Contains(TableOf(Step(env, rules, st).m, perSocket), line)
    ensures !Skipped(rules[st.at.value].value, st.at.value, st.m)
    ensures (line == st.at.value && Step(env, rules, st).completed == st.completed + [line])
         || rules[st.at.value].value.task == MarkDone(perSocket, line)
  {
    hide GetMatch, GetFrom, ActionProcess, Contains, Marked, IsMap;
    var pos := st.at.value;
    var task := rules[pos].value.task;
    TaskLines(env, st.m, pos, task);
    PerformKeepsTables(env, st.m, pos, task);
    var m := ActionProcess(env, st.m, pos, task).0;
    if task.MarkDone? && task.perSocket == perSocket {
      MarkAddsOnly(TableOf(st.m, perSocket), task.line);
    }
    MarkAddsOnly(TableOf(m, perSocket), pos);
  }

  /** A task marks only what its rule may mark. */
  lemma TaskMarks(env: Env, rules: Rules, m: Machine, pos: nat, perSocket: bool)
    requires Roomy(rules, m, perSocket) && IsRule(rules, pos)
    ensures MarksGrow(rules, m, ActionProcess(env, m, pos, rules[pos].value.task).0, perSocket)
  {
    hide ActionProcess, Marked, Contains, HasRoom, MarkedLines;
    var task := rules[pos].value.task;
    TaskLines(env, m, pos, task);
    PerformKeepsTables(env, m, pos, task);
    if task.MarkDone? && task.perSocket == perSocket {
      NamedLine(rules, pos);
      MarkSticks(TableOf(m, perSocket), MarkedLines(rules, perSocket), task.line);
    }
  }

  lemma NamedLine(rules: Rules, pos: nat)
    requires IsRule(rules, pos) && rules[pos].value.task.MarkDone?
    ensures var task := rules[pos].value.task; task.line == FREE || task.line in MarkedLines(rules, task.perSocket)
  {
    var task := rules[pos].value.task;
    assert task.line == FREE || MarksLine(rules, pos, task.perSocket);
  }

  lemma RuleLine(rules: Rules, pos: nat, perSocket: bool)
    requires IsRule(rules, pos)
    ensures pos in MarkedLines(rules, perSocket)
  {
  }

  /** So does the completion of a rule. */
  lemma CompletionMarks(rules: Rules, m: Machine, pos: nat, perSocket: bool)
    requires Roomy(rules, m, perSocket) && IsRule(rules, pos)
    ensures MarksGrow(rules, m, MarkCompleted(m, pos), perSocket)
    ensures Contains(TableOf(MarkCompleted(m, pos), perSocket), pos)
  {
    hide Marked, Contains, HasRoom, MarkedLines;
    RuleLine(rules, pos, perSocket);
    PutKeepsCapacity(m.call.lines, pos);
    PutKeepsCapacity(m.sock.lines, pos);
    MarkSticks(TableOf(m, perSocket), MarkedLines(rules, perSocket), pos);
  }

  lemma StepMarks(env: Env, rules: Rules, st: State, perSocket: bool)
    requires Ready(rules, st) && st.at.Some? && Roomy(rules, st.m, perSocket)
    ensures MarksGrow(rules, st.m, Step(env, rules, st).m, perSocket)
    ensures Step(env, rules, st).completed == st.completed
         || (&& Step(env, rules, st).completed == st.completed + [st.at.value]
             && !Skipped(rules[st.at.value].value, st.at.value, st.m)
             && Contains(TableOf(Step(env, rules, st).m, perSocket), st.at.value))
  {
    hide ActionProcess, Marked, Contains, GetMatch, GetFrom, HasRoom, MarkedLines;
    var pos := st.at.value;
    var rule := rules[pos].value;
    if !Skipped(rule, pos, st.m) {
      TaskMarks(env, rules, st.m, pos, perSocket);
      CompletionMarks(rules, ActionProcess(env, st.m, pos, rule.task).0, pos, perSocket);
      hide MarkCompleted;
    }
  }

  // ----- the bound -----

  predicate JumpsBack(rules: Rules, i: int) {
    && IsRule(rules, i)
    && var next := rules[i].value.next;
       (next.Goto? || next.Exec?) && next.line <= i
  }

  /** Every rule that jumps to a line at or before itself is a once-rule, and there is room
      for the marks of its kind. */
  ghost predicate RestrainedNow(rules: Rules, m: Machine) {
    forall i :: JumpsBack(rules, i) ==>
      !rules[i].value.mode.Normal? && Roomy(rules, m, rules[i].value.mode.OncePerSocket?)
  }

  /** The same of a call that starts, with `lines` marked for the socket and a fresh table of
      the capacity of the rules for the call. */
  ghost predicate Restrained(rules: Rules, lines: Table<()>) {
    forall i :: JumpsBack(rules, i) ==>
      match rules[i].value.mode
      case Normal => false
      case OncePerCall => |MarkedLines(rules, false)| <= |rules|
      case OncePerSocket => HasRoom(lines, MarkedLines(rules, true))
  }

  lemma StartsRestrained(rules: Rules, m: Machine)
    requires 0 < |rules| && HasTables(m) && m.call.lines == Empty(|rules|) && Restrained(rules, m.sock.lines)
    ensures RestrainedNow(rules, m)
  {
    if |MarkedLines(rules, false)| <= |rules| {
      EmptyHasRoom(|rules|, MarkedLines(rules, false));
    }
    hide Empty, HasRoom, MarkedLines;
  }

  lemma JumpsFromRule(rules: Rules, i: int)
    requires JumpsBack(rules, i)
    ensures IsRule(rules, i) && 0 <= i
  {
  }

  function BackwardRules(rules: Rules): set<int> {
    set i | 0 <= i < |rules| && JumpsBack(rules, i)
  }

  /** The backward rules that may still run. */
  function Pending(rules: Rules, m: Machine): set<int>
    requires HasTables(m)
  {
    set i | 0 <= i < |rules| && JumpsBack(rules, i) && !Skipped(rules[i].value, i, m)
  }

  /** The lexicographic measure (pending backward rules, lines ahead) as one number. */
  function Measure(rules: Rules, st: State): nat
    requires Ready(rules, st)
  {
    if st.at.None? then 0 else |Pending(rules, st.m)| * |rules| + |rules| - st.at.value
  }

  lemma FewerPending(a: nat, b: nat, capacity: nat)
    ensures a <= b ==> a * capacity <= b * capacity
    ensures a < b ==> a * capacity + capacity <= b * capacity
  {
    if a < b {
      assert a * capacity + capacity == (a + 1) * capacity <= b * capacity;
    }
  }

  lemma FollowAdvances(env: Env, rules: Rules, m: Machine, pos: nat, next: Next)
    ensures var r := Follow(env, rules, m, pos, next).1;
            r.Some? ==> r.value < |rules| && (r.value <= pos ==> (next.Goto? || next.Exec?) && next.line <= pos)
  {
  }

  /** Every rule that jumps back is a once-rule; its marks are in a table that the program made. */
  ghost predicate BackwardOnce(rules: Rules, m: Machine) {
    forall i :: JumpsBack(rules, i) ==> !rules[i].value.mode.Normal? && IsMap(TableOf(m, rules[i].value.mode.OncePerSocket?))
  }

  /** This round completes a rule that jumps back, and its mark is lost. */
  predicate LosesMark(env: Env, rules: Rules, st: State)
    requires Ready(rules, st)
  {
    && st.at.Some? && JumpsBack(rules, st.at.value)
    && Step(env, rules, st).completed == st.completed + [st.at.value]
    && !Contains(TableOf(Step(env, rules, st).m, rules[st.at.value].value.mode.OncePerSocket?), st.at.value)
  }

  lemma StepKeepsBackwardOnce(env: Env, rules: Rules, st: State)
    requires Ready(rules, st) && st.at.Some? && BackwardOnce(rules, st.m)
    ensures BackwardOnce(rules, Step(env, rules, st).m)
    ensures Pending(rules, Step(env, rules, st).m) <= Pending(rules, st.m)
  {
    hide Step, IsMap, Contains, JumpsBack;
    forall i | JumpsBack(rules, i)
      ensures IsRule(rules, i) && IsMap(TableOf(Step(env, rules, st).m, rules[i].value.mode.OncePerSocket?))
      ensures IsRule(rules, i) && (Skipped(rules[i].value, i, st.m) ==> Skipped(rules[i].value, i, Step(env, rules, st).m))
    {
      JumpsFromRule(rules, i);
      StepKeepsMarks(env, rules, st, rules[i].value.mode.OncePerSocket?);
    }
  }

  /** Every round of the loop lowers the measure, unless it loses the mark of a rule that jumps back. */
  lemma StepDescends(env: Env, rules: Rules, st: State)
    requires Ready(rules, st) && st.at.Some? && BackwardOnce(rules, st.m) && !LosesMark(env, rules, st)
    ensures Measure(rules, Step(env, rules, st)) < Measure(rules, st)
  {
    hide ActionProcess, Marked, Contains, GetMatch, GetFrom, IsMap, LosesMark;
    var pos := st.at.value;
    var st' := Step(env, rules, st);
    var before, after := Pending(rules, st.m), Pending(rules, st'.m);
    StepKeepsBackwardOnce(env, rules, st);
    SubsetSize(after, before);
    FewerPending(|after|, |before|, |rules|);
    if st'.at.Some? && st'.at.value <= pos {
      BackwardIsMarked(env, rules, st);
      StrictSubset(after, before);
    }
  }

  /** A round that goes back marks the rule that jumped, which was not marked before. */
  lemma BackwardIsMarked(env: Env, rules: Rules, st: State)
    requires Ready(rules, st) && st.at.Some? && BackwardOnce(rules, st.m) && !LosesMark(env, rules, st)
    requires Step(env, rules, st).at.Some? && Step(env, rules, st).at.value <= st.at.value
    ensures st.at.value in Pending(rules, st.m) && st.at.value !in Pending(rules, Step(env, rules, st).m)
  {
    hide ActionProcess, Marked, Contains, GetMatch, GetFrom, IsMap;
    var pos := st.at.value;
    var rule := rules[pos].value;
    assert !Skipped(rule, pos, st.m);
    PerformKeepsTables(env, st.m, pos, rule.task);
    var m := ActionProcess(env, st.m, pos, rule.task).0;
    FollowAdvances(env, rules, MarkCompleted(m, pos), pos, rule.next);
    assert JumpsBack(rules, pos);
    assert Step(env, rules, st).completed == st.completed + [pos];
  }

  /** If every rule that jumps back is a once-rule, a loop ends in time or loses the mark of such a rule. */
  lemma {:induction false} RunEndsOrLosesMark(env: Env, rules: Rules, st: State, n: nat) returns (k: nat)
    requires Ready(rules, st) && BackwardOnce(rules, st.m) && Measure(rules, st) <= n
    ensures Run(env, rules, st, n).at.None? || (k < n && LosesMark(env, rules, Run(env, rules, st, k)))
    ensures BackwardOnce(rules, Run(env, rules, st, k).m)
    decreases n
  {
    hide Step, BackwardOnce, LosesMark, Measure;
    k := 0;
    if n > 0 && st.at.Some? && !LosesMark(env, rules, st) {
      StepDescends(env, rules, st);
      StepKeepsBackwardOnce(env, rules, st);
      var j := RunEndsOrLosesMark(env, rules, Step(env, rules, st), n - 1);
      k := j + 1;
    } else {
      NothingLeft(rules, st);
    }
  }

  lemma NothingLeft(rules: Rules, st: State)
    requires Ready(rules, st)
    ensures Measure(rules, st) == 0 ==> st.at.None?
  {
    if st.at.Some? {
      assert |Pending(rules, st.m)| * |rules| >= 0;
    }
  }

  // ----- room for the marks -----

  lemma RestrainedLosesNone(env: Env, rules: Rules, st: State)
    requires Ready(rules, st) && RestrainedNow(rules, st.m)
    ensures BackwardOnce(rules, st.m) && !LosesMark(env, rules, st)
  {
    hide Step, HasRoom, IsMap, MarkedLines, Contains, JumpsBack;
    forall i | JumpsBack(rules, i) ensures IsRule(rules, i) && IsMap(TableOf(st.m, rules[i].value.mode.OncePerSocket?)) {
      JumpsFromRule(rules, i);
      var perSocket := rules[i].value.mode.OncePerSocket?;
      RoomIsMap(TableOf(st.m, perSocket), MarkedLines(rules, perSocket));
    }
    if st.at.Some? && JumpsBack(rules, st.at.value) {
      StepMarks(env, rules, st, rules[st.at.value].value.mode.OncePerSocket?);
      assert |st.completed + [st.at.value]| != |st.completed|;
    }
  }

  lemma StepKeepsRestrained(env: Env, rules: Rules, st: State)
    requires Ready(rules, st) && st.at.Some? && RestrainedNow(rules, st.m)
    ensures RestrainedNow(rules, Step(env, rules, st).m)
  {
    hide Step, HasRoom, MarkedLines, Contains, JumpsBack;
    forall i | JumpsBack(rules, i)
      ensures IsRule(rules, i) && Roomy(rules, Step(env, rules, st).m, rules[i].value.mode.OncePerSocket?)
    {
      JumpsFromRule(rules, i);
      StepMarks(env, rules, st, rules[i].value.mode.OncePerSocket?);
    }
  }

  lemma {:induction false} RunKeepsRestrained(env: Env, rules: Rules, st: State, n: nat)
    requires Ready(rules, st) && RestrainedNow(rules, st.m)
    ensures RestrainedNow(rules, Run(env, rules, st, n).m)
    decreases n
  {
    hide Step, RestrainedNow;
    if n > 0 && st.at.Some? {
      StepKeepsRestrained(env, rules, st);
      RunKeepsRestrained(env, rules, Step(env, rules, st), n - 1);
    }
  }

  lemma RunEnds(env: Env, rules: Rules, st: State, n: nat)
    requires Ready(rules, st) && RestrainedNow(rules, st.m) && Measure(rules, st) <= n
    ensures Run(env, rules, st, n).at.None?
  {
    hide Run, RestrainedNow, BackwardOnce, LosesMark, Measure;
    RestrainedLosesNone(env, rules, st);
    var k := RunEndsOrLosesMark(env, rules, st, n);
    RunKeepsRestrained(env, rules, st, k);
    RestrainedLosesNone(env, rules, Run(env, rules, st, k));
  }

  function Bound(rules: Rules): nat {
    (|BackwardRules(rules)| + 1) * |rules|
  }

  lemma MeasureBelowBound(rules: Rules, st: State)
    requires Ready(rules, st)
    ensures Measure(rules, st) <= Bound(rules)
  {
    if st.at.Some? {
      assert Pending(rules, st.m) <= BackwardRules(rules);
      SubsetSize(Pending(rules, st.m), BackwardRules(rules));
      FewerPending(|Pending(rules, st.m)|, |BackwardRules(rules)|, |rules|);
      assert Bound(rules) == |BackwardRules(rules)| * |rules| + |rules|;
    }
  }

  /** Whatever the conditions answer, the loop ends within `(B + 1) * capacity`
      rounds, where `B` counts the rules that jump back. */
  lemma LoopTerminates(env: Env, rules: Rules, w: World, sock: SocketData, input: Input)
    requires 0 < |rules| && 0 < |sock.lines.slots| && Restrained(rules, sock.lines)
    ensures var start := Begin(env, rules, w, sock, input);
            start.Entered? ==> Run(env, rules, start.st, Bound(rules)).at.None?
  {
    var start := Begin(env, rules, w, sock, input);
    if start.Entered? {
      hide Empty, Restrained, RestrainedNow, Run, Bound, Measure, GetMatch;
      StartsRestrained(rules, start.st.m);
      MeasureBelowBound(rules, start.st);
      RunEnds(env, rules, start.st, Bound(rules));
    }
  }

  /** Whether there is room or not: if every rule that jumps back is a once-rule, the loop ends
      within that many rounds, or one of them leaves the table of the marks of such a rule full. */
  lemma LoopEndsOrFillsUp(env: Env, rules: Rules, w: World, sock: SocketData, input: Input) returns (k: nat)
    requires 0 < |rules| && 0 < |sock.lines.slots| && IsMap(sock.lines)
    requires forall i :: JumpsBack(rules, i) ==> !rules[i].value.mode.Normal?
    ensures var start := Begin(env, rules, w, sock, input);
            start.Entered? && Run(env, rules, start.st, Bound(rules)).at.Some? ==>
              && k < Bound(rules)
              && var st := Run(env, rules, start.st, k);
                 && st.at.Some? && JumpsBack(rules, st.at.value)
                 && var t := TableOf(Step(env, rules, st).m, rules[st.at.value].value.mode.OncePerSocket?);
                    IsFull(t) && 0 < |t.slots| && !Contains(t, st.at.value)
  {
    k := 0;
    var start := Begin(env, rules, w, sock, input);
    if start.Entered? {
      hide IsMap, Run, Bound, Measure, GetMatch, Step, Contains, IsFull;
      StartsOnce(rules, start.st.m);
      MeasureBelowBound(rules, start.st);
      k := RunEndsOrLosesMark(env, rules, start.st, Bound(rules));
      var st := Run(env, rules, start.st, k);
      if LosesMark(env, rules, st) {
        StepKeepsMarks(env, rules, st, rules[st.at.value].value.mode.OncePerSocket?);
        assert |st.completed + [st.at.value]| != |st.completed|;
      }
    }
  }

  lemma StartsOnce(rules: Rules, m: Machine)
    requires 0 < |rules| && m.call.lines == Empty(|rules|) && IsMap(m.sock.lines)
    requires forall i :: JumpsBack(rules, i) ==> !rules[i].value.mode.Normal?
    ensures BackwardOnce(rules, m)
  {
    EmptyIsMap(|rules|);
  }

  // ----- loops that never end -----

  /** Without a once-mode: a rule that does nothing and executes itself runs for ever. */
  lemma {:induction false} NormalLoopRunsForever(env: Env, rules: Rules, st: State, n: nat)
    requires Ready(rules, st) && st.at.Some? && !st.m.sock.hanging
    requires var rule := rules[st.at.value].value;
             rule.mode.Normal? && rule.task.Nop? && rule.next.Exec? && GetFrom(rules, rule.next.line) == st.at
    ensures Run(env, rules, st, n).at == st.at
    decreases n
  {
    if n > 0 {
      hide GetFrom, Marked, GetMatch;
      var st' := Step(env, rules, st);
      assert st'.at == st.at && st'.m.sock.hanging == st.m.sock.hanging;
      hide Step;
      NormalLoopRunsForever(env, rules, st', n - 1);
    }
  }

  /** Without room: the only rule is a once-rule, and marks a line that is none. The mark takes the
      only slot of the table, so the rule is never marked itself and is completed in every round. */
  function CrowdedRules(perSocket: bool): Rules {
    [Some(Rule(if perSocket then OncePerSocket else OncePerCall, MarkDone(perSocket, 1), Exec(0)))]
  }

  predicate Crowded(st: State, perSocket: bool) {
    && st.at == Some(0) && !st.m.sock.hanging && HasTables(st.m)
    && (TableOf(st.m, perSocket).slots == [Entry(FREE, None)] || TableOf(st.m, perSocket).slots == [Entry(1, Some(()))])
  }

  lemma CrowdedStep(env: Env, st: State, perSocket: bool)
    requires Crowded(st, perSocket)
    ensures st.at == Some(0) && Ready(CrowdedRules(perSocket), st) && Crowded(Step(env, CrowdedRules(perSocket), st), perSocket)
    ensures Step(env, CrowdedRules(perSocket), st).completed == st.completed + [0]
  {
    OneSlot(TableOf(st.m, perSocket));
    PutKeepsCapacity(st.m.call.lines, 0);
    PutKeepsCapacity(st.m.sock.lines, 0);
    hide Contains, Put, GetMatch;
  }

  lemma OneSlot(t: Table<()>)
    requires t.slots == [Entry(FREE, None)] || t.slots == [Entry(1, Some(()))]
    ensures !Contains(t, 0)
    ensures Marked(t, 1).slots == [Entry(1, Some(()))]
    ensures Marked(Marked(t, 1), 0) == Marked(t, 1)
  {
    assert Scan(t.slots, 0, 1) == None && Scan(t.slots, 1, 1) == None;
    assert Scan([Entry(1, Some(()))], 0, 1) == None;
  }

  lemma {:induction false} CrowdedRunsForever(env: Env, rules: Rules, st: State, n: nat, perSocket: bool)
    requires rules == CrowdedRules(perSocket) && Ready(rules, st) && Crowded(st, perSocket)
    requires forall i :: i in st.completed ==> i == 0
    ensures var r := Run(env, rules, st, n);
            r.at == Some(0) && |r.completed| == |st.completed| + n && forall i :: i in r.completed ==> i == 0
    decreases n
  {
    hide Step, CrowdedRules, Ready, Crowded;
    CrowdedStep(env, st, perSocket);
    if n > 0 {
      CrowdedRunsForever(env, rules, Step(env, rules, st), n - 1, perSocket);
    }
  }

  /** Termination and once-rules both fail then, from the start of a call on a new socket on:
      the call never ends, and completes the rule as often as one likes. */
  lemma ForeignMarksRunForever(env: Env, w: World, input: Input, n: nat, perSocket: bool)
    requires MatchesAt(env, w.searches, 0)
    ensures |MarkedLines(CrowdedRules(perSocket), perSocket)| == 2 > |CrowdedRules(perSocket)|
    ensures var start := Begin(env, CrowdedRules(perSocket), w, NewSocket(1), input);
            && start.Entered?
            && var r := Run(env, CrowdedRules(perSocket), start.st, n);
               r.at == Some(0) && |r.completed| == n && forall i :: i in r.completed ==> i == 0
  {
    assert MarksLine(CrowdedRules(perSocket), 0, perSocket);
    assert MarkedLines(CrowdedRules(perSocket), perSocket) == {0, 1};
    var start := Begin(env, CrowdedRules(perSocket), w, NewSocket(1), input);
    assert Empty<()>(1).slots == [Entry(FREE, None)];
    assert start.Entered? && Crowded(start.st, perSocket);
    CrowdedRunsForever(env, CrowdedRules(perSocket), start.st, n, perSocket);
  }
}
