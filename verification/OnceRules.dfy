/** How often the once-rules complete, over all the calls made on one socket. */
module OnceRules {
  import opened Options
  import opened Light
  import opened Call
  import opened Marks
  import opened Queue
  import opened Termination

  /** Rule `i` is done once per socket, or once per call. */
  predicate IsOnce(rules: Rules, i: int, perSocket: bool) {
    IsRule(rules, i) && rules[i].value.mode == if perSocket then OncePerSocket else OncePerCall
  }

  /** The lines completed in this call are marked, and each once-rule of the kind is among them at most once. */
  ghost predicate OnceSoFar(rules: Rules, st: State, perSocket: bool)
    requires Ready(rules, st)
  {
    && Roomy(rules, st.m, perSocket)
    && (forall i :: i in st.completed ==> i < |rules| && Contains(TableOf(st.m, perSocket), i))
    && (forall i :: IsOnce(rules, i, perSocket) ==> multiset(st.completed)[i] <= 1)
  }

  lemma StepKeepsOnce(env: Env, rules: Rules, st: State, perSocket: bool)
    requires Ready(rules, st) && st.at.Some? && OnceSoFar(rules, st, perSocket)
    ensures OnceSoFar(rules, Step(env, rules, st), perSocket)
  {
    StepMarks(env, rules, st, perSocket);
    hide Step, Contains, HasRoom, MarkedLines;
    var pos := st.at.value;
    var st' := Step(env, rules, st);
    forall i | i in st'.completed ensures i < |rules| && Contains(TableOf(st'.m, perSocket), i) {
      assert i in st.completed || i == pos;
    }
    forall i | IsOnce(rules, i, perSocket) ensures multiset(st'.completed)[i] <= 1 {
      AddsOther(st.completed, pos, i);
    }
  }

  lemma OnceMeansRoom(rules: Rules, st: State, perSocket: bool)
    requires Ready(rules, st) && OnceSoFar(rules, st, perSocket)
    ensures Roomy(rules, st.m, perSocket)
  {
  }

  lemma {:induction false} RunKeepsOnce(env: Env, rules: Rules, st: State, n: nat, perSocket: bool)
    requires Ready(rules, st) && OnceSoFar(rules, st, perSocket)
    ensures OnceSoFar(rules, Run(env, rules, st, n), perSocket)
    ensures Grows(TableOf(st.m, perSocket), TableOf(Run(env, rules, st, n).m, perSocket))
    decreases n
  {
    hide Step, OnceSoFar, Contains, HasRoom, MarkedLines;
    OnceMeansRoom(rules, st, perSocket);
    if n > 0 && st.at.Some? {
      StepKeepsOnce(env, rules, st, perSocket);
      StepMarks(env, rules, st, perSocket);
      RunKeepsOnce(env, rules, Step(env, rules, st), n - 1, perSocket);
    }
  }

  /** Once the line of a once-rule is marked, the rule does not complete in a run of any length. */
  lemma {:induction false} MarkedNeverCompletes(env: Env, rules: Rules, st: State, n: nat, line: nat, perSocket: bool)
    requires Ready(rules, st) && IsMap(TableOf(st.m, perSocket))
    requires IsOnce(rules, line, perSocket) && Contains(TableOf(st.m, perSocket), line)
    ensures multiset(Run(env, rules, st, n).completed)[line] == multiset(st.completed)[line]
    decreases n
  {
    hide Step, Contains, IsMap, IsFull;
    if n > 0 && st.at.Some? {
      StepKeepsMarks(env, rules, st, perSocket);
      AddsOther(st.completed, st.at.value, line);
      MarkedNeverCompletes(env, rules, Step(env, rules, st), n - 1, line, perSocket);
    }
  }

  lemma AddsOther(completed: seq<nat>, pos: nat, line: nat)
    ensures multiset(completed + [pos])[line] == multiset(completed)[line] + if pos == line then 1 else 0
  {
    assert multiset(completed + [pos]) == multiset(completed) + multiset{pos};
  }

  /** Whether there is room or not: a once-rule is completed a second time only in a run in which
      the round that completed it first left the table of its marks full, without its line. */
  lemma {:induction false} SecondTimeMeansFull(env: Env, rules: Rules, st: State, n: nat, i: nat, perSocket: bool) returns (k: nat)
    requires Ready(rules, st) && IsMap(TableOf(st.m, perSocket)) && IsOnce(rules, i, perSocket)
    requires multiset(Run(env, rules, st, n).completed)[i] > multiset(st.completed)[i] + 1
    ensures k < n && Run(env, rules, st, k).at == Some(i)
    ensures var t := TableOf(Step(env, rules, Run(env, rules, st, k)).m, perSocket); 0 < |t.slots| && IsFull(t) && !Contains(t, i)
    decreases n
  {
    hide Step, Contains, IsMap, IsFull;
    var st' := Step(env, rules, st);
    StepKeepsMarks(env, rules, st, perSocket);
    AddsOther(st.completed, st.at.value, i);
    if st'.completed == st.completed + [st.at.value] && st.at.value == i {
      if Contains(TableOf(st'.m, perSocket), i) {
        MarkedNeverCompletes(env, rules, st', n - 1, i, perSocket);
      }
      k := 0;
    } else {
      k := SecondTimeMeansFull(env, rules, st', n - 1, i, perSocket);
      k := k + 1;
    }
  }

  // ----- sequences of calls on one socket -----

  /** A call, and for how many rounds its loop is followed; a call whose loop has
      ended by then is followed to its end. */
  datatype CallMade = CallMade(input: Input, rounds: nat)

  lemma StepKeepsCapacity(env: Env, rules: Rules, st: State)
    requires Ready(rules, st) && st.at.Some?
    ensures |Step(env, rules, st).m.sock.lines.slots| == |st.m.sock.lines.slots|
  {
    hide ActionProcess, Marked, GetMatch, GetFrom, Contains;
    var pos := st.at.value;
    PerformKeepsTables(env, st.m, pos, rules[pos].value.task);
    var m := ActionProcess(env, st.m, pos, rules[pos].value.task).0;
    PutKeepsCapacity(m.call.lines, pos);
    PutKeepsCapacity(m.sock.lines, pos);
  }

  lemma {:induction false} RunKeepsCapacity(env: Env, rules: Rules, st: State, n: nat)
    requires Ready(rules, st)
    ensures |Run(env, rules, st, n).m.sock.lines.slots| == |st.m.sock.lines.slots|
    decreases n
  {
    hide Step;
    if n > 0 && st.at.Some? {
      StepKeepsCapacity(env, rules, st);
      RunKeepsCapacity(env, rules, Step(env, rules, st), n - 1);
    }
  }

  /** What a call leaves behind, and the rules it completed. */
  function Play(env: Env, rules: Rules, w: World, sock: SocketData, c: CallMade): (r: (Machine, seq<nat>))
    requires 0 < |sock.lines.slots| && 0 < |rules|
    ensures |r.0.sock.lines.slots| == |sock.lines.slots|
    ensures r.0 == ProcessCall(env, rules, w, sock, c.input, c.rounds)
  {
    match Begin(env, rules, w, sock, c.input)
    case Bypassed(m) => (m, [])
    case Deferred(m) => (m, [])
    case Entered(st) =>
      var last := Run(env, rules, st, c.rounds);
      RunKeepsCapacity(env, rules, st, c.rounds);
      SyscallFrame(env, last.m);
      (Finish(env, last.m), last.completed)
  }

  /** With room for its marks, a call completes a once-per-call rule at most once. */
  lemma PlayOncePerCall(env: Env, rules: Rules, w: World, sock: SocketData, c: CallMade, i: nat)
    requires 0 < |sock.lines.slots| && 0 < |rules| && |MarkedLines(rules, false)| <= |rules|
    requires IsOnce(rules, i, false)
    ensures multiset(Play(env, rules, w, sock, c).1)[i] <= 1
  {
    hide HasRoom, MarkedLines, Empty, GetMatch, Run, Contains, Finish, Invoke;
    var entry := Begin(env, rules, w, sock, c.input);
    if entry.Entered? {
      EmptyHasRoom(|rules|, MarkedLines(rules, false));
      RunKeepsOnce(env, rules, entry.st, c.rounds, false);
    }
  }

  /** With room for the marks of the socket, a call loses none of them, and completes a
      once-per-socket rule at most once, not at all if it is marked before, and marks it. */
  lemma PlayOncePerSocket(env: Env, rules: Rules, w: World, sock: SocketData, c: CallMade, i: nat)
    requires 0 < |sock.lines.slots| && 0 < |rules| && HasRoom(sock.lines, MarkedLines(rules, true))
    requires IsOnce(rules, i, true)
    ensures var (m, completed) := Play(env, rules, w, sock, c);
            && HasRoom(m.sock.lines, MarkedLines(rules, true)) && Grows(sock.lines, m.sock.lines)
            && (i in completed ==> Contains(m.sock.lines, i))
            && multiset(completed)[i] <= if Contains(sock.lines, i) then 0 else 1
  {
    hide HasRoom, MarkedLines, Empty, GetMatch, Run, Syscall, Contains, Invoke;
    var entry := Begin(env, rules, w, sock, c.input);
    if entry.Entered? {
      RunKeepsOnce(env, rules, entry.st, c.rounds, true);
      SyscallFrame(env, Run(env, rules, entry.st, c.rounds).m);
      if Contains(sock.lines, i) {
        RoomIsMap(sock.lines, MarkedLines(rules, true));
        MarkedNeverCompletes(env, rules, entry.st, c.rounds, i, true);
      }
    }
  }

  /** The rules completed in each of a sequence of calls. */
  function PlayAll(env: Env, rules: Rules, w: World, sock: SocketData, calls: seq<CallMade>): (r: seq<seq<nat>>)
    requires 0 < |sock.lines.slots| && 0 < |rules|
    ensures |r| == |calls|
    decreases calls
  {
    if calls == [] then []
    else
      var (m, completed) := Play(env, rules, w, sock, calls[0]);
      [completed] + PlayAll(env, rules, m.world, m.sock, calls[1..])
  }

  function TotalCount(log: seq<seq<nat>>, i: nat): nat {
    if log == [] then 0 else multiset(log[0])[i] + TotalCount(log[1..], i)
  }

  /** With a table large enough for the lines of the rules and those that `mark-done call`
      names, a once-per-call rule completes at most once in every call of any sequence of
      calls on a socket, whatever jumps, marks and hangs occur. */
  lemma {:induction false} OncePerCallHolds(env: Env, rules: Rules, w: World, sock: SocketData, calls: seq<CallMade>, k: nat, i: nat)
    requires 0 < |sock.lines.slots| && 0 < |rules| && |MarkedLines(rules, false)| <= |rules|
    requires IsOnce(rules, i, false) && k < |calls|
    ensures multiset(PlayAll(env, rules, w, sock, calls)[k])[i] <= 1
    decreases calls
  {
    PlayOncePerCall(env, rules, w, sock, calls[0], i);
    hide Play, MarkedLines;
    var (m, completed) := Play(env, rules, w, sock, calls[0]);
    if k > 0 {
      OncePerCallHolds(env, rules, m.world, m.sock, calls[1..], k - 1, i);
    }
  }

  /** With room in the table of the socket for the lines of the rules and those that `mark-done
      socket` names, a once-per-socket rule completes at most once over all the calls, and not
      at all once it is marked. */
  lemma {:induction false} OncePerSocketHolds(env: Env, rules: Rules, w: World, sock: SocketData, calls: seq<CallMade>, i: nat)
    requires 0 < |sock.lines.slots| && 0 < |rules| && HasRoom(sock.lines, MarkedLines(rules, true))
    requires IsOnce(rules, i, true)
    ensures TotalCount(PlayAll(env, rules, w, sock, calls), i) <= if Contains(sock.lines, i) then 0 else 1
    decreases calls
  {
    if calls != [] {
      PlayOncePerSocket(env, rules, w, sock, calls[0], i);
      hide Play, Contains, HasRoom, MarkedLines;
      var (m, completed) := Play(env, rules, w, sock, calls[0]);
      OncePerSocketHolds(env, rules, m.world, m.sock, calls[1..], i);
      assert PlayAll(env, rules, w, sock, calls)[1..] == PlayAll(env, rules, m.world, m.sock, calls[1..]);
    }
  }
}
