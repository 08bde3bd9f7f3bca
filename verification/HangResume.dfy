/** The asynchronous hang of a non-blocking socket: arming, waiting and resuming. */
module HangResume {
  import opened Options
  import opened Light
  import opened Call
  import opened Marks
  import opened Queue
  import opened Termination
  import opened OnceRules
  import WholeCalls

  /** The socket waits until `deadline` because of the hang rule at `pos`. */
  predicate Waiting(rules: Rules, sock: SocketData, pos: nat, deadline: nat) {
    && sock.hanging && sock.pos == pos && sock.msec == deadline
    && IsRule(rules, pos) && rules[pos].value.task.Hang?
  }

  /** A hang rule reached by a read that has not been made yet puts the call off:
      the call fails with EAGAIN and the rule is not completed. */
  lemma HangArms(env: Env, rules: Rules, st: State)
    requires Ready(rules, st) && st.at.Some?
    requires rules[st.at.value].value.task.Hang? && !Skipped(rules[st.at.value].value, st.at.value, st.m)
    requires st.m.call.direction.Reading? && !st.m.call.blocking && !st.m.call.done && !st.m.sock.hanging
    ensures var r := Step(env, rules, st);
            var deadline := (TimeAt(env, st.m.world.clocks) + rules[st.at.value].value.task.ms) % SIZE_MODULUS;
            && r.at.None? && r.completed == st.completed
            && Waiting(rules, r.m.sock, st.at.value, deadline)
            && r.m.sock.lines == st.m.sock.lines
            && Finish(env, r.m) == r.m
            && r.m.call.result == -1 && r.m.call.err == EAGAIN
            && r.m.world.calls == st.m.world.calls
  {
    hide Contains;
  }

  /** Before the deadline every read fails with EAGAIN, without a system call and
      without a trace on the socket. */
  lemma ReadIsPutOff(env: Env, rules: Rules, w: World, sock: SocketData, input: Input, n: nat, pos: nat, deadline: nat)
    requires 0 < |sock.lines.slots| && 0 < |rules|
    requires Waiting(rules, sock, pos, deadline) && input.direction.Reading?
    requires GetMatch(env, rules, w.searches, 0).Some? && TimeAt(env, w.clocks) < deadline
    ensures var m := ProcessCall(env, rules, w, sock, input, n);
            && Begin(env, rules, w, sock, input).Deferred?
            && m.call.result == -1 && m.call.err == EAGAIN
            && m.world.calls == w.calls && m.sock == sock
  {
  }

  lemma OtherTaskKeepsWaiting(env: Env, m: Machine, pos: nat, task: Task)
    requires HasTables(m) && !m.call.direction.Reading?
    ensures var r := ActionProcess(env, m, pos, task).0;
            r.sock == m.sock.(lines := r.sock.lines)
  {
    hide Syscall, PerformSplit, PerformAlter, PerformTruncate, Put;
    SyscallFrame(env, m);
    if task.Split? { SplitFrame(env, m, task.percent); }
    if task.DoAlter? { AlterFrame(env, m, task.proportion); }
    if task.Truncate? { TruncateFrame(m, task.size); }
  }

  /** How many rules the first `n` rounds of a loop run, and do not skip. */
  function Performed(env: Env, rules: Rules, st: State, n: nat): nat
    requires Ready(rules, st)
    decreases n
  {
    if n == 0 || st.at.None? then 0
    else (if Skipped(rules[st.at.value].value, st.at.value, st.m) then 0 else 1) + Performed(env, rules, Step(env, rules, st), n - 1)
  }

  /** While a hang is pending, any other call runs one rule at most and completes none. */
  lemma OtherCallKeepsWaiting(env: Env, rules: Rules, w: World, sock: SocketData, c: CallMade, pos: nat, deadline: nat)
    requires 0 < |sock.lines.slots| && 0 < |rules|
    requires Waiting(rules, sock, pos, deadline) && !c.input.direction.Reading?
    ensures var (m, completed) := Play(env, rules, w, sock, c);
            Waiting(rules, m.sock, pos, deadline) && completed == []
    ensures var e := Begin(env, rules, w, sock, c.input);
            e.Entered? ==> Performed(env, rules, e.st, c.rounds) <= 1
  {
    hide GetMatch, GetFrom, ActionProcess, Contains, Put, Empty, Syscall, Performed;
    var e := Begin(env, rules, w, sock, c.input);
    if e.Entered? {
      SkipsKeepWaiting(env, rules, e.st, c.rounds, pos, deadline);
      RunsOneAtMost(env, rules, e.st, c.rounds, pos, deadline);
      var last := Run(env, rules, e.st, c.rounds);
      hide Run;
      SyscallFrame(env, last.m);
    }
  }

  lemma {:induction false} RunsOneAtMost(env: Env, rules: Rules, st: State, n: nat, pos: nat, deadline: nat)
    requires Ready(rules, st) && Waiting(rules, st.m.sock, pos, deadline)
    requires !st.m.call.direction.Reading? && st.completed == []
    ensures Performed(env, rules, st, n) <= 1
    decreases n
  {
    if n > 0 && st.at.Some? {
      StepKeepsWaiting(env, rules, st, pos, deadline);
      hide Step, Skipped;
      RunsOneAtMost(env, rules, Step(env, rules, st), n - 1, pos, deadline);
    }
  }

  /** Exactly when a rule that another call runs is completed: the rule succeeds and no hang
      is pending. A pending hang ends the loop at the first rule that is run. */
  lemma OtherRuleCompletesIff(env: Env, rules: Rules, st: State)
    requires Ready(rules, st) && st.at.Some? && !st.m.call.direction.Reading?
    requires !Skipped(rules[st.at.value].value, st.at.value, st.m)
    ensures var ok := ActionProcess(env, st.m, st.at.value, rules[st.at.value].value.task).1;
            var r := Step(env, rules, st);
            && (r.completed == st.completed + [st.at.value] <==> ok && !st.m.sock.hanging)
            && (st.m.sock.hanging ==> r.at.None? && r.completed == st.completed)
  {
    hide GetMatch, GetFrom, ActionProcess, Contains, Put, Skipped;
    OtherTaskKeepsWaiting(env, st.m, st.at.value, rules[st.at.value].value.task);
    assert |st.completed + [st.at.value]| != |st.completed|;
  }

  lemma {:induction false} SkipsKeepWaiting(env: Env, rules: Rules, st: State, n: nat, pos: nat, deadline: nat)
    requires Ready(rules, st) && Waiting(rules, st.m.sock, pos, deadline)
    requires !st.m.call.direction.Reading? && st.completed == []
    ensures var last := Run(env, rules, st, n);
            Waiting(rules, last.m.sock, pos, deadline) && last.completed == []
    decreases n
  {
    if n > 0 && st.at.Some? {
      StepKeepsWaiting(env, rules, st, pos, deadline);
      hide Step;
      SkipsKeepWaiting(env, rules, Step(env, rules, st), n - 1, pos, deadline);
    }
  }

  lemma StepKeepsWaiting(env: Env, rules: Rules, st: State, pos: nat, deadline: nat)
    requires Ready(rules, st) && st.at.Some? && Waiting(rules, st.m.sock, pos, deadline)
    requires !st.m.call.direction.Reading? && st.completed == []
    ensures var r := Step(env, rules, st);
            && Waiting(rules, r.m.sock, pos, deadline) && r.completed == []
            && !r.m.call.direction.Reading?
            && (!Skipped(rules[st.at.value].value, st.at.value, st.m) ==> r.at.None?)
  {
    hide GetMatch, GetFrom, ActionProcess, Contains, Put;
    OtherTaskKeepsWaiting(env, st.m, st.at.value, rules[st.at.value].value.task);
    TaskLines(env, st.m, st.at.value, rules[st.at.value].value.task);
  }

  /** The hang rule at `pos` is not one that is done for the socket. */
  predicate MayComplete(rules: Rules, lines: Table<()>, pos: nat)
    requires 0 < |lines.slots| && IsRule(rules, pos)
  {
    !(rules[pos].value.mode.OncePerSocket? && Contains(lines, pos))
  }

  /** The first read at or after the deadline starts at the hang rule, and completes it exactly
      if the rule is not a once-per-socket rule whose line has been marked. Then it does not
      arm it again or call the system, and goes on from its `next`. */
  lemma ReadResumes(env: Env, rules: Rules, w: World, sock: SocketData, input: Input, pos: nat, deadline: nat)
    requires 0 < |sock.lines.slots| && 0 < |rules|
    requires Waiting(rules, sock, pos, deadline) && input.direction.Reading?
    requires GetMatch(env, rules, w.searches, 0).Some? && deadline <= TimeAt(env, w.clocks)
    ensures var e := Begin(env, rules, w, sock, input);
            && e.Entered? && e.st.at == Some(pos) && e.st.m.sock == sock && e.st.m.world.calls == w.calls
            && var r := Step(env, rules, e.st);
               && (r.completed == [pos] <==> MayComplete(rules, sock.lines, pos))
               && (MayComplete(rules, sock.lines, pos) ==> Resumed(env, rules, w, e.st, r, pos))
  {
    EmptyIsMap(|rules|);
    hide Contains, Put, GetFrom, Empty;
    var e := Begin(env, rules, w, sock, input);
    assert Skipped(rules[pos].value, pos, e.st.m) <==> !MayComplete(rules, sock.lines, pos);
  }

  /** If the rule that armed the hang is gone by then, the first read at or after the deadline starts at the
      first matching rule from line 1 on, never at line 0; if there is none, the hang is over and the read is
      the system call. */
  lemma ResumesElsewhere(env: Env, rules: Rules, w: World, sock: SocketData, input: Input)
    requires 0 < |sock.lines.slots| && 0 < |rules| && input.len <= |input.bytes|
    requires sock.hanging && !IsRule(rules, sock.pos) && input.direction.Reading?
    requires GetMatch(env, rules, w.searches, 0).Some? && sock.msec <= TimeAt(env, w.clocks)
    ensures var e := Begin(env, rules, w, sock, input);
            if e.Entered? then FirstMatching(env, rules, w.searches + 1, 1, e.st.at) && e.st.m.sock == sock && e.st.m.world.calls == w.calls
            else FirstMatching(env, rules, w.searches + 1, 1, None) && e.Bypassed?
                 && !e.m.sock.hanging && WholeCalls.IsPlainCall(env, w, input, input.len, e.m)
  {
    WholeCalls.NewIsUntouched(w, sock, input, |rules|);
    hide BeginHanging, GetMatch, FirstMatching, WholeCalls.IsPlainCall, NewCall, WholeCalls.Untouched;
    var m := Machine(w, NewCall(input, |rules|), sock);
    assert m.call.direction.Reading?;
    StartsElsewhere(env, rules, m, w, input);
  }

  lemma StartsElsewhere(env: Env, rules: Rules, m: Machine, w: World, input: Input)
    requires HasTables(m) && m.world == w && WholeCalls.Untouched(m, w, input, input.len) && input.len <= |input.bytes|
    requires m.sock.hanging && !IsRule(rules, m.sock.pos) && m.sock.msec <= TimeAt(env, w.clocks)
    ensures var e := BeginHanging(env, rules, Searched(m));
            if e.Entered? then FirstMatching(env, rules, w.searches + 1, 1, e.st.at) && e.st.m.sock == m.sock && e.st.m.world.calls == w.calls
            else FirstMatching(env, rules, w.searches + 1, 1, None) && e.Bypassed?
                 && !e.m.sock.hanging && WholeCalls.IsPlainCall(env, w, input, input.len, e.m)
  {
    hide GetMatch, FirstMatching, Invoke, WholeCalls.IsPlainCall;
    FindsFirstMatch(env, rules, w.searches + 1, 1);
    var late := Searched(Searched(m.(world := w.(clocks := w.clocks + 1), sock := m.sock.(hanging := false))));
    WholeCalls.PlainInvoke(env, late, w, input, input.len);
  }

  /** What the first round of a call that started at the hang rule leaves, when it completes that rule. */
  predicate Resumed(env: Env, rules: Rules, w: World, st: State, r: State, pos: nat)
    requires IsRule(rules, pos)
  {
    && r.completed == [pos]
    && !r.m.sock.hanging
    && r.m.world.calls == w.calls && !r.m.call.aborted && !r.m.call.done
    && r.at == Follow(env, rules, r.m.(world := st.m.world), pos, rules[pos].value.next).1
  }

  /** Calls made while the socket waits: reads before the deadline and any other calls. */
  ghost predicate WhileWaiting(env: Env, rules: Rules, w: World, sock: SocketData, calls: seq<CallMade>, deadline: nat)
    requires 0 < |sock.lines.slots| && 0 < |rules|
    decreases calls
  {
    calls != [] ==>
      && (calls[0].input.direction.Reading? ==>
            GetMatch(env, rules, w.searches, 0).Some? && TimeAt(env, w.clocks) < deadline)
      && var m := Play(env, rules, w, sock, calls[0]).0;
         WhileWaiting(env, rules, m.world, m.sock, calls[1..], deadline)
  }

  /** The world and the socket after a sequence of calls. */
  function After(env: Env, rules: Rules, w: World, sock: SocketData, calls: seq<CallMade>): (r: (World, SocketData))
    requires 0 < |sock.lines.slots| && 0 < |rules|
    ensures |r.1.lines.slots| == |sock.lines.slots|
    decreases calls
  {
    if calls == [] then (w, sock)
    else
      var m := Play(env, rules, w, sock, calls[0]).0;
      After(env, rules, m.world, m.sock, calls[1..])
  }

  /** No rule marks line `pos` for the socket. */
  ghost predicate NeverMarked(rules: Rules, pos: nat) {
    forall i {:trigger IsRule(rules, i)} :: IsRule(rules, i) && rules[i].value.task.MarkDone? ==>
      rules[i].value.task.perSocket ==> rules[i].value.task.line != pos
  }

  lemma PlayKeepsWaiting(env: Env, rules: Rules, w: World, sock: SocketData, c: CallMade, pos: nat, deadline: nat)
    requires 0 < |sock.lines.slots| && 0 < |rules| && Waiting(rules, sock, pos, deadline)
    requires c.input.direction.Reading? ==> GetMatch(env, rules, w.searches, 0).Some? && TimeAt(env, w.clocks) < deadline
    ensures var (m, completed) := Play(env, rules, w, sock, c);
            && Waiting(rules, m.sock, pos, deadline) && completed == []
            && (c.input.direction.Reading? ==>
                  m.call.result == -1 && m.call.err == EAGAIN && m.world.calls == w.calls && m.sock == sock)
  {
    if c.input.direction.Reading? {
      ReadIsPutOff(env, rules, w, sock, c.input, c.rounds, pos, deadline);
    } else {
      OtherCallKeepsWaiting(env, rules, w, sock, c, pos, deadline);
    }
  }

  /** Whatever calls are made while the socket waits, it goes on waiting. */
  lemma {:induction false} GoesOnWaiting(env: Env, rules: Rules, w: World, sock: SocketData, calls: seq<CallMade>, pos: nat, deadline: nat)
    requires 0 < |sock.lines.slots| && 0 < |rules| && Waiting(rules, sock, pos, deadline)
    requires WhileWaiting(env, rules, w, sock, calls, deadline)
    ensures Waiting(rules, After(env, rules, w, sock, calls).1, pos, deadline)
    decreases calls
  {
    hide Play, GetMatch;
    if calls != [] {
      PlayKeepsWaiting(env, rules, w, sock, calls[0], pos, deadline);
      var m := Play(env, rules, w, sock, calls[0]).0;
      GoesOnWaiting(env, rules, m.world, m.sock, calls[1..], pos, deadline);
    }
  }

  /** And each read among them fails with EAGAIN without a system call. */
  lemma {:induction false} ReadsFailWhileWaiting(env: Env, rules: Rules, w: World, sock: SocketData, calls: seq<CallMade>, pos: nat, deadline: nat, i: nat)
    requires 0 < |sock.lines.slots| && 0 < |rules| && Waiting(rules, sock, pos, deadline)
    requires WhileWaiting(env, rules, w, sock, calls, deadline)
    requires i < |calls| && calls[i].input.direction.Reading?
    ensures var (w', sock') := After(env, rules, w, sock, calls[..i]);
            var m := Play(env, rules, w', sock', calls[i]).0;
            m.call.result == -1 && m.call.err == EAGAIN && m.world.calls == w'.calls
    decreases calls
  {
    hide Play, GetMatch;
    PlayKeepsWaiting(env, rules, w, sock, calls[0], pos, deadline);
    if i > 0 {
      var m := Play(env, rules, w, sock, calls[0]).0;
      assert calls[..i][1..] == calls[1..][..i - 1];
      ReadsFailWhileWaiting(env, rules, m.world, m.sock, calls[1..], pos, deadline, i - 1);
    }
  }

  /** The course of a hang that is pending: after any such calls, the first read at or after the
      deadline starts at the rule that armed it; it completes that rule and goes on from its
      `next`, exactly if the rule is not a once-per-socket rule that was marked meanwhile. */
  lemma WaitsThenResumes(env: Env, rules: Rules, w: World, sock: SocketData, calls: seq<CallMade>, input: Input, pos: nat, deadline: nat)
    requires 0 < |sock.lines.slots| && 0 < |rules| && Waiting(rules, sock, pos, deadline)
    requires WhileWaiting(env, rules, w, sock, calls, deadline)
    requires input.direction.Reading?
    requires var w' := After(env, rules, w, sock, calls).0;
             GetMatch(env, rules, w'.searches, 0).Some? && deadline <= TimeAt(env, w'.clocks)
    ensures var (w', sock') := After(env, rules, w, sock, calls);
            var e := Begin(env, rules, w', sock', input);
            && e.Entered? && e.st.at == Some(pos)
            && var r := Step(env, rules, e.st);
               && (r.completed == [pos] <==> MayComplete(rules, sock'.lines, pos))
               && (MayComplete(rules, sock'.lines, pos) ==> Resumed(env, rules, w', e.st, r, pos))
  {
    GoesOnWaiting(env, rules, w, sock, calls, pos, deadline);
    hide After, Contains, GetMatch, Step, Begin, MayComplete, Resumed;
    var (w', sock') := After(env, rules, w, sock, calls);
    ReadResumes(env, rules, w', sock', input, pos, deadline);
  }

  // ----- once-per-socket hangs -----

  /** The line of a once-per-socket rule is unmarked, and no rule marks it. */
  ghost predicate StaysFree(rules: Rules, sock: SocketData, pos: nat)
    requires 0 < |sock.lines.slots|
  {
    IsMap(sock.lines) && NeverMarked(rules, pos) && !Contains(sock.lines, pos)
  }

  lemma PlayKeepsUnmarked(env: Env, rules: Rules, w: World, sock: SocketData, c: CallMade, pos: nat, deadline: nat)
    requires 0 < |sock.lines.slots| && 0 < |rules| && Waiting(rules, sock, pos, deadline) && StaysFree(rules, sock, pos)
    requires c.input.direction.Reading? ==> GetMatch(env, rules, w.searches, 0).Some? && TimeAt(env, w.clocks) < deadline
    ensures var m := Play(env, rules, w, sock, c).0; StaysFree(rules, m.sock, pos)
  {
    if c.input.direction.Reading? {
      ReadIsPutOff(env, rules, w, sock, c.input, c.rounds, pos, deadline);
    } else {
      var e := Begin(env, rules, w, sock, c.input);
      if e.Entered? {
        hide Run, Syscall, Contains, Put, GetMatch, Empty, Invoke, IsMap, NeverMarked;
        SkipsKeepUnmarked(env, rules, e.st, c.rounds, pos, deadline);
        SyscallFrame(env, Run(env, rules, e.st, c.rounds).m);
      }
    }
  }

  lemma StepKeepsUnmarked(env: Env, rules: Rules, st: State, pos: nat, deadline: nat)
    requires Ready(rules, st) && st.at.Some? && Waiting(rules, st.m.sock, pos, deadline)
    requires !st.m.call.direction.Reading? && st.completed == [] && StaysFree(rules, st.m.sock, pos)
    ensures StaysFree(rules, Step(env, rules, st).m.sock, pos)
  {
    hide GetMatch, GetFrom, ActionProcess, Contains, Put, IsMap;
    var task := rules[st.at.value].value.task;
    assert IsRule(rules, st.at.value);
    OtherTaskKeepsWaiting(env, st.m, st.at.value, task);
    TaskLines(env, st.m, st.at.value, task);
    if task.MarkDone? {
      MarkAddsOnly(st.m.sock.lines, task.line);
    }
  }

  lemma {:induction false} SkipsKeepUnmarked(env: Env, rules: Rules, st: State, n: nat, pos: nat, deadline: nat)
    requires Ready(rules, st) && Waiting(rules, st.m.sock, pos, deadline)
    requires !st.m.call.direction.Reading? && st.completed == [] && StaysFree(rules, st.m.sock, pos)
    ensures StaysFree(rules, Run(env, rules, st, n).m.sock, pos)
    decreases n
  {
    hide Step, StaysFree;
    if n > 0 && st.at.Some? {
      StepKeepsWaiting(env, rules, st, pos, deadline);
      StepKeepsUnmarked(env, rules, st, pos, deadline);
      SkipsKeepUnmarked(env, rules, Step(env, rules, st), n - 1, pos, deadline);
    }
  }

  lemma {:induction false} GoesOnFree(env: Env, rules: Rules, w: World, sock: SocketData, calls: seq<CallMade>, pos: nat, deadline: nat)
    requires 0 < |sock.lines.slots| && 0 < |rules| && Waiting(rules, sock, pos, deadline) && StaysFree(rules, sock, pos)
    requires WhileWaiting(env, rules, w, sock, calls, deadline)
    ensures !Contains(After(env, rules, w, sock, calls).1.lines, pos)
    decreases calls
  {
    hide Play, Contains, IsMap, GetMatch, NeverMarked;
    if calls != [] {
      PlayKeepsWaiting(env, rules, w, sock, calls[0], pos, deadline);
      PlayKeepsUnmarked(env, rules, w, sock, calls[0], pos, deadline);
      var m := Play(env, rules, w, sock, calls[0]).0;
      GoesOnFree(env, rules, m.world, m.sock, calls[1..], pos, deadline);
    }
  }

  // ----- from arming to resuming -----

  /** Round `k` of a call reaches a hang rule that it does not skip, with the read still to be made. */
  predicate ArmsAt(env: Env, rules: Rules, w: World, sock: SocketData, c: CallMade, k: nat)
    requires 0 < |sock.lines.slots| && 0 < |rules|
  {
    var e := Begin(env, rules, w, sock, c.input);
    && e.Entered? && k < c.rounds
    && var st := Run(env, rules, e.st, k);
       && st.at.Some? && rules[st.at.value].value.task.Hang? && !Skipped(rules[st.at.value].value, st.at.value, st.m)
       && st.m.call.direction.Reading? && !st.m.call.blocking && !st.m.call.done && !st.m.sock.hanging
  }

  /** The state in which the hang rule is reached. */
  function ArmingState(env: Env, rules: Rules, w: World, sock: SocketData, c: CallMade, k: nat): (st: State)
    requires 0 < |sock.lines.slots| && 0 < |rules| && ArmsAt(env, rules, w, sock, c, k)
    ensures Ready(rules, st) && st.at.Some?
  {
    Run(env, rules, Begin(env, rules, w, sock, c.input).st, k)
  }

  function Deadline(env: Env, rules: Rules, st: State): nat
    requires Ready(rules, st) && st.at.Some? && rules[st.at.value].value.task.Hang?
  {
    (TimeAt(env, st.m.world.clocks) + rules[st.at.value].value.task.ms) % SIZE_MODULUS
  }

  lemma {:induction false} RunStays(env: Env, rules: Rules, st: State, k: nat, n: nat)
    requires Ready(rules, st) && k <= n && Run(env, rules, st, k).at.None?
    ensures Run(env, rules, st, n) == Run(env, rules, st, k)
    decreases k
  {
    hide Step;
    if k > 0 && st.at.Some? {
      RunStays(env, rules, Step(env, rules, st), k - 1, n - 1);
    }
  }

  /** The call that arms a hang fails with EAGAIN, makes no system call in that round, and leaves the socket waiting. */
  lemma CallArms(env: Env, rules: Rules, w: World, sock: SocketData, c: CallMade, k: nat)
    requires 0 < |sock.lines.slots| && 0 < |rules| && ArmsAt(env, rules, w, sock, c, k)
    ensures var st := ArmingState(env, rules, w, sock, c, k);
            var (m, completed) := Play(env, rules, w, sock, c);
            && Waiting(rules, m.sock, st.at.value, Deadline(env, rules, st)) && completed == st.completed
            && m.sock.lines == st.m.sock.lines && m.world.calls == st.m.world.calls
            && m.call.result == -1 && m.call.err == EAGAIN
  {
    hide Begin, Skipped, Step, Run;
    var e := Begin(env, rules, w, sock, c.input);
    var st := Run(env, rules, e.st, k);
    HangArms(env, rules, st);
    RunStep(env, rules, e.st, k);
    RunStays(env, rules, e.st, k + 1, c.rounds);
  }

  lemma {:induction false} RunKeepsMap(env: Env, rules: Rules, st: State, n: nat)
    requires Ready(rules, st) && IsMap(st.m.sock.lines)
    ensures IsMap(Run(env, rules, st, n).m.sock.lines)
    decreases n
  {
    hide Step, IsMap;
    if n > 0 && st.at.Some? {
      StepKeepsMarks(env, rules, st, true);
      RunKeepsMap(env, rules, Step(env, rules, st), n - 1);
    }
  }

  /** The line of a once-per-socket rule that arms a hang is unmarked. */
  lemma ArmedIsUnmarked(env: Env, rules: Rules, w: World, sock: SocketData, c: CallMade, k: nat)
    requires 0 < |sock.lines.slots| && 0 < |rules| && ArmsAt(env, rules, w, sock, c, k)
    requires var pos := ArmingState(env, rules, w, sock, c, k).at.value;
             rules[pos].value.mode.OncePerSocket? && IsMap(sock.lines) && NeverMarked(rules, pos)
    ensures var m := Play(env, rules, w, sock, c).0;
            StaysFree(rules, m.sock, ArmingState(env, rules, w, sock, c, k).at.value)
  {
    CallArms(env, rules, w, sock, c, k);
    var e := Begin(env, rules, w, sock, c.input);
    RunKeepsMap(env, rules, e.st, k);
    hide Play, Run, IsMap, NeverMarked, Contains, GetMatch, Empty;
  }

  /** The whole course of a hang. A read arms it and fails with EAGAIN. Through any reads before
      the deadline and any other calls the socket waits. The first read at or after the deadline
      completes the rule that armed the hang, without arming it again or calling the system, and
      goes on from its `next`. Only a once-per-socket rule needs that no rule marks its line. */
  lemma HangCourse(env: Env, rules: Rules, w: World, sock: SocketData, arming: CallMade, k: nat, calls: seq<CallMade>, input: Input)
    requires 0 < |sock.lines.slots| && 0 < |rules| && ArmsAt(env, rules, w, sock, arming, k)
    requires var st := ArmingState(env, rules, w, sock, arming, k);
             rules[st.at.value].value.mode.OncePerSocket? ==>
               IsMap(sock.lines) && NeverMarked(rules, st.at.value)
    requires var m := Play(env, rules, w, sock, arming).0;
             var deadline := Deadline(env, rules, ArmingState(env, rules, w, sock, arming, k));
             && WhileWaiting(env, rules, m.world, m.sock, calls, deadline)
             && var w' := After(env, rules, m.world, m.sock, calls).0;
                GetMatch(env, rules, w'.searches, 0).Some? && deadline <= TimeAt(env, w'.clocks)
    requires input.direction.Reading?
    ensures var st := ArmingState(env, rules, w, sock, arming, k);
            var pos := st.at.value;
            var m := Play(env, rules, w, sock, arming).0;
            && m.call.result == -1 && m.call.err == EAGAIN && m.world.calls == st.m.world.calls
            && var (w', sock') := After(env, rules, m.world, m.sock, calls);
               var e := Begin(env, rules, w', sock', input);
               && e.Entered? && e.st.at == Some(pos)
               && Resumed(env, rules, w', e.st, Step(env, rules, e.st), pos)
  {
    hide Begin, Play, Run, Step, IsMap, NeverMarked, Contains, After, WhileWaiting, GetMatch, Resumed, Deadline, Waiting, StaysFree;
    var st := ArmingState(env, rules, w, sock, arming, k);
    var m := Play(env, rules, w, sock, arming).0;
    CallArms(env, rules, w, sock, arming, k);
    if rules[st.at.value].value.mode.OncePerSocket? {
      ArmedIsUnmarked(env, rules, w, sock, arming, k);
      GoesOnFree(env, rules, m.world, m.sock, calls, st.at.value, Deadline(env, rules, st));
    }
    WaitsThenResumes(env, rules, m.world, m.sock, calls, input, st.at.value, Deadline(env, rules, st));
  }
}
