/** What whole intercepted calls come to for the program that makes them: unless a rule
    interferes a call is the system call and nothing else, and what each task that
    interferes does to the result, the error number and the bytes that pass. */
module WholeCalls {
  import opened Options
  import opened Alter
  import opened Light
  import opened Call
  import opened Marks
  import opened Queue
  import SplitWrites

  // ----- the system call alone -----

  /** The answer of the system to a call that asks for `asked` bytes. */
  predicate Answers(reply: Reply, asked: nat, result: int, err: int) {
    match reply
    case Failed(e) => result == -1 && err == e
    case Moved(bytes, e) => result == (if |bytes| < asked then |bytes| else asked) && err == e
  }

  /** A buffer after a read: as many bytes as the result says are those of the system, the rest is as before. */
  predicate Receives(before: seq<Byte>, after: seq<Byte>, reply: Reply, result: int) {
    && |after| == |before|
    && forall i :: 0 <= i < |before| ==>
         if reply.Moved? && i < result && i < |reply.bytes| then after[i] == reply.bytes[i] else after[i] == before[i]
  }

  /** One system call was made since `w`, for `asked` bytes of the caller's buffer. */
  predicate AsksOnce(w: World, w': World, asked: nat) {
    |w'.calls| == |w.calls| + 1 && w'.calls[..|w.calls|] == w.calls && w'.calls[|w.calls|].asked == asked
  }

  /** What the program sees is what the system does with its own buffer, asked for `asked` bytes. */
  predicate IsPlainCall(env: Env, w: World, input: Input, asked: nat, m: Machine)
    requires asked <= |input.bytes|
  {
    var reply := ReplyAt(env, |w.calls|);
    && AsksOnce(w, m.world, asked)
    && Answers(reply, asked, m.call.result, m.call.err)
    && (if input.direction.Reading? then Receives(input.bytes, m.call.orig, reply, m.call.result) else m.call.orig == input.bytes)
    && (input.direction.Writing? && 0 <= m.call.result <= asked ==> m.world.calls[|w.calls|].moved == input.bytes[..m.call.result])
  }

  /** A call that is still as the program made it, but for a length that was cut to `asked`. */
  predicate Untouched(m: Machine, w: World, input: Input, asked: nat) {
    var c := m.call;
    && c.direction == input.direction && c.blocking == input.blocking && c.orig == input.bytes && c.err == input.errno
    && ReadBuffer(c) == At(Own, 0) && ReadLength(c) == asked && (c.buf == Null ==> c.origLen == asked)
    && (c.direction.Writing? ==> c.buf == Null) && (c.direction.Reading? ==> c.buf == At(Own, 0))
    && !c.done && !c.aborted && m.world.calls == w.calls
  }

  lemma PlainInvoke(env: Env, m: Machine, w: World, input: Input, asked: nat)
    requires Untouched(m, w, input, asked) && asked <= |input.bytes|
    ensures IsPlainCall(env, w, input, asked, Invoke(env, m))
  {
  }

  lemma PlainSyscall(env: Env, m: Machine, w: World, input: Input, asked: nat)
    requires Untouched(m, w, input, asked) && asked <= |input.bytes|
    ensures Syscall(env, m).1 && IsPlainCall(env, w, input, asked, Syscall(env, m).0)
    ensures Finish(env, m) == Syscall(env, m).0 && Finish(env, Syscall(env, m).0) == Syscall(env, m).0
  {
    PlainInvoke(env, m, w, input, asked);
    hide Invoke;
  }

  lemma NewIsUntouched(w: World, sock: SocketData, input: Input, capacity: nat)
    ensures Untouched(Machine(w, NewCall(input, capacity), sock), w, input, input.len)
  {
  }

  // ----- rules that do not interfere -----

  /** A call that no rule matches is the system call. */
  lemma UnmatchedCallIsPlain(env: Env, rules: Rules, w: World, sock: SocketData, input: Input, n: nat)
    requires 0 < |sock.lines.slots| && 0 < |rules| && input.len <= |input.bytes|
    requires forall line: nat :: !MatchesLine(env, rules, w.searches, line)
    ensures IsPlainCall(env, w, input, input.len, ProcessCall(env, rules, w, sock, input, n))
  {
    FirstMatchIff(env, rules, w.searches, 0, None);
    NewIsUntouched(w, sock, input, |rules|);
    var m := Searched(Machine(w, NewCall(input, |rules|), sock));
    PlainInvoke(env, m, w, input, input.len);
    hide IsPlainCall, Invoke, GetMatch, NewCall, MatchesLine;
  }

  /** Tasks that only report or mark lines. */
  predicate Harmless(task: Task) {
    task.Nop? || task.Report? || task.MarkDone?
  }

  ghost predicate AllHarmless(rules: Rules) {
    forall i {:trigger IsRule(rules, i)} :: IsRule(rules, i) ==> Harmless(rules[i].value.task)
  }

  predicate NotHanging(m: Machine) {
    m.call.direction.Reading? ==> !m.sock.hanging
  }

  lemma LinesDoNotTouch(m: Machine, m': Machine, w: World, input: Input)
    requires Untouched(m, w, input, input.len) && NotHanging(m)
    requires m'.world.calls == m.world.calls && m'.call == m.call.(lines := m'.call.lines) && m'.sock.hanging == m.sock.hanging
    ensures Untouched(m', w, input, input.len) && NotHanging(m')
  {
  }

  lemma HarmlessTask(env: Env, m: Machine, pos: nat, task: Task)
    requires HasTables(m) && Harmless(task) && NotHanging(m)
    ensures var r := ActionProcess(env, m, pos, task).0;
            r.world == m.world && r.call == m.call.(lines := r.call.lines) && r.sock.hanging == m.sock.hanging
  {
    hide Marked;
  }

  lemma HarmlessStep(env: Env, rules: Rules, st: State, w: World, input: Input)
    requires Ready(rules, st) && st.at.Some? && AllHarmless(rules) && Untouched(st.m, w, input, input.len) && NotHanging(st.m)
    ensures Untouched(Step(env, rules, st).m, w, input, input.len) && NotHanging(Step(env, rules, st).m)
  {
    var pos := st.at.value;
    assert IsRule(rules, pos);
    RoundGoesTo(env, rules, st);
    HarmlessTask(env, st.m, pos, rules[pos].value.task);
    hide Step, ActionProcess, Skipped, FirstMatching, GoesTo, ReadBuffer, ReadLength, AllHarmless;
    if Skipped(rules[pos].value, pos, st.m) {
      LinesDoNotTouch(st.m, Step(env, rules, st).m, w, input);
    } else {
      LinesDoNotTouch(st.m, ActionProcess(env, st.m, pos, rules[pos].value.task).0, w, input);
      LinesDoNotTouch(ActionProcess(env, st.m, pos, rules[pos].value.task).0, Step(env, rules, st).m, w, input);
    }
  }

  lemma {:induction false} HarmlessRun(env: Env, rules: Rules, st: State, n: nat, w: World, input: Input)
    requires Ready(rules, st) && AllHarmless(rules) && Untouched(st.m, w, input, input.len) && NotHanging(st.m)
    ensures Untouched(Run(env, rules, st, n).m, w, input, input.len)
    decreases n
  {
    hide Step, AllHarmless, Untouched;
    if n > 0 && st.at.Some? {
      HarmlessStep(env, rules, st, w, input);
      HarmlessRun(env, rules, Step(env, rules, st), n - 1, w, input);
    }
  }

  /** Whatever rules match, in whatever order they run and however often: as long as they only
      report and mark lines, the program sees the system call and nothing else. */
  lemma HarmlessRulesAreInvisible(env: Env, rules: Rules, w: World, sock: SocketData, input: Input, n: nat)
    requires 0 < |sock.lines.slots| && 0 < |rules| && input.len <= |input.bytes|
    requires AllHarmless(rules) && (input.direction.Reading? ==> !sock.hanging)
    ensures IsPlainCall(env, w, input, input.len, ProcessCall(env, rules, w, sock, input, n))
  {
    var m := Machine(w, NewCall(input, |rules|), sock);
    NewIsUntouched(w, sock, input, |rules|);
    hide GetMatch, NewCall, IsPlainCall, Invoke, AllHarmless, Run, Syscall;
    var e := BeginWith(env, rules, m);
    if e.Entered? {
      HarmlessRun(env, rules, e.st, n, w, input);
      PlainSyscall(env, Run(env, rules, e.st, n).m, w, input, input.len);
    } else {
      PlainInvoke(env, Searched(m), w, input, input.len);
    }
  }

  // ----- one rule that interferes -----

  /** The first matching rule of a call is on line `i`, may run, and stops; no hang is pending. */
  ghost predicate OnlyRule(env: Env, rules: Rules, w: World, sock: SocketData, input: Input, i: nat) {
    && 0 < |sock.lines.slots| && 0 < |rules| && input.len <= |input.bytes|
    && FirstMatching(env, rules, w.searches, 0, Some(i)) && rules[i].value.next.Stop?
    && !sock.hanging && !(rules[i].value.mode.OncePerSocket? && Contains(sock.lines, i))
  }

  /** The call when its first rule is found. */
  function Found(w: World, sock: SocketData, input: Input, capacity: nat): Machine {
    Machine(w.(searches := w.searches + 1), NewCall(input, capacity), sock)
  }

  /** The two machines differ in marks only. */
  predicate SameButLines(m: Machine, m': Machine) {
    && m'.world == m.world
    && m'.call == m.call.(lines := m'.call.lines) && m'.sock == m.sock.(lines := m'.sock.lines)
  }

  lemma FinishIgnoresLines(env: Env, m: Machine, m': Machine)
    requires SameButLines(m, m')
    ensures SameButLines(Finish(env, m), Finish(env, m'))
  {
    hide Fetch, Store;
  }

  /** Such a call starts with that rule, and comes to what its task makes of it. */
  lemma OnlyRuleRuns(env: Env, rules: Rules, w: World, sock: SocketData, input: Input, i: nat, n: nat)
    requires OnlyRule(env, rules, w, sock, input, i) && 1 <= n
    ensures var m := Found(w, sock, input, |rules|);
            && HasTables(m) && IsRule(rules, i)
            && SameButLines(Finish(env, Perform(env, m, i, rules[i].value.task).0), ProcessCall(env, rules, w, sock, input, n))
  {
    FirstMatchIff(env, rules, w.searches, 0, Some(i));
    EmptyIsMap(|rules|);
    hide GetMatch, Perform, Contains, Marked, Empty, FirstMatching, Run;
    var m := Found(w, sock, input, |rules|);
    var st := State(m, Some(i), []);
    assert BeginWith(env, rules, Machine(w, NewCall(input, |rules|), sock)) == Entered(st);
    assert !Skipped(rules[i].value, i, m);
    OneRound(env, rules, st, n);
    RoundGoesTo(env, rules, st);
    var r := Perform(env, m, i, rules[i].value.task).0;
    assert SameButLines(r, Step(env, rules, st).m);
    hide Step, Finish;
    FinishIgnoresLines(env, r, Step(env, rules, st).m);
  }

  lemma OneRound(env: Env, rules: Rules, st: State, n: nat)
    requires Ready(rules, st) && st.at.Some? && 1 <= n && rules[st.at.value].value.next.Stop? && !Skipped(rules[st.at.value].value, st.at.value, st.m)
    ensures Run(env, rules, st, n) == Step(env, rules, st)
  {
    RoundGoesTo(env, rules, st);
    hide Step, FirstMatching;
    assert Step(env, rules, st).at == None;
  }

  /** The program sees a result and an error number, no system call is made, and nothing is written to its buffer. */
  predicate IsSettled(w: World, input: Input, m: Machine, result: int, err: int) {
    m.call.result == result && m.call.err == err && m.world.calls == w.calls && m.call.orig == input.bytes && m.call.aborted
  }

  /** `drop`: the program is told that everything was moved. */
  lemma DropTellsSuccess(env: Env, rules: Rules, w: World, sock: SocketData, input: Input, i: nat, n: nat)
    requires OnlyRule(env, rules, w, sock, input, i) && 1 <= n && rules[i].value.task.Drop?
    ensures IsSettled(w, input, ProcessCall(env, rules, w, sock, input, n), input.len, input.errno)
  {
    OnlyRuleRuns(env, rules, w, sock, input, i, n);
    NewIsUntouched(w, sock, input, |rules|);
    hide ProcessCall, NewCall, Syscall;
  }

  /** `cancel-syscall`, `error` and `emit`: the program is told of a failure. `error EAGAIN` has no
      effect on a blocking socket; after a signal the error is EPIPE for SIGPIPE and EINTR for others. */
  lemma FailuresAreTold(env: Env, rules: Rules, w: World, sock: SocketData, input: Input, i: nat, n: nat)
    requires OnlyRule(env, rules, w, sock, input, i) && 1 <= n
    ensures var m := ProcessCall(env, rules, w, sock, input, n);
            match rules[i].value.task
            case CancelSyscall => IsSettled(w, input, m, -1, input.errno)
            case Error(e) => if input.blocking && e == 11 then IsPlainCall(env, w, input, input.len, m) else IsSettled(w, input, m, -1, e)
            case Emit(signal) => IsSettled(w, input, m, -1, if signal == 13 then 32 else 4)
            case _ => true
  {
    OnlyRuleRuns(env, rules, w, sock, input, i, n);
    NewIsUntouched(w, sock, input, |rules|);
    var m := Found(w, sock, input, |rules|);
    PlainSyscall(env, m, w, input, input.len);
    hide ProcessCall, NewCall, Syscall, OnlyRule;
  }

  /** `syscall` is what would happen anyway. */
  lemma SyscallIsPlain(env: Env, rules: Rules, w: World, sock: SocketData, input: Input, i: nat, n: nat)
    requires OnlyRule(env, rules, w, sock, input, i) && 1 <= n && rules[i].value.task.DoSyscall?
    ensures IsPlainCall(env, w, input, input.len, ProcessCall(env, rules, w, sock, input, n))
  {
    OnlyRuleRuns(env, rules, w, sock, input, i, n);
    NewIsUntouched(w, sock, input, |rules|);
    PlainSyscall(env, Found(w, sock, input, |rules|), w, input, input.len);
    hide ProcessCall, NewCall, Syscall, Finish, OnlyRule;
  }

  /** A rule that only reports or marks a line, and stops, leaves the call as it is. */
  lemma ReportIsPlain(env: Env, rules: Rules, w: World, sock: SocketData, input: Input, i: nat, n: nat)
    requires OnlyRule(env, rules, w, sock, input, i) && 1 <= n && Harmless(rules[i].value.task)
    ensures IsPlainCall(env, w, input, input.len, ProcessCall(env, rules, w, sock, input, n))
  {
    OnlyRuleRuns(env, rules, w, sock, input, i, n);
    NewIsUntouched(w, sock, input, |rules|);
    var m := Found(w, sock, input, |rules|);
    var task := rules[i].value.task;
    hide OnlyRule, ProcessCall, NewCall, IsPlainCall;
    var r := Perform(env, m, i, task).0;
    assert ActionProcess(env, m, i, task).0 == r;
    HarmlessTask(env, m, i, task);
    hide Perform, Finish, Found, ActionProcess;
    LinesDoNotTouch(m, r, w, input);
    PlainSyscall(env, r, w, input, input.len);
    PlainIgnoresLines(env, w, input, input.len, Finish(env, r), ProcessCall(env, rules, w, sock, input, n));
  }

  /** `truncate`: the system is asked for so many bytes at most; a negative number cuts nothing off. */
  lemma TruncateAsksForLess(env: Env, rules: Rules, w: World, sock: SocketData, input: Input, i: nat, n: nat)
    requires OnlyRule(env, rules, w, sock, input, i) && 1 <= n && rules[i].value.task.Truncate?
    requires input.len < 0x8000_0000_0000_0000 && -0x8000_0000 <= rules[i].value.task.size < 0x8000_0000
    ensures var size := rules[i].value.task.size;
            var asked := if CarriesData(input.direction) && 0 <= size < input.len then size else input.len;
            IsPlainCall(env, w, input, asked, ProcessCall(env, rules, w, sock, input, n))
  {
    OnlyRuleRuns(env, rules, w, sock, input, i, n);
    var size := rules[i].value.task.size;
    var m := Found(w, sock, input, |rules|);
    TruncatesTo(w, sock, input, |rules|, size);
    hide OnlyRule;
    var asked := if CarriesData(input.direction) && 0 <= size < input.len then size else input.len;
    PlainSyscall(env, PerformTruncate(m, size).0, w, input, asked);
    hide ProcessCall, NewCall, Syscall, Finish, PerformTruncate;
  }

  lemma TruncatesTo(w: World, sock: SocketData, input: Input, capacity: nat, size: int)
    requires input.len < 0x8000_0000_0000_0000 && -0x8000_0000 <= size < 0x8000_0000
    ensures Untouched(PerformTruncate(Found(w, sock, input, capacity), size).0, w, input,
                      if CarriesData(input.direction) && 0 <= size < input.len then size else input.len)
  {
    SizeOfInt(size);
    hide AsSize;
  }

  lemma SizeOfInt(i: int)
    requires -0x8000_0000 <= i < 0x8000_0000
    ensures 0 <= i ==> AsSize(i) == i
    ensures i < 0 ==> AsSize(i) == i + SIZE_MODULUS
  {
  }

  /** `hang` and `remote-hang`: a read of a non-blocking socket is put off, and the socket remembers until when and
      for which rule; any other call goes on (a blocking one after a while, which is not modelled). `local-hang` never
      puts a call off: it reads first, and a call that is done is not put off. */
  lemma HangsPutReadsOff(env: Env, rules: Rules, w: World, sock: SocketData, input: Input, i: nat, n: nat)
    requires OnlyRule(env, rules, w, sock, input, i) && 1 <= n
    ensures var m := ProcessCall(env, rules, w, sock, input, n);
            var task := rules[i].value.task;
            && (task.LocalHang? ==> IsPlainCall(env, w, input, input.len, m) && !m.sock.hanging)
            && (task.Hang? || task.RemoteHang? ==>
                  if input.direction.Reading? && !input.blocking then
                    && IsSettled(w, input, m, -1, 11)
                    && m.sock.hanging && m.sock.pos == i && m.sock.msec == (TimeAt(env, w.clocks) + task.ms) % SIZE_MODULUS
                  else IsPlainCall(env, w, input, input.len, m) && !m.sock.hanging)
  {
    OnlyRuleRuns(env, rules, w, sock, input, i, n);
    NewIsUntouched(w, sock, input, |rules|);
    var m := Found(w, sock, input, |rules|);
    var task := rules[i].value.task;
    assert !m.sock.hanging && m.world.clocks == w.clocks;
    TaskIsHang(env, m, i, task);
    hide ProcessCall, NewCall, OnlyRule, Perform, PerformHang, PerformLocalHang, Finish, Untouched, IsPlainCall, Found;
    var f := ProcessCall(env, rules, w, sock, input, n);
    if task.LocalHang? {
      LocalHangReadsFirst(env, m, w, input, i, task.ms);
      PlainIgnoresLines(env, w, input, input.len, Finish(env, Perform(env, m, i, task).0), f);
    } else if task.Hang? || task.RemoteHang? {
      HangPutsReadsOff(env, m, w, input, i, task.ms);
      if !(input.direction.Reading? && !input.blocking) {
        PlainIgnoresLines(env, w, input, input.len, Finish(env, Perform(env, m, i, task).0), f);
      }
    }
  }

  lemma TaskIsHang(env: Env, m: Machine, pos: nat, task: Task)
    requires HasTables(m)
    ensures task.LocalHang? ==> Perform(env, m, pos, task) == PerformLocalHang(env, m, pos, task.ms)
    ensures task.Hang? || task.RemoteHang? ==> Perform(env, m, pos, task) == PerformHang(env, m, pos, task.ms)
  {
  }

  lemma PlainIgnoresLines(env: Env, w: World, input: Input, asked: nat, m: Machine, m': Machine)
    requires asked <= |input.bytes| && IsPlainCall(env, w, input, asked, m) && SameButLines(m, m')
    ensures IsPlainCall(env, w, input, asked, m')
  {
    hide Receives, Answers, AsksOnce;
  }

  lemma LocalHangReadsFirst(env: Env, m: Machine, w: World, input: Input, pos: nat, ms: int)
    requires Untouched(m, w, input, input.len) && input.len <= |input.bytes| && !m.sock.hanging
    ensures var f := Finish(env, PerformLocalHang(env, m, pos, ms).0); IsPlainCall(env, w, input, input.len, f) && !f.sock.hanging
  {
    PlainSyscall(env, m, w, input, input.len);
    SyscallFrame(env, m);
    SyscallIsDone(env, m);
    hide Syscall, IsPlainCall, Finish, ReadBuffer, ReadLength;
  }

  lemma HangPutsReadsOff(env: Env, m: Machine, w: World, input: Input, pos: nat, ms: int)
    requires Untouched(m, w, input, input.len) && input.len <= |input.bytes| && !m.sock.hanging
    ensures var f := Finish(env, PerformHang(env, m, pos, ms).0);
            if input.direction.Reading? && !input.blocking then
              && IsSettled(w, input, f, -1, 11)
              && f.sock.hanging && f.sock.pos == pos && f.sock.msec == (TimeAt(env, m.world.clocks) + ms) % SIZE_MODULUS
            else IsPlainCall(env, w, input, input.len, f) && !f.sock.hanging
  {
    PlainSyscall(env, m, w, input, input.len);
    SyscallFrame(env, m);
    hide Syscall, IsPlainCall, ReadBuffer, ReadLength;
  }

  lemma SyscallIsDone(env: Env, m: Machine)
    requires !m.call.aborted
    ensures Syscall(env, m).0.call.done && !Syscall(env, m).0.call.aborted
  {
  }

  // ----- alter -----

  /** The bytes that a call would pass to the system now. */
  function Current(c: CallData): seq<Byte>
    requires WithinBuffer(c)
  {
    BlockBytes(c, ReadBuffer(c).block)[ReadBuffer(c).off..ReadBuffer(c).off + ReadLength(c)]
  }

  /** `b` is `a` with at most the bits inverted that `alter` may invert in so many bytes, and as many
      modulo two as bits were flipped. */
  predicate AlteredFrom(a: seq<Byte>, b: seq<Byte>, p: Proportion, flips: nat) {
    && |a| == |b|
    && Hamming(a, b) * 1_000_000 <= 16 * (p * |a|)
    && Hamming(a, b) <= flips && Hamming(a, b) % 2 == flips % 2
  }

  lemma {:induction false} HammingAppend(a: seq<Byte>, b: seq<Byte>, tail: seq<Byte>)
    requires |a| == |b|
    ensures Hamming(a + tail, b + tail) == Hamming(a, b)
  {
    if a == [] {
      assert a + tail == tail && b + tail == tail;
      HammingSelf(tail);
    } else {
      assert (a + tail)[1..] == a[1..] + tail && (b + tail)[1..] == b[1..] + tail;
      HammingAppend(a[1..], b[1..], tail);
    }
  }

  /** The first bytes of a buffer, altered in place. */
  lemma AlteredPrefix(bytes: seq<Byte>, n: nat, length: nat, p: Proportion, rand: Random, k: nat)
    requires length <= n <= |bytes|
    ensures var r := Altered(bytes, length, p, rand, k);
            && AlteredFrom(bytes[..n], r[..n], p, |Plan(0, length, p, rand, k)|) && r[n..] == bytes[n..]
  {
    AlterationIsBounded(bytes, length, p, rand, k);
    HammingSelf(bytes);
    FlipAllMoves(bytes, bytes, Plan(0, length, p, rand, k));
    hide Hamming, Plan, FlipAll;
    var r := Altered(bytes, length, p, rand, k);
    assert r[n..] == r[length..][n - length..] && bytes[n..] == bytes[length..][n - length..];
    HammingAppend(bytes[..n], r[..n], bytes[n..]);
    assert bytes == bytes[..n] + bytes[n..] && r == r[..n] + bytes[n..];
    MoreBytes(p, length, n);
  }

  lemma MoreBytes(p: nat, a: nat, b: nat)
    requires a <= b
    ensures p * a <= p * b
  {
  }

  /** The number of bits flipped: every draw but one for each batch of 1024 bytes. */
  function Flips(m: Machine, m': Machine, length: nat): int {
    m'.world.draws - m.world.draws - (length + 1023) / 1024
  }

  /** The length that the loop over the buffer sees. */
  function LoopLength(len: nat): nat {
    if AsInt(len) <= 0 then 0 else AsInt(len)
  }

  lemma LoopLengthIs(len: nat)
    ensures LoopLength(len) <= len && (len < 0x8000_0000 ==> LoopLength(len) == len)
  {
  }

  /** A write that is altered, and has no buffer of its own yet: what will be passed to the system has
      the length of the caller's bytes and differs from them in a bounded number of bits only; the
      caller's buffer itself, and everything else of the call, is left alone. */
  lemma AlterOfWrite(env: Env, m: Machine, p: Proportion)
    requires m.call.direction.Writing? && !m.call.done && m.call.buf == Null && m.call.origLen <= |m.call.orig|
    ensures var (r, ok) := PerformAlter(env, m, p);
            && ok && WithinBuffer(r.call) && |Current(r.call)| == m.call.origLen
            && 0 <= Flips(m, r, LoopLength(m.call.origLen))
            && AlteredFrom(m.call.orig[..m.call.origLen], Current(r.call), p, Flips(m, r, LoopLength(m.call.origLen)))
            && r.call == m.call.(copy := r.call.copy, buf := r.call.buf, len := r.call.len) && r.call.buf != Null
            && r.world == m.world.(draws := r.world.draws) && r.sock == m.sock
  {
    hide Altered, NextDraw, AlteredFrom, LoopLength, PerformAlter, Current, WithinBuffer;
    LoopLengthIs(m.call.origLen);
    CopyIsAltered(env, m, p);
    AlteredBytes(m.call.orig[..m.call.origLen], LoopLength(m.call.origLen), p, env.rand, m.world.draws);
    CopyIsCurrent(PerformAlter(env, m, p).0.call, m.call.origLen);
  }

  /** All the bytes there are, altered; the number of flips by the draws. */
  lemma AlteredBytes(bytes: seq<Byte>, length: nat, p: Proportion, rand: Random, k: nat)
    requires length <= |bytes|
    ensures var flips := NextDraw(length, p, rand, k) - k - (length + 1023) / 1024;
            0 <= flips && AlteredFrom(bytes, Altered(bytes, length, p, rand, k), p, flips)
  {
    AlteredPrefix(bytes, |bytes|, length, p, rand, k);
    PlanCount(0, length, p, rand, k);
    var r := Altered(bytes, length, p, rand, k);
    assert bytes[..|bytes|] == bytes && r[..|bytes|] == r;
    hide Altered, NextDraw, Plan, AlteredFrom;
  }

  lemma CopyIsCurrent(c: CallData, n: nat)
    requires c.buf == At(Copy, 0) && c.len == n == |c.copy|
    ensures WithinBuffer(c) && Current(c) == c.copy
  {
  }

  lemma CopyIsAltered(env: Env, m: Machine, p: Proportion)
    requires m.call.direction.Writing? && !m.call.done && m.call.buf == Null && m.call.origLen <= |m.call.orig|
    ensures var n := m.call.origLen;
            var length := LoopLength(n);
            length <= n
            && PerformAlter(env, m, p) == (Machine(m.world.(draws := NextDraw(length, p, env.rand, m.world.draws)),
                                                   m.call.(copy := Altered(m.call.orig[..n], length, p, env.rand, m.world.draws), buf := At(Copy, 0), len := n),
                                                   m.sock), true)
  {
    hide Altered, NextDraw, AsInt, LoopLength;
    LoopLengthIs(m.call.origLen);
    LoopIs(m.call.origLen, m.call.orig[..m.call.origLen]);
    assert PrepareBuffer(m.call).copy == m.call.orig[..m.call.origLen];
  }

  lemma LoopIs(n: nat, bytes: seq<Byte>)
    requires |bytes| >= n
    ensures (if AsInt(n) <= 0 then 0 else Min(AsInt(n), |bytes|)) == LoopLength(n)
  {
    LoopLengthIs(n);
  }

  /** `alter` on a write: one system call is made, for as many bytes, and what it moves are the first
      bytes of an altered copy; the caller's buffer is left alone. */
  lemma WritesAreAltered(env: Env, rules: Rules, w: World, sock: SocketData, input: Input, i: nat, n: nat) returns (sent: seq<Byte>, flips: nat)
    requires OnlyRule(env, rules, w, sock, input, i) && 1 <= n && rules[i].value.task.DoAlter? && input.direction.Writing?
    ensures AlteredFrom(input.bytes[..input.len], sent, rules[i].value.task.proportion, flips)
    ensures var m := ProcessCall(env, rules, w, sock, input, n);
            && AsksOnce(w, m.world, input.len)
            && Answers(ReplyAt(env, |w.calls|), input.len, m.call.result, m.call.err)
            && m.call.orig == input.bytes
            && (0 <= m.call.result <= |sent| ==> m.world.calls[|w.calls|].moved == sent[..m.call.result])
  {
    OnlyRuleRuns(env, rules, w, sock, input, i, n);
    NewIsUntouched(w, sock, input, |rules|);
    var m := Found(w, sock, input, |rules|);
    var p := rules[i].value.task.proportion;
    hide OnlyRule, ProcessCall, NewCall;
    AlterOfWrite(env, m, p);
    var r := PerformAlter(env, m, p).0;
    sent, flips := Current(r.call), Flips(m, r, LoopLength(input.len));
    hide PerformAlter, AlteredFrom, Flips, LoopLength;
    SendsCurrent(env, r);
  }

  /** The system call of a write passes the current bytes on. */
  lemma SendsCurrent(env: Env, m: Machine)
    requires m.call.direction.Writing? && WithinBuffer(m.call) && !m.call.done && !m.call.aborted
    ensures var f := Finish(env, m);
            && AsksOnce(m.world, f.world, ReadLength(m.call)) && Answers(ReplyAt(env, |m.world.calls|), ReadLength(m.call), f.call.result, f.call.err)
            && f.call.orig == m.call.orig
            && (0 <= f.call.result <= ReadLength(m.call) ==> f.world.calls[|m.world.calls|].moved == Current(m.call)[..f.call.result])
  {
    MovesCurrent(env, m);
    hide Invoke, Current, BlockBytes;
  }

  lemma MovesCurrent(env: Env, m: Machine)
    requires m.call.direction.Writing? && WithinBuffer(m.call)
    ensures var r := Invoke(env, m);
            && Answers(ReplyAt(env, |m.world.calls|), ReadLength(m.call), r.call.result, r.call.err)
            && (0 <= r.call.result ==> r.world.calls[|m.world.calls|].moved == Current(m.call)[..r.call.result])
  {
    var bytes, off, n := BlockBytes(m.call, ReadBuffer(m.call).block), ReadBuffer(m.call).off, ReadLength(m.call);
    var result := Invoke(env, m).call.result;
    if 0 <= result {
      FetchIsPart(bytes, off, n, result);
    }
    hide Fetch, BlockBytes, ReadBuffer, ReadLength;
  }

  lemma FetchIsPart(bytes: seq<Byte>, off: nat, n: nat, k: nat)
    requires off + n <= |bytes| && k <= n
    ensures Fetch(bytes, off, k) == bytes[off..off + n][..k]
  {
  }

  /** `alter` on a read: the system is asked as usual; what the program gets are the bytes that the
      system gave, altered, and nothing behind them is touched. */
  lemma ReadsAreAltered(env: Env, rules: Rules, w: World, sock: SocketData, input: Input, i: nat, n: nat) returns (given: seq<Byte>, flips: nat)
    requires OnlyRule(env, rules, w, sock, input, i) && 1 <= n && rules[i].value.task.DoAlter? && input.direction.Reading?
    ensures var m := ProcessCall(env, rules, w, sock, input, n);
            && AsksOnce(w, m.world, input.len)
            && Answers(ReplyAt(env, |w.calls|), input.len, m.call.result, m.call.err)
            && Receives(input.bytes, given, ReplyAt(env, |w.calls|), m.call.result)
            && var k := if m.call.result < 0 then 0 else m.call.result;
               && k <= |given| == |m.call.orig|
               && AlteredFrom(given[..k], m.call.orig[..k], rules[i].value.task.proportion, flips) && m.call.orig[k..] == given[k..]
  {
    OnlyRuleRuns(env, rules, w, sock, input, i, n);
    NewIsUntouched(w, sock, input, |rules|);
    var m := Found(w, sock, input, |rules|);
    var p := rules[i].value.task.proportion;
    hide OnlyRule, ProcessCall, NewCall, Found, Perform;
    PerformIsAlter(env, m, i, p);
    given, flips := AlterOfRead(env, m, w, input, p);
  }

  lemma PerformIsAlter(env: Env, m: Machine, pos: nat, p: Proportion)
    requires HasTables(m)
    ensures Perform(env, m, pos, DoAlter(p)) == PerformAlter(env, m, p)
  {
  }

  /** A read that is altered: the system call, and then the alteration of what it gave. */
  lemma AlterOfRead(env: Env, m: Machine, w: World, input: Input, p: Proportion) returns (given: seq<Byte>, flips: nat)
    requires Untouched(m, w, input, input.len) && input.direction.Reading? && input.len <= |input.bytes|
    ensures var f := Finish(env, PerformAlter(env, m, p).0);
            && AsksOnce(w, f.world, input.len)
            && Answers(ReplyAt(env, |w.calls|), input.len, f.call.result, f.call.err)
            && Receives(input.bytes, given, ReplyAt(env, |w.calls|), f.call.result)
            && var k := if f.call.result < 0 then 0 else f.call.result;
               && k <= |given| == |f.call.orig|
               && AlteredFrom(given[..k], f.call.orig[..k], p, flips) && f.call.orig[k..] == given[k..]
  {
    PlainSyscall(env, m, w, input, input.len);
    var one := Syscall(env, m).0;
    ReadLeaves(env, m, w, input);
    given := one.call.orig;
    var k := one.call.len;
    var length := LoopLength(k);
    LoopLengthIs(k);
    flips := |Plan(0, length, p, env.rand, one.world.draws)|;
    AlteredPrefix(given, k, length, p, env.rand, one.world.draws);
    LoopIs(k, given);
    hide Syscall, AlteredFrom, Plan, Altered, NextDraw, LoopLength, AsInt, Receives, Answers, AsksOnce;
  }

  lemma ReadLeaves(env: Env, m: Machine, w: World, input: Input)
    requires Untouched(m, w, input, input.len) && input.direction.Reading? && input.len <= |input.bytes|
    ensures var r := Syscall(env, m).0;
            && r.call.buf == At(Own, 0) && r.call.done && !r.call.aborted && r.call.direction.Reading?
            && r.call.len == (if r.call.result < 0 then 0 else r.call.result) <= input.len && |r.call.orig| == |input.bytes|
  {
    hide Store;
  }

  // ----- split -----

  /** So many percent of a length, but one at least. */
  function PartOf(percent: Percent, len: nat): nat {
    if percent * len / 100 == 0 then 1 else percent * len / 100
  }

  lemma PartIs(percent: Percent, len: nat)
    requires 100 * len < SIZE_MODULUS
    ensures FirstPart(percent, len) == PartOf(percent, len) && (1 <= len ==> 1 <= PartOf(percent, len) <= len)
  {
    SplitWrites.ScaleDown(percent, len);
    ShareOf(percent * len, len);
  }

  lemma ShareOf(x: nat, len: nat)
    requires x <= 100 * len < SIZE_MODULUS
    ensures x % SIZE_MODULUS / 100 == x / 100 <= len
  {
  }

  lemma Unwrapped(x: nat)
    requires x < SIZE_MODULUS
    ensures x % SIZE_MODULUS == x
  {
  }

  /** A split read asks for that part only. Any call but a read or a write is as if the rule were not there. */
  lemma SplitReadsAPart(env: Env, rules: Rules, w: World, sock: SocketData, input: Input, i: nat, n: nat)
    requires OnlyRule(env, rules, w, sock, input, i) && 1 <= n && rules[i].value.task.Split? && !input.direction.Writing?
    requires 1 <= input.len && 100 * input.len < SIZE_MODULUS
    ensures var asked := if input.direction.Reading? then PartOf(rules[i].value.task.percent, input.len) else input.len;
            asked <= input.len && IsPlainCall(env, w, input, asked, ProcessCall(env, rules, w, sock, input, n))
  {
    OnlyRuleRuns(env, rules, w, sock, input, i, n);
    var percent := rules[i].value.task.percent;
    PartIs(percent, input.len);
    var m := Found(w, sock, input, |rules|);
    NewIsUntouched(w, sock, input, |rules|);
    hide OnlyRule, ProcessCall, NewCall, FirstPart, PartOf;
    if input.direction.Reading? {
      var part := m.(call := m.call.(len := PartOf(percent, input.len)));
      PlainSyscall(env, part, w, input, PartOf(percent, input.len));
    } else {
      PlainSyscall(env, m, w, input, input.len);
    }
    hide Syscall, Finish;
  }

  /** What the two writes of a split ask for and move: the first part, and the rest only if all of the first went through. */
  predicate WritesInTwo(env: Env, w: World, input: Input, first: nat, m: Machine)
    requires first <= input.len <= |input.bytes|
  {
    var k := |w.calls|;
    var calls := m.world.calls;
    var all := ReplyAt(env, k).Moved? && |ReplyAt(env, k).bytes| >= first;
    && k + 1 <= |calls| && calls[..k] == w.calls && m.call.orig == input.bytes
    && calls[k].asked == first
    && Answers(ReplyAt(env, k), first, calls[k].result, if all then ReplyAt(env, k).errno else m.call.err)
    && (0 <= calls[k].result <= first ==> calls[k].moved == input.bytes[..calls[k].result])
    && if !all then |calls| == k + 1 && m.call.result == calls[k].result
       else
         && |calls| == k + 2 && calls[k + 1].asked == input.len - first
         && Answers(ReplyAt(env, k + 1), input.len - first, calls[k + 1].result, m.call.err)
         && (0 <= calls[k + 1].result <= input.len - first ==> calls[k + 1].moved == input.bytes[first..first + calls[k + 1].result])
         && m.call.result == first + (if calls[k + 1].result == -1 then 0 else calls[k + 1].result)
  }

  /** A split write: the system is asked for the part, then for exactly the rest. */
  lemma SplitWritesInTwo(env: Env, rules: Rules, w: World, sock: SocketData, input: Input, i: nat, n: nat)
    requires OnlyRule(env, rules, w, sock, input, i) && 1 <= n && rules[i].value.task.Split? && input.direction.Writing?
    requires 2 <= input.len && 100 * input.len < SIZE_MODULUS
    ensures PartOf(rules[i].value.task.percent, input.len) <= input.len
    ensures WritesInTwo(env, w, input, PartOf(rules[i].value.task.percent, input.len), ProcessCall(env, rules, w, sock, input, n))
  {
    OnlyRuleRuns(env, rules, w, sock, input, i, n);
    var percent := rules[i].value.task.percent;
    PartIs(percent, input.len);
    var m := Found(w, sock, input, |rules|);
    NewIsUntouched(w, sock, input, |rules|);
    var first := PartOf(percent, input.len);
    SplitIsTwoWrites(env, m, w, input, percent, i);
    hide OnlyRule, ProcessCall, NewCall, FirstPart, PartOf, Perform, Untouched, Found;
    TwoWrites(env, m, w, input, first);
    hide SplitWrite, WritesInTwo;
    TwoIgnoreLines(env, w, input, first, SplitWrite(env, m, first), ProcessCall(env, rules, w, sock, input, n));
  }

  lemma TwoIgnoreLines(env: Env, w: World, input: Input, first: nat, m: Machine, m': Machine)
    requires first <= input.len <= |input.bytes| && WritesInTwo(env, w, input, first, m) && SameButLines(m, m')
    ensures WritesInTwo(env, w, input, first, m')
  {
    hide Answers;
  }

  lemma SplitIsTwoWrites(env: Env, m: Machine, w: World, input: Input, percent: Percent, pos: nat)
    requires HasTables(m) && Untouched(m, w, input, input.len) && input.direction.Writing? && 2 <= input.len
    ensures Perform(env, m, pos, Split(percent)).0 == SplitWrite(env, m, FirstPart(percent, input.len))
  {
    hide SplitWrite, FirstPart;
  }

  /** One write of the `asked` bytes from `off` of the caller's buffer. */
  lemma OneWrite(env: Env, m: Machine, input: Input, off: nat, asked: nat)
    requires m.call.direction.Writing? && m.call.orig == input.bytes && m.call.buf == At(Own, off) && m.call.len == asked
    requires off + asked <= |input.bytes| && !m.call.aborted
    ensures var r := Syscall(env, m).0;
            && AsksOnce(m.world, r.world, asked) && r.world.calls[|m.world.calls|].result == r.call.result
            && Answers(ReplyAt(env, |m.world.calls|), asked, r.call.result, r.call.err)
            && (0 <= r.call.result <= asked ==> r.world.calls[|m.world.calls|].moved == input.bytes[off..off + r.call.result])
            && r.call.orig == input.bytes && r.call.done && !r.call.aborted && r.call.direction.Writing?
  {
    MovesCurrent(env, m);
    if 0 <= Invoke(env, m).call.result <= asked {
      assert input.bytes[off..off + asked][..Invoke(env, m).call.result] == input.bytes[off..off + Invoke(env, m).call.result];
    }
    hide Invoke;
  }

  lemma TwoWrites(env: Env, m: Machine, w: World, input: Input, first: nat)
    requires Untouched(m, w, input, input.len) && input.direction.Writing? && 1 <= first <= input.len <= |input.bytes| && input.len < SIZE_MODULUS
    ensures var r := SplitWrite(env, m, first);
            WritesInTwo(env, w, input, first, r) && r.call.done && !r.call.aborted
  {
    hide Syscall, Answers;
    var start := m.(call := m.call.(buf := At(Own, 0), len := first));
    OneWrite(env, start, input, 0, first);
    var m1 := Syscall(env, start).0;
    Unwrapped(input.len - first);
    AllOrLess(ReplyAt(env, |w.calls|), first, m1.call.result, m1.call.err);
    if m1.call.result == first {
      var rest := m1.(call := m1.call.(done := false, buf := At(Own, first), len := input.len - first));
      OneWrite(env, rest, input, first, input.len - first);
    }
  }

  lemma AllOrLess(reply: Reply, asked: nat, result: int, err: int)
    requires Answers(reply, asked, result, err)
    ensures result == asked <==> reply.Moved? && |reply.bytes| >= asked
    ensures reply.Moved? ==> err == reply.errno
  {
  }
}
