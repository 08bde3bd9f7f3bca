/** No run asks the system call for more than the caller did, and a write never
    touches the caller's own buffer. */
module Lengths {
  import opened Alter
  import opened Call
  import opened Queue
  import SplitWrites

  predicate AskedWithin(w: World, k: nat, n: nat) {
    SplitWrites.AskedWithin(w.calls, k, n)
  }

  /** Between two rules of a call of `n` bytes that started after `k` system calls,
      on a caller's buffer that held `orig`. `splits` says whether the rules split calls. */
  predicate Bounded(m: Machine, k: nat, n: nat, orig: seq<Byte>, splits: bool) {
    var c := m.call;
    && n <= |orig| && n < SIZE_MODULUS
    && k <= |m.world.calls| && AskedWithin(m.world, k, n)
    && |c.orig| == |orig| && (!c.direction.Reading? ==> c.orig == orig)
    && c.origLen <= n && ReadLength(c) <= n
    && -1 <= c.result <= n
    && (if c.direction.Reading? then c.buf == At(Own, 0) else c.buf == Null || c.buf == At(Copy, 0))
    && ReadLength(c) <= |BlockBytes(c, ReadBuffer(c).block)|
    && (splits && CarriesData(c.direction) && !c.done && !c.aborted ==> 1 <= ReadLength(c))
  }

  /** A task that may be run when the rules split calls, or when they do not. */
  predicate Allowed(task: Task, splits: bool) {
    if splits then task.Truncate? ==> AsSize(task.size) != 0 else !task.Split?
  }

  lemma AskedMore(w: World, w': World, k: nat, n: nat)
    requires AskedWithin(w, k, n) && k <= |w.calls| <= |w'.calls| && w'.calls[..|w.calls|] == w.calls
    requires AskedWithin(w', |w.calls|, n)
    ensures AskedWithin(w', k, n)
  {
    forall i | k <= i < |w'.calls| ensures w'.calls[i].asked <= n {
      if i < |w.calls| {
        assert w'.calls[i] == w'.calls[..|w.calls|][i];
      }
    }
  }

  lemma SyscallBounded(env: Env, m: Machine, k: nat, n: nat, orig: seq<Byte>, splits: bool)
    requires Bounded(m, k, n, orig, splits)
    ensures Bounded(Syscall(env, m).0, k, n, orig, splits)
  {
    hide Invoke;
    if !m.call.aborted {
      AskedMore(m.world, Invoke(env, m).world, k, n);
    }
  }

  lemma SplitBounded(env: Env, m: Machine, percent: Percent, k: nat, n: nat, orig: seq<Byte>)
    requires Bounded(m, k, n, orig, true)
    ensures Bounded(PerformSplit(env, m, percent).0, k, n, orig, true)
  {
    hide Syscall, Share, SplitWrite, Fetch, Store;
    var c := m.call;
    if !c.done && !c.aborted && CarriesData(c.direction) {
      var len := ReadLength(c);
      SplitWrites.ShareBound(percent, c.len);
      if c.direction.Reading? {
        SyscallBounded(env, m.(call := c.(len := FirstPart(percent, c.len))), k, n, orig, true);
      } else {
        SplitWrites.SplitDelivers(env, m, percent, len);
        var r := PerformSplit(env, m, percent).0;
        hide PerformSplit, SplitWrites.Delivered;
        AskedMore(m.world, r.world, k, n);
      }
    }
  }

  lemma AlterBounded(env: Env, m: Machine, p: Proportion, k: nat, n: nat, orig: seq<Byte>, splits: bool)
    requires Bounded(m, k, n, orig, splits)
    ensures Bounded(PerformAlter(env, m, p).0, k, n, orig, splits)
  {
    hide Syscall, Altered, NextDraw, AsInt;
    if m.call.direction.Reading? && !m.call.done {
      SyscallBounded(env, m, k, n, orig, splits);
    }
  }

  lemma TruncateBounded(m: Machine, size: int, k: nat, n: nat, orig: seq<Byte>, splits: bool)
    requires Bounded(m, k, n, orig, splits) && Allowed(Truncate(size), splits)
    ensures Bounded(PerformTruncate(m, size).0, k, n, orig, splits)
  {
    hide AsSize;
  }

  lemma TaskBounded(env: Env, m: Machine, pos: nat, task: Task, k: nat, n: nat, orig: seq<Byte>, splits: bool)
    requires HasTables(m) && Bounded(m, k, n, orig, splits) && Allowed(task, splits)
    ensures Bounded(Perform(env, m, pos, task).0, k, n, orig, splits)
  {
    hide Syscall, PerformSplit, PerformAlter, PerformTruncate, Light.Put, AsSize;
    match task
    case DoSyscall => SyscallBounded(env, m, k, n, orig, splits);
    case LocalHang(ms) => SyscallBounded(env, m, k, n, orig, splits);
    case Split(percent) => SplitBounded(env, m, percent, k, n, orig);
    case DoAlter(p) => AlterBounded(env, m, p, k, n, orig, splits);
    case Truncate(size) => TruncateBounded(m, size, k, n, orig, splits);
    case _ =>
  }

  /** No rule splits calls, or none truncates them to nothing. */
  ghost predicate AllAllowed(rules: Rules, splits: bool) {
    forall i {:trigger IsRule(rules, i)} :: IsRule(rules, i) ==> Allowed(rules[i].value.task, splits)
  }

  lemma ProcessBounded(env: Env, m: Machine, pos: nat, task: Task, k: nat, n: nat, orig: seq<Byte>, splits: bool)
    requires HasTables(m) && Bounded(m, k, n, orig, splits) && Allowed(task, splits)
    ensures Bounded(ActionProcess(env, m, pos, task).0, k, n, orig, splits)
  {
    hide Perform;
    TaskBounded(env, m, pos, task, k, n, orig, splits);
    if m.call.direction.Reading? {
      TaskBounded(env, m.(sock := m.sock.(hanging := false)), pos, task, k, n, orig, splits);
    }
  }

  lemma StepBounded(env: Env, rules: Rules, st: State, k: nat, n: nat, orig: seq<Byte>, splits: bool)
    requires Ready(rules, st) && st.at.Some? && Bounded(st.m, k, n, orig, splits) && AllAllowed(rules, splits)
    ensures Bounded(Step(env, rules, st).m, k, n, orig, splits)
  {
    hide ActionProcess, GetMatch, GetFrom, Light.Contains, Light.Put;
    var pos := st.at.value;
    assert IsRule(rules, pos);
    ProcessBounded(env, st.m, pos, rules[pos].value.task, k, n, orig, splits);
  }

  lemma {:induction false} RunBounded(env: Env, rules: Rules, st: State, rounds: nat, k: nat, n: nat, orig: seq<Byte>, splits: bool)
    requires Ready(rules, st) && Bounded(st.m, k, n, orig, splits) && AllAllowed(rules, splits)
    ensures Bounded(Run(env, rules, st, rounds).m, k, n, orig, splits)
    decreases rounds
  {
    hide Step, Bounded, AllAllowed;
    if rounds > 0 && st.at.Some? {
      StepBounded(env, rules, st, k, n, orig, splits);
      RunBounded(env, rules, Step(env, rules, st), rounds - 1, k, n, orig, splits);
    }
  }

  /** A call on which the rules keep within bounds: they do not split, or the call
      is for at least a byte and they do not truncate to nothing. */
  ghost predicate Safe(rules: Rules, input: Input) {
    && input.len <= |input.bytes| && input.len < SIZE_MODULUS
    && (AllAllowed(rules, false) || ((CarriesData(input.direction) ==> 1 <= input.len) && AllAllowed(rules, true)))
  }

  lemma BeginBounded(env: Env, rules: Rules, w: World, sock: SocketData, input: Input, splits: bool)
    requires 0 < |sock.lines.slots| && 0 < |rules|
    requires input.len <= |input.bytes| && input.len < SIZE_MODULUS
    requires splits && CarriesData(input.direction) ==> 1 <= input.len
    ensures var e := Begin(env, rules, w, sock, input);
            Bounded(if e.Entered? then e.st.m else e.m, |w.calls|, input.len, input.bytes, splits && e.Entered?)
  {
    hide GetMatch;
    var m := Machine(w, NewCall(input, |rules|), sock);
    assert Bounded(m, |w.calls|, input.len, input.bytes, splits);
    hide Light.Empty, Fetch, Store, Invoke;
  }

  /** Through any run of the rules, every length passed to the system call and the
      result are at most the original length, and unless reading the caller's own
      buffer is unchanged. */
  lemma LengthsStayBounded(env: Env, rules: Rules, w: World, sock: SocketData, input: Input, rounds: nat)
    requires 0 < |sock.lines.slots| && 0 < |rules| && Safe(rules, input)
    ensures var m := ProcessCall(env, rules, w, sock, input, rounds);
            && AskedWithin(m.world, |w.calls|, input.len)
            && -1 <= m.call.result <= input.len
            && (!input.direction.Reading? ==> m.call.orig == input.bytes)
  {
    var splits := !AllAllowed(rules, false);
    BeginBounded(env, rules, w, sock, input, splits);
    BeginDirection(env, rules, w, sock, input);
    var e := Begin(env, rules, w, sock, input);
    if e.Entered? {
      RunBounded(env, rules, e.st, rounds, |w.calls|, input.len, input.bytes, splits);
      RunDirection(env, rules, e.st, rounds);
      var m := Run(env, rules, e.st, rounds).m;
      SyscallBounded(env, m, |w.calls|, input.len, input.bytes, splits);
      SyscallFrame(env, m);
      hide Run, Syscall;
    }
  }

  lemma BeginDirection(env: Env, rules: Rules, w: World, sock: SocketData, input: Input)
    requires 0 < |sock.lines.slots| && 0 < |rules|
    ensures var e := Begin(env, rules, w, sock, input);
            (if e.Entered? then e.st.m else e.m).call.direction == input.direction
  {
    hide GetMatch, Light.Empty, Invoke;
  }

  lemma {:induction false} RunDirection(env: Env, rules: Rules, st: State, rounds: nat)
    requires Ready(rules, st)
    ensures Run(env, rules, st, rounds).m.call.direction == st.m.call.direction
    decreases rounds
  {
    if rounds > 0 && st.at.Some? {
      StepDirection(env, rules, st);
      hide Step;
      RunDirection(env, rules, Step(env, rules, st), rounds - 1);
    }
  }

  lemma StepDirection(env: Env, rules: Rules, st: State)
    requires Ready(rules, st) && st.at.Some?
    ensures Step(env, rules, st).m.call.direction == st.m.call.direction
  {
    hide ActionProcess, GetMatch, GetFrom, Light.Contains, Light.Put;
    TaskLines(env, st.m, st.at.value, rules[st.at.value].value.task);
  }
}
