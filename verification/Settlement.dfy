/** How a call ends: exactly one of done and aborted, and whether the system call was made. */
module Settlement {
  import opened Call
  import opened Queue

  /** Between two rules of a call that started after `k` system calls. */
  predicate Consistent(m: Machine, k: nat) {
    && !(m.call.done && m.call.aborted)
    && (m.call.done <==> |m.world.calls| > k)
    && k <= |m.world.calls|
    && (m.call.result == -1 ==> m.call.done || m.call.aborted)
  }

  lemma SyscallSettles(env: Env, m: Machine, k: nat)
    requires Consistent(m, k)
    ensures Consistent(Syscall(env, m).0, k)
    ensures !m.call.aborted ==> Syscall(env, m).0.call.done
  {
    hide Invoke;
  }

  lemma SplitSettles(env: Env, m: Machine, percent: Percent, k: nat)
    requires Consistent(m, k)
    ensures Consistent(PerformSplit(env, m, percent).0, k)
  {
    hide Invoke, Share;
  }

  lemma AlterSettles(env: Env, m: Machine, p: Alter.Proportion, k: nat)
    requires Consistent(m, k)
    ensures Consistent(PerformAlter(env, m, p).0, k)
  {
    hide Invoke, Alter.Altered, Alter.NextDraw, Fetch;
  }

  lemma TaskSettles(env: Env, m: Machine, pos: nat, task: Task, k: nat)
    requires HasTables(m) && Consistent(m, k)
    ensures Consistent(ActionProcess(env, m, pos, task).0, k)
  {
    hide Syscall, PerformSplit, PerformAlter, Light.Put;
    var m0 := if m.call.direction.Reading? then m.(sock := m.sock.(hanging := false)) else m;
    SyscallSettles(env, m, k);
    SyscallSettles(env, m0, k);
    if task.Split? {
      SplitSettles(env, m, task.percent, k);
      SplitSettles(env, m0, task.percent, k);
    }
    if task.DoAlter? {
      AlterSettles(env, m, task.proportion, k);
      AlterSettles(env, m0, task.proportion, k);
    }
  }

  /** A call is not made again: once it is aborted no task makes a system call, and once it is made only `syscall` does. */
  lemma SettledIsNotRepeated(env: Env, m: Machine, pos: nat, task: Task)
    requires HasTables(m) && (m.call.aborted || (m.call.done && !task.DoSyscall?))
    ensures ActionProcess(env, m, pos, task).0.world.calls == m.world.calls
  {
    hide Invoke, SplitWrite, Light.Put, Fetch, Alter.Altered, Alter.NextDraw;
  }

  lemma StepSettles(env: Env, rules: Rules, st: State, k: nat)
    requires Ready(rules, st) && st.at.Some? && Consistent(st.m, k)
    ensures Consistent(Step(env, rules, st).m, k)
  {
    hide ActionProcess, GetMatch, GetFrom, Light.Contains, Light.Put;
    TaskSettles(env, st.m, st.at.value, rules[st.at.value].value.task, k);
  }

  lemma {:induction false} RunSettles(env: Env, rules: Rules, st: State, n: nat, k: nat)
    requires Ready(rules, st) && Consistent(st.m, k)
    ensures Consistent(Run(env, rules, st, n).m, k)
    decreases n
  {
    hide Step, Consistent;
    if n > 0 && st.at.Some? {
      StepSettles(env, rules, st, k);
      RunSettles(env, rules, Step(env, rules, st), n - 1, k);
    }
  }

  /** Once a rule matches, a call whose loop has ended has exactly one of done and
      aborted; it is aborted exactly when the system call was never made in it. */
  lemma CallSettles(env: Env, rules: Rules, w: World, sock: SocketData, input: Input, n: nat)
    requires 0 < |sock.lines.slots| && 0 < |rules|
    requires Begin(env, rules, w, sock, input).Entered?
    ensures var m := ProcessCall(env, rules, w, sock, input, n);
            && m.call.done != m.call.aborted
            && (m.call.aborted ==> |m.world.calls| == |w.calls|)
            && (m.call.done ==> |m.world.calls| > |w.calls|)
  {
    var st := Begin(env, rules, w, sock, input).st;
    RunSettles(env, rules, st, n, |w.calls|);
    SyscallSettles(env, Run(env, rules, st, n).m, |w.calls|);
    hide Run, Syscall;
  }

  /** A result of -1 never stands, at any point of the loop, in a call that is neither done nor aborted. */
  lemma FailureIsSettled(env: Env, rules: Rules, w: World, sock: SocketData, input: Input, n: nat)
    requires 0 < |sock.lines.slots| && 0 < |rules|
    requires Begin(env, rules, w, sock, input).Entered?
    ensures var m := Run(env, rules, Begin(env, rules, w, sock, input).st, n).m;
            m.call.result == -1 ==> m.call.done != m.call.aborted
  {
    RunSettles(env, rules, Begin(env, rules, w, sock, input).st, n, |w.calls|);
  }
}
