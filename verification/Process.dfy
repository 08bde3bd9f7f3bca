/** The interpreter as the program runs it: the state of the call and of the socket
    updated in place, the buffers and the tables of completed lines on the heap. Each
    method is proved to compute the function of modules Call and Queue it stands for. */
module Process {
  import opened Options
  import opened Alter
  import opened Light
  import opened Call
  import opened Queue
  import Lengths
  import SplitWrites
  import Termination

  /** The outside world, and what has been asked of it. */
  class Kernel {
    const env: Env
    var calls: seq<Invocation>
    var searches: nat
    var clocks: nat
    var draws: nat

    constructor (env: Env)
      ensures this.env == env && Model() == World([], 0, 0, 0)
    {
      this.env := env;
      calls, searches, clocks, draws := [], 0, 0, 0;
    }

    ghost function Model(): World
      reads this
    {
      World(calls, searches, clocks, draws)
    }

    method Now() returns (t: nat)
      modifies this
      ensures t == TimeAt(env, old(clocks))
      ensures Model() == old(Model()).(clocks := old(clocks) + 1)
    {
      t := TimeAt(env, clocks);
      clocks := clocks + 1;
    }
  }

  class SocketState {
    const lines: LigHT<()>
    var hanging: bool
    var msec: nat
    var pos: nat

    ghost function Model(): SocketData
      reads this, lines, lines.data
    {
      SocketData(lines.Model(), hanging, msec, pos)
    }

    constructor (capacity: nat)
      ensures fresh(lines) && fresh(lines.data)
      ensures Model() == NewSocket(capacity)
    {
      lines := new LigHT<()>(capacity);
      hanging, msec, pos := false, 0, 0;
    }
  }

  class CallState {
    const direction: Direction
    const blocking: bool
    const origBuf: array<Byte>
    const lines: LigHT<()>
    var copyBuf: array<Byte>
    var origLen: nat
    var buf: Pointer
    var len: nat
    var aborted: bool
    var done: bool
    var err: int
    var result: int

    ghost function Model(): CallData
      reads this, origBuf, copyBuf, lines, lines.data
    {
      CallData(direction, blocking, origBuf[..], origLen, buf, len, copyBuf[..], aborted, done, lines.Model(), err, result)
    }

    constructor (direction: Direction, blocking: bool, buf: array<Byte>, len: nat, errno: int, capacity: nat)
      ensures origBuf == buf && fresh(copyBuf) && fresh(lines) && fresh(lines.data) && lines.data.Length == capacity
      ensures Model() == NewCall(Input(direction, blocking, buf[..], len, errno), capacity)
    {
      this.direction := direction;
      this.blocking := blocking;
      origBuf := buf;
      origLen := len;
      copyBuf := new Byte[0];
      if direction == Writing {
        this.buf := Null;
        this.len := 0;
      } else {
        this.buf := if direction == Reading then At(Own, 0) else Null;
        this.len := len;
      }
      aborted, done, err, result := false, false, errno, 0;
      lines := new LigHT<()>(capacity);
    }
  }

  lemma SyscallStaysWithin(env: Env, m: Machine)
    requires WithinBuffer(m.call)
    ensures WithinBuffer(Syscall(env, m).0.call) && Syscall(env, m).0.call.buf == m.call.buf
  {
    hide Invoke;
  }

  lemma SyscallOnWrite(env: Env, m: Machine)
    requires m.call.direction.Writing? && !m.call.aborted
    ensures var c := Syscall(env, m).0.call;
            c.direction.Writing? && !c.aborted && c.orig == m.call.orig && c.copy == m.call.copy
  {
    hide Invoke;
  }

  lemma PrepareStaysWithin(c: CallData)
    requires WithinBuffer(c)
    ensures WithinBuffer(PrepareBuffer(c))
  {
  }

  lemma BoundedWithin(m: Machine, k: nat, n: nat, orig: seq<Byte>, splits: bool)
    requires Lengths.Bounded(m, k, n, orig, splits)
    ensures WithinBuffer(m.call) && (m.call.buf.At? ==> m.call.buf.off == 0)
  {
  }

  lemma IntBound(n: nat)
    ensures AsInt(n) <= n
  {
  }

  lemma StoreNothing(bytes: seq<Byte>, off: nat)
    ensures Store(bytes, off, []) == bytes
  {
  }

  method StoreInto(block: array<Byte>, off: nat, data: seq<Byte>)
    requires off + |data| <= block.Length
    modifies block
    ensures block[..] == Store(old(block[..]), off, data)
  {
    forall i | 0 <= i < |data| {
      block[off + i] := data[i];
    }
  }

  method Taken(block: array<Byte>, off: nat, n: nat) returns (data: seq<Byte>)
    requires off + n <= block.Length
    ensures data == Fetch(block[..], off, n)
  {
    data := block[off..off + n];
  }

  /** A call in progress on a socket. */
  class Engine {
    const kernel: Kernel
    const call: CallState
    const sock: SocketState

    ghost function Repr(): set<object>
      reads call, call.lines, sock.lines
    {
      {kernel, call, sock, call.origBuf, call.copyBuf, call.lines, call.lines.data, sock.lines, sock.lines.data}
    }

    ghost function Buffers(): set<object>
      reads call
    {
      {call.origBuf, call.copyBuf}
    }

    ghost predicate Valid()
      reads call, call.lines, sock.lines
    {
      && call.origBuf != call.copyBuf
      && call.lines != sock.lines && call.lines.data != sock.lines.data
      && (call.lines.data as object) !in Buffers() && (sock.lines.data as object) !in Buffers()
      && 0 < call.lines.data.Length && 0 < sock.lines.data.Length
    }

    ghost function Model(): Machine
      reads Repr()
    {
      Machine(kernel.Model(), call.Model(), sock.Model())
    }

    ghost predicate InBounds()
      reads Repr()
    {
      WithinBuffer(call.Model())
    }

    constructor (kernel: Kernel, call: CallState, sock: SocketState)
      ensures this.kernel == kernel && this.call == call && this.sock == sock
    {
      this.kernel, this.call, this.sock := kernel, call, sock;
    }

    /** The system call itself, with the scripted answer. */
    method Callback(p: Pointer, asked: nat) returns (result: int, errno: int)
      requires Valid() && p.At? && p == ReadBuffer(call.Model()) && asked == ReadLength(call.Model()) && InBounds()
      modifies kernel, call.origBuf, call.copyBuf
      ensures Valid() && call.copyBuf == old(call.copyBuf)
      ensures Model().(call := call.Model().(result := result, err := errno)) == Invoke(kernel.env, old(Model()))
    {
      var reply := ReplyAt(kernel.env, |kernel.calls|);
      result := if reply.Failed? then -1 else Min(|reply.bytes|, asked);
      errno := reply.errno;
      var moved: seq<Byte> := [];
      var block := if p.block == Own then call.origBuf else call.copyBuf;
      StoreNothing(block[..], p.off);
      if reply.Moved? && call.direction == Reading {
        moved := reply.bytes[..result];
        StoreInto(block, p.off, moved);
      } else if reply.Moved? && call.direction == Writing {
        moved := Taken(block, p.off, result);
      }
      hide Store, Fetch;
      kernel.calls := kernel.calls + [Invocation(asked, result, moved)];
    }

    method DoSyscall() returns (ok: bool)
      requires Valid() && InBounds()
      modifies kernel, call, call.origBuf, call.copyBuf
      ensures Valid() && call.copyBuf == old(call.copyBuf)
      ensures (Model(), ok) == Syscall(kernel.env, old(Model()))
    {
      hide Invoke;
      if call.aborted {
        return false;
      }
      var p := if call.buf == Null then At(Own, 0) else call.buf;
      var n := if call.buf == Null then call.origLen else call.len;
      var result, errno := Callback(p, n);
      call.result := result;
      call.err := errno;
      if call.result >= 0 {
        if call.buf != Null {
          call.len := call.result;
        }
        call.origLen := call.result;
      } else {
        if call.buf != Null {
          call.len := 0;
        }
        call.origLen := 0;
      }
      call.aborted := false;
      call.done := true;
      return true;
    }

    /** Two writes of `first` and of the remaining bytes; the buffer pointer and length are put back. */
    method DoSplitWrite(first: nat, ghost n: nat)
      requires Valid() && SplitWrites.AboutToWrite(call.Model(), n) && 1 <= first <= n
      modifies kernel, call, call.origBuf, call.copyBuf
      ensures Valid() && call.copyBuf == old(call.copyBuf)
      ensures Model() == SplitWrite(kernel.env, old(Model()), first)
    {
      hide Syscall, BlockBytes;
      var bufBackup, lenBackup := call.buf, call.len;
      var buf := if call.buf == Null then At(Own, 0) else call.buf;
      var len := if call.buf == Null then call.origLen else call.len;
      FirstSplitWrite(buf, first, len);
      if call.result == first {
        SecondSplitWrite(buf, first, len);
      }
      SetBuffer(bufBackup, lenBackup);
    }

    method FirstSplitWrite(buf: Pointer, first: nat, ghost len: nat)
      requires Valid() && buf.At? && 1 <= first <= len && call.direction.Writing? && !call.aborted
      requires buf.off + len <= |BlockBytes(call.Model(), buf.block)|
      modifies kernel, call, call.origBuf, call.copyBuf
      ensures Valid() && call.copyBuf == old(call.copyBuf) && !call.aborted
      ensures buf.off + len <= |BlockBytes(call.Model(), buf.block)|
      ensures Model() == Syscall(kernel.env, old(Model()).(call := old(call.Model()).(buf := buf, len := first))).0
    {
      hide Syscall;
      SetBuffer(buf, first);
      SyscallOnWrite(kernel.env, Model());
      var _ := DoSyscall();
    }

    method SetBuffer(buf: Pointer, len: nat)
      requires Valid()
      modifies call
      ensures Valid() && call.copyBuf == old(call.copyBuf)
      ensures Model() == old(Model()).(call := old(call.Model()).(buf := buf, len := len))
    {
      call.buf := buf;
      call.len := len;
    }

    method SecondSplitWrite(buf: Pointer, first: nat, len: nat)
      requires Valid() && buf.At? && 1 <= first <= len < SIZE_MODULUS && call.direction.Writing? && !call.aborted
      requires buf.off + len <= |BlockBytes(call.Model(), buf.block)|
      modifies kernel, call, call.origBuf, call.copyBuf
      ensures Valid() && call.copyBuf == old(call.copyBuf)
      ensures var rest := old(call.Model()).(done := false, buf := At(buf.block, buf.off + first), len := (len - first) % SIZE_MODULUS);
              var r := Syscall(kernel.env, old(Model()).(call := rest)).0;
              Model() == r.(call := r.call.(result := if r.call.result != -1 then r.call.result + first else first))
    {
      hide Syscall;
      assert (len - first) % SIZE_MODULUS == len - first;
      call.done := false;
      call.buf := At(buf.block, buf.off + first);
      call.len := (len - first) % SIZE_MODULUS;
      var _ := DoSyscall();
      if call.result != -1 {
        call.result := call.result + first;
      } else {
        call.result := first;
      }
    }

    method DoSplit(percent: Percent, ghost k: nat, ghost n: nat, ghost orig: seq<Byte>) returns (ok: bool)
      requires Valid() && Lengths.Bounded(Model(), k, n, orig, true)
      modifies kernel, call, call.origBuf, call.copyBuf
      ensures Valid() && call.copyBuf == old(call.copyBuf)
      ensures (Model(), ok) == PerformSplit(kernel.env, old(Model()), percent)
    {
      hide Syscall, SplitWrite, Share;
      if call.done || call.aborted {
        return false;
      }
      if call.direction == Reading {
        SplitWrites.ShareBound(percent, call.len);
        call.len := FirstPart(percent, call.len);
        ok := DoSyscall();
      } else if call.direction == Writing {
        var len := if call.buf == Null then call.origLen else call.len;
        if len == 1 {
          ok := DoSyscall();
        } else {
          SplitWrites.ShareBound(percent, len);
          DoSplitWrite(FirstPart(percent, len), len);
          ok := true;
        }
      } else {
        return false;
      }
    }

    method DoTruncate(size: int) returns (ok: bool)
      requires Valid()
      modifies call
      ensures Valid() && call.copyBuf == old(call.copyBuf)
      ensures (Model(), ok) == PerformTruncate(old(Model()), size)
    {
      if call.done || call.aborted {
        return false;
      }
      if !CarriesData(call.direction) {
        return false;
      }
      if call.origLen > AsSize(size) {
        call.origLen := AsSize(size);
      }
      if call.len > AsSize(size) {
        call.len := AsSize(size);
      }
      return true;
    }

    method DoSettle(result: int, err: int) returns (ok: bool)
      requires Valid()
      modifies call
      ensures Valid() && call.copyBuf == old(call.copyBuf)
      ensures (Model(), ok) == Settle(old(Model()), result, err)
    {
      if call.done {
        return false;
      }
      call.aborted := true;
      call.result := result;
      call.err := err;
      return true;
    }

    method DoHang(pos: nat, ms: int) returns (ok: bool)
      requires Valid()
      modifies kernel, call, sock
      ensures Valid() && call.copyBuf == old(call.copyBuf)
      ensures (Model(), ok) == PerformHang(kernel.env, old(Model()), pos, ms)
    {
      if !call.blocking && call.direction == Reading && !call.done {
        sock.hanging := true;
        sock.pos := pos;
        var now := kernel.Now();
        sock.msec := (now + ms) % SIZE_MODULUS;
        call.aborted := true;
        call.err := EAGAIN;
        call.result := -1;
      }
      return true;
    }

    method DoLocalHang(pos: nat, ms: int) returns (ok: bool)
      requires Valid() && InBounds()
      modifies kernel, call, sock, call.origBuf, call.copyBuf
      ensures Valid() && call.copyBuf == old(call.copyBuf)
      ensures (Model(), ok) == PerformLocalHang(kernel.env, old(Model()), pos, ms)
    {
      hide Syscall, PerformHang;
      if call.direction == Reading && !call.done && !call.aborted {
        var _ := DoSyscall();
      }
      ok := DoHang(pos, ms);
    }

    /** Gives the call a copy of the caller's buffer to edit, unless it may edit the one it has. */
    method DoPrepareBuffer()
      requires Valid() && InBounds()
      modifies call
      ensures Valid() && (call.copyBuf == old(call.copyBuf) || fresh(call.copyBuf))
      ensures Model() == old(Model()).(call := PrepareBuffer(old(call.Model())))
    {
      if call.buf == Null {
        call.copyBuf := CopyOf(call.origBuf, call.origLen);
        call.buf := At(Copy, 0);
        call.len := call.origLen;
      }
    }

    method CopyOf(block: array<Byte>, n: nat) returns (copy: array<Byte>)
      requires n <= block.Length
      ensures fresh(copy) && copy[..] == Fetch(block[..], 0, n)
    {
      copy := new Byte[n](i requires 0 <= i < n && n <= block.Length reads block => block[i]);
    }

    method DoAlter(p: Proportion) returns (ok: bool)
      requires Valid() && InBounds()
      requires call.buf.At? ==> call.buf.off == 0
      modifies kernel, call, call.origBuf, call.copyBuf
      ensures Valid() && (call.copyBuf == old(call.copyBuf) || fresh(call.copyBuf))
      ensures (Model(), ok) == PerformAlter(kernel.env, old(Model()), p)
    {
      hide Syscall, Altered, NextDraw, Fetch, AsInt;
      if !CarriesData(call.direction) || (call.direction == Writing && call.done) {
        return false;
      }
      SyscallStaysWithin(kernel.env, Model());
      if call.direction == Reading && !call.done {
        var _ := DoSyscall();
      }
      EditBuffer(p);
      return true;
    }

    method EditBuffer(p: Proportion)
      requires Valid() && InBounds()
      requires call.buf.At? ==> call.buf.off == 0
      modifies kernel, call, call.origBuf, call.copyBuf
      ensures Valid() && (call.copyBuf == old(call.copyBuf) || fresh(call.copyBuf))
      ensures Model() == AlterBuffer(kernel.env, old(Model()), p)
    {
      hide Altered, NextDraw, Fetch, AsInt;
      PrepareStaysWithin(call.Model());
      DoPrepareBuffer();
      IntBound(call.len);
      var length := if AsInt(call.len) <= 0 then 0 else AsInt(call.len);
      var block := if call.buf.block == Own then call.origBuf else call.copyBuf;
      var next := AlterInPlace(block, length, p, kernel.env.rand, kernel.draws);
      kernel.draws := next;
    }

    method DoMarkDone(perSocket: bool, line: int)
      requires Valid()
      modifies call.lines, call.lines.data, sock.lines, sock.lines.data
      ensures Valid() && call.copyBuf == old(call.copyBuf)
      ensures call.lines.data == old(call.lines.data) && sock.lines.data == old(sock.lines.data)
      ensures Model() == Perform(kernel.env, old(Model()), 0, MarkDone(perSocket, line)).0
    {
      hide Put;
      if perSocket {
        var _ := sock.lines.PutEntry(line, Some(()), true);
      } else {
        var _ := call.lines.PutEntry(line, Some(()), true);
      }
    }

    method DoPerform(pos: nat, task: Task, ghost k: nat, ghost n: nat, ghost orig: seq<Byte>, ghost splits: bool) returns (ok: bool)
      requires Valid() && Lengths.Bounded(Model(), k, n, orig, splits) && Lengths.Allowed(task, splits)
      modifies Repr()
      ensures Valid() && (call.copyBuf == old(call.copyBuf) || fresh(call.copyBuf))
      ensures call.lines.data == old(call.lines.data) && sock.lines.data == old(sock.lines.data)
      ensures (Model(), ok) == Perform(kernel.env, old(Model()), pos, task)
    {
      hide Syscall, PerformSplit, PerformAlter, PerformHang, PerformLocalHang, PerformTruncate, Settle, Put, Lengths.Bounded, WithinBuffer;
      BoundedWithin(Model(), k, n, orig, splits);
      ok := true;
      match task {
        case Nop =>
        case Report =>
        case DoSyscall => ok := DoSyscall();
        case Split(percent) => ok := DoSplit(percent, k, n, orig);
        case Truncate(size) => ok := DoTruncate(size);
        case DoAlter(p) => ok := DoAlter(p);
        case Drop => ok := DoSettle(if call.buf == Null then call.origLen else call.len, call.err);
        case CancelSyscall => ok := DoSettle(-1, call.err);
        case Error(errno) =>
          if call.blocking && errno == EAGAIN {
            ok := false;
          } else {
            ok := DoSettle(-1, errno);
          }
        case Emit(signal) => ok := DoSettle(-1, if signal == SIGPIPE then EPIPE else EINTR);
        case Hang(ms) => ok := DoHang(pos, ms);
        case LocalHang(ms) => ok := DoLocalHang(pos, ms);
        case RemoteHang(ms) => ok := DoHang(pos, ms);
        case MarkDone(perSocket, line) => DoMarkDone(perSocket, line);
      }
    }

    method DoActionProcess(pos: nat, task: Task, ghost k: nat, ghost n: nat, ghost orig: seq<Byte>, ghost splits: bool) returns (ok: bool)
      requires Valid() && Lengths.Bounded(Model(), k, n, orig, splits) && Lengths.Allowed(task, splits)
      modifies Repr()
      ensures Valid() && (call.copyBuf == old(call.copyBuf) || fresh(call.copyBuf))
      ensures call.lines.data == old(call.lines.data) && sock.lines.data == old(sock.lines.data)
      ensures (Model(), ok) == ActionProcess(kernel.env, old(Model()), pos, task)
    {
      hide Perform, Put;
      if call.direction == Reading && sock.hanging {
        sock.hanging := false;
        if task.Hang? {
          return true;
        }
      }
      ok := DoPerform(pos, task, k, n, orig, splits);
    }

    /** The search for a matching rule, from `pos` on. */
    method FindMatch(rules: Rules, pos: nat) returns (r: Option<nat>)
      requires Valid()
      modifies kernel
      ensures Valid() && Model() == Searched(old(Model()))
      ensures r == GetMatch(kernel.env, rules, old(kernel.searches), pos)
    {
      var k := kernel.searches;
      kernel.searches := kernel.searches + 1;
      var i := pos;
      while i < |rules|
        invariant pos <= i && GetMatch(kernel.env, rules, k, i) == GetMatch(kernel.env, rules, k, pos)
      {
        if rules[i].Some? && MatchesAt(kernel.env, k, i) {
          return Some(i);
        }
        i := i + 1;
      }
      return None;
    }

    method FindFrom(rules: Rules, pos: nat) returns (r: Option<nat>)
      ensures r == GetFrom(rules, pos)
    {
      var i := pos;
      while i < |rules|
        invariant pos <= i && GetFrom(rules, i) == GetFrom(rules, pos)
      {
        if rules[i].Some? {
          return Some(i);
        }
        i := i + 1;
      }
      return None;
    }

    method IsSkipped(rule: Rule, pos: nat) returns (skipped: bool)
      requires Valid()
      ensures skipped == Skipped(rule, pos, Model())
    {
      hide FindEntry;
      var inCall := call.lines.ContainsEntry(pos);
      var onSocket := sock.lines.ContainsEntry(pos);
      return (rule.mode == OncePerCall && inCall) || (rule.mode == OncePerSocket && onSocket);
    }

    method MarkBoth(pos: nat)
      requires Valid()
      modifies call.lines, call.lines.data, sock.lines, sock.lines.data
      ensures Valid() && call.copyBuf == old(call.copyBuf)
      ensures call.lines.data == old(call.lines.data) && sock.lines.data == old(sock.lines.data)
      ensures Model() == MarkCompleted(old(Model()), pos)
    {
      hide Put;
      var _ := call.lines.PutEntry(pos, Some(()), true);
      var _ := sock.lines.PutEntry(pos, Some(()), true);
    }

    method DoFollow(rules: Rules, pos: nat, next: Next) returns (r: Option<nat>)
      requires Valid()
      modifies kernel
      ensures Valid() && (Model(), r) == Follow(kernel.env, rules, old(Model()), pos, next)
    {
      hide GetMatch, GetFrom;
      match next {
        case Continue => r := FindMatch(rules, pos + 1);
        case Goto(line) => r := FindMatch(rules, line);
        case FollowNext => r := FindFrom(rules, pos + 1);
        case Exec(line) => r := FindFrom(rules, line);
        case Stop => r := None;
      }
    }

    /** What comes before the loop. Without a rule to start from, the system call is
        made at once, or is put off by a pending hang. */
    method Start(rules: Rules) returns (first: Option<nat>)
      requires Valid() && 0 < |rules| && InBounds()
      modifies kernel, call, sock, call.origBuf, call.copyBuf
      ensures Valid() && call.copyBuf == old(call.copyBuf)
      ensures Starts(BeginWith(kernel.env, rules, old(Model())), first)
    {
      hide GetMatch, Invoke, BeginHanging;
      first := FindMatch(rules, 0);
      if first.None? {
        CallDirectly();
      } else if call.direction == Reading && sock.hanging {
        first := StartHanging(rules);
      }
    }

    /** The state is the one that the entry describes, and `first` the rule to start from. */
    ghost predicate Starts(e: Queue.Entry, first: Option<nat>)
      reads Repr()
    {
      match e
      case Entered(st) => first == st.at && first.Some? && Model() == st.m && st.completed == []
      case Bypassed(m) => first == None && Model() == m
      case Deferred(m) => first == None && Model() == m
    }

    method StartHanging(rules: Rules) returns (first: Option<nat>)
      requires Valid() && 0 < |rules| && InBounds()
      modifies kernel, call, sock, call.origBuf, call.copyBuf
      ensures Valid() && call.copyBuf == old(call.copyBuf)
      ensures Starts(BeginHanging(kernel.env, rules, old(Model())), first)
    {
      hide GetMatch, Invoke;
      var now := kernel.Now();
      if sock.msec > now {
        call.result, call.err := -1, EAGAIN;
        return None;
      }
      if sock.pos < |rules| && rules[sock.pos].Some? {
        return Some(sock.pos);
      }
      first := FindMatch(rules, 1);
      if first.None? {
        sock.hanging := false;
        CallDirectly();
      }
    }

    method CallDirectly()
      requires Valid() && InBounds()
      modifies kernel, call, call.origBuf, call.copyBuf
      ensures Valid() && call.copyBuf == old(call.copyBuf)
      ensures Model() == Invoke(kernel.env, old(Model()))
    {
      hide Invoke;
      var p := if call.buf == Null then At(Own, 0) else call.buf;
      var n := if call.buf == Null then call.origLen else call.len;
      var result, errno := Callback(p, n);
      call.result := result;
      call.err := errno;
    }

    /** One round of the loop, for the rule at `pos`. */
    method Round(rules: Rules, pos: nat, ghost completed: seq<nat>, ghost k: nat, ghost n: nat, ghost orig: seq<Byte>, ghost splits: bool)
      returns (next: Option<nat>, ghost completed': seq<nat>)
      requires Valid() && IsRule(rules, pos)
      requires Lengths.Bounded(Model(), k, n, orig, splits) && Lengths.AllAllowed(rules, splits)
      modifies Repr()
      ensures Valid() && (call.copyBuf == old(call.copyBuf) || fresh(call.copyBuf))
      ensures call.lines.data == old(call.lines.data) && sock.lines.data == old(sock.lines.data)
      ensures State(Model(), next, completed') == Step(kernel.env, rules, State(old(Model()), Some(pos), completed))
    {
      hide GetMatch, Follow, ActionProcess, Skipped, MarkCompleted, Lengths.Bounded;
      completed' := completed;
      var rule := rules[pos].value;
      var skipped := IsSkipped(rule, pos);
      if skipped {
        next := FindMatch(rules, pos + 1);
        return;
      }
      var ok := DoActionProcess(pos, rule.task, k, n, orig, splits);
      if !ok || sock.hanging {
        return None, completed;
      }
      MarkBoth(pos);
      next := DoFollow(rules, pos, rule.next);
      completed' := completed + [pos];
    }

    /** The loop, over a fixed set of rules in which every rule that jumps back is a once-rule with room for its marks. */
    method Loop(rules: Rules, first: nat, ghost k: nat, ghost n: nat, ghost orig: seq<Byte>, ghost splits: bool)
      requires Valid() && IsRule(rules, first)
      requires Lengths.Bounded(Model(), k, n, orig, splits) && Lengths.AllAllowed(rules, splits)
      requires Termination.RestrainedNow(rules, Model())
      modifies Repr()
      ensures Valid() && (call.copyBuf == old(call.copyBuf) || fresh(call.copyBuf))
      ensures Lengths.Bounded(Model(), k, n, orig, splits)
      ensures Model() == Run(kernel.env, rules, State(old(Model()), Some(first), []), Termination.Bound(rules)).m
    {
      hide Step, Lengths.Bounded, Lengths.AllAllowed, Termination.RestrainedNow, Termination.Measure, Termination.Bound;
      var action := Some(first);
      ghost var completed: seq<nat> := [];
      ghost var start, rounds: nat := State(Model(), Some(first), []), 0;
      while action.Some?
        invariant Valid() && (call.copyBuf == old(call.copyBuf) || fresh(call.copyBuf))
        invariant call.lines.data == old(call.lines.data) && sock.lines.data == old(sock.lines.data)
        invariant Ready(rules, State(Model(), action, completed))
        invariant State(Model(), action, completed) == Run(kernel.env, rules, start, rounds)
        invariant Lengths.Bounded(Model(), k, n, orig, splits)
        invariant Termination.RestrainedNow(rules, Model())
        decreases Termination.Measure(rules, State(Model(), action, completed))
      {
        ghost var st := State(Model(), action, completed);
        RunStep(kernel.env, rules, start, rounds);
        Lengths.StepBounded(kernel.env, rules, st, k, n, orig, splits);
        Termination.StepKeepsRestrained(kernel.env, rules, st);
        Termination.RestrainedLosesNone(kernel.env, rules, st);
        Termination.StepDescends(kernel.env, rules, st);
        action, completed := Round(rules, action.value, completed, k, n, orig, splits);
        rounds := rounds + 1;
      }
      Termination.MeasureBelowBound(rules, start);
      Termination.RunEnds(kernel.env, rules, start, Termination.Bound(rules));
      RunsAgree(kernel.env, rules, start, rounds, Termination.Bound(rules));
    }

    /** After the loop. */
    method FinishCall()
      requires Valid() && InBounds()
      modifies kernel, call, call.origBuf, call.copyBuf
      ensures Model() == Finish(kernel.env, old(Model()))
    {
      hide Syscall;
      if !call.done && !call.aborted {
        var _ := DoSyscall();
      }
    }

    /** The whole call. */
    method RunCall(rules: Rules, ghost w: World, ghost s0: SocketData, ghost input: Input)
      requires Valid() && 0 < |rules| && 0 < |s0.lines.slots| && Model() == Machine(w, NewCall(input, |rules|), s0)
      requires Termination.Restrained(rules, s0.lines) && Lengths.Safe(rules, input)
      modifies Repr()
      ensures Model() == ProcessFrom(kernel.env, rules, old(Model()), Termination.Bound(rules))
    {
      hide Run, Finish, BeginWith, NewCall, WithinBuffer, Lengths.Bounded, Lengths.Safe, Lengths.AllAllowed,
        Termination.Restrained, Termination.RestrainedNow, Termination.Bound;
      ghost var splits := CallIsReady(kernel.env, rules, w, s0, input);
      var first := Start(rules);
      if first.Some? {
        Loop(rules, first.value, |w.calls|, input.len, input.bytes, splits);
        BoundedWithin(Model(), |w.calls|, input.len, input.bytes, splits);
        FinishCall();
      }
    }
  }

  lemma CallIsReady(env: Env, rules: Rules, w: World, sock: SocketData, input: Input) returns (splits: bool)
    requires 0 < |rules| && 0 < |sock.lines.slots| && Termination.Restrained(rules, sock.lines) && Lengths.Safe(rules, input)
    ensures WithinBuffer(NewCall(input, |rules|)) && Lengths.AllAllowed(rules, splits)
    ensures var e := BeginWith(env, rules, Machine(w, NewCall(input, |rules|), sock));
            e.Entered? ==> Lengths.Bounded(e.st.m, |w.calls|, input.len, input.bytes, splits) && Termination.RestrainedNow(rules, e.st.m)
  {
    splits := !Lengths.AllAllowed(rules, false);
    Lengths.BeginBounded(env, rules, w, sock, input, splits);
    var m := Machine(w, NewCall(input, |rules|), sock);
    BeginKeepsLines(env, rules, m);
    StartsWithin(input, |rules|);
    hide BeginWith, Lengths.Bounded, Empty, WithinBuffer, Termination.Restrained, Termination.RestrainedNow;
    var e := BeginWith(env, rules, m);
    if e.Entered? {
      Termination.StartsRestrained(rules, e.st.m);
    }
  }

  lemma StartsWithin(input: Input, capacity: nat)
    requires input.len <= |input.bytes|
    ensures WithinBuffer(NewCall(input, capacity))
  {
  }

  lemma BeginKeepsLines(env: Env, rules: Rules, m: Machine)
    requires HasTables(m)
    ensures var e := BeginWith(env, rules, m);
            e.Entered? ==> e.st.m.call.lines == m.call.lines && e.st.m.sock.lines == m.sock.lines
  {
    hide GetMatch, Invoke;
  }

  lemma {:induction false} RunsAgree(env: Env, rules: Rules, st: State, a: nat, b: nat)
    requires Ready(rules, st) && Run(env, rules, st, a).at.None? && Run(env, rules, st, b).at.None?
    ensures Run(env, rules, st, a) == Run(env, rules, st, b)
    decreases a
  {
    hide Step;
    if a > 0 && b > 0 && st.at.Some? {
      RunsAgree(env, rules, Step(env, rules, st), a - 1, b - 1);
    }
  }

  /** The state of a call that starts. */
  method SetUp(kernel: Kernel, sock: SocketState, direction: Direction, blocking: bool, buf: array<Byte>, len: nat, errno: int, capacity: nat)
    returns (engine: Engine)
    requires 0 < capacity && 0 < sock.lines.data.Length && sock.lines.data as object != buf
    ensures engine.Valid() && engine.kernel == kernel && engine.sock == sock && engine.call.origBuf == buf
    ensures fresh(engine.call) && fresh(engine.call.copyBuf) && fresh(engine.call.lines) && fresh(engine.call.lines.data)
    ensures engine.Model() == Machine(kernel.Model(), NewCall(Input(direction, blocking, buf[..], len, errno), capacity), sock.Model())
  {
    var call := new CallState(direction, blocking, buf, len, errno, capacity);
    engine := new Engine(kernel, call, sock);
  }

  lemma ResultIsBounded(env: Env, rules: Rules, w: World, sock: SocketData, input: Input)
    requires 0 < |rules| && 0 < |sock.lines.slots| && Lengths.Safe(rules, input)
    ensures var m := ProcessCall(env, rules, w, sock, input, Termination.Bound(rules));
            && m == ProcessFrom(env, rules, Machine(w, NewCall(input, |rules|), sock), Termination.Bound(rules))
            && -1 <= m.call.result <= input.len && (input.direction != Reading ==> m.call.orig == input.bytes)
  {
    Lengths.LengthsStayBounded(env, rules, w, sock, input, Termination.Bound(rules));
    hide ProcessFrom, NewCall, Lengths.Safe, Termination.Bound;
  }

  /** A whole intercepted call: the result and error number it reports, and what it
      leaves on the socket and in the caller's buffer, are those of `ProcessCall`. */
  method ActionQueueProcess(kernel: Kernel, rules: Rules, sock: SocketState, direction: Direction, blocking: bool,
                            buf: array<Byte>, len: nat, errno: int)
    returns (result: int, err: int)
    requires 0 < |rules| && sock.lines.data as object != buf
    requires 0 < sock.lines.data.Length && Termination.Restrained(rules, sock.lines.Model())
    requires Lengths.Safe(rules, Input(direction, blocking, buf[..], len, errno))
    modifies kernel, sock, sock.lines, sock.lines.data, buf
    ensures 0 < |old(sock.Model()).lines.slots|
    ensures var m := ProcessCall(kernel.env, rules, old(kernel.Model()), old(sock.Model()),
                                 Input(direction, blocking, old(buf[..]), len, errno), Termination.Bound(rules));
            && result == m.call.result && err == m.call.err
            && kernel.Model() == m.world && sock.Model() == m.sock && buf[..] == m.call.orig
    ensures -1 <= result <= len && (direction != Reading ==> buf[..] == old(buf[..]))
  {
    hide ProcessCall, ProcessFrom, NewCall, Lengths.Safe, Termination.Restrained, Termination.Bound, Empty;
    ghost var w, s0, input := kernel.Model(), sock.Model(), Input(direction, blocking, buf[..], len, errno);
    var engine := SetUp(kernel, sock, direction, blocking, buf, len, errno, |rules|);
    engine.RunCall(rules, w, s0, input);
    ResultIsBounded(kernel.env, rules, w, s0, input);
    return engine.call.result, engine.call.err;
  }
}
