/** Two partial writes reported as one (`src/actions/split.c`). */
module SplitWrites {
  import opened Alter
  import opened Call

  /** The bytes moved by the system calls made since there were `k` of them. */
  function Delivered(calls: seq<Invocation>, k: nat): seq<Byte>
    requires k <= |calls|
    decreases |calls| - k
  {
    if k == |calls| then [] else calls[k].moved + Delivered(calls, k + 1)
  }

  predicate AskedWithin(calls: seq<Invocation>, k: nat, n: nat) {
    forall i :: k <= i < |calls| ==> calls[i].asked <= n
  }

  lemma ScaleDown(percent: Percent, len: nat)
    ensures percent * len <= 100 * len
  {
  }

  /** The wrap-around of the 64-bit product never makes a share larger than the whole. */
  lemma ShareBound(percent: Percent, len: nat)
    ensures Share(percent, len) <= len
  {
    var x := percent * len;
    ScaleDown(percent, len);
    assert x % SIZE_MODULUS <= x;
  }

  /** A call that is about to write `n` bytes of its current buffer. */
  predicate AboutToWrite(c: CallData, n: nat) {
    && c.direction.Writing? && !c.done && !c.aborted
    && n == ReadLength(c) < SIZE_MODULUS
    && ReadBuffer(c).off + n <= |BlockBytes(c, ReadBuffer(c).block)|
  }

  /** The first `k` bytes about to be written. */
  function Prefix(c: CallData, k: nat): seq<Byte>
    requires ReadBuffer(c).off + k <= |BlockBytes(c, ReadBuffer(c).block)|
  {
    BlockBytes(c, ReadBuffer(c).block)[ReadBuffer(c).off..ReadBuffer(c).off + k]
  }

  function Moved(result: int): nat {
    if result < 0 then 0 else result
  }

  /** One write delivers the prefix that its result says. */
  lemma SyscallDelivers(env: Env, m: Machine, n: nat)
    requires AboutToWrite(m.call, n)
    ensures var r := Syscall(env, m).0;
            && -1 <= r.call.result <= n
            && r.call.done && !r.call.aborted
            && r.call == m.call.(result := r.call.result, err := r.call.err, done := true, origLen := Moved(r.call.result),
                                 len := if m.call.buf == Null then m.call.len else Moved(r.call.result))
            && r.world.calls == m.world.calls + [Invocation(n, r.call.result, Prefix(m.call, Moved(r.call.result)))]
  {
    hide Share;
    var r := Invoke(env, m);
    assert Prefix(m.call, 0) == [];
    assert r.world.calls == m.world.calls + [Invocation(n, r.call.result, Prefix(m.call, Moved(r.call.result)))];
  }

  lemma DeliveredByTwo(calls: seq<Invocation>, a: Invocation, b: Invocation)
    ensures Delivered(calls + [a], |calls|) == a.moved
    ensures Delivered(calls + [a] + [b], |calls|) == a.moved + b.moved
  {
    var two := calls + [a] + [b];
    assert Delivered(two, |calls| + 2) == [];
    assert Delivered(two, |calls| + 1) == b.moved + [];
    assert Delivered(calls + [a], |calls| + 1) == [];
  }

  /** What a split write of `n` bytes leaves of the call: the buffer pointer of before,
      and one or two system calls that ask for no more than `n` bytes. */
  predicate KeepsCall(m: Machine, r: Machine, n: nat) {
    var k := |m.world.calls|;
    && -1 <= r.call.result <= n
    && r.call.done && !r.call.aborted
    && k < |r.world.calls| <= k + 2 && r.world.calls[..k] == m.world.calls
    && AskedWithin(r.world.calls, k, n)
    && r.call == m.call.(result := r.call.result, err := r.call.err, done := true, origLen := r.call.origLen, len := r.call.len)
    && r.call.origLen <= n
    && (r.call.len == m.call.len || (n == 1 && r.call.len <= n))
    && r.sock == m.sock && r.world == m.world.(calls := r.world.calls)
  }

  /** And exactly the first `result` bytes are delivered. */
  predicate IsPartialWrite(m: Machine, r: Machine, n: nat)
    requires AboutToWrite(m.call, n)
  {
    && KeepsCall(m, r, n)
    && Delivered(r.world.calls, |m.world.calls|) == Prefix(m.call, Moved(r.call.result))
  }

  /** A first write of `first` bytes that went through. */
  predicate FirstWentThrough(m: Machine, m1: Machine, first: nat, n: nat) {
    && AboutToWrite(m.call, n) && 1 <= first <= n
    && m1.call == m.call.(buf := ReadBuffer(m.call), len := first, result := first, err := m1.call.err, done := true, origLen := first)
    && m1.world == m.world.(calls := m.world.calls + [Invocation(first, first, Prefix(m.call, first))]) && m1.sock == m.sock
  }

  /** The call before the second write. */
  function RestOf(m: Machine, m1: Machine, first: nat, n: nat): Machine
    requires first <= n
  {
    m1.(call := m1.call.(done := false, buf := At(ReadBuffer(m.call).block, ReadBuffer(m.call).off + first), len := (n - first) % SIZE_MODULUS))
  }

  /** The call after the second write, with both results in one. */
  function BothWrites(m: Machine, r: Machine, first: nat): Machine {
    r.(call := r.call.(result := if r.call.result != -1 then r.call.result + first else first, buf := m.call.buf, len := m.call.len))
  }

  lemma RestIsAboutToWrite(m: Machine, m1: Machine, first: nat, n: nat)
    requires FirstWentThrough(m, m1, first, n)
    ensures AboutToWrite(RestOf(m, m1, first, n).call, n - first)
  {
    assert (n - first) % SIZE_MODULUS == n - first;
  }

  /** What two writes deliver are the first bytes. */
  lemma TwoPrefixes(m: Machine, m1: Machine, first: nat, n: nat, more: nat)
    requires FirstWentThrough(m, m1, first, n) && more <= n - first && AboutToWrite(RestOf(m, m1, first, n).call, n - first)
    ensures Prefix(m.call, first) + Prefix(RestOf(m, m1, first, n).call, more) == Prefix(m.call, first + more)
  {
  }

  lemma SecondDelivers(env: Env, m: Machine, m1: Machine, first: nat, n: nat)
    requires FirstWentThrough(m, m1, first, n)
    ensures var r := Syscall(env, RestOf(m, m1, first, n)).0;
            && -1 <= r.call.result <= n - first
            && Delivered(r.world.calls, |m.world.calls|) == Prefix(m.call, first + Moved(r.call.result))
  {
    hide Syscall, Delivered, BlockBytes;
    var rest := RestOf(m, m1, first, n);
    RestIsAboutToWrite(m, m1, first, n);
    SyscallDelivers(env, rest, n - first);
    var r := Syscall(env, rest).0;
    var more := Moved(r.call.result);
    TwoPrefixes(m, m1, first, n, more);
    hide Prefix;
    DeliveredByTwo(m.world.calls, Invocation(first, first, Prefix(m.call, first)),
                   Invocation(n - first, r.call.result, Prefix(rest.call, more)));
  }

  lemma SecondKeepsCall(env: Env, m: Machine, m1: Machine, first: nat, n: nat)
    requires FirstWentThrough(m, m1, first, n)
    ensures KeepsCall(m, BothWrites(m, Syscall(env, RestOf(m, m1, first, n)).0, first), n)
  {
    hide Syscall, Delivered, BlockBytes;
    var rest := RestOf(m, m1, first, n);
    RestIsAboutToWrite(m, m1, first, n);
    SyscallDelivers(env, rest, n - first);
    SyscallAddsCalls(env, rest);
    hide Prefix;
    var r := Syscall(env, rest).0;
    assert r.world.calls[..|m.world.calls|] == m.world.calls;
  }

  /** The second write, after the first `first` bytes went through. */
  lemma SecondWrite(env: Env, m: Machine, m1: Machine, first: nat, n: nat)
    requires FirstWentThrough(m, m1, first, n)
    ensures IsPartialWrite(m, BothWrites(m, Syscall(env, RestOf(m, m1, first, n)).0, first), n)
  {
    SecondDelivers(env, m, m1, first, n);
    SecondKeepsCall(env, m, m1, first, n);
    hide Syscall, Delivered, KeepsCall, Prefix, RestOf;
  }

  lemma FirstIsAboutToWrite(m: Machine, first: nat, n: nat)
    requires AboutToWrite(m.call, n) && first <= n
    ensures var c := m.call.(buf := ReadBuffer(m.call), len := first);
            && AboutToWrite(c, first)
            && forall k: nat {:trigger Prefix(c, k)} {:trigger Prefix(m.call, k)} :: k <= first ==> Prefix(c, k) == Prefix(m.call, k)
  {
  }

  lemma SplitWriteDelivers(env: Env, m: Machine, first: nat, n: nat)
    requires AboutToWrite(m.call, n) && 1 <= first <= n
    ensures IsPartialWrite(m, SplitWrite(env, m, first), n)
  {
    hide Syscall, Delivered, Prefix, BlockBytes;
    var start := m.(call := m.call.(buf := ReadBuffer(m.call), len := first));
    FirstIsAboutToWrite(m, first, n);
    SyscallDelivers(env, start, first);
    var m1 := Syscall(env, start).0;
    var one := m1.world.calls[|m.world.calls|];
    DeliveredByTwo(m.world.calls, one, one);
    SyscallAddsCalls(env, start);
    if m1.call.result == first {
      hide IsPartialWrite;
      SecondWrite(env, m, m1.(call := m1.call.(len := first)), first, n);
    }
  }

  /** The system call adds to the record of calls; it succeeds unless the call was aborted. */
  lemma SyscallAddsCalls(env: Env, m: Machine)
    ensures !m.call.aborted ==> Syscall(env, m).1
    ensures Syscall(env, m).0.sock == m.sock
    ensures Syscall(env, m).0.world == m.world.(calls := Syscall(env, m).0.world.calls)
  {
  }

  /** For any percentage, length and answers: a split write is a partial write. */
  lemma SplitDelivers(env: Env, m: Machine, percent: Percent, n: nat)
    requires AboutToWrite(m.call, n) && 1 <= n
    ensures PerformSplit(env, m, percent).1
    ensures IsPartialWrite(m, PerformSplit(env, m, percent).0, n)
  {
    hide Syscall, Share, Delivered, SplitWrite;
    if n == 1 {
      SyscallDelivers(env, m, n);
      SyscallAddsCalls(env, m);
      var one := Syscall(env, m).0.world.calls[|m.world.calls|];
      DeliveredByTwo(m.world.calls, one, one);
    } else {
      ShareBound(percent, n);
      SplitWriteDelivers(env, m, FirstPart(percent, n), n);
    }
  }

  /** A split write is one partial write: some answer of the system call makes a
      single write of the whole buffer give the same result and deliver the same
      bytes, whichever of the two writes failed or fell short. */
  lemma SplitRefinesOneWrite(env: Env, m: Machine, percent: Percent, n: nat)
    requires AboutToWrite(m.call, n) && 1 <= n
    ensures exists env1 ::
              var r, one := PerformSplit(env, m, percent).0, Syscall(env1, m).0;
              && one.call.result == r.call.result
              && |one.world.calls| == |m.world.calls| + 1 && |r.world.calls| > |m.world.calls|
              && one.world.calls[|m.world.calls|].moved == Delivered(r.world.calls, |m.world.calls|)
  {
    SplitDelivers(env, m, percent, n);
    hide PerformSplit, Delivered;
    var r := PerformSplit(env, m, percent).0;
    var reply := if r.call.result == -1 then Failed(0) else Call.Reply.Moved(Prefix(m.call, r.call.result), 0);
    var env1 := env.(replies := seq(|m.world.calls|, _ => Failed(0)) + [reply]);
    assert ReplyAt(env1, |m.world.calls|) == reply;
    SyscallDelivers(env1, m, n);
    assert Syscall(env1, m).0.call.result == r.call.result;
  }

  /** A call that is about to move `n` bytes in either direction; a read has its buffer already. */
  predicate AboutToMove(c: CallData, n: nat) {
    AboutToWrite(c, n) || (c.direction.Reading? && !c.done && !c.aborted && c.buf != Null && n == c.len < SIZE_MODULUS)
  }

  lemma SplitReadAsks(env: Env, m: Machine, percent: Percent, n: nat)
    requires AboutToMove(m.call, n) && m.call.direction.Reading?
    ensures var calls := PerformSplit(env, m, percent).0.world.calls;
            |calls| == |m.world.calls| + 1 && calls[..|m.world.calls|] == m.world.calls && calls[|m.world.calls|].asked == FirstPart(percent, n)
  {
    hide Invoke, Share;
  }

  /** A split read never asks for more than is there exactly when something is there. */
  lemma SplitReadStaysInsideIff(env: Env, m: Machine, percent: Percent, n: nat)
    requires AboutToMove(m.call, n) && m.call.direction.Reading?
    ensures AskedWithin(PerformSplit(env, m, percent).0.world.calls, |m.world.calls|, n) <==> 1 <= n
  {
    SplitReadAsks(env, m, percent, n);
    ShareBound(percent, n);
    hide PerformSplit, Share;
    assert PerformSplit(env, m, percent).0.world.calls[|m.world.calls|].asked == FirstPart(percent, n);
  }

  /** Splitting a call never asks for more than is there exactly when something is there. */
  lemma SplitStaysInsideIff(m: Machine, percent: Percent, n: nat)
    requires AboutToMove(m.call, n)
    ensures (forall env :: AskedWithin(PerformSplit(env, m, percent).0.world.calls, |m.world.calls|, n)) <==> 1 <= n
  {
    var env0 := Env([], [], [], []);
    if m.call.direction.Reading? {
      forall env ensures AskedWithin(PerformSplit(env, m, percent).0.world.calls, |m.world.calls|, n) <==> 1 <= n {
        SplitReadStaysInsideIff(env, m, percent, n);
      }
      hide PerformSplit;
      assert AskedWithin(PerformSplit(env0, m, percent).0.world.calls, |m.world.calls|, n) <==> 1 <= n;
    } else if 1 <= n {
      forall env ensures AskedWithin(PerformSplit(env, m, percent).0.world.calls, |m.world.calls|, n) {
        SplitDelivers(env, m, percent, n);
      }
    } else {
      assert Share(percent, 0) == 0;
      hide Share;
      var r := PerformSplit(env0, m, percent).0;
      assert r.world.calls[|m.world.calls|].asked == 1;
    }
  }

  /** A split read into an empty buffer asks for one byte. */
  lemma SplitOfNothingReadsAByte(m: Machine, percent: Percent, env: Env)
    requires AboutToMove(m.call, 0) && m.call.direction.Reading?
    ensures var calls := PerformSplit(env, m, percent).0.world.calls;
            |calls| == |m.world.calls| + 1 && calls[|m.world.calls|].asked == 1
  {
    SplitReadAsks(env, m, percent, 0);
    assert Share(percent, 0) == 0;
    hide PerformSplit, Share;
  }

  /** On an empty buffer, a first write that succeeds is followed by one of 2^64 - 1 bytes. */
  lemma SplitOfNothingRunsAway(m: Machine, percent: Percent, env: Env, byte: Byte, errno: int)
    requires AboutToWrite(m.call, 0)
    requires ReplyAt(env, |m.world.calls|) == Call.Reply.Moved([byte], errno)
    ensures var calls := PerformSplit(env, m, percent).0.world.calls;
            |calls| == |m.world.calls| + 2 && calls[|m.world.calls| + 1].asked == SIZE_MODULUS - 1
  {
    assert Share(percent, 0) == 0;
  }
}
