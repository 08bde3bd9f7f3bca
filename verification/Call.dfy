/** One intercepted call and what each task does to it (`src/actions/` and the
    buffer handling of `src/actions.c`), as functions on the state of the call.

    The system call, the clock and the random source are scripts: a run asks each
    of them finitely often, so every behaviour of the outside is some script. */
module Call {
  import opened Options
  import opened Alter
  import opened Light

  const SIZE_MODULUS: nat := 0x1_0000_0000_0000_0000  // size_t and uint64_t
  const EINTR: int := 4
  const EAGAIN: int := 11
  const EPIPE: int := 32
  const SIGPIPE: int := 13

  datatype Direction = Reading | Writing | Connecting | Closing

  predicate CarriesData(d: Direction) {
    d.Reading? || d.Writing?
  }

  /** What the system call answers: an error, or how many bytes it moves (the
      length of `bytes`, cut to the length asked) and, when reading, which ones. */
  datatype Reply = Failed(errno: int) | Moved(bytes: seq<Byte>, errno: int)

  /** The outside: which lines match at each search of the rules, and the answers
      of the system call, of the clock and of the random source. */
  datatype Env = Env(matches: seq<set<nat>>, replies: seq<Reply>, clock: seq<nat>, rand: Random)

  function ReplyAt(env: Env, k: nat): Reply {
    if k < |env.replies| then env.replies[k] else Failed(0)
  }

  function TimeAt(env: Env, k: nat): nat {
    if k < |env.clock| then env.clock[k] else 0
  }

  predicate MatchesAt(env: Env, k: nat, line: nat) {
    k < |env.matches| && line in env.matches[k]
  }

  /** A system call that was made: the length asked, its result, the bytes it moved. */
  datatype Invocation = Invocation(asked: nat, result: int, moved: seq<Byte>)

  /** What was asked of the outside so far. */
  datatype World = World(calls: seq<Invocation>, searches: nat, clocks: nat, draws: nat)

  /** A C pointer into one of the two buffers of a call: the caller's own, or the copy made for edition. */
  datatype Block = Own | Copy
  datatype Pointer = Null | At(block: Block, off: nat)

  datatype CallData = CallData(
    direction: Direction, blocking: bool,
    orig: seq<Byte>, origLen: nat,
    buf: Pointer, len: nat, copy: seq<Byte>,
    aborted: bool, done: bool,
    lines: Table<()>,
    err: int, result: int)

  datatype SocketData = SocketData(lines: Table<()>, hanging: bool, msec: nat, pos: nat)

  datatype Machine = Machine(world: World, call: CallData, sock: SocketData)

  function Min(a: nat, b: nat): nat {
    if a < b then a else b
  }

  // ----- buffers -----

  function ReadBuffer(c: CallData): (p: Pointer)
    ensures p.At?
  {
    if c.buf == Null then At(Own, 0) else c.buf
  }

  function ReadLength(c: CallData): nat {
    if c.buf == Null then c.origLen else c.len
  }

  function BlockBytes(c: CallData, b: Block): seq<Byte> {
    match b case Own => c.orig case Copy => c.copy
  }

  function WithBlock(c: CallData, b: Block, bytes: seq<Byte>): CallData {
    match b case Own => c.(orig := bytes) case Copy => c.(copy := bytes)
  }

  /** The current buffer and length lie within the memory of the call. */
  predicate WithinBuffer(c: CallData) {
    ReadBuffer(c).off + ReadLength(c) <= |BlockBytes(c, ReadBuffer(c).block)|
  }

  /** `data` written at `off`; what would fall outside the buffer is not modelled. */
  function Store(bytes: seq<Byte>, off: nat, data: seq<Byte>): (r: seq<Byte>)
    ensures |r| == |bytes|
  {
    seq(|bytes|, i requires 0 <= i < |bytes| => if off <= i < off + |data| then data[i - off] else bytes[i])
  }

  function Fetch(bytes: seq<Byte>, off: nat, n: nat): seq<Byte> {
    bytes[Min(off, |bytes|)..Min(off + n, |bytes|)]
  }

  /** Makes sure there is a buffer that may be edited. */
  function PrepareBuffer(c: CallData): CallData {
    if c.buf != Null then c
    else c.(copy := Fetch(c.orig, 0, c.origLen), buf := At(Copy, 0), len := c.origLen)
  }

  // ----- the system call -----

  /** Makes the system call on the current buffer and length. */
  function Invoke(env: Env, m: Machine): (r: Machine)
    ensures r.sock == m.sock
    ensures r.call == m.call.(orig := r.call.orig, copy := r.call.copy, result := r.call.result, err := r.call.err)
    ensures |r.call.orig| == |m.call.orig| && |r.call.copy| == |m.call.copy|
    ensures !m.call.direction.Reading? ==> r.call.orig == m.call.orig && r.call.copy == m.call.copy
    ensures -1 <= r.call.result <= ReadLength(m.call)
    ensures |r.world.calls| == |m.world.calls| + 1
    ensures r.world.calls[..|m.world.calls|] == m.world.calls
    ensures r.world.calls[|m.world.calls|].asked == ReadLength(m.call)
    ensures r.world == m.world.(calls := r.world.calls)
  {
    var c := m.call;
    var p := ReadBuffer(c);
    var asked := ReadLength(c);
    var reply := ReplyAt(env, |m.world.calls|);
    var result := if reply.Failed? then -1 else Min(|reply.bytes|, asked);
    var moved :=
      if reply.Failed? then []
      else match c.direction
           case Reading => reply.bytes[..result]
           case Writing => Fetch(BlockBytes(c, p.block), p.off, result)
           case _ => [];
    var c' := if c.direction.Reading? then WithBlock(c, p.block, Store(BlockBytes(c, p.block), p.off, moved)) else c;
    m.(world := m.world.(calls := m.world.calls + [Invocation(asked, result, moved)]),
       call := c'.(result := result, err := reply.errno))
  }

  function Syscall(env: Env, m: Machine): (Machine, bool) {
    if m.call.aborted then
      (m, false)
    else
      var m := Invoke(env, m);
      var moved := if m.call.result >= 0 then m.call.result else 0;
      (m.(call := m.call.(len := if m.call.buf != Null then moved else m.call.len,
                          origLen := moved, aborted := false, done := true)), true)
  }

  // ----- tasks -----

  type Percent = n: int | 0 <= n <= 100

  datatype Task =
    | Nop
    | Report  // echo, log and dump: output only
    | DoSyscall
    | Split(percent: Percent)
    | Truncate(size: int)
    | DoAlter(proportion: Proportion)
    | Drop
    | CancelSyscall
    | Error(errno: int)
    | Emit(signal: int)
    | Hang(ms: int)
    | LocalHang(ms: int)
    | RemoteHang(ms: int)
    | MarkDone(perSocket: bool, line: int)

  /** The share of a length, with the 64-bit product of the source. */
  function Share(percent: Percent, len: nat): nat {
    (percent * len % SIZE_MODULUS) / 100
  }

  function FirstPart(percent: Percent, len: nat): nat {
    if Share(percent, len) == 0 then 1 else Share(percent, len)
  }

  /** Two partial writes, or one partial read. */
  function PerformSplit(env: Env, m: Machine, percent: Percent): (Machine, bool) {
    var c := m.call;
    if c.done || c.aborted then
      (m, false)
    else if c.direction.Reading? then
      Syscall(env, m.(call := c.(len := FirstPart(percent, c.len))))
    else if c.direction.Writing? then
      var len := ReadLength(c);
      if len == 1 then
        Syscall(env, m)
      else
        (SplitWrite(env, m, FirstPart(percent, len)), true)
    else
      (m, false)
  }

  function SplitWrite(env: Env, m: Machine, first: nat): Machine {
    var c := m.call;
    var len := ReadLength(c);
    var m1 := Syscall(env, m.(call := c.(buf := ReadBuffer(c), len := first))).0;
    var m2 :=
      if m1.call.result == first then
        var p := ReadBuffer(c);
        var rest := m1.call.(done := false, buf := At(p.block, p.off + first), len := (len - first) % SIZE_MODULUS);
        var r := Syscall(env, m1.(call := rest)).0;
        r.(call := r.call.(result := if r.call.result != -1 then r.call.result + first else first))
      else m1;
    m2.(call := m2.call.(buf := c.buf, len := c.len))
  }

  function AsSize(i: int): nat {
    i % SIZE_MODULUS
  }

  function PerformTruncate(m: Machine, size: int): (Machine, bool) {
    var c := m.call;
    if c.done || c.aborted || !CarriesData(c.direction) then
      (m, false)
    else
      (m.(call := c.(origLen := Min(c.origLen, AsSize(size)), len := Min(c.len, AsSize(size)))), true)
  }

  /** The `int` that a length is stored into. */
  function AsInt(n: nat): int {
    var r := n % 0x1_0000_0000;
    if r < 0x8000_0000 then r else r - 0x1_0000_0000
  }

  function AlterBuffer(env: Env, m: Machine, p: Proportion): Machine {
    var c := PrepareBuffer(m.call);
    var bytes := BlockBytes(c, c.buf.block);
    var n := if AsInt(c.len) <= 0 then 0 else Min(AsInt(c.len), |bytes|);
    m.(call := WithBlock(c, c.buf.block, Altered(bytes, n, p, env.rand, m.world.draws)),
       world := m.world.(draws := NextDraw(n, p, env.rand, m.world.draws)))
  }

  function PerformAlter(env: Env, m: Machine, p: Proportion): (Machine, bool) {
    var c := m.call;
    if !CarriesData(c.direction) || (c.direction.Writing? && c.done) then
      (m, false)
    else
      (AlterBuffer(env, if c.direction.Reading? && !c.done then Syscall(env, m).0 else m, p), true)
  }

  /** The tasks that settle the call without making it. */
  function Settle(m: Machine, result: int, err: int): (Machine, bool) {
    if m.call.done then (m, false)
    else (m.(call := m.call.(aborted := true, result := result, err := err)), true)
  }

  function PerformHang(env: Env, m: Machine, pos: nat, ms: int): (Machine, bool) {
    var c := m.call;
    if !c.blocking && c.direction.Reading? && !c.done then
      (Machine(m.world.(clocks := m.world.clocks + 1),
               c.(aborted := true, err := EAGAIN, result := -1),
               m.sock.(hanging := true, pos := pos, msec := (TimeAt(env, m.world.clocks) + ms) % SIZE_MODULUS)), true)
    else
      (m, true)
  }

  function PerformLocalHang(env: Env, m: Machine, pos: nat, ms: int): (Machine, bool) {
    var c := m.call;
    var m := if c.direction.Reading? && !c.done && !c.aborted then Syscall(env, m).0 else m;
    PerformHang(env, m, pos, ms)
  }

  predicate HasTables(m: Machine) {
    0 < |m.call.lines.slots| && 0 < |m.sock.lines.slots|
  }

  function Marked(t: Table<()>, line: int): Table<()>
    requires 0 < |t.slots|
  {
    Put(t, line, Some(()), true).0
  }

  function Perform(env: Env, m: Machine, pos: nat, task: Task): (Machine, bool)
    requires HasTables(m)
  {
    match task
    case Nop => (m, true)
    case Report => (m, true)
    case DoSyscall => Syscall(env, m)
    case Split(percent) => PerformSplit(env, m, percent)
    case Truncate(size) => PerformTruncate(m, size)
    case DoAlter(p) => PerformAlter(env, m, p)
    case Drop => Settle(m, ReadLength(m.call), m.call.err)
    case CancelSyscall => Settle(m, -1, m.call.err)
    case Error(errno) => if m.call.blocking && errno == EAGAIN then (m, false) else Settle(m, -1, errno)
    case Emit(signal) => Settle(m, -1, if signal == SIGPIPE then EPIPE else EINTR)
    case Hang(ms) => PerformHang(env, m, pos, ms)
    case LocalHang(ms) => PerformLocalHang(env, m, pos, ms)
    case RemoteHang(ms) => PerformHang(env, m, pos, ms)
    case MarkDone(perSocket, line) =>
      (if perSocket then m.(sock := m.sock.(lines := Marked(m.sock.lines, line)))
       else m.(call := m.call.(lines := Marked(m.call.lines, line))), true)
  }
}
