/** What the dump task writes inside the rule interpreter, over whole sequences of calls. */
module Traces {
  import opened Alter
  import opened Call
  import opened Queue
  import opened OnceRules
  import Lengths
  import Settlement
  import Codec

  function DirectionCode(d: Direction): int {
    match d case Reading => 1 case Writing => 2 case Connecting => 4 case Closing => 8
  }

  /** The part of an event that comes from elsewhere: the clock, the socket and the error number. */
  datatype Stamp = Stamp(time: nat, proto: int, lport: int, addr: nat, port: int, errno: int)

  predicate GoodStamp(s: Stamp) {
    && s.time < Codec.Power(8) && s.proto in {1, 2} && 0 <= s.lport < Codec.Power(2) && 0 <= s.port < Codec.Power(2)
    && s.addr < Codec.Power(4) && Codec.Fits(s.errno, 4)
  }

  /** The stamps of the dumps, one after the other. */
  function StampAt(stamps: seq<Stamp>, k: nat): Stamp {
    if k < |stamps| then stamps[k] else Stamp(0, 1, 0, 0, 0, 0)
  }

  predicate GoodStamps(stamps: seq<Stamp>) {
    forall i :: 0 <= i < |stamps| ==> GoodStamp(stamps[i])
  }

  /** The event that the dump task writes in the middle of a call. */
  function EventOf(m: Machine, s: Stamp): Codec.Event {
    var c := m.call;
    var bytes := BlockBytes(c, ReadBuffer(c).block);
    Codec.Event(s.time, DirectionCode(c.direction), s.proto, s.lport, s.addr, s.port, c.done, c.aborted, c.result, s.errno,
                ReadLength(c), seq<Codec.Byte>(|bytes|, i requires 0 <= i < |bytes| => bytes[i] as int))
  }

  /** The rule at hand is one of the dump rules, and is run. */
  predicate Dumps(rules: Rules, st: State, lines: set<nat>)
    requires Ready(rules, st)
  {
    st.at.Some? && st.at.value in lines && rules[st.at.value].value.task.Report? && !Skipped(rules[st.at.value].value, st.at.value, st.m)
  }

  /** The events that the dump rules on `lines` write in the first `n` rounds of a loop; the
      file has `k` events already. */
  function DumpsOfRun(env: Env, rules: Rules, st: State, n: nat, lines: set<nat>, stamps: seq<Stamp>, k: nat): seq<Codec.Event>
    requires Ready(rules, st)
    decreases n
  {
    if n == 0 || st.at.None? then []
    else
      var mine := if Dumps(rules, st, lines) then [EventOf(st.m, StampAt(stamps, k))] else [];
      mine + DumpsOfRun(env, rules, Step(env, rules, st), n - 1, lines, stamps, k + |mine|)
  }

  function DumpsOfCall(env: Env, rules: Rules, w: World, sock: SocketData, c: CallMade, lines: set<nat>, stamps: seq<Stamp>, k: nat): seq<Codec.Event>
    requires 0 < |sock.lines.slots| && 0 < |rules|
  {
    var e := Begin(env, rules, w, sock, c.input);
    if e.Entered? then DumpsOfRun(env, rules, e.st, c.rounds, lines, stamps, k) else []
  }

  /** The trace of a sequence of calls on a socket. */
  function TraceOf(env: Env, rules: Rules, w: World, sock: SocketData, calls: seq<CallMade>, lines: set<nat>, stamps: seq<Stamp>, k: nat): seq<Codec.Event>
    requires 0 < |sock.lines.slots| && 0 < |rules|
    decreases calls
  {
    if calls == [] then []
    else
      var events := DumpsOfCall(env, rules, w, sock, calls[0], lines, stamps, k);
      var m := Play(env, rules, w, sock, calls[0]).0;
      events + TraceOf(env, rules, m.world, m.sock, calls[1..], lines, stamps, k + |events|)
  }

  /** What is written is an event of the format, and settled. */
  predicate Readable(es: seq<Codec.Event>) {
    forall i :: 0 <= i < |es| ==> Codec.IsEvent(es[i]) && Codec.Settled(es[i])
  }

  lemma DefaultStampIsGood()
    ensures GoodStamp(Stamp(0, 1, 0, 0, 0, 0))
  {
    Codec.Powers();
  }

  lemma ReachedIsReadable(m: Machine, k: nat, n: nat, orig: seq<Byte>, splits: bool, s: Stamp)
    requires Lengths.Bounded(m, k, n, orig, splits) && Settlement.Consistent(m, k) && n < 0x8000_0000 && GoodStamp(s)
    ensures Codec.IsEvent(EventOf(m, s)) && Codec.Settled(EventOf(m, s))
  {
    Codec.Powers();
    hide Codec.Power;
  }

  lemma {:induction false} RunIsReadable(env: Env, rules: Rules, st: State, rounds: nat, lines: set<nat>, stamps: seq<Stamp>, at: nat,
                                         k: nat, n: nat, orig: seq<Byte>, splits: bool)
    requires Ready(rules, st) && Lengths.AllAllowed(rules, splits) && n < 0x8000_0000 && GoodStamps(stamps)
    requires Lengths.Bounded(st.m, k, n, orig, splits) && Settlement.Consistent(st.m, k)
    ensures Readable(DumpsOfRun(env, rules, st, rounds, lines, stamps, at))
    decreases rounds
  {
    hide Step, Dumps, Lengths.Bounded, Lengths.AllAllowed, Settlement.Consistent, EventOf, GoodStamp, Codec.IsEvent, Codec.Settled;
    if rounds > 0 && st.at.Some? {
      Lengths.StepBounded(env, rules, st, k, n, orig, splits);
      Settlement.StepSettles(env, rules, st, k);
      DefaultStampIsGood();
      ReachedIsReadable(st.m, k, n, orig, splits, StampAt(stamps, at));
      var mine := if Dumps(rules, st, lines) then [EventOf(st.m, StampAt(stamps, at))] else [];
      RunIsReadable(env, rules, Step(env, rules, st), rounds - 1, lines, stamps, at + |mine|, k, n, orig, splits);
    }
  }

  /** A call whose length is an `int` and on which the rules keep within bounds. */
  ghost predicate GoodCall(rules: Rules, c: CallMade) {
    Lengths.Safe(rules, c.input) && c.input.len < 0x8000_0000
  }

  lemma BeginIsConsistent(env: Env, rules: Rules, w: World, sock: SocketData, input: Input)
    requires 0 < |sock.lines.slots| && 0 < |rules| && Begin(env, rules, w, sock, input).Entered?
    ensures Settlement.Consistent(Begin(env, rules, w, sock, input).st.m, |w.calls|)
  {
    hide GetMatch, Invoke;
  }

  lemma CallIsReadable(env: Env, rules: Rules, w: World, sock: SocketData, c: CallMade, lines: set<nat>, stamps: seq<Stamp>, k: nat)
    requires 0 < |sock.lines.slots| && 0 < |rules| && GoodCall(rules, c) && GoodStamps(stamps)
    ensures Readable(DumpsOfCall(env, rules, w, sock, c, lines, stamps, k))
  {
    var splits := !Lengths.AllAllowed(rules, false);
    Lengths.BeginBounded(env, rules, w, sock, c.input, splits);
    var e := Begin(env, rules, w, sock, c.input);
    hide Begin, Lengths.Bounded;
    if e.Entered? {
      BeginIsConsistent(env, rules, w, sock, c.input);
      RunIsReadable(env, rules, e.st, c.rounds, lines, stamps, k, |w.calls|, c.input.len, c.input.bytes, splits);
    }
  }

  lemma {:induction false} TraceIsReadable(env: Env, rules: Rules, w: World, sock: SocketData, calls: seq<CallMade>,
                                           lines: set<nat>, stamps: seq<Stamp>, k: nat)
    requires 0 < |sock.lines.slots| && 0 < |rules| && GoodStamps(stamps)
    requires forall c :: c in calls ==> GoodCall(rules, c)
    ensures Readable(TraceOf(env, rules, w, sock, calls, lines, stamps, k))
    decreases calls
  {
    hide Play, DumpsOfCall, GoodCall, GoodStamps, Codec.IsEvent, Codec.Settled;
    if calls != [] {
      CallIsReadable(env, rules, w, sock, calls[0], lines, stamps, k);
      var events := DumpsOfCall(env, rules, w, sock, calls[0], lines, stamps, k);
      var m := Play(env, rules, w, sock, calls[0]).0;
      TraceIsReadable(env, rules, m.world, m.sock, calls[1..], lines, stamps, k + |events|);
    }
  }

  /** Everything that dump rules write during any sequence of calls on a socket, in whatever
      state the rules before them have left the calls, is read back as it was written. */
  lemma DumpsAreReadable(env: Env, rules: Rules, w: World, sock: SocketData, calls: seq<CallMade>, lines: set<nat>, stamps: seq<Stamp>)
    requires 0 < |sock.lines.slots| && 0 < |rules| && GoodStamps(stamps)
    requires forall c :: c in calls ==> GoodCall(rules, c)
    ensures var es := TraceOf(env, rules, w, sock, calls, lines, stamps, 0);
            && Codec.Events(es)
            && Codec.ReadAll(Codec.EncodeAll(es)) == (Codec.RecordsOf(es), [])
            && Codec.Reverse(Codec.Reverse(Codec.EncodeAll(es))) == Codec.EncodeAll(es)
  {
    TraceIsReadable(env, rules, w, sock, calls, lines, stamps, 0);
    hide TraceOf, Codec.IsEvent, Codec.Settled, Codec.EncodeAll, Codec.ReadAll, Codec.RecordsOf, Codec.Reverse, GoodCall, GoodStamps;
    Codec.TraceRoundTrip(TraceOf(env, rules, w, sock, calls, lines, stamps, 0));
  }

  // ----- what the entries show -----

  /** How many dump rules the first `i` rounds of a loop run. */
  function DumpsBefore(env: Env, rules: Rules, st: State, i: nat, lines: set<nat>): nat
    requires Ready(rules, st)
    decreases i
  {
    if i == 0 || st.at.None? then 0
    else (if Dumps(rules, st, lines) then 1 else 0) + DumpsBefore(env, rules, Step(env, rules, st), i - 1, lines)
  }

  /** A dump rule that is run in round `i` writes the event of the state in that round, in its turn. */
  lemma {:induction false} DumpIsOfItsRound(env: Env, rules: Rules, st: State, n: nat, lines: set<nat>, stamps: seq<Stamp>, k: nat, i: nat)
    requires Ready(rules, st) && i < n && Dumps(rules, Run(env, rules, st, i), lines)
    ensures var j := DumpsBefore(env, rules, st, i, lines);
            var es := DumpsOfRun(env, rules, st, n, lines, stamps, k);
            j < |es| && es[j] == EventOf(Run(env, rules, st, i).m, StampAt(stamps, k + j))
    decreases n
  {
    hide Step, EventOf, Dumps;
    if st.at.None? {
      NoDump(rules, st, lines);
    } else if i > 0 {
      var mine := if Dumps(rules, st, lines) then [EventOf(st.m, StampAt(stamps, k))] else [];
      DumpIsOfItsRound(env, rules, Step(env, rules, st), n - 1, lines, stamps, k + |mine|, i - 1);
    }
  }

  lemma NoDump(rules: Rules, st: State, lines: set<nat>)
    requires Ready(rules, st) && st.at.None?
    ensures !Dumps(rules, st, lines)
  {
  }

  /** And nothing else is written. */
  lemma {:induction false} OnlyDumpsAreWritten(env: Env, rules: Rules, st: State, n: nat, lines: set<nat>, stamps: seq<Stamp>, k: nat)
    requires Ready(rules, st)
    ensures |DumpsOfRun(env, rules, st, n, lines, stamps, k)| == DumpsBefore(env, rules, st, n, lines)
    decreases n
  {
    hide Step, EventOf, Dumps;
    if n > 0 && st.at.Some? {
      var mine := if Dumps(rules, st, lines) then [EventOf(st.m, StampAt(stamps, k))] else [];
      OnlyDumpsAreWritten(env, rules, Step(env, rules, st), n - 1, lines, stamps, k + |mine|);
    }
  }

  /** An event shows the direction, the state and the current bytes of the call. */
  lemma EventShows(m: Machine, s: Stamp, i: nat)
    requires ReadBuffer(m.call).off == 0 && WithinBuffer(m.call) && i < ReadLength(m.call)
    ensures var e := EventOf(m, s);
            && e.direction == (if m.call.direction.Reading? then 1 else if m.call.direction.Writing? then 2 else if m.call.direction.Connecting? then 4 else 8)
            && e.time == s.time && e.proto == s.proto && e.lport == s.lport && e.addr == s.addr && e.port == s.port && e.errno == s.errno
            && e.done == m.call.done && e.aborted == m.call.aborted && e.result == m.call.result
            && e.len == ReadLength(m.call) <= |e.bytes|
            && e.bytes[i] == (if m.call.buf == Null || m.call.buf.block == Own then m.call.orig[i] else m.call.copy[i]) as int
  {
  }

  /** The dump of a write that is still to be made shows what the system is then asked to send: if the
      loop ends there, so many bytes are asked for, and those that go out are those in the trace. */
  lemma DumpShowsWhatIsSent(env: Env, m: Machine, s: Stamp)
    requires m.call.direction.Writing? && !m.call.done && !m.call.aborted && ReadBuffer(m.call).off == 0 && WithinBuffer(m.call)
    ensures var e := EventOf(m, s);
            var sent := Finish(env, m).world.calls;
            && |sent| == |m.world.calls| + 1 && sent[|m.world.calls|].asked == e.len <= |e.bytes|
            && |sent[|m.world.calls|].moved| <= e.len
            && forall i :: 0 <= i < |sent[|m.world.calls|].moved| ==> sent[|m.world.calls|].moved[i] as int == e.bytes[i]
  {
  }

  /** The dump of a read that was made shows what the program finds in its buffer. */
  lemma DumpShowsWhatIsRead(env: Env, m: Machine, s: Stamp, i: nat)
    requires m.call.direction.Reading? && m.call.done && m.call.buf == At(Own, 0) && WithinBuffer(m.call) && i < m.call.len
    ensures var e := EventOf(m, s);
            e.len == m.call.len <= |e.bytes| && Finish(env, m).call.orig == m.call.orig && e.bytes[i] == m.call.orig[i] as int
  {
  }
}
