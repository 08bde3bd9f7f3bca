/** Listing a table of rules and loading the lines again: the new table runs every
    intercepted call as the old one (`src/actions.c`, `src/conffile.c`). */
module Reload {
  import opened Options
  import opened Parsers
  import opened Grammar
  import opened RuleText
  import opened ParsedRules
  import opened AcceptedRules
  import Alter
  import Call
  import Queue

  type RuleLines = seq<Option<Rule>>

  // ----- the program that a table of rules is -----

  function TaskOfRule(t: Task): Option<Call.Task> {
    match t
    case Alter(n) => if 0 < n < 0x4000_0000 then Some(Call.DoAlter(n)) else None
    case CancelSyscall => Some(Call.CancelSyscall)
    case Drop => Some(Call.Drop)
    case Dump(_) => Some(Call.Report)
    case Echo(_) => Some(Call.Report)
    case Emit(n) => Some(Call.Emit(n))
    case Error(n) => Some(Call.Error(n))
    case Hang(n) => Some(Call.Hang(n))
    case LocalHang(n) => Some(Call.LocalHang(n))
    case Log(_) => Some(Call.Report)
    case MarkDone(call, n) => Some(Call.MarkDone(!call, n))
    case Nop => Some(Call.Nop)
    case RemoteHang(n) => Some(Call.RemoteHang(n))
    case Remove(_) => None
    case Replay(_) => None
    case Reset => None
    case Split(n) => if 0 <= n <= 100 then Some(Call.Split(n)) else None
    case Syscall => Some(Call.DoSyscall)
    case Truncate(n) => Some(Call.Truncate(n))
  }

  function ModeOfRule(m: DoMode): Option<Queue.Mode> {
    match m
    case Normal => Some(Queue.Normal)
    case Once => None
    case OncePerCall => Some(Queue.OncePerCall)
    case OncePerSocket => Some(Queue.OncePerSocket)
  }

  function NextOfRule(j: Jump): Option<Queue.Next> {
    match j
    case Continue => Some(Queue.Continue)
    case Goto(line) => if 0 <= line then Some(Queue.Goto(line)) else None
    case NextRule => Some(Queue.FollowNext)
    case Exec(line) => if 0 <= line then Some(Queue.Exec(line)) else None
    case Stop => Some(Queue.Stop)
  }

  /** What the interpreter makes of a rule, unless it is of a kind that is not part of its model. */
  function Compiled(r: Rule): Option<Queue.Rule> {
    match (ModeOfRule(r.mode), TaskOfRule(r.task), NextOfRule(r.jump))
    case (Some(mode), Some(task), Some(next)) => Some(Queue.Rule(mode, task, next))
    case _ => None
  }

  function CompiledLine(line: Option<Rule>): Option<Queue.Rule> {
    if line == None then None else Compiled(line.value)
  }

  predicate Compilable(rules: RuleLines) {
    forall i :: 0 <= i < |rules| && rules[i].Some? ==> CompiledLine(rules[i]).Some?
  }

  function Program(rules: RuleLines): (p: Queue.Rules)
    ensures |p| == |rules|
  {
    seq(|rules|, i requires 0 <= i < |rules| => CompiledLine(rules[i]))
  }

  function EventOf(d: Call.Direction): Event {
    match d
    case Reading => Reads
    case Writing => Writes
    case Connecting => Connects
    case Closing => Closes
  }

  /** The lines that match a socket at a search, given the lines whose condition holds then. */
  function MatchingLines(rules: RuleLines, si: SocketView, e: Event, holds: set<nat>): set<nat> {
    set i | i in holds && i < |rules| && rules[i].Some? && Matches(rules[i].value, si, e, true)
  }

  /** The outside of a call: the conditions at every search, the system, the clock and the random source. */
  datatype Outside = Outside(si: SocketView, holds: seq<set<nat>>, replies: seq<Call.Reply>, clock: seq<nat>, rand: Alter.Random)

  function EnvOf(rules: RuleLines, o: Outside, e: Event): Call.Env {
    Call.Env(seq(|o.holds|, k requires 0 <= k < |o.holds| => MatchingLines(rules, o.si, e, o.holds[k])), o.replies, o.clock, o.rand)
  }

  // ----- listing and loading -----

  /** The rule on a line knows its line. */
  predicate WellPlaced(rules: RuleLines) {
    forall i :: 0 <= i < |rules| && rules[i].Some? ==> rules[i].value.pos == i
  }

  predicate AllGood(rules: RuleLines) {
    forall i :: 0 <= i < |rules| && rules[i].Some? ==> Good(rules[i].value) && Printable(rules[i].value.task)
  }

  /** An empty table, after the lines printed for the first `n` lines have been put into it. */
  function Loaded(rules: RuleLines, n: nat, end: LineEnd, names: Names): RuleLines
    requires n <= |rules| && GoodNames(names)
  {
    if n == 0 then seq(|rules|, _ => None)
    else
      var before := Loaded(rules, n - 1, end, names);
      if rules[n - 1] == None then before
      else
        match Show(rules[n - 1].value, end)
        case None => before
        case Some(text) =>
          if FitsTable(before, Parse(text, None, names)) then PutRule(before, text, None, false, names).rules else before
  }

  function NormalLine(line: Option<Rule>): Option<Rule> {
    if line == None then None else Some(Normalized(line.value))
  }

  lemma PutsPrinted(rules: RuleLines, r: Rule, end: LineEnd, names: Names)
    requires GoodNames(names) && KeepsQuads(names) && Good(r) && Printable(r.task) && 0 <= r.pos < |rules| && rules[r.pos] == None
    ensures Show(r, end).Some? && FitsTable(rules, Parse(Show(r, end).value, None, names))
    ensures PutRule(rules, Show(r, end).value, None, false, names).rules == rules[r.pos := Some(Normalized(r))]
  {
    hide Parse, Show, RuleOf, GoodNames, KeepsQuads, Good, Printable;
    PrintThenParse(r, end, None, names);
  }

  /** Loading gives every line its rule back, without the port of `dns`. */
  lemma {:induction false} LoadedIsNormal(rules: RuleLines, n: nat, end: LineEnd, names: Names)
    requires n <= |rules| && GoodNames(names) && KeepsQuads(names) && WellPlaced(rules) && AllGood(rules)
    ensures |Loaded(rules, n, end, names)| == |rules|
    ensures forall i :: 0 <= i < |rules| ==> Loaded(rules, n, end, names)[i] == if i < n then NormalLine(rules[i]) else None
  {
    hide Parse, Show, RuleOf, GoodNames, KeepsQuads, Good, Printable, Normalized, PutRule, FitsTable;
    if n > 0 {
      LoadedIsNormal(rules, n - 1, end, names);
      if rules[n - 1].Some? {
        PutsPrinted(Loaded(rules, n - 1, end, names), rules[n - 1].value, end, names);
      }
    }
  }

  lemma NormalLineIsSame(line: Option<Rule>)
    ensures CompiledLine(NormalLine(line)) == CompiledLine(line)
  {
  }

  lemma NormalRuleMatches(r: Rule, si: SocketView, e: Event)
    ensures Matches(Normalized(r), si, e, true) == Matches(r, si, e, true)
  {
    hide AddressMatch, NormalHost;
    NormalHostMatches(r.source, si.local);
    NormalHostMatches(r.source, si.remote);
    NormalHostMatches(r.target, si.local);
    NormalHostMatches(r.target, si.remote);
    NormalKind(r.target);
  }

  lemma SameMatches(rules: RuleLines, back: RuleLines, si: SocketView, e: Event, holds: set<nat>)
    requires |back| == |rules| && forall i :: 0 <= i < |rules| ==> back[i] == NormalLine(rules[i])
    ensures MatchingLines(back, si, e, holds) == MatchingLines(rules, si, e, holds)
  {
    forall i: nat | i < |rules| && rules[i].Some? ensures Matches(back[i].value, si, e, true) == Matches(rules[i].value, si, e, true) {
      NormalRuleMatches(rules[i].value, si, e);
    }
    hide Matches, Normalized;
  }

  lemma SameEnv(rules: RuleLines, back: RuleLines, o: Outside, e: Event)
    requires |back| == |rules| && forall i :: 0 <= i < |rules| ==> back[i] == NormalLine(rules[i])
    ensures EnvOf(back, o, e) == EnvOf(rules, o, e)
  {
    hide MatchingLines, NormalLine;
    forall k | 0 <= k < |o.holds| {
      SameMatches(rules, back, o.si, e, o.holds[k]);
    }
  }

  lemma SameProgram(rules: RuleLines, back: RuleLines)
    requires |back| == |rules| && forall i :: 0 <= i < |rules| ==> back[i] == NormalLine(rules[i])
    ensures Program(back) == Program(rules)
  {
    hide CompiledLine, NormalLine;
    forall i | 0 <= i < |rules| ensures CompiledLine(back[i]) == CompiledLine(rules[i]) {
      NormalLineIsSame(rules[i]);
    }
  }

  /** Every call, on every socket and with every behaviour of the outside, goes the
      same way with the rules that were listed and loaded again. */
  lemma ReloadedRulesRunTheSame(rules: RuleLines, end: LineEnd, names: Names, o: Outside, w: Call.World, sock: Call.SocketData,
                                input: Queue.Input, n: nat)
    requires GoodNames(names) && KeepsQuads(names) && WellPlaced(rules) && AllGood(rules) && Compilable(rules)
    requires 0 < |rules| && 0 < |sock.lines.slots|
    ensures var back := Loaded(rules, |rules|, end, names);
            var e := EventOf(input.direction);
            && |back| == |rules|
            && Queue.ProcessCall(EnvOf(back, o, e), Program(back), w, sock, input, n)
               == Queue.ProcessCall(EnvOf(rules, o, e), Program(rules), w, sock, input, n)
  {
    hide Queue.ProcessCall, Program, EnvOf, Loaded, GoodNames, KeepsQuads, WellPlaced, AllGood, NormalLine;
    LoadedIsNormal(rules, |rules|, end, names);
    SameProgram(rules, Loaded(rules, |rules|, end, names));
    SameEnv(rules, Loaded(rules, |rules|, end, names), o, EventOf(input.direction));
  }
}
