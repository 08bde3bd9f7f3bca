/** Every accepted instruction gives a rule, which can be printed and read back; and what
    `ActionQueue_put` tells its caller (`src/actions.c`, `src/runtime.c`). */
module AcceptedRules {
  import opened Options
  import opened Parsers
  import opened Readers
  import opened Grammar
  import opened RoundTrip
  import opened PrintedRules
  import opened RuleText
  import opened ParsedRules

  // ----- the sections of a rule write to their own fields -----

  lemma NoChoiceMentions(p: Parser, k: Slot)
    requires p.First? && forall i :: 0 <= i < |p.parts| ==> !Mentions(p.parts[i], k)
    ensures !Mentions(p, k)
  {
  }

  lemma TagMentions(keyword: string, code: int, k: Slot)
    requires k != Direction
    ensures !Mentions(Spaced(Suite([Constant(keyword), Assign(Direction, code)])), k)
  {
    var p := Suite([Constant(keyword), Assign(Direction, code)]);
    assert !Mentions(p.parts[0], k) && !Mentions(p.parts[1], k);
    NoPartMentions(p, k);
    hide Mentions;
    SpacedMentions(p, k);
  }

  lemma NotElsewhere(k: Slot)
    requires !HostSlot(k)
    ensures Elsewhere(k, Source) && Elsewhere(k, Target) && k != Direction
  {
  }

  lemma WhoMentions(k: Slot)
    requires !HostSlot(k)
    ensures !Mentions(WhoParser(), k)
  {
    NotElsewhere(k);
    AssignMentions(k);
    hide Mentions, Spaced, HostParser, HostSlot;
    HostMentions("with", Source, k);
    HostMentions("talk-with", Source, k);
    HostMentions("from", Source, k);
    HostMentions("to", Target, k);
    TagMentions("connect", 4, k);
    TagMentions("close", 8, k);
    NoPartMentions(WithParser(), k);
    NoChoiceMentions(StartParser(), k);
    NoPartMentions(Suite([StartParser(), Spaced(HostParser("to", Target))]), k);
    NoChoiceMentions(WhoParser(), k);
  }

  lemma AssignMentions(k: Slot)
    requires k != Direction
    ensures !Mentions(Assign(Direction, 15), k)
  {
  }

  lemma NoDefinitionMentions(p: Parser, k: Slot)
    requires p.Named? && k != p.dest
    requires forall i :: 0 <= i < |p.definitions| && p.definitions[i].Argument? ==> !Mentions(p.definitions[i].argument, k)
    ensures !Mentions(p, k)
  {
  }

  lemma WhenMentions(k: Slot)
    requires !ConditionSlot(k)
    ensures !Mentions(WhenParser(), k)
  {
    hide Mentions;
    var p := ConditionParser();
    forall i: nat | i < |p.definitions| && p.definitions[i].Argument? ensures !Mentions(p.definitions[i].argument, k) {
      ConditionMentions(i, k);
    }
    NoDefinitionMentions(p, k);
    SpacedMentions(p, k);
    ConstantMentions("when", k);
    NoPartMentions(WhenParser(), k);
  }

  lemma ModeMentions(k: Slot)
    requires k != Mode
    ensures !Mentions(EnumElement(Mode, MODES, 0), k)
  {
  }

  lemma DoMentions(k: Slot)
    requires !TaskSlot(k)
    ensures !Mentions(DoParser(), k)
  {
    hide Mentions;
    var p := TaskParser();
    forall i: nat | i < |p.definitions| && p.definitions[i].Argument? ensures !Mentions(p.definitions[i].argument, k) {
      TaskMentions(i, k);
    }
    NoDefinitionMentions(p, k);
    SpacedMentions(p, k);
    ModeMentions(k);
    SpacedMentions(EnumElement(Mode, MODES, 0), k);
    NoPartMentions(DoParser(), k);
  }

  lemma EndMentions(k: Slot)
    ensures !Mentions(Optional([SpaceElement]), k) && !Mentions(EobElement, k)
    ensures !JumpSlot(k) ==> !Mentions(NextElement, k)
  {
    assert !Mentions(Optional([SpaceElement]).parts[0], k);
    NoPartMentions(Optional([SpaceElement]), k);
  }

  lemma Parts()
    ensures RuleParser().Suite? && |RuleParser().parts| == 9
    ensures RuleParser().parts[0] == Spaced(IntElement(Pos)) && RuleParser().parts[1] == Spaced(Constant("on"))
    ensures RuleParser().parts[2] == Spaced(EnumElement(Proto, PROTOS, 0)) && RuleParser().parts[3] == WhoParser()
    ensures RuleParser().parts[4] == WhenParser() && RuleParser().parts[5] == DoParser() && RuleParser().parts[6] == NextElement
    ensures RuleParser().parts[7] == Optional([SpaceElement]) && RuleParser().parts[8] == EobElement
  {
    hide WhoParser, WhenParser, DoParser, Spaced;
  }

  /** From the `i`-th part on, a rule only writes to the fields of the sections that remain. */
  lemma RestKeeps(i: nat, s: State, names: Names, k: Slot)
    requires 3 <= i <= 7
    requires (HostSlot(k) ==> i > 3) && (ConditionSlot(k) ==> i > 4) && (TaskSlot(k) ==> i > 5) && (JumpSlot(k) ==> i > 6)
    requires HostSlot(k) || ConditionSlot(k) || TaskSlot(k) || JumpSlot(k) || k == Pos || k == Proto
    ensures i <= |RuleParser().parts| && Agree(s.fields, RunAll(RuleParser(), i, s, names).after.fields, k)
  {
    hide Mentions, Agree, RunAll, RuleParser, WhoParser, WhenParser, DoParser, Spaced;
    Parts();
    EndMentions(k);
    if !HostSlot(k) {
      WhoMentions(k);
    }
    if !ConditionSlot(k) {
      WhenMentions(k);
    }
    if !TaskSlot(k) {
      DoMentions(k);
    }
    FrameAll(RuleParser(), i, s, names, k);
  }

  // ----- an accepted instruction, part by part -----

  predicate HasHead(f: Fields) {
    IntAt(f, Pos) && ProtocolOf(f).Some?
  }

  lemma ProtoGives(s: State, names: Names)
    requires Run(Spaced(EnumElement(Proto, PROTOS, 0)), s, names).ok
    ensures var f := Run(Spaced(EnumElement(Proto, PROTOS, 0)), s, names).after.fields;
            ProtocolOf(f).Some? && forall k :: k != Proto ==> Agree(s.fields, f, k)
  {
    hide Run, ReadEnum, Spaced, Agree;
    SpacedGives(EnumElement(Proto, PROTOS, 0), s, names);
    RunLeaf(EnumElement(Proto, PROTOS, 0), s, names);
    EnumGives(s, Proto, PROTOS, 0);
    forall k | k != Proto ensures Agree(s.fields, Run(Spaced(EnumElement(Proto, PROTOS, 0)), s, names).after.fields, k) {
      EnumKeeps(s, Proto, PROTOS, 0, k);
    }
  }

  lemma OnGives(s: State, names: Names)
    ensures Run(Spaced(Constant("on")), s, names).after.fields == s.fields
  {
    hide Run, ReadConstant;
    SpacedGives(Constant("on"), s, names);
    RunLeaf(Constant("on"), s, names);
    ConstantKeeps(s, "on");
  }

  /** The fields that an instruction starts with. */
  predicate IsDefault(f: Fields) {
    Fresh(f) && NumberAt(f, ConditionType) == Some(ALWAYS) && NumberAt(f, TaskType) == Some(NOP)
  }

  lemma StillDefault(f: Fields, g: Fields)
    requires IsDefault(f) && Agree(f, g, HostType(Source)) && Agree(f, g, HostType(Target)) && Agree(f, g, Direction)
    requires Agree(f, g, ConditionType) && Agree(f, g, TaskType)
    ensures IsDefault(g)
  {
  }

  lemma HeadGives(s: State, names: Names) returns (t: State)
    requires IsDefault(s.fields) && RunAll(RuleParser(), 0, s, names).ok
    ensures IsDefault(t.fields) && HasHead(t.fields) && RunAll(RuleParser(), 0, s, names) == RunAll(RuleParser(), 3, t, names)
  {
    hide Run, RunAll, IsDefault, Agree, IntAt, ProtocolOf, Spaced, RuleParser;
    Parts();
    var p := RuleParser();
    NextPart(p, 0, s, names);
    SpacedIntGives(Pos, s, names);
    var one := Run(p.parts[0], s, names).after;
    StillDefault(s.fields, one.fields);
    NextPart(p, 1, one, names);
    OnGives(one, names);
    var two := Run(p.parts[1], one, names).after;
    NextPart(p, 2, two, names);
    ProtoGives(two, names);
    t := Run(p.parts[2], two, names).after;
    StillDefault(two.fields, t.fields);
    StillInt(two.fields, t.fields, Pos);
  }

  /** A section succeeds, and the rest of the instruction keeps what it wrote. */
  lemma WhoSection(s: State, names: Names) returns (t: State)
    requires IsDefault(s.fields) && HasHead(s.fields) && GoodNames(names) && RunAll(RuleParser(), 3, s, names).ok
    ensures RunAll(RuleParser(), 3, s, names) == RunAll(RuleParser(), 4, t, names)
    ensures NumberAt(t.fields, ConditionType) == Some(ALWAYS) && NumberAt(t.fields, TaskType) == Some(NOP)
    ensures var g := RunAll(RuleParser(), 3, s, names).after.fields; HasHead(g) && HasHosts(g)
  {
    hide Run, RunAll, Agree, RuleParser, WhoParser, HasHosts, GoodNames, Mentions;
    Parts();
    NextPart(RuleParser(), 3, s, names);
    WhoGives(s, names);
    t := Run(WhoParser(), s, names).after;
    WhoMentions(ConditionType);
    WhoMentions(TaskType);
    Frame(WhoParser(), s, names, ConditionType);
    Frame(WhoParser(), s, names, TaskType);
    SameNumber(s.fields, t.fields, ConditionType);
    SameNumber(s.fields, t.fields, TaskType);
    var g := RunAll(RuleParser(), 3, s, names).after.fields;
    RestKeeps(3, s, names, Pos);
    RestKeeps(3, s, names, Proto);
    SameHead(s.fields, g);
    HostsStay(t, names);
  }

  lemma SameNumber(f: Fields, g: Fields, k: Slot)
    requires Agree(f, g, k)
    ensures NumberAt(f, k) == NumberAt(g, k)
  {
  }

  lemma SameHead(f: Fields, g: Fields)
    requires HasHead(f) && Agree(f, g, Pos) && Agree(f, g, Proto)
    ensures HasHead(g)
  {
  }

  lemma SameHosts(f: Fields, g: Fields)
    requires HasHosts(f) && forall k :: HostSlot(k) ==> Agree(f, g, k)
    ensures HasHosts(g)
  {
    hide HostOf, HasHost;
    SameNumber(f, g, Direction);
    HasSameHost(f, g, Source);
    HasSameHost(f, g, Target);
  }

  lemma HostsStay(t: State, names: Names)
    requires HasHosts(t.fields)
    ensures HasHosts(RunAll(RuleParser(), 4, t, names).after.fields)
  {
    hide RunAll, Agree, RuleParser, HasHosts, HostSlot;
    Parts();
    var g := RunAll(RuleParser(), 4, t, names).after.fields;
    forall k | HostSlot(k) ensures Agree(t.fields, g, k) {
      NotHost(k);
      RestKeeps(4, t, names, k);
    }
    SameHosts(t.fields, g);
  }

  lemma NotHost(k: Slot)
    requires HostSlot(k)
    ensures !ConditionSlot(k) && !TaskSlot(k) && !JumpSlot(k)
  {
  }

  lemma WhenSection(s: State, names: Names) returns (t: State)
    requires NumberAt(s.fields, ConditionType) == Some(ALWAYS) && NumberAt(s.fields, TaskType) == Some(NOP)
    requires RunAll(RuleParser(), 4, s, names).ok
    ensures RunAll(RuleParser(), 4, s, names) == RunAll(RuleParser(), 5, t, names)
    ensures NumberAt(t.fields, TaskType) == Some(NOP)
    ensures HasCondition(RunAll(RuleParser(), 4, s, names).after.fields)
  {
    hide Run, RunAll, Agree, RuleParser, WhenParser, ConditionOf, GoodCondition, Mentions;
    Parts();
    NextPart(RuleParser(), 4, s, names);
    WhenGives(s, names);
    t := Run(WhenParser(), s, names).after;
    WhenMentions(TaskType);
    Frame(WhenParser(), s, names, TaskType);
    SameNumber(s.fields, t.fields, TaskType);
    var g := RunAll(RuleParser(), 5, t, names).after.fields;
    RestKeeps(5, t, names, ConditionType);
    RestKeeps(5, t, names, CD0);
    RestKeeps(5, t, names, CD1);
    RestKeeps(5, t, names, CD2);
    SameCondition(t.fields, g);
  }

  lemma DoSection(s: State, names: Names) returns (t: State)
    requires NumberAt(s.fields, TaskType) == Some(NOP) && RunAll(RuleParser(), 5, s, names).ok
    ensures RunAll(RuleParser(), 5, s, names) == RunAll(RuleParser(), 6, t, names)
    ensures var g := RunAll(RuleParser(), 5, s, names).after.fields; HasTask(g) && ModeOf(g).Some?
  {
    hide Run, RunAll, Agree, RuleParser, DoParser, TaskOf, ModeOf, GoodTask, Mentions;
    Parts();
    NextPart(RuleParser(), 5, s, names);
    DoGives(s, names);
    t := Run(DoParser(), s, names).after;
    var g := RunAll(RuleParser(), 6, t, names).after.fields;
    RestKeeps(6, t, names, TaskType);
    RestKeeps(6, t, names, TD0);
    RestKeeps(6, t, names, TD1);
    RestKeeps(6, t, names, Mode);
    SameTask(t.fields, g);
  }

  lemma NextSection(s: State, names: Names)
    requires RunAll(RuleParser(), 6, s, names).ok
    ensures var g := RunAll(RuleParser(), 6, s, names).after.fields; JumpOf(g).Some? && GoodJump(JumpOf(g).value)
  {
    hide Run, RunAll, Agree, RuleParser, JumpOf, GoodJump, ReadNext;
    Parts();
    NextPart(RuleParser(), 6, s, names);
    RunLeaf(NextElement, s, names);
    NextGives(s);
    var t := ReadNext(s).after;
    RestKeeps(7, t, names, NextType);
    RestKeeps(7, t, names, NextLine);
    SameNumber(t.fields, RunAll(RuleParser(), 7, t, names).after.fields, NextType);
    SameNumber(t.fields, RunAll(RuleParser(), 7, t, names).after.fields, NextLine);
    SameJump(t.fields, RunAll(RuleParser(), 7, t, names).after.fields);
  }

  lemma SameJump(f: Fields, g: Fields)
    requires NumberAt(f, NextType) == NumberAt(g, NextType) && NumberAt(f, NextLine) == NumberAt(g, NextLine)
    ensures JumpOf(f) == JumpOf(g)
  {
  }

  lemma MakesRule(f: Fields)
    requires HasHead(f) && HasHosts(f) && HasCondition(f) && HasTask(f) && ModeOf(f).Some? && JumpOf(f).Some? && GoodJump(JumpOf(f).value)
    ensures RuleOf(f).Some? && Good(RuleOf(f).value)
  {
    hide ConditionOf, TaskOf, ModeOf, JumpOf, GoodTask, GoodJump, GoodCondition;
  }

  lemma DefaultIs()
    ensures IsDefault(Defaults())
  {
  }

  /** Every instruction that is accepted gives a rule with every field in place, and within bounds. */
  lemma AcceptedIsGood(instruction: string, status: Option<nat>, names: Names)
    requires GoodNames(names) && Parse(instruction, status, names).ok
    ensures var f := Parse(instruction, status, names).after.fields; RuleOf(f).Some? && Good(RuleOf(f).value)
  {
    hide Run, RunAll, RuleParser, IsDefault, HasHead, HasHosts, HasCondition, HasTask, ModeOf, JumpOf, GoodJump, GoodNames, NumberAt, RuleOf, Good,
      Defaults;
    DefaultIs();
    var s := State(instruction, status, Defaults());
    Parts();
    RunSuite(RuleParser(), s, names);
    var one := HeadGives(s, names);
    var two := WhoSection(one, names);
    var three := WhenSection(two, names);
    var four := DoSection(three, names);
    NextSection(four, names);
    MakesRule(RunAll(RuleParser(), 0, s, names).after.fields);
  }

  /** Whatever instruction a rule came from, its printed text is accepted again and gives the
      same rule, but for the port of `dns`, exactly if its task is printable. */
  lemma AcceptedRoundTripIff(instruction: string, end: LineEnd, first: Option<nat>, again: Option<nat>, names: Names)
    requires GoodNames(names) && KeepsQuads(names) && Parse(instruction, first, names).ok
    ensures RuleOf(Parse(instruction, first, names).after.fields).Some?
    ensures var r := RuleOf(Parse(instruction, first, names).after.fields).value;
            (Show(r, end).Some? && var o := Parse(Show(r, end).value, again, names); o.ok && RuleOf(o.after.fields) == Some(Normalized(r)))
            <==> Printable(r.task)
  {
    hide Parse, RuleOf, Show, KeepsQuads, GoodNames, Good, Printable;
    AcceptedIsGood(instruction, first, names);
    RoundTripIff(RuleOf(Parse(instruction, first, names).after.fields).value, end, again, names);
  }

  // ----- putting a rule into the table -----

  datatype Put = Put(ok: bool, status: Option<nat>, rules: seq<Option<Rule>>)

  /** The line of an accepted instruction is a line of the table; the source does not check it. */
  predicate FitsTable(rules: seq<Option<Rule>>, o: Outcome) {
    o.ok && RuleOf(o.after.fields).Some? ==> 0 <= RuleOf(o.after.fields).value.pos < |rules|
  }

  /** `ActionQueue_put`: what it answers, the status, and the table after it. */
  function PutRule(rules: seq<Option<Rule>>, instruction: string, status: Option<nat>, replace: bool, names: Names): Put
    requires GoodNames(names) && FitsTable(rules, Parse(instruction, status, names))
  {
    hide Run, RuleOf, Defaults, RuleParser, GoodNames, Good;
    var o := Parse(instruction, status, names);
    if !o.ok then Put(false, o.after.status, rules)
    else
      AcceptedIsGood(instruction, status, names);
      var r := RuleOf(o.after.fields).value;
      if rules[r.pos] == None || replace then Put(true, o.after.status, rules[r.pos := Some(r)]) else Put(false, o.after.status, rules)
  }

  /** What the runtime console tells its user: without an error in the status, a refused rule is
      well written, and its line is taken by a rule that must not be replaced; and only then.
      A refusal changes nothing, and a success puts the parsed rule on its line. */
  lemma CollisionIff(rules: seq<Option<Rule>>, instruction: string, status: Option<nat>, replace: bool, names: Names)
    requires GoodNames(names) && FitsTable(rules, Parse(instruction, status, names))
    ensures Parse(instruction, status, names).ok ==> RuleOf(Parse(instruction, status, names).after.fields).Some?
    ensures var o := Parse(instruction, status, names);
            var put := PutRule(rules, instruction, status, replace, names);
            && (!put.ok && put.status == None <==> o.ok && !replace && rules[RuleOf(o.after.fields).value.pos].Some?)
            && (!put.ok && put.status.Some? <==> !o.ok)
            && (!put.ok ==> put.rules == rules)
            && (put.ok ==> put.rules == rules[RuleOf(o.after.fields).value.pos := RuleOf(o.after.fields)])
  {
    hide Run, RuleOf, Defaults, RuleParser, GoodNames, Good;
    if Parse(instruction, status, names).ok {
      AcceptedIsGood(instruction, status, names);
    }
    Contract(RuleParser(), State(instruction, status, Defaults()), names);
    Parts();
  }

  class RuleTable {
    const rules: array<Option<Rule>>
    const names: Names

    constructor (capacity: nat, names: Names)
      ensures fresh(rules) && rules.Length == capacity && this.names == names
      ensures forall i :: 0 <= i < capacity ==> rules[i] == None
    {
      rules := new Option<Rule>[capacity](_ => None);
      this.names := names;
    }

    method DoPut(instruction: string, status: Option<nat>, replace: bool) returns (ok: bool, after: Option<nat>)
      requires GoodNames(names) && (status.Some? ==> status.value <= |instruction|)
      requires FitsTable(rules[..], Parse(instruction, status, names))
      modifies rules
      ensures Put(ok, after, rules[..]) == PutRule(old(rules[..]), instruction, status, replace, names)
    {
      hide Run, RuleOf, Defaults, RuleParser, GoodNames, Good;
      var fields := Defaults();
      var position := if status == None then None else Some(|instruction| - status.value);
      var reader := new Reader(instruction, position, fields, names);
      assert reader.Now() == State(instruction, status, Defaults()) by {
        assert instruction[0..] == instruction;
      }
      ok := reader.Parse(RuleParser());
      after := if reader.status == None then None else Some(|instruction| - reader.status.value);
      if !ok {
        return;
      }
      AcceptedIsGood(instruction, status, names);
      var r := RuleOf(reader.fields).value;
      if rules[r.pos] == None || replace {
        rules[r.pos] := Some(r);
      } else {
        ok := false;
      }
    }
  }
}
