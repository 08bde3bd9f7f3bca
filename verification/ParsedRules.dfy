/** Every instruction that is accepted gives a complete and well-formed rule (`Action_parse` of
    `src/actions.c`): no field that belongs to the rule is left unwritten. */
module ParsedRules {
  import opened Options
  import opened Texts
  import opened Parsers
  import opened Grammar
  import opened RoundTrip
  import opened PrintedRules
  import opened PrintedHosts
  import opened RuleText

  // ----- what an element may write -----

  /** Whether an element may write to a slot. */
  predicate Mentions(p: Parser, k: Slot) {
    match p
    case Suite(parts) => exists i :: 0 <= i < |parts| && Mentions(parts[i], k)
    case First(parts) => exists i :: 0 <= i < |parts| && Mentions(parts[i], k)
    case Optional(parts) => exists i :: 0 <= i < |parts| && Mentions(parts[i], k)
    case IntElement(dest) => k == dest
    case RangedInt(dest, _, _) => k == dest
    case WordElement(dest) => k == dest
    case FileElement(dest) => k == dest
    case Constant(_) => false
    case EnumElement(dest, _, _) => k == dest
    case SpaceElement => false
    case EobElement => false
    case HostElement(end, body) => !Elsewhere(k, end) || Mentions(body, k)
    case Named(dest, definitions) =>
      k == dest || exists i :: 0 <= i < |definitions| && definitions[i].Argument? && Mentions(definitions[i].argument, k)
    case NextElement => JumpSlot(k)
    case Assign(dest, _) => k == dest
  }

  /** An element leaves the slots that it does not mention, whether it succeeds or fails. */
  lemma {:induction false} Frame(p: Parser, s: State, names: Names, k: Slot)
    requires !Mentions(p, k)
    ensures Agree(s.fields, Run(p, s, names).after.fields, k)
    decreases p
  {
    hide ReadInt, ReadRanged, ReadWord, ReadFile, ReadConstant, ReadEnum, ReadSpace, ReadEob, ReadNext, FinishHost, RunNamed;
    match p
    case Suite(_) => FrameAll(p, 0, s, names, k);
    case First(_) => FrameFirst(p, 0, s, names, k);
    case Optional(_) => FrameAll(p, 0, s, names, k);
    case HostElement(end, body) =>
      Frame(body, StartHost(s, end), names, k);
      FrameFinish(s.text, Run(body, StartHost(s, end), names).after, end, names, k);
    case Named(_, _) => FrameNamed(p, s, names, k);
    case _ => FrameLeaf(p, s, names, k);
  }

  lemma AgreeSelf(f: Fields, k: Slot)
    ensures Agree(f, f, k)
  {
  }

  lemma FrameFinish(start: string, r: State, end: End, names: Names, k: Slot)
    requires Elsewhere(k, end)
    ensures Agree(r.fields, FinishHost(start, r, end, names).after.fields, k)
  {
  }

  lemma FrameNext(s: State, k: Slot)
    requires !JumpSlot(k)
    ensures Agree(s.fields, ReadNext(s).after.fields, k)
  {
    hide Until, Is, ReadEnum, ReadSpace, ReadInt;
    var t := Write(s, NextLine, Number(0));
    EnumKeeps(t, NextType, GOTOS, 4, k);
    var r := ReadEnum(t, NextType, GOTOS, 4);
    SpaceKeeps(r.after);
    IntKeeps(ReadSpace(r.after).after, NextLine, k);
  }

  lemma EnumKeeps(s: State, dest: Slot, table: seq<Choice>, otherwise: int, k: Slot)
    requires k != dest
    ensures Agree(s.fields, ReadEnum(s, dest, table, otherwise).after.fields, k)
  {
    hide Until, Choose;
  }

  lemma FrameLeaf(p: Parser, s: State, names: Names, k: Slot)
    requires !Mentions(p, k) && !p.Suite? && !p.First? && !p.Optional? && !p.HostElement? && !p.Named?
    ensures Agree(s.fields, Run(p, s, names).after.fields, k)
  {
    if p.NextElement? {
      FrameNext(s, k);
    }
    hide Until, Int, Choose, SkipSpace, ReadNext, RunAll, RunFirst, RunNamed;
  }

  /** The parts from `i` on leave the slots that they do not mention. */
  lemma {:induction false} FrameAll(p: Parser, i: nat, s: State, names: Names, k: Slot)
    requires (p.Suite? || p.Optional?) && i <= |p.parts| && forall j :: i <= j < |p.parts| ==> !Mentions(p.parts[j], k)
    ensures Agree(s.fields, RunAll(p, i, s, names).after.fields, k)
    decreases p, |p.parts| - i
  {
    hide Run, Mentions, Agree;
    AgreeSelf(s.fields, k);
    if i < |p.parts| {
      Frame(p.parts[i], s, names, k);
      var r := Run(p.parts[i], s, names);
      if r.ok {
        FrameAll(p, i + 1, r.after, names, k);
        AgreeTwice(s.fields, r.after.fields, RunAll(p, i + 1, r.after, names).after.fields, k);
      }
    }
  }

  lemma {:induction false} FrameFirst(p: Parser, i: nat, s: State, names: Names, k: Slot)
    requires p.First? && i <= |p.parts| && !Mentions(p, k)
    ensures Agree(s.fields, RunFirst(p, i, s, names).after.fields, k)
    decreases p, |p.parts| - i
  {
    hide Run;
    if i < |p.parts| {
      assert !Mentions(p.parts[i], k);
      Frame(p.parts[i], s, names, k);
      var r := Run(p.parts[i], s, names);
      if !r.ok {
        FrameFirst(p, i + 1, r.after, names, k);
      }
    }
  }

  lemma {:induction false} FrameNamed(p: Parser, s: State, names: Names, k: Slot)
    requires p.Named? && !Mentions(p, k)
    ensures Agree(s.fields, RunNamed(p, s, names).after.fields, k)
    decreases p, 0
  {
    hide Until, Run, SkipSpace;
    var word := Until(s.text, None, WORD_ENDS);
    if word.Some? {
      var named := State(s.text[word.value..], None, s.fields);
      var found := FirstNamed(p.definitions, 0, s.text[..word.value]);
      if found.Some? && p.definitions[found.value].Argument? && ReadSpace(named).ok {
        assert !Mentions(p.definitions[found.value].argument, k);
        Frame(p.definitions[found.value].argument, ReadSpace(named).after, names, k);
      }
    }
  }

  lemma SpacedMentions(p: Parser, k: Slot)
    ensures Mentions(Spaced(p), k) <==> Mentions(p, k)
  {
    var q := Spaced(p);
    assert q.parts[0] == p && q.parts[1] == SpaceElement;
  }

  // ----- elements that succeed -----

  lemma SpacedGives(p: Parser, s: State, names: Names)
    ensures var r := Run(Spaced(p), s, names);
            (r.ok ==> Run(p, s, names).ok) && r.after.fields == Run(p, s, names).after.fields
  {
    hide Run, RunAll, ReadSpace;
    var q := Spaced(p);
    RunSuite(q, s, names);
    NextPart(q, 0, s, names);
    var r := Run(p, s, names);
    if r.ok {
      NextPart(q, 1, r.after, names);
      RunLeaf(SpaceElement, r.after, names);
      SpaceKeeps(r.after);
      if ReadSpace(r.after).ok {
        NoMoreParts(q, ReadSpace(r.after).after, names);
      }
    }
  }

  lemma SpaceKeeps(s: State)
    ensures ReadSpace(s).after.fields == s.fields
    ensures ReadSpace(s).ok ==> var rest := ReadSpace(s).after.text; rest == "" || !IsSpace(rest[0])
  {
    hide SkipSpace, IsSpace;
    if ReadSpace(s).ok {
      assert ReadSpace(s).after.text == SkipSpace(s.text);
      hide ReadSpace;
      SpaceIsSkipped(s.text);
    }
  }

  lemma {:induction false} SpaceIsSkipped(text: string)
    ensures SkipSpace(text) == "" || !IsSpace(SkipSpace(text)[0])
  {
    if text != "" && IsSpace(text[0]) {
      SpaceIsSkipped(text[1..]);
    }
  }

  predicate IntAt(f: Fields, k: Slot) {
    k in f && f[k].Number? && Int32(f[k].n)
  }

  lemma IntGives(s: State, dest: Slot)
    requires ReadInt(s, dest).ok
    ensures IntAt(ReadInt(s, dest).after.fields, dest)
  {
    hide Int;
  }

  lemma RangedGives(s: State, dest: Slot, low: int, high: int)
    requires ReadRanged(s, dest, low, high).ok && Int32(low) && Int32(high)
    ensures var f := ReadRanged(s, dest, low, high).after.fields; dest in f && f[dest].Number? && low <= f[dest].n <= high
  {
    hide Int;
  }

  lemma EnumGives(s: State, dest: Slot, table: seq<Choice>, otherwise: int)
    ensures var r := ReadEnum(s, dest, table, otherwise);
            dest in r.after.fields && r.after.fields[dest].Number?
            && if r.ok then exists c :: c in table && c.value == r.after.fields[dest].n else r.after.fields[dest].n == otherwise
  {
    hide Until, Choose;
    var k := Choose(table, 0, s.text);
    if k.Some? {
      assert table[k.value] in table;
    }
  }

  lemma WordGives(s: State, dest: Slot)
    requires ReadWord(s, dest).ok && (s.text == "" || !IsSpace(s.text[0]))
    ensures var f := ReadWord(s, dest).after.fields; dest in f && f[dest].Word? && IsWord(f[dest].text)
  {
    assert s.text[0..] == s.text;
    hide IsSpace;
  }

  // ----- conditions -----

  ghost predicate IsArgument(p: Parser, s: State, r: Outcome, names: Names, i: nat) {
    p.Named? && i < |p.definitions| && p.definitions[i].Argument? && exists t: State ::
      (t.text == "" || !IsSpace(t.text[0])) && t.fields == s.fields
      && Run(p.definitions[i].argument, t, names).ok
      && r.after.fields == Run(p.definitions[i].argument, t, names).after.fields[p.dest := Number(i)]
  }

  ghost predicate IsDefinition(p: Parser, s: State, r: Outcome, names: Names, i: nat) {
    p.Named? && i < |p.definitions| &&
    ((p.definitions[i].Plain? && r.after.fields == s.fields[p.dest := Number(i)]) || IsArgument(p, s, r, names, i))
  }

  /** What a success of a named element comes from; a failure leaves its type alone. */
  lemma NamedGives(p: Parser, s: State, names: Names)
    requires p.Named? && forall i :: 0 <= i < |p.definitions| && p.definitions[i].Argument? ==> !Mentions(p.definitions[i].argument, p.dest)
    ensures var r := Run(p, s, names);
            if !r.ok then Agree(s.fields, r.after.fields, p.dest)
            else exists i: nat :: IsDefinition(p, s, r, names, i)
  {
    RunsNamed(p, s, names);
    hide Until, Run, ReadSpace, Mentions;
    var word := Until(s.text, None, WORD_ENDS);
    if word.Some? {
      var named := State(s.text[word.value..], None, s.fields);
      var found := FirstNamed(p.definitions, 0, s.text[..word.value]);
      if found.Some? {
        SpaceKeeps(named);
        if p.definitions[found.value].Argument? && ReadSpace(named).ok {
          var t := ReadSpace(named).after;
          Frame(p.definitions[found.value].argument, t, names, p.dest);
          var r := Run(p.definitions[found.value].argument, t, names);
          if r.ok {
            assert IsArgument(p, s, Run(p, s, names), names, found.value);
            assert IsDefinition(p, s, Run(p, s, names), names, found.value);
          }
        } else if p.definitions[found.value].Plain? {
          assert IsDefinition(p, s, Run(p, s, names), names, found.value);
        }
      }
    }
  }

  lemma ConditionMentions(i: nat, k: Slot)
    requires i < |CONDITIONS| && CONDITIONS[i].Argument? && !k.ConditionData?
    ensures !Mentions(CONDITIONS[i].argument, k)
  {
    if i == 3 {
      BetweenMentions(CD0, CD1, k);
    } else if i == 4 {
      CycleMentions(k);
    }
  }

  lemma BetweenMentions(d0: Slot, d1: Slot, k: Slot)
    requires k != d0 && k != d1
    ensures !Mentions(Suite([IntElement(d0), SpaceElement, IntElement(d1)]), k)
  {
  }

  lemma CycleMentions(k: Slot)
    requires !k.ConditionData?
    ensures !Mentions(CycleParser(), k)
  {
    SpacedMentions(EnumElement(CD0, BOOLS, 0), k);
    SpacedMentions(IntElement(CD1), k);
    hide Spaced;
  }

  lemma TwoIntsGive(first: Parser, d0: Slot, d1: Slot, s: State, names: Names)
    requires (first == IntElement(d0) || first.EnumElement?) && d0 != d1 && (first.EnumElement? ==> first.dest == d0)
    requires Run(Suite([first, SpaceElement, IntElement(d1)]), s, names).ok
    ensures var f := Run(Suite([first, SpaceElement, IntElement(d1)]), s, names).after.fields;
            IntAt(f, d1) && d0 in f && f[d0].Number?
            && (first.IntElement? ==> IntAt(f, d0))
            && (first.EnumElement? ==> exists c :: c in first.table && c.value == f[d0].n)
  {
    hide Run, RunAll, ReadSpace, ReadInt, ReadEnum;
    var p := Suite([first, SpaceElement, IntElement(d1)]);
    RunSuite(p, s, names);
    NextPart(p, 0, s, names);
    RunLeaf(first, s, names);
    var r0 := Run(first, s, names);
    NextPart(p, 1, r0.after, names);
    RunLeaf(SpaceElement, r0.after, names);
    SpaceKeeps(r0.after);
    var r1 := ReadSpace(r0.after);
    NextPart(p, 2, r1.after, names);
    RunLeaf(IntElement(d1), r1.after, names);
    var r2 := ReadInt(r1.after, d1);
    NoMoreParts(p, r2.after, names);
    IntGives(r1.after, d1);
    IntKeeps(r1.after, d1, d0);
    if first.IntElement? {
      IntGives(s, d0);
    } else {
      EnumGives(s, d0, first.table, first.otherwise);
    }
  }

  lemma IntKeeps(s: State, dest: Slot, k: Slot)
    requires k != dest
    ensures Agree(s.fields, ReadInt(s, dest).after.fields, k)
  {
    hide Int;
  }

  lemma StillInt(f: Fields, g: Fields, k: Slot)
    requires Agree(f, g, k)
    ensures IntAt(f, k) ==> IntAt(g, k)
    ensures NumberAt(f, k).Some? ==> NumberAt(g, k).Some?
  {
  }

  lemma SpacedIntGives(dest: Slot, s: State, names: Names)
    requires Run(Spaced(IntElement(dest)), s, names).ok
    ensures IntAt(Run(Spaced(IntElement(dest)), s, names).after.fields, dest)
    ensures forall k :: k != dest ==> Agree(s.fields, Run(Spaced(IntElement(dest)), s, names).after.fields, k)
  {
    hide Run, ReadInt, IntAt, Agree, Spaced;
    SpacedGives(IntElement(dest), s, names);
    RunLeaf(IntElement(dest), s, names);
    IntGives(s, dest);
    forall k | k != dest ensures Agree(s.fields, Run(Spaced(IntElement(dest)), s, names).after.fields, k) {
      IntKeeps(s, dest, k);
    }
  }

  lemma SpacedBoolGives(dest: Slot, s: State, names: Names)
    ensures NumberAt(Run(Spaced(EnumElement(dest, BOOLS, 0)), s, names).after.fields, dest).Some?
  {
    hide Run, ReadEnum, Spaced;
    SpacedGives(EnumElement(dest, BOOLS, 0), s, names);
    RunLeaf(EnumElement(dest, BOOLS, 0), s, names);
    EnumGives(s, dest, BOOLS, 0);
  }

  lemma CycleGives(s: State, names: Names)
    requires Run(CycleParser(), s, names).ok
    ensures var f := Run(CycleParser(), s, names).after.fields; NumberAt(f, CD0).Some? && IntAt(f, CD1) && IntAt(f, CD2)
  {
    hide Run, RunAll, ReadInt, ReadEnum, IntAt, Agree, Spaced, NumberAt;
    var p := CycleParser();
    RunSuite(p, s, names);
    NextPart(p, 0, s, names);
    SpacedBoolGives(CD0, s, names);
    var one := Run(p.parts[0], s, names).after;
    NextPart(p, 1, one, names);
    SpacedIntGives(CD1, one, names);
    var two := Run(p.parts[1], one, names).after;
    StillInt(one.fields, two.fields, CD0);
    NextPart(p, 2, two, names);
    RunLeaf(IntElement(CD2), two, names);
    IntGives(two, CD2);
    IntKeeps(two, CD2, CD0);
    IntKeeps(two, CD2, CD1);
    var three := Run(p.parts[2], two, names).after;
    StillInt(two.fields, three.fields, CD0);
    StillInt(two.fields, three.fields, CD1);
    NoMoreParts(p, three, names);
  }

  predicate HasCondition(f: Fields) {
    ConditionOf(f).Some? && GoodCondition(ConditionOf(f).value)
  }

  lemma ConditionArgument(i: nat, t: State, names: Names)
    requires i < |CONDITIONS| && CONDITIONS[i].Argument? && Run(CONDITIONS[i].argument, t, names).ok
    ensures HasCondition(Run(CONDITIONS[i].argument, t, names).after.fields[ConditionType := Number(i)])
  {
    hide Run, ReadInt, ReadRanged;
    var a := CONDITIONS[i].argument;
    RunLeaf(a, t, names);
    if i == 3 {
      TwoIntsGive(IntElement(CD0), CD0, CD1, t, names);
    } else if i == 4 {
      CycleGives(t, names);
    } else if i == 7 {
      RangedGives(t, CD0, 0, 100);
    } else {
      IntGives(t, CD0);
    }
  }

  lemma PlainHasCondition(i: nat, f: Fields)
    requires i < |CONDITIONS| && CONDITIONS[i].Plain?
    ensures HasCondition(f[ConditionType := Number(i)])
  {
  }

  lemma KeepsAlways(f: Fields, g: Fields)
    requires NumberAt(f, ConditionType) == Some(ALWAYS) && Agree(f, g, ConditionType)
    ensures HasCondition(g) && NumberAt(g, ConditionType) == Some(ALWAYS)
  {
  }

  lemma ConditionGives(s: State, names: Names)
    requires NumberAt(s.fields, ConditionType) == Some(ALWAYS)
    ensures HasCondition(Run(ConditionParser(), s, names).after.fields)
  {
    hide Run, HasCondition, Mentions;
    var p := ConditionParser();
    forall i: nat | i < |p.definitions| && p.definitions[i].Argument? ensures !Mentions(p.definitions[i].argument, ConditionType) {
      ConditionMentions(i, ConditionType);
    }
    NamedGives(p, s, names);
    var r := Run(p, s, names);
    if !r.ok {
      KeepsAlways(s.fields, r.after.fields);
    } else {
      var i: nat :| IsDefinition(p, s, r, names, i);
      if p.definitions[i].Plain? {
        PlainHasCondition(i, s.fields);
      } else {
        var t: State :| Run(p.definitions[i].argument, t, names).ok
          && r.after.fields == Run(p.definitions[i].argument, t, names).after.fields[p.dest := Number(i)];
        ConditionArgument(i, t, names);
      }
    }
  }

  lemma WhenGives(s: State, names: Names)
    requires NumberAt(s.fields, ConditionType) == Some(ALWAYS)
    ensures HasCondition(Run(WhenParser(), s, names).after.fields)
  {
    hide Run, RunAll, HasCondition, ReadConstant;
    var p := WhenParser();
    WhenIs();
    RunOptional(p, s, names);
    NextPart(p, 0, s, names);
    SpacedGives(Constant("when"), s, names);
    RunLeaf(Constant("when"), s, names);
    ConstantKeeps(s, "when");
    KeepsAlways(s.fields, s.fields);
    var r := Run(p.parts[0], s, names);
    if r.ok {
      NextPart(p, 1, r.after, names);
      SpacedGives(ConditionParser(), r.after, names);
      ConditionGives(r.after, names);
      NoMoreParts(p, Run(p.parts[1], r.after, names).after, names);
    }
  }

  lemma ConstantKeeps(s: State, c: string)
    ensures ReadConstant(s, c, WORD_ENDS).after.fields == s.fields
  {
    hide Until;
  }

  // ----- tasks -----

  predicate HasTask(f: Fields) {
    TaskOf(f).Some? && GoodTask(TaskOf(f).value)
  }

  lemma TaskMentions(i: nat, k: Slot)
    requires i < |TASKS| && TASKS[i].Argument? && !k.TaskData?
    ensures !Mentions(TASKS[i].argument, k)
  {
    if i == 10 {
      var p := TASKS[i].argument;
      assert p.parts[0] == EnumElement(TD0, DONE_FOR, 0) && p.parts[1] == SpaceElement && p.parts[2] == IntElement(TD1);
    }
  }

  lemma IntTask(i: nat, f: Fields)
    requires i in {0, 7, 8, 12, 13, 18} && IntAt(f, TD0)
    ensures HasTask(f[TaskType := Number(i)])
  {
  }

  lemma EnumTask(i: nat, f: Fields)
    requires (i == 5 || i == 6) && TD0 in f && f[TD0].Number?
    requires exists c :: c in (if i == 5 then SIGNALS else ERRORS) && c.value == f[TD0].n
    ensures HasTask(f[TaskType := Number(i)])
  {
    hide ERRORS, SIGNALS;
  }

  lemma WordTask(i: nat, f: Fields)
    requires i == 3 || i == 4 || i == 14
    requires var k := if i == 4 then TD0 else TD1; k in f && f[k].Word? && IsWord(f[k].text)
    ensures HasTask(f[TaskType := Number(i)])
  {
    hide IsWord;
  }

  lemma FileTask(t: State)
    requires ReadFile(t, TD1).ok && (t.text == "" || !IsSpace(t.text[0]))
    ensures HasTask(ReadFile(t, TD1).after.fields[TaskType := Number(9)])
  {
    hide Until, IsWord;
    WordGives(t, TD1);
  }

  lemma TaskArgument(i: nat, t: State, names: Names)
    requires i < |TASKS| && TASKS[i].Argument? && Run(TASKS[i].argument, t, names).ok && (t.text == "" || !IsSpace(t.text[0]))
    ensures HasTask(Run(TASKS[i].argument, t, names).after.fields[TaskType := Number(i)])
  {
    hide Run, ReadInt, ReadRanged, ReadWord, ReadFile, ReadEnum, IsSpace, IsWord, HasTask;
    var a := TASKS[i].argument;
    var f := Run(a, t, names).after.fields;
    RunLeaf(a, t, names);
    if a.IntElement? {
      IntGives(t, TD0);
      IntTask(i, f);
    } else if a.WordElement? {
      WordGives(t, a.dest);
      WordTask(i, f);
    } else if a.EnumElement? {
      EnumGives(t, TD0, a.table, 0);
      EnumTask(i, f);
    } else if a.FileElement? {
      FileTask(t);
    } else if i == 10 {
      TwoIntsGive(EnumElement(TD0, DONE_FOR, 0), TD0, TD1, t, names);
      DoneTask(f);
    } else {
      RangedGives(t, TD0, 0, 100);
      SplitTask(f);
    }
  }

  lemma DoneTask(f: Fields)
    requires TD0 in f && f[TD0].Number? && IntAt(f, TD1)
    ensures HasTask(f[TaskType := Number(10)])
  {
  }

  lemma SplitTask(f: Fields)
    requires TD0 in f && f[TD0].Number? && 0 <= f[TD0].n <= 100
    ensures HasTask(f[TaskType := Number(16)])
  {
  }

  lemma PlainHasTask(i: nat, f: Fields)
    requires i < |TASKS| && TASKS[i].Plain?
    ensures HasTask(f[TaskType := Number(i)])
  {
  }

  lemma KeepsNop(f: Fields, g: Fields)
    requires NumberAt(f, TaskType) == Some(NOP) && Agree(f, g, TaskType)
    ensures HasTask(g) && NumberAt(g, TaskType) == Some(NOP)
  {
  }

  lemma TaskGives(s: State, names: Names)
    requires NumberAt(s.fields, TaskType) == Some(NOP)
    ensures HasTask(Run(TaskParser(), s, names).after.fields)
  {
    hide Run, HasTask, Mentions, IsSpace;
    var p := TaskParser();
    forall i: nat | i < |p.definitions| && p.definitions[i].Argument? ensures !Mentions(p.definitions[i].argument, TaskType) {
      TaskMentions(i, TaskType);
    }
    NamedGives(p, s, names);
    var r := Run(p, s, names);
    if !r.ok {
      KeepsNop(s.fields, r.after.fields);
    } else {
      var i: nat :| IsDefinition(p, s, r, names, i);
      if p.definitions[i].Plain? {
        PlainHasTask(i, s.fields);
      } else {
        var t: State :| (t.text == "" || !IsSpace(t.text[0])) && Run(p.definitions[i].argument, t, names).ok
          && r.after.fields == Run(p.definitions[i].argument, t, names).after.fields[p.dest := Number(i)];
        TaskArgument(i, t, names);
      }
    }
  }

  lemma ModeGives(s: State)
    ensures var f := ReadEnum(s, Mode, MODES, 0).after.fields; ModeOf(f).Some? && forall k :: k != Mode ==> Agree(s.fields, f, k)
  {
    hide Choose;
    EnumGives(s, Mode, MODES, 0);
  }

  lemma SameMode(f: Fields, g: Fields)
    requires Agree(f, g, Mode)
    ensures ModeOf(f) == ModeOf(g)
  {
  }

  lemma TaskOnly(s: State, names: Names, k: Slot)
    requires !k.TaskType? && !k.TaskData?
    ensures Agree(s.fields, Run(TaskParser(), s, names).after.fields, k)
  {
    hide Run;
    var p := TaskParser();
    forall i: nat | i < |p.definitions| && p.definitions[i].Argument? ensures !Mentions(p.definitions[i].argument, k) {
      TaskMentions(i, k);
    }
    Frame(p, s, names, k);
  }

  lemma DoGives(s: State, names: Names)
    requires NumberAt(s.fields, TaskType) == Some(NOP)
    ensures var f := Run(DoParser(), s, names).after.fields; HasTask(f) && ModeOf(f).Some?
  {
    hide Run, RunAll, HasTask, ModeOf, ReadEnum;
    var p := DoParser();
    DoIs();
    RunOptional(p, s, names);
    NextPart(p, 0, s, names);
    SpacedGives(EnumElement(Mode, MODES, 0), s, names);
    RunLeaf(EnumElement(Mode, MODES, 0), s, names);
    ModeGives(s);
    var r := Run(p.parts[0], s, names);
    KeepsNop(s.fields, r.after.fields);
    if r.ok {
      NextPart(p, 1, r.after, names);
      SpacedGives(TaskParser(), r.after, names);
      TaskGives(r.after, names);
      TaskOnly(r.after, names, Mode);
      SameMode(r.after.fields, Run(TaskParser(), r.after, names).after.fields);
      NoMoreParts(p, Run(p.parts[1], r.after, names).after, names);
    }
  }

  // ----- what comes next -----

  lemma NextGives(s: State)
    requires ReadNext(s).ok
    ensures var f := ReadNext(s).after.fields; JumpOf(f).Some? && GoodJump(JumpOf(f).value)
  {
    hide Choose, Int, ReadSpace;
    var t := Write(s, NextLine, Number(0));
    EnumGives(t, NextType, GOTOS, 4);
    var r := ReadEnum(t, NextType, GOTOS, 4);
    SpaceKeeps(r.after);
    if ReadSpace(r.after).ok && ReadInt(ReadSpace(r.after).after, NextLine).ok {
      IntGives(ReadSpace(r.after).after, NextLine);
    }
  }

  // ----- hosts -----

  predicate GoodNames(names: Names) {
    && (forall w :: w in names.hosts ==> 0 <= names.hosts[w] < 0x1_0000_0000)
    && (forall w :: w in names.services ==> 0 <= names.services[w] < 0x1_0000)
  }

  predicate HasHost(f: Fields, end: End) {
    HostOf(f, end).Some? && GoodHost(HostOf(f, end).value)
  }

  predicate HasPort(f: Fields, end: End) {
    IntAt(f, HostPort(end)) && Is(f, HostAddr(end), 0)
  }

  predicate HasName(f: Fields, end: End) {
    HasPort(f, end) && (Is(f, HostType(end), 1) || Is(f, HostType(end), 2) || Is(f, HostType(end), 4) || Is(f, HostType(end), 7))
  }

  lemma NameMentions(end: End, k: Slot)
    requires k != HostType(end) && k != Address
    ensures !Mentions(NameParser(end), k)
  {
  }

  lemma NameGives(end: End, s: State, names: Names)
    requires HasPort(s.fields, end) && Run(NameParser(end), s, names).ok
    ensures HasName(Run(NameParser(end), s, names).after.fields, end)
  {
    hide Run, RunFirst, Mentions, ReadEnum, ReadWord;
    var p := NameParser(end);
    NameMentions(end, HostPort(end));
    NameMentions(end, HostAddr(end));
    Frame(p, s, names, HostPort(end));
    Frame(p, s, names, HostAddr(end));
    RunIsFirst(p, s, names);
    NextChoice(p, 0, s, names);
    RunLeaf(p.parts[0], s, names);
    EnumGives(s, HostType(end), HOSTS, HOST_ADDRESS);
    var r := Run(p.parts[0], s, names);
    if !r.ok {
      NextChoice(p, 1, r.after, names);
      RunLeaf(p.parts[1], r.after, names);
      NoMoreChoices(p, Run(p.parts[1], r.after, names).after, names);
      WordKeeps(r.after, Address, HostType(end));
    }
  }

  lemma WordKeeps(s: State, dest: Slot, k: Slot)
    requires k != dest
    ensures Agree(s.fields, ReadWord(s, dest).after.fields, k)
  {
    hide Until;
  }

  lemma PortNumberMentions(end: End, k: Slot)
    requires k != HostPort(end) && k != Service
    ensures !Mentions(First([IntElement(HostPort(end)), WordElement(Service)]), k)
  {
  }

  lemma NoPartMentions(p: Parser, k: Slot)
    requires (p.Suite? || p.Optional?) && forall i :: 0 <= i < |p.parts| ==> !Mentions(p.parts[i], k)
    ensures !Mentions(p, k)
  {
  }

  lemma ConstantMentions(c: string, k: Slot)
    ensures !Mentions(Spaced(Constant(c)), k) && !Mentions(SpaceElement, k)
  {
    SpacedMentions(Constant(c), k);
  }

  lemma PortMentions(end: End, k: Slot)
    requires k != HostPort(end) && k != Service
    ensures !Mentions(PortParser(end), k)
  {
    ConstantMentions("port", k);
    PortNumberMentions(end, k);
    hide Spaced, Mentions;
    NoPartMentions(PortParser(end), k);
  }

  /** The port is untouched, a number that was read, or 0 after a lone minus sign. */
  lemma PortGives(end: End, s: State, names: Names)
    requires HasName(s.fields, end)
    ensures HasName(Run(PortParser(end), s, names).after.fields, end)
  {
    hide Run, RunAll, RunFirst, Mentions, ReadSpace, ReadConstant, ReadInt, ReadWord;
    var p := PortParser(end);
    PortMentions(end, HostType(end));
    PortMentions(end, HostAddr(end));
    Frame(p, s, names, HostType(end));
    Frame(p, s, names, HostAddr(end));
    RunOptional(p, s, names);
    NextPart(p, 0, s, names);
    RunLeaf(p.parts[0], s, names);
    SpaceKeeps(s);
    var r0 := Run(p.parts[0], s, names);
    if r0.ok {
      NextPart(p, 1, r0.after, names);
      SpacedGives(Constant("port"), r0.after, names);
      RunLeaf(Constant("port"), r0.after, names);
      ConstantKeeps(r0.after, "port");
      var r1 := Run(p.parts[1], r0.after, names);
      if r1.ok {
        NextPart(p, 2, r1.after, names);
        PortNumberGives(end, r1.after, names);
        NoMoreParts(p, Run(p.parts[2], r1.after, names).after, names);
      }
    }
  }

  lemma PortNumberGives(end: End, s: State, names: Names)
    requires IntAt(s.fields, HostPort(end))
    ensures IntAt(Run(First([IntElement(HostPort(end)), WordElement(Service)]), s, names).after.fields, HostPort(end))
  {
    hide Run, RunFirst, ReadWord;
    var p := First([IntElement(HostPort(end)), WordElement(Service)]);
    RunIsFirst(p, s, names);
    NextChoice(p, 0, s, names);
    RunLeaf(p.parts[0], s, names);
    IntStays(s, HostPort(end));
    hide ReadInt;
    var r := Run(p.parts[0], s, names);
    if !r.ok {
      NextChoice(p, 1, r.after, names);
      RunLeaf(p.parts[1], r.after, names);
      WordKeeps(r.after, Service, HostPort(end));
      FirstEndKeeps(p, Run(p.parts[1], r.after, names).after, names);
    }
  }

  lemma FirstEndKeeps(p: Parser, s: State, names: Names)
    requires p.First?
    ensures RunFirst(p, |p.parts|, s, names).after.fields == s.fields
  {
  }

  lemma IntStays(s: State, dest: Slot)
    requires IntAt(s.fields, dest)
    ensures IntAt(ReadInt(s, dest).after.fields, dest)
  {
    hide Int;
  }

  lemma FinishGives(start: string, r: State, end: End, names: Names)
    requires HasName(r.fields, end) && GoodNames(names) && FinishHost(start, r, end, names).ok
    ensures HasHost(FinishHost(start, r, end, names).after.fields, end)
  {
  }

  lemma HostGives(keyword: string, end: End, s: State, names: Names)
    requires GoodNames(names) && Run(Spaced(HostParser(keyword, end)), s, names).ok
    ensures HasHost(Run(Spaced(HostParser(keyword, end)), s, names).after.fields, end)
  {
    hide Run, RunAll, FinishHost, HasHost, NameParser, PortParser, ReadConstant, GoodNames;
    SpacedGives(HostParser(keyword, end), s, names);
    var body := Suite([Spaced(Constant(keyword)), NameParser(end), PortParser(end)]);
    RunHost(end, body, s, names);
    var t := State(s.text, s.status, Start(s.fields, end));
    assert HasPort(t.fields, end);
    RunSuite(body, t, names);
    NextPart(body, 0, t, names);
    SpacedGives(Constant(keyword), t, names);
    RunLeaf(Constant(keyword), t, names);
    ConstantKeeps(t, keyword);
    var one := Run(body.parts[0], t, names).after;
    NextPart(body, 1, one, names);
    NameGives(end, one, names);
    var two := Run(body.parts[1], one, names).after;
    NextPart(body, 2, two, names);
    PortGives(end, two, names);
    var three := Run(body.parts[2], two, names).after;
    NoMoreParts(body, three, names);
    FinishGives(s.text, Run(body, t, names).after, end, names);
  }

  lemma HostMentions(keyword: string, end: End, k: Slot)
    requires Elsewhere(k, end)
    ensures !Mentions(Spaced(HostParser(keyword, end)), k)
  {
    SpacedMentions(HostParser(keyword, end), k);
    ConstantMentions(keyword, k);
    NameMentions(end, k);
    PortMentions(end, k);
    BodyMentions(end, Suite([Spaced(Constant(keyword)), NameParser(end), PortParser(end)]), k);
    hide Mentions, NameParser, PortParser;
    NoPartMentions(Suite([Spaced(Constant(keyword)), NameParser(end), PortParser(end)]), k);
  }

  lemma BodyMentions(end: End, body: Parser, k: Slot)
    requires Elsewhere(k, end)
    ensures Mentions(HostElement(end, body), k) <==> Mentions(body, k)
  {
  }

  lemma HostElsewhere(keyword: string, end: End, s: State, names: Names, k: Slot)
    requires Elsewhere(k, end)
    ensures Agree(s.fields, Run(Spaced(HostParser(keyword, end)), s, names).after.fields, k)
  {
    hide Run, Mentions;
    HostMentions(keyword, end, k);
    Frame(Spaced(HostParser(keyword, end)), s, names, k);
  }

  lemma HostNeeds(keyword: string, end: End, s: State, names: Names)
    requires Run(Spaced(HostParser(keyword, end)), s, names).ok
    ensures StartsWithWord(s.text, keyword, WORD_ENDS)
  {
    hide Run, StartsWithWord, HostParser, Spaced;
    if !StartsWithWord(s.text, keyword, WORD_ENDS) {
      HostFails(keyword, end, s, names);
    }
  }

  lemma TagNeeds(keyword: string, code: int, s: State, names: Names)
    requires Run(Spaced(Suite([Constant(keyword), Assign(Direction, code)])), s, names).ok
    ensures StartsWithWord(s.text, keyword, WORD_ENDS)
    ensures Run(Spaced(Suite([Constant(keyword), Assign(Direction, code)])), s, names).after.fields == s.fields[Direction := Number(code)]
  {
    hide Run, RunAll, StartsWithWord, ReadConstant;
    var p := Suite([Constant(keyword), Assign(Direction, code)]);
    if !StartsWithWord(s.text, keyword, WORD_ENDS) {
      TagFails(keyword, code, s, names);
    }
    SpacedGives(p, s, names);
    RunSuite(p, s, names);
    NextPart(p, 0, s, names);
    RunLeaf(p.parts[0], s, names);
    ConstantKeeps(s, keyword);
    var one := Run(p.parts[0], s, names).after;
    NextPart(p, 1, one, names);
    RunLeaf(p.parts[1], one, names);
    NoMoreParts(p, Run(p.parts[1], one, names).after, names);
  }

  /** No text starts with two of the keywords. */
  lemma OneKeyword(text: string, a: string, b: string)
    requires a in {"with", "talk-with", "connect", "close", "from"} && b in {"with", "talk-with", "connect", "close", "from"} && a != b
    requires StartsWithWord(text, a, WORD_ENDS)
    ensures !StartsWithWord(text, b, WORD_ENDS)
  {
    hide StartsWithWord, IsName;
    Keywords();
    NameChars(a);
    NameChars(b);
    if StartsWithWord(text, b, WORD_ENDS) {
      OneWord(text, a, b, WORD_ENDS);
    }
  }

  predicate HasHosts(f: Fields) {
    match CourseOf(f)
    case None => false
    case Some(OnAll) => HasHost(f, Source) && HostOf(f, Target) == Some(HostRule(Nobody, 0, -1))
    case Some(OnData) => HasHost(f, Source) && (HostOf(f, Target) == Some(HostRule(Nobody, 0, -1)) || HasHost(f, Target))
    case _ => HostOf(f, Source) == Some(HostRule(Nobody, 0, -1)) && HasHost(f, Target)
  }

  lemma HasSameHost(f: Fields, g: Fields, end: End)
    requires Agree(f, g, HostType(end)) && Agree(f, g, HostAddr(end)) && Agree(f, g, HostPort(end))
    ensures HostOf(f, end) == HostOf(g, end) && (HasHost(f, end) <==> HasHost(g, end))
  {
  }

  lemma SourceGives(keyword: string, s: State, names: Names)
    requires GoodNames(names) && Fresh(s.fields) && Run(Spaced(HostParser(keyword, Source)), s, names).ok
    ensures var f := Run(Spaced(HostParser(keyword, Source)), s, names).after.fields;
            HasHost(f, Source) && NumberAt(f, HostType(Target)) == Some(0) && NumberAt(f, Direction) == Some(3)
  {
    hide Run, HasHost, GoodNames, HostParser, Spaced;
    HostGives(keyword, Source, s, names);
    HostElsewhere(keyword, Source, s, names, HostType(Target));
    HostElsewhere(keyword, Source, s, names, Direction);
  }

  /** With a target after it, what holds of the source and the direction still holds. */
  lemma TargetGives(s: State, names: Names)
    requires GoodNames(names) && Run(Spaced(HostParser("to", Target)), s, names).ok
    ensures var f := Run(Spaced(HostParser("to", Target)), s, names).after.fields;
            HasHost(f, Target) && HostOf(f, Source) == HostOf(s.fields, Source) && CourseOf(f) == CourseOf(s.fields)
  {
    hide Run, HasHost, HostOf, GoodNames, HostParser, Spaced;
    HostGives("to", Target, s, names);
    HostElsewhere("to", Target, s, names, HostType(Source));
    HostElsewhere("to", Target, s, names, HostAddr(Source));
    HostElsewhere("to", Target, s, names, HostPort(Source));
    HostElsewhere("to", Target, s, names, Direction);
    HasSameHost(s.fields, Run(Spaced(HostParser("to", Target)), s, names).after.fields, Source);
  }

  /** The third alternative, up to the target. */
  predicate Started(f: Fields) {
    if CourseOf(f) == Some(OnData) then HasHost(f, Source)
    else (CourseOf(f) == Some(OnConnect) || CourseOf(f) == Some(OnClose)) && HostOf(f, Source) == Some(HostRule(Nobody, 0, -1))
  }

  lemma TagStarts(f: Fields, code: int)
    requires Fresh(f) && (code == 4 || code == 8)
    ensures Started(f[Direction := Number(code)])
  {
  }

  lemma StartGives(s: State, names: Names)
    requires GoodNames(names) && Fresh(s.fields) && Run(StartParser(), s, names).ok
    ensures Started(Run(StartParser(), s, names).after.fields)
    ensures exists word :: word in {"connect", "close", "from"} && StartsWithWord(s.text, word, WORD_ENDS)
  {
    hide Run, RunFirst, StartsWithWord, GoodNames, HostParser, Spaced, Started, Fresh;
    var p := StartParser();
    RunIsFirst(p, s, names);
    NextChoice(p, 0, s, names);
    var r := Run(p.parts[0], s, names);
    if r.ok {
      TagNeeds("connect", 4, s, names);
      TagStarts(s.fields, 4);
    } else {
      NotConnect(s, names);
    }
  }

  lemma NotConnect(s: State, names: Names)
    requires GoodNames(names) && Fresh(s.fields) && Run(StartParser(), s, names).ok && !Run(StartParser().parts[0], s, names).ok
    ensures Started(Run(StartParser(), s, names).after.fields)
    ensures exists word :: word in {"connect", "close", "from"} && StartsWithWord(s.text, word, WORD_ENDS)
  {
    hide Run, RunFirst, StartsWithWord, GoodNames, HostParser, Spaced, Started, Fresh;
    var p := StartParser();
    RunIsFirst(p, s, names);
    NextChoice(p, 0, s, names);
    ConnectLeavesText(s, names);
    var t := Run(p.parts[0], s, names).after;
    NextChoice(p, 1, t, names);
    var r := Run(p.parts[1], t, names);
    if r.ok {
      TagNeeds("close", 8, t, names);
      OneKeyword(s.text, "close", "connect");
      TagFails("connect", 4, s, names);
      TagStarts(s.fields, 8);
    } else {
      CloseLeavesText(t, names);
      NextChoice(p, 2, r.after, names);
      NoMoreChoices(p, Run(p.parts[2], r.after, names).after, names);
      HostNeeds("from", Source, r.after, names);
      OneKeyword(s.text, "from", "connect");
      OneKeyword(s.text, "from", "close");
      TagFails("connect", 4, s, names);
      TagFails("close", 8, t, names);
      SourceGives("from", r.after, names);
      FromStarts(Run(p.parts[2], r.after, names).after.fields);
    }
  }

  lemma ConnectLeavesText(s: State, names: Names)
    requires !Run(StartParser().parts[0], s, names).ok
    ensures Run(StartParser().parts[0], s, names).after.text == s.text
  {
    hide Run;
    Contract(StartParser().parts[0], s, names);
  }

  lemma CloseLeavesText(s: State, names: Names)
    requires !Run(StartParser().parts[1], s, names).ok
    ensures Run(StartParser().parts[1], s, names).after.text == s.text
  {
    hide Run;
    Contract(StartParser().parts[1], s, names);
  }

  lemma FromStarts(f: Fields)
    requires HasHost(f, Source) && NumberAt(f, Direction) == Some(3)
    ensures Started(f)
  {
    hide HasHost;
  }

  lemma StartedTarget(f: Fields, g: Fields)
    requires Started(f) && HasHost(g, Target) && HostOf(g, Source) == HostOf(f, Source) && CourseOf(g) == CourseOf(f)
    ensures HasHosts(g)
  {
    hide CourseOf, HostOf;
  }

  lemma WithGives(s: State, names: Names)
    requires GoodNames(names) && Fresh(s.fields) && Run(WithParser(), s, names).ok
    ensures HasHosts(Run(WithParser(), s, names).after.fields)
  {
    hide Run, RunAll, GoodNames, HostParser, Spaced, HasHosts;
    var p := WithParser();
    RunSuite(p, s, names);
    NextPart(p, 0, s, names);
    SourceGives("with", s, names);
    var one := Run(p.parts[0], s, names).after;
    NextPart(p, 1, one, names);
    RunLeaf(p.parts[1], one, names);
    NoMoreParts(p, Run(p.parts[1], one, names).after, names);
    AllHosts(one.fields);
  }

  lemma AllHosts(f: Fields)
    requires HasHost(f, Source) && NumberAt(f, HostType(Target)) == Some(0)
    ensures HasHosts(f[Direction := Number(15)])
  {
    HasSameHost(f, f[Direction := Number(15)], Source);
    hide HasHost;
  }

  lemma TalkHosts(f: Fields)
    requires HasHost(f, Source) && NumberAt(f, HostType(Target)) == Some(0) && NumberAt(f, Direction) == Some(3)
    ensures HasHosts(f)
  {
    hide HasHost;
  }

  lemma WithLeavesText(s: State, names: Names)
    requires !Run(WithParser(), s, names).ok
    ensures Run(WithParser(), s, names).after.text == s.text
  {
    hide Run, WithParser;
    Contract(WithParser(), s, names);
  }

  lemma TalkLeavesText(s: State, names: Names)
    requires !Run(Spaced(HostParser("talk-with", Source)), s, names).ok
    ensures Run(Spaced(HostParser("talk-with", Source)), s, names).after.text == s.text
  {
    hide Run, HostParser;
    Contract(Spaced(HostParser("talk-with", Source)), s, names);
  }

  lemma WhoGives(s: State, names: Names)
    requires GoodNames(names) && Fresh(s.fields) && Run(WhoParser(), s, names).ok
    ensures HasHosts(Run(WhoParser(), s, names).after.fields)
  {
    hide Run, RunFirst, GoodNames, HostParser, Spaced, HasHosts, WithParser, StartParser, Fresh, StartsWithWord, Start;
    var p := WhoParser();
    RunIsFirst(p, s, names);
    NextChoice(p, 0, s, names);
    var r := Run(p.parts[0], s, names);
    if r.ok {
      WithGives(s, names);
    } else {
      WithLeavesText(s, names);
      NextChoice(p, 1, r.after, names);
      var q := Run(p.parts[1], r.after, names);
      if q.ok {
        TalkGives(s, names);
      } else {
        TalkLeavesText(r.after, names);
        NextChoice(p, 2, q.after, names);
        NoMoreChoices(p, Run(p.parts[2], q.after, names).after, names);
        ThirdGives(s, r.after, q.after, names);
      }
    }
  }

  lemma TalkGives(s: State, names: Names)
    requires GoodNames(names) && Fresh(s.fields)
    requires var r := Run(WithParser(), s, names);
             !r.ok && r.after.text == s.text && Run(Spaced(HostParser("talk-with", Source)), r.after, names).ok
    ensures HasHosts(Run(Spaced(HostParser("talk-with", Source)), Run(WithParser(), s, names).after, names).after.fields)
  {
    hide Run, GoodNames, HostParser, Spaced, HasHosts, WithParser, Fresh, StartsWithWord, HasHost;
    var t := Run(WithParser(), s, names).after;
    HostNeeds("talk-with", Source, t, names);
    OneKeyword(s.text, "talk-with", "with");
    WithFails(s, names);
    TriedKeeps(s.fields);
    SourceGives("talk-with", t, names);
    TalkHosts(Run(Spaced(HostParser("talk-with", Source)), t, names).after.fields);
  }

  lemma ThirdGives(s: State, t: State, u: State, names: Names)
    requires GoodNames(names) && Fresh(s.fields) && t.text == s.text && u.text == s.text
    requires !Run(WithParser(), s, names).ok && t == Run(WithParser(), s, names).after
    requires !Run(Spaced(HostParser("talk-with", Source)), t, names).ok && u == Run(Spaced(HostParser("talk-with", Source)), t, names).after
    requires Run(Suite([StartParser(), Spaced(HostParser("to", Target))]), u, names).ok
    ensures HasHosts(Run(Suite([StartParser(), Spaced(HostParser("to", Target))]), u, names).after.fields)
  {
    hide Run, RunAll, GoodNames, HostParser, Spaced, HasHosts, WithParser, StartParser, Fresh, StartsWithWord, HasHost, HostOf, CourseOf, Started, Start;
    var p := Suite([StartParser(), Spaced(HostParser("to", Target))]);
    RunSuite(p, u, names);
    NextPart(p, 0, u, names);
    StartNeeds(u, names);
    OtherKeywords(s.text);
    WithFails(s, names);
    HostFails("talk-with", Source, t, names);
    TriedKeeps(s.fields);
    FreshTwice(s.fields);
    StartGives(u, names);
    var one := Run(p.parts[0], u, names).after;
    NextPart(p, 1, one, names);
    TargetGives(one, names);
    var two := Run(p.parts[1], one, names).after;
    NoMoreParts(p, two, names);
    StartedTarget(one.fields, two.fields);
  }

  lemma FreshTwice(f: Fields)
    requires Fresh(f)
    ensures Fresh(Start(Start(f, Source), Source))
  {
  }

  lemma OtherKeywords(text: string)
    requires exists word :: word in {"connect", "close", "from"} && StartsWithWord(text, word, WORD_ENDS)
    ensures !StartsWithWord(text, "with", WORD_ENDS) && !StartsWithWord(text, "talk-with", WORD_ENDS)
  {
    hide StartsWithWord;
    var word :| word in {"connect", "close", "from"} && StartsWithWord(text, word, WORD_ENDS);
    OneKeyword(text, word, "with");
    OneKeyword(text, word, "talk-with");
  }

  lemma StartNeeds(s: State, names: Names)
    requires Run(StartParser(), s, names).ok
    ensures exists word :: word in {"connect", "close", "from"} && StartsWithWord(s.text, word, WORD_ENDS)
  {
    hide Run, RunFirst, StartsWithWord, HostParser, Spaced;
    var p := StartParser();
    RunIsFirst(p, s, names);
    NextChoice(p, 0, s, names);
    var r := Run(p.parts[0], s, names);
    if r.ok {
      TagNeeds("connect", 4, s, names);
    } else {
      ConnectLeavesText(s, names);
      NextChoice(p, 1, r.after, names);
      var q := Run(p.parts[1], r.after, names);
      if q.ok {
        TagNeeds("close", 8, r.after, names);
      } else {
        CloseLeavesText(r.after, names);
        NextChoice(p, 2, q.after, names);
        NoMoreChoices(p, Run(p.parts[2], q.after, names).after, names);
        HostNeeds("from", Source, q.after, names);
      }
    }
  }
}
