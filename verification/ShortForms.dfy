/** Instructions that leave parts out (`src/actions.c`): without a condition a rule matches
    always, and without a task it does nothing. */
module ShortForms {
  import opened Options
  import opened Texts
  import opened Parsers
  import opened Grammar
  import opened RoundTrip
  import opened PrintedRules
  import opened PrintedHosts
  import opened RuleText

  /** The text after the hosts, with or without the condition and the task. */
  function Tail(r: Rule, when: bool, do: bool, end: LineEnd): string
    requires Printable(r.task) && ShowTask(r.task).Some?
  {
    (if when then "when" + (" " + (ShowCondition(r.condition) + (" " + DoTail(r, do, end)))) else DoTail(r, do, end))
  }

  function DoTail(r: Rule, do: bool, end: LineEnd): string
    requires Printable(r.task) && ShowTask(r.task).Some?
  {
    (if do then ShowMode(r.mode) + (" " + (ShowTask(r.task).value + (" " + (ShowJump(r.jump) + end)))) else ShowJump(r.jump) + end)
  }

  /** An instruction for a rule, with or without the condition and the task. */
  function ShortForm(r: Rule, when: bool, do: bool, end: LineEnd): string
    requires Printable(r.task) && ShowTask(r.task).Some?
  {
    Decimal(r.pos) + (" on " + (ShowProto(r.proto) + (" " + (ShowWho(r) + Tail(r, when, do, end)))))
  }

  /** What can start the text of a jump. */
  predicate StartsJump(text: string) {
    text != "" && text[0] in "cgnes"
  }

  lemma JumpIsNoKeyword(j: Jump, end: LineEnd)
    ensures StartsJump(ShowJump(j) + end)
  {
    hide Decimal;
  }

  lemma TailStart(r: Rule, when: bool, do: bool, end: LineEnd)
    requires Printable(r.task) && ShowTask(r.task).Some?
    ensures var tail := Tail(r, when, do, end); tail != "" && tail[0] in "wdcgnes"
    ensures var tail := DoTail(r, do, end); tail != "" && tail[0] in "dcgnes"
  {
    hide Decimal, ShowTask, ShowCondition, ShowJump;
    JumpIsNoKeyword(r.jump, end);
    ModeStartsWith(r.mode, " " + (ShowTask(r.task).value + (" " + (ShowJump(r.jump) + end))));
    hide ShowMode;
  }

  lemma ModeStartsWith(m: DoMode, rest: string)
    ensures ShowMode(m) + rest != "" && (ShowMode(m) + rest)[0] == 'd'
  {
  }

  lemma OtherLetter(text: string, word: string, ends: string)
    requires text != "" && word != "" && text[0] != word[0]
    ensures !StartsWithWord(text, word, ends) && Until(text, Some(word), ends) == None
  {
    ConstantIff(text, word, ends);
    hide Until;
  }

  /** An optional part whose first element fails is skipped. */
  lemma Skips(p: Parser, s: State, failed: State, names: Names)
    requires p.Optional? && 0 < |p.parts| && Run(p.parts[0], s, names) == Outcome(false, failed)
    ensures Run(p, s, names) == Outcome(true, State(s.text, None, failed.fields))
  {
    hide Run, RunAll;
    NextPart(p, 0, s, names);
    RunOptional(p, s, names);
  }

  lemma SpacedFails(p: Parser, s: State, failed: State, names: Names)
    requires Run(p, s, names) == Outcome(false, failed)
    ensures var r := Run(Spaced(p), s, names); !r.ok && r.after.fields == failed.fields
  {
    hide Run, RunAll;
    var q := Spaced(p);
    NextPart(q, 0, s, names);
    RunSuite(q, s, names);
  }

  /** Without `when` the fields stay as they are. */
  lemma WhenSkips(s: State, names: Names)
    requires s.text != "" && s.text[0] in "dcgnes"
    ensures Run(WhenParser(), s, names) == Outcome(true, State(s.text, None, s.fields))
  {
    OtherLetter(s.text, "when", WORD_ENDS);
    RunLeaf(Constant("when"), s, names);
    var failed := Run(Constant("when"), s, names).after;
    assert !Run(Constant("when"), s, names).ok && failed.fields == s.fields;
    hide Run, Until;
    SpacedFails(Constant("when"), s, failed, names);
    WhenIs();
    Skips(WhenParser(), s, Run(Spaced(Constant("when")), s, names).after, names);
  }

  lemma NoMode(text: string)
    requires StartsJump(text)
    ensures Choose(MODES, 0, text) == None
  {
    NoModeFrom(text, 0);
  }

  lemma {:induction false} NoModeFrom(text: string, i: nat)
    requires StartsJump(text) && i <= |MODES|
    ensures Choose(MODES, i, text) == None
    decreases |MODES| - i
  {
    if i < |MODES| {
      ModeLetter(i);
      OtherLetter(text, MODES[i].constant, ENUM_ENDS);
      NoModeFrom(text, i + 1);
    }
  }

  lemma ModeLetter(i: nat)
    requires i < |MODES|
    ensures MODES[i].constant != "" && MODES[i].constant[0] == 'd'
  {
  }

  /** Without `do` the mode is the first one. */
  lemma DoSkips(s: State, names: Names)
    requires StartsJump(s.text)
    ensures Run(DoParser(), s, names) == Outcome(true, State(s.text, None, s.fields[Mode := Number(0)]))
  {
    var p := EnumElement(Mode, MODES, 0);
    NoMode(s.text);
    RunLeaf(p, s, names);
    var failed := Run(p, s, names).after;
    assert !Run(p, s, names).ok && failed.fields == s.fields[Mode := Number(0)];
    hide Run, MODES, Choose;
    SpacedFails(p, s, failed, names);
    DoIs();
    hide TaskParser;
    Skips(DoParser(), s, Run(Spaced(p), s, names).after, names);
  }

  /** The condition, or none. */
  lemma WhenPart(r: Rule, when: bool, do: bool, end: LineEnd, s: State, names: Names)
    requires Good(r) && Printable(r.task) && ShowTask(r.task).Some? && s.text == Tail(r, when, do, end)
    requires !when ==> r.condition == Always && NumberAt(s.fields, ConditionType) == Some(ALWAYS)
    ensures Run(WhenParser(), s, names) == Outcome(true, State(DoTail(r, do, end), None, ConditionFields(s.fields, r.condition)))
  {
    TailStart(r, when, do, end);
    if when {
      hide Run, ShowCondition, DoTail, ShowTask, ConditionFields, GoodHosts, GoodTask, GoodCondition;
      WhenReads(r.condition, s, DoTail(r, do, end), names);
    } else {
      assert s.fields[ConditionType := Number(ALWAYS)] == s.fields;
      hide Run, DoTail, ShowTask;
      WhenSkips(s, names);
    }
  }

  /** The mode and the task, or none. */
  lemma DoPart(r: Rule, do: bool, end: LineEnd, s: State, names: Names)
    requires Good(r) && Printable(r.task) && ShowTask(r.task).Some? && s.text == DoTail(r, do, end)
    requires !do ==> r.mode == Normal && r.task == Nop && NumberAt(s.fields, TaskType) == Some(NOP)
    ensures Run(DoParser(), s, names) == Outcome(true, State(ShowJump(r.jump) + end, None, DoFields(s.fields, r.mode, r.task)))
  {
    JumpIsNoKeyword(r.jump, end);
    JumpStarts(r.jump, end);
    if do {
      hide Run, ShowTask, ShowMode, ShowJump, DoFields, GoodHosts, GoodTask, GoodCondition, Printable, DoParser;
      DoReads(r.mode, r.task, s, ShowJump(r.jump) + end, names);
    } else {
      var f := s.fields[Mode := Number(0)];
      assert f[TaskType := Number(NOP)] == f;
      assert DoFields(s.fields, r.mode, r.task) == f;
      hide Run, ShowTask, ShowMode, ShowJump, DoParser, DoFields;
      DoSkips(s, names);
    }
  }

  predicate StartsTail(tail: string) {
    tail != "" && tail[0] in "wdcgnes"
  }

  lemma NoPort(tail: string)
    requires StartsTail(tail)
    ensures tail != "" && !IsSpace(tail[0]) && !StartsWithWord(tail, "port", WORD_ENDS)
  {
    OtherLetter(tail, "port", WORD_ENDS);
    hide StartsWithWord, Until;
  }

  lemma GoodParts(r: Rule)
    requires Good(r)
    ensures Int32(r.pos) && GoodHosts(r)
  {
  }

  lemma PartsOfRule()
    ensures |RuleParser().parts| == 9 && RuleParser().Suite? && RuleParser().parts[3] == WhoParser()
    ensures RuleParser().parts[4] == WhenParser() && RuleParser().parts[5] == DoParser()
  {
    hide WhoParser, WhenParser, DoParser;
  }

  /** The line number, the protocol and the hosts. */
  lemma FirstPartsRead(r: Rule, tail: string, s: State, names: Names)
    requires Good(r) && KeepsQuads(names) && StartsTail(tail)
    requires s.text == Decimal(r.pos) + (" on " + (ShowProto(r.proto) + (" " + (ShowWho(r) + tail))))
    ensures RunAll(RuleParser(), 0, s, names)
            == RunAll(RuleParser(), 4, State(tail, None, WhoFields(HeadFields(s.fields, r), r)), names)
  {
    NoPort(tail);
    GoodParts(r);
    PartsOfRule();
    hide RuleParser, Run, RunAll, Good, StartsTail, Decimal, ShowProto, ShowWho, KeepsQuads, StartsWithWord, IsSpace, HeadFields, WhoFields, GoodHosts, WhoParser, Until;
    WhoStarts(r, tail);
    HeadReads(r, s, ShowWho(r) + tail, names);
    var t := State(ShowWho(r) + tail, None, HeadFields(s.fields, r));
    WhoReads(r, t, tail, names);
    NextPart(RuleParser(), 3, t, names);
  }

  lemma LastPartsRead(r: Rule, end: LineEnd, s: State, names: Names)
    requires Good(r) && s.text == ShowJump(r.jump) + end
    ensures RunAll(RuleParser(), 6, s, names) == Outcome(true, State("", None, JumpFields(s.fields, r.jump)))
  {
    hide Run, RunAll, ShowJump, JumpFields, DoParser, GoodTask, GoodHosts, GoodCondition, GoodJump, RuleParser, ReadNext;
    JumpReads(r.jump, s, end);
    RuleParts();
    RunLeaf(NextElement, s, names);
    NextPart(RuleParser(), 6, s, names);
    EndOfRule(end, State(end, None, JumpFields(s.fields, r.jump)), names);
  }

  lemma WhoKeepsDefaults(r: Rule)
    ensures var f := WhoFields(HeadFields(Defaults(), r), r);
            NumberAt(f, ConditionType) == Some(ALWAYS) && NumberAt(f, TaskType) == Some(NOP)
  {
    var f := HeadFields(Defaults(), r);
    WhoKeeps(f, r, ConditionType);
    WhoKeeps(f, r, TaskType);
    hide WhoFields;
  }

  /** The condition, the task and what comes next. */
  lemma RestReads(r: Rule, when: bool, do: bool, end: LineEnd, t: State, names: Names)
    requires Good(r) && Printable(r.task) && ShowTask(r.task).Some? && t.text == Tail(r, when, do, end)
    requires !when ==> r.condition == Always && NumberAt(t.fields, ConditionType) == Some(ALWAYS)
    requires !do ==> r.mode == Normal && r.task == Nop && NumberAt(t.fields, TaskType) == Some(NOP)
    ensures RunAll(RuleParser(), 4, t, names)
            == Outcome(true, State("", None, JumpFields(DoFields(ConditionFields(t.fields, r.condition), r.mode, r.task), r.jump)))
  {
    hide Run, RunAll, ShowTask, Tail, DoTail, ShowJump, ConditionFields, DoFields, JumpFields, Good, Printable, RuleParser, WhenParser, DoParser,
      WhoParser;
    PartsOfRule();
    WhenPart(r, when, do, end, t, names);
    NextPart(RuleParser(), 4, t, names);
    var u := State(DoTail(r, do, end), None, ConditionFields(t.fields, r.condition));
    ConditionKeeps(t.fields, r.condition, TaskType);
    DoPart(r, do, end, u, names);
    NextPart(RuleParser(), 5, u, names);
    LastPartsRead(r, end, State(ShowJump(r.jump) + end, None, DoFields(u.fields, r.mode, r.task)), names);
  }

  /** An instruction without its condition is one with `when always`, and one without its task is one
      with `do nop`: both leave the same fields, whatever was read before. */
  lemma OmittedIsDefault(r: Rule, when: bool, do: bool, end: LineEnd, status: Option<nat>, names: Names)
    requires Good(r) && KeepsQuads(names) && Printable(r.task)
    requires (!when ==> r.condition == Always) && (!do ==> r.mode == Normal && r.task == Nop)
    ensures ShowTask(r.task).Some? && Show(r, end).Some?
    ensures Parse(ShortForm(r, when, do, end), status, names) == Parse(Show(r, end).value, status, names)
  {
    PrintableEnds(r.task);
    RuleReads(r, end, status, names);
    hide Show, Run, RunAll, ShowTask, ShowProto, ShowWho, Decimal, Tail, DoTail, ShowJump, KeepsQuads, HeadFields, WhoFields, ConditionFields,
      DoFields, JumpFields, GoodHosts, GoodTask, GoodCondition, GoodJump, Printable, Defaults, RuleParser, WhenParser, DoParser;
    var s := State(ShortForm(r, when, do, end), status, Defaults());
    TailStart(r, when, do, end);
    FirstPartsRead(r, Tail(r, when, do, end), s, names);
    WhoKeepsDefaults(r);
    RestReads(r, when, do, end, State(Tail(r, when, do, end), None, WhoFields(HeadFields(Defaults(), r), r)), names);
    PartsOfRule();
    RunSuite(RuleParser(), s, names);
  }
}
