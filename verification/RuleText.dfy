/** Rules as text: a printed rule is parsed back to itself up to the port of a `dns` host, and
    matches the same sockets (`Action_show`, `Action_parse` and `Action_match` of `src/actions.c`). */
module RuleText {
  import opened Options
  import opened Texts
  import opened Parsers
  import opened Grammar
  import opened RoundTrip
  import opened PrintedRules
  import opened PrintedHosts

  function ProtoCode(p: Protocol): int {
    match p
    case Tcp => 1
    case Udp => 2
    case Ip => 3
  }

  function HeadFields(f: Fields, r: Rule): Fields {
    f[Pos := Number(r.pos)][Proto := Number(ProtoCode(r.proto))]
  }

  function ToWhen(f: Fields, r: Rule): Fields {
    ConditionFields(WhoFields(HeadFields(f, r), r), r.condition)
  }

  /** The fields after a printed rule has been read. */
  function RuleFields(f: Fields, r: Rule): Fields
    requires Printable(r.task)
  {
    JumpFields(DoFields(ToWhen(f, r), r.mode, r.task), r.jump)
  }

  /** The line number, `on`, and the protocol. */
  lemma HeadReads(r: Rule, s: State, rest: string, names: Names)
    requires Int32(r.pos) && (rest == "" || !IsSpace(rest[0]))
    requires s.text == Decimal(r.pos) + (" on " + (ShowProto(r.proto) + (" " + rest)))
    ensures RunAll(RuleParser(), 0, s, names) == RunAll(RuleParser(), 3, State(rest, None, HeadFields(s.fields, r)), names)
  {
    hide Run, RunAll, Decimal, Consistent;
    var p := RuleParser();
    var tail := ShowProto(r.proto) + (" " + rest);
    assert " on " + tail == " " + ("on" + (" " + tail));
    SpacedIntReads(Pos, r.pos, s, "on" + (" " + tail), names);
    NextPart(p, 0, s, names);
    var one := State("on" + (" " + tail), None, s.fields[Pos := Number(r.pos)]);
    SpacedConstantReads("on", one, tail, names);
    NextPart(p, 1, one, names);
    var two := State(tail, None, one.fields);
    TablesAreConsistent();
    assert PROTOS[0] == Choice("ip", 3) && PROTOS[1] == Choice("tcp", 1) && PROTOS[2] == Choice("udp", 2);
    SpacedEnumReads(Proto, PROTOS, 0, Choice(ShowProto(r.proto), ProtoCode(r.proto)), two, rest, names);
    NextPart(p, 2, two, names);
  }

  lemma TailStarts(r: Rule, task: string, end: LineEnd)
    ensures ShowTail(r, task, end) != "" && !IsSpace(ShowTail(r, task, end)[0]) && !StartsWithWord(ShowTail(r, task, end), "port", WORD_ENDS)
  {
    hide ShowCondition, ShowJump, ShowMode;
    assert ShowTail(r, task, end)[0] == 'w';
    assert !("port" <= ShowTail(r, task, end));
  }

  lemma WhoStarts(r: Rule, rest: string)
    ensures ShowWho(r) + rest != "" && !IsSpace((ShowWho(r) + rest)[0])
  {
    hide ShowName, ShowPort;
  }

  /** Everything up to the condition. */
  lemma UpToTaskReads(r: Rule, task: string, end: LineEnd, s: State, names: Names)
    requires Good(r) && KeepsQuads(names)
    requires s.text == Decimal(r.pos) + (" on " + (ShowProto(r.proto) + (" " + (ShowWho(r) + ShowTail(r, task, end)))))
    ensures RunAll(RuleParser(), 0, s, names)
            == RunAll(RuleParser(), 5, State(ShowMode(r.mode) + (" " + (task + (" " + (ShowJump(r.jump) + end)))), None, ToWhen(s.fields, r)), names)
  {
    hide Run, RunAll, Decimal, ShowProto, ShowWho, ShowCondition, ShowMode, ShowJump, KeepsQuads, StartsWithWord, IsSpace, HeadFields, WhoFields,
      ConditionFields, GoodHosts, GoodCondition, WhoParser, WhenParser;
    WhoStarts(r, ShowTail(r, task, end));
    TailStarts(r, task, end);
    HeadReads(r, s, ShowWho(r) + ShowTail(r, task, end), names);
    var t := State(ShowWho(r) + ShowTail(r, task, end), None, HeadFields(s.fields, r));
    WhoReads(r, t, ShowTail(r, task, end), names);
    NextPart(RuleParser(), 3, t, names);
    var u := State(ShowTail(r, task, end), None, WhoFields(t.fields, r));
    var rest := ShowMode(r.mode) + (" " + (task + (" " + (ShowJump(r.jump) + end))));
    ModeStarts(r.mode, " " + (task + (" " + (ShowJump(r.jump) + end))));
    assert "when " == "when" + " ";
    assert u.text == "when" + (" " + (ShowCondition(r.condition) + (" " + rest)));
    WhenReads(r.condition, u, rest, names);
    NextPart(RuleParser(), 4, u, names);
  }

  lemma ModeStarts(m: DoMode, rest: string)
    ensures ShowMode(m) + rest != "" && !IsSpace((ShowMode(m) + rest)[0])
  {
  }

  lemma JumpStarts(j: Jump, end: LineEnd)
    ensures ShowJump(j) + end != "" && !IsSpace((ShowJump(j) + end)[0])
  {
    hide Decimal;
  }

  lemma EndOfRule(end: LineEnd, s: State, names: Names)
    requires s.text == end
    ensures RunAll(RuleParser(), 7, s, names) == Outcome(true, State("", None, s.fields))
  {
    hide Run, RunAll;
    EndReads(end, s, names);
    NextPart(RuleParser(), 7, s, names);
    var t := State("", None, s.fields);
    RunLeaf(EobElement, t, names);
    NextPart(RuleParser(), 8, t, names);
    NoMoreParts(RuleParser(), t, names);
  }

  lemma TailReads(r: Rule, task: string, end: LineEnd, s: State, names: Names)
    requires GoodTask(r.task) && GoodJump(r.jump) && Printable(r.task) && ShowTask(r.task) == Some(task)
    requires s.text == ShowMode(r.mode) + (" " + (task + (" " + (ShowJump(r.jump) + end))))
    ensures RunAll(RuleParser(), 5, s, names)
            == Outcome(true, State("", None, JumpFields(DoFields(s.fields, r.mode, r.task), r.jump)))
  {
    hide Run, RunAll, ShowTask, ShowMode, ShowJump, DoFields, JumpFields, DoParser, GoodTask, GoodJump, Printable, RuleParser, ReadNext;
    var rest := ShowJump(r.jump) + end;
    JumpStarts(r.jump, end);
    DoReads(r.mode, r.task, s, rest, names);
    RuleParts();
    NextPart(RuleParser(), 5, s, names);
    var t := State(rest, None, DoFields(s.fields, r.mode, r.task));
    JumpReads(r.jump, t, end);
    RunLeaf(NextElement, t, names);
    NextPart(RuleParser(), 6, t, names);
    EndOfRule(end, State(end, None, JumpFields(t.fields, r.jump)), names);
  }

  lemma RuleParts()
    ensures RuleParser().Suite? && |RuleParser().parts| == 9 && RuleParser().parts[5] == DoParser() && RuleParser().parts[6] == NextElement
  {
    hide DoParser;
  }

  /** The printed rule is accepted to its end, whatever the status was. */
  lemma RuleReads(r: Rule, end: LineEnd, status: Option<nat>, names: Names)
    requires Good(r) && KeepsQuads(names) && Printable(r.task)
    ensures Show(r, end).Some? && Parse(Show(r, end).value, status, names) == Outcome(true, State("", None, RuleFields(Defaults(), r)))
  {
    hide Run, RunAll, ShowTail, ShowProto, ShowWho, ShowMode, ShowJump, ShowCondition, ShowTask, Decimal, KeepsQuads, DoFields, JumpFields, ToWhen,
      GoodHosts, GoodTask, GoodJump, GoodCondition, Printable, Defaults;
    PrintableEnds(r.task);
    var task := ShowTask(r.task).value;
    var s := State(Show(r, end).value, status, Defaults());
    UpToTaskReads(r, task, end, s, names);
    TailReads(r, task, end, State(ShowMode(r.mode) + (" " + (task + (" " + (ShowJump(r.jump) + end)))), None, ToWhen(s.fields, r)), names);
    RunSuite(RuleParser(), s, names);
  }

  // ----- the rule in the fields -----

  lemma SameHost(f: Fields, g: Fields, end: End)
    requires forall k :: k in {HostType(end), HostAddr(end), HostPort(end)} ==> (k in f <==> k in g) && (k in f ==> f[k] == g[k])
    ensures HostOf(f, end) == HostOf(g, end)
  {
  }

  lemma ReadHost(f: Fields, end: End, h: HostRule)
    requires GoodHost(h)
    ensures HostOf(HostFields(f, end, h), end) == Some(NormalHost(h))
  {
  }

  lemma UnsetHost(f: Fields, end: End)
    requires NumberAt(f, HostType(end)) == Some(0)
    ensures HostOf(f, end) == Some(HostRule(Nobody, 0, -1))
  {
  }

  predicate Elsewhere(k: Slot, end: End) {
    k !in {HostType(end), HostAddr(end), HostPort(end), Address, Service}
  }

  lemma HostFieldsKeep(f: Fields, end: End, h: HostRule, k: Slot)
    requires Elsewhere(k, end)
    ensures k in f <==> k in HostFields(f, end, h)
    ensures k in f ==> HostFields(f, end, h)[k] == f[k]
  {
  }

  predicate Fresh(f: Fields) {
    NumberAt(f, HostType(Source)) == Some(0) && NumberAt(f, HostType(Target)) == Some(0) && NumberAt(f, Direction) == Some(3)
  }

  lemma KeepHostOf(f: Fields, end: End, h: HostRule, other: End)
    requires other != end
    ensures HostOf(HostFields(f, end, h), other) == HostOf(f, other)
  {
    hide HostFields, HostOf;
    HostFieldsKeep(f, end, h, HostType(other));
    HostFieldsKeep(f, end, h, HostAddr(other));
    HostFieldsKeep(f, end, h, HostPort(other));
    SameHost(f, HostFields(f, end, h), other);
  }

  lemma KeepCourse(f: Fields, end: End, h: HostRule)
    ensures CourseOf(HostFields(f, end, h)) == CourseOf(f)
  {
    hide HostFields;
    HostFieldsKeep(f, end, h, Direction);
  }

  lemma TriedKeeps(f: Fields)
    requires Fresh(f)
    ensures Fresh(Tried(f)) && Fresh(Start(f, Source))
  {
  }

  lemma SetCourse(f: Fields, code: int)
    ensures HostOf(f[Direction := Number(code)], Source) == HostOf(f, Source)
    ensures HostOf(f[Direction := Number(code)], Target) == HostOf(f, Target)
  {
  }

  /** Both hosts and the direction are read back. */
  lemma WhoIsRead(f: Fields, r: Rule)
    requires Fresh(f) && GoodHosts(r)
    ensures var g := WhoFields(f, r);
            HostOf(g, Source) == Some(NormalHost(r.source)) && HostOf(g, Target) == Some(NormalHost(r.target)) && CourseOf(g) == Some(r.course)
  {
    hide HostFields, HostOf, Tried, Start;
    TriedKeeps(f);
    match r.course
    case OnAll =>
      var g := HostFields(f, Source, r.source);
      ReadHost(f, Source, r.source);
      KeepHostOf(f, Source, r.source, Target);
      UnsetHost(f, Target);
      SetCourse(g, 15);
    case OnConnect => TaggedIsRead(Tried(f), 4, r.target);
    case OnClose => TaggedIsRead(Tried(f), 8, r.target);
    case OnData =>
      if r.target.kind == Nobody {
        var g := Start(f, Source);
        ReadHost(g, Source, r.source);
        KeepHostOf(g, Source, r.source, Target);
        UnsetHost(g, Target);
        KeepCourse(g, Source, r.source);
      } else {
        var t := Tried(f);
        var g := HostFields(t, Source, r.source);
        ReadHost(t, Source, r.source);
        KeepCourse(t, Source, r.source);
        ReadHost(g, Target, r.target);
        KeepHostOf(g, Target, r.target, Source);
        KeepCourse(g, Target, r.target);
      }
  }

  lemma TaggedIsRead(t: Fields, code: int, h: HostRule)
    requires Fresh(t) && GoodHost(h) && (code == 4 || code == 8)
    ensures var g := HostFields(t[Direction := Number(code)], Target, h);
            HostOf(g, Source) == Some(HostRule(Nobody, 0, -1)) && HostOf(g, Target) == Some(NormalHost(h))
            && CourseOf(g) == Some(if code == 4 then OnConnect else OnClose)
  {
    hide HostFields, HostOf, GoodHost;
    var u := t[Direction := Number(code)];
    ReadHost(u, Target, h);
    KeepHostOf(u, Target, h, Source);
    UnsetHost(u, Source);
    KeepCourse(u, Target, h);
  }

  predicate HostSlot(k: Slot) {
    k.HostType? || k.HostAddr? || k.HostPort? || k.Address? || k.Service? || k.Direction?
  }

  predicate ConditionSlot(k: Slot) {
    k.ConditionType? || k.ConditionData?
  }

  predicate TaskSlot(k: Slot) {
    k.TaskType? || k.TaskData? || k.Mode?
  }

  predicate JumpSlot(k: Slot) {
    k.NextType? || k.NextLine?
  }

  /** Two sets of fields agree on a slot. */
  predicate Agree(f: Fields, g: Fields, k: Slot) {
    (k in f <==> k in g) && (k in f ==> f[k] == g[k])
  }

  lemma WhoKeeps(f: Fields, r: Rule, k: Slot)
    requires !HostSlot(k)
    ensures Agree(f, WhoFields(f, r), k)
  {
    hide HostFields;
    HostFieldsKeep(f, Source, r.source, k);
    HostFieldsKeep(Start(f, Source), Source, r.source, k);
    HostFieldsKeep(Tried(f), Source, r.source, k);
    HostFieldsKeep(HostFields(Tried(f), Source, r.source), Target, r.target, k);
    HostFieldsKeep(Tried(f)[Direction := Number(4)], Target, r.target, k);
    HostFieldsKeep(Tried(f)[Direction := Number(8)], Target, r.target, k);
  }

  lemma ConditionKeeps(f: Fields, c: Condition, k: Slot)
    requires !ConditionSlot(k)
    ensures Agree(f, ConditionFields(f, c), k)
  {
  }

  lemma DoKeeps(f: Fields, m: DoMode, t: Task, k: Slot)
    requires !TaskSlot(k) && Printable(t)
    ensures Agree(f, DoFields(f, m, t), k)
  {
  }

  lemma JumpKeeps(f: Fields, j: Jump, k: Slot)
    requires !JumpSlot(k)
    ensures Agree(f, JumpFields(f, j), k)
  {
  }

  lemma ConditionIsRead(f: Fields, c: Condition)
    ensures ConditionOf(ConditionFields(f, c)) == Some(c)
  {
  }

  lemma DoIsRead(f: Fields, m: DoMode, t: Task)
    requires Printable(t)
    ensures TaskOf(DoFields(f, m, t)) == Some(t) && ModeOf(DoFields(f, m, t)) == Some(m)
  {
  }

  lemma JumpIsRead(f: Fields, j: Jump)
    ensures JumpOf(JumpFields(f, j)) == Some(j)
  {
  }

  lemma HeadIsRead(f: Fields, r: Rule)
    requires Fresh(f)
    ensures NumberAt(HeadFields(f, r), Pos) == Some(r.pos) && ProtocolOf(HeadFields(f, r)) == Some(r.proto) && Fresh(HeadFields(f, r))
  {
  }

  lemma AgreeTwice(f: Fields, g: Fields, h: Fields, k: Slot)
    requires Agree(f, g, k) && Agree(g, h, k)
    ensures Agree(f, h, k)
  {
  }

  /** The part of the fields that later sections leave alone. */
  lemma LaterKeep(f: Fields, r: Rule, k: Slot)
    requires Printable(r.task)
    ensures !TaskSlot(k) && !JumpSlot(k) ==> Agree(ToWhen(f, r), RuleFields(f, r), k)
    ensures !ConditionSlot(k) && !TaskSlot(k) && !JumpSlot(k) ==> Agree(WhoFields(HeadFields(f, r), r), RuleFields(f, r), k)
    ensures !HostSlot(k) && !ConditionSlot(k) && !TaskSlot(k) && !JumpSlot(k) ==> Agree(HeadFields(f, r), RuleFields(f, r), k)
    ensures !JumpSlot(k) ==> Agree(DoFields(ToWhen(f, r), r.mode, r.task), RuleFields(f, r), k)
  {
    hide HeadFields, WhoFields, ConditionFields, DoFields, JumpFields, Agree, Printable;
    var head := HeadFields(f, r);
    var who := WhoFields(head, r);
    var when := ToWhen(f, r);
    var do := DoFields(when, r.mode, r.task);
    if !JumpSlot(k) {
      JumpKeeps(do, r.jump, k);
      if !TaskSlot(k) {
        DoKeeps(when, r.mode, r.task, k);
        AgreeTwice(when, do, RuleFields(f, r), k);
        if !ConditionSlot(k) {
          ConditionKeeps(who, r.condition, k);
          AgreeTwice(who, when, RuleFields(f, r), k);
          if !HostSlot(k) {
            WhoKeeps(head, r, k);
            AgreeTwice(head, who, RuleFields(f, r), k);
          }
        }
      }
    }
  }

  lemma SameCondition(f: Fields, g: Fields)
    requires Agree(f, g, ConditionType) && Agree(f, g, CD0) && Agree(f, g, CD1) && Agree(f, g, CD2)
    ensures ConditionOf(f) == ConditionOf(g)
  {
  }

  lemma SameTask(f: Fields, g: Fields)
    requires Agree(f, g, TaskType) && Agree(f, g, TD0) && Agree(f, g, TD1) && Agree(f, g, Mode)
    ensures TaskOf(f) == TaskOf(g) && ModeOf(f) == ModeOf(g)
  {
  }

  lemma HeadStays(f: Fields, r: Rule)
    requires Printable(r.task) && Fresh(f)
    ensures NumberAt(RuleFields(f, r), Pos) == Some(r.pos) && ProtocolOf(RuleFields(f, r)) == Some(r.proto)
  {
    hide RuleFields, HeadFields, WhoFields, ToWhen, DoFields, Printable;
    HeadIsRead(f, r);
    LaterKeep(f, r, Pos);
    LaterKeep(f, r, Proto);
  }

  lemma WhoStays(f: Fields, r: Rule)
    requires Printable(r.task) && GoodHosts(r) && Fresh(f)
    ensures var g := RuleFields(f, r);
            HostOf(g, Source) == Some(NormalHost(r.source)) && HostOf(g, Target) == Some(NormalHost(r.target)) && CourseOf(g) == Some(r.course)
  {
    hide RuleFields, HeadFields, WhoFields, ToWhen, DoFields, Printable, GoodHosts, HostOf;
    HeadIsRead(f, r);
    WhoIsRead(HeadFields(f, r), r);
    LaterKeep(f, r, Direction);
    HostStays(f, r, Source);
    HostStays(f, r, Target);
  }

  lemma HostStays(f: Fields, r: Rule, end: End)
    requires Printable(r.task)
    ensures HostOf(RuleFields(f, r), end) == HostOf(WhoFields(HeadFields(f, r), r), end)
  {
    hide RuleFields, HeadFields, WhoFields, ToWhen, DoFields, Printable, HostOf;
    LaterKeep(f, r, HostType(end));
    LaterKeep(f, r, HostAddr(end));
    LaterKeep(f, r, HostPort(end));
    SameHost(WhoFields(HeadFields(f, r), r), RuleFields(f, r), end);
  }

  lemma RestStays(f: Fields, r: Rule)
    requires Printable(r.task)
    ensures var g := RuleFields(f, r);
            ConditionOf(g) == Some(r.condition) && TaskOf(g) == Some(r.task) && ModeOf(g) == Some(r.mode) && JumpOf(g) == Some(r.jump)
  {
    var g := RuleFields(f, r);
    JumpIsRead(DoFields(ToWhen(f, r), r.mode, r.task), r.jump);
    ConditionIsRead(WhoFields(HeadFields(f, r), r), r.condition);
    hide RuleFields, HeadFields, WhoFields, DoFields, ConditionFields, JumpFields, Printable, ConditionOf, TaskOf, ModeOf, JumpOf, Agree;
    DoIsRead(ToWhen(f, r), r.mode, r.task);
    LaterKeep(f, r, ConditionType);
    LaterKeep(f, r, CD0);
    LaterKeep(f, r, CD1);
    LaterKeep(f, r, CD2);
    SameCondition(ToWhen(f, r), g);
    LaterKeep(f, r, TaskType);
    LaterKeep(f, r, TD0);
    LaterKeep(f, r, TD1);
    LaterKeep(f, r, Mode);
    SameTask(DoFields(ToWhen(f, r), r.mode, r.task), g);
  }

  /** Printing a rule and parsing the text gives the rule back, without the port of a `dns` host. */
  lemma PrintThenParse(r: Rule, end: LineEnd, status: Option<nat>, names: Names)
    requires Good(r) && KeepsQuads(names) && Printable(r.task)
    ensures Show(r, end).Some?
    ensures var o := Parse(Show(r, end).value, status, names);
            o.ok && o.after.text == "" && o.after.status == None && RuleOf(o.after.fields) == Some(Normalized(r))
  {
    hide Parse, Show, RuleFields, HostOf, ConditionOf, TaskOf, ModeOf, JumpOf, CourseOf, ProtocolOf, NumberAt, KeepsQuads, Printable, GoodHosts,
      GoodTask, GoodJump, GoodCondition;
    RuleReads(r, end, status, names);
    assert Fresh(Defaults()) by { DefaultsAreFresh(); }
    HeadStays(Defaults(), r);
    WhoStays(Defaults(), r);
    RestStays(Defaults(), r);
  }

  lemma DefaultsAreFresh()
    ensures Fresh(Defaults())
  {
  }

  // ----- the tasks that are not read back -----

  lemma NotANext(m: DoMode, s: State, rest: string)
    requires s.text == ShowMode(m) + (" " + rest)
    ensures !ReadNext(s).ok
  {
    hide Choose, StartsWithWord, IsName;
    ChosenIsFirst(GOTOS, 0, s.text);
    var tail := " " + rest;
    forall i: nat | i < |GOTOS| ensures !StartsWithWord(s.text, GOTOS[i].constant, ENUM_ENDS) {
      GotoNames(i);
      ModeIsName(m);
      OtherWord(ShowMode(m), GOTOS[i].constant, tail, ENUM_ENDS);
    }
  }

  lemma ModeIsName(m: DoMode)
    ensures IsName(ShowMode(m)) && forall i :: 0 <= i < |GOTOS| ==> GOTOS[i].constant != ShowMode(m)
  {
    ModeNames(ModeCode(m));
    hide IsName;
    assert MODES[ModeCode(m)].constant == ShowMode(m);
  }

  lemma NoTrucate()
    ensures IsName("trucate") && forall k :: 0 <= k < |TASKS| ==> TASKS[k].name != "trucate"
  {
  }

  lemma TruncateFails(m: DoMode, n: int, s: State, rest: string, names: Names)
    requires s.text == ShowMode(m) + (" " + (ShowTask(Truncate(n)).value + (" " + rest)))
    ensures !RunAll(RuleParser(), 5, s, names).ok
  {
    hide Run, RunAll, Decimal, ShowMode, IsName, ReadNext;
    var t := State(Phrase("trucate", Decimal(n)) + (" " + rest), None, s.fields[Mode := Number(ModeCode(m))]);
    var arg := " " + (Decimal(n) + (" " + rest));
    Regroup("trucate", Decimal(n), " " + rest);
    NoTrucate();
    ModeReads(m, s, t.text, names);
    DoIs();
    UnknownName(TaskParser(), "trucate", t, arg, names);
    SpacedFails(TaskParser(), t, names);
    NextPart(DoParser(), 0, s, names);
    NextPart(DoParser(), 1, t, names);
    RunOptional(DoParser(), s, names);
    NextPart(RuleParser(), 5, s, names);
    var u := Run(DoParser(), s, names).after;
    NotANext(m, u, ShowTask(Truncate(n)).value + (" " + rest));
    RunLeaf(NextElement, u, names);
    NextPart(RuleParser(), 6, u, names);
  }

  /** The printer of `truncate` writes another name, which the parser rejects. */
  lemma TruncateIsLost(r: Rule, end: LineEnd, status: Option<nat>, names: Names)
    requires Good(r) && KeepsQuads(names) && r.task.Truncate?
    ensures Show(r, end).Some? && !Parse(Show(r, end).value, status, names).ok
  {
    hide Run, RunAll, ShowTail, ShowProto, ShowWho, ShowMode, ShowJump, ShowCondition, Decimal, KeepsQuads, ToWhen,
      GoodHosts, GoodTask, GoodJump, GoodCondition, Defaults, Phrase;
    var task := ShowTask(r.task).value;
    var s := State(Show(r, end).value, status, Defaults());
    UpToTaskReads(r, task, end, s, names);
    TruncateFails(r.mode, r.task.n, State(ShowMode(r.mode) + (" " + (task + (" " + (ShowJump(r.jump) + end)))), None, ToWhen(s.fields, r)),
                  ShowJump(r.jump) + end, names);
    RunSuite(RuleParser(), s, names);
  }

  /** Exactly when a rule survives being printed and parsed: its task is not `truncate`, and not
      an `emit` or `error` of another value than the first of its table. */
  lemma RoundTripIff(r: Rule, end: LineEnd, status: Option<nat>, names: Names)
    requires Good(r) && KeepsQuads(names)
    ensures (Show(r, end).Some? && var o := Parse(Show(r, end).value, status, names); o.ok && RuleOf(o.after.fields) == Some(Normalized(r)))
            <==> Printable(r.task)
  {
    hide Parse, RuleOf, KeepsQuads, Good, ShowTail;
    if Printable(r.task) {
      PrintThenParse(r, end, status, names);
    } else if r.task.Truncate? {
      TruncateIsLost(r, end, status, names);
    }
  }

  // ----- matching -----

  /** The directions and protocols of a socket, as sets of bits in the source. */
  datatype Event = Reads | Writes | Connects | Closes

  datatype Peer = Peer(isMe: bool, isDns: bool, addr: int, port: int)

  datatype SocketView = SocketView(proto: Protocol, local: Peer, remote: Peer)

  predicate Covers(c: Course, e: Event) {
    match c
    case OnData => e == Reads || e == Writes
    case OnConnect => e == Connects
    case OnClose => e == Closes
    case OnAll => true
  }

  predicate Shares(a: Protocol, b: Protocol) {
    a == Ip || b == Ip || a == b
  }

  /** `Action_addressMatch`, as it is written: an address matches the peers that have another one. */
  predicate AddressMatch(h: HostRule, p: Peer) {
    var samePort := h.port == -1 || h.port == p.port;
    match h.kind
    case Me => p.isMe && samePort
    case Dns => p.isDns
    case At => p.addr != h.addr && samePort
    case Any => samePort
    case Nobody => false
  }

  /** `Action_match`, with the answer of the condition. */
  predicate Matches(r: Rule, si: SocketView, e: Event, condition: bool) {
    Covers(r.course, e) && condition && Shares(si.proto, r.proto) &&
    match r.course
    case OnData =>
      if r.target.kind != Nobody then
        AddressMatch(if e == Writes then r.source else r.target, si.local) && AddressMatch(if e == Reads then r.source else r.target, si.remote)
      else AddressMatch(r.source, si.local) || AddressMatch(r.source, si.remote)
    case OnAll => AddressMatch(r.source, si.local) || AddressMatch(r.source, si.remote)
    case OnConnect => AddressMatch(r.target, si.remote)
    case OnClose => AddressMatch(r.target, si.remote)
  }

  // ----- what a rule names, and what it matches -----

  predicate PortFits(h: HostRule, p: Peer) {
    h.port == -1 || h.port == p.port
  }

  /** The match that a rule describes: `me` is this host, `dns` a name server, an address stands for
      the peer that has it, `any` for every peer, with the port if one is given. */
  predicate NamesPeer(h: HostRule, p: Peer) {
    match h.kind
    case Nobody => false
    case Me => p.isMe && PortFits(h, p)
    case Dns => p.isDns
    case At => p.addr == h.addr && PortFits(h, p)
    case Any => PortFits(h, p)
  }

  /** The events that the hosts of a rule speak of. */
  function EventsNamed(c: Course): set<Event> {
    match c
    case OnData => {Reads, Writes}
    case OnConnect => {Connects}
    case OnClose => {Closes}
    case OnAll => {Reads, Writes, Connects, Closes}
  }

  /** The match that a rule describes, of an event on a socket. */
  predicate NamesSocket(r: Rule, si: SocketView, e: Event, condition: bool) {
    e in EventsNamed(r.course) && condition && (si.proto == r.proto || si.proto == Ip || r.proto == Ip) &&
    match r.course
    case OnData =>
      if r.target.kind != Nobody then
        NamesPeer(if e == Writes then r.source else r.target, si.local) && NamesPeer(if e == Reads then r.source else r.target, si.remote)
      else NamesPeer(r.source, si.local) || NamesPeer(r.source, si.remote)
    case OnAll => NamesPeer(r.source, si.local) || NamesPeer(r.source, si.remote)
    case OnConnect => NamesPeer(r.target, si.remote)
    case OnClose => NamesPeer(r.target, si.remote)
  }

  /** A host matches the peers that it names, exactly if it is no address or the peer has another port. */
  lemma AddressMatchIff(h: HostRule, p: Peer)
    ensures AddressMatch(h, p) == NamesPeer(h, p) <==> h.kind != At || !PortFits(h, p)
  {
  }

  /** A `connect to` or `close to` rule for an address that could match never matches what it names:
      it agrees with its description exactly if it names no address or the peer has another port. */
  lemma TargetMatchIff(r: Rule, si: SocketView, e: Event)
    requires (r.course == OnConnect || r.course == OnClose) && Covers(r.course, e) && Shares(si.proto, r.proto)
    ensures Matches(r, si, e, true) == NamesSocket(r, si, e, true) <==> r.target.kind != At || !PortFits(r.target, si.remote)
  {
    AddressMatchIff(r.target, si.remote);
    hide AddressMatch;
  }

  /** How many of the two ends of a socket have a fitting port and the address, or another one. */
  function EndsWith(h: HostRule, si: SocketView, same: bool): nat {
    (if PortFits(h, si.local) && (si.local.addr == h.addr) == same then 1 else 0)
    + (if PortFits(h, si.remote) && (si.remote.addr == h.addr) == same then 1 else 0)
  }

  /** A `with` or `talk-with` rule for an address matches what it names exactly if, of the ends with
      a fitting port, both or neither of the two kinds occur: one with the address and one without. */
  lemma EitherEndMatchIff(r: Rule, si: SocketView, e: Event)
    requires r.course == OnAll || (r.course == OnData && r.target.kind == Nobody)
    requires Covers(r.course, e) && Shares(si.proto, r.proto) && r.source.kind == At
    ensures Matches(r, si, e, true) == NamesSocket(r, si, e, true)
            <==> (EndsWith(r.source, si, true) > 0 <==> EndsWith(r.source, si, false) > 0)
    ensures r.source.port == -1 ==> (Matches(r, si, e, true) == NamesSocket(r, si, e, true) <==> EndsWith(r.source, si, true) == 1)
  {
  }

  /** The comparison of the host with the peer comes out inverted. */
  predicate Inverted(h: HostRule, p: Peer) {
    h.kind == At && PortFits(h, p)
  }

  /** A `from` and `to` rule matches what it names exactly if no comparison is inverted, or the
      other host is not there when one is, or just one of the hosts is there when both are. */
  lemma BothEndsMatchIff(r: Rule, si: SocketView, e: Event)
    requires r.course == OnData && r.target.kind != Nobody && Covers(r.course, e) && Shares(si.proto, r.proto)
    ensures var l, m := if e == Writes then r.source else r.target, if e == Reads then r.source else r.target;
            var li, mi := Inverted(l, si.local), Inverted(m, si.remote);
            Matches(r, si, e, true) == NamesSocket(r, si, e, true)
            <==> && (li && mi ==> NamesPeer(l, si.local) != NamesPeer(m, si.remote))
                 && (li && !mi ==> !NamesPeer(m, si.remote))
                 && (mi && !li ==> !NamesPeer(l, si.local))
  {
    var l, m := if e == Writes then r.source else r.target, if e == Reads then r.source else r.target;
    InvertedDiffers(l, si.local);
    InvertedDiffers(m, si.remote);
    hide AddressMatch, NamesPeer, Inverted;
  }

  lemma InvertedDiffers(h: HostRule, p: Peer)
    ensures Inverted(h, p) ==> AddressMatch(h, p) == !NamesPeer(h, p)
    ensures !Inverted(h, p) ==> AddressMatch(h, p) == NamesPeer(h, p)
  {
  }

  lemma NormalHostMatches(h: HostRule, p: Peer)
    ensures AddressMatch(NormalHost(h), p) == AddressMatch(h, p)
  {
  }

  /** The rule that comes back matches exactly the sockets that the printed one matched. */
  lemma ReadBackMatchesTheSame(r: Rule, end: LineEnd, status: Option<nat>, names: Names, si: SocketView, e: Event, condition: bool)
    requires Good(r) && KeepsQuads(names) && Printable(r.task)
    ensures Show(r, end).Some?
    ensures var back := RuleOf(Parse(Show(r, end).value, status, names).after.fields);
            back.Some? && Matches(back.value, si, e, condition) == Matches(r, si, e, condition)
            && back.value.condition == r.condition && back.value.task == r.task && back.value.mode == r.mode
            && back.value.jump == r.jump && back.value.pos == r.pos
  {
    hide Parse, RuleOf, KeepsQuads, Good, Show, AddressMatch, NormalHost, Printable;
    PrintThenParse(r, end, status, names);
    NormalHostMatches(r.source, si.local);
    NormalHostMatches(r.source, si.remote);
    NormalHostMatches(r.target, si.local);
    NormalHostMatches(r.target, si.remote);
    NormalKind(r.target);
  }

  lemma NormalKind(h: HostRule)
    ensures NormalHost(h).kind == h.kind
  {
  }
}
