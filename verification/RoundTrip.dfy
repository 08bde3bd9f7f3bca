/** A printed rule is parsed back to itself (`Action_show` and `Action_parse` of `src/actions.c`). */
module RoundTrip {
  import opened Options
  import opened Texts
  import opened Parsers
  import opened Grammar

  // ----- words and numbers in front of a text -----

  predicate IsNameChar(c: char) {
    'a' <= c <= 'z' || 'A' <= c <= 'Z' || '0' <= c <= '9' || c == '-'
  }

  /** A keyword: letters, digits and dashes. */
  predicate IsName(w: string) {
    w != "" && forall k :: 0 <= k < |w| ==> IsNameChar(w[k])
  }

  predicate Ends(rest: string, ends: string) {
    rest == "" || rest[0] in ends
  }

  lemma NameChars(w: string)
    requires IsName(w)
    ensures forall c :: c in w ==> c !in WORD_ENDS && c !in ENUM_ENDS
  {
    forall c | c in w ensures c !in WORD_ENDS && c !in ENUM_ENDS {
      var k :| 0 <= k < |w| && w[k] == c;
      assert IsNameChar(w[k]);
    }
  }

  lemma StartsHere(w: string, rest: string, ends: string)
    requires w != "" && Ends(rest, ends)
    ensures StartsWithWord(w + rest, w, ends) && (w + rest)[|w|..] == rest && (w + rest)[..|w|] == w
  {
  }

  /** A text that starts with one keyword does not start with another. */
  lemma OtherWord(w: string, other: string, rest: string, ends: string)
    requires IsName(w) && IsName(other) && w != other && Ends(rest, ends) && (ends == WORD_ENDS || ends == ENUM_ENDS)
    ensures !StartsWithWord(w + rest, other, ends)
  {
    hide StartsWithWord, IsName;
    NameChars(w);
    NameChars(other);
    NotEmpty(w);
    StartsHere(w, rest, ends);
    if StartsWithWord(w + rest, other, ends) {
      OneWord(w + rest, w, other, ends);
    }
  }

  lemma NotEmpty(w: string)
    requires IsName(w)
    ensures w != ""
  {
  }

  lemma ConstantReads(s: State, w: string, rest: string, ends: string)
    requires w != "" && Ends(rest, ends) && s.text == w + rest
    ensures ReadConstant(s, w, ends) == Outcome(true, State(rest, None, s.fields))
  {
    hide Until, StartsWithWord;
    StartsHere(w, rest, ends);
    ConstantIff(s.text, w, ends);
  }

  lemma ConstantFails(s: State, w: string, ends: string)
    requires !StartsWithWord(s.text, w, ends)
    ensures ReadConstant(s, w, ends) == Failed(s, s.text)
  {
    hide Until, StartsWithWord;
    ConstantIff(s.text, w, ends);
  }

  lemma WordReads(s: State, dest: Slot, w: string, rest: string)
    requires IsWord(w) && Ends(rest, WORD_ENDS) && s.text == w + rest
    ensures ReadWord(s, dest) == Outcome(true, State(rest, None, s.fields[dest := Word(w)]))
  {
    hide Until, StartsWithWord;
    StartsHere(w, rest, WORD_ENDS);
    WordIff(s.text, w, WORD_ENDS);
  }

  lemma IntReads(s: State, dest: Slot, n: int, rest: string)
    requires Int32(n) && (rest == "" || !IsDigit(rest[0])) && s.text == Decimal(n) + rest
    ensures ReadInt(s, dest) == Outcome(true, State(rest, None, s.fields[dest := Number(n)]))
  {
    hide Int, Decimal;
    DecimalRoundTrip(n, rest);
    assert s.text[|Decimal(n)|..] == rest;
  }

  lemma SpaceReads(s: State, rest: string)
    requires s.text == " " + rest && (rest == "" || !IsSpace(rest[0]))
    ensures ReadSpace(s) == Outcome(true, State(rest, None, s.fields))
  {
    SkipsOne(rest);
    hide SkipSpace;
  }

  lemma SkipsOne(rest: string)
    requires rest == "" || !IsSpace(rest[0])
    ensures SkipSpace(" " + rest) == rest
  {
    var text := " " + rest;
    assert text[0] == ' ' && text[1..] == rest && IsSpace(' ');
    hide IsSpace;
  }

  lemma EnumReads(s: State, dest: Slot, table: seq<Choice>, otherwise: int, c: Choice, rest: string)
    requires Consistent(table) && c in table && Ends(rest, ENUM_ENDS) && s.text == c.constant + rest
    ensures ReadEnum(s, dest, table, otherwise) == Outcome(true, State(rest, None, s.fields[dest := Number(c.value)]))
  {
    hide ReadEnum, StartsWithWord;
    assert c.constant != "";
    StartsHere(c.constant, rest, ENUM_ENDS);
    EnumIff(s, dest, table, otherwise);
  }

  lemma EnumFails(s: State, dest: Slot, table: seq<Choice>, otherwise: int)
    requires Consistent(table) && forall c :: c in table ==> !StartsWithWord(s.text, c.constant, ENUM_ENDS)
    ensures ReadEnum(s, dest, table, otherwise) == Forced(Write(s, dest, Number(otherwise)), s.text)
  {
    hide Choose, StartsWithWord;
    ChosenIsFirst(table, 0, s.text);
  }

  // ----- running the parts of a tree -----

  lemma RunSuite(p: Parser, s: State, names: Names)
    requires p.Suite?
    ensures Run(p, s, names) == var r := RunAll(p, 0, s, names); if r.ok then Cleared(r.after) else Failed(r.after, s.text)
  {
    hide RunAll;
  }

  lemma RunOptional(p: Parser, s: State, names: Names)
    requires p.Optional?
    ensures Run(p, s, names) == var r := RunAll(p, 0, s, names); Cleared(if r.ok then r.after else r.after.(text := s.text))
  {
    hide RunAll;
  }

  lemma RunIsFirst(p: Parser, s: State, names: Names)
    requires p.First?
    ensures Run(p, s, names) == RunFirst(p, 0, s, names)
  {
    hide RunFirst;
  }

  lemma RunLeaf(p: Parser, s: State, names: Names)
    ensures p.IntElement? ==> Run(p, s, names) == ReadInt(s, p.dest)
    ensures p.RangedInt? ==> Run(p, s, names) == ReadRanged(s, p.dest, p.low, p.high)
    ensures p.WordElement? ==> Run(p, s, names) == ReadWord(s, p.dest)
    ensures p.FileElement? ==> Run(p, s, names) == ReadFile(s, p.dest)
    ensures p.Constant? ==> Run(p, s, names) == ReadConstant(s, p.constant, WORD_ENDS)
    ensures p.EnumElement? ==> Run(p, s, names) == ReadEnum(s, p.dest, p.table, p.otherwise)
    ensures p.SpaceElement? ==> Run(p, s, names) == ReadSpace(s)
    ensures p.EobElement? ==> Run(p, s, names) == ReadEob(s)
    ensures p.NextElement? ==> Run(p, s, names) == ReadNext(s)
    ensures p.Assign? ==> Run(p, s, names) == Outcome(true, Write(s, p.dest, Number(p.value)))
  {
    hide ReadInt, ReadRanged, ReadWord, ReadFile, ReadConstant, ReadEnum, ReadSpace, ReadEob, ReadNext, RunAll, RunFirst, RunNamed, FinishHost;
  }

  /** Two parts that succeed one after the other. */
  lemma TwoParts(p: Parser, s: State, one: State, two: State, names: Names)
    requires (p.Suite? || p.Optional?) && |p.parts| == 2
    requires Run(p.parts[0], s, names) == Outcome(true, one) && Run(p.parts[1], one, names) == Outcome(true, two)
    ensures Run(p, s, names) == Cleared(two)
  {
    hide Run, RunAll;
    NextPart(p, 0, s, names);
    NextPart(p, 1, one, names);
    NoMoreParts(p, two, names);
    if p.Suite? {
      RunSuite(p, s, names);
    } else {
      RunOptional(p, s, names);
    }
  }

  lemma ThreeParts(p: Parser, s: State, one: State, two: State, three: State, names: Names)
    requires (p.Suite? || p.Optional?) && |p.parts| == 3
    requires Run(p.parts[0], s, names) == Outcome(true, one) && Run(p.parts[1], one, names) == Outcome(true, two)
    requires Run(p.parts[2], two, names) == Outcome(true, three)
    ensures Run(p, s, names) == Cleared(three)
  {
    hide Run, RunAll;
    NextPart(p, 0, s, names);
    NextPart(p, 1, one, names);
    NextPart(p, 2, two, names);
    NoMoreParts(p, three, names);
    if p.Suite? {
      RunSuite(p, s, names);
    } else {
      RunOptional(p, s, names);
    }
  }

  lemma SpacedReads(p: Parser, s: State, rest: string, status: Option<nat>, f: Fields, names: Names)
    requires Run(p, s, names) == Outcome(true, State(" " + rest, status, f)) && (rest == "" || !IsSpace(rest[0]))
    ensures Run(Spaced(p), s, names) == Outcome(true, State(rest, None, f))
  {
    hide Run;
    var one := State(" " + rest, status, f);
    SpaceReads(one, rest);
    RunLeaf(SpaceElement, one, names);
    TwoParts(Spaced(p), s, one, State(rest, None, f), names);
  }

  lemma SpacedFails(p: Parser, s: State, names: Names)
    requires !Run(p, s, names).ok
    ensures Run(Spaced(p), s, names) == Failed(Run(p, s, names).after, s.text)
  {
    hide Run;
    NextPart(Spaced(p), 0, s, names);
    RunSuite(Spaced(p), s, names);
  }

  lemma SpacedConstantReads(w: string, s: State, rest: string, names: Names)
    requires w != "" && s.text == w + (" " + rest) && (rest == "" || !IsSpace(rest[0]))
    ensures Run(Spaced(Constant(w)), s, names) == Outcome(true, State(rest, None, s.fields))
  {
    hide Run;
    ConstantReads(s, w, " " + rest, WORD_ENDS);
    RunLeaf(Constant(w), s, names);
    SpacedReads(Constant(w), s, rest, None, s.fields, names);
  }

  // ----- conditions and tasks -----

  predicate Plainly(p: Parser, i: nat, name: string) {
    p.Named? && i < |p.definitions| && p.definitions[i] == Plain(name) && IsName(name) && forall k :: 0 <= k < i ==> p.definitions[k].name != name
  }

  predicate WithArgument(p: Parser, i: nat, name: string, argument: Parser) {
    p.Named? && i < |p.definitions| && p.definitions[i] == Argument(name, argument) && IsName(name)
    && forall k :: 0 <= k < i ==> p.definitions[k].name != name
  }

  lemma NamedWord(s: State, name: string, rest: string)
    requires IsName(name) && Ends(rest, WORD_ENDS) && s.text == name + rest
    ensures Until(s.text, None, WORD_ENDS) == Some(|name|) && s.text[..|name|] == name && s.text[|name|..] == rest
  {
    hide Until, StartsWithWord;
    NameChars(name);
    StartsHere(name, rest, WORD_ENDS);
    WordIff(s.text, name, WORD_ENDS);
  }

  lemma PlainReads(p: Parser, i: nat, name: string, s: State, rest: string, names: Names)
    requires Plainly(p, i, name) && Ends(rest, WORD_ENDS) && s.text == name + rest
    ensures Run(p, s, names) == Outcome(true, State(rest, None, s.fields[p.dest := Number(i)]))
  {
    hide Until, ReadSpace;
    NamedWord(s, name, rest);
    assert FirstNamed(p.definitions, 0, name) == Some(i);
  }

  /** A named element whose word is found and has an argument. */
  lemma NamedArgument(p: Parser, i: nat, s: State, n: nat, names: Names)
    requires p.Named? && i < |p.definitions| && p.definitions[i].Argument? && n <= |s.text|
    requires Until(s.text, None, WORD_ENDS) == Some(n) && FirstNamed(p.definitions, 0, s.text[..n]) == Some(i)
    requires ReadSpace(State(s.text[n..], None, s.fields)).ok
    ensures var sp := ReadSpace(State(s.text[n..], None, s.fields));
            var r := Run(p.definitions[i].argument, sp.after, names);
            Run(p, s, names) == if !r.ok then Abandoned(r.after, s.text) else Outcome(true, Write(r.after, p.dest, Number(i)))
  {
    RunsNamed(p, s, names);
    hide Until, ReadSpace, Run, FirstNamed;
  }

  lemma FirstOfName(definitions: seq<Definition>, i: nat, name: string)
    requires i < |definitions| && definitions[i].name == name && forall k :: 0 <= k < i ==> definitions[k].name != name
    ensures FirstNamed(definitions, 0, name) == Some(i)
  {
    hide FirstNamed;
  }

  lemma ArgumentReads(p: Parser, i: nat, name: string, argument: Parser, s: State, rest: string, f: Fields, after: string, names: Names)
    requires WithArgument(p, i, name, argument) && s.text == name + (" " + rest) && rest != "" && !IsSpace(rest[0])
    requires Run(argument, State(rest, None, s.fields), names) == Outcome(true, State(after, None, f))
    ensures Run(p, s, names) == Outcome(true, State(after, None, f[p.dest := Number(i)]))
  {
    hide Until, ReadSpace, Run, FirstNamed, IsName, IsSpace;
    NamedWord(s, name, " " + rest);
    FirstOfName(p.definitions, i, name);
    SpaceReads(State(" " + rest, None, s.fields), rest);
    NamedArgument(p, i, s, |name|, names);
  }

  lemma UnknownName(p: Parser, name: string, s: State, rest: string, names: Names)
    requires p.Named? && IsName(name) && Ends(rest, WORD_ENDS) && s.text == name + rest
    requires forall k :: 0 <= k < |p.definitions| ==> p.definitions[k].name != name
    ensures !Run(p, s, names).ok && Run(p, s, names).after.fields == s.fields
  {
    RunsNamed(p, s, names);
    hide Until, ReadSpace, Run;
    NamedWord(s, name, rest);
  }

  /** A name, a space and a number. */
  lemma NumberArgumentReads(p: Parser, i: nat, name: string, dest: Slot, n: int, s: State, rest: string, names: Names)
    requires WithArgument(p, i, name, IntElement(dest)) && Int32(n) && Ends(rest, " ") && s.text == name + (" " + (Decimal(n) + rest))
    ensures Run(p, s, names) == Outcome(true, State(rest, None, s.fields[dest := Number(n)][p.dest := Number(i)]))
  {
    hide Run, WithArgument, Decimal;
    NumberStarts(n, rest);
    var t := State(Decimal(n) + rest, None, s.fields);
    IntReads(t, dest, n, rest);
    RunLeaf(IntElement(dest), t, names);
    ArgumentReads(p, i, name, IntElement(dest), s, Decimal(n) + rest, s.fields[dest := Number(n)], rest, names);
  }

  lemma NumberStarts(n: int, rest: string)
    ensures Decimal(n) + rest != "" && !IsSpace((Decimal(n) + rest)[0])
  {
    DecimalStarts(n);
  }

  lemma RangedArgumentReads(p: Parser, i: nat, name: string, dest: Slot, n: int, s: State, rest: string, names: Names)
    requires WithArgument(p, i, name, RangedInt(dest, 0, 100)) && 0 <= n <= 100 && Ends(rest, " ") && s.text == name + (" " + (Decimal(n) + rest))
    ensures Run(p, s, names) == Outcome(true, State(rest, None, s.fields[dest := Number(n)][p.dest := Number(i)]))
  {
    hide Run, WithArgument, Decimal, Int;
    NumberStarts(n, rest);
    var t := State(Decimal(n) + rest, None, s.fields);
    IntReads(t, dest, n, rest);
    DecimalRoundTrip(n, rest);
    RunLeaf(RangedInt(dest, 0, 100), t, names);
    ArgumentReads(p, i, name, RangedInt(dest, 0, 100), s, Decimal(n) + rest, s.fields[dest := Number(n)], rest, names);
  }

  lemma WordArgumentReads(p: Parser, i: nat, name: string, dest: Slot, w: string, s: State, rest: string, names: Names)
    requires WithArgument(p, i, name, WordElement(dest)) && IsWord(w) && Ends(rest, " ") && s.text == name + (" " + (w + rest))
    ensures Run(p, s, names) == Outcome(true, State(rest, None, s.fields[dest := Word(w)][p.dest := Number(i)]))
  {
    hide Run, WithArgument;
    WordStarts(w, rest);
    var t := State(w + rest, None, s.fields);
    WordReads(t, dest, w, rest);
    RunLeaf(WordElement(dest), t, names);
    ArgumentReads(p, i, name, WordElement(dest), s, w + rest, s.fields[dest := Word(w)], rest, names);
  }

  lemma WordStarts(w: string, rest: string)
    requires IsWord(w)
    ensures w + rest != "" && !IsSpace((w + rest)[0])
  {
    assert (w + rest)[0] in w;
  }

  // ----- the tables -----

  /** The first entry of a table reads without a look at the others. */
  lemma FirstEntryReads(s: State, dest: Slot, table: seq<Choice>, otherwise: int, rest: string)
    requires table != [] && table[0].constant != "" && Ends(rest, ENUM_ENDS) && s.text == table[0].constant + rest
    ensures ReadEnum(s, dest, table, otherwise) == Outcome(true, State(rest, None, s.fields[dest := Number(table[0].value)]))
  {
    ConstantReads(s, table[0].constant, rest, ENUM_ENDS);
    hide Until;
  }

  lemma ConsistentByIndex(table: seq<Choice>)
    requires forall i :: 0 <= i < |table| ==> IsName(table[i].constant)
    requires forall i, k :: 0 <= k < i < |table| && table[k].constant == table[i].constant ==> table[k] == table[i]
    ensures Consistent(table)
  {
    hide IsName;
    forall c | c in table ensures c.constant != "" && forall x :: x in c.constant ==> x !in ENUM_ENDS {
      var i :| 0 <= i < |table| && table[i] == c;
      NotEmpty(table[i].constant);
      NameChars(table[i].constant);
    }
  }

  lemma HostNames(i: nat)
    requires i < |HOSTS|
    ensures IsName(HOSTS[i].constant) && forall k :: 0 <= k < i ==> HOSTS[k].constant != HOSTS[i].constant
  {
  }

  lemma ProtoNames(i: nat)
    requires i < |PROTOS|
    ensures IsName(PROTOS[i].constant) && forall k :: 0 <= k < i ==> PROTOS[k].constant != PROTOS[i].constant
  {
  }

  lemma ModeNames(i: nat)
    requires i < |MODES|
    ensures IsName(MODES[i].constant) && forall k :: 0 <= k < i ==> MODES[k].constant != MODES[i].constant
  {
  }

  lemma GotoNames(i: nat)
    requires i < |GOTOS|
    ensures IsName(GOTOS[i].constant) && forall k :: 0 <= k < i ==> GOTOS[k].constant != GOTOS[i].constant
  {
  }

  lemma BoolNames(i: nat)
    requires i < |BOOLS|
    ensures IsName(BOOLS[i].constant) && forall k :: 0 <= k < i ==> BOOLS[k].constant != BOOLS[i].constant
  {
  }

  lemma DoneForNames(i: nat)
    requires i < |DONE_FOR|
    ensures IsName(DONE_FOR[i].constant) && forall k :: 0 <= k < i ==> DONE_FOR[k].constant != DONE_FOR[i].constant
  {
  }

  /** The tables of the grammar are consistent, so the order of their entries is irrelevant. */
  lemma TablesAreConsistent()
    ensures Consistent(HOSTS) && Consistent(PROTOS) && Consistent(MODES) && Consistent(GOTOS) && Consistent(BOOLS) && Consistent(DONE_FOR)
  {
    hide Consistent, IsName;
    forall i: nat | i < |HOSTS| { HostNames(i); }
    ConsistentByIndex(HOSTS);
    forall i: nat | i < |PROTOS| { ProtoNames(i); }
    ConsistentByIndex(PROTOS);
    forall i: nat | i < |MODES| { ModeNames(i); }
    ConsistentByIndex(MODES);
    forall i: nat | i < |GOTOS| { GotoNames(i); }
    ConsistentByIndex(GOTOS);
    forall i: nat | i < |BOOLS| { BoolNames(i); }
    ConsistentByIndex(BOOLS);
    forall i: nat | i < |DONE_FOR| { DoneForNames(i); }
    ConsistentByIndex(DONE_FOR);
  }

  lemma ConditionName(i: nat)
    requires i < |CONDITIONS|
    ensures IsName(CONDITIONS[i].name) && forall k :: 0 <= k < i ==> CONDITIONS[k].name != CONDITIONS[i].name
  {
    ConditionIsName(i);
    hide IsName;
  }

  lemma ConditionIsName(i: nat)
    requires i < |CONDITIONS|
    ensures IsName(CONDITIONS[i].name)
  {
  }

  lemma TaskName(i: nat)
    requires i < |TASKS|
    ensures IsName(TASKS[i].name) && forall k :: 0 <= k < i ==> TASKS[k].name != TASKS[i].name
  {
    TaskIsName(i);
    hide IsName;
  }

  lemma EarlyTaskIsName(i: nat)
    requires i < 10
    ensures IsName(TASKS[i].name)
  {
  }

  lemma LateTaskIsName(i: nat)
    requires 10 <= i < |TASKS|
    ensures IsName(TASKS[i].name)
  {
  }

  lemma TaskIsName(i: nat)
    requires i < |TASKS|
    ensures IsName(TASKS[i].name)
  {
    hide IsName;
    if i < 10 {
      EarlyTaskIsName(i);
    } else {
      LateTaskIsName(i);
    }
  }

  lemma PlainCondition(i: nat, name: string)
    requires i < |CONDITIONS| && CONDITIONS[i] == Plain(name)
    ensures Plainly(Named(ConditionType, CONDITIONS), i, name)
  {
    hide IsName;
    ConditionName(i);
  }

  lemma ArgumentCondition(i: nat, name: string, argument: Parser)
    requires i < |CONDITIONS| && CONDITIONS[i] == Argument(name, argument)
    ensures WithArgument(Named(ConditionType, CONDITIONS), i, name, argument)
  {
    hide IsName;
    ConditionName(i);
  }

  lemma PlainTaskName(i: nat, name: string)
    requires i < |TASKS| && TASKS[i] == Plain(name)
    ensures Plainly(Named(TaskType, TASKS), i, name)
  {
    hide IsName;
    TaskName(i);
  }

  lemma ArgumentTask(i: nat, name: string, argument: Parser)
    requires i < |TASKS| && TASKS[i] == Argument(name, argument)
    ensures WithArgument(Named(TaskType, TASKS), i, name, argument)
  {
    hide IsName;
    TaskName(i);
  }
}
