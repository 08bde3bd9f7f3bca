/** What accepted instructions mean: which calls their rules match, and what the interpreter
    is told to do (`src/actions.c`, `src/socketinfo.h`). */
module Meanings {
  import opened Options
  import opened Texts
  import opened Parsers
  import opened Grammar
  import opened RoundTrip
  import opened PrintedHosts
  import opened RuleText
  import opened ParsedRules
  import opened AcceptedRules
  import opened Reload

  // ----- the codes -----

  type Bits = bv8

  /** The bit of a direction in the source. */
  function EventBit(e: Event): Bits {
    match e
    case Reads => 1
    case Writes => 2
    case Connects => 4
    case Closes => 8
  }

  /** The bits of a protocol in the source: IP stands for both. */
  function ProtocolBits(p: Protocol): Bits {
    match p
    case Tcp => 1
    case Udp => 2
    case Ip => 3
  }

  predicate Common(a: Bits, b: Bits) {
    a & b != 0
  }

  /** A rule covers an event exactly if the direction that the parser wrote has its bit. */
  lemma CoversIffCommonBit(f: Fields, e: Event)
    requires CourseOf(f).Some?
    ensures NumberAt(f, Direction).Some? && 0 <= NumberAt(f, Direction).value < 16
    ensures Covers(CourseOf(f).value, e) <==> Common(NumberAt(f, Direction).value as Bits, EventBit(e))
  {
    BitsOfDirections();
    hide Common;
  }

  lemma BitsOfDirections()
    ensures Common(3, 1) && Common(3, 2) && !Common(3, 4) && !Common(3, 8)
    ensures !Common(4, 1) && !Common(4, 2) && Common(4, 4) && !Common(4, 8)
    ensures !Common(8, 1) && !Common(8, 2) && !Common(8, 4) && Common(8, 8)
    ensures Common(15, 1) && Common(15, 2) && Common(15, 4) && Common(15, 8)
  {
  }

  /** Protocols agree exactly if their codes have a bit in common; the parser writes these codes. */
  lemma SharesIffCommonBit(f: Fields, p: Protocol)
    requires ProtocolOf(f).Some?
    ensures NumberAt(f, Proto).Some? && 0 <= NumberAt(f, Proto).value < 4
    ensures NumberAt(f, Proto).value as Bits == ProtocolBits(ProtocolOf(f).value)
    ensures Shares(p, ProtocolOf(f).value) <==> Common(ProtocolBits(p), NumberAt(f, Proto).value as Bits)
  {
    BitsOfProtocols();
    hide Common;
  }

  lemma BitsOfProtocols()
    ensures Common(1, 1) && !Common(1, 2) && Common(1, 3) && !Common(2, 1) && Common(2, 2) && Common(2, 3)
    ensures Common(3, 1) && Common(3, 2) && Common(3, 3)
  {
  }

  /** `Action_match` as the source writes it, on the codes of the parser: the switch on the direction
      of the rule falls through from data to any direction when no target is given. */
  predicate CodesMatch(direction: int, proto: int, source: HostRule, target: HostRule, si: SocketView, e: Event, condition: bool)
    requires 0 <= direction < 16 && 0 <= proto < 4
  {
    && Common(direction as Bits, EventBit(e)) && condition && Common(ProtocolBits(si.proto), proto as Bits)
    && if (direction == 3 || direction == 2 || direction == 1) && target.kind != Nobody then
         && AddressMatch(if e == Writes then source else target, si.local)
         && AddressMatch(if e == Reads then source else target, si.remote)
       else if direction == 3 || direction == 2 || direction == 1 || direction == 15 then
         AddressMatch(source, si.local) || AddressMatch(source, si.remote)
       else (direction == 4 || direction == 8) && AddressMatch(target, si.remote)
  }

  /** The rule that the fields make up matches exactly as the codes in the fields say. */
  lemma MatchesIffCodesMatch(f: Fields, si: SocketView, e: Event, condition: bool)
    requires RuleOf(f).Some?
    ensures NumberAt(f, Direction).Some? && 0 <= NumberAt(f, Direction).value < 16
    ensures NumberAt(f, Proto).Some? && 0 <= NumberAt(f, Proto).value < 4
    ensures var r := RuleOf(f).value;
            Matches(r, si, e, condition)
            <==> CodesMatch(NumberAt(f, Direction).value, NumberAt(f, Proto).value, r.source, r.target, si, e, condition)
  {
    CoversIffCommonBit(f, e);
    SharesIffCommonBit(f, si.proto);
    RuleHasCodes(f);
    hide Covers, Shares, AddressMatch, Common, EventBit, ProtocolBits, HostOf, ConditionOf, TaskOf, ModeOf, JumpOf, RuleOf;
  }

  lemma RuleHasCodes(f: Fields)
    requires RuleOf(f).Some?
    ensures CourseOf(f) == Some(RuleOf(f).value.course) && ProtocolOf(f) == Some(RuleOf(f).value.proto)
  {
    hide HostOf, ConditionOf, TaskOf, ModeOf, JumpOf;
  }

  // ----- the events that a text speaks of -----

  /** The text behind its first word and the white space that follows. */
  function Behind(text: string): string {
    if text == "" then "" else if IsSpace(text[0]) then SkipSpace(text) else Behind(text[1..])
  }

  lemma {:induction false} BehindIs(text: string, n: nat)
    requires n < |text| && (forall i :: 0 <= i < n ==> !IsSpace(text[i])) && IsSpace(text[n])
    ensures Behind(text) == SkipSpace(text[n..])
  {
    hide SkipSpace, IsSpace;
    if n > 0 {
      assert text[1..][n - 1..] == text[n..];
      BehindIs(text[1..], n - 1);
    } else {
      assert text[0..] == text;
    }
  }

  lemma SpacedIsBehind(p: Parser, n: nat, s: State, names: Names)
    requires Run(Spaced(p), s, names).ok && n <= |s.text|
    requires Run(p, s, names).ok ==> Run(p, s, names).after.text == s.text[n..] && forall i :: 0 <= i < n ==> !IsSpace(s.text[i])
    ensures Run(Spaced(p), s, names).after.text == Behind(s.text)
  {
    hide Run, RunAll, SkipSpace, IsSpace;
    var q := Spaced(p);
    RunSuite(q, s, names);
    NextPart(q, 0, s, names);
    var r := Run(p, s, names);
    NextPart(q, 1, r.after, names);
    RunLeaf(SpaceElement, r.after, names);
    NoMoreParts(q, ReadSpace(r.after).after, names);
    BehindIs(s.text, n);
  }

  lemma {:induction false} DigitsAreNoSpaces(text: string)
    ensures forall i :: 0 <= i < DigitCount(text) ==> IsDigit(text[i])
  {
    if text != "" && IsDigit(text[0]) {
      DigitsAreNoSpaces(text[1..]);
    }
  }

  lemma IntIsBehind(dest: Slot, s: State, names: Names)
    requires Run(Spaced(IntElement(dest)), s, names).ok
    ensures Run(Spaced(IntElement(dest)), s, names).after.text == Behind(s.text)
  {
    hide Run;
    RunLeaf(IntElement(dest), s, names);
    SpacedGives(IntElement(dest), s, names);
    var sign := if s.text != "" && s.text[0] == '-' then 1 else 0;
    DigitsAreNoSpaces(s.text[sign..]);
    var n := Int(s.text).value.length;
    forall i | 0 <= i < n ensures !IsSpace(s.text[i]) {
      if i >= sign {
        assert s.text[i] == s.text[sign..][i - sign];
      }
    }
    hide Int;
    SpacedIsBehind(IntElement(dest), n, s, names);
  }

  lemma ConstantIsBehind(word: string, s: State, names: Names)
    requires Run(Spaced(Constant(word)), s, names).ok && forall c :: c in word ==> !IsSpace(c)
    ensures Run(Spaced(Constant(word)), s, names).after.text == Behind(s.text)
  {
    hide Run, Until, IsSpace;
    RunLeaf(Constant(word), s, names);
    SpacedGives(Constant(word), s, names);
    ConstantIff(s.text, word, WORD_ENDS);
    SpacedIsBehind(Constant(word), |word|, s, names);
  }

  /** The word that a protocol is read from. */
  predicate ProtocolWord(text: string, code: Option<int>) {
    || (StartsWithWord(text, "tcp", ENUM_ENDS) && code == Some(1))
    || (StartsWithWord(text, "udp", ENUM_ENDS) && code == Some(2))
    || (StartsWithWord(text, "ip", ENUM_ENDS) && code == Some(3))
  }

  lemma ProtocolIsBehind(s: State, names: Names)
    requires Run(Spaced(EnumElement(Proto, PROTOS, 0)), s, names).ok
    ensures Run(Spaced(EnumElement(Proto, PROTOS, 0)), s, names).after.text == Behind(s.text)
    ensures ProtocolWord(s.text, NumberAt(Run(Spaced(EnumElement(Proto, PROTOS, 0)), s, names).after.fields, Proto))
  {
    hide Run, Until, IsSpace, StartsWithWord;
    var p := EnumElement(Proto, PROTOS, 0);
    RunLeaf(p, s, names);
    SpacedGives(p, s, names);
    var i := Choose(PROTOS, 0, s.text).value;
    ConstantIff(s.text, PROTOS[i].constant, ENUM_ENDS);
    ProtocolChars(i);
    StartsWith(s.text, PROTOS[i].constant);
    SpacedIsBehind(p, |PROTOS[i].constant|, s, names);
  }

  lemma ProtocolChars(i: nat)
    requires i < |PROTOS|
    ensures forall c :: c in PROTOS[i].constant ==> !IsSpace(c)
  {
  }

  lemma StartsWith(text: string, word: string)
    requires StartsWithWord(text, word, ENUM_ENDS)
    ensures |word| <= |text| && text[..|word|] == word
  {
  }

  /** The word that the direction of a rule is read from. */
  predicate CourseWord(text: string, code: Option<int>) {
    || (StartsWithWord(text, "with", WORD_ENDS) && code == Some(15))
    || (StartsWithWord(text, "talk-with", WORD_ENDS) && code == Some(3))
    || (StartsWithWord(text, "from", WORD_ENDS) && code == Some(3))
    || (StartsWithWord(text, "connect", WORD_ENDS) && code == Some(4))
    || (StartsWithWord(text, "close", WORD_ENDS) && code == Some(8))
  }

  lemma HeadIsBehind(s: State, names: Names) returns (t: State)
    requires IsDefault(s.fields) && RunAll(RuleParser(), 0, s, names).ok
    ensures IsDefault(t.fields) && RunAll(RuleParser(), 0, s, names) == RunAll(RuleParser(), 3, t, names)
    ensures t.text == Behind(Behind(Behind(s.text))) && ProtocolWord(Behind(Behind(s.text)), NumberAt(t.fields, Proto))
  {
    hide Run, RunAll, IsDefault, Agree, IntAt, ProtocolOf, Spaced, RuleParser, Behind, ProtocolWord, NumberAt, IsSpace;
    Parts();
    var p := RuleParser();
    NextPart(p, 0, s, names);
    SpacedIntGives(Pos, s, names);
    IntIsBehind(Pos, s, names);
    var one := Run(p.parts[0], s, names).after;
    StillDefault(s.fields, one.fields);
    NextPart(p, 1, one, names);
    OnGives(one, names);
    OnIsBehind(one, names);
    var two := Run(p.parts[1], one, names).after;
    NextPart(p, 2, two, names);
    ProtoGives(two, names);
    ProtocolIsBehind(two, names);
    t := Run(p.parts[2], two, names).after;
    StillDefault(two.fields, t.fields);
  }

  lemma OnIsBehind(s: State, names: Names)
    requires Run(Spaced(Constant("on")), s, names).ok
    ensures Run(Spaced(Constant("on")), s, names).after.text == Behind(s.text)
  {
    assert forall c :: c in "on" ==> !IsSpace(c);
    hide Run, Behind, IsSpace;
    ConstantIsBehind("on", s, names);
  }

  lemma DirectionKept(keyword: string, end: End, s: State, names: Names)
    ensures NumberAt(Run(Spaced(HostParser(keyword, end)), s, names).after.fields, Direction) == NumberAt(s.fields, Direction)
  {
    hide Run, HostParser, Spaced;
    HostElsewhere(keyword, end, s, names, Direction);
  }

  lemma FreshDirection(f: Fields)
    requires Fresh(f)
    ensures NumberAt(f, Direction) == Some(3)
  {
  }

  lemma WithWord(s: State, names: Names)
    requires Run(WithParser(), s, names).ok
    ensures CourseWord(s.text, NumberAt(Run(WithParser(), s, names).after.fields, Direction))
  {
    hide Run, RunAll, HostParser, Spaced, StartsWithWord;
    var p := WithParser();
    RunSuite(p, s, names);
    NextPart(p, 0, s, names);
    HostNeeds("with", Source, s, names);
    var one := Run(p.parts[0], s, names).after;
    NextPart(p, 1, one, names);
    RunLeaf(p.parts[1], one, names);
    NoMoreParts(p, Run(p.parts[1], one, names).after, names);
  }

  lemma StartWord(s: State, names: Names)
    requires Fresh(s.fields) && Run(StartParser(), s, names).ok
    ensures CourseWord(s.text, NumberAt(Run(StartParser(), s, names).after.fields, Direction))
  {
    hide Run, RunFirst, StartsWithWord, HostParser, Spaced, Fresh;
    var p := StartParser();
    RunIsFirst(p, s, names);
    NextChoice(p, 0, s, names);
    if Run(p.parts[0], s, names).ok {
      TagNeeds("connect", 4, s, names);
    } else {
      ConnectLeavesText(s, names);
      var t := Run(p.parts[0], s, names).after;
      NextChoice(p, 1, t, names);
      if Run(p.parts[1], t, names).ok {
        TagNeeds("close", 8, t, names);
      } else {
        CloseLeavesText(t, names);
        FromWord(s, t, Run(p.parts[1], t, names).after, names);
      }
    }
  }

  lemma FromWord(s: State, t: State, u: State, names: Names)
    requires Fresh(s.fields) && Run(StartParser(), s, names).ok && t.text == s.text && u.text == s.text
    requires !Run(StartParser().parts[0], s, names).ok && t == Run(StartParser().parts[0], s, names).after
    requires !Run(StartParser().parts[1], t, names).ok && u == Run(StartParser().parts[1], t, names).after
    ensures CourseWord(s.text, NumberAt(Run(StartParser(), s, names).after.fields, Direction))
  {
    hide Run, RunFirst, StartsWithWord, HostParser, Spaced, Fresh;
    var p := StartParser();
    RunIsFirst(p, s, names);
    NextChoice(p, 0, s, names);
    NextChoice(p, 1, t, names);
    NextChoice(p, 2, u, names);
    NoMoreChoices(p, Run(p.parts[2], u, names).after, names);
    HostNeeds("from", Source, u, names);
    OneKeyword(s.text, "from", "connect");
    OneKeyword(s.text, "from", "close");
    TagFails("connect", 4, s, names);
    TagFails("close", 8, t, names);
    DirectionKept("from", Source, u, names);
    FreshDirection(s.fields);
  }

  lemma TalkWord(s: State, t: State, names: Names)
    requires Fresh(s.fields) && !Run(WithParser(), s, names).ok && t == Run(WithParser(), s, names).after && t.text == s.text
    requires Run(Spaced(HostParser("talk-with", Source)), t, names).ok
    ensures CourseWord(s.text, NumberAt(Run(Spaced(HostParser("talk-with", Source)), t, names).after.fields, Direction))
  {
    hide Run, HostParser, Spaced, WithParser, Fresh, StartsWithWord;
    HostNeeds("talk-with", Source, t, names);
    OneKeyword(s.text, "talk-with", "with");
    WithFails(s, names);
    TriedKeeps(s.fields);
    DirectionKept("talk-with", Source, t, names);
    FreshDirection(t.fields);
  }

  lemma ThirdWord(s: State, t: State, u: State, names: Names)
    requires Fresh(s.fields) && t.text == s.text && u.text == s.text
    requires !Run(WithParser(), s, names).ok && t == Run(WithParser(), s, names).after
    requires !Run(Spaced(HostParser("talk-with", Source)), t, names).ok && u == Run(Spaced(HostParser("talk-with", Source)), t, names).after
    requires Run(Suite([StartParser(), Spaced(HostParser("to", Target))]), u, names).ok
    ensures CourseWord(s.text, NumberAt(Run(Suite([StartParser(), Spaced(HostParser("to", Target))]), u, names).after.fields, Direction))
  {
    hide Run, RunAll, HostParser, Spaced, WithParser, StartParser, Fresh, StartsWithWord, Start;
    var p := Suite([StartParser(), Spaced(HostParser("to", Target))]);
    RunSuite(p, u, names);
    NextPart(p, 0, u, names);
    StartNeeds(u, names);
    OtherKeywords(s.text);
    WithFails(s, names);
    HostFails("talk-with", Source, t, names);
    TriedKeeps(s.fields);
    FreshTwice(s.fields);
    StartWord(u, names);
    var one := Run(p.parts[0], u, names).after;
    NextPart(p, 1, one, names);
    DirectionKept("to", Target, one, names);
    var two := Run(p.parts[1], one, names).after;
    NoMoreParts(p, two, names);
  }

  lemma WhoWord(s: State, names: Names)
    requires Fresh(s.fields) && Run(WhoParser(), s, names).ok
    ensures CourseWord(s.text, NumberAt(Run(WhoParser(), s, names).after.fields, Direction))
  {
    hide Run, RunFirst, HostParser, Spaced, WithParser, StartParser, Fresh, StartsWithWord, CourseWord;
    var p := WhoParser();
    RunIsFirst(p, s, names);
    NextChoice(p, 0, s, names);
    var r := Run(p.parts[0], s, names);
    if r.ok {
      WithWord(s, names);
    } else {
      WithLeavesText(s, names);
      NextChoice(p, 1, r.after, names);
      var q := Run(p.parts[1], r.after, names);
      if q.ok {
        TalkWord(s, r.after, names);
      } else {
        TalkLeavesText(r.after, names);
        NextChoice(p, 2, q.after, names);
        NoMoreChoices(p, Run(p.parts[2], q.after, names).after, names);
        ThirdWord(s, r.after, q.after, names);
      }
    }
  }

  lemma DefaultIsFresh(f: Fields)
    requires IsDefault(f)
    ensures Fresh(f)
  {
  }

  /** In every accepted instruction the third word says the protocol and the fourth the direction. */
  lemma WordsGiveCodes(instruction: string, status: Option<nat>, names: Names)
    requires Parse(instruction, status, names).ok
    ensures var f := Parse(instruction, status, names).after.fields;
            && ProtocolWord(Behind(Behind(instruction)), NumberAt(f, Proto))
            && CourseWord(Behind(Behind(Behind(instruction))), NumberAt(f, Direction))
  {
    hide Run, RunAll, RuleParser, IsDefault, NumberAt, Behind, ProtocolWord, CourseWord, Defaults, WhoParser, Agree, Fresh;
    DefaultIs();
    var s := State(instruction, status, Defaults());
    Parts();
    RunSuite(RuleParser(), s, names);
    var t := HeadIsBehind(s, names);
    DefaultIsFresh(t.fields);
    NextPart(RuleParser(), 3, t, names);
    WhoWord(t, names);
    var u := Run(WhoParser(), t, names).after;
    var g := RunAll(RuleParser(), 3, t, names).after.fields;
    RestKeeps(4, u, names, Direction);
    RestKeeps(3, t, names, Proto);
    AcceptedRules.SameNumber(u.fields, g, Direction);
    AcceptedRules.SameNumber(t.fields, g, Proto);
  }

  /** Some socket, at such an event, matches the rule. */
  ghost predicate CanMatch(r: Rule, e: Event) {
    exists si :: Matches(r, si, e, true)
  }

  /** A host that an instruction gives matches some peer. */
  lemma SomePeer(h: HostRule) returns (p: Peer)
    requires GoodHost(h)
    ensures AddressMatch(h, p)
  {
    p := Peer(true, true, h.addr + 1, h.port);
  }

  lemma CanMatchIffCovers(r: Rule, e: Event)
    requires GoodHosts(r)
    ensures CanMatch(r, e) <==> Covers(r.course, e)
  {
    hide AddressMatch;
    if Covers(r.course, e) {
      var source, target := Peer(true, true, 0, 0), Peer(true, true, 0, 0);
      if GoodHost(r.source) {
        source := SomePeer(r.source);
      }
      if GoodHost(r.target) {
        target := SomePeer(r.target);
      }
      assert Matches(r, SocketView(r.proto, source, target), e, true) || Matches(r, SocketView(r.proto, target, source), e, true);
    }
  }

  /** The events that the fourth word of an instruction speaks of. */
  predicate Speaks(text: string, e: Event) {
    || StartsWithWord(text, "with", WORD_ENDS)
    || (StartsWithWord(text, "connect", WORD_ENDS) && e == Connects)
    || (StartsWithWord(text, "close", WORD_ENDS) && e == Closes)
    || ((StartsWithWord(text, "from", WORD_ENDS) || StartsWithWord(text, "talk-with", WORD_ENDS)) && (e == Reads || e == Writes))
  }

  lemma OnlyKeyword(text: string, word: string)
    requires word in {"with", "talk-with", "connect", "close", "from"} && StartsWithWord(text, word, WORD_ENDS)
    ensures word != "with" ==> !StartsWithWord(text, "with", WORD_ENDS)
    ensures word != "talk-with" ==> !StartsWithWord(text, "talk-with", WORD_ENDS)
    ensures word != "connect" ==> !StartsWithWord(text, "connect", WORD_ENDS)
    ensures word != "close" ==> !StartsWithWord(text, "close", WORD_ENDS)
    ensures word != "from" ==> !StartsWithWord(text, "from", WORD_ENDS)
  {
    hide StartsWithWord;
    if word != "with" { OneKeyword(text, word, "with"); }
    if word != "talk-with" { OneKeyword(text, word, "talk-with"); }
    if word != "connect" { OneKeyword(text, word, "connect"); }
    if word != "close" { OneKeyword(text, word, "close"); }
    if word != "from" { OneKeyword(text, word, "from"); }
  }

  lemma SpeaksIffBit(text: string, code: int, e: Event)
    requires CourseWord(text, Some(code))
    ensures 0 <= code < 16 && (Speaks(text, e) <==> Common(code as Bits, EventBit(e)))
  {
    BitsOfDirections();
    hide StartsWithWord, Common;
    if StartsWithWord(text, "with", WORD_ENDS) { OnlyKeyword(text, "with"); }
    if StartsWithWord(text, "talk-with", WORD_ENDS) { OnlyKeyword(text, "talk-with"); }
    if StartsWithWord(text, "connect", WORD_ENDS) { OnlyKeyword(text, "connect"); }
    if StartsWithWord(text, "close", WORD_ENDS) { OnlyKeyword(text, "close"); }
    if StartsWithWord(text, "from", WORD_ENDS) { OnlyKeyword(text, "from"); }
  }

  lemma GoodHasHosts(r: Rule)
    requires Good(r)
    ensures GoodHosts(r)
  {
  }

  /** Which of the four events a rule can match, from the fourth word of its instruction: `connect`
      and `close` stand for themselves, `with` for all, and `from` and `talk-with` for reads and writes. */
  lemma EventsOfText(instruction: string, status: Option<nat>, names: Names, e: Event)
    requires GoodNames(names) && Parse(instruction, status, names).ok
    ensures RuleOf(Parse(instruction, status, names).after.fields).Some?
    ensures CanMatch(RuleOf(Parse(instruction, status, names).after.fields).value, e) <==> Speaks(Behind(Behind(Behind(instruction))), e)
  {
    hide Parse, RuleOf, Behind, Speaks, Covers, CanMatch, GoodNames, Good, GoodHosts, CourseWord, ProtocolWord, CourseOf, Common, EventBit, NumberAt;
    AcceptedIsGood(instruction, status, names);
    WordsGiveCodes(instruction, status, names);
    var f := Parse(instruction, status, names).after.fields;
    var r := RuleOf(f).value;
    GoodHasHosts(r);
    CanMatchIffCovers(r, e);
    RuleHasCodes(f);
    CoversIffCommonBit(f, e);
    SpeaksIffBit(Behind(Behind(Behind(instruction))), NumberAt(f, Direction).value, e);
  }
}
