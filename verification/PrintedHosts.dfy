/** The hosts of a printed rule are read back (`Action_show_address` and `Action_parse_host`
    of `src/actions.c`). */
module PrintedHosts {
  import opened Options
  import opened Texts
  import opened Parsers
  import opened Grammar
  import opened RoundTrip

  // ----- the name of a host -----

  lemma QuadIsWord(addr: int)
    requires 0 <= addr < 0x1_0000_0000
    ensures IsWord(Quad(addr)) && IsDigit(Quad(addr)[0])
  {
    hide IsDigit, Digits;
    var a, b, c, d := addr / 0x100_0000 % 256, addr / 0x1_0000 % 256, addr / 0x100 % 256, addr % 256;
    DigitsAreDigits(a);
    DigitsAreDigits(b);
    DigitsAreDigits(c);
    DigitsAreDigits(d);
    assert forall x :: x in Quad(addr) ==> IsDigit(x) || x == '.';
    assert IsDigit(Quad(addr)[0]) by {
      assert Quad(addr)[0] == Digits(a)[0] && Digits(a)[0] in Digits(a);
    }
    forall x | x in Quad(addr) ensures x !in WORD_ENDS {
      NoEnd(x);
    }
    NoEnd(Quad(addr)[0]);
  }

  /** The four numbers of an address are its bytes, the high one first. */
  lemma QuadOfBytes(a: nat, b: nat, c: nat, d: nat)
    requires a < 256 && b < 256 && c < 256 && d < 256
    ensures Quad(a * 0x100_0000 + b * 0x1_0000 + c * 0x100 + d) == Decimal(a) + "." + Decimal(b) + "." + Decimal(c) + "." + Decimal(d)
  {
    hide Decimal;
    var addr := a * 0x100_0000 + b * 0x1_0000 + c * 0x100 + d;
    assert addr / 0x100_0000 == a && addr / 0x1_0000 == a * 256 + b && addr / 0x100 == (a * 256 + b) * 256 + c;
  }

  lemma NoEnd(c: char)
    requires IsDigit(c) || c == '.'
    ensures c !in WORD_ENDS && !IsSpace(c)
  {
  }

  lemma SameNumber(a: int, b: int, restA: string, restB: string)
    requires Int32(a) && Int32(b) && Decimal(a) + ("." + restA) == Decimal(b) + ("." + restB)
    ensures a == b && restA == restB
  {
    hide Decimal, Int;
    DecimalRoundTrip(a, "." + restA);
    DecimalRoundTrip(b, "." + restB);
    var text := Decimal(a) + ("." + restA);
    assert text[|Decimal(a)|..] == "." + restA && text[|Decimal(b)|..] == "." + restB;
    assert ("." + restA)[1..] == restA && ("." + restB)[1..] == restB;
  }

  lemma LastNumber(a: int, b: int)
    requires Int32(a) && Int32(b) && Decimal(a) == Decimal(b)
    ensures a == b
  {
    hide Decimal, Int;
    DecimalRoundTrip(a, "");
    DecimalRoundTrip(b, "");
    assert Decimal(a) + "" == Decimal(b) + "";
  }

  lemma QuadUnfolds(addr: int)
    requires 0 <= addr < 0x1_0000_0000
    ensures Quad(addr) == Decimal(addr / 0x100_0000 % 256)
              + ("." + (Decimal(addr / 0x1_0000 % 256) + ("." + (Decimal(addr / 0x100 % 256) + ("." + Decimal(addr % 256))))))
  {
    hide Decimal;
  }

  lemma FourBytes(a: int)
    requires 0 <= a < 0x1_0000_0000
    ensures a == 0x100_0000 * (a / 0x100_0000 % 256) + 0x1_0000 * (a / 0x1_0000 % 256) + 0x100 * (a / 0x100 % 256) + a % 256
  {
    var b := a / 0x100;
    var c := b / 0x100;
    assert a == 0x100 * b + a % 256 && b == 0x100 * c + b % 256;
    assert c == a / 0x1_0000 && c / 0x100 == a / 0x100_0000 && c / 0x100 < 256;
  }

  /** Different addresses are printed differently. */
  lemma QuadIsInjective(a: int, b: int)
    requires 0 <= a < 0x1_0000_0000 && 0 <= b < 0x1_0000_0000 && Quad(a) == Quad(b)
    ensures a == b
  {
    hide Decimal, Quad;
    QuadUnfolds(a);
    QuadUnfolds(b);
    var a0, a1, a2, a3 := a / 0x100_0000 % 256, a / 0x1_0000 % 256, a / 0x100 % 256, a % 256;
    var b0, b1, b2, b3 := b / 0x100_0000 % 256, b / 0x1_0000 % 256, b / 0x100 % 256, b % 256;
    SameNumber(a0, b0, Decimal(a1) + ("." + (Decimal(a2) + ("." + Decimal(a3)))), Decimal(b1) + ("." + (Decimal(b2) + ("." + Decimal(b3)))));
    SameNumber(a1, b1, Decimal(a2) + ("." + Decimal(a3)), Decimal(b2) + ("." + Decimal(b3)));
    SameNumber(a2, b2, Decimal(a3), Decimal(b3));
    LastNumber(a3, b3);
    FourBytes(a);
    FourBytes(b);
  }

  /** So a resolver can give every dotted quad its own address. */
  lemma SomeResolverKeepsQuads() returns (names: Names)
    ensures KeepsQuads(names) && forall w :: w in names.hosts ==> 0 <= names.hosts[w] < 0x1_0000_0000
    ensures names.services == map[]
  {
    hide Quad;
    forall a, b | 0 <= a < 0x1_0000_0000 && 0 <= b < 0x1_0000_0000 && Quad(a) == Quad(b) ensures a == b {
      QuadIsInjective(a, b);
    }
    names := Names(map a | 0 <= a < 0x1_0000_0000 :: Quad(a) := a, map[]);
  }

  function HostCode(k: HostKind): int {
    match k
    case Nobody => 0
    case Me => 1
    case Dns => 2
    case At => 4
    case Any => 7
  }

  function NameFields(f: Fields, end: End, h: HostRule): Fields {
    var g := f[HostType(end) := Number(HostCode(h.kind))];
    if h.kind == At then g[Address := Word(ShowName(h))] else g
  }

  function PortFields(f: Fields, end: End, h: HostRule): Fields {
    if h.port != -1 && h.kind != Dns then f[HostPort(end) := Number(h.port)] else f
  }

  function FoundFields(f: Fields, end: End, h: HostRule): Fields {
    if h.kind == At then f[HostAddr(end) := Number(h.addr)] else f
  }

  /** The fields after a printed host has been read. */
  function HostFields(f: Fields, end: End, h: HostRule): Fields {
    FoundFields(PortFields(NameFields(Start(f, end), end, h), end, h), end, h)
  }

  lemma KeywordReads(h: HostRule, end: End, s: State, rest: string)
    requires GoodHost(h) && h.kind != At && rest != "" && rest[0] == ' ' && s.text == ShowName(h) + rest
    ensures ReadEnum(s, HostType(end), HOSTS, HOST_ADDRESS) == Outcome(true, State(rest, None, NameFields(s.fields, end, h)))
  {
    hide ReadEnum, Consistent;
    TablesAreConsistent();
    assert HOSTS[0] == Choice("me", 1) && HOSTS[1] == Choice("any", 7) && HOSTS[2] == Choice("dns", 2);
    var c := if h.kind == Me then HOSTS[0] else if h.kind == Any then HOSTS[1] else HOSTS[2];
    EnumReads(s, HostType(end), HOSTS, HOST_ADDRESS, c, rest);
  }

  lemma QuadFails(end: End, s: State)
    requires s.text != "" && IsDigit(s.text[0])
    ensures ReadEnum(s, HostType(end), HOSTS, HOST_ADDRESS)
            == Outcome(false, State(s.text, Some(|s.text|), s.fields[HostType(end) := Number(HOST_ADDRESS)]))
  {
    hide ReadEnum, StartsWithWord, Consistent, IsDigit;
    NumberIsNoKeyword(s.text);
    TablesAreConsistent();
    EnumFails(s, HostType(end), HOSTS, HOST_ADDRESS);
  }

  lemma AddressReads(addr: int, end: End, s: State, rest: string, names: Names)
    requires 0 <= addr < 0x1_0000_0000 && rest != "" && rest[0] == ' ' && s.text == Quad(addr) + rest
    ensures Run(NameParser(end), s, names)
            == Outcome(true, State(rest, None, s.fields[HostType(end) := Number(HOST_ADDRESS)][Address := Word(Quad(addr))]))
  {
    hide Run, RunFirst, IsWord, Quad, ReadEnum, ReadWord, IsDigit;
    QuadIsWord(addr);
    WordIsNotEmpty(Quad(addr));
    QuadFails(end, s);
    var p := NameParser(end);
    RunIsFirst(p, s, names);
    NextChoice(p, 0, s, names);
    RunLeaf(p.parts[0], s, names);
    var t := ReadEnum(s, HostType(end), HOSTS, HOST_ADDRESS).after;
    NextChoice(p, 1, t, names);
    RunLeaf(p.parts[1], t, names);
    WordReads(t, Address, Quad(addr), rest);
  }

  lemma WordIsNotEmpty(w: string)
    requires IsWord(w)
    ensures w != ""
  {
  }

  lemma NameReads(h: HostRule, end: End, s: State, rest: string, names: Names)
    requires GoodHost(h) && rest != "" && rest[0] == ' ' && s.text == ShowName(h) + rest
    ensures Run(NameParser(end), s, names) == Outcome(true, State(rest, None, NameFields(s.fields, end, h)))
  {
    hide Run, RunFirst, Quad, ReadEnum;
    if h.kind == At {
      AddressReads(h.addr, end, s, rest, names);
    } else {
      var p := NameParser(end);
      RunIsFirst(p, s, names);
      NextChoice(p, 0, s, names);
      RunLeaf(p.parts[0], s, names);
      KeywordReads(h, end, s, rest);
    }
  }

  lemma NumberIsNoKeyword(text: string)
    requires text != "" && IsDigit(text[0])
    ensures forall c :: c in HOSTS ==> !StartsWithWord(text, c.constant, ENUM_ENDS)
  {
    forall c | c in HOSTS ensures !StartsWithWord(text, c.constant, ENUM_ENDS) {
      assert c.constant[0] == 'm' || c.constant[0] == 'a' || c.constant[0] == 'd';
    }
  }

  // ----- the port -----

  lemma PortReads(h: HostRule, end: End, s: State, rest: string, names: Names)
    requires GoodHost(h) && (rest == "" || !IsSpace(rest[0])) && !StartsWithWord(rest, "port", WORD_ENDS)
    requires s.text == ShowPort(h) + (" " + rest)
    ensures Run(PortParser(end), s, names) == Outcome(true, State(" " + rest, None, PortFields(s.fields, end, h)))
  {
    hide Run, Decimal, StartsWithWord;
    if h.port != -1 && h.kind != Dns {
      GivenPortReads(h.port, end, s, rest, names);
    } else {
      NoPortReads(end, s, rest, names);
    }
  }

  lemma NoPortReads(end: End, s: State, rest: string, names: Names)
    requires (rest == "" || !IsSpace(rest[0])) && !StartsWithWord(rest, "port", WORD_ENDS) && s.text == " " + rest
    ensures Run(PortParser(end), s, names) == Outcome(true, State(" " + rest, None, s.fields))
  {
    hide Run, RunAll, StartsWithWord, IsSpace, SkipSpace, Until;
    var p := PortParser(end);
    RunOptional(p, s, names);
    NextPart(p, 0, s, names);
    RunLeaf(p.parts[0], s, names);
    SpaceReads(s, rest);
    var t := State(rest, None, s.fields);
    NextPart(p, 1, t, names);
    RunLeaf(Constant("port"), t, names);
    ConstantFails(t, "port", WORD_ENDS);
    SpacedFails(Constant("port"), t, names);
  }

  lemma GivenPortReads(port: int, end: End, s: State, rest: string, names: Names)
    requires Int32(port) && s.text == " port " + Decimal(port) + (" " + rest)
    ensures Run(PortParser(end), s, names) == Outcome(true, State(" " + rest, None, s.fields[HostPort(end) := Number(port)]))
  {
    hide Run, RunFirst, Decimal;
    var p := PortParser(end);
    var tail := Decimal(port) + (" " + rest);
    assert " port " + Decimal(port) + (" " + rest) == " " + ("port" + (" " + tail));
    NumberStarts(port, " " + rest);
    SpaceReads(s, "port" + (" " + tail));
    RunLeaf(p.parts[0], s, names);
    var one := State("port" + (" " + tail), None, s.fields);
    SpacedConstantReads("port", one, tail, names);
    var two := State(tail, None, s.fields);
    RunIsFirst(p.parts[2], two, names);
    NextChoice(p.parts[2], 0, two, names);
    RunLeaf(IntElement(HostPort(end)), two, names);
    IntReads(two, HostPort(end), port, " " + rest);
    ThreeParts(p, s, one, two, State(" " + rest, None, s.fields[HostPort(end) := Number(port)]), names);
  }

  // ----- a host -----

  lemma Resolves(h: HostRule, end: End, start: string, text: string, f: Fields, names: Names)
    requires GoodHost(h) && KeepsQuads(names)
    ensures FinishHost(start, State(text, None, PortFields(NameFields(Start(f, end), end, h), end, h)), end, names)
            == Outcome(true, State(text, None, HostFields(f, end, h)))
  {
    hide Quad;
  }

  lemma HostReads(keyword: string, end: End, h: HostRule, s: State, rest: string, names: Names)
    requires keyword != "" && GoodHost(h) && KeepsQuads(names)
    requires (rest == "" || !IsSpace(rest[0])) && !StartsWithWord(rest, "port", WORD_ENDS) && s.text == ShowHost(keyword, h) + rest
    ensures Run(Spaced(HostParser(keyword, end)), s, names) == Outcome(true, State(rest, None, HostFields(s.fields, end, h)))
  {
    hide Run, StartsWithWord, ShowName, ShowPort, KeepsQuads, FinishHost, PortFields, NameFields, FoundFields, HostFields, NameParser, PortParser;
    var after := ShowPort(h) + (" " + rest);
    var tail := ShowName(h) + after;
    assert s.text == keyword + (" " + tail);
    NameStarts(h, after);
    PortStarts(h, rest);
    var t := State(s.text, s.status, Start(s.fields, end));
    SpacedConstantReads(keyword, t, tail, names);
    var one := State(tail, None, t.fields);
    NameReads(h, end, one, after, names);
    var two := State(after, None, NameFields(t.fields, end, h));
    PortReads(h, end, two, rest, names);
    var three := State(" " + rest, None, PortFields(two.fields, end, h));
    var body := Suite([Spaced(Constant(keyword)), NameParser(end), PortParser(end)]);
    ThreeParts(body, t, one, two, three, names);
    RunHost(end, body, s, names);
    Resolves(h, end, s.text, three.text, s.fields, names);
    SpacedReads(HostParser(keyword, end), s, rest, None, HostFields(s.fields, end, h), names);
  }

  lemma NameStarts(h: HostRule, rest: string)
    requires GoodHost(h)
    ensures ShowName(h) + rest != "" && !IsSpace((ShowName(h) + rest)[0])
  {
    hide Quad;
    if h.kind == At {
      QuadIsWord(h.addr);
      assert (ShowName(h) + rest)[0] == Quad(h.addr)[0];
    }
  }

  lemma PortStarts(h: HostRule, rest: string)
    ensures ShowPort(h) + (" " + rest) != "" && (ShowPort(h) + (" " + rest))[0] == ' '
  {
    hide Decimal;
  }

  lemma HostFails(keyword: string, end: End, s: State, names: Names)
    requires !StartsWithWord(s.text, keyword, WORD_ENDS)
    ensures var r := Run(Spaced(HostParser(keyword, end)), s, names);
            !r.ok && r.after.text == s.text && r.after.fields == Start(s.fields, end)
  {
    hide Run, StartsWithWord;
    var body := Suite([Spaced(Constant(keyword)), NameParser(end), PortParser(end)]);
    var t := State(s.text, s.status, Start(s.fields, end));
    ConstantFails(t, keyword, WORD_ENDS);
    RunLeaf(Constant(keyword), t, names);
    SpacedFails(Constant(keyword), t, names);
    NextPart(body, 0, t, names);
    RunSuite(body, t, names);
    RunHost(end, body, s, names);
    SpacedFails(HostParser(keyword, end), s, names);
  }

  // ----- both hosts -----

  lemma WithFails(s: State, names: Names)
    requires !StartsWithWord(s.text, "with", WORD_ENDS)
    ensures var r := Run(WithParser(), s, names);
            !r.ok && r.after.text == s.text && r.after.fields == Start(s.fields, Source)
  {
    hide Run, StartsWithWord;
    HostFails("with", Source, s, names);
    NextPart(WithParser(), 0, s, names);
    RunSuite(WithParser(), s, names);
  }

  lemma TagReads(keyword: string, code: int, s: State, rest: string, names: Names)
    requires keyword != "" && s.text == keyword + (" " + rest) && (rest == "" || !IsSpace(rest[0]))
    ensures Run(Spaced(Suite([Constant(keyword), Assign(Direction, code)])), s, names)
            == Outcome(true, State(rest, None, s.fields[Direction := Number(code)]))
  {
    hide Run;
    var p := Suite([Constant(keyword), Assign(Direction, code)]);
    ConstantReads(s, keyword, " " + rest, WORD_ENDS);
    RunLeaf(p.parts[0], s, names);
    var one := State(" " + rest, None, s.fields);
    RunLeaf(p.parts[1], one, names);
    TwoParts(p, s, one, Write(one, Direction, Number(code)), names);
    SpacedReads(p, s, rest, None, s.fields[Direction := Number(code)], names);
  }

  lemma TagFails(keyword: string, code: int, s: State, names: Names)
    requires !StartsWithWord(s.text, keyword, WORD_ENDS)
    ensures var r := Run(Spaced(Suite([Constant(keyword), Assign(Direction, code)])), s, names);
            !r.ok && r.after.text == s.text && r.after.fields == s.fields
  {
    hide Run, StartsWithWord;
    var p := Suite([Constant(keyword), Assign(Direction, code)]);
    ConstantFails(s, keyword, WORD_ENDS);
    RunLeaf(p.parts[0], s, names);
    NextPart(p, 0, s, names);
    RunSuite(p, s, names);
    SpacedFails(p, s, names);
  }

  /** The fields after the third alternative has been reached: the first two have reset the source. */
  function Tried(f: Fields): Fields {
    Start(Start(f, Source), Source)
  }

  function WhoFields(f: Fields, r: Rule): Fields {
    match r.course
    case OnAll => HostFields(f, Source, r.source)[Direction := Number(15)]
    case OnConnect => HostFields(Tried(f)[Direction := Number(4)], Target, r.target)
    case OnClose => HostFields(Tried(f)[Direction := Number(8)], Target, r.target)
    case OnData =>
      if r.target.kind == Nobody then HostFields(Start(f, Source), Source, r.source)
      else HostFields(HostFields(Tried(f), Source, r.source), Target, r.target)
  }

  lemma Keywords()
    ensures IsName("with") && IsName("talk-with") && IsName("connect") && IsName("close") && IsName("from") && IsName("to") && IsName("port")
  {
  }

  lemma AllTrafficReads(h: HostRule, s: State, rest: string, names: Names)
    requires GoodHost(h) && KeepsQuads(names) && (rest == "" || !IsSpace(rest[0])) && !StartsWithWord(rest, "port", WORD_ENDS)
    requires s.text == ShowHost("with", h) + rest
    ensures Run(WhoParser(), s, names) == Outcome(true, State(rest, None, HostFields(s.fields, Source, h)[Direction := Number(15)]))
  {
    hide Run, RunFirst, StartsWithWord, ShowHost, KeepsQuads, HostFields;
    var p := WhoParser();
    RunIsFirst(p, s, names);
    NextChoice(p, 0, s, names);
    HostReads("with", Source, h, s, rest, names);
    var one := State(rest, None, HostFields(s.fields, Source, h));
    RunLeaf(Assign(Direction, 15), one, names);
    TwoParts(WithParser(), s, one, Write(one, Direction, Number(15)), names);
  }

  lemma TalkReads(h: HostRule, s: State, rest: string, names: Names)
    requires GoodHost(h) && KeepsQuads(names) && (rest == "" || !IsSpace(rest[0])) && !StartsWithWord(rest, "port", WORD_ENDS)
    requires s.text == ShowHost("talk-with", h) + rest
    ensures Run(WhoParser(), s, names) == Outcome(true, State(rest, None, HostFields(Start(s.fields, Source), Source, h)))
  {
    hide Run, RunFirst, StartsWithWord, KeepsQuads, HostFields, ShowName, ShowPort;
    var p := WhoParser();
    RunIsFirst(p, s, names);
    NextChoice(p, 0, s, names);
    KeywordFirst("talk-with", h, rest);
    WithFails(s, names);
    var t := Run(WithParser(), s, names).after;
    NextChoice(p, 1, t, names);
    HostReads("talk-with", Source, h, t, rest, names);
  }

  /** A printed host starts with its keyword and with no other. */
  lemma KeywordFirst(keyword: string, h: HostRule, rest: string)
    requires keyword in {"with", "talk-with", "from", "to"}
    ensures forall other :: other in {"with", "talk-with", "connect", "close", "from", "to", "port"} && other != keyword ==>
              !StartsWithWord(ShowHost(keyword, h) + rest, other, WORD_ENDS)
    ensures ShowHost(keyword, h) + rest != "" && !IsSpace((ShowHost(keyword, h) + rest)[0])
  {
    hide IsName, StartsWithWord, ShowName, ShowPort;
    Keywords();
    var tail := " " + (ShowName(h) + (ShowPort(h) + " ")) + rest;
    assert ShowHost(keyword, h) + rest == keyword + tail;
    forall other | other in {"with", "talk-with", "connect", "close", "from", "to", "port"} && other != keyword
      ensures !StartsWithWord(ShowHost(keyword, h) + rest, other, WORD_ENDS)
    {
      OtherWord(keyword, other, tail, WORD_ENDS);
    }
    assert (keyword + tail)[0] == keyword[0];
  }

  /** The third alternative: what comes first, then the target. */
  lemma TargetReads(h: HostRule, s: State, middle: Fields, rest: string, names: Names)
    requires GoodHost(h) && KeepsQuads(names) && (rest == "" || !IsSpace(rest[0])) && !StartsWithWord(rest, "port", WORD_ENDS)
    requires !StartsWithWord(s.text, "with", WORD_ENDS) && !StartsWithWord(s.text, "talk-with", WORD_ENDS)
    requires forall status: Option<nat> ::
               Run(StartParser(), State(s.text, status, Tried(s.fields)), names) == Outcome(true, State(ShowHost("to", h) + rest, None, middle))
    ensures Run(WhoParser(), s, names) == Outcome(true, State(rest, None, HostFields(middle, Target, h)))
  {
    hide Run, RunFirst, StartsWithWord, KeepsQuads, HostFields, ShowHost, StartParser;
    var p := WhoParser();
    RunIsFirst(p, s, names);
    NextChoice(p, 0, s, names);
    WithFails(s, names);
    var t := Run(WithParser(), s, names).after;
    NextChoice(p, 1, t, names);
    HostFails("talk-with", Source, t, names);
    var u := Run(p.parts[1], t, names).after;
    NextChoice(p, 2, u, names);
    assert u == State(s.text, u.status, Tried(s.fields));
    var one := State(ShowHost("to", h) + rest, None, middle);
    HostReads("to", Target, h, one, rest, names);
    TwoParts(p.parts[2], u, one, State(rest, None, HostFields(middle, Target, h)), names);
  }

  lemma ConnectReads(h: HostRule, s: State, rest: string, names: Names)
    requires s.text == "connect" + (" " + (ShowHost("to", h) + rest))
    ensures Run(StartParser(), s, names) == Outcome(true, State(ShowHost("to", h) + rest, None, s.fields[Direction := Number(4)]))
  {
    hide Run, RunFirst, StartsWithWord, ShowHost;
    KeywordFirst("to", h, rest);
    RunIsFirst(StartParser(), s, names);
    NextChoice(StartParser(), 0, s, names);
    TagReads("connect", 4, s, ShowHost("to", h) + rest, names);
  }

  lemma CloseReads(h: HostRule, s: State, rest: string, names: Names)
    requires s.text == "close" + (" " + (ShowHost("to", h) + rest))
    ensures Run(StartParser(), s, names) == Outcome(true, State(ShowHost("to", h) + rest, None, s.fields[Direction := Number(8)]))
  {
    hide Run, RunFirst, StartsWithWord, ShowHost, IsName;
    KeywordFirst("to", h, rest);
    Keywords();
    RunIsFirst(StartParser(), s, names);
    NextChoice(StartParser(), 0, s, names);
    OtherWord("close", "connect", " " + (ShowHost("to", h) + rest), WORD_ENDS);
    TagFails("connect", 4, s, names);
    var t := Run(StartParser().parts[0], s, names).after;
    NextChoice(StartParser(), 1, t, names);
    TagReads("close", 8, t, ShowHost("to", h) + rest, names);
  }

  lemma FromReads(source: HostRule, target: HostRule, s: State, rest: string, names: Names)
    requires GoodHost(source) && KeepsQuads(names) && s.text == ShowHost("from", source) + (ShowHost("to", target) + rest)
    ensures Run(StartParser(), s, names) == Outcome(true, State(ShowHost("to", target) + rest, None, HostFields(s.fields, Source, source)))
  {
    hide Run, RunFirst, StartsWithWord, ShowHost, KeepsQuads, HostFields;
    KeywordFirst("from", source, ShowHost("to", target) + rest);
    KeywordFirst("to", target, rest);
    RunIsFirst(StartParser(), s, names);
    NextChoice(StartParser(), 0, s, names);
    TagFails("connect", 4, s, names);
    var t := Run(StartParser().parts[0], s, names).after;
    NextChoice(StartParser(), 1, t, names);
    TagFails("close", 8, t, names);
    var u := Run(StartParser().parts[1], t, names).after;
    NextChoice(StartParser(), 2, u, names);
    HostReads("from", Source, source, u, ShowHost("to", target) + rest, names);
  }

  lemma WhoReads(r: Rule, s: State, rest: string, names: Names)
    requires GoodHosts(r) && KeepsQuads(names) && (rest == "" || !IsSpace(rest[0])) && !StartsWithWord(rest, "port", WORD_ENDS)
    requires s.text == ShowWho(r) + rest
    ensures Run(WhoParser(), s, names) == Outcome(true, State(rest, None, WhoFields(s.fields, r)))
  {
    hide Run, StartsWithWord, ShowHost, KeepsQuads, HostFields, GoodHost;
    match r.course
    case OnAll => AllTrafficReads(r.source, s, rest, names);
    case OnConnect => TaggedReads("connect", 4, r.target, s, rest, names);
    case OnClose => TaggedReads("close", 8, r.target, s, rest, names);
    case OnData =>
      if r.target.kind == Nobody {
        TalkReads(r.source, s, rest, names);
      } else {
        BothRead(r.source, r.target, s, rest, names);
      }
  }

  lemma TaggedReads(keyword: string, code: int, h: HostRule, s: State, rest: string, names: Names)
    requires (keyword == "connect" && code == 4) || (keyword == "close" && code == 8)
    requires GoodHost(h) && KeepsQuads(names) && (rest == "" || !IsSpace(rest[0])) && !StartsWithWord(rest, "port", WORD_ENDS)
    requires s.text == keyword + " " + ShowHost("to", h) + rest
    ensures Run(WhoParser(), s, names) == Outcome(true, State(rest, None, HostFields(Tried(s.fields)[Direction := Number(code)], Target, h)))
  {
    hide Run, StartsWithWord, ShowHost, KeepsQuads, HostFields, GoodHost, IsName, StartParser, WhoParser;
    var tail := " " + (ShowHost("to", h) + rest);
    assert s.text == keyword + tail;
    Keywords();
    OtherWord(keyword, "with", tail, WORD_ENDS);
    OtherWord(keyword, "talk-with", tail, WORD_ENDS);
    var middle := Tried(s.fields)[Direction := Number(code)];
    forall status: Option<nat>
      ensures Run(StartParser(), State(s.text, status, Tried(s.fields)), names) == Outcome(true, State(ShowHost("to", h) + rest, None, middle))
    {
      if code == 4 {
        ConnectReads(h, State(s.text, status, Tried(s.fields)), rest, names);
      } else {
        CloseReads(h, State(s.text, status, Tried(s.fields)), rest, names);
      }
    }
    TargetReads(h, s, middle, rest, names);
  }

  lemma BothRead(source: HostRule, target: HostRule, s: State, rest: string, names: Names)
    requires GoodHost(source) && GoodHost(target) && KeepsQuads(names) && (rest == "" || !IsSpace(rest[0])) && !StartsWithWord(rest, "port", WORD_ENDS)
    requires s.text == ShowHost("from", source) + ShowHost("to", target) + rest
    ensures Run(WhoParser(), s, names) == Outcome(true, State(rest, None, HostFields(HostFields(Tried(s.fields), Source, source), Target, target)))
  {
    hide Run, StartsWithWord, ShowHost, KeepsQuads, HostFields, GoodHost, StartParser, WhoParser;
    assert s.text == ShowHost("from", source) + (ShowHost("to", target) + rest);
    KeywordFirst("from", source, ShowHost("to", target) + rest);
    var middle := HostFields(Tried(s.fields), Source, source);
    forall status: Option<nat>
      ensures Run(StartParser(), State(s.text, status, Tried(s.fields)), names) == Outcome(true, State(ShowHost("to", target) + rest, None, middle))
    {
      FromReads(source, target, State(s.text, status, Tried(s.fields)), rest, names);
    }
    TargetReads(target, s, middle, rest, names);
  }
}
