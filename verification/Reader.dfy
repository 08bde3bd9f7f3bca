/** The elements as they run: they move a cursor over the text, overwrite the error status,
    and write fields as they go. Each does what its function in `Parsers` says. */
module Readers {
  import opened Options
  import opened Texts
  import opened Parsers

  class Reader {
    const text: string
    const names: Names
    var from: nat            // the cursor
    var status: Option<nat>  // the position of the error
    var fields: Fields

    constructor (text: string, status: Option<nat>, fields: Fields, names: Names)
      requires status.Some? ==> status.value <= |text|
      ensures Valid() && Now() == State(text, if status == None then None else Some(|text| - status.value), fields)
      ensures this.names == names && this.text == text
    {
      this.text, this.names, this.from, this.status, this.fields := text, names, 0, status, fields;
    }

    ghost predicate Valid()
      reads this
    {
      from <= |text| && (status.Some? ==> status.value <= |text|)
    }

    ghost function Now(): State
      requires Valid()
      reads this
    {
      State(text[from..], if status == None then None else Some(|text| - status.value), fields)
    }

    /** `SET_PARSE_ERROR` and `FORCE_PARSE_ERROR`: the error is at the cursor. */
    method SetError(force: bool) returns (ok: bool)
      requires Valid()
      modifies this`status
      ensures Valid() && Outcome(ok, Now()) == if force then Forced(old(Now()), old(Now()).text) else Failed(old(Now()), old(Now()).text)
    {
      if force || status == None {
        status := Some(from);
      }
      return false;
    }

    method ClearError() returns (ok: bool)
      requires Valid()
      modifies this`status
      ensures Valid() && Outcome(ok, Now()) == Cleared(old(Now()))
    {
      status := None;
      return true;
    }

    method Advance(n: nat)
      requires Valid() && n <= |text| - from
      modifies this`from
      ensures Valid() && Now() == old(Now()).(text := old(Now()).text[n..])
    {
      assert text[from..][n..] == text[from + n..];
      from := from + n;
    }

    method Put(dest: Slot, v: Value)
      requires Valid()
      modifies this`fields
      ensures Valid() && Now() == Parsers.Write(old(Now()), dest, v)
    {
      fields := fields[dest := v];
    }

    method ParseInt(dest: Slot) returns (ok: bool)
      requires Valid()
      modifies this
      ensures Valid() && Outcome(ok, Now()) == ReadInt(old(Now()), dest)
    {
      hide Int, IsDigit;
      if from == |text| || (text[from] != '-' && !IsDigit(text[from])) {
        NotANumber(text[from..]);
        ok := SetError(false);
        return;
      }
      var i := Int(text[from..]);
      if i.Some? {
        Put(dest, Number(i.value.value));
        Advance(i.value.length);
        ok := ClearError();
      } else {
        OnlyAMinus(text[from..]);
        Put(dest, Number(0));
        ok := SetError(false);
      }
    }

    method ParseRanged(dest: Slot, low: int, high: int) returns (ok: bool)
      requires Valid()
      modifies this
      ensures Valid() && Outcome(ok, Now()) == ReadRanged(old(Now()), dest, low, high)
    {
      hide Int;
      var source := from;
      ok := ParseInt(dest);
      if ok && low <= fields[dest].n <= high {
        return;
      }
      from := source;
      ok := SetError(false);
    }

    method ParseWord(dest: Slot) returns (ok: bool)
      requires Valid()
      modifies this
      ensures Valid() && Outcome(ok, Now()) == ReadWord(old(Now()), dest)
    {
      hide Until;
      Put(dest, NoWord);
      var n := ParseUntil(text[from..], None, WORD_ENDS);
      if n == None {
        ok := SetError(false);
        return;
      }
      Put(dest, Word(text[from..][..n.value]));
      Advance(n.value);
      ok := ClearError();
    }

    method ParseFile(dest: Slot) returns (ok: bool)
      requires Valid()
      modifies this
      ensures Valid() && Outcome(ok, Now()) == ReadFile(old(Now()), dest)
    {
      hide Until;
      ok := ParseWord(dest);
      if ok && dest in fields && fields[dest] == Word("-") {
        Put(dest, NoWord);
      }
    }

    method ParseConstant(constant: string, ends: string) returns (ok: bool)
      requires Valid() && ends != ""
      modifies this
      ensures Valid() && Outcome(ok, Now()) == ReadConstant(old(Now()), constant, ends)
    {
      hide Until;
      var n := ParseUntil(text[from..], Some(constant), ends);
      if n == None {
        ok := SetError(false);
        return;
      }
      Advance(n.value);
      ok := ClearError();
    }

    /** The failed comparisons of the loop leave an error that the next success clears and
        that the failure at the end overwrites. */
    method ParseEnum(dest: Slot, table: seq<Choice>, otherwise: int) returns (ok: bool)
      requires Valid()
      modifies this
      ensures Valid() && Outcome(ok, Now()) == ReadEnum(old(Now()), dest, table, otherwise)
    {
      hide Until;
      var i := 0;
      while i < |table|
        invariant 0 <= i <= |table| && Valid() && from == old(from) && fields == old(fields)
        invariant Choose(table, 0, text[from..]) == Choose(table, i, text[from..])
      {
        ok := ParseConstant(table[i].constant, ENUM_ENDS);
        if ok {
          Put(dest, Number(table[i].value));
          return;
        }
        i := i + 1;
      }
      Put(dest, Number(otherwise));
      ok := SetError(true);
    }

    method ParseSpace() returns (ok: bool)
      requires Valid()
      modifies this
      ensures Valid() && Outcome(ok, Now()) == ReadSpace(old(Now()))
    {
      hide SkipSpace, IsSpace;
      if from == |text| || !IsSpace(text[from]) {
        ok := SetError(false);
        return;
      }
      while from < |text| && IsSpace(text[from])
        invariant Valid() && status == old(status) && fields == old(fields)
        invariant SkipSpace(text[from..]) == SkipSpace(text[old(from)..])
      {
        SkipsAt(text, from);
        from := from + 1;
      }
      SkipsAt(text, from);
      ok := ClearError();
    }

    method ParseEob() returns (ok: bool)
      requires Valid()
      modifies this
      ensures Valid() && Outcome(ok, Now()) == ReadEob(old(Now()))
    {
      if from == |text| {
        ok := ClearError();
      } else {
        ok := SetError(false);
      }
    }

    method ParseNext() returns (ok: bool)
      requires Valid()
      modifies this
      ensures Valid() && Outcome(ok, Now()) == ReadNext(old(Now()))
    {
      hide Until, Int, ReadEnum, ReadSpace, ReadInt;
      var source := from;
      Put(NextLine, Number(0));
      ok := ParseEnum(NextType, GOTOS, 4);
      if ok && (Is(fields, NextType, GOTO_LINE) || Is(fields, NextType, EXEC_LINE)) {
        ok := ParseSpace();
        if ok {
          ok := ParseInt(NextLine);
        }
      }
      if !ok {
        from := source;
      }
    }

    method ParseHost(end: End, body: Parser) returns (ok: bool)
      requires Valid()
      modifies this
      ensures Valid() && Outcome(ok, Now()) == Run(HostElement(end, body), old(Now()), names)
      decreases HostElement(end, body), 0
    {
      hide Run, RunAll, FinishHost;
      var source := from;
      RunHost(end, body, Now(), names);
      fields := fields[HostAddr(end) := Number(0)][HostPort(end) := Number(-1)][Address := NoWord][Service := NoWord];
      assert Now() == StartHost(old(Now()), end);
      ok := Parse(body);
      if !ok {
        from := source;
        return;
      }
      ok := Resolve(end, source);
    }

    method Resolve(end: End, source: nat) returns (ok: bool)
      requires Valid() && source <= |text|
      modifies this
      ensures Valid() && Outcome(ok, Now()) == FinishHost(text[source..], old(Now()), end, names)
    {
      var known := ResolveHost(fields, end, names);
      if known.Some? {
        fields := known.value;
        known := ResolveService(fields, end, names);
      }
      if known == None {
        from := source;
        ok := SetError(false);
        return;
      }
      fields := known.value;
      return true;
    }

    method ParseNamed(p: Parser) returns (ok: bool)
      requires Valid() && p.Named?
      modifies this
      ensures Valid() && Outcome(ok, Now()) == Run(p, old(Now()), names)
      decreases p, 0
    {
      hide Until, Run, RunAll, ReadSpace;
      var source := from;
      RunsNamed(p, Now(), names);
      var n := ParseUntil(text[from..], None, WORD_ENDS);
      if n == None {
        ok := SetError(false);
        return;
      }
      var name := text[from..][..n.value];
      Advance(n.value);
      ok := ClearError();
      var i := 0;
      while i < |p.definitions| && p.definitions[i].name != name
        invariant 0 <= i <= |p.definitions| && FirstNamed(p.definitions, 0, name) == FirstNamed(p.definitions, i, name)
      {
        i := i + 1;
      }
      if i == |p.definitions| {
        from := source;
        ok := SetError(false);
        return;
      }
      if p.definitions[i].Argument? {
        ok := ParseSpace();
        if ok {
          ok := Parse(p.definitions[i].argument);
        }
      }
      if ok {
        Put(p.dest, Number(i));
      } else {
        from := source;
      }
    }

    method ParseSuite(p: Parser) returns (ok: bool)
      requires Valid() && (p.Suite? || p.Optional?)
      modifies this
      ensures Valid() && Outcome(ok, Now()) == (var r := RunAll(p, 0, old(Now()), names);
                                                if r.ok then Cleared(r.after) else Failed(r.after, old(Now()).text))
      decreases p, 0
    {
      hide Run, RunAll;
      var source := from;
      var i := 0;
      while i < |p.parts|
        invariant 0 <= i <= |p.parts| && Valid() && source == old(from)
        invariant RunAll(p, i, Now(), names) == RunAll(p, 0, old(Now()), names)
      {
        NextPart(p, i, Now(), names);
        ok := Parse(p.parts[i]);
        if !ok {
          from := source;
          ok := SetError(false);
          return;
        }
        i := i + 1;
      }
      NoMoreParts(p, Now(), names);
      ok := ClearError();
    }

    method ParseFirst(p: Parser) returns (ok: bool)
      requires Valid() && p.First?
      modifies this
      ensures Valid() && Outcome(ok, Now()) == RunFirst(p, 0, old(Now()), names)
      decreases p, 0
    {
      hide Run, RunFirst;
      var i := 0;
      while i < |p.parts|
        invariant 0 <= i <= |p.parts| && Valid()
        invariant RunFirst(p, i, Now(), names) == RunFirst(p, 0, old(Now()), names)
      {
        NextChoice(p, i, Now(), names);
        ok := Parse(p.parts[i]);
        if ok {
          ok := ClearError();
          return;
        }
        i := i + 1;
      }
      NoMoreChoices(p, Now(), names);
      ok := SetError(true);
    }

    /** Any element. */
    method Parse(p: Parser) returns (ok: bool)
      requires Valid()
      modifies this
      ensures Valid() && Outcome(ok, Now()) == Run(p, old(Now()), names)
      decreases p
    {
      hide RunAll, RunFirst, RunNamed, ReadInt, ReadRanged, ReadWord, ReadFile, ReadConstant, ReadEnum, ReadSpace, ReadEob, ReadNext, FinishHost;
      match p
      case Suite(_) => ok := ParseSuite(p);
      case First(_) => ok := ParseFirst(p);
      case Optional(_) =>
        var r := ParseSuite(p);
        ok := ClearError();
      case IntElement(dest) => ok := ParseInt(dest);
      case RangedInt(dest, low, high) => ok := ParseRanged(dest, low, high);
      case WordElement(dest) => ok := ParseWord(dest);
      case FileElement(dest) => ok := ParseFile(dest);
      case Constant(c) => ok := ParseConstant(c, WORD_ENDS);
      case EnumElement(dest, table, otherwise) => ok := ParseEnum(dest, table, otherwise);
      case SpaceElement => ok := ParseSpace();
      case EobElement => ok := ParseEob();
      case HostElement(end, body) => ok := ParseHost(end, body);
      case Named(_, _) => ok := ParseNamed(p);
      case NextElement => ok := ParseNext();
      case Assign(dest, value) =>
        Put(dest, Number(value));
        ok := true;
    }
  }

  lemma SkipsAt(text: string, i: nat)
    requires i <= |text|
    ensures SkipSpace(text[i..]) == if i < |text| && IsSpace(text[i]) then SkipSpace(text[i + 1..]) else text[i..]
  {
    hide IsSpace;
    if i < |text| {
      assert text[i..][0] == text[i] && text[i..][1..] == text[i + 1..];
    }
  }

  lemma NotANumber(text: string)
    requires text == "" || (text[0] != '-' && !IsDigit(text[0]))
    ensures Int(text) == None
  {
    assert text[0..] == text;
  }

  lemma OnlyAMinus(text: string)
    requires text != "" && Int(text) == None && (text[0] == '-' || IsDigit(text[0]))
    ensures text[0] == '-'
  {
    assert text[0..] == text;
  }
}
