/** The binary trace: written event by event by the dump task (`src/actions/dump.c`),
    read, and written again with reversed directions, by `tools/readdump.py`. */
module Codec {
  import opened Options

  type Byte = x: int | 0 <= x < 256

  // ----- little-endian numbers -----

  function Power(w: nat): (p: nat)
    ensures 1 <= p
  {
    if w == 0 then 1 else 256 * Power(w - 1)
  }

  function Le(n: nat, w: nat): (r: seq<Byte>)
    ensures |r| == w
  {
    if w == 0 then [] else [n % 256] + Le(n / 256, w - 1)
  }

  function UnLe(b: seq<Byte>): (n: nat)
  {
    if b == [] then 0 else b[0] + 256 * UnLe(b[1..])
  }

  lemma {:induction false} UnLeBound(b: seq<Byte>)
    ensures UnLe(b) < Power(|b|)
  {
    if b != [] {
      UnLeBound(b[1..]);
    }
  }

  lemma {:induction false} LeUnLe(b: seq<Byte>)
    ensures Le(UnLe(b), |b|) == b
  {
    if b != [] {
      LeUnLe(b[1..]);
      LowByte(b[0], UnLe(b[1..]));
      assert b == [b[0]] + b[1..];
    }
  }

  lemma LowByte(x: Byte, y: nat)
    ensures (x + 256 * y) % 256 == x && (x + 256 * y) / 256 == y
  {
  }

  lemma {:induction false} UnLeLe(n: nat, w: nat)
    requires n < Power(w)
    ensures UnLe(Le(n, w)) == n
  {
    if w > 0 {
      UnLeLe(n / 256, w - 1);
      assert Le(n, w)[1..] == Le(n / 256, w - 1);
    }
  }

  lemma Powers()
    ensures Power(1) == 0x100 && Power(2) == 0x1_0000 && Power(4) == 0x1_0000_0000 && Power(8) == 0x1_0000_0000_0000_0000
  {
    assert Power(3) == 0x100_0000;
    assert Power(4) == 0x1_0000_0000;
    assert Power(5) == 0x100_0000_0000;
    assert Power(6) == 0x1_0000_0000_0000;
    assert Power(7) == 0x100_0000_0000_0000;
  }

  /** A number in `w` bytes, read as signed. */
  function Signed(n: nat, w: nat): int {
    if n < Power(w) / 2 then n else n - Power(w)
  }

  function Unsigned(i: int, w: nat): nat {
    i % Power(w)
  }

  predicate Fits(i: int, w: nat) {
    -(Power(w) / 2) <= i < Power(w) / 2
  }

  lemma SignedUnsigned(i: int, w: nat)
    requires Fits(i, w)
    ensures Signed(Unsigned(i, w), w) == i && Unsigned(i, w) < Power(w)
  {
    WrapOnce(i, Power(w));
  }

  /** The remainder of a number at most one modulus away. */
  lemma WrapOnce(i: int, p: int)
    requires 0 < p && -p <= i < p
    ensures i % p == if i < 0 then i + p else i
  {
    var q := i / p;
    assert i == q * p + i % p;
    if q >= 1 {
      Scale(1, q, p);
    } else if q <= -2 {
      Scale(q, -2, p);
    }
    assert -1 <= q <= 0;
  }

  lemma Scale(a: int, b: int, p: nat)
    requires a <= b
    ensures a * p <= b * p
  {
  }

  lemma UnsignedSigned(n: nat, w: nat)
    requires n < Power(w) && 0 < w
    ensures Unsigned(Signed(n, w), w) == n && Fits(Signed(n, w), w)
  {
    var p, q := Power(w), Power(w - 1);
    assert p == 256 * q;
    hide Power;
    assert p / 2 == 128 * q;
    WrapOnce(Signed(n, w), p);
  }

  // ----- records: what the reader returns -----

  /** `length` is the error number when `success` is -1, and 0 when the entry has no
      length; the data are absent when the length is not positive. */
  datatype Record = Record(
    time: nat, kind: int, proto: int, lport: nat, addr: seq<Byte>, port: nat, success: int,
    length: int, data: Option<seq<Byte>>)

  const READING := 1
  const WRITING := 2
  const CONNECTING := 4
  const CLOSING := 8
  const HEADER := 19

  predicate HasLength(kind: int, success: int) {
    (kind != CONNECTING && kind != CLOSING) || success == -1
  }

  predicate WellFormed(r: Record) {
    && r.time < Power(8) && Fits(r.kind, 1) && Fits(r.proto, 1) && r.lport < Power(2) && |r.addr| == 4
    && r.port < Power(2) && Fits(r.success, 1) && Fits(r.length, 4)
    && (!HasLength(r.kind, r.success) ==> r.length == 0)
    && (r.data.Some? <==> r.length > 0 && r.success != -1)
    && (r.data.Some? ==> |r.data.value| == r.length)
  }

  function Header(r: Record): (h: seq<Byte>)
    requires |r.addr| == 4
    ensures |h| == HEADER
  {
    Le(r.time, 8) + Le(Unsigned(r.kind, 1), 1) + Le(Unsigned(r.proto, 1), 1) + Le(r.lport, 2) + r.addr
    + Le(r.port, 2) + Le(Unsigned(r.success, 1), 1)
  }

  /** What `writeEntry` writes. */
  function WriteEntry(r: Record): seq<Byte>
    requires |r.addr| == 4
  {
    Header(r)
    + (if HasLength(r.kind, r.success) then Le(Unsigned(r.length, 4), 4) else [])
    + (if r.data.Some? then r.data.value else [])
  }

  function ReadHeader(b: seq<Byte>): Record
    requires |b| == HEADER
  {
    Record(UnLe(b[..8]), Signed(UnLe(b[8..9]), 1), Signed(UnLe(b[9..10]), 1), UnLe(b[10..12]), b[12..16],
           UnLe(b[16..18]), Signed(UnLe(b[18..19]), 1), 0, None)
  }

  /** What `readEntry` makes of the bytes ahead, and what it leaves; nothing when it raises an exception. */
  function ReadEntry(b: seq<Byte>): (r: Option<(Record, seq<Byte>)>)
    ensures r.Some? ==> |r.value.0.addr| == 4 && |r.value.1| < |b|
  {
    if |b| < HEADER then None
    else
      var h := ReadHeader(b[..HEADER]);
      var b := b[HEADER..];
      if !HasLength(h.kind, h.success) then Some((h, b))
      else if |b| < 4 then None
      else
        var length := Signed(UnLe(b[..4]), 4);
        var b := b[4..];
        if length <= 0 || h.success == -1 then Some((h.(length := length), b))
        else if |b| < length then None
        else Some((h.(length := length, data := Some(b[..length])), b[length..]))
  }

  // ----- one entry, both ways -----

  lemma HeaderOfRead(b: seq<Byte>)
    requires |b| == HEADER
    ensures Header(ReadHeader(b)) == b
    ensures var r := ReadHeader(b); r.time < Power(8) && Fits(r.kind, 1) && Fits(r.proto, 1) && r.lport < Power(2) && r.port < Power(2) && Fits(r.success, 1)
  {
    LeUnLe(b[..8]); LeUnLe(b[8..9]); LeUnLe(b[9..10]); LeUnLe(b[10..12]); LeUnLe(b[16..18]); LeUnLe(b[18..19]);
    UnLeBound(b[..8]); UnLeBound(b[8..9]); UnLeBound(b[9..10]); UnLeBound(b[10..12]); UnLeBound(b[16..18]); UnLeBound(b[18..19]);
    UnsignedSigned(UnLe(b[8..9]), 1); UnsignedSigned(UnLe(b[9..10]), 1); UnsignedSigned(UnLe(b[18..19]), 1);
    hide Le, UnLe, Signed, Unsigned, Power, Fits;
    assert b == b[..8] + b[8..9] + b[9..10] + b[10..12] + b[12..16] + b[16..18] + b[18..19];
  }

  lemma ReadIsWellFormed(b: seq<Byte>)
    requires ReadEntry(b).Some?
    ensures WellFormed(ReadEntry(b).value.0)
  {
    var (r, rest) := ReadEntry(b).value;
    HeaderOfRead(b[..HEADER]);
    var tail := b[HEADER..];
    assert Fits(0, 4) by { Powers(); }
    if HasLength(r.kind, r.success) {
      UnLeBound(tail[..4]);
      UnsignedSigned(UnLe(tail[..4]), 4);
    }
    hide Le, UnLe, Signed, Unsigned, Power, Fits, Header;
  }

  lemma WriteOfReadBytes(b: seq<Byte>)
    requires ReadEntry(b).Some?
    ensures WriteEntry(ReadEntry(b).value.0) + ReadEntry(b).value.1 == b
  {
    var (r, rest) := ReadEntry(b).value;
    HeaderOfRead(b[..HEADER]);
    var tail := b[HEADER..];
    if HasLength(r.kind, r.success) {
      LeUnLe(tail[..4]);
      UnLeBound(tail[..4]);
      UnsignedSigned(UnLe(tail[..4]), 4);
    }
    SameHeader(r, ReadHeader(b[..HEADER]));
    hide Le, UnLe, Signed, Unsigned, Power, Fits, ReadHeader, Header;
    if HasLength(r.kind, r.success) {
      assert tail == tail[..4] + tail[4..];
      if r.data.Some? {
        assert tail[4..] == r.data.value + rest;
      }
    }
    assert b == b[..HEADER] + tail;
  }

  /** Whatever bytes are read as an entry, writing that entry gives the same bytes. */
  lemma WriteOfRead(b: seq<Byte>)
    requires ReadEntry(b).Some?
    ensures WriteEntry(ReadEntry(b).value.0) + ReadEntry(b).value.1 == b
    ensures WellFormed(ReadEntry(b).value.0)
  {
    ReadIsWellFormed(b);
    WriteOfReadBytes(b);
  }

  lemma SameHeader(r: Record, h: Record)
    requires |h.addr| == 4 && r == h.(length := r.length, data := r.data)
    ensures Header(r) == Header(h)
  {
  }

  lemma HeaderRead(r: Record)
    requires WellFormed(r)
    ensures ReadHeader(Header(r)) == r.(length := 0, data := None)
  {
    UnLeLe(r.time, 8); UnLeLe(r.lport, 2); UnLeLe(r.port, 2);
    SignedUnsigned(r.kind, 1); SignedUnsigned(r.proto, 1); SignedUnsigned(r.success, 1);
    UnLeLe(Unsigned(r.kind, 1), 1); UnLeLe(Unsigned(r.proto, 1), 1); UnLeLe(Unsigned(r.success, 1), 1);
    hide Le, UnLe, Signed, Unsigned, Power, Fits;
    HeaderParts(Le(r.time, 8), Le(Unsigned(r.kind, 1), 1), Le(Unsigned(r.proto, 1), 1), Le(r.lport, 2), r.addr, Le(r.port, 2), Le(Unsigned(r.success, 1), 1));
  }

  lemma HeaderParts(a: seq<Byte>, b: seq<Byte>, c: seq<Byte>, d: seq<Byte>, e: seq<Byte>, f: seq<Byte>, g: seq<Byte>)
    requires |a| == 8 && |b| == |c| == |g| == 1 && |d| == |f| == 2 && |e| == 4
    ensures var h := a + b + c + d + e + f + g;
            && h[..8] == a && h[8..9] == b && h[9..10] == c && h[10..12] == d && h[12..16] == e && h[16..18] == f && h[18..19] == g
  {
  }

  /** A written entry is read back, whatever follows it. */
  lemma ReadOfWrite(r: Record, rest: seq<Byte>)
    requires WellFormed(r)
    ensures ReadEntry(WriteEntry(r) + rest) == Some((r, rest))
  {
    HeaderRead(r);
    SignedUnsigned(r.length, 4);
    UnLeLe(Unsigned(r.length, 4), 4);
    hide Le, UnLe, Signed, Unsigned, Power, Fits, ReadHeader, Header;
    var four := if HasLength(r.kind, r.success) then Le(Unsigned(r.length, 4), 4) else [];
    var data := if r.data.Some? then r.data.value else [];
    assert WriteEntry(r) + rest == Header(r) + (four + (data + rest));
    SplitAt(Header(r), four + (data + rest));
    SplitAt(four, data + rest);
    SplitAt(data, rest);
  }

  lemma SplitAt(a: seq<Byte>, b: seq<Byte>)
    ensures (a + b)[..|a|] == a && (a + b)[|a|..] == b
  {
  }

  // ----- whole streams -----

  function ReadAll(b: seq<Byte>): (r: (seq<Record>, seq<Byte>))
    ensures forall i :: 0 <= i < |r.0| ==> |r.0[i].addr| == 4
    decreases |b|
  {
    match ReadEntry(b)
    case None => ([], b)
    case Some((e, rest)) =>
      var (es, end) := ReadAll(rest);
      ([e] + es, end)
  }

  predicate Addressed(es: seq<Record>) {
    forall i :: 0 <= i < |es| ==> |es[i].addr| == 4
  }

  predicate AllWellFormed(es: seq<Record>) {
    forall i :: 0 <= i < |es| ==> WellFormed(es[i])
  }

  function WriteAll(es: seq<Record>): seq<Byte>
    requires Addressed(es)
    decreases es
  {
    if es == [] then [] else WriteEntry(es[0]) + WriteAll(es[1..])
  }

  lemma {:induction false} WriteAllOfReadAll(b: seq<Byte>)
    ensures AllWellFormed(ReadAll(b).0) && WriteAll(ReadAll(b).0) + ReadAll(b).1 == b
    decreases |b|
  {
    hide WellFormed, WriteEntry, ReadEntry;
    match ReadEntry(b)
    case None =>
    case Some((e, rest)) =>
      WriteOfRead(b);
      WriteAllOfReadAll(rest);
      var (es, end) := ReadAll(rest);
      assert ([e] + es)[1..] == es;
  }

  /** The stream has one reading: the entries that were written, and nothing left. */
  lemma {:induction false} ReadAllOfWriteAll(es: seq<Record>)
    requires Addressed(es) && AllWellFormed(es)
    ensures ReadAll(WriteAll(es)) == (es, [])
    decreases es
  {
    hide WellFormed, WriteEntry;
    if es == [] {
      assert ReadEntry([]).None?;
    } else {
      hide ReadEntry;
      ReadOfWrite(es[0], WriteAll(es[1..]));
      ReadAllOfWriteAll(es[1..]);
      assert es == [es[0]] + es[1..];
    }
  }

  // ----- reversal -----

  function Swap(r: Record): Record {
    if r.kind == READING then r.(kind := WRITING) else if r.kind == WRITING then r.(kind := READING) else r
  }

  function SwapAll(es: seq<Record>): (r: seq<Record>)
    ensures |r| == |es| && forall i :: 0 <= i < |es| ==> r[i] == Swap(es[i])
  {
    seq(|es|, i requires 0 <= i < |es| => Swap(es[i]))
  }

  function Reverse(b: seq<Byte>): seq<Byte> {
    WriteAll(SwapAll(ReadAll(b).0))
  }

  lemma SwapKeepsWellFormed(r: Record)
    requires WellFormed(r)
    ensures WellFormed(Swap(r)) && Swap(Swap(r)) == r
  {
    Powers();
  }

  /** Reversing twice reproduces, byte for byte, the part of the file that can be
      read; so it reproduces the file exactly when all of it can be read. */
  lemma ReverseTwice(b: seq<Byte>)
    ensures Reverse(Reverse(b)) + ReadAll(b).1 == b
    ensures Reverse(Reverse(b)) == b <==> ReadAll(b).1 == []
  {
    var es := ReadAll(b).0;
    WriteAllOfReadAll(b);
    forall i | 0 <= i < |es| ensures WellFormed(Swap(es[i])) && Swap(Swap(es[i])) == es[i] {
      SwapKeepsWellFormed(es[i]);
    }
    hide WellFormed, Swap, WriteAll, ReadAll;
    ReadAllOfWriteAll(SwapAll(es));
    assert SwapAll(SwapAll(es)) == es;
  }

  // ----- the dump task -----

  /** What the dump task sees of a call: `bytes` is the current buffer, `len` the current length. */
  datatype Event = Event(
    time: nat, direction: int, proto: int, lport: int, addr: nat, port: int,
    done: bool, aborted: bool, result: int, errno: int, len: nat, bytes: seq<Byte>)

  predicate IsEvent(e: Event) {
    && e.time < Power(8) && e.direction in {READING, WRITING, CONNECTING, CLOSING} && e.proto in {1, 2}
    && 0 <= e.lport < Power(2) && 0 <= e.port < Power(2) && e.addr < Power(4)
    && Fits(e.errno, 4) && e.len < Power(4) / 2 && e.len <= |e.bytes|
  }

  predicate DataEvent(e: Event) {
    e.direction == READING || e.direction == WRITING
  }

  function Success(e: Event): int {
    if !e.done && !e.aborted then 0 else if e.result == -1 then -1 else 1
  }

  function EncodeHeader(e: Event): (r: seq<Byte>)
    ensures |r| == HEADER - 1
  {
    Le(e.time % Power(8), 8) + Le(Unsigned(e.direction, 1), 1) + Le(Unsigned(e.proto, 1), 1) + Le(Unsigned(e.lport, 2), 2)
    + Le(e.addr % Power(4), 4) + Le(Unsigned(e.port, 2), 2)
  }

  /** What the dump task writes. */
  function Encode(e: Event): seq<Byte>
    requires e.len <= |e.bytes|
  {
    EncodeHeader(e) + Le(Unsigned(Success(e), 1), 1)
    + (if Success(e) == -1 then Le(Unsigned(e.errno, 4), 4) else [])
    + (if DataEvent(e) && e.result != -1 then Le(e.len % Power(4), 4) + e.bytes[..e.len] else [])
  }

  /** What the reader should make of an event. */
  function RecordOf(e: Event): Record
    requires e.len <= |e.bytes|
  {
    var s := Success(e);
    var length := if s == -1 then e.errno else if DataEvent(e) then e.len as int else 0;
    Record(e.time, e.direction, e.proto, Unsigned(e.lport, 2), Le(e.addr % Power(4), 4), Unsigned(e.port, 2), s, length,
           if length > 0 && s != -1 then Some(e.bytes[..e.len]) else None)
  }

  lemma EventRecord(e: Event)
    requires IsEvent(e)
    ensures WellFormed(RecordOf(e))
  {
    Powers();
    assert Power(0) == 1;
  }

  /** A call that failed must have been settled, or its entry lacks the length that the reader expects. */
  predicate Settled(e: Event) {
    DataEvent(e) && e.result == -1 ==> e.done || e.aborted
  }

  lemma EncodeIsWrite(e: Event)
    requires IsEvent(e) && Settled(e)
    ensures Encode(e) == WriteEntry(RecordOf(e))
  {
    Powers();
    Small(e.time, Power(8));
    Small(e.len, Power(4));
    assert Unsigned(e.len, 4) == e.len % Power(4);
    hide Le, Power, Fits;
    assert e.len == 0 ==> e.bytes[..e.len] == [];
  }

  lemma Small(n: nat, p: nat)
    requires n < p
    ensures n % p == n
  {
  }

  /** An event is read back as it was exactly when it is settled. */
  lemma EventRoundTripIff(e: Event)
    requires IsEvent(e)
    ensures ReadEntry(Encode(e)) == Some((RecordOf(e), [])) <==> Settled(e)
  {
    EventRecord(e);
    if Settled(e) {
      EncodeIsWrite(e);
      ReadOfWrite(RecordOf(e), []);
      hide ReadEntry, WriteEntry, Encode, RecordOf;
      assert WriteEntry(RecordOf(e)) + [] == WriteEntry(RecordOf(e));
    } else {
      assert |Encode(e)| == HEADER;
      assert |WriteEntry(RecordOf(e))| > HEADER;
      hide Encode, WriteEntry, RecordOf;
      if ReadEntry(Encode(e)) == Some((RecordOf(e), [])) {
        WriteOfRead(Encode(e));
        assert false;
      }
    }
  }

  predicate Events(es: seq<Event>) {
    forall i :: 0 <= i < |es| ==> IsEvent(es[i])
  }

  function EncodeAll(es: seq<Event>): seq<Byte>
    requires Events(es)
    decreases es
  {
    if es == [] then []
    else
      assert IsEvent(es[0]);
      Encode(es[0]) + EncodeAll(es[1..])
  }

  function RecordsOf(es: seq<Event>): (r: seq<Record>)
    requires Events(es)
    ensures |r| == |es|
    ensures forall i :: 0 <= i < |es| ==> assert IsEvent(es[i]); r[i] == RecordOf(es[i])
    decreases es
  {
    if es == [] then []
    else
      assert IsEvent(es[0]);
      [RecordOf(es[0])] + RecordsOf(es[1..])
  }

  /** Any sequence of settled events decodes to the same sequence, with nothing left
      over, and reversing its trace twice gives the trace back. */
  lemma TraceRoundTrip(es: seq<Event>)
    requires Events(es) && forall i :: 0 <= i < |es| ==> Settled(es[i])
    ensures ReadAll(EncodeAll(es)) == (RecordsOf(es), [])
    ensures Reverse(Reverse(EncodeAll(es))) == EncodeAll(es)
  {
    EncodeAllIsWriteAll(es);
    forall i | 0 <= i < |es| ensures WellFormed(RecordsOf(es)[i]) {
      assert IsEvent(es[i]);
      EventRecord(es[i]);
    }
    hide WellFormed, RecordOf;
    ReadAllOfWriteAll(RecordsOf(es));
    ReverseTwice(EncodeAll(es));
  }

  lemma {:induction false} EncodeAllIsWriteAll(es: seq<Event>)
    requires Events(es) && forall i :: 0 <= i < |es| ==> Settled(es[i])
    ensures Addressed(RecordsOf(es)) && EncodeAll(es) == WriteAll(RecordsOf(es))
    decreases es
  {
    hide IsEvent, Settled, Encode, WriteEntry;
    if es != [] {
      assert IsEvent(es[0]);
      EncodeIsWrite(es[0]);
      EncodeAllIsWriteAll(es[1..]);
      assert RecordsOf(es)[1..] == RecordsOf(es[1..]);
    }
  }

  // ----- the programs -----

  class File {
    var bytes: seq<Byte>
    var pos: nat

    constructor (bytes: seq<Byte>)
      ensures this.bytes == bytes && pos == 0
    {
      this.bytes := bytes;
      pos := 0;
    }

    ghost function Ahead(): seq<Byte>
      reads this
    {
      if pos <= |bytes| then bytes[pos..] else []
    }

    method Write(b: seq<Byte>)
      modifies this
      ensures bytes == old(bytes) + b && pos == old(pos)
    {
      bytes := bytes + b;
    }

    /** Reads `n` bytes, or what is left. */
    method Read(n: nat) returns (b: seq<Byte>)
      requires pos <= |bytes|
      modifies this
      ensures bytes == old(bytes) && pos <= |bytes|
      ensures b == (if n <= |old(Ahead())| then old(Ahead())[..n] else old(Ahead()))
      ensures Ahead() == old(Ahead())[|b|..]
    {
      var end := if pos + n <= |bytes| then pos + n else |bytes|;
      b := bytes[pos..end];
      pos := end;
    }
  }

  method DumpHeader(file: File, e: Event)
    modifies file
    ensures file.bytes == old(file.bytes) + EncodeHeader(e) && file.pos == old(file.pos)
  {
    hide Le, Unsigned, Power;
    file.Write(Le(e.time % Power(8), 8));
    file.Write(Le(Unsigned(e.direction, 1), 1));
    file.Write(Le(Unsigned(e.proto, 1), 1));
    file.Write(Le(Unsigned(e.lport, 2), 2));
    file.Write(Le(e.addr % Power(4), 4));
    file.Write(Le(Unsigned(e.port, 2), 2));
    assert file.bytes == old(file.bytes) + EncodeHeader(e);
  }

  method DumpEvent(file: File, e: Event)
    requires IsEvent(e)
    modifies file
    ensures file.bytes == old(file.bytes) + Encode(e) && file.pos == old(file.pos)
  {
    hide Le, Unsigned, Power, EncodeHeader;
    DumpHeader(file, e);
    if e.done || e.aborted {
      var success := if e.result == -1 then -1 else 1;
      file.Write(Le(Unsigned(success, 1), 1));
      if e.result == -1 {
        file.Write(Le(Unsigned(e.errno, 4), 4));
      }
    } else {
      file.Write(Le(Unsigned(0, 1), 1));
    }
    if DataEvent(e) && e.result != -1 {
      file.Write(Le(e.len % Power(4), 4));
      file.Write(e.bytes[..e.len]);
    }
    assert file.bytes == old(file.bytes) + Encode(e);
  }

  method NextEntry(file: File) returns (r: Option<Record>)
    requires file.pos <= |file.bytes|
    modifies file
    ensures file.bytes == old(file.bytes) && file.pos <= |file.bytes|
    ensures match ReadEntry(old(file.Ahead()))
            case None => r == None
            case Some((e, rest)) => r == Some(e) && file.Ahead() == rest
  {
    hide UnLe, Signed, ReadHeader;
    ghost var b := file.Ahead();
    var str := file.Read(HEADER);
    if |str| < HEADER {
      return None;
    }
    var e := ReadHeader(str);
    if !HasLength(e.kind, e.success) {
      return Some(e);
    }
    var four := file.Read(4);
    if |four| < 4 {
      return None;
    }
    e := e.(length := Signed(UnLe(four), 4));
    if e.length > 0 && e.success != -1 {
      var data := file.Read(e.length);
      if |data| < e.length {
        return None;
      }
      e := e.(data := Some(data));
    }
    return Some(e);
  }

  /** What is written and what is still to be read make up the reversed file. */
  ghost predicate LeftToRevert(whole: seq<Byte>, written: seq<Byte>, ahead: seq<Byte>) {
    written + Reverse(ahead) == Reverse(whole)
  }

  lemma RevertUnfolds(whole: seq<Byte>, written: seq<Byte>, ahead: seq<Byte>)
    requires LeftToRevert(whole, written, ahead)
    ensures match ReadEntry(ahead)
            case None => written == Reverse(whole)
            case Some((e, rest)) => LeftToRevert(whole, written + WriteEntry(Swap(e)), rest)
  {
    hide ReadEntry, WriteEntry;
    var es := ReadAll(ahead).0;
    match ReadEntry(ahead)
    case None =>
      assert SwapAll(es) == [];
    case Some((e, rest)) =>
      assert SwapAll(es)[0] == Swap(e) && SwapAll(es)[1..] == SwapAll(ReadAll(rest).0);
      assert written + (WriteEntry(Swap(e)) + Reverse(rest)) == (written + WriteEntry(Swap(e))) + Reverse(rest);
  }

  /** The main loop with the option that reverses directions. */
  method RevertFile(source: File, dest: File)
    requires source != dest && source.pos == 0 && dest.bytes == []
    modifies source, dest
    ensures dest.bytes == Reverse(old(source.bytes))
    ensures source.bytes == old(source.bytes)
  {
    assert source.Ahead() == source.bytes;
    assert LeftToRevert(source.bytes, dest.bytes, source.Ahead());
    hide ReadEntry, WriteEntry, LeftToRevert, Reverse;
    while true
      invariant source.bytes == old(source.bytes) && source.pos <= |source.bytes|
      invariant LeftToRevert(source.bytes, dest.bytes, source.Ahead())
      decreases |source.Ahead()|
    {
      RevertUnfolds(source.bytes, dest.bytes, source.Ahead());
      var r := NextEntry(source);
      if r.None? {
        break;
      }
      dest.Write(WriteEntry(Swap(r.value)));
    }
  }
}
