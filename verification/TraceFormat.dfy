/** The trace file byte by byte: where each field of an entry is, and which bytes the
    reversal of `tools/readdump.py` changes (`src/actions/dump.c`). */
module TraceFormat {
  import opened Options
  import opened Codec

  // ----- the layout of an entry -----

  /** Numbers are written with the low byte first. */
  lemma {:induction false} LeAt(n: nat, w: nat, i: nat)
    requires i < w
    ensures Le(n, w)[i] == n / Power(i) % 256
  {
    if i > 0 {
      LeAt(n / 256, w - 1, i - 1);
      DivideTwice(n, Power(i - 1));
    } else {
      assert n / 1 == n;
    }
  }

  lemma DivideTwice(n: nat, p: nat)
    requires 0 < p
    ensures n / (256 * p) == n / 256 / p
  {
    var q := n / 256 / p;
    var r := n / 256 % p;
    assert n / 256 == q * p + r && 0 <= r < p;
    var low := n % 256;
    assert n == 256 * (q * p + r) + low;
    assert n == q * (256 * p) + (256 * r + low);
    assert 256 * r + low < 256 * p;
    Quotient(n, 256 * p, q, 256 * r + low);
  }

  lemma Quotient(n: nat, d: nat, q: nat, r: nat)
    requires 0 < d && r < d && n == q * d + r
    ensures n / d == q
  {
    var k := n / d;
    assert n == k * d + n % d;
    if k > q {
      Scale(q + 1, k, d);
    } else if k < q {
      Scale(k + 1, q, d);
    }
  }

  lemma SmallByte(n: nat)
    requires n < 256
    ensures Le(n, 1) == [n]
  {
    assert Le(n / 256, 0) == [];
  }

  /** What a byte of value `v` stands for in a signed field: 255 is -1. */
  lemma SignedByte(i: int)
    requires -1 <= i < 128
    ensures Unsigned(i, 1) == if i == -1 then 255 else i
  {
    assert Power(0) == 1 && Power(1) == 256;
  }

  /** The parts that an event is written in. */
  lemma EncodeParts(e: Event)
    requires IsEvent(e)
    ensures var success := if !e.done && !e.aborted then 0 else if e.result == -1 then 255 else 1;
            var tail := (if success == 255 then Le(Unsigned(e.errno, 4), 4) else [])
                        + (if (e.direction == 1 || e.direction == 2) && e.result != -1 then Le(e.len, 4) + e.bytes[..e.len] else []);
            Encode(e) == Le(e.time, 8) + [e.direction] + [e.proto] + Le(e.lport, 2) + Le(e.addr, 4) + Le(e.port, 2) + [success] + tail
  {
    Powers();
    Small(e.time, Power(8));
    Small(e.addr, Power(4));
    Small(e.len, Power(4));
    Small(e.lport, Power(2));
    Small(e.port, Power(2));
    SignedByte(e.direction); SignedByte(e.proto); SignedByte(Success(e));
    SmallByte(e.direction); SmallByte(e.proto); SmallByte(Unsigned(Success(e), 1));
    hide Le, Power, Fits;
  }

  lemma PartsAt(a: seq<Byte>, b: Byte, c: Byte, d: seq<Byte>, e: seq<Byte>, f: seq<Byte>, g: Byte, tail: seq<Byte>)
    requires |a| == 8 && |d| == 2 && |e| == 4 && |f| == 2
    ensures var w := a + [b] + [c] + d + e + f + [g] + tail;
            && |w| == HEADER + |tail| && w[8] == b && w[9] == c && w[18] == g && w[19..] == tail
            && w[..8] == a && w[10..12] == d && w[12..16] == e && w[16..18] == f
  {
  }

  /** Where everything is in the bytes of an event: the time in bytes 0 to 7, direction and protocol in
      bytes 8 and 9, the local port in 10 and 11, the remote address in 12 to 15, the remote port in 16
      and 17, and in byte 18 whether the call was made: 0 if not yet, 1, or 255 for a failure. Then comes
      the error number of a failure, or the length of the data and the data. */
  lemma Layout(e: Event)
    requires IsEvent(e)
    ensures var b := Encode(e);
            && |b| >= HEADER
            && (forall i: nat :: i < 8 ==> b[i] == e.time / Power(i) % 256)
            && b[8] == e.direction && b[9] == e.proto
            && (forall i: nat :: i < 2 ==> b[10 + i] == e.lport / Power(i) % 256)
            && (forall i: nat :: i < 4 ==> b[12 + i] == e.addr / Power(i) % 256)
            && (forall i: nat :: i < 2 ==> b[16 + i] == e.port / Power(i) % 256)
            && b[18] == (if !e.done && !e.aborted then 0 else if e.result == -1 then 255 else 1)
            && (b[18] == 255 ==> b[19..] == Le(Unsigned(e.errno, 4), 4))
            && ((e.direction == 1 || e.direction == 2) && e.result != -1 ==> b[19..] == Le(e.len, 4) + e.bytes[..e.len])
            && (b[18] != 255 && ((e.direction != 1 && e.direction != 2) || e.result == -1) ==> |b| == HEADER)
  {
    EncodeParts(e);
    var success := if !e.done && !e.aborted then 0 else if e.result == -1 then 255 else 1;
    var tail := (if success == 255 then Le(Unsigned(e.errno, 4), 4) else [])
                + (if (e.direction == 1 || e.direction == 2) && e.result != -1 then Le(e.len, 4) + e.bytes[..e.len] else []);
    PartsAt(Le(e.time, 8), e.direction, e.proto, Le(e.lport, 2), Le(e.addr, 4), Le(e.port, 2), success, tail);
    hide Encode, Le, Power, Unsigned, Fits;
    var b := Encode(e);
    forall i: nat | i < 8 ensures b[i] == e.time / Power(i) % 256 {
      LeAt(e.time, 8, i);
      assert b[i] == b[..8][i];
    }
    forall i: nat | i < 2 ensures b[10 + i] == e.lport / Power(i) % 256 && b[16 + i] == e.port / Power(i) % 256 {
      LeAt(e.lport, 2, i);
      LeAt(e.port, 2, i);
      assert b[10 + i] == b[10..12][i] && b[16 + i] == b[16..18][i];
    }
    forall i: nat | i < 4 ensures b[12 + i] == e.addr / Power(i) % 256 {
      LeAt(e.addr, 4, i);
      assert b[12 + i] == b[12..16][i];
    }
  }

  // ----- what reversal changes -----

  /** The other direction of data; other kinds have none. */
  function Opposite(kind: int): int {
    if kind == 1 then 2 else if kind == 2 then 1 else kind
  }

  /** Reading a reversed file gives as many entries, with nothing left over; each is the entry of the
      file but for its kind, where reading becomes writing and writing reading. */
  lemma ReverseEntries(b: seq<Byte>)
    ensures ReadAll(Reverse(b)).1 == [] && |ReadAll(Reverse(b)).0| == |ReadAll(b).0|
    ensures forall i :: 0 <= i < |ReadAll(b).0| ==>
              ReadAll(Reverse(b)).0[i] == ReadAll(b).0[i].(kind := Opposite(ReadAll(b).0[i].kind))
  {
    var es := ReadAll(b).0;
    WriteAllOfReadAll(b);
    forall i | 0 <= i < |es| ensures WellFormed(Swap(es[i])) && Swap(es[i]) == es[i].(kind := Opposite(es[i].kind)) {
      SwapKeepsWellFormed(es[i]);
    }
    hide WellFormed, Swap, WriteAll, ReadAll;
    ReadAllOfWriteAll(SwapAll(es));
  }

  /** Byte `i` of a file is the kind of one of its entries. */
  predicate IsKindByte(b: seq<Byte>, i: nat)
    decreases |b|
  {
    match ReadEntry(b)
    case None => false
    case Some((e, rest)) => i == 8 || (|b| - |rest| <= i && IsKindByte(rest, i - (|b| - |rest|)))
  }

  lemma EntryBytes(r: Record)
    requires WellFormed(r)
    ensures |WriteEntry(r)| >= HEADER && WriteEntry(r)[8] == Unsigned(r.kind, 1)
  {
    Powers();
    UnsignedByte(r.kind);
    SmallByte(Unsigned(r.kind, 1));
    hide Le, Fits, Power, Unsigned;
    assert WriteEntry(r)[8] == Header(r)[8];
  }

  lemma UnsignedByte(i: int)
    ensures 0 <= Unsigned(i, 1) < 256
  {
    Powers();
  }

  lemma KindCodes(kind: int)
    requires Fits(kind, 1)
    ensures Unsigned(kind, 1) == 1 <==> kind == 1
    ensures Unsigned(kind, 1) == 2 <==> kind == 2
  {
    Powers();
    WrapOnce(kind, 256);
  }

  /** Two headers that differ in the kind differ in one byte. */
  lemma HeadersDiffer(r: Record, kind: int)
    requires |r.addr| == 4
    ensures var s := r.(kind := kind);
            forall i :: 0 <= i < HEADER && i != 8 ==> Header(s)[i] == Header(r)[i]
  {
    hide Le, Unsigned;
  }

  lemma EntriesDiffer(r: Record)
    requires WellFormed(r)
    ensures var s := Swap(r);
            && |s.addr| == 4 && |WriteEntry(s)| == |WriteEntry(r)| && |WriteEntry(r)| >= HEADER
            && (forall i :: 0 <= i < |WriteEntry(r)| && i != 8 ==> WriteEntry(s)[i] == WriteEntry(r)[i])
            && WriteEntry(s)[8] == (var k := WriteEntry(r)[8]; if k == 1 || k == 2 then 3 - k else k)
  {
    SwapKeepsWellFormed(r);
    EntryBytes(r);
    EntryBytes(Swap(r));
    KindCodes(r.kind);
    KindCodes(Swap(r).kind);
    HeadersDiffer(r, Swap(r).kind);
    SameTail(r);
    hide Header, WellFormed, Unsigned, Le, WriteEntry;
  }

  lemma SameTail(r: Record)
    requires WellFormed(r) && |r.addr| == 4
    ensures var tail := WriteEntry(r)[HEADER..];
            WriteEntry(r) == Header(r) + tail && WriteEntry(Swap(r)) == Header(Swap(r)) + tail
  {
    hide Header, Unsigned, Le;
  }

  /** Byte by byte, the reversed file is the part of the file that can be read, but for the kind bytes of
      data entries, where 1 and 2 are exchanged. */
  lemma {:induction false} ReverseBytes(b: seq<Byte>)
    ensures |Reverse(b)| + |ReadAll(b).1| == |b|
    ensures forall i: nat :: i < |Reverse(b)| ==>
              Reverse(b)[i] == if IsKindByte(b, i) && (b[i] == 1 || b[i] == 2) then 3 - b[i] else b[i]
    decreases |b|
  {
    hide ReadEntry, WriteEntry, Swap, WellFormed;
    ReverseUnfolds(b);
    match ReadEntry(b)
    case None =>
    case Some((e, rest)) =>
      WriteOfRead(b);
      EntriesDiffer(e);
      ReverseBytes(rest);
      var n := |b| - |rest|;
      assert b == WriteEntry(e) + rest && n == |WriteEntry(e)|;
      forall i: nat | i < |Reverse(b)|
        ensures Reverse(b)[i] == if IsKindByte(b, i) && (b[i] == 1 || b[i] == 2) then 3 - b[i] else b[i]
      {
        NextKindByte(b, e, rest, i);
        if i < n {
          assert Reverse(b)[i] == WriteEntry(Swap(e))[i] && b[i] == WriteEntry(e)[i];
        } else {
          assert Reverse(b)[i] == Reverse(rest)[i - n] && b[i] == rest[i - n];
        }
      }
  }

  lemma NextKindByte(b: seq<Byte>, e: Record, rest: seq<Byte>, i: nat)
    requires ReadEntry(b) == Some((e, rest))
    ensures IsKindByte(b, i) <==> i == 8 || (|b| - |rest| <= i && IsKindByte(rest, i - (|b| - |rest|)))
  {
    hide ReadEntry;
  }

  lemma ReverseUnfolds(b: seq<Byte>)
    ensures match ReadEntry(b)
            case None => Reverse(b) == [] && ReadAll(b).1 == b
            case Some((e, rest)) => Reverse(b) == WriteEntry(Swap(e)) + Reverse(rest) && ReadAll(b).1 == ReadAll(rest).1
  {
    hide ReadEntry, WriteEntry, Swap;
    var es := ReadAll(b).0;
    match ReadEntry(b)
    case None =>
      assert SwapAll(es) == [];
    case Some((e, rest)) =>
      assert SwapAll(es)[0] == Swap(e) && SwapAll(es)[1..] == SwapAll(ReadAll(rest).0);
  }
}
