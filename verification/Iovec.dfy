/** Vectored calls (`src/binding.c`): the bytes read are scattered over the caller's
    vectors, the bytes written are gathered from them, and a gathered buffer is cut
    into vectors again. */
module Iovec {
  type Byte = bv8

  /** All the bytes of some vectors, in order. */
  function Concat(vs: seq<seq<Byte>>): (r: seq<Byte>)
    ensures |r| == Total(Lengths(vs))
  {
    if vs == [] then [] else vs[0] + Concat(vs[1..])
  }

  function Lengths(vs: seq<seq<Byte>>): (r: seq<nat>)
    ensures |r| == |vs| && forall i :: 0 <= i < |vs| ==> r[i] == |vs[i]|
  {
    if vs == [] then [] else [|vs[0]|] + Lengths(vs[1..])
  }

  function Total(ls: seq<nat>): nat {
    if ls == [] then 0 else ls[0] + Total(ls[1..])
  }

  lemma {:induction false} TotalSnoc(ls: seq<nat>, n: nat)
    requires n < |ls|
    ensures Total(ls[..n + 1]) == Total(ls[..n]) + ls[n]
    ensures Total(ls[..n + 1]) <= Total(ls)
  {
    if n == 0 {
      assert ls[..1][1..] == [];
    } else {
      assert ls[..n + 1][1..] == ls[1..][..n] && ls[..n][1..] == ls[1..][..n - 1];
      TotalSnoc(ls[1..], n - 1);
    }
  }

  lemma {:induction false} TotalPrefix(ls: seq<nat>, n: nat)
    requires n <= |ls|
    ensures Total(ls[..n]) + Total(ls[n..]) == Total(ls)
  {
    if n > 0 {
      assert ls[..n][1..] == ls[1..][..n - 1] && ls[n..] == ls[1..][n - 1..];
      TotalPrefix(ls[1..], n - 1);
    } else {
      assert ls[n..] == ls;
    }
  }

  // ----- the vectors of the caller, as arrays -----

  ghost predicate Separate(vect: seq<array<Byte>>) {
    forall i, j :: 0 <= i < j < |vect| ==> vect[i] != vect[j]
  }

  ghost function Contents(vect: seq<array<Byte>>): (r: seq<seq<Byte>>)
    reads vect
    ensures |r| == |vect| && forall i :: 0 <= i < |vect| ==> r[i] == vect[i][..]
  {
    seq(|vect|, i requires 0 <= i < |vect| reads vect => vect[i][..])
  }

  function ArrayLengths(vect: seq<array<Byte>>): (r: seq<nat>)
    ensures |r| == |vect| && forall i :: 0 <= i < |vect| ==> r[i] == vect[i].Length
  {
    seq(|vect|, i requires 0 <= i < |vect| => vect[i].Length)
  }

  method TotalLength(vect: seq<array<Byte>>) returns (buflen: nat)
    ensures buflen == Total(ArrayLengths(vect))
  {
    buflen := 0;
    ghost var ls := ArrayLengths(vect);
    assert ls[..0] == [];
    for i := 0 to |vect|
      invariant buflen == Total(ls[..i])
    {
      TotalSnoc(ls, i);
      buflen := buflen + vect[i].Length;
    }
    assert ls[..|vect|] == ls;
  }

  // ----- scatter -----

  /** Vectors overwritten with `data` from their start on, as far as it goes. */
  function Scattered(vs: seq<seq<Byte>>, data: seq<Byte>): (r: seq<seq<Byte>>)
    ensures |r| == |vs|
    ensures forall i :: 0 <= i < |vs| ==> |r[i]| == |vs[i]|
  {
    if vs == [] then []
    else
      var n := if |data| >= |vs[0]| then |vs[0]| else |data|;
      [data[..n] + vs[0][n..]] + Scattered(vs[1..], data[n..])
  }

  lemma DropConcat(a: seq<Byte>, b: seq<Byte>, k: nat)
    requires k <= |a| + |b|
    ensures (a + b)[k..] == if k <= |a| then a[k..] + b else b[k - |a|..]
  {
  }

  lemma JoinAgain(a: seq<Byte>, n: nat, b: seq<Byte>)
    requires n <= |a|
    ensures a[..n] + (a[n..] + b) == a + b
  {
  }

  lemma ScatterHead(v: seq<Byte>, rest: seq<Byte>, data: seq<Byte>, tail: seq<Byte>)
    requires |data| <= |v| + |rest|
    requires var n := if |data| >= |v| then |v| else |data|;
             tail == data[n..] + rest[|data| - n..]
    ensures var n := if |data| >= |v| then |v| else |data|;
            (data[..n] + v[n..]) + tail == data + (v + rest)[|data|..]
  {
    DropConcat(v, rest, |data|);
    var n := if |data| >= |v| then |v| else |data|;
    if |data| >= |v| {
      JoinAgain(data, n, rest[|data| - n..]);
      assert data[..n] + v[n..] == data[..n];
    } else {
      assert data[..n] == data && tail == rest;
    }
  }

  /** Scattering leaves the vectors equal to the data on its length and unchanged beyond. */
  lemma {:induction false} ScatterIsOverwrite(vs: seq<seq<Byte>>, data: seq<Byte>)
    requires |data| <= |Concat(vs)|
    ensures Concat(Scattered(vs, data)) == data + Concat(vs)[|data|..]
  {
    if vs != [] {
      var v, rest := vs[0], Concat(vs[1..]);
      var n := if |data| >= |v| then |v| else |data|;
      var r := Scattered(vs, data);
      assert r[0] == data[..n] + v[n..] && r[1..] == Scattered(vs[1..], data[n..]);
      ScatterIsOverwrite(vs[1..], data[n..]);
      assert Concat(vs) == v + rest && Concat(r) == r[0] + Concat(r[1..]);
      ScatterHead(v, rest, data, Concat(r[1..]));
    }
  }

  /** `piece` copied over the start of vector `i`. */
  method CopyOne(vect: seq<array<Byte>>, i: nat, piece: seq<Byte>)
    requires Separate(vect) && i < |vect| && |piece| <= vect[i].Length
    modifies vect[i]
    ensures Contents(vect) == old(Contents(vect))[i := piece + old(vect[i][..])[|piece|..]]
  {
    CopyInto(vect[i], piece);
    hide Contents;
    forall j | 0 <= j < |vect| && j != i ensures Contents(vect)[j] == old(Contents(vect))[j] {
      assert vect[j] != vect[i];
    }
  }

  method CopyInto(v: array<Byte>, data: seq<Byte>)
    requires |data| <= v.Length
    modifies v
    ensures v[..] == data + old(v[..])[|data|..]
  {
    forall k | 0 <= k < |data| {
      v[k] := data[k];
    }
  }

  /** From vector `i` on, scattering `data` is scattering what is left of it from `pos` on. */
  predicate LeftToScatter(vs: seq<seq<Byte>>, data: seq<Byte>, i: nat, pos: nat) {
    i <= |vs| && pos <= |data| && Scattered(vs, data)[i..] == Scattered(vs[i..], data[pos..])
  }

  lemma ScatteredUnfolds(vs: seq<seq<Byte>>, data: seq<Byte>, i: nat, pos: nat, n: nat)
    requires i < |vs| && LeftToScatter(vs, data, i, pos)
    requires n == if |data| - pos >= |vs[i]| then |vs[i]| else |data| - pos
    ensures Scattered(vs, data)[i] == data[pos..pos + n] + vs[i][n..]
    ensures LeftToScatter(vs, data, i + 1, pos + n)
  {
    var rest, left := vs[i..], data[pos..];
    assert rest[0] == vs[i] && rest[1..] == vs[i + 1..];
    assert left[..n] == data[pos..pos + n] && left[n..] == data[pos + n..];
    assert Scattered(vs, data)[i..][0] == Scattered(vs, data)[i];
    assert Scattered(vs, data)[i + 1..] == Scattered(vs, data)[i..][1..] == Scattered(rest, left)[1..];
  }

  /** The first `i` vectors are as they will be, the others as they were. */
  predicate Halfway(now: seq<seq<Byte>>, result: seq<seq<Byte>>, before: seq<seq<Byte>>, i: nat) {
    |now| == |result| == |before| && i <= |now| && now[..i] == result[..i] && now[i..] == before[i..]
  }

  lemma OneFurther(now: seq<seq<Byte>>, result: seq<seq<Byte>>, before: seq<seq<Byte>>, i: nat)
    requires i < |now| && Halfway(now, result, before, i)
    ensures now[i] == before[i]
    ensures Halfway(now[i := result[i]], result, before, i + 1)
  {
    assert now[i] == now[i..][0] && before[i] == before[i..][0];
    assert now[i := result[i]][..i + 1] == now[..i] + [result[i]] && result[..i + 1] == result[..i] + [result[i]];
    assert now[i := result[i]][i + 1..] == now[i..][1..] && before[i + 1..] == before[i..][1..];
  }

  lemma ScatterEnds(now: seq<seq<Byte>>, before: seq<seq<Byte>>, data: seq<Byte>, i: nat, pos: nat)
    requires LeftToScatter(before, data, i, pos) && Halfway(now, Scattered(before, data), before, i)
    requires i == |before| || pos == |data|
    ensures now == Scattered(before, data)
  {
    hide Scattered;
    var result := Scattered(before, data);
    if i < |before| {
      assert data[pos..] == [];
      ScatterNothing(before[i..]);
    }
    assert now[i..] == result[i..];
    assert now == now[..i] + now[i..] && result == result[..i] + result[i..];
  }

  lemma ScatterStarts(before: seq<seq<Byte>>, data: seq<Byte>)
    ensures LeftToScatter(before, data, 0, 0) && Halfway(before, Scattered(before, data), before, 0)
  {
    assert before[0..] == before && data[0..] == data && Scattered(before, data)[0..] == Scattered(before, data);
  }

  /** One round of the copy loop. */
  method ScatterRound(vect: seq<array<Byte>>, piece: seq<Byte>, i: nat, ghost before: seq<seq<Byte>>, ghost data: seq<Byte>, ghost pos: nat)
    requires Separate(vect) && i < |vect| && |before| == |vect|
    requires Halfway(Contents(vect), Scattered(before, data), before, i) && LeftToScatter(before, data, i, pos)
    requires |piece| == (if |data| - pos >= vect[i].Length then vect[i].Length else |data| - pos) && pos + |piece| <= |data|
    requires piece == data[pos..pos + |piece|]
    modifies vect[i]
    ensures Halfway(Contents(vect), Scattered(before, data), before, i + 1) && LeftToScatter(before, data, i + 1, pos + |piece|)
  {
    hide Scattered, Contents, LeftToScatter, Halfway;
    OneFurther(Contents(vect), Scattered(before, data), before, i);
    ScatteredUnfolds(before, data, i, pos, |piece|);
    CopyOne(vect, i, piece);
  }

  /** The copy loop after a vectored read that returned `ret` bytes in `buf`. */
  method Scatter(vect: seq<array<Byte>>, buf: seq<Byte>, ret: int)
    requires Separate(vect) && ret <= |buf|
    modifies vect
    ensures Contents(vect) == Scattered(old(Contents(vect)), if ret > 0 then buf[..ret] else [])
  {
    hide Scattered, Contents, LeftToScatter, Halfway;
    ghost var before := Contents(vect);
    var data := if ret > 0 then buf[..ret] else [];
    var lret, pos := ret, 0;
    var i := 0;
    ScatterStarts(before, data);
    while i < |vect| && lret > 0
      invariant 0 <= i <= |vect| && 0 <= pos <= |data| && (if ret > 0 then lret == |data| - pos else pos == 0 && lret == ret)
      invariant Halfway(Contents(vect), Scattered(before, data), before, i) && LeftToScatter(before, data, i, pos)
    {
      var toRead := if lret >= vect[i].Length then vect[i].Length else lret;
      lret := lret - toRead;
      ScatterRound(vect, data[pos..pos + toRead], i, before, data, pos);
      pos := pos + toRead;
      i := i + 1;
    }
    ScatterEnds(Contents(vect), before, data, i, pos);
  }

  lemma {:induction false} ScatterNothing(vs: seq<seq<Byte>>)
    ensures Scattered(vs, []) == vs
  {
    if vs != [] {
      ScatterNothing(vs[1..]);
      var none: seq<Byte> := [];
      assert none[..0] + vs[0][0..] == vs[0] && none[0..] == none;
      assert vs == [vs[0]] + vs[1..];
    }
  }

  // ----- gather -----

  /** The buffer holds the vectors before `i`; the others fill it up. */
  predicate LeftToGather(vs: seq<seq<Byte>>, buf: seq<Byte>, i: nat, pos: nat) {
    i <= |vs| && pos <= |buf| && buf[..pos] + Concat(vs[i..]) == Concat(vs) && pos + |Concat(vs[i..])| == |buf|
  }

  lemma RoomForNext(vs: seq<seq<Byte>>, buf: seq<Byte>, i: nat, pos: nat)
    requires i < |vs| && LeftToGather(vs, buf, i, pos)
    ensures pos + |vs[i]| <= |buf| && Concat(vs[i..]) == vs[i] + Concat(vs[i + 1..])
  {
    assert vs[i..][0] == vs[i] && vs[i..][1..] == vs[i + 1..];
  }

  /** Copying the next vector to its place leaves one vector less to gather. */
  lemma GatherStep(vs: seq<seq<Byte>>, buf: seq<Byte>, after: seq<Byte>, i: nat, pos: nat)
    requires i < |vs| && LeftToGather(vs, buf, i, pos) && pos + |vs[i]| <= |after| == |buf|
    requires after[..pos] == buf[..pos] && after[pos..pos + |vs[i]|] == vs[i]
    ensures LeftToGather(vs, after, i + 1, pos + |vs[i]|)
  {
    RoomForNext(vs, buf, i, pos);
    hide Concat;
    var rest := Concat(vs[i + 1..]);
    assert after[..pos + |vs[i]|] == after[..pos] + after[pos..pos + |vs[i]|];
    assert buf[..pos] + (vs[i] + rest) == (buf[..pos] + vs[i]) + rest;
  }

  lemma GatherEnds(vs: seq<seq<Byte>>, buf: seq<Byte>, pos: nat)
    requires LeftToGather(vs, buf, |vs|, pos)
    ensures buf == Concat(vs)
  {
    ConcatNothing(vs[|vs|..]);
    assert buf[..pos] == buf;
  }

  lemma GatherStarts(vs: seq<seq<Byte>>, buf: seq<Byte>)
    requires |buf| == |Concat(vs)|
    ensures LeftToGather(vs, buf, 0, 0)
  {
    assert vs[0..] == vs && buf[..0] == [];
  }

  lemma SameLengths(vect: seq<array<Byte>>)
    ensures |Concat(Contents(vect))| == Total(ArrayLengths(vect))
  {
    assert Lengths(Contents(vect)) == ArrayLengths(vect);
  }

  /** One round of the copy loop. */
  method GatherRound(vect: seq<array<Byte>>, buf: array<Byte>, i: nat, pos: nat)
    requires i < |vect| && buf !in vect && LeftToGather(Contents(vect), buf[..], i, pos)
    modifies buf
    ensures Contents(vect) == old(Contents(vect))
    ensures LeftToGather(Contents(vect), buf[..], i + 1, pos + vect[i].Length)
  {
    hide Concat, LeftToGather, Contents;
    ghost var before, vs := buf[..], Contents(vect);
    RoomForNext(vs, before, i, pos);
    CopyAt(buf, pos, vect[i]);
    GatherStep(vs, before, buf[..], i, pos);
  }

  /** The loop that copies all vectors into one buffer before a vectored write. */
  method Gather(vect: seq<array<Byte>>) returns (buf: array<Byte>)
    ensures fresh(buf) && buf[..] == Concat(Contents(vect))
  {
    hide Concat, Total, Contents, LeftToGather;
    var n := TotalLength(vect);
    SameLengths(vect);
    buf := new Byte[n];
    GatherStarts(Contents(vect), buf[..]);
    var pos := 0;
    for i := 0 to |vect|
      invariant 0 <= pos && LeftToGather(Contents(vect), buf[..], i, pos)
      invariant Contents(vect) == old(Contents(vect))
    {
      GatherRound(vect, buf, i, pos);
      pos := pos + vect[i].Length;
    }
    GatherEnds(Contents(vect), buf[..], pos);
  }

  lemma ConcatNothing(vs: seq<seq<Byte>>)
    requires vs == []
    ensures Concat(vs) == []
  {
  }

  method CopyAt(buf: array<Byte>, pos: nat, v: array<Byte>)
    requires pos + v.Length <= buf.Length && buf != v
    modifies buf
    ensures buf[..][..pos] == old(buf[..])[..pos] && buf[..][pos..pos + v.Length] == v[..]
  {
    forall k | 0 <= k < v.Length {
      buf[pos + k] := v[k];
    }
  }

  // ----- partition -----

  /** How many vectors are needed to cover `len` bytes: as many as it takes, or all of them. */
  function Needed(ls: seq<nat>, len: nat): (nb: nat)
    ensures nb <= |ls|
  {
    if ls == [] || len == 0 then 0 else 1 + Needed(ls[1..], if len > ls[0] then len - ls[0] else 0)
  }

  /** The lengths into which `len` bytes are cut. */
  function Pieces(ls: seq<nat>, len: nat): (r: seq<nat>)
    ensures |r| == |ls|
  {
    if ls == [] then []
    else
      var n := if len > ls[0] then ls[0] else len;
      [n] + Pieces(ls[1..], len - n)
  }

  function Partition(ls: seq<nat>, len: nat): seq<nat> {
    Pieces(ls[..Needed(ls, len)], len)
  }

  /** The first loop of the send callback: how many vectors to use. */
  method CountNeeded(ls: seq<nat>, len: nat) returns (nb: nat)
    ensures nb == Needed(ls, len)
  {
    nb := 0;
    var blen := 0;
    assert ls[0..] == ls;
    while nb < |ls| && blen < len
      invariant 0 <= nb <= |ls|
      invariant Needed(ls, len) == nb + Needed(ls[nb..], if blen < len then len - blen else 0)
    {
      assert ls[nb..][0] == ls[nb] && ls[nb..][1..] == ls[nb + 1..];
      blen := blen + ls[nb];
      nb := nb + 1;
    }
  }

  predicate LeftToCut(ls: seq<nat>, len: nat, pieces: seq<nat>, left: nat) {
    |pieces| <= |ls| && pieces + Pieces(ls[|pieces|..], left) == Pieces(ls, len)
  }

  lemma CutUnfolds(ls: seq<nat>, len: nat, pieces: seq<nat>, left: nat)
    requires |pieces| < |ls| && LeftToCut(ls, len, pieces, left)
    ensures var n := if left > ls[|pieces|] then ls[|pieces|] else left;
            LeftToCut(ls, len, pieces + [n], left - n)
  {
    var i := |pieces|;
    var n := if left > ls[i] then ls[i] else left;
    assert ls[i..][0] == ls[i] && ls[i..][1..] == ls[i + 1..];
    assert pieces + ([n] + Pieces(ls[i + 1..], left - n)) == (pieces + [n]) + Pieces(ls[i + 1..], left - n);
  }

  lemma CutStartsAndEnds(ls: seq<nat>, len: nat, pieces: seq<nat>, left: nat)
    ensures LeftToCut(ls, len, [], len)
    ensures |pieces| == |ls| && LeftToCut(ls, len, pieces, left) ==> pieces == Pieces(ls, len)
  {
    assert ls[0..] == ls && ls[|ls|..] == [];
  }

  /** The second loop: the vectors that cut a buffer of `len` bytes. */
  method PartitionLengths(ls: seq<nat>, len: nat) returns (pieces: seq<nat>)
    ensures pieces == Partition(ls, len)
  {
    hide LeftToCut, Pieces, Needed;
    var nb := CountNeeded(ls, len);
    var used := ls[..nb];
    var left := len;
    pieces := [];
    CutStartsAndEnds(used, len, [], 0);
    for i := 0 to nb
      invariant left >= 0 && |pieces| == i && LeftToCut(used, len, pieces, left)
    {
      CutUnfolds(used, len, pieces, left);
      var n := if left > used[i] then used[i] else left;
      pieces := pieces + [n];
      left := left - n;
    }
    CutStartsAndEnds(used, len, pieces, left);
  }

  /** The vectors that are used are the fewest that have room for the length: all of them if they have not. */
  lemma {:induction false} NeededIff(ls: seq<nat>, len: nat, nb: nat)
    requires nb <= |ls|
    ensures Needed(ls, len) == nb
            <==> (len <= Total(ls[..nb]) || nb == |ls|) && (forall i: nat :: i < nb ==> Total(ls[..i]) < len)
    decreases |ls|
  {
    assert ls[..0] == [] && Total([]) == 0;
    if ls != [] && len > 0 && nb > 0 {
      var rest := if len > ls[0] then len - ls[0] else 0;
      NeededIff(ls[1..], rest, nb - 1);
      forall i: nat | 0 < i <= nb ensures Total(ls[..i]) == ls[0] + Total(ls[1..][..i - 1]) {
        TotalFirst(ls, i);
      }
      forall i: nat ensures i < nb - 1 && Total(ls[1..][..i]) >= rest ==> i + 1 < nb && Total(ls[..i + 1]) >= len {
        if i < nb - 1 {
          TotalFirst(ls, i + 1);
        }
      }
      if forall i: nat :: i < nb - 1 ==> Total(ls[1..][..i]) < rest {
        forall i: nat | i < nb ensures Total(ls[..i]) < len {
          if i > 0 {
            TotalFirst(ls, i);
            assert Total(ls[1..][..i - 1]) < rest;
          }
        }
      }
    } else if nb > 0 && ls != [] {
      assert Total(ls[..0]) == 0;
    }
  }

  lemma TotalFirst(ls: seq<nat>, i: nat)
    requires 0 < i <= |ls|
    ensures Total(ls[..i]) == ls[0] + Total(ls[1..][..i - 1])
  {
    assert ls[..i][1..] == ls[1..][..i - 1];
  }

  /** Each vector takes what is left of the length, as far as it has room. */
  lemma {:induction false} PieceIs(ls: seq<nat>, len: nat, i: nat)
    requires i < |ls|
    ensures Pieces(ls, len)[i] == var left := len - Total(ls[..i]); if left <= 0 then 0 else if left > ls[i] then ls[i] else left
  {
    var n := if len > ls[0] then ls[0] else len;
    if i > 0 {
      TotalFirst(ls, i);
      PieceIs(ls[1..], len - n, i - 1);
      if len <= ls[0] {
        assert len - n == 0;
      }
    } else {
      assert ls[..0] == [];
    }
  }

  lemma {:induction false} PiecesFit(ls: seq<nat>, len: nat)
    ensures forall i :: 0 <= i < |ls| ==> Pieces(ls, len)[i] <= ls[i]
    ensures Total(Pieces(ls, len)) == if len <= Total(ls) then len else Total(ls)
  {
    if ls != [] {
      var n := if len > ls[0] then ls[0] else len;
      PiecesFit(ls[1..], len - n);
      assert Pieces(ls, len)[1..] == Pieces(ls[1..], len - n);
    }
  }

  lemma {:induction false} NeededSuffices(ls: seq<nat>, len: nat)
    requires len <= Total(ls)
    ensures len <= Total(ls[..Needed(ls, len)])
    decreases |ls|
  {
    if ls != [] && len > 0 {
      var rest := if len > ls[0] then len - ls[0] else 0;
      NeededSuffices(ls[1..], rest);
      var nb := Needed(ls, len);
      assert ls[..nb][1..] == ls[1..][..nb - 1];
    }
  }

  /** A buffer no longer than all vectors is cut into pieces that cover it exactly
      once, in order, each no longer than the vector it stands for. */
  lemma PartitionCovers(ls: seq<nat>, len: nat)
    requires len <= Total(ls)
    ensures Total(Partition(ls, len)) == len
    ensures |Partition(ls, len)| <= |ls|
    ensures forall i :: 0 <= i < |Partition(ls, len)| ==> Partition(ls, len)[i] <= ls[i]
  {
    NeededSuffices(ls, len);
    PiecesFit(ls[..Needed(ls, len)], len);
  }

  /** Bytes cut at the given lengths. */
  function Cut(bytes: seq<Byte>, ls: seq<nat>): (r: seq<seq<Byte>>)
    requires Total(ls) == |bytes|
    ensures |r| == |ls| && Lengths(r) == ls
  {
    if ls == [] then [] else [bytes[..ls[0]]] + Cut(bytes[ls[0]..], ls[1..])
  }

  /** The pieces are the buffer: nothing is lost, repeated or out of order. */
  lemma {:induction false} CutConcat(bytes: seq<Byte>, ls: seq<nat>)
    requires Total(ls) == |bytes|
    ensures Concat(Cut(bytes, ls)) == bytes
  {
    if ls != [] {
      var r := Cut(bytes, ls);
      assert r[1..] == Cut(bytes[ls[0]..], ls[1..]);
      CutConcat(bytes[ls[0]..], ls[1..]);
      assert bytes == bytes[..ls[0]] + bytes[ls[0]..];
    }
  }

  lemma {:induction false} PiecesOfAll(ls: seq<nat>)
    ensures Pieces(ls, Total(ls)) == ls
  {
    if ls != [] {
      PiecesOfAll(ls[1..]);
    }
  }

  /** What cutting at the full length keeps: all vectors up to some point, and only empty ones are left off. */
  lemma {:induction false} NeededForAll(ls: seq<nat>)
    ensures Total(ls[Needed(ls, Total(ls))..]) == 0
    ensures forall i :: Needed(ls, Total(ls)) <= i < |ls| ==> ls[i] == 0
  {
    if ls != [] {
      if Total(ls) == 0 {
        ZeroTotal(ls);
        assert ls[0..] == ls;
      } else {
        NeededForAll(ls[1..]);
        var nb := Needed(ls, Total(ls));
        if Total(ls[1..]) == 0 {
          ZeroTotal(ls[1..]);
        }
        assert ls[nb..] == ls[1..][nb - 1..];
      }
    }
  }

  lemma {:induction false} ZeroTotal(ls: seq<nat>)
    requires Total(ls) == 0
    ensures forall i :: 0 <= i < |ls| ==> ls[i] == 0
  {
    if ls != [] {
      ZeroTotal(ls[1..]);
    }
  }

  lemma {:induction false} CutOfConcat(vs: seq<seq<Byte>>)
    ensures Cut(Concat(vs), Lengths(vs)) == vs
  {
    if vs != [] {
      var bytes := Concat(vs);
      assert bytes[..|vs[0]|] == vs[0] && bytes[|vs[0]|..] == Concat(vs[1..]);
      CutOfConcat(vs[1..]);
    }
  }

  /** Gathering vectors and cutting the gathered buffer at its full length gives the
      vectors back, except for empty ones at the end. */
  lemma GatherThenPartition(vs: seq<seq<Byte>>)
    ensures var ls := Lengths(vs);
            var nb := Needed(ls, Total(ls));
            && Partition(ls, Total(ls)) == ls[..nb]
            && Total(ls[..nb]) == |Concat(vs)|
            && Cut(Concat(vs), ls[..nb]) == vs[..nb]
            && forall i :: nb <= i < |vs| ==> vs[i] == []
  {
    var ls := Lengths(vs);
    var nb := Needed(ls, Total(ls));
    NeededForAll(ls);
    TotalPrefix(ls, nb);
    PiecesOfAll(ls[..nb]);
    assert Lengths(vs[..nb]) == ls[..nb];
    ConcatPrefix(vs, nb);
    CutOfConcat(vs[..nb]);
  }

  lemma {:induction false} ConcatPrefix(vs: seq<seq<Byte>>, nb: nat)
    requires nb <= |vs| && forall i :: nb <= i < |vs| ==> vs[i] == []
    ensures Concat(vs[..nb]) == Concat(vs)
  {
    if vs != [] {
      if nb > 0 {
        assert vs[..nb][1..] == vs[1..][..nb - 1];
        ConcatPrefix(vs[1..], nb - 1);
      } else {
        assert vs[1..][..0] == [];
        ConcatPrefix(vs[1..], 0);
      }
    }
  }
}
