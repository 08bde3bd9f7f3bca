/** The traffic graphs (`tools/graphlog.py`): log lines are added up per second, per
    address and globally; a ring of 60 slots gives the sum over the last minute. */
module Graph {
  import opened Options

  datatype Way = Read | Write

  /** What the mask of the script makes of the addresses of a line. */
  datatype Address = Address(text: string)

  /** The part of a log line that is used: time in milliseconds, direction, address and length. */
  datatype Line = Line(ms: nat, way: Way, address: Address, length: nat)

  /** The traffic of one second. */
  datatype Rate = Rate(length: int, packets: int)

  function Zero(): Rate {
    Rate(0, 0)
  }

  function Second(l: Line): nat {
    l.ms / 1000
  }

  // ----- what the aggregation means -----

  /** The lines of a log that count for an address (or for all), a way and a second. */
  predicate Counts(l: Line, address: Option<Address>, way: Way, second: int) {
    l.way == way && Second(l) == second && (address == None || address == Some(l.address))
  }

  function Plus(a: Rate, b: Rate): Rate {
    Rate(a.length + b.length, a.packets + b.packets)
  }

  /** The traffic of a log in one second. */
  function Traffic(log: seq<Line>, address: Option<Address>, way: Way, second: int): Rate {
    if log == [] then Zero()
    else
      var last := log[|log| - 1];
      var before := Traffic(log[..|log| - 1], address, way, second);
      if Counts(last, address, way, second) then Plus(before, Rate(last.length, 1)) else before
  }

  /** The traffic over the seconds from `first` to `last`. */
  function Window(log: seq<Line>, address: Option<Address>, way: Way, first: int, last: int): Rate
    decreases last - first + 1
  {
    if last < first then Zero()
    else Plus(Window(log, address, way, first, last - 1), Traffic(log, address, way, last))
  }

  /** The last minute before and including `second`, clipped at the start of the log. */
  function LastMinute(log: seq<Line>, address: Option<Address>, way: Way, min: int, second: int): Rate {
    Window(log, address, way, if second - 59 < min then min else second - 59, second)
  }

  /** All the traffic of a log. */
  function Total(log: seq<Line>, address: Option<Address>, way: Way): Rate {
    if log == [] then Zero()
    else
      var last := log[|log| - 1];
      var before := Total(log[..|log| - 1], address, way);
      if last.way == way && (address == None || address == Some(last.address)) then Rate(before.length + last.length, before.packets + 1) else before
  }

  lemma {:induction false} WindowSnoc(log: seq<Line>, l: Line, address: Option<Address>, way: Way, first: int, last: int)
    ensures Window(log + [l], address, way, first, last)
            == var before := Window(log, address, way, first, last);
               if Counts(l, address, way, Second(l)) && first <= Second(l) <= last then Plus(before, Rate(l.length, 1)) else before
    decreases last - first
  {
    hide Traffic;
    if first <= last {
      WindowSnoc(log, l, address, way, first, last - 1);
      TrafficSnoc(log, l, address, way, last);
    }
  }

  lemma {:induction false} NoLines(address: Option<Address>, way: Way, first: int, last: int)
    ensures Window([], address, way, first, last) == Zero()
    decreases last - first
  {
    if first <= last {
      NoLines(address, way, first, last - 1);
    }
  }

  /** Nothing is lost and nothing counted twice: the traffic of the seconds from the first to the last of a
      log adds up to the traffic of its lines. */
  lemma {:induction false} NothingIsLost(log: seq<Line>, address: Option<Address>, way: Way, first: int, last: int)
    requires forall l :: l in log ==> first <= Second(l) <= last
    ensures Window(log, address, way, first, last) == Total(log, address, way)
  {
    if log == [] {
      NoLines(address, way, first, last);
    } else {
      var n := |log| - 1;
      assert log == log[..n] + [log[n]];
      NothingIsLost(log[..n], address, way, first, last);
      WindowSnoc(log[..n], log[n], address, way, first, last);
    }
  }

  // ----- reading a log -----

  type Table = map<nat, Rate>

  function Lookup(t: Table, second: int): Rate {
    if second in t then t[second] else Zero()
  }

  function AddTo(t: Table, second: nat, length: nat): Table {
    t[second := Plus(Lookup(t, second), Rate(length, 1))]
  }

  /** The two tables kept for an address, or for all of them. */
  datatype Ways = Ways(read: Table, write: Table) {
    function Of(way: Way): Table {
      if way == Read then read else write
    }

    function With(way: Way, t: Table): Ways {
      if way == Read then Ways(t, write) else Ways(read, t)
    }
  }

  ghost predicate Sums(ws: Ways, log: seq<Line>, address: Option<Address>) {
    forall way, second: nat :: Lookup(ws.Of(way), second) == Traffic(log, address, way, second)
  }

  function Addresses(log: seq<Line>): set<Address> {
    set l | l in log :: l.address
  }

  lemma TrafficSnoc(log: seq<Line>, l: Line, a: Option<Address>, way: Way, second: int)
    ensures Traffic(log + [l], a, way, second)
            == if Counts(l, a, way, second) then Plus(Traffic(log, a, way, second), Rate(l.length, 1)) else Traffic(log, a, way, second)
  {
    assert (log + [l])[..|log|] == log;
  }

  lemma AddKeepsSums(ws: Ways, log: seq<Line>, l: Line, a: Option<Address>)
    requires Sums(ws, log, a) && (a == None || a == Some(l.address))
    ensures Sums(ws.With(l.way, AddTo(ws.Of(l.way), Second(l), l.length)), log + [l], a)
  {
    var after := ws.With(l.way, AddTo(ws.Of(l.way), Second(l), l.length));
    forall way, second: nat ensures Lookup(after.Of(way), second) == Traffic(log + [l], a, way, second) {
      TrafficSnoc(log, l, a, way, second);
      assert Lookup(ws.Of(way), second) == Traffic(log, a, way, second);
    }
  }

  lemma OthersKeepSums(ws: Ways, log: seq<Line>, l: Line, a: Address)
    requires Sums(ws, log, Some(a)) && a != l.address
    ensures Sums(ws, log + [l], Some(a))
  {
    forall way, second: nat ensures Lookup(ws.Of(way), second) == Traffic(log + [l], Some(a), way, second) {
      TrafficSnoc(log, l, Some(a), way, second);
    }
  }

  lemma NewKeepsSums(log: seq<Line>, a: Address)
    requires a !in Addresses(log)
    ensures Sums(Ways(map[], map[]), log, Some(a))
  {
    forall way, second: nat ensures Lookup(Ways(map[], map[]).Of(way), second) == Traffic(log, Some(a), way, second) {
      NoTraffic(log, a, way, second);
    }
  }

  lemma {:induction false} NoTraffic(log: seq<Line>, a: Address, way: Way, second: int)
    requires a !in Addresses(log)
    ensures Traffic(log, Some(a), way, second) == Zero()
  {
    if log != [] {
      var n := |log| - 1;
      assert log[n].address in Addresses(log);
      assert Addresses(log[..n]) <= Addresses(log);
      NoTraffic(log[..n], a, way, second);
    }
  }

  /** The tables that the script fills. */
  class Tables {
    var min: nat
    var max: nat
    var data: map<Address, Ways>
    var gdata: Ways

    constructor ()
      ensures Holds([])
    {
      min, max := 0, 0;
      data := map[];
      gdata := Ways(map[], map[]);
    }

    /** The tables hold the traffic of the log, per address and globally. */
    ghost predicate Holds(log: seq<Line>)
      reads this
    {
      && Sums(gdata, log, None)
      && data.Keys == Addresses(log)
      && (forall a :: a in data ==> Sums(data[a], log, Some(a)))
      && min == MinSecond(log) && max == MaxSecond(log)
    }

    /** The body of the loop over the lines of a log file. */
    method AddLine(l: Line, ghost log: seq<Line>)
      requires Holds(log)
      modifies this
      ensures Holds(log + [l])
    {
      hide Sums, Traffic, MinSecond, MaxSecond, Addresses, AddTo, Ways.With, Ways.Of;
      var time := l.ms / 1000;
      if min == 0 || min > time {
        min := time;
      }
      if max == 0 || max < time {
        max := time;
      }
      BoundsSnoc(log, l);
      if l.address !in data {
        NewKeepsSums(log, l.address);
        data := data[l.address := Ways(map[], map[])];
      }
      AddKeepsSums(data[l.address], log, l, Some(l.address));
      AddKeepsSums(gdata, log, l, None);
      forall a | a in data && a != l.address ensures Sums(data[a], log + [l], Some(a)) {
        OthersKeepSums(data[a], log, l, a);
      }
      AddressesSnoc(log, l);
      data := data[l.address := data[l.address].With(l.way, AddTo(data[l.address].Of(l.way), time, l.length))];
      gdata := gdata.With(l.way, AddTo(gdata.Of(l.way), time, l.length));
    }

    method ReadFile(log: seq<Line>, ghost before: seq<Line>)
      requires Holds(before)
      modifies this
      ensures Holds(before + log)
    {
      assert before + log[..0] == before;
      hide Holds;
      for i := 0 to |log|
        invariant Holds(before + log[..i])
      {
        AddLine(log[i], before + log[..i]);
        assert before + log[..i] + [log[i]] == before + log[..i + 1];
      }
      assert log[..|log|] == log;
    }
  }

  lemma AddressesSnoc(log: seq<Line>, l: Line)
    ensures Addresses(log + [l]) == Addresses(log) + {l.address}
  {
    assert (log + [l])[|log|] == l;
    forall a ensures a in Addresses(log) + {l.address} ==> a in Addresses(log + [l]) {
      if a in Addresses(log) {
        var k :| k in log && k.address == a;
        assert k in log + [l];
      }
    }
  }

  /** The start and end of the graphs, as the script updates them: 0 stands for none yet. */
  function MinSecond(log: seq<Line>): nat {
    if log == [] then 0
    else
      var m, t := MinSecond(log[..|log| - 1]), Second(log[|log| - 1]);
      if m == 0 || m > t then t else m
  }

  function MaxSecond(log: seq<Line>): nat {
    if log == [] then 0
    else
      var m, t := MaxSecond(log[..|log| - 1]), Second(log[|log| - 1]);
      if m == 0 || m < t then t else m
  }

  lemma BoundsSnoc(log: seq<Line>, l: Line)
    ensures MinSecond(log + [l]) == (if MinSecond(log) == 0 || MinSecond(log) > Second(l) then Second(l) else MinSecond(log))
    ensures MaxSecond(log + [l]) == (if MaxSecond(log) == 0 || MaxSecond(log) < Second(l) then Second(l) else MaxSecond(log))
  {
    assert (log + [l])[..|log|] == log;
  }

  /** For a log without lines of second 0, the bounds are the first and last second of the log. */
  lemma {:induction false} BoundsAreExact(log: seq<Line>)
    requires log != [] && forall l :: l in log ==> l.ms >= 1000
    ensures forall l :: l in log ==> MinSecond(log) <= Second(l) <= MaxSecond(log)
    ensures exists l :: l in log && Second(l) == MinSecond(log)
    ensures exists l :: l in log && Second(l) == MaxSecond(log)
  {
    var n := |log| - 1;
    var p := log[..n];
    assert log == p + [log[n]] && log[n] in log;
    if p != [] {
      BoundsAreExact(p);
      var a :| a in p && Second(a) == MinSecond(p);
      var b :| b in p && Second(b) == MaxSecond(p);
      assert a in log && b in log;
    }
  }

  // ----- the ring -----

  datatype Field = Length | Packets

  function FieldOf(r: Rate, f: Field): int {
    if f == Length then r.length else r.packets
  }

  /** What the script looks up for a second: 0 when there is no entry. */
  function Value(t: Table, f: Field, second: int): int {
    FieldOf(Lookup(t, second), f)
  }

  /** The sum of the values from second `first` to second `last`. */
  function Sum(t: Table, f: Field, first: int, last: int): int
    decreases last - first + 1
  {
    if last < first then 0 else Sum(t, f, first, last - 1) + Value(t, f, last)
  }

  function Start(min: int, second: int): int {
    if second - 59 < min then min else second - 59
  }

  type Ring = map<int, int>

  /** The sum over the slots `0..n` of a ring. */
  function SlotSum(ring: Ring, n: nat): int {
    if n == 0 then 0 else SlotSum(ring, n - 1) + (if n - 1 in ring then ring[n - 1] else 0)
  }

  /** What the script computes with `sum`: every key of a ring is a slot below 60. */
  function RingSum(ring: Ring): int {
    SlotSum(ring, 60)
  }

  /** The latest second up to `i` that falls on slot `j`. */
  function Latest(i: int, j: int): int {
    i - (i - j) % 60
  }

  /** After second `i`, each slot holds the latest second that falls on it, if there
      was one since `min`, and the ring sums to the last minute clipped at the start. */
  ghost predicate RingHolds(ring: Ring, t: Table, f: Field, min: int, i: int) {
    && (forall j :: 0 <= j < 60 ==>
          if Latest(i, j) >= min then j in ring && ring[j] == Value(t, f, Latest(i, j)) else j !in ring)
    && RingSum(ring) == Sum(t, f, Start(min, i), i)
  }

  lemma {:induction false} SlotSumUpdate(ring: Ring, n: nat, pos: int, v: int)
    requires 0 <= pos
    ensures SlotSum(ring[pos := v], n) + (if pos < n && pos in ring then ring[pos] else 0) == SlotSum(ring, n) + (if pos < n then v else 0)
  {
    if n > 0 {
      SlotSumUpdate(ring, n - 1, pos, v);
    }
  }

  lemma {:induction false} SumDropsFirst(t: Table, f: Field, first: int, last: int)
    requires first <= last
    ensures Sum(t, f, first, last) == Value(t, f, first) + Sum(t, f, first + 1, last)
    decreases last - first
  {
    hide Value;
    if first < last {
      SumDropsFirst(t, f, first, last - 1);
    } else {
      assert Sum(t, f, first, last - 1) == 0;
    }
  }

  lemma EmptyRing(t: Table, f: Field, min: int)
    ensures RingHolds(map[], t, f, min, min - 1)
  {
    EmptySlots(60);
  }

  lemma {:induction false} EmptySlots(n: nat)
    ensures SlotSum(map[], n) == 0
  {
    if n > 0 {
      EmptySlots(n - 1);
    }
  }

  lemma LatestMoves(i: int, j: int)
    requires 0 <= j < 60
    ensures Latest(i, j) == if j == i % 60 then i else Latest(i - 1, j)
    ensures j == i % 60 ==> Latest(i - 1, j) == i - 60
  {
  }

  /** Overwriting slot `i % 60` with the value of second `i` moves the window on by one second. */
  lemma RingStep(ring: Ring, t: Table, f: Field, min: int, i: int)
    requires min <= i && RingHolds(ring, t, f, min, i - 1)
    ensures RingHolds(ring[i % 60 := Value(t, f, i)], t, f, min, i)
  {
    hide Value, Latest, Sum;
    var pos := i % 60;
    var after := ring[pos := Value(t, f, i)];
    forall j | 0 <= j < 60
      ensures if Latest(i, j) >= min then j in after && after[j] == Value(t, f, Latest(i, j)) else j !in after
    {
      LatestMoves(i, j);
    }
    LatestMoves(i, pos);
    SlotSumUpdate(ring, 60, pos, Value(t, f, i));
    SumAdds(t, f, Start(min, i - 1), i);
    if i - 60 >= min {
      SumDropsFirst(t, f, i - 60, i);
    }
  }

  lemma SumAdds(t: Table, f: Field, first: int, last: int)
    requires first <= last
    ensures Sum(t, f, first, last) == Sum(t, f, first, last - 1) + Value(t, f, last)
  {
  }

  lemma {:induction false} SumIsWindow(ws: Ways, log: seq<Line>, a: Option<Address>, way: Way, f: Field, first: int, last: int)
    requires Sums(ws, log, a) && 0 <= first
    ensures Sum(ws.Of(way), f, first, last) == FieldOf(Window(log, a, way, first, last), f)
    decreases last - first + 1
  {
    hide Traffic, Window, Ways.Of;
    WindowUnfolds(log, a, way, first, last);
    if first <= last {
      SumIsWindow(ws, log, a, way, f, first, last - 1);
      var second: nat := last;
      assert Lookup(ws.Of(way), second) == Traffic(log, a, way, second);
    }
  }

  /** A row of the data file of a graph: the value of the second and the sum over the
      last minute, for each way and field. The script divides the sums by 60. */
  datatype Row = Row(second: int, readLength: int, readLengthSum: int, writeLength: int, writeLengthSum: int,
                     readPackets: int, readPacketsSum: int, writePackets: int, writePacketsSum: int)

  /** The row that a log gives for a second. */
  ghost predicate RowOf(row: Row, log: seq<Line>, a: Option<Address>, min: nat, second: nat) {
    var r, w := Traffic(log, a, Read, second), Traffic(log, a, Write, second);
    var rs, ws := LastMinute(log, a, Read, min, second), LastMinute(log, a, Write, min, second);
    && min <= second
    && row == Row(second - min, r.length, rs.length, w.length, ws.length, r.packets, rs.packets, w.packets, ws.packets)
  }

  /** One of the four rings of a graph, after second `i`. */
  method NextSum(ring: Ring, t: Table, f: Field, min: int, i: int) returns (after: Ring, sum: int)
    requires min <= i && RingHolds(ring, t, f, min, i - 1)
    ensures RingHolds(after, t, f, min, i) && sum == Sum(t, f, Start(min, i), i)
  {
    RingStep(ring, t, f, min, i);
    after := ring[i % 60 := Value(t, f, i)];
    sum := RingSum(after);
  }

  /** The loop that writes the data of a graph: at every second each ring sums to the
      traffic of the last minute, clipped at the start. */
  method BuildGraph(ws: Ways, min: nat, max: nat, ghost log: seq<Line>, ghost a: Option<Address>) returns (rows: seq<Row>)
    requires Sums(ws, log, a)
    ensures |rows| == if min <= max then max - min + 1 else 0
    ensures forall k :: 0 <= k < |rows| ==> RowOf(rows[k], log, a, min, min + k)
  {
    rows := [];
    var readLength, readPackets, writeLength, writePackets: Ring := map[], map[], map[], map[];
    EmptyRing(ws.read, Length, min);
    EmptyRing(ws.read, Packets, min);
    EmptyRing(ws.write, Length, min);
    EmptyRing(ws.write, Packets, min);
    hide RingHolds, Sums, RowOf, Sum, Value;
    var i := min;
    while i < max + 1
      invariant min <= i && (i <= max + 1 || i == min) && |rows| == i - min
      invariant RingHolds(readLength, ws.read, Length, min, i - 1) && RingHolds(readPackets, ws.read, Packets, min, i - 1)
      invariant RingHolds(writeLength, ws.write, Length, min, i - 1) && RingHolds(writePackets, ws.write, Packets, min, i - 1)
      invariant forall k :: 0 <= k < |rows| ==> RowOf(rows[k], log, a, min, min + k)
    {
      var rl, rp, wl, wp;
      readLength, rl := NextSum(readLength, ws.read, Length, min, i);
      readPackets, rp := NextSum(readPackets, ws.read, Packets, min, i);
      writeLength, wl := NextSum(writeLength, ws.write, Length, min, i);
      writePackets, wp := NextSum(writePackets, ws.write, Packets, min, i);
      var row := Row(i - min, Value(ws.read, Length, i), rl, Value(ws.write, Length, i), wl,
                     Value(ws.read, Packets, i), rp, Value(ws.write, Packets, i), wp);
      RowIsRight(ws, log, a, min, i, row);
      rows := rows + [row];
      i := i + 1;
    }
  }

  lemma RowIsRight(ws: Ways, log: seq<Line>, a: Option<Address>, min: nat, i: nat, row: Row)
    requires Sums(ws, log, a) && min <= i
    requires row == Row(i - min,
                        Value(ws.read, Length, i), Sum(ws.read, Length, Start(min, i), i), Value(ws.write, Length, i), Sum(ws.write, Length, Start(min, i), i),
                        Value(ws.read, Packets, i), Sum(ws.read, Packets, Start(min, i), i), Value(ws.write, Packets, i), Sum(ws.write, Packets, Start(min, i), i))
    ensures RowOf(row, log, a, min, i)
  {
    assert ws.Of(Read) == ws.read && ws.Of(Write) == ws.write;
    assert Lookup(ws.Of(Read), i) == Traffic(log, a, Read, i) && Lookup(ws.Of(Write), i) == Traffic(log, a, Write, i);
    SumIsWindow(ws, log, a, Read, Length, Start(min, i), i);
    SumIsWindow(ws, log, a, Read, Packets, Start(min, i), i);
    SumIsWindow(ws, log, a, Write, Length, Start(min, i), i);
    SumIsWindow(ws, log, a, Write, Packets, Start(min, i), i);
    hide Sum, Window, Traffic;
  }

  // ----- the global graph is the sum of the others -----

  predicate NoDuplicates(keys: seq<Address>) {
    forall i, j :: 0 <= i < j < |keys| ==> keys[i] != keys[j]
  }

  /** The traffic of the addresses `keys`, added up. */
  function TrafficOfAll(log: seq<Line>, keys: seq<Address>, way: Way, second: int): Rate {
    if keys == [] then Zero() else Plus(Traffic(log, Some(keys[0]), way, second), TrafficOfAll(log, keys[1..], way, second))
  }

  function LastMinuteOfAll(log: seq<Line>, keys: seq<Address>, way: Way, min: int, second: int): Rate {
    if keys == [] then Zero()
    else Plus(LastMinute(log, Some(keys[0]), way, min, second), LastMinuteOfAll(log, keys[1..], way, min, second))
  }

  lemma {:induction false} LineCountsOnce(log: seq<Line>, l: Line, keys: seq<Address>, way: Way, second: int)
    requires NoDuplicates(keys)
    ensures TrafficOfAll(log + [l], keys, way, second)
            == if Counts(l, None, way, second) && l.address in keys
               then Plus(TrafficOfAll(log, keys, way, second), Rate(l.length, 1)) else TrafficOfAll(log, keys, way, second)
  {
    hide Traffic;
    if keys != [] {
      TrafficSnoc(log, l, Some(keys[0]), way, second);
      LineCountsOnce(log, l, keys[1..], way, second);
      assert l.address in keys <==> l.address == keys[0] || l.address in keys[1..];
      assert keys[0] !in keys[1..];
    }
  }

  lemma {:induction false} TrafficOfNothing(keys: seq<Address>, way: Way, second: int)
    ensures TrafficOfAll([], keys, way, second) == Zero()
  {
    if keys != [] {
      assert Traffic([], Some(keys[0]), way, second) == Zero();
      TrafficOfNothing(keys[1..], way, second);
    }
  }

  lemma {:induction false} TrafficAddsUp(log: seq<Line>, keys: seq<Address>, way: Way, second: int)
    requires NoDuplicates(keys) && forall l :: l in log ==> l.address in keys
    ensures Traffic(log, None, way, second) == TrafficOfAll(log, keys, way, second)
    decreases log
  {
    hide TrafficOfAll;
    if log == [] {
      TrafficOfNothing(keys, way, second);
    } else {
      var n := |log| - 1;
      assert log == log[..n] + [log[n]] && log[n] in log;
      TrafficAddsUp(log[..n], keys, way, second);
      LineCountsOnce(log[..n], log[n], keys, way, second);
    }
  }

  lemma WindowUnfolds(log: seq<Line>, a: Option<Address>, way: Way, first: int, last: int)
    ensures Window(log, a, way, first, last)
            == if last < first then Zero() else Plus(Window(log, a, way, first, last - 1), Traffic(log, a, way, last))
  {
  }

  function WindowOfAll(log: seq<Line>, keys: seq<Address>, way: Way, first: int, last: int): Rate {
    if keys == [] then Zero() else Plus(Window(log, Some(keys[0]), way, first, last), WindowOfAll(log, keys[1..], way, first, last))
  }

  lemma OfNothing(log: seq<Line>, way: Way, first: int, last: int)
    ensures WindowOfAll(log, [], way, first, last) == Zero() && TrafficOfAll(log, [], way, last) == Zero()
  {
  }

  lemma OfAllUnfolds(log: seq<Line>, keys: seq<Address>, way: Way, first: int, last: int)
    requires keys != []
    ensures WindowOfAll(log, keys, way, first, last)
            == Plus(Window(log, Some(keys[0]), way, first, last), WindowOfAll(log, keys[1..], way, first, last))
    ensures TrafficOfAll(log, keys, way, last) == Plus(Traffic(log, Some(keys[0]), way, last), TrafficOfAll(log, keys[1..], way, last))
  {
    hide Traffic, Window, Plus;
  }

  lemma PlusSwaps(a: Rate, b: Rate, c: Rate, d: Rate)
    ensures Plus(Plus(a, b), Plus(c, d)) == Plus(Plus(a, c), Plus(b, d))
    ensures Plus(Zero(), Zero()) == Zero()
  {
  }

  lemma {:induction false} WindowOfAllStep(log: seq<Line>, keys: seq<Address>, way: Way, first: int, last: int)
    requires first <= last
    ensures WindowOfAll(log, keys, way, first, last) == Plus(WindowOfAll(log, keys, way, first, last - 1), TrafficOfAll(log, keys, way, last))
  {
    hide Traffic, Window, WindowOfAll, TrafficOfAll, Plus;
    if keys == [] {
      OfNothing(log, way, first, last);
      OfNothing(log, way, first, last - 1);
      PlusSwaps(Zero(), Zero(), Zero(), Zero());
    } else {
      WindowUnfolds(log, Some(keys[0]), way, first, last);
      OfAllUnfolds(log, keys, way, first, last);
      OfAllUnfolds(log, keys, way, first, last - 1);
      WindowOfAllStep(log, keys[1..], way, first, last);
      PlusSwaps(Window(log, Some(keys[0]), way, first, last - 1), Traffic(log, Some(keys[0]), way, last),
                WindowOfAll(log, keys[1..], way, first, last - 1), TrafficOfAll(log, keys[1..], way, last));
    }
  }

  lemma {:induction false} EmptyWindowOfAll(log: seq<Line>, keys: seq<Address>, way: Way, first: int, last: int)
    requires last < first
    ensures WindowOfAll(log, keys, way, first, last) == Zero()
  {
    hide Traffic, Window, WindowOfAll, TrafficOfAll, Plus;
    if keys == [] {
      OfNothing(log, way, first, last);
    } else {
      WindowUnfolds(log, Some(keys[0]), way, first, last);
      OfAllUnfolds(log, keys, way, first, last);
      EmptyWindowOfAll(log, keys[1..], way, first, last);
      PlusSwaps(Zero(), Zero(), Zero(), Zero());
    }
  }

  lemma {:induction false} WindowAddsUp(log: seq<Line>, keys: seq<Address>, way: Way, first: int, last: int)
    requires NoDuplicates(keys) && forall l :: l in log ==> l.address in keys
    ensures Window(log, None, way, first, last) == WindowOfAll(log, keys, way, first, last)
    decreases last - first + 1
  {
    hide Traffic, TrafficOfAll, WindowOfAll;
    if last < first {
      EmptyWindowOfAll(log, keys, way, first, last);
    } else {
      WindowAddsUp(log, keys, way, first, last - 1);
      TrafficAddsUp(log, keys, way, last);
      WindowOfAllStep(log, keys, way, first, last);
    }
  }

  lemma {:induction false} SameWindows(log: seq<Line>, keys: seq<Address>, way: Way, min: int, second: int)
    ensures LastMinuteOfAll(log, keys, way, min, second) == WindowOfAll(log, keys, way, Start(min, second), second)
  {
    hide Window;
    if keys != [] {
      SameWindows(log, keys[1..], way, min, second);
    }
  }

  /** At every second, and for every log, the last minute of the global graph is the sum of
      the last minutes of the graphs of all addresses, in whatever order they are drawn. */
  lemma GlobalIsSumOfAddresses(log: seq<Line>, keys: seq<Address>, way: Way, second: int)
    requires NoDuplicates(keys) && forall a :: a in keys <==> a in Addresses(log)
    ensures LastMinute(log, None, way, MinSecond(log), second) == LastMinuteOfAll(log, keys, way, MinSecond(log), second)
  {
    assert forall l :: l in log ==> l.address in Addresses(log);
    WindowAddsUp(log, keys, way, Start(MinSecond(log), second), second);
    SameWindows(log, keys, way, MinSecond(log), second);
  }
}
