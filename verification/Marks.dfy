/** The tables of completed lines as sets of marks: nothing is ever removed from them,
    but a mark is lost when the table is full. */
module Marks {
  import opened Options
  import opened Light
  import opened LightMap
  import opened Call

  /** The table is a map, whatever its count says. */
  ghost predicate IsMap(t: Table<()>) {
    exists m :: Stores(t, m)
  }

  ghost predicate RoomIn(t: Table<()>, m: map<int, Option<()>>, keys: set<int>) {
    Stores(t, m) && |m.Keys + keys| <= |t.slots|
  }

  /** The table has a slot for each line of `keys` that it does not hold yet. */
  ghost predicate HasRoom(t: Table<()>, keys: set<int>) {
    exists m :: RoomIn(t, m, keys)
  }

  /** Lines marked in `t` are marked in `u`. */
  ghost predicate Grows(t: Table<()>, u: Table<()>)
    requires 0 < |t.slots| && 0 < |u.slots|
  {
    forall l :: l != FREE && Contains(t, l) ==> Contains(u, l)
  }

  // ----- sizes of sets -----

  lemma {:induction false} SubsetSize<T>(a: set<T>, b: set<T>)
    requires a <= b
    ensures |a| <= |b|
    decreases a
  {
    if a != {} {
      var x :| x in a;
      SubsetSize(a - {x}, b - {x});
    }
  }

  lemma StrictSubset<T>(a: set<T>, b: set<T>)
    requires a < b
    ensures |a| < |b|
  {
    var x :| x in b && x !in a;
    SubsetSize(a, b - {x});
  }

  // ----- one mark -----

  lemma EmptyIsMap(capacity: nat)
    requires 0 < capacity
    ensures Stores(Empty<()>(capacity), map[])
    ensures forall l :: l != FREE ==> !Contains(Empty<()>(capacity), l)
  {
    EmptyRefines<()>(capacity);
    forall l | l != FREE ensures !Contains(Empty<()>(capacity), l) {
      FindIsLookup(Empty<()>(capacity), map[], l);
    }
  }

  lemma EmptyHasRoom(capacity: nat, keys: set<int>)
    requires |keys| <= capacity && 0 < capacity
    ensures HasRoom(Empty(capacity), keys)
  {
    EmptyIsMap(capacity);
    var m: map<int, Option<()>> := map[];
    assert m.Keys + keys == keys;
    assert RoomIn(Empty(capacity), m, keys);
  }

  lemma ContainsIsLookup(t: Table<()>, m: map<int, Option<()>>, line: int)
    requires Stores(t, m) && line != FREE
    ensures 0 < |t.slots| && (Contains(t, line) <==> line in m)
  {
    FindStores(t, m, line);
  }

  /** What marking a line makes of the map: it adds the line, unless that is the
      reserved one, or there is no room. */
  function WithMark(m: map<int, Option<()>>, capacity: nat, line: int): map<int, Option<()>> {
    if line == FREE || (line !in m && |m| >= capacity) then m else m[line := Some(())]
  }

  lemma MarkStores(t: Table<()>, m: map<int, Option<()>>, line: int)
    requires Stores(t, m)
    ensures 0 < |t.slots| && |Marked(t, line).slots| == |t.slots|
    ensures Stores(Marked(t, line), WithMark(m, |t.slots|, line))
  {
    StoresHasSlots(t, m);
    hide Stores, Put;
    if line == FREE {
      ReservedStores(t, m, Some(()), true);
    } else {
      PutStores(t, m, line, Some(()), true);
    }
  }

  /** Marking a line never marks another one, and unmarks none, room or not. */
  lemma MarkAddsOnly(t: Table<()>, line: int)
    requires IsMap(t)
    ensures 0 < |t.slots| && IsMap(Marked(t, line)) && |Marked(t, line).slots| == |t.slots|
    ensures forall l :: l != FREE && l != line ==> (Contains(Marked(t, line), l) <==> Contains(t, l))
    ensures 0 < |Marked(t, line).slots| && Grows(t, Marked(t, line))
  {
    var m :| Stores(t, m);
    MarkStores(t, m, line);
    forall l | l != FREE
      ensures l != line ==> (Contains(Marked(t, line), l) <==> Contains(t, l))
      ensures Contains(t, l) ==> Contains(Marked(t, line), l)
    {
      ContainsIsLookup(t, m, l);
      ContainsIsLookup(Marked(t, line), WithMark(m, |t.slots|, line), l);
    }
  }

  /** A mark is lost exactly if the table is full of other lines. */
  lemma MarkIsLostIff(t: Table<()>, m: map<int, Option<()>>, line: int)
    requires Stores(t, m) && line != FREE
    ensures 0 < |t.slots| && (!Contains(Marked(t, line), line) <==> line !in m && |m| == |t.slots|)
  {
    MarkStores(t, m, line);
    ContainsIsLookup(Marked(t, line), WithMark(m, |t.slots|, line), line);
    FullIsCapacity(Table(t.slots, |m|), m);
    hide Contains, Put, Stores;
  }

  predicate IsFull(t: Table<()>) {
    forall i :: 0 <= i < |t.slots| ==> t.slots[i].key != FREE
  }

  lemma LostMeansFull(t: Table<()>, line: int)
    requires IsMap(t) && line != FREE
    ensures 0 < |t.slots| && 0 < |Marked(t, line).slots|
    ensures !Contains(Marked(t, line), line) ==> IsFull(Marked(t, line))
  {
    var m :| Stores(t, m);
    MarkStores(t, m, line);
    var t', m' := Marked(t, line), WithMark(m, |t.slots|, line);
    ContainsIsLookup(t', m', line);
    FullIsCapacity(Table(t.slots, |m|), m);
    FullIsCapacity(Table(t'.slots, |m'|), m');
    hide Contains, Put, Stores;
  }

  /** Marks stick as long as there is room: marking a line of `keys` keeps all marks,
      adds that one, and leaves room for the others. */
  lemma MarkSticks(t: Table<()>, keys: set<int>, line: int)
    requires HasRoom(t, keys) && (line in keys || line == FREE)
    ensures 0 < |t.slots| && HasRoom(Marked(t, line), keys)
    ensures forall l :: l != FREE ==> (Contains(Marked(t, line), l) <==> l == line || Contains(t, l))
  {
    var m :| RoomIn(t, m, keys);
    var m' := WithMark(m, |t.slots|, line);
    MarkStores(t, m, line);
    if line != FREE && line !in m {
      StrictSubset(m.Keys, m.Keys + keys);
      assert m'.Keys == m.Keys + {line};
    }
    assert m'.Keys + keys == m.Keys + keys;
    assert RoomIn(Marked(t, line), m', keys);
    forall l | l != FREE ensures Contains(Marked(t, line), l) <==> l == line || Contains(t, l) {
      ContainsIsLookup(t, m, l);
      ContainsIsLookup(Marked(t, line), m', l);
    }
  }

  lemma RoomIsMap(t: Table<()>, keys: set<int>)
    requires HasRoom(t, keys)
    ensures IsMap(t)
  {
  }

  // ----- when all marks stick -----

  function MarkAll(t: Table<()>, lines: seq<int>): (r: Table<()>)
    requires 0 < |t.slots|
    ensures |r.slots| == |t.slots|
    decreases lines
  {
    if lines == [] then t else MarkAll(Marked(t, lines[0]), lines[1..])
  }

  /** However lines of `keys` are marked, each of them is marked afterwards. */
  ghost predicate AllStick(t: Table<()>, keys: set<int>)
    requires 0 < |t.slots|
  {
    forall lines: seq<int> :: (forall l :: l in lines ==> l in keys) ==> forall l :: l in lines ==> Contains(MarkAll(t, lines), l)
  }

  lemma {:induction false} RoomIsEnough(t: Table<()>, keys: set<int>, lines: seq<int>)
    requires HasRoom(t, keys) && FREE !in keys && forall l :: l in lines ==> l in keys
    ensures 0 < |t.slots|
    ensures forall l :: l != FREE && (l in lines || Contains(t, l)) ==> Contains(MarkAll(t, lines), l)
    decreases lines
  {
    hide Contains, Put;
    if lines == [] {
      var m :| RoomIn(t, m, keys);
      StoresHasSlots(t, m);
    } else {
      MarkSticks(t, keys, lines[0]);
      RoomIsEnough(Marked(t, lines[0]), keys, lines[1..]);
    }
  }

  lemma {:induction false} MarksOnlyAdd(t: Table<()>, m: map<int, Option<()>>, lines: seq<int>) returns (m': map<int, Option<()>>)
    requires Stores(t, m)
    ensures 0 < |t.slots| && Stores(MarkAll(t, lines), m') && m.Keys <= m'.Keys
    decreases lines
  {
    hide Stores;
    if lines == [] {
      StoresHasSlots(t, m);
      m' := m;
    } else {
      MarkStores(t, m, lines[0]);
      m' := MarksOnlyAdd(Marked(t, lines[0]), WithMark(m, |t.slots|, lines[0]), lines[1..]);
    }
  }

  lemma {:induction false} Listed(keys: set<int>) returns (lines: seq<int>)
    ensures forall l :: l in lines <==> l in keys
    decreases keys
  {
    if k :| k in keys {
      var rest := Listed(keys - {k});
      lines := [k] + rest;
    } else {
      lines := [];
    }
  }

  /** All marks of lines of `keys` stick, in every order, if and only if the lines of
      `keys` and those already marked are no more than the table has slots. */
  lemma MarksStickIff(t: Table<()>, m: map<int, Option<()>>, keys: set<int>)
    requires Stores(t, m) && FREE !in keys
    ensures 0 < |t.slots| && (AllStick(t, keys) <==> |m.Keys + keys| <= |t.slots|)
  {
    StoresHasSlots(t, m);
    if |m.Keys + keys| <= |t.slots| {
      assert RoomIn(t, m, keys);
      forall lines: seq<int> | forall l :: l in lines ==> l in keys
        ensures forall l :: l in lines ==> Contains(MarkAll(t, lines), l)
      {
        RoomIsEnough(t, keys, lines);
      }
    }
    if AllStick(t, keys) {
      var lines := Listed(keys);
      var m' := MarksOnlyAdd(t, m, lines);
      forall l | l in keys ensures l in m' {
        ContainsIsLookup(MarkAll(t, lines), m', l);
      }
      FullIsCapacity(Table(MarkAll(t, lines).slots, |m'|), m');
      SubsetSize(m.Keys + keys, m'.Keys);
    }
  }
}
