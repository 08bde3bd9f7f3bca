/** When the table of module Light behaves as a finite map, and when it stops. */
module LightMap {
  import opened Options
  import opened Light

  predicate IsLive<V>(s: seq<Entry<V>>, i: int) {
    0 <= i < |s| && s[i].key != FREE
  }

  /** Slot `i` is passed when probing from the home of the key of slot `j` to `j`. */
  predicate OnPath<V>(s: seq<Entry<V>>, i: nat, j: nat)
    requires i < |s| && j < |s|
  {
    Distance(Home(s[j].key, |s|), i, |s|) < Distance(Home(s[j].key, |s|), j, |s|)
  }

  ghost predicate DistinctKeys<V>(s: seq<Entry<V>>) {
    forall i, j :: IsLive(s, i) && IsLive(s, j) && s[i].key == s[j].key ==> i == j
  }

  /** No probe path runs over an empty slot. */
  ghost predicate NoGaps<V>(s: seq<Entry<V>>) {
    forall i: nat, j :: i < |s| && IsLive(s, j) && OnPath(s, i, j) ==> IsLive(s, i)
  }

  /** The table stands for the map. */
  ghost predicate Refines<V(!new)>(t: Table<V>, m: map<int, Option<V>>) {
    && 0 < |t.slots|
    && DistinctKeys(t.slots)
    && NoGaps(t.slots)
    && (forall i :: IsLive(t.slots, i) ==> t.slots[i].key in m && m[t.slots[i].key] == t.slots[i].data)
    && (forall k :: k in m ==> exists i :: IsLive(t.slots, i) && t.slots[i].key == k)
    && FREE !in m
    && t.length == |m|
  }

  // ----- probing -----

  lemma DistanceOfSlot(h: nat, d: nat, capacity: nat)
    requires h < capacity && d < capacity
    ensures Distance(h, Slot(h, d, capacity), capacity) == d
  {
  }

  /** Probing stops at the first slot in probe order that holds the key or nothing. */
  lemma {:induction false} ScanFindsFirst<V>(s: seq<Entry<V>>, key: int, d: nat, i: nat)
    requires 0 < |s| && i < |s| && d <= Distance(Home(key, |s|), i, |s|)
    requires s[i].key == key || s[i].key == FREE
    requires forall j: nat :: j < |s| && d <= Distance(Home(key, |s|), j, |s|) < Distance(Home(key, |s|), i, |s|)
               ==> s[j].key != key && s[j].key != FREE
    ensures Scan(s, key, d) == Some(i)
    decreases |s| - d
  {
    var j := Slot(Home(key, |s|), d, |s|);
    DistanceOfSlot(Home(key, |s|), d, |s|);
    if d < Distance(Home(key, |s|), i, |s|) {
      assert s[j].key != key && s[j].key != FREE;
      ScanFindsFirst(s, key, d + 1, i);
    }
  }

  /** What a probe that ran past slots found in them. */
  lemma {:induction false} ScanSkips<V>(s: seq<Entry<V>>, key: int, d: nat, j: nat)
    requires 0 < |s| && d <= |s| && j < |s| && d <= Distance(Home(key, |s|), j, |s|)
    requires match Scan(s, key, d)
             case None => true
             case Some(i) => Distance(Home(key, |s|), j, |s|) < Distance(Home(key, |s|), i, |s|)
    ensures s[j].key != key && s[j].key != FREE
    decreases |s| - d
  {
    var i := Slot(Home(key, |s|), d, |s|);
    DistanceOfSlot(Home(key, |s|), d, |s|);
    if i != j {
      ScanSkips(s, key, d + 1, j);
    }
  }

  /** In a well-formed table a stored key is found where it is, whatever collides with it. */
  lemma FindsStored<V>(s: seq<Entry<V>>, i: nat)
    requires DistinctKeys(s) && NoGaps(s) && IsLive(s, i)
    ensures Scan(s, s[i].key, 0) == Some(i)
  {
    forall j: nat | j < |s| && OnPath(s, j, i)
      ensures s[j].key != s[i].key && s[j].key != FREE
    {
      assert IsLive(s, j);
      assert j != i;
    }
    ScanFindsFirst(s, s[i].key, 0, i);
  }

  lemma FindIsLookup<V(!new)>(t: Table<V>, m: map<int, Option<V>>, key: int)
    requires Refines(t, m) && key != FREE
    ensures FindEntry(t.slots, key, false).Some? <==> key in m
    ensures key in m ==> t.slots[FindEntry(t.slots, key, false).value] == Entry(key, m[key])
  {
    if key in m {
      var i :| IsLive(t.slots, i) && t.slots[i].key == key;
      FindsStored(t.slots, i);
    }
  }

  // ----- counting -----

  function KeySet<V>(s: seq<Entry<V>>): set<int> {
    set i | 0 <= i < |s| && s[i].key != FREE :: s[i].key
  }

  lemma KeySetGrows<V>(p: seq<Entry<V>>, e: Entry<V>)
    ensures KeySet(p + [e]) == if e.key == FREE then KeySet(p) else KeySet(p) + {e.key}
  {
    var s := p + [e];
    assert s[|p|] == e && forall i :: 0 <= i < |p| ==> s[i] == p[i];
    assert KeySet(p) <= KeySet(s);
  }

  lemma NewKey<V>(p: seq<Entry<V>>, e: Entry<V>)
    requires DistinctKeys(p + [e])
    ensures DistinctKeys(p)
    ensures e.key != FREE ==> e.key !in KeySet(p)
  {
    var s := p + [e];
    assert forall i :: IsLive(p, i) ==> IsLive(s, i) && s[i] == p[i];
    assert e.key != FREE ==> IsLive(s, |p|);
    assert forall i :: 0 <= i < |p| && p[i].key != FREE ==> IsLive(p, i);
  }

  lemma {:induction false} KeysFit<V>(s: seq<Entry<V>>)
    requires DistinctKeys(s)
    ensures |KeySet(s)| <= |s|
    ensures |KeySet(s)| == |s| <==> forall i: nat :: i < |s| ==> s[i].key != FREE
  {
    if s == [] {
      assert KeySet(s) == {};
    } else {
      hide KeySet, DistinctKeys;
      var n := |s| - 1;
      var p := s[..n];
      assert s == p + [s[n]];
      NewKey(p, s[n]);
      KeysFit(p);
      KeySetGrows(p, s[n]);
    }
  }

  /** A table is full exactly when it holds as many keys as it has slots. */
  lemma FullIsCapacity<V(!new)>(t: Table<V>, m: map<int, Option<V>>)
    requires Refines(t, m)
    ensures |m| <= |t.slots|
    ensures |m| == |t.slots| <==> forall i: nat :: i < |t.slots| ==> t.slots[i].key != FREE
  {
    KeysFit(t.slots);
    forall k ensures k in KeySet(t.slots) <==> k in m.Keys {
      if k in KeySet(t.slots) {
        var i :| 0 <= i < |t.slots| && t.slots[i].key == k && k != FREE;
        assert IsLive(t.slots, i);
      }
      if k in m {
        var i :| IsLive(t.slots, i) && t.slots[i].key == k;
        assert t.slots[i].key in KeySet(t.slots);
      }
    }
    assert KeySet(t.slots) == m.Keys;
  }

  /** Where an absent key goes: a free slot with only live slots before it, unless the table is full. */
  lemma FindFree<V(!new)>(t: Table<V>, m: map<int, Option<V>>, key: int)
    requires Refines(t, m) && key != FREE && key !in m
    ensures Scan(t.slots, key, 0).None? <==> |m| == |t.slots|
    ensures Scan(t.slots, key, 0).Some? ==>
              var i := Scan(t.slots, key, 0).value;
              var h := Home(key, |t.slots|);
              && t.slots[i].key == FREE
              && forall j: nat :: j < |t.slots| && Distance(h, j, |t.slots|) < Distance(h, i, |t.slots|) ==> IsLive(t.slots, j)
  {
    FullIsCapacity(t, m);
    FindIsLookup(t, m, key);
    forall j: nat | j < |t.slots| && Scan(t.slots, key, 0).Some?
                    && Distance(Home(key, |t.slots|), j, |t.slots|) < Distance(Home(key, |t.slots|), Scan(t.slots, key, 0).value, |t.slots|)
      ensures IsLive(t.slots, j)
    {
      ScanSkips(t.slots, key, 0, j);
    }
    if Scan(t.slots, key, 0).None? {
      forall j: nat | j < |t.slots| ensures t.slots[j].key != FREE {
        ScanSkips(t.slots, key, 0, j);
      }
    }
  }

  // ----- one operation -----

  lemma EmptyRefines<V(!new)>(capacity: nat)
    requires 0 < capacity
    ensures Refines<V>(Empty(capacity), map[])
  {
    assert forall i :: !IsLive(Empty<V>(capacity).slots, i);
  }

  /** Storing refines map update; it fails exactly on a present key without
      `replace` and on an absent key with the table full. */
  lemma PutRefines<V(!new)>(t: Table<V>, m: map<int, Option<V>>, key: int, data: Option<V>, replace: bool)
    requires Refines(t, m) && key != FREE
    ensures Put(t, key, data, replace).1 <==> if key in m then replace else |m| < |t.slots|
    ensures Refines(Put(t, key, data, replace).0,
                    if Put(t, key, data, replace).1 then m[key := data] else m)
    ensures |Put(t, key, data, replace).0.slots| == |t.slots|
  {
    hide Home, Distance, Slot, Scan;
    FullIsCapacity(t, m);
    FindIsLookup(t, m, key);
    var (t', ok) := Put(t, key, data, replace);
    if key !in m {
      FindFree(t, m, key);
    }
    if ok {
      var i := FindEntry(t.slots, key, true).value;
      assert t'.slots == t.slots[i := Entry(key, data)];
      var m' := m[key := data];
      assert forall j :: IsLive(t'.slots, j) <==> j == i || IsLive(t.slots, j);
      forall k | k in m' ensures exists j :: IsLive(t'.slots, j) && t'.slots[j].key == k {
        if k == key {
          assert IsLive(t'.slots, i);
        } else {
          var j :| IsLive(t.slots, j) && t.slots[j].key == k;
          assert IsLive(t'.slots, j) && t'.slots[j].key == k;
        }
      }
      forall a: nat, j | a < |t'.slots| && IsLive(t'.slots, j) && OnPath(t'.slots, a, j) ensures IsLive(t'.slots, a) {
        if j != i {
          assert OnPath(t.slots, a, j);
        } else if key in m {
          assert OnPath(t.slots, a, j) && IsLive(t.slots, j);
        }
      }
    }
  }

  /** Emptying slot `i` cuts no other key off. */
  ghost predicate SafeToFree<V>(s: seq<Entry<V>>, i: nat)
    requires i < |s|
  {
    forall j :: IsLive(s, j) && j != i ==> !OnPath(s, i, j)
  }

  ghost predicate SafeToRemove<V>(t: Table<V>, key: int)
    requires 0 < |t.slots|
  {
    match FindEntry(t.slots, key, false)
    case None => true
    case Some(i) => SafeToFree(t.slots, i)
  }

  lemma FreeingKeeps<V>(s: seq<Entry<V>>, i: nat)
    requires i < |s| && DistinctKeys(s) && NoGaps(s) && SafeToFree(s, i)
    ensures var s' := s[i := Entry(FREE, None)];
            && DistinctKeys(s') && NoGaps(s')
            && forall j :: IsLive(s', j) <==> j != i && IsLive(s, j)
  {
    hide Home, Distance;
    var s' := s[i := Entry(FREE, None)];
    assert forall j :: IsLive(s', j) <==> j != i && IsLive(s, j);
    forall a: nat, j | a < |s'| && IsLive(s', j) && OnPath(s', a, j) ensures IsLive(s', a) {
      assert OnPath(s, a, j);
      assert a != i;
    }
  }

  lemma FreedRefines<V(!new)>(t: Table<V>, m: map<int, Option<V>>, i: nat)
    requires Refines(t, m) && IsLive(t.slots, i)
    requires var s' := t.slots[i := Entry(FREE, None)];
             DistinctKeys(s') && NoGaps(s') && forall j :: IsLive(s', j) <==> j != i && IsLive(t.slots, j)
    ensures Refines(Table(t.slots[i := Entry(FREE, None)], t.length - 1), m - {t.slots[i].key})
  {
    hide NoGaps;
    var key, s' := t.slots[i].key, t.slots[i := Entry(FREE, None)];
    forall k | k in m - {key} ensures exists j :: IsLive(s', j) && s'[j].key == k {
      var j :| IsLive(t.slots, j) && t.slots[j].key == k;
      assert IsLive(s', j) && s'[j].key == k;
    }
    assert m.Keys == (m - {key}).Keys + {key};
  }

  lemma RemoveRefines<V(!new)>(t: Table<V>, m: map<int, Option<V>>, key: int)
    requires Refines(t, m) && key != FREE
    requires SafeToRemove(t, key)
    ensures Remove(t, key).1 <==> key in m
    ensures Refines(Remove(t, key).0, m - {key})
    ensures |Remove(t, key).0.slots| == |t.slots|
  {
    hide Scan, Home;
    FindIsLookup(t, m, key);
    if key in m {
      var i := FindEntry(t.slots, key, false).value;
      FreeingKeeps(t.slots, i);
      FreedRefines(t, m, i);
    } else {
      assert m - {key} == m;
    }
    hide Refines, SafeToFree;
  }

  /** What a lookup answers: presence and, when present, the stored pointer. */
  function Lookup<V>(t: Table<V>, key: int): Option<Option<V>>
    requires 0 < |t.slots|
  {
    if Contains(t, key) then Some(Get(t, key)) else None
  }

  /** A key whose path runs over an empty slot is no longer found. */
  lemma CutOff<V>(s: seq<Entry<V>>, i: nat, j: nat)
    requires DistinctKeys(s) && IsLive(s, j) && i < |s| && s[i].key == FREE && OnPath(s, i, j)
    ensures FindEntry(s, s[j].key, false).None?
  {
    var k := s[j].key;
    var h := Home(k, |s|);
    match Scan(s, k, 0)
    case None => ScanSkips(s, k, 0, i);
    case Some(f) =>
      if s[f].key == k {
        assert IsLive(s, f);
        ScanSkips(s, k, 0, i);
      }
  }

  /** Removal keeps every other lookup correct if and only if the freed slot lies
      on the probe path of no other stored key. */
  lemma RemoveKeepsLookupsIff<V(!new)>(t: Table<V>, m: map<int, Option<V>>, key: int)
    requires Refines(t, m) && key in m
    ensures (forall k :: k != FREE && k != key ==> Lookup(Remove(t, key).0, k) == Lookup(t, k))
            <==> SafeToRemove(t, key)
  {
    FindIsLookup(t, m, key);
    var i := FindEntry(t.slots, key, false).value;
    var t' := Remove(t, key).0;
    if SafeToFree(t.slots, i) {
      RemoveRefines(t, m, key);
      forall k | k != FREE && k != key ensures Lookup(t', k) == Lookup(t, k) {
        FindIsLookup(t, m, k);
        FindIsLookup(t', m - {key}, k);
      }
    } else {
      var j :| IsLive(t.slots, j) && j != i && OnPath(t.slots, i, j);
      var k := t.slots[j].key;
      assert forall a :: IsLive(t'.slots, a) <==> a != i && IsLive(t.slots, a);
      assert OnPath(t'.slots, i, j);
      CutOff(t'.slots, i, j);
      FindIsLookup(t, m, k);
      assert Lookup(t', k) != Lookup(t, k) && k != key;
    }
  }

  /** A history after which a stored key is lost: two keys with one home, the first one removed. */
  lemma RemoveLosesCollidingKey()
    ensures var t := Put(Put(Empty<int>(3), 0, Some(10), false).0, 3, Some(11), false).0;
            Get(t, 3) == Some(11) && Get(Remove(t, 0).0, 3) == None
  {
    var s0 := Empty<int>(3).slots;
    ScanFindsFirst(s0, 0, 0, 0);
    var s1 := s0[0 := Entry(0, Some(10))];
    ScanFindsFirst(s1, 3, 0, 1);
    var s2 := s1[1 := Entry(3, Some(11))];
    ScanFindsFirst(s2, 3, 0, 1);
    ScanFindsFirst(s2, 0, 0, 0);
    ScanFindsFirst(s2[0 := Entry(FREE, None)], 3, 0, 0);
  }

  /** The reserved key breaks the count of stored entries: storing under it
      adds one to `length` and stores nothing that can be counted. */
  lemma ReservedKeyBreaksLength<V(!new)>(t: Table<V>, m: map<int, Option<V>>, data: Option<V>)
    requires Refines(t, m) && |m| < |t.slots|
    ensures Put(t, FREE, data, true).0.length == |m| + 1
    ensures KeySet(Put(t, FREE, data, true).0.slots) == KeySet(t.slots)
  {
    FullIsCapacity(t, m);
    var i: nat :| i < |t.slots| && t.slots[i].key == FREE;
    if Scan(t.slots, FREE, 0).None? {
      ScanSkips(t.slots, FREE, 0, i);
    }
    var f := Scan(t.slots, FREE, 0).value;
    var s' := Put(t, FREE, data, true).0.slots;
    assert s' == t.slots[f := Entry(FREE, data)];
    assert forall j :: 0 <= j < |s'| ==> s'[j].key == t.slots[j].key;
    assert KeySet(s') == KeySet(t.slots);
  }

  // ----- stores under the reserved key -----

  /** The slots hold the map, whatever the count of the table says. */
  ghost predicate Stores<V(!new)>(t: Table<V>, m: map<int, Option<V>>) {
    Refines(Table(t.slots, |m|), m)
  }

  lemma StoresHasSlots<V(!new)>(t: Table<V>, m: map<int, Option<V>>)
    requires Stores(t, m)
    ensures 0 < |t.slots|
  {
  }

  lemma RefinesCount<V(!new)>(t: Table<V>, m: map<int, Option<V>>)
    requires Refines(t, m)
    ensures t == Table(t.slots, |m|)
  {
  }

  lemma PutStores<V(!new)>(t: Table<V>, m: map<int, Option<V>>, key: int, data: Option<V>, replace: bool)
    requires Stores(t, m) && key != FREE
    ensures Put(t, key, data, replace).1 <==> if key in m then replace else |m| < |t.slots|
    ensures Stores(Put(t, key, data, replace).0, if Put(t, key, data, replace).1 then m[key := data] else m)
    ensures |Put(t, key, data, replace).0.slots| == |t.slots|
  {
    StoresHasSlots(t, m);
    hide Refines, FindEntry;
    PutRefines(Table(t.slots, |m|), m, key, data, replace);
    RefinesCount(Put(Table(t.slots, |m|), key, data, replace).0,
                 if Put(t, key, data, replace).1 then m[key := data] else m);
  }

  /** A store under the reserved key changes the count at most. */
  lemma ReservedStores<V(!new)>(t: Table<V>, m: map<int, Option<V>>, data: Option<V>, replace: bool)
    requires Stores(t, m)
    ensures Stores(Put(t, FREE, data, replace).0, m)
    ensures |Put(t, FREE, data, replace).0.slots| == |t.slots|
  {
    var t' := Put(t, FREE, data, replace).0;
    assert forall i :: IsLive(t'.slots, i) <==> IsLive(t.slots, i);
    assert forall i :: IsLive(t.slots, i) ==> t'.slots[i] == t.slots[i];
    assert forall k :: k in m ==> exists i :: IsLive(t'.slots, i) && t'.slots[i].key == k;
    forall a: nat, j | a < |t'.slots| && IsLive(t'.slots, j) && OnPath(t'.slots, a, j) ensures IsLive(t'.slots, a) {
      assert OnPath(t.slots, a, j);
    }
  }

  lemma RemoveStores<V(!new)>(t: Table<V>, m: map<int, Option<V>>, key: int)
    requires Stores(t, m) && key != FREE && SafeToRemove(t, key)
    ensures Stores(Remove(t, key).0, m - {key})
    ensures |Remove(t, key).0.slots| == |t.slots|
  {
    StoresHasSlots(t, m);
    hide Refines, FindEntry, SafeToFree;
    RemoveRefines(Table(t.slots, |m|), m, key);
    RefinesCount(Remove(Table(t.slots, |m|), key).0, m - {key});
  }

  lemma FindStores<V(!new)>(t: Table<V>, m: map<int, Option<V>>, key: int)
    requires Stores(t, m) && key != FREE
    ensures 0 < |t.slots| && (FindEntry(t.slots, key, false).Some? <==> key in m)
    ensures key in m ==> t.slots[FindEntry(t.slots, key, false).value] == Entry(key, m[key])
  {
    FindIsLookup(Table(t.slots, |m|), m, key);
  }

  // ----- whole histories -----

  datatype Op<V> =
    | DoPut(key: int, data: Option<V>, replace: bool)
    | DoGet(key: int)
    | DoContains(key: int)
    | DoRemove(key: int)

  datatype Answer<V> = Flag(flag: bool) | Value(value: Option<V>)

  function Exec<V>(t: Table<V>, op: Op<V>): (Table<V>, Answer<V>)
    requires 0 < |t.slots|
  {
    match op
    case DoPut(k, data, replace) => var (t', ok) := Put(t, k, data, replace); (t', Flag(ok))
    case DoGet(k) => (t, Value(Get(t, k)))
    case DoContains(k) => (t, Flag(Contains(t, k)))
    case DoRemove(k) => var (t', ok) := Remove(t, k); (t', Flag(ok))
  }

  lemma ExecKeepsCapacity<V>(t: Table<V>, op: Op<V>)
    requires 0 < |t.slots|
    ensures |Exec(t, op).0.slots| == |t.slots|
  {
  }

  /** The same operation on a finite map that has room for `capacity` keys. */
  function MapExec<V>(m: map<int, Option<V>>, capacity: nat, op: Op<V>): (map<int, Option<V>>, Answer<V>) {
    match op
    case DoPut(k, data, replace) =>
      var ok := if k in m then replace else |m| < capacity;
      (if ok then m[k := data] else m, Flag(ok))
    case DoGet(k) => (m, Value(if k in m then m[k] else None))
    case DoContains(k) => (m, Flag(k in m))
    case DoRemove(k) => (m - {k}, Flag(k in m))
  }

  function Answers<V>(t: Table<V>, ops: seq<Op<V>>): seq<Answer<V>>
    requires 0 < |t.slots|
    decreases ops
  {
    if ops == [] then []
    else
      ExecKeepsCapacity(t, ops[0]);
      var (t', a) := Exec(t, ops[0]);
      [a] + Answers(t', ops[1..])
  }

  function MapAnswers<V>(m: map<int, Option<V>>, capacity: nat, ops: seq<Op<V>>): seq<Answer<V>>
    decreases ops
  {
    if ops == [] then []
    else
      var (m', a) := MapExec(m, capacity, ops[0]);
      [a] + MapAnswers(m', capacity, ops[1..])
  }

  /** Every removal of the history frees a slot that cuts nothing off. */
  ghost predicate RemovalsSafe<V>(t: Table<V>, ops: seq<Op<V>>)
    requires 0 < |t.slots|
    decreases ops
  {
    ops != [] ==>
      && (ops[0].DoRemove? ==> SafeToRemove(t, ops[0].key))
      && (ExecKeepsCapacity(t, ops[0]); RemovalsSafe(Exec(t, ops[0]).0, ops[1..]))
  }

  lemma ExecRefines<V(!new)>(t: Table<V>, m: map<int, Option<V>>, op: Op<V>)
    requires Refines(t, m) && op.key != FREE
    requires op.DoRemove? ==> SafeToRemove(t, op.key)
    ensures Exec(t, op).1 == MapExec(m, |t.slots|, op).1
    ensures Refines(Exec(t, op).0, MapExec(m, |t.slots|, op).0)
    ensures |Exec(t, op).0.slots| == |t.slots|
  {
    FindIsLookup(t, m, op.key);
    match op
    case DoPut(k, data, replace) => PutRefines(t, m, k, data, replace);
    case DoRemove(k) => RemoveRefines(t, m, k);
    case _ =>
  }

  /** Any history whose removals are safe answers as a finite map does. */
  lemma {:induction false} HistoryRefinesMap<V(!new)>(t: Table<V>, m: map<int, Option<V>>, ops: seq<Op<V>>)
    requires Refines(t, m) && RemovalsSafe(t, ops)
    requires forall op :: op in ops ==> op.key != FREE
    ensures Answers(t, ops) == MapAnswers(m, |t.slots|, ops)
    decreases ops
  {
    if ops != [] {
      ExecRefines(t, m, ops[0]);
      HistoryRefinesMap(Exec(t, ops[0]).0, MapExec(m, |t.slots|, ops[0]).0, ops[1..]);
    }
  }

  lemma {:induction false} NoRemovalIsSafe<V>(t: Table<V>, ops: seq<Op<V>>)
    requires 0 < |t.slots|
    requires forall op :: op in ops ==> !op.DoRemove?
    ensures RemovalsSafe(t, ops)
    decreases ops
  {
    if ops != [] {
      ExecKeepsCapacity(t, ops[0]);
      NoRemovalIsSafe(Exec(t, ops[0]).0, ops[1..]);
    }
  }

  /** Histories without removal refine a finite map from the empty table on,
      whatever the keys collide and wherever probing wraps around. */
  lemma InsertOnlyRefinesMap<V(!new)>(capacity: nat, ops: seq<Op<V>>)
    requires 0 < capacity
    requires forall op :: op in ops ==> op.key != FREE && !op.DoRemove?
    ensures Answers(Empty(capacity), ops) == MapAnswers(map[], capacity, ops)
  {
    EmptyRefines<V>(capacity);
    NoRemovalIsSafe(Empty<V>(capacity), ops);
    HistoryRefinesMap(Empty<V>(capacity), map[], ops);
  }

  /** Every stored key sits in its home slot and is one of `keys`. */
  ghost predicate AllAtHome<V>(t: Table<V>, keys: set<int>) {
    forall i :: IsLive(t.slots, i) ==> t.slots[i].key in keys && i == Home(t.slots[i].key, |t.slots|)
  }

  ghost predicate DistinctHomes(keys: set<int>, capacity: nat)
    requires 0 < capacity
  {
    forall k, l :: k in keys && l in keys && Home(k, capacity) == Home(l, capacity) ==> k == l
  }

  lemma ExecKeepsAtHome<V(!new)>(t: Table<V>, keys: set<int>, op: Op<V>)
    requires 0 < |t.slots| && AllAtHome(t, keys) && DistinctHomes(keys, |t.slots|)
    requires op.key in keys && FREE !in keys
    ensures AllAtHome(Exec(t, op).0, keys)
    ensures op.DoRemove? ==> SafeToRemove(t, op.key)
  {
    var h := Home(op.key, |t.slots|);
    assert IsLive(t.slots, h) ==> t.slots[h].key == op.key;
    assert Scan(t.slots, op.key, 0) == Some(h);
    var s' := Exec(t, op).0.slots;
    assert s' == t.slots || s' == t.slots[h := s'[h]];
    forall i | IsLive(s', i) ensures s'[i].key in keys && i == Home(s'[i].key, |s'|) {
      if i != h {
        assert IsLive(t.slots, i);
      }
    }
  }

  lemma {:induction false} DistinctHomesAreSafe<V(!new)>(t: Table<V>, keys: set<int>, ops: seq<Op<V>>)
    requires 0 < |t.slots| && AllAtHome(t, keys) && DistinctHomes(keys, |t.slots|)
    requires FREE !in keys && forall op :: op in ops ==> op.key in keys
    ensures RemovalsSafe(t, ops)
    decreases ops
  {
    if ops != [] {
      ExecKeepsAtHome(t, keys, ops[0]);
      ExecKeepsCapacity(t, ops[0]);
      DistinctHomesAreSafe(Exec(t, ops[0]).0, keys, ops[1..]);
    }
  }

  /** All histories over keys with pairwise distinct homes refine a finite map. */
  lemma DistinctHomesRefineMap<V(!new)>(capacity: nat, keys: set<int>, ops: seq<Op<V>>)
    requires 0 < capacity && FREE !in keys && DistinctHomes(keys, capacity)
    requires forall op :: op in ops ==> op.key in keys
    ensures Answers(Empty(capacity), ops) == MapAnswers(map[], capacity, ops)
  {
    EmptyRefines<V>(capacity);
    assert AllAtHome(Empty<V>(capacity), keys);
    DistinctHomesAreSafe(Empty<V>(capacity), keys, ops);
    HistoryRefinesMap(Empty<V>(capacity), map[], ops);
  }

  lemma SmallKeyHome(key: int, capacity: nat)
    requires 0 <= key < capacity <= 0x1_0000_0000
    ensures Home(key, capacity) == key
  {
    assert key % 0x1_0000_0000 == key;
    SmallRemainder(key, capacity);
  }

  lemma SmallRemainder(x: nat, n: nat)
    requires x < n
    ensures x % n == x
  {
  }

  /** File descriptors below the capacity, and rule lines, are such keys. */
  lemma SmallKeysRefineMap<V(!new)>(capacity: nat, ops: seq<Op<V>>)
    requires 0 < capacity <= 0x1_0000_0000
    requires forall op :: op in ops ==> 0 <= op.key < capacity
    ensures Answers(Empty(capacity), ops) == MapAnswers(map[], capacity, ops)
  {
    hide Home;
    var keys := set op | op in ops :: op.key;
    forall k | k in keys ensures Home(k, capacity) == k {
      SmallKeyHome(k, capacity);
    }
    DistinctHomesRefineMap(capacity, keys, ops);
  }
}
