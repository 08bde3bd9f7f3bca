/** The open-addressing table of `src/ligHT.c`: linear probing with wrap-around
    and removal without tombstones.

    The functions over `Table` say what each operation computes; the class `LigHT`
    is the table itself, updated in place, and each of its methods is proved to
    compute exactly that function. */
module Light {
  import opened Options

  /** The key of a slot that holds nothing. */
  const FREE: int := -1

  datatype Entry<V> = Entry(key: int, data: Option<V>)

  datatype Table<V> = Table(slots: seq<Entry<V>>, length: int)

  /** Where probing for a key starts: the key as a 32-bit unsigned, modulo the capacity. */
  function Home(key: int, capacity: nat): (h: nat)
    requires 0 < capacity
    ensures h < capacity
  {
    (key % 0x1_0000_0000) % capacity
  }

  /** The slot reached after `d` probes from `h`. */
  function Slot(h: nat, d: nat, capacity: nat): (i: nat)
    requires h < capacity && d < capacity
    ensures i < capacity
  {
    if h + d < capacity then h + d else h + d - capacity
  }

  /** The number of probes that lead from `h` to slot `i`. */
  function Distance(h: nat, i: nat, capacity: nat): (d: nat)
    requires h < capacity && i < capacity
    ensures d < capacity && Slot(h, d, capacity) == i
  {
    if h <= i then i - h else i + capacity - h
  }

  /** The first slot, from probe `d` on, that holds the key or nothing. */
  function Scan<V>(s: seq<Entry<V>>, key: int, d: nat): (r: Option<nat>)
    requires 0 < |s| && d <= |s|
    ensures r.Some? ==> r.value < |s| && (s[r.value].key == key || s[r.value].key == FREE)
    decreases |s| - d
  {
    if d == |s| then
      None
    else
      var i := Slot(Home(key, |s|), d, |s|);
      if s[i].key == key || s[i].key == FREE then Some(i) else Scan(s, key, d + 1)
  }

  function FindEntry<V>(s: seq<Entry<V>>, key: int, force: bool): (r: Option<nat>)
    requires 0 < |s|
    ensures r.Some? ==> r.value < |s|
    ensures r.Some? && !force ==> s[r.value].key == key
    ensures r.Some? && s[r.value].key != key ==> s[r.value].key == FREE
  {
    match Scan(s, key, 0)
    case None => None
    case Some(i) => if s[i].key == key || force then Some(i) else None
  }

  function Put<V>(t: Table<V>, key: int, data: Option<V>, replace: bool): (Table<V>, bool)
    requires 0 < |t.slots|
  {
    match FindEntry(t.slots, key, true)
    case None => (t, false)
    case Some(i) =>
      if t.slots[i].key == key && !replace then
        (t, false)
      else
        (Table(t.slots[i := Entry(key, data)], t.length + (if t.slots[i].key == FREE then 1 else 0)), true)
  }

  function Contains<V>(t: Table<V>, key: int): bool
    requires 0 < |t.slots|
  {
    FindEntry(t.slots, key, false).Some?
  }

  function Get<V>(t: Table<V>, key: int): Option<V>
    requires 0 < |t.slots|
  {
    match FindEntry(t.slots, key, false)
    case None => None
    case Some(i) => t.slots[i].data
  }

  function Remove<V>(t: Table<V>, key: int): (Table<V>, bool)
    requires 0 < |t.slots|
  {
    match FindEntry(t.slots, key, false)
    case None => (t, false)
    case Some(i) =>
      if t.slots[i].key == FREE then (t, true)
      else (Table(t.slots[i := Entry(FREE, None)], t.length - 1), true)
  }

  function Empty<V>(capacity: nat): (t: Table<V>)
  {
    Table(seq(capacity, _ => Entry(FREE, None)), 0)
  }

  /** The table as the program keeps it. The callback that frees user data is
      absent: both tables of the program are built without one. */
  class LigHT<V(0)> {
    var data: array<Entry<V>>
    var length: int

    ghost function Model(): Table<V>
      reads this, data
    {
      Table(data[..], length)
    }

    constructor (capacity: nat)
      ensures fresh(data) && data.Length == capacity
      ensures Model() == Empty(capacity)
    {
      length := 0;
      data := new Entry<V>[capacity];
      new;
      for i := 0 to capacity
        invariant length == 0 && fresh(data) && data.Length == capacity
        invariant forall j :: 0 <= j < i ==> data[j] == Entry(FREE, None)
      {
        data[i] := Entry(FREE, None);
      }
      assert data[..] == seq(capacity, _ => Entry<V>.Entry(FREE, None));
    }

    method Find(key: int, force: bool) returns (r: Option<nat>)
      requires 0 < data.Length
      ensures r == FindEntry(data[..], key, force)
    {
      var expected := Home(key, data.Length);
      var offset := expected;
      ghost var d := 0;
      while true
        invariant 0 <= d < data.Length && offset == Slot(expected, d, data.Length)
        invariant Scan(data[..], key, 0) == Scan(data[..], key, d)
        decreases data.Length - d
      {
        if data[offset].key == key {
          return Some(offset);
        } else if data[offset].key == FREE {
          return if force then Some(offset) else None;
        }
        offset := offset + 1;
        if offset == data.Length {
          offset := 0;
        }
        d := d + 1;
        if expected == offset {
          break;
        }
      }
      return None;
    }

    method PutEntry(key: int, value: Option<V>, replace: bool) returns (ok: bool)
      requires 0 < data.Length
      modifies this, data
      ensures data == old(data)
      ensures (Model(), ok) == Put(old(Model()), key, value, replace)
    {
      var entry := Find(key, true);
      if entry.Some? && data[entry.value].key == key && !replace {
        entry := None;
      } else if entry.Some? {
        FreeEntry(entry.value);
        data[entry.value] := Entry(key, value);
        length := length + 1;
        assert data[..] == old(data[..])[entry.value := Entry(key, value)];
      }
      return entry.Some?;
    }

    /** The macro that empties a live slot. */
    method FreeEntry(i: nat)
      requires i < data.Length
      modifies this, data
      ensures data == old(data)
      ensures Model() == if old(data[i]).key == FREE then old(Model())
                         else Table(old(data[..])[i := Entry(FREE, None)], old(length) - 1)
    {
      if data[i].key != FREE {
        data[i] := Entry(FREE, None);
        length := length - 1;
      }
    }

    method ContainsEntry(key: int) returns (present: bool)
      requires 0 < data.Length
      ensures present == Contains(Model(), key)
    {
      var entry := Find(key, false);
      return entry.Some?;
    }

    method GetEntry(key: int) returns (value: Option<V>)
      requires 0 < data.Length
      ensures value == Get(Model(), key)
    {
      var entry := Find(key, false);
      return if entry.None? then None else data[entry.value].data;
    }

    method RemoveEntry(key: int) returns (ok: bool)
      requires 0 < data.Length
      modifies this, data
      ensures data == old(data)
      ensures (Model(), ok) == Remove(old(Model()), key)
    {
      var entry := Find(key, false);
      if entry.Some? {
        FreeEntry(entry.value);
      }
      return entry.Some?;
    }
  }
}
