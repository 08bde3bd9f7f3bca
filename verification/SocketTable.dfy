/** The registry of sockets as the program keeps it, in a table of `src/ligHT.c`
    (`src/binding.c`): every interleaving behaves as with a map as long as no two
    descriptors share a home in the table, and only then. */
module SocketTable {
  import opened Options
  import opened Light
  import opened LightMap
  import opened SocketInfos
  import opened Registry

  /** The capacity of the table of sockets. */
  const CAPACITY: nat := 16380

  datatype Tabled = Tabled(infos: seq<Info>, table: Table<nat>, threads: seq<Phase>)

  predicate HasTable(s: Tabled) {
    |s.table.slots| == CAPACITY
  }

  /** The steps of module Registry on the table; whether a store fails is not looked at. */
  function Moved(s: Tabled, mv: Move): (r: Tabled)
    requires HasTable(s) && Enabled(s.infos, s.threads, mv)
    ensures HasTable(r)
  {
    var p := s.threads[mv.t];
    match mv
    case Find(t, fd, purpose) =>
      s.(threads := s.threads[t := Looking(fd, purpose, Get(s.table, fd))])
    case Publish(t, isSocket) =>
      var (infos, entry, q) := Published(s.infos, p, isSocket);
      Tabled(infos, Put(s.table, p.fd, entry, true).0, s.threads[t := q])
    case Withdraw(t) =>
      s.(table := Remove(s.table, p.fd).0, threads := s.threads[t := Using(p.o, true, false)])
    case _ =>
      var (infos, q) := Act(s.infos, p, mv);
      Tabled(infos, s.table, s.threads[mv.t := q])
  }

  // ----- the table stands for the map -----

  /** The look-ups are of descriptors of `fds`, or of -1, for which there is no description. */
  predicate Covers(fds: set<int>, p: Phase) {
    match p
    case Looking(fd, _, found) => fd in fds || (fd == FREE && found.None?)
    case Replacing(fd, _) => fd in fds || fd == FREE
    case Withdrawing(fd, _) => fd in fds
    case _ => true
  }

  ghost predicate FreeIsEmpty(t: Table<nat>) {
    forall i :: 0 <= i < |t.slots| && t.slots[i].key == FREE ==> t.slots[i].data == None
  }

  /** The table stands for the map, but for the entry of -1. */
  ghost predicate TableShows(t: Table<nat>, sockets: map<int, Option<nat>>, fds: set<int>) {
    && |t.slots| == CAPACITY && Stores(t, sockets - {FREE}) && AllAtHome(t, fds) && FreeIsEmpty(t)
    && Found(sockets, FREE).None?
  }

  /** The table machine is in the state that the map machine is in. */
  ghost predicate Shows(ts: Tabled, s: State, fds: set<int>) {
    && ts.infos == s.infos && ts.threads == s.threads && TableShows(ts.table, s.sockets, fds)
    && (forall t :: 0 <= t < |s.threads| ==> Covers(fds, s.threads[t]))
    && (forall o :: 0 <= o < |s.infos| ==> s.infos[o].fd in fds)
  }

  ghost predicate Separate(fds: set<int>) {
    FREE !in fds && DistinctHomes(fds, CAPACITY)
  }

  lemma GetShows(t: Table<nat>, sockets: map<int, Option<nat>>, fds: set<int>, fd: int)
    requires TableShows(t, sockets, fds)
    ensures Get(t, fd) == Found(sockets, fd)
  {
    if fd != FREE {
      hide FindEntry, AllAtHome, Stores;
      FindStores(t, sockets - {FREE}, fd);
    } else {
      hide AllAtHome, Stores, Scan;
    }
  }

  /** Descriptors with homes of their own never meet a full table. */
  lemma RoomFor(t: Table<nat>, m: map<int, Option<nat>>, fds: set<int>, fd: int)
    requires Stores(t, m) && AllAtHome(t, fds) && |t.slots| == CAPACITY && Separate(fds) && fd in fds && fd !in m
    ensures |m| < CAPACITY
  {
    FullIsCapacity(Table(t.slots, |m|), m);
    var h := Home(fd, CAPACITY);
    if t.slots[h].key != FREE {
      assert IsLive(t.slots, h);
    }
  }

  lemma PutShows(t: Table<nat>, sockets: map<int, Option<nat>>, fds: set<int>, fd: int, data: Option<nat>)
    requires TableShows(t, sockets, fds) && Separate(fds) && fd in fds
    ensures TableShows(Put(t, fd, data, true).0, sockets[fd := data], fds)
  {
    hide Put, Stores, AllAtHome, DistinctHomes, FreeIsEmpty;
    var m := sockets - {FREE};
    if fd !in m {
      RoomFor(t, m, fds, fd);
    }
    PutStores(t, m, fd, data, true);
    assert sockets[fd := data] - {FREE} == m[fd := data];
    ExecKeepsAtHome(t, fds, DoPut(fd, data, true));
    PutKeepsFree(t, fd, data);
  }

  lemma PutKeepsFree(t: Table<nat>, fd: int, data: Option<nat>)
    requires 0 < |t.slots| && FreeIsEmpty(t) && (fd == FREE ==> data.None?)
    ensures FreeIsEmpty(Put(t, fd, data, true).0)
  {
    hide Scan;
  }

  /** A null pointer stored under -1 raises the count of the table and does nothing else. */
  lemma PutReservedShows(t: Table<nat>, sockets: map<int, Option<nat>>, fds: set<int>)
    requires TableShows(t, sockets, fds)
    ensures TableShows(Put(t, FREE, None, true).0, sockets[FREE := None], fds)
  {
    hide Stores, AllAtHome, Put;
    var m := sockets - {FREE};
    ReservedStores(t, m, None, true);
    assert sockets[FREE := None] - {FREE} == m;
    ReservedChangesNothing(t, fds);
  }

  lemma ReservedChangesNothing(t: Table<nat>, fds: set<int>)
    requires 0 < |t.slots| && FreeIsEmpty(t)
    ensures Put(t, FREE, None, true).0.slots == t.slots
    ensures FreeIsEmpty(Put(t, FREE, None, true).0) && (AllAtHome(t, fds) ==> AllAtHome(Put(t, FREE, None, true).0, fds))
  {
    hide Scan;
  }

  lemma RemoveShows(t: Table<nat>, sockets: map<int, Option<nat>>, fds: set<int>, fd: int)
    requires TableShows(t, sockets, fds) && Separate(fds) && fd in fds
    ensures TableShows(Remove(t, fd).0, sockets - {fd}, fds)
  {
    hide Remove, Stores, AllAtHome, DistinctHomes, SafeToRemove, FreeIsEmpty;
    var m := sockets - {FREE};
    ExecKeepsAtHome(t, fds, DoRemove(fd));
    RemoveStores(t, m, fd);
    assert (sockets - {fd}) - {FREE} == m - {fd};
    RemoveKeepsFree(t, fd);
  }

  lemma RemoveKeepsFree(t: Table<nat>, fd: int)
    requires 0 < |t.slots| && FreeIsEmpty(t)
    ensures FreeIsEmpty(Remove(t, fd).0)
  {
    hide Scan;
  }

  /** The moves look up descriptors of `fds`, or -1. */
  predicate Over(mv: Move, fds: set<int>) {
    mv.Find? ==> mv.fd in fds || mv.fd == FREE
  }

  lemma PublishShows(ts: Tabled, s: State, fds: set<int>, mv: Move)
    requires Shows(ts, s, fds) && Separate(fds) && Enabled(s.infos, s.threads, mv) && mv.Publish?
    ensures Shows(Moved(ts, mv), Apply(s, mv), fds)
  {
    hide Separate, Put, TableShows, Lock, Init;
    var p := s.threads[mv.t];
    assert Covers(fds, p);
    assert forall o :: 0 <= o < |s.infos| ==> s.infos[o].fd in fds;
    PublishedShows(ts.table, s.sockets, fds, p, s.infos, mv.isSocket);
    NewIsCovered(s.infos, fds, p, mv.isSocket);
  }

  lemma PublishedShows(t: Table<nat>, sockets: map<int, Option<nat>>, fds: set<int>, p: Phase, infos: seq<Info>, isSocket: bool)
    requires TableShows(t, sockets, fds) && Separate(fds) && p.Replacing? && Covers(fds, p) && (isSocket ==> p.fd != FREE)
    ensures var entry := Published(infos, p, isSocket).1;
            0 < |t.slots| && TableShows(Put(t, p.fd, entry, true).0, sockets[p.fd := entry], fds)
  {
    hide Put, Stores, AllAtHome, DistinctHomes, FreeIsEmpty;
    if p.fd == FREE {
      PutReservedShows(t, sockets, fds);
    } else {
      PutShows(t, sockets, fds, p.fd, Published(infos, p, isSocket).1);
    }
  }

  lemma NewIsCovered(infos: seq<Info>, fds: set<int>, p: Phase, isSocket: bool)
    requires p.Replacing? && Covers(fds, p) && (isSocket ==> p.fd != FREE)
    requires forall o :: 0 <= o < |infos| ==> infos[o].fd in fds
    ensures var (infos', _, q) := Published(infos, p, isSocket);
            Covers(fds, q) && forall o :: 0 <= o < |infos'| ==> infos'[o].fd in fds
  {
  }

  lemma ActShows(ts: Tabled, s: State, fds: set<int>, mv: Move)
    requires Shows(ts, s, fds) && Enabled(s.infos, s.threads, mv) && PhaseOk(s.infos, s.threads[mv.t])
    requires mv.Take? || mv.Condemn? || mv.GiveBack? || mv.Finish?
    ensures Shows(Moved(ts, mv), Apply(s, mv), fds)
  {
    hide TableShows;
    var p := s.threads[mv.t];
    assert Covers(fds, p);
    ApplyShape(s, mv);
    var r := Apply(s, mv);
    forall o: nat | o < |r.infos| ensures r.infos[o].fd in fds {
      assert Touched(p, r.threads[mv.t], s.infos[o], r.infos[o], o);
    }
  }

  /** Every step of the table machine is the same step of the map machine. */
  lemma MoveShows(ts: Tabled, s: State, fds: set<int>, mv: Move)
    requires Shows(ts, s, fds) && Separate(fds) && Over(mv, fds) && HasTable(ts) && Enabled(ts.infos, ts.threads, mv) && Linked(s)
    ensures Shows(Moved(ts, mv), Apply(s, mv), fds)
  {
    hide Get, TableShows, Put, Separate;
    if mv.Find? {
      GetShows(ts.table, s.sockets, fds, mv.fd);
      FoundIsCovered(ts, s, fds, mv.fd);
    } else if mv.Publish? {
      PublishShows(ts, s, fds, mv);
    } else if mv.Withdraw? {
      assert Covers(fds, s.threads[mv.t]);
      RemoveShows(ts.table, s.sockets, fds, s.threads[mv.t].fd);
      hide Remove;
    } else {
      ActShows(ts, s, fds, mv);
    }
  }

  lemma FoundIsCovered(ts: Tabled, s: State, fds: set<int>, fd: int)
    requires Shows(ts, s, fds) && (fd in fds || fd == FREE)
    ensures forall purpose :: Covers(fds, Looking(fd, purpose, Found(s.sockets, fd)))
  {
    hide Stores, AllAtHome, FreeIsEmpty;
  }

  // ----- every interleaving -----

  predicate Leads(s: Tabled, moves: seq<Move>, s': Tabled): (ok: bool)
    requires HasTable(s)
    ensures ok ==> HasTable(s')
    decreases moves
  {
    if moves == [] then s' == s
    else Enabled(s.infos, s.threads, moves[0]) && Leads(Moved(s, moves[0]), moves[1..], s')
  }

  predicate CalmMove(s: Tabled, mv: Move, fd: int) {
    Enabled(s.infos, s.threads, mv) && !Disturbs(s.infos, s.threads, mv, fd)
  }

  /** No step of the run disturbs a look-up of `fd`. */
  predicate Quiet(s: Tabled, moves: seq<Move>, fd: int)
    requires HasTable(s)
    decreases moves
  {
    moves == [] || (CalmMove(s, moves[0], fd) && Quiet(Moved(s, moves[0]), moves[1..], fd))
  }

  ghost predicate Begins(s: Tabled) {
    s.infos == [] && s.table == Empty(CAPACITY) && forall t :: 0 <= t < |s.threads| ==> s.threads[t] == Outside
  }

  predicate AllOver(moves: seq<Move>, fds: set<int>) {
    forall i :: 0 <= i < |moves| ==> Over(moves[i], fds)
  }

  /** The table finds description `o` for its descriptor. */
  predicate InTable(s: Tabled, o: nat)
    requires HasTable(s)
  {
    o < |s.infos| && Get(s.table, s.infos[o].fd) == Some(o)
  }

  lemma BeginShows(ts: Tabled, fds: set<int>)
    requires Begins(ts)
    ensures Initial(State([], map[], ts.threads)) && Shows(ts, State([], map[], ts.threads), fds) && Linked(State([], map[], ts.threads))
  {
    EmptyRefines<nat>(CAPACITY);
    assert forall i :: !IsLive(Empty<nat>(CAPACITY).slots, i);
    var none: map<int, Option<nat>> := map[];
    assert none - {FREE} == none;
    hide Refines;
  }

  /** Every run of the table machine is a run of the map machine, with the same overlaps. */
  lemma {:induction false} LeadsShows(ts: Tabled, s: State, fds: set<int>, moves: seq<Move>, ts': Tabled) returns (s': State)
    requires Shows(ts, s, fds) && Linked(s) && Separate(fds) && AllOver(moves, fds) && HasTable(ts) && Leads(ts, moves, ts')
    ensures Path(s, moves, s') && Shows(ts', s', fds) && Linked(s')
    ensures forall fd :: Quiet(ts, moves, fd) <==> Undisturbed(s, moves, fd)
    decreases moves
  {
    SameState(ts, s, fds);
    hide Shows, Apply, Enabled, Disturbs, Moved, Over, Separate, Linked;
    if moves == [] {
      s' := s;
    } else {
      assert Over(moves[0], fds);
      MoveShows(ts, s, fds, moves[0]);
      MoveKeepsLinked(s, moves[0]);
      s' := LeadsShows(Moved(ts, moves[0]), Apply(s, moves[0]), fds, moves[1..], ts');
    }
  }

  lemma SameState(ts: Tabled, s: State, fds: set<int>)
    requires Shows(ts, s, fds)
    ensures ts.infos == s.infos && ts.threads == s.threads && HasTable(ts)
  {
  }

  lemma ShowRun(s0: Tabled, fds: set<int>, moves: seq<Move>, s: Tabled) returns (r0: State, r: State)
    requires Begins(s0) && Separate(fds) && AllOver(moves, fds) && HasTable(s0) && Leads(s0, moves, s)
    ensures Initial(r0) && Path(r0, moves, r) && Shows(s, r, fds) && Linked(r)
    ensures forall fd :: Quiet(s0, moves, fd) <==> Undisturbed(r0, moves, fd)
    ensures HasTable(s) && s.infos == r.infos && s.threads == r.threads
    ensures forall o: nat :: o < |s.infos| ==> (InTable(s, o) <==> Registered(r, o))
  {
    hide Leads, Path, Shows, AllOver, Quiet, Undisturbed, Get;
    BeginShows(s0, fds);
    r0 := State([], map[], s0.threads);
    r := LeadsShows(s0, r0, fds, moves, s);
    SameState(s, r, fds);
    forall o: nat | o < |s.infos| ensures InTable(s, o) <==> Registered(r, o) {
      RegisteredShows(s, r, fds, o);
    }
  }

  lemma RegisteredShows(ts: Tabled, s: State, fds: set<int>, o: nat)
    requires Shows(ts, s, fds) && o < |s.infos|
    ensures HasTable(ts) && ts.infos == s.infos && (InTable(ts, o) <==> Registered(s, o))
  {
    GetShows(ts.table, s.sockets, fds, s.infos[o].fd);
    hide Get;
  }

  predicate InDestruction(s: Tabled, o: nat) {
    exists t :: 0 <= t < |s.threads| && s.threads[t] == Destroying(o)
  }

  predicate InReplacement(s: Tabled, fd: int) {
    exists t :: 0 <= t < |s.threads| && s.threads[t].Replacing? && s.threads[t].fd == fd
  }

  /** In every interleaving of the calls of any number of threads on descriptors with homes of
      their own: the count of a description is the number of calls that hold it. */
  lemma CountIsUsers(fds: set<int>, s0: Tabled, moves: seq<Move>, s: Tabled, o: nat)
    requires Begins(s0) && Separate(fds) && AllOver(moves, fds) && HasTable(s0) && Leads(s0, moves, s) && o < |s.infos|
    ensures s.infos[o].sem == Users(s.threads, o)
  {
    var r0, r := ShowRun(s0, fds, moves, s);
    Registry.CountIsUsers(r0, moves, r, o);
    hide Path, Leads, Shows;
  }

  /** And if no look-up of its descriptor is disturbed: a description is destroyed at most once,
      unused, and its entry is replaced at the latest by the look-up that condemned it; and until
      then the table finds it, a call holds it, or a thread is destroying it. */
  lemma DescriptionsAreSafe(fds: set<int>, s0: Tabled, moves: seq<Move>, s: Tabled, o: nat)
    requires Begins(s0) && Separate(fds) && AllOver(moves, fds) && HasTable(s0) && Leads(s0, moves, s) && o < |s.infos|
    requires Quiet(s0, moves, s.infos[o].fd)
    ensures HasTable(s)
    ensures s.infos[o].destroyed <= 1
    ensures s.infos[o].destroyed == 1 ==>
              && s.infos[o].toDestroy && !InDestruction(s, o) && (InTable(s, o) ==> InReplacement(s, s.infos[o].fd))
              && forall t :: 0 <= t < |s.threads| ==> !Holds(s.threads[t], o)
    ensures s.infos[o].destroyed == 0 ==>
              InTable(s, o) || InDestruction(s, o) || exists t :: 0 <= t < |s.threads| && Holds(s.threads[t], o)
  {
    var r0, r := ShowRun(s0, fds, moves, s);
    Registry.DescriptionsAreSafe(r0, moves, r, o);
    hide InTable, Registered, Path, Leads, Shows, Quiet, Undisturbed;
  }

  /** Then a step destroys a description only when no call holds it and it is condemned. */
  lemma DestroysOnlyUnused(fds: set<int>, s0: Tabled, moves: seq<Move>, s: Tabled, mv: Move, o: nat)
    requires Begins(s0) && Separate(fds) && AllOver(moves, fds) && HasTable(s0) && Leads(s0, moves, s) && o < |s.infos|
    requires Quiet(s0, moves, s.infos[o].fd) && HasTable(s) && CalmMove(s, mv, s.infos[o].fd) && Over(mv, fds)
    requires o < |Moved(s, mv).infos| && Moved(s, mv).infos[o].destroyed != s.infos[o].destroyed
    ensures s.infos[o].destroyed == 0 && Moved(s, mv).infos[o].destroyed == 1 && Moved(s, mv).infos[o].toDestroy
    ensures forall t :: 0 <= t < |s.threads| ==> !Holds(s.threads[t], o)
  {
    var r0, r := ShowRun(s0, fds, moves, s);
    MoveShows(s, r, fds, mv);
    SameState(Moved(s, mv), Apply(r, mv), fds);
    hide Moved, Disturbs, Enabled, Leads, Path, Shows, Apply, Quiet, Undisturbed, Linked;
    Registry.DestroysOnlyUnused(r0, moves, r, mv, o);
  }

  /** A look-up takes a description that is destroyed, or about to be, only in a run in which a
      look-up of the same descriptor is disturbed. */
  lemma OnlyOverlapsTakeDestroyed(fds: set<int>, s0: Tabled, moves: seq<Move>, s: Tabled, mv: Move, o: nat)
    requires Begins(s0) && Separate(fds) && AllOver(moves, fds) && HasTable(s0) && Leads(s0, moves, s)
    requires Enabled(s.infos, s.threads, mv) && mv.Take? && s.threads[mv.t].found == Some(o)
    requires s.infos[o].destroyed > 0 || InDestruction(s, o)
    ensures var fd := s.threads[mv.t].fd; !Quiet(s0, moves, fd) || Disturbs(s.infos, s.threads, mv, fd)
  {
    var r0, r := ShowRun(s0, fds, moves, s);
    var fd := s.threads[mv.t].fd;
    hide Leads, Path, Shows, Quiet, Disturbs, AllOver, Initial, Registered, InTable;
    if Undisturbed(r0, moves, fd) && !Disturbs(s.infos, s.threads, mv, fd) {
      QuietTakesLive(r0, moves, r, mv, o);
    }
  }

  /** File descriptors below the capacity have homes of their own; -1 needs none. */
  lemma SmallDescriptorsAreSeparate(moves: seq<Move>) returns (fds: set<int>)
    requires forall i :: 0 <= i < |moves| && moves[i].Find? ==> FREE <= moves[i].fd < CAPACITY
    ensures Separate(fds) && AllOver(moves, fds)
  {
    hide Home;
    fds := set mv | mv in moves && mv.Find? && mv.fd != FREE :: mv.fd;
    forall k | k in fds ensures Home(k, CAPACITY) == k && 0 <= k < CAPACITY {
      SmallKeyHome(k, CAPACITY);
    }
  }

  // ----- descriptors that share a home -----

  lemma ProbesHome(s: seq<Entry<nat>>, key: int)
    requires 0 < |s| && (s[Home(key, |s|)].key == key || s[Home(key, |s|)].key == FREE)
    ensures Scan(s, key, 0) == Some(Home(key, |s|))
  {
    ScanFindsFirst(s, key, 0, Home(key, |s|));
  }

  lemma ProbesNext(s: seq<Entry<nat>>, key: int)
    requires 1 < |s| && s[Home(key, |s|)].key != key && s[Home(key, |s|)].key != FREE
    requires var i := Slot(Home(key, |s|), 1, |s|); s[i].key == key || s[i].key == FREE
    ensures Scan(s, key, 0) == Some(Slot(Home(key, |s|), 1, |s|))
  {
    var h := Home(key, |s|);
    var i := Slot(h, 1, |s|);
    DistanceOfSlot(h, 1, |s|);
    forall j: nat | j < |s| && 0 <= Distance(h, j, |s|) < Distance(h, i, |s|) ensures s[j].key != key && s[j].key != FREE {
      assert j == h;
    }
    ScanFindsFirst(s, key, 0, i);
  }

  function OneStored(a: int): Table<nat> {
    var t := Empty<nat>(CAPACITY);
    Table(t.slots[Home(a, CAPACITY) := Entry(a, Some(0))], 1)
  }

  function TwoStored(a: int, b: int): Table<nat> {
    var t := OneStored(a);
    Table(t.slots[Slot(Home(a, CAPACITY), 1, CAPACITY) := Entry(b, Some(1))], 2)
  }

  function OneRemoved(a: int, b: int): Table<nat> {
    var t := TwoStored(a, b);
    Table(t.slots[Home(a, CAPACITY) := Entry(FREE, None)], 1)
  }

  predicate Collide(a: int, b: int) {
    a != b && a != FREE && b != FREE && Home(a, CAPACITY) == Home(b, CAPACITY)
  }

  lemma FirstStores(a: int)
    requires a != FREE
    ensures Get(Empty<nat>(CAPACITY), a) == None
    ensures Put(Empty<nat>(CAPACITY), a, Some(0), true).0 == OneStored(a)
  {
    ProbesHome(Empty<nat>(CAPACITY).slots, a);
  }

  lemma SecondStores(a: int, b: int)
    requires Collide(a, b)
    ensures Get(OneStored(a), b) == None
    ensures Put(OneStored(a), b, Some(1), true).0 == TwoStored(a, b)
  {
    ProbesNext(OneStored(a).slots, b);
  }

  /** Removing the first leaves a free slot in front of the second. */
  lemma RemovalHides(a: int, b: int)
    requires Collide(a, b)
    ensures Get(TwoStored(a, b), a) == Some(0)
    ensures Remove(TwoStored(a, b), a).0 == OneRemoved(a, b)
    ensures Get(OneRemoved(a, b), b) == None
  {
    ProbesHome(TwoStored(a, b).slots, a);
    ProbesHome(OneRemoved(a, b).slots, b);
  }

  lemma {:induction false} Then(s0: Tabled, moves: seq<Move>, s: Tabled, mv: Move) returns (moves': seq<Move>, s': Tabled)
    requires HasTable(s0) && Leads(s0, moves, s) && Enabled(s.infos, s.threads, mv)
    ensures moves' == moves + [mv] && s' == Moved(s, mv) && Leads(s0, moves', s')
    decreases moves
  {
    moves', s' := moves + [mv], Moved(s, mv);
    hide Moved, Enabled;
    if moves == [] {
      assert moves'[1..] == [];
    } else {
      var rest, _ := Then(Moved(s0, moves[0]), moves[1..], s, mv);
      assert moves'[1..] == rest;
    }
  }

  /** A thread uses a new descriptor and gives its description back. */
  lemma Opens(s0: Tabled, moves: seq<Move>, s: Tabled, fd: int) returns (moves': seq<Move>, s': Tabled)
    requires HasTable(s0) && Leads(s0, moves, s) && s.threads == [Outside] && Get(s.table, fd) == None && fd != FREE
    ensures moves' == moves + [Find(0, fd, ToUse), Take(0, true), Publish(0, true), GiveBack(0)]
    ensures Leads(s0, moves', s')
    ensures s' == Tabled(s.infos + [Info(fd, 0, false, 0)], Put(s.table, fd, Some(|s.infos|), true).0, [Outside])
  {
    hide Get, Put, Leads;
    var n := |s.infos|;
    moves', s' := Then(s0, moves, s, Find(0, fd, ToUse));
    moves', s' := Then(s0, moves', s', Take(0, true));
    moves', s' := Then(s0, moves', s', Publish(0, true));
    assert s' == Tabled(s.infos + [Info(fd, 1, false, 0)], Put(s.table, fd, Some(n), true).0, [Using(n, false, false)]);
    moves', s' := Then(s0, moves', s', GiveBack(0));
    assert s'.infos == s.infos + [Info(fd, 0, false, 0)];
  }

  /** A thread closes a descriptor whose description is the first. */
  lemma Closes(s0: Tabled, moves: seq<Move>, s: Tabled, fd: int) returns (moves': seq<Move>, s': Tabled)
    requires HasTable(s0) && Leads(s0, moves, s) && s.threads == [Outside] && Get(s.table, fd) == Some(0)
    requires 0 < |s.infos| && s.infos[0] == Info(fd, 0, false, 0)
    ensures moves' == moves + [Find(0, fd, ToClose), Take(0, true), Withdraw(0), Condemn(0), GiveBack(0), Finish(0)]
    ensures Leads(s0, moves', s')
    ensures s' == Tabled(s.infos[0 := Info(fd, 0, true, 1)], Remove(s.table, fd).0, [Outside])
  {
    hide Get, Put, Remove, Leads;
    moves', s' := Then(s0, moves, s, Find(0, fd, ToClose));
    moves', s' := Then(s0, moves', s', Take(0, true));
    moves', s' := Then(s0, moves', s', Withdraw(0));
    assert s' == Tabled(s.infos[0 := Info(fd, 1, false, 0)], Remove(s.table, fd).0, [Using(0, true, false)]);
    moves', s' := Then(s0, moves', s', Condemn(0));
    moves', s' := Then(s0, moves', s', GiveBack(0));
    assert s' == Tabled(s.infos[0 := Info(fd, 0, true, 0)], Remove(s.table, fd).0, [Destroying(0)]);
    moves', s' := Then(s0, moves', s', Finish(0));
  }

  /** One thread opens both descriptors and closes the first: the table no longer finds
      the second, whose description nobody holds and nobody will destroy. */
  lemma ClosingForgets(a: int, b: int) returns (s0: Tabled, moves: seq<Move>, s: Tabled)
    requires Collide(a, b)
    ensures Begins(s0) && HasTable(s0) && Leads(s0, moves, s) && AllOver(moves, {a, b}) && |s0.threads| == 1
    ensures s.threads == [Outside] && |s.infos| == 2 && s.infos[1] == Info(b, 0, false, 0) && !InTable(s, 1)
  {
    FirstStores(a);
    SecondStores(a, b);
    RemovalHides(a, b);
    s0 := Tabled([], Empty(CAPACITY), [Outside]);
    hide Empty, Get, Put, Remove, OneStored, TwoStored, OneRemoved, Collide;
    moves, s := Opens(s0, [], s0, a);
    hide Leads;
    assert s == Tabled([Info(a, 0, false, 0)], OneStored(a), [Outside]);
    moves, s := Opens(s0, moves, s, b);
    assert s == Tabled([Info(a, 0, false, 0), Info(b, 0, false, 0)], TwoStored(a, b), [Outside]);
    moves, s := Closes(s0, moves, s, a);
    assert s == Tabled([Info(a, 0, true, 1), Info(b, 0, false, 0)], OneRemoved(a, b), [Outside]);
  }

  /** With one thread there is nothing to disturb. */
  lemma {:induction false} AloneIsQuiet(s: Tabled, moves: seq<Move>, s': Tabled, fd: int)
    requires HasTable(s) && Leads(s, moves, s') && |s.threads| == 1
    ensures Quiet(s, moves, fd)
    decreases moves
  {
    if moves != [] {
      AloneIsQuiet(Moved(s, moves[0]), moves[1..], s', fd);
      hide Moved, Changes, Enabled;
    }
  }

  /** With no call in progress, every description whose look-ups were not disturbed is in the
      table or destroyed. */
  ghost predicate LosesNothing(fds: set<int>) {
    forall s0, moves, s ::
      Begins(s0) && AllOver(moves, fds) && HasTable(s0) && Leads(s0, moves, s) && (forall t :: 0 <= t < |s.threads| ==> s.threads[t].Outside?) ==>
        forall o: nat :: o < |s.infos| && Quiet(s0, moves, s.infos[o].fd) ==> (InTable(s, o) <==> s.infos[o].destroyed == 0)
  }

  lemma SeparateLosesNothing(fds: set<int>)
    requires Separate(fds)
    ensures LosesNothing(fds)
  {
    hide Separate, Leads, InTable, Quiet;
    forall s0, moves, s | Begins(s0) && AllOver(moves, fds) && HasTable(s0) && Leads(s0, moves, s) && (forall t :: 0 <= t < |s.threads| ==> s.threads[t].Outside?)
      ensures forall o: nat :: o < |s.infos| && Quiet(s0, moves, s.infos[o].fd) ==> (InTable(s, o) <==> s.infos[o].destroyed == 0)
    {
      forall o: nat | o < |s.infos| && Quiet(s0, moves, s.infos[o].fd) ensures InTable(s, o) <==> s.infos[o].destroyed == 0 {
        DescriptionsAreSafe(fds, s0, moves, s, o);
      }
    }
  }

  /** Nothing is ever lost by undisturbed calls on the descriptors `fds`, if and only if no two
      of them share a home in the table. */
  lemma NothingIsLostIff(fds: set<int>)
    requires FREE !in fds
    ensures LosesNothing(fds) <==> DistinctHomes(fds, CAPACITY)
  {
    if DistinctHomes(fds, CAPACITY) {
      SeparateLosesNothing(fds);
    } else {
      var a, b :| a in fds && b in fds && Home(a, CAPACITY) == Home(b, CAPACITY) && a != b;
      var s0, moves, s := ClosingForgets(a, b);
      hide Leads, InTable, Begins, DistinctHomes, Quiet, Home;
      AloneIsQuiet(s0, moves, s, b);
      assert AllOver(moves, fds) by {
        forall i | 0 <= i < |moves| ensures Over(moves[i], fds) {
          assert Over(moves[i], {a, b});
        }
      }
      assert s.infos[1].destroyed == 0;
    }
  }
}
