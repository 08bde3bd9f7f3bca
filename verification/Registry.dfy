/** The life of socket descriptions shared by the calls of all threads
    (`src/binding.c`, `src/socketinfo.c`), interleaved step by step: a look-up reads the
    registry, then takes what it found, and then may put a new description in its place,
    and any other thread may act in between. The registry is a map here; module
    SocketTable says when the table of the program is one. */
module Registry {
  import opened Options
  import opened Light
  import opened SocketInfos

  /** Why a call looks its descriptor up: to use it, to close it, or to connect it. */
  datatype Purpose = ToUse | ToClose | ToConnect

  /** Where a thread is. A look-up has read the registry but not touched what it found
      (`Looking`), has found nothing that it can use (`Replacing`), or is about to take the
      descriptor that it closes out of the registry (`Withdrawing`). Then the call uses its
      description; a call that closes its socket condemns it in the end. Whoever gives a
      condemned description back last destroys it. */
  datatype Phase =
    | Outside
    | Looking(fd: int, purpose: Purpose, found: Option<nat>)
    | Replacing(fd: int, purpose: Purpose)
    | Withdrawing(fd: int, o: nat)
    | Using(o: nat, closing: bool, condemned: bool)
    | Destroying(o: nat)

  datatype State = State(infos: seq<Info>, sockets: map<int, Option<nat>>, threads: seq<Phase>)

  /** A step of thread `t`. Whether a description still fits its socket, and whether a
      descriptor is a socket, are answers of the system; -1 is none. */
  datatype Move =
    | Find(t: nat, fd: int, purpose: Purpose)
    | Take(t: nat, fits: bool)
    | Publish(t: nat, isSocket: bool)
    | Withdraw(t: nat)
    | Condemn(t: nat)
    | GiveBack(t: nat)
    | Finish(t: nat)

  /** A thread in phase `p` may take the step. */
  predicate MayDo(infos: seq<Info>, p: Phase, mv: Move) {
    match mv
    case Find(_, _, _) => p.Outside?
    case Take(_, _) => p.Looking? && (p.found.Some? ==> p.found.value < |infos|)
    case Publish(_, isSocket) => p.Replacing? && (isSocket ==> p.fd != FREE)
    case Withdraw(_) => p.Withdrawing?
    case Condemn(_) => p.Using? && p.closing && !p.condemned && p.o < |infos|
    case GiveBack(_) => p.Using? && (p.closing ==> p.condemned) && p.o < |infos|
    case Finish(_) => p.Destroying? && p.o < |infos|
  }

  predicate Enabled(infos: seq<Info>, threads: seq<Phase>, mv: Move) {
    mv.t < |threads| && MayDo(infos, threads[mv.t], mv)
  }

  function Found(sockets: map<int, Option<nat>>, fd: int): Option<nat> {
    if fd in sockets then sockets[fd] else None
  }

  /** A look-up that holds a description: one that closes goes on to the registry. */
  function Holding(fd: int, purpose: Purpose, o: nat): Phase {
    if purpose.ToClose? then Withdrawing(fd, o) else Using(o, false, false)
  }

  /** What connecting does to the description that it replaces. */
  function Displace(i: Info): Info {
    Release(Lock(i).(toDestroy := true))
  }

  /** The steps that leave the registry alone. */
  function Act(infos: seq<Info>, p: Phase, mv: Move): (seq<Info>, Phase)
    requires mv.Take? || mv.Condemn? || mv.GiveBack? || mv.Finish?
    requires MayDo(infos, p, mv)
  {
    match mv
    case Take(_, fits) =>
      if p.found.None? then
        (infos, Replacing(p.fd, p.purpose))
      else
        var o := p.found.value;
        if p.purpose.ToConnect? then
          (infos[o := Displace(infos[o])], Replacing(p.fd, p.purpose))
        else
          var (i, ok) := Check(infos[o], fits);
          (infos[o := i], if ok then Holding(p.fd, p.purpose, o) else Replacing(p.fd, p.purpose))
    case Condemn(_) =>
      (infos[p.o := infos[p.o].(toDestroy := true)], Using(p.o, true, true))
    case GiveBack(_) =>
      var (i, last) := Unlock(infos[p.o]);
      (infos[p.o := i], if last then Destroying(p.o) else Outside)
    case Finish(_) =>
      (infos[p.o := Destroy(infos[p.o])], Outside)
  }

  /** Puts a new description into the registry, or a null pointer if there is no socket. */
  function Published(infos: seq<Info>, p: Phase, isSocket: bool): (seq<Info>, Option<nat>, Phase)
    requires p.Replacing?
  {
    if isSocket then
      (infos + [Lock(Init(p.fd))], Some(|infos|), Holding(p.fd, p.purpose, |infos|))
    else
      (infos, None, Outside)
  }

  function Apply(s: State, mv: Move): (r: State)
    requires Enabled(s.infos, s.threads, mv)
  {
    var p := s.threads[mv.t];
    match mv
    case Find(t, fd, purpose) =>
      s.(threads := s.threads[t := Looking(fd, purpose, Found(s.sockets, fd))])
    case Publish(t, isSocket) =>
      var (infos, entry, q) := Published(s.infos, p, isSocket);
      State(infos, s.sockets[p.fd := entry], s.threads[t := q])
    case Withdraw(t) =>
      s.(sockets := s.sockets - {p.fd}, threads := s.threads[t := Using(p.o, true, false)])
    case _ =>
      var (infos, q) := Act(s.infos, p, mv);
      State(infos, s.sockets, s.threads[mv.t := q])
  }

  // ----- overlaps -----

  /** The phase is part of a look-up of `fd`. */
  predicate LooksUp(p: Phase, fd: int) {
    (p.Looking? || p.Replacing? || p.Withdrawing?) && p.fd == fd
  }

  /** The step condemns a description that is registered for `fd`, or changes the entry of `fd`:
      the check of a look-up that fails, connecting, putting a description in, closing. */
  predicate Changes(infos: seq<Info>, threads: seq<Phase>, mv: Move, fd: int)
    requires Enabled(infos, threads, mv)
  {
    var p := threads[mv.t];
    match mv
    case Take(_, fits) => p.fd == fd && p.found.Some? && (p.purpose.ToConnect? || !Check(infos[p.found.value], fits).1)
    case Publish(_, _) => p.fd == fd
    case Withdraw(_) => p.fd == fd
    case _ => false
  }

  /** The step does so while another thread is looking `fd` up. */
  predicate Disturbs(infos: seq<Info>, threads: seq<Phase>, mv: Move, fd: int)
    requires Enabled(infos, threads, mv)
  {
    Changes(infos, threads, mv, fd) && exists u :: 0 <= u < |threads| && u != mv.t && LooksUp(threads[u], fd)
  }

  // ----- what holds in every interleaving -----

  predicate Holds(p: Phase, o: nat) {
    (p.Using? || p.Withdrawing?) && p.o == o
  }

  /** The number of calls that hold description `o`. */
  function Users(threads: seq<Phase>, o: nat): nat {
    if threads == [] then 0
    else Users(threads[..|threads| - 1], o) + if Holds(threads[|threads| - 1], o) then 1 else 0
  }

  /** Description `o` is one of `fd`. */
  predicate IsOf(infos: seq<Info>, o: int, fd: int) {
    0 <= o < |infos| && infos[o].fd == fd
  }

  predicate PhaseOk(infos: seq<Info>, p: Phase) {
    match p
    case Looking(fd, _, found) => found.Some? ==> IsOf(infos, found.value, fd)
    case Withdrawing(fd, o) => IsOf(infos, o, fd)
    case Using(o, _, _) => o < |infos|
    case Destroying(o) => o < |infos|
    case _ => true
  }

  /** What is registered, found or held exists, for the right descriptor. */
  ghost predicate Linked(s: State) {
    && (forall fd :: Found(s.sockets, fd).Some? ==> IsOf(s.infos, Found(s.sockets, fd).value, fd))
    && (forall t :: 0 <= t < |s.threads| ==> PhaseOk(s.infos, s.threads[t]))
  }

  ghost predicate CountsOk(s: State) {
    forall o :: 0 <= o < |s.infos| ==> s.infos[o].sem == Users(s.threads, o)
  }

  ghost predicate Base(s: State) {
    Linked(s) && CountsOk(s)
  }

  ghost predicate Initial(s: State) {
    s.infos == [] && s.sockets == map[] && forall t :: 0 <= t < |s.threads| ==> s.threads[t] == Outside
  }

  lemma {:induction false} UsersUpdate(threads: seq<Phase>, t: nat, p: Phase, o: nat)
    requires t < |threads|
    ensures Users(threads[t := p], o) + (if Holds(threads[t], o) then 1 else 0) == Users(threads, o) + (if Holds(p, o) then 1 else 0)
  {
    var n := |threads| - 1;
    if t == n {
      assert threads[t := p][..n] == threads[..n];
    } else {
      assert threads[t := p][..n] == threads[..n][t := p];
      UsersUpdate(threads[..n], t, p, o);
    }
  }

  lemma {:induction false} NoUsers(threads: seq<Phase>, o: nat)
    ensures Users(threads, o) == 0 <==> forall t :: 0 <= t < |threads| ==> !Holds(threads[t], o)
  {
    if threads != [] {
      var n := |threads| - 1;
      NoUsers(threads[..n], o);
      if Users(threads, o) == 0 {
        assert forall t :: 0 <= t < n ==> threads[..n][t] == threads[t];
      }
    }
  }

  /** What a step does to the descriptions: it touches at most the one its thread has found or
      holds, and counts it up or down as the thread takes hold of it or lets go. */
  predicate Touched(p: Phase, q: Phase, before: Info, after: Info, o: nat) {
    && after.fd == before.fd
    && after.sem == before.sem + (if Holds(q, o) then 1 else 0) - (if Holds(p, o) then 1 else 0)
    && (!Touches(p, o) ==> after == before)
  }

  predicate Touches(p: Phase, o: nat) {
    match p
    case Looking(_, _, found) => found == Some(o)
    case Using(m, _, _) => m == o
    case Destroying(m) => m == o
    case _ => false
  }

  lemma ApplyShape(s: State, mv: Move)
    requires Enabled(s.infos, s.threads, mv) && PhaseOk(s.infos, s.threads[mv.t])
    ensures var r := Apply(s, mv);
            && |r.threads| == |s.threads| && r.threads == s.threads[mv.t := r.threads[mv.t]]
            && |s.infos| <= |r.infos| <= |s.infos| + 1
            && (forall o: nat :: o < |s.infos| ==> Touched(s.threads[mv.t], r.threads[mv.t], s.infos[o], r.infos[o], o))
            && (|r.infos| > |s.infos| ==>
                  && s.threads[mv.t].Replacing? && r.infos[|s.infos|] == Lock(Init(s.threads[mv.t].fd))
                  && Holds(r.threads[mv.t], |s.infos|))
            && (forall fd :: Found(r.sockets, fd) != Found(s.sockets, fd) ==>
                  && (mv.Publish? || mv.Withdraw?) && LooksUp(s.threads[mv.t], fd))
  {
  }

  lemma MoveKeepsLinked(s: State, mv: Move)
    requires Linked(s) && Enabled(s.infos, s.threads, mv)
    ensures Linked(Apply(s, mv))
  {
    ApplyShape(s, mv);
    var r := Apply(s, mv);
    assert forall o, fd :: IsOf(s.infos, o, fd) ==> IsOf(r.infos, o, fd);
    assert PhaseOk(r.infos, r.threads[mv.t]);
    assert forall t :: 0 <= t < |s.threads| ==> PhaseOk(s.infos, s.threads[t]);
  }

  lemma MoveKeepsCounts(s: State, mv: Move)
    requires Base(s) && Enabled(s.infos, s.threads, mv)
    ensures CountsOk(Apply(s, mv))
  {
    ApplyShape(s, mv);
    hide Apply;
    var r := Apply(s, mv);
    forall o: nat | o < |r.infos| ensures r.infos[o].sem == Users(r.threads, o) {
      UsersUpdate(s.threads, mv.t, r.threads[mv.t], o);
      if o >= |s.infos| {
        NoUsers(s.threads, o);
      } else {
        assert Touched(s.threads[mv.t], r.threads[mv.t], s.infos[o], r.infos[o], o);
      }
    }
  }

  // ----- what holds of a descriptor whose look-ups are not disturbed -----

  predicate BeingReplaced(s: State, fd: int) {
    exists u :: 0 <= u < |s.threads| && s.threads[u].Replacing? && s.threads[u].fd == fd
  }

  predicate BeingDestroyed(s: State, o: nat) {
    exists t :: 0 <= t < |s.threads| && s.threads[t] == Destroying(o)
  }

  predicate BeingClosed(s: State, o: nat) {
    exists t :: 0 <= t < |s.threads| && s.threads[t] == Using(o, true, false)
  }

  predicate Registered(s: State, o: nat) {
    o < |s.infos| && Found(s.sockets, s.infos[o].fd) == Some(o)
  }

  predicate Condemned(s: State, found: Option<nat>) {
    found.Some? && found.value < |s.infos| && s.infos[found.value].toDestroy
  }

  /** What a look-up goes by is still so. */
  predicate LookupOk(s: State, p: Phase, fd: int) {
    && (p.Looking? && p.fd == fd ==> p.found == Found(s.sockets, fd))
    && (p.Withdrawing? && p.fd == fd ==> Found(s.sockets, fd) == Some(p.o) && !Condemned(s, Some(p.o)))
    && (p.Replacing? && p.fd == fd && Found(s.sockets, fd).Some? ==> Condemned(s, Found(s.sockets, fd)))
  }

  ghost predicate LookupsOk(s: State, fd: int) {
    && (forall t :: 0 <= t < |s.threads| ==> LookupOk(s, s.threads[t], fd))
    && (Condemned(s, Found(s.sockets, fd)) ==> BeingReplaced(s, fd))
  }

  /** What a call closes is out of the registry, and condemned in time. */
  ghost predicate ClosingOk(s: State, fd: int) {
    forall t :: 0 <= t < |s.threads| && s.threads[t].Using? && IsOf(s.infos, s.threads[t].o, fd) ==>
      && (s.threads[t].closing ==> !Registered(s, s.threads[t].o))
      && (s.threads[t].condemned ==> s.infos[s.threads[t].o].toDestroy)
  }

  /** What a thread destroys is unused and condemned, and no other thread destroys it. */
  ghost predicate DestroyingOk(s: State, fd: int) {
    && (forall t :: 0 <= t < |s.threads| && s.threads[t].Destroying? && IsOf(s.infos, s.threads[t].o, fd) ==>
          var i := s.infos[s.threads[t].o]; i.sem == 0 && i.toDestroy && i.destroyed == 0)
    && (forall t, u :: 0 <= t < u < |s.threads| && s.threads[t].Destroying? && IsOf(s.infos, s.threads[t].o, fd) ==>
          s.threads[t] != s.threads[u])
  }

  /** The life of one description. */
  predicate LifeOk(s: State, o: nat)
    requires o < |s.infos|
  {
    && s.infos[o].destroyed <= 1
    && (s.infos[o].destroyed == 1 ==> s.infos[o].sem == 0 && s.infos[o].toDestroy)
    && (s.infos[o].destroyed == 0 && s.infos[o].toDestroy ==> s.infos[o].sem > 0 || BeingDestroyed(s, o))
    && (!s.infos[o].toDestroy ==> Registered(s, o) || BeingClosed(s, o))
  }

  ghost predicate LivesOk(s: State, fd: int) {
    forall o :: IsOf(s.infos, o, fd) ==> LifeOk(s, o)
  }

  ghost predicate Inv(s: State, fd: int) {
    Base(s) && LookupsOk(s, fd) && ClosingOk(s, fd) && DestroyingOk(s, fd) && LivesOk(s, fd)
  }

  predicate Calm(s: State, mv: Move, fd: int) {
    Enabled(s.infos, s.threads, mv) && !Disturbs(s.infos, s.threads, mv, fd)
  }

  lemma InitialInv(s: State, fd: int)
    requires Initial(s)
    ensures Inv(s, fd)
  {
  }

  /** A calm step leaves the entry and the descriptions of other look-ups of `fd` alone. */
  lemma CalmShape(s: State, mv: Move, fd: int)
    requires Calm(s, mv, fd)
    ensures Changes(s.infos, s.threads, mv, fd) ==> forall u :: 0 <= u < |s.threads| && LooksUp(s.threads[u], fd) ==> u == mv.t
  {
  }

  /** Descriptions of `fd` are condemned by a step that changes `fd`, or once they are out of the registry. */
  lemma NewlyCondemned(s: State, mv: Move, fd: int, o: nat)
    requires Base(s) && ClosingOk(s, fd) && Enabled(s.infos, s.threads, mv) && IsOf(s.infos, o, fd)
    requires Apply(s, mv).infos[o].toDestroy && !s.infos[o].toDestroy
    ensures (mv.Take? && Changes(s.infos, s.threads, mv, fd) && s.threads[mv.t].found == Some(o) && Apply(s, mv).threads[mv.t].Replacing?)
         || (mv.Condemn? && !Registered(s, o))
  {
    ApplyShape(s, mv);
    assert Touched(s.threads[mv.t], Apply(s, mv).threads[mv.t], s.infos[o], Apply(s, mv).infos[o], o);
    hide CountsOk;
  }

  lemma MoveKeepsLookup(s: State, mv: Move, fd: int, t: nat)
    requires Inv(s, fd) && Calm(s, mv, fd) && t < |s.threads|
    ensures |Apply(s, mv).threads| == |s.threads| && LookupOk(Apply(s, mv), Apply(s, mv).threads[t], fd)
  {
    ApplyShape(s, mv);
    CalmShape(s, mv, fd);
    var r := Apply(s, mv);
    assert LookupOk(s, s.threads[t], fd);
    var found := Found(s.sockets, fd);
    if t != mv.t && found.Some? {
      assert IsOf(s.infos, found.value, fd);
      assert Touched(s.threads[mv.t], r.threads[mv.t], s.infos[found.value], r.infos[found.value], found.value);
      if r.infos[found.value].toDestroy && !s.infos[found.value].toDestroy {
        NewlyCondemned(s, mv, fd, found.value);
      }
    }
    hide LivesOk, CountsOk, DestroyingOk, LookupsOk, ClosingOk;
  }

  lemma Replacer(s: State, fd: int) returns (u: nat)
    requires BeingReplaced(s, fd)
    ensures u < |s.threads| && s.threads[u].Replacing? && s.threads[u].fd == fd
  {
    u :| 0 <= u < |s.threads| && s.threads[u].Replacing? && s.threads[u].fd == fd;
  }

  lemma MoveKeepsReplaced(s: State, mv: Move, fd: int)
    requires Inv(s, fd) && Calm(s, mv, fd)
    ensures Condemned(Apply(s, mv), Found(Apply(s, mv).sockets, fd)) ==> BeingReplaced(Apply(s, mv), fd)
  {
    ApplyShape(s, mv);
    var r := Apply(s, mv);
    var found := Found(r.sockets, fd);
    if Condemned(r, found) {
      assert found == Found(s.sockets, fd);
      var o := found.value;
      if s.infos[o].toDestroy {
        var u := Replacer(s, fd);
        assert r.threads[u] == s.threads[u];
      } else {
        NewlyCondemned(s, mv, fd, o);
        assert r.threads[mv.t].Replacing? && r.threads[mv.t].fd == fd;
      }
    }
  }

  lemma MoveKeepsLookups(s: State, mv: Move, fd: int)
    requires Inv(s, fd) && Calm(s, mv, fd)
    ensures LookupsOk(Apply(s, mv), fd)
  {
    MoveKeepsReplaced(s, mv, fd);
    forall t: nat | t < |Apply(s, mv).threads| ensures LookupOk(Apply(s, mv), Apply(s, mv).threads[t], fd) {
      ApplyShape(s, mv);
      MoveKeepsLookup(s, mv, fd, t);
    }
  }

  lemma MoveKeepsClosing(s: State, mv: Move, fd: int)
    requires Inv(s, fd) && Calm(s, mv, fd)
    ensures ClosingOk(Apply(s, mv), fd)
  {
    ApplyShape(s, mv);
    CalmShape(s, mv, fd);
    hide LivesOk, CountsOk, DestroyingOk;
  }

  /** What a calm look-up takes is not condemned, let alone destroyed or about to be. */
  lemma TakesLive(s: State, mv: Move, fd: int, o: nat)
    requires Inv(s, fd) && Calm(s, mv, fd) && mv.Take? && s.threads[mv.t].found == Some(o) && IsOf(s.infos, o, fd)
    ensures !s.infos[o].toDestroy && s.infos[o].destroyed == 0 && Registered(s, o)
  {
    assert PhaseOk(s.infos, s.threads[mv.t]) && LookupOk(s, s.threads[mv.t], fd) && LifeOk(s, o);
    if Condemned(s, Found(s.sockets, fd)) {
      var u :| 0 <= u < |s.threads| && s.threads[u].Replacing? && s.threads[u].fd == fd;
    }
    hide LookupsOk, ClosingOk, DestroyingOk, LivesOk, CountsOk;
  }

  /** What a call holds is counted, so no thread destroys it. */
  lemma HeldIsUsed(s: State, t: nat, o: nat)
    requires CountsOk(s) && t < |s.threads| && Holds(s.threads[t], o) && o < |s.infos|
    ensures s.infos[o].sem > 0
  {
    NoUsers(s.threads, o);
  }

  /** A thread that destroys a description of `fd` is not interfered with. */
  lemma NobodyElseTouches(s: State, mv: Move, fd: int, t: nat, o: nat)
    requires Inv(s, fd) && Calm(s, mv, fd) && IsOf(s.infos, o, fd)
    requires t < |s.threads| && t != mv.t && s.threads[t] == Destroying(o)
    ensures Apply(s, mv).infos[o] == s.infos[o] && Apply(s, mv).threads[mv.t] != Destroying(o)
  {
    ApplyShape(s, mv);
    assert Touched(s.threads[mv.t], Apply(s, mv).threads[mv.t], s.infos[o], Apply(s, mv).infos[o], o);
    if s.threads[mv.t].Using? && s.threads[mv.t].o == o {
      HeldIsUsed(s, mv.t, o);
    } else if mv.Take? && s.threads[mv.t].found == Some(o) {
      TakesLive(s, mv, fd, o);
    }
    assert s.threads[mv.t] != Destroying(o);
    hide LookupsOk, ClosingOk, LivesOk, CountsOk;
  }

  lemma MoveKeepsDestroying(s: State, mv: Move, fd: int)
    requires Inv(s, fd) && Calm(s, mv, fd)
    ensures DestroyingOk(Apply(s, mv), fd)
  {
    ApplyShape(s, mv);
    var r := Apply(s, mv);
    forall t: nat | t < |r.threads| && r.threads[t].Destroying? && IsOf(r.infos, r.threads[t].o, fd)
      ensures var i := r.infos[r.threads[t].o]; i.sem == 0 && i.toDestroy && i.destroyed == 0
      ensures forall u :: 0 <= u < |r.threads| && u != t ==> r.threads[t] != r.threads[u]
    {
      var o := r.threads[t].o;
      if t == mv.t {
        BecomesDestroyer(s, mv, fd);
      } else {
        assert PhaseOk(s.infos, s.threads[t]);
        NobodyElseTouches(s, mv, fd, t, o);
      }
    }
  }

  lemma BecomesDestroyer(s: State, mv: Move, fd: int)
    requires Inv(s, fd) && Calm(s, mv, fd)
    requires Apply(s, mv).threads[mv.t].Destroying? && IsOf(Apply(s, mv).infos, Apply(s, mv).threads[mv.t].o, fd)
    ensures var i := Apply(s, mv).infos[Apply(s, mv).threads[mv.t].o]; i.sem == 0 && i.toDestroy && i.destroyed == 0
    ensures forall u :: 0 <= u < |s.threads| && u != mv.t ==> s.threads[u] != Apply(s, mv).threads[mv.t]
  {
    var o := s.threads[mv.t].o;
    HeldIsUsed(s, mv.t, o);
    assert IsOf(s.infos, o, fd) && LifeOk(s, o);
    hide LookupsOk, ClosingOk, LivesOk, CountsOk;
  }

  lemma TouchedLife(s: State, mv: Move, fd: int, o: nat)
    requires Inv(s, fd) && Calm(s, mv, fd) && IsOf(s.infos, o, fd) && Touches(s.threads[mv.t], o) && !mv.Find?
    ensures o < |Apply(s, mv).infos| && LifeOk(Apply(s, mv), o)
  {
    ApplyShape(s, mv);
    var p, r := s.threads[mv.t], Apply(s, mv);
    assert LifeOk(s, o);
    if mv.Take? {
      TakesLive(s, mv, fd, o);
    } else if p.Using? {
      HeldIsUsed(s, mv.t, o);
      if r.threads[mv.t].Destroying? {
        assert r.threads[mv.t] == Destroying(o);
      }
      if BeingClosed(s, o) && !r.infos[o].toDestroy {
        var u :| 0 <= u < |s.threads| && s.threads[u] == Using(o, true, false);
        assert r.threads[u] == s.threads[u];
      }
    }
    NoUsers(s.threads, o);
    hide LookupsOk, LivesOk;
  }

  lemma UntouchedLife(s: State, mv: Move, fd: int, o: nat)
    requires Inv(s, fd) && Calm(s, mv, fd) && IsOf(s.infos, o, fd) && !Touches(s.threads[mv.t], o)
    ensures o < |Apply(s, mv).infos| && LifeOk(Apply(s, mv), o)
  {
    ApplyShape(s, mv);
    var p, r := s.threads[mv.t], Apply(s, mv);
    assert LifeOk(s, o) && LookupOk(s, p, fd) && PhaseOk(s.infos, p);
    assert Touched(p, r.threads[mv.t], s.infos[o], r.infos[o], o);
    if BeingDestroyed(s, o) {
      var u :| 0 <= u < |s.threads| && s.threads[u] == Destroying(o);
      assert r.threads[u] == s.threads[u];
    }
    if BeingClosed(s, o) {
      var u :| 0 <= u < |s.threads| && s.threads[u] == Using(o, true, false);
      assert r.threads[u] == s.threads[u];
    }
    if Registered(s, o) && !Registered(r, o) && !r.infos[o].toDestroy {
      assert r.threads[mv.t] == Using(o, true, false);
    }
    hide LookupsOk, ClosingOk, DestroyingOk, LivesOk, CountsOk;
  }

  lemma MoveKeepsLives(s: State, mv: Move, fd: int)
    requires Inv(s, fd) && Calm(s, mv, fd)
    ensures LivesOk(Apply(s, mv), fd)
  {
    ApplyShape(s, mv);
    var r := Apply(s, mv);
    forall o: nat | IsOf(r.infos, o, fd) ensures LifeOk(r, o) {
      if o == |s.infos| {
        assert Registered(r, o);
      } else if Touches(s.threads[mv.t], o) {
        TouchedLife(s, mv, fd, o);
      } else {
        UntouchedLife(s, mv, fd, o);
      }
    }
  }

  /** Every step keeps the links and counts; a calm one keeps all of the invariant of `fd`. */
  lemma MoveKeepsInv(s: State, mv: Move, fd: int)
    requires Inv(s, fd) && Calm(s, mv, fd)
    ensures Inv(Apply(s, mv), fd)
  {
    hide Apply, Calm, CountsOk, Linked, LookupsOk, ClosingOk, DestroyingOk, LivesOk;
    CalmIsEnabled(s, mv, fd);
    MoveKeepsLinked(s, mv);
    MoveKeepsCounts(s, mv);
    MoveKeepsLookups(s, mv, fd);
    MoveKeepsClosing(s, mv, fd);
    MoveKeepsDestroying(s, mv, fd);
    MoveKeepsLives(s, mv, fd);
  }

  lemma CalmIsEnabled(s: State, mv: Move, fd: int)
    requires Calm(s, mv, fd)
    ensures Enabled(s.infos, s.threads, mv)
  {
  }

  // ----- every interleaving -----

  predicate Path(s: State, moves: seq<Move>, s': State)
    decreases moves
  {
    if moves == [] then s' == s
    else Enabled(s.infos, s.threads, moves[0]) && Path(Apply(s, moves[0]), moves[1..], s')
  }

  /** No step of the run disturbs a look-up of `fd`. */
  predicate Undisturbed(s: State, moves: seq<Move>, fd: int)
    decreases moves
  {
    moves == [] || (Calm(s, moves[0], fd) && Undisturbed(Apply(s, moves[0]), moves[1..], fd))
  }

  lemma {:induction false} PathKeepsBase(s: State, moves: seq<Move>, s': State)
    requires Base(s) && Path(s, moves, s')
    ensures Base(s')
    decreases moves
  {
    hide Linked, CountsOk, Apply, Enabled;
    if moves != [] {
      MoveKeepsLinked(s, moves[0]);
      MoveKeepsCounts(s, moves[0]);
      PathKeepsBase(Apply(s, moves[0]), moves[1..], s');
    }
  }

  lemma {:induction false} PathKeepsInv(s: State, moves: seq<Move>, s': State, fd: int)
    requires Inv(s, fd) && Path(s, moves, s') && Undisturbed(s, moves, fd)
    ensures Inv(s', fd)
    decreases moves
  {
    hide Inv, Apply, Enabled, Calm;
    if moves != [] {
      MoveKeepsInv(s, moves[0], fd);
      PathKeepsInv(Apply(s, moves[0]), moves[1..], s', fd);
    }
  }

  /** In every interleaving of the calls of any number of threads, the count of a
      description is the number of calls that hold it. */
  lemma CountIsUsers(s0: State, moves: seq<Move>, s: State, o: nat)
    requires Initial(s0) && Path(s0, moves, s) && o < |s.infos|
    ensures s.infos[o].sem == Users(s.threads, o)
  {
    InitialInv(s0, 0);
    PathKeepsBase(s0, moves, s);
    hide Path;
  }

  /** If no look-up of its descriptor is disturbed, whatever happens on others, a description
      is destroyed at most once, condemned and unused, and its entry is replaced at the latest
      by the look-up that condemned it; and while it is not destroyed, it is registered, held
      by a call, or in the hands of the thread that destroys it. */
  lemma DescriptionsAreSafe(s0: State, moves: seq<Move>, s: State, o: nat)
    requires Initial(s0) && Path(s0, moves, s) && o < |s.infos| && Undisturbed(s0, moves, s.infos[o].fd)
    ensures s.infos[o].destroyed <= 1
    ensures s.infos[o].destroyed == 1 ==>
              && s.infos[o].toDestroy && !BeingDestroyed(s, o)
              && (Registered(s, o) ==> BeingReplaced(s, s.infos[o].fd))
              && forall t :: 0 <= t < |s.threads| ==> !Holds(s.threads[t], o)
    ensures s.infos[o].destroyed == 0 ==>
              Registered(s, o) || BeingDestroyed(s, o) || exists t :: 0 <= t < |s.threads| && Holds(s.threads[t], o)
  {
    var fd := s.infos[o].fd;
    InitialInv(s0, fd);
    PathKeepsInv(s0, moves, s, fd);
    hide Path, Undisturbed;
    NoUsers(s.threads, o);
    assert IsOf(s.infos, o, fd) && LifeOk(s, o);
    if BeingClosed(s, o) {
      var t :| 0 <= t < |s.threads| && s.threads[t] == Using(o, true, false);
      assert Holds(s.threads[t], o);
    }
  }

  /** Then a step destroys a description only when no other call holds it and it is condemned. */
  lemma DestroysOnlyUnused(s0: State, moves: seq<Move>, s: State, mv: Move, o: nat)
    requires Initial(s0) && Path(s0, moves, s) && o < |s.infos| && Undisturbed(s0, moves, s.infos[o].fd)
    requires Calm(s, mv, s.infos[o].fd) && o < |Apply(s, mv).infos| && Apply(s, mv).infos[o].destroyed != s.infos[o].destroyed
    ensures s.infos[o].destroyed == 0 && Apply(s, mv).infos[o].destroyed == 1 && Apply(s, mv).infos[o].toDestroy
    ensures forall t :: 0 <= t < |s.threads| ==> !Holds(s.threads[t], o)
  {
    var fd := s.infos[o].fd;
    InitialInv(s0, fd);
    PathKeepsInv(s0, moves, s, fd);
    hide Path, Undisturbed;
    ApplyShape(s, mv);
    NoUsers(s.threads, o);
    assert IsOf(s.infos, o, fd) && LifeOk(s, o);
    assert Touched(s.threads[mv.t], Apply(s, mv).threads[mv.t], s.infos[o], Apply(s, mv).infos[o], o);
    if mv.Take? {
      TakesLive(s, mv, fd, o);
    }
    hide LookupsOk, ClosingOk, LivesOk;
  }

  /** A socket keeps its description: in a run that does not disturb it, a look-up that finds one which still
      fits takes that one, and it is still registered for the same descriptor. */
  lemma SocketKeepsDescription(s0: State, moves: seq<Move>, s: State, mv: Move, o: nat)
    requires Initial(s0) && Path(s0, moves, s) && Enabled(s.infos, s.threads, mv) && mv.Take? && mv.fits && s.threads[mv.t].found == Some(o)
    requires var fd := s.threads[mv.t].fd; Undisturbed(s0, moves, fd) && !Disturbs(s.infos, s.threads, mv, fd)
    requires !s.threads[mv.t].purpose.ToConnect?
    ensures var s' := Apply(s, mv);
            && Holds(s'.threads[mv.t], o) && s'.sockets == s.sockets && Registered(s', o) && |s'.infos| == |s.infos|
            && s'.infos[o].fd == s.threads[mv.t].fd && !s'.infos[o].toDestroy
  {
    var fd := s.threads[mv.t].fd;
    InitialInv(s0, fd);
    PathKeepsInv(s0, moves, s, fd);
    assert PhaseOk(s.infos, s.threads[mv.t]);
    TakesLive(s, mv, fd, o);
    hide Path, Undisturbed, LivesOk, LookupsOk, ClosingOk, DestroyingOk, CountsOk;
  }

  /** How a look-up goes on. One that finds a description which is not condemned and still fits takes it,
      unless it connects; any other replaces what it found, which is condemned from then on, and destroyed
      at once exactly if no call holds it. */
  lemma TakesOrReplaces(s: State, mv: Move)
    requires Base(s) && Enabled(s.infos, s.threads, mv) && mv.Take?
    ensures var p, s' := s.threads[mv.t], Apply(s, mv);
            && s'.sockets == s.sockets && |s'.infos| == |s.infos|
            && match p.found
               case None => s'.threads[mv.t] == Replacing(p.fd, p.purpose) && s'.infos == s.infos
               case Some(o) =>
                 if mv.fits && !s.infos[o].toDestroy && !p.purpose.ToConnect? then
                   Holds(s'.threads[mv.t], o) && s'.infos[o] == s.infos[o].(sem := s.infos[o].sem + 1)
                 else
                   && s'.threads[mv.t] == Replacing(p.fd, p.purpose) && s'.infos[o].toDestroy && s'.infos[o].sem == s.infos[o].sem
                   && s'.infos[o].destroyed == s.infos[o].destroyed + (if Users(s.threads, o) == 0 then 1 else 0)
  {
    assert s.threads[mv.t].found.Some? ==> PhaseOk(s.infos, s.threads[mv.t]);
    hide Users;
  }

  /** A look-up that replaces registers a new description, which it holds, in the place of the old one; without
      a socket it leaves the entry empty. */
  lemma Registers(s: State, mv: Move)
    requires Enabled(s.infos, s.threads, mv) && mv.Publish?
    ensures var p, s', n := s.threads[mv.t], Apply(s, mv), |s.infos|;
            && |s'.threads| == |s.threads| && (forall fd :: fd != p.fd ==> Found(s'.sockets, fd) == Found(s.sockets, fd))
            && if mv.isSocket then
                 && s'.infos == s.infos + [Info(p.fd, 1, false, 0)] && Registered(s', n) && Holds(s'.threads[mv.t], n)
                 && Users(s'.threads, n) == Users(s.threads, n) + 1
               else s'.infos == s.infos && Found(s'.sockets, p.fd) == None && s'.threads[mv.t] == Outside
  {
    UsersUpdate(s.threads, mv.t, Apply(s, mv).threads[mv.t], |s.infos|);
    hide Users;
  }

  // ----- what an overlap does -----

  lemma {:induction false} FirstOverlap(s: State, moves: seq<Move>, s': State, fd: int) returns (k: nat, mid: State)
    requires Path(s, moves, s') && !Undisturbed(s, moves, fd)
    ensures k < |moves| && Path(s, moves[..k], mid)
    ensures Enabled(mid.infos, mid.threads, moves[k]) && Disturbs(mid.infos, mid.threads, moves[k], fd)
    decreases moves
  {
    hide Apply, Enabled, Disturbs;
    if Disturbs(s.infos, s.threads, moves[0], fd) {
      k, mid := 0, s;
    } else {
      var j;
      j, mid := FirstOverlap(Apply(s, moves[0]), moves[1..], s', fd);
      k := j + 1;
      assert moves[..k][1..] == moves[1..][..j];
    }
  }

  /** What a look-up takes in a run that does not disturb it is live. */
  lemma QuietTakesLive(s0: State, moves: seq<Move>, s: State, mv: Move, o: nat)
    requires Initial(s0) && Path(s0, moves, s) && Enabled(s.infos, s.threads, mv) && mv.Take? && s.threads[mv.t].found == Some(o)
    requires var fd := s.threads[mv.t].fd; Undisturbed(s0, moves, fd) && !Disturbs(s.infos, s.threads, mv, fd)
    ensures !s.infos[o].toDestroy && s.infos[o].destroyed == 0 && !BeingDestroyed(s, o)
  {
    var fd := s.threads[mv.t].fd;
    InitialInv(s0, fd);
    PathKeepsInv(s0, moves, s, fd);
    assert PhaseOk(s.infos, s.threads[mv.t]);
    TakesLive(s, mv, fd, o);
    hide Path, Undisturbed, LivesOk, LookupsOk, ClosingOk;
  }

  /** A look-up takes a description that is destroyed, or about to be, only in a run in which a
      look-up of the same descriptor overlaps with a step that changes it: a failed check, the
      publication of a new description, connecting or closing. */
  lemma OnlyOverlapsTakeDestroyed(s0: State, moves: seq<Move>, s: State, mv: Move, o: nat) returns (k: nat, mid: State)
    requires Initial(s0) && Path(s0, moves, s) && Enabled(s.infos, s.threads, mv)
    requires mv.Take? && s.threads[mv.t].found == Some(o) && (s.infos[o].destroyed > 0 || BeingDestroyed(s, o))
    ensures k <= |moves| && Path(s0, moves[..k], mid)
    ensures var step := (moves + [mv])[k];
            Enabled(mid.infos, mid.threads, step) && Disturbs(mid.infos, mid.threads, step, s.threads[mv.t].fd)
  {
    var fd := s.threads[mv.t].fd;
    InitialInv(s0, fd);
    PathKeepsBase(s0, moves, s);
    assert PhaseOk(s.infos, s.threads[mv.t]);
    if Undisturbed(s0, moves, fd) {
      k, mid := |moves|, s;
      assert moves[..k] == moves;
      if !Disturbs(s.infos, s.threads, mv, fd) {
        QuietTakesLive(s0, moves, s, mv, o);
      }
    } else {
      k, mid := FirstOverlap(s0, moves, s, fd);
    }
  }

  lemma {:induction false} Then(s0: State, moves: seq<Move>, s: State, mv: Move) returns (moves': seq<Move>, s': State)
    requires Path(s0, moves, s) && Enabled(s.infos, s.threads, mv)
    ensures moves' == moves + [mv] && s' == Apply(s, mv) && Path(s0, moves', s')
    decreases moves
  {
    moves', s' := moves + [mv], Apply(s, mv);
    hide Apply, Enabled;
    if moves == [] {
      assert moves'[1..] == [];
    } else {
      var rest, _ := Then(Apply(s0, moves[0]), moves[1..], s, mv);
      assert moves'[1..] == rest;
    }
  }

  /** A thread uses a new descriptor. */
  lemma UsesFirst(s0: State, moves: seq<Move>, s: State, t: nat, fd: int) returns (moves': seq<Move>, s': State)
    requires Path(s0, moves, s) && t < |s.threads| && s.threads[t].Outside? && Found(s.sockets, fd).None? && fd != FREE
    ensures Path(s0, moves', s')
    ensures s' == State(s.infos + [Info(fd, 0, false, 0)], s.sockets[fd := Some(|s.infos|)], s.threads)
  {
    hide Path;
    var n := |s.infos|;
    moves', s' := Then(s0, moves, s, Find(t, fd, ToUse));
    moves', s' := Then(s0, moves', s', Take(t, true));
    moves', s' := Then(s0, moves', s', Publish(t, true));
    assert s' == State(s.infos + [Info(fd, 1, false, 0)], s.sockets[fd := Some(n)], s.threads[t := Using(n, false, false)]);
    moves', s' := Then(s0, moves', s', GiveBack(t));
    assert s'.infos == s.infos + [Info(fd, 0, false, 0)];
    assert s'.threads == s.threads;
  }

  /** The run that fails: between finding a description and taking hold of it, another thread
      closes the socket and destroys the description. */
  lemma DestroyedIsTaken(fd: int) returns (s0: State, moves: seq<Move>, s: State)
    requires fd != FREE
    ensures Initial(s0) && Path(s0, moves, s) && Enabled(s.infos, s.threads, Take(0, true))
    ensures s.threads[0] == Looking(fd, ToUse, Some(0)) && s.infos == [Info(fd, 0, true, 1)]
  {
    s0 := State([], map[], [Outside, Outside]);
    moves, s := UsesFirst(s0, [], s0, 0, fd);
    moves, s := Then(s0, moves, s, Find(0, fd, ToUse));
    assert s == State([Info(fd, 0, false, 0)], map[fd := Some(0)], [Looking(fd, ToUse, Some(0)), Outside]);
    moves, s := Then(s0, moves, s, Find(1, fd, ToClose));
    moves, s := Then(s0, moves, s, Take(1, true));
    hide Path;
    assert s == State([Info(fd, 1, false, 0)], map[fd := Some(0)], [Looking(fd, ToUse, Some(0)), Withdrawing(fd, 0)]);
    moves, s := Then(s0, moves, s, Withdraw(1));
    moves, s := Then(s0, moves, s, Condemn(1));
    assert s == State([Info(fd, 1, true, 0)], map[], [Looking(fd, ToUse, Some(0)), Using(0, true, true)]);
    moves, s := Then(s0, moves, s, GiveBack(1));
    moves, s := Then(s0, moves, s, Finish(1));
  }

  /** Nor is a description always reached again: of two threads that use a new descriptor
      at once, the second replaces the description of the first, which nobody destroys. */
  lemma FirstIsLost(fd: int) returns (s0: State, moves: seq<Move>, s: State)
    requires fd != FREE
    ensures Initial(s0) && Path(s0, moves, s) && s.threads == [Outside, Outside]
    ensures s.infos == [Info(fd, 0, false, 0), Info(fd, 0, false, 0)] && !Registered(s, 0)
  {
    s0 := State([], map[], [Outside, Outside]);
    moves, s := Then(s0, [], s0, Find(0, fd, ToUse));
    moves, s := Then(s0, moves, s, Take(0, true));
    assert s == State([], map[], [Replacing(fd, ToUse), Outside]);
    moves, s := UsesFirst(s0, moves, s, 1, fd);
    assert s == State([Info(fd, 0, false, 0)], map[fd := Some(0)], [Replacing(fd, ToUse), Outside]);
    hide Path;
    moves, s := Then(s0, moves, s, Publish(0, true));
    assert s == State([Info(fd, 0, false, 0), Info(fd, 1, false, 0)], map[fd := Some(1)], [Using(1, false, false), Outside]);
    moves, s := Then(s0, moves, s, GiveBack(0));
  }
}
