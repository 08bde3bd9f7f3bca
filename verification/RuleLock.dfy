/** The locking of the rule table (`src/actions.c`): any number of processing
    threads that take and release rules, and one updater that replaces or removes
    them, interleaved step by step.

    The table has a reader/writer lock; each rule has a mutex, a count of the
    places that use it, a flag that forbids more of them and a condition on which
    the updater waits for the count to fall to zero. */
module RuleLock {
  import opened Options

  datatype Owner = Nobody | HeldBy(worker: nat) | HeldByUpdater

  datatype Rule = Rule(accessors: int, emptying: bool, mutex: Owner, destroyed: bool)

  const FRESH_RULE := Rule(0, false, Nobody, false)

  /** Where a processing thread is: scanning the table under the read lock, taking
      a rule, leaving the table, or giving a rule back. */
  datatype Place =
    | Idle
    | Scanning
    | Locking(r: nat)
    | Locked(r: nat)
    | Leaving
    | Releasing(r: nat)
    | Decrementing(r: nat)
    | Unlocking(r: nat)

  /** A thread, and the rules it has taken and not given back. It may hold several,
      and one rule more than once: it takes the next rule before it releases the current one. */
  datatype Worker = Worker(at: Place, held: multiset<nat>)

  /** Where the updater is. `next` is what it puts in the line, nothing when it removes. */
  datatype Update =
    | Rest
    | Examining(line: nat, next: Option<nat>, replace: bool)
    | Marking(line: nat, next: Option<nat>, r: nat)
    | Testing(line: nat, next: Option<nat>, r: nat)
    | Parked(line: nat, next: Option<nat>, r: nat, woken: bool)
    | Returning(line: nat, next: Option<nat>, r: nat)
    | Replacing(line: nat, next: Option<nat>, r: nat)

  /** Rules are numbered in the order of their creation. */
  datatype State = State(
    rules: seq<Rule>, slots: seq<Option<nat>>,
    workers: seq<Worker>, readers: set<nat>,
    writer: bool, update: Update)

  datatype Move =
    | RdLock(t: nat)
    | Choose(t: nat, line: nat)
    | NoMatch(t: nat)
    | LockRule(t: nat)
    | Enter(t: nat)
    | RdUnlock(t: nat)
    | StartRelease(t: nat, r: nat)
    | LockRelease(t: nat)
    | Decrement(t: nat)
    | UnlockRelease(t: nat)
    | StartPut(line: nat, replace: bool)
    | StartRemove(line: nat)
    | StoreInEmpty
    | Refuse
    | LetReadersIn
    | MarkEmptying
    | Test
    | SpuriousWake
    | Resume
    | WrLock
    | Swap

  predicate IsWorker(s: State, t: nat) {
    t < |s.workers|
  }

  predicate MutexFree(s: State, r: nat) {
    r < |s.rules| && s.rules[r].mutex == Nobody
  }

  predicate Enabled(s: State, mv: Move) {
    match mv
    case RdLock(t) => IsWorker(s, t) && s.workers[t].at.Idle? && !s.writer
    case Choose(t, line) => IsWorker(s, t) && s.workers[t].at.Scanning? && line < |s.slots| && s.slots[line].Some?
    case NoMatch(t) => IsWorker(s, t) && s.workers[t].at.Scanning?
    case LockRule(t) => IsWorker(s, t) && s.workers[t].at.Locking? && MutexFree(s, s.workers[t].at.r)
    case Enter(t) => IsWorker(s, t) && s.workers[t].at.Locked? && s.workers[t].at.r < |s.rules|
    case RdUnlock(t) => IsWorker(s, t) && s.workers[t].at.Leaving?
    case StartRelease(t, r) => IsWorker(s, t) && s.workers[t].at.Idle? && r in s.workers[t].held
    case LockRelease(t) => IsWorker(s, t) && s.workers[t].at.Releasing? && MutexFree(s, s.workers[t].at.r)
    case Decrement(t) => IsWorker(s, t) && s.workers[t].at.Decrementing? && s.workers[t].at.r < |s.rules|
    case UnlockRelease(t) => IsWorker(s, t) && s.workers[t].at.Unlocking? && s.workers[t].at.r < |s.rules|
    case StartPut(line, replace) => s.update.Rest? && line < |s.slots| && s.readers == {} && !s.writer
    // Removing from an empty line is outside the protocol: the source dereferences the missing rule.
    case StartRemove(line) => s.update.Rest? && line < |s.slots| && s.readers == {} && !s.writer && s.slots[line].Some?
    case StoreInEmpty => s.update.Examining? && s.update.line < |s.slots| && s.slots[s.update.line].None?
    case Refuse => s.update.Examining? && s.update.line < |s.slots| && s.slots[s.update.line].Some? && !s.update.replace
                   && s.update.next.Some? && s.update.next.value < |s.rules|
    case LetReadersIn => s.update.Examining? && s.update.line < |s.slots| && s.slots[s.update.line].Some? && s.update.replace
    case MarkEmptying => s.update.Marking? && MutexFree(s, s.update.r)
    case Test => s.update.Testing? && s.update.r < |s.rules|
    case SpuriousWake => s.update.Parked?
    case Resume => s.update.Parked? && s.update.woken && MutexFree(s, s.update.r)
    case WrLock => s.update.Returning? && s.readers == {} && !s.writer
    case Swap => s.update.Replacing? && s.update.r < |s.rules| && s.update.line < |s.slots|
  }

  function At(s: State, t: nat, p: Place): State
    requires IsWorker(s, t)
  {
    s.(workers := s.workers[t := s.workers[t].(at := p)])
  }

  function WithRule(s: State, r: nat, rule: Rule): State
    requires r < |s.rules|
  {
    s.(rules := s.rules[r := rule])
  }

  function Apply(s: State, mv: Move): State
    requires Enabled(s, mv)
  {
    match mv
    case RdLock(t) => At(s, t, Scanning).(readers := s.readers + {t})
    case Choose(t, line) => At(s, t, Locking(s.slots[line].value))
    case NoMatch(t) => At(s, t, Leaving)
    case LockRule(t) =>
      var r := s.workers[t].at.r;
      WithRule(At(s, t, Locked(r)), r, s.rules[r].(mutex := HeldBy(t)))
    case Enter(t) =>
      var r := s.workers[t].at.r;
      if s.rules[r].emptying then
        WithRule(At(s, t, Leaving), r, s.rules[r].(mutex := Nobody))
      else
        WithRule(s.(workers := s.workers[t := Worker(Leaving, s.workers[t].held + multiset{r})]), r,
                 s.rules[r].(mutex := Nobody, accessors := s.rules[r].accessors + 1))
    case RdUnlock(t) => At(s, t, Idle).(readers := s.readers - {t})
    case StartRelease(t, r) => At(s, t, Releasing(r))
    case LockRelease(t) =>
      var r := s.workers[t].at.r;
      WithRule(At(s, t, Decrementing(r)), r, s.rules[r].(mutex := HeldBy(t)))
    case Decrement(t) =>
      var r := s.workers[t].at.r;
      var left := s.rules[r].accessors - 1;
      WithRule(s.(workers := s.workers[t := Worker(Unlocking(r), s.workers[t].held - multiset{r})],
                  update := if left == 0 && s.rules[r].emptying && s.update.Parked? && s.update.r == r
                            then s.update.(woken := true) else s.update),
               r, s.rules[r].(accessors := left))
    case UnlockRelease(t) =>
      var r := s.workers[t].at.r;
      WithRule(At(s, t, Idle), r, s.rules[r].(mutex := Nobody))
    case StartPut(line, replace) =>
      s.(rules := s.rules + [FRESH_RULE], writer := true, update := Examining(line, Some(|s.rules|), replace))
    case StartRemove(line) => s.(writer := true, update := Examining(line, None, true))
    case StoreInEmpty => s.(slots := s.slots[s.update.line := s.update.next], writer := false, update := Rest)
    case Refuse =>
      WithRule(s.(writer := false, update := Rest), s.update.next.value, s.rules[s.update.next.value].(destroyed := true))
    case LetReadersIn =>
      s.(writer := false, update := Marking(s.update.line, s.update.next, s.slots[s.update.line].value))
    case MarkEmptying =>
      var u := s.update;
      WithRule(s.(update := Testing(u.line, u.next, u.r)), u.r, s.rules[u.r].(mutex := HeldByUpdater, emptying := true))
    case Test =>
      var u := s.update;
      WithRule(s.(update := if s.rules[u.r].accessors > 0 then Parked(u.line, u.next, u.r, false) else Returning(u.line, u.next, u.r)),
               u.r, s.rules[u.r].(mutex := Nobody))
    case SpuriousWake => s.(update := s.update.(woken := true))
    case Resume =>
      var u := s.update;
      WithRule(s.(update := Testing(u.line, u.next, u.r)), u.r, s.rules[u.r].(mutex := HeldByUpdater))
    case WrLock => s.(writer := true, update := Replacing(s.update.line, s.update.next, s.update.r))
    case Swap =>
      var u := s.update;
      WithRule(s.(slots := s.slots[u.line := u.next], writer := false, update := Rest), u.r, s.rules[u.r].(destroyed := true))
  }

  // ----- the invariant -----

  /** How many times the threads hold rule `r`. */
  function Holds(workers: seq<Worker>, r: nat): nat {
    if workers == [] then 0 else Holds(workers[..|workers| - 1], r) + workers[|workers| - 1].held[r]
  }

  predicate Reads(p: Place) {
    p.Scanning? || p.Locking? || p.Locked? || p.Leaving?
  }

  predicate OwnsMutex(p: Place, r: nat) {
    p == Locked(r) || p == Decrementing(r) || p == Unlocking(r)
  }

  /** The thread may still read or write the rule. */
  predicate Refers(w: Worker, r: nat) {
    r in w.held || w.at == Locking(r) || w.at == Releasing(r) || OwnsMutex(w.at, r)
  }

  predicate InTable(s: State, r: nat) {
    exists i: nat :: i < |s.slots| && s.slots[i] == Some(r)
  }

  /** The updater is emptying rule `r`. */
  predicate Empties(u: Update, r: nat) {
    (u.Testing? || u.Parked? || u.Returning? || u.Replacing?) && u.r == r
  }

  predicate Aims(u: Update) {
    u.Marking? || u.Testing? || u.Parked? || u.Returning? || u.Replacing?
  }

  ghost predicate TableOk(s: State) {
    && (forall i :: 0 <= i < |s.slots| && s.slots[i].Some? ==> s.slots[i].value < |s.rules| && !s.rules[s.slots[i].value].destroyed)
    && (forall i, j :: 0 <= i < j < |s.slots| && s.slots[i].Some? ==> s.slots[i] != s.slots[j])
  }

  ghost predicate LockOk(s: State) {
    && (forall t :: t in s.readers <==> 0 <= t < |s.workers| && Reads(s.workers[t].at))
    && (s.writer <==> s.update.Examining? || s.update.Replacing?)
    && (s.writer ==> s.readers == {})
  }

  ghost predicate CountsOk(s: State) {
    forall r :: 0 <= r < |s.rules| ==> s.rules[r].accessors == Holds(s.workers, r)
  }

  ghost predicate ReferencesOk(s: State) {
    && (forall t, r: nat :: 0 <= t < |s.workers| && Refers(s.workers[t], r) ==> InTable(s, r))
    && (forall t :: 0 <= t < |s.workers| && (s.workers[t].at.Releasing? || s.workers[t].at.Decrementing?) ==> s.workers[t].at.r in s.workers[t].held)
  }

  ghost predicate MutexesOk(s: State) {
    && (forall r, t :: 0 <= r < |s.rules| && 0 <= t < |s.workers| ==> (s.rules[r].mutex == HeldBy(t) <==> OwnsMutex(s.workers[t].at, r)))
    && (forall r :: 0 <= r < |s.rules| && s.rules[r].mutex.HeldBy? ==> s.rules[r].mutex.worker < |s.workers|)
    && (forall r :: 0 <= r < |s.rules| ==> (s.rules[r].mutex == HeldByUpdater <==> s.update.Testing? && s.update.r == r))
  }

  ghost predicate UpdateOk(s: State) {
    var u := s.update;
    && (Aims(u) ==> u.line < |s.slots| && s.slots[u.line] == Some(u.r) && u.r < |s.rules|)
    && (u.Examining? ==> u.line < |s.slots| && (!u.replace ==> u.next.Some?) && (u.next.None? ==> s.slots[u.line].Some?))
    && (forall r :: 0 <= r < |s.rules| && !s.rules[r].destroyed ==> (s.rules[r].emptying <==> Empties(u, r)))
    && (!u.Rest? && u.next.Some? ==> u.next.value < |s.rules| && !InTable(s, u.next.value) && s.rules[u.next.value] == FRESH_RULE)
    && (u.Parked? && !u.woken ==> s.rules[u.r].accessors > 0)
    && (u.Returning? || u.Replacing? ==>
          s.rules[u.r].accessors == 0 && forall t :: 0 <= t < |s.workers| ==> s.workers[t].at != Unlocking(u.r))
  }

  ghost predicate Inv(s: State) {
    TableOk(s) && LockOk(s) && CountsOk(s) && ReferencesOk(s) && MutexesOk(s) && UpdateOk(s)
  }

  ghost predicate Initial(s: State) {
    && TableOk(s) && s.readers == {} && !s.writer && s.update == Rest
    && (forall t :: 0 <= t < |s.workers| ==> s.workers[t] == Worker(Idle, multiset{}))
    && (forall r :: 0 <= r < |s.rules| ==> s.rules[r].accessors == 0 && !s.rules[r].emptying && s.rules[r].mutex == Nobody)
  }

  // ----- counting -----

  lemma {:induction false} HoldsUpdate(workers: seq<Worker>, t: nat, w: Worker, r: nat)
    requires t < |workers|
    ensures Holds(workers[t := w], r) + workers[t].held[r] == Holds(workers, r) + w.held[r]
  {
    var n := |workers| - 1;
    if t == n {
      assert workers[t := w][..n] == workers[..n];
    } else {
      assert workers[t := w][..n] == workers[..n][t := w];
      HoldsUpdate(workers[..n], t, w, r);
    }
  }

  lemma {:induction false} HoldsIsSum(workers: seq<Worker>, t: nat, r: nat)
    requires t < |workers|
    ensures workers[t].held[r] <= Holds(workers, r)
  {
    var n := |workers| - 1;
    if t < n {
      HoldsIsSum(workers[..n], t, r);
    }
  }

  lemma {:induction false} NoHolds(workers: seq<Worker>, r: nat)
    requires forall t :: 0 <= t < |workers| ==> r !in workers[t].held
    ensures Holds(workers, r) == 0
  {
    if workers != [] {
      NoHolds(workers[..|workers| - 1], r);
    }
  }

  // ----- every move keeps it -----

  lemma InitialInv(s: State)
    requires Initial(s)
    ensures Inv(s)
  {
    forall r | 0 <= r < |s.rules| ensures s.rules[r].accessors == Holds(s.workers, r) {
      NoHolds(s.workers, r);
    }
  }

  /** The moves of a thread that leave every rule as it is, and the others. */
  predicate Walks(mv: Move) {
    mv.RdLock? || mv.Choose? || mv.NoMatch? || mv.RdUnlock? || mv.StartRelease?
  }

  predicate TouchesRule(mv: Move) {
    mv.LockRule? || mv.Enter? || mv.LockRelease? || mv.Decrement? || mv.UnlockRelease?
  }

  /** What any move of thread `t` does: it moves that thread alone, and refers to no
      new rule but one it finds in the table. */
  ghost predicate MovesOne(s: State, s': State, t: nat) {
    && t < |s.workers| && |s'.workers| == |s.workers|
    && s'.workers == s.workers[t := s'.workers[t]]
    && s'.slots == s.slots && s'.writer == s.writer && |s'.rules| == |s.rules|
    && s'.readers == (if Reads(s'.workers[t].at) then s.readers + {t} else s.readers - {t})
    && (s.writer && Reads(s'.workers[t].at) ==> Reads(s.workers[t].at))
    && (s'.workers[t].at.Releasing? || s'.workers[t].at.Decrementing? ==> s'.workers[t].at.r in s'.workers[t].held)
    && (forall r: nat :: Refers(s'.workers[t], r) ==> Refers(s.workers[t], r) || Some(r) in s.slots)
  }

  /** And to the rules: it changes one at most, whose mutex it holds before or after,
      and counts what it takes and gives back. */
  ghost predicate TouchesOne(s: State, s': State, t: nat, r: nat)
    requires MovesOne(s, s', t)
  {
    var w, w' := s.workers[t], s'.workers[t];
    && r < |s.rules| && s'.rules == s.rules[r := s'.rules[r]]
    && s'.rules[r].emptying == s.rules[r].emptying && s'.rules[r].destroyed == s.rules[r].destroyed
    && s'.rules[r].accessors == s.rules[r].accessors + w'.held[r] - w.held[r]
    && (s.rules[r].emptying ==> w'.held[r] <= w.held[r])
    && (forall q: nat :: q != r ==> w'.held[q] == w.held[q] && !OwnsMutex(w.at, q) && !OwnsMutex(w'.at, q))
    && (s.rules[r].mutex == Nobody || s.rules[r].mutex == HeldBy(t))
    && s'.rules[r].mutex == (if OwnsMutex(w'.at, r) then HeldBy(t) else Nobody)
    && (w'.at == Unlocking(r) ==> r in w.held)
    && s'.update == (if s.update.Parked? && s.update.r == r && s'.rules[r].accessors == 0 && w'.held != w.held && s.rules[r].emptying
                     then s.update.(woken := true) else s.update)
  }

  lemma WalkMovesOne(s: State, mv: Move)
    requires ReferencesOk(s) && LockOk(s) && Enabled(s, mv) && Walks(mv)
    ensures MovesOne(s, Apply(s, mv), mv.t)
  {
  }

  lemma TakeMovesOne(s: State, mv: Move)
    requires ReferencesOk(s) && LockOk(s) && Enabled(s, mv) && (mv.LockRule? || mv.Enter?)
    ensures MovesOne(s, Apply(s, mv), mv.t)
  {
    hide InTable;
  }

  lemma ReleaseMovesOne(s: State, mv: Move)
    requires ReferencesOk(s) && LockOk(s) && Enabled(s, mv) && (mv.LockRelease? || mv.Decrement? || mv.UnlockRelease?)
    ensures MovesOne(s, Apply(s, mv), mv.t)
  {
    hide InTable;
  }

  lemma MovesOneWorker(s: State, mv: Move)
    requires ReferencesOk(s) && LockOk(s) && Enabled(s, mv) && (Walks(mv) || TouchesRule(mv))
    ensures MovesOne(s, Apply(s, mv), mv.t)
  {
    hide ReferencesOk, LockOk, Apply, Enabled, MovesOne;
    if Walks(mv) {
      WalkMovesOne(s, mv);
    } else {
      if mv.LockRule? || mv.Enter? {
        TakeMovesOne(s, mv);
      } else {
        ReleaseMovesOne(s, mv);
      }
    }
  }

  lemma WalkTouchesNothing(s: State, mv: Move)
    requires Enabled(s, mv) && Walks(mv)
    ensures var s' := Apply(s, mv);
            && s'.rules == s.rules && s'.update == s.update && s'.workers[mv.t].held == s.workers[mv.t].held
            && forall r: nat :: !OwnsMutex(s.workers[mv.t].at, r) && !OwnsMutex(s'.workers[mv.t].at, r)
  {
  }

  lemma TouchesOneRule(s: State, mv: Move)
    requires ReferencesOk(s) && LockOk(s) && MutexesOk(s) && Enabled(s, mv) && TouchesRule(mv)
    requires MovesOne(s, Apply(s, mv), mv.t)
    ensures TouchesOne(s, Apply(s, mv), mv.t, s.workers[mv.t].at.r)
  {
    assert OwnsMutex(s.workers[mv.t].at, s.workers[mv.t].at.r) ==> s.rules[s.workers[mv.t].at.r].mutex == HeldBy(mv.t);
  }

  lemma StillInTable(s: State, s': State, r: nat)
    requires s'.slots == s.slots
    ensures InTable(s', r) <==> Some(r) in s.slots
  {
    if Some(r) in s.slots {
      var i :| 0 <= i < |s.slots| && s.slots[i] == Some(r);
      assert s'.slots[i] == Some(r);
    }
  }

  lemma OneKeepsReferences(s: State, s': State, t: nat)
    requires ReferencesOk(s) && LockOk(s) && MovesOne(s, s', t)
    ensures ReferencesOk(s') && LockOk(s' .(update := s.update))
  {
    forall u, r: nat | 0 <= u < |s'.workers| && Refers(s'.workers[u], r) ensures InTable(s', r) {
      StillInTable(s, s', r);
      StillInTable(s, s, r);
      if u != t {
        assert Refers(s.workers[u], r);
      }
    }
  }

  lemma WalkKeepsInv(s: State, mv: Move)
    requires Inv(s) && Enabled(s, mv) && Walks(mv)
    ensures Inv(Apply(s, mv))
  {
    hide Apply, Enabled, Reads, Refers;
    MovesOneWorker(s, mv);
    WalkTouchesNothing(s, mv);
    var s' := Apply(s, mv);
    OneKeepsReferences(s, s', mv.t);
    forall r: nat | r < |s.rules| ensures s'.rules[r].accessors == Holds(s'.workers, r) {
      HoldsUpdate(s.workers, mv.t, s'.workers[mv.t], r);
    }
    assert forall r: nat :: InTable(s', r) <==> InTable(s, r);
    hide OwnsMutex, CountsOk, ReferencesOk, LockOk;
    assert MutexesOk(s');
  }

  lemma TouchKeepsCounts(s: State, s': State, t: nat, r: nat)
    requires CountsOk(s) && MovesOne(s, s', t) && TouchesOne(s, s', t, r)
    ensures CountsOk(s')
  {
    forall q: nat | q < |s.rules| ensures s'.rules[q].accessors == Holds(s'.workers, q) {
      HoldsUpdate(s.workers, t, s'.workers[t], q);
    }
  }

  lemma TouchKeepsMutexes(s: State, s': State, t: nat, r: nat)
    requires MutexesOk(s) && MovesOne(s, s', t) && TouchesOne(s, s', t, r)
    ensures MutexesOk(s')
  {
    hide OwnsMutex, Refers, Reads;
  }

  lemma TouchKeepsUpdate(s: State, s': State, t: nat, r: nat)
    requires UpdateOk(s) && CountsOk(s) && MutexesOk(s) && TableOk(s) && MovesOne(s, s', t) && TouchesOne(s, s', t, r)
    requires CountsOk(s') && ReferencesOk(s)
    ensures UpdateOk(s')
  {
    var u := s.update;
    if u.Returning? || u.Replacing? {
      HoldsIsSum(s.workers, t, u.r);
    }
    forall q: nat ensures InTable(s', q) <==> InTable(s, q) {
      StillInTable(s, s', q);
      StillInTable(s, s, q);
    }
    if !u.Rest? && u.next.Some? && u.next.value == r {
      StillInTable(s, s, r);
      assert Refers(s.workers[t], r) || Refers(s'.workers[t], r) || s'.rules[r] == s.rules[r];
    }
    hide Reads, CountsOk, MutexesOk, Refers, ReferencesOk;
  }

  lemma TouchKeepsTable(s: State, s': State, t: nat, r: nat)
    requires TableOk(s) && LockOk(s) && MovesOne(s, s', t) && TouchesOne(s, s', t, r)
    ensures TableOk(s') && LockOk(s')
  {
    hide Refers, OwnsMutex;
  }

  lemma TouchKeepsInv(s: State, mv: Move)
    requires Inv(s) && Enabled(s, mv) && TouchesRule(mv)
    ensures Inv(Apply(s, mv))
  {
    MovesOneWorker(s, mv);
    TouchesOneRule(s, mv);
    hide Apply, Enabled;
    var s' := Apply(s, mv);
    var r := s.workers[mv.t].at.r;
    OneKeepsReferences(s, s', mv.t);
    TouchKeepsCounts(s, s', mv.t, r);
    TouchKeepsMutexes(s, s', mv.t, r);
    TouchKeepsUpdate(s, s', mv.t, r);
    TouchKeepsTable(s, s', mv.t, r);
    hide TableOk, LockOk, CountsOk, ReferencesOk, MutexesOk, UpdateOk, MovesOne, TouchesOne;
  }

  predicate Stores(mv: Move) {
    mv.StoreInEmpty? || mv.Swap?
  }

  /** At the swap no thread can reach the rule any more. */
  lemma NobodyRefers(s: State)
    requires Inv(s) && s.update.Replacing?
    ensures forall t :: 0 <= t < |s.workers| ==> !Refers(s.workers[t], s.update.r)
  {
    forall t | 0 <= t < |s.workers| ensures !Refers(s.workers[t], s.update.r) {
      HoldsIsSum(s.workers, t, s.update.r);
      assert t !in s.readers;
    }
  }

  lemma StoreKeepsReferences(s: State, mv: Move)
    requires Inv(s) && Enabled(s, mv) && Stores(mv)
    ensures ReferencesOk(Apply(s, mv))
  {
    var s' := Apply(s, mv);
    if mv.Swap? {
      NobodyRefers(s);
    }
    hide CountsOk, MutexesOk, LockOk;
    forall t, r: nat | 0 <= t < |s'.workers| && Refers(s'.workers[t], r) ensures InTable(s', r) {
      assert InTable(s, r);
      var i: nat :| i < |s.slots| && s.slots[i] == Some(r);
      assert s'.slots[i] == Some(r);
    }
  }

  lemma StoreKeepsTable(s: State, mv: Move)
    requires Inv(s) && Enabled(s, mv) && Stores(mv)
    ensures TableOk(Apply(s, mv)) && LockOk(Apply(s, mv)) && CountsOk(Apply(s, mv)) && MutexesOk(Apply(s, mv)) && UpdateOk(Apply(s, mv))
  {
    hide ReferencesOk;
    var s' := Apply(s, mv);
    var line, next := s.update.line, s.update.next;
    assert s' == s'.(slots := s.slots[line := next]);
    if next.Some? {
      assert forall i: nat :: i < |s.slots| ==> (s.slots[i] == next ==> InTable(s, next.value));
    }
  }

  lemma UpdaterKeepsTable(s: State, mv: Move)
    requires Inv(s) && Enabled(s, mv) && !Walks(mv) && !TouchesRule(mv) && !Stores(mv)
    ensures var s' := Apply(s, mv);
            s'.slots == s.slots && s'.workers == s.workers && s'.readers == s.readers
    ensures TableOk(Apply(s, mv)) && LockOk(Apply(s, mv))
  {
    hide CountsOk, MutexesOk, ReferencesOk;
    var s' := Apply(s, mv);
    if mv.Refuse? {
      assert forall i :: 0 <= i < |s.slots| && s.slots[i] == s.update.next ==> InTable(s, s.update.next.value);
    }
  }

  lemma UpdaterKeepsCounts(s: State, mv: Move)
    requires Inv(s) && Enabled(s, mv) && !Walks(mv) && !TouchesRule(mv) && !Stores(mv)
    ensures CountsOk(Apply(s, mv))
  {
    PublishedIsOld(s);
    hide ReferencesOk, TableOk, LockOk, MutexesOk, UpdateOk, Refers;
  }

  lemma UpdaterKeepsMutexes(s: State, mv: Move)
    requires Inv(s) && Enabled(s, mv) && !Walks(mv) && !TouchesRule(mv) && !Stores(mv)
    ensures MutexesOk(Apply(s, mv))
  {
    PublishedIsOld(s);
    hide ReferencesOk, TableOk, LockOk, CountsOk, InTable, Refers;
  }

  lemma UpdaterKeepsUpdate(s: State, mv: Move)
    requires Inv(s) && Enabled(s, mv) && !Walks(mv) && !TouchesRule(mv) && !Stores(mv)
    ensures UpdateOk(Apply(s, mv))
  {
    var s' := Apply(s, mv);
    PublishedIsOld(s);
    assert s'.slots == s.slots;
    forall q: nat ensures InTable(s', q) <==> InTable(s, q) {
      StillInTable(s, s', q);
      StillInTable(s, s, q);
    }
    hide ReferencesOk, LockOk, Refers, CountsOk, InTable;
  }

  lemma OtherUpdaterMoveKeepsInv(s: State, mv: Move)
    requires Inv(s) && Enabled(s, mv) && !Walks(mv) && !TouchesRule(mv) && !Stores(mv)
    ensures Inv(Apply(s, mv))
  {
    UpdaterKeepsTable(s, mv);
    UpdaterKeepsCounts(s, mv);
    UpdaterKeepsMutexes(s, mv);
    UpdaterKeepsUpdate(s, mv);
    var s' := Apply(s, mv);
    hide Apply, Enabled, TableOk, LockOk, CountsOk, MutexesOk, UpdateOk;
    forall t, r: nat | 0 <= t < |s'.workers| && Refers(s'.workers[t], r) ensures InTable(s', r) {
      StillInTable(s, s', r);
      StillInTable(s, s, r);
    }
  }

  /** A rule that is not created yet is nowhere. */
  lemma PublishedIsOld(s: State)
    requires Inv(s)
    ensures !InTable(s, |s.rules|) && Holds(s.workers, |s.rules|) == 0
    ensures forall t :: 0 <= t < |s.workers| ==> !Refers(s.workers[t], |s.rules|)
  {
    assert !InTable(s, |s.rules|);
    assert forall t :: 0 <= t < |s.workers| ==> !Refers(s.workers[t], |s.rules|);
    assert forall t :: 0 <= t < |s.workers| && !Refers(s.workers[t], |s.rules|) ==> |s.rules| !in s.workers[t].held;
    NoHolds(s.workers, |s.rules|);
  }

  lemma MoveKeepsInv(s: State, mv: Move)
    requires Inv(s) && Enabled(s, mv)
    ensures Inv(Apply(s, mv))
  {
    if Walks(mv) {
      WalkKeepsInv(s, mv);
    } else if TouchesRule(mv) {
      TouchKeepsInv(s, mv);
    } else if Stores(mv) {
      StoreKeepsReferences(s, mv);
      StoreKeepsTable(s, mv);
    } else {
      OtherUpdaterMoveKeepsInv(s, mv);
    }
  }

  // ----- every interleaving -----

  /** `moves` leads from `s` to `s'`. */
  predicate Path(s: State, moves: seq<Move>, s': State)
    decreases moves
  {
    if moves == [] then s' == s else Enabled(s, moves[0]) && Path(Apply(s, moves[0]), moves[1..], s')
  }

  lemma {:induction false} PathKeepsInv(s: State, moves: seq<Move>, s': State)
    requires Inv(s) && Path(s, moves, s')
    ensures Inv(s')
    decreases moves
  {
    if moves != [] {
      MoveKeepsInv(s, moves[0]);
      hide Inv, Apply, Enabled;
      PathKeepsInv(Apply(s, moves[0]), moves[1..], s');
    }
  }

  /** In every interleaving a rule counts exactly the places that hold it, and no
      thread can touch a rule that has been destroyed, nor find one in the table. */
  lemma RulesAreSafe(s0: State, moves: seq<Move>, s: State, r: nat)
    requires Initial(s0) && Path(s0, moves, s) && r < |s.rules|
    ensures s.rules[r].accessors == Holds(s.workers, r)
    ensures s.rules[r].destroyed ==> !InTable(s, r) && forall t :: 0 <= t < |s.workers| ==> !Refers(s.workers[t], r)
  {
    InitialInv(s0);
    PathKeepsInv(s0, moves, s);
    if s.rules[r].destroyed {
      assert !InTable(s, r);
    }
  }

  lemma WhoDestroys(s: State, mv: Move, r: nat)
    requires Enabled(s, mv) && r < |s.rules| && !s.rules[r].destroyed && Apply(s, mv).rules[r].destroyed
    ensures (mv.Swap? && r == s.update.r) || (mv.Refuse? && Some(r) == s.update.next)
  {
  }

  lemma NobodyRefersToNext(s: State)
    requires Inv(s) && !s.update.Rest? && s.update.next.Some?
    ensures var r := s.update.next.value;
            && Holds(s.workers, r) == 0 && s.rules[r].mutex == Nobody && !InTable(s, r)
            && forall t :: 0 <= t < |s.workers| ==> !Refers(s.workers[t], r)
  {
    hide Refers;
  }

  lemma SwapIsSafe(s: State)
    requires Inv(s) && s.update.Replacing?
    ensures var r := s.update.r;
            && r < |s.rules| && Holds(s.workers, r) == 0 && s.rules[r].mutex == Nobody
            && forall t :: 0 <= t < |s.workers| ==> !Refers(s.workers[t], r)
  {
    NobodyRefers(s);
  }

  /** A rule is destroyed only when no thread holds or can reach it, and then for
      good out of the table. */
  lemma DestroyedOnlyUnused(s0: State, moves: seq<Move>, s: State, mv: Move, r: nat)
    requires Initial(s0) && Path(s0, moves, s) && Enabled(s, mv) && r < |s.rules|
    requires !s.rules[r].destroyed && Apply(s, mv).rules[r].destroyed
    ensures Holds(s.workers, r) == 0 && s.rules[r].mutex == Nobody
    ensures forall t :: 0 <= t < |s.workers| ==> !Refers(s.workers[t], r)
    ensures !InTable(Apply(s, mv), r)
  {
    InitialInv(s0);
    PathKeepsInv(s0, moves, s);
    WhoDestroys(s, mv, r);
    MoveKeepsInv(s, mv);
    DestroyedIsOut(Apply(s, mv), r);
    if mv.Swap? {
      SwapIsSafe(s);
    } else {
      NobodyRefersToNext(s);
    }
    hide Inv, Refers, Path, Apply, Holds, InTable;
  }

  lemma DestroyedIsOut(s: State, r: nat)
    requires TableOk(s) && r < |s.rules| && s.rules[r].destroyed
    ensures !InTable(s, r)
  {
  }

  /** Once the updater is emptying a rule, no thread takes it any more: its holds and
      its count only fall, and each release lowers the count by one. */
  lemma NoEntryWhileEmptying(s: State, mv: Move, r: nat)
    requires Enabled(s, mv) && r < |s.rules| && s.rules[r].emptying
    ensures var s' := Apply(s, mv);
            && s'.rules[r].emptying
            && s'.rules[r].accessors <= s.rules[r].accessors
            && (forall t :: 0 <= t < |s.workers| ==> s'.workers[t].held[r] <= s.workers[t].held[r])
            && (mv.Decrement? && s.workers[mv.t].at.r == r ==> s'.rules[r].accessors == s.rules[r].accessors - 1)
  {
  }

  /** The updater never sleeps on a rule that nobody uses: if it is parked and the
      count is zero, a wake-up is pending; and once it has the mutex again it goes on. */
  lemma NeverParkedForNothing(s0: State, moves: seq<Move>, s: State)
    requires Initial(s0) && Path(s0, moves, s) && s.update.Parked?
    requires s.update.r < |s.rules| && s.rules[s.update.r].accessors == 0
    ensures s.update.woken
    ensures s.rules[s.update.r].mutex == Nobody ==>
              && Enabled(s, Resume) && Enabled(Apply(s, Resume), Test)
              && Apply(Apply(s, Resume), Test).update.Returning?
  {
    InitialInv(s0);
    PathKeepsInv(s0, moves, s);
  }

  // ----- progress -----

  /** The moves that bring work to an end: no new scan of the table, no new update,
      no wake-up without a cause. */
  predicate Drains(mv: Move) {
    !mv.RdLock? && !mv.StartPut? && !mv.StartRemove? && !mv.SpuriousWake?
  }

  function Cost(w: Worker): nat {
    var h := 4 * |w.held|;
    match w.at
    case Idle => h
    case Scanning => h + 8
    case Locking(_) => h + 7
    case Locked(_) => h + 6
    case Leaving => h + 1
    case Releasing(_) => if h > 0 then h - 1 else 0
    case Decrementing(_) => if h > 1 then h - 2 else 0
    case Unlocking(_) => h + 1
  }

  function WorkLeft(workers: seq<Worker>): nat {
    if workers == [] then 0 else WorkLeft(workers[..|workers| - 1]) + Cost(workers[|workers| - 1])
  }

  function UpdateLeft(u: Update): nat {
    match u
    case Rest => 0
    case Examining(_, _, _) => 7
    case Marking(_, _, _) => 6
    case Testing(_, _, _) => 5
    case Parked(_, _, _, woken) => if woken then 6 else 1
    case Returning(_, _, _) => 3
    case Replacing(_, _, _) => 2
  }

  lemma {:induction false} WorkUpdate(workers: seq<Worker>, t: nat, w: Worker)
    requires t < |workers|
    ensures WorkLeft(workers[t := w]) + Cost(workers[t]) == WorkLeft(workers) + Cost(w)
  {
    hide Cost;
    var n := |workers| - 1;
    if t == n {
      assert workers[t := w][..n] == workers[..n];
    } else {
      assert workers[t := w][..n] == workers[..n][t := w];
      WorkUpdate(workers[..n], t, w);
    }
  }

  lemma WalkCostFalls(s: State, mv: Move)
    requires Inv(s) && Enabled(s, mv) && Drains(mv) && Walks(mv)
    ensures Cost(Apply(s, mv).workers[mv.t]) < Cost(s.workers[mv.t])
  {
    hide Inv;
  }

  lemma TakeCostFalls(s: State, mv: Move)
    requires Enabled(s, mv) && (mv.LockRule? || mv.Enter?)
    ensures Cost(Apply(s, mv).workers[mv.t]) < Cost(s.workers[mv.t])
  {
  }

  lemma ReleaseCostFalls(s: State, mv: Move)
    requires Enabled(s, mv) && (mv.LockRelease? || mv.Decrement? || mv.UnlockRelease?)
    requires s.workers[mv.t].at.Releasing? || s.workers[mv.t].at.Decrementing? ==> s.workers[mv.t].at.r in s.workers[mv.t].held
    ensures Cost(Apply(s, mv).workers[mv.t]) < Cost(s.workers[mv.t])
  {
    var w := s.workers[mv.t];
    if w.at.r in w.held {
      assert |w.held - multiset{w.at.r}| == |w.held| - 1;
    }
  }

  lemma HoldsWhatItReleases(s: State, t: nat)
    requires Inv(s) && t < |s.workers|
    ensures var w := s.workers[t]; w.at.Releasing? || w.at.Decrementing? ==> w.at.r in w.held
  {
  }

  lemma CostFalls(s: State, mv: Move)
    requires Inv(s) && Enabled(s, mv) && Drains(mv) && (Walks(mv) || TouchesRule(mv))
    ensures Cost(Apply(s, mv).workers[mv.t]) < Cost(s.workers[mv.t])
  {
    hide Inv, Apply, Cost;
    if Walks(mv) {
      WalkCostFalls(s, mv);
    } else if mv.LockRule? || mv.Enter? {
      TakeCostFalls(s, mv);
    } else {
      HoldsWhatItReleases(s, mv.t);
      ReleaseCostFalls(s, mv);
    }
  }

  /** Every draining move lowers the lexicographic measure (work left in the threads,
      steps left to the updater): no schedule of them goes on for ever. */
  lemma DrainDescends(s: State, mv: Move)
    requires Inv(s) && Enabled(s, mv) && Drains(mv)
    ensures var s' := Apply(s, mv);
            || WorkLeft(s'.workers) < WorkLeft(s.workers)
            || (WorkLeft(s'.workers) == WorkLeft(s.workers) && UpdateLeft(s'.update) < UpdateLeft(s.update))
  {
    if Walks(mv) || TouchesRule(mv) {
      CostFalls(s, mv);
      MovesOneWorker(s, mv);
      WorkUpdate(s.workers, mv.t, Apply(s, mv).workers[mv.t]);
    }
  }

  lemma {:induction false} SomebodyHolds(workers: seq<Worker>, r: nat) returns (t: nat)
    requires Holds(workers, r) > 0
    ensures t < |workers| && r in workers[t].held
  {
    var n := |workers| - 1;
    if workers[n].held[r] > 0 {
      t := n;
    } else {
      t := SomebodyHolds(workers[..n], r);
    }
  }

  /** Whoever holds a mutex can go on. */
  lemma OwnerCanMove(s: State, r: nat) returns (mv: Move)
    requires Inv(s) && r < |s.rules| && s.rules[r].mutex != Nobody
    ensures Drains(mv) && Enabled(s, mv)
  {
    match s.rules[r].mutex
    case HeldByUpdater => mv := Test;
    case HeldBy(t) =>
      assert OwnsMutex(s.workers[t].at, r);
      mv := if s.workers[t].at.Locked? then Enter(t) else if s.workers[t].at.Decrementing? then Decrement(t) else UnlockRelease(t);
  }

  /** A thread that is busy, or that holds a rule, can go on, or waits for one that can. */
  lemma WorkerCanMove(s: State, t: nat) returns (mv: Move)
    requires Inv(s) && IsWorker(s, t) && (!s.workers[t].at.Idle? || s.workers[t].held != multiset{})
    ensures Drains(mv) && Enabled(s, mv)
  {
    var w := s.workers[t];
    match w.at
    case Idle =>
      var r :| r in w.held;
      mv := StartRelease(t, r);
    case Scanning => mv := NoMatch(t);
    case Locking(r) =>
      RuleExists(s, t, r);
      if s.rules[r].mutex == Nobody { mv := LockRule(t); } else { mv := OwnerCanMove(s, r); }
    case Leaving => mv := RdUnlock(t);
    case Releasing(r) =>
      RuleExists(s, t, r);
      if s.rules[r].mutex == Nobody { mv := LockRelease(t); } else { mv := OwnerCanMove(s, r); }
    case Locked(r) =>
      RuleExists(s, t, r);
      mv := Enter(t);
    case Decrementing(r) =>
      RuleExists(s, t, r);
      mv := Decrement(t);
    case Unlocking(r) =>
      RuleExists(s, t, r);
      mv := UnlockRelease(t);
  }

  lemma RuleExists(s: State, t: nat, r: nat)
    requires Inv(s) && IsWorker(s, t) && Refers(s.workers[t], r)
    ensures r < |s.rules|
  {
    assert InTable(s, r);
  }

  /** No deadlock: while the updater is at work, something can be done that drains. */
  lemma NoDeadlock(s: State) returns (mv: Move)
    requires Inv(s) && !s.update.Rest?
    ensures Drains(mv) && Enabled(s, mv)
  {
    var u := s.update;
    match u
    case Examining(line, next, replace) =>
      mv := if s.slots[line].None? then StoreInEmpty else if replace then LetReadersIn else Refuse;
    case Marking(line, next, r) =>
      if s.rules[r].mutex == Nobody { mv := MarkEmptying; } else { mv := OwnerCanMove(s, r); }
    case Testing(line, next, r) => mv := Test;
    case Parked(line, next, r, woken) =>
      if !woken {
        var t := SomebodyHolds(s.workers, r);
        mv := WorkerCanMove(s, t);
      } else if s.rules[r].mutex == Nobody {
        mv := Resume;
      } else {
        mv := OwnerCanMove(s, r);
      }
    case Returning(line, next, r) =>
      if s.readers == {} {
        mv := WrLock;
      } else {
        var t :| t in s.readers;
        mv := WorkerCanMove(s, t);
      }
    case Replacing(line, next, r) => mv := Swap;
  }

  /** From every reachable state, draining moves bring the updater to the end of its update. */
  lemma {:induction false} UpdaterFinishes(s: State) returns (moves: seq<Move>, s': State)
    requires Inv(s)
    ensures Path(s, moves, s') && s'.update.Rest?
    ensures forall i :: 0 <= i < |moves| ==> Drains(moves[i])
    decreases WorkLeft(s.workers), UpdateLeft(s.update)
  {
    if s.update.Rest? {
      moves, s' := [], s;
    } else {
      var mv := NoDeadlock(s);
      DrainDescends(s, mv);
      MoveKeepsInv(s, mv);
      hide Inv, Enabled, Apply;
      var rest;
      rest, s' := UpdaterFinishes(Apply(s, mv));
      moves := [mv] + rest;
      assert moves[1..] == rest;
    }
  }
}
