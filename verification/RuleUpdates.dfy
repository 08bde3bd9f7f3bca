/** What an update of the rule table comes to, whatever the processing threads do meanwhile,
    and what a thread gets that looks for a rule (`src/actions.c`). */
module RuleUpdates {
  import opened Options
  import opened RuleLock

  /** The step begins an update. */
  predicate Starts(mv: Move) {
    mv.StartPut? || mv.StartRemove?
  }

  /** What the update puts into its line. */
  function NextOf(s: State, mv: Move): Option<nat>
    requires Starts(mv)
  {
    if mv.StartPut? then Some(|s.rules|) else None
  }

  /** The update is let through: it removes, or replaces, or its line is empty. */
  predicate LetThrough(s: State, mv: Move)
    requires Enabled(s, mv) && Starts(mv)
  {
    mv.StartRemove? || mv.replace || s.slots[mv.line].None?
  }

  predicate Destroyed(s: State, r: nat) {
    r < |s.rules| && s.rules[r].destroyed
  }

  /** The update that began with `mv` in state `s0` has ended in `s`: its line holds what it puts
      there and every other line what it held, and the rule that it replaced is destroyed; or it was
      refused, the table is as it was, and the new rule is destroyed. */
  predicate Ended(s0: State, mv: Move, s: State)
    requires Enabled(s0, mv) && Starts(mv)
  {
    if LetThrough(s0, mv) then
      s.slots == s0.slots[mv.line := NextOf(s0, mv)] && (s0.slots[mv.line].Some? ==> Destroyed(s, s0.slots[mv.line].value))
    else
      s.slots == s0.slots && Destroyed(s, |s0.rules|)
  }

  /** It goes on: nothing in the table has changed yet. */
  predicate GoesOn(s0: State, mv: Move, s: State)
    requires Enabled(s0, mv) && Starts(mv)
  {
    var u := s.update;
    && !u.Rest? && u.line == mv.line && u.next == NextOf(s0, mv) && s.slots == s0.slots
    && (if u.Examining? then u.replace == (mv.StartRemove? || mv.replace)
        else LetThrough(s0, mv) && s0.slots[mv.line] == Some(u.r))
  }

  predicate InEffect(s0: State, mv: Move, s: State)
    requires Enabled(s0, mv) && Starts(mv)
  {
    if s.update.Rest? then Ended(s0, mv, s) else GoesOn(s0, mv, s)
  }

  /** Destruction is final, and threads do not write to the table or end updates. */
  lemma ThreadsLeaveTable(s: State, mv: Move)
    requires Enabled(s, mv) && (Walks(mv) || TouchesRule(mv))
    ensures var s' := Apply(s, mv);
            && s'.slots == s.slots && (forall r :: Destroyed(s, r) ==> Destroyed(s', r))
            && s'.update == (if s.update.Parked? then s.update.(woken := s'.update.Parked? && s'.update.woken) else s.update)
            && (s.update.Parked? ==> s'.update.Parked?)
  {
  }

  lemma MoveKeepsEffect(s0: State, mv: Move, s: State, step: Move)
    requires Enabled(s0, mv) && Starts(mv) && InEffect(s0, mv, s) && Enabled(s, step) && !Starts(step)
    ensures InEffect(s0, mv, Apply(s, step))
  {
    if Walks(step) || TouchesRule(step) {
      ThreadsLeaveTable(s, step);
      hide Apply;
    }
  }

  predicate NoStart(moves: seq<Move>) {
    forall i :: 0 <= i < |moves| ==> !Starts(moves[i])
  }

  lemma {:induction false} PathKeepsEffect(s0: State, mv: Move, s: State, moves: seq<Move>, s': State)
    requires Enabled(s0, mv) && Starts(mv) && InEffect(s0, mv, s) && NoStart(moves) && Path(s, moves, s')
    ensures InEffect(s0, mv, s')
    decreases moves
  {
    hide InEffect, Apply, Enabled, Starts;
    if moves != [] {
      assert !Starts(moves[0]);
      MoveKeepsEffect(s0, mv, s, moves[0]);
      PathKeepsEffect(s0, mv, Apply(s, moves[0]), moves[1..], s');
    }
  }

  /** In every interleaving with the threads: as long as an update goes on, the table is as it was;
      when it has ended, it has had its effect, on its line and on no other. It is refused exactly
      if it puts a rule without replacing into a line that was taken when it began. */
  lemma UpdateHasItsEffect(s0: State, mv: Move, moves: seq<Move>, s: State)
    requires Enabled(s0, mv) && Starts(mv) && NoStart(moves) && Path(Apply(s0, mv), moves, s)
    ensures if s.update.Rest? then Ended(s0, mv, s) else s.slots == s0.slots
  {
    assert InEffect(s0, mv, Apply(s0, mv));
    PathKeepsEffect(s0, mv, Apply(s0, mv), moves, s);
  }

  /** Every update can be brought to its end, and then has had its effect. */
  lemma UpdateCompletes(s0: State, mv: Move) returns (moves: seq<Move>, s: State)
    requires Inv(s0) && Enabled(s0, mv) && Starts(mv)
    ensures NoStart(moves) && Path(Apply(s0, mv), moves, s) && s.update.Rest? && Ended(s0, mv, s)
  {
    MoveKeepsInv(s0, mv);
    hide Inv, Apply, Enabled;
    moves, s := UpdaterFinishes(Apply(s0, mv));
    UpdateHasItsEffect(s0, mv, moves, s);
  }

  // ----- what a thread gets -----

  /** The step of a thread that looks for the rule of a line, without waiting. */
  function TakeMoves(t: nat, line: nat): seq<Move> {
    [RdLock(t), Choose(t, line), LockRule(t), Enter(t), RdUnlock(t)]
  }

  lemma {:induction false} Then(s0: State, moves: seq<Move>, s: State, mv: Move) returns (moves': seq<Move>, s': State)
    requires Path(s0, moves, s) && Enabled(s, mv)
    ensures moves' == moves + [mv] && s' == Apply(s, mv) && Path(s0, moves', s')
    decreases moves
  {
    moves', s' := moves + [mv], Apply(s, mv);
    hide Apply, Enabled;
    if moves == [] {
      assert moves'[1..] == [];
    } else {
      var rest, _ := Then(Apply(s0, moves[0]), moves[1..], s, mv);
      assert moves'[1..] == rest;
    }
  }

  /** A thread that finds a rule whose mutex is free holds it once more afterwards, and the rule counts
      one more, if and only if the updater is not emptying it. */
  lemma TakesUnlessEmptying(s: State, t: nat, line: nat) returns (s': State)
    requires Inv(s) && t < |s.workers| && s.workers[t].at.Idle? && !s.writer && line < |s.slots| && s.slots[line].Some?
    requires MutexFree(s, s.slots[line].value)
    ensures Path(s, TakeMoves(t, line), s') && |s'.workers| == |s.workers| && |s'.rules| == |s.rules|
    ensures var r := s.slots[line].value;
            && s'.workers[t].at.Idle? && s'.rules[r].mutex == Nobody
            && (if s.rules[r].emptying then s'.workers[t].held == s.workers[t].held && s'.rules[r].accessors == s.rules[r].accessors
                else s'.workers[t].held == s.workers[t].held[r := s.workers[t].held[r] + 1] && s'.rules[r].accessors == s.rules[r].accessors + 1)
  {
    var r := s.slots[line].value;
    hide Inv, Path;
    PathStarts(s);
    var moves;
    moves, s' := Then(s, [], s, RdLock(t));
    moves, s' := Then(s, moves, s', Choose(t, line));
    moves, s' := Then(s, moves, s', LockRule(t));
    moves, s' := Then(s, moves, s', Enter(t));
    moves, s' := Then(s, moves, s', RdUnlock(t));
    assert moves == TakeMoves(t, line);
  }

  lemma PathStarts(s: State)
    ensures Path(s, [], s)
  {
  }

  /** A thread that gives a rule back holds it once less, and the rule counts one less. */
  lemma GivesBack(s: State, t: nat, r: nat) returns (s': State)
    requires Inv(s) && t < |s.workers| && s.workers[t].at.Idle? && r in s.workers[t].held && MutexFree(s, r)
    ensures Path(s, [StartRelease(t, r), LockRelease(t), Decrement(t), UnlockRelease(t)], s') && |s'.workers| == |s.workers| && |s'.rules| == |s.rules|
    ensures s'.workers[t].at.Idle? && s'.workers[t].held == s.workers[t].held[r := s.workers[t].held[r] - 1]
    ensures s'.rules[r].accessors == s.rules[r].accessors - 1 && s'.rules[r].mutex == Nobody
    ensures s.update.Parked? && s.update.r == r && s.rules[r].emptying && s.rules[r].accessors == 1 ==> s'.update.Parked? && s'.update.woken
  {
    hide Inv, Path;
    PathStarts(s);
    var moves;
    moves, s' := Then(s, [], s, StartRelease(t, r));
    moves, s' := Then(s, moves, s', LockRelease(t));
    moves, s' := Then(s, moves, s', Decrement(t));
    moves, s' := Then(s, moves, s', UnlockRelease(t));
    assert moves == [StartRelease(t, r), LockRelease(t), Decrement(t), UnlockRelease(t)];
  }
}
