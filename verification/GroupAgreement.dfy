/** One (permanent group, user) pair under interleaved operations: where its row and its tuple stand
    after any run, exactly when the two stores disagree on it, and what would keep them together. */
module GroupAgreement {
  import opened Wrappers
  import opened Groups
  import opened GroupInterleaving
  import Drift = GroupDrift

  // ----- The calls on a pair ------------------------------------------------------------

  predicate IsPair(g: Group, u: string, groupId: string, userId: string) {
    g.id == groupId && u == userId
  }

  /** The row write a step gets through for the pair: an insert, a delete, or none. */
  function RowCall(w: World, step: Step, groupId: string, userId: string): Option<bool>
    requires Enabled(w, step)
  {
    if !step.Go? || !step.ok then None
    else
      match w.running[step.p]
      case AddRow(g, u, _) => if IsPair(g, u, groupId, userId) then Some(true) else None
      case RemoveRow(g, u) => if IsPair(g, u, groupId, userId) then Some(false) else None
      case _ => None
  }

  /** An operation about to make its tuple call for the pair. */
  predicate AtTuple(pc: Pc, groupId: string, userId: string) {
    (pc.AddTuple? || pc.RemoveTuple?) && IsPair(pc.g, pc.userId, groupId, userId)
  }

  /** The tuple call a step gets through for the pair: a write, a delete, or none. */
  function TupleCall(w: World, step: Step, groupId: string, userId: string): Option<bool>
    requires Enabled(w, step)
  {
    if step.Go? && step.ok && AtTuple(w.running[step.p], groupId, userId)
    then Some(w.running[step.p].AddTuple?)
    else None
  }

  /** The last row call of a run that got through, `start` if there is none. */
  ghost function LastRowCall(w: World, steps: seq<Step>, groupId: string, userId: string, start: bool): bool
    requires Legal(w, steps)
    decreases |steps|
  {
    if steps == [] then start
    else
      var call := RowCall(w, steps[0], groupId, userId);
      LastRowCall(Apply(w, steps[0]), steps[1..], groupId, userId, if call.Some? then call.value else start)
  }

  ghost function LastTupleCall(w: World, steps: seq<Step>, groupId: string, userId: string, start: bool): bool
    requires Legal(w, steps)
    decreases |steps|
  {
    if steps == [] then start
    else
      var call := TupleCall(w, steps[0], groupId, userId);
      LastTupleCall(Apply(w, steps[0]), steps[1..], groupId, userId, if call.Some? then call.value else start)
  }

  // ----- Where a pair stands ------------------------------------------------------------

  predicate HasRow(w: World, groupId: string, userId: string) {
    (groupId, userId) in w.store.members
  }

  predicate HasTuple(w: World, groupId: string, userId: string) {
    MemberTuple(groupId, userId) in w.store.keto
  }

  predicate InStep(w: World, groupId: string, userId: string) {
    HasRow(w, groupId, userId) <==> HasTuple(w, groupId, userId)
  }

  lemma {:induction false} CallMovesRow(w: World, step: Step, groupId: string, userId: string)
    requires Enabled(w, step)
    ensures var call := RowCall(w, step, groupId, userId);
            HasRow(Apply(w, step), groupId, userId) == if call.Some? then call.value else HasRow(w, groupId, userId)
  {
  }

  lemma {:induction false} CallMovesTuple(w: World, step: Step, groupId: string, userId: string)
    requires Inv(w) && Enabled(w, step) && MayHoldTuples(w.born, groupId)
    ensures var call := TupleCall(w, step, groupId, userId);
            HasTuple(Apply(w, step), groupId, userId) == if call.Some? then call.value else HasTuple(w, groupId, userId)
  {
    if step.Go? {
      var pc := w.running[step.p];
      assert PcOk(w.born, pc);
      if (pc.AddTuple? || pc.RemoveTuple? || pc.DeleteTuples?) && Object(pc.g.id) == Object(groupId) {
        Drift.ObjectInjective(pc.g.id, groupId);
      }
      hide Inv, PcOk, Object;
    }
  }

  lemma {:induction false} StepKeepsInv(w: World, step: Step, groupId: string)
    requires Inv(w) && Enabled(w, step) && MayHoldTuples(w.born, groupId)
    ensures Inv(Apply(w, step)) && MayHoldTuples(Apply(w, step).born, groupId)
  {
    if step.Go? {
      CallKeepsInv(w, step.p, step.ok, step.now, step.users);
      CallTouchesOnlyItself(w, step.p, w.running[step.p], step.ok, step.now, step.users);
      hide Inv, Call;
    } else {
      BeginKeepsInv(w, step);
    }
  }

  /** In every interleaving with failing calls, from any reachable world: a pair of a permanent group
      has a row exactly when its last successful row call was an add's, and a tuple exactly when its
      last successful tuple call was an add's. */
  lemma {:induction false} PairFollowsLastCalls(w: World, steps: seq<Step>, groupId: string, userId: string)
    requires Inv(w) && Legal(w, steps) && MayHoldTuples(w.born, groupId)
    ensures HasRow(Run(w, steps), groupId, userId)
         == LastRowCall(w, steps, groupId, userId, HasRow(w, groupId, userId))
    ensures HasTuple(Run(w, steps), groupId, userId)
         == LastTupleCall(w, steps, groupId, userId, HasTuple(w, groupId, userId))
    decreases |steps|
  {
    hide Inv, Apply, MayHoldTuples, HasRow, HasTuple, RowCall, TupleCall;
    if steps != [] {
      StepKeepsInv(w, steps[0], groupId);
      CallMovesRow(w, steps[0], groupId, userId);
      CallMovesTuple(w, steps[0], groupId, userId);
      PairFollowsLastCalls(Apply(w, steps[0]), steps[1..], groupId, userId);
    }
  }

  /** Exactly when an interleaving ends with the stores apart on a pair: its last successful row call
      and its last successful tuple call went opposite ways. */
  lemma {:induction false} InterleavedDriftExactly(w: World, steps: seq<Step>, groupId: string, userId: string)
    requires Inv(w) && Legal(w, steps) && MayHoldTuples(w.born, groupId)
    ensures !InStep(Run(w, steps), groupId, userId) <==>
            LastRowCall(w, steps, groupId, userId, HasRow(w, groupId, userId))
            != LastTupleCall(w, steps, groupId, userId, HasTuple(w, groupId, userId))
  {
    PairFollowsLastCalls(w, steps, groupId, userId);
  }

  // ----- The guard the code lacks -------------------------------------------------------

  /** The tuple call agrees with the row as it stands: a check before the call. */
  predicate MatchesRow(w: World, step: Step, groupId: string, userId: string)
    requires Enabled(w, step)
  {
    TupleCall(w, step, groupId, userId) == Some(HasRow(w, groupId, userId))
  }

  /** A successful tuple call leaves the stores together on its pair if and only if it is a write and
      the row is there, or a deletion and the row is gone. */
  lemma {:induction false} TupleCallAgreesExactly(w: World, step: Step, groupId: string, userId: string)
    requires Inv(w) && Enabled(w, step) && TupleCall(w, step, groupId, userId).Some?
    ensures InStep(Apply(w, step), groupId, userId) <==> MatchesRow(w, step, groupId, userId)
    ensures MatchesRow(w, step, groupId, userId) <==> ((groupId, userId) in w.store.members <==> w.running[step.p].AddTuple?)
  {
  }

  // ----- One operation at a time on each pair -------------------------------------------

  ghost predicate Pending(w: World, p: nat, groupId: string, userId: string) {
    p in w.running && AtTuple(w.running[p], groupId, userId)
  }

  ghost predicate NonePending(w: World, groupId: string, userId: string) {
    forall p: nat :: !Pending(w, p, groupId, userId)
  }

  /** The step leaves the pair alone, or its row call finds no tuple call outstanding, or its tuple
      call succeeds. Operations on other pairs overlap freely. */
  ghost predicate TakesTurn(w: World, step: Step, groupId: string, userId: string)
    requires Enabled(w, step)
  {
    && (RowCall(w, step, groupId, userId).Some? ==> NonePending(w, groupId, userId))
    && (step.Go? && Pending(w, step.p, groupId, userId) ==> step.ok)
  }

  ghost predicate InTurn(w: World, steps: seq<Step>, groupId: string, userId: string)
    requires Legal(w, steps)
    decreases |steps|
  {
    steps != [] ==>
      TakesTurn(w, steps[0], groupId, userId) && InTurn(Apply(w, steps[0]), steps[1..], groupId, userId)
  }

  /** At most one tuple call is outstanding on the pair; it matches the row, and without one the
      stores are together. */
  ghost predicate Orderly(w: World, groupId: string, userId: string) {
    && (forall p: nat, q: nat :: Pending(w, p, groupId, userId) && Pending(w, q, groupId, userId) ==> p == q)
    && (forall p: nat :: Pending(w, p, groupId, userId) ==> (w.running[p].AddTuple? <==> HasRow(w, groupId, userId)))
    && (NonePending(w, groupId, userId) ==> InStep(w, groupId, userId))
  }

  lemma {:induction false} OthersStandStill(w: World, step: Step, q: nat)
    requires Enabled(w, step) && q != step.p
    ensures q in Apply(w, step).running <==> q in w.running
    ensures q in w.running ==> Apply(w, step).running[q] == w.running[q]
  {
  }

  lemma {:induction false} BeginsAreNotPending(w: World, step: Step, groupId: string, userId: string)
    requires Enabled(w, step) && !step.Go?
    ensures !Pending(Apply(w, step), step.p, groupId, userId) && RowCall(w, step, groupId, userId).None?
  {
  }

  lemma {:induction false} CallLeadsToTuple(
      w: World, p: nat, ok: bool, now: int, users: seq<string>, groupId: string, userId: string)
    requires p in w.running && PcOk(w.born, w.running[p]) && Enabled(w, Go(p, ok, now, users))
    requires MayHoldTuples(w.born, groupId)
    ensures var t, call := Call(w, p, w.running[p], ok, now, users), RowCall(w, Go(p, ok, now, users), groupId, userId);
            && (Pending(t, p, groupId, userId) <==> call.Some?)
            && (Pending(t, p, groupId, userId) ==> (t.running[p].AddTuple? <==> call == Some(true)))
  {
    hide Enabled;
  }

  /** An operation comes to its tuple call by its row call, for a permanent group, and by nothing else. */
  lemma {:induction false} RowCallLeadsToTuple(w: World, step: Step, groupId: string, userId: string)
    requires Inv(w) && Enabled(w, step) && MayHoldTuples(w.born, groupId)
    ensures var t := Apply(w, step);
            && (Pending(t, step.p, groupId, userId) <==> RowCall(w, step, groupId, userId).Some?)
            && (Pending(t, step.p, groupId, userId) ==>
                  (t.running[step.p].AddTuple? <==> RowCall(w, step, groupId, userId) == Some(true)))
  {
    if step.Go? {
      assert PcOk(w.born, w.running[step.p]);
      hide Inv, PcOk, Call, RowCall, MayHoldTuples, Pending;
      CallLeadsToTuple(w, step.p, step.ok, step.now, step.users, groupId, userId);
    } else {
      hide Inv, Apply, RowCall, MayHoldTuples, Pending;
      BeginsAreNotPending(w, step, groupId, userId);
    }
  }

  /** What a step does to the outstanding tuple calls of a pair whose group is permanent. */
  lemma {:induction false} PendingMoves(w: World, step: Step, groupId: string, userId: string)
    requires Inv(w) && Enabled(w, step) && MayHoldTuples(w.born, groupId)
    ensures var t := Apply(w, step);
            && (forall q: nat :: q != step.p ==>
                  (Pending(t, q, groupId, userId) <==> Pending(w, q, groupId, userId))
                  && (Pending(w, q, groupId, userId) ==> t.running[q] == w.running[q]))
            && (Pending(t, step.p, groupId, userId) <==> RowCall(w, step, groupId, userId).Some?)
            && (Pending(t, step.p, groupId, userId) ==>
                  (t.running[step.p].AddTuple? <==> RowCall(w, step, groupId, userId) == Some(true)))
  {
    RowCallLeadsToTuple(w, step, groupId, userId);
    hide Inv, Apply, Enabled, RowCall, MayHoldTuples, AtTuple;
    forall q: nat | q != step.p
      ensures Pending(Apply(w, step), q, groupId, userId) <==> Pending(w, q, groupId, userId)
      ensures Pending(w, q, groupId, userId) ==> Apply(w, step).running[q] == w.running[q]
    {
      OthersStandStill(w, step, q);
    }
  }

  /** A successful tuple call is that of an outstanding operation, and goes its way. */
  lemma {:induction false} TupleCallIsPending(w: World, step: Step, groupId: string, userId: string)
    requires Enabled(w, step)
    ensures TupleCall(w, step, groupId, userId)
         == if step.Go? && step.ok && Pending(w, step.p, groupId, userId) then Some(w.running[step.p].AddTuple?) else None
    ensures Pending(w, step.p, groupId, userId) ==> step.Go?
  {
  }

  lemma {:induction false} TurnKeepsOrder(w: World, step: Step, groupId: string, userId: string)
    requires Inv(w) && Enabled(w, step) && MayHoldTuples(w.born, groupId)
    requires Orderly(w, groupId, userId) && TakesTurn(w, step, groupId, userId)
    ensures Orderly(Apply(w, step), groupId, userId)
  {
    PendingMoves(w, step, groupId, userId);
    CallMovesRow(w, step, groupId, userId);
    CallMovesTuple(w, step, groupId, userId);
    TupleCallIsPending(w, step, groupId, userId);
    hide Inv, Apply, Enabled, RowCall, TupleCall, MayHoldTuples, HasRow, HasTuple, Pending;
  }

  /** What would keep the stores together: if operations on a pair take turns, each from its row call
      to its tuple call, and the tuple calls succeed, then whenever none is outstanding the pair has
      a row exactly when it has a tuple, in every interleaving with anything else. */
  lemma {:induction false} TurnsKeepAgreement(w: World, steps: seq<Step>, groupId: string, userId: string)
    requires Inv(w) && Legal(w, steps) && MayHoldTuples(w.born, groupId)
    requires Orderly(w, groupId, userId) && InTurn(w, steps, groupId, userId)
    ensures Orderly(Run(w, steps), groupId, userId)
    ensures NonePending(Run(w, steps), groupId, userId) ==> InStep(Run(w, steps), groupId, userId)
    decreases |steps|
  {
    hide Inv, Apply, MayHoldTuples, TakesTurn;
    if steps != [] {
      StepKeepsInv(w, steps[0], groupId);
      TurnKeepsOrder(w, steps[0], groupId, userId);
      TurnsKeepAgreement(Apply(w, steps[0]), steps[1..], groupId, userId);
    }
  }

  // ----- Exactly when a run ends in agreement -------------------------------------------

  /** Did the last successful tuple call of the run on the pair match the row as it then stood;
      `start` if there was none. */
  ghost predicate LastMatched(w: World, steps: seq<Step>, groupId: string, userId: string, start: bool)
    requires Legal(w, steps)
    decreases |steps|
  {
    if steps == [] then start
    else
      LastMatched(Apply(w, steps[0]), steps[1..], groupId, userId,
                  if TupleCall(w, steps[0], groupId, userId).Some? then MatchesRow(w, steps[0], groupId, userId) else start)
  }

  /** No tuple call on the pair fails. */
  ghost predicate TupleCallsSucceed(w: World, steps: seq<Step>, groupId: string, userId: string)
    requires Legal(w, steps)
    decreases |steps|
  {
    steps != [] ==>
      && (steps[0].Go? && Pending(w, steps[0].p, groupId, userId) ==> steps[0].ok)
      && TupleCallsSucceed(Apply(w, steps[0]), steps[1..], groupId, userId)
  }

  /** An outstanding tuple call would bring the tuple to where the row is. */
  ghost predicate GoesRowsWay(w: World, p: nat, groupId: string, userId: string) {
    Pending(w, p, groupId, userId) && (w.running[p].AddTuple? <==> HasRow(w, groupId, userId))
  }

  /** Some outstanding tuple call goes the row's way, or else the stores stand as the last one left
      them. */
  ghost predicate Accounted(w: World, groupId: string, userId: string, matched: bool) {
    (exists p: nat :: GoesRowsWay(w, p, groupId, userId)) || (InStep(w, groupId, userId) <==> matched)
  }

  lemma {:induction false} StepAccounts(w: World, step: Step, groupId: string, userId: string, matched: bool)
    requires Inv(w) && Enabled(w, step) && MayHoldTuples(w.born, groupId)
    requires Accounted(w, groupId, userId, matched)
    requires step.Go? && Pending(w, step.p, groupId, userId) ==> step.ok
    ensures Accounted(Apply(w, step), groupId, userId,
                      if TupleCall(w, step, groupId, userId).Some? then MatchesRow(w, step, groupId, userId) else matched)
  {
    var t := Apply(w, step);
    PendingMoves(w, step, groupId, userId);
    CallMovesRow(w, step, groupId, userId);
    CallMovesTuple(w, step, groupId, userId);
    TupleCallIsPending(w, step, groupId, userId);
    hide Inv, Apply, RowCall, TupleCall, MayHoldTuples, HasRow, HasTuple, Pending, Enabled;
    if Pending(t, step.p, groupId, userId) {
      assert GoesRowsWay(t, step.p, groupId, userId);
    } else if TupleCall(w, step, groupId, userId).None? {
      if p: nat :| GoesRowsWay(w, p, groupId, userId) {
        assert GoesRowsWay(t, p, groupId, userId);
      }
    }
  }

  lemma {:induction false} RunAccounts(w: World, steps: seq<Step>, groupId: string, userId: string, matched: bool)
    requires Inv(w) && Legal(w, steps) && MayHoldTuples(w.born, groupId)
    requires Accounted(w, groupId, userId, matched) && TupleCallsSucceed(w, steps, groupId, userId)
    ensures Accounted(Run(w, steps), groupId, userId, LastMatched(w, steps, groupId, userId, matched))
    decreases |steps|
  {
    hide Inv, Apply, MayHoldTuples, Accounted, TupleCall, MatchesRow, Pending;
    if steps != [] {
      StepKeepsInv(w, steps[0], groupId);
      StepAccounts(w, steps[0], groupId, userId, matched);
      RunAccounts(Apply(w, steps[0]), steps[1..], groupId, userId,
                  if TupleCall(w, steps[0], groupId, userId).Some? then MatchesRow(w, steps[0], groupId, userId) else matched);
    }
  }

  /** The exact guard: in an interleaving of anything, from a world with the stores together on a pair
      and no tuple call on it outstanding, to one with none outstanding, in which no tuple call on it
      fails, the stores end together if and only if the last tuple call on it was a write with the row
      there, or a deletion with the row gone. */
  lemma {:induction false} GuardIsExact(w: World, steps: seq<Step>, groupId: string, userId: string)
    requires Inv(w) && Legal(w, steps) && MayHoldTuples(w.born, groupId)
    requires InStep(w, groupId, userId) && NonePending(w, groupId, userId)
    requires TupleCallsSucceed(w, steps, groupId, userId) && NonePending(Run(w, steps), groupId, userId)
    ensures InStep(Run(w, steps), groupId, userId) <==> LastMatched(w, steps, groupId, userId, true)
  {
    RunAccounts(w, steps, groupId, userId, true);
  }
}
