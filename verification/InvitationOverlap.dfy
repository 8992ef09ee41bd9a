/** Overlapping accepts of one invitation: exactly when they keep the bound that serial accepts obey. */
module InvitationOverlap {
  import opened Wrappers
  import opened Invitations

  // ----- The stored mark and the trail --------------------------------------------------

  ghost predicate MarksShow(w: World, token: string) {
    Marks(w.state.trail, token) > 0 <==> IsAccepted(w.state, token)
  }

  /** What every reachable world satisfies. */
  ghost predicate Consistent(w: World, token: string) {
    Inv(w) && Balanced(w, token) && MarksShow(w, token)
  }

  lemma {:induction false} AddShows(w: World, p: nat, ok: bool, now: int, token: string)
    requires Enabled(w, Add(p, ok, now)) && MarksShow(w, token)
    ensures MarksShow(Apply(w, Add(p, ok, now)), token)
  {
    var inv := w.running[p].inv;
    var m := Joiner(inv, w.running[p].userId, now);
    var after := Apply(w, Add(p, ok, now));
    if p in after.running {
      CountsSnoc(w.state.trail, Joined(inv.token, m), after.state.trail, token);
    }
    hide Joins, Marks, FailedMarks;
  }

  lemma {:induction false} MarkShows(w: World, p: nat, ok: bool, now: int, token: string)
    requires Inv(w) && Enabled(w, Mark(p, ok, now)) && MarksShow(w, token)
    ensures MarksShow(Apply(w, Mark(p, ok, now)), token)
  {
    var inv := w.running[p].inv;
    assert PcOk(w.state.invitations, w.running[p]);
    MarkOnlyMarks(w.state.invitations, inv, now);
    CountsSnoc(w.state.trail, if ok then Marked(inv.token) else MarkFailed(inv.token),
               Apply(w, Mark(p, ok, now)).state.trail, token);
    hide Joins, Marks, FailedMarks, WithMark, Keyed, RunningOk, TrailOk;
  }

  lemma {:induction false} StepKeepsConsistent(w: World, step: Step, token: string)
    requires Consistent(w, token) && Enabled(w, step)
    ensures Consistent(Apply(w, step), token)
  {
    StepKeepsInv(w, step);
    StepKeepsBalance(w, step, token);
    hide Inv, Balanced, Marks;
    match step
    case Add(p, ok, now) => AddShows(w, p, ok, now, token);
    case Mark(p, ok, now) => MarkShows(w, p, ok, now, token);
    case _ =>
  }

  /** A token is stored as accepted if and only if some mark of it has succeeded, in every reachable
      state. */
  lemma {:induction false} RunKeepsConsistent(w: World, steps: seq<Step>, token: string)
    requires Consistent(w, token) && Legal(w, steps)
    ensures Consistent(Run(w, steps), token)
    decreases |steps|
  {
    hide Consistent, Apply;
    if steps != [] {
      StepKeepsConsistent(w, steps[0], token);
      RunKeepsConsistent(Apply(w, steps[0]), steps[1..], token);
    }
  }

  // ----- The serial bound ---------------------------------------------------------------

  /** What `SerialJoins` promises of accepts that do not overlap. */
  ghost predicate WithinBound(w: World, token: string) {
    Joins(w.state.trail, token) <= 1 + FailedMarks(w.state.trail, token)
  }

  /** The token is unmarked and no other accept of it stands between its two writes: a check on the
      tables and the accepts under way, before the insert. */
  ghost predicate Free(w: World, token: string) {
    !IsAccepted(w.state, token) && Between(w.running, token) == {}
  }

  /** A step that inserts a member through the token. */
  ghost predicate Inserts(w: World, step: Step, token: string) {
    && step.Add? && step.ok && Enabled(w, step) && w.running[step.p].inv.token == token
    && MayAdd(w.state.members, Joiner(w.running[step.p].inv, w.running[step.p].userId, step.now))
  }

  /** The exact condition for one insert: whatever came before, the bound holds after it if and only
      if its token was free. */
  lemma {:induction false} InsertKeepsBoundExactly(w: World, step: Step, token: string)
    requires Consistent(w, token) && Inserts(w, step, token)
    ensures WithinBound(Apply(w, step), token) <==> Free(w, token)
  {
    var inv := w.running[step.p].inv;
    var m := Joiner(inv, w.running[step.p].userId, step.now);
    CountsSnoc(w.state.trail, Joined(inv.token, m), Apply(w, step).state.trail, token);
    hide Joins, Marks, FailedMarks, Between, Inv;
  }

  lemma {:induction false} OtherStepKeepsBound(w: World, step: Step, token: string)
    requires Enabled(w, step) && !Inserts(w, step, token) && WithinBound(w, token)
    ensures WithinBound(Apply(w, step), token)
  {
    var after := Apply(w, step);
    match step
    case Add(p, _, now) =>
      var inv := w.running[p].inv;
      if p in after.running {
        CountsSnoc(w.state.trail, Joined(inv.token, Joiner(inv, w.running[p].userId, now)), after.state.trail, token);
      }
      hide Joins, FailedMarks;
    case Mark(p, ok, _) =>
      var inv := w.running[p].inv;
      CountsSnoc(w.state.trail, if ok then Marked(inv.token) else MarkFailed(inv.token), after.state.trail, token);
      hide Joins, FailedMarks, WithMark;
    case _ =>
  }

  ghost predicate AlwaysWithinBound(w: World, steps: seq<Step>, token: string)
    requires Legal(w, steps)
    decreases |steps|
  {
    WithinBound(w, token) && (steps != [] ==> AlwaysWithinBound(Apply(w, steps[0]), steps[1..], token))
  }

  ghost predicate EveryInsertFree(w: World, steps: seq<Step>, token: string)
    requires Legal(w, steps)
    decreases |steps|
  {
    steps != [] ==>
      && (Inserts(w, steps[0], token) ==> Free(w, token))
      && EveryInsertFree(Apply(w, steps[0]), steps[1..], token)
  }

  lemma {:induction false} BoundFollowsInserts(w: World, steps: seq<Step>, token: string)
    requires Consistent(w, token) && WithinBound(w, token) && Legal(w, steps)
    ensures AlwaysWithinBound(w, steps, token) <==> EveryInsertFree(w, steps, token)
    decreases |steps|
  {
    hide Consistent, Apply, WithinBound, Free, Inserts;
    if steps != [] {
      var next := Apply(w, steps[0]);
      StepKeepsConsistent(w, steps[0], token);
      if Inserts(w, steps[0], token) {
        InsertKeepsBoundExactly(w, steps[0], token);
      } else {
        OtherStepKeepsBound(w, steps[0], token);
      }
      if WithinBound(next, token) {
        BoundFollowsInserts(next, steps[1..], token);
      } else {
        assert !AlwaysWithinBound(next, steps[1..], token);
      }
    }
  }

  /** The exact condition for whole runs: from a start with no accept under way and the token not yet
      accepted, an interleaving keeps within the serial bound all along if and only if every insert
      through the token finds it free. */
  lemma {:induction false} BoundHoldsExactly(s: State, steps: seq<Step>, token: string)
    requires Keyed(s.invitations) && s.trail == [] && !IsAccepted(s, token) && Legal(World(s, map[]), steps)
    ensures AlwaysWithinBound(World(s, map[]), steps, token) <==> EveryInsertFree(World(s, map[]), steps, token)
  {
    assert Between(map[], token) == {};
    BoundFollowsInserts(World(s, map[]), steps, token);
  }

  // ----- How far the bound can be missed ------------------------------------------------

  /** Accepts `from..to` of a list of users, all past their lookup. */
  function Waiting(inv: Invitation, users: seq<string>, from: nat, to: nat): map<nat, Pc>
    requires from <= to <= |users|
  {
    map p: nat | from <= p < to :: Adding(inv, users[p])
  }

  function JoinSteps(users: seq<string>, k: nat, now: int): seq<Step>
    requires k <= |users|
    decreases |users| - k
  {
    if k == |users| then [] else [Add(k, true, now)] + ([Mark(k, true, now)] + JoinSteps(users, k + 1, now))
  }

  function LookupsThenJoins(token: string, users: seq<string>, k: nat, now: int): seq<Step>
    requires k <= |users|
    decreases |users| - k
  {
    if k == |users| then JoinSteps(users, 0, now)
    else [Lookup(k, token, users[k], now)] + LookupsThenJoins(token, users, k + 1, now)
  }

  /** Distinct users, none of them a member yet. */
  ghost predicate Newcomers(members: Members, orgId: string, users: seq<string>, k: nat) {
    && (forall i, j :: 0 <= i < j < |users| ==> users[i] != users[j])
    && (forall j :: k <= j < |users| ==> (orgId, users[j]) !in members)
  }

  lemma {:induction false} OneJoins(s: State, inv: Invitation, users: seq<string>, k: nat, now: int)
    requires k < |users| && ValidRole(inv.role) && Newcomers(s.members, inv.orgId, users, k)
    ensures var w := World(s, Waiting(inv, users, k, |users|));
            && Enabled(w, Add(k, true, now)) && Enabled(Apply(w, Add(k, true, now)), Mark(k, true, now))
            && var after := Apply(Apply(w, Add(k, true, now)), Mark(k, true, now));
            && after.running == Waiting(inv, users, k + 1, |users|)
            && Newcomers(after.state.members, inv.orgId, users, k + 1)
            && Joins(after.state.trail, inv.token) == Joins(s.trail, inv.token) + 1
            && FailedMarks(after.state.trail, inv.token) == FailedMarks(s.trail, inv.token)
  {
    hide WithMark, ValidRole;
    var w := World(s, Waiting(inv, users, k, |users|));
    var m := Joiner(inv, users[k], now);
    var added := Apply(w, Add(k, true, now));
    assert added == World(AddMember(s, inv.token, m), w.running[k := Marking(inv, m)]);
    var after := Apply(added, Mark(k, true, now));
    assert after.running == Waiting(inv, users, k + 1, |users|);
    CountsSnoc(s.trail, Joined(inv.token, m), added.state.trail, inv.token);
    CountsSnoc(added.state.trail, Marked(inv.token), after.state.trail, inv.token);
    hide Joins, FailedMarks, Marks, Waiting;
  }

  lemma {:induction false} RestJoin(s: State, inv: Invitation, users: seq<string>, k: nat, now: int)
    requires k <= |users| && ValidRole(inv.role) && Newcomers(s.members, inv.orgId, users, k)
    ensures var w, steps := World(s, Waiting(inv, users, k, |users|)), JoinSteps(users, k, now);
            && Legal(w, steps) && Run(w, steps).running == map[]
            && Joins(Run(w, steps).state.trail, inv.token) == Joins(s.trail, inv.token) + |users| - k
            && FailedMarks(Run(w, steps).state.trail, inv.token) == FailedMarks(s.trail, inv.token)
    decreases |users| - k
  {
    hide Joins, FailedMarks, Newcomers, Apply, Enabled;
    var w := World(s, Waiting(inv, users, k, |users|));
    if k == |users| {
      assert w.running == map[];
    } else {
      OneJoins(s, inv, users, k, now);
      var added := Apply(w, Add(k, true, now));
      var after := Apply(added, Mark(k, true, now));
      RestJoin(after.state, inv, users, k + 1, now);
      RunOf(added, Mark(k, true, now), JoinSteps(users, k + 1, now));
      RunOf(w, Add(k, true, now), [Mark(k, true, now)] + JoinSteps(users, k + 1, now));
    }
  }

  lemma {:induction false} OneLooksUp(s: State, token: string, users: seq<string>, k: nat, now: int)
    requires token in s.invitations && Refusal(s.invitations, token, now).None? && k < |users|
    ensures var inv := s.invitations[token];
            var w, lookup := World(s, Waiting(inv, users, 0, k)), Lookup(k, token, users[k], now);
            Enabled(w, lookup) && Apply(w, lookup) == World(s, Waiting(inv, users, 0, k + 1))
  {
    hide Refusal;
    var inv := s.invitations[token];
    assert Waiting(inv, users, 0, k)[k := Adding(inv, users[k])] == Waiting(inv, users, 0, k + 1);
  }

  predicate Succeeds(step: Step) {
    (step.Add? || step.Mark?) ==> step.ok
  }

  lemma {:induction false} JoinStepsSucceed(users: seq<string>, k: nat, now: int)
    requires k <= |users|
    ensures forall step :: step in JoinSteps(users, k, now) ==> Succeeds(step)
    decreases |users| - k
  {
    if k < |users| {
      JoinStepsSucceed(users, k + 1, now);
    }
  }

  lemma {:induction false} AllSucceed(token: string, users: seq<string>, k: nat, now: int)
    requires k <= |users|
    ensures forall step :: step in LookupsThenJoins(token, users, k, now) ==> Succeeds(step)
    decreases |users| - k
  {
    if k == |users| {
      JoinStepsSucceed(users, 0, now);
    } else {
      AllSucceed(token, users, k + 1, now);
    }
  }

  lemma {:induction false} LookupsLeadToJoins(s: State, token: string, users: seq<string>, k: nat, now: int)
    requires Keyed(s.invitations) && Refusal(s.invitations, token, now).None? && k <= |users|
    requires Newcomers(s.members, s.invitations[token].orgId, users, 0)
    ensures var w := World(s, Waiting(s.invitations[token], users, 0, k));
            var steps := LookupsThenJoins(token, users, k, now);
            && Legal(w, steps) && Run(w, steps).running == map[]
            && Joins(Run(w, steps).state.trail, token) == Joins(s.trail, token) + |users|
            && FailedMarks(Run(w, steps).state.trail, token) == FailedMarks(s.trail, token)
    decreases |users| - k
  {
    var inv := s.invitations[token];
    hide Newcomers, Joins, FailedMarks, Enabled, Apply, Waiting;
    if k == |users| {
      RestJoin(s, inv, users, 0, now);
    } else {
      OneLooksUp(s, token, users, k, now);
      LookupsLeadToJoins(s, token, users, k + 1, now);
      hide Keyed, Refusal;
      RunOf(World(s, Waiting(inv, users, 0, k)), Lookup(k, token, users[k], now),
            LookupsThenJoins(token, users, k + 1, now));
    }
  }

  /** The serial bound does not survive interleaving: any number of users can join through one
      token, with no call failing, when all of them look it up before the first mark. */
  lemma {:induction false} ManyJoinWithoutFailure(s: State, token: string, users: seq<string>, now: int)
    requires Keyed(s.invitations) && Refusal(s.invitations, token, now).None?
    requires Newcomers(s.members, s.invitations[token].orgId, users, 0)
    ensures var w, steps := World(s, map[]), LookupsThenJoins(token, users, 0, now);
            && Legal(w, steps) && (forall step :: step in steps ==> Succeeds(step))
            && Run(w, steps).running == map[]
            && Joins(Run(w, steps).state.trail, token) == Joins(s.trail, token) + |users|
            && FailedMarks(Run(w, steps).state.trail, token) == FailedMarks(s.trail, token)
  {
    assert Waiting(s.invitations[token], users, 0, 0) == map[];
    hide Newcomers, Joins, FailedMarks, Waiting, LookupsThenJoins, Keyed, Refusal;
    LookupsLeadToJoins(s, token, users, 0, now);
    AllSucceed(token, users, 0, now);
  }
}
