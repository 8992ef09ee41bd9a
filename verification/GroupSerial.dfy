/** The serial operations are runs of the interleaved system: an operation with nothing running
    beside it takes its own steps, one after another, and leaves the store the serial model gives. */
module GroupSerial {
  import opened Wrappers
  import opened Groups
  import opened GroupInterleaving

  /** `w` with operation `p` standing at `pc` and the store changed. */
  function At(w: World, p: nat, s: Store, pc: Pc): World {
    w.(store := s, running := w.running[p := pc])
  }

  function Call1(p: nat, ok: bool): Step {
    Go(p, ok, 0, [])
  }

  /** A step from one standing point to another. */
  lemma {:induction false} Advance(w: World, p: nat, s: Store, pc: Pc, step: Step, t: Store, next: Pc, rest: seq<Step>)
    requires step.Go? && step.p == p && Enabled(At(w, p, s, pc), step)
    requires Apply(At(w, p, s, pc), step) == Continue(At(w, p, s, pc).(store := t), p, next)
    requires Legal(At(w, p, t, next), rest)
    ensures Legal(At(w, p, s, pc), [step] + rest)
    ensures Run(At(w, p, s, pc), [step] + rest) == Run(At(w, p, t, next), rest)
  {
    assert Continue(At(w, p, s, pc).(store := t), p, next) == At(w, p, t, next);
    RunOf(At(w, p, s, pc), step, rest);
  }

  /** A last step. */
  lemma {:induction false} Conclude(w: World, p: nat, s: Store, pc: Pc, step: Step, t: Store)
    requires p !in w.running && step.Go? && step.p == p && Enabled(At(w, p, s, pc), step)
    requires Apply(At(w, p, s, pc), step) == Finish(At(w, p, s, pc).(store := t), p)
    ensures Legal(At(w, p, s, pc), [step] + [])
    ensures Run(At(w, p, s, pc), [step] + []) == w.(store := t)
  {
    assert At(w, p, s, pc).running - {p} == w.running;
    RunOf(At(w, p, s, pc), step, []);
  }

  // ----- Creates, adds and removes ------------------------------------------------------

  /** After its first write an operation makes its tuple call, unless the group is ephemeral, and
      then publishes. */
  function WriteSteps(p: nat, writeOk: bool, ephemeral: bool, ketoOk: bool): seq<Step> {
    if !writeOk then [Call1(p, false)] + []
    else if ephemeral then [Call1(p, true)] + ([Call1(p, true)] + [])
    else [Call1(p, true)] + ([Call1(p, ketoOk)] + ([Call1(p, true)] + []))
  }

  lemma {:induction false} CreateRuns(w: World, p: nat, cmd: CreateCommand, c: CreateCalls)
    requires p !in w.running && NewGroup(cmd, c.id).Success?
    ensures var start := At(w, p, w.store, CreateRow(NewGroup(cmd, c.id).value));
            var steps := WriteSteps(p, c.createOk, cmd.ephemeral, c.ketoOk);
            Legal(start, steps) && Run(start, steps) == w.(store := Created(w.store, cmd, c))
  {
    var g := NewGroup(cmd, c.id).value;
    assert g.id == c.id && g.createdBy == cmd.createdBy && g.ephemeral == cmd.ephemeral;
    if !c.createOk {
      Conclude(w, p, w.store, CreateRow(g), Call1(p, false), w.store);
    } else {
      var s1 := w.store.(groups := w.store.groups[g.id := g]);
      var s2 := if g.ephemeral then s1 else WriteRelation(s1, AdminTuple(g.id, cmd.createdBy), c.ketoOk);
      assert Created(w.store, cmd, c) == Emit(s2, GroupCreated(g));
      hide NewGroup, Created;
      var last := [Call1(p, true)] + [];
      Conclude(w, p, s2, CreateEvent(g), Call1(p, true), Emit(s2, GroupCreated(g)));
      if g.ephemeral {
        Advance(w, p, w.store, CreateRow(g), Call1(p, true), s1, CreateEvent(g), last);
      } else {
        Advance(w, p, s1, CreateTuple(g), Call1(p, c.ketoOk), s2, CreateEvent(g), last);
        Advance(w, p, w.store, CreateRow(g), Call1(p, true), s1, CreateTuple(g), [Call1(p, c.ketoOk)] + last);
      }
    }
  }

  /** A create refused by validation makes no call at all. */
  function CreateSteps(p: nat, cmd: CreateCommand, c: CreateCalls): seq<Step> {
    if NewGroup(cmd, c.id).Failure? then []
    else [BeginCreate(p, cmd, c.id)] + WriteSteps(p, c.createOk, cmd.ephemeral, c.ketoOk)
  }

  lemma {:induction false} CreateIsItsSteps(w: World, p: nat, cmd: CreateCommand, c: CreateCalls)
    requires p !in w.running && c.id !in w.born
    ensures var r := NewGroup(cmd, c.id);
            && Legal(w, CreateSteps(p, cmd, c))
            && Run(w, CreateSteps(p, cmd, c)) ==
               w.(born := if r.Success? then w.born[c.id := r.value] else w.born, store := Created(w.store, cmd, c))
  {
    if NewGroup(cmd, c.id).Failure? {
      assert Run(w, []) == w;
    } else {
      hide NewGroup, Created, WriteSteps;
      CreateRuns(w.(born := w.born[c.id := NewGroup(cmd, c.id).value]), p, cmd, c);
      RunOf(w, BeginCreate(p, cmd, c.id), WriteSteps(p, c.createOk, cmd.ephemeral, c.ketoOk));
    }
  }

  lemma {:induction false} AddRuns(
      w: World, p: nat, groupId: string, userId: string, appId: string, c: MemberCalls)
    requires p !in w.running && c.findOk && groupId in w.store.groups && w.store.groups[groupId].id == groupId
    ensures var steps := [BeginAdd(p, groupId, userId, appId)]
                         + WriteSteps(p, c.writeOk, w.store.groups[groupId].ephemeral, c.ketoOk);
            Legal(w, steps) && Run(w, steps) == w.(store := Added(w.store, groupId, userId, appId, c))
  {
    var g := w.store.groups[groupId];
    if !c.writeOk {
      Conclude(w, p, w.store, AddRow(g, userId, appId), Call1(p, false), w.store);
    } else {
      var s1 := InsertMember(w.store, groupId, userId, appId);
      var s2 := if g.ephemeral then s1 else WriteRelation(s1, MemberTuple(groupId, userId), c.ketoOk);
      var last := [Call1(p, true)] + [];
      Conclude(w, p, s2, AddEvent(g, userId, appId), Call1(p, true),
               Emit(s2, MemberAdded(groupId, g.orgId, appId, userId)));
      if g.ephemeral {
        Advance(w, p, w.store, AddRow(g, userId, appId), Call1(p, true), s1, AddEvent(g, userId, appId), last);
      } else {
        Advance(w, p, s1, AddTuple(g, userId, appId), Call1(p, c.ketoOk), s2, AddEvent(g, userId, appId), last);
        Advance(w, p, w.store, AddRow(g, userId, appId), Call1(p, true), s1, AddTuple(g, userId, appId),
                [Call1(p, c.ketoOk)] + last);
      }
    }
    RunOf(w, BeginAdd(p, groupId, userId, appId), WriteSteps(p, c.writeOk, g.ephemeral, c.ketoOk));
  }

  lemma {:induction false} RemoveRuns(w: World, p: nat, groupId: string, userId: string, c: MemberCalls)
    requires p !in w.running && c.findOk && groupId in w.store.groups && w.store.groups[groupId].id == groupId
    ensures var steps := [BeginRemove(p, groupId, userId)]
                         + WriteSteps(p, c.writeOk, w.store.groups[groupId].ephemeral, c.ketoOk);
            Legal(w, steps) && Run(w, steps) == w.(store := Removed(w.store, groupId, userId, c))
  {
    var g := w.store.groups[groupId];
    if !c.writeOk {
      Conclude(w, p, w.store, RemoveRow(g, userId), Call1(p, false), w.store);
    } else {
      var s1 := DeleteMember(w.store, groupId, userId);
      var s2 := if g.ephemeral then s1 else DeleteRelation(s1, MemberTuple(groupId, userId), c.ketoOk);
      var last := [Call1(p, true)] + [];
      Conclude(w, p, s2, RemoveEvent(g, userId), Call1(p, true),
               Emit(s2, MemberRemoved(groupId, g.orgId, g.appId, userId)));
      if g.ephemeral {
        Advance(w, p, w.store, RemoveRow(g, userId), Call1(p, true), s1, RemoveEvent(g, userId), last);
      } else {
        Advance(w, p, s1, RemoveTuple(g, userId), Call1(p, c.ketoOk), s2, RemoveEvent(g, userId), last);
        Advance(w, p, w.store, RemoveRow(g, userId), Call1(p, true), s1, RemoveTuple(g, userId),
                [Call1(p, c.ketoOk)] + last);
      }
    }
    RunOf(w, BeginRemove(p, groupId, userId), WriteSteps(p, c.writeOk, g.ephemeral, c.ketoOk));
  }

  /** An add or a remove whose lookup fails or finds no group makes no further call. */
  function MemberSteps(w: World, p: nat, begin: Step, groupId: string, c: MemberCalls): seq<Step> {
    if !c.findOk || groupId !in w.store.groups then []
    else [begin] + WriteSteps(p, c.writeOk, w.store.groups[groupId].ephemeral, c.ketoOk)
  }

  lemma {:induction false} AddIsItsSteps(
      w: World, p: nat, groupId: string, userId: string, appId: string, c: MemberCalls)
    requires p !in w.running && WellKeyed(w.store)
    ensures var steps := MemberSteps(w, p, BeginAdd(p, groupId, userId, appId), groupId, c);
            Legal(w, steps) && Run(w, steps) == w.(store := Added(w.store, groupId, userId, appId, c))
  {
    hide WriteSteps;
    if c.findOk && groupId in w.store.groups {
      hide Added;
      AddRuns(w, p, groupId, userId, appId, c);
    } else {
      assert Run(w, []) == w;
    }
  }

  lemma {:induction false} RemoveIsItsSteps(w: World, p: nat, groupId: string, userId: string, c: MemberCalls)
    requires p !in w.running && WellKeyed(w.store)
    ensures var steps := MemberSteps(w, p, BeginRemove(p, groupId, userId), groupId, c);
            Legal(w, steps) && Run(w, steps) == w.(store := Removed(w.store, groupId, userId, c))
  {
    hide WriteSteps;
    if c.findOk && groupId in w.store.groups {
      hide Removed;
      RemoveRuns(w, p, groupId, userId, c);
    } else {
      assert Run(w, []) == w;
    }
  }

  // ----- Tokens -------------------------------------------------------------------------

  /** An issue checks the expiry, lists the members and signs, stopping at the first refusal. */
  function IssueSteps(p: nat, g: Group, userId: string, now: int, listing: seq<string>, c: TokenCalls): seq<Step> {
    var check, list, sign := Go(p, true, now, []), Go(p, c.listOk, 0, listing), Call1(p, c.signOk);
    if g.expiresAt.None? || g.expiresAt.value < now then [check] + []
    else if !c.listOk || userId !in listing then [check] + ([list] + [])
    else [check] + ([list] + ([sign] + []))
  }

  lemma {:induction false} IssueRuns(
      w: World, p: nat, g: Group, userId: string, now: int, listing: seq<string>, c: TokenCalls)
    requires p !in w.running && (c.listOk ==> ListsMembers(w.store, g.id, listing))
    ensures var start, steps := At(w, p, w.store, CheckExpiry(g, userId)), IssueSteps(p, g, userId, now, listing, c);
            && Legal(start, steps)
            && Run(start, steps) ==
               if g.expiresAt.None? || g.expiresAt.value < now || !c.listOk || userId !in listing || !c.signOk then w
               else w.(tokens := w.tokens + [Token(GroupClaims(userId, g.id, g.expiresAt.value), now)])
  {
    var s := w.store;
    var check, list, sign := Go(p, true, now, []), Go(p, c.listOk, 0, listing), Call1(p, c.signOk);
    hide ListsMembers;
    if g.expiresAt.None? || g.expiresAt.value < now {
      Conclude(w, p, s, CheckExpiry(g, userId), check, s);
    } else if !c.listOk || userId !in listing {
      Conclude(w, p, s, CheckMember(g, userId, now), list, s);
      Advance(w, p, s, CheckExpiry(g, userId), check, s, CheckMember(g, userId, now), [list] + []);
    } else {
      SignRuns(w, p, g, userId, now, c.signOk);
      Advance(w, p, s, CheckMember(g, userId, now), list, s, Sign(g, userId, now), [sign] + []);
      Advance(w, p, s, CheckExpiry(g, userId), check, s, CheckMember(g, userId, now), [list] + ([sign] + []));
    }
  }

  lemma {:induction false} SignRuns(w: World, p: nat, g: Group, userId: string, now: int, ok: bool)
    requires p !in w.running && g.expiresAt.Some?
    ensures var here := At(w, p, w.store, Sign(g, userId, now));
            && Legal(here, [Call1(p, ok)] + [])
            && Run(here, [Call1(p, ok)] + []) ==
               if ok then w.(tokens := w.tokens + [Token(GroupClaims(userId, g.id, g.expiresAt.value), now)]) else w
  {
    var here := At(w, p, w.store, Sign(g, userId, now));
    assert here.running - {p} == w.running;
    RunOf(here, Call1(p, ok), []);
  }

  lemma {:induction false} IssueFoundRuns(
      w: World, p: nat, groupId: string, userId: string, now: int, listing: seq<string>, c: TokenCalls)
    requires p !in w.running && c.findOk && groupId in w.store.groups && w.store.groups[groupId].id == groupId
    requires w.store.groups[groupId].ephemeral && ListsMembers(w.store, groupId, listing)
    ensures var steps := [BeginIssue(p, groupId, userId)] + IssueSteps(p, w.store.groups[groupId], userId, now, listing, c);
            var r := TokenFor(w.store, groupId, userId, now, c);
            && Legal(w, steps)
            && Run(w, steps) == w.(tokens := if r.Success? then w.tokens + [Token(r.value, now)] else w.tokens)
  {
    var g := w.store.groups[groupId];
    assert userId in listing <==> (groupId, userId) in w.store.members;
    IssueRuns(w, p, g, userId, now, listing, c);
    hide ListsMembers, IssueSteps;
    RunOf(w, BeginIssue(p, groupId, userId), IssueSteps(p, g, userId, now, listing, c));
  }

  /** An issue for no group or a permanent one is refused before any further call. */
  function TokenSteps(
      w: World, p: nat, groupId: string, userId: string, now: int, listing: seq<string>, c: TokenCalls): seq<Step>
  {
    if !c.findOk || groupId !in w.store.groups || !w.store.groups[groupId].ephemeral then []
    else [BeginIssue(p, groupId, userId)] + IssueSteps(p, w.store.groups[groupId], userId, now, listing, c)
  }

  lemma {:induction false} IssueIsItsSteps(
      w: World, p: nat, groupId: string, userId: string, now: int, listing: seq<string>, c: TokenCalls)
    requires p !in w.running && WellKeyed(w.store) && ListsMembers(w.store, groupId, listing)
    ensures var steps := TokenSteps(w, p, groupId, userId, now, listing, c);
            var r := TokenFor(w.store, groupId, userId, now, c);
            && Legal(w, steps)
            && Run(w, steps) == w.(tokens := if r.Success? then w.tokens + [Token(r.value, now)] else w.tokens)
  {
    hide ListsMembers, IssueSteps;
    if c.findOk && groupId in w.store.groups && w.store.groups[groupId].ephemeral {
      IssueFoundRuns(w, p, groupId, userId, now, listing, c);
    } else {
      assert Run(w, []) == w;
    }
  }

  // ----- Sweeps -------------------------------------------------------------------------

  function TupleSteps(p: nat, users: seq<string>, ok: set<string>, k: nat, rest: seq<Step>): seq<Step>
    requires k <= |users|
    decreases |users| - k
  {
    if k == |users| then [Call1(p, true)] + rest
    else [Call1(p, users[k] in ok)] + TupleSteps(p, users, ok, k + 1, rest)
  }

  function GroupSteps(p: nat, c: DeleteCalls, rest: seq<Step>): seq<Step> {
    [Go(p, c.listing.Some?, 0, Users(c))] + TupleSteps(p, Users(c), c.ketoOk, 0, RowSteps(p, c, rest))
  }

  function RowSteps(p: nat, c: DeleteCalls, rest: seq<Step>): seq<Step> {
    [Call1(p, c.adminOk)] + ([Call1(p, c.deleteOk)] + if c.deleteOk then [Call1(p, true)] + rest else rest)
  }

  function SweepSteps(p: nat, calls: seq<DeleteCalls>, k: nat): seq<Step>
    requires k <= |calls|
    decreases |calls| - k
  {
    if k == |calls| then [Call1(p, true)] + [] else GroupSteps(p, calls[k], SweepSteps(p, calls, k + 1))
  }

  lemma {:induction false} TuplesRun(w: World, p: nat, s: Store, g: Group, users: seq<string>, ok: set<string>, k: nat,
                                     groups: seq<Group>, rest: seq<Step>)
    requires k <= |users|
    requires Legal(At(w, p, WithoutMemberTuples(s, g.id, users, ok, |users|), DeleteAdmin(g, groups)), rest)
    ensures var here := At(w, p, WithoutMemberTuples(s, g.id, users, ok, k), DeleteTuples(g, users[k..], groups));
            && Legal(here, TupleSteps(p, users, ok, k, rest))
            && Run(here, TupleSteps(p, users, ok, k, rest))
               == Run(At(w, p, WithoutMemberTuples(s, g.id, users, ok, |users|), DeleteAdmin(g, groups)), rest)
    decreases |users| - k
  {
    var s0 := WithoutMemberTuples(s, g.id, users, ok, k);
    if k == |users| {
      Advance(w, p, s0, DeleteTuples(g, users[k..], groups), Call1(p, true), s0, DeleteAdmin(g, groups), rest);
    } else {
      TuplesRun(w, p, s, g, users, ok, k + 1, groups, rest);
      assert users[k..][1..] == users[k + 1..];
      Advance(w, p, s0, DeleteTuples(g, users[k..], groups), Call1(p, users[k] in ok),
              WithoutMemberTuples(s, g.id, users, ok, k + 1), DeleteTuples(g, users[k + 1..], groups),
              TupleSteps(p, users, ok, k + 1, rest));
    }
  }

  lemma {:induction false} DeletedRowRuns(w: World, p: nat, s: Store, g: Group, groups: seq<Group>, rest: seq<Step>)
    requires var gone := Emit(DeleteRow(s, g.id), GroupDeleted(g.id, g.orgId, g.appId));
             Legal(At(w, p, gone, ListUsers(groups)), rest)
    ensures var gone := Emit(DeleteRow(s, g.id), GroupDeleted(g.id, g.orgId, g.appId));
            var here, steps := At(w, p, s, DeleteGroupRow(g, groups)), [Call1(p, true)] + ([Call1(p, true)] + rest);
            Legal(here, steps) && Run(here, steps) == Run(At(w, p, gone, ListUsers(groups)), rest)
  {
    var s3 := DeleteRow(s, g.id);
    var gone := Emit(s3, GroupDeleted(g.id, g.orgId, g.appId));
    Advance(w, p, s3, DeleteEvent(g, groups), Call1(p, true), gone, ListUsers(groups), rest);
    Advance(w, p, s, DeleteGroupRow(g, groups), Call1(p, true), s3, DeleteEvent(g, groups), [Call1(p, true)] + rest);
  }

  lemma {:induction false} AdminRuns(
      w: World, p: nat, s: Store, g: Group, ok: bool, groups: seq<Group>, rest: seq<Step>)
    requires var t := DeleteRelation(s, AdminTuple(g.id, g.createdBy), ok);
             Legal(At(w, p, t, DeleteGroupRow(g, groups)), rest)
    ensures var t := DeleteRelation(s, AdminTuple(g.id, g.createdBy), ok);
            var here := At(w, p, s, DeleteAdmin(g, groups));
            && Legal(here, [Call1(p, ok)] + rest)
            && Run(here, [Call1(p, ok)] + rest) == Run(At(w, p, t, DeleteGroupRow(g, groups)), rest)
  {
    var t := DeleteRelation(s, AdminTuple(g.id, g.createdBy), ok);
    Advance(w, p, s, DeleteAdmin(g, groups), Call1(p, ok), t, DeleteGroupRow(g, groups), rest);
  }

  lemma {:induction false} KeptRowRuns(w: World, p: nat, s: Store, g: Group, groups: seq<Group>, rest: seq<Step>)
    requires Legal(At(w, p, s, ListUsers(groups)), rest)
    ensures var here := At(w, p, s, DeleteGroupRow(g, groups));
            && Legal(here, [Call1(p, false)] + rest)
            && Run(here, [Call1(p, false)] + rest) == Run(At(w, p, s, ListUsers(groups)), rest)
  {
    Advance(w, p, s, DeleteGroupRow(g, groups), Call1(p, false), s, ListUsers(groups), rest);
  }

  lemma {:induction false} RowRuns(
      w: World, p: nat, s: Store, g: Group, c: DeleteCalls, groups: seq<Group>, rest: seq<Step>)
    requires Legal(At(w, p, GroupGone(s, g, c), ListUsers(groups)), rest)
    ensures var here := At(w, p, WithoutMemberTuples(s, g.id, Users(c), c.ketoOk, |Users(c)|), DeleteAdmin(g, groups));
            && Legal(here, RowSteps(p, c, rest))
            && Run(here, RowSteps(p, c, rest)) == Run(At(w, p, GroupGone(s, g, c), ListUsers(groups)), rest)
  {
    var s1 := WithoutMemberTuples(s, g.id, Users(c), c.ketoOk, |Users(c)|);
    var s2 := DeleteRelation(s1, AdminTuple(g.id, g.createdBy), c.adminOk);
    var tail := if c.deleteOk then [Call1(p, true)] + ([Call1(p, true)] + rest) else [Call1(p, false)] + rest;
    hide WithoutMemberTuples, At, Legal, Run, Users, DeleteRelation;
    if c.deleteOk {
      DeletedRowRuns(w, p, s2, g, groups, rest);
    } else {
      KeptRowRuns(w, p, s2, g, groups, rest);
    }
    AdminRuns(w, p, s1, g, c.adminOk, groups, tail);
  }

  lemma {:induction false} ListingRuns(
      w: World, p: nat, s: Store, g: Group, c: DeleteCalls, groups: seq<Group>, rest: seq<Step>)
    requires c.listing.Some? ==> ListsMembers(s, g.id, c.listing.value)
    requires Legal(At(w, p, s, DeleteTuples(g, Users(c), groups)), rest)
    ensures var here, step := At(w, p, s, ListUsers([g] + groups)), Go(p, c.listing.Some?, 0, Users(c));
            && Legal(here, [step] + rest)
            && Run(here, [step] + rest) == Run(At(w, p, s, DeleteTuples(g, Users(c), groups)), rest)
  {
    hide ListsMembers;
    assert ([g] + groups)[1..] == groups;
    Advance(w, p, s, ListUsers([g] + groups), Go(p, c.listing.Some?, 0, Users(c)), s,
            DeleteTuples(g, Users(c), groups), rest);
  }

  lemma {:induction false} GroupRuns(
      w: World, p: nat, s: Store, g: Group, c: DeleteCalls, groups: seq<Group>, rest: seq<Step>)
    requires c.listing.Some? ==> ListsMembers(s, g.id, c.listing.value)
    requires Legal(At(w, p, GroupGone(s, g, c), ListUsers(groups)), rest)
    ensures var here := At(w, p, s, ListUsers([g] + groups));
            && Legal(here, GroupSteps(p, c, rest))
            && Run(here, GroupSteps(p, c, rest)) == Run(At(w, p, GroupGone(s, g, c), ListUsers(groups)), rest)
  {
    hide ListsMembers, GroupGone, At, Legal, Run, RowSteps, TupleSteps, Users;
    RowRuns(w, p, s, g, c, groups, rest);
    TuplesRun(w, p, s, g, Users(c), c.ketoOk, 0, groups, RowSteps(p, c, rest));
    assert Users(c)[0..] == Users(c);
    ListingRuns(w, p, s, g, c, groups, TupleSteps(p, Users(c), c.ketoOk, 0, RowSteps(p, c, rest)));
  }

  /** Each group's members are listed as they are when its turn comes. */
  ghost predicate ListedInTurn(s: Store, groups: seq<Group>, calls: seq<DeleteCalls>)
    requires |groups| == |calls|
  {
    forall k :: 0 <= k < |groups| && calls[k].listing.Some? ==>
      ListsMembers(SweptTo(s, groups, calls, k), groups[k].id, calls[k].listing.value)
  }

  lemma {:induction false} SweepEnds(w: World, p: nat, s: Store)
    requires p !in w.running
    ensures var here := At(w, p, s, ListUsers([]));
            Legal(here, [Call1(p, true)] + []) && Run(here, [Call1(p, true)] + []) == w.(store := s)
  {
    Conclude(w, p, s, ListUsers([]), Call1(p, true), s);
  }

  lemma {:induction false} SweepRuns(w: World, p: nat, s: Store, groups: seq<Group>, calls: seq<DeleteCalls>, k: nat)
    requires p !in w.running && k <= |groups| == |calls| && ListedInTurn(s, groups, calls)
    ensures var here := At(w, p, SweptTo(s, groups, calls, k), ListUsers(groups[k..]));
            && Legal(here, SweepSteps(p, calls, k))
            && Run(here, SweepSteps(p, calls, k)) == w.(store := SweptTo(s, groups, calls, |groups|))
    decreases |groups| - k
  {
    hide GroupGone, GroupSteps, ListsMembers, At, Legal, Run;
    if k == |groups| {
      assert groups[k..] == [];
      SweepEnds(w, p, SweptTo(s, groups, calls, k));
    } else {
      SweepRuns(w, p, s, groups, calls, k + 1);
      assert groups[k..] == [groups[k]] + groups[k + 1..];
      GroupRuns(w, p, SweptTo(s, groups, calls, k), groups[k], calls[k], groups[k + 1..], SweepSteps(p, calls, k + 1));
    }
  }

  /** A whole sweep on its own is a run of the interleaved sweeper. */
  lemma {:induction false} SweepIsItsSteps(w: World, p: nat, now: int, groups: seq<Group>, calls: seq<DeleteCalls>)
    requires p !in w.running && ListsExpired(w.store, now, groups) && |groups| == |calls|
    requires ListedInTurn(w.store, groups, calls)
    ensures var steps := [BeginSweep(p, now, groups)] + SweepSteps(p, calls, 0);
            && Legal(w, steps)
            && Run(w, steps).store == SweptTo(w.store, groups, calls, |groups|)
            && Run(w, steps).running == w.running
  {
    var v := w.(listed := w.listed + (set g | g in groups :: (g.id, now)));
    SweepRuns(v, p, w.store, groups, calls, 0);
    assert groups[0..] == groups;
    RunOf(w, BeginSweep(p, now, groups), SweepSteps(p, calls, 0));
  }
}
