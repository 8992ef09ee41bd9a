/** What each group operation accepts, leaves and announces, read off its arguments and the outcome of
    its calls; and which app a membership keeps over a run. */
module GroupCalls {
  import opened Constants
  import opened Wrappers
  import opened Groups
  import Drift = GroupDrift

  // ----- Creates ------------------------------------------------------------------------

  const NIL := "00000000-0000-0000-0000-000000000000"

  /** The commands a create accepts. */
  predicate Acceptable(cmd: CreateCommand) {
    && cmd.orgId != NIL && cmd.appId != NIL && cmd.createdBy != NIL && cmd.name != ""
    && (cmd.ephemeral ==> cmd.expiresAt.Some?)
  }

  /** A create stores a group if and only if its command is acceptable and the insert works. It stores
      the command as it came, under the fresh id; makes the creator an admin in Keto exactly when the
      group is permanent and that call works; announces the group; and touches nothing else. */
  lemma {:induction false} CreateExactly(s: Store, cmd: CreateCommand, c: CreateCalls)
    ensures NewGroup(cmd, c.id).Success? <==> Acceptable(cmd)
    ensures var t := Created(s, cmd, c);
            if Acceptable(cmd) && c.createOk then
              var g := Group(c.id, cmd.orgId, cmd.appId, cmd.name, cmd.description, cmd.ephemeral, cmd.expiresAt, cmd.createdBy);
              && t.groups == s.groups[c.id := g] && t.members == s.members
              && t.keto == (if !cmd.ephemeral && c.ketoOk then s.keto + {Tuple(cmd.createdBy, "admin", "Group:" + c.id)}
                            else s.keto)
              && t.events == s.events + [GroupCreated(g)]
            else t == s
  {
  }

  // ----- Adds and removes ---------------------------------------------------------------

  predicate GoesThrough(s: Store, groupId: string, c: MemberCalls) {
    c.findOk && groupId in s.groups && c.writeOk
  }

  /** An add succeeds if and only if its group is found and the insert works, whatever Keto does. It
      then leaves a row of the pair, of the app it had before if it had one; a member tuple exactly
      when the group is permanent and the Keto call works; and one announcement. */
  lemma {:induction false} AddExactly(s: Store, groupId: string, userId: string, appId: string, c: MemberCalls)
    ensures MemberError(s, groupId, c).Success? <==> GoesThrough(s, groupId, c)
    ensures MemberError(s, groupId, c) == Failure(GroupNotFound) <==> c.findOk && groupId !in s.groups
    ensures var t := Added(s, groupId, userId, appId, c);
            if GoesThrough(s, groupId, c) then
              && t.groups == s.groups && t.members.Keys == s.members.Keys + {(groupId, userId)}
              && (forall k :: k in s.members ==> t.members[k] == s.members[k])
              && ((groupId, userId) !in s.members ==> t.members[(groupId, userId)] == appId)
              && t.keto == (if !s.groups[groupId].ephemeral && c.ketoOk then s.keto + {Tuple(userId, "member", "Group:" + groupId)}
                            else s.keto)
              && t.events == s.events + [MemberAdded(groupId, s.groups[groupId].orgId, appId, userId)]
            else t == s
  {
  }

  /** The same of a remove: its row is gone, its tuple exactly when the group is permanent and the
      Keto call works, and the announcement carries the group's own organisation and app. */
  lemma {:induction false} RemoveExactly(s: Store, groupId: string, userId: string, c: MemberCalls)
    ensures var t := Removed(s, groupId, userId, c);
            if GoesThrough(s, groupId, c) then
              var g := s.groups[groupId];
              && t.groups == s.groups && t.members == s.members - {(groupId, userId)}
              && t.keto == (if !g.ephemeral && c.ketoOk then s.keto - {Tuple(userId, "member", "Group:" + groupId)} else s.keto)
              && t.events == s.events + [MemberRemoved(groupId, g.orgId, g.appId, userId)]
            else t == s
  {
  }

  /** The app a pair's membership has after a run: that of the first add since its last removal, adds
      and removes counting when they go through. */
  ghost function FirstApp(s: Store, ops: seq<Drift.Op>, groupId: string, userId: string): Option<string>
    requires Drift.Legal(s, ops)
    decreases |ops|
  {
    if ops == [] then
      if (groupId, userId) in s.members then Some(s.members[(groupId, userId)]) else None
    else
      var before, op := ops[..|ops| - 1], ops[|ops| - 1];
      var app := FirstApp(s, before, groupId, userId);
      match op
      case Add(g, u, a, c) =>
        if (g, u) == (groupId, userId) && GoesThrough(Drift.Run(s, before), g, c) && app.None? then Some(a) else app
      case Remove(g, u, c) =>
        if (g, u) == (groupId, userId) && GoesThrough(Drift.Run(s, before), g, c) then None else app
      case _ => app
  }

  /** In every serial run a repeated add does not move a member to another app. */
  lemma {:induction false} MembershipKeepsFirstApp(s: Store, ops: seq<Drift.Op>, groupId: string, userId: string)
    requires Drift.Legal(s, ops)
    ensures var t := Drift.Run(s, ops);
            FirstApp(s, ops, groupId, userId)
            == if (groupId, userId) in t.members then Some(t.members[(groupId, userId)]) else None
  {
    if ops != [] {
      var before, op := ops[..|ops| - 1], ops[|ops| - 1];
      MembershipKeepsFirstApp(s, before, groupId, userId);
      var r := Drift.Run(s, before);
      match op
      case Sweep(_, expired, calls) => SweptRows(r, expired, calls, |expired|);
      case Create(_, _) =>
      case Add(_, _, _, _) =>
      case Remove(_, _, _) =>
    }
  }

  // ----- Deletions ----------------------------------------------------------------------

  /** Deleting one group takes from Keto exactly the tuples of the listed members, and the creator's
      admin tuple, whose deletions work; and the row, with its announcement, exactly when that works. */
  lemma {:induction false} DeletionExactly(s: Store, g: Group, c: DeleteCalls, x: Tuple)
    ensures var t := GroupGone(s, g, c);
            && (x in t.keto <==>
                  && x in s.keto
                  && !(c.adminOk && x == Tuple(g.createdBy, "admin", "Group:" + g.id))
                  && !(c.listing.Some? && x.subject in c.listing.value && x.subject in c.ketoOk
                       && x == Tuple(x.subject, "member", "Group:" + g.id)))
            && t.members == s.members
            && t.groups == (if c.deleteOk then s.groups - {g.id} else s.groups)
            && t.events == (if c.deleteOk then s.events + [GroupDeleted(g.id, g.orgId, g.appId)] else s.events)
  {
    var users := Users(c);
    TupleDeletionsExactly(s, g.id, users, c.ketoOk, |users|);
    hide WithoutMemberTuples;
    if i :| 0 <= i < |users| && users[i] in c.ketoOk && x == MemberTuple(g.id, users[i]) {
      assert users[i] in users && x.subject == users[i];
    }
    if x.subject in users && x.subject in c.ketoOk {
      var i :| 0 <= i < |users| && users[i] == x.subject;
    }
  }

  // ----- Tokens -------------------------------------------------------------------------

  /** A token is issued if and only if every call works, the group is ephemeral and not past its
      expiry, and the user is a member; it is for that user and channel, as a member, to the second in
      which the group expires. */
  lemma {:induction false} TokenExactly(s: Store, groupId: string, userId: string, now: int, c: TokenCalls)
    ensures var r := TokenFor(s, groupId, userId, now, c);
            && (r.Success? <==>
                  && c == TokenCalls(true, true, true) && groupId in s.groups && s.groups[groupId].ephemeral
                  && s.groups[groupId].expiresAt.Some? && now <= s.groups[groupId].expiresAt.value
                  && (groupId, userId) in s.members)
            && (r.Success? ==>
                  r.value == Claims(userId, "ephemeral-group:" + groupId,
                                    s.groups[groupId].expiresAt.value / 1_000_000_000, groupId, "member"))
            && (r == Failure(NotAuthorized) ==> (groupId, userId) !in s.members)
            && (r == Failure(GroupNotFound) <==>
                  c.findOk && (groupId in s.groups ==>
                    s.groups[groupId].ephemeral && (s.groups[groupId].expiresAt.None? || s.groups[groupId].expiresAt.value < now)))
  {
  }
}
