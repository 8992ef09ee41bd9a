/** Groups over two stores: Postgres rows, and Keto tuples written on a best-effort basis. The
    operations of the group service and the expiry sweeper, run one at a time. */
module Groups {
  import opened Constants
  import opened Wrappers

  datatype Group = Group(
    id: string, orgId: string, appId: string, name: string, description: string,
    ephemeral: bool, expiresAt: Option<int>, createdBy: string)

  datatype Tuple = Tuple(subject: string, relation: string, target: string)

  /** Events are publication attempts: a failed one is dropped. */
  datatype Event =
    | GroupCreated(group: Group)
    | MemberAdded(groupId: string, orgId: string, appId: string, userId: string)
    | MemberRemoved(groupId: string, orgId: string, appId: string, userId: string)
    | GroupDeleted(groupId: string, orgId: string, appId: string)

  /** `members` maps (group, user), the table's primary key, to the app. Nothing ties a membership
      row to a group row. */
  datatype Store = Store(
    groups: map<string, Group>, members: map<(string, string), string>, keto: set<Tuple>, events: seq<Event>)

  const EMPTY := Store(map[], map[], {}, [])

  datatype Error = InvalidInput(message: string) | GroupNotFound | NotAuthorized | StoreFailed | SignFailed

  datatype CreateCommand = CreateCommand(
    orgId: string, appId: string, createdBy: string, name: string, description: string,
    ephemeral: bool, expiresAt: Option<int>)

  /** How the calls made by one operation end. */
  datatype CreateCalls = CreateCalls(id: string, createOk: bool, ketoOk: bool)
  datatype MemberCalls = MemberCalls(findOk: bool, writeOk: bool, ketoOk: bool)
  datatype TokenCalls = TokenCalls(findOk: bool, listOk: bool, signOk: bool)

  /** `listing` is the member list, `None` when reading it fails; `ketoOk` the users whose tuple
      deletion succeeds. */
  datatype DeleteCalls = DeleteCalls(listing: Option<seq<string>>, ketoOk: set<string>, adminOk: bool, deleteOk: bool)

  // ----- Specification: the single calls ------------------------------------------------

  function Object(groupId: string): string {
    "Group:" + groupId
  }

  function MemberTuple(groupId: string, userId: string): Tuple {
    Tuple(userId, "member", Object(groupId))
  }

  function AdminTuple(groupId: string, userId: string): Tuple {
    Tuple(userId, "admin", Object(groupId))
  }

  function WriteRelation(s: Store, t: Tuple, ok: bool): Store {
    if ok then s.(keto := s.keto + {t}) else s
  }

  function DeleteRelation(s: Store, t: Tuple, ok: bool): Store {
    if ok then s.(keto := s.keto - {t}) else s
  }

  /** `ON CONFLICT DO NOTHING`. */
  function InsertMember(s: Store, groupId: string, userId: string, appId: string): Store {
    if (groupId, userId) in s.members then s else s.(members := s.members[(groupId, userId) := appId])
  }

  function DeleteMember(s: Store, groupId: string, userId: string): Store {
    s.(members := s.members - {(groupId, userId)})
  }

  function DeleteRow(s: Store, groupId: string): Store {
    s.(groups := s.groups - {groupId})
  }

  function Emit(s: Store, e: Event): Store {
    s.(events := s.events + [e])
  }

  /** A listing of a group's members, in any order. */
  predicate ListsMembers(s: Store, groupId: string, users: seq<string>) {
    && (forall i :: 0 <= i < |users| ==> (groupId, users[i]) in s.members)
    && (forall i, j :: 0 <= i < j < |users| ==> users[i] != users[j])
    && (forall k :: k in s.members && k.0 == groupId ==> k.1 in users)
  }

  predicate Expired(g: Group, now: int) {
    g.ephemeral && g.expiresAt.Some? && g.expiresAt.value < now
  }

  /** A listing of the expired groups, in any order. */
  predicate ListsExpired(s: Store, now: int, groups: seq<Group>) {
    && (forall i :: 0 <= i < |groups| ==>
          groups[i].id in s.groups && s.groups[groups[i].id] == groups[i] && Expired(groups[i], now))
    && (forall i, j :: 0 <= i < j < |groups| ==> groups[i].id != groups[j].id)
    && (forall id :: id in s.groups && Expired(s.groups[id], now) ==> s.groups[id] in groups)
  }

  /** Rows are stored under their own id. */
  predicate WellKeyed(s: Store) {
    forall id :: id in s.groups ==> s.groups[id].id == id
  }

  // ----- Specification: the operations --------------------------------------------------

  function NewGroup(cmd: CreateCommand, id: string): Result<Group, Error> {
    if cmd.orgId == NIL_ID then Failure(InvalidInput("orgID must not be nil"))
    else if cmd.appId == NIL_ID then Failure(InvalidInput("appID must not be nil"))
    else if cmd.createdBy == NIL_ID then Failure(InvalidInput("createdBy must not be nil"))
    else if cmd.name == "" then Failure(InvalidInput("group name must not be empty"))
    else if cmd.ephemeral && cmd.expiresAt.None? then Failure(InvalidInput("ephemeral groups must have an expires_at"))
    else Success(Group(id, cmd.orgId, cmd.appId, cmd.name, cmd.description, cmd.ephemeral, cmd.expiresAt, cmd.createdBy))
  }

  function Created(s: Store, cmd: CreateCommand, c: CreateCalls): Store {
    if NewGroup(cmd, c.id).Failure? || !c.createOk then s
    else
      var g := NewGroup(cmd, c.id).value;
      var s1 := s.(groups := s.groups[g.id := g]);
      var s2 := if g.ephemeral then s1 else WriteRelation(s1, AdminTuple(g.id, cmd.createdBy), c.ketoOk);
      Emit(s2, GroupCreated(g))
  }

  /** The calls an add or a remove gets past: the group is found and the row is written. */
  predicate Persists(s: Store, groupId: string, c: MemberCalls) {
    c.findOk && groupId in s.groups && c.writeOk
  }

  function Added(s: Store, groupId: string, userId: string, appId: string, c: MemberCalls): Store {
    if !Persists(s, groupId, c) then s
    else
      var g := s.groups[groupId];
      var s1 := InsertMember(s, groupId, userId, appId);
      var s2 := if g.ephemeral then s1 else WriteRelation(s1, MemberTuple(groupId, userId), c.ketoOk);
      Emit(s2, MemberAdded(groupId, g.orgId, appId, userId))
  }

  function Removed(s: Store, groupId: string, userId: string, c: MemberCalls): Store {
    if !Persists(s, groupId, c) then s
    else
      var g := s.groups[groupId];
      var s1 := DeleteMember(s, groupId, userId);
      var s2 := if g.ephemeral then s1 else DeleteRelation(s1, MemberTuple(groupId, userId), c.ketoOk);
      Emit(s2, MemberRemoved(groupId, g.orgId, g.appId, userId))
  }

  function MemberError(s: Store, groupId: string, c: MemberCalls): Result<(), Error> {
    if !c.findOk then Failure(StoreFailed)
    else if groupId !in s.groups then Failure(GroupNotFound)
    else if !c.writeOk then Failure(StoreFailed)
    else Success(())
  }

  datatype Claims = Claims(sub: string, channel: string, exp: int, groupId: string, role: string)

  function TokenFor(s: Store, groupId: string, userId: string, now: int, c: TokenCalls): Result<Claims, Error> {
    if !c.findOk then Failure(StoreFailed)
    else if groupId !in s.groups then Failure(GroupNotFound)
    else
      var g := s.groups[groupId];
      if !g.ephemeral then Failure(InvalidInput("subscription tokens are only for ephemeral groups"))
      else if g.expiresAt.None? || g.expiresAt.value < now then Failure(GroupNotFound)
      else if !c.listOk then Failure(StoreFailed)
      else if (groupId, userId) !in s.members then Failure(NotAuthorized)
      else if !c.signOk then Failure(SignFailed)
      else Success(GroupClaims(userId, groupId, g.expiresAt.value))
  }

  /** `exp` is in whole seconds, rounded down. */
  function GroupClaims(userId: string, groupId: string, expiresAt: int): Claims {
    Claims(userId, "ephemeral-group:" + groupId, expiresAt / SECOND, groupId, "member")
  }

  /** Tuple deletions for the first `k` listed members. */
  function WithoutMemberTuples(s: Store, groupId: string, users: seq<string>, ok: set<string>, k: nat): Store
    requires k <= |users|
  {
    if k == 0 then s
    else
      DeleteRelation(WithoutMemberTuples(s, groupId, users, ok, k - 1), MemberTuple(groupId, users[k - 1]), users[k - 1] in ok)
  }

  function Users(c: DeleteCalls): seq<string> {
    if c.listing.Some? then c.listing.value else []
  }

  function GroupGone(s: Store, g: Group, c: DeleteCalls): Store {
    var s1 := WithoutMemberTuples(s, g.id, Users(c), c.ketoOk, |Users(c)|);
    var s2 := DeleteRelation(s1, AdminTuple(g.id, g.createdBy), c.adminOk);
    if !c.deleteOk then s2
    else Emit(DeleteRow(s2, g.id), GroupDeleted(g.id, g.orgId, g.appId))
  }

  function SweptTo(s: Store, groups: seq<Group>, calls: seq<DeleteCalls>, k: nat): Store
    requires k <= |groups| == |calls|
  {
    if k == 0 then s else GroupGone(SweptTo(s, groups, calls, k - 1), groups[k - 1], calls[k - 1])
  }

  // ----- The service and the sweeper ----------------------------------------------------

  class GroupService {
    var groups: map<string, Group>
    var members: map<(string, string), string>
    var keto: set<Tuple>
    var events: seq<Event>

    constructor ()
      ensures Contents() == EMPTY
    {
      groups, members, keto, events := map[], map[], {}, [];
    }

    ghost function Contents(): Store
      reads this
    {
      Store(groups, members, keto, events)
    }

    method CreateGroup(cmd: CreateCommand, c: CreateCalls) returns (r: Result<Group, Error>)
      modifies this
      ensures Contents() == Created(old(Contents()), cmd, c)
      ensures r == if NewGroup(cmd, c.id).Success? && !c.createOk then Failure(StoreFailed) else NewGroup(cmd, c.id)
    {
      r := NewGroup(cmd, c.id);
      if r.Failure? {
        return;
      }
      var g := r.value;
      if !c.createOk {
        return Failure(StoreFailed);
      }
      groups := groups[g.id := g];
      if !g.ephemeral {
        if c.ketoOk {
          keto := keto + {AdminTuple(g.id, cmd.createdBy)};
        }
      }
      events := events + [GroupCreated(g)];
    }

    method AddGroupMember(groupId: string, userId: string, appId: string, c: MemberCalls) returns (r: Result<(), Error>)
      modifies this
      ensures Contents() == Added(old(Contents()), groupId, userId, appId, c)
      ensures r == MemberError(old(Contents()), groupId, c)
    {
      if !c.findOk {
        return Failure(StoreFailed);
      }
      if groupId !in groups {
        return Failure(GroupNotFound);
      }
      var g := groups[groupId];
      if !c.writeOk {
        return Failure(StoreFailed);
      }
      if (groupId, userId) !in members {
        members := members[(groupId, userId) := appId];
      }
      if !g.ephemeral {
        if c.ketoOk {
          keto := keto + {MemberTuple(groupId, userId)};
        }
      }
      events := events + [MemberAdded(groupId, g.orgId, appId, userId)];
      return Success(());
    }

    method RemoveGroupMember(groupId: string, userId: string, c: MemberCalls) returns (r: Result<(), Error>)
      modifies this
      ensures Contents() == Removed(old(Contents()), groupId, userId, c)
      ensures r == MemberError(old(Contents()), groupId, c)
    {
      if !c.findOk {
        return Failure(StoreFailed);
      }
      if groupId !in groups {
        return Failure(GroupNotFound);
      }
      var g := groups[groupId];
      if !c.writeOk {
        return Failure(StoreFailed);
      }
      members := members - {(groupId, userId)};
      if !g.ephemeral {
        if c.ketoOk {
          keto := keto - {MemberTuple(groupId, userId)};
        }
      }
      events := events + [MemberRemoved(groupId, g.orgId, g.appId, userId)];
      return Success(());
    }

    /** `listing` is what reading the members returns. */
    method IssueSubscriptionToken(groupId: string, userId: string, now: int, listing: seq<string>, c: TokenCalls)
      returns (r: Result<Claims, Error>)
      requires ListsMembers(Contents(), groupId, listing)
      ensures r == TokenFor(Contents(), groupId, userId, now, c)
    {
      if !c.findOk {
        return Failure(StoreFailed);
      }
      if groupId !in groups {
        return Failure(GroupNotFound);
      }
      var g := groups[groupId];
      if !g.ephemeral {
        return Failure(InvalidInput("subscription tokens are only for ephemeral groups"));
      }
      if g.expiresAt.None? || g.expiresAt.value < now {
        return Failure(GroupNotFound);
      }
      if !c.listOk {
        return Failure(StoreFailed);
      }
      var isMember := false;
      var i := 0;
      while i < |listing|
        invariant 0 <= i <= |listing|
        invariant isMember <==> exists j :: 0 <= j < i && listing[j] == userId
      {
        if listing[i] == userId {
          isMember := true;
          break;
        }
        i := i + 1;
      }
      assert isMember <==> (groupId, userId) in members;
      if !isMember {
        return Failure(NotAuthorized);
      }
      if !c.signOk {
        return Failure(SignFailed);
      }
      return Success(Claims(userId, "ephemeral-group:" + groupId, g.expiresAt.value / SECOND, groupId, "member"));
    }

    /** `expired` is what listing the expired groups returned, `None` when it failed. */
    method Sweep(expired: Option<seq<Group>>, calls: seq<DeleteCalls>)
      requires expired.Some? ==> |calls| == |expired.value|
      modifies this
      ensures Contents() == if expired.None? then old(Contents())
                            else SweptTo(old(Contents()), expired.value, calls, |expired.value|)
    {
      if expired.None? {
        return;
      }
      for k := 0 to |expired.value|
        invariant Contents() == SweptTo(old(Contents()), expired.value, calls, k)
      {
        DeleteGroup(expired.value[k], calls[k]);
      }
    }

    method DeleteGroup(g: Group, c: DeleteCalls)
      modifies this
      ensures Contents() == GroupGone(old(Contents()), g, c)
    {
      var users := if c.listing.Some? then c.listing.value else [];
      for k := 0 to |users|
        invariant Contents() == WithoutMemberTuples(old(Contents()), g.id, users, c.ketoOk, k)
      {
        if users[k] in c.ketoOk {
          keto := keto - {MemberTuple(g.id, users[k])};
        }
      }
      if c.adminOk {
        keto := keto - {AdminTuple(g.id, g.createdBy)};
      }
      if !c.deleteOk {
        return;
      }
      groups := groups - {g.id};
      events := events + [GroupDeleted(g.id, g.orgId, g.appId)];
    }
  }

  // ----- The sweep ----------------------------------------------------------------------

  /** The member tuples removed are those of the listed users whose deletion succeeded. */
  lemma {:induction false} TupleDeletionsExactly(s: Store, groupId: string, users: seq<string>, ok: set<string>, k: nat)
    requires k <= |users|
    ensures var t := WithoutMemberTuples(s, groupId, users, ok, k);
            && t == s.(keto := t.keto)
            && forall x :: x in t.keto <==>
                 x in s.keto && forall i :: 0 <= i < k && users[i] in ok ==> x != MemberTuple(groupId, users[i])
  {
    if k > 0 {
      TupleDeletionsExactly(s, groupId, users, ok, k - 1);
    }
  }

  /** The deletion events of the groups whose row deletion succeeded, in order. */
  function Deletions(groups: seq<Group>, calls: seq<DeleteCalls>, k: nat): seq<Event>
    requires k <= |groups| == |calls|
  {
    if k == 0 then []
    else
      Deletions(groups, calls, k - 1)
      + (if calls[k - 1].deleteOk
         then [GroupDeleted(groups[k - 1].id, groups[k - 1].orgId, groups[k - 1].appId)]
         else [])
  }

  lemma {:induction false} SweptRows(s: Store, groups: seq<Group>, calls: seq<DeleteCalls>, k: nat)
    requires k <= |groups| == |calls|
    ensures var t := SweptTo(s, groups, calls, k);
            && t.groups == s.groups - (set i | 0 <= i < k && calls[i].deleteOk :: groups[i].id)
            && t.members == s.members
            && t.keto <= s.keto
            && t.events == s.events + Deletions(groups, calls, k)
  {
    if k > 0 {
      SweptRows(s, groups, calls, k - 1);
      var before, g, c := SweptTo(s, groups, calls, k - 1), groups[k - 1], calls[k - 1];
      TupleDeletionsExactly(before, g.id, Users(c), c.ketoOk, |Users(c)|);
      var gone := set i | 0 <= i < k && calls[i].deleteOk :: groups[i].id;
      var goneBefore := set i | 0 <= i < k - 1 && calls[i].deleteOk :: groups[i].id;
      assert gone == goneBefore + (if c.deleteOk then {g.id} else {});
    }
  }

  /** How many of the events announce the deletion of group `id`. */
  function Announcements(events: seq<Event>, id: string): nat {
    if events == [] then 0
    else
      var e := events[|events| - 1];
      Announcements(events[..|events| - 1], id) + (if e.GroupDeleted? && e.groupId == id then 1 else 0)
  }

  ghost predicate DeletedBy(groups: seq<Group>, calls: seq<DeleteCalls>, k: nat, id: string)
    requires k <= |groups| == |calls|
  {
    exists i :: 0 <= i < k && groups[i].id == id && calls[i].deleteOk
  }

  lemma {:induction false} AnnouncementsAppend(events: seq<Event>, e: Event, id: string)
    ensures Announcements(events + [e], id) == Announcements(events, id) + (if e.GroupDeleted? && e.groupId == id then 1 else 0)
  {
    assert (events + [e])[..|events|] == events;
  }

  lemma {:induction false} OneAnnouncementEach(groups: seq<Group>, calls: seq<DeleteCalls>, k: nat, id: string)
    requires k <= |groups| == |calls|
    requires forall i, j :: 0 <= i < j < |groups| ==> groups[i].id != groups[j].id
    ensures Announcements(Deletions(groups, calls, k), id) == if DeletedBy(groups, calls, k, id) then 1 else 0
  {
    if k > 0 {
      OneAnnouncementEach(groups, calls, k - 1, id);
      var g, before := groups[k - 1], Deletions(groups, calls, k - 1);
      assert DeletedBy(groups, calls, k, id) <==>
             DeletedBy(groups, calls, k - 1, id) || (g.id == id && calls[k - 1].deleteOk);
      if calls[k - 1].deleteOk {
        assert g.id == id ==> !DeletedBy(groups, calls, k - 1, id);
        AnnouncementsAppend(before, GroupDeleted(g.id, g.orgId, g.appId), id);
      } else {
        assert Deletions(groups, calls, k) == before;
      }
      hide DeletedBy, Announcements;
    }
  }

  lemma {:induction false} DeletionsAreOfTheirGroups(groups: seq<Group>, calls: seq<DeleteCalls>, k: nat, e: Event)
    requires k <= |groups| == |calls| && e in Deletions(groups, calls, k)
    ensures exists i :: 0 <= i < k && e == GroupDeleted(groups[i].id, groups[i].orgId, groups[i].appId)
  {
    if k > 0 && e in Deletions(groups, calls, k - 1) {
      DeletionsAreOfTheirGroups(groups, calls, k - 1, e);
    }
  }

  /** A sweep at `now` deletes exactly the ephemeral groups expired before `now` whose deletion
      succeeds, skips past the failures, and leaves every membership row in place. */
  lemma {:induction false} SweepDeletesExactlyExpired(
      s: Store, now: int, groups: seq<Group>, calls: seq<DeleteCalls>, id: string)
    requires WellKeyed(s) && ListsExpired(s, now, groups) && |calls| == |groups| && id in s.groups
    ensures var t := SweptTo(s, groups, calls, |groups|);
            && (id !in t.groups <==>
                  && s.groups[id].ephemeral && s.groups[id].expiresAt.Some? && s.groups[id].expiresAt.value < now
                  && DeletedBy(groups, calls, |groups|, id))
            && (id in t.groups ==> t.groups[id] == s.groups[id])
            && t.members == s.members
  {
    SweptRows(s, groups, calls, |groups|);
  }

  /** A sweep attempts exactly one event for each group it deletes, with that group's organisation
      and app, and none for any other group. */
  lemma {:induction false} SweepAnnouncesExactlyItsDeletions(
      s: Store, now: int, groups: seq<Group>, calls: seq<DeleteCalls>, id: string)
    requires WellKeyed(s) && ListsExpired(s, now, groups) && |calls| == |groups|
    ensures var t := SweptTo(s, groups, calls, |groups|);
            && s.events <= t.events
            && Announcements(t.events[|s.events|..], id) == (if id in s.groups && id !in t.groups then 1 else 0)
            && forall e :: e in t.events[|s.events|..] ==>
                 e.GroupDeleted? && e.groupId in s.groups
                 && e.orgId == s.groups[e.groupId].orgId && e.appId == s.groups[e.groupId].appId
  {
    SweptRows(s, groups, calls, |groups|);
    OneAnnouncementEach(groups, calls, |groups|, id);
    var t := SweptTo(s, groups, calls, |groups|);
    assert t.events[|s.events|..] == Deletions(groups, calls, |groups|);
    assert id in s.groups && id !in t.groups <==> DeletedBy(groups, calls, |groups|, id);
    hide SweptTo, Deletions, Announcements;
    forall e | e in t.events[|s.events|..]
      ensures e.GroupDeleted? && e.groupId in s.groups
              && e.orgId == s.groups[e.groupId].orgId && e.appId == s.groups[e.groupId].appId
    {
      DeletionsAreOfTheirGroups(groups, calls, |groups|, e);
    }
  }

  /** A group that a sweep fails to delete is on the list of the next sweep, if nothing comes between,
      and one it deletes is not; a permanent one is on none, whatever its expiry. */
  lemma {:induction false} FailedDeletionIsRetried(
      s: Store, now: int, groups: seq<Group>, calls: seq<DeleteCalls>, i: nat, later: int, next: seq<Group>)
    requires WellKeyed(s) && ListsExpired(s, now, groups) && |calls| == |groups| && i < |groups|
    requires now <= later && ListsExpired(SweptTo(s, groups, calls, |groups|), later, next)
    ensures groups[i] in next <==> !calls[i].deleteOk
    ensures forall g :: g in next ==> g.ephemeral
  {
    SweptRows(s, groups, calls, |groups|);
    hide SweptTo, Deletions;
    var t := SweptTo(s, groups, calls, |groups|);
    if !calls[i].deleteOk {
      assert forall j :: 0 <= j < |groups| && calls[j].deleteOk ==> groups[j].id != groups[i].id;
      assert groups[i].id in t.groups && t.groups[groups[i].id] == groups[i];
    } else {
      assert groups[i].id !in t.groups;
    }
  }

  /** The repository's `Delete` is documented to remove a group and its members. It removes the
      row only: no membership of the group is left exactly when there was none before. */
  lemma {:induction false} MembershipsOutliveTheGroup(s: Store, g: Group, c: DeleteCalls)
    requires g.id in s.groups && c.deleteOk
    ensures g.id !in GroupGone(s, g, c).groups
    ensures (forall u :: (g.id, u) !in GroupGone(s, g, c).members) <==> (forall u :: (g.id, u) !in s.members)
  {
    TupleDeletionsExactly(s, g.id, Users(c), c.ketoOk, |Users(c)|);
  }

  // ----- Tokens -------------------------------------------------------------------------

  /** At every instant an ephemeral group with an expiry is either sweepable or token-issuable to its
      members, never both and never neither: sweepable strictly after its expiry. */
  lemma {:induction false} SweepableOrIssuable(s: Store, groupId: string, userId: string, now: int, c: TokenCalls)
    requires groupId in s.groups && s.groups[groupId].ephemeral && s.groups[groupId].expiresAt.Some?
    requires (groupId, userId) in s.members && c == TokenCalls(true, true, true)
    ensures TokenFor(s, groupId, userId, now, c).Success? <==> !Expired(s.groups[groupId], now)
    ensures Expired(s.groups[groupId], now) <==> now > s.groups[groupId].expiresAt.value
  {
  }

  /** A group sweepable at `t` is refused a token at every later time, in any later store that
      still has its row or has lost it. */
  lemma {:induction false} SweepableGetsNoToken(
      s: Store, groupId: string, t: int, later: Store, userId: string, now: int, c: TokenCalls)
    requires groupId in s.groups && Expired(s.groups[groupId], t) && t <= now
    requires groupId in later.groups ==> later.groups[groupId] == s.groups[groupId]
    ensures TokenFor(later, groupId, userId, now, c).Failure?
  {
  }

  /** A token is issued only to a member of an ephemeral group that has not expired, for that
      group's channel, and it expires no later than the group and less than a second earlier. */
  lemma {:induction false} TokenNeverOutlivesGroup(s: Store, groupId: string, userId: string, now: int, c: TokenCalls)
    requires TokenFor(s, groupId, userId, now, c).Success?
    ensures groupId in s.groups && s.groups[groupId].ephemeral && (groupId, userId) in s.members
    ensures s.groups[groupId].expiresAt.Some? && now <= s.groups[groupId].expiresAt.value
    ensures var exp := TokenFor(s, groupId, userId, now, c).value.exp * SECOND;
            exp <= s.groups[groupId].expiresAt.value < exp + SECOND
    ensures TokenFor(s, groupId, userId, now, c).value.channel == "ephemeral-group:" + groupId
  {
  }

  // ----- The subscribe proxy ------------------------------------------------------------

  predicate HasPrefix(s: string, prefix: string) {
    |prefix| <= |s| && s[..|prefix|] == prefix
  }

  /** `checkSubscription`; `checkOk` is whether Keto answers. */
  function CheckSubscription(keto: set<Tuple>, userId: string, channel: string, checkOk: bool): Result<bool, Error> {
    if HasPrefix(channel, "group:") then
      if checkOk then Success(Tuple(userId, "member", "Group:" + channel[6..]) in keto) else Failure(StoreFailed)
    else if HasPrefix(channel, "user:") then Success(userId == channel[5..])
    else Success(false)
  }

  /** The proxy lets a user onto a group channel exactly when Keto holds the member tuple, and onto
      no ephemeral-group channel at all: those are reached by token alone. */
  lemma {:induction false} ProxyDecides(keto: set<Tuple>, userId: string, groupId: string)
    ensures CheckSubscription(keto, userId, "group:" + groupId, true) == Success(MemberTuple(groupId, userId) in keto)
    ensures forall ok :: CheckSubscription(keto, userId, "ephemeral-group:" + groupId, ok) == Success(false)
  {
    assert ("group:" + groupId)[..6] == "group:" && ("group:" + groupId)[6..] == groupId;
    assert ("ephemeral-group:" + groupId)[..6] == "epheme" && "epheme"[0] != "group:"[0];
    assert ("ephemeral-group:" + groupId)[..5] == "ephem" && "ephem"[0] != "user:"[0];
  }

  /** Whom the proxy admits, over all channels: a user is let onto a channel if and only if it is
      their own personal channel or a group channel for which Keto holds their member tuple. */
  lemma {:induction false} ProxyAdmitsExactly(keto: set<Tuple>, userId: string, channel: string)
    ensures CheckSubscription(keto, userId, channel, true) == Success(true) <==>
            channel == "user:" + userId || exists id :: channel == "group:" + id && MemberTuple(id, userId) in keto
  {
    if HasPrefix(channel, "group:") {
      assert channel == "group:" + channel[6..] && channel[0] == 'g';
      ProxyDecides(keto, userId, channel[6..]);
      forall id | channel == "group:" + id ensures id == channel[6..] {
        assert ("group:" + id)[6..] == id;
      }
    } else {
      forall id ensures channel != "group:" + id {
        assert ("group:" + id)[..6] == "group:";
      }
      assert ("user:" + userId)[..5] == "user:" && ("user:" + userId)[5..] == userId;
      if HasPrefix(channel, "user:") {
        assert channel == "user:" + channel[5..];
      }
    }
  }
}
