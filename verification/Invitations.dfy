/** Organisation invitations: a token is looked up, the member row is added, and only then is the
    invitation marked accepted. First one accept at a time, then any number interleaved. */
module Invitations {
  import opened Constants
  import opened Wrappers

  const LIFETIME := 7 * 24 * 3600 * SECOND

  datatype Invitation = Invitation(
    id: string, orgId: string, email: string, role: string, token: string,
    expiresAt: int, acceptedAt: Option<int>, createdAt: int)

  datatype Member = Member(orgId: string, userId: string, role: string, joinedAt: int)

  /** Events are publication attempts: a failed one is dropped. */
  datatype Event =
    | MemberInvited(orgId: string, email: string, role: string, at: int)
    | MemberJoined(orgId: string, userId: string, role: string, at: int)

  /** What became of the two writes of an accept, in order. */
  datatype Entry =
    | Joined(token: string, member: Member)
    | Marked(token: string)
    | MarkFailed(token: string)

  type Invites = map<string, Invitation>
  type Members = map<(string, string), Member>

  /** `invitations` is keyed by its unique token, `members` by its primary key. */
  datatype State = State(invitations: Invites, members: Members, events: seq<Event>, trail: seq<Entry>)

  datatype Error = InvalidInput(message: string) | InviteNotFound | InviteExpired | AlreadyExists | TokenFailed | StoreFailed

  /** How the calls of one operation end; `id` and `token` are freshly generated. */
  datatype InviteCalls = InviteCalls(id: string, token: Option<string>, now: int, createOk: bool)
  datatype AcceptCalls = AcceptCalls(findOk: bool, checkedAt: int, joinedAt: int, addOk: bool, markOk: bool, markedAt: int)

  // ----- Specification ------------------------------------------------------------------

  predicate ValidRole(role: string) {
    role == "owner" || role == "admin" || role == "member"
  }

  /** The primary key on `id`, the unique key on `token` and the role check of the table. */
  predicate MayInsert(invitations: Invites, inv: Invitation) {
    inv.token !in invitations && ValidRole(inv.role) && forall t :: t in invitations ==> invitations[t].id != inv.id
  }

  function InviteError(s: State, orgId: string, email: string, role: string, c: InviteCalls): Option<Error> {
    if email == "" then Some(InvalidInput("email must not be empty"))
    else if !ValidRole(role) then Some(InvalidInput("invalid role"))
    else if c.token.None? then Some(TokenFailed)
    else if !c.createOk then Some(StoreFailed)
    else if !MayInsert(s.invitations, Fresh(orgId, email, role, c)) then Some(AlreadyExists)
    else None
  }

  function Fresh(orgId: string, email: string, role: string, c: InviteCalls): Invitation {
    Invitation(c.id, orgId, email, role, if c.token.Some? then c.token.value else "", c.now + LIFETIME, None, c.now)
  }

  function Invited(s: State, orgId: string, email: string, role: string, c: InviteCalls): State {
    if InviteError(s, orgId, email, role, c).Some? then s
    else
      var inv := Fresh(orgId, email, role, c);
      s.(invitations := s.invitations[inv.token := inv],
         events := s.events + [MemberInvited(orgId, email, role, c.now)])
  }

  /** Why a lookup at time `now` goes no further, if it does not. */
  function Refusal(invitations: Invites, token: string, now: int): Option<Error> {
    if token !in invitations then Some(InviteNotFound)
    else if invitations[token].acceptedAt.Some? then Some(AlreadyExists)
    else if now > invitations[token].expiresAt then Some(InviteExpired)
    else None
  }

  function Joiner(inv: Invitation, userId: string, at: int): Member {
    Member(inv.orgId, userId, inv.role, at)
  }

  /** The insert has no conflict clause, so a present row is an error. */
  predicate MayAdd(members: Members, m: Member) {
    (m.orgId, m.userId) !in members && ValidRole(m.role)
  }

  function AddMember(s: State, token: string, m: Member): State {
    s.(members := s.members[(m.orgId, m.userId) := m], trail := s.trail + [Joined(token, m)])
  }

  function WithMark(invitations: Invites, id: string, at: int): Invites {
    map t | t in invitations ::
      if invitations[t].id == id then invitations[t].(acceptedAt := Some(at)) else invitations[t]
  }

  function MarkAccepted(s: State, inv: Invitation, at: int): State {
    s.(invitations := WithMark(s.invitations, inv.id, at), trail := s.trail + [Marked(inv.token)])
  }

  function FailMark(s: State, inv: Invitation): State {
    s.(trail := s.trail + [MarkFailed(inv.token)])
  }

  function Announce(s: State, m: Member): State {
    s.(events := s.events + [MemberJoined(m.orgId, m.userId, m.role, m.joinedAt)])
  }

  function Accepted(s: State, token: string, userId: string, c: AcceptCalls): State {
    if !c.findOk || Refusal(s.invitations, token, c.checkedAt).Some? then s
    else
      var inv := s.invitations[token];
      var m := Joiner(inv, userId, c.joinedAt);
      if !c.addOk || !MayAdd(s.members, m) then s
      else
        var s1 := AddMember(s, token, m);
        if !c.markOk then FailMark(s1, inv) else Announce(MarkAccepted(s1, inv, c.markedAt), m)
  }

  /** A failed mark is an error to the caller although the member row is there. */
  function AcceptResult(s: State, token: string, userId: string, c: AcceptCalls): Result<Member, Error> {
    if !c.findOk then Failure(StoreFailed)
    else if Refusal(s.invitations, token, c.checkedAt).Some? then Failure(Refusal(s.invitations, token, c.checkedAt).value)
    else
      var m := Joiner(s.invitations[token], userId, c.joinedAt);
      if !c.addOk || !ValidRole(m.role) then Failure(StoreFailed)
      else if !MayAdd(s.members, m) then Failure(AlreadyExists)
      else if !c.markOk then Failure(StoreFailed)
      else Success(m)
  }

  // ----- The service --------------------------------------------------------------------

  class MemberService {
    var invitations: Invites
    var members: Members
    var events: seq<Event>
    ghost var trail: seq<Entry>

    constructor ()
      ensures Contents() == State(map[], map[], [], [])
    {
      invitations, members, events, trail := map[], map[], [], [];
    }

    ghost function Contents(): State
      reads this
    {
      State(invitations, members, events, trail)
    }

    method InviteMember(orgId: string, email: string, role: string, c: InviteCalls) returns (r: Result<Invitation, Error>)
      modifies this
      ensures Contents() == Invited(old(Contents()), orgId, email, role, c)
      ensures r == var e := InviteError(old(Contents()), orgId, email, role, c);
                   if e.Some? then Failure(e.value) else Success(Fresh(orgId, email, role, c))
    {
      if email == "" {
        return Failure(InvalidInput("email must not be empty"));
      }
      if !ValidRole(role) {
        return Failure(InvalidInput("invalid role"));
      }
      if c.token.None? {
        return Failure(TokenFailed);
      }
      var inv := Invitation(c.id, orgId, email, role, c.token.value, c.now + LIFETIME, None, c.now);
      if !c.createOk {
        return Failure(StoreFailed);
      }
      if !MayInsert(invitations, inv) {
        return Failure(AlreadyExists);
      }
      invitations := invitations[inv.token := inv];
      events := events + [MemberInvited(orgId, email, role, c.now)];
      return Success(inv);
    }

    method AcceptInvitation(token: string, userId: string, c: AcceptCalls) returns (r: Result<Member, Error>)
      modifies this
      ensures Contents() == Accepted(old(Contents()), token, userId, c)
      ensures r == AcceptResult(old(Contents()), token, userId, c)
    {
      if !c.findOk {
        return Failure(StoreFailed);
      }
      if token !in invitations {
        return Failure(InviteNotFound);
      }
      var inv := invitations[token];
      if inv.acceptedAt.Some? {
        return Failure(AlreadyExists);
      }
      if c.checkedAt > inv.expiresAt {
        return Failure(InviteExpired);
      }
      var m := Member(inv.orgId, userId, inv.role, c.joinedAt);
      if !c.addOk || !ValidRole(m.role) {
        return Failure(StoreFailed);
      }
      if (m.orgId, m.userId) in members {
        return Failure(AlreadyExists);
      }
      members := members[(m.orgId, m.userId) := m];
      trail := trail + [Joined(token, m)];
      if !c.markOk {
        trail := trail + [MarkFailed(inv.token)];
        return Failure(StoreFailed);
      }
      invitations := map t | t in invitations ::
        if invitations[t].id == inv.id then invitations[t].(acceptedAt := Some(c.markedAt)) else invitations[t];
      trail := trail + [Marked(inv.token)];
      events := events + [MemberJoined(inv.orgId, userId, inv.role, c.joinedAt)];
      return Success(m);
    }
  }

  /** Rows are stored under their own token, and ids are unique. */
  predicate Keyed(invitations: Invites) {
    && (forall t :: t in invitations ==> invitations[t].token == t && ValidRole(invitations[t].role))
    && (forall t, u :: t in invitations && u in invitations && invitations[t].id == invitations[u].id ==> t == u)
  }

  // ----- Interleaved accepts ------------------------------------------------------------

  /** An accept between its lookup and its insert holds the invitation as it was read; between its
      insert and its mark it holds the member too. */
  datatype Pc = Adding(inv: Invitation, userId: string) | Marking(inv: Invitation, member: Member)

  datatype World = World(state: State, running: map<nat, Pc>)

  /** `Elsewhere` is any change to the member table made by anything else. */
  datatype Step =
    | Invite(orgId: string, email: string, role: string, c: InviteCalls)
    | Elsewhere(members: Members)
    | Lookup(p: nat, token: string, userId: string, now: int)
    | Add(p: nat, ok: bool, now: int)
    | Mark(p: nat, ok: bool, now: int)

  predicate Enabled(w: World, step: Step) {
    match step
    case Lookup(p, _, _, _) => p !in w.running
    case Add(p, _, _) => p in w.running && w.running[p].Adding?
    case Mark(p, _, _) => p in w.running && w.running[p].Marking?
    case _ => true
  }

  function Apply(w: World, step: Step): World
    requires Enabled(w, step)
  {
    match step
    case Invite(orgId, email, role, c) => w.(state := Invited(w.state, orgId, email, role, c))
    case Elsewhere(members) => w.(state := w.state.(members := members))
    case Lookup(p, token, userId, now) =>
      if Refusal(w.state.invitations, token, now).Some? then w
      else w.(running := w.running[p := Adding(w.state.invitations[token], userId)])
    case Add(p, ok, now) =>
      var inv := w.running[p].inv;
      var m := Joiner(inv, w.running[p].userId, now);
      if !ok || !MayAdd(w.state.members, m) then w.(running := w.running - {p})
      else World(AddMember(w.state, inv.token, m), w.running[p := Marking(inv, m)])
    case Mark(p, ok, now) =>
      var inv := w.running[p].inv;
      World(if ok then Announce(MarkAccepted(w.state, inv, now), w.running[p].member) else FailMark(w.state, inv),
            w.running - {p})
  }

  ghost predicate Legal(w: World, steps: seq<Step>)
    decreases |steps|
  {
    steps == [] || (Enabled(w, steps[0]) && Legal(Apply(w, steps[0]), steps[1..]))
  }

  ghost function Run(w: World, steps: seq<Step>): World
    requires Legal(w, steps)
    decreases |steps|
  {
    if steps == [] then w else Run(Apply(w, steps[0]), steps[1..])
  }

  lemma {:induction false} RunOf(w: World, step: Step, rest: seq<Step>)
    requires Enabled(w, step) && Legal(Apply(w, step), rest)
    ensures Legal(w, [step] + rest) && Run(w, [step] + rest) == Run(Apply(w, step), rest)
  {
    assert ([step] + rest)[1..] == rest;
  }

  /** The steps a lone accept takes: none if its lookup fails, and it stops when it is refused or its
      insert fails. */
  function StepsOf(s: State, token: string, userId: string, c: AcceptCalls): seq<Step> {
    var lookup, add, mark :=
      Lookup(0, token, userId, c.checkedAt), Add(0, c.addOk, c.joinedAt), Mark(0, c.markOk, c.markedAt);
    if !c.findOk then []
    else if Refusal(s.invitations, token, c.checkedAt).Some? then [lookup] + []
    else if !c.addOk || !MayAdd(s.members, Joiner(s.invitations[token], userId, c.joinedAt)) then [lookup] + ([add] + [])
    else [lookup] + ([add] + ([mark] + []))
  }

  /** One accept on its own is a lookup, an insert and a mark of the interleaved system. */
  lemma {:induction false} AcceptIsThreeSteps(s: State, token: string, userId: string, c: AcceptCalls)
    requires Keyed(s.invitations)
    ensures Legal(World(s, map[]), StepsOf(s, token, userId, c))
    ensures Run(World(s, map[]), StepsOf(s, token, userId, c)) == World(Accepted(s, token, userId, c), map[])
  {
    var w := World(s, map[]);
    var lookup, add, mark :=
      Lookup(0, token, userId, c.checkedAt), Add(0, c.addOk, c.joinedAt), Mark(0, c.markOk, c.markedAt);
    if !c.findOk {
      assert Run(w, []) == w;
    } else if Refusal(s.invitations, token, c.checkedAt).Some? {
      RunOf(w, lookup, []);
    } else {
      var w1 := Apply(w, lookup);
      var w2 := Apply(w1, add);
      if 0 !in w2.running {
        assert w2.running == map[];
        RunOf(w1, add, []);
        RunOf(w, lookup, [add] + []);
      } else {
        assert Apply(w2, mark).running == map[];
        RunOf(w2, mark, []);
        RunOf(w1, add, [mark] + []);
        RunOf(w, lookup, [add] + ([mark] + []));
      }
    }
  }

  // ----- Counting -----------------------------------------------------------------------

  function Joins(trail: seq<Entry>, token: string): nat {
    if trail == [] then 0
    else Joins(trail[..|trail| - 1], token) + Tick(JoinsThrough(trail[|trail| - 1], token))
  }

  function Marks(trail: seq<Entry>, token: string): nat {
    if trail == [] then 0
    else Marks(trail[..|trail| - 1], token) + Tick(trail[|trail| - 1] == Marked(token))
  }

  function FailedMarks(trail: seq<Entry>, token: string): nat {
    if trail == [] then 0
    else FailedMarks(trail[..|trail| - 1], token) + Tick(trail[|trail| - 1] == MarkFailed(token))
  }

  function Tick(b: bool): nat {
    if b then 1 else 0
  }

  predicate JoinsThrough(e: Entry, token: string) {
    e.Joined? && e.token == token
  }

  lemma {:induction false} CountsSnoc(before: seq<Entry>, e: Entry, after: seq<Entry>, token: string)
    requires after == before + [e]
    ensures Joins(after, token) == Joins(before, token) + Tick(JoinsThrough(e, token))
    ensures Marks(after, token) == Marks(before, token) + Tick(e == Marked(token))
    ensures FailedMarks(after, token) == FailedMarks(before, token) + Tick(e == MarkFailed(token))
  {
    assert after[..|before|] == before;
  }

  // ----- One accept at a time -----------------------------------------------------------

  ghost predicate IsAccepted(s: State, token: string) {
    token in s.invitations && s.invitations[token].acceptedAt.Some?
  }

  /** Joins through a token are its failed marks, plus one once it is marked. */
  ghost predicate Tallied(s: State, token: string) {
    && Keyed(s.invitations)
    && Joins(s.trail, token) == FailedMarks(s.trail, token) + Tick(IsAccepted(s, token))
  }

  datatype Op =
    | InviteOp(orgId: string, email: string, role: string, c: InviteCalls)
    | AcceptOp(token: string, userId: string, calls: AcceptCalls)
    | ElsewhereOp(members: Members)

  function Performed(s: State, op: Op): State {
    match op
    case InviteOp(orgId, email, role, c) => Invited(s, orgId, email, role, c)
    case AcceptOp(token, userId, calls) => Accepted(s, token, userId, calls)
    case ElsewhereOp(members) => s.(members := members)
  }

  function Serial(s: State, ops: seq<Op>): State
    decreases |ops|
  {
    if ops == [] then s else Serial(Performed(s, ops[0]), ops[1..])
  }

  /** What an accept leaves behind: nothing, or a join followed by its mark or failed mark. */
  ghost predicate AcceptTrace(s: State, t: State, token: string, m: Member, ok: bool) {
    || (t.trail == s.trail && t.invitations == s.invitations)
    || (&& token in s.invitations && s.invitations[token].acceptedAt.None?
        && t.trail == s.trail + [Joined(token, m)] + [if ok then Marked(token) else MarkFailed(token)]
        && (ok ==> exists at :: t.invitations == s.invitations[token := s.invitations[token].(acceptedAt := Some(at))])
        && (!ok ==> t.invitations == s.invitations))
  }

  lemma {:induction false} AcceptLeavesTrace(s: State, token: string, userId: string, c: AcceptCalls)
    requires Keyed(s.invitations) && token in s.invitations
    ensures AcceptTrace(s, Accepted(s, token, userId, c), token, Joiner(s.invitations[token], userId, c.joinedAt), c.markOk)
  {
    MarkOnlyMarks(s.invitations, s.invitations[token], c.markedAt);
    hide Keyed, WithMark;
  }

  lemma {:induction false} AcceptKeepsKeys(s: State, token: string, userId: string, c: AcceptCalls)
    requires Keyed(s.invitations)
    ensures Keyed(Accepted(s, token, userId, c).invitations)
  {
    if token in s.invitations {
      MarkOnlyMarks(s.invitations, s.invitations[token], c.markedAt);
    }
    hide Keyed, WithMark;
  }

  lemma {:induction false} TraceTallies(s: State, t: State, used: string, m: Member, ok: bool, token: string)
    requires AcceptTrace(s, t, used, m, ok)
    requires Joins(s.trail, token) == FailedMarks(s.trail, token) + Tick(IsAccepted(s, token))
    ensures Joins(t.trail, token) == FailedMarks(t.trail, token) + Tick(IsAccepted(t, token))
  {
    hide Joins, FailedMarks, Marks;
    if t.trail != s.trail {
      var joined := s.trail + [Joined(used, m)];
      CountsSnoc(s.trail, Joined(used, m), joined, token);
      CountsSnoc(joined, if ok then Marked(used) else MarkFailed(used), t.trail, token);
    }
  }

  lemma {:induction false} AcceptTallies(s: State, used: string, userId: string, c: AcceptCalls, token: string)
    requires Tallied(s, token)
    ensures Tallied(Accepted(s, used, userId, c), token)
  {
    AcceptKeepsKeys(s, used, userId, c);
    if used in s.invitations {
      AcceptLeavesTrace(s, used, userId, c);
      hide Accepted, Joins, FailedMarks, Keyed, AcceptTrace;
      TraceTallies(s, Accepted(s, used, userId, c), used, Joiner(s.invitations[used], userId, c.joinedAt), c.markOk, token);
    }
  }

  /** An accept joins its user exactly when the token is live, the user is not yet a member and the
      calls before the mark succeed; it tells the caller so only if the mark succeeds too. */
  lemma {:induction false} ErrorsCanHideJoins(s: State, token: string, userId: string, c: AcceptCalls)
    requires Keyed(s.invitations)
    ensures var joined := Accepted(s, token, userId, c).trail != s.trail;
            && (joined <==> && c.findOk && Refusal(s.invitations, token, c.checkedAt).None? && c.addOk
                            && (s.invitations[token].orgId, userId) !in s.members)
            && (AcceptResult(s, token, userId, c).Success? <==> joined && c.markOk)
            && (joined ==> (s.invitations[token].orgId, userId) in Accepted(s, token, userId, c).members)
  {
    hide WithMark;
  }

  /** In every serial run, whatever else happens to the member table: the joins through one token
      number its failed marks, plus one exactly when it ends up accepted. */
  lemma {:induction false} SerialJoins(s: State, ops: seq<Op>, token: string)
    requires Tallied(s, token)
    ensures Tallied(Serial(s, ops), token)
    ensures Joins(Serial(s, ops).trail, token) <= 1 + FailedMarks(Serial(s, ops).trail, token)
    decreases |ops|
  {
    if ops != [] {
      if ops[0].AcceptOp? {
        AcceptTallies(s, ops[0].token, ops[0].userId, ops[0].calls, token);
      }
      SerialJoins(Performed(s, ops[0]), ops[1..], token);
    }
  }

  // ----- Interleaved --------------------------------------------------------------------

  ghost function Between(running: map<nat, Pc>, token: string): set<nat> {
    set p | p in running && running[p].Marking? && running[p].inv.token == token
  }

  ghost function Undecided(running: map<nat, Pc>, token: string): set<nat> {
    set p | p in running && running[p].Adding? && running[p].inv.token == token
  }

  /** `inv` is an earlier reading of the row under its token: only the mark can have changed. */
  ghost predicate ReadFrom(invitations: Invites, inv: Invitation) {
    inv.token in invitations && invitations[inv.token].(acceptedAt := None) == inv.(acceptedAt := None)
  }

  ghost predicate PcOk(invitations: Invites, pc: Pc) {
    && ReadFrom(invitations, pc.inv)
    && (pc.Marking? ==> pc.member.orgId == pc.inv.orgId && pc.member.role == pc.inv.role)
  }

  ghost predicate RunningOk(invitations: Invites, running: map<nat, Pc>) {
    forall p :: p in running ==> PcOk(invitations, running[p])
  }

  ghost predicate JoinOk(invitations: Invites, e: Entry) {
    e.Joined? ==>
      e.token in invitations && e.member.orgId == invitations[e.token].orgId && e.member.role == invitations[e.token].role
  }

  ghost predicate TrailOk(invitations: Invites, trail: seq<Entry>) {
    forall k :: 0 <= k < |trail| ==> JoinOk(invitations, trail[k])
  }

  ghost predicate Inv(w: World) {
    && Keyed(w.state.invitations)
    && RunningOk(w.state.invitations, w.running)
    && TrailOk(w.state.invitations, w.state.trail)
  }

  /** Joins through a token are its marks, its failed marks, and the accepts between the two. */
  ghost predicate Balanced(w: World, token: string) {
    Joins(w.state.trail, token)
    == Marks(w.state.trail, token) + FailedMarks(w.state.trail, token) + |Between(w.running, token)|
  }

  lemma {:induction false} MarkOnlyMarks(invitations: Invites, inv: Invitation, at: int)
    requires Keyed(invitations) && ReadFrom(invitations, inv)
    ensures Keyed(WithMark(invitations, inv.id, at))
    ensures WithMark(invitations, inv.id, at)
         == invitations[inv.token := invitations[inv.token].(acceptedAt := Some(at))]
  {
  }

  /** Neither a new invitation nor a mark unsettles what is known of the others. */
  ghost predicate Extends(after: Invites, before: Invites) {
    forall t :: t in before ==> t in after && after[t].(acceptedAt := None) == before[t].(acceptedAt := None)
  }

  lemma {:induction false} ExtensionKeeps(after: Invites, before: Invites, running: map<nat, Pc>, trail: seq<Entry>)
    requires Extends(after, before) && RunningOk(before, running) && TrailOk(before, trail)
    ensures RunningOk(after, running) && TrailOk(after, trail)
  {
    forall p | p in running ensures PcOk(after, running[p]) {
      assert PcOk(before, running[p]);
    }
    forall k | 0 <= k < |trail| ensures JoinOk(after, trail[k]) {
      assert JoinOk(before, trail[k]);
    }
  }

  lemma {:induction false} AddKeepsInv(w: World, p: nat, ok: bool, now: int)
    requires Inv(w) && Enabled(w, Add(p, ok, now))
    ensures Inv(Apply(w, Add(p, ok, now)))
  {
    assert PcOk(w.state.invitations, w.running[p]);
  }

  lemma {:induction false} MarkKeepsInv(w: World, p: nat, ok: bool, now: int)
    requires Inv(w) && Enabled(w, Mark(p, ok, now))
    ensures Inv(Apply(w, Mark(p, ok, now)))
  {
    var inv := w.running[p].inv;
    assert PcOk(w.state.invitations, w.running[p]);
    var after := Apply(w, Mark(p, ok, now)).state;
    if ok {
      MarkOnlyMarks(w.state.invitations, inv, now);
      assert Extends(after.invitations, w.state.invitations);
    }
    hide Keyed, WithMark, PcOk;
    ExtensionKeeps(after.invitations, w.state.invitations, w.running, w.state.trail);
  }

  lemma {:induction false} OtherStepKeepsInv(w: World, step: Step)
    requires Inv(w) && Enabled(w, step) && !step.Add? && !step.Mark?
    ensures Inv(Apply(w, step))
  {
    var after := Apply(w, step).state;
    assert Extends(after.invitations, w.state.invitations);
    ExtensionKeeps(after.invitations, w.state.invitations, w.running, w.state.trail);
  }

  lemma {:induction false} StepKeepsInv(w: World, step: Step)
    requires Inv(w) && Enabled(w, step)
    ensures Inv(Apply(w, step))
  {
    hide Inv, Apply;
    match step
    case Add(p, ok, now) => AddKeepsInv(w, p, ok, now);
    case Mark(p, ok, now) => MarkKeepsInv(w, p, ok, now);
    case _ => OtherStepKeepsInv(w, step);
  }

  lemma {:induction false} BetweenWithout(running: map<nat, Pc>, p: nat, token: string)
    requires p in running
    ensures |Between(running - {p}, token)| + Tick(p in Between(running, token)) == |Between(running, token)|
  {
    assert Between(running - {p}, token) == Between(running, token) - {p};
  }

  lemma {:induction false} BetweenWith(running: map<nat, Pc>, p: nat, pc: Pc, token: string)
    requires p in running && running[p].Adding? && pc.Marking?
    ensures |Between(running[p := pc], token)| == |Between(running, token)| + Tick(pc.inv.token == token)
  {
    assert p !in Between(running, token);
    if pc.inv.token == token {
      assert Between(running[p := pc], token) == Between(running, token) + {p};
    } else {
      assert Between(running[p := pc], token) == Between(running, token);
    }
  }

  lemma {:induction false} AddKeepsBalance(w: World, p: nat, ok: bool, now: int, token: string)
    requires Balanced(w, token) && Enabled(w, Add(p, ok, now))
    ensures Balanced(Apply(w, Add(p, ok, now)), token)
  {
    var inv := w.running[p].inv;
    var m := Joiner(inv, w.running[p].userId, now);
    var after := Apply(w, Add(p, ok, now));
    if p in after.running {
      BetweenWith(w.running, p, Marking(inv, m), token);
      CountsSnoc(w.state.trail, Joined(inv.token, m), after.state.trail, token);
    } else {
      BetweenWithout(w.running, p, token);
    }
    hide Joins, Marks, FailedMarks, Between, MayAdd;
  }

  lemma {:induction false} MarkKeepsBalance(w: World, p: nat, ok: bool, now: int, token: string)
    requires Balanced(w, token) && Enabled(w, Mark(p, ok, now))
    ensures Balanced(Apply(w, Mark(p, ok, now)), token)
  {
    var inv := w.running[p].inv;
    BetweenWithout(w.running, p, token);
    CountsSnoc(w.state.trail, if ok then Marked(inv.token) else MarkFailed(inv.token),
               Apply(w, Mark(p, ok, now)).state.trail, token);
    hide Joins, Marks, FailedMarks, Between, WithMark;
  }

  lemma {:induction false} StepKeepsBalance(w: World, step: Step, token: string)
    requires Balanced(w, token) && Enabled(w, step)
    ensures Balanced(Apply(w, step), token)
  {
    match step
    case Add(p, ok, now) => AddKeepsBalance(w, p, ok, now, token);
    case Mark(p, ok, now) => MarkKeepsBalance(w, p, ok, now, token);
    case _ => assert Between(Apply(w, step).running, token) == Between(w.running, token);
  }

  lemma {:induction false} RunKeepsInv(w: World, steps: seq<Step>, token: string)
    requires Inv(w) && Balanced(w, token) && Legal(w, steps)
    ensures Inv(Run(w, steps)) && Balanced(Run(w, steps), token)
    decreases |steps|
  {
    hide Inv, Balanced, Apply;
    if steps != [] {
      StepKeepsInv(w, steps[0]);
      StepKeepsBalance(w, steps[0], token);
      RunKeepsInv(Apply(w, steps[0]), steps[1..], token);
    }
  }

  /** In every interleaving the joins through a token are its marks, its failed marks and the
      accepts now between the two writes, and each has the invitation's organisation and role. */
  lemma {:induction false} InterleavedJoins(s: State, steps: seq<Step>, token: string)
    requires Keyed(s.invitations) && s.trail == [] && Legal(World(s, map[]), steps)
    ensures var w := Run(World(s, map[]), steps);
            Joins(w.state.trail, token)
            == Marks(w.state.trail, token) + FailedMarks(w.state.trail, token) + |Between(w.running, token)|
    ensures var w := Run(World(s, map[]), steps);
            forall e :: e in w.state.trail && e.Joined? && e.token == token ==>
              && token in w.state.invitations
              && e.member.orgId == w.state.invitations[token].orgId
              && e.member.role == w.state.invitations[token].role
  {
    assert Between(map[], token) == {};
    RunKeepsInv(World(s, map[]), steps, token);
  }

  // ----- After a mark -------------------------------------------------------------------

  lemma {:induction false} AcceptedStays(w: World, step: Step, token: string)
    requires Keyed(w.state.invitations) && Enabled(w, step) && IsAccepted(w.state, token)
    ensures IsAccepted(Apply(w, step).state, token)
  {
  }

  /** Accepts that may still join, on top of the joins so far. */
  ghost function Reach(w: World, token: string): nat {
    Joins(w.state.trail, token) + |Undecided(w.running, token)|
  }

  lemma {:induction false} UndecidedWithout(running: map<nat, Pc>, p: nat, token: string)
    requires p in running && running[p].Adding?
    ensures |Undecided(running - {p}, token)| + Tick(running[p].inv.token == token) == |Undecided(running, token)|
  {
    assert Undecided(running - {p}, token) == Undecided(running, token) - {p};
  }

  lemma {:induction false} LateAdd(w: World, p: nat, ok: bool, now: int, token: string)
    requires Enabled(w, Add(p, ok, now))
    ensures Reach(Apply(w, Add(p, ok, now)), token) <= Reach(w, token)
  {
    var inv := w.running[p].inv;
    var m := Joiner(inv, w.running[p].userId, now);
    UndecidedWithout(w.running, p, token);
    var after := Apply(w, Add(p, ok, now));
    if p in after.running {
      assert Undecided(after.running, token) == Undecided(w.running - {p}, token);
      CountsSnoc(w.state.trail, Joined(inv.token, m), after.state.trail, token);
    }
    hide Joins, Undecided, MayAdd;
  }

  lemma {:induction false} LateMark(w: World, p: nat, ok: bool, now: int, token: string)
    requires Enabled(w, Mark(p, ok, now))
    ensures Reach(Apply(w, Mark(p, ok, now)), token) <= Reach(w, token)
  {
    var inv := w.running[p].inv;
    var after := Apply(w, Mark(p, ok, now));
    assert Undecided(after.running, token) == Undecided(w.running, token);
    CountsSnoc(w.state.trail, if ok then Marked(inv.token) else MarkFailed(inv.token), after.state.trail, token);
    hide Joins, Undecided, WithMark;
  }

  lemma {:induction false} LateStep(w: World, step: Step, token: string)
    requires Inv(w) && Enabled(w, step) && IsAccepted(w.state, token)
    ensures Reach(Apply(w, step), token) <= Reach(w, token)
  {
    match step
    case Add(p, ok, now) => LateAdd(w, p, ok, now, token);
    case Mark(p, ok, now) => LateMark(w, p, ok, now, token);
    case _ => assert Undecided(Apply(w, step).running, token) == Undecided(w.running, token);
  }

  lemma {:induction false} ReachShrinks(w: World, steps: seq<Step>, token: string)
    requires Inv(w) && Legal(w, steps) && IsAccepted(w.state, token)
    ensures Reach(Run(w, steps), token) <= Reach(w, token)
    decreases |steps|
  {
    hide Apply, IsAccepted, Reach, RunningOk, TrailOk;
    if steps != [] {
      AcceptedStays(w, steps[0], token);
      StepKeepsInv(w, steps[0]);
      LateStep(w, steps[0], token);
      ReachShrinks(Apply(w, steps[0]), steps[1..], token);
    }
  }

  lemma {:induction false} MarkAccepts(w: World, p: nat, now: int)
    requires Inv(w) && Enabled(w, Mark(p, true, now))
    ensures Inv(Apply(w, Mark(p, true, now)))
    ensures IsAccepted(Apply(w, Mark(p, true, now)).state, w.running[p].inv.token)
  {
    MarkKeepsInv(w, p, true, now);
    assert PcOk(w.state.invitations, w.running[p]);
  }

  lemma {:induction false} AcceptedStaysThroughout(w: World, steps: seq<Step>, token: string)
    requires Inv(w) && Legal(w, steps) && IsAccepted(w.state, token)
    ensures IsAccepted(Run(w, steps).state, token)
    decreases |steps|
  {
    hide Apply, IsAccepted, RunningOk, TrailOk;
    if steps != [] {
      AcceptedStays(w, steps[0], token);
      StepKeepsInv(w, steps[0]);
      AcceptedStaysThroughout(Apply(w, steps[0]), steps[1..], token);
    }
  }

  /** Even interleaved, an accept whose lookup follows a successful mark of its token is refused and
      leaves no trace, however many steps of whatever else lie between, at whatever time. */
  lemma {:induction false} LateLookupIsRefused(
      w: World, p: nat, now: int, steps: seq<Step>, q: nat, userId: string, later: int)
    requires Inv(w) && Enabled(w, Mark(p, true, now)) && Legal(Apply(w, Mark(p, true, now)), steps)
    requires q !in Run(Apply(w, Mark(p, true, now)), steps).running
    ensures var token, t := w.running[p].inv.token, Run(Apply(w, Mark(p, true, now)), steps);
            && Refusal(t.state.invitations, token, later) == Some(AlreadyExists)
            && Apply(t, Lookup(q, token, userId, later)) == t
  {
    MarkAccepts(w, p, now);
    AcceptedStaysThroughout(Apply(w, Mark(p, true, now)), steps, w.running[p].inv.token);
  }

  /** From a successful mark on, in whatever reachable state it falls: of all the accepts still to
      come only those already past their lookup can join, each at most once. */
  lemma {:induction false} OnlyEarlierLookupsJoin(w: World, p: nat, now: int, steps: seq<Step>)
    requires Inv(w) && Enabled(w, Mark(p, true, now)) && Legal(Apply(w, Mark(p, true, now)), steps)
    ensures var token := w.running[p].inv.token;
            Joins(Run(Apply(w, Mark(p, true, now)), steps).state.trail, token)
            <= Joins(w.state.trail, token) + |Undecided(w.running, token)|
  {
    var token := w.running[p].inv.token;
    MarkAccepts(w, p, now);
    LateMark(w, p, true, now, token);
    ReachShrinks(Apply(w, Mark(p, true, now)), steps, token);
  }
}
