/** The group operations and the sweeper interleaved call by call: each repository, Keto or
    publisher call is one step, any number of operations are under way, and any call may fail. */
module GroupInterleaving {
  import opened Constants
  import opened Wrappers
  import opened Groups
  import Drift = GroupDrift

  /** Where an operation stands: named after the call it makes next, holding what it has read. */
  datatype Pc =
    | CreateRow(g: Group)
    | CreateTuple(g: Group)
    | CreateEvent(g: Group)
    | AddRow(g: Group, userId: string, appId: string)
    | AddTuple(g: Group, userId: string, appId: string)
    | AddEvent(g: Group, userId: string, appId: string)
    | RemoveRow(g: Group, userId: string)
    | RemoveTuple(g: Group, userId: string)
    | RemoveEvent(g: Group, userId: string)
    | CheckExpiry(g: Group, userId: string)
    | CheckMember(g: Group, userId: string, checkedAt: int)
    | Sign(g: Group, userId: string, checkedAt: int)
    | ListUsers(rest: seq<Group>)
    | DeleteTuples(g: Group, users: seq<string>, rest: seq<Group>)
    | DeleteAdmin(g: Group, rest: seq<Group>)
    | DeleteGroupRow(g: Group, rest: seq<Group>)
    | DeleteEvent(g: Group, rest: seq<Group>)

  datatype Token = Token(claims: Claims, checkedAt: int)

  /** `born` remembers every group id ever generated, `listed` every group a sweep has listed and
      the time it listed for, `tokens` every token issued. */
  datatype World = World(
    store: Store, born: map<string, Group>, running: map<nat, Pc>,
    listed: set<(string, int)>, tokens: seq<Token>)

  const START := World(EMPTY, map[], map[], {}, [])

  /** `Go` makes the next call of operation `p`: `ok` is its outcome, `now` the clock, `users` what a
      successful member listing returns. */
  datatype Step =
    | BeginCreate(p: nat, cmd: CreateCommand, id: string)
    | BeginAdd(p: nat, groupId: string, userId: string, appId: string)
    | BeginRemove(p: nat, groupId: string, userId: string)
    | BeginIssue(p: nat, groupId: string, userId: string)
    | BeginSweep(p: nat, now: int, expired: seq<Group>)
    | Go(p: nat, ok: bool, now: int, users: seq<string>)

  predicate Enabled(w: World, step: Step) {
    match step
    case BeginCreate(p, cmd, id) => p !in w.running && id !in w.born && NewGroup(cmd, id).Success?
    case BeginAdd(p, groupId, _, _) => p !in w.running && groupId in w.store.groups
    case BeginRemove(p, groupId, _) => p !in w.running && groupId in w.store.groups
    case BeginIssue(p, groupId, _) =>
      p !in w.running && groupId in w.store.groups && w.store.groups[groupId].ephemeral
    case BeginSweep(p, now, expired) => p !in w.running && ListsExpired(w.store, now, expired)
    case Go(p, ok, _, users) =>
      p in w.running
      && match w.running[p]
         case ListUsers(rest) => rest != [] && ok ==> ListsMembers(w.store, rest[0].id, users)
         case CheckMember(g, _, _) => ok ==> ListsMembers(w.store, g.id, users)
         case _ => true
  }

  function Continue(w: World, p: nat, pc: Pc): World {
    w.(running := w.running[p := pc])
  }

  function Finish(w: World, p: nat): World {
    w.(running := w.running - {p})
  }

  function Apply(w: World, step: Step): World
    requires Enabled(w, step)
  {
    match step
    case BeginCreate(p, cmd, id) =>
      var g := NewGroup(cmd, id).value;
      Continue(w.(born := w.born[id := g]), p, CreateRow(g))
    case BeginAdd(p, groupId, userId, appId) => Continue(w, p, AddRow(w.store.groups[groupId], userId, appId))
    case BeginRemove(p, groupId, userId) => Continue(w, p, RemoveRow(w.store.groups[groupId], userId))
    case BeginIssue(p, groupId, userId) => Continue(w, p, CheckExpiry(w.store.groups[groupId], userId))
    case BeginSweep(p, now, expired) =>
      Continue(w.(listed := w.listed + (set g | g in expired :: (g.id, now))), p, ListUsers(expired))
    case Go(p, ok, now, users) => Call(w, p, w.running[p], ok, now, users)
  }

  function Call(w: World, p: nat, pc: Pc, ok: bool, now: int, users: seq<string>): World {
    match pc
    case CreateRow(g) =>
      if !ok then Finish(w, p)
      else Continue(w.(store := w.store.(groups := w.store.groups[g.id := g])), p,
                    if g.ephemeral then CreateEvent(g) else CreateTuple(g))
    case CreateTuple(g) =>
      Continue(w.(store := WriteRelation(w.store, AdminTuple(g.id, g.createdBy), ok)), p, CreateEvent(g))
    case CreateEvent(g) => Finish(w.(store := Emit(w.store, GroupCreated(g))), p)
    case AddRow(g, userId, appId) =>
      if !ok then Finish(w, p)
      else Continue(w.(store := InsertMember(w.store, g.id, userId, appId)), p,
                    if g.ephemeral then AddEvent(g, userId, appId) else AddTuple(g, userId, appId))
    case AddTuple(g, userId, appId) =>
      Continue(w.(store := WriteRelation(w.store, MemberTuple(g.id, userId), ok)), p, AddEvent(g, userId, appId))
    case AddEvent(g, userId, appId) =>
      Finish(w.(store := Emit(w.store, MemberAdded(g.id, g.orgId, appId, userId))), p)
    case RemoveRow(g, userId) =>
      if !ok then Finish(w, p)
      else Continue(w.(store := DeleteMember(w.store, g.id, userId)), p,
                    if g.ephemeral then RemoveEvent(g, userId) else RemoveTuple(g, userId))
    case RemoveTuple(g, userId) =>
      Continue(w.(store := DeleteRelation(w.store, MemberTuple(g.id, userId), ok)), p, RemoveEvent(g, userId))
    case RemoveEvent(g, userId) =>
      Finish(w.(store := Emit(w.store, MemberRemoved(g.id, g.orgId, g.appId, userId))), p)
    case CheckExpiry(g, userId) =>
      if g.expiresAt.None? || g.expiresAt.value < now then Finish(w, p)
      else Continue(w, p, CheckMember(g, userId, now))
    case CheckMember(g, userId, checkedAt) =>
      if ok && userId in users then Continue(w, p, Sign(g, userId, checkedAt)) else Finish(w, p)
    case Sign(g, userId, checkedAt) =>
      if !ok || g.expiresAt.None? then Finish(w, p)
      else Finish(w.(tokens := w.tokens + [Token(GroupClaims(userId, g.id, g.expiresAt.value), checkedAt)]), p)
    case ListUsers(rest) =>
      if rest == [] then Finish(w, p)
      else Continue(w, p, DeleteTuples(rest[0], if ok then users else [], rest[1..]))
    case DeleteTuples(g, left, rest) =>
      if left == [] then Continue(w, p, DeleteAdmin(g, rest))
      else Continue(w.(store := DeleteRelation(w.store, MemberTuple(g.id, left[0]), ok)), p,
                    DeleteTuples(g, left[1..], rest))
    case DeleteAdmin(g, rest) =>
      Continue(w.(store := DeleteRelation(w.store, AdminTuple(g.id, g.createdBy), ok)), p, DeleteGroupRow(g, rest))
    case DeleteGroupRow(g, rest) =>
      if !ok then Continue(w, p, ListUsers(rest))
      else Continue(w.(store := DeleteRow(w.store, g.id)), p, DeleteEvent(g, rest))
    case DeleteEvent(g, rest) =>
      Continue(w.(store := Emit(w.store, GroupDeleted(g.id, g.orgId, g.appId))), p, ListUsers(rest))
  }

  ghost predicate Legal(w: World, steps: seq<Step>)
    decreases |steps|
  {
    steps == [] || (Enabled(w, steps[0]) && Legal(Apply(w, steps[0]), steps[1..]))
  }

  ghost function Run(w: World, steps: seq<Step>): World
    requires Legal(w, steps)
    decreases |steps|
  {
    if steps == [] then w else Run(Apply(w, steps[0]), steps[1..])
  }

  // ----- The invariant ------------------------------------------------------------------

  type Births = map<string, Group>

  ghost predicate Born(born: Births, g: Group) {
    g.id in born && born[g.id] == g
  }

  ghost predicate MayHoldTuples(born: Births, groupId: string) {
    groupId in born && !born[groupId].ephemeral
  }

  ghost predicate Sweepable(born: Births, g: Group) {
    Born(born, g) && g.ephemeral && g.expiresAt.Some?
  }

  ghost predicate AllSweepable(born: Births, rest: seq<Group>) {
    forall i :: 0 <= i < |rest| ==> Sweepable(born, rest[i])
  }

  ghost predicate Unexpired(born: Births, g: Group, now: int) {
    Sweepable(born, g) && now <= g.expiresAt.value
  }

  /** What an operation holds is true of the group for good: a group never changes once born. */
  ghost predicate PcOk(born: Births, pc: Pc) {
    match pc
    case CreateRow(g) => Born(born, g)
    case CreateTuple(g) => Born(born, g) && !g.ephemeral
    case CreateEvent(g) => Born(born, g)
    case AddRow(g, _, _) => Born(born, g)
    case AddTuple(g, _, _) => Born(born, g) && !g.ephemeral
    case AddEvent(g, _, _) => Born(born, g)
    case RemoveRow(g, _) => Born(born, g)
    case RemoveTuple(g, _) => Born(born, g)
    case RemoveEvent(g, _) => Born(born, g)
    case CheckExpiry(g, _) => Born(born, g) && g.ephemeral
    case CheckMember(g, _, t) => Unexpired(born, g, t)
    case Sign(g, _, t) => Unexpired(born, g, t)
    case ListUsers(rest) => AllSweepable(born, rest)
    case DeleteTuples(g, _, rest) => Sweepable(born, g) && AllSweepable(born, rest)
    case DeleteAdmin(g, rest) => Sweepable(born, g) && AllSweepable(born, rest)
    case DeleteGroupRow(g, rest) => Sweepable(born, g) && AllSweepable(born, rest)
    case DeleteEvent(g, rest) => Sweepable(born, g) && AllSweepable(born, rest)
  }

  ghost predicate RowsOk(born: Births, groups: map<string, Group>) {
    forall id :: id in groups ==> groups[id].id == id && Born(born, groups[id])
  }

  ghost predicate TuplesOk(born: Births, keto: set<Tuple>) {
    forall t, id :: t in keto && t.target == Object(id) ==> MayHoldTuples(born, id)
  }

  ghost predicate ListedOk(born: Births, listed: set<(string, int)>) {
    forall id, t :: (id, t) in listed ==>
      id in born && born[id].ephemeral && born[id].expiresAt.Some? && born[id].expiresAt.value < t
  }

  ghost predicate TokenOk(born: Births, token: Token) {
    var id := token.claims.groupId;
    && id in born && born[id].ephemeral && born[id].expiresAt.Some?
    && token.claims == Claims(token.claims.sub, "ephemeral-group:" + id, born[id].expiresAt.value / SECOND, id, "member")
    && token.checkedAt <= born[id].expiresAt.value
  }

  ghost predicate BirthsOk(born: Births) {
    forall id :: id in born ==> born[id].id == id
  }

  ghost predicate RunningOk(born: Births, running: map<nat, Pc>) {
    forall p :: p in running ==> PcOk(born, running[p])
  }

  ghost predicate TokensOk(born: Births, tokens: seq<Token>) {
    forall k :: 0 <= k < |tokens| ==> TokenOk(born, tokens[k])
  }

  ghost predicate Inv(w: World) {
    && BirthsOk(w.born)
    && RowsOk(w.born, w.store.groups)
    && TuplesOk(w.born, w.store.keto)
    && ListedOk(w.born, w.listed)
    && RunningOk(w.born, w.running)
    && TokensOk(w.born, w.tokens)
  }

  /** A call leaves the births and the listings alone, and every other operation where it was. */
  lemma {:induction false} CallTouchesOnlyItself(w: World, p: nat, pc: Pc, ok: bool, now: int, users: seq<string>)
    requires p in w.running
    ensures var t := Call(w, p, pc, ok, now, users);
            && t.born == w.born && t.listed == w.listed
            && t.running.Keys <= w.running.Keys
            && forall q :: q in t.running && q != p ==> t.running[q] == w.running[q]
  {
  }

  lemma {:induction false} CallMovesOn(w: World, p: nat, pc: Pc, ok: bool, now: int, users: seq<string>)
    requires p in w.running && PcOk(w.born, pc)
    ensures var t := Call(w, p, pc, ok, now, users); p in t.running ==> PcOk(w.born, t.running[p])
  {
    hide Object;
    match pc
    case ListUsers(rest) =>
      if rest != [] {
        assert Sweepable(w.born, rest[0]) && AllSweepable(w.born, rest[1..]);
      }
    case _ =>
  }

  lemma {:induction false} CallKeepsRows(w: World, p: nat, pc: Pc, ok: bool, now: int, users: seq<string>)
    requires PcOk(w.born, pc) && RowsOk(w.born, w.store.groups) && TokensOk(w.born, w.tokens)
    ensures RowsOk(w.born, Call(w, p, pc, ok, now, users).store.groups)
    ensures TokensOk(w.born, Call(w, p, pc, ok, now, users).tokens)
  {
  }

  lemma {:induction false} CallKeepsTuples(w: World, p: nat, pc: Pc, ok: bool, now: int, users: seq<string>)
    requires PcOk(w.born, pc) && TuplesOk(w.born, w.store.keto)
    ensures TuplesOk(w.born, Call(w, p, pc, ok, now, users).store.keto)
  {
    var keto := Call(w, p, pc, ok, now, users).store.keto;
    forall t, id | t in keto && t.target == Object(id) ensures MayHoldTuples(w.born, id) {
      if t !in w.store.keto {
        assert pc.CreateTuple? || pc.AddTuple?;
        Drift.ObjectInjective(id, pc.g.id);
      }
    }
  }

  lemma {:induction false} CallKeepsInv(w: World, p: nat, ok: bool, now: int, users: seq<string>)
    requires Inv(w) && Enabled(w, Go(p, ok, now, users))
    ensures Inv(Apply(w, Go(p, ok, now, users)))
  {
    var pc := w.running[p];
    assert PcOk(w.born, pc);
    hide Call, PcOk, RowsOk, TuplesOk, TokensOk, ListedOk;
    CallTouchesOnlyItself(w, p, pc, ok, now, users);
    CallMovesOn(w, p, pc, ok, now, users);
    CallKeepsRows(w, p, pc, ok, now, users);
    CallKeepsTuples(w, p, pc, ok, now, users);
  }

  /** A new birth disturbs nothing that is known about the groups already born. */
  lemma {:induction false} BirthKeepsInv(w: World, g: Group)
    requires Inv(w) && g.id !in w.born
    ensures Inv(w.(born := w.born[g.id := g]))
  {
    var born := w.born[g.id := g];
    forall t, id | t in w.store.keto && t.target == Object(id) ensures MayHoldTuples(born, id) {
      assert MayHoldTuples(w.born, id);
    }
    forall p | p in w.running ensures PcOk(born, w.running[p]) {
      assert PcOk(w.born, w.running[p]);
    }
    forall k | 0 <= k < |w.tokens| ensures TokenOk(born, w.tokens[k]) {
      assert TokenOk(w.born, w.tokens[k]);
    }
  }

  lemma {:induction false} BeginKeepsInv(w: World, step: Step)
    requires Inv(w) && Enabled(w, step) && !step.Go?
    ensures Inv(Apply(w, step))
  {
    match step
    case BeginCreate(_, cmd, id) => BirthKeepsInv(w, NewGroup(cmd, id).value);
    case BeginSweep(_, now, expired) =>
      forall i | 0 <= i < |expired| ensures Sweepable(w.born, expired[i]) && expired[i].expiresAt.value < now {
      }
    case _ =>
  }

  /** Every step of every interleaving keeps the invariant. */
  lemma {:induction false} RunKeepsInv(w: World, steps: seq<Step>)
    requires Inv(w) && Legal(w, steps)
    ensures Inv(Run(w, steps))
    decreases |steps|
  {
    if steps != [] {
      if steps[0].Go? {
        CallKeepsInv(w, steps[0].p, steps[0].ok, steps[0].now, steps[0].users);
      } else {
        BeginKeepsInv(w, steps[0]);
      }
      RunKeepsInv(Apply(w, steps[0]), steps[1..]);
    }
  }

  // ----- What holds in every reachable state --------------------------------------------

  /** In every reachable state Keto holds no tuple for an ephemeral group, so the subscribe proxy
      lets nobody onto its group channel. */
  lemma {:induction false} EphemeralGroupsStayOutOfKeto(steps: seq<Step>, groupId: string, userId: string)
    requires Legal(START, steps)
    requires groupId in Run(START, steps).born && Run(START, steps).born[groupId].ephemeral
    ensures forall t :: t in Run(START, steps).store.keto ==> t.target != Object(groupId)
    ensures CheckSubscription(Run(START, steps).store.keto, userId, "group:" + groupId, true) == Success(false)
  {
    RunKeepsInv(START, steps);
    ProxyDecides(Run(START, steps).store.keto, userId, groupId);
  }

  /** The two ways onto a group's channels never meet: in every reachable state a user the proxy
      admits is on a permanent group's channel, and a token is for an ephemeral group. */
  lemma {:induction false} ProxyAndTokensAreDisjoint(steps: seq<Step>, groupId: string, userId: string, k: nat)
    requires Legal(START, steps) && k < |Run(START, steps).tokens|
    requires CheckSubscription(Run(START, steps).store.keto, userId, "group:" + groupId, true) == Success(true)
    ensures groupId in Run(START, steps).born && !Run(START, steps).born[groupId].ephemeral
    ensures Run(START, steps).tokens[k].claims.groupId != groupId
  {
    RunKeepsInv(START, steps);
    var w := Run(START, steps);
    ProxyDecides(w.store.keto, userId, groupId);
    assert MemberTuple(groupId, userId) in w.store.keto && MayHoldTuples(w.born, groupId);
    assert TokenOk(w.born, w.tokens[k]);
  }

  /** In every interleaving a token is checked strictly before any sweep that lists its group, even
      when the group was read before the sweep and the token signed after it; and it expires no
      later than the group. */
  lemma {:induction false} TokensPrecedeSweeps(steps: seq<Step>, k: nat, t: int)
    requires Legal(START, steps) && k < |Run(START, steps).tokens|
    ensures var w, token := Run(START, steps), Run(START, steps).tokens[k];
            && ((token.claims.groupId, t) in w.listed ==> token.checkedAt < t)
            && token.claims.groupId in w.born
            && w.born[token.claims.groupId].expiresAt.Some?
            && token.claims.exp * SECOND <= w.born[token.claims.groupId].expiresAt.value
  {
    RunKeepsInv(START, steps);
    assert TokenOk(Run(START, steps).born, Run(START, steps).tokens[k]);
  }

  lemma {:induction false} StepKeepsPermanentRow(w: World, step: Step, groupId: string)
    requires Inv(w) && Enabled(w, step)
    requires groupId in w.store.groups && !w.store.groups[groupId].ephemeral
    ensures groupId in Apply(w, step).store.groups && Apply(w, step).store.groups[groupId] == w.store.groups[groupId]
  {
    if step.Go? {
      assert PcOk(w.born, w.running[step.p]);
    }
  }

  /** No interleaving deletes or changes a permanent group's row, even one that carries an expiry. */
  lemma {:induction false} PermanentRowsStay(w: World, steps: seq<Step>, groupId: string)
    requires Inv(w) && Legal(w, steps)
    requires groupId in w.store.groups && !w.store.groups[groupId].ephemeral
    ensures groupId in Run(w, steps).store.groups
    ensures Run(w, steps).store.groups[groupId] == w.store.groups[groupId]
    decreases |steps|
  {
    if steps != [] {
      StepKeepsPermanentRow(w, steps[0], groupId);
      RunKeepsInv(w, steps[..1]);
      assert steps[..1][1..] == [] && Run(w, steps[..1]) == Apply(w, steps[0]);
      PermanentRowsStay(Apply(w, steps[0]), steps[1..], groupId);
    }
  }

  // ----- Ephemeral groups expire --------------------------------------------------------

  ghost predicate EphemeralsExpire(born: Births) {
    forall id :: id in born && born[id].ephemeral ==> born[id].expiresAt.Some?
  }

  lemma {:induction false} StepKeepsExpiry(w: World, step: Step)
    requires Enabled(w, step) && EphemeralsExpire(w.born)
    ensures EphemeralsExpire(Apply(w, step).born)
  {
    if step.Go? {
      CallTouchesOnlyItself(w, step.p, w.running[step.p], step.ok, step.now, step.users);
      hide Call;
    }
  }

  /** In every interleaving each ephemeral group ever created has an expiry. */
  lemma {:induction false} EphemeralGroupsExpire(w: World, steps: seq<Step>)
    requires EphemeralsExpire(w.born) && Legal(w, steps)
    ensures EphemeralsExpire(Run(w, steps).born)
    decreases |steps|
  {
    hide Apply;
    if steps != [] {
      StepKeepsExpiry(w, steps[0]);
      EphemeralGroupsExpire(Apply(w, steps[0]), steps[1..]);
    }
  }

  /** So in every reachable state, at every instant, each ephemeral group is either due for the sweep
      or issues tokens to its members: none is out of reach of both. */
  lemma {:induction false} ReachableSweepableOrIssuable(steps: seq<Step>, groupId: string, userId: string, now: int)
    requires Legal(START, steps)
    requires var s := Run(START, steps).store;
             groupId in s.groups && s.groups[groupId].ephemeral && (groupId, userId) in s.members
    ensures var s := Run(START, steps).store;
            && s.groups[groupId].expiresAt.Some?
            && (TokenFor(s, groupId, userId, now, TokenCalls(true, true, true)).Success? <==> !Expired(s.groups[groupId], now))
            && (Expired(s.groups[groupId], now) <==> now > s.groups[groupId].expiresAt.value)
  {
    RunKeepsInv(START, steps);
    EphemeralGroupsExpire(START, steps);
    SweepableOrIssuable(Run(START, steps).store, groupId, userId, now, TokenCalls(true, true, true));
  }

  // ----- Tokens are for members ---------------------------------------------------------

  /** At some moment of the run the pair has a membership row. */
  ghost predicate EverMember(w: World, steps: seq<Step>, groupId: string, userId: string)
    requires Legal(w, steps)
    decreases |steps|
  {
    (groupId, userId) in w.store.members
    || (steps != [] && EverMember(Apply(w, steps[0]), steps[1..], groupId, userId))
  }

  /** Every token, and every one about to be signed, is for a pair of `known`. */
  ghost predicate OnlyFor(w: World, known: set<(string, string)>) {
    && (forall p :: p in w.running && w.running[p].Sign? ==> (w.running[p].g.id, w.running[p].userId) in known)
    && (forall k :: 0 <= k < |w.tokens| ==> (w.tokens[k].claims.groupId, w.tokens[k].claims.sub) in known)
  }

  lemma {:induction false} StepIssuesToMembers(w: World, step: Step, known: set<(string, string)>)
    requires Enabled(w, step) && OnlyFor(w, known)
    ensures OnlyFor(Apply(w, step), known + w.store.members.Keys)
  {
  }

  lemma {:induction false} RunIssuesToMembers(w: World, steps: seq<Step>, known: set<(string, string)>, k: nat)
    requires Legal(w, steps) && OnlyFor(w, known) && k < |Run(w, steps).tokens|
    ensures var claims := Run(w, steps).tokens[k].claims;
            (claims.groupId, claims.sub) in known || EverMember(w, steps, claims.groupId, claims.sub)
    decreases |steps|
  {
    hide Apply;
    if steps != [] {
      StepIssuesToMembers(w, steps[0], known);
      RunIssuesToMembers(Apply(w, steps[0]), steps[1..], known + w.store.members.Keys, k);
    }
  }

  /** In every interleaving a token is only for a user who at some moment is a member of its group. */
  lemma {:induction false} TokensAreForMembers(steps: seq<Step>, k: nat)
    requires Legal(START, steps) && k < |Run(START, steps).tokens|
    ensures var claims := Run(START, steps).tokens[k].claims;
            EverMember(START, steps, claims.groupId, claims.sub)
  {
    RunIssuesToMembers(START, steps, {}, k);
  }

  // ----- Drift without failures ---------------------------------------------------------

  lemma {:induction false} RunOf(w: World, step: Step, rest: seq<Step>)
    requires Enabled(w, step) && Legal(Apply(w, step), rest)
    ensures Legal(w, [step] + rest) && Run(w, [step] + rest) == Run(Apply(w, step), rest)
  {
    assert ([step] + rest)[1..] == rest;
  }

  /** A remove's two calls between the two calls of an add of the same pair. */
  lemma {:induction false} CallsCross(w: World, p: nat, q: nat, g: Group, userId: string, appId: string)
    requires p in w.running && q in w.running && p != q && !g.ephemeral
    requires w.running[p] == AddRow(g, userId, appId) && w.running[q] == RemoveRow(g, userId)
    ensures var a, b := Go(p, true, 0, []), Go(q, true, 0, []);
            && Enabled(w, a) && Enabled(Apply(w, a), b) && Enabled(Apply(Apply(w, a), b), b)
            && Enabled(Apply(Apply(Apply(w, a), b), b), a)
            && var s := Apply(Apply(Apply(Apply(w, a), b), b), a).store;
            && (g.id, userId) !in s.members && MemberTuple(g.id, userId) in s.keto
  {
    var a, b := Go(p, true, 0, []), Go(q, true, 0, []);
    var w1 := Apply(w, a);
    assert w1.running[p] == AddTuple(g, userId, appId) && w1.running[q] == RemoveRow(g, userId);
    var w2 := Apply(w1, b);
    assert w2.running[p] == AddTuple(g, userId, appId) && w2.running[q] == RemoveTuple(g, userId);
    assert (g.id, userId) !in w2.store.members;
    var w3 := Apply(w2, b);
    assert w3.running[p] == AddTuple(g, userId, appId) && w3.store.members == w2.store.members;
  }

  /** Interleaved, the two stores can drift although every call succeeds: an add and a remove of
      the same pair, with the remove's two calls between the add's, leave the tuple of a user who
      is no member. `GroupAgreement` says exactly when a run does this. */
  lemma {:induction false} InterleavingDriftsWithoutFailures(
      w: World, p: nat, q: nat, groupId: string, userId: string, appId: string)
    returns (steps: seq<Step>)
    requires p !in w.running && q !in w.running && p != q
    requires groupId in w.store.groups && w.store.groups[groupId].id == groupId && !w.store.groups[groupId].ephemeral
    ensures Legal(w, steps)
    ensures forall k :: 0 <= k < |steps| && steps[k].Go? ==> steps[k].ok
    ensures var s := Run(w, steps).store;
            (groupId, userId) !in s.members && MemberTuple(groupId, userId) in s.keto
  {
    var a, b := Go(p, true, 0, []), Go(q, true, 0, []);
    var add, remove := BeginAdd(p, groupId, userId, appId), BeginRemove(q, groupId, userId);
    var w1 := Apply(w, add);
    var w2 := Apply(w1, remove);
    CallsCross(w2, p, q, w.store.groups[groupId], userId, appId);
    hide Apply, Enabled;
    var w3 := Apply(w2, a);
    var w4 := Apply(w3, b);
    var w5 := Apply(w4, b);
    RunOf(w5, a, []);
    RunOf(w4, b, [a] + []);
    RunOf(w3, b, [b] + ([a] + []));
    RunOf(w2, a, [b] + ([b] + ([a] + [])));
    RunOf(w1, remove, [a] + ([b] + ([b] + ([a] + []))));
    steps := [add] + ([remove] + ([a] + ([b] + ([b] + ([a] + [])))));
    RunOf(w, add, [remove] + ([a] + ([b] + ([b] + ([a] + [])))));
  }
}
