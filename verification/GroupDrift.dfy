/** Serial runs of the group operations with failing calls: where the two stores stand on a
    (permanent group, user) pair, and when they disagree. */
module GroupDrift {
  import opened Wrappers
  import opened Groups

  datatype Op =
    | Create(cmd: CreateCommand, create: CreateCalls)
    | Add(groupId: string, userId: string, appId: string, c: MemberCalls)
    | Remove(groupId: string, userId: string, c: MemberCalls)
    | Sweep(now: int, expired: seq<Group>, calls: seq<DeleteCalls>)

  /** A freshly generated id has no row and no tuple anywhere. */
  predicate Unused(s: Store, id: string) {
    && id !in s.groups
    && (forall k :: k in s.members ==> k.0 != id)
    && (forall t :: t in s.keto ==> t.target != Object(id))
  }

  ghost predicate Enabled(s: Store, op: Op) {
    match op
    case Create(_, create) => Unused(s, create.id)
    case Sweep(now, expired, calls) => ListsExpired(s, now, expired) && |calls| == |expired|
    case _ => true
  }

  ghost function Apply(s: Store, op: Op): Store
    requires Enabled(s, op)
  {
    match op
    case Create(cmd, create) => Created(s, cmd, create)
    case Add(groupId, userId, appId, c) => Added(s, groupId, userId, appId, c)
    case Remove(groupId, userId, c) => Removed(s, groupId, userId, c)
    case Sweep(_, expired, calls) => SweptTo(s, expired, calls, |expired|)
  }

  ghost predicate Legal(s: Store, ops: seq<Op>)
    decreases |ops|, 0
  {
    ops == [] || (Legal(s, ops[..|ops| - 1]) && Enabled(Run(s, ops[..|ops| - 1]), ops[|ops| - 1]))
  }

  ghost function Run(s: Store, ops: seq<Op>): Store
    requires Legal(s, ops)
    decreases |ops|, 1
  {
    if ops == [] then s else Apply(Run(s, ops[..|ops| - 1]), ops[|ops| - 1])
  }

  // ----- The last successful call -------------------------------------------------------

  /** The row write an operation gets through for the pair: an insert, a delete, or none. */
  function RowCall(op: Op, groupId: string, userId: string): Option<bool> {
    match op
    case Add(g, u, _, c) => if g == groupId && u == userId && c.findOk && c.writeOk then Some(true) else None
    case Remove(g, u, c) => if g == groupId && u == userId && c.findOk && c.writeOk then Some(false) else None
    case _ => None
  }

  /** The tuple call an operation gets through: made after the row call, and only then. */
  function TupleCall(op: Op, groupId: string, userId: string): Option<bool> {
    if (op.Add? || op.Remove?) && op.c.ketoOk then RowCall(op, groupId, userId) else None
  }

  function LastRowCall(ops: seq<Op>, groupId: string, userId: string, start: bool): bool {
    if ops == [] then start
    else
      var last := RowCall(ops[|ops| - 1], groupId, userId);
      if last.Some? then last.value else LastRowCall(ops[..|ops| - 1], groupId, userId, start)
  }

  function LastTupleCall(ops: seq<Op>, groupId: string, userId: string, start: bool): bool {
    if ops == [] then start
    else
      var last := TupleCall(ops[|ops| - 1], groupId, userId);
      if last.Some? then last.value else LastTupleCall(ops[..|ops| - 1], groupId, userId, start)
  }

  // ----- Operations leave other pairs alone ---------------------------------------------

  lemma {:induction false} ObjectInjective(a: string, b: string)
    requires Object(a) == Object(b)
    ensures a == b
  {
    assert Object(a)[6..] == a && Object(b)[6..] == b;
  }

  lemma {:induction false} SweptKeto(s: Store, expired: seq<Group>, calls: seq<DeleteCalls>, k: nat, t: Tuple)
    requires k <= |expired| == |calls|
    requires forall i :: 0 <= i < |expired| ==> t.target != Object(expired[i].id)
    ensures t in SweptTo(s, expired, calls, k).keto <==> t in s.keto
  {
    if k > 0 {
      SweptKeto(s, expired, calls, k - 1, t);
      var g, c := expired[k - 1], calls[k - 1];
      TupleDeletionsExactly(SweptTo(s, expired, calls, k - 1), g.id, Users(c), c.ketoOk, |Users(c)|);
    }
  }

  ghost predicate Permanent(s: Store, groupId: string) {
    WellKeyed(s) && groupId in s.groups && !s.groups[groupId].ephemeral
  }

  lemma {:induction false} SweepSparesPermanent(s: Store, op: Op, groupId: string, userId: string)
    requires op.Sweep? && Enabled(s, op) && Permanent(s, groupId)
    ensures Permanent(Apply(s, op), groupId)
    ensures Apply(s, op).members == s.members
    ensures MemberTuple(groupId, userId) in Apply(s, op).keto <==> MemberTuple(groupId, userId) in s.keto
  {
    SweptRows(s, op.expired, op.calls, |op.expired|);
    forall i | 0 <= i < |op.expired| ensures Object(groupId) != Object(op.expired[i].id) {
      if Object(groupId) == Object(op.expired[i].id) {
        ObjectInjective(groupId, op.expired[i].id);
      }
    }
    SweptKeto(s, op.expired, op.calls, |op.expired|, MemberTuple(groupId, userId));
  }

  lemma {:induction false} AddOnPair(s: Store, op: Op, groupId: string, userId: string)
    requires op.Add? && Permanent(s, groupId)
    ensures Permanent(Apply(s, op), groupId)
    ensures var row := RowCall(op, groupId, userId);
            (groupId, userId) in Apply(s, op).members <==> if row.Some? then row.value else (groupId, userId) in s.members
    ensures var call := TupleCall(op, groupId, userId);
            MemberTuple(groupId, userId) in Apply(s, op).keto <==>
            if call.Some? then call.value else MemberTuple(groupId, userId) in s.keto
  {
    if Object(op.groupId) == Object(groupId) {
      ObjectInjective(op.groupId, groupId);
    }
  }

  lemma {:induction false} RemoveOnPair(s: Store, op: Op, groupId: string, userId: string)
    requires op.Remove? && Permanent(s, groupId)
    ensures Permanent(Apply(s, op), groupId)
    ensures var row := RowCall(op, groupId, userId);
            (groupId, userId) in Apply(s, op).members <==> if row.Some? then row.value else (groupId, userId) in s.members
    ensures var call := TupleCall(op, groupId, userId);
            MemberTuple(groupId, userId) in Apply(s, op).keto <==>
            if call.Some? then call.value else MemberTuple(groupId, userId) in s.keto
  {
    if Object(op.groupId) == Object(groupId) {
      ObjectInjective(op.groupId, groupId);
    }
  }

  lemma {:induction false} OpOnPair(s: Store, op: Op, groupId: string, userId: string)
    requires Enabled(s, op) && Permanent(s, groupId)
    ensures Permanent(Apply(s, op), groupId)
    ensures var row := RowCall(op, groupId, userId);
            (groupId, userId) in Apply(s, op).members <==> if row.Some? then row.value else (groupId, userId) in s.members
    ensures var call := TupleCall(op, groupId, userId);
            MemberTuple(groupId, userId) in Apply(s, op).keto <==>
            if call.Some? then call.value else MemberTuple(groupId, userId) in s.keto
  {
    match op
    case Sweep(_, _, _) => SweepSparesPermanent(s, op, groupId, userId);
    case Create(_, _) =>
    case Add(_, _, _, _) => AddOnPair(s, op, groupId, userId);
    case Remove(_, _, _) => RemoveOnPair(s, op, groupId, userId);
  }

  /** The drift theorem: in every serial run, whatever fails, the pair has a row exactly when its
      last successful row call was an insert, and a tuple exactly when its last successful tuple
      call was a write. */
  lemma {:induction false} StoresFollowLastCalls(s: Store, ops: seq<Op>, groupId: string, userId: string)
    requires Legal(s, ops) && Permanent(s, groupId)
    ensures Permanent(Run(s, ops), groupId)
    ensures (groupId, userId) in Run(s, ops).members <==>
            LastRowCall(ops, groupId, userId, (groupId, userId) in s.members)
    ensures MemberTuple(groupId, userId) in Run(s, ops).keto <==>
            LastTupleCall(ops, groupId, userId, MemberTuple(groupId, userId) in s.keto)
  {
    if ops != [] {
      var before := ops[..|ops| - 1];
      StoresFollowLastCalls(s, before, groupId, userId);
      OpOnPair(Run(s, before), ops[|ops| - 1], groupId, userId);
    }
  }

  ghost predicate InStep(s: Store, groupId: string, userId: string) {
    (groupId, userId) in s.members <==> MemberTuple(groupId, userId) in s.keto
  }

  /** Does the pair's last operation that reached the rows also reach Keto? */
  predicate LastCallComplete(ops: seq<Op>, groupId: string, userId: string) {
    ops == []
    || if RowCall(ops[|ops| - 1], groupId, userId).Some?
       then TupleCall(ops[|ops| - 1], groupId, userId).Some?
       else LastCallComplete(ops[..|ops| - 1], groupId, userId)
  }

  lemma {:induction false} CompleteCallsAgree(ops: seq<Op>, groupId: string, userId: string, start: bool)
    requires LastCallComplete(ops, groupId, userId)
    ensures LastRowCall(ops, groupId, userId, start) == LastTupleCall(ops, groupId, userId, start)
  {
    if ops != [] && RowCall(ops[|ops| - 1], groupId, userId).None? {
      CompleteCallsAgree(ops[..|ops| - 1], groupId, userId, start);
    }
  }

  /** One complete operation on the pair restores agreement, whatever came before it and whatever
      happens to other pairs after it: a pair in step at the start is out of step at the end only
      if the Keto call of its last row-changing operation failed. */
  lemma {:induction false} RetryRestoresAgreement(s: Store, ops: seq<Op>, groupId: string, userId: string)
    requires Legal(s, ops) && Permanent(s, groupId)
    requires LastCallComplete(ops, groupId, userId)
    requires InStep(s, groupId, userId) || exists i :: 0 <= i < |ops| && RowCall(ops[i], groupId, userId).Some?
    ensures InStep(Run(s, ops), groupId, userId)
  {
    StoresFollowLastCalls(s, ops, groupId, userId);
    var row, tuple := (groupId, userId) in s.members, MemberTuple(groupId, userId) in s.keto;
    CompleteCallsAgree(ops, groupId, userId, row);
    if row != tuple {
      StartForgotten(ops, groupId, userId, row, tuple);
    }
  }

  lemma {:induction false} StartForgotten(ops: seq<Op>, groupId: string, userId: string, a: bool, b: bool)
    requires LastCallComplete(ops, groupId, userId)
    requires exists i :: 0 <= i < |ops| && RowCall(ops[i], groupId, userId).Some?
    ensures LastTupleCall(ops, groupId, userId, a) == LastTupleCall(ops, groupId, userId, b)
  {
    if RowCall(ops[|ops| - 1], groupId, userId).None? {
      var i :| 0 <= i < |ops| && RowCall(ops[i], groupId, userId).Some?;
      assert ops[..|ops| - 1][i] == ops[i];
      StartForgotten(ops[..|ops| - 1], groupId, userId, a, b);
    }
  }

  /** Exactly when the stores disagree: the last row call and the last tuple call went opposite
      ways. */
  lemma {:induction false} DriftExactly(s: Store, ops: seq<Op>, groupId: string, userId: string)
    requires Legal(s, ops) && Permanent(s, groupId) && InStep(s, groupId, userId)
    ensures var start := (groupId, userId) in s.members;
            !InStep(Run(s, ops), groupId, userId) <==>
            LastRowCall(ops, groupId, userId, start) != LastTupleCall(ops, groupId, userId, start)
    ensures !InStep(Run(s, ops), groupId, userId) ==> !LastCallComplete(ops, groupId, userId)
  {
    StoresFollowLastCalls(s, ops, groupId, userId);
    if LastCallComplete(ops, groupId, userId) {
      CompleteCallsAgree(ops, groupId, userId, (groupId, userId) in s.members);
    }
  }

  /** End to end, for a group created permanent and any serial run after it: the subscribe proxy lets
      a user onto the group's channel exactly when their last successful Keto call was an add's. The
      creator is no exception: the tuple a creation writes makes an admin, whom the proxy turns away. */
  lemma {:induction false} ProxyFollowsLastCalls(
      s: Store, cmd: CreateCommand, create: CreateCalls, ops: seq<Op>, userId: string)
    requires WellKeyed(s) && Unused(s, create.id) && NewGroup(cmd, create.id).Success? && create.createOk
    requires !cmd.ephemeral && Legal(Created(s, cmd, create), ops)
    ensures CheckSubscription(Run(Created(s, cmd, create), ops).keto, userId, "group:" + create.id, true)
         == Success(LastTupleCall(ops, create.id, userId, false))
  {
    var start := Created(s, cmd, create);
    assert Permanent(start, create.id);
    assert MemberTuple(create.id, userId) !in start.keto by {
      assert MemberTuple(create.id, userId).target == Object(create.id);
      assert MemberTuple(create.id, userId) != AdminTuple(create.id, cmd.createdBy);
    }
    hide Created, NewGroup, CheckSubscription;
    StoresFollowLastCalls(start, ops, create.id, userId);
    ProxyDecides(Run(start, ops).keto, userId, create.id);
  }
}
