/** What redelivery comes to, read off the message and the answers alone: when a message ends
    acknowledged and after how many deliveries, and what records and broadcasts carry. */
module DeliveryOutcomes {
  import opened Wrappers
  import opened Notifications
  import opened Delivery
  import Fan = FanOut

  /** A well-formed addition of a member. */
  predicate Joins(m: Message) {
    && m.Envelope? && m.eventType == "org.group.member_added"
    && m.payload.Some? && m.payload.value.user.id.Some? && m.payload.value.app.id.Some?
  }

  /** A well-formed end of a group. */
  predicate Ends(m: Message) {
    && m.Envelope? && m.eventType == "org.group.deleted"
    && m.payload.Some? && m.payload.value.group.id.Some? && m.payload.value.app.id.Some?
  }

  /** The one call that can make the delivery fail works: the save of a new member's record, or the
      listing of an ended group's members. */
  predicate Settles(m: Message, a: Attempt) {
    (Joins(m) ==> a.answers.saveOk) && (Ends(m) ==> a.members.Some?)
  }

  /** An id that does not parse, and is not insisted on, becomes the nil id. */
  function IdOrNil(f: Field): string {
    if f.id.Some? then f.id.value else "00000000-0000-0000-0000-000000000000"
  }

  // ----- When a message ends acknowledged -----------------------------------------------

  lemma {:induction false} DeliverySettles(m: Message, a: Attempt)
    requires ValidAttempt(m, a)
    ensures Handled(m, a).acked <==> Settles(m, a)
  {
  }

  lemma {:induction false} MergedStopsAtFirstAck(outcomes: seq<Outcome>, k: nat)
    requires k <= |outcomes|
    ensures var n := Deliveries(outcomes, k);
            && k <= n <= |outcomes|
            && (forall j :: k <= j < n - 1 ==> !outcomes[j].acked)
            && if Merged(outcomes, k).acked then k < n && outcomes[n - 1].acked
               else n == |outcomes| && forall j :: k <= j < n ==> !outcomes[j].acked
    decreases |outcomes| - k
  {
    if k < |outcomes| && !outcomes[k].acked {
      MergedStopsAtFirstAck(outcomes, k + 1);
    }
  }

  /** Over all attempts: a message ends acknowledged if and only if some attempt settles it, and
      deliveries stop at the first that does. */
  lemma {:induction false} AckedExactlyWhenSettled(m: Message, attempts: seq<Attempt>)
    requires ValidAttempts(m, attempts)
    ensures Consumed(m, attempts).acked <==> exists k :: 0 <= k < |attempts| && Settles(m, attempts[k])
    ensures var n := Deliveries(Outcomes(m, attempts), 0);
            && n <= |attempts|
            && (forall k :: 0 <= k < n - 1 ==> !Settles(m, attempts[k]))
            && (Consumed(m, attempts).acked ==> 0 < n && Settles(m, attempts[n - 1]))
            && (!Consumed(m, attempts).acked ==> n == |attempts|)
  {
    hide Handled, ValidAttempt, Settles;
    var outcomes := Outcomes(m, attempts);
    forall k | 0 <= k < |attempts| ensures outcomes[k].acked <==> Settles(m, attempts[k]) {
      DeliverySettles(m, attempts[k]);
    }
    MergedStopsAtFirstAck(outcomes, 0);
  }

  /** A message that no attempt settles is delivered five times, and no more. */
  lemma {:induction false} UnsettledIsDeliveredFiveTimes(m: Message, attempts: seq<Attempt>)
    requires |attempts| == 5 && forall k :: 0 <= k < 5 ==> ValidAttempt(m, attempts[k]) && !Settles(m, attempts[k])
    ensures ValidAttempts(m, attempts) && !Consumed(m, attempts).acked
    ensures Deliveries(Outcomes(m, attempts), 0) == 5
    ensures forall more :: ValidAttempts(m, more) ==> Deliveries(Outcomes(m, more), 0) <= 5
  {
    hide ValidAttempt, Settles;
    AckedExactlyWhenSettled(m, attempts);
    forall more | ValidAttempts(m, more) ensures Deliveries(Outcomes(m, more), 0) <= 5 {
      AckedExactlyWhenSettled(m, more);
    }
  }

  // ----- What is stored -----------------------------------------------------------------

  /** A welcome carries the ids of the message; a farewell those of one listed member. */
  ghost predicate Welcomes(n: Notification, p: Payload)
    requires p.user.id.Some? && p.app.id.Some?
  {
    && n.userId == p.user.id.value && n.appId == p.app.id.value
    && n.groupId == Some(IdOrNil(p.group)) && n.orgId == Some(IdOrNil(p.org))
    && n.title == "You joined a group" && n.body == "Welcome! You've been added to a new group."
    && n.data == map["group_id" := Text(p.group.text)]
  }

  ghost predicate Farewells(n: Notification, p: Payload, m: Member) {
    && n.userId == m.userId && n.appId == m.appId
    && n.groupId == p.group.id && n.orgId == Some(IdOrNil(p.org))
    && n.title == "Group ended" && n.body == "The group session has ended."
    && n.data == map["group_id" := Text(p.group.text), "title" := Text("Group ended"),
                     "body" := Text("The group session has ended.")]
  }

  ghost predicate FarewellsSomeone(n: Notification, p: Payload, a: Attempt) {
    a.members.Some? && exists i :: 0 <= i < |a.members.value| && Farewells(n, p, a.members.value[i])
  }

  lemma {:induction false} OnlyRecordOf(cmd: Command, a: Answers, n: Notification)
    requires Saved(n) in Script(cmd, a)
    ensures a.saveOk && n == NewNotification(cmd, a.id)
  {
    ScriptIsOneRecordThenSends(cmd, a);
  }

  lemma {:induction false} DeliveryStores(m: Message, a: Attempt, n: Notification)
    requires ValidAttempt(m, a) && Saved(n) in Handled(m, a).log
    ensures (Joins(m) && Welcomes(n, m.payload.value)) || (Ends(m) && FarewellsSomeone(n, m.payload.value, a))
  {
    if AddsMember(m) {
      OnlyRecordOf(MemberAddedCommand(m.payload.value), a.answers, n);
    } else {
      assert EndsGroup(m) && a.members.Some?;
      var p, members, answers := m.payload.value, a.members.value, a.memberAnswers;
      var log := FanOutLog(p, members, answers, a.schedule);
      var k :| 0 <= k < |log| && log[k].1 == Saved(n);
      FanOutEffectsAreForMembers(p, members, answers, a.schedule, k);
      OnlyRecordOf(MemberCommand(p, members[log[k].0]), answers[log[k].0], n);
      assert Farewells(n, p, members[log[k].0]);
    }
  }

  /** Every record that all the deliveries of a message store is a welcome of the added member, or a
      farewell to a member some delivery listed; any other message stores nothing. */
  lemma {:induction false} RecordsCarryTheMessage(m: Message, attempts: seq<Attempt>, n: Notification)
    requires ValidAttempts(m, attempts) && Saved(n) in Consumed(m, attempts).log
    ensures (Joins(m) && Welcomes(n, m.payload.value))
            || (Ends(m) && exists k :: 0 <= k < |attempts| && FarewellsSomeone(n, m.payload.value, attempts[k]))
  {
    hide Handled, ValidAttempt, Welcomes, FarewellsSomeone;
    MergedFrom(Outcomes(m, attempts), 0, Saved(n));
    var k :| 0 <= k < |attempts| && Saved(n) in Outcomes(m, attempts)[k].log;
    DeliveryStores(m, attempts[k], n);
  }

  // ----- What is broadcast --------------------------------------------------------------

  function Broadcasts(log: seq<Effect>): nat {
    if log == [] then 0 else Broadcasts(log[..|log| - 1]) + (if log[|log| - 1].Broadcast? then 1 else 0)
  }

  lemma {:induction false} BroadcastsAppend(a: seq<Effect>, b: seq<Effect>)
    ensures Broadcasts(a + b) == Broadcasts(a) + Broadcasts(b)
  {
    if b == [] {
      assert a + b == a;
    } else {
      assert (a + b)[..|a + b| - 1] == a + b[..|b| - 1];
      BroadcastsAppend(a, b[..|b| - 1]);
    }
  }

  lemma {:induction false} NoBroadcasts(log: seq<Effect>)
    requires forall k :: 0 <= k < |log| ==> !log[k].Broadcast?
    ensures Broadcasts(log) == 0
  {
    if log != [] {
      NoBroadcasts(log[..|log| - 1]);
    }
  }

  /** The end of a group as its channel hears it. */
  predicate AnnouncesEnd(e: Effect, p: Payload)
    requires p.group.id.Some?
  {
    e == Broadcast("group:" + p.group.id.value,
                   map["group_id" := Text(p.group.text), "title" := Text("Group ended"),
                       "body" := Text("The group session has ended.")])
  }

  lemma {:induction false} OneThenNone(log: seq<Effect>)
    requires log != [] && log[0].Broadcast? && forall k :: 0 < k < |log| ==> !log[k].Broadcast?
    ensures Broadcasts(log) == 1
  {
    assert log == [log[0]] + log[1..] && [log[0]][..0] == [];
    BroadcastsAppend([log[0]], log[1..]);
    NoBroadcasts(log[1..]);
  }

  lemma {:induction false} EndBroadcasts(m: Message, a: Attempt)
    requires ValidAttempt(m, a) && Ends(m)
    ensures Handled(m, a).log != [] && AnnouncesEnd(Handled(m, a).log[0], m.payload.value)
    ensures forall k :: 0 < k < |Handled(m, a).log| ==> !Handled(m, a).log[k].Broadcast?
  {
    var p := m.payload.value;
    forall k | 0 < k < |Handled(m, a).log| ensures !Handled(m, a).log[k].Broadcast? {
      FanOutEffectsAreForMembers(p, a.members.value, a.memberAnswers, a.schedule, k - 1);
    }
  }

  lemma {:induction false} DeliveryBroadcasts(m: Message, a: Attempt)
    requires ValidAttempt(m, a)
    ensures Broadcasts(Handled(m, a).log) == if Ends(m) then 1 else 0
    ensures Ends(m) ==> Handled(m, a).log != [] && AnnouncesEnd(Handled(m, a).log[0], m.payload.value)
    ensures forall k :: 0 < k < |Handled(m, a).log| ==> !Handled(m, a).log[k].Broadcast?
  {
    if Ends(m) {
      EndBroadcasts(m, a);
      hide Handled, ValidAttempt;
      OneThenNone(Handled(m, a).log);
    } else {
      if AddsMember(m) {
        ScriptIsOneRecordThenSends(MemberAddedCommand(m.payload.value), a.answers);
      }
      NoBroadcasts(Handled(m, a).log);
    }
  }

  lemma {:induction false} MergedBroadcasts(outcomes: seq<Outcome>, k: nat, once: bool)
    requires k <= |outcomes|
    requires forall j :: 0 <= j < |outcomes| ==> Broadcasts(outcomes[j].log) == if once then 1 else 0
    ensures k <= Deliveries(outcomes, k)
    ensures Broadcasts(Merged(outcomes, k).log) == if once then Deliveries(outcomes, k) - k else 0
    decreases |outcomes| - k
  {
    if k < |outcomes| && !outcomes[k].acked {
      MergedBroadcasts(outcomes, k + 1, once);
      BroadcastsAppend(outcomes[k].log, Merged(outcomes, k + 1).log);
    }
    hide Broadcasts;
  }

  lemma {:induction false} SomeBroadcast(log: seq<Effect>, k: nat)
    requires k < |log| && log[k].Broadcast?
    ensures Broadcasts(log) > 0
  {
    if k < |log| - 1 {
      SomeBroadcast(log[..|log| - 1], k);
    }
  }

  lemma {:induction false} BroadcastIsAnnouncement(m: Message, a: Attempt, e: Effect)
    requires ValidAttempt(m, a) && e in Handled(m, a).log && e.Broadcast?
    ensures Ends(m) && AnnouncesEnd(e, m.payload.value)
  {
    hide Handled, ValidAttempt, AnnouncesEnd;
    DeliveryBroadcasts(m, a);
    var k :| 0 <= k < |Handled(m, a).log| && Handled(m, a).log[k] == e;
    SomeBroadcast(Handled(m, a).log, k);
  }

  /** The end of a group is broadcast once per delivery, to the group's channel and with the title and
      body beside the group's id; no other message is broadcast. */
  lemma {:induction false} BroadcastOncePerDelivery(m: Message, attempts: seq<Attempt>)
    requires ValidAttempts(m, attempts)
    ensures Broadcasts(Consumed(m, attempts).log) == if Ends(m) then Deliveries(Outcomes(m, attempts), 0) else 0
    ensures forall e :: e in Consumed(m, attempts).log && e.Broadcast? ==> Ends(m) && AnnouncesEnd(e, m.payload.value)
  {
    hide Handled, ValidAttempt, AnnouncesEnd, Broadcasts;
    var outcomes := Outcomes(m, attempts);
    forall j | 0 <= j < |outcomes| ensures Broadcasts(outcomes[j].log) == if Ends(m) then 1 else 0 {
      DeliveryBroadcasts(m, attempts[j]);
    }
    MergedBroadcasts(outcomes, 0, Ends(m));
    forall e | e in Consumed(m, attempts).log && e.Broadcast? ensures Ends(m) && AnnouncesEnd(e, m.payload.value) {
      MergedFrom(outcomes, 0, e);
      var k :| 0 <= k < |attempts| && e in outcomes[k].log;
      BroadcastIsAnnouncement(m, attempts[k], e);
    }
  }
}
