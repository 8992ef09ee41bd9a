/** Group events from the durable consumer: decoding, the two handlers, and redelivery after a Nak
    up to the consumer's limit. */
module Delivery {
  import opened Constants
  import opened Wrappers
  import opened Notifications
  import Fan = FanOut

  const MAX_DELIVER := 5
  const MEMBER_ADDED := "org.group.member_added"
  const GROUP_DELETED := "org.group.deleted"

  /** An id field of the payload: its text, and what parsing it yields. */
  datatype Field = Field(text: string, id: Option<string>) {
    /** The parsed id; when parsing fails and the error is dropped, the nil id. */
    function OrNil(): string {
      if id.Some? then id.value else NIL_ID
    }
  }

  datatype Payload = Payload(group: Field, org: Field, app: Field, user: Field)

  /** A message: not an envelope at all, or an envelope whose data may fail to decode. */
  datatype Message = Malformed | Envelope(eventType: string, payload: Option<Payload>)

  datatype Member = Member(userId: string, appId: string)

  /** What the ports answer during one delivery. For a deleted group also the member list
      (`None` being an error), the answers each member's worker gets, and the interleaving. */
  datatype Attempt = Attempt(
    answers: Answers, members: Option<seq<Member>>, memberAnswers: seq<Answers>, schedule: seq<Fan.Step>)

  /** What a delivery did, and whether it is acknowledged. */
  datatype Outcome = Outcome(log: seq<Effect>, acked: bool)

  // ----- The commands the handlers build ------------------------------------------------

  function MemberAddedCommand(p: Payload): Command
    requires p.user.id.Some? && p.app.id.Some?
  {
    Command(p.user.id.value, p.app.id.value, Some(p.group.OrNil()), Some(p.org.OrNil()), MEMBER_ADDED,
            "You joined a group", "Welcome! You've been added to a new group.",
            Some(map["group_id" := Text(p.group.text)]))
  }

  /** The data `SendToGroup` is called with, after it has written the title and body into it:
      the map is shared, so the members' commands carry both as well. */
  function GroupData(p: Payload): Data {
    map["group_id" := Text(p.group.text), "title" := Text("Group ended"), "body" := Text("The group session has ended.")]
  }

  function MemberCommand(p: Payload, m: Member): Command
    requires p.group.id.Some?
  {
    Command(m.userId, m.appId, p.group.id, Some(p.org.OrNil()), GROUP_DELETED,
            "Group ended", "The group session has ended.", Some(GroupData(p)))
  }

  function Scripts(p: Payload, members: seq<Member>, answers: seq<Answers>): seq<seq<Effect>>
    requires p.group.id.Some? && |members| == |answers|
  {
    seq(|members|, i requires 0 <= i < |members| => Script(MemberCommand(p, members[i]), answers[i]))
  }

  function Effects(log: seq<(nat, Effect)>): seq<Effect> {
    seq(|log|, k requires 0 <= k < |log| => log[k].1)
  }

  // ----- One delivery -------------------------------------------------------------------

  /** The messages the handlers act on; every other one is acknowledged without effect. */
  predicate AddsMember(m: Message) {
    m.Envelope? && m.eventType == MEMBER_ADDED && m.payload.Some?
    && m.payload.value.user.id.Some? && m.payload.value.app.id.Some?
  }

  predicate EndsGroup(m: Message) {
    m.Envelope? && m.eventType == GROUP_DELETED && m.payload.Some?
    && m.payload.value.group.id.Some? && m.payload.value.app.id.Some?
  }

  /** The attempt supplies an answer per listed member and a schedule that runs the fan-out to
      its end; the list holds each user once. */
  ghost predicate ValidAttempt(m: Message, a: Attempt) {
    EndsGroup(m) && a.members.Some? ==>
      var members := a.members.value;
      && |a.memberAnswers| == |members|
      && (forall i, j :: 0 <= i < j < |members| ==> members[i].userId != members[j].userId)
      && Fan.Completes(Scripts(m.payload.value, members, a.memberAnswers), a.schedule)
  }

  ghost function FanOutLog(p: Payload, members: seq<Member>, answers: seq<Answers>, schedule: seq<Fan.Step>): seq<(nat, Effect)>
    requires p.group.id.Some? && |members| == |answers|
    requires Fan.Legal(Scripts(p, members, answers), schedule)
  {
    Fan.Run(Scripts(p, members, answers), schedule).log
  }

  ghost function GroupBroadcast(p: Payload): Effect
    requires p.group.id.Some?
  {
    Broadcast("group:" + p.group.id.value, GroupData(p))
  }

  ghost function Handled(m: Message, a: Attempt): Outcome
    requires ValidAttempt(m, a)
  {
    if AddsMember(m) then
      Outcome(Script(MemberAddedCommand(m.payload.value), a.answers), a.answers.saveOk)
    else if EndsGroup(m) then
      var p := m.payload.value;
      if a.members.None? then Outcome([GroupBroadcast(p)], false)
      else Outcome([GroupBroadcast(p)] + Effects(FanOutLog(p, a.members.value, a.memberAnswers, a.schedule)), true)
    else
      Outcome([], true)
  }

  // ----- The subscriber -----------------------------------------------------------------

  class Subscriber {
    const notification: NotificationService

    constructor ()
      ensures fresh(notification) && notification.log == []
    {
      notification := new NotificationService();
    }

    method Handle(m: Message, a: Attempt) returns (ok: bool)
      requires ValidAttempt(m, a)
      modifies notification
      ensures notification.log == old(notification.log) + Handled(m, a).log
      ensures ok == Handled(m, a).acked
    {
      if m.Malformed? {
        return true;
      }
      if m.eventType == MEMBER_ADDED {
        ok := HandleMemberAdded(m, a);
      } else if m.eventType == GROUP_DELETED {
        ok := HandleGroupDeleted(m, a);
      } else {
        ok := true;
      }
    }

    method HandleMemberAdded(m: Message, a: Attempt) returns (ok: bool)
      requires ValidAttempt(m, a) && m.Envelope? && m.eventType == MEMBER_ADDED
      modifies notification
      ensures notification.log == old(notification.log) + Handled(m, a).log
      ensures ok == Handled(m, a).acked
    {
      if m.payload.None? || m.payload.value.user.id.None? || m.payload.value.app.id.None? {
        return true;
      }
      var r := notification.SendToUser(MemberAddedCommand(m.payload.value), a.answers);
      ok := r.Success?;
    }

    method HandleGroupDeleted(m: Message, a: Attempt) returns (ok: bool)
      requires ValidAttempt(m, a) && m.Envelope? && m.eventType == GROUP_DELETED
      modifies notification
      ensures notification.log == old(notification.log) + Handled(m, a).log
      ensures ok == Handled(m, a).acked
    {
      if m.payload.None? || m.payload.value.group.id.None? || m.payload.value.app.id.None? {
        return true;
      }
      var r := SendToGroup(m.payload.value, m, a);
      ok := r.Success?;
    }

    /** Broadcasts, lists the members, and fans out. */
    method SendToGroup(p: Payload, ghost m: Message, a: Attempt) returns (r: Result<(), Error>)
      requires EndsGroup(m) && p == m.payload.value && ValidAttempt(m, a)
      modifies notification
      ensures notification.log == old(notification.log) + Handled(m, a).log
      ensures r.Success? == Handled(m, a).acked
    {
      var data: Data := map["group_id" := Text(p.group.text)];
      data := data["title" := Text("Group ended")];
      data := data["body" := Text("The group session has ended.")];
      assert data == GroupData(p);
      notification.log := notification.log + [Broadcast("group:" + p.group.id.value, data)];
      if a.members.None? {
        return Failure(ListMembersFailed);
      }
      RunFanOut(Scripts(p, a.members.value, a.memberAnswers), a.schedule);
      return Success(());
    }

    /** The scheduler picks the next step of the spawn loop or of a worker. */
    method RunFanOut(scripts: seq<seq<Effect>>, schedule: seq<Fan.Step>)
      requires Fan.Legal(scripts, schedule)
      modifies notification
      ensures notification.log == old(notification.log) + Effects(Fan.Run(scripts, schedule).log)
    {
      var s := Fan.Start();
      for k := 0 to |schedule|
        invariant Fan.Legal(scripts, schedule[..k]) && s == Fan.Run(scripts, schedule[..k])
        invariant notification.log == old(notification.log) + Effects(s.log)
      {
        LegalPrefix(scripts, schedule, k + 1);
        assert schedule[..k + 1][..k] == schedule[..k];
        var before := |s.log|;
        s := Fan.Apply(scripts, s, schedule[k]);
        if |s.log| > before {
          notification.log := notification.log + [s.log[before].1];
        }
      }
      assert schedule[..|schedule|] == schedule;
    }
  }

  lemma {:induction false} LegalPrefix<E>(scripts: seq<seq<E>>, schedule: seq<Fan.Step>, k: nat)
    requires Fan.Legal(scripts, schedule) && k <= |schedule|
    ensures Fan.Legal(scripts, schedule[..k])
    decreases |schedule|
  {
    if k < |schedule| {
      LegalPrefix(scripts, schedule[..|schedule| - 1], k);
      assert schedule[..|schedule| - 1][..k] == schedule[..k];
    } else {
      assert schedule[..k] == schedule;
    }
  }

  // ----- Redelivery ---------------------------------------------------------------------

  ghost predicate ValidAttempts(m: Message, attempts: seq<Attempt>) {
    |attempts| <= MAX_DELIVER && forall k :: 0 <= k < |attempts| ==> ValidAttempt(m, attempts[k])
  }

  /** What each delivery would do, were it made. */
  ghost function Outcomes(m: Message, attempts: seq<Attempt>): seq<Outcome>
    requires ValidAttempts(m, attempts)
  {
    seq(|attempts|, k requires 0 <= k < |attempts| => Handled(m, attempts[k]))
  }

  /** The number of deliveries made, once the first `k` have ended in a Nak: the first Ack ends
      them, and so does the limit. */
  function Deliveries(outcomes: seq<Outcome>, k: nat): nat
    requires k <= |outcomes|
    decreases |outcomes| - k
  {
    if k == |outcomes| then k
    else if outcomes[k].acked then k + 1
    else Deliveries(outcomes, k + 1)
  }

  /** What deliveries `k` onwards make together. */
  function Merged(outcomes: seq<Outcome>, k: nat): Outcome
    requires k <= |outcomes|
    decreases |outcomes| - k
  {
    if k == |outcomes| then Outcome([], false)
    else if outcomes[k].acked then outcomes[k]
    else
      var rest := Merged(outcomes, k + 1);
      Outcome(outcomes[k].log + rest.log, rest.acked)
  }

  /** Everything the broker's redelivery makes of one message. */
  ghost function Consumed(m: Message, attempts: seq<Attempt>): Outcome
    requires ValidAttempts(m, attempts)
  {
    Merged(Outcomes(m, attempts), 0)
  }

  /** After `k` Naks that left `done`, the rest of the outcomes completes the merge. */
  ghost predicate StillToMerge(outcomes: seq<Outcome>, k: nat, done: seq<Effect>) {
    && k <= |outcomes|
    && Merged(outcomes, 0) == Outcome(done + Merged(outcomes, k).log, Merged(outcomes, k).acked)
    && Deliveries(outcomes, 0) == Deliveries(outcomes, k)
  }

  lemma {:induction false} MergedStep(outcomes: seq<Outcome>, k: nat, done: seq<Effect>)
    requires k < |outcomes| && StillToMerge(outcomes, k, done)
    ensures if outcomes[k].acked
            then Merged(outcomes, 0) == Outcome(done + outcomes[k].log, true) && Deliveries(outcomes, 0) == k + 1
            else StillToMerge(outcomes, k + 1, done + outcomes[k].log)
  {
    if !outcomes[k].acked {
      var rest := Merged(outcomes, k + 1).log;
      assert done + (outcomes[k].log + rest) == (done + outcomes[k].log) + rest;
    }
  }

  /** The consume callback, called again while it Naks and deliveries remain. */
  method Consume(subscriber: Subscriber, m: Message, attempts: seq<Attempt>) returns (acked: bool, deliveries: nat)
    requires ValidAttempts(m, attempts)
    modifies subscriber.notification
    ensures subscriber.notification.log == old(subscriber.notification.log) + Consumed(m, attempts).log
    ensures acked == Consumed(m, attempts).acked
    ensures deliveries == Deliveries(Outcomes(m, attempts), 0) <= 5
  {
    acked, deliveries := Redeliver(subscriber, m, attempts, Outcomes(m, attempts));
  }

  method Redeliver(subscriber: Subscriber, m: Message, attempts: seq<Attempt>, ghost outcomes: seq<Outcome>)
    returns (acked: bool, deliveries: nat)
    requires |outcomes| == |attempts|
    requires forall k {:trigger attempts[k]} :: 0 <= k < |attempts| ==>
               ValidAttempt(m, attempts[k]) && Handled(m, attempts[k]) == outcomes[k]
    modifies subscriber.notification
    ensures subscriber.notification.log == old(subscriber.notification.log) + Merged(outcomes, 0).log
    ensures acked == Merged(outcomes, 0).acked
    ensures deliveries == Deliveries(outcomes, 0) <= |attempts|
  {
    hide Handled, ValidAttempt;
    ghost var start, done := subscriber.notification.log, [];
    acked, deliveries := false, 0;
    assert done + Merged(outcomes, 0).log == Merged(outcomes, 0).log;
    while !acked && deliveries < |attempts|
      invariant deliveries <= |attempts|
      invariant subscriber.notification.log == start + done
      invariant if acked then Merged(outcomes, 0) == Outcome(done, true) && deliveries == Deliveries(outcomes, 0)
                else StillToMerge(outcomes, deliveries, done)
      decreases |attempts| - deliveries
    {
      MergedStep(outcomes, deliveries, done);
      acked := subscriber.Handle(m, attempts[deliveries]);
      assert subscriber.notification.log == start + (done + outcomes[deliveries].log);
      done := done + outcomes[deliveries].log;
      deliveries := deliveries + 1;
    }
    assert done + [] == done;
  }

  // ----- A Nak leaves nothing behind but the broadcast ----------------------------------

  ghost predicate OnlyBroadcasts(log: seq<Effect>) {
    forall k :: 0 <= k < |log| ==> log[k].Broadcast?
  }

  lemma {:induction false} NakStoresAndSendsNothing(m: Message, a: Attempt)
    requires ValidAttempt(m, a) && !Handled(m, a).acked
    ensures OnlyBroadcasts(Handled(m, a).log)
    ensures |Handled(m, a).log| <= 1
  {
  }

  /** What the deliveries from `k` on that ended in a Nak did. */
  ghost function BeforeAck(outcomes: seq<Outcome>, k: nat): seq<Effect>
    requires k <= |outcomes|
    decreases |outcomes| - k
  {
    if k == |outcomes| || outcomes[k].acked then []
    else outcomes[k].log + BeforeAck(outcomes, k + 1)
  }

  lemma {:induction false} MergedIsNaksThenAck(outcomes: seq<Outcome>, k: nat)
    requires k <= |outcomes|
    requires forall j :: 0 <= j < |outcomes| && !outcomes[j].acked ==>
               OnlyBroadcasts(outcomes[j].log) && |outcomes[j].log| <= 1
    ensures OnlyBroadcasts(BeforeAck(outcomes, k))
    ensures var n := Deliveries(outcomes, k);
            if Merged(outcomes, k).acked then
              && k < n <= |outcomes| && outcomes[n - 1].acked
              && |BeforeAck(outcomes, k)| < n - k
              && Merged(outcomes, k).log == BeforeAck(outcomes, k) + outcomes[n - 1].log
            else
              && n == |outcomes|
              && |BeforeAck(outcomes, k)| <= n - k
              && Merged(outcomes, k).log == BeforeAck(outcomes, k)
    decreases |outcomes| - k
  {
    if k < |outcomes| && !outcomes[k].acked {
      MergedIsNaksThenAck(outcomes, k + 1);
      if Merged(outcomes, k).acked {
        var before, last := BeforeAck(outcomes, k + 1), outcomes[Deliveries(outcomes, k) - 1].log;
        assert outcomes[k].log + (before + last) == (outcomes[k].log + before) + last;
      }
    }
  }

  /** Only the acknowledged delivery can store or send, and it is the last; what came before it is
      broadcasts, at most one per delivery. Without an Ack all the attempts were used up. */
  lemma {:induction false} OnlyTheAckedDeliveryActs(m: Message, attempts: seq<Attempt>)
    requires ValidAttempts(m, attempts)
    ensures var before, n := BeforeAck(Outcomes(m, attempts), 0), Deliveries(Outcomes(m, attempts), 0);
            && OnlyBroadcasts(before)
            && if Consumed(m, attempts).acked then
                 && 0 < n <= |attempts| && |before| < n
                 && Consumed(m, attempts).log == before + Handled(m, attempts[n - 1]).log
               else
                 && n == |attempts| && |before| <= n
                 && Consumed(m, attempts).log == before
  {
    hide Handled, ValidAttempt;
    var outcomes := Outcomes(m, attempts);
    forall k | 0 <= k < |outcomes| && !outcomes[k].acked
      ensures OnlyBroadcasts(outcomes[k].log) && |outcomes[k].log| <= 1
    {
      NakStoresAndSendsNothing(m, attempts[k]);
    }
    MergedIsNaksThenAck(outcomes, 0);
  }

  // ----- Records per user ---------------------------------------------------------------

  lemma {:induction false} RecordsOfMember(log: seq<(nat, Effect)>, i: nat, userId: string)
    requires forall k :: 0 <= k < |log| && log[k].0 != i ==> !IsFor(log[k].1, userId)
    ensures RecordsFor(Effects(log), userId) == RecordsFor(Fan.Of(log, i), userId)
  {
    if log != [] {
      var before, last := log[..|log| - 1], log[|log| - 1];
      RecordsOfMember(before, i, userId);
      assert Effects(log) == Effects(before) + [last.1];
      RecordsForAppend(Effects(before), [last.1], userId);
      SingleRecord(last.1, userId);
      if last.0 == i {
        RecordsForAppend(Fan.Of(before, i), [last.1], userId);
      } else {
        assert Fan.Of(log, i) == Fan.Of(before, i);
      }
    }
  }

  lemma {:induction false} LoggedIsScripted<E>(log: seq<(nat, E)>, k: nat)
    requires k < |log|
    ensures log[k].1 in Fan.Of(log, log[k].0)
  {
    if k < |log| - 1 {
      LoggedIsScripted(log[..|log| - 1], k);
    }
  }

  /** Each effect of a finished fan-out is for the member whose worker caused it. */
  lemma {:induction false} FanOutEffectsAreForMembers(
      p: Payload, members: seq<Member>, answers: seq<Answers>, schedule: seq<Fan.Step>, k: nat)
    requires p.group.id.Some? && |members| == |answers|
    requires Fan.Completes(Scripts(p, members, answers), schedule)
    requires k < |FanOutLog(p, members, answers, schedule)|
    ensures var (i, e) := FanOutLog(p, members, answers, schedule)[k];
            i < |members| && IsFor(e, members[i].userId) && e in Script(MemberCommand(p, members[i]), answers[i])
  {
    var scripts := Scripts(p, members, answers);
    Fan.CompletionIsExact(scripts, schedule);
    var log := FanOutLog(p, members, answers, schedule);
    LoggedIsScripted(log, k);
    var i := log[k].0;
    assert Fan.Of(log, i) == scripts[i];
    ScriptIsOneRecordThenSends(MemberCommand(p, members[i]), answers[i]);
  }

  /** Did this delivery store a record for the user: it was the added member, or a listed member,
      and that save succeeded. */
  ghost predicate Stores(m: Message, a: Attempt, userId: string)
    requires ValidAttempt(m, a)
  {
    if AddsMember(m) then m.payload.value.user.id.value == userId && a.answers.saveOk
    else if EndsGroup(m) && a.members.Some? then
      exists i :: 0 <= i < |a.members.value| && a.members.value[i].userId == userId && a.memberAnswers[i].saveOk
    else false
  }

  lemma {:induction false} FanOutRecords(
      p: Payload, members: seq<Member>, answers: seq<Answers>, schedule: seq<Fan.Step>, i: nat)
    requires p.group.id.Some? && |members| == |answers| && i < |members|
    requires forall j, k :: 0 <= j < k < |members| ==> members[j].userId != members[k].userId
    requires Fan.Completes(Scripts(p, members, answers), schedule)
    ensures RecordsFor(Effects(FanOutLog(p, members, answers, schedule)), members[i].userId)
         == if answers[i].saveOk then 1 else 0
  {
    var log, userId := FanOutLog(p, members, answers, schedule), members[i].userId;
    forall k | 0 <= k < |log| && log[k].0 != i ensures !IsFor(log[k].1, userId) {
      FanOutEffectsAreForMembers(p, members, answers, schedule, k);
    }
    RecordsOfMember(log, i, userId);
    Fan.CompletionIsExact(Scripts(p, members, answers), schedule);
    ScriptIsOneRecordThenSends(MemberCommand(p, members[i]), answers[i]);
  }

  lemma {:induction false} NoRecordsForOthers(
      p: Payload, members: seq<Member>, answers: seq<Answers>, schedule: seq<Fan.Step>, userId: string)
    requires p.group.id.Some? && |members| == |answers|
    requires Fan.Completes(Scripts(p, members, answers), schedule)
    requires forall j :: 0 <= j < |members| ==> members[j].userId != userId
    ensures RecordsFor(Effects(FanOutLog(p, members, answers, schedule)), userId) == 0
  {
    var log := FanOutLog(p, members, answers, schedule);
    forall k | 0 <= k < |log| ensures !(log[k].1.Saved? && log[k].1.n.userId == userId) {
      FanOutEffectsAreForMembers(p, members, answers, schedule, k);
    }
    NoRecords(Effects(log), userId);
  }

  lemma {:induction false} GroupDeliveryRecords(m: Message, a: Attempt, userId: string)
    requires ValidAttempt(m, a) && EndsGroup(m) && a.members.Some?
    ensures RecordsFor(Handled(m, a).log, userId) == if Stores(m, a, userId) then 1 else 0
  {
    var p, members, answers := m.payload.value, a.members.value, a.memberAnswers;
    RecordsForAppend([GroupBroadcast(p)], Effects(FanOutLog(p, members, answers, a.schedule)), userId);
    SingleRecord(GroupBroadcast(p), userId);
    if i :| 0 <= i < |members| && members[i].userId == userId {
      FanOutRecords(p, members, answers, a.schedule, i);
    } else {
      NoRecordsForOthers(p, members, answers, a.schedule, userId);
    }
  }

  lemma {:induction false} DeliveryRecords(m: Message, a: Attempt, userId: string)
    requires ValidAttempt(m, a)
    ensures RecordsFor(Handled(m, a).log, userId) == if Stores(m, a, userId) then 1 else 0
    ensures Stores(m, a, userId) ==> Handled(m, a).acked
  {
    if AddsMember(m) {
      var cmd := MemberAddedCommand(m.payload.value);
      ScriptIsOneRecordThenSends(cmd, a.answers);
      if cmd.userId != userId {
        NoRecords(Script(cmd, a.answers), userId);
      }
    } else if EndsGroup(m) && a.members.Some? {
      GroupDeliveryRecords(m, a, userId);
    } else {
      NoRecords(Handled(m, a).log, userId);
    }
  }

  lemma {:induction false} MergedRecords(outcomes: seq<Outcome>, k: nat, userId: string)
    requires k <= |outcomes|
    requires forall j :: 0 <= j < |outcomes| && !outcomes[j].acked ==> RecordsFor(outcomes[j].log, userId) == 0
    ensures var n := Deliveries(outcomes, k);
            if Merged(outcomes, k).acked then
              && k < n <= |outcomes| && outcomes[n - 1].acked
              && RecordsFor(Merged(outcomes, k).log, userId) == RecordsFor(outcomes[n - 1].log, userId)
            else
              RecordsFor(Merged(outcomes, k).log, userId) == 0
    decreases |outcomes| - k
  {
    if k < |outcomes| && !outcomes[k].acked {
      MergedRecords(outcomes, k + 1, userId);
      RecordsForAppend(outcomes[k].log, Merged(outcomes, k + 1).log, userId);
    }
  }

  /** Across all deliveries of one message a user gets at most one record, and gets it exactly when
      the acknowledged delivery stored it. A save that fails inside an acknowledged fan-out is
      therefore never made up for. */
  lemma {:induction false} AtMostOneRecordPerUser(m: Message, attempts: seq<Attempt>, userId: string)
    requires ValidAttempts(m, attempts)
    ensures RecordsFor(Consumed(m, attempts).log, userId) <= 1
    ensures var n := Deliveries(Outcomes(m, attempts), 0);
            RecordsFor(Consumed(m, attempts).log, userId) == 1 <==>
            Consumed(m, attempts).acked && 0 < n <= |attempts| && Stores(m, attempts[n - 1], userId)
  {
    hide Handled, ValidAttempt, Stores;
    var outcomes := Outcomes(m, attempts);
    forall k | 0 <= k < |outcomes|
      ensures RecordsFor(outcomes[k].log, userId) == if Stores(m, attempts[k], userId) then 1 else 0
      ensures !outcomes[k].acked ==> !Stores(m, attempts[k], userId)
    {
      DeliveryRecords(m, attempts[k], userId);
    }
    MergedRecords(outcomes, 0, userId);
  }

  lemma {:induction false} AckedMemberIsStored(m: Message, attempts: seq<Attempt>)
    requires AddsMember(m) && ValidAttempts(m, attempts) && Consumed(m, attempts).acked
    ensures var n := Deliveries(Outcomes(m, attempts), 0);
            0 < n <= |attempts| && Stores(m, attempts[n - 1], m.payload.value.user.id.value)
  {
    var outcomes := Outcomes(m, attempts);
    forall k | 0 <= k < |outcomes| && !outcomes[k].acked
      ensures OnlyBroadcasts(outcomes[k].log) && |outcomes[k].log| <= 1
    {
      NakStoresAndSendsNothing(m, attempts[k]);
    }
    MergedIsNaksThenAck(outcomes, 0);
  }

  /** For a new member the Ack itself is the promise: acknowledged means recorded exactly once. */
  lemma {:induction false} AckedMemberIsRecorded(m: Message, attempts: seq<Attempt>)
    requires AddsMember(m) && ValidAttempts(m, attempts)
    ensures RecordsFor(Consumed(m, attempts).log, m.payload.value.user.id.value)
         == if Consumed(m, attempts).acked then 1 else 0
  {
    AtMostOneRecordPerUser(m, attempts, m.payload.value.user.id.value);
    if Consumed(m, attempts).acked {
      AckedMemberIsStored(m, attempts);
    }
  }

  /** The handlers put no address into the data, so no delivery of any message emails anyone. */
  lemma {:induction false} HandledNeverEmails(m: Message, a: Attempt)
    requires ValidAttempt(m, a)
    ensures forall k :: 0 <= k < |Handled(m, a).log| ==> !Handled(m, a).log[k].EmailSent?
  {
    if AddsMember(m) {
      EmailExactlyWhenAddressed(MemberAddedCommand(m.payload.value), a.answers);
    } else if EndsGroup(m) && a.members.Some? {
      var p, members, answers := m.payload.value, a.members.value, a.memberAnswers;
      var log := FanOutLog(p, members, answers, a.schedule);
      forall k | 0 <= k < |log| ensures !log[k].1.EmailSent? {
        FanOutEffectsAreForMembers(p, members, answers, a.schedule, k);
        EmailExactlyWhenAddressed(MemberCommand(p, members[log[k].0]), answers[log[k].0]);
      }
    }
  }

  lemma {:induction false} MergedFrom(outcomes: seq<Outcome>, k: nat, e: Effect)
    requires k <= |outcomes| && e in Merged(outcomes, k).log
    ensures exists j :: k <= j < |outcomes| && e in outcomes[j].log
    decreases |outcomes| - k
  {
    if !outcomes[k].acked && e !in outcomes[k].log {
      MergedFrom(outcomes, k + 1, e);
    }
  }

  lemma {:induction false} ConsumedNeverEmails(m: Message, attempts: seq<Attempt>)
    requires ValidAttempts(m, attempts)
    ensures forall e :: e in Consumed(m, attempts).log ==> !e.EmailSent?
  {
    forall e | e in Consumed(m, attempts).log ensures !e.EmailSent? {
      MergedFrom(Outcomes(m, attempts), 0, e);
      var k :| 0 <= k < |attempts| && e in Outcomes(m, attempts)[k].log;
      HandledNeverEmails(m, attempts[k]);
    }
  }
}
