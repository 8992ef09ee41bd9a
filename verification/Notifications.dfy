/** `SendToUser`: one record, then push and email by preference. What the ports answer comes in as
    `Answers`; what the service does to the outside world is a log of effects. */
module Notifications {
  import opened Wrappers

  /** A JSON value of a notification's data: a string, or anything else. */
  datatype Json = Text(text: string) | Other

  type Data = map<string, Json>

  datatype DeviceToken = DeviceToken(token: string, tokenType: string, platform: string)

  datatype Command = Command(
    userId: string, appId: string, groupId: Option<string>, orgId: Option<string>,
    eventType: string, title: string, body: string, data: Option<Data>)

  datatype Notification = Notification(
    id: string, userId: string, appId: string, groupId: Option<string>, orgId: Option<string>,
    title: string, body: string, data: Data)

  /** What one call is told: the fresh id, whether the save succeeds, and the answers of the
      preference and device lookups, `None` being an error. */
  datatype Answers = Answers(
    id: string, saveOk: bool, pushEnabled: Option<bool>, tokens: Option<seq<DeviceToken>>, emailEnabled: Option<bool>)

  /** Sends are attempts: their errors are logged and dropped. */
  datatype Effect =
    | Broadcast(channel: string, payload: Data)
    | Saved(n: Notification)
    | PushSent(recipient: string, device: DeviceToken, title: string, body: string, data: map<string, string>)
    | EmailSent(recipient: string, to: string, subject: string, body: string)

  datatype Error = SaveFailed | ListMembersFailed

  // ----- Specification ------------------------------------------------------------------

  function NewNotification(cmd: Command, id: string): Notification {
    Notification(id, cmd.userId, cmd.appId, cmd.groupId, cmd.orgId, cmd.title, cmd.body,
                 if cmd.data.Some? then cmd.data.value else map[])
  }

  /** The string-valued data, plus the notification's id. */
  function PushData(n: Notification): map<string, string> {
    (map k | k in n.data && n.data[k].Text? :: n.data[k].text)["notification_id" := n.id]
  }

  function PushTo(n: Notification, device: DeviceToken): Effect {
    PushSent(n.userId, device, n.title, n.body, PushData(n))
  }

  function Pushes(n: Notification, a: Answers): seq<Effect> {
    if a.pushEnabled == Some(true) && a.tokens.Some?
    then seq(|a.tokens.value|, i requires 0 <= i < |a.tokens.value| => PushTo(n, a.tokens.value[i]))
    else []
  }

  function EmailAddress(n: Notification): string {
    if "email" in n.data && n.data["email"].Text? then n.data["email"].text else ""
  }

  function Emails(n: Notification, a: Answers): seq<Effect> {
    if a.emailEnabled == Some(true) && EmailAddress(n) != ""
    then [EmailSent(n.userId, EmailAddress(n), n.title, n.body)]
    else []
  }

  /** Everything one `SendToUser` call does, in order. */
  function Script(cmd: Command, a: Answers): seq<Effect> {
    if a.saveOk then
      var n := NewNotification(cmd, a.id);
      [Saved(n)] + Pushes(n, a) + Emails(n, a)
    else
      []
  }

  // ----- The service --------------------------------------------------------------------

  class NotificationService {
    /** What the ports have been asked to do so far. */
    var log: seq<Effect>

    constructor ()
      ensures log == []
    {
      log := [];
    }

    method SendToUser(cmd: Command, a: Answers) returns (r: Result<Notification, Error>)
      modifies this
      ensures log == old(log) + Script(cmd, a)
      ensures r == if a.saveOk then Success(NewNotification(cmd, a.id)) else Failure(SaveFailed)
    {
      var n := Notification(a.id, cmd.userId, cmd.appId, None, None, cmd.title, cmd.body, map[]);
      n := n.(groupId := cmd.groupId, orgId := cmd.orgId);
      if cmd.data.Some? {
        n := n.(data := cmd.data.value);
      }
      if !a.saveOk {
        return Failure(SaveFailed);
      }
      log := log + [Saved(n)];
      TryPush(n, a);
      TryEmail(n, a);
      return Success(n);
    }

    method TryPush(n: Notification, a: Answers)
      modifies this
      ensures log == old(log) + Pushes(n, a)
    {
      if a.pushEnabled.None? || !a.pushEnabled.value {
        return;
      }
      if a.tokens.None? {
        return;
      }
      var data := BuildPushData(n);
      var tokens := a.tokens.value;
      for i := 0 to |tokens|
        invariant log == old(log) + Pushes(n, a)[..i]
      {
        log := log + [PushSent(n.userId, tokens[i], n.title, n.body, data)];
      }
    }

    method BuildPushData(n: Notification) returns (data: map<string, string>)
      ensures data == PushData(n)
    {
      data := map[];
      var keys := n.data.Keys;
      while keys != {}
        invariant keys <= n.data.Keys
        invariant data == map k | k in n.data.Keys - keys && n.data[k].Text? :: n.data[k].text
      {
        var k :| k in keys;
        if n.data[k].Text? {
          data := data[k := n.data[k].text];
        }
        keys := keys - {k};
      }
      data := data["notification_id" := n.id];
    }

    method TryEmail(n: Notification, a: Answers)
      modifies this
      ensures log == old(log) + Emails(n, a)
    {
      if a.emailEnabled.None? || !a.emailEnabled.value {
        return;
      }
      var address := EmailAddress(n);
      if address == "" {
        return;
      }
      log := log + [EmailSent(n.userId, address, n.title, n.body)];
    }
  }

  // ----- What a script can contain ------------------------------------------------------

  ghost predicate IsFor(e: Effect, userId: string) {
    match e
    case Broadcast(_, _) => false
    case Saved(n) => n.userId == userId
    case PushSent(recipient, _, _, _, _) => recipient == userId
    case EmailSent(recipient, _, _, _) => recipient == userId
  }

  /** Records stored for a user. */
  ghost function RecordsFor(log: seq<Effect>, userId: string): nat {
    if log == [] then 0
    else
      RecordsFor(log[..|log| - 1], userId)
      + (if log[|log| - 1].Saved? && log[|log| - 1].n.userId == userId then 1 else 0)
  }

  lemma {:induction false} RecordsForAppend(a: seq<Effect>, b: seq<Effect>, userId: string)
    ensures RecordsFor(a + b, userId) == RecordsFor(a, userId) + RecordsFor(b, userId)
  {
    if b == [] {
      assert a + b == a;
    } else {
      assert (a + b)[..|a + b| - 1] == a + b[..|b| - 1];
      RecordsForAppend(a, b[..|b| - 1], userId);
    }
  }

  lemma {:induction false} NoRecords(log: seq<Effect>, userId: string)
    requires forall k :: 0 <= k < |log| ==> !(log[k].Saved? && log[k].n.userId == userId)
    ensures RecordsFor(log, userId) == 0
  {
    if log != [] {
      NoRecords(log[..|log| - 1], userId);
    }
  }

  lemma {:induction false} SingleRecord(e: Effect, userId: string)
    ensures RecordsFor([e], userId) == if e.Saved? && e.n.userId == userId then 1 else 0
  {
    assert [e][..0] == [];
  }

  lemma {:induction false} SendsAfterSave(cmd: Command, a: Answers, k: nat)
    requires a.saveOk && 0 < k < |Script(cmd, a)|
    ensures Script(cmd, a)[k].PushSent? || Script(cmd, a)[k].EmailSent?
    ensures IsFor(Script(cmd, a)[k], cmd.userId)
  {
    var n := NewNotification(cmd, a.id);
    if k <= |Pushes(n, a)| {
      assert Script(cmd, a)[k] == Pushes(n, a)[k - 1] == PushTo(n, a.tokens.value[k - 1]);
    } else {
      assert Script(cmd, a)[k] == Emails(n, a)[0];
    }
  }

  /** A failed save leaves no trace; a successful one leaves exactly one record, before any push
      or email, and everything the call does is for the command's user. */
  lemma {:induction false} ScriptIsOneRecordThenSends(cmd: Command, a: Answers)
    ensures Script(cmd, a) == [] <==> !a.saveOk
    ensures a.saveOk ==> Script(cmd, a)[0] == Saved(NewNotification(cmd, a.id))
    ensures forall k :: 0 < k < |Script(cmd, a)| ==> Script(cmd, a)[k].PushSent? || Script(cmd, a)[k].EmailSent?
    ensures forall k :: 0 <= k < |Script(cmd, a)| ==> IsFor(Script(cmd, a)[k], cmd.userId)
    ensures RecordsFor(Script(cmd, a), cmd.userId) == if a.saveOk then 1 else 0
  {
    var script := Script(cmd, a);
    assert a.saveOk ==> script[..1] == [Saved(NewNotification(cmd, a.id))];
    hide Pushes, Emails;
    forall k | 0 < k < |script|
      ensures (script[k].PushSent? || script[k].EmailSent?) && IsFor(script[k], cmd.userId)
    {
      SendsAfterSave(cmd, a, k);
    }
    if a.saveOk {
      assert script == [script[0]] + script[1..];
      RecordsForAppend([script[0]], script[1..], cmd.userId);
      NoRecords(script[1..], cmd.userId);
      SingleRecord(script[0], cmd.userId);
    }
  }

  /** An email needs an address in the data: without a non-empty string under "email" none is
      attempted, whatever the preferences say. */
  lemma {:induction false} EmailExactlyWhenAddressed(cmd: Command, a: Answers)
    ensures (exists k :: 0 <= k < |Script(cmd, a)| && Script(cmd, a)[k].EmailSent?) <==>
            a.saveOk && a.emailEnabled == Some(true) && cmd.data.Some? && "email" in cmd.data.value
            && cmd.data.value["email"].Text? && cmd.data.value["email"].text != ""
  {
    if a.saveOk {
      var n := NewNotification(cmd, a.id);
      var script := Script(cmd, a);
      assert script == [Saved(n)] + Pushes(n, a) + Emails(n, a);
      if Emails(n, a) != [] {
        assert script[|script| - 1] == Emails(n, a)[0];
      }
    }
  }

  /** The record a call stores carries the command's own fields and the fresh id. */
  lemma {:induction false} SavedIsTheCommand(cmd: Command, a: Answers)
    requires a.saveOk
    ensures Script(cmd, a) != [] && Script(cmd, a)[0].Saved?
    ensures var n := Script(cmd, a)[0].n;
            && n.id == a.id && n.userId == cmd.userId && n.appId == cmd.appId && n.groupId == cmd.groupId
            && n.orgId == cmd.orgId && n.title == cmd.title && n.body == cmd.body
            && (forall k :: k in n.data <==> cmd.data.Some? && k in cmd.data.value)
            && (forall k :: k in n.data ==> n.data[k] == cmd.data.value[k])
  {
  }

  /** Push data: the string-valued entries of the command, and the record's id whatever was there. */
  ghost predicate CarriesStrings(data: map<string, string>, given: Option<Data>, id: string) {
    && (forall k :: k in data <==>
          k == "notification_id" || (given.Some? && k in given.value && given.value[k].Text?))
    && forall k :: k in data ==>
         data[k] == if k == "notification_id" then id else given.value[k].text
  }

  ghost predicate IsPushOf(e: Effect, cmd: Command, id: string, device: DeviceToken) {
    && e.PushSent? && e.recipient == cmd.userId && e.device == device && e.title == cmd.title && e.body == cmd.body
    && CarriesStrings(e.data, cmd.data, id)
  }

  /** Pushes, exactly: with the record stored, push switched on and the devices found, one push per
      device in their order right after the record, and no other; otherwise none at all. */
  lemma {:induction false} PushesExactly(cmd: Command, a: Answers)
    ensures var script := Script(cmd, a);
            if a.saveOk && a.pushEnabled == Some(true) && a.tokens.Some? then
              && |script| > |a.tokens.value|
              && (forall i :: 0 <= i < |a.tokens.value| ==> IsPushOf(script[i + 1], cmd, a.id, a.tokens.value[i]))
              && forall k :: |a.tokens.value| < k < |script| ==> !script[k].PushSent?
            else
              forall k :: 0 <= k < |script| ==> !script[k].PushSent?
  {
    var n := NewNotification(cmd, a.id);
    if a.saveOk {
      var script := Script(cmd, a);
      assert script == [Saved(n)] + Pushes(n, a) + Emails(n, a);
      if a.pushEnabled == Some(true) && a.tokens.Some? {
        forall i | 0 <= i < |a.tokens.value| ensures IsPushOf(script[i + 1], cmd, a.id, a.tokens.value[i]) {
          assert script[i + 1] == Pushes(n, a)[i] == PushTo(n, a.tokens.value[i]);
        }
      }
    }
  }

  /** An email goes to the address in the data, with the command's title and body, and comes last. */
  lemma {:induction false} EmailCarriesTheCommand(cmd: Command, a: Answers, k: nat)
    requires k < |Script(cmd, a)| && Script(cmd, a)[k].EmailSent?
    ensures k == |Script(cmd, a)| - 1 && cmd.data.Some? && "email" in cmd.data.value
    ensures Script(cmd, a)[k] == EmailSent(cmd.userId, cmd.data.value["email"].text, cmd.title, cmd.body)
  {
    var n := NewNotification(cmd, a.id);
    assert Script(cmd, a) == [Saved(n)] + Pushes(n, a) + Emails(n, a);
  }
}
