/** The outbox table, the worker that polls it, and the stream it publishes to. Inserts may happen
    between polls; a publish and a mark fail independently. */
module Outbox {
  import opened Wrappers

  const BATCH := 100

  datatype Row = Row(aggregateId: string, eventType: string, payload: string, createdAt: int, published: bool)

  type Table = map<string, Row>

  /** What goes onto the stream for a row. */
  datatype Message = Message(subject: string, eventId: string, eventType: string, occurredAt: int, data: string)

  datatype Entry = Sent(m: Message) | SendFailed(id: string) | Marked(id: string) | MarkFailed(id: string)

  datatype State = State(table: Table, log: seq<Entry>)

  /** How the two calls made for one row end. */
  datatype Calls = Calls(publishOk: bool, markOk: bool)

  // ----- The query ----------------------------------------------------------------------

  predicate Pending(table: Table, id: string) {
    id in table && !table[id].published
  }

  /** A result of the unpublished-rows query: rows with equal stamps come in any order, and which
      of them make the limit is open too. */
  ghost predicate IsBatch(table: Table, batch: seq<string>) {
    && |batch| <= BATCH
    && (forall i :: 0 <= i < |batch| ==> Pending(table, batch[i]))
    && (forall i, j :: 0 <= i < j < |batch| ==> batch[i] != batch[j])
    && (forall i, j :: 0 <= i < j < |batch| ==> table[batch[i]].createdAt <= table[batch[j]].createdAt)
    && (forall id :: Pending(table, id) && id !in batch ==>
          |batch| == BATCH && forall i :: 0 <= i < |batch| ==> table[batch[i]].createdAt <= table[id].createdAt)
  }

  // ----- Specification of a poll --------------------------------------------------------

  function Wrap(id: string, row: Row): Message {
    Message("mobpilot.events." + row.eventType, id, row.eventType, row.createdAt, row.payload)
  }

  /** One row of the batch: publish, and mark if that worked. */
  function Attempt(s: State, id: string, c: Calls): State
    requires id in s.table
  {
    if !c.publishOk then s.(log := s.log + [SendFailed(id)])
    else if !c.markOk then s.(log := s.log + [Sent(Wrap(id, s.table[id])), MarkFailed(id)])
    else
      State(s.table[id := s.table[id].(published := true)], s.log + [Sent(Wrap(id, s.table[id])), Marked(id)])
  }

  /** The state after the first `k` rows of a batch. */
  function PollTo(s: State, batch: seq<string>, calls: seq<Calls>, k: nat): (t: State)
    requires k <= |batch| == |calls|
    requires forall i :: 0 <= i < |batch| ==> batch[i] in s.table
    ensures t.table.Keys == s.table.Keys
  {
    if k == 0 then s else Attempt(PollTo(s, batch, calls, k - 1), batch[k - 1], calls[k - 1])
  }

  // ----- The worker ---------------------------------------------------------------------

  class OutboxWorker {
    var table: Table
    var log: seq<Entry>

    constructor (table: Table)
      ensures this.table == table && log == []
    {
      this.table, log := table, [];
    }

    ghost function Contents(): State
      reads this
    {
      State(table, log)
    }

    method InsertOutboxEvent(id: string, row: Row)
      requires id !in table && !row.published
      modifies this
      ensures Contents() == State(old(table)[id := row], old(log))
    {
      table := table[id := row];
    }

    /** `rows` is what the query returned, `None` when it failed. */
    method Poll(rows: Option<seq<string>>, calls: seq<Calls>)
      requires rows.Some? ==> IsBatch(table, rows.value) && |calls| == |rows.value|
      modifies this
      ensures Contents() == if rows.None? then old(Contents())
                            else PollTo(old(Contents()), rows.value, calls, |rows.value|)
    {
      if rows.None? {
        return;
      }
      var batch := rows.value;
      ghost var start := Contents();
      for k := 0 to |batch|
        invariant forall i :: 0 <= i < |batch| ==> batch[i] in start.table
        invariant Contents() == PollTo(start, batch, calls, k)
      {
        Relay(batch[k], calls[k]);
      }
    }

    /** One row of the loop: a failed publish leaves it for the next poll, unmarked. */
    method Relay(id: string, c: Calls)
      requires id in table
      modifies this
      ensures Contents() == Attempt(old(Contents()), id, c)
    {
      var ok := PublishRow(id, c.publishOk);
      if !ok {
        return;
      }
      if c.markOk {
        table := table[id := table[id].(published := true)];
        log := log + [Marked(id)];
      } else {
        log := log + [MarkFailed(id)];
      }
    }

    method PublishRow(id: string, publishOk: bool) returns (ok: bool)
      requires id in table
      modifies this`log
      ensures ok == publishOk
      ensures log == old(log) + [if ok then Sent(Wrap(id, table[id])) else SendFailed(id)]
    {
      var row := table[id];
      var message := Message("mobpilot.events." + row.eventType, id, row.eventType, row.createdAt, row.payload);
      if !publishOk {
        log := log + [SendFailed(id)];
        return false;
      }
      log := log + [Sent(message)];
      return true;
    }
  }

  // ----- Runs ---------------------------------------------------------------------------

  datatype Step = Insert(id: string, row: Row) | Poll(batch: seq<string>, calls: seq<Calls>)

  ghost predicate Enabled(s: State, step: Step) {
    match step
    case Insert(id, row) => id !in s.table && !row.published
    case Poll(batch, calls) => IsBatch(s.table, batch) && |calls| == |batch|
  }

  ghost function Apply(s: State, step: Step): State
    requires Enabled(s, step)
  {
    match step
    case Insert(id, row) => s.(table := s.table[id := row])
    case Poll(batch, calls) => PollTo(s, batch, calls, |batch|)
  }

  ghost predicate Legal(s: State, steps: seq<Step>)
    decreases |steps|
  {
    steps == [] || (Enabled(s, steps[0]) && Legal(Apply(s, steps[0]), steps[1..]))
  }

  ghost function Run(s: State, steps: seq<Step>): State
    requires Legal(s, steps)
    decreases |steps|
  {
    if steps == [] then s else Run(Apply(s, steps[0]), steps[1..])
  }

  lemma {:induction false} AttemptMarks(s: State, row: string, c: Calls, id: string)
    requires row in s.table && id in s.table
    ensures var after := Attempt(s, row, c).table[id];
            && after == s.table[id].(published := after.published)
            && (after.published <==> s.table[id].published || (row == id && c == Calls(true, true)))
  {
  }

  /** What a poll does to a row: only its mark can change, and it is set exactly when the row was in
      the batch and both calls succeeded. */
  lemma {:induction false} PollMarks(s: State, batch: seq<string>, calls: seq<Calls>, k: nat, id: string)
    requires k <= |batch| == |calls|
    requires forall i :: 0 <= i < |batch| ==> batch[i] in s.table
    requires id in s.table
    ensures var row := PollTo(s, batch, calls, k).table[id];
            && row == s.table[id].(published := row.published)
            && (row.published <==>
                s.table[id].published || exists j :: 0 <= j < k && batch[j] == id && calls[j] == Calls(true, true))
  {
    hide Attempt;
    if k > 0 {
      PollMarks(s, batch, calls, k - 1, id);
      AttemptMarks(PollTo(s, batch, calls, k - 1), batch[k - 1], calls[k - 1], id);
    }
  }

  // ----- Conservation -------------------------------------------------------------------

  predicate Sends(e: Entry, id: string) {
    e.Sent? && e.m.eventId == id
  }

  function SentCount(log: seq<Entry>, id: string): nat {
    if log == [] then 0
    else SentCount(log[..|log| - 1], id) + (if Sends(log[|log| - 1], id) then 1 else 0)
  }

  function MarkFailedCount(log: seq<Entry>, id: string): nat {
    if log == [] then 0
    else MarkFailedCount(log[..|log| - 1], id) + (if log[|log| - 1] == MarkFailed(id) then 1 else 0)
  }

  /** A row's successful publishes are its failed marks, plus one if it is marked. */
  ghost predicate Conserved(s: State, id: string) {
    SentCount(s.log, id)
    == MarkFailedCount(s.log, id) + (if id in s.table && s.table[id].published then 1 else 0)
  }

  lemma {:induction false} CountsSnoc(log: seq<Entry>, e: Entry, id: string)
    ensures SentCount(log + [e], id) == SentCount(log, id) + (if Sends(e, id) then 1 else 0)
    ensures MarkFailedCount(log + [e], id) == MarkFailedCount(log, id) + (if e == MarkFailed(id) then 1 else 0)
  {
    assert (log + [e])[..|log|] == log;
  }

  lemma {:induction false} CountsSnocTwo(log: seq<Entry>, e: Entry, f: Entry, id: string)
    ensures SentCount(log + [e, f], id)
         == SentCount(log, id) + (if Sends(e, id) then 1 else 0) + (if Sends(f, id) then 1 else 0)
    ensures MarkFailedCount(log + [e, f], id)
         == MarkFailedCount(log, id) + (if e == MarkFailed(id) then 1 else 0) + (if f == MarkFailed(id) then 1 else 0)
  {
    assert log + [e, f] == (log + [e]) + [f];
    CountsSnoc(log, e, id);
    CountsSnoc(log + [e], f, id);
  }

  lemma {:induction false} AttemptConserves(s: State, row: string, c: Calls, id: string)
    requires Pending(s.table, row) && Conserved(s, id)
    ensures Conserved(Attempt(s, row, c), id)
  {
    hide SentCount, MarkFailedCount;
    CountsSnoc(s.log, SendFailed(row), id);
    CountsSnocTwo(s.log, Sent(Wrap(row, s.table[row])), if c.markOk then Marked(row) else MarkFailed(row), id);
  }

  lemma {:induction false} PollConserves(s: State, batch: seq<string>, calls: seq<Calls>, k: nat, id: string)
    requires IsBatch(s.table, batch) && |calls| == |batch| && k <= |batch|
    requires Conserved(s, id)
    ensures Conserved(PollTo(s, batch, calls, k), id)
  {
    hide Attempt, Conserved;
    if k > 0 {
      PollConserves(s, batch, calls, k - 1, id);
      PollMarks(s, batch, calls, k - 1, batch[k - 1]);
      AttemptConserves(PollTo(s, batch, calls, k - 1), batch[k - 1], calls[k - 1], id);
    }
  }

  lemma {:induction false} StepConserves(s: State, step: Step, id: string)
    requires Enabled(s, step) && Conserved(s, id)
    ensures Conserved(Apply(s, step), id)
  {
    match step
    case Insert(_, _) =>
    case Poll(batch, calls) => PollConserves(s, batch, calls, |batch|, id);
  }

  /** In every run of inserts and polls: publishes are conserved against marks, so a marked row
      was published, and an unmarked one was published once for every mark that failed. */
  lemma {:induction false} RunConserves(s: State, steps: seq<Step>, id: string)
    requires Legal(s, steps) && Conserved(s, id)
    ensures Conserved(Run(s, steps), id)
    ensures id in Run(s, steps).table && Run(s, steps).table[id].published ==> SentCount(Run(s, steps).log, id) >= 1
    decreases |steps|
  {
    if steps != [] {
      StepConserves(s, steps[0], id);
      RunConserves(Apply(s, steps[0]), steps[1..], id);
    }
  }

  /** Rows are never lost or rewritten, and marks are never undone. */
  lemma {:induction false} RowsAndMarksStay(s: State, steps: seq<Step>, id: string)
    requires Legal(s, steps) && id in s.table
    ensures id in Run(s, steps).table
    ensures var row := Run(s, steps).table[id];
            row == s.table[id].(published := row.published) && (s.table[id].published ==> row.published)
    decreases |steps|
  {
    if steps != [] {
      if steps[0].Poll? {
        PollMarks(s, steps[0].batch, steps[0].calls, |steps[0].batch|, id);
      }
      RowsAndMarksStay(Apply(s, steps[0]), steps[1..], id);
    }
  }

  // ----- Contents -----------------------------------------------------------------------

  /** A published message carries its row: the row's id, type, stamp and payload, under the type's
      subject. */
  ghost predicate CarriesRow(m: Message, table: Table) {
    && m.eventId in table
    && var row := table[m.eventId];
       && m.subject == "mobpilot.events." + row.eventType && m.eventType == row.eventType
       && m.occurredAt == row.createdAt && m.data == row.payload
  }

  ghost predicate StreamCarriesRows(s: State) {
    forall k :: 0 <= k < |s.log| && s.log[k].Sent? ==> CarriesRow(s.log[k].m, s.table)
  }

  lemma {:induction false} AttemptCarries(s: State, id: string, c: Calls)
    requires id in s.table && StreamCarriesRows(s)
    ensures StreamCarriesRows(Attempt(s, id, c))
  {
  }

  lemma {:induction false} PollCarries(s: State, batch: seq<string>, calls: seq<Calls>, k: nat)
    requires k <= |batch| == |calls| && StreamCarriesRows(s)
    requires forall i :: 0 <= i < |batch| ==> batch[i] in s.table
    ensures StreamCarriesRows(PollTo(s, batch, calls, k))
  {
    hide Attempt, StreamCarriesRows;
    if k > 0 {
      PollCarries(s, batch, calls, k - 1);
      AttemptCarries(PollTo(s, batch, calls, k - 1), batch[k - 1], calls[k - 1]);
    }
  }

  /** In every run of inserts and polls, whatever fails, every message on the stream is its row's. */
  lemma {:induction false} StreamCarriesItsRows(s: State, steps: seq<Step>)
    requires Legal(s, steps) && StreamCarriesRows(s)
    ensures StreamCarriesRows(Run(s, steps))
    decreases |steps|
  {
    if steps != [] {
      if steps[0].Poll? {
        PollCarries(s, steps[0].batch, steps[0].calls, |steps[0].batch|);
      }
      StreamCarriesItsRows(Apply(s, steps[0]), steps[1..]);
    }
  }

  // ----- Order --------------------------------------------------------------------------

  /** Every publish of `b` comes after some publish of `a`. */
  ghost predicate After(log: seq<Entry>, a: string, b: string) {
    forall j :: 0 <= j < |log| && Sends(log[j], b) ==> exists i :: 0 <= i < j && Sends(log[i], a)
  }

  ghost predicate WasSent(log: seq<Entry>, id: string) {
    exists i :: 0 <= i < |log| && Sends(log[i], id)
  }

  lemma {:induction false} SentCountPositive(log: seq<Entry>, id: string)
    ensures SentCount(log, id) > 0 <==> WasSent(log, id)
  {
    if log != [] {
      SentCountPositive(log[..|log| - 1], id);
      if WasSent(log[..|log| - 1], id) {
        var i :| 0 <= i < |log| - 1 && Sends(log[..|log| - 1][i], id);
        assert Sends(log[i], id);
      }
      if WasSent(log, id) && !Sends(log[|log| - 1], id) {
        var i :| 0 <= i < |log| && Sends(log[i], id);
        assert Sends(log[..|log| - 1][i], id);
      }
    }
  }

  lemma {:induction false} AttemptLog(s: State, id: string, c: Calls)
    requires id in s.table
    ensures var log := Attempt(s, id, c).log;
            && |s.log| < |log| && log[..|s.log|] == s.log
            && (forall j :: |s.log| < j < |log| ==> !log[j].Sent?)
            && (if c.publishOk then Sends(log[|s.log|], id) else log[|s.log|] == SendFailed(id))
  {
  }

  lemma {:induction false} PollLogGrows(s: State, batch: seq<string>, calls: seq<Calls>, j: nat, k: nat)
    requires j <= k <= |batch| == |calls|
    requires forall i :: 0 <= i < |batch| ==> batch[i] in s.table
    ensures PollTo(s, batch, calls, j).log <= PollTo(s, batch, calls, k).log
  {
    hide Attempt;
    if j < k {
      PollLogGrows(s, batch, calls, j, k - 1);
      AttemptLog(PollTo(s, batch, calls, k - 1), batch[k - 1], calls[k - 1]);
    }
  }

  /** Row `i` of a batch whose publish does not fail is on the stream before row `i + 1` is tried. */
  lemma {:induction false} SentByThen(s: State, batch: seq<string>, calls: seq<Calls>, i: nat, k: nat)
    requires IsBatch(s.table, batch) && i < k <= |batch| == |calls|
    requires SendFailed(batch[i]) !in PollTo(s, batch, calls, k).log
    ensures WasSent(PollTo(s, batch, calls, k).log, batch[i])
  {
    hide Attempt;
    var before := PollTo(s, batch, calls, i);
    AttemptLog(before, batch[i], calls[i]);
    PollLogGrows(s, batch, calls, i + 1, k);
    var log := PollTo(s, batch, calls, k).log;
    assert log[|before.log|] == PollTo(s, batch, calls, i + 1).log[|before.log|];
    if !calls[i].publishOk {
      assert false;
    }
  }

  /** The older row has been sent whenever the younger one's turn comes. */
  lemma {:induction false} OlderSentFirst(s: State, batch: seq<string>, calls: seq<Calls>, k: nat, a: string)
    requires IsBatch(s.table, batch) && k < |batch| == |calls|
    requires a in s.table && s.table[a].createdAt < s.table[batch[k]].createdAt
    requires Conserved(s, a)
    requires SendFailed(a) !in PollTo(s, batch, calls, k).log
    ensures WasSent(PollTo(s, batch, calls, k).log, a)
  {
    if s.table[a].published {
      SentCountPositive(s.log, a);
      var i :| 0 <= i < |s.log| && Sends(s.log[i], a);
      PollLogGrows(s, batch, calls, 0, k);
      assert Sends(PollTo(s, batch, calls, k).log[i], a);
    } else {
      assert Pending(s.table, a);
      assert a in batch;
      var i :| 0 <= i < |batch| && batch[i] == a;
      SentByThen(s, batch, calls, i, k);
    }
  }

  lemma {:induction false} PollKeepsOrder(s: State, batch: seq<string>, calls: seq<Calls>, k: nat, a: string, b: string)
    requires IsBatch(s.table, batch) && k <= |batch| == |calls|
    requires a in s.table && (b in s.table ==> s.table[a].createdAt < s.table[b].createdAt)
    requires Conserved(s, a) && After(s.log, a, b)
    requires SendFailed(a) !in PollTo(s, batch, calls, k).log
    ensures After(PollTo(s, batch, calls, k).log, a, b)
  {
    hide Attempt;
    if k > 0 {
      var before := PollTo(s, batch, calls, k - 1);
      AttemptLog(before, batch[k - 1], calls[k - 1]);
      var log := PollTo(s, batch, calls, k).log;
      assert forall e :: e in before.log ==> e in log by {
        assert log[..|before.log|] == before.log;
      }
      PollKeepsOrder(s, batch, calls, k - 1, a, b);
      forall j | 0 <= j < |log| && Sends(log[j], b) ensures exists i :: 0 <= i < j && Sends(log[i], a) {
        if j < |before.log| {
          assert Sends(before.log[j], b);
          var i :| 0 <= i < j && Sends(before.log[i], a);
          assert Sends(log[i], a);
        } else {
          assert batch[k - 1] == b;
          OlderSentFirst(s, batch, calls, k - 1, a);
          var i :| 0 <= i < |before.log| && Sends(before.log[i], a);
          assert Sends(log[i], a);
        }
      }
    }
  }

  lemma {:induction false} LogGrows(s: State, steps: seq<Step>)
    requires Legal(s, steps)
    ensures s.log <= Run(s, steps).log
    decreases |steps|
  {
    if steps != [] {
      if steps[0].Poll? {
        PollLogGrows(s, steps[0].batch, steps[0].calls, 0, |steps[0].batch|);
      }
      LogGrows(Apply(s, steps[0]), steps[1..]);
    }
  }

  /** Order: if the older of two rows never has a publish fail, no publish of the younger comes
      before one of the older, in any run, however many other rows fail, are overtaken, or arrive
      in between. */
  lemma {:induction false} OlderRowIsPublishedFirst(s: State, steps: seq<Step>, a: string, b: string)
    requires Legal(s, steps)
    requires a in s.table && Conserved(s, a) && After(s.log, a, b)
    requires b in Run(s, steps).table ==> s.table[a].createdAt < Run(s, steps).table[b].createdAt
    requires SendFailed(a) !in Run(s, steps).log
    ensures After(Run(s, steps).log, a, b)
    decreases |steps|
  {
    if steps != [] {
      var next := Apply(s, steps[0]);
      LogGrows(next, steps[1..]);
      RowsAndMarksStay(s, steps, a);
      RowsAndMarksStay(s, steps[..1], a);
      assert Run(s, steps[..1]) == next by {
        assert steps[..1][1..] == [];
      }
      if b in s.table {
        RowsAndMarksStay(s, steps, b);
      }
      StepConserves(s, steps[0], a);
      assert forall e :: e in next.log ==> e in Run(s, steps).log;
      if steps[0].Poll? {
        PollKeepsOrder(s, steps[0].batch, steps[0].calls, |steps[0].batch|, a, b);
      }
      OlderRowIsPublishedFirst(next, steps[1..], a, b);
    }
  }

  /** From an empty stream: the first publications of rows that never fail to publish come in
      `created_at` order. */
  lemma {:induction false} FirstPublicationsInOrder(table: Table, steps: seq<Step>, a: string, b: string)
    requires a in table && b in table && table[a].createdAt < table[b].createdAt
    requires !table[a].published && Legal(State(table, []), steps)
    requires SendFailed(a) !in Run(State(table, []), steps).log
    ensures After(Run(State(table, []), steps).log, a, b)
    ensures WasSent(Run(State(table, []), steps).log, b) ==> WasSent(Run(State(table, []), steps).log, a)
  {
    var s := State(table, []);
    RowsAndMarksStay(s, steps, b);
    OlderRowIsPublishedFirst(s, steps, a, b);
    var log := Run(s, steps).log;
    if j :| 0 <= j < |log| && Sends(log[j], b) {
      var i :| 0 <= i < j && Sends(log[i], a);
    }
  }
}
