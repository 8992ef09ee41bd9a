/** How the outbox drains when some rows can never be published: exact head-of-line blocking and
    the number of polls a row waits. */
module OutboxProgress {
  import opened Outbox

  /** A run in which the rows of `poison` always fail to publish and every other call succeeds, and in
      which rows may arrive at any time, of either kind, stamped after row `id`. */
  ghost predicate Draining(s: State, steps: seq<Step>, poison: set<string>, id: string) {
    && id in s.table && Legal(s, steps)
    && forall k :: 0 <= k < |steps| ==> DrainsFor(steps[k], poison, s.table[id].createdAt)
  }

  ghost predicate DrainsFor(step: Step, poison: set<string>, stamp: int) {
    match step
    case Insert(_, row) => stamp < row.createdAt
    case Poll(batch, calls) => Answered(batch, calls, poison)
  }

  /** The polls of a run. */
  function Polls(steps: seq<Step>): nat {
    if steps == [] then 0 else (if steps[0].Poll? then 1 else 0) + Polls(steps[1..])
  }

  ghost predicate Answered(batch: seq<string>, calls: seq<Calls>, poison: set<string>) {
    |calls| == |batch|
    && forall i :: 0 <= i < |batch| ==> calls[i] == if batch[i] in poison then Calls(false, true) else Calls(true, true)
  }

  /** Pending rows stamped no later than row `id` that can be published, `id` itself included. */
  ghost function Ahead(table: Table, poison: set<string>, id: string): set<string>
    requires id in table
  {
    set r | r in table && !table[r].published && r !in poison && table[r].createdAt <= table[id].createdAt
  }

  /** Pending rows stamped no later than row `id` that never will be. */
  ghost function Blockers(table: Table, poison: set<string>, id: string): set<string>
    requires id in table
  {
    set r | r in table && !table[r].published && r in poison && table[r].createdAt <= table[id].createdAt
  }

  // ----- Set sizes ----------------------------------------------------------------------

  lemma {:induction false} DistinctSize(batch: seq<string>)
    requires forall i, j :: 0 <= i < j < |batch| ==> batch[i] != batch[j]
    ensures |set r | r in batch| == |batch|
  {
    if batch != [] {
      var n := |batch| - 1;
      DistinctSize(batch[..n]);
      assert (set r | r in batch) == (set r | r in batch[..n]) + {batch[n]};
      assert batch[n] !in batch[..n];
    } else {
      assert (set r | r in batch) == {};
    }
  }

  lemma {:induction false} SubsetSize(a: set<string>, b: set<string>)
    requires a <= b
    ensures |a| <= |b|
  {
    if a != {} {
      var x :| x in a;
      SubsetSize(a - {x}, b - {x});
    }
  }

  /** A batch that lies within two disjoint sets takes from the first all that the second leaves. */
  lemma {:induction false} ShareOfBatch(batch: set<string>, ahead: set<string>, blockers: set<string>)
    requires batch <= ahead + blockers && ahead !! blockers
    ensures |ahead - batch| <= |ahead| + |blockers| - |batch|
  {
    SubsetSize(batch * blockers, blockers);
    assert batch == batch * ahead + batch * blockers;
    assert |batch| == |batch * ahead| + |batch * blockers|;
    assert ahead == (ahead - batch) + batch * ahead;
    assert |ahead| == |ahead - batch| + |batch * ahead|;
  }

  // ----- Every poll has a batch ---------------------------------------------------------

  lemma {:induction false} Oldest(table: Table, ids: set<string>) returns (m: string)
    requires ids != {} && forall r :: r in ids ==> r in table
    ensures m in ids && forall r :: r in ids ==> table[m].createdAt <= table[r].createdAt
  {
    var x :| x in ids;
    m := x;
    var rest := ids - {x};
    assert ids == rest + {x};
    if rest != {} {
      var y := Oldest(table, rest);
      if table[y].createdAt < table[x].createdAt {
        m := y;
      }
    }
  }

  /** The oldest `n` rows of a set, oldest first. */
  lemma {:induction false} OldestFirst(table: Table, ids: set<string>, n: nat) returns (batch: seq<string>)
    requires forall r :: r in ids ==> r in table
    ensures |batch| <= n && (forall i :: 0 <= i < |batch| ==> batch[i] in ids)
    ensures forall i, j :: 0 <= i < j < |batch| ==> batch[i] != batch[j]
    ensures forall i, j :: 0 <= i < j < |batch| ==> table[batch[i]].createdAt <= table[batch[j]].createdAt
    ensures forall r :: r in ids && r !in batch ==>
              |batch| == n && forall i :: 0 <= i < |batch| ==> table[batch[i]].createdAt <= table[r].createdAt
    decreases n
  {
    if n == 0 || ids == {} {
      batch := [];
    } else {
      var m := Oldest(table, ids);
      var rest := OldestFirst(table, ids - {m}, n - 1);
      batch := [m] + rest;
    }
  }

  /** The unpublished-rows query has an answer on every table. */
  lemma {:induction false} BatchExists(table: Table) returns (batch: seq<string>)
    ensures IsBatch(table, batch)
  {
    batch := OldestFirst(table, (set r | r in table && !table[r].published), BATCH);
  }

  // ----- One poll -----------------------------------------------------------------------

  lemma {:induction false} DrainingPollMarks(
      s: State, batch: seq<string>, calls: seq<Calls>, poison: set<string>, id: string)
    requires IsBatch(s.table, batch) && Answered(batch, calls, poison) && id in s.table
    ensures var row := PollTo(s, batch, calls, |batch|).table[id];
            && row == s.table[id].(published := row.published)
            && (row.published <==> s.table[id].published || (id in batch && id !in poison))
  {
    PollMarks(s, batch, calls, |batch|, id);
    if id in batch && id !in poison {
      var j :| 0 <= j < |batch| && batch[j] == id;
      assert calls[j] == Calls(true, true);
    }
  }

  /** A row left waiting by a poll saw the whole batch go to rows no newer than itself. */
  lemma {:induction false} WaitingRowIsPassedByFullBatch(s: State, batch: seq<string>, poison: set<string>, id: string)
    requires IsBatch(s.table, batch) && Pending(s.table, id) && id !in batch
    ensures |batch| == BATCH
    ensures (set r | r in batch) <= Ahead(s.table, poison, id) + Blockers(s.table, poison, id)
  {
    forall r | r in batch ensures Pending(s.table, r) && s.table[r].createdAt <= s.table[id].createdAt {
      var i :| 0 <= i < |batch| && batch[i] == r;
    }
  }

  /** One poll publishes a healthy row or takes at least `BATCH - |Blockers|` rows from ahead of it. */
  lemma {:induction false} PollTakesFromAhead(
      s: State, batch: seq<string>, calls: seq<Calls>, poison: set<string>, id: string)
    requires IsBatch(s.table, batch) && Answered(batch, calls, poison)
    requires Pending(s.table, id) && id !in poison
    ensures var t := PollTo(s, batch, calls, |batch|);
            && Blockers(t.table, poison, id) == Blockers(s.table, poison, id)
            && (Pending(t.table, id) ==>
                  |Ahead(t.table, poison, id)| <= |Ahead(s.table, poison, id)| + |Blockers(s.table, poison, id)| - BATCH)
  {
    var t := PollTo(s, batch, calls, |batch|);
    forall r | r in s.table
      ensures t.table[r].createdAt == s.table[r].createdAt
      ensures t.table[r].published <==> s.table[r].published || (r in batch && r !in poison)
    {
      DrainingPollMarks(s, batch, calls, poison, r);
    }
    assert Blockers(t.table, poison, id) == Blockers(s.table, poison, id);
    if Pending(t.table, id) {
      WaitingRowIsPassedByFullBatch(s, batch, poison, id);
      DistinctSize(batch);
      ShareOfBatch((set r | r in batch), Ahead(s.table, poison, id), Blockers(s.table, poison, id));
      assert Ahead(t.table, poison, id) == Ahead(s.table, poison, id) - (set r | r in batch);
    }
  }

  // ----- The waiting time ---------------------------------------------------------------

  lemma {:induction false} CountsItself(table: Table, poison: set<string>, id: string)
    requires Pending(table, id) && id !in poison
    ensures |Ahead(table, poison, id)| > 0
  {
    assert id in Ahead(table, poison, id);
  }

  lemma {:induction false} OneMorePoll(n: nat, free: int, m: nat, before: nat)
    requires n * free < m && m <= before - free
    ensures (n + 1) * free < before
  {
    assert (n + 1) * free == n * free + free;
  }

  lemma {:induction false} DrainingStep(s: State, steps: seq<Step>, poison: set<string>, id: string)
    requires steps != [] && Draining(s, steps, poison, id) && Pending(s.table, id) && id !in poison
    ensures var t := Apply(s, steps[0]);
            && Draining(t, steps[1..], poison, id) && Run(s, steps) == Run(t, steps[1..])
            && Blockers(t.table, poison, id) == Blockers(s.table, poison, id)
            && (steps[0].Insert? ==> Pending(t.table, id) && Ahead(t.table, poison, id) == Ahead(s.table, poison, id))
            && (steps[0].Poll? && Pending(t.table, id) ==>
                  |Ahead(t.table, poison, id)| <= |Ahead(s.table, poison, id)| + |Blockers(s.table, poison, id)| - BATCH)
  {
    RowsAndMarksStay(s, steps[..1], id);
    assert steps[..1][1..] == [] && Run(s, steps[..1]) == Apply(s, steps[0]);
    assert DrainsFor(steps[0], poison, s.table[id].createdAt);
    if steps[0].Poll? {
      PollTakesFromAhead(s, steps[0].batch, steps[0].calls, poison, id);
    }
  }

  /** While a row waits, every poll shortens the queue ahead of it by the places the blockers leave,
      and no arrival lengthens it. */
  lemma {:induction false} WaitShrinks(s: State, steps: seq<Step>, poison: set<string>, id: string, free: nat)
    requires Draining(s, steps, poison, id) && Pending(s.table, id) && id !in poison
    requires |Blockers(s.table, poison, id)| + free == BATCH
    ensures id in Run(s, steps).table
    ensures Pending(Run(s, steps).table, id) ==> Polls(steps) * free < |Ahead(s.table, poison, id)|
    decreases |steps|
  {
    RowsAndMarksStay(s, steps, id);
    hide Ahead, Blockers, Run, Apply, DrainsFor;
    if steps == [] {
      CountsItself(s.table, poison, id);
      assert Run(s, steps) == s by {
        RunOfNothing(s);
      }
    } else {
      DrainingStep(s, steps, poison, id);
      var t := Apply(s, steps[0]);
      RowsAndMarksStay(t, steps[1..], id);
      hide Draining;
      if Pending(Run(t, steps[1..]).table, id) {
        WaitShrinks(t, steps[1..], poison, id, free);
        if steps[0].Poll? {
          OneMorePoll(Polls(steps[1..]), free, |Ahead(t.table, poison, id)|, |Ahead(s.table, poison, id)|);
        }
      }
    }
  }

  lemma {:induction false} RunOfNothing(s: State)
    ensures Run(s, []) == s
  {
  }

  /** Progress: a healthy row with fewer than 100 unpublishable rows at or before its stamp is
      marked after at most ceil(m / (100 - k)) polls, `m` being the healthy rows in its queue, however
      many younger rows arrive meanwhile. */
  lemma {:induction false} PublishedWithinBound(s: State, steps: seq<Step>, poison: set<string>, id: string)
    requires Draining(s, steps, poison, id) && Pending(s.table, id) && id !in poison
    requires |Blockers(s.table, poison, id)| < BATCH
    requires Polls(steps) * (BATCH - |Blockers(s.table, poison, id)|) >= |Ahead(s.table, poison, id)|
    ensures id in Run(s, steps).table && Run(s, steps).table[id].published
  {
    WaitShrinks(s, steps, poison, id, BATCH - |Blockers(s.table, poison, id)|);
  }

  lemma {:induction false} FasterWithFewer(n: nat, free: int, freeHere: int, m: nat, mHere: nat)
    requires free <= freeHere && mHere <= m && n * free >= m
    ensures n * freeHere >= mHere
  {
    assert n * (freeHere - free) >= 0;
    assert n * freeHere == n * free + n * (freeHere - free);
  }

  ghost function PendingPoison(table: Table, poison: set<string>): set<string> {
    set r | r in table && !table[r].published && r in poison
  }

  ghost function PendingHealthy(table: Table, poison: set<string>): set<string> {
    set r | r in table && !table[r].published && r !in poison
  }

  /** The whole outbox: with fewer than 100 poison rows among all pending ones, every healthy row
      is marked after at most ceil(m / (100 - k)) polls, counting all that are pending at the start. */
  lemma {:induction false} OutboxDrains(s: State, steps: seq<Step>, poison: set<string>, id: string)
    requires Draining(s, steps, poison, id) && Pending(s.table, id) && id !in poison
    requires |PendingPoison(s.table, poison)| < BATCH
    requires Polls(steps) * (BATCH - |PendingPoison(s.table, poison)|) >= |PendingHealthy(s.table, poison)|
    ensures id in Run(s, steps).table && Run(s, steps).table[id].published
  {
    hide Draining, Run;
    SubsetSize(Blockers(s.table, poison, id), PendingPoison(s.table, poison));
    SubsetSize(Ahead(s.table, poison, id), PendingHealthy(s.table, poison));
    FasterWithFewer(Polls(steps), BATCH - |PendingPoison(s.table, poison)|, BATCH - |Blockers(s.table, poison, id)|,
                    |PendingHealthy(s.table, poison)|, |Ahead(s.table, poison, id)|);
    PublishedWithinBound(s, steps, poison, id);
  }

  // ----- Starvation ---------------------------------------------------------------------

  /** Unpublishable rows strictly older than row `id`. */
  ghost function OlderPoison(table: Table, poison: set<string>, id: string): set<string>
    requires id in table
  {
    set r | r in table && !table[r].published && r in poison && table[r].createdAt < table[id].createdAt
  }

  lemma {:induction false} StarvedRowMissesBatch(table: Table, batch: seq<string>, poison: set<string>, id: string)
    requires IsBatch(table, batch) && id in table && id !in poison
    requires |OlderPoison(table, poison, id)| >= BATCH
    ensures id !in batch
  {
    if id in batch {
      var older := OlderPoison(table, poison, id);
      forall r | r in older ensures r in batch {
        assert Pending(table, r);
      }
      DistinctSize(batch);
      SubsetSize(older + {id}, set r | r in batch);
    }
  }

  lemma {:induction false} NotInBatchNotTried(s: State, batch: seq<string>, calls: seq<Calls>, k: nat, id: string)
    requires k <= |batch| == |calls| && id !in batch
    requires forall i :: 0 <= i < |batch| ==> batch[i] in s.table
    ensures SentCount(PollTo(s, batch, calls, k).log, id) == SentCount(s.log, id)
    ensures SendFailed(id) in PollTo(s, batch, calls, k).log <==> SendFailed(id) in s.log
  {
    hide SentCount, MarkFailedCount;
    if k > 0 {
      NotInBatchNotTried(s, batch, calls, k - 1, id);
      var t, c, row := PollTo(s, batch, calls, k - 1), calls[k - 1], batch[k - 1];
      CountsSnoc(t.log, SendFailed(row), id);
      CountsSnocTwo(t.log, Sent(Wrap(row, t.table[row])), if c.markOk then Marked(row) else MarkFailed(row), id);
    }
  }

  /** A poll in which the poison rows fail; the other calls, and inserts, are unconstrained. */
  ghost predicate PoisonFails(step: Step, poison: set<string>) {
    step.Poll? ==>
      |step.calls| == |step.batch|
      && forall i :: 0 <= i < |step.batch| && step.batch[i] in poison ==> !step.calls[i].publishOk
  }

  lemma {:induction false} PoisonStays(s: State, step: Step, poison: set<string>, id: string)
    requires Enabled(s, step) && PoisonFails(step, poison) && id in s.table
    ensures id in Apply(s, step).table
    ensures OlderPoison(s.table, poison, id) <= OlderPoison(Apply(s, step).table, poison, id)
  {
    var t := Apply(s, step);
    forall r | r in s.table
      ensures r in t.table && t.table[r].createdAt == s.table[r].createdAt
      ensures r in poison && !s.table[r].published ==> !t.table[r].published
    {
      if step.Poll? {
        PollMarks(s, step.batch, step.calls, |step.batch|, r);
      }
    }
  }

  /** Head-of-line blocking: behind 100 older rows that cannot be published, a row is never even
      tried, in any run of any length, whatever the other calls do and whatever else arrives. */
  lemma {:induction false} StarvedForever(s: State, steps: seq<Step>, poison: set<string>, id: string)
    requires Legal(s, steps) && forall k :: 0 <= k < |steps| ==> PoisonFails(steps[k], poison)
    requires Pending(s.table, id) && id !in poison
    requires |OlderPoison(s.table, poison, id)| >= BATCH
    ensures Pending(Run(s, steps).table, id)
    ensures SentCount(Run(s, steps).log, id) == SentCount(s.log, id)
    ensures SendFailed(id) in Run(s, steps).log <==> SendFailed(id) in s.log
    decreases |steps|
  {
    if steps != [] {
      var step := steps[0];
      PoisonStays(s, step, poison, id);
      SubsetSize(OlderPoison(s.table, poison, id), OlderPoison(Apply(s, step).table, poison, id));
      if step.Poll? {
        StarvedRowMissesBatch(s.table, step.batch, poison, id);
        PollMarks(s, step.batch, step.calls, |step.batch|, id);
        NotInBatchNotTried(s, step.batch, step.calls, |step.batch|, id);
      }
      StarvedForever(Apply(s, step), steps[1..], poison, id);
    }
  }

  /** With distinct stamps the limit is sharp: after enough polls a healthy row is marked if and
      only if fewer than 100 unpublishable rows are older than it. */
  lemma {:induction false} ServedExactlyWithFewerThan100Older(
      s: State, steps: seq<Step>, poison: set<string>, id: string)
    requires Draining(s, steps, poison, id) && Pending(s.table, id) && id !in poison
    requires forall r :: Pending(s.table, r) && r != id ==> s.table[r].createdAt != s.table[id].createdAt
    requires Polls(steps) >= |Ahead(s.table, poison, id)|
    ensures Pending(Run(s, steps).table, id) <==> |OlderPoison(s.table, poison, id)| >= 100
  {
    assert Blockers(s.table, poison, id) == OlderPoison(s.table, poison, id);
    RowsAndMarksStay(s, steps, id);
    if |OlderPoison(s.table, poison, id)| >= BATCH {
      forall k | 0 <= k < |steps| ensures PoisonFails(steps[k], poison) {
        assert DrainsFor(steps[k], poison, s.table[id].createdAt);
      }
      StarvedForever(s, steps, poison, id);
    } else {
      FasterWithFewer(Polls(steps), 1, BATCH - |Blockers(s.table, poison, id)|, Polls(steps), |Ahead(s.table, poison, id)|);
      PublishedWithinBound(s, steps, poison, id);
    }
  }
}
