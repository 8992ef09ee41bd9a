/** The fan-out of `SendToGroup` as a step machine: a spawn loop that takes a permit per member,
    one worker per member, and a final wait. A worker's work is a script of effects; any
    interleaving of the loop and the workers is a schedule. */
module FanOut {

  const CONCURRENCY := 10

  datatype Worker = Running(done: nat) | Releasing | Exited

  /** The spawn loop: about to take a permit, holding one for the next worker, or done waiting. */
  datatype Main = Looping | Acquired | Returned

  datatype State<E> = State(main: Main, workers: seq<Worker>, permits: nat, log: seq<(nat, E)>)

  datatype Step = Acquire | Spawn | Work(i: nat) | Wait

  function Start<E>(): State<E> {
    State(Looping, [], 0, [])
  }

  predicate Enabled<E>(scripts: seq<seq<E>>, s: State<E>, step: Step) {
    match step
    case Acquire => s.main == Looping && |s.workers| < |scripts| && s.permits < CONCURRENCY
    case Spawn => s.main == Acquired
    case Work(i) => i < |s.workers| && i < |scripts| && s.workers[i] != Exited
    case Wait =>
      s.main == Looping && |s.workers| == |scripts| && forall i :: 0 <= i < |s.workers| ==> s.workers[i] == Exited
  }

  /** Runs one step. A worker emits its effects in order, then gives its permit back, and exits. */
  function Apply<E>(scripts: seq<seq<E>>, s: State<E>, step: Step): State<E>
    requires Enabled(scripts, s, step)
  {
    match step
    case Acquire => s.(main := Acquired, permits := s.permits + 1)
    case Spawn => s.(main := Looping, workers := s.workers + [Running(0)])
    case Wait => s.(main := Returned)
    case Work(i) =>
      match s.workers[i]
      case Running(k) =>
        if k < |scripts[i]|
        then s.(workers := s.workers[i := Running(k + 1)], log := s.log + [(i, scripts[i][k])])
        else s.(workers := s.workers[i := Releasing])
      case Releasing =>
        s.(workers := s.workers[i := Exited], permits := if s.permits > 0 then s.permits - 1 else 0)
      case Exited => s
  }

  ghost predicate Legal<E>(scripts: seq<seq<E>>, schedule: seq<Step>)
    decreases |schedule|, 0
  {
    schedule == []
    || (Legal(scripts, schedule[..|schedule| - 1])
        && Enabled(scripts, Run(scripts, schedule[..|schedule| - 1]), schedule[|schedule| - 1]))
  }

  ghost function Run<E>(scripts: seq<seq<E>>, schedule: seq<Step>): State<E>
    requires Legal(scripts, schedule)
    decreases |schedule|, 1
  {
    if schedule == [] then Start()
    else Apply(scripts, Run(scripts, schedule[..|schedule| - 1]), schedule[|schedule| - 1])
  }

  ghost predicate Completes<E>(scripts: seq<seq<E>>, schedule: seq<Step>) {
    Legal(scripts, schedule) && Run(scripts, schedule).main == Returned
  }

  // ----- The invariant ------------------------------------------------------------------

  /** The workers that have not exited. */
  function InFlight(workers: seq<Worker>): nat {
    if workers == [] then 0
    else InFlight(workers[..|workers| - 1]) + (if workers[|workers| - 1] == Exited then 0 else 1)
  }

  /** The effects of worker `i`, in the order they happened. */
  function Of<E>(log: seq<(nat, E)>, i: nat): seq<E> {
    if log == [] then []
    else
      var (j, e) := log[|log| - 1];
      Of(log[..|log| - 1], i) + (if j == i then [e] else [])
  }

  function Progress<E>(script: seq<E>, w: Worker): int {
    match w
    case Running(done) => done
    case Releasing => |script|
    case Exited => |script|
  }

  ghost predicate WorkerOk<E>(script: seq<E>, w: Worker, effects: seq<E>) {
    Progress(script, w) <= |script| && effects == script[..Progress(script, w)]
  }

  ghost predicate Inv<E>(scripts: seq<seq<E>>, s: State<E>) {
    && |s.workers| <= |scripts|
    && (s.main == Acquired ==> |s.workers| < |scripts|)
    && (s.main == Returned ==> |s.workers| == |scripts| && InFlight(s.workers) == 0)
    && s.permits == InFlight(s.workers) + (if s.main == Acquired then 1 else 0)
    && s.permits <= CONCURRENCY
    && (forall i :: 0 <= i < |s.workers| ==> WorkerOk(scripts[i], s.workers[i], Of(s.log, i)))
    && (forall k :: 0 <= k < |s.log| ==> s.log[k].0 < |s.workers|)
  }

  lemma {:induction false} InFlightUpdate(workers: seq<Worker>, i: nat, w: Worker)
    requires i < |workers|
    ensures InFlight(workers[i := w])
         == InFlight(workers) + (if w == Exited then 0 else 1) - (if workers[i] == Exited then 0 else 1)
  {
    var n := |workers| - 1;
    if i < n {
      InFlightUpdate(workers[..n], i, w);
      assert workers[i := w][..n] == workers[..n][i := w];
    } else {
      assert workers[i := w][..n] == workers[..n];
    }
  }

  lemma {:induction false} InFlightZero(workers: seq<Worker>)
    ensures InFlight(workers) == 0 <==> forall i :: 0 <= i < |workers| ==> workers[i] == Exited
  {
    if workers != [] {
      InFlightZero(workers[..|workers| - 1]);
      assert forall i :: 0 <= i < |workers| - 1 ==> workers[..|workers| - 1][i] == workers[i];
    }
  }

  lemma {:induction false} OfUnused<E>(log: seq<(nat, E)>, i: nat)
    requires forall k :: 0 <= k < |log| ==> log[k].0 != i
    ensures Of(log, i) == []
  {
    if log != [] {
      OfUnused(log[..|log| - 1], i);
    }
  }

  lemma {:induction false} OfSnoc<E>(log: seq<(nat, E)>, i: nat, e: E, j: nat)
    ensures Of(log + [(i, e)], j) == Of(log, j) + (if i == j then [e] else [])
  {
    assert (log + [(i, e)])[..|log|] == log;
  }

  lemma {:induction false} WorkKeepsWorker<E>(scripts: seq<seq<E>>, s: State<E>, i: nat, j: nat)
    requires Inv(scripts, s) && Enabled(scripts, s, Work(i)) && j < |s.workers|
    ensures var t := Apply(scripts, s, Work(i));
            |t.workers| == |s.workers| && WorkerOk(scripts[j], t.workers[j], Of(t.log, j))
  {
    assert WorkerOk(scripts[j], s.workers[j], Of(s.log, j));
    match s.workers[i]
    case Running(k) =>
      if k < |scripts[i]| {
        OfSnoc(s.log, i, scripts[i][k], j);
        if i == j {
          assert scripts[i][..k] + [scripts[i][k]] == scripts[i][..k + 1];
        }
      }
    case Releasing =>
  }

  lemma {:induction false} WorkKeepsInv<E>(scripts: seq<seq<E>>, s: State<E>, i: nat)
    requires Inv(scripts, s) && Enabled(scripts, s, Work(i))
    ensures Inv(scripts, Apply(scripts, s, Work(i)))
  {
    var t := Apply(scripts, s, Work(i));
    InFlightUpdate(s.workers, i, t.workers[i]);
    assert t.workers == s.workers[i := t.workers[i]];
    forall j | 0 <= j < |t.workers| ensures WorkerOk(scripts[j], t.workers[j], Of(t.log, j)) {
      WorkKeepsWorker(scripts, s, i, j);
    }
    InFlightZero(s.workers);
  }

  /** Every step of the loop or of a worker keeps the invariant. */
  lemma {:induction false} StepKeepsInv<E>(scripts: seq<seq<E>>, s: State<E>, step: Step)
    requires Inv(scripts, s) && Enabled(scripts, s, step)
    ensures Inv(scripts, Apply(scripts, s, step))
  {
    match step
    case Work(i) => WorkKeepsInv(scripts, s, i);
    case Spawn =>
      OfUnused(s.log, |s.workers|);
      assert (s.workers + [Running(0)])[..|s.workers|] == s.workers;
    case Wait => InFlightZero(s.workers);
    case Acquire =>
  }

  lemma {:induction false} RunKeepsInv<E>(scripts: seq<seq<E>>, schedule: seq<Step>)
    requires Legal(scripts, schedule)
    ensures Inv(scripts, Run(scripts, schedule))
  {
    if schedule != [] {
      var before := schedule[..|schedule| - 1];
      RunKeepsInv(scripts, before);
      StepKeepsInv(scripts, Run(scripts, before), schedule[|schedule| - 1]);
    }
  }

  /** In every interleaving at most ten workers are in flight, and the permits taken are the
      workers in flight plus the one the loop holds. */
  lemma {:induction false} AtMostTenInFlight<E>(scripts: seq<seq<E>>, schedule: seq<Step>)
    requires Legal(scripts, schedule)
    ensures InFlight(Run(scripts, schedule).workers) <= 10
    ensures Run(scripts, schedule).permits
         == InFlight(Run(scripts, schedule).workers) + (if Run(scripts, schedule).main == Acquired then 1 else 0)
  {
    RunKeepsInv(scripts, schedule);
  }

  /** When the fan-out returns, each member's effects are exactly its script, in order, and the
      log holds nothing else: every member was processed once, whatever the schedule. */
  lemma {:induction false} CompletionIsExact<E>(scripts: seq<seq<E>>, schedule: seq<Step>)
    requires Completes(scripts, schedule)
    ensures forall i :: 0 <= i < |scripts| ==> Of(Run(scripts, schedule).log, i) == scripts[i]
    ensures forall k :: 0 <= k < |Run(scripts, schedule).log| ==> Run(scripts, schedule).log[k].0 < |scripts|
  {
    RunKeepsInv(scripts, schedule);
    var s := Run(scripts, schedule);
    InFlightZero(s.workers);
    forall i | 0 <= i < |scripts| ensures Of(s.log, i) == scripts[i] {
      assert WorkerOk(scripts[i], s.workers[i], Of(s.log, i));
      assert scripts[i][..|scripts[i]|] == scripts[i];
    }
  }

  lemma {:induction false} InFlightSnoc(workers: seq<Worker>, w: Worker)
    ensures InFlight(workers + [w]) == InFlight(workers) + (if w == Exited then 0 else 1)
  {
    assert (workers + [w])[..|workers|] == workers;
  }

  /** Ten are allowed: with as many members there is an interleaving with ten workers in flight. */
  lemma {:induction false} TenCanBeInFlight<E>(scripts: seq<seq<E>>, k: nat) returns (schedule: seq<Step>)
    requires k <= 10 && k <= |scripts|
    ensures Legal(scripts, schedule) && Run(scripts, schedule).main == Looping
    ensures |Run(scripts, schedule).workers| == InFlight(Run(scripts, schedule).workers) == Run(scripts, schedule).permits == k
  {
    if k == 0 {
      schedule := [];
    } else {
      var before := TenCanBeInFlight(scripts, k - 1);
      var acquired := before + [Acquire];
      schedule := acquired + [Spawn];
      assert acquired[..|before|] == before && schedule[..|acquired|] == acquired;
      assert Legal(scripts, acquired) && Run(scripts, acquired) == Apply(scripts, Run(scripts, before), Acquire);
      assert Legal(scripts, schedule) && Run(scripts, schedule) == Apply(scripts, Run(scripts, acquired), Spawn);
      InFlightSnoc(Run(scripts, before).workers, Running(0));
    }
  }

  // ----- Progress -----------------------------------------------------------------------

  function StepsLeft<E>(script: seq<E>, w: Worker): int {
    match w
    case Running(done) => |script| - done + 2
    case Releasing => 1
    case Exited => 0
  }

  /** Steps still to be taken for the first `n` members: a worker's own steps once it is spawned,
      and before that also the permit and the spawn. */
  function WorkLeft<E>(scripts: seq<seq<E>>, workers: seq<Worker>, n: nat): int
    requires n <= |scripts|
  {
    if n == 0 then 0
    else
      WorkLeft(scripts, workers, n - 1)
      + (if n <= |workers| then StepsLeft(scripts[n - 1], workers[n - 1]) else |scripts[n - 1]| + 4)
  }

  function Left<E>(scripts: seq<seq<E>>, s: State<E>): int {
    WorkLeft(scripts, s.workers, |scripts|)
    - (if s.main == Acquired then 1 else 0)
    + (if s.main == Returned then 0 else 1)
  }

  lemma {:induction false} WorkLeftUpdate<E>(scripts: seq<seq<E>>, workers: seq<Worker>, n: nat, i: nat, w: Worker)
    requires n <= |scripts| && i < |workers| && i < |scripts|
    ensures WorkLeft(scripts, workers[i := w], n)
         == WorkLeft(scripts, workers, n)
            + (if i < n then StepsLeft(scripts[i], w) - StepsLeft(scripts[i], workers[i]) else 0)
  {
    if n > 0 {
      WorkLeftUpdate(scripts, workers, n - 1, i, w);
    }
  }

  lemma {:induction false} WorkLeftSpawn<E>(scripts: seq<seq<E>>, workers: seq<Worker>, n: nat)
    requires n <= |scripts| && |workers| < |scripts|
    ensures WorkLeft(scripts, workers + [Running(0)], n)
         == WorkLeft(scripts, workers, n) - (if |workers| < n then 2 else 0)
  {
    if n > 0 {
      WorkLeftSpawn(scripts, workers, n - 1);
    }
  }

  /** Every step, whichever is chosen, uses up exactly one unit of the remaining work. */
  lemma {:induction false} StepUsesOne<E>(scripts: seq<seq<E>>, s: State<E>, step: Step)
    requires Inv(scripts, s) && Enabled(scripts, s, step)
    ensures Left(scripts, Apply(scripts, s, step)) == Left(scripts, s) - 1
  {
    match step
    case Work(i) =>
      var t := Apply(scripts, s, step);
      assert WorkerOk(scripts[i], s.workers[i], Of(s.log, i));
      assert t.workers == s.workers[i := t.workers[i]];
      WorkLeftUpdate(scripts, s.workers, |scripts|, i, t.workers[i]);
    case Spawn => WorkLeftSpawn(scripts, s.workers, |scripts|);
    case Acquire =>
    case Wait =>
  }

  lemma {:induction false} WorkLeftNonNegative<E>(scripts: seq<seq<E>>, s: State<E>, n: nat)
    requires Inv(scripts, s) && n <= |scripts|
    ensures 0 <= WorkLeft(scripts, s.workers, n)
    ensures |s.workers| < n ==> WorkLeft(scripts, s.workers, n) >= 4
  {
    if n > 0 {
      WorkLeftNonNegative(scripts, s, n - 1);
      if n <= |s.workers| {
        assert WorkerOk(scripts[n - 1], s.workers[n - 1], Of(s.log, n - 1));
      }
    }
  }

  lemma {:induction false} RunLength<E>(scripts: seq<seq<E>>, schedule: seq<Step>)
    requires Legal(scripts, schedule)
    ensures |schedule| + Left(scripts, Run(scripts, schedule)) == Left(scripts, Start())
    ensures 0 <= Left(scripts, Run(scripts, schedule))
  {
    RunKeepsInv(scripts, schedule);
    WorkLeftNonNegative(scripts, Run(scripts, schedule), |scripts|);
    if schedule != [] {
      var before := schedule[..|schedule| - 1];
      RunLength(scripts, before);
      RunKeepsInv(scripts, before);
      StepUsesOne(scripts, Run(scripts, before), schedule[|schedule| - 1]);
    }
  }

  /** No schedule is longer than the total work, so none runs forever. */
  lemma {:induction false} SchedulesAreBounded<E>(scripts: seq<seq<E>>, schedule: seq<Step>)
    requires Legal(scripts, schedule)
    ensures |schedule| <= Left(scripts, Start())
  {
    RunLength(scripts, schedule);
  }

  /** No reachable state short of the return is stuck, however many permits are taken. */
  lemma {:induction false} NeverStuck<E>(scripts: seq<seq<E>>, s: State<E>) returns (step: Step)
    requires Inv(scripts, s) && s.main != Returned
    ensures Enabled(scripts, s, step)
  {
    InFlightZero(s.workers);
    if s.main == Acquired {
      step := Spawn;
    } else if i :| 0 <= i < |s.workers| && s.workers[i] != Exited {
      step := Work(i);
    } else if |s.workers| < |scripts| {
      step := Acquire;
    } else {
      step := Wait;
    }
  }

  /** Every schedule can be carried on to the return. */
  lemma {:induction false} EveryScheduleFinishes<E>(
      scripts: seq<seq<E>>, schedule: seq<Step>) returns (whole: seq<Step>)
    requires Legal(scripts, schedule)
    ensures |schedule| <= |whole| && whole[..|schedule|] == schedule
    ensures Completes(scripts, whole)
    decreases Left(scripts, Run(scripts, schedule))
  {
    RunKeepsInv(scripts, schedule);
    RunLength(scripts, schedule);
    if Run(scripts, schedule).main == Returned {
      whole := schedule;
    } else {
      var step := NeverStuck(scripts, Run(scripts, schedule));
      var longer := schedule + [step];
      assert longer[..|longer| - 1] == schedule;
      assert Legal(scripts, longer);
      RunLength(scripts, longer);
      whole := EveryScheduleFinishes(scripts, longer);
      assert whole[..|schedule|] == whole[..|longer|][..|schedule|];
    }
  }

  lemma {:induction false} NothingLeft<E>(scripts: seq<seq<E>>, workers: seq<Worker>, n: nat)
    requires n <= |scripts| == |workers| && InFlight(workers) == 0
    ensures WorkLeft(scripts, workers, n) == 0
  {
    InFlightZero(workers);
    if n > 0 {
      NothingLeft(scripts, workers, n - 1);
    }
  }

  /** A schedule returns exactly when it has taken all the steps there are: all complete
      schedules have that one length, and no legal schedule that long is incomplete. */
  lemma {:induction false} CompleteExactlyAtFullLength<E>(scripts: seq<seq<E>>, schedule: seq<Step>)
    requires Legal(scripts, schedule)
    ensures Completes(scripts, schedule) <==> |schedule| == Left(scripts, Start())
  {
    RunLength(scripts, schedule);
    RunKeepsInv(scripts, schedule);
    var s := Run(scripts, schedule);
    if s.main == Returned {
      NothingLeft(scripts, s.workers, |scripts|);
    } else {
      WorkLeftNonNegative(scripts, s, |scripts|);
    }
  }
}
