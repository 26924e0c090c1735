/** `SubmitAndWait` on a running pool: the submitter, the workers and the collector as processes
    over two bounded channels, in every schedule. Capacity may be zero, where a send needs a
    waiting receiver. A result remembers the job it came from; its output is whatever the
    processor made of it. */
module WorkerPool {

  datatype Result<J, O> = Result(job: J, output: O)

  /** A worker waits for a job, holds one, or waits to hand over its result. */
  datatype Worker<J, O> = Idle | Working(job: J) | Sending(result: Result<J, O>)

  datatype Pool<J, O> = Pool(
    unsent: seq<J>,
    jobs: seq<J>,
    workers: seq<Worker<J, O>>,
    results: seq<Result<J, O>>,
    collected: seq<Result<J, O>>)

  datatype Step<O> =
    | Submit              // the submitter's send goes into the jobs buffer
    | HandOver(worker: nat)   // the submitter's send meets a waiting worker
    | Take(worker: nat)
    | Process(worker: nat, output: O)
    | Deliver(worker: nat)    // the worker's send goes into the results buffer
    | Pass(worker: nat)       // the worker's send meets the waiting collector
    | Collect

  function Start<J, O>(jobs: seq<J>, workers: nat): Pool<J, O> {
    Pool(jobs, [], seq(workers, _ => Idle), [], [])
  }

  /** The collector still waits for results: it receives `total` of them. */
  predicate Waiting<J, O>(p: Pool<J, O>, total: nat) {
    |p.collected| < total
  }

  predicate Enabled<J, O>(p: Pool<J, O>, capacity: nat, total: nat, step: Step<O>) {
    match step
    case Submit => p.unsent != [] && |p.jobs| < capacity
    case HandOver(w) => p.unsent != [] && p.jobs == [] && w < |p.workers| && p.workers[w].Idle?
    case Take(w) => p.jobs != [] && w < |p.workers| && p.workers[w].Idle?
    case Process(w, _) => w < |p.workers| && p.workers[w].Working?
    case Deliver(w) => w < |p.workers| && p.workers[w].Sending? && |p.results| < capacity
    case Pass(w) => w < |p.workers| && p.workers[w].Sending? && p.results == [] && Waiting(p, total)
    case Collect => p.results != [] && Waiting(p, total)
  }

  function Apply<J, O>(p: Pool<J, O>, capacity: nat, total: nat, step: Step<O>): Pool<J, O>
    requires Enabled(p, capacity, total, step)
  {
    match step
    case Submit => p.(unsent := p.unsent[1..], jobs := p.jobs + [p.unsent[0]])
    case HandOver(w) => p.(unsent := p.unsent[1..], workers := p.workers[w := Working(p.unsent[0])])
    case Take(w) => p.(jobs := p.jobs[1..], workers := p.workers[w := Working(p.jobs[0])])
    case Process(w, output) => p.(workers := p.workers[w := Sending(Result(p.workers[w].job, output))])
    case Deliver(w) => p.(workers := p.workers[w := Idle], results := p.results + [p.workers[w].result])
    case Pass(w) => p.(workers := p.workers[w := Idle], collected := p.collected + [p.workers[w].result])
    case Collect => p.(results := p.results[1..], collected := p.collected + [p.results[0]])
  }

  // ---- where the jobs are ----

  ghost function Held<J, O>(w: Worker<J, O>): multiset<J> {
    match w
    case Idle => multiset{}
    case Working(job) => multiset{job}
    case Sending(result) => multiset{result.job}
  }

  ghost function HeldBy<J, O>(workers: seq<Worker<J, O>>): multiset<J> {
    if workers == [] then multiset{} else Held(workers[0]) + HeldBy(workers[1..])
  }

  ghost function Origins<J, O>(results: seq<Result<J, O>>): multiset<J> {
    if results == [] then multiset{} else multiset{results[0].job} + Origins(results[1..])
  }

  /** Every job the pool has been given, wherever it now is. */
  ghost function AllJobs<J, O>(p: Pool<J, O>): multiset<J> {
    multiset(p.unsent) + multiset(p.jobs) + HeldBy(p.workers) + Origins(p.results) + Origins(p.collected)
  }

  // ---- how far the jobs still have to go ----

  function Toil<J, O>(w: Worker<J, O>): nat {
    match w
    case Idle => 0
    case Working(_) => 3
    case Sending(_) => 2
  }

  function ToilOf<J, O>(workers: seq<Worker<J, O>>): nat {
    if workers == [] then 0 else Toil(workers[0]) + ToilOf(workers[1..])
  }

  function Remaining<J, O>(p: Pool<J, O>): nat {
    5 * |p.unsent| + 4 * |p.jobs| + ToilOf(p.workers) + |p.results|
  }

  ghost function HeldCount<J, O>(workers: seq<Worker<J, O>>, j: J): nat {
    if workers == [] then 0 else Held(workers[0])[j] + HeldCount(workers[1..], j)
  }

  lemma {:induction false} HeldIsCount<J, O>(workers: seq<Worker<J, O>>, j: J)
    ensures HeldBy(workers)[j] == HeldCount(workers, j)
  {
    if workers != [] {
      HeldIsCount(workers[1..], j);
    }
  }

  lemma {:induction false} CountAfter<J, O>(workers: seq<Worker<J, O>>, w: nat, worker: Worker<J, O>, j: J)
    requires w < |workers|
    ensures HeldCount(workers[w := worker], j) + Held(workers[w])[j] == HeldCount(workers, j) + Held(worker)[j]
  {
    var after, rest := workers[w := worker], workers[1..];
    if w == 0 {
      assert after[1..] == rest;
    } else {
      CountAfter(rest, w - 1, worker, j);
      assert after[1..] == rest[w - 1 := worker];
    }
  }

  lemma HeldAfter<J, O>(workers: seq<Worker<J, O>>, w: nat, worker: Worker<J, O>, j: J)
    requires w < |workers|
    ensures HeldBy(workers[w := worker])[j] + Held(workers[w])[j] == HeldBy(workers)[j] + Held(worker)[j]
  {
    HeldIsCount(workers, j);
    HeldIsCount(workers[w := worker], j);
    CountAfter(workers, w, worker, j);
  }

  lemma {:induction false} ToilAfter<J, O>(workers: seq<Worker<J, O>>, w: nat, worker: Worker<J, O>)
    requires w < |workers|
    ensures ToilOf(workers[w := worker]) + Toil(workers[w]) == ToilOf(workers) + Toil(worker)
  {
    if w == 0 {
      assert workers[w := worker][1..] == workers[1..];
    } else {
      ToilAfter(workers[1..], w - 1, worker);
      assert workers[w := worker][1..] == workers[1..][w - 1 := worker];
    }
  }

  lemma {:induction false} OriginsAppend<J, O>(results: seq<Result<J, O>>, result: Result<J, O>)
    ensures Origins(results + [result]) == Origins(results) + multiset{result.job}
  {
    if results == [] {
      assert results + [result] == [result];
    } else {
      OriginsAppend(results[1..], result);
      assert (results + [result])[1..] == results[1..] + [result];
    }
  }

  lemma {:induction false} OriginsSize<J, O>(results: seq<Result<J, O>>)
    ensures |Origins(results)| == |results|
  {
    if results != [] {
      OriginsSize(results[1..]);
    }
  }

  lemma SplitFirst<T>(s: seq<T>)
    requires s != []
    ensures multiset(s) == multiset{s[0]} + multiset(s[1..])
  {
    assert s == [s[0]] + s[1..];
  }

  // ---- one step ----

  /** How often one job occurs in the pool. */
  ghost function Count<J, O>(p: Pool<J, O>, j: J): nat {
    multiset(p.unsent)[j] + multiset(p.jobs)[j] + HeldBy(p.workers)[j] + Origins(p.results)[j] + Origins(p.collected)[j]
  }

  lemma CountIsAll<J, O>(p: Pool<J, O>, j: J)
    ensures AllJobs(p)[j] == Count(p, j)
  {
  }

  lemma SendKeepsCount<J, O>(p: Pool<J, O>, capacity: nat, total: nat, step: Step<O>, j: J)
    requires Enabled(p, capacity, total, step) && (step.Submit? || step.HandOver?)
    ensures Count(Apply(p, capacity, total, step), j) == Count(p, j)
  {
    SplitFirst(p.unsent);
    if step.HandOver? {
      HeldAfter(p.workers, step.worker, Working(p.unsent[0]), j);
    }
  }

  lemma WorkKeepsCount<J, O>(p: Pool<J, O>, capacity: nat, total: nat, step: Step<O>, j: J)
    requires Enabled(p, capacity, total, step) && (step.Take? || step.Process?)
    ensures Count(Apply(p, capacity, total, step), j) == Count(p, j)
  {
    HeldAfter(p.workers, step.worker, Apply(p, capacity, total, step).workers[step.worker], j);
    if step.Take? {
      SplitFirst(p.jobs);
    }
  }

  lemma DeliverKeepsCount<J, O>(p: Pool<J, O>, capacity: nat, total: nat, w: nat, j: J)
    requires Enabled(p, capacity, total, Deliver(w))
    ensures Count(Apply(p, capacity, total, Deliver(w)), j) == Count(p, j)
  {
    HeldAfter(p.workers, w, Idle, j);
    OriginsAppend(p.results, p.workers[w].result);
  }

  lemma PassKeepsCount<J, O>(p: Pool<J, O>, capacity: nat, total: nat, w: nat, j: J)
    requires Enabled(p, capacity, total, Pass(w))
    ensures Count(Apply(p, capacity, total, Pass(w)), j) == Count(p, j)
  {
    HeldAfter(p.workers, w, Idle, j);
    OriginsAppend(p.collected, p.workers[w].result);
  }

  /** No job is lost, duplicated or made up by any step. */
  lemma CountIsKept<J, O>(p: Pool<J, O>, capacity: nat, total: nat, step: Step<O>, j: J)
    requires Enabled(p, capacity, total, step)
    ensures Count(Apply(p, capacity, total, step), j) == Count(p, j)
  {
    match step
    case Deliver(w) => DeliverKeepsCount(p, capacity, total, w, j);
    case Pass(w) => PassKeepsCount(p, capacity, total, w, j);
    case Collect => OriginsAppend(p.collected, p.results[0]);
    case Submit => SendKeepsCount(p, capacity, total, step, j);
    case HandOver(_) => SendKeepsCount(p, capacity, total, step, j);
    case Take(_) => WorkKeepsCount(p, capacity, total, step, j);
    case Process(_, _) => WorkKeepsCount(p, capacity, total, step, j);
  }

  lemma SameCounts<T>(a: multiset<T>, b: multiset<T>)
    requires forall j :: a[j] == b[j]
    ensures a == b
  {
  }

  lemma StepConserves<J, O>(p: Pool<J, O>, capacity: nat, total: nat, step: Step<O>)
    requires Enabled(p, capacity, total, step)
    ensures AllJobs(Apply(p, capacity, total, step)) == AllJobs(p)
  {
    var next := Apply(p, capacity, total, step);
    forall j ensures AllJobs(next)[j] == AllJobs(p)[j] {
      CountIsAll(p, j);
      CountIsAll(next, j);
      CountIsKept(p, capacity, total, step, j);
    }
    SameCounts(AllJobs(next), AllJobs(p));
  }

  /** Every step brings some job nearer to the collector. */
  lemma StepProgresses<J, O>(p: Pool<J, O>, capacity: nat, total: nat, step: Step<O>)
    requires Enabled(p, capacity, total, step)
    ensures Remaining(Apply(p, capacity, total, step)) < Remaining(p)
    ensures |Apply(p, capacity, total, step).workers| == |p.workers|
  {
    if step.HandOver? || step.Take? || step.Process? || step.Deliver? || step.Pass? {
      ToilAfter(p.workers, step.worker, Apply(p, capacity, total, step).workers[step.worker]);
    }
  }

  lemma {:induction false} AllIdleHoldNothing<J, O>(workers: seq<Worker<J, O>>)
    requires forall w :: 0 <= w < |workers| ==> workers[w].Idle?
    ensures HeldBy(workers) == multiset{}
  {
    if workers != [] {
      AllIdleHoldNothing(workers[1..]);
    }
  }

  ghost predicate Stuck<J, O(!new)>(p: Pool<J, O>, capacity: nat, total: nat) {
    forall step: Step<O> :: !Enabled(p, capacity, total, step)
  }

  /** No deadlock: with a worker and results still to come, some step is enabled. */
  lemma StuckMeansDone<J, O(!new)>(p: Pool<J, O>, capacity: nat, jobs: seq<J>, output: O)
    requires |p.workers| >= 1 && AllJobs(p) == multiset(jobs)
    requires Stuck(p, capacity, |jobs|)
    ensures Origins(p.collected) == multiset(jobs) && |p.collected| == |jobs|
  {
    var total := |jobs|;
    OriginsSize(p.collected);
    OriginsSize(p.results);
    assert |AllJobs(p)| == total;
    if Waiting(p, total) {
      assert !Enabled(p, capacity, total, Collect);
      assert p.results == [];
      forall w | 0 <= w < |p.workers| ensures p.workers[w].Idle? {
        assert !Enabled(p, capacity, total, Process(w, output));
        assert !Enabled(p, capacity, total, Pass(w));
      }
      assert !Enabled(p, capacity, total, Take(0)) && !Enabled(p, capacity, total, HandOver(0));
      AllIdleHoldNothing(p.workers);
    }
    assert Origins(p.collected) <= AllJobs(p);
    FullSubmultiset(Origins(p.collected), multiset(jobs));
  }

  lemma FullSubmultiset<T>(a: multiset<T>, b: multiset<T>)
    requires a <= b && |a| >= |b|
    ensures a == b
  {
    assert b == a + (b - a);
    assert |b - a| == 0;
  }

  // ---- whole runs ----

  ghost predicate IsRun<J, O>(run: seq<Pool<J, O>>, steps: seq<Step<O>>, capacity: nat, jobs: seq<J>, workers: nat) {
    && |run| == |steps| + 1
    && run[0] == Start(jobs, workers)
    && forall i :: 0 <= i < |steps| ==> StepAt(run, steps, capacity, |jobs|, i)
  }

  ghost predicate StepAt<J, O>(run: seq<Pool<J, O>>, steps: seq<Step<O>>, capacity: nat, total: nat, i: nat)
    requires i < |steps| && |run| == |steps| + 1
  {
    Enabled(run[i], capacity, total, steps[i]) && run[i + 1] == Apply(run[i], capacity, total, steps[i])
  }

  lemma StartHolds<J, O>(jobs: seq<J>, workers: nat)
    ensures var p: Pool<J, O> := Start(jobs, workers); AllJobs(p) == multiset(jobs) && Remaining(p) == 5 * |jobs|
  {
    var p: Pool<J, O> := Start(jobs, workers);
    AllIdleHoldNothing(p.workers);
    IdleToil(p.workers);
  }

  lemma {:induction false} RunConserves<J, O>(
    run: seq<Pool<J, O>>, steps: seq<Step<O>>, capacity: nat, jobs: seq<J>, workers: nat, n: nat)
    requires IsRun(run, steps, capacity, jobs, workers) && n < |run|
    ensures AllJobs(run[n]) == multiset(jobs)
    ensures |run[n].workers| == workers
    ensures Remaining(run[n]) + n <= 5 * |jobs|
  {
    if n == 0 {
      StartHolds<J, O>(jobs, workers);
    } else {
      var k := n - 1;
      RunConserves(run, steps, capacity, jobs, workers, k);
      assert AllJobs(run[k]) == multiset(jobs);
      RunStep(run, steps, capacity, jobs, workers, k);
      assert AllJobs(run[n]) == AllJobs(run[k]);
    }
  }

  lemma RunStep<J, O>(
    run: seq<Pool<J, O>>, steps: seq<Step<O>>, capacity: nat, jobs: seq<J>, workers: nat, i: nat)
    requires IsRun(run, steps, capacity, jobs, workers) && i < |steps|
    ensures AllJobs(run[i + 1]) == AllJobs(run[i])
    ensures |run[i + 1].workers| == |run[i].workers| && Remaining(run[i + 1]) < Remaining(run[i])
  {
    assert StepAt(run, steps, capacity, |jobs|, i);
    StepConserves(run[i], capacity, |jobs|, steps[i]);
    StepProgresses(run[i], capacity, |jobs|, steps[i]);
  }

  lemma {:induction false} IdleToil<J, O>(workers: seq<Worker<J, O>>)
    requires forall w :: 0 <= w < |workers| ==> workers[w].Idle?
    ensures ToilOf(workers) == 0
  {
    if workers != [] {
      IdleToil(workers[1..]);
    }
  }

  /** SubmitAndWait is totally correct under every schedule: no run is longer than five steps a
      job, and a run that can go no further has collected exactly one result for each job. */
  lemma SubmitAndWaitIsCorrect<J, O(!new)>(
    run: seq<Pool<J, O>>, steps: seq<Step<O>>, capacity: nat, jobs: seq<J>, workers: nat, output: O)
    requires workers >= 1
    requires IsRun(run, steps, capacity, jobs, workers)
    ensures |steps| <= 5 * |jobs|
    ensures Stuck(run[|steps|], capacity, |jobs|) ==>
              Origins(run[|steps|].collected) == multiset(jobs) && |run[|steps|].collected| == |jobs|
  {
    RunConserves(run, steps, capacity, jobs, workers, |steps|);
    if Stuck(run[|steps|], capacity, |jobs|) {
      StuckMeansDone(run[|steps|], capacity, jobs, output);
    }
  }

  /** Results collected so far always come from distinct submitted jobs, at most one each. */
  lemma CollectedSoFar<J, O>(
    run: seq<Pool<J, O>>, steps: seq<Step<O>>, capacity: nat, jobs: seq<J>, workers: nat, n: nat)
    requires IsRun(run, steps, capacity, jobs, workers) && n < |run|
    ensures Origins(run[n].collected) <= multiset(jobs)
  {
    RunConserves(run, steps, capacity, jobs, workers, n);
  }

  // ---- the buffers and the results ----

  /** Nothing is held up but by a full or an empty buffer: the submitter, every worker and the
      collector may move whenever their channel allows it. */
  lemma NobodyIsHeldUp<J, O>(p: Pool<J, O>, capacity: nat, total: nat, w: nat, output: O)
    requires w < |p.workers|
    ensures p.unsent != [] && |p.jobs| < capacity ==> Enabled<J, O>(p, capacity, total, Submit)
    ensures p.unsent != [] && p.jobs == [] && p.workers[w].Idle? ==> Enabled<J, O>(p, capacity, total, HandOver(w))
    ensures p.jobs != [] && p.workers[w].Idle? ==> Enabled<J, O>(p, capacity, total, Take(w))
    ensures p.workers[w].Working? ==> Enabled(p, capacity, total, Process(w, output))
    ensures p.workers[w].Sending? && |p.results| < capacity ==> Enabled<J, O>(p, capacity, total, Deliver(w))
    ensures p.workers[w].Sending? && p.results == [] && |p.collected| < total ==>
              Enabled<J, O>(p, capacity, total, Pass(w))
    ensures p.results != [] && |p.collected| < total ==> Enabled<J, O>(p, capacity, total, Collect)
  {
  }

  /** The buffers never hold more than they can. */
  lemma {:induction false} BuffersHold<J, O>(
    run: seq<Pool<J, O>>, steps: seq<Step<O>>, capacity: nat, jobs: seq<J>, workers: nat, n: nat)
    requires IsRun(run, steps, capacity, jobs, workers) && n < |run|
    ensures |run[n].jobs| <= capacity && |run[n].results| <= capacity && |run[n].collected| <= |jobs|
  {
    if n > 0 {
      BuffersHold(run, steps, capacity, jobs, workers, n - 1);
      assert StepAt(run, steps, capacity, |jobs|, n - 1);
    }
  }

  /** The job a step gives to a worker, and the result it takes from one. */
  function GivenBy<J, O>(p: Pool<J, O>, step: Step<O>): seq<J> {
    if step.HandOver? && p.unsent != [] then [p.unsent[0]]
    else if step.Take? && p.jobs != [] then [p.jobs[0]]
    else []
  }

  function TakenBy<J, O>(p: Pool<J, O>, step: Step<O>): seq<Result<J, O>> {
    if (step.Deliver? || step.Pass?) && step.worker < |p.workers| && p.workers[step.worker].Sending?
    then [p.workers[step.worker].result]
    else []
  }

  function Given<J, O>(run: seq<Pool<J, O>>, steps: seq<Step<O>>, n: nat): seq<J>
    requires n <= |steps| && n <= |run|
  {
    if n == 0 then [] else Given(run, steps, n - 1) + GivenBy(run[n - 1], steps[n - 1])
  }

  function Taken<J, O>(run: seq<Pool<J, O>>, steps: seq<Step<O>>, n: nat): seq<Result<J, O>>
    requires n <= |steps| && n <= |run|
  {
    if n == 0 then [] else Taken(run, steps, n - 1) + TakenBy(run[n - 1], steps[n - 1])
  }

  /** The channels are first in, first out: workers are given the jobs in the order submitted, and
      their results are collected in the order they handed them over. */
  lemma {:induction false} ChannelsKeepOrder<J, O>(
    run: seq<Pool<J, O>>, steps: seq<Step<O>>, capacity: nat, jobs: seq<J>, workers: nat, n: nat)
    requires IsRun(run, steps, capacity, jobs, workers) && n < |run|
    ensures Given(run, steps, n) + run[n].jobs + run[n].unsent == jobs
    ensures run[n].collected + run[n].results == Taken(run, steps, n)
  {
    if n > 0 {
      var k := n - 1;
      ChannelsKeepOrder(run, steps, capacity, jobs, workers, k);
      OrderStep(run, steps, capacity, jobs, workers, k);
    }
  }

  lemma OrderStep<J, O>(
    run: seq<Pool<J, O>>, steps: seq<Step<O>>, capacity: nat, jobs: seq<J>, workers: nat, k: nat)
    requires IsRun(run, steps, capacity, jobs, workers) && k < |steps|
    requires Given(run, steps, k) + run[k].jobs + run[k].unsent == jobs
    requires run[k].collected + run[k].results == Taken(run, steps, k)
    ensures Given(run, steps, k + 1) + run[k + 1].jobs + run[k + 1].unsent == jobs
    ensures run[k + 1].collected + run[k + 1].results == Taken(run, steps, k + 1)
  {
    assert StepAt(run, steps, capacity, |jobs|, k);
    var p, q := run[k], run[k + 1];
    StepKeepsOrder(p, capacity, |jobs|, steps[k]);
    Regroup(Given(run, steps, k), GivenBy(p, steps[k]), p.jobs + p.unsent, q.jobs, q.unsent);
    assert Given(run, steps, k) + p.jobs + p.unsent == Given(run, steps, k) + (p.jobs + p.unsent);
  }

  lemma Regroup<T>(done: seq<T>, now: seq<T>, before: seq<T>, later: seq<T>, last: seq<T>)
    requires now + later + last == before
    ensures (done + now) + later + last == done + before
  {
    assert (done + now) + later + last == done + (now + later + last);
  }

  lemma StepKeepsOrder<J, O>(p: Pool<J, O>, capacity: nat, total: nat, step: Step<O>)
    requires Enabled(p, capacity, total, step)
    ensures var q := Apply(p, capacity, total, step);
            && GivenBy(p, step) + q.jobs + q.unsent == p.jobs + p.unsent
            && q.collected + q.results == (p.collected + p.results) + TakenBy(p, step)
  {
  }

  /** Some worker made this result from the job it held. */
  ghost predicate Made<J, O>(run: seq<Pool<J, O>>, steps: seq<Step<O>>, n: nat, result: Result<J, O>) {
    exists i: nat :: i < n && MadeAt(run, steps, i, result)
  }

  predicate MadeAt<J(==), O(==)>(run: seq<Pool<J, O>>, steps: seq<Step<O>>, i: nat, result: Result<J, O>) {
    && i < |steps| && i < |run| && steps[i].Process? && steps[i].worker < |run[i].workers|
    && run[i].workers[steps[i].worker] == Working(result.job) && steps[i].output == result.output
  }

  ghost predicate AllMade<J, O>(run: seq<Pool<J, O>>, steps: seq<Step<O>>, n: nat)
    requires n < |run|
  {
    && (forall i :: 0 <= i < |run[n].results| ==> Made(run, steps, n, run[n].results[i]))
    && (forall i :: 0 <= i < |run[n].collected| ==> Made(run, steps, n, run[n].collected[i]))
    && (forall w :: 0 <= w < |run[n].workers| && run[n].workers[w].Sending? ==>
                      Made(run, steps, n, run[n].workers[w].result))
  }

  lemma MadeStays<J, O>(run: seq<Pool<J, O>>, steps: seq<Step<O>>, n: nat, result: Result<J, O>)
    requires Made(run, steps, n, result)
    ensures Made(run, steps, n + 1, result)
  {
    var i: nat :| i < n && MadeAt(run, steps, i, result);
  }

  /** Every result ever buffered or collected is what a processor returned for a job its worker held. */
  lemma {:induction false} ResultsAreMade<J, O>(
    run: seq<Pool<J, O>>, steps: seq<Step<O>>, capacity: nat, jobs: seq<J>, workers: nat, n: nat)
    requires IsRun(run, steps, capacity, jobs, workers) && n < |run|
    ensures AllMade(run, steps, n)
  {
    if n > 0 {
      ResultsAreMade(run, steps, capacity, jobs, workers, n - 1);
      assert StepAt(run, steps, capacity, |jobs|, n - 1);
      var p, q, step := run[n - 1], run[n], steps[n - 1];
      forall i | 0 <= i < |q.results| ensures Made(run, steps, n, q.results[i]) {
        StepBringsMade(p, capacity, |jobs|, step, q.results[i]);
        MadeStays(run, steps, n - 1, q.results[i]);
      }
      forall i | 0 <= i < |q.collected| ensures Made(run, steps, n, q.collected[i]) {
        StepBringsMade(p, capacity, |jobs|, step, q.collected[i]);
        MadeStays(run, steps, n - 1, q.collected[i]);
      }
      forall w | 0 <= w < |q.workers| && q.workers[w].Sending? ensures Made(run, steps, n, q.workers[w].result) {
        if step.Process? && step.worker == w {
          assert MadeAt(run, steps, n - 1, q.workers[w].result);
        } else {
          MadeStays(run, steps, n - 1, q.workers[w].result);
        }
      }
    }
  }

  /** A step only moves results along. */
  lemma StepBringsMade<J, O>(p: Pool<J, O>, capacity: nat, total: nat, step: Step<O>, r: Result<J, O>)
    requires Enabled(p, capacity, total, step)
    requires r in Apply(p, capacity, total, step).results || r in Apply(p, capacity, total, step).collected
    ensures || r in p.results || r in p.collected
            || exists w :: 0 <= w < |p.workers| && p.workers[w] == Sending(r)
  {
  }

  /** The scheduler's choice in a pool that can move is an enabled step. */
  ghost predicate Picks<J, O(!new)>(schedule: (Pool<J, O>) -> Step<O>, p: Pool<J, O>, capacity: nat, total: nat) {
    !Stuck(p, capacity, total) ==> Enabled(p, capacity, total, schedule(p))
  }

  /** The call itself, for a scheduler that may pick any enabled step at any time. */
  method SubmitAndWait<J(==,!new), O(!new)>(
    jobs: seq<J>, workers: nat, capacity: nat, output: O, schedule: (Pool<J, O>) -> Step<O>)
    returns (results: seq<Result<J, O>>)
    requires workers >= 1
    requires forall p: Pool<J, O> :: Picks(schedule, p, capacity, |jobs|)
    ensures Origins(results) == multiset(jobs) && |results| == |jobs|
  {
    var p: Pool<J, O> := Start(jobs, workers);
    StartHolds<J, O>(jobs, workers);
    while Enabled(p, capacity, |jobs|, schedule(p))
      invariant AllJobs(p) == multiset(jobs) && |p.workers| == workers
      decreases Remaining(p)
    {
      var step := schedule(p);
      StepConserves(p, capacity, |jobs|, step);
      StepProgresses(p, capacity, |jobs|, step);
      p := Apply(p, capacity, |jobs|, step);
    }
    assert Picks(schedule, p, capacity, |jobs|);
    StuckMeansDone(p, capacity, jobs, output);
    return p.collected;
  }
}
