/** One worker of the pool: it claims a task, runs it, and reports the outcome to the queue. */
module Worker {
  import opened Prelude
  import opened Ports
  import opened PriorityHeap
  import opened QueueSpec
  import opened QueueEffects
  import opened QueueInvariants
  import opened QueueSystem
  import opened TaskQueue
  import H = QueueHistory

  /** How the executor ends: it delivers the task, or raises an error. */
  datatype Outcome = Delivered | Raised

  /** One turn of the worker loop, as the outside world decides it. */
  datatype Round = Round(polledAt: real, outcome: Outcome, finishedAt: real)

  /** The system that a queue object and its clients' history form. */
  ghost predicate Matches(queue: InMemoryTaskQueue, s: Sys)
    reads queue, queue.tasks.Values
  {
    queue.Valid() && queue.View() == s.q
  }

  /**
   One round as steps: the worker polls, and exactly when it claimed a task it completes it if the executor
   delivered, and fails it if the executor raised an error.
   */
  predicate TurnOf(worker: WorkerId, tenant: Option<string>, round: Round, turn: seq<Step>) {
    && |turn| > 0 && turn[0].at == round.polledAt
    && turn[0].action.DoDequeue? && turn[0].action.worker == worker && turn[0].action.tenant == tenant
    && |turn| == (if turn[0].action.claimed.Some? then 2 else 1)
    && (|turn| == 2 ==>
          && turn[1].at == round.finishedAt
          && match round.outcome
             case Delivered =>
               turn[1].action == DoComplete(worker, TaskResult(turn[0].action.claimed.value.task.taskId, Completed, None, 0))
             case Raised => turn[1].action == DoFail(worker, "EXECUTION_ERROR"))
  }

  function Flatten(turns: seq<seq<Step>>): seq<Step> {
    if turns == [] then [] else Flatten(turns[..|turns| - 1]) + turns[|turns| - 1]
  }

  /** In how many turns a task was claimed and ended with the given outcome. */
  function Tally(rounds: seq<Round>, turns: seq<seq<Step>>, outcome: Outcome): nat
    requires |turns| <= |rounds|
  {
    if turns == [] then 0 else
      var n := |turns| - 1;
      Tally(rounds, turns[..n], outcome) + (if |turns[n]| == 2 && rounds[n].outcome == outcome then 1 else 0)
  }

  /** Whether a step makes the worker count a retry: the task can be retried once more after the failure. */
  ghost predicate CountsRetry(cfg: Config, s: Sys, step: Step)
    requires Enabled(s, step)
  {
    step.action.DoFail? && WillRetry(Next(cfg, s, step).q, s.held[step.action.worker])
  }

  /** How many retries the workers count in a run. */
  ghost function Counted(cfg: Config, s: Sys, run: seq<Step>, t: Sys): nat
    requires Runs(cfg, s, run, t)
    decreases |run|
  {
    if run == [] then 0
    else (if CountsRetry(cfg, s, run[0]) then 1 else 0) + Counted(cfg, Next(cfg, s, run[0]), run[1..], t)
  }

  class TaskWorker {
    const queue: InMemoryTaskQueue
    const id: WorkerId
    const tenant: Option<string>
    var processed: nat
    var succeeded: nat
    var failed: nat
    var retried: nat

    constructor (queue: InMemoryTaskQueue, id: WorkerId, tenant: Option<string>)
      ensures this.queue == queue && this.id == id && this.tenant == tenant
      ensures processed == succeeded == failed == retried == 0
    {
      this.queue, this.id, this.tenant := queue, id, tenant;
      processed, succeeded, failed, retried := 0, 0, 0, 0;
    }

    /** Reports the outcome of a task that this worker holds; `step` is the step the system makes. */
    method ProcessTask(payload: TaskPayload, outcome: Outcome, now: real, ghost s: Sys) returns (ghost step: Step)
      requires Matches(queue, s) && QInv(s.q) && HeldAgrees(s.held, s.q.status) && s.now <= now
      requires id in s.held && s.held[id] == payload.task.taskId
      requires payload.task.taskId in queue.tasks && queue.tasks[payload.task.taskId] == payload
      modifies this, queue, payload
      ensures queue.tasks == old(queue.tasks)
      ensures Enabled(s, step) && Matches(queue, Next(queue.cfg, s, step)) && id !in Next(queue.cfg, s, step).held
      ensures step == Step(match outcome
                           case Delivered => DoComplete(id, TaskResult(payload.task.taskId, Completed, None, 0))
                           case Raised => DoFail(id, "EXECUTION_ERROR"), now)
      ensures var taskId := payload.task.taskId;
              if outcome == Delivered then
                && queue.status == old(queue.status)[taskId := Completed] && payload.retryCount == old(payload.retryCount)
                && queue.results == old(queue.results)[taskId := TaskResult(taskId, Completed, None, 0)]
                && queue.completedCount == old(queue.completedCount) + 1 && queue.failedCount == old(queue.failedCount)
              else if old(payload.retryCount) < payload.task.maxRetries then
                && queue.status == old(queue.status)[taskId := Pending]
                && payload.retryCount == old(payload.retryCount) + 1 && queue.results == old(queue.results)
                && queue.completedCount == old(queue.completedCount) && queue.failedCount == old(queue.failedCount)
              else
                && queue.status == old(queue.status)[taskId := Failed] && payload.retryCount == old(payload.retryCount)
                && queue.results ==
                   old(queue.results)[taskId := TaskResult(taskId, Failed, Some("EXECUTION_ERROR"), payload.retryCount)]
                && queue.completedCount == old(queue.completedCount) && queue.failedCount == old(queue.failedCount) + 1
      ensures processed == old(processed) + 1
      ensures succeeded == old(succeeded) + (if outcome == Delivered then 1 else 0)
      ensures failed == old(failed) + (if outcome == Raised then 1 else 0)
      ensures retried == old(retried) + (if CountsRetry(queue.cfg, s, step) then 1 else 0)
    {
      hide QInv, HeldAgrees, IsHeap, InMemoryTaskQueue.Stored, Next, Enabled;
      if outcome == Delivered {
        step := ReportSuccess(payload, now, s);
      } else {
        step := ReportFailure(payload, now, s);
      }
      processed := processed + 1;
    }

    method ReportSuccess(payload: TaskPayload, now: real, ghost s: Sys) returns (ghost step: Step)
      requires Matches(queue, s) && s.now <= now
      requires id in s.held && s.held[id] == payload.task.taskId
      requires payload.task.taskId in queue.tasks && queue.tasks[payload.task.taskId] == payload
      modifies `succeeded, queue
      ensures queue.tasks == old(queue.tasks) && payload.retryCount == old(payload.retryCount)
      ensures step == Step(DoComplete(id, TaskResult(payload.task.taskId, Completed, None, 0)), now)
      ensures Enabled(s, step) && Matches(queue, Next(queue.cfg, s, step)) && id !in Next(queue.cfg, s, step).held
      ensures succeeded == old(succeeded) + 1 && !CountsRetry(queue.cfg, s, step)
      ensures var taskId := payload.task.taskId;
              && queue.status == old(queue.status)[taskId := Completed]
              && queue.results == old(queue.results)[taskId := TaskResult(taskId, Completed, None, 0)]
              && queue.completedCount == old(queue.completedCount) + 1 && queue.failedCount == old(queue.failedCount)
    {
      hide QueueSpec.Complete, IsHeap, Next, Enabled;
      var taskId := payload.task.taskId;
      var result := TaskResult(taskId, Completed, None, 0);
      CompleteEffect(s.q, taskId, result);
      var _ := queue.Complete(taskId, result);
      succeeded := succeeded + 1;
      step := NextComplete(queue.cfg, s, id, result, now);
    }

    method ReportFailure(payload: TaskPayload, now: real, ghost s: Sys) returns (ghost step: Step)
      requires Matches(queue, s) && s.now <= now
      requires id in s.held && s.held[id] == payload.task.taskId
      requires payload.task.taskId in queue.tasks && queue.tasks[payload.task.taskId] == payload
      modifies `failed, `retried, queue, payload
      ensures queue.tasks == old(queue.tasks)
      ensures step == Step(DoFail(id, "EXECUTION_ERROR"), now)
      ensures Enabled(s, step) && Matches(queue, Next(queue.cfg, s, step)) && id !in Next(queue.cfg, s, step).held
      ensures failed == old(failed) + 1
      ensures retried == old(retried) + (if CountsRetry(queue.cfg, s, step) then 1 else 0)
      ensures var taskId := payload.task.taskId;
              && queue.completedCount == old(queue.completedCount)
              && if old(payload.retryCount) < payload.task.maxRetries then
                   && queue.status == old(queue.status)[taskId := Pending] && queue.results == old(queue.results)
                   && payload.retryCount == old(payload.retryCount) + 1 && queue.failedCount == old(queue.failedCount)
                 else
                   && queue.status == old(queue.status)[taskId := Failed]
                   && payload.retryCount == old(payload.retryCount) && queue.failedCount == old(queue.failedCount) + 1
                   && queue.results ==
                      old(queue.results)[taskId := TaskResult(taskId, Failed, Some("EXECUTION_ERROR"), payload.retryCount)]
    {
      hide QueueSpec.Fail, IsHeap, InMemoryTaskQueue.Stored, Next, Enabled, ItemFor, Pow2;
      var taskId := payload.task.taskId;
      queue.RetriesOf(taskId);
      FailEffect(queue.cfg, s.q, taskId, "EXECUTION_ERROR", true, now);
      var _ := queue.Fail(taskId, "EXECUTION_ERROR", true, now);
      queue.RetriesOf(taskId);
      failed := failed + 1;
      step := NextFail(queue.cfg, s, id, "EXECUTION_ERROR", now);
      var again := queue.CanRetry(payload);
      if again {
        retried := retried + 1;
      }
    }

    /** Claims a task if there is one for this worker. */
    method Poll(now: real, ghost s: Sys) returns (payload: Option<TaskPayload>, ghost step: Step)
      requires Matches(queue, s) && id !in s.held && s.now <= now
      modifies queue
      ensures queue.tasks == old(queue.tasks)
      ensures Enabled(s, step) && Matches(queue, Next(queue.cfg, s, step)) && step.at == now
      ensures step.action.DoDequeue? && step.action.worker == id && step.action.tenant == tenant
      ensures payload.Some? <==> step.action.claimed.Some?
      ensures var t := Next(queue.cfg, s, step);
              if payload.None? then t.held == s.held
              else
                && id in t.held && t.held[id] == step.action.claimed.value.task.taskId == payload.value.task.taskId
                && t.held[id] in queue.tasks && payload.value == queue.tasks[t.held[id]]
    {
      hide Found, Sweep, ClaimItem;
      ghost var popped, claimed;
      payload, popped, claimed := queue.Dequeue(tenant, now);
      step := Step(DoDequeue(id, tenant, popped, claimed), now);
      FoundIsAfterSearch(s.q, popped, claimed, tenant, now, queue.View());
    }

    /**
     The worker loop, with nobody else at work: in each round it polls, and completes or fails the task exactly
     when it claimed one; between two rounds it holds nothing.
     */
    method Loop(rounds: seq<Round>, ghost s: Sys) returns (ghost turns: seq<seq<Step>>, ghost run: seq<Step>, ghost t: Sys)
      requires Matches(queue, s) && QInv(s.q) && HeldAgrees(s.held, s.q.status) && id !in s.held
      requires forall i | 0 <= i < |rounds| :: s.now <= rounds[i].polledAt <= rounds[i].finishedAt
      requires forall i, j | 0 <= i < j < |rounds| :: rounds[i].finishedAt <= rounds[j].polledAt
      modifies this, queue, queue.tasks.Values
      ensures Matches(queue, t) && Runs(queue.cfg, s, run, t) && id !in t.held
      ensures |turns| == |rounds| && run == Flatten(turns)
      ensures forall i | 0 <= i < |rounds| :: TurnOf(id, tenant, rounds[i], turns[i])
      ensures forall i | 0 <= i < |rounds| && |turns[i]| == 2 ::
                && turns[i][0].action.DoDequeue? && turns[i][0].action.claimed.Some? && turns[i][1].at == rounds[i].finishedAt
                && (turns[i][1].action.DoComplete? <==> rounds[i].outcome == Delivered)
                && (turns[i][1].action.DoFail? <==> rounds[i].outcome == Raised)
      ensures succeeded == old(succeeded) + |set i | 0 <= i < |rounds| && |turns[i]| == 2 && rounds[i].outcome == Delivered|
      ensures failed == old(failed) + |set i | 0 <= i < |rounds| && |turns[i]| == 2 && rounds[i].outcome == Raised|
      ensures processed - succeeded - failed == old(processed - succeeded - failed)
      ensures retried == old(retried) + Counted(queue.cfg, s, run, t)
    {
      hide QInv, HeldAgrees, Enabled, IsHeap, TurnOf, InMemoryTaskQueue.Stored;
      turns, run, t := [], [], s;
      for i := 0 to |rounds|
        invariant Matches(queue, t) && QInv(t.q) && HeldAgrees(t.held, t.q.status) && id !in t.held
        invariant queue.tasks == old(queue.tasks)
        invariant Runs(queue.cfg, s, run, t) && run == Flatten(turns)
        invariant t.now <= (if i == 0 then s.now else rounds[i - 1].finishedAt)
        invariant |turns| == i && forall k | 0 <= k < i :: TurnOf(id, tenant, rounds[k], turns[k])
        invariant succeeded == old(succeeded) + Tally(rounds, turns, Delivered)
        invariant failed == old(failed) + Tally(rounds, turns, Raised)
        invariant processed - succeeded - failed == old(processed - succeeded - failed)
        invariant retried == old(retried) + Counted(queue.cfg, s, run, t)
      {
        ghost var turn;
        turn, t := Turn(rounds[i], s, run, t);
        TurnAdded(rounds, turns, turn);
        turns, run := turns + [turn], run + turn;
      }
      TallyCounts(rounds, turns, Delivered);
      TallyCounts(rounds, turns, Raised);
      forall i | 0 <= i < |rounds| && |turns[i]| == 2
        ensures turns[i][0].action.DoDequeue? && turns[i][0].action.claimed.Some? && turns[i][1].at == rounds[i].finishedAt
        ensures turns[i][1].action.DoComplete? <==> rounds[i].outcome == Delivered
        ensures turns[i][1].action.DoFail? <==> rounds[i].outcome == Raised
      {
        TurnEnds(id, tenant, rounds[i], turns[i]);
      }
    }

    method Turn(round: Round, ghost s: Sys, ghost run: seq<Step>, ghost t: Sys) returns (ghost turn: seq<Step>, ghost t': Sys)
      requires Matches(queue, t) && QInv(t.q) && HeldAgrees(t.held, t.q.status) && id !in t.held
      requires t.now <= round.polledAt <= round.finishedAt && Runs(queue.cfg, s, run, t)
      modifies this, queue, queue.tasks.Values
      ensures Matches(queue, t') && QInv(t'.q) && HeldAgrees(t'.held, t'.q.status) && id !in t'.held
      ensures queue.tasks == old(queue.tasks)
      ensures t'.now <= round.finishedAt && Runs(queue.cfg, s, run + turn, t')
      ensures TurnOf(id, tenant, round, turn)
      ensures succeeded == old(succeeded) + (if |turn| == 2 && round.outcome == Delivered then 1 else 0)
      ensures failed == old(failed) + (if |turn| == 2 && round.outcome == Raised then 1 else 0)
      ensures processed - succeeded - failed == old(processed - succeeded - failed)
      ensures retried - Counted(queue.cfg, s, run + turn, t') == old(retried) - Counted(queue.cfg, s, run, t)
    {
      hide QInv, HeldAgrees, Enabled, IsHeap, InMemoryTaskQueue.Stored, CountsRetry, Counted, Runs, Next;
      ghost var step;
      var payload;
      payload, step := Poll(round.polledAt, t);
      t' := Advance(queue.cfg, s, run, t, step);
      turn := [step];
      PollCountsNothing(queue.cfg, t, step);
      if payload.Some? {
        ghost var mid := t';
        step := ProcessTask(payload.value, round.outcome, round.finishedAt, mid);
        t' := Advance(queue.cfg, s, run + turn, mid, step);
        assert run + turn + [step] == run + (turn + [step]);
        turn := turn + [step];
      }
    }
  }

  lemma PollCountsNothing(cfg: Config, s: Sys, step: Step)
    requires Enabled(s, step) && step.action.DoDequeue?
    ensures !CountsRetry(cfg, s, step)
  {
  }

  lemma TurnEnds(worker: WorkerId, tenant: Option<string>, round: Round, turn: seq<Step>)
    requires TurnOf(worker, tenant, round, turn) && |turn| == 2
    ensures turn[0].action.DoDequeue? && turn[0].action.claimed.Some? && turn[1].at == round.finishedAt
    ensures turn[1].action.DoComplete? <==> round.outcome == Delivered
    ensures turn[1].action.DoFail? <==> round.outcome == Raised
  {
  }

  function Hits(rounds: seq<Round>, turns: seq<seq<Step>>, outcome: Outcome): set<int>
    requires |turns| <= |rounds|
  {
    set i | 0 <= i < |turns| && |turns[i]| == 2 && rounds[i].outcome == outcome
  }

  lemma HitsSnoc(rounds: seq<Round>, turns: seq<seq<Step>>, outcome: Outcome)
    requires 0 < |turns| <= |rounds|
    ensures var n := |turns| - 1;
            |Hits(rounds, turns, outcome)| ==
            |Hits(rounds, turns[..n], outcome)| + if |turns[n]| == 2 && rounds[n].outcome == outcome then 1 else 0
  {
    var n := |turns| - 1;
    var rest := Hits(rounds, turns[..n], outcome);
    assert Hits(rounds, turns, outcome) == if |turns[n]| == 2 && rounds[n].outcome == outcome then rest + {n} else rest;
  }

  lemma {:induction false} TallyCounts(rounds: seq<Round>, turns: seq<seq<Step>>, outcome: Outcome)
    requires |turns| <= |rounds|
    ensures Tally(rounds, turns, outcome) == |Hits(rounds, turns, outcome)|
  {
    if turns == [] {
      assert Hits(rounds, turns, outcome) == {};
    } else {
      hide Hits;
      HitsSnoc(rounds, turns, outcome);
      TallyCounts(rounds, turns[..|turns| - 1], outcome);
    }
  }

  lemma TurnAdded(rounds: seq<Round>, turns: seq<seq<Step>>, turn: seq<Step>)
    requires |turns| < |rounds|
    ensures Flatten(turns + [turn]) == Flatten(turns) + turn
    ensures forall outcome :: Tally(rounds, turns + [turn], outcome) ==
              Tally(rounds, turns, outcome) + if |turn| == 2 && rounds[|turns|].outcome == outcome then 1 else 0
  {
    assert (turns + [turn])[..|turns|] == turns;
  }

  lemma NextComplete(cfg: Config, s: Sys, w: WorkerId, result: TaskResult, at: real) returns (step: Step)
    requires w in s.held && s.now <= at && result.taskId == s.held[w] && result.status == Completed
    ensures step == Step(DoComplete(w, result), at) && Enabled(s, step)
    ensures Next(cfg, s, step).q == Complete(s.q, s.held[w], result) && Next(cfg, s, step).held == s.held - {w}
  {
    hide Complete;
    step := Step(DoComplete(w, result), at);
  }

  lemma NextFail(cfg: Config, s: Sys, w: WorkerId, errorCode: string, at: real) returns (step: Step)
    requires w in s.held && s.now <= at
    ensures step == Step(DoFail(w, errorCode), at) && Enabled(s, step)
    ensures Next(cfg, s, step).q == Fail(cfg, s.q, s.held[w], errorCode, true, at) && Next(cfg, s, step).held == s.held - {w}
  {
    hide Fail;
    step := Step(DoFail(w, errorCode), at);
  }

  lemma FoundIsAfterSearch(q: QState, popped: seq<PriorityItem>, claimed: Option<PriorityItem>,
                           tenant: Option<string>, now: real, q': QState)
    ensures Found(q, popped, claimed, tenant, now, q') ==> q' == AfterSearch(q, popped, claimed, tenant, now)
    ensures AfterSearch(q, [], None, tenant, now) == q
  {
  }

  lemma Advance(cfg: Config, s: Sys, run: seq<Step>, t: Sys, step: Step) returns (t': Sys)
    requires Runs(cfg, s, run, t) && Enabled(t, step) && QInv(t.q) && HeldAgrees(t.held, t.q.status)
    ensures t' == Next(cfg, t, step) && Runs(cfg, s, run + [step], t')
    ensures QInv(t'.q) && HeldAgrees(t'.held, t'.q.status) && t'.now == step.at
    ensures Counted(cfg, s, run + [step], t') == Counted(cfg, s, run, t) + if CountsRetry(cfg, t, step) then 1 else 0
  {
    t' := Next(cfg, t, step);
    hide QInv, HeldAgrees, Enabled, NextQueue, NextHeld, NextLog, Effective;
    StepQInv(cfg, t, step);
    var e := EffectOf(cfg, t, step);
    QInvKeyed(t.q);
    H.HeldKept(cfg, t, e, t');
    RunsSnoc(cfg, s, run, t, step);
  }

  lemma {:induction false} RunsSnoc(cfg: Config, s: Sys, run: seq<Step>, t: Sys, step: Step)
    requires Runs(cfg, s, run, t) && Enabled(t, step)
    ensures Runs(cfg, s, run + [step], Next(cfg, t, step))
    ensures Counted(cfg, s, run + [step], Next(cfg, t, step)) ==
            Counted(cfg, s, run, t) + if CountsRetry(cfg, t, step) then 1 else 0
    decreases |run|
  {
    hide Enabled, Next, CountsRetry;
    if run == [] {
      assert ([] + [step])[1..] == [];
    } else {
      RunsSnoc(cfg, Next(cfg, s, run[0]), run[1..], t, step);
      assert (run + [step])[1..] == run[1..] + [step];
    }
  }

  /**
   The worker counts a failure as retried when the task could be retried once more after the failure was
   reported, not when it was in fact retried. The two agree except at the task's last retry.
   */
  lemma RetriedCount(cfg: Config, q: QState, id: TaskId, errorCode: string, now: real)
    requires QInv(q) && id in q.tasks
    ensures var q' := Fail(cfg, q, id, errorCode, true, now);
            && (q'.Is(id, Pending) || q'.Is(id, Failed)) && id in q.retries
            && (q'.Is(id, Pending) <==> WillRetry(q, id))
            && (WillRetry(q', id) ==> q'.Is(id, Pending))
            && ((WillRetry(q', id) <==> q'.Is(id, Pending)) <==> q.retries[id] != q.tasks[id].maxRetries - 1)
  {
    hide QInv, ItemFor, Settle, Fail, Config.Delay;
    QInvKeyed(q);
    FailMoves(cfg, q, id, errorCode, now);
  }

  /** The scheduled retries that leave the task another one. */
  function NotLast(log: seq<Event>, tasks: map<TaskId, Task>): nat {
    if log == [] then 0 else
      var n := |log| - 1;
      NotLast(log[..n], tasks) +
      (if log[n].RetryScheduled? && log[n].id in tasks && log[n].retry < tasks[log[n].id].maxRetries then 1 else 0)
  }

  /**
   Over any run, whatever the number of workers, the retries they count are exactly the scheduled retries that are
   not the last one of their task.
   */
  lemma RetriedOverRun(cfg: Config, run: seq<Step>, t: Sys)
    requires Runs(cfg, START, run, t)
    ensures Counted(cfg, START, run, t) == NotLast(t.log, t.q.tasks)
  {
    H.StartInv(cfg);
    RetriedFrom(cfg, START, run, t, t.q.tasks);
  }

  lemma {:induction false} RetriedFrom(cfg: Config, s: Sys, run: seq<Step>, t: Sys, tasks: map<TaskId, Task>)
    requires H.TInv(cfg, s) && Runs(cfg, s, run, t) && tasks == t.q.tasks
    ensures Counted(cfg, s, run, t) == NotLast(t.log, tasks) - NotLast(s.log, tasks)
    ensures H.Extends(s, t)
    decreases |run|
  {
    hide H.TInv, Next, Enabled, CountsRetry, NotLast;
    if run == [] {
      ExtendsSelf(s);
    } else {
      var u := Next(cfg, s, run[0]);
      H.StepInv(cfg, s, run[0]);
      RetriedFrom(cfg, u, run[1..], t, tasks);
      StepExtends(cfg, s, run[0]);
      RetriedStep(cfg, s, run[0], tasks);
    }
  }

  lemma ExtendsSelf(s: Sys)
    ensures H.Extends(s, s)
  {
  }

  lemma StepExtends(cfg: Config, s: Sys, step: Step)
    requires H.TInv(cfg, s) && Enabled(s, step)
    ensures H.Extends(s, Next(cfg, s, step))
  {
    hide QInv, HeldAgrees, Next, Effective, Enabled;
    var e := EffectOf(cfg, s, step);
    H.SInvKeys(s);
    H.EffectExtends(cfg, s, e, Next(cfg, s, step));
  }

  lemma RetriedStep(cfg: Config, s: Sys, step: Step, tasks: map<TaskId, Task>)
    requires H.TInv(cfg, s) && Enabled(s, step)
    requires forall id | id in s.q.tasks :: id in tasks && tasks[id] == s.q.tasks[id]
    ensures NotLast(Next(cfg, s, step).log, tasks) ==
            NotLast(s.log, tasks) + if CountsRetry(cfg, s, step) then 1 else 0
  {
    if step.action.DoFail? {
      FailedStep(cfg, s, step.action.worker, step.action.errorCode, step.at, tasks);
    } else {
      OtherStep(cfg, s, step, tasks);
    }
  }

  lemma OtherStep(cfg: Config, s: Sys, step: Step, tasks: map<TaskId, Task>)
    requires Enabled(s, step) && !step.action.DoFail?
    ensures NotLast(Next(cfg, s, step).log, tasks) == NotLast(s.log, tasks) && !CountsRetry(cfg, s, step)
  {
    hide NextQueue, MaySearch, Lists;
    var t := Next(cfg, s, step);
    if t.log != s.log {
      assert t.log[..|t.log| - 1] == s.log;
    }
  }

  lemma FailedStep(cfg: Config, s: Sys, w: WorkerId, errorCode: string, at: real, tasks: map<TaskId, Task>)
    requires H.TInv(cfg, s) && Enabled(s, Step(DoFail(w, errorCode), at))
    requires forall id | id in s.q.tasks :: id in tasks && tasks[id] == s.q.tasks[id]
    ensures NotLast(Next(cfg, s, Step(DoFail(w, errorCode), at)).log, tasks) ==
            NotLast(s.log, tasks) + if CountsRetry(cfg, s, Step(DoFail(w, errorCode), at)) then 1 else 0
  {
    hide H.TInv, QInv, HeldAgrees, Fail, NotLast;
    HeldStored(cfg, s, w);
    var id := s.held[w];
    RetriedCount(cfg, s.q, id, errorCode, at);
    if WillRetry(s.q, id) {
      NotLastSnoc(s.log, RetryScheduled(id, s.q.retries[id] + 1, at), tasks);
    }
  }

  lemma HeldStored(cfg: Config, s: Sys, w: WorkerId)
    requires H.TInv(cfg, s) && w in s.held
    ensures QInv(s.q) && s.held[w] in s.q.tasks && s.held[w] in s.q.retries
  {
    hide QInv, HeldAgrees;
    HolderOf(s, w);
  }

  lemma NotLastSnoc(log: seq<Event>, e: Event, tasks: map<TaskId, Task>)
    ensures NotLast(log + [e], tasks) == NotLast(log, tasks) +
              if e.RetryScheduled? && e.id in tasks && e.retry < tasks[e.id].maxRetries then 1 else 0
  {
    assert (log + [e])[..|log|] == log;
  }

  /** A task that may be retried once, held by a worker: its failure retries it, and the worker does not count it. */
  lemma RetryNotCounted(cfg: Config) returns (run: seq<Step>, s: Sys, step: Step)
    requires cfg.maxSize > 0
    ensures Runs(cfg, START, run, s) && Enabled(s, step) && step.action.DoFail?
    ensures Next(cfg, s, step).q.Is(0, Pending) && WillRetry(s.q, 0) && !CountsRetry(cfg, s, step)
  {
    var task := Task(0, "t", None, Normal, 0.0, 300, 1);
    var item := ItemFor(task, 0.0);
    var add, claim := Step(DoEnqueue(task, 0, 0.0), 0.0), Step(DoDequeue(7, None, [], Some(item)), 0.0);
    run := [add, claim];
    step := Step(DoFail(7, "EXECUTION_ERROR"), 1.0);
    var s1 := Next(cfg, START, add);
    assert s1.q.heap == multiset{item};
    FirstClaimed(s1.q, item);
    s := Next(cfg, s1, claim);
    assert run[1..] == [claim] && run[1..][1..] == [];
    assert Runs(cfg, s, run[1..][1..], s);
    assert Runs(cfg, s1, run[1..], s);
  }

  lemma FirstClaimed(q: QState, item: PriorityItem)
    requires q.heap == multiset{item} && Look(q, item, None, 0.0) == Claim
    ensures Found(q, [], Some(item), None, 0.0, AfterSearch(q, [], Some(item), None, 0.0))
  {
    assert [] + [item] == [item] && [item][..0] == [];
  }
}
