/**
 The queue together with its clients, as a state machine: any number of workers, each holding at
 most one task, producers, cancellations and expiry sweeps, interleaved in any order. Each step
 is one section of code that runs under the queue's lock, at one reading of a clock that never
 goes back. The log and the two maps of enqueue data are history, written but never read.
 */
module QueueSystem {
  import opened Prelude
  import opened Ports
  import opened PriorityHeap
  import opened QueueSpec
  import opened QueueInvariants
  import opened QueueClaims

  type WorkerId = nat

  datatype Event =
    | Claimed(id: TaskId, retry: int, at: real)
    | RetryScheduled(id: TaskId, retry: int, at: real)

  datatype Sys = Sys(
    q: QState, now: real, held: map<WorkerId, TaskId>,
    initial: map<TaskId, int>, enqueuedAt: map<TaskId, real>, log: seq<Event>)

  const START := Sys(EMPTY, 0.0, map[], map[], map[], [])

  datatype Action =
    | DoEnqueue(task: Task, retryCount: int, delay: real)
    | DoDequeue(worker: WorkerId, tenant: Option<string>, popped: seq<PriorityItem>, claimed: Option<PriorityItem>)
    | DoComplete(worker: WorkerId, result: TaskResult)
    | DoFail(worker: WorkerId, errorCode: string)
    | DoCancel(id: TaskId)
    | DoClearExpired(order: seq<TaskId>)
    | DoShutdown

  datatype Step = Step(action: Action, at: real)

  function AfterSearch(q: QState, popped: seq<PriorityItem>, claimed: Option<PriorityItem>,
                       tenant: Option<string>, now: real): QState
  {
    var s := Sweep(q, popped, tenant, now);
    if claimed.Some? then ClaimItem(s, claimed.value) else s
  }

  /** A closed queue is not searched. */
  ghost predicate MaySearch(q: QState, popped: seq<PriorityItem>, claimed: Option<PriorityItem>,
                            tenant: Option<string>, now: real)
  {
    if q.closed then popped == [] && claimed == None
    else Found(q, popped, claimed, tenant, now, AfterSearch(q, popped, claimed, tenant, now))
  }

  /**
   What the clients do: identifiers are fresh, only an idle worker dequeues, and only the worker that
   holds a task completes or fails it. The executor reports success with the status COMPLETED.
   */
  ghost predicate Enabled(s: Sys, step: Step) {
    && s.now <= step.at
    && match step.action
       case DoEnqueue(task, _, _) => task.taskId !in s.q.tasks
       case DoDequeue(w, tenant, popped, claimed) => w !in s.held && MaySearch(s.q, popped, claimed, tenant, step.at)
       case DoComplete(w, result) => w in s.held && result.taskId == s.held[w] && result.status == Completed
       case DoFail(w, _) => w in s.held
       case DoCancel(_) => true
       case DoClearExpired(order) => Lists(order, Overdue(s.q, step.at))
       case DoShutdown => true
  }

  function NextQueue(cfg: Config, s: Sys, step: Step): QState
    requires Enabled(s, step)
  {
    match step.action
    case DoEnqueue(task, retryCount, delay) => Enqueue(cfg, s.q, task, retryCount, delay, step.at)
    case DoDequeue(_, tenant, popped, claimed) => AfterSearch(s.q, popped, claimed, tenant, step.at)
    case DoComplete(w, result) => Complete(s.q, s.held[w], result)
    case DoFail(w, errorCode) => Fail(cfg, s.q, s.held[w], errorCode, true, step.at)
    case DoCancel(id) => Cancel(s.q, id)
    case DoClearExpired(order) => ExpireAll(s.q, order)
    case DoShutdown => s.q.(closed := true)
  }

  function NextHeld(s: Sys, step: Step): map<WorkerId, TaskId> {
    match step.action
    case DoDequeue(w, _, _, claimed) =>
      if claimed.Some? then s.held[w := claimed.value.task.taskId] else s.held
    case DoComplete(w, _) => s.held - {w}
    case DoFail(w, _) => s.held - {w}
    case _ => s.held
  }

  function NextLog(s: Sys, step: Step): seq<Event>
    requires Enabled(s, step)
  {
    match step.action
    case DoDequeue(w, _, _, claimed) =>
      if claimed.None? then s.log else
        var id := claimed.value.task.taskId;
        s.log + [Claimed(id, if id in s.q.retries then s.q.retries[id] else 0, step.at)]
    case DoFail(w, _) =>
      var id := s.held[w];
      if WillRetry(s.q, id) then s.log + [RetryScheduled(id, s.q.retries[id] + 1, step.at)] else s.log
    case _ => s.log
  }

  predicate Admits(cfg: Config, s: Sys, step: Step) {
    step.action.DoEnqueue? && EnqueueResult(cfg, s.q) == Accepted
  }

  function NextInitial(cfg: Config, s: Sys, step: Step): map<TaskId, int> {
    if Admits(cfg, s, step) then s.initial[step.action.task.taskId := step.action.retryCount] else s.initial
  }

  function NextEnqueuedAt(cfg: Config, s: Sys, step: Step): map<TaskId, real> {
    if Admits(cfg, s, step) then s.enqueuedAt[step.action.task.taskId := step.at] else s.enqueuedAt
  }

  function Next(cfg: Config, s: Sys, step: Step): Sys
    requires Enabled(s, step)
  {
    Sys(NextQueue(cfg, s, step), step.at, NextHeld(s, step),
        NextInitial(cfg, s, step), NextEnqueuedAt(cfg, s, step), NextLog(s, step))
  }

  /** `run` goes from `s` to `s'` by enabled steps. */
  ghost predicate Runs(cfg: Config, s: Sys, run: seq<Step>, s': Sys)
    decreases |run|
  {
    if run == [] then s' == s
    else Enabled(s, run[0]) && Runs(cfg, Next(cfg, s, run[0]), run[1..], s')
  }

  // ----- The queue's own invariant -----

  /** Pending or cancelled tasks may become cancelled or expired and heap items may go; nothing else changes. */
  ghost predicate Quiet(q: QState, q': QState) {
    && q'.tasks == q.tasks && q'.retries == q.retries
    && q'.heap <= q.heap
    && q'.status.Keys == q.status.Keys
    && forall id | id in q.status ::
         || q'.status[id] == q.status[id]
         || ((q'.status[id] == Expired || q'.status[id] == Cancelled) && (q.status[id] == Pending || q.status[id] == Cancelled))
  }

  function Expiring(status: StatusMap, order: seq<TaskId>): StatusMap {
    map id | id in status :: if id in order then Expired else status[id]
  }

  lemma {:induction false} ExpireAllShape(q: QState, order: seq<TaskId>)
    requires forall id | id in order :: id in q.status
    ensures
      var q' := ExpireAll(q, order);
      && q'.tasks == q.tasks && q'.heap == q.heap && q'.retries == q.retries && q'.closed == q.closed
      && q'.status == Expiring(q.status, order)
  {
    if order == [] {
      assert Expiring(q.status, []) == q.status;
    } else {
      var n := |order| - 1;
      var init, id := order[..n], order[n];
      assert order == init + [id];
      assert id in order;
      ExpireAllShape(q, init);
      MarkShape(ExpireAll(q, init), id);
      assert Expiring(q.status, order) == Expiring(q.status, init)[id := Expired];
    }
  }

  lemma ExpiringAt(status: StatusMap, order: seq<TaskId>, id: TaskId)
    requires id in status && id !in order
    ensures id in Expiring(status, order) && Expiring(status, order)[id] == status[id]
  {
  }

  lemma ExpireAllLast(q: QState, order: seq<TaskId>)
    requires order != []
    ensures ExpireAll(q, order) == MarkExpired(ExpireAll(q, order[..|order| - 1]), order[|order| - 1])
  {
  }

  lemma {:induction false} ExpireAllInv(q: QState, order: seq<TaskId>)
    requires QInv(q)
    requires forall id | id in order :: q.Is(id, Pending)
    requires forall i, j | 0 <= i < j < |order| :: order[i] != order[j]
    ensures QInv(ExpireAll(q, order))
  {
    if order == [] {
    } else {
      hide QInv, ExpireAll, Expiring, MarkExpired;
      var n := |order| - 1;
      var init, id := order[..n], order[n];
      assert id in order && order == init + [id];
      ExpireAllInv(q, init);
      QInvKeyed(q);
      ExpireAllShape(q, init);
      ExpireAllLast(q, order);
      ExpiringAt(q.status, init, id);
      MarkExpiredInv(ExpireAll(q, init), id);
    }
  }

  lemma OverdueArePending(q: QState, order: seq<TaskId>, now: real)
    requires Lists(order, Overdue(q, now))
    ensures forall id | id in order :: q.Is(id, Pending)
    ensures forall id | id in q.status && id !in order :: !(id in q.tasks && q.Is(id, Pending) && q.tasks[id].IsExpired(now))
  {
  }

  lemma EnqueueInv(cfg: Config, q: QState, task: Task, retryCount: int, delay: real, now: real)
    requires QInv(q) && task.taskId !in q.tasks
    ensures QInv(Enqueue(cfg, q, task, retryCount, delay, now))
  {
    hide QInv, Admit;
    if EnqueueResult(cfg, q) == Accepted {
      AdmitInv(q, task, retryCount, if delay > 0.0 then now + delay else now);
    }
  }

  lemma SearchInv(q: QState, popped: seq<PriorityItem>, claimed: Option<PriorityItem>, tenant: Option<string>, now: real)
    requires QInv(q) && MaySearch(q, popped, claimed, tenant, now)
    ensures QInv(AfterSearch(q, popped, claimed, tenant, now))
  {
    hide QInv, Found;
    if !q.closed {
      FoundInv(q, popped, claimed, tenant, now, AfterSearch(q, popped, claimed, tenant, now));
    }
  }

  lemma ClearInv(q: QState, order: seq<TaskId>, now: real)
    requires QInv(q) && Lists(order, Overdue(q, now))
    ensures QInv(ExpireAll(q, order))
  {
    OverdueArePending(q, order, now);
    ExpireAllInv(q, order);
  }

  /** Every step keeps the agreements between the structures of the queue. */
  lemma StepQInv(cfg: Config, s: Sys, step: Step)
    requires QInv(s.q) && HeldAgrees(s.held, s.q.status) && Enabled(s, step)
    ensures QInv(NextQueue(cfg, s, step))
  {
    hide QInv, HeldAgrees, MaySearch, Enqueue, AfterSearch, Complete, Fail, Cancel, ExpireAll, Lists;
    match step.action
    case DoEnqueue(task, retryCount, delay) => EnqueueInv(cfg, s.q, task, retryCount, delay, step.at);
    case DoDequeue(_, tenant, popped, claimed) => SearchInv(s.q, popped, claimed, tenant, step.at);
    case DoComplete(w, result) =>
      HolderOf(s, w);
      CompleteInv(s.q, s.held[w], result);
    case DoFail(w, errorCode) =>
      HolderOf(s, w);
      FailInv(cfg, s.q, s.held[w], errorCode, true, step.at);
    case DoCancel(id) => CancelInv(s.q, id);
    case DoClearExpired(order) => ClearInv(s.q, order, step.at);
    case DoShutdown => ShutdownInv(s.q);
  }

  lemma ShutdownInv(q: QState)
    requires QInv(q)
    ensures QInv(q.(closed := true))
  {
  }

  // ----- Who holds what -----

  ghost predicate HeldBy(held: map<WorkerId, TaskId>, id: TaskId) {
    exists w :: w in held && held[w] == id
  }

  /** The tasks held by workers are pairwise distinct and are exactly the processing tasks. */
  ghost predicate HeldAgrees(held: map<WorkerId, TaskId>, status: StatusMap) {
    && (forall v, w | v in held && w in held && held[v] == held[w] :: v == w)
    && (forall id :: HeldBy(held, id) <==> id in status && status[id] == Processing)
  }

  lemma HolderOf(s: Sys, w: WorkerId)
    requires QInv(s.q) && HeldAgrees(s.held, s.q.status) && w in s.held
    ensures s.q.Is(s.held[w], Processing) && s.held[w] in s.q.tasks && s.held[w] in s.q.retries
  {
    assert HeldBy(s.held, s.held[w]);
  }

  lemma HeldTaken(held: map<WorkerId, TaskId>, status: StatusMap, w: WorkerId, id: TaskId)
    requires HeldAgrees(held, status) && w !in held && (id in status ==> status[id] != Processing)
    ensures HeldAgrees(held[w := id], status[id := Processing])
  {
    var held' := held[w := id];
    assert !HeldBy(held, id);
    forall x
      ensures HeldBy(held', x) <==> x in status[id := Processing] && status[id := Processing][x] == Processing
    {
      assert held'[w] == id;
      if HeldBy(held, x) {
        var v :| v in held && held[v] == x;
        assert held'[v] == x;
      }
    }
  }

  lemma HeldReleased(held: map<WorkerId, TaskId>, status: StatusMap, w: WorkerId, st: TaskStatus)
    requires HeldAgrees(held, status) && w in held && st != Processing
    ensures HeldAgrees(held - {w}, status[held[w] := st])
  {
    var held', id := held - {w}, held[w];
    forall x
      ensures HeldBy(held', x) <==> x in status[id := st] && status[id := st][x] == Processing
    {
      if HeldBy(held, x) && x != id {
        var v :| v in held && held[v] == x;
        assert v in held' && held'[v] == x;
      }
    }
  }

  lemma HeldQuiet(held: map<WorkerId, TaskId>, q: QState, q': QState)
    requires HeldAgrees(held, q.status) && Quiet(q, q')
    ensures HeldAgrees(held, q'.status)
  {
  }

  // ----- The effect of a step, without the indexes, results and counters -----

  ghost predicate Admitted(q: QState, q': QState, task: Task, retryCount: int, at: real) {
    && q'.status == q.status[task.taskId := Pending] && q'.tasks == q.tasks[task.taskId := task]
    && q'.retries == q.retries[task.taskId := retryCount]
    && exists visibleAt: real :: visibleAt >= at && q'.heap == q.heap + multiset{ItemFor(task, visibleAt)}
  }

  ghost predicate Finished(q: QState, q': QState, id: TaskId, st: TaskStatus) {
    q'.status == q.status[id := st] && q'.heap == q.heap && q'.tasks == q.tasks && q'.retries == q.retries
  }

  ghost predicate Retried(cfg: Config, q: QState, q': QState, id: TaskId, at: real) {
    && id in q.tasks && id in q.retries && q.retries[id] < q.tasks[id].maxRetries
    && var k := q.retries[id] + 1;
       && q'.status == q.status[id := Pending] && q'.tasks == q.tasks && q'.retries == q.retries[id := k]
       && q'.heap == q.heap + multiset{ItemFor(q.tasks[id], at + cfg.Delay(k))}
  }

  ghost predicate Took(q: QState, mid: QState, item: PriorityItem, tenant: Option<string>, at: real, q': QState) {
    && Quiet(q, mid) && Eligible(q, item, tenant, at) && item in mid.heap && mid.Is(item.task.taskId, Pending)
    && q' == ClaimItem(mid, item)
  }

  /** Statuses that a task reaches only by being claimed. */
  predicate Started(st: TaskStatus) {
    st == Processing || st == Completed || st == Failed
  }

  /** What a step comes to. */
  datatype Effect =
    | Admitting(task: Task, retryCount: int)
    | Retiring
    | Claiming(worker: WorkerId, mid: QState, item: PriorityItem, tenant: Option<string>)
    | Finishing(worker: WorkerId, st: TaskStatus)
    | Retrying(worker: WorkerId)

  ghost predicate Effective(cfg: Config, s: Sys, e: Effect, t: Sys) {
    && s.now <= t.now
    && match e
       case Admitting(task, retryCount) =>
         && task.taskId !in s.q.tasks && Admitted(s.q, t.q, task, retryCount, t.now)
         && t.held == s.held && t.log == s.log
         && t.initial == s.initial[task.taskId := retryCount] && t.enqueuedAt == s.enqueuedAt[task.taskId := t.now]
       case Retiring =>
         Quiet(s.q, t.q) && t.held == s.held && t.log == s.log && SameOrigins(s, t)
       case Claiming(w, mid, item, tenant) =>
         var id := item.task.taskId;
         && w !in s.held && Took(s.q, mid, item, tenant, t.now, t.q) && t.held == s.held[w := id]
         && id in s.q.retries && t.log == s.log + [Claimed(id, s.q.retries[id], t.now)] && SameOrigins(s, t)
       case Finishing(w, st) =>
         && w in s.held && (st == Completed || st == Failed) && Finished(s.q, t.q, s.held[w], st)
         && t.held == s.held - {w} && t.log == s.log && SameOrigins(s, t)
       case Retrying(w) =>
         && w in s.held && Retried(cfg, s.q, t.q, s.held[w], t.now) && t.held == s.held - {w}
         && t.log == s.log + [RetryScheduled(s.held[w], s.q.retries[s.held[w]] + 1, t.now)] && SameOrigins(s, t)
  }

  ghost predicate SameOrigins(s: Sys, t: Sys) {
    t.initial == s.initial && t.enqueuedAt == s.enqueuedAt
  }

  lemma FadesIsQuiet(q: QState, q': QState)
    requires Fades(q, q')
    ensures Quiet(q, q')
  {
  }

  lemma SearchMoves(q: QState, popped: seq<PriorityItem>, claimed: Option<PriorityItem>, tenant: Option<string>, now: real)
    requires QInv(q) && MaySearch(q, popped, claimed, tenant, now)
    ensures
      var mid := Sweep(q, popped, tenant, now);
      && Quiet(q, mid)
      && (claimed.Some? ==>
            Eligible(q, claimed.value, tenant, now) && mid.Is(claimed.value.task.taskId, Pending)
            && claimed.value in mid.heap)
  {
    if !q.closed {
      var q' := AfterSearch(q, popped, claimed, tenant, now);
      hide QInv, Found, AfterSearch, Sweep, Least, NoneClaimed, Fades, Quiet;
      FoundSplit(q, popped, claimed, tenant, now, q');
      SweepInv(q, popped, tenant, now);
      FadesIsQuiet(q, Sweep(q, popped, tenant, now));
      FoundInv(q, popped, claimed, tenant, now, q');
      if claimed.Some? {
        UnmetLooksSame(q, popped, claimed.value, tenant, now);
        EligibleLooks(q, claimed.value, tenant, now);
        EligibleIsTask(q, claimed.value, tenant, now);
        assert Look(Sweep(q, popped, tenant, now), claimed.value, tenant, now) == Claim;
      }
    }
  }

  lemma DequeueMoves(q: QState, popped: seq<PriorityItem>, claimed: Option<PriorityItem>, tenant: Option<string>, at: real)
    requires QInv(q) && MaySearch(q, popped, claimed, tenant, at)
    ensures var q' := AfterSearch(q, popped, claimed, tenant, at);
            if claimed.None? then Quiet(q, q') else Took(q, Sweep(q, popped, tenant, at), claimed.value, tenant, at, q')
  {
    hide QInv, Quiet, Sweep, MaySearch, Eligible, ClaimItem;
    SearchMoves(q, popped, claimed, tenant, at);
  }

  lemma TookIsTask(q: QState, mid: QState, item: PriorityItem, tenant: Option<string>, at: real, q': QState)
    requires QInv(q) && Took(q, mid, item, tenant, at, q')
    ensures item.task.taskId in q.tasks && item.task.taskId in q.retries
  {
    EligibleIsTask(q, item, tenant, at);
  }

  lemma EligibleIsTask(q: QState, item: PriorityItem, tenant: Option<string>, now: real)
    requires QInv(q) && item in q.heap
    ensures item.task.taskId in q.tasks && q.tasks[item.task.taskId] == item.task && q.heap[item] == 1
    ensures item.task.taskId in q.retries
  {
    assert OwnItem(q.heap, q.tasks, q.status, item);
  }

  lemma EligibleLooks(q: QState, item: PriorityItem, tenant: Option<string>, now: real)
    requires QInv(q) && item in q.heap
    ensures Eligible(q, item, tenant, now) <==> Look(q, item, tenant, now) == Claim
  {
    EligibleIsTask(q, item, tenant, now);
  }

  lemma CancelMoves(q: QState, id: TaskId)
    ensures Quiet(q, Cancel(q, id))
  {
    if id in q.tasks && q.Is(id, Pending) {
      IndexOnly(q, q.tasks[id].(taskId := id));
    }
  }

  lemma ClearMoves(q: QState, order: seq<TaskId>, now: real)
    requires Lists(order, Overdue(q, now))
    ensures Quiet(q, ExpireAll(q, order))
  {
    OverdueArePending(q, order, now);
    ExpireAllShape(q, order);
  }

  lemma EnqueueMoves(cfg: Config, q: QState, task: Task, retryCount: int, delay: real, at: real)
    ensures if EnqueueResult(cfg, q) == Accepted
            then Admitted(q, Enqueue(cfg, q, task, retryCount, delay, at), task, retryCount, at)
            else Enqueue(cfg, q, task, retryCount, delay, at) == q
  {
    hide ItemFor;
    var v := if delay > 0.0 then at + delay else at;
    assert EnqueueResult(cfg, q) == Accepted ==>
      Enqueue(cfg, q, task, retryCount, delay, at).heap == q.heap + multiset{ItemFor(task, v)};
  }

  lemma SettleShape(q: QState, id: TaskId, st: TaskStatus, result: TaskResult)
    requires id in q.tasks
    ensures Finished(q, Settle(q, id, st, result), id, st)
  {
  }

  lemma CompleteMoves(q: QState, id: TaskId, result: TaskResult)
    requires id in q.tasks
    ensures Finished(q, Complete(q, id, result), id, Completed)
  {
    hide Settle;
    SettleShape(q, id, Completed, result);
  }

  lemma FailMoves(cfg: Config, q: QState, id: TaskId, errorCode: string, at: real)
    requires id in q.tasks && id in q.retries
    ensures var q' := Fail(cfg, q, id, errorCode, true, at);
            if WillRetry(q, id) then Retried(cfg, q, q', id, at) else Finished(q, q', id, Failed)
  {
    hide Settle;
    SettleShape(q, id, Failed, TaskResult(id, Failed, Some(errorCode), q.retries[id]));
  }

  lemma EffectOfEnqueue(cfg: Config, s: Sys, task: Task, retryCount: int, delay: real, at: real) returns (e: Effect)
    requires Enabled(s, Step(DoEnqueue(task, retryCount, delay), at))
    ensures Effective(cfg, s, e, Next(cfg, s, Step(DoEnqueue(task, retryCount, delay), at)))
  {
    hide Admitted, Enqueue;
    EnqueueMoves(cfg, s.q, task, retryCount, delay, at);
    e := if EnqueueResult(cfg, s.q) == Accepted then Admitting(task, retryCount) else Retiring;
  }

  lemma EffectOfDequeue(cfg: Config, s: Sys, w: WorkerId, tenant: Option<string>, popped: seq<PriorityItem>,
                        claimed: Option<PriorityItem>, at: real)
    returns (e: Effect)
    requires QInv(s.q) && Enabled(s, Step(DoDequeue(w, tenant, popped, claimed), at))
    ensures Effective(cfg, s, e, Next(cfg, s, Step(DoDequeue(w, tenant, popped, claimed), at)))
  {
    hide QInv, Took, Sweep, MaySearch, Quiet, AfterSearch;
    DequeueMoves(s.q, popped, claimed, tenant, at);
    if claimed.Some? {
      var mid := Sweep(s.q, popped, tenant, at);
      TookIsTask(s.q, mid, claimed.value, tenant, at, AfterSearch(s.q, popped, claimed, tenant, at));
      e := Claiming(w, mid, claimed.value, tenant);
    } else {
      e := Retiring;
    }
  }

  lemma EffectOfComplete(cfg: Config, s: Sys, w: WorkerId, result: TaskResult, at: real) returns (e: Effect)
    requires QInv(s.q) && HeldAgrees(s.held, s.q.status) && Enabled(s, Step(DoComplete(w, result), at))
    ensures Effective(cfg, s, e, Next(cfg, s, Step(DoComplete(w, result), at)))
  {
    hide QInv, HeldAgrees, Complete, Finished;
    HolderOf(s, w);
    CompleteMoves(s.q, s.held[w], result);
    e := Finishing(w, Completed);
  }

  lemma EffectOfFail(cfg: Config, s: Sys, w: WorkerId, errorCode: string, at: real) returns (e: Effect)
    requires QInv(s.q) && HeldAgrees(s.held, s.q.status) && Enabled(s, Step(DoFail(w, errorCode), at))
    ensures Effective(cfg, s, e, Next(cfg, s, Step(DoFail(w, errorCode), at)))
  {
    hide QInv, HeldAgrees, Fail, Finished, Retried;
    HolderOf(s, w);
    FailMoves(cfg, s.q, s.held[w], errorCode, at);
    e := if WillRetry(s.q, s.held[w]) then Retrying(w) else Finishing(w, Failed);
  }

  lemma EffectOfCancel(cfg: Config, s: Sys, id: TaskId, at: real)
    requires Enabled(s, Step(DoCancel(id), at))
    ensures Effective(cfg, s, Retiring, Next(cfg, s, Step(DoCancel(id), at)))
  {
    hide Quiet, Cancel;
    CancelMoves(s.q, id);
  }

  lemma EffectOfClear(cfg: Config, s: Sys, order: seq<TaskId>, at: real)
    requires Enabled(s, Step(DoClearExpired(order), at))
    ensures Effective(cfg, s, Retiring, Next(cfg, s, Step(DoClearExpired(order), at)))
  {
    hide Quiet, ExpireAll, Lists;
    ClearMoves(s.q, order, at);
  }

  /** Every step has one of the five effects. */
  lemma EffectOf(cfg: Config, s: Sys, step: Step) returns (e: Effect)
    requires QInv(s.q) && HeldAgrees(s.held, s.q.status) && Enabled(s, step)
    ensures Effective(cfg, s, e, Next(cfg, s, step))
  {
    hide QInv, HeldAgrees, Enabled, Effective, Next;
    var at := step.at;
    assert step == Step(step.action, at);
    match step.action
    case DoEnqueue(task, retryCount, delay) => e := EffectOfEnqueue(cfg, s, task, retryCount, delay, at);
    case DoDequeue(w, tenant, popped, claimed) => e := EffectOfDequeue(cfg, s, w, tenant, popped, claimed, at);
    case DoComplete(w, result) => e := EffectOfComplete(cfg, s, w, result, at);
    case DoFail(w, errorCode) => e := EffectOfFail(cfg, s, w, errorCode, at);
    case DoCancel(id) => e := Retiring; EffectOfCancel(cfg, s, id, at);
    case DoClearExpired(order) => e := Retiring; EffectOfClear(cfg, s, order, at);
    case DoShutdown => e := Retiring; EffectOfShutdown(cfg, s, at);
  }

  lemma EffectOfShutdown(cfg: Config, s: Sys, at: real)
    requires Enabled(s, Step(DoShutdown, at))
    ensures Effective(cfg, s, Retiring, Next(cfg, s, Step(DoShutdown, at)))
  {
  }
}
