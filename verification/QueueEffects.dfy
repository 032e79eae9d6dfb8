/** What each operation of the queue does, said on the fields themselves. */
module QueueEffects {
  import opened Prelude
  import opened Ports
  import opened PriorityHeap
  import opened QueueSpec
  import opened QueueInvariants
  import opened QueueClaims
  import opened QueueSystem
  import opened QueueHistory
  import opened QueueTheorems
  import QueueProgress

  // ----- Order and time -----

  /** Critical before high before normal before low before background; within one priority the older task first. */
  lemma ItemsInOrder(a: Task, b: Task, visibleA: real, visibleB: real)
    ensures var urgent := if a.priority.Critical? then !b.priority.Critical?
                          else if a.priority.High? then b.priority.Normal? || b.priority.Low? || b.priority.Background?
                          else if a.priority.Normal? then b.priority.Low? || b.priority.Background?
                          else a.priority.Low? && b.priority.Background?;
            Less(ItemFor(a, visibleA), ItemFor(b, visibleB)) <==> urgent || (a.priority == b.priority && a.createdAt < b.createdAt)
    ensures ItemFor(a, visibleA).task == a && ItemFor(a, visibleA).visibleAt == visibleA
  {
  }

  /** A backoff doubles from one retry to the next until it reaches the cap, and stays there. */
  lemma BackoffDoubles(cfg: Config, k: nat)
    requires cfg.retryBase >= 0.0 && cfg.retryCap >= 0.0
    ensures cfg.Delay(0) == if cfg.retryBase <= cfg.retryCap then cfg.retryBase else cfg.retryCap
    ensures cfg.Delay(k + 1) == if 2.0 * cfg.Delay(k) <= cfg.retryCap then 2.0 * cfg.Delay(k) else cfg.retryCap
    ensures cfg.Delay(k) <= cfg.retryCap
  {
    QueueProgress.PowPositive(k);
    assert Pow2(k + 1) == 2.0 * Pow2(k);
    assert cfg.retryBase * Pow2(k + 1) == 2.0 * (cfg.retryBase * Pow2(k));
    QueueProgress.MulMonotone(cfg.retryBase, 0.0, Pow2(k));
  }

  // ----- Enqueueing and finishing -----

  /**
   Refused when closed or full, and then nothing changes. Otherwise the task is pending with the given retry count
   and has one new heap item, visible at once or, for a positive delay, when the delay has passed.
   */
  lemma EnqueueEffect(cfg: Config, q: QState, task: Task, retryCount: int, delay: real, now: real)
    ensures EnqueueResult(cfg, q) ==
            if q.closed then QueueClosed
            else if cfg.maxSize <= |q.tasks| then QueueFull(|q.tasks|, cfg.maxSize) else Accepted
    ensures var (q', id) := (Enqueue(cfg, q, task, retryCount, delay, now), task.taskId);
            if q.closed || cfg.maxSize <= |q.tasks| then q' == q
            else
              && q'.heap == q.heap + multiset{ItemFor(task, now + (if delay > 0.0 then delay else 0.0))}
              && q'.tasks == q.tasks[id := task] && q'.retries == q.retries[id := retryCount]
              && q'.status == q.status[id := Pending] && q'.results == q.results && !q'.closed
              && id in At(q'.byTenant, task.tenantId)
              && (task.targetAgentId.Some? ==> id in At(q'.byAgent, task.targetAgentId.value))
              && q'.enqueuedCount == q.enqueuedCount + 1
              && q'.completedCount == q.completedCount && q'.failedCount == q.failedCount
  {
    hide ItemFor;
  }

  lemma CompleteEffect(q: QState, id: TaskId, result: TaskResult)
    ensures var q' := Complete(q, id, result);
            if id !in q.tasks then q' == q
            else
              && q'.status == q.status[id := Completed] && q'.results == q.results[id := result]
              && q'.heap == q.heap && q'.tasks == q.tasks && q'.retries == q.retries && q'.closed == q.closed
              && q'.completedCount == q.completedCount + 1
              && q'.failedCount == q.failedCount && q'.enqueuedCount == q.enqueuedCount
              && id !in At(q'.byTenant, q.tasks[id].tenantId)
  {
  }

  /**
   With retries left and wanted, the task is pending again with one retry more, and its new heap item becomes visible
   after the base delay doubled once per retry, or the cap if that is less. Otherwise it has failed, with the error code
   and the retries it had.
   */
  lemma FailEffect(cfg: Config, q: QState, id: TaskId, errorCode: string, retry: bool, now: real)
    ensures id !in q.tasks ==> Fail(cfg, q, id, errorCode, retry, now) == q
    ensures id in q.tasks && id in q.retries ==>
              var (q', k) := (Fail(cfg, q, id, errorCode, retry, now), q.retries[id]);
              && q'.tasks == q.tasks && q'.closed == q.closed
              && q'.enqueuedCount == q.enqueuedCount && q'.completedCount == q.completedCount
              && if retry && k < q.tasks[id].maxRetries then
                   var delay := cfg.retryBase * Pow2(k + 1);
                   && q'.status == q.status[id := Pending] && q'.retries == q.retries[id := k + 1]
                   && q'.heap == q.heap + multiset{ItemFor(q.tasks[id], now + (if delay < cfg.retryCap then delay else cfg.retryCap))}
                   && q'.results == q.results && q'.failedCount == q.failedCount
                 else
                   && q'.status == q.status[id := Failed] && q'.retries == q.retries && q'.heap == q.heap
                   && q'.results == q.results[id := TaskResult(id, Failed, Some(errorCode), k)]
                   && q'.failedCount == q.failedCount + 1
  {
    hide ItemFor, Retry, GiveUp, Pow2;
    if id in q.tasks && id in q.retries {
      RetryEffect(cfg, q, id, now);
      GiveUpEffect(q, id, errorCode);
    }
  }

  lemma RetryEffect(cfg: Config, q: QState, id: TaskId, now: real)
    requires id in q.tasks && id in q.retries
    ensures var (q', k) := (Retry(cfg, q, id, now), q.retries[id]);
            var delay := cfg.retryBase * Pow2(k + 1);
            && q'.status == q.status[id := Pending] && q'.retries == q.retries[id := k + 1]
            && q'.heap == q.heap + multiset{ItemFor(q.tasks[id], now + (if delay < cfg.retryCap then delay else cfg.retryCap))}
            && q'.tasks == q.tasks && q'.results == q.results && q'.closed == q.closed
            && q'.enqueuedCount == q.enqueuedCount && q'.completedCount == q.completedCount && q'.failedCount == q.failedCount
  {
    hide ItemFor, Pow2;
    var delay := cfg.retryBase * Pow2(q.retries[id] + 1);
    assert cfg.Delay(q.retries[id] + 1) == if delay < cfg.retryCap then delay else cfg.retryCap;
  }

  lemma GiveUpEffect(q: QState, id: TaskId, errorCode: string)
    requires id in q.tasks && id in q.retries
    ensures var q' := GiveUp(q, id, errorCode);
            && q'.status == q.status[id := Failed] && q'.retries == q.retries && q'.heap == q.heap
            && q'.results == q.results[id := TaskResult(id, Failed, Some(errorCode), q.retries[id])]
            && q'.tasks == q.tasks && q'.closed == q.closed
            && q'.enqueuedCount == q.enqueuedCount && q'.completedCount == q.completedCount
            && q'.failedCount == q.failedCount + 1
  {
  }

  /** Exactly a pending task is cancelled, and its heap item stays. */
  lemma CancelEffect(q: QState, id: TaskId)
    ensures var q' := Cancel(q, id);
            if id in q.tasks && id in q.status && q.status[id] == Pending then
              && q'.status == q.status[id := Cancelled]
              && q'.results == q.results[id := TaskResult(id, Cancelled, Some("TASK_CANCELLED"), 0)]
              && q'.heap == q.heap && q'.tasks == q.tasks && q'.retries == q.retries && q'.closed == q.closed
            else q' == q
  {
  }

  lemma ExpiryEffect(q: QState, id: TaskId)
    requires id in q.tasks
    ensures var q' := MarkExpired(q, id);
            && q'.status == q.status[id := Expired]
            && q'.results == q.results[id := TaskResult(id, Expired, Some("TASK_EXPIRED"), 0)]
            && q'.heap == q.heap && q'.tasks == q.tasks && q'.retries == q.retries
  {
  }

  /** The expiry sweep expires exactly the pending tasks that are older than their time to live. */
  lemma ClearEffect(q: QState, order: seq<TaskId>, now: real, id: TaskId)
    requires Lists(order, Overdue(q, now)) && id in q.status && Keyed(q.tasks, q.retries, q.status)
    ensures id in ExpireAll(q, order).status
    ensures ExpireAll(q, order).status[id] ==
            if q.status[id] == Pending && now > q.tasks[id].createdAt + q.tasks[id].ttlSeconds as real then Expired
            else q.status[id]
  {
    ExpireAllShape(q, order);
    assert id in order <==> id in Overdue(q, now);
  }

  // ----- Sizes -----

  /** The size of a tenant counts its pending tasks; without a tenant, or with the empty one, all pending tasks. */
  lemma SizeEffect(q: QState, tenant: Option<string>)
    requires QInv(q)
    ensures PendingOf(q, tenant) ==
            set id | id in q.tasks && id in q.status && q.status[id] == Pending
                     && (tenant == None || tenant == Some("") || tenant == Some(q.tasks[id].tenantId))
  {
    if tenant.Some? && tenant.value != "" {
      assert At(q.byTenant, tenant.value) == LiveOfTenant(q.tasks, q.status, tenant.value);
    }
    assert Keyed(q.tasks, q.retries, q.status);
    hide QInv;
  }

  lemma AgentSizeEffect(q: QState, agent: AgentId)
    requires QInv(q)
    ensures (set id | id in At(q.byAgent, agent) && q.Is(id, Pending)) ==
            set id | id in q.tasks && id in q.status && q.status[id] == Pending && q.tasks[id].targetAgentId == Some(agent)
  {
    assert At(q.byAgent, agent) == LiveOfAgent(q.tasks, q.status, agent);
    assert Keyed(q.tasks, q.retries, q.status);
    hide QInv;
  }

  // ----- The search -----

  /** Visible, not older than its time to live, of a pending task, and of the tenant asked for, if one is. */
  predicate Claimable(q: QState, item: PriorityItem, tenant: Option<string>, now: real) {
    && item.visibleAt <= now && now - item.task.createdAt <= item.task.ttlSeconds as real
    && item.task.taskId in q.status && q.status[item.task.taskId] == Pending
    && (tenant.Some? && tenant.value != "" ==> item.task.tenantId == tenant.value)
  }

  lemma ClaimableIsEligible(q: QState, item: PriorityItem, tenant: Option<string>, now: real)
    ensures item in q.heap && Claimable(q, item, tenant, now) <==> Eligible(q, item, tenant, now)
  {
  }

  /**
   A claim is of a claimable item, no claimable item is more urgent or as urgent and older, and there is a claim
   whenever some item is claimable.
   */
  lemma SearchEffect(q: QState, popped: seq<PriorityItem>, claimed: Option<PriorityItem>,
                     tenant: Option<string>, now: real, q': QState)
    requires QInv(q) && Found(q, popped, claimed, tenant, now, q')
    ensures (exists x :: x in q.heap && Claimable(q, x, tenant, now)) <==> claimed.Some?
    ensures claimed.Some? ==>
              var c := claimed.value;
              && c in q.heap && c !in q'.heap && c.task.taskId in q'.status && q'.status[c.task.taskId] == Processing
              && c.visibleAt <= now && now - c.task.createdAt <= c.task.ttlSeconds as real
              && c.task.taskId in q.status && q.status[c.task.taskId] == Pending
              && (tenant.Some? && tenant.value != "" ==> c.task.tenantId == tenant.value)
              && forall x | x in q.heap && Claimable(q, x, tenant, now) :: !Less(x, c)
  {
    hide QInv, Found, Less, Claimable;
    ClaimIsLeast(q, popped, claimed, tenant, now, q');
    forall x: PriorityItem
      ensures x in q.heap && Claimable(q, x, tenant, now) <==> Eligible(q, x, tenant, now)
    {
      ClaimableIsEligible(q, x, tenant, now);
    }
    if claimed.Some? {
      HeapAfterSearch(q, popped, claimed, tenant, now, q', claimed.value);
      StatusAfterSearch(q, popped, claimed, tenant, now, q', claimed.value.task.taskId);
      ClaimableParts(q, claimed.value, tenant, now);
    }
  }

  lemma ClaimableParts(q: QState, c: PriorityItem, tenant: Option<string>, now: real)
    requires Claimable(q, c, tenant, now)
    ensures c.visibleAt <= now && now - c.task.createdAt <= c.task.ttlSeconds as real
    ensures c.task.taskId in q.status && q.status[c.task.taskId] == Pending
    ensures tenant.Some? && tenant.value != "" ==> c.task.tenantId == tenant.value
  {
  }

  /**
   What else the search changes: a met item stays exactly when it is not visible yet, or unexpired and of another
   tenant than the one asked for; a task is expired exactly when a visible item of it, past its time to live, was met.
   */
  lemma SearchLeaves(q: QState, popped: seq<PriorityItem>, claimed: Option<PriorityItem>,
                     tenant: Option<string>, now: real, q': QState, x: PriorityItem)
    requires QInv(q) && Found(q, popped, claimed, tenant, now, q') && x in q.heap
    ensures x in q'.heap <==>
              && claimed != Some(x)
              && (x in popped ==>
                    || x.visibleAt > now
                    || (now - x.task.createdAt <= x.task.ttlSeconds as real
                        && tenant.Some? && tenant.value != "" && x.task.tenantId != tenant.value))
    ensures x.task.taskId in q.status && x.task.taskId in q'.status
    ensures q'.status[x.task.taskId] ==
            if claimed == Some(x) then Processing
            else if x in popped && x.visibleAt <= now && now - x.task.createdAt > x.task.ttlSeconds as real then Expired
            else q.status[x.task.taskId]
  {
    hide QInv, Found, Look;
    HeapAfterSearch(q, popped, claimed, tenant, now, q', x);
    OwnHeapItem(q, x);
    StatusAfterSearch(q, popped, claimed, tenant, now, q', x.task.taskId);
    MetIsInHeap(q, popped, claimed, tenant, now, q');
    OneItemEach(q, x);
    PutBackMeans(q, x, tenant, now);
    ClaimIsLeast(q, popped, claimed, tenant, now, q');
  }

  lemma OneItemEach(q: QState, x: PriorityItem)
    requires QInv(q) && x in q.heap
    ensures forall y | y in q.heap && y.task.taskId == x.task.taskId :: y == x
  {
  }

  lemma PutBackMeans(q: QState, x: PriorityItem, tenant: Option<string>, now: real)
    requires x.task.taskId in q.tasks
    ensures Look(q, x, tenant, now) == PutBack <==>
              || x.visibleAt > now
              || (now - x.task.createdAt <= x.task.ttlSeconds as real
                  && tenant.Some? && tenant.value != "" && x.task.tenantId != tenant.value)
  {
  }

  /** So a worker of one tenant is never given the task of another, and is given one whenever there is one. */
  lemma DequeueServesTenant(cfg: Config, s: Sys, step: Step)
    requires Reachable(cfg, s) && Enabled(s, step) && step.action.DoDequeue? && !s.q.closed
    ensures var (claimed, tenant, now) := (step.action.claimed, step.action.tenant, step.at);
            && (claimed.Some? && tenant.Some? && tenant.value != "" ==> claimed.value.task.tenantId == tenant.value)
            && (claimed.Some? <==>
                  exists x :: x in s.q.heap && x.visibleAt <= now && now - x.task.createdAt <= x.task.ttlSeconds as real
                              && s.q.Is(x.task.taskId, Pending)
                              && (tenant.Some? && tenant.value != "" ==> x.task.tenantId == tenant.value))
  {
    hide TInv, Reachable, QInv, Found;
    ReachableInv(cfg, s);
    TInvParts(cfg, s);
    var a := step.action;
    SearchEffect(s.q, a.popped, a.claimed, a.tenant, step.at, AfterSearch(s.q, a.popped, a.claimed, a.tenant, step.at));
    if x :| x in s.q.heap && x.visibleAt <= step.at && step.at - x.task.createdAt <= x.task.ttlSeconds as real && s.q.Is(x.task.taskId, Pending)
            && (a.tenant.Some? && a.tenant.value != "" ==> x.task.tenantId == a.tenant.value) {
      assert Claimable(s.q, x, a.tenant, step.at);
    }
  }
}
