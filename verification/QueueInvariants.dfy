/** What the structures of the queue have to do with one another, and that every operation keeps it so. */
module QueueInvariants {
  import opened Prelude
  import opened Ports
  import opened PriorityHeap
  import opened QueueSpec

  type StatusMap = map<TaskId, TaskStatus>
  type TaskMap = map<TaskId, Task>

  predicate Terminal(st: TaskStatus) {
    st != Pending && st != Processing
  }

  ghost predicate Keyed(tasks: TaskMap, retries: map<TaskId, int>, status: StatusMap) {
    && status.Keys == retries.Keys == tasks.Keys
    && forall id | id in tasks :: tasks[id].taskId == id
  }

  ghost predicate HasItem(heap: multiset<PriorityItem>, id: TaskId) {
    exists item :: item in heap && item.task.taskId == id
  }

  /** Statuses whose task may still have an item in the heap. */
  predicate MayHaveItem(st: TaskStatus) {
    st == Pending || st == Cancelled || st == Expired
  }

  ghost predicate OwnItem(heap: multiset<PriorityItem>, tasks: TaskMap, status: StatusMap, item: PriorityItem) {
    var id := item.task.taskId;
    && heap[item] == 1
    && id in tasks && tasks[id] == item.task && item == ItemFor(item.task, item.visibleAt)
    && id in status && MayHaveItem(status[id])
  }

  /**
   A pending task has exactly one heap item, a processing, completed or failed one none,
   a cancelled or expired one at most one.
   */
  ghost predicate HeapAgrees(heap: multiset<PriorityItem>, tasks: TaskMap, status: StatusMap) {
    && (forall item | item in heap :: OwnItem(heap, tasks, status, item))
    && (forall a, b | a in heap && b in heap && a.task.taskId == b.task.taskId :: a == b)
    && (forall id | id in status && status[id] == Pending :: HasItem(heap, id))
  }

  predicate Live(status: StatusMap, id: TaskId) {
    id in status && !Terminal(status[id])
  }

  function LiveOfTenant(tasks: TaskMap, status: StatusMap, t: string): set<TaskId> {
    set id | id in tasks && Live(status, id) && tasks[id].tenantId == t
  }

  function LiveOfAgent(tasks: TaskMap, status: StatusMap, a: AgentId): set<TaskId> {
    set id | id in tasks && Live(status, id) && tasks[id].targetAgentId == Some(a)
  }

  /** The tenant index holds exactly the pending and processing tasks of each tenant. */
  ghost predicate TenantsAgree(byTenant: map<string, set<TaskId>>, tasks: TaskMap, status: StatusMap) {
    forall t :: At(byTenant, t) == LiveOfTenant(tasks, status, t)
  }

  /** The agent index holds exactly the pending and processing tasks aimed at each agent. */
  ghost predicate AgentsAgree(byAgent: map<AgentId, set<TaskId>>, tasks: TaskMap, status: StatusMap) {
    forall a: AgentId :: At(byAgent, a) == LiveOfAgent(tasks, status, a)
  }

  /** A task has a result exactly when its status is final, and the result says that status. */
  ghost predicate ResultsAgree(results: map<TaskId, TaskResult>, status: StatusMap) {
    && (forall id :: id in results <==> id in status && Terminal(status[id]))
    && (forall id | id in results :: results[id].taskId == id && results[id].status == status[id])
  }

  function Having(status: StatusMap, st: TaskStatus): set<TaskId> {
    set id | id in status && status[id] == st
  }

  ghost predicate QInv(q: QState) {
    && Keyed(q.tasks, q.retries, q.status)
    && HeapAgrees(q.heap, q.tasks, q.status)
    && TenantsAgree(q.byTenant, q.tasks, q.status) && AgentsAgree(q.byAgent, q.tasks, q.status)
    && ResultsAgree(q.results, q.status)
    && q.enqueuedCount == |q.tasks|
    && q.completedCount == |Having(q.status, Completed)|
    && q.failedCount == |Having(q.status, Failed)|
  }

  lemma QInvKeyed(q: QState)
    requires QInv(q)
    ensures Keyed(q.tasks, q.retries, q.status)
  {
  }

  lemma OwnHeapItem(q: QState, item: PriorityItem)
    requires QInv(q) && item in q.heap
    ensures OwnItem(q.heap, q.tasks, q.status, item) && item.task.taskId in q.retries
    ensures !q.Is(item.task.taskId, Processing)
  {
  }

  lemma EmptyInv()
    ensures QInv(EMPTY)
  {
    assert TenantsAgree(map[], map[], map[]);
    assert AgentsAgree(map[], map[], map[]);
    assert Having(map[], Completed) == {} && Having(map[], Failed) == {};
    assert HeapAgrees(multiset{}, map[], map[]);
  }

  // ----- One structure at a time -----

  lemma CountAfter(status: StatusMap, id: TaskId, st: TaskStatus, of: TaskStatus)
    requires id in status ==> status[id] != of
    ensures |Having(status[id := st], of)| == |Having(status, of)| + (if st == of then 1 else 0)
  {
    assert Having(status[id := st], of) == Having(status, of) + (if st == of then {id} else {});
  }

  lemma HeapSettled(heap: multiset<PriorityItem>, tasks: TaskMap, status: StatusMap, id: TaskId, st: TaskStatus)
    requires HeapAgrees(heap, tasks, status) && id in status && Terminal(st)
    requires MayHaveItem(st) || status[id] == Processing
    ensures HeapAgrees(heap, tasks, status[id := st])
  {
    forall item | item in heap
      ensures OwnItem(heap, tasks, status[id := st], item)
    {
      assert OwnItem(heap, tasks, status, item);
    }
  }

  lemma HeapWithout(heap: multiset<PriorityItem>, tasks: TaskMap, status: StatusMap, item: PriorityItem, st: TaskStatus)
    requires HeapAgrees(heap, tasks, status) && item in heap && st != Pending
    ensures HeapAgrees(heap - multiset{item}, tasks, status[item.task.taskId := st])
  {
    var id, rest, after := item.task.taskId, heap - multiset{item}, status[item.task.taskId := st];
    assert OwnItem(heap, tasks, status, item);
    forall x | x in rest
      ensures OwnItem(rest, tasks, after, x)
    {
      assert OwnItem(heap, tasks, status, x);
      assert x != item && x.task.taskId != id;
    }
    forall i | i in after && after[i] == Pending
      ensures HasItem(rest, i)
    {
      var x :| x in heap && x.task.taskId == i;
      assert x in rest;
    }
  }

  lemma HeapWith(heap: multiset<PriorityItem>, tasks: TaskMap, status: StatusMap, task: Task, visibleAt: real)
    requires HeapAgrees(heap, tasks, status)
    requires task.taskId in status ==> status[task.taskId] == Processing
    ensures HeapAgrees(heap + multiset{ItemFor(task, visibleAt)}, tasks[task.taskId := task], status[task.taskId := Pending])
  {
    var id, item := task.taskId, ItemFor(task, visibleAt);
    var more, tasks', after := heap + multiset{item}, tasks[id := task], status[id := Pending];
    assert forall x | x in heap :: OwnItem(heap, tasks, status, x) && x.task.taskId != id;
    forall x | x in more
      ensures OwnItem(more, tasks', after, x)
    {
    }
    forall i | i in after && after[i] == Pending
      ensures HasItem(more, i)
    {
      if i == id {
        assert item in more;
      } else {
        var x :| x in heap && x.task.taskId == i;
        assert x in more;
      }
    }
  }

  lemma DiscardAt<K>(index: map<K, set<TaskId>>, k: K, id: TaskId, x: K)
    ensures At(DiscardFrom(index, k, id), x) == if x == k then At(index, k) - {id} else At(index, x)
  {
  }

  lemma AddAt<K>(index: map<K, set<TaskId>>, k: K, id: TaskId, x: K)
    ensures At(AddTo(index, k, id), x) == if x == k then At(index, k) + {id} else At(index, x)
  {
  }

  lemma TenantsSettled(byTenant: map<string, set<TaskId>>, tasks: TaskMap, status: StatusMap, id: TaskId, st: TaskStatus)
    requires id in tasks && Terminal(st) && TenantsAgree(byTenant, tasks, status)
    ensures TenantsAgree(DiscardFrom(byTenant, tasks[id].tenantId, id), tasks, status[id := st])
  {
    forall t
      ensures At(DiscardFrom(byTenant, tasks[id].tenantId, id), t) == LiveOfTenant(tasks, status[id := st], t)
    {
      DiscardAt(byTenant, tasks[id].tenantId, id, t);
      assert LiveOfTenant(tasks, status[id := st], t) == LiveOfTenant(tasks, status, t) - {id};
    }
  }

  lemma AgentsSettled(byAgent: map<AgentId, set<TaskId>>, tasks: TaskMap, status: StatusMap, id: TaskId, st: TaskStatus)
    requires id in tasks && Terminal(st) && AgentsAgree(byAgent, tasks, status)
    ensures match tasks[id].targetAgentId
            case Some(k) => AgentsAgree(DiscardFrom(byAgent, k, id), tasks, status[id := st])
            case None => AgentsAgree(byAgent, tasks, status[id := st])
  {
    var target := tasks[id].targetAgentId;
    var index := if target.Some? then DiscardFrom(byAgent, target.value, id) else byAgent;
    forall a: AgentId
      ensures At(index, a) == LiveOfAgent(tasks, status[id := st], a)
    {
      if target.Some? {
        DiscardAt(byAgent, target.value, id, a);
      }
      assert LiveOfAgent(tasks, status[id := st], a) == LiveOfAgent(tasks, status, a) - {id};
    }
  }

  lemma TenantsAdmitted(byTenant: map<string, set<TaskId>>, tasks: TaskMap, status: StatusMap, task: Task)
    requires task.taskId !in tasks && TenantsAgree(byTenant, tasks, status)
    ensures TenantsAgree(AddTo(byTenant, task.tenantId, task.taskId),
                         tasks[task.taskId := task], status[task.taskId := Pending])
  {
    var id := task.taskId;
    forall t
      ensures At(AddTo(byTenant, task.tenantId, id), t) == LiveOfTenant(tasks[id := task], status[id := Pending], t)
    {
      AddAt(byTenant, task.tenantId, id, t);
      assert LiveOfTenant(tasks[id := task], status[id := Pending], t) ==
             LiveOfTenant(tasks, status, t) + if t == task.tenantId then {id} else {};
    }
  }

  lemma AgentsAdmitted(byAgent: map<AgentId, set<TaskId>>, tasks: TaskMap, status: StatusMap, task: Task)
    requires task.taskId !in tasks && AgentsAgree(byAgent, tasks, status)
    ensures var (tasks', after) := (tasks[task.taskId := task], status[task.taskId := Pending]);
            match task.targetAgentId
            case Some(k) => AgentsAgree(AddTo(byAgent, k, task.taskId), tasks', after)
            case None => AgentsAgree(byAgent, tasks', after)
  {
    var id, target := task.taskId, task.targetAgentId;
    var index := if target.Some? then AddTo(byAgent, target.value, id) else byAgent;
    forall a: AgentId
      ensures At(index, a) == LiveOfAgent(tasks[id := task], status[id := Pending], a)
    {
      if target.Some? {
        AddAt(byAgent, target.value, id, a);
      }
      assert LiveOfAgent(tasks[id := task], status[id := Pending], a) ==
             LiveOfAgent(tasks, status, a) + if Some(a) == target then {id} else {};
    }
  }

  lemma LiveToLive(q: QState, id: TaskId, st: TaskStatus)
    requires TenantsAgree(q.byTenant, q.tasks, q.status) && AgentsAgree(q.byAgent, q.tasks, q.status)
    requires ResultsAgree(q.results, q.status)
    requires Live(q.status, id) && !Terminal(st)
    ensures TenantsAgree(q.byTenant, q.tasks, q.status[id := st])
    ensures AgentsAgree(q.byAgent, q.tasks, q.status[id := st])
    ensures ResultsAgree(q.results, q.status[id := st])
  {
    var after := q.status[id := st];
    assert forall x :: Live(after, x) == Live(q.status, x);
    assert forall t :: LiveOfTenant(q.tasks, after, t) == LiveOfTenant(q.tasks, q.status, t);
    assert forall a: AgentId :: LiveOfAgent(q.tasks, after, a) == LiveOfAgent(q.tasks, q.status, a);
  }

  lemma ResultsSettled(results: map<TaskId, TaskResult>, status: StatusMap, id: TaskId, result: TaskResult)
    requires ResultsAgree(results, status) && Terminal(result.status) && result.taskId == id
    ensures ResultsAgree(results[id := result], status[id := result.status])
  {
  }

  // ----- Operations -----

  lemma AdmitInv(q: QState, task: Task, retryCount: int, visibleAt: real)
    requires QInv(q) && task.taskId !in q.tasks
    ensures QInv(Admit(q, task, retryCount, visibleAt))
  {
    hide HeapAgrees, TenantsAgree, AgentsAgree, AddTo, ItemFor, Having;
    HeapWith(q.heap, q.tasks, q.status, task, visibleAt);
    TenantsAdmitted(q.byTenant, q.tasks, q.status, task);
    AgentsAdmitted(q.byAgent, q.tasks, q.status, task);
    CountAfter(q.status, task.taskId, Pending, Completed);
    CountAfter(q.status, task.taskId, Pending, Failed);
  }

  lemma IndexOnly(q: QState, task: Task)
    ensures Index(q, task) == q.(byTenant := Index(q, task).byTenant, byAgent := Index(q, task).byAgent)
    ensures task.taskId in q.tasks ==>
              Unindex(q, task.taskId) ==
              q.(byTenant := Unindex(q, task.taskId).byTenant, byAgent := Unindex(q, task.taskId).byAgent)
  {
  }

  /** Settling a task keeps all structures in agreement; only the counters remain to be updated. */
  lemma SettleInv(q: QState, id: TaskId, st: TaskStatus, result: TaskResult, q': QState)
    requires QInv(q) && id in q.tasks && Terminal(st) && result.status == st && result.taskId == id
    requires MayHaveItem(st) || q.status[id] == Processing
    requires !q.Is(id, Completed) && !q.Is(id, Failed)
    requires q' == Settle(q, id, st, result)
                   .(completedCount := q.completedCount + (if st == Completed then 1 else 0),
                     failedCount := q.failedCount + (if st == Failed then 1 else 0))
    ensures QInv(q')
  {
    hide HeapAgrees, TenantsAgree, AgentsAgree, DiscardFrom, ResultsAgree, Having;
    HeapSettled(q.heap, q.tasks, q.status, id, st);
    TenantsSettled(q.byTenant, q.tasks, q.status, id, st);
    AgentsSettled(q.byAgent, q.tasks, q.status, id, st);
    ResultsSettled(q.results, q.status, id, result);
    CountAfter(q.status, id, st, Completed);
    CountAfter(q.status, id, st, Failed);
  }

  lemma CompleteInv(q: QState, id: TaskId, result: TaskResult)
    requires QInv(q) && q.Is(id, Processing) && result.taskId == id && result.status == Completed
    ensures QInv(Complete(q, id, result))
  {
    hide HeapAgrees, TenantsAgree, AgentsAgree, Unindex, ResultsAgree, Having;
    IndexOnly(q, q.tasks[id]);
    SettleInv(q, id, Completed, result, Complete(q, id, result));
  }

  lemma FailInv(cfg: Config, q: QState, id: TaskId, errorCode: string, retry: bool, now: real)
    requires QInv(q) && q.Is(id, Processing)
    ensures QInv(Fail(cfg, q, id, errorCode, retry, now))
  {
    hide QInv, ItemFor, Settle, Config.Delay;
    QInvKeyed(q);
    if retry && WillRetry(q, id) {
      RetryInv(cfg, q, id, now);
    } else {
      GiveUpInv(q, id, errorCode);
    }
  }

  lemma RetryInv(cfg: Config, q: QState, id: TaskId, now: real)
    requires QInv(q) && q.Is(id, Processing) && id in q.tasks && id in q.retries
    ensures QInv(Retry(cfg, q, id, now))
  {
    hide HeapAgrees, TenantsAgree, AgentsAgree, ResultsAgree, Having, ItemFor, Config.Delay;
    HeapWith(q.heap, q.tasks, q.status, q.tasks[id], now + cfg.Delay(q.retries[id] + 1));
    assert q.tasks[id := q.tasks[id]] == q.tasks;
    LiveToLive(q, id, Pending);
    CountAfter(q.status, id, Pending, Completed);
    CountAfter(q.status, id, Pending, Failed);
  }

  lemma GiveUpInv(q: QState, id: TaskId, errorCode: string)
    requires QInv(q) && q.Is(id, Processing) && id in q.tasks && id in q.retries
    ensures QInv(GiveUp(q, id, errorCode))
  {
    hide QInv, Unindex;
    QInvKeyed(q);
    IndexOnly(q, q.tasks[id]);
    SettleInv(q, id, Failed, TaskResult(id, Failed, Some(errorCode), q.retries[id]), GiveUp(q, id, errorCode));
  }

  lemma CancelInv(q: QState, id: TaskId)
    requires QInv(q)
    ensures QInv(Cancel(q, id))
  {
    hide HeapAgrees, TenantsAgree, AgentsAgree, Unindex, ResultsAgree, Having;
    if id in q.tasks && q.Is(id, Pending) {
      IndexOnly(q, q.tasks[id]);
      SettleInv(q, id, Cancelled, TaskResult(id, Cancelled, Some("TASK_CANCELLED"), 0), Cancel(q, id));
    }
  }

  lemma MarkExpiredInv(q: QState, id: TaskId)
    requires QInv(q) && id in q.tasks && MayHaveItem(q.status[id])
    ensures QInv(MarkExpired(q, id))
  {
    hide HeapAgrees, TenantsAgree, AgentsAgree, Unindex, ResultsAgree, Having;
    IndexOnly(q, q.tasks[id]);
    SettleInv(q, id, Expired, TaskResult(id, Expired, Some("TASK_EXPIRED"), 0), MarkExpired(q, id));
  }

  lemma DiscardInv(q: QState, item: PriorityItem)
    requires QInv(q) && item in q.heap && !q.Is(item.task.taskId, Pending)
    ensures QInv(q.(heap := q.heap - multiset{item}))
  {
    assert OwnItem(q.heap, q.tasks, q.status, item);
    hide HeapAgrees, TenantsAgree, AgentsAgree, ResultsAgree, Having;
    var id := item.task.taskId;
    HeapWithout(q.heap, q.tasks, q.status, item, q.status[id]);
    assert q.status[id := q.status[id]] == q.status;
  }

  /** Pending or cancelled tasks may become expired and heap items may go; nothing else changes. */
  ghost predicate Fades(q: QState, q': QState) {
    && q'.tasks == q.tasks && q'.retries == q.retries && q'.closed == q.closed
    && q'.heap <= q.heap
    && q'.status.Keys == q.status.Keys
    && forall id | id in q.status ::
         || q'.status[id] == q.status[id]
         || (q'.status[id] == Expired && (q.status[id] == Pending || q.status[id] == Cancelled))
  }

  lemma MeetInv(q: QState, item: PriorityItem, tenant: Option<string>, now: real)
    requires QInv(q) && item in q.heap && Look(q, item, tenant, now) != Claim
    ensures QInv(Meet(q, item, tenant, now))
  {
    var id := item.task.taskId;
    assert OwnItem(q.heap, q.tasks, q.status, item);
    hide HeapAgrees, TenantsAgree, AgentsAgree, ResultsAgree, Having, Unindex;
    match Look(q, item, tenant, now)
    case PutBack =>
    case Discard => DiscardInv(q, item);
    case Expire =>
      IndexOnly(q, q.tasks[id]);
      MarkExpiredInv(q, id);
      DiscardInv(MarkExpired(q, id), item);
    case Claim =>
  }

  lemma MeetFades(q: QState, item: PriorityItem, tenant: Option<string>, now: real)
    requires item in q.heap && OwnItem(q.heap, q.tasks, q.status, item) && Look(q, item, tenant, now) != Claim
    ensures Fades(q, Meet(q, item, tenant, now))
  {
    if item.task.taskId in q.tasks {
      IndexOnly(q, q.tasks[item.task.taskId]);
    }
  }

  lemma ClaimInv(q: QState, item: PriorityItem, tenant: Option<string>, now: real)
    requires QInv(q) && item in q.heap && Look(q, item, tenant, now) == Claim
    ensures QInv(ClaimItem(q, item))
  {
    hide HeapAgrees, TenantsAgree, AgentsAgree, ResultsAgree, Having;
    var id := item.task.taskId;
    HeapWithout(q.heap, q.tasks, q.status, item, Processing);
    LiveToLive(q, id, Processing);
    CountAfter(q.status, id, Processing, Completed);
    CountAfter(q.status, id, Processing, Failed);
  }
}
