/**
 The abstract state of the in-memory task queue and what each operation does to it.
 The heap is a multiset here: only which items are in it matters, not their positions.
 */
module QueueSpec {
  import opened Prelude
  import opened Ports
  import opened PriorityHeap

  datatype Config = Config(maxSize: int, retryBase: real, retryCap: real) {
    /** The backoff before retry number `k`. */
    function Delay(k: int): real {
      var d := retryBase * Pow2(k);
      if d <= retryCap then d else retryCap
    }
  }

  function Pow2(k: int): real
    decreases if k < 0 then -k else k
  {
    if k == 0 then 1.0 else if k > 0 then 2.0 * Pow2(k - 1) else Pow2(k + 1) / 2.0
  }

  datatype QState = QState(
    heap: multiset<PriorityItem>,
    tasks: map<TaskId, Task>,
    retries: map<TaskId, int>,
    status: map<TaskId, TaskStatus>,
    results: map<TaskId, TaskResult>,
    byTenant: map<string, set<TaskId>>,
    byAgent: map<AgentId, set<TaskId>>,
    closed: bool,
    enqueuedCount: nat,
    completedCount: nat,
    failedCount: nat)
  {
    predicate Is(id: TaskId, st: TaskStatus) {
      id in status && status[id] == st
    }
  }

  const EMPTY := QState(multiset{}, map[], map[], map[], map[], map[], map[], false, 0, 0, 0)

  datatype EnqueueOutcome = Accepted | QueueClosed | QueueFull(size: int, maxSize: int)

  function ItemFor(task: Task, visibleAt: real): PriorityItem {
    PriorityItem(task.priority.Value(), task.createdAt, task, visibleAt)
  }

  function AddTo<K>(index: map<K, set<TaskId>>, k: K, id: TaskId): map<K, set<TaskId>> {
    index[k := At(index, k) + {id}]
  }

  function DiscardFrom<K>(index: map<K, set<TaskId>>, k: K, id: TaskId): map<K, set<TaskId>> {
    index[k := At(index, k) - {id}]
  }

  /** Adds a task to the tenant index and, if it names an agent, to the agent index. */
  function Index(q: QState, task: Task): QState {
    q.(byTenant := AddTo(q.byTenant, task.tenantId, task.taskId),
       byAgent := match task.targetAgentId
                  case Some(a) => AddTo(q.byAgent, a, task.taskId)
                  case None => q.byAgent)
  }

  /** Removes a task from the tenant index and, if it names an agent, from the agent index. */
  function Unindex(q: QState, id: TaskId): QState
    requires id in q.tasks
  {
    q.(byTenant := DiscardFrom(q.byTenant, q.tasks[id].tenantId, id),
       byAgent := match q.tasks[id].targetAgentId
                  case Some(a) => DiscardFrom(q.byAgent, a, id)
                  case None => q.byAgent)
  }

  function EnqueueResult(cfg: Config, q: QState): EnqueueOutcome {
    if q.closed then QueueClosed
    else if |q.tasks| >= cfg.maxSize then QueueFull(|q.tasks|, cfg.maxSize)
    else Accepted
  }

  function Enqueue(cfg: Config, q: QState, task: Task, retryCount: int, delay: real, now: real): QState {
    if EnqueueResult(cfg, q) != Accepted then q
    else Admit(q, task, retryCount, if delay > 0.0 then now + delay else now)
  }

  function Admit(q: QState, task: Task, retryCount: int, visibleAt: real): QState {
    var id := task.taskId;
    Index(q, task)
    .(heap := q.heap + multiset{ItemFor(task, visibleAt)},
      tasks := q.tasks[id := task],
      retries := q.retries[id := retryCount],
      status := q.status[id := Pending],
      enqueuedCount := q.enqueuedCount + 1)
  }

  /** Gives a task its final status and result, and takes it out of the indexes. */
  function Settle(q: QState, id: TaskId, st: TaskStatus, result: TaskResult): QState
    requires id in q.tasks
  {
    Unindex(q, id).(status := q.status[id := st], results := q.results[id := result])
  }

  function MarkExpired(q: QState, id: TaskId): QState {
    if id !in q.tasks then q.(status := q.status[id := Expired])
    else Settle(q, id, Expired, TaskResult(id, Expired, Some("TASK_EXPIRED"), 0))
  }

  /** Marking a task touches its status, its result and the indexes only. */
  lemma MarkShape(q: QState, id: TaskId)
    ensures
      var q' := MarkExpired(q, id);
      && q'.tasks == q.tasks && q'.heap == q.heap && q'.status == q.status[id := Expired]
      && q'.retries == q.retries && q'.closed == q.closed
  {
  }

  // ----- Claiming -----

  /** What the pop loop decides about one item. */
  datatype Verdict = PutBack | Discard | Expire | Claim

  /** An absent or empty tenant name stands for no filter. */
  predicate TenantMatches(tenant: Option<string>, task: Task) {
    tenant.None? || tenant.value == "" || tenant.value == task.tenantId
  }

  function Look(q: QState, item: PriorityItem, tenant: Option<string>, now: real): Verdict {
    if item.task.taskId !in q.tasks then Discard
    else if item.visibleAt > now then PutBack
    else if item.task.IsExpired(now) then Expire
    else if !TenantMatches(tenant, item.task) then PutBack
    else if !q.Is(item.task.taskId, Pending) then Discard
    else Claim
  }

  /** The effect of meeting an item that is not claimed. */
  function Meet(q: QState, item: PriorityItem, tenant: Option<string>, now: real): QState {
    match Look(q, item, tenant, now)
    case PutBack | Claim => q
    case Discard => q.(heap := q.heap - multiset{item})
    case Expire => MarkExpired(q, item.task.taskId).(heap := q.heap - multiset{item})
  }

  /** The effect of meeting the items of `popped` one after the other. */
  function Sweep(q: QState, popped: seq<PriorityItem>, tenant: Option<string>, now: real): QState {
    if popped == [] then q
    else
      var n := |popped| - 1;
      Meet(Sweep(q, popped[..n], tenant, now), popped[n], tenant, now)
  }

  ghost predicate NoneClaimed(q: QState, popped: seq<PriorityItem>, tenant: Option<string>, now: real) {
    forall i | 0 <= i < |popped| :: Look(Sweep(q, popped[..i], tenant, now), popped[i], tenant, now) != Claim
  }

  function ClaimItem(q: QState, item: PriorityItem): QState {
    q.(heap := q.heap - multiset{item}, status := q.status[item.task.taskId := Processing])
  }

  /** `met` came out of the heap one by one, each no larger than anything still in it. */
  ghost predicate Least(heap: multiset<PriorityItem>, met: seq<PriorityItem>) {
    && multiset(met) <= heap
    && forall i, x | 0 <= i < |met| && x in heap - multiset(met[..i]) :: !Less(x, met[i])
  }

  /**
   One search of the queue. The loop popped the items of `popped`, smallest first, took none of
   them, and then either claimed an item no larger than what is left, or ran out of items.
   */
  ghost predicate Found(q: QState, popped: seq<PriorityItem>, claimed: Option<PriorityItem>,
                        tenant: Option<string>, now: real, q': QState)
  {
    var met := if claimed.Some? then popped + [claimed.value] else popped;
    && Least(q.heap, met)
    && NoneClaimed(q, popped, tenant, now)
    && var s := Sweep(q, popped, tenant, now);
       if claimed.Some?
       then Look(s, claimed.value, tenant, now) == Claim && q' == ClaimItem(s, claimed.value)
       else multiset(popped) == q.heap && q' == s
  }

  // ----- Finishing -----

  function Complete(q: QState, id: TaskId, result: TaskResult): QState {
    if id !in q.tasks then q
    else Settle(q, id, Completed, result).(completedCount := q.completedCount + 1)
  }

  predicate WillRetry(q: QState, id: TaskId) {
    id in q.tasks && id in q.retries && q.retries[id] < q.tasks[id].maxRetries
  }

  function Fail(cfg: Config, q: QState, id: TaskId, errorCode: string, retry: bool, now: real): QState {
    if id !in q.tasks || id !in q.retries then q
    else if retry && WillRetry(q, id) then Retry(cfg, q, id, now)
    else GiveUp(q, id, errorCode)
  }

  function Retry(cfg: Config, q: QState, id: TaskId, now: real): QState
    requires id in q.tasks && id in q.retries
  {
    var k := q.retries[id] + 1;
    q.(retries := q.retries[id := k],
       status := q.status[id := Pending],
       heap := q.heap + multiset{ItemFor(q.tasks[id], now + cfg.Delay(k))})
  }

  function GiveUp(q: QState, id: TaskId, errorCode: string): QState
    requires id in q.tasks && id in q.retries
  {
    Settle(q, id, Failed, TaskResult(id, Failed, Some(errorCode), q.retries[id]))
    .(failedCount := q.failedCount + 1)
  }

  function Cancel(q: QState, id: TaskId): QState {
    if id !in q.tasks || !q.Is(id, Pending) then q
    else Settle(q, id, Cancelled, TaskResult(id, Cancelled, Some("TASK_CANCELLED"), 0))
  }

  /** The pending tasks that have outlived their time to live. */
  function Overdue(q: QState, now: real): set<TaskId> {
    set id | id in q.tasks && q.Is(id, Pending) && q.tasks[id].IsExpired(now)
  }

  function ExpireAll(q: QState, order: seq<TaskId>): QState {
    if order == [] then q
    else MarkExpired(ExpireAll(q, order[..|order| - 1]), order[|order| - 1])
  }

  /** `order` lists the members of `ids`, each once. */
  ghost predicate Lists(order: seq<TaskId>, ids: set<TaskId>) {
    && (forall i, j | 0 <= i < j < |order| :: order[i] != order[j])
    && (forall id :: id in order <==> id in ids)
  }

  lemma ListsSnoc(order: seq<TaskId>, ids: set<TaskId>, x: TaskId)
    requires Lists(order, ids) && x !in ids
    ensures Lists(order + [x], ids + {x})
  {
    assert forall y | y in order :: y in ids;
  }

  /** What `size` counts: a tenant's pending tasks come from the tenant index. */
  function PendingOf(q: QState, tenant: Option<string>): set<TaskId> {
    if tenant.Some? && tenant.value != ""
    then set id | id in At(q.byTenant, tenant.value) && q.Is(id, Pending)
    else set id | id in q.status && q.status[id] == Pending
  }

  lemma LeastSnoc(heap: multiset<PriorityItem>, popped: seq<PriorityItem>, item: PriorityItem)
    requires Least(heap, popped)
    requires item in heap - multiset(popped)
    requires forall x | x in heap - multiset(popped) :: !Less(x, item)
    ensures Least(heap, popped + [item])
    ensures heap - multiset(popped + [item]) == heap - multiset(popped) - multiset{item}
  {
    var met := popped + [item];
    assert forall i | 0 <= i <= |popped| :: met[..i] == popped[..i];
    assert popped[..|popped|] == popped;
  }

  /** How a search of one more item extends the sweep. */
  lemma SweepSnoc(q: QState, popped: seq<PriorityItem>, item: PriorityItem, tenant: Option<string>, now: real)
    requires NoneClaimed(q, popped, tenant, now)
    ensures
      var s := Sweep(q, popped, tenant, now);
      && Sweep(q, popped + [item], tenant, now) == Meet(s, item, tenant, now)
      && (Look(s, item, tenant, now) != Claim ==> NoneClaimed(q, popped + [item], tenant, now))
  {
    var met := popped + [item];
    assert met[..|popped|] == popped;
    assert forall i | 0 <= i <= |popped| :: met[..i] == popped[..i];
  }

  /** A search under way: `popped` is out of the heap, `left` is still in it. */
  ghost predicate Searched(q: QState, popped: seq<PriorityItem>, left: multiset<PriorityItem>, s: QState,
                           tenant: Option<string>, now: real)
  {
    && Least(q.heap, popped) && left == q.heap - multiset(popped)
    && NoneClaimed(q, popped, tenant, now) && s == Sweep(q, popped, tenant, now)
  }
}
