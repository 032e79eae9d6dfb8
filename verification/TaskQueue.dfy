/** The in-memory task queue, updated in place; each method is tied to its abstract operation. */
module TaskQueue {
  import opened Prelude
  import opened Ports
  import opened PriorityHeap
  import opened QueueSpec
  import I = QueueInvariants

  lemma SameSize<K, U, V>(m: map<K, U>, n: map<K, V>)
    requires m.Keys == n.Keys
    ensures |m| == |n|
  {
    assert |m| == |m.Keys| == |n.Keys| == |n|;
  }

  /** What the search may do with an item it has just popped, and with the list of items to put back. */
  ghost predicate Examined(before: QState, after: QState, item: PriorityItem, checked: seq<PriorityItem>,
                           kept: seq<PriorityItem>, taken: bool, tenant: Option<string>, now: real)
  {
    match Look(before, item, tenant, now)
    case PutBack => !taken && kept == checked + [item] && after == before
    case Discard => !taken && kept == checked && after == before
    case Expire => !taken && kept == checked && after == MarkExpired(before, item.task.taskId)
    case Claim => taken && kept == checked && after == before.(status := before.status[item.task.taskId := Processing])
  }

  /** One more item popped and examined extends the search, the set-aside items counting as still in the heap. */
  lemma SearchOn(q: QState, popped: seq<PriorityItem>, left: multiset<PriorityItem>, s: QState,
                 before: QState, after: QState, item: PriorityItem,
                 checked: seq<PriorityItem>, kept: seq<PriorityItem>, taken: bool,
                 tenant: Option<string>, now: real)
    returns (s': QState)
    requires Searched(q, popped, left, s, tenant, now)
    requires item in left && forall x | x in left :: !Less(x, item)
    requires left == before.heap + multiset{item} && s == before.(heap := left + multiset(checked))
    requires Examined(before, after, item, checked, kept, taken, tenant, now)
    ensures s' == after.(heap := before.heap + multiset(kept))
    ensures taken ==> item.task.taskId in q.tasks && Found(q, popped, Some(item), tenant, now, s')
    ensures !taken ==> Searched(q, popped + [item], before.heap, s', tenant, now)
  {
    hide Examined, Look, Meet, ClaimItem, Less, Least, NoneClaimed, Sweep;
    s' := after.(heap := before.heap + multiset(kept));
    ExaminedMeets(s, before, after, item, checked, kept, taken, tenant, now);
    LeastSnoc(q.heap, popped, item);
    SweepSnoc(q, popped, item, tenant, now);
    SweepTasks(q, popped, tenant, now);
    ClaimedIsTask(s, item, tenant, now);
  }

  lemma ClaimedIsTask(q: QState, item: PriorityItem, tenant: Option<string>, now: real)
    ensures Look(q, item, tenant, now) == Claim ==> item.task.taskId in q.tasks
  {
  }

  lemma SearchStart(q: QState, tenant: Option<string>, now: real)
    ensures Searched(q, [], q.heap, q, tenant, now)
  {
  }

  lemma SearchEnd(q: QState, popped: seq<PriorityItem>, s: QState, tenant: Option<string>, now: real)
    requires Searched(q, popped, multiset{}, s, tenant, now)
    ensures Found(q, popped, None, tenant, now, s)
  {
    assert multiset(popped) == q.heap;
  }

  lemma SameLook(q: QState, s: QState, item: PriorityItem, tenant: Option<string>, now: real)
    requires s == q.(heap := s.heap)
    ensures Look(s, item, tenant, now) == Look(q, item, tenant, now)
  {
  }

  lemma SameUnindex(q: QState, heap: multiset<PriorityItem>, id: TaskId)
    requires id in q.tasks
    ensures Unindex(q.(heap := heap), id) == Unindex(q, id).(heap := heap)
  {
    hide DiscardFrom;
  }

  lemma SameMark(q: QState, heap: multiset<PriorityItem>, id: TaskId)
    ensures MarkExpired(q.(heap := heap), id) == MarkExpired(q, id).(heap := heap)
  {
    hide Unindex;
    if id in q.tasks {
      SameUnindex(q, heap, id);
    }
  }

  lemma ExaminedMeets(s: QState, before: QState, after: QState, item: PriorityItem,
                      checked: seq<PriorityItem>, kept: seq<PriorityItem>, taken: bool,
                      tenant: Option<string>, now: real)
    requires s == before.(heap := before.heap + multiset{item} + multiset(checked))
    requires Examined(before, after, item, checked, kept, taken, tenant, now)
    ensures taken == (Look(s, item, tenant, now) == Claim)
    ensures after.(heap := before.heap + multiset(kept)) ==
            if taken then ClaimItem(s, item) else Meet(s, item, tenant, now)
  {
    hide Look, MarkExpired;
    SameLook(before, s, item, tenant, now);
    SameMark(before, s.heap, item.task.taskId);
    assert s.heap - multiset{item} == before.heap + multiset(checked);
  }

  lemma {:induction false} SweepTasks(q: QState, popped: seq<PriorityItem>, tenant: Option<string>, now: real)
    ensures Sweep(q, popped, tenant, now).tasks == q.tasks
  {
    if popped != [] {
      SweepTasks(q, popped[..|popped| - 1], tenant, now);
    }
  }

  /** A sweep under way: `todo` is still to be looked at, the overdue rest are marked, in the order `order`. */
  ghost predicate Clearing(q: QState, now: real, order: seq<TaskId>, todo: set<TaskId>, s: QState) {
    && Lists(order, Overdue(q, now) - todo)
    && s == ExpireAll(q, order) && s.tasks == q.tasks
    && forall id | id in todo :: s.Is(id, Pending) == q.Is(id, Pending)
  }

  lemma ExpireAllSnoc(q: QState, order: seq<TaskId>, id: TaskId)
    ensures ExpireAll(q, order + [id]) == MarkExpired(ExpireAll(q, order), id)
  {
    assert (order + [id])[..|order|] == order;
  }

  lemma ClearingStep(q: QState, now: real, order: seq<TaskId>, todo: set<TaskId>, s: QState, id: TaskId)
    requires Clearing(q, now, order, todo, s) && id in todo && todo <= q.tasks.Keys
    ensures if s.Is(id, Pending) && q.tasks[id].IsExpired(now)
            then Clearing(q, now, order + [id], todo - {id}, MarkExpired(s, id))
            else Clearing(q, now, order, todo - {id}, s)
  {
    hide ExpireAll, MarkExpired;
    var listed := Overdue(q, now) - todo;
    ExpireAllSnoc(q, order, id);
    MarkShape(s, id);
    if s.Is(id, Pending) && q.tasks[id].IsExpired(now) {
      ListsSnoc(order, listed, id);
      assert Overdue(q, now) - (todo - {id}) == listed + {id};
    } else {
      assert Overdue(q, now) - (todo - {id}) == listed;
    }
  }

  class InMemoryTaskQueue {
    const cfg: Config
    var heap: seq<PriorityItem>
    var tasks: map<TaskId, TaskPayload>
    var status: map<TaskId, TaskStatus>
    var results: map<TaskId, TaskResult>
    var byTenant: map<string, set<TaskId>>
    var byAgent: map<AgentId, set<TaskId>>
    var closed: bool
    var enqueuedCount: nat
    var completedCount: nat
    var failedCount: nat

    // The stored payloads as values: what never changes in them, and their retry counts.
    ghost var infos: map<TaskId, Task>
    ghost var retries: map<TaskId, int>

    /** The list is a heap, and every payload is stored under its own identifier. */
    ghost predicate Valid()
      reads this, tasks.Values
    {
      IsHeap(heap) && Stored(tasks, infos, retries)
    }

    static ghost predicate Stored(tasks: map<TaskId, TaskPayload>, infos: map<TaskId, Task>, retries: map<TaskId, int>)
      reads tasks.Values
    {
      && infos.Keys == retries.Keys == tasks.Keys
      && forall id | id in tasks ::
           tasks[id].task == infos[id] && tasks[id].retryCount == retries[id] && infos[id].taskId == id
    }

    ghost function View(): QState
      reads this
    {
      QState(
        multiset(heap), infos, retries, status, results, byTenant, byAgent,
        closed, enqueuedCount, completedCount, failedCount)
    }

    constructor (maxSize: int, retryBase: real, retryCap: real)
      ensures Valid() && View() == EMPTY
      ensures cfg == Config(maxSize, retryBase, retryCap)
    {
      cfg := Config(maxSize, retryBase, retryCap);
      heap, tasks, status, results, byTenant, byAgent := [], map[], map[], map[], map[], map[];
      closed, enqueuedCount, completedCount, failedCount := false, 0, 0, 0;
      infos, retries := map[], map[];
    }

    method Enqueue(payload: TaskPayload, delay: real, now: real) returns (outcome: EnqueueOutcome)
      requires Valid()
      modifies this
      ensures Valid()
      ensures outcome == EnqueueResult(cfg, old(View()))
      ensures View() == QueueSpec.Enqueue(cfg, old(View()), payload.task, payload.retryCount, delay, now)
      ensures tasks == if outcome == Accepted then old(tasks)[payload.task.taskId := payload] else old(tasks)
    {
      SameSize(tasks, infos);
      if closed {
        return QueueClosed;
      }
      if |tasks| >= cfg.maxSize {
        return QueueFull(|tasks|, cfg.maxSize);
      }
      Admit(payload, if delay > 0.0 then now + delay else now);
      outcome := Accepted;
    }

    method Admit(payload: TaskPayload, visibleAt: real)
      requires Valid()
      modifies this
      ensures Valid() && tasks == old(tasks)[payload.task.taskId := payload]
      ensures View() == QueueSpec.Admit(old(View()), payload.task, payload.retryCount, visibleAt)
    {
      var task := payload.task;
      PushItem(ItemFor(task, visibleAt));
      Store(payload);
      Remember(task);
    }

    method Store(payload: TaskPayload)
      requires Valid()
      modifies `tasks, `infos, `retries, `status, `enqueuedCount
      ensures Valid() && tasks == old(tasks)[payload.task.taskId := payload]
      ensures
        var q, id := old(View()), payload.task.taskId;
        View() == q.(tasks := q.tasks[id := payload.task], retries := q.retries[id := payload.retryCount],
                     status := q.status[id := Pending], enqueuedCount := q.enqueuedCount + 1)
    {
      hide IsHeap;
      var id := payload.task.taskId;
      tasks := tasks[id := payload];
      infos, retries := infos[id := payload.task], retries[id := payload.retryCount];
      status := status[id := Pending];
      enqueuedCount := enqueuedCount + 1;
    }

    /** Counts one more retry, in the payload itself, and makes the task pending again. */
    method Reopen(payload: TaskPayload)
      requires Valid() && payload.task.taskId in tasks && tasks[payload.task.taskId] == payload
      modifies payload, `retries, `status
      ensures Valid() && tasks[payload.task.taskId] == payload && View().tasks[payload.task.taskId] == payload.task
      ensures payload.retryCount == old(payload.retryCount) + 1 == old(View()).retries[payload.task.taskId] + 1
      ensures
        var q, id := old(View()), payload.task.taskId;
        View() == q.(retries := q.retries[id := payload.retryCount], status := q.status[id := Pending])
    {
      hide IsHeap;
      payload.retryCount := payload.retryCount + 1;
      retries := retries[payload.task.taskId := payload.retryCount];
      status := status[payload.task.taskId := Pending];
    }

    method PushItem(item: PriorityItem)
      requires Valid()
      modifies `heap
      ensures Valid()
      ensures View() == old(View()).(heap := old(View()).heap + multiset{item})
    {
      heap := HeapPush(heap, item);
    }

    /** Enters a task in both indexes. */
    method Remember(task: Task)
      requires Valid()
      modifies `byTenant, `byAgent
      ensures Valid()
      ensures View() == Index(old(View()), task)
    {
      hide IsHeap, Stored;
      byTenant := AddTo(byTenant, task.tenantId, task.taskId);
      if task.targetAgentId.Some? {
        byAgent := AddTo(byAgent, task.targetAgentId.value, task.taskId);
      }
    }

    /** The non-blocking form: no wait for a task to arrive. */
    method Dequeue(tenant: Option<string>, now: real)
      returns (payload: Option<TaskPayload>, ghost popped: seq<PriorityItem>, ghost claimed: Option<PriorityItem>)
      requires Valid()
      modifies this
      ensures Valid() && tasks == old(tasks) && closed == old(closed)
      ensures closed ==> payload == None && claimed == None && popped == [] && View() == old(View())
      ensures !closed ==> Found(old(View()), popped, claimed, tenant, now, View())
      ensures payload.Some? <==> claimed.Some?
      ensures payload.Some? ==> claimed.value.task.taskId in tasks && payload.value == tasks[claimed.value.task.taskId]
    {
      if closed {
        return None, [], None;
      }
      payload, popped, claimed := FindNextVisible(tenant, now);
    }

    method FindNextVisible(tenant: Option<string>, now: real)
      returns (payload: Option<TaskPayload>, ghost popped: seq<PriorityItem>, ghost claimed: Option<PriorityItem>)
      requires Valid()
      modifies this
      ensures Valid() && tasks == old(tasks) && closed == old(closed)
      ensures Found(old(View()), popped, claimed, tenant, now, View())
      ensures payload.Some? <==> claimed.Some?
      ensures payload.Some? ==> claimed.value.task.taskId in tasks && payload.value == tasks[claimed.value.task.taskId]
    {
      hide Searched, Found, IsHeap;
      ghost var q := View();
      var checked: seq<PriorityItem> := [];
      payload, popped, claimed := None, [], None;
      ghost var goal := q;
      SearchStart(q, tenant, now);
      while heap != []
        invariant Valid() && tasks == old(tasks) && closed == old(closed)
        invariant infos == q.tasks
        invariant Searched(q, popped, multiset(heap), goal, tenant, now)
        invariant goal == View().(heap := multiset(heap) + multiset(checked))
        decreases |heap|
      {
        var item, taken;
        item, taken, checked, goal := PopNext(checked, tenant, now, q, popped, goal);
        if taken {
          payload := Some(tasks[item.task.taskId]);
          claimed := Some(item);
          break;
        }
        popped := popped + [item];
      }
      if claimed.None? {
        SearchEnd(q, popped, goal, tenant, now);
      }
      Restore(checked);
    }

    /** Pops one item and examines it. */
    method PopNext(checked: seq<PriorityItem>, tenant: Option<string>, now: real,
                   ghost q: QState, ghost popped: seq<PriorityItem>, ghost s: QState)
      returns (item: PriorityItem, taken: bool, kept: seq<PriorityItem>, ghost s': QState)
      requires Valid() && heap != []
      requires Searched(q, popped, multiset(heap), s, tenant, now)
      requires s == View().(heap := multiset(heap) + multiset(checked)) && infos == q.tasks
      modifies this
      ensures Valid() && tasks == old(tasks) && infos == old(infos) && closed == old(closed) && |heap| < |old(heap)|
      ensures s' == View().(heap := multiset(heap) + multiset(kept))
      ensures taken ==> item.task.taskId in q.tasks && Found(q, popped, Some(item), tenant, now, s')
      ensures !taken ==> Searched(q, popped + [item], multiset(heap), s', tenant, now)
    {
      hide Less, Searched, Found, Examined, IsHeap;
      ghost var left := multiset(heap);
      item, heap := HeapPop(heap);
      ghost var before := View();
      taken, kept := Examine(item, checked, tenant, now);
      s' := SearchOn(q, popped, left, s, before, View(), item, checked, kept, taken, tenant, now);
    }

    /** What the search does with an item it has just popped. */
    method Examine(item: PriorityItem, checked: seq<PriorityItem>, tenant: Option<string>, now: real)
      returns (taken: bool, kept: seq<PriorityItem>)
      requires Valid()
      modifies this
      ensures Valid() && tasks == old(tasks) && infos == old(infos) && heap == old(heap) && closed == old(closed)
      ensures Examined(old(View()), View(), item, checked, kept, taken, tenant, now)
    {
      hide IsHeap;
      var id := item.task.taskId;
      taken, kept := false, checked;
      if id !in tasks {
        return;
      }
      if item.visibleAt > now {
        kept := checked + [item];
        return;
      }
      if item.task.IsExpired(now) {
        MarkExpired(id);
        return;
      }
      if tenant.Some? && tenant.value != "" && item.task.tenantId != tenant.value {
        kept := checked + [item];
        return;
      }
      if id !in status || status[id] != Pending {
        return;
      }
      status := status[id := Processing];
      taken := true;
    }

    /** Puts back the items that were met and not taken. */
    method Restore(checked: seq<PriorityItem>)
      requires Valid()
      modifies `heap
      ensures Valid()
      ensures View() == old(View()).(heap := old(View()).heap + multiset(checked))
    {
      assert checked == checked[..|checked|];
      for i := 0 to |checked|
        invariant Valid()
        invariant multiset(heap) == multiset(old(heap)) + multiset(checked[..i])
      {
        assert checked[..i + 1] == checked[..i] + [checked[i]];
        heap := HeapPush(heap, checked[i]);
      }
    }

    method MarkExpired(id: TaskId)
      requires Valid()
      modifies this
      ensures Valid() && tasks == old(tasks) && heap == old(heap)
      ensures View() == QueueSpec.MarkExpired(old(View()), id)
    {
      hide IsHeap;
      status := status[id := Expired];
      if id in tasks {
        Forget(tasks[id]);
        results := results[id := TaskResult(id, Expired, Some("TASK_EXPIRED"), 0)];
      }
    }

    /** Takes a task out of both indexes. */
    method Forget(payload: TaskPayload)
      requires Valid() && payload.task.taskId in tasks && tasks[payload.task.taskId] == payload
      modifies `byTenant, `byAgent
      ensures Valid()
      ensures View() == Unindex(old(View()), payload.task.taskId)
    {
      hide IsHeap;
      var task := payload.task;
      byTenant := DiscardFrom(byTenant, task.tenantId, task.taskId);
      if task.targetAgentId.Some? {
        byAgent := DiscardFrom(byAgent, task.targetAgentId.value, task.taskId);
      }
    }

    method Complete(id: TaskId, result: TaskResult) returns (found: bool)
      requires Valid()
      modifies this
      ensures Valid() && tasks == old(tasks)
      ensures found == (id in tasks)
      ensures View() == QueueSpec.Complete(old(View()), id, result)
    {
      hide IsHeap;
      if id !in tasks {
        return false;
      }
      status := status[id := Completed];
      results := results[id := result];
      Forget(tasks[id]);
      completedCount := completedCount + 1;
      found := true;
    }

    method Fail(id: TaskId, errorCode: string, retry: bool, now: real) returns (found: bool)
      requires Valid()
      modifies this, if id in tasks then {tasks[id]} else {}
      ensures Valid() && tasks == old(tasks)
      ensures found == (id in tasks)
      ensures View() == QueueSpec.Fail(cfg, old(View()), id, errorCode, retry, now)
    {
      if id !in tasks {
        return false;
      }
      found := true;
      var payload := tasks[id];
      if retry && payload.CanRetry() {
        Retry(payload, now);
      } else {
        GiveUp(payload, errorCode);
      }
    }

    method Retry(payload: TaskPayload, now: real)
      requires Valid() && payload.task.taskId in tasks && tasks[payload.task.taskId] == payload
      modifies this, payload
      ensures Valid() && tasks == old(tasks)
      ensures View() == QueueSpec.Retry(cfg, old(View()), payload.task.taskId, now)
    {
      hide IsHeap, Stored;
      Reopen(payload);
      var delay := cfg.Delay(payload.retryCount);
      PushItem(ItemFor(payload.task, now + delay));
    }

    method GiveUp(payload: TaskPayload, errorCode: string)
      requires Valid() && payload.task.taskId in tasks && tasks[payload.task.taskId] == payload
      modifies this
      ensures Valid() && tasks == old(tasks)
      ensures View() == QueueSpec.GiveUp(old(View()), payload.task.taskId, errorCode)
    {
      hide IsHeap;
      var id := payload.task.taskId;
      status := status[id := Failed];
      results := results[id := TaskResult(id, Failed, Some(errorCode), payload.retryCount)];
      Forget(payload);
      failedCount := failedCount + 1;
    }

    method Cancel(id: TaskId) returns (cancelled: bool)
      requires Valid()
      modifies this
      ensures Valid() && tasks == old(tasks)
      ensures cancelled == (id in tasks && old(View()).Is(id, Pending))
      ensures View() == QueueSpec.Cancel(old(View()), id)
    {
      hide IsHeap;
      if id !in tasks || id !in status || status[id] != Pending {
        return false;
      }
      status := status[id := Cancelled];
      Forget(tasks[id]);
      results := results[id := TaskResult(id, Cancelled, Some("TASK_CANCELLED"), 0)];
      cancelled := true;
    }

    /** `order` is the order in which the sweep met the overdue tasks. */
    method ClearExpired(now: real) returns (count: nat, ghost order: seq<TaskId>)
      requires Valid()
      modifies this
      ensures Valid() && tasks == old(tasks)
      ensures Lists(order, Overdue(old(View()), now)) && count == |order|
      ensures View() == ExpireAll(old(View()), order)
    {
      hide IsHeap;
      ghost var q := View();
      count, order := 0, [];
      var todo := tasks.Keys;
      while todo != {}
        invariant Valid() && tasks == old(tasks) && todo <= tasks.Keys && count == |order|
        invariant Clearing(q, now, order, todo, View())
        decreases todo
      {
        var id :| id in todo;
        ClearingStep(q, now, order, todo, View(), id);
        if id in status && status[id] == Pending && tasks[id].task.IsExpired(now) {
          MarkExpired(id);
          count, order := count + 1, order + [id];
        }
        todo := todo - {id};
      }
      assert Overdue(q, now) - todo == Overdue(q, now);
    }

    /** The number of pending tasks, of one tenant or of all. */
    method Size(tenant: Option<string>) returns (n: nat)
      ensures n == |PendingOf(View(), tenant)|
    {
      var ids := if tenant.Some? && tenant.value != "" then At(byTenant, tenant.value) else status.Keys;
      n := CountPending(ids);
      assert PendingOf(View(), tenant) == set id | id in ids && View().Is(id, Pending);
    }

    method PendingByAgent(agent: AgentId) returns (n: nat)
      ensures n == |set id | id in At(byAgent, agent) && View().Is(id, Pending)|
    {
      n := CountPending(At(byAgent, agent));
    }

    method CountPending(ids: set<TaskId>) returns (n: nat)
      ensures n == |set id | id in ids && View().Is(id, Pending)|
    {
      n := 0;
      var todo := ids;
      ghost var seen: set<TaskId> := {};
      while todo != {}
        invariant todo <= ids
        invariant seen == set id | id in ids - todo && View().Is(id, Pending)
        invariant n == |seen|
        decreases todo
      {
        var id :| id in todo;
        if id in status && status[id] == Pending {
          n := n + 1;
          seen := seen + {id};
        }
        todo := todo - {id};
      }
      assert seen == set id | id in ids && View().Is(id, Pending);
    }

    lemma RetriesOf(id: TaskId)
      requires Valid() && id in tasks
      ensures id in infos && infos[id] == tasks[id].task && id in retries && retries[id] == tasks[id].retryCount
    {
    }

    /** Whether a stored payload has retries left. */
    method CanRetry(payload: TaskPayload) returns (again: bool)
      requires Valid() && payload.task.taskId in tasks && tasks[payload.task.taskId] == payload
      ensures again == WillRetry(View(), payload.task.taskId)
    {
      again := payload.CanRetry();
    }

    /** A task that was ever admitted is found, as it is now, also after it is finished. */
    method Get(id: TaskId) returns (payload: Option<TaskPayload>)
      requires Valid()
      ensures payload.Some? <==> id in View().tasks
      ensures payload.Some? ==>
                && payload.value.task == View().tasks[id] && payload.value.task.taskId == id
                && payload.value.retryCount == View().retries[id]
    {
      payload := if id in tasks then Some(tasks[id]) else None;
    }

    /** While the structures agree, there is a result exactly when the task's status is final, and it says that status. */
    method GetResult(id: TaskId) returns (result: Option<TaskResult>)
      ensures I.ResultsAgree(results, status) ==>
                && (result.Some? <==> id in status && I.Terminal(status[id]))
                && (result.Some? ==> result.value.taskId == id && result.value.status == status[id])
      ensures result.Some? ==> id in results && result.value == results[id]
    {
      result := if id in results then Some(results[id]) else None;
    }

    method Shutdown()
      modifies `closed
      ensures View() == old(View()).(closed := true)
    {
      closed := true;
    }
  }
}
