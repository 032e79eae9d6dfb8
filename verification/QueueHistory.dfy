/** Properties of whole runs of the queue and its clients: ownership, retries, backoff, statuses. */
module QueueHistory {
  import opened Prelude
  import opened Ports
  import opened PriorityHeap
  import opened QueueSpec
  import opened QueueInvariants
  import opened QueueClaims
  import opened QueueSystem

  // ----- Ownership -----

  lemma HeldKept(cfg: Config, s: Sys, e: Effect, t: Sys)
    requires Keyed(s.q.tasks, s.q.retries, s.q.status) && HeldAgrees(s.held, s.q.status) && Effective(cfg, s, e, t)
    ensures HeldAgrees(t.held, t.q.status)
  {
    hide HeldAgrees, Quiet, Eligible;
    match e
    case Admitting(task, _) => HeldSame(s.held, s.q.status, task.taskId, Pending);
    case Retiring => HeldQuiet(s.held, s.q, t.q);
    case Claiming(w, mid, item, _) =>
      HeldQuiet(s.held, s.q, mid);
      HeldTaken(s.held, mid.status, w, item.task.taskId);
    case Finishing(w, st) => HeldReleased(s.held, s.q.status, w, st);
    case Retrying(w) => HeldReleased(s.held, s.q.status, w, Pending);
  }

  lemma HeldSame(held: map<WorkerId, TaskId>, status: StatusMap, id: TaskId, st: TaskStatus)
    requires HeldAgrees(held, status) && id !in status && st != Processing
    ensures HeldAgrees(held, status[id := st])
  {
  }

  // ----- Claims and retries -----

  /** How often a task was claimed. */
  function Claims(log: seq<Event>, id: TaskId): nat {
    if log == [] then 0
    else Claims(log[..|log| - 1], id) + (if log[|log| - 1].Claimed? && log[|log| - 1].id == id then 1 else 0)
  }

  lemma ClaimsSnoc(log: seq<Event>, e: Event, id: TaskId)
    ensures Claims(log + [e], id) == Claims(log, id) + (if e.Claimed? && e.id == id then 1 else 0)
  {
    assert (log + [e])[..|log|] == log;
  }

  predicate TaskHistory(initial: int, retries: int, maxRetries: int, st: TaskStatus, claims: int) {
    && claims == retries - initial + (if Started(st) then 1 else 0)
    && initial <= retries && (retries == initial || retries <= maxRetries)
  }

  /**
   A task has been claimed once for each retry so far, and once more if it is being processed or
   was completed or failed for good; retries stop at the maximum.
   */
  ghost predicate HistoryAgrees(initial: map<TaskId, int>, tasks: TaskMap, retries: map<TaskId, int>,
                                status: StatusMap, log: seq<Event>)
  {
    && initial.Keys == tasks.Keys == retries.Keys == status.Keys
    && (forall id | id in tasks :: TaskHistory(initial[id], retries[id], tasks[id].maxRetries, status[id], Claims(log, id)))
    && (forall id | id !in tasks :: Claims(log, id) == 0)
  }

  lemma HistoryQuiet(initial: map<TaskId, int>, q: QState, q': QState, log: seq<Event>)
    requires HistoryAgrees(initial, q.tasks, q.retries, q.status, log) && Quiet(q, q')
    ensures HistoryAgrees(initial, q'.tasks, q'.retries, q'.status, log)
  {
  }

  /** One task is at `k` retries with status `st` now; the log tells of nobody else. */
  ghost predicate Moves(q: QState, id: TaskId, k: int, st: TaskStatus, log: seq<Event>, log': seq<Event>) {
    && id in q.tasks && id in q.retries && id in q.status
    && (forall x | x != id :: Claims(log', x) == Claims(log, x))
    && (k == q.retries[id] || q.retries[id] < k <= q.tasks[id].maxRetries)
    && Claims(log', id) - Claims(log, id) ==
       k - q.retries[id] + (if Started(st) then 1 else 0) - (if Started(q.status[id]) then 1 else 0)
  }

  lemma HistoryMoved(initial: map<TaskId, int>, q: QState, id: TaskId, k: int, st: TaskStatus, log: seq<Event>, log': seq<Event>)
    requires HistoryAgrees(initial, q.tasks, q.retries, q.status, log) && Moves(q, id, k, st, log, log')
    ensures HistoryAgrees(initial, q.tasks, q.retries[id := k], q.status[id := st], log')
  {
    hide Moves, TaskHistory, Claims;
    forall x | x in q.tasks
      ensures TaskHistory(initial[x], q.retries[id := k][x], q.tasks[x].maxRetries, q.status[id := st][x], Claims(log', x))
    {
      MovedAt(initial[x], q, id, k, st, log, log', x);
    }
    forall x | x !in q.tasks ensures Claims(log', x) == 0 {
      MovedElsewhere(q, id, k, st, log, log', x);
    }
    MovedKeys(q, id, k, st, log, log');
  }

  lemma MovedKeys(q: QState, id: TaskId, k: int, st: TaskStatus, log: seq<Event>, log': seq<Event>)
    requires Moves(q, id, k, st, log, log')
    ensures q.retries[id := k].Keys == q.retries.Keys && q.status[id := st].Keys == q.status.Keys
  {
  }

  lemma MovedElsewhere(q: QState, id: TaskId, k: int, st: TaskStatus, log: seq<Event>, log': seq<Event>, x: TaskId)
    requires Moves(q, id, k, st, log, log') && x !in q.tasks
    ensures Claims(log', x) == Claims(log, x)
  {
    hide Claims;
  }

  lemma MovedAt(initial: int, q: QState, id: TaskId, k: int, st: TaskStatus, log: seq<Event>, log': seq<Event>, x: TaskId)
    requires Moves(q, id, k, st, log, log') && x in q.tasks && x in q.retries && x in q.status
    requires TaskHistory(initial, q.retries[x], q.tasks[x].maxRetries, q.status[x], Claims(log, x))
    ensures TaskHistory(initial, q.retries[id := k][x], q.tasks[x].maxRetries, q.status[id := st][x], Claims(log', x))
  {
    hide Claims;
  }

  lemma HistoryAdmitted(initial: map<TaskId, int>, q: QState, q': QState, task: Task, retryCount: int, at: real, log: seq<Event>)
    requires HistoryAgrees(initial, q.tasks, q.retries, q.status, log) && task.taskId !in q.tasks
    requires Admitted(q, q', task, retryCount, at)
    ensures HistoryAgrees(initial[task.taskId := retryCount], q'.tasks, q'.retries, q'.status, log)
  {
    hide Claims, ItemFor;
    var id := task.taskId;
    assert Claims(log, id) == 0;
    hide TaskHistory;
    assert TaskHistory(retryCount, retryCount, task.maxRetries, Pending, 0) by { Untried(retryCount, task.maxRetries); }
  }

  lemma Untried(retryCount: int, maxRetries: int)
    ensures TaskHistory(retryCount, retryCount, maxRetries, Pending, 0)
  {
  }

  ghost predicate SInv(s: Sys) {
    && QInv(s.q) && HeldAgrees(s.held, s.q.status)
    && HistoryAgrees(s.initial, s.q.tasks, s.q.retries, s.q.status, s.log)
  }

  lemma HistoryKept(cfg: Config, s: Sys, e: Effect, t: Sys)
    requires SInv(s) && Effective(cfg, s, e, t)
    ensures HistoryAgrees(t.initial, t.q.tasks, t.q.retries, t.q.status, t.log)
  {
    hide QInv, HeldAgrees, Quiet, HistoryAgrees, Took, Finished, Admitted, Retried;
    match e
    case Admitting(task, retryCount) => HistoryAdmitted(s.initial, s.q, t.q, task, retryCount, t.now, s.log);
    case Retiring => HistoryQuiet(s.initial, s.q, t.q, s.log);
    case Claiming(_, mid, item, tenant) => HistoryClaimed(s, mid, item, tenant, t.now, t.q);
    case Finishing(w, st) => HolderOf(s, w); HistoryFinished(s, s.held[w], st, t.q);
    case Retrying(w) => HolderOf(s, w); HistoryRetried(cfg, s, s.held[w], t.now, t.q);
  }

  lemma HistoryClaimed(s: Sys, mid: QState, item: PriorityItem, tenant: Option<string>, at: real, q': QState)
    requires HistoryAgrees(s.initial, s.q.tasks, s.q.retries, s.q.status, s.log)
    requires Took(s.q, mid, item, tenant, at, q')
    ensures item.task.taskId in s.q.retries
    ensures HistoryAgrees(s.initial, q'.tasks, q'.retries, q'.status,
                          s.log + [Claimed(item.task.taskId, s.q.retries[item.task.taskId], at)])
  {
    var id := item.task.taskId;
    HistoryQuiet(s.initial, s.q, mid, s.log);
    var e := Claimed(id, s.q.retries[id], at);
    forall x { ClaimsSnoc(s.log, e, x); }
    hide HistoryAgrees, Quiet, Eligible, Claims;
    HistoryMoved(s.initial, mid, id, mid.retries[id], Processing, s.log, s.log + [e]);
    assert mid.retries[id := mid.retries[id]] == mid.retries;
  }

  lemma HistoryFinished(s: Sys, id: TaskId, st: TaskStatus, q': QState)
    requires HistoryAgrees(s.initial, s.q.tasks, s.q.retries, s.q.status, s.log) && s.q.Is(id, Processing) && Started(st)
    requires Finished(s.q, q', id, st)
    ensures HistoryAgrees(s.initial, q'.tasks, q'.retries, q'.status, s.log)
  {
    HistoryMoved(s.initial, s.q, id, s.q.retries[id], st, s.log, s.log);
    assert s.q.retries[id := s.q.retries[id]] == s.q.retries;
  }

  lemma HistoryRetried(cfg: Config, s: Sys, id: TaskId, at: real, q': QState)
    requires HistoryAgrees(s.initial, s.q.tasks, s.q.retries, s.q.status, s.log) && s.q.Is(id, Processing)
    requires Retried(cfg, s.q, q', id, at)
    ensures HistoryAgrees(s.initial, q'.tasks, q'.retries, q'.status, s.log + [RetryScheduled(id, s.q.retries[id] + 1, at)])
  {
    var e := RetryScheduled(id, s.q.retries[id] + 1, at);
    forall x { ClaimsSnoc(s.log, e, x); }
    HistoryMoved(s.initial, s.q, id, s.q.retries[id] + 1, Pending, s.log, s.log + [e]);
  }

  // ----- Backoff -----

  /** The delays before retries `from + 1` to `to`, added up. */
  function DelaySum(cfg: Config, from: int, to: int): real
    decreases to - from
  {
    if to <= from then 0.0 else cfg.Delay(to) + DelaySum(cfg, from, to - 1)
  }

  /** The task was enqueued no earlier than it says it was created. */
  predicate Punctual(tasks: TaskMap, enqueuedAt: map<TaskId, real>, id: TaskId) {
    id in tasks && id in enqueuedAt && tasks[id].createdAt <= enqueuedAt[id]
  }

  /** A pending item becomes visible no earlier than all backoff delays so far demand. */
  ghost predicate Ready(cfg: Config, s: Sys, item: PriorityItem) {
    var id := item.task.taskId;
    id in s.q.retries && id in s.initial &&
    var k := s.q.retries[id];
    && (Punctual(s.q.tasks, s.enqueuedAt, id) ==> item.visibleAt >= item.createdAt + DelaySum(cfg, s.initial[id], k))
    && (k > s.initial[id] ==> RetryScheduled(id, k, item.visibleAt - cfg.Delay(k)) in s.log)
  }

  /** The task, held by a worker, has already waited for all its backoff delays. */
  ghost predicate Waited(cfg: Config, s: Sys, id: TaskId) {
    id in s.q.tasks && id in s.q.retries && id in s.initial &&
    (Punctual(s.q.tasks, s.enqueuedAt, id) ==>
      s.now >= s.q.tasks[id].createdAt + DelaySum(cfg, s.initial[id], s.q.retries[id]))
  }

  ghost predicate BackoffAgrees(cfg: Config, s: Sys) {
    && (forall item | item in s.q.heap && s.q.Is(item.task.taskId, Pending) :: Ready(cfg, s, item))
    && (forall id | s.q.Is(id, Processing) :: Waited(cfg, s, id))
  }

  /**
   What a claim in the log says: the task was within its time to live; a retry had been scheduled
   and its whole backoff delay had passed; and the delays together fit in the time to live.
   */
  ghost predicate ClaimTimely(cfg: Config, s: Sys, j: nat)
    requires j < |s.log|
  {
    s.log[j].Claimed? ==>
      var id, k, at := s.log[j].id, s.log[j].retry, s.log[j].at;
      && id in s.q.tasks && id in s.initial && at <= s.now
      && at <= s.q.tasks[id].createdAt + s.q.tasks[id].ttlSeconds as real
      && (k > s.initial[id] ==>
            exists i :: 0 <= i < j && s.log[i].RetryScheduled? && s.log[i].id == id && s.log[i].retry == k
                        && s.log[i].at + cfg.Delay(k) <= at)
      && (Punctual(s.q.tasks, s.enqueuedAt, id) ==>
            DelaySum(cfg, s.initial[id], k) <= s.q.tasks[id].ttlSeconds as real)
  }

  ghost predicate LogTimely(cfg: Config, s: Sys) {
    forall j: nat | j < |s.log| :: ClaimTimely(cfg, s, j)
  }

  /** Later states know all that earlier ones knew of a task's origin, and more of the log. */
  ghost predicate Extends(s: Sys, t: Sys) {
    && s.now <= t.now && s.log <= t.log
    && (forall id | id in s.q.tasks :: id in t.q.tasks && t.q.tasks[id] == s.q.tasks[id])
    && (forall id | id in s.initial :: id in t.initial && t.initial[id] == s.initial[id])
    && (forall id | id in s.enqueuedAt :: id in t.enqueuedAt && t.enqueuedAt[id] == s.enqueuedAt[id])
  }

  lemma EffectExtends(cfg: Config, s: Sys, e: Effect, t: Sys)
    requires Effective(cfg, s, e, t)
    requires s.initial.Keys == s.enqueuedAt.Keys == s.q.tasks.Keys
    ensures Extends(s, t) && t.initial.Keys == t.enqueuedAt.Keys == t.q.tasks.Keys
  {
    hide ItemFor, Eligible;
  }

  lemma ClaimTimelyKept(cfg: Config, s: Sys, t: Sys, j: nat)
    requires j < |s.log| && ClaimTimely(cfg, s, j) && Extends(s, t) && s.enqueuedAt.Keys == s.q.tasks.Keys
    ensures j < |t.log| && ClaimTimely(cfg, t, j)
  {
    hide DelaySum;
    assert forall i | 0 <= i <= j :: t.log[i] == s.log[i];
    if s.log[j].Claimed? {
      var id, k := s.log[j].id, s.log[j].retry;
      if k > s.initial[id] {
        var i :| 0 <= i < j && s.log[i].RetryScheduled? && s.log[i].id == id && s.log[i].retry == k
                 && s.log[i].at + cfg.Delay(k) <= s.log[j].at;
        assert t.log[i] == s.log[i];
      }
    }
  }

  ghost predicate TInv(cfg: Config, s: Sys) {
    && SInv(s) && s.enqueuedAt.Keys == s.q.tasks.Keys
    && BackoffAgrees(cfg, s) && LogTimely(cfg, s)
  }

  lemma ReadyKept(cfg: Config, s: Sys, t: Sys, item: PriorityItem)
    requires Ready(cfg, s, item) && Extends(s, t) && s.enqueuedAt.Keys == s.q.tasks.Keys
    requires item.task.taskId in s.q.tasks && item.task.taskId in t.q.retries
    requires t.q.retries[item.task.taskId] == s.q.retries[item.task.taskId]
    ensures Ready(cfg, t, item)
  {
    hide DelaySum;
  }

  lemma WaitedKept(cfg: Config, s: Sys, t: Sys, id: TaskId)
    requires Waited(cfg, s, id) && Extends(s, t) && s.enqueuedAt.Keys == s.q.tasks.Keys
    requires id in t.q.retries && t.q.retries[id] == s.q.retries[id]
    ensures Waited(cfg, t, id)
  {
    hide DelaySum;
  }

  /** Apart from `item` and `id`, only what was pending or held before is so now, at the same retry count. */
  ghost predicate Carried(s: Sys, t: Sys, item: Option<PriorityItem>, id: Option<TaskId>) {
    && (forall x | x in t.q.heap && t.q.Is(x.task.taskId, Pending) :: item == Some(x) || PendingBefore(s, t, x))
    && (forall x: TaskId | t.q.Is(x, Processing) :: id == Some(x) || (s.q.Is(x, Processing) && SameRetries(s, t, x)))
  }

  ghost predicate PendingBefore(s: Sys, t: Sys, item: PriorityItem) {
    item in s.q.heap && s.q.Is(item.task.taskId, Pending) && SameRetries(s, t, item.task.taskId)
  }

  ghost predicate SameRetries(s: Sys, t: Sys, id: TaskId) {
    id in s.q.retries && id in t.q.retries && t.q.retries[id] == s.q.retries[id]
  }

  lemma BackoffFrom(cfg: Config, s: Sys, t: Sys, item: Option<PriorityItem>, id: Option<TaskId>)
    requires BackoffAgrees(cfg, s) && Extends(s, t) && Carried(s, t, item, id)
    requires s.enqueuedAt.Keys == s.q.tasks.Keys == s.q.retries.Keys
    requires item.Some? ==> Ready(cfg, t, item.value)
    requires id.Some? ==> Waited(cfg, t, id.value)
    ensures BackoffAgrees(cfg, t)
  {
    hide Ready, Waited, Extends;
    forall x | x in t.q.heap && t.q.Is(x.task.taskId, Pending)
      ensures Ready(cfg, t, x)
    {
      if item != Some(x) {
        ReadyKept(cfg, s, t, x);
      }
    }
    forall x: TaskId | t.q.Is(x, Processing)
      ensures Waited(cfg, t, x)
    {
      if id != Some(x) {
        WaitedKept(cfg, s, t, x);
      }
    }
  }

  /** One task became pending, with a new item; it had none. */
  lemma CarriedNew(s: Sys, t: Sys, id: TaskId, k: int, item: PriorityItem)
    requires Keyed(s.q.tasks, s.q.retries, s.q.status)
    requires t.q.status == s.q.status[id := Pending] && t.q.retries == s.q.retries[id := k]
    requires t.q.heap == s.q.heap + multiset{item}
    requires forall x | x in s.q.heap :: x.task.taskId != id
    ensures Carried(s, t, Some(item), None)
  {
    forall x | x in t.q.heap && x != item && t.q.Is(x.task.taskId, Pending)
      ensures PendingBefore(s, t, x)
    {
      assert x in s.q.heap;
    }
  }

  lemma NoItem(q: QState, id: TaskId)
    requires QInv(q) && (id !in q.tasks || q.Is(id, Processing))
    ensures forall x | x in q.heap :: x.task.taskId != id
  {
    forall x | x in q.heap
      ensures x.task.taskId != id
    {
      OwnHeapItem(q, x);
    }
  }

  lemma CarriedAdmitted(s: Sys, task: Task, retryCount: int, t: Sys, visibleAt: real)
    requires QInv(s.q) && Admitted(s.q, t.q, task, retryCount, t.now) && task.taskId !in s.q.tasks
    requires t.q.heap == s.q.heap + multiset{ItemFor(task, visibleAt)}
    ensures Carried(s, t, Some(ItemFor(task, visibleAt)), None)
  {
    hide QInv, ItemFor, Carried, Keyed, Config.Delay;
    QInvKeyed(s.q);
    NoItem(s.q, task.taskId);
    CarriedNew(s, t, task.taskId, retryCount, ItemFor(task, visibleAt));
  }

  lemma CarriedQuiet(s: Sys, t: Sys)
    requires Keyed(s.q.tasks, s.q.retries, s.q.status) && Quiet(s.q, t.q)
    ensures Carried(s, t, None, None)
  {
  }

  lemma CarriedClaimed(s: Sys, mid: QState, taken: PriorityItem, tenant: Option<string>, t: Sys)
    requires Keyed(s.q.tasks, s.q.retries, s.q.status) && Took(s.q, mid, taken, tenant, t.now, t.q)
    ensures Carried(s, t, None, Some(taken.task.taskId))
  {
    hide Eligible;
    assert t.q.heap <= mid.heap <= s.q.heap;
    forall x | x in t.q.heap && t.q.Is(x.task.taskId, Pending)
      ensures PendingBefore(s, t, x)
    {
      assert mid.Is(x.task.taskId, Pending);
    }
  }

  lemma CarriedFinished(s: Sys, id: TaskId, st: TaskStatus, t: Sys)
    requires Keyed(s.q.tasks, s.q.retries, s.q.status) && Finished(s.q, t.q, id, st) && (st == Completed || st == Failed)
    ensures Carried(s, t, None, None)
  {
  }

  lemma CarriedRetried(cfg: Config, s: Sys, id: TaskId, t: Sys)
    requires QInv(s.q) && s.q.Is(id, Processing) && Retried(cfg, s.q, t.q, id, t.now)
    ensures Carried(s, t, Some(ItemFor(s.q.tasks[id], t.now + cfg.Delay(s.q.retries[id] + 1))), None)
  {
    hide QInv, ItemFor, Carried, Keyed, Config.Delay;
    QInvKeyed(s.q);
    NoItem(s.q, id);
    CarriedNew(s, t, id, s.q.retries[id] + 1, ItemFor(s.q.tasks[id], t.now + cfg.Delay(s.q.retries[id] + 1)));
  }

  // A new pending item is ready, and a newly held task has waited.

  lemma ReadyAdmitted(cfg: Config, s: Sys, task: Task, retryCount: int, t: Sys, visibleAt: real)
    requires Effective(cfg, s, Admitting(task, retryCount), t) && visibleAt >= t.now
    ensures Ready(cfg, t, ItemFor(task, visibleAt))
  {
  }

  lemma ReadyWaited(cfg: Config, s: Sys, taken: PriorityItem, t: Sys)
    requires Ready(cfg, s, taken) && Extends(s, t) && taken.visibleAt <= t.now && s.enqueuedAt.Keys == s.q.tasks.Keys
    requires OwnItem(s.q.heap, s.q.tasks, s.q.status, taken) && t.q.retries == s.q.retries
    ensures Waited(cfg, t, taken.task.taskId)
  {
    hide DelaySum;
  }

  lemma ReadyRetried(cfg: Config, s: Sys, id: TaskId, t: Sys)
    requires Waited(cfg, s, id) && Retried(cfg, s.q, t.q, id, t.now) && Extends(s, t)
    requires s.enqueuedAt.Keys == s.q.tasks.Keys && s.q.tasks[id].taskId == id
    requires id in s.initial && s.initial[id] <= s.q.retries[id]
    requires RetryScheduled(id, s.q.retries[id] + 1, t.now) in t.log
    ensures Ready(cfg, t, ItemFor(s.q.tasks[id], t.now + cfg.Delay(s.q.retries[id] + 1)))
  {
  }

  lemma BackoffKept(cfg: Config, s: Sys, e: Effect, t: Sys)
    requires TInv(cfg, s) && Effective(cfg, s, e, t) && Extends(s, t)
    ensures BackoffAgrees(cfg, t)
  {
    SInvKeys(s);
    hide QInv, HeldAgrees, HistoryAgrees, LogTimely, Ready, Waited, Extends, Keyed, Carried, Quiet, Admitted, Took, Finished, Retried;
    match e
    case Admitting(task, retryCount) => BackoffAdmitted(cfg, s, task, retryCount, t);
    case Retiring =>
      CarriedQuiet(s, t);
      BackoffFrom(cfg, s, t, None, None);
    case Claiming(w, mid, taken, tenant) =>
      CarriedClaimed(s, mid, taken, tenant, t);
      WaitedClaimed(cfg, s, mid, taken, tenant, t);
      BackoffFrom(cfg, s, t, None, Some(taken.task.taskId));
    case Finishing(w, st) =>
      CarriedFinished(s, s.held[w], st, t);
      BackoffFrom(cfg, s, t, None, None);
    case Retrying(w) => BackoffRetried(cfg, s, w, t);
  }

  lemma SInvKeys(s: Sys)
    requires SInv(s)
    ensures Keyed(s.q.tasks, s.q.retries, s.q.status) && s.initial.Keys == s.q.tasks.Keys == s.q.retries.Keys
  {
  }

  lemma BackoffAdmitted(cfg: Config, s: Sys, task: Task, retryCount: int, t: Sys)
    requires TInv(cfg, s) && Effective(cfg, s, Admitting(task, retryCount), t) && Extends(s, t)
    ensures BackoffAgrees(cfg, t)
  {
    SInvKeys(s);
    hide QInv, HeldAgrees, HistoryAgrees, LogTimely, Ready, Waited, Extends, Keyed, Carried, ItemFor, BackoffAgrees;
    var visibleAt: real :| visibleAt >= t.now && t.q.heap == s.q.heap + multiset{ItemFor(task, visibleAt)};
    CarriedAdmitted(s, task, retryCount, t, visibleAt);
    ReadyAdmitted(cfg, s, task, retryCount, t, visibleAt);
    BackoffFrom(cfg, s, t, Some(ItemFor(task, visibleAt)), None);
  }

  lemma WaitedClaimed(cfg: Config, s: Sys, mid: QState, taken: PriorityItem, tenant: Option<string>, t: Sys)
    requires TInv(cfg, s) && Took(s.q, mid, taken, tenant, t.now, t.q) && Extends(s, t)
    ensures Waited(cfg, t, taken.task.taskId) && Ready(cfg, s, taken)
  {
    hide QInv, HeldAgrees, HistoryAgrees, LogTimely, Ready, Waited, Extends, Keyed;
    OwnHeapItem(s.q, taken);
    ReadyWaited(cfg, s, taken, t);
  }

  lemma BackoffRetried(cfg: Config, s: Sys, w: WorkerId, t: Sys)
    requires TInv(cfg, s) && Effective(cfg, s, Retrying(w), t) && Extends(s, t)
    ensures BackoffAgrees(cfg, t)
  {
    hide QInv, HeldAgrees, HistoryAgrees, LogTimely, Ready, Waited, Extends, Carried, ItemFor, Config.Delay;
    SInvKeys(s);
    HolderOf(s, w);
    var id := s.held[w];
    RetriesOnlyGrow(s, id);
    assert t.log[|s.log|] == RetryScheduled(id, s.q.retries[id] + 1, t.now);
    CarriedRetried(cfg, s, id, t);
    ReadyRetried(cfg, s, id, t);
    BackoffFrom(cfg, s, t, Some(ItemFor(s.q.tasks[id], t.now + cfg.Delay(s.q.retries[id] + 1))), None);
  }

  lemma RetriesOnlyGrow(s: Sys, id: TaskId)
    requires SInv(s) && id in s.q.tasks
    ensures id in s.initial && id in s.q.retries && s.initial[id] <= s.q.retries[id]
  {
    assert TaskHistory(s.initial[id], s.q.retries[id], s.q.tasks[id].maxRetries, s.q.status[id], Claims(s.log, id));
  }

  lemma LogKept(cfg: Config, s: Sys, e: Effect, t: Sys)
    requires TInv(cfg, s) && Effective(cfg, s, e, t) && Extends(s, t)
    ensures LogTimely(cfg, t)
  {
    hide QInv, HeldAgrees, HistoryAgrees, BackoffAgrees, ClaimTimely, Extends, Took, Admitted, Retried, Finished, Quiet;
    if e.Claiming? {
      LogClaimed(cfg, s, e.mid, e.item, e.tenant, t);
    }
    forall j: nat | j < |t.log|
      ensures ClaimTimely(cfg, t, j)
    {
      if j < |s.log| {
        ClaimTimelyKept(cfg, s, t, j);
      } else if !e.Claiming? {
        NotClaimed(cfg, t, j);
      }
    }
  }

  lemma NotClaimed(cfg: Config, s: Sys, j: nat)
    requires j < |s.log| && !s.log[j].Claimed?
    ensures ClaimTimely(cfg, s, j)
  {
  }

  lemma LogClaimed(cfg: Config, s: Sys, mid: QState, taken: PriorityItem, tenant: Option<string>, t: Sys)
    requires TInv(cfg, s) && Extends(s, t) && Took(s.q, mid, taken, tenant, t.now, t.q)
    requires taken.task.taskId in s.q.retries
    requires t.log == s.log + [Claimed(taken.task.taskId, s.q.retries[taken.task.taskId], t.now)]
    ensures ClaimTimely(cfg, t, |s.log|)
  {
    hide QInv, HeldAgrees, HistoryAgrees, LogTimely, DelaySum, Quiet, BackoffAgrees;
    WaitedClaimed(cfg, s, mid, taken, tenant, t);
    OwnHeapItem(s.q, taken);
    var id, n := taken.task.taskId, |s.log|;
    var k := s.q.retries[id];
    if k > s.initial[id] {
      var i :| 0 <= i < n && s.log[i] == RetryScheduled(id, k, taken.visibleAt - cfg.Delay(k));
      assert t.log[i] == s.log[i];
    }
  }

  // ----- Whole runs -----

  lemma StepInv(cfg: Config, s: Sys, step: Step)
    requires TInv(cfg, s) && Enabled(s, step)
    ensures TInv(cfg, Next(cfg, s, step))
  {
    StepQInv(cfg, s, step);
    var t := Next(cfg, s, step);
    var e := EffectOf(cfg, s, step);
    assert Keyed(s.q.tasks, s.q.retries, s.q.status);
    assert s.initial.Keys == s.q.tasks.Keys;
    hide QInv, HeldAgrees, HistoryAgrees, Effective, LogTimely, BackoffAgrees, Extends, Keyed, NextQueue, NextHeld, NextLog, Enabled;
    HeldKept(cfg, s, e, t);
    HistoryKept(cfg, s, e, t);
    EffectExtends(cfg, s, e, t);
    LogKept(cfg, s, e, t);
    BackoffKept(cfg, s, e, t);
  }

  lemma {:induction false} RunInv(cfg: Config, s: Sys, run: seq<Step>, t: Sys)
    requires TInv(cfg, s) && Runs(cfg, s, run, t)
    ensures TInv(cfg, t)
    decreases |run|
  {
    if run != [] {
      hide TInv;
      StepInv(cfg, s, run[0]);
      RunInv(cfg, Next(cfg, s, run[0]), run[1..], t);
    }
  }

  lemma StartInv(cfg: Config)
    ensures TInv(cfg, START)
  {
    EmptyInv();
    hide QInv;
    assert forall id :: !HeldBy(map[], id);
  }
}
