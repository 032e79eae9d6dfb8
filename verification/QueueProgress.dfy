/** Quantitative results: claims and backoff are bounded, work runs out, and sizes add up. */
module QueueProgress {
  import opened Prelude
  import opened Ports
  import opened PriorityHeap
  import opened QueueSpec
  import opened QueueInvariants
  import opened QueueSystem
  import opened QueueHistory
  import opened QueueClaims
  import opened QueueTheorems

  // ----- Backoff -----

  /**
   The log of any run: every claim falls within the task's time to live; a claim for retry `k` comes
   at least the backoff delay after the failure that scheduled it; and for a task enqueued no earlier
   than its creation all its delays so far fit in its time to live.
   */
  lemma ClaimsAreTimely(cfg: Config, s: Sys, j: nat)
    requires Reachable(cfg, s) && j < |s.log| && s.log[j].Claimed?
    ensures ClaimTimely(cfg, s, j)
  {
    hide SInv, BackoffAgrees, ClaimTimely, Reachable;
    ReachableInv(cfg, s);
  }

  /** Doubling delays below the cap add up to a geometric sum. */
  lemma {:induction false} DelaysDouble(cfg: Config, k: nat)
    requires cfg.retryBase >= 0.0 && cfg.retryBase * Pow2(k) <= cfg.retryCap
    ensures DelaySum(cfg, 0, k) == cfg.retryBase * (Pow2(k + 1) - 2.0)
  {
    if k == 0 {
      assert Pow2(1) == 2.0 * Pow2(0);
    } else {
      PowPositive(k - 1);
      assert Pow2(k) == 2.0 * Pow2(k - 1);
      MulMonotone(cfg.retryBase, Pow2(k - 1), Pow2(k));
      DelaysDouble(cfg, k - 1);
      assert cfg.retryBase * (Pow2(k) - 2.0) + cfg.retryBase * Pow2(k) == cfg.retryBase * (2.0 * Pow2(k) - 2.0);
    }
  }

  lemma MulMonotone(a: real, x: real, y: real)
    requires a >= 0.0 && x <= y
    ensures a * x <= a * y
  {
  }

  lemma {:induction false} PowPositive(k: nat)
    ensures Pow2(k) > 0.0
  {
    if k > 0 {
      PowPositive(k - 1);
    }
  }

  /** So a fresh task reaches its `k`-th retry only if its time to live has room for all the doubling delays. */
  lemma RetriesFitTtl(cfg: Config, s: Sys, j: nat)
    requires Reachable(cfg, s) && j < |s.log| && s.log[j].Claimed?
    requires var id := s.log[j].id;
             && Punctual(s.q.tasks, s.enqueuedAt, id) && id in s.initial && s.initial[id] == 0 && s.log[j].retry >= 0
    requires cfg.retryBase >= 0.0 && cfg.retryBase * Pow2(s.log[j].retry) <= cfg.retryCap
    ensures cfg.retryBase * (Pow2(s.log[j].retry + 1) - 2.0) <= s.q.tasks[s.log[j].id].ttlSeconds as real
  {
    hide Reachable, DelaySum, Pow2;
    ClaimsAreTimely(cfg, s, j);
    DelaysDouble(cfg, s.log[j].retry);
  }

  // ----- Claims -----

  /** The most often a task can be claimed. */
  function Budget(initial: int, maxRetries: int): nat {
    (if maxRetries > initial then maxRetries - initial else 0) + 1
  }

  lemma ClaimsBounded(cfg: Config, s: Sys, id: TaskId)
    requires Reachable(cfg, s) && id in s.q.tasks
    ensures id in s.initial && id in s.q.retries && id in s.q.status
    ensures Claims(s.log, id) == s.q.retries[id] - s.initial[id] + (if Started(s.q.status[id]) then 1 else 0)
    ensures Claims(s.log, id) <= Budget(s.initial[id], s.q.tasks[id].maxRetries)
  {
    hide Reachable, TInv;
    ReachableInv(cfg, s);
    TInvParts(cfg, s);
    HistoryOf(s, id);
  }

  lemma HistoryOf(s: Sys, id: TaskId)
    requires SInv(s) && id in s.q.tasks
    ensures id in s.initial && id in s.q.retries && id in s.q.status
    ensures TaskHistory(s.initial[id], s.q.retries[id], s.q.tasks[id].maxRetries, s.q.status[id], Claims(s.log, id))
  {
  }

  function TotalClaims(log: seq<Event>): nat {
    if log == [] then 0 else TotalClaims(log[..|log| - 1]) + (if log[|log| - 1].Claimed? then 1 else 0)
  }

  function ClaimCounts(ids: set<TaskId>, log: seq<Event>): map<TaskId, int> {
    map id | id in ids :: Claims(log, id)
  }

  lemma {:induction false} TotalIsSum(ids: set<TaskId>, log: seq<Event>)
    requires forall i | 0 <= i < |log| && log[i].Claimed? :: log[i].id in ids
    ensures TotalClaims(log) == Sum(ids, ClaimCounts(ids, log))
    decreases |log|
  {
    if log == [] {
      SumZero(ids, ClaimCounts(ids, log));
    } else {
      var n := |log| - 1;
      var init, e := log[..n], log[n];
      assert log == init + [e];
      TotalIsSum(ids, init);
      forall id | id in ids { ClaimsSnoc(init, e, id); }
      var f, g := ClaimCounts(ids, init), ClaimCounts(ids, log);
      if e.Claimed? {
        SumSplit(ids, f, e.id);
        SumSplit(ids, g, e.id);
        SumCongruent(ids - {e.id}, f, g);
      } else {
        SumCongruent(ids, f, g);
      }
    }
  }

  lemma {:induction false} SumZero(ids: set<nat>, f: map<nat, int>)
    requires ids <= f.Keys && forall x | x in ids :: f[x] == 0
    ensures Sum(ids, f) == 0
    decreases |ids|
  {
    if ids != {} {
      var x :| x in ids;
      SumSplit(ids, f, x);
      SumZero(ids - {x}, f);
    }
  }

  function Budgets(tasks: TaskMap, initial: map<TaskId, int>): map<TaskId, int> {
    map id | id in tasks && id in initial :: Budget(initial[id], tasks[id].maxRetries)
  }

  /** However the workers are scheduled, the queue hands out no more claims than the retry limits of its tasks allow. */
  lemma TotalClaimsBounded(cfg: Config, s: Sys)
    requires Reachable(cfg, s)
    ensures s.q.tasks.Keys == s.initial.Keys
    ensures TotalClaims(s.log) <= Sum(s.q.tasks.Keys, Budgets(s.q.tasks, s.initial))
  {
    hide TInv, SInv, Reachable;
    ReachableInv(cfg, s);
    TInvParts(cfg, s);
    hide QInv, HeldAgrees;
    forall i | 0 <= i < |s.log| && s.log[i].Claimed?
      ensures s.log[i].id in s.q.tasks
    {
      ClaimsAreTimely(cfg, s, i);
    }
    TotalIsSum(s.q.tasks.Keys, s.log);
    forall id | id in s.q.tasks { ClaimsBounded(cfg, s, id); }
    SumMonotone(s.q.tasks.Keys, ClaimCounts(s.q.tasks.Keys, s.log), Budgets(s.q.tasks, s.initial));
  }

  // ----- Work runs out -----

  /** How many status changes a task can still make: two for each claim left, one for a claim under way. */
  function Rank(st: TaskStatus, left: int): nat {
    var n := if left > 0 then left else 0;
    match st
    case Pending => 2 * n + 3
    case Processing => 2 * n + 2
    case Cancelled => 1
    case _ => 0
  }

  function Ranks(q: QState): map<TaskId, int> {
    map id | id in q.tasks && id in q.status && id in q.retries ::
      Rank(q.status[id], q.tasks[id].maxRetries - q.retries[id])
  }

  ghost function Work(q: QState): int
    requires Keyed(q.tasks, q.retries, q.status)
  {
    Sum(q.tasks.Keys, Ranks(q))
  }

  lemma RankFalls(q: QState, q': QState, id: TaskId)
    requires RetryCounted(q, q', id) && q'.tasks == q.tasks && Allowed(q.status[id], q'.status[id])
    ensures RankFell(q, q', id)
  {
    var left, left' := q.tasks[id].maxRetries - q.retries[id], q'.tasks[id].maxRetries - q'.retries[id];
    assert Ranks(q)[id] == Rank(q.status[id], left) && Ranks(q')[id] == Rank(q'.status[id], left');
  }

  /** Only a retry moves a task back from processing to pending, and it counts. */
  ghost predicate RetryCounted(q: QState, q': QState, id: TaskId) {
    && id in q.tasks && id in q.status && id in q.retries && id in q'.status && id in q'.retries
    && if q.status[id] == Processing && q'.status[id] == Pending
       then q'.retries[id] == q.retries[id] + 1 <= q.tasks[id].maxRetries
       else q'.retries[id] == q.retries[id]
  }

  lemma RetriesMove(cfg: Config, s: Sys, e: Effect, t: Sys, id: TaskId)
    requires SInv(s) && Effective(cfg, s, e, t) && !e.Admitting? && id in s.q.tasks
    ensures RetryCounted(s.q, t.q, id)
  {
    hide QInv, HeldAgrees, HistoryAgrees, Took, Quiet, Retried, Finished, Admitted, RetryCounted;
    SInvKeys(s);
    match e
    case Retiring => QuietKeeps(s.q, t.q, id);
    case Claiming(_, mid, item, tenant) => TookKeeps(s.q, mid, item, tenant, t.now, t.q, id);
    case Finishing(w, st) => HolderOf(s, w); FinishedKeeps(s.q, t.q, s.held[w], st, id);
    case Retrying(w) => HolderOf(s, w); RetriedKeeps(cfg, s.q, t.q, s.held[w], t.now, id);
  }

  lemma QuietKeeps(q: QState, q': QState, id: TaskId)
    requires Quiet(q, q') && Keyed(q.tasks, q.retries, q.status) && id in q.tasks
    ensures RetryCounted(q, q', id)
  {
  }

  lemma TookKeeps(q: QState, mid: QState, item: PriorityItem, tenant: Option<string>, at: real, q': QState, id: TaskId)
    requires Took(q, mid, item, tenant, at, q') && Keyed(q.tasks, q.retries, q.status) && id in q.tasks
    ensures RetryCounted(q, q', id)
  {
    hide Eligible;
    assert q'.retries == mid.retries;
  }

  lemma FinishedKeeps(q: QState, q': QState, held: TaskId, st: TaskStatus, id: TaskId)
    requires Finished(q, q', held, st) && (st == Completed || st == Failed)
    requires Keyed(q.tasks, q.retries, q.status) && id in q.tasks
    ensures RetryCounted(q, q', id)
  {
  }

  lemma RetriedKeeps(cfg: Config, q: QState, q': QState, held: TaskId, at: real, id: TaskId)
    requires Retried(cfg, q, q', held, at) && q.Is(held, Processing)
    requires Keyed(q.tasks, q.retries, q.status) && id in q.tasks
    ensures RetryCounted(q, q', id)
  {
  }

  ghost predicate RankFell(q: QState, q': QState, id: TaskId) {
    && id in Ranks(q) && id in Ranks(q') && id in q.status && id in q'.status
    && Ranks(q')[id] <= Ranks(q)[id]
    && (q'.status[id] != q.status[id] ==> Ranks(q')[id] < Ranks(q)[id])
  }

  lemma StepRank(cfg: Config, s: Sys, e: Effect, t: Sys, id: TaskId)
    requires SInv(s) && Effective(cfg, s, e, t) && !e.Admitting? && id in s.q.tasks && t.q.tasks == s.q.tasks
    ensures RankFell(s.q, t.q, id)
  {
    hide SInv, Effective;
    RetriesMove(cfg, s, e, t, id);
    StatusMoves(cfg, s, e, t, id);
    RankFalls(s.q, t.q, id);
  }

  lemma WorkFallsBy(q: QState, q': QState)
    requires Keyed(q.tasks, q.retries, q.status) && Keyed(q'.tasks, q'.retries, q'.status) && q'.tasks == q.tasks
    requires forall id | id in q.tasks :: RankFell(q, q', id)
    ensures Work(q') <= Work(q) && (q'.status != q.status ==> Work(q') < Work(q))
  {
    SumMonotone(q.tasks.Keys, Ranks(q'), Ranks(q));
    if q'.status != q.status {
      var id :| id in q.status && q'.status[id] != q.status[id];
      assert RankFell(q, q', id);
    }
  }

  /** Without new tasks, a step never adds work, and takes some away whenever it changes a status. */
  lemma WorkFalls(cfg: Config, s: Sys, step: Step)
    requires TInv(cfg, s) && Enabled(s, step) && !Admits(cfg, s, step)
    ensures TInv(cfg, Next(cfg, s, step))
    ensures Keyed(s.q.tasks, s.q.retries, s.q.status)
    ensures var q' := Next(cfg, s, step).q;
            && Keyed(q'.tasks, q'.retries, q'.status)
            && Work(q') <= Work(s.q) && (q'.status != s.q.status ==> Work(q') < Work(s.q))
  {
    hide TInv, SInv, Next, Effective, HeldAgrees, Work, Keyed, QInv, RankFell;
    StepInv(cfg, s, step);
    var t := Next(cfg, s, step);
    TInvParts(cfg, s);
    TInvParts(cfg, t);
    SInvKeys(s);
    SInvKeys(t);
    var e := EffectOf(cfg, s, step);
    NoAdmission(cfg, s, step, e, t);
    forall id | id in s.q.tasks
      ensures RankFell(s.q, t.q, id)
    {
      StepRank(cfg, s, e, t, id);
    }
    WorkFallsBy(s.q, t.q);
  }

  lemma NoAdmission(cfg: Config, s: Sys, step: Step, e: Effect, t: Sys)
    requires Enabled(s, step) && !Admits(cfg, s, step) && t == Next(cfg, s, step) && Effective(cfg, s, e, t)
    requires s.initial.Keys == s.q.tasks.Keys
    ensures !e.Admitting? && t.q.tasks == s.q.tasks
  {
    assert t.initial == s.initial;
    hide MaySearch, Lists, Eligible, NextQueue;
  }

  /** The number of steps of a run that change some status. */
  ghost function StatusChanges(cfg: Config, s: Sys, run: seq<Step>, t: Sys): nat
    requires Runs(cfg, s, run, t)
    decreases |run|
  {
    if run == [] then 0
    else
      var next := Next(cfg, s, run[0]);
      (if next.q.status != s.q.status then 1 else 0) + StatusChanges(cfg, next, run[1..], t)
  }

  ghost predicate NoAdmissions(cfg: Config, s: Sys, run: seq<Step>, t: Sys)
    requires Runs(cfg, s, run, t)
    decreases |run|
  {
    run == [] || (!Admits(cfg, s, run[0]) && NoAdmissions(cfg, Next(cfg, s, run[0]), run[1..], t))
  }

  /** Once nothing is enqueued any more, every run changes statuses at most as often as the work left says. */
  lemma {:induction false} WorkRunsOut(cfg: Config, s: Sys, run: seq<Step>, t: Sys)
    requires TInv(cfg, s) && Runs(cfg, s, run, t) && NoAdmissions(cfg, s, run, t)
    ensures Keyed(s.q.tasks, s.q.retries, s.q.status) && Keyed(t.q.tasks, t.q.retries, t.q.status)
    ensures StatusChanges(cfg, s, run, t) + Work(t.q) <= Work(s.q)
    decreases |run|
  {
    hide TInv, Next, Enabled, Work;
    if run == [] {
      TInvParts(cfg, s);
      SInvKeys(s);
    } else {
      WorkFalls(cfg, s, run[0]);
      WorkRunsOut(cfg, Next(cfg, s, run[0]), run[1..], t);
    }
  }

  // ----- Sizes -----

  function HavingAny(status: StatusMap, sts: set<TaskStatus>): set<TaskId> {
    set id | id in status && status[id] in sts
  }

  lemma HavingOneMore(status: StatusMap, sts: set<TaskStatus>, st: TaskStatus)
    requires st !in sts
    ensures |HavingAny(status, sts + {st})| == |HavingAny(status, sts)| + |Having(status, st)|
  {
    assert HavingAny(status, sts + {st}) == HavingAny(status, sts) + Having(status, st);
  }

  lemma Partition(status: StatusMap)
    ensures |status| == |Having(status, Pending)| + |Having(status, Processing)| + |Having(status, Completed)|
                        + |Having(status, Failed)| + |Having(status, Cancelled)| + |Having(status, Expired)|
  {
    assert HavingAny(status, {}) == {};
    var all := {} + {Pending} + {Processing} + {Completed} + {Failed} + {Cancelled} + {Expired};
    forall id | id in status
      ensures status[id] in all
    {
      match status[id]
      case Pending | Processing | Completed | Failed | Cancelled | Expired =>
    }
    assert HavingAny(status, all) == status.Keys;
    hide HavingAny, Having;
    HavingOneMore(status, {}, Pending);
    HavingOneMore(status, {} + {Pending}, Processing);
    HavingOneMore(status, {} + {Pending} + {Processing}, Completed);
    HavingOneMore(status, {} + {Pending} + {Processing} + {Completed}, Failed);
    HavingOneMore(status, {} + {Pending} + {Processing} + {Completed} + {Failed}, Cancelled);
    HavingOneMore(status, {} + {Pending} + {Processing} + {Completed} + {Failed} + {Cancelled}, Expired);
    assert |status| == |status.Keys|;
  }

  /** Every enqueued task has exactly one of the six statuses. */
  lemma StatusesAddUp(q: QState)
    requires QInv(q)
    ensures q.enqueuedCount == |Having(q.status, Pending)| + |Having(q.status, Processing)| + |Having(q.status, Completed)|
                               + |Having(q.status, Failed)| + |Having(q.status, Cancelled)| + |Having(q.status, Expired)|
    ensures q.completedCount == |Having(q.status, Completed)| && q.failedCount == |Having(q.status, Failed)|
  {
    assert q.status.Keys == q.tasks.Keys;
    hide HeapAgrees, TenantsAgree, AgentsAgree, ResultsAgree, Having;
    assert |q.status| == |q.status.Keys| == |q.tasks.Keys| == |q.tasks|;
    Partition(q.status);
  }

  function PendingOfTenants(q: QState, tenants: set<string>): set<TaskId> {
    set id | id in q.tasks && q.Is(id, Pending) && q.tasks[id].tenantId in tenants
  }

  /** The sizes of some tenants, added up. */
  function SizeSum(q: QState, tenants: seq<string>): nat {
    if tenants == [] then 0 else SizeSum(q, tenants[..|tenants| - 1]) + |PendingOf(q, Some(tenants[|tenants| - 1]))|
  }

  function SetOf(tenants: seq<string>): set<string> {
    set t | t in tenants
  }

  lemma {:induction false} TenantSizes(q: QState, tenants: seq<string>)
    requires QInv(q) && "" !in tenants
    requires forall i, j | 0 <= i < j < |tenants| :: tenants[i] != tenants[j]
    ensures SizeSum(q, tenants) == |PendingOfTenants(q, SetOf(tenants))|
  {
    hide QInv, PendingOf;
    if tenants == [] {
      assert PendingOfTenants(q, SetOf(tenants)) == {};
    } else {
      var n := |tenants| - 1;
      var init, last := tenants[..n], tenants[n];
      assert tenants == init + [last];
      assert last in tenants;
      TenantSizes(q, init);
      TenantPending(q, last);
      PendingSplit(q, SetOf(init), last);
      assert SetOf(tenants) == SetOf(init) + {last} && last !in SetOf(init);
    }
  }

  lemma PendingSplit(q: QState, tenants: set<string>, t: string)
    requires t !in tenants
    ensures |PendingOfTenants(q, tenants + {t})| == |PendingOfTenants(q, tenants)| + |PendingOfTenants(q, {t})|
  {
    assert PendingOfTenants(q, tenants + {t}) == PendingOfTenants(q, tenants) + PendingOfTenants(q, {t});
  }

  lemma TenantPending(q: QState, t: string)
    requires QInv(q) && t != ""
    ensures PendingOf(q, Some(t)) == PendingOfTenants(q, {t})
  {
    assert At(q.byTenant, t) == LiveOfTenant(q.tasks, q.status, t);
    hide QInv;
  }

  lemma AllPending(q: QState, named: set<string>)
    requires QInv(q)
    requires forall id | id in q.tasks && q.tasks[id].tenantId != "" :: q.tasks[id].tenantId in named
    ensures PendingOf(q, None) == PendingOf(q, Some("")) == PendingOfTenants(q, named + {""})
  {
    assert Keyed(q.tasks, q.retries, q.status);
    hide QInv;
  }

  /**
   The sizes of all named tenants add up to the total size, less the pending tasks of the empty
   tenant name, which `size` cannot ask for: there the name means no filter.
   */
  lemma SizesAddUp(q: QState, tenants: seq<string>)
    requires QInv(q) && "" !in tenants
    requires forall i, j | 0 <= i < j < |tenants| :: tenants[i] != tenants[j]
    requires forall id | id in q.tasks && q.tasks[id].tenantId != "" :: q.tasks[id].tenantId in tenants
    ensures SizeSum(q, tenants) + |PendingOfTenants(q, {""})| == |PendingOf(q, None)| == |PendingOf(q, Some(""))|
    ensures SizeSum(q, tenants) == |PendingOf(q, None)| <==>
              forall id | id in q.tasks && q.Is(id, Pending) :: q.tasks[id].tenantId != ""
  {
    hide QInv, PendingOf, SizeSum;
    TenantSizes(q, tenants);
    AllPending(q, SetOf(tenants));
    PendingSplit(q, SetOf(tenants), "");
    assert forall id :: id in PendingOfTenants(q, {""}) <==> id in q.tasks && q.Is(id, Pending) && q.tasks[id].tenantId == "";
  }
}
