/** The main results about the queue and its workers, for every run from the empty queue. */
module QueueTheorems {
  import opened Prelude
  import opened Ports
  import opened PriorityHeap
  import opened QueueSpec
  import opened QueueInvariants
  import opened QueueClaims
  import opened QueueSystem
  import opened QueueHistory

  /** A state that some run reaches. */
  ghost predicate Reachable(cfg: Config, s: Sys) {
    exists run :: Runs(cfg, START, run, s)
  }

  lemma ReachableInv(cfg: Config, s: Sys)
    requires Reachable(cfg, s)
    ensures TInv(cfg, s)
  {
    hide TInv;
    var run :| Runs(cfg, START, run, s);
    StartInv(cfg);
    RunInv(cfg, START, run, s);
  }

  // ----- Ownership -----

  /** Tasks held by workers are pairwise distinct and are exactly the processing tasks, none of which has a heap item. */
  lemma HeldExactly(cfg: Config, s: Sys)
    requires Reachable(cfg, s)
    ensures forall v, w | v in s.held && w in s.held && v != w :: s.held[v] != s.held[w]
    ensures forall id: TaskId :: s.q.Is(id, Processing) <==> exists w :: w in s.held && s.held[w] == id
    ensures forall item | item in s.q.heap :: !s.q.Is(item.task.taskId, Processing)
  {
    hide TInv, Reachable, QInv;
    ReachableInv(cfg, s);
    TInvParts(cfg, s);
    assert forall id: TaskId :: HeldBy(s.held, id) <==> s.q.Is(id, Processing);
    forall item | item in s.q.heap
      ensures !s.q.Is(item.task.taskId, Processing)
    {
      OwnHeapItem(s.q, item);
    }
  }

  /** No step of anyone else touches a task that a worker holds. */
  lemma HeldUntouched(cfg: Config, s: Sys, step: Step, w: WorkerId)
    requires Reachable(cfg, s) && Enabled(s, step) && w in s.held
    requires step.action.DoComplete? || step.action.DoFail? ==> step.action.worker != w
    ensures var (t, id) := (Next(cfg, s, step), s.held[w]);
            && w in t.held && t.held[w] == id && s.q.Is(id, Processing) && t.q.Is(id, Processing)
            && id in s.q.tasks && id in t.q.tasks && t.q.tasks[id] == s.q.tasks[id]
            && SameRetries(s, t, id)
  {
    var t := Next(cfg, s, step);
    hide TInv, SInv, Reachable, HeldAgrees, QInv, Effective;
    ReachableInv(cfg, s);
    TInvParts(cfg, s);
    HolderOf(s, w);
    StepInv(cfg, s, step);
    TInvParts(cfg, t);
    HeldStays(cfg, s, step, w);
    HolderOf(t, w);
    var e := EffectOf(cfg, s, step);
    EffectExtends(cfg, s, e, t);
    RetriesSteady(cfg, s, e, t, w);
  }

  lemma HeldStays(cfg: Config, s: Sys, step: Step, w: WorkerId)
    requires Enabled(s, step) && w in s.held
    requires step.action.DoComplete? || step.action.DoFail? ==> step.action.worker != w
    ensures w in NextHeld(s, step) && NextHeld(s, step)[w] == s.held[w]
    ensures Next(cfg, s, step).held == NextHeld(s, step)
  {
    hide MaySearch, Lists;
  }

  lemma TInvParts(cfg: Config, s: Sys)
    requires TInv(cfg, s)
    ensures SInv(s) && QInv(s.q) && HeldAgrees(s.held, s.q.status)
    ensures s.initial.Keys == s.enqueuedAt.Keys == s.q.tasks.Keys == s.q.retries.Keys == s.q.status.Keys
  {
    SInvKeys(s);
  }

  lemma RetriesSteady(cfg: Config, s: Sys, e: Effect, t: Sys, w: WorkerId)
    requires SInv(s) && Effective(cfg, s, e, t) && w in s.held && w in t.held
    requires s.held[w] in s.q.retries && s.held[w] in s.q.tasks
    ensures SameRetries(s, t, s.held[w])
  {
    hide QInv, HistoryAgrees, ItemFor, Eligible;
  }

  // ----- Statuses -----

  /** The moves of a task's status that a step may make. */
  predicate Allowed(a: TaskStatus, b: TaskStatus) {
    || a == b
    || (a == Pending && (b == Processing || b == Cancelled || b == Expired))
    || (a == Processing && (b == Pending || b == Completed || b == Failed))
    || (a == Cancelled && b == Expired)
  }

  lemma StatusMoves(cfg: Config, s: Sys, e: Effect, t: Sys, id: TaskId)
    requires SInv(s) && Effective(cfg, s, e, t) && id in s.q.status
    ensures id in t.q.status && Allowed(s.q.status[id], t.q.status[id])
  {
    hide QInv, HeldAgrees, HistoryAgrees, Allowed, Took, Quiet, Retried, Finished, Admitted;
    SInvKeys(s);
    match e
    case Admitting(task, retryCount) => AdmittedAllowed(s, task, retryCount, t, id);
    case Retiring => QuietAllowed(s.q, t.q, id);
    case Claiming(_, mid, item, tenant) => TookAllowed(s.q, mid, item, tenant, t.now, t.q, id);
    case Finishing(w, st) => HolderOf(s, w); FinishedAllowed(s.q, t.q, s.held[w], st, id);
    case Retrying(w) => HolderOf(s, w); RetriedAllowed(cfg, s.q, t.q, s.held[w], t.now, id);
  }

  lemma AdmittedAllowed(s: Sys, task: Task, retryCount: int, t: Sys, id: TaskId)
    requires Keyed(s.q.tasks, s.q.retries, s.q.status) && task.taskId !in s.q.tasks && id in s.q.status
    requires Admitted(s.q, t.q, task, retryCount, t.now)
    ensures id in t.q.status && Allowed(s.q.status[id], t.q.status[id])
  {
  }

  lemma QuietAllowed(q: QState, q': QState, id: TaskId)
    requires Quiet(q, q') && id in q.status
    ensures id in q'.status && Allowed(q.status[id], q'.status[id])
  {
  }

  lemma TookAllowed(q: QState, mid: QState, item: PriorityItem, tenant: Option<string>, at: real, q': QState, id: TaskId)
    requires Took(q, mid, item, tenant, at, q') && id in q.status
    ensures id in q'.status && Allowed(q.status[id], q'.status[id])
  {
    hide Quiet, TenantMatches;
    QuietAllowed(q, mid, id);
  }

  lemma FinishedAllowed(q: QState, q': QState, held: TaskId, st: TaskStatus, id: TaskId)
    requires Finished(q, q', held, st) && q.Is(held, Processing) && (st == Completed || st == Failed) && id in q.status
    ensures id in q'.status && Allowed(q.status[id], q'.status[id])
  {
  }

  lemma RetriedAllowed(cfg: Config, q: QState, q': QState, held: TaskId, at: real, id: TaskId)
    requires Retried(cfg, q, q', held, at) && q.Is(held, Processing) && id in q.status
    ensures id in q'.status && Allowed(q.status[id], q'.status[id])
  {
  }

  /** What a task's status may have become after any number of steps. */
  predicate Onward(a: TaskStatus, b: TaskStatus) {
    Terminal(a) ==> b == a || (a == Cancelled && b == Expired)
  }

  /** Completed, failed and expired are final for good; a cancelled task can at most become expired. */
  lemma {:induction false} FinalStaysFinal(cfg: Config, s: Sys, run: seq<Step>, t: Sys, id: TaskId)
    requires Reachable(cfg, s) && Runs(cfg, s, run, t) && id in s.q.status
    ensures id in t.q.status && Onward(s.q.status[id], t.q.status[id])
  {
    hide TInv, Reachable, Runs;
    ReachableInv(cfg, s);
    FinalFrom(cfg, s, run, t, id);
  }

  lemma {:induction false} FinalFrom(cfg: Config, s: Sys, run: seq<Step>, t: Sys, id: TaskId)
    requires TInv(cfg, s) && Runs(cfg, s, run, t) && id in s.q.status
    ensures id in t.q.status && Onward(s.q.status[id], t.q.status[id])
    decreases |run|
  {
    hide TInv, Next, Enabled;
    if run != [] {
      StepInv(cfg, s, run[0]);
      StepStatus(cfg, s, run[0], id);
      FinalFrom(cfg, Next(cfg, s, run[0]), run[1..], t, id);
    }
  }

  lemma StepStatus(cfg: Config, s: Sys, step: Step, id: TaskId)
    requires TInv(cfg, s) && Enabled(s, step) && id in s.q.status
    ensures id in Next(cfg, s, step).q.status && Allowed(s.q.status[id], Next(cfg, s, step).q.status[id])
  {
    hide TInv, SInv, QInv, HeldAgrees, Next, Effective, Enabled;
    TInvParts(cfg, s);
    var e := EffectOf(cfg, s, step);
    StatusMoves(cfg, s, e, Next(cfg, s, step), id);
  }

  /** Exactly one heap item for a pending task, none for a started one, at most one otherwise. */
  lemma ItemsByStatus(cfg: Config, s: Sys, id: TaskId)
    requires Reachable(cfg, s) && id in s.q.status
    ensures s.q.status[id] == Pending ==> HasItem(s.q.heap, id)
    ensures Started(s.q.status[id]) ==> !HasItem(s.q.heap, id)
    ensures forall a, b | a in s.q.heap && b in s.q.heap && a.task.taskId == id && b.task.taskId == id :: a == b && s.q.heap[a] == 1
  {
    hide TInv, Reachable;
    ReachableInv(cfg, s);
    TInvParts(cfg, s);
    hide SInv, QInv, OwnItem, HeldAgrees, HistoryAgrees;
    ItemsAgree(s.q, id);
  }

  lemma ItemsAgree(q: QState, id: TaskId)
    requires QInv(q) && id in q.status
    ensures q.status[id] == Pending ==> HasItem(q.heap, id)
    ensures Started(q.status[id]) ==> !HasItem(q.heap, id)
    ensures forall a, b | a in q.heap && b in q.heap && a.task.taskId == id && b.task.taskId == id :: a == b && q.heap[a] == 1
  {
    hide QInv;
    HeapParts(q);
    forall a, b | a in q.heap && b in q.heap && a.task.taskId == id && b.task.taskId == id
      ensures a == b && q.heap[a] == 1
    {
      OwnHeapItem(q, a);
    }
    if HasItem(q.heap, id) {
      var item :| item in q.heap && item.task.taskId == id;
      OwnHeapItem(q, item);
    }
  }

  lemma HeapParts(q: QState)
    requires QInv(q)
    ensures forall a, b | a in q.heap && b in q.heap && a.task.taskId == b.task.taskId :: a == b
    ensures forall id | id in q.status && q.status[id] == Pending :: HasItem(q.heap, id)
  {
  }

  /** In every reachable state a task has a result exactly when its status is final, and the result says that status. */
  lemma ResultIffFinal(cfg: Config, s: Sys, id: TaskId)
    requires Reachable(cfg, s)
    ensures id in s.q.results <==> id in s.q.status && Terminal(s.q.status[id])
    ensures id in s.q.results ==> s.q.results[id].taskId == id && s.q.results[id].status == s.q.status[id]
  {
    hide TInv, Reachable;
    ReachableInv(cfg, s);
    TInvParts(cfg, s);
    ResultsOf(s.q);
  }

  lemma ResultsOf(q: QState)
    requires QInv(q)
    ensures ResultsAgree(q.results, q.status)
  {
  }

  /** One task for any tenant, with a second to live. */
  const SHORT := Task(0, "t", None, Normal, 0.0, 1, 0)

  /**
   A cancelled task is not final: cancelled at once, it becomes expired when somebody else's search
   meets its left-over heap item two seconds later.
   */
  lemma CancelledCanExpire(cfg: Config) returns (run: seq<Step>, s: Sys, step: Step)
    requires cfg.maxSize > 0
    ensures Runs(cfg, START, run, s) && s.q.Is(0, Cancelled)
    ensures Enabled(s, step) && step.action.DoDequeue? && Next(cfg, s, step).q.Is(0, Expired)
  {
    var add, drop := Step(DoEnqueue(SHORT, 0, 0.0), 0.0), Step(DoCancel(0), 0.0);
    run := [add, drop];
    var s1 := Next(cfg, START, add);
    s := Next(cfg, s1, drop);
    assert run[1..] == [drop] && run[1..][1..] == [];
    assert Runs(cfg, s, run[1..][1..], s);
    assert Runs(cfg, s1, run[1..], s);
    var item := ItemFor(SHORT, 0.0);
    assert s.q.heap == multiset{item};
    step := Step(DoDequeue(7, None, [item], None), 2.0);
    LeastOne(item);
    assert [item][..0] == [];
    assert Sweep(s.q, [], None, 2.0) == s.q;
    assert Look(s.q, item, None, 2.0) == Expire;
  }

  lemma LeastOne(item: PriorityItem)
    ensures Least(multiset{item}, [item])
  {
    assert [item][..0] == [];
  }

  /** As old and as urgent as `SHORT`, but with longer to live. */
  const LONG := Task(1, "t", None, Normal, 0.0, 300, 0)

  /**
   On a tie neither outcome is certain: with both tasks enqueued and the short one cancelled, a search two seconds
   later that claims the long one may or may not meet the other item first.
   */
  lemma TieLeavesBothOpen(cfg: Config) returns (run: seq<Step>, s: Sys, meets: Step, passes: Step)
    requires cfg.maxSize > 1
    ensures Runs(cfg, START, run, s) && s.q.Is(0, Cancelled)
    ensures Enabled(s, meets) && Enabled(s, passes)
    ensures meets == Step(DoDequeue(7, None, [ItemFor(SHORT, 0.0)], Some(ItemFor(LONG, 0.0))), 2.0)
    ensures passes == Step(DoDequeue(7, None, [], Some(ItemFor(LONG, 0.0))), 2.0)
    ensures Next(cfg, s, meets).q.Is(0, Expired) && Next(cfg, s, passes).q.Is(0, Cancelled)
  {
    hide MarkExpired;
    run, s := TieRun(cfg);
    var x, e := ItemFor(SHORT, 0.0), ItemFor(LONG, 0.0);
    meets, passes := Step(DoDequeue(7, None, [x], Some(e)), 2.0), Step(DoDequeue(7, None, [], Some(e)), 2.0);
    TieMet(s.q, x, e);
    TiePassed(s.q, x, e);
  }

  lemma TieRun(cfg: Config) returns (run: seq<Step>, s: Sys)
    requires cfg.maxSize > 1
    ensures Runs(cfg, START, run, s) && s.held == map[] && s.now == 0.0 && !s.q.closed
    ensures s.q.heap == multiset{ItemFor(SHORT, 0.0), ItemFor(LONG, 0.0)}
    ensures s.q.tasks == map[0 := SHORT, 1 := LONG] && s.q.status == map[0 := Cancelled, 1 := Pending]
  {
    var first, second := Step(DoEnqueue(SHORT, 0, 0.0), 0.0), Step(DoEnqueue(LONG, 0, 0.0), 0.0);
    var drop := Step(DoCancel(0), 0.0);
    run := [first, second, drop];
    var s1 := Next(cfg, START, first);
    var s2 := Next(cfg, s1, second);
    assert s2.q.heap == multiset{ItemFor(SHORT, 0.0), ItemFor(LONG, 0.0)};
    s := Next(cfg, s2, drop);
    assert run[1..] == [second, drop] && run[1..][1..] == [drop] && run[1..][1..][1..] == [];
    assert Runs(cfg, s, run[1..][1..][1..], s);
    assert Runs(cfg, s2, run[1..][1..], s);
    assert Runs(cfg, s1, run[1..], s);
  }

  ghost predicate Tied(q: QState, x: PriorityItem, e: PriorityItem) {
    && x == ItemFor(SHORT, 0.0) && e == ItemFor(LONG, 0.0) && q.heap == multiset{x, e}
    && q.tasks == map[0 := SHORT, 1 := LONG] && q.status == map[0 := Cancelled, 1 := Pending]
  }

  lemma TieMet(q: QState, x: PriorityItem, e: PriorityItem)
    requires Tied(q, x, e)
    ensures var q' := AfterSearch(q, [x], Some(e), None, 2.0);
            Found(q, [x], Some(e), None, 2.0, q') && q'.Is(0, Expired)
  {
    assert Look(q, x, None, 2.0) == Expire;
    SweepSingle(q, x, None, 2.0);
    TiedLeast(q.heap, [x, e]);
    assert [x] + [e] == [x, e];
    hide Sweep, NoneClaimed, Least;
    var s := Sweep(q, [x], None, 2.0);
    assert Look(s, e, None, 2.0) == Claim;
  }

  lemma SweepSingle(q: QState, x: PriorityItem, tenant: Option<string>, now: real)
    requires Look(q, x, tenant, now) == Expire
    ensures var s := Sweep(q, [x], tenant, now);
            s.tasks == q.tasks && s.status == q.status[x.task.taskId := Expired] && s.heap == q.heap - multiset{x}
    ensures NoneClaimed(q, [x], tenant, now)
  {
    hide MarkExpired, Look;
    MarkShape(q, x.task.taskId);
    assert [x][..0] == [] && Sweep(q, [], tenant, now) == q;
  }

  lemma TiePassed(q: QState, x: PriorityItem, e: PriorityItem)
    requires Tied(q, x, e)
    ensures var q' := AfterSearch(q, [], Some(e), None, 2.0);
            Found(q, [], Some(e), None, 2.0, q') && q'.Is(0, Cancelled)
  {
    TiedLeast(q.heap, [e]);
    assert [] + [e] == [e];
  }

  lemma TiedLeast(heap: multiset<PriorityItem>, met: seq<PriorityItem>)
    requires multiset(met) <= heap && forall a, b | a in heap && b in heap :: !Less(a, b)
    ensures Least(heap, met)
  {
    forall i, x | 0 <= i < |met| && x in heap - multiset(met[..i])
      ensures !Less(x, met[i])
    {
      assert met[i] in multiset(met);
    }
  }
}
