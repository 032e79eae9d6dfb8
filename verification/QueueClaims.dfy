/** What one search of the queue returns and leaves behind, in closed form. */
module QueueClaims {
  import opened Prelude
  import opened Ports
  import opened PriorityHeap
  import opened QueueSpec
  import opened QueueInvariants

  /** A heap item that may be claimed: visible, unexpired, of the tenant asked for, and still pending. */
  ghost predicate Eligible(q: QState, item: PriorityItem, tenant: Option<string>, now: real) {
    && item in q.heap && item.visibleAt <= now && !item.task.IsExpired(now)
    && TenantMatches(tenant, item.task) && q.Is(item.task.taskId, Pending)
  }

  predicate Overripe(item: PriorityItem, now: real) {
    item.visibleAt <= now && item.task.IsExpired(now)
  }

  /** The sweep met a visible, expired item of this task. */
  ghost predicate MetExpired(popped: seq<PriorityItem>, id: TaskId, now: real) {
    exists item :: item in popped && item.task.taskId == id && Overripe(item, now)
  }

  // ----- Sweeping -----

  lemma MeetShape(q: QState, item: PriorityItem, tenant: Option<string>, now: real)
    ensures
      var q', v := Meet(q, item, tenant, now), Look(q, item, tenant, now);
      && q'.tasks == q.tasks
      && q'.heap == (if v == PutBack || v == Claim then q.heap else q.heap - multiset{item})
      && q'.status == (if v == Expire then q.status[item.task.taskId := Expired] else q.status)
  {
    hide Look, MarkExpired;
    if Look(q, item, tenant, now) == Expire {
      MarkShape(q, item.task.taskId);
    }
  }

  lemma LookDepends(q: QState, s: QState, item: PriorityItem, tenant: Option<string>, now: real)
    requires q.tasks == s.tasks && q.Is(item.task.taskId, Pending) == s.Is(item.task.taskId, Pending)
    ensures Look(q, item, tenant, now) == Look(s, item, tenant, now)
  {
  }

  lemma LeastSplit(heap: multiset<PriorityItem>, popped: seq<PriorityItem>)
    requires popped != [] && Least(heap, popped)
    ensures
      var init, item := popped[..|popped| - 1], popped[|popped| - 1];
      Least(heap, init) && item in heap - multiset(init) && heap - multiset(popped) == heap - multiset(init) - multiset{item}
  {
    hide Less;
    var n := |popped| - 1;
    assert popped == popped[..n] + [popped[n]];
    assert multiset(popped) == multiset(popped[..n]) + multiset{popped[n]};
    assert forall i | 0 <= i <= n :: popped[..n][..i] == popped[..i];
  }

  lemma SweepSplit(q: QState, popped: seq<PriorityItem>, tenant: Option<string>, now: real)
    requires popped != [] && Least(q.heap, popped) && NoneClaimed(q, popped, tenant, now)
    ensures
      var init, item := popped[..|popped| - 1], popped[|popped| - 1];
      && Least(q.heap, init) && NoneClaimed(q, init, tenant, now)
      && Look(Sweep(q, init, tenant, now), item, tenant, now) != Claim
      && item in q.heap - multiset(init)
      && q.heap - multiset(popped) == q.heap - multiset(init) - multiset{item}
  {
    hide Look, Least;
    LeastSplit(q.heap, popped);
    var n := |popped| - 1;
    assert forall i | 0 <= i <= n :: popped[..n][..i] == popped[..i];
  }

  lemma FadesTransitive(p: QState, q: QState, r: QState)
    requires Fades(p, q) && Fades(q, r)
    ensures Fades(p, r)
  {
  }

  lemma MeetKeeps(q: QState, item: PriorityItem, rest: multiset<PriorityItem>, tenant: Option<string>, now: real)
    requires QInv(q) && rest <= q.heap && item in rest && Look(q, item, tenant, now) != Claim
    ensures QInv(Meet(q, item, tenant, now)) && Fades(q, Meet(q, item, tenant, now))
    ensures rest - multiset{item} <= Meet(q, item, tenant, now).heap
  {
    hide QInv, OwnItem, Fades, Look, Meet;
    OwnHeapItem(q, item);
    MeetInv(q, item, tenant, now);
    MeetFades(q, item, tenant, now);
    MeetShape(q, item, tenant, now);
  }

  /** A sweep keeps the invariant, only fades tasks, and leaves the items it did not meet in the heap. */
  lemma {:induction false} SweepInv(q: QState, popped: seq<PriorityItem>, tenant: Option<string>, now: real)
    requires QInv(q) && Least(q.heap, popped) && NoneClaimed(q, popped, tenant, now)
    ensures QInv(Sweep(q, popped, tenant, now))
    ensures Fades(q, Sweep(q, popped, tenant, now))
    ensures q.heap - multiset(popped) <= Sweep(q, popped, tenant, now).heap
  {
    hide QInv, Least, NoneClaimed, Meet, Look;
    if popped != [] {
      var n := |popped| - 1;
      var init, item := popped[..n], popped[n];
      SweepSplit(q, popped, tenant, now);
      SweepInv(q, init, tenant, now);
      MeetKeeps(Sweep(q, init, tenant, now), item, q.heap - multiset(init), tenant, now);
      FadesTransitive(q, Sweep(q, init, tenant, now), Sweep(q, popped, tenant, now));
    }
  }

  lemma MeetStatus(q: QState, item: PriorityItem, tenant: Option<string>, now: real, id: TaskId)
    requires QInv(q) && item in q.heap && id in q.status && Look(q, item, tenant, now) != Claim
    ensures id in Meet(q, item, tenant, now).status
    ensures Meet(q, item, tenant, now).status[id] ==
            if id == item.task.taskId && Overripe(item, now) then Expired else q.status[id]
  {
    assert OwnItem(q.heap, q.tasks, q.status, item);
    hide QInv, Meet;
    MeetShape(q, item, tenant, now);
  }

  /** After a sweep a task is expired exactly when it was, or when a visible, expired item of it was met. */
  lemma {:induction false} SweptStatus(q: QState, popped: seq<PriorityItem>, tenant: Option<string>, now: real, id: TaskId)
    requires QInv(q) && Least(q.heap, popped) && NoneClaimed(q, popped, tenant, now) && id in q.status
    ensures id in Sweep(q, popped, tenant, now).status
    ensures Sweep(q, popped, tenant, now).status[id] == if MetExpired(popped, id, now) then Expired else q.status[id]
  {
    hide QInv, Least, NoneClaimed, Meet, Look, Overripe, Fades;
    if popped != [] {
      var n := |popped| - 1;
      var init, item := popped[..n], popped[n];
      SweepSplit(q, popped, tenant, now);
      SweepInv(q, init, tenant, now);
      SweptStatus(q, init, tenant, now, id);
      MeetStatus(Sweep(q, init, tenant, now), item, tenant, now, id);
      assert popped == init + [item];
    }
  }

  /** No other item of an unmet item's task was met. */
  lemma UnmetTask(q: QState, popped: seq<PriorityItem>, item: PriorityItem)
    requires QInv(q) && multiset(popped) <= q.heap && item in q.heap - multiset(popped)
    ensures item !in popped && forall x | x in popped :: x.task.taskId != item.task.taskId
  {
    assert OwnItem(q.heap, q.tasks, q.status, item);
    assert multiset(popped)[item] == 0;
    assert forall x | x in popped :: x in multiset(popped) && x in q.heap;
  }

  /** An item not met yet looks the same before and after a sweep. */
  lemma UnmetLooksSame(q: QState, popped: seq<PriorityItem>, item: PriorityItem, tenant: Option<string>, now: real)
    requires QInv(q) && Least(q.heap, popped) && NoneClaimed(q, popped, tenant, now)
    requires item in q.heap - multiset(popped)
    ensures Look(Sweep(q, popped, tenant, now), item, tenant, now) == Look(q, item, tenant, now)
  {
    var id := item.task.taskId;
    assert OwnItem(q.heap, q.tasks, q.status, item);
    hide QInv, Least, NoneClaimed, Sweep, Look;
    LeastIn(q, popped);
    UnmetTask(q, popped, item);
    SweepInv(q, popped, tenant, now);
    SweptStatus(q, popped, tenant, now, id);
    assert !MetExpired(popped, id, now);
    LookDepends(q, Sweep(q, popped, tenant, now), item, tenant, now);
  }

  /** A met item would not have been claimed at the outset either; it stays just when it was put back. */
  lemma {:induction false} MetLooks(q: QState, popped: seq<PriorityItem>, tenant: Option<string>, now: real, item: PriorityItem)
    requires QInv(q) && Least(q.heap, popped) && NoneClaimed(q, popped, tenant, now) && item in popped
    ensures Look(q, item, tenant, now) != Claim
    ensures item in Sweep(q, popped, tenant, now).heap <==> Look(q, item, tenant, now) == PutBack
  {
    hide QInv, Least, NoneClaimed, Look, Fades, Meet;
    var n := |popped| - 1;
    var init, last := popped[..n], popped[n];
    assert popped == init + [last];
    SweepSplit(q, popped, tenant, now);
    SweepInv(q, init, tenant, now);
    UnmetLooksSame(q, init, last, tenant, now);
    LeastIn(q, init);
    UnmetTask(q, init, last);
    MeetItem(Sweep(q, init, tenant, now), last, tenant, now, item);
    if item in init {
      MetLooks(q, init, tenant, now, item);
    }
  }

  lemma LeastIn(q: QState, popped: seq<PriorityItem>)
    requires Least(q.heap, popped)
    ensures multiset(popped) <= q.heap
  {
  }

  lemma MeetItem(q: QState, last: PriorityItem, tenant: Option<string>, now: real, item: PriorityItem)
    requires QInv(q) && last in q.heap
    ensures item in Meet(q, last, tenant, now).heap <==>
              item in q.heap && (item == last ==> Look(q, last, tenant, now) == PutBack || Look(q, last, tenant, now) == Claim)
  {
    OwnHeapItem(q, last);
    MeetShape(q, last, tenant, now);
    hide QInv, Look, Meet;
    assert item in q.heap - multiset{last} <==> item in q.heap && item != last;
  }

  // ----- The search as a whole -----

  /** The search keeps every agreement between the structures of the queue. */
  lemma FoundInv(q: QState, popped: seq<PriorityItem>, claimed: Option<PriorityItem>,
                 tenant: Option<string>, now: real, q': QState)
    requires QInv(q) && Found(q, popped, claimed, tenant, now, q')
    ensures QInv(q')
    ensures claimed.Some? ==> Eligible(q, claimed.value, tenant, now) && claimed.value !in popped
  {
    FoundSplit(q, popped, claimed, tenant, now, q');
    SweepInv(q, popped, tenant, now);
    if claimed.Some? {
      var item := claimed.value;
      UnmetLooksSame(q, popped, item, tenant, now);
      ClaimInv(Sweep(q, popped, tenant, now), item, tenant, now);
      UnmetTask(q, popped, item);
    }
  }

  lemma FoundSplit(q: QState, popped: seq<PriorityItem>, claimed: Option<PriorityItem>,
                   tenant: Option<string>, now: real, q': QState)
    requires Found(q, popped, claimed, tenant, now, q')
    ensures Least(q.heap, popped) && NoneClaimed(q, popped, tenant, now)
    ensures claimed.Some? ==> claimed.value in q.heap - multiset(popped)
    ensures claimed.Some? ==> forall x | x in q.heap - multiset(popped) :: !Less(x, claimed.value)
  {
    if claimed.Some? {
      var met := popped + [claimed.value];
      assert met[..|popped|] == popped;
      assert forall i | 0 <= i <= |popped| :: met[..i] == popped[..i];
      assert multiset(met) == multiset(popped) + multiset{claimed.value};
    }
  }

  /**
   The claimed item is least, by priority and age, among all the items that could be claimed,
   and nothing is claimed only when there is no such item.
   */
  lemma ClaimIsLeast(q: QState, popped: seq<PriorityItem>, claimed: Option<PriorityItem>,
                     tenant: Option<string>, now: real, q': QState)
    requires QInv(q) && Found(q, popped, claimed, tenant, now, q')
    ensures claimed == None <==> !exists x :: Eligible(q, x, tenant, now)
    ensures claimed.Some? ==>
              && Eligible(q, claimed.value, tenant, now)
              && forall x | Eligible(q, x, tenant, now) :: !Less(x, claimed.value)
  {
    FoundInv(q, popped, claimed, tenant, now, q');
    FoundSplit(q, popped, claimed, tenant, now, q');
    forall x | Eligible(q, x, tenant, now)
      ensures claimed.Some? && x in q.heap - multiset(popped)
    {
      assert OwnItem(q.heap, q.tasks, q.status, x);
      if x in popped {
        MetLooks(q, popped, tenant, now, x);
        assert false;
      }
      assert x !in multiset(popped);
    }
  }

  /**
   Exactly which items are left: those not met, and those met and put back because they were
   not visible yet or belonged to another tenant.
   */
  lemma HeapAfterSearch(q: QState, popped: seq<PriorityItem>, claimed: Option<PriorityItem>,
                        tenant: Option<string>, now: real, q': QState, item: PriorityItem)
    requires QInv(q) && Found(q, popped, claimed, tenant, now, q')
    ensures q'.heap <= q.heap && (item in q'.heap ==> q'.heap[item] == 1)
    ensures item in q'.heap <==>
              && item in q.heap && claimed != Some(item)
              && (item in popped ==> Look(q, item, tenant, now) == PutBack)
  {
    hide QInv, Least, NoneClaimed, Look, Fades, Found, Sweep;
    FoundInv(q, popped, claimed, tenant, now, q');
    FoundSplit(q, popped, claimed, tenant, now, q');
    SweepInv(q, popped, tenant, now);
    SweptHeap(q, popped, tenant, now, item);
    FoundHeap(q, popped, claimed, tenant, now, q');
    Fading(q, Sweep(q, popped, tenant, now));
    if item in q'.heap {
      OwnHeapItem(q', item);
    }
    if claimed == Some(item) {
      OwnHeapItem(q, item);
      assert item !in q'.heap;
    }
  }

  lemma Fading(q: QState, q': QState)
    requires Fades(q, q')
    ensures q'.heap <= q.heap
  {
  }

  lemma SweptHeap(q: QState, popped: seq<PriorityItem>, tenant: Option<string>, now: real, item: PriorityItem)
    requires QInv(q) && Least(q.heap, popped) && NoneClaimed(q, popped, tenant, now)
    ensures item in Sweep(q, popped, tenant, now).heap <==>
              item in q.heap && (item in popped ==> Look(q, item, tenant, now) == PutBack)
  {
    hide QInv, NoneClaimed, Look, Least;
    SweepInv(q, popped, tenant, now);
    if item in popped {
      LeastIn(q, popped);
      assert item in multiset(popped);
      MetLooks(q, popped, tenant, now, item);
    } else {
      assert item !in multiset(popped);
    }
  }

  lemma FoundHeap(q: QState, popped: seq<PriorityItem>, claimed: Option<PriorityItem>,
                  tenant: Option<string>, now: real, q': QState)
    requires Found(q, popped, claimed, tenant, now, q')
    ensures q'.heap == Sweep(q, popped, tenant, now).heap - (if claimed.Some? then multiset{claimed.value} else multiset{})
  {
    hide Least, NoneClaimed, Sweep, Look;
  }

  /** The status of every task after the search. */
  lemma StatusAfterSearch(q: QState, popped: seq<PriorityItem>, claimed: Option<PriorityItem>,
                          tenant: Option<string>, now: real, q': QState, id: TaskId)
    requires QInv(q) && Found(q, popped, claimed, tenant, now, q') && id in q.status
    ensures id in q'.status
    ensures q'.status[id] == if claimed.Some? && claimed.value.task.taskId == id then Processing
                             else if MetExpired(popped, id, now) then Expired else q.status[id]
  {
    hide QInv, Least, NoneClaimed, Sweep, Look, MetExpired, Found;
    FoundSplit(q, popped, claimed, tenant, now, q');
    SweptStatus(q, popped, tenant, now, id);
    FoundStatus(q, popped, claimed, tenant, now, q');
  }

  lemma FoundStatus(q: QState, popped: seq<PriorityItem>, claimed: Option<PriorityItem>,
                    tenant: Option<string>, now: real, q': QState)
    requires Found(q, popped, claimed, tenant, now, q')
    ensures var status := Sweep(q, popped, tenant, now).status;
            q'.status == if claimed.Some? then status[claimed.value.task.taskId := Processing] else status
  {
    hide Least, NoneClaimed, Sweep, Look;
  }

  /**
   A cancelled task is not safe from a later search: it becomes expired exactly when the search meets its
   left-over item and finds that item visible and past its time to live. Seen from before the search: it stays
   cancelled if there is no such item; it becomes expired if the item comes before every item that could be
   claimed; it stays cancelled if some item that could be claimed comes before it. Only between items of equal
   priority and age does the layout of the heap decide.
   */
  lemma CancelledFate(q: QState, popped: seq<PriorityItem>, claimed: Option<PriorityItem>,
                      tenant: Option<string>, now: real, q': QState, id: TaskId)
    requires QInv(q) && Found(q, popped, claimed, tenant, now, q') && q.Is(id, Cancelled)
    ensures q'.Is(id, if MetExpired(popped, id, now) then Expired else Cancelled)
    ensures claimed.None? ==>
              (q'.Is(id, Expired) <==> exists item :: item in q.heap && item.task.taskId == id && Overripe(item, now))
    ensures (forall x | x in q.heap && x.task.taskId == id :: !Overripe(x, now)) ==> q'.Is(id, Cancelled)
    ensures forall x | x in q.heap && x.task.taskId == id && Overripe(x, now) ::
              && ((forall e | Eligible(q, e, tenant, now) :: Less(x, e)) ==> q'.Is(id, Expired))
              && ((exists e :: Eligible(q, e, tenant, now) && Less(e, x)) ==> q'.Is(id, Cancelled))
  {
    hide QInv, Found, Less, Eligible, Overripe;
    StatusAfterSearch(q, popped, claimed, tenant, now, q', id);
    ClaimedWasPending(q, popped, claimed, tenant, now, q');
    MetIsInHeap(q, popped, claimed, tenant, now, q');
    forall x | x in q.heap && x.task.taskId == id && Overripe(x, now)
      ensures (forall e | Eligible(q, e, tenant, now) :: Less(x, e)) ==> MetExpired(popped, id, now)
      ensures (exists e :: Eligible(q, e, tenant, now) && Less(e, x)) ==> !MetExpired(popped, id, now)
      ensures claimed.None? ==> MetExpired(popped, id, now)
    {
      OverripeFate(q, popped, claimed, tenant, now, q', x);
    }
  }

  lemma OverripeFate(q: QState, popped: seq<PriorityItem>, claimed: Option<PriorityItem>,
                     tenant: Option<string>, now: real, q': QState, x: PriorityItem)
    requires QInv(q) && Found(q, popped, claimed, tenant, now, q') && x in q.heap && Overripe(x, now)
    ensures (forall e | Eligible(q, e, tenant, now) :: Less(x, e)) ==> MetExpired(popped, x.task.taskId, now)
    ensures (exists e :: Eligible(q, e, tenant, now) && Less(e, x)) ==> !MetExpired(popped, x.task.taskId, now)
    ensures claimed.None? ==> MetExpired(popped, x.task.taskId, now)
  {
    hide QInv, Found, Less, Eligible, Overripe;
    ClaimIsLeast(q, popped, claimed, tenant, now, q');
    if forall e | Eligible(q, e, tenant, now) :: Less(x, e) {
      BeforeAllIsMet(q, popped, claimed, tenant, now, q', x);
    }
    if e :| Eligible(q, e, tenant, now) && Less(e, x) {
      AfterOneIsUnmet(q, popped, claimed, tenant, now, q', x, e);
    }
  }

  lemma ClaimedWasPending(q: QState, popped: seq<PriorityItem>, claimed: Option<PriorityItem>,
                          tenant: Option<string>, now: real, q': QState)
    requires QInv(q) && Found(q, popped, claimed, tenant, now, q')
    ensures claimed.Some? ==> q.Is(claimed.value.task.taskId, Pending)
  {
    hide QInv, Found;
    ClaimIsLeast(q, popped, claimed, tenant, now, q');
  }

  lemma MetIsInHeap(q: QState, popped: seq<PriorityItem>, claimed: Option<PriorityItem>,
                    tenant: Option<string>, now: real, q': QState)
    requires Found(q, popped, claimed, tenant, now, q')
    ensures forall x | x in popped :: x in q.heap
  {
    FoundSplit(q, popped, claimed, tenant, now, q');
    hide Found, Sweep, Look;
    assert forall x | x in popped :: x in multiset(popped);
  }

  /** An item that comes before every item that could be claimed is met. */
  lemma BeforeAllIsMet(q: QState, popped: seq<PriorityItem>, claimed: Option<PriorityItem>,
                       tenant: Option<string>, now: real, q': QState, x: PriorityItem)
    requires QInv(q) && Found(q, popped, claimed, tenant, now, q') && x in q.heap
    requires forall e | Eligible(q, e, tenant, now) :: Less(x, e)
    ensures x in popped
  {
    hide QInv, Less, Look, Sweep, Eligible, NoneClaimed;
    ClaimIsLeast(q, popped, claimed, tenant, now, q');
    FoundSplit(q, popped, claimed, tenant, now, q');
    if claimed.None? {
      assert x in multiset(popped);
    } else {
      assert x in q.heap - multiset(popped) || x in multiset(popped);
    }
  }

  /** An item that comes after one that could be claimed is not met, and no other item of its task is. */
  lemma AfterOneIsUnmet(q: QState, popped: seq<PriorityItem>, claimed: Option<PriorityItem>,
                        tenant: Option<string>, now: real, q': QState, x: PriorityItem, e: PriorityItem)
    requires QInv(q) && Found(q, popped, claimed, tenant, now, q') && x in q.heap
    requires Eligible(q, e, tenant, now) && Less(e, x)
    ensures claimed.Some? && forall y | y in popped :: y.task.taskId != x.task.taskId
  {
    ClaimIsLeast(q, popped, claimed, tenant, now, q');
    FoundSplit(q, popped, claimed, tenant, now, q');
    var c := claimed.value;
    assert Less(c, x);
    if x in popped {
      var i :| 0 <= i < |popped| && popped[i] == x;
      MetNoneLess(q.heap, popped, c, i);
      assert false;
    }
    UnmetElsewhere(q, popped, x);
  }

  lemma MetNoneLess(heap: multiset<PriorityItem>, popped: seq<PriorityItem>, c: PriorityItem, i: nat)
    requires Least(heap, popped) && c in heap - multiset(popped) && i < |popped|
    ensures !Less(c, popped[i])
  {
    hide Less;
    assert popped == popped[..i] + popped[i..];
    assert multiset(popped[..i]) <= multiset(popped);
    assert c in heap - multiset(popped[..i]);
  }

  lemma UnmetElsewhere(q: QState, popped: seq<PriorityItem>, x: PriorityItem)
    requires QInv(q) && multiset(popped) <= q.heap && x in q.heap && x !in popped
    ensures forall y | y in popped :: y.task.taskId != x.task.taskId
  {
    assert x !in multiset(popped);
    UnmetTask(q, popped, x);
  }
}
