/** What subscribers are promised, for every interleaving of publishers, subscribers and consumers. */
module EventTheorems {
  import opened Prelude
  import opened EventSpec

  // ----- What every step keeps -----

  function Total(subs: seq<Sub>): nat {
    if subs == [] then 0 else Total(subs[..|subs| - 1]) + subs[|subs| - 1].received
  }

  /** The table lists exactly the open subscriptions, each once. */
  ghost predicate TableInv(subs: seq<Sub>, table: map<string, Ref>) {
    && (forall id | id in table :: table[id] < |subs|)
    && (forall a, b | a in table && b in table && table[a] == table[b] :: a == b)
    && (forall i | 0 <= i < |subs| :: !subs[i].closed <==> i in table.Values)
  }

  ghost predicate SubsInv(subs: seq<Sub>) {
    forall i | 0 <= i < |subs| :: SubInv(subs[i])
  }

  ghost predicate HistoryInv(history: map<SessionId, seq<Event>>) {
    forall session, e | session in history && e in history[session] :: e.session == session
  }

  ghost predicate HubInv(h: Hub) {
    && TableInv(h.subs, h.table) && SubsInv(h.subs) && HistoryInv(h.history)
    && Total(h.subs) == h.delivered + h.replayed
  }

  lemma {:induction false} TotalUpdate(subs: seq<Sub>, i: nat, s: Sub)
    requires i < |subs|
    ensures Total(subs[i := s]) == Total(subs) - subs[i].received + s.received
  {
    var n := |subs| - 1;
    if i == n {
      assert subs[i := s][..n] == subs[..n];
    } else {
      TotalUpdate(subs[..n], i, s);
      assert subs[i := s][..n] == subs[..n][i := s];
    }
  }

  /** A publication raises the receive counters by exactly the number of subscriptions that took the event. */
  lemma {:induction false} TotalOffer(subs: seq<Sub>, live: set<Ref>, e: Event)
    ensures Total(OfferTo(subs, live, e)) == Total(subs) + |Takers(subs, live, e)|
  {
    hide Offer, Sub.Takes, OfferTo;
    if subs == [] {
      assert Takers(subs, live, e) == {};
    } else {
      hide Takers, Total;
      var n := |subs| - 1;
      var out := OfferTo(subs, live, e);
      TakersSplit(subs, live, e);
      OfferReceives(subs[n], e);
      TotalOffer(subs[..n], live, e);
      assert out[..n] == OfferTo(subs[..n], live, e);
      TotalLast(subs);
      TotalLast(out);
    }
  }

  lemma TotalLast(subs: seq<Sub>)
    requires subs != []
    ensures Total(subs) == Total(subs[..|subs| - 1]) + subs[|subs| - 1].received
  {
  }

  lemma TakersSplit(subs: seq<Sub>, live: set<Ref>, e: Event)
    requires subs != []
    ensures var n := |subs| - 1;
            |Takers(subs, live, e)| == |Takers(subs[..n], live, e)| + if n in live && subs[n].Takes(e) then 1 else 0
  {
    hide Sub.Takes;
    var n := |subs| - 1;
    var rest := Takers(subs[..n], live, e);
    assert Takers(subs, live, e) == if n in live && subs[n].Takes(e) then rest + {n} else rest;
  }

  lemma OfferReceives(s: Sub, e: Event)
    ensures Offer(s, e).received == s.received + if s.Takes(e) then 1 else 0
  {
  }

  lemma TotalSnoc(subs: seq<Sub>, s: Sub)
    ensures Total(subs + [s]) == Total(subs) + s.received
  {
    assert (subs + [s])[..|subs|] == subs;
  }

  lemma PublishInv(h: Hub, e: Event)
    requires HubInv(h)
    ensures HubInv(Publish(h, e))
  {
    hide SubInv, Offer, HistoryInv, Total, Takers;
    TotalOffer(h.subs, h.table.Values, e);
    forall i | 0 <= i < |h.subs|
      ensures SubInv(Offer(h.subs[i], e)) && Offer(h.subs[i], e).closed == h.subs[i].closed
    {
      OfferInv(h.subs[i], e);
      OfferStaysOpen(h.subs[i], e);
    }
  }

  lemma OfferStaysOpen(s: Sub, e: Event)
    ensures Offer(s, e).closed == s.closed
  {
  }

  lemma SubscribeInv(h: Hub, id: string, filter: EventFilter, maxSize: int, maxSubscribers: int)
    requires HubInv(h)
    ensures HubInv(Subscribe(h, id, filter, maxSize, maxSubscribers))
  {
    if CanSubscribe(h, id, maxSubscribers) {
      hide SubsInv, HistoryInv, TableInv, Total, NewSub;
      var s := NewSub(filter, maxSize);
      NewSubInv(filter, maxSize);
      SubsSnoc(h.subs, s);
      TotalSnoc(h.subs, s);
      TableAdd(h.subs, h.table, id, s);
    }
  }

  lemma SubsSnoc(subs: seq<Sub>, s: Sub)
    requires SubsInv(subs) && SubInv(s)
    ensures SubsInv(subs + [s])
  {
    hide SubInv;
  }

  lemma TableAdd(subs: seq<Sub>, table: map<string, Ref>, id: string, s: Sub)
    requires TableInv(subs, table) && id !in table && !s.closed
    ensures TableInv(subs + [s], table[id := |subs|])
  {
    var table' := table[id := |subs|];
    forall i | 0 <= i < |subs|
      ensures i in table.Values <==> i in table'.Values
    {
      if i in table.Values {
        var k :| k in table && table[k] == i;
        assert table'[k] == i;
      }
    }
    assert table'[id] == |subs|;
  }

  lemma TableRemove(subs: seq<Sub>, table: map<string, Ref>, id: string, s: Sub)
    requires TableInv(subs, table) && id in table && s.closed
    ensures TableInv(subs[table[id] := s], table - {id})
  {
    var table' := table - {id};
    forall i | 0 <= i < |subs| && i != table[id]
      ensures i in table.Values <==> i in table'.Values
    {
      if i in table.Values {
        var k :| k in table && table[k] == i;
        assert k in table' && table'[k] == i;
      }
    }
  }

  lemma NewSubInv(filter: EventFilter, maxSize: int)
    ensures SubInv(NewSub(filter, maxSize)) && NewSub(filter, maxSize).received == 0 && !NewSub(filter, maxSize).closed
  {
  }

  /** Replacing one subscription by a later state of itself. */
  lemma ReplaceInv(h: Hub, ref: Ref, s: Sub)
    requires HubInv(h) && ref < |h.subs| && SubInv(s) && s.closed == h.subs[ref].closed && s.received >= h.subs[ref].received
    ensures HubInv(h.(subs := h.subs[ref := s], replayed := h.replayed + (s.received - h.subs[ref].received)))
  {
    hide SubInv, HistoryInv;
    TotalUpdate(h.subs, ref, s);
  }

  lemma RemoveInv(h: Hub, id: string)
    requires HubInv(h)
    ensures HubInv(Unsubscribe(h, id))
  {
    if id in h.table {
      hide SubsInv, HistoryInv, TableInv, Total, Close;
      TableHas(h.subs, h.table, id);
      var ref := h.table[id];
      ClosedInv(h.subs, ref);
      TotalUpdate(h.subs, ref, Close(h.subs[ref]));
      TableRemove(h.subs, h.table, id, Close(h.subs[ref]));
    }
  }

  lemma TableHas(subs: seq<Sub>, table: map<string, Ref>, id: string)
    requires TableInv(subs, table) && id in table
    ensures table[id] < |subs|
  {
  }

  lemma ClosedInv(subs: seq<Sub>, ref: Ref)
    requires SubsInv(subs) && ref < |subs|
    ensures SubsInv(subs[ref := Close(subs[ref])])
    ensures Close(subs[ref]).closed && Close(subs[ref]).received == subs[ref].received
  {
    CloseInv(subs[ref]);
    hide SubInv;
  }

  lemma {:induction false} OfferKeeps(s: Sub, events: seq<Event>)
    ensures OfferAll(s, events).closed == s.closed && OfferAll(s, events).filter == s.filter
  {
    if events != [] {
      OfferKeeps(s, events[..|events| - 1]);
    }
  }

  /** Every step keeps the table, the counters and the histories right. */
  lemma StepInv(limits: Limits, h: Hub, step: Step)
    requires HubInv(h)
    ensures HubInv(Next(limits, h, step))
  {
    hide HubInv, SubInv, Publish, Subscribe, Unsubscribe, OfferAll, Take, AddToHistory;
    match step
    case AddHistory(e) => AddInv(h, e, limits.maxHistory);
    case Deliver(e) => PublishInv(h, e);
    case Register(id, filter, maxSize) => SubscribeInv(h, id, filter, maxSize, limits.maxSubscribers);
    case ReplayTo(ref, session) => if ref < |h.subs| { ReplayInv(h, ref, session); }
    case TakeFrom(ref, waiting) => TakeFromInv(h, ref, waiting);
    case Remove(id) => RemoveInv(h, id);
    case ClearHistory(session) => ClearInv(h, session);
  }

  lemma AddInv(h: Hub, e: Event, maxHistory: int)
    requires HubInv(h)
    ensures HubInv(AddToHistory(h, e, maxHistory))
  {
    hide TableInv, SubsInv;
  }

  lemma ClearInv(h: Hub, session: SessionId)
    requires HubInv(h)
    ensures HubInv(h.(history := h.history - {session}))
  {
    hide TableInv, SubsInv;
  }

  lemma ReplayInv(h: Hub, ref: Ref, session: SessionId)
    requires HubInv(h) && ref < |h.subs|
    ensures HubInv(Replay(h, ref, session))
  {
    var events := ListAt(h.history, session);
    OfferAllInv(h.subs[ref], events);
    OfferKeeps(h.subs[ref], events);
    OfferAllReceives(h.subs[ref], events);
    hide HubInv, SubInv, OfferAll;
    ReplaceInv(h, ref, OfferAll(h.subs[ref], events));
  }

  lemma TakeFromInv(h: Hub, ref: Ref, waiting: bool)
    requires HubInv(h)
    ensures ref < |h.subs| ==> HubInv(h.(subs := h.subs[ref := Take(h.subs[ref], waiting)]))
  {
    if ref < |h.subs| {
      TakeInv(h.subs[ref], waiting);
      ReplaceInv(h, ref, Take(h.subs[ref], waiting));
    }
  }

  /**
   After any run: for each subscription what it received is what its consumer took plus what is queued,
   and what it received and dropped is what was offered; and what the stream delivered is what all
   subscriptions received less the replays.
   */
  lemma {:induction false} CountersAddUp(limits: Limits, run: seq<Step>)
    ensures HubInv(After(limits, run))
  {
    if run == [] {
    } else {
      hide HubInv, Next;
      CountersAddUp(limits, run[..|run| - 1]);
      StepInv(limits, After(limits, run[..|run| - 1]), run[|run| - 1]);
    }
  }

  // ----- The history -----

  /** The events of a session added since its history was last cleared. */
  function Added(run: seq<Step>, session: SessionId): seq<Event> {
    if run == [] then [] else
      var before, step := Added(run[..|run| - 1], session), run[|run| - 1];
      if step.AddHistory? && step.event.session == session then before + [step.event]
      else if step == ClearHistory(session) then []
      else before
  }

  /** A session's history is the last `maxHistory` of the events added to it; a limit of zero never trims. */
  lemma {:induction false} HistoryIsTail(limits: Limits, run: seq<Step>, session: SessionId)
    requires limits.maxHistory >= 0
    ensures ListAt(After(limits, run).history, session) == Tail(Added(run, session), limits.maxHistory)
  {
    if run != [] {
      var before, step := run[..|run| - 1], run[|run| - 1];
      HistoryIsTail(limits, before, session);
      HistoryStep(limits, After(limits, before), step, session);
    }
  }

  lemma HistoryStep(limits: Limits, h: Hub, step: Step, session: SessionId)
    ensures ListAt(Next(limits, h, step).history, session) ==
            if step.AddHistory? && step.event.session == session
            then Trimmed(ListAt(h.history, session) + [step.event], limits.maxHistory)
            else if step == ClearHistory(session) then [] else ListAt(h.history, session)
  {
    hide Publish, Replay, OfferAll;
    assert forall e :: Publish(h, e).history == h.history by {
      PublishHistory(h);
    }
    if step.ReplayTo? && step.ref < |h.subs| {
      ReplayHistory(h, step.ref, step.session);
    }
  }

  lemma PublishHistory(h: Hub)
    ensures forall e :: Publish(h, e).history == h.history
  {
  }

  lemma ReplayHistory(h: Hub, ref: Ref, session: SessionId)
    requires ref < |h.subs|
    ensures Replay(h, ref, session).history == h.history
  {
  }

  /** `step` is step number `i` of the run, and no other. */
  ghost predicate Happens(run: seq<Step>, i: nat, step: Step) {
    i < |run| && run[i] == step && forall j | 0 <= j < |run| && run[j] == step :: j == i
  }

  /** An event that is added once is at most once in a history, and not before it was added. */
  lemma {:induction false} HistoryOnce(limits: Limits, run: seq<Step>, e: Event, a: nat, i: nat, session: SessionId)
    requires Happens(run, a, AddHistory(e)) && i <= |run|
    ensures multiset(ListAt(After(limits, run[..i]).history, session))[e] <= if a < i then 1 else 0
  {
    hide Next, After, Happens;
    if i == 0 {
      AfterNone(limits, run);
    } else {
      OnlyThen(run, a, AddHistory(e), i - 1);
      HistoryOnce(limits, run, e, a, i - 1, session);
      AfterStep(limits, run, i - 1);
      AddsAtMost(limits, After(limits, run[..i - 1]), run[i - 1], session, e);
    }
  }

  lemma AfterNone(limits: Limits, run: seq<Step>)
    ensures After(limits, run[..0]) == EMPTY
  {
  }

  lemma OnlyThen(run: seq<Step>, a: nat, step: Step, i: nat)
    requires Happens(run, a, step) && i < |run|
    ensures run[i] == step <==> i == a
  {
  }

  lemma AddsAtMost(limits: Limits, h: Hub, step: Step, session: SessionId, e: Event)
    ensures multiset(ListAt(Next(limits, h, step).history, session))[e] <=
            multiset(ListAt(h.history, session))[e] + if step == AddHistory(e) then 1 else 0
  {
    HistoryStep(limits, h, step, session);
    hide Next, Trimmed;
    if step.AddHistory? {
      TrimmedPart(ListAt(h.history, session) + [step.event], limits.maxHistory);
    }
  }

  lemma TrimmedPart(s: seq<Event>, max: int)
    ensures multiset(Trimmed(s, max)) <= multiset(s)
  {
    var t := Trimmed(s, max);
    assert s == s[..|s| - |t|] + t;
  }

  /** Whatever is added without a clearing in between stays where it is in the list of added events. */
  lemma {:induction false} AddedGrows(run: seq<Step>, session: SessionId, i: nat, j: nat)
    requires i <= j <= |run| && forall k | i <= k < j :: run[k] != ClearHistory(session)
    ensures Added(run[..i], session) <= Added(run[..j], session)
  {
    if i < j {
      AddedGrows(run, session, i, j - 1);
      assert run[..j][..j - 1] == run[..j - 1];
    }
  }

  lemma {:induction false} AddedOnce(run: seq<Step>, e: Event, a: nat, i: nat)
    requires Happens(run, a, AddHistory(e)) && i <= |run|
    ensures multiset(Added(run[..i], e.session))[e] <= if a < i then 1 else 0
  {
    if i > 0 {
      AddedOnce(run, e, a, i - 1);
      assert run[..i][..i - 1] == run[..i - 1];
    }
  }

  lemma TwoIndexes(s: seq<Event>, e: Event, i: nat, j: nat)
    requires i < j < |s| && s[i] == e && s[j] == e
    ensures multiset(s)[e] >= 2
  {
    assert s == s[..j] + s[j..] && e == s[..j][i] && e == s[j..][0];
    assert e in multiset(s[..j]) && e in multiset(s[j..]);
  }

  lemma InTail(all: seq<Event>, max: nat, e: Event, k: nat)
    requires k < |all| && all[k] == e && multiset(all)[e] <= 1
    ensures e in Tail(all, max) <==> max == 0 || |all| - k <= max
  {
    hide Tail;
    InSuffix(all, |all| - |Tail(all, max)|, e, k);
  }

  lemma InSuffix(all: seq<Event>, start: nat, e: Event, k: nat)
    requires k < |all| && all[k] == e && multiset(all)[e] <= 1 && start <= |all|
    ensures e in all[start..] <==> start <= k
  {
    if start <= k {
      assert all[start..][k - start] == e;
    } else if e in all[start..] {
      var j :| 0 <= j < |all| - start && all[start..][j] == e;
      TwoIndexes(all, e, k, start + j);
    }
  }

  /**
   Whether an event is still in its session's history at step `p`: it must have been added before, and
   at most `maxHistory` events of the session, itself included, may have been added from then on.
   */
  lemma KeptExactly(limits: Limits, run: seq<Step>, e: Event, a: nat, p: nat)
    requires limits.maxHistory >= 0 && Happens(run, a, AddHistory(e)) && p <= |run|
    requires forall k | a <= k < p :: run[k] != ClearHistory(e.session)
    ensures e in ListAt(After(limits, run[..p]).history, e.session) <==>
              && a < p
              && (limits.maxHistory == 0
                  || |Added(run[..p], e.session)| - |Added(run[..a], e.session)| <= limits.maxHistory)
  {
    if a < p {
      var all := Added(run[..p], e.session);
      HistoryIsTail(limits, run[..p], e.session);
      assert run[..a + 1][..a] == run[..a];
      assert Added(run[..a + 1], e.session) == Added(run[..a], e.session) + [e];
      AddedGrows(run, e.session, a + 1, p);
      AddedOnce(run, e, a, p);
      InTail(all, limits.maxHistory, e, |Added(run[..a], e.session)|);
    } else {
      HistoryOnce(limits, run, e, a, p, e.session);
    }
  }

  // ----- No event is lost -----

  function Copies(s: Sub, e: Event): nat {
    multiset(s.offered)[e]
  }

  lemma {:induction false} OfferAllCopies(s: Sub, events: seq<Event>, e: Event)
    requires !s.closed && s.filter.Matches(e)
    ensures Copies(OfferAll(s, events), e) == Copies(s, e) + multiset(events)[e]
  {
    if events != [] {
      var n := |events| - 1;
      OfferAllCopies(s, events[..n], e);
      OfferKeeps(s, events[..n]);
      hide EventFilter.Matches;
      assert events == events[..n] + [events[n]];
    }
  }

  /** How often one step offers `e` to subscription `ref`. */
  function Offers(h: Hub, step: Step, ref: Ref, e: Event): nat {
    match step
    case Deliver(e') => if e' == e then 1 else 0
    case ReplayTo(to, session) => if to == ref then multiset(ListAt(h.history, session))[e] else 0
    case _ => 0
  }

  lemma StepOffers(limits: Limits, h: Hub, step: Step, ref: Ref, e: Event)
    requires HubInv(h) && ref < |h.subs| && h.subs[ref].filter.Matches(e)
    requires var t := Next(limits, h, step); |t.subs| > ref && !t.subs[ref].closed
    ensures var t := Next(limits, h, step);
            && !h.subs[ref].closed && t.subs[ref].filter == h.subs[ref].filter
            && Copies(t.subs[ref], e) == Copies(h.subs[ref], e) + Offers(h, step, ref, e)
  {
    hide SubsInv, HistoryInv, EventFilter.Matches, OfferAll;
    if step.ReplayTo? && step.ref == ref {
      var events := ListAt(h.history, step.session);
      OfferKeeps(h.subs[ref], events);
      OfferAllCopies(h.subs[ref], events, e);
    }
  }

  lemma NextLength(limits: Limits, h: Hub, step: Step)
    ensures |Next(limits, h, step).subs| >= |h.subs|
  {
    hide OfferAll;
  }

  /** `filter` is registered by step `r` as subscription `ref`. */
  ghost predicate Registers(limits: Limits, run: seq<Step>, r: nat, filter: EventFilter, ref: Ref) {
    && r < |run| && run[r].Register? && run[r].filter == filter
    && |After(limits, run[..r]).subs| == ref
    && CanSubscribe(After(limits, run[..r]), run[r].id, limits.maxSubscribers)
  }

  ghost predicate Open(h: Hub, ref: Ref) {
    ref < |h.subs| && !h.subs[ref].closed
  }

  /**
   The whole story of one event `e` and one subscriber: `e` is added to the history at step `a` and
   delivered at step `d`; the subscriber registers at step `r` and asks for a replay at step `p`.
   */
  ghost predicate Story(limits: Limits, run: seq<Step>, e: Event, a: nat, d: nat, filter: EventFilter, r: nat, p: nat, ref: Ref) {
    && a < d && Happens(run, a, AddHistory(e)) && Happens(run, d, Deliver(e))
    && r < p && Happens(run, p, ReplayTo(ref, e.session))
    && filter.Matches(e) && Registers(limits, run, r, filter, ref)
  }

  lemma {:induction false} HeardSoFar(limits: Limits, run: seq<Step>, e: Event, a: nat, d: nat,
                                      filter: EventFilter, r: nat, p: nat, ref: Ref, i: nat)
    requires Story(limits, run, e, a, d, filter, r, p, ref) && r < i <= |run| && Open(After(limits, run[..i]), ref)
    ensures After(limits, run[..i]).subs[ref].filter == filter
    ensures Copies(After(limits, run[..i]).subs[ref], e) ==
            (if r < d < i then 1 else 0) +
            (if p < i && e in ListAt(After(limits, run[..p]).history, e.session) then 1 else 0)
    decreases i
  {
    hide HubInv, Next, EventFilter.Matches, SubInv, CanSubscribe, After, Registers, Happens, Copies, Offers;
    if i == r + 1 {
      NewlyHeard(limits, run, r, filter, ref, e);
      assert r != d && r != p by { RegisterIsNot(limits, run, e, d, filter, r, p, ref); }
    } else {
      var h := After(limits, run[..i - 1]);
      AfterStep(limits, run, i - 1);
      NewlyHeard(limits, run, r, filter, ref, e);
      SubsGrow(limits, run, r + 1, i - 1);
      CountersAddUp(limits, run[..i - 1]);
      StillOpen(limits, h, run[i - 1], ref);
      HeardSoFar(limits, run, e, a, d, filter, r, p, ref, i - 1);
      StepOffers(limits, h, run[i - 1], ref, e);
      OffersIn(limits, run, e, a, d, p, ref, i - 1);
    }
  }

  lemma AfterStep(limits: Limits, run: seq<Step>, i: nat)
    requires i < |run|
    ensures After(limits, run[..i + 1]) == Next(limits, After(limits, run[..i]), run[i])
  {
    assert run[..i + 1][..i] == run[..i];
  }

  lemma NewlyHeard(limits: Limits, run: seq<Step>, r: nat, filter: EventFilter, ref: Ref, e: Event)
    requires Registers(limits, run, r, filter, ref)
    ensures var h := After(limits, run[..r + 1]);
            |h.subs| == ref + 1 && h.subs[ref].filter == filter && Copies(h.subs[ref], e) == 0
  {
    hide Publish, Replay, OfferAll;
    AfterStep(limits, run, r);
  }

  lemma RegisterIsNot(limits: Limits, run: seq<Step>, e: Event, d: nat, filter: EventFilter, r: nat, p: nat, ref: Ref)
    requires Happens(run, d, Deliver(e)) && Happens(run, p, ReplayTo(ref, e.session)) && Registers(limits, run, r, filter, ref)
    ensures r != d && r != p
  {
  }

  lemma StillOpen(limits: Limits, h: Hub, step: Step, ref: Ref)
    requires HubInv(h) && ref < |h.subs| && Open(Next(limits, h, step), ref)
    ensures Open(h, ref)
  {
    hide SubsInv, HistoryInv, OfferAll;
    if step.ReplayTo? {
      OfferKeeps(h.subs[ref], ListAt(h.history, step.session));
    }
  }

  lemma {:induction false} SubsGrow(limits: Limits, run: seq<Step>, i: nat, j: nat)
    requires i <= j <= |run|
    ensures |After(limits, run[..i]).subs| <= |After(limits, run[..j]).subs|
  {
    hide Next, After;
    if i < j {
      SubsGrow(limits, run, i, j - 1);
      AfterStep(limits, run, j - 1);
      NextLength(limits, After(limits, run[..j - 1]), run[j - 1]);
    }
  }

  lemma OffersIn(limits: Limits, run: seq<Step>, e: Event, a: nat, d: nat, p: nat, ref: Ref, i: nat)
    requires Happens(run, a, AddHistory(e)) && Happens(run, d, Deliver(e)) && Happens(run, p, ReplayTo(ref, e.session))
    requires i < |run|
    ensures Offers(After(limits, run[..i]), run[i], ref, e) ==
            (if i == d then 1 else 0) +
            (if i == p && e in ListAt(After(limits, run[..p]).history, e.session) then 1 else 0)
  {
    var h := After(limits, run[..i]);
    if run[i].ReplayTo? && run[i].ref == ref {
      HistoryOnce(limits, run, e, a, i, run[i].session);
      CountersAddUp(limits, run[..i]);
      HistoryHolds(h, run[i].session, e);
      hide HubInv;
      assert e in ListAt(h.history, run[i].session) <==> multiset(ListAt(h.history, run[i].session))[e] > 0;
    }
  }

  lemma HistoryHolds(h: Hub, session: SessionId, e: Event)
    requires HubInv(h)
    ensures e in ListAt(h.history, session) ==> e.session == session
  {
  }

  /**
   A subscriber that stays open is offered an event once for a delivery that comes after it registered, and
   once more for a replay that finds the event in the history.
   */
  lemma HeardExactly(limits: Limits, run: seq<Step>, e: Event, a: nat, d: nat,
                     filter: EventFilter, r: nat, p: nat, ref: Ref)
    requires Story(limits, run, e, a, d, filter, r, p, ref) && Open(After(limits, run), ref)
    ensures Copies(After(limits, run).subs[ref], e) ==
            (if r < d then 1 else 0) + (if e in ListAt(After(limits, run[..p]).history, e.session) then 1 else 0)
  {
    assert run[..|run|] == run;
    HeardSoFar(limits, run, e, a, d, filter, r, p, ref, |run|);
  }

  /**
   No event is lost: unless the history was trimmed or cleared in between or the queue was full, a
   subscriber that asked for the history accepts every event once or twice, and twice exactly when it
   registered before the delivery and the event was in the history before the replay.
   */
  lemma NeverLost(limits: Limits, run: seq<Step>, e: Event, a: nat, d: nat,
                  filter: EventFilter, r: nat, p: nat, ref: Ref)
    requires Story(limits, run, e, a, d, filter, r, p, ref) && Open(After(limits, run), ref)
    requires limits.maxHistory >= 0 && forall k | a <= k < p :: run[k] != ClearHistory(e.session)
    requires a < p && limits.maxHistory > 0 ==>
               |Added(run[..p], e.session)| - |Added(run[..a], e.session)| <= limits.maxHistory
    requires After(limits, run).subs[ref].dropped == 0
    ensures var copies := multiset(After(limits, run).subs[ref].Accepted())[e];
            && 1 <= copies <= 2
            && (copies == 2 <==> r < d && a < p)
  {
    hide HubInv, SubInv, EventFilter.Matches, Next;
    HeardExactly(limits, run, e, a, d, filter, r, p, ref);
    KeptExactly(limits, run, e, a, p);
    CountersAddUp(limits, run);
    AcceptedAll(After(limits, run), ref);
  }

  lemma AcceptedAll(h: Hub, ref: Ref)
    requires HubInv(h) && ref < |h.subs| && h.subs[ref].dropped == 0
    ensures h.subs[ref].Accepted() == h.subs[ref].offered
  {
  }

  /**
   The subscriber of a session, which registers with the filter of the session and then asks for the session's
   history, loses no event of the session: it accepts each once or twice, as said above.
   */
  lemma SessionSubscriberHears(limits: Limits, run: seq<Step>, e: Event, a: nat, d: nat,
                               id: string, maxSize: int, r: nat, p: nat, ref: Ref)
    requires a < d && Happens(run, a, AddHistory(e)) && Happens(run, d, Deliver(e))
    requires Happens(run, p, ReplayTo(ref, e.session)) && r < p && run[r] == Register(id, SessionFilter(e.session), maxSize)
    requires var h := After(limits, run[..r]); |h.subs| == ref && id !in h.table && |h.table| < limits.maxSubscribers
    requires Open(After(limits, run), ref) && After(limits, run).subs[ref].dropped == 0
    requires limits.maxHistory >= 0 && forall k | a <= k < p :: run[k] != ClearHistory(e.session)
    requires a < p && limits.maxHistory > 0 ==>
               |Added(run[..p], e.session)| - |Added(run[..a], e.session)| <= limits.maxHistory
    ensures var copies := multiset(After(limits, run).subs[ref].Accepted())[e];
            1 <= copies <= 2 && (copies == 2 <==> r < d && a < p)
  {
    hide After;
    NeverLost(limits, run, e, a, d, SessionFilter(e.session), r, p, ref);
  }

  /** The stream's counter of published events. */
  lemma {:induction false} PublishedCounts(limits: Limits, run: seq<Step>)
    ensures After(limits, run).published == |Filter(run, (step: Step) => step.Deliver?)|
  {
    if run != [] {
      hide Next;
      PublishedCounts(limits, run[..|run| - 1]);
      PublishedStep(limits, After(limits, run[..|run| - 1]), run[|run| - 1]);
    }
  }

  lemma PublishedStep(limits: Limits, h: Hub, step: Step)
    ensures Next(limits, h, step).published == h.published + if step.Deliver? then 1 else 0
  {
    hide OfferTo, Takers, OfferAll;
  }

  const SAMPLE := Event(0, "s", None, "flow.started", Info, None, "t")
  const SAMPLE_SUB := NewSub(SessionFilter("s"), 1000)
  const SAMPLE_HUB := Hub(map["s" := [SAMPLE]], [Offer(SAMPLE_SUB, SAMPLE)], map["c:s" := 0], 0, 0, 1)
  const SAMPLE_RUN := [Register("c:s", SessionFilter("s"), 1000), AddHistory(SAMPLE), ReplayTo(0, "s"), Deliver(SAMPLE)]

  /** A duplicate does happen: a replay between the two halves of a publication finds the event before it is delivered. */
  lemma HeardTwice(limits: Limits)
    requires limits.maxHistory > 0 && limits.maxSubscribers > 0
    ensures Story(limits, SAMPLE_RUN, SAMPLE, 1, 3, SessionFilter("s"), 0, 2, 0)
    ensures Open(After(limits, SAMPLE_RUN), 0) && After(limits, SAMPLE_RUN).subs[0].Accepted() == [SAMPLE, SAMPLE]
  {
    hide After, Publish, Offer;
    SampleReplayed(limits);
    AfterStep(limits, SAMPLE_RUN, 3);
    assert SAMPLE_RUN[..4] == SAMPLE_RUN;
    SampleDelivered();
  }

  lemma SampleDelivered()
    ensures var s := Publish(SAMPLE_HUB, SAMPLE).subs;
            |s| == 1 && !s[0].closed && s[0].Accepted() == [SAMPLE, SAMPLE]
  {
    SampleTwice();
    hide Offer, Sub.Accepted, Takers;
    assert SAMPLE_HUB.table["c:s"] == 0;
    assert 0 in SAMPLE_HUB.table.Values;
  }

  lemma SampleTwice()
    ensures var twice := Offer(Offer(SAMPLE_SUB, SAMPLE), SAMPLE);
            !twice.closed && twice.Accepted() == [SAMPLE, SAMPLE]
  {
    var twice := Offer(Offer(SAMPLE_SUB, SAMPLE), SAMPLE);
    assert twice.queue == [Some(SAMPLE)] + [Some(SAMPLE)];
    EventsSplit([Some(SAMPLE)], [Some(SAMPLE)]);
    assert Events([Some(SAMPLE)]) == [SAMPLE];
  }

  lemma SampleReplayed(limits: Limits)
    requires limits.maxHistory > 0 && limits.maxSubscribers > 0
    ensures After(limits, SAMPLE_RUN[..0]) == EMPTY
    ensures After(limits, SAMPLE_RUN[..3]) == SAMPLE_HUB
  {
    AfterNone(limits, SAMPLE_RUN);
    AfterStep(limits, SAMPLE_RUN, 0);
    AfterStep(limits, SAMPLE_RUN, 1);
    AfterStep(limits, SAMPLE_RUN, 2);
    hide After;
    assert After(limits, SAMPLE_RUN[..1]) == Hub(map[], [SAMPLE_SUB], map["c:s" := 0], 0, 0, 0);
    assert After(limits, SAMPLE_RUN[..2]) == Hub(map["s" := [SAMPLE]], [SAMPLE_SUB], map["c:s" := 0], 0, 0, 0);
    OfferedOnce(SAMPLE_SUB, SAMPLE);
  }

  lemma OfferedOnce(s: Sub, e: Event)
    ensures OfferAll(s, [e]) == Offer(s, e)
  {
    assert [e][..0] == [];
  }
}
