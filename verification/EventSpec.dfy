/**
 Events, filters, and the abstract state of the event hub: subscriptions, the table of live ones, and
 the history kept for late subscribers. The steps are the sections of code that run without a break.
 */
module EventSpec {
  import opened Prelude

  type SessionId = string
  type Ref = nat

  datatype Severity = Debug | Info | Warning | Error | Critical {
    function Rank(): nat {
      match this
      case Debug => 0
      case Info => 1
      case Warning => 2
      case Error => 3
      case Critical => 4
    }
  }

  datatype Event = Event(
    eventId: nat, session: SessionId, exec: Option<string>, kind: string,
    severity: Severity, source: Option<nat>, tenant: string)

  datatype EventFilter = EventFilter(
    sessions: Option<set<SessionId>>, execs: Option<set<string>>, kinds: Option<set<string>>,
    prefixes: Option<set<string>>, minSeverity: Severity, sources: Option<set<nat>>, tenants: Option<set<string>>)
  {
    predicate Matches(e: Event) {
      && (sessions.Some? ==> e.session in sessions.value)
      && (execs.Some? ==> e.exec.Some? && e.exec.value in execs.value)
      && (kinds.Some? ==> e.kind in kinds.value)
      && (prefixes.Some? ==> exists prefix :: prefix in prefixes.value && prefix <= e.kind)
      && e.severity.Rank() >= minSeverity.Rank()
      && (sources.Some? ==> e.source.Some? && e.source.value in sources.value)
      && (tenants.Some? ==> e.tenant in tenants.value)
    }
  }

  function SessionFilter(session: SessionId): (f: EventFilter)
    ensures forall e :: f.Matches(e) <==> e.session == session
  {
    EventFilter(Some({session}), None, None, None, Debug, None, None)
  }

  // ----- One subscription -----

  /**
   A subscription. `offered` lists the matching events that reached it while it was open, `taken` those
   that its consumer took out of the queue; nothing reads either of them.
   */
  datatype Sub = Sub(
    filter: EventFilter, maxSize: int, queue: seq<Option<Event>>, closed: bool,
    received: nat, dropped: nat, offered: seq<Event>, taken: seq<Event>)
  {
    /** A bound that is not positive is no bound. */
    predicate Full() {
      maxSize > 0 && |queue| >= maxSize
    }

    predicate Hears(e: Event) {
      !closed && filter.Matches(e)
    }

    predicate Takes(e: Event) {
      Hears(e) && !Full()
    }

    /** The events that got into the queue, in order. */
    function Accepted(): seq<Event> {
      taken + Events(queue)
    }
  }

  function NewSub(filter: EventFilter, maxSize: int): Sub {
    Sub(filter, maxSize, [], false, 0, 0, [], [])
  }

  /** The events of a queue, without the end marker. */
  function Events(queue: seq<Option<Event>>): seq<Event> {
    if queue == [] then [] else
      var n := |queue| - 1;
      Events(queue[..n]) + (if queue[n].Some? then [queue[n].value] else [])
  }

  lemma {:induction false} EventsSplit(a: seq<Option<Event>>, b: seq<Option<Event>>)
    ensures Events(a + b) == Events(a) + Events(b)
    decreases |b|
  {
    if b == [] {
      assert a + b == a;
    } else {
      var n := |b| - 1;
      EventsSplit(a, b[..n]);
      assert (a + b)[..|a + b| - 1] == a + b[..n];
    }
  }

  function Offer(s: Sub, e: Event): Sub {
    if !s.Hears(e) then s
    else if s.Full() then s.(dropped := s.dropped + 1, offered := s.offered + [e])
    else s.(queue := s.queue + [Some(e)], received := s.received + 1, offered := s.offered + [e])
  }

  function OfferAll(s: Sub, events: seq<Event>): Sub {
    if events == [] then s else Offer(OfferAll(s, events[..|events| - 1]), events[|events| - 1])
  }

  /** A consumer that was already waiting when the subscription closed still gets the head of the queue. */
  function Take(s: Sub, waiting: bool): Sub {
    if s.queue == [] || (s.closed && !waiting) then s
    else s.(queue := s.queue[1..], taken := s.taken + Events(s.queue[..1]))
  }

  function Close(s: Sub): Sub {
    s.(closed := true, queue := if s.Full() then s.queue else s.queue + [None])
  }

  /** What a subscription's counters mean. */
  ghost predicate SubInv(s: Sub) {
    && s.received == |s.Accepted()|
    && s.received + s.dropped == |s.offered|
    && (s.dropped == 0 ==> s.Accepted() == s.offered)
    && multiset(s.Accepted()) <= multiset(s.offered)
    && (s.maxSize > 0 ==> |s.queue| <= s.maxSize)
    && forall e | e in s.offered :: s.filter.Matches(e)
  }

  lemma OfferInv(s: Sub, e: Event)
    requires SubInv(s)
    ensures SubInv(Offer(s, e))
  {
    EventsSplit(s.queue, [Some(e)]);
    assert Events([Some(e)]) == [e];
    assert s.taken + (Events(s.queue) + [e]) == s.Accepted() + [e];
  }

  lemma {:induction false} OfferAllInv(s: Sub, events: seq<Event>)
    requires SubInv(s)
    ensures SubInv(OfferAll(s, events))
  {
    if events != [] {
      OfferAllInv(s, events[..|events| - 1]);
      OfferInv(OfferAll(s, events[..|events| - 1]), events[|events| - 1]);
    }
  }

  lemma TakeInv(s: Sub, waiting: bool)
    requires SubInv(s)
    ensures SubInv(Take(s, waiting)) && Take(s, waiting).Accepted() == s.Accepted()
  {
    if s.queue != [] {
      EventsSplit(s.queue[..1], s.queue[1..]);
      assert s.queue == s.queue[..1] + s.queue[1..];
      assert s.taken + Events(s.queue) == s.taken + Events(s.queue[..1]) + Events(s.queue[1..]);
    }
  }

  lemma CloseInv(s: Sub)
    requires SubInv(s)
    ensures SubInv(Close(s)) && Close(s).Accepted() == s.Accepted()
  {
    EventsSplit(s.queue, [None]);
    assert Events([None]) == [];
  }

  // ----- The hub -----

  datatype Hub = Hub(
    history: map<SessionId, seq<Event>>, subs: seq<Sub>, table: map<string, Ref>,
    published: nat, delivered: nat, replayed: nat)

  const EMPTY := Hub(map[], [], map[], 0, 0, 0)

  datatype Limits = Limits(maxHistory: int, maxSubscribers: int)

  function Trimmed(s: seq<Event>, max: int): seq<Event> {
    if |s| > max then Tail(s, max) else s
  }

  function AddToHistory(h: Hub, e: Event, maxHistory: int): Hub {
    h.(history := h.history[e.session := Trimmed(ListAt(h.history, e.session) + [e], maxHistory)])
  }

  /** Offers `e` to the subscriptions in `live`. */
  function OfferTo(subs: seq<Sub>, live: set<Ref>, e: Event): (out: seq<Sub>)
    ensures |out| == |subs| && forall i | 0 <= i < |subs| :: out[i] == if i in live then Offer(subs[i], e) else subs[i]
  {
    seq(|subs|, i requires 0 <= i < |subs| => if i in live then Offer(subs[i], e) else subs[i])
  }

  function Takers(subs: seq<Sub>, live: set<Ref>, e: Event): set<Ref> {
    set i | i in live && i < |subs| && subs[i].Takes(e)
  }

  function Publish(h: Hub, e: Event): Hub {
    h.(subs := OfferTo(h.subs, h.table.Values, e), published := h.published + 1,
       delivered := h.delivered + |Takers(h.subs, h.table.Values, e)|)
  }

  predicate CanSubscribe(h: Hub, id: string, maxSubscribers: int) {
    id !in h.table && |h.table| < maxSubscribers
  }

  function Subscribe(h: Hub, id: string, filter: EventFilter, maxSize: int, maxSubscribers: int): Hub {
    if CanSubscribe(h, id, maxSubscribers)
    then h.(subs := h.subs + [NewSub(filter, maxSize)], table := h.table[id := |h.subs|])
    else h
  }

  lemma {:induction false} OfferAllReceives(s: Sub, events: seq<Event>)
    ensures OfferAll(s, events).received >= s.received
  {
    if events != [] {
      OfferAllReceives(s, events[..|events| - 1]);
    }
  }

  function Replay(h: Hub, ref: Ref, session: SessionId): Hub
    requires ref < |h.subs|
  {
    var s := OfferAll(h.subs[ref], ListAt(h.history, session));
    OfferAllReceives(h.subs[ref], ListAt(h.history, session));
    h.(subs := h.subs[ref := s], replayed := h.replayed + (s.received - h.subs[ref].received))
  }

  function Unsubscribe(h: Hub, id: string): Hub {
    if id !in h.table || h.table[id] >= |h.subs| then h
    else h.(subs := h.subs[h.table[id] := Close(h.subs[h.table[id]])], table := h.table - {id})
  }

  datatype Step =
    | AddHistory(event: Event)
    | Deliver(event: Event)
    | Register(id: string, filter: EventFilter, maxSize: int)
    | ReplayTo(ref: Ref, session: SessionId)
    | TakeFrom(ref: Ref, waiting: bool)
    | Remove(id: string)
    | ClearHistory(session: SessionId)

  function Next(limits: Limits, h: Hub, step: Step): Hub {
    match step
    case AddHistory(e) => AddToHistory(h, e, limits.maxHistory)
    case Deliver(e) => Publish(h, e)
    case Register(id, filter, maxSize) => Subscribe(h, id, filter, maxSize, limits.maxSubscribers)
    case ReplayTo(ref, session) => if ref < |h.subs| then Replay(h, ref, session) else h
    case TakeFrom(ref, waiting) =>
      if ref < |h.subs| then h.(subs := h.subs[ref := Take(h.subs[ref], waiting)]) else h
    case Remove(id) => Unsubscribe(h, id)
    case ClearHistory(session) => h.(history := h.history - {session})
  }

  /** The state after a run. */
  function After(limits: Limits, run: seq<Step>): Hub {
    if run == [] then EMPTY else Next(limits, After(limits, run[..|run| - 1]), run[|run| - 1])
  }

  // ----- What filters and offers do -----

  /** `a` is at least as severe as `b`. */
  predicate AtLeast(a: Severity, b: Severity) {
    match b
    case Debug => true
    case Info => !a.Debug?
    case Warning => a.Warning? || a.Error? || a.Critical?
    case Error => a.Error? || a.Critical?
    case Critical => a.Critical?
  }

  predicate StartsWithOne(kind: string, prefixes: set<string>) {
    exists prefix :: prefix in prefixes && |prefix| <= |kind| && kind[..|prefix|] == prefix
  }

  /** A filter without criteria matches everything, and each criterion narrows a filter by itself. */
  lemma FilterNarrows(f: EventFilter, e: Event)
    ensures EventFilter(None, None, None, None, Debug, None, None).Matches(e)
    ensures f.sessions.Some? ==> (f.Matches(e) <==> f.(sessions := None).Matches(e) && e.session in f.sessions.value)
    ensures f.execs.Some? ==> (f.Matches(e) <==> f.(execs := None).Matches(e) && exists x :: x in f.execs.value && e.exec == Some(x))
    ensures f.kinds.Some? ==> (f.Matches(e) <==> f.(kinds := None).Matches(e) && e.kind in f.kinds.value)
    ensures f.prefixes.Some? ==>
              (f.Matches(e) <==> f.(prefixes := None).Matches(e) && StartsWithOne(e.kind, f.prefixes.value))
    ensures f.Matches(e) <==> f.(minSeverity := Debug).Matches(e) && AtLeast(e.severity, f.minSeverity)
    ensures f.sources.Some? ==>
              (f.Matches(e) <==> f.(sources := None).Matches(e) && exists a :: a in f.sources.value && e.source == Some(a))
    ensures f.tenants.Some? ==> (f.Matches(e) <==> f.(tenants := None).Matches(e) && e.tenant in f.tenants.value)
  {
    if f.prefixes.Some? {
      assert forall prefix | prefix in f.prefixes.value ::
          prefix <= e.kind <==> |prefix| <= |e.kind| && e.kind[..|prefix|] == prefix;
    }
  }

  function Wrapped(events: seq<Event>): (queue: seq<Option<Event>>)
    ensures |queue| == |events| && forall i | 0 <= i < |queue| :: queue[i] == Some(events[i])
  {
    seq(|events|, i requires 0 <= i < |events| => Some(events[i]))
  }

  /** How many more events a queue takes, of `wanted` ones. */
  function Room(s: Sub, wanted: nat): nat {
    if s.maxSize <= 0 || |s.queue| + wanted <= s.maxSize then wanted
    else if |s.queue| <= s.maxSize then s.maxSize - |s.queue| else 0
  }

  /**
   Offering events one after the other to an open subscription: the matching ones enter the queue in their order, as
   many as there is room for, and the others are dropped. A closed subscription ignores them.
   */
  lemma {:induction false} OfferAllEffect(s: Sub, events: seq<Event>)
    ensures s.closed ==> OfferAll(s, events) == s
    ensures !s.closed ==>
              var t, matching := OfferAll(s, events), Filter(events, (e: Event) => s.filter.Matches(e));
              var n := Room(s, |matching|);
              && n <= |matching| && t.queue == s.queue + Wrapped(matching[..n])
              && t.received == s.received + n && t.dropped == s.dropped + (|matching| - n)
              && t.closed == s.closed && t.filter == s.filter && t.maxSize == s.maxSize && t.taken == s.taken
  {
    if events != [] {
      var n := |events| - 1;
      OfferAllEffect(s, events[..n]);
      hide EventFilter.Matches;
      if !s.closed {
        var before := Filter(events[..n], (e: Event) => s.filter.Matches(e));
        if s.filter.Matches(events[n]) {
          OfferNext(s, OfferAll(s, events[..n]), before, events[n]);
        }
      }
    }
  }

  lemma OfferNext(s: Sub, u: Sub, before: seq<Event>, e: Event)
    requires !u.closed && u.filter.Matches(e) && u.maxSize == s.maxSize
    requires var n := Room(s, |before|); n <= |before| && u.queue == s.queue + Wrapped(before[..n])
    ensures var n, m := Room(s, |before|), Room(s, |before| + 1);
            && m == (if u.Full() then n else n + 1) && m <= |before| + 1
            && Offer(u, e).queue == s.queue + Wrapped((before + [e])[..m])
  {
    var n, m := Room(s, |before|), Room(s, |before| + 1);
    if u.Full() {
      assert (before + [e])[..m] == before[..n];
    } else {
      assert n == |before| && (before + [e])[..m] == before + [e] && before[..n] == before;
      assert Wrapped(before + [e]) == Wrapped(before) + [Some(e)];
    }
  }
}
