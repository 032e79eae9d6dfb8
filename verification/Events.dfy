/** The event stream and its manager, updated in place; each method is tied to its abstract step. */
module Events {
  import opened Prelude
  import opened EventSpec

  class EventSubscription {
    const filter: EventFilter
    const maxSize: int
    var queue: seq<Option<Event>>
    var closed: bool
    var received: nat
    var dropped: nat
    ghost var offered: seq<Event>
    ghost var taken: seq<Event>

    ghost function View(): Sub
      reads this
    {
      Sub(filter, maxSize, queue, closed, received, dropped, offered, taken)
    }

    constructor (filter: EventFilter, maxSize: int)
      ensures View() == NewSub(filter, maxSize)
    {
      this.filter, this.maxSize := filter, maxSize;
      queue, closed, received, dropped := [], false, 0, 0;
      offered, taken := [], [];
    }

    method Deliver(e: Event) returns (delivered: bool)
      modifies this
      ensures View() == Offer(old(View()), e) && delivered == old(View()).Takes(e)
      ensures delivered <==> !old(closed) && filter.Matches(e) && !(maxSize > 0 && |old(queue)| >= maxSize)
      ensures queue == (if delivered then old(queue) + [Some(e)] else old(queue)) && closed == old(closed)
      ensures received == old(received) + (if delivered then 1 else 0)
      ensures dropped == old(dropped) + (if !delivered && !old(closed) && filter.Matches(e) then 1 else 0)
    {
      hide EventFilter.Matches;
      if closed || !filter.Matches(e) {
        return false;
      }
      offered := offered + [e];
      if maxSize > 0 && |queue| >= maxSize {
        dropped := dropped + 1;
        return false;
      }
      queue := queue + [Some(e)];
      received := received + 1;
      delivered := true;
    }

    /** `waiting` tells whether the consumer had begun to wait before a close; an empty queue is a timeout. */
    method Get(waiting: bool) returns (event: Option<Event>)
      modifies this
      ensures View() == Take(old(View()), waiting)
      ensures event.Some? ==> taken == old(taken) + [event.value]
      ensures event.None? ==> taken == old(taken)
      ensures closed == old(closed)
      ensures if old(queue) == [] || (old(closed) && !waiting) then event == None && queue == old(queue)
              else event == old(queue)[0] && queue == old(queue)[1..]
    {
      if queue == [] || (closed && !waiting) {
        return None;
      }
      event := queue[0];
      assert queue[..1] == [event] && [event][..0] == [];
      assert Events([event]) == if event.Some? then [event.value] else [];
      assert taken + [] == taken;
      queue := queue[1..];
      if event.Some? {
        taken := taken + [event.value];
      }
    }

    method Close()
      modifies this
      ensures View() == EventSpec.Close(old(View()))
      ensures closed && queue == old(queue) + (if maxSize > 0 && |old(queue)| >= maxSize then [] else [None])
    {
      closed := true;
      if !(maxSize > 0 && |queue| >= maxSize) {
        queue := queue + [None];
      }
    }
  }

  lemma ListedAdd(subscriptions: map<string, EventSubscription>, table: map<string, Ref>,
                  objects: seq<EventSubscription>, id: string, s: EventSubscription)
    requires EventStream.Listed(subscriptions, table, objects) && id !in subscriptions && s !in objects
    ensures EventStream.Listed(subscriptions[id := s], table[id := |objects|], objects + [s])
  {
  }

  lemma ListedRemove(subscriptions: map<string, EventSubscription>, table: map<string, Ref>,
                     objects: seq<EventSubscription>, id: string)
    requires EventStream.Listed(subscriptions, table, objects) && id in subscriptions
    ensures EventStream.Listed(subscriptions - {id}, table - {id}, objects)
    ensures |table - {id}| == |table| - 1
    ensures id in table && table[id] < |objects| && subscriptions[id] == objects[table[id]]
  {
    assert table == (table - {id})[id := table[id]];
  }

  /** The places of the subscriptions named by `ids`. */
  ghost function Refs(table: map<string, Ref>, ids: set<string>): set<Ref> {
    set id | id in ids && id in table :: table[id]
  }

  lemma RefsAdd(subscriptions: map<string, EventSubscription>, table: map<string, Ref>,
                objects: seq<EventSubscription>, ids: set<string>, id: string)
    requires EventStream.Listed(subscriptions, table, objects) && id in table && id !in ids
    ensures Refs(table, ids + {id}) == Refs(table, ids) + {table[id]} && table[id] !in Refs(table, ids)
    ensures table[id] < |objects| && id in subscriptions && subscriptions[id] == objects[table[id]]
  {
  }

  lemma UnsubscribeElsewhere(h: Hub, id: string, history: map<SessionId, seq<Event>>, replayed: nat)
    ensures Unsubscribe(h.(history := history, replayed := replayed), id) ==
            Unsubscribe(h, id).(history := history, replayed := replayed)
  {
  }

  class EventStream {
    const maxSubscribers: int
    var subscriptions: map<string, EventSubscription>
    var published: nat
    var delivered: nat

    // Every subscription there ever was, and the place of the live ones in that list.
    ghost var objects: seq<EventSubscription>
    ghost var table: map<string, Ref>

    ghost predicate Valid()
      reads this
    {
      Listed(subscriptions, table, objects)
    }

    static ghost predicate Listed(subscriptions: map<string, EventSubscription>, table: map<string, Ref>,
                                  objects: seq<EventSubscription>)
    {
      && table.Keys == subscriptions.Keys
      && (forall id | id in table :: table[id] < |objects| && subscriptions[id] == objects[table[id]])
      && (forall i, j | 0 <= i < j < |objects| :: objects[i] != objects[j])
      && (forall a, b | a in table && b in table && table[a] == table[b] :: a == b)
    }

    static ghost function Views(objects: seq<EventSubscription>): seq<Sub>
      reads objects
    {
      seq(|objects|, i requires 0 <= i < |objects| reads objects => objects[i].View())
    }

    ghost function Subs(): seq<Sub>
      reads this, objects
    {
      Views(objects)
    }

    ghost function View(): Hub
      reads this, objects
    {
      Hub(map[], Subs(), table, published, delivered, 0)
    }

    constructor (maxSubscribers: int)
      ensures Valid() && View() == EMPTY && this.maxSubscribers == maxSubscribers && objects == []
    {
      this.maxSubscribers := maxSubscribers;
      subscriptions, table, objects := map[], map[], [];
      published, delivered := 0, 0;
    }

    method Subscribe(id: string, filter: EventFilter, maxSize: int) returns (sub: Option<EventSubscription>)
      requires Valid()
      modifies this
      ensures Valid() && View() == EventSpec.Subscribe(old(View()), id, filter, maxSize, maxSubscribers)
      ensures sub.Some? <==> CanSubscribe(old(View()), id, maxSubscribers)
      ensures if sub.Some? then fresh(sub.value) && objects == old(objects) + [sub.value] else objects == old(objects)
      ensures sub.Some? <==> id !in old(subscriptions) && |old(subscriptions)| < maxSubscribers
      ensures sub.Some? ==>
                && sub.value.filter == filter && sub.value.maxSize == maxSize && sub.value.queue == [] && !sub.value.closed
                && sub.value.View() == NewSub(filter, maxSize)
                && subscriptions == old(subscriptions)[id := sub.value]
    {
      assert |table| == |table.Keys| == |subscriptions.Keys| == |subscriptions|;
      Counted();
      hide EventStream.Listed, EventStream.Views, NewSub;
      if id in subscriptions || |subscriptions| >= maxSubscribers {
        return None;
      }
      var s := new EventSubscription(filter, maxSize);
      Enlist(id, s);
      sub := Some(s);
    }

    method Enlist(id: string, s: EventSubscription)
      requires Valid() && id !in subscriptions && s !in objects
      modifies `subscriptions, `table, `objects
      ensures Valid() && Subs() == old(Subs()) + [s.View()]
      ensures subscriptions == old(subscriptions)[id := s] && objects == old(objects) + [s]
      ensures table == old(table)[id := |old(objects)|]
    {
      ListedAdd(subscriptions, table, objects, id, s);
      hide EventStream.Listed;
      subscriptions := subscriptions[id := s];
      table := table[id := |objects|];
      objects := objects + [s];
    }

    method Unsubscribe(id: string) returns (removed: bool)
      requires Valid()
      modifies this, objects
      ensures Valid() && View() == EventSpec.Unsubscribe(old(View()), id) && objects == old(objects)
      ensures removed == (id in old(subscriptions)) && subscriptions == old(subscriptions) - {id}
      ensures removed ==> old(subscriptions)[id].closed
      ensures removed == (id in old(table)) && |table| == |old(table)| - (if removed then 1 else 0)
    {
      TableKeys();
      hide EventStream.Listed, EventStream.Views, Close;
      if id !in subscriptions {
        assert subscriptions - {id} == subscriptions;
        return false;
      }
      Drop(id);
      removed := true;
    }

    method Drop(id: string)
      requires Valid() && id in subscriptions
      modifies `subscriptions, `table, objects
      ensures Valid()
      ensures id in old(table) && old(table)[id] < |objects|
      ensures Subs() == old(Subs())[old(table)[id] := Close(old(Subs())[old(table)[id]])]
      ensures table == old(table) - {id} && |table| == |old(table)| - 1
      ensures subscriptions == old(subscriptions) - {id} && old(subscriptions)[id].closed
    {
      ListedRemove(subscriptions, table, objects, id);
      Counted();
      hide EventStream.Listed, EventStream.Views, Close;
      CloseOne(id);
      Delist(id);
    }

    method Delist(id: string)
      requires Valid() && id in subscriptions
      modifies `subscriptions, `table
      ensures Listed(subscriptions, table, objects) && Views(objects) == old(Views(objects))
      ensures table == old(table) - {id} && subscriptions == old(subscriptions) - {id}
    {
      hide EventStream.Listed, EventStream.Views;
      ListedRemove(subscriptions, table, objects, id);
      subscriptions, table := subscriptions - {id}, table - {id};
    }

    method CloseOne(id: string)
      requires Valid() && id in subscriptions
      modifies subscriptions[id]
      ensures Valid() && Subs() == old(Subs())[table[id] := Close(old(Subs())[table[id]])]
      ensures subscriptions[id].closed
    {
      hide Close;
      subscriptions[id].Close();
    }

    lemma Counted()
      ensures |Subs()| == |objects|
    {
    }

    lemma TableKeys()
      requires Valid()
      ensures table.Keys == subscriptions.Keys
    {
    }

    method DeliverTo(id: string, e: Event) returns (took: bool)
      requires Valid() && id in subscriptions
      modifies subscriptions[id]
      ensures Valid() && Subs() == old(Subs())[table[id] := Offer(old(Subs())[table[id]], e)]
      ensures took == old(Subs())[table[id]].Takes(e)
    {
      hide Offer, Sub.Takes;
      took := subscriptions[id].Deliver(e);
    }

    /** Offers the event to every live subscription, in any order, and counts those that took it. */
    method Broadcast(e: Event) returns (count: nat)
      requires Valid()
      modifies objects
      ensures Valid() && Subs() == OfferTo(old(Subs()), table.Values, e)
      ensures count == |Takers(old(Subs()), table.Values, e)|
    {
      hide Sub.Takes, Offer, Takers, EventStream.Listed, EventStream.Views, Refs, OfferTo;
      TableKeys();
      ghost var before := Subs();
      count := 0;
      var todo := subscriptions.Keys;
      ghost var sent: set<string> := {};
      TakersNone(before, e);
      RefsEnds(table);
      while todo != {}
        invariant Valid() && todo !! sent && sent + todo == table.Keys
        invariant Subs() == OfferTo(before, Refs(table, sent), e)
        invariant count == |Takers(before, Refs(table, sent), e)|
        decreases todo
      {
        var id :| id in todo;
        RefsAdd(subscriptions, table, objects, sent, id);
        Counted();
        var took := DeliverTo(id, e);
        TakersSnoc(before, Refs(table, sent), table[id], e);
        OfferSnoc(before, Refs(table, sent), table[id], e);
        if took {
          count := count + 1;
        }
        sent, todo := sent + {id}, todo - {id};
      }
      assert sent == table.Keys;
    }

    method Publish(e: Event) returns (count: nat)
      requires Valid()
      modifies this, objects
      ensures Valid() && View() == EventSpec.Publish(old(View()), e) && objects == old(objects)
      ensures count == |Takers(old(View()).subs, old(table).Values, e)|
    {
      hide Takers, EventStream.Listed, OfferTo;
      published := published + 1;
      count := Broadcast(e);
      delivered := delivered + count;
    }
  }

  lemma TakersNone(subs: seq<Sub>, e: Event)
    ensures Takers(subs, {}, e) == {} && OfferTo(subs, {}, e) == subs
  {
  }

  lemma RefsEnds(table: map<string, Ref>)
    ensures Refs(table, {}) == {} && Refs(table, table.Keys) == table.Values
  {
  }

  lemma OfferSnoc(subs: seq<Sub>, done: set<Ref>, ref: Ref, e: Event)
    requires ref !in done && ref < |subs|
    ensures OfferTo(subs, done, e)[ref] == subs[ref]
    ensures OfferTo(subs, done + {ref}, e) == OfferTo(subs, done, e)[ref := Offer(subs[ref], e)]
  {
  }

  lemma TakersSnoc(subs: seq<Sub>, done: set<Ref>, ref: Ref, e: Event)
    requires ref !in done && ref < |subs|
    ensures |Takers(subs, done + {ref}, e)| == |Takers(subs, done, e)| + if subs[ref].Takes(e) then 1 else 0
  {
    hide Sub.Takes;
    var rest := Takers(subs, done, e);
    assert Takers(subs, done + {ref}, e) == if subs[ref].Takes(e) then rest + {ref} else rest;
  }

  /** Unsubscribing a list of identifiers, one after the other. */
  function UnsubscribeAll(h: Hub, ids: seq<string>): Hub {
    if ids == [] then h else Unsubscribe(UnsubscribeAll(h, ids[..|ids| - 1]), ids[|ids| - 1])
  }

  /** All of the listed subscriptions are gone, and no other. */
  lemma {:induction false} UnsubscribeAllTable(h: Hub, ids: seq<string>)
    requires forall id | id in h.table :: h.table[id] < |h.subs|
    ensures UnsubscribeAll(h, ids).table == h.table - (set id | id in ids)
    ensures |UnsubscribeAll(h, ids).subs| == |h.subs|
  {
    if ids == [] {
      assert (set id | id in ids) == {};
    } else {
      var n := |ids| - 1;
      UnsubscribeAllTable(h, ids[..n]);
      assert ids == ids[..n] + [ids[n]];
      assert (set id | id in ids) == (set id | id in ids[..n]) + {ids[n]};
    }
  }

  /** What the replay of a list of events leaves in a fresh subscription of a session. */
  lemma ReplayedFresh(events: seq<Event>, session: SessionId)
    ensures var s := OfferAll(NewSub(SessionFilter(session), 1000), events);
            var past := Filter(events, (e: Event) => e.session == session);
            var n := if |past| <= 1000 then |past| else 1000;
            s.queue == Wrapped(past[..n]) && s.received == n && s.dropped == |past| - n && !s.closed
  {
    var blank := NewSub(SessionFilter(session), 1000);
    OfferAllEffect(blank, events);
    SameMatches(events, blank.filter, session);
    hide OfferAll, Filter;
    var past := Filter(events, (e: Event) => e.session == session);
    assert [] + Wrapped(past[..Room(blank, |past|)]) == Wrapped(past[..Room(blank, |past|)]);
  }

  lemma {:induction false} SameMatches(events: seq<Event>, filter: EventFilter, session: SessionId)
    requires forall e :: filter.Matches(e) <==> e.session == session
    ensures Filter(events, (e: Event) => filter.Matches(e)) == Filter(events, (e: Event) => e.session == session)
  {
    hide EventFilter.Matches;
    if events != [] {
      SameMatches(events[..|events| - 1], filter, session);
    }
  }

  class EventManager {
    const stream: EventStream
    const maxHistory: int
    var history: map<SessionId, seq<Event>>
    var connSubscriptions: map<string, seq<string>>
    ghost var replayed: nat

    ghost predicate Valid()
      reads this, stream
    {
      stream.Valid()
    }

    ghost function View(): Hub
      reads this, stream, stream.objects
    {
      stream.View().(history := history, replayed := replayed)
    }

    constructor (maxHistory: int, maxSubscribers: int)
      ensures Valid() && View() == EMPTY && this.maxHistory == maxHistory && stream.maxSubscribers == maxSubscribers
      ensures fresh(stream) && connSubscriptions == map[]
    {
      this.maxHistory := maxHistory;
      stream := new EventStream(maxSubscribers);
      history, connSubscriptions, replayed := map[], map[], 0;
    }

    method AddToHistory(e: Event)
      requires Valid()
      modifies `history
      ensures Valid() && View() == EventSpec.AddToHistory(old(View()), e, maxHistory)
    {
      var kept := ListAt(history, e.session) + [e];
      history := history[e.session := if |kept| > maxHistory then Tail(kept, maxHistory) else kept];
    }

    method Publish(e: Event) returns (count: nat)
      requires Valid()
      modifies this, stream, stream.objects
      ensures Valid() && stream.objects == old(stream.objects)
      ensures View() == EventSpec.Publish(EventSpec.AddToHistory(old(View()), e, maxHistory), e)
      ensures count == |Takers(old(View()).subs, old(View()).table.Values, e)|
    {
      hide OfferTo, Takers;
      AddToHistory(e);
      count := stream.Publish(e);
    }

    ghost function Bounds(): Limits
      reads this
    {
      Limits(maxHistory, stream.maxSubscribers)
    }

    /**
     Registers a subscription under the connection and the session, and then, if asked to, replays the history: the
     two steps of the hub. The subscription hears exactly the events of the session; its queue starts with the
     session's history, oldest first, as far as it fits.
     */
    method SubscribeSession(conn: string, session: SessionId, includeHistory: bool)
      returns (sub: Option<EventSubscription>)
      requires Valid()
      modifies this, stream
      ensures Valid()
      ensures var register := Register(conn + ":" + session, SessionFilter(session), 1000);
              View() == if sub.Some? && includeHistory
                        then Next(Bounds(), Next(Bounds(), old(View()), register), ReplayTo(|old(stream.objects)|, session))
                        else Next(Bounds(), old(View()), register)
      ensures sub.Some? <==>
                conn + ":" + session !in old(stream.subscriptions) && |old(stream.subscriptions)| < stream.maxSubscribers
      ensures sub.Some? ==>
                && fresh(sub.value) && stream.subscriptions == old(stream.subscriptions)[conn + ":" + session := sub.value]
                && stream.objects == old(stream.objects) + [sub.value]
                && !sub.value.closed && sub.value.maxSize == 1000
                && (forall e :: sub.value.filter.Matches(e) <==> e.session == session)
      ensures sub.Some? ==>
                var past := Filter(ListAt(old(history), session), (e: Event) => e.session == session);
                var n := if |past| <= 1000 then |past| else 1000;
                if includeHistory
                then sub.value.queue == Wrapped(past[..n]) && sub.value.received == n && sub.value.dropped == |past| - n
                else sub.value.queue == [] && sub.value.received == sub.value.dropped == 0
      ensures history == old(history)
      ensures connSubscriptions ==
              if sub.None? then old(connSubscriptions)
              else old(connSubscriptions)[conn := ListAt(old(connSubscriptions), conn) + [conn + ":" + session]]
    {
      hide OfferAll, EventStream.Listed, EventFilter.Matches, Subscribe, EventSpec.Replay;
      ReplayedFresh(ListAt(history, session), session);
      sub := OpenSession(conn, session);
      if sub.Some? && includeHistory {
        Replay(sub.value, |old(stream.objects)|, session);
      }
    }

    method OpenSession(conn: string, session: SessionId) returns (sub: Option<EventSubscription>)
      requires Valid()
      modifies `connSubscriptions, stream
      ensures Valid()
      ensures View() == EventSpec.Subscribe(old(View()), conn + ":" + session, SessionFilter(session), 1000, stream.maxSubscribers)
      ensures sub.Some? <==>
                conn + ":" + session !in old(stream.subscriptions) && |old(stream.subscriptions)| < stream.maxSubscribers
      ensures if sub.None? then stream.objects == old(stream.objects)
              else
                && fresh(sub.value) && sub.value.View() == NewSub(SessionFilter(session), 1000)
                && stream.subscriptions == old(stream.subscriptions)[conn + ":" + session := sub.value]
                && stream.objects == old(stream.objects) + [sub.value]
      ensures connSubscriptions ==
              if sub.None? then old(connSubscriptions)
              else old(connSubscriptions)[conn := ListAt(old(connSubscriptions), conn) + [conn + ":" + session]]
    {
      hide EventStream.Listed, EventFilter.Matches, EventStream.Views;
      var id := conn + ":" + session;
      sub := stream.Subscribe(id, SessionFilter(session), 1000);
      if sub.Some? {
        connSubscriptions := connSubscriptions[conn := ListAt(connSubscriptions, conn) + [id]];
      }
    }

    /** Delivers the session's history to a subscription, oldest first. */
    method Replay(sub: EventSubscription, ghost ref: Ref, session: SessionId)
      requires Valid() && ref < |stream.objects| && stream.objects[ref] == sub
      modifies this`replayed, sub
      ensures Valid() && View() == EventSpec.Replay(old(View()), ref, session)
      ensures sub.View() == OfferAll(old(sub.View()), ListAt(history, session))
    {
      hide Offer;
      var events := ListAt(history, session);
      ghost var before := sub.View();
      for i := 0 to |events|
        invariant Valid() && sub.View() == OfferAll(before, events[..i])
        invariant replayed == old(replayed)
      {
        assert events[..i + 1][..i] == events[..i];
        var _ := sub.Deliver(events[i]);
      }
      assert events[..|events|] == events;
      OfferAllReceives(before, events);
      replayed := replayed + (sub.received - before.received);
      assert stream.Subs() == old(stream.Subs())[ref := OfferAll(before, events)];
    }

    /** Removes every subscription of a connection and counts those that were still there. */
    method UnsubscribeConnection(conn: string) returns (removed: nat)
      requires Valid()
      modifies this, stream, stream.objects
      ensures Valid() && stream.objects == old(stream.objects)
      ensures connSubscriptions == old(connSubscriptions) - {conn}
      ensures View() == UnsubscribeAll(old(View()), ListAt(old(connSubscriptions), conn))
      ensures removed == |old(View()).table| - |View().table|
    {
      hide EventSpec.Unsubscribe, EventStream.Listed, EventStream.Views;
      var ids := ListAt(connSubscriptions, conn);
      connSubscriptions := connSubscriptions - {conn};
      removed := UnsubscribeListed(ids);
    }

    method UnsubscribeListed(ids: seq<string>) returns (removed: nat)
      requires Valid()
      modifies stream, stream.objects
      ensures Valid() && stream.objects == old(stream.objects)
      ensures View() == UnsubscribeAll(old(View()), ids)
      ensures removed == |old(View()).table| - |View().table|
    {
      hide EventSpec.Unsubscribe, EventStream.Listed, EventStream.Views;
      removed := 0;
      for i := 0 to |ids|
        invariant Valid() && stream.objects == old(stream.objects)
        invariant View() == UnsubscribeAll(old(View()), ids[..i])
        invariant removed == |old(View()).table| - |View().table|
      {
        assert ids[..i + 1][..i] == ids[..i];
        UnsubscribeElsewhere(stream.View(), ids[i], history, replayed);
        var gone := stream.Unsubscribe(ids[i]);
        if gone {
          removed := removed + 1;
        }
      }
      assert ids[..|ids|] == ids;
    }

    method ClearSessionHistory(session: SessionId) returns (count: nat)
      requires Valid()
      modifies `history
      ensures Valid() && View() == old(View()).(history := old(history) - {session})
      ensures count == |ListAt(old(history), session)|
    {
      count := |ListAt(history, session)|;
      history := history - {session};
    }
  }
}
