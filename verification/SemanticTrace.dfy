/**
 The semantic trace store: one list of events per session, trimmed in bulk, a list of global events, and an
 index by execution that refers to positions in the session lists.
 */
module SemanticTrace {
  import opened Prelude
  import opened TraceStore

  type TraceEvent = Record

  datatype Ref = Ref(session: string, position: nat)

  datatype Traces = Traces(bySession: map<string, seq<TraceEvent>>, byExec: map<string, seq<Ref>>, global: seq<TraceEvent>)

  const NO_TRACES := Traces(map[], map[], [])

  function Trim(s: seq<TraceEvent>, max: int): seq<TraceEvent> {
    if |s| > max then From(s, max / 10) else s
  }

  function Added(max: int, s: Traces, e: TraceEvent): Traces {
    if e.session.None? then s.(global := Trim(s.global + [e], max)) else
      var key := e.session.value;
      var events := ListAt(s.bySession, key);
      s.(bySession := s.bySession[key := Trim(events + [e], max)],
         byExec := if NonEmpty(e.exec).None? then s.byExec
                   else s.byExec[e.exec.value := ListAt(s.byExec, e.exec.value) + [Ref(key, |events|)]])
  }

  /** The store after appending the events of `log`. */
  function AfterAll(max: int, log: seq<TraceEvent>): Traces {
    if log == [] then NO_TRACES else Added(max, AfterAll(max, log[..|log| - 1]), log[|log| - 1])
  }

  /** The events that the references of an execution lead to now; a reference past the end leads nowhere. */
  function Follow(bySession: map<string, seq<TraceEvent>>, refs: seq<Ref>): seq<TraceEvent> {
    if refs == [] then [] else
      var ref := refs[|refs| - 1];
      var events := ListAt(bySession, ref.session);
      Follow(bySession, refs[..|refs| - 1]) + (if ref.position < |events| then [events[ref.position]] else [])
  }

  class SemanticTraceStore {
    const maxEvents: int
    var bySession: map<string, seq<TraceEvent>>
    var byExec: map<string, seq<Ref>>
    var global: seq<TraceEvent>

    ghost function View(): Traces
      reads this
    {
      Traces(bySession, byExec, global)
    }

    constructor (maxEvents: int)
      ensures View() == NO_TRACES && this.maxEvents == maxEvents
    {
      this.maxEvents := maxEvents;
      bySession, byExec, global := map[], map[], [];
    }

    method Append(e: TraceEvent)
      modifies this
      ensures View() == Added(maxEvents, old(View()), e)
    {
      if e.session.Some? {
        var key := e.session.value;
        var events := ListAt(bySession, key);
        var i := |events|;
        events := events + [e];
        if e.exec.Some? && e.exec.value != "" {
          byExec := byExec[e.exec.value := ListAt(byExec, e.exec.value) + [Ref(key, i)]];
        }
        if |events| > maxEvents {
          events := From(events, maxEvents / 10);
        }
        bySession := bySession[key := events];
      } else {
        global := global + [e];
        if |global| > maxEvents {
          global := From(global, maxEvents / 10);
        }
      }
    }

    method GetBySession(session: string, exec: Option<string>, tail: int) returns (out: seq<TraceEvent>, truncated: bool)
      ensures var events := ListAt(bySession, session);
              var found := if NonEmpty(exec).Some? then Filter(events, OfExec(exec.value)) else events;
              (out, truncated) == (Tail(found, tail), |found| > tail)
    {
      var events := ListAt(bySession, session);
      if exec.Some? && exec.value != "" {
        events := Filter(events, OfExec(exec.value));
      }
      return Tail(events, tail), |events| > tail;
    }

    method GetByExec(exec: string, tail: int) returns (out: seq<TraceEvent>, truncated: bool)
      ensures var found := Follow(bySession, ListAt(byExec, exec));
              (out, truncated) == (Tail(found, tail), |found| > tail)
    {
      var refs := ListAt(byExec, exec);
      var events: seq<TraceEvent> := [];
      for i := 0 to |refs|
        invariant events == Follow(bySession, refs[..i])
      {
        assert refs[..i + 1][..i] == refs[..i];
        var ofSession := ListAt(bySession, refs[i].session);
        if refs[i].position < |ofSession| {
          events := events + [ofSession[refs[i].position]];
        }
      }
      assert refs[..|refs|] == refs;
      return Tail(events, tail), |events| > tail;
    }
  }

  // ----- What a reference means -----

  /** How many events of a session have been evicted. */
  function Evicted(max: int, log: seq<TraceEvent>, session: string): int {
    |Filter(log, OfSession(session))| - |ListAt(AfterAll(max, log).bySession, session)|
  }

  /** A session's list is a suffix of the events ever appended for it. */
  lemma {:induction false} SessionIsSuffix(max: int, log: seq<TraceEvent>, session: string)
    ensures var (all, kept) := (Filter(log, OfSession(session)), ListAt(AfterAll(max, log).bySession, session));
            |kept| <= |all| && kept == all[|all| - |kept|..]
  {
    if log != [] {
      var n := |log| - 1;
      SessionIsSuffix(max, log[..n], session);
      var all, kept := Filter(log[..n], OfSession(session)), ListAt(AfterAll(max, log[..n]).bySession, session);
      if log[n].session == Some(session) {
        SuffixSnoc(all, kept, log[n], max);
      }
    }
  }

  lemma SuffixSnoc(all: seq<TraceEvent>, kept: seq<TraceEvent>, e: TraceEvent, max: int)
    requires |kept| <= |all| && kept == all[|all| - |kept|..]
    ensures var (all', kept') := (all + [e], Trim(kept + [e], max));
            |kept'| <= |all'| && kept' == all'[|all'| - |kept'|..]
  {
    assert kept + [e] == (all + [e])[|all| - |kept|..];
  }

  predicate Unbound(e: TraceEvent) {
    e.session.None?
  }

  predicate EndsWith(all: seq<TraceEvent>, kept: seq<TraceEvent>) {
    |kept| <= |all| && kept == all[|all| - |kept|..]
  }

  /** The global list is a suffix of the events without a session. */
  lemma {:induction false} GlobalIsSuffix(max: int, log: seq<TraceEvent>)
    ensures EndsWith(Filter(log, Unbound), AfterAll(max, log).global)
  {
    if log != [] {
      hide Trim, Filter, Added, Unbound, EndsWith;
      var n := |log| - 1;
      GlobalIsSuffix(max, log[..n]);
      FilterLast(log, Unbound);
      GlobalStep(max, AfterAll(max, log[..n]), log[n]);
      EndsWithSnoc(Filter(log[..n], Unbound), AfterAll(max, log[..n]).global, log[n], max);
    }
  }

  lemma EndsWithSnoc(all: seq<TraceEvent>, kept: seq<TraceEvent>, e: TraceEvent, max: int)
    requires EndsWith(all, kept)
    ensures EndsWith(all + [e], Trim(kept + [e], max))
  {
    SuffixSnoc(all, kept, e, max);
  }

  lemma GlobalStep(max: int, s: Traces, e: TraceEvent)
    ensures Added(max, s, e).global == if Unbound(e) then Trim(s.global + [e], max) else s.global
  {
  }

  /** How many of `n` events appended to a list are kept: as many as a trace store with the same limit keeps. */
  function KeptOf(max: int, n: nat): int
    requires max >= 0
  {
    if max >= 10 then Kept(max, n) else n
  }

  /** How much is evicted of a session's list and of the global list; a limit from zero to nine evicts nothing. */
  lemma TrimSchedule(max: int, log: seq<TraceEvent>, session: string)
    requires max >= 0
    ensures |ListAt(AfterAll(max, log).bySession, session)| == KeptOf(max, |Filter(log, OfSession(session))|)
    ensures |AfterAll(max, log).global| == KeptOf(max, |Filter(log, Unbound)|)
  {
    SessionSchedule(max, log, session);
    GlobalSchedule(max, log);
  }

  lemma {:induction false} SessionSchedule(max: int, log: seq<TraceEvent>, session: string)
    requires max >= 0
    ensures |ListAt(AfterAll(max, log).bySession, session)| == KeptOf(max, |Filter(log, OfSession(session))|)
  {
    if log != [] {
      hide Trim, KeptOf, Added, Filter, AfterAll;
      var n := |log| - 1;
      AfterAllLast(max, log);
      SessionSchedule(max, log[..n], session);
      FilterLast(log, OfSession(session));
      SessionStep(max, AfterAll(max, log[..n]), log[n], session);
      TrimLength(max, ListAt(AfterAll(max, log[..n]).bySession, session), |Filter(log[..n], OfSession(session))|, log[n]);
    }
  }

  lemma {:induction false} GlobalSchedule(max: int, log: seq<TraceEvent>)
    requires max >= 0
    ensures |AfterAll(max, log).global| == KeptOf(max, |Filter(log, Unbound)|)
  {
    if log != [] {
      hide Trim, KeptOf, Added, Filter, Unbound, AfterAll;
      var n := |log| - 1;
      AfterAllLast(max, log);
      GlobalSchedule(max, log[..n]);
      FilterLast(log, Unbound);
      GlobalStep(max, AfterAll(max, log[..n]), log[n]);
      TrimLength(max, AfterAll(max, log[..n]).global, |Filter(log[..n], Unbound)|, log[n]);
    }
  }

  lemma AfterAllLast(max: int, log: seq<TraceEvent>)
    requires log != []
    ensures AfterAll(max, log) == Added(max, AfterAll(max, log[..|log| - 1]), log[|log| - 1])
  {
  }

  lemma SessionStep(max: int, s: Traces, e: TraceEvent, session: string)
    ensures ListAt(Added(max, s, e).bySession, session) ==
            if e.session == Some(session) then Trim(ListAt(s.bySession, session) + [e], max) else ListAt(s.bySession, session)
  {
    hide Trim;
  }

  lemma TrimLength(max: int, kept: seq<TraceEvent>, n: nat, e: TraceEvent)
    requires max >= 0 && |kept| == KeptOf(max, n)
    ensures |Trim(kept + [e], max)| == KeptOf(max, n + 1)
  {
    if max >= 10 {
      KeptStep(max, n + 1);
      hide Kept;
    }
  }

  predicate Traced(exec: string, e: TraceEvent) {
    e.session.Some? && exec != "" && e.exec == Some(exec)
  }

  function OfTraced(exec: string): TraceEvent -> bool {
    (e: TraceEvent) => Traced(exec, e)
  }

  /** The references of an execution, one for each of its events, in order of appending. */
  function RefsOf(max: int, log: seq<TraceEvent>, exec: string): seq<Ref> {
    if log == [] then [] else
      var n := |log| - 1;
      RefsOf(max, log[..n], exec) +
      (if Traced(exec, log[n])
       then [Ref(log[n].session.value, |ListAt(AfterAll(max, log[..n]).bySession, log[n].session.value)|)] else [])
  }

  lemma {:induction false} IndexHolds(max: int, log: seq<TraceEvent>, exec: string)
    ensures ListAt(AfterAll(max, log).byExec, exec) == RefsOf(max, log, exec)
  {
    if log != [] {
      IndexHolds(max, log[..|log| - 1], exec);
    }
  }

  /** No event of the execution has seen an eviction in its session since it was appended. */
  ghost predicate Steady(max: int, log: seq<TraceEvent>, exec: string, upTo: nat)
    requires upTo <= |log|
  {
    forall i | 0 <= i < upTo && Traced(exec, log[i]) ::
      Evicted(max, log, log[i].session.value) == Evicted(max, log[..i], log[i].session.value)
  }

  ghost predicate Distinct(log: seq<TraceEvent>) {
    forall i, j | 0 <= i < j < |log| :: log[i] != log[j]
  }

  /** The reference made for event `i`. */
  function RefAt(max: int, log: seq<TraceEvent>, i: nat): Ref
    requires i < |log| && log[i].session.Some?
  {
    Ref(log[i].session.value, |ListAt(AfterAll(max, log[..i]).bySession, log[i].session.value)|)
  }

  /** The event that the reference made for event `i` leads to: the one itself if nothing was evicted, else not. */
  lemma FollowOne(max: int, log: seq<TraceEvent>, i: nat)
    requires i < |log| && log[i].session.Some? && Distinct(log)
    ensures var session := log[i].session.value;
            var (events, ref) := (ListAt(AfterAll(max, log).bySession, session), RefAt(max, log, i));
            ref.session == session &&
            (ref.position < |events| && events[ref.position] == log[i] <==> Evicted(max, log, session) == Evicted(max, log[..i], session))
  {
    var session := log[i].session.value;
    var all := Filter(log, OfSession(session));
    SessionIsSuffix(max, log, session);
    SessionIsSuffix(max, log[..i], session);
    FilterPlace(log, i, OfSession(session));
    FilterDistinct(log, OfSession(session));
  }

  lemma {:induction false} FilterPlace(log: seq<TraceEvent>, i: nat, p: TraceEvent -> bool)
    requires i < |log| && p(log[i])
    ensures var k := |Filter(log[..i], p)|; k < |Filter(log, p)| && Filter(log, p)[k] == log[i]
  {
    assert log[..i + 1][..i] == log[..i];
    FilterPrefix(log, i + 1, p);
  }

  lemma {:induction false} FilterDistinct(log: seq<TraceEvent>, p: TraceEvent -> bool)
    requires Distinct(log)
    ensures Distinct(Filter(log, p))
  {
    if log != [] {
      var n := |log| - 1;
      FilterDistinct(log[..n], p);
      FilterIn(log[..n], p, log[n]);
    }
  }

  /** Following the references of the first `upTo` events, against the events themselves. */
  lemma {:induction false} FollowExactly(max: int, log: seq<TraceEvent>, exec: string, upTo: nat)
    requires Distinct(log) && upTo <= |log|
    ensures var found := Follow(AfterAll(max, log).bySession, RefsOf(max, log[..upTo], exec));
            var wanted := Filter(log[..upTo], OfTraced(exec));
            |found| <= |wanted| && (found == wanted <==> Steady(max, log, exec, upTo))
  {
    if upTo == 0 {
      assert log[..0] == [];
    } else {
      hide AfterAll, Evicted, RefsOf, RefAt, Follow, Filter, Steady, Distinct;
      var i := upTo - 1;
      FollowExactly(max, log, exec, i);
      OneMore(max, log, exec, i);
      if Traced(exec, log[i]) {
        FollowOne(max, log, i);
        FollowSnoc(AfterAll(max, log).bySession, RefsOf(max, log[..i], exec), RefAt(max, log, i),
                   Filter(log[..i], OfTraced(exec)), log[i]);
      }
    }
  }

  lemma OneMore(max: int, log: seq<TraceEvent>, exec: string, i: nat)
    requires i < |log|
    ensures RefsOf(max, log[..i + 1], exec) ==
            if Traced(exec, log[i]) then RefsOf(max, log[..i], exec) + [RefAt(max, log, i)] else RefsOf(max, log[..i], exec)
    ensures Filter(log[..i + 1], OfTraced(exec)) ==
            if Traced(exec, log[i]) then Filter(log[..i], OfTraced(exec)) + [log[i]] else Filter(log[..i], OfTraced(exec))
    ensures Steady(max, log, exec, i + 1) <==>
            Steady(max, log, exec, i) && (Traced(exec, log[i]) ==>
              Evicted(max, log, log[i].session.value) == Evicted(max, log[..i], log[i].session.value))
  {
    hide AfterAll, Evicted;
    assert log[..i + 1][..i] == log[..i];
  }

  lemma FollowSnoc(lists: map<string, seq<TraceEvent>>, refs: seq<Ref>, ref: Ref, wanted: seq<TraceEvent>, e: TraceEvent)
    requires |Follow(lists, refs)| <= |wanted|
    ensures var found := Follow(lists, refs + [ref]);
            var events := ListAt(lists, ref.session);
            && |found| <= |wanted| + 1
            && (found == wanted + [e] <==> Follow(lists, refs) == wanted && ref.position < |events| && events[ref.position] == e)
  {
    var found, events := Follow(lists, refs), ListAt(lists, ref.session);
    assert (refs + [ref])[..|refs|] == refs;
    if ref.position < |events| && found + [events[ref.position]] == wanted + [e] {
      assert |found| == |wanted|;
      assert found == (found + [events[ref.position]])[..|found|] == (wanted + [e])[..|wanted|] == wanted;
      assert events[ref.position] == (found + [events[ref.position]])[|found|] == e;
    }
  }

  /**
   The events found for an execution are exactly its session events, in order of appending across all sessions,
   if and only if no session has evicted anything since an event of the execution was appended to it.
   */
  lemma ByExecExactly(max: int, log: seq<TraceEvent>, exec: string)
    requires Distinct(log)
    ensures var s := AfterAll(max, log);
            Follow(s.bySession, ListAt(s.byExec, exec)) == Filter(log, OfTraced(exec)) <==> Steady(max, log, exec, |log|)
  {
    assert log[..|log|] == log;
    IndexHolds(max, log, exec);
    FollowExactly(max, log, exec, |log|);
  }

  /** A session whose log never passed the limit has evicted nothing. */
  lemma {:induction false} NothingEvicted(max: int, log: seq<TraceEvent>, session: string)
    requires |Filter(log, OfSession(session))| <= max
    ensures Evicted(max, log, session) == 0
  {
    if log != [] {
      NothingEvicted(max, log[..|log| - 1], session);
    }
  }

  /** So a query is right for as long as the sessions involved stay within the limit. */
  lemma ByExecWhileSmall(max: int, log: seq<TraceEvent>, exec: string)
    requires Distinct(log)
    requires forall i | 0 <= i < |log| && Traced(exec, log[i]) :: |Filter(log, OfSession(log[i].session.value))| <= max
    ensures var s := AfterAll(max, log);
            Follow(s.bySession, ListAt(s.byExec, exec)) == Filter(log, OfTraced(exec))
  {
    forall i | 0 <= i < |log| && Traced(exec, log[i])
      ensures Evicted(max, log, log[i].session.value) == Evicted(max, log[..i], log[i].session.value)
    {
      var session := log[i].session.value;
      NothingEvicted(max, log, session);
      FilterPrefix(log, i, OfSession(session));
      NothingEvicted(max, log[..i], session);
    }
    ByExecExactly(max, log, exec);
  }

  /** It is wrong after an eviction: a limit of ten, and eleven events of one session and one execution. */
  lemma ByExecWrongAfterEviction() returns (log: seq<TraceEvent>)
    ensures var s := AfterAll(10, log);
            Distinct(log) && |log| == 11 && Follow(s.bySession, ListAt(s.byExec, "x")) != Filter(log, OfTraced("x"))
  {
    log := seq(11, i requires 0 <= i => Record(i, "", Some("s"), Some("x"), "", 0.0));
    var first := log[..10];
    FilterAll(log, OfSession("s"));
    FilterAll(first, OfSession("s"));
    NothingEvicted(10, first, "s");
    assert AfterAll(10, log) == Added(10, AfterAll(10, first), log[10]);
    assert Evicted(10, log, "s") == 1;
    assert log[..0] == [] && Evicted(10, [], "s") == 0;
    assert Traced("x", log[0]);
    assert !Steady(10, log, "x", 11);
    ByExecExactly(10, log, "x");
  }
}
