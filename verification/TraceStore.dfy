/** The in-memory trace store: an append log that is trimmed in bulk, with two position indexes. */
module TraceStore {
  import opened Prelude

  datatype Record = Record(
    eventId: nat, tenant: string, session: Option<string>, exec: Option<string>, kind: string, at: real)

  datatype Store = Store(events: seq<Record>, bySession: map<string, seq<nat>>, byExec: map<string, seq<nat>>)

  const EMPTY := Store([], map[], map[])

  /** Python's `s[k:]`, which for a negative `k` keeps the last `-k` elements. */
  function From<T>(s: seq<T>, k: int): (t: seq<T>)
    ensures |t| <= |s| && t == s[|s| - |t|..]
    ensures |t| == if k < 0 then (if -k < |s| then -k else |s|) else if k < |s| then |s| - k else 0
  {
    if k < 0 then Tail(s, -k) else if k <= |s| then s[k..] else []
  }

  function Noted(index: map<string, seq<nat>>, key: Option<string>, i: nat): map<string, seq<nat>> {
    if key.Some? then index[key.value := ListAt(index, key.value) + [i]] else index
  }

  /** An absent or empty execution identifier is not indexed and stands for no filter. */
  function NonEmpty(key: Option<string>): Option<string> {
    if key == Some("") then None else key
  }

  /** When the log is over its limit a tenth of the limit goes, and both indexes are emptied, not rebuilt. */
  function Appended(max: int, s: Store, r: Record): Store {
    var i := |s.events|;
    if i + 1 > max then Store(From(s.events + [r], max / 10), map[], map[])
    else Store(s.events + [r], Noted(s.bySession, r.session, i), Noted(s.byExec, NonEmpty(r.exec), i))
  }

  /** The store after appending the records of `log`. */
  function After(max: int, log: seq<Record>): Store {
    if log == [] then EMPTY else Appended(max, After(max, log[..|log| - 1]), log[|log| - 1])
  }

  class InMemoryTraceStore {
    const maxEvents: int
    var events: seq<Record>
    var bySession: map<string, seq<nat>>
    var byExec: map<string, seq<nat>>

    ghost function View(): Store
      reads this
    {
      Store(events, bySession, byExec)
    }

    constructor (maxEvents: int)
      ensures View() == EMPTY && this.maxEvents == maxEvents
    {
      this.maxEvents := maxEvents;
      events, bySession, byExec := [], map[], map[];
    }

    method Append(record: Record)
      modifies this
      ensures View() == Appended(maxEvents, old(View()), record)
    {
      var i := |events|;
      events := events + [record];
      if record.session.Some? {
        bySession := bySession[record.session.value := ListAt(bySession, record.session.value) + [i]];
      }
      if record.exec.Some? && record.exec.value != "" {
        byExec := byExec[record.exec.value := ListAt(byExec, record.exec.value) + [i]];
      }
      if |events| > maxEvents {
        events := From(events, maxEvents / 10);
        bySession, byExec := map[], map[];
      }
    }

    /** The last `limit` records of a session, of an execution, of both, or of all, and whether there were more. */
    method Tail(session: Option<string>, exec: Option<string>, limit: int) returns (out: seq<Record>, truncated: bool)
      ensures (out, truncated) == Latest(View(), session, exec, limit)
    {
      var found: seq<Record>;
      if session.Some? {
        found := Pick(ListAt(bySession, session.value));
        if exec.Some? && exec.value != "" {
          found := Filter(found, OfExec(exec.value));
        }
      } else if exec.Some? && exec.value != "" {
        found := Pick(ListAt(byExec, exec.value));
      } else {
        found := events;
      }
      return Prelude.Tail(found, limit), |found| > limit;
    }

    /** The records at the listed positions, leaving out positions that do not exist. */
    method Pick(positions: seq<nat>) returns (out: seq<Record>)
      ensures out == Resolve(events, positions)
    {
      out := [];
      for i := 0 to |positions|
        invariant out == Resolve(events, positions[..i])
      {
        assert positions[..i + 1][..i] == positions[..i];
        if positions[i] < |events| {
          out := out + [events[positions[i]]];
        }
      }
      assert positions[..|positions|] == positions;
    }

    /** The oldest records that meet `wanted`; a limit below one still lets one record through. */
    method Query(wanted: Record -> bool, limit: int) returns (out: seq<Record>)
      ensures var all := Filter(events, wanted);
              out == if |all| <= limit then all else if limit < 1 then all[..if all == [] then 0 else 1] else all[..limit]
    {
      out := [];
      assert events[..|events|] == events;
      for i := 0 to |events|
        invariant out == Filter(events[..i], wanted)
        invariant out != [] ==> |out| < limit
      {
        assert events[..i + 1][..i] == events[..i];
        if wanted(events[i]) {
          out := out + [events[i]];
          if |out| >= limit {
            FilterPrefix(events, i + 1, wanted);
            return;
          }
        }
      }
    }
  }

  lemma {:induction false} FilterPrefix<T>(s: seq<T>, i: nat, p: T -> bool)
    requires i <= |s|
    ensures Filter(s[..i], p) <= Filter(s, p)
    decreases |s|
  {
    if i < |s| {
      FilterPrefix(s[..|s| - 1], i, p);
      assert s[..|s| - 1][..i] == s[..i];
    } else {
      assert s[..i] == s;
    }
  }

  /** The elements at the listed positions that exist. */
  function Resolve<T>(s: seq<T>, positions: seq<nat>): seq<T> {
    if positions == [] then [] else
      var n := |positions| - 1;
      Resolve(s, positions[..n]) + (if positions[n] < |s| then [s[positions[n]]] else [])
  }

  function OfSession(session: string): Record -> bool {
    (r: Record) => r.session == Some(session)
  }

  function OfExec(exec: string): Record -> bool {
    (r: Record) => r.exec == Some(exec)
  }

  function Latest(s: Store, session: Option<string>, exec: Option<string>, limit: int): (seq<Record>, bool) {
    var found :=
      if session.Some? then
        var ofSession := Resolve(s.events, ListAt(s.bySession, session.value));
        if NonEmpty(exec).Some? then Filter(ofSession, OfExec(exec.value)) else ofSession
      else if NonEmpty(exec).Some? then Resolve(s.events, ListAt(s.byExec, exec.value))
      else s.events;
    (Tail(found, limit), |found| > limit)
  }

  // ----- What the indexes mean -----

  /** The positions from `base` on whose records satisfy `p`. */
  function Positions<T>(s: seq<T>, base: nat, p: T -> bool): seq<nat> {
    if |s| <= base then [] else
      var n := |s| - 1;
      Positions(s[..n], base, p) + (if p(s[n]) then [n] else [])
  }

  lemma PositionsLast<T>(s: seq<T>, base: nat, p: T -> bool)
    requires |s| > base
    ensures var n := |s| - 1; var before := Positions(s[..n], base, p);
            Positions(s, base, p) == if p(s[n]) then before + [n] else before
  {
  }

  /** They are in range, match, and strictly increase. */
  lemma {:induction false} PositionsIncrease<T>(s: seq<T>, base: nat, p: T -> bool)
    ensures var out := Positions(s, base, p);
            && (forall i | 0 <= i < |out| :: base <= out[i] < |s| && p(s[out[i]]))
            && (forall i, j | 0 <= i < j < |out| :: out[i] < out[j])
  {
    if |s| > base {
      var n := |s| - 1;
      PositionsLast(s, base, p);
      PositionsIncrease(s[..n], base, p);
      hide Positions;
      var before := Positions(s[..n], base, p);
      assert forall i | 0 <= i < |before| :: s[..n][before[i]] == s[before[i]];
    }
  }

  /** And no matching one is missing. */
  lemma {:induction false} PositionsAll<T>(s: seq<T>, base: nat, p: T -> bool, k: nat)
    requires base <= k < |s| && p(s[k])
    ensures k in Positions(s, base, p)
  {
    var n := |s| - 1;
    PositionsLast(s, base, p);
    if k < n {
      PositionsAll(s[..n], base, p, k);
    }
  }

  lemma {:induction false} PositionsFilter<T>(s: seq<T>, base: nat, p: T -> bool)
    requires base <= |s|
    ensures Resolve(s, Positions(s, base, p)) == Filter(s[base..], p)
  {
    if |s| > base {
      hide Positions, Filter, Resolve;
      var n := |s| - 1;
      PositionsLast(s, base, p);
      FilterLast(s[base..], p);
      assert s[base..][..n - base] == s[..n][base..];
      PositionsFilter(s[..n], base, p);
      PositionsIncrease(s[..n], base, p);
      AtPrefix(s, n, Positions(s[..n], base, p));
      ResolveSnoc(s, Positions(s[..n], base, p), n);
    }
  }

  lemma FilterLast<T>(s: seq<T>, p: T -> bool)
    requires s != []
    ensures var n := |s| - 1; Filter(s, p) == if p(s[n]) then Filter(s[..n], p) + [s[n]] else Filter(s[..n], p)
  {
  }

  lemma ResolveSnoc<T>(s: seq<T>, positions: seq<nat>, i: nat)
    requires i < |s|
    ensures Resolve(s, positions + [i]) == Resolve(s, positions) + [s[i]]
  {
    assert (positions + [i])[..|positions|] == positions;
  }

  lemma {:induction false} AtPrefix<T>(s: seq<T>, n: nat, positions: seq<nat>)
    requires n <= |s| && forall i | 0 <= i < |positions| :: positions[i] < n
    ensures Resolve(s, positions) == Resolve(s[..n], positions)
  {
    if positions != [] {
      AtPrefix(s, n, positions[..|positions| - 1]);
    }
  }

  /** How many of the records in the store are older than the last eviction. */
  function Base(max: int, log: seq<Record>): nat {
    if log == [] then 0
    else if |After(max, log[..|log| - 1]).events| + 1 > max then |After(max, log).events|
    else Base(max, log[..|log| - 1])
  }

  ghost predicate IndexAgrees(index: map<string, seq<nat>>, events: seq<Record>, base: nat, p: string -> (Record -> bool)) {
    forall key :: ListAt(index, key) == Positions(events, base, p(key))
  }

  lemma NotedAgrees(index: map<string, seq<nat>>, events: seq<Record>, base: nat, p: string -> (Record -> bool),
                    r: Record, key: Option<string>)
    requires base <= |events| && IndexAgrees(index, events, base, p)
    requires forall k :: p(k)(r) <==> key == Some(k)
    ensures IndexAgrees(Noted(index, key, |events|), events + [r], base, p)
  {
    assert (events + [r])[..|events|] == events;
    assert forall k: string :: Positions(events, base, p(k)) + [] == Positions(events, base, p(k));
  }

  /** No record carries the empty string for an execution it belongs to. */
  function OfRealExec(exec: string): Record -> bool {
    (r: Record) => exec != "" && r.exec == Some(exec)
  }

  /** The records are a suffix of the log, and both indexes list exactly the matching positions from `base` on. */
  ghost predicate Agrees(s: Store, base: nat, log: seq<Record>) {
    && base <= |s.events| <= |log| && s.events == log[|log| - |s.events|..]
    && IndexAgrees(s.bySession, s.events, base, OfSession)
    && IndexAgrees(s.byExec, s.events, base, OfRealExec)
  }

  /**
   After any log: the records are a suffix of the log, and both indexes list, in increasing order, exactly
   the matching positions appended since the last eviction.
   */
  lemma {:induction false} StoreAgrees(max: int, log: seq<Record>)
    ensures Agrees(After(max, log), Base(max, log), log)
  {
    if log != [] {
      hide Agrees, Appended;
      StoreAgrees(max, log[..|log| - 1]);
      AgreesOn(max, After(max, log[..|log| - 1]), Base(max, log[..|log| - 1]), log);
    } else {
      NoneIndexed([], OfSession);
      NoneIndexed([], OfRealExec);
    }
  }

  lemma AgreesOn(max: int, s: Store, base: nat, log: seq<Record>)
    requires log != [] && Agrees(s, base, log[..|log| - 1])
    ensures var t := Appended(max, s, log[|log| - 1]);
            Agrees(t, if |s.events| + 1 > max then |t.events| else base, log)
  {
    hide IndexAgrees, Appended;
    AppendAgrees(max, s, base, log[|log| - 1]);
    AppendSuffix(max, s, log, |log| - 1);
  }

  lemma NoneIndexed(events: seq<Record>, p: string -> (Record -> bool))
    ensures IndexAgrees(map[], events, |events|, p)
  {
  }

  lemma AppendAgrees(max: int, s: Store, base: nat, r: Record)
    requires base <= |s.events|
    requires IndexAgrees(s.bySession, s.events, base, OfSession) && IndexAgrees(s.byExec, s.events, base, OfRealExec)
    ensures var t := Appended(max, s, r);
            var base' := if |s.events| + 1 > max then |t.events| else base;
            IndexAgrees(t.bySession, t.events, base', OfSession) && IndexAgrees(t.byExec, t.events, base', OfRealExec)
  {
    hide IndexAgrees, From, Noted;
    if |s.events| + 1 <= max {
      NotedAgrees(s.bySession, s.events, base, OfSession, r, r.session);
      NotedAgrees(s.byExec, s.events, base, OfRealExec, r, NonEmpty(r.exec));
    } else {
      NoneIndexed(Appended(max, s, r).events, OfSession);
      NoneIndexed(Appended(max, s, r).events, OfRealExec);
    }
  }

  lemma AppendSuffix(max: int, s: Store, log: seq<Record>, n: nat)
    requires |log| == n + 1 && |s.events| <= n && s.events == log[n - |s.events|..n]
    ensures var t := Appended(max, s, log[n]);
            && |t.events| <= |log| && t.events == log[|log| - |t.events|..]
            && (|s.events| + 1 <= max ==> |t.events| == |s.events| + 1)
  {
    hide Noted;
    var all := s.events + [log[n]];
    assert all == log[|log| - |all|..];
  }

  /** What a query by session or execution is about: the records since the last eviction. */
  function Recent(max: int, log: seq<Record>): seq<Record> {
    var s, base := After(max, log), Base(max, log);
    if base <= |s.events| then s.events[base..] else []
  }

  predicate Wanted(session: Option<string>, exec: Option<string>, r: Record) {
    && (session.Some? ==> r.session == session)
    && (NonEmpty(exec).Some? ==> r.exec == exec)
  }

  /**
   A query by session, execution or both returns the last `limit` matching records appended since the last
   eviction, and tells truly whether there were more; without a filter it is about all stored records.
   */
  lemma LatestIsLast(max: int, log: seq<Record>, session: Option<string>, exec: Option<string>, limit: int)
    ensures var filtered := session.Some? || NonEmpty(exec).Some?;
            var all := Filter(if filtered then Recent(max, log) else After(max, log).events, r => Wanted(session, exec, r));
            Latest(After(max, log), session, exec, limit) == (Tail(all, limit), |all| > limit)
  {
    StoreAgrees(max, log);
    hide IndexAgrees, Base, After, Filter, Resolve, Tail;
    var s, base := After(max, log), Base(max, log);
    if session.Some? {
      BySession(s, base, session.value, exec);
    } else if NonEmpty(exec).Some? {
      ByExec(s, base, exec.value);
    } else {
      FilterAll(s.events, r => Wanted(session, exec, r));
    }
  }

  /**
   When a filtered query agrees with the same query over all stored records: nothing older than the last eviction
   matches, or the recent matching records alone fill the limit. (A limit of zero takes everything, and a negative
   one drops records from the front.)
   */
  lemma FilteredTailRight(max: int, log: seq<Record>, session: Option<string>, exec: Option<string>, limit: int)
    requires session.Some? || NonEmpty(exec).Some?
    ensures var s, base := After(max, log), Base(max, log);
            base <= |s.events| &&
            var stale := Filter(s.events[..base], (r: Record) => Wanted(session, exec, r));
            var recent := Filter(Recent(max, log), (r: Record) => Wanted(session, exec, r));
            var all := Filter(s.events, (r: Record) => Wanted(session, exec, r));
            && (Latest(s, session, exec, limit).0 == Tail(all, limit) <==>
                  stale == [] || (limit > 0 && |recent| >= limit) || (limit < 0 && |all| <= -limit))
            && (Latest(s, session, exec, limit) == (Tail(all, limit), |all| > limit) <==>
                  stale == [] || (limit > 0 && |recent| > limit) || (limit < 0 && |all| <= -limit))
  {
    StoreAgrees(max, log);
    LatestIsLast(max, log, session, exec, limit);
    hide Latest, Filter, IndexAgrees, After, Base, Tail;
    var s, base := After(max, log), Base(max, log);
    var wanted := (r: Record) => Wanted(session, exec, r);
    assert s.events[..base] + s.events[base..] == s.events;
    FilterConcat(s.events[..base], s.events[base..], wanted);
    TailOfSum(Filter(s.events[..base], wanted), Filter(s.events[base..], wanted), limit);
  }

  lemma {:induction false} FilterConcat<T>(a: seq<T>, b: seq<T>, p: T -> bool)
    ensures Filter(a + b, p) == Filter(a, p) + Filter(b, p)
    decreases |b|
  {
    if b == [] {
      assert a + b == a;
    } else {
      var n := |b| - 1;
      FilterConcat(a, b[..n], p);
      assert a + b == (a + b[..n]) + [b[n]] && b == b[..n] + [b[n]];
      FilterSnoc(a + b[..n], b[n], p);
      FilterSnoc(b[..n], b[n], p);
    }
  }

  lemma TailOfSum<T>(a: seq<T>, b: seq<T>, n: int)
    ensures Tail(b, n) == Tail(a + b, n) <==> a == [] || (n > 0 && |b| >= n) || (n < 0 && |a + b| <= -n)
  {
    if n > 0 && |b| >= n {
      assert (a + b)[|a + b| - n..] == b[|b| - n..];
    } else if a == [] {
      assert a + b == b;
    }
  }

  /** A limit of ten and eleven records of one session: ten are stored, and the session's query finds none. */
  lemma FilteredTailWrong()
    ensures |ELEVEN| == 11 && |After(10, ELEVEN).events| == 10
    ensures forall r | r in After(10, ELEVEN).events :: r.session == Some("s")
    ensures Latest(After(10, ELEVEN), Some("s"), None, 10) == ([], false)
    ensures Latest(After(10, ELEVEN), None, None, 10).0 == After(10, ELEVEN).events
  {
    hide After, Recent, Filter, Resolve;
    ElevenStored();
    LatestIsLast(10, ELEVEN, Some("s"), None, 10);
    FilterNone((r: Record) => Wanted(Some("s"), None, r));
  }

  const ELEVEN := seq(11, i requires 0 <= i => Record(i, "", Some("s"), None, "", 0.0))

  lemma ElevenStored()
    ensures |After(10, ELEVEN).events| == 10 && Recent(10, ELEVEN) == []
    ensures forall r | r in After(10, ELEVEN).events :: r.session == Some("s")
  {
    assert Kept(10, 11) == 10;
    hide After, Base, Recent, IndexAgrees, Kept;
    EvictionSchedule(10, ELEVEN);
    StoreAgrees(10, ELEVEN);
    assert |Recent(10, ELEVEN)| == 0;
  }

  lemma FilterNone<T>(p: T -> bool)
    ensures Filter([], p) == []
  {
  }

  lemma BySession(s: Store, base: nat, session: string, exec: Option<string>)
    requires base <= |s.events| && IndexAgrees(s.bySession, s.events, base, OfSession)
    ensures var found := Resolve(s.events, ListAt(s.bySession, session));
            Filter(s.events[base..], r => Wanted(Some(session), exec, r)) ==
            if NonEmpty(exec).Some? then Filter(found, OfExec(exec.value)) else found
  {
    hide Resolve, Filter, Positions;
    PositionsFilter(s.events, base, OfSession(session));
    if NonEmpty(exec).Some? {
      FilterTwice(s.events[base..], OfSession(session), OfExec(exec.value), r => Wanted(Some(session), exec, r));
    } else {
      SameFilter(s.events[base..], OfSession(session), r => Wanted(Some(session), exec, r));
    }
  }

  lemma ByExec(s: Store, base: nat, exec: string)
    requires base <= |s.events| && exec != "" && IndexAgrees(s.byExec, s.events, base, OfRealExec)
    ensures Filter(s.events[base..], r => Wanted(None, Some(exec), r)) == Resolve(s.events, ListAt(s.byExec, exec))
  {
    hide Resolve, Filter, Positions;
    PositionsFilter(s.events, base, OfRealExec(exec));
    SameFilter(s.events[base..], OfRealExec(exec), r => Wanted(None, Some(exec), r));
  }

  lemma {:induction false} SameFilter<T>(s: seq<T>, p: T -> bool, q: T -> bool)
    requires forall x | x in s :: p(x) == q(x)
    ensures Filter(s, p) == Filter(s, q)
  {
    if s != [] {
      SameFilter(s[..|s| - 1], p, q);
    }
  }

  lemma FilterSnoc<T>(s: seq<T>, x: T, p: T -> bool)
    ensures Filter(s + [x], p) == Filter(s, p) + if p(x) then [x] else []
  {
    assert (s + [x])[..|s|] == s;
  }

  lemma {:induction false} FilterTwice<T>(s: seq<T>, p: T -> bool, q: T -> bool, both: T -> bool)
    requires forall x | x in s :: both(x) == (p(x) && q(x))
    ensures Filter(Filter(s, p), q) == Filter(s, both)
  {
    if s != [] {
      FilterTwice(s[..|s| - 1], p, q, both);
      var before, x := Filter(s[..|s| - 1], p), s[|s| - 1];
      assert x in s && before + [] == before;
      FilterSnoc(before, x, q);
    }
  }

  lemma {:induction false} FilterAll<T>(s: seq<T>, p: T -> bool)
    requires forall x | x in s :: p(x)
    ensures Filter(s, p) == s
  {
    if s != [] {
      FilterAll(s[..|s| - 1], p);
    }
  }

  // ----- When evictions happen -----

  /** How many records are kept after `n` appends, for a limit of at least ten. */
  function Kept(max: int, n: nat): int
    requires max >= 10
  {
    if n <= max then n else max + 1 - max / 10 + (n - max - 1) % (max / 10)
  }

  /**
   With a limit of at least ten the first eviction happens at append `max + 1` and the next ones every
   `max / 10` appends: so many records are kept after `|log|` appends, and so many are recent.
   */
  lemma {:induction false} EvictionSchedule(max: int, log: seq<Record>)
    requires max >= 10
    ensures |After(max, log).events| == Kept(max, |log|) <= max
    ensures |Recent(max, log)| == if |log| <= max then |log| else (|log| - max - 1) % (max / 10)
  {
    BaseSchedule(max, log);
  }

  lemma {:induction false} BaseSchedule(max: int, log: seq<Record>)
    requires max >= 10
    ensures |After(max, log).events| == Kept(max, |log|) <= max
    ensures Base(max, log) == if |log| <= max then 0 else max + 1 - max / 10
  {
    if log != [] {
      hide Kept, Noted;
      BaseSchedule(max, log[..|log| - 1]);
      KeptStep(max, |log|);
    } else {
      assert Kept(max, 0) == 0;
    }
  }

  lemma KeptStep(max: int, n: nat)
    requires max >= 10 && n > 0
    ensures Kept(max, n) == if Kept(max, n - 1) + 1 > max then max + 1 - max / 10 else Kept(max, n - 1) + 1
    ensures Kept(max, n) <= max && (n <= max ==> Kept(max, n - 1) < max) && (n == max + 1 ==> Kept(max, n - 1) == max)
  {
    if n > max + 1 {
      Successor(n - max - 2, max / 10);
    }
  }

  /** A limit from zero to nine removes nothing: every record is kept, but past the limit nothing is ever found by an index. */
  lemma {:induction false} SmallLimitKeepsAll(max: int, log: seq<Record>)
    requires 0 <= max < 10
    ensures After(max, log).events == log
    ensures Base(max, log) == if |log| <= max then 0 else |log|
  {
    if log != [] {
      hide Noted, From;
      SmallLimitKeepsAll(max, log[..|log| - 1]);
      assert log == log[..|log| - 1] + [log[|log| - 1]];
      assert max / 10 == 0;
    }
  }

  /** The store stays within a limit that is not negative, for every log, exactly when the limit is at least ten. */
  lemma BoundHoldsFromTen(max: int)
    requires max >= 0
    ensures (forall log :: |After(max, log).events| <= max) <==> max >= 10
  {
    if max >= 10 {
      forall log ensures |After(max, log).events| <= max {
        EvictionSchedule(max, log);
      }
    } else {
      var log := seq(max + 1, i => Record(0, "", None, None, "", 0.0));
      SmallLimitKeepsAll(max, log);
      assert |After(max, log).events| > max;
    }
  }
}
