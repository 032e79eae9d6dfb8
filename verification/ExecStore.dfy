/** The in-memory execution store: idempotent creation by key, and an index by session. */
module ExecStore {
  import opened Prelude

  type ExecId = nat

  /** What never changes in an execution record. */
  datatype Info = Info(execId: ExecId, session: string, key: Option<string>)

  /** What a status update may change. */
  datatype Details = Details(
    status: string, acceptedAt: Option<real>, completedAt: Option<real>,
    resultView: Option<string>, resultValid: Option<bool>)

  /** A status update: the status, and the keyword arguments that are given. */
  datatype Update = Update(
    status: string, acceptedAt: Option<Option<real>>, completedAt: Option<Option<real>>,
    resultView: Option<Option<string>>, resultValid: Option<Option<bool>>)

  function Updated(d: Details, u: Update): Details {
    Details(u.status, Given(u.acceptedAt, d.acceptedAt), Given(u.completedAt, d.completedAt),
            Given(u.resultView, d.resultView), Given(u.resultValid, d.resultValid))
  }

  class ExecRecord {
    const info: Info
    var status: string
    var acceptedAt: Option<real>
    var completedAt: Option<real>
    var resultView: Option<string>
    var resultValid: Option<bool>

    constructor (info: Info, details: Details)
      ensures this.info == info && View() == details
    {
      this.info, status, acceptedAt := info, details.status, details.acceptedAt;
      completedAt, resultView, resultValid := details.completedAt, details.resultView, details.resultValid;
    }

    ghost function View(): Details
      reads this
    {
      Details(status, acceptedAt, completedAt, resultView, resultValid)
    }

    method Apply(update: Update)
      modifies this
      ensures View() == Updated(old(View()), update)
    {
      status := update.status;
      if update.acceptedAt.Some? {
        acceptedAt := update.acceptedAt.value;
      }
      if update.completedAt.Some? {
        completedAt := update.completedAt.value;
      }
      if update.resultView.Some? {
        resultView := update.resultView.value;
      }
      if update.resultValid.Some? {
        resultValid := update.resultValid.value;
      }
    }
  }

  datatype Store = Store(
    execs: map<ExecId, Info>, details: map<ExecId, Details>,
    byKey: map<string, ExecId>, bySession: map<string, seq<ExecId>>)

  const EMPTY := Store(map[], map[], map[], map[])

  /** The record that a put returns instead of creating one: by key first, then by identifier. */
  function Existing(s: Store, info: Info): Option<ExecId> {
    if HasKey(info) && info.key.value in s.byKey && s.byKey[info.key.value] in s.execs then Some(s.byKey[info.key.value])
    else if info.execId in s.execs then Some(info.execId)
    else None
  }

  /** An absent or empty key asks for no idempotency. */
  predicate HasKey(info: Info) {
    info.key.Some? && info.key.value != ""
  }

  function Put(s: Store, info: Info, details: Details): Store {
    if Existing(s, info).Some? then s
    else Store(
      s.execs[info.execId := info], s.details[info.execId := details],
      if HasKey(info) then s.byKey[info.key.value := info.execId] else s.byKey,
      s.bySession[info.session := ListAt(s.bySession, info.session) + [info.execId]])
  }

  function WithStatus(s: Store, id: ExecId, u: Update): Store {
    if id in s.execs && id in s.details then s.(details := s.details[id := Updated(s.details[id], u)]) else s
  }

  datatype Call = DoPut(info: Info, details: Details) | DoSetStatus(id: ExecId, update: Update)

  function Next(s: Store, call: Call): Store {
    match call
    case DoPut(info, details) => Put(s, info, details)
    case DoSetStatus(id, update) => WithStatus(s, id, update)
  }

  /** The store after a sequence of calls. */
  function After(calls: seq<Call>): Store {
    if calls == [] then EMPTY else Next(After(calls[..|calls| - 1]), calls[|calls| - 1])
  }

  class InMemoryExecStore {
    var execs: map<ExecId, ExecRecord>
    var byKey: map<string, ExecId>
    var bySession: map<string, seq<ExecId>>

    ghost predicate Valid()
      reads this
    {
      forall id | id in execs :: execs[id].info.execId == id
    }

    ghost function View(): Store
      reads this, execs.Values
    {
      Store(Infos(execs), AllDetails(execs), byKey, bySession)
    }

    static ghost function Infos(execs: map<ExecId, ExecRecord>): map<ExecId, Info> {
      map id | id in execs :: execs[id].info
    }

    static ghost function AllDetails(execs: map<ExecId, ExecRecord>): map<ExecId, Details>
      reads execs.Values
    {
      map id | id in execs :: execs[id].View()
    }

    constructor ()
      ensures Valid() && View() == EMPTY
    {
      execs, byKey, bySession := map[], map[], map[];
    }

    method PutIfAbsent(record: ExecRecord) returns (stored: ExecRecord, created: bool)
      requires Valid()
      modifies this
      ensures Valid() && View() == Put(old(View()), record.info, record.View())
      ensures created == Existing(old(View()), record.info).None?
      ensures if created then stored == record && record.info.execId !in old(execs)
              else var id := Existing(old(View()), record.info).value; id in old(execs) && stored == old(execs)[id]
      ensures forall id | id in old(execs) :: id in execs && execs[id] == old(execs)[id]
    {
      var info := record.info;
      if info.key.Some? && info.key.value != "" && info.key.value in byKey && byKey[info.key.value] in execs {
        return execs[byKey[info.key.value]], false;
      }
      if info.execId in execs {
        return execs[info.execId], false;
      }
      Create(record);
      return record, true;
    }

    static lemma Added(execs: map<ExecId, ExecRecord>, record: ExecRecord)
      ensures Infos(execs[record.info.execId := record]) == Infos(execs)[record.info.execId := record.info]
      ensures AllDetails(execs[record.info.execId := record]) == AllDetails(execs)[record.info.execId := record.View()]
    {
    }

    method Create(record: ExecRecord)
      requires Valid() && Existing(View(), record.info).None?
      modifies this
      ensures Valid() && View() == Put(old(View()), record.info, record.View())
      ensures execs == old(execs)[record.info.execId := record]
    {
      var info := record.info;
      Added(execs, record);
      assert Existing(View(), info).None?;
      hide InMemoryExecStore.Infos, InMemoryExecStore.AllDetails, Existing;
      execs := execs[info.execId := record];
      if info.key.Some? && info.key.value != "" {
        byKey := byKey[info.key.value := info.execId];
      }
      bySession := bySession[info.session := ListAt(bySession, info.session) + [info.execId]];
    }

    method Get(id: Option<ExecId>, key: Option<string>) returns (record: Option<ExecRecord>)
      ensures var wanted := if id.Some? then id
                            else if key.Some? && key.value != "" && key.value in byKey then Some(byKey[key.value]) else None;
              record == if wanted.Some? && wanted.value in execs then Some(execs[wanted.value]) else None
    {
      record := None;
      if id.Some? {
        if id.value in execs {
          record := Some(execs[id.value]);
        }
      } else if key.Some? && key.value != "" && key.value in byKey && byKey[key.value] in execs {
        record := Some(execs[byKey[key.value]]);
      }
    }

    method SetStatus(id: ExecId, update: Update) returns (record: Option<ExecRecord>)
      requires Valid()
      modifies execs.Values
      ensures Valid() && View() == WithStatus(old(View()), id, update)
      ensures record == if id in execs then Some(execs[id]) else None
    {
      if id !in execs {
        return None;
      }
      hide Updated;
      execs[id].Apply(update);
      record := Some(execs[id]);
    }

    method ListBySession(session: string, status: Option<string>) returns (out: seq<ExecRecord>)
      ensures out == Listed(ListAt(bySession, session), status)
      ensures Valid() && SessionsAgree(Infos(execs), bySession) ==>
                && (forall r :: r in out <==>
                      && (exists id :: id in execs && execs[id] == r)
                      && r.info.session == session && (status.Some? ==> r.status == status.value))
                && forall i, j | 0 <= i < j < |out| :: out[i] != out[j]
    {
      var ids := ListAt(bySession, session);
      out := [];
      for i := 0 to |ids|
        invariant out == Listed(ids[..i], status)
      {
        assert ids[..i + 1][..i] == ids[..i];
        if ids[i] in execs && (status.None? || execs[ids[i]].status == status.value) {
          out := out + [execs[ids[i]]];
        }
      }
      assert ids[..|ids|] == ids;
      if Valid() && SessionsAgree(Infos(execs), bySession) {
        ListedExactly(session, status);
      }
    }

    lemma ListedExactly(session: string, status: Option<string>)
      requires Valid() && SessionsAgree(Infos(execs), bySession)
      ensures var out := Listed(ListAt(bySession, session), status);
              && (forall r :: r in out <==>
                    && (exists id :: id in execs && execs[id] == r)
                    && r.info.session == session && (status.Some? ==> r.status == status.value))
              && forall i, j | 0 <= i < j < |out| :: out[i] != out[j]
    {
      var ids := ListAt(bySession, session);
      ListedOnce(ids, status);
      forall r: ExecRecord
        ensures r in Listed(ids, status) <==>
                  exists id :: id in ids && id in execs && execs[id] == r && (status.Some? ==> r.status == status.value)
      {
        ListedIs(ids, status, r);
      }
      hide InMemoryExecStore.Listed;
      forall id: ExecId
        ensures id in ids <==> id in execs && execs[id].info.session == session
      {
        SessionLists(Infos(execs), bySession, session, id);
      }
    }

    lemma {:induction false} ListedIs(ids: seq<ExecId>, status: Option<string>, r: ExecRecord)
      ensures r in Listed(ids, status) <==>
                exists id :: id in ids && id in execs && execs[id] == r && (status.Some? ==> r.status == status.value)
    {
      if ids != [] {
        var n := |ids| - 1;
        ListedIs(ids[..n], status, r);
        assert ids == ids[..n] + [ids[n]];
      }
    }

    lemma {:induction false} ListedOnce(ids: seq<ExecId>, status: Option<string>)
      requires Valid() && forall i, j | 0 <= i < j < |ids| :: ids[i] != ids[j]
      ensures var out := Listed(ids, status); forall i, j | 0 <= i < j < |out| :: out[i] != out[j]
    {
      if ids != [] {
        var n := |ids| - 1;
        ListedOnce(ids[..n], status);
        var before := Listed(ids[..n], status);
        if ids[n] in execs {
          NotYetListed(ids, status);
          assert Listed(ids, status) == before || Listed(ids, status) == before + [execs[ids[n]]];
        } else {
          assert Listed(ids, status) == before;
        }
      }
    }

    lemma NotYetListed(ids: seq<ExecId>, status: Option<string>)
      requires Valid() && forall i, j | 0 <= i < j < |ids| :: ids[i] != ids[j]
      requires ids != [] && ids[|ids| - 1] in execs
      ensures execs[ids[|ids| - 1]] !in Listed(ids[..|ids| - 1], status)
    {
      var n := |ids| - 1;
      ListedIs(ids[..n], status, execs[ids[n]]);
      assert forall id | id in ids[..n] :: id != ids[n];
    }

    /** The records of the listed executions that exist and have the wanted status. */
    ghost function Listed(ids: seq<ExecId>, status: Option<string>): seq<ExecRecord>
      reads this, execs.Values
    {
      if ids == [] then [] else
        var id := ids[|ids| - 1];
        Listed(ids[..|ids| - 1], status)
        + (if id in execs && (status.None? || execs[id].status == status.value) then [execs[id]] else [])
    }
  }

  // ----- What every call keeps -----

  ghost predicate KeysAgree(execs: map<ExecId, Info>, byKey: map<string, ExecId>) {
    && (forall k | k in byKey :: byKey[k] in execs && HasKey(execs[byKey[k]]) && execs[byKey[k]].key == Some(k))
    && (forall id | id in execs && HasKey(execs[id]) :: execs[id].key.value in byKey && byKey[execs[id].key.value] == id)
  }

  /** Every stored execution is in exactly one session list, once: that of its own session. */
  ghost predicate SessionsAgree(execs: map<ExecId, Info>, bySession: map<string, seq<ExecId>>) {
    && (forall session, id | session in bySession :: id in bySession[session] <==> id in execs && execs[id].session == session)
    && (forall id | id in execs :: execs[id].session in bySession)
    && (forall session, i, j | session in bySession && 0 <= i < j < |bySession[session]| ::
          bySession[session][i] != bySession[session][j])
  }

  ghost predicate StoreInv(s: Store) {
    && s.details.Keys == s.execs.Keys && (forall id | id in s.execs :: s.execs[id].execId == id)
    && KeysAgree(s.execs, s.byKey) && SessionsAgree(s.execs, s.bySession)
  }

  lemma SessionLists(execs: map<ExecId, Info>, bySession: map<string, seq<ExecId>>, session: string, id: ExecId)
    requires SessionsAgree(execs, bySession)
    ensures id in ListAt(bySession, session) <==> id in execs && execs[id].session == session
  {
  }

  lemma PutInv(s: Store, info: Info, details: Details)
    requires StoreInv(s)
    ensures StoreInv(Put(s, info, details))
  {
    if Existing(s, info).None? {
      PutKeys(s.execs, s.byKey, info);
      PutSessions(s.execs, s.bySession, info);
      hide KeysAgree, SessionsAgree;
    }
  }

  lemma PutKeys(execs: map<ExecId, Info>, byKey: map<string, ExecId>, info: Info)
    requires KeysAgree(execs, byKey) && info.execId !in execs && (HasKey(info) ==> info.key.value !in byKey)
    ensures KeysAgree(execs[info.execId := info], if HasKey(info) then byKey[info.key.value := info.execId] else byKey)
  {
  }

  lemma PutSessions(execs: map<ExecId, Info>, bySession: map<string, seq<ExecId>>, info: Info)
    requires SessionsAgree(execs, bySession) && info.execId !in execs
    ensures SessionsAgree(execs[info.execId := info], bySession[info.session := ListAt(bySession, info.session) + [info.execId]])
  {
  }

  lemma NextInv(s: Store, call: Call)
    requires StoreInv(s)
    ensures StoreInv(Next(s, call))
  {
    hide KeysAgree, SessionsAgree;
    if call.DoPut? {
      hide StoreInv;
      PutInv(s, call.info, call.details);
    }
  }

  /** After any calls: the keys map back to exactly the executions that carry them, the session lists partition them. */
  lemma {:induction false} AfterInv(calls: seq<Call>)
    ensures StoreInv(After(calls))
  {
    if calls != [] {
      hide StoreInv, Next;
      AfterInv(calls[..|calls| - 1]);
      NextInv(After(calls[..|calls| - 1]), calls[|calls| - 1]);
    }
  }

  /**
   A put creates a record exactly when its identifier is new and no stored execution has its key, an absent or empty key
   being no key; it then stores what it was given and touches nothing else. Otherwise it leads to the execution with
   the key or, without one, to the one with the identifier.
   */
  lemma PutEffect(s: Store, info: Info, details: Details)
    requires StoreInv(s)
    ensures var t, keyed := Put(s, info, details), info.key.Some? && info.key.value != "";
            && (Existing(s, info) == None <==>
                  info.execId !in s.execs && (keyed ==> forall id | id in s.execs :: s.execs[id].key != info.key))
            && (Existing(s, info).Some? ==>
                  var id := Existing(s, info).value;
                  && t == s && id in s.execs
                  && if keyed && exists x :: x in s.execs && s.execs[x].key == info.key then s.execs[id].key == info.key
                     else id == info.execId)
            && (Existing(s, info).None? ==>
                  && t.execs == s.execs[info.execId := info] && t.details == s.details[info.execId := details]
                  && (forall k | k in s.byKey && info.key != Some(k) :: k in t.byKey && t.byKey[k] == s.byKey[k])
                  && ListAt(t.bySession, info.session) == ListAt(s.bySession, info.session) + [info.execId]
                  && forall x | x != info.session :: ListAt(t.bySession, x) == ListAt(s.bySession, x))
  {
    hide SessionsAgree;
  }

  /** A status update sets the status and those of the other fields that are given, each in its own place. */
  lemma UpdateEffect(s: Store, id: ExecId, u: Update)
    requires id in s.execs && id in s.details
    ensures var d, t := s.details[id], WithStatus(s, id, u);
            && t == s.(details := t.details) && t.details.Keys == s.details.Keys
            && (forall x | x in s.details && x != id :: t.details[x] == s.details[x])
            && t.details[id].status == u.status
            && t.details[id].acceptedAt == (if u.acceptedAt.Some? then u.acceptedAt.value else d.acceptedAt)
            && t.details[id].completedAt == (if u.completedAt.Some? then u.completedAt.value else d.completedAt)
            && t.details[id].resultView == (if u.resultView.Some? then u.resultView.value else d.resultView)
            && t.details[id].resultValid == (if u.resultValid.Some? then u.resultValid.value else d.resultValid)
  {
  }

  /** Stored records are never replaced, whatever is called later. */
  lemma {:induction false} NeverReplaced(calls: seq<Call>, later: seq<Call>, id: ExecId)
    requires id in After(calls).execs
    ensures id in After(calls + later).execs && After(calls + later).execs[id] == After(calls).execs[id]
    decreases |later|
  {
    if later == [] {
      assert calls + later == calls;
    } else {
      var n := |later| - 1;
      NeverReplaced(calls, later[..n], id);
      assert (calls + later)[..|calls + later| - 1] == calls + later[..n];
      assert (calls + later)[|calls + later| - 1] == later[n];
      NextKeeps(After(calls + later[..n]), later[n], id);
    }
  }

  lemma NextKeeps(s: Store, call: Call, id: ExecId)
    requires id in s.execs
    ensures id in Next(s, call).execs && Next(s, call).execs[id] == s.execs[id]
  {
  }

  /**
   The first writer wins: once a put with a key has created a record, every later put with that key, whatever
   execution it names and whatever happened in between, returns that record and changes nothing.
   */
  lemma FirstWriterWins(calls: seq<Call>, first: Info, details: Details, later: seq<Call>, info: Info, details': Details)
    requires HasKey(first) && Existing(After(calls), first).None? && info.key == first.key
    ensures var s := After(calls + [DoPut(first, details)] + later);
            && Existing(s, info) == Some(first.execId) && s.execs[first.execId] == first
            && Put(s, info, details') == s
  {
    var begun := calls + [DoPut(first, details)];
    assert begun[..|begun| - 1] == calls;
    assert After(begun) == Put(After(calls), first, details);
    NeverReplaced(begun, later, first.execId);
    AfterInv(begun + later);
  }

  /**
   When a put returns an existing record and creates none, its key leads to a record afterwards exactly when it
   did before: a new key on an old identifier is not registered.
   */
  lemma KeyRegistered(calls: seq<Call>, info: Info, details: Details)
    requires HasKey(info)
    ensures var (s, t) := (After(calls), Put(After(calls), info, details));
            && (info.key.value in t.byKey <==> info.key.value in s.byKey || info.execId !in s.execs)
            && (info.key.value in t.byKey ==>
                  t.byKey[info.key.value] == if info.key.value in s.byKey then s.byKey[info.key.value] else info.execId)
  {
  }

  /** It does happen: an execution stored without a key, put again with one, is returned, and the key leads nowhere. */
  lemma KeyNotRegistered(details: Details) returns (calls: seq<Call>, info: Info)
    ensures HasKey(info) && Existing(After(calls), info) == Some(info.execId)
    ensures info.key.value !in Put(After(calls), info, details).byKey
  {
    var first := DoPut(Info(0, "s", None), details);
    calls, info := [first], Info(0, "s", Some("k"));
    assert calls[..0] == [] && After(calls) == Next(EMPTY, first);
  }
}
