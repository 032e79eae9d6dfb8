/** Sessions and their manager, updated in place, and the index of a session's executions. */
module Sessions {
  import opened Prelude
  import S = SessionSpec

  datatype ExecutionStatus = Pending | Accepted | InProgress | Completed | Failed | Rejected

  /** The keyword arguments of a status update; `None` stands for one that is not given. */
  datatype Updates = Updates(
    acceptedAt: Option<Option<real>>, completedAt: Option<Option<real>>,
    resultView: Option<Option<string>>, resultValid: Option<Option<bool>>)

  class ExecutionRecord {
    const execId: string
    const key: Option<string>
    var status: ExecutionStatus
    var acceptedAt: Option<real>
    var completedAt: Option<real>
    var resultView: Option<string>
    var resultValid: Option<bool>

    constructor (execId: string, key: Option<string>)
      ensures this.execId == execId && this.key == key && status == Pending
      ensures acceptedAt == completedAt == None && resultView == None && resultValid == None
    {
      this.execId, this.key := execId, key;
      status, acceptedAt, completedAt := Pending, None, None;
      resultView, resultValid := None, None;
    }
  }

  /** `index` leads from each name that some record has to the last record that has it. */
  ghost predicate Indexes(index: map<string, nat>, records: seq<ExecutionRecord>, name: ExecutionRecord -> Option<string>) {
    && (forall k | k in index ::
          && index[k] < |records| && name(records[index[k]]) == Some(k)
          && forall i | index[k] < i < |records| :: name(records[i]) != Some(k))
    && (forall i | 0 <= i < |records| && name(records[i]).Some? :: name(records[i]).value in index)
  }

  lemma IndexesAppend(index: map<string, nat>, records: seq<ExecutionRecord>, record: ExecutionRecord,
                      name: ExecutionRecord -> Option<string>)
    requires Indexes(index, records, name)
    ensures Indexes(if name(record).Some? then index[name(record).value := |records|] else index, records + [record], name)
  {
  }

  function ById(record: ExecutionRecord): Option<string> {
    Some(record.execId)
  }

  /** An empty key is not indexed. */
  function ByKey(record: ExecutionRecord): Option<string> {
    if record.key == Some("") then None else record.key
  }

  class Session {
    const id: S.SessionId
    const requester: S.AgentId
    const createdAt: real
    const negotiationTtl: int
    const sessionTtl: int
    var provider: Option<S.AgentId>
    var providerConn: Option<string>
    var offers: seq<S.Offer>
    var chosen: Option<string>
    var chosenSchema: Option<string>
    var chosenView: Option<string>
    var status: S.Status
    var activatedAt: Option<real>
    var closedAt: Option<real>
    var executions: seq<ExecutionRecord>
    var execIndex: map<string, nat>
    var keyIndex: map<string, nat>

    ghost function View(): S.Session
      reads this
    {
      S.Session(
        requester, provider, providerConn, offers, chosen, chosenSchema, chosenView, status,
        createdAt, activatedAt, closedAt, negotiationTtl, sessionTtl)
    }

    ghost predicate Valid()
      reads this
    {
      Indexes(execIndex, executions, ById) && Indexes(keyIndex, executions, ByKey)
    }

    constructor (id: S.SessionId, requester: S.AgentId, negotiationTtl: int, sessionTtl: int, now: real)
      ensures Valid() && View() == S.NewSession(requester, negotiationTtl, sessionTtl, now) && this.id == id && executions == []
    {
      this.id, this.requester, createdAt := id, requester, now;
      this.negotiationTtl, this.sessionTtl := negotiationTtl, sessionTtl;
      provider, providerConn, offers := None, None, [];
      chosen, chosenSchema, chosenView := None, None, None;
      status, activatedAt, closedAt := S.Negotiating, None, None;
      executions, execIndex, keyIndex := [], map[], map[];
    }

    method IsExpired(now: real) returns (expired: bool)
      ensures expired == View().IsExpired(now)
    {
      var deadline := createdAt;
      if status == S.Negotiating {
        deadline := createdAt + negotiationTtl as real;
      } else if status == S.Active && activatedAt.Some? {
        deadline := activatedAt.value + sessionTtl as real;
      }
      expired := now > deadline;
    }

    method GetOffer(offerId: string) returns (found: Option<S.Offer>)
      ensures found == S.FindOffer(offers, offerId)
    {
      for i := 0 to |offers|
        invariant S.FindOffer(offers, offerId) == S.FindOffer(offers[i..], offerId)
      {
        if offers[i].offerId == offerId {
          return Some(offers[i]);
        }
        assert offers[i..][1..] == offers[i + 1..];
      }
      found := None;
    }

    method Activate(offerId: string, schema: Option<string>, view: Option<string>, now: real) returns (activated: bool)
      modifies `chosen, `chosenSchema, `chosenView, `provider, `providerConn, `status, `activatedAt
      ensures activated == S.FindOffer(offers, offerId).Some?
      ensures View() == if activated
                        then S.Activated(old(View()), S.FindOffer(offers, offerId).value, schema, view, now)
                        else old(View())
    {
      var offer := GetOffer(offerId);
      if offer.None? {
        return false;
      }
      chosen := Some(offerId);
      provider, providerConn := Some(offer.value.provider), Some(offer.value.connection);
      chosenSchema, chosenView := schema, view;
      status, activatedAt := S.Active, Some(now);
      activated := true;
    }

    method Close(now: real)
      modifies `status, `closedAt
      ensures View() == S.ClosedAt(old(View()), now) && status == S.Closed && closedAt == Some(now)
    {
      status, closedAt := S.Closed, Some(now);
    }

    method Sweep(now: real)
      modifies `status, `closedAt
      ensures View() == S.Swept(old(View()), now)
    {
      var expired := IsExpired(now);
      if expired && status != S.Closed && status != S.Expired {
        status, closedAt := S.Expired, Some(now);
      }
    }

    method AddExecution(record: ExecutionRecord)
      requires Valid()
      modifies `executions, `execIndex, `keyIndex
      ensures Valid() && executions == old(executions) + [record]
    {
      IndexesAppend(execIndex, executions, record, ById);
      IndexesAppend(keyIndex, executions, record, ByKey);
      hide Indexes;
      var i := |executions|;
      executions := executions + [record];
      execIndex := execIndex[record.execId := i];
      if record.key.Some? && record.key.value != "" {
        keyIndex := keyIndex[record.key.value := i];
      }
    }

    /** The record last added with the given identifier. */
    method GetExecution(execId: string) returns (record: Option<ExecutionRecord>)
      requires Valid()
      ensures record == LastNamed(executions, ById, execId)
      ensures record.None? <==> forall r | r in executions :: r.execId != execId
      ensures record.Some? ==>
                exists i :: 0 <= i < |executions| && executions[i] == record.value && executions[i].execId == execId
                            && forall j | i < j < |executions| :: executions[j].execId != execId
    {
      LastIndexed(execIndex, executions, ById, execId);
      record := None;
      if execId in execIndex && execIndex[execId] < |executions| {
        record := Some(executions[execIndex[execId]]);
      }
    }

    /** The record last added with the given idempotency key. */
    method GetExecutionByKey(key: string) returns (record: Option<ExecutionRecord>)
      requires Valid()
      ensures record == LastNamed(executions, ByKey, key)
      ensures record.None? <==> key == "" || forall r | r in executions :: r.key != Some(key)
      ensures record.Some? ==>
                exists i :: 0 <= i < |executions| && executions[i] == record.value && executions[i].key == Some(key)
                            && forall j | i < j < |executions| :: executions[j].key != Some(key)
    {
      LastIndexed(keyIndex, executions, ByKey, key);
      record := None;
      if key in keyIndex && keyIndex[key] < |executions| {
        record := Some(executions[keyIndex[key]]);
      }
    }

    /** A completion time is recorded, and the result fields are heeded, only when the execution ends. */
    method UpdateExecutionStatus(execId: string, status: ExecutionStatus, updates: Updates, now: real) returns (found: bool)
      requires Valid()
      modifies executions
      ensures Valid() && found == LastNamed(executions, ById, execId).Some?
      ensures forall r | r in old(executions) && LastNamed(executions, ById, execId) == Some(r) ::
                var ends := status == Completed || status == Failed;
                && r.status == status
                && r.acceptedAt == (if status == Accepted then Given(updates.acceptedAt, Some(now)) else old(r.acceptedAt))
                && r.completedAt == (if ends then Given(updates.completedAt, Some(now)) else old(r.completedAt))
                && r.resultView == (if ends then Given(updates.resultView, old(r.resultView)) else old(r.resultView))
                && r.resultValid == (if ends then Given(updates.resultValid, old(r.resultValid)) else old(r.resultValid))
      ensures forall r | r in executions && Some(r) != LastNamed(executions, ById, execId) :: unchanged(r)
    {
      var found' := GetExecution(execId);
      LastIsOne(executions, ById, execId);
      if found'.None? {
        return false;
      }
      var record := found'.value;
      record.status := status;
      if status == Accepted {
        record.acceptedAt := Given(updates.acceptedAt, Some(now));
      } else if status == Completed || status == Failed {
        record.completedAt := Given(updates.completedAt, Some(now));
        if updates.resultView.Some? {
          record.resultView := updates.resultView.value;
        }
        if updates.resultValid.Some? {
          record.resultValid := updates.resultValid.value;
        }
      }
      found := true;
    }

    method HasPendingExecutions() returns (pending: bool)
      ensures pending <==> exists r :: r in executions && r.status in {Pending, Accepted, InProgress}
    {
      for i := 0 to |executions|
        invariant forall r | r in executions[..i] :: r.status !in {Pending, Accepted, InProgress}
      {
        if executions[i].status in {Pending, Accepted, InProgress} {
          return true;
        }
      }
      pending := false;
    }
  }

  /** The last of the records that has the given name. */
  ghost function LastNamed(records: seq<ExecutionRecord>, name: ExecutionRecord -> Option<string>, key: string): Option<ExecutionRecord> {
    if records == [] then None
    else if name(records[|records| - 1]) == Some(key) then Some(records[|records| - 1])
    else LastNamed(records[..|records| - 1], name, key)
  }

  /** Looking a name up in the index finds the last record of that name, and nothing if there is none. */
  lemma {:induction false} LastIndexed(index: map<string, nat>, records: seq<ExecutionRecord>,
                                       name: ExecutionRecord -> Option<string>, key: string)
    requires Indexes(index, records, name)
    ensures LastNamed(records, name, key) == if key in index then Some(records[index[key]]) else None
  {
    LastFrom(records, |records|, name, key, if key in index then index[key] else -1);
    assert records[..|records|] == records;
  }

  lemma {:induction false} LastFrom(records: seq<ExecutionRecord>, n: nat, name: ExecutionRecord -> Option<string>,
                                    key: string, last: int)
    requires -1 <= last < n <= |records| || (n == 0 && last == -1)
    requires last >= 0 ==> name(records[last]) == Some(key)
    requires forall i | last < i < n :: name(records[i]) != Some(key)
    ensures LastNamed(records[..n], name, key) == if last >= 0 then Some(records[last]) else None
    decreases n
  {
    if n > 0 && last != n - 1 {
      LastFrom(records, n - 1, name, key, last);
      assert records[..n][..n - 1] == records[..n - 1];
    }
  }

  lemma {:induction false} LastIsOne(records: seq<ExecutionRecord>, name: ExecutionRecord -> Option<string>, key: string)
    ensures var found := LastNamed(records, name, key);
            found.Some? ==> found.value in records && name(found.value) == Some(key)
  {
    if records != [] {
      LastIsOne(records[..|records| - 1], name, key);
    }
  }

  type MessageId = nat

  class SessionManager {
    const negotiationTtl: int
    const sessionTtl: int
    var sessions: map<S.SessionId, Session>
    var sessionsByIntent: map<MessageId, S.SessionId>

    ghost predicate Valid()
      reads this
    {
      && (forall id | id in sessions :: sessions[id].id == id)
      && (forall m | m in sessionsByIntent :: sessionsByIntent[m] in sessions)
    }

    ghost function View(): S.Board
      reads this, sessions.Values
    {
      map id | id in sessions :: sessions[id].View()
    }

    constructor (negotiationTtl: int, sessionTtl: int)
      ensures Valid() && View() == map[] && sessionsByIntent == map[] && this.negotiationTtl == negotiationTtl && this.sessionTtl == sessionTtl
    {
      this.negotiationTtl, this.sessionTtl := negotiationTtl, sessionTtl;
      sessions, sessionsByIntent := map[], map[];
    }

    method CreateSession(id: S.SessionId, intent: MessageId, requester: S.AgentId, now: real) returns (session: Session)
      requires Valid() && id !in sessions
      modifies this
      ensures Valid() && View() == S.Next(old(View()), S.Step(S.Create(id, requester, negotiationTtl, sessionTtl), now))
      ensures fresh(session) && sessions == old(sessions)[id := session]
      ensures sessionsByIntent == old(sessionsByIntent)[intent := id]
    {
      session := new Session(id, requester, negotiationTtl, sessionTtl, now);
      sessions := sessions[id := session];
      sessionsByIntent := sessionsByIntent[intent := id];
    }

    /** The session last created for an intent; sessions are never removed, so it is still there. */
    method GetSessionByIntent(intent: MessageId) returns (session: Option<Session>)
      requires Valid()
      ensures session.Some? <==> intent in sessionsByIntent
      ensures session.Some? ==> session.value.id == sessionsByIntent[intent] && session.value in sessions.Values
    {
      session := None;
      if intent in sessionsByIntent && sessionsByIntent[intent] in sessions {
        session := Some(sessions[sessionsByIntent[intent]]);
      }
    }

    method AddOffer(id: S.SessionId, offer: S.Offer, now: real) returns (added: bool)
      requires Valid()
      modifies sessions.Values
      ensures Valid() && added == S.Accepts(old(View()), S.Step(S.AddOffer(id, offer), now))
      ensures View() == S.Next(old(View()), S.Step(S.AddOffer(id, offer), now))
    {
      if id !in sessions {
        return false;
      }
      var session := sessions[id];
      if session.status != S.Negotiating {
        return false;
      }
      var expired := session.IsExpired(now);
      if expired {
        return false;
      }
      session.offers := session.offers + [offer];
      added := true;
    }

    method Agree(id: S.SessionId, offerId: string, schema: Option<string>, view: Option<string>, now: real)
      returns (agreed: bool)
      requires Valid()
      modifies sessions.Values
      ensures Valid() && agreed == S.Accepts(old(View()), S.Step(S.Agree(id, offerId, schema, view), now))
      ensures View() == S.Next(old(View()), S.Step(S.Agree(id, offerId, schema, view), now))
    {
      hide S.FindOffer;
      if id !in sessions || sessions[id].status != S.Negotiating {
        return false;
      }
      agreed := sessions[id].Activate(offerId, schema, view, now);
    }

    method CloseSession(id: S.SessionId, now: real) returns (found: bool)
      requires Valid()
      modifies sessions.Values
      ensures Valid() && found == S.Accepts(old(View()), S.Step(S.CloseSession(id), now))
      ensures View() == S.Next(old(View()), S.Step(S.CloseSession(id), now))
    {
      if id !in sessions {
        return false;
      }
      sessions[id].Close(now);
      found := true;
    }

    method ValidateSessionForExec(id: S.SessionId, sender: S.AgentId, now: real) returns (valid: bool)
      ensures valid == S.Accepts(View(), S.Step(S.Validate(id, sender), now))
    {
      if id !in sessions || sessions[id].status != S.Active {
        return false;
      }
      var expired := sessions[id].IsExpired(now);
      valid := !expired && (sender == sessions[id].requester || Some(sender) == sessions[id].provider);
    }

    /** The background sweep. */
    method CleanupExpiredSessions(now: real)
      requires Valid()
      modifies sessions.Values
      ensures Valid() && View() == S.Next(old(View()), S.Step(S.Sweep, now))
    {
      hide S.Swept;
      var todo := sessions.Keys;
      while todo != {}
        invariant Valid() && todo <= sessions.Keys
        invariant forall id | id in sessions ::
                    sessions[id].View() == if id in todo then old(View())[id] else S.Swept(old(View())[id], now)
        decreases todo
      {
        var id :| id in todo;
        sessions[id].Sweep(now);
        todo := todo - {id};
      }
    }
  }
}
