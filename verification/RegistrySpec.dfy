/**
 The agent registry joined to the view registry, as values: who is connected where, and which schemas the
 connected agents provide. Every registry has a view registry here.
 */
module RegistrySpec {
  import opened Prelude

  type AgentId = nat
  type Socket = nat
  type Schema = string

  /** A connection identifier is built from a tenant, an agent and a socket. */
  datatype ConnId = ConnId(tenant: string, agent: AgentId, socket: Socket)

  datatype Status = Online | Offline | Idle

  datatype Agent = Agent(
    id: AgentId, tenant: string, conn: ConnId, capabilities: seq<string>, tags: seq<string>,
    schemas: map<string, Schema>, status: Status, lastSeen: real, load: real)
  {
    predicate IsAlive(timeout: real, now: real) {
      now - lastSeen <= timeout
    }
  }

  datatype Views = Views(schemas: map<AgentId, map<string, Schema>>, providers: map<string, set<AgentId>>)

  datatype Registry = Registry(
    agents: map<ConnId, Agent>, connByAgent: map<AgentId, ConnId>, connections: map<ConnId, Socket>, views: Views)

  const EMPTY := Registry(map[], map[], map[], Views(map[], map[]))

  // ----- The view registry -----

  /** Takes an agent out of the providers of the listed capabilities; a capability without providers goes. */
  function Dropped(providers: map<string, set<AgentId>>, capabilities: set<string>, a: AgentId): map<string, set<AgentId>> {
    map cap | cap in providers && (cap in capabilities ==> providers[cap] - {a} != {}) ::
      if cap in capabilities then providers[cap] - {a} else providers[cap]
  }

  function Withdraw(v: Views, a: AgentId): Views {
    if a !in v.schemas then v
    else Views(v.schemas - {a}, Dropped(v.providers, v.schemas[a].Keys, a))
  }

  function Provided(providers: map<string, set<AgentId>>, capabilities: set<string>, a: AgentId): map<string, set<AgentId>> {
    map cap | cap in providers.Keys + capabilities ::
      if cap in capabilities then At(providers, cap) + {a} else At(providers, cap)
  }

  function Offer(v: Views, a: AgentId, schemas: map<string, Schema>): Views {
    var w := Withdraw(v, a);
    Views(w.schemas[a := schemas], Provided(w.providers, schemas.Keys, a))
  }

  /** The reverse index is the exact inverse of the schema map, and has no capability without providers. */
  ghost predicate ViewsInv(v: Views) {
    && (forall cap, a :: a in At(v.providers, cap) <==> a in v.schemas && cap in v.schemas[a])
    && (forall cap | cap in v.providers :: v.providers[cap] != {})
  }

  lemma WithdrawInv(v: Views, a: AgentId)
    requires ViewsInv(v)
    ensures ViewsInv(Withdraw(v, a))
  {
    var w := Withdraw(v, a);
    forall cap, x
      ensures x in At(w.providers, cap) <==> x in w.schemas && cap in w.schemas[x]
    {
      assert x in At(v.providers, cap) <==> x in v.schemas && cap in v.schemas[x];
      assert a in At(v.providers, cap) <==> a in v.schemas && cap in v.schemas[a];
    }
  }

  lemma OfferInv(v: Views, a: AgentId, schemas: map<string, Schema>)
    requires ViewsInv(v)
    ensures ViewsInv(Offer(v, a, schemas))
  {
    WithdrawInv(v, a);
    var w, u := Withdraw(v, a), Offer(v, a, schemas);
    forall cap, x
      ensures x in At(u.providers, cap) <==> x in u.schemas && cap in u.schemas[x]
    {
      assert x in At(w.providers, cap) <==> x in w.schemas && cap in w.schemas[x];
    }
  }

  // ----- The registry -----

  function Remove(r: Registry, conn: ConnId): Registry {
    if conn in r.agents then
      var a := r.agents[conn].id;
      Registry(r.agents - {conn}, r.connByAgent - {a}, r.connections - {conn}, Withdraw(r.views, a))
    else r.(connections := r.connections - {conn})
  }

  function RemoveAll(r: Registry, conns: seq<ConnId>): Registry {
    if conns == [] then r else Remove(RemoveAll(r, conns[..|conns| - 1]), conns[|conns| - 1])
  }

  function NewAgent(conn: ConnId, capabilities: seq<string>, tags: seq<string>, schemas: map<string, Schema>, now: real): Agent {
    Agent(conn.agent, conn.tenant, conn, capabilities, tags, schemas, Online, now, 0.0)
  }

  /** Enters an agent under a connection; empty schemas are not offered. */
  function Enter(r: Registry, agent: Agent): Registry {
    Registry(
      r.agents[agent.conn := agent], r.connByAgent[agent.id := agent.conn], r.connections[agent.conn := agent.conn.socket],
      if agent.schemas == map[] then r.views else Offer(r.views, agent.id, agent.schemas))
  }

  /** An agent that is registered already loses its old connection first. */
  function Register(r: Registry, agent: Agent): Registry {
    Enter(if agent.id in r.connByAgent then Remove(r, r.connByAgent[agent.id]) else r, agent)
  }

  function Unregister(r: Registry, conn: ConnId): Registry {
    if conn in r.agents then Remove(r, conn) else r
  }

  function Heartbeat(r: Registry, conn: ConnId, now: real): Registry {
    if conn !in r.agents then r else
      var agent := r.agents[conn];
      r.(agents := r.agents[conn := agent.(lastSeen := now, status := if agent.status == Offline then Online else agent.status)])
  }

  predicate Dead(agent: Agent, timeout: real, now: real) {
    !agent.IsAlive(timeout, now) && agent.status != Offline
  }

  /** `conns` lists the connections of the dead agents, each once. */
  ghost predicate ListsDead(r: Registry, conns: seq<ConnId>, timeout: real, now: real) {
    && NoRepeats(conns)
    && forall c :: c in Members(conns) <==> c in r.agents && Dead(r.agents[c], timeout, now)
  }

  datatype Action =
    | DoRegister(conn: ConnId, capabilities: seq<string>, tags: seq<string>, schemas: map<string, Schema>)
    | DoUnregister(conn: ConnId)
    | DoHeartbeat(conn: ConnId)
    | DoCleanup(dead: seq<ConnId>)

  datatype Step = Step(action: Action, at: real)

  ghost predicate Enabled(r: Registry, timeout: real, step: Step) {
    step.action.DoCleanup? ==> ListsDead(r, step.action.dead, timeout, step.at)
  }

  function Next(r: Registry, step: Step): Registry {
    match step.action
    case DoRegister(conn, capabilities, tags, schemas) => Register(r, NewAgent(conn, capabilities, tags, schemas, step.at))
    case DoUnregister(conn) => Unregister(r, conn)
    case DoHeartbeat(conn) => Heartbeat(r, conn, step.at)
    case DoCleanup(dead) => RemoveAll(r, dead)
  }

  ghost predicate Runs(timeout: real, r: Registry, run: seq<Step>, r': Registry)
    decreases |run|
  {
    if run == [] then r' == r
    else Enabled(r, timeout, run[0]) && Runs(timeout, Next(r, run[0]), run[1..], r')
  }

  // ----- What every step keeps -----

  /** Agents and connections are in bijection, and each connection is the one its parts name. */
  ghost predicate MapsAgree(agents: map<ConnId, Agent>, connByAgent: map<AgentId, ConnId>, connections: map<ConnId, Socket>) {
    && connections.Keys == agents.Keys
    && (forall c | c in agents ::
          && agents[c].conn == c && agents[c].id == c.agent && agents[c].tenant == c.tenant
          && connections[c] == c.socket && c.agent in connByAgent && connByAgent[c.agent] == c)
    && (forall a | a in connByAgent :: connByAgent[a] in agents && connByAgent[a].agent == a)
  }

  /** The registered agents that brought schemas have the ones they brought. */
  ghost predicate Brought(agents: map<ConnId, Agent>, schemas: map<AgentId, map<string, Schema>>) {
    forall c | c in agents && agents[c].schemas != map[] :: c.agent in schemas && schemas[c.agent] == agents[c].schemas
  }

  /** Only registered agents have schemas, and none has an empty set of them. */
  ghost predicate Owned(agents: map<ConnId, Agent>, connByAgent: map<AgentId, ConnId>, schemas: map<AgentId, map<string, Schema>>) {
    forall a | a in schemas ::
      && a in connByAgent && connByAgent[a] in agents
      && schemas[a] == agents[connByAgent[a]].schemas && schemas[a] != map[]
  }

  ghost predicate SchemasAgree(agents: map<ConnId, Agent>, connByAgent: map<AgentId, ConnId>,
                               schemas: map<AgentId, map<string, Schema>>)
  {
    Brought(agents, schemas) && Owned(agents, connByAgent, schemas)
  }

  ghost predicate NoneOffline(agents: map<ConnId, Agent>) {
    forall c | c in agents :: agents[c].status != Offline
  }

  ghost predicate RegistryInv(r: Registry) {
    && MapsAgree(r.agents, r.connByAgent, r.connections) && ViewsInv(r.views)
    && SchemasAgree(r.agents, r.connByAgent, r.views.schemas) && NoneOffline(r.agents)
  }

  lemma RemoveInv(r: Registry, conn: ConnId)
    requires RegistryInv(r) && conn in r.agents
    ensures RegistryInv(Remove(r, conn)) && Remove(r, conn).agents == r.agents - {conn}
  {
    hide MapsAgree, SchemasAgree, ViewsInv, NoneOffline, Withdraw;
    RemoveMaps(r.agents, r.connByAgent, r.connections, conn);
    RemoveSchemas(r.agents, r.connByAgent, r.connections, r.views.schemas, conn);
    WithdrawInv(r.views, conn.agent);
    WithdrawSchemas(r.views, conn.agent);
  }

  lemma WithdrawSchemas(v: Views, a: AgentId)
    ensures Withdraw(v, a).schemas == v.schemas - {a}
  {
    hide Dropped;
  }

  lemma RemoveMaps(agents: map<ConnId, Agent>, connByAgent: map<AgentId, ConnId>, connections: map<ConnId, Socket>, conn: ConnId)
    requires MapsAgree(agents, connByAgent, connections) && conn in agents && NoneOffline(agents)
    ensures agents[conn].id == conn.agent && NoneOffline(agents - {conn})
    ensures MapsAgree(agents - {conn}, connByAgent - {conn.agent}, connections - {conn})
  {
  }

  lemma RemoveSchemas(agents: map<ConnId, Agent>, connByAgent: map<AgentId, ConnId>, connections: map<ConnId, Socket>,
                      schemas: map<AgentId, map<string, Schema>>, conn: ConnId)
    requires MapsAgree(agents, connByAgent, connections) && SchemasAgree(agents, connByAgent, schemas) && conn in agents
    ensures SchemasAgree(agents - {conn}, connByAgent - {conn.agent}, schemas - {conn.agent})
  {
  }

  lemma EnterInv(r: Registry, agent: Agent)
    requires RegistryInv(r) && agent.id !in r.connByAgent
    requires agent.id == agent.conn.agent && agent.tenant == agent.conn.tenant && agent.status == Online
    ensures RegistryInv(Enter(r, agent))
  {
    hide MapsAgree, SchemasAgree, ViewsInv, NoneOffline, Offer;
    EnterMaps(r.agents, r.connByAgent, r.connections, agent);
    EnterSchemas(r.agents, r.connByAgent, r.connections, r.views.schemas, agent);
    OfferInv(r.views, agent.id, agent.schemas);
    OfferSchemas(r.views, agent.id, agent.schemas);
  }

  lemma OfferSchemas(v: Views, a: AgentId, schemas: map<string, Schema>)
    ensures Offer(v, a, schemas).schemas == v.schemas[a := schemas]
  {
    hide Withdraw, Provided;
    WithdrawSchemas(v, a);
  }

  lemma EnterMaps(agents: map<ConnId, Agent>, connByAgent: map<AgentId, ConnId>, connections: map<ConnId, Socket>, agent: Agent)
    requires MapsAgree(agents, connByAgent, connections) && NoneOffline(agents) && agent.id !in connByAgent
    requires agent.id == agent.conn.agent && agent.tenant == agent.conn.tenant && agent.status == Online
    ensures MapsAgree(agents[agent.conn := agent], connByAgent[agent.id := agent.conn],
                      connections[agent.conn := agent.conn.socket])
    ensures NoneOffline(agents[agent.conn := agent])
  {
  }

  lemma EnterSchemas(agents: map<ConnId, Agent>, connByAgent: map<AgentId, ConnId>, connections: map<ConnId, Socket>,
                     schemas: map<AgentId, map<string, Schema>>, agent: Agent)
    requires MapsAgree(agents, connByAgent, connections) && SchemasAgree(agents, connByAgent, schemas)
    requires agent.id !in connByAgent && agent.id == agent.conn.agent
    ensures SchemasAgree(agents[agent.conn := agent], connByAgent[agent.id := agent.conn],
                         if agent.schemas == map[] then schemas else schemas[agent.id := agent.schemas])
  {
  }

  lemma RegisterInv(r: Registry, agent: Agent)
    requires RegistryInv(r)
    requires agent.id == agent.conn.agent && agent.tenant == agent.conn.tenant && agent.status == Online
    ensures RegistryInv(Register(r, agent))
    ensures forall c | c in Register(r, agent).agents && c.agent == agent.id :: c == agent.conn
    ensures Register(r, agent).agents.Keys <= r.agents.Keys + {agent.conn}
  {
    hide SchemasAgree, ViewsInv, NoneOffline;
    if agent.id in r.connByAgent {
      RemoveInv(r, r.connByAgent[agent.id]);
      EnterInv(Remove(r, r.connByAgent[agent.id]), agent);
    } else {
      EnterInv(r, agent);
    }
  }

  lemma {:induction false} RemoveAllInv(r: Registry, conns: seq<ConnId>)
    requires RegistryInv(r) && NoRepeats(conns) && Members(conns) <= r.agents.Keys
    ensures RegistryInv(RemoveAll(r, conns))
    ensures RemoveAll(r, conns).agents == r.agents - Members(conns)
  {
    if conns == [] {
      assert Members(conns) == {};
    } else {
      hide RegistryInv, Remove, Members, NoRepeats;
      MembersSnoc(conns);
      var n := |conns| - 1;
      RemoveAllInv(r, conns[..n]);
      RemoveInv(RemoveAll(r, conns[..n]), conns[n]);
      assert r.agents - Members(conns[..n]) - {conns[n]} == r.agents - Members(conns);
    }
  }

  function Members(conns: seq<ConnId>): set<ConnId> {
    set c | c in conns
  }

  predicate NoRepeats(conns: seq<ConnId>) {
    forall i, j | 0 <= i < j < |conns| :: conns[i] != conns[j]
  }

  lemma MembersSnoc(conns: seq<ConnId>)
    requires conns != [] && NoRepeats(conns)
    ensures var n := |conns| - 1;
            && Members(conns) == Members(conns[..n]) + {conns[n]}
            && NoRepeats(conns[..n]) && conns[n] !in Members(conns[..n])
  {
    assert conns == conns[..|conns| - 1] + [conns[|conns| - 1]];
  }

  lemma HeartbeatInv(r: Registry, conn: ConnId, now: real)
    requires RegistryInv(r)
    ensures RegistryInv(Heartbeat(r, conn, now)) && Heartbeat(r, conn, now).agents.Keys == r.agents.Keys
  {
    if conn in r.agents {
      hide ViewsInv, MapsAgree, SchemasAgree, NoneOffline;
      Refreshed(r.agents, r.connByAgent, r.connections, r.views.schemas, conn, Heartbeat(r, conn, now).agents[conn]);
    }
  }

  lemma Refreshed(agents: map<ConnId, Agent>, connByAgent: map<AgentId, ConnId>, connections: map<ConnId, Socket>,
                  schemas: map<AgentId, map<string, Schema>>, conn: ConnId, agent: Agent)
    requires MapsAgree(agents, connByAgent, connections) && SchemasAgree(agents, connByAgent, schemas) && NoneOffline(agents)
    requires conn in agents && agent == agents[conn].(lastSeen := agent.lastSeen, status := agent.status)
    requires agents[conn].status != Offline ==> agent.status != Offline
    ensures MapsAgree(agents[conn := agent], connByAgent, connections)
    ensures SchemasAgree(agents[conn := agent], connByAgent, schemas) && NoneOffline(agents[conn := agent])
  {
    hide SchemasAgree;
    RefreshedSchemas(agents, connByAgent, schemas, conn, agent);
  }

  lemma RefreshedSchemas(agents: map<ConnId, Agent>, connByAgent: map<AgentId, ConnId>,
                         schemas: map<AgentId, map<string, Schema>>, conn: ConnId, agent: Agent)
    requires SchemasAgree(agents, connByAgent, schemas) && conn in agents && agent.schemas == agents[conn].schemas
    ensures SchemasAgree(agents[conn := agent], connByAgent, schemas)
  {
    RefreshedBrought(agents, schemas, conn, agent);
    hide Brought;
  }

  lemma RefreshedBrought(agents: map<ConnId, Agent>, schemas: map<AgentId, map<string, Schema>>, conn: ConnId, agent: Agent)
    requires Brought(agents, schemas) && conn in agents && agent.schemas == agents[conn].schemas
    ensures Brought(agents[conn := agent], schemas)
  {
  }

  lemma StepInv(timeout: real, r: Registry, step: Step)
    requires RegistryInv(r) && Enabled(r, timeout, step)
    ensures RegistryInv(Next(r, step))
    ensures Next(r, step).agents.Keys <= r.agents.Keys + (if step.action.DoRegister? then {step.action.conn} else {})
  {
    hide RegistryInv, Register, Remove, Heartbeat, RemoveAll;
    match step.action
    case DoRegister(conn, capabilities, tags, schemas) => RegisterInv(r, NewAgent(conn, capabilities, tags, schemas, step.at));
    case DoUnregister(conn) =>
      if conn in r.agents {
        RemoveInv(r, conn);
      }
    case DoHeartbeat(conn) => HeartbeatInv(r, conn, step.at);
    case DoCleanup(dead) => RemoveAllInv(r, dead);
  }

  /**
   Over any run: agents and connections stay in bijection, the providers of a capability are exactly the agents
   with a schema for it, and only registered agents have schemas.
   */
  lemma {:induction false} RunInv(timeout: real, r: Registry, run: seq<Step>, r': Registry)
    requires RegistryInv(r) && Runs(timeout, r, run, r')
    ensures RegistryInv(r')
    ensures forall c | c in r'.agents && c !in r.agents :: exists i :: 0 <= i < |run| && run[i].action.DoRegister? && run[i].action.conn == c
    decreases |run|
  {
    if run != [] {
      hide RegistryInv, Next, Enabled;
      StepInv(timeout, r, run[0]);
      RunInv(timeout, Next(r, run[0]), run[1..], r');
      forall c | c in r'.agents && c !in r.agents
        ensures exists i :: 0 <= i < |run| && run[i].action.DoRegister? && run[i].action.conn == c
      {
        if c !in Next(r, run[0]).agents {
          var i :| 0 <= i < |run[1..]| && run[1..][i].action.DoRegister? && run[1..][i].action.conn == c;
          assert run[i + 1].action.DoRegister? && run[i + 1].action.conn == c;
        } else {
          assert run[0].action.DoRegister? && run[0].action.conn == c;
        }
      }
    }
  }

  lemma EmptyInv()
    ensures RegistryInv(EMPTY)
  {
  }

  /**
   A late unregister does no harm: once an agent has registered a new connection, unregistering any other connection
   of it changes nothing, however late it comes, unless that very connection was registered again in between.
   */
  lemma LateUnregister(timeout: real, r: Registry, step: Step, run: seq<Step>, r': Registry, stale: ConnId)
    requires RegistryInv(r) && step.action.DoRegister? && Runs(timeout, Next(r, step), run, r')
    requires stale.agent == step.action.conn.agent && stale != step.action.conn
    requires forall i | 0 <= i < |run| && run[i].action.DoRegister? :: run[i].action.conn != stale
    ensures Unregister(r', stale) == r'
  {
    var agent := NewAgent(step.action.conn, step.action.capabilities, step.action.tags, step.action.schemas, step.at);
    RegisterInv(r, agent);
    RunInv(timeout, Next(r, step), run, r');
  }

  /** A clean-up leaves exactly the agents that are alive, and no trace of the others. */
  lemma CleanupLeavesTheLiving(timeout: real, r: Registry, dead: seq<ConnId>, now: real)
    requires RegistryInv(r) && ListsDead(r, dead, timeout, now)
    ensures var r' := RemoveAll(r, dead);
            && RegistryInv(r')
            && (forall c :: c in r'.agents <==> c in r.agents && now - r.agents[c].lastSeen <= timeout)
            && (forall c | c in r'.agents :: r'.agents[c] == r.agents[c])
  {
    RemoveAllInv(r, dead);
  }

  // ----- What each operation does -----

  /**
   A registered agent is online and just seen, with what it brought, under its new connection and no other; its schemas
   are exactly the ones it brought; other agents are untouched.
   */
  lemma RegisterEffect(r: Registry, conn: ConnId, capabilities: seq<string>, tags: seq<string>,
                       schemas: map<string, Schema>, at: real)
    requires RegistryInv(r)
    ensures var t := Next(r, Step(DoRegister(conn, capabilities, tags, schemas), at));
            && conn in t.agents && t.agents[conn].conn == conn
            && t.agents[conn].id == conn.agent && t.agents[conn].tenant == conn.tenant
            && t.agents[conn].capabilities == capabilities && t.agents[conn].tags == tags
            && t.agents[conn].schemas == schemas && t.agents[conn].status == Online
            && t.agents[conn].lastSeen == at && t.agents[conn].load == 0.0
            && conn.agent in t.connByAgent && t.connByAgent[conn.agent] == conn
            && (forall c | c in t.agents && c != conn :: c.agent != conn.agent && c in r.agents && t.agents[c] == r.agents[c])
            && (forall c | c in r.agents && c.agent != conn.agent :: c in t.agents)
            && (conn.agent in t.views.schemas <==> schemas != map[])
            && (schemas != map[] ==> t.views.schemas[conn.agent] == schemas)
  {
    var agent := NewAgent(conn, capabilities, tags, schemas, at);
    RegisterInv(r, agent);
    hide RegistryInv, Enter, Remove, MapsAgree, SchemasAgree, ViewsInv;
    if conn.agent in r.connByAgent {
      HasConn(r, conn.agent);
      RemoveInv(r, r.connByAgent[conn.agent]);
      EnterEffect(Remove(r, r.connByAgent[conn.agent]), agent);
      RemovedSchemas(r, r.connByAgent[conn.agent]);
    } else {
      NoConn(r, conn.agent);
      EnterEffect(r, agent);
    }
  }

  lemma HasConn(r: Registry, a: AgentId)
    requires RegistryInv(r) && a in r.connByAgent
    ensures r.connByAgent[a] in r.agents && forall c | c in r.agents && c.agent == a :: c == r.connByAgent[a]
    ensures r.connByAgent[a].agent == a
  {
    hide ViewsInv, SchemasAgree;
  }

  lemma NoConn(r: Registry, a: AgentId)
    requires RegistryInv(r) && a !in r.connByAgent
    ensures (forall c | c in r.agents :: c.agent != a) && a !in r.views.schemas
  {
    hide ViewsInv;
  }

  lemma RemovedSchemas(r: Registry, conn: ConnId)
    requires RegistryInv(r) && conn in r.agents
    ensures conn.agent !in Remove(r, conn).views.schemas
  {
    WithdrawSchemas(r.views, conn.agent);
    hide ViewsInv, SchemasAgree, Withdraw;
  }

  lemma EnterEffect(r: Registry, agent: Agent)
    ensures var t := Enter(r, agent);
            && t.agents == r.agents[agent.conn := agent] && t.connByAgent == r.connByAgent[agent.id := agent.conn]
            && t.views.schemas == if agent.schemas == map[] then r.views.schemas else r.views.schemas[agent.id := agent.schemas]
  {
    hide Offer;
    OfferSchemas(r.views, agent.id, agent.schemas);
  }

  /** An unregistered connection and its agent are gone with the agent's schemas; everything else stays. */
  lemma UnregisterEffect(r: Registry, conn: ConnId)
    requires RegistryInv(r)
    ensures var t := Unregister(r, conn);
            if conn !in r.agents then t == r
            else
              && t.agents == r.agents - {conn} && t.connections == r.connections - {conn}
              && t.connByAgent == r.connByAgent - {conn.agent} && t.views.schemas == r.views.schemas - {conn.agent}
  {
    if conn in r.agents {
      hide ViewsInv, SchemasAgree, Withdraw;
      WithdrawSchemas(r.views, conn.agent);
    }
  }

  lemma HeartbeatEffect(r: Registry, conn: ConnId, now: real)
    ensures var t := Heartbeat(r, conn, now);
            && t == r.(agents := t.agents) && t.agents.Keys == r.agents.Keys
            && (forall c | c in r.agents && c != conn :: t.agents[c] == r.agents[c])
            && (conn in r.agents ==>
                  && t.agents[conn].lastSeen == now
                  && t.agents[conn].status == (if r.agents[conn].status == Offline then Online else r.agents[conn].status)
                  && t.agents[conn] == r.agents[conn].(lastSeen := now, status := t.agents[conn].status))
  {
  }

  /** An agent survives every clean-up that comes within the timeout after its heartbeat. */
  lemma HeartbeatSurvives(timeout: real, r: Registry, conn: ConnId, at: real, dead: seq<ConnId>, now: real)
    requires RegistryInv(r) && conn in r.agents && now - at <= timeout
    requires ListsDead(Heartbeat(r, conn, at), dead, timeout, now)
    ensures conn in RemoveAll(Heartbeat(r, conn, at), dead).agents
  {
    HeartbeatInv(r, conn, at);
    HeartbeatEffect(r, conn, at);
    hide RegistryInv, Heartbeat;
    CleanupLeavesTheLiving(timeout, Heartbeat(r, conn, at), dead, now);
  }

  // ----- Candidates -----

  datatype Wish = Wish(tenant: string, capability: string, tags: seq<string>, exclude: Option<AgentId>)

  /** An empty capability and an empty list of tags ask for nothing. */
  predicate Fits(wish: Wish, agent: Agent) {
    && agent.tenant == wish.tenant && agent.status == Online
    && Some(agent.id) != wish.exclude
    && (wish.capability != "" ==> wish.capability in agent.capabilities)
    && (wish.tags != [] ==> exists t :: t in wish.tags && t in agent.tags)
  }

  /** A wish without extras fits the online agents of the tenant, and each extra narrows it by itself. */
  lemma WishNarrows(wish: Wish, agent: Agent)
    ensures Fits(Wish(wish.tenant, "", [], None), agent) <==> agent.tenant == wish.tenant && agent.status == Online
    ensures wish.capability != "" ==>
              (Fits(wish, agent) <==> Fits(wish.(capability := ""), agent) && exists i :: 0 <= i < |agent.capabilities| && agent.capabilities[i] == wish.capability)
    ensures wish.tags != [] ==>
              (Fits(wish, agent) <==> Fits(wish.(tags := []), agent) && SharesTag(wish.tags, agent.tags))
    ensures wish.exclude.Some? ==> (Fits(wish, agent) <==> Fits(wish.(exclude := None), agent) && agent.id != wish.exclude.value)
  {
    if SharesTag(wish.tags, agent.tags) {
      var i, j :| 0 <= i < |wish.tags| && 0 <= j < |agent.tags| && wish.tags[i] == agent.tags[j];
      assert wish.tags[i] in wish.tags && wish.tags[i] in agent.tags;
    }
  }

  predicate SharesTag(wanted: seq<string>, had: seq<string>) {
    exists i, j :: 0 <= i < |wanted| && 0 <= j < |had| && wanted[i] == had[j]
  }

  predicate Sorted(agents: seq<Agent>) {
    forall i, j | 0 <= i < j < |agents| :: agents[i].load <= agents[j].load
  }

  /** Puts an agent after those of no greater load. */
  function Insert(sorted: seq<Agent>, agent: Agent): seq<Agent> {
    if sorted == [] || sorted[|sorted| - 1].load <= agent.load then sorted + [agent]
    else Insert(sorted[..|sorted| - 1], agent) + [sorted[|sorted| - 1]]
  }

  /** Sorting by load, agents of equal load in their given order. */
  function SortByLoad(agents: seq<Agent>): seq<Agent> {
    if agents == [] then [] else Insert(SortByLoad(agents[..|agents| - 1]), agents[|agents| - 1])
  }

  function WithLoad(load: real): Agent -> bool {
    (agent: Agent) => agent.load == load
  }

  lemma {:induction false} InsertPermutes(sorted: seq<Agent>, agent: Agent)
    ensures multiset(Insert(sorted, agent)) == multiset(sorted) + multiset{agent}
  {
    var n := |sorted| - 1;
    if sorted != [] && sorted[n].load > agent.load {
      InsertPermutes(sorted[..n], agent);
      assert sorted == sorted[..n] + [sorted[n]];
    }
  }

  lemma {:induction false} InsertSorts(sorted: seq<Agent>, agent: Agent)
    requires Sorted(sorted)
    ensures Sorted(Insert(sorted, agent))
  {
    var n := |sorted| - 1;
    if sorted != [] && sorted[n].load > agent.load {
      var out := Insert(sorted[..n], agent);
      InsertSorts(sorted[..n], agent);
      InsertPermutes(sorted[..n], agent);
      forall i | 0 <= i < |out|
        ensures out[i].load <= sorted[n].load
      {
        assert out[i] in multiset(out);
        assert out[i] in sorted[..n] || out[i] == agent;
      }
    }
  }

  lemma {:induction false} InsertLast(sorted: seq<Agent>, agent: Agent, load: real)
    requires Sorted(sorted)
    ensures Filter(Insert(sorted, agent), WithLoad(load)) ==
            Filter(sorted, WithLoad(load)) + if agent.load == load then [agent] else []
  {
    var n := |sorted| - 1;
    if sorted == [] || sorted[n].load <= agent.load {
      assert (sorted + [agent])[..|sorted|] == sorted;
    } else {
      var init, last := sorted[..n], sorted[n];
      InsertLast(init, agent, load);
      var out := Insert(init, agent);
      assert (out + [last])[..|out|] == out;
    }
  }

  /** The sort is a permutation, in ascending order of load, and keeps the order among equal loads. */
  lemma {:induction false} SortIsStable(agents: seq<Agent>, load: real)
    ensures Sorted(SortByLoad(agents)) && multiset(SortByLoad(agents)) == multiset(agents)
    ensures Filter(SortByLoad(agents), WithLoad(load)) == Filter(agents, WithLoad(load))
  {
    if agents != [] {
      var n := |agents| - 1;
      SortIsStable(agents[..n], load);
      InsertSorts(SortByLoad(agents[..n]), agents[n]);
      InsertPermutes(SortByLoad(agents[..n]), agents[n]);
      InsertLast(SortByLoad(agents[..n]), agents[n], load);
      assert agents == agents[..n] + [agents[n]];
    }
  }
}
