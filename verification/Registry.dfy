/** The agent registry and the view registry, updated in place. */
module Registry {
  import opened Prelude
  import R = RegistrySpec

  class ViewRegistry {
    var schemasByAgent: map<R.AgentId, map<string, R.Schema>>
    var agentsByCapability: map<string, set<R.AgentId>>

    ghost function View(): R.Views
      reads this
    {
      R.Views(schemasByAgent, agentsByCapability)
    }

    constructor ()
      ensures View() == R.Views(map[], map[])
    {
      schemasByAgent, agentsByCapability := map[], map[];
    }

    method RegisterAgentSchemas(agent: R.AgentId, schemas: map<string, R.Schema>)
      modifies this
      ensures View() == R.Offer(old(View()), agent, schemas)
    {
      if agent in schemasByAgent {
        UnregisterAgentSchemas(agent);
      }
      assert View() == R.Withdraw(old(View()), agent);
      hide R.Withdraw, R.Provided;
      schemasByAgent := schemasByAgent[agent := schemas];
      Provide(agent, schemas.Keys);
    }

    method Provide(agent: R.AgentId, capabilities: set<string>)
      modifies `agentsByCapability
      ensures agentsByCapability == R.Provided(old(agentsByCapability), capabilities, agent)
    {
      var todo := capabilities;
      while todo != {}
        invariant todo <= capabilities
        invariant agentsByCapability == R.Provided(old(agentsByCapability), capabilities - todo, agent)
        decreases todo
      {
        var cap :| cap in todo;
        agentsByCapability := agentsByCapability[cap := At(agentsByCapability, cap) + {agent}];
        todo := todo - {cap};
      }
      assert capabilities - todo == capabilities;
    }

    method UnregisterAgentSchemas(agent: R.AgentId)
      modifies this
      ensures View() == R.Withdraw(old(View()), agent)
    {
      if agent !in schemasByAgent {
        return;
      }
      var capabilities := schemasByAgent[agent].Keys;
      schemasByAgent := schemasByAgent - {agent};
      ghost var before := agentsByCapability;
      var todo := capabilities;
      while todo != {}
        invariant todo <= capabilities && schemasByAgent == old(schemasByAgent) - {agent}
        invariant agentsByCapability == R.Dropped(before, capabilities - todo, agent)
        decreases todo
      {
        var cap :| cap in todo;
        if cap in agentsByCapability {
          var rest := agentsByCapability[cap] - {agent};
          agentsByCapability := if rest == {} then agentsByCapability - {cap} else agentsByCapability[cap := rest];
        }
        todo := todo - {cap};
      }
      assert capabilities - todo == capabilities;
    }
  }

  class AgentRecord {
    const conn: R.ConnId
    const capabilities: seq<string>
    const tags: seq<string>
    const schemas: map<string, R.Schema>
    var status: R.Status
    var lastSeen: real
    var load: real

    function View(): R.Agent
      reads this
    {
      R.Agent(conn.agent, conn.tenant, conn, capabilities, tags, schemas, status, lastSeen, load)
    }

    constructor (conn: R.ConnId, capabilities: seq<string>, tags: seq<string>, schemas: map<string, R.Schema>, now: real)
      ensures View() == R.NewAgent(conn, capabilities, tags, schemas, now)
    {
      this.conn, this.capabilities, this.tags, this.schemas := conn, capabilities, tags, schemas;
      status, lastSeen, load := R.Online, now, 0.0;
    }
  }

  class AgentRegistry {
    const timeout: real
    const views: ViewRegistry
    var agentsByConn: map<R.ConnId, AgentRecord>
    var connByAgent: map<R.AgentId, R.ConnId>
    var connections: map<R.ConnId, R.Socket>

    ghost predicate Valid()
      reads this
    {
      forall c | c in agentsByConn :: agentsByConn[c].conn == c
    }

    static ghost function Agents(agents: map<R.ConnId, AgentRecord>): map<R.ConnId, R.Agent>
      reads agents.Values
    {
      map c | c in agents :: agents[c].View()
    }

    ghost function View(): R.Registry
      reads this, agentsByConn.Values, views
    {
      R.Registry(Agents(agentsByConn), connByAgent, connections, views.View())
    }

    constructor (timeout: real)
      ensures Valid() && fresh(views) && View() == R.EMPTY && this.timeout == timeout
    {
      this.timeout := timeout;
      views := new ViewRegistry();
      agentsByConn, connByAgent, connections := map[], map[], map[];
    }

    method RemoveAgent(conn: R.ConnId)
      requires Valid()
      modifies this, views
      ensures Valid() && View() == R.Remove(old(View()), conn) && agentsByConn == old(agentsByConn) - {conn}
    {
      hide R.Withdraw;
      if conn in agentsByConn {
        var agent := agentsByConn[conn].conn.agent;
        agentsByConn, connByAgent := agentsByConn - {conn}, connByAgent - {agent};
        views.UnregisterAgentSchemas(agent);
      } else {
        assert agentsByConn - {conn} == agentsByConn;
      }
      connections := connections - {conn};
    }

    method Register(conn: R.ConnId, capabilities: seq<string>, tags: seq<string>, schemas: map<string, R.Schema>, now: real)
      returns (agent: AgentRecord)
      requires Valid()
      modifies this, views
      ensures Valid() && View() == R.Register(old(View()), R.NewAgent(conn, capabilities, tags, schemas, now))
      ensures conn in agentsByConn && agentsByConn[conn] == agent && fresh(agent)
    {
      hide R.Remove, R.Enter;
      if conn.agent in connByAgent {
        RemoveAgent(connByAgent[conn.agent]);
      }
      agent := new AgentRecord(conn, capabilities, tags, schemas, now);
      Enter(agent);
    }

    static lemma AgentsAdd(agents: map<R.ConnId, AgentRecord>, agent: AgentRecord)
      ensures Agents(agents[agent.conn := agent]) == Agents(agents)[agent.conn := agent.View()]
    {
    }

    method Enter(agent: AgentRecord)
      requires Valid()
      modifies this, views
      ensures Valid() && View() == R.Enter(old(View()), agent.View())
      ensures agentsByConn == old(agentsByConn)[agent.conn := agent]
    {
      AgentsAdd(agentsByConn, agent);
      hide R.Offer, AgentRegistry.Agents;
      agentsByConn := agentsByConn[agent.conn := agent];
      connByAgent := connByAgent[agent.conn.agent := agent.conn];
      connections := connections[agent.conn := agent.conn.socket];
      if agent.schemas != map[] {
        views.RegisterAgentSchemas(agent.conn.agent, agent.schemas);
      }
    }

    method Unregister(conn: R.ConnId) returns (agent: Option<AgentRecord>)
      requires Valid()
      modifies this, views
      ensures Valid() && View() == R.Unregister(old(View()), conn)
      ensures agent == if conn in old(agentsByConn) then Some(old(agentsByConn)[conn]) else None
    {
      hide R.Remove;
      if conn !in agentsByConn {
        return None;
      }
      agent := Some(agentsByConn[conn]);
      RemoveAgent(conn);
    }

    method Heartbeat(conn: R.ConnId, now: real) returns (found: bool)
      requires Valid()
      modifies agentsByConn.Values
      ensures Valid() && View() == R.Heartbeat(old(View()), conn, now) && found == (conn in agentsByConn)
    {
      if conn !in agentsByConn {
        return false;
      }
      var agent := agentsByConn[conn];
      agent.lastSeen := now;
      if agent.status == R.Offline {
        agent.status := R.Online;
      }
      found := true;
    }

    /** Marks the dead agents offline, then removes them in the order in which they were met. */
    method CleanupDeadAgents(now: real) returns (ghost dead: seq<R.ConnId>)
      requires Valid()
      modifies this, views, agentsByConn.Values
      ensures Valid() && R.ListsDead(old(View()), dead, timeout, now)
      ensures View() == R.RemoveAll(old(View()), dead)
    {
      ghost var before := View();
      var found: seq<R.ConnId>;
      found := MarkDead(now);
      dead := found;
      ghost var marked := View();
      for i := 0 to |found|
        invariant Valid() && View() == R.RemoveAll(marked, found[..i])
      {
        assert found[..i + 1][..i] == found[..i];
        RemoveAgent(found[i]);
      }
      assert found[..|found|] == found;
      MarkedAlike(before, marked, found);
    }

    method MarkDead(now: real) returns (dead: seq<R.ConnId>)
      requires Valid()
      modifies agentsByConn.Values
      ensures Valid() && R.ListsDead(old(View()), dead, timeout, now)
      ensures Agents(agentsByConn) == Marked(old(Agents(agentsByConn)), R.Members(dead))
    {
      ghost var before := Agents(agentsByConn);
      dead := [];
      var todo := agentsByConn.Keys;
      while todo != {}
        invariant Valid() && todo <= agentsByConn.Keys && R.NoRepeats(dead)
        invariant forall c :: c in R.Members(dead) <==> c in before.Keys - todo && R.Dead(before[c], timeout, now)
        invariant Agents(agentsByConn) == Marked(before, R.Members(dead))
        decreases todo
      {
        var conn :| conn in todo;
        var agent := agentsByConn[conn];
        assert Agents(agentsByConn)[conn] == before[conn];
        if !(now - agent.lastSeen <= timeout) && agent.status != R.Offline {
          agent.status := R.Offline;
          assert R.Members(dead + [conn]) == R.Members(dead) + {conn};
          dead := dead + [conn];
        }
        todo := todo - {conn};
      }
    }

    /**
     The agents that fit a wish, least loaded first, at most `max` of them; a negative `max` drops that many
     from the end. `order` is the dictionary's order of its keys. No agent that fits and is left out has a smaller
     load than one that is returned.
     */
    method FindCandidates(order: seq<R.ConnId>, wish: R.Wish, max: int) returns (out: seq<R.Agent>)
      requires R.NoRepeats(order) && R.Members(order) == agentsByConn.Keys
      ensures out == Cut(R.SortByLoad(Filter(Listed(order), (a: R.Agent) => R.Fits(wish, a))), max)
      ensures R.Sorted(out)
      ensures forall a | a in out :: R.Fits(wish, a) && exists c :: c in agentsByConn && agentsByConn[c].View() == a
      ensures forall c | c in agentsByConn && R.Fits(wish, agentsByConn[c].View()) ::
                agentsByConn[c].View() in out || forall a | a in out :: a.load <= agentsByConn[c].View().load
    {
      assert forall c | c in order :: c in R.Members(order);
      var found: seq<R.Agent> := [];
      for i := 0 to |order|
        invariant found == Filter(Listed(order[..i]), (a: R.Agent) => R.Fits(wish, a))
      {
        assert order[..i + 1][..i] == order[..i];
        var agent := agentsByConn[order[i]].View();
        assert Listed(order[..i + 1])[..i] == Listed(order[..i]);
        if R.Fits(wish, agent) {
          found := found + [agent];
        }
      }
      assert order[..|order|] == order;
      out := Cut(R.SortByLoad(found), max);
      ListedAll(order);
      hide R.SortByLoad, Filter, R.Fits, Cut, R.Sorted, AgentRegistry.Listed;
      BestIsSorted(Listed(order), wish, max);
      forall a: R.Agent
        ensures a in out ==> a in Listed(order) && R.Fits(wish, a)
        ensures a in Listed(order) && R.Fits(wish, a) ==> a in out || forall b | b in out :: b.load <= a.load
      {
        BestOf(Listed(order), wish, max, a);
      }
    }

    ghost function Listed(conns: seq<R.ConnId>): (agents: seq<R.Agent>)
      requires forall c | c in conns :: c in agentsByConn
      reads this, agentsByConn.Values
      ensures |agents| == |conns|
    {
      if conns == [] then [] else Listed(conns[..|conns| - 1]) + [agentsByConn[conns[|conns| - 1]].View()]
    }

    lemma {:induction false} ListedIs(conns: seq<R.ConnId>)
      requires forall c | c in conns :: c in agentsByConn
      ensures forall i | 0 <= i < |conns| :: Listed(conns)[i] == agentsByConn[conns[i]].View()
    {
      if conns != [] {
        ListedIs(conns[..|conns| - 1]);
      }
    }

    /** The listed agents are the registered ones. */
    lemma ListedAll(order: seq<R.ConnId>)
      requires R.Members(order) == agentsByConn.Keys && forall c | c in order :: c in agentsByConn
      ensures forall c | c in agentsByConn :: agentsByConn[c].View() in Listed(order)
      ensures forall a | a in Listed(order) :: exists c :: c in agentsByConn && agentsByConn[c].View() == a
    {
      ListedIs(order);
      hide AgentRegistry.Listed;
      forall c | c in agentsByConn
        ensures agentsByConn[c].View() in Listed(order)
      {
        assert c in R.Members(order);
        var i :| 0 <= i < |order| && order[i] == c;
        assert Listed(order)[i] == agentsByConn[c].View();
      }
      forall a | a in Listed(order)
        ensures exists c :: c in agentsByConn && agentsByConn[c].View() == a
      {
        var i :| 0 <= i < |order| && Listed(order)[i] == a;
        assert order[i] in agentsByConn;
      }
    }
  }

  /** What the filter, the stable sort and the cut leave: agents that fit, and none more loaded than one left out. */
  lemma BestOf(agents: seq<R.Agent>, wish: R.Wish, max: int, x: R.Agent)
    ensures var out := Cut(R.SortByLoad(Filter(agents, (a: R.Agent) => R.Fits(wish, a))), max);
            && (x in out ==> x in agents && R.Fits(wish, x))
            && (x in agents && R.Fits(wish, x) ==> x in out || forall a | a in out :: a.load <= x.load)
  {
    hide R.SortByLoad, Filter, R.Fits, Cut, R.Sorted;
    var fits := (a: R.Agent) => R.Fits(wish, a);
    var found := Filter(agents, fits);
    SortSorts(found);
    FilterIn(agents, fits, x);
    CutLeast(R.SortByLoad(found), max, x);
    assert x in R.SortByLoad(found) <==> x in multiset(R.SortByLoad(found));
    assert x in found <==> x in multiset(found);
  }

  lemma BestIsSorted(agents: seq<R.Agent>, wish: R.Wish, max: int)
    ensures R.Sorted(Cut(R.SortByLoad(Filter(agents, (a: R.Agent) => R.Fits(wish, a))), max))
  {
    SortSorts(Filter(agents, (a: R.Agent) => R.Fits(wish, a)));
  }

  lemma SortSorts(agents: seq<R.Agent>)
    ensures R.Sorted(R.SortByLoad(agents)) && multiset(R.SortByLoad(agents)) == multiset(agents)
  {
    R.SortIsStable(agents, 0.0);
  }

  /** The cut keeps the least loaded. */
  lemma CutLeast(sorted: seq<R.Agent>, n: int, x: R.Agent)
    requires R.Sorted(sorted)
    ensures x in Cut(sorted, n) ==> x in sorted
    ensures x in sorted ==> x in Cut(sorted, n) || forall a | a in Cut(sorted, n) :: a.load <= x.load
  {
    var t := Cut(sorted, n);
    assert t == sorted[..|t|];
    if x in sorted {
      var j :| 0 <= j < |sorted| && sorted[j] == x;
      if j < |t| {
        assert t[j] == x;
      }
    }
  }

  /** Python's `s[:n]`. */
  function Cut<T>(s: seq<T>, n: int): (t: seq<T>)
    ensures t <= s && (n >= 0 ==> |t| == if n < |s| then n else |s|)
    ensures n < 0 ==> |t| == if |s| + n > 0 then |s| + n else 0
  {
    if n >= 0 then (if n < |s| then s[..n] else s)
    else if -n <= |s| then s[..|s| + n] else []
  }

  /** The agents with those of `dead` offline. */
  ghost function Marked(agents: map<R.ConnId, R.Agent>, dead: set<R.ConnId>): map<R.ConnId, R.Agent> {
    map c | c in agents :: if c in dead then agents[c].(status := R.Offline) else agents[c]
  }

  lemma {:induction false} RemoveAllAgents(r: R.Registry, conns: seq<R.ConnId>)
    ensures R.RemoveAll(r, conns).agents == r.agents - R.Members(conns)
  {
    if conns == [] {
      assert R.Members(conns) == {};
    } else {
      var n := |conns| - 1;
      RemoveAllAgents(r, conns[..n]);
      assert conns == conns[..n] + [conns[n]];
      assert R.Members(conns) == R.Members(conns[..n]) + {conns[n]};
      hide R.Withdraw, R.Members;
      assert r.agents - R.Members(conns[..n]) - {conns[n]} == r.agents - R.Members(conns);
    }
  }

  /** Removing agents that were marked offline first comes to the same as removing them unmarked. */
  lemma MarkedAlike(r: R.Registry, marked: R.Registry, dead: seq<R.ConnId>)
    requires marked == r.(agents := Marked(r.agents, R.Members(dead)))
    ensures R.RemoveAll(marked, dead) == R.RemoveAll(r, dead)
  {
    assert dead[..|dead|] == dead;
    MarkedSoFar(r, marked, dead, |dead|);
    RemoveAllAgents(r, dead);
    var left := R.RemoveAll(r, dead).agents;
    assert Marked(left, R.Members(dead)) == left;
  }

  lemma {:induction false} MarkedSoFar(r: R.Registry, marked: R.Registry, dead: seq<R.ConnId>, n: nat)
    requires marked == r.(agents := Marked(r.agents, R.Members(dead))) && n <= |dead|
    ensures var (s, t) := (R.RemoveAll(r, dead[..n]), R.RemoveAll(marked, dead[..n]));
            t == s.(agents := Marked(s.agents, R.Members(dead)))
  {
    if n > 0 {
      MarkedSoFar(r, marked, dead, n - 1);
      assert dead[..n][..n - 1] == dead[..n - 1];
      MarkedStep(R.RemoveAll(r, dead[..n - 1]), R.Members(dead), dead[n - 1]);
    }
  }

  lemma MarkedStep(s: R.Registry, dead: set<R.ConnId>, conn: R.ConnId)
    ensures var t := R.Remove(s, conn);
            R.Remove(s.(agents := Marked(s.agents, dead)), conn) == t.(agents := Marked(t.agents, dead))
  {
    hide R.Withdraw;
    assert Marked(s.agents, dead) - {conn} == Marked(s.agents - {conn}, dead);
  }
}
