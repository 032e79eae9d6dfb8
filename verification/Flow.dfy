/** Flows of agents: removing duplicates, and the graph that is built from dependencies and routes. */
module Flow {
  import opened Prelude

  type Id = string

  datatype AgentNode = AgentNode(id: Id, capability: string, dependsOn: seq<Id>)

  datatype RouteMapping = RouteMapping(value: string, next: Id)

  datatype Route = Route(source: Id, field: string, mappings: seq<RouteMapping>, default: Id)

  datatype AgentFlow = AgentFlow(agents: seq<AgentNode>, entry: Id, routes: seq<Route>)

  datatype Node = Start | End | Agent(id: Id)

  datatype Edge = Edge(source: Node, target: Node)

  /** A conditional edge leads to one of its targets. */
  datatype Branch = Branch(source: Id, targets: set<Id>)

  datatype Graph = Graph(nodes: set<Id>, edges: set<Edge>, branches: seq<Branch>)

  datatype Built = Ok(graph: Graph) | DuplicateIds

  function Ids(agents: seq<AgentNode>): set<Id> {
    set a | a in agents :: a.id
  }

  predicate DistinctIds(agents: seq<AgentNode>) {
    forall i, j | 0 <= i < j < |agents| :: agents[i].id != agents[j].id
  }

  // ----- Removing duplicates -----

  /** The first occurrence of each identifier, in order. */
  function FirstOnly(agents: seq<AgentNode>): seq<AgentNode> {
    if agents == [] then [] else
      var n := |agents| - 1;
      FirstOnly(agents[..n]) + (if agents[n].id in Ids(agents[..n]) then [] else [agents[n]])
  }

  /** Compares the number of identifiers with the number of agents. */
  method HasDuplicates(agents: seq<AgentNode>) returns (duplicates: bool)
    ensures duplicates == !DistinctIds(agents)
  {
    var ids: set<Id> := {};
    for i := 0 to |agents|
      invariant ids == Ids(agents[..i]) && |ids| <= i
      invariant |ids| == i <==> DistinctIds(agents[..i])
    {
      var a := agents[i];
      assert agents[..i + 1] == agents[..i] + [a];
      IdsSnoc(agents[..i], a);
      DistinctSnoc(agents[..i], a);
      if a.id in ids {
        assert ids + {a.id} == ids;
      }
      ids := ids + {a.id};
    }
    assert agents[..|agents|] == agents;
    duplicates := |ids| != |agents|;
  }

  /** The agents of a discovered flow, without duplicates. */
  method Deduplicate(agents: seq<AgentNode>) returns (out: seq<AgentNode>)
    ensures out == FirstOnly(agents)
  {
    FirstOnlyIsDistinct(agents);
    var duplicates := HasDuplicates(agents);
    if !duplicates {
      return agents;
    }
    var seen: set<Id> := {};
    out := [];
    for i := 0 to |agents|
      invariant seen == Ids(agents[..i]) && out == FirstOnly(agents[..i])
    {
      assert agents[..i + 1][..i] == agents[..i];
      assert agents[..i + 1] == agents[..i] + [agents[i]];
      IdsSnoc(agents[..i], agents[i]);
      if agents[i].id !in seen {
        seen := seen + {agents[i].id};
        out := out + [agents[i]];
      } else {
        assert seen + {agents[i].id} == seen;
      }
    }
    assert agents[..|agents|] == agents;
  }

  lemma IdsSnoc(agents: seq<AgentNode>, a: AgentNode)
    ensures Ids(agents + [a]) == Ids(agents) + {a.id}
  {
    forall x
      ensures x in Ids(agents + [a]) <==> x in Ids(agents) + {a.id}
    {
      if x in Ids(agents) {
        var b :| b in agents && b.id == x;
        assert b in agents + [a];
      }
      assert a in agents + [a];
    }
  }

  /** Whether position `i` holds the first agent with its identifier. */
  predicate IsFirst(agents: seq<AgentNode>, i: nat)
    requires i < |agents|
  {
    forall j | 0 <= j < i :: agents[j].id != agents[i].id
  }

  /** De-duplication keeps exactly the first occurrences, in their order. */
  lemma {:induction false} FirstOnlyKeepsFirsts(agents: seq<AgentNode>) returns (kept: seq<nat>)
    ensures |kept| == |FirstOnly(agents)|
    ensures forall k | 0 <= k < |kept| :: kept[k] < |agents| && FirstOnly(agents)[k] == agents[kept[k]]
    ensures forall k, l | 0 <= k < l < |kept| :: kept[k] < kept[l]
    ensures forall i | 0 <= i < |agents| :: i in kept <==> IsFirst(agents, i)
  {
    kept := [];
    if agents != [] {
      var n := |agents| - 1;
      kept := FirstOnlyKeepsFirsts(agents[..n]);
      FirstOnlySnoc(agents);
      hide FirstOnly;
      assert agents[n].id in Ids(agents[..n]) <==> !IsFirst(agents, n);
      assert forall i | 0 <= i < n :: IsFirst(agents, i) == IsFirst(agents[..n], i);
      if IsFirst(agents, n) {
        kept := kept + [n];
        assert kept[|kept| - 1] == n;
      }
    }
  }

  /** It loses no identifier, leaves no two agents with the same one, and changes nothing if there were none. */
  lemma {:induction false} FirstOnlyIsDistinct(agents: seq<AgentNode>)
    ensures DistinctIds(FirstOnly(agents)) && Ids(FirstOnly(agents)) == Ids(agents)
    ensures DistinctIds(agents) ==> FirstOnly(agents) == agents
  {
    if agents != [] {
      hide Ids, DistinctIds, FirstOnly;
      var n := |agents| - 1;
      var init, last := agents[..n], agents[n];
      assert agents == init + [last];
      FirstOnlySnoc(agents);
      FirstOnlyIsDistinct(init);
      IdsSnoc(init, last);
      IdsSnoc(FirstOnly(init), last);
      DistinctSnoc(init, last);
      DistinctSnoc(FirstOnly(init), last);
      if last.id in Ids(init) {
        assert Ids(init) + {last.id} == Ids(init);
      }
    }
  }

  lemma FirstOnlySnoc(agents: seq<AgentNode>)
    requires agents != []
    ensures var init, last := agents[..|agents| - 1], agents[|agents| - 1];
            FirstOnly(agents) == if last.id in Ids(init) then FirstOnly(init) else FirstOnly(init) + [last]
  {
  }

  lemma DistinctSnoc(agents: seq<AgentNode>, a: AgentNode)
    ensures DistinctIds(agents + [a]) <==> DistinctIds(agents) && a.id !in Ids(agents)
  {
    var all := agents + [a];
    assert forall i | 0 <= i < |agents| :: all[i] == agents[i];
    assert all[|agents|] == a;
    if a.id in Ids(agents) {
      var i :| 0 <= i < |agents| && agents[i].id == a.id;
      assert all[i].id == all[|agents|].id;
    }
    if i, j :| 0 <= i < j < |agents| && agents[i].id == agents[j].id {
      assert all[i].id == all[j].id;
    }
  }

  // ----- Building the graph -----

  function Targets(route: Route): set<Id> {
    (set m | m in route.mappings :: m.next) + {route.default}
  }

  predicate Known(flow: AgentFlow, registry: set<Id>, id: Id) {
    id in registry || id in Ids(flow.agents)
  }

  function DependencyEdges(flow: AgentFlow, registry: set<Id>): set<Edge> {
    set a, d | a in flow.agents && d in a.dependsOn && Known(flow, registry, d) :: Edge(Agent(d), Agent(a.id))
  }

  /** The nodes that somebody depends on, and the sources of routes. */
  function WithSuccessors(flow: AgentFlow): set<Id> {
    (set a, d | a in flow.agents && d in a.dependsOn :: d) + (set r | r in flow.routes :: r.source)
  }

  function EndEdges(flow: AgentFlow): set<Edge> {
    set a | a in flow.agents && a.id !in WithSuccessors(flow) :: Edge(Agent(a.id), End)
  }

  function Branches(routes: seq<Route>): seq<Branch> {
    seq(|routes|, i requires 0 <= i < |routes| => Branch(routes[i].source, Targets(routes[i])))
  }

  function GraphOf(flow: AgentFlow, registry: set<Id>): Graph {
    Graph(Ids(flow.agents), {Edge(Start, Agent(flow.entry))} + DependencyEdges(flow, registry) + EndEdges(flow),
          Branches(flow.routes))
  }

  /**
   Refused exactly when two agents share an identifier. The graph can be entered at the entry point only; it has an
   edge for each known dependency, an edge to END for each agent that nobody depends on and no route starts from, and
   a branch for each route.
   */
  method BuildGraph(flow: AgentFlow, registry: set<Id>) returns (built: Built)
    ensures built == if DistinctIds(flow.agents) then Ok(GraphOf(flow, registry)) else DuplicateIds
    ensures built.Ok? <==> forall i, j | 0 <= i < j < |flow.agents| :: flow.agents[i].id != flow.agents[j].id
    ensures built.Ok? ==>
              && (forall x :: x in built.graph.nodes <==> exists a :: a in flow.agents && a.id == x)
              && (forall n :: Edge(Start, n) in built.graph.edges <==> n == Agent(flow.entry))
              && (forall d, x :: Edge(Agent(d), Agent(x)) in built.graph.edges <==>
                    && (d in registry || exists a :: a in flow.agents && a.id == d)
                    && exists a :: a in flow.agents && a.id == x && d in a.dependsOn)
              && (forall x :: Edge(Agent(x), End) in built.graph.edges <==>
                    && (exists a :: a in flow.agents && a.id == x)
                    && (forall a | a in flow.agents :: x !in a.dependsOn)
                    && (forall r | r in flow.routes :: r.source != x))
              && (forall n :: Edge(End, n) !in built.graph.edges && Edge(n, Start) !in built.graph.edges)
              && |built.graph.branches| == |flow.routes|
              && (forall i | 0 <= i < |flow.routes| ::
                    && built.graph.branches[i].source == flow.routes[i].source
                    && forall x :: x in built.graph.branches[i].targets <==>
                         x == flow.routes[i].default || exists m :: m in flow.routes[i].mappings && m.next == x)
  {
    var duplicates := HasDuplicates(flow.agents);
    if duplicates {
      return DuplicateIds;
    }
    var edges := LinkDependencies(flow, registry);
    var successors := CollectSuccessors(flow);
    var ends := LinkEnds(flow, successors);
    GraphLinks(flow, registry);
    GraphEnds(flow, registry);
    GraphBranches(flow, registry);
    built := Ok(Graph(Ids(flow.agents), {Edge(Start, Agent(flow.entry))} + edges + ends, Branches(flow.routes)));
  }

  lemma GraphLinks(flow: AgentFlow, registry: set<Id>)
    ensures var g := GraphOf(flow, registry);
            && (forall x :: x in g.nodes <==> exists a :: a in flow.agents && a.id == x)
            && (forall n :: Edge(Start, n) in g.edges <==> n == Agent(flow.entry))
            && (forall n :: Edge(End, n) !in g.edges && Edge(n, Start) !in g.edges)
            && (forall d, x :: Edge(Agent(d), Agent(x)) in g.edges <==>
                  && (d in registry || exists a :: a in flow.agents && a.id == d)
                  && exists a :: a in flow.agents && a.id == x && d in a.dependsOn)
  {
  }

  lemma GraphEnds(flow: AgentFlow, registry: set<Id>)
    ensures forall x :: Edge(Agent(x), End) in GraphOf(flow, registry).edges <==>
              && (exists a :: a in flow.agents && a.id == x)
              && (forall a | a in flow.agents :: x !in a.dependsOn)
              && (forall r | r in flow.routes :: r.source != x)
  {
    forall x
      ensures x in WithSuccessors(flow) <==>
                (exists a :: a in flow.agents && x in a.dependsOn) || exists r :: r in flow.routes && r.source == x
    {
    }
  }

  lemma GraphBranches(flow: AgentFlow, registry: set<Id>)
    ensures var branches := GraphOf(flow, registry).branches;
            && |branches| == |flow.routes|
            && forall i | 0 <= i < |flow.routes| ::
                 && branches[i].source == flow.routes[i].source
                 && forall x :: x in branches[i].targets <==>
                      x == flow.routes[i].default || exists m :: m in flow.routes[i].mappings && m.next == x
  {
  }

  /** The edges from each known dependency to the agent that depends on it. */
  method LinkDependencies(flow: AgentFlow, registry: set<Id>) returns (edges: set<Edge>)
    ensures edges == DependencyEdges(flow, registry)
  {
    edges := {};
    for i := 0 to |flow.agents|
      invariant edges == set a, d | a in flow.agents[..i] && d in a.dependsOn && Known(flow, registry, d) ::
                               Edge(Agent(d), Agent(a.id))
    {
      var agent := flow.agents[i];
      ghost var before := edges;
      for k := 0 to |agent.dependsOn|
        invariant edges == before + set d | d in agent.dependsOn[..k] && Known(flow, registry, d) :: Edge(Agent(d), Agent(agent.id))
      {
        var dep := agent.dependsOn[k];
        assert agent.dependsOn[..k + 1] == agent.dependsOn[..k] + [dep];
        if dep in registry || dep in Ids(flow.agents) {
          edges := edges + {Edge(Agent(dep), Agent(agent.id))};
        }
      }
      assert agent.dependsOn[..|agent.dependsOn|] == agent.dependsOn;
      assert flow.agents[..i + 1] == flow.agents[..i] + [agent];
    }
    assert flow.agents[..|flow.agents|] == flow.agents;
  }

  method CollectSuccessors(flow: AgentFlow) returns (out: set<Id>)
    ensures out == WithSuccessors(flow)
  {
    out := {};
    for i := 0 to |flow.agents|
      invariant out == set a, d | a in flow.agents[..i] && d in a.dependsOn :: d
    {
      assert flow.agents[..i + 1] == flow.agents[..i] + [flow.agents[i]];
      out := out + set d | d in flow.agents[i].dependsOn;
    }
    assert flow.agents[..|flow.agents|] == flow.agents;
    ghost var dependedOn := out;
    for i := 0 to |flow.routes|
      invariant out == dependedOn + set r | r in flow.routes[..i] :: r.source
    {
      assert flow.routes[..i + 1] == flow.routes[..i] + [flow.routes[i]];
      out := out + {flow.routes[i].source};
    }
    assert flow.routes[..|flow.routes|] == flow.routes;
  }

  method LinkEnds(flow: AgentFlow, successors: set<Id>) returns (edges: set<Edge>)
    ensures edges == set a | a in flow.agents && a.id !in successors :: Edge(Agent(a.id), End)
  {
    edges := {};
    for i := 0 to |flow.agents|
      invariant edges == set a | a in flow.agents[..i] && a.id !in successors :: Edge(Agent(a.id), End)
    {
      assert flow.agents[..i + 1] == flow.agents[..i] + [flow.agents[i]];
      if flow.agents[i].id !in successors {
        edges := edges + {Edge(Agent(flow.agents[i].id), End)};
      }
    }
    assert flow.agents[..|flow.agents|] == flow.agents;
  }

  /** Where a route leads for the value of its field: the first mapping that has the value, or the default. */
  method FollowRoute(route: Route, value: string) returns (next: Id)
    ensures next in Targets(route)
    ensures if exists i :: 0 <= i < |route.mappings| && route.mappings[i].value == value
            then exists i :: 0 <= i < |route.mappings| && route.mappings[i] == RouteMapping(value, next)
                             && forall j | 0 <= j < i :: route.mappings[j].value != value
            else next == route.default
  {
    for i := 0 to |route.mappings|
      invariant forall j | 0 <= j < i :: route.mappings[j].value != value
    {
      if route.mappings[i].value == value {
        assert route.mappings[i] in route.mappings;
        return route.mappings[i].next;
      }
    }
    next := route.default;
  }

  /** What de-duplication leaves never triggers the duplicate error. */
  lemma DiscoveredFlowBuilds(flow: AgentFlow)
    ensures DistinctIds(flow.(agents := FirstOnly(flow.agents)).agents)
  {
    FirstOnlyIsDistinct(flow.agents);
  }

  // ----- What the graph is like -----

  predicate DependedOn(flow: AgentFlow, id: Id) {
    exists a :: a in flow.agents && id in a.dependsOn
  }

  predicate RouteSource(flow: AgentFlow, id: Id) {
    exists r :: r in flow.routes && r.source == id
  }

  /**
   The edges to END leave exactly the agents of the flow that nobody depends on and no route starts from,
   and every agent has an edge or a route to go on.
   */
  lemma EndsExactly(flow: AgentFlow, registry: set<Id>, id: Id)
    ensures Edge(Agent(id), End) in GraphOf(flow, registry).edges <==>
              id in Ids(flow.agents) && !DependedOn(flow, id) && !RouteSource(flow, id)
    ensures id in Ids(flow.agents) ==>
              || (exists e :: e in GraphOf(flow, registry).edges && e.source == Agent(id))
              || (exists b :: b in GraphOf(flow, registry).branches && b.source == id)
  {
    var g := GraphOf(flow, registry);
    if id in Ids(flow.agents) {
      if DependedOn(flow, id) {
        var a :| a in flow.agents && id in a.dependsOn;
        assert Edge(Agent(id), Agent(a.id)) in g.edges;
      } else if RouteSource(flow, id) {
        var i :| 0 <= i < |flow.routes| && flow.routes[i].source == id;
        assert g.branches[i].source == id;
      } else {
        assert id !in WithSuccessors(flow);
        assert Edge(Agent(id), End) in g.edges;
      }
    }
  }

  /** An edge between agents is a dependency. */
  lemma EdgesAreDependencies(flow: AgentFlow, registry: set<Id>, e: Edge)
    requires e in GraphOf(flow, registry).edges
    ensures e.source != End && e.target != Start
    ensures e.source.Agent? && e.target.Agent? ==> Needs(flow, registry, e.source.id, e.target.id)
    ensures e.source.Agent? && e.target == End ==> e.source.id in Ids(flow.agents)
  {
  }

  /** `later` is an agent of the flow that depends on `earlier`, and the graph has the edge. */
  predicate Needs(flow: AgentFlow, registry: set<Id>, earlier: Id, later: Id) {
    Known(flow, registry, earlier) && exists a :: a in flow.agents && a.id == later && earlier in a.dependsOn
  }

  lemma NeedsIsEdge(flow: AgentFlow, registry: set<Id>, earlier: Id, later: Id)
    ensures Needs(flow, registry, earlier, later) <==> Edge(Agent(earlier), Agent(later)) in GraphOf(flow, registry).edges
    ensures Needs(flow, registry, earlier, later) ==> later in Ids(flow.agents)
  {
  }

  /** A walk along the edges of the graph. */
  predicate Walk(g: Graph, p: seq<Node>) {
    forall i | 0 <= i < |p| - 1 :: Edge(p[i], p[i + 1]) in g.edges
  }

  ghost predicate Cyclic(g: Graph) {
    exists p :: |p| >= 2 && p[0] == p[|p| - 1] && Walk(g, p)
  }

  lemma Chained(g: Graph, p: seq<Node>, i: nat)
    requires Walk(g, p) && i + 1 < |p|
    ensures Edge(p[i], p[i + 1]) in g.edges
  {
  }

  /** On a walk from an agent of the flow, everything up to the last node is an agent of the flow. */
  lemma {:induction false} WalkStaysIn(flow: AgentFlow, registry: set<Id>, p: seq<Node>, i: nat)
    requires Walk(GraphOf(flow, registry), p) && i < |p| && p[0].Agent? && p[0].id in Ids(flow.agents)
    ensures p[i] == End ==> i == |p| - 1
    ensures p[i] != End ==> p[i].Agent? && p[i].id in Ids(flow.agents)
  {
    hide Walk, GraphOf, Ids;
    if i > 0 {
      WalkStaysIn(flow, registry, p, i - 1);
      Chained(GraphOf(flow, registry), p, i - 1);
      EdgesAreDependencies(flow, registry, Edge(p[i - 1], p[i]));
      if p[i].Agent? {
        NeedsIsEdge(flow, registry, p[i - 1].id, p[i].id);
      }
    }
    if p[i] == End && i + 1 < |p| {
      Chained(GraphOf(flow, registry), p, i);
      EdgesAreDependencies(flow, registry, Edge(p[i], p[i + 1]));
      assert false;
    }
  }

  function NodeSet(p: seq<Node>): set<Node> {
    set x | x in p
  }

  predicate Repeats(p: seq<Node>) {
    exists i, j :: 0 <= i < j < |p| && p[i] == p[j]
  }

  lemma {:induction false} DistinctCount(p: seq<Node>)
    ensures Repeats(p) || |NodeSet(p)| == |p|
  {
    if p == [] {
      assert NodeSet(p) == {};
    } else {
      var n := |p| - 1;
      assert p == p[..n] + [p[n]];
      DistinctCount(p[..n]);
      if Repeats(p[..n]) {
        var i, j :| 0 <= i < j < n && p[..n][i] == p[..n][j];
        assert p[i] == p[j];
      } else if p[n] in NodeSet(p[..n]) {
        var i :| 0 <= i < n && p[i] == p[n];
        assert Repeats(p);
      } else {
        assert NodeSet(p) == NodeSet(p[..n]) + {p[n]};
      }
    }
  }

  lemma AgentsCount(ids: set<Id>)
    ensures |set x | x in ids :: Agent(x)| == |ids|
    decreases ids
  {
    var nodes := set x | x in ids :: Agent(x);
    if ids == {} {
      assert nodes == {};
    } else {
      var x :| x in ids;
      AgentsCount(ids - {x});
      assert nodes == (set y | y in ids - {x} :: Agent(y)) + {Agent(x)};
    }
  }

  lemma {:induction false} IdsCount(agents: seq<AgentNode>)
    ensures |Ids(agents)| <= |agents|
  {
    if agents == [] {
      assert Ids(agents) == {};
    } else {
      var n := |agents| - 1;
      IdsCount(agents[..n]);
      assert agents == agents[..n] + [agents[n]];
      IdsSnoc(agents[..n], agents[n]);
    }
  }

  /** Without cycles a walk over agents visits none of them twice. */
  lemma LongWalkCycles(flow: AgentFlow, registry: set<Id>, p: seq<Node>)
    requires Walk(GraphOf(flow, registry), p) && |p| > |flow.agents|
    requires forall i | 0 <= i < |p| :: p[i].Agent? && p[i].id in Ids(flow.agents)
    ensures Cyclic(GraphOf(flow, registry))
  {
    hide GraphOf, Ids;
    var nodes := set x | x in Ids(flow.agents) :: Agent(x);
    AgentsCount(Ids(flow.agents));
    IdsCount(flow.agents);
    if !Repeats(p) {
      DistinctCount(p);
      forall x | x in NodeSet(p) ensures x in nodes {
        var i :| 0 <= i < |p| && p[i] == x;
        assert x == Agent(p[i].id);
      }
      Smaller(NodeSet(p), nodes);
      assert false;
    }
    var i, j :| 0 <= i < j < |p| && p[i] == p[j];
    var c := p[i..j + 1];
    assert c[0] == c[|c| - 1] && Walk(GraphOf(flow, registry), c);
  }

  lemma Smaller(a: set<Node>, b: set<Node>)
    requires a <= b
    ensures |a| <= |b|
  {
    assert b == a + (b - a);
  }

  /** The cycle `c` followed round and round for `m` nodes. */
  function Round(c: seq<Node>, m: nat): (p: seq<Node>)
    requires |c| >= 2
    ensures |p| == m
  {
    seq(m, i requires 0 <= i => c[i % (|c| - 1)])
  }

  lemma RoundWalks(g: Graph, c: seq<Node>, m: nat)
    requires |c| >= 2 && c[0] == c[|c| - 1] && Walk(g, c)
    ensures Walk(g, Round(c, m))
  {
    var k := |c| - 1;
    forall i | 0 <= i < m - 1
      ensures Edge(Round(c, m)[i], Round(c, m)[i + 1]) in g.edges
    {
      Successor(i, k);
      Chained(g, c, i % k);
    }
  }

  /** Every walk from an agent of the flow has reached END after at most as many steps as there are agents. */
  ghost predicate AlwaysEnds(flow: AgentFlow, registry: set<Id>) {
    forall p: seq<Node> | Walk(GraphOf(flow, registry), p) && |p| > 0 && p[0].Agent? && p[0].id in Ids(flow.agents) ::
      |p| <= |flow.agents| + 1 && (|p| == |flow.agents| + 1 ==> p[|flow.agents|] == End)
  }

  /** A cycle goes through agents of the flow only. */
  lemma CycleInFlow(flow: AgentFlow, registry: set<Id>, c: seq<Node>)
    requires Walk(GraphOf(flow, registry), c) && |c| >= 2 && c[0] == c[|c| - 1]
    ensures c[0].Agent? && c[0].id in Ids(flow.agents)
  {
    var k := |c| - 2;
    var g := GraphOf(flow, registry);
    Chained(g, c, k);
    Chained(g, c, 0);
    EdgesAreDependencies(flow, registry, Edge(c[k], c[k + 1]));
    EdgesAreDependencies(flow, registry, Edge(c[0], c[1]));
    if c[k].Agent? {
      NeedsIsEdge(flow, registry, c[k].id, c[k + 1].id);
    } else {
      StartsAtEntry(flow, registry, Edge(c[k], c[k + 1]));
      if k > 0 {
        Chained(g, c, k - 1);
        EdgesAreDependencies(flow, registry, Edge(c[k - 1], c[k]));
      }
    }
  }

  lemma StartsAtEntry(flow: AgentFlow, registry: set<Id>, e: Edge)
    requires e in GraphOf(flow, registry).edges && e.source == Start
    ensures e.target == Agent(flow.entry)
  {
  }

  /**
   Along the edges, whatever the routes, the graph of a flow always runs to its end within as many steps as the
   flow has agents if and only if its dependencies have no cycle.
   */
  lemma EndsIffAcyclic(flow: AgentFlow, registry: set<Id>)
    ensures AlwaysEnds(flow, registry) <==> !Cyclic(GraphOf(flow, registry))
  {
    var g, n := GraphOf(flow, registry), |flow.agents|;
    if Cyclic(g) {
      var c :| |c| >= 2 && c[0] == c[|c| - 1] && Walk(g, c);
      CycleInFlow(flow, registry, c);
      RoundWalks(g, c, n + 2);
      assert Round(c, n + 2)[0] == c[0];
    } else {
      hide Ids, GraphOf, Walk, Cyclic;
      forall p: seq<Node> | Walk(g, p) && |p| > 0 && p[0].Agent? && p[0].id in Ids(flow.agents)
        ensures |p| <= n + 1 && (|p| == n + 1 ==> p[n] == End)
      {
        if |p| > n + 1 || (|p| == n + 1 && p[n] != End) {
          ShortWalk(flow, registry, p);
          assert false;
        }
      }
    }
  }

  lemma ShortWalk(flow: AgentFlow, registry: set<Id>, p: seq<Node>)
    requires Walk(GraphOf(flow, registry), p) && |p| > 0 && p[0].Agent? && p[0].id in Ids(flow.agents)
    requires |p| > |flow.agents| + 1 || (|p| == |flow.agents| + 1 && p[|flow.agents|] != End)
    ensures Cyclic(GraphOf(flow, registry))
  {
    hide Ids, GraphOf, Cyclic;
    var q := p[..|flow.agents| + 1];
    forall i | 0 <= i < |q|
      ensures q[i].Agent? && q[i].id in Ids(flow.agents)
    {
      WalkStaysIn(flow, registry, p, i);
    }
    LongWalkCycles(flow, registry, q);
  }

  /**
   Without cycles a walk from START through an entry point that is an agent of the flow reaches END after at most one
   step more than there are agents; without routes it can go on until then.
   */
  lemma EntryReachesEnd(flow: AgentFlow, registry: set<Id>, p: seq<Node>)
    requires Walk(GraphOf(flow, registry), p) && |p| > 0 && p[0] == Start
    requires (exists a :: a in flow.agents && a.id == flow.entry) && !Cyclic(GraphOf(flow, registry))
    ensures |p| <= |flow.agents| + 2 && (|p| == |flow.agents| + 2 ==> p[|p| - 1] == End)
    ensures flow.routes == [] && p[|p| - 1] != End ==> exists n :: Walk(GraphOf(flow, registry), p + [n])
  {
    var g := GraphOf(flow, registry);
    if |p| > 1 {
      var q := p[1..];
      Chained(g, p, 0);
      StartsAtEntry(flow, registry, Edge(p[0], p[1]));
      assert Walk(g, q);
      EndsIffAcyclic(flow, registry);
      WalkStaysIn(flow, registry, q, |q| - 1);
      if flow.routes == [] && p[|p| - 1] != End {
        var n := NeverStuck(flow, registry, q);
        assert Edge(p[|p| - 1], n) in g.edges by { Chained(g, q + [n], |q| - 1); }
        assert Walk(g, p + [n]);
      }
    } else {
      GraphLinks(flow, registry);
      assert Walk(g, p + [Agent(flow.entry)]);
    }
  }

  /** No walk gets stuck before END: without routes, a walk that is still at an agent can go on. */
  lemma NeverStuck(flow: AgentFlow, registry: set<Id>, p: seq<Node>) returns (next: Node)
    requires flow.routes == [] && Walk(GraphOf(flow, registry), p)
    requires |p| > 0 && p[|p| - 1].Agent? && p[|p| - 1].id in Ids(flow.agents)
    ensures Walk(GraphOf(flow, registry), p + [next])
  {
    EndsExactly(flow, registry, p[|p| - 1].id);
    GraphBranches(flow, registry);
    hide GraphOf, Ids;
    var e :| e in GraphOf(flow, registry).edges && e.source == p[|p| - 1];
    next := e.target;
  }
}
